/** The vocabulary of the hierarchical state machine: states, transition
    entries, shared contexts, the reserved wildcard id and the two traversal
    bounds, plus the enter/exit/update notifications the machine emits. */
module MFSMTypes {
  import opened Common

  /** Reserved id: as a transition source it matches every active state; it
      can never be the id of a registered state. */
  const AnyStateId: string := "*"

  /** Upper bound on compound-state expansions while resolving a leaf. */
  const MaxCompoundExpansionDepth: nat := 64

  /** Upper bound on parent-link steps while resolving an ancestor path. */
  const MaxParentChainDepth: nat := 64

  /** A state object as the machine sees it. `initialSubStateId` is "" when
      the state names no initial sub-state (null and "" are treated alike).
      `behaviour` stands for the object's OnEnter/OnUpdate/OnExit callbacks,
      which the model leaves uninterpreted; it tells apart two state objects
      that share an id. */
  datatype State = State(id: string, isCompound: bool, initialSubStateId: string, behaviour: nat)

  /** A transition entry; `condition` is None when the entry has no
      condition, otherwise a token that the condition oracle evaluates. */
  datatype Transition = Transition(fromId: string, toId: string, condition: Option<nat>, priority: int)

  /** The context shared by states and conditions: an opaque part plus the
      per-layer outputs a layered machine writes into it. */
  datatype Context = Context(token: nat, outputs: map<string, string>)

  /** Callback and notification events, in the order the machine issues them:
      Entered is OnEnter followed by OnStateEntered, Exited is OnExit followed
      by OnStateExited, Updated is the leaf's OnUpdate. */
  datatype Event = Entered(id: string) | Exited(id: string) | Updated(id: string)

  /** The ids of a path, in order. */
  function Ids(p: seq<State>): (r: seq<string>)
    ensures |r| == |p|
    ensures forall i :: 0 <= i < |p| ==> r[i] == p[i].id
  {
    seq(|p|, i requires 0 <= i < |p| => p[i].id)
  }

  /** Every registered state is stored under its own id. */
  predicate WellKeyed(states: map<string, State>)
  {
    forall k :: k in states ==> states[k].id == k
  }

  /** The parent id recorded for `id`; "" when none is recorded. */
  function ParentOf(parents: map<string, string>, id: string): string
  {
    if id in parents then parents[id] else ""
  }

  /** Entries are ordered by non-increasing priority. */
  predicate SortedByPriority(ts: seq<Transition>)
  {
    forall i, j :: 0 <= i < j < |ts| ==> ts[i].priority >= ts[j].priority
  }

  /** The registration rules for a transition entry hold against `states`. */
  predicate TransitionRegistered(t: Transition, states: map<string, State>)
  {
    t.fromId != "" && t.toId != "" &&
    (t.fromId == AnyStateId || t.fromId in states) &&
    t.toId in states
  }

  /** OnEnter/OnStateEntered for every state of `p`, first to last. */
  function EnterEvents(p: seq<State>): (r: seq<Event>)
  {
    seq(|p|, i requires 0 <= i < |p| => Entered(p[i].id))
  }

  /** OnExit/OnStateExited for every state of `p`, last to first. */
  function ExitEvents(p: seq<State>): (r: seq<Event>)
  {
    seq(|p|, i requires 0 <= i < |p| => Exited(p[|p| - 1 - i].id))
  }

  lemma EnterEventsSnoc(p: seq<State>, s: State)
    ensures EnterEvents(p + [s]) == EnterEvents(p) + [Entered(s.id)]
  {
  }

  lemma ExitEventsCons(s: State, p: seq<State>)
    ensures ExitEvents([s] + p) == ExitEvents(p) + [Exited(s.id)]
  {
  }
}
