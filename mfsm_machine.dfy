/** The hierarchical state machine: a registry of states with parent links,
    a priority-ordered list of transition entries and the active path from
    the root to the current leaf. The state objects' callbacks and the
    OnStateEntered/OnStateExited notifications are recorded as a ghost trace
    of events. */
module MFSMMachine {
  import opened Common
  import opened MFSMTypes
  import opened MFSMPaths

  /** Every field of a machine, so that a contract can say which ones an
      operation changes and that the others keep their values. */
  datatype Snapshot = Snapshot(
    states: map<string, State>,
    parentId: map<string, string>,
    transitions: seq<Transition>,
    currentPath: seq<State>,
    rootId: string,
    context: Context,
    isStarted: bool,
    isPaused: bool,
    trace: seq<Event>)

  /** The machine after a transition to `toId`: unchanged when the target
      resolves to no path; otherwise the states past the common prefix are
      exited and entered and the active path becomes NextPath. */
  function AfterTransition(m: Snapshot, toId: string): Snapshot
  {
    var target := PathToLeaf(m.states, m.parentId, toId);
    if target == [] then m
    else m.(currentPath := NextPath(m.currentPath, target),
            trace := m.trace + TransitionEvents(m.currentPath, target))
  }

  /** The machine after registering `s` under `parent`: the state and its
      parent link replace any earlier ones with that id, and `s` becomes the
      root when `isRoot` holds, it has no parent and no root is set yet. */
  function Registered(m: Snapshot, s: State, parent: string, isRoot: bool): Snapshot
  {
    m.(states := m.states[s.id := s],
       parentId := m.parentId[s.id := parent],
       rootId := if isRoot && parent == "" && m.rootId == "" then s.id else m.rootId)
  }

  /** Started with a non-empty active path and not paused. */
  predicate IsRunning(m: Snapshot)
  {
    m.isStarted && |m.currentPath| > 0 && !m.isPaused
  }

  /** The id of the active leaf, "" when the path is empty. */
  function LeafOf(m: Snapshot): string
  {
    if m.currentPath == [] then "" else m.currentPath[|m.currentPath| - 1].id
  }

  /** Outcome and machine after Start(ctx, id). The context is set and the
      active path cleared before the leaf path is resolved, so a state whose
      leaf path is empty fails after those two changes. The old path is
      dropped without exit events. */
  function StartSpec(m: Snapshot, ctx: Context, id: string): (Outcome, Snapshot)
  {
    if id == "" || id !in m.states then (Fail(Argument), m)
    else
      var path := PathToLeaf(m.states, m.parentId, id);
      if path == [] then (Fail(InvalidOperation), m.(context := ctx, currentPath := []))
      else (Pass, m.(context := ctx, currentPath := path, isStarted := true,
                     trace := m.trace + EnterEvents(path)))
  }

  /** The machine after Update(dt): unchanged unless running and `dt` is not
      negative; then the first entry (in list order) that fires is
      performed, and only when none fires is the leaf updated. */
  function UpdateSpec(m: Snapshot, dt: real, eval: (nat, Context) -> bool): Snapshot
  {
    if !IsRunning(m) || dt < 0.0 then m
    else match FirstFiring(m.transitions, m.currentPath, m.context, eval)
      case Some(k) => AfterTransition(m, m.transitions[k].toId)
      case None => m.(trace := m.trace + [Updated(m.currentPath[|m.currentPath| - 1].id)])
  }

  /** The machine after TransitionTo(id): ignored before Start and for an
      empty or unregistered id. */
  function TransitionToSpec(m: Snapshot, id: string): Snapshot
  {
    if m.isStarted && id != "" && id in m.states then AfterTransition(m, id) else m
  }

  /** The machine after Reset: every active state exits, leaf first, and
      the path, the started flag and the paused flag are cleared. */
  function ResetSpec(m: Snapshot): Snapshot
  {
    m.(currentPath := [], isStarted := false, isPaused := false,
       trace := m.trace + ExitEvents(m.currentPath))
  }

  /** The scan of AddTransition: the first position whose entry has a
      lower priority than `p`, or the end. */
  method InsertionPoint(ts: seq<Transition>, p: int) returns (i: nat)
    ensures i <= |ts|
    ensures forall j :: 0 <= j < i ==> ts[j].priority >= p
    ensures i < |ts| ==> ts[i].priority < p
  {
    i := 0;
    while i < |ts| && ts[i].priority >= p
      invariant 0 <= i <= |ts|
      invariant forall j :: 0 <= j < i ==> ts[j].priority >= p
    {
      i := i + 1;
    }
  }

  /** Inserting a registered entry at the insertion point keeps the entries
      sorted and registered, and adds exactly that entry. */
  lemma InsertKeeps(ts: seq<Transition>, i: nat, t: Transition, states: map<string, State>)
    requires SortedByPriority(ts) && i <= |ts|
    requires forall j :: 0 <= j < i ==> ts[j].priority >= t.priority
    requires i < |ts| ==> ts[i].priority < t.priority
    requires forall x :: x in ts ==> TransitionRegistered(x, states)
    requires TransitionRegistered(t, states)
    ensures SortedByPriority(ts[..i] + [t] + ts[i..])
    ensures multiset(ts[..i] + [t] + ts[i..]) == multiset(ts) + multiset{t}
    ensures forall x :: x in ts[..i] + [t] + ts[i..] ==> TransitionRegistered(x, states)
  {
    InsertKeepsSorted(ts, i, t);
    assert ts[..i] + ts[i..] == ts;
    assert forall x :: x in ts[..i] + [t] + ts[i..] ==> x in ts || x == t;
  }

  /** Inserting `t` at the first position whose entry has a lower priority
      keeps the entries ordered by non-increasing priority. */
  lemma InsertKeepsSorted(ts: seq<Transition>, i: nat, t: Transition)
    requires SortedByPriority(ts) && i <= |ts|
    requires forall j :: 0 <= j < i ==> ts[j].priority >= t.priority
    requires i < |ts| ==> ts[i].priority < t.priority
    ensures SortedByPriority(ts[..i] + [t] + ts[i..])
  {
    var r := ts[..i] + [t] + ts[i..];
    forall a, b | 0 <= a < b < |r|
      ensures r[a].priority >= r[b].priority
    {
      if b < i {
        assert r[a] == ts[a] && r[b] == ts[b];
      } else if b == i {
        assert r[a] == ts[a];
      } else if a < i {
        assert r[a] == ts[a] && r[b] == ts[b - 1];
      } else if a == i {
        assert r[b] == ts[b - 1];
        assert ts[i].priority >= ts[b - 1].priority;
      } else {
        assert r[a] == ts[a - 1] && r[b] == ts[b - 1];
      }
    }
  }

  class Machine {
    var states: map<string, State>
    var parentId: map<string, string>
    var transitions: seq<Transition>
    var currentPath: seq<State>
    var rootId: string
    var context: Context
    var isStarted: bool
    var isPaused: bool
    ghost var trace: seq<Event>

    ghost function Snap(): Snapshot
      reads this
    {
      Snapshot(states, parentId, transitions, currentPath, rootId, context, isStarted, isPaused, trace)
    }

    /** The registration rules: states are stored under their own ids, no
        state uses the empty or the reserved id, entries are ordered by
        priority and name registered states. */
    ghost predicate Valid()
      reads this
    {
      && WellKeyed(states)
      && "" !in states && AnyStateId !in states
      && SortedByPriority(transitions)
      && (forall t :: t in transitions ==> TransitionRegistered(t, states))
    }

    /** Started with a non-empty path and not paused: Update does work. */
    predicate Running()
      reads this
    {
      isStarted && |currentPath| > 0 && !isPaused
    }

    constructor ()
      ensures Valid()
      ensures Snap() == Snapshot(map[], map[], [], [], "", Context(0, map[]), false, false, [])
    {
      states := map[];
      parentId := map[];
      transitions := [];
      currentPath := [];
      rootId := "";
      context := Context(0, map[]);
      isStarted := false;
      isPaused := false;
      trace := [];
    }

    method SetContext(ctx: Context)
      modifies this
      ensures Valid() == old(Valid())
      ensures Snap() == old(Snap()).(context := ctx)
    {
      context := ctx;
    }

    /** Registers `state` (None stands for a null state) under its id,
        replacing any state with that id, and records its parent id ("" for
        none). It becomes the root when `isRoot` holds, it has no parent and
        no root is set yet. */
    method RegisterState(state: Option<State>, parentStateId: string, isRoot: bool) returns (r: Outcome)
      requires Valid()
      modifies this
      ensures Valid()
      ensures state.None? ==> r == Fail(ArgumentNull)
      ensures state.Some? && (state.value.id == "" || state.value.id == AnyStateId) ==> r == Fail(Argument)
      ensures r.Pass? <==> state.Some? && state.value.id != "" && state.value.id != AnyStateId
      ensures r.Fail? ==> Snap() == old(Snap())
      ensures r.Pass? ==> Snap() == Registered(old(Snap()), state.value, parentStateId, isRoot)
    {
      if state.None? {
        return Fail(ArgumentNull);
      }
      var s := state.value;
      if s.id == "" || s.id == AnyStateId {
        return Fail(Argument);
      }
      states := states[s.id := s];
      parentId := parentId[s.id := parentStateId];
      if isRoot && parentStateId == "" && rootId == "" {
        rootId := s.id;
      }
      r := Pass;
    }

    /** Adds a transition entry and re-sorts the entries by non-increasing
        priority (the order among equal priorities is not specified). */
    method AddTransition(fromId: string, toId: string, condition: Option<nat>, priority: int) returns (r: Outcome)
      requires Valid()
      modifies this
      ensures Valid()
      ensures r.Fail? <==>
        fromId == "" || toId == "" || (fromId != AnyStateId && fromId !in old(states)) || toId !in old(states)
      ensures r.Fail? ==> r.error == Argument && Snap() == old(Snap())
      ensures r.Pass? ==>
        multiset(transitions) == multiset(old(transitions)) + multiset{Transition(fromId, toId, condition, priority)}
      ensures r.Pass? ==> Snap() == old(Snap()).(transitions := transitions)
    {
      if fromId == "" || toId == "" {
        return Fail(Argument);
      }
      if fromId != AnyStateId && fromId !in states {
        return Fail(Argument);
      }
      if toId !in states {
        return Fail(Argument);
      }
      var t := Transition(fromId, toId, condition, priority);
      var i := InsertionPoint(transitions, priority);
      InsertKeeps(transitions, i, t, states);
      transitions := transitions[..i] + [t] + transitions[i..];
      r := Pass;
    }

    /** AddTransition with the wildcard source. */
    method AddAnyTransition(toId: string, condition: Option<nat>, priority: int) returns (r: Outcome)
      requires Valid()
      modifies this
      ensures Valid()
      ensures r.Fail? <==> toId == "" || toId !in old(states)
      ensures r.Fail? ==> r.error == Argument && Snap() == old(Snap())
      ensures r.Pass? ==>
        multiset(transitions) == multiset(old(transitions)) + multiset{Transition(AnyStateId, toId, condition, priority)}
      ensures r.Pass? ==> Snap() == old(Snap()).(transitions := transitions)
    {
      r := AddTransition(AnyStateId, toId, condition, priority);
    }

    method SetRoot(id: string) returns (r: Outcome)
      modifies this
      ensures r.Fail? <==> id == "" || id !in old(states)
      ensures r.Fail? ==> r.error == Argument && Snap() == old(Snap())
      ensures r.Pass? ==> Snap() == old(Snap()).(rootId := id)
    {
      if id == "" || id !in states {
        return Fail(Argument);
      }
      rootId := id;
      r := Pass;
    }

    /** Enters the leaf path of `initialStateId`, root first. The context is
        set and the active path cleared before the leaf path is resolved, so
        an unresolvable state fails after those two changes. */
    method Start(ctx: Context, initialStateId: string) returns (r: Outcome)
      modifies this
      ensures (r, Snap()) == StartSpec(old(Snap()), ctx, initialStateId)
    {
      ghost var m0 := Snap();
      if initialStateId == "" || initialStateId !in states {
        assert StartSpec(m0, ctx, initialStateId) == (Fail(Argument), m0);
        return Fail(Argument);
      }
      context := ctx;
      currentPath := [];
      var path := GetPathToLeaf(initialStateId);
      assert path == PathToLeaf(m0.states, m0.parentId, initialStateId);
      if |path| == 0 {
        assert StartSpec(m0, ctx, initialStateId) == (Fail(InvalidOperation), Snap());
        return Fail(InvalidOperation);
      }
      EnterAll(path);
      isStarted := true;
      r := Pass;
      assert StartSpec(m0, ctx, initialStateId).1 == Snap();
    }

    /** Start from the root id; fails when no root is set. */
    method StartWithRoot(ctx: Context) returns (r: Outcome)
      modifies this
      ensures old(rootId) == "" ==> r == Fail(InvalidOperation) && Snap() == old(Snap())
      ensures old(rootId) != "" ==> (r, Snap()) == StartSpec(old(Snap()), ctx, old(rootId))
    {
      if rootId == "" {
        return Fail(InvalidOperation);
      }
      r := Start(ctx, rootId);
    }

    method Pause()
      modifies this
      ensures Snap() == old(Snap()).(isPaused := true)
    {
      isPaused := true;
    }

    method Resume()
      modifies this
      ensures Snap() == old(Snap()).(isPaused := false)
    {
      isPaused := false;
    }

    /** One frame: when running and `deltaTime` is not negative, performs the
        first entry (in priority order) that fires against the active path;
        when none fires, the leaf is updated. */
    method Update(deltaTime: real, eval: (nat, Context) -> bool)
      modifies this
      ensures Snap() == UpdateSpec(old(Snap()), deltaTime, eval)
    {
      if !isStarted || |currentPath| == 0 {
        return;
      }
      if isPaused || deltaTime < 0.0 {
        return;
      }
      var currentIds: set<string> := {AnyStateId};
      var i := 0;
      while i < |currentPath|
        invariant 0 <= i <= |currentPath|
        invariant forall x :: x in currentIds <==> x == AnyStateId || x in Ids(currentPath[..i])
      {
        assert Ids(currentPath[..i + 1]) == Ids(currentPath[..i]) + [currentPath[i].id];
        currentIds := currentIds + {currentPath[i].id};
        i := i + 1;
      }
      assert currentPath[..|currentPath|] == currentPath;
      var k := 0;
      while k < |transitions|
        invariant 0 <= k <= |transitions|
        invariant Snap() == old(Snap())
        invariant forall j :: 0 <= j < k ==> !Fires(transitions[j], currentPath, context, eval)
      {
        var t := transitions[k];
        if t.fromId in currentIds && (t.condition.None? || eval(t.condition.value, context)) {
          assert Fires(t, currentPath, context, eval);
          FirstFiringIs(transitions, currentPath, context, eval, k);
          PerformTransition(t.toId);
          return;
        }
        k := k + 1;
      }
      assert FirstFiring(transitions, currentPath, context, eval).None?;
      trace := trace + [Updated(currentPath[|currentPath| - 1].id)];
    }

    /** Forces a transition to `toId` without checking conditions; ignored
        before Start and for an empty or unregistered id. */
    method TransitionTo(toId: string)
      modifies this
      ensures Snap() == TransitionToSpec(old(Snap()), toId)
    {
      if !isStarted {
        return;
      }
      if toId == "" || toId !in states {
        return;
      }
      PerformTransition(toId);
    }

    /** Exits the active states past the common prefix with the target's
        leaf path (leaf first), clears the active path and enters the target
        states past the common prefix (root side first). */
    method PerformTransition(toId: string)
      modifies this
      ensures Snap() == AfterTransition(old(Snap()), toId)
    {
      var targetPath := GetPathToLeaf(toId);
      if |targetPath| == 0 {
        return;
      }
      var commonIndex := ScanCommonPrefix(currentPath, targetPath);
      AfterTransitionIs(Snap(), toId, targetPath, commonIndex);
      Retarget(commonIndex, targetPath);
    }

    /** The body of a transition once the common prefix `k` is known: exit
        the active states past it, clear the path, enter the target states
        past it. */
    method Retarget(k: nat, target: seq<State>)
      requires k <= |currentPath| && k <= |target|
      modifies this
      ensures Snap() == old(Snap()).(currentPath := target[k..],
                                     trace := old(trace) + (ExitEvents(old(currentPath)[k..]) + EnterEvents(target[k..])))
    {
      ExitFrom(k);
      currentPath := [];
      EnterAll(target[k..]);
      assert [] + target[k..] == target[k..];
      assert old(trace) + ExitEvents(old(currentPath)[k..]) + EnterEvents(target[k..]) ==
        old(trace) + (ExitEvents(old(currentPath)[k..]) + EnterEvents(target[k..]));
    }

    /** Enters the states of `path` in order, appending each to the active
        path. */
    method EnterAll(path: seq<State>)
      modifies this
      ensures Snap() == old(Snap()).(currentPath := old(currentPath) + path,
                                     trace := old(trace) + EnterEvents(path))
    {
      var i := 0;
      while i < |path|
        invariant 0 <= i <= |path|
        invariant Snap() == old(Snap()).(currentPath := old(currentPath) + path[..i],
                                         trace := old(trace) + EnterEvents(path[..i]))
      {
        EnterEventsSnoc(path[..i], path[i]);
        assert path[..i + 1] == path[..i] + [path[i]];
        trace := trace + [Entered(path[i].id)];
        currentPath := currentPath + [path[i]];
        i := i + 1;
      }
      assert path[..|path|] == path;
    }

    /** Exits the active states from the leaf up to position `k`, leaving
        the active path itself as it is. */
    method ExitFrom(k: nat)
      requires k <= |currentPath|
      modifies this
      ensures Snap() == old(Snap()).(trace := old(trace) + ExitEvents(old(currentPath)[k..]))
    {
      var i := |currentPath| - 1;
      while i >= k
        invariant k - 1 <= i <= |currentPath| - 1
        invariant Snap() == old(Snap()).(trace := old(trace) + ExitEvents(old(currentPath)[i + 1..]))
        decreases i + 1
      {
        ExitEventsCons(currentPath[i], currentPath[i + 1..]);
        assert currentPath[i..] == [currentPath[i]] + currentPath[i + 1..];
        trace := trace + [Exited(currentPath[i].id)];
        i := i - 1;
      }
    }

    /** A registered state has this id. */
    predicate HasState(id: string)
      reads this
      ensures HasState(id) <==> GetState(id).Some?
    {
      id != "" && id in states
    }

    /** The active leaf has this id. */
    predicate IsInState(id: string)
      reads this
      ensures IsInState(id) <==> id != "" && currentPath != [] && LeafId() == id
      ensures IsInState(id) ==> id in Ids(currentPath)
    {
      id != "" && |currentPath| > 0 && currentPath[|currentPath| - 1].id == id
    }

    /** The registered state with this id; None for the empty or an
        unregistered id. */
    function GetState(id: string): (r: Option<State>)
      reads this
      ensures r.Some? ==> id in states && r.value == states[id]
      ensures r.None? <==> id == "" || id !in states
    {
      if id == "" || id !in states then None else Some(states[id])
    }

    /** The active leaf; None before Start or when the path is empty. */
    function CurrentLeaf(): (r: Option<State>)
      reads this
      ensures r.None? <==> currentPath == []
      ensures r.Some? ==> r.value == currentPath[|currentPath| - 1]
    {
      if currentPath == [] then None else Some(currentPath[|currentPath| - 1])
    }

    /** The active leaf's id; "" when there is none. */
    function LeafId(): string
      reads this
      ensures LeafId() == LeafOf(Snap())
    {
      if currentPath == [] then "" else currentPath[|currentPath| - 1].id
    }

    /** Some state of the active path has this id. */
    method IsInStateOrDescendant(id: string) returns (r: bool)
      ensures r <==> id != "" && id in Ids(currentPath)
    {
      if id == "" || |currentPath| == 0 {
        return false;
      }
      var i := 0;
      while i < |currentPath|
        invariant 0 <= i <= |currentPath|
        invariant forall j :: 0 <= j < i ==> currentPath[j].id != id
      {
        if currentPath[i].id == id {
          return true;
        }
        i := i + 1;
      }
      r := false;
    }

    /** Walks up the parent links from `stateId` collecting at most
        MaxParentChainDepth states; empty when an id repeats. */
    method GetPathToState(stateId: string) returns (path: seq<State>)
      ensures path == PathToState(states, parentId, stateId)
    {
      path := WalkUp(states, parentId, stateId, MaxParentChainDepth);
    }

    /** GetPathToState, then appends initial sub-states while the tail is
        compound, at most MaxCompoundExpansionDepth times, stopping at a
        missing or repeated sub-state. */
    method GetPathToLeaf(stateId: string) returns (path: seq<State>)
      ensures path == PathToLeaf(states, parentId, stateId)
    {
      path := [];
      var pathToState := GetPathToState(stateId);
      if |pathToState| == 0 {
        return;
      }
      path := ExpandToLeaf(pathToState, MaxCompoundExpansionDepth);
    }

    /** The expansion loop of GetPathToLeaf for a budget of `budget`
        expansions. */
    method ExpandToLeaf(start: seq<State>, budget: nat) returns (path: seq<State>)
      ensures path == Expand(states, start, budget)
    {
      path := start;
      var expanded := 0;
      while |path| > 0 && path[|path| - 1].isCompound && expanded < budget
        invariant 0 <= expanded <= budget
        invariant Expand(states, path, budget - expanded) == Expand(states, start, budget)
        decreases budget - expanded
      {
        var subId := path[|path| - 1].initialSubStateId;
        if subId == "" || subId !in states {
          break;
        }
        var i := 0;
        while i < |path|
          invariant 0 <= i <= |path|
          invariant forall j :: 0 <= j < i ==> path[j].id != subId
        {
          if path[i].id == subId {
            assert Ids(path)[i] == subId;
            return;
          }
          i := i + 1;
        }
        assert subId !in Ids(path);
        path := path + [states[subId]];
        expanded := expanded + 1;
      }
    }

    /** Exits the active path leaf first, clears it, unpauses and marks the
        machine not started. */
    method Reset()
      modifies this
      ensures Snap() == ResetSpec(old(Snap()))
      ensures forall id :: !IsInState(id)
    {
      isPaused := false;
      ExitFrom(0);
      assert old(currentPath)[0..] == old(currentPath);
      currentPath := [];
      isStarted := false;
    }

    /** The active path's ids joined by " > ". */
    method GetCurrentPathString() returns (s: string)
      ensures s == Join(Ids(currentPath), " > ")
    {
      if |currentPath| == 0 {
        return "";
      }
      if |currentPath| == 1 {
        return currentPath[0].id;
      }
      s := currentPath[0].id;
      var i := 1;
      while i < |currentPath|
        invariant 1 <= i <= |currentPath|
        invariant s == Join(Ids(currentPath)[..i], " > ")
      {
        assert Ids(currentPath)[..i + 1][..i] == Ids(currentPath)[..i];
        s := s + " > " + currentPath[i].id;
        i := i + 1;
      }
      assert Ids(currentPath)[..|currentPath|] == Ids(currentPath);
    }
  }

  /** The walk of GetPathToState over the registry for a bound of `bound`
    parent-link steps. */
  method WalkUp(states: map<string, State>, parentId: map<string, string>, stateId: string, bound: nat) returns (path: seq<State>)
    ensures path == PathWithin(states, parentId, stateId, bound)
  {
    if stateId !in states {
      return [];
    }
    ghost var chain := UpChain(states, parentId, states[stateId], bound);
    var walked: seq<State> := [];
    var visited: set<string> := {};
    var s: Option<State> := Some(states[stateId]);
    var steps := 0;
    assert chain == [] + chain;
    while s.Some? && steps < bound
      invariant 0 <= steps <= bound
      invariant |walked| == steps
      invariant s.Some? ==> chain == walked + UpChain(states, parentId, s.value, bound - steps)
      invariant s.None? ==> chain == walked
      invariant forall x :: x in visited <==> x in Ids(walked)
      invariant !HasDupIds(walked)
    {
      var cur := s.value;
      WalkStep(states, parentId, chain, walked, cur, bound - steps);
      if cur.id in visited {
        var k :| 0 <= k < |walked| && Ids(walked)[k] == cur.id;
        DupFound(chain, walked, cur, k);
        return [];
      }
      assert Ids(walked + [cur]) == Ids(walked) + [cur.id];
      NoDupSnoc(walked, cur);
      visited := visited + {cur.id};
      walked := walked + [cur];
      var pid := if cur.id in parentId then parentId[cur.id] else "";
      if pid == "" {
        break;
      }
      s := if pid in states then Some(states[pid]) else None;
      steps := steps + 1;
    }
    if s.Some? && steps == bound {
      assert UpChain(states, parentId, s.value, 0) == [];
      assert chain == walked;
    }
    path := Reverse(walked);
  }

  /** The prefix scan of PerformTransition: the number of leading positions
      at which the two paths hold states with equal ids. */
  method ScanCommonPrefix(current: seq<State>, target: seq<State>) returns (k: nat)
    ensures k == CommonPrefix(current, target)
  {
    k := 0;
    var minLen := Min(|current|, |target|);
    while k < minLen && current[k].id == target[k].id
      invariant 0 <= k <= minLen
      invariant forall j :: 0 <= j < k ==> current[j].id == target[j].id
    {
      k := k + 1;
    }
    CommonPrefixUnique(current, target, k);
  }

  /** One step of the upward walk: the next state of the chain is `cur`,
      and the chain goes on from its registered parent, if any. */
  lemma WalkStep(states: map<string, State>, parents: map<string, string>, chain: seq<State>,
                 walked: seq<State>, cur: State, n: nat)
    requires n > 0 && chain == walked + UpChain(states, parents, cur, n)
    ensures |walked| < |chain| && chain[|walked|] == cur
    ensures forall k :: 0 <= k < |walked| ==> chain[k] == walked[k]
    ensures ParentOf(parents, cur.id) == "" || ParentOf(parents, cur.id) !in states ==> chain == walked + [cur]
    ensures ParentOf(parents, cur.id) != "" && ParentOf(parents, cur.id) in states ==>
      chain == (walked + [cur]) + UpChain(states, parents, states[ParentOf(parents, cur.id)], n - 1)
  {
    var pid := ParentOf(parents, cur.id);
    if pid != "" && pid in states {
      var rest := UpChain(states, parents, states[pid], n - 1);
      assert UpChain(states, parents, cur, n) == [cur] + rest;
      assert walked + ([cur] + rest) == (walked + [cur]) + rest;
    }
  }

  /** A state met again on the walk makes the chain revisit an id. */
  lemma DupFound(chain: seq<State>, walked: seq<State>, cur: State, k: nat)
    requires |walked| < |chain| && chain[|walked|] == cur
    requires k < |walked| && chain[k] == walked[k] && walked[k].id == cur.id
    ensures HasDupIds(chain)
  {
    assert chain[k].id == chain[|walked|].id;
  }

  /** Appending a state whose id is new keeps the ids distinct. */
  lemma NoDupSnoc(w: seq<State>, x: State)
    requires !HasDupIds(w)
    requires x.id !in Ids(w)
    ensures !HasDupIds(w + [x])
  {
    var r := w + [x];
    forall i, j | 0 <= i < j < |r|
      ensures r[i].id != r[j].id
    {
      if j == |w| {
        assert Ids(w)[i] == w[i].id;
      } else {
        assert r[i] == w[i] && r[j] == w[j];
      }
    }
  }

  /** AfterTransition once the target path and its common prefix with the
      active path are known. */
  lemma AfterTransitionIs(m: Snapshot, toId: string, target: seq<State>, k: nat)
    requires target == PathToLeaf(m.states, m.parentId, toId) && target != []
    requires k == CommonPrefix(m.currentPath, target)
    ensures AfterTransition(m, toId) ==
      m.(currentPath := target[k..], trace := m.trace + (ExitEvents(m.currentPath[k..]) + EnterEvents(target[k..])))
  {
  }

  /** A scan that stops at the first differing id finds the common prefix. */
  lemma {:induction false} CommonPrefixUnique(a: seq<State>, b: seq<State>, k: nat)
    requires k <= |a| && k <= |b|
    requires forall j :: 0 <= j < k ==> a[j].id == b[j].id
    requires k == |a| || k == |b| || a[k].id != b[k].id
    ensures k == CommonPrefix(a, b)
  {
    if k > 0 {
      assert a[0].id == b[0].id;
      CommonPrefixUnique(a[1..], b[1..], k - 1);
    }
  }

  /** The first firing entry is the one a front-to-back scan stops at. */
  lemma {:induction false} FirstFiringIs(ts: seq<Transition>, path: seq<State>, ctx: Context, eval: (nat, Context) -> bool, k: nat)
    requires k < |ts| && Fires(ts[k], path, ctx, eval)
    requires forall j :: 0 <= j < k ==> !Fires(ts[j], path, ctx, eval)
    ensures FirstFiring(ts, path, ctx, eval) == Some(k)
  {
    if k > 0 {
      assert !Fires(ts[0], path, ctx, eval);
      assert forall j :: 0 <= j < k - 1 ==> ts[1..][j] == ts[j + 1];
      FirstFiringIs(ts[1..], path, ctx, eval, k - 1);
    }
  }

  /** A Start that succeeds leaves the machine started on the leaf path of
      `id`: that path contains `id`, repeats no id and begins with the
      ancestor path of `id`; its states are entered root first and nothing
      is exited. A failed Start leaves the started flag and the events as
      they were. The registry is never touched. */
  lemma StartSpecEnters(m: Snapshot, ctx: Context, id: string)
    requires WellKeyed(m.states)
    ensures var res := StartSpec(m, ctx, id);
            var m' := res.1;
      && (res.0.Pass? <==> id != "" && id in m.states && PathToLeaf(m.states, m.parentId, id) != [])
      && (res.0.Fail? ==> m'.isStarted == m.isStarted && m'.trace == m.trace)
      && (res.0.Pass? ==>
            && m'.isStarted && m'.context == ctx
            && |PathToState(m.states, m.parentId, id)| <= |m'.currentPath|
            && m'.currentPath[..|PathToState(m.states, m.parentId, id)|] == PathToState(m.states, m.parentId, id)
            && id in Ids(m'.currentPath)
            && Distinct(Ids(m'.currentPath))
            && m'.trace == m.trace + EnterEvents(m'.currentPath))
      && m'.states == m.states && m'.parentId == m.parentId
      && m'.transitions == m.transitions && m'.rootId == m.rootId
  {
    if id != "" && id in m.states {
      PathToStateSpec(m.states, m.parentId, id);
      PathToLeafSpec(m.states, m.parentId, id);
      var base := PathToState(m.states, m.parentId, id);
      var path := PathToLeaf(m.states, m.parentId, id);
      if path != [] {
        assert path[|base| - 1] == base[|base| - 1];
        assert Ids(path)[|base| - 1] == id;
      }
    }
  }

  /** Update fires at most one transition: the registry, the flags and the
      context are kept and events are only appended; when an entry fires
      the leaf is not updated, and when none fires the only event is the
      leaf's update and the path stays. */
  lemma UpdateSpecEvents(m: Snapshot, dt: real, eval: (nat, Context) -> bool)
    ensures var m' := UpdateSpec(m, dt, eval);
      && m'.states == m.states && m'.parentId == m.parentId
      && m'.transitions == m.transitions && m'.rootId == m.rootId
      && m'.context == m.context && m'.isStarted == m.isStarted && m'.isPaused == m.isPaused
      && m.trace <= m'.trace
      && (!IsRunning(m) || dt < 0.0 ==> m' == m)
      && (IsRunning(m) && dt >= 0.0 && FirstFiring(m.transitions, m.currentPath, m.context, eval).Some? ==>
            forall e :: e in m'.trace[|m.trace|..] ==> !e.Updated?)
      && (IsRunning(m) && dt >= 0.0 && FirstFiring(m.transitions, m.currentPath, m.context, eval).None? ==>
            m'.trace[|m.trace|..] == [Updated(LeafOf(m))] && m'.currentPath == m.currentPath)
  {
    var m' := UpdateSpec(m, dt, eval);
    if IsRunning(m) && dt >= 0.0 {
      match FirstFiring(m.transitions, m.currentPath, m.context, eval)
      case Some(k) =>
        var target := PathToLeaf(m.states, m.parentId, m.transitions[k].toId);
        if target != [] {
          TransitionEventsNoUpdate(m.currentPath, target);
          assert m'.trace[|m.trace|..] == TransitionEvents(m.currentPath, target);
        }
      case None =>
    }
  }

  /** Resetting twice is resetting once. */
  lemma ResetSpecIdempotent(m: Snapshot)
    ensures ResetSpec(ResetSpec(m)) == ResetSpec(m)
  {
    assert ExitEvents([]) == [];
  }

  /** As written, a forced transition to the state the machine is already in
      leaves the machine started with an empty active path, running no exit
      or enter callback. */
  lemma TransitionToCurrentEmptiesPath(m: Snapshot, id: string)
    requires m.isStarted && id != "" && id in m.states
    requires PathToLeaf(m.states, m.parentId, id) == m.currentPath
    requires m.currentPath != []
    ensures TransitionToSpec(m, id).isStarted
    ensures TransitionToSpec(m, id).currentPath == []
    ensures TransitionToSpec(m, id).trace == m.trace
  {
    SelfTransitionEmptiesPath(m.currentPath);
  }

  /** The evidently intended transition: the shared prefix stays active and
      the target states past it are entered after the others exit. */
  function IntendedAfterTransition(m: Snapshot, toId: string): Snapshot
  {
    var target := PathToLeaf(m.states, m.parentId, toId);
    if target == [] then m
    else m.(currentPath := IntendedNextPath(m.currentPath, target),
            trace := m.trace + TransitionEvents(m.currentPath, target))
  }

  /** With the intended definition the active path after a transition has
      the ids of the target's leaf path, and a transition to the current
      leaf path keeps the machine where it is. */
  lemma IntendedTransitionReachesTarget(m: Snapshot, toId: string)
    ensures var target := PathToLeaf(m.states, m.parentId, toId);
      target != [] ==> Ids(IntendedAfterTransition(m, toId).currentPath) == Ids(target)
    ensures PathToLeaf(m.states, m.parentId, toId) == m.currentPath ==>
      IntendedAfterTransition(m, toId) == m
  {
    var target := PathToLeaf(m.states, m.parentId, toId);
    if target == m.currentPath && target != [] {
      IntendedSelfTransitionKeepsPath(m.currentPath);
      SelfTransitionEmptiesPath(m.currentPath);
      assert m.trace + [] == m.trace;
    }
  }
}
