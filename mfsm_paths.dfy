/** Path resolution and transition selection of the hierarchical state
    machine, as pure functions of the registry: the root-to-state path, its
    expansion through initial sub-states to a leaf, the common prefix that
    decides what a transition exits and enters, and the first transition
    entry that fires. The machine's methods are proved against these. */
module MFSMPaths {
  import opened Common
  import opened MFSMTypes

  // ---------------------------------------------------------------------------
  // Ancestor path

  /** The states met walking up from `s` by parent links, `s` first, at most
      `n` of them. The walk stops after a state with no parent id or whose
      parent id is not registered. */
  function UpChain(states: map<string, State>, parents: map<string, string>, s: State, n: nat): seq<State>
    decreases n
  {
    if n == 0 then []
    else
      var pid := ParentOf(parents, s.id);
      if pid == "" || pid !in states then [s]
      else [s] + UpChain(states, parents, states[pid], n - 1)
  }

  /** Some id occurs twice in `p`. */
  predicate HasDupIds(p: seq<State>)
  {
    exists i, j :: 0 <= i < j < |p| && p[i].id == p[j].id
  }

  function Reverse<T>(s: seq<T>): (r: seq<T>)
    ensures |r| == |s|
    ensures forall i :: 0 <= i < |s| ==> r[i] == s[|s| - 1 - i]
  {
    seq(|s|, i requires 0 <= i < |s| => s[|s| - 1 - i])
  }

  /** The path from the topmost reachable ancestor down to `id`, without
      compound expansion: empty for an unregistered id or when the walk of at
      most MaxParentChainDepth states revisits an id. */
  function PathToState(states: map<string, State>, parents: map<string, string>, id: string): seq<State>
  {
    PathWithin(states, parents, id, MaxParentChainDepth)
  }

  /** PathToState for an arbitrary bound `n` on the walk. */
  function PathWithin(states: map<string, State>, parents: map<string, string>, id: string, n: nat): seq<State>
  {
    if id !in states then []
    else
      var chain := UpChain(states, parents, states[id], n);
      if HasDupIds(chain) then [] else Reverse(chain)
  }

  /** The id reached from `id` after `k` parent steps, if every state on the
      way is registered and has a parent id. Independent of the walk above. */
  function Ancestor(states: map<string, State>, parents: map<string, string>, id: string, k: nat): Option<string>
    decreases k
  {
    if id !in states then None
    else if k == 0 then Some(id)
    else
      var pid := ParentOf(parents, id);
      if pid == "" then None else Ancestor(states, parents, pid, k - 1)
  }

  /** Within the first `n` ancestors of `id` some id occurs twice: a cycle in
      the parent links. */
  ghost predicate RevisitWithin(states: map<string, State>, parents: map<string, string>, id: string, n: nat)
  {
    exists i, j :: 0 <= i < j < n && Ancestor(states, parents, id, i).Some? &&
                   Ancestor(states, parents, id, i) == Ancestor(states, parents, id, j)
  }

  lemma {:induction false} AncestorNoneStays(states: map<string, State>, parents: map<string, string>, id: string, k: nat, k': nat)
    requires k <= k'
    requires Ancestor(states, parents, id, k) == None
    ensures Ancestor(states, parents, id, k') == None
    decreases k
  {
    if id in states && k > 0 {
      var pid := ParentOf(parents, id);
      if pid != "" {
        AncestorNoneStays(states, parents, pid, k - 1, k' - 1);
      }
    }
  }

  /** The walk up from `id` visits exactly its successive ancestors. */
  lemma {:induction false} UpChainAncestors(states: map<string, State>, parents: map<string, string>, id: string, n: nat)
    requires WellKeyed(states) && id in states
    ensures var c := UpChain(states, parents, states[id], n);
      && |c| <= n
      && (n > 0 ==> |c| > 0 && c[0] == states[id])
      && (forall i :: 0 <= i < |c| ==> Ancestor(states, parents, id, i) == Some(c[i].id))
      && (|c| < n ==> Ancestor(states, parents, id, |c|) == None)
      && (forall i :: 0 <= i < |c| - 1 ==> ParentOf(parents, c[i].id) == c[i + 1].id)
    decreases n
  {
    if n > 0 {
      assert states[id].id == id;
      var pid := ParentOf(parents, id);
      var c := UpChain(states, parents, states[id], n);
      if pid == "" || pid !in states {
        assert c == [states[id]];
        if pid != "" {
          assert Ancestor(states, parents, pid, 0) == None;
        }
      } else {
        UpChainAncestors(states, parents, pid, n - 1);
        var c' := UpChain(states, parents, states[pid], n - 1);
        assert c == [states[id]] + c';
        forall i | 0 <= i < |c|
          ensures Ancestor(states, parents, id, i) == Some(c[i].id)
        {
          if i > 0 {
            assert Ancestor(states, parents, id, i) == Ancestor(states, parents, pid, i - 1);
          }
        }
        if |c| < n {
          assert Ancestor(states, parents, id, |c|) == Ancestor(states, parents, pid, |c'|);
        }
        if n > 1 {
          assert c'[0] == states[pid];
        }
      }
    }
  }

  /** The ancestor path: it ends with the state itself, every element is the
      parent of the next, it is at most MaxParentChainDepth long, reaches a
      root unless it hit that bound, repeats no id, and is empty exactly for
      an unregistered id or a revisited id. */
  lemma PathToStateSpec(states: map<string, State>, parents: map<string, string>, id: string)
    requires WellKeyed(states)
    ensures var r := PathToState(states, parents, id);
      && |r| <= MaxParentChainDepth
      && (r != [] ==> r[|r| - 1] == states[id])
      && (forall i :: 0 <= i < |r| ==> Ancestor(states, parents, id, |r| - 1 - i) == Some(r[i].id))
      && (forall i :: 0 < i < |r| ==> ParentOf(parents, r[i].id) == r[i - 1].id)
      && (r != [] && |r| < MaxParentChainDepth ==> Ancestor(states, parents, id, |r|) == None)
      && Distinct(Ids(r))
      && (r == [] <==> id !in states || RevisitWithin(states, parents, id, MaxParentChainDepth))
  {
    PathWithinShape(states, parents, id, MaxParentChainDepth);
    PathWithinEmpty(states, parents, id, MaxParentChainDepth);
  }

  lemma PathWithinShape(states: map<string, State>, parents: map<string, string>, id: string, n: nat)
    requires WellKeyed(states)
    ensures var r := PathWithin(states, parents, id, n);
      && |r| <= n
      && (r != [] ==> r[|r| - 1] == states[id])
      && (forall i :: 0 <= i < |r| ==> Ancestor(states, parents, id, |r| - 1 - i) == Some(r[i].id))
      && (forall i :: 0 < i < |r| ==> ParentOf(parents, r[i].id) == r[i - 1].id)
      && (r != [] && |r| < n ==> Ancestor(states, parents, id, |r|) == None)
      && Distinct(Ids(r))
  {
    var r := PathWithin(states, parents, id, n);
    if id in states {
      UpChainAncestors(states, parents, id, n);
      var c := UpChain(states, parents, states[id], n);
      if !HasDupIds(c) {
        assert r == Reverse(c);
        ReversedChain(parents, c);
        forall i | 0 <= i < |r|
          ensures Ancestor(states, parents, id, |r| - 1 - i) == Some(r[i].id)
        {
          assert r[i] == c[|c| - 1 - i];
        }
      }
    }
  }

  /** Reversing a parent chain without repeated ids gives a top-down path
      without repeated ids. */
  lemma ReversedChain(parents: map<string, string>, c: seq<State>)
    requires forall i :: 0 <= i < |c| - 1 ==> ParentOf(parents, c[i].id) == c[i + 1].id
    requires !HasDupIds(c)
    ensures var r := Reverse(c);
      && (forall i :: 0 < i < |r| ==> ParentOf(parents, r[i].id) == r[i - 1].id)
      && Distinct(Ids(r))
  {
    var r := Reverse(c);
    forall i | 0 < i < |r|
      ensures ParentOf(parents, r[i].id) == r[i - 1].id
    {
      assert r[i] == c[|c| - 1 - i] && r[i - 1] == c[|c| - 1 - i + 1];
    }
    forall i, j | 0 <= i < j < |r|
      ensures Ids(r)[i] != Ids(r)[j]
    {
      assert r[i] == c[|c| - 1 - i] && r[j] == c[|c| - 1 - j];
    }
  }

  lemma PathWithinEmpty(states: map<string, State>, parents: map<string, string>, id: string, n: nat)
    requires WellKeyed(states) && n > 0
    ensures PathWithin(states, parents, id, n) == [] <==> id !in states || RevisitWithin(states, parents, id, n)
  {
    if id in states {
      UpChainAncestors(states, parents, id, n);
      var c := UpChain(states, parents, states[id], n);
      if RevisitWithin(states, parents, id, n) {
        var i, j :| 0 <= i < j < n && Ancestor(states, parents, id, i).Some? &&
                    Ancestor(states, parents, id, i) == Ancestor(states, parents, id, j);
        if j >= |c| {
          AncestorNoneStays(states, parents, id, |c|, j);
        }
        assert c[i].id == c[j].id;
        assert HasDupIds(c);
      }
      if HasDupIds(c) {
        var i, j :| 0 <= i < j < |c| && c[i].id == c[j].id;
        assert Ancestor(states, parents, id, i) == Ancestor(states, parents, id, j);
      } else {
        assert PathWithin(states, parents, id, n) == Reverse(c);
      }
    }
  }

  /** When the ancestor chain is longer than the bound and has no cycle, the
      path is the truncated chain of exactly MaxParentChainDepth states, not
      the empty path. */
  lemma PathToStateTruncates(states: map<string, State>, parents: map<string, string>, id: string)
    requires WellKeyed(states) && id in states
    requires !RevisitWithin(states, parents, id, MaxParentChainDepth)
    requires Ancestor(states, parents, id, MaxParentChainDepth).Some?
    ensures |PathToState(states, parents, id)| == MaxParentChainDepth
  {
    PathToStateSpec(states, parents, id);
    var r := PathToState(states, parents, id);
    if |r| < MaxParentChainDepth {
      AncestorNoneStays(states, parents, id, |r|, MaxParentChainDepth);
    }
  }

  // ---------------------------------------------------------------------------
  // Leaf expansion

  /** Appending the tail's initial sub-state is impossible: the tail names no
      sub-state, names an unregistered one, or names one already on `p`. */
  predicate ExpansionBlocked(states: map<string, State>, p: seq<State>)
    requires p != []
  {
    var sub := p[|p| - 1].initialSubStateId;
    sub == "" || sub !in states || sub in Ids(p)
  }

  /** Position `i` of `p` holds the registered initial sub-state of the
      compound state before it. */
  predicate ExpandedAt(states: map<string, State>, p: seq<State>, i: int)
  {
    0 < i < |p| && p[i - 1].isCompound && p[i - 1].initialSubStateId in states &&
    p[i] == states[p[i - 1].initialSubStateId]
  }

  /** Repeatedly appends the tail's initial sub-state while the tail is
      compound, at most `budget` times. */
  function Expand(states: map<string, State>, path: seq<State>, budget: nat): seq<State>
    decreases budget
  {
    if path == [] || !path[|path| - 1].isCompound || budget == 0 then path
    else if ExpansionBlocked(states, path) then path
    else Expand(states, path + [states[path[|path| - 1].initialSubStateId]], budget - 1)
  }

  /** The ancestor path of `id` expanded to a leaf; empty when the ancestor
      path is. */
  function PathToLeaf(states: map<string, State>, parents: map<string, string>, id: string): seq<State>
  {
    var base := PathToState(states, parents, id);
    if base == [] then [] else Expand(states, base, MaxCompoundExpansionDepth)
  }

  lemma {:induction false} ExpandSpec(states: map<string, State>, path: seq<State>, b: nat)
    requires WellKeyed(states)
    requires Distinct(Ids(path))
    ensures var r := Expand(states, path, b);
      && |path| <= |r| <= |path| + b
      && r[..|path|] == path
      && Distinct(Ids(r))
      && (forall i :: |path| <= i < |r| ==> ExpandedAt(states, r, i))
      && (r != [] && r[|r| - 1].isCompound ==> |r| == |path| + b || ExpansionBlocked(states, r))
    decreases b
  {
    if path == [] || !path[|path| - 1].isCompound || b == 0 || ExpansionBlocked(states, path) {
    } else {
      var sub := path[|path| - 1].initialSubStateId;
      var p' := path + [states[sub]];
      ExpandOnce(states, path);
      ExpandSpec(states, p', b - 1);
      var r := Expand(states, p', b - 1);
      assert r == Expand(states, path, b);
      assert r[..|path|] == r[..|p'|][..|path|];
      forall i | |path| <= i < |r|
        ensures ExpandedAt(states, r, i)
      {
        if i == |path| {
          assert r[i] == p'[i] && r[i - 1] == p'[i - 1];
        }
      }
    }
  }

  /** One expansion step appends a state with a new id. */
  lemma ExpandOnce(states: map<string, State>, path: seq<State>)
    requires WellKeyed(states) && Distinct(Ids(path))
    requires path != [] && !ExpansionBlocked(states, path)
    ensures Distinct(Ids(path + [states[path[|path| - 1].initialSubStateId]]))
  {
    var sub := path[|path| - 1].initialSubStateId;
    var p' := path + [states[sub]];
    assert states[sub].id == sub;
    assert Ids(p') == Ids(path) + [sub];
  }

  /** The leaf path: empty exactly when the ancestor path is empty, otherwise
      the ancestor path followed by at most MaxCompoundExpansionDepth states,
      each the registered initial sub-state of the compound state before it;
      it repeats no id, and its tail is compound only when the bound was
      reached or expansion is blocked. */
  lemma PathToLeafSpec(states: map<string, State>, parents: map<string, string>, id: string)
    requires WellKeyed(states)
    ensures var base := PathToState(states, parents, id);
            var r := PathToLeaf(states, parents, id);
      && (r == [] <==> base == [])
      && |base| <= |r| <= |base| + MaxCompoundExpansionDepth
      && r[..|base|] == base
      && Distinct(Ids(r))
      && (forall i :: |base| <= i < |r| ==> ExpandedAt(states, r, i))
      && (r != [] && r[|r| - 1].isCompound ==>
            |r| == |base| + MaxCompoundExpansionDepth || ExpansionBlocked(states, r))
  {
    PathToStateSpec(states, parents, id);
    var base := PathToState(states, parents, id);
    if base != [] {
      ExpandSpec(states, base, MaxCompoundExpansionDepth);
    }
  }

  // ---------------------------------------------------------------------------
  // Transitions

  /** Length of the longest common prefix of two paths, compared by id. */
  function CommonPrefix(a: seq<State>, b: seq<State>): (k: nat)
    ensures k <= |a| && k <= |b|
    ensures forall i :: 0 <= i < k ==> a[i].id == b[i].id
    ensures k < |a| && k < |b| ==> a[k].id != b[k].id
  {
    if a == [] || b == [] || a[0].id != b[0].id then 0
    else 1 + CommonPrefix(a[1..], b[1..])
  }

  /** The active path a transition from `current` to the resolved `target`
      leaves behind, as the code is written: the path is cleared and only
      the target states past the common prefix are re-added. */
  function NextPath(current: seq<State>, target: seq<State>): seq<State>
  {
    target[CommonPrefix(current, target)..]
  }

  /** The callbacks of such a transition: the current states past the common
      prefix exit, leaf first, then the target states past it enter. */
  function TransitionEvents(current: seq<State>, target: seq<State>): seq<Event>
  {
    var k := CommonPrefix(current, target);
    ExitEvents(current[k..]) + EnterEvents(target[k..])
  }

  /** Exactly the states not shared with the target are exited and exactly
      the target states not shared with the current path are entered. */
  lemma TransitionEventsSpec(current: seq<State>, target: seq<State>)
    ensures var k := CommonPrefix(current, target);
            var ev := TransitionEvents(current, target);
      && |ev| == |current| - k + |target| - k
      && (forall i :: 0 <= i < |current| - k ==> ev[i] == Exited(current[|current| - 1 - i].id))
      && (forall i :: |current| - k <= i < |ev| ==> ev[i] == Entered(target[i - (|current| - k) + k].id))
  {
  }

  /** A transition only exits and enters; it never updates a leaf. */
  lemma TransitionEventsNoUpdate(current: seq<State>, target: seq<State>)
    ensures forall e :: e in TransitionEvents(current, target) ==> !e.Updated?
  {
    var ev := TransitionEvents(current, target);
    TransitionEventsSpec(current, target);
    forall e | e in ev
      ensures !e.Updated?
    {
      var i :| 0 <= i < |ev| && ev[i] == e;
    }
  }

  /** Transition entry `t` fires against the active path `path`: its source
      is the wildcard or an id on the path, and it has no condition or its
      condition holds in `ctx`. */
  predicate Fires(t: Transition, path: seq<State>, ctx: Context, eval: (nat, Context) -> bool)
  {
    (t.fromId == AnyStateId || t.fromId in Ids(path)) &&
    (t.condition.None? || eval(t.condition.value, ctx))
  }

  /** Index of the first entry of `ts` that fires, if any. */
  function FirstFiring(ts: seq<Transition>, path: seq<State>, ctx: Context, eval: (nat, Context) -> bool): (r: Option<nat>)
    ensures r.Some? ==> r.value < |ts| && Fires(ts[r.value], path, ctx, eval)
    ensures r.Some? ==> forall j :: 0 <= j < r.value ==> !Fires(ts[j], path, ctx, eval)
    ensures r.None? ==> forall j :: 0 <= j < |ts| ==> !Fires(ts[j], path, ctx, eval)
  {
    if ts == [] then None
    else if Fires(ts[0], path, ctx, eval) then Some(0)
    else match FirstFiring(ts[1..], path, ctx, eval)
      case None => None
      case Some(k) => Some(k + 1)
  }

  // ---------------------------------------------------------------------------
  // The path left by a transition: as written and as intended

  /** As written, a transition onto the path the machine is already in (a
      wildcard entry whose target is the current leaf, say) leaves the
      machine started with an empty active path, without exiting anything. */
  lemma SelfTransitionEmptiesPath(p: seq<State>)
    ensures TransitionEvents(p, p) == []
    ensures NextPath(p, p) == []
  {
  }

  /** As written, moving between two siblings drops their common parent from
      the active path although the parent is never exited. */
  lemma SiblingTransitionDropsParent(root: State, a: State, b: State)
    requires root.id == "Root" && a.id == "A" && b.id == "B"
    ensures NextPath([root, a], [root, b]) == [b]
    ensures TransitionEvents([root, a], [root, b]) == [Exited("A"), Entered("B")]
    ensures "Root" !in Ids(NextPath([root, a], [root, b]))
  {
    assert CommonPrefix([root, a], [root, b]) == 1;
  }

  /** The evidently intended path after a transition: the shared prefix of
      the current path stays, and the target states past it are appended. */
  function IntendedNextPath(current: seq<State>, target: seq<State>): (r: seq<State>)
    ensures Ids(r) == Ids(target)
    ensures r[..CommonPrefix(current, target)] == current[..CommonPrefix(current, target)]
    ensures r[CommonPrefix(current, target)..] == NextPath(current, target)
  {
    var k := CommonPrefix(current, target);
    var r := current[..k] + target[k..];
    assert forall i :: 0 <= i < |r| ==> Ids(r)[i] == Ids(target)[i];
    assert r[..k] == current[..k];
    assert r[k..] == target[k..];
    r
  }

  /** With the intended definition a self-transition keeps the path, and
      every state of the new path is either kept (never exited) or entered. */
  lemma IntendedSelfTransitionKeepsPath(p: seq<State>)
    ensures IntendedNextPath(p, p) == p
  {
    SelfTransitionEmptiesPath(p);
    assert CommonPrefix(p, p) == |p|;
  }
}
