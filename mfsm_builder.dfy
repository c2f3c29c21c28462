/** The fluent builder of a machine. Every call delegates to one machine,
    created with the builder, and Build hands that same machine out; a
    delegated call that throws is an Outcome that fails. */
module MFSMBuilder {
  import opened Common
  import opened MFSMTypes
  import opened MFSMMachine

  class Builder {
    const machine: Machine
    /** The root id Build passes to the machine, "" when none is set. */
    var rootId: string

    ghost predicate Valid()
      reads this, machine
    {
      machine.Valid()
    }

    /** The builder agrees with its machine on the root. AddRootState,
        AddState and the transition calls keep this; SetRoot may break it. */
    ghost predicate Synced()
      reads this, machine
    {
      rootId == machine.rootId
    }

    constructor ()
      ensures Valid() && Synced()
      ensures fresh(machine)
      ensures rootId == ""
      ensures machine.Snap() == Snapshot(map[], map[], [], [], "", Context(0, map[]), false, false, [])
    {
      machine := new Machine();
      rootId := "";
    }

    /** Registers a state with no parent as a root of the machine; the
        builder records its id only when no root id is set yet. */
    method AddRootState(state: Option<State>) returns (r: Outcome)
      requires Valid()
      modifies this, machine
      ensures Valid()
      ensures state.None? ==> r == Fail(ArgumentNull)
      ensures r.Pass? <==> state.Some? && state.value.id != "" && state.value.id != AnyStateId
      ensures r.Fail? ==> machine.Snap() == old(machine.Snap()) && rootId == old(rootId)
      ensures r.Pass? ==> machine.Snap() == Registered(old(machine.Snap()), state.value, "", true)
      ensures r.Pass? ==> rootId == if old(rootId) == "" then state.value.id else old(rootId)
      ensures old(Synced()) ==> Synced()
    {
      if state.None? {
        return Fail(ArgumentNull);
      }
      r := machine.RegisterState(state, "", true);
      if r.Fail? {
        return;
      }
      if rootId == "" {
        rootId := state.value.id;
      }
    }

    /** Registers a state under `parentStateId` ("" for none), never as a
        root. */
    method AddState(state: Option<State>, parentStateId: string) returns (r: Outcome)
      requires Valid()
      modifies machine
      ensures Valid()
      ensures state.None? ==> r == Fail(ArgumentNull)
      ensures r.Pass? <==> state.Some? && state.value.id != "" && state.value.id != AnyStateId
      ensures r.Fail? ==> machine.Snap() == old(machine.Snap())
      ensures r.Pass? ==> machine.Snap() == Registered(old(machine.Snap()), state.value, parentStateId, false)
      ensures r.Pass? ==> machine.rootId == old(machine.rootId)
      ensures old(Synced()) ==> Synced()
    {
      if state.None? {
        return Fail(ArgumentNull);
      }
      r := machine.RegisterState(state, parentStateId, false);
    }

    /** Adds a transition entry to the machine (both overloads: a condition
        object and a predicate are the same condition token here). */
    method AddTransition(fromId: string, toId: string, condition: Option<nat>, priority: int) returns (r: Outcome)
      requires Valid()
      modifies machine
      ensures Valid()
      ensures r.Fail? <==>
        fromId == "" || toId == "" || (fromId != AnyStateId && fromId !in old(machine.states)) || toId !in old(machine.states)
      ensures r.Fail? ==> r.error == Argument && machine.Snap() == old(machine.Snap())
      ensures r.Pass? ==>
        multiset(machine.transitions) == multiset(old(machine.transitions)) + multiset{Transition(fromId, toId, condition, priority)}
      ensures r.Pass? ==> machine.Snap() == old(machine.Snap()).(transitions := machine.transitions)
      ensures old(Synced()) ==> Synced()
    {
      r := machine.AddTransition(fromId, toId, condition, priority);
    }

    /** AddTransition with the wildcard source (both overloads). */
    method AddAnyTransition(toId: string, condition: Option<nat>, priority: int) returns (r: Outcome)
      requires Valid()
      modifies machine
      ensures Valid()
      ensures r.Fail? <==> toId == "" || toId !in old(machine.states)
      ensures r.Fail? ==> r.error == Argument && machine.Snap() == old(machine.Snap())
      ensures r.Pass? ==>
        multiset(machine.transitions) == multiset(old(machine.transitions)) + multiset{Transition(AnyStateId, toId, condition, priority)}
      ensures r.Pass? ==> machine.Snap() == old(machine.Snap()).(transitions := machine.transitions)
      ensures old(Synced()) ==> Synced()
    {
      r := machine.AddTransition(AnyStateId, toId, condition, priority);
    }

    /** Overwrites the builder's root id; nothing is checked until Build. */
    method SetRoot(id: string)
      modifies this
      ensures rootId == id
      ensures machine.Snap() == old(machine.Snap())
    {
      rootId := id;
    }

    /** Passes a non-empty root id to the machine's SetRoot, which fails for
        an unregistered id, and returns the builder's own machine. */
    method Build() returns (r: Result<Machine>)
      requires Valid()
      modifies machine
      ensures Valid()
      ensures r.Ok? ==> r.value == machine
      ensures rootId == "" ==> r == Ok(machine) && machine.Snap() == old(machine.Snap())
      ensures rootId != "" ==> (r.Err? <==> rootId !in old(machine.states))
      ensures r.Err? ==> r.error == Argument && machine.Snap() == old(machine.Snap())
      ensures rootId != "" && r.Ok? ==> machine.Snap() == old(machine.Snap()).(rootId := rootId)
      ensures old(Synced()) ==> machine.Snap() == old(machine.Snap())
    {
      if rootId != "" {
        var o := machine.SetRoot(rootId);
        if o.Fail? {
          return Err(o.error);
        }
      }
      r := Ok(machine);
    }
  }
}
