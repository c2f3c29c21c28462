/** The layered state machine: an ordered list of (layer id, machine)
    pairs driven in registration order. After each layer's update the
    layer's leaf id is written into the shared context, so a later layer's
    conditions see the outputs of the layers before it. */
module MFSMLayered {
  import opened Common
  import opened MFSMTypes
  import opened MFSMMachine

  datatype Layer = Layer(layerId: string, machine: Machine)

  /** The fields of a layered machine. */
  datatype LayeredSnapshot = LayeredSnapshot(layers: seq<Layer>, context: Context, isStarted: bool, isPaused: bool)

  /** Index of the first layer with this id. */
  function FindLayer(ls: seq<Layer>, id: string): (r: Option<nat>)
    ensures r.Some? ==> r.value < |ls| && ls[r.value].layerId == id
    ensures r.Some? ==> forall j :: 0 <= j < r.value ==> ls[j].layerId != id
    ensures r.None? <==> forall j :: 0 <= j < |ls| ==> ls[j].layerId != id
  {
    if ls == [] then None
    else if ls[0].layerId == id then Some(0)
    else match FindLayer(ls[1..], id)
      case None => None
      case Some(k) => Some(k + 1)
  }

  function LayerIds(ls: seq<Layer>): (r: seq<string>)
    ensures |r| == |ls|
    ensures forall i :: 0 <= i < |ls| ==> r[i] == ls[i].layerId
  {
    seq(|ls|, i requires 0 <= i < |ls| => ls[i].layerId)
  }

  function MachinesOf(ls: seq<Layer>): set<Machine>
  {
    set l | l in ls :: l.machine
  }

  /** The layers without the first one with this id, if any. */
  function WithoutLayer(ls: seq<Layer>, id: string): seq<Layer>
  {
    match FindLayer(ls, id)
    case None => ls
    case Some(i) => ls[..i] + ls[i + 1..]
  }

  /** Layer ids are non-empty and unique. */
  ghost predicate LayersValid(ls: seq<Layer>)
  {
    && Distinct(LayerIds(ls))
    && (forall i :: 0 <= i < |ls| ==> ls[i].layerId != "")
  }

  /** No machine serves two layers. */
  predicate LayersDistinct(ls: seq<Layer>)
  {
    forall i, j :: 0 <= i < j < |ls| ==> ls[i].machine != ls[j].machine
  }

  /** The machines' fields, layer by layer. */
  ghost function SnapsOf(ls: seq<Layer>): (r: seq<Snapshot>)
    reads MachinesOf(ls)
    ensures |r| == |ls|
    ensures forall i :: 0 <= i < |ls| ==> r[i] == ls[i].machine.Snap()
  {
    if ls == [] then []
    else
      assert MachinesOf(ls[1..]) <= MachinesOf(ls) by {
        forall m | m in MachinesOf(ls[1..]) ensures m in MachinesOf(ls) {
          var l :| l in ls[1..] && l.machine == m;
          assert l in ls;
        }
      }
      [ls[0].machine.Snap()] + SnapsOf(ls[1..])
  }

  /** The "layerId:leafId" summary of each layer. */
  function Summaries(ls: seq<Layer>): (r: seq<string>)
    reads MachinesOf(ls)
    ensures |r| == |ls|
    ensures forall i :: 0 <= i < |ls| ==> r[i] == ls[i].layerId + ":" + LeafOf(ls[i].machine.Snap())
  {
    if ls == [] then []
    else
      assert MachinesOf(ls[1..]) <= MachinesOf(ls) by {
        forall m | m in MachinesOf(ls[1..]) ensures m in MachinesOf(ls) {
          var l :| l in ls[1..] && l.machine == m;
          assert l in ls;
        }
      }
      [ls[0].layerId + ":" + ls[0].machine.LeafId()] + Summaries(ls[1..])
  }

  /** The leaf ids of a sequence of machines. */
  function Leaves(ss: seq<Snapshot>): (r: seq<string>)
    ensures |r| == |ss|
    ensures forall i :: 0 <= i < |ss| ==> r[i] == LeafOf(ss[i])
  {
    seq(|ss|, i requires 0 <= i < |ss| => LeafOf(ss[i]))
  }

  /** SetLayerOutput(id, v) on the shared context. */
  function SetOutput(ctx: Context, id: string, v: string): Context
  {
    ctx.(outputs := ctx.outputs[id := v])
  }

  /** The context after writing the outputs `vs` for the layers `ids`, in
      order. */
  function ApplyOutputs(ctx: Context, ids: seq<string>, vs: seq<string>): Context
    requires |ids| == |vs|
    decreases |ids|
  {
    if ids == [] then ctx else ApplyOutputs(SetOutput(ctx, ids[0], vs[0]), ids[1..], vs[1..])
  }

  /** Outcome and machine of one layer's start: the layer's initial state
      must be present and non-empty; the machine gets the context and is
      started in it. */
  function LayerStart(m: Snapshot, ctx: Context, init: map<string, string>, layerId: string): (Outcome, Snapshot)
  {
    if layerId !in init || init[layerId] == "" then (Fail(InvalidOperation), m)
    else StartSpec(m.(context := ctx), ctx, init[layerId])
  }

  /** What starting each layer on its own gives, layer by layer. */
  function LayerSteps(olds: seq<Snapshot>, ids: seq<string>, ctx: Context, init: map<string, string>): (r: seq<(Outcome, Snapshot)>)
    requires |olds| == |ids|
    ensures |r| == |ids|
    decreases |ids|
  {
    if ids == [] then []
    else [LayerStart(olds[0], ctx, init, ids[0])] + LayerSteps(olds[1..], ids[1..], ctx, init)
  }

  /** Step j of LayerSteps is layer j's own start. */
  lemma {:induction false} LayerStepsAt(olds: seq<Snapshot>, ids: seq<string>, ctx: Context, init: map<string, string>, j: nat)
    requires |olds| == |ids| && j < |ids|
    ensures LayerSteps(olds, ids, ctx, init)[j] == LayerStart(olds[j], ctx, init, ids[j])
    decreases j
  {
    if j > 0 {
      LayerStepsAt(olds[1..], ids[1..], ctx, init, j - 1);
    }
  }

  /** Running per-layer steps in order, stopping at the first that fails:
      that layer keeps what its failed step did and later layers keep
      their old machines. */
  function StartRun(steps: seq<(Outcome, Snapshot)>, olds: seq<Snapshot>): (Outcome, seq<Snapshot>)
    requires |steps| == |olds|
    decreases |steps|
  {
    if steps == [] then (Pass, [])
    else if steps[0].0.Fail? then (steps[0].0, [steps[0].1] + olds[1..])
    else
      var rest := StartRun(steps[1..], olds[1..]);
      (rest.0, [steps[0].1] + rest.1)
  }

  /** Starting the layers in order in one context. */
  function StartLayers(olds: seq<Snapshot>, ids: seq<string>, ctx: Context, init: map<string, string>): (Outcome, seq<Snapshot>)
    requires |olds| == |ids|
  {
    StartRun(LayerSteps(olds, ids, ctx, init), olds)
  }

  /** One frame over the layers in order: each machine gets the current
      context and is updated, then its leaf id is written as the layer's
      output. */
  function RunLayers(ctx: Context, ids: seq<string>, olds: seq<Snapshot>, dt: real, eval: (nat, Context) -> bool): (Context, seq<Snapshot>)
    requires |ids| == |olds|
    decreases |ids|
  {
    if ids == [] then (ctx, [])
    else
      var s := UpdateSpec(olds[0].(context := ctx), dt, eval);
      var rest := RunLayers(SetOutput(ctx, ids[0], LeafOf(s)), ids[1..], olds[1..], dt, eval);
      (rest.0, [s] + rest.1)
  }

  class LayeredMachine {
    var layers: seq<Layer>
    var context: Context
    var isStarted: bool
    var isPaused: bool

    ghost function LSnap(): LayeredSnapshot
      reads this
    {
      LayeredSnapshot(layers, context, isStarted, isPaused)
    }

    function Machines(): set<Machine>
      reads this
    {
      MachinesOf(layers)
    }

    /** Layer ids are non-empty and unique. */
    ghost predicate Valid()
      reads this
    {
      LayersValid(layers)
    }

    constructor ()
      ensures Valid()
      ensures LSnap() == LayeredSnapshot([], Context(0, map[]), false, false)
    {
      layers := [];
      context := Context(0, map[]);
      isStarted := false;
      isPaused := false;
    }

    method SetContext(ctx: Context)
      modifies this
      ensures LSnap() == old(LSnap()).(context := ctx)
    {
      context := ctx;
    }

    method SetPaused(paused: bool)
      modifies this
      ensures LSnap() == old(LSnap()).(isPaused := paused)
    {
      isPaused := paused;
    }

    /** The machine of the first layer with this id; null for the empty id
        or an unknown one. */
    method GetMachine(layerId: string) returns (m: Machine?)
      ensures layerId == "" ==> m == null
      ensures layerId != "" ==>
        m == match FindLayer(layers, layerId) case None => null case Some(i) => layers[i].machine
    {
      if layerId == "" {
        return null;
      }
      var i := SearchLayer(layers, layerId);
      m := if i.Some? then layers[i.value].machine else null;
    }

    /** The leaf id of the layer's machine; "" for an unknown layer or an empty
        active path. */
    method GetLayerCurrentStateId(layerId: string) returns (s: string)
      ensures layerId == "" || FindLayer(layers, layerId).None? ==> s == ""
      ensures layerId != "" && FindLayer(layers, layerId).Some? ==>
        s == LeafOf(layers[FindLayer(layers, layerId).value].machine.Snap())
    {
      var m := GetMachine(layerId);
      if m == null {
        return "";
      }
      s := m.LeafId();
    }

    /** "layerId:leafId" for every layer, in order, joined by "|". */
    method GetCurrentLayersString() returns (s: string)
      ensures s == Join(Summaries(layers), "|")
    {
      if |layers| == 0 {
        return "";
      }
      ghost var sums := Summaries(layers);
      var parts: seq<string> := [];
      var i := 0;
      while i < |layers|
        invariant 0 <= i <= |layers|
        invariant parts == sums[..i]
      {
        assert sums[..i + 1] == sums[..i] + [sums[i]];
        parts := parts + [layers[i].layerId + ":" + layers[i].machine.LeafId()];
        i := i + 1;
      }
      assert sums[..|layers|] == sums;
      s := Join(parts, "|");
    }

    /** Registers a layer: an existing id keeps its position and gets the new
        machine, a new id is appended. */
    method AddLayer(layerId: string, machine: Machine?) returns (r: Outcome)
      requires Valid()
      modifies this
      ensures Valid()
      ensures layerId == "" ==> r == Fail(Argument)
      ensures layerId != "" && machine == null ==> r == Fail(ArgumentNull)
      ensures r.Pass? <==> layerId != "" && machine != null
      ensures r.Fail? ==> LSnap() == old(LSnap())
      ensures r.Pass? ==>
        match old(FindLayer(layers, layerId))
        case Some(i) => LSnap() == old(LSnap()).(layers := old(layers)[i := Layer(layerId, machine)])
        case None => LSnap() == old(LSnap()).(layers := old(layers) + [Layer(layerId, machine)])
    {
      if layerId == "" {
        return Fail(Argument);
      }
      if machine == null {
        return Fail(ArgumentNull);
      }
      var found := SearchLayer(layers, layerId);
      AddLayerKeeps(layers, Layer(layerId, machine));
      if found.Some? {
        layers := layers[found.value := Layer(layerId, machine)];
      } else {
        layers := layers + [Layer(layerId, machine)];
      }
      r := Pass;
    }

    /** Removes the layer with this id, keeping the order of the others; the
        empty or an unknown id changes nothing. */
    method RemoveLayer(layerId: string)
      requires Valid()
      modifies this
      ensures Valid()
      ensures layerId == "" ==> LSnap() == old(LSnap())
      ensures layerId != "" ==> LSnap() == old(LSnap()).(layers := WithoutLayer(old(layers), layerId))
    {
      if layerId == "" {
        return;
      }
      var i := SearchLayerFromEnd(layers, layerId);
      if i >= 0 {
        RemoveAt(i);
      }
    }

    /** RemoveAt(i) on the layer list. */
    method RemoveAt(i: nat)
      requires Valid() && i < |layers|
      modifies this
      ensures Valid()
      ensures LSnap() == old(LSnap()).(layers := WithoutLayer(old(layers), old(layers)[i].layerId))
    {
      RemoveAtKeeps(layers, i);
      layers := layers[..i] + layers[i + 1..];
    }

    /** Starts every layer in order in the given context, each entering the
        initial state named for its id. The started flag is set only after
        all layers started; a failing layer stops the loop with the earlier
        layers left started. */
    method Start(ctx: Option<Context>, initialStates: Option<map<string, string>>) returns (r: Outcome)
      modifies this, Machines()
      ensures layers == old(layers) && isPaused == old(isPaused)
      ensures ctx.None? ==> r == Fail(ArgumentNull)
      ensures ctx.Some? && initialStates.None? ==> r == Fail(ArgumentNull)
      ensures ctx.Some? && initialStates.Some? && |layers| == 0 ==> r == Fail(InvalidOperation)
      ensures ctx.None? || initialStates.None? || |layers| == 0 ==>
        LSnap() == old(LSnap()) && SnapsOf(layers) == old(SnapsOf(layers))
      ensures ctx.Some? && initialStates.Some? && |layers| > 0 ==> context == ctx.value
      ensures r.Pass? ==> isStarted
      ensures r.Fail? ==> isStarted == old(isStarted)
      ensures ctx.Some? && initialStates.Some? && |layers| > 0 && LayersDistinct(layers) ==>
        (r, SnapsOf(layers)) == StartLayers(old(SnapsOf(layers)), LayerIds(layers), ctx.value, initialStates.value)
    {
      if ctx.None? || initialStates.None? {
        return Fail(ArgumentNull);
      }
      if |layers| == 0 {
        return Fail(InvalidOperation);
      }
      context := ctx.value;
      r := StartAll(ctx.value, initialStates.value, LayersDistinct(layers));
      if r.Pass? {
        isStarted := true;
      }
    }

    /** The loop of Start: each layer in order, stopping at the first layer
        whose start fails. */
    method StartAll(c: Context, init: map<string, string>, ghost distinct: bool) returns (r: Outcome)
      requires distinct ==> LayersDistinct(layers)
      modifies Machines()
      ensures distinct ==>
        (r, SnapsOf(layers)) == StartLayers(old(SnapsOf(layers)), LayerIds(layers), c, init)
    {
      ghost var olds := SnapsOf(layers);
      ghost var ids := LayerIds(layers);
      ghost var steps := LayerSteps(olds, ids, c, init);
      ghost var cur := olds;
      var i := 0;
      while i < |layers|
        invariant 0 <= i <= |layers| && |cur| == |layers|
        invariant distinct ==> SnapsOf(layers) == cur && StartedUpTo(cur, steps, olds, i)
      {
        LayerStepsAt(olds, ids, c, init, i);
        var res := StartLayerAt(i, c, init, distinct, steps, olds, cur);
        cur := cur[i := steps[i].1];
        if res.Fail? {
          return res;
        }
        i := i + 1;
      }
      r := Pass;
      if distinct {
        StartRunCompletes(cur, steps, olds);
      }
    }

    /** One layer of Start: a missing or empty initial state for the layer
        fails; otherwise the layer's machine gets the context and is started
        in it. No other layer's machine changes, so with the layers before
        it started the run either goes on or ends here. */
    method StartLayerAt(i: nat, c: Context, init: map<string, string>, ghost distinct: bool,
                        ghost steps: seq<(Outcome, Snapshot)>, ghost olds: seq<Snapshot>, ghost cur: seq<Snapshot>)
        returns (res: Outcome)
      requires i < |layers| && |steps| == |olds| == |cur| == |layers|
      requires steps[i] == LayerStart(olds[i], c, init, LayerIds(layers)[i])
      requires distinct ==> LayersDistinct(layers) && SnapsOf(layers) == cur && StartedUpTo(cur, steps, olds, i)
      modifies layers[i].machine
      ensures (res, layers[i].machine.Snap()) ==
        LayerStart(old(layers[i].machine.Snap()), c, init, layers[i].layerId)
      ensures distinct ==> res == steps[i].0 && SnapsOf(layers) == cur[i := steps[i].1]
      ensures distinct && res.Pass? ==> StartedUpTo(cur[i := steps[i].1], steps, olds, i + 1)
      ensures distinct && res.Fail? ==> StartRun(steps, olds) == (res, cur[i := steps[i].1])
    {
      var layerId := layers[i].layerId;
      var machine := layers[i].machine;
      assert layers[i] in layers;
      if distinct {
        StartLoopStep(cur, steps, olds, i);
      }
      if layerId !in init || init[layerId] == "" {
        return Fail(InvalidOperation);
      }
      machine.SetContext(c);
      res := machine.Start(c, init[layerId]);
    }

    /** One frame: unless not started, paused or `deltaTime` is negative,
        each layer's machine gets the context and is updated, then the
        layer's leaf id is written into the context. */
    method Update(deltaTime: real, eval: (nat, Context) -> bool)
      modifies this, Machines()
      ensures layers == old(layers) && isStarted == old(isStarted) && isPaused == old(isPaused)
      ensures !old(isStarted) || old(isPaused) || deltaTime < 0.0 ==>
        LSnap() == old(LSnap()) && SnapsOf(layers) == old(SnapsOf(layers))
      ensures old(isStarted) && !old(isPaused) && deltaTime >= 0.0 && LayersDistinct(layers) ==>
        (context, SnapsOf(layers)) == RunLayers(old(context), LayerIds(layers), old(SnapsOf(layers)), deltaTime, eval)
    {
      if !isStarted || isPaused || deltaTime < 0.0 {
        return;
      }
      context := UpdateAll(context, deltaTime, eval, LayersDistinct(layers));
    }

    /** The loop of Update, carrying the shared context from layer to layer;
        the result is the context after the last layer. */
    method UpdateAll(c0: Context, deltaTime: real, eval: (nat, Context) -> bool, ghost distinct: bool) returns (ctx: Context)
      requires distinct ==> LayersDistinct(layers)
      modifies Machines()
      ensures distinct ==>
        (ctx, SnapsOf(layers)) == RunLayers(c0, LayerIds(layers), old(SnapsOf(layers)), deltaTime, eval)
    {
      ghost var olds := SnapsOf(layers);
      ghost var ids := LayerIds(layers);
      ghost var full := RunLayers(c0, ids, olds, deltaTime, eval);
      RunLoopInit(c0, ids, olds, deltaTime, eval);
      ctx := c0;
      var i := 0;
      while i < |layers|
        invariant 0 <= i <= |layers|
        invariant distinct ==> SnapsOf(layers)[i..] == olds[i..]
        invariant distinct ==>
          full ==
            (RunLayers(ctx, ids[i..], olds[i..], deltaTime, eval).0,
             SnapsOf(layers)[..i] + RunLayers(ctx, ids[i..], olds[i..], deltaTime, eval).1)
      {
        if distinct {
          RunLoopStep(c0, ctx, ids, olds, deltaTime, eval, SnapsOf(layers), i);
        }
        var leaf := UpdateLayerAt(i, ctx, deltaTime, eval, distinct);
        ctx := SetOutput(ctx, layers[i].layerId, leaf);
        i := i + 1;
      }
      if distinct {
        RunLoopEnd(c0, ctx, ids, olds, deltaTime, eval, SnapsOf(layers));
      }
    }

    /** One layer of Update: the layer's machine gets the context and is
        updated; the result is its leaf id afterwards. No other layer's
        machine changes. */
    method UpdateLayerAt(i: nat, c: Context, deltaTime: real, eval: (nat, Context) -> bool, ghost distinct: bool)
        returns (leaf: string)
      requires i < |layers|
      requires distinct ==> LayersDistinct(layers)
      modifies layers[i].machine
      ensures layers[i].machine.Snap() == UpdateSpec(old(layers[i].machine.Snap()).(context := c), deltaTime, eval)
      ensures leaf == LeafOf(layers[i].machine.Snap())
      ensures distinct ==> SnapsOf(layers) == old(SnapsOf(layers))[i := layers[i].machine.Snap()]
    {
      var machine := layers[i].machine;
      assert layers[i] in layers;
      machine.SetContext(c);
      machine.Update(deltaTime, eval);
      leaf := machine.LeafId();
    }

    /** TransitionTo on the machine of the layer with this id; an unknown
        layer changes nothing. */
    method TransitionLayerTo(layerId: string, toId: string)
      modifies Machines()
      ensures layerId == "" || FindLayer(layers, layerId).None? ==> SnapsOf(layers) == old(SnapsOf(layers))
      ensures layerId != "" && FindLayer(layers, layerId).Some? ==>
        var m := layers[FindLayer(layers, layerId).value].machine;
        && m.Snap() == TransitionToSpec(old(m.Snap()), toId)
        && forall j :: 0 <= j < |layers| && layers[j].machine != m ==>
             layers[j].machine.Snap() == old(layers[j].machine.Snap())
    {
      var m := GetMachine(layerId);
      if m != null {
        assert layers[FindLayer(layers, layerId).value] in layers;
        m.TransitionTo(toId);
      }
    }

    /** Resets every layer's machine, then clears the started and paused
        flags. A machine serving several layers is reset once per layer,
        which leaves it as one reset does. */
    method Reset()
      modifies this, Machines()
      ensures LSnap() == old(LSnap()).(isStarted := false, isPaused := false)
      ensures forall j :: 0 <= j < |layers| ==>
        layers[j].machine.Snap() == ResetSpec(old(layers[j].machine.Snap()))
    {
      ghost var olds := SnapsOf(layers);
      var i := 0;
      while i < |layers|
        invariant 0 <= i <= |layers|
        invariant LSnap() == old(LSnap())
        invariant forall j :: 0 <= j < i ==> layers[j].machine.Snap() == ResetSpec(olds[j])
        invariant forall j :: i <= j < |layers| ==>
          layers[j].machine.Snap() == olds[j] || layers[j].machine.Snap() == ResetSpec(olds[j])
      {
        label BeforeReset:
        ResetLayerAt(i);
        forall j | 0 <= j < |layers|
          ensures j < i + 1 ==> layers[j].machine.Snap() == ResetSpec(olds[j])
          ensures layers[j].machine.Snap() == olds[j] || layers[j].machine.Snap() == ResetSpec(olds[j])
        {
          if layers[j].machine == layers[i].machine {
            ResetSpecIdempotent(olds[j]);
          } else {
            assert layers[j].machine.Snap() == old@BeforeReset(layers[j].machine.Snap());
          }
        }
        i := i + 1;
      }
      isStarted := false;
      isPaused := false;
    }

    /** One layer of Reset: the layer's machine is reset. */
    method ResetLayerAt(i: nat)
      requires i < |layers|
      modifies layers[i].machine
      ensures layers[i].machine.Snap() == ResetSpec(old(layers[i].machine.Snap()))
    {
      assert layers[i] in layers;
      layers[i].machine.Reset();
    }
  }

  /** The forward scan of GetMachine and AddLayer: the first layer with
      this id. */
  method SearchLayer(ls: seq<Layer>, id: string) returns (r: Option<nat>)
    ensures r == FindLayer(ls, id)
  {
    var i := 0;
    while i < |ls|
      invariant 0 <= i <= |ls|
      invariant forall j :: 0 <= j < i ==> ls[j].layerId != id
    {
      if ls[i].layerId == id {
        return Some(i);
      }
      i := i + 1;
    }
    return None;
  }

  /** The backward scan of RemoveLayer: the last layer with this id, or -1. */
  method SearchLayerFromEnd(ls: seq<Layer>, id: string) returns (i: int)
    ensures -1 <= i < |ls|
    ensures i >= 0 ==> ls[i].layerId == id && forall j :: i < j < |ls| ==> ls[j].layerId != id
    ensures i == -1 <==> forall j :: 0 <= j < |ls| ==> ls[j].layerId != id
  {
    i := |ls| - 1;
    while i >= 0
      invariant -1 <= i < |ls|
      invariant forall j :: i < j < |ls| ==> ls[j].layerId != id
      decreases i + 1
    {
      if ls[i].layerId == id {
        return;
      }
      i := i - 1;
    }
  }

  /** Replacing the layer with the same id, or appending a layer with a
      new id, keeps the ids non-empty and unique. */
  lemma AddLayerKeeps(ls: seq<Layer>, l: Layer)
    requires LayersValid(ls) && l.layerId != ""
    ensures FindLayer(ls, l.layerId).Some? ==> LayersValid(ls[FindLayer(ls, l.layerId).value := l])
    ensures FindLayer(ls, l.layerId).None? ==> LayersValid(ls + [l])
  {
    match FindLayer(ls, l.layerId)
    case Some(i) =>
      assert LayerIds(ls[i := l]) == LayerIds(ls);
    case None =>
      assert LayerIds(ls + [l]) == LayerIds(ls) + [l.layerId];
  }

  /** Removing a layer keeps the ids non-empty and unique, and with
      unique ids the removed layer was the first with its id. */
  lemma RemoveAtKeeps(ls: seq<Layer>, i: nat)
    requires i < |ls| && LayersValid(ls)
    ensures FindLayer(ls, ls[i].layerId) == Some(i)
    ensures LayersValid(ls[..i] + ls[i + 1..])
  {
    FindLayerUnique(ls, i);
    LayerIdsRemove(ls, i);
    DistinctRemove(LayerIds(ls), i);
    var r := ls[..i] + ls[i + 1..];
    forall j | 0 <= j < |r|
      ensures r[j].layerId != ""
    {
      assert LayerIds(r)[j] in LayerIds(ls);
    }
  }

  /** The ids after removing a layer are the ids without its id. */
  lemma LayerIdsRemove(ls: seq<Layer>, i: nat)
    requires i < |ls|
    ensures LayerIds(ls[..i] + ls[i + 1..]) == LayerIds(ls)[..i] + LayerIds(ls)[i + 1..]
  {
    var r := ls[..i] + ls[i + 1..];
    var ids := LayerIds(ls);
    forall j | 0 <= j < |r|
      ensures LayerIds(r)[j] == (ids[..i] + ids[i + 1..])[j]
    {
      if j < i {
        assert r[j] == ls[j];
      } else {
        assert r[j] == ls[j + 1];
      }
    }
  }

  /** Removing a layer by id: an unknown id changes nothing; otherwise
      exactly that layer goes, the others keep their order, the ids stay
      non-empty and unique and the id is no longer found. */
  lemma WithoutLayerSpec(ls: seq<Layer>, id: string)
    requires LayersValid(ls)
    ensures var r := WithoutLayer(ls, id);
      && LayersValid(r)
      && FindLayer(r, id).None?
      && (FindLayer(ls, id).None? ==> r == ls)
      && (FindLayer(ls, id).Some? ==>
            var i := FindLayer(ls, id).value;
            && |r| == |ls| - 1
            && (forall j :: 0 <= j < i ==> r[j] == ls[j])
            && (forall j :: i <= j < |r| ==> r[j] == ls[j + 1]))
  {
    match FindLayer(ls, id)
    case None =>
    case Some(i) =>
      RemoveAtKeeps(ls, i);
      var r := ls[..i] + ls[i + 1..];
      forall j | 0 <= j < |r|
        ensures r[j].layerId != id
      {
        var j' := if j < i then j else j + 1;
        assert r[j] == ls[j'] && LayerIds(ls)[j'] != LayerIds(ls)[i];
      }
  }

  /** With distinct ids a layer is the first with its own id. */
  lemma FindLayerUnique(ls: seq<Layer>, i: nat)
    requires Distinct(LayerIds(ls)) && i < |ls|
    ensures FindLayer(ls, ls[i].layerId) == Some(i)
  {
    var r := FindLayer(ls, ls[i].layerId);
    assert r.Some? && r.value <= i;
    assert LayerIds(ls)[r.value] == LayerIds(ls)[i];
  }

  /** The Update loop starts with the whole run ahead of it. */
  lemma RunLoopInit(c0: Context, ids: seq<string>, olds: seq<Snapshot>, dt: real, eval: (nat, Context) -> bool)
    requires |olds| == |ids|
    ensures var full := RunLayers(c0, ids, olds, dt, eval);
      full == (RunLayers(c0, ids[0..], olds[0..], dt, eval).0, olds[..0] + RunLayers(c0, ids[0..], olds[0..], dt, eval).1)
  {
    var full := RunLayers(c0, ids, olds, dt, eval);
    assert ids[0..] == ids && olds[0..] == olds && olds[..0] == [];
    assert [] + full.1 == full.1;
  }

  /** One step of the Update loop over the pure run of the layers. */
  lemma RunLoopStep(c0: Context, c: Context, ids: seq<string>, olds: seq<Snapshot>, dt: real,
                    eval: (nat, Context) -> bool, cur: seq<Snapshot>, i: nat)
    requires |olds| == |ids| == |cur| && i < |ids| && cur[i..] == olds[i..]
    requires RunLayers(c0, ids, olds, dt, eval) ==
      (RunLayers(c, ids[i..], olds[i..], dt, eval).0, cur[..i] + RunLayers(c, ids[i..], olds[i..], dt, eval).1)
    ensures cur[i] == olds[i]
    ensures var s := UpdateSpec(olds[i].(context := c), dt, eval);
      var c' := SetOutput(c, ids[i], LeafOf(s));
      var cur' := cur[i := s];
      var rest := RunLayers(c', ids[i + 1..], olds[i + 1..], dt, eval);
      && cur'[i + 1..] == olds[i + 1..]
      && RunLayers(c0, ids, olds, dt, eval) == (rest.0, cur'[..i + 1] + rest.1)
  {
    assert cur[i] == cur[i..][0];
    var s := UpdateSpec(olds[i].(context := c), dt, eval);
    var c' := SetOutput(c, ids[i], LeafOf(s));
    var rest := RunLayers(c', ids[i + 1..], olds[i + 1..], dt, eval);
    assert olds[i..][0] == olds[i] && ids[i..][0] == ids[i];
    assert olds[i..][1..] == olds[i + 1..] && ids[i..][1..] == ids[i + 1..];
    assert RunLayers(c, ids[i..], olds[i..], dt, eval) == (rest.0, [s] + rest.1);
    assert cur[i := s][..i + 1] == cur[..i] + [s];
    assert cur[..i] + ([s] + rest.1) == cur[i := s][..i + 1] + rest.1;
    assert cur[i := s][i + 1..] == cur[i..][1..];
  }

  /** The Update loop ends with nothing of the run left. */
  lemma RunLoopEnd(c0: Context, c: Context, ids: seq<string>, olds: seq<Snapshot>, dt: real,
                   eval: (nat, Context) -> bool, cur: seq<Snapshot>)
    requires |olds| == |ids| == |cur|
    requires RunLayers(c0, ids, olds, dt, eval) ==
      (RunLayers(c, ids[|ids|..], olds[|ids|..], dt, eval).0, cur[..|ids|] + RunLayers(c, ids[|ids|..], olds[|ids|..], dt, eval).1)
    ensures RunLayers(c0, ids, olds, dt, eval) == (c, cur)
  {
    assert ids[|ids|..] == [] && olds[|ids|..] == [] && cur[..|ids|] == cur;
    assert cur + [] == cur;
  }

  // ---------------------------------------------------------------------------
  // Properties of the layer runs

  /** Writing outputs leaves the outputs of ids not written untouched. */
  lemma {:induction false} ApplyOutputsOthers(ctx: Context, ids: seq<string>, vs: seq<string>, k: string)
    requires |ids| == |vs| && k !in ids
    ensures var c := ApplyOutputs(ctx, ids, vs);
      c.token == ctx.token &&
      (k in c.outputs <==> k in ctx.outputs) && (k in ctx.outputs ==> c.outputs[k] == ctx.outputs[k])
    decreases |ids|
  {
    if ids != [] {
      ApplyOutputsOthers(SetOutput(ctx, ids[0], vs[0]), ids[1..], vs[1..], k);
    }
  }

  /** With distinct ids the context after writing holds each layer's value. */
  lemma {:induction false} ApplyOutputsLookup(ctx: Context, ids: seq<string>, vs: seq<string>, j: nat)
    requires |ids| == |vs| && Distinct(ids) && j < |ids|
    ensures ids[j] in ApplyOutputs(ctx, ids, vs).outputs
    ensures ApplyOutputs(ctx, ids, vs).outputs[ids[j]] == vs[j]
    decreases |ids|
  {
    if j == 0 {
      assert ids[0] !in ids[1..];
      ApplyOutputsOthers(SetOutput(ctx, ids[0], vs[0]), ids[1..], vs[1..], ids[0]);
    } else {
      DistinctSlice(ids, 1, |ids|);
      ApplyOutputsLookup(SetOutput(ctx, ids[0], vs[0]), ids[1..], vs[1..], j - 1);
    }
  }

  /** A frame over the layers, unrolled: layer j is updated in the context
      holding the outputs of layers 0..j-1 (and of no later layer), and the
      final context holds every layer's output. */
  lemma {:induction false} RunLayersOrder(ctx: Context, ids: seq<string>, olds: seq<Snapshot>, dt: real, eval: (nat, Context) -> bool)
    requires |ids| == |olds|
    ensures var res := RunLayers(ctx, ids, olds, dt, eval);
      && |res.1| == |ids|
      && res.0 == ApplyOutputs(ctx, ids, Leaves(res.1))
      && forall j :: 0 <= j < |ids| ==>
           res.1[j] == UpdateSpec(olds[j].(context := ApplyOutputs(ctx, ids[..j], Leaves(res.1)[..j])), dt, eval)
    decreases |ids|
  {
    if ids != [] {
      var res := RunLayers(ctx, ids, olds, dt, eval);
      var s := UpdateSpec(olds[0].(context := ctx), dt, eval);
      var ctx' := SetOutput(ctx, ids[0], LeafOf(s));
      var rest := RunLayers(ctx', ids[1..], olds[1..], dt, eval);
      RunLayersOrder(ctx', ids[1..], olds[1..], dt, eval);
      assert res.1 == [s] + rest.1;
      var ls := Leaves(res.1);
      assert ls[1..] == Leaves(rest.1);
      assert ls[0] == LeafOf(s);
      forall j | 0 <= j < |ids|
        ensures res.1[j] == UpdateSpec(olds[j].(context := ApplyOutputs(ctx, ids[..j], ls[..j])), dt, eval)
      {
        if j == 0 {
          assert ids[..0] == [] && ls[..0] == [];
        } else {
          assert ids[..j][1..] == ids[1..][..j - 1];
          assert ls[..j][1..] == Leaves(rest.1)[..j - 1];
          assert res.1[j] == rest.1[j - 1];
          assert olds[j] == olds[1..][j - 1];
        }
      }
    }
  }

  /** With distinct layer ids, after a frame every layer's output is its
      machine's leaf id, the outputs of other keys are kept, and layer j saw
      the outputs already written by every layer before it. */
  lemma LayerOutputsWritten(ctx: Context, ids: seq<string>, olds: seq<Snapshot>, dt: real, eval: (nat, Context) -> bool)
    requires |ids| == |olds| && Distinct(ids)
    ensures var res := RunLayers(ctx, ids, olds, dt, eval);
      && |res.1| == |ids|
      && (forall j :: 0 <= j < |ids| ==> ids[j] in res.0.outputs && res.0.outputs[ids[j]] == LeafOf(res.1[j]))
      && (forall k :: k !in ids ==> (k in res.0.outputs <==> k in ctx.outputs))
      && (forall k :: k !in ids && k in ctx.outputs ==> res.0.outputs[k] == ctx.outputs[k])
      && (forall j, i :: 0 <= i < j < |ids| ==>
            var seen := ApplyOutputs(ctx, ids[..j], Leaves(res.1)[..j]);
            ids[i] in seen.outputs && seen.outputs[ids[i]] == LeafOf(res.1[i]))
  {
    var res := RunLayers(ctx, ids, olds, dt, eval);
    RunLayersOrder(ctx, ids, olds, dt, eval);
    var ls := Leaves(res.1);
    forall j | 0 <= j < |ids|
      ensures ids[j] in res.0.outputs && res.0.outputs[ids[j]] == LeafOf(res.1[j])
    {
      ApplyOutputsLookup(ctx, ids, ls, j);
    }
    forall k | k !in ids
      ensures (k in res.0.outputs <==> k in ctx.outputs)
      ensures k in ctx.outputs ==> res.0.outputs[k] == ctx.outputs[k]
    {
      ApplyOutputsOthers(ctx, ids, ls, k);
    }
    forall j, i | 0 <= i < j < |ids|
      ensures var seen := ApplyOutputs(ctx, ids[..j], ls[..j]);
              ids[i] in seen.outputs && seen.outputs[ids[i]] == LeafOf(res.1[i])
    {
      DistinctSlice(ids, 0, j);
      assert ids[0..j] == ids[..j];
      assert ids[..j][i] == ids[i] && ls[..j][i] == ls[i];
      ApplyOutputsLookup(ctx, ids[..j], ls[..j], i);
    }
  }

  /** The run of the steps passes exactly when every step passes, and then
      every layer holds its step's machine. */
  lemma {:induction false} StartRunPass(steps: seq<(Outcome, Snapshot)>, olds: seq<Snapshot>)
    requires |steps| == |olds|
    ensures var res := StartRun(steps, olds);
      && |res.1| == |steps|
      && (res.0.Pass? <==> forall j :: 0 <= j < |steps| ==> steps[j].0.Pass?)
      && (res.0.Pass? ==> forall j :: 0 <= j < |steps| ==> res.1[j] == steps[j].1)
    decreases |steps|
  {
    if steps != [] {
      var res := StartRun(steps, olds);
      if steps[0].0.Pass? {
        var rest := StartRun(steps[1..], olds[1..]);
        StartRunPass(steps[1..], olds[1..]);
        assert res.1 == [steps[0].1] + rest.1;
        assert forall j :: 0 < j < |steps| ==> steps[j] == steps[1..][j - 1] && res.1[j] == rest.1[j - 1];
      }
    }
  }

  /** At the first failing step the run stops with that step's outcome:
      the layers before it hold their steps' machines, the failing layer
      holds what its step did, and the layers after it are untouched. */
  lemma {:induction false} StartRunFail(steps: seq<(Outcome, Snapshot)>, olds: seq<Snapshot>, f: nat)
    requires |steps| == |olds| && f < |steps| && steps[f].0.Fail?
    requires forall j :: 0 <= j < f ==> steps[j].0.Pass?
    ensures var res := StartRun(steps, olds);
      && |res.1| == |steps|
      && res.0 == steps[f].0
      && (forall j :: 0 <= j <= f ==> res.1[j] == steps[j].1)
      && (forall j :: f < j < |steps| ==> res.1[j] == olds[j])
    decreases f
  {
    var res := StartRun(steps, olds);
    if f == 0 {
      assert res.1 == [steps[0].1] + olds[1..];
    } else {
      var rest := StartRun(steps[1..], olds[1..]);
      StartRunFail(steps[1..], olds[1..], f - 1);
      assert res.1 == [steps[0].1] + rest.1;
      assert forall j :: 0 < j < |steps| ==>
        steps[j] == steps[1..][j - 1] && olds[j] == olds[1..][j - 1] && res.1[j] == rest.1[j - 1];
    }
  }

  /** The first `i` steps passed and their layers hold the steps' machines;
      the later layers hold their old machines. */
  ghost predicate StartedUpTo(cur: seq<Snapshot>, steps: seq<(Outcome, Snapshot)>, olds: seq<Snapshot>, i: nat)
  {
    && |cur| == |steps| == |olds| && i <= |cur|
    && (forall j :: 0 <= j < i ==> steps[j].0.Pass? && cur[j] == steps[j].1)
    && (forall j :: i <= j < |cur| ==> cur[j] == olds[j])
  }

  /** One step of the Start loop: layer `i` still holds its old machine;
      after it takes its step's machine, a passing step extends the started
      prefix and a failing one ends the run. */
  lemma StartLoopStep(cur: seq<Snapshot>, steps: seq<(Outcome, Snapshot)>, olds: seq<Snapshot>, i: nat)
    requires StartedUpTo(cur, steps, olds, i) && i < |cur|
    ensures cur[i] == olds[i]
    ensures steps[i].0.Pass? ==> StartedUpTo(cur[i := steps[i].1], steps, olds, i + 1)
    ensures steps[i].0.Fail? ==> StartRun(steps, olds) == (steps[i].0, cur[i := steps[i].1])
  {
    if steps[i].0.Fail? {
      StartRunStopsAt(cur[i := steps[i].1], steps, olds, i);
    }
  }

  /** Machines that passed their steps up to a failing step `f`, did what
      step `f` did, and kept the rest are what the run of the steps gives. */
  lemma StartRunStopsAt(snaps: seq<Snapshot>, steps: seq<(Outcome, Snapshot)>, olds: seq<Snapshot>, f: nat)
    requires |snaps| == |steps| == |olds| && f < |steps| && steps[f].0.Fail?
    requires forall j :: 0 <= j < f ==> steps[j].0.Pass? && snaps[j] == steps[j].1
    requires snaps[f] == steps[f].1
    requires forall j :: f < j < |steps| ==> snaps[j] == olds[j]
    ensures StartRun(steps, olds) == (steps[f].0, snaps)
  {
    var res := StartRun(steps, olds);
    StartRunFail(steps, olds, f);
    assert |res.1| == |snaps|;
    forall j | 0 <= j < |snaps|
      ensures res.1[j] == snaps[j]
    {
      if j < f {
        assert res.1[j] == steps[j].1;
      }
    }
    assert res.1 == snaps;
  }

  /** Machines that passed every step are what the run of the steps gives. */
  lemma StartRunCompletes(snaps: seq<Snapshot>, steps: seq<(Outcome, Snapshot)>, olds: seq<Snapshot>)
    requires StartedUpTo(snaps, steps, olds, |snaps|)
    ensures StartRun(steps, olds) == (Pass, snaps)
  {
    var res := StartRun(steps, olds);
    StartRunPass(steps, olds);
    assert forall j :: 0 <= j < |snaps| ==> res.1[j] == snaps[j];
    assert res.1 == snaps;
  }

  /** Starting layers in order: the start passes exactly when every layer's
      own start passes, and then every machine is as its own start left it;
      at the first layer whose start fails, the run fails with that layer's
      error, the earlier layers are started, that layer keeps what its
      failed start did and the later layers are untouched. */
  lemma StartLayersSpec(olds: seq<Snapshot>, ids: seq<string>, ctx: Context, init: map<string, string>, f: nat)
    requires |olds| == |ids|
    ensures var res := StartLayers(olds, ids, ctx, init);
      && |res.1| == |ids|
      && (res.0.Pass? <==> forall j :: 0 <= j < |ids| ==> LayerStart(olds[j], ctx, init, ids[j]).0.Pass?)
      && (res.0.Pass? ==> forall j :: 0 <= j < |ids| ==> res.1[j] == LayerStart(olds[j], ctx, init, ids[j]).1)
    ensures f < |ids| && LayerStart(olds[f], ctx, init, ids[f]).0.Fail? &&
            (forall j :: 0 <= j < f ==> LayerStart(olds[j], ctx, init, ids[j]).0.Pass?) ==>
      var res := StartLayers(olds, ids, ctx, init);
      && res.0 == LayerStart(olds[f], ctx, init, ids[f]).0
      && (forall j :: 0 <= j <= f ==> res.1[j] == LayerStart(olds[j], ctx, init, ids[j]).1)
      && (forall j :: f < j < |ids| ==> res.1[j] == olds[j])
  {
    var steps := LayerSteps(olds, ids, ctx, init);
    forall j | 0 <= j < |ids| ensures steps[j] == LayerStart(olds[j], ctx, init, ids[j]) {
      LayerStepsAt(olds, ids, ctx, init, j);
    }
    StartRunPass(steps, olds);
    if f < |ids| && steps[f].0.Fail? && (forall j :: 0 <= j < f ==> steps[j].0.Pass?) {
      StartRunFail(steps, olds, f);
    }
  }
}
