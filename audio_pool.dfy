/** The audio source pool: one idle queue, one used set and one creation
    count per source type, with creation on demand bounded by a per-type
    maximum. Audio sources are tokens carrying the settings given to them at
    creation and a loop flag that returning resets; playback and the
    engine's scene graph are not modelled. */
module AudioPools {
  import opened Common

  datatype SourceType = Ambient | Music | UI | Effect | Voice

  /** The source types in declaration order, the order of enumeration. */
  const AllTypes: seq<SourceType> := [Ambient, Music, UI, Effect, Voice]

  /** The position of `t` in AllTypes. */
  function Ordinal(t: SourceType): (k: nat)
    ensures k < |AllTypes| && AllTypes[k] == t
  {
    match t
    case Ambient => 0
    case Music => 1
    case UI => 2
    case Effect => 3
    case Voice => 4
  }

  /** Ordinal inverts indexing into AllTypes. */
  lemma OrdinalInverse(k: nat)
    requires k < |AllTypes|
    ensures Ordinal(AllTypes[k]) == k
  {
  }

  /** The engine priority a source of type `t` is given (0 is highest). */
  function Priority(t: SourceType): int
  {
    match t
    case Music => 0
    case Voice => 1
    case UI => 2
    case Effect => 3
    case Ambient => 4
  }

  /** Music and ambience always loop. */
  predicate ForcesLoop(t: SourceType)
  {
    t == Music || t == Ambient
  }

  /** The integer and flag settings ConfigureAudioSource writes. */
  datatype SourceSettings = SourceSettings(priority: int, loop: bool, forced2D: bool)

  /** ConfigureAudioSource: the configured default loop flag, overridden to
      true for looping types, the type's priority, and a forced 2D blend for
      interface sounds. */
  function Configure(t: SourceType, defaultLoop: bool): (r: SourceSettings)
    ensures r.priority == Priority(t)
    ensures r.loop <==> defaultLoop || ForcesLoop(t)
    ensures r.forced2D <==> t == UI
    ensures 0 <= r.priority < |AllTypes|
  {
    SourceSettings(Priority(t), if ForcesLoop(t) then true else defaultLoop, t == UI)
  }

  /** Distinct types get distinct priorities, ordered Music, Voice, UI,
      Effect, Ambient. */
  lemma PriorityRanks(a: SourceType, b: SourceType)
    ensures Priority(a) == Priority(b) <==> a == b
    ensures Priority(Music) < Priority(Voice) < Priority(UI) < Priority(Effect) < Priority(Ambient)
  {
  }

  /** The integer and flag part of AudioPoolConfig. */
  datatype AudioPoolConfig = AudioPoolConfig(defaultPoolSize: int, maxSourcesPerType: int, autoExpand: bool, defaultLoop: bool)

  /** The field defaults of AudioPoolConfig. */
  const DefaultConfig := AudioPoolConfig(10, 50, true, false)

  class AudioSrc {
    const kind: SourceType
    /** The creation count at creation, the number in the object's name. */
    const serial: int
    /** The settings ConfigureAudioSource gave the source at creation. */
    const settings: SourceSettings
    /** The current loop flag: the configured one at creation, reset to the
        configured default whenever the source is returned. */
    var loop: bool

    constructor (kind: SourceType, serial: int, settings: SourceSettings)
      ensures this.kind == kind && this.serial == serial && this.settings == settings
      ensures loop == settings.loop
    {
      this.kind := kind;
      this.serial := serial;
      this.settings := settings;
      loop := settings.loop;
    }
  }

  /** The bookkeeping of one source type. */
  datatype TypePool = TypePool(idle: seq<AudioSrc>, used: set<AudioSrc>, count: int)

  /** The bookkeeping of a type with no sources. */
  const EmptyPool := TypePool([], {}, 0)

  /** What GetPoolInfo reports for one type. */
  datatype AudioPoolTypeInfo = AudioPoolTypeInfo(sourceType: SourceType, idleCount: int, usedCount: int, totalCount: int)

  function InfoOf(t: SourceType, p: TypePool): (r: AudioPoolTypeInfo)
    ensures r.sourceType == t && r.idleCount == |p.idle| && r.usedCount == |p.used| && r.totalCount == p.count
  {
    AudioPoolTypeInfo(t, |p.idle|, |p.used|, p.count)
  }

  /** Every source the type's bookkeeping knows of. */
  function Objects(p: TypePool): set<AudioSrc>
  {
    (set s | s in p.idle) + p.used
  }

  /** The count is the number of distinct sources held. */
  predicate Tallied(p: TypePool)
  {
    |Objects(p)| == p.count
  }

  /** Every source held is of type `t` and carries the settings of `t`. */
  predicate OfType(p: TypePool, t: SourceType, defaultLoop: bool)
  {
    && (forall i :: 0 <= i < |p.idle| ==> p.idle[i].kind == t && p.idle[i].settings == Configure(t, defaultLoop))
    && (forall s :: s in p.used ==> s.kind == t && s.settings == Configure(t, defaultLoop))
  }

  /** Every idle source has the loop flag ConfigureAudioSource gives type
      `t`. */
  ghost predicate IdleLoops(p: TypePool, t: SourceType, defaultLoop: bool)
    reads p.idle
  {
    forall i :: 0 <= i < |p.idle| ==> p.idle[i].loop == Configure(t, defaultLoop).loop
  }

  /** Queuing a source with the type's loop flag keeps IdleLoops. */
  lemma IdleLoopsSnoc(p: TypePool, src: AudioSrc, t: SourceType, defaultLoop: bool)
    requires IdleLoops(p, t, defaultLoop) && src.loop == Configure(t, defaultLoop).loop
    ensures IdleLoops(p.(idle := p.idle + [src], count := p.count + 1), t, defaultLoop)
  {
    var q := p.idle + [src];
    forall i | 0 <= i < |q|
      ensures q[i].loop == Configure(t, defaultLoop).loop
    {
      if i < |p.idle| {
        assert q[i] == p.idle[i];
      }
    }
  }

  /** No source is queued twice or queued while in use, and the count is
      the number of queued and used sources. */
  predicate Apart(p: TypePool)
  {
    && Distinct(p.idle)
    && (forall i :: 0 <= i < |p.idle| ==> p.idle[i] !in p.used)
    && |p.idle| + |p.used| == p.count
  }

  /** Creation is allowed with auto-expansion on and the count below the
      maximum. */
  predicate CanExpand(p: TypePool, autoExpand: bool, maxSources: int)
  {
    autoExpand && p.count < maxSources
  }

  /** GetSource as written, as a relation between the bookkeeping before,
      the source returned and the bookkeeping after: the front idle source
      is taken and marked used; with no idle source a source `src` is
      created if CanExpand allows, which queues it as idle, counts it and
      also marks it used; otherwise null is returned and nothing changes. */
  predicate GetStep(p: TypePool, autoExpand: bool, maxSources: int, src: AudioSrc?, p': TypePool)
  {
    if p.idle != [] then
      src == p.idle[0] && p' == p.(idle := p.idle[1..], used := p.used + {p.idle[0]})
    else if CanExpand(p, autoExpand, maxSources) then
      src != null && p' == TypePool(p.idle + [src], p.used + {src}, p.count + 1)
    else
      src == null && p' == p
  }

  /** ReturnSource: a used source moves to the back of the idle queue;
      null or a source not in use changes nothing. */
  function Returned(p: TypePool, s: AudioSrc?): (r: TypePool)
    ensures r.count == p.count
    ensures s == null || s !in p.used ==> r == p
    ensures s != null && s in p.used ==> |r.idle| == |p.idle| + 1 && r.idle[|p.idle|] == s && s !in r.used
    ensures r.used <= p.used && r.idle[..|p.idle|] == p.idle
  {
    if s != null && s in p.used then p.(idle := p.idle + [s], used := p.used - {s}) else p
  }

  /** Adding a new source to the queue adds one to the held sources. */
  lemma AddNewObject(p: TypePool, src: AudioSrc, used: set<AudioSrc>)
    requires src !in Objects(p) && (used == p.used || used == p.used + {src})
    ensures Objects(TypePool(p.idle + [src], used, p.count + 1)) == Objects(p) + {src}
    ensures |Objects(p) + {src}| == |Objects(p)| + 1
  {
    var q := p.idle + [src];
    assert (set s | s in q) == (set s | s in p.idle) + {src};
  }

  /** GetSource as written keeps the count equal to the number of distinct
      sources held, provided a created source is new. */
  lemma GetStepTallied(p: TypePool, autoExpand: bool, maxSources: int, src: AudioSrc?, p': TypePool)
    requires Tallied(p) && GetStep(p, autoExpand, maxSources, src, p')
    requires p.idle == [] && src != null ==> src !in Objects(p)
    ensures Tallied(p')
  {
    if p.idle != [] {
      var q := p.idle;
      assert q == [q[0]] + q[1..];
      assert (set s | s in q) == {q[0]} + (set s | s in q[1..]);
      assert Objects(p') == Objects(p);
    } else if CanExpand(p, autoExpand, maxSources) {
      AddNewObject(p, src, p.used + {src});
    }
  }

  /** Returning keeps the sources held and so the tally. */
  lemma ReturnedTallied(p: TypePool, s: AudioSrc?)
    requires Tallied(p)
    ensures Tallied(Returned(p, s))
  {
    if s != null && s in p.used {
      var q := p.idle + [s];
      assert (set x | x in q) == (set x | x in p.idle) + {s};
      assert Objects(Returned(p, s)) == Objects(p);
    }
  }

  /** A sequence has at least as many entries as distinct elements. */
  lemma {:induction false} SetOfSeqBound(q: seq<AudioSrc>)
    ensures |set s | s in q| <= |q|
    decreases |q|
  {
    if q != [] {
      SetOfSeqBound(q[1..]);
      assert q == [q[0]] + q[1..];
      assert (set s | s in q) == {q[0]} + (set s | s in q[1..]);
    }
  }

  /** The total GetPoolInfo reports never exceeds the idle and used counts
      together; it falls short exactly when a source is queued and used at
      once or queued twice. */
  lemma TotalAtMostIdlePlusUsed(p: TypePool)
    requires Tallied(p)
    ensures p.count <= |p.idle| + |p.used|
  {
    SetOfSeqBound(p.idle);
  }

  /** GetSource never creates a source once the count has reached the
      maximum: it then only hands out an idle source or returns null. */
  lemma GetRespectsMax(p: TypePool, autoExpand: bool, maxSources: int, src: AudioSrc?, p': TypePool)
    requires GetStep(p, autoExpand, maxSources, src, p')
    ensures p'.count == p.count || (p.count < maxSources && p'.count == p.count + 1 && p.idle == [])
    ensures p.count >= maxSources ==> p'.count == p.count
    ensures p.idle == [] && !CanExpand(p, autoExpand, maxSources) ==> src == null && p' == p
  {
  }

  /** Handing out an idle source and returning it moves it to the back of
      the queue and restores the used set. */
  lemma GetThenReturnRotates(p: TypePool, autoExpand: bool, maxSources: int, src: AudioSrc?, p1: TypePool)
    requires Apart(p) && p.idle != [] && GetStep(p, autoExpand, maxSources, src, p1)
    ensures Returned(p1, src) == p.(idle := p.idle[1..] + [p.idle[0]])
  {
    assert p1.used - {p.idle[0]} == p.used;
  }

  /** The defect of GetSource as written: a source it creates stays in the
      idle queue, so the next GetSource of that type hands the same source
      out again while it is still in use. */
  lemma ExpandedSourceHandedOutTwice(p: TypePool, autoExpand: bool, maxSources: int,
                                     src1: AudioSrc?, p1: TypePool, src2: AudioSrc?, p2: TypePool)
    requires p.idle == [] && CanExpand(p, autoExpand, maxSources)
    requires GetStep(p, autoExpand, maxSources, src1, p1) && GetStep(p1, autoExpand, maxSources, src2, p2)
    ensures src1 != null && src2 == src1 && src1 in p1.used
    ensures !Apart(p1)
  {
    assert p1.idle[0] == src1;
  }

  /** GetSource as evidently intended: a created source goes straight to
      the used set and is not queued as idle. */
  predicate IntendedGetStep(p: TypePool, autoExpand: bool, maxSources: int, src: AudioSrc?, p': TypePool)
  {
    if p.idle != [] then
      src == p.idle[0] && p' == p.(idle := p.idle[1..], used := p.used + {p.idle[0]})
    else if CanExpand(p, autoExpand, maxSources) then
      src != null && p' == p.(used := p.used + {src}, count := p.count + 1)
    else
      src == null && p' == p
  }

  /** The intended GetSource keeps sources apart: the source handed out is
      in use and not idle, and no source is handed out twice. */
  lemma IntendedGetKeepsApart(p: TypePool, autoExpand: bool, maxSources: int, src: AudioSrc?, p': TypePool)
    requires Apart(p) && IntendedGetStep(p, autoExpand, maxSources, src, p')
    requires p.idle == [] && src != null ==> src !in Objects(p)
    ensures Apart(p')
    ensures src != null ==> src in p'.used && src !in p'.idle && src !in p.used
  {
    if p.idle != [] {
      var q := p.idle;
      DistinctSlice(q, 1, |q|);
      forall i | 0 <= i < |p'.idle|
        ensures p'.idle[i] !in p'.used
      {
        assert p'.idle[i] == q[i + 1];
      }
    }
  }

  /** Returning keeps sources apart. */
  lemma ReturnedKeepsApart(p: TypePool, s: AudioSrc?)
    requires Apart(p)
    ensures Apart(Returned(p, s))
  {
    if s != null && s in p.used {
      var r := Returned(p, s);
      forall i, j | 0 <= i < j < |r.idle|
        ensures r.idle[i] != r.idle[j]
      {
        if j == |p.idle| {
          assert r.idle[i] == p.idle[i];
        }
      }
    }
  }

  /** The bookkeeping right after initialisation. */
  predicate Initial(p: TypePool, t: SourceType, config: AudioPoolConfig)
  {
    && p.used == {}
    && p.count == Max(0, config.defaultPoolSize)
    && |p.idle| == p.count
    && Apart(p) && Tallied(p)
    && OfType(p, t, config.defaultLoop)
  }

  /** The bookkeeping of `t` is tallied and holds only sources of type `t`
      with the settings of `t`. */
  predicate TypeValid(p: TypePool, t: SourceType, defaultLoop: bool)
  {
    Tallied(p) && OfType(p, t, defaultLoop)
  }

  /** Every type has valid bookkeeping (stated over the declaration order,
      which covers every type). */
  predicate ValidPools(m: map<SourceType, TypePool>, defaultLoop: bool)
  {
    && (forall t: SourceType :: t in m)
    && (forall k :: 0 <= k < |AllTypes| ==> TypeValid(m[AllTypes[k]], AllTypes[k], defaultLoop))
  }

  /** The validity of one type's bookkeeping, from that of the map. */
  lemma ValidAt(m: map<SourceType, TypePool>, defaultLoop: bool, t: SourceType)
    requires ValidPools(m, defaultLoop)
    ensures TypeValid(m[t], t, defaultLoop)
  {
    assert AllTypes[Ordinal(t)] == t;
  }

  /** Replacing one type's bookkeeping by a valid one keeps the map valid. */
  lemma ValidPoolsUpdate(m: map<SourceType, TypePool>, defaultLoop: bool, t: SourceType, p: TypePool)
    requires ValidPools(m, defaultLoop) && TypeValid(p, t, defaultLoop)
    ensures ValidPools(m[t := p], defaultLoop)
  {
  }

  /** GetSource as written keeps every source of the right type, provided a
      created source is. */
  lemma GetStepOfType(p: TypePool, autoExpand: bool, maxSources: int, src: AudioSrc?, p': TypePool, t: SourceType, defaultLoop: bool)
    requires OfType(p, t, defaultLoop) && GetStep(p, autoExpand, maxSources, src, p')
    requires p.idle == [] && src != null ==> src.kind == t && src.settings == Configure(t, defaultLoop)
    ensures OfType(p', t, defaultLoop)
  {
    if p.idle != [] {
      forall i | 0 <= i < |p'.idle|
        ensures p'.idle[i].kind == t && p'.idle[i].settings == Configure(t, defaultLoop)
      {
        assert p'.idle[i] == p.idle[i + 1];
      }
    }
  }

  /** Returning keeps every source of the right type. */
  lemma ReturnedOfType(p: TypePool, s: AudioSrc?, t: SourceType, defaultLoop: bool)
    requires OfType(p, t, defaultLoop)
    ensures OfType(Returned(p, s), t, defaultLoop)
  {
  }

  /** Two map facts the frame proofs need. */
  lemma SameUpdate(m: map<SourceType, TypePool>, t: SourceType)
    requires t in m
    ensures m[t := m[t]] == m
  {
  }

  lemma UpdateTwice(m: map<SourceType, TypePool>, t: SourceType, a: TypePool, b: TypePool)
    ensures m[t := a][t := b] == m[t := b]
  {
  }

  /** A map of empty bookkeeping for every type is valid. */
  lemma EmptyValid(m: map<SourceType, TypePool>, defaultLoop: bool)
    requires forall t :: t in m && m[t] == EmptyPool
    ensures ValidPools(m, defaultLoop)
  {
    assert Objects(EmptyPool) == {};
  }

  /** The bookkeeping of `t` after `i` sources were created by
      initialisation. */
  predicate Filling(p: TypePool, t: SourceType, defaultLoop: bool, i: int)
  {
    && p.used == {} && p.count == i && |p.idle| == i
    && Apart(p) && Tallied(p) && OfType(p, t, defaultLoop)
  }

  /** Queuing one more new source of type `t` continues the filling. */
  lemma FillingStep(p: TypePool, src: AudioSrc, t: SourceType, defaultLoop: bool, i: int)
    requires Filling(p, t, defaultLoop, i) && src !in p.idle
    requires src.kind == t && src.settings == Configure(t, defaultLoop)
    ensures Filling(p.(idle := p.idle + [src], count := p.count + 1), t, defaultLoop, i + 1)
  {
    AddNewObject(p, src, {});
    DistinctSnoc(p.idle, src);
    OfTypeSnoc(p, src, t, defaultLoop);
  }

  /** Queuing a source of type `t` keeps every source of type `t`. */
  lemma OfTypeSnoc(p: TypePool, src: AudioSrc, t: SourceType, defaultLoop: bool)
    requires OfType(p, t, defaultLoop) && src.kind == t && src.settings == Configure(t, defaultLoop)
    ensures OfType(p.(idle := p.idle + [src], count := p.count + 1), t, defaultLoop)
  {
    var q := p.idle + [src];
    forall i | 0 <= i < |q|
      ensures q[i].kind == t && q[i].settings == Configure(t, defaultLoop)
    {
      if i < |p.idle| {
        assert q[i] == p.idle[i];
      }
    }
  }

  /** Creating a new source of type `t` with nothing idle and marking it
      used keeps the map valid. */
  lemma ExpandValid(m: map<SourceType, TypePool>, defaultLoop: bool, t: SourceType, src: AudioSrc)
    requires ValidPools(m, defaultLoop) && m[t].idle == [] && src !in Objects(m[t])
    requires src.kind == t && src.settings == Configure(t, defaultLoop)
    ensures ValidPools(m[t := TypePool([src], m[t].used + {src}, m[t].count + 1)], defaultLoop)
  {
    var p := m[t];
    ValidAt(m, defaultLoop, t);
    assert p.idle + [src] == [src];
    AddNewObject(p, src, p.used + {src});
    ValidPoolsUpdate(m, defaultLoop, t, TypePool([src], p.used + {src}, p.count + 1));
  }

  /** StopAllOfType part way: the sources in `done` have been returned, in
      that order, and those in `rest` are still in use. */
  predicate StopInv(p0: TypePool, p: TypePool, rest: set<AudioSrc>, done: seq<AudioSrc>)
  {
    && p.used == rest && p.count == p0.count
    && p.idle == p0.idle + done
    && multiset(done) + multiset(rest) == multiset(p0.used)
  }

  /** Returning one more source still in use continues StopAllOfType. */
  lemma StopInvStep(p0: TypePool, p: TypePool, rest: set<AudioSrc>, done: seq<AudioSrc>, s: AudioSrc)
    requires StopInv(p0, p, rest, done) && s in rest
    ensures StopInv(p0, Returned(p, s), rest - {s}, done + [s])
  {
    assert multiset(rest - {s}) + multiset{s} == multiset(rest);
    assert p0.idle + done + [s] == p0.idle + (done + [s]);
  }

  /** Once no source is left in use, all of them follow the old queue. */
  lemma StopInvDone(p0: TypePool, p: TypePool, done: seq<AudioSrc>)
    requires StopInv(p0, p, {}, done)
    ensures p.used == {} && p.count == p0.count
    ensures |p.idle| >= |p0.idle| && p.idle[..|p0.idle|] == p0.idle
    ensures multiset(p.idle) == multiset(p0.idle) + multiset(p0.used)
  {
    assert p.idle[..|p0.idle|] == p0.idle;
  }

  class AudioSourcePool {
    const config: AudioPoolConfig
    var pools: map<SourceType, TypePool>

    ghost predicate Valid()
      reads this
    {
      ValidPools(pools, config.defaultLoop)
    }

    /** A null configuration stands for the defaults. Every type starts
        with `defaultPoolSize` idle sources (none when it is negative). */
    constructor (cfg: Option<AudioPoolConfig>)
      ensures config == if cfg.Some? then cfg.value else DefaultConfig
      ensures Valid()
      ensures forall t :: t in pools && Initial(pools[t], t, config)
      ensures forall t :: IdleLoops(pools[t], t, config.defaultLoop)
    {
      config := if cfg.Some? then cfg.value else DefaultConfig;
      pools := map[];
      new;
      InitializePools();
    }

    /** Initialises the types in declaration order. */
    method InitializePools()
      modifies this
      ensures Valid()
      ensures forall t :: t in pools && Initial(pools[t], t, config)
      ensures forall t :: IdleLoops(pools[t], t, config.defaultLoop)
    {
      for k := 0 to |AllTypes|
        invariant forall t :: Ordinal(t) < k ==> t in pools && Initial(pools[t], t, config)
        invariant forall t :: Ordinal(t) < k ==> IdleLoops(pools[t], t, config.defaultLoop)
      {
        InitNextType(k);
      }
    }

    /** Initialises the type at position `k`, keeping the types before it
        initialised. */
    method InitNextType(k: nat)
      requires k < |AllTypes|
      requires forall t :: Ordinal(t) < k ==> t in pools && Initial(pools[t], t, config)
      requires forall t :: Ordinal(t) < k ==> IdleLoops(pools[t], t, config.defaultLoop)
      modifies this
      ensures forall t :: Ordinal(t) <= k ==> t in pools && Initial(pools[t], t, config)
      ensures forall t :: Ordinal(t) <= k ==> IdleLoops(pools[t], t, config.defaultLoop)
    {
      OrdinalInverse(k);
      InitType(AllTypes[k]);
    }

    /** Empty bookkeeping for `t`, then `defaultPoolSize` new sources. */
    method InitType(t: SourceType)
      modifies this
      ensures t in pools && pools == old(pools)[t := pools[t]]
      ensures Initial(pools[t], t, config)
      ensures IdleLoops(pools[t], t, config.defaultLoop)
    {
      pools := pools[t := EmptyPool];
      var i := 0;
      while i < config.defaultPoolSize
        invariant t in pools && pools == old(pools)[t := pools[t]]
        invariant 0 <= i <= Max(0, config.defaultPoolSize)
        invariant Filling(pools[t], t, config.defaultLoop, i)
        invariant IdleLoops(pools[t], t, config.defaultLoop)
      {
        ghost var p := pools[t];
        AddInitialSource(t, i);
        UpdateTwice(old(pools), t, p, pools[t]);
        i := i + 1;
      }
    }

    /** One step of InitType: the `i`-th new source of `t` is queued. */
    method AddInitialSource(t: SourceType, i: int)
      requires t in pools && Filling(pools[t], t, config.defaultLoop, i)
      requires IdleLoops(pools[t], t, config.defaultLoop)
      modifies this
      ensures t in pools && pools == old(pools)[t := pools[t]]
      ensures Filling(pools[t], t, config.defaultLoop, i + 1)
      ensures IdleLoops(pools[t], t, config.defaultLoop)
    {
      ghost var p := pools[t];
      var src := CreateNewSource(t);
      IdleLoopsSnoc(p, src, t, config.defaultLoop);
      FillingStep(p, src, t, config.defaultLoop, i);
    }

    /** A new source of type `t`, configured, queued as idle and counted. */
    method CreateNewSource(t: SourceType) returns (src: AudioSrc)
      requires t in pools
      modifies this
      ensures fresh(src)
      ensures src.kind == t && src.serial == old(pools[t].count) && src.settings == Configure(t, config.defaultLoop)
      ensures src.loop == src.settings.loop
      ensures pools == old(pools)[t := old(pools[t]).(idle := old(pools[t].idle) + [src], count := old(pools[t].count) + 1)]
    {
      var p := pools[t];
      src := new AudioSrc(t, p.count, Configure(t, config.defaultLoop));
      pools := pools[t := p.(idle := p.idle + [src], count := p.count + 1)];
    }

    /** Hands out a source of type `t` as GetStep describes; a source
        created here is new. */
    method GetSource(t: SourceType) returns (src: AudioSrc?)
      requires Valid()
      modifies this
      ensures Valid()
      ensures pools == old(pools)[t := pools[t]]
      ensures GetStep(old(pools[t]), config.autoExpand, config.maxSourcesPerType, src, pools[t])
      ensures old(pools[t].idle) == [] && src != null ==>
        && fresh(src) && src.kind == t && src.serial == old(pools[t].count)
        && src.settings == Configure(t, config.defaultLoop) && src.loop == src.settings.loop
    {
      if |pools[t].idle| > 0 {
        src := TakeIdle(t);
      } else if config.autoExpand && pools[t].count < config.maxSourcesPerType {
        src := ExpandUsed(t);
      } else {
        src := null;
      }
    }

    /** The front idle source of `t`, moved to the used set. */
    method TakeIdle(t: SourceType) returns (src: AudioSrc)
      requires Valid() && pools[t].idle != []
      modifies this
      ensures Valid()
      ensures src == old(pools[t].idle[0])
      ensures pools == old(pools)[t := old(pools[t]).(idle := old(pools[t].idle[1..]), used := old(pools[t].used) + {src})]
    {
      var p := pools[t];
      ValidAt(pools, config.defaultLoop, t);
      src := p.idle[0];
      var p' := p.(idle := p.idle[1..], used := p.used + {src});
      GetStepTallied(p, config.autoExpand, config.maxSourcesPerType, src, p');
      GetStepOfType(p, config.autoExpand, config.maxSourcesPerType, src, p', t, config.defaultLoop);
      ValidPoolsUpdate(pools, config.defaultLoop, t, p');
      pools := pools[t := p'];
    }

    /** A new source of `t`, created as CreateNewSource does (queued as
        idle and counted) and then also marked used. */
    method ExpandUsed(t: SourceType) returns (src: AudioSrc)
      requires Valid() && pools[t].idle == [] && CanExpand(pools[t], config.autoExpand, config.maxSourcesPerType)
      modifies this
      ensures Valid()
      ensures fresh(src) && src.kind == t && src.serial == old(pools[t].count)
      ensures src.settings == Configure(t, config.defaultLoop) && src.loop == src.settings.loop
      ensures pools == old(pools)[t := TypePool([src], old(pools[t].used) + {src}, old(pools[t].count) + 1)]
    {
      var p := pools[t];
      src := CreateNewSource(t);
      ExpandValid(old(pools), config.defaultLoop, t, src);
      UpdateTwice(old(pools), t, pools[t], TypePool([src], p.used + {src}, p.count + 1));
      pools := pools[t := TypePool([src], p.used + {src}, p.count + 1)];
    }

    /** Takes a used source of type `t` back to the idle queue, its loop
        flag reset to the configured default; null or a source that is not
        in use is ignored. */
    method ReturnSource(source: AudioSrc?, t: SourceType)
      requires Valid()
      modifies this, source
      ensures Valid()
      ensures pools == old(pools)[t := Returned(old(pools[t]), source)]
      ensures source != null && source in old(pools[t].used) ==> source.loop == config.defaultLoop
      ensures source != null && source !in old(pools[t].used) ==> unchanged(source)
    {
      var p := pools[t];
      ValidAt(pools, config.defaultLoop, t);
      if source == null || source !in p.used {
        SameUpdate(pools, t);
        return;
      }
      source.loop := config.defaultLoop;
      var p' := p.(idle := p.idle + [source], used := p.used - {source});
      ReturnedTallied(p, source);
      ReturnedOfType(p, source, t, config.defaultLoop);
      ValidPoolsUpdate(pools, config.defaultLoop, t, p');
      pools := pools[t := p'];
    }

    /** Returns every source of type `t` in use, in an unspecified order:
        the used set becomes empty and those sources follow the old idle
        queue, each with its loop flag reset. */
    method StopAllOfType(t: SourceType)
      requires Valid()
      modifies this, pools[t].used
      ensures Valid()
      ensures pools == old(pools)[t := pools[t]]
      ensures pools[t].used == {} && pools[t].count == old(pools[t].count)
      ensures |pools[t].idle| >= |old(pools[t].idle)| && pools[t].idle[..|old(pools[t].idle)|] == old(pools[t].idle)
      ensures multiset(pools[t].idle) == multiset(old(pools[t].idle)) + multiset(old(pools[t].used))
      ensures forall s :: s in old(pools[t].used) ==> s.loop == config.defaultLoop
    {
      var rest := pools[t].used;
      ghost var done: seq<AudioSrc> := [];
      while rest != {}
        invariant Valid()
        invariant t in pools && pools == old(pools)[t := pools[t]]
        invariant StopInv(old(pools[t]), pools[t], rest, done)
        invariant rest <= old(pools[t].used)
        invariant forall s :: s in old(pools[t].used) && s !in rest ==> s.loop == config.defaultLoop
        decreases rest
      {
        var s :| s in rest;
        ghost var p := pools[t];
        ReturnSource(s, t);
        StopInvStep(old(pools[t]), p, rest, done, s);
        UpdateTwice(old(pools), t, p, pools[t]);
        rest := rest - {s};
        done := done + [s];
      }
      StopInvDone(old(pools[t]), pools[t], done);
    }

    /** Empties every type: idle and used sources are released and the
        counts reset to 0. */
    method ClearPool()
      requires Valid()
      modifies this
      ensures forall t :: t in pools && pools[t] == EmptyPool
      ensures Valid()
    {
      for k := 0 to |AllTypes|
        invariant forall t: SourceType :: t in pools
        invariant forall t :: Ordinal(t) < k ==> pools[t] == EmptyPool
      {
        OrdinalInverse(k);
        ClearType(AllTypes[k]);
      }
      EmptyValid(pools, config.defaultLoop);
    }

    /** Dequeues every idle source of `t`, then clears the used set and
        the count. */
    method ClearType(t: SourceType)
      requires t in pools
      modifies this
      ensures pools == old(pools)[t := EmptyPool]
    {
      while |pools[t].idle| > 0
        invariant t in pools && pools == old(pools)[t := pools[t]]
        decreases |pools[t].idle|
      {
        var p := pools[t];
        pools := pools[t := p.(idle := p.idle[1..])];
      }
      pools := pools[t := EmptyPool];
    }

    /** One report per type, in declaration order. */
    method GetPoolInfo() returns (infos: seq<AudioPoolTypeInfo>)
      requires Valid()
      ensures |infos| == |AllTypes|
      ensures forall i :: 0 <= i < |infos| ==> infos[i] == InfoOf(AllTypes[i], pools[AllTypes[i]])
      ensures forall i :: 0 <= i < |infos| ==> infos[i].totalCount <= infos[i].idleCount + infos[i].usedCount
    {
      infos := [];
      for k := 0 to |AllTypes|
        invariant |infos| == k
        invariant forall i :: 0 <= i < k ==> infos[i] == InfoOf(AllTypes[i], pools[AllTypes[i]])
      {
        var t := AllTypes[k];
        infos := infos + [InfoOf(t, pools[t])];
      }
      forall i | 0 <= i < |infos|
        ensures infos[i].totalCount <= infos[i].idleCount + infos[i].usedCount
      {
        TotalAtMostIdlePlusUsed(pools[AllTypes[i]]);
      }
    }
  }
}
