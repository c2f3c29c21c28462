/** The manager of GameObject pools: one pool per prefab, created on first
    use from the configuration stored for that prefab, if any. */
module GOPoolManagers {
  import opened Common
  import opened GOPoolConfigs
  import opened GOPools

  /** The prefabs of a sequence of statistics records. */
  function InfoPrefabs(infos: seq<GameObjectPoolInfo>): set<Prefab>
  {
    set i | 0 <= i < |infos| :: infos[i].prefab
  }

  lemma InfoPrefabsSnoc(infos: seq<GameObjectPoolInfo>, info: GameObjectPoolInfo)
    ensures InfoPrefabs(infos + [info]) == InfoPrefabs(infos) + {info.prefab}
  {
    var s := infos + [info];
    forall x | x in InfoPrefabs(s)
      ensures x in InfoPrefabs(infos) + {info.prefab}
    {
      var i :| 0 <= i < |s| && s[i].prefab == x;
      if i < |infos| {
        assert infos[i].prefab == x;
      }
    }
    forall x | x in InfoPrefabs(infos)
      ensures x in InfoPrefabs(s)
    {
      var i :| 0 <= i < |infos| && infos[i].prefab == x;
      assert s[i] == infos[i];
    }
    assert s[|infos|] == info;
  }

  /** The pool states while ClearAllPools runs: the pools still in `keys`
      as they were, the others cleared. */
  function ClearPlan(s0: map<Prefab, PoolState>, keys: set<Prefab>): map<Prefab, PoolState>
  {
    map p | p in s0 :: if p in keys then s0[p] else AfterClear(s0[p])
  }

  lemma ClearPlanStep(s0: map<Prefab, PoolState>, keys: set<Prefab>, k: Prefab)
    requires k in keys && keys <= s0.Keys
    ensures ClearPlan(s0, keys)[k := AfterClear(s0[k])] == ClearPlan(s0, keys - {k})
  {
  }

  class GameObjectPoolManager {
    var pools: map<Prefab, GameObjectPool>
    var poolConfigs: map<Prefab, GameObjectPoolConfig?>

    /** Every pool is registered under its own prefab and keeps its
        invariant. */
    ghost predicate Valid()
      reads this, pools.Values
    {
      forall p :: p in pools ==> pools[p].prefab == p && pools[p].Valid()
    }

    constructor ()
      ensures Valid() && pools == map[] && poolConfigs == map[]
    {
      pools := map[];
      poolConfigs := map[];
    }

    /** The state of the pool of a prefab: the pool's own if it exists,
        else that of a new pool. */
    ghost function PoolOf(prefab: Prefab): PoolState
      reads this, pools.Values
    {
      if prefab in pools then pools[prefab].Snap() else PoolState([], {}, 0, 0, 0)
    }

    /** The configuration object stored for a prefab, as a frame. */
    function ConfigFor(prefab: Prefab?): set<GameObjectPoolConfig>
      reads this
    {
      if prefab != null && prefab in poolConfigs && poolConfigs[prefab] != null then {poolConfigs[prefab]} else {}
    }

    /** The pool of a prefab. An existing pool is returned as it is. A new
        one is built from the stored configuration, which is validated
        first (a stored null configuration fails), or from the defaults
        when none is stored. */
    method GetOrCreatePool(prefab: Prefab) returns (r: Result<GameObjectPool>)
      requires Valid()
      modifies this, ConfigFor(prefab)
      ensures Valid() && poolConfigs == old(poolConfigs)
      ensures prefab in old(pools) ==>
        r == Ok(old(pools)[prefab]) && pools == old(pools) && unchanged(ConfigFor(prefab))
      ensures prefab !in old(pools) && prefab in poolConfigs && poolConfigs[prefab] == null ==>
        r == Err(NullReference) && pools == old(pools)
      ensures prefab !in old(pools) && prefab in poolConfigs && poolConfigs[prefab] != null ==>
        var c := poolConfigs[prefab];
        && c.Values() == Validate(old(c.Values())) && c.autoExpand == old(c.autoExpand)
        && r.Ok? && r.value.maxSize == c.maxSize && r.value.autoExpand == c.autoExpand
        && r.value.poolName == c.GetPoolName()
      ensures prefab !in old(pools) && prefab !in poolConfigs ==>
        r.Ok? && r.value.maxSize == 100 && r.value.autoExpand && r.value.poolName == prefab.name
      ensures r.Ok? && prefab !in old(pools) ==>
        fresh(r.value) && pools == old(pools)[prefab := r.value] && r.value.Snap() == PoolState([], {}, 0, 0, 0)
      ensures r.Ok? ==> prefab in pools && pools[prefab] == r.value
      ensures forall p :: p in old(pools) ==> p in pools && pools[p] == old(pools)[p] && pools[p].Snap() == old(pools[p].Snap())
    {
      if prefab in pools {
        return Ok(pools[prefab]);
      }
      var config: GameObjectPoolConfig? := null;
      if prefab in poolConfigs {
        config := poolConfigs[prefab];
        if config == null {
          return Err(NullReference);
        }
        config.ValidateConfig();
      }
      r := NewPool(prefab, config);
      Register(prefab, r.value);
    }

    /** Adds a new pool under its own prefab. */
    method Register(prefab: Prefab, pool: GameObjectPool)
      requires Valid() && prefab !in pools && pool.prefab == prefab && pool.Valid()
      modifies this
      ensures Valid() && pools == old(pools)[prefab := pool] && poolConfigs == old(poolConfigs)
    {
      pools := pools[prefab := pool];
      forall p | p in pools
        ensures pools[p].prefab == p && pools[p].Valid()
      {
        if p != prefab {
          assert pools[p] == old(pools)[p];
        }
      }
    }

    /** After an operation on the pool of `prefab` alone, the other pools
        are as they were and the manager keeps its invariant. */
    twostate lemma OnlyPoolChanged(prefab: Prefab)
      requires old(Valid()) && pools == old(pools) && prefab in pools && pools[prefab].Valid()
      requires forall p :: p in pools && p != prefab ==> unchanged(pools[p])
      ensures Valid()
      ensures forall p :: p in pools && p != prefab ==> pools[p].Snap() == old(pools[p].Snap())
    {
    }

    /** Get: a null prefab gives null; otherwise the instance comes from
        the prefab's pool, created first if needed. */
    method Get(prefab: Prefab?) returns (r: Result<GameObj?>)
      requires Valid()
      modifies this, pools.Values, ConfigFor(prefab)
      ensures Valid() && poolConfigs == old(poolConfigs)
      ensures prefab == null ==> r == Ok(null) && pools == old(pools)
      ensures r.Err? ==> r == Err(NullReference) && pools == old(pools)
      ensures prefab != null ==>
        (r.Err? <==> prefab !in old(pools) && prefab in poolConfigs && poolConfigs[prefab] == null)
      ensures prefab != null && r.Ok? ==>
        && prefab in pools && (prefab in old(pools) ==> pools == old(pools))
        && GetStep(old(PoolOf(prefab)),
                   pools[prefab].maxSize, pools[prefab].autoExpand, r.value, pools[prefab].Snap())
      ensures prefab != null && r.Ok? && old(PoolOf(prefab)).available == [] && r.value != null ==>
        fresh(r.value) && r.value.prefab == prefab && r.value.serial == old(PoolOf(prefab)).created
      ensures prefab != null && prefab in old(pools) ==> unchanged(ConfigFor(prefab))
      ensures prefab != null && prefab !in old(pools) && prefab in poolConfigs && poolConfigs[prefab] != null ==>
        var c := poolConfigs[prefab];
        && c.Values() == Validate(old(c.Values())) && c.autoExpand == old(c.autoExpand)
        && r.Ok? && prefab in pools && pools[prefab].maxSize == c.maxSize
        && pools[prefab].autoExpand == c.autoExpand && pools[prefab].poolName == c.GetPoolName()
      ensures prefab != null && prefab !in old(pools) && prefab !in poolConfigs ==>
        && r.Ok? && prefab in pools && pools[prefab].maxSize == 100 && pools[prefab].autoExpand
        && pools[prefab].poolName == prefab.name
      ensures prefab != null && r.Ok? && prefab !in old(pools) ==>
        prefab in pools && fresh(pools[prefab]) && pools == old(pools)[prefab := pools[prefab]]
      ensures forall p :: p in old(pools) && p != prefab ==> p in pools && pools[p].Snap() == old(pools[p].Snap())
    {
      if prefab == null {
        return Ok(null);
      }
      var pool := GetOrCreatePool(prefab);
      if pool.Err? {
        return Err(pool.error);
      }
      var obj := GetAt(prefab);
      r := Ok(obj);
    }

    /** Get on the registered pool of `prefab`. */
    method GetAt(prefab: Prefab) returns (obj: GameObj?)
      requires Valid() && prefab in pools
      modifies pools[prefab]
      ensures Valid() && pools == old(pools)
      ensures GetStep(old(pools[prefab].Snap()), pools[prefab].maxSize, pools[prefab].autoExpand, obj, pools[prefab].Snap())
      ensures old(pools[prefab].available) == [] && obj != null ==>
        fresh(obj) && obj.prefab == prefab && obj.serial == old(pools[prefab].totalCreated)
      ensures forall p :: p in pools && p != prefab ==> pools[p].Snap() == old(pools[p].Snap())
    {
      obj := pools[prefab].Get();
      OnlyPoolChanged(prefab);
    }

    /** Return: refused for a null argument or a prefab without a pool;
        otherwise the pool's answer. No pool is created. */
    method Return(prefab: Prefab?, obj: GameObj?) returns (ok: bool)
      requires Valid()
      modifies pools.Values
      ensures Valid()
      ensures prefab == null || obj == null || prefab !in pools ==>
        !ok && forall p :: p in pools ==> pools[p].Snap() == old(pools[p].Snap())
      ensures prefab != null && obj != null && prefab in pools ==>
        ReturnStep(old(pools[prefab].Snap()), obj, ok, pools[prefab].Snap())
      ensures forall p :: p in pools && p != prefab ==> pools[p].Snap() == old(pools[p].Snap())
    {
      if prefab == null || obj == null {
        return false;
      }
      if prefab !in pools {
        return false;
      }
      ok := ReturnAt(prefab, obj);
    }

    /** Return on the registered pool of `prefab`. */
    method ReturnAt(prefab: Prefab, obj: GameObj?) returns (ok: bool)
      requires Valid() && prefab in pools
      modifies pools[prefab]
      ensures Valid() && pools == old(pools)
      ensures ReturnStep(old(pools[prefab].Snap()), obj, ok, pools[prefab].Snap())
      ensures forall p :: p in pools && p != prefab ==> pools[p].Snap() == old(pools[p].Snap())
    {
      ok := pools[prefab].Return(obj);
      OnlyPoolChanged(prefab);
    }

    /** Prewarm: a null prefab is ignored; otherwise the prefab's pool,
        created first if needed, is prewarmed. */
    method Prewarm(prefab: Prefab?, count: int) returns (r: Outcome)
      requires Valid()
      modifies this, pools.Values, ConfigFor(prefab)
      ensures Valid() && poolConfigs == old(poolConfigs)
      ensures prefab == null ==> r == Pass && pools == old(pools)
      ensures r.Fail? ==> r == Fail(NullReference) && pools == old(pools)
      ensures prefab != null ==>
        (r.Fail? <==> prefab !in old(pools) && prefab in poolConfigs && poolConfigs[prefab] == null)
      ensures prefab != null && r.Pass? ==> prefab in pools && (prefab in old(pools) ==> pools == old(pools))
      ensures prefab != null && r.Pass? && prefab in pools ==>
        var s := old(PoolOf(prefab));
        var k := PrewarmCount(pools[prefab].maxSize, count);
        && |pools[prefab].available| == |s.available| + k
        && pools[prefab].available[..|s.available|] == s.available
        && pools[prefab].Snap() == s.(available := pools[prefab].available, created := s.created + k)
        && forall j :: |s.available| <= j < |pools[prefab].available| ==>
             var g := pools[prefab].available[j];
             g != null && fresh(g) && g.prefab == prefab && g.serial == s.created + j - |s.available|
      ensures prefab != null && prefab in old(pools) ==> unchanged(ConfigFor(prefab))
      ensures prefab != null && prefab !in old(pools) && prefab in poolConfigs && poolConfigs[prefab] != null ==>
        var c := poolConfigs[prefab];
        && c.Values() == Validate(old(c.Values())) && c.autoExpand == old(c.autoExpand)
        && r.Pass? && prefab in pools && pools[prefab].maxSize == c.maxSize
        && pools[prefab].autoExpand == c.autoExpand && pools[prefab].poolName == c.GetPoolName()
      ensures prefab != null && prefab !in old(pools) && prefab !in poolConfigs ==>
        && r.Pass? && prefab in pools && pools[prefab].maxSize == 100 && pools[prefab].autoExpand
        && pools[prefab].poolName == prefab.name
      ensures prefab != null && r.Pass? && prefab !in old(pools) ==>
        prefab in pools && fresh(pools[prefab]) && pools == old(pools)[prefab := pools[prefab]]
      ensures forall p :: p in old(pools) && p != prefab ==> p in pools && pools[p].Snap() == old(pools[p].Snap())
    {
      if prefab == null {
        return Pass;
      }
      var pool := GetOrCreatePool(prefab);
      if pool.Err? {
        return Fail(pool.error);
      }
      PrewarmAt(prefab, count);
      r := Pass;
    }

    /** Prewarm on the registered pool of `prefab`. */
    method PrewarmAt(prefab: Prefab, count: int)
      requires Valid() && prefab in pools
      modifies pools[prefab]
      ensures Valid() && pools == old(pools)
      ensures var k := PrewarmCount(pools[prefab].maxSize, count);
        && |pools[prefab].available| == |old(pools[prefab].available)| + k
        && pools[prefab].available[..|old(pools[prefab].available)|] == old(pools[prefab].available)
        && pools[prefab].Snap() == old(pools[prefab].Snap()).(available := pools[prefab].available,
                                                            created := old(pools[prefab].totalCreated) + k)
        && forall j :: |old(pools[prefab].available)| <= j < |pools[prefab].available| ==>
             var g := pools[prefab].available[j];
             g != null && fresh(g) && g.prefab == prefab &&
             g.serial == old(pools[prefab].totalCreated) + j - |old(pools[prefab].available)|
      ensures forall p :: p in pools && p != prefab ==> pools[p].Snap() == old(pools[p].Snap())
    {
      pools[prefab].Prewarm(count);
      OnlyPoolChanged(prefab);
    }

    /** Stores a configuration for later pool creation; an existing pool is
        not affected. A null prefab is ignored. */
    method SetPoolConfig(prefab: Prefab?, config: GameObjectPoolConfig?)
      requires Valid()
      modifies this
      ensures Valid() && pools == old(pools)
      ensures prefab == null ==> poolConfigs == old(poolConfigs)
      ensures prefab != null ==> poolConfigs == old(poolConfigs)[prefab := config]
    {
      if prefab == null {
        return;
      }
      poolConfigs := poolConfigs[prefab := config];
    }

    /** Clears and forgets the pool of one prefab together with its stored
        configuration; an unknown prefab is ignored. */
    method DestroyPool(prefab: Prefab?)
      requires Valid()
      modifies this, pools.Values
      ensures Valid()
      ensures prefab == null || prefab !in old(pools) ==>
        pools == old(pools) && poolConfigs == old(poolConfigs)
      ensures prefab != null && prefab in old(pools) ==>
        && pools == old(pools) - {prefab} && poolConfigs == old(poolConfigs) - {prefab}
        && old(pools)[prefab].Snap() == AfterClear(old(pools[prefab].Snap()))
      ensures forall p :: p in old(pools) && p != prefab ==> p in pools && pools[p].Snap() == old(pools[p].Snap())
    {
      if prefab == null || prefab !in pools {
        return;
      }
      ClearAt(prefab);
      Unregister(prefab);
    }

    /** Clear on the registered pool of `prefab`. */
    method ClearAt(prefab: Prefab)
      requires Valid() && prefab in pools
      modifies pools[prefab]
      ensures Valid() && pools == old(pools)
      ensures pools[prefab].Snap() == AfterClear(old(pools[prefab].Snap()))
      ensures forall p :: p in pools && p != prefab ==> pools[p].Snap() == old(pools[p].Snap())
      ensures Snaps() == old(Snaps())[prefab := AfterClear(old(pools[prefab].Snap()))]
    {
      pools[prefab].Clear();
      OnlyPoolChanged(prefab);
    }

    /** Removes the pool and the configuration of a prefab. */
    method Unregister(prefab: Prefab)
      requires Valid()
      modifies this
      ensures Valid() && pools == old(pools) - {prefab} && poolConfigs == old(poolConfigs) - {prefab}
    {
      pools := pools - {prefab};
      poolConfigs := poolConfigs - {prefab};
      forall p | p in pools
        ensures pools[p].prefab == p && pools[p].Valid()
      {
        assert pools[p] == old(pools)[p];
      }
    }

    /** The state of every pool, by prefab. */
    ghost function Snaps(): map<Prefab, PoolState>
      reads this, pools.Values
    {
      map p | p in pools :: pools[p].Snap()
    }

    /** Clears every pool, then empties both maps. */
    method ClearAllPools()
      requires Valid()
      modifies this, pools.Values
      ensures Valid() && pools == map[] && poolConfigs == map[]
      ensures forall p :: p in old(pools) ==> old(pools)[p].Snap() == AfterClear(old(pools[p].Snap()))
    {
      ClearEach();
      pools := map[];
      poolConfigs := map[];
    }

    /** The loop of ClearAllPools: every pool is cleared, in some order. */
    method ClearEach()
      requires Valid()
      modifies pools.Values
      ensures Valid() && pools == old(pools)
      ensures forall p :: p in pools ==> pools[p].Snap() == AfterClear(old(pools[p].Snap()))
    {
      ghost var s0 := Snaps();
      var keys := pools.Keys;
      while keys != {}
        invariant keys <= pools.Keys
        invariant Valid()
        invariant Snaps() == ClearPlan(s0, keys)
        decreases keys
      {
        var k :| k in keys;
        ClearAt(k);
        ClearPlanStep(s0, keys, k);
        keys := keys - {k};
      }
      assert forall p :: p in pools ==> pools[p].Snap() == Snaps()[p];
    }

    /** The statistics of the pool of a prefab; None for a null or unknown
        prefab. */
    function GetPoolInfo(prefab: Prefab?): (r: Option<GameObjectPoolInfo>)
      reads this, pools.Values
      ensures r.Some? <==> prefab != null && prefab in pools
      ensures r.Some? ==>
        && r.value.prefab == prefab && r.value.poolName == pools[prefab].poolName
        && r.value.availableCount == |pools[prefab].available| && r.value.inUseCount == |pools[prefab].inUse|
        && r.value.totalCreated == pools[prefab].totalCreated && r.value.totalSpawned == pools[prefab].totalSpawned
        && r.value.totalReturned == pools[prefab].totalReturned
    {
      if prefab == null || prefab !in pools then None
      else Some(pools[prefab].Info().(prefab := prefab))
    }

    /** Every record is the statistics of the pool of its prefab. */
    ghost predicate Reports(infos: seq<GameObjectPoolInfo>)
      reads this, pools.Values
    {
      forall i :: 0 <= i < |infos| ==> GetPoolInfo(infos[i].prefab) == Some(infos[i])
    }

    lemma ReportsSnoc(infos: seq<GameObjectPoolInfo>, p: Prefab)
      requires Reports(infos) && p in pools
      ensures Reports(infos + [GetPoolInfo(p).value])
    {
      var s := infos + [GetPoolInfo(p).value];
      forall i | 0 <= i < |s|
        ensures GetPoolInfo(s[i].prefab) == Some(s[i])
      {
        if i < |infos| {
          assert s[i] == infos[i];
        }
      }
    }

    /** One statistics record per pool, in some order. */
    method GetAllPoolInfos() returns (infos: seq<GameObjectPoolInfo>)
      ensures |infos| == |pools|
      ensures InfoPrefabs(infos) == pools.Keys
      ensures Reports(infos)
    {
      infos := [];
      var keys := pools.Keys;
      while keys != {}
        invariant keys <= pools.Keys
        invariant |infos| + |keys| == |pools.Keys|
        invariant InfoPrefabs(infos) == pools.Keys - keys
        invariant Reports(infos)
        decreases |keys|
      {
        var k :| k in keys;
        var info := GetPoolInfo(k).value;
        InfoPrefabsSnoc(infos, info);
        ReportsSnoc(infos, k);
        infos := infos + [info];
        keys := keys - {k};
      }
    }
  }
}
