/** The pool of instances of one prefab: a FIFO queue of available
    instances, a set of instances in use and three counters. Scene objects
    are opaque tokens; a null entry of the queue stands for an instance the
    engine destroyed while it waited in the pool. */
module GOPools {
  import opened Common
  import opened GOPoolConfigs

  /** An instance of a prefab; `serial` is the creation count at the time it
      was created, which the engine call puts into its name. */
  class GameObj {
    const prefab: Prefab
    const serial: int

    constructor (prefab: Prefab, serial: int)
      ensures this.prefab == prefab && this.serial == serial
    {
      this.prefab := prefab;
      this.serial := serial;
    }
  }

  /** The fields of a pool that its operations change. */
  datatype PoolState = PoolState(available: seq<GameObj?>, inUse: set<GameObj>, created: int, spawned: int, returned: int)

  /** The statistics record of one pool. */
  datatype GameObjectPoolInfo = GameObjectPoolInfo(prefab: Prefab, poolName: string, availableCount: int,
                                                   inUseCount: int, totalCreated: int, totalSpawned: int, totalReturned: int)

  /** No live queued instance is in use, and none is queued twice. */
  predicate Consistent(s: PoolState)
  {
    && (forall i :: 0 <= i < |s.available| && s.available[i] != null ==> s.available[i] !in s.inUse)
    && (forall i, j :: 0 <= i < j < |s.available| && s.available[i] != null ==> s.available[i] != s.available[j])
  }

  /** Whether Get may create an instance: auto-expansion is on and the
      maximum is unlimited (not positive) or not yet reached. */
  predicate CanCreate(maxSize: int, autoExpand: bool, created: int)
  {
    autoExpand && (maxSize <= 0 || created < maxSize)
  }

  /** What Get does, as a relation between the state before, the instance
      returned and the state after: the front of the queue is taken when
      there is one (a destroyed entry is dropped and null returned);
      otherwise an instance `obj` is created if CanCreate allows, else
      nothing changes. Every instance handed out joins the in-use set. */
  ghost predicate GetStep(s: PoolState, maxSize: int, autoExpand: bool, obj: GameObj?, s': PoolState)
  {
    if s.available != [] then
      && obj == s.available[0]
      && (obj == null ==> s' == s.(available := s.available[1..]))
      && (obj != null ==> s' == s.(available := s.available[1..], inUse := s.inUse + {obj}, spawned := s.spawned + 1))
    else if CanCreate(maxSize, autoExpand, s.created) then
      && obj != null
      && s' == s.(inUse := s.inUse + {obj}, created := s.created + 1, spawned := s.spawned + 1)
    else
      obj == null && s' == s
  }

  /** What Return does: an instance in use moves to the back of the queue;
      anything else is refused with no change. */
  predicate ReturnStep(s: PoolState, obj: GameObj?, ok: bool, s': PoolState)
  {
    if obj != null && obj in s.inUse then
      ok && s' == s.(available := s.available + [obj], inUse := s.inUse - {obj}, returned := s.returned + 1)
    else
      !ok && s' == s
  }

  /** The number of live entries of a queue. */
  function LiveCount(q: seq<GameObj?>): (n: nat)
    ensures n <= |q|
  {
    if q == [] then 0
    else LiveCount(q[..|q| - 1]) + (if q[|q| - 1] != null then 1 else 0)
  }

  /** How many entries Shrink(targetCount) takes from the front: the excess
      of the queue over the target, a negative target counting as 0. */
  function ShrinkCount(available: nat, targetCount: int): (k: nat)
    ensures k <= available
    ensures targetCount >= available ==> k == 0
    ensures 0 <= targetCount < available ==> available - k == targetCount
    ensures targetCount < 0 ==> k == available
  {
    var target := Max(targetCount, 0);
    if available > target then available - target else 0
  }

  /** Shrink on the fields: the removed live instances no longer count as
      created. */
  function AfterShrink(s: PoolState, targetCount: int): PoolState
  {
    var k := ShrinkCount(|s.available|, targetCount);
    s.(available := s.available[k..], created := s.created - LiveCount(s.available[..k]))
  }

  /** Clear on the fields: both collections are emptied and the creation
      count restarts; the spawn and return counts are kept. */
  function AfterClear(s: PoolState): (r: PoolState)
    ensures Consistent(r)
  {
    s.(available := [], inUse := {}, created := 0)
  }

  /** How many instances Prewarm(count) creates: none for a count that is
      not positive, otherwise the count capped by a positive maximum. */
  function PrewarmCount(maxSize: int, count: int): (k: nat)
    ensures count <= 0 ==> k == 0
    ensures count > 0 && maxSize > 0 ==> k <= maxSize && k <= count && (k == count || k == maxSize)
    ensures count > 0 && maxSize <= 0 ==> k == count
  {
    if count <= 0 then 0
    else if maxSize > 0 then Min(count, maxSize)
    else count
  }

  /** Get keeps the queue and in-use set consistent. */
  lemma GetStepConsistent(s: PoolState, maxSize: int, autoExpand: bool, obj: GameObj?, s': PoolState)
    requires Consistent(s) && GetStep(s, maxSize, autoExpand, obj, s')
    requires s.available == [] && obj != null ==> obj !in s.inUse
    ensures Consistent(s')
  {
    if s.available != [] {
      var q := s.available;
      forall i | 0 <= i < |s'.available| && s'.available[i] != null
        ensures s'.available[i] !in s'.inUse
      {
        assert s'.available[i] == q[i + 1];
      }
      forall i, j | 0 <= i < j < |s'.available| && s'.available[i] != null
        ensures s'.available[i] != s'.available[j]
      {
        assert s'.available[i] == q[i + 1] && s'.available[j] == q[j + 1];
      }
    }
  }

  /** Return keeps the queue and in-use set consistent. */
  lemma ReturnStepConsistent(s: PoolState, obj: GameObj?, ok: bool, s': PoolState)
    requires Consistent(s) && ReturnStep(s, obj, ok, s')
    ensures Consistent(s')
  {
    if ok {
      var q := s.available;
      forall i, j | 0 <= i < j < |s'.available| && s'.available[i] != null
        ensures s'.available[i] != s'.available[j]
      {
        if j == |q| {
          assert s'.available[i] == q[i];
        }
      }
    }
  }

  /** With a positive maximum, Get never takes the creation count past it:
      an instance is created only below the maximum. */
  lemma GetRespectsMaxSize(s: PoolState, maxSize: int, autoExpand: bool, obj: GameObj?, s': PoolState)
    requires GetStep(s, maxSize, autoExpand, obj, s') && maxSize > 0
    ensures s'.created <= Max(s.created, maxSize)
    ensures s'.created > s.created ==> s.created < maxSize && s.available == []
  {
  }

  /** Returning an instance just handed out from an empty queue leaves it as
      the only available instance. */
  lemma GetThenReturn(s: PoolState, maxSize: int, autoExpand: bool, obj: GameObj, s1: PoolState, s2: PoolState, ok: bool)
    requires GetStep(s, maxSize, autoExpand, obj, s1) && ReturnStep(s1, obj, ok, s2)
    requires s.available == [] && obj !in s.inUse
    ensures ok && s2.available == [obj] && s2.inUse == s.inUse
    ensures s2.spawned == s.spawned + 1 && s2.returned == s.returned + 1
  {
    assert s1.inUse == s.inUse + {obj};
    assert s1.inUse - {obj} == s.inUse;
  }

  /** Shrinking to a non-negative target leaves at most that many entries,
      and shrinking again to the same target changes nothing. */
  lemma ShrinkToTarget(s: PoolState, targetCount: int)
    ensures |AfterShrink(s, targetCount).available| == Min(|s.available|, Max(targetCount, 0))
    ensures AfterShrink(AfterShrink(s, targetCount), targetCount) == AfterShrink(s, targetCount)
  {
    var r := AfterShrink(s, targetCount);
    assert ShrinkCount(|r.available|, targetCount) == 0;
    assert r.available[..0] == [];
    assert r.available[0..] == r.available;
  }

  lemma LiveCountSnoc(q: seq<GameObj?>, x: GameObj?)
    ensures LiveCount(q + [x]) == LiveCount(q) + (if x != null then 1 else 0)
  {
    assert (q + [x])[..|q|] == q;
  }

  class GameObjectPool {
    const prefab: Prefab
    const maxSize: int
    const autoExpand: bool
    const poolName: string
    var available: seq<GameObj?>
    var inUse: set<GameObj>
    var totalCreated: int
    var totalSpawned: int
    var totalReturned: int

    ghost function Snap(): PoolState
      reads this
    {
      PoolState(available, inUse, totalCreated, totalSpawned, totalReturned)
    }

    ghost predicate Valid()
      reads this
    {
      Consistent(Snap())
    }

    function Info(): GameObjectPoolInfo
      reads this
    {
      GameObjectPoolInfo(prefab, poolName, |available|, |inUse|, totalCreated, totalSpawned, totalReturned)
    }

    /** The constructor body after the null check; NewPool chooses the
        settings. */
    constructor (prefab: Prefab, maxSize: int, autoExpand: bool, poolName: string)
      ensures this.prefab == prefab && this.maxSize == maxSize
      ensures this.autoExpand == autoExpand && this.poolName == poolName
      ensures Valid() && Snap() == PoolState([], {}, 0, 0, 0)
    {
      this.prefab := prefab;
      this.maxSize := maxSize;
      this.autoExpand := autoExpand;
      this.poolName := poolName;
      available := [];
      inUse := {};
      totalCreated := 0;
      totalSpawned := 0;
      totalReturned := 0;
    }

    /** Instantiates the prefab and counts the creation. */
    method CreateNewObject() returns (obj: GameObj)
      modifies this
      ensures fresh(obj) && obj.prefab == prefab && obj.serial == old(totalCreated)
      ensures Snap() == old(Snap()).(created := old(totalCreated) + 1)
    {
      obj := new GameObj(prefab, totalCreated);
      totalCreated := totalCreated + 1;
    }

    method Get() returns (obj: GameObj?)
      requires Valid()
      modifies this
      ensures Valid()
      ensures GetStep(old(Snap()), maxSize, autoExpand, obj, Snap())
      ensures old(available) == [] && obj != null ==> fresh(obj) && obj.prefab == prefab && obj.serial == old(totalCreated)
    {
      if |available| > 0 {
        obj := available[0];
        available := available[1..];
      } else if autoExpand && (maxSize <= 0 || totalCreated < maxSize) {
        obj := CreateNewObject();
      } else {
        return null;
      }
      if obj == null {
        GetStepConsistent(old(Snap()), maxSize, autoExpand, obj, Snap());
        return;
      }
      inUse := inUse + {obj};
      totalSpawned := totalSpawned + 1;
      GetStepConsistent(old(Snap()), maxSize, autoExpand, obj, Snap());
    }

    method Return(obj: GameObj?) returns (ok: bool)
      requires Valid()
      modifies this
      ensures Valid()
      ensures ReturnStep(old(Snap()), obj, ok, Snap())
    {
      if obj == null || obj !in inUse {
        return false;
      }
      inUse := inUse - {obj};
      available := available + [obj];
      totalReturned := totalReturned + 1;
      ok := true;
      ReturnStepConsistent(old(Snap()), obj, ok, Snap());
    }

    /** Creates PrewarmCount(maxSize, count) new instances at the back of
        the queue, whatever the creation count already is. */
    method Prewarm(count: int)
      requires Valid()
      modifies this
      ensures Valid()
      ensures var k := PrewarmCount(maxSize, count);
        && |available| == |old(available)| + k
        && available[..|old(available)|] == old(available)
        && (forall j :: |old(available)| <= j < |available| ==>
              available[j] != null && fresh(available[j]) && available[j].prefab == prefab &&
              available[j].serial == old(totalCreated) + j - |old(available)|)
        && Snap() == old(Snap()).(available := available, created := old(totalCreated) + k)
    {
      if count <= 0 {
        return;
      }
      var actualCount := if maxSize > 0 then Min(count, maxSize) else count;
      var i := 0;
      while i < actualCount
        invariant 0 <= i <= actualCount
        invariant Valid()
        invariant |available| == |old(available)| + i
        invariant available[..|old(available)|] == old(available)
        invariant forall j :: |old(available)| <= j < |available| ==>
          available[j] != null && fresh(available[j]) && available[j].prefab == prefab &&
          available[j].serial == old(totalCreated) + j - |old(available)|
        invariant Snap() == old(Snap()).(available := available, created := old(totalCreated) + i)
      {
        var obj := CreateNewObject();
        Enqueue(obj);
        i := i + 1;
      }
    }

    /** One step of Prewarm: a new instance joins the back of the queue. */
    method Enqueue(obj: GameObj)
      requires Valid() && obj !in available && obj !in inUse
      modifies this
      ensures Valid()
      ensures Snap() == old(Snap()).(available := old(available) + [obj])
    {
      var q := available;
      available := available + [obj];
      forall i, j | 0 <= i < j < |available| && available[i] != null
        ensures available[i] != available[j]
      {
        if j == |q| {
          assert available[i] == q[i];
        }
      }
    }

    /** Destroys every queued instance and forgets the instances in use. */
    method Clear()
      requires Valid()
      modifies this
      ensures Valid()
      ensures Snap() == AfterClear(old(Snap()))
    {
      while |available| > 0
        invariant Snap() == old(Snap()).(available := available)
        decreases |available|
      {
        available := available[1..];
      }
      inUse := {};
      totalCreated := 0;
    }

    /** Destroys queued instances from the front until at most
        max(targetCount, 0) remain; each live one destroyed no longer counts
        as created. */
    method Shrink(targetCount: int)
      requires Valid()
      modifies this
      ensures Valid()
      ensures Snap() == AfterShrink(old(Snap()), targetCount)
    {
      var target := if targetCount < 0 then 0 else targetCount;
      var toRemove := |available| - target;
      ghost var q := available;
      ghost var k := ShrinkCount(|q|, targetCount);
      var i := 0;
      while i < toRemove && |available| > 0
        invariant 0 <= i <= k
        invariant available == q[i..]
        invariant Snap() == old(Snap()).(available := available, created := old(totalCreated) - LiveCount(q[..i]))
        decreases |available|
      {
        var obj := DestroyFront();
        LiveCountSnoc(q[..i], obj);
        assert q[..i] + [obj] == q[..i + 1];
        i := i + 1;
      }
      ShrinkKeeps(q, inUse, i);
    }

    /** One step of Shrink: the front entry is destroyed; a live one no
        longer counts as created. */
    method DestroyFront() returns (obj: GameObj?)
      requires |available| > 0
      modifies this
      ensures obj == old(available)[0]
      ensures Snap() == old(Snap()).(available := old(available)[1..],
                                     created := old(totalCreated) - (if obj != null then 1 else 0))
    {
      obj := available[0];
      available := available[1..];
      if obj != null {
        totalCreated := totalCreated - 1;
      }
    }
  }

  lemma ShrinkKeeps(q: seq<GameObj?>, inUse: set<GameObj>, k: nat)
    requires k <= |q|
    requires Consistent(PoolState(q, inUse, 0, 0, 0))
    ensures Consistent(PoolState(q[k..], inUse, 0, 0, 0))
  {
    var r := q[k..];
    forall i | 0 <= i < |r| && r[i] != null
      ensures r[i] !in inUse
    {
      assert r[i] == q[i + k];
    }
    forall i, j | 0 <= i < j < |r| && r[i] != null
      ensures r[i] != r[j]
    {
      assert r[i] == q[i + k] && r[j] == q[j + k];
    }
  }

  /** The GameObjectPool constructor: a null prefab is rejected; with a
      configuration its maximum, auto-expansion and name are taken, without
      one the maximum is 100, auto-expansion is on and the prefab's name is
      the pool's. */
  method NewPool(prefab: Prefab?, config: GameObjectPoolConfig?) returns (r: Result<GameObjectPool>)
    ensures prefab == null ==> r == Err(ArgumentNull)
    ensures prefab != null ==> r.Ok? && fresh(r.value) && r.value.prefab == prefab
    ensures r.Ok? ==> r.value.Valid() && r.value.Snap() == PoolState([], {}, 0, 0, 0)
    ensures r.Ok? && config != null ==>
      r.value.maxSize == config.maxSize && r.value.autoExpand == config.autoExpand &&
      r.value.poolName == config.GetPoolName()
    ensures r.Ok? && config == null ==>
      r.value.maxSize == 100 && r.value.autoExpand && r.value.poolName == prefab.name
  {
    if prefab == null {
      return Err(ArgumentNull);
    }
    var pool;
    if config != null {
      pool := new GameObjectPool(prefab, config.maxSize, config.autoExpand, config.GetPoolName());
    } else {
      pool := new GameObjectPool(prefab, 100, true, prefab.name);
    }
    r := Ok(pool);
  }
}
