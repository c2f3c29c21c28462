/** The reference pool: a FIFO queue of idle objects of one pool type
    with five counters, and a registry holding one such pool per type,
    created on first use. Pool types are tokens compared by equality; a
    token records whether the type implements the poolable interface. */
module RefPools {
  import opened Common

  /** A pool type: its name and whether it implements IRefPoolable. */
  datatype TypeToken = TypeToken(name: string, isPoolable: bool)

  /** A pooled object; its runtime type is fixed when it is created. */
  class Poolable {
    const kind: TypeToken

    constructor (kind: TypeToken)
      ensures this.kind == kind
    {
      this.kind := kind;
    }
  }

  /** The fields of a pool: the idle queue and the used, acquire, release,
      add and remove counters. */
  datatype PoolState = PoolState(queue: seq<Poolable>, used: int, acquired: int, released: int, added: int, removed: int)

  /** The statistics record of one pool. */
  datatype RefPoolInfo = RefPoolInfo(poolType: TypeToken, unused: int, used: int, acquired: int,
                                     released: int, added: int, removed: int)

  /** The counter invariants every operation keeps: objects in use are
      those acquired and not released, and objects created and not
      destroyed are idle or in use. */
  predicate Balanced(s: PoolState)
  {
    && s.used == s.acquired - s.released
    && s.added - s.removed == |s.queue| + s.used
  }

  /** Acquire on the fields: the front of the queue is taken, or a new
      object is created when the queue is empty. */
  function AfterAcquire(s: PoolState): (r: PoolState)
    ensures Balanced(s) ==> Balanced(r)
  {
    if s.queue != [] then s.(queue := s.queue[1..], used := s.used + 1, acquired := s.acquired + 1)
    else s.(used := s.used + 1, acquired := s.acquired + 1, added := s.added + 1)
  }

  /** Release on the fields: the object joins the back of the queue. */
  function AfterRelease(s: PoolState, p: Poolable): (r: PoolState)
    ensures Balanced(s) ==> Balanced(r)
  {
    s.(queue := s.queue + [p], released := s.released + 1, used := s.used - 1)
  }

  /** ReleaseAll on the fields: every idle object is destroyed. */
  function AfterReleaseAll(s: PoolState): (r: PoolState)
    ensures Balanced(s) ==> Balanced(r)
  {
    s.(queue := [], removed := s.removed + |s.queue|)
  }

  /** Shrink(n) on the fields: at most `n` idle objects leave the front. */
  function AfterShrink(s: PoolState, n: nat): (r: PoolState)
    ensures Balanced(s) ==> Balanced(r)
  {
    var k := Min(n, |s.queue|);
    s.(queue := s.queue[k..], removed := s.removed + k)
  }

  /** Expand on the fields: the objects made join the back of the queue
      and count as added. */
  function AfterExpand(s: PoolState, made: seq<Poolable>): (r: PoolState)
    ensures Balanced(s) ==> Balanced(r)
  {
    s.(queue := s.queue + made, added := s.added + |made|)
  }

  /** Taking an idle object and releasing it again moves it from the front
      to the back of the queue and leaves the used count as it was. */
  lemma AcquireReleaseRotates(s: PoolState)
    requires s.queue != []
    ensures AfterRelease(AfterAcquire(s), s.queue[0]) ==
      s.(queue := s.queue[1..] + [s.queue[0]], acquired := s.acquired + 1, released := s.released + 1)
  {
  }

  /** The counter part of a pool's invariant is Balanced, the property
      every AfterX function preserves. */
  lemma ValidIsBalanced(pool: RefPool)
    requires pool.Valid()
    ensures Balanced(pool.Snap())
  {
  }

  class RefPool {
    const poolType: TypeToken
    var poolables: seq<Poolable>
    var usedCount: int
    var acquireCount: int
    var releaseCount: int
    var addCount: int
    var removeCount: int

    ghost function Snap(): PoolState
      reads this
    {
      PoolState(poolables, usedCount, acquireCount, releaseCount, addCount, removeCount)
    }

    /** The counters balance and no object is queued twice. */
    ghost predicate Valid()
      reads this
    {
      && usedCount == acquireCount - releaseCount
      && addCount - removeCount == |poolables| + usedCount
      && Distinct(poolables)
    }

    function Info(): RefPoolInfo
      reads this
    {
      RefPoolInfo(poolType, |poolables|, usedCount, acquireCount, releaseCount, addCount, removeCount)
    }

    /** The constructor body; NewRefPool performs its type check. */
    constructor (poolType: TypeToken)
      requires poolType.isPoolable
      ensures this.poolType == poolType
      ensures Valid() && Snap() == PoolState([], 0, 0, 0, 0, 0)
    {
      this.poolType := poolType;
      poolables := [];
      usedCount := 0;
      acquireCount := 0;
      releaseCount := 0;
      addCount := 0;
      removeCount := 0;
    }

    /** Acquire(): the front of the queue, or a new object of the pool type
        when the queue is empty. */
    method AcquireAny() returns (p: Poolable)
      requires Valid()
      modifies this
      ensures Valid()
      ensures Snap() == AfterAcquire(old(Snap()))
      ensures old(poolables) != [] ==> p == old(poolables)[0]
      ensures old(poolables) == [] ==> fresh(p) && p.kind == poolType
    {
      usedCount := usedCount + 1;
      acquireCount := acquireCount + 1;
      if |poolables| > 0 {
        p := poolables[0];
        DistinctSlice(poolables, 1, |poolables|);
        poolables := poolables[1..];
        return;
      }
      addCount := addCount + 1;
      p := new Poolable(poolType);
    }

    /** Acquire<T>(): a type other than the pool's is rejected before any
        counter changes. */
    method Acquire(t: TypeToken) returns (r: Result<Poolable>)
      requires Valid()
      modifies this
      ensures Valid()
      ensures t != poolType ==> r == Err(Argument) && Snap() == old(Snap())
      ensures t == poolType ==> r.Ok? && Snap() == AfterAcquire(old(Snap()))
      ensures t == poolType && old(poolables) != [] ==> r.value == old(poolables)[0]
      ensures t == poolType && old(poolables) == [] ==> fresh(r.value) && r.value.kind == poolType
    {
      if t != poolType {
        return Err(Argument);
      }
      var p := AcquireAny();
      r := Ok(p);
    }

    /** Release(IRefPoolable): null, an object of another runtime type and
        an object already queued are rejected. */
    method Release(p: Poolable?) returns (r: Outcome)
      requires Valid()
      modifies this
      ensures Valid()
      ensures p == null ==> r == Fail(ArgumentNull)
      ensures p != null && p.kind != poolType ==> r == Fail(Argument)
      ensures p != null && p.kind == poolType && p in old(poolables) ==> r == Fail(InvalidOperation)
      ensures r.Pass? <==> p != null && p.kind == poolType && p !in old(poolables)
      ensures r.Fail? ==> Snap() == old(Snap())
      ensures r.Pass? ==> Snap() == AfterRelease(old(Snap()), p)
    {
      if p == null {
        return Fail(ArgumentNull);
      }
      if p.kind != poolType {
        return Fail(Argument);
      }
      r := Enqueue(p);
    }

    /** Release<T>(obj): as Release, except that the declared type `t`
        rather than the object's runtime type is checked. */
    method ReleaseAs(p: Poolable?, t: TypeToken) returns (r: Outcome)
      requires Valid()
      modifies this
      ensures Valid()
      ensures p == null ==> r == Fail(ArgumentNull)
      ensures p != null && t != poolType ==> r == Fail(Argument)
      ensures p != null && t == poolType && p in old(poolables) ==> r == Fail(InvalidOperation)
      ensures r.Pass? <==> p != null && t == poolType && p !in old(poolables)
      ensures r.Fail? ==> Snap() == old(Snap())
      ensures r.Pass? ==> Snap() == AfterRelease(old(Snap()), p)
    {
      if p == null {
        return Fail(ArgumentNull);
      }
      if t != poolType {
        return Fail(Argument);
      }
      r := Enqueue(p);
    }

    /** The common tail of both releases: double release is rejected,
        otherwise the object joins the back of the queue. */
    method Enqueue(p: Poolable) returns (r: Outcome)
      requires Valid()
      modifies this
      ensures Valid()
      ensures r.Pass? <==> p !in old(poolables)
      ensures r.Fail? ==> r == Fail(InvalidOperation) && Snap() == old(Snap())
      ensures r.Pass? ==> Snap() == AfterRelease(old(Snap()), p)
    {
      if p in poolables {
        return Fail(InvalidOperation);
      }
      assert Distinct(poolables + [p]) by {
        forall i, j | 0 <= i < j < |poolables| + 1
          ensures (poolables + [p])[i] != (poolables + [p])[j]
        {
          if j == |poolables| {
            assert (poolables + [p])[i] == poolables[i];
          }
        }
      }
      poolables := poolables + [p];
      releaseCount := releaseCount + 1;
      usedCount := usedCount - 1;
      r := Pass;
    }

    /** Destroys every idle object. */
    method ReleaseAll()
      requires Valid()
      modifies this
      ensures Valid()
      ensures Snap() == AfterReleaseAll(old(Snap()))
    {
      var clearedCount := |poolables|;
      poolables := [];
      removeCount := removeCount + clearedCount;
    }

    /** Creates `count` new objects at the back of the queue; a count that
        is not positive is rejected. */
    method Expand(count: int) returns (r: Outcome)
      requires Valid()
      modifies this
      ensures Valid()
      ensures count <= 0 ==> r == Fail(ArgumentOutOfRange) && Snap() == old(Snap())
      ensures count > 0 ==> r == Pass
      ensures count > 0 ==>
        && |poolables| == |old(poolables)| + count
        && poolables[..|old(poolables)|] == old(poolables)
        && (forall j :: |old(poolables)| <= j < |poolables| ==> fresh(poolables[j]) && poolables[j].kind == poolType)
        && Snap() == old(Snap()).(queue := poolables, added := old(addCount) + count)
      ensures count > 0 ==> Snap() == AfterExpand(old(Snap()), poolables[|old(poolables)|..])
    {
      if count <= 0 {
        return Fail(ArgumentOutOfRange);
      }
      var i := 0;
      while i < count
        invariant 0 <= i <= count
        invariant Valid()
        invariant |poolables| == |old(poolables)| + i
        invariant poolables[..|old(poolables)|] == old(poolables)
        invariant forall j :: |old(poolables)| <= j < |poolables| ==> fresh(poolables[j]) && poolables[j].kind == poolType
        invariant Snap() == old(Snap()).(queue := poolables, added := old(addCount) + i)
      {
        var instance := new Poolable(poolType);
        EnqueueNew(instance);
        i := i + 1;
      }
      r := Pass;
    }

    /** One step of Expand: a new object joins the back of the queue. */
    method EnqueueNew(instance: Poolable)
      requires Valid() && instance !in poolables
      modifies this
      ensures Valid()
      ensures Snap() == old(Snap()).(queue := old(poolables) + [instance], added := old(addCount) + 1)
    {
      assert Distinct(poolables + [instance]) by {
        forall i, j | 0 <= i < j < |poolables| + 1
          ensures (poolables + [instance])[i] != (poolables + [instance])[j]
        {
          if j == |poolables| {
            assert (poolables + [instance])[i] == poolables[i];
          }
        }
      }
      poolables := poolables + [instance];
      addCount := addCount + 1;
    }

    /** Destroys min(count, idle count) objects from the front of the queue;
        a count that is not positive is rejected. */
    method Shrink(count: int) returns (r: Outcome)
      requires Valid()
      modifies this
      ensures Valid()
      ensures count <= 0 ==> r == Fail(ArgumentOutOfRange) && Snap() == old(Snap())
      ensures count > 0 ==> r == Pass && Snap() == AfterShrink(old(Snap()), count)
    {
      if count <= 0 {
        return Fail(ArgumentOutOfRange);
      }
      var actualRemoveCount := Min(count, |poolables|);
      var i := 0;
      while i < actualRemoveCount
        invariant 0 <= i <= actualRemoveCount
        invariant Valid()
        invariant poolables == old(poolables)[i..]
        invariant Snap() == old(Snap()).(queue := poolables, removed := old(removeCount) + i)
      {
        DistinctSlice(poolables, 1, |poolables|);
        poolables := poolables[1..];
        removeCount := removeCount + 1;
        i := i + 1;
      }
      r := Pass;
    }
  }

  /** The RefPool constructor: a type that is not poolable is rejected;
      otherwise the pool starts empty with every counter at zero. */
  method NewRefPool(t: TypeToken) returns (r: Result<RefPool>)
    ensures !t.isPoolable ==> r == Err(Argument)
    ensures t.isPoolable ==>
      r.Ok? && fresh(r.value) && r.value.poolType == t &&
      r.value.Valid() && r.value.Snap() == PoolState([], 0, 0, 0, 0, 0)
  {
    if !t.isPoolable {
      return Err(Argument);
    }
    var pool := new RefPool(t);
    r := Ok(pool);
  }

  /** The pool types of a sequence of statistics records. */
  function InfoTypes(infos: seq<RefPoolInfo>): set<TypeToken>
  {
    set i | 0 <= i < |infos| :: infos[i].poolType
  }

  lemma InfoTypesSnoc(infos: seq<RefPoolInfo>, info: RefPoolInfo)
    ensures InfoTypes(infos + [info]) == InfoTypes(infos) + {info.poolType}
  {
    var s := infos + [info];
    forall x | x in InfoTypes(s)
      ensures x in InfoTypes(infos) + {info.poolType}
    {
      var i :| 0 <= i < |s| && s[i].poolType == x;
      if i < |infos| {
        assert infos[i].poolType == x;
      }
    }
    forall x | x in InfoTypes(infos)
      ensures x in InfoTypes(s)
    {
      var i :| 0 <= i < |infos| && infos[i].poolType == x;
      assert s[i] == infos[i];
    }
    assert s[|infos|] == info;
  }

  /** The static registry: one pool per type token. */
  class RefPoolRegistry {
    var pools: map<TypeToken, RefPool>

    /** Every pool is registered under its own type and keeps its
        invariants. */
    ghost predicate Valid()
      reads this, pools.Values
    {
      forall t :: t in pools ==> pools[t].poolType == t && pools[t].Valid()
    }

    constructor ()
      ensures Valid() && pools == map[]
    {
      pools := map[];
    }

    /** The number of registered pools. */
    function Count(): (n: nat)
      reads this
      ensures n == |pools.Keys|
    {
      |pools|
    }

    /** The pool of a type, created on first use; None stands for a null
        type. */
    method GetPool(t: Option<TypeToken>) returns (r: Result<RefPool>)
      requires Valid()
      modifies this
      ensures Valid()
      ensures t.None? ==> r == Err(ArgumentNull) && pools == old(pools)
      ensures t.Some? && t.value in old(pools) ==> r == Ok(old(pools)[t.value]) && pools == old(pools)
      ensures t.Some? && t.value !in old(pools) && !t.value.isPoolable ==> r == Err(Argument) && pools == old(pools)
      ensures t.Some? && t.value !in old(pools) && t.value.isPoolable ==>
        && r.Ok? && fresh(r.value) && pools == old(pools)[t.value := r.value]
        && r.value.Snap() == PoolState([], 0, 0, 0, 0, 0)
      ensures r.Ok? ==> t.Some? && t.value in pools && pools[t.value] == r.value
      ensures forall u :: u in old(pools) ==> u in pools && pools[u] == old(pools)[u] && pools[u].Snap() == old(pools[u].Snap())
    {
      if t.None? {
        return Err(ArgumentNull);
      }
      if t.value in pools {
        return Ok(pools[t.value]);
      }
      r := NewRefPool(t.value);
      if r.Ok? {
        Register(t.value, r.value);
      }
    }

    /** Adds a new pool under its own type. */
    method Register(t: TypeToken, pool: RefPool)
      requires Valid() && t !in pools && pool.poolType == t && pool.Valid()
      modifies this
      ensures Valid() && pools == old(pools)[t := pool]
    {
      pools := pools[t := pool];
      forall u | u in pools
        ensures pools[u].poolType == u && pools[u].Valid()
      {
        if u != t {
          assert pools[u] == old(pools)[u];
        }
      }
    }

    /** After an operation on the pool of type `k` alone, the other pools
        are as they were and the registry keeps its invariant. */
    twostate lemma OnlyPoolChanged(k: TypeToken)
      requires old(Valid()) && pools == old(pools) && k in pools && pools[k].Valid()
      requires forall u :: u in pools && u != k ==> unchanged(pools[u])
      ensures Valid()
      ensures forall u :: u in pools && u != k ==> pools[u].Snap() == old(pools[u].Snap())
    {
    }

    /** RefPoolMgr.Acquire(Type): acquires from the pool of the type. */
    method Acquire(t: Option<TypeToken>) returns (r: Result<Poolable>)
      requires Valid()
      modifies this, pools.Values
      ensures Valid()
      ensures t.None? ==> r == Err(ArgumentNull) && pools == old(pools)
      ensures t.Some? && t.value !in old(pools) && !t.value.isPoolable ==> r == Err(Argument) && pools == old(pools)
      ensures t.Some? && t.value in old(pools) ==>
        && r.Ok? && pools == old(pools)
        && pools[t.value].Snap() == AfterAcquire(old(pools[t.value].Snap()))
        && (old(pools[t.value].poolables) != [] ==> r.value == old(pools[t.value].poolables)[0])
        && (old(pools[t.value].poolables) == [] ==> fresh(r.value) && r.value.kind == t.value)
      ensures t.Some? && t.value !in old(pools) && t.value.isPoolable ==>
        && r.Ok? && fresh(r.value) && r.value.kind == t.value && t.value in pools && pools == old(pools)[t.value := pools[t.value]]
        && fresh(pools[t.value]) && pools[t.value].Snap() == AfterAcquire(PoolState([], 0, 0, 0, 0, 0))
      ensures forall u :: u in old(pools) && (t.None? || t.value != u) ==> pools[u].Snap() == old(pools[u].Snap())
    {
      var pool := GetPool(t);
      if pool.Err? {
        return Err(pool.error);
      }
      var p := AcquireAt(t.value);
      r := Ok(p);
    }

    /** Acquire on the registered pool of type `k`. */
    method AcquireAt(k: TypeToken) returns (p: Poolable)
      requires Valid() && k in pools
      modifies pools[k]
      ensures Valid() && pools == old(pools)
      ensures pools[k].Snap() == AfterAcquire(old(pools[k].Snap()))
      ensures old(pools[k].poolables) != [] ==> p == old(pools[k].poolables)[0]
      ensures old(pools[k].poolables) == [] ==> fresh(p) && p.kind == k
      ensures forall u :: u in pools && u != k ==> pools[u].Snap() == old(pools[u].Snap())
    {
      p := pools[k].AcquireAny();
      OnlyPoolChanged(k);
    }

    /** RefPoolMgr.Release: null is rejected; otherwise the object goes to
        the pool of its runtime type. */
    method Release(p: Poolable?) returns (r: Outcome)
      requires Valid()
      modifies this, pools.Values
      ensures Valid()
      ensures p == null ==> r == Fail(ArgumentNull) && pools == old(pools)
      ensures p != null && p.kind !in old(pools) && !p.kind.isPoolable ==> r == Fail(Argument) && pools == old(pools)
      ensures p != null && p.kind in old(pools) ==>
        && pools == old(pools)
        && (r.Pass? <==> p !in old(pools[p.kind].poolables))
        && (r.Fail? ==> r == Fail(InvalidOperation) && pools[p.kind].Snap() == old(pools[p.kind].Snap()))
        && (r.Pass? ==> pools[p.kind].Snap() == AfterRelease(old(pools[p.kind].Snap()), p))
      ensures p != null && p.kind !in old(pools) && p.kind.isPoolable ==>
        && r == Pass && p.kind in pools && pools == old(pools)[p.kind := pools[p.kind]]
        && fresh(pools[p.kind]) && pools[p.kind].Snap() == AfterRelease(PoolState([], 0, 0, 0, 0, 0), p)
      ensures forall u :: u in old(pools) && (p == null || p.kind != u) ==> pools[u].Snap() == old(pools[u].Snap())
    {
      if p == null {
        return Fail(ArgumentNull);
      }
      var pool := GetPool(Some(p.kind));
      if pool.Err? {
        return Fail(pool.error);
      }
      r := pool.value.Release(p);
    }

    /** RefPoolMgr.Expand: a count that is not positive is rejected before
        any pool is created. */
    method Expand(t: Option<TypeToken>, count: int) returns (r: Outcome)
      requires Valid()
      modifies this, pools.Values
      ensures Valid()
      ensures count <= 0 ==> r == Fail(ArgumentOutOfRange) && pools == old(pools)
      ensures count > 0 && t.None? ==> r == Fail(ArgumentNull) && pools == old(pools)
      ensures count > 0 && t.Some? && t.value !in old(pools) && !t.value.isPoolable ==>
        r == Fail(Argument) && pools == old(pools)
      ensures count > 0 && t.Some? && t.value in old(pools) ==>
        var n := |old(pools[t.value].poolables)|;
        && r == Pass && pools == old(pools) && |pools[t.value].poolables| == n + count
        && pools[t.value].Snap() == AfterExpand(old(pools[t.value].Snap()), pools[t.value].poolables[n..])
        && forall j :: n <= j < |pools[t.value].poolables| ==>
             fresh(pools[t.value].poolables[j]) && pools[t.value].poolables[j].kind == t.value
      ensures count > 0 && t.Some? && t.value !in old(pools) && t.value.isPoolable ==>
        && r == Pass && t.value in pools && pools == old(pools)[t.value := pools[t.value]] && fresh(pools[t.value])
        && |pools[t.value].poolables| == count
        && pools[t.value].Snap() == AfterExpand(PoolState([], 0, 0, 0, 0, 0), pools[t.value].poolables)
        && forall j :: 0 <= j < |pools[t.value].poolables| ==>
             fresh(pools[t.value].poolables[j]) && pools[t.value].poolables[j].kind == t.value
      ensures forall u :: u in old(pools) && (count <= 0 || t.None? || t.value != u) ==> pools[u].Snap() == old(pools[u].Snap())
    {
      if count <= 0 {
        return Fail(ArgumentOutOfRange);
      }
      if t.Some? && t.value in pools {
        r := ExpandAt(t.value, count);
        return;
      }
      var pool := GetPool(t);
      if pool.Err? {
        return Fail(pool.error);
      }
      r := ExpandAt(t.value, count);
    }

    /** Expand on the registered pool of type `k`: `count` new objects of
        that type join the back of its queue. */
    method ExpandAt(k: TypeToken, count: int) returns (r: Outcome)
      requires Valid() && k in pools && count > 0
      modifies pools[k]
      ensures Valid() && pools == old(pools) && r == Pass
      ensures |pools[k].poolables| == |old(pools[k].poolables)| + count
      ensures pools[k].Snap() == AfterExpand(old(pools[k].Snap()), pools[k].poolables[|old(pools[k].poolables)|..])
      ensures forall j :: |old(pools[k].poolables)| <= j < |pools[k].poolables| ==>
        fresh(pools[k].poolables[j]) && pools[k].poolables[j].kind == k
      ensures forall u :: u in pools && u != k ==> pools[u].Snap() == old(pools[u].Snap())
    {
      r := pools[k].Expand(count);
      OnlyPoolChanged(k);
    }

    /** RefPoolMgr.Shrink: a count that is not positive is rejected before
        any pool is created. */
    method Shrink(t: Option<TypeToken>, count: int) returns (r: Outcome)
      requires Valid()
      modifies this, pools.Values
      ensures Valid()
      ensures count <= 0 ==> r == Fail(ArgumentOutOfRange) && pools == old(pools)
      ensures count > 0 && t.None? ==> r == Fail(ArgumentNull) && pools == old(pools)
      ensures count > 0 && t.Some? && t.value !in old(pools) && !t.value.isPoolable ==>
        r == Fail(Argument) && pools == old(pools)
      ensures count > 0 && t.Some? && t.value in old(pools) ==>
        r == Pass && pools == old(pools) && pools[t.value].Snap() == AfterShrink(old(pools[t.value].Snap()), count)
      ensures count > 0 && t.Some? && t.value !in old(pools) && t.value.isPoolable ==>
        && r == Pass && t.value in pools && pools == old(pools)[t.value := pools[t.value]]
        && fresh(pools[t.value]) && pools[t.value].Snap() == PoolState([], 0, 0, 0, 0, 0)
      ensures forall u :: u in old(pools) && (count <= 0 || t.None? || t.value != u) ==> pools[u].Snap() == old(pools[u].Snap())
    {
      if count <= 0 {
        return Fail(ArgumentOutOfRange);
      }
      var pool := GetPool(t);
      if pool.Err? {
        return Fail(pool.error);
      }
      r := ShrinkAt(t.value, count);
    }

    /** Shrink on the registered pool of type `k`. */
    method ShrinkAt(k: TypeToken, count: int) returns (r: Outcome)
      requires Valid() && k in pools && count > 0
      modifies pools[k]
      ensures Valid() && pools == old(pools) && r == Pass
      ensures pools[k].Snap() == AfterShrink(old(pools[k].Snap()), count)
      ensures forall u :: u in pools && u != k ==> pools[u].Snap() == old(pools[u].Snap())
    {
      r := pools[k].Shrink(count);
      OnlyPoolChanged(k);
    }

    /** Runs ReleaseAll on every pool, then empties the registry. */
    method Clear()
      requires Valid()
      modifies this, pools.Values
      ensures Valid() && pools == map[] && Count() == 0
      ensures forall t :: t in old(pools) ==> old(pools)[t].Snap() == AfterReleaseAll(old(pools[t].Snap()))
    {
      ghost var olds := pools;
      var keys := pools.Keys;
      while keys != {}
        invariant keys <= olds.Keys && pools == olds
        invariant Valid()
        invariant forall t :: t in olds && t !in keys ==> olds[t].Snap() == AfterReleaseAll(old(olds[t].Snap()))
        invariant forall t :: t in keys ==> olds[t].Snap() == old(olds[t].Snap())
        decreases |keys|
      {
        var k :| k in keys;
        pools[k].ReleaseAll();
        keys := keys - {k};
      }
      pools := map[];
    }

    /** Every record is the statistics of the pool registered under its
        type. */
    ghost predicate Reports(infos: seq<RefPoolInfo>)
      reads this, pools.Values
    {
      forall i :: 0 <= i < |infos| ==> infos[i].poolType in pools && infos[i] == pools[infos[i].poolType].Info()
    }

    lemma ReportsSnoc(infos: seq<RefPoolInfo>, k: TypeToken)
      requires Valid() && Reports(infos) && k in pools
      ensures Reports(infos + [pools[k].Info()])
    {
      var s := infos + [pools[k].Info()];
      forall i | 0 <= i < |s|
        ensures s[i].poolType in pools && s[i] == pools[s[i].poolType].Info()
      {
        if i < |infos| {
          assert s[i] == infos[i];
        }
      }
    }

    /** One statistics record per registered pool, in some order. */
    method GetAllPoolInfos() returns (infos: seq<RefPoolInfo>)
      requires Valid()
      ensures |infos| == Count()
      ensures InfoTypes(infos) == pools.Keys
      ensures Reports(infos)
    {
      infos := [];
      var keys := pools.Keys;
      while keys != {}
        invariant keys <= pools.Keys
        invariant |infos| + |keys| == |pools.Keys|
        invariant InfoTypes(infos) == pools.Keys - keys
        invariant Reports(infos)
        decreases |keys|
      {
        var k :| k in keys;
        var info := pools[k].Info();
        InfoTypesSnoc(infos, info);
        ReportsSnoc(infos, k);
        infos := infos + [info];
        keys := keys - {k};
      }
    }
  }
}
