/** The configuration asset of a GameObject pool and its validator. Unity
    assets are opaque tokens: a prefab is reduced to its name. */
module GOPoolConfigs {
  import opened Common

  /** A prefab asset. */
  class Prefab {
    const name: string

    constructor (name: string)
      ensures this.name == name
    {
      this.name := name;
    }
  }

  /** The fields of a configuration that validation reads or writes. */
  datatype ConfigValues = ConfigValues(prefab: Prefab?, initialSize: int, maxSize: int, poolName: string)

  /** The name a pool takes: the configured name, else the prefab's name,
      else "Unknown". */
  function PoolNameOf(prefab: Prefab?, poolName: string): string
  {
    if poolName != "" then poolName
    else if prefab != null then prefab.name
    else "Unknown"
  }

  /** Sizes a pool can honour: a non-negative initial size and a maximum
      that is either unlimited (not positive) or at least the initial size. */
  predicate SizesSane(v: ConfigValues)
  {
    v.initialSize >= 0 && (v.maxSize <= 0 || v.maxSize >= v.initialSize)
  }

  /** ValidateConfig on field values. Without a prefab nothing changes;
      otherwise the sizes are made sane by raising each to the least sane
      value and an empty pool name is filled from the prefab. */
  function Validate(v: ConfigValues): (r: ConfigValues)
    ensures r.prefab == v.prefab
    ensures v.prefab == null ==> r == v
    ensures v.prefab != null ==> SizesSane(r)
    ensures v.prefab != null && SizesSane(v) ==> r.initialSize == v.initialSize && r.maxSize == v.maxSize
    ensures v.prefab != null && v.initialSize < 0 ==> r.initialSize == 0
    ensures r.initialSize >= v.initialSize && r.maxSize >= v.maxSize
    ensures r.maxSize != v.maxSize ==> r.maxSize == r.initialSize
    ensures (r.maxSize > 0) == (v.maxSize > 0)
    ensures v.prefab != null ==> r.poolName == PoolNameOf(v.prefab, v.poolName)
  {
    if v.prefab == null then v
    else
      var initialSize := if v.initialSize < 0 then 0 else v.initialSize;
      var maxSize := if v.maxSize > 0 && v.maxSize < initialSize then initialSize else v.maxSize;
      var poolName := if v.poolName == "" then v.prefab.name else v.poolName;
      ConfigValues(v.prefab, initialSize, maxSize, poolName)
  }

  /** A second validation changes nothing. */
  lemma ValidateIdempotent(v: ConfigValues)
    ensures Validate(Validate(v)) == Validate(v)
  {
    var r := Validate(v);
    if v.prefab != null {
      assert SizesSane(r);
      assert r.poolName != "" || r.prefab.name == "";
    }
  }

  /** Validation does not change the name the pool will take. */
  lemma ValidateKeepsPoolName(v: ConfigValues)
    ensures PoolNameOf(Validate(v).prefab, Validate(v).poolName) == PoolNameOf(v.prefab, v.poolName)
  {
  }

  class GameObjectPoolConfig {
    var prefab: Prefab?
    var initialSize: int
    var maxSize: int
    var autoExpand: bool
    var dontDestroyOnLoad: bool
    var poolName: string

    /** The asset's field defaults. */
    constructor ()
      ensures prefab == null && initialSize == 10 && maxSize == 100
      ensures autoExpand && dontDestroyOnLoad && poolName == ""
    {
      prefab := null;
      initialSize := 10;
      maxSize := 100;
      autoExpand := true;
      dontDestroyOnLoad := true;
      poolName := "";
    }

    function Values(): ConfigValues
      reads this
    {
      ConfigValues(prefab, initialSize, maxSize, poolName)
    }

    function GetPoolName(): string
      reads this
    {
      PoolNameOf(prefab, poolName)
    }

    /** Rewrites the fields in place as Validate describes; the flags are
        not touched. */
    method ValidateConfig()
      modifies this
      ensures Values() == Validate(old(Values()))
      ensures autoExpand == old(autoExpand) && dontDestroyOnLoad == old(dontDestroyOnLoad)
    {
      if prefab == null {
        return;
      }
      if initialSize < 0 {
        initialSize := 0;
      }
      if maxSize > 0 && maxSize < initialSize {
        maxSize := initialSize;
      }
      if poolName == "" {
        poolName := prefab.name;
      }
    }
  }
}
