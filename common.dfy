/** Failure-carrying values shared by every component: the exceptions the
    source throws become `Fail`/`Err` values naming the exception kind. */
module Common {

  datatype Option<+T> = None | Some(value: T)

  /** The .NET exception kinds the modelled code raises. */
  datatype Error =
    | ArgumentNull        // ArgumentNullException
    | Argument            // ArgumentException
    | ArgumentOutOfRange  // ArgumentOutOfRangeException
    | InvalidOperation    // InvalidOperationException
    | NullReference       // a member call on a null reference

  /** Result of an operation that returns nothing or throws. */
  datatype Outcome = Pass | Fail(error: Error)

  /** Result of an operation that returns a value or throws. */
  datatype Result<+T> = Ok(value: T) | Err(error: Error)

  function Min(a: int, b: int): int { if a <= b then a else b }

  function Max(a: int, b: int): int { if a >= b then a else b }

  /** `xs` joined with `sep` between neighbours, as `string.Join` does. */
  function Join(xs: seq<string>, sep: string): string
  {
    if |xs| == 0 then ""
    else if |xs| == 1 then xs[0]
    else Join(xs[..|xs| - 1], sep) + sep + xs[|xs| - 1]
  }

  /** No element occurs twice. */
  predicate Distinct<T(==)>(s: seq<T>)
  {
    forall i, j :: 0 <= i < j < |s| ==> s[i] != s[j]
  }

  /** A slice of a sequence without repeats has none either. */
  lemma DistinctSlice<T>(s: seq<T>, a: nat, b: nat)
    requires Distinct(s) && a <= b <= |s|
    ensures Distinct(s[a..b])
  {
    forall i, j | 0 <= i < j < b - a
      ensures s[a..b][i] != s[a..b][j]
    {
      assert s[a..b][i] == s[a + i] && s[a..b][j] == s[a + j];
    }
  }

  /** Removing one element from a sequence without repeats leaves none. */
  lemma DistinctRemove<T>(s: seq<T>, i: nat)
    requires Distinct(s) && i < |s|
    ensures Distinct(s[..i] + s[i + 1..])
  {
    var r := s[..i] + s[i + 1..];
    forall a, b | 0 <= a < b < |r|
      ensures r[a] != r[b]
    {
      var a' := if a < i then a else a + 1;
      var b' := if b < i then b else b + 1;
      assert r[a] == s[a'] && r[b] == s[b'];
    }
  }

  /** Appending a new element to a sequence without repeats leaves none. */
  lemma DistinctSnoc<T>(s: seq<T>, x: T)
    requires Distinct(s) && x !in s
    ensures Distinct(s + [x])
  {
    var r := s + [x];
    forall a, b | 0 <= a < b < |r|
      ensures r[a] != r[b]
    {
      assert r[a] == s[a];
    }
  }
}
