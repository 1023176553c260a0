/** Small building blocks shared by every component of the model. */
module Basics {
  datatype Option<+T> = None | Some(value: T)

  /** A store operation either commits a value or throws; a throw always leaves the caller's state alone. */
  datatype Result<+T> = Ok(value: T) | Err(error: string)

  predicate Distinct<T(==)>(s: seq<T>) {
    forall i, j :: 0 <= i < j < |s| ==> s[i] != s[j]
  }

  function ToSet<T(==)>(s: seq<T>): set<T> {
    set x | x in s
  }

  /** The numbers from zero up to `n`, exclusive. */
  ghost function Below(n: nat): set<int> {
    if n == 0 then {} else Below(n - 1) + {n - 1}
  }

  lemma {:induction false} BelowExact(n: nat)
    ensures |Below(n)| == n && forall p :: p in Below(n) <==> 0 <= p < n
  {
    if n > 0 {
      BelowExact(n - 1);
    }
  }

  function Max(a: int, b: int): int {
    if a > b then a else b
  }

  function Min(a: int, b: int): int {
    if a < b then a else b
  }

  /** A subset never has more members than the set it comes from. */
  lemma {:induction false} SubsetSize<T>(a: set<T>, b: set<T>)
    requires a <= b
    ensures |a| <= |b|
    decreases a
  {
    if a != {} {
      var x :| x in a;
      SubsetSize(a - {x}, b - {x});
    }
  }

  /** Distinct positions hold distinct values, so a duplicate-free sequence is as long as its set of members. */
  lemma {:induction false} DistinctSize<T>(s: seq<T>)
    requires Distinct(s)
    ensures |(set x | x in s)| == |s|
  {
    if s != [] {
      var n := |s| - 1;
      var front := s[..n];
      assert s == front + [s[n]];
      DistinctSize(front);
      assert (set x | x in s) == (set x | x in front) + {s[n]};
    }
  }
}
