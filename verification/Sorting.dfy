/** Sorting by a total order, as events and jobs are: by time, then by id. */
module Sorting {
  ghost predicate IsOrder<T(!new)>(before: (T, T) -> bool) {
    && (forall x, y :: before(x, y) || before(y, x))
    && (forall x, y, z :: before(x, y) && before(y, z) ==> before(x, z))
  }

  predicate SortedBy<T>(s: seq<T>, before: (T, T) -> bool) {
    forall i, j :: 0 <= i < j < |s| ==> before(s[i], s[j])
  }

  function Insert<T>(x: T, s: seq<T>, before: (T, T) -> bool): seq<T> {
    if s == [] then [x] else if before(x, s[0]) then [x] + s else [s[0]] + Insert(x, s[1..], before)
  }

  function Sort<T>(s: seq<T>, before: (T, T) -> bool): seq<T> {
    if s == [] then [] else Insert(s[|s| - 1], Sort(s[..|s| - 1], before), before)
  }

  lemma SortedCons<T(!new)>(x: T, s: seq<T>, before: (T, T) -> bool)
    requires IsOrder(before) && SortedBy(s, before) && (s == [] || before(x, s[0]))
    ensures SortedBy([x] + s, before)
  {
    var all := [x] + s;
    forall i, j | 0 <= i < j < |all| ensures before(all[i], all[j]) {
      if i > 0 {
        assert before(s[i - 1], s[j - 1]);
      } else if j > 1 {
        assert before(x, s[0]) && before(s[0], s[j - 1]);
      }
    }
  }

  /** The head of an insertion is the new element or the old head, so what comes before both comes before it. */
  lemma InsertHead<T>(x: T, s: seq<T>, before: (T, T) -> bool)
    ensures Insert(x, s, before) != []
    ensures Insert(x, s, before)[0] == x || (s != [] && Insert(x, s, before)[0] == s[0])
  {
  }

  lemma {:induction false} InsertKeeps<T(!new)>(x: T, s: seq<T>, before: (T, T) -> bool)
    requires IsOrder(before) && SortedBy(s, before)
    ensures SortedBy(Insert(x, s, before), before) && multiset(Insert(x, s, before)) == multiset(s) + multiset{x}
  {
    if s != [] {
      if before(x, s[0]) {
        SortedCons(x, s, before);
      } else {
        assert s == [s[0]] + s[1..];
        InsertKeeps(x, s[1..], before);
        InsertHead(x, s[1..], before);
        assert s[1..] != [] ==> before(s[0], s[1..][0]);
        SortedCons(s[0], Insert(x, s[1..], before), before);
      }
    }
  }

  /** Sorting keeps every element and puts them in order. */
  lemma {:induction false} SortKeeps<T(!new)>(s: seq<T>, before: (T, T) -> bool)
    requires IsOrder(before)
    ensures SortedBy(Sort(s, before), before) && multiset(Sort(s, before)) == multiset(s)
  {
    if s != [] {
      assert s == s[..|s| - 1] + [s[|s| - 1]];
      SortKeeps(s[..|s| - 1], before);
      InsertKeeps(s[|s| - 1], Sort(s[..|s| - 1], before), before);
    }
  }

  ghost predicate DistinctBy<T, K>(s: seq<T>, key: T -> K) {
    forall i, j :: 0 <= i < j < |s| ==> key(s[i]) != key(s[j])
  }

  ghost predicate NewKey<T, K>(x: T, s: seq<T>, key: T -> K) {
    forall k :: 0 <= k < |s| ==> key(s[k]) != key(x)
  }

  lemma DistinctCons<T, K>(x: T, s: seq<T>, key: T -> K)
    requires DistinctBy(s, key) && NewKey(x, s, key)
    ensures DistinctBy([x] + s, key)
  {
    var all := [x] + s;
    forall i, j | 0 <= i < j < |all| ensures key(all[i]) != key(all[j]) {
      assert all[j] == s[j - 1] && (i > 0 ==> all[i] == s[i - 1]);
    }
  }

  /** Inserting an element with a new key keeps the keys distinct, and what was new to both stays new. */
  lemma {:induction false} InsertDistinct<T, K>(x: T, s: seq<T>, before: (T, T) -> bool, key: T -> K)
    requires DistinctBy(s, key) && NewKey(x, s, key)
    ensures DistinctBy(Insert(x, s, before), key)
    ensures forall y :: key(y) != key(x) && NewKey(y, s, key) ==> NewKey(y, Insert(x, s, before), key)
  {
    if s == [] || before(x, s[0]) {
      DistinctCons(x, s, key);
    } else {
      var rest := s[1..];
      assert forall k :: 0 <= k < |rest| ==> rest[k] == s[k + 1] && key(s[0]) != key(s[k + 1]);
      InsertDistinct(x, rest, before, key);
      assert NewKey(s[0], rest, key);
      DistinctCons(s[0], Insert(x, rest, before), key);
      forall y | key(y) != key(x) && NewKey(y, s, key) ensures NewKey(y, Insert(x, s, before), key) {
        assert NewKey(y, rest, key);
      }
    }
  }

  /** Sorting elements with distinct keys keeps the keys distinct. */
  lemma {:induction false} SortDistinct<T, K>(s: seq<T>, before: (T, T) -> bool, key: T -> K)
    requires DistinctBy(s, key)
    ensures DistinctBy(Sort(s, before), key)
    ensures forall y :: NewKey(y, s, key) ==> NewKey(y, Sort(s, before), key)
  {
    if s != [] {
      var n := |s| - 1;
      var front := s[..n];
      assert forall k :: 0 <= k < n ==> front[k] == s[k] && key(s[k]) != key(s[n]);
      SortDistinct(front, before, key);
      assert NewKey(s[n], front, key);
      InsertDistinct(s[n], Sort(front, before), before, key);
      forall y | NewKey(y, s, key) ensures NewKey(y, Sort(s, before), key) {
        assert key(s[n]) != key(y) && NewKey(y, front, key);
      }
    }
  }

  lemma SortOne<T>(x: T, before: (T, T) -> bool)
    ensures Sort([x], before) == [x]
  {
    assert [x][..0] == [];
    assert Sort([x], before) == Insert(x, Sort([], before), before);
  }
}
