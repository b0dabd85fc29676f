// Array.prototype.sort with a comparator on a string key, as the scripts use
// it to order group names. The library sort is stood in for by an insertion
// sort; both uses sort elements whose keys are pairwise distinct, and for such
// input every correct sort returns the same sequence.

module Sorting {
  import opened JsString

  ghost predicate DistinctKeys<T>(xs: seq<T>, key: T -> string)
  {
    forall i, j :: 0 <= i < j < |xs| ==> key(xs[i]) != key(xs[j])
  }

  ghost predicate StrictlySortedBy<T>(xs: seq<T>, key: T -> string)
  {
    forall i, j :: 0 <= i < j < |xs| ==> Less(key(xs[i]), key(xs[j]))
  }

  /** Puts `x` in front of the first element whose key is greater. */
  function Insert<T>(x: T, xs: seq<T>, key: T -> string): (r: seq<T>)
    ensures |r| == |xs| + 1
  {
    if xs == [] then [x]
    else if Less(key(x), key(xs[0])) then [x] + xs
    else [xs[0]] + Insert(x, xs[1..], key)
  }

  /** The list sorted by `key`, inserting the elements left to right. */
  function SortBy<T>(xs: seq<T>, key: T -> string): (r: seq<T>)
    ensures |r| == |xs|
  {
    if xs == [] then []
    else Insert(xs[|xs| - 1], SortBy(xs[..|xs| - 1], key), key)
  }

  /** Insertion adds the new element and keeps the old ones. */
  lemma {:induction false} InsertMultiset<T>(x: T, xs: seq<T>, key: T -> string)
    ensures multiset(Insert(x, xs, key)) == multiset(xs) + multiset{x}
  {
    if xs != [] && !Less(key(x), key(xs[0])) {
      InsertMultiset(x, xs[1..], key);
      assert xs == [xs[0]] + xs[1..];
    }
  }

  /** Sorting permutes its input. */
  lemma {:induction false} SortByMultiset<T>(xs: seq<T>, key: T -> string)
    ensures multiset(SortBy(xs, key)) == multiset(xs)
  {
    if xs != [] {
      var n := |xs| - 1;
      SortByMultiset(xs[..n], key);
      InsertMultiset(xs[n], SortBy(xs[..n], key), key);
      assert xs == xs[..n] + [xs[n]];
    }
  }

  /** Strictly sorted keys are pairwise distinct. */
  lemma EstrictoDistintos<T>(xs: seq<T>, key: T -> string, i: nat, j: nat)
    requires StrictlySortedBy(xs, key) && i < j < |xs|
    ensures key(xs[i]) != key(xs[j])
  {
    LessIrreflexive(key(xs[i]));
  }

  /** An element of the sorted sequence is an element of the input, at some position. */
  lemma SortByMiembro<T>(xs: seq<T>, key: T -> string, x: T) returns (k: nat)
    requires x in SortBy(xs, key)
    ensures k < |xs| && xs[k] == x
  {
    SortByMultiset(xs, key);
    assert x in multiset(SortBy(xs, key));
    assert x in multiset(xs);
    k :| 0 <= k < |xs| && xs[k] == x;
  }

  /** Every element of an insertion is the new element or an old one. */
  lemma InsertMembers<T>(x: T, xs: seq<T>, key: T -> string)
    ensures forall y :: y in Insert(x, xs, key) ==> y == x || y in xs
  {
    InsertMultiset(x, xs, key);
    forall y | y in Insert(x, xs, key) ensures y == x || y in xs {
      assert y in multiset(Insert(x, xs, key));
    }
  }

  /** Inserting a new key into a strictly sorted list keeps it strictly sorted. */
  lemma {:induction false} InsertSorted<T>(x: T, xs: seq<T>, key: T -> string)
    requires StrictlySortedBy(xs, key)
    requires forall y :: y in xs ==> key(y) != key(x)
    ensures StrictlySortedBy(Insert(x, xs, key), key)
  {
    if xs == [] {
    } else if Less(key(x), key(xs[0])) {
      InsertFront(x, xs, key);
    } else {
      var tail := xs[1..];
      assert forall y :: y in tail ==> y in xs;
      InsertSorted(x, tail, key);
      LessTotal(key(x), key(xs[0]));
      assert xs[0] in xs;
      InsertMembers(x, tail, key);
      HeadBelow(xs, x, Insert(x, tail, key), key);
    }
  }

  lemma InsertFront<T>(x: T, xs: seq<T>, key: T -> string)
    requires StrictlySortedBy(xs, key) && xs != []
    requires Less(key(x), key(xs[0]))
    ensures StrictlySortedBy([x] + xs, key)
  {
    var r := [x] + xs;
    forall i, j | 0 <= i < j < |r| ensures Less(key(r[i]), key(r[j])) {
      if i == 0 && j > 1 {
        LessTransitive(key(x), key(xs[0]), key(xs[j - 1]));
      }
    }
  }

  lemma HeadBelow<T>(xs: seq<T>, x: T, rest: seq<T>, key: T -> string)
    requires StrictlySortedBy(xs, key) && xs != []
    requires StrictlySortedBy(rest, key)
    requires Less(key(xs[0]), key(x))
    requires forall y :: y in rest ==> y == x || y in xs[1..]
    ensures StrictlySortedBy([xs[0]] + rest, key)
  {
    var r := [xs[0]] + rest;
    forall i, j | 0 <= i < j < |r| ensures Less(key(r[i]), key(r[j])) {
      if i == 0 {
        var y := rest[j - 1];
        assert y in rest;
        if y != x {
          var k :| 0 <= k < |xs[1..]| && xs[1..][k] == y;
          assert xs[k + 1] == y;
        }
      } else {
        assert r[i] == rest[i - 1] && r[j] == rest[j - 1];
      }
    }
  }

  /** With pairwise distinct keys, the result is strictly increasing by key. */
  lemma {:induction false} SortByCorrect<T>(xs: seq<T>, key: T -> string)
    requires DistinctKeys(xs, key)
    ensures multiset(SortBy(xs, key)) == multiset(xs)
    ensures StrictlySortedBy(SortBy(xs, key), key)
  {
    if xs != [] {
      var n := |xs| - 1;
      var init := xs[..n];
      SortByCorrect(init, key);
      var sorted := SortBy(init, key);
      SortByMultiset(xs, key);
      SortByMultiset(init, key);
      forall y | y in sorted ensures key(y) != key(xs[n]) {
        assert y in multiset(sorted);
        assert y in multiset(init);
        var k :| 0 <= k < |init| && init[k] == y;
        assert init[k] == xs[k];
      }
      InsertSorted(xs[n], sorted, key);
    }
  }

  /** A sequence of pairwise distinct elements has pairwise distinct keys under the identity. */
  lemma DistinctStrings(xs: seq<string>)
    requires forall i, j :: 0 <= i < j < |xs| ==> xs[i] != xs[j]
    ensures DistinctKeys(xs, (s: string) => s)
  {
  }
}
