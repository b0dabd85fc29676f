// Shared value types of the dashboard model: optional values, results,
// parsed JSON, and the "Map.set in order, later wins" fold that several
// scripts use to build their lookup tables.

module Base {

  datatype Option<T> = None | Some(value: T) {
    function GetOr(default: T): T {
      if Some? then value else default
    }
  }

  datatype Result<T, E> = Ok(value: T) | Err(error: E)

  /** A value produced by JSON.parse. Object entries keep their key order. */
  datatype Json =
    | JNull
    | JBool(b: bool)
    | JNum(n: int)
    | JStr(s: string)
    | JArr(items: seq<Json>)
    | JObj(entries: seq<(string, Json)>)

  /** The value stored under key `k` by the first entry with that key, if any. */
  function Lookup<V>(entries: seq<(string, V)>, k: string): (r: Option<V>)
    ensures r.Some? <==> exists j :: 0 <= j < |entries| && entries[j].0 == k
    ensures r.Some? ==> exists j :: 0 <= j < |entries| && entries[j] == (k, r.value)
  {
    if entries == [] then None
    else if entries[0].0 == k then Some(entries[0].1)
    else
      var r := Lookup(entries[1..], k);
      assert r.Some? ==> entries[1..][0] == entries[1];
      r
  }

  /** The value stored under key `k` by the last entry with that key: JSON.parse lets a later duplicate key overwrite an earlier one. */
  function LookupLast<V>(entries: seq<(string, V)>, k: string): (r: Option<V>)
    ensures r.Some? ==> exists j :: 0 <= j < |entries| && entries[j] == (k, r.value)
    ensures r.None? <==> forall j :: 0 <= j < |entries| ==> entries[j].0 != k
  {
    if entries == [] then None
    else if entries[|entries| - 1].0 == k then Some(entries[|entries| - 1].1)
    else
      var r := LookupLast(entries[..|entries| - 1], k);
      assert forall j :: 0 <= j < |entries| - 1 ==> entries[..|entries| - 1][j] == entries[j];
      r
  }

  /** A pair appended at the end is the last one for its key. */
  lemma LookupLastSnoc<V>(entries: seq<(string, V)>, k: string, v: V, k': string)
    ensures LookupLast(entries + [(k, v)], k') == if k' == k then Some(v) else LookupLast(entries, k')
  {
    assert (entries + [(k, v)])[..|entries|] == entries;
  }

  /**
   * The map left behind by calling `m.set(k, v)` for every pair, in order,
   * on an initially empty map.
   */
  function SetAll<K, V>(pairs: seq<(K, V)>): map<K, V>
  {
    if pairs == [] then map[]
    else SetAll(pairs[..|pairs| - 1])[pairs[|pairs| - 1].0 := pairs[|pairs| - 1].1]
  }

  /** One more `set` on the fold. */
  lemma SetAllSnoc<K, V>(pairs: seq<(K, V)>, p: (K, V))
    ensures SetAll(pairs + [p]) == SetAll(pairs)[p.0 := p.1]
  {
    assert (pairs + [p])[..|pairs|] == pairs;
  }

  /** Extending a prefix by one element, stated once for any element type. */
  lemma AppendTake<T>(a: seq<T>, s: seq<T>, k: nat)
    requires k < |s|
    ensures a + s[..k + 1] == (a + s[..k]) + [s[k]]
  {
    assert s[..k + 1] == s[..k] + [s[k]];
  }

  /** Indexing into a three-part concatenation. */
  lemma ConcatAt<T>(p: seq<T>, m: seq<T>, q: seq<T>, i: int)
    requires 0 <= i < |p| + |m| + |q|
    ensures (p + m + q)[i] == if i < |p| then p[i] else if i < |p| + |m| then m[i - |p|] else q[i - |p| - |m|]
  {
  }

  /** A non-empty sequence is its front followed by its last element. */
  lemma FrenteUltimo<T>(s: seq<T>)
    requires s != []
    ensures s == s[..|s| - 1] + [s[|s| - 1]]
  {
  }

  /** The elements of `t + [x]`: those of `t`, and `x`. */
  lemma ElementosSnoc<T>(t: seq<T>, x: T)
    ensures (set y | y in t + [x]) == (set y | y in t) + {x}
  {
  }

  /** A suffix `t` of `s` and a prefix `r` of `t` cut `s` into three pieces. */
  lemma TresPiezas<T>(s: seq<T>, t: seq<T>, r: seq<T>)
    requires |t| <= |s| && t == s[|s| - |t|..] && |r| <= |t| && r == t[..|r|]
    ensures s == s[..|s| - |t|] + r + t[|r|..]
  {
    assert s == s[..|s| - |t|] + t;
    assert t == r + t[|r|..];
  }

  /** `xs.map(f)`, built one element at a time from the front. */
  function Mapear<A, B>(xs: seq<A>, f: A -> B): (r: seq<B>)
    ensures |r| == |xs|
  {
    if xs == [] then [] else Mapear(xs[..|xs| - 1], f) + [f(xs[|xs| - 1])]
  }

  /** Mapping one element more. */
  lemma MapearSnoc<A, B>(xs: seq<A>, k: nat, f: A -> B)
    requires k < |xs|
    ensures Mapear(xs[..k + 1], f) == Mapear(xs[..k], f) + [f(xs[k])]
  {
    assert xs[..k + 1][..k] == xs[..k];
  }

  /** Element k of the mapped sequence is f of element k. */
  lemma {:induction false} MapearEn<A, B>(xs: seq<A>, f: A -> B)
    ensures forall k :: 0 <= k < |xs| ==> Mapear(xs, f)[k] == f(xs[k])
  {
    if xs != [] {
      var n := |xs| - 1;
      MapearEn(xs[..n], f);
      assert forall k :: 0 <= k < n ==> xs[..n][k] == xs[k];
    }
  }

  /**
   * One step of an in-place `xs.map(f)` over an array: writing f of element
   * k at position k extends the mapped prefix by one.
   */
  lemma MapearEnSitio<A>(antes: seq<A>, k: nat, f: A -> A, e: A)
    requires k < |antes| && e == f(antes[k])
    ensures (Mapear(antes[..k], f) + antes[k..])[k := e] == Mapear(antes[..k + 1], f) + antes[k + 1..]
  {
    MapearSnoc(antes, k, f);
    assert antes[k..] == [antes[k]] + antes[k + 1..];
  }

  /** Concatenation is associative. */
  lemma Asociar<T>(a: seq<T>, b: seq<T>, c: seq<T>)
    ensures a + (b + c) == (a + b) + c
  {
  }

  /** Some element of `t + [x]` satisfies `p` when one of `t` does or `x` does. */
  lemma AlgunoSnoc<T>(t: seq<T>, x: T, p: T -> bool)
    ensures (exists i :: 0 <= i < |t + [x]| && p((t + [x])[i])) <==>
            (exists i :: 0 <= i < |t| && p(t[i])) || p(x)
  {
    var s := t + [x];
    if exists i :: 0 <= i < |s| && p(s[i]) {
      var i :| 0 <= i < |s| && p(s[i]);
      if i < |t| {
        assert p(t[i]);
      }
    }
    if exists i :: 0 <= i < |t| && p(t[i]) {
      var i :| 0 <= i < |t| && p(t[i]);
      assert p(s[i]);
    }
    assert p(s[|t|]) == p(x);
  }

  /** A prefix one element longer. */
  lemma TakeSnoc<T>(s: seq<T>, k: nat)
    requires k < |s|
    ensures s[..k + 1] == s[..k] + [s[k]]
  {
  }

  /** The prefix of a longer prefix. */
  lemma TakeTake<T>(s: seq<T>, k: nat)
    requires k < |s|
    ensures s[..k + 1][..k] == s[..k] && s[..k + 1][k] == s[k]
  {
  }

  /** Two texts of equal length between the same prefix and suffix compare like the texts. */
  lemma MiddleDiffers<T>(p: seq<T>, x: seq<T>, y: seq<T>, q: seq<T>)
    requires |x| == |y|
    ensures p + x + q == p + y + q <==> x == y
  {
    if p + x + q == p + y + q {
      assert x == (p + x + q)[|p|..|p| + |x|];
      assert y == (p + y + q)[|p|..|p| + |y|];
    }
  }

  /** `j` is the last position at which its key occurs. */
  ghost predicate LastOccurrence<K, V>(pairs: seq<(K, V)>, j: int)
  {
    0 <= j < |pairs| && forall j' :: j < j' < |pairs| ==> pairs[j'].0 != pairs[j].0
  }

  /** The keys of the fold are exactly the keys of the pairs. */
  lemma {:induction false} SetAllKeys<K, V>(pairs: seq<(K, V)>)
    ensures SetAll(pairs).Keys == set j | 0 <= j < |pairs| :: pairs[j].0
  {
    if pairs != [] {
      var n := |pairs| - 1;
      var init := pairs[..n];
      SetAllKeys(init);
      assert SetAll(pairs).Keys == SetAll(init).Keys + {pairs[n].0};
      assert (set j | 0 <= j < |pairs| :: pairs[j].0) == (set j | 0 <= j < |init| :: init[j].0) + {pairs[n].0} by {
        forall j | 0 <= j < n ensures pairs[j].0 == init[j].0 {}
      }
    }
  }

  /** Later wins: the value kept for a key is the one of its last pair. */
  lemma {:induction false} SetAllLaterWins<K, V>(pairs: seq<(K, V)>, j: int)
    requires LastOccurrence(pairs, j)
    ensures pairs[j].0 in SetAll(pairs) && SetAll(pairs)[pairs[j].0] == pairs[j].1
  {
    var n := |pairs| - 1;
    if j < n {
      var init := pairs[..n];
      assert LastOccurrence(init, j) by {
        forall j' | j < j' < |init| ensures init[j'].0 != init[j].0 {
          assert init[j'] == pairs[j'];
        }
      }
      SetAllLaterWins(init, j);
    }
  }

  /**
   * `obj[k] = v` on an object given by its entries in key order: an existing
   * key keeps its place and takes the new value, a new key goes last.
   */
  function Assign<V>(entries: seq<(string, V)>, k: string, v: V): (r: seq<(string, V)>)
    ensures Lookup(r, k) == Some(v)
    ensures forall k' :: k' != k ==> Lookup(r, k') == Lookup(entries, k')
    ensures |r| == |entries| || |r| == |entries| + 1
  {
    if entries == [] then [(k, v)]
    else if entries[0].0 == k then [(k, v)] + entries[1..]
    else [entries[0]] + Assign(entries[1..], k, v)
  }

  /**
   * The object JSON.parse builds from the entries of an object literal, as the
   * sequence Object.entries lists: each key once, at its first occurrence,
   * with the value of its last.
   */
  function ObjectOf<V>(entries: seq<(string, V)>): (r: seq<(string, V)>)
  {
    if entries == [] then []
    else Assign(ObjectOf(entries[..|entries| - 1]), entries[|entries| - 1].0, entries[|entries| - 1].1)
  }

  /** Reading a key of the built object is reading its last entry in the literal. */
  lemma {:induction false} ObjectOfLookup<V>(entries: seq<(string, V)>, k: string)
    ensures Lookup(ObjectOf(entries), k) == LookupLast(entries, k)
  {
    if entries != [] {
      ObjectOfLookup(entries[..|entries| - 1], k);
    }
  }

  /** Entry keys are pairwise distinct. */
  predicate UniqueKeys<V>(entries: seq<(string, V)>)
  {
    forall i, j :: 0 <= i < j < |entries| ==> entries[i].0 != entries[j].0
  }

  lemma {:induction false} AssignDistinct<V>(entries: seq<(string, V)>, k: string, v: V)
    requires UniqueKeys(entries)
    ensures UniqueKeys(Assign(entries, k, v))
  {
    if entries != [] && entries[0].0 != k {
      AssignDistinct(entries[1..], k, v);
      var r := Assign(entries, k, v);
      var t := Assign(entries[1..], k, v);
      forall j | 0 < j < |r| ensures r[0].0 != r[j].0 {
        assert r[j] == t[j - 1];
        if t[j - 1].0 != k {
          assert Lookup(t, t[j - 1].0) == Lookup(entries[1..], t[j - 1].0);
          assert Lookup(entries[1..], t[j - 1].0).Some?;
          var i :| 0 <= i < |entries[1..]| && entries[1..][i].0 == t[j - 1].0;
          assert entries[i + 1].0 == t[j - 1].0;
        }
      }
    }
  }

  /** The built object has each key once. */
  lemma {:induction false} ObjectOfDistinct<V>(entries: seq<(string, V)>)
    ensures UniqueKeys(ObjectOf(entries))
  {
    if entries != [] {
      ObjectOfDistinct(entries[..|entries| - 1]);
      AssignDistinct(ObjectOf(entries[..|entries| - 1]), entries[|entries| - 1].0, entries[|entries| - 1].1);
    }
  }

  /** `delete obj[k]` on an object given by its entries: the entry with key `k` goes, the rest keep their order. */
  function Remove<V>(entries: seq<(string, V)>, k: string): (r: seq<(string, V)>)
    ensures Lookup(r, k) == None
    ensures forall k' :: k' != k ==> Lookup(r, k') == Lookup(entries, k')
  {
    if entries == [] then []
    else if entries[0].0 == k then Remove(entries[1..], k)
    else [entries[0]] + Remove(entries[1..], k)
  }

  /** Object.keys: the keys of the entries, in order. */
  function KeysOf<V>(entries: seq<(string, V)>): (r: seq<string>)
    ensures |r| == |entries|
    ensures forall k :: k in r <==> Lookup(entries, k).Some?
  {
    if entries == [] then []
    else
      var r := [entries[0].0] + KeysOf(entries[1..]);
      assert forall k :: k in r <==> k == entries[0].0 || k in KeysOf(entries[1..]);
      r
  }

  /** No element occurs twice. */
  predicate NoRepeats<T(==)>(s: seq<T>)
  {
    forall i, j :: 0 <= i < j < |s| ==> s[i] != s[j]
  }

  /** JavaScript truthiness of a property read (`undefined` when absent); numbers are integers here, so NaN does not arise. */
  predicate Truthy(v: Option<Json>)
  {
    match v
    case None => false
    case Some(j) =>
      match j
      case JNull => false
      case JBool(b) => b
      case JNum(n) => n != 0
      case JStr(t) => t != ""
      case _ => true
  }

  /** A pair appended after the others is found only for a key they lack. */
  lemma {:induction false} LookupSnoc<V>(entries: seq<(string, V)>, k: string, v: V, k': string)
    ensures Lookup(entries + [(k, v)], k') ==
            (if Lookup(entries, k').None? && k' == k then Some(v) else Lookup(entries, k'))
  {
    if entries != [] {
      assert (entries + [(k, v)])[1..] == entries[1..] + [(k, v)];
      LookupSnoc(entries[1..], k, v, k');
    }
  }
}
