/**
 * Keyword-argument dictionaries as sequences of (key, value) entries in the
 * order they were passed, with `dict.pop`, lookup and `sorted` over the keys.
 */
module Keywords {
  import opened Wrappers
  import opened Strings

  /** A Python dict never holds one key twice. */
  ghost predicate DistinctKeys<T>(s: seq<(string, T)>)
  {
    forall i, j :: 0 <= i < j < |s| ==> s[i].0 != s[j].0
  }

  /** The keys of the dict. */
  function KeySet<T>(s: seq<(string, T)>): set<string>
  {
    if s == [] then {} else {s[0].0} + KeySet(s[1..])
  }

  lemma {:induction false} KeySetHas<T>(s: seq<(string, T)>, i: int)
    requires 0 <= i < |s|
    ensures s[i].0 in KeySet(s)
  {
    if i > 0 {
      KeySetHas(s[1..], i - 1);
    }
  }

  lemma {:induction false} KeySetWitness<T>(s: seq<(string, T)>, k: string) returns (i: int)
    requires k in KeySet(s)
    ensures 0 <= i < |s| && s[i].0 == k
  {
    if s[0].0 == k {
      i := 0;
    } else {
      i := KeySetWitness(s[1..], k);
      i := i + 1;
    }
  }

  lemma DistinctHead<T>(s: seq<(string, T)>)
    requires DistinctKeys(s) && s != []
    ensures s[0].0 !in KeySet(s[1..])
    ensures DistinctKeys(s[1..])
  {
    if s[0].0 in KeySet(s[1..]) {
      var k := KeySetWitness(s[1..], s[0].0);
      assert false;
    }
  }

  lemma DistinctCons<T>(h: (string, T), t: seq<(string, T)>)
    requires DistinctKeys(t) && h.0 !in KeySet(t)
    ensures DistinctKeys([h] + t)
  {
    var s := [h] + t;
    forall i, j | 0 <= i < j < |s| ensures s[i].0 != s[j].0 {
      if i == 0 {
        KeySetHas(t, j - 1);
      }
    }
  }

  /** `d.get(key)`: the value stored under `key`, if any. */
  function Lookup<T>(s: seq<(string, T)>, key: string): (r: Option<T>)
    ensures r.None? <==> key !in KeySet(s)
    ensures r.Some? ==> (key, r.value) in s
  {
    if s == [] then None
    else if s[0].0 == key then Some(s[0].1)
    else Lookup(s[1..], key)
  }

  lemma LookupFound<T>(s: seq<(string, T)>, key: string, v: T)
    requires DistinctKeys(s) && (key, v) in s
    ensures Lookup(s, key) == Some(v)
  {
    var i :| 0 <= i < |s| && s[i] == (key, v);
    KeySetHas(s, i);
    var w := Lookup(s, key).value;
    var j :| 0 <= j < |s| && s[j] == (key, w);
  }

  /** With distinct keys, the same entries in another order give the same lookups. */
  lemma LookupIgnoresOrder<T>(s: seq<(string, T)>, t: seq<(string, T)>, key: string)
    requires DistinctKeys(s) && DistinctKeys(t)
    requires multiset(s) == multiset(t)
    ensures Lookup(s, key) == Lookup(t, key)
  {
    var a, b := Lookup(s, key), Lookup(t, key);
    if a.Some? {
      assert (key, a.value) in multiset(t);
      LookupFound(t, key, a.value);
    }
    if b.Some? {
      assert (key, b.value) in multiset(s);
      LookupFound(s, key, b.value);
    }
  }

  /** The dict after `d.pop(key)`: the entry under that key dropped, the others in order. */
  function Remove<T>(s: seq<(string, T)>, key: string): (r: seq<(string, T)>)
    ensures |r| <= |s|
  {
    if s == [] then []
    else (if s[0].0 == key then [] else [s[0]]) + Remove(s[1..], key)
  }

  lemma {:induction false} RemoveKeys<T>(s: seq<(string, T)>, key: string)
    ensures KeySet(Remove(s, key)) == KeySet(s) - {key}
  {
    if s != [] {
      RemoveKeys(s[1..], key);
      var r := Remove(s, key);
      if s[0].0 != key {
        assert r == [s[0]] + Remove(s[1..], key);
        assert r[1..] == Remove(s[1..], key);
        assert KeySet(r) == {s[0].0} + KeySet(Remove(s[1..], key));
      } else {
        assert r == Remove(s[1..], key);
      }
    }
  }

  /** After `d.pop(key)` the key is gone and every other key reads as before. */
  lemma {:induction false} RemoveLookup<T>(s: seq<(string, T)>, key: string, k: string)
    ensures Lookup(Remove(s, key), k) == if k == key then None else Lookup(s, k)
  {
    RemoveKeys(s, key);
    if s != [] {
      RemoveLookup(s[1..], key, k);
      if s[0].0 != key {
        var r := Remove(s, key);
        assert r == [s[0]] + Remove(s[1..], key);
        assert r[0] == s[0] && r[1..] == Remove(s[1..], key);
      } else {
        assert Remove(s, key) == [] + Remove(s[1..], key) == Remove(s[1..], key);
      }
    }
  }

  lemma {:induction false} RemoveKeepsDistinct<T>(s: seq<(string, T)>, key: string)
    requires DistinctKeys(s)
    ensures DistinctKeys(Remove(s, key))
  {
    if s != [] {
      DistinctHead(s);
      RemoveKeepsDistinct(s[1..], key);
      if s[0].0 != key {
        RemoveKeys(s[1..], key);
        DistinctCons(s[0], Remove(s[1..], key));
      }
    }
  }

  lemma {:induction false} RemoveCounts<T>(s: seq<(string, T)>, key: string, x: (string, T))
    ensures multiset(Remove(s, key))[x] == if x.0 == key then 0 else multiset(s)[x]
  {
    if s != [] {
      RemoveCounts(s[1..], key, x);
      assert s == [s[0]] + s[1..];
    }
  }

  /** Multisets of entries are equal when every entry occurs equally often in both. */
  lemma MultisetExt<X>(a: multiset<X>, b: multiset<X>)
    requires forall x :: a[x] == b[x]
    ensures a == b
  {
  }

  /** The same entries in another order stay the same entries once a key is popped. */
  lemma RemoveIgnoresOrder<T>(s: seq<(string, T)>, t: seq<(string, T)>, key: string)
    requires multiset(s) == multiset(t)
    ensures multiset(Remove(s, key)) == multiset(Remove(t, key))
  {
    var a, b := multiset(Remove(s, key)), multiset(Remove(t, key));
    forall x: (string, T) ensures a[x] == b[x] {
      RemoveCounts(s, key, x);
      RemoveCounts(t, key, x);
    }
    MultisetExt(a, b);
  }

  /** Entries ordered by key, as `for key in sorted(d)` visits them. */
  ghost predicate SortedByKey<T>(s: seq<(string, T)>)
  {
    forall i, j :: 0 <= i < j < |s| ==> !Less(s[j].0, s[i].0)
  }

  ghost predicate StrictlySortedByKey<T>(s: seq<(string, T)>)
  {
    forall i, j :: 0 <= i < j < |s| ==> Less(s[i].0, s[j].0)
  }

  /** No key of `s` comes before `k`. */
  ghost predicate NoKeyBelow<T>(s: seq<(string, T)>, k: string)
  {
    forall i :: 0 <= i < |s| ==> !Less(s[i].0, k)
  }

  /** Place `x` before the first entry whose key is not smaller than its own. */
  function InsertByKey<T>(x: (string, T), s: seq<(string, T)>): (r: seq<(string, T)>)
    ensures |r| == |s| + 1
  {
    if s == [] || !Less(s[0].0, x.0) then [x] + s
    else [s[0]] + InsertByKey(x, s[1..])
  }

  /** `sorted` by key, as an insertion sort. */
  function SortByKey<T>(s: seq<(string, T)>): (r: seq<(string, T)>)
    ensures |r| == |s|
  {
    if s == [] then [] else InsertByKey(s[0], SortByKey(s[1..]))
  }

  lemma {:induction false} InsertContents<T>(x: (string, T), s: seq<(string, T)>)
    ensures multiset(InsertByKey(x, s)) == multiset(s) + multiset{x}
    ensures KeySet(InsertByKey(x, s)) == KeySet(s) + {x.0}
  {
    if s != [] && Less(s[0].0, x.0) {
      InsertContents(x, s[1..]);
      var r := InsertByKey(x, s);
      assert r[1..] == InsertByKey(x, s[1..]);
      assert s == [s[0]] + s[1..];
      assert r == [s[0]] + r[1..];
    }
  }

  /** Sorting keeps every entry and every key. */
  lemma {:induction false} SortContents<T>(s: seq<(string, T)>)
    ensures multiset(SortByKey(s)) == multiset(s)
    ensures KeySet(SortByKey(s)) == KeySet(s)
  {
    if s != [] {
      SortContents(s[1..]);
      InsertContents(s[0], SortByKey(s[1..]));
      assert s == [s[0]] + s[1..];
    }
  }

  lemma {:induction false} InsertKeepsLowerBound<T>(x: (string, T), s: seq<(string, T)>, k: string)
    requires NoKeyBelow(s, k) && !Less(x.0, k)
    ensures NoKeyBelow(InsertByKey(x, s), k)
  {
    if s != [] && Less(s[0].0, x.0) {
      InsertKeepsLowerBound(x, s[1..], k);
      var r := InsertByKey(x, s);
      assert r[1..] == InsertByKey(x, s[1..]);
      assert forall i :: 1 <= i < |r| ==> r[i] == r[1..][i - 1];
    }
  }

  lemma {:induction false} InsertKeepsOrder<T>(x: (string, T), s: seq<(string, T)>)
    requires SortedByKey(s)
    ensures SortedByKey(InsertByKey(x, s))
  {
    var r := InsertByKey(x, s);
    if s == [] || !Less(s[0].0, x.0) {
      forall j | 1 <= j < |r| ensures !Less(r[j].0, x.0) {
        if j > 1 && Less(s[j - 1].0, x.0) {
          assert !Less(s[j - 1].0, s[0].0);
          if s[0].0 == x.0 {
            assert false;
          }
          LessTotal(s[0].0, x.0);
          LessTransitive(s[j - 1].0, x.0, s[0].0);
        }
      }
    } else {
      InsertKeepsOrder(x, s[1..]);
      LessAsymmetric(s[0].0, x.0);
      assert NoKeyBelow(s[1..], s[0].0);
      InsertKeepsLowerBound(x, s[1..], s[0].0);
      assert r[1..] == InsertByKey(x, s[1..]);
      forall i, j | 0 <= i < j < |r| ensures !Less(r[j].0, r[i].0) {
        assert r[j] == r[1..][j - 1];
        if i > 0 {
          assert r[i] == r[1..][i - 1];
        }
      }
    }
  }

  lemma {:induction false} InsertKeepsDistinct<T>(x: (string, T), s: seq<(string, T)>)
    requires DistinctKeys(s) && x.0 !in KeySet(s)
    ensures DistinctKeys(InsertByKey(x, s))
  {
    if s == [] || !Less(s[0].0, x.0) {
      DistinctCons(x, s);
    } else {
      DistinctHead(s);
      InsertKeepsDistinct(x, s[1..]);
      InsertContents(x, s[1..]);
      DistinctCons(s[0], InsertByKey(x, s[1..]));
    }
  }

  /** The sorted entries are in key order, and strictly so when the keys are distinct. */
  lemma {:induction false} SortByKeyOrders<T>(s: seq<(string, T)>)
    ensures SortedByKey(SortByKey(s))
    ensures DistinctKeys(s) ==> DistinctKeys(SortByKey(s)) && StrictlySortedByKey(SortByKey(s))
  {
    if s != [] {
      SortByKeyOrders(s[1..]);
      InsertKeepsOrder(s[0], SortByKey(s[1..]));
      if DistinctKeys(s) {
        DistinctHead(s);
        SortContents(s[1..]);
        InsertKeepsDistinct(s[0], SortByKey(s[1..]));
        var r := SortByKey(s);
        forall i, j | 0 <= i < j < |r| ensures Less(r[i].0, r[j].0) {
          LessTotal(r[i].0, r[j].0);
        }
      }
    }
  }

  lemma StrictlySortedHeads<T>(a: seq<(string, T)>, b: seq<(string, T)>)
    requires StrictlySortedByKey(a) && StrictlySortedByKey(b)
    requires multiset(a) == multiset(b) && a != []
    ensures b != [] && a[0] == b[0]
  {
    assert a[0] in multiset(b);
    var j :| 0 <= j < |b| && b[j] == a[0];
    assert b[0] in multiset(a);
    var i :| 0 <= i < |a| && a[i] == b[0];
    if j > 0 {
      if i > 0 {
        LessAsymmetric(a[0].0, a[i].0);
      } else {
        LessIrreflexive(b[0].0);
      }
      assert false;
    }
  }

  lemma SameTails<T>(a: seq<(string, T)>, b: seq<(string, T)>)
    requires a != [] && b != [] && a[0] == b[0]
    requires multiset(a) == multiset(b)
    ensures multiset(a[1..]) == multiset(b[1..])
  {
    assert a == [a[0]] + a[1..] && b == [b[0]] + b[1..];
    assert multiset(a) == multiset{a[0]} + multiset(a[1..]);
    assert multiset(b) == multiset{a[0]} + multiset(b[1..]);
    var x, y := multiset(a[1..]), multiset(b[1..]);
    forall e: (string, T) ensures x[e] == y[e] {
      assert multiset(a)[e] == multiset{a[0]}[e] + x[e];
      assert multiset(b)[e] == multiset{a[0]}[e] + y[e];
    }
    MultisetExt(x, y);
  }

  /** Two strictly key-ordered sequences holding the same entries are equal. */
  lemma {:induction false} StrictlySortedUnique<T>(a: seq<(string, T)>, b: seq<(string, T)>)
    requires StrictlySortedByKey(a) && StrictlySortedByKey(b)
    requires multiset(a) == multiset(b)
    ensures a == b
  {
    if a == [] {
      assert |multiset(b)| == 0;
    } else {
      StrictlySortedHeads(a, b);
      SameTails(a, b);
      StrictlySortedUnique(a[1..], b[1..]);
      assert a == [a[0]] + a[1..] && b == [b[0]] + b[1..];
    }
  }

  /**
   * `sorted(d)` does not depend on the order in which the keyword arguments
   * were passed: the same entries in any order sort to the same sequence.
   */
  lemma SortByKeyIgnoresOrder<T>(s: seq<(string, T)>, t: seq<(string, T)>)
    requires DistinctKeys(s) && DistinctKeys(t)
    requires multiset(s) == multiset(t)
    ensures SortByKey(s) == SortByKey(t)
  {
    SortByKeyOrders(s);
    SortByKeyOrders(t);
    SortContents(s);
    SortContents(t);
    StrictlySortedUnique(SortByKey(s), SortByKey(t));
  }

  /** Apply `f` to every value, keeping keys and order. */
  function MapValues<T, U>(s: seq<(string, T)>, f: T -> U): (r: seq<(string, U)>)
    ensures |r| == |s|
    ensures forall i :: 0 <= i < |s| ==> r[i] == (s[i].0, f(s[i].1))
  {
    if s == [] then [] else [(s[0].0, f(s[0].1))] + MapValues(s[1..], f)
  }

  lemma {:induction false} InsertCommutesWithMap<T, U>(x: (string, T), s: seq<(string, T)>, f: T -> U)
    ensures InsertByKey((x.0, f(x.1)), MapValues(s, f)) == MapValues(InsertByKey(x, s), f)
  {
    if s != [] && Less(s[0].0, x.0) {
      InsertCommutesWithMap(x, s[1..], f);
      assert MapValues(s, f)[1..] == MapValues(s[1..], f);
    }
  }

  /** Sorting compares keys only, so it commutes with rendering the values. */
  lemma {:induction false} SortCommutesWithMap<T, U>(s: seq<(string, T)>, f: T -> U)
    ensures SortByKey(MapValues(s, f)) == MapValues(SortByKey(s), f)
  {
    if s != [] {
      SortCommutesWithMap(s[1..], f);
      assert MapValues(s, f)[1..] == MapValues(s[1..], f);
      InsertCommutesWithMap(s[0], SortByKey(s[1..]), f);
    }
  }

  /** Popping a key and rendering the values can be done in either order. */
  lemma {:induction false} RemoveCommutesWithMap<T, U>(s: seq<(string, T)>, key: string, f: T -> U)
    ensures Remove(MapValues(s, f), key) == MapValues(Remove(s, key), f)
  {
    if s != [] {
      RemoveCommutesWithMap(s[1..], key, f);
      assert MapValues(s, f)[1..] == MapValues(s[1..], f);
    }
  }

  /** `d.update(key=value)`: an existing key keeps its place, a new one goes last. */
  function Update<T>(s: seq<(string, T)>, key: string, value: T): (r: seq<(string, T)>)
    ensures KeySet(r) == KeySet(s) + {key}
  {
    if s == [] then [(key, value)]
    else if s[0].0 == key then [(key, value)] + s[1..]
    else [s[0]] + Update(s[1..], key, value)
  }

  lemma {:induction false} UpdateLookup<T>(s: seq<(string, T)>, key: string, value: T, k: string)
    ensures Lookup(Update(s, key, value), k) == if k == key then Some(value) else Lookup(s, k)
  {
    if s != [] && s[0].0 != key {
      UpdateLookup(s[1..], key, value, k);
    }
  }

  /** `d.update(**u)`: the entries of `u` written into `d` one after another. */
  function UpdateAll<T>(s: seq<(string, T)>, u: seq<(string, T)>): (r: seq<(string, T)>)
    ensures KeySet(r) == KeySet(s) + KeySet(u)
    decreases u
  {
    if u == [] then s else UpdateAll(Update(s, u[0].0, u[0].1), u[1..])
  }

  /** After `d.update(**u)` a key reads its value in `u` if it has one there, and its old value otherwise. */
  lemma {:induction false} UpdateAllLookup<T>(s: seq<(string, T)>, u: seq<(string, T)>, k: string)
    requires DistinctKeys(u)
    ensures Lookup(UpdateAll(s, u), k) == if k in KeySet(u) then Lookup(u, k) else Lookup(s, k)
    decreases u
  {
    if u != [] {
      DistinctHead(u);
      UpdateAllLookup(Update(s, u[0].0, u[0].1), u[1..], k);
      UpdateLookup(s, u[0].0, u[0].1, k);
    }
  }
}
