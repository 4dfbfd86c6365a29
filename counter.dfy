/**
 * Python's `collections.Counter` as the detector and the summary endpoint use it:
 * `counts[k] += 1` for each key of a stream, then `counts.most_common(1)[0]`.
 *
 * A Counter is a dict, so its entries keep the order in which their keys were first
 * inserted, and `most_common(1)` is `max(items, key=count)`, which returns the FIRST
 * entry of maximal count. The tally is therefore a sequence of entries in
 * first-insertion order, and the most common entry is the first maximal one.
 */
module Counter {
  import opened Wrappers

  /** One `(key, count)` item of a Counter. */
  datatype Entry<K> = Entry(key: K, count: nat)

  /** Index of the first occurrence of k in keys, or |keys| when k does not occur. */
  function First<K(==)>(keys: seq<K>, k: K): (i: nat)
    ensures i <= |keys|
    ensures i < |keys| ==> keys[i] == k
    ensures forall j :: 0 <= j < i ==> keys[j] != k
  {
    if keys == [] then 0
    else if keys[0] == k then 0
    else 1 + First(keys[1..], k)
  }

  /** The keys of a tally, in entry order. */
  function Keys<K>(t: seq<Entry<K>>): (ks: seq<K>)
    ensures |ks| == |t|
    ensures forall i :: 0 <= i < |t| ==> ks[i] == t[i].key
  {
    if t == [] then [] else [t[0].key] + Keys(t[1..])
  }

  /** No key occurs twice. */
  ghost predicate Distinct<K>(ks: seq<K>) {
    forall i, j :: 0 <= i < j < |ks| ==> ks[i] != ks[j]
  }

  /** `counts[k]`: the count of the entry of k, 0 when k has none. */
  function CountOf<K(==)>(t: seq<Entry<K>>, k: K): nat {
    var f := First(Keys(t), k);
    if f < |t| then t[f].count else 0
  }

  /** `counts[k] += 1`: bump the entry of k in place, or append a fresh entry with count 1. */
  function Bump<K(==)>(t: seq<Entry<K>>, k: K): (r: seq<Entry<K>>)
    ensures k in Keys(t) ==> Keys(r) == Keys(t)
    ensures k !in Keys(t) ==> r == t + [Entry(k, 1)] && Keys(r) == Keys(t) + [k]
  {
    var f := First(Keys(t), k);
    if f < |t| then
      var r := t[f := Entry(k, t[f].count + 1)];
      assert Keys(r) == Keys(t);
      r
    else
      assert Keys(t + [Entry(k, 1)]) == Keys(t) + [k];
      t + [Entry(k, 1)]
  }

  /** Bumping k adds one to the count of k and leaves every other count alone. */
  lemma BumpCount<K>(t: seq<Entry<K>>, k: K, x: K)
    ensures CountOf(Bump(t, k), x) == CountOf(t, x) + (if x == k then 1 else 0)
  {
    if k !in Keys(t) {
      FirstAppend(Keys(t), k, x);
    }
  }

  /** The Counter built by `for k in keys: counts[k] += 1`. */
  function Tally<K(==)>(keys: seq<K>): (t: seq<Entry<K>>)
  {
    if keys == [] then []
    else Bump(Tally(keys[..|keys| - 1]), keys[|keys| - 1])
  }

  /** The count a Counter built from a stream gives any key is its number of occurrences. */
  lemma {:induction false} TallyCount<K>(keys: seq<K>, k: K)
    ensures CountOf(Tally(keys), k) == multiset(keys)[k]
  {
    if keys != [] {
      var p, x := keys[..|keys| - 1], keys[|keys| - 1];
      assert keys == p + [x];
      TallyCount(p, k);
      BumpCount(Tally(p), x, k);
    }
  }

  /** Where the first occurrence of k lies once one more key is appended. */
  lemma FirstAppend<K>(keys: seq<K>, x: K, k: K)
    ensures First(keys + [x], k) == if k in keys then First(keys, k) else if x == k then |keys| else |keys| + 1
  {
    if k in keys {
      assert (keys + [x])[First(keys, k)] == k;
    } else if x == k {
      assert (keys + [x])[|keys|] == k;
    }
  }

  /** The keys of a tally are the keys of the stream, each once. */
  lemma {:induction false} TallyKeys<K>(keys: seq<K>)
    ensures forall k :: k in keys <==> k in Keys(Tally(keys))
    ensures Distinct(Keys(Tally(keys)))
  {
    if keys != [] {
      var p, x := keys[..|keys| - 1], keys[|keys| - 1];
      assert keys == p + [x];
      TallyKeys(p);
      var t0 := Tally(p);
      assert Tally(keys) == Bump(t0, x);
      if x in Keys(t0) {
        assert Keys(Tally(keys)) == Keys(t0);
      } else {
        assert Keys(Tally(keys)) == Keys(t0) + [x];
      }
    }
  }

  /** With distinct keys, an entry is the first (and only) one holding its key. */
  lemma FirstDistinct<K>(ks: seq<K>, i: nat)
    requires i < |ks| && Distinct(ks)
    ensures First(ks, ks[i]) == i
  {
  }

  /** Each entry of a tally holds the number of occurrences of its key, at least 1. */
  lemma TallyCounts<K>(keys: seq<K>)
    ensures forall i :: 0 <= i < |Tally(keys)| ==> Tally(keys)[i].count == multiset(keys)[Tally(keys)[i].key] > 0
  {
    TallyKeys(keys);
    var t := Tally(keys);
    forall i | 0 <= i < |t|
      ensures t[i].count == multiset(keys)[t[i].key] > 0
    {
      FirstDistinct(Keys(t), i);
      TallyCount(keys, t[i].key);
      assert t[i].key in Keys(t);
    }
  }

  /** The entries of a tally are in the order of their keys' first occurrences. */
  lemma {:induction false} TallyOrder<K>(keys: seq<K>, i: nat, j: nat)
    requires i < j < |Tally(keys)|
    ensures First(keys, Tally(keys)[i].key) < First(keys, Tally(keys)[j].key)
  {
    var p, x := keys[..|keys| - 1], keys[|keys| - 1];
    assert keys == p + [x];
    TallyKeys(p);
    var t0, t := Tally(p), Tally(keys);
    assert t == Bump(t0, x);
    var ks0, ks := Keys(t0), Keys(t);
    assert ks[i] in ks0 by {
      if x in ks0 {
        assert ks == ks0;
      } else {
        assert ks == ks0 + [x];
      }
    }
    assert ks[i] in p;
    FirstAppend(p, x, ks[i]);
    FirstAppend(p, x, ks[j]);
    if j < |t0| {
      assert ks[i] == ks0[i] && ks[j] == ks0[j] by {
        if x in ks0 {
          assert ks == ks0;
        } else {
          assert ks == ks0 + [x];
        }
      }
      TallyOrder(p, i, j);
    } else {
      assert x !in ks0 && ks == ks0 + [x];
    }
  }

  /** `max(items, key=count)`: the index of the FIRST entry of maximal count. */
  function MostCommon<K(==,!new)>(t: seq<Entry<K>>): (i: nat)
    requires t != []
    ensures i < |t|
    ensures forall j :: 0 <= j < |t| ==> t[j].count <= t[i].count
    ensures forall j :: 0 <= j < i ==> t[j].count < t[i].count
  {
    if |t| == 1 then 0
    else
      var m := MostCommon(t[..|t| - 1]);
      if t[|t| - 1].count > t[m].count then |t| - 1 else m
  }

  /**
   * `counts.most_common(1)`: its only item, or None for an empty Counter. A later entry
   * takes over only with a strictly larger count.
   */
  function Top<K(==,!new)>(t: seq<Entry<K>>): Option<Entry<K>> {
    if t == [] then None
    else
      var m := Top(t[..|t| - 1]);
      if m.None? || t[|t| - 1].count > m.value.count then Some(t[|t| - 1]) else m
  }

  /** The item of `most_common(1)` is the entry at the index of the first maximal count. */
  lemma {:induction false} TopIsMostCommon<K(!new)>(t: seq<Entry<K>>)
    ensures Top(t) == if t == [] then None else Some(t[MostCommon(t)])
  {
    if |t| > 1 {
      TopIsMostCommon(t[..|t| - 1]);
    }
  }

  /** `Counter(keys).most_common(1)`. */
  function MostCommonEntry<K(==,!new)>(keys: seq<K>): Option<Entry<K>> {
    Top(Tally(keys))
  }

  /**
   * k is the dominant key of the stream: it occurs, no key occurs more often, and among
   * the keys that occur as often it is the one that occurs first.
   */
  ghost predicate IsDominant<K(!new)>(keys: seq<K>, k: K) {
    && multiset(keys)[k] > 0
    && (forall x :: multiset(keys)[x] <= multiset(keys)[k])
    && (forall x :: multiset(keys)[x] == multiset(keys)[k] ==> First(keys, k) <= First(keys, x))
  }

  /** At most one key is dominant. */
  lemma DominantUnique<K(!new)>(keys: seq<K>, a: K, b: K)
    requires IsDominant(keys, a) && IsDominant(keys, b)
    ensures a == b
  {
    assert a in keys && b in keys;
    assert First(keys, a) == First(keys, b);
  }

  /**
   * `most_common(1)` is empty exactly for an empty stream; otherwise its entry is the
   * dominant key with its number of occurrences.
   */
  lemma MostCommonIsDominant<K(!new)>(keys: seq<K>)
    ensures MostCommonEntry(keys).None? <==> keys == []
    ensures MostCommonEntry(keys).Some? ==>
      var e := MostCommonEntry(keys).value;
      IsDominant(keys, e.key) && e.count == multiset(keys)[e.key]
  {
    TallyKeys(keys);
    TallyCounts(keys);
    var t := Tally(keys);
    TopIsMostCommon(t);
    if keys != [] {
      assert keys[0] in Keys(t);
      var m := MostCommon(t);
      var d := t[m];
      forall x | multiset(keys)[x] > 0
        ensures multiset(keys)[x] <= d.count
        ensures multiset(keys)[x] == d.count ==> First(keys, d.key) <= First(keys, x)
      {
        assert x in Keys(t);
        var j := First(Keys(t), x);
        assert t[j].key == x;
        if multiset(keys)[x] == d.count && j != m {
          assert j > m;
          TallyOrder(keys, m, j);
        }
      }
    } else {
      assert Keys(t) == [];
    }
  }
}
