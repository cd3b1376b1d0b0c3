/**
 * Python dictionaries and JSON objects as association lists in insertion
 * order, the order in which `.items()` visits them.
 */
module Dicts {
  import opened Wrappers

  /** `d.get(key)`: the value of the first pair with that key. */
  function Lookup<V>(d: seq<(string, V)>, key: string): (r: Option<V>)
    ensures r.None? ==> forall i :: 0 <= i < |d| ==> d[i].0 != key
  {
    if d == [] then None else if d[0].0 == key then Some(d[0].1) else Lookup(d[1..], key)
  }

  /** A value found is the value of a pair with that key. */
  lemma {:induction false} LookupFound<V>(d: seq<(string, V)>, key: string)
    requires Lookup(d, key).Some?
    ensures (key, Lookup(d, key).value) in d
  {
    if d[0].0 != key {
      LookupFound(d[1..], key);
      assert d == [d[0]] + d[1..];
    }
  }

  /** `key in d`. */
  predicate Has<V>(d: seq<(string, V)>, key: string)
  {
    Lookup(d, key).Some?
  }

  /** The keys in order. */
  function KeysOf<V>(d: seq<(string, V)>): (r: seq<string>)
    ensures |r| == |d|
    ensures forall i :: 0 <= i < |d| ==> r[i] == d[i].0
  {
    if d == [] then [] else [d[0].0] + KeysOf(d[1..])
  }

  /** The keys of a dictionary whose entries carry the given keys, position by position. */
  lemma KeysOfIs<V>(d: seq<(string, V)>, keys: seq<string>)
    requires |d| == |keys|
    requires forall i :: 0 <= i < |d| ==> d[i].0 == keys[i]
    ensures KeysOf(d) == keys
  {
  }

  /** What every dictionary satisfies: no key twice. */
  predicate UniqueKeys<V>(d: seq<(string, V)>)
  {
    forall i, j :: 0 <= i < j < |d| ==> d[i].0 != d[j].0
  }

  /**
   * `d[key] = value`: a key already present keeps its place and takes the new
   * value, a new key goes last, and no other key changes.
   */
  function Put<V>(d: seq<(string, V)>, key: string, value: V): seq<(string, V)>
  {
    if d == [] then [(key, value)]
    else
      var head := if d[0].0 == key then (key, value) else d[0];
      var tail := if d[0].0 == key then d[1..] else Put(d[1..], key, value);
      var r := [head] + tail;
      assert r[0] == head && r[1..] == tail;
      r
  }

  /**
   * `d[key] = value`: the key takes the new value, a key already present
   * keeps its place, a new key goes last, and no other key changes.
   */
  lemma {:induction false} PutSpec<V>(d: seq<(string, V)>, key: string, value: V)
    ensures KeysOf(Put(d, key, value)) == if Has(d, key) then KeysOf(d) else KeysOf(d) + [key]
    ensures Lookup(Put(d, key, value), key) == Some(value)
    ensures forall k :: k != key ==> Lookup(Put(d, key, value), k) == Lookup(d, k)
  {
    var r := Put(d, key, value);
    if d == [] {
      assert r == [(key, value)];
    } else if d[0].0 == key {
      assert r[1..] == d[1..];
      assert KeysOf(r) == [key] + KeysOf(d[1..]);
    } else {
      var t := Put(d[1..], key, value);
      PutSpec(d[1..], key, value);
      PutCons(d, key, value);
      assert r[0] == d[0] && r[1..] == t;
      assert KeysOf(r) == [d[0].0] + KeysOf(t);
      assert KeysOf(d) == [d[0].0] + KeysOf(d[1..]);
      assert Has(d, key) == Has(d[1..], key);
      if !Has(d, key) {
        assert KeysOf(r) == [d[0].0] + (KeysOf(d[1..]) + [key]);
      }
    }
  }

  lemma {:induction false} PutKeepsUniqueKeys<V>(d: seq<(string, V)>, key: string, value: V)
    requires UniqueKeys(d)
    ensures UniqueKeys(Put(d, key, value))
  {
    var r := Put(d, key, value);
    PutSpec(d, key, value);
    if Has(d, key) {
      SameKeysUnique(d, r);
    } else {
      NewKeyUnique(d, r, key);
    }
  }

  lemma SameKeysUnique<V>(d: seq<(string, V)>, r: seq<(string, V)>)
    requires UniqueKeys(d) && KeysOf(r) == KeysOf(d)
    ensures UniqueKeys(r)
  {
    forall i, j | 0 <= i < j < |r| ensures r[i].0 != r[j].0 {
      assert KeysOf(r)[i] == d[i].0 && KeysOf(r)[j] == d[j].0;
    }
  }

  lemma NewKeyUnique<V>(d: seq<(string, V)>, r: seq<(string, V)>, key: string)
    requires UniqueKeys(d) && forall i :: 0 <= i < |d| ==> d[i].0 != key
    requires KeysOf(r) == KeysOf(d) + [key]
    ensures UniqueKeys(r)
  {
    forall i, j | 0 <= i < j < |r| ensures r[i].0 != r[j].0 {
      assert KeysOf(r)[i] == r[i].0 && KeysOf(r)[j] == r[j].0;
      assert KeysOf(r)[i] == d[i].0;
      if j < |d| {
        assert KeysOf(r)[j] == d[j].0;
      } else {
        assert KeysOf(r)[j] == key;
      }
    }
  }

  /** `dict(pairs)`: the pairs put in turn, so a later pair overrides an earlier one with its key. */
  function FromPairs<V>(pairs: seq<(string, V)>): (r: seq<(string, V)>)
    ensures UniqueKeys(r)
  {
    if pairs == [] then []
    else
      var prefix := FromPairs(pairs[..|pairs| - 1]);
      PutKeepsUniqueKeys(prefix, pairs[|pairs| - 1].0, pairs[|pairs| - 1].1);
      Put(prefix, pairs[|pairs| - 1].0, pairs[|pairs| - 1].1)
  }

  /** Pairs with distinct keys make a dictionary of exactly those pairs, in that order. */
  lemma {:induction false} FromPairsOfUniqueKeys<V>(pairs: seq<(string, V)>)
    requires UniqueKeys(pairs)
    ensures FromPairs(pairs) == pairs
  {
    if pairs != [] {
      var prefix := pairs[..|pairs| - 1];
      var last := pairs[|pairs| - 1];
      assert UniqueKeys(prefix) by {
        forall i, j | 0 <= i < j < |prefix| ensures prefix[i].0 != prefix[j].0 {
          assert prefix[i] == pairs[i] && prefix[j] == pairs[j];
        }
      }
      FromPairsOfUniqueKeys(prefix);
      forall i | 0 <= i < |prefix| ensures prefix[i].0 != last.0 {
        assert prefix[i] == pairs[i];
      }
      FromPairsSnoc(pairs);
      PutNewKey(prefix, last.0, last.1);
      SnocSplit(pairs);
    }
  }

  /** Past a pair with another key, `Put` goes on in the rest. */
  lemma PutCons<V>(d: seq<(string, V)>, key: string, value: V)
    requires d != [] && d[0].0 != key
    ensures Put(d, key, value) == [d[0]] + Put(d[1..], key, value)
  {
  }

  lemma {:induction false} PutNewKey<V>(d: seq<(string, V)>, key: string, value: V)
    requires forall i :: 0 <= i < |d| ==> d[i].0 != key
    ensures Put(d, key, value) == d + [(key, value)]
  {
    if d != [] {
      PutNewKey(d[1..], key, value);
      PutCons(d, key, value);
      AppendCons(d, (key, value));
    }
  }

  /** In a dictionary, the key at position `k` looks up the value there. */
  lemma {:induction false} LookupAt<V>(d: seq<(string, V)>, k: nat)
    requires UniqueKeys(d) && k < |d|
    ensures Lookup(d, d[k].0) == Some(d[k].1)
  {
    if k > 0 {
      assert d[0].0 != d[k].0;
      assert d[1..][k - 1] == d[k];
      LookupAt(d[1..], k - 1);
    }
  }

  /** Dropping the last pair keeps the keys distinct. */
  lemma UniqueKeysPrefix<V>(d: seq<(string, V)>)
    requires UniqueKeys(d) && d != []
    ensures UniqueKeys(d[..|d| - 1])
  {
    var p := d[..|d| - 1];
    forall i, j | 0 <= i < j < |p| ensures p[i].0 != p[j].0 {
      assert p[i] == d[i] && p[j] == d[j];
    }
  }

  /** A dictionary mapping each key of `entries` to `f` of its entry, extended by the last one. */
  lemma SnocShape<A, V>(entries: seq<(string, A)>, m: seq<(string, V)>, r: seq<(string, V)>, f: A -> V)
    requires entries != [] && |m| == |entries| - 1
    requires forall i :: 0 <= i < |m| ==> m[i] == (entries[i].0, f(entries[i].1))
    requires r == m + [(entries[|m|].0, f(entries[|m|].1))]
    ensures |r| == |entries|
    ensures forall i :: 0 <= i < |entries| ==> r[i] == (entries[i].0, f(entries[i].1))
  {
  }

  lemma FromPairsSnoc<V>(pairs: seq<(string, V)>)
    requires pairs != []
    ensures FromPairs(pairs) == Put(FromPairs(pairs[..|pairs| - 1]), pairs[|pairs| - 1].0, pairs[|pairs| - 1].1)
  {
  }

  lemma SnocSplit<T>(s: seq<T>)
    requires s != []
    ensures s == s[..|s| - 1] + [s[|s| - 1]]
  {
  }

  lemma AppendCons<T>(d: seq<T>, x: T)
    requires d != []
    ensures d + [x] == [d[0]] + (d[1..] + [x])
  {
  }

  lemma UpdateCons<T>(d: seq<T>, k: nat, x: T)
    requires 0 < k < |d|
    ensures d[k := x] == [d[0]] + d[1..][k - 1 := x]
  {
  }

  /** Assigning to a key already present replaces its pair where it stands. */
  lemma {:induction false} PutAt<V>(d: seq<(string, V)>, k: nat, value: V)
    requires UniqueKeys(d) && k < |d|
    ensures Put(d, d[k].0, value) == d[k := (d[k].0, value)]
  {
    var key := d[k].0;
    if k > 0 {
      assert d[0].0 != key;
      assert d[1..][k - 1] == d[k];
      PutAt(d[1..], k - 1, value);
      PutCons(d, key, value);
      UpdateCons(d, k, (key, value));
    } else {
      assert Put(d, key, value) == [(key, value)] + d[1..];
    }
  }
}
