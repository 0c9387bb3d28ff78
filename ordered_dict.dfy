/**
  An insertion-ordered dictionary with string keys: a Python dict or a
  JavaScript object. Assigning an existing key replaces its value where it
  stands; assigning a new key appends it. Key order matters downstream:
  Object.keys(code)[0] picks the page's default language.
*/
module OrderedDict {
  import opened Wrappers

  type Dict<V> = seq<(string, V)>

  /** dict.keys() / Object.keys(), in insertion order. */
  function Keys<V>(d: Dict<V>): (ks: seq<string>)
    ensures |ks| == |d|
    ensures forall i :: 0 <= i < |d| ==> ks[i] == d[i].0
  {
    if d == [] then [] else [d[0].0] + Keys(d[1..])
  }

  /** d.get(k): the value of the first entry with key k. */
  function Get<V>(d: Dict<V>, k: string): Option<V>
  {
    if d == [] then None else if d[0].0 == k then Some(d[0].1) else Get(d[1..], k)
  }

  /** A key has a value exactly when it is among the keys. */
  lemma {:induction false} GetSomeIffKey<V>(d: Dict<V>, k: string)
    ensures Get(d, k).Some? <==> k in Keys(d)
  {
    if d != [] && d[0].0 != k {
      GetSomeIffKey(d[1..], k);
      assert Keys(d) == [d[0].0] + Keys(d[1..]);
    }
  }

  /** d[k] = v */
  function Put<V>(d: Dict<V>, k: string, v: V): (r: Dict<V>)
    ensures Get(r, k) == Some(v)
    ensures forall k' :: k' != k ==> Get(r, k') == Get(d, k')
  {
    if d == [] then [(k, v)]
    else if d[0].0 == k then [(k, v)] + d[1..]
    else [d[0]] + Put(d[1..], k, v)
  }

  /** Assigning an existing key keeps the key order; a new key goes last. */
  lemma {:induction false} PutKeys<V>(d: Dict<V>, k: string, v: V)
    ensures Keys(Put(d, k, v)) == if k in Keys(d) then Keys(d) else Keys(d) + [k]
  {
    if d != [] && d[0].0 != k {
      PutKeys(d[1..], k, v);
      assert Keys(d) == [d[0].0] + Keys(d[1..]);
    }
  }

  /** No key appears twice, as in any real dict. */
  predicate DistinctKeys<V>(d: Dict<V>) {
    forall i, j :: 0 <= i < j < |d| ==> d[i].0 != d[j].0
  }

  lemma PutKeepsDistinct<V>(d: Dict<V>, k: string, v: V)
    requires DistinctKeys(d)
    ensures DistinctKeys(Put(d, k, v))
  {
    var r := Put(d, k, v);
    var kr, kd := Keys(r), Keys(d);
    PutKeys(d, k, v);
    forall i, j | 0 <= i < j < |r| ensures r[i].0 != r[j].0 {
      assert kr[i] == r[i].0 && kr[j] == r[j].0;
      if k in kd {
        assert kr[i] == kd[i] && kr[j] == kd[j];
      } else if j < |d| {
        assert kr[i] == kd[i] && kr[j] == kd[j];
      } else {
        assert kr[j] == k && kr[i] == kd[i];
      }
    }
  }

  /** Get looks past a prefix that does not hold the key. */
  lemma {:induction false} GetSkipsPrefix<V>(d: Dict<V>, n: nat, k: string)
    requires n <= |d|
    requires forall j :: 0 <= j < n ==> d[j].0 != k
    ensures Get(d, k) == Get(d[n..], k)
  {
    if n > 0 {
      GetSkipsPrefix(d[1..], n - 1, k);
      assert d[1..][n - 1..] == d[n..];
    }
  }

  /** Assigning the entries one after the other, as consecutive
      `d[key] = value` statements do. */
  function PutAll<V>(d: Dict<V>, entries: Dict<V>): Dict<V>
  {
    if entries == [] then d
    else
      var n := |entries| - 1;
      Put(PutAll(d, entries[..n]), entries[n].0, entries[n].1)
  }

  /** One assignment more is one Put more. */
  lemma PutAllSnoc<V>(d: Dict<V>, entries: Dict<V>, k: string, v: V)
    ensures PutAll(d, entries + [(k, v)]) == Put(PutAll(d, entries), k, v)
  {
    assert (entries + [(k, v)])[..|entries|] == entries;
  }

  /** Assignments keep the existing keys at the front, in their order. */
  lemma {:induction false} PutAllKeepsKeyOrder<V>(d: Dict<V>, entries: Dict<V>)
    ensures Keys(d) <= Keys(PutAll(d, entries))
  {
    if entries != [] {
      var n := |entries| - 1;
      PutAllKeepsKeyOrder(d, entries[..n]);
      PutKeys(PutAll(d, entries[..n]), entries[n].0, entries[n].1);
    }
  }

  /** A key no assignment names keeps its value. */
  lemma {:induction false} PutAllOther<V>(d: Dict<V>, entries: Dict<V>, k: string)
    requires forall i :: 0 <= i < |entries| ==> entries[i].0 != k
    ensures Get(PutAll(d, entries), k) == Get(d, k)
  {
    if entries != [] {
      PutAllOther(d, entries[..|entries| - 1], k);
    }
  }

  /** A key ends up with the value of the last assignment to it. */
  lemma {:induction false} PutAllLastWins<V>(d: Dict<V>, entries: Dict<V>, i: nat)
    requires i < |entries|
    requires forall j :: i < j < |entries| ==> entries[j].0 != entries[i].0
    ensures Get(PutAll(d, entries), entries[i].0) == Some(entries[i].1)
  {
    var n := |entries| - 1;
    if i < n {
      var prefix := entries[..n];
      assert prefix[i] == entries[i];
      forall j | i < j < n ensures prefix[j].0 != prefix[i].0 {
        assert prefix[j] == entries[j];
      }
      PutAllLastWins(d, prefix, i);
    }
  }

  /** Assigning into a dictionary without repeated keys keeps it so. */
  lemma {:induction false} PutAllKeepsDistinct<V>(d: Dict<V>, entries: Dict<V>)
    requires DistinctKeys(d)
    ensures DistinctKeys(PutAll(d, entries))
  {
    if entries != [] {
      var n := |entries| - 1;
      PutAllKeepsDistinct(d, entries[..n]);
      PutKeepsDistinct(PutAll(d, entries[..n]), entries[n].0, entries[n].1);
    }
  }

  lemma InAppendOne(s: seq<string>, e: string, k: string)
    ensures k in s + [e] <==> k in s || k == e
  {
    assert (s + [e])[|s|] == e;
    if k in s {
      var i :| 0 <= i < |s| && s[i] == k;
      assert (s + [e])[i] == k;
    }
  }

  /** The keys of the entries but the last, then the last one's. */
  lemma KeysSnoc<V>(entries: Dict<V>)
    requires entries != []
    ensures Keys(entries) == Keys(entries[..|entries| - 1]) + [entries[|entries| - 1].0]
  {
  }

  /** After the assignments, a key has a value exactly when it had one before
      or some assignment names it. */
  lemma {:induction false} PutAllKeys<V>(d: Dict<V>, entries: Dict<V>, k: string)
    ensures Get(PutAll(d, entries), k).Some? <==> Get(d, k).Some? || k in Keys(entries)
  {
    if entries != [] {
      var n := |entries| - 1;
      PutAllKeys(d, entries[..n], k);
      KeysSnoc(entries);
      InAppendOne(Keys(entries[..n]), entries[n].0, k);
    }
  }
}
