/**
 * Python dicts keyed by strings, kept with their insertion order: the searcher's
 * `search_results` and the retriever's `retrieved_chunks` are read back in that order.
 */
module Dicts {
  import opened Wrappers

  /** A dict as its entries in insertion order. */
  type Dict<V> = seq<(string, V)>

  function Keys<V>(d: Dict<V>): (ks: seq<string>)
    ensures |ks| == |d|
    ensures forall i :: 0 <= i < |d| ==> ks[i] == d[i].0
  {
    if d == [] then [] else [d[0].0] + Keys(d[1..])
  }

  predicate UniqueKeys<V>(d: Dict<V>)
  {
    forall i, j :: 0 <= i < j < |d| ==> d[i].0 != d[j].0
  }

  /** `d.get(k)`: the value stored under k, if any. */
  function Get<V>(d: Dict<V>, k: string): (r: Option<V>)
    ensures r.Some? <==> k in Keys(d)
    ensures UniqueKeys(d) ==> forall i :: 0 <= i < |d| && d[i].0 == k ==> r == Some(d[i].1)
  {
    if d == [] then None
    else if d[0].0 == k then Some(d[0].1)
    else Get(d[1..], k)
  }

  /** `d[k] = v`: an existing key keeps its position and takes the new value; a new key goes last. */
  function Put<V>(d: Dict<V>, k: string, v: V): (r: Dict<V>)
    ensures |r| == if k in Keys(d) then |d| else |d| + 1
  {
    if d == [] then [(k, v)]
    else if d[0].0 == k then [(k, v)] + d[1..]
    else [d[0]] + Put(d[1..], k, v)
  }

  lemma {:induction false} PutGet<V>(d: Dict<V>, k: string, v: V, k': string)
    ensures Get(Put(d, k, v), k') == if k' == k then Some(v) else Get(d, k')
  {
    if d != [] && d[0].0 != k {
      PutGet(d[1..], k, v, k');
    }
  }

  lemma {:induction false} PutKeys<V>(d: Dict<V>, k: string, v: V)
    ensures k in Keys(d) ==> Keys(Put(d, k, v)) == Keys(d)
    ensures k !in Keys(d) ==> Put(d, k, v) == d + [(k, v)]
  {
    if k in Keys(d) {
      PutExisting(d, k, v);
    } else {
      PutFresh(d, k, v);
    }
  }

  /** Assigning an existing key leaves the keys, and their order, as they were. */
  lemma {:induction false} PutExisting<V>(d: Dict<V>, k: string, v: V)
    requires k in Keys(d)
    ensures Keys(Put(d, k, v)) == Keys(d)
  {
    assert Keys(d) == [d[0].0] + Keys(d[1..]);
    if d[0].0 == k {
      assert Keys(Put(d, k, v)) == [k] + Keys(d[1..]);
    } else {
      PutExisting(d[1..], k, v);
      assert Keys(Put(d, k, v)) == [d[0].0] + Keys(Put(d[1..], k, v));
    }
  }

  /** Assigning a new key appends an entry. */
  lemma {:induction false} PutFresh<V>(d: Dict<V>, k: string, v: V)
    requires k !in Keys(d)
    ensures Put(d, k, v) == d + [(k, v)]
  {
    if d != [] {
      assert Keys(d) == [d[0].0] + Keys(d[1..]);
      PutFresh(d[1..], k, v);
      assert d == [d[0]] + d[1..];
    }
  }

  lemma {:induction false} PutUnique<V>(d: Dict<V>, k: string, v: V)
    requires UniqueKeys(d)
    ensures UniqueKeys(Put(d, k, v))
  {
    PutKeys(d, k, v);
    var r := Put(d, k, v);
    if k in Keys(d) {
      assert Keys(r) == Keys(d);
      forall i, j | 0 <= i < j < |r| ensures r[i].0 != r[j].0 {
        assert Keys(r)[i] == Keys(d)[i] && Keys(r)[j] == Keys(d)[j];
      }
    } else {
      forall i, j | 0 <= i < j < |r| ensures r[i].0 != r[j].0 {
        if j == |d| {
          assert Keys(d)[i] == d[i].0;
        }
      }
    }
  }

  /** The dict obtained from `{}` by assigning `entries` one after the other. */
  function Assigned<V>(entries: seq<(string, V)>): (d: Dict<V>)
    ensures UniqueKeys(d)
  {
    if entries == [] then []
    else
      var n := |entries| - 1;
      var prev := Assigned(entries[..n]);
      PutUnique(prev, entries[n].0, entries[n].1);
      Put(prev, entries[n].0, entries[n].1)
  }

  /** Every assigned key is present, and nothing else is. */
  lemma {:induction false} AssignedKeys<V>(entries: seq<(string, V)>, k: string)
    ensures k in Keys(Assigned(entries)) <==> k in Keys(entries)
  {
    if entries != [] {
      var n := |entries| - 1;
      var prev := Assigned(entries[..n]);
      var e := entries[n];
      AssignedKeys(entries[..n], k);
      assert Assigned(entries) == Put(prev, e.0, e.1);
      PutKeys(prev, e.0, e.1);
      assert entries[..n] + [e] == entries;
      KeysSnoc(entries[..n], e);
      InSnoc(Keys(entries[..n]), e.0, k);
      if e.0 in Keys(prev) {
        assert k == e.0 ==> k in Keys(prev);
      } else {
        KeysSnoc(prev, e);
        InSnoc(Keys(prev), e.0, k);
      }
    }
  }

  lemma {:induction false} InSnoc(s: seq<string>, x: string, k: string)
    ensures k in s + [x] <==> k in s || k == x
  {
    assert (s + [x])[|s|] == x;
    assert forall i :: 0 <= i < |s| ==> (s + [x])[i] == s[i];
  }

  lemma {:induction false} KeysSnoc<V>(d: Dict<V>, e: (string, V))
    ensures Keys(d + [e]) == Keys(d) + [e.0]
  {
  }

  /** The value of the last entry whose key is k: the one a later assignment leaves in place. */
  function LastValue<V>(entries: seq<(string, V)>, k: string): Option<V>
  {
    if entries == [] then None
    else
      var n := |entries| - 1;
      if entries[n].0 == k then Some(entries[n].1) else LastValue(entries[..n], k)
  }

  /** Reading a key back gives the last value assigned to it. */
  lemma {:induction false} AssignedGet<V>(entries: seq<(string, V)>, k: string)
    ensures Get(Assigned(entries), k) == LastValue(entries, k)
  {
    if entries != [] {
      var n := |entries| - 1;
      AssignedGet(entries[..n], k);
      PutGet(Assigned(entries[..n]), entries[n].0, entries[n].1, k);
    }
  }

  /** When no key is assigned twice, the dict holds the entries exactly, in assignment order. */
  lemma {:induction false} AssignedDistinct<V>(entries: seq<(string, V)>)
    requires UniqueKeys(entries)
    ensures Assigned(entries) == entries
  {
    if entries != [] {
      var n := |entries| - 1;
      var prefix := entries[..n];
      assert UniqueKeys(prefix);
      AssignedDistinct(prefix);
      PutKeys(prefix, entries[n].0, entries[n].1);
      assert prefix + [entries[n]] == entries;
    }
  }
}
