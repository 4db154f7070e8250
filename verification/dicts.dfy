/**
 * Python dictionaries as the program uses them: insertion-ordered maps from
 * string keys to values. A dictionary is the sequence of its items in
 * iteration order; `Put` is `d[k] = v` (an existing key keeps its position,
 * a new key is appended) and `Update` is `d.update(e)`.
 */
module Dicts {

  type Dict<V> = seq<(string, V)>

  /** The key set of a dictionary. */
  function Keys<V>(d: Dict<V>): set<string>
  {
    if d == [] then {} else {d[0].0} + Keys(d[1..])
  }

  /** The keys in iteration order. */
  function KeyList<V>(d: Dict<V>): seq<string>
  {
    if d == [] then [] else [d[0].0] + KeyList(d[1..])
  }

  /** No key occurs twice, as in every Python dictionary. */
  predicate Distinct<V>(d: Dict<V>)
  {
    d == [] || (d[0].0 !in Keys(d[1..]) && Distinct(d[1..]))
  }

  /** `d[k]`. */
  function Get<V>(d: Dict<V>, k: string): V
    requires k in Keys(d)
  {
    if d[0].0 == k then d[0].1 else Get(d[1..], k)
  }

  /** `d[k] = v`: replaces the value in place, or appends a new item. */
  function Put<V>(d: Dict<V>, k: string, v: V): (r: Dict<V>)
    ensures Keys(r) == Keys(d) + {k}
    ensures |r| == if k in Keys(d) then |d| else |d| + 1
  {
    if d == [] then [(k, v)]
    else if d[0].0 == k then [(k, v)] + d[1..]
    else [d[0]] + Put(d[1..], k, v)
  }

  /** `d.update(e)`: the items of `e` are put into `d` one after the other. */
  function Update<V>(d: Dict<V>, e: Dict<V>): (r: Dict<V>)
    decreases |e|
  {
    if e == [] then d
    else
      var n := |e| - 1;
      Put(Update(d, e[..n]), e[n].0, e[n].1)
  }

  lemma {:induction false} KeysIndex<V>(d: Dict<V>, k: string)
    ensures k in Keys(d) <==> exists i :: 0 <= i < |d| && d[i].0 == k
  {
    if d != [] {
      KeysIndex(d[1..], k);
      if k in Keys(d[1..]) {
        var i :| 0 <= i < |d[1..]| && d[1..][i].0 == k;
        assert d[i + 1].0 == k;
      }
      forall i | 1 <= i < |d| && d[i].0 == k ensures k in Keys(d[1..]) {
        assert d[1..][i - 1].0 == k;
      }
    }
  }

  lemma {:induction false} KeyListKeys<V>(d: Dict<V>)
    ensures |KeyList(d)| == |d|
    ensures forall i :: 0 <= i < |d| ==> KeyList(d)[i] == d[i].0
    ensures forall k :: k in KeyList(d) <==> k in Keys(d)
  {
    if d != [] {
      KeyListKeys(d[1..]);
    }
  }

  lemma {:induction false} KeysSnoc<V>(d: Dict<V>, k: string, v: V)
    ensures Keys(d + [(k, v)]) == Keys(d) + {k}
  {
    if d != [] {
      assert (d + [(k, v)])[1..] == d[1..] + [(k, v)];
      KeysSnoc(d[1..], k, v);
    }
  }

  lemma KeysPrefix<V>(d: Dict<V>)
    requires d != []
    ensures Keys(d) == Keys(d[..|d| - 1]) + {d[|d| - 1].0}
  {
    assert d == d[..|d| - 1] + [d[|d| - 1]];
    KeysSnoc(d[..|d| - 1], d[|d| - 1].0, d[|d| - 1].1);
  }

  /** A put key reads back as the put value. */
  lemma {:induction false} GetPutSame<V>(d: Dict<V>, k: string, v: V)
    ensures k in Keys(Put(d, k, v)) && Get(Put(d, k, v), k) == v
  {
    if d != [] && d[0].0 != k {
      GetPutSame(d[1..], k, v);
    }
  }

  /** Putting one key leaves every other key's value alone. */
  lemma {:induction false} GetPutOther<V>(d: Dict<V>, k: string, v: V, k': string)
    requires k' != k && k' in Keys(d)
    ensures k' in Keys(Put(d, k, v)) && Get(Put(d, k, v), k') == Get(d, k')
  {
    if d[0].0 != k && d[0].0 != k' {
      GetPutOther(d[1..], k, v, k');
    }
  }

  /** Putting a present key keeps the key order; a new key goes last. */
  lemma {:induction false} KeyListPut<V>(d: Dict<V>, k: string, v: V)
    ensures KeyList(Put(d, k, v)) == if k in Keys(d) then KeyList(d) else KeyList(d) + [k]
  {
    if d != [] && d[0].0 != k {
      KeyListPut(d[1..], k, v);
    }
  }

  /** Putting into a dictionary keeps its keys distinct. */
  lemma {:induction false} DistinctPut<V>(d: Dict<V>, k: string, v: V)
    requires Distinct(d)
    ensures Distinct(Put(d, k, v))
  {
    if d != [] && d[0].0 != k {
      DistinctPut(d[1..], k, v);
    }
  }

  /** The key set of `d.update(e)` is the union of both key sets. */
  lemma {:induction false} UpdateKeys<V>(d: Dict<V>, e: Dict<V>)
    ensures Keys(Update(d, e)) == Keys(d) + Keys(e)
    decreases |e|
  {
    if e != [] {
      UpdateKeys(d, e[..|e| - 1]);
      KeysPrefix(e);
    }
  }

  /** In `d.update(e)` the last item of `e` with key `k` decides the value of `k`. */
  lemma {:induction false} UpdateLastWins<V>(d: Dict<V>, e: Dict<V>, k: string, j: nat)
    requires j < |e| && e[j].0 == k
    requires forall j' :: j < j' < |e| ==> e[j'].0 != k
    ensures k in Keys(Update(d, e)) && Get(Update(d, e), k) == e[j].1
    decreases |e|
  {
    var n := |e| - 1;
    if j == n {
      GetPutSame(Update(d, e[..n]), k, e[n].1);
    } else {
      UpdateLastWins(d, e[..n], k, j);
      GetPutOther(Update(d, e[..n]), e[n].0, e[n].1, k);
    }
  }

  /** Keys that `e` does not mention keep their value in `d.update(e)`. */
  lemma {:induction false} UpdateUntouched<V>(d: Dict<V>, e: Dict<V>, k: string)
    requires k in Keys(d) && k !in Keys(e)
    ensures k in Keys(Update(d, e)) && Get(Update(d, e), k) == Get(d, k)
    decreases |e|
  {
    if e != [] {
      var n := |e| - 1;
      KeysPrefix(e);
      UpdateUntouched(d, e[..n], k);
      UpdateKeys(d, e[..n]);
      GetPutOther(Update(d, e[..n]), e[n].0, e[n].1, k);
    }
  }

  /** `d.update(e)` keeps the keys of `d` distinct. */
  lemma {:induction false} DistinctUpdate<V>(d: Dict<V>, e: Dict<V>)
    requires Distinct(d)
    ensures Distinct(Update(d, e))
    decreases |e|
  {
    if e != [] {
      DistinctUpdate(d, e[..|e| - 1]);
      DistinctPut(Update(d, e[..|e| - 1]), e[|e| - 1].0, e[|e| - 1].1);
    }
  }

  /** Putting a new key appends it. */
  lemma {:induction false} PutNew<V>(d: Dict<V>, k: string, v: V)
    requires k !in Keys(d)
    ensures Put(d, k, v) == d + [(k, v)]
  {
    if d != [] {
      PutNew(d[1..], k, v);
    }
  }

  /** A key of a distinct dictionary does not occur before its own position. */
  lemma {:induction false} DistinctPrefix<V>(d: Dict<V>, i: nat)
    requires Distinct(d) && i < |d|
    ensures d[i].0 !in Keys(d[..i])
  {
    if i > 0 {
      assert d[..i][1..] == d[1..][..i - 1];
      DistinctPrefix(d[1..], i - 1);
      assert d[i].0 != d[0].0 by {
        KeysIndex(d[1..], d[i].0);
        assert d[1..][i - 1] == d[i];
      }
    }
  }

  /** The first item with a key is the one `d[k]` reads and `d[k] = v` replaces. */
  lemma {:induction false} FirstWithKey<V>(d: Dict<V>, j: nat, v: V)
    requires j < |d| && forall i :: 0 <= i < j ==> d[i].0 != d[j].0
    ensures d[j].0 in Keys(d) && Get(d, d[j].0) == d[j].1
    ensures Put(d, d[j].0, v) == d[j := (d[j].0, v)]
  {
    if j > 0 {
      assert forall i :: 0 <= i < j - 1 ==> d[1..][i] == d[i + 1];
      FirstWithKey(d[1..], j - 1, v);
      assert d[1..][j - 1] == d[j];
      assert [d[0]] + d[1..][j - 1 := (d[j].0, v)] == d[j := (d[j].0, v)];
    }
  }

  /** A key no item has is not a key. */
  lemma NotAKey<V>(d: Dict<V>, k: string)
    requires forall i :: 0 <= i < |d| ==> d[i].0 != k
    ensures k !in Keys(d)
  {
    KeysIndex(d, k);
  }

  /** `d[k]` is the value of an item with key `k`. */
  lemma {:induction false} GetIndex<V>(d: Dict<V>, k: string)
    requires k in Keys(d)
    ensures exists j :: 0 <= j < |d| && d[j].0 == k && d[j].1 == Get(d, k)
  {
    if d[0].0 != k {
      GetIndex(d[1..], k);
      var j :| 0 <= j < |d[1..]| && d[1..][j].0 == k && d[1..][j].1 == Get(d[1..], k);
      assert d[j + 1] == d[1..][j];
    }
  }

  /** In a distinct dictionary every item is what `d[k]` reads. */
  lemma {:induction false} GetOfDistinct<V>(d: Dict<V>, j: nat)
    requires Distinct(d) && j < |d|
    ensures d[j].0 in Keys(d) && Get(d, d[j].0) == d[j].1
  {
    if j > 0 {
      GetOfDistinct(d[1..], j - 1);
      assert d[1..][j - 1] == d[j];
    }
  }

  /** In `d.update(e)` every key of `e` reads as it does in `e`. */
  lemma UpdateGet<V>(d: Dict<V>, e: Dict<V>, k: string)
    requires Distinct(e) && k in Keys(e)
    ensures k in Keys(Update(d, e)) && Get(Update(d, e), k) == Get(e, k)
  {
    GetIndex(e, k);
    var j :| 0 <= j < |e| && e[j].0 == k && e[j].1 == Get(e, k);
    forall j' | j < j' < |e| ensures e[j'].0 != k {
      DistinctPrefix(e, j');
      KeysIndex(e[..j'], k);
      assert e[..j'][j] == e[j];
    }
    UpdateLastWins(d, e, k, j);
  }

  /** `d.update(e + [(k, v)])` is `d.update(e)` followed by `d[k] = v`. */
  lemma UpdateSnoc<V>(d: Dict<V>, e: Dict<V>, k: string, v: V)
    ensures Update(d, e + [(k, v)]) == Put(Update(d, e), k, v)
  {
    assert (e + [(k, v)])[..|e|] == e;
  }

  /**
   * Copying the items of a distinct dictionary one by one: the next key is
   * new, so putting it appends it.
   */
  lemma PutNext<V, U>(copy: Dict<U>, d: Dict<V>, i: nat, v: U)
    requires Distinct(d) && i < |d| && Keys(copy) == Keys(d[..i])
    ensures Put(copy, d[i].0, v) == copy + [(d[i].0, v)]
    ensures Keys(copy + [(d[i].0, v)]) == Keys(d[..i + 1])
  {
    DistinctPrefix(d, i);
    PutNew(copy, d[i].0, v);
    KeysPrefix(d[..i + 1]);
    assert d[..i + 1][..i] == d[..i];
  }
}
