/**
 * `yaml_dict_merge(a, b)`: merges tree `b` into tree `a`, dispatching on the
 * type of `a`. The Python code updates `a` in place and returns it; every
 * caller uses the returned value, so the merge is modelled as a function
 * returning the merged tree or the error it raises.
 */
module Merging {
  import opened Wrappers
  import opened Dicts
  import opened Trees

  datatype MergeError =
    /** ValueError: 'Cannot merge non-dict "b" with dict "a"'. */
    | NotMergeable(b: Tree, a: Tree)
    /** NotImplementedError: 'Merging "type(a)" with "type(b)" is not implemented.' */
    | NotImplemented(aType: string, bType: string)

  function Merge(a: Tree, b: Tree): (r: Result<Tree, MergeError>)
    ensures r.Ok? && a.Map? ==> b.Map? && r.value.Map? && Keys(r.value.entries) == Keys(a.entries) + Keys(b.entries)
    decreases b, if b.Map? then |b.entries| + 1 else 0
  {
    if IsScalar(a) then
      if Truthy(b) then Ok(b)
      else if b == Bool(false) then Ok(b)
      else Ok(a)
    else if a.List? then
      if b.List? then Ok(List(a.items + b.items)) else Ok(List(a.items + [b]))
    else if a.Map? then
      if b.Map? then
        match MergeItems(a.entries, b, 0)
        case Ok(entries) => Ok(Map(entries))
        case Err(e) => Err(e)
      else Err(NotMergeable(b, a))
    else Err(NotImplemented(TypeName(a), TypeName(b)))
  }

  /**
   * The loop `for key in b: ...` from the `i`-th key of `b` on, with `acc`
   * the dictionary `a` as updated by the keys before it.
   */
  function MergeItems(acc: Dict<Tree>, b: Tree, i: nat): (r: Result<Dict<Tree>, MergeError>)
    requires b.Map? && i <= |b.entries|
    ensures r.Ok? ==> Keys(r.value) == Keys(acc) + Keys(b.entries[i..])
    decreases b, |b.entries| - i
  {
    if i == |b.entries| then Ok(acc)
    else
      var (k, v) := b.entries[i];
      assert b.entries[i..][1..] == b.entries[i + 1..];
      if k in Keys(acc) then
        match Merge(Get(acc, k), v)
        case Err(e) => Err(e)
        case Ok(m) => MergeItems(Put(acc, k, m), b, i + 1)
      else MergeItems(Put(acc, k, v), b, i + 1)
  }

  /**
   * Independent description of when the merge succeeds: `a` is not of an
   * unsupported type, and where `a` is a dictionary `b` is one too and every
   * key they share holds mergeable values.
   */
  predicate Compatible(a: Tree, b: Tree)
    decreases b
  {
    match a
    case Other(_, _) => false
    case Map(es) =>
      b.Map? && forall i :: 0 <= i < |b.entries| && b.entries[i].0 in Keys(es) ==>
        Compatible(Get(es, b.entries[i].0), b.entries[i].1)
    case _ => true
  }

  /** A scalar is replaced by a truthy `b` or by `False`, and kept otherwise. */
  lemma MergeScalar(a: Tree, b: Tree)
    requires IsScalar(a)
    ensures Truthy(b) ==> Merge(a, b) == Ok(b)
    ensures Merge(a, Bool(false)) == Ok(Bool(false))
    ensures !Truthy(b) && b != Bool(false) ==> Merge(a, b) == Ok(a)
    ensures Merge(a, Null) == Ok(a)
  {
  }

  /** A list is extended by a list and gets any other `b` as one more element. */
  lemma MergeList(a: Tree, b: Tree)
    requires a.List?
    ensures Merge(a, b).Ok? && Merge(a, b).value.List?
    ensures b.List? ==> Merge(a, b).value.items == a.items + b.items
    ensures b.List? ==> |Merge(a, b).value.items| == |a.items| + |b.items|
    ensures !b.List? ==> Merge(a, b).value.items == a.items + [b]
  {
  }

  /** The two ways the merge fails at the top level. */
  lemma MergeRejects(a: Tree, b: Tree)
    ensures a.Map? && !b.Map? ==> Merge(a, b) == Err(NotMergeable(b, a))
    ensures a.Other? ==> Merge(a, b) == Err(NotImplemented(TypeName(a), TypeName(b)))
  {
  }

  lemma SuffixStep(es: Dict<Tree>, i: nat)
    requires i < |es|
    ensures es[i..][0] == es[i] && es[i..][1..] == es[i + 1..]
    ensures Keys(es[i..]) == {es[i].0} + Keys(es[i + 1..])
    ensures forall k :: k in Keys(es[i + 1..]) && k != es[i].0 ==> Get(es[i..], k) == Get(es[i + 1..], k)
    ensures Distinct(es[i..]) ==> es[i].0 !in Keys(es[i + 1..]) && Distinct(es[i + 1..])
    ensures es[i].0 in Keys(es[i..]) && Get(es[i..], es[i].0) == es[i].1
  {
    assert es[i..][1..] == es[i + 1..];
  }

  /**
   * What the dictionary loop produces, for every key: a key of `b` that the
   * dictionary already has holds the merge of both values, a new key of `b`
   * holds `b`'s value, and any other key keeps its value.
   */
  lemma {:induction false} MergeItemsValues(acc: Dict<Tree>, b: Tree, i: nat)
    requires b.Map? && i <= |b.entries| && Distinct(b.entries[i..])
    requires MergeItems(acc, b, i).Ok?
    ensures var r := MergeItems(acc, b, i).value;
      && (forall k :: k in Keys(b.entries[i..]) && k in Keys(acc) ==>
            k in Keys(r) && Merge(Get(acc, k), Get(b.entries[i..], k)) == Ok(Get(r, k)))
      && (forall k :: k in Keys(b.entries[i..]) && k !in Keys(acc) ==>
            k in Keys(r) && Get(r, k) == Get(b.entries[i..], k))
      && (forall k :: k in Keys(acc) && k !in Keys(b.entries[i..]) ==>
            k in Keys(r) && Get(r, k) == Get(acc, k))
    decreases |b.entries| - i
  {
    if i < |b.entries| {
      var (k0, v0) := b.entries[i];
      SuffixStep(b.entries, i);
      var m := if k0 in Keys(acc) then Merge(Get(acc, k0), v0).value else v0;
      var acc' := Put(acc, k0, m);
      assert MergeItems(acc, b, i) == MergeItems(acc', b, i + 1);
      MergeItemsValues(acc', b, i + 1);
      GetPutSame(acc, k0, m);
      forall k | k in Keys(acc) && k != k0
        ensures k in Keys(acc') && Get(acc', k) == Get(acc, k)
      {
        GetPutOther(acc, k0, m, k);
      }
    }
  }

  /** The dictionary loop succeeds exactly when every shared key merges. */
  lemma {:induction false} MergeItemsOk(acc: Dict<Tree>, b: Tree, i: nat)
    requires b.Map? && i <= |b.entries| && Distinct(b.entries[i..])
    ensures MergeItems(acc, b, i).Ok? <==>
      forall j :: i <= j < |b.entries| && b.entries[j].0 in Keys(acc) ==>
        Merge(Get(acc, b.entries[j].0), b.entries[j].1).Ok?
    decreases |b.entries| - i
  {
    if i < |b.entries| {
      var (k0, v0) := b.entries[i];
      SuffixStep(b.entries, i);
      if k0 in Keys(acc) && Merge(Get(acc, k0), v0).Err? {
      } else {
        var m := if k0 in Keys(acc) then Merge(Get(acc, k0), v0).value else v0;
        var acc' := Put(acc, k0, m);
        assert MergeItems(acc, b, i) == MergeItems(acc', b, i + 1);
        MergeItemsOk(acc', b, i + 1);
        forall j | i < j < |b.entries|
          ensures b.entries[j].0 != k0
          ensures b.entries[j].0 in Keys(acc') <==> b.entries[j].0 in Keys(acc)
          ensures b.entries[j].0 in Keys(acc) ==> Get(acc', b.entries[j].0) == Get(acc, b.entries[j].0)
        {
          KeysIndex(b.entries[i + 1..], b.entries[j].0);
          assert b.entries[i + 1..][j - i - 1] == b.entries[j];
          if b.entries[j].0 in Keys(acc) {
            GetPutOther(acc, k0, m, b.entries[j].0);
          }
        }
      }
    }
  }

  /**
   * Merging two dictionaries: the keys are the union; a shared key holds the
   * recursive merge, a key only in `b` holds `b`'s value unchanged, a key
   * only in `a` keeps `a`'s value.
   */
  lemma MergeDicts(a: Tree, b: Tree)
    requires a.Map? && b.Map? && Distinct(b.entries)
    requires Merge(a, b).Ok?
    ensures var r := Merge(a, b).value;
      && r.Map?
      && Keys(r.entries) == Keys(a.entries) + Keys(b.entries)
      && (forall k :: k in Keys(a.entries) && k in Keys(b.entries) ==>
            Merge(Get(a.entries, k), Get(b.entries, k)) == Ok(Get(r.entries, k)))
      && (forall k :: k in Keys(b.entries) && k !in Keys(a.entries) ==>
            Get(r.entries, k) == Get(b.entries, k))
      && (forall k :: k in Keys(a.entries) && k !in Keys(b.entries) ==>
            Get(r.entries, k) == Get(a.entries, k))
  {
    assert b.entries[0..] == b.entries;
    MergeItemsValues(a.entries, b, 0);
  }

  /** Two dictionaries merge exactly when every key they share merges. */
  lemma MergeDictsOk(a: Tree, b: Tree)
    requires a.Map? && b.Map? && Distinct(b.entries)
    ensures Merge(a, b).Ok? <==>
      forall k :: k in Keys(a.entries) && k in Keys(b.entries) ==>
        Merge(Get(a.entries, k), Get(b.entries, k)).Ok?
  {
    assert b.entries[0..] == b.entries;
    MergeItemsOk(a.entries, b, 0);
    forall k | k in Keys(a.entries) && k in Keys(b.entries)
      ensures exists j :: 0 <= j < |b.entries| && b.entries[j].0 == k && b.entries[j].1 == Get(b.entries, k)
    {
      GetIndex(b.entries, k);
    }
    forall j | 0 <= j < |b.entries| ensures b.entries[j].0 in Keys(b.entries) && Get(b.entries, b.entries[j].0) == b.entries[j].1 {
      KeysIndex(b.entries, b.entries[j].0);
      GetOfDistinct(b.entries, j);
    }
  }

  /** The merge succeeds exactly on compatible trees. */
  lemma {:induction false} MergeOkIff(a: Tree, b: Tree)
    requires WellFormed(b)
    ensures Merge(a, b).Ok? <==> Compatible(a, b)
    decreases b
  {
    if a.Map? && b.Map? {
      var es, bs := a.entries, b.entries;
      MergeDictsOk(a, b);
      if Compatible(a, b) {
        forall k | k in Keys(es) && k in Keys(bs) ensures Merge(Get(es, k), Get(bs, k)).Ok? {
          GetIndex(bs, k);
          var j :| 0 <= j < |bs| && bs[j].0 == k && bs[j].1 == Get(bs, k);
          MergeOkIff(Get(es, k), bs[j].1);
        }
      } else {
        var j :| 0 <= j < |bs| && bs[j].0 in Keys(es) && !Compatible(Get(es, bs[j].0), bs[j].1);
        GetOfDistinct(bs, j);
        MergeOkIff(Get(es, bs[j].0), bs[j].1);
      }
    }
  }

  /**
   * The merge seen along one path of keys that `b` has: where `a` has a
   * value too, the result holds the merge of the two values; where `a` has
   * none, or a scalar on the way, the result holds `b`'s value.
   */
  lemma {:induction false} MergeAt(a: Tree, b: Tree, p: seq<string>)
    requires WellFormed(b) && Merge(a, b).Ok?
    requires At(b, p).Some? && ListFree(a, p)
    ensures At(a, p).Some? ==> Merge(At(a, p).value, At(b, p).value).Ok?
    ensures At(Merge(a, b).value, p) ==
      if At(a, p).Some? then Some(Merge(At(a, p).value, At(b, p).value).value) else At(b, p)
    decreases |p|
  {
    if p != [] {
      var k := p[0];
      if a.Map? {
        MergeDicts(a, b);
        WellFormedGet(b.entries, k);
        if k in Keys(a.entries) {
          MergeAt(Get(a.entries, k), Get(b.entries, k), p[1..]);
        }
      } else {
        assert Truthy(b);
      }
    }
  }
}
