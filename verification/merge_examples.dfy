/** The worked examples of `yaml_dict_merge`, proved for the model. */
module MergeExamples {
  import opened Wrappers
  import opened Dicts
  import opened Trees
  import opened Merging

  function One(k: string, v: Tree): Tree
  {
    Map([(k, v)])
  }

  /** Two single-key dictionaries with the same key merge at that key. */
  lemma MergeSameKey(k: string, a: Tree, b: Tree)
    ensures Merge(One(k, a), One(k, b)) ==
      match Merge(a, b)
      case Ok(m) => Ok(One(k, m))
      case Err(e) => Err(e)
  {
    var bt := One(k, b);
    var acc := [(k, a)];
    assert k in Keys(acc) && Get(acc, k) == a;
    assert bt.entries[0] == (k, b) && |bt.entries| == 1;
    if Merge(a, b).Ok? {
      var m := Merge(a, b).value;
      assert Put(acc, k, m) == [(k, m)];
      assert MergeItems(acc, bt, 0) == MergeItems([(k, m)], bt, 1);
    } else {
      assert MergeItems(acc, bt, 0) == Err(Merge(a, b).error);
    }
  }

  lemma MergeErrorExamples()
    ensures Merge(One("a", One("1", Int(1))), One("a", List([Int(4), Int(5)])))
      == Err(NotMergeable(List([Int(4), Int(5)]), One("1", Int(1))))
    ensures Merge(One("a", Other("set", [Int(1), Int(2)])), One("a", List([Int(4), Int(5)])))
      == Err(NotImplemented("<class 'set'>", "<class 'list'>"))
  {
    MergeSameKey("a", One("1", Int(1)), List([Int(4), Int(5)]));
    MergeSameKey("a", Other("set", [Int(1), Int(2)]), List([Int(4), Int(5)]));
    assert TypeName(Other("set", [Int(1), Int(2)])) == "<class 'set'>";
  }

  /** `b`-only keys are added after the keys of `a`. */
  lemma MergeDictNewKey()
    ensures Merge(One("a", Int(1)), One("b", Int(2))) == Ok(Map([("a", Int(1)), ("b", Int(2))]))
  {
    var b := One("b", Int(2));
    assert Keys([("a", Int(1))]) == {"a"};
    assert Put([("a", Int(1))], "b", Int(2)) == [("a", Int(1)), ("b", Int(2))];
    assert MergeItems([("a", Int(1)), ("b", Int(2))], b, 1) == Ok([("a", Int(1)), ("b", Int(2))]);
  }

  /** A shared scalar key takes the value of `b`. */
  lemma MergeDictSharedKey()
    ensures Merge(One("a", Int(1)), One("a", Int(2))) == Ok(One("a", Int(2)))
  {
    MergeSameKey("a", Int(1), Int(2));
  }

  lemma MergeInnerDict()
    ensures Merge(One("c", Int(1)), Map([("c", Int(2)), ("d", Int(3))])) == Ok(Map([("c", Int(2)), ("d", Int(3))]))
  {
    var cd := Map([("c", Int(2)), ("d", Int(3))]);
    MergeSameKey("c", Int(1), Int(2));
    assert MergeItems([("c", Int(1))], cd, 0) == MergeItems([("c", Int(2))], cd, 1);
    assert Keys([("c", Int(2))]) == {"c"};
    assert Put([("c", Int(2))], "d", Int(3)) == [("c", Int(2)), ("d", Int(3))];
    assert MergeItems([("c", Int(2)), ("d", Int(3))], cd, 2) == Ok([("c", Int(2)), ("d", Int(3))]);
  }

  /** A shared dictionary key is merged recursively. */
  lemma MergeDictNested()
    ensures Merge(One("a", One("c", Int(1))), One("a", Map([("c", Int(2)), ("d", Int(3))])))
      == Ok(One("a", Map([("c", Int(2)), ("d", Int(3))])))
  {
    MergeInnerDict();
    MergeSameKey("a", One("c", Int(1)), Map([("c", Int(2)), ("d", Int(3))]));
  }

  lemma MergeListExamples()
    ensures Merge(One("a", List([Int(1), Int(2)])), One("a", List([Int(3), Int(4)])))
      == Ok(One("a", List([Int(1), Int(2), Int(3), Int(4)])))
    ensures Merge(One("a", List([Int(1), Int(2)])), One("a", Int(3)))
      == Ok(One("a", List([Int(1), Int(2), Int(3)])))
  {
    MergeSameKey("a", List([Int(1), Int(2)]), List([Int(3), Int(4)]));
    assert [Int(1), Int(2)] + [Int(3), Int(4)] == [Int(1), Int(2), Int(3), Int(4)];
    MergeSameKey("a", List([Int(1), Int(2)]), Int(3));
    assert [Int(1), Int(2)] + [Int(3)] == [Int(1), Int(2), Int(3)];
  }

  lemma MergeScalarExamples()
    ensures Merge(One("a", Int(1)), One("a", Null)) == Ok(One("a", Int(1)))
    ensures Merge(One("a", Int(1)), One("a", Bool(false))) == Ok(One("a", Bool(false)))
    ensures Merge(One("a", Null), One("a", Bool(true))) == Ok(One("a", Bool(true)))
    ensures Merge(One("a", Bool(true)), One("a", Null)) == Ok(One("a", Bool(true)))
  {
    MergeSameKey("a", Int(1), Null);
    MergeSameKey("a", Int(1), Bool(false));
    MergeSameKey("a", Null, Bool(true));
    MergeSameKey("a", Bool(true), Null);
  }
}
