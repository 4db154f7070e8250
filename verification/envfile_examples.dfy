/** The worked examples of `env2dict` and `dict2env`, proved for the model. */
module EnvFileExamples {
  import opened Wrappers
  import opened Dicts
  import opened Strings
  import opened EnvFiles

  lemma SplitTwo(a: string, b: string, c: char)
    requires c !in a && c !in b
    ensures Split(a + [c] + b, c) == [a, b]
  {
    assert Join([a, b], c) == a + [c] + b;
    SplitJoin([a, b], c);
  }

  predicate Plain(s: string)
  {
    '=' !in s && '#' !in s && '\n' !in s
  }

  /** `K=V` gives the item (K, V); an empty key, as in "=V", is kept. */
  lemma KeyValueLine(k: string, v: string)
    requires Plain(k) && Plain(v)
    ensures LineItem(k + "=" + v) == Ok(Some((k, v)))
  {
    assert k + "=" + v == k + ['='] + v;
    SplitTwo(k, v, '=');
  }

  lemma ItemsOfSnoc(lines: seq<string>, line: string)
    ensures LineResults(lines + [line]) == LineResults(lines) + [LineItem(line)]
    ensures ItemsOf(lines + [line]) == Collect(LineResults(lines) + [LineItem(line)])
  {
    assert LineResults(lines + [line]) == LineResults(lines) + [LineItem(line)];
  }

  lemma ItemsOfSnocItem(lines: seq<string>, line: string, item: (string, string))
    requires ItemsOf(lines).Ok? && LineItem(line) == Ok(Some(item))
    ensures ItemsOf(lines + [line]) == Ok(ItemsOf(lines).value + [item])
  {
    ItemsOfSnoc(lines, line);
    var rs := LineResults(lines) + [LineItem(line)];
    assert rs[..|lines|] == LineResults(lines);
  }

  lemma ItemsOfOne(l1: string, i1: (string, string))
    requires LineItem(l1) == Ok(Some(i1))
    ensures ItemsOf([l1]) == Ok([i1])
  {
    var none: seq<string> := [];
    assert LineResults(none) == [];
    assert ItemsOf(none) == Ok([]);
    ItemsOfSnocItem(none, l1, i1);
    assert none + [l1] == [l1];
    assert ItemsOf(none).value + [i1] == [i1];
  }

  lemma ItemsOfTwo(l1: string, l2: string, i1: (string, string), i2: (string, string))
    requires LineItem(l1) == Ok(Some(i1)) && LineItem(l2) == Ok(Some(i2))
    ensures ItemsOf([l1, l2]) == Ok([i1, i2])
  {
    ItemsOfOne(l1, i1);
    ItemsOfSnocItem([l1], l2, i2);
    assert [l1] + [l2] == [l1, l2];
    assert [i1] + [i2] == [i1, i2];
  }

  lemma TwoLinesItems(k1: string, v1: string, k2: string, v2: string, text: string)
    requires Plain(k1) && Plain(v1)
    requires Plain(k2) && Plain(v2)
    requires text == k1 + "=" + v1 + "\n" + k2 + "=" + v2
    ensures ItemsOf(Lines(text)) == Ok([(k1, v1), (k2, v2)])
  {
    var l1, l2 := k1 + "=" + v1, k2 + "=" + v2;
    assert text == l1 + ['\n'] + l2;
    SplitTwo(l1, l2, '\n');
    KeyValueLine(k1, v1);
    KeyValueLine(k2, v2);
    ItemsOfTwo(l1, l2, (k1, v1), (k2, v2));
  }

  lemma TwoLines(k1: string, v1: string, k2: string, v2: string, text: string)
    requires Plain(k1) && Plain(v1)
    requires Plain(k2) && Plain(v2)
    requires text == k1 + "=" + v1 + "\n" + k2 + "=" + v2
    ensures ParseEnv(text) == Ok(if k1 == k2 then [(k1, v2)] else [(k1, v1), (k2, v2)])
  {
    TwoLinesItems(k1, v1, k2, v2, text);
    var first := [(k1, v1)];
    var items := [(k1, v1), (k2, v2)];
    assert items[..1] == first && first[..0] == [];
    assert Update([], first) == first;
    assert Update([], items) == Put(first, k2, v2);
    assert ParseEnv(text) == Ok(Update([], items));
    if k1 != k2 {
      PutNew(first, k2, v2);
      assert first + [(k2, v2)] == items;
    } else {
      assert first[1..] == [];
      assert Put(first, k2, v2) == [(k1, v2)];
    }
  }

  lemma Env2DictExample()
    ensures ParseEnv("KEY1=VAL1\nKEY2=VAL2") == Ok([("KEY1", "VAL1"), ("KEY2", "VAL2")])
  {
    TwoLines("KEY1", "VAL1", "KEY2", "VAL2", "KEY1=VAL1\nKEY2=VAL2");
  }

  lemma CommentedLine(line: string)
    requires line != [] && line[0] == '#'
    ensures LineItem(line) == Ok(None)
  {
    assert IndexOf(line, '#') == 0;
  }

  /**
   * A key followed by "=" and a comment: the value is empty. A key ending in
   * whitespace keeps it, as `"K = #x"` gives the key `"K "`.
   */
  lemma KeyThenComment(k: string, c: string, line: string)
    requires Plain(k)
    requires line == k + "= #" + c
    ensures LineItem(line) == Ok(Some((k, "")))
  {
    assert line[|k| + 2] == '#';
    assert line[..|k| + 2] == k + "= ";
    assert IndexOf(line, '#') == |k| + 2 by {
      assert '#' !in line[..|k| + 2];
    }
    var spaced := k + "= ";
    assert spaced[..|spaced| - 1] == k + "=";
    assert TrimEnd(spaced) == k + "=";
    SplitTwo(k, "", '=');
    assert k + ['='] + "" == k + "=";
  }

  lemma TrailingComment()
    ensures LineItem("KEY1= #VAL1") == Ok(Some(("KEY1", "")))
  {
    KeyThenComment("KEY1", "VAL1", "KEY1= #VAL1");
  }

  lemma ItemsOfSkipSecond(l1: string, l2: string, i1: (string, string))
    requires LineItem(l1) == Ok(Some(i1)) && LineItem(l2) == Ok(None)
    ensures ItemsOf([l1, l2]) == Ok([i1])
  {
    ItemsOfOne(l1, i1);
    ItemsOfSnoc([l1], l2);
    assert [l1] + [l2] == [l1, l2];
    var rs := LineResults([l1]) + [LineItem(l2)];
    assert rs[..1] == LineResults([l1]);
  }

  lemma Env2DictCommentExample()
    ensures ParseEnv("KEY1= #VAL1\n#KEY2=VAL2") == Ok([("KEY1", "")])
  {
    var text, l1, l2 := "KEY1= #VAL1\n#KEY2=VAL2", "KEY1= #VAL1", "#KEY2=VAL2";
    assert text == l1 + ['\n'] + l2;
    SplitTwo(l1, l2, '\n');
    TrailingComment();
    CommentedLine(l2);
    ItemsOfSkipSecond(l1, l2, ("KEY1", ""));
    assert [("KEY1", "")][..0] == [];
  }

  lemma Dict2EnvExample()
    ensures Dict2Env([("KEY1", "VAL1"), ("KEY2", "VAL2")]) == ["export KEY1='VAL1'", "export KEY2='VAL2'"]
  {
    assert ExportLine("KEY1", "VAL1") == "export KEY1='VAL1'";
    assert ExportLine("KEY2", "VAL2") == "export KEY2='VAL2'";
  }
}
