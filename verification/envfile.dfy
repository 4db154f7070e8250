/**
 * The two dotenv transforms: `env2dict` parses `KEY=value` lines into a
 * dictionary and `dict2env` renders a dictionary as `export KEY='value'`
 * lines.
 */
module EnvFiles {
  import opened Wrappers
  import opened Dicts
  import opened Strings

  /** ValueError raised by `key, value = line.split("=")` on `fields` pieces. */
  datatype EnvError = UnpackError(line: string, fields: nat)

  /** `s` without its trailing whitespace. */
  function TrimEnd(s: string): (r: string)
    ensures |r| <= |s| && r == s[..|r|]
    ensures forall i :: |r| <= i < |s| ==> IsSpace(s[i])
    ensures r == [] || !IsSpace(r[|r| - 1])
  {
    if s != [] && IsSpace(s[|s| - 1]) then TrimEnd(s[..|s| - 1]) else s
  }

  /** `re.sub("\s*#.*", "", line)` on a line without a newline. */
  function StripComment(line: string): string
  {
    if '#' in line then TrimEnd(line[..IndexOf(line, '#')]) else line
  }

  /**
   * What the substitution removes: nothing from a line without '#';
   * otherwise the first '#', everything after it, and the whitespace
   * immediately before it, so that what is left has no '#' and does not
   * end in whitespace.
   */
  lemma StripCommentRemoves(line: string)
    ensures '#' !in line ==> StripComment(line) == line
    ensures '#' in line ==>
      var r, h := StripComment(line), IndexOf(line, '#');
      && |r| <= h && r == line[..|r|] && line[h] == '#'
      && (forall i :: |r| <= i < h ==> IsSpace(line[i]))
      && '#' !in r
      && (r == [] || !IsSpace(r[|r| - 1]))
  {
    if '#' in line {
      var h := IndexOf(line, '#');
      var pre := line[..h];
      var r := TrimEnd(pre);
      assert StripComment(line) == r;
      assert forall i :: 0 <= i < h ==> pre[i] == line[i];
      assert forall i :: 0 <= i < |r| ==> r[i] == pre[i];
      assert '#' !in pre;
    }
  }

  /** What one line contributes: nothing, a key/value item, or the unpack error. */
  type LineResult = Result<Option<(string, string)>, EnvError>

  /** One line of the loop body. */
  function LineItem(line: string): LineResult
  {
    var stripped := StripComment(line);
    if stripped == [] then Ok(None)
    else
      var parts := Split(stripped, '=');
      if |parts| == 2 then Ok(Some((parts[0], parts[1])))
      else Err(UnpackError(stripped, |parts|))
  }

  /** A line that survives comment stripping must hold exactly one '='. */
  lemma LineItemOk(line: string)
    ensures LineItem(line).Ok? <==>
      (StripComment(line) == [] || Count(StripComment(line), '=') == 1)
  {
    SplitCount(StripComment(line), '=');
  }

  /** The results of the lines, one per line. */
  function LineResults(lines: seq<string>): (rs: seq<LineResult>)
    ensures |rs| == |lines| && forall j :: 0 <= j < |lines| ==> rs[j] == LineItem(lines[j])
  {
    seq(|lines|, j requires 0 <= j < |lines| => LineItem(lines[j]))
  }

  /** The items of a sequence of line results, in order, or the first error. */
  function Collect(rs: seq<LineResult>): Result<Dict<string>, EnvError>
    decreases |rs|
  {
    if rs == [] then Ok([])
    else
      var n := |rs| - 1;
      match Collect(rs[..n])
      case Err(e) => Err(e)
      case Ok(items) =>
        match rs[n]
        case Err(e) => Err(e)
        case Ok(None) => Ok(items)
        case Ok(Some(item)) => Ok(items + [item])
  }

  /** The items of a sequence of lines, in order, or the error of the first bad line. */
  function ItemsOf(lines: seq<string>): Result<Dict<string>, EnvError>
  {
    Collect(LineResults(lines))
  }

  /** `env_data.split("\n")`. */
  function Lines(envData: string): seq<string>
  {
    Split(envData, '\n')
  }

  /** `env2dict(env_data)`, as a function of the text. */
  function ParseEnv(envData: string): Result<Dict<string>, EnvError>
  {
    match ItemsOf(Lines(envData))
    case Ok(items) => Ok(Update([], items))
    case Err(e) => Err(e)
  }

  /** The line result is an item with key `k`. */
  predicate Gives(r: LineResult, k: string)
  {
    r.Ok? && r.value.Some? && r.value.value.0 == k
  }

  /** The line defines key `k`. */
  predicate Defines(line: string, k: string)
  {
    Gives(LineItem(line), k)
  }

  /** The loop of `env2dict`: split on newlines, strip comments, put each item. */
  method Env2Dict(envData: string) returns (r: Result<Dict<string>, EnvError>)
    ensures r == ParseEnv(envData)
  {
    var dictData: Dict<string> := [];
    var lineData := Lines(envData);
    ghost var rs := LineResults(lineData);
    for i := 0 to |lineData|
      invariant Collect(rs[..i]).Ok?
      invariant dictData == Update([], Collect(rs[..i]).value)
    {
      CollectStep(rs, i);
      var line := StripComment(lineData[i]);
      if line != [] {
        var parts := Split(line, '=');
        if |parts| != 2 {
          CollectFirstError(rs, i);
          return Err(UnpackError(line, |parts|));
        }
        UpdateSnoc([], Collect(rs[..i]).value, parts[0], parts[1]);
        dictData := Put(dictData, parts[0], parts[1]);
      }
    }
    assert rs[..|lineData|] == rs;
    return Ok(dictData);
  }

  /** One more line: its item is appended, or its error ends the parse. */
  lemma CollectStep(rs: seq<LineResult>, i: nat)
    requires i < |rs| && Collect(rs[..i]).Ok?
    ensures Collect(rs[..i + 1]) ==
      match rs[i]
      case Err(e) => Err(e)
      case Ok(None) => Collect(rs[..i])
      case Ok(Some(item)) => Ok(Collect(rs[..i]).value + [item])
  {
    assert rs[..i + 1][..i] == rs[..i];
  }

  /** Once a line fails, the whole parse fails with that line's error. */
  lemma {:induction false} CollectFirstError(rs: seq<LineResult>, i: nat)
    requires i < |rs| && Collect(rs[..i]).Ok? && rs[i].Err?
    ensures Collect(rs) == Err(rs[i].error)
    decreases |rs|
  {
    var n := |rs| - 1;
    if i == n {
      assert rs[..n] == rs[..i];
    } else {
      assert rs[..n][..i] == rs[..i];
      CollectFirstError(rs[..n], i);
    }
  }

  /** The parse succeeds exactly when every line does. */
  lemma {:induction false} CollectOk(rs: seq<LineResult>)
    ensures Collect(rs).Ok? <==> forall j :: 0 <= j < |rs| ==> rs[j].Ok?
    decreases |rs|
  {
    if rs != [] {
      var n := |rs| - 1;
      CollectOk(rs[..n]);
      assert forall j :: 0 <= j < n ==> rs[..n][j] == rs[j];
    }
  }

  /** The last line result adds its key, if it gives one. */
  lemma CollectLastKeys(rs: seq<LineResult>)
    requires rs != [] && Collect(rs).Ok?
    ensures var n := |rs| - 1;
      && Collect(rs[..n]).Ok?
      && Keys(Update([], Collect(rs).value)) ==
         Keys(Update([], Collect(rs[..n]).value)) + (if rs[n].value.Some? then {rs[n].value.value.0} else {})
  {
    var n := |rs| - 1;
    var prev := Collect(rs[..n]).value;
    if rs[n].value.Some? {
      var item := rs[n].value.value;
      UpdateSnoc([], prev, item.0, item.1);
    }
  }

  /** The keys of the parsed dictionary are the keys that some line gives. */
  lemma {:induction false} CollectKeys(rs: seq<LineResult>, k: string)
    requires Collect(rs).Ok?
    ensures k in Keys(Update([], Collect(rs).value)) <==>
      exists j :: 0 <= j < |rs| && Gives(rs[j], k)
    decreases |rs|
  {
    if rs != [] {
      var n := |rs| - 1;
      CollectLastKeys(rs);
      CollectKeys(rs[..n], k);
      assert forall j :: 0 <= j < n ==> rs[..n][j] == rs[j];
    }
  }

  /** The last line that gives a key gives its value. */
  lemma {:induction false} CollectLastWins(rs: seq<LineResult>, k: string, j: nat)
    requires Collect(rs).Ok?
    requires j < |rs| && Gives(rs[j], k)
    requires forall j' :: j < j' < |rs| ==> !Gives(rs[j'], k)
    ensures k in Keys(Update([], Collect(rs).value))
    ensures Get(Update([], Collect(rs).value), k) == rs[j].value.value.1
    decreases |rs|
  {
    var n := |rs| - 1;
    var prev := Collect(rs[..n]).value;
    if j == n {
      var item := rs[n].value.value;
      assert (prev + [item])[..|prev|] == prev;
      GetPutSame(Update([], prev), k, item.1);
    } else {
      CollectLastWins(rs[..n], k, j);
      if rs[n].value.Some? {
        var item := rs[n].value.value;
        assert (prev + [item])[..|prev|] == prev;
        GetPutOther(Update([], prev), item.0, item.1, k);
      }
    }
  }

  /** `env2dict` succeeds exactly when every line does. */
  lemma ParseEnvOk(envData: string)
    ensures ParseEnv(envData).Ok? <==>
      forall j :: 0 <= j < |Lines(envData)| ==> LineItem(Lines(envData)[j]).Ok?
  {
    var rs := LineResults(Lines(envData));
    CollectOk(rs);
    assert ParseEnv(envData).Ok? <==> Collect(rs).Ok?;
  }

  /** The keys `env2dict` returns are the keys some line defines. */
  lemma ParseEnvKeys(envData: string, k: string)
    requires ParseEnv(envData).Ok?
    ensures k in Keys(ParseEnv(envData).value) <==>
      exists j :: 0 <= j < |Lines(envData)| && Defines(Lines(envData)[j], k)
  {
    var lines := Lines(envData);
    var rs := LineResults(lines);
    assert ParseEnv(envData).value == Update([], Collect(rs).value);
    CollectKeys(rs, k);
    assert forall j :: 0 <= j < |lines| ==> (Defines(lines[j], k) <==> Gives(rs[j], k));
  }

  /** The last line defining a key gives its value in what `env2dict` returns. */
  lemma ParseEnvLastWins(envData: string, k: string, j: nat)
    requires ParseEnv(envData).Ok?
    requires j < |Lines(envData)| && Defines(Lines(envData)[j], k)
    requires forall j' :: j < j' < |Lines(envData)| ==> !Defines(Lines(envData)[j'], k)
    ensures k in Keys(ParseEnv(envData).value)
    ensures Get(ParseEnv(envData).value, k) == LineItem(Lines(envData)[j]).value.value.1
  {
    var lines := Lines(envData);
    var rs := LineResults(lines);
    assert ParseEnv(envData).value == Update([], Collect(rs).value);
    CollectLastWins(rs, k, j);
  }

  /** `export KEY='value'`, with no escaping. */
  function ExportLine(key: string, value: string): string
  {
    "export " + key + "='" + value + "'"
  }

  /**
   * `dict2env(secret_data)`, by definition: one export line per item, in
   * dictionary order. `ExportLineRoundTrip` states what a line promises.
   */
  function Dict2Env(secretData: Dict<string>): (lines: seq<string>)
    ensures |lines| == |secretData|
    ensures forall i :: 0 <= i < |lines| ==> lines[i] == ExportLine(secretData[i].0, secretData[i].1)
  {
    seq(|secretData|, i requires 0 <= i < |secretData| => ExportLine(secretData[i].0, secretData[i].1))
  }

  /** Reads an export line back: the key runs up to the first '='. */
  function ParseExportLine(line: string): Option<(string, string)>
  {
    if |line| < 7 || line[..7] != "export " || '=' !in line[7..] then None
    else
      var rest := line[7..];
      var eq := IndexOf(rest, '=');
      var quoted := rest[eq + 1..];
      if |quoted| >= 2 && quoted[0] == '\'' && quoted[|quoted| - 1] == '\''
      then Some((rest[..eq], quoted[1..|quoted| - 1]))
      else None
  }

  /** An export line gives back its key and value when the key has no '='. */
  lemma ExportLineRoundTrip(key: string, value: string)
    requires '=' !in key
    ensures ParseExportLine(ExportLine(key, value)) == Some((key, value))
  {
    var quoted := "'" + value + "'";
    var rest := key + ['='] + quoted;
    var line := ExportLine(key, value);
    assert line == "export " + rest;
    assert line[..7] == "export " && line[7..] == rest;
    IndexOfAfter(key, '=', quoted);
    assert rest[..|key|] == key && rest[|key| + 1..] == quoted;
    assert quoted[1..|quoted| - 1] == value;
  }
}
