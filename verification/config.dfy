/**
 * `configure`: the configuration is the bundled logging defaults merged with
 * the base defaults, then with every non-empty configuration source in
 * order, then with the overlay built from the `VAULTIFY_*` environment
 * variables. Loading the YAML files is not modelled: the loaded documents
 * are an input sequence of trees, and the environment is a map from
 * variable name to value.
 */
module Config {
  import opened Wrappers
  import opened Dicts
  import opened Trees
  import opened Merging

  /** `ETC_DEFAULT_CONFIG`. */
  const EtcDefaultConfig := "/etc/default/vaultify.yml"

  /** An f-string renders a missing value as `None`. */
  function Rendered(value: Option<string>): string
  {
    if value.Some? then value.value else "None"
  }

  /**
   * `CFG_DEFAULT_FILES` for the given `HOME` and `PWD`: the system file, the
   * user's file and the working directory's file, in that order, so that a
   * later, more local file takes precedence in the fold.
   */
  function DefaultFiles(home: Option<string>, pwd: Option<string>): (files: seq<string>)
    ensures |files| == 3 && files[0] == EtcDefaultConfig
    ensures forall i :: 1 <= i < 3 ==> |files[i]| >= 14 && files[i][|files[i]| - 14..] == "/.vaultify.yml"
    ensures files[1][..|files[1]| - 14] == Rendered(home)
    ensures files[2][..|files[2]| - 14] == Rendered(pwd)
  {
    var name := "/.vaultify.yml";
    assert |name| == 14;
    Halves(Rendered(home), name);
    Halves(Rendered(pwd), name);
    [EtcDefaultConfig, Rendered(home) + name, Rendered(pwd) + name]
  }

  lemma Halves(a: string, b: string)
    ensures (a + b)[..|a|] == a && (a + b)[|a|..] == b
  {
  }

  // BASE_CFG

  const BaseConsole := Map([("level", Str("DEBUG"))])
  const BaseFile := Map([("level", Str("DEBUG")), ("filename", Str("./vaultify.log"))])
  const BaseHandlers := Map([("console", BaseConsole), ("file", BaseFile)])
  const BaseCfg := Map([("vaultify", Map([])), ("handlers", BaseHandlers), ("loggers", Map([]))])

  // LOG_CFG

  const SimpleFormatter := Map([
    ("class", Str("logging.Formatter")),
    ("format", Str("[%(levelname)-5.5s] [%(name)-20.20s] - %(message)s"))])
  const ExtendedFormatter := Map([
    ("class", Str("logging.Formatter")),
    ("format", Str("[%(asctime)s] [%(name)-20.20s] [%(levelname)-5.5s]  %(message)s"))])
  const LogConsole := Map([
    ("class", Str("logging.StreamHandler")),
    ("level", Str("DEBUG")),
    ("stream", Str("ext://sys.stdout")),
    ("formatter", Str("simple"))])
  const LogFile := Map([
    ("class", Str("logging.FileHandler")),
    ("level", Str("DEBUG")),
    ("filename", Str("./debug.log")),
    ("mode", Str("w")),
    ("formatter", Str("extended"))])
  const LogHandlers := Map([("console", LogConsole), ("file", LogFile)])
  const RootLogger := Map([
    ("level", Str("DEBUG")),
    ("handlers", List([Str("console"), Str("file")])),
    ("propagate", Bool(true))])
  const LogLoggers := Map([("", RootLogger)])
  const LogCfg := Map([
    ("version", Int(1)),
    ("formatters", Map([("simple", SimpleFormatter), ("extended", ExtendedFormatter)])),
    ("handlers", LogHandlers),
    ("loggers", LogLoggers)])

  // The merge of the two: LOG_CFG with the file handler writing to
  // ./vaultify.log and an empty `vaultify` section appended.

  const DefaultFile := Map([
    ("class", Str("logging.FileHandler")),
    ("level", Str("DEBUG")),
    ("filename", Str("./vaultify.log")),
    ("mode", Str("w")),
    ("formatter", Str("extended"))])
  const DefaultHandlers := Map([("console", LogConsole), ("file", DefaultFile)])
  const DefaultCfg := Map([
    ("version", Int(1)),
    ("formatters", Map([("simple", SimpleFormatter), ("extended", ExtendedFormatter)])),
    ("handlers", DefaultHandlers),
    ("loggers", LogLoggers),
    ("vaultify", Map([]))])

  lemma MergeItemsShared(acc: Dict<Tree>, b: Tree, i: nat, m: Tree)
    requires b.Map? && i < |b.entries| && b.entries[i].0 in Keys(acc)
    requires Merge(Get(acc, b.entries[i].0), b.entries[i].1) == Ok(m)
    ensures MergeItems(acc, b, i) == MergeItems(Put(acc, b.entries[i].0, m), b, i + 1)
  {
  }

  lemma MergeItemsNew(acc: Dict<Tree>, b: Tree, i: nat)
    requires b.Map? && i < |b.entries| && b.entries[i].0 !in Keys(acc)
    ensures MergeItems(acc, b, i) == MergeItems(acc + [b.entries[i]], b, i + 1)
  {
    PutNew(acc, b.entries[i].0, b.entries[i].1);
  }

  /** A key of `b` met first at position `j` of the result so far: merged in place. */
  lemma MergeItemsAt(acc: Dict<Tree>, b: Tree, i: nat, j: nat, m: Tree)
    requires FirstKey(acc, j) && b.Map? && i < |b.entries| && b.entries[i].0 == acc[j].0
    requires Merge(acc[j].1, b.entries[i].1) == Ok(m)
    ensures MergeItems(acc, b, i) == MergeItems(acc[j := (acc[j].0, m)], b, i + 1)
  {
    FirstWithKey(acc, j, m);
    MergeItemsShared(acc, b, i, m);
  }

  /** The last key of `b`, met first at position `j`: merged in place, and done. */
  lemma MergeItemsLast(acc: Dict<Tree>, b: Tree, i: nat, j: nat, m: Tree)
    requires FirstKey(acc, j) && b.Map? && i + 1 == |b.entries| && b.entries[i].0 == acc[j].0
    requires Merge(acc[j].1, b.entries[i].1) == Ok(m)
    ensures MergeItems(acc, b, i) == Ok(acc[j := (acc[j].0, m)])
  {
    MergeItemsAt(acc, b, i, j, m);
  }

  lemma ConsoleFirst()
    ensures FirstKey(LogConsole.entries, 1) && |BaseConsole.entries| == 1
    ensures BaseConsole.entries[0] == LogConsole.entries[1] == ("level", Str("DEBUG"))
    ensures LogConsole.entries[1 := ("level", Str("DEBUG"))] == LogConsole.entries
  {
    assert "class"[0] != "level"[0];
  }

  lemma MergeConsole()
    ensures Merge(LogConsole, BaseConsole) == Ok(LogConsole)
  {
    ConsoleFirst();
    MergeScalar(Str("DEBUG"), Str("DEBUG"));
    MergeItemsLast(LogConsole.entries, BaseConsole, 0, 1, Str("DEBUG"));
  }

  lemma FileFirst()
    ensures FirstKey(LogFile.entries, 1) && FirstKey(LogFile.entries, 2) && |BaseFile.entries| == 2
    ensures BaseFile.entries[0] == LogFile.entries[1] == ("level", Str("DEBUG"))
    ensures LogFile.entries[1 := ("level", Str("DEBUG"))] == LogFile.entries
    ensures BaseFile.entries[1] == ("filename", Str("./vaultify.log"))
    ensures LogFile.entries[2] == ("filename", Str("./debug.log"))
    ensures LogFile.entries[2 := ("filename", Str("./vaultify.log"))] == DefaultFile.entries
  {
    assert "class"[0] != "level"[0];
  }

  lemma MergeFileLevel()
    ensures MergeItems(LogFile.entries, BaseFile, 0) == MergeItems(LogFile.entries, BaseFile, 1)
  {
    FileFirst();
    MergeScalar(Str("DEBUG"), Str("DEBUG"));
    MergeItemsAt(LogFile.entries, BaseFile, 0, 1, Str("DEBUG"));
  }

  lemma MergeFileName()
    ensures MergeItems(LogFile.entries, BaseFile, 1) == Ok(DefaultFile.entries)
  {
    FileFirst();
    MergeScalar(Str("./debug.log"), Str("./vaultify.log"));
    MergeItemsLast(LogFile.entries, BaseFile, 1, 2, Str("./vaultify.log"));
  }

  lemma MergeFile()
    ensures Merge(LogFile, BaseFile) == Ok(DefaultFile)
  {
    MergeFileLevel();
    MergeFileName();
  }

  lemma HandlersConsoleFirst()
    ensures FirstKey(LogHandlers.entries, 0) && BaseHandlers.entries[0].0 == LogHandlers.entries[0].0
    ensures LogHandlers.entries[0].1 == LogConsole && BaseHandlers.entries[0].1 == BaseConsole
    ensures LogHandlers.entries[0 := ("console", LogConsole)] == LogHandlers.entries
  {
  }

  lemma MergeHandlersConsole()
    ensures MergeItems(LogHandlers.entries, BaseHandlers, 0) == MergeItems(LogHandlers.entries, BaseHandlers, 1)
  {
    HandlersConsoleFirst();
    MergeConsole();
    MergeItemsAt(LogHandlers.entries, BaseHandlers, 0, 0, LogConsole);
  }

  lemma HandlersFileFirst()
    ensures FirstKey(LogHandlers.entries, 1) && BaseHandlers.entries[1].0 == LogHandlers.entries[1].0
    ensures LogHandlers.entries[1].1 == LogFile && BaseHandlers.entries[1].1 == BaseFile
    ensures LogHandlers.entries[1 := ("file", DefaultFile)] == DefaultHandlers.entries
  {
  }

  lemma MergeHandlersFile()
    ensures MergeItems(LogHandlers.entries, BaseHandlers, 1) == Ok(DefaultHandlers.entries)
  {
    HandlersFileFirst();
    MergeFile();
    MergeItemsLast(LogHandlers.entries, BaseHandlers, 1, 1, DefaultFile);
  }

  lemma MergeHandlers()
    ensures Merge(LogHandlers, BaseHandlers) == Ok(DefaultHandlers)
  {
    MergeHandlersConsole();
    MergeHandlersFile();
  }

  lemma MergeDefaultsVaultify()
    ensures MergeItems(LogCfg.entries, BaseCfg, 0) == MergeItems(LogCfg.entries + [("vaultify", Map([]))], BaseCfg, 1)
  {
    assert "vaultify"[0] != "handlers"[0];
    NotAKey(LogCfg.entries, "vaultify");
    MergeItemsNew(LogCfg.entries, BaseCfg, 0);
  }

  lemma DefaultsHandlersFirst()
    ensures var acc := LogCfg.entries + [("vaultify", Map([]))];
      && FirstKey(acc, 2) && BaseCfg.entries[1].0 == acc[2].0
      && acc[2].1 == LogHandlers && BaseCfg.entries[1].1 == BaseHandlers
      && acc[2 := ("handlers", DefaultHandlers)] == DefaultCfg.entries
  {
  }

  lemma MergeDefaultsHandlers()
    ensures MergeItems(LogCfg.entries + [("vaultify", Map([]))], BaseCfg, 1)
      == MergeItems(DefaultCfg.entries, BaseCfg, 2)
  {
    DefaultsHandlersFirst();
    MergeHandlers();
    MergeItemsAt(LogCfg.entries + [("vaultify", Map([]))], BaseCfg, 1, 2, DefaultHandlers);
  }

  lemma DefaultsLoggersFirst()
    ensures FirstKey(DefaultCfg.entries, 3) && |BaseCfg.entries| == 3
    ensures BaseCfg.entries[2] == ("loggers", Map([])) && DefaultCfg.entries[3] == ("loggers", LogLoggers)
    ensures DefaultCfg.entries[3 := ("loggers", LogLoggers)] == DefaultCfg.entries
  {
    assert "loggers"[0] != "version"[0];
  }

  lemma MergeDefaultsLoggers()
    ensures MergeItems(DefaultCfg.entries, BaseCfg, 2) == Ok(DefaultCfg.entries)
  {
    DefaultsLoggersFirst();
    assert Merge(LogLoggers, Map([])) == Ok(LogLoggers);
    MergeItemsLast(DefaultCfg.entries, BaseCfg, 2, 3, LogLoggers);
  }

  /** `yaml_dict_merge(LOG_CFG, BASE_CFG)`. */
  lemma MergeDefaults()
    ensures Merge(LogCfg, BaseCfg) == Ok(DefaultCfg)
  {
    MergeDefaultsVaultify();
    MergeDefaultsHandlers();
    MergeDefaultsLoggers();
  }

  // ENV_CFG

  /** `os.environ.get(name)`: the value, or None when the variable is unset. */
  function EnvValue(environ: map<string, string>, name: string): Tree
  {
    if name in environ then Str(environ[name]) else Null
  }

  /** `ENV_CFG` as built from the environment `environ`. */
  function EnvCfg(environ: map<string, string>): Tree
  {
    var level := EnvValue(environ, "VAULTIFY_LOG_LEVEL");
    Map([
      ("vaultify", Map([
        ("provider", Map([
          ("class", EnvValue(environ, "VAULTIFY_PROVIDER")),
          ("args", Map([("secret", EnvValue(environ, "VAULTIFY_SECRET"))]))])),
        ("consumer", Map([
          ("class", EnvValue(environ, "VAULTIFY_CONSUMER")),
          ("args", Map([("path", EnvValue(environ, "VAULTIFY_DESTINATION"))]))]))])),
      ("handlers", Map([
        ("console", Map([("level", level)])),
        ("file", Map([("level", level), ("filename", EnvValue(environ, "VAULTIFY_LOG_FILE"))]))])),
      ("loggers", Map([("", Map([("level", level)]))]))])
  }

  /** Each leaf of `ENV_CFG`: its path of keys and the variable it reads. */
  const EnvLeaves: seq<(seq<string>, string)> := [
    (["vaultify", "provider", "class"], "VAULTIFY_PROVIDER"),
    (["vaultify", "provider", "args", "secret"], "VAULTIFY_SECRET"),
    (["vaultify", "consumer", "class"], "VAULTIFY_CONSUMER"),
    (["vaultify", "consumer", "args", "path"], "VAULTIFY_DESTINATION"),
    (["handlers", "console", "level"], "VAULTIFY_LOG_LEVEL"),
    (["handlers", "file", "level"], "VAULTIFY_LOG_LEVEL"),
    (["handlers", "file", "filename"], "VAULTIFY_LOG_FILE"),
    (["loggers", "", "level"], "VAULTIFY_LOG_LEVEL")]

  /** The three places `VAULTIFY_LOG_LEVEL` sets. */
  const LogLevelLeaves: set<nat> := {4, 5, 7}

  lemma WellFormedOne(k: string, v: Tree)
    requires WellFormed(v)
    ensures WellFormed(Map([(k, v)]))
  {
    assert WellFormedItems([(k, v)]);
  }

  lemma WellFormedTwo(k1: string, v1: Tree, k2: string, v2: Tree)
    requires k1 != k2 && WellFormed(v1) && WellFormed(v2)
    ensures WellFormed(Map([(k1, v1), (k2, v2)]))
  {
    var es := [(k1, v1), (k2, v2)];
    var rest := [(k2, v2)];
    assert es[1..] == rest && rest[1..] == [];
    assert Keys(rest) == {k2} + Keys(rest[1..]);
    assert Distinct(rest);
    assert Distinct(es);
    assert forall i :: 0 <= i < |es| ==> WellFormed(es[i].1);
  }

  lemma WellFormedThree(k1: string, v1: Tree, k2: string, v2: Tree, k3: string, v3: Tree)
    requires k1 != k2 && k1 != k3 && k2 != k3
    requires WellFormed(v1) && WellFormed(v2) && WellFormed(v3)
    ensures WellFormed(Map([(k1, v1), (k2, v2), (k3, v3)]))
  {
    var es := [(k1, v1), (k2, v2), (k3, v3)];
    WellFormedTwo(k2, v2, k3, v3);
    assert es[1..] == [(k2, v2), (k3, v3)];
    var last := [(k3, v3)];
    assert es[1..][1..] == last && last[1..] == [];
    assert Keys(last) == {k3} + Keys(last[1..]);
    assert Keys(es[1..]) == {k2} + Keys(last);
    assert Distinct(es);
    assert forall i :: 0 <= i < |es| ==> WellFormed(es[i].1);
  }

  lemma EnvVaultifyWellFormed(e: map<string, string>)
    ensures WellFormed(EnvCfg(e).entries[0].1)
  {
    assert "provider"[0] != "consumer"[0];
    assert "class"[0] != "args"[0];
    WellFormedOne("secret", EnvValue(e, "VAULTIFY_SECRET"));
    WellFormedOne("path", EnvValue(e, "VAULTIFY_DESTINATION"));
    var provider := Map([("class", EnvValue(e, "VAULTIFY_PROVIDER")), ("args", Map([("secret", EnvValue(e, "VAULTIFY_SECRET"))]))]);
    var consumer := Map([("class", EnvValue(e, "VAULTIFY_CONSUMER")), ("args", Map([("path", EnvValue(e, "VAULTIFY_DESTINATION"))]))]);
    WellFormedTwo("class", EnvValue(e, "VAULTIFY_PROVIDER"), "args", Map([("secret", EnvValue(e, "VAULTIFY_SECRET"))]));
    WellFormedTwo("class", EnvValue(e, "VAULTIFY_CONSUMER"), "args", Map([("path", EnvValue(e, "VAULTIFY_DESTINATION"))]));
    WellFormedTwo("provider", provider, "consumer", consumer);
  }

  lemma EnvLoggingWellFormed(e: map<string, string>)
    ensures WellFormed(EnvCfg(e).entries[1].1) && WellFormed(EnvCfg(e).entries[2].1)
  {
    var level := EnvValue(e, "VAULTIFY_LOG_LEVEL");
    assert "level"[0] != "filename"[0];
    WellFormedOne("level", level);
    WellFormedTwo("level", level, "filename", EnvValue(e, "VAULTIFY_LOG_FILE"));
    var console := Map([("level", level)]);
    var file := Map([("level", level), ("filename", EnvValue(e, "VAULTIFY_LOG_FILE"))]);
    WellFormedTwo("console", console, "file", file);
    WellFormedOne("", console);
  }

  /** The overlay's dictionaries have distinct keys. */
  lemma EnvCfgWellFormed(environ: map<string, string>)
    ensures WellFormed(EnvCfg(environ))
  {
    var es := EnvCfg(environ).entries;
    EnvVaultifyWellFormed(environ);
    EnvLoggingWellFormed(environ);
    assert "vaultify"[0] != "handlers"[0];
    assert "loggers"[0] != "vaultify"[0];
    WellFormedThree(es[0].0, es[0].1, es[1].0, es[1].1, es[2].0, es[2].1);
    assert es == [(es[0].0, es[0].1), (es[1].0, es[1].1), (es[2].0, es[2].1)];
  }

  /** The step of `At` into a dictionary whose `j`-th item is the first with its key. */
  lemma AtStep(es: Dict<Tree>, j: nat, p: seq<string>)
    requires j < |es| && forall i :: 0 <= i < j ==> es[i].0 != es[j].0
    ensures At(Map(es), [es[j].0] + p) == At(es[j].1, p)
  {
    FirstWithKey(es, j, es[j].1);
    assert ([es[j].0] + p)[1..] == p;
  }

  /** Four steps of `At` through first-with-key items. */
  lemma AtFour(t: Tree, h: nat, i: nat, j: nat, k: nat)
    requires t.Map? && FirstKey(t.entries, h)
    requires var u := t.entries[h].1;
      && u.Map? && FirstKey(u.entries, i)
      && u.entries[i].1.Map? && FirstKey(u.entries[i].1.entries, j)
      && u.entries[i].1.entries[j].1.Map? && FirstKey(u.entries[i].1.entries[j].1.entries, k)
    ensures var u := t.entries[h].1; var a := u.entries[i]; var b := a.1.entries[j]; var c := b.1.entries[k];
      At(t, [t.entries[h].0, a.0, b.0, c.0]) == Some(c.1)
  {
    var u := t.entries[h].1;
    var a := u.entries[i];
    var b := a.1.entries[j];
    var c := b.1.entries[k];
    AtThree(u, i, j, k);
    AtStep(t.entries, h, [a.0, b.0, c.0]);
    assert [t.entries[h].0] + [a.0, b.0, c.0] == [t.entries[h].0, a.0, b.0, c.0];
  }

  lemma EnvCfgAtProvider(environ: map<string, string>, j: nat)
    requires j < 2
    ensures At(EnvCfg(environ), EnvLeaves[j].0) == Some(EnvValue(environ, EnvLeaves[j].1))
  {
    var t := EnvCfg(environ);
    assert "class"[0] != "args"[0];
    if j == 0 {
      AtThree(t, 0, 0, 0);
    } else {
      AtFour(t, 0, 0, 1, 0);
    }
  }

  lemma EnvCfgAtConsumer(environ: map<string, string>, j: nat)
    requires 2 <= j < 4
    ensures At(EnvCfg(environ), EnvLeaves[j].0) == Some(EnvValue(environ, EnvLeaves[j].1))
  {
    var t := EnvCfg(environ);
    assert "provider"[0] != "consumer"[0];
    assert "class"[0] != "args"[0];
    if j == 2 {
      AtThree(t, 0, 1, 0);
    } else {
      AtFour(t, 0, 1, 1, 0);
    }
  }

  lemma EnvCfgAtLogging(environ: map<string, string>, j: nat)
    requires 4 <= j < 8
    ensures At(EnvCfg(environ), EnvLeaves[j].0) == Some(EnvValue(environ, EnvLeaves[j].1))
  {
    var t := EnvCfg(environ);
    assert "vaultify"[0] != "handlers"[0];
    assert "level"[0] != "filename"[0];
    if j == 4 {
      AtThree(t, 1, 0, 0);
    } else if j == 5 {
      AtThree(t, 1, 1, 0);
    } else if j == 6 {
      AtThree(t, 1, 1, 1);
    } else {
      AtThree(t, 2, 0, 0);
    }
  }

  /** Every leaf of the overlay holds the value of its variable. */
  lemma EnvCfgAt(environ: map<string, string>, j: nat)
    requires j < |EnvLeaves|
    ensures At(EnvCfg(environ), EnvLeaves[j].0) == Some(EnvValue(environ, EnvLeaves[j].1))
  {
    if j < 2 {
      EnvCfgAtProvider(environ, j);
    } else if j < 4 {
      EnvCfgAtConsumer(environ, j);
    } else {
      EnvCfgAtLogging(environ, j);
    }
  }

  /**
   * `a` accepts `b` when every key of `b` is met first in `a` at the given
   * position, with an accepting value there.
   */
  lemma CompatibleByIndex(es: Dict<Tree>, bs: Dict<Tree>, idx: seq<nat>)
    requires |idx| == |bs|
    requires forall i :: 0 <= i < |bs| ==>
      FirstKey(es, idx[i]) && es[idx[i]].0 == bs[i].0 && Compatible(es[idx[i]].1, bs[i].1)
    ensures Compatible(Map(es), Map(bs))
  {
    forall i | 0 <= i < |bs| && bs[i].0 in Keys(es)
      ensures Compatible(Get(es, bs[i].0), bs[i].1)
    {
      FirstWithKey(es, idx[i], es[idx[i]].1);
    }
  }

  lemma HandlerKeys()
    ensures FirstKey(LogConsole.entries, 1) && LogConsole.entries[1] == ("level", Str("DEBUG"))
    ensures FirstKey(DefaultFile.entries, 1) && DefaultFile.entries[1] == ("level", Str("DEBUG"))
    ensures FirstKey(DefaultFile.entries, 2) && DefaultFile.entries[2] == ("filename", Str("./vaultify.log"))
    ensures FirstKey(DefaultHandlers.entries, 0) && DefaultHandlers.entries[0] == ("console", LogConsole)
    ensures FirstKey(DefaultHandlers.entries, 1) && DefaultHandlers.entries[1] == ("file", DefaultFile)
    ensures FirstKey(LogLoggers.entries, 0) && LogLoggers.entries[0] == ("", RootLogger)
    ensures FirstKey(RootLogger.entries, 0) && RootLogger.entries[0] == ("level", Str("DEBUG"))
  {
    assert "class"[0] != "level"[0];
  }

  lemma CompatibleConsole(level: Tree)
    requires IsScalar(level)
    ensures Compatible(LogConsole, Map([("level", level)]))
  {
    HandlerKeys();
    CompatibleByIndex(LogConsole.entries, [("level", level)], [1]);
  }

  lemma CompatibleFile(level: Tree, file: Tree)
    requires IsScalar(level) && IsScalar(file)
    ensures Compatible(DefaultFile, Map([("level", level), ("filename", file)]))
  {
    HandlerKeys();
    CompatibleByIndex(DefaultFile.entries, [("level", level), ("filename", file)], [1, 2]);
  }

  lemma CompatibleHandlers(level: Tree, file: Tree)
    requires IsScalar(level) && IsScalar(file)
    ensures Compatible(DefaultHandlers,
      Map([("console", Map([("level", level)])), ("file", Map([("level", level), ("filename", file)]))]))
  {
    HandlerKeys();
    CompatibleConsole(level);
    CompatibleFile(level, file);
    CompatibleByIndex(DefaultHandlers.entries,
      [("console", Map([("level", level)])), ("file", Map([("level", level), ("filename", file)]))], [0, 1]);
  }

  lemma CompatibleLoggers(level: Tree)
    requires IsScalar(level)
    ensures Compatible(LogLoggers, Map([("", Map([("level", level)]))]))
  {
    HandlerKeys();
    CompatibleByIndex(RootLogger.entries, [("level", level)], [0]);
    CompatibleByIndex(LogLoggers.entries, [("", Map([("level", level)]))], [0]);
  }

  lemma DefaultKeys()
    ensures FirstKey(DefaultCfg.entries, 2) && DefaultCfg.entries[2] == ("handlers", DefaultHandlers)
    ensures FirstKey(DefaultCfg.entries, 3) && DefaultCfg.entries[3] == ("loggers", LogLoggers)
    ensures FirstKey(DefaultCfg.entries, 4) && DefaultCfg.entries[4] == ("vaultify", Map([]))
  {
    assert "vaultify"[0] != "handlers"[0];
    assert "loggers"[0] != "version"[0];
  }

  /** The defaults accept every overlay. */
  lemma DefaultsCompatible(environ: map<string, string>)
    ensures Compatible(DefaultCfg, EnvCfg(environ))
  {
    var level := EnvValue(environ, "VAULTIFY_LOG_LEVEL");
    var es := EnvCfg(environ).entries;
    DefaultKeys();
    CompatibleHandlers(level, EnvValue(environ, "VAULTIFY_LOG_FILE"));
    CompatibleLoggers(level);
    assert Compatible(Map([]), es[0].1);
    CompatibleByIndex(DefaultCfg.entries, es, [4, 2, 3]);
  }

  /** A path that enters an empty dictionary and goes on leads nowhere. */
  lemma AtIntoEmpty(es: Dict<Tree>, j: nat, p: seq<string>)
    requires FirstKey(es, j) && es[j].1 == Map([]) && |p| >= 2 && p[0] == es[j].0
    ensures ListFree(Map(es), p) && At(Map(es), p) == None
  {
    assert [p[0]] + p[1..] == p;
    AtStep(es, j, p[1..]);
    FirstWithKey(es, j, Map([]));
  }

  lemma DefaultsAtVaultify(p: seq<string>)
    requires |p| >= 2 && p[0] == "vaultify"
    ensures ListFree(DefaultCfg, p) && At(DefaultCfg, p) == None
  {
    DefaultKeys();
    AtIntoEmpty(DefaultCfg.entries, 4, p);
  }

  /** The `j`-th item is the first with its key. */
  predicate FirstKey(es: Dict<Tree>, j: nat)
  {
    j < |es| && forall i :: 0 <= i < j ==> es[i].0 != es[j].0
  }

  /** Three steps of `At` through first-with-key items, with no list on the way. */
  lemma AtThree(t: Tree, i: nat, j: nat, k: nat)
    requires t.Map? && FirstKey(t.entries, i)
    requires t.entries[i].1.Map? && FirstKey(t.entries[i].1.entries, j)
    requires t.entries[i].1.entries[j].1.Map? && FirstKey(t.entries[i].1.entries[j].1.entries, k)
    ensures var a := t.entries[i]; var b := a.1.entries[j]; var c := b.1.entries[k];
      ListFree(t, [a.0, b.0, c.0]) && At(t, [a.0, b.0, c.0]) == Some(c.1)
  {
    var a := t.entries[i];
    var b := a.1.entries[j];
    var c := b.1.entries[k];
    var p := [a.0, b.0, c.0];
    assert [p[0]] + p[1..] == p && [p[1]] + p[2..] == p[1..] && p[2..] == [p[2]] + [];
    FirstWithKey(t.entries, i, a.1);
    AtStep(t.entries, i, p[1..]);
    FirstWithKey(a.1.entries, j, b.1);
    AtStep(a.1.entries, j, p[2..]);
    FirstWithKey(b.1.entries, k, c.1);
    AtStep(b.1.entries, k, []);
    assert ListFree(b.1, p[2..]);
    assert ListFree(a.1, p[1..]);
  }

  lemma DefaultsAtHandlers(j: nat)
    requires 4 <= j < 7
    ensures ListFree(DefaultCfg, EnvLeaves[j].0)
    ensures At(DefaultCfg, EnvLeaves[j].0) == Some(Str(if j == 6 then "./vaultify.log" else "DEBUG"))
  {
    DefaultKeys();
    HandlerKeys();
    if j == 4 {
      AtThree(DefaultCfg, 2, 0, 1);
    } else if j == 5 {
      AtThree(DefaultCfg, 2, 1, 1);
    } else {
      AtThree(DefaultCfg, 2, 1, 2);
    }
  }

  lemma DefaultsAtLoggers()
    ensures ListFree(DefaultCfg, EnvLeaves[7].0)
    ensures At(DefaultCfg, EnvLeaves[7].0) == Some(Str("DEBUG"))
  {
    DefaultKeys();
    HandlerKeys();
    AtThree(DefaultCfg, 3, 0, 0);
  }

  /** What the defaults hold at each leaf of the overlay; no list lies on the way. */
  lemma DefaultsAt(j: nat)
    requires j < |EnvLeaves|
    ensures ListFree(DefaultCfg, EnvLeaves[j].0)
    ensures At(DefaultCfg, EnvLeaves[j].0) ==
      if j < 4 then None
      else if j == 6 then Some(Str("./vaultify.log"))
      else Some(Str("DEBUG"))
  {
    if j < 4 {
      DefaultsAtVaultify(EnvLeaves[j].0);
    } else if j < 7 {
      DefaultsAtHandlers(j);
    } else {
      DefaultsAtLoggers();
    }
  }

  // configure

  /** The loop over the loaded sources: merge each truthy source in order. */
  function Fold(config: Tree, sources: seq<Tree>): Result<Tree, MergeError>
    decreases |sources|
  {
    if sources == [] then Ok(config)
    else
      var n := |sources| - 1;
      match Fold(config, sources[..n])
      case Err(e) => Err(e)
      case Ok(c) => if Truthy(sources[n]) then Merge(c, sources[n]) else Ok(c)
  }

  /** `configure(...)` on the loaded sources in an environment. */
  function Resolve(sources: seq<Tree>, environ: map<string, string>): Result<Tree, MergeError>
  {
    match Merge(LogCfg, BaseCfg)
    case Err(e) => Err(e)
    case Ok(defaults) =>
      match Fold(defaults, sources)
      case Err(e) => Err(e)
      case Ok(c) => Merge(c, EnvCfg(environ))
  }

  /** Once the fold has failed on a prefix, it fails with that error. */
  lemma {:induction false} FoldErrSticky(config: Tree, sources: seq<Tree>, i: nat)
    requires i <= |sources| && Fold(config, sources[..i]).Err?
    ensures Fold(config, sources) == Fold(config, sources[..i])
    decreases |sources| - i
  {
    if i < |sources| {
      var n := |sources| - 1;
      assert sources[..n][..i] == sources[..i];
      FoldErrSticky(config, sources[..n], i);
    } else {
      assert sources[..i] == sources;
    }
  }

  /** `configure`, as the loop the source runs. */
  method Configure(sources: seq<Tree>, environ: map<string, string>) returns (r: Result<Tree, MergeError>)
    ensures r == Resolve(sources, environ)
  {
    var defaults := Merge(LogCfg, BaseCfg);
    MergeDefaults();
    var configData := defaults.value;
    for i := 0 to |sources|
      invariant Fold(defaults.value, sources[..i]) == Ok(configData)
    {
      assert sources[..i + 1][..i] == sources[..i];
      if Truthy(sources[i]) {
        var merged := Merge(configData, sources[i]);
        if merged.Err? {
          FoldErrSticky(defaults.value, sources, i + 1);
          return merged;
        }
        configData := merged.value;
      }
    }
    assert sources[..|sources|] == sources;
    r := Merge(configData, EnvCfg(environ));
  }

  /** The truthy sources, in order. */
  function Truthies(sources: seq<Tree>): (r: seq<Tree>)
    ensures |r| <= |sources|
    ensures forall i :: 0 <= i < |r| ==> Truthy(r[i])
    decreases |sources|
  {
    if sources == [] then []
    else
      var n := |sources| - 1;
      Truthies(sources[..n]) + if Truthy(sources[n]) then [sources[n]] else []
  }

  /** Reference fold: merge every source, with no truthiness test. */
  function MergeAll(config: Tree, sources: seq<Tree>): Result<Tree, MergeError>
    decreases |sources|
  {
    if sources == [] then Ok(config)
    else
      var n := |sources| - 1;
      match MergeAll(config, sources[..n])
      case Err(e) => Err(e)
      case Ok(c) => Merge(c, sources[n])
  }

  /** The fold is the plain merge of the truthy sources: falsy ones are skipped. */
  lemma {:induction false} FoldSkipsFalsy(config: Tree, sources: seq<Tree>)
    ensures Fold(config, sources) == MergeAll(config, Truthies(sources))
    decreases |sources|
  {
    if sources != [] {
      var n := |sources| - 1;
      FoldSkipsFalsy(config, sources[..n]);
      var t := Truthies(sources[..n]);
      if Truthy(sources[n]) {
        var t' := t + [sources[n]];
        assert Truthies(sources) == t';
        assert t'[..|t|] == t && t'[|t|] == sources[n];
      } else {
        assert Truthies(sources) == t + [] == t;
      }
    }
  }

  lemma {:induction false} TruthiesAppend(s: seq<Tree>, u: seq<Tree>)
    ensures Truthies(s + u) == Truthies(s) + Truthies(u)
    decreases |u|
  {
    if u == [] {
      assert s + u == s;
    } else {
      var n := |u| - 1;
      assert (s + u)[..|s + u| - 1] == s + u[..n];
      TruthiesAppend(s, u[..n]);
    }
  }

  /** A falsy source (an empty document, an empty mapping) changes nothing. */
  lemma FalsySourceIgnored(config: Tree, s: seq<Tree>, t: Tree, u: seq<Tree>)
    requires !Truthy(t)
    ensures Fold(config, s + [t] + u) == Fold(config, s + u)
  {
    FoldSkipsFalsy(config, s + [t] + u);
    FoldSkipsFalsy(config, s + u);
    TruthiesAppend(s + [t], u);
    TruthiesAppend(s, [t]);
    TruthiesAppend(s, u);
    assert [t][..0] == [];
    assert Truthies([t]) == [];
    assert Truthies(s + [t]) == Truthies(s);
    assert Truthies(s + [t] + u) == Truthies(s + u);
  }

  /** A successful fold from a mapping is a mapping, and every truthy source was one. */
  lemma {:induction false} FoldMaps(config: Tree, sources: seq<Tree>)
    requires config.Map? && Fold(config, sources).Ok?
    ensures Fold(config, sources).value.Map?
    ensures forall i :: 0 <= i < |sources| && Truthy(sources[i]) ==> sources[i].Map?
    decreases |sources|
  {
    if sources != [] {
      var n := |sources| - 1;
      FoldMaps(config, sources[..n]);
      assert forall i :: 0 <= i < n ==> sources[..n][i] == sources[i];
    }
  }

  /**
   * A truthy source that is not a mapping makes `configure` fail; when the
   * sources before it merged, with the ValueError naming it and the
   * configuration so far.
   */
  lemma NonMappingSourceFails(sources: seq<Tree>, environ: map<string, string>, i: nat)
    requires i < |sources| && Truthy(sources[i]) && !sources[i].Map?
    ensures Resolve(sources, environ).Err?
    ensures Fold(DefaultCfg, sources[..i]).Ok? ==>
      Resolve(sources, environ) == Err(NotMergeable(sources[i], Fold(DefaultCfg, sources[..i]).value))
  {
    MergeDefaults();
    if Fold(DefaultCfg, sources[..i]).Ok? {
      var c := Fold(DefaultCfg, sources[..i]).value;
      FoldMaps(DefaultCfg, sources[..i]);
      MergeRejects(c, sources[i]);
      assert sources[..i + 1][..i] == sources[..i];
      assert Fold(DefaultCfg, sources[..i + 1]) == Err(NotMergeable(sources[i], c));
      FoldErrSticky(DefaultCfg, sources, i + 1);
    } else {
      FoldErrSticky(DefaultCfg, sources, i);
    }
  }

  /** A mapping that a source replaces by a non-mapping makes the merge fail. */
  lemma MappingNotReplaced(config: Tree, source: Tree, k: string)
    requires config.Map? && source.Map? && Distinct(source.entries)
    requires k in Keys(config.entries) && k in Keys(source.entries)
    requires Get(config.entries, k).Map? && !Get(source.entries, k).Map?
    ensures Merge(config, source).Err?
  {
    MergeDictsOk(config, source);
    MergeRejects(Get(config.entries, k), Get(source.entries, k));
  }

  /**
   * For example, a first source `handlers: x` makes `configure` fail with
   * the ValueError naming `x` and the default handlers.
   */
  lemma HandlersScalarFails(x: string, environ: map<string, string>)
    ensures Resolve([Map([("handlers", Str(x))])], environ) == Err(NotMergeable(Str(x), DefaultHandlers))
  {
    var source := Map([("handlers", Str(x))]);
    MergeDefaults();
    DefaultKeys();
    HandlersScalarRejected(DefaultCfg, x);
    assert [source][..0] == [];
    assert Fold(DefaultCfg, [source]) == Merge(DefaultCfg, source);
  }

  lemma HandlersScalarRejected(config: Tree, x: string)
    requires config.Map? && FirstKey(config.entries, 2) && config.entries[2] == ("handlers", DefaultHandlers)
    ensures Merge(config, Map([("handlers", Str(x))])) == Err(NotMergeable(Str(x), DefaultHandlers))
  {
    var source := Map([("handlers", Str(x))]);
    FirstWithKey(config.entries, 2, Str(x));
    MergeRejects(DefaultHandlers, Str(x));
    assert source.entries[0] == ("handlers", Str(x)) && |source.entries| == 1;
    assert MergeItems(config.entries, source, 0) == Err(NotMergeable(Str(x), DefaultHandlers));
  }

  /**
   * A later source wins: a truthy value, or False, that the last source
   * holds at a path replaces whatever scalar the earlier sources left there.
   */
  lemma LaterSourceWins(config: Tree, s: seq<Tree>, t: Tree, p: seq<string>, v: Tree)
    requires Truthy(t) && WellFormed(t) && Fold(config, s + [t]).Ok?
    requires At(t, p) == Some(v) && (Truthy(v) || v == Bool(false))
    requires Fold(config, s).Ok?
    requires ListFree(Fold(config, s).value, p)
    requires At(Fold(config, s).value, p).None? || IsScalar(At(Fold(config, s).value, p).value)
    ensures At(Fold(config, s + [t]).value, p) == Some(v)
  {
    assert (s + [t])[..|s|] == s;
    MergeAt(Fold(config, s).value, t, p);
  }

  /**
   * The overlay at one of its leaves: a value already there is merged with
   * the variable's value; a leaf missing before is inserted with it.
   */
  lemma OverlayLeaf(config: Tree, environ: map<string, string>, j: nat)
    requires j < |EnvLeaves| && ListFree(config, EnvLeaves[j].0)
    requires Merge(config, EnvCfg(environ)).Ok?
    ensures var (p, name) := EnvLeaves[j];
      At(config, p).Some? ==> Merge(At(config, p).value, EnvValue(environ, name)).Ok?
    ensures var (p, name) := EnvLeaves[j];
      At(Merge(config, EnvCfg(environ)).value, p) ==
        if At(config, p).Some? then Some(Merge(At(config, p).value, EnvValue(environ, name)).value)
        else Some(EnvValue(environ, name))
  {
    EnvCfgWellFormed(environ);
    EnvCfgAt(environ, j);
    MergeAt(config, EnvCfg(environ), EnvLeaves[j].0);
  }

  /**
   * An unset or empty variable never changes a scalar already at its leaf;
   * a leaf missing before the overlay is inserted as None (or "").
   */
  lemma UnsetVariableKeeps(config: Tree, environ: map<string, string>, j: nat)
    requires j < |EnvLeaves| && ListFree(config, EnvLeaves[j].0)
    requires Merge(config, EnvCfg(environ)).Ok?
    requires var name := EnvLeaves[j].1; name !in environ || environ[name] == ""
    ensures var (p, name) := EnvLeaves[j];
      && (At(config, p).Some? && IsScalar(At(config, p).value) ==>
            At(Merge(config, EnvCfg(environ)).value, p) == At(config, p))
      && (At(config, p).None? ==>
            At(Merge(config, EnvCfg(environ)).value, p) == Some(EnvValue(environ, name)))
  {
    OverlayLeaf(config, environ, j);
  }

  /**
   * A set, non-empty variable replaces a scalar at its leaf, or fills the
   * leaf if it was missing; for `VAULTIFY_LOG_LEVEL` this is the level of
   * the console handler, of the file handler and of the root logger.
   */
  lemma SetVariableOverrides(config: Tree, environ: map<string, string>, j: nat)
    requires j < |EnvLeaves| && ListFree(config, EnvLeaves[j].0)
    requires Merge(config, EnvCfg(environ)).Ok?
    requires var name := EnvLeaves[j].1; name in environ && environ[name] != ""
    requires At(config, EnvLeaves[j].0).None? || IsScalar(At(config, EnvLeaves[j].0).value)
    ensures At(Merge(config, EnvCfg(environ)).value, EnvLeaves[j].0) == Some(Str(environ[EnvLeaves[j].1]))
    ensures j in LogLevelLeaves ==> EnvLeaves[j].1 == "VAULTIFY_LOG_LEVEL"
  {
    OverlayLeaf(config, environ, j);
  }

  /**
   * With no configuration files: `configure` succeeds, the provider and
   * consumer settings are exactly the variables (None when unset), the file
   * handler writes to `./vaultify.log` and every level is DEBUG unless the
   * variables say otherwise.
   */
  lemma ConfigureWithoutSources(environ: map<string, string>, j: nat)
    requires j < |EnvLeaves|
    ensures Resolve([], environ).Ok?
    ensures var (p, name) := EnvLeaves[j];
      var given := name in environ && environ[name] != "";
      At(Resolve([], environ).value, p) ==
        if j < 4 then Some(EnvValue(environ, name))
        else if given then Some(Str(environ[name]))
        else if j == 6 then Some(Str("./vaultify.log"))
        else Some(Str("DEBUG"))
  {
    ResolveWithoutSources(environ);
    DefaultsAt(j);
    OverlayLeaf(DefaultCfg, environ, j);
    var name := EnvLeaves[j].1;
    if j >= 4 {
      var d := if j == 6 then "./vaultify.log" else "DEBUG";
      ScalarMeetsVariable(d, environ, name);
    }
  }

  lemma ScalarMeetsVariable(d: string, environ: map<string, string>, name: string)
    requires d != []
    ensures Merge(Str(d), EnvValue(environ, name)) ==
      Ok(if name in environ && environ[name] != "" then Str(environ[name]) else Str(d))
  {
  }

  lemma ResolveWithoutSources(environ: map<string, string>)
    ensures Resolve([], environ) == Merge(DefaultCfg, EnvCfg(environ))
    ensures Resolve([], environ).Ok?
  {
    MergeDefaults();
    DefaultsCompatible(environ);
    EnvCfgWellFormed(environ);
    MergeOkIff(DefaultCfg, EnvCfg(environ));
  }
}
