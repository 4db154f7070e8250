/**
 * The consumers that write secrets somewhere: `FileWriter` and the
 * `DotEnvWriter` built on it, over an abstract file system, and the
 * environment that `EnvRunner` prepares for its child process.
 */
module Consumers {
  import opened Wrappers
  import opened Dicts
  import opened Strings
  import opened EnvFiles

  /** A regular file: its text and its permission bits. */
  datatype File = File(content: string, mode: int)

  /** The part of the file system the writers touch: files by path. */
  class FileSystem {
    var files: map<string, File>

    constructor(files: map<string, File>)
      ensures this.files == files
    {
      this.files := files;
    }
  }

  /** `0o200`: the mode `os.open` creates a missing file with. */
  const CreateMode := 0x80

  /** `0o600`: the default mode of a writer. */
  const DefaultMode := 0x180

  /**
   * Writing `text` from offset 0 into a file holding `before`, without
   * truncating it: the text, then whatever of the old content lies beyond it.
   */
  function Overlay(before: string, text: string): (r: string)
    ensures |r| == if |before| > |text| then |before| else |text|
    ensures r[..|text|] == text
    ensures forall i :: |text| <= i < |r| ==> r[i] == before[i]
  {
    if |before| > |text| then text + before[|text|..] else text
  }

  /** What `write(data)` leaves in the file system. */
  function AfterWrite(files: map<string, File>, path: string, mode: int, overwrite: bool, data: string)
    : (r: map<string, File>)
    ensures r.Keys == files.Keys + {path}
    ensures r[path].mode == mode
    ensures forall p :: p in files && p != path ==> r[p] == files[p]
  {
    var text := data + "\n";
    if path !in files then files[path := File(text, mode)]
    else if overwrite then files[path := File(Overlay(files[path].content, text), mode)]
    else files[path := File(files[path].content, mode)]
  }

  class FileWriter {
    const path: string
    const mode: int
    const overwrite: bool

    constructor(path: string, mode: int, overwrite: bool)
      ensures this.path == path && this.mode == mode && this.overwrite == overwrite
    {
      this.path := path;
      this.mode := mode;
      this.overwrite := overwrite;
    }

    /**
     * `_write_data_to_fd`: opens the path for writing, creating it with mode
     * 0o200 if missing and without truncating it, and writes `data` and a
     * newline from offset 0.
     */
    method WriteDataToFd(fs: FileSystem, data: string)
      modifies fs
      ensures path in fs.files
      ensures fs.files == old(fs.files)[path :=
        if path in old(fs.files)
        then File(Overlay(old(fs.files)[path].content, data + "\n"), old(fs.files)[path].mode)
        else File(data + "\n", CreateMode)]
    {
      var content := if path in fs.files then fs.files[path].content else "";
      var fileMode := if path in fs.files then fs.files[path].mode else CreateMode;
      content := Overlay(content, data + "\n");
      fs.files := fs.files[path := File(content, fileMode)];
    }

    /**
     * `write`: writes a missing file, overwrites an existing one only when
     * the writer may, and in every case sets the file's mode.
     */
    method Write(fs: FileSystem, data: string)
      modifies fs
      ensures fs.files == AfterWrite(old(fs.files), path, mode, overwrite, data)
    {
      if path !in fs.files {
        WriteDataToFd(fs, data);
      } else if overwrite {
        WriteDataToFd(fs, data);
      }
      fs.files := fs.files[path := File(fs.files[path].content, mode)];
    }
  }

  /** A missing file is created holding the data and a newline. */
  lemma WriteCreates(files: map<string, File>, path: string, mode: int, overwrite: bool, data: string)
    requires path !in files
    ensures AfterWrite(files, path, mode, overwrite, data)[path] == File(data + "\n", mode)
  {
  }

  /** Without `overwrite`, an existing file keeps its content. */
  lemma WriteKeeps(files: map<string, File>, path: string, mode: int, data: string)
    requires path in files
    ensures AfterWrite(files, path, mode, false, data)[path].content == files[path].content
  {
  }

  /**
   * With `overwrite`, the data and a newline replace the start of an
   * existing file; a longer old file keeps its tail, a shorter one is gone.
   */
  lemma WriteOverwrites(files: map<string, File>, path: string, mode: int, data: string)
    requires path in files
    ensures var c := AfterWrite(files, path, mode, true, data)[path].content;
      && c[..|data| + 1] == data + "\n"
      && (|files[path].content| <= |data| + 1 ==> c == data + "\n")
      && (|files[path].content| > |data| + 1 ==> c == data + "\n" + files[path].content[|data| + 1..])
  {
  }

  /** Writing the same data twice leaves what writing it once does. */
  lemma WriteIdempotent(files: map<string, File>, path: string, mode: int, overwrite: bool, data: string)
    ensures var once := AfterWrite(files, path, mode, overwrite, data);
      AfterWrite(once, path, mode, overwrite, data) == once
  {
    var once := AfterWrite(files, path, mode, overwrite, data);
    var text := data + "\n";
    if overwrite {
      var c := once[path].content;
      assert c[..|text|] == text;
      assert Overlay(c, text) == c by {
        if |c| > |text| {
          assert c == c[..|text|] + c[|text|..];
        }
      }
    }
  }

  /**
   * The three writes of the `write` example: `abc` creates the file, `def`
   * with `overwrite` replaces it, `ghj` without `overwrite` is skipped.
   */
  lemma WriteExample(files: map<string, File>, path: string)
    requires path !in files
    ensures var f1 := AfterWrite(files, path, DefaultMode, false, "abc");
      var f2 := AfterWrite(f1, path, DefaultMode, true, "def");
      var f3 := AfterWrite(f2, path, DefaultMode, false, "ghj");
      f1[path].content == "abc\n" && f2[path].content == "def\n" && f3[path].content == "def\n"
  {
  }

  /** The text `DotEnvWriter` writes: the export lines joined by newlines. */
  function EnvText(data: Dict<string>): string
  {
    Join(Dict2Env(data), '\n')
  }

  /** `DotEnvWriter`: a consumer that writes the secrets as export lines. */
  class DotEnvWriter {
    const writer: FileWriter

    constructor(path: string, mode: int, overwrite: bool)
      ensures writer.path == path && writer.mode == mode && writer.overwrite == overwrite
    {
      writer := new FileWriter(path, mode, overwrite);
    }

    method ConsumeSecrets(fs: FileSystem, data: Dict<string>)
      modifies fs
      ensures fs.files == AfterWrite(old(fs.files), writer.path, writer.mode, writer.overwrite, EnvText(data))
    {
      writer.Write(fs, Join(Dict2Env(data), '\n'));
    }
  }

  /** No newline in any key or value. */
  predicate SingleLine(data: Dict<string>)
  {
    forall i :: 0 <= i < |data| ==> '\n' !in data[i].0 && '\n' !in data[i].1
  }

  /**
   * The lines of the written text are the export lines of the items, in
   * order, when no key or value holds a newline; each reads back as its
   * item when no key holds '='.
   */
  lemma EnvTextLines(data: Dict<string>)
    requires data != [] && SingleLine(data)
    ensures Split(EnvText(data), '\n') == Dict2Env(data)
    ensures (forall i :: 0 <= i < |data| ==> '=' !in data[i].0) ==>
      forall i :: 0 <= i < |data| ==> ParseExportLine(Split(EnvText(data), '\n')[i]) == Some(data[i])
  {
    var lines := Dict2Env(data);
    forall i | 0 <= i < |lines| ensures '\n' !in lines[i] {
      var (k, v) := data[i];
      assert lines[i] == "export " + k + "='" + v + "'";
    }
    SplitJoin(lines, '\n');
    if forall i :: 0 <= i < |data| ==> '=' !in data[i].0 {
      forall i | 0 <= i < |data| ensures ParseExportLine(lines[i]) == Some(data[i]) {
        ExportLineRoundTrip(data[i].0, data[i].1);
      }
    }
  }

  /** The `DotEnvWriter` example: the file it creates. */
  lemma DotEnvExample(files: map<string, File>, path: string, mode: int)
    ensures EnvText([("K1", "V1"), ("K2", "V2")]) + "\n" == "export K1='V1'\nexport K2='V2'\n"
    ensures path !in files ==>
      AfterWrite(files, path, mode, true, EnvText([("K1", "V1"), ("K2", "V2")]))[path]
        == File("export K1='V1'\nexport K2='V2'\n", mode)
  {
    var lines := Dict2Env([("K1", "V1"), ("K2", "V2")]);
    assert lines[0] == "export K1='V1'" && lines[1] == "export K2='V2'";
    assert lines[1..] == ["export K2='V2'"];
  }

  /** `EnvRunner`: runs a command in the environment enriched by the secrets. */
  class EnvRunner {
    const command: seq<string>

    /** The command is `VAULTIFY_TARGET` if set, else `path`, split on whitespace. */
    constructor(path: string, environ: map<string, string>)
      ensures command == Tokens(if "VAULTIFY_TARGET" in environ then environ["VAULTIFY_TARGET"] else path)
    {
      command := Tokens(if "VAULTIFY_TARGET" in environ then environ["VAULTIFY_TARGET"] else path);
    }

    /**
     * The environment of the child process: a copy of `environ` with every
     * item of `data` put into it; `environ` itself is a value and stays as
     * it was.
     */
    method PrepareEnv(environ: Dict<string>, data: Dict<string>) returns (prepared: Dict<string>)
      requires Distinct(data)
      ensures prepared == Update(environ, data)
      ensures Keys(prepared) == Keys(environ) + Keys(data)
      ensures forall i :: 0 <= i < |data| ==> data[i].0 in Keys(prepared) && Get(prepared, data[i].0) == data[i].1
      ensures forall k :: k in Keys(environ) && k !in Keys(data) ==> k in Keys(prepared) && Get(prepared, k) == Get(environ, k)
    {
      prepared := environ;
      for i := 0 to |data|
        invariant prepared == Update(environ, data[..i])
      {
        assert data[..i + 1][..i] == data[..i];
        prepared := Put(prepared, data[i].0, data[i].1);
      }
      assert data[..|data|] == data;
      UpdateKeys(environ, data);
      forall i | 0 <= i < |data|
        ensures data[i].0 in Keys(prepared) && Get(prepared, data[i].0) == data[i].1
      {
        forall j' | i < j' < |data| ensures data[j'].0 != data[i].0 {
          DistinctPrefix(data, j');
          KeysIndex(data[..j'], data[i].0);
          assert data[..j'][i] == data[i];
        }
        UpdateLastWins(environ, data, data[i].0, i);
      }
      forall k | k in Keys(environ) && k !in Keys(data)
        ensures k in Keys(prepared) && Get(prepared, k) == Get(environ, k)
      {
        UpdateUntouched(environ, data, k);
      }
    }
  }
}
