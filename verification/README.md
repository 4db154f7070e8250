# vaultify, modelled in Dafny

vaultify fetches secrets from a *provider* and hands them to a *consumer*.
Providers include encrypted files and a Vault server. Consumers include a
dotenv file writer and a process runner. Its configuration comes from the
bundled logging defaults and base defaults, then from any YAML files that
exist, then from the `VAULTIFY_*` environment variables. These layers are
combined with a recursive merge, `yaml_dict_merge`.

This project models the logic of that program:

- `merge.dfy`, module `Merging`: the recursive merge, as a function over a
  tree datatype (`trees.dfy`).
  - Its errors are a datatype: `ValueError` and `NotImplementedError`.
  - Lemmas give the scalar, list and dictionary rules, and exactly when the
    merge succeeds.
  - `MergeAt` says what the merge leaves at a path of keys.
- `mask.dfy`, module `Masking`: `mask_secrets`, the redacting copy used for
  logging.
  - The method's loop is proved against the function `Masked`.
  - Lemmas show the key structure is preserved at every depth, that no
    str/int/bool survives, and that masking is idempotent.
- `envfile.dfy`, module `EnvFiles`: `env2dict` and `dict2env`.
  - The `env2dict` loop is proved against the function `ParseEnv`.
  - Lemmas give when parsing succeeds, which keys come out, which line wins
    for a key, and that an export line reads back as its item.
- `config.dfy`, module `Config`:
  - `configure`, as a loop proved against the fold `Resolve`;
  - the constant trees `BASE_CFG`, `LOG_CFG` and `ENV_CFG`, and
    `CFG_DEFAULT_FILES`;
  - what the layered configuration holds at every leaf of the environment
    overlay.
- `consumers.dfy`, module `Consumers`:
  - `FileWriter` writes over an abstract file system: a `FileSystem` object
    whose map of files the methods update.
  - `DotEnvWriter`.
  - `EnvRunner`'s target command and the child environment it prepares.
- `vaultify.dfy`, module `Pipeline`: the `Vaultify` class with `validate`,
  `get_secrets`, `consume_secrets` and `run`, over a provider and a consumer
  object.
  - It proves that `run` refuses an empty bundle before the consumer is
    called.
  - It proves that the consumer gets the last-write-wins aggregate of the
    bundle, in bundle order.
  - It proves that only masked copies are logged.

Python dictionaries keep insertion order, and that order matters:
- bundle order decides key collisions;
- `dict2env` renders in dictionary order;
- the merge fails on the first bad key of `b`.

So a dictionary is modelled as the sequence of its items (`dicts.dfy`):
- `Put` is `d[k] = v`: an existing key keeps its place, and a new key is
  appended.
- `Update` is `d.update(e)`.
- The Python string operations the code relies on are in `strings.dfy`:
  `split(sep)`, `join`, `split()` and the `\s` whitespace class.

Behaviour of the code that the model keeps:
- `mask_secrets` replaces str, int and bool values with "***" and recurses
  into dictionaries. None, floats and lists are copied unchanged.
- Writing a file with `overwrite` opens it without truncation. A longer old
  file therefore keeps its tail after the new text (`WriteOverwrites`).
- Without `overwrite`, `write` tests `os.path.exists` and then calls
  `os.open` with `O_CREAT|O_WRONLY`, without `O_EXCL`.
- Dictionary order decides the merged result and which key's error is
  raised.

## Model

| member | source | states |
|---|---|---|
| Merging.Merge | vaultify/util.py:113-190 | a successful merge into a dictionary returns a dictionary whose keys are the keys of both operands |
| Merging.MergeItems | vaultify/util.py:171-177 | the loop over the keys of `b` ends with every key already present plus every key of `b` |
| Trees.Truthy | vaultify/util.py:154 | Python truthiness: None, False, 0, 0.0 and empty strings and containers are falsy, everything else truthy |
| Merging.MergeScalar | vaultify/util.py:146-159 | a scalar `a` becomes a truthy `b` or `False`, and stays `a` for None, 0, "" and empty containers |
| Merging.MergeList | vaultify/util.py:160-167 | a list is extended by a list, in order and with duplicates, and any other `b` (None included) is appended as one element |
| Merging.MergeRejects | vaultify/util.py:178-185 | a non-dictionary `b` into a dictionary is the ValueError naming both; an unsupported `a` is the NotImplementedError naming both types |
| Merging.MergeItemsValues | vaultify/util.py:171-177 | after the key loop, shared keys hold the recursive merge, new keys hold `b`'s value, other keys are untouched |
| Merging.MergeItemsOk | vaultify/util.py:171-177 | the key loop succeeds exactly when every shared key's values merge |
| Merging.MergeDicts | vaultify/util.py:168-177 | two dictionaries merge to the union of keys, shared keys merged recursively, `b`-only keys verbatim, `a`-only keys untouched |
| Merging.MergeDictsOk | vaultify/util.py:168-181 | two dictionaries merge exactly when every shared key does |
| Merging.MergeOkIff | vaultify/util.py:146-185 | the merge succeeds exactly on trees satisfying the independent `Compatible` relation |
| Merging.MergeAt | vaultify/util.py:168-177 | along a path of keys of `b`, the result holds the merge of both values, or `b`'s value where `a` has none |
| MergeExamples.MergeSameKey | vaultify/util.py:171-174 | one-key dictionaries with the same key merge to that key holding the merge of the values, or fail with its error |
| MergeExamples.MergeErrorExamples | vaultify/util.py:116-123 | the ValueError and NotImplementedError examples |
| MergeExamples.MergeDictNewKey | vaultify/util.py:124-125 | `{'a': 1}` merged with `{'b': 2}` is `{'a': 1, 'b': 2}` |
| MergeExamples.MergeDictSharedKey | vaultify/util.py:126-127 | `{'a': 1}` merged with `{'a': 2}` is `{'a': 2}` |
| MergeExamples.MergeDictNested | vaultify/util.py:128-129 | nested dictionaries merge key by key |
| MergeExamples.MergeListExamples | vaultify/util.py:130-133 | the list-extend and list-append examples |
| MergeExamples.MergeScalarExamples | vaultify/util.py:134-141 | None never overrides, False always does, True overrides None |
| Masking.MaskValue | vaultify/util.py:76-83 | one value of the copy: str, int and bool become "***", a dictionary is masked recursively, anything else is copied |
| Masking.Masked | vaultify/util.py:74-84 | the masked copy has the same items in the same order, each value masked |
| Masking.MaskSecrets | vaultify/util.py:59-84 | the loop, with its recursive calls, builds exactly the masked copy into a fresh dictionary |
| Masking.GetMasked | vaultify/util.py:76-83 | every key reads in the copy as the masked value of the original |
| Masking.MaskKeepsKeys | vaultify/util.py:74-84 | the copy has the same key list as the original |
| Masking.MaskAt | vaultify/util.py:76-83 | a path of keys exists in the copy exactly when it exists in the original, and leads to the masked value there |
| Masking.MaskedLeaves | vaultify/util.py:76-82 | no value reachable through dictionaries of the copy is an int, a bool or a str other than "***" |
| Masking.MaskIdempotent | vaultify/util.py:59-84 | masking a masked copy changes nothing |
| Masking.MaskExample | vaultify/util.py:64-71 | the nested example masks every string to "***" |
| EnvFiles.TrimEnd | vaultify/util.py:52 | the result is the longest prefix not ending in whitespace, and only whitespace was removed |
| EnvFiles.StripComment | vaultify/util.py:52 | the line cut at its first '#' with the whitespace before it trimmed, or the line itself without '#' |
| EnvFiles.StripCommentRemoves | vaultify/util.py:52 | the substitution removes the first '#', everything after it and the whitespace just before it, and keeps a line without '#' |
| EnvFiles.LineItem | vaultify/util.py:52-55 | one line: skipped when empty after stripping, the pair split at its one '=', or the unpack error with the piece count |
| EnvFiles.LineItemOk | vaultify/util.py:53-55 | a line is accepted exactly when it is empty after stripping or holds exactly one '=' |
| EnvFiles.Env2Dict | vaultify/util.py:31-56 | the loop returns what `ParseEnv` gives: the items put into a fresh dictionary, or the first line's unpack error |
| EnvFiles.ParseEnv | vaultify/util.py:49-56 | the lines' items put one after the other into an empty dictionary, or the first line's error |
| EnvFiles.CollectFirstError | vaultify/util.py:51-55 | the first line that fails to unpack decides the error |
| EnvFiles.ParseEnvOk | vaultify/util.py:49-56 | `env2dict` succeeds exactly when every line is accepted |
| EnvFiles.ParseEnvKeys | vaultify/util.py:49-56 | the keys returned are exactly the keys some line defines |
| EnvFiles.ParseEnvLastWins | vaultify/util.py:51-55 | a key holds the value of the last line that defines it |
| EnvFiles.Dict2Env | vaultify/util.py:18-28 | one `export K='V'` line per item, in dictionary order, with no escaping |
| EnvFiles.ExportLineRoundTrip | vaultify/util.py:28 | an export line reads back as its key and value when the key holds no '=' |
| EnvFileExamples.KeyValueLine | vaultify/util.py:52-55 | a plain `K=V` line gives the item (K, V), an empty key included (`=V` gives `("", V)`) |
| EnvFileExamples.TwoLines | vaultify/util.py:49-56 | two `K=V` lines give both items, or one item with the second value when the keys are equal |
| EnvFileExamples.Env2DictExample | vaultify/util.py:42-43 | the two-line example |
| EnvFileExamples.CommentedLine | vaultify/util.py:52-53 | a line starting with '#' is skipped |
| EnvFileExamples.KeyThenComment | vaultify/util.py:52-55 | `K= #...` gives the key with an empty value |
| EnvFileExamples.Env2DictCommentExample | vaultify/util.py:44-45 | the comment example gives `{'KEY1': ''}` |
| EnvFileExamples.Dict2EnvExample | vaultify/util.py:23-24 | the `dict2env` example |
| Strings.Split | vaultify/util.py:50 | `split` gives at least one piece and no piece holds the separator |
| Strings.SplitJoin | vaultify/consumers.py:83 | splitting the joined lines on the separator gives the lines back when none holds it |
| Strings.SplitCount | vaultify/util.py:54 | `split('=')` gives one piece more than there are '=' characters |
| Strings.Tokens | vaultify/consumers.py:136 | `split()` gives non-empty words without whitespace |
| Strings.TokensWord | vaultify/consumers.py:136 | a run of non-whitespace characters is a single word |
| Strings.TokensAtSpace | vaultify/consumers.py:136 | `split()` cuts at every whitespace character: the words around one are the words of each side, so the words are the maximal runs |
| Strings.TokensLoseOnlySpace | vaultify/consumers.py:136 | the words of `split()` put back together are the input without its whitespace |
| Config.DefaultFiles | vaultify/config.py:9-16 | the system file first, then `$HOME/.vaultify.yml`, then `$PWD/.vaultify.yml`, with an unset variable rendered as `None` |
| Config.MergeDefaults | vaultify/config.py:116 | merging `LOG_CFG` with `BASE_CFG` succeeds and gives the logging defaults with the base file name `./vaultify.log` |
| Config.DefaultsAt | vaultify/config.py:19-71 | the defaults hold no provider or consumer setting, DEBUG levels and `./vaultify.log`, with no list on the way |
| Config.EnvCfgAt | vaultify/config.py:74-103 | every leaf of `ENV_CFG` holds its variable's value, or None when unset |
| Config.EnvCfg | vaultify/config.py:74-103 | `ENV_CFG` with each variable's value, or None when it is unset |
| Config.Fold | vaultify/config.py:120-124 | each truthy source merged into the configuration in order, stopping at the first error |
| Config.Resolve | vaultify/config.py:116-126 | the merged defaults, folded with the sources, then merged with `ENV_CFG` |
| Config.FoldErrSticky | vaultify/config.py:120-124 | once a source fails to merge, `configure` fails with that error |
| Config.Configure | vaultify/config.py:106-128 | the loop returns what `Resolve` gives: the defaults, each truthy source in order, then `ENV_CFG`, merged left to right |
| Config.FoldSkipsFalsy | vaultify/config.py:120-124 | the fold is the plain merge of the truthy sources, in order |
| Config.FalsySourceIgnored | vaultify/config.py:121 | inserting an empty document or empty mapping anywhere changes nothing |
| Config.FoldMaps | vaultify/config.py:120-124 | a successful fold stays a mapping, and every truthy source was a mapping |
| Config.NonMappingSourceFails | vaultify/config.py:120-124 | a truthy source that is not a mapping makes `configure` fail, with the ValueError naming it and the configuration so far once the earlier sources merged |
| Config.MappingNotReplaced | vaultify/config.py:122-124 | a source holding a non-mapping where the configuration has a mapping makes the merge fail |
| Config.HandlersScalarFails | vaultify/config.py:116-124 | a source `handlers: x`, for any string `x`, makes `configure` fail with the ValueError naming `x` and the default handlers |
| Config.LaterSourceWins | vaultify/config.py:120-124 | a truthy value or False in the last source replaces the scalar the earlier sources left at that path |
| Config.OverlayLeaf | vaultify/config.py:126 | at each overlay leaf, a value already there is merged with the variable's value, and a missing leaf is inserted with it |
| Config.UnsetVariableKeeps | vaultify/config.py:126 | an unset or empty variable keeps the scalar already at its leaf, and a missing leaf is inserted as None |
| Config.SetVariableOverrides | vaultify/config.py:89-101 | a set, non-empty variable replaces the scalar at its leaf, and `VAULTIFY_LOG_LEVEL` feeds the console, file and root-logger levels |
| Config.ResolveWithoutSources | vaultify/config.py:116-126 | with no sources, `configure` succeeds with the defaults overlaid by `ENV_CFG` |
| Config.ConfigureWithoutSources | vaultify/config.py:106-128 | with no sources, provider and consumer settings are exactly the variables, the log file is `./vaultify.log` and every level is DEBUG unless set |
| Consumers.Overlay | vaultify/consumers.py:39-43 | writing from offset 0 without truncating: the new text, then the old content beyond it |
| Consumers.AfterWrite | vaultify/consumers.py:45-69 | after `write`, the path exists with the writer's mode and every other path is unchanged |
| Consumers.FileWriter.constructor | vaultify/consumers.py:31-36 | the writer keeps its path, mode and overwrite flag |
| Consumers.FileWriter.WriteDataToFd | vaultify/consumers.py:38-43 | the file is created with mode 0o200 if missing, and the data and a newline are written from offset 0 |
| Consumers.FileWriter.Write | vaultify/consumers.py:45-69 | the new file system is `AfterWrite` of the old one |
| Consumers.WriteCreates | vaultify/consumers.py:60-61 | a missing path is created holding the data and a newline |
| Consumers.WriteKeeps | vaultify/consumers.py:66-67 | without overwrite, an existing file keeps its content |
| Consumers.WriteOverwrites | vaultify/consumers.py:63-65 | with overwrite, the data and a newline replace the start of the file, and a longer old file keeps its tail |
| Consumers.WriteIdempotent | vaultify/consumers.py:45-69 | writing the same data twice leaves what writing it once does |
| Consumers.WriteExample | vaultify/consumers.py:47-58 | the `abc`, `def`, `ghj` example gives `abc\n`, `def\n`, `def\n` |
| Consumers.DotEnvWriter.constructor | vaultify/consumers.py:31-36 | the writer keeps its path, mode and overwrite flag |
| Consumers.EnvText | vaultify/consumers.py:83 | the export lines of the data joined by newlines |
| Consumers.DotEnvWriter.ConsumeSecrets | vaultify/consumers.py:82-83 | the file system afterwards is `write` of the export lines joined by newlines |
| Consumers.EnvTextLines | vaultify/consumers.py:82-83 | the lines of the written text are the export lines in order, and each reads back as its item |
| Consumers.DotEnvExample | vaultify/consumers.py:77-79 | the example text plus newline is `export K1='V1'\nexport K2='V2'\n`, and writing it with `overwrite` to a path not yet present creates exactly that file with the given mode |
| Consumers.EnvRunner.constructor | vaultify/consumers.py:135-136 | the command is `VAULTIFY_TARGET` if set, else the path, split on whitespace |
| Consumers.EnvRunner.PrepareEnv | vaultify/consumers.py:139-142 | the child environment is the current one with every key of the data overriding, and other keys unchanged |
| Pipeline.Provider.GetSecrets | vaultify/base.py:18-20 | the provider returns its bundle, and the call is counted |
| Pipeline.Consumer.ConsumeSecrets | vaultify/base.py:28-31 | the consumer returns its answer, and the received dictionary is recorded |
| Pipeline.Vaultify.constructor | vaultify/base.py:39-44 | the pipeline keeps its provider and consumer |
| Pipeline.Vaultify.Validate | vaultify/vaultify.py:38-55 | never fails; a ProviderError first if the provider is not a Provider, then a ConsumerError if the consumer is not a Consumer; empty exactly when both conform |
| Pipeline.Vaultify.GetSecrets | vaultify/vaultify.py:25-29 | delegates to the provider, once |
| Pipeline.Vaultify.ConsumeSecrets | vaultify/vaultify.py:31-36 | delegates to the consumer, once, and returns its answer |
| Pipeline.Vaultify.Collect | vaultify/vaultify.py:64-70 | the loop yields the bundle's aggregate and logs one masked copy of the whole bundle per set |
| Pipeline.Vaultify.Run | vaultify/vaultify.py:57-72 | the provider is called once; an empty bundle or None is refused with nothing consumed or logged; otherwise the consumer is called once with the unmasked aggregate and its answer is returned |
| Pipeline.Aggregate | vaultify/vaultify.py:64-70 | the secret sets applied with `update` to an empty dictionary, in bundle order |
| Pipeline.AggregateKeys | vaultify/vaultify.py:64-70 | the aggregate's keys are the union of the keys of all sets |
| Pipeline.AggregateLastWins | vaultify/vaultify.py:65-70 | each key holds the value from the last set, in bundle order, that has it |
| Pipeline.AggregateDistinct | vaultify/vaultify.py:64-70 | the aggregate is a dictionary with distinct keys |
| Pipeline.OneEmptySet | vaultify/vaultify.py:59-72 | a bundle with one empty set is not empty, and its aggregate is the empty dictionary |
| Pipeline.AggregateExample | vaultify/vaultify.py:64-70 | two sets sharing key A: the second set's value wins, and its key B follows |
| Pipeline.BundleTreeAt | vaultify/vaultify.py:66-69 | in the tree that is masked, a set name and one of its keys lead to that secret |
| Pipeline.LoggedRedacted | vaultify/vaultify.py:66-69 | in what is logged, every secret, reached by its set name and key, reads "***" |

## Left out

- The providers (`vaultify/providers.py`): glob, openssl/gpg subprocesses and the Vault client are I/O. Their only logic, `env2dict`, is modelled.
- `run_process`, `load_yaml_cfg_sources` and `prefer_env_if_not_none` are I/O helpers. The loaded YAML documents and the environment are inputs to `Configure`. A missing file simply contributes no document.
- `JsonWriter` and `YamlWriter` are left out because their output comes from the json and yaml libraries.
- Spawning the child in `EnvRunner` is left out. So are `FileNotFoundError` and printing its output: they are process I/O.
- The `factory` lookup by name, the logging configuration, `main` and the command line are left out. `main` ignores the result of `validate`.
- Logging is a ghost record, `Vaultify.logged`, holding the masked bundle passed to each `consuming secret` log call in `run`. The other log calls (the provider and consumer info lines, "enriched the environment"), log formatting and levels are not modelled.
- In the source, `Consumer` is an abstract base class, while `Provider` is a plain class whose abstract method is not enforced. Here both are classes with a `conforms` flag, which stands for the `isinstance` test. A provider returns a fixed response, and a consumer returns a fixed answer and records what it receives. Their `name` is how the object prints.
- Pipeline.Vaultify.Run: requires every set of a returned bundle to be a dictionary of strings with distinct keys. Non-dictionary sets and non-string secret values are not modelled.
- Merging.Merge: the in-place update of `a` and the sharing of `b`'s subtrees are not modelled, only the returned tree. For the same reason, the mutation of the module-level `LOG_CFG` by `configure` is not modelled. Each `configure` call starts from the constants.
- The `TypeError` re-wrapping in `yaml_dict_merge` is not modelled: a value of the tree datatype never raises one.
- Floats are exact reals. Only their truthiness and type matter to the merge and the masking.
- Dictionary keys are strings. The integer keys of the `mask_secrets` and `yaml_dict_merge` doctests are written as strings. Sets, tuples and other containers are one `Other` case carrying the type name.
- Consumers.Overlay: file content is modelled as characters, not bytes. The program overwrites the UTF-8 bytes from offset 0, so for non-ASCII text the kept tail starts after the byte length of the new text, and a cut inside a multi-byte character leaves invalid UTF-8. The model keeps the tail after the character length instead. The same applies to `Consumers.FileWriter.WriteDataToFd` and `Consumers.WriteOverwrites`.
- Consumers.FileWriter.WriteDataToFd: the two writes (data, then newline) are one write of both. The umask applied to the creation mode, permission errors and failed opens are not modelled.
- The environment has two representations. Where it is only read (`os.environ.get` in `configure` and in `EnvRunner`'s constructor), it is a map from names to values. Where `EnvRunner` copies it with `dict(os.environ)` and updates the copy, order matters, so `PrepareEnv` takes it as an ordered dictionary value; the process environment itself is not modelled.
