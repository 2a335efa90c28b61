# servecmd execution engine in Dafny

servecmd serves a registry of pre-configured shell commands over HTTP. A
request names a command and supplies parameters, as JSON values or uploaded
files. The engine does five things:

- resolves those parameters against the command's `params` declaration;
- writes file parameters into a per-job directory;
- substitutes the resolved values into the command's `string.Template` items;
- re-tokenizes the items with `shlex` and runs the command line in the job directory;
- assembles the declared `return` items into a result.

The job directory is removed on every exit path.

This project models that engine:

- `CmdSession` (in `servecmd/cmd_session.py`), together with `to_base64` and `process_web_cmd`;
- the `Template.get_identifiers` back-patch in `servecmd/util.py`.

Each module has one job:

- **Template**: the scanner of Python's default `string.Template` pattern, `get_identifiers` (a loop method proved equal to its specification function) and `safe_substitute`.
- **Values**: the values a caller can supply. It gives `str()` of them, including CPython's bytes repr, and the bytes a `file` parameter writes.
- **Bytes**, **Base64**: the UTF-8 codec (`str.encode` and `bytes.decode`) and RFC 4648 section 4 base64 (`b64encode`). Both come with round-trip proofs.
- **Config**: the command configuration as the engine reads it.
- **Paths**: `get_job_path` and `get_job_file_path`.
- **Files**: the file system, as a `FileStore` class with a directory set and a file map. It provides `makedirs`, `rmtree`, `open(..., 'wb').write` and `open(..., 'rb').read`.
- **Resolve**: `get_params` and `preprocess_params` as functions of the session's memo cache and the files, plus the properties the cache gives them.
- **Command**: `process_input_item` and `prepare_cmd` as functions.
- **Results** and **Dict**: the return-assembly loop of `execute` over an insertion-ordered dict.
- **Session**: the `CmdSession` class. Its fields are `job_id` and `_params_cache`, and it works over a `FileStore`. Each method runs its Python counterpart's loops imperatively and is proved equal to the function in Resolve, Command or Results that specifies it. `Run` is proved equal to `RunSpec`, and the end-to-end lemmas are stated about `RunSpec`.
- **Web**: `process_web_cmd`.
- **Findings**: one discrepancy in the source, described under "Findings".

These library calls are parameters of the model, not modelled code:

- `shlex.split`, `shlex.join` and `os.path.abspath` are the `Shell` record.
- `create_subprocess_shell` with `communicate()` is a function from the command line, the working directory and the files to the captured output and the files written.
- `glob.glob` is a function of the pattern, the root directory and the files.
- `uuid.uuid4()` is an argument of `Run`.

Where the code's behaviour may be unexpected, this model follows the code, with one exception: a null `params` is handled as the corrected `preprocess_params` handles it (see Findings).

- A declared, optional plain parameter the caller leaves out resolves to `None`, and its placeholder is substituted as the text `None`, not as an empty string.
- A command item without any identifier is passed through as `str(item)`, so `$$` in it stays doubled. Only items with an identifier have `$$` turned into `$`.
- A caller-supplied value named `cwd` or `cwd_abs` takes precedence over the job directory in substitution. The resolved parameters come before `cmd_env` in the lookup chain.
- The parameter cache belongs to the session, not to one run, so a second run on the same session reuses the values of the first.
- `execute` decodes stderr as UTF-8 for its log record before it assembles anything. Captured stderr that is not valid UTF-8 therefore fails the run, even when no `return` item mentions stderr.
- The entries of a `file_list` result carry their file name under the key `fielname`, as the code spells it.
- In a structured `return` item, `type: file` and `type: stdout`/`stderr` are tested by two separate `if` statements. `file_list` is the `elif` of the second one.

## Model

| member | source | states |
|---|---|---|
| Template.IdentAt | servecmd/util.py:18-19 | an identifier is found exactly when the text starts with a letter or `_`, and it is the longest run of identifier characters, so the next character cannot continue it |
| Template.MatchAt | servecmd/util.py:18-25 | every match at a `$` sets exactly one group, chosen by what follows: escaped exactly for `$$`, named exactly when a letter or `_` follows (the longest name), braced exactly when an identifier in braces follows, invalid (a lone `$`) in every other case |
| Template.GetIdentifiers | servecmd/util.py:16-30 | the back-patched loop returns exactly `Identifiers(t)`, and its ValueError branch is never taken |
| Template.FindIterWellFormed | servecmd/util.py:23-29 | every match the scanner yields sets exactly one group, so the "unrecognized named group" error cannot be raised |
| Template.IdentifiersDistinctInOrder | servecmd/util.py:18-22 | each identifier is returned once, the identifiers are exactly the names the matches carry, and they are listed in order of first occurrence |
| Template.IdentifierSyntax | servecmd/util.py:18-20 | every returned identifier is a valid name that occurs in the template as `$name` or `${name}` |
| Template.DollarAndBracedForms | servecmd/util.py:19-20 | `$name` and `${name}` both yield exactly `[name]` |
| Template.EscapeRoundTrip | servecmd/util.py:23-25 | a text made only of literal characters and `$$` escapes has no identifiers, and substitution turns it back into the unescaped text |
| Template.NoDelimiterUnchanged | servecmd/cmd_session.py:116-122 | a template without `$` has no matches and substitutes to itself |
| Template.SingleSubstitution | servecmd/cmd_session.py:120 | `$name` or `${name}` becomes the mapping's value for `name`, and is kept as written when the mapping has none |
| Template.SubstituteReadsIdentifiersOnly | servecmd/cmd_session.py:117-120 | substitution reads the mapping only at the template's identifiers, so resolving just those names loses nothing |
| Values.FileBytes | servecmd/cmd_session.py:96-100 | a falsy value writes empty bytes, a string its UTF-8 encoding, bytes themselves; exactly a truthy value of any other type cannot be written |
| Values.BytesReprPrintable | servecmd/cmd_session.py:115 | `str()` of a bytes value, as substituted into an item, is printable ASCII only |
| Bytes.DecodeEncode | servecmd/cmd_session.py:98-99 | decoding the UTF-8 encoding of a string gives the string back |
| Bytes.EncodeDecode | servecmd/cmd_session.py:152-158 | decoding succeeds only on a valid UTF-8 encoding, which re-encodes to the same bytes |
| Base64.DecodeEncode | servecmd/cmd_session.py:36-38 | decoding the base64 text of any byte string gives it back |
| Results.ToBase64 | servecmd/cmd_session.py:36-38 | the body decodes back to exactly the bytes that were encoded |
| Paths.RStrip | servecmd/cmd_session.py:61-62 | `rstrip('/')` leaves a prefix of the input that does not end in `/`, having removed only `/`s |
| Paths.JobPathEndsWithId | servecmd/cmd_session.py:60-62 | the job path is the base directory without its trailing slashes, then `/`, then the job id |
| Paths.TrailingSlashIgnored | servecmd/cmd_session.py:61-62 | a trailing `/` on `cwd` does not change the job path |
| Paths.JobDirsDisjoint | servecmd/cmd_session.py:50-52 | distinct job ids without `/` give distinct job directories, and no path string starts with both |
| Paths.JobFileIsUnder | servecmd/cmd_session.py:64-65 | every job file path starts with the job directory and `/` |
| Config.Lookup | servecmd/cmd_session.py:77-82 | an undeclared name has no configuration, and a declared name gets the configuration of its first entry, None when that entry is null |
| Config.DeclaredNames | servecmd/cmd_session.py:107-108 | the keys of `params` in declaration order |
| Files.PruneFiles | servecmd/cmd_session.py:71-73 | after `rmtree(dir)` a file remains exactly when it is neither the directory nor below it, and remaining files keep their contents |
| Files.PruneDirs | servecmd/cmd_session.py:71-73 | after `rmtree(dir)` a directory remains exactly when it is neither the directory nor below it |
| Files.FileStore.Read | servecmd/cmd_session.py:162-163 | a read succeeds exactly when the file exists, and gives its contents |
| Files.FileStore.MakeDirs | servecmd/cmd_session.py:67-69 | the job directory exists afterwards, and nothing else changes |
| Files.FileStore.RemoveTree | servecmd/cmd_session.py:71-73 | the directory and everything below it are gone, and nothing else changes |
| Files.FileStore.Write | servecmd/cmd_session.py:96-100 | the file is created or truncated and then holds the data |
| Files.FileStore.WriteAll | servecmd/cmd_session.py:140-146 | the files the command wrote replace or join the existing ones |
| Resolve.ResolveKeepsCacheAndOutside | servecmd/cmd_session.py:75-105 | a `get_params` call never changes or drops a cached value, and writes nothing outside the job directory, even when it raises |
| Resolve.ResolvedNamesAreCached | servecmd/cmd_session.py:78-104 | after a successful call, every returned key was requested and is cached with the returned value; every requested name is returned unless it is undeclared and unsupplied, in which case it is not cached either |
| Resolve.UndeclaredPassesThrough | servecmd/cmd_session.py:82-89 | an undeclared, uncached name is returned with the caller's value when supplied, and otherwise is neither returned nor cached |
| Resolve.UncachedStaysUncached | servecmd/cmd_session.py:83-89 | a name that is neither cached, declared nor supplied is never cached or returned |
| Resolve.MissingRequiredFails | servecmd/cmd_session.py:91-93 | a required, uncached parameter whose value is missing or None makes the call raise |
| Resolve.FileParamWritesItsFile | servecmd/cmd_session.py:94-101 | a `file` parameter writes `<job path>/<filename or name>`, resolves and is cached as that filename, and writes empty bytes for a falsy value, UTF-8 for a string and the bytes for bytes; any other truthy value raises with the file left empty and the cache unchanged |
| Resolve.SettledNamesWriteNothing | servecmd/cmd_session.py:79-81 | when every requested name is cached or undeclared, the call never fails, writes nothing, keeps the cache and returns each cached name's cached value |
| Resolve.RepeatIsExact | servecmd/cmd_session.py:79-81 | with every name settled, a call leaves the cache and the files as they were and returns exactly the cached requested names |
| Resolve.SecondResolutionIsPure | servecmd/cmd_session.py:79-104 | resolving the same names again, with any caller values, never fails, writes no file and returns every earlier value unchanged; with the same caller values it is a no-op that returns the same result |
| Resolve.PreprocessIsOneResolution | servecmd/cmd_session.py:107-109 | one `get_params` call per declared name has the same effect on the cache and the files, and fails the same way, as one call for all the names |
| Resolve.PreprocessSettles | servecmd/cmd_session.py:107-109 | after a successful `preprocess_params`, every declared name is cached or declared as null, so no later `get_params` call in the session fails or writes a file |
| Resolve.PreprocessKeepsCacheAndOutside | servecmd/cmd_session.py:107-109 | `preprocess_params` writes nothing outside the job directory and never changes a cached value |
| Command.CmdEnv | servecmd/cmd_session.py:126-128 | `cmd_env` has exactly the keys `cwd` (the job path) and `cwd_abs` (its absolute path) |
| Command.Mapping | servecmd/cmd_session.py:120 | substitution looks names up among the resolved values shown with `str()` first, then in `cmd_env` |
| Command.ItemWithoutDollar | servecmd/cmd_session.py:111-122 | a None item becomes `''`, and an item without `$` is passed through as `str(item)`; neither touches the cache or the files |
| Command.EscapesKeptWithoutIdentifiers | servecmd/cmd_session.py:117-122 | an item whose only `$`s are `$$` escapes is passed through with the `$$` still doubled, although substitution would have halved them |
| Command.UnresolvedPlaceholder | servecmd/cmd_session.py:118-120 | a placeholder whose name is neither cached, declared nor supplied takes its value from `cmd_env`, or stays as written |
| Command.JobDirectoryPlaceholders | servecmd/cmd_session.py:124-128 | `$cwd` and `${cwd_abs}` stand for the job directory and its absolute path unless a parameter of that name exists |
| Command.DeclaredPlaceholder | servecmd/cmd_session.py:118-120 | a declared placeholder becomes the caller's value shown with `str()` for a plain parameter, or the file name (with the file written) for a `file` parameter; a missing required value is an error |
| Command.ItemsKeepCacheAndOutside | servecmd/cmd_session.py:129-130 | processing the items never changes a cached value or a file outside the job directory |
| Command.SettledItemsWriteNothing | servecmd/cmd_session.py:129-130 | once every declared parameter is cached or declared as null, processing the items never fails, writes no file and yields one text per item |
| Command.SplitAllConcatenates | servecmd/cmd_session.py:131-133 | re-tokenizing succeeds exactly when every item splits, and then yields the concatenation of the items' token lists in order; otherwise the error names the first item that does not split |
| Command.CommandLineRoundTrip | servecmd/cmd_session.py:124-134 | when `split` undoes `join`, the prepared command line splits back into the tokens of the processed items, item after item |
| Results.BuildKeysAndValues | servecmd/cmd_session.py:154-188 | storing into an empty dict keeps each key at the place of its first store, with the value of its last store |
| Results.ExecuteShape | servecmd/cmd_session.py:147-190 | the result succeeds exactly when stderr decodes and no item raises; its keys are those stored, in first-store order, then `job_id`, which always holds the job id; every other key holds its last stored value |
| Results.EffectsConcat | servecmd/cmd_session.py:154 | items are visited in declaration order, and the first error stops the visit |
| Results.BareCapture | servecmd/cmd_session.py:155-158 | a bare `stdout` or `stderr` item stores the text whose UTF-8 encoding is exactly the captured bytes, and raises when there is none |
| Results.StructuredCapture | servecmd/cmd_session.py:169-174 | a `stdout`/`stderr` item stores the captured bytes base64-encoded, valid UTF-8 or not, with `mimetype` defaulting to `''` and `encoding` to `base64` |
| Results.StructuredFile | servecmd/cmd_session.py:162-168 | a `file` item stores `<job path>/<filename>` base64-encoded, with the same defaults, and raises when the key or the file is missing |
| Results.StructuredIncomplete | servecmd/cmd_session.py:159-188 | an item without `name` or `type` raises KeyError, and one of an unknown type stores nothing |
| Results.ListPayloadsSpec | servecmd/cmd_session.py:181-188 | a file list has one payload per matched file, in match order, each with its name under `fielname` and the file's bytes as body; it fails exactly when a matched file is missing |
| Results.FileList | servecmd/cmd_session.py:175-188 | a `file_list` item stores an empty list when `glob` is missing or empty, and otherwise the payloads of the matched files |
| Session.CmdSession.constructor | servecmd/cmd_session.py:45-48 | a new session has no job id and an empty parameter cache |
| Session.CmdSession.GetParams | servecmd/cmd_session.py:75-105 | the loop leaves the cache and the files as `Resolve.GetParams` describes, and returns its result or error |
| Session.CmdSession.ResolveName | servecmd/cmd_session.py:78-104 | one loop iteration is one `Resolve.Step` |
| Session.CmdSession.WriteParamFile | servecmd/cmd_session.py:96-100 | the file holds the value's bytes, or is left empty when writing raises |
| Session.CmdSession.PreprocessParams | servecmd/cmd_session.py:107-109 | the cache, the files and the error are those of `Resolve.Preprocess` |
| Session.CmdSession.ProcessInputItem | servecmd/cmd_session.py:111-122 | the text, the cache and the files are those of `Command.ProcessItem` |
| Session.CmdSession.PrepareCmd | servecmd/cmd_session.py:124-134 | the command line, the cache and the files are those of `Command.PrepareCmd` |
| Session.CmdSession.ProcessItems | servecmd/cmd_session.py:129-130 | the first loop of `prepare_cmd` yields the texts of `Command.ProcessItems` |
| Session.SplitItems | servecmd/cmd_session.py:131-133 | the second loop of `prepare_cmd` yields `Command.SplitAll` |
| Session.CmdSession.Execute | servecmd/cmd_session.py:147-190 | the assembled result is `Results.Execute` over the job directory and the current files |
| Session.CmdSession.StoreEntry | servecmd/cmd_session.py:155-188 | one loop iteration applies the item's effect to the dict |
| Session.CmdSession.StoreFileList | servecmd/cmd_session.py:175-188 | an empty list is stored under the name, then one payload is appended per match, or the first unreadable match is the error |
| Session.CmdSession.OpenJob | servecmd/cmd_session.py:50-54 | entering the job context sets the job id and creates its directory |
| Session.CmdSession.CloseJob | servecmd/cmd_session.py:56-58 | leaving it removes the job directory tree and resets the job id to None |
| Session.CmdSession.Run | servecmd/cmd_session.py:192-200 | the job id is None afterwards, and the result, cache, files and directories are those of `RunSpec` |
| Session.CmdSession.RunInJob | servecmd/cmd_session.py:193-200 | preprocess, prepare, run the command in the job directory and assemble the result, each error stopping the run |
| Session.PrepareAfterPreprocessWritesNothing | servecmd/cmd_session.py:107-134 | after a successful `preprocess_params`, `prepare_cmd` writes no file and cannot fail on a parameter, so each file parameter is written once per session |
| Session.RunCleansUp | servecmd/cmd_session.py:50-58 | whichever way a run ends, the job directory and every file below it are gone, and everything outside is as before plus what the command wrote |
| Session.RunResultCarriesJobId | servecmd/cmd_session.py:189 | a successful run's result holds the job's id under `job_id` |
| Session.RunMissingRequired | servecmd/cmd_session.py:91-93 | a required parameter the caller left out or set to null fails the run before the command is started |
| Session.PreprocessWritesUpload | servecmd/cmd_session.py:94-101 | preprocessing one `file` parameter leaves the uploaded bytes in its file |
| Session.ExecuteReturnsFile | servecmd/cmd_session.py:162-168 | a `file` item in the result carries that file's bytes |
| Session.UploadedFileIsReturned | servecmd/cmd_session.py:94-168 | a command with one `file` parameter that returns that file gives back, base64-encoded, exactly the bytes the caller uploaded |
| Web.MergeArgsKeys | servecmd/cmd_session.py:204-207 | the run's arguments are exactly the JSON keys and the uploads' filenames |
| Web.LastUploadWins | servecmd/cmd_session.py:206-207 | an uploaded file overrides the JSON value of the same name, and of several uploads with one filename the last wins |
| Web.JsonValueKept | servecmd/cmd_session.py:205 | a JSON key that no upload names keeps its value |
| Web.CollectArgs | servecmd/cmd_session.py:204-207 | the merging loop builds `MergeArgs` |
| Web.ProcessWebCmd | servecmd/cmd_session.py:203-212 | an unknown command gives `(False, {'code': 1, 'message': 'Command <cmd> not found.'})` and touches nothing; otherwise a fresh session runs the command with the merged arguments |
| Findings.PreprocessAsWritten | servecmd/cmd_session.py:107-109 | `preprocess_params` as written raises exactly when `params` is null |
| Findings.NullParamsCrash | servecmd/cmd_session.py:77 | with `params: null`, every `get_params` call succeeds, while `preprocess_params` as written raises |
| Findings.CorrectedPreprocess | servecmd/cmd_session.py:107-109 | the corrected `preprocess_params` agrees with the code whenever the code completes, and on a null `params` it succeeds and changes nothing |

## Left out

- Subprocess spawning, `communicate()`, the return code and the timing. The command line goes to the `spawn` function of `Session.Host`, which returns the captured output and the files the command wrote. The command cannot delete files.
- Logging (`json_log_info` and the log calls in `run` and `execute`) and `datetime.now()`, except that the log record decodes stderr. That decode is modelled because it can fail.
- `load_config`, `load_all_configs`, `util.process_request` and the HTTP layer.
- `cmd_manager` is not part of this model. The registry `process_web_cmd` consults is an input map, and a configuration that is present but empty, which is falsy in Python, is not distinguished from a present one.
- Operating-system failures: permissions, a missing parent directory, a full disk, a job directory deleted while the job runs. Writes always succeed, and `makedirs` adds just the job directory.
- asyncio concurrency. Two sessions running at once are covered only by `Paths.JobDirsDisjoint`.
- Config.ReturnEntry: a `return` key that is present with a null value is treated as missing. The code would use `None`, for example as a `mimetype`.
- Config.CommandConfig: configuration values of unexpected types are not modelled, such as a `cwd` or `filename` that is not a string, a `params` that is not a mapping, or a null `default_workdir`.
- Session.CmdSession.Run: a keyword argument named `self`, `item`, `cmd_env` or `cmd` clashes with a formal parameter of `run`, `process_input_item` or `execute`, and Python raises TypeError. Arguments are passed here as a map, so that clash is not modelled.
- Session.CmdSession.Run: Python reports errors as exceptions. Here they are the `Err` case of a result, and the `True` paired with a successful result is left implicit.
- `shlex.split`, `shlex.join`, `os.path.abspath`, `glob.glob` and `uuid.uuid4` are inputs whose internals are not modelled. Only `Command.CommandLineRoundTrip` assumes that `split` undoes `join`.
- Web.ProcessWebCmd: an upload's `filename` is always a string. A form part without a filename would be stored under `None`.
- Files.FileStore: paths are strings and are not normalised. `..`, `.` and repeated `/` are not resolved, so a configured `filename` or a glob match such as `../x` names a key under the job directory, while the operating system would use a file outside it.
- Paths.JobFileIsUnder: "under the job directory" is a string-prefix test, so for a configured `filename` with a `..` segment it does not mean that the file is inside the directory.
- Paths.JobDirsDisjoint: two jobs whose configured `filename` climbs out with `..` can share one file on disk. The lemma separates only path strings.
- Resolve.ResolveKeepsCacheAndOutside: "nothing outside the job directory" is meant textually. A `..` filename writes outside the directory on disk.
- Resolve.PreprocessKeepsCacheAndOutside: the same textual reading of "outside" as `Resolve.ResolveKeepsCacheAndOutside`.
- Command.ItemsKeepCacheAndOutside: the same textual reading of "outside" as `Resolve.ResolveKeepsCacheAndOutside`.
- Session.RunCleansUp: removing the job directory removes every file whose path string starts with it. A file that a `..` filename placed outside the directory survives `rmtree` in the program.
- Session.CmdSession.PreprocessParams: it follows the corrected `preprocess_params`, so a null `params` succeeds with nothing to do. The code as written raises TypeError there, which `Findings.PreprocessAsWritten` models.
- Session.CmdSession.Run: it uses the corrected `preprocess_params`, so with `params: null` the command runs, where the code as written raises TypeError before spawning it.
- Session.CmdSession.RunInJob: the same null-`params` difference as `Session.CmdSession.Run`.
- Config.CommandConfig: a `return` key that is present with a null value cannot be represented, because `returnEntries` is a sequence. In the code, `execute` then iterates `None` and raises TypeError after the command has run.
- Values.FileBytes: a Python string can hold a lone surrogate, which `.encode('utf-8')` rejects with an error. A Dafny `string` cannot hold one, so here every string can be written.
- Results.Execute: `file` and `file_list` read files through `ctx.files`. File handles are not modelled, and a matched name that is not a regular file counts as unreadable.

## Findings

| source | as written | input that shows it | evidently intended | confidence | as-written member | corrected member |
|---|---|---|---|---|---|---|
| servecmd/cmd_session.py:107-108 | `preprocess_params` iterates `cmd_config.get('params', {})`, which is `None` when the key is present but null, so the loop raises TypeError. `get_params` reads `cmd_config.get('params') or {}` and accepts a null `params` | a configuration with `params: null` and any request | a null `params` is treated as empty, as `get_params` treats it | medium, not executed | Findings.NullParamsCrash | Findings.CorrectedPreprocess |
