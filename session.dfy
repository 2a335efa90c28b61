/** `CmdSession`: one command's execution, holding the command's
    configuration, the job id and the parameter cache, over a file store.
    Each method runs the loops of its Python counterpart and is proved equal
    to the function that specifies it in the Resolve, Command and Results
    modules; `Run` is proved equal to `RunSpec`. */
module Session {
  import opened Wrappers
  import opened Bytes
  import opened Values
  import opened Config
  import opened Files
  import opened Dict
  import Template
  import P = Paths
  import R = Resolve
  import C = Command
  import X = Results
  import Base64

  /** What the subprocess did: its captured output, and the files it created
      or overwrote. */
  datatype Spawned = Spawned(cap: X.Captured, written: map<string, seq<Byte>>)

  /** The calls the engine makes into code outside it: `shlex` and
      `os.path.abspath`, `create_subprocess_shell(cmd, cwd=...)` with
      `communicate()`, and `glob.glob`. */
  datatype Host = Host(
    shell: C.Shell,
    spawn: (string, string, map<string, seq<Byte>>) -> Spawned,
    glob: X.Glob)

  datatype RunError =
    | PreprocessFailed(paramError: R.ParamError)
    | PrepareFailed(cmdError: C.CmdError)
    | ExecuteFailed(execError: X.ExecError)

  class CmdSession {
    const config: CommandConfig
    /** `conf.CONFIG['default_workdir']`. */
    const defaultWorkdir: string
    const fs: FileStore
    var jobId: Option<string>
    var paramsCache: map<string, Value>

    constructor(config: CommandConfig, defaultWorkdir: string, fs: FileStore)
      ensures this.config == config && this.defaultWorkdir == defaultWorkdir && this.fs == fs
      ensures jobId == None && paramsCache == map[]
    {
      this.config := config;
      this.defaultWorkdir := defaultWorkdir;
      this.fs := fs;
      jobId := None;
      paramsCache := map[];
    }

    /** `get_job_path()`. */
    function JobPath(): string
      reads this
    {
      P.JobPath(config.cwd, defaultWorkdir, jobId)
    }

    /** `get_job_file_path(filename)`. */
    function JobFilePath(filename: string): string
      reads this
    {
      P.JobFilePath(JobPath(), filename)
    }

    /** What parameter resolution reads besides the names. */
    function Inputs(kwargs: map<string, Value>): R.Inputs
      reads this
    {
      R.Inputs(config.params, JobPath(), kwargs)
    }

    /** `get_params(*names, **kwargs)`. */
    method GetParams(names: seq<string>, kwargs: map<string, Value>) returns (r: Result<map<string, Value>, R.ParamError>)
      modifies this`paramsCache, fs`files
      ensures var o := R.GetParams(old(Inputs(kwargs)), old(paramsCache), old(fs.files), names);
        && paramsCache == o.state.cache && fs.files == o.state.files
        && r == (if o.failure.Some? then Err(o.failure.value) else Ok(o.state.ret))
    {
      ghost var inp := Inputs(kwargs);
      ghost var target := R.GetParams(inp, paramsCache, fs.files, names);
      var ret: map<string, Value> := map[];
      var i := 0;
      while i < |names|
        invariant 0 <= i <= |names|
        invariant Inputs(kwargs) == inp
        invariant R.ResolveFrom(inp, R.State(ret, paramsCache, fs.files), names[i..]) == target
      {
        ghost var before := R.State(ret, paramsCache, fs.files);
        ghost var step := R.Step(inp, before, names[i]);
        assert names[i..][0] == names[i] && names[i..][1..] == names[i + 1..];
        assert target == if step.failure.Some? then step else R.ResolveFrom(inp, step.state, names[i + 1..]);
        var failure;
        ret, failure := ResolveName(names[i], kwargs, ret);
        if failure.Some? {
          return Err(failure.value);
        }
        i := i + 1;
      }
      assert names[i..] == [];
      return Ok(ret);
    }

    /** One iteration of `get_params`'s loop, for `name`. */
    method ResolveName(name: string, kwargs: map<string, Value>, ret: map<string, Value>)
      returns (ret': map<string, Value>, failure: Option<R.ParamError>)
      modifies this`paramsCache, fs`files
      ensures var o := R.Step(old(Inputs(kwargs)), R.State(ret, old(paramsCache), old(fs.files)), name);
        R.State(ret', paramsCache, fs.files) == o.state && failure == o.failure
    {
      ret' := ret;
      failure := None;
      if name in paramsCache {
        ret' := ret[name := paramsCache[name]];
        return;
      }
      var pc := Lookup(config.params, name);
      if pc.None? {
        if name in kwargs {
          ret' := ret[name := kwargs[name]];
          paramsCache := paramsCache[name := ret'[name]];
        }
        return;
      }
      var value := if name in kwargs then kwargs[name] else NoneValue;
      if pc.value.required && value.NoneValue? {
        return ret, Some(R.MissingRequired(name));
      }
      if pc.value.kind == FileParam {
        var filename := if pc.value.filename != "" then pc.value.filename else name;
        var written := WriteParamFile(JobFilePath(filename), value);
        if !written {
          return ret, Some(R.UnwritableValue(name));
        }
        ret' := ret[name := Text(filename)];
      } else {
        ret' := ret[name := value];
      }
      paramsCache := paramsCache[name := ret'[name]];
    }

    /** `with open(path, 'wb') as fd: fd.write(value or b'')`, a string
        written as UTF-8; false when the write raises TypeError, which
        leaves the file created and empty. */
    method WriteParamFile(path: string, value: Value) returns (written: bool)
      modifies fs`files
      ensures var data := FileBytes(value);
        written == data.Some? && fs.files == old(fs.files)[path := if written then data.value else []]
    {
      fs.Write(path, []);
      var data := if Truthy(value) then value else Binary([]);
      if data.Text? {
        fs.Write(path, Encode(data.text));
      } else if data.Binary? {
        fs.Write(path, data.bytes);
      } else {
        return false;
      }
      return true;
    }

    /** `preprocess_params(**kwargs)`: `get_params(name, **kwargs)` for each
        key of `params`, in order. */
    method PreprocessParams(kwargs: map<string, Value>) returns (failure: Option<R.ParamError>)
      modifies this`paramsCache, fs`files
      ensures var p := R.Preprocess(old(Inputs(kwargs)), old(paramsCache), old(fs.files));
        paramsCache == p.cache && fs.files == p.files && failure == p.failure
    {
      ghost var inp := Inputs(kwargs);
      ghost var target := R.Preprocess(inp, paramsCache, fs.files);
      var names := DeclaredNames(config.params);
      for i := 0 to |names|
        invariant Inputs(kwargs) == inp
        invariant R.PreprocessFrom(inp, paramsCache, fs.files, names[i..]) == target
      {
        assert names[i..][0] == names[i] && names[i..][1..] == names[i + 1..];
        var r := GetParams([names[i]], kwargs);
        if r.Err? {
          return Some(r.error);
        }
      }
      assert names[|names|..] == [];
      return None;
    }

    /** `process_input_item(item, cmd_env, **kwargs)`. */
    method ProcessInputItem(item: Value, cmdEnv: map<string, string>, kwargs: map<string, Value>)
      returns (r: Result<string, R.ParamError>)
      modifies this`paramsCache, fs`files
      ensures var ir := C.ProcessItem(old(Inputs(kwargs)), old(paramsCache), old(fs.files), item, cmdEnv);
        r == ir.text && paramsCache == ir.cache && fs.files == ir.files
    {
      if item.NoneValue? {
        return Ok("");
      }
      var t := Str(item);
      var ids := Template.GetIdentifiers(t);
      if ids != [] {
        var values := GetParams(ids, kwargs);
        if values.Err? {
          return Err(values.error);
        }
        return Ok(Template.SafeSubstitute(t, C.Mapping(cmdEnv, values.value)));
      }
      return Ok(t);
    }

    /** `prepare_cmd(**kwargs)`. */
    method PrepareCmd(kwargs: map<string, Value>, shell: C.Shell) returns (r: Result<string, C.CmdError>)
      modifies this`paramsCache, fs`files
      ensures var pr := C.PrepareCmd(old(Inputs(kwargs)), old(paramsCache), old(fs.files), config.command, shell);
        r == pr.cmd && paramsCache == pr.cache && fs.files == pr.files
    {
      var cmdEnv := map["cwd" := JobPath(), "cwd_abs" := shell.abspath(JobPath())];
      if config.command.None? {
        return Err(C.NoCommand);
      }
      var argsList := ProcessItems(config.command.value, cmdEnv, kwargs);
      if argsList.Err? {
        return Err(C.ParamFailed(argsList.error));
      }
      var tokens := SplitItems(argsList.value, shell.split);
      if tokens.Err? {
        return Err(C.Unsplittable(tokens.error));
      }
      return Ok(shell.join(tokens.value));
    }

    /** The first loop of `prepare_cmd`, appending each processed item. */
    method ProcessItems(items: seq<Value>, cmdEnv: map<string, string>, kwargs: map<string, Value>)
      returns (r: Result<seq<string>, R.ParamError>)
      modifies this`paramsCache, fs`files
      ensures var ir := C.ProcessItems(old(Inputs(kwargs)), old(paramsCache), old(fs.files), items, cmdEnv);
        r == ir.texts && paramsCache == ir.cache && fs.files == ir.files
    {
      ghost var inp := Inputs(kwargs);
      ghost var target := C.ProcessItems(inp, paramsCache, fs.files, items, cmdEnv);
      var argsList: seq<string> := [];
      assert items[0..] == items;
      if target.texts.Ok? {
        assert [] + target.texts.value == target.texts.value;
      }
      for i := 0 to |items|
        invariant Inputs(kwargs) == inp
        invariant C.PrependAll(argsList, C.ProcessItems(inp, paramsCache, fs.files, items[i..], cmdEnv)) == target
      {
        assert items[i..][0] == items[i] && items[i..][1..] == items[i + 1..];
        var text := ProcessInputItem(items[i], cmdEnv, kwargs);
        if text.Err? {
          return Err(text.error);
        }
        C.PrependAllStep(argsList, text.value, C.ProcessItems(inp, paramsCache, fs.files, items[i + 1..], cmdEnv));
        argsList := argsList + [text.value];
      }
      assert items[|items|..] == [] && argsList + [] == argsList;
      return Ok(argsList);
    }

    /** `execute(cmd, **kwargs)` from the point where the command has run and
        `communicate()` returned `cap`: the log record decodes stderr, then
        each `return` item is stored in order, then `job_id`. */
    method Execute(cap: X.Captured, glob: X.Glob) returns (r: Result<Dict<X.Output>, X.ExecError>)
      ensures r == X.Execute(config.returnEntries, jobId, X.Ctx(cap, JobPath(), fs.files, glob))
    {
      var stderrText := Decode(cap.stderr);
      if stderrText.None? {
        return Err(X.StderrNotUtf8);
      }
      ghost var ctx := X.Ctx(cap, JobPath(), fs.files, glob);
      var entries := config.returnEntries;
      var ret: Dict<X.Output> := [];
      ghost var outs: seq<(string, X.Output)> := [];
      for i := 0 to |entries|
        invariant X.Effects(entries[..i], ctx) == Ok(outs)
        invariant ret == X.Build([], outs)
      {
        ghost var eff := X.EntryEffect(entries[i], ctx);
        var stored := StoreEntry(entries[i], cap, glob, ret);
        X.EffectsStep(entries, i, ctx, outs);
        if stored.Err? {
          return Err(stored.error);
        }
        outs := outs + X.Stored(eff.value);
        ret := stored.value;
      }
      assert entries[..|entries|] == entries;
      ret := Put(ret, "job_id", X.JobIdOut(jobId));
      return Ok(ret);
    }

    /** The body of `execute`'s loop for one `return` item. */
    method StoreEntry(entry: ReturnEntry, cap: X.Captured, glob: X.Glob, ret: Dict<X.Output>)
      returns (r: Result<Dict<X.Output>, X.ExecError>)
      ensures r == X.Apply(ret, X.EntryEffect(entry, X.Ctx(cap, JobPath(), fs.files, glob)))
    {
      match entry
      case Bare(w) =>
        if w == "stdout" {
          var text := Decode(cap.stdout);
          if text.None? {
            return Err(X.StdoutNotUtf8);
          }
          return Ok(Put(ret, "stdout", X.TextOut(text.value)));
        } else if w == "stderr" {
          var text := Decode(cap.stderr);
          if text.None? {
            return Err(X.StderrNotUtf8);
          }
          return Ok(Put(ret, "stderr", X.TextOut(text.value)));
        }
        return Ok(ret);
      case OtherEntry =>
        return Ok(ret);
      case Structured(name, kind, filename, _, _, _) =>
        if name.None? {
          return Err(X.MissingKey("name"));
        }
        if kind.None? {
          return Err(X.MissingKey("type"));
        }
        var d := ret;
        if kind.value == "file" {
          if filename.None? {
            return Err(X.MissingKey("filename"));
          }
          var path := JobFilePath(filename.value);
          var data := fs.Read(path);
          if data.None? {
            return Err(X.Unreadable(path));
          }
          d := Put(d, name.value, X.PayloadOut(X.MakePayload(data.value, None, entry)));
        }
        if kind.value == "stdout" || kind.value == "stderr" {
          var data := if kind.value == "stdout" then cap.stdout else cap.stderr;
          d := Put(d, name.value, X.PayloadOut(X.MakePayload(data, None, entry)));
        } else if kind.value == "file_list" {
          r := StoreFileList(entry, cap, glob, d);
          return;
        }
        return Ok(d);
    }

    /** A `file_list` item: an empty list stored under its name, then one
        payload appended per file the pattern matches, in match order. */
    method StoreFileList(entry: ReturnEntry, cap: X.Captured, glob: X.Glob, ret: Dict<X.Output>)
      returns (r: Result<Dict<X.Output>, X.ExecError>)
      requires entry.Structured? && entry.name.Some?
      ensures var ctx := X.Ctx(cap, JobPath(), fs.files, glob);
        var ps := X.ListPayloads(X.Matched(entry, ctx), entry, ctx);
        r == if ps.Err? then Err(ps.error) else Ok(Put(ret, entry.name.value, X.PayloadList(ps.value)))
    {
      ghost var ctx := X.Ctx(cap, JobPath(), fs.files, glob);
      var name := entry.name.value;
      var d := Put(ret, name, X.PayloadList([]));
      var matched: seq<string> := [];
      if entry.glob.Some? && entry.glob.value != "" {
        matched := glob(entry.glob.value, JobPath(), fs.files);
      }
      var payloads: seq<X.Payload> := [];
      assert matched[..0] == [];
      for j := 0 to |matched|
        invariant X.ListPayloads(matched[..j], entry, ctx) == Ok(payloads)
        invariant d == Put(ret, name, X.PayloadList(payloads))
      {
        var path := JobFilePath(matched[j]);
        var data := fs.Read(path);
        X.ListStep(matched, j, entry, ctx, payloads);
        if data.None? {
          return Err(X.Unreadable(path));
        }
        PutTwice(ret, name, X.PayloadList(payloads), X.PayloadList(payloads + [X.MakePayload(data.value, Some(matched[j]), entry)]));
        payloads := payloads + [X.MakePayload(data.value, Some(matched[j]), entry)];
        d := Put(d, name, X.PayloadList(payloads));
      }
      assert matched[..|matched|] == matched;
      return Ok(d);
    }

    /** Entering `job_context`: a fresh job id, and its directory created. */
    method OpenJob(uuid: string)
      modifies this`jobId, fs`dirs
      ensures jobId == Some(uuid)
      ensures fs.dirs == old(fs.dirs) + {P.JobPath(config.cwd, defaultWorkdir, Some(uuid))}
    {
      jobId := Some(uuid);
      fs.MakeDirs(JobPath());
    }

    /** Leaving `job_context`, on every exit path: the job directory removed,
        then the job id reset. */
    method CloseJob()
      modifies this`jobId, fs
      ensures jobId == None
      ensures fs.files == PruneFiles(old(fs.files), old(JobPath()))
      ensures fs.dirs == PruneDirs(old(fs.dirs), old(JobPath()))
    {
      fs.RemoveTree(JobPath());
      jobId := None;
    }

    /** `run(**kwargs)` with `uuid` as the fresh job id: the body of
        `job_context`, then its clean-up, whichever way the body ends. The
        `True` that accompanies a result is left implicit. */
    method Run(uuid: string, kwargs: map<string, Value>, host: Host) returns (r: Result<Dict<X.Output>, RunError>)
      modifies this`jobId, this`paramsCache, fs
      ensures jobId == None
      ensures var rs := RunSpec(config, defaultWorkdir, uuid, kwargs, host, old(paramsCache), old(fs.files), old(fs.dirs));
        r == rs.result && paramsCache == rs.cache && fs.files == rs.files && fs.dirs == rs.dirs
    {
      OpenJob(uuid);
      r := RunInJob(kwargs, host);
      CloseJob();
    }

    /** The body of `run` inside `job_context`: preprocess, prepare, run the
        command in the job directory, collect the result. */
    method RunInJob(kwargs: map<string, Value>, host: Host) returns (r: Result<Dict<X.Output>, RunError>)
      modifies this`paramsCache, fs`files
      ensures var jo := InJob(config, old(Inputs(kwargs)), host, old(paramsCache), old(fs.files), jobId);
        r == jo.result && paramsCache == jo.cache && fs.files == jo.files
    {
      var failure := PreprocessParams(kwargs);
      if failure.Some? {
        return Err(PreprocessFailed(failure.value));
      }
      var cmd := PrepareCmd(kwargs, host.shell);
      if cmd.Err? {
        return Err(PrepareFailed(cmd.error));
      }
      var spawned := host.spawn(cmd.value, JobPath(), fs.files);
      fs.WriteAll(spawned.written);
      var result := Execute(spawned.cap, host.glob);
      if result.Err? {
        return Err(ExecuteFailed(result.error));
      }
      return Ok(result.value);
    }
  }

  /** The second loop of `prepare_cmd`, extending the argument list with the
      tokens of each item; the first item `split` rejects is the error. */
  method SplitItems(argsList: seq<string>, split: string -> Option<seq<string>>) returns (r: Result<seq<string>, string>)
    ensures r == C.SplitAll(split, argsList)
  {
    var tokens: seq<string> := [];
    assert argsList[0..] == argsList;
    if C.SplitAll(split, argsList).Ok? {
      assert [] + C.SplitAll(split, argsList).value == C.SplitAll(split, argsList).value;
    }
    for j := 0 to |argsList|
      invariant C.PrependTokens(tokens, C.SplitAll(split, argsList[j..])) == C.SplitAll(split, argsList)
    {
      assert argsList[j..][0] == argsList[j] && argsList[j..][1..] == argsList[j + 1..];
      var pieces := split(argsList[j]);
      if pieces.None? {
        return Err(argsList[j]);
      }
      ghost var later := C.SplitAll(split, argsList[j + 1..]);
      if later.Ok? {
        assert tokens + (pieces.value + later.value) == (tokens + pieces.value) + later.value;
      }
      tokens := tokens + pieces.value;
    }
    assert argsList[|argsList|..] == [] && tokens + [] == tokens;
    return Ok(tokens);
  }

  // ---------------------------------------------------------------------
  // run, as a function

  /** What the body of `job_context` leaves: its result, the cache, the
      files, and what the command did if it was started. */
  datatype JobOutcome = JobOutcome(
    result: Result<Dict<X.Output>, RunError>,
    cache: map<string, Value>,
    files: map<string, seq<Byte>>,
    spawned: Option<Spawned>)

  function InJob(config: CommandConfig, inp: R.Inputs, host: Host, cache: map<string, Value>,
                 files: map<string, seq<Byte>>, jobId: Option<string>): JobOutcome
  {
    var pre := R.Preprocess(inp, cache, files);
    if pre.failure.Some? then JobOutcome(Err(PreprocessFailed(pre.failure.value)), pre.cache, pre.files, None)
    else
      var prep := C.PrepareCmd(inp, pre.cache, pre.files, config.command, host.shell);
      if prep.cmd.Err? then JobOutcome(Err(PrepareFailed(prep.cmd.error)), prep.cache, prep.files, None)
      else
        var sp := host.spawn(prep.cmd.value, inp.jobPath, prep.files);
        var files' := prep.files + sp.written;
        var ex := X.Execute(config.returnEntries, jobId, X.Ctx(sp.cap, inp.jobPath, files', host.glob));
        JobOutcome(if ex.Err? then Err(ExecuteFailed(ex.error)) else Ok(ex.value), prep.cache, files', Some(sp))
  }

  datatype RunResult = RunResult(
    result: Result<Dict<X.Output>, RunError>,
    cache: map<string, Value>,
    files: map<string, seq<Byte>>,
    dirs: set<string>,
    spawned: Option<Spawned>)

  /** `run(**kwargs)` on a session with cache `cache`, over `files` and
      `dirs`, with `uuid` as the job id. */
  function RunSpec(config: CommandConfig, defaultWorkdir: string, uuid: string, kwargs: map<string, Value>,
                   host: Host, cache: map<string, Value>, files: map<string, seq<Byte>>, dirs: set<string>): RunResult
  {
    var jp := P.JobPath(config.cwd, defaultWorkdir, Some(uuid));
    var jo := InJob(config, R.Inputs(config.params, jp, kwargs), host, cache, files, Some(uuid));
    RunResult(jo.result, jo.cache, PruneFiles(jo.files, jp), PruneDirs(dirs + {jp}, jp), jo.spawned)
  }

  // ---------------------------------------------------------------------
  // Properties of a run

  /** Preparing the command after a successful `preprocess_params` writes no
      file and fails only for want of a `command` or on an unsplittable
      item: every file parameter is written exactly once per session. */
  lemma PrepareAfterPreprocessWritesNothing(inp: R.Inputs, cache: map<string, Value>,
                                            files: map<string, seq<Byte>>, command: Option<seq<Value>>, shell: C.Shell)
    requires R.Preprocess(inp, cache, files).failure.None?
    ensures var pre := R.Preprocess(inp, cache, files);
      var prep := C.PrepareCmd(inp, pre.cache, pre.files, command, shell);
      prep.files == pre.files && !(prep.cmd.Err? && prep.cmd.error.ParamFailed?)
  {
    var pre := R.Preprocess(inp, cache, files);
    R.PreprocessSettles(inp, cache, files);
    if command.Some? {
      C.SettledItemsWriteNothing(inp, pre.cache, pre.files, command.value, C.CmdEnv(inp.jobPath, shell));
    }
  }

  /** Whatever happens in the body, the run leaves no trace of the job
      directory: the directory and every file below it are gone. Outside
      it, the files are those before the run, plus what the command wrote
      if it was started; other directories are untouched. The command is
      started exactly when preprocessing and preparation succeed, in the job
      directory, and sees the files as preprocessing left them. */
  lemma RunCleansUp(config: CommandConfig, defaultWorkdir: string, uuid: string, kwargs: map<string, Value>,
                    host: Host, cache: map<string, Value>, files: map<string, seq<Byte>>, dirs: set<string>)
    ensures var rs := RunSpec(config, defaultWorkdir, uuid, kwargs, host, cache, files, dirs);
      var jp := P.JobPath(config.cwd, defaultWorkdir, Some(uuid));
      var base := if rs.spawned.Some? then files + rs.spawned.value.written else files;
      && jp !in rs.dirs
      && (forall p :: p in rs.files ==> p != jp && !P.Under(p, jp))
      && (forall p :: p != jp && !P.Under(p, jp) ==>
            (p in rs.files <==> p in base) && (p in base ==> rs.files[p] == base[p]))
      && (forall d :: d != jp && !P.Under(d, jp) ==> (d in rs.dirs <==> d in dirs))
  {
    var jp := P.JobPath(config.cwd, defaultWorkdir, Some(uuid));
    var inp := R.Inputs(config.params, jp, kwargs);
    var pre := R.Preprocess(inp, cache, files);
    R.PreprocessKeepsCacheAndOutside(inp, cache, files);
    if pre.failure.None? && config.command.Some? {
      C.ItemsKeepCacheAndOutside(inp, pre.cache, pre.files, config.command.value, C.CmdEnv(jp, host.shell));
      PrepareAfterPreprocessWritesNothing(inp, cache, files, config.command, host.shell);
    }
  }

  /** A successful run's result ends with `job_id`, the job's id. */
  lemma RunResultCarriesJobId(config: CommandConfig, defaultWorkdir: string, uuid: string, kwargs: map<string, Value>,
                              host: Host, cache: map<string, Value>, files: map<string, seq<Byte>>, dirs: set<string>)
    requires RunSpec(config, defaultWorkdir, uuid, kwargs, host, cache, files, dirs).result.Ok?
    ensures var d := RunSpec(config, defaultWorkdir, uuid, kwargs, host, cache, files, dirs).result.value;
      Get(d, "job_id") == Some(X.TextOut(uuid))
  {
    var rs := RunSpec(config, defaultWorkdir, uuid, kwargs, host, cache, files, dirs);
    var sp := rs.spawned.value;
    var jp := P.JobPath(config.cwd, defaultWorkdir, Some(uuid));
    var inp := R.Inputs(config.params, jp, kwargs);
    var pre := R.Preprocess(inp, cache, files);
    var prep := C.PrepareCmd(inp, pre.cache, pre.files, config.command, host.shell);
    X.ExecuteShape(config.returnEntries, Some(uuid), X.Ctx(sp.cap, jp, prep.files + sp.written, host.glob));
  }

  /** A declared required parameter that the caller left out or set to null,
      and that the session has not resolved before, fails the run before the
      command is started. */
  lemma RunMissingRequired(config: CommandConfig, defaultWorkdir: string, uuid: string, kwargs: map<string, Value>,
                           host: Host, cache: map<string, Value>, files: map<string, seq<Byte>>, dirs: set<string>,
                           n: string)
    requires Lookup(config.params, n).Some? && Lookup(config.params, n).value.required
    requires n !in cache && (n !in kwargs || kwargs[n].NoneValue?)
    ensures var rs := RunSpec(config, defaultWorkdir, uuid, kwargs, host, cache, files, dirs);
      rs.result.Err? && rs.result.error.PreprocessFailed? && rs.spawned.None?
  {
    var jp := P.JobPath(config.cwd, defaultWorkdir, Some(uuid));
    var inp := R.Inputs(config.params, jp, kwargs);
    var s0 := R.State(map[], cache, files);
    R.PreprocessIsOneResolution(inp, s0, DeclaredNames(config.params));
    R.MissingRequiredFails(inp, s0, DeclaredNames(config.params), n);
  }

  /** Preprocessing a single `file` parameter that succeeds leaves the
      uploaded bytes in its file. */
  lemma PreprocessWritesUpload(f: string, pc: ParamConfig, jp: string, kwargs: map<string, Value>,
                               cache: map<string, Value>, files: map<string, seq<Byte>>)
    requires pc.kind == FileParam && f !in cache
    requires R.Preprocess(R.Inputs(Params([ParamEntry(f, Some(pc))]), jp, kwargs), cache, files).failure.None?
    ensures var inp := R.Inputs(Params([ParamEntry(f, Some(pc))]), jp, kwargs);
      var pre := R.Preprocess(inp, cache, files);
      var path := P.JobFilePath(jp, R.FileName(f, pc));
      && FileBytes(R.Supplied(inp, f)).Some?
      && path in pre.files && pre.files[path] == FileBytes(R.Supplied(inp, f)).value
  {
    var inp := R.Inputs(Params([ParamEntry(f, Some(pc))]), jp, kwargs);
    assert DeclaredNames(inp.params) == [f];
    assert Lookup(inp.params, f) == Some(pc);
    assert [f][1..] == [];
    var o := R.GetParams(inp, cache, files, [f]);
    assert R.Preprocess(inp, cache, files) == (if o.failure.Some? then R.Progress(o.state.cache, o.state.files, o.failure)
                                               else R.PreprocessFrom(inp, o.state.cache, o.state.files, []));
    R.SingleCall(inp, R.State(map[], cache, files), f);
    R.FileParamWritesItsFile(inp, cache, files, f);
  }

  /** A successful `execute` whose only item returns a file holds that
      file's bytes under the item's name. */
  lemma ExecuteReturnsFile(entry: ReturnEntry, jobId: Option<string>, ctx: X.Ctx)
    requires entry.Structured? && entry.name.Some? && entry.name.value != "job_id"
    requires entry.kind == Some("file") && entry.filename.Some?
    requires X.Execute([entry], jobId, ctx).Ok?
    ensures var d := X.Execute([entry], jobId, ctx).value;
      var path := P.JobFilePath(ctx.jobPath, entry.filename.value);
      && path in ctx.files
      && Get(d, entry.name.value).Some? && Get(d, entry.name.value).value.PayloadOut?
      && Base64.Decode(Get(d, entry.name.value).value.payload.body) == Some(ctx.files[path])
  {
    X.StructuredFile(entry, ctx);
    assert [entry][..0] == [];
    X.ExecuteShape([entry], jobId, ctx);
  }

  /** End to end: a command with one `file` parameter that returns that file
      (and does not overwrite it) gives back, base64-encoded, exactly the
      bytes the caller uploaded (a string's UTF-8 encoding, empty for a
      missing or falsy value). */
  lemma UploadedFileIsReturned(cwd: string, f: string, pc: ParamConfig, command: Option<seq<Value>>,
                               o: string, g: Option<string>, m: Option<string>, e: Option<string>,
                               defaultWorkdir: string, uuid: string, kwargs: map<string, Value>,
                               host: Host, cache: map<string, Value>, files: map<string, seq<Byte>>, dirs: set<string>)
    requires pc.kind == FileParam && f !in cache && o != "job_id"
    requires forall c, d, fl :: P.JobFilePath(d, R.FileName(f, pc)) !in host.spawn(c, d, fl).written
    requires var config := CommandConfig(cwd, Params([ParamEntry(f, Some(pc))]), command,
                                         [Structured(Some(o), Some("file"), Some(R.FileName(f, pc)), g, m, e)]);
      RunSpec(config, defaultWorkdir, uuid, kwargs, host, cache, files, dirs).result.Ok?
    ensures var config := CommandConfig(cwd, Params([ParamEntry(f, Some(pc))]), command,
                                        [Structured(Some(o), Some("file"), Some(R.FileName(f, pc)), g, m, e)]);
      var d := RunSpec(config, defaultWorkdir, uuid, kwargs, host, cache, files, dirs).result.value;
      var v := if f in kwargs then kwargs[f] else NoneValue;
      && FileBytes(v).Some?
      && Get(d, o).Some? && Get(d, o).value.PayloadOut?
      && Base64.Decode(Get(d, o).value.payload.body) == FileBytes(v)
  {
    var entry := Structured(Some(o), Some("file"), Some(R.FileName(f, pc)), g, m, e);
    var config := CommandConfig(cwd, Params([ParamEntry(f, Some(pc))]), command, [entry]);
    var jp := P.JobPath(config.cwd, defaultWorkdir, Some(uuid));
    var inp := R.Inputs(config.params, jp, kwargs);
    var path := P.JobFilePath(jp, R.FileName(f, pc));
    var pre := R.Preprocess(inp, cache, files);
    PreprocessWritesUpload(f, pc, jp, kwargs, cache, files);
    PrepareAfterPreprocessWritesNothing(inp, cache, files, config.command, host.shell);
    var prep := C.PrepareCmd(inp, pre.cache, pre.files, config.command, host.shell);
    var sp := host.spawn(prep.cmd.value, jp, prep.files);
    var files' := prep.files + sp.written;
    assert path !in sp.written;
    ExecuteReturnsFile(entry, Some(uuid), X.Ctx(sp.cap, jp, files', host.glob));
  }
}
