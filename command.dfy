/** Building the command line: `process_input_item` and `prepare_cmd` as
    functions of the session's cache and files. The class methods in the
    Session module run the same loops and are proved equal to these. */
module Command {
  import opened Wrappers
  import opened Bytes
  import opened Values
  import opened Config
  import opened Template
  import opened Resolve
  import opened Seqs
  import opened Paths

  /** The library calls `prepare_cmd` makes: `shlex.split` (None where it
      raises ValueError, e.g. on an unclosed quote), `shlex.join` and
      `os.path.abspath`. */
  datatype Shell = Shell(
    split: string -> Option<seq<string>>,
    join: seq<string> -> string,
    abspath: string -> string)

  /** `cmd_env`: the job directory, relative and absolute. */
  function CmdEnv(jobPath: string, shell: Shell): (env: map<string, string>)
    ensures env.Keys == {"cwd", "cwd_abs"}
    ensures env["cwd"] == jobPath && env["cwd_abs"] == shell.abspath(jobPath)
  {
    map["cwd" := jobPath, "cwd_abs" := shell.abspath(jobPath)]
  }

  /** The mapping `safe_substitute(cmd_env, **param_values)` reads: the
      resolved values, shown with `str`, in front of `cmd_env`. */
  function Mapping(cmdEnv: map<string, string>, values: map<string, Value>): (m: map<string, string>)
    ensures forall k :: k in m <==> k in values || k in cmdEnv
    ensures forall k :: k in values ==> m[k] == Str(values[k])
    ensures forall k :: k in cmdEnv && k !in values ==> m[k] == cmdEnv[k]
  {
    cmdEnv + map k | k in values :: Str(values[k])
  }

  /** The session's cache and files after processing an item, and its text
      or the error that stopped it. */
  datatype ItemResult = ItemResult(
    cache: map<string, Value>, files: map<string, seq<Byte>>, text: Result<string, ParamError>)

  /** `process_input_item(item, cmd_env, **kwargs)`. */
  function ProcessItem(inp: Inputs, cache: map<string, Value>, files: map<string, seq<Byte>>,
                       item: Value, cmdEnv: map<string, string>): ItemResult
  {
    if item.NoneValue? then ItemResult(cache, files, Ok(""))
    else
      var t := Str(item);
      var ids := Identifiers(t);
      if ids == [] then ItemResult(cache, files, Ok(t))
      else
        var o := GetParams(inp, cache, files, ids);
        if o.failure.Some? then ItemResult(o.state.cache, o.state.files, Err(o.failure.value))
        else ItemResult(o.state.cache, o.state.files, Ok(SafeSubstitute(t, Mapping(cmdEnv, o.state.ret))))
  }

  /** The first loop of `prepare_cmd`: every item processed in order, stopping
      at the first error. */
  datatype ItemsResult = ItemsResult(
    cache: map<string, Value>, files: map<string, seq<Byte>>, texts: Result<seq<string>, ParamError>)

  function ProcessItems(inp: Inputs, cache: map<string, Value>, files: map<string, seq<Byte>>,
                        items: seq<Value>, cmdEnv: map<string, string>): ItemsResult
    decreases |items|
  {
    if items == [] then ItemsResult(cache, files, Ok([]))
    else
      var r := ProcessItem(inp, cache, files, items[0], cmdEnv);
      if r.text.Err? then ItemsResult(r.cache, r.files, Err(r.text.error))
      else Prepend(r.text.value, ProcessItems(inp, r.cache, r.files, items[1..], cmdEnv))
  }

  function Prepend(text: string, r: ItemsResult): ItemsResult {
    if r.texts.Ok? then r.(texts := Ok([text] + r.texts.value)) else r
  }

  /** `texts` in front of the texts of `r`, if it has any. */
  function PrependAll(texts: seq<string>, r: ItemsResult): ItemsResult {
    if r.texts.Ok? then r.(texts := Ok(texts + r.texts.value)) else r
  }

  lemma PrependAllStep(texts: seq<string>, t: string, r: ItemsResult)
    ensures PrependAll(texts, Prepend(t, r)) == PrependAll(texts + [t], r)
  {
    if r.texts.Ok? {
      assert texts + ([t] + r.texts.value) == (texts + [t]) + r.texts.value;
    }
  }

  /** The second loop of `prepare_cmd`: the tokens of every text, in order,
      or the first text `shlex.split` rejects. */
  function SplitAll(split: string -> Option<seq<string>>, texts: seq<string>): Result<seq<string>, string>
    decreases |texts|
  {
    if texts == [] then Ok([])
    else if split(texts[0]).None? then Err(texts[0])
    else
      var rest := SplitAll(split, texts[1..]);
      if rest.Ok? then Ok(split(texts[0]).value + rest.value) else rest
  }

  /** `tokens` in front of the tokens of `r`, if it has any. */
  function PrependTokens(tokens: seq<string>, r: Result<seq<string>, string>): Result<seq<string>, string> {
    if r.Ok? then Ok(tokens + r.value) else r
  }

  /** The token lists of `texts`, one per text, when each of them splits. */
  function Pieces(split: string -> Option<seq<string>>, texts: seq<string>): seq<seq<string>>
    requires forall i :: 0 <= i < |texts| ==> split(texts[i]).Some?
  {
    seq(|texts|, i requires 0 <= i < |texts| => split(texts[i]).value)
  }

  datatype CmdError =
    | ParamFailed(error: ParamError)   // raised while resolving an item's identifiers
    | NoCommand                        // KeyError: the configuration has no `command`
    | Unsplittable(text: string)       // ValueError from shlex.split

  datatype Prepared = Prepared(
    cache: map<string, Value>, files: map<string, seq<Byte>>, cmd: Result<string, CmdError>)

  /** `prepare_cmd(**kwargs)`. */
  function PrepareCmd(inp: Inputs, cache: map<string, Value>, files: map<string, seq<Byte>>,
                      command: Option<seq<Value>>, shell: Shell): Prepared
  {
    if command.None? then Prepared(cache, files, Err(NoCommand))
    else
      var r := ProcessItems(inp, cache, files, command.value, CmdEnv(inp.jobPath, shell));
      if r.texts.Err? then Prepared(r.cache, r.files, Err(ParamFailed(r.texts.error)))
      else
        match SplitAll(shell.split, r.texts.value)
        case Err(t) => Prepared(r.cache, r.files, Err(Unsplittable(t)))
        case Ok(tokens) => Prepared(r.cache, r.files, Ok(shell.join(tokens)))
  }

  // ---------------------------------------------------------------------
  // Items

  /** An item without `$` is passed through as `str(item)` and touches
      neither the cache nor the files; a null item becomes the empty string. */
  lemma ItemWithoutDollar(inp: Inputs, cache: map<string, Value>, files: map<string, seq<Byte>>,
                          item: Value, cmdEnv: map<string, string>)
    requires item.NoneValue? || '$' !in Str(item)
    ensures ProcessItem(inp, cache, files, item, cmdEnv)
         == ItemResult(cache, files, Ok(if item.NoneValue? then "" else Str(item)))
  {
    if !item.NoneValue? {
      NoDelimiterUnchanged(Str(item), cmdEnv);
    }
  }

  /** An item whose `$`s are all escapes is passed through with `$$` still
      doubled, although substitution would have halved them. */
  lemma EscapesKeptWithoutIdentifiers(inp: Inputs, cache: map<string, Value>,
                                      files: map<string, seq<Byte>>, s: string, cmdEnv: map<string, string>)
    requires '$' in s
    ensures ProcessItem(inp, cache, files, Text(Escape(s)), cmdEnv) == ItemResult(cache, files, Ok(Escape(s)))
    ensures SafeSubstitute(Escape(s), cmdEnv) == s != Escape(s)
  {
    EscapeRoundTrip(s, cmdEnv);
    EscapeLonger(s);
  }

  lemma {:induction false} EscapeLonger(s: string)
    ensures |Escape(s)| == |s| + multiset(s)['$']
  {
    if s != [] {
      EscapeLonger(s[1..]);
      assert s == [s[0]] + s[1..];
      assert multiset(s) == multiset{s[0]} + multiset(s[1..]);
    }
  }

  /** `$name` or `${name}` for a name that is neither cached, declared nor
      supplied takes its value from `cmd_env`, or stays as written. */
  lemma UnresolvedPlaceholder(inp: Inputs, cache: map<string, Value>, files: map<string, seq<Byte>>,
                              n: string, cmdEnv: map<string, string>)
    requires IsIdentifier(n)
    requires n !in cache && Lookup(inp.params, n).None? && n !in inp.kwargs
    ensures ProcessItem(inp, cache, files, Text("$" + n), cmdEnv)
         == ItemResult(cache, files, Ok(if n in cmdEnv then cmdEnv[n] else "$" + n))
    ensures ProcessItem(inp, cache, files, Text("${" + n + "}"), cmdEnv)
         == ItemResult(cache, files, Ok(if n in cmdEnv then cmdEnv[n] else "${" + n + "}"))
  {
    DollarAndBracedForms(n);
    SingleUnresolved(inp, cache, files, n);
    assert Mapping(cmdEnv, map[]) == cmdEnv;
    SingleSubstitution(n, cmdEnv);
  }

  lemma SingleUnresolved(inp: Inputs, cache: map<string, Value>, files: map<string, seq<Byte>>, n: string)
    requires n !in cache && Lookup(inp.params, n).None? && n !in inp.kwargs
    ensures GetParams(inp, cache, files, [n]) == Outcome(State(map[], cache, files), None)
  {
    var s0 := State(map[], cache, files);
    assert Step(inp, s0, n) == Outcome(s0, None);
    assert [n][1..] == [];
    assert ResolveFrom(inp, s0, [n]) == ResolveFrom(inp, s0, []);
  }

  /** In particular `$cwd` and `${cwd_abs}` stand for the job directory,
      unless the caller or the configuration gives a parameter of that name. */
  lemma JobDirectoryPlaceholders(inp: Inputs, cache: map<string, Value>, files: map<string, seq<Byte>>,
                                 shell: Shell)
    requires "cwd" !in cache && Lookup(inp.params, "cwd").None? && "cwd" !in inp.kwargs
    requires "cwd_abs" !in cache && Lookup(inp.params, "cwd_abs").None? && "cwd_abs" !in inp.kwargs
    ensures ProcessItem(inp, cache, files, Text("$cwd"), CmdEnv(inp.jobPath, shell))
         == ItemResult(cache, files, Ok(inp.jobPath))
    ensures ProcessItem(inp, cache, files, Text("${cwd_abs}"), CmdEnv(inp.jobPath, shell))
         == ItemResult(cache, files, Ok(shell.abspath(inp.jobPath)))
  {
    CwdPlaceholder(inp, cache, files, CmdEnv(inp.jobPath, shell));
    CwdAbsPlaceholder(inp, cache, files, CmdEnv(inp.jobPath, shell));
  }

  lemma CwdPlaceholder(inp: Inputs, cache: map<string, Value>, files: map<string, seq<Byte>>,
                       env: map<string, string>)
    requires "cwd" !in cache && Lookup(inp.params, "cwd").None? && "cwd" !in inp.kwargs && "cwd" in env
    ensures ProcessItem(inp, cache, files, Text("$cwd"), env) == ItemResult(cache, files, Ok(env["cwd"]))
  {
    assert "$cwd" == "$" + "cwd";
    assert IsIdentifier("cwd");
    UnresolvedPlaceholder(inp, cache, files, "cwd", env);
  }

  lemma CwdAbsPlaceholder(inp: Inputs, cache: map<string, Value>, files: map<string, seq<Byte>>,
                          env: map<string, string>)
    requires "cwd_abs" !in cache && Lookup(inp.params, "cwd_abs").None? && "cwd_abs" !in inp.kwargs
    requires "cwd_abs" in env
    ensures ProcessItem(inp, cache, files, Text("${cwd_abs}"), env) == ItemResult(cache, files, Ok(env["cwd_abs"]))
  {
    assert "${cwd_abs}" == "${" + "cwd_abs" + "}";
    assert IsIdentifier("cwd_abs");
    UnresolvedPlaceholder(inp, cache, files, "cwd_abs", env);
  }

  /** `$name` for a declared parameter that is not yet cached substitutes
      the parameter's resolved value: the caller's value shown with `str` for
      a plain parameter, the file name for a `file` parameter (whose file is
      written); a missing required value is an error. */
  lemma DeclaredPlaceholder(inp: Inputs, cache: map<string, Value>, files: map<string, seq<Byte>>,
                            n: string, cmdEnv: map<string, string>)
    requires IsIdentifier(n) && n !in cache && Lookup(inp.params, n).Some?
    ensures var pc := Lookup(inp.params, n).value;
      var r := ProcessItem(inp, cache, files, Text("$" + n), cmdEnv);
      var v := Supplied(inp, n);
      && (pc.required && v.NoneValue? ==> r.text == Err(MissingRequired(n)) && r.cache == cache)
      && (!(pc.required && v.NoneValue?) && pc.kind == Plain ==>
            r == ItemResult(cache[n := v], files, Ok(Str(v))))
      && (!(pc.required && v.NoneValue?) && pc.kind == FileParam && !(v.Scalar? && v.truthy) ==>
            && r.text == Ok(FileName(n, pc))
            && r.files == files[JobFilePath(inp.jobPath, FileName(n, pc)) := FileBytes(v).value])
  {
    DollarAndBracedForms(n);
    var s0 := State(map[], cache, files);
    var o := Step(inp, s0, n);
    assert [n][1..] == [];
    assert GetParams(inp, cache, files, [n]) == if o.failure.Some? then o else ResolveFrom(inp, o.state, []);
    if o.failure.None? {
      SingleSubstitution(n, Mapping(cmdEnv, o.state.ret));
    }
  }

  // ---------------------------------------------------------------------
  // The whole command

  /** Processing the items never changes a cached value nor any file outside
      the job directory, whether it succeeds or stops at an error. */
  lemma {:induction false} ItemsKeepCacheAndOutside(inp: Inputs, cache: map<string, Value>,
                                                    files: map<string, seq<Byte>>, items: seq<Value>,
                                                    cmdEnv: map<string, string>)
    ensures var r := ProcessItems(inp, cache, files, items, cmdEnv);
      Extends(cache, r.cache) && SameOutside(files, r.files, inp.jobPath)
    decreases |items|
  {
    if items != [] {
      var r := ProcessItem(inp, cache, files, items[0], cmdEnv);
      ItemKeepsCacheAndOutside(inp, cache, files, items[0], cmdEnv);
      if r.text.Ok? {
        ItemsKeepCacheAndOutside(inp, r.cache, r.files, items[1..], cmdEnv);
      }
    }
  }

  /** Once every declared parameter is cached or declared as null (as
      `preprocess_params` leaves them), processing the items neither fails
      nor writes a file, and yields one text per item. */
  lemma {:induction false} SettledItemsWriteNothing(inp: Inputs, cache: map<string, Value>,
                                                    files: map<string, seq<Byte>>, items: seq<Value>,
                                                    cmdEnv: map<string, string>)
    requires forall n :: n in DeclaredNames(inp.params) ==> n in cache || Lookup(inp.params, n).None?
    ensures var r := ProcessItems(inp, cache, files, items, cmdEnv);
      r.texts.Ok? && |r.texts.value| == |items| && r.files == files
    decreases |items|
  {
    if items != [] {
      var r := ProcessItem(inp, cache, files, items[0], cmdEnv);
      SettledItemWritesNothing(inp, cache, files, items[0], cmdEnv);
      ItemKeepsCacheAndOutside(inp, cache, files, items[0], cmdEnv);
      assert forall n :: n in cache ==> n in r.cache;
      SettledItemsWriteNothing(inp, r.cache, r.files, items[1..], cmdEnv);
    }
  }

  lemma ItemKeepsCacheAndOutside(inp: Inputs, cache: map<string, Value>, files: map<string, seq<Byte>>,
                                 item: Value, cmdEnv: map<string, string>)
    ensures var r := ProcessItem(inp, cache, files, item, cmdEnv);
      Extends(cache, r.cache) && SameOutside(files, r.files, inp.jobPath)
  {
    if !item.NoneValue? && Identifiers(Str(item)) != [] {
      ResolveKeepsCacheAndOutside(inp, State(map[], cache, files), Identifiers(Str(item)));
    }
  }

  lemma SettledItemWritesNothing(inp: Inputs, cache: map<string, Value>, files: map<string, seq<Byte>>,
                                 item: Value, cmdEnv: map<string, string>)
    requires forall n :: n in DeclaredNames(inp.params) ==> n in cache || Lookup(inp.params, n).None?
    ensures var r := ProcessItem(inp, cache, files, item, cmdEnv);
      r.text.Ok? && r.files == files
  {
    if !item.NoneValue? && Identifiers(Str(item)) != [] {
      SettledNamesWriteNothing(inp, State(map[], cache, files), Identifiers(Str(item)));
    }
  }

  /** `SplitAll` succeeds exactly when every text splits, and then yields the
      concatenation of their token lists; otherwise it names the first text
      that does not split. */
  lemma {:induction false} SplitAllConcatenates(split: string -> Option<seq<string>>, texts: seq<string>)
    ensures SplitAll(split, texts).Ok? <==> forall i :: 0 <= i < |texts| ==> split(texts[i]).Some?
    ensures SplitAll(split, texts).Ok? ==> SplitAll(split, texts).value == Flatten(Pieces(split, texts))
    ensures SplitAll(split, texts).Err? ==>
      exists k :: 0 <= k < |texts| && SplitAll(split, texts).error == texts[k] && split(texts[k]).None?
        && forall i :: 0 <= i < k ==> split(texts[i]).Some?
    decreases |texts|
  {
    if texts != [] {
      SplitAllConcatenates(split, texts[1..]);
      if SplitAll(split, texts).Ok? {
        assert Pieces(split, texts) == [split(texts[0]).value] + Pieces(split, texts[1..]);
      }
      if SplitAll(split, texts).Err? && split(texts[0]).Some? {
        var k :| 0 <= k < |texts| - 1 && SplitAll(split, texts[1..]).error == texts[1..][k]
          && split(texts[1..][k]).None? && forall i :: 0 <= i < k ==> split(texts[1..][i]).Some?;
        assert texts[k + 1] == texts[1..][k];
      }
    }
  }

  /** When `shlex.split` undoes `shlex.join`, the prepared command line splits
      back into the tokens of the processed items, item after item. */
  lemma CommandLineRoundTrip(inp: Inputs, cache: map<string, Value>, files: map<string, seq<Byte>>,
                             command: Option<seq<Value>>, shell: Shell)
    requires forall xs :: shell.split(shell.join(xs)) == Some(xs)
    requires PrepareCmd(inp, cache, files, command, shell).cmd.Ok?
    ensures command.Some?
    ensures var texts := ProcessItems(inp, cache, files, command.value, CmdEnv(inp.jobPath, shell)).texts;
      && texts.Ok?
      && (forall i :: 0 <= i < |texts.value| ==> shell.split(texts.value[i]).Some?)
      && shell.split(PrepareCmd(inp, cache, files, command, shell).cmd.value)
           == Some(Flatten(Pieces(shell.split, texts.value)))
  {
    var texts := ProcessItems(inp, cache, files, command.value, CmdEnv(inp.jobPath, shell)).texts;
    SplitAllConcatenates(shell.split, texts.value);
  }
}
