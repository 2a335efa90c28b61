/** Parameter resolution, `CmdSession.get_params`, as a function of the
    session's cache and the file system, and the properties the memo cache
    gives it. The class method in the Session module runs the same loop
    imperatively and is proved equal to `GetParams`. */
module Resolve {
  import opened Wrappers
  import opened Bytes
  import opened Values
  import opened Config
  import opened Paths

  datatype ParamError =
    | MissingRequired(name: string)   // ValueError("Missing required param: <name>")
    | UnwritableValue(name: string)   // TypeError from writing a value that is not bytes

  /** What one call reads besides the names: the declared parameters, the job
      directory, and the caller's values. */
  datatype Inputs = Inputs(params: ParamsField, jobPath: string, kwargs: map<string, Value>)

  /** The call's local result `ret`, the session's `_params_cache`, and the files. */
  datatype State = State(ret: map<string, Value>, cache: map<string, Value>, files: map<string, seq<Byte>>)

  /** The state reached, and the error raised if the loop stopped early. */
  datatype Outcome = Outcome(state: State, failure: Option<ParamError>)

  /** `param_config.get('filename') or param_name`. */
  function FileName(name: string, pc: ParamConfig): string {
    if pc.filename != "" then pc.filename else name
  }

  /** `kwargs.get(name)`. */
  function Supplied(inp: Inputs, name: string): Value {
    if name in inp.kwargs then inp.kwargs[name] else NoneValue
  }

  /** One iteration of the loop, for `name`. */
  function Step(inp: Inputs, s: State, name: string): Outcome {
    if name in s.cache then
      Outcome(s.(ret := s.ret[name := s.cache[name]]), None)
    else
      match Lookup(inp.params, name)
      case None =>
        if name in inp.kwargs then
          Outcome(State(s.ret[name := inp.kwargs[name]], s.cache[name := inp.kwargs[name]], s.files), None)
        else
          Outcome(s, None)
      case Some(pc) =>
        var value := Supplied(inp, name);
        if pc.required && value.NoneValue? then
          Outcome(s, Some(MissingRequired(name)))
        else if pc.kind == FileParam then
          var fname := FileName(name, pc);
          var path := JobFilePath(inp.jobPath, fname);
          match FileBytes(value)
          case Some(data) =>
            Outcome(State(s.ret[name := Text(fname)], s.cache[name := Text(fname)], s.files[path := data]), None)
          case None =>
            // open(path, 'wb') has already truncated the file when write raises
            Outcome(s.(files := s.files[path := []]), Some(UnwritableValue(name)))
        else
          Outcome(State(s.ret[name := value], s.cache[name := value], s.files), None)
  }

  /** The loop over `names` from state `s`, stopping at the first error. */
  function ResolveFrom(inp: Inputs, s: State, names: seq<string>): Outcome
    decreases |names|
  {
    if names == [] then Outcome(s, None)
    else
      var o := Step(inp, s, names[0]);
      if o.failure.Some? then o else ResolveFrom(inp, o.state, names[1..])
  }

  /** `get_params(*names, **kwargs)` on a session whose cache is `cache`. */
  function GetParams(inp: Inputs, cache: map<string, Value>, files: map<string, seq<Byte>>,
                     names: seq<string>): Outcome
  {
    ResolveFrom(inp, State(map[], cache, files), names)
  }

  /** `files` and `files'` hold the same entries at every path string that
      does not start with `dir/`. */
  ghost predicate SameOutside(files: map<string, seq<Byte>>, files': map<string, seq<Byte>>, dir: string) {
    forall p :: !Under(p, dir) ==>
      (p in files <==> p in files') && (p in files ==> files[p] == files'[p])
  }

  /** `m'` extends `m`: every entry of `m` is kept with its value. */
  predicate Extends(m: map<string, Value>, m': map<string, Value>) {
    forall k :: k in m ==> k in m' && m'[k] == m[k]
  }

  // ---------------------------------------------------------------------
  // What every call keeps, whether it succeeds or raises

  /** Cached values are never changed or dropped, and nothing outside the job
      directory is written. */
  lemma {:induction false} ResolveKeepsCacheAndOutside(inp: Inputs, s: State, names: seq<string>)
    ensures Extends(s.cache, ResolveFrom(inp, s, names).state.cache)
    ensures SameOutside(s.files, ResolveFrom(inp, s, names).state.files, inp.jobPath)
    decreases |names|
  {
    if names != [] {
      var o := Step(inp, s, names[0]);
      StepKeepsCacheAndOutside(inp, s, names[0]);
      if o.failure.None? {
        ResolveKeepsCacheAndOutside(inp, o.state, names[1..]);
      }
    }
  }

  lemma StepKeepsCacheAndOutside(inp: Inputs, s: State, name: string)
    ensures Extends(s.cache, Step(inp, s, name).state.cache)
    ensures SameOutside(s.files, Step(inp, s, name).state.files, inp.jobPath)
  {
    if name !in s.cache && Lookup(inp.params, name).Some? {
      var pc := Lookup(inp.params, name).value;
      var value := Supplied(inp, name);
      if !(pc.required && value.NoneValue?) && pc.kind == FileParam {
        var path := JobFilePath(inp.jobPath, FileName(name, pc));
        JobFileIsUnder(inp.jobPath, FileName(name, pc));
        var data := if FileBytes(value).Some? then FileBytes(value).value else [];
        assert Step(inp, s, name).state.files == s.files[path := data];
        WriteUnderKeepsOutside(s.files, path, data, inp.jobPath);
      }
    }
  }

  lemma WriteUnderKeepsOutside(files: map<string, seq<Byte>>, path: string, data: seq<Byte>, dir: string)
    requires Under(path, dir)
    ensures SameOutside(files, files[path := data], dir)
  {
  }


  // ---------------------------------------------------------------------
  // What a successful call returns

  /** Every returned name is cached with the returned value. */
  predicate Coherent(s: State) {
    forall k :: k in s.ret ==> k in s.cache && s.cache[k] == s.ret[k]
  }

  lemma StepFacts(inp: Inputs, s: State, name: string)
    requires Coherent(s)
    ensures var o := Step(inp, s, name);
      && Coherent(o.state)
      && (forall k :: k in o.state.ret ==> k in s.ret || k == name)
      && (forall k :: k in s.ret ==> k in o.state.ret && o.state.ret[k] == s.ret[k])
      && (o.failure.None? ==>
            name in o.state.ret || (name !in o.state.cache && Lookup(inp.params, name).None? && name !in inp.kwargs))
  {
    if name in s.cache {
    } else if Lookup(inp.params, name).None? {
    } else {
      var pc := Lookup(inp.params, name).value;
      var value := Supplied(inp, name);
      if pc.required && value.NoneValue? {
      } else if pc.kind == FileParam {
        if FileBytes(value).Some? {
          assert Step(inp, s, name).state.ret == s.ret[name := Text(FileName(name, pc))];
        }
      } else {
        assert Step(inp, s, name).state.ret == s.ret[name := value];
      }
    }
  }

  lemma {:induction false} ResolveFacts(inp: Inputs, s: State, names: seq<string>)
    requires Coherent(s)
    ensures var o := ResolveFrom(inp, s, names);
      && Coherent(o.state)
      && (forall k :: k in o.state.ret ==> k in s.ret || k in names)
      && (forall k :: k in s.ret ==> k in o.state.ret && o.state.ret[k] == s.ret[k])
      && (o.failure.None? ==> forall n :: n in names ==>
            n in o.state.ret || (n !in o.state.cache && Lookup(inp.params, n).None? && n !in inp.kwargs))
    decreases |names|
  {
    if names != [] {
      var o1 := Step(inp, s, names[0]);
      StepFacts(inp, s, names[0]);
      if o1.failure.None? {
        ResolveFacts(inp, o1.state, names[1..]);
        if names[0] !in o1.state.ret {
          UncachedStaysUncached(inp, o1.state, names[1..], names[0]);
        }
      }
    }
  }

  /** A name that is neither cached, declared nor supplied is never cached or returned. */
  lemma {:induction false} UncachedStaysUncached(inp: Inputs, s: State, names: seq<string>, n: string)
    requires n !in s.cache && n !in s.ret && Lookup(inp.params, n).None? && n !in inp.kwargs
    ensures n !in ResolveFrom(inp, s, names).state.cache && n !in ResolveFrom(inp, s, names).state.ret
    decreases |names|
  {
    if names != [] {
      var o := Step(inp, s, names[0]);
      StepKeepsUncached(inp, s, names[0], n);
      if o.failure.None? {
        UncachedStaysUncached(inp, o.state, names[1..], n);
      }
    }
  }

  lemma StepKeepsUncached(inp: Inputs, s: State, name: string, n: string)
    requires n !in s.cache && n !in s.ret && Lookup(inp.params, n).None? && n !in inp.kwargs
    ensures n !in Step(inp, s, name).state.cache && n !in Step(inp, s, name).state.ret
  {
    if name == n {
      assert Step(inp, s, name) == Outcome(s, None);
    } else {
      StepTouchesOnlyName(inp, s, name);
    }
  }

  /** A step changes the result and the cache at its own name only. */
  lemma StepTouchesOnlyName(inp: Inputs, s: State, name: string)
    ensures var o := Step(inp, s, name);
      && (forall k :: k != name ==> (k in o.state.ret <==> k in s.ret))
      && (forall k :: k != name && k in s.ret ==> o.state.ret[k] == s.ret[k])
      && (forall k :: k != name ==> (k in o.state.cache <==> k in s.cache))
      && (forall k :: k != name && k in s.cache ==> o.state.cache[k] == s.cache[k])
  {
    if name !in s.cache && Lookup(inp.params, name).Some? {
      var pc := Lookup(inp.params, name).value;
      var value := Supplied(inp, name);
      if !(pc.required && value.NoneValue?) && pc.kind == FileParam && FileBytes(value).Some? {
        var t := Text(FileName(name, pc));
        assert Step(inp, s, name).state.ret == s.ret[name := t];
        assert Step(inp, s, name).state.cache == s.cache[name := t];
      }
    }
  }

  /** After a successful call the result holds only requested names, each
      cached with the returned value; every requested name is returned unless
      it is undeclared and was not supplied, in which case it is not cached
      either. */
  lemma ResolvedNamesAreCached(inp: Inputs, cache: map<string, Value>,
                               files: map<string, seq<Byte>>, names: seq<string>)
    requires GetParams(inp, cache, files, names).failure.None?
    ensures var st := GetParams(inp, cache, files, names).state;
      && (forall k :: k in st.ret ==> k in names && k in st.cache && st.cache[k] == st.ret[k])
      && (forall n :: n in names ==>
            n in st.ret || (n !in st.cache && Lookup(inp.params, n).None? && n !in inp.kwargs))
      && (forall n :: n in names ==> (n in st.ret <==> n in st.cache))
  {
    ResolveFacts(inp, State(map[], cache, files), names);
  }

  /** An undeclared name passes through when the caller supplied it, and is
      otherwise left out of the result and the cache. */
  lemma UndeclaredPassesThrough(inp: Inputs, cache: map<string, Value>,
                                files: map<string, seq<Byte>>, names: seq<string>, n: string)
    requires GetParams(inp, cache, files, names).failure.None?
    requires n in names && n !in cache && Lookup(inp.params, n).None?
    ensures var st := GetParams(inp, cache, files, names).state;
      if n in inp.kwargs then n in st.ret && st.ret[n] == inp.kwargs[n]
      else n !in st.ret && n !in st.cache
  {
    if n in inp.kwargs {
      UndeclaredSuppliedFrom(inp, State(map[], cache, files), names, n);
    } else {
      UncachedStaysUncached(inp, State(map[], cache, files), names, n);
    }
  }

  lemma {:induction false} UndeclaredSuppliedFrom(inp: Inputs, s: State, names: seq<string>, n: string)
    requires ResolveFrom(inp, s, names).failure.None?
    requires Lookup(inp.params, n).None? && n in inp.kwargs
    requires n in names || (n in s.ret && s.ret[n] == inp.kwargs[n])
    requires n in s.cache ==> s.cache[n] == inp.kwargs[n]
    ensures var st := ResolveFrom(inp, s, names).state; n in st.ret && st.ret[n] == inp.kwargs[n]
    decreases |names|
  {
    if names != [] {
      var o := Step(inp, s, names[0]);
      if names[0] == n {
        assert n !in s.cache ==> o.state.ret == s.ret[n := inp.kwargs[n]];
      } else {
        StepTouchesOnlyName(inp, s, names[0]);
        assert names == [names[0]] + names[1..];
      }
      UndeclaredSuppliedFrom(inp, o.state, names[1..], n);
    }
  }

  /** A declared, required parameter whose value is missing or null stops
      resolution with an error, unless it was already resolved. */
  lemma {:induction false} MissingRequiredFails(inp: Inputs, s: State, names: seq<string>, n: string)
    requires n in names && n !in s.cache
    requires Lookup(inp.params, n).Some? && Lookup(inp.params, n).value.required
    requires Supplied(inp, n).NoneValue?
    ensures ResolveFrom(inp, s, names).failure.Some?
    decreases |names|
  {
    if names[0] != n {
      var o := Step(inp, s, names[0]);
      if o.failure.None? {
        assert n !in o.state.cache;
        MissingRequiredFails(inp, o.state, names[1..], n);
      }
    }
  }

  /** A declared `file` parameter writes its bytes to `<job path>/<filename>`
      and resolves to the filename, not the bytes: a falsy value writes
      empty bytes, a string its UTF-8 encoding (which decodes back to it),
      bytes themselves; any other value raises after the file is created
      (and truncated), leaving the cache as it was. */
  lemma FileParamWritesItsFile(inp: Inputs, cache: map<string, Value>,
                               files: map<string, seq<Byte>>, n: string)
    requires n !in cache
    requires Lookup(inp.params, n).Some? && Lookup(inp.params, n).value.kind == FileParam
    requires !(Lookup(inp.params, n).value.required && Supplied(inp, n).NoneValue?)
    ensures var pc := Lookup(inp.params, n).value;
      var path := JobFilePath(inp.jobPath, FileName(n, pc));
      var o := GetParams(inp, cache, files, [n]);
      && path in o.state.files
      && (o.failure.None? <==> !(Supplied(inp, n).Scalar? && Supplied(inp, n).truthy))
      && (o.failure.None? ==>
            && o.state.ret == map[n := Text(FileName(n, pc))]
            && o.state.cache == cache[n := Text(FileName(n, pc))]
            && o.state.files == files[path := FileBytes(Supplied(inp, n)).value])
      && (o.failure.Some? ==>
            && o.failure == Some(UnwritableValue(n))
            && o.state.cache == cache
            && o.state.files == files[path := []])
      && (!Truthy(Supplied(inp, n)) ==> o.state.files[path] == [])
      && (Supplied(inp, n).Text? ==> Decode(o.state.files[path]) == Some(Supplied(inp, n).text))
      && (Supplied(inp, n).Binary? ==> o.state.files[path] == Supplied(inp, n).bytes)
  {
    var s0 := State(map[], cache, files);
    var o1 := Step(inp, s0, n);
    assert [n][0] == n && [n][1..] == [];
    assert ResolveFrom(inp, o1.state, []) == Outcome(o1.state, None);
    assert GetParams(inp, cache, files, [n]) == (if o1.failure.Some? then o1 else Outcome(o1.state, None));
  }

  // ---------------------------------------------------------------------
  // Memoisation: at most one write per name

  /** When every requested name is already cached or is undeclared, a call
      never fails, writes nothing, keeps the cache's entries and returns
      each cached name's cached value. */
  lemma {:induction false} SettledNamesWriteNothing(inp: Inputs, s: State, names: seq<string>)
    requires Coherent(s)
    requires forall n :: n in names ==> n in s.cache || Lookup(inp.params, n).None?
    ensures var o := ResolveFrom(inp, s, names);
      && o.failure.None?
      && o.state.files == s.files
      && Extends(s.cache, o.state.cache)
      && Coherent(o.state)
      && (forall n :: n in names && n in s.cache ==> n in o.state.ret && o.state.ret[n] == s.cache[n])
    decreases |names|
  {
    if names != [] {
      var o := Step(inp, s, names[0]);
      StepFacts(inp, s, names[0]);
      StepKeepsCacheAndOutside(inp, s, names[0]);
      SettledNamesWriteNothing(inp, o.state, names[1..]);
      ResolveFacts(inp, o.state, names[1..]);
    }
  }

  /** With the caller values of an earlier call that settled every name, a
      call changes neither the cache nor the files and returns exactly the
      cached requested names. */
  lemma {:induction false} RepeatIsExact(inp: Inputs, s: State, names: seq<string>)
    requires Coherent(s)
    requires forall n :: n in names ==> n in s.cache || (Lookup(inp.params, n).None? && n !in inp.kwargs)
    ensures var o := ResolveFrom(inp, s, names);
      && o.failure.None?
      && o.state.cache == s.cache
      && o.state.files == s.files
      && Coherent(o.state)
      && (forall k :: k in o.state.ret <==> k in s.ret || (k in names && k in s.cache))
    decreases |names|
  {
    if names != [] {
      var o := Step(inp, s, names[0]);
      StepFacts(inp, s, names[0]);
      RepeatIsExact(inp, o.state, names[1..]);
    }
  }

  /** Resolving the same names a second time, with any caller values, never
      fails, writes no file, and returns every previously returned name with
      the same value; with the same caller values it returns the same result
      and leaves the cache as it was. */
  lemma SecondResolutionIsPure(inp: Inputs, kwargs2: map<string, Value>, cache: map<string, Value>,
                               files: map<string, seq<Byte>>, names: seq<string>)
    requires GetParams(inp, cache, files, names).failure.None?
    ensures var first := GetParams(inp, cache, files, names).state;
      var second := GetParams(inp.(kwargs := kwargs2), first.cache, first.files, names);
      && second.failure.None?
      && second.state.files == first.files
      && Extends(first.ret, second.state.ret)
    ensures var first := GetParams(inp, cache, files, names).state;
      GetParams(inp, first.cache, first.files, names) == Outcome(first, None)
  {
    var first := GetParams(inp, cache, files, names).state;
    ResolvedNamesAreCached(inp, cache, files, names);
    var s0 := State(map[], first.cache, first.files);
    SettledNamesWriteNothing(inp.(kwargs := kwargs2), s0, names);
    RepeatIsExact(inp, s0, names);
    var again := GetParams(inp, first.cache, first.files, names).state;
    assert again.ret == first.ret;
  }

  // ---------------------------------------------------------------------
  // preprocess_params

  /** The cache and files after `preprocess_params`, and the error that
      stopped it. */
  datatype Progress = Progress(cache: map<string, Value>, files: map<string, seq<Byte>>, failure: Option<ParamError>)

  /** One `get_params(name, **kwargs)` call per name, in order, each result
      discarded. */
  function PreprocessFrom(inp: Inputs, cache: map<string, Value>, files: map<string, seq<Byte>>,
                          names: seq<string>): Progress
    decreases |names|
  {
    if names == [] then Progress(cache, files, None)
    else
      var o := GetParams(inp, cache, files, [names[0]]);
      if o.failure.Some? then Progress(o.state.cache, o.state.files, o.failure)
      else PreprocessFrom(inp, o.state.cache, o.state.files, names[1..])
  }

  /** `preprocess_params(**kwargs)`: every key of `params` in order; a
      configuration without `params` has nothing to resolve. (A null
      `params` is treated as empty here; see the Findings module for the
      code as written.) */
  function Preprocess(inp: Inputs, cache: map<string, Value>, files: map<string, seq<Byte>>): Progress {
    PreprocessFrom(inp, cache, files, DeclaredNames(inp.params))
  }

  /** One name resolved on its own from state `s`. */
  lemma SingleCall(inp: Inputs, s: State, n: string)
    ensures var o := ResolveFrom(inp, s, [n]); var t := Step(inp, s, n);
      o.state.cache == t.state.cache && o.state.files == t.state.files && o.failure == t.failure
  {
    assert [n][1..] == [];
  }

  /** A step's effect on the cache and the files does not depend on the
      result collected so far. */
  lemma StepIgnoresRet(inp: Inputs, s: State, ret: map<string, Value>, n: string)
    ensures var a := Step(inp, s, n); var b := Step(inp, s.(ret := ret), n);
      a.state.cache == b.state.cache && a.state.files == b.state.files && a.failure == b.failure
  {
    if n !in s.cache && Lookup(inp.params, n).Some? {
      var pc := Lookup(inp.params, n).value;
      if !(pc.required && Supplied(inp, n).NoneValue?) && pc.kind == FileParam {
        var path := JobFilePath(inp.jobPath, FileName(n, pc));
        if FileBytes(Supplied(inp, n)).None? {
          assert Step(inp, s, n).state.files == s.files[path := []];
        }
      }
    }
  }

  /** Resolving the names one call at a time has the same effect on the
      cache and the files, and fails in the same way, as resolving them in
      one call. */
  lemma {:induction false} PreprocessIsOneResolution(inp: Inputs, s: State, names: seq<string>)
    ensures var p := PreprocessFrom(inp, s.cache, s.files, names); var o := ResolveFrom(inp, s, names);
      p.cache == o.state.cache && p.files == o.state.files && p.failure == o.failure
    decreases |names|
  {
    if names != [] {
      var n := names[0];
      var s0 := State(map[], s.cache, s.files);
      SingleCall(inp, s0, n);
      StepIgnoresRet(inp, s0, s.ret, n);
      assert s0.(ret := s.ret) == s;
      var t := Step(inp, s, n);
      if t.failure.None? {
        PreprocessIsOneResolution(inp, t.state, names[1..]);
      }
    }
  }

  /** After a successful `preprocess_params` every declared name is cached,
      except names declared as null that the caller did not supply, so no
      later resolution in the same session fails or writes a file. */
  lemma PreprocessSettles(inp: Inputs, cache: map<string, Value>, files: map<string, seq<Byte>>)
    requires Preprocess(inp, cache, files).failure.None?
    ensures var p := Preprocess(inp, cache, files);
      forall n :: n in DeclaredNames(inp.params) ==> n in p.cache || Lookup(inp.params, n).None?
    ensures var p := Preprocess(inp, cache, files);
      forall names: seq<string> :: GetParams(inp, p.cache, p.files, names).failure.None?
        && GetParams(inp, p.cache, p.files, names).state.files == p.files
  {
    var p := Preprocess(inp, cache, files);
    var names := DeclaredNames(inp.params);
    PreprocessIsOneResolution(inp, State(map[], cache, files), names);
    ResolvedNamesAreCached(inp, cache, files, names);
    forall later: seq<string>
      ensures GetParams(inp, p.cache, p.files, later).failure.None?
           && GetParams(inp, p.cache, p.files, later).state.files == p.files
    {
      forall n | n in later ensures n in p.cache || Lookup(inp.params, n).None? {
        if Lookup(inp.params, n).Some? {
          assert n in names;
        }
      }
      SettledNamesWriteNothing(inp, State(map[], p.cache, p.files), later);
    }
  }

  /** `preprocess_params` writes nothing outside the job directory and
      never changes a cached value, whether it succeeds or not. */
  lemma PreprocessKeepsCacheAndOutside(inp: Inputs, cache: map<string, Value>, files: map<string, seq<Byte>>)
    ensures Extends(cache, Preprocess(inp, cache, files).cache)
    ensures SameOutside(files, Preprocess(inp, cache, files).files, inp.jobPath)
  {
    PreprocessIsOneResolution(inp, State(map[], cache, files), DeclaredNames(inp.params));
    ResolveKeepsCacheAndOutside(inp, State(map[], cache, files), DeclaredNames(inp.params));
  }
}
