/** A discrepancy between `get_params` and `preprocess_params` in how they
    read the `params` key: `get_params` reads
    `cmd_config.get('params') or {}` and so accepts `params: null`, while
    `preprocess_params` iterates `cmd_config.get('params', {})`, which is
    `None` for a null key, and raises `TypeError`. The rest of the model uses
    the corrected reading, `Resolve.Preprocess`, which treats a null
    `params` as empty. */
module Findings {
  import opened Wrappers
  import opened Bytes
  import opened Values
  import opened Config
  import R = Resolve

  /** How `preprocess_params` ends as written: it raises `TypeError` before
      resolving anything, or it completes (or stops at a parameter error)
      as `Resolve.Preprocess` describes. */
  datatype PreprocessRun = NotIterable | Completed(progress: R.Progress)

  /** `preprocess_params(**kwargs)` as written: a missing `params` key
      iterates the default `{}`, a null one iterates `None`. */
  function PreprocessAsWritten(inp: R.Inputs, cache: map<string, Value>, files: map<string, seq<Byte>>): (r: PreprocessRun)
    ensures r.NotIterable? <==> inp.params.NullParams?
    ensures r.Completed? ==> r.progress == R.Preprocess(inp, cache, files)
  {
    if inp.params.NullParams? then NotIterable else Completed(R.Preprocess(inp, cache, files))
  }

  /** With a null `params`, `get_params` resolves any names without error
      and without writing a file. */
  lemma {:induction false} NullParamsResolve(inp: R.Inputs, s: R.State, names: seq<string>)
    requires inp.params.NullParams?
    ensures var o := R.ResolveFrom(inp, s, names);
      o.failure.None? && o.state.files == s.files && R.Extends(s.cache, o.state.cache)
    decreases |names|
  {
    if names != [] {
      var t := R.Step(inp, s, names[0]);
      assert t.failure.None? && t.state.files == s.files && R.Extends(s.cache, t.state.cache);
      NullParamsResolve(inp, t.state, names[1..]);
    }
  }

  /** The discrepancy: on a configuration with `params: null`, every
      `get_params` call succeeds, yet `preprocess_params` as written raises,
      so the run fails before the command is prepared. */
  lemma NullParamsCrash(jobPath: string, kwargs: map<string, Value>, cache: map<string, Value>,
                        files: map<string, seq<Byte>>, names: seq<string>)
    ensures var inp := R.Inputs(NullParams, jobPath, kwargs);
      && R.GetParams(inp, cache, files, names).failure.None?
      && PreprocessAsWritten(inp, cache, files) == NotIterable
  {
    NullParamsResolve(R.Inputs(NullParams, jobPath, kwargs), R.State(map[], cache, files), names);
  }

  /** The corrected `preprocess_params` agrees with the code whenever the
      code completes, and on a null `params` does what `get_params` does
      with it: it resolves nothing, succeeds, and leaves the cache and the
      files as they were. */
  lemma CorrectedPreprocess(inp: R.Inputs, cache: map<string, Value>, files: map<string, seq<Byte>>)
    ensures !inp.params.NullParams? ==> PreprocessAsWritten(inp, cache, files) == Completed(R.Preprocess(inp, cache, files))
    ensures inp.params.NullParams? ==> R.Preprocess(inp, cache, files) == R.Progress(cache, files, None)
  {
    assert inp.params.NullParams? ==> DeclaredNames(inp.params) == [];
  }
}
