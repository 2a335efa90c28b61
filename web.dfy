/** `process_web_cmd`: the entry point a request reaches once its body has
    been parsed into a JSON object and a list of uploaded files. */
module Web {
  import opened Wrappers
  import opened Bytes
  import opened Values
  import opened Config
  import opened Files
  import opened Dict
  import X = Results
  import S = Session

  /** One uploaded file: its form filename and its content. */
  datatype Upload = Upload(filename: string, content: seq<Byte>)

  /** The second element of the pair `process_web_cmd` returns. */
  datatype Reply =
    | NotFound(code: int, message: string)
    | Outputs(outputs: Dict<X.Output>)

  /** The keyword arguments of the run: the JSON object, then each upload
      stored under its filename, in order. */
  function MergeArgs(json: map<string, Value>, uploads: seq<Upload>): map<string, Value>
    decreases |uploads|
  {
    if uploads == [] then json
    else
      var last := uploads[|uploads| - 1];
      MergeArgs(json, uploads[..|uploads| - 1])[last.filename := Binary(last.content)]
  }

  /** A key is an argument exactly when it is a JSON key or an upload's
      filename. */
  lemma {:induction false} MergeArgsKeys(json: map<string, Value>, uploads: seq<Upload>, k: string)
    ensures k in MergeArgs(json, uploads) <==> k in json || exists i :: 0 <= i < |uploads| && uploads[i].filename == k
    decreases |uploads|
  {
    if uploads != [] {
      var n := |uploads| - 1;
      var init := uploads[..n];
      MergeArgsKeys(json, init, k);
      if k in MergeArgs(json, uploads) && k != uploads[n].filename && k !in json {
        var i :| 0 <= i < |init| && init[i].filename == k;
        assert uploads[i].filename == k;
      }
      if exists i :: 0 <= i < |uploads| && uploads[i].filename == k {
        var i :| 0 <= i < |uploads| && uploads[i].filename == k;
        if i < n {
          assert init[i].filename == k;
        }
      }
    }
  }

  /** An uploaded file wins over the JSON value of the same name, and of
      several uploads with one filename the last one wins. */
  lemma {:induction false} LastUploadWins(json: map<string, Value>, uploads: seq<Upload>, i: int)
    requires 0 <= i < |uploads|
    requires forall j :: i < j < |uploads| ==> uploads[j].filename != uploads[i].filename
    ensures var r := MergeArgs(json, uploads);
      uploads[i].filename in r && r[uploads[i].filename] == Binary(uploads[i].content)
    decreases |uploads|
  {
    var n := |uploads| - 1;
    if i < n {
      var init := uploads[..n];
      assert init[i] == uploads[i];
      LastUploadWins(json, init, i);
    }
  }

  /** A JSON key that no upload names keeps its JSON value. */
  lemma {:induction false} JsonValueKept(json: map<string, Value>, uploads: seq<Upload>, k: string)
    requires k in json && forall i :: 0 <= i < |uploads| ==> uploads[i].filename != k
    ensures k in MergeArgs(json, uploads) && MergeArgs(json, uploads)[k] == json[k]
    decreases |uploads|
  {
    if uploads != [] {
      var n := |uploads| - 1;
      var init := uploads[..n];
      assert uploads[n].filename != k;
      assert forall i :: 0 <= i < |init| ==> init[i] == uploads[i];
      JsonValueKept(json, init, k);
    }
  }

  /** The merging loop of `process_web_cmd`. */
  method CollectArgs(json: map<string, Value>, uploads: seq<Upload>) returns (args: map<string, Value>)
    ensures args == MergeArgs(json, uploads)
  {
    args := json;
    var i := 0;
    while i < |uploads|
      invariant 0 <= i <= |uploads|
      invariant args == MergeArgs(json, uploads[..i])
    {
      assert uploads[..i + 1][..i] == uploads[..i];
      args := args[uploads[i].filename := Binary(uploads[i].content)];
      i := i + 1;
    }
    assert uploads[..|uploads|] == uploads;
  }

  /** `process_web_cmd(cmd, json_data, files)`, with the command registry
      as `registry` and `uuid` as the job id of the run. An unknown command
      gives `(False, {'code': 1, 'message': ...})` and touches nothing;
      otherwise a fresh session runs the command with the merged arguments,
      and a failure of the run is the exception it raises. */
  method ProcessWebCmd(registry: map<string, CommandConfig>, defaultWorkdir: string, fs: FileStore,
                       cmd: string, json: map<string, Value>, uploads: seq<Upload>, uuid: string, host: S.Host)
    returns (r: Result<(bool, Reply), S.RunError>)
    modifies fs
    ensures cmd !in registry ==>
      && r == Ok((false, NotFound(1, "Command " + cmd + " not found.")))
      && fs.files == old(fs.files) && fs.dirs == old(fs.dirs)
    ensures cmd in registry ==>
      var rs := S.RunSpec(registry[cmd], defaultWorkdir, uuid, MergeArgs(json, uploads), host,
                          map[], old(fs.files), old(fs.dirs));
      && r == (if rs.result.Ok? then Ok((true, Outputs(rs.result.value))) else Err(rs.result.error))
      && fs.files == rs.files && fs.dirs == rs.dirs
  {
    var args := CollectArgs(json, uploads);
    if cmd !in registry {
      return Ok((false, NotFound(1, "Command " + cmd + " not found.")));
    }
    var session := new S.CmdSession(registry[cmd], defaultWorkdir, fs);
    var result := session.Run(uuid, args, host);
    if result.Err? {
      return Err(result.error);
    }
    return Ok((true, Outputs(result.value)));
  }
}
