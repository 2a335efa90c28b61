/** The result `execute` assembles after the command has run: one entry per
    `return` item, in order, and `job_id` last. The class method in the
    Session module runs the same loops and is proved equal to `Execute`. */
module Results {
  import opened Wrappers
  import opened Bytes
  import opened Seqs
  import opened Dict
  import opened Config
  import opened Paths
  import Base64

  /** A structured output: base64 `body`, the `fielname` key (so spelled in
      the result; only `file_list` items carry it), `mimetype` and `encoding`. */
  datatype Payload = Payload(body: string, fielname: Option<string>, mimetype: string, encoding: string)

  datatype Output =
    | TextOut(text: string)
    | NoneOut
    | PayloadOut(payload: Payload)
    | PayloadList(payloads: seq<Payload>)

  /** What `process.communicate()` captured. */
  datatype Captured = Captured(stdout: seq<Byte>, stderr: seq<Byte>)

  /** `glob.glob(pattern, root_dir=root)` over the given files: the matching
      names, relative to `root`, in the order the library lists them. */
  type Glob = (string, string, map<string, seq<Byte>>) -> seq<string>

  /** What the return loop reads: the captured output, the job directory, the
      files, and the glob function. */
  datatype Ctx = Ctx(cap: Captured, jobPath: string, files: map<string, seq<Byte>>, glob: Glob)

  datatype ExecError =
    | StdoutNotUtf8            // UnicodeDecodeError from stdout.decode('utf-8')
    | StderrNotUtf8            // UnicodeDecodeError from stderr.decode('utf-8')
    | MissingKey(key: string)  // KeyError from item['name'], item['type'] or item['filename']
    | Unreadable(path: string) // open(path, 'rb') fails: no such file

  /** `to_base64(data)`. */
  function ToBase64(data: seq<Byte>): (r: string)
    ensures Base64.Decode(r) == Some(data)
  {
    Base64.DecodeEncode(data);
    Base64.Encode(data)
  }

  /** The payload for `data` under a structured item, with its defaults. */
  function MakePayload(data: seq<Byte>, fielname: Option<string>, entry: ReturnEntry): Payload
    requires entry.Structured?
  {
    Payload(ToBase64(data), fielname, entry.mimetype.GetOr(""), entry.encoding.GetOr("base64"))
  }

  /** The `glob` key's files, `[]` when the key is missing or empty. */
  function Matched(entry: ReturnEntry, ctx: Ctx): seq<string>
    requires entry.Structured?
  {
    if entry.glob.Some? && entry.glob.value != "" then ctx.glob(entry.glob.value, ctx.jobPath, ctx.files) else []
  }

  /** The inner loop over the matched file names, appending one payload each. */
  function ListPayloads(names: seq<string>, entry: ReturnEntry, ctx: Ctx): Result<seq<Payload>, ExecError>
    requires entry.Structured?
    decreases |names|
  {
    if names == [] then Ok([])
    else
      var ps := ListPayloads(names[..|names| - 1], entry, ctx);
      var f := names[|names| - 1];
      var path := JobFilePath(ctx.jobPath, f);
      if ps.Err? then ps
      else if path !in ctx.files then Err(Unreadable(path))
      else Ok(ps.value + [MakePayload(ctx.files[path], Some(f), entry)])
  }

  /** The key and value one `return` item stores, None for an item that
      stores nothing, or the error it raises. */
  function EntryEffect(entry: ReturnEntry, ctx: Ctx): Result<Option<(string, Output)>, ExecError> {
    match entry
    case Bare(w) =>
      if w == "stdout" then
        (match Decode(ctx.cap.stdout)
         case None => Err(StdoutNotUtf8)
         case Some(s) => Ok(Some(("stdout", TextOut(s)))))
      else if w == "stderr" then
        (match Decode(ctx.cap.stderr)
         case None => Err(StderrNotUtf8)
         case Some(s) => Ok(Some(("stderr", TextOut(s)))))
      else Ok(None)
    case OtherEntry => Ok(None)
    case Structured(name, kind, filename, _, _, _) =>
      if name.None? then Err(MissingKey("name"))
      else if kind.None? then Err(MissingKey("type"))
      else if kind.value == "file" then
        if filename.None? then Err(MissingKey("filename"))
        else
          var path := JobFilePath(ctx.jobPath, filename.value);
          if path !in ctx.files then Err(Unreadable(path))
          else Ok(Some((name.value, PayloadOut(MakePayload(ctx.files[path], None, entry)))))
      else if kind.value == "stdout" || kind.value == "stderr" then
        var data := if kind.value == "stdout" then ctx.cap.stdout else ctx.cap.stderr;
        Ok(Some((name.value, PayloadOut(MakePayload(data, None, entry)))))
      else if kind.value == "file_list" then
        match ListPayloads(Matched(entry, ctx), entry, ctx)
        case Err(e) => Err(e)
        case Ok(ps) => Ok(Some((name.value, PayloadList(ps))))
      else Ok(None)
  }

  /** `d` after an item's store, or the item's error. */
  function Apply(d: Dict<Output>, eff: Result<Option<(string, Output)>, ExecError>): Result<Dict<Output>, ExecError> {
    match eff
    case Err(e) => Err(e)
    case Ok(None) => Ok(d)
    case Ok(Some(o)) => Ok(Put(d, o.0, o.1))
  }

  /** The stores of the items, in order, or the first error. */
  function Effects(entries: seq<ReturnEntry>, ctx: Ctx): Result<seq<(string, Output)>, ExecError>
    decreases |entries|
  {
    if entries == [] then Ok([])
    else
      var outs := Effects(entries[..|entries| - 1], ctx);
      if outs.Err? then outs
      else
        match EntryEffect(entries[|entries| - 1], ctx)
        case Err(e) => Err(e)
        case Ok(None) => outs
        case Ok(Some(o)) => Ok(outs.value + [o])
  }

  /** The dictionary after storing `outs` one after the other into `d`. */
  function Build(d: Dict<Output>, outs: seq<(string, Output)>): Dict<Output>
    decreases |outs|
  {
    if outs == [] then d
    else
      var o := outs[|outs| - 1];
      Put(Build(d, outs[..|outs| - 1]), o.0, o.1)
  }

  function JobIdOut(jobId: Option<string>): Output {
    if jobId.Some? then TextOut(jobId.value) else NoneOut
  }

  /** The result of `execute`, from the captured output onwards. The log
      record decodes stderr before anything else, so undecodable stderr
      fails the call whatever the items are. */
  function Execute(entries: seq<ReturnEntry>, jobId: Option<string>, ctx: Ctx): Result<Dict<Output>, ExecError> {
    if Decode(ctx.cap.stderr).None? then Err(StderrNotUtf8)
    else
      match Effects(entries, ctx)
      case Err(e) => Err(e)
      case Ok(outs) => Ok(Put(Build([], outs), "job_id", JobIdOut(jobId)))
  }

  /** The last value `outs` writes under `k`. */
  function LastFor(outs: seq<(string, Output)>, k: string): Option<Output>
    decreases |outs|
  {
    if outs == [] then None
    else if outs[|outs| - 1].0 == k then Some(outs[|outs| - 1].1)
    else LastFor(outs[..|outs| - 1], k)
  }

  // ---------------------------------------------------------------------
  // The dictionary

  /** Storing `outs` into an empty dictionary keeps each key at the place of
      its first store and its value from the last one. */
  lemma {:induction false} BuildKeysAndValues(outs: seq<(string, Output)>)
    ensures Keys(Build([], outs)) == Dedup(Keys(outs))
    ensures forall k :: Get(Build([], outs), k) == LastFor(outs, k)
    decreases |outs|
  {
    if outs != [] {
      var p := outs[..|outs| - 1];
      var o := outs[|outs| - 1];
      BuildKeysAndValues(p);
      DedupMembers(Keys(p));
      assert Keys(outs)[..|outs| - 1] == Keys(p);
      assert o.0 in Keys(Build([], p)) <==> o.0 in Dedup(Keys(p));
    }
  }

  /** A successful `execute` holds the stores of the items, in order of first
      store and with the last value stored, then `job_id`, which is always
      the job's id, even where an item is named `job_id`. It succeeds exactly
      when stderr decodes and no item raises. */
  lemma ExecuteShape(entries: seq<ReturnEntry>, jobId: Option<string>, ctx: Ctx)
    ensures Execute(entries, jobId, ctx).Ok? <==>
      Decode(ctx.cap.stderr).Some? && Effects(entries, ctx).Ok?
    ensures Execute(entries, jobId, ctx).Ok? ==>
      var d := Execute(entries, jobId, ctx).value;
      var outs := Effects(entries, ctx).value;
      && Keys(d) == Dedup(Keys(outs) + ["job_id"])
      && Get(d, "job_id") == Some(JobIdOut(jobId))
      && forall k :: k != "job_id" ==> Get(d, k) == LastFor(outs, k)
  {
    if Execute(entries, jobId, ctx).Ok? {
      var outs := Effects(entries, ctx).value;
      BuildKeysAndValues(outs);
      DedupMembers(Keys(outs));
      assert (Keys(outs) + ["job_id"])[..|outs|] == Keys(outs);
    }
  }

  /** The items are visited in order: the stores of two runs of items are
      those of the first followed by those of the second, and an error stops
      the visit. */
  lemma {:induction false} EffectsConcat(a: seq<ReturnEntry>, b: seq<ReturnEntry>, ctx: Ctx)
    ensures Effects(a + b, ctx) ==
      if Effects(a, ctx).Err? then Effects(a, ctx)
      else if Effects(b, ctx).Err? then Effects(b, ctx)
      else Ok(Effects(a, ctx).value + Effects(b, ctx).value)
    decreases |b|
  {
    if b == [] {
      assert a + b == a;
      assert Effects(b, ctx) == Ok([]);
      if Effects(a, ctx).Ok? {
        assert Effects(a, ctx).value + [] == Effects(a, ctx).value;
      }
    } else {
      var b' := b[..|b| - 1];
      var last := b[|b| - 1];
      assert (a + b)[..|a + b| - 1] == a + b';
      assert (a + b)[|a + b| - 1] == last;
      EffectsConcat(a, b', ctx);
      assert Effects(a + b, ctx) ==
        if Effects(a + b', ctx).Err? then Effects(a + b', ctx)
        else match EntryEffect(last, ctx)
          case Err(e) => Err(e)
          case Ok(None) => Effects(a + b', ctx)
          case Ok(Some(o)) => Ok(Effects(a + b', ctx).value + [o]);
      if Effects(a, ctx).Ok? && Effects(b', ctx).Ok? && EntryEffect(last, ctx).Ok? && EntryEffect(last, ctx).value.Some? {
        var o := EntryEffect(last, ctx).value.value;
        assert Effects(a, ctx).value + Effects(b', ctx).value + [o]
            == Effects(a, ctx).value + (Effects(b', ctx).value + [o]);
      }
    }
  }

  /** An error among the first `j` items is the error of all of them. */
  lemma {:induction false} EffectsErrStays(entries: seq<ReturnEntry>, j: nat, ctx: Ctx)
    requires j <= |entries| && Effects(entries[..j], ctx).Err?
    ensures Effects(entries, ctx) == Effects(entries[..j], ctx)
    decreases |entries| - j
  {
    if j < |entries| {
      var p := entries[..j + 1];
      assert p[..|p| - 1] == entries[..j];
      EffectsErrStays(entries, j + 1, ctx);
    } else {
      assert entries[..j] == entries;
    }
  }

  /** The stores an item's effect adds: none, or the one it makes. */
  function Stored(o: Option<(string, Output)>): seq<(string, Output)> {
    if o.Some? then [o.value] else []
  }

  /** One more item: its error is the error of all the items, or its store
      extends both the stores so far and the dictionary built from them. */
  lemma EffectsStep(entries: seq<ReturnEntry>, i: nat, ctx: Ctx, outs: seq<(string, Output)>)
    requires i < |entries| && Effects(entries[..i], ctx) == Ok(outs)
    ensures var eff := EntryEffect(entries[i], ctx);
      && (eff.Err? ==> Effects(entries, ctx) == Err(eff.error) && Apply(Build([], outs), eff) == Err(eff.error))
      && (eff.Ok? ==> Effects(entries[..i + 1], ctx) == Ok(outs + Stored(eff.value))
                      && Apply(Build([], outs), eff) == Ok(Build([], outs + Stored(eff.value))))
  {
    var p := entries[..i + 1];
    assert p[..|p| - 1] == entries[..i] && p[|p| - 1] == entries[i];
    var eff := EntryEffect(entries[i], ctx);
    if eff.Err? {
      EffectsErrStays(entries, i + 1, ctx);
    } else if eff.value.Some? {
      var q := outs + [eff.value.value];
      assert q[..|q| - 1] == outs;
    } else {
      assert outs + [] == outs;
    }
  }

  /** An unreadable file among the first `j` matches is the error of all of them. */
  lemma {:induction false} ListErrStays(names: seq<string>, j: nat, entry: ReturnEntry, ctx: Ctx)
    requires entry.Structured?
    requires j <= |names| && ListPayloads(names[..j], entry, ctx).Err?
    ensures ListPayloads(names, entry, ctx) == ListPayloads(names[..j], entry, ctx)
    decreases |names| - j
  {
    if j < |names| {
      var p := names[..j + 1];
      assert p[..|p| - 1] == names[..j];
      ListErrStays(names, j + 1, entry, ctx);
    } else {
      assert names[..j] == names;
    }
  }

  // ---------------------------------------------------------------------
  // One item

  /** `stdout` and `stderr` as bare items store the captured text under
      their own name: the text whose UTF-8 encoding is exactly the captured
      bytes, or fail when there is none. */
  lemma BareCapture(w: string, ctx: Ctx)
    requires w == "stdout" || w == "stderr"
    ensures var data := if w == "stdout" then ctx.cap.stdout else ctx.cap.stderr;
      var r := EntryEffect(Bare(w), ctx);
      && (r.Ok? <==> Decode(data).Some?)
      && (r.Ok? ==> r.value.Some? && r.value.value.0 == w && r.value.value.1.TextOut?
                    && Encode(r.value.value.1.text) == data)
  {
    var data := if w == "stdout" then ctx.cap.stdout else ctx.cap.stderr;
    if Decode(data).Some? {
      EncodeDecode(data);
    }
  }

  /** A structured item of type `stdout` or `stderr` stores the captured
      bytes, base64-encoded, whether or not they are valid UTF-8. */
  lemma StructuredCapture(entry: ReturnEntry, ctx: Ctx)
    requires entry.Structured? && entry.name.Some? && entry.kind.Some?
    requires entry.kind.value == "stdout" || entry.kind.value == "stderr"
    ensures var data := if entry.kind.value == "stdout" then ctx.cap.stdout else ctx.cap.stderr;
      var r := EntryEffect(entry, ctx);
      && r.Ok? && r.value.Some? && r.value.value.0 == entry.name.value
      && r.value.value.1.PayloadOut?
      && Base64.Decode(r.value.value.1.payload.body) == Some(data)
      && r.value.value.1.payload.fielname.None?
      && r.value.value.1.payload.mimetype == (if entry.mimetype.Some? then entry.mimetype.value else "")
      && r.value.value.1.payload.encoding == (if entry.encoding.Some? then entry.encoding.value else "base64")
  {
  }

  /** A structured item of type `file` stores the bytes of
      `<job path>/<filename>`, base64-encoded, and fails when the key or the
      file is missing. */
  lemma StructuredFile(entry: ReturnEntry, ctx: Ctx)
    requires entry.Structured? && entry.name.Some? && entry.kind == Some("file")
    ensures var r := EntryEffect(entry, ctx);
      && (entry.filename.None? ==> r == Err(MissingKey("filename")))
      && (entry.filename.Some? ==>
            var path := JobFilePath(ctx.jobPath, entry.filename.value);
            && (r.Ok? <==> path in ctx.files)
            && (path !in ctx.files ==> r == Err(Unreadable(path)))
            && (r.Ok? ==>
                  && r.value.Some? && r.value.value.0 == entry.name.value
                  && r.value.value.1.PayloadOut?
                  && Base64.Decode(r.value.value.1.payload.body) == Some(ctx.files[path])
                  && r.value.value.1.payload.fielname.None?
                  && r.value.value.1.payload.mimetype == (if entry.mimetype.Some? then entry.mimetype.value else "")
                  && r.value.value.1.payload.encoding == (if entry.encoding.Some? then entry.encoding.value else "base64")))
  {
  }

  /** A structured item without `name` or `type` raises; one whose type is
      none of the four kinds stores nothing. */
  lemma StructuredIncomplete(entry: ReturnEntry, ctx: Ctx)
    requires entry.Structured?
    ensures entry.name.None? ==> EntryEffect(entry, ctx) == Err(MissingKey("name"))
    ensures entry.name.Some? && entry.kind.None? ==> EntryEffect(entry, ctx) == Err(MissingKey("type"))
    ensures (entry.name.Some? && entry.kind.Some?
             && entry.kind.value !in {"file", "stdout", "stderr", "file_list"}) ==> EntryEffect(entry, ctx) == Ok(None)
  {
  }

  /** `p` is the payload of the matched file `name`. */
  predicate PayloadOf(p: Payload, name: string, entry: ReturnEntry, ctx: Ctx)
    requires entry.Structured?
  {
    var path := JobFilePath(ctx.jobPath, name);
    && path in ctx.files
    && p.fielname == Some(name)
    && Base64.Decode(p.body) == Some(ctx.files[path])
    && p.mimetype == (if entry.mimetype.Some? then entry.mimetype.value else "")
    && p.encoding == (if entry.encoding.Some? then entry.encoding.value else "base64")
  }

  /** The payloads of the matched files: one per name, in order, each with
      the name under `fielname` and the file's bytes as body; an error when
      some matched file cannot be read. */
  lemma ListPayloadsSpec(names: seq<string>, entry: ReturnEntry, ctx: Ctx)
    requires entry.Structured?
    ensures var r := ListPayloads(names, entry, ctx);
      && (r.Ok? <==> forall i :: 0 <= i < |names| ==> JobFilePath(ctx.jobPath, names[i]) in ctx.files)
      && (r.Ok? ==> |r.value| == |names| && forall i :: 0 <= i < |names| ==> PayloadOf(r.value[i], names[i], entry, ctx))
  {
    ListPayloadsHold(names, entry, ctx);
  }

  /** `ListPayloads` meets its specification on `names`. */
  predicate ListPayloadsMeetSpec(names: seq<string>, entry: ReturnEntry, ctx: Ctx)
    requires entry.Structured?
  {
    var r := ListPayloads(names, entry, ctx);
    && (r.Ok? <==> AllReadable(names, ctx))
    && (r.Ok? ==> PayloadsOf(r.value, names, entry, ctx))
  }

  /** Every name's file is in the job directory. */
  predicate AllReadable(names: seq<string>, ctx: Ctx) {
    forall i :: 0 <= i < |names| ==> JobFilePath(ctx.jobPath, names[i]) in ctx.files
  }

  lemma PayloadsReadable(ps: seq<Payload>, names: seq<string>, entry: ReturnEntry, ctx: Ctx)
    requires entry.Structured? && PayloadsOf(ps, names, entry, ctx)
    ensures AllReadable(names, ctx)
  {
    forall i | 0 <= i < |names| ensures JobFilePath(ctx.jobPath, names[i]) in ctx.files {
      assert PayloadOf(ps[i], names[i], entry, ctx);
    }
  }

  lemma {:induction false} ListPayloadsHold(names: seq<string>, entry: ReturnEntry, ctx: Ctx)
    requires entry.Structured?
    ensures ListPayloadsMeetSpec(names, entry, ctx)
    decreases |names|
  {
    if names != [] {
      ListPayloadsHold(names[..|names| - 1], entry, ctx);
      ListPayloadsStep(names, entry, ctx);
    }
  }

  lemma ListPayloadsStep(names: seq<string>, entry: ReturnEntry, ctx: Ctx)
    requires entry.Structured? && names != []
    requires ListPayloadsMeetSpec(names[..|names| - 1], entry, ctx)
    ensures ListPayloadsMeetSpec(names, entry, ctx)
  {
    var p := names[..|names| - 1];
    var path := JobFilePath(ctx.jobPath, names[|names| - 1]);
    if ListPayloads(p, entry, ctx).Err? {
      StepAfterErr(names, entry, ctx);
    } else if path !in ctx.files {
      assert !ListPayloads(names, entry, ctx).Ok?;
    } else {
      assert names == p + [names[|names| - 1]];
      StepAppends(p, names[|names| - 1], entry, ctx);
    }
  }

  lemma StepAfterErr(names: seq<string>, entry: ReturnEntry, ctx: Ctx)
    requires entry.Structured? && names != []
    requires ListPayloadsMeetSpec(names[..|names| - 1], entry, ctx)
    requires ListPayloads(names[..|names| - 1], entry, ctx).Err?
    ensures ListPayloadsMeetSpec(names, entry, ctx)
  {
    var p := names[..|names| - 1];
    var i :| 0 <= i < |p| && JobFilePath(ctx.jobPath, p[i]) !in ctx.files;
    assert names[i] == p[i];
  }

  lemma StepAppends(p: seq<string>, f: string, entry: ReturnEntry, ctx: Ctx)
    requires entry.Structured? && ListPayloadsMeetSpec(p, entry, ctx) && ListPayloads(p, entry, ctx).Ok?
    requires JobFilePath(ctx.jobPath, f) in ctx.files
    ensures ListPayloadsMeetSpec(p + [f], entry, ctx)
  {
    var names := p + [f];
    assert names[..|names| - 1] == p;
    var rp := ListPayloads(p, entry, ctx).value;
    var q := MakePayload(ctx.files[JobFilePath(ctx.jobPath, f)], Some(f), entry);
    assert ListPayloads(names, entry, ctx) == Ok(rp + [q]);
    MakePayloadOf(f, entry, ctx);
    AppendPayload(rp, p, q, f, entry, ctx);
    PayloadsReadable(rp + [q], names, entry, ctx);
  }

  /** Every payload in `ps` is the one of the same-position name. */
  predicate PayloadsOf(ps: seq<Payload>, names: seq<string>, entry: ReturnEntry, ctx: Ctx)
    requires entry.Structured?
  {
    |ps| == |names| && forall i :: 0 <= i < |names| ==> PayloadOf(ps[i], names[i], entry, ctx)
  }

  lemma AppendPayload(ps: seq<Payload>, names: seq<string>, q: Payload, f: string, entry: ReturnEntry, ctx: Ctx)
    requires entry.Structured? && PayloadsOf(ps, names, entry, ctx) && PayloadOf(q, f, entry, ctx)
    ensures PayloadsOf(ps + [q], names + [f], entry, ctx)
  {
    var ps', names' := ps + [q], names + [f];
    forall i | 0 <= i < |names'| ensures PayloadOf(ps'[i], names'[i], entry, ctx) {
      if i < |names| {
        assert ps'[i] == ps[i] && names'[i] == names[i];
      }
    }
  }

  /** One more matched name: its payload is appended, or its unreadable
      file is the error of the whole list. */
  lemma ListStep(names: seq<string>, j: nat, entry: ReturnEntry, ctx: Ctx, payloads: seq<Payload>)
    requires entry.Structured? && j < |names| && ListPayloads(names[..j], entry, ctx) == Ok(payloads)
    ensures var path := JobFilePath(ctx.jobPath, names[j]);
      && (path !in ctx.files ==> ListPayloads(names, entry, ctx) == Err(Unreadable(path)))
      && (path in ctx.files ==>
            ListPayloads(names[..j + 1], entry, ctx) == Ok(payloads + [MakePayload(ctx.files[path], Some(names[j]), entry)]))
  {
    var p := names[..j + 1];
    assert p[..|p| - 1] == names[..j] && p[|p| - 1] == names[j];
    if JobFilePath(ctx.jobPath, names[j]) !in ctx.files {
      ListErrStays(names, j + 1, entry, ctx);
    }
  }

  lemma MakePayloadOf(f: string, entry: ReturnEntry, ctx: Ctx)
    requires entry.Structured? && JobFilePath(ctx.jobPath, f) in ctx.files
    ensures PayloadOf(MakePayload(ctx.files[JobFilePath(ctx.jobPath, f)], Some(f), entry), f, entry, ctx)
  {
  }

  /** A `file_list` item stores a list: empty when `glob` is missing or
      empty, otherwise one payload per matched name, in match order. */
  lemma FileList(entry: ReturnEntry, ctx: Ctx)
    requires entry.Structured? && entry.name.Some? && entry.kind == Some("file_list")
    ensures entry.glob.None? || entry.glob == Some("") ==>
      EntryEffect(entry, ctx) == Ok(Some((entry.name.value, PayloadList([]))))
    ensures var r := EntryEffect(entry, ctx);
      r.Ok? ==> (r.value.Some? && r.value.value.0 == entry.name.value
                 && r.value.value.1 == PayloadList(ListPayloads(Matched(entry, ctx), entry, ctx).value))
  {
  }
}
