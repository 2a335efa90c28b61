/** A command's configuration, as loaded from its YAML or JSON file. Keys
    that may be missing or null are modelled where the engine treats the
    two cases differently. */
module Config {
  import opened Wrappers
  import opened Values
  import opened Seqs

  /** `type: file`, or any other (or no) type. */
  datatype ParamKind = Plain | FileParam

  /** A declared parameter: `required` (its truthiness), `type`, and `filename`
      ("" when missing, null or empty, all of which fall back to the
      parameter's own name). */
  datatype ParamConfig = ParamConfig(required: bool, kind: ParamKind, filename: string)

  /** One key of `params`; `config` is None when the key maps to null. */
  datatype ParamEntry = ParamEntry(name: string, config: Option<ParamConfig>)

  /** The `params` key: missing, null, or a mapping (in insertion order). */
  datatype ParamsField = NoParams | NullParams | Params(entries: seq<ParamEntry>)

  /** One item of `return`: a bare string (only "stdout" and "stderr" have an
      effect), a mapping whose keys may each be missing, or any other value,
      which is skipped. */
  datatype ReturnEntry =
    | Bare(word: string)
    | Structured(
        name: Option<string>,
        kind: Option<string>,
        filename: Option<string>,
        glob: Option<string>,
        mimetype: Option<string>,
        encoding: Option<string>)
    | OtherEntry

  /** `cwd` is "" when missing, null or empty; `command` is None when the key
      is missing or null (indexing it raises). */
  datatype CommandConfig = CommandConfig(
    cwd: string,
    params: ParamsField,
    command: Option<seq<Value>>,
    returnEntries: seq<ReturnEntry>)

  /** `(cmd_config.get('params') or {}).get(name)`: the configuration declared
      for `name`, None when it is undeclared or declared as null. A name
      declared twice takes its first entry. */
  function Lookup(params: ParamsField, name: string): (r: Option<ParamConfig>)
    ensures name !in DeclaredNames(params) ==> r.None?
    ensures name in DeclaredNames(params) ==>
      r == params.entries[FirstIndex(DeclaredNames(params), name)].config
  {
    if !params.Params? then None else LookupIn(params.entries, name)
  }

  function LookupIn(entries: seq<ParamEntry>, name: string): (r: Option<ParamConfig>)
    ensures name !in EntryNames(entries) ==> r.None?
    ensures name in EntryNames(entries) ==> r == entries[FirstIndex(EntryNames(entries), name)].config
  {
    if entries == [] then None
    else if entries[0].name == name then entries[0].config
    else
      var r := LookupIn(entries[1..], name);
      assert EntryNames(entries) == [entries[0].name] + EntryNames(entries[1..]);
      r
  }

  /** The names of `entries`, in order. */
  function EntryNames(entries: seq<ParamEntry>): (ns: seq<string>)
    ensures |ns| == |entries| && forall i :: 0 <= i < |ns| ==> ns[i] == entries[i].name
  {
    seq(|entries|, i requires 0 <= i < |entries| => entries[i].name)
  }

  /** The keys of `params` in insertion order (none when it is missing or null). */
  function DeclaredNames(params: ParamsField): (ns: seq<string>)
    ensures params.Params? ==> |ns| == |params.entries|
    ensures params.Params? ==> forall i :: 0 <= i < |ns| ==> ns[i] == params.entries[i].name
    ensures !params.Params? ==> ns == []
  {
    if params.Params? then EntryNames(params.entries) else []
  }

}
