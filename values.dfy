/** The values a caller can supply for a parameter, and the two Python
    conversions the engine applies to them: `str()` (when a value is
    substituted into a command item) and the bytes written for a `file`
    parameter. */
module Values {
  import opened Wrappers
  import opened Bytes

  /** A parameter value: JSON `null`, a JSON string, the bytes of an uploaded
      file, or any other JSON value (number, boolean, list, object), carried
      with the text `str()` gives for it and its Python truthiness. */
  datatype Value =
    | NoneValue
    | Text(text: string)
    | Binary(bytes: seq<Byte>)
    | Scalar(shown: string, truthy: bool)

  predicate Truthy(v: Value) {
    match v
    case NoneValue => false
    case Text(s) => s != ""
    case Binary(b) => b != []
    case Scalar(_, t) => t
  }

  /** Python's `str(v)`. */
  function Str(v: Value): string {
    match v
    case NoneValue => "None"
    case Text(s) => s
    case Binary(b) => BytesRepr(b)
    case Scalar(shown, _) => shown
  }

  /** CPython's `repr` of a bytes object: `b'...'`, or `b"..."` when the bytes
      hold a single quote and no double quote. */
  function BytesRepr(b: seq<Byte>): (r: string)
    ensures |r| >= 3 && r[0] == 'b'
  {
    var quote := if '\'' as int in b && '"' as int !in b then '"' else '\'';
    ['b', quote] + EscapeBytes(b, quote) + [quote]
  }

  const HexDigits := "0123456789abcdef"

  /** The body of a bytes repr: backslash before the quote and the backslash,
      `\t` `\n` `\r`, `\xhh` for other control bytes and bytes from 0x7f up. */
  function EscapeBytes(b: seq<Byte>, quote: char): string {
    if b == [] then ""
    else
      var c := b[0];
      var e :=
        if c == quote as int || c == '\\' as int then ['\\', c as char]
        else if c == '\t' as int then "\\t"
        else if c == '\n' as int then "\\n"
        else if c == '\r' as int then "\\r"
        else if c < 0x20 || c >= 0x7f then ['\\', 'x', HexDigits[c / 16], HexDigits[c % 16]]
        else [c as char];
      e + EscapeBytes(b[1..], quote)
  }

  predicate Printable(c: char) {
    ' ' <= c <= '~'
  }

  /** A bytes repr contains printable ASCII only, so substituting raw bytes
      never puts a control character into a command item. */
  lemma {:induction false} BytesReprPrintable(b: seq<Byte>)
    ensures forall i :: 0 <= i < |BytesRepr(b)| ==> Printable(BytesRepr(b)[i])
  {
    var quote := if '\'' as int in b && '"' as int !in b then '"' else '\'';
    EscapeBytesPrintable(b, quote);
  }

  lemma {:induction false} EscapeBytesPrintable(b: seq<Byte>, quote: char)
    requires Printable(quote)
    ensures forall i :: 0 <= i < |EscapeBytes(b, quote)| ==> Printable(EscapeBytes(b, quote)[i])
  {
    if b != [] {
      EscapeBytesPrintable(b[1..], quote);
    }
  }

  /** The bytes a `file` parameter writes for `v`: a falsy value becomes empty
      bytes, a string its UTF-8 encoding, bytes themselves; None for any other
      truthy value, which `write` rejects with a TypeError. */
  function FileBytes(v: Value): (r: Option<seq<Byte>>)
    ensures !Truthy(v) ==> r == Some([])
    ensures v.Text? ==> r.Some? && Decode(r.value) == Some(v.text)
    ensures v.Binary? ==> r == Some(v.bytes)
    ensures r.None? <==> v.Scalar? && v.truthy
  {
    if !Truthy(v) then Some([])
    else
      match v
      case Text(s) => DecodeEncode(s); Some(Encode(s))
      case Binary(b) => Some(b)
      case _ => None
  }
}
