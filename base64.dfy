/** The base64 encoding of section 4 of RFC 4648 (standard alphabet, `=`
    padding), as produced by Python's `base64.b64encode`, with a decoder
    used to state what an encoded body carries. */
module Base64 {
  import opened Wrappers
  import opened Bytes

  /** The character for the 6-bit value `i`: `A`-`Z`, `a`-`z`, `0`-`9`, `+`, `/`
      (table 1 of RFC 4648). */
  function Digit(i: int): (c: char)
    requires 0 <= i < 64
    ensures c != '='
  {
    if i < 26 then ('A' as int + i) as char
    else if i < 52 then ('a' as int + i - 26) as char
    else if i < 62 then ('0' as int + i - 52) as char
    else if i == 62 then '+'
    else '/'
  }

  /** The 6-bit value of an alphabet character; None for anything else. */
  function DigitValue(c: char): (r: Option<int>)
    ensures r.Some? ==> 0 <= r.value < 64
  {
    if 'A' <= c <= 'Z' then Some(c as int - 'A' as int)
    else if 'a' <= c <= 'z' then Some(c as int - 'a' as int + 26)
    else if '0' <= c <= '9' then Some(c as int - '0' as int + 52)
    else if c == '+' then Some(62)
    else if c == '/' then Some(63)
    else None
  }

  lemma DigitValueOfDigit(i: int)
    requires 0 <= i < 64
    ensures DigitValue(Digit(i)) == Some(i)
  {
  }

  /** The four characters for three bytes. */
  function EncodeGroup(x: Byte, y: Byte, z: Byte): (r: string)
    ensures |r| == 4
  {
    [Digit(x / 4), Digit(x % 4 * 16 + y / 16), Digit(y % 16 * 4 + z / 64), Digit(z % 64)]
  }

  function Encode(b: seq<Byte>): (r: string)
    ensures |r| == (|b| + 2) / 3 * 4
    decreases |b|
  {
    if |b| == 0 then ""
    else if |b| == 1 then
      [Digit(b[0] / 4), Digit(b[0] % 4 * 16), '=', '=']
    else if |b| == 2 then
      [Digit(b[0] / 4), Digit(b[0] % 4 * 16 + b[1] / 16), Digit(b[1] % 16 * 4), '=']
    else
      EncodeGroup(b[0], b[1], b[2]) + Encode(b[3..])
  }

  /** Three bytes from four alphabet characters. */
  function DecodeGroup(g: string): Option<seq<Byte>>
    requires |g| == 4
  {
    var a, b, c, d := DigitValue(g[0]), DigitValue(g[1]), DigitValue(g[2]), DigitValue(g[3]);
    if a.None? || b.None? || c.None? || d.None? then None
    else Some([a.value * 4 + b.value / 16, b.value % 16 * 16 + c.value / 4, c.value % 4 * 64 + d.value])
  }

  /** The last group, which may carry one or two `=` of padding. */
  function DecodeFinalGroup(g: string): Option<seq<Byte>>
    requires |g| == 4
  {
    var a, b, c := DigitValue(g[0]), DigitValue(g[1]), DigitValue(g[2]);
    if g[2] == '=' && g[3] == '=' then
      if a.None? || b.None? then None else Some([a.value * 4 + b.value / 16])
    else if g[3] == '=' then
      if a.None? || b.None? || c.None? then None
      else Some([a.value * 4 + b.value / 16, b.value % 16 * 16 + c.value / 4])
    else DecodeGroup(g)
  }

  /** Decodes padded base64 text; None on a character outside the alphabet or a bad length. */
  function Decode(s: string): Option<seq<Byte>>
    decreases |s|
  {
    if |s| == 0 then Some([])
    else if |s| < 4 then None
    else if |s| == 4 then DecodeFinalGroup(s)
    else
      match DecodeGroup(s[..4])
      case None => None
      case Some(group) =>
        match Decode(s[4..])
        case None => None
        case Some(rest) => Some(group + rest)
  }

  /** Decoding the encoding of any byte string gives it back. */
  lemma {:induction false} DecodeEncode(b: seq<Byte>)
    ensures Decode(Encode(b)) == Some(b)
    decreases |b|
  {
    if |b| == 1 {
      DecodeEncodeOne(b[0]);
      assert b == [b[0]];
    } else if |b| == 2 {
      DecodeEncodeTwo(b[0], b[1]);
      assert b == [b[0], b[1]];
    } else if |b| > 2 {
      var g := EncodeGroup(b[0], b[1], b[2]);
      var e := Encode(b);
      assert e == g + Encode(b[3..]);
      DecodeEncodeGroup(b[0], b[1], b[2]);
      assert b == [b[0], b[1], b[2]] + b[3..];
      if |b| == 3 {
        assert e == g && b == [b[0], b[1], b[2]];
      } else {
        DecodeEncode(b[3..]);
        assert e[..4] == g && e[4..] == Encode(b[3..]);
      }
    }
  }

  lemma DecodeEncodeOne(x: Byte)
    ensures Decode(Encode([x])) == Some([x])
  {
    DigitValueOfDigit(x / 4);
    DigitValueOfDigit(x % 4 * 16);
    assert x % 4 * 16 / 16 == x % 4;
    assert x / 4 * 4 + x % 4 == x;
  }

  lemma DecodeEncodeTwo(x: Byte, y: Byte)
    ensures Decode(Encode([x, y])) == Some([x, y])
  {
    var i, j, k := x / 4, x % 4 * 16 + y / 16, y % 16 * 4;
    DigitValueOfDigit(i);
    DigitValueOfDigit(j);
    DigitValueOfDigit(k);
    assert Encode([x, y]) == [Digit(i), Digit(j), Digit(k), '='];
    assert j / 16 == x % 4 && j % 16 == y / 16 && k / 4 == y % 16;
    assert i * 4 + j / 16 == x;
    assert j % 16 * 16 + k / 4 == y;
  }

  /** A full group decodes back to its three bytes, whether or not it is the last one. */
  lemma DecodeEncodeGroup(x: Byte, y: Byte, z: Byte)
    ensures DecodeGroup(EncodeGroup(x, y, z)) == Some([x, y, z])
    ensures DecodeFinalGroup(EncodeGroup(x, y, z)) == Some([x, y, z])
  {
    var i, j, k, l := x / 4, x % 4 * 16 + y / 16, y % 16 * 4 + z / 64, z % 64;
    DigitValueOfDigit(i);
    DigitValueOfDigit(j);
    DigitValueOfDigit(k);
    DigitValueOfDigit(l);
    GroupArithmetic(x, y, z);
  }

  lemma GroupArithmetic(x: Byte, y: Byte, z: Byte)
    ensures var j, k := x % 4 * 16 + y / 16, y % 16 * 4 + z / 64;
      && x / 4 * 4 + j / 16 == x
      && j % 16 * 16 + k / 4 == y
      && k % 4 * 64 + z % 64 == z
  {
    var j, k := x % 4 * 16 + y / 16, y % 16 * 4 + z / 64;
    assert j / 16 == x % 4 && j % 16 == y / 16;
    assert k / 4 == y % 16 && k % 4 == z / 64;
  }
}
