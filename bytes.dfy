/** Bytes and the strict UTF-8 codec behind Python's `str.encode('utf-8')`
    and `bytes.decode('utf-8')`. Dafny's `char` is a Unicode scalar value,
    so every string can be encoded; decoding accepts exactly the
    well-formed byte sequences (no overlong forms, no surrogates, nothing
    above U+10FFFF) and fails otherwise, as Python's strict decoder does. */
module Bytes {
  import opened Wrappers

  type Byte = b: int | 0 <= b < 256

  predicate IsScalar(n: int) {
    0 <= n < 0xD800 || 0xE000 <= n < 0x11_0000
  }

  predicate IsContinuation(b: Byte) {
    0x80 <= b < 0xC0
  }

  /** The one to four bytes that encode the scalar value `n`. */
  function EncodeScalar(n: int): (r: seq<Byte>)
    requires IsScalar(n)
    ensures 1 <= |r| <= 4
  {
    if n < 0x80 then [n]
    else if n < 0x800 then [0xC0 + n / 64, 0x80 + n % 64]
    else if n < 0x1_0000 then [0xE0 + n / 64 / 64, 0x80 + n / 64 % 64, 0x80 + n % 64]
    else [0xF0 + n / 64 / 64 / 64, 0x80 + n / 64 / 64 % 64, 0x80 + n / 64 % 64, 0x80 + n % 64]
  }

  function Encode(s: string): seq<Byte> {
    if s == [] then [] else EncodeScalar(s[0] as int) + Encode(s[1..])
  }

  /** Decodes the scalar value at the head of `b`, with the number of bytes it uses. */
  function DecodeScalar(b: seq<Byte>): Option<(int, nat)>
    requires |b| > 0
  {
    var b0: int := b[0];
    if b0 < 0x80 then Some((b0, 1))
    else if 0xC0 <= b0 < 0xE0 && |b| >= 2 && IsContinuation(b[1]) then
      var n := Combine2(b0 - 0xC0, b[1] - 0x80);
      if 0x80 <= n then Some((n, 2)) else None
    else if 0xE0 <= b0 < 0xF0 && |b| >= 3 && IsContinuation(b[1]) && IsContinuation(b[2]) then
      var n := Combine2(Combine2(b0 - 0xE0, b[1] - 0x80), b[2] - 0x80);
      if 0x800 <= n && !(0xD800 <= n < 0xE000) then Some((n, 3)) else None
    else if 0xF0 <= b0 < 0xF8 && |b| >= 4 && IsContinuation(b[1]) && IsContinuation(b[2])
            && IsContinuation(b[3]) then
      var n := Combine2(Combine2(Combine2(b0 - 0xF0, b[1] - 0x80), b[2] - 0x80), b[3] - 0x80);
      if 0x1_0000 <= n < 0x11_0000 then Some((n, 4)) else None
    else None
  }

  /** Appends six payload bits to `hi`. */
  function Combine2(hi: int, lo: int): int {
    hi * 64 + lo
  }

  lemma DecodeScalarShape(b: seq<Byte>)
    requires |b| > 0 && DecodeScalar(b).Some?
    ensures 1 <= DecodeScalar(b).value.1 <= |b|
    ensures IsScalar(DecodeScalar(b).value.0)
  {
  }

  /** Strict decoding: None where Python raises UnicodeDecodeError. */
  function Decode(b: seq<Byte>): Option<string>
    decreases |b|
  {
    if b == [] then Some([])
    else
      match DecodeScalar(b)
      case None => None
      case Some(p) =>
        DecodeScalarShape(b);
        match Decode(b[p.1..])
        case None => None
        case Some(rest) => Some([p.0 as char] + rest)
  }

  lemma DecodeEncodeScalar(n: int, rest: seq<Byte>)
    requires IsScalar(n)
    ensures DecodeScalar(EncodeScalar(n) + rest) == Some((n, |EncodeScalar(n)|))
  {
    if n < 0x80 {
    } else if n < 0x800 {
      DecodeEncodeTwo(n, rest);
    } else if n < 0x1_0000 {
      DecodeEncodeThree(n, rest);
    } else {
      DecodeEncodeFour(n, rest);
    }
  }

  lemma DecodeEncodeTwo(n: int, rest: seq<Byte>)
    requires 0x80 <= n < 0x800
    ensures DecodeScalar(EncodeScalar(n) + rest) == Some((n, 2))
  {
    var e := EncodeScalar(n) + rest;
    var q1, r0 := n / 64, n % 64;
    assert n == Combine2(q1, r0);
    assert e[0] == 0xC0 + q1 && e[1] == 0x80 + r0;
  }

  lemma DecodeEncodeThree(n: int, rest: seq<Byte>)
    requires 0x800 <= n < 0x1_0000 && IsScalar(n)
    ensures DecodeScalar(EncodeScalar(n) + rest) == Some((n, 3))
  {
    var e := EncodeScalar(n) + rest;
    var q1, r0 := n / 64, n % 64;
    var q2, r1 := q1 / 64, q1 % 64;
    assert n == Combine2(q1, r0);
    assert q1 == Combine2(q2, r1);
    assert e[0] == 0xE0 + q2 && e[1] == 0x80 + r1 && e[2] == 0x80 + r0;
  }

  lemma DecodeEncodeFour(n: int, rest: seq<Byte>)
    requires 0x1_0000 <= n < 0x11_0000
    ensures DecodeScalar(EncodeScalar(n) + rest) == Some((n, 4))
  {
    var e := EncodeScalar(n) + rest;
    var q1, r0 := n / 64, n % 64;
    var q2, r1 := q1 / 64, q1 % 64;
    var q3, r2 := q2 / 64, q2 % 64;
    assert n == Combine2(q1, r0);
    assert q1 == Combine2(q2, r1);
    assert q2 == Combine2(q3, r2);
    assert e[0] == 0xF0 + q3 && e[1] == 0x80 + r2 && e[2] == 0x80 + r1 && e[3] == 0x80 + r0;
  }

  /** Splitting six payload bits off a combined value gives back its parts. */
  lemma Split64(hi: int, lo: int)
    requires 0 <= hi && 0 <= lo < 64
    ensures Combine2(hi, lo) / 64 == hi && Combine2(hi, lo) % 64 == lo
  {
  }

  lemma EncodeDecodeScalar(b: seq<Byte>)
    requires |b| > 0 && DecodeScalar(b).Some?
    ensures IsScalar(DecodeScalar(b).value.0)
    ensures DecodeScalar(b).value.1 <= |b|
    ensures b[..DecodeScalar(b).value.1] == EncodeScalar(DecodeScalar(b).value.0)
  {
    var b0: int := b[0];
    var p := DecodeScalar(b).value;
    if b0 < 0x80 {
    } else if p.1 == 2 {
      EncodeDecodeTwo(b);
    } else if p.1 == 3 {
      EncodeDecodeThree(b);
    } else {
      EncodeDecodeFour(b);
    }
  }

  lemma EncodeDecodeTwo(b: seq<Byte>)
    requires |b| >= 2 && 0xC0 <= b[0] < 0xE0 && IsContinuation(b[1])
    requires 0x80 <= Combine2(b[0] - 0xC0, b[1] - 0x80)
    ensures b[..2] == EncodeScalar(Combine2(b[0] - 0xC0, b[1] - 0x80))
  {
    Split64(b[0] - 0xC0, b[1] - 0x80);
  }

  lemma EncodeDecodeThree(b: seq<Byte>)
    requires |b| >= 3 && 0xE0 <= b[0] < 0xF0 && IsContinuation(b[1]) && IsContinuation(b[2])
    requires var n := Combine2(Combine2(b[0] - 0xE0, b[1] - 0x80), b[2] - 0x80); 0x800 <= n && IsScalar(n)
    ensures b[..3] == EncodeScalar(Combine2(Combine2(b[0] - 0xE0, b[1] - 0x80), b[2] - 0x80))
  {
    var c1 := Combine2(b[0] - 0xE0, b[1] - 0x80);
    Split64(c1, b[2] - 0x80);
    Split64(b[0] - 0xE0, b[1] - 0x80);
    assert b[..3] == [b[0], b[1], b[2]];
  }

  lemma EncodeDecodeFour(b: seq<Byte>)
    requires |b| >= 4 && 0xF0 <= b[0] < 0xF8 && IsContinuation(b[1]) && IsContinuation(b[2]) && IsContinuation(b[3])
    requires var n := Combine2(Combine2(Combine2(b[0] - 0xF0, b[1] - 0x80), b[2] - 0x80), b[3] - 0x80);
      0x1_0000 <= n < 0x11_0000
    ensures b[..4] == EncodeScalar(Combine2(Combine2(Combine2(b[0] - 0xF0, b[1] - 0x80), b[2] - 0x80), b[3] - 0x80))
  {
    var c1 := Combine2(b[0] - 0xF0, b[1] - 0x80);
    var c2 := Combine2(c1, b[2] - 0x80);
    Split64(c2, b[3] - 0x80);
    Split64(c1, b[2] - 0x80);
    Split64(b[0] - 0xF0, b[1] - 0x80);
    assert b[..4] == [b[0], b[1], b[2], b[3]];
  }

  /** Decoding undoes encoding. */
  lemma {:induction false} DecodeEncode(s: string)
    ensures Decode(Encode(s)) == Some(s)
  {
    if s != [] {
      var head := EncodeScalar(s[0] as int);
      var tail := Encode(s[1..]);
      assert Encode(s) == head + tail;
      DecodeEncodeScalar(s[0] as int, tail);
      assert (head + tail)[|head|..] == tail;
      DecodeEncode(s[1..]);
      assert Decode(head + tail) == Some([(s[0] as int) as char] + s[1..]);
      assert [(s[0] as int) as char] + s[1..] == s;
    }
  }

  /** Decoding succeeds only on an encoding, and then encoding gives the bytes back. */
  lemma DecodeCons(b: seq<Byte>)
    requires b != [] && Decode(b).Some?
    ensures DecodeScalar(b).Some? && 1 <= DecodeScalar(b).value.1 <= |b|
    ensures var p := DecodeScalar(b).value;
      Decode(b[p.1..]).Some? && Decode(b).value == [p.0 as char] + Decode(b[p.1..]).value
  {
    DecodeScalarShape(b);
  }

  /** Encoding a scalar value in front of `rest` puts its bytes in front. */
  lemma EncodeStep(b: seq<Byte>, n: int, k: nat, rest: string)
    requires k <= |b| && IsScalar(n) && b[..k] == EncodeScalar(n) && Encode(rest) == b[k..]
    ensures Encode([n as char] + rest) == b
  {
    var s := [n as char] + rest;
    assert s[0] == n as char && s[1..] == rest;
    assert b == b[..k] + b[k..];
  }

  lemma {:induction false} EncodeDecode(b: seq<Byte>)
    requires Decode(b).Some?
    ensures Encode(Decode(b).value) == b
    decreases |b|
  {
    if b != [] {
      DecodeCons(b);
      EncodeDecodeScalar(b);
      var p := DecodeScalar(b).value;
      EncodeDecode(b[p.1..]);
      EncodeStep(b, p.0, p.1, Decode(b[p.1..]).value);
    }
  }
}
