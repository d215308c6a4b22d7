/**
 * `std::str::from_utf8`, which the stdout pump applies to every buffer it
 * reads: the well-formed byte sequences of UTF-8 (RFC 3629, section 4) and
 * the characters they stand for.  `Encode` is its inverse; together the two
 * lemmas at the end say that `Decode` accepts exactly the encodings of
 * strings and gives back the string encoded.
 */
module Utf8 {
  import opened Wrappers

  type byte = b: int | 0 <= b < 256

  /** A Unicode scalar value: a code point that is not a surrogate. */
  predicate IsScalar(cp: int) {
    0 <= cp < 0xD800 || 0xE000 <= cp <= 0x10FFFF
  }

  predicate IsContinuation(b: byte) { 0x80 <= b <= 0xBF }

  /** The number of bytes UTF-8 uses for `cp`. */
  function EncodedLength(cp: nat): nat {
    if cp < 0x80 then 1 else if cp < 0x800 then 2 else if cp < 0x10000 then 3 else 4
  }

  /**
   * The first character of `b`: how many bytes it takes and the code point,
   * or None when `b` does not start with a well-formed sequence (a stray
   * continuation byte, an overlong form, a surrogate, a value above
   * U+10FFFF, or a sequence cut short).
   */
  function DecodeFirst(b: seq<byte>): (r: Option<(nat, nat)>)
    requires |b| > 0
    ensures r.Some? ==> 1 <= r.value.0 <= |b| && IsScalar(r.value.1)
    ensures r.Some? ==> r.value.0 == EncodedLength(r.value.1)
  {
    var b0 := b[0] as int;
    if b0 < 0x80 then Some((1, b0))
    else if 0xC2 <= b0 <= 0xDF then
      if |b| >= 2 && IsContinuation(b[1]) then
        Some((2, (b0 - 0xC0) * 64 + (b[1] as int - 0x80)))
      else None
    else if 0xE0 <= b0 <= 0xEF then
      var lo := if b0 == 0xE0 then 0xA0 else 0x80;
      var hi := if b0 == 0xED then 0x9F else 0xBF;
      if |b| >= 3 && lo <= b[1] <= hi && IsContinuation(b[2]) then
        Some((3, (b0 - 0xE0) * 4096 + (b[1] as int - 0x80) * 64 + (b[2] as int - 0x80)))
      else None
    else if 0xF0 <= b0 <= 0xF4 then
      var lo := if b0 == 0xF0 then 0x90 else 0x80;
      var hi := if b0 == 0xF4 then 0x8F else 0xBF;
      if |b| >= 4 && lo <= b[1] <= hi && IsContinuation(b[2]) && IsContinuation(b[3]) then
        Some((4, (b0 - 0xF0) * 262144 + (b[1] as int - 0x80) * 4096 + (b[2] as int - 0x80) * 64 + (b[3] as int - 0x80)))
      else None
    else None
  }

  /** `str::from_utf8`: the text `b` encodes, or None when `b` is not UTF-8. */
  function Decode(b: seq<byte>): (r: Option<string>)
    ensures r.Some? ==> |r.value| <= |b|
    decreases |b|
  {
    if |b| == 0 then Some([])
    else
      match DecodeFirst(b)
      case None => None
      case Some((n, cp)) =>
        match Decode(b[n..])
        case None => None
        case Some(rest) => Some([cp as char] + rest)
  }

  function EncodeScalar(c: char): (b: seq<byte>)
    ensures |b| == EncodedLength(c as int)
  {
    var cp := c as int;
    if cp < 0x80 then [cp]
    else if cp < 0x800 then [0xC0 + cp / 64, 0x80 + cp % 64]
    else if cp < 0x10000 then [0xE0 + cp / 4096, 0x80 + (cp / 64) % 64, 0x80 + cp % 64]
    else [0xF0 + cp / 262144, 0x80 + (cp / 4096) % 64, 0x80 + (cp / 64) % 64, 0x80 + cp % 64]
  }

  /** The UTF-8 encoding of a string, as Rust holds a `String` in memory. */
  function Encode(s: string): seq<byte>
  {
    if |s| == 0 then [] else EncodeScalar(s[0]) + Encode(s[1..])
  }

  lemma Digits64(cp: nat)
    ensures cp == (cp / 64) * 64 + cp % 64
    ensures cp / 4096 == (cp / 64) / 64
    ensures cp / 262144 == (cp / 4096) / 64
  {
  }

  /** Decoding the encoding of one character gives that character back. */
  lemma DecodeFirstEncodeScalar(c: char, rest: seq<byte>)
    ensures DecodeFirst(EncodeScalar(c) + rest) == Some((|EncodeScalar(c)|, c as int))
  {
    var cp := c as int;
    var e := EncodeScalar(c);
    if cp < 0x80 {
    } else if cp < 0x800 {
      DecodeTwo(cp, e + rest);
    } else if cp < 0x10000 {
      DecodeThree(cp, e + rest);
    } else {
      DecodeFour(cp, e + rest);
    }
  }

  lemma DecodeTwo(cp: nat, b: seq<byte>)
    requires 0x80 <= cp < 0x800 && |b| >= 2
    requires b[0] == 0xC0 + cp / 64 && b[1] == 0x80 + cp % 64
    ensures DecodeFirst(b) == Some((2, cp))
  {
  }

  lemma DecodeThree(cp: nat, b: seq<byte>)
    requires 0x800 <= cp < 0x10000 && IsScalar(cp) && |b| >= 3
    requires b[0] == 0xE0 + cp / 4096 && b[1] == 0x80 + (cp / 64) % 64 && b[2] == 0x80 + cp % 64
    ensures DecodeFirst(b) == Some((3, cp))
  {
    Digits64(cp);
    Digits64(cp / 64);
  }

  lemma DecodeFour(cp: nat, b: seq<byte>)
    requires 0x10000 <= cp <= 0x10FFFF && |b| >= 4
    requires b[0] == 0xF0 + cp / 262144 && b[1] == 0x80 + (cp / 4096) % 64
    requires b[2] == 0x80 + (cp / 64) % 64 && b[3] == 0x80 + cp % 64
    ensures DecodeFirst(b) == Some((4, cp))
  {
    Digits64(cp);
    Digits64(cp / 64);
    Digits64(cp / 4096);
  }

  lemma DivMod64(q: nat, r: nat)
    requires r < 64
    ensures (q * 64 + r) / 64 == q && (q * 64 + r) % 64 == r
  {
  }

  lemma EncodeTwo(b0: byte, b1: byte)
    requires 0xC2 <= b0 <= 0xDF && IsContinuation(b1)
    ensures var cp := (b0 - 0xC0) * 64 + (b1 - 0x80);
      IsScalar(cp) && EncodeScalar(cp as char) == [b0, b1]
  {
    DivMod64(b0 - 0xC0, b1 - 0x80);
  }

  lemma EncodeThree(b0: byte, b1: byte, b2: byte)
    requires 0xE0 <= b0 <= 0xEF && IsContinuation(b1) && IsContinuation(b2)
    requires b0 == 0xE0 ==> b1 >= 0xA0
    requires b0 == 0xED ==> b1 <= 0x9F
    ensures var cp := (b0 - 0xE0) * 4096 + (b1 - 0x80) * 64 + (b2 - 0x80);
      IsScalar(cp) && EncodeScalar(cp as char) == [b0, b1, b2]
  {
    var q := (b0 - 0xE0) * 64 + (b1 - 0x80);
    var cp := q * 64 + (b2 - 0x80);
    DivMod64(q, b2 - 0x80);
    DivMod64(b0 - 0xE0, b1 - 0x80);
    Digits64(cp);
    assert cp / 4096 == b0 - 0xE0;
  }

  lemma EncodeFour(b0: byte, b1: byte, b2: byte, b3: byte)
    requires 0xF0 <= b0 <= 0xF4 && IsContinuation(b1) && IsContinuation(b2) && IsContinuation(b3)
    requires b0 == 0xF0 ==> b1 >= 0x90
    requires b0 == 0xF4 ==> b1 <= 0x8F
    ensures var cp := (b0 - 0xF0) * 262144 + (b1 - 0x80) * 4096 + (b2 - 0x80) * 64 + (b3 - 0x80);
      IsScalar(cp) && EncodeScalar(cp as char) == [b0, b1, b2, b3]
  {
    var q1 := (b0 - 0xF0) * 64 + (b1 - 0x80);
    var q := q1 * 64 + (b2 - 0x80);
    var cp := q * 64 + (b3 - 0x80);
    DivMod64(q, b3 - 0x80);
    DivMod64(q1, b2 - 0x80);
    DivMod64(b0 - 0xF0, b1 - 0x80);
    Digits64(cp);
    Digits64(cp / 64);
    assert cp / 4096 == q1;
    assert cp / 262144 == b0 - 0xF0;
  }

  /** Whatever Decode accepts at the front is the encoding of what it returns. */
  lemma EncodeScalarDecodeFirst(b: seq<byte>)
    requires |b| > 0 && DecodeFirst(b).Some?
    ensures var (n, cp) := DecodeFirst(b).value;
      EncodeScalar(cp as char) == b[..n]
  {
    var n := DecodeFirst(b).value.0;
    if n == 2 {
      EncodeTwo(b[0], b[1]);
    } else if n == 3 {
      EncodeThree(b[0], b[1], b[2]);
    } else if n == 4 {
      EncodeFour(b[0], b[1], b[2], b[3]);
    }
  }

  /** How Decode goes on after the first character of `b`. */
  lemma DecodeCons(b: seq<byte>, n: nat, cp: nat)
    requires |b| > 0 && DecodeFirst(b) == Some((n, cp))
    ensures n <= |b|
    ensures Decode(b) == if Decode(b[n..]).Some? then Some([cp as char] + Decode(b[n..]).value) else None
  {
  }

  lemma {:induction false} DecodeEncode(s: string)
    ensures Decode(Encode(s)) == Some(s)
  {
    if |s| > 0 {
      var e := EncodeScalar(s[0]);
      var b := e + Encode(s[1..]);
      DecodeFirstEncodeScalar(s[0], Encode(s[1..]));
      assert b[|e|..] == Encode(s[1..]);
      DecodeEncode(s[1..]);
      DecodeCons(b, |e|, s[0] as int);
      assert [s[0]] + s[1..] == s;
    }
  }

  lemma {:induction false} EncodeDecode(b: seq<byte>)
    requires Decode(b).Some?
    ensures Encode(Decode(b).value) == b
    decreases |b|
  {
    if |b| > 0 {
      var first := DecodeFirst(b).value;
      var n, cp := first.0, first.1;
      var rest := Decode(b[n..]).value;
      var s := [cp as char] + rest;
      assert Decode(b) == Some(s);
      EncodeScalarDecodeFirst(b);
      EncodeDecode(b[n..]);
      assert s[0] == cp as char && s[1..] == rest;
      assert Encode(s) == EncodeScalar(cp as char) + Encode(rest);
      assert b[..n] + b[n..] == b;
    }
  }

  /** Bytes below 0x80 are ASCII: each one is the character with that code. */
  lemma {:induction false} DecodeAscii(b: seq<byte>)
    requires forall i | 0 <= i < |b| :: b[i] < 0x80
    ensures Decode(b).Some? && |Decode(b).value| == |b|
    ensures forall i | 0 <= i < |b| :: Decode(b).value[i] as int == b[i]
  {
    if |b| > 0 {
      DecodeAscii(b[1..]);
    }
  }
}
