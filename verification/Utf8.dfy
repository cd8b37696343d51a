/**
 UTF-8 (RFC 3629), the encoding behind every Rust string: `as_bytes`, `String::from_utf8`
 and `String::from_utf8_lossy`. A Dafny char is a Unicode scalar value, as a Rust char is.
 */
module Utf8 {
  import opened Octets
  import opened Wrappers

  function EncodeChar(c: char): (b: Bytes)
    ensures 1 <= |b| <= 4
  {
    var n := c as int;
    if n < 0x80 then [n]
    else if n < 0x800 then [0xC0 + n / 64, 0x80 + n % 64]
    else if n < 0x10000 then [0xE0 + n / 4096, 0x80 + n / 64 % 64, 0x80 + n % 64]
    else [0xF0 + n / 262144, 0x80 + n / 4096 % 64, 0x80 + n / 64 % 64, 0x80 + n % 64]
  }

  function Encode(s: string): (b: Bytes)
    ensures |s| <= |b|
  {
    if s == "" then [] else EncodeChar(s[0]) + Encode(s[1..])
  }

  predicate Continuation(b: Bytes, i: nat) {
    i < |b| && 0x80 <= b[i] < 0xC0
  }

  /** The code point a two, three or four byte sequence spells. */
  function Point2(b0: int, b1: int): int {
    (b0 - 0xC0) * 64 + (b1 - 0x80)
  }

  function Point3(b0: int, b1: int, b2: int): int {
    (b0 - 0xE0) * 4096 + (b1 - 0x80) * 64 + (b2 - 0x80)
  }

  function Point4(b0: int, b1: int, b2: int, b3: int): int {
    (b0 - 0xF0) * 262144 + (b1 - 0x80) * 4096 + (b2 - 0x80) * 64 + (b3 - 0x80)
  }

  /** The scalar value at the front of `b` with its length; overlong forms and surrogates are refused. */
  function DecodeChar(b: Bytes): (r: Option<(char, nat)>)
    requires |b| > 0
    ensures r.Some? ==> 1 <= r.value.1 <= |b|
  {
    if b[0] < 0x80 then Some((b[0] as char, 1))
    else if 0xC2 <= b[0] < 0xE0 && Continuation(b, 1) then Some((Point2(b[0], b[1]) as char, 2))
    else if 0xE0 <= b[0] < 0xF0 && Continuation(b, 1) && Continuation(b, 2) then
      var n := Point3(b[0], b[1], b[2]);
      if 0x800 <= n && !(0xD800 <= n < 0xE000) then Some((n as char, 3)) else None
    else if 0xF0 <= b[0] < 0xF5 && Continuation(b, 1) && Continuation(b, 2) && Continuation(b, 3) then
      var n := Point4(b[0], b[1], b[2], b[3]);
      if 0x10000 <= n < 0x110000 then Some((n as char, 4)) else None
    else None
  }

  /** `String::from_utf8`. */
  function Decode(b: Bytes): (r: Option<string>) {
    if |b| == 0 then Some("")
    else
      var (c, n) :- DecodeChar(b);
      var rest :- Decode(b[n..]);
      Some([c] + rest)
  }

  /** How many bytes one replacement character stands for when no scalar value starts `b`. */
  function BadLength(b: Bytes): (n: nat)
    requires |b| > 0
    ensures 1 <= n <= |b|
  {
    if 0xE0 <= b[0] < 0xF0 && Continuation(b, 1)
       && (b[0] == 0xE0 ==> b[1] >= 0xA0) && (b[0] == 0xED ==> b[1] < 0xA0) then 2
    else if 0xF0 <= b[0] < 0xF5 && Continuation(b, 1)
            && (b[0] == 0xF0 ==> b[1] >= 0x90) && (b[0] == 0xF4 ==> b[1] < 0x90) then
      if Continuation(b, 2) then 3 else 2
    else 1
  }

  /** `String::from_utf8_lossy`. */
  function Lossy(b: Bytes): string {
    if |b| == 0 then ""
    else match DecodeChar(b)
      case Some((c, n)) => [c] + Lossy(b[n..])
      case None => ['\U{FFFD}'] + Lossy(b[BadLength(b)..])
  }

  lemma Split2(n: int, x: int, y: int)
    requires 0 <= y < 64
    ensures n == 64 * x + y <==> x == n / 64 && y == n % 64
  {
  }

  lemma DecodeCharOfEncoding(c: char, rest: Bytes)
    ensures DecodeChar(EncodeChar(c) + rest) == Some((c, |EncodeChar(c)|))
  {
    var n := c as int;
    var e := EncodeChar(c);
    var b := e + rest;
    assert forall i :: 0 <= i < |e| ==> b[i] == e[i];
    if n >= 0x10000 {
      Fold4(n);
    } else if n >= 0x800 {
      Fold3(n);
    }
  }

  lemma Fold3(n: int)
    ensures Point3(0xE0 + n / 4096, 0x80 + n / 64 % 64, 0x80 + n % 64) == n
  {
    assert n / 64 / 64 == n / 4096;
  }

  lemma Fold4(n: int)
    ensures Point4(0xF0 + n / 262144, 0x80 + n / 4096 % 64, 0x80 + n / 64 % 64, 0x80 + n % 64) == n
  {
    assert n / 4096 / 64 == n / 262144;
    assert n / 64 / 64 == n / 4096;
  }

  lemma EncodeCharOfDecoding(b: Bytes)
    requires |b| > 0 && DecodeChar(b).Some?
    ensures EncodeChar(DecodeChar(b).value.0) == b[..DecodeChar(b).value.1]
  {
    var (c, n) := DecodeChar(b).value;
    if n == 2 {
      Split2(c as int, b[0] - 0xC0, b[1] - 0x80);
    } else if n == 3 {
      Unfold3(c as int, b[0] - 0xE0, b[1] - 0x80, b[2] - 0x80);
    } else if n == 4 {
      Unfold4(c as int, b[0] - 0xF0, b[1] - 0x80, b[2] - 0x80, b[3] - 0x80);
    }
  }

  lemma Unfold3(n: int, x: int, y: int, z: int)
    requires n == x * 4096 + y * 64 + z
    requires 0 <= y < 64 && 0 <= z < 64
    ensures x == n / 4096 && y == n / 64 % 64 && z == n % 64
  {
    Split2(n, x * 64 + y, z);
    Split2(n / 64, x, y);
  }

  lemma Unfold4(n: int, w: int, x: int, y: int, z: int)
    requires n == w * 262144 + x * 4096 + y * 64 + z
    requires 0 <= x < 64 && 0 <= y < 64 && 0 <= z < 64
    ensures w == n / 262144 && x == n / 4096 % 64 && y == n / 64 % 64 && z == n % 64
  {
    Split2(n, w * 4096 + x * 64 + y, z);
    Unfold3(n / 64, w, x, y);
  }

  lemma {:induction false} DecodeEncode(s: string)
    ensures Decode(Encode(s)) == Some(s)
  {
    if s != "" {
      var head, tail := EncodeChar(s[0]), Encode(s[1..]);
      DecodeCharOfEncoding(s[0], tail);
      assert (head + tail)[|head|..] == tail;
      DecodeEncode(s[1..]);
      assert s == [s[0]] + s[1..];
    }
  }

  lemma DecodeStep(b: Bytes) returns (c: char, n: nat)
    requires |b| > 0 && Decode(b).Some?
    ensures 1 <= n <= |b| && b[..n] == EncodeChar(c)
    ensures Decode(b[n..]).Some? && Decode(b).value == [c] + Decode(b[n..]).value
  {
    EncodeCharOfDecoding(b);
    c, n := DecodeChar(b).value.0, DecodeChar(b).value.1;
  }

  lemma {:induction false} EncodeDecode(b: Bytes)
    requires Decode(b).Some?
    ensures Encode(Decode(b).value) == b
    decreases |b|
  {
    if b != [] {
      var c, n := DecodeStep(b);
      var t := b[n..];
      EncodeDecode(t);
      EncodeCons(c, Decode(t).value);
      assert b == b[..n] + t;
    }
  }

  lemma EncodeCons(c: char, t: string)
    ensures Encode([c] + t) == EncodeChar(c) + Encode(t)
  {
    assert ([c] + t)[1..] == t;
  }

  lemma EncodeInjective(s: string, t: string)
    requires Encode(s) == Encode(t)
    ensures s == t
  {
    DecodeEncode(s);
    DecodeEncode(t);
  }

  lemma {:induction false} LossyOfValid(b: Bytes)
    requires Decode(b).Some?
    ensures Lossy(b) == Decode(b).value
    decreases |b|
  {
    if |b| > 0 {
      var (c, n) := DecodeChar(b).value;
      LossyOfValid(b[n..]);
    }
  }

  lemma LossyEncode(s: string)
    ensures Lossy(Encode(s)) == s
  {
    DecodeEncode(s);
    LossyOfValid(Encode(s));
  }

  lemma {:induction false} EncodeAppend(s: string, t: string)
    ensures Encode(s + t) == Encode(s) + Encode(t)
  {
    if s == "" {
      assert s + t == t;
    } else {
      hide EncodeChar;
      EncodeAppend(s[1..], t);
      assert (s + t)[1..] == s[1..] + t && (s + t)[0] == s[0];
      Assoc(EncodeChar(s[0]), Encode(s[1..]), Encode(t));
    }
  }

  predicate Ascii(s: string) {
    forall i :: 0 <= i < |s| ==> s[i] as int < 0x80
  }

  lemma {:induction false} EncodeAscii(s: string)
    requires Ascii(s)
    ensures |Encode(s)| == |s|
    ensures forall i :: 0 <= i < |s| ==> Encode(s)[i] == s[i] as int
  {
    if s != "" {
      EncodeAscii(s[1..]);
    }
  }
}
