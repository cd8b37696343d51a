/**
 Base64 (RFC 4648, sections 4 and 5) as the `base64` crate's general purpose engines do it:
 a standard or a URL alphabet, padding required or forbidden, and in both cases the unused
 bits of the last character must be zero.
 */
module Base64 {
  import opened Octets
  import opened Wrappers

  datatype Alphabet = Standard | UrlSafe

  datatype Engine = Engine(alphabet: Alphabet, padded: bool)

  const STANDARD := Engine(Standard, true)
  const STANDARD_NO_PAD := Engine(Standard, false)
  const URL_SAFE := Engine(UrlSafe, true)
  const URL_SAFE_NO_PAD := Engine(UrlSafe, false)

  type sextet = x: int | 0 <= x < 64

  function ToChar(a: Alphabet, x: sextet): (c: char)
    ensures FromChar(a, c) == Some(x)
    ensures '-' <= c <= 'z' || c == '+'
  {
    if x < 26 then ('A' as int + x) as char
    else if x < 52 then ('a' as int + x - 26) as char
    else if x < 62 then ('0' as int + x - 52) as char
    else if x == 62 then (if a.Standard? then '+' else '-')
    else if a.Standard? then '/' else '_'
  }

  function FromChar(a: Alphabet, c: char): (r: Option<sextet>) {
    if 'A' <= c <= 'Z' then Some(c as int - 'A' as int)
    else if 'a' <= c <= 'z' then Some(c as int - 'a' as int + 26)
    else if '0' <= c <= '9' then Some(c as int - '0' as int + 52)
    else if c == (if a.Standard? then '+' else '-') then Some(62)
    else if c == (if a.Standard? then '/' else '_') then Some(63)
    else None
  }

  lemma ToCharOfFromChar(a: Alphabet, c: char)
    requires FromChar(a, c).Some?
    ensures ToChar(a, FromChar(a, c).value) == c
  {
  }

  /** One to three bytes as two to four groups of six bits, most significant bits first. */
  function Sextets(b: Bytes): (x: seq<sextet>)
    requires 1 <= |b| <= 3
    ensures |x| == |b| + 1
  {
    if |b| == 1 then [b[0] / 4, b[0] % 4 * 16]
    else if |b| == 2 then [b[0] / 4, b[0] % 4 * 16 + b[1] / 16, b[1] % 16 * 4]
    else [b[0] / 4, b[0] % 4 * 16 + b[1] / 16, b[1] % 16 * 4 + b[2] / 64, b[2] % 64]
  }

  function Unpack(x: seq<sextet>): (r: Option<Bytes>)
    requires 2 <= |x| <= 4
    ensures r.Some? ==> |r.value| == |x| - 1
  {
    var w: int, y: int := x[0], x[1];
    var first := w * 4 + y / 16;
    if |x| == 2 then (if y % 16 == 0 then Some([first]) else None)
    else
      var z: int := x[2];
      var second := y % 16 * 16 + z / 4;
      if |x| == 3 then (if z % 4 == 0 then Some([first, second]) else None)
      else Some([first, second, z % 4 * 64 + x[3]])
  }

  function ToChars(a: Alphabet, x: seq<sextet>): (s: string)
    ensures |s| == |x|
    ensures forall i :: 0 <= i < |x| ==> s[i] == ToChar(a, x[i])
  {
    seq(|x|, i requires 0 <= i < |x| => ToChar(a, x[i]))
  }

  function FromChars(a: Alphabet, s: string): (r: Option<seq<sextet>>)
    ensures r.Some? <==> forall i :: 0 <= i < |s| ==> FromChar(a, s[i]).Some?
    ensures r.Some? ==> |r.value| == |s|
    ensures r.Some? ==> forall i :: 0 <= i < |s| ==> FromChar(a, s[i]) == Some(r.value[i])
  {
    if forall i :: 0 <= i < |s| ==> FromChar(a, s[i]).Some? then
      Some(seq(|s|, i requires 0 <= i < |s| => FromChar(a, s[i]).value))
    else None
  }

  function EncodeGroup(a: Alphabet, b: Bytes): (s: string)
    requires 1 <= |b| <= 3
    ensures |s| == |b| + 1
  {
    ToChars(a, Sextets(b))
  }

  function DecodeGroup(a: Alphabet, s: string): (r: Option<Bytes>)
    requires 2 <= |s| <= 4
    ensures r.Some? ==> |r.value| == |s| - 1
  {
    var x :- FromChars(a, s);
    Unpack(x)
  }

  /** Encoding without padding. */
  function EncodeBody(a: Alphabet, b: Bytes): string {
    if |b| == 0 then ""
    else if |b| <= 3 then EncodeGroup(a, b)
    else EncodeGroup(a, b[..3]) + EncodeBody(a, b[3..])
  }

  function DecodeBody(a: Alphabet, s: string): Option<Bytes> {
    if |s| == 0 then Some([])
    else if |s| == 1 then None
    else if |s| <= 4 then DecodeGroup(a, s)
    else
      var head :- DecodeGroup(a, s[..4]);
      var rest :- DecodeBody(a, s[4..]);
      Some(head + rest)
  }

  function Padding(n: nat): string {
    if n % 3 == 1 then "==" else if n % 3 == 2 then "=" else ""
  }

  function Encode(e: Engine, b: Bytes): string {
    EncodeBody(e.alphabet, b) + (if e.padded then Padding(|b|) else "")
  }

  function StripPadding(s: string): string {
    if |s| >= 2 && s[|s| - 2..] == "==" then s[..|s| - 2]
    else if |s| >= 1 && s[|s| - 1] == '=' then s[..|s| - 1]
    else s
  }

  function Decode(e: Engine, s: string): Option<Bytes> {
    if !e.padded then DecodeBody(e.alphabet, s)
    else if |s| % 4 != 0 then None
    else DecodeBody(e.alphabet, StripPadding(s))
  }

  lemma Cut(p: int, q: int)
    ensures 0 <= q < 4 ==> (4 * p + q) / 4 == p && (4 * p + q) % 4 == q
    ensures 0 <= q < 16 ==> (16 * p + q) / 16 == p && (16 * p + q) % 16 == q
    ensures 0 <= q < 64 ==> (64 * p + q) / 64 == p && (64 * p + q) % 64 == q
  {
  }

  lemma UnpackSextets(b: Bytes)
    requires 1 <= |b| <= 3
    ensures Unpack(Sextets(b)) == Some(b)
  {
    var x: int, s := b[0], Sextets(b);
    var y: int := if |b| > 1 then b[1] else 0;
    var z: int := if |b| > 2 then b[2] else 0;
    Cut(x % 4, y / 16);
    Cut(y % 16, z / 64);
    Cut(z / 64, z % 64);
    assert s[1] / 16 == x % 4 && s[1] % 16 == y / 16;
    assert |b| > 1 ==> s[2] / 4 == y % 16 && s[2] % 4 == z / 64;
    var whole: Bytes := if |b| == 1 then [x] else if |b| == 2 then [x, y] else [x, y, z];
    assert Unpack(s).value == whole == b;
  }

  lemma SextetsUnpack(x: seq<sextet>)
    requires 2 <= |x| <= 4 && Unpack(x).Some?
    ensures Sextets(Unpack(x).value) == x
  {
    Cut(x[0], x[1] / 16);
    if |x| > 2 { Cut(x[1] % 16, x[2] / 4); }
    if |x| > 3 { Cut(x[2] % 4, x[3]); }
  }

  lemma DecodeEncodeGroup(a: Alphabet, b: Bytes)
    requires 1 <= |b| <= 3
    ensures DecodeGroup(a, EncodeGroup(a, b)) == Some(b)
  {
    UnpackSextets(b);
    assert FromChars(a, ToChars(a, Sextets(b))).value == Sextets(b);
  }

  lemma EncodeDecodeGroup(a: Alphabet, s: string)
    requires 2 <= |s| <= 4 && DecodeGroup(a, s).Some?
    ensures EncodeGroup(a, DecodeGroup(a, s).value) == s
  {
    var x := FromChars(a, s).value;
    SextetsUnpack(x);
    forall i | 0 <= i < |s|
      ensures ToChars(a, x)[i] == s[i]
    {
      ToCharOfFromChar(a, s[i]);
    }
  }

  lemma {:induction false} DecodeEncodeBody(a: Alphabet, b: Bytes)
    ensures DecodeBody(a, EncodeBody(a, b)) == Some(b)
    ensures b != [] ==> |EncodeBody(a, b)| >= 2
  {
    if 1 <= |b| <= 3 {
      DecodeEncodeGroup(a, b);
    } else if |b| > 3 {
      DecodeEncodeGroup(a, b[..3]);
      DecodeEncodeBody(a, b[3..]);
      var s := EncodeBody(a, b);
      assert b[..3] + b[3..] == b;
      assert s[..4] == EncodeGroup(a, b[..3]) && s[4..] == EncodeBody(a, b[3..]);
    }
  }

  lemma {:induction false} EncodeDecodeBody(a: Alphabet, s: string)
    requires DecodeBody(a, s).Some?
    ensures EncodeBody(a, DecodeBody(a, s).value) == s
    ensures s != "" ==> DecodeBody(a, s).value != []
  {
    if 2 <= |s| <= 4 {
      EncodeDecodeGroup(a, s);
    } else if |s| > 4 {
      EncodeDecodeGroup(a, s[..4]);
      EncodeDecodeBody(a, s[4..]);
      var b := DecodeBody(a, s).value;
      assert b[..3] == DecodeGroup(a, s[..4]).value && b[3..] == DecodeBody(a, s[4..]).value;
    }
  }

  predicate InAlphabet(a: Alphabet, s: string) {
    forall i :: 0 <= i < |s| ==> FromChar(a, s[i]).Some?
  }

  /** How many characters `n` bytes need beyond whole groups of four. */
  function Excess(n: nat): nat {
    if n % 3 == 0 then 0 else n % 3 + 1
  }

  lemma {:induction false} EncodeBodyInAlphabet(a: Alphabet, b: Bytes)
    ensures InAlphabet(a, EncodeBody(a, b))
  {
    if |b| > 3 {
      EncodeBodyInAlphabet(a, b[3..]);
    }
  }

  function BodyLength(n: nat): nat {
    if n == 0 then 0 else if n <= 3 then n + 1 else 4 + BodyLength(n - 3)
  }

  lemma {:induction false} BodyLengthExcess(n: nat)
    ensures BodyLength(n) % 4 == Excess(n)
  {
    if n > 3 { BodyLengthExcess(n - 3); }
  }

  lemma {:induction false} EncodeBodyLength(a: Alphabet, b: Bytes)
    ensures |EncodeBody(a, b)| == BodyLength(|b|)
  {
    if |b| > 3 { EncodeBodyLength(a, b[3..]); }
  }

  lemma DecodeBodyShape(a: Alphabet, s: string)
    requires DecodeBody(a, s).Some?
    ensures InAlphabet(a, s)
    ensures |s| % 4 == Excess(|DecodeBody(a, s).value|)
  {
    EncodeDecodeBody(a, s);
    EncodeBodyInAlphabet(a, DecodeBody(a, s).value);
    EncodeBodyLength(a, DecodeBody(a, s).value);
    BodyLengthExcess(|DecodeBody(a, s).value|);
  }

  lemma StripPaddingOf(a: Alphabet, body: string, n: nat)
    requires InAlphabet(a, body) && |body| % 4 == Excess(n)
    ensures StripPadding(body + Padding(n)) == body
    ensures |body + Padding(n)| % 4 == 0
  {
    var s := body + Padding(n);
    assert |body| > 0 ==> body[|body| - 1] != '=';
    if n % 3 == 0 {
      assert s == body;
    } else if n % 3 == 1 {
      assert s[..|body|] == body && s[|s| - 2..] == "==";
    } else {
      assert s[..|body|] == body && s[|s| - 2] == body[|body| - 1];
    }
  }

  lemma PaddingOfStripped(a: Alphabet, s: string, n: nat)
    requires |s| % 4 == 0 && InAlphabet(a, StripPadding(s)) && |StripPadding(s)| % 4 == Excess(n)
    ensures StripPadding(s) + Padding(n) == s
  {
    var t := StripPadding(s);
    assert |s| - |t| == 0 || |s| - |t| == 1 || |s| - |t| == 2;
    assert n % 3 == 0 || n % 3 == 1 || n % 3 == 2;
    assert s == t + s[|t|..];
  }

  lemma DecodeEncode(e: Engine, b: Bytes)
    ensures Decode(e, Encode(e, b)) == Some(b)
  {
    DecodeEncodeBody(e.alphabet, b);
    if e.padded {
      EncodeBodyInAlphabet(e.alphabet, b);
      EncodeBodyLength(e.alphabet, b);
      BodyLengthExcess(|b|);
      StripPaddingOf(e.alphabet, EncodeBody(e.alphabet, b), |b|);
    } else {
      assert Encode(e, b) == EncodeBody(e.alphabet, b);
    }
  }

  lemma EncodeDecode(e: Engine, s: string)
    requires Decode(e, s).Some?
    ensures Encode(e, Decode(e, s).value) == s
  {
    var t := if e.padded then StripPadding(s) else s;
    EncodeDecodeBody(e.alphabet, t);
    if e.padded {
      DecodeBodyShape(e.alphabet, t);
      PaddingOfStripped(e.alphabet, s, |Decode(e, s).value|);
    }
  }

  /** The characters of an encoding: the alphabet and, with padding, the equals sign. */
  lemma EncodeCharacters(e: Engine, b: Bytes)
    ensures forall c :: c in Encode(e, b) ==> FromChar(e.alphabet, c).Some? || c == '='
    ensures !e.padded ==> InAlphabet(e.alphabet, Encode(e, b))
  {
    EncodeBodyInAlphabet(e.alphabet, b);
  }

  lemma {:induction false} AlphabetsAgree(s: string)
    requires DecodeBody(Standard, s).Some? && DecodeBody(UrlSafe, s).Some?
    ensures DecodeBody(Standard, s) == DecodeBody(UrlSafe, s)
  {
    DecodeBodyShape(Standard, s);
    DecodeBodyShape(UrlSafe, s);
    assert forall i :: 0 <= i < |s| ==> FromChar(Standard, s[i]) == FromChar(UrlSafe, s[i]);
    SameCharsSameBytes(s);
  }

  lemma {:induction false} SameCharsSameBytes(s: string)
    requires forall i :: 0 <= i < |s| ==> FromChar(Standard, s[i]) == FromChar(UrlSafe, s[i])
    ensures DecodeBody(Standard, s) == DecodeBody(UrlSafe, s)
  {
    if 2 <= |s| <= 4 {
      SameCharsSameGroup(s);
    } else if |s| > 4 {
      SameCharsSameGroup(s[..4]);
      SameCharsSameBytes(s[4..]);
    }
  }

  lemma SameCharsSameGroup(s: string)
    requires 2 <= |s| <= 4
    requires forall i :: 0 <= i < |s| ==> FromChar(Standard, s[i]) == FromChar(UrlSafe, s[i])
    ensures DecodeGroup(Standard, s) == DecodeGroup(UrlSafe, s)
  {
    var x, y := FromChars(Standard, s), FromChars(UrlSafe, s);
    if x.Some? {
      assert x.value == y.value;
    }
  }

  lemma StripOnlyWhenPadded(e: Engine, s: string)
    requires Decode(e, s).Some?
    ensures Decode(e, s) == DecodeBody(e.alphabet, StripPadding(s))
    ensures !e.padded ==> StripPadding(s) == s
  {
    if !e.padded {
      DecodeBodyShape(e.alphabet, s);
      assert |s| > 0 ==> s[|s| - 1] != '=';
    }
  }

  /** Whichever two engines accept a text, they read the same bytes from it. */
  lemma EnginesAgree(e: Engine, f: Engine, s: string)
    requires Decode(e, s).Some? && Decode(f, s).Some?
    ensures Decode(e, s) == Decode(f, s)
  {
    var t := StripPadding(s);
    StripOnlyWhenPadded(e, s);
    StripOnlyWhenPadded(f, s);
    if !e.padded || !f.padded {
      assert t == s;
    }
    if e.alphabet != f.alphabet {
      AlphabetsAgree(t);
    }
  }
}
