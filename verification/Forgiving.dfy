/** Base64 read in whichever of its four dialects accepts it, whatever breaks were put in. */
module Forgiving {
  import opened Octets
  import opened Wrappers
  import opened Text
  import Base64

  predicate IsBreak(c: char) {
    c == '\n' || c == '\r' || c == ' '
  }

  /** `replace(['\n', '\r', ' '], "")`. */
  function DropBreaks(s: string): string {
    if s == "" then "" else Kept(s[0]) + DropBreaks(s[1..])
  }

  function Kept(c: char): string {
    if IsBreak(c) then "" else [c]
  }

  const ENGINES := [Base64.STANDARD, Base64.STANDARD_NO_PAD, Base64.URL_SAFE, Base64.URL_SAFE_NO_PAD]

  /** The first engine in `engines` that accepts `s`. */
  function DecodeFirst(engines: seq<Base64.Engine>, s: string): Option<Bytes> {
    if engines == [] then None
    else
      var r := Base64.Decode(engines[0], s);
      if r.Some? then r else DecodeFirst(engines[1..], s)
  }

  /** `b64_decode_forgiving`. */
  function DecodeForgiving(s: string): Option<Bytes> {
    DecodeFirst(ENGINES, DropBreaks(Trim(s)))
  }

  method DecodeForgivingLoop(s: string) returns (r: Option<Bytes>)
    ensures r == DecodeForgiving(s)
  {
    var cleaned := DropBreaks(Trim(s));
    for i := 0 to |ENGINES|
      invariant DecodeForgiving(s) == DecodeFirst(ENGINES[i..], cleaned)
    {
      assert ENGINES[i..][1..] == ENGINES[i + 1..];
      var bytes := Base64.Decode(ENGINES[i], cleaned);
      if bytes.Some? {
        return bytes;
      }
    }
    r := None;
  }

  lemma {:induction false} DecodeFirstSome(engines: seq<Base64.Engine>, s: string, e: Base64.Engine)
    requires e in engines && Base64.Decode(e, s).Some?
    ensures DecodeFirst(engines, s) == Base64.Decode(e, s)
  {
    hide Base64.Decode;
    if Base64.Decode(engines[0], s).Some? {
      Base64.EnginesAgree(engines[0], e, s);
    } else {
      assert engines == [engines[0]] + engines[1..];
      DecodeFirstSome(engines[1..], s, e);
    }
  }

  /** The order in which engines are tried makes no difference. */
  lemma OrderIndependent(a: seq<Base64.Engine>, b: seq<Base64.Engine>, s: string)
    requires forall e :: e in a <==> e in b
    ensures DecodeFirst(a, s) == DecodeFirst(b, s)
  {
    hide Base64.Decode;
    if DecodeFirst(a, s).Some? {
      var e := FirstAccepting(a, s);
      DecodeFirstSome(a, s, e);
      DecodeFirstSome(b, s, e);
    } else if DecodeFirst(b, s).Some? {
      var e := FirstAccepting(b, s);
      DecodeFirstSome(a, s, e);
    }
  }

  lemma {:induction false} FirstAccepting(engines: seq<Base64.Engine>, s: string) returns (e: Base64.Engine)
    requires DecodeFirst(engines, s).Some?
    ensures e in engines && Base64.Decode(e, s).Some?
  {
    hide Base64.Decode;
    if Base64.Decode(engines[0], s).Some? {
      e := engines[0];
    } else {
      e := FirstAccepting(engines[1..], s);
    }
  }

  lemma {:induction false} DropBreaksAppend(s: string, t: string)
    ensures DropBreaks(s + t) == DropBreaks(s) + DropBreaks(t)
  {
    if s == "" {
      assert s + t == t;
    } else {
      hide Kept;
      DropBreaksAppend(s[1..], t);
      assert (s + t)[1..] == s[1..] + t && (s + t)[0] == s[0];
      Assoc(Kept(s[0]), DropBreaks(s[1..]), DropBreaks(t));
    }
  }

  /** Where only breaks are white space, trimming first removes nothing that dropping them would keep. */
  lemma {:induction false} TrimStartThenDrop(s: string)
    requires forall c :: c in s && IsSpace(c) ==> IsBreak(c)
    ensures DropBreaks(TrimStart(s)) == DropBreaks(s)
  {
    if s != "" && IsSpace(s[0]) { TrimStartThenDrop(s[1..]); }
  }

  lemma {:induction false} TrimEndThenDrop(s: string)
    requires forall c :: c in s && IsSpace(c) ==> IsBreak(c)
    ensures DropBreaks(TrimEnd(s)) == DropBreaks(s)
  {
    if s != "" && IsSpace(s[|s| - 1]) {
      hide IsSpace, IsBreak;
      var front, last := s[..|s| - 1], s[|s| - 1];
      assert s == front + [last] && last in s;
      TrimEndThenDrop(front);
      DropBreaksAppend(front, [last]);
      assert DropBreaks([last]) == Kept(last) == "";
    }
  }

  lemma {:induction false} DropBreaksKeeps(s: string)
    ensures forall c :: c in s && !IsBreak(c) ==> c in DropBreaks(s)
  {
    if s != "" {
      DropBreaksKeeps(s[1..]);
      assert s == [s[0]] + s[1..];
    }
  }

  lemma TrimThenDrop(s: string)
    requires forall c :: c in DropBreaks(s) ==> !IsSpace(c)
    ensures DropBreaks(Trim(s)) == DropBreaks(s)
  {
    hide IsSpace, IsBreak;
    DropBreaksKeeps(s);
    assert forall c :: c in s && IsSpace(c) ==> IsBreak(c);
    TrimStartThenDrop(s);
    TrimStartKeepsEnd(s);
    TrimEndThenDrop(TrimStart(s));
  }

  lemma EncodedHasNoSpace(e: Base64.Engine, b: Bytes)
    ensures forall c :: c in Base64.Encode(e, b) ==> !IsSpace(c)
  {
    hide Base64.Encode;
    Base64.EncodeCharacters(e, b);
  }

  /** Any of the four encodings, with spaces and line breaks put in anywhere, decodes to the original bytes. */
  lemma ForgivingDecode(e: Base64.Engine, b: Bytes, s: string)
    requires DropBreaks(s) == Base64.Encode(e, b)
    ensures DecodeForgiving(s) == Some(b)
  {
    hide Base64.Encode, Base64.Decode, DecodeFirst, DropBreaks, Trim, IsSpace;
    EncodedHasNoSpace(e, b);
    TrimThenDrop(s);
    Base64.DecodeEncode(e, b);
    EveryEngine(e);
    DecodeFirstSome(ENGINES, Base64.Encode(e, b), e);
  }

  lemma {:induction false} TrimStartKeepsEnd(s: string)
    ensures forall c :: c in TrimStart(s) ==> c in s
  {
    if s != "" && IsSpace(s[0]) { TrimStartKeepsEnd(s[1..]); }
  }

  lemma EveryEngine(e: Base64.Engine)
    ensures e in ENGINES
  {
    var Engine(alphabet, padded) := e;
    assert e == ENGINES[(if alphabet.Standard? then 0 else 2) + (if padded then 0 else 1)];
  }
}
