/** Exporting parsed profiles as a subscription and importing it again. */
module Subscriptions {
  import opened Octets
  import opened Wrappers
  import opened Text
  import opened Links
  import Base64
  import Decimal
  import Forgiving
  import LinkRoundTrips
  import Utf8

  function Raws(ps: seq<Profile>): (r: seq<string>)
    ensures |r| == |ps|
    ensures forall i :: 0 <= i < |ps| ==> r[i] == ps[i].raw
  {
    seq(|ps|, i requires 0 <= i < |ps| => ps[i].raw)
  }

  function Oks(ps: seq<Profile>): (r: seq<Result<Profile, ParseError>>)
    ensures |r| == |ps|
    ensures forall i :: 0 <= i < |ps| ==> r[i] == Ok(ps[i])
  {
    seq(|ps|, i requires 0 <= i < |ps| => Ok(ps[i]))
  }

  /** One link a line. */
  function Export(ps: seq<Profile>): string
    requires ps != []
  {
    JoinOn(Raws(ps), '\n')
  }

  /** Results of `parse_link`. */
  ghost predicate AllParsed(ps: seq<Profile>) {
    forall i :: 0 <= i < |ps| ==> exists link :: ParseLink(link) == Ok(ps[i])
  }

  lemma ParsedShape(p: Profile, link: string)
    requires ParseLink(link) == Ok(p)
    ensures ParseLink(p.raw) == Ok(p)
    ensures Tight(p.raw) && p.raw != "" && Contains(p.raw, "://")
  {
    hide ParseVless, ParseVmess, ParseTrojan, ParseSs, Contains, Tight;
    LinkRoundTrips.RawReadsAgain(link);
    TrimIsTight(link);
    var s := Trim(link);
    if VLESS <= s {
      SchemeContained(s, "vless");
    } else if VMESS <= s {
      SchemeContained(s, "vmess");
    } else if TROJAN <= s {
      SchemeContained(s, "trojan");
    } else {
      SchemeContained(s, "ss");
    }
  }

  lemma SchemeContained(s: string, scheme: string)
    requires scheme + "://" <= s
    ensures Contains(s, "://")
  {
    ContainsAt(scheme, "://", s[|scheme| + 3..]);
    assert s == scheme + "://" + s[|scheme| + 3..];
  }

  /** What every parsed profile's text is like. */
  ghost predicate Linklike(s: string) {
    Tight(s) && s != "" && Contains(s, "://")
  }

  lemma {:induction false} JoinShape(raws: seq<string>)
    requires raws != [] && forall i :: 0 <= i < |raws| ==> Linklike(raws[i])
    ensures Linklike(JoinOn(raws, '\n'))
  {
    if |raws| > 1 {
      hide Contains, IsSpace;
      var t, rest := JoinOn(raws, '\n'), JoinOn(raws[1..], '\n');
      JoinShape(raws[1..]);
      ContainsMore(raws[0], "://", "\n" + rest);
      assert t == raws[0] + ("\n" + rest);
      assert t[0] == raws[0][0] && t[|t| - 1] == rest[|rest| - 1];
    }
  }

  lemma {:induction false} ContainsMore(s: string, p: string, t: string)
    requires Contains(s, p)
    ensures Contains(s + t, p)
  {
    if !(p <= s) {
      ContainsMore(s[1..], p, t);
      assert (s + t)[1..] == s[1..] + t;
    }
  }

  lemma {:induction false} LinesOfJoin(raws: seq<string>)
    requires raws != []
    requires forall i :: 0 <= i < |raws| ==> Linklike(raws[i]) && '\n' !in raws[i]
    ensures Lines(JoinOn(raws, '\n')) == raws
  {
    hide Contains;
    if |raws| == 1 {
      assert Find(raws[0], '\n') == |raws[0]|;
    } else {
      LinesOfJoin(raws[1..]);
      LinesOfFront(raws[0], JoinOn(raws[1..], '\n'));
      assert raws == [raws[0]] + raws[1..];
    }
  }

  lemma {:induction false} LinesParse(ps: seq<Profile>)
    requires forall i :: 0 <= i < |ps| ==> Linklike(ps[i].raw) && ParseLink(ps[i].raw) == Ok(ps[i])
    ensures ParseLines(Raws(ps)) == Oks(ps)
  {
    hide ParseLink, Contains;
    if ps != [] {
      LinesParse(ps[1..]);
      TrimOfTight(ps[0].raw);
      assert Raws(ps)[1..] == Raws(ps[1..]) && Oks(ps) == [Ok(ps[0])] + Oks(ps[1..]);
    }
  }

  lemma AllParsedShape(ps: seq<Profile>)
    requires AllParsed(ps)
    ensures forall i :: 0 <= i < |ps| ==> Linklike(ps[i].raw) && ParseLink(ps[i].raw) == Ok(ps[i])
  {
    hide ParseLink, Contains, Tight;
    forall i | 0 <= i < |ps|
      ensures Linklike(ps[i].raw) && ParseLink(ps[i].raw) == Ok(ps[i])
    {
      var link :| ParseLink(link) == Ok(ps[i]);
      ParsedShape(ps[i], link);
    }
  }

  /** Reading an exported list: its lines, as they stand. */
  lemma ImportReadsLines(ps: seq<Profile>)
    requires ps != [] && AllParsed(ps)
    ensures Export(ps) != "" && ParseSubscription(Export(ps)) == ParseLines(Lines(Export(ps)))
  {
    hide ParseLink, Lines, ParseLines, Contains;
    AllParsedShape(ps);
    JoinShape(Raws(ps));
    TrimOfTight(Export(ps));
  }

  // ----- Exactly when the import gives the list back

  /** The number of lines that are parsed. */
  function Inked(lines: seq<string>): nat {
    if lines == [] then 0 else (if Blank(lines[0]) then 0 else 1) + Inked(lines[1..])
  }

  lemma {:induction false} ParsedCount(lines: seq<string>)
    ensures |ParseLines(lines)| == Inked(lines)
  {
    hide ParseLink, Trim;
    if lines != [] { ParsedCount(lines[1..]); }
  }

  lemma BlankStripCr(s: string)
    ensures Blank(StripCr(s)) == Blank(s)
  {
    hide Blank;
    BlankIsAllSpace(s);
    BlankIsAllSpace(StripCr(s));
    if StripCr(s) != s {
      assert s == StripCr(s) + ['\r'];
    }
  }

  /** A line break splits the count. */
  lemma {:induction false} InkedSplits(a: string, b: string)
    ensures Inked(Lines(a + "\n" + b)) == Inked(Lines(a)) + Inked(Lines(b))
    decreases |a|
  {
    hide Blank, Lines, IsSpace;
    match SplitOnce(a, '\n')
    case None =>
      LinesOfFront(a, b);
      BlankStripCr(a);
      InkedWhole(a);
      assert ([StripCr(a)] + Lines(b))[1..] == Lines(b);
    case Some((x, y)) =>
      LinesOfFront(x, y);
      LinesOfFront(x, y + "\n" + b);
      assert a + "\n" + b == x + "\n" + (y + "\n" + b);
      InkedSplits(y, b);
      assert ([StripCr(x)] + Lines(y))[1..] == Lines(y);
      assert ([StripCr(x)] + Lines(y + "\n" + b))[1..] == Lines(y + "\n" + b);
  }

  lemma InkedWhole(a: string)
    requires '\n' !in a
    ensures Inked(Lines(a)) == if Blank(a) then 0 else 1
  {
    assert Find(a, '\n') == |a|;
    if a != "" {
      assert Lines(a) == [a] && [a][1..] == [];
    }
  }

  lemma {:induction false} InkCounts(s: string)
    requires s != "" && !IsSpace(s[|s| - 1])
    ensures Inked(Lines(s)) >= 1
    decreases |s|
  {
    hide Blank, Lines;
    match SplitOnce(s, '\n')
    case None =>
      BlankIsAllSpace(s);
      InkedWhole(s);
    case Some((x, y)) =>
      assert s[|s| - 1] == y[|y| - 1];
      InkCounts(y);
      InkedSplits(x, y);
  }

  lemma BrokenLinkCounts(s: string)
    requires Linklike(s)
    ensures Inked(Lines(s)) >= 1
    ensures '\n' in s ==> Inked(Lines(s)) >= 2
  {
    hide Blank, Lines, Contains;
    InkCounts(s);
    match SplitOnce(s, '\n')
    case None =>
    case Some((x, y)) =>
      assert x != "" && x[0] == s[0];
      assert y != "" && y[|y| - 1] == s[|s| - 1];
      BlankIsAllSpace(x);
      InkedWhole(x);
      InkCounts(y);
      InkedSplits(x, y);
  }

  lemma {:induction false} BrokenJoinCounts(raws: seq<string>)
    requires raws != [] && forall i :: 0 <= i < |raws| ==> Linklike(raws[i])
    ensures Inked(Lines(JoinOn(raws, '\n'))) >= |raws|
    ensures (exists i :: 0 <= i < |raws| && '\n' in raws[i]) ==> Inked(Lines(JoinOn(raws, '\n'))) > |raws|
  {
    hide Linklike, Lines, Inked;
    BrokenLinkCounts(raws[0]);
    if |raws| > 1 {
      var rest := raws[1..];
      BrokenJoinCounts(rest);
      InkedSplits(raws[0], JoinOn(rest, '\n'));
      forall i | 0 < i < |raws| && '\n' in raws[i]
        ensures Inked(Lines(JoinOn(rest, '\n'))) > |rest|
      {
        assert '\n' in rest[i - 1];
      }
    }
  }

  /** A line break inside a link is all that the export cannot carry. */
  lemma ImportExactly(ps: seq<Profile>)
    requires ps != [] && AllParsed(ps)
    ensures ParseSubscription(Export(ps)) == Oks(ps) <==> forall i :: 0 <= i < |ps| ==> '\n' !in ps[i].raw
  {
    hide ParseLink, Lines, ParseLines, Contains, Tight, Inked;
    AllParsedShape(ps);
    ImportReadsLines(ps);
    if i :| 0 <= i < |ps| && '\n' in ps[i].raw {
      assert '\n' in Raws(ps)[i];
      BrokenJoinCounts(Raws(ps));
      ParsedCount(Lines(Export(ps)));
    } else {
      LinesOfJoin(Raws(ps));
      LinesParse(ps);
    }
  }

  /** A link may hold one: no part of a link excludes it, the host for instance does not. */
  function Broken(): Endpoint {
    Endpoint("vless", "a\nb", 443, "", None, None, None, None, None, None, None)
  }

  const BROKEN_LINK := "vless://@a\nb:443"

  lemma BrokenLinkParses()
    ensures ParseLink(BROKEN_LINK) == Ok(Profile("vless", Broken(), BROKEN_LINK))
    ensures '\n' in BROKEN_LINK && '#' !in BROKEN_LINK
  {
    hide ParseLink, LinkRoundTrips.PrintVless, LinkRoundTrips.HostFits, LinkRoundTrips.Foreign, VLESS;
    BrokenHostFits();
    BrokenText();
    LinkRoundTrips.VlessRoundTrip(Broken(), [], false, None);
    assert BROKEN_LINK[10] == '\n';
  }

  /** So there is a parsed profile whose export is not read back. */
  lemma BrokenLinkIsLost()
    ensures var p := Profile("vless", Broken(), BROKEN_LINK);
            AllParsed([p]) && ParseSubscription(Export([p])) != Oks([p])
  {
    hide ParseLink, ParseSubscription, Export, Oks;
    var p := Profile("vless", Broken(), BROKEN_LINK);
    BrokenLinkParses();
    assert [p][0] == p && ParseLink(BROKEN_LINK) == Ok([p][0]);
    ImportExactly([p]);
    assert '\n' in [p][0].raw;
  }

  lemma BrokenHostFits()
    ensures LinkRoundTrips.HostFits("a\nb") && LinkRoundTrips.Foreign([])
  {
  }

  lemma BrokenParts()
    ensures LinkRoundTrips.VlessParams(Broken()) == [] && LinkRoundTrips.PctEncode("") == ""
  {
    assert Utf8.Encode("") == [];
  }

  lemma BrokenPort()
    ensures Decimal.Digits(443) == "443"
  {
    assert Decimal.Digits(4) == "4" && Decimal.Digits(44) == "44";
  }

  lemma BrokenText()
    ensures LinkRoundTrips.PrintVless(Broken(), [], false, None) == BROKEN_LINK
  {
    hide LinkRoundTrips.VlessParams, LinkRoundTrips.PctEncode, Decimal.Digits;
    BrokenParts();
    BrokenPort();
    assert LinkRoundTrips.PrintQuery([]) == "" && LinkRoundTrips.PrintFragment(None) == "";
  }

  // ----- The same list in base64

  lemma {:induction false} TrimStartWithin(s: string, c: char)
    requires c in TrimStart(s)
    ensures c in s
  {
    if s != "" && IsSpace(s[0]) { TrimStartWithin(s[1..], c); }
  }

  lemma TrimWithin(s: string, c: char)
    requires c in Trim(s)
    ensures c in s
  {
    TrimEndKeepsFront(TrimStart(s));
    TrimStartWithin(s, c);
  }

  lemma EncodedHasNoScheme(e: Base64.Engine, b: Bytes, s: string)
    requires Forgiving.DropBreaks(s) == Base64.Encode(e, b)
    ensures !Contains(Trim(s), "://")
  {
    hide Base64.Encode, Forgiving.DropBreaks, Trim;
    if Contains(Trim(s), "://") {
      ContainsFirst(Trim(s), "://");
      TrimWithin(s, ':');
      Forgiving.DropBreaksKeeps(s);
      Base64.EncodeCharacters(e, b);
    }
  }

  lemma EncodedNotBlank(e: Base64.Engine, b: Bytes, s: string)
    requires b != [] && Forgiving.DropBreaks(s) == Base64.Encode(e, b)
    ensures Trim(s) != ""
  {
    hide Base64.Encode, Base64.DecodeBody, Trim;
    Base64.DecodeEncode(e, b);
    Forgiving.EncodedHasNoSpace(e, b);
    Forgiving.TrimThenDrop(s);
    EmptyBody(e.alphabet);
  }

  lemma EmptyBody(a: Base64.Alphabet)
    ensures Base64.DecodeBody(a, "") == Some([])
  {
  }

  /** Any of the four encodings of an exported list, broken into lines anyhow, reads as the list itself does. */
  lemma EncodedImport(e: Base64.Engine, ps: seq<Profile>, s: string)
    requires ps != [] && AllParsed(ps)
    requires Forgiving.DropBreaks(s) == Base64.Encode(e, Utf8.Encode(Export(ps)))
    ensures ParseSubscription(s) == ParseSubscription(Export(ps))
  {
    hide ParseLink, Lines, ParseLines, Contains, Tight, Trim, Export, AllParsed;
    hide Base64.Encode, Forgiving.DropBreaks, Forgiving.DecodeFirst, Utf8.Encode, Utf8.Lossy;
    ImportReadsLines(ps);
    var text := Export(ps);
    var b := Utf8.Encode(text);
    EncodedHasNoScheme(e, b, s);
    EncodedNotBlank(e, b, s);
    TrimIdempotent(s);
    Forgiving.ForgivingDecode(e, b, s);
    Utf8.LossyEncode(text);
  }
}
