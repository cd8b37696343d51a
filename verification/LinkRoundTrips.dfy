/** Printing share links (RFC 3986) and reading them back. */
module LinkRoundTrips {
  import opened Octets
  import opened Wrappers
  import opened Text
  import opened Links
  import Base64
  import Decimal
  import Forgiving
  import Utf8

  // ----- Percent encoding

  predicate Unreserved(b: int) {
    0x30 <= b <= 0x39 || 0x41 <= b <= 0x5A || 0x61 <= b <= 0x7A || b == 0x2D || b == 0x2E || b == 0x5F || b == 0x7E
  }

  function UpperHex(n: int): char
    requires 0 <= n < 16
  {
    if n < 10 then (0x30 + n) as char else (0x41 + n - 10) as char
  }

  function PctByte(b: byte): string {
    if Unreserved(b) then [b as char] else ['%', UpperHex(b / 16), UpperHex(b % 16)]
  }

  function Pct(b: Bytes): string {
    if b == [] then "" else PctByte(b[0]) + Pct(b[1..])
  }

  function PctEncode(s: string): string {
    Pct(Utf8.Encode(s))
  }

  /** Characters percent encoding can produce: no delimiter of a link, no white space. */
  predicate Safe(c: char) {
    Unreserved(c as int) || c == '%'
  }

  lemma {:induction false} PctSafe(b: Bytes)
    ensures forall c :: c in Pct(b) ==> Safe(c)
  {
    if b != [] { PctSafe(b[1..]); }
  }

  lemma UnquotePctByte(b: byte, rest: Bytes)
    ensures Unquote(Utf8.Encode(PctByte(b)) + rest) == [b] + Unquote(rest)
  {
    var p := PctByte(b);
    Utf8.EncodeAscii(p);
    var s := Utf8.Encode(p) + rest;
    assert s[|p|..] == rest;
    if !Unreserved(b) {
      assert s[0] == 0x25 && s[1] == UpperHex(b / 16) as int && s[2] == UpperHex(b % 16) as int;
      assert Quoted(s) && QuotedByte(s) == b;
    } else {
      assert s[0] == b;
    }
  }

  lemma {:induction false} UnquotePct(b: Bytes)
    ensures Unquote(Utf8.Encode(Pct(b))) == b
  {
    if b != [] {
      hide PctByte, Quoted;
      UnquotePct(b[1..]);
      Utf8.EncodeAppend(PctByte(b[0]), Pct(b[1..]));
      UnquotePctByte(b[0], Utf8.Encode(Pct(b[1..])));
      assert b == [b[0]] + b[1..];
    }
  }

  /** Percent decoding undoes percent encoding, for every text. */
  lemma DecodePctEncode(s: string)
    ensures UrlDecode(PctEncode(s)) == s
  {
    UnquotePct(Utf8.Encode(s));
    Utf8.LossyEncode(s);
  }

  /**
   A piece of text as percent decoding sees it: a character as it is, a plus for a space, a percent
   sign and two digits of either case, or a percent sign that no two digits follow.
   */
  datatype Unit = Literal(c: char) | Plus | Escaped(b: byte, lowHigh: bool, lowLow: bool) | Stray

  function HexChar(n: int, low: bool): char
    requires 0 <= n < 16
  {
    if low then HexDigit(n) else UpperHex(n)
  }

  function ShowUnit(u: Unit): string {
    match u
    case Literal(c) => [c]
    case Plus => "+"
    case Escaped(b, lowHigh, lowLow) => ['%', HexChar(b / 16, lowHigh), HexChar(b % 16, lowLow)]
    case Stray => "%"
  }

  function UnitBytes(u: Unit): Bytes {
    match u
    case Literal(c) => Utf8.EncodeChar(c)
    case Plus => [0x20]
    case Escaped(b, _, _) => [b]
    case Stray => [0x25]
  }

  function Show(us: seq<Unit>): string {
    if us == [] then "" else ShowUnit(us[0]) + Show(us[1..])
  }

  function Meant(us: seq<Unit>): Bytes {
    if us == [] then [] else UnitBytes(us[0]) + Meant(us[1..])
  }

  lemma {:induction false} UnquoteLiteral(b: Bytes, rest: Bytes)
    requires forall i :: 0 <= i < |b| ==> b[i] != 0x25 && b[i] != 0x2B
    ensures Unquote(b + rest) == b + Unquote(rest)
  {
    if b == [] {
      assert b + rest == rest;
    } else {
      UnquoteLiteral(b[1..], rest);
      assert (b + rest)[1..] == b[1..] + rest && (b + rest)[0] == b[0];
      assert [b[0]] + (b[1..] + Unquote(rest)) == b + Unquote(rest);
    }
  }

  lemma EncodeOne(c: char)
    ensures Utf8.Encode([c]) == Utf8.EncodeChar(c)
  {
    assert [c][1..] == "";
  }

  lemma LiteralBytes(c: char)
    requires c != '%' && c != '+'
    ensures forall i :: 0 <= i < |Utf8.EncodeChar(c)| ==> Utf8.EncodeChar(c)[i] != 0x25 && Utf8.EncodeChar(c)[i] != 0x2B
  {
  }

  lemma UnquoteEscaped(b: byte, lowHigh: bool, lowLow: bool, rest: Bytes)
    ensures Unquote(Utf8.Encode(ShowUnit(Escaped(b, lowHigh, lowLow))) + rest) == [b] + Unquote(rest)
  {
    var p := ShowUnit(Escaped(b, lowHigh, lowLow));
    Utf8.EncodeAscii(p);
    var s := Utf8.Encode(p) + rest;
    assert s[0] == 0x25 && s[1] == HexChar(b / 16, lowHigh) as int && s[2] == HexChar(b % 16, lowLow) as int;
    assert Quoted(s) && QuotedByte(s) == b && s[3..] == rest;
  }

  predicate HexPair(s: string) {
    |s| >= 2 && HexOf(s[0] as int).Some? && HexOf(s[1] as int).Some?
  }

  /** Each piece is what decoding takes it for. */
  predicate Spelt(us: seq<Unit>) {
    us != [] ==>
      && (us[0].Literal? ==> us[0].c != '%' && us[0].c != '+')
      && (us[0].Stray? ==> !HexPair(Show(us[1..])))
      && Spelt(us[1..])
  }

  lemma EncodeHead(s: string)
    requires s != ""
    ensures Utf8.Encode(s) == Utf8.EncodeChar(s[0]) + Utf8.Encode(s[1..])
    ensures HexOf(Utf8.Encode(s)[0]).Some? <==> HexOf(s[0] as int).Some?
    ensures HexOf(s[0] as int).Some? ==> Utf8.EncodeChar(s[0]) == [s[0] as int]
  {
  }

  /** Two digits follow in the bytes exactly when they do in the text. */
  lemma HexPairBytes(s: string)
    ensures var b := Utf8.Encode(s); HexPair(s) <==> |b| >= 2 && HexOf(b[0]).Some? && HexOf(b[1]).Some?
  {
    if s != "" {
      hide HexOf, Utf8.EncodeChar, Utf8.Encode;
      EncodeHead(s);
      if HexOf(s[0] as int).Some? && |s| >= 2 {
        EncodeHead(s[1..]);
        assert Utf8.Encode(s)[1] == Utf8.Encode(s[1..])[0];
      } else if |s| == 1 {
        OneChar(s);
      }
    }
  }

  lemma OneChar(s: string)
    requires |s| == 1
    ensures HexOf(s[0] as int).Some? ==> |Utf8.Encode(s)| == 1
  {
    EncodeHead(s);
    assert s[1..] == "";
  }

  lemma UnquoteStray(rest: string)
    requires !HexPair(rest)
    ensures Unquote(Utf8.Encode("%") + Utf8.Encode(rest)) == [0x25] + Unquote(Utf8.Encode(rest))
  {
    hide HexOf, HexPair;
    Utf8.EncodeAscii("%");
    HexPairBytes(rest);
    var b := Utf8.Encode("%") + Utf8.Encode(rest);
    assert b[1..] == Utf8.Encode(rest) && b[0] == 0x25;
    assert !Quoted(b);
  }

  lemma UnquoteUnit(u: Unit, rest: string)
    requires u.Literal? ==> u.c != '%' && u.c != '+'
    requires u.Stray? ==> !HexPair(rest)
    ensures Unquote(Utf8.Encode(ShowUnit(u)) + Utf8.Encode(rest)) == UnitBytes(u) + Unquote(Utf8.Encode(rest))
  {
    hide Utf8.EncodeChar, Unquote, Utf8.Encode, HexPair;
    match u
    case Literal(c) =>
      EncodeOne(c);
      LiteralBytes(c);
      UnquoteLiteral(Utf8.EncodeChar(c), Utf8.Encode(rest));
    case Plus => UnquotePlus(Utf8.Encode(rest));
    case Escaped(b, lowHigh, lowLow) => UnquoteEscaped(b, lowHigh, lowLow, Utf8.Encode(rest));
    case Stray => UnquoteStray(rest);
  }

  lemma UnquotePlus(rest: Bytes)
    ensures Unquote(Utf8.Encode("+") + rest) == [0x20] + Unquote(rest)
  {
    Utf8.EncodeAscii("+");
    assert (Utf8.Encode("+") + rest)[1..] == rest;
  }

  lemma {:induction false} AnySpellingUnquotes(us: seq<Unit>)
    requires Spelt(us)
    ensures Unquote(Utf8.Encode(Show(us))) == Meant(us)
  {
    if us != [] {
      hide ShowUnit, UnitBytes, Unquote, HexPair;
      AnySpellingUnquotes(us[1..]);
      Utf8.EncodeAppend(ShowUnit(us[0]), Show(us[1..]));
      UnquoteUnit(us[0], Show(us[1..]));
    } else {
      assert Unquote(Utf8.Encode("")) == [];
    }
  }

  /** However each character is written, decoding gives the text those bytes spell. */
  lemma AnySpellingDecodes(us: seq<Unit>, text: string)
    requires Spelt(us) && Meant(us) == Utf8.Encode(text)
    ensures UrlDecode(Show(us)) == text
  {
    hide Show, Meant, Utf8.Encode, Spelt;
    AnySpellingUnquotes(us);
    Utf8.LossyEncode(text);
  }

  /** The first piece of a text, and what follows it. */
  lemma FirstUnit(s: string) returns (u: Unit, rest: string)
    requires s != ""
    ensures s == ShowUnit(u) + rest && |rest| < |s|
    ensures (u.Literal? ==> u.c != '%' && u.c != '+') && (u.Stray? ==> !HexPair(rest))
  {
    rest := s[1..];
    if s[0] == '+' {
      u := Plus;
    } else if s[0] != '%' {
      u := Literal(s[0]);
    } else if HexPair(s[1..]) {
      var x, y := HexOf(s[1] as int).value, HexOf(s[2] as int).value;
      u, rest := Escaped(x * 16 + y, s[1] >= 'a', s[2] >= 'a'), s[3..];
      HexSpelling(s[1]);
      HexSpelling(s[2]);
      assert s == [s[0], s[1], s[2]] + s[3..];
    } else {
      u := Stray;
    }
  }

  lemma HexSpelling(c: char)
    requires HexOf(c as int).Some?
    ensures c == HexChar(HexOf(c as int).value, c >= 'a')
  {
  }

  /** Every text is made of such pieces, so its decoding is known: the bytes they mean, read as UTF-8 or replaced. */
  lemma {:induction false} EveryTextIsSpelt(s: string) returns (us: seq<Unit>)
    ensures Spelt(us) && Show(us) == s && UrlDecode(s) == Utf8.Lossy(Meant(us))
    decreases |s|
  {
    if s == "" {
      us := [];
    } else {
      hide ShowUnit, HexPair, Utf8.Lossy, Utf8.Encode, Unquote;
      var u, rest := FirstUnit(s);
      var tail := EveryTextIsSpelt(rest);
      us := [u] + tail;
      assert us[1..] == tail;
    }
    AnySpellingUnquotes(us);
  }

  // ----- Host and port

  /** No fragment mark, no bracket at either end. */
  predicate PlainHost(h: string) {
    '#' !in h && (h != "" ==> !IsBracket(h[0]) && !IsBracket(h[|h| - 1]))
  }

  /** A host a link with a query can carry: no delimiter that ends the authority. */
  predicate HostFits(h: string) {
    '?' !in h && PlainHost(h)
  }

  function PrintHostPort(host: string, bracketed: bool, port: nat): string {
    (if bracketed then "[" + host + "]" else host) + ":" + Decimal.Digits(port)
  }

  lemma TrimInnerHost(h: string)
    requires h != "" ==> !IsBracket(h[0]) && !IsBracket(h[|h| - 1])
    ensures TrimBracketsStart(h) == h && TrimBracketsEnd(h) == h
  {
  }

  lemma TrimOuterBrackets(h: string)
    requires h != "" ==> !IsBracket(h[0]) && !IsBracket(h[|h| - 1])
    ensures TrimBracketsEnd(TrimBracketsStart("[" + h + "]")) == h
  {
    hide IsBracket;
    var t, u := "[" + h + "]", h + "]";
    assert IsBracket('[') && IsBracket(']') by { BracketsAre(); }
    TrimInnerHost(h);
    assert t[0] == '[' && t[1..] == u;
    assert u[|u| - 1] == ']' && u[..|h|] == h;
    if h == "" {
      assert u == "]" && u[1..] == "";
    }
  }

  lemma BracketsAre()
    ensures IsBracket('[') && IsBracket(']')
  {
  }

  lemma HostPortReads(host: string, bracketed: bool, port: nat)
    requires host != "" ==> !IsBracket(host[0]) && !IsBracket(host[|host| - 1])
    requires port < 0x10000
    ensures ParseHostPort(PrintHostPort(host, bracketed, port)) == Ok((host, port))
  {
    hide TrimBracketsEnd, TrimBracketsStart, Decimal.ParseUnsigned, Decimal.Digits;
    var h := if bracketed then "[" + host + "]" else host;
    var d := Decimal.Digits(port);
    var s := h + ":" + d;
    Decimal.ParseUnsignedOfDigits(port, 0x10000);
    TrimOuterBrackets(host);
    TrimInnerHost(host);
    assert s[|s| - 1] == d[|d| - 1];
    assert TrimSlashes(s) == s;
    RSplitOnceAt(h, ':', d);
  }

  // ----- Query

  /** A parameter name, which links do not encode. */
  predicate NameFits(k: string) {
    '#' !in k && '&' !in k && '=' !in k
  }

  function PrintParam(p: (string, string)): string {
    p.0 + "=" + PctEncode(p.1)
  }

  function PrintParams(ps: Params): seq<string> {
    if ps == [] then [] else [PrintParam(ps[0])] + PrintParams(ps[1..])
  }

  function PrintQuery(ps: Params): string {
    if ps == [] then "" else "?" + JoinOn(PrintParams(ps), '&')
  }

  function PrintFragment(name: Option<string>): string {
    if name.None? then "" else "#" + PctEncode(name.value)
  }

  lemma ParamReads(p: (string, string))
    requires NameFits(p.0)
    ensures SplitOnce(PrintParam(p), '=') == Some((p.0, PctEncode(p.1)))
    ensures '&' !in PrintParam(p) && '#' !in PrintParam(p)
  {
    hide Utf8.Encode, Pct, SplitOnce;
    PctSafe(Utf8.Encode(p.1));
    SplitOnceAt(p.0, '=', PctEncode(p.1));
  }

  lemma {:induction false} ParamsPlain(ps: Params)
    requires forall i :: 0 <= i < |ps| ==> NameFits(ps[i].0)
    ensures |PrintParams(ps)| == |ps|
    ensures forall i :: 0 <= i < |ps| ==> '&' !in PrintParams(ps)[i] && '#' !in PrintParams(ps)[i]
  {
    hide PrintParam, NameFits;
    if ps != [] {
      ParamReads(ps[0]);
      ParamsPlain(ps[1..]);
      assert PrintParams(ps)[1..] == PrintParams(ps[1..]);
    }
  }

  lemma {:induction false} ParamsRead(ps: Params)
    requires forall i :: 0 <= i < |ps| ==> NameFits(ps[i].0)
    ensures ParamsOf(PrintParams(ps)) == ps
  {
    hide PrintParam, NameFits, SplitOnce, UrlDecode, PctEncode;
    if ps != [] {
      ParamReads(ps[0]);
      DecodePctEncode(ps[0].1);
      ParamsRead(ps[1..]);
      assert PrintParams(ps)[1..] == PrintParams(ps[1..]);
      assert ps == [ps[0]] + ps[1..];
    }
  }

  lemma {:induction false} JoinWithout(parts: seq<string>, sep: char, c: char)
    requires |parts| >= 1 && c != sep && forall i :: 0 <= i < |parts| ==> c !in parts[i]
    ensures c !in JoinOn(parts, sep)
  {
    if |parts| > 1 { JoinWithout(parts[1..], sep, c); }
  }

  lemma BeforeFragmentReads(s: string, name: Option<string>)
    requires '#' !in s
    ensures BeforeFragment(s + PrintFragment(name)) == s
  {
    hide PctEncode, SplitOnce;
    if name.Some? {
      SplitOnceAt(s, '#', PctEncode(name.value));
      assert s + ("#" + PctEncode(name.value)) == s + "#" + PctEncode(name.value);
    } else {
      assert s + "" == s;
      NothingToSplitAt(s, '#');
    }
  }

  lemma NothingToSplitAt(s: string, c: char)
    requires c !in s
    ensures SplitOnce(s, c).None?
  {
  }

  /** Splitting a printed link gives back its authority and all its parameters, in order. */
  lemma SplitQueryReads(authority: string, ps: Params, name: Option<string>)
    requires '?' !in authority && '#' !in authority && forall i :: 0 <= i < |ps| ==> NameFits(ps[i].0)
    ensures SplitQuery(authority + PrintQuery(ps) + PrintFragment(name)) == (authority, ps)
  {
    hide PrintFragment, SplitOn, JoinOn, SplitOnce, BeforeFragment, ParamsOf, PrintParams, NameFits;
    ParamsRead(ps);
    ParamsPlain(ps);
    var main := authority + PrintQuery(ps);
    if ps == [] {
      NothingToSplit(authority);
      assert main == authority;
    } else {
      var parts := PrintParams(ps);
      JoinWithout(parts, '&', '#');
      SplitJoin(parts, '&');
      SplitOnceAt(authority, '?', JoinOn(parts, '&'));
      assert main == authority + "?" + JoinOn(parts, '&');
    }
    BeforeFragmentReads(main, name);
  }

  lemma NothingToSplit(s: string)
    requires '?' !in s
    ensures SplitOnce(s, '?') == None
  {
  }

  // ----- A printed link has no white space at its ends

  predicate EndsTight(s: string) {
    s != "" && !IsSpace(s[|s| - 1])
  }

  lemma EndsTightAppend(s: string, t: string)
    requires (t == "" && EndsTight(s)) || EndsTight(t)
    ensures EndsTight(s + t)
  {
    assert t == "" ==> s + t == s;
  }

  lemma SafeNotSpace(s: string)
    requires forall c :: c in s ==> Safe(c)
    ensures s == "" || EndsTight(s)
  {
    if s != "" {
      assert s[|s| - 1] in s;
    }
  }

  lemma PctTight(s: string, mark: string)
    requires EndsTight(mark)
    ensures EndsTight(mark + PctEncode(s))
  {
    PctSafe(Utf8.Encode(s));
    SafeNotSpace(PctEncode(s));
    EndsTightAppend(mark, PctEncode(s));
  }

  lemma {:induction false} JoinTight(parts: seq<string>, c: char)
    requires |parts| >= 1 && EndsTight(parts[|parts| - 1])
    ensures EndsTight(JoinOn(parts, c))
  {
    if |parts| > 1 {
      JoinTight(parts[1..], c);
      EndsTightAppend(parts[0] + [c], JoinOn(parts[1..], c));
    }
  }

  lemma {:induction false} ParamsTight(ps: Params)
    requires ps != []
    ensures |PrintParams(ps)| >= 1 && EndsTight(PrintParams(ps)[|PrintParams(ps)| - 1])
  {
    hide PrintParam;
    if |ps| == 1 {
      ParamTight(ps[0]);
    } else {
      ParamsTight(ps[1..]);
    }
  }

  lemma ParamTight(p: (string, string))
    ensures EndsTight(PrintParam(p))
  {
    EndsTightAppend(p.0, "=");
    PctTight(p.1, p.0 + "=");
  }

  /** The part of a link after the user information. */
  function Tail(host: string, bracketed: bool, port: nat, ps: Params, name: Option<string>): string {
    PrintHostPort(host, bracketed, port) + PrintQuery(ps) + PrintFragment(name)
  }

  lemma HostPortTight(host: string, bracketed: bool, port: nat)
    ensures EndsTight(PrintHostPort(host, bracketed, port))
  {
    EndsTightAppend((if bracketed then "[" + host + "]" else host) + ":", Decimal.Digits(port));
  }

  lemma QueryTight(ps: Params)
    ensures PrintQuery(ps) == "" || EndsTight(PrintQuery(ps))
  {
    if ps != [] {
      ParamsTight(ps);
      JoinTight(PrintParams(ps), '&');
      EndsTightAppend("?", JoinOn(PrintParams(ps), '&'));
    }
  }

  lemma TailTight(host: string, bracketed: bool, port: nat, ps: Params, name: Option<string>)
    ensures EndsTight(Tail(host, bracketed, port, ps, name))
  {
    hide EndsTight, PrintHostPort, PrintQuery;
    HostPortTight(host, bracketed, port);
    QueryTight(ps);
    EndsTightAppend(PrintHostPort(host, bracketed, port), PrintQuery(ps));
    if name.Some? { FragmentTight(name.value); }
    EndsTightAppend(PrintHostPort(host, bracketed, port) + PrintQuery(ps), PrintFragment(name));
  }

  lemma FragmentTight(name: string)
    ensures EndsTight("#" + PctEncode(name))
  {
    PctTight(name, "#");
  }

  lemma LinkTrims(scheme: string, user: string, tail: string)
    requires scheme == VLESS || scheme == TROJAN || scheme == SS
    requires EndsTight(tail)
    ensures var link := scheme + (user + "@" + tail);
            && Trim(link) == link != ""
            && scheme <= link && link[|scheme|..] == user + "@" + tail
  {
    var link := scheme + (user + "@" + tail);
    assert link[0] == scheme[0] && link[|link| - 1] == tail[|tail| - 1];
    TrimOfTight(link);
  }

  // ----- vless and trojan

  function Optional(key: string, value: Option<string>): Params {
    if value.None? then [] else [(key, value.value)]
  }

  function VlessParams(e: Endpoint): Params {
    Optional("sni", e.sni) + Optional("pbk", e.publicKey) + Optional("sid", e.shortId) + Optional("path", e.path)
    + Optional("host", e.host)
  }

  function TrojanParams(e: Endpoint): Params {
    Optional("sni", e.sni) + Optional("path", e.path) + Optional("host", e.host)
  }

  /** Further parameters, such as the transport type, under names that mean nothing to the reader. */
  predicate Foreign(extra: Params) {
    forall i :: 0 <= i < |extra| ==> NameFits(extra[i].0) && extra[i].0 !in ["sni", "pbk", "sid", "path", "host"]
  }

  lemma {:induction false} QueryGetAppend(a: Params, b: Params, key: string)
    ensures QueryGet(a + b, key) == if QueryGet(a, key).Some? then QueryGet(a, key) else QueryGet(b, key)
  {
    if a == [] {
      assert a + b == b;
    } else {
      QueryGetAppend(a[1..], b, key);
      assert (a + b)[1..] == a[1..] + b;
    }
  }

  lemma {:induction false} QueryGetMissing(a: Params, key: string)
    requires forall i :: 0 <= i < |a| ==> a[i].0 != key
    ensures QueryGet(a, key) == None
  {
    if a != [] { QueryGetMissing(a[1..], key); }
  }

  lemma OptionalGet(key: string, value: Option<string>, other: string)
    ensures QueryGet(Optional(key, value), other) == if key == other then value else None
  {
  }

  lemma VlessParamsGet(e: Endpoint, extra: Params, key: string)
    requires Foreign(extra) && key in ["sni", "pbk", "sid", "path", "host"]
    ensures QueryGet(extra + VlessParams(e), key) ==
            if key == "sni" then e.sni else if key == "pbk" then e.publicKey else if key == "sid" then e.shortId
            else if key == "path" then e.path else e.host
  {
    hide QueryGet, Optional;
    var a, b, c, d, f := Optional("sni", e.sni), Optional("pbk", e.publicKey), Optional("sid", e.shortId),
                         Optional("path", e.path), Optional("host", e.host);
    QueryGetMissing(extra, key);
    QueryGetAppend(extra, VlessParams(e), key);
    QueryGetAppend(a + b + c + d, f, key);
    QueryGetAppend(a + b + c, d, key);
    QueryGetAppend(a + b, c, key);
    QueryGetAppend(a, b, key);
    OptionalGet("sni", e.sni, key);
    OptionalGet("pbk", e.publicKey, key);
    OptionalGet("sid", e.shortId, key);
    OptionalGet("path", e.path, key);
    OptionalGet("host", e.host, key);
  }

  lemma TrojanParamsGet(e: Endpoint, extra: Params, key: string)
    requires Foreign(extra) && key in ["sni", "path", "host"]
    ensures QueryGet(extra + TrojanParams(e), key)
            == if key == "sni" then e.sni else if key == "path" then e.path else e.host
  {
    hide QueryGet, Optional;
    var a, b, c := Optional("sni", e.sni), Optional("path", e.path), Optional("host", e.host);
    QueryGetMissing(extra, key);
    QueryGetAppend(extra, TrojanParams(e), key);
    QueryGetAppend(a + b, c, key);
    QueryGetAppend(a, b, key);
    OptionalGet("sni", e.sni, key);
    OptionalGet("path", e.path, key);
    OptionalGet("host", e.host, key);
  }

  lemma VlessNamesFit(e: Endpoint, extra: Params)
    requires Foreign(extra)
    ensures forall i :: 0 <= i < |extra + VlessParams(e)| ==> NameFits((extra + VlessParams(e))[i].0)
    ensures forall i :: 0 <= i < |extra + TrojanParams(e)| ==> NameFits((extra + TrojanParams(e))[i].0)
  {
    KnownNamesFit();
    hide NameFits;
  }

  lemma KnownNamesFit()
    ensures NameFits("sni") && NameFits("pbk") && NameFits("sid") && NameFits("path") && NameFits("host")
  {
  }

  function PrintVless(e: Endpoint, extra: Params, bracketed: bool, name: Option<string>): string {
    VLESS + (PctEncode(e.uuid) + "@" + Tail(e.address, bracketed, e.port, extra + VlessParams(e), name))
  }

  function PrintTrojan(e: Endpoint, extra: Params, bracketed: bool, name: Option<string>): string
    requires e.password.Some?
  {
    TROJAN + (PctEncode(e.password.value) + "@" + Tail(e.address, bracketed, e.port, extra + TrojanParams(e), name))
  }

  /** The fields a vless link carries; the others are as the reader sets them. */
  predicate IsVless(e: Endpoint) {
    e.tag == "vless" && e.password.None? && e.encryption.None? && e.port < 0x10000
  }

  predicate IsTrojan(e: Endpoint) {
    e.tag == "trojan" && e.password.Some? && e.uuid == "" && e.publicKey.None? && e.shortId.None? && e.encryption.None?
    && e.port < 0x10000
  }

  /** The authority and parameters of `user@host:port?query#name`. */
  lemma AuthorityReads(user: string, host: string, bracketed: bool, port: nat, ps: Params, name: Option<string>)
    requires HostFits(host) && port < 0x10000 && forall i :: 0 <= i < |ps| ==> NameFits(ps[i].0)
    ensures var hostPort := PrintHostPort(host, bracketed, port);
            && SplitQuery(PctEncode(user) + "@" + Tail(host, bracketed, port, ps, name))
               == (PctEncode(user) + "@" + hostPort, ps)
            && SplitOnce(PctEncode(user) + "@" + hostPort, '@') == Some((PctEncode(user), hostPort))
            && ParseHostPort(hostPort) == Ok((host, port))
  {
    hide PrintQuery, PrintFragment, Pct, NameFits, SplitQuery, SplitOnce, ParseHostPort, Utf8.Encode;
    var u, hostPort, q, f := PctEncode(user), PrintHostPort(host, bracketed, port), PrintQuery(ps), PrintFragment(name);
    PctSafe(Utf8.Encode(user));
    HostPortReads(host, bracketed, port);
    SplitOnceAt(u, '@', hostPort);
    SplitQueryReads(u + "@" + hostPort, ps, name);
    assert u + "@" + (hostPort + q + f) == u + "@" + hostPort + q + f;
  }

  /** Printing a vless endpoint and reading the link returns every field. */
  lemma VlessRoundTrip(e: Endpoint, extra: Params, bracketed: bool, name: Option<string>)
    requires IsVless(e) && HostFits(e.address) && Foreign(extra)
    ensures var link := PrintVless(e, extra, bracketed, name); ParseLink(link) == Ok(Profile("vless", e, link))
  {
    hide SplitQuery, SplitOnce, ParseHostPort, QueryGet, Tail, PctEncode, UrlDecode, Trim;
    hide HostFits, Foreign, VlessParams;
    var ps := extra + VlessParams(e);
    VlessNamesFit(e, extra);
    TailTight(e.address, bracketed, e.port, ps, name);
    LinkTrims(VLESS, PctEncode(e.uuid), Tail(e.address, bracketed, e.port, ps, name));
    AuthorityReads(e.uuid, e.address, bracketed, e.port, ps, name);
    DecodePctEncode(e.uuid);
    VlessParamsGet(e, extra, "sni");
    VlessParamsGet(e, extra, "pbk");
    VlessParamsGet(e, extra, "sid");
    VlessParamsGet(e, extra, "path");
    VlessParamsGet(e, extra, "host");
  }

  lemma TrojanRoundTrip(e: Endpoint, extra: Params, bracketed: bool, name: Option<string>)
    requires IsTrojan(e) && HostFits(e.address) && Foreign(extra)
    ensures var link := PrintTrojan(e, extra, bracketed, name); ParseLink(link) == Ok(Profile("trojan", e, link))
  {
    hide SplitQuery, SplitOnce, ParseHostPort, QueryGet, Tail, PctEncode, UrlDecode, Trim;
    hide HostFits, Foreign, TrojanParams;
    var ps := extra + TrojanParams(e);
    VlessNamesFit(e, extra);
    TailTight(e.address, bracketed, e.port, ps, name);
    LinkTrims(TROJAN, PctEncode(e.password.value), Tail(e.address, bracketed, e.port, ps, name));
    AuthorityReads(e.password.value, e.address, bracketed, e.port, ps, name);
    DecodePctEncode(e.password.value);
    TrojanParamsGet(e, extra, "sni");
    TrojanParamsGet(e, extra, "path");
    TrojanParamsGet(e, extra, "host");
    assert TROJAN[0] == 't' && VLESS[0] == 'v' && VMESS[0] == 'v';
  }

  // ----- Exactly which hosts survive

  lemma TrimmedBracketsFit(s: string)
    ensures var h := TrimBracketsEnd(TrimBracketsStart(s));
            (forall c :: c in h ==> c in s) && (h != "" ==> !IsBracket(h[0]) && !IsBracket(h[|h| - 1]))
  {
    TrimBracketsStartFits(s);
    TrimBracketsEndFits(TrimBracketsStart(s));
  }

  lemma {:induction false} TrimBracketsStartFits(s: string)
    ensures var h := TrimBracketsStart(s); (forall c :: c in h ==> c in s) && (h != "" ==> !IsBracket(h[0]))
  {
    if s != "" && IsBracket(s[0]) { TrimBracketsStartFits(s[1..]); }
  }

  lemma {:induction false} TrimBracketsEndFits(s: string)
    ensures var h := TrimBracketsEnd(s); h <= s && (h != "" ==> !IsBracket(h[|h| - 1]))
  {
    if s != "" && IsBracket(s[|s| - 1]) { TrimBracketsEndFits(s[..|s| - 1]); }
  }

  lemma {:induction false} TrimSlashesFits(s: string)
    ensures TrimSlashes(s) <= s
  {
    if s != "" && s[|s| - 1] == '/' { TrimSlashesFits(s[..|s| - 1]); }
  }

  /** A host that was read has no bracket at its ends and only characters of the text it was read from. */
  lemma ReadHostFits(s: string)
    requires ParseHostPort(s).Ok?
    ensures var h := ParseHostPort(s).value.0;
            (forall c :: c in h ==> c in s) && (h != "" ==> !IsBracket(h[0]) && !IsBracket(h[|h| - 1]))
  {
    hide TrimBracketsEnd, TrimBracketsStart, Decimal.ParseUnsigned;
    TrimSlashesFits(s);
    TrimmedBracketsFit(RSplitOnce(TrimSlashes(s), ':').value.0);
  }

  lemma ReadAuthorityFits(rest: string)
    ensures '?' !in SplitQuery(rest).0 && '#' !in SplitQuery(rest).0
  {
    hide ParamsOf;
  }

  /** Whatever vless or trojan link is accepted, the address read from it is one a link can carry. */
  lemma AcceptedHostFits(rest: string)
    ensures ParseVless(rest).Ok? ==> HostFits(ParseVless(rest).value.endpoint.address)
    ensures ParseTrojan(rest).Ok? ==> HostFits(ParseTrojan(rest).value.endpoint.address)
  {
    hide SplitQuery, ParseHostPort, UrlDecode, QueryGet;
    var authority := SplitQuery(rest).0;
    ReadAuthorityFits(rest);
    var parts := SplitOnce(authority, '@');
    if parts.Some? && ParseHostPort(parts.value.1).Ok? {
      ReadHostFits(parts.value.1);
    }
  }

  /** A vless endpoint survives its link exactly when its address is one a link can carry. */
  lemma VlessSurvivesExactly(e: Endpoint, extra: Params, bracketed: bool, name: Option<string>)
    requires IsVless(e) && Foreign(extra)
    ensures var r := ParseLink(PrintVless(e, extra, bracketed, name));
            (r.Ok? && r.value.endpoint == e) <==> HostFits(e.address)
  {
    hide Tail, PctEncode, Trim, ParseVless, HostFits;
    if HostFits(e.address) {
      VlessRoundTrip(e, extra, bracketed, name);
    } else {
      var tail := Tail(e.address, bracketed, e.port, extra + VlessParams(e), name);
      TailTight(e.address, bracketed, e.port, extra + VlessParams(e), name);
      LinkTrims(VLESS, PctEncode(e.uuid), tail);
      AcceptedHostFits(PctEncode(e.uuid) + "@" + tail);
    }
  }

  lemma TrojanSurvivesExactly(e: Endpoint, extra: Params, bracketed: bool, name: Option<string>)
    requires IsTrojan(e) && Foreign(extra)
    ensures var r := ParseLink(PrintTrojan(e, extra, bracketed, name));
            (r.Ok? && r.value.endpoint == e) <==> HostFits(e.address)
  {
    hide Tail, PctEncode, Trim, ParseTrojan, HostFits, ParseVless, ParseVmess, ParseSs;
    if HostFits(e.address) {
      TrojanRoundTrip(e, extra, bracketed, name);
    } else {
      var tail := Tail(e.address, bracketed, e.port, extra + TrojanParams(e), name);
      TailTight(e.address, bracketed, e.port, extra + TrojanParams(e), name);
      LinkTrims(TROJAN, PctEncode(e.password.value), tail);
      AcceptedHostFits(PctEncode(e.password.value) + "@" + tail);
      assert TROJAN[0] == 't' && VLESS[0] == 'v' && VMESS[0] == 'v';
    }
  }

  // ----- Shadowsocks in the form `base64(method:password)@host:port`

  function PrintSs(engine: Base64.Engine, e: Endpoint, bracketed: bool, name: Option<string>): string
    requires e.encryption.Some? && e.password.Some?
  {
    SS + (Base64.Encode(engine, Utf8.Encode(e.encryption.value + ":" + e.password.value)) + "@"
          + Tail(e.address, bracketed, e.port, [], name))
  }

  predicate IsSs(e: Endpoint) {
    e.tag == "ss" && e.encryption.Some? && e.password.Some? && e.uuid == "" && e.sni.None? && e.publicKey.None?
    && e.shortId.None? && e.path.None? && e.host.None? && e.port < 0x10000
  }

  /** What base64 made of the credentials decodes to them again. */
  lemma CredentialsRead(engine: Base64.Engine, cipher: string, password: string, hostPort: string)
    requires ':' !in cipher
    ensures var user := Base64.Encode(engine, Utf8.Encode(cipher + ":" + password));
            && '@' !in user && '#' !in user
            && SsParts(user + "@" + hostPort) == Ok((cipher, password, hostPort))
  {
    hide Base64.Encode, Forgiving.DecodeForgiving, SplitOnce, Utf8.Encode, Utf8.Lossy;
    var cred := cipher + ":" + password;
    var user := Base64.Encode(engine, Utf8.Encode(cred));
    Base64.EncodeCharacters(engine, Utf8.Encode(cred));
    SplitOnceAt(user, '@', hostPort);
    EncodedHasNoBreak(engine, Utf8.Encode(cred));
    Forgiving.ForgivingDecode(engine, Utf8.Encode(cred), user);
    Utf8.LossyEncode(cred);
    SplitOnceAt(cipher, ':', password);
  }

  lemma EncodedHasNoBreak(engine: Base64.Engine, b: Bytes)
    ensures Forgiving.DropBreaks(Base64.Encode(engine, b)) == Base64.Encode(engine, b)
  {
    hide Base64.Encode;
    Base64.EncodeCharacters(engine, b);
    NothingDropped(Base64.Encode(engine, b));
  }

  lemma {:induction false} NothingDropped(s: string)
    requires forall c :: c in s ==> !Forgiving.IsBreak(c)
    ensures Forgiving.DropBreaks(s) == s
  {
    if s != "" {
      NothingDropped(s[1..]);
      assert s == [s[0]] + s[1..];
    }
  }

  /** The host and port of a printed link follow its last at sign, fragment cut off. */
  lemma SsMainReads(user: string, host: string, bracketed: bool, port: nat, name: Option<string>)
    requires '#' !in user && '#' !in host
    ensures BeforeFragment(user + "@" + Tail(host, bracketed, port, [], name))
            == user + "@" + PrintHostPort(host, bracketed, port)
  {
    hide PrintFragment, BeforeFragment;
    var hostPort := PrintHostPort(host, bracketed, port);
    BeforeFragmentReads(user + "@" + hostPort, name);
    assert PrintQuery([]) == "";
    assert user + "@" + (hostPort + "" + PrintFragment(name)) == user + "@" + hostPort + PrintFragment(name);
  }

  lemma SsRoundTrip(engine: Base64.Engine, e: Endpoint, bracketed: bool, name: Option<string>)
    requires IsSs(e) && ':' !in e.encryption.value && PlainHost(e.address)
    ensures var link := PrintSs(engine, e, bracketed, name); ParseLink(link) == Ok(Profile("shadowsocks", e, link))
  {
    hide Base64.Encode, Tail, Trim, SsParts, ParseHostPort, PrintHostPort, BeforeFragment, Utf8.Encode;
    var user := Base64.Encode(engine, Utf8.Encode(e.encryption.value + ":" + e.password.value));
    TailTight(e.address, bracketed, e.port, [], name);
    LinkTrims(SS, user, Tail(e.address, bracketed, e.port, [], name));
    CredentialsRead(engine, e.encryption.value, e.password.value, PrintHostPort(e.address, bracketed, e.port));
    SsMainReads(user, e.address, bracketed, e.port, name);
    HostPortReads(e.address, bracketed, e.port);
    assert SS[0] == 's' && VLESS[0] == 'v' && VMESS[0] == 'v' && TROJAN[0] == 't';
  }

  /** Before the fragment of `user@tail` there is always a first at sign, and no fragment mark after it. */
  lemma SsHostPart(user: string, tail: string)
    requires '@' !in user && '#' !in user
    ensures var parts := SplitOnce(BeforeFragment(user + "@" + tail), '@');
            parts.Some? && parts.value.0 == user && '#' !in parts.value.1
  {
    hide SplitOnce;
    var all := user + "@" + tail;
    var front := BeforeFragment(tail);
    assert BeforeFragment(all) == user + "@" + front && '#' !in front by {
      match SplitOnce(tail, '#')
      case None => assert '#' !in all;
      case Some((a, b)) =>
        assert all == user + "@" + a + "#" + b;
        SplitOnceAt(user + "@" + a, '#', b);
    }
    SplitOnceAt(user, '@', front);
  }

  /** What can be read from a link of that form. */
  lemma AcceptedSsFits(user: string, tail: string)
    requires '@' !in user && '#' !in user
    ensures var r := ParseSs(user + "@" + tail);
            r.Ok? ==> PlainHost(r.value.endpoint.address)
                      && r.value.endpoint.encryption.Some? && ':' !in r.value.endpoint.encryption.value
  {
    hide BeforeFragment, ParseHostPort, Forgiving.DecodeForgiving, Utf8.Lossy;
    SsHostPart(user, tail);
    var parts := SplitOnce(BeforeFragment(user + "@" + tail), '@').value;
    if ParseHostPort(parts.1).Ok? { ReadHostFits(parts.1); }
  }

  /** A Shadowsocks endpoint survives its link exactly when its method has no colon and its address is plain. */
  lemma SsSurvivesExactly(engine: Base64.Engine, e: Endpoint, bracketed: bool, name: Option<string>)
    requires IsSs(e)
    ensures var r := ParseLink(PrintSs(engine, e, bracketed, name));
            (r.Ok? && r.value.endpoint == e) <==> ':' !in e.encryption.value && PlainHost(e.address)
  {
    hide Base64.Encode, Tail, Trim, PlainHost, Utf8.Encode, ParseSs, ParseVless, ParseVmess, ParseTrojan;
    if ':' !in e.encryption.value && PlainHost(e.address) {
      SsRoundTrip(engine, e, bracketed, name);
    } else {
      var cred := Utf8.Encode(e.encryption.value + ":" + e.password.value);
      var user, tail := Base64.Encode(engine, cred), Tail(e.address, bracketed, e.port, [], name);
      Base64.EncodeCharacters(engine, cred);
      TailTight(e.address, bracketed, e.port, [], name);
      LinkTrims(SS, user, tail);
      AcceptedSsFits(user, tail);
      assert SS[0] == 's' && VLESS[0] == 'v' && VMESS[0] == 'v' && TROJAN[0] == 't';
    }
  }

  // ----- Reading a link again

  lemma RawIsText(rest: string)
    ensures ParseVless(rest).Ok? ==> ParseVless(rest).value.raw == VLESS + rest
    ensures ParseTrojan(rest).Ok? ==> ParseTrojan(rest).value.raw == TROJAN + rest
  {
    hide SplitQuery, SplitOnce, ParseHostPort, UrlDecode, QueryGet;
  }

  lemma RawIsTextToo(rest: string)
    ensures ParseVmess(rest).Ok? ==> ParseVmess(rest).value.raw == VMESS + rest
    ensures ParseSs(rest).Ok? ==> ParseSs(rest).value.raw == SS + rest
  {
    hide SsParts, ParseHostPort, Forgiving.DecodeForgiving, VmessPort, TextMember;
  }

  /** The text a profile keeps is the trimmed link, and reading it again gives the same profile. */
  lemma RawReadsAgain(link: string)
    requires ParseLink(link).Ok?
    ensures ParseLink(link).value.raw == Trim(link) && ParseLink(ParseLink(link).value.raw) == ParseLink(link)
  {
    hide Trim, ParseVless, ParseVmess, ParseTrojan, ParseSs;
    TrimIdempotent(link);
    var s := Trim(link);
    forall scheme | scheme <= s
      ensures scheme + s[|scheme|..] == s
    {
    }
    if VLESS <= s {
      RawIsText(s[|VLESS|..]);
    } else if VMESS <= s {
      RawIsTextToo(s[|VMESS|..]);
    } else if TROJAN <= s {
      RawIsText(s[|TROJAN|..]);
    } else {
      RawIsTextToo(s[|SS|..]);
    }
  }
}
