/** The remaining forms of share links: vmess, Shadowsocks all in base64, and what is refused. */
module LinkForms {
  import opened Octets
  import opened Wrappers
  import opened Text
  import opened Links
  import Base64
  import Canonical
  import Decimal
  import Forgiving
  import Json
  import LinkRoundTrips
  import Utf8
  import Words

  // ----- Vmess: a JSON object in base64

  function OrNull(value: Option<string>): Json.Json {
    if value.Some? then Json.Str(value.value) else Json.Null
  }

  function VmessFields(e: Endpoint, port: Json.Json): seq<Json.Field> {
    [ Json.Field("add", Json.Str(e.address)), Json.Field("port", port), Json.Field("id", Json.Str(e.uuid)),
      Json.Field("sni", OrNull(e.sni)), Json.Field("path", OrNull(e.path)), Json.Field("host", OrNull(e.host)),
      Json.Field("scy", OrNull(e.encryption)) ]
  }

  function PrintVmess(engine: Base64.Engine, e: Endpoint, port: Json.Json): string {
    VMESS + Base64.Encode(engine, Utf8.Encode(Json.Print(Json.Obj(VmessFields(e, port)))))
  }

  predicate IsVmess(e: Endpoint) {
    e.tag == "vmess" && e.publicKey.None? && e.shortId.None? && e.password.None? && e.port < 0x10000
  }

  lemma VmessProper(e: Endpoint, port: Json.Json)
    requires Canonical.Proper(port)
    ensures Canonical.Proper(Json.Obj(VmessFields(e, port)))
  {
    var f := VmessFields(e, port);
    assert |f[0].key| == 3 && |f[1].key| == 4 && |f[2].key| == 2 && |f[3].key| == 3;
    assert |f[4].key| == 4 && |f[5].key| == 4 && |f[6].key| == 3;
    assert f[0].key[0] == 'a' && f[3].key[1] == 'n' && f[6].key[1] == 'c' && f[6].key[0] == 's';
    assert f[1].key[1] == 'o' && f[4].key[1] == 'a' && f[4].key[0] == 'p' && f[5].key[0] == 'h';
  }

  lemma {:induction false} MemberAt(fields: seq<Json.Field>, i: nat)
    requires Canonical.DistinctKeys(fields) && i < |fields|
    ensures MemberOf(fields, fields[i].key) == Some(fields[i].value)
  {
    if i > 0 {
      MemberAt(fields[1..], i - 1);
    }
  }

  lemma TextAt(fields: seq<Json.Field>, i: nat, key: string, value: Option<string>)
    requires Canonical.DistinctKeys(fields) && i < |fields| && fields[i] == Json.Field(key, OrNull(value))
    ensures TextMember(Json.Obj(fields), key) == value
  {
    hide MemberOf;
    MemberAt(fields, i);
  }

  lemma VmessMembers(e: Endpoint, port: Json.Json)
    requires Canonical.Proper(port)
    ensures var v := Json.Obj(VmessFields(e, port));
            && TextMember(v, "add") == Some(e.address) && Member(v, "port") == Some(port)
            && TextMember(v, "id") == Some(e.uuid)
            && TextMember(v, "sni") == e.sni && TextMember(v, "path") == e.path && TextMember(v, "host") == e.host
            && TextMember(v, "scy") == e.encryption
  {
    hide MemberOf, TextMember;
    var f := VmessFields(e, port);
    assert Canonical.DistinctKeys(f) by { VmessProper(e, port); }
    TextAt(f, 0, "add", Some(e.address));
    assert Member(Json.Obj(f), "port") == Some(port) by { MemberAt(f, 1); }
    TextAt(f, 2, "id", Some(e.uuid));
    TextAt(f, 3, "sni", e.sni);
    TextAt(f, 4, "path", e.path);
    TextAt(f, 5, "host", e.host);
    TextAt(f, 6, "scy", e.encryption);
  }

  lemma VmessTrims(engine: Base64.Engine, b: Bytes)
    ensures var link := VMESS + Base64.Encode(engine, b);
            Trim(link) == link && link[|VMESS|..] == Base64.Encode(engine, b)
  {
    hide Base64.Encode;
    var link := VMESS + Base64.Encode(engine, b);
    Forgiving.EncodedHasNoSpace(engine, b);
    assert link[|link| - 1] == '/' || link[|link| - 1] in Base64.Encode(engine, b);
    TrimOfTight(link);
  }

  /** The value inside a vmess link. */
  lemma VmessValue(engine: Base64.Engine, v: Json.Json)
    requires Canonical.Proper(v)
    ensures var body := Base64.Encode(engine, Utf8.Encode(Json.Print(v)));
            var bytes := Forgiving.DecodeForgiving(body);
            && bytes.Some? && Json.Parse(Utf8.Lossy(bytes.value)) == Some(v) && Canonical.ToValue(v) == v
  {
    hide Base64.Encode, Utf8.Encode, Utf8.Lossy, Forgiving.DecodeForgiving, Json.Print, Json.Parse;
    hide Canonical.Proper, Canonical.ToValue;
    var text := Json.Print(v);
    LinkRoundTrips.EncodedHasNoBreak(engine, Utf8.Encode(text));
    Forgiving.ForgivingDecode(engine, Utf8.Encode(text), Base64.Encode(engine, Utf8.Encode(text)));
    Utf8.LossyEncode(text);
    Json.ParsePrint(v);
    Canonical.ToValueOfProper(v);
  }

  /** What a vmess link with any port member reads as. */
  lemma VmessReads(engine: Base64.Engine, e: Endpoint, port: Json.Json)
    requires IsVmess(e) && Canonical.Proper(port)
    ensures var link := PrintVmess(engine, e, port);
            var read := VmessPort(Json.Obj([Json.Field("port", port)]));
            ParseLink(link) == if read.None? then Err(Malformed("vmess port"))
                               else Ok(Profile("vmess", e.(port := read.value), link))
  {
    hide Base64.Encode, Trim, Utf8.Encode, Utf8.Lossy, Forgiving.DecodeForgiving, Json.Print, Json.Parse, VmessFields;
    hide Canonical.Proper, Canonical.ToValue, Member;
    var v := Json.Obj(VmessFields(e, port));
    VmessTrims(engine, Utf8.Encode(Json.Print(v)));
    VmessProper(e, port);
    VmessValue(engine, v);
    VmessMembers(e, port);
    OnlyPort(port);
    assert VLESS[1] == 'l' && VMESS[1] == 'm';
  }

  lemma OnlyPort(port: Json.Json)
    ensures Member(Json.Obj([Json.Field("port", port)]), "port") == Some(port)
  {
  }

  function PortMember(n: nat, asText: bool): Json.Json
    requires n < Words.U64_END
  {
    if asText then Json.Str(Decimal.Digits(n)) else Json.Num(n)
  }

  /** A port written as a number or as text is read alike, cut to 16 bits. */
  lemma VmessPortReads(engine: Base64.Engine, e: Endpoint, n: nat, asText: bool)
    requires IsVmess(e) && n < Words.U64_END && e.port == n % 0x10000
    ensures var link := PrintVmess(engine, e, PortMember(n, asText)); ParseLink(link) == Ok(Profile("vmess", e, link))
  {
    hide PrintVmess, ParseLink, Member, Decimal.Digits, Decimal.ParseUnsigned;
    var port := PortMember(n, asText);
    OnlyPort(port);
    Decimal.ParseUnsignedOfDigits(n, Words.U64_END);
    VmessReads(engine, e, port);
    assert e.(port := n % 0x10000) == e;
  }

  /** So every vmess endpoint survives, whichever way its port is written. */
  lemma VmessRoundTrip(engine: Base64.Engine, e: Endpoint, asText: bool)
    requires IsVmess(e)
    ensures var link := PrintVmess(engine, e, PortMember(e.port, asText));
            ParseLink(link) == Ok(Profile("vmess", e, link))
  {
    hide PrintVmess, ParseLink, PortMember;
    VmessPortReads(engine, e, e.port, asText);
  }

  /** A negative port, one that is no number, and text that is no number are refused. */
  lemma VmessPortRefused(engine: Base64.Engine, e: Endpoint, port: Json.Json)
    requires IsVmess(e) && Canonical.Proper(port)
    requires port.Num? ==> port.n < 0
    requires port.Str? ==> Decimal.ParseUnsigned(port.s, Words.U64_END).None?
    ensures ParseLink(PrintVmess(engine, e, port)) == Err(Malformed("vmess port"))
  {
    hide PrintVmess, ParseLink, Member, Decimal.ParseUnsigned;
    OnlyPort(port);
    VmessReads(engine, e, port);
  }

  // ----- Shadowsocks in the form `base64(method:password@host:port)`

  function SsText(e: Endpoint, bracketed: bool): string
    requires e.encryption.Some? && e.password.Some?
  {
    e.encryption.value + ":" + e.password.value + "@" + LinkRoundTrips.PrintHostPort(e.address, bracketed, e.port)
  }

  function PrintSsWhole(engine: Base64.Engine, e: Endpoint, bracketed: bool, name: Option<string>): string
    requires e.encryption.Some? && e.password.Some?
  {
    SS + (Base64.Encode(engine, Utf8.Encode(SsText(e, bracketed))) + LinkRoundTrips.PrintFragment(name))
  }

  predicate Unbracketed(h: string) {
    h != "" ==> !IsBracket(h[0]) && !IsBracket(h[|h| - 1])
  }

  lemma EncodedPlain(engine: Base64.Engine, b: Bytes)
    requires b != []
    ensures var s := Base64.Encode(engine, b);
            s != "" && '@' !in s && '#' !in s && !IsSpace(s[|s| - 1]) && Forgiving.DecodeForgiving(s) == Some(b)
  {
    hide Base64.Encode, Forgiving.DecodeForgiving, IsSpace;
    var s := Base64.Encode(engine, b);
    Base64.EncodeCharacters(engine, b);
    Forgiving.EncodedHasNoSpace(engine, b);
    LinkRoundTrips.EncodedHasNoBreak(engine, b);
    Forgiving.ForgivingDecode(engine, b, s);
    EncodeNotEmpty(engine, b);
    assert s[|s| - 1] in s;
  }

  lemma EncodeNotEmpty(engine: Base64.Engine, b: Bytes)
    requires b != []
    ensures Base64.Encode(engine, b) != ""
  {
    Base64.DecodeEncodeBody(engine.alphabet, b);
  }

  lemma WholeTrims(text: string, name: Option<string>)
    requires text != "" && !IsSpace(text[|text| - 1])
    ensures var link := SS + (text + LinkRoundTrips.PrintFragment(name));
            Trim(link) == link && SS <= link && link[|SS|..] == text + LinkRoundTrips.PrintFragment(name)
  {
    hide LinkRoundTrips.PctEncode;
    var link := SS + (text + LinkRoundTrips.PrintFragment(name));
    if name.Some? { LinkRoundTrips.FragmentTight(name.value); }
    assert link[0] == 's';
    TrimOfTight(link);
  }

  /** The text in base64 is what is split. */
  lemma WholeReads(engine: Base64.Engine, text: string, name: Option<string>)
    requires text != ""
    ensures var rest := Base64.Encode(engine, Utf8.Encode(text)) + LinkRoundTrips.PrintFragment(name);
            SsParts(BeforeFragment(rest))
            == match SplitOnce(text, '@') {
                case None => Err(Malformed("ss missing @"))
                case Some((cred, hostPort)) => SsCredentials(cred, hostPort)
              }
  {
    hide Base64.Encode, Forgiving.DecodeForgiving, Utf8.Encode, Utf8.Lossy, BeforeFragment;
    hide LinkRoundTrips.PrintFragment;
    EncodedPlain(engine, Utf8.Encode(text));
    LinkRoundTrips.BeforeFragmentReads(Base64.Encode(engine, Utf8.Encode(text)), name);
    Utf8.LossyEncode(text);
  }

  /** Such a link is read by the parts of its text. */
  lemma WholeLinkReads(engine: Base64.Engine, text: string, name: Option<string>)
    requires text != ""
    ensures var rest := Base64.Encode(engine, Utf8.Encode(text)) + LinkRoundTrips.PrintFragment(name);
            ParseLink(SS + rest) == ParseSs(rest)
  {
    hide Base64.Encode, Utf8.Encode, ParseSs, ParseVless, ParseVmess, ParseTrojan, LinkRoundTrips.PrintFragment, Trim;
    EncodedPlain(engine, Utf8.Encode(text));
    WholeTrims(Base64.Encode(engine, Utf8.Encode(text)), name);
    assert SS[0] == 's' && VLESS[0] == 'v' && VMESS[0] == 'v' && TROJAN[0] == 't';
  }

  lemma SsTextSplits(e: Endpoint, bracketed: bool)
    requires LinkRoundTrips.IsSs(e) && '@' !in e.encryption.value && '@' !in e.password.value
    requires ':' !in e.encryption.value
    ensures var hostPort := LinkRoundTrips.PrintHostPort(e.address, bracketed, e.port);
            && SplitOnce(SsText(e, bracketed), '@') == Some((e.encryption.value + ":" + e.password.value, hostPort))
            && SsCredentials(e.encryption.value + ":" + e.password.value, hostPort)
               == Ok((e.encryption.value, e.password.value, hostPort))
  {
    hide SplitOnce, LinkRoundTrips.PrintHostPort;
    var cred := e.encryption.value + ":" + e.password.value;
    var hostPort := LinkRoundTrips.PrintHostPort(e.address, bracketed, e.port);
    SplitOnceAt(cred, '@', hostPort);
    SplitOnceAt(e.encryption.value, ':', e.password.value);
  }

  /** What can be read from text of that form. */
  lemma CredentialsPlain(cred: string, hostPort: string)
    requires '@' !in cred
    ensures var r := SsCredentials(cred, hostPort);
            r.Ok? ==> '@' !in r.value.0 && ':' !in r.value.0 && '@' !in r.value.1 && r.value.2 == hostPort
  {
    hide SplitOnce;
    var parts := SplitOnce(cred, ':');
    if parts.Some? {
      assert forall c :: c in parts.value.0 || c in parts.value.1 ==> c in cred;
    }
  }

  lemma AcceptedWhole(rest: string, text: string)
    requires SsParts(BeforeFragment(rest))
             == match SplitOnce(text, '@') {
                 case None => Err(Malformed("ss missing @"))
                 case Some((cred, hostPort)) => SsCredentials(cred, hostPort)
               }
    ensures var r := ParseSs(rest);
            r.Ok? ==> r.value.endpoint.encryption.Some? && r.value.endpoint.password.Some?
                      && ':' !in r.value.endpoint.encryption.value && '@' !in r.value.endpoint.encryption.value
                      && '@' !in r.value.endpoint.password.value && Unbracketed(r.value.endpoint.address)
  {
    hide SplitOnce, SsParts, BeforeFragment, ParseHostPort, SsCredentials;
    var parts := SplitOnce(text, '@');
    if parts.Some? {
      CredentialsPlain(parts.value.0, parts.value.1);
      if ParseHostPort(parts.value.1).Ok? { LinkRoundTrips.ReadHostFits(parts.value.1); }
    }
  }

  /**
   A Shadowsocks endpoint survives this form exactly when neither method nor password has an at sign, the
   method no colon and the host no bracket at its ends; `#` and `?` in the host are no obstacle here.
   */
  lemma SsWholeSurvivesExactly(engine: Base64.Engine, e: Endpoint, bracketed: bool, name: Option<string>)
    requires LinkRoundTrips.IsSs(e)
    ensures var r := ParseLink(PrintSsWhole(engine, e, bracketed, name));
            (r.Ok? && r.value.endpoint == e)
            <==> ':' !in e.encryption.value && '@' !in e.encryption.value && '@' !in e.password.value
                 && Unbracketed(e.address)
  {
    hide Base64.Encode, Utf8.Encode, ParseLink, LinkRoundTrips.PrintFragment, LinkRoundTrips.PrintHostPort;
    hide SsParts, BeforeFragment, SplitOnce, ParseHostPort, SsCredentials;
    var text := SsText(e, bracketed);
    assert text != "";
    var rest := Base64.Encode(engine, Utf8.Encode(text)) + LinkRoundTrips.PrintFragment(name);
    WholeReads(engine, text, name);
    WholeLinkReads(engine, text, name);
    AcceptedWhole(rest, text);
    if ':' !in e.encryption.value && '@' !in e.encryption.value && '@' !in e.password.value && Unbracketed(e.address) {
      SsTextSplits(e, bracketed);
      LinkRoundTrips.HostPortReads(e.address, bracketed, e.port);
    }
  }

  // ----- What is refused

  /** A port that needs more than 16 bits. */
  lemma PortTooLarge(host: string, bracketed: bool, port: nat)
    requires port >= 0x10000
    ensures ParseHostPort(LinkRoundTrips.PrintHostPort(host, bracketed, port)) == Err(Malformed("port"))
  {
    hide Decimal.ParseUnsigned, Decimal.Digits;
    var h := if bracketed then "[" + host + "]" else host;
    var d := Decimal.Digits(port);
    var s := h + ":" + d;
    Decimal.ParseUnsignedOfDigits(port, 0x10000);
    assert s[|s| - 1] == d[|d| - 1];
    assert TrimSlashes(s) == s;
    RSplitOnceAt(h, ':', d);
  }

  /** The first scheme mark of `a://b` stands right after `a`. */
  predicate FirstMark(a: string, b: string) {
    forall i :: 0 <= i < |a| ==> !("://" <= (a + "://" + b)[i..])
  }

  lemma {:induction false} SchemeFirst(a: string, b: string)
    requires FirstMark(a, b)
    ensures SchemeOf(a + "://" + b) == a
  {
    var s := a + "://" + b;
    if a == "" {
      assert s == "://" + b;
    } else {
      assert s[1..] == a[1..] + "://" + b;
      assert !("://" <= s[0..]) && s[0..] == s;
      forall i | 0 <= i < |a[1..]|
        ensures !("://" <= (a[1..] + "://" + b)[i..])
      {
        assert (a[1..] + "://" + b)[i..] == s[i + 1..];
      }
      SchemeFirst(a[1..], b);
      assert [a[0]] + a[1..] == a;
    }
  }

  lemma {:induction false} SchemeOfUnmarked(s: string)
    requires !Contains(s, "://")
    ensures SchemeOf(s) == s
  {
    if s != "" {
      SchemeOfUnmarked(s[1..]);
      assert [s[0]] + s[1..] == s;
    }
  }

  lemma KnownSchemes(s: string)
    ensures VLESS <= s ==> SchemeOf(s) == "vless"
    ensures VMESS <= s ==> SchemeOf(s) == "vmess"
    ensures TROJAN <= s ==> SchemeOf(s) == "trojan"
    ensures SS <= s ==> SchemeOf(s) == "ss"
  {
    hide SchemeOf;
    if VLESS <= s { KnownScheme("vless", s); }
    if VMESS <= s { KnownScheme("vmess", s); }
    if TROJAN <= s { KnownScheme("trojan", s); }
    if SS <= s { KnownScheme("ss", s); }
  }

  lemma KnownScheme(a: string, s: string)
    requires a + "://" <= s && ':' !in a
    ensures SchemeOf(s) == a
  {
    hide SchemeOf;
    var b := s[|a| + 3..];
    assert s == a + "://" + b;
    forall i | 0 <= i < |a|
      ensures !("://" <= s[i..])
    {
      assert s[i..][0] == a[i];
    }
    SchemeFirst(a, b);
  }

  /** Any other scheme is refused by its name, text without a scheme by itself, and blank text as empty. */
  lemma RefusedLinks(link: string)
    ensures Blank(link) ==> ParseLink(link) == Err(Empty)
    ensures !Blank(link) && SchemeOf(Trim(link)) !in {"vless", "vmess", "trojan", "ss"}
            ==> ParseLink(link) == Err(UnsupportedScheme(SchemeOf(Trim(link))))
  {
    hide Trim, SchemeOf, ParseVless, ParseVmess, ParseTrojan, ParseSs;
    KnownSchemes(Trim(link));
  }

  /** A payload that is blank, or that holds neither a scheme mark nor base64, gives one error. */
  lemma RefusedSubscriptions(payload: string)
    ensures Blank(payload) ==> ParseSubscription(payload) == [Err(Empty)]
    ensures !Blank(payload) && !Contains(Trim(payload), "://") && Forgiving.DecodeForgiving(payload).None?
            ==> ParseSubscription(payload) == [Err(Malformed("base64"))]
  {
    hide Trim, Contains, Forgiving.DecodeFirst, Forgiving.DropBreaks;
    TrimIdempotent(payload);
  }
}
