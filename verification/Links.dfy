/** Share links (vless, trojan, vmess, ss) and subscription lists. */
module Links {
  import opened Octets
  import opened Wrappers
  import opened Text
  import Canonical
  import Decimal
  import Forgiving
  import Json
  import Utf8
  import Words

  datatype Endpoint = Endpoint(
    tag: string,
    address: string,
    port: nat,
    uuid: string,
    sni: Option<string>,
    publicKey: Option<string>,
    shortId: Option<string>,
    path: Option<string>,
    host: Option<string>,
    password: Option<string>,
    encryption: Option<string>
  )

  datatype Profile = Profile(protocol: string, endpoint: Endpoint, raw: string)

  datatype ParseError = Empty | UnsupportedScheme(scheme: string) | Malformed(what: string)

  // ----- Percent decoding

  /** `to_digit(16)` of a byte. */
  function HexOf(b: int): (r: Option<int>)
    ensures r.Some? ==> 0 <= r.value < 16
  {
    if 0x30 <= b <= 0x39 then Some(b - 0x30)
    else if 0x41 <= b <= 0x46 then Some(b - 0x41 + 10)
    else if 0x61 <= b <= 0x66 then Some(b - 0x61 + 10)
    else None
  }

  /** A percent sign and two hexadecimal digits at the front. */
  predicate Quoted(b: Bytes) {
    |b| >= 3 && b[0] == 0x25 && HexOf(b[1]).Some? && HexOf(b[2]).Some?
  }

  function QuotedByte(b: Bytes): byte
    requires Quoted(b)
  {
    HexOf(b[1]).value * 16 + HexOf(b[2]).value
  }

  function Unquote(b: Bytes): Bytes {
    if |b| == 0 then []
    else if Quoted(b) then [QuotedByte(b)] + Unquote(b[3..])
    else [if b[0] == 0x2B then 0x20 else b[0]] + Unquote(b[1..])
  }

  /** `urldecode`. */
  function UrlDecode(s: string): string {
    Utf8.Lossy(Unquote(Utf8.Encode(s)))
  }

  lemma UnquoteQuoted(out: Bytes, b: Bytes, i: nat)
    requires i < |b| && Quoted(b[i..])
    ensures out + Unquote(b[i..]) == out + [QuotedByte(b[i..])] + Unquote(b[i + 3..])
  {
    hide HexOf;
    assert b[i..][3..] == b[i + 3..];
    Assoc(out, [QuotedByte(b[i..])], Unquote(b[i + 3..]));
  }

  lemma UnquotePlain(out: Bytes, b: Bytes, i: nat)
    requires i < |b| && !Quoted(b[i..])
    ensures out + Unquote(b[i..]) == out + [if b[i] == 0x2B then 0x20 else b[i]] + Unquote(b[i + 1..])
  {
    hide Quoted;
    assert b[i..][1..] == b[i + 1..];
    Assoc(out, [if b[i] == 0x2B then 0x20 else b[i]], Unquote(b[i + 1..]));
  }

  method UrlDecodeLoop(s: string) returns (r: string)
    ensures r == UrlDecode(s)
  {
    hide HexOf, Utf8.Lossy, Utf8.Encode;
    var bytes := Utf8.Encode(s);
    var out: Bytes := [];
    var i := 0;
    assert bytes[0..] == bytes && out + Unquote(bytes) == Unquote(bytes);
    while i < |bytes|
      invariant i <= |bytes|
      invariant Unquote(bytes) == out + Unquote(bytes[i..])
    {
      if bytes[i] == 0x25 && i + 2 < |bytes| && HexOf(bytes[i + 1]).Some? && HexOf(bytes[i + 2]).Some? {
        UnquoteQuoted(out, bytes, i);
        out := out + [HexOf(bytes[i + 1]).value * 16 + HexOf(bytes[i + 2]).value];
        i := i + 3;
      } else {
        UnquotePlain(out, bytes, i);
        out := out + [if bytes[i] == 0x2B then 0x20 else bytes[i]];
        i := i + 1;
      }
    }
    assert Unquote(bytes) == out;
    r := Utf8.Lossy(out);
  }

  // ----- Splitting a link

  type Params = seq<(string, string)>

  /** The pairs with an equals sign, values decoded. */
  function ParamsOf(pairs: seq<string>): Params {
    if pairs == [] then []
    else
      match SplitOnce(pairs[0], '=')
      case None => ParamsOf(pairs[1..])
      case Some((k, v)) => [(k, UrlDecode(v))] + ParamsOf(pairs[1..])
  }

  function BeforeFragment(s: string): string {
    match SplitOnce(s, '#')
    case None => s
    case Some((main, _)) => main
  }

  /** `split_query`: the authority and the query parameters; the fragment is dropped. */
  function SplitQuery(s: string): (string, Params) {
    var main := BeforeFragment(s);
    match SplitOnce(main, '?')
    case None => (main, [])
    case Some((authority, query)) => (authority, ParamsOf(SplitOn(query, '&')))
  }

  method SplitQueryLoop(s: string) returns (authority: string, params: Params)
    ensures (authority, params) == SplitQuery(s)
  {
    hide UrlDecode;
    var main := BeforeFragment(s);
    var split := SplitOnce(main, '?');
    params := [];
    if split.None? {
      return main, [];
    }
    authority := split.value.0;
    var pairs := SplitOn(split.value.1, '&');
    assert pairs[0..] == pairs && params + ParamsOf(pairs) == ParamsOf(pairs);
    for i := 0 to |pairs|
      invariant ParamsOf(pairs) == params + ParamsOf(pairs[i..])
    {
      assert pairs[i..][1..] == pairs[i + 1..];
      var kv := SplitOnce(pairs[i], '=');
      if kv.Some? {
        var param := (kv.value.0, UrlDecode(kv.value.1));
        Assoc(params, [param], ParamsOf(pairs[i + 1..]));
        params := params + [param];
      }
    }
    assert ParamsOf(pairs) == params;
  }

  /** `query_get`: the first value under a name. */
  function QueryGet(params: Params, key: string): Option<string> {
    if params == [] then None
    else if params[0].0 == key then Some(params[0].1)
    else QueryGet(params[1..], key)
  }

  function TrimSlashes(s: string): string {
    if s != "" && s[|s| - 1] == '/' then TrimSlashes(s[..|s| - 1]) else s
  }

  predicate IsBracket(c: char) {
    c == '[' || c == ']'
  }

  function TrimBracketsStart(s: string): string {
    if s != "" && IsBracket(s[0]) then TrimBracketsStart(s[1..]) else s
  }

  function TrimBracketsEnd(s: string): string {
    if s != "" && IsBracket(s[|s| - 1]) then TrimBracketsEnd(s[..|s| - 1]) else s
  }

  /** `parse_host_port`. */
  function ParseHostPort(s: string): Result<(string, nat), ParseError> {
    match RSplitOnce(TrimSlashes(s), ':')
    case None => Err(Malformed("host:port"))
    case Some((host, port)) =>
      match Decimal.ParseUnsigned(port, 0x10000)
      case None => Err(Malformed("port"))
      case Some(n) => Ok((TrimBracketsEnd(TrimBracketsStart(host)), n))
  }

  // ----- The four schemes

  const VLESS := "vless://"
  const VMESS := "vmess://"
  const TROJAN := "trojan://"
  const SS := "ss://"

  function ParseVless(rest: string): Result<Profile, ParseError> {
    var (authority, params) := SplitQuery(rest);
    match SplitOnce(authority, '@')
    case None => Err(Malformed("vless missing @"))
    case Some((user, hostPort)) =>
      var (host, port) :- ParseHostPort(hostPort);
      Ok(Profile(
           "vless",
           Endpoint("vless", host, port, UrlDecode(user), QueryGet(params, "sni"), QueryGet(params, "pbk"),
                    QueryGet(params, "sid"), QueryGet(params, "path"), QueryGet(params, "host"), None, None),
           VLESS + rest))
  }

  function ParseTrojan(rest: string): Result<Profile, ParseError> {
    var (authority, params) := SplitQuery(rest);
    match SplitOnce(authority, '@')
    case None => Err(Malformed("trojan missing @"))
    case Some((user, hostPort)) =>
      var (host, port) :- ParseHostPort(hostPort);
      Ok(Profile(
           "trojan",
           Endpoint("trojan", host, port, "", QueryGet(params, "sni"), None, None, QueryGet(params, "path"),
                    QueryGet(params, "host"), Some(UrlDecode(user)), None),
           TROJAN + rest))
  }

  function ParseSs(rest: string): Result<Profile, ParseError> {
    var main := BeforeFragment(rest);
    var (cipher, password, hostPort) :- SsParts(main);
    var (host, port) :- ParseHostPort(hostPort);
    Ok(Profile(
         "shadowsocks",
         Endpoint("ss", host, port, "", None, None, None, None, None, Some(password), Some(cipher)),
         SS + rest))
  }

  /** Method, password and host part, from `base64(method:password)@host` or `base64(method:password@host)`. */
  function SsParts(main: string): Result<(string, string, string), ParseError> {
    match SplitOnce(main, '@')
    case Some((user, hostPort)) =>
      (match Forgiving.DecodeForgiving(user)
       case None => Err(Malformed("base64"))
       case Some(bytes) => SsCredentials(Utf8.Lossy(bytes), hostPort))
    case None =>
      (match Forgiving.DecodeForgiving(main)
       case None => Err(Malformed("base64"))
       case Some(bytes) =>
         match SplitOnce(Utf8.Lossy(bytes), '@')
         case None => Err(Malformed("ss missing @"))
         case Some((cred, hostPort)) => SsCredentials(cred, hostPort))
  }

  function SsCredentials(cred: string, hostPort: string): Result<(string, string, string), ParseError> {
    match SplitOnce(cred, ':')
    case None => Err(Malformed("ss cred"))
    case Some((cipher, password)) => Ok((cipher, password, hostPort))
  }

  /** `Value::get` on an object's members. */
  function Member(v: Json.Json, key: string): Option<Json.Json> {
    if v.Obj? then MemberOf(v.fields, key) else None
  }

  function MemberOf(fields: seq<Json.Field>, key: string): Option<Json.Json> {
    if fields == [] then None
    else if fields[0].key == key then Some(fields[0].value)
    else MemberOf(fields[1..], key)
  }

  function TextMember(v: Json.Json, key: string): Option<string> {
    match Member(v, key)
    case Some(Str(s)) => Some(s)
    case _ => None
  }

  /** The port as a number or as text, cut to 16 bits. */
  function VmessPort(v: Json.Json): Option<nat> {
    match Member(v, "port")
    case Some(Num(n)) => if n < 0 then None else Some(n % 0x10000)
    case Some(Str(s)) =>
      (match Decimal.ParseUnsigned(s, Words.U64_END)
       case None => None
       case Some(n) => Some(n % 0x10000))
    case _ => None
  }

  function ParseVmess(rest: string): Result<Profile, ParseError> {
    match Forgiving.DecodeForgiving(rest)
    case None => Err(Malformed("base64"))
    case Some(bytes) =>
      match Json.Parse(Utf8.Lossy(bytes))
      case None => Err(Malformed("vmess json"))
      case Some(tree) =>
        var v := Canonical.ToValue(tree);
        match TextMember(v, "add")
        case None => Err(Malformed("vmess add"))
        case Some(address) =>
          match VmessPort(v)
          case None => Err(Malformed("vmess port"))
          case Some(port) =>
            var id := TextMember(v, "id");
            Ok(Profile(
                 "vmess",
                 Endpoint("vmess", address, port, if id.Some? then id.value else "", TextMember(v, "sni"), None, None,
                          TextMember(v, "path"), TextMember(v, "host"), None, TextMember(v, "scy")),
                 VMESS + rest))
  }

  /** Everything before the first scheme mark. */
  function SchemeOf(s: string): string {
    if s == "" || "://" <= s then "" else [s[0]] + SchemeOf(s[1..])
  }

  /** `parse_link`. */
  function ParseLink(link: string): Result<Profile, ParseError> {
    var s := Trim(link);
    if s == "" then Err(Empty)
    else if VLESS <= s then ParseVless(s[|VLESS|..])
    else if VMESS <= s then ParseVmess(s[|VMESS|..])
    else if TROJAN <= s then ParseTrojan(s[|TROJAN|..])
    else if SS <= s then ParseSs(s[|SS|..])
    else Err(UnsupportedScheme(SchemeOf(s)))
  }

  /** The non-blank lines, trimmed and parsed. */
  function ParseLines(lines: seq<string>): seq<Result<Profile, ParseError>> {
    if lines == [] then []
    else (if Trim(lines[0]) == "" then [] else [ParseLink(Trim(lines[0]))]) + ParseLines(lines[1..])
  }

  /** `parse_subscription`. */
  function ParseSubscription(payload: string): seq<Result<Profile, ParseError>> {
    var s := Trim(payload);
    if s == "" then [Err(Empty)]
    else if Contains(s, "://") then ParseLines(Lines(s))
    else
      match Forgiving.DecodeForgiving(s)
      case None => [Err(Malformed("base64"))]
      case Some(bytes) => ParseLines(Lines(Utf8.Lossy(bytes)))
  }
}
