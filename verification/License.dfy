/** The licence payload, its schema, its JSON form and hardware id normalisation. */
module License {
  import opened Wrappers
  import opened Json
  import opened Canonical
  import opened Text
  import opened Words
  import Structs
  import Utf8

  const PRODUCT := "VOR"
  const FORMAT_VERSION := 2

  datatype Tier = Standard | Pro | Enterprise

  datatype Entitlement = CoreTunnel | StealthEngine | RelayChains | UnlimitedDevices | PriorityFleet

  datatype DevicePolicy = DevicePolicy(maxDevices: u32, boundHwids: seq<string>)

  datatype Payload = Payload(
    licenseVersion: i64,
    licenseId: string,
    product: string,
    keyId: string,
    issuedAt: i64,
    notBefore: i64,
    expiresAt: i64,
    tier: Tier,
    entitlements: seq<Entitlement>,
    devices: DevicePolicy,
    metadata: Option<string>
  )

  datatype Error =
    | Malformed
    | UnsupportedSchema(version: int)
    | MissingField(name: string)
    | InvalidField(name: string)
    | WrongProduct(found: string)
    | UntrustedKey(keyId: string)
    | BadSignature
    | NotYetValid(at: int)
    | Expired(at: int)
    | DeviceMismatch
    | Revoked

  function TierName(t: Tier): string {
    match t
    case Standard => "standard"
    case Pro => "pro"
    case Enterprise => "enterprise"
  }

  function TierNamed(s: string): Option<Tier> {
    if s == "standard" then Some(Standard)
    else if s == "pro" then Some(Pro)
    else if s == "enterprise" then Some(Enterprise)
    else None
  }

  function EntitlementName(e: Entitlement): string {
    match e
    case CoreTunnel => "core_tunnel"
    case StealthEngine => "stealth_engine"
    case RelayChains => "relay_chains"
    case UnlimitedDevices => "unlimited_devices"
    case PriorityFleet => "priority_fleet"
  }

  function EntitlementNamed(s: string): Option<Entitlement> {
    if s == "core_tunnel" then Some(CoreTunnel)
    else if s == "stealth_engine" then Some(StealthEngine)
    else if s == "relay_chains" then Some(RelayChains)
    else if s == "unlimited_devices" then Some(UnlimitedDevices)
    else if s == "priority_fleet" then Some(PriorityFleet)
    else None
  }

  lemma NamesRead(t: Tier, e: Entitlement)
    ensures TierNamed(TierName(t)) == Some(t)
    ensures EntitlementNamed(EntitlementName(e)) == Some(e)
  {
  }

  // ----- Hardware ids

  const HWID_PREFIX := "hwid-sha256-"

  /** `trim_start_matches("0x")`. */
  function StripHexMarks(s: string): string {
    if |s| >= 2 && s[0] == '0' && s[1] == 'x' then StripHexMarks(s[2..]) else s
  }

  /** `normalize_hwid`. */
  function NormalizeHwid(s: string): string {
    var lower := ToLower(Trim(s));
    if HWID_PREFIX <= lower then lower else HWID_PREFIX + StripHexMarks(lower)
  }

  lemma {:induction false} StripHexMarksSuffix(s: string)
    ensures |StripHexMarks(s)| <= |s| && StripHexMarks(s) == s[|s| - |StripHexMarks(s)|..]
  {
    if |s| >= 2 && s[0] == '0' && s[1] == 'x' { StripHexMarksSuffix(s[2..]); }
  }

  lemma LowerOfTight(s: string)
    requires Tight(s)
    ensures Tight(ToLower(s)) && forall i :: 0 <= i < |s| ==> LowerChar(ToLower(s)[i]) == ToLower(s)[i]
  {
  }

  lemma NormalizeOfNormal(n: string)
    requires Tight(n) && HWID_PREFIX <= n && forall i :: 0 <= i < |n| ==> LowerChar(n[i]) == n[i]
    ensures NormalizeHwid(n) == n
  {
    hide IsSpace, LowerChar;
    TrimOfTight(n);
    assert ToLower(n) == n;
  }

  lemma PrefixedShape(lower: string, digits: string)
    requires Tight(lower) && forall i :: 0 <= i < |lower| ==> LowerChar(lower[i]) == lower[i]
    requires |digits| <= |lower| && digits == lower[|lower| - |digits|..]
    ensures var n := HWID_PREFIX + digits;
            Tight(n) && forall i :: 0 <= i < |n| ==> LowerChar(n[i]) == n[i]
  {
    var n := HWID_PREFIX + digits;
    assert digits != "" ==> n[|n| - 1] == lower[|lower| - 1];
    assert forall i :: 0 <= i < |HWID_PREFIX| ==> LowerChar(HWID_PREFIX[i]) == HWID_PREFIX[i];
    assert forall i :: 0 <= i < |n| ==> n[i] == if i < |HWID_PREFIX| then HWID_PREFIX[i] else digits[i - |HWID_PREFIX|];
  }

  lemma NormalizeShape(s: string)
    ensures var n := NormalizeHwid(s);
            Tight(n) && HWID_PREFIX <= n && forall i :: 0 <= i < |n| ==> LowerChar(n[i]) == n[i]
  {
    var lower, n := ToLower(Trim(s)), NormalizeHwid(s);
    TrimIsTight(s);
    LowerOfTight(Trim(s));
    StripHexMarksSuffix(lower);
    if !(HWID_PREFIX <= lower) {
      PrefixedShape(lower, StripHexMarks(lower));
    }
  }

  /** Normalising is stable, so a stored id and the id it came from are the same device. */
  lemma NormalizeStable(s: string)
    ensures NormalizeHwid(NormalizeHwid(s)) == NormalizeHwid(s)
  {
    NormalizeShape(s);
    NormalizeOfNormal(NormalizeHwid(s));
  }

  predicate IsHexDigit(c: char) {
    '0' <= c <= '9' || 'a' <= c <= 'f' || 'A' <= c <= 'F'
  }

  predicate HwidWellFormed(s: string) {
    var lower := ToLower(Trim(s));
    var digits := if HWID_PREFIX <= lower then lower[|HWID_PREFIX|..] else lower;
    AnyCaseHex(digits)
  }

  predicate AnyCaseHex(digits: string) {
    |digits| == 64 && forall i :: 0 <= i < 64 ==> IsHexDigit(digits[i])
  }

  predicate IsLowerHex(c: char) {
    '0' <= c <= '9' || 'a' <= c <= 'f'
  }

  predicate HexDigits(digits: string) {
    |digits| == 64 && forall i :: 0 <= i < 64 ==> IsLowerHex(digits[i])
  }

  /** The prefix and 64 lower-case hexadecimal digits. */
  predicate IsDigest(n: string) {
    HWID_PREFIX <= n && HexDigits(n[|HWID_PREFIX|..])
  }

  lemma DigitsOf(digits: string)
    requires forall i :: 0 <= i < |digits| ==> digits[i] == LowerChar(digits[i])
    ensures AnyCaseHex(digits) <==> HexDigits(digits)
  {
    assert forall i :: 0 <= i < |digits| ==> (IsHexDigit(digits[i]) <==> IsLowerHex(digits[i]));
  }

  lemma MarkedOrNot(lower: string)
    ensures !("0x" <= lower) ==> StripHexMarks(lower) == lower
    ensures "0x" <= lower ==> !HexDigits(lower) && !(HWID_PREFIX <= lower)
  {
    if "0x" <= lower {
      assert lower[0] == '0' && lower[1] == 'x' && HWID_PREFIX[0] == 'h';
    }
  }

  /**
   The schema admits exactly the spellings that normalise to a digest, except those with a `0x` mark,
   which only normalisation understands.
   */
  lemma WellFormedExactly(s: string)
    ensures HwidWellFormed(s) <==> IsDigest(NormalizeHwid(s)) && !("0x" <= ToLower(Trim(s)))
  {
    hide Trim, HexDigits, AnyCaseHex, StripHexMarks, LowerChar;
    var lower := ToLower(Trim(s));
    LowerTwice(Trim(s));
    DigitsOf(lower);
    MarkedOrNot(lower);
    if HWID_PREFIX <= lower {
      DigitsOf(lower[|HWID_PREFIX|..]);
    } else {
      var n := NormalizeHwid(s);
      assert n == HWID_PREFIX + StripHexMarks(lower) && HWID_PREFIX <= n;
      assert n[|HWID_PREFIX|..] == StripHexMarks(lower);
    }
  }

  lemma LowerTwice(s: string)
    ensures forall i :: 0 <= i < |s| ==> ToLower(s)[i] == LowerChar(ToLower(s)[i])
  {
  }

  lemma HexIsTight(digits: string)
    requires HexDigits(digits)
    ensures Tight(digits) && ToLower(digits) == digits && StripHexMarks(digits) == digits && !(HWID_PREFIX <= digits)
  {
    assert digits[0] != HWID_PREFIX[0];
  }

  /** Bare, marked or prefixed, a digest names the same device. */
  lemma SpellingsAgree(digits: string)
    requires HexDigits(digits)
    ensures NormalizeHwid(digits) == NormalizeHwid("0x" + digits) == HWID_PREFIX + digits
    ensures NormalizeHwid(HWID_PREFIX + digits) == HWID_PREFIX + digits
  {
    hide HexDigits, IsSpace;
    HexIsTight(digits);
    TrimOfTight(digits);
    MarkedNormal(digits);
    PrefixedShape(digits, digits);
    NormalizeOfNormal(HWID_PREFIX + digits);
  }

  lemma MarkedNormal(digits: string)
    requires HexDigits(digits)
    ensures NormalizeHwid("0x" + digits) == HWID_PREFIX + digits
  {
    var marked := "0x" + digits;
    HexIsTight(digits);
    assert marked[|marked| - 1] == digits[|digits| - 1] && marked[0] == '0' && marked[1] == 'x';
    TrimOfTight(marked);
    assert forall i :: 2 <= i < |marked| ==> marked[i] == digits[i - 2];
    assert ToLower(marked) == marked;
    assert marked[2..] == digits && HWID_PREFIX[0] == 'h';
  }

  // ----- Schema

  /** `validate_schema`: the first problem found, in the order the checks stand. */
  function SchemaError(p: Payload): Option<Error> {
    if p.licenseVersion != FORMAT_VERSION then Some(UnsupportedSchema(p.licenseVersion))
    else if Trim(p.licenseId) == "" then Some(MissingField("license_id"))
    else if Trim(p.keyId) == "" then Some(MissingField("key_id"))
    else if p.product != PRODUCT then Some(WrongProduct(p.product))
    else if p.expiresAt <= p.notBefore then Some(InvalidField("expires_at"))
    else if p.issuedAt > p.expiresAt then Some(InvalidField("issued_at"))
    else if p.entitlements == [] then Some(MissingField("entitlements"))
    else if exists h :: h in p.devices.boundHwids && !HwidWellFormed(h) then
      Some(InvalidField("device_policy.bound_hwids"))
    else None
  }

  /** Exactly what the schema asks for. */
  lemma SchemaExactly(p: Payload)
    ensures SchemaError(p).None?
            <==> (p.licenseVersion == 2 && p.product == "VOR"
                  && (exists c :: c in p.licenseId && !IsSpace(c)) && (exists c :: c in p.keyId && !IsSpace(c))
                  && p.notBefore < p.expiresAt && p.issuedAt <= p.expiresAt && p.entitlements != []
                  && forall h :: h in p.devices.boundHwids ==>
                                   IsDigest(NormalizeHwid(h)) && !("0x" <= ToLower(Trim(h))))
  {
    hide Trim, IsSpace, HwidWellFormed, IsDigest, NormalizeHwid, ToLower;
    BlankIsAllSpace(p.licenseId);
    BlankIsAllSpace(p.keyId);
    forall h | h in p.devices.boundHwids
      ensures HwidWellFormed(h) <==> IsDigest(NormalizeHwid(h)) && !("0x" <= ToLower(Trim(h)))
    {
      WellFormedExactly(h);
    }
  }

  predicate BlankText(s: string) {
    forall i :: 0 <= i < |s| ==> IsSpace(s[i])
  }

  /** Which problem is named when several are there. */
  lemma SchemaNames(p: Payload)
    ensures p.licenseVersion != 2 ==> SchemaError(p) == Some(UnsupportedSchema(p.licenseVersion))
    ensures p.licenseVersion == 2 && BlankText(p.licenseId) ==> SchemaError(p) == Some(MissingField("license_id"))
    ensures p.licenseVersion == 2 && !BlankText(p.licenseId) ==>
              && (BlankText(p.keyId) ==> SchemaError(p) == Some(MissingField("key_id")))
              && (!BlankText(p.keyId) && p.product != "VOR" ==> SchemaError(p) == Some(WrongProduct(p.product)))
    ensures p.licenseVersion == 2 && !BlankText(p.licenseId) && !BlankText(p.keyId) && p.product == "VOR" ==>
              && (p.expiresAt <= p.notBefore ==> SchemaError(p) == Some(InvalidField("expires_at")))
              && (p.notBefore < p.expiresAt < p.issuedAt ==> SchemaError(p) == Some(InvalidField("issued_at")))
              && (p.notBefore < p.expiresAt && p.issuedAt <= p.expiresAt && p.entitlements == [] ==>
                    SchemaError(p) == Some(MissingField("entitlements")))
  {
    hide Trim, IsSpace, HwidWellFormed;
    BlankIsAllSpace(p.licenseId);
    BlankIsAllSpace(p.keyId);
  }

  // ----- JSON

  const VERSION_KEY := "license_version"
  const ID_KEY := "license_id"
  const PRODUCT_KEY := "product"
  const KEY_ID_KEY := "key_id"
  const ISSUED_KEY := "issued_at"
  const NOT_BEFORE_KEY := "not_before"
  const EXPIRES_KEY := "expires_at"
  const TIER_KEY := "license_tier"
  const ENTITLEMENTS_KEY := "entitlements"
  const DEVICES_KEY := "device_policy"
  const METADATA_KEY := "metadata"
  const MAX_KEY := "max_devices"
  const BOUND_KEY := "bound_hwids"

  const PAYLOAD_KEYS := [VERSION_KEY, ID_KEY, PRODUCT_KEY, KEY_ID_KEY, ISSUED_KEY, NOT_BEFORE_KEY, EXPIRES_KEY,
                         TIER_KEY, ENTITLEMENTS_KEY, DEVICES_KEY, METADATA_KEY]

  function StringItems(s: seq<string>): (r: seq<Json>)
    ensures |r| == |s|
    ensures forall i :: 0 <= i < |s| ==> r[i] == Str(s[i])
  {
    seq(|s|, i requires 0 <= i < |s| => Str(s[i]))
  }

  function EntitlementNames(es: seq<Entitlement>): (r: seq<string>)
    ensures |r| == |es|
    ensures forall i :: 0 <= i < |es| ==> r[i] == EntitlementName(es[i])
  {
    seq(|es|, i requires 0 <= i < |es| => EntitlementName(es[i]))
  }

  function DevicesJson(d: DevicePolicy): Json {
    Obj(DeviceFields(d))
  }

  function PayloadFields(p: Payload): seq<Field> {
    [ Field(VERSION_KEY, Num(p.licenseVersion)),
      Field(ID_KEY, Str(p.licenseId)),
      Field(PRODUCT_KEY, Str(p.product)),
      Field(KEY_ID_KEY, Str(p.keyId)),
      Field(ISSUED_KEY, Num(p.issuedAt)),
      Field(NOT_BEFORE_KEY, Num(p.notBefore)),
      Field(EXPIRES_KEY, Num(p.expiresAt)),
      Field(TIER_KEY, Str(TierName(p.tier))),
      Field(ENTITLEMENTS_KEY, Arr(StringItems(EntitlementNames(p.entitlements)))),
      Field(DEVICES_KEY, DevicesJson(p.devices)) ]
    + if p.metadata.Some? then [Field(METADATA_KEY, Str(p.metadata.value))] else []
  }

  /** `serde_json::to_value`; an absent reference is left out. */
  function ToJson(p: Payload): Json {
    Obj(PayloadFields(p))
  }

  /** A unit variant is its name, or an object with that one name and a null. */
  function VariantName(v: Json): Option<string> {
    match v
    case Str(s) => Some(s)
    case Obj(fields) => if |fields| == 1 && fields[0].value == Null then Some(fields[0].key) else None
    case _ => None
  }

  function EntitlementsFrom(items: seq<Json>): Option<seq<Entitlement>> {
    if items == [] then Some([])
    else
      var name :- VariantName(items[0]);
      var e :- EntitlementNamed(name);
      var rest :- EntitlementsFrom(items[1..]);
      Some([e] + rest)
  }

  function TierFrom(l: Structs.Lookup): Option<Tier> {
    match l
    case Once(v) =>
      (var name :- VariantName(v);
       TierNamed(name))
    case _ => None
  }

  /** Members of the policy have defaults when they are missing. */
  function DevicesFrom(v: Json): Option<DevicePolicy> {
    var fields :- Structs.Members(v, [MAX_KEY, BOUND_KEY]);
    var most := Structs.Find(fields, MAX_KEY);
    var bound := Structs.Find(fields, BOUND_KEY);
    var maxDevices :- if most.Absent? then Some(0) else Structs.IntIn(most, 0, U32_END);
    var items :- if bound.Absent? then Some([]) else Structs.Items(bound);
    var hwids :- Structs.Strings(items);
    Some(DevicePolicy(maxDevices, hwids))
  }

  function MetadataFrom(l: Structs.Lookup): Option<Option<string>> {
    match l
    case Absent => Some(None)
    case Once(Null) => Some(None)
    case Once(Str(s)) => Some(Some(s))
    case _ => None
  }

  /** Reading a payload; unknown names are ignored, repeated known names are refused. */
  function FromJson(v: Json): Option<Payload> {
    var f :- Structs.Members(v, PAYLOAD_KEYS);
    FromFields(f)
  }

  function FromFields(f: seq<Field>): Option<Payload> {
    var version :- Structs.IntIn(Structs.Find(f, VERSION_KEY), I64_MIN, I64_END);
    var id :- Structs.Text(Structs.Find(f, ID_KEY));
    var product :- Structs.Text(Structs.Find(f, PRODUCT_KEY));
    var keyId :- Structs.Text(Structs.Find(f, KEY_ID_KEY));
    var issued :- Structs.IntIn(Structs.Find(f, ISSUED_KEY), I64_MIN, I64_END);
    var notBefore :- Structs.IntIn(Structs.Find(f, NOT_BEFORE_KEY), I64_MIN, I64_END);
    var expires :- Structs.IntIn(Structs.Find(f, EXPIRES_KEY), I64_MIN, I64_END);
    var tier :- TierFrom(Structs.Find(f, TIER_KEY));
    var names :- Structs.Items(Structs.Find(f, ENTITLEMENTS_KEY));
    var entitlements :- EntitlementsFrom(names);
    var devices :- DevicesOf(Structs.Find(f, DEVICES_KEY));
    var metadata :- MetadataFrom(Structs.Find(f, METADATA_KEY));
    Some(Payload(version, id, product, keyId, issued, notBefore, expires, tier, entitlements, devices, metadata))
  }

  function DevicesOf(l: Structs.Lookup): Option<DevicePolicy> {
    match l
    case Once(v) => DevicesFrom(v)
    case _ => None
  }

  /** `serde_json::from_str::<LicensePayload>`. */
  function FromText(text: string): Option<Payload> {
    var v :- Parse(text);
    FromJson(v)
  }

  // ----- Members a reader passes over, refuses or fills in

  /** The members whose names are in `names`. */
  function Known(f: seq<Field>, names: seq<string>): seq<Field> {
    if f == [] then [] else (if f[0].key in names then [f[0]] else []) + Known(f[1..], names)
  }

  lemma {:induction false} KnownKeys(f: seq<Field>, names: seq<string>, key: string)
    requires key in names
    ensures HasKey(Known(f, names), key) <==> HasKey(f, key)
    ensures Structs.Find(Known(f, names), key) == Structs.Find(f, key)
  {
    if f != [] {
      var k := Known(f[1..], names);
      KnownKeys(f[1..], names, key);
      assert [f[0]] + k != [] && ([f[0]] + k)[1..] == k && [] + k == k;
      HasKeyCons(f[0], k, key);
      HasKeyCons(f[0], f[1..], key);
      assert [f[0]] + f[1..] == f;
    }
  }

  lemma HasKeyCons(g: Field, f: seq<Field>, key: string)
    ensures HasKey([g] + f, key) <==> g.key == key || HasKey(f, key)
  {
    var all := [g] + f;
    assert all[0] == g;
    if HasKey(f, key) {
      var i :| 0 <= i < |f| && f[i].key == key;
      assert all[i + 1].key == key;
    }
  }

  /** Members with other names are passed over, wherever they stand and however often. */
  lemma UnknownIgnored(f: seq<Field>)
    ensures FromFields(Known(f, PAYLOAD_KEYS)) == FromFields(f)
  {
    hide Structs.Find, Known, EntitlementsFrom, TierFrom, MetadataFrom, DevicesOf;
    var k := Known(f, PAYLOAD_KEYS);
    assert PAYLOAD_KEYS[0] == VERSION_KEY && PAYLOAD_KEYS[1] == ID_KEY && PAYLOAD_KEYS[2] == PRODUCT_KEY;
    assert PAYLOAD_KEYS[3] == KEY_ID_KEY && PAYLOAD_KEYS[4] == ISSUED_KEY && PAYLOAD_KEYS[5] == NOT_BEFORE_KEY;
    assert PAYLOAD_KEYS[6] == EXPIRES_KEY && PAYLOAD_KEYS[7] == TIER_KEY && PAYLOAD_KEYS[8] == ENTITLEMENTS_KEY;
    assert PAYLOAD_KEYS[9] == DEVICES_KEY && PAYLOAD_KEYS[10] == METADATA_KEY;
    forall key | key in PAYLOAD_KEYS
      ensures Structs.Find(k, key) == Structs.Find(f, key)
    {
      KnownKeys(f, PAYLOAD_KEYS, key);
    }
  }

  lemma {:induction false} RepeatedFound(f: seq<Field>, i: nat, j: nat)
    requires i < j < |f| && f[i].key == f[j].key
    ensures Structs.Find(f, f[i].key) == Structs.Repeated
  {
    if i > 0 {
      RepeatedFound(f[1..], i - 1, j - 1);
      if f[0].key == f[i].key {
        assert f[1..][i - 1].key == f[i].key;
      }
    } else {
      assert f[1..][j - 1].key == f[0].key;
    }
  }

  /** A known member that is there twice is refused. */
  lemma RepeatedRefused(f: seq<Field>, i: nat, j: nat)
    requires i < j < |f| && f[i].key == f[j].key && f[i].key in PAYLOAD_KEYS
    ensures FromFields(f) == None
  {
    hide Structs.Find, EntitlementsFrom, TierFrom, MetadataFrom, DevicesOf;
    RepeatedFound(f, i, j);
    RepeatedIsNone(f[i].key, f);
  }

  lemma RepeatedIsNone(key: string, f: seq<Field>)
    requires key in PAYLOAD_KEYS && Structs.Find(f, key) == Structs.Repeated
    ensures FromFields(f) == None
  {
    hide Structs.Find, EntitlementsFrom;
  }

  // ----- The text that is signed reads back as the payload it was made from

  /** The bytes a signature covers, as text. */
  function SignedText(p: Payload): string {
    Canon(ToJson(p))
  }

  lemma KeysDiffer(p: Payload)
    ensures DistinctKeys(PayloadFields(p))
  {
    assert VERSION_KEY[8] == 'v' && |VERSION_KEY| == 15;
    assert |ID_KEY| == |NOT_BEFORE_KEY| == |EXPIRES_KEY| == 10;
    assert ID_KEY[0] == 'l' && NOT_BEFORE_KEY[0] == 'n' && EXPIRES_KEY[0] == 'e';
    assert |TIER_KEY| == |ENTITLEMENTS_KEY| == 12 && TIER_KEY[0] == 'l' && ENTITLEMENTS_KEY[0] == 'e';
    assert |PRODUCT_KEY| == 7 && |KEY_ID_KEY| == 6 && |ISSUED_KEY| == 9 && |DEVICES_KEY| == 13 && |METADATA_KEY| == 8;
  }

  lemma StringItemsRead(s: seq<string>)
    ensures Structs.Strings(StringItems(s)) == Some(s)
    ensures NormalizeItems(StringItems(s)) == StringItems(s)
  {
    hide Structs.Strings, NormalizeItems, StringItems;
    StringsRead(s);
    assert forall i :: 0 <= i < |s| ==> NormalizeItems(StringItems(s))[i] == StringItems(s)[i];
  }

  lemma {:induction false} StringsRead(s: seq<string>)
    ensures Structs.Strings(StringItems(s)) == Some(s)
  {
    if s != [] {
      StringsRead(s[1..]);
      assert StringItems(s)[1..] == StringItems(s[1..]);
      assert s == [s[0]] + s[1..];
    }
  }

  lemma {:induction false} EntitlementsRead(es: seq<Entitlement>)
    ensures EntitlementsFrom(StringItems(EntitlementNames(es))) == Some(es)
  {
    if es != [] {
      hide EntitlementNamed, EntitlementName;
      EntitlementsRead(es[1..]);
      NamesRead(Pro, es[0]);
      assert StringItems(EntitlementNames(es))[1..] == StringItems(EntitlementNames(es[1..]));
      assert es == [es[0]] + es[1..];
    }
  }

  function DeviceFields(d: DevicePolicy): seq<Field> {
    [Field(MAX_KEY, Num(d.maxDevices)), Field(BOUND_KEY, Arr(StringItems(d.boundHwids)))]
  }

  lemma DeviceKeysDiffer(d: DevicePolicy)
    ensures DistinctKeys(DeviceFields(d))
  {
    assert MAX_KEY[0] != BOUND_KEY[0];
  }

  lemma DevicesRead(d: DevicePolicy)
    ensures DevicesFrom(Normalize(DevicesJson(d))) == Some(d)
  {
    hide Sort, Structs.Find;
    var f := DeviceFields(d);
    DeviceKeysDiffer(d);
    StringItemsRead(d.boundHwids);
    Structs.MemberFound(f, 0);
    Structs.MemberFound(f, 1);
    assert Normalize(DevicesJson(d)) == Obj(Sort(NormalizeFields(f)));
  }

  lemma MetadataFound(p: Payload)
    ensures MetadataFrom(Structs.Find(SortedMembers(p), METADATA_KEY)) == Some(p.metadata)
  {
    hide Sort, NormalizeFields;
    var f := PayloadFields(p);
    KeysDiffer(p);
    if p.metadata.Some? {
      Structs.MemberFound(f, 10);
    } else {
      Structs.FindMeaning(f, METADATA_KEY);
      MetadataAbsent(p);
      Structs.FindInNormal(f, METADATA_KEY);
    }
  }

  lemma MetadataAbsent(p: Payload)
    requires p.metadata.None?
    ensures forall f :: f in PayloadFields(p) ==> f.key != METADATA_KEY
  {
    var q := p.(metadata := Some(""));
    KeysDiffer(q);
    assert PayloadFields(q) == PayloadFields(p) + [Field(METADATA_KEY, Str(""))];
    assert forall i :: 0 <= i < |PayloadFields(p)| ==> PayloadFields(q)[i] == PayloadFields(p)[i];
  }

  lemma PayloadMember(p: Payload, i: nat)
    requires i < |PayloadFields(p)|
    ensures var f := PayloadFields(p);
            Structs.Find(Sort(NormalizeFields(f)), f[i].key) == Structs.Once(Normalize(f[i].value))
  {
    hide Sort, NormalizeFields, PayloadFields;
    KeysDiffer(p);
    Structs.MemberFound(PayloadFields(p), i);
  }

  /** The sorted members of the payload, as a reader sees them. */
  function SortedMembers(p: Payload): seq<Field> {
    Sort(NormalizeFields(PayloadFields(p)))
  }

  lemma ScalarMembers(p: Payload)
    ensures var s := SortedMembers(p);
            && Structs.Find(s, VERSION_KEY) == Structs.Once(Num(p.licenseVersion))
            && Structs.Find(s, ID_KEY) == Structs.Once(Str(p.licenseId))
            && Structs.Find(s, PRODUCT_KEY) == Structs.Once(Str(p.product))
            && Structs.Find(s, KEY_ID_KEY) == Structs.Once(Str(p.keyId))
            && Structs.Find(s, ISSUED_KEY) == Structs.Once(Num(p.issuedAt))
            && Structs.Find(s, NOT_BEFORE_KEY) == Structs.Once(Num(p.notBefore))
            && Structs.Find(s, EXPIRES_KEY) == Structs.Once(Num(p.expiresAt))
  {
    hide Sort, NormalizeFields, Structs.Find;
    PayloadMember(p, 0);
    PayloadMember(p, 1);
    PayloadMember(p, 2);
    PayloadMember(p, 3);
    PayloadMember(p, 4);
    PayloadMember(p, 5);
    PayloadMember(p, 6);
  }

  lemma CompoundMembers(p: Payload)
    ensures var s := SortedMembers(p);
            && Structs.Find(s, TIER_KEY) == Structs.Once(Str(TierName(p.tier)))
            && Structs.Find(s, ENTITLEMENTS_KEY) == Structs.Once(Arr(StringItems(EntitlementNames(p.entitlements))))
            && Structs.Find(s, DEVICES_KEY) == Structs.Once(Normalize(DevicesJson(p.devices)))
  {
    hide Sort, NormalizeFields, Structs.Find, TierName, EntitlementNames, DevicesJson;
    PayloadMember(p, 7);
    PayloadMember(p, 8);
    PayloadMember(p, 9);
    StringItemsRead(EntitlementNames(p.entitlements));
  }

  lemma PayloadRead(p: Payload)
    ensures FromJson(Normalize(ToJson(p))) == Some(p)
  {
    hide Sort, Structs.Find, PayloadFields, TierNamed, TierName, EntitlementsFrom, EntitlementNames, DevicesFrom;
    hide DevicesJson, MetadataFrom, StringItems;
    assert Normalize(ToJson(p)) == Obj(SortedMembers(p));
    hide SortedMembers, Normalize, ToJson;
    ScalarMembers(p);
    CompoundMembers(p);
    MetadataFound(p);
    NamesRead(p.tier, CoreTunnel);
    EntitlementsRead(p.entitlements);
    DevicesRead(p.devices);
  }

  /** Parsing the signed text gives back exactly the payload. */
  lemma SignedTextReads(p: Payload)
    ensures FromText(SignedText(p)) == Some(p)
  {
    ParseCanon(ToJson(p));
    PayloadRead(p);
  }

  /** Different payloads have different signed texts. */
  lemma SignedTextInjective(p: Payload, q: Payload)
    requires SignedText(p) == SignedText(q)
    ensures p == q
  {
    SignedTextReads(p);
    SignedTextReads(q);
  }
}
