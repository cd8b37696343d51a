/** The texts that are signed and hashed, member by member in the order their names have by code point. */
module SignedForms {
  import opened Wrappers
  import opened Json
  import opened Canonical
  import opened License
  import Audit
  import Collation
  import Octets
  import Utf8

  // ----- The order of names

  /** Lexicographic by code point. */
  predicate CodePointsLe(a: string, b: string) {
    a == "" || (b != "" && (a[0] < b[0] || (a[0] == b[0] && CodePointsLe(a[1..], b[1..]))))
  }

  /** Sorting names by their UTF-8 bytes is sorting them by code points. */
  lemma {:induction false} KeyLeExactly(a: string, b: string)
    ensures KeyLe(a, b) <==> CodePointsLe(a, b)
  {
    hide Utf8.EncodeChar;
    if a != "" && b != "" {
      hide Octets.LexLe;
      var x, y := Utf8.Encode(a[1..]), Utf8.Encode(b[1..]);
      if a[0] == b[0] {
        KeyLeExactly(a[1..], b[1..]);
        Collation.LexStrip(Utf8.EncodeChar(a[0]), x, y);
      } else if a[0] < b[0] {
        Collation.Utf8Orders(a[0], b[0], x, y);
      } else {
        Collation.Utf8Orders(b[0], a[0], y, x);
      }
    }
  }

  /** The first difference decides. */
  lemma {:induction false} Before(a: string, b: string, k: nat)
    requires k < |a| && k < |b| && a[k] < b[k] && forall i :: 0 <= i < k ==> a[i] == b[i]
    ensures CodePointsLe(a, b) && !CodePointsLe(b, a)
  {
    if k > 0 { Before(a[1..], b[1..], k - 1); }
  }

  predicate Below(a: string, b: string) {
    KeyLe(a, b) && a != b
  }

  lemma KeyBefore(a: string, b: string, k: nat)
    requires k < |a| && k < |b| && a[k] < b[k] && forall i :: 0 <= i < k ==> a[i] == b[i]
    ensures Below(a, b)
  {
    hide KeyLe, CodePointsLe;
    Before(a, b, k);
    KeyLeExactly(a, b);
  }

  predicate Neighbours(fields: seq<Field>) {
    forall i :: 0 < i < |fields| ==> Below(fields[i - 1].key, fields[i].key)
  }

  lemma NeighboursTail(fields: seq<Field>)
    requires Neighbours(fields) && fields != []
    ensures Neighbours(fields[1..])
  {
    hide Below;
    var t := fields[1..];
    forall i | 0 < i < |t|
      ensures Below(t[i - 1].key, t[i].key)
    {
      assert t[i - 1] == fields[i + 1 - 1] && t[i] == fields[i + 1];
    }
  }

  lemma {:induction false} SortedByNeighbours(fields: seq<Field>)
    requires Neighbours(fields)
    ensures StrictlySorted(fields)
  {
    hide KeyLe;
    if |fields| > 1 {
      NeighboursTail(fields);
      SortedByNeighbours(fields[1..]);
      var f, g := fields[0], fields[1];
      assert KeyLe(f.key, g.key) && f.key != g.key;
      forall j | 1 <= j < |fields|
        ensures KeyLe(f.key, fields[j].key) && f.key != fields[j].key
      {
        assert j > 1 ==> KeyLe(fields[1..][0].key, fields[1..][j - 1].key);
        KeyOrder(f.key, g.key, fields[j].key);
        if f.key == fields[j].key { KeyAntisymmetric(f.key, g.key); }
      }
      forall i, j | 1 <= i < j < |fields|
        ensures KeyLe(fields[i].key, fields[j].key) && fields[i].key != fields[j].key
      {
        assert KeyLe(fields[1..][i - 1].key, fields[1..][j - 1].key);
      }
    }
  }

  lemma SortIs(fields: seq<Field>, sorted: seq<Field>)
    requires DistinctKeys(fields) && Neighbours(sorted) && SameEntries(fields, sorted)
    ensures Sort(fields) == sorted
  {
    hide Neighbours, Below, Sort;
    SortedByNeighbours(sorted);
    SortEntries(fields);
    SortSorted(fields);
    SortedUnique(Sort(fields), sorted);
  }

  // ----- What an audit hash covers

  lemma HashedNeighbours(e: Audit.Entry)
    ensures Neighbours([ Field("action", Str(e.action)), Field("detail", Str(e.detail)),
                         Field("prev_hash", Str(e.prevHash)), Field("seq", Num(e.number)), Field("ts", Num(e.ts)) ])
  {
    hide Below;
    KeyBefore("action", "detail", 0);
    KeyBefore("detail", "prev_hash", 0);
    KeyBefore("prev_hash", "seq", 0);
    KeyBefore("seq", "ts", 0);
  }

  /** The hash of an entry covers these five members in this order. */
  lemma PreimageExactly(e: Audit.Entry)
    ensures Audit.Preimage(e)
            == Utf8.Encode(Print(Obj([ Field("action", Str(e.action)), Field("detail", Str(e.detail)),
                                       Field("prev_hash", Str(e.prevHash)), Field("seq", Num(e.number)),
                                       Field("ts", Num(e.ts)) ])))
  {
    hide Neighbours, Sort, Print, Utf8.Encode;
    var sorted := [ Field("action", Str(e.action)), Field("detail", Str(e.detail)),
                    Field("prev_hash", Str(e.prevHash)), Field("seq", Num(e.number)), Field("ts", Num(e.ts)) ];
    var f := Audit.HashedFields(e);
    assert NormalizeFields(f) == f;
    Audit.KeysDiffer(e);
    HashedNeighbours(e);
    assert f[0] == sorted[3] && f[1] == sorted[4] && f[2] == sorted[0] && f[3] == sorted[1] && f[4] == sorted[2];
    SortIs(f, sorted);
  }

  // ----- What a licence signature covers

  lemma DeviceForm(d: DevicePolicy)
    ensures Normalize(DevicesJson(d))
            == Obj([Field("bound_hwids", Arr(StringItems(d.boundHwids))), Field("max_devices", Num(d.maxDevices))])
  {
    hide Neighbours, Sort, StringItems, Below, NormalizeItems;
    var bound, most := Field("bound_hwids", Arr(StringItems(d.boundHwids))), Field("max_devices", Num(d.maxDevices));
    var f := DeviceFields(d);
    StringItemsRead(d.boundHwids);
    assert NormalizeFields(f) == f == [most, bound];
    DeviceKeysDiffer(d);
    KeyBefore("bound_hwids", "max_devices", 0);
    PairSorted(bound, most);
    SortIs(f, [bound, most]);
  }

  lemma PairSorted(f: Field, g: Field)
    requires Below(f.key, g.key)
    ensures Neighbours([f, g])
  {
  }

  /** The members of a signed payload, in order; the reference stands between version and start when there is one. */
  function SignedFields(p: Payload): seq<Field> {
    [ Field("device_policy", Obj([ Field("bound_hwids", Arr(StringItems(p.devices.boundHwids))),
                                   Field("max_devices", Num(p.devices.maxDevices)) ])),
      Field("entitlements", Arr(StringItems(EntitlementNames(p.entitlements)))),
      Field("expires_at", Num(p.expiresAt)),
      Field("issued_at", Num(p.issuedAt)),
      Field("key_id", Str(p.keyId)),
      Field("license_id", Str(p.licenseId)),
      Field("license_tier", Str(TierName(p.tier))),
      Field("license_version", Num(p.licenseVersion)) ]
    + (if p.metadata.Some? then [Field("metadata", Str(p.metadata.value))] else [])
    + [Field("not_before", Num(p.notBefore)), Field("product", Str(p.product))]
  }

  lemma SignedKeyOrder()
    ensures Below("device_policy", "entitlements") && Below("entitlements", "expires_at")
    ensures Below("expires_at", "issued_at") && Below("issued_at", "key_id") && Below("key_id", "license_id")
    ensures Below("license_id", "license_tier") && Below("license_tier", "license_version")
    ensures Below("license_version", "metadata") && Below("metadata", "not_before")
    ensures Below("license_version", "not_before") && Below("not_before", "product")
  {
    hide Below;
    KeyBefore("device_policy", "entitlements", 0);
    KeyBefore("entitlements", "expires_at", 1);
    KeyBefore("expires_at", "issued_at", 0);
    KeyBefore("issued_at", "key_id", 0);
    KeyBefore("key_id", "license_id", 0);
    KeyBefore("license_id", "license_tier", 8);
    KeyBefore("license_tier", "license_version", 8);
    KeyBefore("license_version", "metadata", 0);
    KeyBefore("metadata", "not_before", 0);
    KeyBefore("license_version", "not_before", 0);
    KeyBefore("not_before", "product", 0);
  }

  lemma SignedNeighbours(p: Payload)
    ensures Neighbours(SignedFields(p))
  {
    hide Below;
    SignedKeyOrder();
  }

  lemma SignedEntries(p: Payload)
    ensures SameEntries(NormalizeFields(PayloadFields(p)), SignedFields(p))
  {
    hide Sort, DevicesJson, Normalize, StringItems, EntitlementNames, TierName;
    var x, y := NormalizeFields(PayloadFields(p)), SignedFields(p);
    NormalMembers(p);
    var n := |x|;
    assert n == |y|;
    assert x[0] == y[7] && x[1] == y[5] && x[3] == y[4] && x[4] == y[3] && x[6] == y[2] && x[7] == y[6];
    assert x[8] == y[1] && x[9] == y[0] && x[5] == y[n - 2] && x[2] == y[n - 1];
    assert n == 11 ==> x[10] == y[8];
  }

  lemma NormalScalar(v: Json)
    requires v.Num? || v.Str?
    ensures Normalize(v) == v
  {
  }

  lemma NormalNames(es: seq<Entitlement>)
    ensures Normalize(Arr(StringItems(EntitlementNames(es)))) == Arr(StringItems(EntitlementNames(es)))
  {
    hide StringItems, EntitlementNames;
    StringItemsRead(EntitlementNames(es));
  }

  lemma NormalMembers(p: Payload)
    ensures var x, f := NormalizeFields(PayloadFields(p)), PayloadFields(p);
            && |x| == |f| && x[9] == SignedFields(p)[0]
            && forall i :: 0 <= i < |x| && i != 9 ==> x[i] == f[i]
  {
    hide NormalizeFields, Normalize, DevicesJson, StringItems, EntitlementNames, TierName;
    var f := PayloadFields(p);
    DeviceForm(p.devices);
    NormalNames(p.entitlements);
    forall i | 0 <= i < |f| && i != 9
      ensures NormalizeFields(f)[i] == f[i]
    {
      if i != 8 { NormalScalar(f[i].value); }
    }
  }

  /** A signature covers the members of the payload in this order. */
  lemma SignedTextExactly(p: Payload)
    ensures SignedText(p) == Print(Obj(SignedFields(p)))
  {
    hide Neighbours, Below, Sort, Print;
    var x, y := NormalizeFields(PayloadFields(p)), SignedFields(p);
    License.KeysDiffer(p);
    NormalizeKeepsKeys(PayloadFields(p));
    SignedNeighbours(p);
    SignedEntries(p);
    SortIs(x, y);
  }
}
