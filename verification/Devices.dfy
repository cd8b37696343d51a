/** Which devices a licence admits, told by their digests however these are spelt. */
module Devices {
  import opened Wrappers
  import opened Text
  import opened License
  import opened Authority
  import opened Keys
  import opened Crypto
  import opened Octets

  // ----- Spellings

  /** `s` is `t` with any of its small letters made capital. */
  predicate CaseOf(s: string, t: string) {
    |s| == |t| && forall i :: 0 <= i < |s| ==> s[i] == t[i] || ('a' <= t[i] <= 'z' && s[i] as int + 32 == t[i] as int)
  }

  predicate AllSpace(s: string) {
    forall i :: 0 <= i < |s| ==> IsSpace(s[i])
  }

  /** Bare, with a mark or with the prefix, in either case, with white space around it. */
  predicate SpellingIs(s: string, digest: string, left: nat, right: nat) {
    && HexDigits(digest) && left <= right <= |s| && AllSpace(s[..left]) && AllSpace(s[right..])
    && var body := s[left..right];
    CaseOf(body, digest) || CaseOf(body, "0x" + digest) || CaseOf(body, "hwid-sha256-" + digest)
  }

  ghost predicate Spelling(s: string, digest: string) {
    exists left, right :: SpellingIs(s, digest, left, right)
  }

  lemma {:induction false} TrimStartPadded(left: string, body: string)
    requires AllSpace(left) && body != "" && !IsSpace(body[0])
    ensures TrimStart(left + body) == body
  {
    if left == "" {
      assert left + body == body;
    } else {
      TrimStartPadded(left[1..], body);
      assert (left + body)[1..] == left[1..] + body && (left + body)[0] == left[0];
    }
  }

  lemma {:induction false} TrimEndPadded(body: string, right: string)
    requires AllSpace(right) && body != "" && !IsSpace(body[|body| - 1])
    ensures TrimEnd(body + right) == body
  {
    if right == "" {
      assert body + right == body;
    } else {
      TrimEndPadded(body, right[..|right| - 1]);
      var s := body + right;
      assert s[..|s| - 1] == body + right[..|right| - 1] && s[|s| - 1] == right[|right| - 1];
    }
  }

  lemma TrimPadded(left: string, body: string, right: string)
    requires AllSpace(left) && AllSpace(right) && body != "" && !IsSpace(body[0]) && !IsSpace(body[|body| - 1])
    ensures Trim(left + body + right) == body
  {
    assert left + body + right == left + (body + right);
    assert (body + right)[0] == body[0];
    TrimStartPadded(left, body + right);
    TrimEndPadded(body, right);
  }

  lemma LowerOfCase(s: string, t: string)
    requires CaseOf(s, t) && forall i :: 0 <= i < |t| ==> !('A' <= t[i] <= 'Z')
    ensures ToLower(s) == t
  {
  }

  predicate Letterlike(t: string) {
    forall i :: 0 <= i < |t| ==> '0' <= t[i] <= '9' || 'a' <= t[i] <= 'z' || t[i] == '-'
  }

  lemma CaseIsTight(s: string, t: string)
    requires CaseOf(s, t) && Letterlike(t)
    ensures s != "" ==> !IsSpace(s[0]) && !IsSpace(s[|s| - 1])
  {
  }

  lemma Letters(digest: string)
    requires HexDigits(digest)
    ensures Letterlike(digest) && Letterlike("0x" + digest) && Letterlike("hwid-sha256-" + digest)
  {
    var m, p := "0x" + digest, "hwid-sha256-" + digest;
    assert forall i :: 2 <= i < |m| ==> m[i] == digest[i - 2];
    assert forall i :: 12 <= i < |p| ==> p[i] == digest[i - 12];
  }

  /** Text that is trimmed and small already is normalised as it stands. */
  lemma NormalizeByLower(s: string, t: string)
    requires ToLower(Trim(s)) == ToLower(Trim(t))
    ensures NormalizeHwid(s) == NormalizeHwid(t)
  {
  }

  lemma SpellingOfText(left: string, body: string, right: string, t: string)
    requires AllSpace(left) && AllSpace(right) && CaseOf(body, t) && Letterlike(t) && t != ""
    ensures NormalizeHwid(left + body + right) == NormalizeHwid(t)
  {
    hide NormalizeHwid, IsSpace;
    CaseIsTight(body, t);
    CaseIsSelf(t);
    CaseIsTight(t, t);
    TrimPadded(left, body, right);
    TrimPadded("", t, "");
    assert "" + t + "" == t;
    LowerOfCase(body, t);
    LowerOfCase(t, t);
    NormalizeByLower(left + body + right, t);
  }

  lemma CaseIsSelf(t: string)
    ensures CaseOf(t, t)
  {
  }

  /** Every spelling of a digest has the same normal form. */
  lemma SpellingNormal(s: string, digest: string)
    requires Spelling(s, digest)
    ensures NormalizeHwid(s) == "hwid-sha256-" + digest
  {
    hide NormalizeHwid, HexDigits, AllSpace, CaseOf, Letterlike;
    var left: nat, right: nat :| SpellingIs(s, digest, left, right);
    var body := s[left..right];
    assert s == s[..left] + body + s[right..];
    Letters(digest);
    SpellingsAgree(digest);
    var t := if CaseOf(body, digest) then digest
             else if CaseOf(body, "0x" + digest) then "0x" + digest else "hwid-sha256-" + digest;
    DigestNotEmpty(digest);
    SpellingOfText(s[..left], body, s[right..], t);
  }

  lemma DigestNotEmpty(digest: string)
    requires HexDigits(digest)
    ensures digest != ""
  {
  }

  // ----- Devices

  predicate Timely(p: Payload, o: Options) {
    p.notBefore - Skew(o) <= o.now <= p.expiresAt + Skew(o)
  }

  lemma PrefixedSame(a: string, b: string)
    ensures "hwid-sha256-" + a == "hwid-sha256-" + b <==> a == b
  {
    if "hwid-sha256-" + a == "hwid-sha256-" + b {
      assert a == ("hwid-sha256-" + a)[12..] && b == ("hwid-sha256-" + b)[12..];
    }
  }

  /** A timely licence bound to some digests refuses a device exactly when its digest is none of them. */
  lemma BoundExactly(p: Payload, o: Options, digests: seq<string>, own: string)
    requires Timely(p, o) && digests != [] && |digests| == |p.devices.boundHwids|
    requires forall i :: 0 <= i < |digests| ==> Spelling(p.devices.boundHwids[i], digests[i])
    requires o.hwid.Some? && Spelling(o.hwid.value, own)
    ensures PolicyError(p, o) == Some(DeviceMismatch) <==> own !in digests
  {
    hide NormalizeHwid, Spelling;
    PolicyMeaning(p, o);
    SpellingNormal(o.hwid.value, own);
    forall i | 0 <= i < |digests|
      ensures NormalizeHwid(p.devices.boundHwids[i]) == NormalizeHwid(o.hwid.value) <==> digests[i] == own
    {
      SpellingNormal(p.devices.boundHwids[i], digests[i]);
      PrefixedSame(digests[i], own);
    }
    if own in digests {
      var i :| 0 <= i < |digests| && digests[i] == own;
      assert p.devices.boundHwids[i] in p.devices.boundHwids;
    }
  }

  /** Without a device id every bound licence is refused, and an unbound one never for the device. */
  lemma NoDevice(p: Payload, o: Options)
    requires Timely(p, o)
    ensures p.devices.boundHwids != [] && o.hwid.None? ==> PolicyError(p, o) == Some(DeviceMismatch)
    ensures p.devices.boundHwids == [] ==> PolicyError(p, o) != Some(DeviceMismatch)
  {
    PolicyMeaning(p, o);
  }

  function BoundTo(p: Payload, hwids: seq<string>): Payload {
    p.(devices := p.devices.(boundHwids := hwids))
  }

  /** Two lists together admit the devices that either admits. */
  lemma EitherList(p: Payload, o: Options, xs: seq<string>, ys: seq<string>)
    requires Timely(p, o) && xs != [] && ys != []
    ensures PolicyError(BoundTo(p, xs + ys), o) == Some(DeviceMismatch)
            <==> PolicyError(BoundTo(p, xs), o) == Some(DeviceMismatch)
                 && PolicyError(BoundTo(p, ys), o) == Some(DeviceMismatch)
  {
    hide NormalizeHwid;
    PolicyMeaning(BoundTo(p, xs), o);
    PolicyMeaning(BoundTo(p, ys), o);
    PolicyMeaning(BoundTo(p, xs + ys), o);
    assert forall h :: h in xs + ys <==> h in xs || h in ys;
  }

  /** What the verifier answers for a licence issued at any point of a history, by the digests alone. */
  lemma VerifiedOnDevice(
    c: Suite, master: Bytes, born: int, before: seq<Rotation>, p: Payload, o: Options,
    digests: seq<string>, own: string)
    requires SchemaError(p).None?
    requires p.keyId == RotatedBy(c, Generated(c, master, born), before).activeKeyId
    requires Timely(p, o) && digests != [] && |digests| == |p.devices.boundHwids|
    requires forall i :: 0 <= i < |digests| ==> Spelling(p.devices.boundHwids[i], digests[i])
    requires o.hwid.Some? && Spelling(o.hwid.value, own)
    ensures var k := RotatedBy(c, Generated(c, master, born), before);
            && Issue(c, k, p).Ok?
            && Verify(c, Issue(c, k, p).value, Export(k), o)
               == if own !in digests then Err(DeviceMismatch)
                  else if p.licenseId in o.revoked then Err(Revoked)
                  else Ok(p)
  {
    hide SchemaError, RotatedBy, Generated, Verify, Issue, Spelling, PolicyError, Run, DeviceAllowed;
    IssuedIsAccepted(c, master, born, before, p, o);
    BoundExactly(p, o, digests, own);
    PolicyMeaning(p, o);
  }
}
