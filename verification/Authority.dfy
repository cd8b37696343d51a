/** Issuing and verifying licences, and what verification can accept over whole histories of the authority. */
module Authority {
  import opened Octets
  import opened Wrappers
  import opened Crypto
  import opened Keys
  import opened License
  import opened Words
  import Envelope
  import Text
  import Utf8

  // ----- Issuing

  /** The bytes that `sign` and `verify_signature` cover. */
  function SignedBytes(p: Payload): Bytes {
    Utf8.Encode(SignedText(p))
  }

  /** `issue_license`. */
  function Issue(c: Suite, k: Keyring, p: Payload): Result<string, Error> {
    var problem := SchemaError(p);
    var active := ActiveKeyId(k);
    if problem.Some? then Err(problem.value)
    else if p.keyId != (if active.Some? then active.value else "") then Err(InvalidField("key_id"))
    else if active.None? then Err(UntrustedKey("no active signing key"))
    else
      var signature := c.sign(k.signingKey, SignedBytes(p));
      Ok(Envelope.Encode(Envelope.Parts(SignedText(p), signature, c.publicKey(k.signingKey))))
  }

  /** A coherent store issues exactly the well-formed payloads that name its active key. */
  lemma IssueExactly(c: Suite, k: Keyring, p: Payload)
    requires Coherent(c, k)
    ensures Issue(c, k, p).Ok? <==> SchemaError(p).None? && p.keyId == k.activeKeyId
    ensures SchemaError(p).None? && p.keyId != k.activeKeyId ==> Issue(c, k, p) == Err(InvalidField("key_id"))
    ensures SchemaError(p).Some? ==> Issue(c, k, p) == Err(SchemaError(p).value)
  {
    hide SchemaError, SignedBytes, SignedText, Envelope.Encode;
  }

  // ----- Verifying

  datatype Options = Options(now: i64, skew: i64, hwid: Option<string>, revoked: set<string>)

  /** `saturating_add` and, with a negated step, `saturating_sub`. */
  function Saturate(x: int): i64 {
    if x < I64_MIN then I64_MIN else if x >= I64_END then I64_END - 1 else x
  }

  function Skew(o: Options): int {
    if o.skew < 0 then 0 else o.skew
  }

  predicate TooEarly(p: Payload, o: Options) {
    o.now < Saturate(p.notBefore - Skew(o))
  }

  predicate TooLate(p: Payload, o: Options) {
    o.now > Saturate(p.expiresAt + Skew(o))
  }

  predicate DeviceAllowed(p: Payload, o: Options) {
    p.devices.boundHwids == []
    || (o.hwid.Some? && exists h :: h in p.devices.boundHwids && NormalizeHwid(h) == NormalizeHwid(o.hwid.value))
  }

  /** Steps 6 to 9, which depend on the payload and the options only. */
  function PolicyError(p: Payload, o: Options): Option<Error> {
    if TooEarly(p, o) then Some(NotYetValid(p.notBefore))
    else if TooLate(p, o) then Some(Expired(p.expiresAt))
    else if !DeviceAllowed(p, o) then Some(DeviceMismatch)
    else if p.licenseId in o.revoked then Some(Revoked)
    else None
  }

  /** `verify_license`: the checks in the order they stand, the first failure decides. */
  function Verify(c: Suite, envelope: string, trusted: Bundle, o: Options): Result<Payload, Error> {
    match Envelope.Decode(envelope)
    case None => Err(Malformed)
    case Some(parts) =>
      match FromText(parts.payload)
      case None => Err(Malformed)
      case Some(p) =>
        var problem := SchemaError(p);
        if problem.Some? then Err(problem.value)
        else if |parts.signature| != 64 then Err(Malformed)
        else if |parts.publicKey| != 32 || !c.isPoint(parts.publicKey) then Err(Malformed)
        else if KeyId(c, parts.publicKey) != p.keyId then Err(Malformed)
        else if !IsTrusted(trusted, p.keyId) then Err(UntrustedKey(p.keyId))
        else if !c.check(parts.publicKey, Utf8.Encode(parts.payload), parts.signature) then Err(BadSignature)
        else
          var refusal := PolicyError(p, o);
          if refusal.Some? then Err(refusal.value) else Ok(p)
  }

  /** Saturating at the ends of 64 bits never changes the time decision. */
  lemma WindowIsExact(p: Payload, o: Options)
    ensures !TooEarly(p, o) && !TooLate(p, o) <==> p.notBefore - Skew(o) <= o.now <= p.expiresAt + Skew(o)
  {
  }

  // ----- Histories of the authority

  datatype Op =
    | Generate(newKey: Bytes, now: int)
    | Rotate(newKey: Bytes, now: int, retireOld: bool)
    | IssueOne(payload: Payload)
    | ExportBundle

  /**
   The keystore, every bundle exported so far, every (public key, message) signed so far and
   every payload issued so far with the key it was issued under.
   */
  datatype World = World(
    store: Option<Keyring>,
    bundles: set<Bundle>,
    signed: set<(Bytes, Bytes)>,
    issued: set<(Bytes, Payload)>
  )

  const START := World(None, {}, {}, {})

  function Step(c: Suite, w: World, op: Op): World {
    match op
    case Generate(newKey, now) => w.(store := Some(Generated(c, newKey, now)))
    case Rotate(newKey, now, retireOld) =>
      if w.store.None? then w else w.(store := Some(Rotated(c, w.store.value, newKey, now, retireOld)))
    case ExportBundle =>
      if w.store.None? then w else w.(bundles := w.bundles + {Export(w.store.value)})
    case IssueOne(p) =>
      if w.store.None? || Issue(c, w.store.value, p).Err? then w
      else
        var publicKey := c.publicKey(w.store.value.signingKey);
        w.(signed := w.signed + {(publicKey, SignedBytes(p))}, issued := w.issued + {(publicKey, p)})
  }

  function Run(c: Suite, ops: seq<Op>): World {
    if ops == [] then START else Step(c, Run(c, ops[..|ops| - 1]), ops[|ops| - 1])
  }

  /** What every history keeps. */
  ghost predicate Inv(c: Suite, w: World) {
    && (w.store.Some? ==> Coherent(c, w.store.value))
    && (forall b :: b in w.bundles ==> Filed(c, b.keys))
    && (forall s :: s in w.signed ==> exists p :: (s.0, p) in w.issued && SignedBytes(p) == s.1)
    && (forall i :: i in w.issued ==> SchemaError(i.1).None? && i.1.keyId == KeyId(c, i.0))
  }

  lemma StepKeepsInv(c: Suite, w: World, op: Op)
    requires Inv(c, w)
    ensures Inv(c, Step(c, w, op))
  {
    hide SchemaError, SignedBytes, KeyId, Envelope.Encode;
    match op
    case Generate(newKey, now) => GeneratedCoherent(c, newKey, now);
    case Rotate(newKey, now, retireOld) =>
      if w.store.Some? { RotatedCoherent(c, w.store.value, newKey, now, retireOld); }
    case ExportBundle =>
    case IssueOne(p) =>
      if w.store.Some? && Issue(c, w.store.value, p).Ok? {
        IssuedUnderActiveKey(c, w.store.value, p);
        IssueKeepsInv(c, w, p);
      }
  }

  lemma IssuedUnderActiveKey(c: Suite, k: Keyring, p: Payload)
    requires Coherent(c, k) && Issue(c, k, p).Ok?
    ensures SchemaError(p).None? && p.keyId == k.activeKeyId == KeyId(c, c.publicKey(k.signingKey))
  {
  }

  lemma IssueKeepsInv(c: Suite, w: World, p: Payload)
    requires Inv(c, w) && w.store.Some? && Issue(c, w.store.value, p).Ok?
    requires SchemaError(p).None? && p.keyId == KeyId(c, c.publicKey(w.store.value.signingKey))
    ensures Inv(c, Step(c, w, IssueOne(p)))
  {
    hide SchemaError, SignedBytes, KeyId, Issue, Coherent, Filed;
    var u := Step(c, w, IssueOne(p));
    forall s | s in u.signed
      ensures exists q :: (s.0, q) in u.issued && SignedBytes(q) == s.1
    {
      if s in w.signed {
        var q :| (s.0, q) in w.issued && SignedBytes(q) == s.1;
        assert (s.0, q) in u.issued;
      } else {
        assert (s.0, p) in u.issued;
      }
    }
  }

  lemma {:induction false} RunKeepsInv(c: Suite, ops: seq<Op>)
    ensures Inv(c, Run(c, ops))
  {
    if ops != [] {
      RunKeepsInv(c, ops[..|ops| - 1]);
      StepKeepsInv(c, Run(c, ops[..|ops| - 1]), ops[|ops| - 1]);
    }
  }

  /** A signature that checks under a key over a message that key was never used on. */
  predicate Forged(c: Suite, w: World, parts: Envelope.Parts) {
    c.check(parts.publicKey, Utf8.Encode(parts.payload), parts.signature)
    && (parts.publicKey, Utf8.Encode(parts.payload)) !in w.signed
  }

  predicate KeyIdsCollide(c: Suite, k1: Bytes, k2: Bytes) {
    k1 != k2 && KeyId(c, k1) == KeyId(c, k2)
  }

  /**
   Over every history and for every text whatsoever: what verification accepts against an exported
   bundle is a payload that was issued, in the very text that was signed, under a key that is Active
   in that bundle. Anything else
   accepted carries a forged signature under a key of the bundle, or a second key with the same id.
   */
  lemma OnlyIssuedAccepted(c: Suite, ops: seq<Op>, trusted: Bundle, envelope: string, o: Options)
    requires trusted in Run(c, ops).bundles && Verify(c, envelope, trusted, o).Ok?
    ensures var p, parts := Verify(c, envelope, trusted, o).value, Envelope.Decode(envelope).value;
            && p.keyId in trusted.keys && trusted.keys[p.keyId].status == Active
            && var key := trusted.keys[p.keyId].publicKey;
            || (parts.publicKey == key && (key, p) in Run(c, ops).issued && parts.payload == SignedText(p))
            || (parts.publicKey == key && Forged(c, Run(c, ops), parts))
            || KeyIdsCollide(c, parts.publicKey, key)
  {
    hide SchemaError, PolicyError, FromText, SignedText, KeyId, Envelope.Decode;
    var w := Run(c, ops);
    RunKeepsInv(c, ops);
    var parts := Envelope.Decode(envelope).value;
    var p := FromText(parts.payload).value;
    var key := trusted.keys[p.keyId].publicKey;
    if parts.publicKey == key && !Forged(c, w, parts) {
      var q :| (key, q) in w.issued && SignedBytes(q) == Utf8.Encode(parts.payload);
      Utf8.EncodeInjective(SignedText(q), parts.payload);
      SignedTextReads(q);
    }
  }

  /** What later rotations leave of a licence: the exact outcome of verifying it, error included. */
  lemma RotationDecides(
    c: Suite, master: Bytes, born: int, before: seq<Rotation>, p: Payload, after: seq<Rotation>, o: Options)
    requires var k := RotatedBy(c, Generated(c, master, born), before);
             Issue(c, k, p).Ok? && AllFresh(c, k, after)
    ensures var k := RotatedBy(c, Generated(c, master, born), before);
            Verify(c, Issue(c, k, p).value, Export(RotatedBy(c, k, after)), o) ==
            if AnyHard(after) then Err(UntrustedKey(p.keyId))
            else if PolicyError(p, o).Some? then Err(PolicyError(p, o).value)
            else Ok(p)
  {
    hide SchemaError, PolicyError, SignedText, FromText, Envelope.Decode, Envelope.Encode, KeyId, RotatedBy, AnyHard;
    var k := RotatedBy(c, Generated(c, master, born), before);
    GeneratedCoherent(c, master, born);
    HistoryCoherent(c, Generated(c, master, born), before);
    IssuedUnderActiveKey(c, k, p);
    RecordAfterHistory(c, k, after, p.keyId);
    SignedTextReads(p);
    Envelope.DecodeEncode(
      Envelope.Parts(SignedText(p), c.sign(k.signingKey, SignedBytes(p)), c.publicKey(k.signingKey)));
  }

  /** A history of rotations as operations of the authority. */
  function AsOps(history: seq<Rotation>): seq<Op> {
    if history == [] then []
    else
      var r := history[|history| - 1];
      AsOps(history[..|history| - 1]) + [Rotate(r.newKey, r.now, r.retireOld)]
  }

  lemma {:induction false} RotatedSnoc(c: Suite, k: Keyring, history: seq<Rotation>, r: Rotation)
    ensures RotatedBy(c, k, history + [r]) == Rotated(c, RotatedBy(c, k, history), r.newKey, r.now, r.retireOld)
    decreases |history|
  {
    hide Rotated;
    if history == [] {
      assert [] + [r] == [r] && [r][1..] == [];
    } else {
      var q := history[0];
      RotatedSnoc(c, Rotated(c, k, q.newKey, q.now, q.retireOld), history[1..], r);
      assert (history + [r])[1..] == history[1..] + [r];
    }
  }

  lemma {:induction false} RunRotations(c: Suite, master: Bytes, born: int, history: seq<Rotation>)
    ensures Run(c, [Generate(master, born)] + AsOps(history)).store
            == Some(RotatedBy(c, Generated(c, master, born), history))
  {
    hide Rotated, Generated, RotatedBy;
    var first := [Generate(master, born)];
    if history == [] {
      RunSnoc(c, [], Generate(master, born));
      assert [] + first == first && first + [] == first;
      NoRotations(c, Generated(c, master, born));
    } else {
      var front, r := history[..|history| - 1], history[|history| - 1];
      RunRotations(c, master, born, front);
      RunSnoc(c, first + AsOps(front), Rotate(r.newKey, r.now, r.retireOld));
      Assoc(first, AsOps(front), [Rotate(r.newKey, r.now, r.retireOld)]);
      RotatedSnoc(c, Generated(c, master, born), front, r);
      assert front + [r] == history;
    }
  }

  lemma NoRotations(c: Suite, k: Keyring)
    ensures RotatedBy(c, k, []) == k && !AnyHard([]) && AllFresh(c, k, [])
  {
  }

  /**
   Issuing works at any point of a history: every well-formed payload that names the active key is
   signed, and verifies against the bundle exported there as its policy says.
   */
  lemma IssuedIsAccepted(c: Suite, master: Bytes, born: int, before: seq<Rotation>, p: Payload, o: Options)
    requires SchemaError(p).None?
    requires p.keyId == RotatedBy(c, Generated(c, master, born), before).activeKeyId
    ensures var k := RotatedBy(c, Generated(c, master, born), before);
            && Issue(c, k, p).Ok?
            && Export(k) in Run(c, [Generate(master, born)] + AsOps(before) + [ExportBundle]).bundles
            && Verify(c, Issue(c, k, p).value, Export(k), o)
               == if PolicyError(p, o).Some? then Err(PolicyError(p, o).value) else Ok(p)
  {
    hide SchemaError, PolicyError, SignedText, FromText, Envelope.Decode, Envelope.Encode;
    hide KeyId, Verify, RotatedBy, Run;
    var k := RotatedBy(c, Generated(c, master, born), before);
    GeneratedCoherent(c, master, born);
    HistoryCoherent(c, Generated(c, master, born), before);
    NoRotations(c, k);
    RotationDecides(c, master, born, before, p, [], o);
    RunRotations(c, master, born, before);
    RunSnoc(c, [Generate(master, born)] + AsOps(before), ExportBundle);
  }

  lemma RunSnoc(c: Suite, ops: seq<Op>, op: Op)
    ensures Run(c, ops + [op]) == Step(c, Run(c, ops), op)
  {
    hide Step;
    assert (ops + [op])[..|ops|] == ops;
  }

  /** Each refusal, and acceptance, by the exact condition under which it comes. */
  lemma PolicyMeaning(p: Payload, o: Options)
    ensures var timely := p.notBefore - Skew(o) <= o.now <= p.expiresAt + Skew(o);
            && (PolicyError(p, o).None? <==> timely && DeviceAllowed(p, o) && p.licenseId !in o.revoked)
            && (PolicyError(p, o) == Some(NotYetValid(p.notBefore)) <==> o.now < p.notBefore - Skew(o))
            && (PolicyError(p, o) == Some(Expired(p.expiresAt))
                <==> o.now > p.expiresAt + Skew(o) && o.now >= p.notBefore - Skew(o))
            && (PolicyError(p, o) == Some(DeviceMismatch) <==> timely && !DeviceAllowed(p, o))
            && (PolicyError(p, o) == Some(Revoked) <==> timely && DeviceAllowed(p, o) && p.licenseId in o.revoked)
  {
    hide DeviceAllowed;
    WindowIsExact(p, o);
  }

  /** A device is told by its normal form: how its id is spelt makes no difference. */
  lemma SpellingIrrelevant(p: Payload, o: Options, hwid: string, other: string)
    requires NormalizeHwid(hwid) == NormalizeHwid(other)
    ensures DeviceAllowed(p, o.(hwid := Some(hwid))) == DeviceAllowed(p, o.(hwid := Some(other)))
  {
  }

  /** Acceptance step by step: every check is needed, and together they are enough. */
  lemma AcceptsExactly(c: Suite, envelope: string, trusted: Bundle, o: Options, p: Payload)
    ensures Verify(c, envelope, trusted, o) == Ok(p)
            <==> (Envelope.Decode(envelope).Some?
                  && var parts := Envelope.Decode(envelope).value;
                  && FromText(parts.payload) == Some(p)
                  && SchemaError(p).None?
                  && |parts.signature| == 64 && |parts.publicKey| == 32 && c.isPoint(parts.publicKey)
                  && p.keyId == KeyId(c, parts.publicKey)
                  && p.keyId in trusted.keys && trusted.keys[p.keyId].status == Active
                  && c.check(parts.publicKey, Utf8.Encode(parts.payload), parts.signature)
                  && p.notBefore - Skew(o) <= o.now <= p.expiresAt + Skew(o)
                  && DeviceAllowed(p, o)
                  && p.licenseId !in o.revoked)
  {
    hide Envelope.Decode, FromText, SchemaError, KeyId, DeviceAllowed;
    PolicyMeaning(p, o);
  }

  /** The parts and the payload an envelope holds, before anything is checked. */
  predicate Holds(envelope: string, parts: Envelope.Parts, p: Payload) {
    Envelope.Decode(envelope) == Some(parts) && FromText(parts.payload) == Some(p)
  }

  /** Sizes, curve and key id. */
  predicate KeyFits(c: Suite, parts: Envelope.Parts, p: Payload) {
    |parts.signature| == 64 && |parts.publicKey| == 32 && c.isPoint(parts.publicKey)
    && KeyId(c, parts.publicKey) == p.keyId
  }

  /**
   Which error is named: the schema before the key, the key before its trust, trust before the
   signature, and the signature before time, device and revocation.
   */
  lemma RefusedExactly(
    c: Suite, envelope: string, trusted: Bundle, o: Options, parts: Envelope.Parts, p: Payload)
    requires Holds(envelope, parts, p)
    ensures var r := Verify(c, envelope, trusted, o);
            var good := SchemaError(p).None?;
            var known := p.keyId in trusted.keys && trusted.keys[p.keyId].status == Active;
            var signed := c.check(parts.publicKey, Utf8.Encode(parts.payload), parts.signature);
            && (!good ==> r == Err(SchemaError(p).value))
            && (good && !KeyFits(c, parts, p) <==> r == Err(Malformed))
            && (good && KeyFits(c, parts, p) && !known <==> r == Err(UntrustedKey(p.keyId)))
            && (good && KeyFits(c, parts, p) && known && !signed <==> r == Err(BadSignature))
            && (good && KeyFits(c, parts, p) && known && signed ==>
                  r == if PolicyError(p, o).Some? then Err(PolicyError(p, o).value) else Ok(p))
  {
    hide Envelope.Decode, FromText, KeyId, DeviceAllowed, HwidWellFormed;
  }

  /** Whatever is accepted, signed by whomever, is a current-version payload of this product with a usable window. */
  lemma AcceptedIsWellFormed(c: Suite, envelope: string, trusted: Bundle, o: Options)
    requires Verify(c, envelope, trusted, o).Ok?
    ensures var p := Verify(c, envelope, trusted, o).value;
            && p.product == "VOR" && p.licenseVersion == 2
            && p.notBefore < p.expiresAt && p.issuedAt <= p.expiresAt
            && Text.Trim(p.licenseId) != "" && Text.Trim(p.keyId) != "" && p.entitlements != []
            && (forall h :: h in p.devices.boundHwids ==> IsDigest(NormalizeHwid(h)))
            && p.notBefore - Skew(o) <= o.now <= p.expiresAt + Skew(o)
            && (p.devices.boundHwids != [] ==> o.hwid.Some?)
            && p.licenseId !in o.revoked
  {
    hide FromText, KeyId, Envelope.Decode, NormalizeHwid, HwidWellFormed, IsDigest;
    var p := Verify(c, envelope, trusted, o).value;
    PolicyMeaning(p, o);
    forall h | h in p.devices.boundHwids
      ensures IsDigest(NormalizeHwid(h))
    {
      WellFormedExactly(h);
    }
  }
}
