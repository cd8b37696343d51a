/** The operator's signing keystore and the public bundle exported from it. */
module Keys {
  import opened Octets
  import opened Wrappers
  import opened Crypto
  import Decimal

  datatype Status = Active | Retired

  datatype KeyRecord = KeyRecord(keyId: string, publicKey: Bytes, status: Status, createdAt: int, note: string)

  /** The trusted key set a client ships with. */
  datatype Bundle = Bundle(keys: map<string, KeyRecord>)

  /** The contents of a keystore. */
  datatype Keyring = Keyring(signingKey: Bytes, activeKeyId: string, keys: map<string, KeyRecord>)

  /** `is_trusted`. */
  predicate IsTrusted(b: Bundle, keyId: string) {
    keyId in b.keys && b.keys[keyId].status == Active
  }

  /** `TrustedKeys::from_keystore`. */
  function Export(k: Keyring): Bundle {
    Bundle(k.keys)
  }

  /** `active_key_id`. */
  function ActiveKeyId(k: Keyring): Option<string> {
    if k.activeKeyId in k.keys then Some(k.activeKeyId) else None
  }

  function NewRecord(c: Suite, signingKey: Bytes, now: int, note: string): KeyRecord {
    var publicKey := c.publicKey(signingKey);
    KeyRecord(KeyId(c, publicKey), publicKey, Active, now, note)
  }

  function Generated(c: Suite, signingKey: Bytes, now: int): Keyring {
    var r := NewRecord(c, signingKey, now, "master key");
    Keyring(signingKey, r.keyId, map[r.keyId := r])
  }

  /** What a hard rotation does to one record. */
  function RetiredAt(r: KeyRecord, now: int): KeyRecord {
    if r.status == Active then
      r.(status := Retired, note := r.note + " (retired at rotation " + Decimal.PrintInt(now) + ")")
    else r
  }

  function RetireAll(keys: map<string, KeyRecord>, now: int): map<string, KeyRecord> {
    map id | id in keys :: RetiredAt(keys[id], now)
  }

  function Rotated(c: Suite, k: Keyring, newKey: Bytes, now: int, retireOld: bool): Keyring {
    var kept := if retireOld then RetireAll(k.keys, now) else k.keys;
    var r := NewRecord(c, newKey, now, "rotated master key");
    Keyring(newKey, r.keyId, kept[r.keyId := r])
  }

  /** Every record sits under its own key id, which is derived from its public key. */
  ghost predicate Filed(c: Suite, keys: map<string, KeyRecord>) {
    forall id :: id in keys ==> keys[id].keyId == id && KeyId(c, keys[id].publicKey) == id
  }

  /** The store signs with the key it calls active. */
  ghost predicate Coherent(c: Suite, k: Keyring) {
    && Filed(c, k.keys)
    && k.activeKeyId in k.keys
    && k.keys[k.activeKeyId].status == Active
    && k.keys[k.activeKeyId].publicKey == c.publicKey(k.signingKey)
  }

  lemma GeneratedCoherent(c: Suite, signingKey: Bytes, now: int)
    ensures Coherent(c, Generated(c, signingKey, now))
  {
  }

  lemma RotatedCoherent(c: Suite, k: Keyring, newKey: Bytes, now: int, retireOld: bool)
    requires Coherent(c, k)
    ensures Coherent(c, Rotated(c, k, newKey, now, retireOld))
  {
  }

  /** The keystore as the program holds it; key material comes from outside. */
  class KeyStore {
    var signingKey: Bytes
    var activeKeyId: string
    var keys: map<string, KeyRecord>

    function View(): Keyring
      reads this
    {
      Keyring(signingKey, activeKeyId, keys)
    }

    constructor Generate(c: Suite, newKey: Bytes, now: int)
      ensures View() == Generated(c, newKey, now)
      ensures Coherent(c, View())
    {
      var record := NewRecord(c, newKey, now, "master key");
      signingKey := newKey;
      activeKeyId := record.keyId;
      keys := map[record.keyId := record];
    }

    /** The loop over `values_mut`. */
    method Retire(now: int)
      modifies this`keys
      ensures keys == RetireAll(old(keys), now)
    {
      var todo := keys.Keys;
      while todo != {}
        invariant todo <= keys.Keys == old(keys).Keys
        invariant forall id :: id in keys ==>
                    keys[id] == if id in todo then old(keys)[id] else RetiredAt(old(keys)[id], now)
        decreases todo
      {
        var id :| id in todo;
        var record := keys[id];
        if record.status == Active {
          record := record.(status := Retired,
                            note := record.note + " (retired at rotation " + Decimal.PrintInt(now) + ")");
          keys := keys[id := record];
        }
        todo := todo - {id};
      }
    }

    method Rotate(c: Suite, newKey: Bytes, now: int, retireOld: bool) returns (keyId: string)
      modifies this
      ensures View() == Rotated(c, old(View()), newKey, now, retireOld)
      ensures keyId == activeKeyId == KeyId(c, c.publicKey(newKey))
      ensures old(Coherent(c, View())) ==> Coherent(c, View())
    {
      if Coherent(c, View()) {
        RotatedCoherent(c, View(), newKey, now, retireOld);
      }
      if retireOld {
        Retire(now);
      }
      var record := NewRecord(c, newKey, now, "rotated master key");
      keyId := record.keyId;
      keys := keys[keyId := record];
      signingKey := newKey;
      activeKeyId := keyId;
    }
  }

  // ----- Histories of rotations

  datatype Rotation = Rotation(newKey: Bytes, now: int, retireOld: bool)

  function RotatedBy(c: Suite, k: Keyring, history: seq<Rotation>): Keyring
    decreases |history|
  {
    if history == [] then k
    else
      var r := history[0];
      RotatedBy(c, Rotated(c, k, r.newKey, r.now, r.retireOld), history[1..])
  }

  /** Each rotation brings a key whose id the store does not hold yet. */
  ghost predicate AllFresh(c: Suite, k: Keyring, history: seq<Rotation>)
    decreases |history|
  {
    history != [] ==>
      var r := history[0];
      KeyId(c, c.publicKey(r.newKey)) !in k.keys
      && AllFresh(c, Rotated(c, k, r.newKey, r.now, r.retireOld), history[1..])
  }

  predicate AnyHard(history: seq<Rotation>) {
    exists i :: 0 <= i < |history| && history[i].retireOld
  }

  function ActiveIds(keys: map<string, KeyRecord>): set<string> {
    set id | id in keys && keys[id].status == Active
  }

  /** Soft rotations after the last hard one, or all of them when there is none. */
  function SoftSinceHard(history: seq<Rotation>): nat {
    if history == [] then 0
    else if AnyHard(history[1..]) then SoftSinceHard(history[1..])
    else |history| - 1 + (if history[0].retireOld then 0 else 1)
  }

  lemma {:induction false} HistoryCoherent(c: Suite, k: Keyring, history: seq<Rotation>)
    requires Coherent(c, k)
    ensures Coherent(c, RotatedBy(c, k, history))
    decreases |history|
  {
    if history != [] {
      var r := history[0];
      RotatedCoherent(c, k, r.newKey, r.now, r.retireOld);
      HistoryCoherent(c, Rotated(c, k, r.newKey, r.now, r.retireOld), history[1..]);
    }
  }

  /** When the first hard rotation of a history takes place. */
  function FirstHard(history: seq<Rotation>): Option<int> {
    if history == [] then None
    else if history[0].retireOld then Some(history[0].now)
    else FirstHard(history[1..])
  }

  lemma {:induction false} FirstHardExists(history: seq<Rotation>)
    ensures FirstHard(history).Some? <==> AnyHard(history)
  {
    if history != [] {
      AnyHardStep(history);
      if !history[0].retireOld { FirstHardExists(history[1..]); }
    }
  }

  /** What becomes of a record: it is retired at the first hard rotation, or stays as it is. */
  function RetiredBy(r: KeyRecord, first: Option<int>): KeyRecord {
    if first.Some? then RetiredAt(r, first.value) else r
  }

  lemma RecordAfterRotation(c: Suite, k: Keyring, r: Rotation, id: string)
    requires KeyId(c, c.publicKey(r.newKey)) !in k.keys && id in k.keys
    ensures var after := Rotated(c, k, r.newKey, r.now, r.retireOld).keys;
            id in after && after[id] == if r.retireOld then RetiredAt(k.keys[id], r.now) else k.keys[id]
  {
    hide KeyId, RetiredAt;
  }

  lemma {:induction false} RetiredOnce(c: Suite, k: Keyring, history: seq<Rotation>, id: string)
    requires AllFresh(c, k, history) && id in k.keys
    ensures id in RotatedBy(c, k, history).keys
    ensures RotatedBy(c, k, history).keys[id] == RetiredBy(k.keys[id], FirstHard(history))
    decreases |history|
  {
    if history != [] {
      hide KeyId, Decimal.PrintInt, Rotated;
      var r := history[0];
      RecordAfterRotation(c, k, r, id);
      RetiredOnce(c, Rotated(c, k, r.newKey, r.now, r.retireOld), history[1..], id);
    }
  }

  /**
   With fresh keys a record keeps its id, key and date; it is retired exactly at the first hard rotation,
   which its note says once, however many follow.
   */
  lemma RecordAfterHistory(c: Suite, k: Keyring, history: seq<Rotation>, id: string)
    requires AllFresh(c, k, history) && id in k.keys
    ensures id in RotatedBy(c, k, history).keys
    ensures var before, after := k.keys[id], RotatedBy(c, k, history).keys[id];
            && after.publicKey == before.publicKey && after.keyId == before.keyId && after.createdAt == before.createdAt
            && (after.status == Active <==> before.status == Active && !AnyHard(history))
            && after.note == before.note
                             + if before.status == Active && FirstHard(history).Some?
                               then " (retired at rotation " + Decimal.PrintInt(FirstHard(history).value) + ")" else ""
  {
    hide Decimal.PrintInt, RotatedBy, FirstHard, AnyHard, AllFresh;
    RetiredOnce(c, k, history, id);
    FirstHardExists(history);
    var note := k.keys[id].note;
    assert note + "" == note;
    if FirstHard(history).Some? {
      Assoc(note, " (retired at rotation " + Decimal.PrintInt(FirstHard(history).value), ")");
      Assoc(note, " (retired at rotation ", Decimal.PrintInt(FirstHard(history).value));
    }
  }

  lemma AnyHardStep(history: seq<Rotation>)
    requires history != []
    ensures AnyHard(history) <==> history[0].retireOld || AnyHard(history[1..])
  {
    if AnyHard(history[1..]) {
      var i :| 0 <= i < |history[1..]| && history[1..][i].retireOld;
      assert history[i + 1].retireOld;
    }
    if AnyHard(history) && !history[0].retireOld {
      var i :| 0 <= i < |history| && history[i].retireOld;
      assert history[1..][i - 1].retireOld;
    }
  }

  /** Rotating with a fresh key leaves one key Active after a hard rotation and one more after a soft one. */
  lemma ActiveAfterRotation(c: Suite, k: Keyring, r: Rotation)
    requires KeyId(c, c.publicKey(r.newKey)) !in k.keys
    ensures |ActiveIds(Rotated(c, k, r.newKey, r.now, r.retireOld).keys)|
            == if r.retireOld then 1 else |ActiveIds(k.keys)| + 1
  {
    hide KeyId;
    var after := Rotated(c, k, r.newKey, r.now, r.retireOld).keys;
    var id := KeyId(c, c.publicKey(r.newKey));
    var kept := if r.retireOld then RetireAll(k.keys, r.now) else k.keys;
    ActiveIdsOfUpdate(kept, id, after[id]);
    if r.retireOld {
      assert ActiveIds(kept) == {};
    }
  }

  lemma ActiveIdsOfUpdate(keys: map<string, KeyRecord>, id: string, r: KeyRecord)
    requires id !in keys && r.status == Active
    ensures ActiveIds(keys[id := r]) == ActiveIds(keys) + {id}
    ensures |ActiveIds(keys[id := r])| == |ActiveIds(keys)| + 1
  {
  }

  lemma {:induction false} ActiveAfterHistory(c: Suite, k: Keyring, history: seq<Rotation>)
    requires AllFresh(c, k, history)
    ensures |ActiveIds(RotatedBy(c, k, history).keys)|
            == if AnyHard(history) then 1 + SoftSinceHard(history) else |ActiveIds(k.keys)| + |history|
    decreases |history|
  {
    if history != [] {
      var r := history[0];
      ActiveAfterRotation(c, k, r);
      ActiveAfterHistory(c, Rotated(c, k, r.newKey, r.now, r.retireOld), history[1..]);
      AnyHardStep(history);
    }
  }

  /** Starting from a generated store: one Active key, plus the soft rotations since the last hard one. */
  lemma ActiveCount(c: Suite, signingKey: Bytes, now: int, history: seq<Rotation>)
    requires AllFresh(c, Generated(c, signingKey, now), history)
    ensures |ActiveIds(RotatedBy(c, Generated(c, signingKey, now), history).keys)| == 1 + SoftSinceHard(history)
  {
    var k := Generated(c, signingKey, now);
    ActiveAfterHistory(c, k, history);
    assert ActiveIds(k.keys) == {k.activeKeyId};
    SoftWithoutHard(history);
  }

  lemma {:induction false} SoftWithoutHard(history: seq<Rotation>)
    ensures !AnyHard(history) ==> SoftSinceHard(history) == |history|
  {
    if history != [] {
      AnyHardStep(history);
    }
  }
}
