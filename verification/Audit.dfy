/** The hash-chained audit log: one JSON entry a line, each entry hashing the one before it. */
module Audit {
  import opened Octets
  import opened Wrappers
  import opened Crypto
  import opened Json
  import opened Canonical
  import opened Text
  import opened Words
  import Structs
  import Utf8

  datatype Entry = Entry(number: u64, ts: i64, action: string, detail: string, prevHash: string, hash: string)

  const GENESIS := "GENESIS"

  const SEQ_KEY := "seq"
  const TS_KEY := "ts"
  const ACTION_KEY := "action"
  const DETAIL_KEY := "detail"
  const PREV_KEY := "prev_hash"
  const HASH_KEY := "hash"

  // ----- One entry

  function HashedFields(e: Entry): seq<Field> {
    [ Field(SEQ_KEY, Num(e.number)), Field(TS_KEY, Num(e.ts)), Field(ACTION_KEY, Str(e.action)),
      Field(DETAIL_KEY, Str(e.detail)), Field(PREV_KEY, Str(e.prevHash)) ]
  }

  /** What is hashed: every member except the hash. */
  function Preimage(e: Entry): Bytes {
    Utf8.Encode(Canon(Obj(HashedFields(e))))
  }

  /** `hash_entry`. */
  function HashEntry(c: Suite, e: Entry): string {
    Hex(c.sha256(Preimage(e)))
  }

  function EntryFields(e: Entry): seq<Field> {
    HashedFields(e) + [Field(HASH_KEY, Str(e.hash))]
  }

  /** `serde_json::to_string`: members in declaration order. */
  function Line(e: Entry): string {
    Print(Obj(EntryFields(e)))
  }

  /** `serde_json::from_str::<AuditEntry>`. */
  function FromLine(line: string): Option<Entry> {
    var v :- Parse(line);
    var f :- Structs.Members(v, [SEQ_KEY, TS_KEY, ACTION_KEY, DETAIL_KEY, PREV_KEY, HASH_KEY]);
    var number :- Structs.IntIn(Structs.Find(f, SEQ_KEY), 0, U64_END);
    var ts :- Structs.IntIn(Structs.Find(f, TS_KEY), I64_MIN, I64_END);
    var action :- Structs.Text(Structs.Find(f, ACTION_KEY));
    var detail :- Structs.Text(Structs.Find(f, DETAIL_KEY));
    var prevHash :- Structs.Text(Structs.Find(f, PREV_KEY));
    var hash :- Structs.Text(Structs.Find(f, HASH_KEY));
    Some(Entry(number, ts, action, detail, prevHash, hash))
  }

  lemma KeysDiffer(e: Entry)
    ensures DistinctKeys(HashedFields(e)) && DistinctKeys(EntryFields(e))
  {
    assert |SEQ_KEY| == 3 && |TS_KEY| == 2 && |PREV_KEY| == 9 && |HASH_KEY| == 4;
    assert ACTION_KEY[0] == 'a' && DETAIL_KEY[0] == 'd' && |ACTION_KEY| == |DETAIL_KEY| == 6;
  }

  lemma EntryMembers(e: Entry)
    ensures var f := EntryFields(e);
            && Structs.Find(f, SEQ_KEY) == Structs.Once(Num(e.number))
            && Structs.Find(f, TS_KEY) == Structs.Once(Num(e.ts))
            && Structs.Find(f, ACTION_KEY) == Structs.Once(Str(e.action))
            && Structs.Find(f, DETAIL_KEY) == Structs.Once(Str(e.detail))
            && Structs.Find(f, PREV_KEY) == Structs.Once(Str(e.prevHash))
            && Structs.Find(f, HASH_KEY) == Structs.Once(Str(e.hash))
  {
    hide Structs.Find;
    var f := EntryFields(e);
    KeysDiffer(e);
    Structs.MemberFound(f, 0);
    Structs.MemberFound(f, 1);
    Structs.MemberFound(f, 2);
    Structs.MemberFound(f, 3);
    Structs.MemberFound(f, 4);
    Structs.MemberFound(f, 5);
  }

  lemma LineReads(e: Entry)
    ensures FromLine(Line(e)) == Some(e)
  {
    hide Structs.Find, Parse, Print, EntryFields;
    EntryMembers(e);
    ParsePrint(Obj(EntryFields(e)));
  }

  /** Different hashed members give different hashed bytes. */
  lemma PreimageInjective(e: Entry, f: Entry)
    requires Preimage(e) == Preimage(f)
    ensures HashedFields(e) == HashedFields(f)
  {
    hide Structs.Find, Sort, NormalizeFields, HashedFields;
    var x, y := HashedFields(e), HashedFields(f);
    Utf8.EncodeInjective(Canon(Obj(x)), Canon(Obj(y)));
    PrintInjective(Normalize(Obj(x)), Normalize(Obj(y)));
    HashedMembers(e);
    HashedMembers(f);
  }

  lemma HashedMembers(e: Entry)
    ensures var s := Sort(NormalizeFields(HashedFields(e)));
            HashedFields(e) ==
            [ Field(SEQ_KEY, Found(s, SEQ_KEY)), Field(TS_KEY, Found(s, TS_KEY)),
              Field(ACTION_KEY, Found(s, ACTION_KEY)), Field(DETAIL_KEY, Found(s, DETAIL_KEY)),
              Field(PREV_KEY, Found(s, PREV_KEY)) ]
  {
    hide Structs.Find, Sort, NormalizeFields;
    var f := HashedFields(e);
    KeysDiffer(e);
    Structs.MemberFound(f, 0);
    Structs.MemberFound(f, 1);
    Structs.MemberFound(f, 2);
    Structs.MemberFound(f, 3);
    Structs.MemberFound(f, 4);
  }

  function Found(fields: seq<Field>, key: string): Json {
    match Structs.Find(fields, key)
    case Once(v) => v
    case _ => Null
  }

  // ----- The chain

  function LastHash(es: seq<Entry>): string {
    if es == [] then GENESIS else es[|es| - 1].hash
  }

  /** Each entry's hash is its own, and it names the hash before it. */
  predicate ChainOk(c: Suite, es: seq<Entry>) {
    forall i :: 0 <= i < |es| ==> es[i].hash == HashEntry(c, es[i]) && es[i].prevHash == LastHash(es[..i])
  }

  /** Two entries with different hashed bytes and the same digest. */
  predicate Collide(c: Suite, e: Entry, f: Entry) {
    Preimage(e) != Preimage(f) && c.sha256(Preimage(e)) == c.sha256(Preimage(f))
  }

  predicate AnyCollision(c: Suite, a: seq<Entry>, b: seq<Entry>) {
    exists i, j :: 0 <= i < |a| && 0 <= j < |b| && Collide(c, a[i], b[j])
  }

  /** Cutting off the tail is never caught: every front of a log that verifies verifies. */
  lemma TruncationUnseen(c: Suite, es: seq<Entry>, n: nat)
    requires ChainOk(c, es) && n <= |es|
    ensures ChainOk(c, es[..n])
  {
    hide HashEntry;
    forall i | 0 <= i < n
      ensures es[..n][i].hash == HashEntry(c, es[..n][i]) && es[..n][i].prevHash == LastHash(es[..n][..i])
    {
      assert es[..n][..i] == es[..i];
    }
  }

  lemma SameHashSameEntry(c: Suite, e: Entry, f: Entry)
    requires e.hash == f.hash && e.hash == HashEntry(c, e) && f.hash == HashEntry(c, f)
    ensures e == f || Collide(c, e, f)
  {
    HexInjective(c.sha256(Preimage(e)), c.sha256(Preimage(f)));
    if !Collide(c, e, f) {
      PreimageInjective(e, f);
      assert HashedFields(e)[0] == HashedFields(f)[0] && HashedFields(e)[1] == HashedFields(f)[1];
      assert HashedFields(e)[2] == HashedFields(f)[2] && HashedFields(e)[3] == HashedFields(f)[3];
      assert HashedFields(e)[4] == HashedFields(f)[4];
    }
  }

  /** A digest in hexadecimal has 64 characters, so it is never the genesis mark. */
  lemma HashIsNotGenesis(c: Suite, e: Entry)
    ensures HashEntry(c, e) != GENESIS
  {
    assert |HashEntry(c, e)| == 64 && |GENESIS| == 7;
  }

  /**
   Tamper evidence: two logs that both verify and end in the same hash are the same log, entry for
   entry, or contain two entries that collide under SHA-256.
   */
  lemma {:induction false} SameLastHashSameLog(c: Suite, a: seq<Entry>, b: seq<Entry>)
    requires ChainOk(c, a) && ChainOk(c, b) && LastHash(a) == LastHash(b)
    ensures a == b || AnyCollision(c, a, b)
  {
    hide HashEntry, Collide, AnyCollision, ChainOk, LastHash;
    if a == [] || b == [] {
      assert LastHash([]) == GENESIS by { EmptyLog(); }
      if a != [] { ChainLast(c, a); }
      if b != [] { ChainLast(c, b); }
    } else {
      var m, n := |a| - 1, |b| - 1;
      ChainLast(c, a);
      ChainLast(c, b);
      SameHashSameEntry(c, a[m], b[n]);
      if a[m] == b[n] {
        SameLastHashSameLog(c, a[..m], b[..n]);
        CollisionExtends(c, a, m, b, n);
      } else {
        CollisionAt(c, a, m, b, n);
      }
    }
  }

  lemma EmptyLog()
    ensures LastHash([]) == GENESIS
  {
  }

  lemma ChainLast(c: Suite, es: seq<Entry>)
    requires ChainOk(c, es) && es != []
    ensures var m := |es| - 1;
            && es == es[..m] + [es[m]]
            && LastHash(es) == es[m].hash == HashEntry(c, es[m])
            && LastHash(es) != GENESIS
            && es[m].prevHash == LastHash(es[..m])
            && ChainOk(c, es[..m])
  {
    hide HashEntry;
    HashIsNotGenesis(c, es[|es| - 1]);
    TruncationUnseen(c, es, |es| - 1);
  }

  lemma CollisionAt(c: Suite, a: seq<Entry>, m: nat, b: seq<Entry>, n: nat)
    requires m < |a| && n < |b| && Collide(c, a[m], b[n])
    ensures AnyCollision(c, a, b)
  {
  }

  lemma CollisionExtends(c: Suite, a: seq<Entry>, m: nat, b: seq<Entry>, n: nat)
    requires m <= |a| && n <= |b|
    ensures AnyCollision(c, a[..m], b[..n]) ==> AnyCollision(c, a, b)
  {
    hide Collide;
    if AnyCollision(c, a[..m], b[..n]) {
      var i, j :| 0 <= i < m && 0 <= j < n && Collide(c, a[..m][i], b[..n][j]);
      assert Collide(c, a[i], b[j]);
    }
  }

  /** Any change that leaves the last entry in place is caught, or exhibits a collision. */
  lemma TamperingDetected(c: Suite, honest: seq<Entry>, changed: seq<Entry>)
    requires ChainOk(c, honest) && honest != changed && honest != [] && changed != []
    requires honest[|honest| - 1] == changed[|changed| - 1]
    ensures !ChainOk(c, changed) || AnyCollision(c, honest, changed)
  {
    if ChainOk(c, changed) {
      SameLastHashSameLog(c, honest, changed);
    }
  }

  /** Any entry that carries its own hash and names the last one extends a chain. */
  lemma ExtendChain(c: Suite, es: seq<Entry>, e: Entry)
    requires ChainOk(c, es) && e.hash == HashEntry(c, e) && e.prevHash == LastHash(es)
    ensures ChainOk(c, es + [e])
  {
    hide HashEntry;
    var all := es + [e];
    forall i | 0 <= i < |all|
      ensures all[i].hash == HashEntry(c, all[i]) && all[i].prevHash == LastHash(all[..i])
    {
      assert all[..i] == es[..i];
    }
    assert all[..|es|] == es;
  }

  /** The two entries agree in everything but the hashes. */
  predicate SameContent(e: Entry, f: Entry) {
    e.number == f.number && e.ts == f.ts && e.action == f.action && e.detail == f.detail
  }

  function Sealed(c: Suite, draft: Entry, prevHash: string): (e: Entry)
    ensures SameContent(e, draft) && e.prevHash == prevHash
  {
    draft.(prevHash := prevHash, hash := HashEntry(c, draft.(prevHash := prevHash)))
  }

  lemma SealedHash(c: Suite, draft: Entry, prevHash: string)
    ensures Sealed(c, draft, prevHash).hash == HashEntry(c, Sealed(c, draft, prevHash))
  {
  }

  /**
   The sequence numbers are hashed but not compared with the positions: whatever numbers, times,
   actions and details are asked for, there is a log of exactly those that verifies.
   */
  lemma {:induction false} NumberingUnchecked(c: Suite, drafts: seq<Entry>) returns (es: seq<Entry>)
    ensures ChainOk(c, es) && |es| == |drafts|
    ensures forall i :: 0 <= i < |es| ==> SameContent(es[i], drafts[i])
  {
    if drafts == [] {
      es := [];
    } else {
      hide HashEntry, ChainOk, LastHash, SameContent, Sealed;
      var n := |drafts| - 1;
      var front := NumberingUnchecked(c, drafts[..n]);
      var e := Sealed(c, drafts[n], LastHash(front));
      SealedHash(c, drafts[n], LastHash(front));
      ExtendChain(c, front, e);
      es := front + [e];
    }
  }
}
