/** The audit log on disk: opening, appending and reading back across sessions. */
module AuditFile {
  import opened Wrappers
  import opened Crypto
  import opened Text
  import opened Words
  import opened Audit
  import Json

  // ----- The file as text

  /** The lines of a file read as entries; blank lines are skipped, any other unreadable line fails. */
  function ReadLines(lines: seq<string>): Option<seq<Entry>> {
    if lines == [] then Some([])
    else if Trim(lines[0]) == "" then ReadLines(lines[1..])
    else
      var e :- FromLine(lines[0]);
      var rest :- ReadLines(lines[1..]);
      Some([e] + rest)
  }

  /** The entries read so far put before the rest, if the rest can be read. */
  function After(out: seq<Entry>, rest: Option<seq<Entry>>): Option<seq<Entry>> {
    match rest
    case None => None
    case Some(es) => Some(out + es)
  }

  lemma AfterNothing(lines: seq<string>, out: seq<Entry>)
    ensures After([], ReadLines(lines)) == ReadLines(lines)
    ensures After(out, ReadLines([])) == Some(out)
  {
    if ReadLines(lines).Some? {
      assert [] + ReadLines(lines).value == ReadLines(lines).value;
    }
    assert out + [] == out;
  }

  lemma AfterLine(lines: seq<string>, out: seq<Entry>)
    requires lines != []
    ensures After(out, ReadLines(lines)) ==
            if Trim(lines[0]) == "" then After(out, ReadLines(lines[1..]))
            else match FromLine(lines[0]) {
                case None => None
                case Some(e) => After(out + [e], ReadLines(lines[1..]))
              }
  {
    hide Trim, FromLine;
    var rest := ReadLines(lines[1..]);
    if Trim(lines[0]) != "" && FromLine(lines[0]).Some? && rest.Some? {
      assert out + ([FromLine(lines[0]).value] + rest.value) == out + [FromLine(lines[0]).value] + rest.value;
    }
  }

  /** Blank lines are as if they were not there, wherever they stand. */
  lemma {:induction false} BlankLineIgnored(before: seq<string>, line: string, after: seq<string>)
    requires forall i :: 0 <= i < |line| ==> IsSpace(line[i])
    ensures ReadLines(before + [line] + after) == ReadLines(before + after)
  {
    hide FromLine, Trim, IsSpace;
    if before == [] {
      BlankIsAllSpace(line);
      assert before + [line] + after == [line] + after && before + after == after;
      assert ([line] + after)[1..] == after;
    } else {
      BlankLineIgnored(before[1..], line, after);
      assert (before + [line] + after)[1..] == before[1..] + [line] + after;
      assert (before + after)[1..] == before[1..] + after;
    }
  }

  /** One unreadable line makes the file unreadable, whatever else it holds. */
  lemma {:induction false} UnreadableLine(lines: seq<string>, i: nat)
    requires i < |lines| && Trim(lines[i]) != "" && FromLine(lines[i]).None?
    ensures ReadLines(lines) == None
  {
    hide FromLine, Trim;
    if i > 0 {
      UnreadableLine(lines[1..], i - 1);
    }
  }

  function ReadFile(text: string): Option<seq<Entry>> {
    ReadLines(Lines(text))
  }

  function Written(es: seq<Entry>): string {
    if es == [] then "" else Line(es[0]) + "\n" + Written(es[1..])
  }

  lemma LineShape(e: Entry)
    ensures '\n' !in Line(e) && StripCr(Line(e)) == Line(e) && Trim(Line(e)) == Line(e) != ""
  {
    Json.PrintVisible(Json.Obj(EntryFields(e)));
    Json.PrintObjEnds(EntryFields(e));
    TrimOfTight(Line(e));
  }

  /** A file of written entries reads back as exactly those entries. */
  lemma {:induction false} ReadWritten(es: seq<Entry>)
    ensures ReadFile(Written(es)) == Some(es)
  {
    if es != [] {
      hide Line, FromLine, Trim, StripCr;
      LineShape(es[0]);
      LineReads(es[0]);
      ReadWritten(es[1..]);
      LinesOfFront(Line(es[0]), Written(es[1..]));
      assert es == [es[0]] + es[1..];
    }
  }

  lemma {:induction false} WrittenAppend(es: seq<Entry>, e: Entry)
    ensures Written(es + [e]) == Written(es) + Line(e) + "\n"
  {
    hide Line;
    if es == [] {
      assert es + [e] == [e];
    } else {
      WrittenAppend(es[1..], e);
      assert (es + [e])[1..] == es[1..] + [e];
    }
  }

  // ----- Appending

  datatype Request = Request(ts: i64, action: string, detail: string)

  /** The entry `append` builds on top of `es`. */
  function Next(c: Suite, es: seq<Entry>, r: Request): Entry {
    var e := Entry(|es| % U64_END, r.ts, r.action, r.detail, LastHash(es), "");
    e.(hash := HashEntry(c, e))
  }

  function AppendAll(c: Suite, es: seq<Entry>, rs: seq<Request>): (all: seq<Entry>)
    ensures es <= all && |all| == |es| + |rs|
    decreases rs
  {
    if rs == [] then es else AppendAll(c, es + [Next(c, es, rs[0])], rs[1..])
  }

  class Disk {
    /** The one file; a missing file holds no text. */
    var text: string

    constructor ()
      ensures text == ""
    {
      text := "";
    }
  }

  class Log {
    const disk: Disk
    var entries: seq<Entry>

    constructor (disk: Disk, entries: seq<Entry>)
      ensures this.disk == disk && this.entries == entries
    {
      this.disk := disk;
      this.entries := entries;
    }

    /** `AuditLog::open`. */
    static method Open(disk: Disk) returns (log: Option<Log>)
      ensures log.Some? <==> ReadFile(disk.text).Some?
      ensures log.Some? ==> fresh(log.value) && log.value.disk == disk && Some(log.value.entries) == ReadFile(disk.text)
    {
      hide FromLine, Trim, Lines, ReadLines, After;
      var lines := Lines(disk.text);
      var out := [];
      AfterNothing(lines, out);
      assert lines[0..] == lines;
      for i := 0 to |lines|
        invariant ReadLines(lines) == After(out, ReadLines(lines[i..]))
      {
        AfterLine(lines[i..], out);
        assert lines[i..][1..] == lines[i + 1..];
        if Trim(lines[i]) != "" {
          var e := FromLine(lines[i]);
          if e.None? {
            return None;
          }
          out := out + [e.value];
        }
      }
      AfterNothing([], out);
      var handle := new Log(disk, out);
      log := Some(handle);
    }

    method Append(c: Suite, r: Request) returns (e: Entry)
      modifies this`entries, disk
      ensures e == Next(c, old(entries), r)
      ensures entries == old(entries) + [e]
      ensures disk.text == old(disk.text) + Line(e) + "\n"
    {
      var number := |entries| % U64_END;
      var prevHash := if entries == [] then GENESIS else entries[|entries| - 1].hash;
      e := Entry(number, r.ts, r.action, r.detail, prevHash, "");
      e := e.(hash := HashEntry(c, e));
      disk.text := disk.text + Line(e) + "\n";
      entries := entries + [e];
    }

    /** `verify_chain`. */
    method VerifyChain(c: Suite) returns (ok: bool)
      ensures ok <==> ChainOk(c, entries)
    {
      hide HashEntry, ChainOk, LastHash;
      var prev := GENESIS;
      EmptyLog();
      EmptyChain(c);
      assert entries[..0] == [];
      for i := 0 to |entries|
        invariant prev == LastHash(entries[..i])
        invariant ChainOk(c, entries[..i])
      {
        if entries[i].prevHash != prev || entries[i].hash != HashEntry(c, entries[i]) {
          ChainAt(c, entries, i);
          return false;
        }
        ExtendChain(c, entries[..i], entries[i]);
        LastHashOf(entries[..i], entries[i]);
        assert entries[..i + 1] == entries[..i] + [entries[i]];
        prev := entries[i].hash;
      }
      assert entries[..|entries|] == entries;
      ok := true;
    }
  }

  lemma ChainAt(c: Suite, es: seq<Entry>, i: nat)
    requires i < |es|
    ensures ChainOk(c, es) ==> es[i].hash == HashEntry(c, es[i]) && es[i].prevHash == LastHash(es[..i])
  {
    hide HashEntry, LastHash;
  }

  lemma LastHashOf(es: seq<Entry>, e: Entry)
    ensures LastHash(es + [e]) == e.hash
  {
  }

  /** One session: open the file, append the requests, close. */
  method Session(c: Suite, disk: Disk, rs: seq<Request>) returns (ok: bool)
    modifies disk
    ensures SessionText(c, old(disk.text), rs) == if ok then Some(disk.text) else None
  {
    hide Line, ReadFile, Next;
    var log := Log.Open(disk);
    if log.None? {
      return false;
    }
    var handle := log.value;
    ghost var es := handle.entries;
    for i := 0 to |rs|
      invariant handle.disk == disk && fresh(handle)
      invariant AppendAll(c, handle.entries, rs[i..]) == AppendAll(c, es, rs)
      invariant es <= handle.entries
      invariant disk.text == old(disk.text) + Written(handle.entries[|es|..])
    {
      ghost var before := handle.entries;
      var e := handle.Append(c, rs[i]);
      assert rs[i..][1..] == rs[i + 1..];
      WrittenAppend(before[|es|..], e);
      assert handle.entries[|es|..] == before[|es|..] + [e];
    }
    assert handle.entries == AppendAll(c, es, rs);
    ok := true;
  }

  /** The file after a session, or nothing when the file could not be read. */
  function SessionText(c: Suite, text: string, rs: seq<Request>): Option<string> {
    var es :- ReadFile(text);
    Some(text + Written(AppendAll(c, es, rs)[|es|..]))
  }

  // ----- Any number of sessions

  function AllSessions(c: Suite, text: string, sessions: seq<seq<Request>>): Option<string>
    decreases |sessions|
  {
    if sessions == [] then Some(text)
    else
      var next :- SessionText(c, text, sessions[0]);
      AllSessions(c, next, sessions[1..])
  }

  function Flatten(sessions: seq<seq<Request>>): seq<Request> {
    if sessions == [] then [] else sessions[0] + Flatten(sessions[1..])
  }

  lemma {:induction false} WrittenSplit(es: seq<Entry>, n: nat)
    requires n <= |es|
    ensures Written(es) == Written(es[..n]) + Written(es[n..])
  {
    hide Line;
    if n == 0 {
      assert es[..0] == [] && es[0..] == es;
    } else {
      WrittenSplit(es[1..], n - 1);
      assert es[1..][..n - 1] == es[..n][1..] && es[1..][n - 1..] == es[n..];
    }
  }

  lemma {:induction false} AppendAllSplit(c: Suite, es: seq<Entry>, rs: seq<Request>, ss: seq<Request>)
    ensures AppendAll(c, es, rs + ss) == AppendAll(c, AppendAll(c, es, rs), ss)
    decreases |rs|
  {
    hide Next;
    if rs == [] {
      assert rs + ss == ss;
    } else {
      AppendAllSplit(c, es + [Next(c, es, rs[0])], rs[1..], ss);
      assert (rs + ss)[1..] == rs[1..] + ss;
    }
  }

  /** Sessions of one file amount to one long session: nothing is lost or changed by reopening. */
  lemma {:induction false} SessionsCompose(c: Suite, es: seq<Entry>, sessions: seq<seq<Request>>)
    ensures AllSessions(c, Written(es), sessions) == Some(Written(AppendAll(c, es, Flatten(sessions))))
    decreases |sessions|
  {
    hide Next, ReadFile, Written;
    if sessions != [] {
      var all := AppendAll(c, es, sessions[0]);
      ReadWritten(es);
      WrittenSplit(all, |es|);
      assert all[..|es|] == es;
      SessionsCompose(c, all, sessions[1..]);
      AppendAllSplit(c, es, sessions[0], Flatten(sessions[1..]));
    }
  }

  lemma {:induction false} AppendAllKeepsChain(c: Suite, es: seq<Entry>, rs: seq<Request>)
    requires ChainOk(c, es)
    ensures ChainOk(c, AppendAll(c, es, rs))
    decreases |rs|
  {
    hide Next, ChainOk, HashEntry;
    if rs != [] {
      NextHash(c, es, rs[0]);
      ExtendChain(c, es, Next(c, es, rs[0]));
      AppendAllKeepsChain(c, es + [Next(c, es, rs[0])], rs[1..]);
    }
  }

  /** Entry `e` stands at position `i` (as a u64) and records request `r`. */
  predicate Records(e: Entry, i: nat, r: Request) {
    e.number == i % U64_END && e.ts == r.ts && e.action == r.action && e.detail == r.detail
  }

  lemma {:induction false} AppendAllRecords(c: Suite, es: seq<Entry>, rs: seq<Request>, i: nat)
    requires i < |rs|
    ensures Records(AppendAll(c, es, rs)[|es| + i], |es| + i, rs[i])
    decreases |rs|
  {
    hide Next, Records;
    var next := es + [Next(c, es, rs[0])];
    NextRecords(c, es, rs[0]);
    if i == 0 {
      assert AppendAll(c, next, rs[1..])[|es|] == next[|es|];
    } else {
      AppendAllRecords(c, next, rs[1..], i - 1);
    }
  }

  lemma NextRecords(c: Suite, es: seq<Entry>, r: Request)
    ensures Records(Next(c, es, r), |es|, r)
  {
    hide HashEntry;
  }

  /** The stored hash plays no part in what is hashed. */
  lemma NextHash(c: Suite, es: seq<Entry>, r: Request)
    ensures var e := Next(c, es, r); e.hash == HashEntry(c, e) && e.prevHash == LastHash(es)
  {
  }

  /**
   Persistence: after any sessions on a new file, reopening it yields one entry a request, in order,
   numbered by position, and the chain verifies.
   */
  lemma ReopenedLog(c: Suite, sessions: seq<seq<Request>>)
    ensures var text := AllSessions(c, "", sessions);
            && text.Some?
            && var es := ReadFile(text.value);
            && es.Some?
            && |es.value| == |Flatten(sessions)|
            && ChainOk(c, es.value)
            && forall i :: 0 <= i < |es.value| ==> Records(es.value[i], i, Flatten(sessions)[i])
  {
    hide ReadFile, AllSessions, ChainOk, Records, Flatten, Written, AppendAll;
    var rs := Flatten(sessions);
    var es := AppendAll(c, [], rs);
    SessionsCompose(c, [], sessions);
    assert Written([]) == "" by { NothingWritten(); }
    ReadWritten(es);
    EmptyChain(c);
    AppendAllKeepsChain(c, [], rs);
    forall i | 0 <= i < |es|
      ensures Records(es[i], i, rs[i])
    {
      AppendAllRecords(c, [], rs, i);
    }
  }

  lemma NothingWritten()
    ensures Written([]) == ""
  {
  }

  lemma EmptyChain(c: Suite)
    ensures ChainOk(c, [])
  {
  }
}
