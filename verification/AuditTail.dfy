/** Appending to an audit file whose last line may lack its line break. */
module AuditTail {
  import opened Wrappers
  import opened Crypto
  import opened Text
  import opened Audit
  import opened AuditFile
  import opened JsonFront
  import Json
  import Structs

  /** What follows the last line break. */
  function Tail(text: string): (t: string)
    ensures |t| <= |text|
    decreases |text|
  {
    match SplitOnce(text, '\n')
    case None => text
    case Some((_, rest)) => Tail(rest)
  }

  predicate WholeLines(text: string) {
    text != "" ==> text[|text| - 1] == '\n'
  }

  lemma {:induction false} TailSplits(text: string)
    ensures '\n' !in Tail(text)
    ensures text == text[..|text| - |Tail(text)|] + Tail(text) && WholeLines(text[..|text| - |Tail(text)|])
    decreases |text|
  {
    hide SplitOnce;
    match SplitOnce(text, '\n')
    case None =>
    case Some((a, rest)) =>
      TailSplits(rest);
      var head := text[..|text| - |Tail(text)|];
      var h := rest[..|rest| - |Tail(rest)|];
      assert text == (a + "\n" + h) + Tail(rest);
      assert head == a + "\n" + h;
  }

  lemma {:induction false} LinesAfterWhole(head: string, rest: string)
    requires WholeLines(head)
    ensures Lines(head + rest) == Lines(head) + Lines(rest)
    decreases |head|
  {
    hide Lines, SplitOnce;
    match SplitOnce(head, '\n')
    case None =>
      assert head == "" && head + rest == rest;
      NoLines();
    case Some((a, b)) =>
      LinesAfterWhole(b, rest);
      LinesOfFront(a, b);
      LinesOfFront(a, b + rest);
      assert head + rest == a + "\n" + (b + rest);
      assert [StripCr(a)] + Lines(b) + Lines(rest) == [StripCr(a)] + (Lines(b) + Lines(rest));
  }

  lemma NoLines()
    ensures Lines("") == []
  {
  }

  lemma {:induction false} ReadLinesAppend(xs: seq<string>, ys: seq<string>)
    ensures ReadLines(xs + ys) == match ReadLines(xs) { case None => None case Some(es) => After(es, ReadLines(ys)) }
  {
    hide Trim, FromLine;
    if xs == [] {
      assert xs + ys == ys;
      AfterNothing(ys, []);
    } else {
      ReadLinesAppend(xs[1..], ys);
      assert (xs + ys)[1..] == xs[1..] + ys;
      if ReadLines(xs).Some? && ReadLines(ys).Some? && Trim(xs[0]) != "" {
        var e := FromLine(xs[0]).value;
        var a, b := ReadLines(xs[1..]).value, ReadLines(ys).value;
        assert [e] + (a + b) == [e] + a + b;
      }
    }
  }

  lemma LineStarts(e: Entry)
    ensures Line(e) != "" && Line(e)[0] == '{'
  {
  }

  lemma BlankIsSpace(s: string)
    requires AllBlank(s)
    ensures Trim(s) == ""
  {
    BlankIsAllSpace(s);
  }

  lemma ReadSingle(line: string)
    requires Trim(line) != ""
    ensures ReadLines([line]) == match FromLine(line) { case None => None case Some(e) => Some([e]) }
  {
    hide Trim, FromLine;
    assert [line][1..] == [] && ReadLines([]) == Some([]);
    assert forall e: Entry :: [e] + [] == [e];
  }

  lemma ReadBlank(tail: string)
    requires Trim(tail) == ""
    ensures ReadLines([tail]) == Some([]) && ReadLines([]) == Some([])
  {
    hide Trim, FromLine;
    assert [tail][1..] == [] && ReadLines([]) == Some([]);
  }

  lemma ReadLineParses(line: string)
    requires FromLine(line).Some?
    ensures Json.Parse(line).Some?
  {
    hide Json.Parse, Structs.Members, Structs.Find;
  }

  lemma NothingIsBlank()
    ensures AllBlank("")
  {
  }

  lemma LastLine(tail: string)
    requires '\n' !in tail
    ensures Lines(tail) == if tail == "" then [] else [tail]
  {
    assert Find(tail, '\n') == |tail|;
  }

  /** A readable last line without its break followed by an entry: readable exactly if it was blank as JSON has it. */
  lemma JoinedLine(tail: string, e: Entry)
    requires '\n' !in tail && ReadLines(Lines(tail)).Some?
    ensures FromLine(tail + Line(e)) == if AllBlank(tail) then Some(e) else None
    ensures AllBlank(tail) ==> ReadLines(Lines(tail)) == Some([])
  {
    hide Trim, Json.Parse, Line, Structs.Find, Structs.Members, AllBlank, Json.SkipBlanks, ReadLines;
    LineStarts(e);
    LastLine(tail);
    NothingIsBlank();
    if AllBlank(tail) {
      BlanksThenParse(tail, Line(e));
      LineReads(e);
      BlankIsSpace(tail);
      ReadBlank(tail);
    } else if Trim(tail) == "" {
      SpaceThenParse(tail, Line(e));
    } else {
      ReadSingle(tail);
      ReadLineParses(tail);
      BraceEnds(Line(e));
      ParseThenMore(tail, Line(e));
    }
  }

  lemma BraceEnds(s: string)
    requires s != "" && s[0] == '{'
    ensures Json.EndsNumber(s) && Json.SkipBlanks(s) != ""
  {
  }

  lemma SpaceThenParse(tail: string, x: string)
    requires Trim(tail) == "" && !AllBlank(tail)
    ensures Json.Parse(tail + x) == None
  {
    hide Trim, AllBlank, Json.SkipBlanks, Json.Parse, IsSpace;
    BlankIsAllSpace(tail);
    SkipBlanksOf(tail);
    SkipBlanksFront(tail, x);
    SpaceStartsNothing(Json.SkipBlanks(tail)[0]);
    BadStart(tail + x);
  }

  lemma SpaceStartsNothing(c: char)
    requires IsSpace(c)
    ensures !StartsJson(c)
  {
  }

  lemma JoinedLineShape(tail: string, e: Entry)
    requires '\n' !in tail
    ensures '\n' !in tail + Line(e) && StripCr(tail + Line(e)) == tail + Line(e) && Trim(tail + Line(e)) != ""
  {
    hide Line, Trim, Blank;
    LineShape(e);
    LineStarts(e);
    var l := tail + Line(e);
    assert l[|l| - 1] == Line(e)[|Line(e)| - 1];
    BlankIsAllSpace(l);
    assert l[|tail|] == '{' && !IsSpace('{');
    BlankMeans(l);
  }

  lemma BlankMeans(s: string)
    ensures Blank(s) <==> Trim(s) == ""
  {
  }

  lemma ReadJoined(head: string, tail: string, e: Entry, more: seq<Entry>)
    requires WholeLines(head) && '\n' !in tail && ReadFile(head + tail).Some?
    ensures ReadFile(head + tail + Written([e] + more))
            == if AllBlank(tail) then Some(ReadFile(head + tail).value + ([e] + more)) else None
  {
    hide Lines, Line, FromLine, Trim, StripCr, AllBlank, WholeLines, ReadLines, Written;
    var rest := tail + Line(e) + "\n" + Written(more);
    WrittenCons(e, more);
    assert head + tail + Written([e] + more) == head + rest;
    LinesAfterWhole(head, tail);
    LinesAfterWhole(head, rest);
    ReadLinesAppend(Lines(head), Lines(tail));
    ReadLinesAppend(Lines(head), Lines(rest));
    JoinedLineShape(tail, e);
    LinesOfFront(tail + Line(e), Written(more));
    JoinedLine(tail, e);
    ReadWritten(more);
    ReadOneMore(tail + Line(e), Lines(Written(more)));
    if AllBlank(tail) {
      var es := ReadLines(Lines(head)).value;
      assert es + [] == es;
    }
  }

  lemma WrittenCons(e: Entry, more: seq<Entry>)
    ensures Written([e] + more) == Line(e) + "\n" + Written(more)
  {
    hide Line;
    assert ([e] + more)[1..] == more;
  }

  lemma ReadOneMore(line: string, lines: seq<string>)
    requires Trim(line) != ""
    ensures ReadLines([line] + lines)
            == match FromLine(line) {
                case None => None
                case Some(e) => match ReadLines(lines) { case None => None case Some(es) => Some([e] + es) }
              }
  {
    hide Trim, FromLine;
    assert ([line] + lines)[1..] == lines;
  }

  /**
   A readable file stays readable under a session that appends exactly when nothing but JSON blanks
   follows its last line break; it then holds what it held and the appended entries.
   */
  lemma SessionExactly(c: Suite, text: string, rs: seq<Request>)
    requires ReadFile(text).Some? && rs != []
    ensures var after := SessionText(c, text, rs);
            after.Some? && ReadFile(after.value)
                           == if AllBlank(Tail(text)) then Some(AppendAll(c, ReadFile(text).value, rs)) else None
  {
    hide ReadFile, Written, Tail, AllBlank, Next;
    var es := ReadFile(text).value;
    var all := AppendAll(c, es, rs);
    var added := all[|es|..];
    TailSplits(text);
    assert added == [added[0]] + added[1..];
    ReadJoined(text[..|text| - |Tail(text)|], Tail(text), added[0], added[1..]);
    assert all == es + added;
  }

  /** The shortest such loss: one entry without its line break. */
  lemma JoinedEntriesAreLost(c: Suite, e: Entry, r: Request)
    ensures ReadFile(Line(e)) == Some([e])
    ensures var after := SessionText(c, Line(e), [r]); after.Some? && ReadFile(after.value) == None
  {
    hide Line, FromLine, Trim, Lines, ReadLines, SessionText, AllBlank, Tail;
    LineShape(e);
    LineReads(e);
    LastLine(Line(e));
    ReadSingle(Line(e));
    SessionExactly(c, Line(e), [r]);
    TailOfLine(e);
  }

  lemma TailOfLine(e: Entry)
    ensures !AllBlank(Tail(Line(e)))
  {
    hide Line;
    LineShape(e);
    LineStarts(e);
  }
}
