/** Reading JSON looks no further than it has to: what was read from a text is read from it whatever follows. */
module JsonFront {
  import opened Wrappers
  import opened Decimal
  import opened Json

  lemma {:induction false} SkipBlanksFront(s: string, x: string)
    ensures SkipBlanks(s) != "" ==> SkipBlanks(s + x) == SkipBlanks(s) + x
    ensures SkipBlanks(s) == "" ==> SkipBlanks(s + x) == SkipBlanks(x)
  {
    if s == "" {
      assert s + x == x;
    } else if IsBlank(s[0]) {
      SkipBlanksFront(s[1..], x);
      assert (s + x)[1..] == s[1..] + x;
    }
  }

  lemma Hex4Front(s: string, x: string)
    requires Hex4(s).Some?
    ensures Hex4(s + x) == Hex4(s)
  {
  }

  lemma SliceFront(s: string, x: string, k: nat)
    requires k <= |s|
    ensures (s + x)[k..] == s[k..] + x
  {
  }

  lemma EscapeFront(s: string, x: string)
    requires ParseEscape(s).Got?
    ensures ParseEscape(s + x) == Got(ParseEscape(s).value, ParseEscape(s).rest + x)
  {
    hide Hex4;
    SliceFront(s, x, 1);
    if s[0] == 'u' {
      Hex4Bounds(s[1..]);
      Hex4Front(s[1..], x);
      SliceFront(s, x, 5);
      var n := Hex4(s[1..]).value;
      if 0xD800 <= n < 0xDC00 {
        Hex4Bounds(s[7..]);
        Hex4Front(s[7..], x);
        SliceFront(s, x, 7);
        SliceFront(s, x, 11);
      }
    }
  }

  lemma Hex4Bounds(s: string)
    requires Hex4(s).Some?
    ensures |s| >= 4
  {
  }

  lemma {:induction false} StrFront(s: string, x: string)
    requires ParseStrBody(s).Got?
    ensures ParseStrBody(s + x) == Got(ParseStrBody(s).value, ParseStrBody(s).rest + x)
    decreases |s|
  {
    hide ParseEscape;
    SliceFront(s, x, 1);
    if s[0] == '"' {
    } else if s[0] == '\\' {
      EscapeFront(s[1..], x);
      StrFront(ParseEscape(s[1..]).rest, x);
    } else {
      StrFront(s[1..], x);
    }
  }

  lemma {:induction false} SpanFront(s: string, x: string)
    requires EndsNumber(x)
    ensures Span(s + x) == Span(s)
  {
    if s == "" {
      assert s + x == x;
    } else if IsDigit(s[0]) {
      SpanFront(s[1..], x);
      assert (s + x)[1..] == s[1..] + x;
    }
  }

  lemma DigitsFront(s: string, x: string)
    requires EndsNumber(x) && ParseDigits(s).Got?
    ensures ParseDigits(s + x) == Got(ParseDigits(s).value, ParseDigits(s).rest + x)
  {
    SpanFront(s, x);
    var k := Span(s);
    assert (s + x)[..k] == s[..k];
    SliceFront(s, x, k);
  }

  lemma NumFront(s: string, x: string)
    requires EndsNumber(x) && ParseNum(s).Got?
    ensures ParseNum(s + x) == Got(ParseNum(s).value, ParseNum(s).rest + x)
  {
    hide ParseDigits;
    var negative := "-" <= s;
    assert negative <==> s != "" && s[0] == '-';
    NumStarts(s);
    assert "-" <= s + x <==> negative;
    DigitsFront(if negative then s[1..] else s, x);
    SliceFront(s, x, 1);
  }

  lemma NumStarts(s: string)
    requires ParseNum(s).Got?
    ensures s != ""
  {
  }

  lemma LiteralFront(t: string, x: string)
    requires ParseLiteral(t).Got?
    ensures ParseLiteral(t + x) == Got(ParseLiteral(t).value, ParseLiteral(t).rest + x)
  {
    if "null" <= t || "true" <= t {
      SliceFront(t, x, 4);
    } else {
      SliceFront(t, x, 5);
    }
    assert t[0] == (t + x)[0];
  }

  /** A value read is read with anything after it that does not continue a number. */
  lemma {:induction false} ValueFront(s: string, x: string)
    requires EndsNumber(x) && ParseValue(s).Got?
    ensures ParseValue(s + x) == Got(ParseValue(s).value, ParseValue(s).rest + x)
    decreases |s|, 1
  {
    hide ParseStrBody, ParseArray, ParseObject, ParseNum, ParseLiteral, SkipBlanks, EndsNumber;
    var t := SkipBlanks(s);
    SkipBlanksFront(s, x);
    SliceFront(t, x, 1);
    if t[0] == '"' {
      StrFront(t[1..], x);
    } else if t[0] == '[' {
      ArrayFront(t[1..], x);
    } else if t[0] == '{' {
      ObjectFront(t[1..], x);
    } else if t[0] == '-' || IsDigit(t[0]) {
      NumFront(t, x);
    } else {
      LiteralFront(t, x);
    }
  }

  lemma {:induction false} ArrayFront(s: string, x: string)
    requires EndsNumber(x) && ParseArray(s).Got?
    ensures ParseArray(s + x) == Got(ParseArray(s).value, ParseArray(s).rest + x)
    decreases |s|, 3
  {
    hide ParseItems, SkipBlanks, EndsNumber;
    var u := SkipBlanks(s);
    SkipBlanksFront(s, x);
    if u != "" && u[0] == ']' {
      SliceFront(u, x, 1);
    } else {
      ItemsFront(s, x);
      ItemsNotBlank(s);
    }
  }

  lemma ItemsNotBlank(s: string)
    ensures ParseItems(s).Got? ==> SkipBlanks(s) != ""
    ensures ParseFields(s).Got? ==> SkipBlanks(s) != ""
  {
    hide SkipBlanks;
    if ParseItems(s).Got? { assert ParseValue(s).Got?; }
    if ParseFields(s).Got? { assert ParseField(s).Got?; }
  }

  lemma {:induction false} ObjectFront(s: string, x: string)
    requires EndsNumber(x) && ParseObject(s).Got?
    ensures ParseObject(s + x) == Got(ParseObject(s).value, ParseObject(s).rest + x)
    decreases |s|, 4
  {
    hide ParseFields, SkipBlanks, EndsNumber;
    var u := SkipBlanks(s);
    SkipBlanksFront(s, x);
    if u != "" && u[0] == '}' {
      SliceFront(u, x, 1);
    } else {
      FieldsFront(s, x);
      ItemsNotBlank(s);
    }
  }

  lemma {:induction false} ItemsFront(s: string, x: string)
    requires EndsNumber(x) && ParseItems(s).Got?
    ensures ParseItems(s + x) == Got(ParseItems(s).value, ParseItems(s).rest + x)
    decreases |s|, 2
  {
    hide ParseValue, SkipBlanks, EndsNumber;
    ValueFront(s, x);
    var t := ParseValue(s).rest;
    var u := SkipBlanks(t);
    SkipBlanksFront(t, x);
    SliceFront(u, x, 1);
    if u[0] == ',' { ItemsFront(u[1..], x); }
  }

  lemma {:induction false} FieldFront(s: string, x: string)
    requires EndsNumber(x) && ParseField(s).Got?
    ensures ParseField(s + x) == Got(ParseField(s).value, ParseField(s).rest + x)
    decreases |s|, 2
  {
    hide ParseValue, ParseStrBody, SkipBlanks, EndsNumber;
    var t := SkipBlanks(s);
    SkipBlanksFront(s, x);
    SliceFront(t, x, 1);
    StrFront(t[1..], x);
    var t1 := ParseStrBody(t[1..]).rest;
    var t2 := SkipBlanks(t1);
    SkipBlanksFront(t1, x);
    SliceFront(t2, x, 1);
    ValueFront(t2[1..], x);
  }

  lemma {:induction false} FieldsFront(s: string, x: string)
    requires EndsNumber(x) && ParseFields(s).Got?
    ensures ParseFields(s + x) == Got(ParseFields(s).value, ParseFields(s).rest + x)
    decreases |s|, 3
  {
    hide ParseField, SkipBlanks, EndsNumber;
    FieldFront(s, x);
    var t := ParseField(s).rest;
    var u := SkipBlanks(t);
    SkipBlanksFront(t, x);
    SliceFront(u, x, 1);
    if u[0] == ',' { FieldsFront(u[1..], x); }
  }

  /** A whole text is not a text any more with anything but blanks after it. */
  lemma ParseThenMore(s: string, x: string)
    requires Parse(s).Some? && EndsNumber(x) && SkipBlanks(x) != ""
    ensures Parse(s + x) == None
  {
    hide ParseValue, SkipBlanks, EndsNumber;
    ValueFront(s, x);
    SkipBlanksFront(ParseValue(s).rest, x);
  }

  predicate AllBlank(s: string) {
    forall i :: 0 <= i < |s| ==> IsBlank(s[i])
  }

  lemma {:induction false} SkipBlanksOf(s: string)
    ensures SkipBlanks(s) == "" <==> AllBlank(s)
    ensures SkipBlanks(s) != "" ==> !IsBlank(SkipBlanks(s)[0]) && SkipBlanks(s)[0] in s
  {
    if s != "" && IsBlank(s[0]) {
      SkipBlanksOf(s[1..]);
      assert s == [s[0]] + s[1..];
    }
  }

  lemma BlanksThenParse(s: string, x: string)
    requires AllBlank(s)
    ensures Parse(s + x) == Parse(x)
  {
    SkipBlanksOf(s);
    SkipBlanksFront(s, x);
  }

  predicate StartsJson(c: char) {
    c == '"' || c == '[' || c == '{' || c == '-' || IsDigit(c) || c == 'n' || c == 't' || c == 'f'
  }

  /** No value starts with any other character. */
  lemma BadStart(s: string)
    requires SkipBlanks(s) != "" && !StartsJson(SkipBlanks(s)[0])
    ensures Parse(s) == None
  {
    hide SkipBlanks, ParseStrBody, ParseArray, ParseObject, ParseNum;
    var t := SkipBlanks(s);
    assert !("null" <= t) && !("true" <= t) && !("false" <= t);
  }
}
