/** Canonical text is the shortest there is: no text that reads as the same value has fewer characters. */
module Compact {
  import opened Wrappers
  import opened Decimal
  import opened Json
  import opened Canonical
  import opened Octets

  // ----- Strings

  /** What an escape sequence stands for cannot be written shorter. */
  lemma EscapeShort(s: string)
    requires ParseEscape(s).Got?
    ensures |EscapeChar(ParseEscape(s).value)| + |ParseEscape(s).rest| <= |s| + 1
  {
  }

  /** No string is read from fewer characters than it is written with. */
  lemma {:induction false} StrShort(s: string)
    requires ParseStrBody(s).Got?
    ensures |Escape(ParseStrBody(s).value)| + 1 + |ParseStrBody(s).rest| <= |s|
    decreases |s|
  {
    hide EscapeChar, ParseEscape;
    if s[0] == '"' {
    } else if s[0] == '\\' {
      var r := ParseEscape(s[1..]);
      EscapeShort(s[1..]);
      StrShort(r.rest);
      EscapeCons(r.value, ParseStrBody(r.rest).value);
    } else {
      PlainShort(s[0]);
      StrShort(s[1..]);
      EscapeCons(s[0], ParseStrBody(s[1..]).value);
    }
  }

  lemma EscapeCons(c: char, t: string)
    ensures Escape([c] + t) == EscapeChar(c) + Escape(t)
  {
    assert ([c] + t)[1..] == t;
  }

  lemma PlainShort(c: char)
    requires c != '"' && c != '\\' && c as int >= 0x20
    ensures |EscapeChar(c)| == 1
  {
  }

  predicate UpperHexDigit(c: char) {
    'A' <= c <= 'F'
  }

  lemma HexLowerUnique(a: char, b: char)
    requires HexValue(a).Some? && HexValue(a) == HexValue(b) && !UpperHexDigit(a) && !UpperHexDigit(b)
    ensures a == b
  {
  }

  lemma Hex4Unique(a: string, b: string)
    requires |a| == 4 && |b| == 4 && Hex4(a).Some? && Hex4(a) == Hex4(b)
    requires forall i :: 0 <= i < 4 ==> !UpperHexDigit(a[i]) && !UpperHexDigit(b[i])
    ensures a == b
  {
    var p, q, r, s := HexValue(a[0]).value, HexValue(a[1]).value, HexValue(a[2]).value, HexValue(a[3]).value;
    var w, x, y, z := HexValue(b[0]).value, HexValue(b[1]).value, HexValue(b[2]).value, HexValue(b[3]).value;
    FourDigits(p, q, r, s, w, x, y, z);
    HexLowerUnique(a[0], b[0]);
    HexLowerUnique(a[1], b[1]);
    HexLowerUnique(a[2], b[2]);
    HexLowerUnique(a[3], b[3]);
  }

  lemma FourDigits(p: int, q: int, r: int, s: int, w: int, x: int, y: int, z: int)
    requires 0 <= p < 16 && 0 <= q < 16 && 0 <= r < 16 && 0 <= s < 16
    requires 0 <= w < 16 && 0 <= x < 16 && 0 <= y < 16 && 0 <= z < 16
    requires p * 4096 + q * 256 + r * 16 + s == w * 4096 + x * 256 + y * 16 + z
    ensures p == w && q == x && r == y && s == z
  {
  }

  /** Spellings of one character: text that reads as it between quotes. */
  predicate Spells(e: string, c: char) {
    ParseStrBody(e + "\"") == Got([c], "")
  }

  lemma SpelledPlain(e: string, c: char)
    requires Spells(e, c) && e != "" && e[0] != '\\'
    ensures e == [c] && c != '"' && c as int >= 0x20
  {
    var s := e + "\"";
    assert s[0] == e[0] && s[1..] == e[1..] + "\"";
    if e[0] != '"' && e[1..] != "" {
      StrShort(s[1..]);
      EmptyOnly(e[1..]);
    }
  }

  /** Only the empty text reads as the empty string. */
  lemma EmptyOnly(e: string)
    ensures ParseStrBody(e + "\"") == Got("", "") ==> e == ""
  {
    var s := e + "\"";
    if e != "" {
      assert s[0] == e[0] && s[1..] == e[1..] + "\"";
    }
  }

  lemma SpelledEscape(e: string, c: char)
    requires Spells(e, c) && e != "" && e[0] == '\\'
    ensures ParseEscape(e[1..] + "\"") == Got(c, "\"")
  {
    hide ParseEscape;
    var s := e + "\"";
    assert s[1..] == e[1..] + "\"";
    var r := ParseEscape(s[1..]);
    assert r.Got? && ParseStrBody(r.rest).Got?;
    var t := ParseStrBody(r.rest).value;
    assert [r.value] + t == [c];
    assert ([r.value] + t)[0] == r.value && |t| == 0;
    NothingRead(r.rest);
  }

  lemma NothingRead(s: string)
    requires ParseStrBody(s) == Got("", "")
    ensures s == "\""
  {
    assert s[0] == '"' && s == [s[0]] + s[1..];
  }

  lemma QuoteAlone(c: char)
    ensures !Spells("", c)
  {
    assert "" + "\"" == "\"";
  }

  /** Among all spellings of a character the written one is the shortest, and the only shortest with small digits. */
  lemma EscapeCharShortest(e: string, c: char)
    requires Spells(e, c)
    ensures |EscapeChar(c)| <= |e|
    ensures |e| == |EscapeChar(c)| && (forall i :: 2 <= i < |e| ==> !UpperHexDigit(e[i])) ==> e == EscapeChar(c)
  {
    if e == "" {
      QuoteAlone(c);
    } else if e[0] != '\\' {
      SpelledPlain(e, c);
    } else {
      SpelledEscape(e, c);
      var u := e[1..] + "\"";
      EscapeShort(u);
      if |e| == |EscapeChar(c)| && forall i :: 2 <= i < |e| ==> !UpperHexDigit(e[i]) {
        if |e| == 6 {
          UnicodeUnique(e, c);
        } else {
          LetterUnique(e, c);
        }
      }
    }
  }

  lemma LetterUnique(e: string, c: char)
    requires |e| == |EscapeChar(c)| && |e| != 6 && |e| > 0 && e[0] == '\\'
    requires ParseEscape(e[1..] + "\"") == Got(c, "\"")
    ensures e == EscapeChar(c)
  {
    var u := e[1..] + "\"";
    assert |e| >= 2;
    assert |e| == 2 && u[0] == e[1];
    assert e == [e[0], e[1]];
  }

  lemma UnicodeUnique(e: string, c: char)
    requires |e| == 6 && |EscapeChar(c)| == 6 && e[0] == '\\'
    requires ParseEscape(e[1..] + "\"") == Got(c, "\"")
    requires forall i :: 2 <= i < 6 ==> !UpperHexDigit(e[i])
    ensures e == EscapeChar(c)
  {
    var f := EscapeChar(c);
    UnicodeRead(e, c);
    UnicodeWritten(c);
    Hex4Unique(e[2..6], f[2..6]);
    assert e == e[..2] + e[2..6] && f == f[..2] + f[2..6];
  }

  lemma UnicodeRead(e: string, c: char)
    requires |e| == 6 && e[0] == '\\' && ParseEscape(e[1..] + "\"") == Got(c, "\"")
    ensures e[..2] == "\\u" && Hex4(e[2..6]) == Some(c as int)
  {
    var u := e[1..] + "\"";
    assert u[0] == e[1] && |u| == 6;
    assert e[1] == 'u';
    assert u[1..][..4] == e[2..6];
  }

  lemma UnicodeWritten(c: char)
    requires |EscapeChar(c)| == 6
    ensures EscapeChar(c)[..2] == "\\u" && Hex4(EscapeChar(c)[2..6]) == Some(c as int)
    ensures forall i :: 2 <= i < 6 ==> !UpperHexDigit(EscapeChar(c)[i])
  {
    HexDigitValue(c as int / 16);
    HexDigitValue(c as int % 16);
  }

  // ----- Numbers

  /** Digits without a needless zero in front are the digits of their number. */
  lemma {:induction false} DigitsOfText(ds: string)
    requires ds != "" && (forall i :: 0 <= i < |ds| ==> IsDigit(ds[i])) && (|ds| > 1 ==> ds[0] != '0')
    ensures Digits(ToNat(ds)) == ds
  {
    var front, d := ds[..|ds| - 1], ds[|ds| - 1];
    if |ds| == 1 {
      assert ToNat(front) == 0;
    } else {
      DigitsOfText(front);
      assert ToNat(front) != 0;
      TenTimes(ToNat(front), DigitValue(d));
      assert ds == front + [d];
    }
  }

  lemma TenTimes(n: nat, d: nat)
    requires d < 10
    ensures (n * 10 + d) / 10 == n && (n * 10 + d) % 10 == d
  {
  }

  lemma NumShort(s: string)
    requires ParseNum(s).Got?
    ensures |PrintInt(ParseNum(s).value)| + |ParseNum(s).rest| <= |s|
  {
    var negative := "-" <= s;
    var t := if negative then s[1..] else s;
    DigitsOfText(t[..Span(t)]);
  }

  // ----- Values

  lemma {:induction false} ValueShort(s: string)
    requires ParseValue(s).Got?
    ensures |Print(ParseValue(s).value)| + |ParseValue(s).rest| <= |s|
    decreases |s|, 1
  {
    hide ParseStrBody, ParseArray, ParseObject, ParseNum, PrintInt, Escape;
    var t := SkipBlanks(s);
    if t[0] == '"' {
      StrShort(t[1..]);
    } else if t[0] == '[' {
      ArrayShort(t[1..]);
    } else if t[0] == '{' {
      ObjectShort(t[1..]);
    } else if t[0] == '-' || IsDigit(t[0]) {
      NumShort(t);
    }
  }

  lemma {:induction false} ArrayShort(s: string)
    requires ParseArray(s).Got?
    ensures |Print(ParseArray(s).value)| + |ParseArray(s).rest| <= |s| + 1
    decreases |s|, 3
  {
    hide ParseItems, PrintItems;
    var u := SkipBlanks(s);
    if !(u != "" && u[0] == ']') { ItemsShort(s); }
  }

  lemma {:induction false} ObjectShort(s: string)
    requires ParseObject(s).Got?
    ensures |Print(ParseObject(s).value)| + |ParseObject(s).rest| <= |s| + 1
    decreases |s|, 4
  {
    hide ParseFields, PrintFields;
    var u := SkipBlanks(s);
    if !(u != "" && u[0] == '}') { FieldsShort(s); }
  }

  lemma {:induction false} ItemsShort(s: string)
    requires ParseItems(s).Got?
    ensures ParseItems(s).value != [] && |PrintItems(ParseItems(s).value)| + |ParseItems(s).rest| <= |s|
    decreases |s|, 2
  {
    hide ParseValue, Print;
    ValueShort(s);
    var v, t := ParseValue(s).value, ParseValue(s).rest;
    var u := SkipBlanks(t);
    if u[0] == ',' {
      ItemsShort(u[1..]);
      var tail := ParseItems(u[1..]).value;
      assert ([v] + tail)[1..] == tail;
    }
  }

  lemma {:induction false} FieldShort(s: string)
    requires ParseField(s).Got?
    ensures |PrintField(ParseField(s).value)| + |ParseField(s).rest| <= |s|
    decreases |s|, 2
  {
    hide ParseValue, Print, ParseStrBody, Escape;
    var t := SkipBlanks(s);
    StrShort(t[1..]);
    var t2 := SkipBlanks(ParseStrBody(t[1..]).rest);
    ValueShort(t2[1..]);
  }

  lemma {:induction false} FieldsShort(s: string)
    requires ParseFields(s).Got?
    ensures ParseFields(s).value != [] && |PrintFields(ParseFields(s).value)| + |ParseFields(s).rest| <= |s|
    decreases |s|, 3
  {
    hide ParseField, Print, PrintStr;
    FieldShort(s);
    var f, t := ParseField(s).value, ParseField(s).rest;
    var u := SkipBlanks(t);
    if u[0] == ',' {
      FieldsShort(u[1..]);
      var tail := ParseFields(u[1..]).value;
      assert ([f] + tail)[1..] == tail;
    }
  }

  /** Written text is the shortest that reads as the value. */
  lemma PrintShortest(t: string, v: Json)
    requires Parse(t) == Some(v)
    ensures |Print(v)| <= |t|
  {
    hide ParseValue, Print, SkipBlanks;
    ValueShort(t);
  }

  // ----- The same value, read into a map

  function ItemsSize(items: seq<Json>): nat {
    if items == [] then 0 else |Print(items[0])| + 1 + ItemsSize(items[1..])
  }

  function FieldsSize(fields: seq<Field>): nat {
    if fields == [] then 0 else |PrintField(fields[0])| + 1 + FieldsSize(fields[1..])
  }

  lemma {:induction false} ItemsSizeIs(items: seq<Json>)
    requires items != []
    ensures |PrintItems(items)| == ItemsSize(items)
  {
    hide Print;
    if |items| > 1 {
      ItemsSizeIs(items[1..]);
    } else {
      assert items[1..] == [];
    }
  }

  lemma {:induction false} FieldsSizeIs(fields: seq<Field>)
    requires fields != []
    ensures |PrintFields(fields)| == FieldsSize(fields)
  {
    hide Print, PrintStr;
    if |fields| > 1 {
      FieldsSizeIs(fields[1..]);
    } else {
      assert fields[1..] == [];
    }
  }

  lemma PrintSize(v: Json)
    ensures v.Arr? && v.items != [] ==> |Print(v)| == 1 + ItemsSize(v.items)
    ensures v.Obj? && v.fields != [] ==> |Print(v)| == 1 + FieldsSize(v.fields)
  {
    hide PrintItems, PrintFields;
    if v.Arr? && v.items != [] { ItemsSizeIs(v.items); }
    if v.Obj? && v.fields != [] { FieldsSizeIs(v.fields); }
  }

  lemma {:induction false} ItemsSizeLe(a: seq<Json>, b: seq<Json>)
    requires |a| == |b| && forall i :: 0 <= i < |a| ==> |Print(a[i])| <= |Print(b[i])|
    ensures ItemsSize(a) <= ItemsSize(b)
  {
    hide Print;
    if a != [] { ItemsSizeLe(a[1..], b[1..]); }
  }

  lemma {:induction false} FieldsSizeWithout(fields: seq<Field>, k: nat)
    requires k < |fields|
    ensures FieldsSize(fields) == FieldsSize(fields[..k] + fields[k + 1..]) + |PrintField(fields[k])| + 1
  {
    hide PrintField;
    if k == 0 {
      assert fields[..0] + fields[1..] == fields[1..];
    } else {
      FieldsSizeWithout(fields[1..], k - 1);
      var less := fields[..k] + fields[k + 1..];
      assert less[1..] == fields[1..][..k - 1] + fields[1..][k..];
    }
  }

  /** Entries with distinct names, each covered by one at least as long, take no more room. */
  lemma {:induction false} FieldsSizeLe(a: seq<Field>, b: seq<Field>)
    requires DistinctKeys(a)
    requires forall f :: f in a ==> exists g :: g in b && g.key == f.key && |PrintField(f)| <= |PrintField(g)|
    ensures FieldsSize(a) <= FieldsSize(b)
    decreases |a|
  {
    hide PrintField;
    if a != [] {
      var f := a[0];
      assert f in a;
      var g :| g in b && g.key == f.key && |PrintField(f)| <= |PrintField(g)|;
      var k :| 0 <= k < |b| && b[k] == g;
      var less := b[..k] + b[k + 1..];
      forall h | h in a[1..]
        ensures exists x :: x in less && x.key == h.key && |PrintField(h)| <= |PrintField(x)|
      {
        var j :| 0 <= j < |a[1..]| && a[1..][j] == h;
        assert a[j + 1] == h && h.key != f.key && h in a;
        var x :| x in b && x.key == h.key && |PrintField(h)| <= |PrintField(x)|;
        assert x in less;
      }
      FieldsSizeLe(a[1..], less);
      FieldsSizeWithout(b, k);
    }
  }

  lemma FieldLe(f: Field, g: Field)
    requires f.key == g.key && |Print(f.value)| <= |Print(g.value)|
    ensures |PrintField(f)| <= |PrintField(g)|
  {
    hide Print, PrintStr;
  }

  lemma LongerArray(w: seq<Json>, v: seq<Json>)
    requires |w| == |v| && forall i :: 0 <= i < |v| ==> |Print(v[i])| <= |Print(w[i])|
    ensures |Print(Arr(v))| <= |Print(Arr(w))|
  {
    hide Print, ItemsSize;
    PrintSize(Arr(v));
    PrintSize(Arr(w));
    ItemsSizeLe(v, w);
    if v == [] { assert w == []; }
  }

  lemma LongerObject(w: seq<Field>, v: seq<Field>)
    requires DistinctKeys(v) && (v == [] ==> w == [])
    requires forall f :: f in v ==> exists g :: g in w && g.key == f.key && |PrintField(f)| <= |PrintField(g)|
    ensures |Print(Obj(v))| <= |Print(Obj(w))|
  {
    hide Print, PrintField, FieldsSize;
    PrintSize(Obj(v));
    PrintSize(Obj(w));
    if v != [] {
      FieldsSizeLe(v, w);
      assert v[0] in v;
      var g :| g in w && g.key == v[0].key;
    }
  }

  ghost predicate Matched(fields: seq<Field>, f: Field) {
    exists g :: g in fields && g.key == f.key && SameValue(g.value, f.value)
  }

  lemma SameObjectMatches(w: seq<Field>, v: seq<Field>, f: Field)
    requires SameValue(Obj(w), Obj(v)) && f in v
    ensures Matched(w, f)
  {
  }

  lemma NotSameAsEmpty(w: seq<Field>)
    requires w != []
    ensures !SameValue(Obj(w), Obj([]))
  {
    assert w[0] in w;
  }

  lemma ProperObject(v: seq<Field>)
    requires Proper(Obj(v))
    ensures DistinctKeys(v) && forall f :: f in v ==> Proper(f.value)
  {
  }

  lemma SameObjects(w: seq<Field>, v: seq<Field>)
    requires SameValue(Obj(w), Obj(v)) && Proper(Obj(v))
    ensures (forall f :: f in v ==> Matched(w, f) && Proper(f.value)) && DistinctKeys(v) && (v == [] ==> w == [])
  {
    hide SameValue, Matched, Proper;
    ProperObject(v);
    forall f | f in v
      ensures Matched(w, f)
    {
      SameObjectMatches(w, v, f);
    }
    if v == [] && w != [] { NotSameAsEmpty(w); }
  }

  lemma {:induction false} SameFieldLonger(fields: seq<Field>, f: Field) returns (g: Field)
    requires Matched(fields, f) && Proper(f.value)
    ensures g in fields && g.key == f.key && |PrintField(f)| <= |PrintField(g)|
    decreases fields, 0
  {
    hide Print, PrintField, SameValue, Proper;
    g :| g in fields && g.key == f.key && SameValue(g.value, f.value);
    SameValueLonger(g.value, f.value);
    FieldLe(f, g);
  }

  lemma {:induction false} SameObjectLonger(w: seq<Field>, v: seq<Field>)
    requires SameValue(Obj(w), Obj(v)) && Proper(Obj(v))
    ensures |Print(Obj(v))| <= |Print(Obj(w))|
    decreases w, 1
  {
    hide Print, PrintField, SameValue, Proper, Matched;
    SameObjects(w, v);
    forall f | f in v
      ensures exists g :: g in w && g.key == f.key && |PrintField(f)| <= |PrintField(g)|
    {
      var g := SameFieldLonger(w, f);
    }
    LongerObject(w, v);
  }

  lemma {:induction false} SameValueLonger(w: Json, v: Json)
    requires SameValue(w, v) && Proper(v)
    ensures |Print(v)| <= |Print(w)|
    decreases w, 2
  {
    hide Print, PrintField;
    match w
    case Arr(items) =>
      forall i | 0 <= i < |items|
        ensures |Print(v.items[i])| <= |Print(items[i])|
      {
        SameValueLonger(items[i], v.items[i]);
      }
      LongerArray(items, v.items);
    case Obj(fields) => SameObjectLonger(fields, v.fields);
    case _ =>
  }

  lemma NormalizeShorter(v: Json)
    requires Proper(v)
    ensures |Canon(v)| <= |Print(v)|
  {
    hide Print, Normalize;
    NormalizeProper(v);
    SameValueSameNormal(v, Normalize(v));
    SameValueLonger(v, Normalize(v));
  }

  /** Canonical text is the shortest of all texts that read as the same mapping, in any order, repeated or not. */
  lemma CanonShortest(t: string, w: Json, v: Value)
    requires Parse(t) == Some(w) && SameValue(w, v)
    ensures |Canon(v)| <= |t|
  {
    hide Print, Normalize, Parse;
    PrintShortest(t, w);
    SameValueLonger(w, v);
    NormalizeShorter(v);
  }
}
