/**
 JSON text (RFC 8259) as serde_json reads and writes it, with integer numbers only.
 A parsed object keeps its entries in the order of the text, repeated names included.
 */
module Json {
  import opened Wrappers
  import opened Decimal
  import opened Octets

  /** The integers serde_json keeps exact: those of i64 and u64. */
  type jint = x: int | -0x8000_0000_0000_0000 <= x < 0x1_0000_0000_0000_0000

  datatype Json =
    | Null
    | Bool(b: bool)
    | Num(n: jint)
    | Str(s: string)
    | Arr(items: seq<Json>)
    | Obj(fields: seq<Field>)

  datatype Field = Field(key: string, value: Json)

  datatype Parsed<+T> = Fail | Got(value: T, rest: string) {
    predicate IsFailure() { Fail? }

    function PropagateFailure<U>(): Parsed<U>
      requires Fail?
    {
      Fail
    }

    function Extract(): (T, string)
      requires Got?
    {
      (value, rest)
    }
  }

  // ----- Writing

  function EscapeChar(c: char): (s: string)
    ensures |s| >= 1
  {
    if c == '"' then "\\\""
    else if c == '\\' then "\\\\"
    else if c == 8 as char then "\\b"
    else if c == 12 as char then "\\f"
    else if c == '\n' then "\\n"
    else if c == '\r' then "\\r"
    else if c == '\t' then "\\t"
    else if c as int < 0x20 then "\\u00" + [HexDigit(c as int / 16), HexDigit(c as int % 16)]
    else [c]
  }

  function Escape(s: string): string {
    if s == "" then "" else EscapeChar(s[0]) + Escape(s[1..])
  }

  function PrintStr(s: string): string {
    "\"" + Escape(s) + "\""
  }

  /** Compact text: no white space, entries in the order they stand. */
  function Print(v: Json): (s: string)
    decreases v, 1
  {
    match v
    case Null => "null"
    case Bool(b) => if b then "true" else "false"
    case Num(n) => PrintInt(n)
    case Str(s) => PrintStr(s)
    case Arr(items) => if items == [] then "[]" else "[" + PrintItems(items)
    case Obj(fields) => if fields == [] then "{}" else "{" + PrintFields(fields)
  }

  /** The items and the closing bracket. */
  function PrintItems(items: seq<Json>): string
    requires items != []
    decreases items, 0
  {
    Print(items[0]) + if |items| == 1 then "]" else "," + PrintItems(items[1..])
  }

  function PrintFields(fields: seq<Field>): string
    requires fields != []
    decreases fields, 0
  {
    PrintStr(fields[0].key) + ":" + Print(fields[0].value)
    + if |fields| == 1 then "}" else "," + PrintFields(fields[1..])
  }

  // ----- Reading

  predicate IsBlank(c: char) {
    c == ' ' || c == '\t' || c == '\n' || c == '\r'
  }

  function SkipBlanks(s: string): (t: string)
    ensures |t| <= |s|
  {
    if s != "" && IsBlank(s[0]) then SkipBlanks(s[1..]) else s
  }

  function HexValue(c: char): (r: Option<int>)
    ensures r.Some? ==> 0 <= r.value < 16
  {
    if '0' <= c <= '9' then Some(c as int - '0' as int)
    else if 'a' <= c <= 'f' then Some(c as int - 'a' as int + 10)
    else if 'A' <= c <= 'F' then Some(c as int - 'A' as int + 10)
    else None
  }

  /** Four hexadecimal digits at the front of `s`. */
  function Hex4(s: string): (r: Option<int>)
    ensures r.Some? ==> |s| >= 4 && 0 <= r.value < 0x10000
  {
    if |s| < 4 then None
    else
      var a :- HexValue(s[0]);
      var b :- HexValue(s[1]);
      var c :- HexValue(s[2]);
      var d :- HexValue(s[3]);
      Some(a * 4096 + b * 256 + c * 16 + d)
  }

  /** What follows a backslash; a surrogate pair gives one character, a lone surrogate is refused. */
  function ParseEscape(s: string): (r: Parsed<char>)
    ensures r.Got? ==> |r.rest| < |s|
  {
    if s == "" then Fail
    else if s[0] == '"' || s[0] == '\\' || s[0] == '/' then Got(s[0], s[1..])
    else if s[0] == 'b' then Got(8 as char, s[1..])
    else if s[0] == 'f' then Got(12 as char, s[1..])
    else if s[0] == 'n' then Got('\n', s[1..])
    else if s[0] == 'r' then Got('\r', s[1..])
    else if s[0] == 't' then Got('\t', s[1..])
    else if s[0] == 'u' then
      match Hex4(s[1..])
      case None => Fail
      case Some(n) =>
        if 0xDC00 <= n < 0xE000 then Fail
        else if 0xD800 <= n < 0xDC00 then
          if |s| >= 7 && s[5] == '\\' && s[6] == 'u' then
            match Hex4(s[7..])
            case None => Fail
            case Some(m) =>
              if 0xDC00 <= m < 0xE000 then
                Got((0x10000 + (n - 0xD800) * 0x400 + (m - 0xDC00)) as char, s[11..])
              else Fail
          else Fail
        else Got(n as char, s[5..])
    else Fail
  }

  /** The rest of a string after its opening quote. */
  function ParseStrBody(s: string): (r: Parsed<string>)
    ensures r.Got? ==> |r.rest| < |s|
    decreases |s|
  {
    if s == "" then Fail
    else if s[0] == '"' then Got("", s[1..])
    else if s[0] == '\\' then
      var (c, t) :- ParseEscape(s[1..]);
      var (tail, rest) :- ParseStrBody(t);
      Got([c] + tail, rest)
    else if s[0] as int < 0x20 then Fail
    else
      var (tail, rest) :- ParseStrBody(s[1..]);
      Got([s[0]] + tail, rest)
  }

  /** Digits with no needless leading zero. */
  function ParseDigits(s: string): (r: Parsed<nat>)
    ensures r.Got? ==> |r.rest| < |s|
  {
    var k := Span(s);
    if k == 0 || (k > 1 && s[0] == '0') then Fail else Got(ToNat(s[..k]), s[k..])
  }

  predicate IsFraction(rest: string) {
    rest != "" && (rest[0] == '.' || rest[0] == 'e' || rest[0] == 'E')
  }

  /** An integer; fractions, exponents, negative zero and values beyond 64 bits are not read. */
  function ParseNum(s: string): (r: Parsed<jint>)
    ensures r.Got? ==> |r.rest| < |s|
  {
    var negative := "-" <= s;
    var (m, rest) :- ParseDigits(if negative then s[1..] else s);
    var k: int := m;
    var n := if negative then -k else k;
    if IsFraction(rest) || (negative && n == 0) || !InRange(n) then Fail else Got(n, rest)
  }

  predicate InRange(n: int) {
    -0x8000_0000_0000_0000 <= n < 0x1_0000_0000_0000_0000
  }

  function ParseLiteral(t: string): (r: Parsed<Json>)
    ensures r.Got? ==> |r.rest| < |t|
  {
    if "null" <= t then Got(Null, t[4..])
    else if "true" <= t then Got(Bool(true), t[4..])
    else if "false" <= t then Got(Bool(false), t[5..])
    else Fail
  }

  function ParseValue(s: string): (r: Parsed<Json>)
    ensures r.Got? ==> |r.rest| < |s|
    decreases |s|, 1
  {
    var t := SkipBlanks(s);
    if t == "" then Fail
    else if t[0] == '"' then
      match ParseStrBody(t[1..])
      case Fail => Fail
      case Got(x, rest) => Got(Str(x), rest)
    else if t[0] == '[' then ParseArray(t[1..])
    else if t[0] == '{' then ParseObject(t[1..])
    else if t[0] == '-' || IsDigit(t[0]) then
      match ParseNum(t)
      case Fail => Fail
      case Got(n, rest) => Got(Num(n), rest)
    else ParseLiteral(t)
  }

  /** The rest of an array after its opening bracket. */
  function ParseArray(s: string): (r: Parsed<Json>)
    ensures r.Got? ==> |r.rest| <= |s|
    decreases |s|, 3
  {
    var u := SkipBlanks(s);
    if u != "" && u[0] == ']' then Got(Arr([]), u[1..])
    else
      match ParseItems(s)
      case Fail => Fail
      case Got(items, rest) => Got(Arr(items), rest)
  }

  function ParseObject(s: string): (r: Parsed<Json>)
    ensures r.Got? ==> |r.rest| <= |s|
    decreases |s|, 4
  {
    var u := SkipBlanks(s);
    if u != "" && u[0] == '}' then Got(Obj([]), u[1..])
    else
      match ParseFields(s)
      case Fail => Fail
      case Got(fields, rest) => Got(Obj(fields), rest)
  }

  function ParseItems(s: string): (r: Parsed<seq<Json>>)
    ensures r.Got? ==> |r.rest| < |s|
    decreases |s|, 2
  {
    match ParseValue(s)
    case Fail => Fail
    case Got(v, t) =>
      var u := SkipBlanks(t);
      if u == "" then Fail
      else if u[0] == ']' then Got([v], u[1..])
      else if u[0] == ',' then
        match ParseItems(u[1..])
        case Fail => Fail
        case Got(tail, rest) => Got([v] + tail, rest)
      else Fail
  }

  /** One `"name": value`. */
  function ParseField(s: string): (r: Parsed<Field>)
    ensures r.Got? ==> |r.rest| < |s|
    decreases |s|, 2
  {
    var t := SkipBlanks(s);
    if t == "" || t[0] != '"' then Fail
    else
      match ParseStrBody(t[1..])
      case Fail => Fail
      case Got(key, t1) =>
        var t2 := SkipBlanks(t1);
        if t2 == "" || t2[0] != ':' then Fail
        else
          match ParseValue(t2[1..])
          case Fail => Fail
          case Got(v, rest) => Got(Field(key, v), rest)
  }

  function ParseFields(s: string): (r: Parsed<seq<Field>>)
    ensures r.Got? ==> |r.rest| < |s|
    decreases |s|, 3
  {
    match ParseField(s)
    case Fail => Fail
    case Got(f, t) =>
      var u := SkipBlanks(t);
      if u == "" then Fail
      else if u[0] == '}' then Got([f], u[1..])
      else if u[0] == ',' then
        match ParseFields(u[1..])
        case Fail => Fail
        case Got(tail, rest) => Got([f] + tail, rest)
      else Fail
  }

  /** `serde_json::from_str`: one value, then nothing but blanks. */
  function Parse(s: string): Option<Json> {
    match ParseValue(s)
    case Fail => None
    case Got(v, rest) => if SkipBlanks(rest) == "" then Some(v) else None
  }

  // ----- Reading back what was written

  /** Text after which a number has ended. */
  predicate EndsNumber(rest: string) {
    rest != "" ==> !IsDigit(rest[0]) && rest[0] != '.' && rest[0] != 'e' && rest[0] != 'E'
  }

  lemma HexDigitValue(n: int)
    requires 0 <= n < 16
    ensures HexValue(HexDigit(n)) == Some(n)
  {
  }

  lemma EscapeCharReads(c: char, w: string)
    ensures ParseStrBody(EscapeChar(c) + w) ==
            match ParseStrBody(w) { case Fail => Fail case Got(t, rest) => Got([c] + t, rest) }
  {
    var e := EscapeChar(c);
    var s := e + w;
    if |e| == 1 {
      assert s[1..] == w;
    } else {
      var u := s[1..];
      if |e| == 2 {
        assert u[1..] == w;
      } else {
        var n := c as int;
        assert u == ['u', '0', '0', HexDigit(n / 16), HexDigit(n % 16)] + w;
        assert u[1..][0] == '0' && u[1..][1] == '0' && u[1..][2] == HexDigit(n / 16) && u[1..][3] == HexDigit(n % 16);
        HexDigitValue(n / 16);
        HexDigitValue(n % 16);
        assert Hex4(u[1..]) == Some(n);
        assert u[5..] == w;
      }
      assert ParseEscape(u) == Got(c, w);
    }
  }

  lemma {:induction false} StrReads(s: string, rest: string)
    ensures ParseStrBody(Escape(s) + "\"" + rest) == Got(s, rest)
  {
    hide EscapeChar;
    if s == "" {
      assert Escape(s) + "\"" + rest == "\"" + rest;
      assert ("\"" + rest)[1..] == rest;
    } else {
      var e := Escape(s[1..]);
      StrReads(s[1..], rest);
      EscapeCharReads(s[0], e + "\"" + rest);
      Assoc(EscapeChar(s[0]), e, "\"");
      Assoc(EscapeChar(s[0]), e + "\"", rest);
      assert s == [s[0]] + s[1..];
    }
  }

  lemma DigitsRead(m: nat, rest: string)
    requires EndsNumber(rest)
    ensures ParseDigits(Digits(m) + rest) == Got(m, rest)
  {
    var d := Digits(m);
    var s := d + rest;
    SpanOfDigits(d, rest);
    ToNatDigits(m);
    assert s[..|d|] == d && s[|d|..] == rest;
    assert s[0] == d[0];
  }

  lemma PlainReads(n: nat, t: string, rest: string)
    requires EndsNumber(rest) && t != "" && t[0] != '-'
    requires InRange(n) && ParseDigits(t) == Got(n, rest)
    ensures ParseNum(t) == Got(n, rest)
  {
  }

  lemma NegativeReads(n: nat, t: string, rest: string)
    requires EndsNumber(rest) && n > 0
    requires InRange(0 - n) && ParseDigits(t) == Got(n, rest)
    ensures ParseNum("-" + t) == Got(0 - n, rest)
  {
    assert ("-" + t)[1..] == t;
  }

  lemma NumReads(n: jint, rest: string)
    requires EndsNumber(rest)
    ensures ParseNum(PrintInt(n) + rest) == Got(n, rest)
    ensures IsDigit(PrintInt(n)[0]) || PrintInt(n)[0] == '-'
  {
    hide ParseNum;
    var k: int := n;
    var m: nat := if k < 0 then -k else k;
    var d := Digits(m);
    DigitsRead(m, rest);
    if n < 0 {
      NegativeReads(m, d + rest, rest);
      assert PrintInt(n) + rest == "-" + (d + rest);
    } else {
      PlainReads(m, d + rest, rest);
    }
  }

  predicate StartsValue(c: char) {
    !IsBlank(c) && c != ']' && c != '}'
  }

  lemma PrintStarts(v: Json)
    ensures Print(v) != "" && StartsValue(Print(v)[0])
  {
    match v
    case Num(n) => NumReads(n, "");
    case _ =>
  }

  lemma LiteralReads(v: Json, rest: string)
    requires v.Null? || v.Bool?
    ensures ParseValue(Print(v) + rest) == Got(v, rest)
  {
    var s := Print(v) + rest;
    assert SkipBlanks(s) == s && Print(v) <= s;
    assert s[|Print(v)|..] == rest;
  }

  lemma EmptyReads(v: Json, rest: string)
    requires v == Arr([]) || v == Obj([])
    ensures ParseValue(Print(v) + rest) == Got(v, rest)
  {
    var s := Print(v) + rest;
    assert s[1..] == Print(v)[1..] + rest;
    assert s[1..][1..] == rest;
  }

  // One step of each parser, stated without mentioning the writer.

  lemma ReadsString(s: string, x: string, rest: string)
    requires s != "" && s[0] == '"' && ParseStrBody(s[1..]) == Got(x, rest)
    ensures ParseValue(s) == Got(Str(x), rest)
  {
  }

  lemma ReadsNumber(s: string, n: jint, rest: string)
    requires s != "" && (IsDigit(s[0]) || s[0] == '-') && ParseNum(s) == Got(n, rest)
    ensures ParseValue(s) == Got(Num(n), rest)
  {
    hide ParseNum;
    assert SkipBlanks(s) == s;
  }

  lemma ReadsArray(s: string, items: seq<Json>, rest: string)
    requires |s| >= 2 && s[0] == '[' && StartsValue(s[1]) && ParseItems(s[1..]) == Got(items, rest)
    ensures ParseValue(s) == Got(Arr(items), rest)
  {
  }

  lemma ReadsObject(s: string, fields: seq<Field>, rest: string)
    requires |s| >= 2 && s[0] == '{' && StartsValue(s[1]) && ParseFields(s[1..]) == Got(fields, rest)
    ensures ParseValue(s) == Got(Obj(fields), rest)
  {
  }

  lemma ReadsLastItem(s: string, v: Json, rest: string)
    requires ParseValue(s) == Got(v, "]" + rest)
    ensures ParseItems(s) == Got([v], rest)
  {
  }

  lemma ReadsItem(s: string, v: Json, t: string, items: seq<Json>, rest: string)
    requires ParseValue(s) == Got(v, "," + t) && ParseItems(t) == Got(items, rest)
    ensures ParseItems(s) == Got([v] + items, rest)
  {
    assert ("," + t)[1..] == t;
  }

  lemma ReadsField(s: string, f: Field, t: string, rest: string)
    requires s != "" && s[0] == '"' && ParseStrBody(s[1..]) == Got(f.key, ":" + t)
    requires ParseValue(t) == Got(f.value, rest)
    ensures ParseField(s) == Got(f, rest)
  {
    assert (":" + t)[1..] == t;
  }

  lemma ReadsLastField(s: string, f: Field, rest: string)
    requires ParseField(s) == Got(f, "}" + rest)
    ensures ParseFields(s) == Got([f], rest)
  {
  }

  lemma ReadsFields(s: string, f: Field, t: string, fields: seq<Field>, rest: string)
    requires ParseField(s) == Got(f, "," + t) && ParseFields(t) == Got(fields, rest)
    ensures ParseFields(s) == Got([f] + fields, rest)
  {
    hide ParseField;
    assert ("," + t)[1..] == t;
  }

  // The writer's text cut at its first piece.

  lemma PrintArr(items: seq<Json>, rest: string)
    requires items != []
    ensures (Print(Arr(items)) + rest)[0] == '['
    ensures (Print(Arr(items)) + rest)[1..] == PrintItems(items) + rest
    ensures StartsValue((Print(Arr(items)) + rest)[1])
  {
    PrintStarts(items[0]);
  }

  lemma PrintObj(fields: seq<Field>, rest: string)
    requires fields != []
    ensures (Print(Obj(fields)) + rest)[0] == '{'
    ensures (Print(Obj(fields)) + rest)[1..] == PrintFields(fields) + rest
    ensures StartsValue((Print(Obj(fields)) + rest)[1])
  {
  }

  lemma PrintLastItem(v: Json, rest: string)
    ensures PrintItems([v]) + rest == Print(v) + ("]" + rest)
  {
  }

  lemma PrintMoreItems(v: Json, items: seq<Json>, rest: string)
    requires items != []
    ensures PrintItems([v] + items) + rest == Print(v) + ("," + (PrintItems(items) + rest))
  {
    assert ([v] + items)[1..] == items;
  }

  function PrintField(f: Field): string {
    PrintStr(f.key) + ":" + Print(f.value)
  }

  lemma PrintLastField(f: Field, rest: string)
    ensures PrintFields([f]) + rest == PrintField(f) + ("}" + rest)
  {
  }

  lemma PrintMoreFields(f: Field, fields: seq<Field>, rest: string)
    requires fields != []
    ensures PrintFields([f] + fields) + rest == PrintField(f) + ("," + (PrintFields(fields) + rest))
  {
    assert ([f] + fields)[1..] == fields;
  }

  lemma NumValueReads(n: jint, rest: string)
    requires EndsNumber(rest)
    ensures ParseValue(Print(Num(n)) + rest) == Got(Num(n), rest)
  {
    NumReads(n, rest);
    ReadsNumber(PrintInt(n) + rest, n, rest);
  }

  lemma StrValueReads(x: string, rest: string)
    ensures ParseValue(Print(Str(x)) + rest) == Got(Str(x), rest)
  {
    hide ParseStrBody, Escape;
    var s := PrintStr(x) + rest;
    StrReads(x, rest);
    assert s[1..] == Escape(x) + "\"" + rest;
    ReadsString(s, x, rest);
  }

  lemma ArrValueReads(items: seq<Json>, rest: string)
    requires items != [] && ParseItems(PrintItems(items) + rest) == Got(items, rest)
    ensures ParseValue(Print(Arr(items)) + rest) == Got(Arr(items), rest)
  {
    PrintArr(items, rest);
    ReadsArray(Print(Arr(items)) + rest, items, rest);
  }

  lemma ObjValueReads(fields: seq<Field>, rest: string)
    requires fields != [] && ParseFields(PrintFields(fields) + rest) == Got(fields, rest)
    ensures ParseValue(Print(Obj(fields)) + rest) == Got(Obj(fields), rest)
  {
    PrintObj(fields, rest);
    ReadsObject(Print(Obj(fields)) + rest, fields, rest);
  }

  lemma FieldValueReads(f: Field, rest: string)
    requires ParseValue(Print(f.value) + rest) == Got(f.value, rest)
    ensures ParseField(PrintField(f) + rest) == Got(f, rest)
  {
    var t := Print(f.value) + rest;
    PrintFieldCut(f, rest);
    StrReads(f.key, ":" + t);
    ReadsField(PrintField(f) + rest, f, t, rest);
  }

  lemma PrintFieldCut(f: Field, rest: string)
    ensures (PrintField(f) + rest)[0] == '"'
    ensures (PrintField(f) + rest)[1..] == Escape(f.key) + "\"" + (":" + (Print(f.value) + rest))
  {
  }

  /** The writer's text, followed by anything a number cannot run into, is read back exactly. */
  lemma {:induction false} ValueReads(v: Json, rest: string)
    requires EndsNumber(rest)
    ensures ParseValue(Print(v) + rest) == Got(v, rest)
    decreases v, 1
  {
    if v.Num? {
      NumValueReads(v.n, rest);
    } else if v.Str? {
      StrValueReads(v.s, rest);
    } else if v.Arr? && v.items != [] {
      ItemsRead(v.items, rest);
      ArrValueReads(v.items, rest);
    } else if v.Obj? && v.fields != [] {
      FieldsRead(v.fields, rest);
      ObjValueReads(v.fields, rest);
    } else if v.Arr? || v.Obj? {
      EmptyReads(v, rest);
    } else {
      LiteralReads(v, rest);
    }
  }

  lemma {:induction false} ItemsRead(items: seq<Json>, rest: string)
    requires items != []
    ensures ParseItems(PrintItems(items) + rest) == Got(items, rest)
    decreases items, 0
  {
    var v, more, s := items[0], items[1..], PrintItems(items) + rest;
    assert items == [v] + more;
    if more == [] {
      assert items == [v];
      ValueReads(v, "]" + rest);
      PrintLastItem(v, rest);
      ReadsLastItem(s, v, rest);
    } else {
      var t := PrintItems(more) + rest;
      ValueReads(v, "," + t);
      ItemsRead(more, rest);
      PrintMoreItems(v, more, rest);
      ReadsItem(s, v, t, more, rest);
    }
  }

  lemma {:induction false} FieldsRead(fields: seq<Field>, rest: string)
    requires fields != []
    ensures ParseFields(PrintFields(fields) + rest) == Got(fields, rest)
    decreases fields, 0
  {
    var f, more, s := fields[0], fields[1..], PrintFields(fields) + rest;
    assert fields == [f] + more;
    if more == [] {
      assert fields == [f];
      ValueReads(f.value, "}" + rest);
      FieldValueReads(f, "}" + rest);
      PrintLastField(f, rest);
      ReadsLastField(s, f, rest);
    } else {
      var t := PrintFields(more) + rest;
      ValueReads(f.value, "," + t);
      FieldValueReads(f, "," + t);
      FieldsRead(more, rest);
      PrintMoreFields(f, more, rest);
      ReadsFields(s, f, t, more, rest);
    }
  }

  lemma ParsePrint(v: Json)
    ensures Parse(Print(v)) == Some(v)
  {
    ValueReads(v, "");
    assert Print(v) + "" == Print(v);
  }

  lemma PrintInjective(v: Json, w: Json)
    requires Print(v) == Print(w)
    ensures v == w
  {
    ParsePrint(v);
    ParsePrint(w);
  }

  // ----- Nothing written is a control character

  predicate Visible(s: string) {
    forall i :: 0 <= i < |s| ==> s[i] as int >= 0x20
  }

  lemma {:induction false} EscapeVisible(s: string)
    ensures Visible(Escape(s))
  {
    if s != "" { EscapeVisible(s[1..]); }
  }

  lemma {:induction false} PrintVisible(v: Json)
    ensures Visible(Print(v))
    decreases v, 1
  {
    match v
    case Str(s) => EscapeVisible(s);
    case Arr(items) => if items != [] { ItemsVisible(items); }
    case Obj(fields) => if fields != [] { FieldsVisible(fields); }
    case _ =>
  }

  lemma {:induction false} ItemsVisible(items: seq<Json>)
    requires items != []
    ensures Visible(PrintItems(items))
    decreases items, 0
  {
    PrintVisible(items[0]);
    if |items| > 1 { ItemsVisible(items[1..]); }
  }

  lemma {:induction false} FieldsVisible(fields: seq<Field>)
    requires fields != []
    ensures Visible(PrintFields(fields))
    decreases fields, 0
  {
    EscapeVisible(fields[0].key);
    PrintVisible(fields[0].value);
    if |fields| > 1 { FieldsVisible(fields[1..]); }
  }

  /** An object's text starts and ends with its braces. */
  lemma {:induction false} PrintObjEnds(fields: seq<Field>)
    ensures var s := Print(Obj(fields)); |s| >= 2 && s[0] == '{' && s[|s| - 1] == '}'
  {
    if fields != [] { FieldsEnd(fields); }
  }

  lemma {:induction false} FieldsEnd(fields: seq<Field>)
    requires fields != []
    ensures var s := PrintFields(fields); |s| >= 1 && s[|s| - 1] == '}'
  {
    if |fields| > 1 { FieldsEnd(fields[1..]); }
  }
}
