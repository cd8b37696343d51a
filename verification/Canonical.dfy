/**
 Canonical JSON: compact text with the entries of every object sorted by the UTF-8 bytes of
 their names. Signatures and audit hashes cover exactly this text.
 */
module Canonical {
  import opened Octets
  import opened Wrappers
  import opened Json
  import Decimal
  import Utf8

  predicate DistinctKeys(fields: seq<Field>) {
    forall i, j :: 0 <= i < j < |fields| ==> fields[i].key != fields[j].key
  }

  /** No object repeats a name, at any depth. */
  predicate Proper(v: Json) {
    match v
    case Arr(items) => forall i :: 0 <= i < |items| ==> Proper(items[i])
    case Obj(fields) => DistinctKeys(fields) && forall i :: 0 <= i < |fields| ==> Proper(fields[i].value)
    case _ => true
  }

  /** What a `serde_json::Value` can hold: its objects are maps, iterated in some order. */
  type Value = v: Json | Proper(v) witness Null

  // ----- Sorting the entries of one object

  predicate KeyLe(a: string, b: string) {
    LexLe(Utf8.Encode(a), Utf8.Encode(b))
  }

  function Insert(f: Field, fields: seq<Field>): seq<Field> {
    if fields == [] || KeyLe(f.key, fields[0].key) then [f] + fields
    else [fields[0]] + Insert(f, fields[1..])
  }

  function Sort(fields: seq<Field>): seq<Field> {
    if fields == [] then [] else Insert(fields[0], Sort(fields[1..]))
  }

  predicate StrictlySorted(fields: seq<Field>) {
    forall i, j :: 0 <= i < j < |fields| ==> KeyLe(fields[i].key, fields[j].key) && fields[i].key != fields[j].key
  }

  predicate SameEntries(a: seq<Field>, b: seq<Field>) {
    (forall f :: f in a ==> f in b) && (forall f :: f in b ==> f in a)
  }

  lemma KeyAntisymmetric(a: string, b: string)
    requires KeyLe(a, b) && KeyLe(b, a)
    ensures a == b
  {
    LexAntisymmetric(Utf8.Encode(a), Utf8.Encode(b));
    Utf8.EncodeInjective(a, b);
  }

  lemma KeyOrder(a: string, b: string, c: string)
    ensures KeyLe(a, b) || KeyLe(b, a)
    ensures KeyLe(a, b) && KeyLe(b, c) ==> KeyLe(a, c)
  {
    LexTotal(Utf8.Encode(a), Utf8.Encode(b));
    if KeyLe(a, b) && KeyLe(b, c) {
      LexTransitive(Utf8.Encode(a), Utf8.Encode(b), Utf8.Encode(c));
    }
  }

  lemma {:induction false} InsertEntries(f: Field, fields: seq<Field>)
    ensures |Insert(f, fields)| == |fields| + 1
    ensures forall g :: g in Insert(f, fields) <==> g == f || g in fields
  {
    if fields != [] && !KeyLe(f.key, fields[0].key) {
      InsertEntries(f, fields[1..]);
      assert fields == [fields[0]] + fields[1..];
    }
  }

  lemma {:induction false} InsertSorted(f: Field, fields: seq<Field>)
    requires StrictlySorted(fields) && forall g :: g in fields ==> g.key != f.key
    ensures StrictlySorted(Insert(f, fields))
  {
    hide KeyLe;
    if fields == [] {
    } else if KeyLe(f.key, fields[0].key) {
      forall j | 0 <= j < |fields|
        ensures KeyLe(f.key, fields[j].key) && f.key != fields[j].key
      {
        assert fields[j] in fields;
        KeyOrder(f.key, fields[0].key, fields[j].key);
      }
    } else {
      var rest := Insert(f, fields[1..]);
      InsertSorted(f, fields[1..]);
      InsertEntries(f, fields[1..]);
      forall j | 0 <= j < |rest|
        ensures KeyLe(fields[0].key, rest[j].key) && fields[0].key != rest[j].key
      {
        assert rest[j] in rest && fields[0] in fields;
        KeyOrder(f.key, fields[0].key, fields[0].key);
        if rest[j] != f {
          assert rest[j] in fields[1..];
        }
      }
    }
  }

  lemma {:induction false} SortEntries(fields: seq<Field>)
    ensures |Sort(fields)| == |fields| && SameEntries(Sort(fields), fields)
  {
    if fields != [] {
      SortEntries(fields[1..]);
      InsertEntries(fields[0], Sort(fields[1..]));
      assert fields == [fields[0]] + fields[1..];
    }
  }

  lemma {:induction false} SortSorted(fields: seq<Field>)
    requires DistinctKeys(fields)
    ensures StrictlySorted(Sort(fields))
  {
    if fields != [] {
      SortSorted(fields[1..]);
      SortEntries(fields[1..]);
      InsertSorted(fields[0], Sort(fields[1..]));
    }
  }

  lemma {:induction false} SortOfSorted(fields: seq<Field>)
    requires StrictlySorted(fields)
    ensures Sort(fields) == fields
  {
    if fields != [] {
      SortOfSorted(fields[1..]);
      assert fields == [fields[0]] + fields[1..];
    }
  }

  lemma TailEntries(a: seq<Field>)
    requires StrictlySorted(a) && a != []
    ensures forall f :: f in a[1..] <==> f in a && f != a[0]
  {
    assert a == [a[0]] + a[1..];
    forall f | f in a[1..]
      ensures f != a[0]
    {
      var j :| 0 <= j < |a[1..]| && a[1..][j] == f;
      assert a[j + 1].key != a[0].key;
    }
  }

  lemma NoEntries(a: seq<Field>, b: seq<Field>)
    requires SameEntries(a, b)
    ensures a == [] <==> b == []
  {
    assert a != [] ==> a[0] in a;
    assert b != [] ==> b[0] in b;
  }

  /** A strictly sorted list is determined by its entries. */
  lemma {:induction false} SortedUnique(a: seq<Field>, b: seq<Field>)
    requires StrictlySorted(a) && StrictlySorted(b) && SameEntries(a, b)
    ensures a == b
  {
    hide KeyLe;
    if a == [] || b == [] {
      NoEntries(a, b);
    } else {
      assert a[0] in a;
      var j :| 0 <= j < |b| && b[j] == a[0];
      assert b[0] in b;
      var i :| 0 <= i < |a| && a[i] == b[0];
      if i > 0 && j > 0 {
        KeyAntisymmetric(a[0].key, b[0].key);
      }
      assert a[0] == b[0];
      TailEntries(a);
      TailEntries(b);
      SortedUnique(a[1..], b[1..]);
      assert a == [a[0]] + a[1..] && b == [b[0]] + b[1..];
    }
  }

  // ----- The canonical form of a value

  /** Every object's entries sorted, at every depth. */
  function Normalize(v: Json): Json
    decreases v, 1
  {
    match v
    case Arr(items) => Arr(NormalizeItems(items))
    case Obj(fields) => Obj(Sort(NormalizeFields(fields)))
    case _ => v
  }

  function NormalizeItems(items: seq<Json>): (r: seq<Json>)
    ensures |r| == |items|
    ensures forall i :: 0 <= i < |items| ==> r[i] == Normalize(items[i])
    decreases items, 0
  {
    if items == [] then [] else [Normalize(items[0])] + NormalizeItems(items[1..])
  }

  function NormalizeFields(fields: seq<Field>): (r: seq<Field>)
    ensures |r| == |fields|
    ensures forall i :: 0 <= i < |fields| ==> r[i] == Field(fields[i].key, Normalize(fields[i].value))
    decreases fields, 0
  {
    if fields == [] then []
    else [Field(fields[0].key, Normalize(fields[0].value))] + NormalizeFields(fields[1..])
  }

  /** `canonical_json`. */
  function Canon(v: Json): string {
    Print(Normalize(v))
  }

  /** `v` and `w` are the same value when objects are read as maps. */
  ghost predicate SameValue(v: Json, w: Json)
    decreases v
  {
    match v
    case Arr(items) =>
      w.Arr? && |items| == |w.items| && forall i :: 0 <= i < |items| ==> SameValue(items[i], w.items[i])
    case Obj(fields) =>
      w.Obj?
      && (forall f :: f in fields ==> exists g :: g in w.fields && f.key == g.key && SameValue(f.value, g.value))
      && (forall g :: g in w.fields ==> exists f :: f in fields && f.key == g.key && SameValue(f.value, g.value))
    case _ => v == w
  }

  lemma NormalizeKeepsKeys(fields: seq<Field>)
    requires DistinctKeys(fields)
    ensures DistinctKeys(NormalizeFields(fields))
  {
  }

  lemma SameEntriesSameSort(a: seq<Field>, b: seq<Field>)
    requires DistinctKeys(a) && DistinctKeys(b) && SameEntries(a, b)
    ensures Sort(a) == Sort(b)
  {
    SortEntries(a);
    SortEntries(b);
    SortSorted(a);
    SortSorted(b);
    SortedUnique(Sort(a), Sort(b));
  }

  lemma SameSortSameEntries(a: seq<Field>, b: seq<Field>)
    requires Sort(a) == Sort(b)
    ensures SameEntries(a, b)
  {
    SortEntries(a);
    SortEntries(b);
  }

  function NormalField(f: Field): Field {
    Field(f.key, Normalize(f.value))
  }

  /** Some entry of `fields` is `f`, up to normalisation. */
  ghost predicate Holds(fields: seq<Field>, f: Field) {
    exists g :: g in fields && NormalField(g) == NormalField(f)
  }

  lemma NormalizedEntries(fields: seq<Field>)
    ensures forall f :: f in fields ==> NormalField(f) in NormalizeFields(fields)
    ensures forall x :: x in NormalizeFields(fields) ==> exists f :: f in fields && NormalField(f) == x
  {
    var r := NormalizeFields(fields);
    forall f | f in fields
      ensures NormalField(f) in r
    {
      var i :| 0 <= i < |fields| && fields[i] == f;
      assert r[i] == NormalField(f);
    }
    forall x | x in r
      ensures exists f :: f in fields && NormalField(f) == x
    {
      var i :| 0 <= i < |r| && r[i] == x;
      assert fields[i] in fields && NormalField(fields[i]) == x;
    }
  }

  lemma SameNormalizedEntries(a: seq<Field>, b: seq<Field>)
    ensures SameEntries(NormalizeFields(a), NormalizeFields(b)) <==>
            (forall f :: f in a ==> Holds(b, f)) && (forall g :: g in b ==> Holds(a, g))
  {
    NormalizedEntries(a);
    NormalizedEntries(b);
    var x, y := NormalizeFields(a), NormalizeFields(b);
    if SameEntries(x, y) {
      forall f | f in a
        ensures Holds(b, f)
      {
        assert NormalField(f) in y;
      }
      forall g | g in b
        ensures Holds(a, g)
      {
        assert NormalField(g) in x;
      }
    }
  }

  lemma {:induction false} SameValueSameNormal(v: Json, w: Json)
    requires Proper(v) && Proper(w)
    ensures SameValue(v, w) <==> Normalize(v) == Normalize(w)
    decreases v
  {
    if v.Arr? && w.Arr? {
      SameItems(v.items, w.items);
    } else if v.Obj? && w.Obj? {
      SameFields(v.fields, w.fields);
    }
  }

  lemma {:induction false} SameItems(a: seq<Json>, b: seq<Json>)
    requires Proper(Arr(a)) && Proper(Arr(b))
    ensures SameValue(Arr(a), Arr(b)) <==> NormalizeItems(a) == NormalizeItems(b)
    decreases a
  {
    forall i | 0 <= i < |a| && 0 <= i < |b|
      ensures SameValue(a[i], b[i]) <==> NormalizeItems(a)[i] == NormalizeItems(b)[i]
    {
      SameValueSameNormal(a[i], b[i]);
    }
  }

  lemma {:induction false} SameFields(a: seq<Field>, b: seq<Field>)
    requires Proper(Obj(a)) && Proper(Obj(b))
    ensures SameValue(Obj(a), Obj(b)) <==> Sort(NormalizeFields(a)) == Sort(NormalizeFields(b))
    decreases a
  {
    forall f, g | f in a && g in b
      ensures NormalField(f) == NormalField(g) <==> f.key == g.key && SameValue(f.value, g.value)
    {
      SameValueSameNormal(f.value, g.value);
    }
    SameObjects(a, b);
    SameNormalizedEntries(a, b);
    NormalizeKeepsKeys(a);
    NormalizeKeepsKeys(b);
    if SameEntries(NormalizeFields(a), NormalizeFields(b)) {
      SameEntriesSameSort(NormalizeFields(a), NormalizeFields(b));
    }
    if Sort(NormalizeFields(a)) == Sort(NormalizeFields(b)) {
      SameSortSameEntries(NormalizeFields(a), NormalizeFields(b));
    }
  }

  lemma SameObjects(a: seq<Field>, b: seq<Field>)
    requires forall f, g :: f in a && g in b ==>
               (NormalField(f) == NormalField(g) <==> f.key == g.key && SameValue(f.value, g.value))
    ensures SameValue(Obj(a), Obj(b)) <==>
            (forall f :: f in a ==> Holds(b, f)) && (forall g :: g in b ==> Holds(a, g))
  {
    hide Holds, Normalize, NormalField;
    HoldsMeans(a, b);
    HoldsMeansBack(a, b);
  }

  lemma HoldsMeans(a: seq<Field>, b: seq<Field>)
    requires forall f, g :: f in a && g in b ==>
               (NormalField(f) == NormalField(g) <==> f.key == g.key && SameValue(f.value, g.value))
    ensures forall f :: f in a ==>
              (Holds(b, f) <==> exists g :: g in b && f.key == g.key && SameValue(f.value, g.value))
  {
    hide NormalField, SameValue;
  }

  lemma HoldsMeansBack(a: seq<Field>, b: seq<Field>)
    requires forall f, g :: f in a && g in b ==>
               (NormalField(f) == NormalField(g) <==> f.key == g.key && SameValue(f.value, g.value))
    ensures forall g :: g in b ==>
              (Holds(a, g) <==> exists f :: f in a && f.key == g.key && SameValue(f.value, g.value))
  {
    hide NormalField, SameValue;
  }

  /** Canonical texts coincide exactly for values that are the same mapping at every depth. */
  lemma CanonDecidesEquality(v: Value, w: Value)
    ensures Canon(v) == Canon(w) <==> SameValue(v, w)
  {
    SameValueSameNormal(v, w);
    if Canon(v) == Canon(w) {
      PrintInjective(Normalize(v), Normalize(w));
    }
  }

  // ----- Reading into a map, and canonicalising text

  /** Building the map of an object: a repeated name keeps its last entry. */
  function ToValue(v: Json): Json
    decreases v, 1
  {
    match v
    case Arr(items) => Arr(ToValues(items))
    case Obj(fields) => Obj(ToMap(fields))
    case _ => v
  }

  function ToValues(items: seq<Json>): (r: seq<Json>)
    ensures |r| == |items|
    ensures forall i :: 0 <= i < |items| ==> r[i] == ToValue(items[i])
    decreases items, 0
  {
    if items == [] then [] else [ToValue(items[0])] + ToValues(items[1..])
  }

  function ToMap(fields: seq<Field>): seq<Field>
    decreases fields, 0
  {
    if fields == [] then []
    else
      var rest := ToMap(fields[1..]);
      if HasKey(rest, fields[0].key) then rest
      else [Field(fields[0].key, ToValue(fields[0].value))] + rest
  }

  predicate HasKey(fields: seq<Field>, key: string) {
    exists i :: 0 <= i < |fields| && fields[i].key == key
  }

  lemma {:induction false} ToValueProper(v: Json)
    ensures Proper(ToValue(v))
    decreases v, 1
  {
    match v
    case Arr(items) =>
      forall i | 0 <= i < |items|
        ensures Proper(ToValues(items)[i])
      {
        ToValueProper(items[i]);
      }
    case Obj(fields) => ToMapProper(fields);
    case _ =>
  }

  lemma {:induction false} ToMapProper(fields: seq<Field>)
    ensures Proper(Obj(ToMap(fields)))
    decreases fields, 0
  {
    if fields != [] {
      var rest := ToMap(fields[1..]);
      ToMapProper(fields[1..]);
      ToValueProper(fields[0].value);
      if !HasKey(rest, fields[0].key) {
        assert ToMap(fields)[1..] == rest;
      }
    }
  }

  lemma {:induction false} ToValueOfProper(v: Json)
    requires Proper(v)
    ensures ToValue(v) == v
    decreases v, 1
  {
    match v
    case Arr(items) =>
      forall i | 0 <= i < |items|
        ensures ToValues(items)[i] == items[i]
      {
        ToValueOfProper(items[i]);
      }
      assert ToValues(items) == items;
    case Obj(fields) => ToMapOfProper(fields);
    case _ =>
  }

  lemma {:induction false} ToMapOfProper(fields: seq<Field>)
    requires Proper(Obj(fields))
    ensures ToMap(fields) == fields
    decreases fields, 0
  {
    if fields != [] {
      assert Proper(Obj(fields[1..]));
      ToMapOfProper(fields[1..]);
      ToValueOfProper(fields[0].value);
      assert fields == [fields[0]] + fields[1..];
    }
  }

  lemma {:induction false} NormalizeProper(v: Json)
    requires Proper(v)
    ensures Proper(Normalize(v)) && Normalize(Normalize(v)) == Normalize(v)
    decreases v
  {
    match v
    case Arr(items) =>
      var r := NormalizeItems(items);
      forall i | 0 <= i < |items|
        ensures Proper(r[i]) && Normalize(r[i]) == r[i]
      {
        NormalizeProper(items[i]);
      }
      assert NormalizeItems(r) == r;
    case Obj(fields) =>
      forall f | f in fields
        ensures Proper(Normalize(f.value)) && Normalize(Normalize(f.value)) == Normalize(f.value)
      {
        NormalizeProper(f.value);
      }
      NormalObjectProper(fields);
    case _ =>
  }

  lemma NormalObjectProper(fields: seq<Field>)
    requires DistinctKeys(fields)
    requires forall f :: f in fields ==>
               Proper(Normalize(f.value)) && Normalize(Normalize(f.value)) == Normalize(f.value)
    ensures Proper(Normalize(Obj(fields))) && Normalize(Normalize(Obj(fields))) == Normalize(Obj(fields))
  {
    var x := NormalizeFields(fields);
    var s := Sort(x);
    NormalizeKeepsKeys(fields);
    SortEntries(x);
    SortSorted(x);
    NormalizedEntries(fields);
    forall i | 0 <= i < |s|
      ensures Proper(s[i].value) && Normalize(s[i].value) == s[i].value
    {
      assert s[i] in x;
    }
    assert NormalizeFields(s) == s;
    SortOfSorted(s);
  }

  lemma ParseCanon(v: Json)
    ensures Parse(Canon(v)) == Some(Normalize(v))
  {
    ParsePrint(Normalize(v));
  }

  /** `canonicalize_str`. */
  function CanonicalizeStr(text: string): Option<string> {
    var v :- Parse(text);
    Some(Canon(ToValue(v)))
  }

  /** Canonicalising a text, whatever its spacing, order or repeated names, gives a fixpoint. */
  lemma CanonicalizeIdempotent(text: string)
    requires CanonicalizeStr(text).Some?
    ensures CanonicalizeStr(CanonicalizeStr(text).value) == CanonicalizeStr(text)
  {
    var v := ToValue(Parse(text).value);
    ToValueProper(Parse(text).value);
    ParseCanon(v);
    NormalizeProper(v);
    ToValueOfProper(Normalize(v));
  }

  // ----- The writer that appends to a buffer

  class TextBuffer {
    var text: string

    constructor ()
      ensures text == ""
    {
      text := "";
    }

    method Push(s: string)
      modifies this
      ensures text == old(text) + s
    {
      text := text + s;
    }
  }

  lemma {:induction false} SortNormalizeCommute(fields: seq<Field>)
    ensures NormalizeFields(Sort(fields)) == Sort(NormalizeFields(fields))
  {
    if fields != [] {
      SortNormalizeCommute(fields[1..]);
      InsertNormalizeCommute(fields[0], Sort(fields[1..]));
      assert NormalizeFields(fields)[1..] == NormalizeFields(fields[1..]);
    }
  }

  lemma {:induction false} InsertNormalizeCommute(f: Field, fields: seq<Field>)
    ensures NormalizeFields(Insert(f, fields)) == Insert(NormalField(f), NormalizeFields(fields))
  {
    var r := NormalizeFields(fields);
    if fields == [] || KeyLe(f.key, fields[0].key) {
      assert NormalizeFields([f] + fields) == [NormalField(f)] + r;
    } else {
      InsertNormalizeCommute(f, fields[1..]);
      assert r[1..] == NormalizeFields(fields[1..]);
      var t := Insert(f, fields[1..]);
      assert NormalizeFields([fields[0]] + t) == [r[0]] + NormalizeFields(t);
    }
  }

  /** Text still to be written for items `i..` once the opening bracket is out. */
  function ItemsLeft(items: seq<Json>, i: nat): string
    requires i <= |items|
  {
    if i == |items| then "]" else (if i > 0 then "," else "") + PrintItems(items[i..])
  }

  function FieldsLeft(fields: seq<Field>, i: nat): string
    requires i <= |fields|
  {
    if i == |fields| then "}" else (if i > 0 then "," else "") + PrintFields(fields[i..])
  }

  lemma ItemsLeftStep(text: string, items: seq<Json>, i: nat)
    requires i < |items|
    ensures text + ItemsLeft(items, i) == text + (if i > 0 then "," else "") + Print(items[i]) + ItemsLeft(items, i + 1)
  {
    hide Print;
    var sep, rest := if i > 0 then "," else "", ItemsLeft(items, i + 1);
    assert items[i..][1..] == items[i + 1..];
    assert ItemsLeft(items, i) == sep + (Print(items[i]) + rest);
    Assoc(text, sep, Print(items[i]) + rest);
    Assoc(text + sep, Print(items[i]), rest);
  }

  lemma FieldsLeftStep(text: string, fields: seq<Field>, i: nat)
    requires i < |fields|
    ensures text + FieldsLeft(fields, i) ==
            text + (if i > 0 then "," else "") + PrintStr(fields[i].key) + ":" + Print(fields[i].value)
            + FieldsLeft(fields, i + 1)
  {
    hide PrintStr, Print;
    var f, sep, rest := fields[i], if i > 0 then "," else "", FieldsLeft(fields, i + 1);
    assert fields[i..][1..] == fields[i + 1..];
    assert FieldsLeft(fields, i) == sep + (PrintStr(f.key) + ":" + Print(f.value) + rest);
    Flatten(text, sep, PrintStr(f.key), Print(f.value), rest);
  }

  lemma Flatten(text: string, sep: string, key: string, value: string, rest: string)
    ensures text + (sep + (key + ":" + value + rest)) == text + sep + key + ":" + value + rest
  {
  }

  lemma PrintLeft(items: seq<Json>, fields: seq<Field>)
    ensures Print(Arr(items)) == "[" + ItemsLeft(items, 0)
    ensures Print(Obj(fields)) == "{" + FieldsLeft(fields, 0)
  {
  }

  /** `write_canonical`: appends the canonical text of `v`, and nothing else, to the buffer. */
  method WriteCanonical(v: Json, out: TextBuffer)
    modifies out
    ensures out.text == old(out.text) + Canon(v)
    decreases v
  {
    match v
    case Null => out.Push("null");
    case Bool(b) => out.Push(if b then "true" else "false");
    case Num(n) => out.Push(Decimal.PrintInt(n));
    case Str(s) => out.Push(PrintStr(s));
    case Arr(items) => WriteArray(items, out);
    case Obj(fields) => WriteObject(fields, out);
  }

  method WriteArray(items: seq<Json>, out: TextBuffer)
    modifies out
    ensures out.text == old(out.text) + Canon(Arr(items))
    decreases items, 0
  {
    ghost var r := NormalizeItems(items);
    PrintLeft(r, []);
    hide Print, ItemsLeft;
    out.Push("[");
    Assoc(old(out.text), "[", ItemsLeft(r, 0));
    for i := 0 to |items|
      invariant out.text + ItemsLeft(r, i) == old(out.text) + Canon(Arr(items))
    {
      ItemsLeftStep(out.text, r, i);
      if i > 0 {
        out.Push(",");
      }
      WriteCanonical(items[i], out);
    }
    ItemsLeftEnd(r, []);
    out.Push("]");
  }

  lemma ItemsLeftEnd(items: seq<Json>, fields: seq<Field>)
    ensures ItemsLeft(items, |items|) == "]"
    ensures FieldsLeft(fields, |fields|) == "}"
  {
  }

  method WriteObject(fields: seq<Field>, out: TextBuffer)
    modifies out
    ensures out.text == old(out.text) + Canon(Obj(fields))
    decreases fields, 0
  {
    var sorted := Sort(fields);
    ghost var r := NormalizeFields(sorted);
    SortNormalizeCommute(fields);
    SortEntries(fields);
    PrintLeft([], r);
    hide Print, PrintStr, FieldsLeft, Sort;
    out.Push("{");
    Assoc(old(out.text), "{", FieldsLeft(r, 0));
    for i := 0 to |sorted|
      invariant out.text + FieldsLeft(r, i) == old(out.text) + Canon(Obj(fields))
    {
      FieldsLeftStep(out.text, r, i);
      if i > 0 {
        out.Push(",");
      }
      assert sorted[i] in fields;
      out.Push(PrintStr(sorted[i].key));
      out.Push(":");
      WriteCanonical(sorted[i].value, out);
    }
    ItemsLeftEnd([], r);
    out.Push("}");
  }
}
