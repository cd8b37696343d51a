/** How serde's derived readers take a struct out of a JSON value. */
module Structs {
  import opened Wrappers
  import opened Json
  import opened Canonical

  datatype Lookup = Absent | Repeated | Once(value: Json)

  function Find(fields: seq<Field>, key: string): Lookup {
    if fields == [] then Absent
    else if fields[0].key != key then Find(fields[1..], key)
    else if HasKey(fields[1..], key) then Repeated
    else Once(fields[0].value)
  }

  /** A struct is read from an object, or from an array that lists its first members in order. */
  function Members(v: Json, names: seq<string>): Option<seq<Field>> {
    match v
    case Obj(fields) => Some(fields)
    case Arr(items) =>
      if |items| > |names| then None
      else Some(seq(|items|, i requires 0 <= i < |items| => Field(names[i], items[i])))
    case _ => None
  }

  function IntIn(l: Lookup, low: int, high: int): (r: Option<int>)
    ensures r.Some? ==> low <= r.value < high
  {
    match l
    case Once(Num(n)) => if low <= n < high then Some(n) else None
    case _ => None
  }

  function Text(l: Lookup): Option<string> {
    match l
    case Once(Str(s)) => Some(s)
    case _ => None
  }

  function Items(l: Lookup): Option<seq<Json>> {
    match l
    case Once(Arr(items)) => Some(items)
    case _ => None
  }

  function Strings(items: seq<Json>): Option<seq<string>> {
    if items == [] then Some([])
    else if !items[0].Str? then None
    else
      var rest :- Strings(items[1..]);
      Some([items[0].s] + rest)
  }

  /** With distinct names, looking up a name is membership of an entry. */
  lemma {:induction false} FindMeaning(fields: seq<Field>, key: string)
    requires DistinctKeys(fields)
    ensures Find(fields, key) != Repeated
    ensures forall v :: Find(fields, key) == Once(v) <==> Field(key, v) in fields
    ensures Find(fields, key) == Absent <==> forall f :: f in fields ==> f.key != key
  {
    if fields != [] {
      FindMeaning(fields[1..], key);
      assert fields == [fields[0]] + fields[1..];
      assert fields[0].key == key ==> forall f :: f in fields[1..] ==> f.key != key;
    }
  }

  /** Sorting and normalising an object does not change what its names lead to. */
  lemma FindInNormal(fields: seq<Field>, key: string)
    requires DistinctKeys(fields)
    ensures Find(Sort(NormalizeFields(fields)), key) ==
            match Find(fields, key) { case Once(v) => Once(Normalize(v)) case other => other }
  {
    var x := NormalizeFields(fields);
    var s := Sort(x);
    NormalizeKeepsKeys(fields);
    SortEntries(x);
    SortSorted(x);
    NormalizedEntries(fields);
    FindMeaning(fields, key);
    FindMeaning(s, key);
    match Find(fields, key) {
      case Once(v) => assert NormalField(Field(key, v)) in x;
      case Absent =>
        forall f | f in s
          ensures f.key != key
        {
          var g :| g in fields && NormalField(g) == f;
        }
      case Repeated => assert false;
    }
  }

  /** A member of an object with distinct names is found under its own name, before and after normalising. */
  lemma MemberFound(fields: seq<Field>, i: nat)
    requires DistinctKeys(fields) && i < |fields|
    ensures Find(fields, fields[i].key) == Once(fields[i].value)
    ensures Find(Sort(NormalizeFields(fields)), fields[i].key) == Once(Normalize(fields[i].value))
  {
    hide Sort, NormalizeFields;
    FindMeaning(fields, fields[i].key);
    assert fields[i] in fields;
    FindInNormal(fields, fields[i].key);
  }
}
