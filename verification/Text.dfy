/** The string operations of Rust's `str` that the parsers rely on. */
module Text {
  import opened Wrappers

  /** Unicode White_Space, the set `str::trim` removes. */
  predicate IsSpace(c: char) {
    var n := c as int;
    9 <= n <= 13 || n == 0x20 || n == 0x85 || n == 0xA0 || n == 0x1680 || 0x2000 <= n <= 0x200A
    || n == 0x2028 || n == 0x2029 || n == 0x202F || n == 0x205F || n == 0x3000
  }

  function TrimStart(s: string): string {
    if s != "" && IsSpace(s[0]) then TrimStart(s[1..]) else s
  }

  function TrimEnd(s: string): string {
    if s != "" && IsSpace(s[|s| - 1]) then TrimEnd(s[..|s| - 1]) else s
  }

  function Trim(s: string): string {
    TrimEnd(TrimStart(s))
  }

  /** No white space at either end. */
  predicate Tight(s: string) {
    s != "" ==> !IsSpace(s[0]) && !IsSpace(s[|s| - 1])
  }

  lemma TrimOfTight(s: string)
    requires Tight(s)
    ensures Trim(s) == s
  {
  }

  lemma {:induction false} TrimStartTight(s: string)
    ensures TrimStart(s) != "" ==> !IsSpace(TrimStart(s)[0])
  {
    if s != "" && IsSpace(s[0]) { TrimStartTight(s[1..]); }
  }

  lemma {:induction false} TrimEndKeepsFront(s: string)
    ensures TrimEnd(s) <= s
    ensures TrimEnd(s) != "" ==> !IsSpace(TrimEnd(s)[|TrimEnd(s)| - 1])
  {
    if s != "" && IsSpace(s[|s| - 1]) { TrimEndKeepsFront(s[..|s| - 1]); }
  }

  lemma TrimIsTight(s: string)
    ensures Tight(Trim(s))
  {
    TrimStartTight(s);
    TrimEndKeepsFront(TrimStart(s));
  }

  lemma TrimIdempotent(s: string)
    ensures Trim(Trim(s)) == Trim(s)
  {
    TrimIsTight(s);
    TrimOfTight(Trim(s));
  }

  /** Nothing but white space. */
  predicate Blank(s: string) {
    Trim(s) == ""
  }

  lemma {:induction false} TrimStartBlank(s: string)
    ensures TrimStart(s) == "" <==> forall c :: c in s ==> IsSpace(c)
  {
    if s != "" {
      TrimStartBlank(s[1..]);
      assert s == [s[0]] + s[1..] && s[0] in s;
    }
  }

  lemma BlankIsAllSpace(s: string)
    ensures Blank(s) <==> forall c :: c in s ==> IsSpace(c)
  {
    hide IsSpace;
    TrimStartBlank(s);
    TrimStartTight(s);
    var t := TrimStart(s);
    TrimEndKeepsFront(t);
    if t != "" && TrimEnd(t) == "" {
      TrimEndOfInk(t);
    }
  }

  lemma {:induction false} TrimEndOfInk(s: string)
    requires s != "" && !IsSpace(s[0])
    ensures TrimEnd(s) != ""
  {
    if IsSpace(s[|s| - 1]) { TrimEndOfInk(s[..|s| - 1]); }
  }

  /** Index of the first `c`, or the length when there is none. */
  function Find(s: string, c: char): (i: nat)
    ensures i <= |s|
    ensures forall j :: 0 <= j < i ==> s[j] != c
    ensures i < |s| ==> s[i] == c
  {
    if s == "" || s[0] == c then 0 else 1 + Find(s[1..], c)
  }

  /** `split_once`. */
  function SplitOnce(s: string, c: char): (r: Option<(string, string)>)
    ensures r.None? <==> c !in s
    ensures r.Some? ==> s == r.value.0 + [c] + r.value.1 && c !in r.value.0
  {
    var i := Find(s, c);
    if i == |s| then None else Some((s[..i], s[i + 1..]))
  }

  lemma SplitOnceAt(a: string, c: char, b: string)
    requires c !in a
    ensures SplitOnce(a + [c] + b, c) == Some((a, b))
  {
    var s := a + [c] + b;
    var i := Find(s, c);
    assert s[|a|] == c;
    assert forall j :: 0 <= j < |a| ==> s[j] == a[j];
    assert i == |a| && s[..i] == a && s[i + 1..] == b;
  }

  /** Index of the last `c`, or the length when there is none. */
  function FindLast(s: string, c: char): (i: nat)
    ensures i <= |s|
    ensures i < |s| ==> s[i] == c && forall j :: i < j < |s| ==> s[j] != c
    ensures i == |s| ==> c !in s
  {
    if s == "" then 0
    else if s[|s| - 1] == c then |s| - 1
    else
      var i := FindLast(s[..|s| - 1], c);
      assert s == s[..|s| - 1] + [s[|s| - 1]];
      if i == |s| - 1 then |s| else i
  }

  /** `rsplit_once`. */
  function RSplitOnce(s: string, c: char): (r: Option<(string, string)>)
    ensures r.None? <==> c !in s
    ensures r.Some? ==> s == r.value.0 + [c] + r.value.1 && c !in r.value.1
  {
    var i := FindLast(s, c);
    if i == |s| then None else Some((s[..i], s[i + 1..]))
  }

  lemma RSplitOnceAt(a: string, c: char, b: string)
    requires c !in b
    ensures RSplitOnce(a + [c] + b, c) == Some((a, b))
  {
    var s := a + [c] + b;
    assert s[|a|] == c;
    assert forall j :: 0 <= j < |b| ==> s[|a| + 1 + j] == b[j];
    assert forall j :: |a| < j < |s| ==> s[j] == b[j - |a| - 1];
    var i := FindLast(s, c);
    assert i == |a| && s[..i] == a && s[i + 1..] == b;
  }

  /** `split(c)`: the pieces between separators, never an empty list. */
  function SplitOn(s: string, c: char): (parts: seq<string>)
    ensures |parts| >= 1
  {
    if s == "" then [""]
    else
      var rest := SplitOn(s[1..], c);
      if s[0] == c then [""] + rest else [[s[0]] + rest[0]] + rest[1..]
  }

  function JoinOn(parts: seq<string>, c: char): string
    requires |parts| >= 1
  {
    if |parts| == 1 then parts[0] else parts[0] + [c] + JoinOn(parts[1..], c)
  }

  lemma {:induction false} SplitOfFront(a: string, c: char, b: string)
    requires c !in a
    ensures SplitOn(a + [c] + b, c) == [a] + SplitOn(b, c)
  {
    var s := a + [c] + b;
    if a == "" {
      assert s[1..] == b;
    } else {
      SplitOfFront(a[1..], c, b);
      assert s[1..] == a[1..] + [c] + b;
      assert [s[0]] + a[1..] == a;
    }
  }

  lemma {:induction false} SplitOfWhole(a: string, c: char)
    requires c !in a
    ensures SplitOn(a, c) == [a]
  {
    if a != "" {
      SplitOfWhole(a[1..], c);
      assert [a[0]] + a[1..] == a;
    }
  }

  lemma {:induction false} SplitJoin(parts: seq<string>, c: char)
    requires |parts| >= 1
    requires forall i :: 0 <= i < |parts| ==> c !in parts[i]
    ensures SplitOn(JoinOn(parts, c), c) == parts
  {
    if |parts| == 1 {
      SplitOfWhole(parts[0], c);
    } else {
      SplitJoin(parts[1..], c);
      SplitOfFront(parts[0], c, JoinOn(parts[1..], c));
    }
  }

  lemma JoinOfLongerHead(x: char, parts: seq<string>, c: char)
    requires |parts| >= 1
    ensures JoinOn([[x] + parts[0]] + parts[1..], c) == [x] + JoinOn(parts, c)
  {
    assert ([[x] + parts[0]] + parts[1..])[1..] == parts[1..];
  }

  lemma {:induction false} JoinSplit(s: string, c: char)
    ensures JoinOn(SplitOn(s, c), c) == s
  {
    if s != "" {
      JoinSplit(s[1..], c);
      var rest := SplitOn(s[1..], c);
      if s[0] == c {
        assert SplitOn(s, c)[1..] == rest;
      } else {
        JoinOfLongerHead(s[0], rest, c);
      }
    }
  }

  function StripCr(s: string): string {
    if s != "" && s[|s| - 1] == '\r' then s[..|s| - 1] else s
  }

  /** `str::lines`. */
  function Lines(s: string): seq<string>
    decreases |s|
  {
    if s == "" then []
    else
      var i := Find(s, '\n');
      if i == |s| then [s] else [StripCr(s[..i])] + Lines(s[i + 1..])
  }

  lemma LinesOfFront(a: string, b: string)
    requires '\n' !in a
    ensures Lines(a + "\n" + b) == [StripCr(a)] + Lines(b)
  {
    SplitOnceAt(a, '\n', b);
  }

  /** ASCII lower-casing. */
  function ToLower(s: string): (t: string)
    ensures |t| == |s|
    ensures forall i :: 0 <= i < |s| ==> t[i] == LowerChar(s[i])
  {
    seq(|s|, i requires 0 <= i < |s| => LowerChar(s[i]))
  }

  function LowerChar(c: char): char {
    if 'A' <= c <= 'Z' then (c as int + 32) as char else c
  }

  /** `contains`. */
  predicate Contains(s: string, p: string) {
    p <= s || (s != "" && Contains(s[1..], p))
  }

  lemma {:induction false} ContainsAt(a: string, p: string, b: string)
    ensures Contains(a + p + b, p)
  {
    if a == "" {
      assert a + p + b == p + b;
    } else {
      ContainsAt(a[1..], p, b);
      assert (a + p + b)[1..] == a[1..] + p + b;
    }
  }

  lemma {:induction false} ContainsFirst(s: string, p: string)
    requires |p| > 0 && Contains(s, p)
    ensures p[0] in s
  {
    if p <= s {
      assert s[0] == p[0];
    } else {
      ContainsFirst(s[1..], p);
    }
  }
}
