/** Which texts are read as which strings: every spelling of every character, and nothing else. */
module JsonStrings {
  import opened Wrappers
  import opened Json
  import Collation
  import Compact
  import Decimal

  const SMALL := "0123456789abcdef"
  const LARGE := "0123456789ABCDEF"

  predicate Hexadecimal(c: char, d: int) {
    0 <= d < 16 && (c == SMALL[d] || c == LARGE[d])
  }

  /** Four hexadecimal digits of either case that spell `n`. */
  predicate FourSpell(h: string, n: int) {
    && |h| == 4 && 0 <= n < 0x10000
    && Hexadecimal(h[0], n / 4096) && Hexadecimal(h[1], n / 256 % 16)
    && Hexadecimal(h[2], n / 16 % 16) && Hexadecimal(h[3], n % 16)
  }

  const LETTERS := "\"\\/bfnrt"
  const MEANINGS := [0x22, 0x5C, 0x2F, 8, 12, 10, 13, 9]

  predicate Short(e: string, c: char) {
    |e| == 2 && e[0] == '\\' && exists i :: 0 <= i < 8 && e[1] == LETTERS[i] && c as int == MEANINGS[i]
  }

  /** The character as it stands, a short escape, or the escapes of its one or two UTF-16 units. */
  predicate Spelt(e: string, c: char) {
    || (e == [c] && c as int >= 0x20 && c != '"' && c != '\\')
    || Short(e, c)
    || (|e| == 6 && e[..2] == "\\u" && FourSpell(e[2..6], c as int))
    || (|e| == 12 && e[..2] == "\\u" && e[6..8] == "\\u" && |Collation.Utf16Char(c)| == 2
        && FourSpell(e[2..6], Collation.Utf16Char(c)[0]) && FourSpell(e[8..12], Collation.Utf16Char(c)[1]))
  }

  lemma HexadecimalExactly(c: char, d: int)
    ensures HexValue(c) == Some(d) <==> Hexadecimal(c, d)
  {
  }

  lemma Place(q: int, r: int)
    requires 0 <= r < 16
    ensures (q * 16 + r) / 16 == q && (q * 16 + r) % 16 == r
  {
  }

  lemma Nested(n: int)
    ensures n / 256 == n / 16 / 16 && n / 4096 == n / 16 / 16 / 16
  {
  }

  lemma Base16(n: int, a: int, b: int, c: int, d: int)
    requires 0 <= a < 16 && 0 <= b < 16 && 0 <= c < 16 && 0 <= d < 16
    ensures n == a * 4096 + b * 256 + c * 16 + d
            <==> 0 <= n < 0x10000 && n / 4096 == a && n / 256 % 16 == b && n / 16 % 16 == c && n % 16 == d
  {
    Nested(n);
    if n == a * 4096 + b * 256 + c * 16 + d {
      Place(a * 256 + b * 16 + c, d);
      Place(a * 16 + b, c);
      Place(a, b);
    }
  }

  lemma Hex4Exactly(s: string, n: int)
    ensures Hex4(s) == Some(n) <==> |s| >= 4 && FourSpell(s[..4], n)
  {
    hide HexValue, Hexadecimal;
    if |s| >= 4 {
      HexadecimalExactly(s[0], n / 4096);
      HexadecimalExactly(s[1], n / 256 % 16);
      HexadecimalExactly(s[2], n / 16 % 16);
      HexadecimalExactly(s[3], n % 16);
      var a, b, c, d := HexValue(s[0]), HexValue(s[1]), HexValue(s[2]), HexValue(s[3]);
      if a.Some? && b.Some? && c.Some? && d.Some? {
        Base16(n, a.value, b.value, c.value, d.value);
      }
    }
  }

  lemma PairPoint(c: char, n: int, m: int)
    requires 0 <= n < 0x10000 && 0 <= m < 0x10000
    ensures Collation.Utf16Char(c) == [n, m]
            <==> 0xD800 <= n < 0xDC00 && 0xDC00 <= m < 0xE000
                 && 0x10000 + (n - 0xD800) * 0x400 + (m - 0xDC00) == c as int
  {
  }

  lemma EscapeReads(u: string, c: char, w: string)
    requires Spelt("\\" + u, c)
    ensures ParseEscape(u + w) == Got(c, w)
  {
    hide Hex4, FourSpell, Collation.Utf16Char;
    var e, s := "\\" + u, u + w;
    assert e[0] == '\\' && [c][0] == c;
    if Short(e, c) {
      assert e[1] == u[0] && s[1..] == w;
    } else {
      assert e[2..6] == u[1..5] == s[1..][..4] && e[..2][1] == 'u' && u[0] == e[1] && s[0] == u[0];
      if |e| == 6 {
        Hex4Exactly(s[1..], c as int);
        assert s[5..] == w;
      } else {
        var n, m := Collation.Utf16Char(c)[0], Collation.Utf16Char(c)[1];
        assert e[8..12] == u[7..11] == s[7..][..4] && e[6..8] == s[5..7];
        Hex4Exactly(s[1..], n);
        Hex4Exactly(s[7..], m);
        PairPoint(c, n, m);
        assert Collation.Utf16Char(c) == [n, m];
        assert s[11..] == w;
      }
    }
  }

  /** What a spelling of one character does in front of the rest of a string. */
  lemma SpellingReads(e: string, c: char, w: string)
    requires Spelt(e, c)
    ensures ParseStrBody(e + w) ==
            match ParseStrBody(w) { case Fail => Fail case Got(t, rest) => Got([c] + t, rest) }
  {
    hide FourSpell, ParseEscape, Collation.Utf16Char;
    var s := e + w;
    if e == [c] && c != '\\' {
      assert s[1..] == w && s[0] == c;
    } else {
      SpelledByEscape(e, c);
      assert e == "\\" + e[1..] && s[1..] == e[1..] + w && s[0] == '\\';
      EscapeReads(e[1..], c, w);
    }
  }

  lemma SpelledByEscape(e: string, c: char)
    requires Spelt(e, c)
    ensures e != "" && (e[0] == '\\' || e == [c])
  {
    hide FourSpell;
    if |e| >= 6 {
      assert e[0] == e[..2][0];
    }
  }

  /** Whatever is read as a character was a spelling of it. */
  lemma EscapeIsSpelling(s: string)
    requires ParseEscape(s).Got?
    ensures var r := ParseEscape(s); var k := |s| - |r.rest|;
            0 <= k && s[k..] == r.rest && Spelt("\\" + s[..k], r.value)
  {
    hide Hex4, FourSpell, Collation.Utf16Char;
    var r := ParseEscape(s);
    var k := |s| - |r.rest|;
    var e := "\\" + s[..k];
    var c := r.value;
    if s[0] != 'u' {
      var i := if s[0] == '"' then 0 else if s[0] == '\\' then 1 else if s[0] == '/' then 2 else if s[0] == 'b' then 3
               else if s[0] == 'f' then 4 else if s[0] == 'n' then 5 else if s[0] == 'r' then 6 else 7;
      assert e[1] == LETTERS[i] && c as int == MEANINGS[i];
      assert Short(e, c);
    } else {
      var n := Hex4(s[1..]).value;
      Hex4Exactly(s[1..], n);
      assert e[..2] == "\\u" && e[2..6] == s[1..5] == s[1..][..4];
      if k != 5 {
        var m := Hex4(s[7..]).value;
        Hex4Exactly(s[7..], m);
        PairPoint(c, n, m);
        assert e[6..8] == "\\u" && e[8..12] == s[7..11] == s[7..][..4];
      }
    }
  }

  // ----- Whole strings

  function Joined(pieces: seq<string>): string {
    if pieces == [] then "" else pieces[0] + Joined(pieces[1..])
  }

  predicate Spells(pieces: seq<string>, x: string) {
    |pieces| == |x| && forall i :: 0 <= i < |x| ==> Spelt(pieces[i], x[i])
  }

  ghost predicate SpelledOut(s: string, x: string, rest: string) {
    exists pieces :: Spells(pieces, x) && s == Joined(pieces) + "\"" + rest
  }

  lemma {:induction false} PiecesRead(pieces: seq<string>, x: string, rest: string)
    requires Spells(pieces, x)
    ensures ParseStrBody(Joined(pieces) + "\"" + rest) == Got(x, rest)
  {
    hide Spelt;
    if x == "" {
      assert Joined(pieces) + "\"" + rest == "\"" + rest;
    } else {
      var w := Joined(pieces[1..]) + "\"" + rest;
      PiecesRead(pieces[1..], x[1..], rest);
      SpellingReads(pieces[0], x[0], w);
      assert Joined(pieces) + "\"" + rest == pieces[0] + w;
      assert x == [x[0]] + x[1..];
    }
  }

  lemma FirstSpelling(s: string) returns (e: string, c: char, w: string)
    requires ParseStrBody(s).Got? && s[0] != '"'
    ensures s == e + w && Spelt(e, c) && |w| < |s|
    ensures ParseStrBody(w).Got? && ParseStrBody(s) == Got([c] + ParseStrBody(w).value, ParseStrBody(w).rest)
  {
    hide Spelt, ParseEscape;
    if s[0] == '\\' {
      EscapeIsSpelling(s[1..]);
      var r := ParseEscape(s[1..]);
      var k := |s[1..]| - |r.rest|;
      e, w, c := "\\" + s[1..][..k], r.rest, r.value;
      assert s[1..] == s[1..][..k] + w;
    } else {
      e, w, c := [s[0]], s[1..], s[0];
      PlainSpelt(c);
    }
  }

  lemma {:induction false} ReadIsSpelled(s: string) returns (pieces: seq<string>)
    requires ParseStrBody(s).Got?
    ensures var r := ParseStrBody(s); Spells(pieces, r.value) && s == Joined(pieces) + "\"" + r.rest
    decreases |s|
  {
    if s[0] == '"' {
      pieces := [];
      assert s == "\"" + s[1..];
    } else {
      hide Spelt, ParseStrBody;
      var e, c, w := FirstSpelling(s);
      var more := ReadIsSpelled(w);
      pieces := [e] + more;
      assert pieces[1..] == more;
    }
  }

  lemma PlainSpelt(c: char)
    requires c as int >= 0x20 && c != '"' && c != '\\'
    ensures Spelt([c], c)
  {
  }

  /** A string body is read as `x` exactly when it is a spelling of each of its characters and the closing quote. */
  lemma StringsExactly(s: string, x: string, rest: string)
    ensures ParseStrBody(s) == Got(x, rest) <==> SpelledOut(s, x, rest)
  {
    hide Spells;
    if SpelledOut(s, x, rest) {
      var pieces :| Spells(pieces, x) && s == Joined(pieces) + "\"" + rest;
      PiecesRead(pieces, x, rest);
    }
    if ParseStrBody(s) == Got(x, rest) {
      var pieces := ReadIsSpelled(s);
    }
  }

  // ----- Numbers

  lemma DigitsReadBack(s: string)
    requires ParseDigits(s).Got?
    ensures s == Decimal.Digits(ParseDigits(s).value) + ParseDigits(s).rest
  {
    var k := Decimal.Span(s);
    Compact.DigitsOfText(s[..k]);
    assert s == s[..k] + s[k..];
  }

  lemma NumReadBack(s: string)
    requires ParseNum(s).Got?
    ensures s == Decimal.PrintInt(ParseNum(s).value) + ParseNum(s).rest
  {
    hide ParseDigits, Decimal.Digits;
    var t := if "-" <= s then s[1..] else s;
    DigitsReadBack(t);
    if "-" <= s {
      assert s == "-" + t;
    }
  }

  /** An integer has one text: it is read where, and only where, the text written for it stands. */
  lemma NumbersExactly(s: string, n: jint, rest: string)
    requires EndsNumber(rest)
    ensures ParseNum(s) == Got(n, rest) <==> s == Decimal.PrintInt(n) + rest
  {
    hide ParseNum, Decimal.PrintInt;
    NumReads(n, rest);
    if ParseNum(s) == Got(n, rest) {
      NumReadBack(s);
    }
  }
}
