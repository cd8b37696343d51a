/**
 Base64 as arithmetic: the characters are the digits in base 64 of the number whose digits in
 base 256 are the bytes.
 */
module Base64Numbers {
  import opened Octets
  import opened Wrappers
  import opened Base64

  const CAPITALS := "ABCDEFGHIJKLMNOPQRSTUVWXYZ"
  const SMALL := "abcdefghijklmnopqrstuvwxyz"
  const NUMERALS := "0123456789"

  /** Tables 1 and 2 of RFC 4648. */
  predicate Stands(a: Alphabet, c: char, x: int) {
    0 <= x < 64
    && c == if x < 26 then CAPITALS[x] else if x < 52 then SMALL[x - 26] else if x < 62 then NUMERALS[x - 52]
            else if a.Standard? then "+/"[x - 62] else "-_"[x - 62]
  }

  lemma TableChars(x: int)
    requires 0 <= x < 26
    ensures CAPITALS[x] as int == 65 + x && SMALL[x] as int == 97 + x
  {
    if x < 13 {
      assert CAPITALS[x] as int == 65 + x && SMALL[x] as int == 97 + x;
    }
  }

  lemma NumeralChars(x: int)
    requires 0 <= x < 10
    ensures NUMERALS[x] as int == 48 + x
  {
  }

  lemma ToCharStands(a: Alphabet, x: sextet)
    ensures Stands(a, ToChar(a, x), x)
  {
    hide CAPITALS, SMALL, NUMERALS;
    if x < 26 {
      TableChars(x);
    } else if x < 52 {
      TableChars(x - 26);
    } else if x < 62 {
      NumeralChars(x - 52);
    }
  }

  /** The digits `s` spell `n`, the most significant first. */
  predicate Spells(a: Alphabet, s: string, n: nat) {
    if s == "" then n == 0 else Stands(a, s[|s| - 1], n % 64) && Spells(a, s[..|s| - 1], n / 64)
  }

  function Number(b: Bytes): nat {
    if b == [] then 0 else Number(b[..|b| - 1]) * 256 + b[|b| - 1]
  }

  /** Zero bits are put after the last byte to fill the last character. */
  function Filled(b: Bytes): nat {
    Number(b) * (if |b| % 3 == 0 then 1 else if |b| % 3 == 1 then 16 else 4)
  }

  lemma {:induction false} EncodeBodyAppend(a: Alphabet, x: Bytes, y: Bytes)
    requires |x| % 3 == 0
    ensures EncodeBody(a, x + y) == EncodeBody(a, x) + EncodeBody(a, y)
  {
    hide EncodeGroup;
    if x == [] {
      assert x + y == y;
    } else if y == [] {
      assert x + y == x;
    } else {
      EncodeBodyAppend(a, x[3..], y);
      assert (x + y)[..3] == x[..3] && (x + y)[3..] == x[3..] + y;
      if |x| == 3 {
        assert x[..3] == x && EncodeBody(a, x[3..]) == "";
      }
    }
  }

  lemma SpellsMore(a: Alphabet, s: string, c: char, n: nat, x: sextet)
    requires Spells(a, s, n) && c == ToChar(a, x)
    ensures Spells(a, s + [c], n * 64 + x)
  {
    hide Stands;
    ToCharStands(a, x);
    assert (s + [c])[..|s|] == s;
    assert (n * 64 + x) % 64 == x && (n * 64 + x) / 64 == n;
  }

  lemma NumberMore(b: Bytes, x: byte)
    ensures Number(b + [x]) == Number(b) * 256 + x
  {
    assert (b + [x])[..|b|] == b;
  }

  /** Two to four more digits behind the digits of `n`. */
  function Extended(n: int, x: seq<sextet>): int
    requires 2 <= |x| <= 4
  {
    var p: int, q: int := x[0], x[1];
    var m := n * 4096 + p * 64 + q;
    if |x| == 2 then m
    else
      var r: int := x[2];
      if |x| == 3 then m * 64 + r
      else
        var s: int := x[3];
        m * 4096 + r * 64 + s
  }

  lemma SpellsAll(a: Alphabet, s: string, x: seq<sextet>, n: nat)
    requires Spells(a, s, n) && 2 <= |x| <= 4
    ensures Extended(n, x) >= 0 && Spells(a, s + ToChars(a, x), Extended(n, x))
  {
    hide ToChar, Spells;
    var t := ToChars(a, x);
    var m := Extended(n, x[..2]);
    SpellsMore(a, s, t[0], n, x[0]);
    SpellsMore(a, s + [t[0]], t[1], n * 64 + x[0], x[1]);
    assert s + [t[0]] + [t[1]] == s + t[..2];
    if |x| == 2 {
      assert t[..2] == t;
    } else {
      SpellsMore(a, s + t[..2], t[2], m, x[2]);
      assert s + t[..2] + [t[2]] == s + t[..3];
      if |x| == 3 {
        assert t[..3] == t;
      } else {
        SpellsMore(a, s + t[..3], t[3], m * 64 + x[2], x[3]);
        assert s + t[..3] + [t[3]] == s + t;
      }
    }
  }

  lemma SextetsNumber(b: Bytes, n: nat)
    requires 1 <= |b| <= 3
    ensures Extended(n, Sextets(b))
            == if |b| == 1 then (n * 256 + b[0]) * 16
               else if |b| == 2 then ((n * 256 + b[0]) * 256 + b[1]) * 4
               else ((n * 256 + b[0]) * 256 + b[1]) * 256 + b[2]
  {
    var p: int := b[0];
    assert p == p / 4 * 4 + p % 4;
    if |b| > 1 {
      var q: int := b[1];
      assert q == q / 16 * 16 + q % 16;
    }
    if |b| > 2 {
      var r: int := b[2];
      assert r == r / 64 * 64 + r % 64;
    }
  }

  lemma NumberAppend(front: Bytes, b: Bytes)
    requires 1 <= |b| <= 3
    ensures var n := Number(front);
            Number(front + b)
            == if |b| == 1 then n * 256 + b[0]
               else if |b| == 2 then (n * 256 + b[0]) * 256 + b[1]
               else ((n * 256 + b[0]) * 256 + b[1]) * 256 + b[2]
  {
    hide Number;
    NumberMore(front, b[0]);
    if |b| == 1 {
      assert b == [b[0]];
    } else {
      NumberMore(front + [b[0]], b[1]);
      if |b| == 2 {
        assert front + b == front + [b[0]] + [b[1]];
      } else {
        NumberMore(front + [b[0]] + [b[1]], b[2]);
        assert front + b == front + [b[0]] + [b[1]] + [b[2]];
      }
    }
  }

  /** One group, after digits that spell what stands before it. */
  lemma GroupSpells(a: Alphabet, s: string, front: Bytes, b: Bytes)
    requires 1 <= |b| <= 3 && |front| % 3 == 0 && Spells(a, s, Number(front))
    ensures Spells(a, s + EncodeGroup(a, b), Filled(front + b))
  {
    hide Spells, ToChars, Sextets, Extended, Number;
    SpellsAll(a, s, Sextets(b), Number(front));
    SextetsNumber(b, Number(front));
    NumberAppend(front, b);
    assert |front + b| % 3 == |b| % 3;
  }

  lemma {:induction false} BodySpells(a: Alphabet, b: Bytes)
    ensures Spells(a, EncodeBody(a, b), Filled(b))
    decreases |b|
  {
    hide EncodeGroup, Spells;
    if b == [] {
      assert Spells(a, "", 0) by { NothingSpells(a); }
    } else {
      var k := if |b| % 3 == 0 then |b| - 3 else |b| - |b| % 3;
      var front, last := b[..k], b[k..];
      assert b == front + last;
      BodySpells(a, front);
      EncodeBodyAppend(a, front, last);
      GroupSpells(a, EncodeBody(a, front), front, last);
    }
  }

  lemma NothingSpells(a: Alphabet)
    ensures Spells(a, "", 0)
  {
  }

  lemma {:induction false} BodyLengthIs(n: nat)
    ensures BodyLength(n) == (4 * n + 2) / 3
  {
    if n > 3 { BodyLengthIs(n - 3); }
  }

  lemma EncodedLength(e: Engine, b: Bytes)
    ensures |EncodeBody(e.alphabet, b)| == (4 * |b| + 2) / 3
    ensures Padding(|b|) == "" || Padding(|b|) == "=" || Padding(|b|) == "=="
    ensures |EncodeBody(e.alphabet, b)| + |Padding(|b|)| == (4 * |b| + 2) / 3 + 3 - ((4 * |b| + 2) / 3 + 3) % 4
  {
    hide EncodeBody, BodyLength;
    EncodeBodyLength(e.alphabet, b);
    BodyLengthIs(|b|);
    BodyLengthExcess(|b|);
  }

  /**
   The text of any bytes: as many characters as hold their bits, which are the digits of their number;
   with padding, equals signs up to a multiple of four.
   */
  lemma EncodingExactly(e: Engine, b: Bytes)
    ensures var s := Encode(e, b); var n := (4 * |b| + 2) / 3;
            && n <= |s| && Spells(e.alphabet, s[..n], Filled(b))
            && (forall i :: n <= i < |s| ==> s[i] == '=')
            && |s| == if e.padded then (n + 3) / 4 * 4 else n
  {
    hide Spells, EncodeBody, Filled, Padding;
    var body := EncodeBody(e.alphabet, b);
    BodySpells(e.alphabet, b);
    EncodedLength(e, b);
    assert Encode(e, b)[..|body|] == body;
  }
}
