/** Comparing ids: Rust by their UTF-8 bytes, Dart by their UTF-16 units, and exactly when the two differ. */
module Collation {
  import opened Octets
  import Utf8

  datatype Order = Rust | Dart

  function Utf16(s: string): seq<nat> {
    if s == "" then [] else Utf16Char(s[0]) + Utf16(s[1..])
  }

  function Utf16Char(c: char): (u: seq<nat>)
    ensures 1 <= |u| <= 2
  {
    var n := c as int;
    if n < 0x10000 then [n] else [0xD800 + (n - 0x10000) / 0x400, 0xDC00 + n % 0x400]
  }

  predicate UnitsLe(a: seq<nat>, b: seq<nat>) {
    |a| == 0 || (|b| > 0 && (a[0] < b[0] || (a[0] == b[0] && UnitsLe(a[1..], b[1..]))))
  }

  predicate IdLe(o: Order, a: string, b: string) {
    if o.Rust? then LexLe(Utf8.Encode(a), Utf8.Encode(b)) else UnitsLe(Utf16(a), Utf16(b))
  }

  // ----- Both are total orders

  lemma {:induction false} UnitsOrder(a: seq<nat>, b: seq<nat>, c: seq<nat>)
    ensures UnitsLe(a, b) || UnitsLe(b, a)
    ensures UnitsLe(a, b) && UnitsLe(b, c) ==> UnitsLe(a, c)
    ensures UnitsLe(a, b) && UnitsLe(b, a) ==> a == b
  {
    if |a| > 0 && |b| > 0 && a[0] == b[0] {
      UnitsOrder(a[1..], b[1..], if |c| > 0 then c[1..] else []);
      assert a == [a[0]] + a[1..] && b == [b[0]] + b[1..];
    }
  }

  lemma IdOrder(o: Order, a: string, b: string, c: string)
    ensures IdLe(o, a, b) || IdLe(o, b, a)
    ensures IdLe(o, a, b) && IdLe(o, b, c) ==> IdLe(o, a, c)
  {
    hide LexLe, UnitsLe, Utf8.Encode, Utf16;
    if o.Rust? {
      var x, y, z := Utf8.Encode(a), Utf8.Encode(b), Utf8.Encode(c);
      LexTotal(x, y);
      if LexLe(x, y) && LexLe(y, z) { LexTransitive(x, y, z); }
    } else {
      UnitsOrder(Utf16(a), Utf16(b), Utf16(c));
    }
  }

  lemma IdAntisymmetric(o: Order, a: string, b: string)
    requires IdLe(o, a, b) && IdLe(o, b, a)
    ensures o.Rust? ==> a == b
  {
    if o.Rust? {
      LexAntisymmetric(Utf8.Encode(a), Utf8.Encode(b));
      Utf8.EncodeInjective(a, b);
    }
  }

  // ----- Where they differ

  /** One character outside the basic plane, the other in it but above the surrogates. */
  predicate Swapped(c: char, d: char) {
    (c as int >= 0x10000 && 0xE000 <= d as int < 0x10000) || (d as int >= 0x10000 && 0xE000 <= c as int < 0x10000)
  }

  /** The first characters in which `a` and `b` differ are swapped. */
  predicate Crossed(a: string, b: string) {
    a != "" && b != "" && if a[0] == b[0] then Crossed(a[1..], b[1..]) else Swapped(a[0], b[0])
  }

  lemma {:induction false} CrossedSymmetric(a: string, b: string)
    ensures Crossed(a, b) == Crossed(b, a)
  {
    if a != "" && b != "" && a[0] == b[0] { CrossedSymmetric(a[1..], b[1..]); }
  }

  /** The first difference decides. */
  lemma {:induction false} LexAt(a: Bytes, b: Bytes, k: nat)
    requires k < |a| && k < |b| && a[k] < b[k] && forall i :: 0 <= i < k ==> a[i] == b[i]
    ensures LexLe(a, b) && !LexLe(b, a)
  {
    if k > 0 { LexAt(a[1..], b[1..], k - 1); }
  }

  lemma {:induction false} UnitsAt(a: seq<nat>, b: seq<nat>, k: nat)
    requires k < |a| && k < |b| && a[k] < b[k] && forall i :: 0 <= i < k ==> a[i] == b[i]
    ensures UnitsLe(a, b) && !UnitsLe(b, a)
  {
    if k > 0 { UnitsAt(a[1..], b[1..], k - 1); }
  }

  lemma {:induction false} LexStrip(p: Bytes, x: Bytes, y: Bytes)
    ensures LexLe(p + x, p + y) == LexLe(x, y)
  {
    if p == [] {
      assert p + x == x && p + y == y;
    } else {
      LexStrip(p[1..], x, y);
      assert (p + x)[1..] == p[1..] + x && (p + y)[1..] == p[1..] + y;
    }
  }

  lemma {:induction false} UnitsStrip(p: seq<nat>, x: seq<nat>, y: seq<nat>)
    ensures UnitsLe(p + x, p + y) == UnitsLe(x, y)
  {
    if p == [] {
      assert p + x == x && p + y == y;
    } else {
      UnitsStrip(p[1..], x, y);
      assert (p + x)[1..] == p[1..] + x && (p + y)[1..] == p[1..] + y;
    }
  }

  lemma Digits(n: nat, m: nat)
    requires n <= m
    ensures n / 64 <= m / 64
    ensures n / 64 == m / 64 ==> n % 64 <= m % 64
    ensures n / 64 == m / 64 && n < m ==> n % 64 < m % 64
  {
  }

  lemma Twice(n: nat)
    ensures n / 64 / 64 == n / 4096 && n / 4096 / 64 == n / 262144
  {
  }

  /** Two numbers in base 64: the first digit in which they differ decides. */
  lemma Diverge3(n: nat, m: nat)
    requires n < m
    ensures n / 4096 <= m / 4096
    ensures n / 4096 == m / 4096 ==> n / 64 % 64 <= m / 64 % 64
    ensures n / 4096 == m / 4096 && n / 64 % 64 == m / 64 % 64 ==> n % 64 < m % 64
  {
    Digits(n, m);
    var p, q := n / 64, m / 64;
    Digits(p, q);
    Twice(n);
    Twice(m);
    if p / 64 == q / 64 && p % 64 == q % 64 {
      Joined(p);
      Joined(q);
    }
  }

  lemma Joined(n: nat)
    ensures n == 64 * (n / 64) + n % 64
  {
  }

  lemma Diverge4(n: nat, m: nat)
    requires n < m
    ensures n / 262144 <= m / 262144
    ensures n / 262144 == m / 262144 ==> n / 4096 % 64 <= m / 4096 % 64
    ensures n / 262144 == m / 262144 && n / 4096 % 64 == m / 4096 % 64 ==> n / 4096 == m / 4096
  {
    Diverge3(n, m);
    var p, q := n / 4096, m / 4096;
    Digits(p, q);
    Twice(n);
    Twice(m);
    Joined(p);
    Joined(q);
  }

  /** Where the encodings of two characters first differ, the smaller character has the smaller byte. */
  lemma Utf8Diverges(c: char, d: char) returns (k: nat)
    requires c < d
    ensures k < |Utf8.EncodeChar(c)| && k < |Utf8.EncodeChar(d)|
    ensures Utf8.EncodeChar(c)[k] < Utf8.EncodeChar(d)[k]
    ensures forall i :: 0 <= i < k ==> Utf8.EncodeChar(c)[i] == Utf8.EncodeChar(d)[i]
  {
    var n, m := c as int, d as int;
    if n < 0x80 || (n < 0x800 <= m) || (n < 0x10000 <= m) {
      k := 0;
      LeadDiverges(c, d);
    } else if n < 0x800 {
      Digits(n, m);
      k := if n / 64 < m / 64 then 0 else 1;
    } else if n < 0x10000 {
      Diverge3(n, m);
      k := if n / 4096 < m / 4096 then 0 else if n / 64 % 64 < m / 64 % 64 then 1 else 2;
    } else {
      Diverge4(n, m);
      Diverge3(n, m);
      k := if n / 262144 < m / 262144 then 0
           else if n / 4096 % 64 < m / 4096 % 64 then 1
           else if n / 64 % 64 < m / 64 % 64 then 2 else 3;
    }
  }

  lemma LeadDiverges(c: char, d: char)
    requires c < d
    requires c as int < 0x80 || c as int < 0x800 <= d as int || c as int < 0x10000 <= d as int
    ensures Utf8.EncodeChar(c)[0] < Utf8.EncodeChar(d)[0]
  {
    var n := c as int;
    assert 0x80 <= n < 0x800 ==> n / 64 < 32;
    assert 0x800 <= n < 0x10000 ==> n / 4096 < 16;
  }

  lemma Utf8Orders(c: char, d: char, x: Bytes, y: Bytes)
    requires c < d
    ensures LexLe(Utf8.EncodeChar(c) + x, Utf8.EncodeChar(d) + y)
    ensures !LexLe(Utf8.EncodeChar(d) + y, Utf8.EncodeChar(c) + x)
  {
    hide Utf8.EncodeChar, LexLe;
    var k := Utf8Diverges(c, d);
    LexAt(Utf8.EncodeChar(c) + x, Utf8.EncodeChar(d) + y, k);
  }

  lemma Utf16Diverges(c: char, d: char) returns (k: nat)
    requires c != d && if Swapped(c, d) then d < c else c < d
    ensures k < |Utf16Char(c)| && k < |Utf16Char(d)|
    ensures Utf16Char(c)[k] < Utf16Char(d)[k]
    ensures forall i :: 0 <= i < k ==> Utf16Char(c)[i] == Utf16Char(d)[i]
  {
    var n, m := c as int, d as int;
    k := if n >= 0x10000 && m >= 0x10000 && n / 0x400 == m / 0x400 then 1 else 0;
    if n >= 0x10000 {
      assert (n - 0x10000) / 0x400 == n / 0x400 - 64 && n / 0x400 < 0x440;
    }
    if m >= 0x10000 {
      assert (m - 0x10000) / 0x400 == m / 0x400 - 64 && m / 0x400 < 0x440;
    }
  }

  lemma Utf16Orders(c: char, d: char, x: seq<nat>, y: seq<nat>)
    requires c != d && if Swapped(c, d) then d < c else c < d
    ensures UnitsLe(Utf16Char(c) + x, Utf16Char(d) + y) && !UnitsLe(Utf16Char(d) + y, Utf16Char(c) + x)
  {
    hide Utf16Char, UnitsLe, Swapped;
    var k := Utf16Diverges(c, d);
    UnitsAt(Utf16Char(c) + x, Utf16Char(d) + y, k);
  }

  lemma OneIsEmpty(a: string, b: string)
    requires a == "" || b == ""
    ensures IdLe(Rust, a, b) == IdLe(Dart, a, b)
  {
    hide Utf8.EncodeChar, Utf16Char;
  }

  lemma FirstDiffers(a: string, b: string)
    requires a != "" && b != "" && a[0] != b[0]
    ensures IdLe(Rust, a, b) == IdLe(Dart, a, b) <==> !Swapped(a[0], b[0])
  {
    hide Utf8.EncodeChar, Utf16Char, LexLe, UnitsLe, Swapped;
    var c, d := a[0], b[0];
    var x, y := Utf8.Encode(a[1..]), Utf8.Encode(b[1..]);
    var u, v := Utf16(a[1..]), Utf16(b[1..]);
    SwappedEitherWay(c, d);
    if c < d {
      Utf8Orders(c, d, x, y);
    } else {
      Utf8Orders(d, c, y, x);
    }
    if (if Swapped(c, d) then d < c else c < d) {
      Utf16Orders(c, d, u, v);
    } else {
      Utf16Orders(d, c, v, u);
    }
  }

  lemma SwappedEitherWay(c: char, d: char)
    ensures Swapped(c, d) == Swapped(d, c)
  {
  }

  /** The two orders decide differently exactly on crossed ids. */
  lemma {:induction false} OrdersAgreeExactly(a: string, b: string)
    ensures IdLe(Rust, a, b) == IdLe(Dart, a, b) <==> !Crossed(a, b)
  {
    if a == "" || b == "" {
      OneIsEmpty(a, b);
    } else if a[0] == b[0] {
      hide Utf8.EncodeChar, Utf16Char, LexLe, UnitsLe;
      OrdersAgreeExactly(a[1..], b[1..]);
      LexStrip(Utf8.EncodeChar(a[0]), Utf8.Encode(a[1..]), Utf8.Encode(b[1..]));
      UnitsStrip(Utf16Char(a[0]), Utf16(a[1..]), Utf16(b[1..]));
    } else {
      FirstDiffers(a, b);
    }
  }

  /** Ids without characters outside the basic plane, ASCII ones among them, are never crossed. */
  lemma {:induction false} BasicNotCrossed(a: string, b: string)
    requires forall i :: 0 <= i < |a| ==> a[i] as int < 0x10000
    requires forall i :: 0 <= i < |b| ==> b[i] as int < 0x10000
    ensures !Crossed(a, b)
  {
    if a != "" && b != "" { BasicNotCrossed(a[1..], b[1..]); }
  }
}
