/**
 The library primitives the licence core calls. SHA-256 and Ed25519 (section 5.1 of RFC 8032)
 are unknown functions; a suite is any choice of them with the right sizes in which a made
 signature checks. Nothing says that other signatures do not check or that digests never
 collide: results that need it name the offending signature or pair of texts instead.
 */
module Crypto {
  import opened Octets
  import opened Wrappers

  datatype Primitives = Primitives(
    sha256: Bytes -> Bytes,
    publicKey: Bytes -> Bytes,
    sign: (Bytes, Bytes) -> Bytes,
    check: (Bytes, Bytes, Bytes) -> bool,
    isPoint: Bytes -> bool
  )

  ghost predicate Sound(c: Primitives) {
    && (forall x :: |c.sha256(x)| == 32)
    && (forall key :: |c.publicKey(key)| == 32 && c.isPoint(c.publicKey(key)))
    && (forall key, message :: |c.sign(key, message)| == 64)
    && (forall key, message :: c.check(c.publicKey(key), message, c.sign(key, message)))
  }

  function Zeros(n: nat): (b: Bytes)
    ensures |b| == n
  {
    seq(n, _ => 0)
  }

  type Suite = c: Primitives | Sound(c)
    ghost witness Primitives(_ => Zeros(32), _ => Zeros(32), (_, _) => Zeros(64), (_, _, _) => true, _ => true)

  /** `derive_key_id`: a short name for a public key. */
  function KeyId(c: Suite, publicKey: Bytes): string {
    "VLA-" + Hex(c.sha256(publicKey)[..8])
  }

  /** Twenty characters, equal exactly when the digests of the keys agree in their first eight bytes. */
  lemma KeyIdExactly(c: Suite, k1: Bytes, k2: Bytes)
    ensures |KeyId(c, k1)| == 20 && KeyId(c, k1)[..4] == "VLA-"
    ensures KeyId(c, k1) == KeyId(c, k2) <==> c.sha256(k1)[..8] == c.sha256(k2)[..8]
    ensures Digit16(KeyId(c, k1)[4]) == Some(c.sha256(k1)[0] / 16)
    ensures Digit16(KeyId(c, k1)[5]) == Some(c.sha256(k1)[0] % 16)
  {
    var x, y := c.sha256(k1)[..8], c.sha256(k2)[..8];
    assert KeyId(c, k1)[4..] == Hex(x) && KeyId(c, k2)[4..] == Hex(y);
    if KeyId(c, k1) == KeyId(c, k2) { HexInjective(x, y); }
    assert KeyId(c, k1)[4] == Hex(x)[0] && KeyId(c, k1)[5] == Hex(x)[1];
  }

  /** The value of a small hexadecimal digit. */
  function Digit16(d: char): Option<int> {
    if '0' <= d <= '9' then Some(d as int - '0' as int)
    else if 'a' <= d <= 'f' then Some(d as int - 'a' as int + 10)
    else None
  }
}
