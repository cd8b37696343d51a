/** The portable licence text `VORLIC1.<payload>.<signature>.<public key>`, each part in unpadded URL-safe base64. */
module Envelope {
  import opened Octets
  import opened Wrappers
  import opened Text
  import Base64
  import Utf8

  const PREFIX := "VORLIC1"

  datatype Parts = Parts(payload: string, signature: Bytes, publicKey: Bytes)

  function B64(b: Bytes): string {
    Base64.Encode(Base64.URL_SAFE_NO_PAD, b)
  }

  function Unb64(s: string): Option<Bytes> {
    Base64.Decode(Base64.URL_SAFE_NO_PAD, s)
  }

  /** `envelope_encode`. */
  function Encode(p: Parts): string {
    JoinOn([PREFIX, B64(Utf8.Encode(p.payload)), B64(p.signature), B64(p.publicKey)], '.')
  }

  /** `envelope_decode`. */
  function Decode(envelope: string): Option<Parts> {
    var parts := SplitOn(Trim(envelope), '.');
    if |parts| != 4 || parts[0] != PREFIX then None
    else
      var payload :- Unb64(parts[1]);
      var signature :- Unb64(parts[2]);
      var publicKey :- Unb64(parts[3]);
      var text :- Utf8.Decode(payload);
      Some(Parts(text, signature, publicKey))
  }

  lemma B64Plain(b: Bytes)
    ensures forall c :: c in B64(b) ==> c != '.' && !IsSpace(c)
    ensures Unb64(B64(b)) == Some(b)
  {
    Base64.EncodeCharacters(Base64.URL_SAFE_NO_PAD, b);
    Base64.DecodeEncode(Base64.URL_SAFE_NO_PAD, b);
  }

  lemma EncodeTight(p: Parts)
    ensures Tight(Encode(p))
  {
    var x, y, z := B64(Utf8.Encode(p.payload)), B64(p.signature), B64(p.publicKey);
    var e := Encode(p);
    B64Plain(p.publicKey);
    JoinFour(PREFIX, x, y, z);
    assert e == (PREFIX + "." + x + "." + y + ".") + z;
    assert e[|e| - 1] == '.' || e[|e| - 1] in z;
  }

  lemma JoinFour(w: string, x: string, y: string, z: string)
    ensures JoinOn([w, x, y, z], '.') == w + "." + x + "." + y + "." + z
  {
    assert [w, x, y, z][1..] == [x, y, z] && [x, y, z][1..] == [y, z] && [y, z][1..] == [z];
    assert JoinOn([y, z], '.') == y + "." + z;
    assert JoinOn([x, y, z], '.') == x + "." + JoinOn([y, z], '.');
  }

  /** Decoding an encoded envelope gives back its three parts, whatever they are. */
  lemma DecodeEncode(p: Parts)
    ensures Decode(Encode(p)) == Some(p)
  {
    var b := Utf8.Encode(p.payload);
    var parts := [PREFIX, B64(b), B64(p.signature), B64(p.publicKey)];
    B64Plain(b);
    B64Plain(p.signature);
    B64Plain(p.publicKey);
    EncodeTight(p);
    TrimOfTight(Encode(p));
    SplitJoin(parts, '.');
    Utf8.DecodeEncode(p.payload);
  }

  /** An accepted envelope is, up to white space around it, the encoding of what it decodes to. */
  lemma EncodeDecode(envelope: string)
    requires Decode(envelope).Some?
    ensures Encode(Decode(envelope).value) == Trim(envelope)
  {
    hide Base64.Decode, Base64.Encode;
    var parts := SplitOn(Trim(envelope), '.');
    var p := Decode(envelope).value;
    JoinSplit(Trim(envelope), '.');
    Base64.EncodeDecode(Base64.URL_SAFE_NO_PAD, parts[1]);
    Base64.EncodeDecode(Base64.URL_SAFE_NO_PAD, parts[2]);
    Base64.EncodeDecode(Base64.URL_SAFE_NO_PAD, parts[3]);
    Utf8.EncodeDecode(Unb64(parts[1]).value);
    assert parts == [PREFIX, B64(Utf8.Encode(p.payload)), B64(p.signature), B64(p.publicKey)];
  }

  /** Two envelope texts mean the same parts exactly when they differ only in surrounding white space. */
  lemma SamePartsSameText(e: string, f: string)
    requires Decode(e).Some? && Decode(f).Some?
    ensures Decode(e) == Decode(f) <==> Trim(e) == Trim(f)
  {
    EncodeDecode(e);
    EncodeDecode(f);
  }

  predicate UrlText(s: string) {
    forall c :: c in s ==> 'A' <= c <= 'Z' || 'a' <= c <= 'z' || '0' <= c <= '9' || c == '-' || c == '_'
  }

  /** Every envelope, written or accepted, is these four pieces with dots between and no padding. */
  lemma ShapeOf(p: Parts) returns (x: string, y: string, z: string)
    ensures Encode(p) == "VORLIC1." + x + "." + y + "." + z
    ensures UrlText(x) && UrlText(y) && UrlText(z)
  {
    x, y, z := B64(Utf8.Encode(p.payload)), B64(p.signature), B64(p.publicKey);
    JoinFour(PREFIX, x, y, z);
    B64Url(Utf8.Encode(p.payload));
    B64Url(p.signature);
    B64Url(p.publicKey);
    assert PREFIX + "." == "VORLIC1.";
  }

  lemma B64Url(b: Bytes)
    ensures UrlText(B64(b))
  {
    hide Base64.Encode;
    Base64.EncodeCharacters(Base64.URL_SAFE_NO_PAD, b);
    var s := B64(b);
    forall c | c in s
      ensures 'A' <= c <= 'Z' || 'a' <= c <= 'z' || '0' <= c <= '9' || c == '-' || c == '_'
    {
      var i :| 0 <= i < |s| && s[i] == c;
      assert Base64.FromChar(Base64.UrlSafe, s[i]).Some?;
    }
  }
}
