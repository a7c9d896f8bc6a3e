/** Encrypt-then-sign boxes (crypto/sigcryption.go), over an arbitrary cipher, signature scheme,
    Diffie-Hellman group, token issuer and token hash. */
module Sigcryption {
  import opened ByteStrings

  const NONCE_SIZE := 24
  const SIGNATURE_SIZE := 64
  const OVERHEAD := SIGNATURE_SIZE
  const KEY_SIZE := 32
  const POINT_SIZE := 32
  const TOKEN_SIZE := 48

  /** The primitives the protocol is built on. Private keys are scalars, numbered by int; a client's
      signing key doubles as its Diffie-Hellman secret, so `vk` is also the public point. */
  datatype Suite = Suite(
    pad: (Bytes, Bytes, nat) -> Byte,        // AES-CTR keystream: key, iv, position
    sign: (int, Bytes) -> Bytes,
    verify: (Bytes, Bytes, Bytes) -> bool,   // verification key, message, signature
    vk: int -> Bytes,
    dh: (int, Bytes) -> Bytes,               // shared key of a secret and a public point
    onCurve: Bytes -> bool,                  // does VerificationKey.ToCurvePoint succeed
    token: Bytes -> Bytes,                   // the one valid token on a content string
    hash: Bytes -> nat                       // low 64 bits of the token's SHA-256
  ) {
    /** Honest signatures verify, the Diffie-Hellman key agrees from both ends, sizes are fixed. */
    ghost predicate Laws() {
      && (forall k, m :: |sign(k, m)| == SIGNATURE_SIZE && verify(vk(k), m, sign(k, m)))
      && (forall k :: |vk(k)| == KEY_SIZE && onCurve(vk(k)))
      && (forall a, b :: dh(a, vk(b)) == dh(b, vk(a)))
      && (forall m :: |token(m)| == TOKEN_SIZE)
    }
  }

  function Nonce(round: int, layer: int, dest: int): (n: Bytes)
    ensures |n| == NONCE_SIZE
  {
    LE(round, 8) + LE(layer, 8) + LE(dest, 8)
  }

  /** xor with the keystream of (key, first 16 nonce bytes). */
  function Crypt(s: Suite, m: Bytes, nonce: Bytes, key: Bytes): (c: Bytes)
    requires |nonce| == NONCE_SIZE
    ensures |c| == |m|
  {
    seq<Byte>(|m|, i requires 0 <= i < |m| => XorByte(m[i], s.pad(key, nonce[..16], i)))
  }

  /** SignedSecretSeal: ciphertext, then the signature over nonce and ciphertext. */
  function Seal(s: Suite, m: Bytes, nonce: Bytes, key: Bytes, sk: int): Bytes
    requires |nonce| == NONCE_SIZE
  {
    var c := Crypt(s, m, nonce, key);
    c + s.sign(sk, nonce + c)
  }

  /** What the signature in a box covers, and the signature itself. */
  function Ciphertext(box: Bytes): (c: Bytes)
    requires |box| >= OVERHEAD
  {
    box[..|box| - OVERHEAD]
  }

  function Signature(box: Bytes): (sig: Bytes)
    requires |box| >= OVERHEAD
    ensures |sig| == OVERHEAD
  {
    box[|box| - OVERHEAD..]
  }

  function Open(s: Suite, box: Bytes, nonce: Bytes, key: Bytes): (m: Bytes)
    requires |box| >= OVERHEAD && |nonce| == NONCE_SIZE
    ensures |m| == |box| - OVERHEAD
  {
    Crypt(s, Ciphertext(box), nonce, key)
  }

  predicate Authentic(s: Suite, box: Bytes, nonce: Bytes, vk: Bytes)
    requires |box| >= OVERHEAD
  {
    s.verify(vk, nonce + Ciphertext(box), Signature(box))
  }

  /** A sealed box is accepted under the signer's key and the same nonce, and opens to what was sealed. */
  lemma SealOpens(s: Suite, m: Bytes, nonce: Bytes, key: Bytes, sk: int)
    requires s.Laws() && |nonce| == NONCE_SIZE
    ensures |Seal(s, m, nonce, key, sk)| == |m| + OVERHEAD
    ensures Authentic(s, Seal(s, m, nonce, key, sk), nonce, s.vk(sk))
    ensures Open(s, Seal(s, m, nonce, key, sk), nonce, key) == m
  {
    var c := Crypt(s, m, nonce, key);
    var box := Seal(s, m, nonce, key, sk);
    assert Ciphertext(box) == c;
    assert Signature(box) == s.sign(sk, nonce + c);
    forall i | 0 <= i < |m|
      ensures Crypt(s, c, nonce, key)[i] == m[i]
    {
      XorTwice(m[i], s.pad(key, nonce[..16], i));
    }
  }

  /** Encryption adds the keystream of the key and the first 16 nonce bytes to the message, bit by bit. */
  lemma CryptBits(s: Suite, m: Bytes, nonce: Bytes, key: Bytes, i: nat, k: nat)
    requires |nonce| == NONCE_SIZE && i < |m| && k < 8
    ensures Bit(Crypt(s, m, nonce, key)[i], k) == (Bit(m[i], k) + Bit(s.pad(key, nonce[..16], i), k)) % 2
  {
    XorBits(m[i], s.pad(key, nonce[..16], i), k);
  }

  /** So does a box; its bytes are sent. */
  lemma SealBits(s: Suite, m: Bytes, nonce: Bytes, key: Bytes, sk: int, i: nat, k: nat)
    requires |nonce| == NONCE_SIZE && i < |m| && k < 8
    ensures i < |Seal(s, m, nonce, key, sk)|
    ensures Bit(Seal(s, m, nonce, key, sk)[i], k) == (Bit(m[i], k) + Bit(s.pad(key, nonce[..16], i), k)) % 2
  {
    hide Crypt, Bit;
    CryptBits(s, m, nonce, key, i, k);
  }

  lemma CryptAdds(s: Suite, m: Bytes, nonce: Bytes, key: Bytes, i: nat)
    requires |nonce| == NONCE_SIZE && i < |m|
    ensures AddsBits(Crypt(s, m, nonce, key)[i], m[i], s.pad(key, nonce[..16], i))
  {
    hide Crypt, Bit;
    forall k | 0 <= k < 8
      ensures Bit(Crypt(s, m, nonce, key)[i], k) == (Bit(m[i], k) + Bit(s.pad(key, nonce[..16], i), k)) % 2
    {
      CryptBits(s, m, nonce, key, i, k);
    }
  }

  /** One message under two keys and nonces is encrypted to the same byte iff the keystreams agree there. */
  lemma KeystreamDecides(s: Suite, m: Bytes, nonce: Bytes, key: Bytes, nonce': Bytes, key': Bytes, i: nat)
    requires |nonce| == NONCE_SIZE == |nonce'| && i < |m|
    ensures Crypt(s, m, nonce, key)[i] == Crypt(s, m, nonce', key')[i] <==> s.pad(key, nonce[..16], i) == s.pad(key', nonce'[..16], i)
  {
    CryptAdds(s, m, nonce, key, i);
    CryptAdds(s, m, nonce', key', i);
    if Crypt(s, m, nonce, key)[i] == Crypt(s, m, nonce', key')[i] {
      hide Crypt, AddsBits;
      BitsCancel(Crypt(s, m, nonce, key)[i], m[i], s.pad(key, nonce[..16], i), s.pad(key', nonce'[..16], i));
    } else {
      hide AddsBits;
    }
  }

  /** A byte is sent in the clear iff the keystream is zero there. */
  lemma ClearIffZero(s: Suite, m: Bytes, nonce: Bytes, key: Bytes, i: nat)
    requires |nonce| == NONCE_SIZE && i < |m|
    ensures Crypt(s, m, nonce, key)[i] == m[i] <==> s.pad(key, nonce[..16], i) == 0
  {
    hide Crypt, AddsBits;
    CryptAdds(s, m, nonce, key, i);
    AddsZero(m[i]);
    if Crypt(s, m, nonce, key)[i] == m[i] {
      BitsCancel(m[i], m[i], s.pad(key, nonce[..16], i), 0);
    } else if s.pad(key, nonce[..16], i) == 0 {
      SameSum(Crypt(s, m, nonce, key)[i], m[i], m[i], 0);
    }
  }

  lemma NonceParts(r: int, l: int, d: int)
    ensures Nonce(r, l, d)[..8] == LE(r, 8) && Nonce(r, l, d)[8..16] == LE(l, 8) && Nonce(r, l, d)[16..] == LE(d, 8)
  {
    hide LE;
  }

  /** The three little-endian words of a nonce: round, layer, receiver. */
  lemma NonceWords(r: int, l: int, d: int)
    ensures FromLE(Nonce(r, l, d)[..8]) == r % Pow256(8)
    ensures FromLE(Nonce(r, l, d)[8..16]) == l % Pow256(8)
    ensures FromLE(Nonce(r, l, d)[16..]) == d % Pow256(8)
  {
    NonceParts(r, l, d);
    hide Nonce, LE, FromLE, Pow256;
    LERoundTrip(r, 8);
    LERoundTrip(l, 8);
    LERoundTrip(d, 8);
  }

  /** Nonces of messages with different rounds, layers or receivers differ. */
  lemma NonceInjective(r: nat, l: nat, d: nat, r': nat, l': nat, d': nat)
    requires r < Pow256(8) && l < Pow256(8) && d < Pow256(8)
    requires r' < Pow256(8) && l' < Pow256(8) && d' < Pow256(8)
    requires Nonce(r, l, d) == Nonce(r', l', d')
    ensures r == r' && l == l' && d == d'
  {
    hide LE, Pow256;
    NonceParts(r, l, d);
    NonceParts(r', l', d');
    hide Nonce;
    LEInjective(r, r', 8);
    LEInjective(l, l', 8);
    LEInjective(d, d', 8);
  }
}
