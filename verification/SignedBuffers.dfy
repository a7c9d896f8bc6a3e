/** The byte buffers behind the boxes (crypto/sigcryption.go, server/common/marshalling.go): signed
    data is assembled in place, in front of the ciphertext, inside the buffer that was received. */
module SignedBuffers {
  import opened ByteStrings
  import opened Sigcryption
  import opened PrepareMessages
  import opened ProcessMessages

  /** A Go slice: a window into a shared array. */
  datatype Slice = Slice(a: array<Byte>, lo: nat, hi: nat) {
    ghost predicate Valid() { lo <= hi <= a.Length }

    ghost function Bytes(): Bytes
      requires Valid()
      reads a
    {
      a[lo..hi]
    }
  }

  method PutUint64(a: array<Byte>, pos: nat, v: int)
    requires pos + 8 <= a.Length
    modifies a
    ensures a[pos..pos + 8] == LE(v, 8)
    ensures forall i :: 0 <= i < a.Length && !(pos <= i < pos + 8) ==> a[i] == old(a[i])
  {
    hide LE;
    var rest := v;
    ghost var done: Bytes := [];
    LEEmpty(v);
    for k := 0 to 8
      invariant done == a[pos..pos + k] && |done| == k
      invariant done + LE(rest, 8 - k) == LE(v, 8)
      invariant forall i :: 0 <= i < a.Length && !(pos <= i < pos + k) ==> a[i] == old(a[i])
    {
      LEStep(rest, 8 - k);
      a[pos + k] := rest % 256;
      done := done + [rest % 256];
      rest := rest / 256;
    }
    LEEmpty(rest);
  }

  lemma LEStep(n: int, k: nat)
    requires k > 0
    ensures LE(n, k) == [n % 256] + LE(n / 256, k - 1)
  {}

  lemma LEEmpty(n: int)
    ensures LE(n, 0) == []
  {}

  /** What the buffer holds after PackSignedData: the nonce in the 24 bytes before `offset`. */
  ghost function Packed(raw: Bytes, offset: nat, nonce: Bytes): Bytes
    requires NONCE_SIZE <= offset <= |raw| && |nonce| == NONCE_SIZE
  {
    raw[..offset - NONCE_SIZE] + nonce + raw[offset..]
  }

  /** Writes the nonce in place and returns a slice that aliases the buffer: from the nonce up to
      the signature. Only the 24 bytes before `offset` change. */
  method PackSignedData(round: int, layer: int, server: int, raw: array<Byte>, offset: nat) returns (signed: Slice)
    requires NONCE_SIZE <= offset && offset + OVERHEAD <= raw.Length
    modifies raw
    ensures signed == Slice(raw, offset - NONCE_SIZE, raw.Length - OVERHEAD)
    ensures raw[..] == Packed(old(raw[..]), offset, Nonce(round, layer, server))
  {
    hide LE;
    ghost var before := raw[..];
    PutUint64(raw, offset - 24, round);
    PutUint64(raw, offset - 16, layer);
    PutUint64(raw, offset - 8, server);
    assert raw[offset - 24..offset - 16] == LE(round, 8);
    assert raw[offset - 16..offset - 8] == LE(layer, 8);
    ThreeWords(before, raw[..], offset, LE(round, 8), LE(layer, 8), LE(server, 8));
    signed := Slice(raw, offset - 24, raw.Length - OVERHEAD);
  }

  lemma ThreeWords(before: Bytes, after: Bytes, offset: nat, a: Bytes, b: Bytes, c: Bytes)
    requires 24 <= offset <= |before| == |after| && |a| == |b| == |c| == 8
    requires forall i :: 0 <= i < |after| && !(offset - 24 <= i < offset) ==> after[i] == before[i]
    requires after[offset - 24..offset - 16] == a && after[offset - 16..offset - 8] == b && after[offset - 8..offset] == c
    ensures after == Packed(before, offset, a + b + c)
  {
    assert after[offset - 24..offset] == after[offset - 24..offset - 16] + after[offset - 16..offset - 8] + after[offset - 8..offset];
    assert after == after[..offset - 24] + after[offset - 24..offset] + after[offset..];
    assert after[..offset - 24] == before[..offset - 24] && after[offset..] == before[offset..];
  }

  /** The signed bytes are the nonce and the ciphertext behind it. */
  lemma PackedSigned(raw: Bytes, offset: nat, nonce: Bytes)
    requires NONCE_SIZE <= offset && offset + OVERHEAD <= |raw| && |nonce| == NONCE_SIZE
    ensures Packed(raw, offset, nonce)[offset - NONCE_SIZE..|raw| - OVERHEAD] == nonce + raw[offset..|raw| - OVERHEAD]
    ensures Packed(raw, offset, nonce)[..offset - NONCE_SIZE] == raw[..offset - NONCE_SIZE]
    ensures Packed(raw, offset, nonce)[offset..] == raw[offset..]
  {
    Middle(raw[..offset - NONCE_SIZE], nonce, raw[offset..], |raw| - OVERHEAD);
    assert raw[offset..][..|raw| - OVERHEAD - offset] == raw[offset..|raw| - OVERHEAD];
  }

  lemma Middle(a: Bytes, b: Bytes, c: Bytes, hi: nat)
    requires |a| + |b| <= hi <= |a| + |b| + |c|
    ensures (a + b + c)[|a|..hi] == b + c[..hi - |a| - |b|]
    ensures (a + b + c)[..|a|] == a && (a + b + c)[|a| + |b|..] == c
  {
    var s, r := a + b + c, b + c[..hi - |a| - |b|];
    forall i | 0 <= i < hi - |a| ensures s[|a|..hi][i] == r[i] {
      assert s[|a|..hi][i] == s[|a| + i];
    }
  }

  /** A second write replaces the first. */
  lemma PackedTwice(raw: Bytes, offset: nat, first: Bytes, second: Bytes)
    requires NONCE_SIZE <= offset <= |raw| && |first| == |second| == NONCE_SIZE
    ensures Packed(Packed(raw, offset, first), offset, second) == Packed(raw, offset, second)
  {}

  /** SignedSecretSeal builds nonce, ciphertext and signature in one buffer and returns it without
      the nonce; the receiver will write the nonce back. */
  method SignedSecretSeal(s: Suite, message: Bytes, nonce: Bytes, key: Bytes, sk: int) returns (box: Slice)
    requires |nonce| == NONCE_SIZE && |s.sign(sk, nonce + Crypt(s, message, nonce, key))| == SIGNATURE_SIZE
    ensures fresh(box.a) && box.Valid() && box.lo == NONCE_SIZE && box.hi == box.a.Length
    ensures box.Bytes() == Seal(s, message, nonce, key, sk)
    ensures box.a[..NONCE_SIZE] == nonce
  {
    hide Crypt;
    var n := |message|;
    var out := new Byte[n + OVERHEAD + NONCE_SIZE];
    XorKeyStream(s, out, NONCE_SIZE, message, key, nonce);
    ghost var c := Crypt(s, message, nonce, key);
    assert out[NONCE_SIZE..NONCE_SIZE + n] == c;
    CopyInto(out, 0, nonce);
    assert out[0..NONCE_SIZE] == nonce && out[NONCE_SIZE..NONCE_SIZE + n] == c;
    assert out[..NONCE_SIZE + n] == out[0..NONCE_SIZE] + out[NONCE_SIZE..NONCE_SIZE + n];
    var sig := s.sign(sk, out[..n + NONCE_SIZE]);
    assert sig == s.sign(sk, nonce + c);
    CopyInto(out, n + NONCE_SIZE, sig);
    assert out[NONCE_SIZE..NONCE_SIZE + n] == c && out[..NONCE_SIZE] == nonce;
    assert out[NONCE_SIZE..out.Length] == out[NONCE_SIZE..NONCE_SIZE + n] + out[NONCE_SIZE + n..n + NONCE_SIZE + |sig|];
    assert Seal(s, message, nonce, key, sk) == c + sig;
    box := Slice(out, NONCE_SIZE, out.Length);
  }

  method XorKeyStream(s: Suite, dst: array<Byte>, at: nat, src: Bytes, key: Bytes, nonce: Bytes)
    requires at + |src| <= dst.Length && |nonce| == NONCE_SIZE
    modifies dst
    ensures dst[at..at + |src|] == Crypt(s, src, nonce, key)
    ensures forall i :: 0 <= i < dst.Length && !(at <= i < at + |src|) ==> dst[i] == old(dst[i])
  {
    for k := 0 to |src|
      invariant forall i :: 0 <= i < k ==> dst[at + i] == XorByte(src[i], s.pad(key, nonce[..16], i))
      invariant forall i :: 0 <= i < dst.Length && !(at <= i < at + k) ==> dst[i] == old(dst[i])
    {
      dst[at + k] := XorByte(src[k], s.pad(key, nonce[..16], k));
    }
    hide XorByte;
    ghost var c := Crypt(s, src, nonce, key);
    ghost var written := dst[at..at + |src|];
    assert forall i :: 0 <= i < |src| ==> written[i] == c[i];
  }

  /** The receiver's check of an envelope whose box starts at `offset`, in the received buffer:
      exactly the nonce and ciphertext that were signed are verified, although the nonce overwrites
      what stood before the box; the box and everything more than 24 bytes before it are untouched. */
  method CheckEnvelope(s: Suite, round: int, layer: int, server: int, raw: array<Byte>, offset: nat, vk: Bytes) returns (ok: bool)
    requires NONCE_SIZE <= offset && raw.Length >= offset + OVERHEAD
    modifies raw
    ensures ok == Authentic(s, old(raw[offset..]), Nonce(round, layer, server), vk)
    ensures raw[offset..] == old(raw[offset..])
    ensures raw[..offset - NONCE_SIZE] == old(raw[..offset - NONCE_SIZE])
  {
    hide Nonce, Packed;
    ghost var before := raw[..];
    ghost var nonce := Nonce(round, layer, server);
    var signed := PackSignedData(round, layer, server, raw, offset);
    PackedSigned(before, offset, nonce);
    var sig := raw[raw.Length - OVERHEAD..];
    var m := signed.a[signed.lo..signed.hi];
    ok := s.verify(vk, m, sig);
    ghost var box := before[offset..];
    assert raw[offset..] == raw[..][offset..] == box;
    assert raw[..offset - NONCE_SIZE] == raw[..][..offset - NONCE_SIZE];
    assert m == raw[..][offset - NONCE_SIZE..|before| - OVERHEAD] == nonce + Ciphertext(box);
    assert sig == Signature(box) by { assert sig == raw[offset..][|box| - OVERHEAD..]; }
  }

  /** Decrypts a box into a new buffer. */
  method SecretOpen(s: Suite, box: Bytes, nonce: Bytes, key: Bytes) returns (out: array<Byte>)
    requires |box| >= OVERHEAD && |nonce| == NONCE_SIZE
    ensures fresh(out) && out[..] == Open(s, box, nonce, key)
  {
    out := new Byte[|box| - OVERHEAD];
    XorKeyStream(s, out, 0, Ciphertext(box), key, nonce);
    assert out[..] == out[0..0 + |Ciphertext(box)|];
  }

  /** The last path layer. The signed data is packed for (round, layer) first, but the arguments of
      the debug call pack it again for (layers, layers) before the signature is checked: since both
      slices alias the buffer, the second nonce is the one verified. The next key and the boomerang
      keep their bytes. */
  method CheckGroupBoomerang(net: Net, round: int, layer: int, me: nat, info: array<Byte>, boomerangLength: nat)
    returns (ok: bool)
    requires OVERHEAD <= boomerangLength && ENVELOPE_HEAD + boomerangLength <= info.Length
    modifies info
    ensures ok == net.s.verify(old(info[..POINT_SIZE]), SignedForGroup(net, me, old(info[..])),
                               Signature(old(info[ENVELOPE_HEAD..ENVELOPE_HEAD + boomerangLength])))
    ensures info[..POINT_SIZE] == old(info[..POINT_SIZE]) && info[ENVELOPE_HEAD..] == old(info[ENVELOPE_HEAD..])
  {
    hide Nonce, SignedForGroup, Packed, Signature;
    ghost var before := info[..];
    ghost var nonce := Nonce(net.layers, net.layers, me);
    var signedData := PackSignedData(round, layer, me, info, ENVELOPE_HEAD);
    var printed := PackSignedData(net.layers, net.layers, me, info, ENVELOPE_HEAD);
    PackedTwice(before, ENVELOPE_HEAD, Nonce(round, layer, me), nonce);
    GroupWindow(net, me, before, info[..], boomerangLength);
    var key := info[..][..POINT_SIZE];
    var m := info[..][signedData.lo..signedData.hi];
    var sig := info[..][ENVELOPE_HEAD + boomerangLength - OVERHEAD..ENVELOPE_HEAD + boomerangLength];
    ok := net.s.verify(key, m, sig);
  }

  /** The buffer after both writes, seen through the windows the check uses. */
  lemma GroupWindow(net: Net, me: nat, before: Bytes, after: Bytes, b: nat)
    requires OVERHEAD <= b && ENVELOPE_HEAD + b <= |before|
    requires after == Packed(before, ENVELOPE_HEAD, Nonce(net.layers, net.layers, me))
    ensures |after| == |before|
    ensures after[..POINT_SIZE] == before[..POINT_SIZE] && after[ENVELOPE_HEAD..] == before[ENVELOPE_HEAD..]
    ensures after[ENVELOPE_HEAD - NONCE_SIZE..|before| - OVERHEAD] == SignedForGroup(net, me, before)
    ensures after[ENVELOPE_HEAD + b - OVERHEAD..ENVELOPE_HEAD + b] == Signature(before[ENVELOPE_HEAD..ENVELOPE_HEAD + b])
  {
    hide Nonce;
    PackedSigned(before, ENVELOPE_HEAD, Nonce(net.layers, net.layers, me));
    assert after[..POINT_SIZE] == after[..ENVELOPE_HEAD - NONCE_SIZE][..POINT_SIZE];
    assert after[ENVELOPE_HEAD + b - OVERHEAD..ENVELOPE_HEAD + b] == after[ENVELOPE_HEAD..][b - OVERHEAD..b];
  }

  /** So the client's message for the last layer passes the check in the buffer. */
  lemma ClientPassesGroupCheck(net: Net, c: Client)
    requires net.Valid() && c.For(net)
    ensures GroupCheckPasses(net, Server(net, c, net.layers - 1), PathInfo(net, c, net.layers - 1),
                             |BoomerangEnvelope(net, c, net.layers - 1)|)
  {
    hide Nonce, Server, Token, PathInfo, BoomerangEnvelope, SignedForGroup, Signature, PathBox;
    GroupBoomerang(net, c);
    InfoParts(net, c, net.layers - 1);
  }

  ghost predicate GroupCheckPasses(net: Net, me: nat, info: Bytes, b: nat) {
    && OVERHEAD <= b && |info| == ENVELOPE_HEAD + b
    && net.s.verify(info[..POINT_SIZE], SignedForGroup(net, me, info), Signature(info[ENVELOPE_HEAD..ENVELOPE_HEAD + b]))
  }

  /** It would not pass with the nonce written first, under a signature that is valid for no other
      message than the one signed: the rounds in the two nonces differ. */
  lemma FirstNonceWouldFail(net: Net, c: Client, l: nat, s: nat, vk: Bytes, b: Bytes)
    requires net.Valid() && c.For(net) && net.layers < Pow256(8) && net.servers <= Pow256(8)
    requires l == net.layers - 1 && s == Server(net, c, l) && vk == Vk(net, c, net.layers) && b == BoomerangEnvelope(net, c, l)
    requires |b| >= OVERHEAD && forall m :: net.s.verify(vk, m, Signature(b)) ==> m == Nonce(net.layers, net.layers, s) + Ciphertext(b)
    ensures !net.s.verify(vk, Nonce(l, l, s) + Ciphertext(b), Signature(b))
  {
    hide Nonce, BoomerangEnvelope, Token, Ciphertext, Signature, Pow256, Vk;
    var m, first := Nonce(net.layers, net.layers, s) + Ciphertext(b), Nonce(l, l, s) + Ciphertext(b);
    if m == first {
      assert m[..NONCE_SIZE] == Nonce(net.layers, net.layers, s) && first[..NONCE_SIZE] == Nonce(l, l, s);
      NonceInjective(net.layers, net.layers, s, l, l, s);
    }
  }
}
