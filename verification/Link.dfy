/** One link between two servers from end to end (network/buffers/inMemory.go, network/batching.go,
    server/pool.go): the messages written to the link's buffer, shuffled, read out in one chunk, signed
    and framed, then read in batches by the receiver and handed to its workers. */
module Link {
  import opened ByteStrings
  import opened Shuffling
  import opened Sigcryption
  import opened Buffers
  import opened Framing
  import LR = LightningRound
  import PR = PathRounds

  /** Messages of one size, each with a key that is not all zero. */
  ghost predicate Messages(es: seq<Bytes>, size: nat) {
    forall i :: 0 <= i < |es| ==> |es[i]| == size && HasKey(es[i])
  }

  /** The buffer of a link with everything written to it, or None on overflow. */
  method Fill(es: seq<Bytes>, size: nat, binSize: nat) returns (r: Option<MemReadWriter>)
    ensures r.Some? <==> |es| <= binSize
    ensures r.Some? ==>
      && fresh(r.value) && fresh(r.value.data) && fresh(r.value.element)
      && r.value.elementLength == size && r.value.numElements == binSize
      && r.value.elementCount == |es| <= r.value.data.Length && r.value.data[..|es|] == es
      && r.value.position == 0 && r.value.offset == size == r.value.element.Length
  {
    var m := new MemReadWriter(size, binSize);
    for i := 0 to |es|
      invariant fresh(m) && fresh(m.data) && fresh(m.element)
      invariant m.elementLength == size && m.numElements == binSize == m.data.Length
      invariant m.elementCount == i <= binSize && m.data[..i] == es[..i]
      invariant m.position == 0 && m.offset == size == m.element.Length
    {
      var ok := m.Write(es[i]);
      if !ok { return None; }
    }
    return Some(m);
  }

  /** The messages in the order the random words from `taken` on put them. */
  ghost predicate Drawn(out: seq<Bytes>, es: seq<Bytes>, stream: nat -> nat, taken: nat) {
    var pi := Knuth(Range(|es|), 0, stream, taken);
    IsPerm(pi, |es|) && |out| == |es| == |pi| && forall i :: 0 <= i < |es| ==> pi[i] < |es| && out[i] == es[pi[i]]
  }

  lemma NoPadding(stored: seq<Bytes>, len: nat)
    ensures WithDummies(stored, |stored|, len) == stored
  {}

  /** SendSignedMessageChunks for one destination: shuffle without dummies, one chunk of Len() bytes. */
  method ReadOut(m: MemReadWriter, shuf: Shuffler) returns (data: Bytes, ghost order: seq<Bytes>)
    requires m.elementCount <= m.data.Length && m.element.Length == m.elementLength && m.offset == m.elementLength && m.position == 0
    requires forall i :: 0 <= i < m.elementCount ==> |m.data[i]| == m.elementLength
    requires m.elementCount <= m.numElements && m.elementCount < WORD
    modifies m, m.data, m.element, shuf
    ensures data == Flatten(order) && multiset(order) == multiset(old(m.data[..m.elementCount]))
    ensures Drawn(order, old(m.data[..m.elementCount]), shuf.stream, old(shuf.taken))
  {
    hide Flatten, MemReadWriter.Remaining, WithDummies, Knuth, IsPerm;
    ghost var stored := m.data[..m.elementCount];
    var ok := m.Shuffle(shuf, false);
    order := m.order;
    NoPadding(stored, m.elementLength);
    PermElements(m.permutation, |stored|);
    assert Drawn(order, stored, shuf.stream, old(shuf.taken));
    OrderSize(m);
    var b := new Byte[m.numElements * m.elementLength];
    var n := m.ReadNextChunk(b);
    data := b[..n];
  }

  /** Len() bytes are all there is to read. */
  lemma OrderSize(m: MemReadWriter)
    requires m.Valid() && m.Remaining() == Flatten(m.order)
    ensures |m.Remaining()| == m.numElements * m.elementLength
  {
    hide Flatten, MemReadWriter.Remaining;
    FlattenLength(m.order, m.elementLength);
  }

  lemma SameMessages(es: seq<Bytes>, order: seq<Bytes>, size: nat)
    requires Messages(es, size) && multiset(order) == multiset(es)
    ensures Messages(order, size) && |order| == |es|
  {
    hide HasKey;
    forall i | 0 <= i < |order| ensures |order[i]| == size && HasKey(order[i]) {
      assert order[i] in multiset(order);
      assert order[i] in es;
    }
    assert |order| == |multiset(order)| == |multiset(es)| == |es|;
  }

  /** For any messages that fit the link, any random stream, any batch size and whatever the workers
      write: the workers of the receiver get a permutation of exactly the messages that were written, the
      signature over exactly these bytes verifies, and the rest of the connection is untouched. Too many
      messages are an overflow at the sender. */
  method Transmit(s: Suite, sk: int, sizeOf: Metadata -> nat, m: Metadata, es: seq<Bytes>, binSize: nat, shuf: Shuffler,
                  rest: Bytes, batchSize: nat, worker: Bytes -> Bytes)
      returns (r: Option<(Received, Bytes)>)
    requires s.Laws() && m.Fits() && m.numMessages == |es| && Messages(es, sizeOf(m)) && forall m' :: sizeOf(m') >= KEY_SIZE
    modifies shuf
    ensures r.Some? <==> |es| <= binSize
    ensures r.Some? ==>
      && r.value.0.m == m && r.value.1 == rest
      && multiset(r.value.0.jobs) == multiset(es) && Drawn(r.value.0.jobs, es, shuf.stream, old(shuf.taken))
      && r.value.0.hashed == Pack(m) + Flatten(r.value.0.jobs)
  {
    hide Elements, At, Dispatched, Flatten, Pack, HasKey, Suite.Laws, Drawn;
    var buffer := Fill(es, sizeOf(m), binSize);
    if buffer.None? { return None; }
    ghost var order;
    var data: Bytes;
    data, order := ReadOut(buffer.value, shuf);
    SameMessages(es, order, sizeOf(m));
    ghost var p := Parcel(m, order);
    var raw := MakeFrame(s, sk, m, data);
    var conn := raw[..] + rest;
    FrameRoundTrip(s, sk, sizeOf, p, rest);
    r := ReadFrame(s, s.vk(sk), sizeOf, conn, batchSize, worker);
    DispatchedAll(order);
    ElementsOfFlatten(order, sizeOf(m), []);
    assert conn[..METADATA_SIZE + |data|] == Pack(m) + data;
  }

  // ----- the packets of the protocol are such messages

  /** A lightning packet starts with the client's key for its layer: it is carried iff that is not zero. */
  lemma LightningCarried(r: LR.Round, c: nat, j: nat)
    requires r.Valid() && c < |r.w.cs| && j < r.w.net.layers
    ensures HasKey(r.Pkt(c, j).data) <==> r.w.Key(c, j) != Zeros(KEY_SIZE)
  {
    LR.KeyPrefix(r, c, j);
    KeyDecides(r.w.Key(c, j), r.Pkt(c, j).data);
  }

  lemma KeyDecides(key: Bytes, data: Bytes)
    requires |data| >= KEY_SIZE && data[..KEY_SIZE] == key
    ensures HasKey(data) <==> key != Zeros(KEY_SIZE)
  {
    forall i | 0 <= i < KEY_SIZE ensures data[i] == key[i] {}
    if !HasKey(data) { assert key == Zeros(KEY_SIZE); }
  }

  /** So are path messages and receipts. */
  lemma PathCarried(x: PR.Round, c: nat, j: nat)
    requires x.Valid() && c < |x.w.cs| && j < PR.Hops(x.w.net, x.r)
    ensures HasKey(x.Pkt(c, j).data) <==> x.w.Key(c, if j == 0 then x.r else x.r - j + 1) != Zeros(KEY_SIZE)
  {
    PR.KeyPrefix(x, c, j);
    hide PR.Round.Pkt, PR.Round.Rs;
    KeyDecides(x.w.Key(c, if j == 0 then x.r else x.r - j + 1), x.Pkt(c, j).data);
  }
}
