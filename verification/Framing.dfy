/** Server to server framing (network/batching.go, network/messages/signedMessage.go, server/pool.go):
    seven 32-bit words of metadata, the elements back to back, and one signature over all of it.
    The receiver reads in batches, hashes each element, and hands it to a worker that may overwrite it. */
module Framing {
  import opened ByteStrings
  import opened Sigcryption
  import opened SignedBuffers
  import opened Buffers

  const METADATA_SIZE := 4 * 7

  datatype Metadata = Metadata(
    numMessages: int, kind: int, round: int, layer: int, sender: int, dest: int, group: int
  ) {
    /** The fields that fit their width: `kind` and `group` are signed, the others are not. */
    predicate Fits() {
      && Unsigned(numMessages) && Unsigned(round) && Unsigned(layer) && Unsigned(sender) && Unsigned(dest)
      && Signed(kind) && Signed(group)
    }

    function Fields(): (f: seq<int>)
      ensures |f| == 7
    {
      [numMessages, kind, round, layer, sender, dest, group]
    }
  }

  predicate Unsigned(n: int) { 0 <= n < WORD }
  predicate Signed(n: int) { -WORD / 2 <= n < WORD / 2 }

  /** Go's int32(uint32). */
  function ToSigned(n: int): int { if n < WORD / 2 then n else n - WORD }

  function Words(f: seq<int>): (b: Bytes)
    ensures |b| == 4 * |f|
  {
    if f == [] then [] else Words(f[..|f| - 1]) + LE(f[|f| - 1], 4)
  }

  function Pack(m: Metadata): (b: Bytes)
    ensures |b| == METADATA_SIZE
  {
    Words(m.Fields())
  }

  function Word(b: Bytes, i: nat): int
    requires 4 * i + 4 <= |b|
  {
    FromLE(b[4 * i..4 * i + 4])
  }

  function Interpret(b: Bytes): (m: Metadata)
    requires |b| == METADATA_SIZE
    ensures m.numMessages >= 0
  {
    Metadata(Word(b, 0), ToSigned(Word(b, 1)), Word(b, 2), Word(b, 3), Word(b, 4), Word(b, 5), ToSigned(Word(b, 6)))
  }

  lemma SliceLeft(b: Bytes, last: Bytes, p: nat)
    requires p + 4 <= |b|
    ensures (b + last)[p..p + 4] == b[p..p + 4]
  {}

  lemma SliceRight(b: Bytes, last: Bytes, p: nat)
    requires p == |b| && |last| == 4
    ensures (b + last)[p..p + 4] == last
  {}

  lemma WordOfLast(b: Bytes, last: Bytes, n: nat, i: nat)
    requires |b| == 4 * n && |last| == 4 && i <= n
    ensures Word(b + last, i) == if i == n then FromLE(last) else Word(b, i)
  {
    hide FromLE;
    if i == n {
      SliceRight(b, last, 4 * i);
    } else {
      SliceLeft(b, last, 4 * i);
    }
  }

  lemma {:induction false} WordAt(f: seq<int>, i: nat)
    requires i < |f|
    ensures Word(Words(f), i) == f[i] % WORD
    decreases |f|
  {
    hide LE, FromLE, Word;
    var n := |f| - 1;
    WordOfLast(Words(f[..n]), LE(f[n], 4), n, i);
    LowWord(f[n]);
    if i < n { WordAt(f[..n], i); }
  }

  lemma UnsignedSurvives(n: int)
    ensures n % WORD == n <==> Unsigned(n)
  {}

  lemma SignedSurvives(n: int)
    ensures ToSigned(n % WORD) == n <==> Signed(n)
  {}

  /** The seven words, in this order. */
  lemma MetadataWords(m: Metadata)
    ensures Word(Pack(m), 0) == m.numMessages % WORD && Word(Pack(m), 1) == m.kind % WORD
    ensures Word(Pack(m), 2) == m.round % WORD && Word(Pack(m), 3) == m.layer % WORD
    ensures Word(Pack(m), 4) == m.sender % WORD && Word(Pack(m), 5) == m.dest % WORD
    ensures Word(Pack(m), 6) == m.group % WORD
  {
    hide Word, Words;
    forall i | 0 <= i < 7 ensures Word(Pack(m), i) == m.Fields()[i] % WORD { WordAt(m.Fields(), i); }
  }

  /** The metadata survive exactly when every field fits its width. */
  lemma MetadataRoundTrip(m: Metadata)
    ensures Interpret(Pack(m)) == m <==> m.Fits()
  {
    hide Word, Words, Unsigned, Signed, ToSigned;
    MetadataWords(m);
    UnsignedSurvives(m.numMessages);
    SignedSurvives(m.kind);
    UnsignedSurvives(m.round);
    UnsignedSurvives(m.layer);
    UnsignedSurvives(m.sender);
    UnsignedSurvives(m.dest);
    SignedSurvives(m.group);
  }

  // ----- elements

  function At(i: nat, size: nat): nat { i * size }

  lemma AtZero(size: nat)
    ensures At(0, size) == 0
  {}

  lemma AtOne(size: nat)
    ensures At(1, size) == size
  {}

  lemma OffsetStep(from: nat, n: nat, size: nat)
    ensures At(from + n, size) == At(from, size) + At(n, size)
  {
    assert (from + n) * size == from * size + n * size;
  }

  lemma AtStep(i: nat, n: nat, size: nat)
    requires i < n
    ensures At(i, size) + size == At(i + 1, size) <= At(n, size)
  {
    hide At;
    AtOne(size);
    OffsetStep(i, 1, size);
    OffsetStep(i + 1, n - (i + 1), size);
  }

  /** The first n elements of a stream. */
  function Elements(conn: Bytes, size: nat, n: nat): (es: seq<Bytes>)
    requires At(n, size) <= |conn|
    ensures |es| == n
  {
    if n == 0 then [] else
    AtStep(n - 1, n, size);
    Elements(conn, size, n - 1) + [conn[At(n - 1, size)..At(n, size)]]
  }

  /** Elements whose key is all zero are padding and are not dispatched. */
  predicate Dummy(e: Bytes)
    requires |e| >= KEY_SIZE
  {
    forall i :: 0 <= i < KEY_SIZE ==> e[i] == 0
  }

  /** The element starts with a key, and some byte of it is not zero. */
  predicate HasKey(e: Bytes) {
    |e| >= KEY_SIZE && exists i :: 0 <= i < KEY_SIZE && e[i] != 0
  }

  /** The loop over the key: does any byte differ from zero? */
  method AllZero(message: Bytes) returns (allZero: bool)
    requires |message| >= KEY_SIZE
    ensures allZero <==> forall i :: 0 <= i < KEY_SIZE ==> message[i] == 0
  {
    allZero := true;
    for i := 0 to KEY_SIZE
      invariant allZero && forall k :: 0 <= k < i ==> message[k] == 0
    {
      if message[i] != 0 { return false; }
    }
  }

  function Dispatched(es: seq<Bytes>): seq<Bytes> {
    if es == [] then [] else
    var e := es[|es| - 1];
    Dispatched(es[..|es| - 1]) + Job(e)
  }

  /** `jobs` are the elements at the positions `at`, in order: exactly those with some nonzero byte in
      their key. */
  ghost predicate KeyedOnly(es: seq<Bytes>, jobs: seq<Bytes>, at: seq<nat>) {
    && |jobs| == |at|
    && (forall k :: 0 <= k < |at| ==> at[k] < |es| && jobs[k] == es[at[k]])
    && (forall j, k :: 0 <= j < k < |at| ==> at[j] < at[k])
    && (forall i: nat :: i < |es| ==> (i in at <==> HasKey(es[i])))
  }

  lemma {:induction false} DispatchedExactly(es: seq<Bytes>) returns (at: seq<nat>)
    ensures KeyedOnly(es, Dispatched(es), at)
    decreases |es|
  {
    if es == [] {
      at := [];
    } else {
      var n := |es| - 1;
      var before := DispatchedExactly(es[..n]);
      OneJob(es[n]);
      at := if HasKey(es[n]) then before + [n] else before;
      hide Dummy, Job;
      KeyedStep(es, Dispatched(es[..n]), before, at);
    }
  }

  lemma OneJob(e: Bytes)
    ensures Job(e) == if HasKey(e) then [e] else []
  {}

  lemma KeyedStep(es: seq<Bytes>, jobs: seq<Bytes>, before: seq<nat>, at: seq<nat>)
    requires es != [] && KeyedOnly(es[..|es| - 1], jobs, before)
    requires at == if HasKey(es[|es| - 1]) then before + [|es| - 1] else before
    ensures KeyedOnly(es, jobs + if HasKey(es[|es| - 1]) then [es[|es| - 1]] else [], at)
  {
    hide HasKey;
    var n := |es| - 1;
    forall i: nat | i < |es| ensures i in at <==> HasKey(es[i]) {
      NotYet(es[..n], jobs, before, n);
      if i < n { assert es[..n][i] == es[i]; }
    }
  }

  lemma NotYet(es: seq<Bytes>, jobs: seq<Bytes>, at: seq<nat>, n: nat)
    requires KeyedOnly(es, jobs, at) && n >= |es|
    ensures n !in at
  {}

  /** The dummies a buffer puts between its elements are never dispatched. */
  lemma ZerosNeverDispatched(es: seq<Bytes>, size: nat)
    ensures Zeros(size) !in Dispatched(es)
  {
    var at := DispatchedExactly(es);
    hide Dispatched;
    forall k | 0 <= k < |at| ensures Dispatched(es)[k] != Zeros(size) {
      assert at[k] in at;
    }
  }

  lemma {:induction false} DispatchedAll(es: seq<Bytes>)
    requires forall i :: 0 <= i < |es| ==> HasKey(es[i])
    ensures Dispatched(es) == es
    decreases |es|
  {
    if es != [] {
      DispatchedAll(es[..|es| - 1]);
      assert es[..|es| - 1] + [es[|es| - 1]] == es;
    }
  }

  // ----- the sender

  /** What goes over the wire. */
  function Frame(s: Suite, sk: int, m: Metadata, data: Bytes): Bytes {
    Pack(m) + data + s.sign(sk, Pack(m) + data)
  }

  method PutUint32(a: array<Byte>, pos: nat, v: int)
    requires pos + 4 <= a.Length
    modifies a
    ensures a[pos..pos + 4] == LE(v, 4)
    ensures forall i :: 0 <= i < a.Length && !(pos <= i < pos + 4) ==> a[i] == old(a[i])
  {
    hide LE;
    LEStep(v, 4);
    LEStep(v / 256, 3);
    LEStep(v / 256 / 256, 2);
    LEStep(v / 256 / 256 / 256, 1);
    LEEmpty(v / 256 / 256 / 256 / 256);
    a[pos] := v % 256;
    a[pos + 1] := v / 256 % 256;
    a[pos + 2] := v / 256 / 256 % 256;
    a[pos + 3] := v / 256 / 256 / 256 % 256;
  }

  /** Metadata.PackTo. */
  method PackTo(m: Metadata, b: array<Byte>)
    requires b.Length >= METADATA_SIZE
    modifies b
    ensures b[..METADATA_SIZE] == Pack(m)
    ensures forall i :: METADATA_SIZE <= i < b.Length ==> b[i] == old(b[i])
  {
    hide LE;
    var f := m.Fields();
    for k := 0 to 7
      invariant b[..4 * k] == Words(f[..k])
      invariant forall i :: 4 * k <= i < b.Length ==> b[i] == old(b[i])
    {
      ghost var before := b[..4 * k];
      PutUint32(b, 4 * k, f[k]);
      assert f[..k + 1][..k] == f[..k];
      assert b[..4 * k] == before;
      assert b[..4 * (k + 1)] == b[..4 * k] + b[4 * k..4 * k + 4];
    }
    assert f[..7] == f;
  }

  method Overwrite(dst: array<Byte>, at: nat, src: Bytes)
    requires at + |src| <= dst.Length
    modifies dst
    ensures dst[..] == old(dst[..at]) + src + old(dst[at + |src|..])
  {
    CopyInto(dst, at, src);
    assert dst[..] == dst[..at] + dst[at..at + |src|] + dst[at + |src|..];
  }

  /** NewSignedMessage, PreHashSign and AsArray: metadata, data and signature share one array. */
  method MakeFrame(s: Suite, sk: int, m: Metadata, data: Bytes) returns (raw: array<Byte>)
    requires s.Laws()
    ensures fresh(raw) && raw[..] == Frame(s, sk, m, data)
  {
    hide Pack, Suite.Laws;
    var n := METADATA_SIZE + |data|;
    raw := new Byte[n + SIGNATURE_SIZE](_ => 0);
    Overwrite(raw, METADATA_SIZE, data);
    ghost var filled := raw[..];
    PackTo(m, raw);
    Glue(filled, raw[..], Pack(m), data);
    var signature := s.sign(sk, raw[..n]);
    SignatureLength(s, sk, raw[..n]);
    Overwrite(raw, n, signature);
  }

  lemma Glue(before: Bytes, after: Bytes, head: Bytes, data: Bytes)
    requires |head| + |data| <= |before| == |after| && before[|head|..|head| + |data|] == data
    requires after[..|head|] == head && forall i :: |head| <= i < |after| ==> after[i] == before[i]
    ensures after[..|head| + |data|] == head + data
  {}

  lemma SignatureLength(s: Suite, sk: int, m: Bytes)
    requires s.Laws()
    ensures |s.sign(sk, m)| == SIGNATURE_SIZE
  {}

  // ----- the receiver

  /** What was dispatched after n elements. */
  function Upto(conn: Bytes, size: nat, n: nat): seq<Bytes>
    requires At(n, size) <= |conn|
  {
    Dispatched(Elements(conn, size, n))
  }

  function Job(message: Bytes): seq<Bytes> {
    if |message| < KEY_SIZE || Dummy(message) then [] else [message]
  }

  /** One batch, whose slices are handed out one by one. After an element was hashed, the worker may
      overwrite its slice in any way; the rest of the batch is not affected. */
  method ProcessBatch(b: array<Byte>, n: nat, size: nat, worker: Bytes -> Bytes) returns (hashed: Bytes, jobs: seq<Bytes>)
    requires size >= KEY_SIZE && b.Length == At(n, size)
    modifies b
    ensures hashed == old(b[..]) && jobs == Upto(old(b[..]), size, n)
  {
    hide At, Upto, Job;
    ghost var source := b[..];
    hashed, jobs := [], [];
    ghost var i := 0;
    AtZero(size);
    NoneDispatched(source, size);
    var pos := 0;
    while pos < b.Length
      invariant i <= n && pos == At(i, size) <= b.Length
      invariant b[pos..] == source[pos..]
      invariant hashed == source[..pos]
      invariant jobs == Upto(source, size, i)
      decreases b.Length - pos
    {
      BatchStep(i, n, size);
      ghost var now := b[pos..];
      var message, job := HashAndDispatch(b, pos, size, worker);
      SliceOf(now, source, pos, size);
      ElementsStep(source, size, i, message);
      hashed, jobs, pos, i := hashed + message, jobs + job, pos + size, i + 1;
    }
    AllRead(i, n, size);
    assert source[..b.Length] == source;
  }

  /** Elements from..from + n of the stream, read into a fresh array. */
  method ReadBatch(conn: Bytes, from: nat, n: nat, size: nat, worker: Bytes -> Bytes)
      returns (hashed: Bytes, jobs: seq<Bytes>)
    requires size >= KEY_SIZE && At(from, size) <= At(from + n, size) <= |conn|
    ensures hashed == conn[At(from, size)..At(from + n, size)]
    ensures Upto(conn, size, from + n) == Upto(conn, size, from) + jobs
  {
    hide At, Upto;
    OffsetStep(from, n, size);
    var part := conn[At(from, size)..At(from + n, size)];
    var b := new Byte[|part|](_ => 0);
    Overwrite(b, 0, part);
    assert b[..] == part;
    hashed, jobs := ProcessBatch(b, n, size, worker);
    UptoConcat(conn, size, from, n);
  }

  /** Reading the elements of a later part of the stream. */
  lemma {:induction false} UptoConcat(conn: Bytes, size: nat, from: nat, n: nat)
    requires At(from, size) <= At(from + n, size) <= |conn|
    requires At(n, size) == At(from + n, size) - At(from, size)
    ensures Upto(conn, size, from + n) ==
            Upto(conn, size, from) + Upto(conn[At(from, size)..At(from + n, size)], size, n)
    decreases n
  {
    hide At, Upto, Job;
    var part := conn[At(from, size)..At(from + n, size)];
    if n == 0 {
      NoneDispatched(part, size);
    } else {
      var k := n - 1;
      BatchOffsets(from, k, size);
      var e := conn[At(from + k, size)..At(from + n, size)];
      ElementsStep(conn, size, from + k, e);
      assert e == part[At(k, size)..At(n, size)];
      ElementsStep(part, size, k, e);
      UptoConcat(conn, size, from, k);
      var shorter := conn[At(from, size)..At(from + k, size)];
      assert part == shorter + e;
      UptoPrefix(shorter, e, size, k);
      Append(Upto(conn, size, from), Upto(part, size, k), Job(e));
    }
  }

  lemma BatchOffsets(from: nat, k: nat, size: nat)
    ensures At(from, size) <= At(from + k, size) <= At(from + k + 1, size)
    ensures At(k, size) == At(from + k, size) - At(from, size)
    ensures At(k + 1, size) == At(k, size) + size && At(from + k + 1, size) == At(from + k, size) + size
  {
    hide At;
    OffsetStep(from, k, size);
    AtStep(k, k + 1, size);
    AtStep(from + k, from + k + 1, size);
  }

  lemma {:induction false} UptoPrefix(conn: Bytes, more: Bytes, size: nat, n: nat)
    requires At(n, size) <= |conn|
    ensures Upto(conn + more, size, n) == Upto(conn, size, n)
    decreases n
  {
    hide At, Job;
    ElementsPrefix(conn, more, size, n);
  }

  lemma {:induction false} ElementsPrefix(conn: Bytes, more: Bytes, size: nat, n: nat)
    requires At(n, size) <= |conn|
    ensures Elements(conn + more, size, n) == Elements(conn, size, n)
    decreases n
  {
    hide At;
    if n > 0 {
      AtStep(n - 1, n, size);
      ElementsPrefix(conn, more, size, n - 1);
      assert (conn + more)[At(n - 1, size)..At(n, size)] == conn[At(n - 1, size)..At(n, size)];
    }
  }

  lemma Append(done: seq<Bytes>, jobs: seq<Bytes>, job: seq<Bytes>)
    ensures done + jobs + job == done + (jobs + job)
  {}

  /** While bytes are left in the batch, a whole element is left. */
  lemma BatchStep(i: nat, n: nat, size: nat)
    requires i <= n && At(i, size) < At(n, size)
    ensures i < n && At(i, size) + size == At(i + 1, size) <= At(n, size)
  {
    hide At;
    AtStep(i, n, size);
  }

  lemma AllRead(i: nat, n: nat, size: nat)
    requires i <= n && size > 0 && At(i, size) >= At(n, size)
    ensures i == n
  {
    hide At;
    if i < n { AtStep(i, n, size); }
  }

  /** The slice at pos is hashed first and given to a worker afterwards, which may write anything
      into it and nothing outside of it. */
  method HashAndDispatch(b: array<Byte>, pos: nat, size: nat, worker: Bytes -> Bytes) returns (message: Bytes, job: seq<Bytes>)
    requires pos + size <= b.Length && size >= KEY_SIZE
    modifies b
    ensures message == old(b[pos..])[..size] && job == Job(message)
    ensures job == if exists i :: 0 <= i < KEY_SIZE && message[i] != 0 then [message] else []
    ensures b[..pos] == old(b[..pos]) && b[pos + size..] == old(b[pos..])[size..]
  {
    message := b[pos..pos + size];
    assert message == b[pos..][..size];
    job := [];
    ghost var before := b[..];
    var allZero := AllZero(message);
    OneJob(message);
    hide Job;
    if !allZero {
      job := [message];
      var result := worker(message);
      if |result| == size {
        CopyInto(b, pos, result);
      }
    }
    assert b[pos + size..] == before[pos + size..];
    assert before[pos..][size..] == before[pos + size..];
    assert before[pos..] == old(b[pos..]);
  }

  lemma SliceOf(now: Bytes, source: Bytes, pos: nat, size: nat)
    requires pos + size <= |source| && now == source[pos..]
    ensures now[..size] == source[pos..pos + size]
    ensures source[..pos] + now[..size] == source[..pos + size]
    ensures now[size..] == source[pos + size..]
  {}

  lemma ElementsStep(conn: Bytes, size: nat, n: nat, e: Bytes)
    requires At(n, size) <= At(n + 1, size) <= |conn| && e == conn[At(n, size)..At(n + 1, size)]
    ensures Upto(conn, size, n + 1) == Upto(conn, size, n) + Job(e)
  {
    hide At;
    assert Elements(conn, size, n + 1)[..n] == Elements(conn, size, n);
  }

  /** ContinuousReader and WorkerPoolProcessStream: whatever the batch size and whatever the workers
      do to their slices, the bytes hashed are the bytes received, and the elements dispatched are
      the elements received, in order, without the padding. */
  method Receive(conn: Bytes, num: nat, size: nat, batchSize: nat, worker: Bytes -> Bytes)
      returns (ok: bool, hashed: Bytes, jobs: seq<Bytes>, ghost at: seq<nat>)
    requires size >= KEY_SIZE
    ensures ok <==> At(num, size) <= |conn|
    ensures ok ==> hashed == conn[..At(num, size)] && jobs == Upto(conn, size, num)
    ensures ok ==> KeyedOnly(Elements(conn, size, num), jobs, at)
  {
    hide At, Upto, KeyedOnly;
    hashed, jobs, at := [], [], [];
    var step := if batchSize == 0 then 1 else batchSize;
    var i := 0;
    AtZero(size);
    NoneDispatched(conn, size);
    while i < num
      invariant i <= num && At(i, size) <= |conn|
      invariant hashed == conn[..At(i, size)]
      invariant jobs == Upto(conn, size, i)
    {
      var n := if num - i < step then num - i else step;
      OffsetStep(i, n, size);
      OffsetStep(i + n, num - (i + n), size);
      if |conn| < At(i + n, size) { return false, hashed, jobs, []; }
      var h, j := ReadBatch(conn, i, n, size, worker);
      hashed, jobs := hashed + h, jobs + j;
      i := i + n;
    }
    at := UptoExactly(conn, size, num);
    ok := true;
  }

  lemma UptoExactly(conn: Bytes, size: nat, num: nat) returns (at: seq<nat>)
    requires At(num, size) <= |conn|
    ensures KeyedOnly(Elements(conn, size, num), Upto(conn, size, num), at)
  {
    hide KeyedOnly;
    at := DispatchedExactly(Elements(conn, size, num));
  }

  lemma NoneDispatched(conn: Bytes, size: nat)
    requires At(0, size) <= |conn|
    ensures Upto(conn, size, 0) == []
  {}

  // ----- main results

  lemma {:induction false} ElementsOfFlatten(es: seq<Bytes>, size: nat, rest: Bytes)
    requires forall i :: 0 <= i < |es| ==> |es[i]| == size
    ensures |Flatten(es)| == At(|es|, size)
    ensures Elements(Flatten(es) + rest, size, |es|) == es
    decreases |es|
  {
    FlattenLength(es, size);
    if es != [] {
      var n, e := |es| - 1, es[|es| - 1];
      var before := es[..n];
      FlattenLast(before, e);
      assert es == before + [e];
      ElementsOfFlatten(before, size, e + rest);
      assert Flatten(es) + rest == Flatten(before) + (e + rest);
      AtStep(n, n + 1, size);
      hide At, Flatten;
      assert (Flatten(es) + rest)[At(n, size)..At(n + 1, size)] == e;
    }
  }

  lemma {:induction false} FlattenLast(es: seq<Bytes>, e: Bytes)
    ensures Flatten(es + [e]) == Flatten(es) + e
  {
    if es == [] {
      assert Flatten([e]) == e + Flatten([e][1..]);
    } else {
      FlattenLast(es[1..], e);
      assert (es + [e])[1..] == es[1..] + [e];
    }
  }

  /** A message to another server: metadata, and elements of the size the receiver expects for them. */
  datatype Parcel = Parcel(m: Metadata, elements: seq<Bytes>)

  ghost predicate Sendable(p: Parcel, sizeOf: Metadata -> nat) {
    && p.m.Fits() && p.m.numMessages == |p.elements|
    && (forall i :: 0 <= i < |p.elements| ==> |p.elements[i]| == sizeOf(p.m))
  }

  /** The signature is read without looking at errors: what is missing stays zero. */
  function ReadSignature(tail: Bytes): (r: (Bytes, Bytes))
    ensures |r.0| == SIGNATURE_SIZE && |r.1| <= |tail|
  {
    if |tail| < SIGNATURE_SIZE then (tail + Zeros(SIGNATURE_SIZE - |tail|), [])
    else (tail[..SIGNATURE_SIZE], tail[SIGNATURE_SIZE..])
  }

  /** What one iteration of HandleTcpStream must find, without batches: the metadata determine how
      much to read; None on a short stream or a wrong signature. */
  function ReadParcel(s: Suite, vk: Bytes, sizeOf: Metadata -> nat, conn: Bytes): Option<(Parcel, Bytes)> {
    if |conn| < METADATA_SIZE then None else
    var m, body := Interpret(conn[..METADATA_SIZE]), conn[METADATA_SIZE..];
    var n := At(m.numMessages, sizeOf(m));
    if |body| < n then None else
    var (signature, rest) := ReadSignature(body[n..]);
    if !s.verify(vk, conn[..METADATA_SIZE] + body[..n], signature) then None else
    Some((Parcel(m, Elements(body, sizeOf(m), m.numMessages)), rest))
  }

  function ReadAll(s: Suite, vk: Bytes, sizeOf: Metadata -> nat, conn: Bytes): Option<seq<Parcel>>
    decreases |conn|
  {
    if conn == [] then Some([]) else
    match ReadParcel(s, vk, sizeOf, conn)
    case None => None
    case Some((p, rest)) =>
      match ReadAll(s, vk, sizeOf, rest)
      case None => None
      case Some(ps) => Some([p] + ps)
  }

  function SendAll(s: Suite, sk: int, ps: seq<Parcel>): Bytes {
    if ps == [] then [] else Frame(s, sk, ps[0].m, Flatten(ps[0].elements)) + SendAll(s, sk, ps[1..])
  }

  /** A frame is read back exactly, whatever follows it on the connection. */
  lemma FrameRoundTrip(s: Suite, sk: int, sizeOf: Metadata -> nat, p: Parcel, rest: Bytes)
    requires s.Laws() && Sendable(p, sizeOf)
    ensures ReadParcel(s, s.vk(sk), sizeOf, Frame(s, sk, p.m, Flatten(p.elements)) + rest) == Some((p, rest))
  {
    hide Elements, At, Flatten, Pack, Interpret, Metadata.Fits;
    var head, data := Pack(p.m), Flatten(p.elements);
    var signature := s.sign(sk, head + data);
    var conn := Frame(s, sk, p.m, data) + rest;
    MetadataRoundTrip(p.m);
    ElementsOfFlatten(p.elements, sizeOf(p.m), signature + rest);
    assert conn[..METADATA_SIZE] == head;
    assert conn[METADATA_SIZE..] == data + (signature + rest);
    var body, n := conn[METADATA_SIZE..], |data|;
    SignatureLength(s, sk, head + data);
    assert body[..n] == data && body[n..] == signature + rest;
    assert ReadSignature(signature + rest) == (signature, rest);
  }

  lemma {:induction false} FlattenElements(conn: Bytes, size: nat, n: nat)
    requires At(n, size) <= |conn|
    ensures Flatten(Elements(conn, size, n)) == conn[..At(n, size)]
    decreases n
  {
    if n > 0 {
      AtStep(n - 1, n, size);
      hide At, Flatten;
      FlattenElements(conn, size, n - 1);
      FlattenLast(Elements(conn, size, n - 1), conn[At(n - 1, size)..At(n, size)]);
    } else {
      AtZero(size);
    }
  }

  /** Nothing is accepted without a signature: what is read begins the stream, and the bytes that follow,
      or zeros where the stream ends, are a signature of the sender over exactly metadata and elements. */
  lemma AcceptedFrame(s: Suite, vk: Bytes, sizeOf: Metadata -> nat, conn: Bytes)
    requires ReadParcel(s, vk, sizeOf, conn).Some?
    ensures |conn| >= METADATA_SIZE
    ensures var p := ReadParcel(s, vk, sizeOf, conn).value.0;
            var signed := conn[..METADATA_SIZE] + Flatten(p.elements);
            && p.m == Interpret(conn[..METADATA_SIZE]) && |p.elements| == p.m.numMessages
            && signed <= conn && s.verify(vk, signed, (conn[|signed|..] + Zeros(SIGNATURE_SIZE))[..SIGNATURE_SIZE])
  {
    hide Elements, At, Interpret, Flatten;
    var m, body := Interpret(conn[..METADATA_SIZE]), conn[METADATA_SIZE..];
    var n := At(m.numMessages, sizeOf(m));
    FlattenElements(body, sizeOf(m), m.numMessages);
    assert conn[..METADATA_SIZE] + body[..n] == conn[..METADATA_SIZE + n];
    assert conn[METADATA_SIZE + n..] == body[n..];
    SignatureIs(body[n..]);
  }

  lemma SignatureIs(tail: Bytes)
    ensures ReadSignature(tail).0 == (tail + Zeros(SIGNATURE_SIZE))[..SIGNATURE_SIZE]
  {}

  lemma ReadAllStep(s: Suite, vk: Bytes, sizeOf: Metadata -> nat, conn: Bytes, p: Parcel, rest: Bytes, ps: seq<Parcel>)
    requires conn != [] && ReadParcel(s, vk, sizeOf, conn) == Some((p, rest)) && ReadAll(s, vk, sizeOf, rest) == Some(ps)
    ensures ReadAll(s, vk, sizeOf, conn) == Some([p] + ps)
  {
    hide ReadParcel;
  }

  lemma FrameNotEmpty(s: Suite, sk: int, m: Metadata, data: Bytes)
    ensures Frame(s, sk, m, data) != []
  {}

  /** So a whole connection delivers exactly the parcels that were sent, in order. */
  lemma {:induction false} ConnectionRoundTrip(s: Suite, sk: int, sizeOf: Metadata -> nat, ps: seq<Parcel>)
    requires s.Laws() && forall i :: 0 <= i < |ps| ==> Sendable(ps[i], sizeOf)
    ensures ReadAll(s, s.vk(sk), sizeOf, SendAll(s, sk, ps)) == Some(ps)
    decreases |ps|
  {
    hide ReadParcel, Sendable, Suite.Laws, Frame, ReadAll, Flatten;
    if ps == [] {
      ReadNothing(s, s.vk(sk), sizeOf);
    } else {
      ConnectionRoundTrip(s, sk, sizeOf, ps[1..]);
      OneFrame(s, sk, sizeOf, ps[0], SendAll(s, sk, ps[1..]), ps[1..]);
      assert [ps[0]] + ps[1..] == ps;
    }
  }

  lemma ReadNothing(s: Suite, vk: Bytes, sizeOf: Metadata -> nat)
    ensures ReadAll(s, vk, sizeOf, []) == Some([])
  {}

  lemma OneFrame(s: Suite, sk: int, sizeOf: Metadata -> nat, p: Parcel, rest: Bytes, ps: seq<Parcel>)
    requires s.Laws() && Sendable(p, sizeOf) && ReadAll(s, s.vk(sk), sizeOf, rest) == Some(ps)
    ensures ReadAll(s, s.vk(sk), sizeOf, Frame(s, sk, p.m, Flatten(p.elements)) + rest) == Some([p] + ps)
  {
    hide ReadParcel, Sendable, Suite.Laws, Frame, ReadAll, Flatten;
    FrameRoundTrip(s, sk, sizeOf, p, rest);
    FrameNotEmpty(s, sk, p.m, Flatten(p.elements));
    ReadAllStep(s, s.vk(sk), sizeOf, Frame(s, sk, p.m, Flatten(p.elements)) + rest, p, rest, ps);
  }

  // ----- the batched reader reads the same

  /** What a server makes of a frame: its metadata, the jobs handed out, the bytes hashed. */
  datatype Received = Received(m: Metadata, jobs: seq<Bytes>, hashed: Bytes)

  /** HandleTcpStream, one iteration, with the batched reader and workers that overwrite their slices:
      the result is ReadParcel's, whatever the batch size and whatever the workers write. */
  method ReadFrame(s: Suite, vk: Bytes, sizeOf: Metadata -> nat, conn: Bytes, batchSize: nat, worker: Bytes -> Bytes)
      returns (r: Option<(Received, Bytes)>)
    requires forall m :: sizeOf(m) >= KEY_SIZE
    ensures r.Some? <==> ReadParcel(s, vk, sizeOf, conn).Some?
    ensures r.Some? ==>
      var (p, rest) := ReadParcel(s, vk, sizeOf, conn).value;
      && r.value.0.m == p.m && r.value.0.jobs == Dispatched(p.elements) && r.value.1 == rest
      && |conn| >= METADATA_SIZE && At(p.m.numMessages, sizeOf(p.m)) <= |conn| - METADATA_SIZE
      && r.value.0.hashed == conn[..METADATA_SIZE + At(p.m.numMessages, sizeOf(p.m))]
  {
    hide Elements, At, Interpret, Dispatched;
    if |conn| < METADATA_SIZE { return None; }
    var head, body := conn[..METADATA_SIZE], conn[METADATA_SIZE..];
    var m := Interpret(head);
    var ok, hashed, jobs, at := Receive(body, m.numMessages, sizeOf(m), batchSize, worker);
    if !ok { return None; }
    var n := At(m.numMessages, sizeOf(m));
    var (signature, rest) := ReadSignature(body[n..]);
    if !s.verify(vk, head + hashed, signature) { return None; }
    assert head + hashed == conn[..METADATA_SIZE + n];
    r := Some((Received(m, jobs, head + hashed), rest));
  }

  /** Every element starts with a key that is not all zero. */
  ghost predicate Keyed(p: Parcel) {
    forall i :: 0 <= i < |p.elements| ==> HasKey(p.elements[i])
  }

  /** One frame from sender to workers: for every batch size and whatever the workers write into their
      slices, the elements dispatched are exactly the sender's, in order, the bytes hashed are exactly
      those signed, the signature verifies, and the rest of the connection is left. */
  method SendAndReceive(s: Suite, sk: int, sizeOf: Metadata -> nat, p: Parcel, rest: Bytes, batchSize: nat, worker: Bytes -> Bytes)
      returns (r: Option<(Received, Bytes)>)
    requires s.Laws() && Sendable(p, sizeOf) && Keyed(p) && forall m :: sizeOf(m) >= KEY_SIZE
    ensures r == Some((Received(p.m, p.elements, Pack(p.m) + Flatten(p.elements)), rest))
  {
    hide Elements, At, Dispatched, Flatten, Pack, HasKey, Suite.Laws;
    var data := FlattenAll(p.elements);
    var raw := MakeFrame(s, sk, p.m, data);
    var conn := raw[..] + rest;
    FrameRoundTrip(s, sk, sizeOf, p, rest);
    r := ReadFrame(s, s.vk(sk), sizeOf, conn, batchSize, worker);
    DispatchedAll(p.elements);
    ElementsOfFlatten(p.elements, sizeOf(p.m), []);
    assert conn[..METADATA_SIZE + |data|] == Pack(p.m) + data;
  }

  method FlattenAll(es: seq<Bytes>) returns (b: Bytes)
    ensures b == Flatten(es)
  {
    b := [];
    for i := 0 to |es|
      invariant b == Flatten(es[..i])
    {
      FlattenLast(es[..i], es[i]);
      assert es[..i + 1] == es[..i] + [es[i]];
      b := b + es[i];
    }
    assert es[..|es|] == es;
  }

  function Jobs(ps: seq<Parcel>): (r: seq<Parcel>)
    ensures |r| == |ps| && forall i :: 0 <= i < |ps| ==> r[i] == Parcel(ps[i].m, Dispatched(ps[i].elements))
  {
    seq(|ps|, i requires 0 <= i < |ps| => Parcel(ps[i].m, Dispatched(ps[i].elements)))
  }

  /** The parcels read so far, followed by what is still to be read. */
  ghost function After(done: seq<Parcel>, left: Option<seq<Parcel>>): Option<seq<Parcel>> {
    match left
    case None => None
    case Some(ps) => Some(done + ps)
  }

  /** HandleTcpStream: the whole connection, frame by frame, with any batch size for each frame. */
  method ReadConnection(s: Suite, vk: Bytes, sizeOf: Metadata -> nat, whole: Bytes, batchSizes: nat -> nat, worker: Bytes -> Bytes)
      returns (r: Option<seq<Parcel>>)
    requires forall m :: sizeOf(m) >= KEY_SIZE
    ensures r.Some? <==> ReadAll(s, vk, sizeOf, whole).Some?
    ensures r.Some? ==> r.value == Jobs(ReadAll(s, vk, sizeOf, whole).value)
  {
    hide ReadParcel, Dispatched;
    var conn := whole;
    ghost var done: seq<Parcel> := [];
    var out: seq<Parcel> := [];
    NothingDone(ReadAll(s, vk, sizeOf, whole));
    while conn != []
      invariant ReadAll(s, vk, sizeOf, whole) == After(done, ReadAll(s, vk, sizeOf, conn))
      invariant out == Jobs(done)
      decreases |conn|
    {
      ParcelShrinks(s, vk, sizeOf, conn);
      var next := ReadFrame(s, vk, sizeOf, conn, batchSizes(|out|), worker);
      if next.None? { return None; }
      ghost var (p, rest) := ReadParcel(s, vk, sizeOf, conn).value;
      OneMoreDone(done, p, ReadAll(s, vk, sizeOf, rest));
      out := out + [Parcel(next.value.0.m, next.value.0.jobs)];
      done := done + [p];
      conn := next.value.1;
    }
    r := Some(out);
  }

  lemma NothingDone(left: Option<seq<Parcel>>)
    ensures After([], left) == left
  {
    if left.Some? { assert [] + left.value == left.value; }
  }

  lemma OneMoreDone(done: seq<Parcel>, p: Parcel, left: Option<seq<Parcel>>)
    ensures left.Some? ==> After(done, Some([p] + left.value)) == After(done + [p], left)
    ensures left.None? ==> After(done + [p], left) == None
  {
    if left.Some? { assert done + ([p] + left.value) == (done + [p]) + left.value; }
  }

  lemma ParcelShrinks(s: Suite, vk: Bytes, sizeOf: Metadata -> nat, conn: Bytes)
    ensures ReadParcel(s, vk, sizeOf, conn).Some? ==> |ReadParcel(s, vk, sizeOf, conn).value.1| < |conn|
  {
    hide Elements, At, Interpret;
  }

  /** A whole connection from sender to workers: everything sent is dispatched, exactly and in order,
      for every choice of batch sizes and whatever the workers write. */
  method SendAndReceiveAll(s: Suite, sk: int, sizeOf: Metadata -> nat, ps: seq<Parcel>, batchSizes: nat -> nat, worker: Bytes -> Bytes)
      returns (r: Option<seq<Parcel>>)
    requires s.Laws() && (forall i :: 0 <= i < |ps| ==> Sendable(ps[i], sizeOf) && Keyed(ps[i]))
    requires forall m :: sizeOf(m) >= KEY_SIZE
    ensures r == Some(ps)
  {
    hide ReadAll, SendAll, Sendable, Suite.Laws, Dispatched;
    r := ReadConnection(s, s.vk(sk), sizeOf, SendAll(s, sk, ps), batchSizes, worker);
    ConnectionRoundTrip(s, sk, sizeOf, ps);
    forall i | 0 <= i < |ps| ensures Jobs(ps)[i] == ps[i] { DispatchedAll(ps[i].elements); }
    assert Jobs(ps) == ps;
  }
}
