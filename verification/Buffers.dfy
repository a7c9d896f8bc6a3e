/** Outgoing message buffers (network/buffers/inMemory.go): elements are stored as they arrive and
    read back in a random order, in chunks of any size that need not align with elements. */
module Buffers {
  import opened ByteStrings
  import opened Shuffling

  function Flatten(es: seq<Bytes>): Bytes {
    if es == [] then [] else es[0] + Flatten(es[1..])
  }

  lemma {:induction false} FlattenLength(es: seq<Bytes>, n: nat)
    requires forall i :: 0 <= i < |es| ==> |es[i]| == n
    ensures |Flatten(es)| == |es| * n
  {
    if es != [] {
      FlattenLength(es[1..], n);
      assert |es| * n == n + (|es| - 1) * n;
    }
  }

  function Zeros(n: nat): (z: Bytes)
    ensures |z| == n
  {
    seq<Byte>(n, _ => 0)
  }

  class MemReadWriter {
    var data: array<Bytes>
    var permutation: seq<nat>
    var position: nat
    const elementLength: nat
    var elementCount: nat
    var offset: nat
    var element: array<Byte>
    var numElements: nat

    /** The elements in the order in which they will be read. */
    ghost var order: seq<Bytes>

    ghost predicate Valid()
      reads this, data, element
    {
      && element.Length == elementLength && offset <= elementLength
      && elementCount <= data.Length && position <= numElements
      && |permutation| == |order| == numElements
      && (forall i :: 0 <= i < numElements ==> |order[i]| == elementLength)
      && (forall i, j :: 0 <= i < j < numElements ==> permutation[i] != permutation[j])
      && (forall i :: position <= i < numElements ==>
            order[i] == if permutation[i] < elementCount then data[permutation[i]] else Zeros(elementLength))
    }

    /** The bytes not handed out yet: the rest of a split element, then the elements still in order. */
    ghost function Remaining(): Bytes
      requires Valid()
      reads this, data, element
    {
      element[offset..] + Flatten(order[position..])
    }

    constructor (elementLength: nat, numElements: nat)
      ensures fresh(data) && fresh(element)
      ensures this.elementLength == elementLength && this.numElements == numElements
      ensures data.Length == numElements && elementCount == 0 && position == 0
      ensures element.Length == elementLength && offset == elementLength
    {
      data := new Bytes[numElements](_ => []);
      element := new Byte[elementLength];
      offset := elementLength;
      this.elementLength, this.numElements := elementLength, numElements;
      permutation, position, elementCount, order := [], 0, 0, [];
    }

    /** False is LinkOverflow. */
    method Write(b: Bytes) returns (ok: bool)
      requires elementCount <= data.Length
      modifies this`elementCount, data
      ensures ok == (old(elementCount) < data.Length) && elementCount <= data.Length
      ensures data[..elementCount] == old(data[..elementCount]) + if ok then [b] else []
    {
      if elementCount >= data.Length { return false; }
      data[elementCount] := b;
      elementCount := elementCount + 1;
      ok := true;
    }

    /** Fixes the reading order. Without dummies only the stored elements are read, each once. */
    method Shuffle(shuf: Shuffler, dummies: bool) returns (ok: bool)
      requires elementCount <= data.Length && element.Length == elementLength && offset == elementLength && position == 0
      requires forall i :: 0 <= i < elementCount ==> |data[i]| == elementLength
      requires elementCount <= numElements
      modifies this`numElements, this`permutation, this`order, shuf
      ensures numElements == if dummies then old(numElements) else elementCount
      ensures ok <==> numElements < WORD
      ensures ok ==> Valid() && Remaining() == Flatten(order)
      ensures ok ==> multiset(order) == multiset(WithDummies(data[..elementCount], numElements, elementLength))
      ensures ok ==> IsPerm(permutation, numElements) && permutation == Knuth(Range(numElements), 0, shuf.stream, old(shuf.taken))
    {
      hide WithDummies, IsPerm, Flatten, Knuth, Zeros, Range;
      if !dummies { numElements := elementCount; }
      var pi := shuf.Perm(numElements);
      if pi.None? { return false; }
      permutation := pi.value[..];
      ghost var stored := data[..elementCount];
      order := OrderOf(permutation, stored, numElements, elementLength);
      assert element[offset..] == [] && order[0..] == order;
      ok := true;
    }

    /** Copies the next element in order to b[at..], and frees it: it is never read again. */
    method ReadElement(b: array<Byte>, at: nat)
      requires Valid() && position < numElements && at + elementLength <= b.Length
      modifies this`position, data, b
      ensures Valid() && position == old(position) + 1
      ensures b[at..at + elementLength] == order[old(position)]
      ensures forall i :: 0 <= i < b.Length && !(at <= i < at + elementLength) ==> b[i] == old(b[i])
    {
      var elementIndex := permutation[position];
      ghost var e := order[position];
      position := position + 1;
      if elementIndex >= elementCount {
        CopyInto(b, at, Zeros(elementLength));
        return;
      }
      CopyInto(b, at, data[elementIndex]);
      data[elementIndex] := [];
    }

    /** The remainder of an element that was split by the previous chunk. */
    method TakeRest(b: array<Byte>) returns (written: nat)
      requires Valid() && b != element
      modifies this`offset, b
      ensures Valid() && written <= b.Length && (offset < elementLength ==> written == b.Length)
      ensures old(Remaining()) == b[..written] + Remaining()
    {
      hide Flatten, Zeros;
      written := 0;
      ghost var later := Flatten(order[position..]);
      var rest := element[offset..];
      if elementLength - offset > 0 {
        written := Min(b.Length, elementLength - offset);
        CopyInto(b, 0, rest[..written]);
        offset := offset + written;
        assert element[offset..] == rest[written..];
        assert b[..written] == b[0..0 + written] == rest[..written];
      }
      Resume(rest, written, later);
      assert b[..written] == rest[..written] && element[offset..] == rest[written..];
    }

    /** The next element, as a whole. */
    method TakeElement(b: array<Byte>, written: nat)
      requires Valid() && b != element && offset == elementLength && position < numElements
      requires written + elementLength <= b.Length
      modifies this`position, data, b
      ensures Valid() && position == old(position) + 1
      ensures old(b[..written] + Remaining()) == b[..written + elementLength] + Remaining()
    {
      hide Flatten, Zeros;
      NextElement();
      ghost var done, e := b[..written], order[position];
      ReadElement(b, written);
      assert b[..written + elementLength] == done + e;
      assert element[offset..] == [];
    }

    /** As much of the next element as fits; the remainder is left for the next chunk. */
    method SplitElement(b: array<Byte>, written: nat)
      requires Valid() && b != element && offset == elementLength && position < numElements
      requires written <= b.Length < written + elementLength
      modifies this`position, this`offset, data, element, b
      ensures Valid() && position == old(position) + 1
      ensures old(b[..written] + Remaining()) == b[..] + Remaining()
    {
      hide Flatten;
      NextElement();
      ghost var done, e, later := b[..written], order[position], Flatten(order[position + 1..]);
      ReadElement(element, 0);
      var copied := element[..];
      assert copied == element[0..0 + elementLength] == e;
      offset := b.Length - written;
      CopyInto(b, written, copied[..offset]);
      assert b[..] == done + e[..offset];
      assert element[offset..] == e[offset..];
      Regroup(done, e, offset, later);
    }

    lemma NextElement()
      requires Valid() && offset == elementLength && position < numElements
      ensures Remaining() == order[position] + Flatten(order[position + 1..])
    {
      assert element[offset..] == [];
      assert order[position..][0] == order[position] && order[position..][1..] == order[position + 1..];
    }

    lemma NothingLeft()
      requires Valid() && offset == elementLength && position == numElements
      ensures Remaining() == []
    {}

    /** Fills b with the next bytes of the stream; short only when the stream ends. */
    method ReadNextChunk(b: array<Byte>) returns (written: nat)
      requires Valid() && b != element
      modifies this`position, this`offset, data, element, b
      ensures Valid() && written == Min(b.Length, |old(Remaining())|)
      ensures b[..written] == old(Remaining())[..written]
      ensures Remaining() == old(Remaining())[written..]
    {
      hide Flatten;
      ghost var whole := Remaining();
      var size := b.Length;
      written := TakeRest(b);
      while written < size && position < numElements
        invariant Valid() && written <= size && (offset < elementLength ==> written == size)
        invariant whole == b[..written] + Remaining()
        decreases numElements - position
      {
        if written + elementLength > size {
          SplitElement(b, written);
          written := size;
          assert b[..written] == b[..];
        } else {
          TakeElement(b, written);
          written := written + elementLength;
        }
      }
      if written < size { NothingLeft(); }
    }
  }

  lemma Join(whole: Bytes, done: Bytes, rest: Bytes, chunk: Bytes, after: Bytes)
    requires whole == done + rest && rest == chunk + after
    ensures (done + chunk) + after == whole
  {}

  lemma Resume(rest: Bytes, k: nat, later: Bytes)
    requires k <= |rest|
    ensures rest + later == rest[..k] + (rest[k..] + later)
  {}

  lemma Regroup(done: Bytes, e: Bytes, k: nat, later: Bytes)
    requires k <= |e|
    ensures done + (e + later) == (done + e[..k]) + (e[k..] + later)
  {}

  method NextChunk(r: MemReadWriter, size: nat) returns (chunk: Bytes)
    requires r.Valid()
    modifies r`position, r`offset, r.data, r.element
    ensures r.Valid() && chunk + r.Remaining() == old(r.Remaining())
    ensures |chunk| == Min(size, |old(r.Remaining())|)
  {
    hide MemReadWriter.Remaining;
    var b := new Byte[size];
    var n := r.ReadNextChunk(b);
    chunk := b[..n];
  }

  /** The stream cut into chunks of any sizes: together they are the elements in order, to the byte. */
  method ReadInChunks(r: MemReadWriter, sizes: seq<nat>) returns (out: Bytes)
    requires r.Valid()
    modifies r`position, r`offset, r.data, r.element
    ensures r.Valid() && out + r.Remaining() == old(r.Remaining())
    ensures |out| == Min(Total(sizes), |old(r.Remaining())|)
  {
    hide MemReadWriter.Remaining, MemReadWriter.Valid, Total;
    TotalStart(sizes);
    out := [];
    ghost var whole := r.Remaining();
    for i := 0 to |sizes|
      invariant r.Valid() && r.data == old(r.data) && r.element == old(r.element)
      invariant out + r.Remaining() == whole
      invariant |out| == Min(Total(sizes[..i]), |whole|)
    {
      ghost var rest := r.Remaining();
      var chunk := NextChunk(r, sizes[i]);
      Join(whole, out, rest, chunk, r.Remaining());
      TotalStep(sizes, i);
      out := out + chunk;
    }
    assert sizes[..|sizes|] == sizes;
  }

  function Total(sizes: seq<nat>): nat {
    if sizes == [] then 0 else Total(sizes[..|sizes| - 1]) + sizes[|sizes| - 1]
  }

  lemma TotalStart(sizes: seq<nat>)
    ensures Total(sizes[..0]) == 0
  {}

  lemma TotalStep(sizes: seq<nat>, i: nat)
    requires i < |sizes|
    ensures Total(sizes[..i + 1]) == Total(sizes[..i]) + sizes[i]
  {
    assert sizes[..i + 1][..i] == sizes[..i];
  }

  ghost function WithDummies(stored: seq<Bytes>, n: nat, len: nat): (all: seq<Bytes>)
    requires |stored| <= n
    ensures |all| == n
  {
    stored + seq(n - |stored|, _ => Zeros(len))
  }

  lemma OrderOf(permutation: seq<nat>, stored: seq<Bytes>, n: nat, len: nat) returns (order: seq<Bytes>)
    requires IsPerm(permutation, n) && |stored| <= n && (forall i :: 0 <= i < |stored| ==> |stored[i]| == len)
    ensures |permutation| == |order| == n
    ensures forall i :: 0 <= i < n ==> |order[i]| == len
    ensures forall i, j :: 0 <= i < j < n ==> permutation[i] != permutation[j]
    ensures forall i :: 0 <= i < n ==>
      order[i] == if permutation[i] < |stored| then stored[permutation[i]] else Zeros(len)
    ensures multiset(order) == multiset(WithDummies(stored, n, len))
  {
    hide IsPerm;
    var all := WithDummies(stored, n, len);
    PermutedMultiset(permutation, all);
    PermElements(permutation, n);
    order := Permuted(permutation, all);
    forall i, j | 0 <= i < j < n ensures permutation[i] != permutation[j] {
      PermInjective(permutation, n, i, j);
    }
  }
}
