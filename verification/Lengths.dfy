/** The length tables by which routers and readers agree on message sizes
    (server/prepareMessages/lengths.go), and their in-place shift between path rounds. */
module Lengths {
  import opened ByteStrings
  import opened Sigcryption
  import opened PrepareMessages
  import opened ProcessMessages

  // ----- what the tables hold

  function OnionLength(layers: nat, size: int, l: nat): int {
    size + OVERHEAD * (layers - l)
  }

  function LightningLength(layers: nat, payload: int, l: nat): int {
    OnionLength(layers, payload + SIGNATURE_SIZE, l) + KEY_SIZE
  }

  function BoomerangLength(layers: nat, size: int, limit: nat, l: nat): int {
    size + OVERHEAD * Min(l, limit) + if l == layers - 1 then OVERHEAD else 0
  }

  function WireBoomerangLength(size: int, limit: nat, l: nat): int {
    size + OVERHEAD * Min(l, limit) + if l == 0 then 0 else KEY_SIZE
  }

  /** The encrypted part of a path message from layer l on. */
  function PathBoxLength(layers: nat, size: int, limit: nat, l: nat): int
    requires l <= layers
    decreases layers - l
  {
    if l == layers then 0
    else OVERHEAD + POINT_SIZE + TOKEN_SIZE + PathBoxLength(layers, size, limit, l + 1) + BoomerangLength(layers, size, limit, l)
  }

  lemma PathBoxRecurrence(layers: nat, size: int, limit: nat, l: nat)
    requires l <= layers
    ensures PathBoxLength(layers, size, limit, l) ==
      if l == layers then 0
      else OVERHEAD + POINT_SIZE + TOKEN_SIZE + PathBoxLength(layers, size, limit, l + 1) + BoomerangLength(layers, size, limit, l)
  {}

  // ----- the loops that fill them

  method OnionLengths(layers: nat, size0: int) returns (lengths: array<int>)
    ensures fresh(lengths) && lengths.Length == layers + 1
    ensures forall l :: 0 <= l <= layers ==> lengths[l] == OnionLength(layers, size0, l)
  {
    lengths := new int[layers + 1];
    var size := size0;
    var layer := layers;
    while layer >= 0
      invariant -1 <= layer <= layers
      invariant size == size0 + OVERHEAD * (layers - layer)
      invariant forall l :: layer < l <= layers ==> lengths[l] == OnionLength(layers, size0, l)
    {
      lengths[layer] := size;
      size := size + OVERHEAD;
      layer := layer - 1;
    }
  }

  method LightningMessageLengths(layers: nat, payload: int) returns (lengths: array<int>)
    ensures fresh(lengths) && lengths.Length == layers + 1
    ensures forall l :: 0 <= l <= layers ==> lengths[l] == LightningLength(layers, payload, l)
  {
    lengths := OnionLengths(layers, payload + SIGNATURE_SIZE);
    for i := 0 to layers
      invariant forall l :: 0 <= l < i ==> lengths[l] == LightningLength(layers, payload, l)
      invariant forall l :: i <= l <= layers ==> lengths[l] == OnionLength(layers, payload + SIGNATURE_SIZE, l)
    {
      lengths[i] := lengths[i] + KEY_SIZE;
    }
    lengths[layers] := lengths[layers] + KEY_SIZE;
  }

  method BoomerangLengths(layers: nat, size: int, limit: nat) returns (lengths: array<int>)
    requires layers > 0
    ensures fresh(lengths) && lengths.Length == layers
    ensures forall l :: 0 <= l < layers ==> lengths[l] == BoomerangLength(layers, size, limit, l)
  {
    lengths := new int[layers];
    lengths[0] := size;
    var layer := 1;
    while layer <= limit && layer < layers
      invariant 1 <= layer <= layers && layer <= limit + 1
      invariant forall l :: 0 <= l < layer ==> lengths[l] == size + OVERHEAD * Min(l, limit)
    {
      lengths[layer] := lengths[layer - 1] + OVERHEAD;
      layer := layer + 1;
    }
    layer := limit + 1;
    while layer < layers
      invariant limit + 1 <= layer
      invariant forall l :: 0 <= l < Min(layer, layers) ==> lengths[l] == size + OVERHEAD * Min(l, limit)
    {
      lengths[layer] := lengths[layer - 1];
      layer := layer + 1;
    }
    lengths[layers - 1] := lengths[layers - 1] + OVERHEAD;
  }

  method WireBoomerangLengths(layers: nat, size: int, limit: nat) returns (lengths: array<int>)
    requires layers > 0
    ensures fresh(lengths) && lengths.Length == layers
    ensures lengths[..] == WireTable(layers, size, limit)
  {
    lengths := BoomerangLengths(layers, size, limit);
    lengths[layers - 1] := lengths[layers - 1] - OVERHEAD;
    for i := 1 to layers
      invariant forall l :: 0 <= l < i ==> lengths[l] == WireBoomerangLength(size, limit, l)
      invariant forall l :: i <= l < layers ==> lengths[l] == size + OVERHEAD * Min(l, limit)
    {
      lengths[i] := lengths[i] + KEY_SIZE;
    }
  }

  method PathEstablishmentLengths(layers: nat, size: int, limit: nat) returns (lengths: array<int>)
    requires layers > 0
    ensures fresh(lengths) && lengths.Length == layers + 1
    ensures forall l :: 0 <= l <= layers ==>
      lengths[l] == ENVELOPE_HEAD + PathBoxLength(layers, size, limit, l)
  {
    hide PathBoxLength, BoomerangLength;
    var reverse := BoomerangLengths(layers, size, limit);
    PathBoxRecurrence(layers, size, limit, layers);
    lengths := new int[layers + 1];
    lengths[layers] := 0;
    for l := layers downto 0
      invariant forall i :: 0 <= i < layers ==> reverse[i] == BoomerangLength(layers, size, limit, i)
      invariant forall i :: l <= i <= layers ==> lengths[i] == PathBoxLength(layers, size, limit, i)
    {
      PathBoxRecurrence(layers, size, limit, l);
      lengths[l] := OVERHEAD + POINT_SIZE + TOKEN_SIZE + lengths[l + 1] + reverse[l];
    }
    AddToAll(lengths, POINT_SIZE + TOKEN_SIZE);
  }

  method AddToAll(a: array<int>, d: int)
    modifies a
    ensures forall i :: 0 <= i < a.Length ==> a[i] == old(a[i]) + d
  {
    for i := 0 to a.Length
      invariant forall l :: 0 <= l < i ==> a[l] == old(a[l]) + d
      invariant forall l :: i <= l < a.Length ==> a[l] == old(a[l])
    {
      a[i] := a[i] + d;
    }
  }

  // ----- forward: what is built and repacked has the tabled length at every layer

  lemma SealedSize(net: Net, m: Bytes, nonce: Bytes, key: Bytes, sk: int)
    requires net.Valid() && |nonce| == NONCE_SIZE
    ensures |Seal(net.s, m, nonce, key, sk)| == |m| + OVERHEAD
  {
    SealOpens(net.s, m, nonce, key, sk);
  }

  lemma {:induction false} OnionSize(net: Net, c: Client, round: nat, message: Bytes, l: nat)
    requires net.Valid() && c.For(net) && l <= net.layers
    ensures |Vk(net, c, l) + Onion(net, c, round, message, l)| == LightningLength(net.layers, |message|, l)
    decreases net.layers - l
  {
    hide Seal, Nonce, Server, Shared, Token, Vk;
    Sizes(net, c, l);
    if l == net.layers {
      var sk := c.keys[l];
      assert |net.s.sign(sk, message)| == SIGNATURE_SIZE;
    } else {
      Sizes(net, c, l + 1);
      SealedSize(net, Onion(net, c, round, message, l + 1), Nonce(round, l, Server(net, c, l)), Shared(net, c, l), c.keys[l]);
      hide Net.Valid;
      OnionSize(net, c, round, message, l + 1);
    }
  }

  lemma {:induction false} BoomerangSize(net: Net, c: Client, round: nat, hi: nat)
    requires net.Valid() && c.For(net) && net.ReceiptLayer(round) <= hi <= round < net.layers
    ensures |Boomerang(net, c, round, hi)| == net.receiptSize + OVERHEAD * (hi - net.ReceiptLayer(round))
    decreases hi
  {
    hide Seal, Nonce, Server, PrevShared, Token;
    if hi > net.ReceiptLayer(round) {
      BoomerangSize(net, c, round, hi - 1);
      SealedSize(net, Boomerang(net, c, round, hi - 1), Nonce(round, hi - 1 + net.layers, Server(net, c, hi - 1)),
                 PrevShared(net, c, hi), c.keys[hi]);
    }
  }

  /** The split point a server uses is the length of the boomerang the client put there. */
  lemma BoomerangEnvelopeSize(net: Net, c: Client, l: nat)
    requires net.Valid() && c.For(net) && l < net.layers
    ensures |BoomerangEnvelope(net, c, l)| == BoomerangLength(net.layers, net.receiptSize, net.limit, l)
  {
    hide Seal, Nonce, Server, PrevShared, Token, Boomerang;
    BoomerangSize(net, c, l, l);
    SealedSize(net, Boomerang(net, c, l, l), Nonce(net.layers, net.layers, Server(net, c, l)),
               PrevShared(net, c, net.layers), c.keys[net.layers]);
  }

  lemma {:induction false} PathBoxSize(net: Net, c: Client, l: nat)
    requires net.Valid() && c.For(net) && l <= net.layers
    ensures |PathBox(net, c, l)| == PathBoxLength(net.layers, net.receiptSize, net.limit, l)
    decreases net.layers - l
  {
    hide Seal, Nonce, Server, Shared, Token, BoomerangEnvelope, PathInfo;
    if l < net.layers {
      PathBoxSize(net, c, l + 1);
      BoomerangEnvelopeSize(net, c, l);
      InfoParts(net, c, l);
      SealedSize(net, PathInfo(net, c, l), Nonce(l, l, Server(net, c, l)), Shared(net, c, l), c.keys[l]);
    }
  }

  lemma PathEnvelopeSize(net: Net, c: Client, l: nat)
    requires net.Valid() && c.For(net) && l <= net.layers
    ensures |PathEnvelope(net, c, l)| == ENVELOPE_HEAD + PathBoxLength(net.layers, net.receiptSize, net.limit, l)
  {
    hide PathBox, Token;
    Sizes(net, c, l);
    PathBoxSize(net, c, l);
  }

  // ----- reverse: the table shifted in place from round to round

  function WireTable(layers: nat, size: int, limit: nat): (t: seq<int>)
    ensures |t| == layers
  {
    seq(layers, l requires 0 <= l < layers => WireBoomerangLength(size, limit, l))
  }

  function Shifted(t: seq<int>): (r: seq<int>)
    requires t != []
    ensures |r| == |t|
  {
    [t[0]] + t[..|t| - 1]
  }

  /** The loop of RoundStart. */
  method ShiftInPlace(lengths: array<int>, pathLayer: nat, limit: nat)
    requires lengths.Length > 0
    modifies lengths
    ensures lengths[..] == if pathLayer > limit then Shifted(old(lengths[..])) else old(lengths[..])
  {
    if pathLayer - limit > 0 {
      var i := lengths.Length - 1;
      while i > 0
        invariant 0 <= i < lengths.Length
        invariant forall k :: 0 <= k <= i ==> lengths[k] == old(lengths[k])
        invariant forall k :: i < k < lengths.Length ==> lengths[k] == old(lengths[k - 1])
      {
        lengths[i] := lengths[i - 1];
        i := i - 1;
      }
    }
  }

  /** The table during path round r, after the shifts of rounds 1..r. */
  function TableInRound(layers: nat, size: int, limit: nat, r: nat): (t: seq<int>)
    requires layers > 0
    ensures |t| == layers
  {
    if r == 0 then WireTable(layers, size, limit)
    else if r > limit then Shifted(TableInRound(layers, size, limit, r - 1))
    else TableInRound(layers, size, limit, r - 1)
  }

  lemma {:induction false} TableEntry(layers: nat, size: int, limit: nat, r: nat, i: nat)
    requires i < layers
    ensures var shift := if r > limit then r - limit else 0;
            TableInRound(layers, size, limit, r)[i] ==
            WireBoomerangLength(size, limit, if i > shift then i - shift else 0)
    decreases r
  {
    if r > 0 {
      TableEntry(layers, size, limit, r - 1, i);
      if r > limit && i > 0 { TableEntry(layers, size, limit, r - 1, i - 1); }
    }
  }

  /** In round r, for every layer i the receipt passes, the router of layer i and the reader of layer
      i - 1 (which looks up i as well) use exactly the size of what is sent from layer i. */
  lemma ShiftedTableIsWireSize(net: Net, c: Client, r: nat, i: nat)
    requires net.Valid() && c.For(net) && net.ReceiptLayer(r) < i <= r < net.layers
    ensures TableInRound(net.layers, net.receiptSize, net.limit, r)[i] == |Vk(net, c, i) + Boomerang(net, c, r, i)|
  {
    TableEntry(net.layers, net.receiptSize, net.limit, r, i);
    BoomerangSize(net, c, r, i);
    Sizes(net, c, i);
  }
}
