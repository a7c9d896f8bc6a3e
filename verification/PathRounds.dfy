/** Path establishment (server/server.go: RoundStart, handlePathMessage, HandleBoomerangMessage,
    OnThreshold). In path round r the messages go one layer forward; every server of layer r records
    a key entry, keeps the message for round r + 1, and the receipt travels back layer by layer. */
module PathRounds {
  import opened ByteStrings
  import opened Sigcryption
  import opened PrepareMessages
  import opened KeyTables
  import opened ProcessMessages
  import opened Lengths
  import opened Population
  import opened Sets
  import opened Routing
  import opened Relay

  /** A server in a path round: key tables, keys used in the current layer, path messages kept for
      the next round, receipts filed under a client id (layer 0) or just counted (later layers). */
  datatype Node = Node(
    tables: seq<Table>, count: nat, onward: multiset<Routed>,
    byClient: map<nat, Bytes>, anon: seq<Bytes>)

  /** Receipts that have reached the receipt layer. */
  function File(n: Node, layer: nat, e: Entry, receipt: Bytes): Node {
    if layer == 0 then n.(byClient := n.byClient[e.prev := receipt])
    else n.(anon := n.anon + [receipt])
  }

  /** GetReceipt, in a round that is complete. */
  function GetReceipt(n: Node, id: nat): Result<Bytes> {
    if id !in n.byClient || n.byClient[id] == [] then Err(ClientNotFound) else Ok(n.byClient[id])
  }

  /** The key accumulated from all partial keys of a group. */
  function GroupShared(net: Net, vk: Bytes): Bytes {
    net.s.dh(net.groupSecret, vk)
  }

  /** handlePathMessage in round r; in the last round the group removes the outer layer of the
      boomerang before it is sent back. */
  ghost function HandlePath(net: Net, r: nat, s: nat, n: Node, p: Packet): Outcome<Node> {
    var b := BoomerangLength(net.layers, net.receiptSize, net.limit, r);
    if !net.Valid() || r >= |n.tables| || !n.tables[r].Valid()
       || b < 0 || |p.data| < ENVELOPE_HEAD + OVERHEAD + ENVELOPE_HEAD + b
       || (r == net.layers - 1 && b < OVERHEAD) then Fail else
    match ParsePath(net, r, r, s, p.src, b, r == net.layers - 1, n.tables[r], p.data)
    case Err(_) => Fail
    case Ok(step) =>
      var e := step.table.objs[step.id];
      var n' := n.(tables := n.tables[r := step.table], onward := n.onward + multiset{step.onward});
      if r == 0 then Accept(File(n', 0, e, step.boomerang), None)
      else
        var inner :=
          if r == net.layers - 1 && |step.boomerang| >= OVERHEAD
          then Open(net.s, step.boomerang, Nonce(net.layers, net.layers, s), GroupShared(net, e.outVk))
          else step.boomerang;
        var out := PackOnion(e, true, inner);
        Accept(n', Some(Packet(1, s, out.dest, out.data)))
  }

  /** HandleBoomerangMessage in round r at layer `layer`. */
  ghost function HandleBoomerang(net: Net, r: nat, s: nat, layer: nat, j: nat, n: Node, p: Packet): Outcome<Node> {
    if layer >= |n.tables| || !n.tables[layer].Valid() || |p.data| < KEY_SIZE + OVERHEAD then Fail else
    match ParseOnion(net, r, layer, s, true, n.tables[layer], p.data)
    case Err(_) => Fail
    case Ok(peeled) =>
      var e := n.tables[layer].objs[peeled.id];
      var n' := n.(tables := n.tables[layer := peeled.table], count := n.count + 1);
      if layer > net.ReceiptLayer(r) then
        var out := PackOnion(e, true, peeled.inner);
        Accept(n', Some(Packet(j + 1, s, out.dest, out.data)))
      else Accept(File(n', layer, e, peeled.inner), None)
  }

  /** OnThreshold: in the path layer nothing is counted; in the others every key must have been used. */
  ghost function Finish(r: nat, j: nat, n: Node): Option<Node> {
    if j == 0 then Some(n.(count := 0))
    else if j > r || r - j >= |n.tables| || !n.tables[r - j].Valid() || n.count != |n.tables[r - j].fwd| then None
    else Some(n.(tables := n.tables[r - j := n.tables[r - j].ResetUsage()], count := 0))
  }

  ghost function Hops(net: Net, r: nat): nat {
    r - net.ReceiptLayer(r) + 1
  }

  ghost function PathProto(net: Net, r: nat): Proto<Node> {
    Proto(net.servers, Hops(net, r),
          (s: nat, j: nat, n: Node, p: Packet) =>
            if j == 0 then HandlePath(net, r, s, n, p)
            else if j > r then Fail
            else HandleBoomerang(net, r, s, r - j, j, n, p),
          (s: nat, j: nat, n: Node) => Finish(r, j, n))
  }

  // ----- the plan of round r

  datatype Round = Round(w: World, r: nat) {
    ghost predicate Valid() {
      w.Valid() && r < w.net.layers
    }

    /** Client c's packet: the path envelope at layer r, then its receipt on the way back. */
    ghost function Pkt(c: nat, j: nat): Packet
      requires Valid() && c < |w.cs| && j < Hops(w.net, r)
    {
      if j == 0 then
        Packet(0, Prev(w.net, w.cs[c], r), Server(w.net, w.cs[c], r), PathEnvelope(w.net, w.cs[c], r))
      else
        Packet(j, Server(w.net, w.cs[c], r - j + 1), Server(w.net, w.cs[c], r - j),
               Vk(w.net, w.cs[c], r - j + 1) + Boomerang(w.net, w.cs[c], r, r - j + 1))
    }

    ghost function Rs(): Routes
      requires Valid()
    {
      Routes(w.net.servers, Hops(w.net, r),
             seq(|w.cs|, c requires 0 <= c < |w.cs| =>
               seq(Hops(w.net, r), j requires 0 <= j < Hops(w.net, r) => Pkt(c, j))))
    }

    /** What the server of layer r keeps for the next round, or for the group after the last. */
    ghost function Onward(c: nat): Routed
      requires Valid() && c < |w.cs|
    {
      OnwardOf(w.net, w.cs[c], r)
    }

    ghost function OnwardSet(D: set<nat>): set<Routed>
      requires Valid() && (forall c :: c in D ==> c < |w.cs|)
    {
      set c | c in D :: Onward(c)
    }

    /** Clients entered in the table of layer l, and clients marked used there. */
    ghost function Entered(s: nat, l: nat, j: nat, D: set<nat>): set<nat>
      requires Valid() && l <= r
    {
      if l == r && j == 0 then D * w.Visitors(s, r) else w.Visitors(s, l)
    }

    ghost function Used(l: nat, j: nat, D: set<nat>): set<nat>
      requires l <= r
    {
      if j > 0 && l == r - j then D else {}
    }

    ghost predicate TablesOk(s: nat, j: nat, D: set<nat>, tables: seq<Table>)
      requires Valid()
    {
      && |tables| == w.net.layers
      && (forall l :: 0 <= l <= r ==> TableFor(w, tables[l], l, Entered(s, l, j, D), Used(l, j, D)))
      && (forall l :: r < l < w.net.layers ==> tables[l] == EMPTY)
    }

    ghost function Kept(s: nat, j: nat, D: set<nat>): set<nat>
      requires Valid()
    {
      if j == 0 then D * w.Visitors(s, r) else w.Visitors(s, r)
    }

    /** The clients whose receipt server s has filed. */
    ghost function Filed(s: nat, j: nat, D: set<nat>): set<nat>
      requires Valid()
    {
      var last := Hops(w.net, r) - 1;
      if j < last then {} else if j == last then D * w.Visitors(s, r - last) else w.Visitors(s, r - last)
    }

    ghost predicate ReceiptsOk(F: set<nat>, n: Node)
      requires Valid() && (forall c :: c in F ==> c < |w.cs|)
    {
      if w.net.ReceiptLayer(r) == 0 then
        && n.anon == []
        && n.byClient.Keys == (set c | c in F :: w.cs[c].id)
        && (forall c :: c in F ==> w.cs[c].id in n.byClient && n.byClient[w.cs[c].id] == Receipt(c))
      else
        && n.byClient == map[]
        && exists ord :: Enumerates(ord, F) && AreReceipts(n.anon, ord)
    }

    ghost function Receipt(c: nat): Bytes
      requires Valid() && c < |w.cs|
    {
      w.cs[c].receipts[r]
    }

    ghost predicate AreReceipts(anon: seq<Bytes>, ord: seq<nat>)
      requires Valid()
    {
      |anon| == |ord| && forall i :: 0 <= i < |ord| ==> ord[i] < |w.cs| && anon[i] == Receipt(ord[i])
    }

    ghost predicate NodeInv(s: nat, j: nat, D: set<nat>, n: Node)
      requires Valid()
    {
      && |n.tables| == w.net.layers
      && TablesOk(s, j, D, n.tables)
      && (j > 0 ==> n.count == |D|)
      && n.onward == multiset(OnwardSet(Kept(s, j, D)))
      && ReceiptsOk(Filed(s, j, D), n)
    }

    ghost function Plan(): Plan<Node>
      requires Valid()
    {
      Relay.Plan(Rs(), (s, j, D, n) => NodeInv(s, j, D, n))
    }
  }

  lemma InWorld(x: Round, c: nat)
    requires x.Valid() && c < |x.w.cs|
    ensures x.w.net.Valid() && x.w.cs[c].For(x.w.net) && Hops(x.w.net, x.r) <= x.r + 1
  {}

  lemma PacketOf(x: Round, c: nat, j: nat)
    requires x.Valid() && c < |x.w.cs| && j < Hops(x.w.net, x.r)
    ensures x.Rs().pkt[c][j] == x.Pkt(c, j)
  {
    hide Round.Pkt, World.Valid, Hops;
  }

  lemma KeyPrefix(x: Round, c: nat, j: nat)
    requires x.Valid() && c < |x.w.cs| && j < Hops(x.w.net, x.r)
    ensures x.Rs().pkt[c][j] == x.Pkt(c, j)
    ensures |x.Pkt(c, j).data| >= KEY_SIZE
    ensures x.Pkt(c, j).data[..KEY_SIZE] == x.w.Key(c, if j == 0 then x.r else x.r - j + 1)
  {
    hide PathBox, Boomerang, Token, Server, Prev, Vk, Round.Rs, World.Valid;
    PacketOf(x, c, j);
    InWorld(x, c);
    Sizes(x.w.net, x.w.cs[c], if j == 0 then x.r else x.r - j + 1);
  }

  lemma RoutesValid(x: Round)
    requires x.Valid()
    ensures x.Rs().Valid() && x.Rs().Distinct()
  {
    hide Boomerang, PathEnvelope, Vk, Server, Prev;
    var rs := x.Rs();
    forall c, d, j | 0 <= c < |rs.pkt| && 0 <= d < |rs.pkt| && 0 <= j < rs.hops && rs.pkt[c][j] == rs.pkt[d][j]
      ensures c == d
    {
      hide *;
      KeyPrefix(x, c, j);
      KeyPrefix(x, d, j);
      var l := if j == 0 then x.r else x.r - j + 1;
      KeysDiffer(x.w, c, l, d, l);
    }
  }

  // ----- one message

  /** In round r the server of layer r accepts client c's path message, records exactly c's entry,
      and returns c's receipt packet. */
  lemma PathResult(x: Round, s: nat, c: nat, n: Node)
    requires x.Valid() && c in x.w.Visitors(s, x.r) && |n.tables| == x.w.net.layers && n.tables[x.r].Valid()
    ensures var n' := n.(tables := n.tables[x.r := n.tables[x.r].AddKey(x.w.Entry(c, x.r))],
                         onward := n.onward + multiset{x.Onward(c)});
            HandlePath(x.w.net, x.r, s, n, x.Pkt(c, 0)) ==
              if x.r == 0 then Accept(File(n', 0, x.w.Entry(c, 0), x.Receipt(c)), None)
              else Accept(n', Some(x.Pkt(c, 1)))
  {
    hide ParsePath, PathEnvelope, Vk, Server, Token, Group, Nonce, Open, Boomerang, World.Valid, BoomerangLength, World.Entry,
      BoomerangEnvelope, Prev, EntryOf, OnwardOf;
    var t := n.tables[x.r];
    VisitorFacts(x, s, c);
    BoomerangEnvelopeSize(x.w.net, x.w.cs[c], x.r);
    PathHop(x.w.net, x.w.cs[c], x.r, t);
    EntryFields(x.w, c, x.r);
    NewestEntry(t, x.w.Entry(c, x.r));
    InnerReceipt(x.w.net, x.w.cs[c], x.r);
    hide Table.AddKey, Net.Valid, Round.Onward;
    if x.r > 0 {
      hide Round.Pkt, PackOnion;
      ReceiptPacket(x, s, c);
    }
  }

  /** The receipt packed by the entry of client c is c's first packet on the way back. */
  lemma ReceiptPacket(x: Round, s: nat, c: nat)
    requires x.Valid() && x.r > 0 && c in x.w.Visitors(s, x.r)
    ensures c < |x.w.cs| && 1 < Hops(x.w.net, x.r)
    ensures var out := PackOnion(x.w.Entry(c, x.r), true, Boomerang(x.w.net, x.w.cs[c], x.r, x.r));
            Packet(1, s, out.dest, out.data) == x.Pkt(c, 1)
  {
    hide Boomerang, Vk, Server, World.Fresh, World.Entry;
    EntryFields(x.w, c, x.r);
  }

  lemma VisitorFacts(x: Round, s: nat, c: nat)
    requires x.Valid() && c in x.w.Visitors(s, x.r)
    ensures c < |x.w.cs| && x.w.cs[c].For(x.w.net) && x.w.net.Valid() && x.w.net.servers > 0 && x.w.net.groups > 0
    ensures |x.w.cs[c].keys| == x.w.net.layers + 1 && Server(x.w.net, x.w.cs[c], x.r) == s
    ensures x.w.Entry(c, x.r) == EntryOf(x.w.net, x.w.cs[c], x.r)
  {
    hide Server, EntryOf;
  }

  lemma EntryFields(w: World, c: nat, l: nat)
    requires w.Valid() && c < |w.cs| && l < w.net.layers
    ensures w.Entry(c, l).prev == Prev(w.net, w.cs[c], l) && w.Entry(c, l).vk == Vk(w.net, w.cs[c], l)
    ensures w.Entry(c, l).outVk == Vk(w.net, w.cs[c], l + 1)
  {
    hide Server, Prev, Vk, Group, World.Fresh;
  }

  lemma NewestEntry(t: Table, e: Entry)
    requires t.Valid()
    ensures |t.AddKey(e).objs| == |t.objs| + 1 && t.AddKey(e).objs[|t.objs|] == e
  {}

  /** What the path server sends back: the boomerang, with the group's layer removed in the last round. */
  lemma InnerReceipt(net: Net, c: Client, r: nat)
    requires net.Valid() && c.For(net) && r < net.layers
    ensures r == 0 ==> BoomerangEnvelope(net, c, r) == c.receipts[0]
    ensures r < net.layers - 1 ==> BoomerangEnvelope(net, c, r) == Boomerang(net, c, r, r)
    ensures r == net.layers - 1 ==>
      && |BoomerangEnvelope(net, c, r)| >= OVERHEAD
      && Open(net.s, BoomerangEnvelope(net, c, r), Nonce(net.layers, net.layers, Server(net, c, r)),
              GroupShared(net, Vk(net, c, net.layers))) == Boomerang(net, c, r, r)
  {
    hide Nonce, Open, Seal, Server, Token, PrevShared;
    if r == net.layers - 1 {
      hide BoomerangEnvelope, Boomerang, PathInfo, SignedForGroup, Signature;
      GroupBoomerang(net, c);
    }
  }

  /** On the way back the server of layer r - j peels one layer of c's receipt. */
  lemma BoomerangResult(x: Round, s: nat, j: nat, c: nat, n: Node, id: nat, l: nat, t: Table)
    requires x.Valid() && 0 < j < Hops(x.w.net, x.r) && l == x.r - j && c in x.w.Visitors(s, l)
    requires |n.tables| == x.w.net.layers && t == n.tables[l] && t.Valid() && id < |t.objs|
    requires t.objs[id] == x.w.Entry(c, l) && t.Lookup(x.w.Key(c, l + 1), true) == Some(id)
    ensures var n' := n.(tables := n.tables[l := t.Mark(id)], count := n.count + 1);
            HandleBoomerang(x.w.net, x.r, s, l, j, n, x.Pkt(c, j)) ==
              if j + 1 < Hops(x.w.net, x.r) then Accept(n', Some(x.Pkt(c, j + 1)))
              else Accept(File(n', l, x.w.Entry(c, l), x.Receipt(c)), None)
  {
    hide ParseOnion, Vk, Server, World.Valid, Seal, Nonce, Token, Group, Shared, PrevShared, PathEnvelope;
    InWorld(x, c);
    ReverseHop(x.w.net, x.w.cs[c], x.r, l, t, id);
  }

  // ----- tables

  lemma TablesAdd(x: Round, s: nat, D: set<nat>, c: nat, tables: seq<Table>)
    requires x.Valid() && c in x.w.Visitors(s, x.r) && c !in D && D <= x.w.Visitors(s, x.r)
    requires x.TablesOk(s, 0, D, tables)
    ensures tables[x.r].Valid()
    ensures x.TablesOk(s, 0, D + {c}, tables[x.r := tables[x.r].AddKey(x.w.Entry(c, x.r))])
  {
    hide TableFor, World.Valid, World.Entry;
    assert x.Entered(s, x.r, 0, D) == D && x.Entered(s, x.r, 0, D + {c}) == D + {c};
    assert TableFor(x.w, tables[x.r], x.r, D, {});
    TableValid(x.w, tables[x.r], x.r, D, {});
    AddTable(x.w, tables[x.r], x.r, D, c);
  }

  lemma TablesMark(x: Round, s: nat, j: nat, D: set<nat>, c: nat, tables: seq<Table>) returns (id: nat)
    requires x.Valid() && 0 < j <= x.r && c in x.w.Visitors(s, x.r - j) && c !in D
    requires x.TablesOk(s, j, D, tables)
    ensures var t := tables[x.r - j];
            && t.Valid() && id < |t.objs| && t.objs[id] == x.w.Entry(c, x.r - j)
            && t.Lookup(x.w.Key(c, x.r - j + 1), true) == Some(id)
            && x.TablesOk(s, j, D + {c}, tables[x.r - j := t.Mark(id)])
  {
    hide TableFor, World.Valid, World.Entry, World.Key, World.Visitors;
    var l := x.r - j;
    assert TableFor(x.w, tables[l], l, x.w.Visitors(s, l), D);
    TableValid(x.w, tables[l], l, x.w.Visitors(s, l), D);
    id := MarkTable(x.w, tables[l], l, x.w.Visitors(s, l), D, c);
  }

  lemma TablesFinish(x: Round, s: nat, j: nat, tables: seq<Table>)
    requires x.Valid() && 0 < j <= x.r && x.TablesOk(s, j, x.w.Visitors(s, x.r - j), tables)
    ensures var l := x.r - j;
            && tables[l].Valid() && |tables[l].fwd| == |x.w.Visitors(s, l)|
            && x.TablesOk(s, j + 1, {}, tables[l := tables[l].ResetUsage()])
  {
    hide TableFor, World.Valid, World.Visitors, Table.ResetUsage;
    var l := x.r - j;
    var E := x.w.Visitors(s, l);
    TablesCount(x, s, j, E, tables);
    assert TableFor(x.w, tables[l], l, E, E);
    ResetTable(x.w, tables[l], l, E, E);
  }

  lemma TablesTurn(x: Round, s: nat, tables: seq<Table>)
    requires x.Valid() && x.TablesOk(s, 0, x.w.Visitors(s, x.r), tables)
    ensures x.TablesOk(s, 1, {}, tables)
  {
    hide TableFor, World.Valid, World.Visitors;
    assert x.Entered(s, x.r, 0, x.w.Visitors(s, x.r)) == x.w.Visitors(s, x.r);
  }

  // ----- kept path messages

  lemma OnwardDiffers(x: Round, c: nat, d: nat)
    requires x.Valid() && c < |x.w.cs| && d < |x.w.cs| && c != d
    ensures x.Onward(c) != x.Onward(d)
  {
    OnwardKey(x, c);
    OnwardKey(x, d);
    hide Round.Onward, World.Key;
    KeysDiffer(x.w, c, x.r + 1, d, x.r + 1);
  }

  lemma OnwardKey(x: Round, c: nat)
    requires x.Valid() && c < |x.w.cs|
    ensures |x.Onward(c).data| >= KEY_SIZE && x.Onward(c).data[..KEY_SIZE] == x.w.Key(c, x.r + 1)
  {
    hide PathBox, Token, Server, Group;
    Sizes(x.w.net, x.w.cs[c], x.r + 1);
  }

  lemma OnwardSetStep(x: Round, D: set<nat>, c: nat)
    requires x.Valid() && c < |x.w.cs| && c !in D
    requires (forall d :: d in D ==> d < |x.w.cs|) && forall d :: d in D + {c} ==> d < |x.w.cs|
    ensures x.Onward(c) !in x.OnwardSet(D) && x.OnwardSet(D + {c}) == x.OnwardSet(D) + {x.Onward(c)}
  {
    hide Round.Onward, World.Valid;
    forall d | d in D ensures x.Onward(d) != x.Onward(c) { OnwardDiffers(x, c, d); }
    assert forall d :: d in D + {c} <==> d in D || d == c;
  }

  // ----- receipts

  lemma EntryPrev(w: World, c: nat)
    requires w.Valid() && c < |w.cs| && w.net.layers > 0
    ensures w.Entry(c, 0).prev == w.cs[c].id
  {
    hide Server, Shared, Vk, PrepareMessages.Group, World.Fresh;
  }

  lemma OwnIds(w: World, c: nat, F: set<nat>)
    requires w.Valid() && c < |w.cs| && c !in F && (forall d :: d in F ==> d < |w.cs|)
    ensures forall d :: d in F ==> w.cs[d].id != w.cs[c].id
  {}

  lemma ReceiptLayerFits(x: Round)
    requires x.Valid()
    ensures x.w.net.ReceiptLayer(x.r) <= x.r < x.w.net.layers
  {}

  lemma IdsMore(w: World, F: set<nat>, c: nat)
    requires c < |w.cs| && (forall d :: d in F ==> d < |w.cs|)
    ensures (set d | d in F + {c} :: w.cs[d].id) == (set d | d in F :: w.cs[d].id) + {w.cs[c].id}
  {}

  lemma EnumeratesMore(ord: seq<nat>, F: set<nat>, c: nat)
    requires Enumerates(ord, F) && c !in F
    ensures Enumerates(ord + [c], F + {c})
  {}

  lemma FileFirst(x: Round, F: set<nat>, c: nat, n: Node, e: Entry)
    requires x.Valid() && c < |x.w.cs| && (forall d :: d in F ==> d < |x.w.cs|) && x.w.net.ReceiptLayer(x.r) == 0
    requires e.prev == x.w.cs[c].id && (forall d :: d in F ==> x.w.cs[d].id != x.w.cs[c].id)
    requires x.ReceiptsOk(F, n)
    ensures x.ReceiptsOk(F + {c}, File(n, 0, e, x.Receipt(c)))
  {
    hide World.Valid, Round.Receipt, Net.ReceiptLayer, Round.Valid;
    IdsMore(x.w, F, c);
  }

  lemma FileLater(x: Round, F: set<nat>, c: nat, n: Node, l: nat, e: Entry)
    requires x.Valid() && c < |x.w.cs| && c !in F && (forall d :: d in F ==> d < |x.w.cs|)
    requires x.w.net.ReceiptLayer(x.r) == l > 0 && x.ReceiptsOk(F, n)
    ensures x.ReceiptsOk(F + {c}, File(n, l, e, x.Receipt(c)))
  {
    hide World.Valid, Round.Receipt, Net.ReceiptLayer, Enumerates, Round.Valid;
    var ord :| Enumerates(ord, F) && x.AreReceipts(n.anon, ord);
    EnumeratesMore(ord, F, c);
    assert x.AreReceipts(n.anon + [x.Receipt(c)], ord + [c]);
  }

  lemma FileStep(x: Round, F: set<nat>, c: nat, n: Node)
    requires x.Valid() && c < |x.w.cs| && c !in F && (forall d :: d in F ==> d < |x.w.cs|)
    requires x.ReceiptsOk(F, n)
    ensures x.ReceiptsOk(F + {c}, File(n, x.w.net.ReceiptLayer(x.r), x.w.Entry(c, x.w.net.ReceiptLayer(x.r)), x.Receipt(c)))
  {
    hide World.Valid, World.Entry, Round.Receipt, Net.ReceiptLayer, Round.ReceiptsOk, File;
    ReceiptLayerFits(x);
    var l := x.w.net.ReceiptLayer(x.r);
    if l == 0 {
      EntryPrev(x.w, c);
      OwnIds(x.w, c, F);
      FileFirst(x, F, c, n, x.w.Entry(c, 0));
    } else {
      FileLater(x, F, c, n, l, x.w.Entry(c, l));
    }
  }

  // ----- one step of a server keeps its description

  lemma PathStepKeeps(x: Round, s: nat, D: set<nat>, c: nat, n: Node)
    requires x.Valid() && c in x.w.Visitors(s, x.r) && c !in D && D <= x.w.Visitors(s, x.r) && x.NodeInv(s, 0, D, n)
    ensures var o := HandlePath(x.w.net, x.r, s, n, x.Pkt(c, 0));
            && o.Accept? && x.NodeInv(s, 0, D + {c}, o.node)
            && o.out == if 1 < Hops(x.w.net, x.r) then Some(x.Pkt(c, 1)) else None
  {
    hide HandlePath, Round.Pkt, Round.TablesOk, Round.ReceiptsOk, Round.OnwardSet, Round.Onward, Round.Receipt,
         Round.Kept, Round.Filed, World.Entry, World.Valid, World.Visitors;
    PathSets(x, s, D, c);
    InWorld(x, c);
    TablesAdd(x, s, D, c, n.tables);
    PathResult(x, s, c, n);
    OnwardSetStep(x, D, c);
    var n1 := n.(tables := n.tables[x.r := n.tables[x.r].AddKey(x.w.Entry(c, x.r))], onward := n.onward + multiset{x.Onward(c)});
    SameReceipts(x, x.Filed(s, 0, D), n, n1);
    if x.r == 0 { FileStep(x, D, c, n1); }
  }

  lemma PathSets(x: Round, s: nat, D: set<nat>, c: nat)
    requires x.Valid() && c in x.w.Visitors(s, x.r) && D <= x.w.Visitors(s, x.r)
    ensures c < |x.w.cs| && (forall d :: d in D ==> d < |x.w.cs|)
    ensures x.Kept(s, 0, D) == D && x.Kept(s, 0, D + {c}) == D + {c}
    ensures x.Filed(s, 0, D) == (if x.r == 0 then D else {})
    ensures x.Filed(s, 0, D + {c}) == if x.r == 0 then D + {c} else {}
  {}

  lemma SameReceipts(x: Round, F: set<nat>, n: Node, n': Node)
    requires x.Valid() && (forall d :: d in F ==> d < |x.w.cs|) && x.ReceiptsOk(F, n)
    requires n'.anon == n.anon && n'.byClient == n.byClient
    ensures x.ReceiptsOk(F, n')
  {}

  lemma BoomerangStepKeeps(x: Round, s: nat, j: nat, D: set<nat>, c: nat, n: Node)
    requires x.Valid() && 0 < j < Hops(x.w.net, x.r) && c in x.w.Visitors(s, x.r - j) && c !in D
    requires D <= x.w.Visitors(s, x.r - j) && x.NodeInv(s, j, D, n)
    ensures var o := HandleBoomerang(x.w.net, x.r, s, x.r - j, j, n, x.Pkt(c, j));
            && o.Accept? && x.NodeInv(s, j, D + {c}, o.node)
            && o.out == if j + 1 < Hops(x.w.net, x.r) then Some(x.Pkt(c, j + 1)) else None
  {
    hide HandleBoomerang, Round.Pkt, Round.TablesOk, Round.ReceiptsOk, Round.OnwardSet, Round.Receipt, World.Entry, World.Key, World.Valid,
      Round.Kept, Round.Filed, Table.Mark;
    InWorld(x, c);
    var l := x.r - j;
    var id := TablesMark(x, s, j, D, c, n.tables);
    BoomerangResult(x, s, j, c, n, id, l, n.tables[l]);
    var n1 := n.(tables := n.tables[l := n.tables[l].Mark(id)], count := n.count + 1);
    BoomerangSets(x, s, j, D, c);
    if j + 1 == Hops(x.w.net, x.r) {
      SameReceipts(x, D, n, n1);
      FileStep(x, D, c, n1);
    } else {
      SameReceipts(x, {}, n, n1);
    }
  }

  lemma BoomerangSets(x: Round, s: nat, j: nat, D: set<nat>, c: nat)
    requires x.Valid() && 0 < j < Hops(x.w.net, x.r) <= x.r + 1 && c in x.w.Visitors(s, x.r - j) && D <= x.w.Visitors(s, x.r - j)
    ensures c < |x.w.cs| && (forall d :: d in D ==> d < |x.w.cs|)
    ensures x.Kept(s, j, D) == x.Kept(s, j, D + {c})
    ensures x.Filed(s, j, D) == (if j + 1 == Hops(x.w.net, x.r) then D else {})
    ensures x.Filed(s, j, D + {c}) == if j + 1 == Hops(x.w.net, x.r) then D + {c} else {}
  {
    hide World.Valid, World.Visitors;
    VisitorsAreClients(x.w, s, x.r - j);
  }

  lemma FinishKeeps(x: Round, s: nat, j: nat, n: Node)
    requires x.Valid() && j < Hops(x.w.net, x.r) && x.NodeInv(s, j, x.w.Visitors(s, x.r - j), n)
    ensures Finish(x.r, j, n).Some? && x.NodeInv(s, j + 1, {}, Finish(x.r, j, n).value)
  {
    hide Round.TablesOk, Round.ReceiptsOk, Round.OnwardSet, World.Valid, World.Visitors, Round.Kept, Round.Filed, Hops,
      Table.ResetUsage;
    SameSets(x, s, j);
    var E := x.w.Visitors(s, x.r - j);
    if j == 0 {
      TablesTurn(x, s, n.tables);
    } else {
      TablesFinish(x, s, j, n.tables);
    }
    var n' := Finish(x.r, j, n).value;
    FiledAreClients(x, s, j, E);
    SameReceipts(x, x.Filed(s, j, E), n, n');
  }

  /** On the way back a server goes on iff it has handled the receipts of all clients of the layer. */
  lemma GoesOnIff(x: Round, s: nat, j: nat, D: set<nat>, n: Node)
    requires x.Valid() && 0 < j < Hops(x.w.net, x.r) && D <= x.w.Visitors(s, x.r - j) && x.NodeInv(s, j, D, n)
    ensures Finish(x.r, j, n).Some? <==> D == x.w.Visitors(s, x.r - j)
  {
    hide Round.TablesOk, Round.ReceiptsOk, Round.OnwardSet, World.Valid, World.Visitors, Round.Kept, Round.Filed, Table.ResetUsage;
    HopsFit(x);
    TablesCount(x, s, j, D, n.tables);
    var E := x.w.Visitors(s, x.r - j);
    if |D| == |E| { SameSize(D, E); }
  }

  lemma TablesCount(x: Round, s: nat, j: nat, D: set<nat>, tables: seq<Table>)
    requires x.Valid() && 0 < j <= x.r && x.TablesOk(s, j, D, tables)
    ensures tables[x.r - j].Valid() && |tables[x.r - j].fwd| == |x.w.Visitors(s, x.r - j)|
  {
    hide TableFor, World.Valid, World.Visitors;
    var l := x.r - j;
    var E := x.w.Visitors(s, l);
    assert TableFor(x.w, tables[l], l, E, D);
    TableValid(x.w, tables[l], l, E, D);
    TableCount(x.w, tables[l], l, E, D);
  }

  lemma SameSets(x: Round, s: nat, j: nat)
    requires x.Valid() && j < Hops(x.w.net, x.r)
    ensures j <= x.r
    ensures x.Kept(s, j, x.w.Visitors(s, x.r - j)) == x.Kept(s, j + 1, {})
    ensures x.Filed(s, j, x.w.Visitors(s, x.r - j)) == x.Filed(s, j + 1, {})
  {
    hide World.Valid, World.Visitors;
  }

  lemma FiledAreClients(x: Round, s: nat, j: nat, D: set<nat>)
    requires x.Valid()
    ensures forall c :: c in x.Filed(s, j, D) ==> c < |x.w.cs|
  {}

  lemma PathSound(x: Round)
    requires x.Valid()
    ensures Sound(PathProto(x.w.net, x.r), x.Plan())
  {
    hide HandlePath, HandleBoomerang, Finish, Round.NodeInv, Round.Pkt, Round.Rs, World.Valid, World.Visitors;
    var p, plan := PathProto(x.w.net, x.r), x.Plan();
    RoutesValid(x);
    RoutesShape(x);
    forall c: nat, j: nat, D: set<nat>, n: Node
      | c < |plan.r.pkt| && j < plan.r.hops && c !in D && D <= plan.r.At(plan.r.pkt[c][j].dst, j)
        && plan.ok(plan.r.pkt[c][j].dst, j, D, n)
      ensures HandlesClient(p, plan, c, j, D, n)
    {
      ClientHandled(x, c, j, D, n);
    }
    forall s: nat, j: nat, n: Node | s < plan.r.servers && j < plan.r.hops && plan.ok(s, j, plan.r.At(s, j), n)
      ensures FinishesHop(p, plan, s, j, n)
    {
      HopFinished(x, s, j, n);
    }
  }

  lemma RoutesShape(x: Round)
    requires x.Valid()
    ensures x.Rs().servers == x.w.net.servers && x.Rs().hops == Hops(x.w.net, x.r) && |x.Rs().pkt| == |x.w.cs|
  {}

  lemma AllVisits(x: Round, s: nat, j: nat)
    requires x.Valid() && j < Hops(x.w.net, x.r) && x.Rs().Valid()
    ensures x.Rs().At(s, j) == x.w.Visitors(s, x.r - j)
  {
    hide PathEnvelope, Boomerang, Vk, Server, Prev, World.Fresh;
  }

  lemma PktAt(x: Round, c: nat, j: nat)
    requires x.Valid() && c < |x.w.cs| && j < Hops(x.w.net, x.r)
    ensures x.Rs().pkt[c][j] == x.Pkt(c, j)
    ensures x.Pkt(c, j).hop == j && c in x.w.Visitors(x.Pkt(c, j).dst, x.r - j)
  {
    hide Round.Rs, World.Valid, World.Visitors, PathEnvelope, Boomerang, Vk, Server, Prev;
    PacketOf(x, c, j);
    HopsFit(x);
    OwnServer(x.w, c, x.r - j);
  }

  lemma HopsFit(x: Round)
    requires x.Valid()
    ensures Hops(x.w.net, x.r) <= x.r + 1 && x.w.net.servers > 0
  {}

  lemma OwnServer(w: World, c: nat, l: nat)
    requires w.Valid() && c < |w.cs| && l < w.net.layers
    ensures w.cs[c].For(w.net) && c in w.Visitors(Server(w.net, w.cs[c], l), l)
  {
    hide Server, World.Fresh;
  }

  lemma ClientHandled(x: Round, c: nat, j: nat, D: set<nat>, n: Node)
    requires x.Valid() && c < |x.w.cs| && j < Hops(x.w.net, x.r) && c !in D && x.Rs().Valid()
    requires D <= x.Rs().At(x.Rs().pkt[c][j].dst, j) && x.NodeInv(x.Rs().pkt[c][j].dst, j, D, n)
    ensures HandlesClient(PathProto(x.w.net, x.r), x.Plan(), c, j, D, n)
  {
    hide HandlePath, HandleBoomerang, Round.NodeInv, Round.Pkt, Round.Rs, World.Valid, World.Visitors, Routes.Valid, Routes.At;
    RoutesShape(x);
    PktAt(x, c, j);
    var s := x.Pkt(c, j).dst;
    AllVisits(x, s, j);
    if j + 1 < Hops(x.w.net, x.r) { PktAt(x, c, j + 1); }
    if j == 0 { PathStepKeeps(x, s, D, c, n); } else { BoomerangStepKeeps(x, s, j, D, c, n); }
  }

  lemma HopFinished(x: Round, s: nat, j: nat, n: Node)
    requires x.Valid() && s < x.w.net.servers && j < Hops(x.w.net, x.r) && x.Rs().Valid()
    requires x.NodeInv(s, j, x.Rs().At(s, j), n)
    ensures FinishesHop(PathProto(x.w.net, x.r), x.Plan(), s, j, n)
  {
    hide Finish, Round.NodeInv, Round.Pkt, World.Valid;
    AllVisits(x, s, j);
    FinishKeeps(x, s, j, n);
  }
}
