/** A broadcast round over established paths (server/server.go, handleLightningMessage and
    OnThreshold): messages travel through all layers and into the buffers for the groups. */
module LightningRound {
  import opened ByteStrings
  import opened Sigcryption
  import opened PrepareMessages
  import opened KeyTables
  import opened ProcessMessages
  import opened Population
  import opened Sets
  import opened Routing
  import opened Relay

  /** What a server holds: a key table per layer, the number of keys used in the current layer,
      and the outgoing buffer of the final router for each group. */
  datatype Node = Node(tables: seq<Table>, count: nat, final: seq<multiset<Bytes>>)

  /** handleLightningMessage at server s in layer j. */
  ghost function Handle(net: Net, round: nat, s: nat, j: nat, n: Node, p: Packet): Outcome<Node> {
    if j >= |n.tables| || !n.tables[j].Valid() || |p.data| < KEY_SIZE + OVERHEAD then Fail else
    match ParseOnion(net, round, j, s, false, n.tables[j], p.data)
    case Err(_) => Fail
    case Ok(peeled) =>
      var e := n.tables[j].objs[peeled.id];
      var n' := n.(tables := n.tables[j := peeled.table], count := n.count + 1);
      if j != net.layers - 1 then
        var out := PackOnion(e, false, peeled.inner);
        Accept(n', Some(Packet(j + 1, s, out.dest, out.data)))
      else
        var out := PackTrustee(e, peeled.inner);
        if out.dest >= |n.final| then Fail
        else Accept(n'.(final := n.final[out.dest := n.final[out.dest] + multiset{out.data}]), None)
  }

  /** OnThreshold: AllKeysAccountedFor, and a fresh parser for the next layer. */
  ghost function Finish(j: nat, n: Node): Option<Node> {
    if j >= |n.tables| || !n.tables[j].Valid() || n.count != |n.tables[j].fwd| then None
    else Some(n.(tables := n.tables[j := n.tables[j].ResetUsage()], count := 0))
  }

  ghost function Lightning(net: Net, round: nat): Proto<Node> {
    Proto(net.servers, net.layers,
          (s, j, n, p) => Handle(net, round, s, j, n, p),
          (s, j, n) => Finish(j, n))
  }

  // ----- the plan: where every client's message is, and what every server holds

  datatype Round = Round(w: World, round: nat, msg: seq<Bytes>) {
    ghost predicate Valid() {
      w.Valid() && |msg| == |w.cs|
    }

    /** Client c's packet for layer j. */
    ghost function Pkt(c: nat, j: nat): Packet
      requires Valid() && c < |w.cs| && j < w.net.layers
    {
      Packet(j, Prev(w.net, w.cs[c], j), Server(w.net, w.cs[c], j),
             Vk(w.net, w.cs[c], j) + Onion(w.net, w.cs[c], round, msg[c], j))
    }

    ghost function Rs(): Routes
      requires Valid()
    {
      Routes(w.net.servers, w.net.layers,
             seq(|w.cs|, c requires 0 <= c < |w.cs| => seq(w.net.layers, j requires 0 <= j < w.net.layers => Pkt(c, j))))
    }

    /** What the group receives for client c: the anonymous key, the signature, the message. */
    ghost function FinalData(c: nat): Bytes
      requires Valid() && c < |w.cs|
    {
      Vk(w.net, w.cs[c], w.net.layers) + FinalInner(w.net, w.cs[c], msg[c])
    }

    ghost function FinalSet(D: set<nat>, g: nat): set<Bytes>
      requires Valid() && (forall c :: c in D ==> c < |w.cs|)
    {
      set c | c in D && Group(w.net, w.cs[c]) == g :: FinalData(c)
    }

    /** The clients whose messages are in the final buffers of server s. */
    ghost function Packed(s: nat, j: nat, D: set<nat>): set<nat>
      requires Valid()
    {
      if j < w.net.layers - 1 then {}
      else if j == w.net.layers - 1 then D * w.Visitors(s, w.net.layers - 1)
      else w.Visitors(s, w.net.layers - 1)
    }

    ghost predicate TablesOk(s: nat, j: nat, D: set<nat>, n: Node)
      requires Valid()
    {
      && |n.tables| == w.net.layers
      && (forall l :: 0 <= l < w.net.layers ==>
            TableFor(w, n.tables[l], l, w.Visitors(s, l), if l == j then D else {}))
    }

    ghost predicate FinalOk(s: nat, j: nat, D: set<nat>, n: Node)
      requires Valid()
    {
      && |n.final| == w.net.groups
      && (forall g :: 0 <= g < w.net.groups ==> n.final[g] == multiset(FinalSet(Packed(s, j, D), g)))
    }

    ghost predicate NodeInv(s: nat, j: nat, D: set<nat>, n: Node)
      requires Valid()
    {
      && |n.tables| == w.net.layers && |n.final| == w.net.groups
      && TablesOk(s, j, D, n) && n.count == |D| && FinalOk(s, j, D, n)
    }

    ghost function Plan(): Plan<Node>
      requires Valid()
    {
      Relay.Plan(Rs(), (s, j, D, n) => NodeInv(s, j, D, n))
    }
  }

  lemma RoutesValid(r: Round)
    requires r.Valid()
    ensures r.Rs().Valid() && r.Rs().Distinct()
  {
    var rs := r.Rs();
    forall c, d, j | 0 <= c < |rs.pkt| && 0 <= d < |rs.pkt| && 0 <= j < rs.hops && rs.pkt[c][j] == rs.pkt[d][j]
      ensures c == d
    {
      hide *;
      KeyPrefix(r, c, j);
      KeyPrefix(r, d, j);
      KeysDiffer(r.w, c, j, d, j);
    }
  }

  lemma KeyPrefix(r: Round, c: nat, j: nat)
    requires r.Valid() && c < |r.w.cs| && j < r.w.net.layers
    ensures r.Rs().pkt[c][j] == r.Pkt(c, j)
    ensures |r.Pkt(c, j).data| >= KEY_SIZE && r.Pkt(c, j).data[..KEY_SIZE] == r.w.Key(c, j)
  {
    Sizes(r.w.net, r.w.cs[c], j);
    hide Onion;
  }

  lemma Visits(r: Round, c: nat, j: nat)
    requires r.Valid() && c < |r.w.cs| && j < r.w.net.layers
    ensures r.Rs().Valid() && r.Rs().pkt[c][j] == r.Pkt(c, j)
    ensures forall s: nat :: r.Rs().At(s, j) == r.w.Visitors(s, j)
  {
    KeyPrefix(r, c, j);
    RoutesValid(r);
    forall s: nat ensures r.Rs().At(s, j) == r.w.Visitors(s, j) { AllVisits(r, s, j); }
    hide Round.Rs, Round.Pkt, World.Valid;
  }

  lemma FinalDistinct(r: Round, c: nat, D: set<nat>, g: nat)
    requires r.Valid() && c < |r.w.cs| && c !in D && (forall d :: d in D ==> d < |r.w.cs|)
    ensures r.FinalData(c) !in r.FinalSet(D, g)
  {
    forall d | d in D ensures r.FinalData(d) != r.FinalData(c) {
      Sizes(r.w.net, r.w.cs[c], r.w.net.layers);
      Sizes(r.w.net, r.w.cs[d], r.w.net.layers);
      assert r.FinalData(c)[..KEY_SIZE] == r.w.Key(c, r.w.net.layers);
      assert r.FinalData(d)[..KEY_SIZE] == r.w.Key(d, r.w.net.layers);
      KeysDiffer(r.w, c, r.w.net.layers, d, r.w.net.layers);
    }
  }

  /** The last server adds client c's final message to the buffer of c's group, and nothing else. */
  lemma FinalStep(r: Round, s: nat, D: set<nat>, c: nat, n: Node, n': Node)
    requires r.Valid() && c < |r.w.cs| && c !in D && D + {c} <= r.w.Visitors(s, r.w.net.layers - 1)
    requires r.FinalOk(s, r.w.net.layers - 1, D, n)
    requires var g := Group(r.w.net, r.w.cs[c]);
             n'.final == n.final[g := n.final[g] + multiset{r.FinalData(c)}]
    ensures r.FinalOk(s, r.w.net.layers - 1, D + {c}, n')
  {
    hide Round.FinalData, Round.FinalSet, Group, World.Valid, World.Visitors;
    ClientOf(r.w, c);
    var j := r.w.net.layers - 1;
    assert r.Packed(s, j, D) == D && r.Packed(s, j, D + {c}) == D + {c};
    VisitorsAreClients(r.w, s, j);
    forall g | 0 <= g < r.w.net.groups
      ensures n'.final[g] == multiset(r.FinalSet(D + {c}, g))
    {
      FinalSetStep(r, D, c, g);
    }
  }

  lemma FinalSetStep(r: Round, D: set<nat>, c: nat, g: nat)
    requires r.Valid() && c < |r.w.cs| && c !in D && (forall d :: d in D ==> d < |r.w.cs|)
    ensures r.FinalData(c) !in r.FinalSet(D, g)
    ensures r.FinalSet(D + {c}, g) ==
            r.FinalSet(D, g) + if Group(r.w.net, r.w.cs[c]) == g then {r.FinalData(c)} else {}
  {
    FinalDistinct(r, c, D, g);
    hide Round.FinalData, Group, World.Valid;
    assert forall d :: d in D + {c} <==> d in D || d == c;
  }

  lemma FinalKept(r: Round, s: nat, j: nat, D: set<nat>, D': set<nat>, n: Node, n': Node)
    requires r.Valid() && j < r.w.net.layers - 1 && r.FinalOk(s, j, D, n) && n'.final == n.final
    ensures r.FinalOk(s, j, D', n')
  {}

  lemma TablesStep(r: Round, s: nat, j: nat, D: set<nat>, c: nat, n: Node) returns (id: nat)
    requires r.Valid() && j < r.w.net.layers && c in r.w.Visitors(s, j) && c !in D && r.TablesOk(s, j, D, n)
    ensures |n.tables| == r.w.net.layers
    ensures var t := n.tables[j];
            && t.Valid() && id < |t.objs| && t.objs[id] == r.w.Entry(c, j)
            && t.Lookup(r.w.Key(c, j), false) == Some(id)
            && r.TablesOk(s, j, D + {c}, n.(tables := n.tables[j := t.Mark(id)]))
  {
    hide TableFor, World.Visitors, World.Entry, World.Key;
    assert TableFor(r.w, n.tables[j], j, r.w.Visitors(s, j), D);
    TableValid(r.w, n.tables[j], j, r.w.Visitors(s, j), D);
    id := MarkTable(r.w, n.tables[j], j, r.w.Visitors(s, j), D, c);
  }

  /** The server accepts client c's packet and sends on exactly c's packet for the next layer. */
  lemma HandleResult(r: Round, s: nat, j: nat, c: nat, n: Node, id: nat)
    requires r.Valid() && j < r.w.net.layers && c in r.w.Visitors(s, j)
    requires |n.tables| == r.w.net.layers && |n.final| == r.w.net.groups
    requires var t := n.tables[j];
             && t.Valid() && id < |t.objs| && t.objs[id] == r.w.Entry(c, j)
             && t.Lookup(r.w.Key(c, j), false) == Some(id)
    ensures var n' := n.(tables := n.tables[j := n.tables[j].Mark(id)], count := n.count + 1);
            var g := Group(r.w.net, r.w.cs[c]);
            Handle(r.w.net, r.round, s, j, n, r.Pkt(c, j)) ==
              if j + 1 < r.w.net.layers then Accept(n', Some(r.Pkt(c, j + 1)))
              else Accept(n'.(final := n.final[g := n.final[g] + multiset{r.FinalData(c)}]), None)
  {
    hide ParseOnion, Vk, Server, World.Valid, Seal, Nonce, Token, Group, Shared, FinalInner;
    ClientOf(r.w, c);
    ForwardHop(r.w.net, r.w.cs[c], r.round, r.msg[c], j, n.tables[j], id);
  }

  /** One step of the server on client c's packet: accepted, accounted for, sent on unaltered. */
  lemma HandleStep(r: Round, s: nat, j: nat, D: set<nat>, c: nat, n: Node)
    requires r.Valid() && j < r.w.net.layers && c in r.w.Visitors(s, j) && c !in D && D <= r.w.Visitors(s, j)
    requires r.NodeInv(s, j, D, n)
    ensures var o := Handle(r.w.net, r.round, s, j, n, r.Pkt(c, j));
            && o.Accept? && r.NodeInv(s, j, D + {c}, o.node)
            && o.out == if j + 1 < r.w.net.layers then Some(r.Pkt(c, j + 1)) else None
  {
    hide Round.TablesOk, Round.FinalOk, Handle, Round.Pkt, Round.FinalData, Group;
    var id := TablesStep(r, s, j, D, c, n);
    HandleResult(r, s, j, c, n, id);
    var n' := Handle(r.w.net, r.round, s, j, n, r.Pkt(c, j)).node;
    if j == r.w.net.layers - 1 {
      FinalStep(r, s, D, c, n, n');
    } else {
      FinalKept(r, s, j, D, D + {c}, n, n');
    }
    SameTables(r, s, j, D + {c}, n.(tables := n.tables[j := n.tables[j].Mark(id)]), n');
  }

  lemma SameTables(r: Round, s: nat, j: nat, D: set<nat>, n: Node, n': Node)
    requires r.Valid() && r.TablesOk(s, j, D, n) && n'.tables == n.tables
    ensures r.TablesOk(s, j, D, n')
  {}

  lemma FinishStep(r: Round, s: nat, j: nat, n: Node)
    requires r.Valid() && j < r.w.net.layers && r.NodeInv(s, j, r.w.Visitors(s, j), n)
    ensures Finish(j, n).Some? && r.NodeInv(s, j + 1, {}, Finish(j, n).value)
  {
    hide TableFor, World.Valid, World.Visitors, Round.FinalSet;
    var E := r.w.Visitors(s, j);
    assert TableFor(r.w, n.tables[j], j, E, E);
    TableValid(r.w, n.tables[j], j, E, E);
    TableCount(r.w, n.tables[j], j, E, E);
    ResetTable(r.w, n.tables[j], j, E, E);
    assert r.Packed(s, j, E) == r.Packed(s, j + 1, {});
  }

  /** A server goes on iff it has handled every client of the layer; with any message missing it panics. */
  lemma GoesOnIff(r: Round, s: nat, j: nat, D: set<nat>, n: Node)
    requires r.Valid() && j < r.w.net.layers && D <= r.w.Visitors(s, j) && r.NodeInv(s, j, D, n)
    ensures Finish(j, n).Some? <==> D == r.w.Visitors(s, j)
  {
    hide TableFor, World.Valid, World.Visitors, Round.FinalSet;
    var E := r.w.Visitors(s, j);
    assert TableFor(r.w, n.tables[j], j, E, D);
    TableValid(r.w, n.tables[j], j, E, D);
    TableCount(r.w, n.tables[j], j, E, D);
    if |D| == |E| { SameSize(D, E); }
  }

  lemma LightningSound(r: Round)
    requires r.Valid()
    ensures Sound(Lightning(r.w.net, r.round), r.Plan())
  {
    hide Handle, Finish, Round.NodeInv, Round.Pkt, Round.Rs, World.Valid, World.Visitors;
    var p, plan := Lightning(r.w.net, r.round), r.Plan();
    RoutesValid(r);
    RoutesShape(r);
    forall c: nat, j: nat, D: set<nat>, n: Node
      | c < |plan.r.pkt| && j < plan.r.hops && c !in D && D <= plan.r.At(plan.r.pkt[c][j].dst, j)
        && plan.ok(plan.r.pkt[c][j].dst, j, D, n)
      ensures HandlesClient(p, plan, c, j, D, n)
    {
      ClientHandled(r, c, j, D, n);
    }
    forall s: nat, j: nat, n: Node | s < plan.r.servers && j < plan.r.hops && plan.ok(s, j, plan.r.At(s, j), n)
      ensures FinishesHop(p, plan, s, j, n)
    {
      HopFinished(r, s, j, n);
    }
  }

  lemma RoutesShape(r: Round)
    requires r.Valid()
    ensures r.Rs().servers == r.w.net.servers && r.Rs().hops == r.w.net.layers && |r.Rs().pkt| == |r.w.cs|
  {}

  lemma ClientHandled(r: Round, c: nat, j: nat, D: set<nat>, n: Node)
    requires r.Valid() && c < |r.w.cs| && j < r.w.net.layers && c !in D && r.Rs().Valid()
    requires D <= r.Rs().At(r.Rs().pkt[c][j].dst, j) && r.NodeInv(r.Rs().pkt[c][j].dst, j, D, n)
    ensures HandlesClient(Lightning(r.w.net, r.round), r.Plan(), c, j, D, n)
  {
    hide Handle, Round.NodeInv, Round.Rs, World.Valid, Server, Vk, Onion, Routes.Valid;
    RoutesShape(r);
    Visits(r, c, j);
    ClientOf(r.w, c);
    var s := Server(r.w.net, r.w.cs[c], j);
    assert r.Pkt(c, j).dst == s && r.Pkt(c, j).hop == j;
    if j + 1 < r.w.net.layers { Visits(r, c, j + 1); }
    hide Round.Pkt;
    HandleStep(r, s, j, D, c, n);
  }

  lemma HopFinished(r: Round, s: nat, j: nat, n: Node)
    requires r.Valid() && s < r.w.net.servers && j < r.w.net.layers && r.Rs().Valid()
    requires r.NodeInv(s, j, r.Rs().At(s, j), n)
    ensures FinishesHop(Lightning(r.w.net, r.round), r.Plan(), s, j, n)
  {
    hide Finish, Round.NodeInv, Round.Pkt, World.Valid;
    assert r.Rs().At(s, j) == r.w.Visitors(s, j) by { AllVisits(r, s, j); }
    FinishStep(r, s, j, n);
  }

  lemma AllVisits(r: Round, s: nat, j: nat)
    requires r.Valid() && j < r.w.net.layers && r.Rs().Valid()
    ensures r.Rs().At(s, j) == r.w.Visitors(s, j)
  {}

  // ----- the whole round

  /** The servers hold exactly the entries of the clients whose paths visit them, none used. */
  ghost predicate Established(w: World, tables: seq<seq<Table>>)
    requires w.Valid()
  {
    && |tables| == w.net.servers
    && (forall s :: 0 <= s < |tables| ==> |tables[s]| == w.net.layers)
    && (forall s, l :: 0 <= s < |tables| && 0 <= l < w.net.layers ==>
          TableFor(w, tables[s][l], l, w.Visitors(s, l), {}))
  }

  /** All clients have submitted, and no server has begun. */
  ghost function Submitted(r: Round, tables: seq<seq<Table>>): State<Node>
    requires r.Valid() && |tables| == r.w.net.servers && r.Rs().Valid()
  {
    Run(seq(r.w.net.servers, _ => 0),
        seq(r.w.net.servers, s requires 0 <= s < r.w.net.servers =>
          Node(tables[s], 0, seq(r.w.net.groups, _ => multiset{}))),
        seq(r.w.net.servers, _ => multiset{}),
        multiset(FirstPackets(r.Rs())))
  }

  lemma SubmittedStart(r: Round, tables: seq<seq<Table>>)
    requires r.Valid() && Established(r.w, tables) && r.Rs().Valid()
    ensures Start(Lightning(r.w.net, r.round), r.Plan(), Submitted(r, tables))
  {
    hide TableFor, World.Visitors, Round.FinalSet;
    var st := Submitted(r, tables);
    ClientFree(r.w);
    forall s | 0 <= s < r.w.net.servers ensures r.NodeInv(s, 0, {}, st.node[s]) {
      assert r.Packed(s, 0, {}) == {};
      forall g | 0 <= g < r.w.net.groups ensures multiset(r.FinalSet({}, g)) == multiset{} { NoFinals(r, g); }
    }
  }

  lemma ClientFree(w: World)
    requires w.Valid()
    ensures w.net.layers >= 2
  {}

  lemma NoFinals(r: Round, g: nat)
    requires r.Valid()
    ensures r.FinalSet({}, g) == {}
  {}

  /** Whatever the interleaving, a lightning round over established paths never panics; when it is
      over, nothing is in flight, the buffers for group g of each server hold the final messages of
      exactly the clients whose path ends at that server and in g, once each, and all key tables
      are ready for the next round. */
  lemma LightningRuns(r: Round, tables: seq<seq<Table>>, acts: seq<Action>, end: State<Node>)
    requires r.Valid() && Established(r.w, tables) && r.Rs().Valid()
    requires IsRun(Lightning(r.w.net, r.round), Submitted(r, tables), acts, end)
    ensures end.Run?
    ensures Finished(Lightning(r.w.net, r.round), end) ==>
      && end.wire == multiset{} && |end.node| == r.w.net.servers
      && Established(r.w, seq(|end.node|, s requires 0 <= s < |end.node| => end.node[s].tables))
      && (forall s :: 0 <= s < r.w.net.servers ==> end.queued[s] == multiset{} && |end.node[s].final| == r.w.net.groups)
      && (forall s, g :: 0 <= s < r.w.net.servers && 0 <= g < r.w.net.groups ==>
            end.node[s].final[g] == multiset(r.FinalSet(r.w.Visitors(s, r.w.net.layers - 1), g)))
  {
    hide Submitted, Sound, Start, IsRun, Handle, Finish, TableFor, World.Valid, World.Visitors, Round.FinalSet;
    var p := Lightning(r.w.net, r.round);
    LightningSound(r);
    SubmittedStart(r, tables);
    RunsDeliver(p, r.Plan(), Submitted(r, tables), acts, end);
    if Finished(p, end) {
      assert forall s :: 0 <= s < r.w.net.servers ==> r.NodeInv(s, r.w.net.layers, {}, end.node[s]);
    }
  }

  /** Wherever it stands, a lightning round can be brought to its end. */
  lemma LightningCanFinish(r: Round, tables: seq<seq<Table>>, acts: seq<Action>, end: State<Node>)
    returns (all: seq<Action>, last: State<Node>)
    requires r.Valid() && Established(r.w, tables) && r.Rs().Valid()
    requires IsRun(Lightning(r.w.net, r.round), Submitted(r, tables), acts, end)
    ensures acts <= all && IsRun(Lightning(r.w.net, r.round), Submitted(r, tables), all, last)
    ensures Finished(Lightning(r.w.net, r.round), last)
  {
    hide Submitted, Sound, Start, IsRun, Finished, World.Valid, TableFor, Lightning;
    LightningSound(r);
    SubmittedStart(r, tables);
    all, last := EveryRunCanFinish(Lightning(r.w.net, r.round), r.Plan(), Submitted(r, tables), acts, end);
  }
}
