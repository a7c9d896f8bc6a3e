/** All path rounds in a row, and what holds after them. */
module PathEstablishment {
  import opened PrepareMessages
  import opened KeyTables
  import opened ProcessMessages
  import opened Population
  import opened Routing
  import opened Relay
  import opened PathRounds
  import opened LR = LightningRound

  type St = State<PathRounds.Node>

  /** Every server with empty tables, and every client's message submitted to its first server. */
  ghost predicate IsInitial(w: World, st: St)
    requires w.Valid()
  {
    && st.Run? && |st.hop| == |st.node| == |st.queued| == w.net.servers
    && (forall s :: 0 <= s < w.net.servers ==>
         && st.hop[s] == 0 && st.queued[s] == multiset{}
         && st.node[s] == PathRounds.Node(seq(w.net.layers, _ => EMPTY), 0, multiset{}, map[], []))
    && PathRounds.Round(w, 0).Rs().Valid()
    && st.wire == multiset(FirstPackets(PathRounds.Round(w, 0).Rs()))
  }

  /** RoundStart: the kept path messages are sent, one packet for each, and receipts are cleared. */
  ghost predicate NextRound(net: Net, e: St, st: St) {
    && e.Run? && st.Run? && |e.node| == net.servers
    && |st.hop| == |st.node| == |st.queued| == net.servers
    && (forall s :: 0 <= s < net.servers ==>
         && st.hop[s] == 0 && st.queued[s] == multiset{}
         && st.node[s] == PathRounds.Node(e.node[s].tables, 0, multiset{}, map[], []))
    && (forall p :: st.wire[p] == if p.hop == 0 && p.src < net.servers then e.node[p.src].onward[Routed(p.dst, p.data)] else 0)
  }

  /** The coordinator goes on: from round 0 when the clients' messages are handled, as no server is
      started in it; from a later round when every server is through. */
  ghost predicate Ended(net: Net, r: nat, e: St) {
    if r == 0 then e.Run? && e.wire == multiset{} else Finished(PathProto(net, r), e)
  }

  /** Path rounds 0, 1, ... run to their end in order, each under any interleaving. */
  ghost predicate Rounds(w: World, starts: seq<St>, acts: seq<seq<Action>>, ends: seq<St>)
    requires w.Valid()
  {
    && 0 < |starts| <= w.net.layers && |acts| == |ends| <= |starts| <= |ends| + 1
    && IsInitial(w, starts[0])
    && (forall i :: 0 < i < |starts| ==> NextRound(w.net, ends[i - 1], starts[i]))
    && (forall i :: 0 <= i < |ends| ==>
         IsRun(PathProto(w.net, i), starts[i], acts[i], ends[i]) && Ended(w.net, i, ends[i]))
  }

  ghost predicate Completed(w: World, r: nat, e: St)
    requires w.Valid() && r < w.net.layers
  {
    && e.Run? && |e.node| == w.net.servers
    && forall s :: 0 <= s < w.net.servers ==> PathRounds.Round(w, r).NodeInv(s, Hops(w.net, r), {}, e.node[s])
  }

  lemma InitialStart(w: World, st: St)
    requires w.Valid() && IsInitial(w, st)
    ensures Start(PathProto(w.net, 0), PathRounds.Round(w, 0).Plan(), st)
  {
    hide World.Valid, PathRounds.Round.NodeInv, PathRounds.Round.Rs;
    var x := PathRounds.Round(w, 0);
    AtLeastTwo(w);
    PathRounds.RoutesShape(x);
    forall s | 0 <= s < w.net.servers ensures x.NodeInv(s, 0, {}, st.node[s]) {
      InitialNode(w, s);
    }
  }

  lemma InitialNode(w: World, s: nat)
    requires w.Valid() && w.net.layers > 0
    ensures PathRounds.Round(w, 0).NodeInv(s, 0, {}, PathRounds.Node(seq(w.net.layers, _ => EMPTY), 0, multiset{}, map[], []))
  {
    hide World.Valid, TableFor, PathRounds.Round.ReceiptsOk, World.Visitors;
    var x := PathRounds.Round(w, 0);
    var n := PathRounds.Node(seq(w.net.layers, _ => EMPTY), 0, multiset{}, map[], []);
    EmptyReceipts(x, n);
    EmptyTable(w, 0);
    assert x.OnwardSet(x.Kept(s, 0, {})) == {};
    assert x.Filed(s, 0, {}) == {} && x.Entered(s, 0, 0, {}) == {};
  }

  lemma EmptyTable(w: World, l: nat)
    requires w.Valid() && l < w.net.layers
    ensures TableFor(w, EMPTY, l, {}, {})
  {}

  lemma EmptyReceipts(x: PathRounds.Round, n: PathRounds.Node)
    requires x.Valid() && n.byClient == map[] && n.anon == []
    ensures x.ReceiptsOk({}, n)
  {
    var ord: seq<nat> := [];
    assert Enumerates(ord, {}) && x.AreReceipts(n.anon, ord);
  }

  // ----- from one round to the next

  lemma NextTables(w: World, r: nat, s: nat, tables: seq<Table>)
    requires w.Valid() && r + 1 < w.net.layers
    requires PathRounds.Round(w, r).TablesOk(s, Hops(w.net, r), {}, tables)
    ensures PathRounds.Round(w, r + 1).TablesOk(s, 0, {}, tables)
  {
    hide TableFor, World.Visitors, World.Fresh;
    var x, y := PathRounds.Round(w, r), PathRounds.Round(w, r + 1);
    EmptyTable(w, r + 1);
    assert y.Entered(s, r + 1, 0, {}) == {};
    forall l | 0 <= l <= r ensures TableFor(w, tables[l], l, y.Entered(s, l, 0, {}), y.Used(l, 0, {})) {
      assert TableFor(w, tables[l], l, x.Entered(s, l, Hops(w.net, r), {}), x.Used(l, Hops(w.net, r), {}));
    }
  }

  lemma NextWire(w: World, r: nat, e: St, st: St)
    requires w.Valid() && r + 1 < w.net.layers && Completed(w, r, e) && NextRound(w.net, e, st)
    requires PathRounds.Round(w, r + 1).Rs().Valid()
    ensures st.wire == multiset(FirstPackets(PathRounds.Round(w, r + 1).Rs()))
  {
    hide World.Fresh, PathRounds.Round.TablesOk, PathRounds.Round.ReceiptsOk, PathEnvelope;
    var x, y := PathRounds.Round(w, r), PathRounds.Round(w, r + 1);
    var first := FirstPackets(y.Rs());
    forall p: Packet ensures st.wire[p] == multiset(first)[p] {
      FirstPacket(w, r, p);
    }
  }

  /** Exactly one kept message for each first packet of the next round. */
  lemma FirstPacket(w: World, r: nat, p: Packet)
    requires w.Valid() && r + 1 < w.net.layers && PathRounds.Round(w, r + 1).Rs().Valid()
    ensures p in FirstPackets(PathRounds.Round(w, r + 1).Rs()) <==>
      p.hop == 0 && p.src < w.net.servers
      && Routed(p.dst, p.data) in PathRounds.Round(w, r).OnwardSet(w.Visitors(p.src, r))
  {
    hide World.Valid, PathRounds.Round.Rs, PathRounds.Round.Pkt, PathRounds.Round.Onward, World.Visitors;
    var x, y := PathRounds.Round(w, r), PathRounds.Round(w, r + 1);
    PathRounds.RoutesShape(y);
    VisitorsAreClients(w, p.src, r);
    if p in FirstPackets(y.Rs()) {
      var c: nat :| c < |y.Rs().pkt| && p == y.Rs().pkt[c][0];
      PathRounds.PacketOf(y, c, 0);
      KeptFor(w, r, c);
    }
    if p.hop == 0 && p.src < w.net.servers && Routed(p.dst, p.data) in x.OnwardSet(w.Visitors(p.src, r)) {
      var c :| c in w.Visitors(p.src, r) && Routed(p.dst, p.data) == x.Onward(c);
      VisitorIs(w, r, p.src, c);
      KeptFor(w, r, c);
      PathRounds.PacketOf(y, c, 0);
    }
  }

  lemma VisitorIs(w: World, l: nat, s: nat, c: nat)
    requires w.Valid() && l < w.net.layers && c in w.Visitors(s, l)
    ensures c < |w.cs| && Server(w.net, w.cs[c], l) == s
  {}

  lemma KeptFor(w: World, r: nat, c: nat)
    requires w.Valid() && r + 1 < w.net.layers && c < |w.cs|
    ensures var p := PathRounds.Round(w, r + 1).Pkt(c, 0);
            && p.hop == 0 && p.src == Server(w.net, w.cs[c], r) < w.net.servers && c in w.Visitors(p.src, r)
            && Routed(p.dst, p.data) == PathRounds.Round(w, r).Onward(c)
  {
    hide World.Fresh, PathEnvelope;
  }

  lemma NextStart(w: World, r: nat, e: St, st: St)
    requires w.Valid() && r + 1 < w.net.layers && Completed(w, r, e) && NextRound(w.net, e, st)
    ensures Start(PathProto(w.net, r + 1), PathRounds.Round(w, r + 1).Plan(), st)
  {
    hide TableFor, World.Visitors, World.Fresh, PathRounds.Round.TablesOk, PathRounds.Round.ReceiptsOk, PathRounds.Round.Rs, FirstPackets;
    var y := PathRounds.Round(w, r + 1);
    PathRounds.RoutesValid(y);
    PathRounds.RoutesShape(y);
    NextWire(w, r, e, st);
    forall s | 0 <= s < w.net.servers ensures y.NodeInv(s, 0, {}, st.node[s]) {
      NextTables(w, r, s, e.node[s].tables);
      EmptyReceipts(y, st.node[s]);
      assert y.Kept(s, 0, {}) == {} && y.OnwardSet({}) == {};
      assert y.Filed(s, 0, {}) == {};
    }
  }

  /** A started round never panics, and is complete when all servers are through. */
  lemma RoundDone(w: World, r: nat, st: St, acts: seq<Action>, e: St)
    requires w.Valid() && r < w.net.layers
    requires Start(PathProto(w.net, r), PathRounds.Round(w, r).Plan(), st) && IsRun(PathProto(w.net, r), st, acts, e)
    ensures e.Run? && (Finished(PathProto(w.net, r), e) ==> Completed(w, r, e) && e.wire == multiset{})
  {
    hide Start, IsRun, PathRounds.Round.NodeInv, World.Valid, Sound;
    PathSound(PathRounds.Round(w, r));
    RunsDeliver(PathProto(w.net, r), PathRounds.Round(w, r).Plan(), st, acts, e);
  }

  // ----- path round 0, in which nobody starts the servers

  /** Nothing is to be sent and no key is counted. */
  ghost predicate Silent(st: St) {
    st.Run? ==>
      && (forall s :: 0 <= s < |st.node| ==> st.node[s].count == 0)
      && (forall s :: 0 <= s < |st.queued| ==> st.queued[s] == multiset{})
  }

  /** A server that goes on changes nothing but its hop. */
  ghost predicate AdvanceIsSilent(net: Net, st: St, s: nat) {
    Enabled(PathProto(net, 0), st, Advance(s)) ==>
      Apply(PathProto(net, 0), st, Advance(s)) == Relay.Run(st.hop[s := 1], st.node, st.queued, st.wire)
  }

  lemma SilentHandle(net: Net, s: nat, n: PathRounds.Node, q: Packet)
    ensures var o := HandlePath(net, 0, s, n, q); o.Accept? ==> o.out.None? && o.node.count == n.count
    ensures n.count == 0 ==> PathRounds.Finish(0, 0, n).Some? && PathRounds.Finish(0, 0, n).value == n
    ensures Hops(net, 0) == 1
  {
    hide ParsePath, PackOnion;
  }

  lemma SilentStep(net: Net, st: St, a: Action)
    requires Enabled(PathProto(net, 0), st, a) && Silent(st)
    ensures Silent(Apply(PathProto(net, 0), st, a))
    ensures a.Advance? ==> Apply(PathProto(net, 0), st, a) == Relay.Run(st.hop[a.s := 1], st.node, st.queued, st.wire)
  {
    hide HandlePath, PathRounds.Finish, Hops;
    match a {
      case Deliver(q) => SilentHandle(net, q.dst, st.node[q.dst], q);
      case Advance(s) =>
        SilentHandle(net, s, st.node[s], Packet(0, 0, 0, []));
        assert st.node[s := st.node[s]] == st.node && st.queued[s := multiset{}] == st.queued;
    }
  }

  lemma {:induction false} SilentRun(net: Net, st: St, acts: seq<Action>, e: St)
    requires IsRun(PathProto(net, 0), st, acts, e) && Silent(st)
    ensures Silent(e)
    decreases |acts|
  {
    hide Enabled, Apply, PathProto, Silent;
    if acts != [] {
      SilentStep(net, st, acts[0]);
      SilentRun(net, Apply(PathProto(net, 0), st, acts[0]), acts[1..], e);
    }
  }

  lemma InitialSilent(w: World, st: St)
    requires w.Valid() && IsInitial(w, st)
    ensures Silent(st)
  {}

  /** The coordinator starts no server in round 0, so that no barrier is triggered in it. None has to
      be: once the clients' messages are handled the round is complete, however many servers have
      advanced, and advancing changes nothing that a server keeps or sends. */
  lemma {:induction false} RoundZero(w: World, st: St, acts: seq<Action>, e: St)
    requires w.Valid() && IsInitial(w, st) && IsRun(PathProto(w.net, 0), st, acts, e)
    ensures e.Run? && w.net.layers > 0
    ensures forall s: nat :: AdvanceIsSilent(w.net, e, s)
    ensures e.wire == multiset{} ==> Completed(w, 0, e)
    decreases (w.net.servers + |w.cs|) - |acts|
  {
    hide IsInitial, IsRun, Enabled, Apply, World.Valid, Start, Sound, PathProto, Silent, PathRounds.Round.Plan, Finished, Completed;
    AtLeastTwo(w);
    var p, x := PathProto(w.net, 0), PathRounds.Round(w, 0);
    InitialStart(w, st);
    RoundDone(w, 0, st, acts, e);
    InitialSilent(w, st);
    SilentRun(w.net, st, acts, e);
    forall s: nat ensures AdvanceIsSilent(w.net, e, s) {
      if Enabled(p, e, Advance(s)) { SilentStep(w.net, e, Advance(s)); }
    }
    RoundBound(w, st, acts, e);
    if e.wire == multiset{} && !Finished(p, e) {
      var a :| Enabled(p, e, a);
      OnlyAdvance(p, e, a);
      SilentStep(w.net, e, a);
      RunConcat(p, st, acts, e, a);
      RoundBound(w, st, acts + [a], Apply(p, e, a));
      RoundZero(w, st, acts + [a], Apply(p, e, a));
      SameNodes(w, Apply(p, e, a), e);
    }
  }

  lemma RoundBound(w: World, st: St, acts: seq<Action>, e: St)
    requires w.Valid() && Start(PathProto(w.net, 0), PathRounds.Round(w, 0).Plan(), st) && IsRun(PathProto(w.net, 0), st, acts, e)
    ensures |acts| <= w.net.servers + |w.cs|
    ensures Finished(PathProto(w.net, 0), e) || exists a :: Enabled(PathProto(w.net, 0), e, a)
  {
    hide IsRun, Enabled, World.Valid, Start, Sound, Finished;
    var x := PathRounds.Round(w, 0);
    AtLeastTwo(w);
    PathSound(x);
    PathRounds.RoutesShape(x);
    RunsTerminate(PathProto(w.net, 0), x.Plan(), st, acts, e);
  }

  lemma OnlyAdvance(p: Proto<PathRounds.Node>, e: St, a: Action)
    requires Enabled(p, e, a) && e.wire == multiset{}
    ensures a.Advance?
  {}

  lemma SameNodes(w: World, e: St, e': St)
    requires w.Valid() && w.net.layers > 0 && Completed(w, 0, e) && e'.Run? && e'.node == e.node
    ensures Completed(w, 0, e')
  {}

  // ----- all rounds

  /** Every round starts properly and completes. */
  lemma {:induction false} RoundsComplete(w: World, starts: seq<St>, acts: seq<seq<Action>>, ends: seq<St>, r: nat)
    requires w.Valid() && Rounds(w, starts, acts, ends) && r < |starts|
    ensures Start(PathProto(w.net, r), PathRounds.Round(w, r).Plan(), starts[r])
    ensures r < |ends| ==> Completed(w, r, ends[r])
    decreases r
  {
    hide IsInitial, NextRound, Start, IsRun, PathProto, Completed, World.Valid, PathRounds.Round.Plan;
    if r == 0 {
      InitialStart(w, starts[0]);
      if |ends| > 0 { RoundZero(w, starts[0], acts[0], ends[0]); }
    } else {
      RoundsComplete(w, starts, acts, ends, r - 1);
      NextStart(w, r - 1, ends[r - 1], starts[r]);
    }
    if 0 < r < |ends| { RoundDone(w, r, starts[r], acts[r], ends[r]); }
  }

  // ----- what the rounds are for

  /** Path establishment: after round r, for every client and every layer l up to r, the server the
      client's l-th token hashes to finds one unused entry by either key; its keys are the client's
      own keys for both directions, and it links the server before to the server, or at the end the
      group, after it. */
  lemma PathInvariant(w: World, starts: seq<St>, acts: seq<seq<Action>>, ends: seq<St>, r: nat, c: nat, l: nat)
    requires w.Valid() && Rounds(w, starts, acts, ends) && r < |ends| && c < |w.cs| && l <= r
    ensures Completed(w, r, ends[r])
    ensures var t := ends[r].node[Server(w.net, w.cs[c], l)].tables[l];
            && t.Valid()
            && t.Lookup(w.Key(c, l), false).Some?
            && t.Lookup(w.Key(c, l), false) == t.Lookup(w.Key(c, l + 1), true)
            && var e := t.objs[t.Lookup(w.Key(c, l), false).value];
               && !e.used
               && e.shared == Shared(w.net, w.cs[c], l)
               && (l + 1 < w.net.layers ==> e.outShared == PrevShared(w.net, w.cs[c], l + 1))
               && e.prev == Prev(w.net, w.cs[c], l)
               && e.next == if l + 1 < w.net.layers then Server(w.net, w.cs[c], l + 1) else Group(w.net, w.cs[c])
  {
    hide IsInitial, NextRound, IsRun, PathProto, World.Fresh, Shared, PrevShared, Server, Prev, Group,
         PathRounds.Round.ReceiptsOk, PathRounds.Round.OnwardSet, Keys;
    RoundsComplete(w, starts, acts, ends, r);
    var x, s := PathRounds.Round(w, r), Server(w.net, w.cs[c], l);
    var t := ends[r].node[s].tables[l];
    assert TableFor(w, t, l, x.Entered(s, l, Hops(w.net, r), {}), x.Used(l, Hops(w.net, r), {}));
    assert Slot(w, t, l, {}, c);
    KeysAgree(w.net, w.cs[c], l);
  }

  /** Boomerang round trip: at the end of round r the receipts filed at the receipt layer are exactly
      those of the clients passing there: by client id at layer 0, otherwise one each, in some order. */
  lemma ReceiptsReturn(w: World, starts: seq<St>, acts: seq<seq<Action>>, ends: seq<St>, r: nat, s: nat)
    requires w.Valid() && Rounds(w, starts, acts, ends) && r < |ends| && s < w.net.servers
    ensures Completed(w, r, ends[r])
    ensures PathRounds.Round(w, r).ReceiptsOk(w.Visitors(s, w.net.ReceiptLayer(r)), ends[r].node[s])
  {
    hide IsInitial, NextRound, IsRun, PathProto, World.Fresh, PathRounds.Round.TablesOk, PathRounds.Round.ReceiptsOk,
         PathRounds.Round.OnwardSet;
    RoundsComplete(w, starts, acts, ends, r);
    var x := PathRounds.Round(w, r);
    assert x.NodeInv(s, Hops(w.net, r), {}, ends[r].node[s]);
  }

  /** While the limit allows receipts to come all the way back, client c's own receipt is filed under
      its id at its first server, and GetReceipt hands it out unless receipts are empty. In round 0
      GetReceipt waits for ever, as nothing marks that round complete, and nobody asks. */
  lemma ClientFindsReceipt(w: World, starts: seq<St>, acts: seq<seq<Action>>, ends: seq<St>, r: nat, c: nat)
    requires w.Valid() && Rounds(w, starts, acts, ends) && r < |ends| && r <= w.net.limit && c < |w.cs|
    ensures Completed(w, r, ends[r])
    ensures var n := ends[r].node[Server(w.net, w.cs[c], 0)];
            && w.cs[c].id in n.byClient && n.byClient[w.cs[c].id] == w.cs[c].receipts[r]
            && GetReceipt(n, w.cs[c].id) == if w.net.receiptSize > 0 then Ok(w.cs[c].receipts[r]) else Err(ClientNotFound)
  {
    hide IsInitial, NextRound, IsRun, PathProto, Rounds, World.Fresh, Server;
    ReceiptsReturn(w, starts, acts, ends, r, Server(w.net, w.cs[c], 0));
    assert c in w.Visitors(Server(w.net, w.cs[c], 0), 0);
    StartsInRange(w, starts, acts, ends, r);
    ReceiptLength(w, c, r);
  }

  lemma ReceiptLength(w: World, c: nat, r: nat)
    requires w.Valid() && c < |w.cs| && r < w.net.layers
    ensures r < |w.cs[c].receipts| && |w.cs[c].receipts[r]| == w.net.receiptSize
  {
    assert w.cs[c].For(w.net);
  }

  /** Any run inside any reachable round: no panic, no deadlock, a bounded number of steps. */
  lemma RoundRuns(w: World, starts: seq<St>, acts: seq<seq<Action>>, ends: seq<St>, r: nat, more: seq<Action>, e: St)
    requires w.Valid() && Rounds(w, starts, acts, ends) && r < |starts|
    requires IsRun(PathProto(w.net, r), starts[r], more, e)
    ensures e.Run?
    ensures |more| <= (w.net.servers + |w.cs|) * (r - w.net.ReceiptLayer(r) + 1)
    ensures Finished(PathProto(w.net, r), e) || exists a :: Enabled(PathProto(w.net, r), e, a)
  {
    hide IsInitial, NextRound, IsRun, Finished, Enabled, World.Valid, Rounds, Sound, Start;
    var x := PathRounds.Round(w, r);
    StartsInRange(w, starts, acts, ends, r);
    RoundsComplete(w, starts, acts, ends, r);
    RoundDone(w, r, starts[r], more, e);
    PathSound(x);
    PathRounds.RoutesShape(x);
    RunsTerminate(PathProto(w.net, r), x.Plan(), starts[r], more, e);
  }

  lemma StartsInRange(w: World, starts: seq<St>, acts: seq<seq<Action>>, ends: seq<St>, r: nat)
    requires w.Valid() && Rounds(w, starts, acts, ends) && (r < |starts| || r < |ends|)
    ensures r < w.net.layers
  {}

  /** After the last path round the servers are ready for lightning rounds. */
  lemma PathsEstablished(w: World, starts: seq<St>, acts: seq<seq<Action>>, ends: seq<St>)
    requires w.Valid() && Rounds(w, starts, acts, ends) && |ends| == w.net.layers
    ensures var e := ends[w.net.layers - 1];
            e.Run? && LR.Established(w, seq(|e.node|, s requires 0 <= s < |e.node| => e.node[s].tables))
  {
    hide IsInitial, NextRound, IsRun, PathProto, World.Fresh, PathRounds.Round.ReceiptsOk, PathRounds.Round.OnwardSet, TableFor;
    var r := w.net.layers - 1;
    RoundsComplete(w, starts, acts, ends, r);
    var x, e := PathRounds.Round(w, r), ends[r];
    forall s, l | 0 <= s < w.net.servers && 0 <= l < w.net.layers
      ensures TableFor(w, e.node[s].tables[l], l, w.Visitors(s, l), {})
    {
      assert x.NodeInv(s, Hops(w.net, r), {}, e.node[s]);
      assert TableFor(w, e.node[s].tables[l], l, x.Entered(s, l, Hops(w.net, r), {}), x.Used(l, Hops(w.net, r), {}));
    }
  }

  // ----- such rounds exist

  ghost function StartOf(w: World, r: nat, node: seq<PathRounds.Node>): St
    requires w.Valid() && r < w.net.layers && |node| == w.net.servers && PathRounds.Round(w, r).Rs().Valid()
  {
    PathRounds.RoutesShape(PathRounds.Round(w, r));
    Relay.Run(seq(w.net.servers, _ => 0), node, seq(w.net.servers, _ => multiset{}),
              multiset(FirstPackets(PathRounds.Round(w, r).Rs())))
  }

  lemma CanStart(w: World) returns (st: St)
    requires w.Valid()
    ensures IsInitial(w, st)
  {
    hide World.Valid;
    AtLeastTwo(w);
    PathRounds.RoutesValid(PathRounds.Round(w, 0));
    st := StartOf(w, 0, seq(w.net.servers, _ => PathRounds.Node(seq(w.net.layers, _ => EMPTY), 0, multiset{}, map[], [])));
  }

  lemma AtLeastTwo(w: World)
    requires w.Valid()
    ensures w.net.layers >= 2
  {}

  /** The messages kept in a completed round can be sent in the next. */
  lemma CanGoOn(w: World, r: nat, e: St) returns (st: St)
    requires w.Valid() && r + 1 < w.net.layers && Completed(w, r, e)
    ensures NextRound(w.net, e, st)
  {
    hide World.Valid, FirstPackets, Completed, PathRounds.Round.Rs, Routes.Valid;
    CompletedShape(w, r, e);
    PathRounds.RoutesValid(PathRounds.Round(w, r + 1));
    PathRounds.RoutesShape(PathRounds.Round(w, r + 1));
    st := StartOf(w, r + 1, seq(w.net.servers, s requires 0 <= s < w.net.servers =>
      PathRounds.Node(e.node[s].tables, 0, multiset{}, map[], [])));
    forall p: Packet
      ensures st.wire[p] == if p.hop == 0 && p.src < w.net.servers then e.node[p.src].onward[Routed(p.dst, p.data)] else 0
    {
      SentOnce(w, r, e, p);
    }
  }

  lemma CompletedShape(w: World, r: nat, e: St)
    requires w.Valid() && r < w.net.layers && Completed(w, r, e)
    ensures e.Run? && |e.node| == w.net.servers
  {}

  lemma SentOnce(w: World, r: nat, e: St, p: Packet)
    requires w.Valid() && r + 1 < w.net.layers && Completed(w, r, e) && e.Run? && |e.node| == w.net.servers
    requires PathRounds.Round(w, r + 1).Rs().Valid() && PathRounds.Round(w, r + 1).Rs().hops > 0
    ensures multiset(FirstPackets(PathRounds.Round(w, r + 1).Rs()))[p] ==
            if p.hop == 0 && p.src < w.net.servers then e.node[p.src].onward[Routed(p.dst, p.data)] else 0
  {
    hide World.Valid, FirstPackets, Completed, PathRounds.Round.Rs, Routes.Valid, PathRounds.Round.OnwardSet, World.Visitors;
    FirstPacket(w, r, p);
    if p.src < w.net.servers { KeptIn(w, r, e, p.src); }
  }

  lemma KeptIn(w: World, r: nat, e: St, s: nat)
    requires w.Valid() && r < w.net.layers && Completed(w, r, e) && s < w.net.servers
    ensures forall c :: c in w.Visitors(s, r) ==> c < |w.cs|
    ensures e.node[s].onward == multiset(PathRounds.Round(w, r).OnwardSet(w.Visitors(s, r)))
  {
    hide World.Valid, World.Visitors, PathRounds.Round.TablesOk, PathRounds.Round.ReceiptsOk, PathRounds.Round.OnwardSet;
    VisitorsAreClients(w, s, r);
    var x := PathRounds.Round(w, r);
    assert x.NodeInv(s, Hops(w.net, r), {}, e.node[s]);
    assert x.Kept(s, Hops(w.net, r), {}) == w.Visitors(s, r);
  }

  /** A round that has started can be finished. */
  lemma CanFinish(w: World, r: nat, st: St) returns (acts: seq<Action>, e: St)
    requires w.Valid() && r < w.net.layers && Start(PathProto(w.net, r), PathRounds.Round(w, r).Plan(), st)
    ensures IsRun(PathProto(w.net, r), st, acts, e) && Ended(w.net, r, e) && Completed(w, r, e)
  {
    hide World.Valid, Start, Sound, PathProto, Finished, PathRounds.Round.Plan, Completed;
    PathSound(PathRounds.Round(w, r));
    assert IsRun(PathProto(w.net, r), st, [], st);
    acts, e := EveryRunCanFinish(PathProto(w.net, r), PathRounds.Round(w, r).Plan(), st, [], st);
    RoundDone(w, r, st, acts, e);
  }

  /** Every population of clients can establish its paths: k rounds can be run, for every k. */
  lemma {:induction false} RoundsExist(w: World, k: nat) returns (starts: seq<St>, acts: seq<seq<Action>>, ends: seq<St>)
    requires w.Valid() && k < w.net.layers
    ensures Rounds(w, starts, acts, ends) && |ends| == k + 1 == |starts|
    decreases k
  {
    hide World.Valid, IsInitial, NextRound, Start, PathProto, Ended, Completed, IsRun;
    if k == 0 {
      var st := CanStart(w);
      InitialStart(w, st);
      var a, e := CanFinish(w, 0, st);
      starts, acts, ends := [st], [a], [e];
    } else {
      starts, acts, ends := RoundsExist(w, k - 1);
      RoundsComplete(w, starts, acts, ends, k - 1);
      var st := CanGoOn(w, k - 1, ends[k - 1]);
      NextStart(w, k - 1, ends[k - 1], st);
      var a, e := CanFinish(w, k, st);
      starts, acts, ends := starts + [st], acts + [a], ends + [e];
    }
  }
}
