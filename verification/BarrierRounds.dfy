/** Lightning and path rounds run by servers that know nothing of each other but what their barriers
    make them wait for: every such run is one the round theorems speak about. */
module BarrierRounds {
  import opened PrepareMessages
  import opened KeyTables
  import opened Population
  import opened Routing
  import opened Relay
  import B = Barrier
  import LR = LightningRound
  import PR = PathRounds
  import PE = PathEstablishment
  import opened BarrierSystem
  import opened SystemProgress

  /** Layers first, first + 1, ... or downwards: the layers a round goes through, one more at the end. */
  function LayersOf(start: int, step: int, hops: nat): (ls: seq<int>)
    requires step == 1 || step == -1
    ensures |ls| == hops + 1 && forall i, j :: 0 <= i < j < |ls| ==> ls[i] != ls[j]
  {
    seq(hops + 1, i => start + step * i)
  }

  /** A lightning round: layer 0 is fed by the clients and ended by the coordinator. */
  ghost function LightningBarrier(net: Net): (c: B.Config)
    requires net.servers > 0 && net.layers >= 1
    ensures c.Valid() && c.servers == net.servers && c.Last() == net.layers && c.first == 1
  {
    B.Config(net.servers, LayersOf(0, 1, net.layers), 1)
  }

  /** Path round r: from layer r back to the receipt layer. In round 0 the clients submit and no server
      is started; the Trigger that ends it here stands for the coordinator going on to round 1. */
  ghost function PathBarrier(net: Net, r: nat): (c: B.Config)
    requires net.servers > 0
    ensures c.Valid() && c.servers == net.servers && c.Last() == PR.Hops(net, r) && c.first == if r == 0 then 1 else 0
  {
    B.Config(net.servers, LayersOf(r, -1, PR.Hops(net, r)), if r == 0 then 1 else 0)
  }

  lemma LightningSends(net: Net, round: nat)
    ensures SendsAsItself(LR.Lightning(net, round))
  {
    forall s: nat, j: nat, n: LR.Node, q: Packet
      ensures LR.Handle(net, round, s, j, n, q).Accept? && LR.Handle(net, round, s, j, n, q).out.Some? ==>
              LR.Handle(net, round, s, j, n, q).out.value.hop == j + 1 && LR.Handle(net, round, s, j, n, q).out.value.src == s
    {}
    hide LR.Handle;
  }

  lemma PathSends(net: Net, r: nat)
    ensures SendsAsItself(PR.PathProto(net, r))
  {
    forall s: nat, n: PR.Node, q: Packet
      ensures PR.HandlePath(net, r, s, n, q).Accept? && PR.HandlePath(net, r, s, n, q).out.Some? ==>
              PR.HandlePath(net, r, s, n, q).out.value.hop == 1 && PR.HandlePath(net, r, s, n, q).out.value.src == s
    {}
    forall s: nat, layer: nat, j: nat, n: PR.Node, q: Packet
      ensures PR.HandleBoomerang(net, r, s, layer, j, n, q).Accept? && PR.HandleBoomerang(net, r, s, layer, j, n, q).out.Some? ==>
              && PR.HandleBoomerang(net, r, s, layer, j, n, q).out.value.hop == j + 1
              && PR.HandleBoomerang(net, r, s, layer, j, n, q).out.value.src == s
    {}
    hide PR.HandlePath, PR.HandleBoomerang;
  }

  /** Every barrier is freshly reset. */
  ghost predicate FreshBarriers(c: B.Config, sync: seq<B.Sync>)
    requires c.Valid()
  {
    |sync| == c.servers && forall s :: 0 <= s < c.servers ==> sync[s] == B.Init(c)
  }

  /** A lightning round over barriers is a run of the lightning round, and never panics. */
  lemma LightningOverBarriers(r: LR.Round, tables: seq<seq<Table>>, x: System<LR.Node>, steps: seq<Step>, end: System<LR.Node>)
    requires r.Valid() && LR.Established(r.w, tables) && r.Rs().Valid()
    requires x.st == LR.Submitted(r, tables) && FreshBarriers(LightningBarrier(r.w.net), x.sync)
    requires IsSystemRun(LightningBarrier(r.w.net), LR.Lightning(r.w.net, r.round), x, steps, end)
    ensures end.st.Run? && IsRun(LR.Lightning(r.w.net, r.round), LR.Submitted(r, tables), Actions(steps), end.st)
  {
    ServersPositive(r.w);
    assert Matches(LightningBarrier(r.w.net), LR.Lightning(r.w.net, r.round));
    hide IsSystemRun, SendsAsItself, LR.Lightning, LR.Submitted, Sound, Start, World.Valid, LR.Established;
    var c, p := LightningBarrier(r.w.net), LR.Lightning(r.w.net, r.round);
    LightningSends(r.w.net, r.round);
    LR.LightningSound(r);
    LR.SubmittedStart(r, tables);
    HopZero(p, r.Plan(), x.st);
    SystemDelivers(c, p, r.Plan(), x, steps, end);
  }

  lemma ServersPositive(w: World)
    requires w.Valid()
    ensures w.net.servers > 0 && w.net.layers >= 2
  {}

  /** At the start everything on the wire is of hop 0. */
  lemma HopZero<N>(p: Proto<N>, plan: Plan<N>, st: State<N>)
    requires Start(p, plan, st)
    ensures Shaped(p, st) && forall q :: q in st.wire ==> q.hop == 0
    ensures forall s :: 0 <= s < p.servers ==> st.hop[s] == 0 && st.queued[s] == multiset{}
  {
    forall q | q in st.wire ensures q.hop == 0 {
      assert q in FirstPackets(plan.r);
    }
  }

  lemma SourceIsServer(x: PR.Round, c: nat)
    requires x.Valid() && x.r > 0 && c < |x.w.cs|
    ensures x.Pkt(c, 0).src < x.w.net.servers
  {
    hide World.Fresh, PathEnvelope;
  }

  lemma FromServers(x: PR.Round, st: State<PR.Node>)
    requires x.Valid() && x.r > 0 && Start(PR.PathProto(x.w.net, x.r), x.Plan(), st)
    ensures forall q :: q in st.wire ==> q.src < x.w.net.servers
  {
    hide World.Valid, PR.Round.Rs, PR.Round.Pkt, PR.PathProto, PR.Round.NodeInv;
    PR.RoutesShape(x);
    forall q | q in st.wire ensures q.src < x.w.net.servers {
      assert q in FirstPackets(x.Rs());
      var c: nat :| c < |x.w.cs| && q == x.Rs().pkt[c][0];
      PR.PacketOf(x, c, 0);
      SourceIsServer(x, c);
    }
  }

  /** A path round over barriers is a run of the path round, and never panics. */
  lemma PathOverBarriers(x: PR.Round, y: System<PR.Node>, steps: seq<Step>, end: System<PR.Node>)
    requires x.Valid() && Start(PR.PathProto(x.w.net, x.r), x.Plan(), y.st)
    requires FreshBarriers(PathBarrier(x.w.net, x.r), y.sync)
    requires IsSystemRun(PathBarrier(x.w.net, x.r), PR.PathProto(x.w.net, x.r), y, steps, end)
    ensures end.st.Run? && IsRun(PR.PathProto(x.w.net, x.r), y.st, Actions(steps), end.st)
  {
    ServersPositive(x.w);
    assert Matches(PathBarrier(x.w.net, x.r), PR.PathProto(x.w.net, x.r));
    hide IsSystemRun, SendsAsItself, PR.PathProto, Sound, Start, World.Valid, PR.Round.Plan;
    var c, p := PathBarrier(x.w.net, x.r), PR.PathProto(x.w.net, x.r);
    PathSends(x.w.net, x.r);
    PR.PathSound(x);
    HopZero(p, x.Plan(), y.st);
    if x.r > 0 { FromServers(x, y.st); }
    SystemDelivers(c, p, x.Plan(), y, steps, end);
  }

  /** Path round 0 needs no Trigger: it is complete as soon as the clients' messages are handled. */
  lemma RoundZeroOverBarriers(w: World, y: System<PR.Node>, steps: seq<Step>, end: System<PR.Node>)
    requires w.Valid() && PE.IsInitial(w, y.st) && FreshBarriers(PathBarrier(w.net, 0), y.sync)
    requires IsSystemRun(PathBarrier(w.net, 0), PR.PathProto(w.net, 0), y, steps, end)
    ensures end.st.Run? && w.net.layers > 0 && (end.st.wire == multiset{} ==> PE.Completed(w, 0, end.st))
  {
    hide World.Valid, PE.IsInitial, FreshBarriers, IsSystemRun, PR.PathProto, Start, IsRun, PE.Completed, PathBarrier;
    ServersPositive(w);
    PE.InitialStart(w, y.st);
    PathOverBarriers(PR.Round(w, 0), y, steps, end);
    PE.RoundZero(w, y.st, Actions(steps), end.st);
  }

  /** A lightning round over barriers can always be brought to its end. */
  lemma LightningBarriersFinish(r: LR.Round, tables: seq<seq<Table>>, x: System<LR.Node>, steps: seq<Step>, end: System<LR.Node>)
    returns (all: seq<Step>, last: System<LR.Node>)
    requires r.Valid() && LR.Established(r.w, tables) && r.Rs().Valid()
    requires x.st == LR.Submitted(r, tables) && FreshBarriers(LightningBarrier(r.w.net), x.sync)
    requires IsSystemRun(LightningBarrier(r.w.net), LR.Lightning(r.w.net, r.round), x, steps, end)
    ensures steps <= all && IsSystemRun(LightningBarrier(r.w.net), LR.Lightning(r.w.net, r.round), x, all, last)
    ensures Finished(LR.Lightning(r.w.net, r.round), last.st)
  {
    ServersPositive(r.w);
    assert Matches(LightningBarrier(r.w.net), LR.Lightning(r.w.net, r.round));
    hide IsSystemRun, SendsAsItself, LR.Lightning, LR.Submitted, Sound, Start, World.Valid, LR.Established, Finished;
    var c, p := LightningBarrier(r.w.net), LR.Lightning(r.w.net, r.round);
    LightningSends(r.w.net, r.round);
    LR.LightningSound(r);
    LR.SubmittedStart(r, tables);
    HopZero(p, r.Plan(), x.st);
    all, last := EverySystemRunCanFinish(c, p, r.Plan(), x, steps, end);
  }

  /** So can a path round. */
  lemma PathBarriersFinish(x: PR.Round, y: System<PR.Node>, steps: seq<Step>, end: System<PR.Node>)
    returns (all: seq<Step>, last: System<PR.Node>)
    requires x.Valid() && Start(PR.PathProto(x.w.net, x.r), x.Plan(), y.st)
    requires FreshBarriers(PathBarrier(x.w.net, x.r), y.sync)
    requires IsSystemRun(PathBarrier(x.w.net, x.r), PR.PathProto(x.w.net, x.r), y, steps, end)
    ensures steps <= all && IsSystemRun(PathBarrier(x.w.net, x.r), PR.PathProto(x.w.net, x.r), y, all, last)
    ensures Finished(PR.PathProto(x.w.net, x.r), last.st)
  {
    ServersPositive(x.w);
    assert Matches(PathBarrier(x.w.net, x.r), PR.PathProto(x.w.net, x.r));
    hide IsSystemRun, SendsAsItself, PR.PathProto, Sound, Start, World.Valid, PR.Round.Plan, Finished;
    var c, p := PathBarrier(x.w.net, x.r), PR.PathProto(x.w.net, x.r);
    PathSends(x.w.net, x.r);
    PR.PathSound(x);
    HopZero(p, x.Plan(), y.st);
    if x.r > 0 { FromServers(x, y.st); }
    all, last := EverySystemRunCanFinish(c, p, x.Plan(), y, steps, end);
  }
}
