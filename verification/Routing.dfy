/** Bookkeeping of packets that travel hop by hop: which packets are on the wire, which still sit in
    a server's outgoing buffers, and which clients a server has handled in its current hop. */
module Routing {
  import opened ByteStrings

  datatype Packet = Packet(hop: nat, src: nat, dst: nat, data: Bytes)

  /** `pkt[c][j]` is client c's packet at hop j. */
  datatype Routes = Routes(servers: nat, hops: nat, pkt: seq<seq<Packet>>) {
    ghost predicate Valid() {
      && (forall c :: 0 <= c < |pkt| ==> |pkt[c]| == hops)
      && (forall c, j :: 0 <= c < |pkt| && 0 <= j < hops ==> pkt[c][j].hop == j && pkt[c][j].dst < servers)
    }

    ghost predicate Distinct()
      requires Valid()
    {
      forall c, d, j :: 0 <= c < |pkt| && 0 <= d < |pkt| && 0 <= j < hops && pkt[c][j] == pkt[d][j] ==> c == d
    }

    /** The clients whose packet goes to server s at hop j. */
    ghost function At(s: nat, j: nat): set<nat>
      requires Valid() && j < hops
    {
      set c: nat | c < |pkt| && pkt[c][j].dst == s
    }
  }

  /** How far everyone is: the current hop of each server, the number of hops behind each client. */
  datatype Progress = Progress(hop: seq<nat>, prog: seq<nat>) {
    ghost predicate For(r: Routes) {
      && r.Valid() && |hop| == r.servers && |prog| == |r.pkt|
      && (forall s :: 0 <= s < |hop| ==> hop[s] <= r.hops)
      && (forall c :: 0 <= c < |prog| ==> prog[c] <= r.hops)
    }

    /** A client's packet goes to a server that has not passed it, and comes from one that has
        reached it. */
    ghost predicate InStep(r: Routes)
      requires For(r)
    {
      && (forall c :: 0 <= c < |prog| && prog[c] < r.hops ==> hop[r.pkt[c][prog[c]].dst] <= prog[c])
      && (forall c :: 0 <= c < |prog| && prog[c] > 0 ==> hop[r.pkt[c][prog[c] - 1].dst] >= prog[c] - 1)
    }

    /** Servers are never more than one hop apart. */
    ghost predicate Close() {
      forall s, i :: 0 <= s < |hop| && 0 <= i < |hop| ==> hop[s] <= hop[i] + 1
    }

    /** Sent and not handled yet. */
    ghost predicate OnWire(r: Routes, c: nat)
      requires For(r)
    {
      c < |prog| && prog[c] < r.hops && (prog[c] > 0 ==> hop[r.pkt[c][prog[c] - 1].dst] >= prog[c])
    }

    /** Produced by server s in its current hop, and not sent yet. */
    ghost predicate Waiting(r: Routes, s: nat, c: nat)
      requires For(r) && s < |hop|
    {
      c < |prog| && prog[c] == hop[s] + 1 < r.hops && r.pkt[c][hop[s]].dst == s
    }

    ghost function Wire(r: Routes): set<Packet>
      requires For(r)
    {
      set c: nat | c < |prog| && OnWire(r, c) :: r.pkt[c][prog[c]]
    }

    ghost function Queue(r: Routes, s: nat): set<Packet>
      requires For(r) && s < |hop|
    {
      set c: nat | c < |prog| && Waiting(r, s, c) :: r.pkt[c][prog[c]]
    }

    /** The clients server s has handled in its current hop. */
    ghost function Done(r: Routes, s: nat): set<nat>
      requires For(r) && s < |hop|
    {
      set c: nat | c < |prog| && prog[c] > hop[s] && r.pkt[c][hop[s]].dst == s
    }

    function Handled(c: nat): Progress
      requires c < |prog|
    {
      this.(prog := prog[c := prog[c] + 1])
    }

    function Advanced(s: nat): Progress
      requires s < |hop|
    {
      this.(hop := hop[s := hop[s] + 1])
    }
  }

  /** Client c's packet is on the wire and its receiver is ready for it. */
  ghost predicate Ready(r: Routes, g: Progress, c: nat) {
    && g.For(r) && g.InStep(r) && r.Distinct()
    && g.OnWire(r, c) && g.hop[r.pkt[c][g.prog[c]].dst] == g.prog[c]
  }

  lemma SameClient(r: Routes, c: nat, j: nat, d: nat, k: nat)
    requires r.Valid() && r.Distinct() && c < |r.pkt| && d < |r.pkt| && j < r.hops && k < r.hops
    ensures r.pkt[c][j] == r.pkt[d][k] ==> c == d && j == k
  {
    assert r.pkt[c][j].hop == j && r.pkt[d][k].hop == k;
  }

  lemma HandledOnWire(r: Routes, g: Progress, c: nat, d: nat)
    requires Ready(r, g, c) && d < |g.prog|
    ensures g.Handled(c).For(r)
    ensures g.Handled(c).OnWire(r, d) <==> d != c && g.OnWire(r, d)
    ensures d != c && g.prog[d] < r.hops ==> r.pkt[d][g.prog[d]] != r.pkt[c][g.prog[c]]
  {
    if g.prog[d] < r.hops { SameClient(r, d, g.prog[d], c, g.prog[c]); }
  }

  lemma HandledWire(r: Routes, g: Progress, c: nat)
    requires Ready(r, g, c)
    ensures g.Handled(c).For(r)
    ensures g.Handled(c).Wire(r) == g.Wire(r) - {r.pkt[c][g.prog[c]]}
  {
    hide Routes.Distinct, Progress.InStep;
    var g', q := g.Handled(c), r.pkt[c][g.prog[c]];
    HandledOnWire(r, g, c, c);
    forall x | x in g.Wire(r) - {q} ensures x in g'.Wire(r) {
      var d: nat :| d < |g.prog| && g.OnWire(r, d) && x == r.pkt[d][g.prog[d]];
      HandledOnWire(r, g, c, d);
      assert x == r.pkt[d][g'.prog[d]];
    }
    forall x | x in g'.Wire(r) ensures x in g.Wire(r) - {q} {
      var d: nat :| d < |g.prog| && g'.OnWire(r, d) && x == r.pkt[d][g'.prog[d]];
      HandledOnWire(r, g, c, d);
      assert x == r.pkt[d][g.prog[d]];
    }
  }

  lemma HandledWaiting(r: Routes, g: Progress, c: nat, s: nat, d: nat)
    requires Ready(r, g, c) && s < r.servers && d < |g.prog|
    ensures g.Handled(c).For(r) && !g.Waiting(r, s, c)
    ensures g.Handled(c).Waiting(r, s, d) <==>
            if d == c then s == r.pkt[c][g.prog[c]].dst && g.prog[c] + 1 < r.hops else g.Waiting(r, s, d)
    ensures d != c && g.prog[d] < r.hops && g.prog[c] + 1 < r.hops ==> r.pkt[d][g.prog[d]] != r.pkt[c][g.prog[c] + 1]
  {
    if g.prog[d] < r.hops && g.prog[c] + 1 < r.hops { SameClient(r, d, g.prog[d], c, g.prog[c] + 1); }
  }

  lemma QueueMember(r: Routes, g: Progress, s: nat, d: nat)
    requires g.For(r) && s < |g.hop| && d < |g.prog| && g.Waiting(r, s, d)
    ensures r.pkt[d][g.prog[d]] in g.Queue(r, s)
  {}

  lemma Queued(r: Routes, g: Progress, s: nat, x: Packet) returns (d: nat)
    requires g.For(r) && s < |g.hop| && x in g.Queue(r, s)
    ensures d < |g.prog| && g.Waiting(r, s, d) && g.prog[d] < r.hops && x == r.pkt[d][g.prog[d]]
  {
    d :| d < |g.prog| && g.Waiting(r, s, d) && x == r.pkt[d][g.prog[d]];
  }

  /** Queued before is still queued, and is not c's next packet. */
  lemma StillQueued(r: Routes, g: Progress, c: nat, s: nat, x: Packet)
    requires Ready(r, g, c) && s < r.servers && x in g.Queue(r, s) && g.Handled(c).For(r)
    ensures x in g.Handled(c).Queue(r, s) && (g.prog[c] + 1 < r.hops ==> x != r.pkt[c][g.prog[c] + 1])
  {
    hide Routes.Distinct, Progress.InStep, Progress.Queue, Progress.Waiting;
    var d := Queued(r, g, s, x);
    HandledWaiting(r, g, c, s, d);
    HandledWaiting(r, g, c, s, c);
    QueueMember(r, g.Handled(c), s, d);
  }

  /** Queued afterwards was queued before or is c's next packet. */
  lemma NewlyQueued(r: Routes, g: Progress, c: nat, s: nat, x: Packet)
    requires Ready(r, g, c) && s < r.servers && g.Handled(c).For(r) && x in g.Handled(c).Queue(r, s)
    ensures var j := g.prog[c];
            x in g.Queue(r, s) || (s == r.pkt[c][j].dst && j + 1 < r.hops && x == r.pkt[c][j + 1])
  {
    hide Routes.Distinct, Progress.InStep, Progress.Queue, Progress.Waiting;
    var d := Queued(r, g.Handled(c), s, x);
    HandledWaiting(r, g, c, s, d);
    if d != c { QueueMember(r, g, s, d); }
  }

  lemma HandledQueue(r: Routes, g: Progress, c: nat, s: nat)
    requires Ready(r, g, c) && s < r.servers
    ensures g.Handled(c).For(r)
    ensures var j := g.prog[c];
            && g.Handled(c).Queue(r, s) ==
               g.Queue(r, s) + (if s == r.pkt[c][j].dst && j + 1 < r.hops then {r.pkt[c][j + 1]} else {})
            && (j + 1 < r.hops ==> r.pkt[c][j + 1] !in g.Queue(r, s))
  {
    hide Routes.Distinct, Progress.InStep, Progress.Queue, Progress.Waiting;
    var g', j := g.Handled(c), g.prog[c];
    HandledWaiting(r, g, c, s, c);
    forall x | x in g.Queue(r, s) ensures x in g'.Queue(r, s) && (j + 1 < r.hops ==> x != r.pkt[c][j + 1]) {
      StillQueued(r, g, c, s, x);
    }
    forall x | x in g'.Queue(r, s)
      ensures x in g.Queue(r, s) || (s == r.pkt[c][j].dst && j + 1 < r.hops && x == r.pkt[c][j + 1])
    {
      NewlyQueued(r, g, c, s, x);
    }
    if s == r.pkt[c][j].dst && j + 1 < r.hops { QueueMember(r, g', s, c); }
  }

  lemma HandledDone(r: Routes, g: Progress, c: nat, s: nat)
    requires Ready(r, g, c) && s < r.servers && g.hop[s] < r.hops
    ensures g.Handled(c).For(r)
    ensures g.Handled(c).Done(r, s) == g.Done(r, s) + (if s == r.pkt[c][g.prog[c]].dst then {c} else {})
    ensures s == r.pkt[c][g.prog[c]].dst ==> c !in g.Done(r, s) && g.Done(r, s) <= r.At(s, g.hop[s])
  {}

  lemma StaysInStep(r: Routes, g: Progress, c: nat, d: nat)
    requires Ready(r, g, c) && g.Close() && d < |g.prog| && g.Handled(c).For(r)
    ensures var k := g.Handled(c).prog[d];
            && (k < r.hops ==> g.hop[r.pkt[d][k].dst] <= k)
            && (k > 0 ==> g.hop[r.pkt[d][k - 1].dst] >= k - 1)
  {
    hide Routes.Distinct;
    var j := g.prog[c];
    if d == c && j + 1 < r.hops { assert g.hop[r.pkt[c][j + 1].dst] <= g.hop[r.pkt[c][j].dst] + 1; }
  }

  lemma HandledInStep(r: Routes, g: Progress, c: nat)
    requires Ready(r, g, c) && g.Close()
    ensures g.Handled(c).For(r) && g.Handled(c).InStep(r)
  {
    HandledOnWire(r, g, c, c);
    hide Routes.Distinct, Progress.OnWire, Progress.Close, Ready, Routes.Valid;
    forall d: nat | d < |g.prog|
      ensures var k := g.Handled(c).prog[d];
              (k < r.hops ==> g.hop[r.pkt[d][k].dst] <= k) && (k > 0 ==> g.hop[r.pkt[d][k - 1].dst] >= k - 1)
    {
      StaysInStep(r, g, c, d);
    }
  }

  /** Server s may move on: nobody is behind it, and nothing on the wire is for it at its hop. */
  ghost predicate MayAdvance(r: Routes, g: Progress, s: nat) {
    && g.For(r) && g.InStep(r) && g.Close()
    && s < r.servers && g.hop[s] < r.hops
    && (forall i :: 0 <= i < r.servers ==> g.hop[s] <= g.hop[i])
    && (forall q :: q in g.Wire(r) ==> !(q.dst == s && q.hop == g.hop[s]))
  }

  lemma WireMember(r: Routes, g: Progress, c: nat)
    requires g.For(r) && g.OnWire(r, c)
    ensures r.pkt[c][g.prog[c]] in g.Wire(r)
  {}

  /** Then it has handled every packet addressed to it at this hop: nothing is still behind. */
  lemma Drained(r: Routes, g: Progress, s: nat)
    requires MayAdvance(r, g, s)
    ensures g.Done(r, s) == r.At(s, g.hop[s])
  {
    forall c: nat | c < |g.prog| && r.pkt[c][g.hop[s]].dst == s
      ensures g.prog[c] > g.hop[s]
    {
      NotBehind(r, g, s, c);
    }
  }

  /** A client whose packet goes to s at this hop is past it: otherwise the packet would be on the wire. */
  lemma NotBehind(r: Routes, g: Progress, s: nat, c: nat)
    requires MayAdvance(r, g, s) && c < |g.prog| && r.pkt[c][g.hop[s]].dst == s
    ensures g.prog[c] > g.hop[s]
  {
    if g.prog[c] < r.hops && g.OnWire(r, c) { WireMember(r, g, c); }
  }

  lemma AdvancedOnWire(r: Routes, g: Progress, s: nat, d: nat)
    requires MayAdvance(r, g, s) && d < |g.prog|
    ensures g.Advanced(s).For(r)
    ensures g.Advanced(s).OnWire(r, d) <==> g.OnWire(r, d) || g.Waiting(r, s, d)
    ensures !(g.OnWire(r, d) && g.Waiting(r, s, d))
    ensures !g.Advanced(s).Waiting(r, s, d)
    ensures g.hop[s] + 1 < r.hops ==> d !in g.Advanced(s).Done(r, s)
  {
    if g.prog[d] < r.hops { assert g.hop[s] <= g.hop[r.pkt[d][g.prog[d]].dst]; }
  }

  lemma AdvancedSets(r: Routes, g: Progress, s: nat)
    requires MayAdvance(r, g, s) && r.Distinct()
    ensures g.Advanced(s).For(r)
    ensures g.Advanced(s).Wire(r) == g.Wire(r) + g.Queue(r, s)
    ensures g.Wire(r) !! g.Queue(r, s)
    ensures g.Advanced(s).Queue(r, s) == {}
    ensures g.hop[s] + 1 < r.hops ==> g.Advanced(s).Done(r, s) == {}
  {
    var g' := g.Advanced(s);
    forall d: nat | d < |g.prog|
      ensures g'.For(r) && (g'.OnWire(r, d) <==> g.OnWire(r, d) || g.Waiting(r, s, d))
      ensures !(g.OnWire(r, d) && g.Waiting(r, s, d)) && !g'.Waiting(r, s, d)
      ensures g.hop[s] + 1 < r.hops ==> d !in g'.Done(r, s)
    {
      AdvancedOnWire(r, g, s, d);
    }
    AdvancedWire(r, g, s);
  }

  lemma AdvancedWire(r: Routes, g: Progress, s: nat)
    requires MayAdvance(r, g, s) && r.Distinct() && g.Advanced(s).For(r)
    requires forall d: nat :: d < |g.prog| ==>
      && (g.Advanced(s).OnWire(r, d) <==> g.OnWire(r, d) || g.Waiting(r, s, d))
      && !(g.OnWire(r, d) && g.Waiting(r, s, d))
    ensures g.Advanced(s).Wire(r) == g.Wire(r) + g.Queue(r, s)
    ensures g.Wire(r) !! g.Queue(r, s)
  {
    hide Progress.Wire, Progress.Queue, Progress.InStep;
    var g' := g.Advanced(s);
    forall x ensures x in g'.Wire(r) <==> x in g.Wire(r) || x in g.Queue(r, s) {
      AdvancedMember(r, g, s, x);
    }
    WireApart(r, g, s);
  }

  lemma AdvancedMember(r: Routes, g: Progress, s: nat, x: Packet)
    requires g.For(r) && s < |g.hop| && g.hop[s] < r.hops && g.Advanced(s).For(r)
    requires forall d: nat :: d < |g.prog| ==> (g.Advanced(s).OnWire(r, d) <==> g.OnWire(r, d) || g.Waiting(r, s, d))
    ensures x in g.Advanced(s).Wire(r) <==> x in g.Wire(r) || x in g.Queue(r, s)
  {
    var g' := g.Advanced(s);
    if x in g'.Wire(r) {
      var d: nat :| d < |g.prog| && g'.OnWire(r, d) && x == r.pkt[d][g'.prog[d]];
      assert g.OnWire(r, d) || g.Waiting(r, s, d);
    }
    if x in g.Wire(r) {
      var d: nat :| d < |g.prog| && g.OnWire(r, d) && x == r.pkt[d][g.prog[d]];
      assert g'.OnWire(r, d);
    }
    if x in g.Queue(r, s) {
      var d: nat :| d < |g.prog| && g.Waiting(r, s, d) && x == r.pkt[d][g.prog[d]];
      assert g'.OnWire(r, d);
    }
  }

  /** A packet is on the wire or queued, not both. */
  lemma WireApart(r: Routes, g: Progress, s: nat)
    requires g.For(r) && r.Distinct() && s < |g.hop|
    requires forall d: nat :: d < |g.prog| ==> !(g.OnWire(r, d) && g.Waiting(r, s, d))
    ensures g.Wire(r) !! g.Queue(r, s)
  {
    forall d: nat, e: nat | d < |g.prog| && e < |g.prog| && g.OnWire(r, d) && g.Waiting(r, s, e)
      ensures r.pkt[d][g.prog[d]] != r.pkt[e][g.prog[e]]
    {
      SameClient(r, d, g.prog[d], e, g.prog[e]);
    }
    hide Routes.Distinct;
  }

  lemma AdvancedOthers(r: Routes, g: Progress, s: nat, i: nat)
    requires MayAdvance(r, g, s) && i < r.servers && i != s
    ensures g.Advanced(s).For(r)
    ensures g.Advanced(s).Queue(r, i) == g.Queue(r, i)
    ensures g.hop[i] < r.hops ==> g.Advanced(s).Done(r, i) == g.Done(r, i)
  {}

  lemma AdvancedInStep(r: Routes, g: Progress, s: nat)
    requires MayAdvance(r, g, s)
    ensures g.Advanced(s).For(r) && g.Advanced(s).InStep(r) && g.Advanced(s).Close()
  {}
}
