/** Layered relaying between servers that do not run in lock step (server/server.go with the
    network/synchronization barrier): a server holds messages of a later hop until it has finished
    its own, and sends its outgoing buffers when it moves on. The behaviour of a server on one
    message (`handle`) and at the end of a hop (`finish`) is a parameter. */
module Relay {
  import opened ByteStrings
  import opened Routing

  /** The result of handling one packet: an error, or a new state and maybe a packet to send on. */
  datatype Outcome<+N> = Fail | Accept(node: N, out: Option<Packet>)

  datatype Proto<!N> = Proto(
    servers: nat, hops: nat,
    handle: (nat, nat, N, Packet) -> Outcome<N>,   // server, hop, state, packet
    finish: (nat, nat, N) -> Option<N>)            // None: a message is missing, the server panics

  /** `queued[s]` are the outgoing buffers of server s for its next hop; `wire` is what was sent
      and has not been handled. */
  datatype State<+N> =
    | Panic
    | Run(hop: seq<nat>, node: seq<N>, queued: seq<multiset<Packet>>, wire: multiset<Packet>)

  datatype Action = Deliver(p: Packet) | Advance(s: nat)

  predicate Shaped<N>(p: Proto<N>, st: State<N>) {
    st.Run? && |st.hop| == |st.node| == |st.queued| == p.servers
  }

  /** A packet is handled when its receiver is at its hop. A server advances when every server has
      sent it a stream for its hop and all of them are drained. */
  ghost predicate Enabled<N>(p: Proto<N>, st: State<N>, a: Action) {
    && Shaped(p, st)
    && match a
       case Deliver(q) => q in st.wire && q.dst < p.servers && st.hop[q.dst] == q.hop < p.hops
       case Advance(s) =>
         && s < p.servers && st.hop[s] < p.hops
         && (forall i :: 0 <= i < p.servers ==> st.hop[s] <= st.hop[i])
         && (forall q :: q in st.wire ==> !(q.dst == s && q.hop == st.hop[s]))
  }

  ghost function Apply<N>(p: Proto<N>, st: State<N>, a: Action): State<N>
    requires Enabled(p, st, a)
  {
    match a
    case Deliver(q) =>
      (match p.handle(q.dst, q.hop, st.node[q.dst], q)
       case Fail => Panic
       case Accept(n, out) =>
         Run(st.hop, st.node[q.dst := n],
             if out.Some? then st.queued[q.dst := st.queued[q.dst] + multiset{out.value}] else st.queued,
             st.wire - multiset{q}))
    case Advance(s) =>
      (match p.finish(s, st.hop[s], st.node[s])
       case None => Panic
       case Some(n) =>
         Run(st.hop[s := st.hop[s] + 1], st.node[s := n], st.queued[s := multiset{}], st.wire + st.queued[s]))
  }

  /** `acts` is a run from `st` to `end`: any interleaving the barriers allow. */
  ghost predicate IsRun<N(!new)>(p: Proto<N>, st: State<N>, acts: seq<Action>, end: State<N>)
    decreases |acts|
  {
    if acts == [] then st == end
    else Enabled(p, st, acts[0]) && IsRun(p, Apply(p, st, acts[0]), acts[1..], end)
  }

  predicate Finished<N>(p: Proto<N>, st: State<N>) {
    Shaped(p, st) && forall i :: 0 <= i < p.servers ==> st.hop[i] == p.hops
  }

  // ----- what is expected of a run

  /** `ok(s, j, D, n)` describes the state n of server s in hop j when it has handled exactly the
      packets of the clients in D. */
  datatype Plan<!N> = Plan(r: Routes, ok: (nat, nat, set<nat>, N) -> bool)

  /** Handling client c's packet gives c's next packet and a state that accounts for c. */
  ghost predicate HandlesClient<N(!new)>(p: Proto<N>, plan: Plan<N>, c: nat, j: nat, D: set<nat>, n: N)
    requires plan.r.Valid() && c < |plan.r.pkt| && j < plan.r.hops
  {
    var q := plan.r.pkt[c][j];
    match p.handle(q.dst, j, n, q)
    case Fail => false
    case Accept(n', out) =>
      && plan.ok(q.dst, j, D + {c}, n')
      && out == if j + 1 < plan.r.hops then Some(plan.r.pkt[c][j + 1]) else None
  }

  ghost predicate Handles<N(!new)>(p: Proto<N>, plan: Plan<N>)
    requires plan.r.Valid()
  {
    forall c: nat, j: nat, D: set<nat>, n: N ::
      c < |plan.r.pkt| && j < plan.r.hops && c !in D && D <= plan.r.At(plan.r.pkt[c][j].dst, j)
      && plan.ok(plan.r.pkt[c][j].dst, j, D, n)
      ==> HandlesClient(p, plan, c, j, D, n)
  }

  ghost predicate FinishesHop<N(!new)>(p: Proto<N>, plan: Plan<N>, s: nat, j: nat, n: N) {
    p.finish(s, j, n).Some? && plan.ok(s, j + 1, {}, p.finish(s, j, n).value)
  }

  ghost predicate Finishes<N(!new)>(p: Proto<N>, plan: Plan<N>)
    requires plan.r.Valid()
  {
    forall s: nat, j: nat, n: N :: s < plan.r.servers && j < plan.r.hops && plan.ok(s, j, plan.r.At(s, j), n) ==>
      FinishesHop(p, plan, s, j, n)
  }

  ghost predicate Sound<N(!new)>(p: Proto<N>, plan: Plan<N>) {
    && plan.r.servers == p.servers && plan.r.hops == p.hops
    && plan.r.Valid() && plan.r.Distinct() && Handles(p, plan) && Finishes(p, plan)
  }

  ghost function FirstPackets(r: Routes): set<Packet>
    requires r.Valid() && r.hops > 0
  {
    set c: nat | c < |r.pkt| :: r.pkt[c][0]
  }

  ghost predicate Start<N>(p: Proto<N>, plan: Plan<N>, st: State<N>) {
    && Shaped(p, st) && plan.r.Valid() && plan.r.hops > 0
    && (forall s :: 0 <= s < p.servers ==>
         st.hop[s] == 0 && st.queued[s] == multiset{} && plan.ok(s, 0, {}, st.node[s]))
    && st.wire == multiset(FirstPackets(plan.r))
  }

  // ----- the invariant of every run

  ghost predicate NodeOk<N>(plan: Plan<N>, g: Progress, s: nat, n: N)
    requires g.For(plan.r) && s < |g.hop|
  {
    plan.ok(s, g.hop[s], if g.hop[s] < plan.r.hops then g.Done(plan.r, s) else {}, n)
  }

  /** `g` explains the state: every packet of every client is exactly where `g` says. */
  ghost predicate Inv<N(!new)>(p: Proto<N>, plan: Plan<N>, st: State<N>, g: Progress) {
    && Shaped(p, st) && plan.r.servers == p.servers && plan.r.hops == p.hops
    && g.For(plan.r) && g.InStep(plan.r) && g.Close() && plan.r.Distinct()
    && st.hop == g.hop
    && st.wire == multiset(g.Wire(plan.r))
    && (forall s :: 0 <= s < p.servers ==> st.queued[s] == multiset(g.Queue(plan.r, s)))
    && (forall s :: 0 <= s < p.servers ==> NodeOk(plan, g, s, st.node[s]))
  }

  /** The number of steps behind a state; every action adds one. */
  ghost function Steps(g: Progress): nat {
    SeqSum(g.hop) + SeqSum(g.prog)
  }

  ghost function SeqSum(a: seq<nat>): nat {
    if a == [] then 0 else a[0] + SeqSum(a[1..])
  }

  lemma {:induction false} SumUpdate(a: seq<nat>, i: nat, v: nat)
    requires i < |a|
    ensures SeqSum(a[i := v]) == SeqSum(a) - a[i] + v
  {
    if i == 0 {
      assert a[0 := v][1..] == a[1..];
    } else {
      assert a[i := v][1..] == a[1..][i - 1 := v];
      SumUpdate(a[1..], i - 1, v);
    }
  }

  lemma {:induction false} SumBound(a: seq<nat>, bound: nat)
    requires forall i :: 0 <= i < |a| ==> a[i] <= bound
    ensures SeqSum(a) <= |a| * bound
  {
    if a != [] {
      SumBound(a[1..], bound);
      assert |a| * bound == (|a| - 1) * bound + bound;
    }
  }

  lemma StartInv<N(!new)>(p: Proto<N>, plan: Plan<N>, st: State<N>) returns (g: Progress)
    requires Sound(p, plan) && Start(p, plan, st)
    ensures Inv(p, plan, st, g)
  {
    hide Handles, Finishes, SeqSum;
    g := Progress(st.hop, seq<nat>(|plan.r.pkt|, _ => 0));
    var first := FirstPackets(plan.r);
    forall q | q in first
      ensures q in g.Wire(plan.r)
    {
      var c: nat :| c < |plan.r.pkt| && q == plan.r.pkt[c][0];
      assert g.OnWire(plan.r, c) && q == plan.r.pkt[c][g.prog[c]];
    }
    assert g.Wire(plan.r) == first;
    forall s | 0 <= s < p.servers
      ensures g.Queue(plan.r, s) == {} && g.Done(plan.r, s) == {}
    {}
  }

  lemma DeliverKeepsInv<N(!new)>(p: Proto<N>, plan: Plan<N>, st: State<N>, g: Progress, q: Packet) returns (g': Progress)
    requires Sound(p, plan) && Inv(p, plan, st, g) && Enabled(p, st, Deliver(q))
    ensures Inv(p, plan, Apply(p, st, Deliver(q)), g') && Steps(g') == Steps(g) + 1
  {
    hide Sound, NodeOk, SeqSum, Progress.InStep, Progress.Close, Routes.Distinct, Progress.Queue, Progress.Wire, Progress.OnWire;
    var c := Owner(plan.r, g, q);
    g' := g.Handled(c);
    SumUpdate(g.prog, c, g.prog[c] + 1);
    HandledWire(plan.r, g, c);
    HandledInStep(plan.r, g, c);
    AcceptedNode(p, plan, g, c, st.node[q.dst]);
    SameHopsClose(g, g');
    var o := p.handle(q.dst, q.hop, st.node[q.dst], q);
    DeliveredQueues(plan.r, g, c, st.queued);
    DeliveredNodes(plan, g, c, st.node, o.node, st.node[q.dst := o.node]);
  }

  lemma Owner(r: Routes, g: Progress, q: Packet) returns (c: nat)
    requires g.For(r) && g.InStep(r) && r.Distinct() && q in g.Wire(r) && g.hop[q.dst] == q.hop
    ensures Ready(r, g, c) && c < |g.prog| && g.prog[c] < r.hops && q == r.pkt[c][g.prog[c]]
  {
    hide Progress.InStep, Routes.Distinct;
    c :| c < |g.prog| && g.OnWire(r, c) && q == r.pkt[c][g.prog[c]];
  }

  ghost function QueuedAfter(r: Routes, g: Progress, c: nat, queued: seq<multiset<Packet>>): (q: seq<multiset<Packet>>)
    requires Ready(r, g, c) && |queued| == r.servers
    ensures |q| == r.servers
  {
    var j, t := g.prog[c], r.pkt[c][g.prog[c]].dst;
    if j + 1 < r.hops then queued[t := queued[t] + multiset{r.pkt[c][j + 1]}] else queued
  }

  lemma DeliveredQueues(r: Routes, g: Progress, c: nat, queued: seq<multiset<Packet>>)
    requires Ready(r, g, c) && |queued| == r.servers && g.Handled(c).For(r)
    requires forall s :: 0 <= s < r.servers ==> queued[s] == multiset(g.Queue(r, s))
    ensures forall s :: 0 <= s < r.servers ==>
              QueuedAfter(r, g, c, queued)[s] == multiset(g.Handled(c).Queue(r, s))
  {
    hide Progress.InStep, Routes.Distinct, Progress.Queue, Progress.OnWire;
    forall s | 0 <= s < r.servers { HandledQueue(r, g, c, s); }
  }

  lemma DeliveredNodes<N(!new)>(plan: Plan<N>, g: Progress, c: nat, node: seq<N>, n: N, node': seq<N>)
    requires Ready(plan.r, g, c) && |node| == plan.r.servers && g.Handled(c).For(plan.r)
    requires node' == node[plan.r.pkt[c][g.prog[c]].dst := n]
    requires forall s :: 0 <= s < plan.r.servers ==> NodeOk(plan, g, s, node[s])
    requires NodeOk(plan, g.Handled(c), plan.r.pkt[c][g.prog[c]].dst, n)
    ensures forall s :: 0 <= s < plan.r.servers ==> NodeOk(plan, g.Handled(c), s, node'[s])
  {
    hide Progress.InStep, Routes.Distinct, NodeOk;
    forall s | 0 <= s < plan.r.servers && s != plan.r.pkt[c][g.prog[c]].dst
      ensures NodeOk(plan, g.Handled(c), s, node[s])
    {
      OtherNode(plan, g, c, s, node[s]);
    }
  }

  lemma SameHopsClose(g: Progress, g': Progress)
    requires g.Close() && g.hop == g'.hop
    ensures g'.Close()
  {}

  lemma AcceptedNode<N(!new)>(p: Proto<N>, plan: Plan<N>, g: Progress, c: nat, n: N)
    requires Sound(p, plan) && Ready(plan.r, g, c) && NodeOk(plan, g, plan.r.pkt[c][g.prog[c]].dst, n)
    ensures var q := plan.r.pkt[c][g.prog[c]];
            var o := p.handle(q.dst, q.hop, n, q);
            && g.Handled(c).For(plan.r) && o.Accept? && NodeOk(plan, g.Handled(c), q.dst, o.node)
            && o.out == if g.prog[c] + 1 < plan.r.hops then Some(plan.r.pkt[c][g.prog[c] + 1]) else None
  {
    hide Finishes, Progress.InStep, Routes.Distinct;
    var j, q := g.prog[c], plan.r.pkt[c][g.prog[c]];
    HandledDone(plan.r, g, c, q.dst);
    assert HandlesClient(p, plan, c, j, g.Done(plan.r, q.dst), n);
  }

  lemma OtherNode<N(!new)>(plan: Plan<N>, g: Progress, c: nat, s: nat, n: N)
    requires Ready(plan.r, g, c) && s < plan.r.servers && s != plan.r.pkt[c][g.prog[c]].dst
    requires NodeOk(plan, g, s, n)
    ensures g.Handled(c).For(plan.r) && NodeOk(plan, g.Handled(c), s, n)
  {
    hide Progress.InStep, Routes.Distinct;
    if g.hop[s] < plan.r.hops {
      HandledDone(plan.r, g, c, s);
      assert g.Handled(c).Done(plan.r, s) == g.Done(plan.r, s);
    }
  }

  lemma AdvanceKeepsInv<N(!new)>(p: Proto<N>, plan: Plan<N>, st: State<N>, g: Progress, s: nat)
    requires Sound(p, plan) && Inv(p, plan, st, g) && Enabled(p, st, Advance(s))
    ensures s < |g.hop| && Inv(p, plan, Apply(p, st, Advance(s)), g.Advanced(s)) && Steps(g.Advanced(s)) == Steps(g) + 1
  {
    hide SeqSum;
    hide Handles, Finishes, Progress.InStep, Progress.Close, Routes.Distinct, NodeOk, Progress.Queue, Progress.Wire;
    var r, g' := plan.r, g.Advanced(s);
    assert MayAdvance(r, g, s);
    SumUpdate(g.hop, s, g.hop[s] + 1);
    AdvancedSets(r, g, s);
    AdvancedInStep(r, g, s);
    FinishedNode(p, plan, g, s, st.node[s]);
    var st' := Apply(p, st, Advance(s));
    forall i | 0 <= i < p.servers
      ensures st'.queued[i] == multiset(g'.Queue(r, i)) && NodeOk(plan, g', i, st'.node[i])
    {
      if i != s { UntouchedNode(plan, g, s, i, st.node[i]); }
    }
  }

  lemma FinishedNode<N(!new)>(p: Proto<N>, plan: Plan<N>, g: Progress, s: nat, n: N)
    requires Sound(p, plan) && MayAdvance(plan.r, g, s) && NodeOk(plan, g, s, n)
    ensures p.finish(s, g.hop[s], n).Some?
    ensures g.Advanced(s).For(plan.r) && NodeOk(plan, g.Advanced(s), s, p.finish(s, g.hop[s], n).value)
  {
    hide Handles;
    Drained(plan.r, g, s);
    AdvancedSets(plan.r, g, s);
    assert FinishesHop(p, plan, s, g.hop[s], n);
  }

  lemma UntouchedNode<N(!new)>(plan: Plan<N>, g: Progress, s: nat, i: nat, n: N)
    requires MayAdvance(plan.r, g, s) && i < plan.r.servers && i != s && NodeOk(plan, g, i, n)
    ensures g.Advanced(s).For(plan.r) && NodeOk(plan, g.Advanced(s), i, n)
    ensures g.Advanced(s).Queue(plan.r, i) == g.Queue(plan.r, i)
  {
    hide Progress.InStep, Progress.Close;
    AdvancedOthers(plan.r, g, s, i);
  }

  lemma {:induction false} RunKeepsInv<N(!new)>(p: Proto<N>, plan: Plan<N>, st: State<N>, g: Progress, acts: seq<Action>, end: State<N>)
    returns (g': Progress)
    requires Sound(p, plan) && Inv(p, plan, st, g) && IsRun(p, st, acts, end)
    ensures Inv(p, plan, end, g') && Steps(g') == Steps(g) + |acts|
    decreases |acts|
  {
    hide Sound, Inv, Apply, Enabled, Steps;
    if acts == [] {
      g' := g;
    } else {
      var next := Apply(p, st, acts[0]);
      match acts[0] {
        case Deliver(q) => g' := DeliverKeepsInv(p, plan, st, g, q);
        case Advance(s) => AdvanceKeepsInv(p, plan, st, g, s); g' := g.Advanced(s);
      }
      g' := RunKeepsInv(p, plan, next, g', acts[1..], end);
    }
  }

  /** No run ever panics, and when all servers are through, nothing is left in flight and every
      server's state accounts for every client routed to it. */
  lemma RunsDeliver<N(!new)>(p: Proto<N>, plan: Plan<N>, st: State<N>, acts: seq<Action>, end: State<N>)
    requires Sound(p, plan) && Start(p, plan, st) && IsRun(p, st, acts, end)
    ensures end.Run?
    ensures Finished(p, end) ==>
      && end.wire == multiset{}
      && (forall s :: 0 <= s < p.servers ==> end.queued[s] == multiset{} && plan.ok(s, p.hops, {}, end.node[s]))
  {
    hide Sound, Start, IsRun, Steps;
    var g := StartInv(p, plan, st);
    g := RunKeepsInv(p, plan, st, g, acts, end);
    if Finished(p, end) {
      FinishedProgress(plan.r, g);
      assert forall s :: 0 <= s < p.servers ==> NodeOk(plan, g, s, end.node[s]);
    }
  }

  /** Every run that has not finished can be extended, and no run is longer than one step per
      client and hop and per server and hop: all servers get through, whatever the order. */
  lemma RunsTerminate<N(!new)>(p: Proto<N>, plan: Plan<N>, st: State<N>, acts: seq<Action>, end: State<N>)
    requires Sound(p, plan) && Start(p, plan, st) && IsRun(p, st, acts, end)
    ensures |acts| <= (p.servers + |plan.r.pkt|) * p.hops
    ensures Finished(p, end) || exists a :: Enabled(p, end, a)
  {
    hide Sound, Start, IsRun, Steps, Enabled, Finished, Inv;
    var g := StartInv(p, plan, st);
    g := RunKeepsInv(p, plan, st, g, acts, end);
    InvBound(p, plan, end, g);
    if !Finished(p, end) { var a := NoDeadlock(p, plan, end, g); }
  }

  lemma {:induction false} RunConcat<N(!new)>(p: Proto<N>, st: State<N>, acts: seq<Action>, mid: State<N>, a: Action)
    requires IsRun(p, st, acts, mid) && Enabled(p, mid, a)
    ensures IsRun(p, st, acts + [a], Apply(p, mid, a))
    decreases |acts|
  {
    hide Enabled, Apply;
    if acts == [] {
      assert IsRun(p, Apply(p, mid, a), [], Apply(p, mid, a));
      assert (acts + [a])[1..] == [];
    } else {
      RunConcat(p, Apply(p, st, acts[0]), acts[1..], mid, a);
      assert (acts + [a])[1..] == acts[1..] + [a];
    }
  }

  /** So every run, wherever it stands, is the beginning of a finished one. */
  lemma {:induction false} EveryRunCanFinish<N(!new)>(p: Proto<N>, plan: Plan<N>, st: State<N>, acts: seq<Action>, end: State<N>)
    returns (all: seq<Action>, last: State<N>)
    requires Sound(p, plan) && Start(p, plan, st) && IsRun(p, st, acts, end)
    ensures acts <= all && IsRun(p, st, all, last) && Finished(p, last)
    decreases (p.servers + |plan.r.pkt|) * p.hops - |acts|
  {
    hide Sound, Start, IsRun, Enabled, Finished, Apply;
    RunsTerminate(p, plan, st, acts, end);
    if Finished(p, end) {
      all, last := acts, end;
    } else {
      var a :| Enabled(p, end, a);
      RunConcat(p, st, acts, end, a);
      RunsTerminate(p, plan, st, acts + [a], Apply(p, end, a));
      all, last := EveryRunCanFinish(p, plan, st, acts + [a], Apply(p, end, a));
    }
  }

  /** A server that is through does not change any more, so what it then sends is what it ends with. */
  lemma {:induction false} ThroughStays<N(!new)>(p: Proto<N>, st: State<N>, acts: seq<Action>, end: State<N>, s: nat)
    requires Shaped(p, st) && IsRun(p, st, acts, end) && end.Run? && s < p.servers && st.hop[s] == p.hops
    ensures Shaped(p, end) && end.hop[s] == p.hops && end.node[s] == st.node[s]
    decreases |acts|
  {
    if acts != [] {
      var next := Apply(p, st, acts[0]);
      if next.Panic? {
        PanicStays(p, acts[1..], end);
      } else {
        ThroughStays(p, next, acts[1..], end, s);
      }
    }
  }

  lemma PanicStays<N(!new)>(p: Proto<N>, acts: seq<Action>, end: State<N>)
    requires IsRun(p, Panic, acts, end)
    ensures end.Panic?
  {}

  lemma InvBound<N(!new)>(p: Proto<N>, plan: Plan<N>, st: State<N>, g: Progress)
    requires Sound(p, plan) && Inv(p, plan, st, g)
    ensures Steps(g) <= (p.servers + |plan.r.pkt|) * p.hops
  {
    hide Steps, Handles, Finishes, NodeOk;
    StepsBound(plan.r, g);
  }

  lemma StepsBound(r: Routes, g: Progress)
    requires g.For(r)
    ensures Steps(g) <= (r.servers + |r.pkt|) * r.hops
  {
    SumBound(g.hop, r.hops);
    SumBound(g.prog, r.hops);
    assert (r.servers + |r.pkt|) * r.hops == |g.hop| * r.hops + |g.prog| * r.hops;
  }

  lemma FinishedProgress(r: Routes, g: Progress)
    requires g.For(r) && g.InStep(r) && (forall s :: 0 <= s < r.servers ==> g.hop[s] == r.hops)
    ensures g.Wire(r) == {} && forall s :: 0 <= s < r.servers ==> g.Queue(r, s) == {}
  {
    forall c: nat | c < |g.prog| ensures g.prog[c] == r.hops {
      if g.prog[c] < r.hops { NotPassed(r, g, c); }
    }
  }

  lemma NotPassed(r: Routes, g: Progress, c: nat)
    requires g.For(r) && g.InStep(r) && c < |g.prog| && g.prog[c] < r.hops
    ensures g.hop[r.pkt[c][g.prog[c]].dst] <= g.prog[c]
  {}

  lemma NoDeadlock<N(!new)>(p: Proto<N>, plan: Plan<N>, st: State<N>, g: Progress) returns (a: Action)
    requires Inv(p, plan, st, g) && !Finished(p, st)
    ensures Enabled(p, st, a)
  {
    var s := Slowest(st.hop);
    if q :| q in st.wire && q.dst == s && q.hop == st.hop[s] {
      a := Deliver(q);
    } else {
      a := Advance(s);
    }
  }

  lemma Slowest(hop: seq<nat>) returns (s: nat)
    requires hop != []
    ensures s < |hop| && forall i :: 0 <= i < |hop| ==> hop[s] <= hop[i]
  {
    s := 0;
    for k := 1 to |hop|
      invariant s < |hop| && forall i :: 0 <= i < k ==> hop[s] <= hop[i]
    {
      if hop[k] < hop[s] { s := k; }
    }
  }
}
