/** Servers with their barriers (server/pool.go, network/synchronization/synchronization.go): every
    server runs the interleaved steps of its own barrier; the handler of a sender's stream can start
    when the sender has sent it, hands out the packets between its mark and its Done, and calls Done
    when they are all handled; the Trigger moves the server on. Every run of this system is a run of
    the relay: a server advances only when no server is behind it and nothing is left for it. */
module BarrierSystem {
  import opened ByteStrings
  import B = Barrier
  import opened Routing
  import opened Relay

  /** The barriers, and everything else as in the relay. */
  datatype System<+N> = System(sync: seq<B.Sync>, st: State<N>)

  /** `s` is the server, `i` the sender whose stream the handler reads. */
  datatype Step = Pass(s: nat, i: nat) | Mark(s: nat, i: nat) | Handle(q: Packet) | Done(s: nat, i: nat) | Trigger(s: nat)

  /** One phase per hop, and one more at the end. */
  ghost predicate Matches<N>(c: B.Config, p: Proto<N>) {
    c.Valid() && c.servers == p.servers && c.Last() == p.hops
  }

  /** Packets handed on carry the next hop and the server that sends them. */
  ghost predicate SendsAsItself<N(!new)>(p: Proto<N>) {
    forall s: nat, j: nat, n: N, q: Packet ::
      p.handle(s, j, n, q).Accept? && p.handle(s, j, n, q).out.Some? ==>
      p.handle(s, j, n, q).out.value.hop == j + 1 && p.handle(s, j, n, q).out.value.src == s
  }

  ghost predicate StreamEmpty(wire: multiset<Packet>, s: nat, i: nat, k: nat) {
    forall q :: q in wire ==> !(q.dst == s && q.src == i && q.hop == k)
  }

  ghost predicate NothingFor(wire: multiset<Packet>, s: nat, k: nat) {
    forall q :: q in wire ==> !(q.dst == s && q.hop == k)
  }

  /** The guard of every step is what the code waits for. In a phase fed by clients there are no
      streams: the clients' messages are handled as they come, and the coordinator starts the round
      when they are through. */
  ghost predicate CanStep<N>(c: B.Config, p: Proto<N>, x: System<N>, a: Step)
    requires Matches(c, p)
  {
    && x.st.Run? && |x.sync| == c.servers
    && match a
       case Pass(s, i) =>
         && s < c.servers && i < c.servers && B.Enabled(c, x.sync[s], B.PassSync(i))
         && x.sync[i].phase >= x.sync[s].handlers[i].k
       case Mark(s, i) => s < c.servers && B.Enabled(c, x.sync[s], B.Mark(i))
       case Handle(q) =>
         && q in x.st.wire && q.dst < c.servers
         && if q.hop < c.first then x.sync[q.dst].phase == q.hop
            else q.src < |x.sync[q.dst].handlers| && x.sync[q.dst].handlers[q.src] == B.Handler(q.hop, B.Marked)
       case Done(s, i) =>
         && s < c.servers && B.Enabled(c, x.sync[s], B.Done(i))
         && StreamEmpty(x.st.wire, s, i, x.sync[s].handlers[i].k)
       case Trigger(s) =>
         && s < c.servers && B.Enabled(c, x.sync[s], B.Trigger)
         && (x.sync[s].phase < c.first ==> NothingFor(x.st.wire, s, x.sync[s].phase))
  }

  /** What the relay does in this step, if anything. */
  function ActionOf(a: Step): seq<Action> {
    match a
    case Handle(q) => [Deliver(q)]
    case Trigger(s) => [Advance(s)]
    case _ => []
  }

  /** The barrier's step that this one is, at which server. */
  ghost function SyncAfter<N>(c: B.Config, p: Proto<N>, x: System<N>, a: Step): seq<B.Sync>
    requires Matches(c, p) && CanStep(c, p, x, a)
  {
    match a
    case Pass(s, i) => x.sync[s := B.Next(c, x.sync[s], B.PassSync(i))]
    case Mark(s, i) => x.sync[s := B.Next(c, x.sync[s], B.Mark(i))]
    case Done(s, i) => x.sync[s := B.Next(c, x.sync[s], B.Done(i))]
    case Trigger(s) => x.sync[s := B.Next(c, x.sync[s], B.Trigger)]
    case Handle(_) => x.sync
  }

  /** A packet handled or a server moving on where the relay does not allow it counts as a panic. */
  ghost function StateAfter<N>(p: Proto<N>, st: State<N>, a: Step): State<N> {
    var acts := ActionOf(a);
    if acts == [] then st
    else if Enabled(p, st, acts[0]) then Apply(p, st, acts[0]) else Panic
  }

  ghost function Next<N>(c: B.Config, p: Proto<N>, x: System<N>, a: Step): System<N>
    requires Matches(c, p) && CanStep(c, p, x, a)
  {
    System(SyncAfter(c, p, x, a), StateAfter(p, x.st, a))
  }

  ghost predicate IsSystemRun<N(!new)>(c: B.Config, p: Proto<N>, x: System<N>, steps: seq<Step>, end: System<N>)
    requires Matches(c, p)
    decreases |steps|
  {
    if steps == [] then x == end
    else CanStep(c, p, x, steps[0]) && IsSystemRun(c, p, Next(c, p, x, steps[0]), steps[1..], end)
  }

  function Actions(steps: seq<Step>): seq<Action> {
    if steps == [] then [] else ActionOf(steps[0]) + Actions(steps[1..])
  }

  // ----- the invariant

  /** Server s and the sender i: past Sync the sender has sent the stream; past Done it is used up. */
  ghost predicate PairInv(c: B.Config, sync: seq<B.Sync>, wire: multiset<Packet>, s: nat, i: nat)
    requires c.Valid() && s < |sync| && i < |sync| && i < |sync[s].handlers|
  {
    var h := sync[s].handlers[i];
    && (h.pc != B.Before ==> sync[i].phase >= h.k)
    && (sync[s].phase >= c.first && h.k == sync[s].phase + 1 ==>
         sync[i].phase >= sync[s].phase && StreamEmpty(wire, s, i, sync[s].phase))
  }

  /** A packet on the wire was sent by a server that has reached its hop, unless clients sent it. */
  ghost predicate PacketInv(c: B.Config, sync: seq<B.Sync>, q: Packet) {
    q.hop >= c.first ==> q.src < |sync| && sync[q.src].phase >= q.hop
  }

  ghost predicate SyncsInv(c: B.Config, sync: seq<B.Sync>)
    requires c.Valid()
  {
    |sync| == c.servers && forall s :: 0 <= s < c.servers ==> B.Inv(c, sync[s]) && |sync[s].handlers| == c.servers
  }

  ghost predicate QueueInv<N>(st: State<N>)
    requires st.Run? && |st.hop| == |st.queued|
  {
    forall s, q :: 0 <= s < |st.queued| && q in st.queued[s] ==> q.hop == st.hop[s] + 1 && q.src == s
  }

  ghost predicate RunInv<N>(c: B.Config, p: Proto<N>, x: System<N>)
    requires Matches(c, p) && x.st.Run? && SyncsInv(c, x.sync)
  {
    && Shaped(p, x.st)
    && (forall s :: 0 <= s < c.servers ==> x.st.hop[s] == x.sync[s].phase)
    && (forall s, i :: 0 <= s < c.servers && 0 <= i < c.servers ==> PairInv(c, x.sync, x.st.wire, s, i))
    && (forall q :: q in x.st.wire ==> PacketInv(c, x.sync, q))
    && QueueInv(x.st)
  }

  ghost predicate SysInv<N>(c: B.Config, p: Proto<N>, x: System<N>)
    requires Matches(c, p)
  {
    SyncsInv(c, x.sync) && (x.st.Run? ==> RunInv(c, p, x))
  }

  // ----- the guard

  /** A server whose barrier triggers satisfies the relay's guard: every server has reached its hop, and
      nothing on the wire is for it at this hop. */
  lemma TriggerMeansGuard<N>(c: B.Config, p: Proto<N>, x: System<N>, s: nat)
    requires Matches(c, p) && SysInv(c, p, x) && CanStep(c, p, x, Trigger(s))
    ensures Enabled(p, x.st, Advance(s))
  {
    hide B.Inv;
    var b := x.sync[s];
    BarrierPhase(c, b);
    if b.phase >= c.first {
      B.AllDone(c, b);
      forall i | 0 <= i < c.servers ensures x.st.hop[s] <= x.st.hop[i] && StreamEmpty(x.st.wire, s, i, b.phase) {
        assert PairInv(c, x.sync, x.st.wire, s, i);
      }
      forall q | q in x.st.wire ensures !(q.dst == s && q.hop == b.phase) {
        assert PacketInv(c, x.sync, q);
      }
    }
  }

  lemma BarrierPhase(c: B.Config, b: B.Sync)
    requires c.Valid() && B.Inv(c, b) && b.pending > 0
    ensures b.phase < c.Last()
  {
    if b.phase >= c.first { B.AllDone(c, b); }
  }

  /** A handler hands out packets only of the hop its server is at. */
  lemma HandleMeansGuard<N>(c: B.Config, p: Proto<N>, x: System<N>, q: Packet)
    requires Matches(c, p) && SysInv(c, p, x) && CanStep(c, p, x, Handle(q))
    ensures Enabled(p, x.st, Deliver(q))
  {
    var b := x.sync[q.dst];
    if q.hop >= c.first { HandlerPhase(c, b, q.src); }
  }

  lemma HandlerPhase(c: B.Config, b: B.Sync, i: nat)
    requires c.Valid() && B.Inv(c, b) && i < |b.handlers| && b.handlers[i].pc != B.Before
    ensures b.handlers[i].k == b.phase < c.Last() && b.phase >= c.first
  {
    assert b.phase >= c.first ==> B.HandlerInv(c, b, b.handlers[i]);
  }

  lemma StepMeansGuard<N>(c: B.Config, p: Proto<N>, x: System<N>, a: Step)
    requires Matches(c, p) && SysInv(c, p, x) && CanStep(c, p, x, a)
    ensures ActionOf(a) != [] ==> Enabled(p, x.st, ActionOf(a)[0])
  {
    hide SysInv, CanStep, Enabled;
    match a {
      case Handle(q) => HandleMeansGuard(c, p, x, q);
      case Trigger(s) => TriggerMeansGuard(c, p, x, s);
      case _ =>
    }
  }

  // ----- every step keeps the invariant

  /** What a step of one barrier does to its phase and its handlers. */
  lemma BarrierStep(c: B.Config, b: B.Sync, a: B.Step)
    requires c.Valid() && B.Inv(c, b) && B.Enabled(c, b, a)
    ensures B.Inv(c, B.Next(c, b, a)) && |B.Next(c, b, a).handlers| == |b.handlers| == c.servers
    ensures B.Next(c, b, a).phase == b.phase + if a == B.Trigger then 1 else 0
  {
    B.StepKeeps(c, b, a);
    InvSize(c, b);
    InvSize(c, B.Next(c, b, a));
  }

  lemma InvSize(c: B.Config, b: B.Sync)
    requires c.Valid() && B.Inv(c, b)
    ensures |b.handlers| == c.servers
  {}

  lemma SyncsKept(c: B.Config, sync: seq<B.Sync>, s: nat, b: B.Sync)
    requires c.Valid() && SyncsInv(c, sync) && s < |sync| && B.Inv(c, b) && |b.handlers| == c.servers
    ensures SyncsInv(c, sync[s := b])
  {
    hide B.Inv;
  }

  /** A step that leaves phase, wire and all other handlers: only the pair (s, i) has to be looked at. */
  lemma PairsKept(c: B.Config, sync: seq<B.Sync>, wire: multiset<Packet>, s: nat, i: nat, b: B.Sync, sync': seq<B.Sync>)
    requires c.Valid() && SyncsInv(c, sync) && s < |sync| && i < c.servers && |b.handlers| == c.servers
    requires b.phase == sync[s].phase && sync' == sync[s := b] && SyncsInv(c, sync')
    requires forall j :: 0 <= j < c.servers && j != i ==> b.handlers[j] == sync[s].handlers[j]
    requires forall t, j :: 0 <= t < c.servers && 0 <= j < c.servers ==> PairInv(c, sync, wire, t, j)
    requires PairInv(c, sync', wire, s, i)
    ensures forall t, j :: 0 <= t < c.servers && 0 <= j < c.servers ==> PairInv(c, sync', wire, t, j)
  {
    hide B.Inv, StreamEmpty;
    forall t, j | 0 <= t < c.servers && 0 <= j < c.servers ensures PairInv(c, sync', wire, t, j) {
      assert PairInv(c, sync, wire, t, j);
    }
  }

  /** Pass, Mark and Done. */
  lemma LocalKeeps<N>(c: B.Config, p: Proto<N>, x: System<N>, s: nat, i: nat, a: B.Step)
    requires Matches(c, p) && x.st.Run? && SyncsInv(c, x.sync) && RunInv(c, p, x) && s < c.servers && i < c.servers
    requires B.Enabled(c, x.sync[s], a) && a in {B.PassSync(i), B.Mark(i), B.Done(i)}
    requires a == B.PassSync(i) ==> x.sync[i].phase >= x.sync[s].handlers[i].k
    requires a == B.Done(i) ==> StreamEmpty(x.st.wire, s, i, x.sync[s].handlers[i].k)
    ensures SysInv(c, p, System(x.sync[s := B.Next(c, x.sync[s], a)], x.st))
  {
    var b := B.Next(c, x.sync[s], a);
    BarrierStep(c, x.sync[s], a);
    OneHandler(c, x.sync[s], i, a);
    var sync' := x.sync[s := b];
    LocalPair(c, x.sync, x.st.wire, s, i, a);
    hide B.Inv, B.Next, B.Enabled, StreamEmpty, PairInv;
    SyncsKept(c, x.sync, s, b);
    PairsKept(c, x.sync, x.st.wire, s, i, b, sync');
    forall q | q in x.st.wire ensures PacketInv(c, sync', q) { assert PacketInv(c, x.sync, q); }
  }

  lemma OneHandler(c: B.Config, b: B.Sync, i: nat, a: B.Step)
    requires c.Valid() && B.Inv(c, b) && B.Enabled(c, b, a) && a in {B.PassSync(i), B.Mark(i), B.Done(i)} && i < |b.handlers|
    ensures |B.Next(c, b, a).handlers| == |b.handlers|
    ensures forall j :: 0 <= j < |b.handlers| && j != i ==> B.Next(c, b, a).handlers[j] == b.handlers[j]
    ensures var h, h' := b.handlers[i], B.Next(c, b, a).handlers[i];
            && (a == B.PassSync(i) ==> h'.k == h.k == b.phase)
            && (a == B.Mark(i) ==> h.pc != B.Before && h'.k == h.k == b.phase)
            && (a == B.Done(i) ==> h.pc != B.Before && h' == B.Handler(h.k + 1, B.Before) && h.k == b.phase)
  {
    if a == B.PassSync(i) {
      B.PassKeeps(c, b, i);
    } else {
      HandlerPhase(c, b, i);
    }
  }

  lemma LocalPair(c: B.Config, sync: seq<B.Sync>, wire: multiset<Packet>, s: nat, i: nat, a: B.Step)
    requires c.Valid() && SyncsInv(c, sync) && s < c.servers && i < c.servers && PairInv(c, sync, wire, s, i)
    requires B.Enabled(c, sync[s], a) && a in {B.PassSync(i), B.Mark(i), B.Done(i)}
    requires a == B.PassSync(i) ==> sync[i].phase >= sync[s].handlers[i].k
    requires a == B.Done(i) ==> StreamEmpty(wire, s, i, sync[s].handlers[i].k)
    ensures |B.Next(c, sync[s], a).handlers| == c.servers
    ensures PairInv(c, sync[s := B.Next(c, sync[s], a)], wire, s, i)
  {
    hide StreamEmpty;
    OneHandler(c, sync[s], i, a);
    BarrierStep(c, sync[s], a);
    hide B.Inv, B.Next, B.Enabled;
  }

  /** A packet is handled: the wire loses it, and the server's queue may gain one for the next hop. */
  lemma HandleKeeps<N(!new)>(c: B.Config, p: Proto<N>, x: System<N>, q: Packet)
    requires Matches(c, p) && SendsAsItself(p) && SysInv(c, p, x) && CanStep(c, p, x, Handle(q)) && Enabled(p, x.st, Deliver(q))
    ensures SysInv(c, p, System(x.sync, Apply(p, x.st, Deliver(q))))
  {
    hide B.Inv, PairInv, PacketInv, QueueInv, SendsAsItself, Apply, CanStep;
    var st' := Apply(p, x.st, Deliver(q));
    if st'.Run? {
      QueueAfterHandle(p, x.st, q);
      SmallerWire(c, x.sync, x.st.wire, st'.wire);
    }
  }

  lemma QueueAfterHandle<N(!new)>(p: Proto<N>, st: State<N>, q: Packet)
    requires SendsAsItself(p) && Enabled(p, st, Deliver(q)) && QueueInv(st) && Apply(p, st, Deliver(q)).Run?
    ensures var st' := Apply(p, st, Deliver(q));
            Shaped(p, st') && st'.wire <= st.wire && st'.hop == st.hop && |st'.queued| == |st.queued| && QueueInv(st')
  {
    var st' := Apply(p, st, Deliver(q));
    var out := p.handle(q.dst, q.hop, st.node[q.dst], q).out;
    assert out.Some? ==> out.value.hop == q.hop + 1 && out.value.src == q.dst;
    hide SendsAsItself;
    forall s, r | 0 <= s < |st'.queued| && r in st'.queued[s] ensures r.hop == st'.hop[s] + 1 && r.src == s {
      assert r in st.queued[s] || (s == q.dst && out == Some(r));
    }
  }

  lemma SmallerWire(c: B.Config, sync: seq<B.Sync>, wire: multiset<Packet>, less: multiset<Packet>)
    requires c.Valid() && SyncsInv(c, sync) && less <= wire
    requires forall s, i :: 0 <= s < c.servers && 0 <= i < c.servers ==> PairInv(c, sync, wire, s, i)
    requires forall q :: q in wire ==> PacketInv(c, sync, q)
    ensures forall s, i :: 0 <= s < c.servers && 0 <= i < c.servers ==> PairInv(c, sync, less, s, i)
    ensures forall q :: q in less ==> PacketInv(c, sync, q)
  {
    hide B.Inv;
    forall s, i | 0 <= s < c.servers && 0 <= i < c.servers ensures PairInv(c, sync, less, s, i) {
      assert PairInv(c, sync, wire, s, i);
    }
  }

  /** A server moves on: nobody's stream changes but its own, and that one is of its new hop. */
  lemma TriggerKeeps<N>(c: B.Config, p: Proto<N>, x: System<N>, s: nat)
    requires Matches(c, p) && SysInv(c, p, x) && CanStep(c, p, x, Trigger(s)) && Enabled(p, x.st, Advance(s))
    ensures SysInv(c, p, System(x.sync[s := B.Next(c, x.sync[s], B.Trigger)], Apply(p, x.st, Advance(s))))
  {
    var b := B.Next(c, x.sync[s], B.Trigger);
    BarrierStep(c, x.sync[s], B.Trigger);
    TriggerHandlers(c, x.sync[s]);
    var sync', st' := x.sync[s := b], Apply(p, x.st, Advance(s));
    hide B.Inv, B.Next, B.Enabled;
    SyncsKept(c, x.sync, s, b);
    if st'.Run? {
      QueueAfterTrigger(p, x.st, s);
      hide Apply, Enabled, QueueInv, StreamEmpty;
      forall t, i | 0 <= t < c.servers && 0 <= i < c.servers ensures PairInv(c, sync', st'.wire, t, i) {
        assert PairInv(c, x.sync, x.st.wire, t, i);
        TriggerPair(c, x.sync, x.st.wire, x.st.queued[s], s, b, t, i);
      }
      forall q | q in st'.wire ensures PacketInv(c, sync', q) {
        if q in x.st.wire { assert PacketInv(c, x.sync, q); }
      }
    }
  }

  lemma QueueAfterTrigger<N>(p: Proto<N>, st: State<N>, s: nat)
    requires Enabled(p, st, Advance(s)) && QueueInv(st) && Apply(p, st, Advance(s)).Run?
    ensures var st' := Apply(p, st, Advance(s));
            && Shaped(p, st') && st'.wire == st.wire + st.queued[s] && QueueInv(st') && st'.hop == st.hop[s := st.hop[s] + 1]
            && forall q :: q in st.queued[s] ==> q.hop == st.hop[s] + 1 && q.src == s
  {}

  lemma TriggerHandlers(c: B.Config, b: B.Sync)
    requires c.Valid() && B.Inv(c, b) && B.Enabled(c, b, B.Trigger)
    ensures var b' := B.Next(c, b, B.Trigger);
            && b'.phase == b.phase + 1 && |b'.handlers| == c.servers
            && forall i :: 0 <= i < c.servers ==> b'.handlers[i] == B.Handler(b'.phase, B.Before)
  {
    if b.phase >= c.first { B.AllDone(c, b); }
  }

  lemma TriggerPair(c: B.Config, sync: seq<B.Sync>, wire: multiset<Packet>, more: multiset<Packet>, s: nat, b: B.Sync, t: nat, i: nat)
    requires c.Valid() && SyncsInv(c, sync) && s < c.servers && t < c.servers && i < c.servers && PairInv(c, sync, wire, t, i)
    requires b.phase == sync[s].phase + 1 && |b.handlers| == c.servers
    requires forall j :: 0 <= j < c.servers ==> b.handlers[j] == B.Handler(b.phase, B.Before)
    requires forall q :: q in more ==> q.hop == sync[s].phase + 1 && q.src == s
    ensures i < |sync[s := b][t].handlers| && PairInv(c, sync[s := b], wire + more, t, i)
  {
    hide B.Inv;
  }

  lemma StepKeeps<N(!new)>(c: B.Config, p: Proto<N>, x: System<N>, a: Step)
    requires Matches(c, p) && SendsAsItself(p) && SysInv(c, p, x) && CanStep(c, p, x, a)
    ensures SysInv(c, p, Next(c, p, x, a))
  {
    StepMeansGuard(c, p, x, a);
    match a {
      case Pass(s, i) => LocalKeeps(c, p, x, s, i, B.PassSync(i));
      case Mark(s, i) => MarksInRange(c, x.sync, s, i, B.Mark(i)); LocalKeeps(c, p, x, s, i, B.Mark(i));
      case Done(s, i) => MarksInRange(c, x.sync, s, i, B.Done(i)); LocalKeeps(c, p, x, s, i, B.Done(i));
      case Handle(q) => HandleKeeps(c, p, x, q);
      case Trigger(s) => TriggerKeeps(c, p, x, s);
    }
  }

  lemma MarksInRange(c: B.Config, sync: seq<B.Sync>, s: nat, i: nat, a: B.Step)
    requires c.Valid() && SyncsInv(c, sync) && s < c.servers && B.Enabled(c, sync[s], a) && a in {B.Mark(i), B.Done(i)}
    ensures i < c.servers
  {}

  // ----- main results

  /** At the start every barrier is in its initial state and nothing is queued; what is on the wire for
      hop 0 comes from servers, or from clients when they feed it. */
  ghost predicate SystemStart<N>(c: B.Config, p: Proto<N>, x: System<N>)
    requires Matches(c, p)
  {
    && |x.sync| == c.servers && (forall s :: 0 <= s < c.servers ==> x.sync[s] == B.Init(c))
    && Shaped(p, x.st) && (forall s :: 0 <= s < p.servers ==> x.st.hop[s] == 0 && x.st.queued[s] == multiset{})
    && (forall q :: q in x.st.wire ==> q.hop == 0 && (c.first == 0 ==> q.src < p.servers))
  }

  lemma StartKeeps<N>(c: B.Config, p: Proto<N>, x: System<N>)
    requires Matches(c, p) && SystemStart(c, p, x)
    ensures SysInv(c, p, x)
  {
    B.InitInv(c);
  }

  /** Every run of the system is a run of the relay: whenever a packet is handled or a server moves on,
      the relay's guard holds. */
  lemma {:induction false} SystemRefinesRelay<N(!new)>(c: B.Config, p: Proto<N>, x: System<N>, steps: seq<Step>, end: System<N>)
    requires Matches(c, p) && SendsAsItself(p) && SysInv(c, p, x) && IsSystemRun(c, p, x, steps, end)
    ensures SysInv(c, p, end) && IsRun(p, x.st, Actions(steps), end.st)
    decreases |steps|
  {
    hide SysInv, CanStep, Enabled, Apply, SyncAfter, SendsAsItself;
    if steps != [] {
      var a := steps[0];
      StepMeansGuard(c, p, x, a);
      StepKeeps(c, p, x, a);
      SystemRefinesRelay(c, p, Next(c, p, x, a), steps[1..], end);
      if ActionOf(a) == [] {
        assert Actions(steps) == Actions(steps[1..]);
      } else {
        assert Actions(steps)[0] == ActionOf(a)[0] && Actions(steps)[1..] == Actions(steps[1..]);
      }
    }
  }

  /** So what is proved of the relay holds of servers synchronised by their barriers alone: no panic,
      and when all are through, everything was delivered. */
  lemma SystemDelivers<N(!new)>(c: B.Config, p: Proto<N>, plan: Plan<N>, x: System<N>, steps: seq<Step>, end: System<N>)
    requires Matches(c, p) && SendsAsItself(p) && SystemStart(c, p, x) && IsSystemRun(c, p, x, steps, end)
    requires Sound(p, plan) && Start(p, plan, x.st)
    ensures end.st.Run? && IsRun(p, x.st, Actions(steps), end.st)
    ensures Finished(p, end.st) ==>
      && end.st.wire == multiset{}
      && (forall s :: 0 <= s < p.servers ==> end.st.queued[s] == multiset{} && plan.ok(s, p.hops, {}, end.st.node[s]))
  {
    hide SysInv, SendsAsItself, Sound, Start, IsSystemRun, IsRun;
    StartKeeps(c, p, x);
    SystemRefinesRelay(c, p, x, steps, end);
    RunsDeliver(p, plan, x.st, Actions(steps), end.st);
  }
}
