/** The layer barrier (network/synchronization/synchronization.go) as used by server/pool.go: one
    handler per sending server passes Sync, marks itself, processes a stream, and calls Done; the
    last Done starts a Trigger, which runs later. All atomic steps may interleave. */
module Barrier {
  import opened Sets

  /** A handler between its atomic steps, for its stream of phase `k`: before Sync, between Sync and
      the mark in SyncOnce, and between the mark and Done. */
  datatype Pc = Before | Waited | Marked

  datatype Handler = Handler(k: nat, pc: Pc)

  /** `layers[p]` is the layer the synchronizer is at in phase p; a round passes through them in order.
      `first` is the first phase with streams from servers: 1 when layer 0 is fed by clients and
      ended by an external Trigger, 0 in a path round. */
  datatype Config = Config(servers: nat, layers: seq<int>, first: nat) {
    predicate Valid() {
      && servers > 0 && first <= 1 && first < |layers|
      && forall i, j :: 0 <= i < j < |layers| ==> layers[i] != layers[j]
    }

    /** Phases in which servers send: one stream per server each. */
    function Last(): nat
      requires Valid()
    {
      |layers| - 1
    }
  }

  /** The synchronizer, the handlers (one per sending server), and the Triggers started and not run. */
  datatype Sync = Sync(phase: nat, processed: nat, started: set<nat>, handlers: seq<Handler>, pending: nat, failed: bool)

  datatype Step = PassSync(i: nat) | Mark(i: nat) | Done(i: nat) | Trigger

  function Init(c: Config): Sync
    requires c.Valid()
  {
    Sync(0, 0, {}, seq(c.servers, _ => Handler(c.first, Before)), c.first, false)
  }

  /** Sync waits for the layer, by number; the stream of phase k carries layers[k]. After the last
      phase the servers have nothing left to send. */
  predicate Enabled(c: Config, s: Sync, st: Step)
    requires c.Valid()
  {
    !s.failed && match st
    case PassSync(i) =>
      && i < |s.handlers| && s.handlers[i].pc == Before && s.handlers[i].k < c.Last()
      && s.phase < |c.layers| && c.layers[s.phase] == c.layers[s.handlers[i].k]
    case Mark(i) => i < |s.handlers| && s.handlers[i].pc == Waited
    case Done(i) => i < |s.handlers| && s.handlers[i].pc == Marked
    case Trigger => s.pending > 0
  }

  /** The code of each atomic step; `failed` stands for an error return or a panic. */
  function Next(c: Config, s: Sync, st: Step): Sync
    requires c.Valid() && Enabled(c, s, st)
  {
    match st
    case PassSync(i) => s.(handlers := s.handlers[i := s.handlers[i].(pc := Waited)])
    case Mark(i) =>
      if i in s.started then s.(failed := true)
      else s.(started := s.started + {i}, handlers := s.handlers[i := s.handlers[i].(pc := Marked)])
    case Done(i) =>
      var s' := s.(processed := s.processed + 1, handlers := s.handlers[i := Handler(s.handlers[i].k + 1, Before)]);
      if s'.processed == c.servers then s'.(pending := s.pending + 1)
      else if s'.processed > c.servers then s'.(failed := true)
      else s'
    case Trigger => s.(phase := s.phase + 1, started := {}, processed := 0, pending := s.pending - 1)
  }

  predicate IsRun(c: Config, s: Sync, steps: seq<Step>, end: Sync)
    requires c.Valid()
    decreases |steps|
  {
    if steps == [] then s == end
    else Enabled(c, s, steps[0]) && IsRun(c, Next(c, s, steps[0]), steps[1..], end)
  }

  // ----- the invariant

  /** Handlers that have called Done in the current phase, and those past their mark. */
  ghost function Finished(s: Sync): set<nat> {
    set i: nat | i < |s.handlers| && s.handlers[i].k == s.phase + 1
  }

  ghost function Marks(s: Sync): set<nat> {
    set i: nat | i < |s.handlers| && (s.handlers[i].k == s.phase + 1 || s.handlers[i].pc == Marked)
  }

  /** A handler is in the current phase, or has finished it; past Sync only in the current phase. */
  ghost predicate HandlerInv(c: Config, s: Sync, h: Handler)
    requires c.Valid()
  {
    && (h.k == s.phase || h.k == s.phase + 1) && h.k <= c.Last()
    && (h.pc != Before ==> h.k == s.phase < c.Last())
  }

  ghost predicate Inv(c: Config, s: Sync)
    requires c.Valid()
  {
    && !s.failed && |s.handlers| == c.servers && s.phase <= c.Last()
    && if s.phase < c.first then
         && s.pending == 1 && s.processed == 0 && s.started == {}
         && forall i :: 0 <= i < c.servers ==> s.handlers[i] == Handler(c.first, Before)
       else
         && (forall i :: 0 <= i < c.servers ==> HandlerInv(c, s, s.handlers[i]))
         && s.processed == |Finished(s)| && s.started == Marks(s)
         && s.pending == if s.processed == c.servers then 1 else 0
  }

  lemma PassKeeps(c: Config, s: Sync, i: nat)
    requires c.Valid() && Inv(c, s) && Enabled(c, s, PassSync(i))
    ensures Inv(c, Next(c, s, PassSync(i))) && s.handlers[i].k == s.phase
  {
    var s' := Next(c, s, PassSync(i));
    assert s.handlers[i].k == s.phase;
    assert Finished(s') == Finished(s);
    assert Marks(s') == Marks(s);
  }

  lemma MarkKeeps(c: Config, s: Sync, i: nat)
    requires c.Valid() && Inv(c, s) && Enabled(c, s, Mark(i))
    ensures Inv(c, Next(c, s, Mark(i)))
  {
    var s' := Next(c, s, Mark(i));
    assert HandlerInv(c, s, s.handlers[i]);
    assert i !in Marks(s);
    assert Finished(s') == Finished(s);
    assert Marks(s') == Marks(s) + {i};
  }

  lemma OneFinished(s: Sync, end: Sync, i: nat)
    requires i < |s.handlers| && s.handlers[i].pc == Marked && s.handlers[i].k == s.phase
    requires end.phase == s.phase && end.handlers == s.handlers[i := Handler(s.phase + 1, Before)]
    ensures Finished(end) == Finished(s) + {i} && i !in Finished(s) && Marks(end) == Marks(s)
  {}

  lemma DoneSets(c: Config, s: Sync, i: nat)
    requires c.Valid() && Inv(c, s) && Enabled(c, s, Done(i))
    ensures var end := Next(c, s, Done(i));
            && Finished(end) == Finished(s) + {i} && i !in Finished(s) && |Finished(end)| <= c.servers
            && Marks(end) == Marks(s)
  {
    var end := Next(c, s, Done(i));
    assert HandlerInv(c, s, s.handlers[i]);
    assert end.phase == s.phase && end.handlers == s.handlers[i := Handler(s.phase + 1, Before)] && |s.handlers| == c.servers;
    assert s.handlers[i].pc == Marked && s.handlers[i].k == s.phase;
    hide Inv, Next, Enabled, HandlerInv;
    OneFinished(s, end, i);
    SubsetSize(Finished(end), c.servers);
  }

  lemma DoneHandlers(c: Config, s: Sync, i: nat)
    requires c.Valid() && Inv(c, s) && Enabled(c, s, Done(i))
    ensures s.phase >= c.first
    ensures forall j :: 0 <= j < c.servers ==> HandlerInv(c, Next(c, s, Done(i)), Next(c, s, Done(i)).handlers[j])
  {
    var end := Next(c, s, Done(i));
    forall j | 0 <= j < c.servers ensures HandlerInv(c, end, end.handlers[j]) {
      assert HandlerInv(c, s, s.handlers[i]) && HandlerInv(c, s, s.handlers[j]);
    }
  }

  lemma DoneKeeps(c: Config, s: Sync, i: nat)
    requires c.Valid() && Inv(c, s) && Enabled(c, s, Done(i))
    ensures Inv(c, Next(c, s, Done(i)))
  {
    hide Finished, Marks, HandlerInv;
    DoneSets(c, s, i);
    DoneHandlers(c, s, i);
  }

  /** While a Trigger is outstanding, every handler is through with the phase. */
  lemma AllDone(c: Config, s: Sync)
    requires c.Valid() && Inv(c, s) && s.phase >= c.first && s.pending > 0
    ensures forall i :: 0 <= i < c.servers ==> s.handlers[i] == Handler(s.phase + 1, Before)
    ensures s.phase < c.Last()
  {
    SubsetSize(Finished(s), c.servers);
    forall i | 0 <= i < c.servers ensures s.handlers[i] == Handler(s.phase + 1, Before) && s.phase < c.Last() {
      assert i in Finished(s) && HandlerInv(c, s, s.handlers[i]);
    }
    assert s.handlers[0].k == s.phase + 1 && HandlerInv(c, s, s.handlers[0]);
  }

  lemma TriggerKeeps(c: Config, s: Sync)
    requires c.Valid() && Inv(c, s) && Enabled(c, s, Trigger)
    ensures Inv(c, Next(c, s, Trigger))
  {
    var s' := Next(c, s, Trigger);
    if s.phase >= c.first { AllDone(c, s); }
    assert forall i :: 0 <= i < c.servers ==> s'.handlers[i] == Handler(s'.phase, Before);
    assert s.handlers[0].k == s.phase + 1;
    assert Finished(s') == {} && Marks(s') == {};
  }

  lemma InitInv(c: Config)
    requires c.Valid()
    ensures Inv(c, Init(c))
  {
    var s := Init(c);
    if c.first == 0 { assert Finished(s) == {} && Marks(s) == {}; }
  }

  // ----- every run

  /** Steps behind a state: three per handler and phase, one per Trigger. */
  ghost function HandlerSteps(c: Config, h: Handler): int {
    3 * (h.k - c.first) + match h.pc case Before => 0 case Waited => 1 case Marked => 2
  }

  ghost function Work(c: Config, hs: seq<Handler>): int {
    if hs == [] then 0 else HandlerSteps(c, hs[0]) + Work(c, hs[1..])
  }

  lemma {:induction false} WorkUpdate(c: Config, hs: seq<Handler>, i: nat, h: Handler)
    requires i < |hs|
    ensures Work(c, hs[i := h]) == Work(c, hs) - HandlerSteps(c, hs[i]) + HandlerSteps(c, h)
  {
    if i == 0 {
      assert hs[0 := h][1..] == hs[1..];
    } else {
      assert hs[i := h][1..] == hs[1..][i - 1 := h];
      WorkUpdate(c, hs[1..], i - 1, h);
    }
  }

  lemma {:induction false} WorkAtStart(c: Config, hs: seq<Handler>, k: nat)
    requires forall i :: 0 <= i < |hs| ==> hs[i] == Handler(k, Before)
    ensures Work(c, hs) == |hs| * (3 * (k - c.first))
  {
    if hs != [] {
      WorkAtStart(c, hs[1..], k);
      assert |hs| * (3 * (k - c.first)) == (|hs| - 1) * (3 * (k - c.first)) + 3 * (k - c.first);
    }
  }

  lemma StepKeeps(c: Config, s: Sync, st: Step)
    requires c.Valid() && Inv(c, s) && Enabled(c, s, st)
    ensures Inv(c, Next(c, s, st))
    ensures var s' := Next(c, s, st);
            && s'.phase == s.phase + (if st == Trigger then 1 else 0)
            && Work(c, s'.handlers) == Work(c, s.handlers) + if st == Trigger then 0 else 1
  {
    hide Inv, Work;
    match st
    case PassSync(i) => PassKeeps(c, s, i); WorkUpdate(c, s.handlers, i, Next(c, s, st).handlers[i]);
    case Mark(i) =>
      MarkKeeps(c, s, i);
      NotMarked(c, s, i);
      WorkUpdate(c, s.handlers, i, Next(c, s, st).handlers[i]);
    case Done(i) => DoneKeeps(c, s, i); WorkUpdate(c, s.handlers, i, Next(c, s, st).handlers[i]);
    case Trigger => TriggerKeeps(c, s);
  }

  lemma NotMarked(c: Config, s: Sync, i: nat)
    requires c.Valid() && Inv(c, s) && Enabled(c, s, Mark(i))
    ensures i !in s.started
  {
    assert HandlerInv(c, s, s.handlers[i]);
  }

  function Triggers(steps: seq<Step>): nat {
    if steps == [] then 0 else (if steps[0] == Trigger then 1 else 0) + Triggers(steps[1..])
  }

  lemma {:induction false} RunKeeps(c: Config, s: Sync, steps: seq<Step>, end: Sync)
    requires c.Valid() && Inv(c, s) && IsRun(c, s, steps, end)
    ensures Inv(c, end)
    ensures end.phase == s.phase + Triggers(steps)
    ensures end.phase + Work(c, end.handlers) == s.phase + Work(c, s.handlers) + |steps|
    decreases |steps|
  {
    hide Inv, Work, Next, Enabled;
    if steps != [] {
      StepKeeps(c, s, steps[0]);
      RunKeeps(c, Next(c, s, steps[0]), steps[1..], end);
    }
  }

  /** Safety over all interleavings. No run reaches an error or the panic in Done; a handler that has
      passed Sync marks and finishes in the very phase it waited for; marks and Dones are within
      bounds; at most one Trigger is outstanding and each phase is ended by exactly one. */
  lemma BarrierSafety(c: Config, steps: seq<Step>, s: Sync)
    requires c.Valid() && IsRun(c, Init(c), steps, s)
    ensures !s.failed
    ensures s.processed <= |s.started| <= c.servers
    ensures forall i :: 0 <= i < |s.handlers| && s.handlers[i].pc != Before ==> s.handlers[i].k == s.phase
    ensures s.pending <= 1 && s.phase == Triggers(steps)
    ensures s.phase >= c.first && s.pending == 1 ==>
      forall i :: 0 <= i < |s.handlers| ==> s.handlers[i] == Handler(s.phase + 1, Before)
  {
    hide Inv;
    InitInv(c);
    RunKeeps(c, Init(c), steps, s);
    InvSafe(c, s);
  }

  lemma InvSafe(c: Config, s: Sync)
    requires c.Valid() && Inv(c, s)
    ensures !s.failed && s.pending <= 1 && s.processed <= |s.started| <= c.servers
    ensures forall i :: 0 <= i < |s.handlers| && s.handlers[i].pc != Before ==> s.handlers[i].k == s.phase
    ensures s.phase >= c.first && s.pending == 1 ==>
      forall i :: 0 <= i < |s.handlers| ==> s.handlers[i] == Handler(s.phase + 1, Before)
  {
    if s.phase >= c.first {
      assert forall i :: 0 <= i < |s.handlers| ==> HandlerInv(c, s, s.handlers[i]);
      SubsetSize(Marks(s), c.servers);
      Monotone(Finished(s), Marks(s));
      if s.pending == 1 { AllDone(c, s); }
    }
  }

  /** Nothing of a phase passes Sync before every handler has called Done for all earlier phases. */
  lemma PhasesAreOrdered(c: Config, steps: seq<Step>, s: Sync, i: nat)
    requires c.Valid() && IsRun(c, Init(c), steps, s) && Enabled(c, s, PassSync(i))
    ensures s.handlers[i].k == s.phase && forall j :: 0 <= j < |s.handlers| ==> s.handlers[j].k >= s.handlers[i].k
  {
    InitInv(c);
    RunKeeps(c, Init(c), steps, s);
    PassKeeps(c, s, i);
    assert s.phase >= c.first ==> forall j :: 0 <= j < |s.handlers| ==> HandlerInv(c, s, s.handlers[j]);
  }

  /** No deadlock and no livelock: a run can be extended until the last phase is reached, and a run
      that cannot be extended has processed every stream of every server exactly once. */
  lemma BarrierProgress(c: Config, steps: seq<Step>, s: Sync)
    requires c.Valid() && IsRun(c, Init(c), steps, s)
    ensures s.phase < c.Last() ==> exists st :: Enabled(c, s, st)
    ensures (forall st :: !Enabled(c, s, st)) ==>
      s.phase == c.Last() && |steps| == c.Last() + c.servers * (3 * (c.Last() - c.first))
  {
    hide Inv, Enabled, Next, Work, IsRun;
    InitInv(c);
    RunKeeps(c, Init(c), steps, s);
    WorkAtStart(c, Init(c).handlers, c.first);
    PhaseBound(c, s);
    if s.phase < c.Last() {
      var st := SomeStep(c, s);
    } else {
      AtEnd(c, s);
      WorkAtStart(c, s.handlers, c.Last());
    }
  }

  lemma PhaseBound(c: Config, s: Sync)
    requires c.Valid() && Inv(c, s)
    ensures s.phase <= c.Last() && |s.handlers| == c.servers
  {}

  lemma SomeStep(c: Config, s: Sync) returns (st: Step)
    requires c.Valid() && Inv(c, s) && s.phase < c.Last()
    ensures Enabled(c, s, st)
  {
    if s.pending > 0 {
      st := Trigger;
    } else {
      var i := Unfinished(c, s);
      assert HandlerInv(c, s, s.handlers[i]);
      match s.handlers[i].pc
      case Before => st := PassSync(i);
      case Waited => st := Mark(i);
      case Marked => st := Done(i);
    }
  }

  lemma Unfinished(c: Config, s: Sync) returns (i: nat)
    requires c.Valid() && Inv(c, s) && s.phase >= c.first && s.pending == 0
    ensures i < c.servers && s.handlers[i].k != s.phase + 1
  {
    if forall i: nat :: i < c.servers ==> i in Finished(s) {
      FullSize(Finished(s), c.servers);
      assert false;
    }
    i :| i < c.servers && i !in Finished(s);
  }

  lemma AtEnd(c: Config, s: Sync)
    requires c.Valid() && Inv(c, s) && s.phase == c.Last()
    ensures forall i :: 0 <= i < |s.handlers| ==> s.handlers[i] == Handler(c.Last(), Before)
  {
    forall i | 0 <= i < |s.handlers| ensures s.handlers[i] == Handler(c.Last(), Before) {
      assert HandlerInv(c, s, s.handlers[i]);
    }
  }
}
