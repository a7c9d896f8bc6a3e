/** Servers with their barriers get through: in every reachable state some step can be taken, no run is
    longer than a bound, and so every run is the beginning of a finished one. */
module SystemProgress {
  import B = Barrier
  import opened Routing
  import opened Relay
  import opened BarrierSystem

  // ----- some step is possible

  /** At a server no other is behind, the barrier's own next step can be taken, or a packet of the stream
      that keeps it from calling Done. */
  lemma SystemCanMove<N(!new)>(c: B.Config, p: Proto<N>, x: System<N>) returns (a: Step)
    requires Matches(c, p) && SysInv(c, p, x) && x.st.Run? && !Finished(p, x.st)
    ensures CanStep(c, p, x, a)
  {
    hide B.Inv, PairInv, PacketInv, QueueInv;
    var s := Slowest(x.st.hop);
    var b := x.sync[s];
    var t :| 0 <= t < c.servers && x.st.hop[t] != p.hops;
    B.PhaseBound(c, x.sync[t]);
    if b.phase < c.first {
      FedByClients(c, b);
      if q :| q in x.st.wire && q.dst == s && q.hop == b.phase {
        a := Handle(q);
      } else {
        a := Trigger(s);
      }
    } else if b.pending > 0 {
      NotFailed(c, b);
      a := Trigger(s);
    } else {
      var i := Laggard(c, b);
      match b.handlers[i].pc
      case Before => a := Pass(s, i);
      case Waited => a := Mark(s, i);
      case Marked =>
        if q :| q in x.st.wire && q.dst == s && q.src == i && q.hop == b.phase {
          a := Handle(q);
        } else {
          a := Done(s, i);
        }
    }
  }

  lemma FedByClients(c: B.Config, b: B.Sync)
    requires c.Valid() && B.Inv(c, b) && b.phase < c.first
    ensures B.Enabled(c, b, B.Trigger)
  {}

  lemma NotFailed(c: B.Config, b: B.Sync)
    requires c.Valid() && B.Inv(c, b)
    ensures !b.failed
  {}

  /** A handler that is not through with the phase, and can take its next step. */
  lemma Laggard(c: B.Config, b: B.Sync) returns (i: nat)
    requires c.Valid() && B.Inv(c, b) && b.phase >= c.first && b.pending == 0 && b.phase < c.Last()
    ensures i < c.servers == |b.handlers| && b.handlers[i].k == b.phase
    ensures match b.handlers[i].pc
            case Before => B.Enabled(c, b, B.PassSync(i))
            case Waited => B.Enabled(c, b, B.Mark(i))
            case Marked => B.Enabled(c, b, B.Done(i))
  {
    i := B.Unfinished(c, b);
    assert B.HandlerInv(c, b, b.handlers[i]);
  }

  // ----- no run is long

  /** The steps all handlers of all servers have taken. */
  ghost function TotalWork(c: B.Config, sync: seq<B.Sync>): int {
    if sync == [] then 0 else TotalWork(c, sync[..|sync| - 1]) + B.Work(c, sync[|sync| - 1].handlers)
  }

  lemma {:induction false} TotalWorkUpdate(c: B.Config, sync: seq<B.Sync>, s: nat, b: B.Sync)
    requires s < |sync|
    ensures TotalWork(c, sync[s := b]) == TotalWork(c, sync) - B.Work(c, sync[s].handlers) + B.Work(c, b.handlers)
    decreases |sync|
  {
    hide B.Work;
    var n := |sync| - 1;
    if s == n {
      assert sync[s := b][..n] == sync[..n];
    } else {
      assert sync[s := b][..n] == sync[..n][s := b];
      TotalWorkUpdate(c, sync[..n], s, b);
    }
  }

  /** Every step is one action of the relay or one step of a handler. */
  lemma StepCounts<N(!new)>(c: B.Config, p: Proto<N>, x: System<N>, a: Step)
    requires Matches(c, p) && SysInv(c, p, x) && CanStep(c, p, x, a)
    ensures |ActionOf(a)| + TotalWork(c, SyncAfter(c, p, x, a)) == TotalWork(c, x.sync) + 1
  {
    hide B.Inv, B.Work, B.Next, B.Enabled, TotalWork, RunInv;
    match a {
      case Pass(s, i) => BarrierCounts(c, x.sync, s, B.PassSync(i));
      case Mark(s, i) => BarrierCounts(c, x.sync, s, B.Mark(i));
      case Done(s, i) => BarrierCounts(c, x.sync, s, B.Done(i));
      case Trigger(s) => BarrierCounts(c, x.sync, s, B.Trigger);
      case Handle(_) =>
    }
  }

  lemma BarrierCounts(c: B.Config, sync: seq<B.Sync>, s: nat, a: B.Step)
    requires c.Valid() && SyncsInv(c, sync) && s < c.servers && B.Enabled(c, sync[s], a)
    ensures TotalWork(c, sync[s := B.Next(c, sync[s], a)]) == TotalWork(c, sync) + if a == B.Trigger then 0 else 1
  {
    hide B.Inv, B.Work, B.Next, B.Enabled, TotalWork;
    B.StepKeeps(c, sync[s], a);
    TotalWorkUpdate(c, sync, s, B.Next(c, sync[s], a));
  }

  lemma {:induction false} RunCounts<N(!new)>(c: B.Config, p: Proto<N>, x: System<N>, steps: seq<Step>, end: System<N>)
    requires Matches(c, p) && SendsAsItself(p) && SysInv(c, p, x) && IsSystemRun(c, p, x, steps, end)
    ensures |steps| == |Actions(steps)| + TotalWork(c, end.sync) - TotalWork(c, x.sync)
    decreases |steps|
  {
    hide SysInv, CanStep, SyncAfter, StateAfter, SendsAsItself, TotalWork;
    if steps != [] {
      var a := steps[0];
      StepCounts(c, p, x, a);
      StepKeeps(c, p, x, a);
      RunCounts(c, p, Next(c, p, x, a), steps[1..], end);
    }
  }

  /** A handler takes three steps in each phase. */
  lemma {:induction false} WorkBound(c: B.Config, hs: seq<B.Handler>, most: int)
    requires forall i :: 0 <= i < |hs| ==> 0 <= B.HandlerSteps(c, hs[i]) <= most
    ensures 0 <= B.Work(c, hs) <= |hs| * most
  {
    if hs != [] {
      WorkBound(c, hs[1..], most);
      assert |hs| * most == most + (|hs| - 1) * most;
    }
  }

  lemma HandlerBound(c: B.Config, b: B.Sync, i: nat)
    requires c.Valid() && B.Inv(c, b) && i < |b.handlers|
    ensures 0 <= B.HandlerSteps(c, b.handlers[i]) <= 3 * c.Last()
  {
    if b.phase >= c.first { assert B.HandlerInv(c, b, b.handlers[i]); }
  }

  lemma BarrierBound(c: B.Config, b: B.Sync)
    requires c.Valid() && B.Inv(c, b) && |b.handlers| == c.servers
    ensures 0 <= B.Work(c, b.handlers) <= c.servers * (3 * c.Last())
  {
    hide B.Inv, B.HandlerSteps, B.Work;
    forall i | 0 <= i < |b.handlers| ensures 0 <= B.HandlerSteps(c, b.handlers[i]) <= 3 * c.Last() {
      HandlerBound(c, b, i);
    }
    WorkBound(c, b.handlers, 3 * c.Last());
  }

  lemma {:induction false} TotalWorkBound(c: B.Config, sync: seq<B.Sync>, most: int)
    requires forall s :: 0 <= s < |sync| ==> 0 <= B.Work(c, sync[s].handlers) <= most
    ensures 0 <= TotalWork(c, sync) <= |sync| * most
    decreases |sync|
  {
    hide B.Work;
    if sync != [] {
      TotalWorkBound(c, sync[..|sync| - 1], most);
      assert |sync| * most == (|sync| - 1) * most + most;
    }
  }

  lemma SystemWorkBound<N>(c: B.Config, p: Proto<N>, x: System<N>)
    requires Matches(c, p) && SysInv(c, p, x)
    ensures 0 <= TotalWork(c, x.sync) <= c.servers * (c.servers * (3 * c.Last()))
  {
    hide B.Inv, B.Work, TotalWork, RunInv;
    forall s | 0 <= s < |x.sync| ensures 0 <= B.Work(c, x.sync[s].handlers) <= c.servers * (3 * c.Last()) {
      BarrierBound(c, x.sync[s]);
    }
    TotalWorkBound(c, x.sync, c.servers * (3 * c.Last()));
  }

  // ----- main results

  /** One step for each client and hop, one Trigger for each server and hop, and three steps for each
      handler and hop: no run is longer. */
  ghost function Longest<N>(c: B.Config, p: Proto<N>, plan: Plan<N>): int
    requires Matches(c, p)
  {
    (p.servers + |plan.r.pkt|) * p.hops + c.servers * (c.servers * (3 * c.Last()))
  }

  lemma SystemRunsTerminate<N(!new)>(c: B.Config, p: Proto<N>, plan: Plan<N>, x: System<N>, steps: seq<Step>, end: System<N>)
    requires Matches(c, p) && SendsAsItself(p) && SystemStart(c, p, x) && IsSystemRun(c, p, x, steps, end)
    requires Sound(p, plan) && Start(p, plan, x.st)
    ensures |steps| <= Longest(c, p, plan)
    ensures end.st.Run? && (Finished(p, end.st) || exists a :: CanStep(c, p, end, a))
  {
    hide SysInv, SendsAsItself, Sound, Start, IsSystemRun, IsRun, CanStep, Finished, SystemStart, TotalWork;
    StartKeeps(c, p, x);
    SystemRefinesRelay(c, p, x, steps, end);
    SystemDelivers(c, p, plan, x, steps, end);
    RunsTerminate(p, plan, x.st, Actions(steps), end.st);
    RunCounts(c, p, x, steps, end);
    SystemWorkBound(c, p, x);
    SystemWorkBound(c, p, end);
    if !Finished(p, end.st) { var a := SystemCanMove(c, p, end); }
  }

  lemma {:induction false} OneStepMore<N(!new)>(c: B.Config, p: Proto<N>, x: System<N>, steps: seq<Step>, mid: System<N>, a: Step)
    requires Matches(c, p) && IsSystemRun(c, p, x, steps, mid) && CanStep(c, p, mid, a)
    ensures IsSystemRun(c, p, x, steps + [a], Next(c, p, mid, a))
    decreases |steps|
  {
    hide CanStep, Next;
    if steps == [] {
      assert IsSystemRun(c, p, Next(c, p, mid, a), [], Next(c, p, mid, a));
      assert (steps + [a])[1..] == [];
    } else {
      OneStepMore(c, p, Next(c, p, x, steps[0]), steps[1..], mid, a);
      assert (steps + [a])[1..] == steps[1..] + [a];
    }
  }

  /** Every run of servers with their barriers, wherever it stands, extends to one in which all are through. */
  lemma {:induction false} EverySystemRunCanFinish<N(!new)>(c: B.Config, p: Proto<N>, plan: Plan<N>, x: System<N>, steps: seq<Step>, end: System<N>)
    returns (all: seq<Step>, last: System<N>)
    requires Matches(c, p) && SendsAsItself(p) && SystemStart(c, p, x) && IsSystemRun(c, p, x, steps, end)
    requires Sound(p, plan) && Start(p, plan, x.st)
    ensures steps <= all && IsSystemRun(c, p, x, all, last) && Finished(p, last.st)
    decreases Longest(c, p, plan) - |steps|
  {
    hide SendsAsItself, Sound, Start, IsSystemRun, CanStep, Finished, SystemStart, Longest, Next;
    SystemRunsTerminate(c, p, plan, x, steps, end);
    if Finished(p, end.st) {
      all, last := steps, end;
    } else {
      var a :| CanStep(c, p, end, a);
      OneStepMore(c, p, x, steps, end, a);
      SystemRunsTerminate(c, p, plan, x, steps + [a], Next(c, p, end, a));
      all, last := EverySystemRunCanFinish(c, p, plan, x, steps + [a], Next(c, p, end, a));
    }
  }
}
