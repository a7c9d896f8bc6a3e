/** The synchronizer of a group member (server/pool.go: WorkerPoolProcessGroup, server/groupMember.go):
    one stream of final messages from every server, in any interleaving with each other and with the
    servers that are still at work. When OnThreshold runs, everything all servers sent to the group has
    been handled. */
module GroupThreshold {
  import opened ByteStrings
  import B = Barrier
  import opened PrepareMessages
  import opened Relay
  import LR = LightningRound
  import opened GroupMembers
  import opened EndToEnd

  /** The barrier, the servers that have sent their stream, what is left of each stream, and the messages
      handled so far, in the order in which they were recorded. */
  datatype Collecting = Collecting(sync: B.Sync, sent: set<nat>, left: seq<multiset<Bytes>>, arrivals: seq<Bytes>)

  datatype Step = Send(i: nat) | Pass(i: nat) | Mark(i: nat) | Take(i: nat, m: Bytes) | Done(i: nat) | Trigger

  /** One phase: the checkpoint layer, with a stream from every server. */
  function Threshold(servers: nat, layer: int): (c: B.Config)
    requires servers > 0
    ensures c.Valid() && c.servers == servers && c.Last() == 1 && c.first == 0
  {
    B.Config(servers, [layer, layer + 1], 0)
  }

  ghost predicate CanStep(c: B.Config, x: Collecting, a: Step)
    requires c.Valid()
  {
    && |x.left| == c.servers
    && match a
       case Send(i) => i < c.servers && i !in x.sent
       case Pass(i) => i in x.sent && B.Enabled(c, x.sync, B.PassSync(i))
       case Mark(i) => B.Enabled(c, x.sync, B.Mark(i))
       case Take(i, m) => i < c.servers && i < |x.sync.handlers| && x.sync.handlers[i].pc == B.Marked && m in x.left[i]
       case Done(i) => i < c.servers && B.Enabled(c, x.sync, B.Done(i)) && x.left[i] == multiset{}
       case Trigger => B.Enabled(c, x.sync, B.Trigger)
  }

  ghost function Next(c: B.Config, x: Collecting, a: Step): Collecting
    requires c.Valid() && CanStep(c, x, a)
  {
    match a
    case Send(i) => x.(sent := x.sent + {i})
    case Pass(i) => x.(sync := B.Next(c, x.sync, B.PassSync(i)))
    case Mark(i) => x.(sync := B.Next(c, x.sync, B.Mark(i)))
    case Take(i, m) => x.(left := x.left[i := x.left[i] - multiset{m}], arrivals := x.arrivals + [m])
    case Done(i) => x.(sync := B.Next(c, x.sync, B.Done(i)))
    case Trigger => x.(sync := B.Next(c, x.sync, B.Trigger))
  }

  ghost predicate IsGroupRun(c: B.Config, x: Collecting, steps: seq<Step>, end: Collecting)
    requires c.Valid()
    decreases |steps|
  {
    if steps == [] then x == end
    else CanStep(c, x, steps[0]) && IsGroupRun(c, Next(c, x, steps[0]), steps[1..], end)
  }

  /** Nothing handled; stream i holds what server i buffered for the group. */
  ghost function Begin(c: B.Config, streams: seq<multiset<Bytes>>): Collecting
    requires c.Valid()
  {
    Collecting(B.Init(c), {}, streams, [])
  }

  // ----- the invariant

  ghost function Union(ms: seq<multiset<Bytes>>): multiset<Bytes> {
    if ms == [] then multiset{} else Union(ms[..|ms| - 1]) + ms[|ms| - 1]
  }

  lemma {:induction false} UnionUpdate(ms: seq<multiset<Bytes>>, i: nat, m: Bytes)
    requires i < |ms| && m in ms[i]
    ensures Union(ms[i := ms[i] - multiset{m}]) + multiset{m} == Union(ms)
    decreases |ms|
  {
    var n := |ms| - 1;
    var ms' := ms[i := ms[i] - multiset{m}];
    if i == n {
      assert ms'[..n] == ms[..n];
      assert ms[n] - multiset{m} + multiset{m} == ms[n];
    } else {
      assert ms'[..n] == ms[..n][i := ms[..n][i] - multiset{m}];
      UnionUpdate(ms[..n], i, m);
    }
  }

  lemma {:induction false} UnionEmpty(ms: seq<multiset<Bytes>>)
    requires forall i :: 0 <= i < |ms| ==> ms[i] == multiset{}
    ensures Union(ms) == multiset{}
    decreases |ms|
  {
    if ms != [] { UnionEmpty(ms[..|ms| - 1]); }
  }

  /** Nothing is lost or made up, and a stream that is done is used up. */
  ghost predicate Inv(c: B.Config, streams: seq<multiset<Bytes>>, x: Collecting)
    requires c.Valid()
  {
    && B.Inv(c, x.sync) && |x.sync.handlers| == c.servers == |x.left| == |streams| && x.sync.phase <= 1
    && multiset(x.arrivals) + Union(x.left) == Union(streams)
    && forall i :: 0 <= i < c.servers && x.sync.handlers[i].k == 1 ==> x.left[i] == multiset{}
  }

  lemma BeginInv(c: B.Config, streams: seq<multiset<Bytes>>)
    requires c.Valid() && c.first == 0 && c.Last() == 1 && |streams| == c.servers
    ensures Inv(c, streams, Begin(c, streams))
  {
    B.InitInv(c);
  }

  lemma BarrierStepKeeps(c: B.Config, streams: seq<multiset<Bytes>>, x: Collecting, a: B.Step)
    requires c.Valid() && c.first == 0 && c.Last() == 1 && Inv(c, streams, x) && B.Enabled(c, x.sync, a)
    requires a.Done? ==> a.i < c.servers && x.left[a.i] == multiset{}
    ensures Inv(c, streams, x.(sync := B.Next(c, x.sync, a)))
  {
    hide Union, B.Inv;
    var b := B.Next(c, x.sync, a);
    B.StepKeeps(c, x.sync, a);
    B.PhaseBound(c, b);
    OnlyDoneMoves(c, x.sync, a);
    hide B.Next, B.Enabled;
  }

  /** A handler reaches the next phase only by its own Done. */
  lemma OnlyDoneMoves(c: B.Config, b: B.Sync, a: B.Step)
    requires c.Valid() && B.Inv(c, b) && B.Enabled(c, b, a)
    ensures |B.Next(c, b, a).handlers| == |b.handlers|
    ensures forall i: nat :: i < |b.handlers| ==> B.Next(c, b, a).handlers[i].k == b.handlers[i].k || a == B.Done(i)
  {
    hide B.Inv;
  }

  lemma TakeKeeps(c: B.Config, streams: seq<multiset<Bytes>>, x: Collecting, i: nat, m: Bytes)
    requires c.Valid() && Inv(c, streams, x) && CanStep(c, x, Take(i, m))
    ensures Inv(c, streams, Next(c, x, Take(i, m)))
  {
    hide B.Inv, Union, B.Enabled;
    UnionUpdate(x.left, i, m);
  }

  lemma StepKeeps(c: B.Config, streams: seq<multiset<Bytes>>, x: Collecting, a: Step)
    requires c.Valid() && c.first == 0 && c.Last() == 1 && Inv(c, streams, x) && CanStep(c, x, a)
    ensures Inv(c, streams, Next(c, x, a))
  {
    match a {
      case Send(i) =>
      case Pass(i) => BarrierStepKeeps(c, streams, x, B.PassSync(i));
      case Mark(i) => BarrierStepKeeps(c, streams, x, B.Mark(i));
      case Take(i, m) => TakeKeeps(c, streams, x, i, m);
      case Done(i) => BarrierStepKeeps(c, streams, x, B.Done(i));
      case Trigger => BarrierStepKeeps(c, streams, x, B.Trigger);
    }
  }

  lemma {:induction false} RunKeeps(c: B.Config, streams: seq<multiset<Bytes>>, x: Collecting, steps: seq<Step>, end: Collecting)
    requires c.Valid() && c.first == 0 && c.Last() == 1 && Inv(c, streams, x) && IsGroupRun(c, x, steps, end)
    ensures Inv(c, streams, end)
    decreases |steps|
  {
    hide Inv, CanStep, Next;
    if steps != [] {
      StepKeeps(c, streams, x, steps[0]);
      RunKeeps(c, streams, Next(c, x, steps[0]), steps[1..], end);
    }
  }

  // ----- main results

  /** Whatever the interleaving, when the threshold is reached the messages handled are exactly all
      messages of all streams. */
  lemma ThresholdMeansAll(c: B.Config, streams: seq<multiset<Bytes>>, steps: seq<Step>, x: Collecting)
    requires c.Valid() && c.first == 0 && c.Last() == 1 && |streams| == c.servers
    requires IsGroupRun(c, Begin(c, streams), steps, x) && CanStep(c, x, Trigger)
    ensures multiset(x.arrivals) == Union(streams)
  {
    hide B.Inv, IsGroupRun, Union, Begin, B.Init;
    BeginInv(c, streams);
    RunKeeps(c, streams, Begin(c, streams), steps, x);
    B.AllDone(c, x.sync);
    forall i | 0 <= i < |x.left| ensures x.left[i] == multiset{} {
      assert x.sync.handlers[i] == B.Handler(x.sync.phase + 1, B.Before);
    }
    UnionEmpty(x.left);
  }

  /** What each server buffered for group g. */
  ghost function Streams(nodes: seq<LR.Node>, g: nat): (ms: seq<multiset<Bytes>>)
    requires forall s :: 0 <= s < |nodes| ==> g < |nodes[s].final|
    ensures |ms| == |nodes| && forall s :: 0 <= s < |nodes| ==> ms[s] == nodes[s].final[g]
  {
    seq(|nodes|, s requires 0 <= s < |nodes| => nodes[s].final[g])
  }

  lemma {:induction false} UnionGathers(nodes: seq<LR.Node>, g: nat, k: nat)
    requires k <= |nodes| && forall s :: 0 <= s < |nodes| ==> g < |nodes[s].final|
    ensures Union(Streams(nodes, g)[..k]) == Gathered(nodes, g, k)
    decreases k
  {
    if k > 0 {
      assert Streams(nodes, g)[..k][..k - 1] == Streams(nodes, g)[..k - 1];
      UnionGathers(nodes, g, k - 1);
    }
  }

  /** So at the end of a lightning round, a member whose threshold is reached has collected what the
      delivery theorems ask for. */
  lemma ThresholdCollects(end: State<LR.Node>, g: nat, layer: int, steps: seq<Step>, x: Collecting)
    requires end.Run? && |end.node| > 0 && forall s :: 0 <= s < |end.node| ==> g < |end.node[s].final|
    requires var c := Threshold(|end.node|, layer);
             IsGroupRun(c, Begin(c, Streams(end.node, g)), steps, x) && CanStep(c, x, Trigger)
    ensures Collected(end, g, x.arrivals)
  {
    hide IsGroupRun, CanStep;
    ThresholdMeansAll(Threshold(|end.node|, layer), Streams(end.node, g), steps, x);
    UnionGathers(end.node, g, |end.node|);
    assert Streams(end.node, g)[..|end.node|] == Streams(end.node, g);
  }
}
