/** The synchronizer object of network/synchronization/synchronization.go. Each method is one of the
    atomic steps of the barrier, under its locks; waiting is left to the barrier's step relation. */
module Synchronizer {
  import opened Barrier

  datatype Outcome = Ok | BadMetadata | AlreadyStarted | IndexPanic

  datatype Tally = Counted | StartTrigger | ThresholdPanic

  class Synchronizer {
    var round: int
    var layer: int
    var processed: nat
    var threshold: nat
    var started: seq<bool>

    ghost predicate Valid()
      reads this
    {
      |started| == threshold
    }

    /** The ids that have started, as the barrier's steps see them. */
    ghost function Started(): set<nat>
      reads this
    {
      set i: nat | i < |started| && started[i]
    }

    constructor (round: int, layer: int, threshold: nat)
      ensures Valid() && this.round == round && this.layer == layer && this.threshold == threshold
      ensures processed == 0 && Started() == {}
    {
      this.round, this.layer, this.threshold := round, layer, threshold;
      processed := 0;
      started := seq(threshold, _ => false);
    }

    /** The second half of SyncOnce. An id equal to the number of servers passes the range check and
        then indexes out of range. */
    method MarkStarted(id: int) returns (r: Outcome)
      requires Valid()
      modifies this`started
      ensures Valid()
      ensures r == if id < 0 || id > |started| then BadMetadata
                   else if id == |started| then IndexPanic
                   else if id in old(Started()) then AlreadyStarted else Ok
      ensures Started() == old(Started()) + if r == Ok then {id} else {}
    {
      if id > |started| || id < 0 { return BadMetadata; }
      if id == |started| { return IndexPanic; }
      if started[id] { return AlreadyStarted; }
      started := started[id := true];
      return Ok;
    }

    /** Exactly the call that reaches the threshold starts a Trigger; every later one panics. */
    method Done() returns (r: Tally)
      modifies this`processed
      ensures processed == old(processed) + 1
      ensures r == if processed < threshold then Counted else if processed == threshold then StartTrigger else ThresholdPanic
    {
      processed := processed + 1;
      if processed == threshold { return StartTrigger; }
      if processed > threshold { return ThresholdPanic; }
      return Counted;
    }

    /** Runs with the next threshold and layer that the callback returned. */
    method Trigger(nextThreshold: nat, nextLayer: int)
      modifies this`layer, this`processed, this`threshold, this`started
      ensures Valid() && layer == nextLayer && threshold == nextThreshold && processed == 0 && Started() == {}
    {
      threshold, layer := nextThreshold, nextLayer;
      started := seq(threshold, _ => false);
      processed := 0;
    }

    method Reset(round: int, layer: int, threshold: nat)
      modifies this
      ensures Valid() && this.round == round && this.layer == layer && this.threshold == threshold
      ensures processed == 0 && Started() == {}
    {
      this.round, this.layer := round, layer;
      processed := 0;
      this.threshold := threshold;
      started := seq(threshold, _ => false);
    }

    /** The object in a state of the barrier. */
    ghost predicate Represents(c: Config, s: Sync)
      requires c.Valid()
      reads this
    {
      && Valid() && threshold == c.servers && processed == s.processed && Started() == s.started
      && s.phase < |c.layers| && layer == c.layers[s.phase]
    }
  }

  /** The methods perform the barrier's steps, and in a reachable state never fail: the mark of a
      handler that waited succeeds, Done is within the threshold, and starts a Trigger when the
      barrier does. */
  method PerformMark(o: Synchronizer, ghost c: Config, ghost s: Sync, i: nat)
    requires c.Valid() && Inv(c, s) && o.Represents(c, s) && Enabled(c, s, Mark(i))
    modifies o
    ensures o.Represents(c, Next(c, s, Mark(i)))
  {
    NotMarked(c, s, i);
    assert HandlerInv(c, s, s.handlers[i]);
    var r := o.MarkStarted(i);
    assert r == Ok;
  }

  method PerformDone(o: Synchronizer, ghost c: Config, ghost s: Sync, i: nat) returns (trigger: bool)
    requires c.Valid() && Inv(c, s) && o.Represents(c, s) && Enabled(c, s, Done(i))
    modifies o
    ensures o.Represents(c, Next(c, s, Done(i)))
    ensures Next(c, s, Done(i)).pending == s.pending + if trigger then 1 else 0
  {
    DoneInRange(c, s, i);
    var r := o.Done();
    assert r != ThresholdPanic;
    trigger := r == StartTrigger;
  }

  method PerformTrigger(o: Synchronizer, c: Config, ghost s: Sync, phase: nat)
    requires c.Valid() && Inv(c, s) && o.Represents(c, s) && Enabled(c, s, Trigger) && phase == s.phase
    modifies o
    ensures o.Represents(c, Next(c, s, Trigger))
  {
    if s.phase >= c.first { AllDone(c, s); }
    o.Trigger(c.servers, c.layers[phase + 1]);
  }

  lemma DoneInRange(c: Config, s: Sync, i: nat)
    requires c.Valid() && Inv(c, s) && Enabled(c, s, Done(i))
    ensures s.processed < c.servers
  {
    DoneKeeps(c, s, i);
  }
}
