/** The group's layer of the last boomerang (server/processMessages/checkpointSender.go,
    server/checkpoint/checkpoint.go). The last path server collects from every member of a group the
    member's key share times the client's point, adds the partial keys up as they arrive, and opens
    the group's boomerangs when the last member has answered. */
module ThresholdDecryption {
  import opened ByteStrings
  import opened Sets
  import opened Modular
  import opened Shuffling
  import opened Sigcryption
  import opened PrepareMessages
  import opened PathRounds
  import opened Sharing

  datatype Progress<!P> = Progress(boomerang: Bytes, partial: P, group: nat, key: nat, used: bool)
  datatype Response<!P> = Response(publicKey: Bytes, partialKey: P)

  /** The waiting boomerangs by anonymous key, the answers each group still owes, groups finished. */
  datatype State<!P> = State(messages: map<Bytes, Progress<P>>, counts: seq<int>, done: nat)

  /** The server doing the collecting, and the group of points with its encoding. */
  datatype Site<!P> = Site(s: Suite, layers: nat, me: nat, g: Sharing.Group<P>, enc: P -> Bytes, dec: Bytes -> P)

  // ----- one step, as functions

  /** HandleResponse: every partial key is added to the entry it names; an unknown name crashes. */
  function Absorb<P>(g: Sharing.Group<P>, ms: map<Bytes, Progress<P>>, rs: seq<Response<P>>): Option<map<Bytes, Progress<P>>>
    decreases |rs|
  {
    if rs == [] then Some(ms) else
    var r := rs[|rs| - 1];
    match Absorb(g, ms, rs[..|rs| - 1])
    case None => None
    case Some(m) =>
      if r.publicKey !in m then None
      else Some(m[r.publicKey := m[r.publicKey].(partial := g.add(m[r.publicKey].partial, r.partialKey))])
  }

  function Opened<P>(site: Site<P>, p: Progress<P>): Progress<P>
    requires |p.boomerang| >= OVERHEAD
  {
    p.(used := true,
       boomerang := Open(site.s, p.boomerang, Nonce(site.layers, site.layers, site.me), site.enc(p.partial)))
  }

  /** Nothing of the group was opened before, and every box is long enough to be one. */
  predicate CanDecrypt<P>(ms: map<Bytes, Progress<P>>, group: nat) {
    forall k :: k in ms && ms[k].group == group ==> !ms[k].used && |ms[k].boomerang| >= OVERHEAD
  }

  function Decrypted<P>(site: Site<P>, ms: map<Bytes, Progress<P>>, group: nat): map<Bytes, Progress<P>>
    requires CanDecrypt(ms, group)
  {
    map k | k in ms :: if ms[k].group == group then Opened(site, ms[k]) else ms[k]
  }

  /** The body of the reader loop, under the group's lock. */
  function Respond<P>(site: Site<P>, st: State<P>, group: nat, rs: seq<Response<P>>): Option<State<P>>
    requires group < |st.counts|
  {
    match Absorb(site.g, st.messages, rs)
    case None => None
    case Some(ms) =>
      var counts := st.counts[group := st.counts[group] - 1];
      if counts[group] < 0 then None
      else if counts[group] > 0 then Some(State(ms, counts, st.done))
      else if !CanDecrypt(ms, group) then None
      else Some(State(Decrypted(site, ms, group), counts, st.done + 1))
  }

  /** DecryptGroup in between: the entries still to visit are untouched, of the others those of the
      group are opened. */
  ghost predicate PartlyOpened<P>(site: Site<P>, before: map<Bytes, Progress<P>>, now: map<Bytes, Progress<P>>, todo: set<Bytes>, group: nat) {
    now.Keys == before.Keys && forall k :: k in before ==> Visited(site, before[k], now[k], k in todo, group)
  }

  ghost predicate Visited<P>(site: Site<P>, was: Progress<P>, p: Progress<P>, todo: bool, group: nat) {
    if todo || was.group != group then p == was
    else !was.used && |was.boomerang| >= OVERHEAD && p == Opened(site, was)
  }

  lemma StillPending<P>(site: Site<P>, before: map<Bytes, Progress<P>>, now: map<Bytes, Progress<P>>, todo: set<Bytes>, group: nat, k: Bytes)
    requires PartlyOpened(site, before, now, todo, group) && k in todo && k in before
    ensures k in now && now[k] == before[k]
  {
    assert Visited(site, before[k], now[k], k in todo, group);
  }

  /** Visiting k changes the map at k at most. */
  lemma OneMoreVisited<P>(site: Site<P>, before: map<Bytes, Progress<P>>, now: map<Bytes, Progress<P>>, todo: set<Bytes>, group: nat, k: Bytes)
    requires k in before && k in now && Visited(site, before[k], now[k], false, group)
    requires PartlyOpened(site, before, now[k := before[k]], todo, group)
    ensures PartlyOpened(site, before, now, todo - {k}, group)
  {
    hide Visited;
    forall j | j in before ensures Visited(site, before[j], now[j], j in todo - {k}, group) {
      assert Visited(site, before[j], now[k := before[k]][j], j in todo, group);
    }
  }

  // ----- the object

  class CheckpointSender<!P> {
    const site: Site<P>
    var reverseMessages: map<Bytes, Progress<P>>
    var groupCounts: seq<int>
    var done: nat

    constructor (site: Site<P>, sizes: seq<int>)
      ensures this.site == site && Now() == State(map[], sizes, 0)
    {
      this.site := site;
      reverseMessages := map[];
      groupCounts := sizes;
      done := 0;
    }

    function Now(): State<P>
      reads this
    {
      State(reverseMessages, groupCounts, done)
    }

    method AddReverseMessage(boomerang: Bytes, vk: Bytes, key: nat, group: nat)
      modifies this
      ensures Now() == old(Now()).(messages :=
        old(reverseMessages)[vk := Progress(boomerang, site.g.zero, group, key, false)])
    {
      reverseMessages := reverseMessages[vk := Progress(boomerang, site.g.zero, group, key, false)];
    }

    /** `authentic` tells whether the member's signature on the response verifies. */
    method HandleResponse(rs: seq<Response<P>>, authentic: bool) returns (ok: bool)
      modifies this`reverseMessages
      ensures ok <==> authentic && Absorb(site.g, old(reverseMessages), rs).Some?
      ensures ok ==> Some(reverseMessages) == Absorb(site.g, old(reverseMessages), rs)
      ensures !authentic ==> reverseMessages == old(reverseMessages)
    {
      if !authentic { return false; }
      ghost var before := reverseMessages;
      var pos := 0;
      while pos < |rs|
        invariant pos <= |rs|
        invariant Absorb(site.g, before, rs[..pos]) == Some(reverseMessages)
      {
        var cm := rs[pos];
        assert rs[..pos + 1][..pos] == rs[..pos];
        if cm.publicKey !in reverseMessages {
          AbsorbFails(site.g, before, rs, pos + 1);
          return false;
        }
        var p := reverseMessages[cm.publicKey];
        reverseMessages := reverseMessages[cm.publicKey := p.(partial := site.g.add(p.partial, cm.partialKey))];
        pos := pos + 1;
      }
      assert rs[..pos] == rs;
      return true;
    }

    method HandleOne(k: Bytes) returns (ok: bool)
      requires k in reverseMessages
      modifies this`reverseMessages
      ensures ok <==> !old(reverseMessages)[k].used && |old(reverseMessages)[k].boomerang| >= OVERHEAD
      ensures ok ==> reverseMessages == old(reverseMessages)[k := Opened(site, old(reverseMessages)[k])]
    {
      var s := reverseMessages[k];
      if |s.boomerang| < OVERHEAD || s.used { return false; }
      reverseMessages := reverseMessages[k := Opened(site, s)];
      return true;
    }

    /** The entries are visited in an unspecified order. */
    method DecryptGroup(group: nat) returns (ok: bool)
      modifies this`reverseMessages
      ensures ok <==> CanDecrypt(old(reverseMessages), group)
      ensures ok ==> reverseMessages == Decrypted(site, old(reverseMessages), group)
    {
      ghost var before := reverseMessages;
      var todo := reverseMessages.Keys;
      while todo != {}
        invariant todo <= before.Keys && PartlyOpened(site, before, reverseMessages, todo, group)
        decreases todo
      {
        var k :| k in todo;
        StillPending(site, before, reverseMessages, todo, group, k);
        if reverseMessages[k].group == group {
          var fine := HandleOne(k);
          if !fine { return false; }
        }
        OneMoreVisited(site, before, reverseMessages, todo, group, k);
        todo := todo - {k};
      }
      return true;
    }

    method ReadOne(group: nat, rs: seq<Response<P>>, authentic: bool) returns (ok: bool)
      requires group < |groupCounts|
      modifies this
      ensures ok <==> authentic && Respond(site, old(Now()), group, rs).Some?
      ensures ok ==> Some(Now()) == Respond(site, old(Now()), group, rs)
    {
      ok := HandleResponse(rs, authentic);
      if !ok { return; }
      groupCounts := groupCounts[group := groupCounts[group] - 1];
      if groupCounts[group] == 0 {
        ok := DecryptGroup(group);
        if ok { done := done + 1; }
      } else if groupCounts[group] < 0 {
        return false;
      }
    }
  }

  lemma {:induction false} AbsorbFails<P>(g: Sharing.Group<P>, ms: map<Bytes, Progress<P>>, rs: seq<Response<P>>, n: nat)
    requires n <= |rs| && Absorb(g, ms, rs[..n]).None?
    ensures Absorb(g, ms, rs).None?
    decreases |rs| - n
  {
    if n == |rs| {
      assert rs[..n] == rs;
    } else {
      assert rs[..n + 1][..n] == rs[..n];
      AbsorbFails(g, ms, rs, n + 1);
    }
  }

  // ----- whole runs

  /** Member `member` of group `group` answers for the keys it was sent, in the order `keys`. */
  datatype Event = Event(group: nat, member: nat, keys: seq<Bytes>)

  /** HandleCheckpointMessage, one response per key. */
  function Reply<P>(site: Site<P>, share: int, keys: seq<Bytes>): (rs: seq<Response<P>>)
    ensures |rs| == |keys| && forall i :: 0 <= i < |keys| ==> rs[i] == Response(keys[i], site.g.mul(share, site.dec(keys[i])))
  {
    seq(|keys|, i requires 0 <= i < |keys| => Response(keys[i], site.g.mul(share, site.dec(keys[i]))))
  }

  /** What was sent to the groups: `sent` by anonymous key, `shares` by group and member. */
  datatype Session<!P> = Session(site: Site<P>, sent: map<Bytes, Progress<P>>, shares: seq<seq<int>>, secret: int) {
    /** Fresh boomerangs, and every group holds additive shares of the one group secret. */
    ghost predicate Valid() {
      && (forall k :: k in sent ==>
            && sent[k].partial == site.g.zero && !sent[k].used
            && |sent[k].boomerang| >= OVERHEAD && sent[k].group < |shares|)
      && site.g.order > 1
      && (forall i :: 0 <= i < |shares| ==> Cong(Sum(shares[i]), secret, site.g.order))
    }

    function Start(): State<P> {
      State(sent, seq(|shares|, i requires 0 <= i < |shares| => |shares[i]|), 0)
    }

    ghost predicate KnownEvent(e: Event) {
      && e.group < |shares| && e.member < |shares[e.group]|
      && (forall k :: k in e.keys <==> k in sent && sent[k].group == e.group)
      && (forall i, j :: 0 <= i < j < |e.keys| ==> e.keys[i] != e.keys[j])
    }

    /** Any interleaving in which no member answers twice. */
    ghost predicate Schedule(es: seq<Event>) {
      && (forall i :: 0 <= i < |es| ==> KnownEvent(es[i]))
      && (forall i :: 0 <= i < |shares| ==> multiset(Members(es, i)) <= multiset(Range(|shares[i]|)))
    }

    function Run(es: seq<Event>): Option<State<P>>
      decreases |es|
    {
      if es == [] then Some(Start()) else
      var e := es[|es| - 1];
      match Run(es[..|es| - 1])
      case None => None
      case Some(st) =>
        if e.group >= |st.counts| || e.group >= |shares| || e.member >= |shares[e.group]| then None
        else Respond(site, st, e.group, Reply(site, shares[e.group][e.member], e.keys))
    }

    ghost predicate Complete(es: seq<Event>, group: nat) {
      group < |shares| && |Members(es, group)| == |shares[group]| > 0
    }

    ghost function Finished(es: seq<Event>): set<nat> {
      set i: nat | i < |shares| && Complete(es, i)
    }

    /** What the entry for k must be after es: the shares that have answered, applied to k's point,
        and the boomerang opened under the group secret exactly when all of them have. */
    ghost function Expected(es: seq<Event>, k: Bytes): Progress<P>
      requires Valid() && k in sent && Known(es)
    {
      var p := sent[k];
      p.(partial := site.g.mul(Sum(Answered(es, p.group)), site.dec(k)),
         used := Complete(es, p.group),
         boomerang := if Complete(es, p.group)
           then Open(site.s, p.boomerang, Nonce(site.layers, site.layers, site.me), site.enc(site.g.mul(secret, site.dec(k))))
           else p.boomerang)
    }

    ghost predicate Known(es: seq<Event>) {
      forall i :: 0 <= i < |es| ==> es[i].group < |shares| && es[i].member < |shares[es[i].group]|
    }

    /** The shares of the members of a group that have answered, in order of arrival. */
    ghost function Answered(es: seq<Event>, group: nat): seq<int>
      requires Known(es)
      decreases |es|
    {
      if es == [] then [] else
      var e, before := es[|es| - 1], Answered(es[..|es| - 1], group);
      if e.group == group then before + [shares[group][e.member]] else before
    }

    ghost predicate Inv(es: seq<Event>, st: State<P>)
      requires Valid() && Known(es)
    {
      && st.messages.Keys == sent.Keys
      && (forall k :: k in sent ==> st.messages[k] == Expected(es, k))
      && |st.counts| == |shares|
      && (forall i :: 0 <= i < |shares| ==> st.counts[i] == |shares[i]| - |Members(es, i)|)
      && st.done == |Finished(es)|
    }
  }

  function Members(es: seq<Event>, group: nat): seq<nat>
    decreases |es|
  {
    if es == [] then [] else
    var e, before := es[|es| - 1], Members(es[..|es| - 1], group);
    if e.group == group then before + [e.member] else before
  }

  // ----- the pieces

  /** One share of the group, applied to the points of `keys` and added to their entries. */
  function Added<P>(site: Site<P>, share: int, ms: map<Bytes, Progress<P>>, keys: set<Bytes>): (r: map<Bytes, Progress<P>>)
    ensures r.Keys == ms.Keys
  {
    map k | k in ms :: if k in keys then AddedTo(site, share, ms[k], k) else ms[k]
  }

  function AddedTo<P>(site: Site<P>, share: int, p: Progress<P>, k: Bytes): Progress<P> {
    p.(partial := site.g.add(p.partial, site.g.mul(share, site.dec(k))))
  }

  lemma AddedStep<P>(site: Site<P>, share: int, ms: map<Bytes, Progress<P>>, keys: set<Bytes>, k: Bytes)
    requires k in ms && k !in keys
    ensures Added(site, share, ms, keys + {k}) == Added(site, share, ms, keys)[k := AddedTo(site, share, ms[k], k)]
  {}

  lemma {:induction false} AbsorbListed<P>(site: Site<P>, share: int, ms: map<Bytes, Progress<P>>, keys: seq<Bytes>)
    requires forall i :: 0 <= i < |keys| ==> keys[i] in ms
    requires forall i, j :: 0 <= i < j < |keys| ==> keys[i] != keys[j]
    ensures Absorb(site.g, ms, Reply(site, share, keys)) == Some(Added(site, share, ms, set k | k in keys))
    decreases |keys|
  {
    if keys == [] {
      assert Added(site, share, ms, set k | k in keys) == ms;
    } else {
      var n := |keys| - 1;
      var last, before := keys[n], keys[..n];
      assert Reply(site, share, keys)[..n] == Reply(site, share, before);
      AbsorbListed(site, share, ms, before);
      assert (set k | k in keys) == (set k | k in before) + {last};
      AddedStep(site, share, ms, (set k | k in before), last);
      hide Added;
    }
  }

  lemma {:induction false} AnsweredShares<P>(x: Session<P>, es: seq<Event>, group: nat)
    requires x.Known(es) && group < |x.shares|
    ensures |x.Answered(es, group)| == |Members(es, group)|
    ensures forall i :: 0 <= i < |Members(es, group)| ==>
      Members(es, group)[i] < |x.shares[group]| && x.Answered(es, group)[i] == x.shares[group][Members(es, group)[i]]
    decreases |es|
  {
    if es != [] { AnsweredShares(x, es[..|es| - 1], group); }
  }

  /** When as many members have answered as there are, their shares add up to the secret. */
  lemma AllAnswered<P>(x: Session<P>, es: seq<Event>, group: nat)
    requires x.Valid() && x.Known(es) && x.Complete(es, group)
    requires multiset(Members(es, group)) <= multiset(Range(|x.shares[group]|))
    ensures Cong(Sum(x.Answered(es, group)), x.secret, x.site.g.order)
  {
    hide Sum, Cong, Members, Session.Answered;
    var ms, shares := Members(es, group), x.shares[group];
    assert |multiset(ms)| == |ms| && |multiset(Range(|shares|))| == |shares|;
    SubmultisetOfSameSize(multiset(ms), multiset(Range(|shares|)));
    AnsweredShares(x, es, group);
    PermutedMultiset(ms, shares);
    assert x.Answered(es, group) == Permuted(ms, shares);
    SumOfMultiset(Permuted(ms, shares), shares);
  }

  lemma MembersPrefix(es: seq<Event>, group: nat)
    requires es != []
    ensures multiset(Members(es[..|es| - 1], group)) <= multiset(Members(es, group))
  {}

  lemma SchedulePrefix<P>(x: Session<P>, es: seq<Event>)
    requires x.Schedule(es) && es != []
    ensures x.Schedule(es[..|es| - 1]) && x.Known(es) && x.Known(es[..|es| - 1])
  {
    hide Members, Session.KnownEvent;
    var before := es[..|es| - 1];
    forall i | 0 <= i < |x.shares| ensures multiset(Members(before, i)) <= multiset(Range(|x.shares[i]|)) {
      MembersPrefix(es, i);
    }
    KnownEvents(x, es);
    KnownEvents(x, before);
  }

  lemma KnownEvents<P>(x: Session<P>, es: seq<Event>)
    requires forall i :: 0 <= i < |es| ==> x.KnownEvent(es[i])
    ensures x.Known(es)
  {}

  // ----- one answer

  lemma {:induction false} AnsweredStep<P>(x: Session<P>, es: seq<Event>, group: nat)
    requires es != [] && x.Known(es) && x.Known(es[..|es| - 1]) && group < |x.shares|
    ensures var e, was := es[|es| - 1], Sum(x.Answered(es[..|es| - 1], group));
            Sum(x.Answered(es, group)) == if group == e.group then was + x.shares[group][e.member] else was
  {
    var e, before := es[|es| - 1], es[..|es| - 1];
    hide Sum;
    if group == e.group {
      var share := x.shares[group][e.member];
      SumConcat(x.Answered(before, group), [share]);
      SumOne(share);
    }
  }

  /** The partial key after one more answer. */
  lemma PartialStep<P(!new)>(x: Session<P>, es: seq<Event>, k: Bytes)
    requires GroupLaws(x.site.g) && es != [] && x.Known(es) && x.Known(es[..|es| - 1]) && k in x.sent
    requires x.sent[k].group < |x.shares|
    ensures var e, before, group := es[|es| - 1], es[..|es| - 1], x.sent[k].group;
            var was := x.site.g.mul(Sum(x.Answered(before, group)), x.site.dec(k));
            x.site.g.mul(Sum(x.Answered(es, group)), x.site.dec(k)) ==
              if group == e.group then x.site.g.add(was, x.site.g.mul(x.shares[e.group][e.member], x.site.dec(k))) else was
  {
    hide Sum, GroupLaws, LawsAt, Session.Answered;
    var e, before, group := es[|es| - 1], es[..|es| - 1], x.sent[k].group;
    AnsweredStep(x, es, group);
    if group == e.group {
      LawsHere(x.site.g, x.site.dec(k));
      AddMul(x.site.g, Sum(x.Answered(before, group)), x.shares[group][e.member], x.site.dec(k));
    }
  }

  lemma CompleteStep<P>(x: Session<P>, es: seq<Event>, i: nat)
    requires x.Schedule(es) && es != [] && i < |x.shares|
    ensures i != es[|es| - 1].group ==> (x.Complete(es, i) <==> x.Complete(es[..|es| - 1], i))
    ensures |Members(es, i)| == |Members(es[..|es| - 1], i)| + (if i == es[|es| - 1].group then 1 else 0) <= |x.shares[i]|
  {
    NotMore(Members(es, i), |x.shares[i]|);
  }

  /** One answer finishes its own group or none. */
  lemma FinishedStep<P>(x: Session<P>, es: seq<Event>)
    requires x.Schedule(es) && es != [] && es[|es| - 1].group < |x.shares|
    ensures var e, before := es[|es| - 1], es[..|es| - 1];
            |x.Finished(es)| == |x.Finished(before)| + (if x.Complete(es, e.group) then 1 else 0)
  {
    hide Members, Session.Schedule;
    var e, before := es[|es| - 1], es[..|es| - 1];
    forall i: nat | i < |x.shares|
      ensures x.Complete(es, i) <==> x.Complete(before, i) || (i == e.group && x.Complete(es, i))
      ensures !x.Complete(before, e.group)
    {
      CompleteStep(x, es, i);
      CompleteStep(x, es, e.group);
    }
    hide Session.Complete;
    if x.Complete(es, e.group) {
      assert x.Finished(es) == x.Finished(before) + {e.group};
    } else {
      assert x.Finished(es) == x.Finished(before);
    }
  }

  /** The entries after the answer was added, before anything is opened. */
  lemma EntryStep<P(!new)>(x: Session<P>, es: seq<Event>, st: State<P>, k: Bytes)
    requires x.Valid() && GroupLaws(x.site.g) && x.Schedule(es) && es != [] && k in x.sent
    requires x.Known(es) && x.Known(es[..|es| - 1]) && es[|es| - 1].group < |x.shares|
    requires x.Inv(es[..|es| - 1], st)
    ensures var e := es[|es| - 1];
            var p := if x.sent[k].group == e.group then AddedTo(x.site, x.shares[e.group][e.member], st.messages[k], k) else st.messages[k];
            && p.group == x.sent[k].group
            && (p.group == e.group ==> !p.used && |p.boomerang| >= OVERHEAD)
            && x.Expected(es, k) ==
               if p.group == e.group && x.Complete(es, e.group) then Opened(x.site, p) else p
  {
    hide Members, Session.Schedule, Session.Answered, Sum, Session.Finished, Nonce, Open, Session.Known, GroupLaws;
    var e, before, group := es[|es| - 1], es[..|es| - 1], x.sent[k].group;
    CompleteStep(x, es, group);
    PartialStep(x, es, k);
    if group == e.group && x.Complete(es, group) {
      MembersFit(x, es, group);
      AllAnswered(x, es, group);
      LawsHere(x.site.g, x.site.dec(k));
      MulCong(x.site.g, Sum(x.Answered(es, group)), x.secret, x.site.dec(k));
    }
  }

  lemma MembersFit<P>(x: Session<P>, es: seq<Event>, group: nat)
    requires x.Schedule(es) && group < |x.shares|
    ensures multiset(Members(es, group)) <= multiset(Range(|x.shares[group]|))
  {}

  lemma LastEvent<P>(x: Session<P>, es: seq<Event>)
    requires x.Schedule(es) && es != []
    ensures x.KnownEvent(es[|es| - 1])
  {}

  /** The answer is absorbed without a failure. */
  lemma AbsorbStep<P>(x: Session<P>, e: Event, ms: map<Bytes, Progress<P>>)
    requires x.KnownEvent(e) && ms.Keys == x.sent.Keys
    ensures var share := x.shares[e.group][e.member];
            var keys := set k | k in x.sent && x.sent[k].group == e.group;
            Absorb(x.site.g, ms, Reply(x.site, share, e.keys)) == Some(Added(x.site, share, ms, keys))
  {
    hide Absorb, Reply, Added;
    forall i | 0 <= i < |e.keys| ensures e.keys[i] in ms { assert e.keys[i] in e.keys; }
    AbsorbListed(x.site, x.shares[e.group][e.member], ms, e.keys);
    assert (set k | k in e.keys) == (set k | k in x.sent && x.sent[k].group == e.group);
  }

  /** What holds of an entry once the answer was added. */
  ghost predicate Ready<P>(x: Session<P>, es: seq<Event>, group: nat, ms: map<Bytes, Progress<P>>)
    requires x.Valid() && x.Known(es)
  {
    && ms.Keys == x.sent.Keys
    && CanDecrypt(ms, group)
    && (forall k :: k in ms ==>
         x.Expected(es, k) ==
         if ms[k].group == group && x.Complete(es, group) then Opened(x.site, ms[k]) else ms[k])
  }

  lemma ReadyAfter<P(!new)>(x: Session<P>, es: seq<Event>, st: State<P>, keys: set<Bytes>)
    requires x.Valid() && GroupLaws(x.site.g) && x.Schedule(es) && es != []
    requires x.Known(es) && x.Known(es[..|es| - 1]) && x.KnownEvent(es[|es| - 1])
    requires x.Inv(es[..|es| - 1], st)
    requires keys == set k | k in x.sent && x.sent[k].group == es[|es| - 1].group
    ensures var e := es[|es| - 1];
            Ready(x, es, e.group, Added(x.site, x.shares[e.group][e.member], st.messages, keys))
  {
    hide Session.Schedule, Session.Known, GroupLaws, Opened, AddedTo, Session.Complete, Session.Expected, Session.Valid,
      Session.KnownEvent;
    var e := es[|es| - 1];
    EventBounds(x, e);
    var ms := Added(x.site, x.shares[e.group][e.member], st.messages, keys);
    assert ms.Keys == x.sent.Keys;
    hide Session.Inv;
    forall k | k in ms
      ensures ms[k].group == e.group ==> !ms[k].used && |ms[k].boomerang| >= OVERHEAD
      ensures x.Expected(es, k) == if ms[k].group == e.group && x.Complete(es, e.group) then Opened(x.site, ms[k]) else ms[k]
    {
      EntryStep(x, es, st, k);
      assert k in keys <==> x.sent[k].group == e.group;
    }
  }

  /** One more answer keeps the invariant, and cannot fail. */
  lemma RespondKeeps<P(!new)>(x: Session<P>, es: seq<Event>, st: State<P>)
    requires x.Valid() && GroupLaws(x.site.g) && x.Schedule(es) && es != []
    requires x.Known(es) && x.Known(es[..|es| - 1]) && x.Inv(es[..|es| - 1], st)
    requires x.KnownEvent(es[|es| - 1])
    ensures var e := es[|es| - 1];
            var next := Respond(x.site, st, e.group, Reply(x.site, x.shares[e.group][e.member], e.keys));
            next.Some? && x.Inv(es, next.value)
  {
    hide Absorb, Reply, Added, Session.Schedule, Session.Known, Members, Session.Expected, Session.Finished, GroupLaws, Opened,
      Session.KnownEvent;
    var e, before := es[|es| - 1], es[..|es| - 1];
    EventBounds(x, e);
    AbsorbStep(x, e, st.messages);
    ReadyAfter(x, es, st, set k | k in x.sent && x.sent[k].group == e.group);
    FinishedStep(x, es);
    forall i | 0 <= i < |x.shares|
      ensures |Members(es, i)| == |Members(before, i)| + (if i == e.group then 1 else 0) <= |x.shares[i]|
    {
      CompleteStep(x, es, i);
    }
  }

  lemma EventBounds<P>(x: Session<P>, e: Event)
    requires x.KnownEvent(e)
    ensures e.group < |x.shares| && e.member < |x.shares[e.group]|
  {}

  // ----- main results

  /** In every interleaving, at every point: no answer fails, an entry holds exactly the answered
      shares applied to its point, and it is opened iff every member of its group has answered. */
  lemma {:induction false} EveryRunKeepsInv<P(!new)>(x: Session<P>, es: seq<Event>)
    requires x.Valid() && GroupLaws(x.site.g) && x.Schedule(es)
    ensures x.Known(es) && x.Run(es).Some? && x.Inv(es, x.Run(es).value)
    decreases |es|
  {
    if es == [] {
      StartInv(x);
    } else {
      SchedulePrefix(x, es);
      LastEvent(x, es);
      EveryRunKeepsInv(x, es[..|es| - 1]);
      RespondKeeps(x, es, x.Run(es[..|es| - 1]).value);
      hide Respond, Session.Inv, Session.Schedule, Session.Known, Reply;
    }
  }

  lemma StartInv<P(!new)>(x: Session<P>)
    requires x.Valid() && GroupLaws(x.site.g)
    ensures x.Inv([], x.Start())
  {
    assert x.Finished([]) == {};
    forall k | k in x.sent ensures x.sent[k] == x.Expected([], k) {
      MulZero(x.site.g, x.site.dec(k));
    }
  }

  /** SendAndRecieve returns once as many groups as there are have reported: then every boomerang
      has been opened, once, with the key the client shares with the group secret. */
  lemma CollectionComplete<P(!new)>(x: Session<P>, es: seq<Event>)
    requires x.Valid() && GroupLaws(x.site.g) && x.Schedule(es)
    ensures x.Run(es).Some? && x.Run(es).value.messages.Keys == x.sent.Keys
    ensures x.Run(es).value.done == |x.shares| ==>
      forall k :: k in x.sent ==>
        x.Run(es).value.messages[k] ==
        Opened(x.site, x.sent[k].(partial := x.site.g.mul(x.secret, x.site.dec(k))))
  {
    EveryRunKeepsInv(x, es);
    var st := x.Run(es).value;
    hide Session.Run, Session.Schedule, Members, Session.Answered, Sum, GroupLaws;
    if st.done == |x.shares| {
      SubsetSize(x.Finished(es), |x.shares|);
      forall k | k in x.sent
        ensures st.messages[k] == Opened(x.site, x.sent[k].(partial := x.site.g.mul(x.secret, x.site.dec(k))))
      {
        var group := x.sent[k].group;
        assert group in x.Finished(es);
        MembersFit(x, es, group);
        AllAnswered(x, es, group);
        LawsHere(x.site.g, x.site.dec(k));
        MulCong(x.site.g, Sum(x.Answered(es, group)), x.secret, x.site.dec(k));
      }
    }
  }

  /** If no group is empty and every member answers, every group reports: SendAndRecieve returns. */
  lemma CollectionEnds<P(!new)>(x: Session<P>, es: seq<Event>)
    requires x.Valid() && GroupLaws(x.site.g) && x.Schedule(es)
    requires forall i :: 0 <= i < |x.shares| ==> |Members(es, i)| == |x.shares[i]| > 0
    ensures x.Run(es).Some? && x.Run(es).value.done == |x.shares|
  {
    EveryRunKeepsInv(x, es);
    FullSize(x.Finished(es), |x.shares|);
  }

  // ----- the primitives of the protocol, realised by the group

  /** Public keys are encoded multiples of a base point, and shared keys multiples of public keys. */
  ghost predicate Realises<P(!new)>(s: Suite, site: Site<P>, base: P) {
    && GroupLaws(site.g) && site.s == s
    && (forall p: P :: site.dec(site.enc(p)) == p)
    && (forall k: int :: s.vk(k) == site.enc(site.g.mul(k, base)))
    && (forall k: int, b: Bytes :: s.dh(k, b) == site.enc(site.g.mul(k, site.dec(b))))
  }

  /** So a shared key agrees from both ends, which is all the protocol assumes of it. */
  lemma DiffieHellmanAgrees<P(!new)>(s: Suite, site: Site<P>, base: P, a: int, b: int)
    requires Realises(s, site, base)
    ensures s.dh(a, s.vk(b)) == s.dh(b, s.vk(a))
  {
    MulMul(site.g, a, b, base);
    MulMul(site.g, b, a, base);
    assert a * b == b * a;
    assert site.dec(site.enc(site.g.mul(b, base))) == site.g.mul(b, base);
    assert site.dec(site.enc(site.g.mul(a, base))) == site.g.mul(a, base);
  }

  /** The client's last boomerang, sent to its group and collected in any order, comes back with
      exactly the group's layer removed. */
  lemma GroupRemovesItsLayer<P(!new)>(net: Net, c: Client, x: Session<P>, base: P, es: seq<Event>)
    requires net.Valid() && c.For(net) && Realises(net.s, x.site, base)
    requires x.Valid() && x.Schedule(es) && x.secret == net.groupSecret
    requires x.site.layers == net.layers && x.site.me == Server(net, c, net.layers - 1)
    requires Vk(net, c, net.layers) in x.sent
    requires x.sent[Vk(net, c, net.layers)].boomerang == BoomerangEnvelope(net, c, net.layers - 1)
    ensures x.Run(es).Some? && Vk(net, c, net.layers) in x.Run(es).value.messages
    ensures x.Run(es).value.done == |x.shares| ==>
      x.Run(es).value.messages[Vk(net, c, net.layers)].boomerang == Boomerang(net, c, net.layers - 1, net.layers - 1)
  {
    hide Session.Run, Session.Schedule, Session.Valid, Boomerang, BoomerangEnvelope, Vk, Server, Nonce, Open, Net.Valid, GroupLaws;
    var k := Vk(net, c, net.layers);
    LayersPositive(net);
    CollectionComplete(x, es);
    InnerReceipt(net, c, net.layers - 1);
    assert net.s.dh(net.groupSecret, k) == x.site.enc(x.site.g.mul(net.groupSecret, x.site.dec(k)));
  }

  lemma LayersPositive(net: Net)
    requires net.Valid()
    ensures net.layers >= 2
  {}
}
