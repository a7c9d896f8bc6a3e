/** From path establishment to any number of broadcast rounds. */
module EndToEnd {
  import opened ByteStrings
  import opened Sigcryption
  import opened PrepareMessages
  import opened KeyTables
  import opened ProcessMessages
  import opened Population
  import opened Relay
  import opened LightningRound
  import opened GroupMembers
  import opened PathEstablishment

  // ----- the groups learn the anonymous keys

  /** The checkpoint messages a member receives, with their senders, in some order. */
  function AddAll(net: Net, m: Member, arrivals: seq<(nat, Bytes)>): Result<Member>
    requires forall i :: 0 <= i < |arrivals| ==> |arrivals[i].1| == POINT_SIZE + TOKEN_SIZE
  {
    if arrivals == [] then Ok(m) else
    var k := |arrivals| - 1;
    match AddAll(net, m, arrivals[..k])
    case Err(e) => Err(e)
    case Ok(m') => AddKey(net, m', arrivals[k].0, arrivals[k].1)
  }

  /** Client c's checkpoint message: its last key and token, from its last server. */
  ghost function Checkpoint(w: World, c: nat): (nat, Bytes)
    requires w.Valid() && c < |w.cs|
  {
    (Server(w.net, w.cs[c], w.net.layers - 1), w.Key(c, w.net.layers) + Token(w.net, w.cs[c], w.net.layers))
  }

  /** Member of group g receives exactly what the servers kept for g in the last path round. */
  ghost predicate FromServers(w: World, e: St, g: nat, arrivals: seq<(nat, Bytes)>)
  {
    && e.Run? && |e.node| == w.net.servers
    && forall s: nat, d: Bytes :: multiset(arrivals)[(s, d)] == if s < w.net.servers then e.node[s].onward[Routed(g, d)] else 0
  }

  ghost predicate AreCheckpoints(w: World, arrivals: seq<(nat, Bytes)>, ord: seq<nat>)
    requires w.Valid()
  {
    |ord| == |arrivals| && forall i :: 0 <= i < |ord| ==> ord[i] < |w.cs| && arrivals[i] == Checkpoint(w, ord[i])
  }

  lemma CheckpointAccepted(w: World, m: Member, E: set<nat>, c: nat)
    requires w.Valid() && c < |w.cs| && Knows(w, m, E, {})
    ensures |Checkpoint(w, c).1| == POINT_SIZE + TOKEN_SIZE
    ensures var m' := AddKey(w.net, m, Checkpoint(w, c).0, Checkpoint(w, c).1);
            && m'.Ok? && Knows(w, m'.value, E + {c}, {})
            && m'.value.count == m.count && m'.value.finals == m.finals
  {
    var net, client, l := w.net, w.cs[c], w.net.layers;
    Sizes(net, client, l);
    assert Checkpoint(w, c).1[..POINT_SIZE] == w.Key(c, l) && Checkpoint(w, c).1[POINT_SIZE..] == Token(net, client, l);
    assert Prev(net, client, l) == Server(net, client, l - 1);
    hide World.Valid, Server, Prev, TokenContent;
    KeyAdded(w, m, E, c);
  }

  lemma KeyAdded(w: World, m: Member, E: set<nat>, c: nat)
    requires w.Valid() && c < |w.cs| && Knows(w, m, E, {})
    ensures Knows(w, m.(keys := m.keys[w.Key(c, w.net.layers) := false]), E + {c}, {})
  {
    hide World.Valid, World.Key;
    assert LastKeys(w, E + {c}) == LastKeys(w, E) + {w.Key(c, w.net.layers)};
  }

  lemma {:induction false} AddsAll(w: World, m: Member, arrivals: seq<(nat, Bytes)>, ord: seq<nat>)
    requires w.Valid() && Knows(w, m, {}, {}) && AreCheckpoints(w, arrivals, ord)
    ensures forall i :: 0 <= i < |arrivals| ==> |arrivals[i].1| == POINT_SIZE + TOKEN_SIZE
    ensures AddAll(w.net, m, arrivals).Ok? && Knows(w, AddAll(w.net, m, arrivals).value, Elements(ord), {})
    decreases |ord|
  {
    hide World.Valid, Checkpoint, AddKey, Knows;
    forall i | 0 <= i < |arrivals| ensures |arrivals[i].1| == POINT_SIZE + TOKEN_SIZE {
      CheckpointAccepted(w, m, {}, ord[i]);
    }
    if arrivals == [] {
      assert Elements(ord) == {};
    } else {
      var k := |arrivals| - 1;
      AddsAll(w, m, arrivals[..k], ord[..k]);
      assert Elements(ord) == Elements(ord[..k]) + {ord[k]};
      CheckpointAccepted(w, AddAll(w.net, m, arrivals[..k]).value, Elements(ord[..k]), ord[k]);
    }
  }

  lemma KeptForGroup(w: World, e: St, g: nat, s: nat, d: Bytes)
    requires w.Valid() && Completed(w, w.net.layers - 1, e) && s < w.net.servers
    ensures e.node[s].onward[Routed(g, d)] > 0 <==>
            exists c :: c in w.Members(g) && Checkpoint(w, c) == (s, d)
  {
    hide World.Fresh, PathRounds.Round.TablesOk, PathRounds.Round.ReceiptsOk, Server, Token, Vk;
    var x := PathRounds.Round(w, w.net.layers - 1);
    assert x.NodeInv(s, PathRounds.Hops(w.net, w.net.layers - 1), {}, e.node[s]);
    var kept := x.OnwardSet(w.Visitors(s, w.net.layers - 1));
    assert e.node[s].onward == multiset(kept);
    if Routed(g, d) in kept {
      var c :| c in w.Visitors(s, w.net.layers - 1) && x.Onward(c) == Routed(g, d);
      assert c in w.Members(g) && Checkpoint(w, c) == (s, d);
    }
    if c :| c in w.Members(g) && Checkpoint(w, c) == (s, d) {
      assert x.Onward(c) == Routed(g, d) && c in w.Visitors(s, w.net.layers - 1);
    }
  }

  /** Whatever the order, a member of group g that receives what the servers kept for g accepts every
      token and then knows the keys of exactly the clients whose path ends in g. */
  lemma MembersLearnKeys(w: World, e: St, g: nat, m: Member, arrivals: seq<(nat, Bytes)>)
    requires w.Valid() && Completed(w, w.net.layers - 1, e) && FromServers(w, e, g, arrivals)
    requires m == Member(map[], 0, [])
    ensures forall i :: 0 <= i < |arrivals| ==> |arrivals[i].1| == POINT_SIZE + TOKEN_SIZE
    ensures AddAll(w.net, m, arrivals).Ok? && Knows(w, AddAll(w.net, m, arrivals).value, w.Members(g), {})
  {
    hide World.Valid, Completed, AddAll, World.Members, FromServers, Knows;
    var ord := CheckpointOrder(w, e, g, arrivals);
    NothingKnown(w);
    AddsAll(w, m, arrivals, ord);
  }

  lemma NothingKnown(w: World)
    requires w.Valid()
    ensures Knows(w, Member(map[], 0, []), {}, {})
  {
    hide World.Valid;
  }

  /** What arrives is the checkpoint message of each of the group's clients, once. */
  lemma CheckpointOrder(w: World, e: St, g: nat, arrivals: seq<(nat, Bytes)>) returns (ord: seq<nat>)
    requires w.Valid() && Completed(w, w.net.layers - 1, e) && FromServers(w, e, g, arrivals)
    ensures AreCheckpoints(w, arrivals, ord) && Elements(ord) == w.Members(g)
  {
    hide World.Valid, Checkpoint, Completed, World.Members, FromServers;
    MembersAreClients(w, g);
    ord := [];
    for i := 0 to |arrivals|
      invariant |ord| == i
      invariant forall k :: 0 <= k < i ==> ord[k] in w.Members(g) && ord[k] < |w.cs| && arrivals[k] == Checkpoint(w, ord[k])
    {
      var c := WhoseCheckpoint(w, e, g, arrivals, i);
      ord := ord + [c];
    }
    forall c | c in w.Members(g) ensures c in Elements(ord) {
      CheckpointArrives(w, e, g, arrivals, c);
      var i :| 0 <= i < |arrivals| && arrivals[i] == Checkpoint(w, c);
      SameCheckpoint(w, c, ord[i]);
    }
    assert Elements(ord) == w.Members(g);
  }

  lemma WhoseCheckpoint(w: World, e: St, g: nat, arrivals: seq<(nat, Bytes)>, i: nat) returns (c: nat)
    requires w.Valid() && Completed(w, w.net.layers - 1, e) && FromServers(w, e, g, arrivals) && i < |arrivals|
    ensures c in w.Members(g) && c < |w.cs| && arrivals[i] == Checkpoint(w, c)
  {
    hide World.Valid, Checkpoint, Completed, World.Members;
    MembersAreClients(w, g);
    var (s, d) := arrivals[i];
    assert multiset(arrivals)[(s, d)] > 0;
    KeptForGroup(w, e, g, s, d);
    c :| c in w.Members(g) && Checkpoint(w, c) == (s, d);
  }

  lemma CheckpointArrives(w: World, e: St, g: nat, arrivals: seq<(nat, Bytes)>, c: nat)
    requires w.Valid() && Completed(w, w.net.layers - 1, e) && FromServers(w, e, g, arrivals) && c in w.Members(g) && c < |w.cs|
    ensures Checkpoint(w, c) in arrivals
  {
    hide World.Valid, Checkpoint, Completed, World.Members;
    var (s, d) := Checkpoint(w, c);
    CheckpointFrom(w, c);
    KeptForGroup(w, e, g, s, d);
    assert (s, d) in multiset(arrivals);
  }

  lemma MembersAreClients(w: World, g: nat)
    requires w.Valid()
    ensures forall c :: c in w.Members(g) ==> c < |w.cs|
  {}

  lemma CheckpointFrom(w: World, c: nat)
    requires w.Valid() && c < |w.cs|
    ensures Checkpoint(w, c).0 < w.net.servers
  {}

  lemma SameCheckpoint(w: World, c: nat, d: nat)
    requires w.Valid() && c < |w.cs| && d < |w.cs| && Checkpoint(w, c) == Checkpoint(w, d)
    ensures c == d
  {
    Sizes(w.net, w.cs[c], w.net.layers);
    Sizes(w.net, w.cs[d], w.net.layers);
    assert Checkpoint(w, c).1[..POINT_SIZE] == w.Key(c, w.net.layers);
    assert Checkpoint(w, d).1[..POINT_SIZE] == w.Key(d, w.net.layers);
    hide World.Key, Checkpoint;
    KeysDiffer(w, c, w.net.layers, d, w.net.layers);
  }

  // ----- any number of lightning rounds

  function TablesOf(e: State<Node>): seq<seq<Table>>
    requires e.Run?
  {
    seq(|e.node|, s requires 0 <= s < |e.node| => e.node[s].tables)
  }

  /** The tables a round starts from: `t0` for the first, then what the round before left. */
  function TablesBefore(t0: seq<seq<Table>>, ends: seq<State<Node>>, i: nat): seq<seq<Table>>
    requires i <= |ends| && (i > 0 ==> ends[i - 1].Run?)
  {
    if i == 0 then t0 else TablesOf(ends[i - 1])
  }

  /** Lightning rounds one after the other, the first one over the tables `t0`, each next one over
      the tables the previous one left. */
  ghost predicate Broadcasts(w: World, t0: seq<seq<Table>>, rounds: seq<Round>, acts: seq<seq<Action>>, ends: seq<State<Node>>)
    requires w.Valid()
  {
    && |rounds| == |acts| == |ends| && |t0| == w.net.servers
    && (forall i :: 0 <= i < |rounds| ==> rounds[i].w == w && rounds[i].Valid() && rounds[i].Rs().Valid())
    && (forall i :: 0 <= i < |rounds| ==> ends[i].Run? && |ends[i].node| == w.net.servers)
    && (forall i :: 0 <= i < |rounds| ==> Broadcast(rounds[i], TablesBefore(t0, ends, i), acts[i], ends[i]))
  }

  ghost predicate Broadcast(r: Round, tables: seq<seq<Table>>, acts: seq<Action>, end: State<Node>)
    requires r.Valid() && r.Rs().Valid() && |tables| == r.w.net.servers
  {
    && IsRun(Lightning(r.w.net, r.round), Submitted(r, tables), acts, end)
    && Finished(Lightning(r.w.net, r.round), end)
  }

  /** Each round leaves the tables exactly as established: no key is lost, added, or left marked. */
  lemma {:induction false} TablesStayEstablished(
      w: World, t0: seq<seq<Table>>, rounds: seq<Round>, acts: seq<seq<Action>>, ends: seq<State<Node>>, i: nat)
    requires w.Valid() && Established(w, t0) && Broadcasts(w, t0, rounds, acts, ends) && i <= |rounds|
    ensures Established(w, TablesBefore(t0, ends, i))
  {
    hide Established, World.Valid, IsRun, Submitted, Lightning, Round.Rs;
    if i > 0 {
      TablesStayEstablished(w, t0, rounds, acts, ends, i - 1);
      var k := i - 1;
      assert Broadcast(rounds[k], TablesBefore(t0, ends, k), acts[k], ends[k]);
      BroadcastKeeps(rounds[k], TablesBefore(t0, ends, k), acts[k], ends[k]);
    }
  }

  lemma BroadcastKeeps(r: Round, tables: seq<seq<Table>>, acts: seq<Action>, end: State<Node>)
    requires r.Valid() && r.Rs().Valid() && Established(r.w, tables) && Broadcast(r, tables, acts, end)
    ensures end.Run? && Established(r.w, TablesOf(end))
  {
    hide Established, IsRun, Submitted, Lightning, Round.Rs, World.Valid, Round.FinalSet;
    LightningRuns(r, tables, acts, end);
  }

  /** In every lightning round i over established paths, every member of every group that knows the
      keys of its group's clients ends with a permutation of exactly these clients' messages, and is
      ready for the next round. */
  lemma EveryBroadcastDelivers(
      w: World, t0: seq<seq<Table>>, rounds: seq<Round>, acts: seq<seq<Action>>, ends: seq<State<Node>>, i: nat,
      g: nat, m: Member, arrivals: seq<Bytes>)
    returns (ord: seq<nat>)
    requires w.Valid() && Established(w, t0) && Broadcasts(w, t0, rounds, acts, ends)
    requires i < |rounds| && g < w.net.groups && Knows(w, m, w.Members(g), {})
    requires forall s :: 0 <= s < |ends[i].node| ==> g < |ends[i].node[s].final|
    requires multiset(arrivals) == Gathered(ends[i].node, g, |ends[i].node|)
    ensures forall k :: 0 <= k < |arrivals| ==> |arrivals[k]| >= KEY_SIZE + SIGNATURE_SIZE
    ensures Enumerates(ord, w.Members(g)) && (forall k :: 0 <= k < |ord| ==> ord[k] < |w.cs|)
    ensures var m' := AcceptAll(w.net, NewRound(m), arrivals);
            && m'.Ok? && AllSignaturesAccountedFor(m'.value)
            && m'.value.finals == Sent(rounds[i], ord)
            && Knows(w, NewRound(m'.value), w.Members(g), {})
  {
    hide World.Valid, IsRun, Submitted, Lightning, Round.Rs, AcceptAll, Knows, Enumerates, World.Members, Gathered, Established;
    TablesStayEstablished(w, t0, rounds, acts, ends, i);
    assert Broadcast(rounds[i], TablesBefore(t0, ends, i), acts[i], ends[i]);
    ord := LightningDelivery(rounds[i], TablesBefore(t0, ends, i), acts[i], ends[i], g, m, arrivals);
  }

  /** What group g is sent at the end of a lightning round, in some order. */
  ghost predicate Collected(end: State<Node>, g: nat, arrivals: seq<Bytes>) {
    && end.Run? && (forall s :: 0 <= s < |end.node| ==> g < |end.node[s].final|)
    && multiset(arrivals) == Gathered(end.node, g, |end.node|)
  }

  /** A member through k lightning rounds: NewLightningRound, then everything that arrives. */
  function MemberAfter(net: Net, m: Member, arrivals: seq<seq<Bytes>>, k: nat): Result<Member>
    requires k <= |arrivals|
    requires forall i, j :: 0 <= i < k && 0 <= j < |arrivals[i]| ==> |arrivals[i][j]| >= KEY_SIZE + SIGNATURE_SIZE
  {
    if k == 0 then Ok(m) else
    match MemberAfter(net, m, arrivals, k - 1)
    case Err(e) => Err(e)
    case Ok(m') => AcceptAll(net, NewRound(m'), arrivals[k - 1])
  }

  /** After k rounds nothing went wrong, and if k > 0 the member holds round k's messages. */
  ghost predicate Delivered(w: World, rounds: seq<Round>, g: nat, m: Member, arrivals: seq<seq<Bytes>>, k: nat, ord: seq<nat>)
    requires w.Valid() && k <= |arrivals| && (k > 0 ==> k <= |rounds| && rounds[k - 1].w == w && rounds[k - 1].Valid())
  {
    && (forall i, j :: 0 <= i < k && 0 <= j < |arrivals[i]| ==> |arrivals[i][j]| >= KEY_SIZE + SIGNATURE_SIZE)
    && MemberAfter(w.net, m, arrivals, k).Ok?
    && var m' := MemberAfter(w.net, m, arrivals, k).value;
       && Knows(w, NewRound(m'), w.Members(g), {})
       && (k > 0 ==>
            && Enumerates(ord, w.Members(g)) && (forall i :: 0 <= i < |ord| ==> ord[i] < |w.cs|)
            && AllSignaturesAccountedFor(m') && m'.finals == Sent(rounds[k - 1], ord))
  }

  lemma NewRoundTwice(m: Member)
    ensures NewRound(NewRound(m)) == NewRound(m)
  {}

  /** The member's own state carried through the rounds. */
  lemma {:induction false} RoundsDeliver(
      w: World, t0: seq<seq<Table>>, rounds: seq<Round>, acts: seq<seq<Action>>, ends: seq<State<Node>>,
      g: nat, m: Member, arrivals: seq<seq<Bytes>>, k: nat)
    returns (ord: seq<nat>)
    requires w.Valid() && Established(w, t0) && Broadcasts(w, t0, rounds, acts, ends)
    requires g < w.net.groups && Knows(w, m, w.Members(g), {}) && k <= |rounds| == |arrivals|
    requires forall i :: 0 <= i < |rounds| ==> Collected(ends[i], g, arrivals[i])
    ensures Delivered(w, rounds, g, m, arrivals, k, ord)
    decreases k
  {
    hide World.Valid, Established, Knows, World.Members, Delivered, Collected, Broadcasts, MemberAfter;
    BroadcastsShape(w, t0, rounds, acts, ends);
    if k == 0 {
      NothingDelivered(w, rounds, g, m, arrivals);
      ord := [];
    } else {
      var before := RoundsDeliver(w, t0, rounds, acts, ends, g, m, arrivals, k - 1);
      ord := OneMoreRound(w, t0, rounds, acts, ends, g, m, arrivals, k, before);
    }
  }

  lemma BroadcastsShape(w: World, t0: seq<seq<Table>>, rounds: seq<Round>, acts: seq<seq<Action>>, ends: seq<State<Node>>)
    requires w.Valid() && Broadcasts(w, t0, rounds, acts, ends)
    ensures |rounds| == |acts| == |ends|
    ensures forall i :: 0 <= i < |rounds| ==> rounds[i].w == w && rounds[i].Valid()
  {
    hide World.Valid;
  }

  lemma NothingDelivered(w: World, rounds: seq<Round>, g: nat, m: Member, arrivals: seq<seq<Bytes>>)
    requires w.Valid() && Knows(w, m, w.Members(g), {})
    ensures Delivered(w, rounds, g, m, arrivals, 0, [])
  {
    hide World.Valid, Knows, World.Members, NewRound;
    NewRoundKnows(w, m, w.Members(g), {});
  }

  lemma OneMoreRound(
      w: World, t0: seq<seq<Table>>, rounds: seq<Round>, acts: seq<seq<Action>>, ends: seq<State<Node>>,
      g: nat, m: Member, arrivals: seq<seq<Bytes>>, k: nat, before: seq<nat>)
    returns (ord: seq<nat>)
    requires w.Valid() && Established(w, t0) && Broadcasts(w, t0, rounds, acts, ends)
    requires g < w.net.groups && 0 < k <= |rounds| == |arrivals| == |ends| && Collected(ends[k - 1], g, arrivals[k - 1])
    requires forall i :: 0 <= i < |rounds| ==> rounds[i].w == w && rounds[i].Valid()
    requires Delivered(w, rounds, g, m, arrivals, k - 1, before)
    ensures Delivered(w, rounds, g, m, arrivals, k, ord)
  {
    hide World.Valid, Established, Knows, World.Members, Broadcasts, NewRound, AcceptAll, Enumerates, Gathered, Round.Valid, Sent;
    var m' := MemberAfter(w.net, m, arrivals, k - 1).value;
    ord := EveryBroadcastDelivers(w, t0, rounds, acts, ends, k - 1, g, NewRound(m'), arrivals[k - 1]);
    NewRoundTwice(m');
  }

  /** The whole protocol: path rounds in order, then any number of lightning rounds, each over the
      tables the one before left. Every member of group g learns its clients' keys from the checkpoint
      messages, in any order; its state is carried from round to round; and after every round k it
      holds a permutation of exactly the messages of round k of the clients whose path ends in g. */
  lemma AllBroadcastsAfterPaths(
      w: World, starts: seq<St>, pathActs: seq<seq<Action>>, pathEnds: seq<St>,
      rounds: seq<Round>, acts: seq<seq<Action>>, ends: seq<State<Node>>,
      g: nat, checkpoints: seq<(nat, Bytes)>, arrivals: seq<seq<Bytes>>, k: nat)
    returns (m: Member, ord: seq<nat>)
    requires w.Valid() && Rounds(w, starts, pathActs, pathEnds) && |pathEnds| == w.net.layers && g < w.net.groups
    requires FromServers(w, pathEnds[w.net.layers - 1], g, checkpoints)
    requires Broadcasts(w, PathTables(pathEnds[w.net.layers - 1]), rounds, acts, ends)
    requires k <= |rounds| == |arrivals| && forall i :: 0 <= i < |rounds| ==> Collected(ends[i], g, arrivals[i])
    ensures forall i :: 0 <= i < |checkpoints| ==> |checkpoints[i].1| == POINT_SIZE + TOKEN_SIZE
    ensures AddAll(w.net, Member(map[], 0, []), checkpoints) == Ok(m)
    ensures Delivered(w, rounds, g, m, arrivals, k, ord)
  {
    ClientFree(w);
    hide World.Valid, Rounds, Broadcasts, AddAll, Knows, World.Members, Established, Completed, Delivered, Collected;
    var e := pathEnds[w.net.layers - 1];
    PathsDone(w, starts, pathActs, pathEnds);
    MembersLearnKeys(w, e, g, Member(map[], 0, []), checkpoints);
    m := AddAll(w.net, Member(map[], 0, []), checkpoints).value;
    ord := RoundsDeliver(w, PathTables(e), rounds, acts, ends, g, m, arrivals, k);
  }

  function PathTables(e: St): seq<seq<Table>>
    requires e.Run?
  {
    seq(|e.node|, s requires 0 <= s < |e.node| => e.node[s].tables)
  }

  lemma PathsDone(w: World, starts: seq<St>, acts: seq<seq<Action>>, ends: seq<St>)
    requires w.Valid() && Rounds(w, starts, acts, ends) && |ends| == w.net.layers
    ensures Completed(w, w.net.layers - 1, ends[w.net.layers - 1])
    ensures ends[w.net.layers - 1].Run? && Established(w, PathTables(ends[w.net.layers - 1]))
  {
    hide Established, Completed, IsRun, NextRound, IsInitial, PathRounds.PathProto;
    RoundsComplete(w, starts, acts, ends, w.net.layers - 1);
    PathsEstablished(w, starts, acts, ends);
  }
}
