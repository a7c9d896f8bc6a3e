/** A member of an anytrust group (server/checkpoint/checkpoint.go, server/groupMember.go): it learns
    the anonymous keys of its clients in the last path round, and accepts one signed final message
    per key in each lightning round. */
module GroupMembers {
  import opened ByteStrings
  import opened Sigcryption
  import opened PrepareMessages
  import opened KeyTables
  import opened ProcessMessages
  import opened Population
  import opened Relay
  import opened LightningRound

  /** VerificationKeyTable (used flag per key, number used) and the messages accepted so far. */
  datatype Member = Member(keys: map<Bytes, bool>, count: nat, finals: seq<Bytes>)

  /** HandleTrusteeMessage, with the state it leaves also when it fails: the key is marked and counted
      before the signature is checked. */
  function HandleTrustee(net: Net, m: Member, data: Bytes): (r: (Member, Option<Error>))
    requires |data| >= KEY_SIZE + SIGNATURE_SIZE
  {
    var key := data[..KEY_SIZE];
    var sig, message := data[KEY_SIZE..KEY_SIZE + SIGNATURE_SIZE], data[KEY_SIZE + SIGNATURE_SIZE..];
    if key !in m.keys then (m, Some(KeyNotFound)) else
    if m.keys[key] then (m, Some(Duplicate)) else
    var marked := Member(m.keys[key := true], m.count + 1, m.finals);
    if !net.s.verify(key, message, sig) then (marked, Some(DecryptionFailure)) else
    (marked.(finals := m.finals + [message]), None)
  }

  /** The same, where an error stops the member. */
  function Accept(net: Net, m: Member, data: Bytes): Result<Member>
    requires |data| >= KEY_SIZE + SIGNATURE_SIZE
  {
    var (m', e) := HandleTrustee(net, m, data);
    if e.Some? then Err(e.value) else Ok(m')
  }

  /** HandleCheckpointMessage: the token must bind the key to the server it came from. */
  function AddKey(net: Net, m: Member, sender: nat, data: Bytes): Result<Member>
    requires |data| == POINT_SIZE + TOKEN_SIZE
  {
    var key, token := data[..POINT_SIZE], data[POINT_SIZE..];
    if token != net.s.token(TokenContent(key, net.layers, net.layers, sender)) then Err(TokenInvalid) else
    if !net.s.onCurve(key) then Err(BadElement) else
    Ok(m.(keys := m.keys[key := false]))
  }

  /** A checkpoint message is accepted only with a token for its key, the last layer and its sender; then
      this key is known and unused, and nothing else changes. */
  lemma AcceptedKey(net: Net, m: Member, sender: nat, data: Bytes)
    requires |data| == POINT_SIZE + TOKEN_SIZE && AddKey(net, m, sender, data).Ok?
    ensures var key := data[..POINT_SIZE];
            var m' := AddKey(net, m, sender, data).value;
            && data[POINT_SIZE..] == net.s.token(TokenContent(key, net.layers, net.layers, sender)) && net.s.onCurve(key)
            && key in m'.keys && !m'.keys[key] && m'.keys.Keys == m.keys.Keys + {key}
            && (forall k :: k in m.keys && k != key ==> m'.keys[k] == m.keys[k])
            && m'.count == m.count && m'.finals == m.finals
  {
    hide TokenContent;
  }

  /** A token issued for another key, round, layer or sender is refused. */
  lemma WrongKeyRefused(net: Net, m: Member, sender: nat, data: Bytes, key: Bytes, round: nat, layer: nat, sender': nat)
    requires |data| == POINT_SIZE + TOKEN_SIZE && TokensDiffer(net.s)
    requires AreWords(net.layers, net.layers, sender) && AreWords(round, layer, sender')
    requires data[POINT_SIZE..] == net.s.token(TokenContent(key, round, layer, sender'))
    requires key != data[..POINT_SIZE] || round != net.layers || layer != net.layers || sender' != sender
    ensures AddKey(net, m, sender, data) == Err(TokenInvalid)
  {
    hide TokenContent;
    if TokenContent(data[..POINT_SIZE], net.layers, net.layers, sender) == TokenContent(key, round, layer, sender') {
      ContentInjective(data[..POINT_SIZE], net.layers, net.layers, sender, key, round, layer, sender');
    }
  }

  predicate AllSignaturesAccountedFor(m: Member) {
    m.count == |m.keys|
  }

  /** NewLightningRound: messages dropped, every key unused again. */
  function NewRound(m: Member): Member {
    Member(map k | k in m.keys :: false, 0, [])
  }

  function AcceptAll(net: Net, m: Member, arrivals: seq<Bytes>): Result<Member>
    requires forall i :: 0 <= i < |arrivals| ==> |arrivals[i]| >= KEY_SIZE + SIGNATURE_SIZE
  {
    if arrivals == [] then Ok(m) else
    var k := |arrivals| - 1;
    match AcceptAll(net, m, arrivals[..k])
    case Err(e) => Err(e)
    case Ok(m') => Accept(net, m', arrivals[k])
  }

  // ----- the keys of exactly the group's clients

  ghost function LastKeys(w: World, E: set<nat>): set<Bytes>
    requires w.Valid() && (forall c :: c in E ==> c < |w.cs|)
  {
    Keys(w, E, w.net.layers)
  }

  /** The member knows the clients in E, and has heard from those in U. */
  ghost predicate Knows(w: World, m: Member, E: set<nat>, U: set<nat>)
    requires w.Valid()
  {
    && (forall c :: c in E ==> c < |w.cs|)
    && m.keys.Keys == LastKeys(w, E)
    && (forall c :: c in E ==> m.keys[w.Key(c, w.net.layers)] == (c in U))
  }

  ghost predicate AreFinals(r: Round, arrivals: seq<Bytes>, ord: seq<nat>)
    requires r.Valid()
  {
    && |ord| == |arrivals|
    && forall i :: 0 <= i < |ord| ==> ord[i] < |r.w.cs| && arrivals[i] == r.FinalData(ord[i])
  }

  lemma FinalSize(r: Round, c: nat)
    requires r.Valid() && c < |r.w.cs|
    ensures |r.FinalData(c)| >= KEY_SIZE + SIGNATURE_SIZE
  {
    Sizes(r.w.net, r.w.cs[c], r.w.net.layers);
    var sk := r.w.cs[c].keys[r.w.net.layers];
    assert |r.w.net.s.sign(sk, r.msg[c])| == SIGNATURE_SIZE;
  }

  lemma AcceptOne(r: Round, m: Member, E: set<nat>, U: set<nat>, c: nat)
    requires r.Valid() && Knows(r.w, m, E, U) && c in E && c !in U
    ensures |r.FinalData(c)| >= KEY_SIZE + SIGNATURE_SIZE
    ensures var m' := Accept(r.w.net, m, r.FinalData(c));
            && m'.Ok? && Knows(r.w, m'.value, E, U + {c})
            && m'.value.count == m.count + 1 && m'.value.finals == m.finals + [r.msg[c]]
  {
    hide World.Valid, World.Key, Vk, Round.FinalData, Knows;
    ClientKnown(r.w, m, E, U, c);
    FinalParts(r, c);
    MarkKnown(r.w, m, E, U, c, Accept(r.w.net, m, r.FinalData(c)).value);
  }

  lemma ClientKnown(w: World, m: Member, E: set<nat>, U: set<nat>, c: nat)
    requires w.Valid() && Knows(w, m, E, U) && c in E
    ensures c < |w.cs| && w.Key(c, w.net.layers) in m.keys && m.keys[w.Key(c, w.net.layers)] == (c in U)
  {
    hide World.Valid, World.Key;
    assert w.Key(c, w.net.layers) in LastKeys(w, E);
  }

  /** The final message split as the group splits it; its signature is good. */
  lemma FinalParts(r: Round, c: nat)
    requires r.Valid() && c < |r.w.cs|
    ensures |r.FinalData(c)| >= KEY_SIZE + SIGNATURE_SIZE
    ensures var data := r.FinalData(c);
            var sig := data[KEY_SIZE..KEY_SIZE + SIGNATURE_SIZE];
            && data[..KEY_SIZE] == r.w.Key(c, r.w.net.layers) && data[KEY_SIZE + SIGNATURE_SIZE..] == r.msg[c]
            && r.w.net.s.verify(data[..KEY_SIZE], r.msg[c], sig)
  {
    var net, client := r.w.net, r.w.cs[c];
    var sk, message := client.keys[net.layers], r.msg[c];
    Sizes(net, client, net.layers);
    var sig := net.s.sign(sk, message);
    assert |sig| == SIGNATURE_SIZE && net.s.verify(net.s.vk(sk), message, sig);
    assert r.FinalData(c) == net.s.vk(sk) + (sig + message);
    hide World.Valid, Round.FinalData;
    Cut(net.s.vk(sk), sig, message);
  }

  lemma Cut(a: Bytes, b: Bytes, m: Bytes)
    ensures (a + (b + m))[..|a|] == a && (a + (b + m))[|a|..|a| + |b|] == b && (a + (b + m))[|a| + |b|..] == m
  {}

  /** Marking one client's key marks exactly this client. */
  lemma MarkKnown(w: World, m: Member, E: set<nat>, U: set<nat>, c: nat, m': Member)
    requires w.Valid() && Knows(w, m, E, U) && c in E && c < |w.cs|
    requires m'.keys == m.keys[w.Key(c, w.net.layers) := true]
    ensures Knows(w, m', E, U + {c})
  {
    hide World.Valid, World.Key;
    var k := w.Key(c, w.net.layers);
    assert k in LastKeys(w, E);
    forall d | d in E && d != c ensures w.Key(d, w.net.layers) != k { KeysDiffer(w, c, w.net.layers, d, w.net.layers); }
  }

  /** The messages of the listed clients, in that order. */
  ghost function Sent(r: Round, ord: seq<nat>): (ms: seq<Bytes>)
    requires r.Valid() && (forall i :: 0 <= i < |ord| ==> ord[i] < |r.w.cs|)
    ensures |ms| == |ord| && (forall i :: 0 <= i < |ord| ==> ms[i] == r.msg[ord[i]])
  {
    seq(|ord|, i requires 0 <= i < |ord| => r.msg[ord[i]])
  }

  ghost function Elements(ord: seq<nat>): set<nat> {
    set c | c in ord
  }

  /** Whatever the order of arrival, a member of group g that receives the final messages of the
      clients of g, each once, accepts them all, misses none, and ends with exactly their messages. */
  lemma {:induction false} AcceptsAll(r: Round, m: Member, E: set<nat>, arrivals: seq<Bytes>, ord: seq<nat>)
    requires r.Valid() && Knows(r.w, m, E, {}) && m.count == 0 && m.finals == []
    requires AreFinals(r, arrivals, ord) && (forall i :: 0 <= i < |ord| ==> ord[i] in E)
    requires forall i, j :: 0 <= i < j < |ord| ==> ord[i] != ord[j]
    ensures forall i :: 0 <= i < |arrivals| ==> |arrivals[i]| >= KEY_SIZE + SIGNATURE_SIZE
    ensures var m' := AcceptAll(r.w.net, m, arrivals);
            && m'.Ok? && m'.value.count == |ord|
            && Knows(r.w, m'.value, E, Elements(ord))
            && m'.value.finals == Sent(r, ord)
  {
    hide World.Valid, Round.FinalData, Accept, Knows;
    forall i | 0 <= i < |arrivals| ensures |arrivals[i]| >= KEY_SIZE + SIGNATURE_SIZE { FinalSize(r, ord[i]); }
    if arrivals == [] {
      assert Elements(ord) == {};
      assert AcceptAll(r.w.net, m, arrivals) == Ok(m);
      assert |Sent(r, ord)| == 0;
    } else {
      var k := |arrivals| - 1;
      AcceptsAll(r, m, E, arrivals[..k], ord[..k]);
      var m1 := AcceptAll(r.w.net, m, arrivals[..k]).value;
      assert Elements(ord) == Elements(ord[..k]) + {ord[k]};
      AcceptOne(r, m1, E, Elements(ord[..k]), ord[k]);
      assert AcceptAll(r.w.net, m, arrivals) == Accept(r.w.net, m1, r.FinalData(ord[k]));
      assert m1.finals + [r.msg[ord[k]]] == Sent(r, ord);
    }
  }

  // ----- from the servers' buffers to every member's messages

  /** Everything the first k servers have buffered for group g. */
  ghost function Gathered(nodes: seq<Node>, g: nat, k: nat): multiset<Bytes>
    requires k <= |nodes| && (forall s :: 0 <= s < |nodes| ==> g < |nodes[s].final|)
  {
    if k == 0 then multiset{} else Gathered(nodes, g, k - 1) + nodes[k - 1].final[g]
  }

  ghost function Below(w: World, k: nat): set<nat>
    requires w.Valid()
  {
    set c: nat | c < |w.cs| && Server(w.net, w.cs[c], w.net.layers - 1) < k
  }

  lemma {:induction false} GatheredFinals(r: Round, nodes: seq<Node>, g: nat, k: nat)
    requires r.Valid() && |nodes| == r.w.net.servers && k <= |nodes|
    requires forall s :: 0 <= s < |nodes| ==> g < |nodes[s].final|
    requires forall s :: 0 <= s < |nodes| ==>
      nodes[s].final[g] == multiset(r.FinalSet(r.w.Visitors(s, r.w.net.layers - 1), g))
    ensures Gathered(nodes, g, k) == multiset(r.FinalSet(Below(r.w, k), g))
  {
    hide World.Fresh, World.Visitors, Below, Round.FinalSet, Round.FinalData;
    BelowStep(r.w, k);
    if k == 0 {
      NoFinals(r, g);
    } else {
      GatheredFinals(r, nodes, g, k - 1);
      BelowStep(r.w, k - 1);
      VisitorsAreClients(r.w, k - 1, r.w.net.layers - 1);
      FinalSetUnion(r, Below(r.w, k - 1), r.w.Visitors(k - 1, r.w.net.layers - 1), g);
    }
  }

  lemma BelowStep(w: World, k: nat)
    requires w.Valid()
    ensures forall c :: c in Below(w, k) ==> c < |w.cs|
    ensures k == 0 ==> Below(w, k) == {}
    ensures k > 0 ==>
      && Below(w, k) == Below(w, k - 1) + w.Visitors(k - 1, w.net.layers - 1)
      && Below(w, k - 1) !! w.Visitors(k - 1, w.net.layers - 1)
  {
    hide World.Fresh, Server;
  }

  lemma FinalSetUnion(r: Round, A: set<nat>, B: set<nat>, g: nat)
    requires r.Valid() && A !! B && (forall c :: c in A ==> c < |r.w.cs|) && (forall c :: c in B ==> c < |r.w.cs|)
    ensures r.FinalSet(A + B, g) == r.FinalSet(A, g) + r.FinalSet(B, g)
    ensures r.FinalSet(A, g) !! r.FinalSet(B, g)
  {
    hide World.Valid, Round.FinalData, Group;
    forall c | c in A ensures r.FinalData(c) !in r.FinalSet(B, g) { FinalDistinct(r, c, B, g); }
  }

  /** The clients of E whose path ends in g. */
  ghost function In(r: Round, E: set<nat>, g: nat): (G: set<nat>)
    requires r.Valid() && (forall c :: c in E ==> c < |r.w.cs|)
    ensures forall c :: c in G ==> c < |r.w.cs|
  {
    set c | c in E && Group(r.w.net, r.w.cs[c]) == g
  }

  lemma FinalsOf(r: Round, E: set<nat>, g: nat)
    requires r.Valid() && (forall c :: c in E ==> c < |r.w.cs|)
    ensures forall a :: a in r.FinalSet(E, g) <==> exists c :: c in In(r, E, g) && r.FinalData(c) == a
  {
    hide World.Fresh, Round.FinalData, Group;
  }

  /** Arrivals that are, as a multiset, a set of final messages come from distinct clients. */
  lemma OrderOf(r: Round, E: set<nat>, g: nat, arrivals: seq<Bytes>) returns (ord: seq<nat>)
    requires r.Valid() && (forall c :: c in E ==> c < |r.w.cs|)
    requires multiset(arrivals) == multiset(r.FinalSet(E, g))
    ensures AreFinals(r, arrivals, ord)
    ensures Enumerates(ord, In(r, E, g))
  {
    hide World.Valid, Round.FinalData, In, Round.FinalSet;
    FinalsOf(r, E, g);
    var G := In(r, E, g);
    ord := [];
    for i := 0 to |arrivals|
      invariant |ord| == i
      invariant forall j :: 0 <= j < i ==> ord[j] in G && arrivals[j] == r.FinalData(ord[j])
    {
      assert arrivals[i] in multiset(arrivals);
      var c :| c in G && r.FinalData(c) == arrivals[i];
      ord := ord + [c];
    }
    forall i, j | 0 <= i < j < |ord| ensures ord[i] != ord[j] {
      NoRepeats(arrivals, r.FinalSet(E, g), i, j);
    }
    forall c | c in G ensures c in ord {
      assert r.FinalData(c) in multiset(arrivals);
      var i :| 0 <= i < |arrivals| && arrivals[i] == r.FinalData(c);
      SameFinal(r, c, ord[i]);
    }
  }

  lemma SameFinal(r: Round, c: nat, d: nat)
    requires r.Valid() && c < |r.w.cs| && d < |r.w.cs| && r.FinalData(c) == r.FinalData(d)
    ensures c == d
  {
    hide World.Valid, Round.FinalData;
    FinalParts(r, c);
    FinalParts(r, d);
    KeysDiffer(r.w, c, r.w.net.layers, d, r.w.net.layers);
  }

  lemma NoRepeats(a: seq<Bytes>, S: set<Bytes>, i: nat, j: nat)
    requires multiset(a) == multiset(S) && i < j < |a|
    ensures a[i] != a[j]
  {
    assert a == a[..j] + [a[j]] + a[j + 1..];
    assert a[i] == a[..j][i];
    assert multiset(a)[a[j]] == multiset(a[..j])[a[j]] + 1 + multiset(a[j + 1..])[a[j]];
  }

  lemma BelowAll(w: World)
    requires w.Valid()
    ensures forall c: nat :: c in Below(w, w.net.servers) <==> c < |w.cs|
  {}

  lemma KnowsAllUsed(w: World, m: Member, E: set<nat>, U: set<nat>)
    requires w.Valid() && Knows(w, m, E, U)
    ensures |m.keys| == |E|
  {
    KeysCount(w, E, w.net.layers);
    assert |m.keys| == |m.keys.Keys|;
  }

  /** Lightning delivery: over established paths, for every interleaving of the servers and every
      order in which a member of group g receives what the servers buffered for g, the member
      accepts everything, has heard from every key it knows, and its final messages are a
      permutation of the messages of exactly the clients whose path ends in g. */
  lemma LightningDelivery(r: Round, tables: seq<seq<Table>>, acts: seq<Action>, end: State<Node>,
                          g: nat, m: Member, arrivals: seq<Bytes>)
    returns (ord: seq<nat>)
    requires r.Valid() && Established(r.w, tables) && r.Rs().Valid()
    requires IsRun(Lightning(r.w.net, r.round), Submitted(r, tables), acts, end)
    requires Finished(Lightning(r.w.net, r.round), end)
    requires g < r.w.net.groups && Knows(r.w, m, r.w.Members(g), {})
    requires end.Run? && (forall s :: 0 <= s < |end.node| ==> g < |end.node[s].final|)
    requires multiset(arrivals) == Gathered(end.node, g, |end.node|)
    ensures forall i :: 0 <= i < |arrivals| ==> |arrivals[i]| >= KEY_SIZE + SIGNATURE_SIZE
    ensures Enumerates(ord, r.w.Members(g)) && (forall i :: 0 <= i < |ord| ==> ord[i] < |r.w.cs|)
    ensures var m' := AcceptAll(r.w.net, NewRound(m), arrivals);
            && m'.Ok? && AllSignaturesAccountedFor(m'.value)
            && Knows(r.w, NewRound(m'.value), r.w.Members(g), {})
            && m'.value.finals == Sent(r, ord)
  {
    hide World.Fresh, IsRun, Submitted, Established, Round.FinalData, Round.FinalSet, AcceptAll, Knows, Enumerates;
    LightningRuns(r, tables, acts, end);
    GatheredFinals(r, end.node, g, |end.node|);
    BelowAll(r.w);
    var E := Below(r.w, r.w.net.servers);
    ord := OrderOf(r, E, g, arrivals);
    assert In(r, E, g) == r.w.Members(g);
    NewRoundKnows(r.w, m, r.w.Members(g), {});
    EnumeratesFacts(ord, r.w.Members(g));
    AcceptsAll(r, NewRound(m), r.w.Members(g), arrivals, ord);
    var m' := AcceptAll(r.w.net, NewRound(m), arrivals).value;
    KnowsAllUsed(r.w, m', r.w.Members(g), Elements(ord));
    EnumerationLength(ord, r.w.Members(g));
    NewRoundKnows(r.w, m', r.w.Members(g), Elements(ord));
  }

  lemma EnumeratesFacts(ord: seq<nat>, D: set<nat>)
    requires Enumerates(ord, D)
    ensures forall i :: 0 <= i < |ord| ==> ord[i] in D
    ensures forall i, j :: 0 <= i < j < |ord| ==> ord[i] != ord[j]
  {}

  lemma NewRoundKnows(w: World, m: Member, E: set<nat>, U: set<nat>)
    requires w.Valid() && Knows(w, m, E, U)
    ensures Knows(w, NewRound(m), E, {})
  {}
}
