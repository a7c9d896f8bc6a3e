/** The last path round through the groups (server/server.go: OnThreshold with SendAndRecieve and
    GetDecrypted). The path round model lets a server peel the group's layer when it handles the
    message; here the server collects partial keys for all its clients, in any interleaving of the
    answers, and only then packs the receipts. What it sends is the same. */
module LastPathRound {
  import opened ByteStrings
  import opened Modular
  import opened Sharing
  import opened Sigcryption
  import opened PrepareMessages
  import opened KeyTables
  import opened ProcessMessages
  import opened Population
  import Routing
  import opened PathRounds
  import opened ThresholdDecryption

  ghost function LastRound(w: World): PathRounds.Round
    requires w.Valid()
  {
    PathRounds.Round(w, w.net.layers - 1)
  }

  /** The clients whose last path server is s. */
  ghost function Served(w: World, s: nat): (D: set<nat>)
    requires w.Valid()
    ensures forall c :: c in D ==> c < |w.cs|
  {
    w.Visitors(s, w.net.layers - 1)
  }

  /** The anonymous key of client c. */
  ghost function LastKey(w: World, c: nat): Bytes
    requires w.Valid() && c < |w.cs|
  {
    w.Key(c, w.net.layers)
  }

  /** AddReverseMessage for client c: fresh, for the client's group; the entry is the client's. */
  ghost function Pending<P>(w: World, site: Site<P>, c: nat): Progress<P>
    requires w.Valid() && c < |w.cs|
  {
    Progress(BoomerangEnvelope(w.net, w.cs[c], w.net.layers - 1), site.g.zero, PrepareMessages.Group(w.net, w.cs[c]), c, false)
  }

  ghost function PendingFor<P>(w: World, site: Site<P>, D: set<nat>): map<Bytes, Progress<P>>
    requires w.Valid() && (forall c :: c in D ==> c < |w.cs|)
  {
    OneKeyEach(w, D);
    map c | c in D :: LastKey(w, c) := Pending(w, site, c)
  }

  lemma OneKeyEach(w: World, D: set<nat>)
    requires w.Valid() && (forall c :: c in D ==> c < |w.cs|)
    ensures forall c, d :: c in D && d in D && LastKey(w, c) == LastKey(w, d) ==> c == d
  {
    hide World.Valid;
    forall c, d | c in D && d in D && LastKey(w, c) == LastKey(w, d) ensures c == d {
      KeysDiffer(w, c, w.net.layers, d, w.net.layers);
    }
  }

  /** Everything server s sends to the groups in the last path round. */
  ghost function SessionOf<P>(w: World, s: nat, site: Site<P>, shares: seq<seq<int>>): Session<P>
    requires w.Valid()
  {
    Session(site, PendingFor(w, site, Served(w, s)), shares, w.net.groupSecret)
  }

  /** The site is server s, and every group holds shares of the group secret. */
  ghost predicate Configured<P(!new)>(w: World, s: nat, site: Site<P>, shares: seq<seq<int>>, base: P)
    requires w.Valid()
  {
    && Realises(w.net.s, site, base) && site.layers == w.net.layers && site.me == s
    && |shares| == w.net.groups && forall i :: 0 <= i < |shares| ==> Cong(Sum(shares[i]), w.net.groupSecret, site.g.order)
  }

  lemma OrderPositive<P(!new)>(s: Suite, site: Site<P>, base: P)
    requires Realises(s, site, base)
    ensures GroupLaws(site.g) && site.g.order > 1
  {}

  lemma GroupsPositive(net: Net)
    requires net.Valid()
    ensures net.groups > 0 && net.servers > 0
  {}

  /** What the server adds for a client is what a collection may start from. */
  lemma PendingValid<P>(w: World, site: Site<P>, c: nat)
    requires w.Valid() && c < |w.cs|
    ensures |Pending(w, site, c).boomerang| >= OVERHEAD && Pending(w, site, c).group < w.net.groups
  {
    hide World.Valid, BoomerangEnvelope, Net.Valid, Vk, Boomerang, Open, Nonce, Server, Client.For, PrepareMessages.Group;
    ClientOf(w, c);
    LayersPositive(w.net);
    GroupsPositive(w.net);
    InnerReceipt(w.net, w.cs[c], w.net.layers - 1);
  }

  /** The session of a server is one the collection theorems apply to. */
  lemma SessionIsValid<P(!new)>(w: World, s: nat, site: Site<P>, shares: seq<seq<int>>, base: P)
    requires w.Valid() && Configured(w, s, site, shares, base)
    ensures SessionOf(w, s, site, shares).Valid()
  {
    hide World.Valid, LastKey, Served, Realises, GroupLaws, Sum, Cong;
    OrderPositive(w.net.s, site, base);
    forall c | c in Served(w, s)
      ensures |Pending(w, site, c).boomerang| >= OVERHEAD && Pending(w, site, c).group < w.net.groups
    {
      PendingValid(w, site, c);
    }
  }

  /** GetDecrypted and AuthenticatedOnionPack for one entry. */
  ghost function SentBack<P>(w: World, s: nat, p: Progress<P>): Routing.Packet
    requires w.Valid() && p.key < |w.cs|
  {
    var out := PackOnion(w.Entry(p.key, w.net.layers - 1), true, p.boomerang);
    Routing.Packet(1, s, out.dest, out.data)
  }

  /** When all groups have reported, client c's entry is packed into exactly the packet that handling
      c's path message yields in the path round model. */
  lemma ReceiptIsPacked<P(!new)>(w: World, s: nat, site: Site<P>, shares: seq<seq<int>>, base: P, es: seq<Event>, c: nat)
    requires w.Valid() && Configured(w, s, site, shares, base) && c in Served(w, s)
    requires SessionOf(w, s, site, shares).Schedule(es)
    requires var r := SessionOf(w, s, site, shares).Run(es); r.Some? ==> r.value.done == |shares|
    ensures var r := SessionOf(w, s, site, shares).Run(es);
            && r.Some? && c < |w.cs| && LastKey(w, c) in r.value.messages
            && var p := r.value.messages[LastKey(w, c)];
               && p.used && p.key == c && SentBack(w, s, p) == LastRound(w).Pkt(c, 1)
  {
    hide Session.Run, Session.Schedule, Session.Valid, World.Valid, SessionOf, Realises, BoomerangEnvelope, Boomerang, Vk, Server,
      Hops, Served, LastKey, PathRounds.Round.Pkt, World.Entry, PackOnion, Net.Valid, PrepareMessages.Group;
    VisitorAt(w, s, c);
    ClientOf(w, c);
    var x := SessionOf(w, s, site, shares);
    SessionIsValid(w, s, site, shares, base);
    InSession(w, s, site, shares, c);
    TwoHops(w);
    GroupRemovesItsLayer(w.net, w.cs[c], x, base, es);
    EntryKept(x, w, s, site, shares, base, es, LastKey(w, c));
    ReceiptPacket(LastRound(w), s, c);
  }

  lemma VisitorAt(w: World, s: nat, c: nat)
    requires w.Valid() && c in Served(w, s)
    ensures c < |w.cs| && Server(w.net, w.cs[c], w.net.layers - 1) == s && c in w.Visitors(s, w.net.layers - 1)
  {}

  lemma InSession<P>(w: World, s: nat, site: Site<P>, shares: seq<seq<int>>, c: nat)
    requires w.Valid() && c in Served(w, s)
    ensures LastKey(w, c) == Vk(w.net, w.cs[c], w.net.layers)
    ensures var x := SessionOf(w, s, site, shares);
            && LastKey(w, c) in x.sent && x.sent[LastKey(w, c)] == Pending(w, site, c)
            && x.secret == w.net.groupSecret && x.site == site && x.shares == shares
  {
    hide World.Valid, Vk, Pending;
    OneKeyEach(w, Served(w, s));
  }

  lemma TwoHops(w: World)
    requires w.Valid()
    ensures LastRound(w).Valid() && 1 < Hops(w.net, w.net.layers - 1) && w.net.layers >= 2
  {}

  /** The collection changes neither the client an entry belongs to nor the set of entries. */
  lemma EntryKept<P(!new)>(x: Session<P>, w: World, s: nat, site: Site<P>, shares: seq<seq<int>>, base: P, es: seq<Event>, k: Bytes)
    requires w.Valid() && Configured(w, s, site, shares, base) && x == SessionOf(w, s, site, shares)
    requires x.Valid() && x.Schedule(es) && k in x.sent && x.Run(es).Some? && x.Run(es).value.done == |shares|
    ensures x.shares == shares && x.Run(es).value.messages.Keys == x.sent.Keys
    ensures x.Run(es).value.messages[k].key == x.sent[k].key && x.Run(es).value.messages[k].used
  {
    hide Session.Run, Session.Schedule, Session.Valid, World.Valid, PendingFor, Open, Nonce;
    OrderPositive(w.net.s, site, base);
    CollectionComplete(x, es);
  }

  ghost function AllSentBack<P>(w: World, s: nat, st: State<P>): set<Routing.Packet>
    requires w.Valid() && (forall k :: k in st.messages ==> st.messages[k].key < |w.cs|)
  {
    set k | k in st.messages :: SentBack(w, s, st.messages[k])
  }

  /** Altogether the server sends back exactly one packet for each of its clients, the ones the path
      round model queues, whatever the order in which the members of the groups answered. */
  lemma LastRoundThroughGroups<P(!new)>(w: World, s: nat, site: Site<P>, shares: seq<seq<int>>, base: P, es: seq<Event>)
    requires w.Valid() && Configured(w, s, site, shares, base)
    requires SessionOf(w, s, site, shares).Schedule(es)
    requires var r := SessionOf(w, s, site, shares).Run(es); r.Some? ==> r.value.done == |shares|
    ensures var r := SessionOf(w, s, site, shares).Run(es);
            && r.Some? && (forall k :: k in r.value.messages ==> r.value.messages[k].key < |w.cs|)
            && LastRound(w).Valid() && 1 < Hops(w.net, w.net.layers - 1)
            && AllSentBack(w, s, r.value) == (set c | c in Served(w, s) :: LastRound(w).Pkt(c, 1))
            && |r.value.messages| == |Served(w, s)|
  {
    hide Session.Run, Session.Schedule, Session.Valid, SessionOf, World.Valid, Realises, Served, LastKey, SentBack, PathRounds.Round.Pkt,
      Hops, PathRounds.Round.Valid, GroupLaws, AllSentBack, Keys;
    var x, D := SessionOf(w, s, site, shares), Served(w, s);
    TwoHops(w);
    SessionIsValid(w, s, site, shares, base);
    OrderPositive(w.net.s, site, base);
    KeysOfSession(w, s, site, shares);
    KeptKeys(x, es);
    var st := x.Run(es).value;
    forall c | c in D
      ensures LastKey(w, c) in st.messages
      ensures var p := st.messages[LastKey(w, c)]; p.key == c && SentBack(w, s, p) == LastRound(w).Pkt(c, 1)
    {
      ReceiptIsPacked(w, s, site, shares, base, es, c);
    }
    SameImage(w, s, st, D);
    KeysCount(w, D, w.net.layers);
    assert |st.messages| == |st.messages.Keys|;
  }

  lemma KeptKeys<P(!new)>(x: Session<P>, es: seq<Event>)
    requires x.Valid() && GroupLaws(x.site.g) && x.Schedule(es)
    ensures x.Run(es).Some? && x.Run(es).value.messages.Keys == x.sent.Keys
  {
    hide Session.Run, Session.Schedule, Session.Valid, GroupLaws;
    CollectionComplete(x, es);
  }

  lemma KeysOfSession<P>(w: World, s: nat, site: Site<P>, shares: seq<seq<int>>)
    requires w.Valid()
    ensures SessionOf(w, s, site, shares).site == site && SessionOf(w, s, site, shares).shares == shares
    ensures SessionOf(w, s, site, shares).sent.Keys == Keys(w, Served(w, s), w.net.layers)
    ensures forall k :: k in SessionOf(w, s, site, shares).sent ==> exists c :: c in Served(w, s) && k == LastKey(w, c)
  {
    hide World.Valid, Served, World.Key, Pending;
    var D := Served(w, s);
    OneKeyEach(w, D);
    forall c | c in D ensures LastKey(w, c) in Keys(w, D, w.net.layers) {}
  }

  lemma SameImage<P>(w: World, s: nat, st: State<P>, D: set<nat>)
    requires w.Valid() && LastRound(w).Valid() && 1 < Hops(w.net, w.net.layers - 1)
    requires forall c :: c in D ==> c < |w.cs|
    requires forall k :: k in st.messages ==> exists c :: c in D && k == LastKey(w, c)
    requires forall c :: c in D ==> LastKey(w, c) in st.messages
    requires forall c :: c in D ==>
      st.messages[LastKey(w, c)].key == c && SentBack(w, s, st.messages[LastKey(w, c)]) == LastRound(w).Pkt(c, 1)
    ensures forall k :: k in st.messages ==> st.messages[k].key < |w.cs|
    ensures AllSentBack(w, s, st) == (set c | c in D :: LastRound(w).Pkt(c, 1))
  {
    hide World.Valid, LastKey, SentBack, PathRounds.Round.Pkt, Hops, PathRounds.Round.Valid;
    forall k | k in st.messages ensures st.messages[k].key < |w.cs| {
      var c :| c in D && k == LastKey(w, c);
    }
    forall q ensures q in AllSentBack(w, s, st) <==> q in (set c | c in D :: LastRound(w).Pkt(c, 1)) {
      if q in AllSentBack(w, s, st) {
        var k :| k in st.messages && q == SentBack(w, s, st.messages[k]);
        var c :| c in D && k == LastKey(w, c);
      }
      if q in (set c | c in D :: LastRound(w).Pkt(c, 1)) {
        var c :| c in D && q == LastRound(w).Pkt(c, 1);
        assert q == SentBack(w, s, st.messages[LastKey(w, c)]);
      }
    }
  }
}
