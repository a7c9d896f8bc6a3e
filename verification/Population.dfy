/** A set of honest clients with fresh keys, and the key tables that hold exactly their entries. */
module Population {
  import opened ByteStrings
  import opened PrepareMessages
  import opened KeyTables
  import opened ProcessMessages

  datatype World = World(net: Net, cs: seq<Client>) {
    /** All clients follow the configuration; no two path keys and no two client ids coincide. */
    ghost predicate Valid() {
      && net.Valid()
      && (forall c :: 0 <= c < |cs| ==> cs[c].For(net))
      && Fresh()
    }

    ghost predicate Fresh() {
      && (forall c, d, i, j | 0 <= c < |cs| && 0 <= d < |cs| && 0 <= i < |cs[c].keys| && 0 <= j < |cs[d].keys| ::
            Vk(net, cs[c], i) == Vk(net, cs[d], j) ==> c == d && i == j)
      && (forall c, d | 0 <= c < |cs| && 0 <= d < |cs| :: cs[c].id == cs[d].id ==> c == d)
    }

    ghost function Key(c: nat, i: nat): Bytes
      requires Valid() && c < |cs| && i <= net.layers
    {
      Vk(net, cs[c], i)
    }

    ghost function Entry(c: nat, l: nat): Entry
      requires Valid() && c < |cs| && l < net.layers
    {
      EntryOf(net, cs[c], l)
    }

    /** The clients whose path visits server s at layer l. */
    ghost function Visitors(s: nat, l: nat): set<nat>
      requires Valid() && l < net.layers
    {
      set c: nat | c < |cs| && Server(net, cs[c], l) == s
    }

    /** The clients whose path ends in group g. */
    ghost function Members(g: nat): set<nat>
      requires Valid()
    {
      set c: nat | c < |cs| && Group(net, cs[c]) == g
    }
  }

  lemma ClientOf(w: World, c: nat)
    requires w.Valid() && c < |w.cs|
    ensures w.net.Valid() && w.cs[c].For(w.net)
  {}

  lemma KeysDiffer(w: World, c: nat, i: nat, d: nat, j: nat)
    requires w.Valid() && c < |w.cs| && d < |w.cs| && i <= w.net.layers && j <= w.net.layers
    ensures w.Key(c, i) == w.Key(d, j) ==> c == d && i == j
  {}

  /** Clients E occupy the table of a layer-l server, those in U have been used. */
  ghost predicate Slot(w: World, t: Table, l: nat, U: set<nat>, c: nat)
    requires w.Valid() && c < |w.cs| && l < w.net.layers
  {
    && w.Key(c, l) in t.fwd && w.Key(c, l + 1) in t.rev
    && t.rev[w.Key(c, l + 1)] == t.fwd[w.Key(c, l)] < |t.objs|
    && t.objs[t.fwd[w.Key(c, l)]] == w.Entry(c, l).(used := c in U)
  }

  ghost function Keys(w: World, E: set<nat>, i: nat): set<Bytes>
    requires w.Valid() && i <= w.net.layers && (forall c :: c in E ==> c < |w.cs|)
  {
    set c | c in E :: w.Key(c, i)
  }

  /** The table holds the entries of exactly the clients in E, of which exactly those in U are used. */
  ghost predicate TableFor(w: World, t: Table, l: nat, E: set<nat>, U: set<nat>)
    requires w.Valid() && l < w.net.layers
  {
    && t.Valid()
    && (forall c :: c in E ==> c < |w.cs|)
    && t.fwd.Keys == Keys(w, E, l) && t.rev.Keys == Keys(w, E, l + 1)
    && (forall c :: c in E ==> Slot(w, t, l, U, c))
    && Apart(w, t.fwd, l, E)
  }

  /** No two clients share an entry. */
  ghost predicate Apart(w: World, fwd: map<Bytes, nat>, l: nat, E: set<nat>)
    requires w.Valid() && l < w.net.layers && (forall c :: c in E ==> c < |w.cs|)
  {
    forall c, d :: c in E && d in E && w.Key(c, l) in fwd && w.Key(d, l) in fwd && fwd[w.Key(c, l)] == fwd[w.Key(d, l)] ==> c == d
  }

  lemma ApartMore(w: World, fwd: map<Bytes, nat>, l: nat, E: set<nat>, c: nat, n: nat)
    requires w.Valid() && l < w.net.layers && (forall d :: d in E ==> d < |w.cs|) && c < |w.cs| && c !in E
    requires Apart(w, fwd, l, E) && (forall k :: k in fwd ==> fwd[k] < n)
    ensures Apart(w, fwd[w.Key(c, l) := n], l, E + {c})
  {
    hide World.Valid, World.Key;
    forall d | d in E ensures w.Key(d, l) != w.Key(c, l) { KeysDiffer(w, c, l, d, l); }
  }

  lemma VisitorsAreClients(w: World, s: nat, l: nat)
    requires w.Valid() && l < w.net.layers
    ensures forall c :: c in w.Visitors(s, l) ==> c < |w.cs|
  {}

  lemma TableValid(w: World, t: Table, l: nat, E: set<nat>, U: set<nat>)
    requires w.Valid() && l < w.net.layers && TableFor(w, t, l, E, U)
    ensures t.Valid()
  {}

  lemma {:induction false} KeysCount(w: World, E: set<nat>, i: nat)
    requires w.Valid() && i <= w.net.layers && (forall c :: c in E ==> c < |w.cs|)
    ensures |Keys(w, E, i)| == |E|
    decreases |E|
  {
    if E != {} {
      var c :| c in E;
      KeysCount(w, E - {c}, i);
      forall d | d in E - {c} ensures w.Key(d, i) != w.Key(c, i) { KeysDiffer(w, c, i, d, i); }
      assert Keys(w, E, i) == Keys(w, E - {c}, i) + {w.Key(c, i)};
    }
  }

  lemma TableCount(w: World, t: Table, l: nat, E: set<nat>, U: set<nat>)
    requires w.Valid() && l < w.net.layers && TableFor(w, t, l, E, U)
    ensures |t.fwd| == |E|
  {
    KeysCount(w, E, l);
    assert |t.fwd| == |t.fwd.Keys|;
  }

  lemma EntryUnused(w: World, c: nat, l: nat)
    requires w.Valid() && c < |w.cs| && l < w.net.layers
    ensures !w.Entry(c, l).used && w.Entry(c, l).vk == w.Key(c, l) && w.Entry(c, l).outVk == w.Key(c, l + 1)
  {}

  /** Both tables find the same, still unused entry; marking it marks exactly this client. */
  lemma MarkTable(w: World, t: Table, l: nat, E: set<nat>, U: set<nat>, c: nat) returns (id: nat)
    requires w.Valid() && l < w.net.layers && TableFor(w, t, l, E, U) && c in E && c !in U
    ensures t.Lookup(w.Key(c, l), false) == t.Lookup(w.Key(c, l + 1), true) == Some(id)
    ensures id < |t.objs| && t.objs[id] == w.Entry(c, l)
    ensures TableFor(w, t.Mark(id), l, E, U + {c})
  {
    hide World.Valid, World.Entry, World.Key, Keys;
    assert Slot(w, t, l, U, c);
    assert w.Entry(c, l).used == false by { EntryUnused(w, c, l); }
    id := t.fwd[w.Key(c, l)];
    var t' := t.Mark(id);
    assert w.Entry(c, l).(used := false) == w.Entry(c, l);
    forall d | d in E ensures Slot(w, t', l, U + {c}, d) {
      assert Slot(w, t, l, U, d);
    }
  }

  lemma KeysMore(w: World, E: set<nat>, c: nat, i: nat)
    requires w.Valid() && i <= w.net.layers && c < |w.cs| && (forall d :: d in E ==> d < |w.cs|)
    ensures Keys(w, E + {c}, i) == Keys(w, E, i) + {w.Key(c, i)}
  {
    hide World.Valid, World.Key;
  }

  /** Recording a new client's entry. */
  lemma AddTable(w: World, t: Table, l: nat, E: set<nat>, c: nat)
    requires w.Valid() && l < w.net.layers && TableFor(w, t, l, E, {}) && c < |w.cs| && c !in E
    ensures TableFor(w, t.AddKey(w.Entry(c, l)), l, E + {c}, {})
  {
    hide World.Valid, World.Entry, World.Key, TableFor;
    EntryUnused(w, c, l);
    TableValid(w, t, l, E, {});
    AddEntry(w, t, l, E, c, w.Entry(c, l), t.AddKey(w.Entry(c, l)));
  }

  lemma AddEntry(w: World, t: Table, l: nat, E: set<nat>, c: nat, e: Entry, t': Table)
    requires w.Valid() && l < w.net.layers && c < |w.cs| && c !in E && t.Valid() && t' == t.AddKey(e)
    requires TableFor(w, t, l, E, {}) && e == w.Entry(c, l) && e.vk == w.Key(c, l) && e.outVk == w.Key(c, l + 1) && !e.used
    ensures TableFor(w, t', l, E + {c}, {})
  {
    hide World.Valid, World.Entry, World.Key, Slot, Table.AddKey, Apart;
    AddedMaps(t, e);
    ApartMore(w, t.fwd, l, E, c, |t.objs|);
    KeysMore(w, E, c, l);
    KeysMore(w, E, c, l + 1);
    forall d | d in E ensures w.Key(d, l) in t.fwd && Slot(w, t', l, {}, d) && t'.fwd[w.Key(d, l)] == t.fwd[w.Key(d, l)] < |t.objs| {
      AddSlot(w, t, l, c, d, e);
    }
    NewSlot(w, t, l, c, e);
    hide Keys;
  }

  lemma AddedMaps(t: Table, e: Entry)
    requires t.Valid()
    ensures t.AddKey(e).fwd == t.fwd[e.vk := |t.objs|] && t.AddKey(e).rev == t.rev[e.outVk := |t.objs|] && t.AddKey(e).Valid()
  {}

  lemma NewSlot(w: World, t: Table, l: nat, c: nat, e: Entry)
    requires w.Valid() && l < w.net.layers && c < |w.cs| && t.Valid()
    requires e == w.Entry(c, l) && e.vk == w.Key(c, l) && e.outVk == w.Key(c, l + 1) && !e.used
    ensures Slot(w, t.AddKey(e), l, {}, c)
  {
    hide World.Valid, World.Entry, World.Key;
  }

  /** An entry added for c leaves the slot of any other client alone. */
  lemma AddSlot(w: World, t: Table, l: nat, c: nat, d: nat, e: Entry)
    requires w.Valid() && l < w.net.layers && c < |w.cs| && d < |w.cs| && c != d && t.Valid()
    requires Slot(w, t, l, {}, d) && e.vk == w.Key(c, l) && e.outVk == w.Key(c, l + 1)
    ensures w.Key(d, l) in t.fwd && Slot(w, t.AddKey(e), l, {}, d)
    ensures t.AddKey(e).fwd[w.Key(d, l)] == t.fwd[w.Key(d, l)] < |t.objs|
  {
    hide World.Valid, World.Entry, World.Key;
    KeysDiffer(w, c, l, d, l);
    KeysDiffer(w, c, l + 1, d, l + 1);
  }

  /** When everyone was used, resetting makes everyone unused again. */
  lemma ResetTable(w: World, t: Table, l: nat, E: set<nat>, U: set<nat>)
    requires w.Valid() && l < w.net.layers && TableFor(w, t, l, E, U)
    ensures TableFor(w, t.ResetUsage(), l, E, {})
  {
    hide World.Valid, World.Entry, World.Key;
    var t' := t.ResetUsage();
    forall d | d in E ensures Slot(w, t', l, {}, d) {
      assert Slot(w, t, l, U, d);
      assert t.fwd[w.Key(d, l)] in t.fwd.Values;
    }
  }

  /** `ord` lists each element of D exactly once. */
  ghost predicate Enumerates(ord: seq<nat>, D: set<nat>) {
    && (forall i :: 0 <= i < |ord| ==> ord[i] in D)
    && (forall c :: c in D ==> c in ord)
    && (forall i, j :: 0 <= i < j < |ord| ==> ord[i] != ord[j])
  }

  lemma {:induction false} EnumerationLength(ord: seq<nat>, D: set<nat>)
    requires Enumerates(ord, D)
    ensures |ord| == |D|
    decreases |ord|
  {
    if ord == [] {
      assert D == {};
    } else {
      var k := |ord| - 1;
      assert forall c :: c in D - {ord[k]} ==> c in ord[..k];
      EnumerationLength(ord[..k], D - {ord[k]});
    }
  }
}
