/** Exactly-once accounting (OnionParser in server/processMessages/onion.go over
    server/processMessages/keyTable.go): the parser's counter against the marks on shared entries. */
module Accounting {
  import opened ByteStrings
  import opened Sets
  import opened Sigcryption
  import opened PrepareMessages
  import opened KeyTables
  import opened ProcessMessages

  /** No key was entered twice: the forward table names every entry once, the reverse table names
      no other entry. */
  ghost predicate FreshKeys(t: Table)
    requires t.Valid()
  {
    && (forall j, k :: j in t.fwd && k in t.fwd && t.fwd[j] == t.fwd[k] ==> j == k)
    && (forall k :: k in t.rev ==> t.rev[k] in t.fwd.Values)
  }

  ghost function UsedKeys(t: Table): set<Bytes>
    requires t.Valid()
  {
    set k | k in t.fwd && t.objs[t.fwd[k]].used
  }

  /** The counter is the number of used entries. */
  ghost predicate Accounted(t: Table, count: nat) {
    t.Valid() && FreshKeys(t) && count == |UsedKeys(t)|
  }

  lemma MarkAccounts(t: Table, count: nat, id: nat)
    requires Accounted(t, count) && id in t.fwd.Values && !t.objs[id].used
    ensures Accounted(t.Mark(id), count + 1)
  {
    var k :| k in t.fwd && t.fwd[k] == id;
    assert UsedKeys(t.Mark(id)) == UsedKeys(t) + {k};
  }

  /** An accepted message, found through either table, uses one more entry and is counted once. */
  lemma ParseAccounts(net: Net, round: nat, layer: nat, me: nat, reverse: bool, t: Table, count: nat, msg: Bytes)
    requires Accounted(t, count) && |msg| >= KEY_SIZE + OVERHEAD
    ensures var r := ParseOnion(net, round, layer, me, reverse, t, msg);
            r.Ok? ==> Accounted(r.value.table, count + 1) && UsedKeys(t) < UsedKeys(r.value.table)
  {
    hide Nonce, Authentic, Open;
    var r := ParseOnion(net, round, layer, me, reverse, t, msg);
    if r.Ok? {
      var id := r.value.id;
      assert id in t.fwd.Values by {
        if !reverse { assert msg[..KEY_SIZE] in t.fwd; }
      }
      MarkAccounts(t, count, id);
      var k :| k in t.fwd && t.fwd[k] == id;
      assert k in UsedKeys(t.Mark(id)) && k !in UsedKeys(t);
      assert UsedKeys(t) <= UsedKeys(t.Mark(id));
    }
  }

  /** AllKeysAccountedFor holds exactly when every key was used. */
  lemma AllUsedIff(t: Table, count: nat)
    requires Accounted(t, count)
    ensures count == |t.fwd| <==> forall k :: k in t.fwd ==> t.objs[t.fwd[k]].used
  {
    assert UsedKeys(t) <= t.fwd.Keys && |t.fwd| == |t.fwd.Keys|;
    if UsedKeys(t) != t.fwd.Keys {
      var k :| k in t.fwd.Keys && k !in UsedKeys(t);
      SmallerSet(UsedKeys(t), t.fwd.Keys, k);
    }
  }

  lemma SmallerSet<T>(a: set<T>, b: set<T>, x: T)
    requires a <= b && x in b && x !in a
    ensures |a| < |b|
  {
    Monotone(a, b - {x});
  }

  /** Resetting restores the all-unused state for the next parser. */
  lemma ResetAccounts(t: Table)
    requires t.Valid() && FreshKeys(t)
    ensures Accounted(t.ResetUsage(), 0)
    ensures forall k :: k in t.fwd ==> !t.ResetUsage().objs[t.fwd[k]].used
  {
    assert forall k :: k in t.fwd ==> t.fwd[k] in t.fwd.Values;
    assert UsedKeys(t.ResetUsage()) == {};
  }

  /** Entering a key that neither table has seen keeps keys fresh and the account balanced. */
  lemma AddAccounts(t: Table, count: nat, e: Entry)
    requires Accounted(t, count) && e.vk !in t.fwd && e.outVk !in t.rev && !e.used
    ensures Accounted(t.AddKey(e), count)
  {
    var t' := t.AddKey(e);
    assert t'.fwd[e.vk] in t'.fwd.Values;
    forall k | k in t'.rev ensures t'.rev[k] in t'.fwd.Values {
      if k != e.outVk {
        var j :| j in t.fwd && t.fwd[j] == t.rev[k];
        assert t'.fwd[j] == t.rev[k];
      }
    }
    assert UsedKeys(t') == UsedKeys(t);
  }

  /** A parser fed any messages at all, in any order; rejected ones change nothing. */
  function Feed(net: Net, round: nat, layer: nat, me: nat, reverse: bool, t: Table, count: nat, msgs: seq<Bytes>): (Table, nat)
    requires t.Valid() && (forall i :: 0 <= i < |msgs| ==> |msgs[i]| >= KEY_SIZE + OVERHEAD)
    decreases |msgs|
  {
    if msgs == [] then (t, count)
    else match ParseOnion(net, round, layer, me, reverse, t, msgs[0])
         case Ok(p) => Feed(net, round, layer, me, reverse, p.table, count + 1, msgs[1..])
         case Err(_) => Feed(net, round, layer, me, reverse, t, count, msgs[1..])
  }

  /** So over every run of a parser the counter equals the number of used entries, and no sequence of
      messages, replays included, makes the count exceed the number of keys. */
  lemma {:induction false} FeedAccounts(net: Net, round: nat, layer: nat, me: nat, reverse: bool, t: Table, count: nat, msgs: seq<Bytes>)
    requires Accounted(t, count) && (forall i :: 0 <= i < |msgs| ==> |msgs[i]| >= KEY_SIZE + OVERHEAD)
    ensures var (t', count') := Feed(net, round, layer, me, reverse, t, count, msgs);
            Accounted(t', count') && t'.fwd == t.fwd && count <= count' <= |t'.fwd|
    decreases |msgs|
  {
    hide ParseOnion, Accounted;
    UsedBound(t, count);
    if msgs != [] {
      ParseAccounts(net, round, layer, me, reverse, t, count, msgs[0]);
      match ParseOnion(net, round, layer, me, reverse, t, msgs[0]) {
        case Ok(p) => FeedAccounts(net, round, layer, me, reverse, p.table, count + 1, msgs[1..]);
        case Err(_) => FeedAccounts(net, round, layer, me, reverse, t, count, msgs[1..]);
      }
    }
  }

  lemma UsedBound(t: Table, count: nat)
    requires Accounted(t, count)
    ensures t.Valid() && count <= |t.fwd|
  {
    Monotone(UsedKeys(t), t.fwd.Keys);
    assert |t.fwd| == |t.fwd.Keys|;
  }
}
