/** The server's mutable objects (server/processMessages/keyTable.go, onion.go,
    pathEstablishment.go): two maps that share key entries, a parser that counts the entries used,
    and messages that arrive in buffers. Each method is tied to the value-level step it performs. */
module ServerObjects {
  import opened ByteStrings
  import opened Sigcryption
  import opened PrepareMessages
  import opened KeyTables
  import opened ProcessMessages
  import opened SignedBuffers

  class BootstrapKey {
    const prev: nat
    const shared: Bytes
    const vk: Bytes
    const outShared: Bytes
    const outVk: Bytes
    var next: nat
    var used: bool

    function View(): Entry
      reads this
    {
      Entry(prev, shared, vk, next, outShared, outVk, used)
    }

    constructor (prev: nat, shared: Bytes, vk: Bytes, next: nat, outShared: Bytes, outVk: Bytes)
      ensures View() == Entry(prev, shared, vk, next, outShared, outVk, false)
    {
      this.prev, this.shared, this.vk := prev, shared, vk;
      this.next, this.outShared, this.outVk := next, outShared, outVk;
      used := false;
    }
  }

  ghost predicate AllDifferent(objs: seq<BootstrapKey>) {
    forall i, j :: 0 <= i < j < |objs| ==> objs[i] != objs[j]
  }

  /** The map points to the objects whose places `ids` gives. */
  ghost predicate Refers(m: map<Bytes, BootstrapKey>, ids: map<Bytes, nat>, objs: seq<BootstrapKey>) {
    m.Keys == ids.Keys && forall k :: k in ids ==> ids[k] < |objs| && m[k] == objs[ids[k]]
  }

  lemma RefersMore(m: map<Bytes, BootstrapKey>, ids: map<Bytes, nat>, objs: seq<BootstrapKey>, k: Bytes, b: BootstrapKey)
    requires Refers(m, ids, objs)
    ensures Refers(m[k := b], ids[k := |objs|], objs + [b])
  {}

  lemma DifferentMore(objs: seq<BootstrapKey>, b: BootstrapKey)
    requires AllDifferent(objs) && b !in objs
    ensures AllDifferent(objs + [b])
  {}

  class KeyLookupTable {
    var table: map<Bytes, BootstrapKey>          // by incoming key
    var reverseTable: map<Bytes, BootstrapKey>   // by outgoing key

    ghost var objs: seq<BootstrapKey>
    ghost var fwd: map<Bytes, nat>
    ghost var rev: map<Bytes, nat>

    /** Every entry ever added has its place in `objs`; both maps point to the same objects. */
    ghost predicate Valid()
      reads this
    {
      AllDifferent(objs) && Refers(table, fwd, objs) && Refers(reverseTable, rev, objs)
    }

    ghost function View(): (t: Table)
      requires Valid()
      reads this, objs
      ensures t.Valid()
    {
      Table(seq(|objs|, i requires 0 <= i < |objs| reads this, objs => objs[i].View()), fwd, rev)
    }

    constructor ()
      ensures Valid() && View() == EMPTY && objs == []
    {
      table, reverseTable := map[], map[];
      objs, fwd, rev := [], map[], map[];
      new;
    }

    method AddKey(prev: nat, shared: Bytes, vk: Bytes, next: nat, outShared: Bytes, outVk: Bytes) returns (b: BootstrapKey)
      requires Valid()
      modifies this
      ensures Valid() && fresh(b) && objs == old(objs) + [b]
      ensures View() == old(View()).AddKey(Entry(prev, shared, vk, next, outShared, outVk, false))
    {
      hide Agrees, AllDifferent, Refers;
      ghost var before := View();
      ViewAgrees();
      b := new BootstrapKey(prev, shared, vk, next, outShared, outVk);
      RefersMore(table, fwd, objs, vk, b);
      RefersMore(reverseTable, rev, objs, outVk, b);
      DifferentMore(objs, b);
      table := table[vk := b];
      reverseTable := reverseTable[outVk := b];
      fwd := fwd[vk := |objs|];
      rev := rev[outVk := |objs|];
      objs := objs + [b];
      AddAgrees(before, b);
      AgreesView(before.objs + [b.View()]);
    }

    lemma AddAgrees(before: Table, b: BootstrapKey)
      requires |objs| == |before.objs| + 1 && objs[|before.objs|] == b
      requires forall i :: 0 <= i < |before.objs| ==> objs[i].View() == before.objs[i]
      ensures Agrees(before.objs + [b.View()])
    {}

    method Lookup(key: Bytes, reverse: bool) returns (b: BootstrapKey?)
      requires Valid()
      ensures var id := View().Lookup(key, reverse);
              if id.None? then b == null else b == objs[id.value]
    {
      if reverse {
        b := if key in reverseTable then reverseTable[key] else null;
      } else {
        b := if key in table then table[key] else null;
      }
    }

    method Mark(b: BootstrapKey, ghost id: nat)
      requires Valid() && id < |objs| && b == objs[id]
      modifies objs`used
      ensures Valid() && View() == old(View()).Mark(id)
    {
      hide Agrees;
      ghost var before := View();
      b.used := true;
      assert Agrees(before.Mark(id).objs) by { MarkAgrees(before, id); }
      AgreesView(before.Mark(id).objs);
    }

    /** The objects agree with the marked view when only entry `id` differs from the view before. */
    lemma MarkAgrees(before: Table, id: nat)
      requires before.Valid() && |before.objs| == |objs| && id < |objs|
      requires forall i :: 0 <= i < |objs| && i != id ==> objs[i].View() == before.objs[i]
      requires objs[id].View() == before.objs[id].(used := true)
      ensures Agrees(before.Mark(id).objs)
    {}

    /** At the last layer the entry points to a group instead of a server. */
    method SetNext(b: BootstrapKey, ghost id: nat, next: nat)
      requires Valid() && id < |objs| && b == objs[id]
      modifies b`next
      ensures Valid() && View() == old(View()).SetNext(id, next)
    {
      hide Agrees;
      ghost var before := View();
      b.next := next;
      assert Agrees(before.SetNext(id, next).objs) by { NextAgrees(before, id, next); }
      AgreesView(before.SetNext(id, next).objs);
    }

    lemma NextAgrees(before: Table, id: nat, next: nat)
      requires before.Valid() && |before.objs| == |objs| && id < |objs|
      requires forall i :: 0 <= i < |objs| && i != id ==> objs[i].View() == before.objs[i]
      requires objs[id].View() == before.objs[id].(next := next)
      ensures Agrees(before.SetNext(id, next).objs)
    {}

    method NumKeys() returns (n: nat)
      requires Valid()
      ensures n == |View().fwd|
    {
      assert |table| == |table.Keys| == |fwd.Keys| == |fwd|;
      n := |table|;
    }

    method ResetUsage()
      requires Valid()
      modifies objs`used
      ensures Valid() && View() == old(View()).ResetUsage()
    {
      hide Table.ResetUsage, AllCleared, Agrees, AllDifferent, Refers;
      ghost var before := View();
      ViewAgrees();
      ghost var now := ClearAll(before);
      AgreesView(now);
      ResetIsCleared(before, View(), before.fwd.Values);
    }

    /** The loop over the forward map, in an unspecified order. */
    method ClearAll(ghost t: Table) returns (ghost now: seq<Entry>)
      requires Valid() && t.fwd == fwd && Agrees(t.objs)
      modifies objs`used
      ensures Agrees(now) && AllCleared(t, t.fwd.Values, now)
    {
      hide AllCleared, Agrees, AllDifferent, Refers;
      now := t.objs;
      ghost var cleared: set<nat> := {};
      NothingCleared(t);
      SameKeys();
      var left := table.Keys;
      while left != {}
        invariant left <= t.fwd.Keys && ClearedSoFar(t.fwd, left, cleared)
        invariant Agrees(now) && AllCleared(t, cleared, now)
        decreases left
      {
        var k :| k in left;
        ghost var i := t.fwd[k];
        ClearOne(k, now);
        ClearedStep(t, cleared, now, i);
        ClearedMore(t.fwd, left, cleared, k);
        left, now, cleared := left - {k}, now[i := now[i].(used := false)], cleared + {i};
      }
      assert cleared == t.fwd.Values;
    }

    lemma SameKeys()
      requires Valid()
      ensures table.Keys == fwd.Keys
    {}

    /** The entries' current contents. */
    ghost predicate Agrees(entries: seq<Entry>)
      reads this, objs
    {
      |entries| == |objs| && forall i :: 0 <= i < |objs| ==> objs[i].View() == entries[i]
    }

    lemma ViewAgrees()
      requires Valid()
      ensures Agrees(View().objs)
    {}

    lemma AgreesView(entries: seq<Entry>)
      requires Valid() && Agrees(entries)
      ensures View() == Table(entries, fwd, rev)
    {}

    method ClearOne(k: Bytes, ghost was: seq<Entry>)
      requires Valid() && k in table && Agrees(was)
      modifies objs`used
      ensures |was| == |objs| && fwd[k] < |was|
      ensures Agrees(was[fwd[k] := was[fwd[k]].(used := false)])
    {
      var b := table[k];
      b.used := false;
    }
  }

  /** `now` is what `t` held, with exactly the entries in `cleared` unused. */
  ghost predicate AllCleared(t: Table, cleared: set<nat>, now: seq<Entry>) {
    && |now| == |t.objs|
    && forall i :: 0 <= i < |now| ==> now[i] == if i in cleared then t.objs[i].(used := false) else t.objs[i]
  }

  /** The places of the keys that are no longer left. */
  ghost predicate ClearedSoFar(fwd: map<Bytes, nat>, left: set<Bytes>, cleared: set<nat>) {
    cleared <= fwd.Values && forall k :: k in fwd && k !in left ==> fwd[k] in cleared
  }

  lemma ClearedMore(fwd: map<Bytes, nat>, left: set<Bytes>, cleared: set<nat>, k: Bytes)
    requires ClearedSoFar(fwd, left, cleared) && k in fwd
    ensures ClearedSoFar(fwd, left - {k}, cleared + {fwd[k]})
  {}

  lemma NothingCleared(t: Table)
    ensures AllCleared(t, {}, t.objs)
  {}

  lemma ClearedStep(t: Table, cleared: set<nat>, now: seq<Entry>, j: nat)
    requires AllCleared(t, cleared, now) && j < |now|
    ensures AllCleared(t, cleared + {j}, now[j := now[j].(used := false)])
  {}

  lemma ResetIsCleared(before: Table, after: Table, cleared: set<nat>)
    requires before.Valid() && after.fwd == before.fwd && after.rev == before.rev
    requires cleared == before.fwd.Values && AllCleared(before, cleared, after.objs)
    ensures after == before.ResetUsage()
  {}

  lemma ParseUnfolds(net: Net, round: nat, layer: nat, me: nat, reverse: bool, t: Table, msg: Bytes)
    requires t.Valid() && |msg| >= KEY_SIZE + OVERHEAD
    ensures var id, r := t.Lookup(msg[..KEY_SIZE], reverse), ParseOnion(net, round, layer, me, reverse, t, msg);
            var nonce, box := Nonce(round, NonceLayer(net, layer, reverse), me), msg[KEY_SIZE..];
            && (id.None? ==> r == Err(KeyNotFound))
            && (id.Some? ==>
                 var e := t.objs[id.value];
                 r == if !Authentic(net.s, box, nonce, if reverse then e.outVk else e.vk) then Err(DecryptionFailure)
                      else if e.used then Err(Duplicate)
                      else Ok(Peeled(Open(net.s, box, nonce, if reverse then e.outShared else e.shared), id.value, t.Mark(id.value))))
  {
    hide Nonce, Authentic, Open, Table.Mark;
  }

  class OnionParser {
    const net: Net
    const keyTable: KeyLookupTable
    const reverse: bool
    const round: nat
    const layer: nat
    const me: nat
    var count: nat

    constructor (net: Net, keyTable: KeyLookupTable, reverse: bool, round: nat, layer: nat, me: nat)
      ensures this.net == net && this.keyTable == keyTable && this.reverse == reverse
      ensures this.round == round && this.layer == layer && this.me == me && count == 0
    {
      this.net, this.keyTable, this.reverse := net, keyTable, reverse;
      this.round, this.layer, this.me := round, layer, me;
      count := 0;
    }

    /** The step ParseOnion describes, on the received buffer: the key is copied out before the nonce
        overwrites it, and the entry found through either map is the one marked. */
    method AuthenticatedOnionParse(message: array<Byte>) returns (r: Result<Bytes>, key: BootstrapKey?)
      requires keyTable.Valid() && message.Length >= KEY_SIZE + OVERHEAD
      modifies this`count, message, keyTable.objs`used
      ensures keyTable.Valid() && keyTable.objs == old(keyTable.objs)
      ensures match ParseOnion(net, round, layer, me, reverse, old(keyTable.View()), old(message[..]))
              case Ok(p) =>
                && r == Ok(p.inner) && key == keyTable.objs[p.id]
                && keyTable.View() == p.table && count == old(count) + 1
              case Err(e) => r == Err(e) && key == null && keyTable.View() == old(keyTable.View()) && count == old(count)
      ensures message[KEY_SIZE..] == old(message[KEY_SIZE..])
    {
      hide Nonce, Authentic, Open, Table.Mark, ParseOnion, AllDifferent;
      ghost var t, msg := keyTable.View(), message[..];
      var nonceLayer := NonceLayer(net, layer, reverse);
      var lookup := message[..][..KEY_SIZE];
      key := keyTable.Lookup(lookup, reverse);
      ParseUnfolds(net, round, layer, me, reverse, t, msg);
      if key == null {
        return Err(KeyNotFound), null;
      }
      var inner := Unwrap(message, nonceLayer, if reverse then key.outVk else key.vk, if reverse then key.outShared else key.shared);
      assert keyTable.View() == t;
      if inner.None? {
        return Err(DecryptionFailure), null;
      }
      var first := UseOnce(key, t.Lookup(lookup, reverse).value);
      if first { r := Ok(inner.value); } else { r, key := Err(Duplicate), null; }
    }

    /** Verification and decryption in the received buffer. */
    method Unwrap(message: array<Byte>, nonceLayer: nat, vk: Bytes, sharedKey: Bytes) returns (r: Option<Bytes>)
      requires message.Length >= KEY_SIZE + OVERHEAD
      modifies message
      ensures message[KEY_SIZE..] == old(message[KEY_SIZE..])
      ensures var box, nonce := old(message[..])[KEY_SIZE..], Nonce(round, nonceLayer, me);
              r == if Authentic(net.s, box, nonce, vk) then Some(Open(net.s, box, nonce, sharedKey)) else None
    {
      hide Nonce, Authentic, Open;
      var box := message[..][KEY_SIZE..];
      assert message[KEY_SIZE..] == box;
      var ok := CheckEnvelope(net.s, round, nonceLayer, me, message, KEY_SIZE, vk);
      if !ok { return None; }
      var decrypted := SecretOpen(net.s, box, Nonce(round, nonceLayer, me), sharedKey);
      r := Some(decrypted[..]);
    }

    /** Under the usage lock: an entry is used and counted at most once. */
    method UseOnce(key: BootstrapKey, ghost id: nat) returns (first: bool)
      requires keyTable.Valid() && id < |keyTable.objs| && key == keyTable.objs[id]
      modifies this`count, keyTable.objs`used
      ensures keyTable.Valid() && first == !old(keyTable.View()).objs[id].used
      ensures keyTable.View() == if first then old(keyTable.View()).Mark(id) else old(keyTable.View())
      ensures count == old(count) + if first then 1 else 0
    {
      hide Table.Mark;
      first := !key.used;
      if first {
        keyTable.Mark(key, id);
        count := count + 1;
      }
    }

    /** Also makes all entries unused again when every key was used. */
    method AllKeysAccountedFor() returns (ok: bool)
      requires keyTable.Valid()
      modifies keyTable.objs`used
      ensures keyTable.Valid() && ok == (count == |old(keyTable.View()).fwd|)
      ensures keyTable.View() == if ok then old(keyTable.View()).ResetUsage() else old(keyTable.View())
    {
      var n := keyTable.NumKeys();
      ok := count == n;
      if ok { keyTable.ResetUsage(); }
    }
  }

  class PathEstablishmentParser {
    const net: Net
    const keyTable: KeyLookupTable
    const round: nat
    const layer: nat
    const me: nat
    const boomerangLength: nat
    const last: bool    // a checkpoint sender is attached

    constructor (net: Net, keyTable: KeyLookupTable, round: nat, layer: nat, me: nat, boomerangLength: nat, last: bool)
      ensures this.net == net && this.keyTable == keyTable && this.round == round && this.layer == layer
      ensures this.me == me && this.boomerangLength == boomerangLength && this.last == last
    {
      this.net, this.keyTable, this.round, this.layer := net, keyTable, round, layer;
      this.me, this.boomerangLength, this.last := me, boomerangLength, last;
    }

    /** The step ParsePath describes, on the received and the decrypted buffer. The table is left as
        PathTable says in every case: a message that fails only the check of the group's signature has
        entered its key already. */
    method ParseRecordAndGetNext(message: array<Byte>, source: nat)
      returns (r: Result<Bytes>, key: BootstrapKey?, onward: Routed)
      requires keyTable.Valid() && net.servers > 0 && net.groups > 0 && (last ==> boomerangLength >= OVERHEAD)
      requires message.Length >= ENVELOPE_HEAD + OVERHEAD + ENVELOPE_HEAD + boomerangLength
      modifies message, keyTable
      ensures keyTable.Valid()
      ensures keyTable.View() ==
              PathTable(net, round, layer, me, source, boomerangLength, last, old(keyTable.View()), old(message[..]))
      ensures match ParsePath(net, round, layer, me, source, boomerangLength, last, old(keyTable.View()), old(message[..]))
              case Ok(step) =>
                && r == Ok(step.boomerang) && onward == step.onward && step.id < |keyTable.objs| && key == keyTable.objs[step.id]
              case Err(e) => r == Err(e) && key == null
    {
      hide Nonce, Authentic, Open, TokenContent, SignedForGroup, Signature, RecordKey;
      onward := Routed(0, []);
      var o := OpenMessage(message, source);
      if o.0.Err? { return Err(o.0.error), null, onward; }
      r, key, onward := Record(source, o.0.value, o.1.value);
    }

    /** The checks before anything is recorded; the decrypted info is in a new buffer. */
    method OpenMessage(message: array<Byte>, source: nat) returns (r: (Result<PathOpened>, Option<array<Byte>>))
      requires net.servers > 0 && message.Length >= ENVELOPE_HEAD + OVERHEAD + ENVELOPE_HEAD + boomerangLength
      modifies message
      ensures r.0 == OpenPath(net, round, layer, me, source, boomerangLength, old(message[..]))
      ensures r.0.Ok? ==> r.1.Some? && fresh(r.1.value) && r.1.value[..] == r.0.value.info
    {
      hide Nonce, Authentic, Open, TokenContent;
      var nonce := Nonce(round, layer, me);
      var inKey, inToken := message[..][..POINT_SIZE], message[..][POINT_SIZE..ENVELOPE_HEAD];
      var box := message[..][ENVELOPE_HEAD..];
      assert message[ENVELOPE_HEAD..] == box;
      if inToken != net.s.token(TokenContent(inKey, round, round, source)) { return (Err(TokenInvalid), None); }
      if net.s.hash(inToken) % net.servers != me { return (Err(WrongServer), None); }
      if !net.s.onCurve(inKey) { return (Err(BadElement), None); }
      var sharedKey := net.s.dh(net.secret(me), inKey);
      var ok := CheckEnvelope(net.s, round, layer, me, message, ENVELOPE_HEAD, inKey);
      if !ok { return (Err(DecryptionFailure), None); }
      var buffer := SecretOpen(net.s, box, nonce, sharedKey);
      var info := buffer[..];
      var outKey, outToken := info[..POINT_SIZE], info[POINT_SIZE..ENVELOPE_HEAD];
      if outToken != net.s.token(TokenContent(outKey, round + 1, round + 1, me)) { return (Err(TokenInvalid), None); }
      if !net.s.onCurve(outKey) { return (Err(BadElement), None); }
      return (Ok(PathOpened(inKey, sharedKey, info)), Some(buffer));
    }

    /** The part after both tokens were accepted: the key is recorded, then the group's signature is
        checked in the buffer. */
    method Record(source: nat, o: PathOpened, buffer: array<Byte>) returns (r: Result<Bytes>, key: BootstrapKey?, onward: Routed)
      requires keyTable.Valid() && net.servers > 0 && net.groups > 0 && (last ==> boomerangLength >= OVERHEAD)
      requires buffer[..] == o.info && |o.info| >= ENVELOPE_HEAD + boomerangLength
      modifies keyTable, buffer
      ensures keyTable.Valid() && keyTable.View() == RecordKey(net, me, source, last, old(keyTable.View()), o)
      ensures var info, id := o.info, |old(keyTable.View()).objs|;
              var outKey, outToken := info[..POINT_SIZE], info[POINT_SIZE..ENVELOPE_HEAD];
              var boomerang := info[ENVELOPE_HEAD..ENVELOPE_HEAD + boomerangLength];
              if last && !net.s.verify(outKey, SignedForGroup(net, me, info), Signature(boomerang)) then
                r == Err(DecryptionFailure) && key == null
              else
                && r == Ok(boomerang) && id < |keyTable.objs| && key == keyTable.objs[id]
                && onward == if last then Routed(net.s.hash(outToken) % net.groups, outKey + outToken)
                             else Routed(net.s.hash(outToken) % net.servers, outKey + outToken + info[ENVELOPE_HEAD + boomerangLength..])
    {
      hide SignedForGroup, Signature, RecordKey, KeyLookupTable.View, KeyLookupTable.Valid;
      var info := o.info;
      var outKey, outToken := info[..POINT_SIZE], info[POINT_SIZE..ENVELOPE_HEAD];
      var boomerang := info[ENVELOPE_HEAD..ENVELOPE_HEAD + boomerangLength];
      key := Enter(source, o);
      if !last {
        return Ok(boomerang), key, Routed(net.s.hash(outToken) % net.servers, outKey + outToken + info[ENVELOPE_HEAD + boomerangLength..]);
      }
      var ok := CheckGroupBoomerang(net, round, layer, me, buffer, boomerangLength);
      assert info[..POINT_SIZE] == outKey;
      onward := Routed(net.s.hash(outToken) % net.groups, outKey + outToken);
      if !ok { return Err(DecryptionFailure), null, onward; }
      r := Ok(boomerang);
    }

    /** AddKey, and at the last layer the group as the next hop. */
    method Enter(source: nat, o: PathOpened) returns (key: BootstrapKey)
      requires keyTable.Valid() && net.servers > 0 && net.groups > 0 && |o.info| >= ENVELOPE_HEAD
      modifies keyTable
      ensures keyTable.Valid() && keyTable.View() == RecordKey(net, me, source, last, old(keyTable.View()), o)
      ensures var id := |old(keyTable.View()).objs|; id < |keyTable.objs| && key == keyTable.objs[id]
    {
      hide Table.AddKey, Table.SetNext, AllDifferent, Refers;
      var outKey, outToken := o.info[..POINT_SIZE], o.info[POINT_SIZE..ENVELOPE_HEAD];
      ghost var id := |keyTable.View().objs|;
      key := keyTable.AddKey(source, o.sharedKey, o.inKey, net.s.hash(outToken) % net.servers,
                             net.s.dh(net.secret(me), outKey), outKey);
      if last { keyTable.SetNext(key, id, net.s.hash(outToken) % net.groups); }
    }
  }
}
