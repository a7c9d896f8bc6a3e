/** What a server does with one message (server/processMessages): peel a lightning or boomerang
    onion, repack it, or process a path-establishment message. */
module ProcessMessages {
  import opened ByteStrings
  import opened Sigcryption
  import opened PrepareMessages
  import opened KeyTables

  datatype Error =
    KeyNotFound | DecryptionFailure | Duplicate | TokenInvalid | WrongServer | BadElement | ClientNotFound

  datatype Result<+T> = Ok(value: T) | Err(error: Error)

  const ENVELOPE_HEAD := POINT_SIZE + TOKEN_SIZE

  /** Reverse messages use layer numbers beyond the forward ones, so no nonce is used twice. */
  function NonceLayer(net: Net, layer: nat, reverse: bool): nat
  {
    if reverse then layer + net.layers else layer
  }

  datatype Peeled = Peeled(inner: Bytes, id: nat, table: Table)

  /** OnionParser.AuthenticatedOnionParse. Framing has fixed the length of the message already. */
  function ParseOnion(net: Net, round: nat, layer: nat, me: nat, reverse: bool, t: Table, msg: Bytes): (r: Result<Peeled>)
    requires t.Valid() && |msg| >= KEY_SIZE + OVERHEAD
    ensures r.Ok? ==> r.value.id < |t.objs| && r.value.table == t.Mark(r.value.id)
  {
    var box := msg[KEY_SIZE..];
    var nonce := Nonce(round, NonceLayer(net, layer, reverse), me);
    var id := t.Lookup(msg[..KEY_SIZE], reverse);
    if id.None? then Err(KeyNotFound) else
    var e := t.objs[id.value];
    if !Authentic(net.s, box, nonce, if reverse then e.outVk else e.vk) then Err(DecryptionFailure) else
    if e.used then Err(Duplicate) else
    Ok(Peeled(Open(net.s, box, nonce, if reverse then e.outShared else e.shared), id.value, t.Mark(id.value)))
  }

  datatype Routed = Routed(dest: nat, data: Bytes)

  /** LightningRouter.AuthenticatedOnionPack. */
  function PackOnion(e: Entry, reverse: bool, inner: Bytes): Routed
  {
    if reverse then Routed(e.prev, e.vk + inner) else Routed(e.next, e.outVk + inner)
  }

  /** TrusteeRouter.Pack: the signature already leads the decrypted message. */
  function PackTrustee(e: Entry, inner: Bytes): Routed
  {
    Routed(e.next, e.outVk + inner)
  }

  /** A path message processed: its boomerang, the new table and entry, and where the rest goes. */
  datatype PathStep = PathStep(boomerang: Bytes, id: nat, table: Table, onward: Routed)

  /** The bytes whose signature is checked at the last layer: the nonce that was written last,
      then everything behind it up to the signature. */
  function SignedForGroup(net: Net, me: nat, info: Bytes): Bytes
    requires |info| >= ENVELOPE_HEAD + OVERHEAD
  {
    Nonce(net.layers, net.layers, me) + info[ENVELOPE_HEAD..|info| - OVERHEAD]
  }

  /** The path info of a message that passed every check before its key is recorded. */
  datatype PathOpened = PathOpened(inKey: Bytes, sharedKey: Bytes, info: Bytes)

  function OpenPath(net: Net, round: nat, layer: nat, me: nat, source: nat, boomerangLength: nat, msg: Bytes): (r: Result<PathOpened>)
    requires net.servers > 0 && |msg| >= ENVELOPE_HEAD + OVERHEAD + ENVELOPE_HEAD + boomerangLength
    ensures r.Ok? ==> |r.value.info| >= ENVELOPE_HEAD + boomerangLength
  {
    var inKey, inToken, box := msg[..POINT_SIZE], msg[POINT_SIZE..ENVELOPE_HEAD], msg[ENVELOPE_HEAD..];
    var nonce := Nonce(round, layer, me);
    if inToken != net.s.token(TokenContent(inKey, round, round, source)) then Err(TokenInvalid) else
    if net.s.hash(inToken) % net.servers != me then Err(WrongServer) else
    if !net.s.onCurve(inKey) then Err(BadElement) else
    var sharedKey := net.s.dh(net.secret(me), inKey);
    if !Authentic(net.s, box, nonce, inKey) then Err(DecryptionFailure) else
    var info := Open(net.s, box, nonce, sharedKey);
    var outKey, outToken := info[..POINT_SIZE], info[POINT_SIZE..ENVELOPE_HEAD];
    if outToken != net.s.token(TokenContent(outKey, round + 1, round + 1, me)) then Err(TokenInvalid) else
    if !net.s.onCurve(outKey) then Err(BadElement) else
    Ok(PathOpened(inKey, sharedKey, info))
  }

  /** The key is recorded before the signature for the group is checked. */
  function RecordKey(net: Net, me: nat, source: nat, last: bool, t: Table, o: PathOpened): (t': Table)
    requires t.Valid() && net.servers > 0 && net.groups > 0 && |o.info| >= ENVELOPE_HEAD
    ensures t'.Valid() && |t'.objs| == |t.objs| + 1
  {
    var outKey, outToken := o.info[..POINT_SIZE], o.info[POINT_SIZE..ENVELOPE_HEAD];
    var entry := Entry(source, o.sharedKey, o.inKey, net.s.hash(outToken) % net.servers,
                       net.s.dh(net.secret(me), outKey), outKey, false);
    var added := t.AddKey(entry);
    if last then added.SetNext(|t.objs|, net.s.hash(outToken) % net.groups) else added
  }

  /** The table ParseRecordAndGetNext leaves, whether it succeeds or not. */
  function PathTable(net: Net, round: nat, layer: nat, me: nat, source: nat, boomerangLength: nat, last: bool,
                     t: Table, msg: Bytes): (t': Table)
    requires t.Valid() && net.servers > 0 && net.groups > 0
    requires |msg| >= ENVELOPE_HEAD + OVERHEAD + ENVELOPE_HEAD + boomerangLength
    ensures t'.Valid()
  {
    match OpenPath(net, round, layer, me, source, boomerangLength, msg)
    case Err(_) => t
    case Ok(o) => RecordKey(net, me, source, last, t, o)
  }

  /** PathEstablishmentParser.ParseRecordAndGetNext; `boomerangLength` is the table entry for the layer. */
  function ParsePath(net: Net, round: nat, layer: nat, me: nat, source: nat, boomerangLength: nat, last: bool,
                     t: Table, msg: Bytes): (r: Result<PathStep>)
    requires t.Valid() && net.servers > 0 && net.groups > 0
    requires |msg| >= ENVELOPE_HEAD + OVERHEAD + ENVELOPE_HEAD + boomerangLength
    requires last ==> boomerangLength >= OVERHEAD
    ensures r.Ok? ==> r.value.table.Valid() && r.value.id < |r.value.table.objs|
    ensures r.Ok? ==> r.value.table == PathTable(net, round, layer, me, source, boomerangLength, last, t, msg)
  {
    match OpenPath(net, round, layer, me, source, boomerangLength, msg)
    case Err(e) => Err(e)
    case Ok(o) =>
      var info := o.info;
      var outKey, outToken := info[..POINT_SIZE], info[POINT_SIZE..ENVELOPE_HEAD];
      var boomerang := info[ENVELOPE_HEAD..ENVELOPE_HEAD + boomerangLength];
      var id, table := |t.objs|, RecordKey(net, me, source, last, t, o);
      if !last then
        Ok(PathStep(boomerang, id, table,
          Routed(net.s.hash(outToken) % net.servers, outKey + outToken + info[ENVELOPE_HEAD + boomerangLength..])))
      else if !net.s.verify(outKey, SignedForGroup(net, me, info), Signature(boomerang)) then Err(DecryptionFailure)
      else Ok(PathStep(boomerang, id, table, Routed(net.s.hash(outToken) % net.groups, outKey + outToken)))
  }

  /** A path message that fails leaves the table alone if and only if it failed before its key was
      recorded. The only later failure is a bad signature for the group, at the last layer, and it
      leaves one more entry. */
  lemma FailedPathTable(net: Net, round: nat, layer: nat, me: nat, source: nat, boomerangLength: nat, last: bool, t: Table, msg: Bytes)
    requires t.Valid() && net.servers > 0 && net.groups > 0
    requires |msg| >= ENVELOPE_HEAD + OVERHEAD + ENVELOPE_HEAD + boomerangLength && (last ==> boomerangLength >= OVERHEAD)
    requires ParsePath(net, round, layer, me, source, boomerangLength, last, t, msg).Err?
    ensures var o := OpenPath(net, round, layer, me, source, boomerangLength, msg);
            var t' := PathTable(net, round, layer, me, source, boomerangLength, last, t, msg);
            && (t' == t <==> o.Err?)
            && (o.Ok? ==> last && |t'.objs| == |t.objs| + 1)
            && (o.Ok? ==> ParsePath(net, round, layer, me, source, boomerangLength, last, t, msg) == Err(DecryptionFailure))
  {
    hide OpenPath, SignedForGroup, Signature, RecordKey;
  }

  // ----- only what was meant for this hop is accepted

  /** An onion that is accepted carries a signature over this round, layer and server and its
      ciphertext, under the key of an unused entry found by its leading bytes; the entry is marked. */
  lemma AcceptedOnion(net: Net, round: nat, layer: nat, me: nat, reverse: bool, t: Table, msg: Bytes)
    requires t.Valid() && |msg| >= KEY_SIZE + OVERHEAD
    requires ParseOnion(net, round, layer, me, reverse, t, msg).Ok?
    ensures var id := ParseOnion(net, round, layer, me, reverse, t, msg).value.id;
            && id < |t.objs| && t.Lookup(msg[..KEY_SIZE], reverse) == Some(id) && !t.objs[id].used
            && var vk := if reverse then t.objs[id].outVk else t.objs[id].vk;
               var nonce := LE(round, 8) + LE(if reverse then layer + net.layers else layer, 8) + LE(me, 8);
               net.s.verify(vk, nonce + msg[KEY_SIZE..|msg| - SIGNATURE_SIZE], msg[|msg| - SIGNATURE_SIZE..])
  {
    hide Open, LE;
    var box := msg[KEY_SIZE..];
    assert Ciphertext(box) == msg[KEY_SIZE..|msg| - SIGNATURE_SIZE] && Signature(box) == msg[|msg| - SIGNATURE_SIZE..];
  }

  /** What the server of a path message finds in it. */
  function Inside(net: Net, round: nat, layer: nat, me: nat, msg: Bytes): Bytes
    requires |msg| >= ENVELOPE_HEAD + OVERHEAD
  {
    Open(net.s, msg[ENVELOPE_HEAD..], Nonce(round, layer, me), net.s.dh(net.secret(me), msg[..POINT_SIZE]))
  }

  /** A path message that is accepted comes with a token for its key, round and the sender, sent to the
      server the token hashes to, and with a signature over this round, layer and server and its
      ciphertext. Inside is a token of this server for the next key and round; at the last layer the next
      key has signed the boomerang for the group. */
  lemma AcceptedPath(net: Net, round: nat, layer: nat, me: nat, source: nat, boomerangLength: nat, last: bool, t: Table, msg: Bytes)
    requires t.Valid() && net.servers > 0 && net.groups > 0
    requires |msg| >= ENVELOPE_HEAD + OVERHEAD + ENVELOPE_HEAD + boomerangLength && (last ==> boomerangLength >= OVERHEAD)
    requires ParsePath(net, round, layer, me, source, boomerangLength, last, t, msg).Ok?
    ensures var key, token := msg[..POINT_SIZE], msg[POINT_SIZE..ENVELOPE_HEAD];
            var nonce := LE(round, 8) + LE(layer, 8) + LE(me, 8);
            && token == net.s.token(TokenContent(key, round, round, source)) && net.s.hash(token) % net.servers == me
            && net.s.onCurve(key)
            && net.s.verify(key, nonce + msg[ENVELOPE_HEAD..|msg| - SIGNATURE_SIZE], msg[|msg| - SIGNATURE_SIZE..])
    ensures var info := Inside(net, round, layer, me, msg);
            var key, token := info[..POINT_SIZE], info[POINT_SIZE..ENVELOPE_HEAD];
            var nonce := LE(net.layers, 8) + LE(net.layers, 8) + LE(me, 8);
            && token == net.s.token(TokenContent(key, round + 1, round + 1, me)) && net.s.onCurve(key)
            && (last ==> net.s.verify(key, nonce + info[ENVELOPE_HEAD..|info| - SIGNATURE_SIZE],
                                      info[ENVELOPE_HEAD + boomerangLength - SIGNATURE_SIZE..ENVELOPE_HEAD + boomerangLength]))
  {
    hide Open, LE, RecordKey, TokenContent;
    var box := msg[ENVELOPE_HEAD..];
    assert Ciphertext(box) == msg[ENVELOPE_HEAD..|msg| - SIGNATURE_SIZE] && Signature(box) == msg[|msg| - SIGNATURE_SIZE..];
    var info := Inside(net, round, layer, me, msg);
    if last { SignatureInside(info, boomerangLength); }
  }

  lemma SignatureInside(info: Bytes, b: nat)
    requires |info| >= ENVELOPE_HEAD + b && b >= OVERHEAD
    ensures Signature(info[ENVELOPE_HEAD..ENVELOPE_HEAD + b]) == info[ENVELOPE_HEAD + b - SIGNATURE_SIZE..ENVELOPE_HEAD + b]
  {}

  /** A path message whose token was issued for another key, round, layer or sender is refused. */
  lemma WrongTokenRefused(net: Net, round: nat, layer: nat, me: nat, source: nat, boomerangLength: nat, last: bool, t: Table, msg: Bytes,
                          key: Bytes, round': nat, layer': nat, source': nat)
    requires t.Valid() && net.servers > 0 && net.groups > 0 && TokensDiffer(net.s)
    requires |msg| >= ENVELOPE_HEAD + OVERHEAD + ENVELOPE_HEAD + boomerangLength && (last ==> boomerangLength >= OVERHEAD)
    requires AreWords(round, round, source) && AreWords(round', layer', source')
    requires msg[POINT_SIZE..ENVELOPE_HEAD] == net.s.token(TokenContent(key, round', layer', source'))
    requires key != msg[..POINT_SIZE] || round' != round || layer' != round || source' != source
    ensures ParsePath(net, round, layer, me, source, boomerangLength, last, t, msg) == Err(TokenInvalid)
    ensures PathTable(net, round, layer, me, source, boomerangLength, last, t, msg) == t
  {
    hide Open, Nonce, RecordKey, SignedForGroup, TokenContent, Authentic;
    if TokenContent(msg[..POINT_SIZE], round, round, source) == TokenContent(key, round', layer', source') {
      ContentInjective(msg[..POINT_SIZE], round, round, source, key, round', layer', source');
    }
  }

  // ----- client and server agree at every hop

  /** The entry the server of layer `l` holds for a client once its path message was processed. */
  function EntryOf(net: Net, c: Client, l: nat): Entry
    requires c.For(net) && net.servers > 0 && net.groups > 0 && l < net.layers
  {
    Entry(Prev(net, c, l), Shared(net, c, l), Vk(net, c, l),
          if l == net.layers - 1 then Group(net, c) else Server(net, c, l + 1),
          net.s.dh(net.secret(Server(net, c, l)), Vk(net, c, l + 1)), Vk(net, c, l + 1), false)
  }

  /** What the server of layer `l` keeps of a client's path message: the envelope for the next layer,
      or the last key and token for the group. */
  function OnwardOf(net: Net, c: Client, l: nat): Routed
    requires c.For(net) && net.servers > 0 && net.groups > 0 && l < net.layers
  {
    if l < net.layers - 1 then Routed(Server(net, c, l + 1), PathEnvelope(net, c, l + 1))
    else Routed(Group(net, c), Vk(net, c, net.layers) + Token(net, c, net.layers))
  }

  /** Both ends of every link derive the same key, in both directions. */
  lemma KeysAgree(net: Net, c: Client, l: nat)
    requires net.Valid() && c.For(net) && l < net.layers
    ensures net.s.dh(net.secret(Server(net, c, l)), Vk(net, c, l)) == Shared(net, c, l)
    ensures l + 1 < net.layers ==> EntryOf(net, c, l).outShared == PrevShared(net, c, l + 1)
    ensures net.s.dh(net.groupSecret, Vk(net, c, net.layers)) == PrevShared(net, c, net.layers)
  {
    var x := net.secret(Server(net, c, l));
    Commutes(net.s, x, c.keys[l]);
    Commutes(net.s, x, c.keys[l + 1]);
    Commutes(net.s, net.groupSecret, c.keys[net.layers]);
  }

  lemma Commutes(s: Suite, a: int, b: int)
    requires s.Laws()
    ensures s.dh(a, s.vk(b)) == s.dh(b, s.vk(a))
  {}

  /** A box that is authentic under the entry's key and nonce is accepted and opened. */
  lemma OnionAccepted(net: Net, round: nat, layer: nat, me: nat, reverse: bool, t: Table, id: nat, key: Bytes, box: Bytes)
    requires t.Valid() && |key| == KEY_SIZE && |box| >= OVERHEAD
    requires t.Lookup(key, reverse) == Some(id) && !t.objs[id].used
    requires var e, nonce := t.objs[id], Nonce(round, NonceLayer(net, layer, reverse), me);
             Authentic(net.s, box, nonce, if reverse then e.outVk else e.vk)
    ensures var e, nonce := t.objs[id], Nonce(round, NonceLayer(net, layer, reverse), me);
            ParseOnion(net, round, layer, me, reverse, t, key + box)
            == Ok(Peeled(Open(net.s, box, nonce, if reverse then e.outShared else e.shared), id, t.Mark(id)))
  {
    hide Nonce, Open, Authentic;
    assert (key + box)[..KEY_SIZE] == key && (key + box)[KEY_SIZE..] == box;
  }

  /** One forward hop: the server of layer `l` peels exactly the client's layer `l`. */
  lemma ForwardHop(net: Net, c: Client, round: nat, message: Bytes, l: nat, t: Table, id: nat)
    requires net.Valid() && c.For(net) && l < net.layers && t.Valid()
    requires t.Lookup(Vk(net, c, l), false) == Some(id) && t.objs[id] == EntryOf(net, c, l)
    ensures |Vk(net, c, l) + Onion(net, c, round, message, l)| >= KEY_SIZE + OVERHEAD
    ensures ParseOnion(net, round, l, Server(net, c, l), false, t, Vk(net, c, l) + Onion(net, c, round, message, l))
            == Ok(Peeled(Onion(net, c, round, message, l + 1), id, t.Mark(id)))
  {
    hide Seal, Nonce, Server, Open, Authentic, Shared, Token, Prev, ParseOnion;
    SealOpens(net.s, Onion(net, c, round, message, l + 1), Nonce(round, l, Server(net, c, l)),
              Shared(net, c, l), c.keys[l]);
    OnionAccepted(net, round, l, Server(net, c, l), false, t, id, Vk(net, c, l), Onion(net, c, round, message, l));
  }

  /** One reverse hop: the server of layer `l` peels exactly the client's reverse layer `l`. */
  lemma ReverseHop(net: Net, c: Client, round: nat, l: nat, t: Table, id: nat)
    requires net.Valid() && c.For(net) && net.ReceiptLayer(round) <= l < round < net.layers && t.Valid()
    requires t.Lookup(Vk(net, c, l + 1), true) == Some(id) && t.objs[id] == EntryOf(net, c, l)
    ensures |Vk(net, c, l + 1) + Boomerang(net, c, round, l + 1)| >= KEY_SIZE + OVERHEAD
    ensures ParseOnion(net, round, l, Server(net, c, l), true, t, Vk(net, c, l + 1) + Boomerang(net, c, round, l + 1))
            == Ok(Peeled(Boomerang(net, c, round, l), id, t.Mark(id)))
  {
    hide Seal, Nonce, Server, Open, Authentic, PrevShared, Shared, Token, Prev, ParseOnion;
    SealOpens(net.s, Boomerang(net, c, round, l), Nonce(round, l + net.layers, Server(net, c, l)),
              PrevShared(net, c, l + 1), c.keys[l + 1]);
    KeysAgree(net, c, l);
    OnionAccepted(net, round, l, Server(net, c, l), true, t, id, Vk(net, c, l + 1), Boomerang(net, c, round, l + 1));
  }

  lemma Sizes(net: Net, c: Client, i: nat)
    requires net.Valid() && c.For(net) && i <= net.layers
    ensures |Vk(net, c, i)| == POINT_SIZE && |Token(net, c, i)| == TOKEN_SIZE && net.s.onCurve(Vk(net, c, i))
  {
    hide Prev, TokenContent;
    var k, content := c.keys[i], TokenContent(Vk(net, c, i), i, i, Prev(net, c, i));
    assert |net.s.vk(k)| == KEY_SIZE && |net.s.token(content)| == TOKEN_SIZE;
  }

  lemma InfoParts(net: Net, c: Client, l: nat)
    requires net.Valid() && c.For(net) && l < net.layers
    ensures var info, b := PathInfo(net, c, l), |BoomerangEnvelope(net, c, l)|;
            && |info| == ENVELOPE_HEAD + b + |PathBox(net, c, l + 1)|
            && info[..POINT_SIZE] == Vk(net, c, l + 1)
            && info[POINT_SIZE..ENVELOPE_HEAD] == Token(net, c, l + 1)
            && info[ENVELOPE_HEAD..ENVELOPE_HEAD + b] == BoomerangEnvelope(net, c, l)
            && info[ENVELOPE_HEAD + b..] == PathBox(net, c, l + 1)
  {
    hide BoomerangEnvelope, PathBox, Token, Vk;
    Sizes(net, c, l + 1);
  }

  lemma EnvelopeParts(net: Net, c: Client, l: nat)
    requires net.Valid() && c.For(net) && l < net.layers
    ensures var m, info := PathEnvelope(net, c, l), PathInfo(net, c, l);
            var nonce := Nonce(l, l, Server(net, c, l));
            && |m| == ENVELOPE_HEAD + OVERHEAD + |info|
            && m[..POINT_SIZE] == Vk(net, c, l)
            && m[POINT_SIZE..ENVELOPE_HEAD] == Token(net, c, l)
            && Authentic(net.s, m[ENVELOPE_HEAD..], nonce, Vk(net, c, l))
            && Open(net.s, m[ENVELOPE_HEAD..], nonce, Shared(net, c, l)) == info
  {
    hide Seal, Nonce, Server, Open, Authentic, Shared, Token, PathInfo;
    Sizes(net, c, l);
    SealOpens(net.s, PathInfo(net, c, l), Nonce(l, l, Server(net, c, l)), Shared(net, c, l), c.keys[l]);
    assert PathEnvelope(net, c, l)[ENVELOPE_HEAD..] == PathBox(net, c, l);
  }

  /** The boomerang `b` ends the path info; its signature verifies for the group's nonce, and the group's
      key opens it to `inner`. */
  ghost predicate ForGroup(net: Net, vk: Bytes, me: nat, info: Bytes, b: Bytes, inner: Bytes) {
    && |b| >= OVERHEAD && |info| == ENVELOPE_HEAD + |b|
    && net.s.verify(vk, SignedForGroup(net, me, info), Signature(b))
    && Open(net.s, b, Nonce(net.layers, net.layers, me), net.s.dh(net.groupSecret, vk)) == inner
  }

  /** The group's boomerang: signed as the last server checks it, and opened by the group's key. */
  lemma GroupBoomerang(net: Net, c: Client)
    requires net.Valid() && c.For(net)
    ensures var l := net.layers - 1;
            ForGroup(net, Vk(net, c, net.layers), Server(net, c, l), PathInfo(net, c, l), BoomerangEnvelope(net, c, l), Boomerang(net, c, l, l))
  {
    hide Seal, Nonce, Server, Open, PrevShared, Token, Boomerang, Signature;
    var l := net.layers - 1;
    var me, b, info := Server(net, c, l), BoomerangEnvelope(net, c, l), PathInfo(net, c, l);
    SealOpens(net.s, Boomerang(net, c, l, l), Nonce(net.layers, net.layers, me),
              PrevShared(net, c, net.layers), c.keys[net.layers]);
    KeysAgree(net, c, l);
    InfoParts(net, c, l);
    assert PathBox(net, c, l + 1) == [];
    assert info[ENVELOPE_HEAD..|info| - OVERHEAD] == Ciphertext(b);
  }

  /** The client's envelope passes every check before its key is recorded. */
  lemma PathOpens(net: Net, c: Client, l: nat)
    requires net.Valid() && c.For(net) && l < net.layers
    ensures |PathEnvelope(net, c, l)| >= ENVELOPE_HEAD + OVERHEAD + ENVELOPE_HEAD + |BoomerangEnvelope(net, c, l)|
    ensures OpenPath(net, l, l, Server(net, c, l), Prev(net, c, l), |BoomerangEnvelope(net, c, l)|, PathEnvelope(net, c, l))
            == Ok(PathOpened(Vk(net, c, l), Shared(net, c, l), PathInfo(net, c, l)))
  {
    hide Nonce, Open, Authentic, BoomerangEnvelope, PathEnvelope, PathInfo, TokenContent, Shared;
    EnvelopeParts(net, c, l);
    InfoParts(net, c, l);
    KeysAgree(net, c, l);
    Sizes(net, c, l);
    Sizes(net, c, l + 1);
  }

  /** What is recorded is exactly the client's entry. */
  lemma PathRecorded(net: Net, c: Client, l: nat, t: Table, o: PathOpened)
    requires net.Valid() && c.For(net) && l < net.layers && t.Valid() && |o.info| >= ENVELOPE_HEAD
    requires o.inKey == Vk(net, c, l) && o.sharedKey == Shared(net, c, l)
    requires o.info[..POINT_SIZE] == Vk(net, c, l + 1) && o.info[POINT_SIZE..ENVELOPE_HEAD] == Token(net, c, l + 1)
    ensures RecordKey(net, Server(net, c, l), Prev(net, c, l), l == net.layers - 1, t, o) == t.AddKey(EntryOf(net, c, l))
  {
    hide Token, Shared, Prev, Vk;
    if l == net.layers - 1 {
      var e := EntryOf(net, c, l);
      assert t.AddKey(e.(next := Server(net, c, l + 1))).SetNext(|t.objs|, Group(net, c)) == t.AddKey(e);
    }
  }

  /** One path hop: the server of layer `l` accepts the client's envelope, records exactly the
      client's entry, splits the message where the client joined it, and sends the rest onward. */
  lemma PathHop(net: Net, c: Client, l: nat, t: Table)
    requires net.Valid() && c.For(net) && l < net.layers && t.Valid()
    ensures |PathEnvelope(net, c, l)| >= ENVELOPE_HEAD + OVERHEAD + ENVELOPE_HEAD + |BoomerangEnvelope(net, c, l)|
    ensures l == net.layers - 1 ==> |BoomerangEnvelope(net, c, l)| >= OVERHEAD
    ensures ParsePath(net, l, l, Server(net, c, l), Prev(net, c, l), |BoomerangEnvelope(net, c, l)|,
                      l == net.layers - 1, t, PathEnvelope(net, c, l))
            == Ok(PathStep(
              BoomerangEnvelope(net, c, l), |t.objs|, t.AddKey(EntryOf(net, c, l)), OnwardOf(net, c, l)))
  {
    hide OpenPath, RecordKey, EntryOf, BoomerangEnvelope, PathBox, PathInfo, SignedForGroup, Shared, Signature, Prev, Vk, Token, Open, Nonce;
    PathOpens(net, c, l);
    InfoParts(net, c, l);
    PathRecorded(net, c, l, t, PathOpened(Vk(net, c, l), Shared(net, c, l), PathInfo(net, c, l)));
    if l == net.layers - 1 { GroupBoomerang(net, c); }
  }
}
