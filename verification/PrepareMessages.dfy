/** What a client builds (server/prepareMessages/client.go): its path of servers and keys, the
    forward onion of a lightning round, the reverse onion that carries a receipt back, and the
    nested path-establishment message. */
module PrepareMessages {
  import opened ByteStrings
  import opened Sigcryption

  /** The public configuration: number of servers, groups and layers, the boomerang limit, the
      size of a receipt, and every server's (and the anytrust groups' common) secret scalar. */
  datatype Net = Net(
    s: Suite, servers: nat, groups: nat, layers: nat, limit: nat, receiptSize: nat,
    secret: nat -> int, groupSecret: int
  ) {
    ghost predicate Valid() {
      s.Laws() && servers > 0 && groups > 0 && layers >= 2 && limit >= 1
    }

    /** The layer at which the receipt of path round `round` stops. */
    function ReceiptLayer(round: nat): (l: nat)
      ensures l <= round && (limit >= 1 && round >= 1 ==> l < round)
    {
      if round > limit then round - limit else 0
    }
  }

  /** One client: its id, a signing key for each of the layers and one for the group, and the
      random receipt chosen for each path round. */
  datatype Client = Client(id: nat, keys: seq<int>, receipts: seq<Bytes>) {
    predicate For(net: Net) {
      && |keys| == net.layers + 1
      && |receipts| == net.layers
      && forall r :: 0 <= r < |receipts| ==> |receipts[r]| == net.receiptSize
    }
  }

  function Vk(net: Net, c: Client, i: nat): (k: Bytes)
    requires i < |c.keys|
  {
    net.s.vk(c.keys[i])
  }

  function TokenContent(key: Bytes, round: int, layer: int, server: int): (b: Bytes)
    ensures |b| == 12 + |key|
  {
    LE(round, 4) + LE(layer, 4) + LE(server, 4) + key
  }

  lemma ContentParts(key: Bytes, round: int, layer: int, server: int)
    ensures var b := TokenContent(key, round, layer, server);
            b[..4] == LE(round, 4) && b[4..8] == LE(layer, 4) && b[8..12] == LE(server, 4) && b[12..] == key
  {
    hide LE;
  }

  /** What a token is issued for: three little-endian words, round, layer and the server the message
      comes from, then the key. */
  lemma ContentWords(key: Bytes, round: int, layer: int, server: int)
    ensures var b := TokenContent(key, round, layer, server);
            && FromLE(b[..4]) == round % WORD && FromLE(b[4..8]) == layer % WORD && FromLE(b[8..12]) == server % WORD
            && b[12..] == key
  {
    ContentParts(key, round, layer, server);
    hide TokenContent, LE, FromLE;
    LowWord(round);
    LowWord(layer);
    LowWord(server);
  }

  /** Values a 32-bit word holds. */
  predicate AreWords(round: int, layer: int, server: int) {
    0 <= round < WORD && 0 <= layer < WORD && 0 <= server < WORD
  }

  /** Tokens for different keys, rounds, layers or servers are tokens for different contents. */
  lemma ContentInjective(key: Bytes, round: int, layer: int, server: int, key': Bytes, round': int, layer': int, server': int)
    requires AreWords(round, layer, server) && AreWords(round', layer', server')
    requires TokenContent(key, round, layer, server) == TokenContent(key', round', layer', server')
    ensures key == key' && round == round' && layer == layer' && server == server'
  {
    hide TokenContent, FromLE;
    ContentWords(key, round, layer, server);
    ContentWords(key', round', layer', server');
  }

  /** Tokens of different contents differ. */
  ghost predicate TokensDiffer(s: Suite) {
    forall a, b :: s.token(a) == s.token(b) ==> a == b
  }

  /** The party a message comes from on its way to layer `i`: the client itself, then servers. */
  function Prev(net: Net, c: Client, i: nat): nat
    requires i < |c.keys| && net.servers > 0
    decreases i, 0
  {
    if i == 0 then c.id else Server(net, c, i - 1)
  }

  function Token(net: Net, c: Client, i: nat): Bytes
    requires i < |c.keys| && net.servers > 0
    decreases i, 1
  {
    net.s.token(TokenContent(Vk(net, c, i), i, i, Prev(net, c, i)))
  }

  /** The server the client's token for layer `i` hashes to. */
  function Server(net: Net, c: Client, i: nat): (s: nat)
    requires i < |c.keys| && net.servers > 0
    ensures s < net.servers
    decreases i, 2
  {
    net.s.hash(Token(net, c, i)) % net.servers
  }

  /** The anytrust group at the end of the path. */
  function Group(net: Net, c: Client): (g: nat)
    requires c.For(net) && net.servers > 0 && net.groups > 0
    ensures g < net.groups
  {
    net.s.hash(Token(net, c, net.layers)) % net.groups
  }

  /** The key shared with the server of layer `i`. */
  function Shared(net: Net, c: Client, i: nat): Bytes
    requires i < |c.keys| && net.servers > 0
  {
    net.s.dh(c.keys[i], net.s.vk(net.secret(Server(net, c, i))))
  }

  /** The key for the reverse direction over the link into layer `i`: shared with the server of
      layer `i - 1`, or with the groups for the last key. */
  function PrevShared(net: Net, c: Client, i: nat): Bytes
    requires 1 <= i < |c.keys| && net.servers > 0
  {
    net.s.dh(c.keys[i], net.s.vk(
      if i == net.layers then net.groupSecret else net.secret(Server(net, c, i - 1))))
  }

  /** The signed final message, without its key: what the innermost lightning layer carries. */
  function FinalInner(net: Net, c: Client, message: Bytes): Bytes
    requires c.For(net)
  {
    net.s.sign(c.keys[net.layers], message) + message
  }

  /** The lightning onion still wrapped for layers `l` and later, in round `round`. */
  function Onion(net: Net, c: Client, round: nat, message: Bytes, l: nat): Bytes
    requires c.For(net) && net.servers > 0 && l <= net.layers
    decreases net.layers - l
  {
    if l == net.layers then FinalInner(net, c, message)
    else Seal(net.s, Onion(net, c, round, message, l + 1), Nonce(round, l, Server(net, c, l)),
              Shared(net, c, l), c.keys[l])
  }

  /** The receipt of path round `round`, wrapped for the reverse direction by every layer from the
      receipt layer up to (not including) `hi`. */
  function Boomerang(net: Net, c: Client, round: nat, hi: nat): Bytes
    requires c.For(net) && net.servers > 0
    requires net.ReceiptLayer(round) <= hi <= round < net.layers
    decreases hi
  {
    if hi == net.ReceiptLayer(round) then c.receipts[round]
    else Seal(net.s, Boomerang(net, c, round, hi - 1),
              Nonce(round, hi - 1 + net.layers, Server(net, c, hi - 1)),
              PrevShared(net, c, hi), c.keys[hi])
  }

  /** The boomerang placed in the path message for layer `l`; the last one goes through the group. */
  function BoomerangEnvelope(net: Net, c: Client, l: nat): Bytes
    requires c.For(net) && net.servers > 0 && l < net.layers
  {
    var b := Boomerang(net, c, l, l);
    if l == net.layers - 1
    then Seal(net.s, b, Nonce(net.layers, net.layers, Server(net, c, l)),
              PrevShared(net, c, net.layers), c.keys[net.layers])
    else b
  }

  /** PathEstablishmentInfo of layer `l`: the next key and token, the boomerang, the next envelope. */
  function PathInfo(net: Net, c: Client, l: nat): Bytes
    requires c.For(net) && net.servers > 0 && l < net.layers
    decreases net.layers - l, 0
  {
    Vk(net, c, l + 1) + Token(net, c, l + 1) + BoomerangEnvelope(net, c, l) + PathBox(net, c, l + 1)
  }

  function PathBox(net: Net, c: Client, l: nat): Bytes
    requires c.For(net) && net.servers > 0 && l <= net.layers
    decreases net.layers - l, 1
  {
    if l == net.layers then []
    else Seal(net.s, PathInfo(net, c, l), Nonce(l, l, Server(net, c, l)), Shared(net, c, l), c.keys[l])
  }

  /** The path-establishment message as it arrives at layer `l`. */
  function PathEnvelope(net: Net, c: Client, l: nat): Bytes
    requires c.For(net) && net.servers > 0 && l <= net.layers
  {
    Vk(net, c, l) + Token(net, c, l) + PathBox(net, c, l)
  }

  // ----- the client's loops

  datatype PathKey = PathKey(
    sk: int, server: Option<nat>, shared: Option<Bytes>,
    prevServer: Option<nat>, prevShared: Option<Bytes>)

  /** The record MakeTokensAndPath stores for layer `i`. */
  function PathKeyOf(net: Net, c: Client, i: nat): PathKey
    requires c.For(net) && net.servers > 0 && i <= net.layers
  {
    PathKey(c.keys[i],
            if i < net.layers then Some(Server(net, c, i)) else None,
            if i < net.layers then Some(Shared(net, c, i)) else None,
            if i > 0 then Some(Prev(net, c, i)) else None,
            if i > 0 then Some(PrevShared(net, c, i)) else None)
  }

  /** The records, tokens and keys of the first n layers. */
  ghost predicate IsPrefix(net: Net, c: Client, n: nat, path: seq<PathKey>, tokens: seq<Bytes>, pks: seq<Bytes>) {
    && c.For(net) && net.servers > 0 && |path| == |tokens| == |pks| == n <= net.layers + 1
    && forall i :: 0 <= i < n ==>
         path[i] == PathKeyOf(net, c, i) && tokens[i] == Token(net, c, i) && pks[i] == Vk(net, c, i)
  }

  lemma PrefixMore(net: Net, c: Client, n: nat, path: seq<PathKey>, tokens: seq<Bytes>, pks: seq<Bytes>)
    requires IsPrefix(net, c, n, path, tokens, pks) && n <= net.layers
    ensures IsPrefix(net, c, n + 1, path + [PathKeyOf(net, c, n)], tokens + [Token(net, c, n)], pks + [Vk(net, c, n)])
  {
    hide PathKeyOf, Token, Vk;
  }

  /** Draws the path: tokens hash to servers, each token naming the server before it. */
  method MakeTokensAndPath(net: Net, id: nat, keys: seq<int>, receipts: seq<Bytes>)
    returns (path: seq<PathKey>, tokens: seq<Bytes>, pks: seq<Bytes>)
    requires net.servers > 0 && net.layers >= 1 && Client(id, keys, receipts).For(net)
    ensures |path| == |tokens| == |pks| == net.layers + 1
    ensures var c := Client(id, keys, receipts);
            forall i :: 0 <= i <= net.layers ==>
              path[i] == PathKeyOf(net, c, i) && tokens[i] == Token(net, c, i) && pks[i] == Vk(net, c, i)
  {
    path, tokens, pks := MakeAll(net, Client(id, keys, receipts), keys, id);
  }

  method MakeAll(net: Net, ghost c: Client, keys: seq<int>, id: nat)
    returns (path: seq<PathKey>, tokens: seq<Bytes>, pks: seq<Bytes>)
    requires net.servers > 0 && net.layers >= 1 && c.For(net) && keys == c.keys && id == Prev(net, c, 0)
    ensures IsPrefix(net, c, net.layers + 1, path, tokens, pks)
  {
    hide PathKeyOf, Token, Vk, Prev, Server;
    path, tokens, pks := [], [], [];
    var prevServer := id;
    assert IsPrefix(net, c, 0, path, tokens, pks);
    hide IsPrefix, Client.For;
    KeyCount(net, c);
    for i := 0 to net.layers
      invariant prevServer == Prev(net, c, i) && IsPrefix(net, c, i, path, tokens, pks)
    {
      var key, token, pk, nextServer := MakeLayer(net, c, i, keys[i], prevServer);
      PrefixMore(net, c, i, path, tokens, pks);
      path, tokens, pks := path + [key], tokens + [token], pks + [pk];
      prevServer := nextServer;
    }
    var key, token, pk := MakeGroupLayer(net, c, keys[net.layers], prevServer);
    PrefixMore(net, c, net.layers, path, tokens, pks);
    path, tokens, pks := path + [key], tokens + [token], pks + [pk];
  }

  lemma KeyCount(net: Net, c: Client)
    requires c.For(net)
    ensures |c.keys| == net.layers + 1
  {}

  /** The body of the loop: one layer's key, and the server its token hashes to. */
  method MakeLayer(net: Net, ghost c: Client, i: nat, sk: int, prevServer: nat)
    returns (key: PathKey, token: Bytes, pk: Bytes, nextServer: nat)
    requires net.servers > 0 && c.For(net) && i < net.layers && sk == c.keys[i] && prevServer == Prev(net, c, i)
    ensures key == PathKeyOf(net, c, i) && token == Token(net, c, i) && pk == Vk(net, c, i) && nextServer == Prev(net, c, i + 1)
  {
    pk := net.s.vk(sk);
    token := net.s.token(TokenContent(pk, i, i, prevServer));
    nextServer := net.s.hash(token) % net.servers;
    LinkStep(net, c, i);
    hide TokenContent, Token, Server, Prev;
    key := PathKey(sk, Some(nextServer), Some(net.s.dh(sk, net.s.vk(net.secret(nextServer)))), None, None);
    if i != 0 {
      key := key.(prevServer := Some(prevServer),
                  prevShared := Some(net.s.dh(sk, net.s.vk(net.secret(prevServer)))));
    }
  }

  /** Unfolded once: the token names the server before, and hashes to the server. */
  lemma LinkStep(net: Net, c: Client, i: nat)
    requires net.servers > 0 && i + 1 < |c.keys|
    ensures Token(net, c, i) == net.s.token(TokenContent(net.s.vk(c.keys[i]), i, i, Prev(net, c, i)))
    ensures Server(net, c, i) == net.s.hash(Token(net, c, i)) % net.servers == Prev(net, c, i + 1)
    ensures i > 0 ==> Prev(net, c, i) == Server(net, c, i - 1)
  {
    hide TokenContent;
  }

  /** The last token has a signature key, and the shared key is with the group. */
  method MakeGroupLayer(net: Net, ghost c: Client, sk: int, prevServer: nat) returns (key: PathKey, token: Bytes, pk: Bytes)
    requires net.servers > 0 && net.layers >= 1 && c.For(net) && sk == c.keys[net.layers] && prevServer == Prev(net, c, net.layers)
    ensures key == PathKeyOf(net, c, net.layers) && token == Token(net, c, net.layers) && pk == Vk(net, c, net.layers)
  {
    hide TokenContent;
    var l := net.layers;
    pk := net.s.vk(sk);
    key := PathKey(sk, None, None, Some(prevServer), Some(net.s.dh(sk, net.s.vk(net.groupSecret))));
    token := net.s.token(TokenContent(pk, l, l, prevServer));
  }

  /** Client.Encrypt, for a path record that has the key the direction needs. */
  function Encrypt(net: Net, m: Bytes, key: PathKey, round: nat, layer: nat, server: nat, boomerang: bool): Bytes
    requires if boomerang then key.prevShared.Some? else key.shared.Some?
  {
    Seal(net.s, m, Nonce(round, layer, server),
         if boomerang then key.prevShared.value else key.shared.value, key.sk)
  }

  ghost predicate IsPath(net: Net, c: Client, path: seq<PathKey>)
  {
    && c.For(net) && net.servers > 0 && |path| == net.layers + 1
    && forall i :: 0 <= i <= net.layers ==> path[i] == PathKeyOf(net, c, i)
  }

  lemma BoomerangStep(net: Net, c: Client, path: seq<PathKey>, round: nat, layer: nat)
    requires IsPath(net, c, path) && net.ReceiptLayer(round) <= layer < round < net.layers
    ensures path[layer + 1].prevShared.Some? && path[layer].server.Some?
    ensures Boomerang(net, c, round, layer + 1) ==
            Encrypt(net, Boomerang(net, c, round, layer), path[layer + 1], round, layer + net.layers,
                    path[layer].server.value, true)
  {
    hide Seal, Nonce;
    assert path[layer + 1] == PathKeyOf(net, c, layer + 1) && path[layer] == PathKeyOf(net, c, layer);
  }

  lemma PathBoxStep(net: Net, c: Client, path: seq<PathKey>, l: nat)
    requires IsPath(net, c, path) && l < net.layers
    ensures path[net.layers].prevShared.Some? && path[net.layers].prevServer.Some?
    ensures l == net.layers - 1 ==>
      BoomerangEnvelope(net, c, l) ==
        Encrypt(net, Boomerang(net, c, l, l), path[net.layers], net.layers, net.layers,
                path[net.layers].prevServer.value, true)
    ensures path[l].server.Some? && path[l].shared.Some?
    ensures PathBox(net, c, l) == Encrypt(net, PathInfo(net, c, l), path[l], l, l, path[l].server.value, false)
  {
    hide Seal, Nonce;
    assert path[l] == PathKeyOf(net, c, l) && path[net.layers] == PathKeyOf(net, c, net.layers);
  }

  method BoomerangBase(net: Net, ghost c: Client, path: seq<PathKey>, round: nat, receipt: Bytes)
    returns (message: Bytes)
    requires IsPath(net, c, path) && round < net.layers && receipt == c.receipts[round]
    ensures message == Boomerang(net, c, round, round)
  {
    hide Seal, Nonce;
    var start := round - net.limit;
    if start < 0 { start := 0; }
    message := receipt;
    for layer := start to round
      invariant start == net.ReceiptLayer(round) <= layer
      invariant message == Boomerang(net, c, round, layer)
    {
      BoomerangStep(net, c, path, round, layer);
      message := Encrypt(net, message, path[layer + 1], round, layer + net.layers, path[layer].server.value, true);
    }
  }

  method OnionEncrypt(net: Net, ghost c: Client, path: seq<PathKey>, round: nat, ghost message: Bytes, inner: Bytes)
    returns (m: Bytes)
    requires IsPath(net, c, path) && inner == FinalInner(net, c, message)
    ensures m == Onion(net, c, round, message, 0)
  {
    hide Seal, Nonce;
    m := inner;
    for layer := net.layers downto 0
      invariant m == Onion(net, c, round, message, layer)
    {
      m := Encrypt(net, m, path[layer], round, layer, path[layer].server.value, false);
    }
  }

  method MakeOptimizedPathEstablishmentMessage(net: Net, c: Client)
    returns (message: Bytes, receipts: seq<Bytes>)
    requires net.servers > 0 && net.layers >= 1 && c.For(net)
    ensures message == PathEnvelope(net, c, 0) && receipts == c.receipts
  {
    hide Seal, Nonce, TokenContent, PathKeyOf, Vk, Token, Server, Prev, Boomerang;
    var path, tokens, pks := MakeTokensAndPath(net, c.id, c.keys, c.receipts);
    var next: Bytes := [];
    receipts := [];
    for l := net.layers downto 0
      invariant next == PathBox(net, c, l)
      invariant receipts == c.receipts[l..]
    {
      var boomerang := BoomerangBase(net, c, path, l, c.receipts[l]);
      receipts := [c.receipts[l]] + receipts;
      PathBoxStep(net, c, path, l);
      if l == net.layers - 1 {
        boomerang := Encrypt(net, boomerang, path[net.layers], net.layers, net.layers,
                             path[net.layers].prevServer.value, true);
      }
      assert boomerang == BoomerangEnvelope(net, c, l);
      var info := pks[l + 1] + tokens[l + 1] + boomerang + next;
      assert info == PathInfo(net, c, l);
      next := Encrypt(net, info, path[l], l, l, path[l].server.value, false);
    }
    message := pks[0] + tokens[0] + next;
  }
}
