/** The assumptions of the protocol theorems can be met: for every configuration there are primitives
    that satisfy the laws, a group that realises them, any number of clients with fresh keys (as many as
    fit the key size), and complete collections by the anytrust groups. */
module Consistency {
  import opened ByteStrings
  import opened Modular
  import opened Shuffling
  import opened Sharing
  import opened Sigcryption
  import opened PrepareMessages
  import opened Population
  import opened ThresholdDecryption
  import opened LastPathRound

  // ----- primitives: numbers modulo the key size, encoded in bytes

  newtype Scalar = x: int | 0 <= x < Pow256(KEY_SIZE)

  lemma OrderLarge()
    ensures Pow256(KEY_SIZE) > 1
  {
    assert Pow256(KEY_SIZE) == 256 * Pow256(KEY_SIZE - 1);
  }

  function Order(): (q: int)
    ensures q > 1 && q == Pow256(KEY_SIZE)
  {
    OrderLarge();
    Pow256(KEY_SIZE)
  }

  function Reduce(a: int): Scalar {
    Mod(a, Order()) as Scalar
  }

  function Add(a: Scalar, b: Scalar): Scalar {
    Reduce(a as int + b as int)
  }

  function Mul(k: int, a: Scalar): Scalar {
    Reduce(Times(k, a as int))
  }

  function Integers(): Sharing.Group<Scalar> {
    Sharing.Group(Order(), 0, Add, Mul)
  }

  function Encode(a: Scalar): (b: Bytes)
    ensures |b| == KEY_SIZE
  {
    LE(a as int, KEY_SIZE)
  }

  function Decode(b: Bytes): Scalar {
    Reduce(FromLE(b))
  }

  /** A signature is a tag on key and message. */
  function Tag(key: Bytes, m: Bytes): (t: Bytes)
    ensures |t| == SIGNATURE_SIZE
  {
    LE(FromLE(key + m), SIGNATURE_SIZE)
  }

  function PublicKey(k: int): (b: Bytes)
    ensures |b| == KEY_SIZE
  {
    Encode(Mul(k, 1))
  }

  function Example(pad: (Bytes, Bytes, nat) -> Byte, hash: Bytes -> nat): Suite {
    Suite(pad,
          (k: int, m: Bytes) => Tag(PublicKey(k), m),
          (v: Bytes, m: Bytes, sig: Bytes) => sig == Tag(v, m),
          PublicKey,
          (k: int, v: Bytes) => Encode(Mul(k, Decode(v))),
          (v: Bytes) => |v| == KEY_SIZE,
          (m: Bytes) => LE(FromLE(m), TOKEN_SIZE),
          hash)
  }

  /** Server s of a network with these primitives, as it deals with the groups. */
  function SiteOf(net: Net, s: nat): Site<Scalar> {
    Site(net.s, net.layers, s, Integers(), Encode, Decode)
  }

  // ----- the laws

  lemma MulAdds(a: int, b: int, p: Scalar)
    ensures Add(Mul(a, p), Mul(b, p)) == Mul(a + b, p)
  {
    hide Mod, Times, Pow256;
    ZqAdd(Order(), a, b, p as int);
  }

  lemma MulTwice(a: int, b: int, p: Scalar)
    ensures Mul(a, Mul(b, p)) == Mul(Times(a, b), p)
  {
    hide Mod, Times, Pow256;
    ZqMul(Order(), a, b, p as int);
  }

  lemma MulReduces(a: int, b: int, p: Scalar)
    requires Cong(a, b, Order())
    ensures Mul(a, p) == Mul(b, p)
  {
    hide Mod, Times, Pow256;
    ZqReduce(Order(), a, b, p as int);
  }

  lemma MulByZero(p: Scalar)
    ensures Mul(0, p) == 0
  {
    hide Mod, Times, Pow256;
    ZqZero(Order(), p as int);
  }

  lemma LawsOfIntegers(p: Scalar)
    ensures LawsAt(Integers(), p)
  {
    hide Mul, Add, Cong, Pow256, Reduce, Times;
    var g := Integers();
    forall a: int, b: int {:trigger g.add(g.mul(a, p), g.mul(b, p))}
      ensures g.add(g.mul(a, p), g.mul(b, p)) == g.mul(a + b, p)
    {
      MulAdds(a, b, p);
    }
    forall a: int, b: int {:trigger g.mul(Times(a, b), p)}
      ensures g.mul(a, g.mul(b, p)) == g.mul(Times(a, b), p)
    {
      MulTwice(a, b, p);
    }
    forall a: int, b: int | Cong(a, b, Order()) ensures g.mul(a, p) == g.mul(b, p) { MulReduces(a, b, p); }
    MulByZero(p);
  }

  lemma ReduceSmall(a: int)
    requires 0 <= a < Order()
    ensures Reduce(a) as int == a
  {
    hide Pow256;
    DivisionIsUnique(a, Order(), 0, a);
  }

  lemma DecodeEncoded(p: Scalar)
    ensures Decode(Encode(p)) == p
  {
    hide LE, FromLE, Pow256;
    LERoundTrip(p as int, KEY_SIZE);
    ReduceSmall(p as int);
  }

  lemma ExampleRealises(net: Net, s: nat, pad: (Bytes, Bytes, nat) -> Byte, hash: Bytes -> nat)
    requires net.s == Example(pad, hash)
    ensures Realises(net.s, SiteOf(net, s), 1)
  {
    hide LawsAt, Mul, Add, Encode, Decode, Tag, Pow256;
    forall p: Scalar ensures LawsAt(Integers(), p) { LawsOfIntegers(p); }
    forall p: Scalar ensures Decode(Encode(p)) == p { DecodeEncoded(p); }
  }

  lemma ExampleLaws(net: Net, pad: (Bytes, Bytes, nat) -> Byte, hash: Bytes -> nat)
    requires net.s == Example(pad, hash)
    ensures net.s.Laws()
  {
    hide LE, FromLE, Pow256, Tag, Mul, Realises, Decode, PublicKey, Encode;
    ExampleRealises(net, 0, pad, hash);
    forall a: int, b: int ensures net.s.dh(a, net.s.vk(b)) == net.s.dh(b, net.s.vk(a)) {
      DiffieHellmanAgrees(net.s, SiteOf(net, 0), 1, a, b);
    }
  }

  // ----- clients

  /** The private key of client c for layer i: all different. */
  function KeyNumber(layers: nat, c: nat, i: nat): int {
    (layers + 1) * c + i
  }

  function KeysOf(layers: nat, c: nat): (ks: seq<int>)
    ensures |ks| == layers + 1 && forall i :: 0 <= i <= layers ==> ks[i] == KeyNumber(layers, c, i)
  {
    seq(layers + 1, i requires 0 <= i <= layers => KeyNumber(layers, c, i))
  }

  function Clients(net: Net, n: nat): (cs: seq<Client>)
    ensures |cs| == n
    ensures forall c :: 0 <= c < n ==>
      cs[c] == Client(c, KeysOf(net.layers, c), seq(net.layers, _ => seq<Byte>(net.receiptSize, _ => 0)))
  {
    seq(n, c requires 0 <= c < n => Client(c, KeysOf(net.layers, c), seq(net.layers, _ => seq<Byte>(net.receiptSize, _ => 0))))
  }

  lemma KeyInRange(layers: nat, n: nat, c: nat, i: nat)
    requires c < n && i <= layers
    ensures 0 <= KeyNumber(layers, c, i) < (layers + 1) * n
  {
    assert (layers + 1) * (c + 1) <= (layers + 1) * n;
    assert (layers + 1) * (c + 1) == (layers + 1) * c + (layers + 1);
  }

  lemma SmallKey(k: int)
    requires 0 <= k < Order()
    ensures PublicKey(k) == LE(k, KEY_SIZE)
  {
    hide LE, Pow256;
    assert Times(k, 1) == k;
    ReduceSmall(k);
  }

  lemma DistinctKeys(layers: nat, n: nat, c: nat, i: nat, d: nat, j: nat)
    requires c < n && d < n && i <= layers && j <= layers && (layers + 1) * n <= Pow256(KEY_SIZE)
    requires PublicKey(KeyNumber(layers, c, i)) == PublicKey(KeyNumber(layers, d, j))
    ensures c == d && i == j
  {
    hide LE, Pow256, PublicKey;
    KeyInRange(layers, n, c, i);
    KeyInRange(layers, n, d, j);
    SmallKey(KeyNumber(layers, c, i));
    SmallKey(KeyNumber(layers, d, j));
    LEInjective(KeyNumber(layers, c, i), KeyNumber(layers, d, j), KEY_SIZE);
    QuotientIsUnique(layers + 1, c, i, d, j);
  }

  /** A valid population of any size, for any keystream, token hash, secrets and configuration, whose
      primitives a group realises at every server. */
  lemma WorldsExist(pad: (Bytes, Bytes, nat) -> Byte, hash: Bytes -> nat, servers: nat, groups: nat, layers: nat,
                    limit: nat, receiptSize: nat, secret: nat -> int, groupSecret: int, n: nat) returns (w: World)
    requires servers > 0 && groups > 0 && layers >= 2 && limit >= 1 && (layers + 1) * n <= Pow256(KEY_SIZE)
    ensures w.Valid() && |w.cs| == n
    ensures w.net == Net(w.net.s, servers, groups, layers, limit, receiptSize, secret, groupSecret)
    ensures w.net.s.pad == pad && w.net.s.hash == hash
    ensures forall s: nat :: Realises(w.net.s, SiteOf(w.net, s), 1)
  {
    hide LE, FromLE, Pow256, Realises, PublicKey, World.Fresh;
    var net := Net(Example(pad, hash), servers, groups, layers, limit, receiptSize, secret, groupSecret);
    w := World(net, Clients(net, n));
    ExampleLaws(net, pad, hash);
    forall s: nat ensures Realises(net.s, SiteOf(net, s), 1) { ExampleRealises(net, s, pad, hash); }
    FreshClients(net, n, pad, hash);
  }

  lemma FreshClients(net: Net, n: nat, pad: (Bytes, Bytes, nat) -> Byte, hash: Bytes -> nat)
    requires net.s == Example(pad, hash) && (net.layers + 1) * n <= Pow256(KEY_SIZE)
    ensures World(net, Clients(net, n)).Fresh()
  {
    hide Pow256, PublicKey, KeyNumber, Clients, KeysOf, Example, Vk;
    var cs := Clients(net, n);
    forall c, d, i, j | 0 <= c < n && 0 <= d < n && 0 <= i < |cs[c].keys| && 0 <= j < |cs[d].keys|
                        && Vk(net, cs[c], i) == Vk(net, cs[d], j)
      ensures c == d && i == j
    {
      KeyOf(net, n, c, i, pad, hash);
      KeyOf(net, n, d, j, pad, hash);
      DistinctKeys(net.layers, n, c, i, d, j);
    }
  }

  lemma KeyOf(net: Net, n: nat, c: nat, i: nat, pad: (Bytes, Bytes, nat) -> Byte, hash: Bytes -> nat)
    requires net.s == Example(pad, hash) && c < n && i <= net.layers
    ensures |Clients(net, n)[c].keys| == net.layers + 1 && Vk(net, Clients(net, n)[c], i) == PublicKey(KeyNumber(net.layers, c, i))
  {
    hide PublicKey, KeyNumber, KeysOf, Clients;
  }

  // ----- collections

  lemma {:induction false} Listing(S: set<Bytes>) returns (keys: seq<Bytes>)
    ensures (forall k :: k in keys <==> k in S) && (forall i, j :: 0 <= i < j < |keys| ==> keys[i] != keys[j])
    decreases |S|
  {
    if S == {} {
      keys := [];
    } else {
      var k :| k in S;
      keys := Listing(S - {k});
      keys := keys + [k];
    }
  }

  /** The members of the first n groups answer, group by group and member by member. */
  lemma {:induction false} Answers<P>(x: Session<P>, n: nat) returns (es: seq<Event>)
    requires n <= |x.shares|
    ensures forall i :: 0 <= i < |es| ==> x.KnownEvent(es[i])
    ensures forall g: nat :: g < |x.shares| ==> Members(es, g) == if g < n then Range(|x.shares[g]|) else []
    decreases n
  {
    if n == 0 {
      es := [];
    } else {
      es := Answers(x, n - 1);
      es := GroupAnswers(x, n - 1, |x.shares[n - 1]|, es);
    }
  }

  lemma {:induction false} GroupAnswers<P>(x: Session<P>, g: nat, m: nat, before: seq<Event>) returns (es: seq<Event>)
    requires g < |x.shares| && m <= |x.shares[g]| && (forall i :: 0 <= i < |before| ==> x.KnownEvent(before[i])) && Members(before, g) == []
    ensures forall i :: 0 <= i < |es| ==> x.KnownEvent(es[i])
    ensures Members(es, g) == Range(m) && forall h: nat :: h != g ==> Members(es, h) == Members(before, h)
    decreases m
  {
    if m == 0 {
      es := before;
    } else {
      hide Members, Session.KnownEvent;
      var sofar := GroupAnswers(x, g, m - 1, before);
      var e := AnswerOf(x, g, m - 1);
      es := sofar + [e];
      RangeStep(m);
      forall h: nat ensures Members(es, h) == Members(sofar, h) + if h == g then [m - 1] else [] { MembersMore(sofar, e, h); }
    }
  }

  /** One member's answer, for all keys of its group. */
  lemma AnswerOf<P>(x: Session<P>, g: nat, m: nat) returns (e: Event)
    requires g < |x.shares| && m < |x.shares[g]|
    ensures x.KnownEvent(e) && e.group == g && e.member == m
  {
    var keys := Listing(set k | k in x.sent && x.sent[k].group == g);
    e := Event(g, m, keys);
  }

  lemma MembersMore(es: seq<Event>, e: Event, h: nat)
    ensures Members(es + [e], h) == Members(es, h) + if h == e.group then [e.member] else []
  {
    assert (es + [e])[..|es|] == es;
  }

  /** Every collection from nonempty groups can be completed. */
  lemma CollectionsExist<P(!new)>(x: Session<P>) returns (es: seq<Event>)
    requires x.Valid() && GroupLaws(x.site.g) && forall g :: 0 <= g < |x.shares| ==> |x.shares[g]| > 0
    ensures x.Schedule(es) && x.Run(es).Some? && x.Run(es).value.done == |x.shares|
  {
    hide Session.Run, Session.Valid, Session.KnownEvent, GroupLaws, Members;
    es := Answers(x, |x.shares|);
    CollectionEnds(x, es);
  }

  /** So the last path round through the groups can be run at every server. */
  lemma LastRoundsExist(w: World, s: nat, shares: seq<seq<int>>) returns (es: seq<Event>)
    requires w.Valid() && Realises(w.net.s, SiteOf(w.net, s), 1) && |shares| == w.net.groups
    requires forall g :: 0 <= g < |shares| ==> |shares[g]| > 0 && Cong(Sum(shares[g]), w.net.groupSecret, Order())
    ensures Configured(w, s, SiteOf(w.net, s), shares, 1)
    ensures var x := SessionOf(w, s, SiteOf(w.net, s), shares);
            x.Schedule(es) && x.Run(es).Some? && x.Run(es).value.done == |shares|
  {
    hide Session.Run, Session.Schedule, Session.Valid, World.Valid, Realises, Sum, Cong, GroupLaws, Pow256;
    var x := SessionOf(w, s, SiteOf(w.net, s), shares);
    SessionIsValid(w, s, SiteOf(w.net, s), shares, 1);
    OrderPositive(w.net.s, SiteOf(w.net, s), 1);
    es := CollectionsExist(x);
  }
}
