/** Blind threshold tokens (crypto/token, crypto/pairing), over an arbitrary bilinear pairing. */
module Tokens {
  import opened ByteStrings
  import opened Modular
  import opened Sharing
  import opened ProcessMessages

  /** Curve points `g1` with the prime-order subgroup `valid`, the generator of the second group with
      its multiples, and the target group (its operation is `add`, powers are `mul`). The pairing is
      a Miller loop followed by a final exponentiation. */
  datatype Curve<!P, !Q, !T> = Curve(
    g1: Sharing.Group<P>, valid: P -> bool, gen: Q, mul2: (int, Q) -> Q,
    miller: (P, Q) -> T, finalExp: T -> T, gt: Sharing.Group<T>,
    hash: Bytes -> P,
    inverseOfZero: int   // what the library's inversion makes of zero
  ) {
    function Pairing(p: P, q: Q): T {
      finalExp(miller(p, q))
    }
  }

  /** Scalars act on the points inside, which are closed under them; -p + r vanishes only if p == r. */
  ghost predicate SubgroupLaws<P(!new)>(g: Sharing.Group<P>, inside: P -> bool) {
    && (forall p: P {:trigger LawsAt(g, p)} {:trigger g.mul(1, p)} :: inside(p) ==> LawsAt(g, p) && g.mul(1, p) == p)
    && (forall p: P, k: int {:trigger inside(g.mul(k, p))} :: inside(p) ==> inside(g.mul(k, p)))
    && (forall p: P, r: P {:trigger inside(g.add(p, r))} :: inside(p) && inside(r) ==> inside(g.add(p, r)))
    && (forall p: P, r: P {:trigger g.add(g.mul(-1, p), r)} ::
          inside(p) && inside(r) ==> (g.add(g.mul(-1, p), r) == g.zero <==> p == r))
  }

  /** Linear in each argument, not degenerate, and the final exponentiation respects products. */
  ghost predicate PairingLaws<P(!new), Q(!new), T(!new)>(c: Curve<P, Q, T>) {
    && (forall a: T, b: T {:trigger c.finalExp(c.gt.add(a, b))} ::
          c.finalExp(c.gt.add(a, b)) == c.gt.add(c.finalExp(a), c.finalExp(b)))
    && (forall p: P, r: P {:trigger c.Pairing(c.g1.add(p, r), c.gen)} :: c.valid(p) && c.valid(r) ==>
          c.Pairing(c.g1.add(p, r), c.gen) == c.gt.add(c.Pairing(p, c.gen), c.Pairing(r, c.gen)))
    && (forall p: P, k: int {:trigger c.Pairing(c.g1.mul(k, p), c.gen)} :: c.valid(p) ==>
          c.Pairing(c.g1.mul(k, p), c.gen) == c.gt.mul(k, c.Pairing(p, c.gen)))
    && (forall p: P, k: int {:trigger c.Pairing(p, c.mul2(k, c.gen))} :: c.valid(p) ==>
          c.Pairing(p, c.mul2(k, c.gen)) == c.gt.mul(k, c.Pairing(p, c.gen)))
    && (forall p: P :: c.valid(p) && c.Pairing(p, c.gen) == c.gt.zero ==> p == c.g1.zero)
  }

  ghost predicate CurveLaws<P(!new), Q(!new), T(!new)>(c: Curve<P, Q, T>) {
    && Prime(c.g1.order) && c.gt.order == c.g1.order
    && SubgroupLaws(c.g1, c.valid)
    && SubgroupLaws(c.gt, (t: T) => true)
    && PairingLaws(c)
    && (forall m: Bytes :: c.valid(c.hash(m)))
  }

  // ----- verification

  /** PrecomputedPairingCheck: the Miller loops against -gen and the public key are multiplied
      before a single final exponentiation. */
  predicate PairingCheck<P, Q, T(==)>(c: Curve<P, Q, T>, key: Q, signature: P, hash: P) {
    c.finalExp(c.gt.add(c.miller(signature, c.mul2(-1, c.gen)), c.miller(hash, key))) == c.gt.zero
  }

  predicate Verify<P, Q, T(==)>(c: Curve<P, Q, T>, key: Q, signature: P, hash: P) {
    c.valid(signature) && PairingCheck(c, key, signature, hash)
  }

  lemma PairingInjective<P(!new), Q(!new), T(!new)>(c: Curve<P, Q, T>, p: P, r: P)
    requires CurveLaws(c) && c.valid(p) && c.valid(r) && c.Pairing(p, c.gen) == c.Pairing(r, c.gen)
    ensures p == r
  {
    var minus := c.g1.mul(-1, p);
    assert c.valid(minus);
    var e := c.Pairing(p, c.gen);
    assert c.Pairing(minus, c.gen) == c.gt.mul(-1, e);
    assert c.Pairing(c.g1.add(minus, r), c.gen) == c.gt.add(c.gt.mul(-1, e), e);
    assert ((t: T) => true)(e);
    assert c.gt.add(c.gt.mul(-1, e), e) == c.gt.zero;
    assert c.valid(c.g1.add(minus, r));
  }

  /** Of all points, on the subgroup or not, verification accepts exactly secret * hash. */
  lemma VerifyExactly<P(!new), Q(!new), T(!new)>(c: Curve<P, Q, T>, secret: int, signature: P, hash: P)
    requires CurveLaws(c) && c.valid(hash)
    ensures Verify(c, c.mul2(secret, c.gen), signature, hash) <==> signature == c.g1.mul(secret, hash)
  {
    var want := c.g1.mul(secret, hash);
    assert c.valid(want);
    if c.valid(signature) {
      var e, f := c.Pairing(signature, c.gen), c.Pairing(hash, c.gen);
      var ef := c.gt.mul(secret, f);
      assert c.Pairing(signature, c.mul2(-1, c.gen)) == c.gt.mul(-1, e);
      assert c.Pairing(hash, c.mul2(secret, c.gen)) == ef;
      assert c.Pairing(want, c.gen) == ef;
      assert ((t: T) => true)(e) && ((t: T) => true)(ef);
      assert c.gt.add(c.gt.mul(-1, e), ef) == c.gt.zero <==> e == ef;
      if e == ef { PairingInjective(c, signature, want); }
    }
  }

  // ----- issuing

  function Blind<P, Q, T>(c: Curve<P, Q, T>, hash: P, r: int): P {
    c.g1.mul(r, hash)
  }

  /** BlindSign: a point outside the subgroup could leak bits of the share. The check is compiled out
      while the constant SkipToken is set. */
  function BlindSign<P, Q, T>(c: Curve<P, Q, T>, skipToken: bool, share: int, blinded: P): Result<P> {
    if !skipToken && !c.valid(blinded) then Err(BadElement) else Ok(c.g1.mul(share, blinded))
  }

  method Combine<P, Q, T>(c: Curve<P, Q, T>, partials: seq<P>) returns (r: P)
    ensures r == Accumulated(c.g1, partials)
  {
    r := c.g1.zero;
    for i := 0 to |partials|
      invariant r == Accumulated(c.g1, partials[..i])
    {
      assert partials[..i + 1][..i] == partials[..i];
      r := c.g1.add(r, partials[i]);
    }
    assert partials[..|partials|] == partials;
  }

  /** TokenIssuanceInformation. `ready` is cleared when a token was created. */
  class Issuance<!P, !Q, !T(==)> {
    const c: Curve<P, Q, T>
    const key: Q
    const hash: P
    var blinding: int
    var ready: bool

    /** Prepare: the blinding is random. */
    constructor (c: Curve<P, Q, T>, key: Q, message: Bytes, random: int)
      ensures this.c == c && this.key == key && hash == c.hash(message) && blinding == random && ready
    {
      this.c, this.key, hash := c, key, c.hash(message);
      blinding, ready := random, true;
    }

    /** Create inverts the stored blinding in place, also when the token turns out invalid. None is the
        panic of a second call after a token was created. */
    method Create(partials: seq<P>) returns (r: Option<Result<P>>)
      requires Prime(c.g1.order)
      modifies this
      ensures r.None? <==> !old(ready)
      ensures r.None? ==> blinding == old(blinding) && !ready
      ensures r.Some? ==>
        && r.value == Created(c, key, hash, old(blinding), partials)
        && blinding == FrInv(c, old(blinding))
        && (ready <==> r.value.Err?)
    {
      if !ready { return None; }
      var token := Combine(c, partials);
      blinding := FrInv(c, blinding);
      token := c.g1.mul(blinding, token);
      if !Verify(c, key, token, hash) { return Some(Err(TokenInvalid)); }
      ready := false;
      return Some(Ok(token));
    }
  }

  function FrInv<P, Q, T>(c: Curve<P, Q, T>, r: int): int
    requires Prime(c.g1.order)
  {
    if r % c.g1.order == 0 then c.inverseOfZero else ModInverse(r, c.g1.order)
  }

  function Created<P, Q, T(==)>(c: Curve<P, Q, T>, key: Q, hash: P, blinding: int, partials: seq<P>): Result<P>
    requires Prime(c.g1.order)
  {
    var token := c.g1.mul(FrInv(c, blinding), Accumulated(c.g1, partials));
    if !Verify(c, key, token, hash) then Err(TokenInvalid) else Ok(token)
  }

  /** Honest signers accept the blinded hash. */
  lemma HonestPartials<P(!new), Q(!new), T(!new)>(c: Curve<P, Q, T>, skipToken: bool, shares: seq<int>, hash: P, r: int)
    requires CurveLaws(c) && c.valid(hash)
    ensures forall i :: 0 <= i < |shares| ==>
      BlindSign(c, skipToken, shares[i], Blind(c, hash, r)) == Ok(Multiples(c.g1, shares, Blind(c, hash, r))[i])
  {
    assert c.valid(Blind(c, hash, r));
  }

  lemma HashLaws<P(!new), Q(!new), T(!new)>(c: Curve<P, Q, T>, message: Bytes)
    requires CurveLaws(c)
    ensures c.valid(c.hash(message)) && LawsAt(c.g1, c.hash(message)) && Prime(c.g1.order)
  {}

  /** Combining honest partials gives the secret times the blinded hash. */
  lemma CombinedIs<P(!new), Q(!new), T(!new)>(c: Curve<P, Q, T>, shares: seq<int>, secret: int, hash: P, r: int)
    requires CurveLaws(c) && c.valid(hash) && Cong(Sum(shares), secret, c.g1.order)
    ensures Accumulated(c.g1, Multiples(c.g1, shares, Blind(c, hash, r))) == c.g1.mul(secret * r, hash)
  {
    hide Sum, Cong, PairingLaws, Prime, Accumulated, Multiples;
    var blinded := c.g1.mul(r, hash);
    assert c.valid(blinded);
    AccumulatedMultiples(c.g1, shares, blinded);
    MulCong(c.g1, Sum(shares), secret, blinded);
    MulMul(c.g1, secret, r, hash);
  }

  /** Multiplying by u takes the blinding r off exactly when u is its inverse. */
  lemma Unblinded<P>(g: Sharing.Group<P>, u: int, r: int, secret: int, p: P)
    requires LawsAt(g, p) && Cong(r * u, 1, g.order)
    ensures g.mul(u, g.mul(secret * r, p)) == g.mul(secret, p)
  {
    hide Cong;
    MulMul(g, u, secret * r, p);
    CongRefl(secret, g.order);
    CongMul(secret, secret, r * u, 1, g.order);
    assert secret * (r * u) == u * (secret * r) && secret * 1 == secret;
    MulCong(g, u * (secret * r), secret, p);
  }

  /** For any number of signers, any additive sharing of the secret and any nonzero blinding, every
      signer signs, and Create returns the one token that verifies. */
  lemma TokensAreValid<P(!new), Q(!new), T(!new)>(
    c: Curve<P, Q, T>, skipToken: bool, shares: seq<int>, secret: int, message: Bytes, r: int)
    requires CurveLaws(c) && Cong(Sum(shares), secret, c.g1.order) && r % c.g1.order != 0
    ensures var hash := c.hash(message);
            var partials := Multiples(c.g1, shares, Blind(c, hash, r));
            && (forall i :: 0 <= i < |shares| ==> BlindSign(c, skipToken, shares[i], Blind(c, hash, r)) == Ok(partials[i]))
            && Created(c, c.mul2(secret, c.gen), hash, r, partials) == Ok(c.g1.mul(secret, hash))
  {
    hide Sum, Cong, CurveLaws, Prime, Accumulated, Multiples, Verify, ModInverse, LawsAt, BlindSign, Blind;
    var hash := c.hash(message);
    HashLaws(c, message);
    HonestPartials(c, skipToken, shares, hash, r);
    CombinedIs(c, shares, secret, hash, r);
    ModInverseWorks(r, c.g1.order);
    Unblinded(c.g1, ModInverse(r, c.g1.order), r, secret, hash);
    VerifyExactly(c, secret, c.g1.mul(secret, hash), hash);
  }

  lemma ZeroScalar<P>(g: Sharing.Group<P>, u: int, k: int, r: int, p: P)
    requires LawsAt(g, p) && r % g.order == 0
    ensures g.mul(u, g.mul(k * r, p)) == g.zero
  {
    hide LawsAt;
    InOrder(g, p);
    ZeroTimes(r, k, g.order);
    hide Cong;
    assert r * k == k * r && u * 0 == 0;
    MulCong(g, k * r, 0, p);
    MulMul(g, u, 0, p);
    MulZero(g, p);
  }

  /** With honest partials Create reports TokenInvalid exactly when the blinding is zero and the token
      is not the neutral element, whatever the library makes of the inverse of zero. */
  lemma CreateSucceedsIff<P(!new), Q(!new), T(!new)>(
    c: Curve<P, Q, T>, shares: seq<int>, secret: int, message: Bytes, r: int)
    requires CurveLaws(c) && Cong(Sum(shares), secret, c.g1.order)
    ensures var hash := c.hash(message);
            var token := Created(c, c.mul2(secret, c.gen), hash, r, Multiples(c.g1, shares, Blind(c, hash, r)));
            && (token.Ok? <==> r % c.g1.order != 0 || c.g1.mul(secret, hash) == c.g1.zero)
            && (token.Ok? ==> token.value == c.g1.mul(secret, hash))
  {
    hide Sum, Cong, CurveLaws, Prime, Accumulated, Multiples, Verify, ModInverse, LawsAt, Blind;
    var hash := c.hash(message);
    HashLaws(c, message);
    if r % c.g1.order != 0 {
      TokensAreValid(c, false, shares, secret, message, r);
    } else {
      CombinedIs(c, shares, secret, hash, r);
      ZeroScalar(c.g1, c.inverseOfZero, secret, r, hash);
      VerifyExactly(c, secret, c.g1.zero, hash);
    }
  }

  // ----- a second attempt

  lemma InverseNonzero(r: int, q: int)
    requires Prime(q) && r % q != 0
    ensures ModInverse(r, q) % q != 0
  {
    ModInverseWorks(r, q);
    if ModInverse(r, q) % q == 0 { NotOne(r, ModInverse(r, q), q); }
  }

  lemma NotOne(r: int, u: int, q: int)
    requires q > 1 && u % q == 0
    ensures !Cong(r * u, 1, q)
  {
    var k := AsMultiple(u, q);
    MultipleMod(q, r * k);
    assert r * u == q * (r * k);
    if Cong(r * u, 1, q) { CongModEq(r * u, 1, q); }
  }

  lemma InverseTwice(r: int, q: int)
    requires Prime(q) && r % q != 0
    ensures ModInverse(r, q) % q != 0
    ensures Cong(ModInverse(ModInverse(r, q), q), r, q)
  {
    InverseNonzero(r, q);
    var u := ModInverse(r, q);
    var v := ModInverse(u, q);
    ModInverseWorks(r, q);
    ModInverseWorks(u, q);
    hide Prime, ModInverse, Cong;
    CongRefl(v, q);
    CongRefl(r, q);
    CongMul(r * u, 1, v, v, q);
    CongMul(u * v, 1, r, r, q);
    assert (r * u) * v == (u * v) * r;
    assert 1 * v == v && 1 * r == r;
    CongSym((r * u) * v, v, q);
    CongTrans(v, (r * u) * v, r, q);
  }

  lemma InsideLaws<P(!new)>(g: Sharing.Group<P>, inside: P -> bool, p: P)
    requires SubgroupLaws(g, inside) && inside(p)
    ensures LawsAt(g, p) && g.mul(1, p) == p && g.order > 1
  {}

  lemma ZeroMultiple<P>(g: Sharing.Group<P>, u: int, k: int, p: P)
    requires LawsAt(g, p) && Cong(k * u, 1, g.order) && g.mul(k, p) == g.zero
    ensures g.mul(1, p) == g.zero
  {
    hide Cong, LawsAt;
    InOrder(g, p);
    assert k * u == u * k && u * 0 == 0;
    MulCong(g, u * k, 1, p);
    MulMul(g, u, k, p);
    MulMul(g, u, 0, p);
    MulZero(g, p);
  }

  lemma InOrder<P>(g: Sharing.Group<P>, p: P)
    requires LawsAt(g, p)
    ensures g.order > 1
  {}

  lemma InverseOf(k: int, q: int) returns (u: int)
    requires Prime(q) && !Cong(k, 0, q)
    ensures Cong(k * u, 1, q)
  {
    u := ModInverse(k, q);
    ModInverseWorks(k, q);
  }

  lemma NonzeroMultiple<P>(g: Sharing.Group<P>, k: int, p: P)
    requires LawsAt(g, p) && g.mul(1, p) == p && p != g.zero && Prime(g.order) && !Cong(k, 0, g.order)
    ensures g.mul(k, p) != g.zero
  {
    hide LawsAt, Prime, Cong;
    var u := InverseOf(k, g.order);
    if g.mul(k, p) == g.zero { ZeroMultiple(g, u, k, p); }
  }

  /** A point of the subgroup other than zero has the full order. */
  lemma OrderOfPoint<P>(g: Sharing.Group<P>, k: int, p: P)
    requires LawsAt(g, p) && g.mul(1, p) == p && p != g.zero && Prime(g.order)
    ensures g.mul(k, p) == g.zero <==> Cong(k, 0, g.order)
  {
    hide LawsAt, Prime, Cong;
    InOrder(g, p);
    if Cong(k, 0, g.order) {
      MulCong(g, k, 0, p);
      MulZero(g, p);
    } else {
      NonzeroMultiple(g, k, p);
    }
  }

  lemma Difference<P(!new)>(g: Sharing.Group<P>, inside: P -> bool, a: int, b: int, p: P)
    requires SubgroupLaws(g, inside) && inside(p)
    ensures g.mul(a, p) == g.mul(b, p) <==> g.mul(b - a, p) == g.zero
  {
    hide LawsAt;
    var x, y := g.mul(a, p), g.mul(b, p);
    assert inside(x) && inside(y);
    assert g.add(g.mul(-1, x), y) == g.zero <==> x == y;
    hide SubgroupLaws;
    MulMul(g, -1, a, p);
    AddMul(g, -a, b, p);
    assert -1 * a == -a && -a + b == b - a;
  }

  lemma EqualMultiples<P(!new)>(g: Sharing.Group<P>, inside: P -> bool, a: int, b: int, p: P)
    requires SubgroupLaws(g, inside) && Prime(g.order) && inside(p) && p != g.zero
    ensures g.mul(a, p) == g.mul(b, p) <==> Cong(b, a, g.order)
  {
    hide LawsAt, SubgroupLaws, Prime;
    InsideLaws(g, inside, p);
    Difference(g, inside, a, b, p);
    OrderOfPoint(g, b - a, p);
    assert Cong(b - a, 0, g.order) <==> Cong(b, a, g.order);
  }

  /** For a nonzero blinding. */
  lemma SecondAttemptNonzero<P(!new), Q(!new), T(!new)>(
    c: Curve<P, Q, T>, shares: seq<int>, secret: int, message: Bytes, r: int)
    requires CurveLaws(c) && Cong(Sum(shares), secret, c.g1.order) && r % c.g1.order != 0
    ensures var hash := c.hash(message);
            var partials := Multiples(c.g1, shares, Blind(c, hash, r));
            Created(c, c.mul2(secret, c.gen), hash, FrInv(c, r), partials).Ok? <==>
            c.g1.mul(secret, hash) == c.g1.zero || Cong(r * r, 1, c.g1.order)
  {
    hide Sum, Cong, PairingLaws, Prime, Accumulated, Multiples, Verify, ModInverse;
    var q, hash := c.g1.order, c.hash(message);
    var p := c.g1.mul(secret, hash);
    assert c.valid(hash) && c.valid(p);
    CombinedIs(c, shares, secret, hash, r);
    InverseTwice(r, q);
    var v := ModInverse(ModInverse(r, q), q);
    var token := c.g1.mul(v, c.g1.mul(secret * r, hash));
    Squared(c.g1, v, r, secret, hash);
    VerifyExactly(c, secret, token, hash);
    if p != c.g1.zero {
      EqualMultiples(c.g1, c.valid, 1, r * r, p);
    } else {
      NeutralMultiple(c.g1, secret, r * r, hash);
    }
  }

  lemma NeutralMultiple<P>(g: Sharing.Group<P>, secret: int, k: int, p: P)
    requires LawsAt(g, p) && g.mul(secret, p) == g.zero
    ensures g.mul(k, g.mul(secret, p)) == g.zero
  {
    hide LawsAt;
    MulZero(g, p);
    MulMul(g, k, 0, p);
    assert k * 0 == 0;
  }

  /** After a first Create that reported TokenInvalid (some signer sent a wrong partial), the stored
      blinding is already inverted. A second Create with honest partials for the same blinded hash
      then succeeds if and only if the token is the neutral element, or the blinding is not zero and
      its own inverse; otherwise Prepare must be redone. */
  lemma SecondAttempt<P(!new), Q(!new), T(!new)>(
    c: Curve<P, Q, T>, shares: seq<int>, secret: int, message: Bytes, r: int)
    requires CurveLaws(c) && Cong(Sum(shares), secret, c.g1.order)
    ensures var hash := c.hash(message);
            var second := Created(c, c.mul2(secret, c.gen), hash, FrInv(c, r), Multiples(c.g1, shares, Blind(c, hash, r)));
            && (second.Ok? <==> c.g1.mul(secret, hash) == c.g1.zero || (r % c.g1.order != 0 && Cong(r * r, 1, c.g1.order)))
            && (second.Ok? ==> second.value == c.g1.mul(secret, hash))
            && (second.Err? ==> second.error == TokenInvalid)
  {
    hide Sum, Cong, CurveLaws, Prime, Accumulated, Multiples, ModInverse, LawsAt, Blind, Verify, FrInv;
    var hash := c.hash(message);
    HashLaws(c, message);
    OnlyGoodTokens(c, secret, hash, FrInv(c, r), Multiples(c.g1, shares, Blind(c, hash, r)));
    if r % c.g1.order != 0 {
      SecondAttemptNonzero(c, shares, secret, message, r);
    } else {
      CombinedIs(c, shares, secret, hash, r);
      ZeroScalar(c.g1, FrInv(c, FrInv(c, r)), secret, r, hash);
      VerifyExactly(c, secret, c.g1.zero, hash);
    }
  }

  /** Whatever the partials, Create returns the one valid token or TokenInvalid. */
  lemma OnlyGoodTokens<P(!new), Q(!new), T(!new)>(c: Curve<P, Q, T>, secret: int, hash: P, blinding: int, partials: seq<P>)
    requires CurveLaws(c) && c.valid(hash)
    ensures var r := Created(c, c.mul2(secret, c.gen), hash, blinding, partials);
            r == Ok(c.g1.mul(secret, hash)) || r == Err(TokenInvalid)
  {
    var token := c.g1.mul(FrInv(c, blinding), Accumulated(c.g1, partials));
    VerifyExactly(c, secret, token, hash);
    hide CurveLaws, Accumulated, FrInv, Verify;
  }

  /** The two calls on the object: any partials that make the first Create fail, then honest ones. */
  method Retry<P(!new), Q(!new), T(!new, ==)>(info: Issuance<P, Q, T>, wrong: seq<P>, shares: seq<int>, ghost secret: int, ghost message: Bytes)
      returns (first: Option<Result<P>>, second: Option<Result<P>>)
    requires CurveLaws(info.c) && Cong(Sum(shares), secret, info.c.g1.order) && info.ready
    requires info.hash == info.c.hash(message) && info.key == info.c.mul2(secret, info.c.gen)
    modifies info
    ensures first.Some? && (first.value.Ok? ==> second == None)
    ensures first.value.Err? ==>
      && second.Some?
      && (second.value.Ok? <==>
            || info.c.g1.mul(secret, info.hash) == info.c.g1.zero
            || (old(info.blinding) % info.c.g1.order != 0 && Cong(old(info.blinding) * old(info.blinding), 1, info.c.g1.order)))
      && (second.value.Ok? ==> second.value.value == info.c.g1.mul(secret, info.hash))
      && (second.value.Err? ==> second.value.error == TokenInvalid)
  {
    HashLaws(info.c, message);
    hide CurveLaws, Prime, Sum, Created, Cong, Multiples, FrInv, LawsAt;
    var r := info.blinding;
    SecondAttempt(info.c, shares, secret, message, r);
    var honest := Multiples(info.c.g1, shares, Blind(info.c, info.hash, r));
    first := info.Create(wrong);
    second := info.Create(honest);
  }

  lemma Squared<P>(g: Sharing.Group<P>, v: int, r: int, secret: int, p: P)
    requires LawsAt(g, p) && Cong(v, r, g.order)
    ensures g.mul(v, g.mul(secret * r, p)) == g.mul(r * r, g.mul(secret, p))
  {
    hide Cong;
    MulMul(g, v, secret * r, p);
    MulMul(g, r * r, secret, p);
    CongRefl(secret * r, g.order);
    CongMul(v, r, secret * r, secret * r, g.order);
    assert r * (secret * r) == r * r * secret;
    MulCong(g, v * (secret * r), r * r * secret, p);
  }
}
