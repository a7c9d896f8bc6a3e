/** The laws the token theorems assume of a curve can be met, and a failing second attempt: the
    integers modulo 5, with multiplication as the pairing. */
module TokenInstance {
  import opened ByteStrings
  import opened Modular
  import opened Sharing
  import opened ProcessMessages
  import opened Tokens

  newtype Z5 = x: int | 0 <= x < 5

  function Add(a: Z5, b: Z5): Z5 {
    Mod(a as int + b as int, 5) as Z5
  }

  function Mul(k: int, a: Z5): Z5 {
    Mod(Times(k, a as int), 5) as Z5
  }

  function Product(a: Z5, b: Z5): Z5 {
    Mul(a as int, b)
  }

  function Integers(): Sharing.Group<Z5> {
    Sharing.Group(5, 0, Add, Mul)
  }

  function Example(inverseOfZero: int): Curve<Z5, Z5, Z5> {
    Curve(Integers(), (p: Z5) => true, 1, Mul, Product, (t: Z5) => t, Integers(), (m: Bytes) => 1, inverseOfZero)
  }

  // ----- the group

  lemma MulAdds(a: int, b: int, p: Z5)
    ensures Add(Mul(a, p), Mul(b, p)) == Mul(a + b, p)
  {
    hide Mod, Times;
    ZqAdd(5, a, b, p as int);
  }

  lemma MulTwice(a: int, b: int, p: Z5)
    ensures Mul(a, Mul(b, p)) == Mul(Times(a, b), p)
  {
    hide Mod, Times;
    ZqMul(5, a, b, p as int);
  }

  lemma MulReduces(a: int, b: int, p: Z5)
    requires Cong(a, b, 5)
    ensures Mul(a, p) == Mul(b, p)
  {
    hide Mod, Times;
    ZqReduce(5, a, b, p as int);
  }

  lemma MulByZeroAndOne(p: Z5)
    ensures Mul(0, p) == 0 && Mul(1, p) == p
  {}

  lemma MinusPlus(p: Z5, r: Z5)
    ensures Add(Mul(-1, p), r) == 0 <==> p == r
  {
    Negated(p as int);
    hide Times;
    var m := Mod(Times(-1, p as int), 5);
    assert m == if p == 0 then 0 else 5 - p as int;
    assert 0 <= m + r as int < 10;
  }

  lemma Negated(p: int)
    requires 0 <= p < 5
    ensures Mod(Times(-1, p), 5) == if p == 0 then 0 else 5 - p
  {
    assert Times(-1, p) == -p;
  }

  lemma MulLaws(p: Z5)
    ensures forall a: int, b: int {:trigger Add(Mul(a, p), Mul(b, p))} :: Add(Mul(a, p), Mul(b, p)) == Mul(a + b, p)
    ensures forall a: int, b: int {:trigger Mul(Times(a, b), p)} :: Mul(a, Mul(b, p)) == Mul(Times(a, b), p)
    ensures forall a: int, b: int :: Cong(a, b, 5) ==> Mul(a, p) == Mul(b, p)
  {
    hide Mul, Add, Cong, Times, Mod;
    forall a: int, b: int ensures Add(Mul(a, p), Mul(b, p)) == Mul(a + b, p) { MulAdds(a, b, p); }
    forall a: int, b: int ensures Mul(a, Mul(b, p)) == Mul(Times(a, b), p) { MulTwice(a, b, p); }
    forall a: int, b: int | Cong(a, b, 5) ensures Mul(a, p) == Mul(b, p) { MulReduces(a, b, p); }
  }

  lemma LawsOfIntegers(p: Z5)
    ensures LawsAt(Integers(), p)
  {
    hide Mul, Add, Cong, Times, Mod;
    MulLaws(p);
    MulByZeroAndOne(p);
  }

  lemma SubgroupOfIntegers(inside: Z5 -> bool)
    requires forall p: Z5 :: inside(p)
    ensures SubgroupLaws(Integers(), inside)
  {
    hide LawsAt, Mul, Add;
    var g := Integers();
    forall p: Z5 ensures LawsAt(g, p) && g.mul(1, p) == p {
      LawsOfIntegers(p);
      MulByZeroAndOne(p);
    }
    forall p: Z5, r: Z5 ensures g.add(g.mul(-1, p), r) == g.zero <==> p == r { MinusPlus(p, r); }
  }

  // ----- the pairing

  lemma ProductWithOne(p: Z5)
    ensures Product(p, 1) == p
  {
    assert Times(p as int, 1) == p as int;
  }

  lemma ProductOfMultiple(k: int, p: Z5)
    ensures Product(p, Mul(k, 1)) == Mul(k, p)
  {
    hide Mod, Times;
    ZqMul(5, p as int, k, 1);
    ProductCommutes(p as int, k);
  }

  lemma ProductCommutes(p: int, k: int)
    ensures Times(Times(p, k), 1) == Times(k, p)
  {
    assert p * k * 1 == k * p;
  }

  lemma PairingOfIntegers(inverseOfZero: int)
    ensures PairingLaws(Example(inverseOfZero))
  {
    hide Mul, Add, Product;
    var c := Example(inverseOfZero);
    forall p: Z5 ensures c.Pairing(p, c.gen) == p { ProductWithOne(p); }
    forall p: Z5, k: int ensures c.Pairing(p, c.mul2(k, c.gen)) == c.gt.mul(k, p) { ProductOfMultiple(k, p); }
  }

  lemma FiveIsPrime()
    ensures Prime(5)
  {}

  /** So there is a curve with all the laws, whatever the inverse of zero. */
  lemma ExampleIsCurve(inverseOfZero: int)
    ensures CurveLaws(Example(inverseOfZero))
  {
    hide SubgroupLaws, PairingLaws, Prime;
    var c := Example(inverseOfZero);
    FiveIsPrime();
    SubgroupOfIntegers(c.valid);
    SubgroupOfIntegers((t: Z5) => true);
    PairingOfIntegers(inverseOfZero);
  }

  // ----- a failing second attempt

  lemma InverseOfTwo()
    ensures Prime(5) && ModInverse(2, 5) == 3
  {
    FiveIsPrime();
    assert InverseReduced(1, 5) == 1;
    assert InverseReduced(2, 5) == -2;
  }

  lemma TwoIsNotItsInverse()
    ensures !Cong(2 * 2, 1, 5)
  {}

  /** The partial of a signer that answers with the neutral element is not accepted. */
  lemma WrongPartial(inverseOfZero: int, message: Bytes)
    ensures var c := Example(inverseOfZero);
            Prime(5) && Created(c, c.mul2(1, c.gen), c.hash(message), 2, [0]) == Err(TokenInvalid)
  {
    var c := Example(inverseOfZero);
    InverseOfTwo();
    ExampleIsCurve(inverseOfZero);
    MulByZeroAndOne(1);
    assert Accumulated(c.g1, [0]) == 0 by { assert [0][..0] == []; }
    hide CurveLaws, Prime, ModInverse, PairingCheck, Verify;
    assert c.g1.mul(3, 0) == 0 by { assert Times(3, 0) == 0; }
    VerifyExactly(c, 1, 0, c.hash(message));
  }

  /** Secret 1 and blinding 2. The signer first answers with the neutral element: Create reports
      TokenInvalid and has inverted the blinding to 3. Then the signer answers honestly, and Create
      reports TokenInvalid again. Had it answered honestly at once, there would be a token. */
  lemma SecondAttemptFails(inverseOfZero: int, message: Bytes)
    ensures var c := Example(inverseOfZero);
            var key, hash := c.mul2(1, c.gen), c.hash(message);
            var honest := Multiples(c.g1, [1], Blind(c, hash, 2));
            && Prime(5) && FrInv(c, 2) == 3
            && Created(c, key, hash, 2, [0]) == Err(TokenInvalid)
            && Created(c, key, hash, 3, honest) == Err(TokenInvalid)
            && Created(c, key, hash, 2, honest) == Ok(1)
  {
    var c := Example(inverseOfZero);
    InverseOfTwo();
    ExampleIsCurve(inverseOfZero);
    WrongPartial(inverseOfZero, message);
    SumOne(1);
    TwoIsNotItsInverse();
    MulByZeroAndOne(1);
    hide CurveLaws, Prime, ModInverse, Sum, Created, Multiples, Blind, Mul, Add;
    SecondAttempt(c, [1], 1, message, 2);
    TokensAreValid(c, true, [1], 1, message, 2);
  }

  /** The same as two calls on one object. */
  method RetryFails(inverseOfZero: int, message: Bytes) returns (first: Option<Result<Z5>>, second: Option<Result<Z5>>)
    ensures first == Some(Err(TokenInvalid)) && second == Some(Err(TokenInvalid))
  {
    var c := Example(inverseOfZero);
    ExampleIsCurve(inverseOfZero);
    WrongPartial(inverseOfZero, message);
    SumOne(1);
    TwoIsNotItsInverse();
    MulByZeroAndOne(1);
    InverseOfTwo();
    var info := new Issuance<Z5, Z5, Z5>(c, c.mul2(1, c.gen), message, 2);
    SecondAttemptFails(inverseOfZero, message);
    hide CurveLaws, Prime, ModInverse, Sum, Created, Multiples, Blind, Mul, Add;
    first := info.Create([0]);
    second := info.Create(Multiples(c.g1, [1], Blind(c, c.hash(message), 2)));
  }
}
