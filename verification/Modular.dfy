/** Arithmetic modulo a prime: inverses, powers, Fermat's little theorem, square roots when p = 3 mod 4. */
module Modular {
  import opened ByteStrings

  predicate Cong(a: int, b: int, p: int)
    requires p > 0
  {
    (a - b) % p == 0
  }

  lemma MultipleMod(p: int, k: int)
    requires p > 0
    ensures (p * k) % p == 0
  {
    DivisionIsUnique(p * k, p, k, 0);
  }

  lemma AsMultiple(x: int, p: int) returns (k: int)
    requires p > 0 && x % p == 0
    ensures x == p * k
  {
    k := x / p;
  }

  lemma ModCong(a: int, p: int)
    requires p > 0
    ensures Cong(a % p, a, p) && 0 <= a % p < p
  {
    MultipleMod(p, -(a / p));
    assert a % p - a == p * -(a / p);
  }

  lemma CongRefl(a: int, p: int)
    requires p > 0
    ensures Cong(a, a, p)
  {}

  lemma CongSym(a: int, b: int, p: int)
    requires p > 0 && Cong(a, b, p)
    ensures Cong(b, a, p)
  {
    var k := AsMultiple(a - b, p);
    MultipleMod(p, -k);
    assert b - a == p * -k;
  }

  lemma CongTrans(a: int, b: int, c: int, p: int)
    requires p > 0 && Cong(a, b, p) && Cong(b, c, p)
    ensures Cong(a, c, p)
  {
    var k := AsMultiple(a - b, p);
    var l := AsMultiple(b - c, p);
    MultipleMod(p, k + l);
    assert a - c == p * (k + l);
  }

  lemma CongAdd(a: int, b: int, c: int, d: int, p: int)
    requires p > 0 && Cong(a, b, p) && Cong(c, d, p)
    ensures Cong(a + c, b + d, p)
  {
    var k := AsMultiple(a - b, p);
    var l := AsMultiple(c - d, p);
    MultipleMod(p, k + l);
    assert (a + c) - (b + d) == p * (k + l);
  }

  lemma CongMul(a: int, b: int, c: int, d: int, p: int)
    requires p > 0 && Cong(a, b, p) && Cong(c, d, p)
    ensures Cong(a * c, b * d, p)
  {
    var k := AsMultiple(a - b, p);
    var l := AsMultiple(c - d, p);
    MultipleMod(p, k * c + b * l);
    SplitProduct(a, b, c, d);
    FactorOut(p, k, c, b, l);
  }

  lemma SplitProduct(a: int, b: int, c: int, d: int)
    ensures a * c - b * d == (a - b) * c + b * (c - d)
  {}

  lemma FactorOut(p: int, k: int, c: int, b: int, l: int)
    ensures (p * k) * c + b * (p * l) == p * (k * c + b * l)
  {
    assert (p * k) * c == p * (k * c) && b * (p * l) == p * (b * l);
  }

  /** Congruent reduced numbers are equal. */
  lemma CongReduced(a: int, b: int, p: int)
    requires p > 0 && 0 <= a < p && 0 <= b < p && Cong(a, b, p)
    ensures a == b
  {
    var k := AsMultiple(a - b, p);
    assert p * -k == b - a;
    if k > 0 { MulAtLeast(p, k); }
    if k < 0 { MulAtLeast(p, -k); }
  }

  lemma CongModEq(a: int, b: int, p: int)
    requires p > 0
    ensures Cong(a, b, p) <==> a % p == b % p
  {
    ModCong(a, p);
    ModCong(b, p);
    if Cong(a, b, p) {
      CongTrans(a % p, a, b, p);
      CongSym(b % p, b, p);
      CongTrans(a % p, b, b % p, p);
      CongReduced(a % p, b % p, p);
    }
    if a % p == b % p {
      CongSym(a % p, a, p);
      CongTrans(a, a % p, b, p);
    }
  }

  // ----- primes

  predicate Divides(d: int, a: int)
    requires d > 0
  {
    a % d == 0
  }

  ghost predicate Prime(p: int) {
    p >= 2 && forall d :: 2 <= d < p ==> !Divides(d, p)
  }

  /** Euclid's lemma, for a reduced first factor. */
  lemma {:induction false} EuclidReduced(p: int, a: int, b: int)
    requires Prime(p) && 1 <= a < p && (a * b) % p == 0
    ensures b % p == 0
    decreases a
  {
    if a > 1 {
      PrimePositive(p);
      var q, r := PrimeDivision(a, p);
      hide Prime;
      RemainderTimes(p, a, q, r, b);
      EuclidReduced(p, r, b);
    }
  }

  /** A prime leaves a remainder. */
  lemma PrimeDivision(a: int, p: int) returns (q: int, r: int)
    requires Prime(p) && 1 < a < p
    ensures 1 <= r < a && p == a * q + r && q == p / a && r == p % a
  {
    q, r := p / a, p % a;
    assert !Divides(a, p);
  }

  lemma RemainderTimes(p: int, a: int, q: int, r: int, b: int)
    requires p > 0 && p == a * q + r && (a * b) % p == 0
    ensures (r * b) % p == 0
  {
    var k := AsMultiple(a * b, p);
    assert r * b == p * b - (a * q) * b;
    assert (a * q) * b == q * (a * b) == q * (p * k) == p * (q * k);
    assert p * b - p * (q * k) == p * (b - q * k);
    MultipleMod(p, b - q * k);
  }

  lemma Euclid(p: int, a: int, b: int)
    requires Prime(p) && (a * b) % p == 0
    ensures a % p == 0 || b % p == 0
  {
    if a % p != 0 {
      ModCong(a, p);
      CongRefl(b, p);
      CongMul(a % p, a, b, b, p);
      CongModEq((a % p) * b, a * b, p);
      EuclidReduced(p, a % p, b);
    }
  }

  /** The inverse of a reduced number modulo a prime. */
  function InverseReduced(a: int, p: int): (r: int)
    requires Prime(p) && 1 <= a < p
    decreases a
  {
    if a == 1 then 1 else assert !Divides(a, p); -(p / a) * InverseReduced(p % a, p)
  }

  lemma InverseArithmetic(p: int, a: int, q: int, r: int, s: int)
    requires p == a * q + r
    ensures a * (-q * s) - r * s == p * -s
  {
    assert a * (-q * s) == -((a * q) * s) && (a * q) * s == (p - r) * s == p * s - r * s;
  }

  lemma {:induction false} InverseReducedWorks(a: int, p: int)
    requires Prime(p) && 1 <= a < p
    ensures Cong(a * InverseReduced(a, p), 1, p)
    decreases a
  {
    if a > 1 {
      var q, r := InverseUnfolds(a, p);
      PrimePositive(p);
      hide Prime, Cong, InverseReduced;
      InverseReducedWorks(r, p);
      InverseStep(p, a, q, r, InverseReduced(r, p));
    }
  }

  lemma InverseUnfolds(a: int, p: int) returns (q: int, r: int)
    requires Prime(p) && 1 < a < p
    ensures 1 <= r < a && p == a * q + r
    ensures InverseReduced(a, p) == -q * InverseReduced(r, p)
  {
    q, r := PrimeDivision(a, p);
  }

  lemma InverseStep(p: int, a: int, q: int, r: int, s: int)
    requires p > 0 && p == a * q + r && Cong(r * s, 1, p)
    ensures Cong(a * (-q * s), 1, p)
  {
    InverseArithmetic(p, a, q, r, s);
    MultipleMod(p, -s);
    assert Cong(a * (-q * s), r * s, p);
    hide Cong;
    CongTrans(a * (-q * s), r * s, 1, p);
  }

  /** big.Int.ModInverse: reduced, for any number not divisible by the prime. */
  function ModInverse(a: int, p: int): (r: int)
    requires Prime(p) && a % p != 0
  {
    InverseReduced(a % p, p) % p
  }

  lemma ModInverseWorks(a: int, p: int)
    requires Prime(p) && a % p != 0
    ensures 0 <= ModInverse(a, p) < p && Cong(a * ModInverse(a, p), 1, p)
  {
    var b, s := a % p, InverseReduced(a % p, p);
    InverseReducedWorks(b, p);
    ModCong(a, p);
    ModCong(s, p);
    CongSym(b, a, p);
    CongMul(a, b, s % p, s, p);
    CongTrans(a * (s % p), b * s, 1, p);
  }

  // ----- powers

  function Pow(b: int, e: nat): int {
    if e == 0 then 1 else b * Pow(b, e - 1)
  }

  lemma {:induction false} PowAdd(b: int, m: nat, n: nat)
    ensures Pow(b, m + n) == Pow(b, m) * Pow(b, n)
  {
    if m > 0 {
      PowAdd(b, m - 1, n);
      assert Pow(b, m + n) == b * Pow(b, (m - 1) + n);
    }
  }

  lemma {:induction false} PowCong(a: int, b: int, e: nat, p: int)
    requires p > 0 && Cong(a, b, p)
    ensures Cong(Pow(a, e), Pow(b, e), p)
  {
    if e == 0 {
      CongRefl(1, p);
    } else {
      PowCong(a, b, e - 1, p);
      CongMul(a, b, Pow(a, e - 1), Pow(b, e - 1), p);
    }
  }

  // ----- Fermat's little theorem, by the binomial theorem

  function Choose(n: nat, k: int): nat {
    if k < 0 then 0 else if n == 0 then (if k == 0 then 1 else 0) else Choose(n - 1, k - 1) + Choose(n - 1, k)
  }

  lemma {:induction false} ChooseBeyond(n: nat, k: int)
    requires k > n
    ensures Choose(n, k) == 0
  {
    if n > 0 {
      ChooseBeyond(n - 1, k - 1);
      ChooseBeyond(n - 1, k);
    }
  }

  lemma {:induction false} ChooseZero(n: nat)
    ensures Choose(n, 0) == 1
  {
    if n > 0 { ChooseZero(n - 1); }
  }

  lemma {:induction false} ChooseAll(n: nat)
    ensures Choose(n, n) == 1
  {
    if n > 0 {
      ChooseAll(n - 1);
      ChooseBeyond(n - 1, n);
    }
  }

  lemma AbsorptionArithmetic(n: int, k: int, a: int, b: int, c: int, d: int)
    requires a == c + d && k * b == (n - 1) * d && (k - 1) * a == (n - 1) * c
    ensures k * (a + b) == n * a
  {
    assert k * (a + b) == (k - 1) * a + a + k * b;
    assert (n - 1) * c + (n - 1) * d == (n - 1) * a;
  }

  /** k * C(n, k) = n * C(n - 1, k - 1). */
  lemma {:induction false} Absorption(n: nat, k: int)
    requires n >= 1
    ensures k * Choose(n, k) == n * Choose(n - 1, k - 1)
    decreases n
  {
    if k > 0 && n > 1 {
      Absorption(n - 1, k);
      Absorption(n - 1, k - 1);
      var a, b, c := Choose(n - 1, k - 1), Choose(n - 1, k), Choose(n - 2, k - 2);
      AbsorptionArithmetic(n, k, a, b, c, Choose(n - 2, k - 1));
    } else if k > 0 {
      assert Choose(1, k) == Choose(0, k - 1) + Choose(0, k);
    }
  }

  /** The first m + 1 terms of (a + 1)^n. */
  function Terms(n: nat, a: int, m: int): int
    decreases m
  {
    if m < 0 then 0 else Terms(n, a, m - 1) + Choose(n, m) * Pow(a, m)
  }

  lemma {:induction false} TermsStep(n: nat, a: int, m: nat)
    ensures Terms(n + 1, a, m) == Terms(n, a, m) + a * Terms(n, a, m - 1)
  {
    if m == 0 {
      ChooseZero(n);
      ChooseZero(n + 1);
    } else {
      TermsStep(n, a, m - 1);
      var x, y := Choose(n, m - 1), Choose(n, m);
      TermsArithmetic(a, x, y, Pow(a, m), Pow(a, m - 1), Terms(n, a, m - 2), Terms(n, a, m - 1));
    }
  }

  lemma TermsArithmetic(a: int, x: int, y: int, pm: int, pm1: int, t0: int, t1: int)
    requires pm == a * pm1 && t1 == t0 + x * pm1
    ensures (t1 + a * t0) + (x + y) * pm == (t1 + y * pm) + a * t1
  {
    assert (x + y) * pm == x * (a * pm1) + y * pm;
    assert a * t1 == a * t0 + a * (x * pm1);
    assert x * (a * pm1) == a * (x * pm1);
  }

  lemma {:induction false} Binomial(n: nat, a: int)
    ensures Pow(a + 1, n) == Terms(n, a, n)
  {
    if n > 0 {
      Binomial(n - 1, a);
      TermsStep(n - 1, a, n);
      ChooseBeyond(n - 1, n);
      assert Terms(n - 1, a, n) == Terms(n - 1, a, n - 1);
      assert Pow(a + 1, n) == (a + 1) * Terms(n - 1, a, n - 1) == a * Terms(n - 1, a, n - 1) + Terms(n - 1, a, n - 1);
    } else {
      assert Terms(0, a, 0) == 1;
    }
  }

  lemma PrimeDividesChoose(p: nat, k: nat)
    requires Prime(p) && 1 <= k < p
    ensures Choose(p, k) % p == 0
  {
    Absorption(p, k);
    MultipleMod(p, Choose(p - 1, k - 1));
    EuclidReduced(p, k, Choose(p, k));
  }

  lemma ZeroTimes(c: int, x: int, p: int)
    requires p > 0 && c % p == 0
    ensures Cong(c * x, 0, p)
  {
    var k := AsMultiple(c, p);
    MultipleMod(p, k * x);
    assert c * x == p * (k * x);
  }

  lemma {:induction false} MiddleTermsVanish(p: nat, a: int, m: nat)
    requires Prime(p) && m < p
    ensures Cong(Terms(p, a, m), 1, p)
  {
    if m == 0 {
      ChooseZero(p);
      assert Terms(p, a, 0) == 1;
    } else {
      MiddleTermsVanish(p, a, m - 1);
      PrimeDividesChoose(p, m);
      ZeroTimes(Choose(p, m), Pow(a, m), p);
      CongAdd(Terms(p, a, m - 1), 1, Choose(p, m) * Pow(a, m), 0, p);
    }
  }

  lemma LastTerm(p: nat, a: int)
    requires p > 0
    ensures Terms(p, a, p) == Terms(p, a, p - 1) + Pow(a, p)
  {
    ChooseAll(p);
  }

  lemma PrimePositive(p: int)
    requires Prime(p)
    ensures p >= 2
  {}

  lemma {:induction false} FermatNat(p: nat, a: nat)
    requires Prime(p)
    ensures Cong(Pow(a, p), a, p)
    decreases a
  {
    if a == 0 {
      assert Pow(0, p) == 0 * Pow(0, p - 1);
    } else {
      LastTerm(p, a - 1);
      PrimePositive(p);
      hide Prime, Pow, Terms, Choose, Cong;
      FermatNat(p, a - 1);
      Binomial(p, a - 1);
      MiddleTermsVanish(p, a - 1, p - 1);
      CongAdd(Terms(p, a - 1, p - 1), 1, Pow(a - 1, p), a - 1, p);
    }
  }

  /** Fermat's little theorem. */
  lemma Fermat(p: nat, a: int)
    requires Prime(p) && a % p != 0
    ensures Cong(Pow(a, p - 1), 1, p)
  {
    var b := a % p;
    ModCong(a, p);
    FermatNat(p, b);
    PowCong(b, a, p - 1, p);
    var x := Pow(b, p - 1);
    assert b * (x - 1) == Pow(b, p) - b;
    EuclidReduced(p, b, x - 1);
    CongSym(x, Pow(a, p - 1), p);
    CongTrans(Pow(a, p - 1), x, 1, p);
  }

  /** For p = 3 mod 4, the candidate root g^((p+1)/4) squares to g or to -g. */
  lemma RootOrNegated(p: nat, g: int)
    requires Prime(p) && p % 4 == 3
    ensures var y := Pow(g, (p + 1) / 4); Cong(y * y, g, p) || Cong(y * y, -g, p)
  {
    var e, h := (p + 1) / 4, (p - 1) / 2;
    var y, x := Pow(g, e), Pow(g, h);
    hide Prime, Pow, Cong;
    Exponents(p, e, h);
    RootSquared(g, e, h);
    PowAdd(g, h, h);
    if g % p == 0 {
      TimesDivisible(g, x, p);
    } else {
      Fermat(p, g);
      PlusOrMinusOne(p, x);
      TimesSign(g, x, p);
    }
  }

  lemma Exponents(p: nat, e: nat, h: nat)
    requires p % 4 == 3 && e == (p + 1) / 4 && h == (p - 1) / 2
    ensures e + e == h + 1 && h + h == p - 1
  {}

  lemma RootSquared(g: int, e: nat, h: nat)
    requires e + e == h + 1
    ensures Pow(g, e) * Pow(g, e) == g * Pow(g, h)
  {
    PowAdd(g, e, e);
  }

  lemma TimesDivisible(g: int, x: int, p: int)
    requires p > 0 && g % p == 0
    ensures Cong(g * x, g, p)
  {
    ZeroTimes(g, x, p);
    CongSym(g, 0, p);
    hide Cong;
    CongTrans(g * x, 0, g, p);
  }

  lemma TimesSign(g: int, x: int, p: int)
    requires p > 0 && (Cong(x, 1, p) || Cong(x, -1, p))
    ensures Cong(g * x, g, p) || Cong(g * x, -g, p)
  {
    CongRefl(g, p);
    hide Cong;
    assert g * 1 == g && g * -1 == -g;
    if Cong(x, 1, p) { CongMul(g, g, x, 1, p); } else { CongMul(g, g, x, -1, p); }
  }

  /** A square root of one is one or minus one. */
  lemma PlusOrMinusOne(p: int, x: int)
    requires Prime(p) && Cong(x * x, 1, p)
    ensures Cong(x, 1, p) || Cong(x, -1, p)
  {
    assert (x - 1) * (x + 1) == x * x - 1;
    Euclid(p, x - 1, x + 1);
  }

  ghost predicate RootOf(z: int, a: int, p: int)
    requires p > 0
  {
    Cong(z * z, a, p)
  }

  ghost predicate IsSquare(a: int, p: int)
    requires p > 0
  {
    exists z :: RootOf(z, a, p)
  }

  lemma {:induction false} PowOfSquare(z: int, h: nat)
    ensures Pow(z * z, h) == Pow(z, 2 * h)
  {
    if h > 0 {
      PowOfSquare(z, h - 1);
      PowAdd(z, 2, 2 * (h - 1));
      assert Pow(z, 2) == z * Pow(z, 1) == z * z;
    }
  }

  /** When g has a root at all, the candidate is one. */
  lemma RootSym(z: int, g: int, p: int)
    requires p > 0 && RootOf(z, g, p)
    ensures Cong(g, z * z, p)
  {
    CongSym(z * z, g, p);
  }

  lemma ZeroSquare(z: int, g: int, p: int)
    requires p > 0 && z % p == 0 && Cong(g, z * z, p)
    ensures g % p == 0
  {
    ZeroTimes(z, z, p);
    CongTrans(g, z * z, 0, p);
  }

  lemma RootFound(p: nat, g: int, z: int)
    requires Prime(p) && p % 4 == 3 && RootOf(z, g, p)
    ensures var y := Pow(g, (p + 1) / 4); Cong(y * y, g, p)
  {
    var e, h := (p + 1) / 4, (p - 1) / 2;
    var y, x := Pow(g, e), Pow(g, h);
    hide Prime, Pow, Cong;
    Exponents(p, e, h);
    RootSquared(g, e, h);
    RootSym(z, g, p);
    if z % p == 0 {
      ZeroSquare(z, g, p);
      TimesDivisible(g, x, p);
    } else {
      PowOfSquare(z, h);
      PowCong(g, z * z, h, p);
      Fermat(p, z);
      CongTrans(x, Pow(z, p - 1), 1, p);
      CongRefl(g, p);
      CongMul(g, g, x, 1, p);
      assert g * 1 == g;
    }
  }
}
