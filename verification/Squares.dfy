/** Squares modulo a prime p = 3 mod 4: of a number and its negative exactly one is a square, so a
    square root is determined by whether it is a square itself. */
module Squares {
  import opened ByteStrings
  import opened Modular

  lemma SquareCong(a: int, b: int, p: int)
    requires p > 0 && Cong(a, b, p) && IsSquare(a, p)
    ensures IsSquare(b, p)
  {
    var z :| RootOf(z, a, p);
    CongTrans(z * z, a, b, p);
    assert RootOf(z, b, p);
  }

  lemma ZeroIsSquare(a: int, p: int)
    requires p > 0 && a % p == 0
    ensures IsSquare(a, p)
  {
    CongSym(a, 0, p);
    assert 0 * 0 == 0;
    assert RootOf(0, a, p);
  }

  lemma PowTwice(z: int, e: nat)
    ensures Pow(z * z, e) == Pow(z, e) * Pow(z, e)
  {
    hide Pow;
    PowOfSquare(z, e);
    PowAdd(z, e, e);
  }

  /** Powers of squares are squares. */
  lemma PowerOfSquare(g: int, e: nat, p: int)
    requires p > 0 && IsSquare(g, p)
    ensures IsSquare(Pow(g, e), p)
  {
    var z :| RootOf(z, g, p);
    PowCong(z * z, g, e, p);
    hide Pow;
    PowTwice(z, e);
    assert RootOf(Pow(z, e), Pow(g, e), p);
  }

  /** Even powers are squares of anything. */
  lemma EvenPower(g: int, e: nat, p: int)
    requires p > 0 && e % 2 == 0
    ensures IsSquare(Pow(g, e), p)
  {
    var h := e / 2;
    PowAdd(g, h, h);
    hide Pow;
    CongRefl(Pow(g, e), p);
    assert RootOf(Pow(g, h), Pow(g, e), p);
  }

  lemma {:induction false} PowNonzero(g: int, e: nat, p: int)
    requires Prime(p) && g % p != 0
    ensures Pow(g, e) % p != 0
    decreases e
  {
    if e == 0 {
      PrimePositive(p);
      DivisionIsUnique(1, p, 0, 1);
    } else {
      PowNonzero(g, e - 1, p);
      if Pow(g, e) % p == 0 { Euclid(p, g, Pow(g, e - 1)); }
    }
  }

  lemma MoveSquares(b: int, w: int, g: int, h: int)
    ensures (b * w) * (b * w) == (b * b) * (w * w) && (g * (h * h)) * (w * w) == g * ((h * w) * (h * w))
  {
    ProductOfSquares(b, w);
    ProductOfSquares(h, w);
    Associate(g, h * h, w * w);
  }

  lemma ProductOfSquares(b: int, w: int)
    ensures (b * w) * (b * w) == (b * b) * (w * w)
  {
    assert (b * w) * (b * w) == b * (w * (b * w)) == b * (b * (w * w));
  }

  lemma Associate(a: int, b: int, c: int)
    ensures (a * b) * c == a * (b * c)
  {}

  /** If g times a nonzero square is a square, so is g. */
  lemma CancelSquare(g: int, h: int, b: int, p: int)
    requires Prime(p) && h % p != 0 && Cong(b * b, g * (h * h), p)
    ensures IsSquare(g, p)
  {
    var w := ModInverse(h, p);
    ModInverseWorks(h, p);
    hide Prime, ModInverse;
    CongRefl(w * w, p);
    CongMul(b * b, g * (h * h), w * w, w * w, p);
    MoveSquares(b, w, g, h);
    CongMul(h * w, 1, h * w, 1, p);
    CongRefl(g, p);
    CongMul(g, g, (h * w) * (h * w), 1 * 1, p);
    CongTrans((b * w) * (b * w), g * ((h * w) * (h * w)), g, p);
    assert RootOf(b * w, g, p);
  }

  /** An odd power is a square only of a square. */
  lemma OddPower(g: int, e: nat, p: int)
    requires Prime(p) && e % 2 == 1 && IsSquare(Pow(g, e), p)
    ensures IsSquare(g, p)
  {
    PrimePositive(p);
    if g % p == 0 {
      ZeroIsSquare(g, p);
    } else {
      var h := Pow(g, e / 2);
      var b :| RootOf(b, Pow(g, e), p);
      PowNonzero(g, e / 2, p);
      PowAdd(g, e / 2, e / 2);
      assert Pow(g, e) == g * Pow(g, e - 1) && e - 1 == e / 2 + e / 2;
      hide Prime, Pow;
      CancelSquare(g, h, b, p);
    }
  }

  /** Euler's criterion, one way. */
  lemma EulerSquare(a: int, p: nat)
    requires Prime(p) && p % 2 == 1 && a % p != 0 && IsSquare(a, p)
    ensures Cong(Pow(a, (p - 1) / 2), 1, p)
  {
    PrimePositive(p);
    var z := RootOfSquare(a, p);
    var h := (p - 1) / 2;
    hide Prime, Pow, Cong;
    if z % p == 0 {
      ZeroSquare(z, a, p);
    } else {
      Fermat(p, z);
      PowOfSquare(z, h);
      PowCong(a, z * z, h, p);
      assert 2 * h == p - 1;
      CongTrans(Pow(a, h), Pow(z * z, h), 1, p);
    }
  }

  lemma RootOfSquare(a: int, p: int) returns (z: int)
    requires p > 0 && IsSquare(a, p)
    ensures Cong(a, z * z, p)
  {
    z :| RootOf(z, a, p);
    RootSym(z, a, p);
  }

  lemma {:induction false} PowNegated(a: int, h: nat)
    ensures Pow(-a, h) == if h % 2 == 0 then Pow(a, h) else -Pow(a, h)
  {
    if h > 0 {
      PowNegated(a, h - 1);
      PowStep(a, h);
      PowStep(-a, h);
      NegatedTimes(a, Pow(a, h - 1));
      hide Pow;
    }
  }

  lemma PowStep(a: int, h: nat)
    requires h > 0
    ensures Pow(a, h) == a * Pow(a, h - 1)
  {}

  lemma NegatedTimes(a: int, b: int)
    ensures -a * b == -(a * b) && -a * -b == a * b
  {}

  /** A number and its negative are not both squares, unless they are zero. */
  lemma NotBoth(a: int, p: nat)
    requires Prime(p) && p % 4 == 3 && IsSquare(a, p) && IsSquare(-a, p)
    ensures a % p == 0
  {
    if a % p != 0 {
      var h := (p - 1) / 2;
      NegativeNonzero(a, p);
      EulerSquare(a, p);
      EulerSquare(-a, p);
      PowNegated(a, h);
      PrimePositive(p);
      hide Prime, Pow, Cong, IsSquare;
      OddHalf(p, h);
      NotBothOne(Pow(a, h), p);
    }
  }

  lemma OddHalf(p: nat, h: nat)
    requires p % 4 == 3 && h == (p - 1) / 2
    ensures h % 2 == 1
  {}

  lemma NotBothOne(x: int, p: int)
    requires p > 2 && Cong(x, 1, p)
    ensures !Cong(-x, 1, p)
  {
    TwoNotZero(p);
    if Cong(-x, 1, p) { CongAdd(x, 1, -x, 1, p); }
  }

  lemma NegatedMultiple(a: int, p: int)
    requires p > 0 && (-a) % p == 0
    ensures a % p == 0
  {
    var k := AsMultiple(-a, p);
    MultipleMod(p, -k);
    assert a == p * -k;
  }

  lemma NegativeNonzero(a: int, p: int)
    requires p > 0 && a % p != 0
    ensures (-a) % p != 0
  {
    if (-a) % p == 0 { NegatedMultiple(a, p); }
  }

  lemma TwoNotZero(p: int)
    requires p > 2
    ensures !Cong(0, 2, p)
  {
    DivisionIsUnique(-2, p, -1, p - 2);
  }

  /** One of them is. */
  lemma OneOfBoth(a: int, p: nat)
    requires Prime(p) && p % 4 == 3
    ensures IsSquare(a, p) || IsSquare(-a, p)
  {
    var y := Pow(a, (p + 1) / 4);
    RootOrNegated(p, a);
    if Cong(y * y, a, p) { assert RootOf(y, a, p); } else { assert RootOf(y, -a, p); }
  }

  lemma SameSquare(a: int, b: int, p: int)
    requires Prime(p) && Cong(a * a, b * b, p)
    ensures Cong(a, b, p) || Cong(a, -b, p)
  {
    assert (a - b) * (a + b) == a * a - b * b;
    Euclid(p, a - b, a + b);
  }

  /** Two roots of the same number that are both squares, or both not, are the same root. */
  lemma RootIsUnique(a: int, b: int, p: nat)
    requires Prime(p) && p % 4 == 3 && Cong(a * a, b * b, p) && (IsSquare(a, p) <==> IsSquare(b, p))
    ensures Cong(a, b, p)
  {
    SameSquare(a, b, p);
    PrimePositive(p);
    hide Prime;
    if Cong(a, -b, p) {
      if IsSquare(b, p) {
        SquareCong(a, -b, p);
        NotBoth(b, p);
        BothZero(a, b, p);
      } else {
        OneOfBoth(b, p);
        CongSym(a, -b, p);
        SquareCong(-b, a, p);
      }
    }
  }

  lemma BothZero(a: int, b: int, p: int)
    requires p > 0 && b % p == 0 && Cong(a, -b, p)
    ensures Cong(a, b, p)
  {
    var k := AsMultiple(b, p);
    var l := AsMultiple(a + b, p);
    MultipleMod(p, l - 2 * k);
    assert a - b == p * (l - 2 * k);
  }
}
