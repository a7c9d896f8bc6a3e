/** Simplified SWU hashing to the curve y^2 = x^3 - 3x + B over a prime field with p = 3 mod 4
    (crypto/ec/hash.go), in the form of Brier et al. with non-residue -1. */
module HashToCurve {
  import opened ByteStrings
  import opened Modular
  import opened Squares

  /** The right-hand side of the curve equation. */
  function Curve(x: int, b: int): int {
    x * x * x - 3 * x + b
  }

  ghost predicate OnCurve(x: int, y: int, b: int, p: int)
    requires p > 0
  {
    0 <= x < p && 0 <= y < p && Cong(y * y, Curve(x, b), p)
  }

  lemma CubeOfProduct(u: int, x: int)
    ensures (u * x) * (u * x) * (u * x) == u * u * u * (x * x * x)
  {
    var y := u * x;
    assert y * y == u * u * (x * x);
    assert y * y * y == u * u * (x * x) * y;
    CubeStep(u * u, x * x, u, x);
  }

  lemma CubeStep(a: int, b: int, u: int, x: int)
    ensures (a * b) * (u * x) == (a * u) * (b * x)
  {
    assert (a * b) * (u * x) == a * (b * (u * x));
    assert b * (u * x) == u * (b * x);
    assert a * (u * (b * x)) == (a * u) * (b * x);
  }

  lemma CurveTimes(c: int, x: int, b: int)
    ensures c * Curve(x, b) == c * (x * x * x) - 3 * (c * x) + c * b
  {
    Distribute(c, x * x * x, x, b);
  }

  lemma Distribute(c: int, x3: int, x: int, b: int)
    ensures c * (x3 - 3 * x + b) == c * x3 - 3 * (c * x) + c * b
  {}

  lemma Telescope(u: int)
    ensures (1 - u) * (1 + u + u * u) == 1 - u * u * u && (1 - u) * (u * u + u) == u - u * u * u
  {}

  lemma TelescopeTimes(u: int, a: int, b: int)
    ensures (1 - u) * (a * (u * u + u) + b * (1 + u + u * u)) == a * (u - u * u * u) + b * (1 - u * u * u)
  {
    Telescope(u);
    Regroup(1 - u, a, u * u + u, b, 1 + u + u * u);
  }

  lemma Regroup(f: int, a: int, s: int, b: int, t: int)
    ensures f * (a * s + b * t) == a * (f * s) + b * (f * t)
  {
    assert f * (a * s) == a * (f * s) && f * (b * t) == b * (f * t);
  }

  /** g(u x) - u^3 g(x), factored. */
  lemma Factored(u: int, x: int, b: int)
    ensures Curve(u * x, b) - u * u * u * Curve(x, b) == (1 - u) * (-3 * x * (u * u + u) + b * (1 + u + u * u))
  {
    var c := u * u * u;
    CubeOfProduct(u, x);
    CurveTimes(c, x, b);
    TelescopeTimes(u, -3 * x, b);
    FactoredSum(u, c, x, b, x * x * x);
  }

  lemma FactoredSum(u: int, c: int, x: int, b: int, x3: int)
    ensures (c * x3 - 3 * (u * x) + b) - (c * x3 - 3 * (c * x) + c * b) == -3 * x * (u - c) + b * (1 - c)
  {
    assert -3 * x * (u - c) == -3 * (u * x) + 3 * (c * x);
  }

  /** The map's key identity: with x = -B/A (1 + 1/(u^2 + u)), g(u x) = u^3 g(x). */
  lemma KeyIdentity(p: int, b: int, u: int, w: int, x: int)
    requires p > 0 && Cong(-3 * x, -b * (1 + w), p) && Cong((u * u + u) * w, 1, p)
    ensures Cong(Curve(u * x, b), u * u * u * Curve(x, b), p)
  {
    var v := u * u + u;
    BracketZero(p, b, v, w, x);
    Factored(u, x, b);
    hide Curve;
    var bracket := -3 * x * v + b * (1 + v);
    ZeroTimes(bracket, 1 - u, p);
    assert bracket * (1 - u) == (1 - u) * (-3 * x * (u * u + u) + b * (1 + u + u * u));
  }

  lemma BracketZero(p: int, b: int, v: int, w: int, x: int)
    requires p > 0 && Cong(-3 * x, -b * (1 + w), p) && Cong(v * w, 1, p)
    ensures (-3 * x * v + b * (1 + v)) % p == 0
  {
    CongRefl(v, p);
    CongMul(-3 * x, -b * (1 + w), v, v, p);
    CongRefl(-b, p);
    CongMul(v * w, 1, -b, -b, p);
    var l := AsMultiple(-3 * x * v - -b * (1 + w) * v, p);
    var k := AsMultiple(v * w * -b - 1 * -b, p);
    BracketArithmetic(b, v, w, x, p, l, k);
    MultipleMod(p, l + k);
  }

  lemma BracketArithmetic(b: int, v: int, w: int, x: int, p: int, l: int, k: int)
    requires -3 * x * v - -b * (1 + w) * v == p * l && v * w * -b - 1 * -b == p * k
    ensures -3 * x * v + b * (1 + v) == p * (l + k)
  {
    assert -b * (1 + w) * v == -b * v - b * (v * w) by { assert -b * (1 + w) * v == -b * v + (-b * w) * v; }
    assert v * w * -b == -(b * (v * w));
    assert b * (1 + v) == b + b * v;
    assert p * (l + k) == p * l + p * k;
  }

  /** -3 times the x coordinate the code computes. */
  lemma XTimesA(p: int, b: int, inv: int, d: int, w: int, x: int)
    requires p > 0 && Cong(-3 * inv, 1, p) && Cong(d, -(inv * b), p) && Cong(x, (1 + w) * d, p)
    ensures Cong(-3 * x, -b * (1 + w), p)
  {
    CongRefl(1 + w, p);
    CongMul(1 + w, 1 + w, d, -(inv * b), p);
    CongTrans(x, (1 + w) * d, (1 + w) * -(inv * b), p);
    CongRefl(-3, p);
    CongMul(-3, -3, x, (1 + w) * -(inv * b), p);
    CongRefl(-b * (1 + w), p);
    CongMul(-3 * inv, 1, -b * (1 + w), -b * (1 + w), p);
    assert -3 * ((1 + w) * -(inv * b)) == (-3 * inv) * (-b * (1 + w)) by {
      assert (1 + w) * -(inv * b) == inv * (-b * (1 + w)) by { assert (1 + w) * -(inv * b) == -(inv * b) * (1 + w) == inv * -b * (1 + w); }
    }
    CongTrans(-3 * x, (-3 * inv) * (-b * (1 + w)), 1 * (-b * (1 + w)), p);
  }

  /** The stepwise evaluation of g is the curve polynomial. */
  lemma EvaluatesCurve(p: int, b: int, x: int)
    requires p > 0
    ensures Cong(((((x * x) % p - 3) * x) % p + b) % p, Curve(x, b), p)
  {
    var s := (x * x) % p;
    var m := ((s - 3) * x) % p;
    ModCong(x * x, p);
    CongRefl(-3, p);
    CongAdd(s, x * x, -3, -3, p);
    CongRefl(x, p);
    CongMul(s - 3, x * x - 3, x, x, p);
    ModCong((s - 3) * x, p);
    CongTrans(m, (s - 3) * x, (x * x - 3) * x, p);
    CongRefl(b, p);
    CongAdd(m, (x * x - 3) * x, b, b, p);
    ModCong(m + b, p);
    assert (x * x - 3) * x + b == Curve(x, b);
    CongTrans((m + b) % p, m + b, Curve(x, b), p);
  }

  /** The second branch: (-t^2 x, t^3 y) lies on the curve when y^2 = -g(x). */
  lemma SecondBranch(p: int, b: int, t: int, u: int, x: int, y: int, g: int, x': int, y': int)
    requires p > 0 && Cong(u, -(t * t), p) && Cong(y * y, -g, p) && Cong(g, Curve(x, b), p)
    requires Cong(Curve(u * x, b), u * u * u * Curve(x, b), p)
    requires Cong(x', u * x, p) && Cong(y', -(u * y) * t, p)
    ensures Cong(y' * y', Curve(x', b), p)
  {
    var z := -(u * y) * t;
    CongMul(y', z, y', z, p);
    // z^2 = u^2 t^2 y^2, and t^2 = -u, y^2 = -g
    CongSym(u, -(t * t), p);
    CongRefl(-1, p);
    CongMul(-1, -1, -(t * t), u, p);
    CongMul(t * t, -u, y * y, -g, p);
    CongRefl(u * u, p);
    CongMul(u * u, u * u, (t * t) * (y * y), -u * -g, p);
    assert z * z == (u * u) * ((t * t) * (y * y)) by { assert z == -(u * (t * y)); }
    assert (u * u) * (-u * -g) == u * u * u * g;
    CongRefl(u * u * u, p);
    CongMul(u * u * u, u * u * u, g, Curve(x, b), p);
    CongTrans(y' * y', z * z, u * u * u * g, p);
    CongTrans(y' * y', u * u * u * g, u * u * u * Curve(x, b), p);
    CongSym(Curve(u * x, b), u * u * u * Curve(x, b), p);
    CongTrans(y' * y', u * u * u * Curve(x, b), Curve(u * x, b), p);
    CurveCong(x', u * x, b, p);
    CongSym(Curve(x', b), Curve(u * x, b), p);
    CongTrans(y' * y', Curve(u * x, b), Curve(x', b), p);
  }

  lemma CurveCong(x: int, y: int, b: int, p: int)
    requires p > 0 && Cong(x, y, p)
    ensures Cong(Curve(x, b), Curve(y, b), p)
  {
    CongMul(x, y, x, y, p);
    CongMul(x * x, y * y, x, y, p);
    CongRefl(-3, p);
    CongMul(-3, -3, x, y, p);
    CongRefl(b, p);
    CongAdd(x * x * x, y * y * y, -3 * x, -3 * y, p);
    CongAdd(x * x * x + -3 * x, y * y * y + -3 * y, b, b, p);
  }

  /** u^2 + u vanishes exactly for t = 0, 1, -1. */
  lemma FailsExactly(p: int, t: int, u: int)
    requires Prime(p) && Cong(u, -(t * t), p)
    ensures (u * u + u) % p == 0 <==> Cong(t, 0, p) || Cong(t, 1, p) || Cong(t, -1, p)
  {
    var v := t * (t * ((t - 1) * (t + 1)));
    hide Prime;
    Denominator(p, t, u);
    if v % p == 0 {
      FactorVanishes(p, t);
    } else if Cong(t, 0, p) {
      FactorZero(p, t, t * ((t - 1) * (t + 1)));
    } else if Cong(t, 1, p) {
      FactorZero(p, t - 1, (t + 1) * (t * t));
      Reorder(t, t - 1, t + 1);
    } else if Cong(t, -1, p) {
      FactorZero(p, t + 1, (t - 1) * (t * t));
      Reorder(t, t + 1, t - 1);
    }
  }

  lemma Reorder(t: int, a: int, b: int)
    ensures a * (b * (t * t)) == t * (t * (a * b)) == t * (t * (b * a))
  {
    assert a * (b * (t * t)) == (a * b) * (t * t);
    assert (a * b) * (t * t) == t * (t * (a * b));
  }

  lemma FactorZero(p: int, a: int, rest: int)
    requires p > 0 && a % p == 0
    ensures (a * rest) % p == 0
  {
    ZeroTimes(a, rest, p);
  }

  /** If the product vanishes, one of its factors does. */
  lemma FactorVanishes(p: int, t: int)
    requires Prime(p) && (t * (t * ((t - 1) * (t + 1)))) % p == 0
    ensures Cong(t, 0, p) || Cong(t, 1, p) || Cong(t, -1, p)
  {
    Euclid(p, t, t * ((t - 1) * (t + 1)));
    hide Prime;
    if t % p != 0 {
      Euclid(p, t, (t - 1) * (t + 1));
      Euclid(p, t - 1, t + 1);
    }
  }

  lemma Denominator(p: int, t: int, u: int)
    requires Prime(p) && Cong(u, -(t * t), p)
    ensures p > 0 && ((u * u + u) % p == 0 <==> (t * (t * ((t - 1) * (t + 1)))) % p == 0)
  {
    var w := t * t;
    CongMul(u, -w, u, -w, p);
    CongAdd(u * u, -w * -w, u, -w, p);
    CongModEq(u * u + u, -w * -w + -w, p);
    hide Cong, Prime;
    DenominatorFactors(t);
  }

  lemma DenominatorFactors(t: int)
    ensures -(t * t) * -(t * t) + -(t * t) == t * (t * ((t - 1) * (t + 1)))
  {
    var w := t * t;
    NegatedSquare(w);
    assert (t - 1) * (t + 1) == w - 1;
    Nest(t, w - 1);
  }

  lemma NegatedSquare(w: int)
    ensures -w * -w + -w == w * (w - 1)
  {}

  lemma Nest(t: int, a: int)
    ensures t * t * a == t * (t * a)
  {}

  lemma MinusThree(p: int)
    requires p > 3
    ensures (-3) % p != 0
  {
    DivisionIsUnique(-3, p, -1, p - 3);
  }

  /** The first candidate of the map: -3 x (u^2 + u) = -B (u^2 + u + 1) with u = -t^2. */
  ghost predicate FirstX(x: int, b: int, t: int, p: int)
    requires p > 0
  {
    var u := -(t * t);
    0 <= x < p && Cong(-3 * x * (u * u + u), -b * (u * u + u + 1), p)
  }

  /** The point the map is for, with its first candidate x1: over x1, with the root that is itself a
      square, if g(x1) is a square; otherwise (-t^2 x1, t^3 z), where z is the root of -g(x1) that is a
      square iff (p + 1) / 4 is even. */
  ghost predicate IsImage(p: nat, b: int, t: int, x: int, y: int, x1: int, z: int)
    requires p > 0
  {
    && OnCurve(x, y, b, p) && FirstX(x1, b, t, p)
    && if IsSquare(Curve(x1, b), p) then x == x1 && IsSquare(y, p)
       else
         && Cong(x, -(t * t) * x1, p) && Cong(y, t * t * t * z, p)
         && Cong(z * z, -Curve(x1, b), p) && (IsSquare(z, p) <==> (p + 1) / 4 % 2 == 0)
  }

  /** The code, step by step; None stands for its panic. For every prime p = 3 mod 4 above 3 and every
      t it fails exactly for t = 0, 1, -1 modulo p, and otherwise returns the image, which is unique
      (ImageIsUnique). */
  method SimplifiedSWU(p: nat, B: int, t: int) returns (r: Option<(int, int)>, ghost x1: int, ghost z: int)
    requires Prime(p) && p % 4 == 3 && p > 3
    ensures r.None? <==> Cong(t, 0, p) || Cong(t, 1, p) || Cong(t, -1, p)
    ensures r.Some? ==> IsImage(p, B, t, r.value.0, r.value.1, x1, z)
  {
    hide Curve, Pow, IsSquare, FirstX;
    var A := -3;
    x1, z := 0, 0;
    MinusThree(p);
    var bDivA := Inverse(A, p);
    ghost var inv := bDivA;
    bDivA := bDivA * B;
    bDivA := -bDivA;
    bDivA := bDivA % p;
    ModCong(-(inv * B), p);
    var e := (1 + p) / 4;
    var u := t * t;
    u := -u;
    u := u % p;
    ModCong(-(t * t), p);
    FailsExactly(p, t, u);
    var t0 := u * u;
    t0 := t0 + u;
    t0 := t0 % p;
    if t0 == 0 { return None, 0, 0; }
    ghost var d := t0;
    ModCong(u * u + u, p);
    DivisionIsUnique(t0, p, 0, t0);
    t0 := Inverse(t0, p);
    var x := 1 + t0;
    x := x * bDivA;
    x := x % p;
    ModCong((1 + t0) * bDivA, p);
    XTimesA(p, B, inv, bDivA, t0, x);
    InverseOfReduced(p, u, d, t0);
    KeyIdentity(p, B, u, t0, x);
    x1 := x;
    IsFirstX(p, B, t, u, t0, x);
    var g := x * x;
    g := g % p;
    g := g + A;
    g := g * x;
    g := g % p;
    g := g + B;
    g := g % p;
    EvaluatesCurve(p, B, x);
    var y := Pow(g, e) % p;
    var y2 := y * y % p;
    SquareOfRoot(p, g, y);
    SquareDecides(p, g, y, Curve(x, B));
    RootIsSquare(p, g, e, y, Curve(x, B));
    if y2 != g {
      z := y;
      NegatedCong(z * z, g, Curve(x, B), p);
      x, y := Flip(p, B, t, u, x, y, g);
      TimesU(p, t, u, x1, x);
    } else {
      ModCong(y * y, p);
      CongSym(y2, y * y, p);
      CongTrans(y * y, g, Curve(x, B), p);
      ModCong(Pow(g, e), p);
    }
    r := Some((x, y));
  }

  lemma IsFirstX(p: int, b: int, t: int, u: int, w: int, x: int)
    requires p > 0 && 0 <= x < p && Cong(u, -(t * t), p)
    requires Cong(-3 * x, -b * (1 + w), p) && Cong((u * u + u) * w, 1, p)
    ensures FirstX(x, b, t, p)
  {
    var s := -(t * t);
    var v, v' := u * u + u, s * s + s;
    CongMul(u, s, u, s, p);
    CongAdd(u * u, s * s, u, s, p);
    BracketZero(p, b, v, w, x);
    CongSym(v, v', p);
    CongRefl(-3 * x + b, p);
    CongMul(-3 * x + b, -3 * x + b, v', v, p);
    CongRefl(b, p);
    CongAdd((-3 * x + b) * v', (-3 * x + b) * v, b, b, p);
    assert (-3 * x + b) * v + b == -3 * x * v + b * (1 + v);
    assert (-3 * x + b) * v' + b == -3 * x * v' - (-b * (v' + 1));
    CongTrans((-3 * x + b) * v' + b, (-3 * x + b) * v + b, 0, p);
  }

  /** The test y^2 = g succeeds exactly when g is a square. */
  lemma SquareDecides(p: nat, g: int, y: int, c: int)
    requires Prime(p) && p % 4 == 3 && 0 <= g < p && y == Pow(g, (1 + p) / 4) % p && Cong(g, c, p)
    ensures (y * y) % p == g <==> IsSquare(c, p)
  {
    DivisionIsUnique(g, p, 0, g);
    CongModEq(y * y, g, p);
    if (y * y) % p == g {
      CongTrans(y * y, g, c, p);
      assert RootOf(y, c, p);
    }
    if z :| RootOf(z, c, p) {
      CongSym(g, c, p);
      CongTrans(z * z, c, g, p);
      RootFound(p, g, z);
      var root := Pow(g, (p + 1) / 4);
      ModCong(root, p);
      CongMul(y, root, y, root, p);
      CongTrans(y * y, root * root, g, p);
    }
  }

  lemma TimesU(p: int, t: int, u: int, x1: int, x: int)
    requires p > 0 && Cong(u, -(t * t), p) && Cong(x, u * x1, p)
    ensures Cong(x, -(t * t) * x1, p)
  {
    CongRefl(x1, p);
    CongMul(u, -(t * t), x1, x1, p);
    CongTrans(x, u * x1, -(t * t) * x1, p);
  }

  method Inverse(a: int, p: int) returns (r: int)
    requires Prime(p) && a % p != 0
    ensures 0 <= r < p && Cong(a * r, 1, p)
  {
    ModInverseWorks(a, p);
    r := ModInverse(a, p);
  }

  lemma InverseOfReduced(p: int, u: int, d: int, w: int)
    requires p > 0 && Cong(d, u * u + u, p) && Cong(d * w, 1, p)
    ensures Cong((u * u + u) * w, 1, p)
  {
    CongSym(d, u * u + u, p);
    CongRefl(w, p);
    CongMul(u * u + u, d, w, w, p);
    CongTrans((u * u + u) * w, d * w, 1, p);
  }

  lemma SquareOfRoot(p: nat, g: int, y: int)
    requires Prime(p) && p % 4 == 3 && 0 <= g < p && y == Pow(g, (1 + p) / 4) % p
    ensures (y * y) % p != g ==> Cong(y * y, -g, p)
  {
    var root := Pow(g, (p + 1) / 4);
    ModCong(root, p);
    CongMul(y, root, y, root, p);
    RootOrNegated(p, g);
    if Cong(root * root, g, p) {
      CongTrans(y * y, root * root, g, p);
      CongModEq(y * y, g, p);
      DivisionIsUnique(g, p, 0, g);
    } else {
      CongTrans(y * y, root * root, -g, p);
    }
  }

  /** The assignments of the second branch. */
  method Flip(p: nat, B: int, t: int, u: int, x0: int, y0: int, g: int) returns (x: int, y: int)
    requires p > 0 && Cong(u, -(t * t), p) && Cong(y0 * y0, -g, p) && Cong(g, Curve(x0, B), p)
    requires Cong(Curve(u * x0, B), u * u * u * Curve(x0, B), p)
    ensures OnCurve(x, y, B, p) && Cong(x, u * x0, p) && Cong(y, t * t * t * y0, p)
  {
    hide Curve;
    x := x0 * u;
    x := x % p;
    ModCong(x0 * u, p);
    y := y0 * u;
    y := y % p;
    ghost var m := y;
    ModCong(y0 * u, p);
    y := -y;
    y := y * t;
    y := y % p;
    ModCong(-m * t, p);
    CongRefl(-1, p);
    CongMul(-1, -1, m, y0 * u, p);
    CongRefl(t, p);
    CongMul(-m, -(u * y0), t, t, p);
    CongTrans(y, -m * t, -(u * y0) * t, p);
    SecondBranch(p, B, t, u, x0, y0, g, x, y);
    TimesCube(p, t, u, y0, y);
  }

  lemma TimesCube(p: int, t: int, u: int, y0: int, y: int)
    requires p > 0 && Cong(u, -(t * t), p) && Cong(y, -(u * y0) * t, p)
    ensures Cong(y, t * t * t * y0, p)
  {
    CongRefl(-(y0 * t), p);
    CongMul(u, -(t * t), -(y0 * t), -(y0 * t), p);
    CubeTimes(t, u, y0);
    CongTrans(y, -(u * y0) * t, t * t * t * y0, p);
  }

  lemma CubeTimes(t: int, u: int, y: int)
    ensures u * -(y * t) == -(u * y) * t && -(t * t) * -(y * t) == t * t * t * y
  {
    assert u * (y * t) == (u * y) * t;
    assert (t * t) * (y * t) == t * t * t * y by { assert (t * t) * (y * t) == (t * t) * (t * y); }
  }

  lemma NegatedCong(a: int, g: int, c: int, p: int)
    requires p > 0 && Cong(a, -g, p) && Cong(g, c, p)
    ensures Cong(a, -c, p)
  {
    CongRefl(-1, p);
    CongMul(-1, -1, g, c, p);
    CongTrans(a, -g, -c, p);
  }

  /** The candidate root is a square if g is; if g is not, it is one iff the exponent is even. */
  lemma RootIsSquare(p: nat, g: int, e: nat, y: int, c: int)
    requires Prime(p) && y == Pow(g, e) % p && Cong(g, c, p)
    ensures p > 0
    ensures IsSquare(c, p) ==> IsSquare(y, p)
    ensures !IsSquare(c, p) ==> (IsSquare(y, p) <==> e % 2 == 0)
  {
    PrimePositive(p);
    ModCong(Pow(g, e), p);
    CongSym(y, Pow(g, e), p);
    CongSym(g, c, p);
    hide Prime, Pow, Cong, IsSquare;
    if IsSquare(c, p) {
      SquareCong(c, g, p);
      PowerOfSquare(g, e, p);
      SquareCong(Pow(g, e), y, p);
    } else if e % 2 == 0 {
      EvenPower(g, e, p);
      SquareCong(Pow(g, e), y, p);
    } else if IsSquare(y, p) {
      SquareCong(y, Pow(g, e), p);
      OddPower(g, e, p);
      SquareCong(g, c, p);
    }
  }

  // ----- the contract determines the point

  lemma CancelFactor(f: int, a: int, b: int, p: int)
    requires Prime(p) && f % p != 0 && Cong(f * a, f * b, p)
    ensures Cong(a, b, p)
  {
    assert f * a - f * b == f * (a - b);
    Euclid(p, f, a - b);
  }

  lemma Commute(a: int, b: int)
    ensures a * b == b * a
  {}

  lemma FirstXIsUnique(p: nat, b: int, t: int, x: int, x': int)
    requires Prime(p) && p > 3 && !Cong(t, 0, p) && !Cong(t, 1, p) && !Cong(t, -1, p)
    requires FirstX(x, b, t, p) && FirstX(x', b, t, p)
    ensures x == x'
  {
    var u := -(t * t);
    var v, c := u * u + u, -b * (u * u + u + 1);
    CongRefl(u, p);
    hide Prime, Cong;
    FailsExactly(p, t, u);
    MinusThree(p);
    Both(-3 * x * v, -3 * x' * v, c, p);
    Commute(-3 * x, v);
    Commute(-3 * x', v);
    CancelFactor(v, -3 * x, -3 * x', p);
    CancelFactor(-3, x, x', p);
    CongReduced(x, x', p);
  }

  /** Whatever the code may compute on the way, only one point meets the contract. */
  lemma ImageIsUnique(p: nat, b: int, t: int, x: int, y: int, x1: int, z: int, x': int, y': int, x1': int, z': int)
    requires Prime(p) && p % 4 == 3 && p > 3 && !Cong(t, 0, p) && !Cong(t, 1, p) && !Cong(t, -1, p)
    requires IsImage(p, b, t, x, y, x1, z) && IsImage(p, b, t, x', y', x1', z')
    ensures x == x' && y == y'
  {
    FirstXIsUnique(p, b, t, x1, x1');
    hide Prime, FirstX, IsSquare, Curve, Cong;
    if IsSquare(Curve(x1, b), p) {
      Both(y * y, y' * y', Curve(x, b), p);
      RootIsUnique(y, y', p);
      CongReduced(y, y', p);
    } else {
      Both(x, x', -(t * t) * x1, p);
      CongReduced(x, x', p);
      Both(z * z, z' * z', -Curve(x1, b), p);
      RootIsUnique(z, z', p);
      CongRefl(t * t * t, p);
      CongMul(t * t * t, t * t * t, z', z, p) by { CongSym(z, z', p); }
      CongTrans(y', t * t * t * z', t * t * t * z, p);
      Both(y, y', t * t * t * z, p);
      CongReduced(y, y', p);
    }
  }

  lemma Both(a: int, b: int, c: int, p: int)
    requires p > 0 && Cong(a, c, p) && Cong(b, c, p)
    ensures Cong(a, b, p)
  {
    CongSym(b, c, p);
    CongTrans(a, c, b, p);
  }
}
