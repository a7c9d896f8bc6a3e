/** The size of an anytrust group drawn without replacement (config/anytrustGroup.go): the least size
    at which the chance of drawing only adversaries falls below a target, over exact rationals. */
module GroupSize {
  import opened Modular

  /** p * (a / d), one more draw. */
  function Share(p: real, a: int, d: int): real
    requires d != 0
  {
    p * (a as real / d as real)
  }

  /** p = num / den. */
  ghost predicate IsRatio(p: real, num: int, den: int) {
    p * den as real == num as real
  }

  /** (adv / n) * ((adv - 1) / (n - 1)) * ..., g factors. */
  function AllAdversarial(adv: int, n: int, g: nat): real
    requires g <= n
  {
    if g == 0 then 1.0 else Share(AllAdversarial(adv, n, g - 1), adv - (g - 1), n - (g - 1))
  }

  /** The loop of GroupSizeWithoutReplacement, with the target probability and the number of
      adversaries given. The denominator is never zero. */
  method GroupSizeWithoutReplacement(nServers: nat, adversaries: nat, target: real) returns (g: nat)
    requires nServers > 0 && adversaries <= nServers && target > 0.0
    ensures 1 <= g <= nServers
    ensures g < nServers ==> AllAdversarial(adversaries, nServers, g) < target
    ensures forall k :: 1 <= k < g ==> AllAdversarial(adversaries, nServers, k) >= target
    ensures g <= adversaries + 1
  {
    Unfold(adversaries, nServers, 0);
    Unfold(adversaries, nServers, 1);
    var advCount, totalCount: int := adversaries, nServers;
    var probability := advCount as real / totalCount as real;
    assert probability == AllAdversarial(adversaries, nServers, 1);
    hide AllAdversarial, Share, Falling;
    var groupSize := 1;
    while groupSize < nServers
      invariant 1 <= groupSize <= nServers && groupSize <= adversaries + 1
      invariant advCount == adversaries - (groupSize - 1) && totalCount == nServers - (groupSize - 1)
      invariant probability == AllAdversarial(adversaries, nServers, groupSize)
      invariant forall k :: 1 <= k < groupSize ==> AllAdversarial(adversaries, nServers, k) >= target
    {
      if probability < target { return groupSize; }
      if groupSize == adversaries + 1 { NoneLeft(adversaries, nServers, groupSize); }
      Unfold(adversaries, nServers, groupSize + 1);
      advCount := advCount - 1;
      totalCount := totalCount - 1;
      probability := Share(probability, advCount, totalCount);
      groupSize := groupSize + 1;
    }
    return nServers;
  }

  lemma NoneLeft(adv: nat, n: nat, g: nat)
    requires adv < g <= n
    ensures AllAdversarial(adv, n, g) == 0.0
  {
    if g > adv + 1 { NoneLeft(adv, n, g - 1); }
  }

  /** n (n - 1) ... (n - g + 1) ordered draws. */
  function Falling(n: int, g: nat): int {
    if g == 0 then 1 else Falling(n, g - 1) * (n - (g - 1))
  }

  lemma {:induction false} FallingPositive(n: nat, g: nat)
    requires g <= n
    ensures Falling(n, g) > 0
  {
    if g > 0 {
      FallingPositive(n, g - 1);
      Positive(Falling(n, g - 1), n - (g - 1));
    }
  }

  lemma Positive(a: int, b: int)
    requires a > 0 && b > 0
    ensures a * b > 0
  {}

  lemma FactorPositive(a: nat, b: nat)
    requires a * b > 0
    ensures a > 0
  {}

  lemma Unfold(adv: int, n: int, g: nat)
    requires g <= n
    ensures g == 0 ==> AllAdversarial(adv, n, g) == 1.0 && Falling(n, g) == Falling(adv, g) == 1
    ensures g > 0 ==>
      && AllAdversarial(adv, n, g) == Share(AllAdversarial(adv, n, g - 1), adv - (g - 1), n - (g - 1))
      && Falling(n, g) == Falling(n, g - 1) * (n - (g - 1)) && Falling(adv, g) == Falling(adv, g - 1) * (adv - (g - 1))
  {}

  /** The product is the chance that g servers drawn in order are all adversarial: the ordered draws
      of adversaries over all ordered draws. */
  lemma {:induction false} ProductCountsDraws(adv: nat, n: nat, g: nat)
    requires g <= n
    ensures Falling(n, g) > 0
    ensures IsRatio(AllAdversarial(adv, n, g), Falling(adv, g), Falling(n, g))
  {
    FallingPositive(n, g);
    if g == 0 {
      Unfold(adv, n, g);
    } else {
      hide AllAdversarial, Falling, IsRatio, Share;
      Unfold(adv, n, g);
      ProductCountsDraws(adv, n, g - 1);
      var a, d := adv - (g - 1), n - (g - 1);
      StepReal(AllAdversarial(adv, n, g), AllAdversarial(adv, n, g - 1), Falling(n, g), Falling(n, g - 1),
               Falling(adv, g), Falling(adv, g - 1), a, d);
    }
  }

  lemma StepReal(pg: real, p: real, F: int, f: int, H: int, h: int, a: int, d: int)
    requires d != 0 && pg == Share(p, a, d) && F == f * d && H == h * a && IsRatio(p, h, f)
    ensures IsRatio(pg, H, F)
  {
    RealMul(f, d);
    RealMul(h, a);
    OneFactor(p, f as real, h as real, a as real, d as real);
  }

  lemma {:induction false} RealMulNat(a: int, b: nat)
    ensures (a * b) as real == a as real * b as real
  {
    if b > 0 {
      RealMulNat(a, b - 1);
      assert a * b == a * (b - 1) + a;
      assert a as real * b as real == a as real * (b - 1) as real + a as real;
    }
  }

  lemma RealMul(a: int, b: int)
    ensures (a * b) as real == a as real * b as real
  {
    if b >= 0 {
      RealMulNat(a, b);
    } else {
      RealMulNat(a, -b);
      assert a * b == -(a * -b);
    }
  }

  lemma OneFactor(p: real, f: real, h: real, a: real, d: real)
    requires p * f == h && d != 0.0
    ensures (p * (a / d)) * (f * d) == h * a
  {
    assert (a / d) * d == a;
    assert (p * (a / d)) * (f * d) == (p * f) * ((a / d) * d);
  }

  function Factorial(k: nat): (f: nat)
    ensures f > 0
  {
    if k == 0 then 1 else Positive(Factorial(k - 1), k); Factorial(k - 1) * k
  }

  /** n (n-1) ... = n times the falling product of n - 1. */
  lemma {:induction false} FallingFront(n: int, g: nat)
    requires g > 0
    ensures Falling(n, g) == n * Falling(n - 1, g - 1)
  {
    if g > 1 {
      var r, x := Falling(n - 1, g - 2), n - (g - 1);
      assert Falling(n, g) == Falling(n, g - 1) * x && Falling(n - 1, g - 1) == r * x;
      hide Falling;
      FallingFront(n, g - 1);
      Associate(n, r, x);
    }
  }

  lemma Associate(a: int, b: int, c: int)
    ensures (a * b) * c == a * (b * c)
  {}

  lemma {:induction false} FallingIsChoose(n: nat, k: nat)
    ensures Falling(n, k) == Choose(n, k) * Factorial(k)
    decreases n, k
  {
    if k == 0 {
      ChooseZero(n);
    } else if n == 0 {
      FallingFront(0, k);
    } else {
      FallingIsChoose(n - 1, k - 1);
      FallingIsChoose(n - 1, k);
      FallingFront(n, k);
      var f, c, d := Factorial(k - 1), Choose(n - 1, k - 1), Choose(n - 1, k);
      assert Falling(n - 1, k) == (c * f) * (n - k);
      ChooseArithmetic(n, k, f, c, d);
    }
  }

  lemma ChooseArithmetic(n: int, k: int, f: int, c: int, d: int)
    requires (c * f) * (n - k) == d * (f * k)
    ensures n * (c * f) == (c + d) * (f * k)
  {
    assert n * (c * f) == (c * f) * (n - k) + (c * f) * k;
    assert (c * f) * k == c * (f * k);
  }

  /** The same with combinations: product * C(n, g) = C(adv, g). */
  lemma ProductIsRatioOfChoices(adv: nat, n: nat, g: nat)
    requires g <= n
    ensures Choose(n, g) > 0
    ensures IsRatio(AllAdversarial(adv, n, g), Choose(adv, g), Choose(n, g))
  {
    hide AllAdversarial, Falling, Choose, Factorial, IsRatio;
    ProductCountsDraws(adv, n, g);
    FallingIsChoose(n, g);
    FallingIsChoose(adv, g);
    FactorPositive(Choose(n, g), Factorial(g));
    CancelFactorial(AllAdversarial(adv, n, g), Choose(n, g), Choose(adv, g), Factorial(g), Falling(n, g), Falling(adv, g));
  }

  lemma CancelFactorial(p: real, c: int, d: int, f: int, F: int, H: int)
    requires f > 0 && F == c * f && H == d * f && IsRatio(p, H, F)
    ensures IsRatio(p, d, c)
  {
    RealMul(c, f);
    RealMul(d, f);
    Cancel(p, c as real, d as real, f as real);
  }

  lemma Cancel(p: real, c: real, d: real, f: real)
    requires p * (c * f) == d * f && f > 0.0
    ensures p * c == d
  {
    assert (p * c - d) * f == 0.0;
  }
}
