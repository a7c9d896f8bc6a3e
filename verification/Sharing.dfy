/** Additive secret sharing over the scalars of a group, and what shared secrets do to points
    (crypto/dhkx.go, crypto/ec/scalar.go, crypto/pairing/pairing.go). */
module Sharing {
  import opened Modular
  import opened Shuffling

  /** A group written additively, with multiplication by integers. */
  datatype Group<!P> = Group(order: int, zero: P, add: (P, P) -> P, mul: (int, P) -> P)

  /** A product that a law is about has a name, so that the law is used at chosen products only. */
  function Times(a: int, b: int): int {
    a * b
  }

  /** The laws of multiplication at one point. */
  ghost predicate LawsAt<P>(g: Group<P>, p: P) {
    && g.order > 1
    && (forall a: int, b: int {:trigger g.add(g.mul(a, p), g.mul(b, p))} :: g.add(g.mul(a, p), g.mul(b, p)) == g.mul(a + b, p))
    && (forall a: int, b: int {:trigger g.mul(Times(a, b), p)} :: g.mul(a, g.mul(b, p)) == g.mul(Times(a, b), p))
    && g.mul(0, p) == g.zero
    && (forall a: int, b: int :: Cong(a, b, g.order) ==> g.mul(a, p) == g.mul(b, p))
  }

  ghost predicate GroupLaws<P(!new)>(g: Group<P>) {
    g.order > 1 && forall p: P :: LawsAt(g, p)
  }

  lemma LawsHere<P(!new)>(g: Group<P>, p: P)
    requires GroupLaws(g)
    ensures LawsAt(g, p)
  {}

  /** The laws, one instance at a time. */
  lemma AddMul<P>(g: Group<P>, a: int, b: int, p: P)
    requires LawsAt(g, p)
    ensures g.add(g.mul(a, p), g.mul(b, p)) == g.mul(a + b, p)
  {}

  lemma MulMul<P>(g: Group<P>, a: int, b: int, p: P)
    requires LawsAt(g, p)
    ensures g.mul(a, g.mul(b, p)) == g.mul(a * b, p)
  {
    assert g.mul(Times(a, b), p) == g.mul(a * b, p);
  }

  lemma MulZero<P>(g: Group<P>, p: P)
    requires LawsAt(g, p)
    ensures g.mul(0, p) == g.zero
  {}

  lemma MulCong<P>(g: Group<P>, a: int, b: int, p: P)
    requires LawsAt(g, p) && Cong(a, b, g.order)
    ensures g.mul(a, p) == g.mul(b, p)
  {}

  // ----- sums

  function Sum(s: seq<int>): int {
    if s == [] then 0 else Sum(s[..|s| - 1]) + s[|s| - 1]
  }

  lemma {:induction false} SumConcat(a: seq<int>, b: seq<int>)
    ensures Sum(a + b) == Sum(a) + Sum(b)
    decreases |b|
  {
    if b == [] {
      assert a + b == a;
    } else {
      assert (a + b)[..|a + b| - 1] == a + b[..|b| - 1];
      SumConcat(a, b[..|b| - 1]);
    }
  }

  lemma SumOne(x: int)
    ensures Sum([x]) == x
  {
    assert [x][..0] == [];
  }

  lemma SumThree(a: seq<int>, x: int, b: seq<int>)
    ensures Sum(a + [x] + b) == Sum(a + b) + x
  {
    hide Sum;
    SumConcat(a + [x], b);
    SumConcat(a, [x]);
    SumConcat(a, b);
    SumOne(x);
  }

  /** Taking the element at i out. */
  lemma SumWithout(b: seq<int>, i: nat)
    requires i < |b|
    ensures Sum(b) == Sum(b[..i] + b[i + 1..]) + b[i]
  {
    hide Sum;
    SumThree(b[..i], b[i], b[i + 1..]);
    assert b == b[..i] + [b[i]] + b[i + 1..];
  }

  lemma MultisetWithout(b: seq<int>, i: nat)
    requires i < |b|
    ensures multiset(b[..i] + b[i + 1..]) == multiset(b) - multiset{b[i]}
  {
    assert b == b[..i] + [b[i]] + b[i + 1..];
  }

  /** Sums do not depend on the order. */
  lemma {:induction false} SumOfMultiset(a: seq<int>, b: seq<int>)
    requires multiset(a) == multiset(b)
    ensures Sum(a) == Sum(b)
    decreases |a|
  {
    if a == [] {
      assert |b| == |multiset(b)| == 0;
    } else {
      hide Sum;
      var n := |a| - 1;
      var x := a[n];
      assert x in multiset(b);
      var i :| 0 <= i < |b| && b[i] == x;
      MultisetWithout(a, n);
      MultisetWithout(b, i);
      SumOfMultiset(a[..n] + a[n + 1..], b[..i] + b[i + 1..]);
      SumWithout(a, n);
      SumWithout(b, i);
    }
  }

  lemma SubmultisetOfSameSize(a: multiset<nat>, b: multiset<nat>)
    requires a <= b && |a| == |b|
    ensures a == b
  {
    assert b == a + (b - a);
    assert |b - a| == 0;
    assert b - a == multiset{};
  }

  /** Distinct numbers below n: there are at most n of them. */
  lemma NotMore(ms: seq<nat>, n: nat)
    requires multiset(ms) <= multiset(Range(n))
    ensures |ms| <= n
  {
    var a, b := multiset(ms), multiset(Range(n));
    assert b == a + (b - a);
    assert |a| == |ms| && |b| == n;
  }

  // ----- splitting a secret

  /** crypto.AdditiveShares: the first share is minus the secret plus the random ones, negated. */
  method AdditiveShares(q: int, secret: int, random: seq<int>) returns (shares: seq<int>)
    requires q > 1
    ensures |shares| == |random| + 1
    ensures forall i :: 0 <= i < |random| ==> shares[i + 1] == random[i] % q
    ensures Cong(Sum(shares), secret, q)
  {
    var first := (-secret) % q;
    ModCong(-secret, q);
    var rest: seq<int> := [];
    for i := 0 to |random|
      invariant |rest| == i && forall k :: 0 <= k < i ==> rest[k] == random[k] % q
      invariant Cong(first, Sum(rest) - secret, q)
    {
      var r := random[i] % q;
      ghost var was := first;
      first := (first + r) % q;
      ModCong(was + r, q);
      CongRefl(r, q);
      CongAdd(was, Sum(rest) - secret, r, r, q);
      CongTrans(first, was + r, Sum(rest) - secret + r, q);
      assert (rest + [r])[..|rest|] == rest;
      rest := rest + [r];
    }
    var share0 := (-first) % q;
    shares := [share0] + rest;
    SharesAddUp(q, secret, first, rest);
  }

  lemma NegatedCong(q: int, x: int, y: int)
    requires q > 1 && Cong(x, y, q)
    ensures Cong((-x) % q, -y, q)
  {
    ModCong(-x, q);
    CongRefl(-1, q);
    CongMul(-1, -1, x, y, q);
    hide Cong;
    assert -1 * x == -x && -1 * y == -y;
    CongTrans((-x) % q, -x, -y, q);
  }

  lemma SharesAddUp(q: int, secret: int, first: int, rest: seq<int>)
    requires q > 1 && Cong(first, Sum(rest) - secret, q)
    ensures Cong(Sum([(-first) % q] + rest), secret, q)
  {
    hide Cong, Sum;
    var share0, total := (-first) % q, Sum(rest);
    NegatedCong(q, first, total - secret);
    CongRefl(total, q);
    CongAdd(share0, -(total - secret), total, total, q);
    SumConcat([share0], rest);
    SumOne(share0);
  }

  /** pairing.AdditiveShares: the random shares are subtracted from the secret one by one. */
  method SubtractiveShares(q: int, secret: int, random: seq<int>) returns (shares: seq<int>)
    requires q > 1
    ensures |shares| == |random| + 1
    ensures forall i :: 0 <= i < |random| ==> shares[i + 1] == random[i] % q
    ensures Cong(Sum(shares), secret, q)
  {
    var first := secret;
    CongRefl(secret, q);
    var rest: seq<int> := [];
    for i := 0 to |random|
      invariant |rest| == i && forall k :: 0 <= k < i ==> rest[k] == random[k] % q
      invariant Cong(first, secret - Sum(rest), q)
    {
      var r := random[i] % q;
      ghost var was := first;
      first := (first - r) % q;
      ModCong(was - r, q);
      CongRefl(-r, q);
      CongAdd(was, secret - Sum(rest), -r, -r, q);
      CongTrans(first, was - r, secret - Sum(rest) - r, q);
      assert (rest + [r])[..|rest|] == rest;
      rest := rest + [r];
    }
    shares := [first] + rest;
    SumConcat([first], rest);
    assert Sum([first]) == first;
    CongRefl(Sum(rest), q);
    CongAdd(first, secret - Sum(rest), Sum(rest), Sum(rest), q);
  }

  // ----- accumulating multiples of a point in any order

  /** Accumulate: starting from the neutral element. */
  function Accumulated<P>(g: Group<P>, points: seq<P>): P {
    if points == [] then g.zero else g.add(Accumulated(g, points[..|points| - 1]), points[|points| - 1])
  }

  function Multiples<P>(g: Group<P>, ks: seq<int>, p: P): (r: seq<P>)
    ensures |r| == |ks| && forall i :: 0 <= i < |ks| ==> r[i] == g.mul(ks[i], p)
  {
    seq(|ks|, i requires 0 <= i < |ks| => g.mul(ks[i], p))
  }

  lemma {:induction false} AccumulatedMultiples<P>(g: Group<P>, ks: seq<int>, p: P)
    requires LawsAt(g, p)
    ensures Accumulated(g, Multiples(g, ks, p)) == g.mul(Sum(ks), p)
    decreases |ks|
  {
    if ks == [] {
      MulZero(g, p);
    } else {
      var k, n := ks[|ks| - 1], |ks| - 1;
      AccumulatedMultiples(g, ks[..n], p);
      assert Multiples(g, ks, p)[..n] == Multiples(g, ks[..n], p);
      AddMul(g, Sum(ks[..n]), k, p);
    }
  }

  /** Shares of a secret applied to a point and accumulated in any order of arrival give the secret
      applied to the point. */
  lemma AnyOrder<P>(g: Group<P>, shares: seq<int>, secret: int, arrival: seq<nat>, p: P)
    requires LawsAt(g, p) && Cong(Sum(shares), secret, g.order) && IsPerm(arrival, |shares|)
    ensures forall i :: 0 <= i < |arrival| ==> arrival[i] < |shares|
    ensures Accumulated(g, Multiples(g, Permuted(arrival, shares), p)) == g.mul(secret, p)
  {
    PermElements(arrival, |shares|);
    PermutedMultiset(arrival, shares);
    SumOfMultiset(Permuted(arrival, shares), shares);
    AccumulatedMultiples(g, Permuted(arrival, shares), p);
    MulCong(g, Sum(shares), secret, p);
  }

  /** The laws hold of the integers modulo q, so none of this is empty. */
  function Zq(q: int): Group<int>
    requires q > 1
  {
    Group(q, 0, (a: int, b: int) => Mod(a + b, q), (k: int, a: int) => Mod(Times(k, a), q))
  }

  function Mod(a: int, q: int): (r: int)
    requires q > 1
    ensures 0 <= r < q
  {
    a % q
  }

  lemma ZqAdd(q: int, a: int, b: int, p: int)
    requires q > 1
    ensures Mod(Mod(Times(a, p), q) + Mod(Times(b, p), q), q) == Mod(Times(a + b, p), q)
  {
    ModCong(a * p, q);
    ModCong(b * p, q);
    CongAdd((a * p) % q, a * p, (b * p) % q, b * p, q);
    assert (a + b) * p == a * p + b * p;
    CongModEq((a * p) % q + (b * p) % q, (a + b) * p, q);
  }

  lemma ZqMul(q: int, a: int, b: int, p: int)
    requires q > 1
    ensures Mod(Times(a, Mod(Times(b, p), q)), q) == Mod(Times(Times(a, b), p), q)
  {
    ModCong(b * p, q);
    CongRefl(a, q);
    CongMul(a, a, (b * p) % q, b * p, q);
    assert a * (b * p) == a * b * p;
    CongModEq(a * ((b * p) % q), a * b * p, q);
  }

  lemma ZqReduce(q: int, a: int, b: int, p: int)
    requires q > 1 && Cong(a, b, q)
    ensures Mod(Times(a, p), q) == Mod(Times(b, p), q)
  {
    CongRefl(p, q);
    CongMul(a, b, p, p, q);
    CongModEq(a * p, b * p, q);
  }

  lemma ZqIsGroup(q: int)
    requires q > 1
    ensures GroupLaws(Zq(q))
  {
    forall p: int ensures LawsAt(Zq(q), p) { ZqLawsAt(q, p); }
  }

  lemma ZqLawsAt(q: int, p: int)
    requires q > 1
    ensures LawsAt(Zq(q), p)
  {
    hide Cong, Mod, Times;
    var g := Zq(q);
    forall a: int, b: int {:trigger g.add(g.mul(a, p), g.mul(b, p))}
      ensures g.add(g.mul(a, p), g.mul(b, p)) == g.mul(a + b, p)
    {
      ZqAdd(q, a, b, p);
    }
    forall a: int, b: int {:trigger g.mul(Times(a, b), p)}
      ensures g.mul(a, g.mul(b, p)) == g.mul(Times(a, b), p)
    {
      ZqMul(q, a, b, p);
    }
    forall a: int, b: int | Cong(a, b, q)
      ensures g.mul(a, p) == g.mul(b, p)
    {
      ZqReduce(q, a, b, p);
    }
    ZqZero(q, p);
  }

  lemma ZqZero(q: int, p: int)
    requires q > 1
    ensures Mod(Times(0, p), q) == 0
  {
    MultipleMod(q, 0);
  }
}
