/** Sizes of finite sets. */
module Sets {
  lemma {:induction false} Monotone<T>(a: set<T>, b: set<T>)
    requires a <= b
    ensures |a| <= |b|
  {
    if a != {} {
      var x :| x in a;
      Monotone(a - {x}, b - {x});
    }
  }

  /** Numbers below n: at most n of them, and n only if it is all of them. */
  lemma {:induction false} SubsetSize(a: set<nat>, n: nat)
    requires forall i :: i in a ==> i < n
    ensures |a| <= n
    ensures |a| == n ==> forall i: nat :: i < n ==> i in a
  {
    if n > 0 {
      var b := a - {n - 1};
      assert forall i :: i in b ==> i < n - 1;
      SubsetSize(b, n - 1);
    } else {
      assert a == {};
    }
  }

  lemma {:induction false} FullSize(a: set<nat>, n: nat)
    requires (forall i :: i in a ==> i < n) && (forall i: nat :: i < n ==> i in a)
    ensures |a| == n
  {
    if n > 0 { FullSize(a - {n - 1}, n - 1); } else { assert a == {}; }
  }

  /** A part as large as the whole is the whole. */
  lemma SameSize<T>(a: set<T>, b: set<T>)
    requires a <= b && |a| == |b|
    ensures a == b
  {
    if x :| x in b && x !in a { Monotone(a, b - {x}); }
  }
}
