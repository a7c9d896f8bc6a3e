/** Random permutations (config/randomness.go), for every stream of random words. */
module Shuffling {
  import opened ByteStrings

  function Range(n: nat): (s: seq<nat>)
    ensures |s| == n && forall i :: 0 <= i < n ==> s[i] == i
  {
    seq<nat>(n, i requires 0 <= i < n => i)
  }

  /** `s` lists 0, ..., n - 1, each once. */
  ghost predicate IsPerm(s: seq<nat>, n: nat) {
    multiset(s) == multiset(Range(n))
  }

  lemma PermElements(s: seq<nat>, n: nat)
    requires IsPerm(s, n)
    ensures |s| == n && (forall i :: 0 <= i < n ==> s[i] < n)
    ensures forall v: nat :: v < n ==> v in s
  {
    assert |s| == |multiset(s)| == |multiset(Range(n))|;
    forall i | 0 <= i < n ensures s[i] < n {
      assert s[i] in multiset(s);
      assert s[i] in Range(n);
    }
    forall v: nat | v < n ensures v in s {
      assert Range(n)[v] == v;
      assert v in multiset(Range(n));
    }
  }

  lemma RangeStep(n: nat)
    requires n > 0
    ensures Range(n) == Range(n - 1) + [n - 1]
  {}

  lemma {:induction false} RangeCount(n: nat, v: nat)
    ensures multiset(Range(n))[v] == if v < n then 1 else 0
  {
    if n > 0 {
      RangeCount(n - 1, v);
      RangeStep(n);
    }
  }

  lemma PermInjective(s: seq<nat>, n: nat, i: nat, j: nat)
    requires IsPerm(s, n) && i < j < |s|
    ensures s[i] != s[j]
  {
    RangeCount(n, s[i]);
    if s[i] == s[j] { CountTwice(s, i, j); }
  }

  lemma CountTwice(s: seq<nat>, i: nat, j: nat)
    requires i < j < |s| && s[i] == s[j]
    ensures multiset(s)[s[i]] >= 2
  {
    assert s == s[..i] + [s[i]] + s[i + 1..j] + [s[j]] + s[j + 1..];
  }

  /** The source of random words, and how many were taken. */
  class Shuffler {
    const stream: nat -> nat
    var taken: nat

    constructor (stream: nat -> nat)
      ensures this.stream == stream && taken == 0
    {
      this.stream := stream;
      taken := 0;
    }

    method UInt32() returns (w: nat)
      modifies this
      ensures w == stream(old(taken)) % WORD && taken == old(taken) + 1
    {
      w := stream(taken) % WORD;
      taken := taken + 1;
    }

    /** The modulus is a 32-bit word; None when it is zero, where Go panics. */
    method Draw(n: nat, i: nat) returns (j: Option<nat>)
      requires i < n
      modifies this
      ensures j.None? <==> (n - i) % WORD == 0
      ensures j.Some? ==> j.value == Pick(stream(old(taken)), n, i) && taken == old(taken) + 1
    {
      var w := UInt32();
      var m := (n - i) % WORD;
      if m == 0 { return None; }
      j := Some(w % m + i);
    }

    /** Knuth shuffle. Whatever the stream, the result is a permutation; the i-th position receives
        the element the i-th word selects among those not placed yet. From 2^32 elements on some
        modulus wraps to zero, and there is no result. */
    method Perm(n: nat) returns (r: Option<array<nat>>)
      modifies this
      ensures r.Some? <==> n < WORD
      ensures r.Some? ==> fresh(r.value) && r.value.Length == n && IsPerm(r.value[..], n)
      ensures r.Some? ==> r.value[..] == Knuth(Range(n), 0, stream, old(taken))
      ensures r.Some? && n > 0 ==> r.value[0] == stream(old(taken)) % WORD % n
      ensures r.Some? ==> taken == old(taken) + if n == 0 then 0 else n - 1
    {
      hide Knuth, IsPerm, Pick, Range, Swap;
      var pi := Identity(n);
      ghost var start := taken;
      RangeIsPerm(n);
      var i := 0;
      while i <= n - 2
        invariant 0 <= i <= n && (n >= WORD ==> i <= n - WORD) && (i == 0 || i < n)
        invariant fresh(pi) && pi.Length == n && taken == start + i
        invariant IsPerm(pi[..], n)
        invariant Knuth(pi[..], i, stream, taken) == Knuth(Range(n), 0, stream, start)
        decreases n - i
      {
        ghost var now: seq<nat> := pi[..];
        KnuthStep(now, i, stream, taken);
        var j := Draw(n, i);
        ModulusAt(n, i);
        if j.None? { return None; }
        SwapKeeps(now, n, i, j.value);
        SwapAt(pi, i, j.value);
        i := i + 1;
      }
      KnuthEnd(pi[..], i, stream, taken);
      if n > 0 { KnuthAt(Range(n), 0, stream, start); }
      return Some(pi);
    }
  }

  method Identity(n: nat) returns (pi: array<nat>)
    ensures fresh(pi) && pi[..] == Range(n)
  {
    pi := new nat[n];
    for i := 0 to n
      invariant forall k :: 0 <= k < i ==> pi[k] == k
    {
      pi[i] := i;
    }
  }

  lemma RangeIsPerm(n: nat)
    ensures IsPerm(Range(n), n)
  {}

  /** The modulus is zero first when 2^32 elements are left. */
  lemma ModulusAt(n: nat, i: nat)
    requires i < n && (n >= WORD ==> i <= n - WORD)
    ensures n < WORD ==> (n - i) % WORD != 0
    ensures n >= WORD && (n - i) % WORD != 0 ==> i + 1 <= n - WORD
  {}

  method SwapAt(pi: array<nat>, i: nat, j: nat)
    requires i < pi.Length && j < pi.Length
    modifies pi
    ensures pi[..] == Swap(old(pi[..]), i, j)
  {
    pi[i], pi[j] := pi[j], pi[i];
  }

  lemma KnuthStep(s: seq<nat>, i: nat, stream: nat -> nat, taken: nat)
    requires i + 2 <= |s|
    ensures Knuth(s, i, stream, taken) == Knuth(Swap(s, i, Pick(stream(taken), |s|, i)), i + 1, stream, taken + 1)
  {}

  lemma KnuthEnd(s: seq<nat>, i: nat, stream: nat -> nat, taken: nat)
    requires i + 2 > |s|
    ensures Knuth(s, i, stream, taken) == s
  {}

  function Swap(s: seq<nat>, i: nat, j: nat): (r: seq<nat>)
    requires i < |s| && j < |s|
    ensures |r| == |s|
  {
    s[i := s[j]][j := s[i]]
  }

  lemma SwapKeeps(s: seq<nat>, n: nat, i: nat, j: nat)
    requires i < |s| && j < |s| && IsPerm(s, n)
    ensures IsPerm(Swap(s, i, j), n)
  {
    hide Range;
    if i != j {
      assert multiset(s[i := s[j]]) == multiset(s) - multiset{s[i]} + multiset{s[j]};
    } else {
      assert Swap(s, i, j) == s;
    }
  }

  /** The position a random word selects from i, ..., n - 1. */
  function Pick(word: nat, n: nat, i: nat): (j: nat)
    requires i < n
    ensures i <= j < n
  {
    var m := (n - i) % WORD;
    if m == 0 then i else word % WORD % m + i
  }

  /** The shuffle from position i on, with the words from `taken` on. */
  function Knuth(s: seq<nat>, i: nat, stream: nat -> nat, taken: nat): seq<nat>
    decreases |s| - i
  {
    if i + 2 > |s| then s
    else Knuth(Swap(s, i, Pick(stream(taken), |s|, i)), i + 1, stream, taken + 1)
  }

  // ----- what the words decide

  lemma PickIs(word: nat, n: nat, i: nat)
    requires i < n < WORD
    ensures i + word % WORD % (n - i) < n && Pick(word, n, i) == i + word % WORD % (n - i)
  {
    DivisionIsUnique(n - i, WORD, 0, n - i);
  }

  /** Later steps leave earlier positions alone. */
  lemma {:induction false} KnuthPrefix(s: seq<nat>, i: nat, stream: nat -> nat, taken: nat)
    ensures |Knuth(s, i, stream, taken)| == |s|
    ensures forall k :: 0 <= k < i && k < |s| ==> Knuth(s, i, stream, taken)[k] == s[k]
    decreases |s| - i
  {
    if i + 2 <= |s| {
      hide Pick;
      var s' := Swap(s, i, Pick(stream(taken), |s|, i));
      KnuthPrefix(s', i + 1, stream, taken + 1);
    }
  }

  /** Position i receives the element the next word selects among those at i, i + 1, ... */
  lemma KnuthAt(s: seq<nat>, i: nat, stream: nat -> nat, taken: nat)
    requires i < |s| < WORD
    ensures |Knuth(s, i, stream, taken)| == |s|
    ensures Knuth(s, i, stream, taken)[i] == s[i + stream(taken) % WORD % (|s| - i)]
  {
    hide Knuth, Pick;
    PickIs(stream(taken), |s|, i);
    if i + 2 <= |s| {
      KnuthStep(s, i, stream, taken);
      KnuthPrefix(Swap(s, i, Pick(stream(taken), |s|, i)), i + 1, stream, taken + 1);
    } else {
      KnuthEnd(s, i, stream, taken);
    }
  }

  /** The element a word selects among the n - k left for position k. */
  function Choice(word: nat, n: nat, k: nat): nat
    requires k < n
  {
    word % WORD % (n - k)
  }

  /** Word t + k of one stream and word u + k of the other choose the same element for position k. */
  predicate SameChoice(n: nat, k: nat, a: nat -> nat, t: nat, b: nat -> nat, u: nat)
    requires k < n
  {
    Choice(a(t + k), n, k) == Choice(b(u + k), n, k)
  }

  ghost predicate SameChoices(n: nat, i: nat, a: nat -> nat, t: nat, b: nat -> nat, u: nat) {
    forall k: nat :: i <= k && k + 2 <= n ==> SameChoice(n, k, a, t, b, u)
  }

  lemma SameChoicesStep(n: nat, i: nat, a: nat -> nat, t: nat, b: nat -> nat, u: nat)
    requires i + 2 <= n
    ensures SameChoices(n, i, a, t, b, u) <==> SameChoice(n, i, a, t, b, u) && SameChoices(n, i + 1, a, t, b, u)
  {
    hide SameChoice;
  }

  /** Two streams give the same arrangement iff they make the same choices. */
  lemma {:induction false} KnuthInjective(s: seq<nat>, n: nat, i: nat, a: nat -> nat, t: nat, b: nat -> nat, u: nat)
    requires IsPerm(s, n) && |s| == n < WORD
    ensures Knuth(s, i, a, t + i) == Knuth(s, i, b, u + i) <==> SameChoices(n, i, a, t, b, u)
    decreases n - i
  {
    hide IsPerm, SameChoices, Pick, Knuth, Swap, Choice;
    if i + 2 <= n {
      SameChoicesStep(n, i, a, t, b, u);
      var x, y := Choice(a(t + i), n, i), Choice(b(u + i), n, i);
      Chosen(s, n, i, a, t + i);
      Chosen(s, n, i, b, u + i);
      if x == y {
        SwapKeeps(s, n, i, i + x);
        KnuthInjective(Swap(s, i, i + x), n, i + 1, a, t, b, u);
      } else if x < y {
        PermInjective(s, n, i + x, i + y);
      } else {
        PermInjective(s, n, i + y, i + x);
      }
    } else {
      KnuthEnd(s, i, a, t + i);
      KnuthEnd(s, i, b, u + i);
      NoChoice(n, i, a, t, b, u);
    }
  }

  lemma Chosen(s: seq<nat>, n: nat, i: nat, stream: nat -> nat, taken: nat)
    requires |s| == n < WORD && i + 2 <= n
    ensures var x := Choice(stream(taken), n, i);
            && i + x < n && |Knuth(s, i, stream, taken)| == n && Knuth(s, i, stream, taken)[i] == s[i + x]
            && Knuth(s, i, stream, taken) == Knuth(Swap(s, i, i + x), i + 1, stream, taken + 1)
  {
    hide Knuth, Swap, Pick;
    PickIs(stream(taken), n, i);
    KnuthStep(s, i, stream, taken);
    KnuthAt(s, i, stream, taken);
  }

  lemma NoChoice(n: nat, i: nat, a: nat -> nat, t: nat, b: nat -> nat, u: nat)
    requires i + 2 > n
    ensures SameChoices(n, i, a, t, b, u)
  {}

  /** Two streams draw the same permutation iff at every step their words agree modulo the number of
      elements left: different choices at any position give different permutations. */
  lemma ChoicesDecide(n: nat, a: nat -> nat, t: nat, b: nat -> nat, u: nat)
    requires n < WORD
    ensures Knuth(Range(n), 0, a, t) == Knuth(Range(n), 0, b, u) <==>
            forall k: nat :: k + 2 <= n ==> SameChoice(n, k, a, t, b, u)
  {
    hide Knuth, IsPerm, SameChoice;
    RangeIsPerm(n);
    KnuthInjective(Range(n), n, 0, a, t, b, u);
  }

  /** The shuffle depends on the words it takes only. */
  lemma {:induction false} KnuthSame(s: seq<nat>, i: nat, a: nat -> nat, b: nat -> nat, t: nat)
    requires forall k: nat :: k >= t ==> a(k) == b(k)
    ensures Knuth(s, i, a, t) == Knuth(s, i, b, t)
    decreases |s| - i
  {
    if i + 2 <= |s| {
      hide Pick;
      KnuthSame(Swap(s, i, Pick(a(t), |s|, i)), i + 1, a, b, t + 1);
    }
  }

  lemma Later(s: seq<nat>, target: seq<nat>, n: nat, i: nat) returns (j: nat)
    requires IsPerm(s, n) && IsPerm(target, n) && i < n == |s| == |target| && s[..i] == target[..i]
    ensures i <= j < n && s[j] == target[i]
  {
    PermElements(s, n);
    PermElements(target, n);
    assert target[i] in s;
    var k :| 0 <= k < n && s[k] == target[i];
    j := k;
    if j < i {
      assert s[..i][j] == target[..i][j];
      PermInjective(target, n, j, i);
    }
  }

  /** From any arrangement with the right beginning some words lead to the target. */
  lemma {:induction false} Reaches(s: seq<nat>, target: seq<nat>, n: nat, i: nat, t: nat) returns (stream: nat -> nat)
    requires IsPerm(s, n) && IsPerm(target, n) && n == |s| == |target| < WORD && i <= n && s[..i] == target[..i]
    ensures Knuth(s, i, stream, t) == target
    decreases n - i
  {
    hide IsPerm, Pick, Knuth;
    if i < n {
      var j := Later(s, target, n, i);
      if i + 1 == n {
        assert s == s[..i] + [s[i]] && target == target[..i] + [target[i]];
        stream := _ => 0;
        KnuthEnd(s, i, stream, t);
      } else {
        var s', word: nat := Swap(s, i, j), j - i;
        SwapKeeps(s, n, i, j);
        assert s'[..i + 1] == target[..i + 1] by { assert s'[..i] == s[..i]; }
        var later := Reaches(s', target, n, i + 1, t + 1);
        stream := k => if k == t then word else later(k);
        WordSelects(word, n, i);
        KnuthStep(s, i, stream, t);
        KnuthSame(s', i + 1, stream, later, t + 1);
      }
    } else {
      assert s == s[..n] == target[..n] == target;
      stream := _ => 0;
      KnuthEnd(s, i, stream, t);
    }
  }

  lemma WordSelects(word: nat, n: nat, i: nat)
    requires i + word < n < WORD
    ensures Pick(word, n, i) == i + word
  {
    PickIs(word, n, i);
    DivisionIsUnique(word, WORD, 0, word);
    DivisionIsUnique(word, n - i, 0, word);
  }

  /** Every permutation is drawn by some stream. */
  lemma EveryPermutation(target: seq<nat>, n: nat, t: nat) returns (stream: nat -> nat)
    requires IsPerm(target, n) && n < WORD
    ensures Knuth(Range(n), 0, stream, t) == target
  {
    hide IsPerm, Knuth;
    PermElements(target, n);
    RangeIsPerm(n);
    stream := Reaches(Range(n), target, n, 0, t);
  }

  // ----- applying a permutation

  function Permuted<T>(s: seq<nat>, a: seq<T>): (r: seq<T>)
    requires forall i :: 0 <= i < |s| ==> s[i] < |a|
    ensures |r| == |s| && forall i :: 0 <= i < |s| ==> r[i] == a[s[i]]
  {
    seq(|s|, i requires 0 <= i < |s| => a[s[i]])
  }

  /** Reading an array in permuted order reads each element exactly once. */
  lemma {:induction false} PermutedMultiset<T>(s: seq<nat>, a: seq<T>)
    requires IsPerm(s, |a|)
    ensures forall i :: 0 <= i < |s| ==> s[i] < |a|
    ensures multiset(Permuted(s, a)) == multiset(a)
    decreases |a|
  {
    PermElements(s, |a|);
    if |a| > 0 {
      var m := |a| - 1;
      assert m in s;
      var i :| 0 <= i < |s| && s[i] == m;
      var s', a' := Without(s, i), a[..m];
      RemoveLast(s, |a|, i);
      PermutedMultiset(s', a');
      PermutedSplit(s, a, i, s');
      assert a == a' + [a[m]];
    }
  }

  function Without<T>(s: seq<T>, i: nat): seq<T>
    requires i < |s|
  {
    s[..i] + s[i + 1..]
  }

  lemma PermutedSplit<T>(s: seq<nat>, a: seq<T>, i: nat, s': seq<nat>)
    requires i < |s| && |a| > 0 && s[i] == |a| - 1 && (forall k :: 0 <= k < |s| ==> s[k] < |a|)
    requires s' == Without(s, i) && forall k :: 0 <= k < |s'| ==> s'[k] < |a| - 1
    ensures multiset(Permuted(s, a)) == multiset(Permuted(s', a[..|a| - 1])) + multiset{a[|a| - 1]}
  {
    var p, p' := Permuted(s, a), Permuted(s', a[..|a| - 1]);
    var joined := p'[..i] + [a[|a| - 1]] + p'[i..];
    forall k | 0 <= k < |p| ensures p[k] == joined[k] {
      if k > i { assert p'[i..][k - i - 1] == p'[k - 1] && s'[k - 1] == s[k]; }
      if k < i { assert s'[k] == s[k]; }
    }
    assert p == joined;
    assert p' == p'[..i] + p'[i..];
  }

  lemma RemoveLast(s: seq<nat>, n: nat, i: nat)
    requires n > 0 && IsPerm(s, n) && i < |s| && s[i] == n - 1
    ensures IsPerm(Without(s, i), n - 1)
  {
    var m: nat := n - 1;
    var s', r := Without(s, i), [m];
    assert s == s[..i] + r + s[i + 1..];
    assert multiset(s) == multiset(s[..i]) + multiset(r) + multiset(s[i + 1..]);
    assert Range(n) == Range(m) + r;
    assert multiset(Range(m) + r) == multiset(Range(m)) + multiset(r);
    assert multiset(s') == multiset(s[..i]) + multiset(s[i + 1..]);
    assert multiset(s') == multiset(s) - multiset(r);
  }
}
