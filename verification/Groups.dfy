/** Balanced anytrust groups (config/anytrustGroup.go): consecutive runs of a random sequence made of
    whole permutations, reshuffled where a run would repeat a server. */
module Groups {
  import opened ByteStrings
  import opened Shuffling

  const LONG := 0x1_0000_0000_0000_0000

  /** A sequence of whole permutations of the n servers. */
  ghost predicate Blocks(s: seq<nat>, n: nat)
    requires n > 0
    decreases |s|
  {
    s == [] || (|s| >= n && IsPerm(s[..n], n) && Blocks(s[n..], n))
  }

  lemma {:induction false} AppendBlock(s: seq<nat>, b: seq<nat>, n: nat)
    requires n > 0 && Blocks(s, n) && IsPerm(b, n)
    ensures Blocks(s + b, n)
    decreases |s|
  {
    PermElements(b, n);
    if s == [] {
      assert s + b == b && b[..n] == b && b[n..] == [];
    } else {
      AppendBlock(s[n..], b, n);
      assert (s + b)[..n] == s[..n] && (s + b)[n..] == s[n..] + b;
    }
  }

  ghost predicate NoRepeats(s: seq<nat>) {
    forall i, j :: 0 <= i < j < |s| ==> s[i] != s[j]
  }

  lemma BlockCount(b: seq<nat>, n: nat, k: nat, v: nat)
    requires IsPerm(b, n) && k <= |b| && v < n
    ensures multiset(b[..k])[v] <= 1 && (k == n ==> multiset(b[..k])[v] == 1)
  {
    PermElements(b, n);
    RangeCount(n, v);
    assert b == b[..k] + b[k..];
    assert multiset(b)[v] == multiset(b[..k])[v] + multiset(b[k..])[v];
    if k == n { assert b[..k] == b; }
  }

  /** Among the first t entries, every server occurs floor(t/n) or ceil(t/n) times. */
  lemma {:induction false} Balanced(s: seq<nat>, n: nat, t: nat, v: nat)
    requires n > 0 && Blocks(s, n) && t <= |s| && v < n
    ensures t / n <= multiset(s[..t])[v] <= (t + (n - 1)) / n
    decreases t
  {
    hide IsPerm;
    if t <= n {
      if t > 0 {
        assert s[..t] == s[..n][..t];
        BlockCount(s[..n], n, t, v);
      }
      OneBlock(t, n);
    } else {
      Balanced(s[n..], n, t - n, v);
      BlockCount(s[..n], n, n, v);
      assert s[..t] == s[..n] + s[n..][..t - n] && s[..n][..n] == s[..n];
      OneMoreBlock(t, n);
    }
  }

  lemma OneBlock(t: nat, n: nat)
    requires t <= n && n > 0
    ensures t / n == (if t == n then 1 else 0) && (t + (n - 1)) / n == if t == 0 then 0 else 1
  {
    DivisionIsUnique(t, n, if t == n then 1 else 0, if t == n then 0 else t);
    DivisionIsUnique(t + (n - 1), n, if t == 0 then 0 else 1, if t == 0 then n - 1 else t - 1);
  }

  lemma OneMoreBlock(t: nat, n: nat)
    requires t >= n > 0
    ensures t / n == (t - n) / n + 1 && (t + (n - 1)) / n == (t - n + (n - 1)) / n + 1
  {
    PlusOne(t - n, n);
    PlusOne(t - n + (n - 1), n);
  }

  lemma PlusOne(a: int, n: int)
    requires n > 0
    ensures (a + n) / n == a / n + 1
  {
    assert a + n == n * (a / n + 1) + a % n;
    DivisionIsUnique(a + n, n, a / n + 1, a % n);
  }

  // ----- the allocator

  /** The number of groups a server belongs to. */
  function Memberships(groups: seq<seq<nat>>, v: nat): nat {
    if groups == [] then 0 else Memberships(groups[..|groups| - 1], v) + if v in groups[|groups| - 1] then 1 else 0
  }

  ghost predicate IsCut(groups: seq<seq<nat>>, s: seq<nat>, size: nat)
    decreases |groups|
  {
    if groups == [] then s == []
    else
      var k := |groups| - 1;
      |groups[k]| == size && |s| >= size && groups[k] == s[|s| - size..] && IsCut(groups[..k], s[..|s| - size], size)
  }

  lemma {:induction false} MembershipsCount(groups: seq<seq<nat>>, s: seq<nat>, size: nat, v: nat)
    requires IsCut(groups, s, size) && forall g :: 0 <= g < |groups| ==> NoRepeats(groups[g])
    ensures Memberships(groups, v) == multiset(s)[v]
    decreases |groups|
  {
    if groups != [] {
      var k := |groups| - 1;
      MembershipsCount(groups[..k], s[..|s| - size], size, v);
      assert s == s[..|s| - size] + groups[k];
      CountOnce(groups[k], v);
    }
  }

  lemma {:induction false} CountOnce(s: seq<nat>, v: nat)
    requires NoRepeats(s)
    ensures multiset(s)[v] == if v in s then 1 else 0
    decreases |s|
  {
    if s != [] {
      var k := |s| - 1;
      assert s == s[..k] + [s[k]];
      CountOnce(s[..k], v);
      if s[k] == v { assert v !in s[..k]; }
    }
  }

  /** A duplicate at the very end of the sequence is impossible: the run so far lies in the last
      permutation. So there is always a place to swap with. */
  lemma NotLast(first: seq<nat>, last: seq<nat>, n: nat, index: nat, j: nat)
    requires IsPerm(last, n) && |first| <= index < |first| + |last| && j < n && j <= index
    requires (first + last)[index] in (first + last)[index - j..index]
    ensures index < |first| + |last| - 1
  {
    PermElements(last, n);
    if index == |first| + n - 1 {
      var run := (first + last)[index - j..index];
      var k :| 0 <= k < |run| && run[k] == (first + last)[index];
      PermInjective(last, n, index - j + k - |first|, n - 1);
    }
  }

  lemma {:induction false} CoverSize(s: seq<nat>, n: nat)
    requires forall v: nat :: v < n ==> v in s
    ensures |s| >= n
    decreases n
  {
    if n > 0 {
      var m := n - 1;
      assert m in s;
      var i :| 0 <= i < |s| && s[i] == m;
      forall v: nat | v < m ensures v in Without(s, i) {
        assert v in s;
        var k :| 0 <= k < |s| && s[k] == v;
        assert v == Without(s, i)[if k < i then k else k - 1];
      }
      CoverSize(Without(s, i), m);
    }
  }

  /** And one of the later entries is not in the run, so some reselection makes progress. */
  lemma ReselectionCanSucceed(first: seq<nat>, last: seq<nat>, n: nat, index: nat, j: nat) returns (k: nat)
    requires IsPerm(last, n) && |first| <= index < |first| + |last| && j < n && j <= index
    requires (first + last)[index] in (first + last)[index - j..index]
    ensures index < k < |first| + |last| && (first + last)[k] !in (first + last)[index - j..index]
  {
    PermElements(last, n);
    var s := first + last;
    var run := s[index - j..index];
    k := 0;
    if k0: nat :| index < k0 < |s| && s[k0] !in run {
      k := k0;
    } else {
      forall v: nat | v < n ensures v in run {
        assert v in last;
        var i :| 0 <= i < |last| && last[i] == v;
        assert s[|first| + i] == v;
        if |first| + i < index {
          DuplicateIsEarlier(first, last, n, index, j);
          assert run[|first| + i - (index - j)] == v;
        }
      }
      CoverSize(run, n);
    }
  }

  /** A duplicate comes from before the last permutation, so the run reaches back beyond its start. */
  lemma DuplicateIsEarlier(first: seq<nat>, last: seq<nat>, n: nat, index: nat, j: nat)
    requires IsPerm(last, n) && |first| <= index < |first| + |last| && j <= index
    requires (first + last)[index] in (first + last)[index - j..index]
    ensures index - j < |first|
  {
    if index - j >= |first| {
      var run := (first + last)[index - j..index];
      var k :| 0 <= k < |run| && run[k] == (first + last)[index];
      PermInjective(last, n, index - j + k - |first|, index - |first|);
    }
  }

  // ----- the allocation as a function of the random words

  /** The sequence so far, the position, where the current group begins, and the words taken. */
  datatype Progress = Progress(s: seq<nat>, index: nat, begin: nat, taken: nat)

  /** One step: a new permutation is drawn when the old ones are used up, an entry that repeats a server
      of the current group is swapped with one drawn from those behind it, any other entry is taken. */
  function Step(n: nat, size: nat, stream: nat -> nat, x: Progress): Progress
    requires n > 0
  {
    if x.index >= |x.s| then
      x.(s := x.s + Knuth(Range(n), 0, stream, x.taken), taken := x.taken + (n - 1))
    else if x.begin <= x.index && x.s[x.index] in x.s[x.begin..x.index] then
      if x.index + 1 == |x.s| then x
      else x.(s := Swap(x.s, x.index, Location(stream(x.taken), |x.s|, x.index)), taken := x.taken + 1)
    else
      x.(index := x.index + 1, begin := if x.index + 1 == x.begin + size then x.index + 1 else x.begin)
  }

  /** The entry a word selects behind `index`. */
  function Location(word: nat, len: nat, index: nat): (j: nat)
    requires index + 1 < len
    ensures index < j < len
  {
    word % LONG % (len - index - 1) + index + 1
  }

  lemma LocationIs(word: nat, len: nat, index: nat)
    requires index + 1 < len
    ensures Location(word, len, index) == word % LONG % (len - index - 1) + index + 1
  {}

  lemma SwapBehind(first: seq<nat>, last: seq<nat>, i: nat, j: nat)
    requires |first| <= i < j < |first| + |last|
    ensures Swap(first + last, i, j) == first + Swap(last, i - |first|, j - |first|)
    ensures Swap(first + last, i, j)[..i] == (first + last)[..i]
  {}

  function Steps(n: nat, size: nat, stream: nat -> nat, start: nat, k: nat): Progress
    requires n > 0
  {
    if k == 0 then Progress([], 0, 0, start) else Step(n, size, stream, Steps(n, size, stream, start, k - 1))
  }

  /** What was taken by x stays. */
  ghost predicate Kept(x: Progress, y: Progress) {
    x.index <= |x.s| && x.index <= y.index <= |y.s| && y.s[..x.index] == x.s[..x.index]
  }

  lemma StepKeeps(n: nat, size: nat, stream: nat -> nat, x: Progress)
    requires n > 0 && x.index <= |x.s|
    ensures Kept(x, Step(n, size, stream, x))
  {
    hide Knuth, Location;
  }

  lemma KeptTrans(x: Progress, z: Progress, y: Progress)
    requires Kept(x, z) && Kept(z, y)
    ensures Kept(x, y) && Kept(y, y)
  {
    assert y.s[..x.index] == y.s[..z.index][..x.index];
    assert z.s[..x.index] == z.s[..z.index][..x.index];
  }

  lemma KeptAtStart(start: nat)
    ensures Kept(Progress([], 0, 0, start), Progress([], 0, 0, start))
  {}

  lemma {:induction false} StepsInRange(n: nat, size: nat, stream: nat -> nat, start: nat, k: nat)
    requires n > 0
    ensures Kept(Steps(n, size, stream, start, k), Steps(n, size, stream, start, k))
    decreases k
  {
    hide Step, Kept;
    if k == 0 {
      KeptAtStart(start);
    } else {
      StepsInRange(n, size, stream, start, k - 1);
      OneStepKeeps(n, size, stream, Steps(n, size, stream, start, k - 1));
    }
  }

  lemma OneStepKeeps(n: nat, size: nat, stream: nat -> nat, x: Progress)
    requires n > 0 && Kept(x, x)
    ensures var y := Step(n, size, stream, x); Kept(x, y) && Kept(y, y)
  {
    StepKeeps(n, size, stream, x);
    hide Step;
  }

  lemma {:induction false} StepsKeep(n: nat, size: nat, stream: nat -> nat, start: nat, j: nat, k: nat)
    requires n > 0 && j <= k
    ensures Kept(Steps(n, size, stream, start, j), Steps(n, size, stream, start, k))
    decreases k
  {
    hide Step, Kept;
    StepsInRange(n, size, stream, start, k);
    if j < k {
      StepsInRange(n, size, stream, start, k - 1);
      StepsKeep(n, size, stream, start, j, k - 1);
      OneStepKeeps(n, size, stream, Steps(n, size, stream, start, k - 1));
      KeptTrans(Steps(n, size, stream, start, j), Steps(n, size, stream, start, k - 1), Steps(n, size, stream, start, k));
    }
  }

  /** The groups cut from what was taken after k steps. */
  ghost predicate GroupsAfter(groups: seq<seq<nat>>, n: nat, size: nat, stream: nat -> nat, start: nat, k: nat)
    requires n > 0
  {
    var x := Steps(n, size, stream, start, k);
    x.index <= |x.s| && IsCut(groups, x.s[..x.index], size)
  }

  lemma {:induction false} CutIsUnique(groups: seq<seq<nat>>, groups': seq<seq<nat>>, s: seq<nat>, s': seq<nat>, size: nat)
    requires IsCut(groups, s, size) && IsCut(groups', s', size) && |groups| == |groups'| && (s <= s' || s' <= s)
    ensures s == s' && groups == groups'
    decreases |groups|
  {
    CutLength(groups, s, size);
    CutLength(groups', s', size);
    if groups != [] {
      var k := |groups| - 1;
      CutIsUnique(groups[..k], groups'[..k], s[..|s| - size], s'[..|s| - size], size);
      assert groups == groups[..k] + [groups[k]] && groups' == groups'[..k] + [groups'[k]];
    }
  }

  lemma {:induction false} CutLength(groups: seq<seq<nat>>, s: seq<nat>, size: nat)
    requires IsCut(groups, s, size)
    ensures |s| == |groups| * size
    decreases |groups|
  {
    if groups != [] {
      CutLength(groups[..|groups| - 1], s[..|s| - size], size);
      assert |groups| * size == (|groups| - 1) * size + size;
    }
  }

  /** The groups are a function of the random words: however often an allocation stopped to look, the
      same words give the same groups. */
  lemma GroupsAreDetermined(groups: seq<seq<nat>>, groups': seq<seq<nat>>, n: nat, size: nat, stream: nat -> nat, start: nat, j: nat, k: nat)
    requires n > 0 && |groups| == |groups'|
    requires GroupsAfter(groups, n, size, stream, start, j) && GroupsAfter(groups', n, size, stream, start, k)
    ensures groups == groups'
  {
    if j <= k { StepsKeep(n, size, stream, start, j, k); } else { StepsKeep(n, size, stream, start, k, j); }
    hide Steps, IsCut;
    var x, y := Steps(n, size, stream, start, j), Steps(n, size, stream, start, k);
    Comparable(x.s, x.index, y.s, y.index);
    CutIsUnique(groups, groups', x.s[..x.index], y.s[..y.index], size);
  }

  lemma Comparable(a: seq<nat>, i: nat, b: seq<nat>, j: nat)
    requires i <= |a| && j <= |b|
    requires (i <= j && b[..i] == a[..i]) || (j <= i && a[..j] == b[..j])
    ensures a[..i] <= b[..j] || b[..j] <= a[..i]
  {
    if i <= j && b[..i] == a[..i] { assert b[..j][..i] == b[..i]; } else { assert a[..i][..j] == a[..j]; }
  }

  /** The state of the allocator: the sequence, split before its last permutation, and the position. */
  class Allocator {
    const n: nat
    const shuf: Shuffler
    var permutation: seq<nat>
    var index: nat
    ghost var first: seq<nat>
    ghost var last: seq<nat>

    ghost predicate Valid()
      reads this
    {
      && 0 < n < WORD
      && permutation == first + last && Blocks(first, n) && IsPerm(last, n) && |last| == n
      && |first| <= index <= |permutation|
    }

    constructor (n: nat, shuf: Shuffler)
      requires 0 < n < WORD
      modifies shuf
      ensures Valid() && index == 0 && this.n == n && this.shuf == shuf
      ensures permutation == Knuth(Range(n), 0, shuf.stream, old(shuf.taken)) && shuf.taken == old(shuf.taken) + (n - 1)
    {
      hide Knuth;
      this.n, this.shuf := n, shuf;
      var r := shuf.Perm(n);
      permutation, index := r.value[..], 0;
      first, last := [], r.value[..];
    }

    /** A new permutation is appended when the old ones are used up. */
    method Refill()
      requires Valid()
      modifies this, shuf
      ensures Valid() && index == old(index) && index < |permutation|
      ensures permutation[..index] == old(permutation[..index])
      ensures index < |old(permutation)| ==> permutation == old(permutation) && shuf.taken == old(shuf.taken)
      ensures index >= |old(permutation)| ==>
        && permutation == old(permutation) + Knuth(Range(n), 0, shuf.stream, old(shuf.taken))
        && shuf.taken == old(shuf.taken) + (n - 1)
    {
      hide Knuth;
      if index >= |permutation| {
        var r := shuf.Perm(n);
        AppendBlock(first, last, n);
        first, last := permutation, r.value[..];
        permutation := permutation + r.value[..];
      }
    }

    /** The duplicate at the current position is swapped with a random later entry. */
    method Reselect(ghost j: nat)
      requires Valid() && index < |permutation| && j <= index && j < n
      requires permutation[index] in permutation[index - j..index]
      modifies this, shuf
      ensures Valid() && index == old(index) && |permutation| == |old(permutation)|
      ensures permutation[..index] == old(permutation[..index])
      ensures index + 1 < |permutation| && shuf.taken == old(shuf.taken) + 1
      ensures permutation == Swap(old(permutation), index, Location(shuf.stream(old(shuf.taken)), |permutation|, index))
    {
      NotLast(first, last, n, index, j);
      hide Blocks, IsPerm, Location, Swap;
      var word := shuf.stream(shuf.taken) % LONG;
      LocationIs(shuf.stream(shuf.taken), |permutation|, index);
      shuf.taken := shuf.taken + 1;
      var swapLocation := word % (|permutation| - index - 1) + index + 1;
      ghost var i, k := index - |first|, swapLocation - |first|;
      SwapKeeps(last, n, i, k);
      SwapBehind(first, last, index, swapLocation);
      permutation := Swap(permutation, index, swapLocation);
      last := Swap(last, i, k);
    }

    method Take() returns (v: nat)
      requires Valid() && index < |permutation|
      modifies this`index
      ensures Valid() && index == old(index) + 1 && v == permutation[old(index)]
    {
      v := permutation[index];
      index := index + 1;
    }
  }

  /** The allocator stands where the random words lead in k steps, with `have` entries of a group taken. */
  ghost predicate Traced(a: Allocator, size: nat, start: nat, k: nat, have: nat)
    reads a, a.shuf
  {
    && a.n > 0 && have <= a.index <= |a.permutation|
    && Steps(a.n, size, a.shuf.stream, start, k) == Progress(a.permutation, a.index, a.index - have, a.shuf.taken)
  }

  method RefillTraced(a: Allocator, ghost size: nat, ghost start: nat, ghost done: nat, ghost have: nat) returns (ghost k: nat)
    requires a.Valid() && Traced(a, size, start, done, have)
    modifies a, a.shuf
    ensures a.Valid() && Traced(a, size, start, k, have) && a.index == old(a.index) < |a.permutation|
    ensures a.permutation[..a.index] == old(a.permutation[..a.index])
  {
    hide Blocks, IsPerm, Steps, Knuth, Range;
    ghost var x := Steps(a.n, size, a.shuf.stream, start, done);
    a.Refill();
    k := Refilled(a.n, size, a.shuf.stream, start, done, x, a.permutation, a.shuf.taken);
  }

  method ReselectTraced(a: Allocator, ghost size: nat, ghost start: nat, ghost done: nat, ghost have: nat)
    requires a.Valid() && Traced(a, size, start, done, have) && have < a.n && a.index < |a.permutation|
    requires a.permutation[a.index] in a.permutation[a.index - have..a.index]
    modifies a, a.shuf
    ensures a.Valid() && Traced(a, size, start, done + 1, have) && a.index == old(a.index) < |a.permutation|
    ensures a.permutation[..a.index] == old(a.permutation[..a.index])
  {
    hide Blocks, IsPerm, Steps, Swap, Location;
    ghost var x := Steps(a.n, size, a.shuf.stream, start, done);
    a.Reselect(have);
    Reselected(a.n, size, a.shuf.stream, start, done, x);
  }

  method TakeTraced(a: Allocator, ghost size: nat, ghost start: nat, ghost done: nat, ghost have: nat) returns (v: nat)
    requires a.Valid() && Traced(a, size, start, done, have) && have < size && a.index < |a.permutation|
    requires a.permutation[a.index] !in a.permutation[a.index - have..a.index]
    modifies a`index
    ensures a.Valid() && Traced(a, size, start, done + 1, if have + 1 == size then 0 else have + 1)
    ensures a.index == old(a.index) + 1 && v == a.permutation[old(a.index)] < a.n
  {
    InRange(a);
    hide Blocks, IsPerm, Steps;
    Taken(a.n, size, a.shuf.stream, start, done, Steps(a.n, size, a.shuf.stream, start, done));
    v := a.Take();
  }

  lemma TracedInRange(a: Allocator, size: nat, start: nat, k: nat, have: nat)
    requires Traced(a, size, start, k, have)
    ensures a.n > 0 && have <= a.index <= |a.permutation|
  {}

  lemma SameRun(before: seq<nat>, s: seq<nat>, begin: nat, index: nat, servers: seq<nat>)
    requires begin <= index == |before| <= |s| && s[..index] == before && before[begin..] == servers
    ensures s[begin..index] == servers
  {}

  lemma OneMore(before: seq<nat>, s: seq<nat>, index: nat, u: nat)
    requires 0 < index <= |s| && s[..index - 1] == before && s[index - 1] == u
    ensures s[..index] == before + [u]
  {}

  /** One group: the next `size` entries, with duplicates reselected on the way. None when the limit on
      reselections is reached. */
  method NextGroup(a: Allocator, size: nat, limit: nat, ghost start: nat, ghost done: nat)
      returns (r: Option<seq<nat>>, left: nat, ghost k: nat)
    requires a.Valid() && size <= a.n && Traced(a, size, start, done, 0)
    modifies a, a.shuf
    ensures a.Valid() && (r.None? ==> left == 0)
    ensures r.Some? ==>
      && |r.value| == size && NoRepeats(r.value) && (forall k :: 0 <= k < size ==> r.value[k] < a.n)
      && a.index == old(a.index) + size
      && a.permutation[..a.index] == old(a.permutation[..a.index]) + r.value
      && Traced(a, size, start, k, 0)
  {
    hide Traced, Allocator.Valid, Steps;
    TracedInRange(a, size, start, done, 0);
    left, k := limit, done;
    var servers: seq<nat>, used: set<nat> := [], {};
    ghost var before, begin := a.permutation[..a.index], a.index;
    while |servers| < size
      invariant a.Valid() && |servers| <= size && a.index == begin + |servers|
      invariant Traced(a, size, start, k, if |servers| == size then 0 else |servers|)
      invariant a.index <= |a.permutation| && a.permutation[..a.index] == before + servers
      invariant NoRepeats(servers) && forall v: nat :: v in used <==> v in servers
      invariant forall k :: 0 <= k < |servers| ==> servers[k] < a.n
      decreases left, size - |servers|
    {
      k := RefillTraced(a, size, start, k, |servers|);
      SameRun(before + servers, a.permutation, begin, a.index, servers);
      if a.permutation[a.index] in used {
        if left == 0 { return None, 0, k; }
        ReselectTraced(a, size, start, k, |servers|);
        left := left - 1;
      } else {
        var v := TakeTraced(a, size, start, k, |servers|);
        OneMore(before + servers, a.permutation, a.index, v);
        used, servers := used + {v}, servers + [v];
      }
      k := k + 1;
    }
    r := Some(servers);
  }

  lemma Refilled(n: nat, size: nat, stream: nat -> nat, start: nat, k: nat, x: Progress, s: seq<nat>, taken: nat) returns (k': nat)
    requires n > 0 && x == Steps(n, size, stream, start, k)
    requires x.index < |x.s| ==> s == x.s && taken == x.taken
    requires x.index >= |x.s| ==> s == x.s + Knuth(Range(n), 0, stream, x.taken) && taken == x.taken + (n - 1)
    ensures Steps(n, size, stream, start, k') == x.(s := s, taken := taken)
  {
    hide Knuth, Range;
    k' := if x.index < |x.s| then k else k + 1;
  }

  lemma Reselected(n: nat, size: nat, stream: nat -> nat, start: nat, k: nat, x: Progress)
    requires n > 0 && x == Steps(n, size, stream, start, k) && x.begin <= x.index && x.index + 1 < |x.s|
    requires x.s[x.index] in x.s[x.begin..x.index]
    ensures Steps(n, size, stream, start, k + 1) ==
            x.(s := Swap(x.s, x.index, Location(stream(x.taken), |x.s|, x.index)), taken := x.taken + 1)
  {
    hide Location, Swap;
  }

  lemma Taken(n: nat, size: nat, stream: nat -> nat, start: nat, k: nat, x: Progress)
    requires n > 0 && x == Steps(n, size, stream, start, k) && x.begin <= x.index < |x.s|
    requires x.s[x.index] !in x.s[x.begin..x.index]
    ensures Steps(n, size, stream, start, k + 1) ==
            x.(index := x.index + 1, begin := if x.index + 1 == x.begin + size then x.index + 1 else x.begin)
  {
    hide Location, Swap;
  }

  lemma InRange(a: Allocator)
    requires a.Valid() && a.index < |a.permutation|
    ensures a.permutation[a.index] < a.n
  {
    PermElements(a.last, a.n);
  }

  /** If the allocation returns, every group consists of distinct servers, and every server belongs to
      floor(T/n) or ceil(T/n) of the groups, where T is the number of places: no server is in more
      groups than the cost estimate assumes. */
  method CreateSeparateGroupsWithSize(nGroups: nat, size: nat, n: nat, shuf: Shuffler, limit: nat)
    returns (r: Option<seq<seq<nat>>>, ghost k: nat)
    requires 0 < n < WORD && size <= n
    modifies shuf
    ensures r.Some? ==>
      && |r.value| == nGroups
      && (forall g :: 0 <= g < nGroups ==> |r.value[g]| == size && NoRepeats(r.value[g]))
      && (forall g, k :: 0 <= g < nGroups && 0 <= k < size ==> r.value[g][k] < n)
      && (forall v: nat :: v < n ==>
            nGroups * size / n <= Memberships(r.value, v) <= (nGroups * size + (n - 1)) / n)
      && GroupsAfter(r.value, n, size, shuf.stream, old(shuf.taken), k)
  {
    hide Blocks, IsPerm, Memberships, IsCut, NoRepeats, Steps, Knuth;
    ghost var start := shuf.taken;
    var a := new Allocator(n, shuf);
    FirstStep(n, size, shuf.stream, start);
    k := 1;
    var groups: seq<seq<nat>> := [];
    var left := limit;
    CutStart(size);
    for i := 0 to nGroups
      invariant fresh(a) && a.shuf == shuf && a.n == n && a.Valid()
      invariant |groups| == i && a.index == i * size
      invariant Traced(a, size, start, k, 0)
      invariant IsCut(groups, a.permutation[..a.index], size)
      invariant forall g :: 0 <= g < i ==> |groups[g]| == size && NoRepeats(groups[g])
      invariant forall g, k :: 0 <= g < i && 0 <= k < size ==> groups[g][k] < n
    {
      ghost var before := a.permutation[..a.index];
      var group, rest, done := NextGroup(a, size, left, start, k);
      if group.None? { return None, done; }
      left, k := rest, done;
      CutStep(groups, before, group.value, size);
      groups := groups + [group.value];
      assert (i + 1) * size == i * size + size;
    }
    forall v: nat | v < n
      ensures nGroups * size / n <= Memberships(groups, v) <= (nGroups * size + (n - 1)) / n
    {
      AppendBlock(a.first, a.last, n);
      Balanced(a.permutation, n, a.index, v);
      MembershipsCount(groups, a.permutation[..a.index], size, v);
    }
    r := Some(groups);
  }

  lemma FirstStep(n: nat, size: nat, stream: nat -> nat, start: nat)
    requires n > 0
    ensures Steps(n, size, stream, start, 1) == Progress(Knuth(Range(n), 0, stream, start), 0, 0, start + (n - 1))
  {
    hide Knuth, Range;
    assert Steps(n, size, stream, start, 0) == Progress([], 0, 0, start);
  }

  lemma CutStart(size: nat)
    ensures IsCut([], [], size)
  {}

  lemma CutStep(groups: seq<seq<nat>>, s: seq<nat>, group: seq<nat>, size: nat)
    requires IsCut(groups, s, size) && |group| == size
    ensures IsCut(groups + [group], s + group, size)
  {
    assert (groups + [group])[..|groups|] == groups;
    assert (s + group)[..|s|] == s && (s + group)[|s|..] == group;
  }
}
