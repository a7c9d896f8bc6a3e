/** The signing key exchange (server/keyExchange/exchangeKeys.go over crypto/ec). Every member of the
    master group has a secret and sends additive shares of it to the members of another group, who
    add up what they receive; among the masters the public shares are added up. */
module KeyExchange {
  import opened ByteStrings
  import opened Modular
  import opened Shuffling
  import opened Sharing

  // ----- scalars

  /** ScalarElement.Neg: zero stays zero, so the result is reduced again. */
  method Neg(q: int, el: int) returns (r: int)
    requires q > 1 && 0 <= el < q
    ensures 0 <= r < q && Cong(r, -el, q)
  {
    if el == 0 {
      CongRefl(0, q);
      return 0;
    }
    r := q - el;
    MultipleMod(q, 1);
  }

  /** ScalarElement.Accumulate: one reduction after all additions. */
  method Accumulate(q: int, el: int, elems: seq<int>) returns (r: int)
    requires q > 1
    ensures 0 <= r < q && Cong(r, el + Sum(elems), q)
  {
    var total := el;
    for i := 0 to |elems|
      invariant total == el + Sum(elems[..i])
    {
      assert elems[..i + 1][..i] == elems[..i];
      total := total + elems[i];
    }
    assert elems[..|elems|] == elems;
    r := total % q;
    ModCong(total, q);
  }

  ghost predicate IsSharing(q: int, secret: int, shares: seq<int>) {
    q > 1 && (forall i :: 0 <= i < |shares| ==> 0 <= shares[i] < q) && Cong(Sum(shares), secret, q)
  }

  /** ec.AdditiveShares: whatever the random scalars, the shares are a sharing of the secret, and
      all but the first are the random scalars themselves. */
  method AdditiveShares(q: int, secret: int, random: seq<int>) returns (shares: seq<int>)
    requires q > 1 && 0 <= secret < q && forall i :: 0 <= i < |random| ==> 0 <= random[i] < q
    ensures |shares| == |random| + 1 && shares[1..] == random && IsSharing(q, secret, shares)
  {
    hide Cong, Sum;
    var first := Neg(q, secret);
    ghost var negated := first;
    first := Accumulate(q, first, random);
    ghost var total := first;
    first := Neg(q, first);
    shares := [first] + random;
    SharingAdds(q, secret, negated, total, first, Sum(random));
    SumConcat([first], random);
    SumOne(first);
  }

  lemma SharingAdds(q: int, secret: int, negated: int, total: int, first: int, rest: int)
    requires q > 1 && Cong(negated, -secret, q) && Cong(total, negated + rest, q) && Cong(first, -total, q)
    ensures Cong(first + rest, secret, q)
  {
    hide Cong;
    CongRefl(rest, q);
    CongAdd(negated, -secret, rest, rest, q);
    CongTrans(total, negated + rest, rest - secret, q);
    CongNeg(q, total, rest - secret);
    CongTrans(first, -total, secret - rest, q);
    CongAdd(first, secret - rest, rest, rest, q);
  }

  lemma CongNeg(q: int, x: int, y: int)
    requires q > 1 && Cong(x, y, q)
    ensures Cong(-x, -y, q)
  {
    CongRefl(-1, q);
    CongMul(-1, -1, x, y, q);
  }

  // ----- one member

  /** What becomes of a share: the handler waits for ever once the exchange is completed; otherwise the
      share is added and counted, the one that reaches the threshold starts the Trigger, and any more
      before the Trigger has run are added too and then panic. */
  datatype Receipt = Blocked | Counted | StartTrigger | ThresholdPanic

  /** KeyExchange with its synchronizer. */
  class Participant<!P> {
    const g: Group<P>
    const master: bool
    var secret: int
    var public: P
    var received: nat
    var threshold: nat
    var completed: bool

    constructor (g: Group<P>, master: bool, threshold: nat, secret: int)
      ensures this.g == g && this.master == master && this.threshold == threshold
      ensures this.secret == (if master then secret else 0) && public == g.zero && received == 0 && !completed
    {
      this.g, this.master, this.threshold := g, master, threshold;
      this.secret := if master then secret else 0;
      public, received, completed := g.zero, 0, false;
    }

    function Counting(n: nat): Receipt
      reads this
    {
      if n < threshold then Counted else if n == threshold then StartTrigger else ThresholdPanic
    }

    /** ReceiveKeyShare at a non-master. */
    method ReceiveSecret(share: int) returns (r: Receipt)
      requires !master && g.order > 1
      modifies this`secret, this`received
      ensures r == Blocked <==> completed
      ensures r == Blocked ==> secret == old(secret) && received == old(received)
      ensures r != Blocked ==>
        && received == old(received) + 1 && r == Counting(received)
        && secret == (old(secret) + share) % g.order && 0 <= secret < g.order && Cong(secret, old(secret) + share, g.order)
    {
      if completed { return Blocked; }
      secret := (secret + share) % g.order;
      ModCong(old(secret) + share, g.order);
      received := received + 1;
      r := Counting(received);
    }

    /** ReceiveKeyShare at a master. */
    method ReceivePublic(share: P) returns (r: Receipt)
      requires master
      modifies this`public, this`received
      ensures r == Blocked <==> completed
      ensures r == Blocked ==> public == old(public) && received == old(received)
      ensures r != Blocked ==> received == old(received) + 1 && r == Counting(received) && public == g.add(old(public), share)
    {
      if completed { return Blocked; }
      public := g.add(public, share);
      received := received + 1;
      r := Counting(received);
    }

    /** The Trigger with OnThreshold: from InProgress to Completed, with threshold 0. */
    method Trigger()
      modifies this`received, this`threshold, this`completed
      ensures completed && received == 0 && threshold == 0
    {
      completed, received, threshold := true, 0, 0;
    }
  }

  // ----- the exchange with one non-master group

  datatype Share = Share(to: nat, value: int)

  datatype Step =
    | Split(master: nat, shares: seq<int>)  // a master computes its shares; they are in flight
    | Deliver(i: nat)                       // some share in flight arrives

  /** Sums held and shares received by the members, shares in flight, masters that have shared. */
  datatype State = State(acc: seq<int>, received: seq<nat>, wire: seq<Share>, shared: seq<nat>)

  function Outgoing(shares: seq<int>): (r: seq<Share>)
    ensures |r| == |shares| && forall i :: 0 <= i < |shares| ==> r[i] == Share(i, shares[i])
  {
    seq(|shares|, i requires 0 <= i < |shares| => Share(i, shares[i]))
  }

  function Values(w: seq<Share>): (r: seq<int>)
    ensures |r| == |w| && forall i :: 0 <= i < |w| ==> r[i] == w[i].value
  {
    seq(|w|, i requires 0 <= i < |w| => w[i].value)
  }

  function Dests(w: seq<Share>): (r: seq<int>)
    ensures |r| == |w| && forall i :: 0 <= i < |w| ==> r[i] == w[i].to
  {
    seq(|w|, i requires 0 <= i < |w| => w[i].to)
  }

  datatype Exchange = Exchange(q: int, secrets: seq<int>, members: nat) {
    function Start(): State {
      State(seq(members, i => 0), seq(members, i => 0), [], [])
    }

    /** None when the step is not possible, or when the receiver has had a share from every master: it
        would block or panic. */
    ghost function Apply(st: State, step: Step): Option<State> {
      match step
      case Split(m, shares) =>
        if m < |secrets| && m !in st.shared && |shares| == members && IsSharing(q, secrets[m], shares)
        then Some(st.(wire := st.wire + Outgoing(shares), shared := st.shared + [m])) else None
      case Deliver(i) =>
        if i >= |st.wire| then None else
        var d := st.wire[i].to;
        if q <= 1 || d >= |st.acc| || d >= |st.received| || st.received[d] >= |secrets| then None
        else Some(st.(acc := st.acc[d := (st.acc[d] + st.wire[i].value) % q],
                      received := st.received[d := st.received[d] + 1],
                      wire := Without(st.wire, i)))
    }

    ghost function Run(steps: seq<Step>): Option<State>
      decreases |steps|
    {
      if steps == [] then Some(Start()) else
      match Run(steps[..|steps| - 1])
      case None => None
      case Some(st) => Apply(st, steps[|steps| - 1])
    }

    ghost predicate Sized(st: State) {
      && |st.acc| == members && |st.received| == members
      && (forall i :: 0 <= i < |st.wire| ==> st.wire[i].to < members)
      && (forall i :: 0 <= i < |st.shared| ==> st.shared[i] < |secrets|)
      && multiset(st.shared) <= multiset(Range(|secrets|))
    }

    /** Conservation: what the members hold plus what is in flight is what has been shared. */
    ghost predicate Conserved(st: State)
      requires q > 1 && Sized(st)
    {
      Cong(Sum(st.acc) + Sum(Values(st.wire)), Sum(Permuted(st.shared, secrets)), q)
    }

    /** Every member receives one share from every master that has shared. */
    ghost predicate Counted(st: State)
      requires Sized(st)
    {
      forall d :: 0 <= d < members ==> st.received[d] + multiset(Dests(st.wire))[d] == |st.shared|
    }

    ghost predicate Inv(st: State) {
      q > 1 && Sized(st) && Conserved(st) && Counted(st)
    }
  }

  // ----- initially

  lemma {:induction false} SumZeros(n: nat)
    ensures Sum(seq(n, i => 0)) == 0
  {
    if n > 0 {
      assert seq(n, i => 0)[..n - 1] == seq(n - 1, i => 0);
      SumZeros(n - 1);
    }
  }

  lemma StartInv(x: Exchange)
    requires x.q > 1
    ensures x.Inv(x.Start())
  {
    SumZeros(x.members);
    CongRefl(0, x.q);
    assert Permuted([], x.secrets) == [];
  }

  // ----- a master shares its secret

  lemma OutgoingDests(shares: seq<int>, d: int)
    requires 0 <= d < |shares|
    ensures multiset(Dests(Outgoing(shares)))[d] == 1
  {
    var r: seq<nat> := Range(|shares|);
    RangeCount(|shares|, d);
    assert Dests(Outgoing(shares)) == r;
  }

  lemma AddShared(shared: seq<nat>, m: nat, n: nat)
    requires multiset(shared) <= multiset(Range(n)) && m < n && m !in shared
    ensures multiset(shared + [m]) <= multiset(Range(n))
  {
    RangeCount(n, m);
    assert multiset(shared)[m] == 0;
  }

  lemma SplitConserves(x: Exchange, acc: int, wire: seq<Share>, shared: seq<nat>, m: nat, shares: seq<int>)
    requires x.q > 1 && m < |x.secrets| && IsSharing(x.q, x.secrets[m], shares)
    requires forall i :: 0 <= i < |shared| ==> shared[i] < |x.secrets|
    requires Cong(acc + Sum(Values(wire)), Sum(Permuted(shared, x.secrets)), x.q)
    ensures Cong(acc + Sum(Values(wire + Outgoing(shares))), Sum(Permuted(shared + [m], x.secrets)), x.q)
  {
    hide Cong, Sum;
    var more := Outgoing(shares);
    assert Values(more) == shares;
    assert Values(wire + more) == Values(wire) + shares;
    assert Permuted(shared + [m], x.secrets) == Permuted(shared, x.secrets) + [x.secrets[m]];
    SumConcat(Values(wire), shares);
    SumConcat(Permuted(shared, x.secrets), [x.secrets[m]]);
    SumOne(x.secrets[m]);
    CongAdd(acc + Sum(Values(wire)), Sum(Permuted(shared, x.secrets)), Sum(shares), x.secrets[m], x.q);
  }

  lemma SplitCounts(x: Exchange, st: State, m: nat, shares: seq<int>)
    requires x.Sized(st) && x.Counted(st) && |shares| == x.members
    ensures forall d :: 0 <= d < x.members ==>
      st.received[d] + multiset(Dests(st.wire + Outgoing(shares)))[d] == |st.shared + [m]|
  {
    forall d | 0 <= d < x.members
      ensures st.received[d] + multiset(Dests(st.wire + Outgoing(shares)))[d] == |st.shared + [m]|
    {
      assert Dests(st.wire + Outgoing(shares)) == Dests(st.wire) + Dests(Outgoing(shares));
      OutgoingDests(shares, d);
    }
  }

  // ----- a share arrives

  lemma SumUpdate(a: seq<int>, d: nat, v: int)
    requires d < |a|
    ensures Sum(a[d := v]) == Sum(a) - a[d] + v
  {
    hide Sum;
    SumWithout(a, d);
    SumWithout(a[d := v], d);
    assert a[d := v][..d] == a[..d] && a[d := v][d + 1..] == a[d + 1..];
  }

  lemma ReducedMove(q: int, rest: int, a: int, v: int, w: int, total: int)
    requires q > 1 && Cong(rest + a + (w + v), total, q)
    ensures Cong(rest + (a + v) % q + w, total, q)
  {
    hide Cong;
    ModCong(a + v, q);
    CongRefl(rest + w, q);
    CongAdd((a + v) % q, a + v, rest + w, rest + w, q);
    CongTrans(rest + (a + v) % q + w, rest + a + (w + v), total, q);
  }

  lemma DeliverConserves(q: int, acc: seq<int>, wire: seq<Share>, i: nat, total: int)
    requires q > 1 && i < |wire| && wire[i].to < |acc|
    requires Cong(Sum(acc) + Sum(Values(wire)), total, q)
    ensures var d := wire[i].to;
            Cong(Sum(acc[d := (acc[d] + wire[i].value) % q]) + Sum(Values(Without(wire, i))), total, q)
  {
    hide Cong, Sum;
    var d, v := wire[i].to, wire[i].value;
    SumUpdate(acc, d, (acc[d] + v) % q);
    SumWithout(Values(wire), i);
    assert Values(Without(wire, i)) == Values(wire)[..i] + Values(wire)[i + 1..];
    ReducedMove(q, Sum(acc) - acc[d], acc[d], v, Sum(Values(Without(wire, i))), total);
  }

  lemma DeliverCounts(wire: seq<Share>, i: nat, d: nat)
    requires i < |wire|
    ensures multiset(Dests(wire))[d] == multiset(Dests(Without(wire, i)))[d] + (if wire[i].to == d then 1 else 0)
  {
    MultisetWithout(Dests(wire), i);
    assert Dests(Without(wire, i)) == Dests(wire)[..i] + Dests(wire)[i + 1..];
    assert wire[i].to in multiset(Dests(wire)) by { assert Dests(wire)[i] == wire[i].to; }
  }

  lemma DeliverKeeps(x: Exchange, st: State, i: nat)
    requires x.Inv(st) && x.Apply(st, Deliver(i)).Some?
    ensures x.Inv(x.Apply(st, Deliver(i)).value)
  {
    hide Cong, Sum, IsSharing;
    var st' := x.Apply(st, Deliver(i)).value;
    DeliverConserves(x.q, st.acc, st.wire, i, Sum(Permuted(st.shared, x.secrets)));
    forall d | 0 <= d < x.members
      ensures st'.received[d] + multiset(Dests(st'.wire))[d] == |st'.shared|
    {
      DeliverCounts(st.wire, i, d);
    }
  }

  lemma SplitKeeps(x: Exchange, st: State, m: nat, shares: seq<int>)
    requires x.Inv(st) && x.Apply(st, Split(m, shares)).Some?
    ensures x.Inv(x.Apply(st, Split(m, shares)).value)
  {
    hide Cong, Sum, IsSharing;
    SplitConserves(x, Sum(st.acc), st.wire, st.shared, m, shares);
    SplitCounts(x, st, m, shares);
    AddShared(st.shared, m, |x.secrets|);
  }

  // ----- main results

  /** Every reachable state: conservation, and no member ever receives more shares than there are masters. */
  lemma {:induction false} ExchangeConserves(x: Exchange, steps: seq<Step>)
    requires x.q > 1 && x.Run(steps).Some?
    ensures x.Inv(x.Run(steps).value)
    ensures forall d :: 0 <= d < x.members ==> x.Run(steps).value.received[d] <= |x.secrets|
    decreases |steps|
  {
    if steps == [] {
      StartInv(x);
    } else {
      var st := x.Run(steps[..|steps| - 1]).value;
      ExchangeConserves(x, steps[..|steps| - 1]);
      match steps[|steps| - 1] {
        case Split(m, shares) => SplitKeeps(x, st, m, shares);
        case Deliver(i) => DeliverKeeps(x, st, i);
      }
    }
    hide Exchange.Conserved;
    NotMore(x.Run(steps).value.shared, |x.secrets|);
  }

  /** No share in flight is ever refused. */
  lemma NoShareRefused(x: Exchange, steps: seq<Step>, i: nat)
    requires x.q > 1 && x.Run(steps).Some? && i < |x.Run(steps).value.wire|
    ensures x.Apply(x.Run(steps).value, Deliver(i)).Some?
  {
    ExchangeConserves(x, steps);
    hide Exchange.Run, Exchange.Conserved;
    var st := x.Run(steps).value;
    NotMore(st.shared, |x.secrets|);
    DeliverCounts(st.wire, i, st.wire[i].to);
  }

  /** When every member's synchronizer has reached its threshold, nothing is in flight and the
      members' secrets add up to the masters'. */
  lemma ExchangeCompletes(x: Exchange, steps: seq<Step>, st: State)
    requires x.q > 1 && x.members > 0 && x.Run(steps) == Some(st)
    requires forall c :: c in st.received ==> c == |x.secrets|
    ensures st.wire == []
    ensures Cong(Sum(st.acc), Sum(x.secrets), x.q)
  {
    ExchangeConserves(x, steps);
    hide Exchange.Run, Cong, Sum;
    NotMore(st.shared, |x.secrets|);
    assert st.received[0] in st.received;
    NothingInFlight(x, st);
    assert Sum(Values(st.wire)) == 0 by { SumZeros(0); assert Values(st.wire) == seq(0, i => 0); }
    EveryMaster(x, st.shared);
  }

  lemma NothingInFlight(x: Exchange, st: State)
    requires x.Sized(st) && x.Counted(st) && |st.shared| <= |x.secrets|
    requires forall c :: c in st.received ==> c == |x.secrets|
    ensures st.wire == []
  {
    if st.wire != [] {
      var d := st.wire[0].to;
      assert st.received[d] in st.received;
      DeliverCounts(st.wire, 0, d);
    }
  }

  lemma EveryMaster(x: Exchange, shared: seq<nat>)
    requires multiset(shared) <= multiset(Range(|x.secrets|)) && |shared| == |x.secrets|
    requires forall i :: 0 <= i < |shared| ==> shared[i] < |x.secrets|
    ensures Sum(Permuted(shared, x.secrets)) == Sum(x.secrets)
  {
    hide Sum;
    var n := |x.secrets|;
    assert |multiset(shared)| == n && |multiset(Range(n))| == n;
    SubmultisetOfSameSize(multiset(shared), multiset(Range(n)));
    PermutedMultiset(shared, x.secrets);
    SumOfMultiset(Permuted(shared, x.secrets), x.secrets);
  }

  /** A master adds up the public shares in any order of arrival; the result is the public key of the
      sum of the secrets, which is also what the members' accumulated secrets have. */
  lemma PublicKeyMatches<P(!new)>(x: Exchange, g: Group<P>, base: P, arrival: seq<nat>, steps: seq<Step>)
    requires GroupLaws(g) && x.q == g.order && IsPerm(arrival, |x.secrets|)
    requires x.members > 0 && x.Run(steps).Some?
    requires forall c :: c in x.Run(steps).value.received ==> c == |x.secrets|
    ensures forall i :: 0 <= i < |arrival| ==> arrival[i] < |x.secrets|
    ensures var key := Accumulated(g, Multiples(g, Permuted(arrival, x.secrets), base));
            && key == g.mul(Sum(x.secrets), base)
            && key == Accumulated(g, Multiples(g, x.Run(steps).value.acc, base))
  {
    hide Sum, Cong, Exchange.Run, Accumulated, Multiples;
    CongRefl(Sum(x.secrets), x.q);
    AnyOrder(g, x.secrets, Sum(x.secrets), arrival, base);
    ExchangeCompletes(x, steps, x.Run(steps).value);
    var acc := x.Run(steps).value.acc;
    AccumulatedMultiples(g, acc, base);
    MulCong(g, Sum(acc), Sum(x.secrets), base);
  }
}
