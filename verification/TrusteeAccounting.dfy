/** The key table of a group member (server/checkpoint/checkpoint.go) over arbitrary messages, good or
    bad: what the count means, and when all signatures are accounted for. */
module TrusteeAccounting {
  import opened ByteStrings
  import opened Sets
  import opened Sigcryption
  import opened PrepareMessages
  import opened ProcessMessages
  import opened GroupMembers

  ghost function Marked(m: Member): set<Bytes> {
    set k | k in m.keys && m.keys[k]
  }

  /** The count is the number of marked keys, and each recorded message used up one of them. */
  ghost predicate Accounted(m: Member) {
    m.count == |Marked(m)| && |m.finals| <= m.count
  }

  /** Every message, accepted or not, keeps the account. A key is marked and counted once, at the first
      message that names it, whether or not its signature is good. */
  lemma HandleAccounts(net: Net, m: Member, data: Bytes)
    requires Accounted(m) && |data| >= KEY_SIZE + SIGNATURE_SIZE
    ensures var (m', e) := HandleTrustee(net, m, data);
            var key := data[..KEY_SIZE];
            && Accounted(m') && m'.keys.Keys == m.keys.Keys
            && Marked(m') == Marked(m) + (if key in m.keys then {key} else {})
            && |m'.finals| == |m.finals| + (if e.None? then 1 else 0)
            && (e == Some(DecryptionFailure) ==> key !in Marked(m) && m'.count == m.count + 1 && m'.finals == m.finals)
  {
    var (m', e) := HandleTrustee(net, m, data);
    var key := data[..KEY_SIZE];
    if key in m.keys && !m.keys[key] {
      assert Marked(m') == Marked(m) + {key};
    } else {
      assert m' == m;
    }
  }

  /** Any messages, one after the other; errors are reported and the table is kept. */
  function Feed(net: Net, m: Member, msgs: seq<Bytes>): Member
    requires forall i :: 0 <= i < |msgs| ==> |msgs[i]| >= KEY_SIZE + SIGNATURE_SIZE
  {
    if msgs == [] then m else HandleTrustee(net, Feed(net, m, msgs[..|msgs| - 1]), msgs[|msgs| - 1]).0
  }

  ghost function Named(m: Member, msgs: seq<Bytes>): set<Bytes>
    requires forall i :: 0 <= i < |msgs| ==> |msgs[i]| >= KEY_SIZE + SIGNATURE_SIZE
  {
    set i: nat | i < |msgs| && msgs[i][..KEY_SIZE] in m.keys :: msgs[i][..KEY_SIZE]
  }

  /** Over any messages the count equals the number of marked keys: those marked before and those named
      by a message, each once. */
  lemma {:induction false} FeedAccounts(net: Net, m: Member, msgs: seq<Bytes>)
    requires Accounted(m) && forall i :: 0 <= i < |msgs| ==> |msgs[i]| >= KEY_SIZE + SIGNATURE_SIZE
    ensures var m' := Feed(net, m, msgs);
            && Accounted(m') && m'.keys.Keys == m.keys.Keys && Marked(m') == Marked(m) + Named(m, msgs)
            && m.count <= m'.count <= |m'.keys|
    decreases |msgs|
  {
    if msgs == [] {
      assert Named(m, msgs) == {};
    } else {
      hide Marked, Named, Accounted, Feed;
      FeedAccounts(net, m, msgs[..|msgs| - 1]);
      FeedStep(net, m, msgs);
    }
    hide Marked, Named, Accounted, Feed;
    CountBound(Feed(net, m, msgs));
    CountGrows(m, Feed(net, m, msgs));
  }

  lemma FeedStep(net: Net, m: Member, msgs: seq<Bytes>)
    requires msgs != [] && forall i :: 0 <= i < |msgs| ==> |msgs[i]| >= KEY_SIZE + SIGNATURE_SIZE
    requires var before := msgs[..|msgs| - 1];
             var m1 := Feed(net, m, before);
             Accounted(m1) && m1.keys.Keys == m.keys.Keys && Marked(m1) == Marked(m) + Named(m, before)
    ensures var m2 := Feed(net, m, msgs);
            Accounted(m2) && m2.keys.Keys == m.keys.Keys && Marked(m2) == Marked(m) + Named(m, msgs)
  {
    hide HandleTrustee, Marked, Named, Accounted;
    HandleAccounts(net, Feed(net, m, msgs[..|msgs| - 1]), msgs[|msgs| - 1]);
    NamedStep(m, msgs);
  }

  lemma CountGrows(m: Member, m': Member)
    requires Accounted(m) && Accounted(m') && Marked(m) <= Marked(m')
    ensures m.count <= m'.count
  {
    Monotone(Marked(m), Marked(m'));
  }

  lemma NamedStep(m: Member, msgs: seq<Bytes>)
    requires msgs != [] && forall i :: 0 <= i < |msgs| ==> |msgs[i]| >= KEY_SIZE + SIGNATURE_SIZE
    ensures var key := msgs[|msgs| - 1][..KEY_SIZE];
            Named(m, msgs) == Named(m, msgs[..|msgs| - 1]) + if key in m.keys then {key} else {}
  {
    var n := |msgs| - 1;
    var key := msgs[n][..KEY_SIZE];
    forall k ensures k in Named(m, msgs) <==> k in Named(m, msgs[..n]) || (k == key && key in m.keys) {
      if k in Named(m, msgs[..n]) {
        var i: nat :| i < n && msgs[..n][i][..KEY_SIZE] == k && k in m.keys;
        assert msgs[i][..KEY_SIZE] == k;
      }
      if k in Named(m, msgs) {
        var i: nat :| i < |msgs| && msgs[i][..KEY_SIZE] == k && k in m.keys;
        if i < n { assert msgs[..n][i][..KEY_SIZE] == k; }
      }
      if k == key && key in m.keys { assert msgs[n][..KEY_SIZE] == k; }
    }
  }

  lemma CountBound(m: Member)
    requires Accounted(m)
    ensures m.count <= |m.keys|
  {
    Monotone(Marked(m), m.keys.Keys);
    assert |m.keys| == |m.keys.Keys|;
  }

  /** AllSignaturesAccountedFor says exactly that every key is marked. */
  lemma AllAccountedIff(m: Member)
    requires Accounted(m)
    ensures AllSignaturesAccountedFor(m) <==> forall k :: k in m.keys ==> m.keys[k]
  {
    assert |m.keys| == |m.keys.Keys|;
    if k :| k in m.keys && !m.keys[k] {
      Monotone(Marked(m), m.keys.Keys - {k});
    } else {
      assert Marked(m) == m.keys.Keys;
    }
  }

  /** A round is accounted for iff every key was named by some message, with a good signature or not. */
  lemma RoundAccountedIff(net: Net, m: Member, msgs: seq<Bytes>)
    requires forall i :: 0 <= i < |msgs| ==> |msgs[i]| >= KEY_SIZE + SIGNATURE_SIZE
    ensures AllSignaturesAccountedFor(Feed(net, NewRound(m), msgs)) <==> Named(m, msgs) == m.keys.Keys
  {
    var m0 := NewRound(m);
    NewRoundAccounts(m);
    FeedAccounts(net, m0, msgs);
    AllAccountedIff(Feed(net, m0, msgs));
    hide Feed;
    assert Named(m0, msgs) == Named(m, msgs);
    var m' := Feed(net, m0, msgs);
    assert (forall k :: k in m'.keys ==> m'.keys[k]) <==> Marked(m') == m'.keys.Keys;
  }

  // ----- when nothing is lost

  /** The signature in a message is good. */
  ghost predicate Good(net: Net, data: Bytes)
    requires |data| >= KEY_SIZE + SIGNATURE_SIZE
  {
    net.s.verify(data[..KEY_SIZE], data[KEY_SIZE + SIGNATURE_SIZE..], data[KEY_SIZE..KEY_SIZE + SIGNATURE_SIZE])
  }

  /** Message i is the first to name a key that is known and was not marked. */
  ghost predicate FirstToName(m: Member, msgs: seq<Bytes>, i: nat)
    requires i < |msgs| && forall j :: 0 <= j < |msgs| ==> |msgs[j]| >= KEY_SIZE + SIGNATURE_SIZE
  {
    && msgs[i][..KEY_SIZE] in m.keys && msgs[i][..KEY_SIZE] !in Marked(m)
    && forall j :: 0 <= j < i ==> msgs[j][..KEY_SIZE] != msgs[i][..KEY_SIZE]
  }

  ghost predicate FirstAreGood(net: Net, m: Member, msgs: seq<Bytes>)
    requires forall j :: 0 <= j < |msgs| ==> |msgs[j]| >= KEY_SIZE + SIGNATURE_SIZE
  {
    forall i :: 0 <= i < |msgs| && FirstToName(m, msgs, i) ==> Good(net, msgs[i])
  }

  lemma FirstStep(net: Net, m: Member, msgs: seq<Bytes>)
    requires msgs != [] && forall j :: 0 <= j < |msgs| ==> |msgs[j]| >= KEY_SIZE + SIGNATURE_SIZE
    ensures var n := |msgs| - 1;
            FirstAreGood(net, m, msgs) <==>
            FirstAreGood(net, m, msgs[..n]) && (FirstToName(m, msgs, n) ==> Good(net, msgs[n]))
  {
    hide Good, Marked;
    var n := |msgs| - 1;
    forall i: nat | i < n ensures FirstToName(m, msgs, i) <==> FirstToName(m, msgs[..n], i) {
      assert msgs[..n][i] == msgs[i];
      assert forall j :: 0 <= j < i ==> msgs[..n][j] == msgs[j];
    }
    assert forall i :: 0 <= i < n ==> msgs[..n][i] == msgs[i];
    hide FirstToName;
  }

  /** The last message is the first to name its key iff its key is unmarked when it arrives. */
  lemma FirstIsUnmarked(m: Member, msgs: seq<Bytes>)
    requires msgs != [] && forall j :: 0 <= j < |msgs| ==> |msgs[j]| >= KEY_SIZE + SIGNATURE_SIZE
    ensures var n := |msgs| - 1;
            var key := msgs[n][..KEY_SIZE];
            FirstToName(m, msgs, n) <==> key in m.keys && key !in Marked(m) + Named(m, msgs[..n])
  {
    var n := |msgs| - 1;
    var key := msgs[n][..KEY_SIZE];
    assert forall j :: 0 <= j < n ==> msgs[..n][j][..KEY_SIZE] == msgs[j][..KEY_SIZE];
    if key in m.keys {
      assert key in Named(m, msgs[..n]) <==> exists j: nat :: j < n && msgs[..n][j][..KEY_SIZE] == key;
    }
  }

  /** One message: counted iff its key is known and unmarked, recorded iff its signature is good too. */
  lemma HandleOutcome(net: Net, m: Member, data: Bytes)
    requires |data| >= KEY_SIZE + SIGNATURE_SIZE
    ensures var (m', e) := HandleTrustee(net, m, data);
            var unmarked := data[..KEY_SIZE] in m.keys && data[..KEY_SIZE] !in Marked(m);
            && m'.count == m.count + (if unmarked then 1 else 0)
            && |m'.finals| == |m.finals| + if unmarked && Good(net, data) then 1 else 0
  {}

  /** Exactly when no counted message is lost: every message that is the first to name a known, unmarked
      key has a good signature. */
  lemma {:induction false} NothingLost(net: Net, m: Member, msgs: seq<Bytes>)
    requires Accounted(m) && |m.finals| == m.count
    requires forall i :: 0 <= i < |msgs| ==> |msgs[i]| >= KEY_SIZE + SIGNATURE_SIZE
    ensures var m' := Feed(net, m, msgs); |m'.finals| <= m'.count
    ensures var m' := Feed(net, m, msgs); |m'.finals| == m'.count <==> FirstAreGood(net, m, msgs)
    decreases |msgs|
  {
    if msgs != [] {
      hide Marked, Named, Accounted, HandleTrustee, Good, FirstAreGood, FirstToName;
      var n := |msgs| - 1;
      NothingLost(net, m, msgs[..n]);
      FeedAccounts(net, m, msgs[..n]);
      HandleOutcome(net, Feed(net, m, msgs[..n]), msgs[n]);
      FirstStep(net, m, msgs);
      FirstIsUnmarked(m, msgs);
    }
  }

  /** So a round records one message for every key if and only if every key was named, and the first
      message to name it had a good signature. */
  lemma RoundCompleteIff(net: Net, m: Member, msgs: seq<Bytes>)
    requires forall i :: 0 <= i < |msgs| ==> |msgs[i]| >= KEY_SIZE + SIGNATURE_SIZE
    ensures var m' := Feed(net, NewRound(m), msgs);
            AllSignaturesAccountedFor(m') && |m'.finals| == |m'.keys| <==>
            Named(m, msgs) == m.keys.Keys && FirstAreGood(net, NewRound(m), msgs)
  {
    hide Marked, Named, Accounted, Feed, FirstAreGood;
    NewRoundAccounts(m);
    RoundAccountedIff(net, m, msgs);
    NothingLost(net, NewRound(m), msgs);
  }

  /** So the count alone does not see a bad signature: the key is accounted for, its message is lost. */
  lemma BadSignatureCounts(net: Net, m: Member, data: Bytes)
    requires |data| >= KEY_SIZE + SIGNATURE_SIZE && m.keys.Keys == {data[..KEY_SIZE]}
    requires !net.s.verify(data[..KEY_SIZE], data[KEY_SIZE + SIGNATURE_SIZE..], data[KEY_SIZE..KEY_SIZE + SIGNATURE_SIZE])
    ensures var (m', e) := HandleTrustee(net, NewRound(m), data);
            e == Some(DecryptionFailure) && AllSignaturesAccountedFor(m') && m'.finals == []
  {
    var m0 := NewRound(m);
    assert m0.keys.Keys == {data[..KEY_SIZE]};
    assert |m0.keys| == |m0.keys.Keys| == 1;
    var (m', e) := HandleTrustee(net, m0, data);
    assert m'.keys.Keys == m0.keys.Keys;
    assert |m'.keys| == |m'.keys.Keys|;
  }

  /** NewLightningRound balances the account whatever it was. */
  lemma NewRoundAccounts(m: Member)
    ensures Accounted(NewRound(m)) && Marked(NewRound(m)) == {} && NewRound(m).keys.Keys == m.keys.Keys
  {
    assert Marked(NewRound(m)) == {};
  }

  /** Add keeps the account if and only if the key was not marked: entering a used key again clears its
      mark but not its count. */
  lemma AddAccounts(m: Member, key: Bytes)
    requires Accounted(m)
    ensures var m' := m.(keys := m.keys[key := false]);
            Accounted(m') <==> key !in Marked(m)
  {
    var m' := m.(keys := m.keys[key := false]);
    assert Marked(m') == Marked(m) - {key};
  }
}
