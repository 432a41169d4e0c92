/** The guarantees of the rotation, stated over every run: finality, agreement, no discretion, honest settlement. */
module Protocol {
  import opened Prelude
  import opened Circles
  import opened Rotation
  import opened Race
  import opened Gates
  import opened Writers
  import opened Chain
  import opened Finality

  // ── Finality, whatever the view ────────────────────────────────────────────

  lemma ViewLocks(w: World, view: seq<ShareState>, policy: Policy, parent: Id)
    requires Elements(view) == Elements(w.shares)
    ensures LocksOf(policy, parent, view) == LocksOf(policy, parent, w.shares)
  {
    forall e
      ensures e in view <==> e in w.shares
    {
      assert e in Elements(view) <==> e in Elements(w.shares);
    }
  }

  /** A permuted or repeating list of the same shares gives the same order and collectors. */
  lemma ViewsAgree(w: World, view: seq<ShareState>, a: CircleState, r: int)
    requires Structured(w) && Elements(view) == Elements(w.shares)
    ensures SealedOrder(a, view) == SealedOrder(a, w.shares)
    ensures CollectorOf(CycleOf(a, view), view, r) == CollectorOf(CycleOf(a, w.shares), w.shares, r)
  {
    hide SealedOrder, Collectors, Structured;
    WorldSharesAreLawful(w);
    forall e
      ensures e in view <==> e in w.shares
    {
      assert e in Elements(view) <==> e in Elements(w.shares);
    }
    ViewLocks(w, view, ShareV1, a.id);
    OrderFromLocks(a, view, w.shares);
    forall k | 2 <= k <= r
      ensures LocksOf(PreviousPolicy(k), PreviousId(a.id, k), view)
          == LocksOf(PreviousPolicy(k), PreviousId(a.id, k), w.shares)
    {
      ViewLocks(w, view, PreviousPolicy(k), PreviousId(a.id, k));
    }
    CollectorsFromLocks(CycleOf(a, w.shares), view, w.shares, r);
  }

  /** Finality. Take any run, any later continuation of it, and any listing of the shares at either time. Once
      the fill deadline of the round before r has passed, both listings give the same sealed order and the same
      collector for every round up to r. */
  lemma SealedForGood(start: int, past: seq<Event>, future: seq<Event>, a: CircleState, r: int, k: int,
                      before: seq<ShareState>, after: seq<ShareState>)
    requires var w := Replay(Genesis(start), past);
             && a in w.circles && CanAnchor(a, None) && 2 <= k <= r && w.now >= DeadlineOf(a, r - 1)
             && Elements(before) == Elements(w.shares) && Elements(after) == Elements(Replay(w, future).shares)
    ensures SealedOrder(a, before) == SealedOrder(a, after)
    ensures CollectorOf(CycleOf(a, before), before, k) == CollectorOf(CycleOf(a, after), after, k)
  {
    hide SealedOrder, Collectors, Structured, Grew, Replay;
    var w := Replay(Genesis(start), past);
    var x := Replay(w, future);
    EveryRunIsGood(start, past);
    ReplayKeepsGood(w, future);
    ReplayGrows(w, future);
    EarlierDeadlinesPassed(a, k - 1, r - 1, w.now);
    CollectorIsFrozen(w, x, a, k);
    ViewsAgree(w, before, a, k);
    ViewsAgree(x, after, a, k);
  }

  /** No open round is stuck: in every run, a collection round that exists has a collector, who is a sealed
      member, has not collected before, and is the seated host only in the last round. */
  lemma EveryOpenRoundHasItsCollector(start: int, evs: seq<Event>, c: CircleState) returns (a: CircleState)
    requires var w := Replay(Genesis(start), evs);
             c in w.circles && RotationRound(c.terms)
    ensures var w := Replay(Genesis(start), evs);
            var cy := CycleOf(a, w.shares);
            var r := c.terms.roundIndex;
            && c.id == RoundOf(a.id, r) && a in w.circles
            && CollectorOf(cy, w.shares, r).Some?
            && var m := CollectorOf(cy, w.shares, r).value;
               && m in cy.order
               && (forall k :: 2 <= k < r ==>
                   CollectorOf(cy, w.shares, k).Some? && CollectorOf(cy, w.shares, k).value != m)
               && (m == a.creator ==> r == |cy.order| + 1)
  {
    hide SealedOrder, Structured, Lawful, Replay;
    var w := Replay(Genesis(start), evs);
    EveryRunIsGood(start, evs);
    a := AnchorOfRound(w, c);
    CollectorStandsAlone(CycleOf(a, w.shares), w.shares, c.terms.roundIndex);
  }

  lemma CollectorStandsAlone(cy: Cycle, shares: seq<ShareState>, r: int)
    requires CollectorOf(cy, shares, r).Some?
    ensures var m := CollectorOf(cy, shares, r).value;
            && m in cy.order
            && (forall k :: 2 <= k < r ==> CollectorOf(cy, shares, k).Some? && CollectorOf(cy, shares, k).value != m)
            && (m == cy.host ==> r == |cy.order| + 1)
  {
    var c := Collectors(cy, shares, r).value;
    CollectorsAreDistinct(cy, shares, r);
    assert c[|c| - 1] in Elements(c);
    forall k | 2 <= k < r
      ensures CollectorOf(cy, shares, k).Some? && CollectorOf(cy, shares, k).value != c[|c| - 1]
    {
      CollectorAt(cy, shares, k, r);
    }
  }

  // ── One lawful outcome ─────────────────────────────────────────────────────

  /** Every rotation share of every run is where the outcome law expects it. */
  lemma SharesArePlaced(w: World, e: ShareState)
    requires Good(w) && e in w.shares && e.policy == ShareV2
    ensures Placed(e, w.View())
  {
    hide SealedOrder, Lawful, Collectors;
    var c := RoundOfShare(w, e);
    var a := AnchorOfRound(w, c);
    var claim := Claim(e.parent, e.circle.roundIndex);
    OnlyItsAnchorSeals(w, c, a);
    SealedOrderIsDistinct(a, w.shares);
    CollectorStandsAlone(CycleOf(a, w.shares), w.shares, e.circle.roundIndex);
    forall m | m in LockedMembers(w.shares, e.parent)
      ensures m in Elements(SealedOrder(a, w.shares)) - {e.seller}
    {
      var f :| f in w.shares && f.policy == ShareV2 && f.parent == e.parent && f.lockedAt.Some? && f.buyer == m;
      var d := RoundOfShare(w, f);
    }
  }

  lemma OnlyItsAnchorSeals(w: World, c: CircleState, a: CircleState)
    requires Good(w) && c in w.circles && RotationRound(c.terms) && AnchorOf(w.circles, c.id) == Some(a)
    requires a in w.circles && CanAnchor(a, None) && c.id == RoundOf(a.id, c.terms.roundIndex)
    ensures RotationFrom(w.View(), Some(Claim(c.id, c.terms.roundIndex))) == Ok(Sealed(a, SealedOrder(a, w.shares)))
  {
    hide SealedOrder, Lawful, Collectors;
    var claim := Some(Claim(c.id, c.terms.roundIndex));
    assert RoundSealed(c, a, w.shares);
    assert Seals(a, w.shares, claim);
    ScanFindsFirst(w.circles, w.shares, claim, NoRoundOne);
    FirstSpec(SealsIn(w.shares, claim), w.circles);
    var i := FirstSealing(w.circles, w.shares, claim);
    var j :| 0 <= j < |w.circles| && w.circles[j] == a;
    assert i <= j;
    assert w.circles[i].id == a.id;
  }

  lemma LawfulThreshold(t: Terms, at: int)
    requires Lawful(t, at)
    ensures t.seatThreshold >= 2
  {
  }

  /** Whoever locked a collection round is a sealed member other than its collector. */
  lemma LockersAreExpected(w: World, c: CircleState, a: CircleState)
    requires Good(w) && c in w.circles && RotationRound(c.terms) && AnchorOf(w.circles, c.id) == Some(a)
    requires CollectorOf(CycleOf(a, w.shares), w.shares, c.terms.roundIndex).Some?
    ensures LockedMembers(w.shares, c.id)
         <= Elements(SealedOrder(a, w.shares)) - {CollectorOf(CycleOf(a, w.shares), w.shares, c.terms.roundIndex).value}
  {
    hide SealedOrder, Lawful, Collectors;
    FindUnique(w.circles, c);
    forall m | m in LockedMembers(w.shares, c.id)
      ensures m in Elements(SealedOrder(a, w.shares))
      ensures Some(m) != CollectorOf(CycleOf(a, w.shares), w.shares, c.terms.roundIndex)
    {
      var e :| e in w.shares && e.policy == ShareV2 && e.parent == c.id && e.lockedAt.Some? && e.buyer == m;
      assert ShareFits(e, w.circles, w.now);
      assert SeatSealed(e, a, w.shares);
    }
  }

  lemma SealedThreshold(w: World, c: CircleState, a: CircleState)
    requires Good(w) && c in w.circles && RotationRound(c.terms) && AnchorOf(w.circles, c.id) == Some(a)
    ensures c.terms.seatThreshold == |SealedOrder(a, w.shares)| - 1 >= 2
    ensures CollectorOf(CycleOf(a, w.shares), w.shares, c.terms.roundIndex).Some?
  {
    hide SealedOrder, Lawful, Collectors;
    assert RoundSealed(c, a, w.shares);
    assert CircleFits(c, w.circles, w.now);
    LawfulThreshold(c.terms, c.createdAt);
  }

  /** Counting the lockers of a collection round against its threshold says the same as checking every expected
      member by name. */
  lemma FilledByCount(w: World, c: CircleState, a: CircleState)
    requires Good(w) && c in w.circles && RotationRound(c.terms) && AnchorOf(w.circles, c.id) == Some(a)
    requires c.id == RoundOf(a.id, c.terms.roundIndex)
    ensures c.terms.seatThreshold >= 2
    ensures |EvidenceOf(c.id, w.shares)| >= c.terms.seatThreshold
        <==> RoundFilled(CycleOf(a, w.shares), w.shares, c.terms.roundIndex)
  {
    hide SealedOrder, Lawful, Collectors, Good, RoundSealed, RoundFilled, LockedMembers;
    var cy, r := CycleOf(a, w.shares), c.terms.roundIndex;
    SealedThreshold(w, c, a);
    SealedOrderIsDistinct(a, w.shares);
    DistinctCount(cy.order);
    CollectorStandsAlone(cy, w.shares, r);
    var collector := CollectorOf(cy, w.shares, r).value;
    var expected, locked := Elements(cy.order) - {collector}, LockedMembers(w.shares, c.id);
    LockersAreExpected(w, c, a);
    DistinctCount(EvidenceOf(c.id, w.shares));
    SubsetSize(locked, expected);
    assert |EvidenceOf(c.id, w.shares)| == |locked| && |expected| == c.terms.seatThreshold;
    if expected <= locked {
      SubsetSize(expected, locked);
    }
    LockedByName(cy, w.shares, r, collector);
    assert c.id == RoundOf(cy.anchor, r);
  }

  lemma LockedByName(cy: Cycle, shares: seq<ShareState>, r: int, collector: Pubkey)
    requires CollectorOf(cy, shares, r) == Some(collector)
    ensures RoundFilled(cy, shares, r)
        <==> Elements(cy.order) - {collector} <= LockedMembers(shares, RoundOf(cy.anchor, r))
  {
    hide Collectors;
    var roundId := RoundOf(cy.anchor, r);
    forall m
      ensures m in LockedMembers(shares, roundId)
          <==> exists x :: x in LocksOf(ShareV2, roundId, shares) && x.member == m
    {
      if m in LockedMembers(shares, roundId) {
        var e :| e in shares && e.policy == ShareV2 && e.parent == roundId && e.lockedAt.Some? && e.buyer == m;
        assert Racer(m, e.lockedAt.value) in LocksOf(ShareV2, roundId, shares);
      }
    }
    if Elements(cy.order) - {collector} <= LockedMembers(shares, roundId) {
      forall m | m in cy.order && m != collector
        ensures exists x :: x in LocksOf(ShareV2, roundId, shares) && x.member == m
      {
        assert m in Elements(cy.order) - {collector};
      }
    }
    if RoundFilled(cy, shares, r) {
      forall m | m in Elements(cy.order) - {collector}
        ensures m in LockedMembers(shares, roundId)
      {
      }
    }
  }

  /** In every run both forms of the outcome gate agree on every rotation share, and each admits exactly the
      one lawful outcome. */
  lemma OneLawfulOutcome(start: int, evs: seq<Event>, e: ShareState, outcome: Outcome, at: int)
    requires e in Replay(Genesis(start), evs).shares && e.policy == ShareV2
    ensures var cycle := Replay(Genesis(start), evs).View();
            var evidence := EvidenceOf(e.parent, cycle.shares);
            && (OutcomeError(e, outcome, at, Some(cycle), Intent, None) == None
                <==> LawfulOutcome(e, cycle, at) == (if outcome == Release then MustRelease else MustRefund))
            && (|evidence| <= 128 ==>
                  (OutcomeError(e, outcome, at, Some(cycle), Finalize, Some(evidence)) == None
                   <==> OutcomeError(e, outcome, at, Some(cycle), Intent, None) == None))
  {
    hide Replay, Good, Placed, OutcomeError;
    var w := Replay(Genesis(start), evs);
    EveryRunIsGood(start, evs);
    SharesArePlaced(w, e);
    EvidenceAgreement(e, w.View(), outcome, at);
    NoDiscretion(e, w.View(), at);
  }

  lemma LockersGrow(v: World, w: World, e: ShareState)
    requires Grew(v, w) && Structured(w) && e in w.shares
    ensures LockedMembers(v.shares, e.parent) <= LockedMembers(w.shares, e.parent)
    ensures v.now >= e.circle.fillDeadline ==> LockedMembers(v.shares, e.parent) == LockedMembers(w.shares, e.parent)
  {
    forall m | m in LockedMembers(v.shares, e.parent)
      ensures m in LockedMembers(w.shares, e.parent)
    {
      var f :| f in v.shares && f.policy == ShareV2 && f.parent == e.parent && f.lockedAt.Some? && f.buyer == m;
      var i :| 0 <= i < |v.shares| && v.shares[i] == f;
      assert SameSeat(f, w.shares[i]) && w.shares[i] in w.shares;
    }
    if v.now >= e.circle.fillDeadline {
      assert ShareFits(e, w.circles, w.now);
      LocksAreFrozen(v, w, ShareV2, e.parent);
      forall m | m in LockedMembers(w.shares, e.parent)
        ensures m in LockedMembers(v.shares, e.parent)
      {
        var f :| f in w.shares && f.policy == ShareV2 && f.parent == e.parent && f.lockedAt.Some? && f.buyer == m;
        assert Racer(m, f.lockedAt.value) in LocksOf(ShareV2, e.parent, v.shares);
      }
    }
  }

  lemma EvidenceGrows(v: World, w: World, e: ShareState)
    requires Grew(v, w) && Structured(w) && e in w.shares
    ensures |EvidenceOf(e.parent, v.shares)| <= |EvidenceOf(e.parent, w.shares)|
    ensures v.now >= e.circle.fillDeadline ==> |EvidenceOf(e.parent, v.shares)| == |EvidenceOf(e.parent, w.shares)|
  {
    LockersGrow(v, w, e);
    DistinctCount(EvidenceOf(e.parent, v.shares));
    DistinctCount(EvidenceOf(e.parent, w.shares));
    SubsetSize(Elements(EvidenceOf(e.parent, v.shares)), Elements(EvidenceOf(e.parent, w.shares)));
  }

  lemma RoundEndsAfterFill(w: World, e: ShareState)
    requires Structured(w) && e in w.shares && e.policy == ShareV2
    ensures e.circle.fillDeadline < e.circle.roundEnd && e.circle.seatThreshold > 0
  {
    var c := RoundOfShare(w, e);
    assert CircleFits(c, w.circles, w.now);
  }

  lemma LaterShare(v: World, w: World, e: ShareState) returns (f: ShareState)
    requires Grew(v, w) && e in v.shares
    ensures f in w.shares && SameSeat(e, f)
  {
    var i :| 0 <= i < |v.shares| && v.shares[i] == e;
    f := w.shares[i];
  }

  /** Over any run the lawful outcome of a share goes from nothing to refund for good, or from nothing to
      release and then to refund for good. */
  lemma OutcomeNeverTurnsBackInRuns(start: int, past: seq<Event>, future: seq<Event>, e: ShareState)
    requires var w := Replay(Genesis(start), past);
             e in w.shares && e.policy == ShareV2
    ensures var w := Replay(Genesis(start), past);
            var x := Replay(w, future);
            var o, p := LawfulOutcome(e, w.View(), w.now), LawfulOutcome(e, x.View(), x.now);
            (o == MustRefund ==> p == MustRefund) && (o == MustRelease ==> p != Nothing)
  {
    hide Replay, Good, Structured, Grew, EvidenceOf;
    var w := Replay(Genesis(start), past);
    var x := Replay(w, future);
    EveryRunIsGood(start, past);
    ReplayKeepsGood(w, future);
    ReplayGrows(w, future);
    GoodIsStructured(w);
    GoodIsStructured(x);
    var f := LaterShare(w, x, e);
    EvidenceGrows(w, x, f);
    RoundEndsAfterFill(w, e);
    LaterClock(w, x);
    OutcomeNeverTurnsBack(e.circle, e.circle.seatThreshold, |EvidenceOf(e.parent, w.shares)|, w.now,
                          |EvidenceOf(e.parent, x.shares)|, x.now);
  }

  lemma LaterClock(v: World, w: World)
    requires Grew(v, w)
    ensures v.now <= w.now
  {
  }

  // ── Honest settlement ──────────────────────────────────────────────────────

  /** A resolution commits the evidence its own chain shows, and states the time it is published at. */
  predicate HonestAt(w: World, ev: Event)
  {
    ev.Resolve? ==>
      var e := FindShare(w.shares, ev.id);
      e.Some? ==> ev.evidence == Some(EvidenceOf(e.value.parent, w.shares)) && ev.stated == w.now
  }

  predicate HonestRun(w: World, evs: seq<Event>)
  {
    if evs == [] then true
    else HonestRun(w, evs[..|evs| - 1]) && HonestAt(Replay(w, evs[..|evs| - 1]), evs[|evs| - 1])
  }

  /** The share's resolution, if any, was the lawful outcome at its time, judged by all locks of its round. */
  predicate FollowedLaw(e: ShareState, w: World)
  {
    e.policy == ShareV2 && e.resolved.Some? ==>
      && e.resolved.value.at <= w.now
      && RoundOutcomeAt(e.circle, |EvidenceOf(e.parent, w.shares)|, e.circle.seatThreshold, e.resolved.value.at)
         == if e.resolved.value.outcome == Release then MustRelease else MustRefund
  }

  lemma LawKeepsFollowed(v: World, w: World, e: ShareState, f: ShareState)
    requires Grew(v, w) && Structured(v) && Structured(w) && f in w.shares && e in v.shares && SameSeat(e, f)
    requires e.resolved.Some? && FollowedLaw(e, v)
    ensures FollowedLaw(f, w)
  {
    if e.policy == ShareV2 {
      hide EvidenceOf;
      assert ShareFits(e, v.circles, v.now);
      EvidenceGrows(v, w, f);
      var c := RoundOfShare(v, e);
      assert CircleFits(c, v.circles, v.now);
    }
  }

  lemma ResolveFollowsLaw(w: World, e: ShareState, ev: Event)
    requires Good(w) && e in w.shares && e.policy == ShareV2 && ev.Resolve?
    requires ev.evidence == Some(EvidenceOf(e.parent, w.shares)) && ev.stated == w.now
    requires OutcomeError(e, ev.outcome, w.now, Some(w.View()), Finalize, ev.evidence) == None
    ensures FollowedLaw(e.(resolved := Some(Resolution(ev.outcome, ev.stated))), w)
  {
    SharesArePlaced(w, e);
    EvidenceAgreement(e, w.View(), ev.outcome, w.now);
    NoDiscretion(e, w.View(), w.now);
  }

  lemma {:induction false} SameEvidenceAfterUpdate(shares: seq<ShareState>, i: nat, f: ShareState, roundId: Id)
    requires i < |shares| && SameSeat(shares[i], f) && f.lockedAt == shares[i].lockedAt
    ensures EvidenceOf(roundId, shares[i := f]) == EvidenceOf(roundId, shares)
  {
    var n := |shares| - 1;
    if i < n {
      assert shares[i := f][..n] == shares[..n][i := f];
      SameEvidenceAfterUpdate(shares[..n], i, f, roundId);
    } else {
      assert shares[i := f][..n] == shares[..n];
    }
  }

  lemma StepFollowsLaw(w: World, ev: Event)
    requires Good(w) && HonestAt(w, ev) && forall e :: e in w.shares ==> FollowedLaw(e, w)
    ensures forall f :: f in Step(w, ev).shares ==> FollowedLaw(f, Step(w, ev))
  {
    hide EvidenceOf, Good, OutcomeError, CircleCreateError, ShareCreateError, SealedOrder;
    var v := Step(w, ev);
    StepKeepsGood(w, ev);
    StepGrows(w, ev);
    assert Structured(w) && Structured(v) by {
      GoodIsStructured(w);
      GoodIsStructured(v);
    }
    forall f | f in v.shares
      ensures FollowedLaw(f, v)
    {
      var i :| 0 <= i < |v.shares| && v.shares[i] == f;
      if i < |w.shares| {
        var e := w.shares[i];
        assert SameSeat(e, f);
        if e.resolved.Some? {
          LawKeepsFollowed(w, v, e, f);
        } else if f.resolved.Some? && f.policy == ShareV2 {
          assert i == ShareIndex(w.shares, ev.id);
          SameEvidenceAfterUpdate(w.shares, i, f, f.parent);
          ResolveFollowsLaw(w, e, ev);
        }
      }
    }
  }

  lemma GoodIsStructured(w: World)
    requires Good(w)
    ensures Structured(w)
  {
  }

  /** When resolutions commit honest evidence, every resolved share of every run was settled by the law. */
  lemma {:induction false} HonestRunsFollowTheLaw(w: World, evs: seq<Event>)
    requires Good(w) && HonestRun(w, evs) && forall e :: e in w.shares ==> FollowedLaw(e, w)
    ensures forall e :: e in Replay(w, evs).shares ==> FollowedLaw(e, Replay(w, evs))
  {
    hide Good, FollowedLaw, Step, HonestAt;
    if evs != [] {
      var past := evs[..|evs| - 1];
      HonestRunsFollowTheLaw(w, past);
      ReplayKeepsGood(w, past);
      StepFollowsLaw(Replay(w, past), evs[|evs| - 1]);
    }
  }
}
