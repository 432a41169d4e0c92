/** Writers satisfy readers, and both forms of the outcome gate agree on a complete view. */
module Writers {
  import opened Prelude
  import opened Circles
  import opened Rotation
  import opened Race
  import opened Gates

  // ── Anchors ────────────────────────────────────────────────────────────────

  lemma ClaimKeepsFirst(circles: seq<CircleState>, shares: seq<ShareState>, claim: Option<Claim>)
    requires var i := FirstSealing(circles, shares, None);
             i < |circles| && Seals(circles[i], shares, claim)
    ensures FirstSealing(circles, shares, claim) == FirstSealing(circles, shares, None)
  {
    FirstSpec(SealsIn(shares, None), circles);
    FirstSpec(SealsIn(shares, claim), circles);
    assert forall c :: SealsIn(shares, claim)(c) ==> SealsIn(shares, None)(c);
  }

  /** Naming the round being validated does not change the anchor when the unclaimed scan already found it. */
  lemma ClaimKeepsAnchor(cycle: Context, id: Id, r: int)
    requires RotationFrom(cycle, None).Ok?
    requires r >= 2 && id == RoundOf(RotationFrom(cycle, None).value.anchor.id, r)
    ensures RotationFrom(cycle, Some(Claim(id, r))) == RotationFrom(cycle, None)
  {
    ScanFindsFirst(cycle.circles, cycle.shares, None, NoRoundOne);
    FirstSpec(SealsIn(cycle.shares, None), cycle.circles);
    ClaimKeepsFirst(cycle.circles, cycle.shares, Some(Claim(id, r)));
    ScanFindsFirst(cycle.circles, cycle.shares, Some(Claim(id, r)), NoRoundOne);
  }

  lemma SealedFacts(cycle: Context, claim: Option<Claim>)
    requires RotationFrom(cycle, claim).Ok?
    ensures var s := RotationFrom(cycle, claim).value;
            && s.anchor in cycle.circles && s.order == SealedOrder(s.anchor, cycle.shares)
            && Seals(s.anchor, cycle.shares, claim) && |s.order| >= 3
            && FindCircle(cycle.circles, s.anchor.id).Some?
  {
    ScanFindsFirst(cycle.circles, cycle.shares, claim, NoRoundOne);
    FirstSpec(SealsIn(cycle.shares, claim), cycle.circles);
    var i := FirstSealing(cycle.circles, cycle.shares, claim);
    FindMember(cycle.circles, cycle.circles[i].id);
  }

  lemma {:induction false} FindMember(circles: seq<CircleState>, id: Id)
    ensures FindCircle(circles, id).Some? <==> exists c :: c in circles && c.id == id
    ensures FindCircle(circles, id).Some? ==>
        FindCircle(circles, id).value in circles && FindCircle(circles, id).value.id == id
  {
    if circles != [] {
      assert circles == [circles[0]] + circles[1..];
      FindMember(circles[1..], id);
      if c :| c in circles && c.id == id {
        assert c == circles[0] || c in circles[1..];
      }
    }
  }

  /** What an accepted chained-round CREATE says about its cycle. */
  lemma AcceptedRound(p: CirclePayload, id: Id, who: Pubkey, at: int, cycle: Context, sim: bool)
    requires RotationRound(p.terms) && CircleCreateError(p, id, who, at, Some(cycle), sim) == None
    ensures var r := p.terms.roundIndex;
            var rot := RotationFrom(cycle, Some(Claim(id, r)));
            && rot.Ok? && id == RoundOf(rot.value.anchor.id, r) && r <= |rot.value.order| + 1
            && p.terms.seatThreshold == |rot.value.order| - 1
            && p.terms.fillDeadline == DeadlineOf(rot.value.anchor, r) && p.terms.roundEnd == EndOf(rot.value.anchor, r)
            && StartOf(rot.value.anchor, r) <= at
            && PreviousRoundError(rot.value, cycle.shares, r) == None
  {
    assert ChainedRoundError(p, id, who, at, Some(cycle)) == None;
  }

  /** What an accepted rotation-share CREATE says about its seats. */
  lemma AcceptedSeat(p: SharePayload, id: Id, who: Pubkey, at: int, parent: CircleState, vouch: Option<ShareState>,
                     cycle: Context)
    requires p.policy == ShareV2 && ShareCreateError(p, id, who, at, Some(parent), vouch, Some(cycle)) == None
    ensures RotationRound(parent.terms) && p.parent == parent.id
    ensures var r := parent.terms.roundIndex;
            var rot := RotationFrom(cycle, Some(Claim(parent.id, r)));
            && rot.Ok? && parent.id == RoundOf(rot.value.anchor.id, r) && who in rot.value.order
            && CollectorOf(rot.value.Cy(), cycle.shares, r) == Some(p.seller)
  {
    assert CollectorSeatError(p, parent, who, Some(cycle)) == None;
  }

  // ── The next round ─────────────────────────────────────────────────────────

  /** Every number in the payload is one a double can carry exactly. */
  predicate Representable(s: Sealed, r: int)
  {
    SafeInt(EndOf(s.anchor, r)) && SafeInt(|s.order| - 1) && SafeInt(r)
  }

  lemma PreviousRoundCheck(s: Sealed, shares: seq<ShareState>, r: int)
    requires r >= 2
    ensures PreviousRoundError(s, shares, r) == None <==> (r == 2 || RoundFilled(s.Cy(), shares, r - 1))
  {
    if r > 2 {
      var c := CollectorOf(s.Cy(), shares, r - 1);
      var roundId := RoundOf(s.anchor.id, r - 1);
      forall m
        ensures m in LockedMembers(shares, roundId)
            <==> exists x :: x in LocksOf(ShareV2, roundId, shares) && x.member == m
      {
        if m in LockedMembers(shares, roundId) {
          var e :| e in shares && e.policy == ShareV2 && e.parent == roundId && e.lockedAt.Some? && e.buyer == m;
          assert Racer(m, e.lockedAt.value) in LocksOf(ShareV2, roundId, shares);
        }
      }
    }
  }

  lemma PayloadIsLawful(s: Sealed, first: CircleState, r: int, now: int)
    requires Lawful(s.anchor.terms, s.anchor.createdAt) && |s.order| >= 3 && r >= 2
    requires StartOf(s.anchor, r) <= now < DeadlineOf(s.anchor, r)
    ensures Lawful(RoundPayload(s, first, r, now).terms, now)
        <==> Representable(s, r) && SafeInt(s.anchor.terms.shareMsats)
  {
    ScheduleTiles(s.anchor, r, now);
    StartsGrow(s.anchor, 1, r);
    ScheduleTiles(s.anchor, 1, now);
  }

  /** The payload for the next round is accepted from a sealed member exactly when the previous collection
      round filled: the writer's own schedule checks leave nothing else to fail. */
  lemma NextRoundPassesGate(cycle: Context, now: int, who: Pubkey, sim: bool)
    requires NextRoundOf(cycle, now).Ok?
    requires forall c :: c in cycle.circles ==> forall k :: k in c.bonded ==> k in c.pool
    ensures var n := NextRoundOf(cycle, now).value;
            var s := RotationFrom(cycle, None).value;
            var r := n.payload.terms.roundIndex;
            CircleCreateError(n.payload, n.id, who, now, Some(cycle), sim) == None
            <==> Representable(s, r) && who in s.order && (r == 2 || RoundFilled(s.Cy(), cycle.shares, r - 1))
  {
    hide CircleCreateError, RotationFrom, NextRoundOf, RoundFilled, Representable, Lawful;
    var s, first, r := NextRoundShape(cycle, now);
    RoundPayloadGate(cycle, s, first, r, now, who, sim);
  }

  lemma NextRoundShape(cycle: Context, now: int) returns (s: Sealed, first: CircleState, r: int)
    requires NextRoundOf(cycle, now).Ok?
    ensures RotationFrom(cycle, None) == Ok(s) && r >= 2
    ensures NextRoundOf(cycle, now) == Ok(NextRound(RoundOf(s.anchor.id, r), RoundPayload(s, first, r, now)))
    ensures RotationFrom(cycle, Some(Claim(RoundOf(s.anchor.id, r), r))) == Ok(s)
    ensures r <= |s.order| + 1 && StartOf(s.anchor, r) <= now < DeadlineOf(s.anchor, r)
    ensures FindCircle(cycle.circles, s.anchor.id) == Some(first) && first in cycle.circles
    ensures Lawful(s.anchor.terms, s.anchor.createdAt) && |s.order| >= 3
  {
    hide SealedOrder, ScanAnchors, Lawful;
    s := RotationFrom(cycle, None).value;
    r := LastRound(cycle.circles, s.anchor.id) + 1;
    SealedFacts(cycle, None);
    first := FindCircle(cycle.circles, s.anchor.id).value;
    FindMember(cycle.circles, s.anchor.id);
    ClaimKeepsAnchor(cycle, RoundOf(s.anchor.id, r), r);
  }

  lemma RoundPayloadGate(cycle: Context, s: Sealed, first: CircleState, r: int, now: int, who: Pubkey, sim: bool)
    requires r >= 2 && RotationFrom(cycle, Some(Claim(RoundOf(s.anchor.id, r), r))) == Ok(s)
    requires r <= |s.order| + 1 && StartOf(s.anchor, r) <= now < DeadlineOf(s.anchor, r)
    requires FindCircle(cycle.circles, s.anchor.id) == Some(first) && Lawful(s.anchor.terms, s.anchor.createdAt)
    requires |s.order| >= 3
    requires forall k :: k in first.bonded ==> k in first.pool
    ensures CircleCreateError(RoundPayload(s, first, r, now), RoundOf(s.anchor.id, r), who, now, Some(cycle), sim)
        == None
      <==> Representable(s, r) && who in s.order && (r == 2 || RoundFilled(s.Cy(), cycle.shares, r - 1))
  {
    PreviousRoundCheck(s, cycle.shares, r);
    PayloadIsLawful(s, first, r, now);
    ChainedPart(cycle, s, first, r, now, who);
    assert Representable(s, r) ==> SafeInt(now) by {
      ScheduleTiles(s.anchor, r, now);
      StartsGrow(s.anchor, 1, r);
      ScheduleTiles(s.anchor, 1, now);
    }
  }

  lemma ChainedPart(cycle: Context, s: Sealed, first: CircleState, r: int, now: int, who: Pubkey)
    requires r >= 2 && RotationFrom(cycle, Some(Claim(RoundOf(s.anchor.id, r), r))) == Ok(s)
    requires r <= |s.order| + 1 && StartOf(s.anchor, r) <= now < DeadlineOf(s.anchor, r)
    requires FindCircle(cycle.circles, s.anchor.id) == Some(first)
    ensures ChainedRoundError(RoundPayload(s, first, r, now), RoundOf(s.anchor.id, r), who, now, Some(cycle))
         == if who !in s.order then Some(NotSealedMember) else PreviousRoundError(s, cycle.shares, r)
    ensures PinnedTermsError(RoundPayload(s, first, r, now), RoundOf(s.anchor.id, r), cycle) == None
  {
  }

  // ── The rotation share ─────────────────────────────────────────────────────

  /** The rotation share payload meets its gate, in any context, exactly inside the fill window, with a free pool
      arbiter, and when the rotation that produces this round names the same collector and seats the buyer. The
      writer looks at the first rotation in the context, the gate at the one the parent's id proves. */
  lemma RotationSharePassesGate(parent: CircleState, now: int, buyer: Pubkey, cycle: Context, vouch: Option<ShareState>)
    requires RotationSharePayload(parent, now, buyer, cycle).Ok?
    requires forall k :: k in parent.bonded ==> k in parent.pool
    ensures var p := RotationSharePayload(parent, now, buyer, cycle).value;
            var r := parent.terms.roundIndex;
            var rot := RotationFrom(cycle, Some(Claim(parent.id, r)));
            ShareCreateError(p, ShareOf(parent.id, buyer, r), buyer, now, Some(parent), vouch, Some(cycle)) == None
            <==> && SafeInt(now) && parent.createdAt <= now < parent.terms.fillDeadline
                 && (exists k :: k in parent.pool && k != buyer && k != p.seller)
                 && rot.Ok? && buyer in rot.value.order
                 && CollectorOf(rot.value.Cy(), cycle.shares, r) == Some(p.seller)
  {
    hide Collectors, SealedOrder, Lawful;
    var r := parent.terms.roundIndex;
    if RotationFrom(cycle, Some(Claim(parent.id, r))).Ok? {
      SealedFacts(cycle, Some(Claim(parent.id, r)));
    }
  }

  // ── Evidence agreement ─────────────────────────────────────────────────────

  /** The share sits in its cycle's round as the CREATE gates leave it, and the view holds the whole cycle. */
  ghost predicate Placed(e: ShareState, cycle: Context)
  {
    var rot := RotationFrom(cycle, Some(Claim(e.parent, e.circle.roundIndex)));
    && e.policy == ShareV2
    && rot.Ok?
    && Distinct(rot.value.order)
    && e.parent == RoundOf(rot.value.anchor.id, e.circle.roundIndex)
    && CollectorOf(rot.value.Cy(), cycle.shares, e.circle.roundIndex) == Some(e.seller)
    && e.seller in rot.value.order
    && e.circle.seatThreshold == |rot.value.order| - 1
    && LockedMembers(cycle.shares, e.parent) <= Elements(rot.value.order) - {e.seller}
  }

  /** Both gates count the same lockers against the same number of seats. */
  lemma CountsAgree(e: ShareState, cycle: Context)
    requires Placed(e, cycle)
    ensures var s := RotationFrom(cycle, Some(Claim(e.parent, e.circle.roundIndex))).value;
            && LockedCount(s, cycle.shares, e.parent, e.seller) == |EvidenceOf(e.parent, cycle.shares)|
            && |set m | m in s.order && m != e.seller| == e.circle.seatThreshold
            && !NamesOutsider(EvidenceOf(e.parent, cycle.shares), s, cycle.shares, e.circle.roundIndex)
            && Distinct(EvidenceOf(e.parent, cycle.shares))
  {
    var s := RotationFrom(cycle, Some(Claim(e.parent, e.circle.roundIndex))).value;
    var evidence := EvidenceOf(e.parent, cycle.shares);
    assert Distinct(evidence);
    DistinctCount(evidence);
    DistinctCount(s.order);
    assert (set m | m in s.order && m != e.seller && m in LockedMembers(cycle.shares, e.parent)) == Elements(evidence);
    assert (set m | m in s.order && m != e.seller) == Elements(s.order) - {e.seller};
    forall m | m in evidence
      ensures m in s.order && m != e.seller
    {
      assert m in Elements(evidence);
    }
  }

  /** Judging an intent from the view and judging a resolution from the committed evidence of that view come
      to the same answer, for either outcome at any time, up to the size cap on evidence. */
  lemma EvidenceAgreement(e: ShareState, cycle: Context, outcome: Outcome, at: int)
    requires Placed(e, cycle)
    ensures var evidence := EvidenceOf(e.parent, cycle.shares);
            OutcomeError(e, outcome, at, Some(cycle), Finalize, Some(evidence)) == None
            <==> OutcomeError(e, outcome, at, Some(cycle), Intent, None) == None && |evidence| <= 128
  {
    CountsAgree(e, cycle);
  }

  /** The lawful outcome of a placed share: what either gate admits. */
  function LawfulOutcome(e: ShareState, cycle: Context, at: int): RoundOutcome
  {
    RoundOutcomeAt(e.circle, |EvidenceOf(e.parent, cycle.shares)|, e.circle.seatThreshold, at)
  }

  /** An intent to vote is admitted exactly for the lawful outcome: no seat has discretion. */
  lemma NoDiscretion(e: ShareState, cycle: Context, at: int)
    requires Placed(e, cycle)
    ensures OutcomeError(e, Release, at, Some(cycle), Intent, None) == None
        <==> LawfulOutcome(e, cycle, at) == MustRelease
    ensures OutcomeError(e, Refund, at, Some(cycle), Intent, None) == None
        <==> LawfulOutcome(e, cycle, at) == MustRefund
  {
    CountsAgree(e, cycle);
  }

  /** With the fill settled, the timeline is nothing then refund forever, or nothing, release, refund forever. */
  lemma OutcomeTimeline(t: Terms, count: int, expected: int, at: int)
    requires t.fillDeadline < t.roundEnd && expected > 0
    ensures count < expected ==>
              RoundOutcomeAt(t, count, expected, at) == if at < t.fillDeadline then Nothing else MustRefund
    ensures count >= expected ==>
              RoundOutcomeAt(t, count, expected, at)
              == if at < t.roundEnd then Nothing else if at < t.roundEnd + COLLECT_WINDOW_SEC then MustRelease
                  else MustRefund
  {
  }

  /** Once refund is lawful it stays so; release is only ever followed by release or refund. Locks may still
      arrive in between, but only before the fill deadline. */
  lemma OutcomeNeverTurnsBack(t: Terms, expected: int, count: int, at: int, laterCount: int, later: int)
    requires t.fillDeadline < t.roundEnd && at <= later && count <= laterCount
    requires count != laterCount ==> at < t.fillDeadline
    ensures RoundOutcomeAt(t, count, expected, at) == MustRefund ==>
        RoundOutcomeAt(t, laterCount, expected, later) == MustRefund
    ensures RoundOutcomeAt(t, count, expected, at) == MustRelease ==>
        RoundOutcomeAt(t, laterCount, expected, later) != Nothing
  {
  }
}
