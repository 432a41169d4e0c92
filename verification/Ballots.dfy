/** What it takes to settle a share: which votes and resolutions the outcome gate lets through, and what every run
    keeps of them. */
module Ballots {
  import opened Prelude
  import opened Circles
  import opened Rotation
  import opened Race
  import opened Gates
  import opened Writers
  import opened Chain
  import opened Finality
  import opened Protocol

  // ── The gate, exactly ──────────────────────────────────────────────────────

  /** A share of a fill-or-refund round can only go back: whoever judges, on whatever evidence, refund stands and
      release does not. */
  lemma PlainSharesOnlyReturn(e: ShareState, outcome: Outcome, at: int, cycle: Option<Context>, j: Judgment,
                              evidence: Option<seq<Pubkey>>)
    requires e.policy == ShareV1
    ensures OutcomeError(e, outcome, at, cycle, j, evidence) == None <==> outcome == Refund
  {
  }

  /** A rotation share out of context: a principal's vote stands as it is, an intent may only be a refund, and a
      resolution or an arbiter's vote stands by the number of distinct lockers it commits. */
  lemma JudgedWithoutContext(e: ShareState, outcome: Outcome, at: int, evidence: Option<seq<Pubkey>>)
    requires e.policy == ShareV2 && e.circle.seatThreshold > 0
    ensures OutcomeError(e, outcome, at, None, ObservePrincipal, evidence) == None
    ensures OutcomeError(e, outcome, at, None, Intent, evidence) == None <==> outcome == Refund
    ensures OutcomeError(e, outcome, at, None, ObserveArbiter, evidence)
         == OutcomeError(e, outcome, at, None, Finalize, evidence)
    ensures OutcomeError(e, Release, at, None, Finalize, evidence) == None
            <==> && WellFormed(evidence) && |evidence.value| >= e.circle.seatThreshold
                 && e.circle.roundEnd <= at < e.circle.roundEnd + 7 * 86_400
    ensures OutcomeError(e, Refund, at, None, Finalize, evidence) == None
            <==> && WellFormed(evidence)
                 && if |evidence.value| >= e.circle.seatThreshold then at >= e.circle.roundEnd + 7 * 86_400
                    else at >= e.circle.fillDeadline
  {
  }

  /** Evidence is a list of at most 128 keys, none twice. */
  predicate WellFormed(evidence: Option<seq<Pubkey>>)
  {
    evidence.Some? && |evidence.value| <= 128 && Distinct(evidence.value)
  }

  function Expected(e: ShareState, cycle: Context): set<Pubkey>
    requires RotationFrom(cycle, Some(Claim(e.parent, e.circle.roundIndex))).Ok?
  {
    Elements(RotationFrom(cycle, Some(Claim(e.parent, e.circle.roundIndex))).value.order) - {e.seller}
  }

  lemma EvidenceWithin(e: ShareState, cycle: Context, evidence: seq<Pubkey>)
    requires Placed(e, cycle)
    ensures var s := RotationFrom(cycle, Some(Claim(e.parent, e.circle.roundIndex))).value;
            NamesOutsider(evidence, s, cycle.shares, e.circle.roundIndex)
            <==> !(Elements(evidence) <= Expected(e, cycle))
    ensures |Expected(e, cycle)| == e.circle.seatThreshold
    ensures Distinct(evidence) && Elements(evidence) <= Expected(e, cycle) ==>
              && |evidence| <= e.circle.seatThreshold
              && (|evidence| == e.circle.seatThreshold <==> Elements(evidence) == Expected(e, cycle))
  {
    hide Collectors, SealedOrder, RotationFrom, LockedMembers;
    var s := RotationFrom(cycle, Some(Claim(e.parent, e.circle.roundIndex))).value;
    DistinctCount(s.order);
    if NamesOutsider(evidence, s, cycle.shares, e.circle.roundIndex) {
      var m :| m in evidence && (m !in s.order || Some(m) == CollectorOf(s.Cy(), cycle.shares, e.circle.roundIndex));
      assert m in Elements(evidence);
    } else {
      assert forall m :: m in Elements(evidence) ==> m in Expected(e, cycle);
    }
    if Distinct(evidence) && Elements(evidence) <= Expected(e, cycle) {
      Pigeonhole(evidence, Expected(e, cycle));
      DistinctCount(evidence);
    }
  }

  /** A rotation share in its cycle: a resolution, or an arbiter's vote, releases it exactly from the round's end until
      the payday lapses and on evidence that names every member who owes the round and nobody else; it refunds it
      exactly on evidence that names some of them from the fill deadline on, or all of them after the lapse. */
  lemma ResolutionsAreJudged(e: ShareState, at: int, cycle: Context, evidence: Option<seq<Pubkey>>, j: Judgment)
    requires Placed(e, cycle) && e.circle.seatThreshold > 0 && (j == Finalize || j == ObserveArbiter)
    ensures OutcomeError(e, Release, at, Some(cycle), j, evidence) == None
            <==> && WellFormed(evidence) && Elements(evidence.value) == Expected(e, cycle)
                 && e.circle.roundEnd <= at < e.circle.roundEnd + 7 * 86_400
    ensures OutcomeError(e, Refund, at, Some(cycle), j, evidence) == None
            <==> && WellFormed(evidence) && Elements(evidence.value) <= Expected(e, cycle)
                 && if Elements(evidence.value) == Expected(e, cycle) then at >= e.circle.roundEnd + 7 * 86_400
                    else at >= e.circle.fillDeadline
  {
    hide Collectors, SealedOrder, RotationFrom, LockedMembers, Expected, NamesOutsider;
    if WellFormed(evidence) {
      EvidenceWithin(e, cycle, evidence.value);
    }
  }

  /** Any rotation share in any context that seals a rotation: whatever a client signs belongs to that cycle, what it
      releases goes to the round's collector after every other sealed member locked, and refunds wait for the fill
      deadline, or for the lapse when everyone locked. In a context without the rotation it signs nothing. */
  lemma IntentsAreJudged(e: ShareState, at: int, cycle: Context, evidence: Option<seq<Pubkey>>)
    requires e.policy == ShareV2
    ensures var rot := RotationFrom(cycle, Some(Claim(e.parent, e.circle.roundIndex)));
            && (rot.Err? ==> forall o: Outcome :: OutcomeError(e, o, at, Some(cycle), Intent, evidence) != None)
            && (rot.Ok? ==>
                  var collector := CollectorOf(rot.value.Cy(), cycle.shares, e.circle.roundIndex);
                  var ours := e.parent == RoundOf(rot.value.anchor.id, e.circle.roundIndex);
                  var owing := Elements(rot.value.order) - (if collector.Some? then {collector.value} else {});
                  var full := owing != {} && owing <= LockedMembers(cycle.shares, e.parent);
                  && (OutcomeError(e, Release, at, Some(cycle), Intent, evidence) == None
                      <==> && ours && collector == Some(e.seller) && full
                           && e.circle.roundEnd <= at < e.circle.roundEnd + 7 * 86_400)
                  && (OutcomeError(e, Refund, at, Some(cycle), Intent, evidence) == None
                      <==> && ours && collector.Some?
                           && if full then at >= e.circle.roundEnd + 7 * 86_400 else at >= e.circle.fillDeadline))
  {
    hide Collectors, SealedOrder, RotationFrom, LockedMembers;
    var rot := RotationFrom(cycle, Some(Claim(e.parent, e.circle.roundIndex)));
    if rot.Ok? && CollectorOf(rot.value.Cy(), cycle.shares, e.circle.roundIndex).Some? {
      var collector := CollectorOf(rot.value.Cy(), cycle.shares, e.circle.roundIndex).value;
      CountsAsFull(rot.value, cycle.shares, e.parent, collector);
    }
  }

  lemma CountsAsFull(s: Sealed, shares: seq<ShareState>, roundId: Id, collector: Pubkey)
    ensures var owing := Elements(s.order) - {collector};
            && (LockedCount(s, shares, roundId, collector) >= |set m | m in s.order && m != collector|
                <==> owing <= LockedMembers(shares, roundId))
            && (|set m | m in s.order && m != collector| > 0 <==> owing != {})
  {
    var owing := Elements(s.order) - {collector};
    assert (set m | m in s.order && m != collector) == owing;
    assert (set m | m in s.order && m != collector && m in LockedMembers(shares, roundId))
        == owing * LockedMembers(shares, roundId);
    SubsetSize(owing * LockedMembers(shares, roundId), owing);
    assert owing * LockedMembers(shares, roundId) == owing <==> owing <= LockedMembers(shares, roundId);
  }

  /** A resolution is judged in its own cycle when the context seals it, and only there may it not pay the wrong
      member, name an outsider, or belong elsewhere. */
  lemma ResolutionsStayInCycle(e: ShareState, outcome: Outcome, at: int, cycle: Context,
                               evidence: Option<seq<Pubkey>>, j: Judgment)
    requires e.policy == ShareV2 && (j == Finalize || j == ObserveArbiter)
    ensures var rot := RotationFrom(cycle, Some(Claim(e.parent, e.circle.roundIndex)));
            var alone := OutcomeError(e, outcome, at, None, Finalize, evidence);
            && (rot.Err? ==> OutcomeError(e, outcome, at, Some(cycle), j, evidence) == alone)
            && (rot.Ok? ==>
                  var collector := CollectorOf(rot.value.Cy(), cycle.shares, e.circle.roundIndex);
                  OutcomeError(e, outcome, at, Some(cycle), j, evidence) == None
                  <==> && alone == None && e.parent == RoundOf(rot.value.anchor.id, e.circle.roundIndex)
                       && collector.Some?
                       && (outcome == Release ==> collector == Some(e.seller))
                       && (forall m :: m in evidence.value ==> m in rot.value.order && Some(m) != collector))
  {
    hide Collectors, SealedOrder, RotationFrom, LockedMembers;
  }

  // ── What every run keeps ───────────────────────────────────────────────────

  function Votes(e: ShareState, o: Outcome): nat
  {
    (if e.buyerVote == Some(o) then 1 else 0) + (if e.sellerVote == Some(o) then 1 else 0)
    + (if e.arbiterVote == Some(o) then 1 else 0)
  }

  /** A share is locked once, in its fill window; nothing else comes of trying. */
  lemma LocksInTime(w: World, i: nat)
    requires UniqueShares(w.shares) && i < |w.shares|
    ensures var e := w.shares[i];
            Step(w, LockShare(e.id)).shares
            == if e.lockedAt.None? && e.resolved.None? && e.createdAt <= w.now < e.circle.fillDeadline
               then w.shares[i := e.(lockedAt := Some(w.now))] else w.shares
  {
    hide OutcomeError;
    assert ShareIndex(w.shares, w.shares[i].id) == i;
  }

  /** Each seat votes once, on a locked share that is not resolved yet: the principals as they please on a rotation
      share, the arbiter as the gate allows. */
  lemma VotesOnce(w: World, i: nat, o: Outcome, evidence: Option<seq<Pubkey>>)
    requires UniqueShares(w.shares) && i < |w.shares|
    ensures var e := w.shares[i];
            var votable := e.lockedAt.Some? && e.resolved.None?;
            && Step(w, CastVote(e.id, BuyerSeat, o, evidence)).shares
               == (if votable && e.buyerVote.None? && (e.policy == ShareV1 ==> o == Refund)
                   then w.shares[i := e.(buyerVote := Some(o))] else w.shares)
            && Step(w, CastVote(e.id, SellerSeat, o, evidence)).shares
               == (if votable && e.sellerVote.None? && (e.policy == ShareV1 ==> o == Refund)
                   then w.shares[i := e.(sellerVote := Some(o))] else w.shares)
            && Step(w, CastVote(e.id, ArbiterSeat, o, evidence)).shares
               == (if && votable && e.arbiterVote.None?
                      && OutcomeError(e, o, w.now, Some(w.View()), ObserveArbiter, evidence) == None
                   then w.shares[i := e.(arbiterVote := Some(o))] else w.shares)
  {
    hide OutcomeError;
    var e := w.shares[i];
    PrincipalsAreFree(e, o, w.now, w.View(), evidence);
    assert ShareIndex(w.shares, e.id) == i;
  }

  lemma PrincipalsAreFree(e: ShareState, o: Outcome, at: int, cycle: Context, evidence: Option<seq<Pubkey>>)
    ensures OutcomeError(e, o, at, Some(cycle), ObservePrincipal, evidence) == None
        <==> (e.policy == ShareV1 ==> o == Refund)
  {
  }

  /** A share is resolved once, after two of the three voted for the outcome and as the gate allows. */
  lemma ResolvesByTwo(w: World, i: nat, o: Outcome, evidence: Option<seq<Pubkey>>, stated: int)
    requires UniqueShares(w.shares) && i < |w.shares|
    ensures var e := w.shares[i];
            Step(w, Resolve(e.id, o, evidence, stated)).shares
            == if && e.lockedAt.Some? && e.resolved.None? && Votes(e, o) >= 2
                  && OutcomeError(e, o, w.now, Some(w.View()), Finalize, evidence) == None
               then w.shares[i := e.(resolved := Some(Resolution(o, stated)))] else w.shares
  {
    hide OutcomeError;
    assert ShareIndex(w.shares, w.shares[i].id) == i;
  }

  /** A resolution rests on a lock and two of three votes for its outcome. A fill-or-refund share carries no release
      at all; a rotation share is released, or approved for it by an arbiter, not before its round ended, and
      refunded not before its fill deadline. */
  predicate Settled(e: ShareState, now: int)
  {
    && (e.resolved.Some? ==> e.lockedAt.Some? && Votes(e, e.resolved.value.outcome) >= 2)
    && (Votes(e, Release) + Votes(e, Refund) > 0 ==> e.lockedAt.Some?)
    && (e.policy == ShareV1 ==> Votes(e, Release) == 0 && (e.resolved.Some? ==> e.resolved.value.outcome == Refund))
    && (e.policy == ShareV2 ==>
          && (e.arbiterVote == Some(Release) || (e.resolved.Some? && e.resolved.value.outcome == Release) ==>
                now >= e.circle.roundEnd)
          && (e.arbiterVote == Some(Refund) || (e.resolved.Some? && e.resolved.value.outcome == Refund) ==>
                now >= e.circle.fillDeadline))
  }

  lemma ShareStepSettles(w: World, e: ShareState, ev: Event)
    requires Settled(e, w.now) && Good(w) && e in w.shares && ShareStep(w, e, ev).Some?
    ensures Settled(ShareStep(w, e, ev).value, w.now)
  {
    hide OutcomeError, Good, Structured, Placed, Expected;
    GoodIsStructured(w);
    if ev.CastVote? || ev.Resolve? {
      var j := if ev.Resolve? then Finalize else ObservedAs(ev.seat);
      if e.policy == ShareV1 {
        PlainSharesOnlyReturn(e, ev.outcome, w.now, Some(w.View()), j, ev.evidence);
      } else if j != ObservePrincipal {
        SharesArePlaced(w, e);
        RoundEndsAfterFill(w, e);
        ResolutionsAreJudged(e, w.now, w.View(), ev.evidence, j);
      }
    }
  }

  lemma StepKeepsSettled(w: World, ev: Event)
    requires Good(w) && forall e :: e in w.shares ==> Settled(e, w.now)
    ensures forall e :: e in Step(w, ev).shares ==> Settled(e, Step(w, ev).now)
  {
    hide Good, ShareStep, CircleCreateError, ShareCreateError;
    var v := Step(w, ev);
    forall e | e in v.shares
      ensures Settled(e, v.now)
    {
      if e in w.shares {
      } else if ev.TakeSeat? {
      } else {
        ShareStepSettles(w, w.shares[ShareIndex(w.shares, ev.id)], ev);
      }
    }
  }

  /** In every run no share is voted on or settled but the way the law allows. */
  lemma {:induction false} RunsSettleLawfully(start: int, evs: seq<Event>)
    ensures forall e :: e in Replay(Genesis(start), evs).shares ==> Settled(e, Replay(Genesis(start), evs).now)
  {
    if evs != [] {
      hide Good, Step, Settled;
      RunsSettleLawfully(start, evs[..|evs| - 1]);
      EveryRunIsGood(start, evs[..|evs| - 1]);
      StepKeepsSettled(Replay(Genesis(start), evs[..|evs| - 1]), evs[|evs| - 1]);
    }
  }
}
