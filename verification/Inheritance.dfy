/** What the CREATE gates hand down: a collection round keeps its anchor's terms, a share its parent's, and every
    witness in a ring has locked before. */
module Inheritance {
  import opened Prelude
  import opened Circles
  import opened Rotation
  import opened Race
  import opened Gates
  import opened Writers
  import opened Chain
  import opened Finality
  import opened Protocol

  // ── What the gates accept ──────────────────────────────────────────────────

  /** The community a circle names; an empty name is none. */
  predicate SameCommunity(a: Option<string>, b: Option<string>)
  {
    a == b || (a in {None, Some("")} && b in {None, Some("")})
  }

  /** A round that does not continue a rotation is accepted exactly when it states its own time, is lawful, expires at
      its end, knows its pot, keeps its bonded arbiters in the pool and, as a rotation's first round outside a
      simulation, leaves an hour for filling and another for running. */
  lemma FirstRoundGate(p: CirclePayload, id: Id, who: Pubkey, at: int, cycle: Option<Context>, sim: bool)
    requires p.terms.pot == NoPot || p.terms.pot == UnknownPot || p.terms.roundIndex <= 1
    ensures CircleCreateError(p, id, who, at, cycle, sim) == None
            <==> && (forall k :: k in p.bonded ==> k in p.pool) && p.createdAt == at && Lawful(p.terms, at)
                 && p.expirySeconds == p.terms.roundEnd - at && p.terms.pot in {NoPot, RotationV2}
                 && (p.terms.pot == RotationV2 && !sim ==>
                       p.terms.fillDeadline >= at + 3600 && p.terms.roundEnd >= p.terms.fillDeadline + 3600)
  {
  }

  /** An accepted collection round carries its own time and expiry, its place in the chain and its seats; with the
      anchor come amount, mint and community, and with the anchor's circle arbiters and federation. */
  lemma AcceptedRoundCarries(p: CirclePayload, id: Id, who: Pubkey, at: int, cycle: Context, sim: bool)
    requires RotationRound(p.terms) && CircleCreateError(p, id, who, at, Some(cycle), sim) == None
    ensures var r := p.terms.roundIndex;
            var rot := RotationFrom(cycle, Some(Claim(id, r)));
            && rot.Ok? && FindCircle(cycle.circles, rot.value.anchor.id).Some?
            && var a, n := rot.value.anchor, |rot.value.order|;
               var first := FindCircle(cycle.circles, a.id).value;
               && p.createdAt == at && p.expirySeconds == p.terms.roundEnd - at && at < p.terms.fillDeadline
               && who in rot.value.order && p.terms.prev == Some(if r == 2 then a.id else RoundOf(a.id, r - 1))
               && p.terms.seatThreshold == n - 1 && p.terms.seatCap == Some(n - 1) && p.terms.unlisted
               && p.terms.shareMsats == a.terms.shareMsats && p.mint == a.mint
               && SameCommunity(p.community, a.community)
               && p.pool == first.pool && p.bonded == first.bonded
               && p.fed == first.fed && p.fedPrefix == first.fedPrefix
  {
    hide SealedOrder, Lawful, PreviousRoundError;
    assert ChainedRoundError(p, id, who, at, Some(cycle)) == None && PinnedTermsError(p, id, cycle) == None;
    SealedFacts(cycle, Some(Claim(id, p.terms.roundIndex)));
  }

  /** An accepted share carries its parent's amount, arbiters, mint, community and federation, charges nothing, ends
      with its round, opens inside the fill window and leaves an arbiter who holds neither seat. */
  lemma AcceptedShareCarries(p: SharePayload, id: Id, who: Pubkey, at: int, parent: Option<CircleState>,
                             vouch: Option<ShareState>, cycle: Option<Context>)
    requires ShareCreateError(p, id, who, at, parent, vouch, cycle) == None
    ensures parent.Some? && p.parent == parent.value.id && id == ShareOf(p.parent, who, parent.value.terms.roundIndex)
    ensures var c := parent.value;
            && p.amountMsats == c.terms.shareMsats && p.pool == c.pool && p.bonded == c.bonded && p.mint == c.mint
            && p.community == c.community && p.fed == c.fed && p.fedPrefix == c.fedPrefix
            && p.platformFeeBps == 0 && p.arbiterFeeMsats == 0
            && p.createdAt == at && p.expirySeconds == c.terms.roundEnd - at && c.createdAt <= at < c.terms.fillDeadline
            && who != p.seller && (exists k :: k in c.pool && k != who && k != p.seller)
            && Lawful(c.terms, c.createdAt) && (forall k :: k in p.bonded ==> k in p.pool)
            && (p.policy == ShareV2 <==> c.terms.pot == RotationV2 && c.terms.roundIndex >= 2)
    ensures p.policy == ShareV1 && p.seller != parent.value.creator ==>
              && vouch.Some? && vouch.value.id == ShareOf(p.parent, p.seller, parent.value.terms.roundIndex)
              && vouch.value.policy == ShareV1 && vouch.value.parent == p.parent && vouch.value.buyer == p.seller
              && vouch.value.lockedAt.Some? && vouch.value.lockedAt.value <= at
  {
    hide CollectorSeatError, Lawful;
  }

  /** The next round as its writer derives it names the community, if it has a name. */
  lemma DerivedRoundNames(cycle: Context, now: int)
    requires NextRoundOf(cycle, now).Ok?
    ensures var p := NextRoundOf(cycle, now).value.payload;
            p.community != Some("") && SameCommunity(p.community, RotationFrom(cycle, None).value.anchor.community)
  {
    hide RotationFrom, LastRound, SealedOrder, FindCircle, DeadlineOf, EndOf;
  }

  // ── Rounds inherit ─────────────────────────────────────────────────────────

  /** Collection round c keeps the terms of the anchor a. */
  predicate KeepsTermsOf(c: CircleState, a: CircleState)
  {
    && c.id == RoundOf(a.id, c.terms.roundIndex)
    && c.pool == a.pool && c.bonded == a.bonded && c.fed == a.fed && c.fedPrefix == a.fedPrefix
    && c.mint == a.mint && SameCommunity(c.community, a.community)
    && c.terms.shareMsats == a.terms.shareMsats && c.terms.unlisted && c.terms.seatCap == Some(c.terms.seatThreshold)
    && c.terms.fillDeadline - StartOf(a, c.terms.roundIndex) == a.terms.fillDeadline - a.createdAt
    && c.terms.roundEnd - StartOf(a, c.terms.roundIndex) == a.terms.roundEnd - a.createdAt
  }

  /** A rotation's first round on the chain that c continues. */
  ghost predicate Inherits(c: CircleState, circles: seq<CircleState>)
  {
    RotationRound(c.terms) ==>
      exists a :: a in circles && a.terms.roundIndex == 1 && a.terms.pot == RotationV2 && KeepsTermsOf(c, a)
  }

  lemma RoundTakesTerms(w: World, id: Id, who: Pubkey, p: CirclePayload, sim: bool) returns (a: CircleState)
    requires Structured(w) && RotationRound(p.terms)
    requires CircleCreateError(p, id, who, w.now, Some(w.View()), sim) == None
    ensures a in w.circles && a.terms.roundIndex == 1 && a.terms.pot == RotationV2
    ensures id == RoundOf(a.id, p.terms.roundIndex)
    ensures p.pool == a.pool && p.bonded == a.bonded && p.fed == a.fed && p.fedPrefix == a.fedPrefix && p.mint == a.mint
    ensures SameCommunity(p.community, a.community) && p.terms.shareMsats == a.terms.shareMsats && p.terms.unlisted
    ensures p.terms.seatCap == Some(p.terms.seatThreshold)
    ensures p.terms.fillDeadline == DeadlineOf(a, p.terms.roundIndex)
    ensures p.terms.roundEnd == EndOf(a, p.terms.roundIndex)
  {
    hide CircleCreateError, Structured, SealedOrder, Lawful, RotationFrom, PreviousRoundError, Sealable, FindCircle;
    hide SameCommunity, EndOf, DeadlineOf, StartOf;
    var s := AcceptedRoundFacts(w, id, who, p, sim);
    a := s.anchor;
    AcceptedRound(p, id, who, w.now, w.View(), sim);
    AcceptedRoundCarries(p, id, who, w.now, w.View(), sim);
    AnchorIs(w, id, p.terms.roundIndex, s);
  }

  lemma NewRoundInherits(w: World, id: Id, who: Pubkey, p: CirclePayload, sim: bool)
    requires Structured(w) && CircleCreateError(p, id, who, w.now, Some(w.View()), sim) == None
    ensures Inherits(NewCircle(w, id, who, p), w.circles)
  {
    if RotationRound(p.terms) {
      hide CircleCreateError, Structured, KeepsTermsOf, SameCommunity;
      var a := RoundTakesTerms(w, id, who, p, sim);
      PayloadKeepsTerms(w, id, who, p, a);
    }
  }

  lemma PayloadKeepsTerms(w: World, id: Id, who: Pubkey, p: CirclePayload, a: CircleState)
    requires id == RoundOf(a.id, p.terms.roundIndex)
    requires p.pool == a.pool && p.bonded == a.bonded && p.mint == a.mint
    requires p.fed == a.fed && p.fedPrefix == a.fedPrefix
    requires SameCommunity(p.community, a.community) && p.terms.shareMsats == a.terms.shareMsats && p.terms.unlisted
    requires p.terms.seatCap == Some(p.terms.seatThreshold)
    requires p.terms.fillDeadline == DeadlineOf(a, p.terms.roundIndex)
    requires p.terms.roundEnd == EndOf(a, p.terms.roundIndex)
    ensures KeepsTermsOf(NewCircle(w, id, who, p), a)
  {
  }

  lemma AnchorIs(w: World, id: Id, r: int, s: Sealed)
    requires Structured(w) && RotationFrom(w.View(), Some(Claim(id, r))).Ok? && s.anchor in w.circles
    requires id == RoundOf(s.anchor.id, r)
    requires id == RoundOf(RotationFrom(w.View(), Some(Claim(id, r))).value.anchor.id, r)
    ensures RotationFrom(w.View(), Some(Claim(id, r))).value.anchor == s.anchor
    ensures s.anchor.terms.roundIndex == 1 && s.anchor.terms.pot == RotationV2
  {
    hide SealedOrder, Lawful, RotationFrom;
    SealedFacts(w.View(), Some(Claim(id, r)));
    FindUnique(w.circles, s.anchor);
    FindUnique(w.circles, RotationFrom(w.View(), Some(Claim(id, r))).value.anchor);
  }

  /** In every run every collection round keeps the arbiters, the federation, the mint, the community, the amount and
      the windows of its cycle's first round. */
  lemma {:induction false} RoundsInherit(start: int, evs: seq<Event>)
    ensures forall c :: c in Replay(Genesis(start), evs).circles ==> Inherits(c, Replay(Genesis(start), evs).circles)
  {
    if evs != [] {
      hide CircleCreateError, ShareCreateError, Good, Structured, KeepsTermsOf;
      var w, ev := Replay(Genesis(start), evs[..|evs| - 1]), evs[|evs| - 1];
      RoundsInherit(start, evs[..|evs| - 1]);
      EveryRunIsGood(start, evs[..|evs| - 1]);
      GoodIsStructured(w);
      StepGrows(w, ev);
      if ev.OpenCircle? && Step(w, ev) != w {
        NewRoundInherits(w, ev.id, ev.who, ev.circle, ev.sim);
      }
      assert forall c :: c in w.circles ==> c in Step(w, ev).circles;
    }
  }

  // ── Witnesses have locked ──────────────────────────────────────────────────

  /** Share j of the same round was locked by the member who witnesses share i, before share i was created. */
  predicate Vouches(shares: seq<ShareState>, j: nat, i: nat)
    requires j < |shares| && i < |shares|
  {
    && shares[j].policy == ShareV1 && shares[j].parent == shares[i].parent && shares[j].buyer == shares[i].seller
    && shares[j].lockedAt.Some? && shares[j].lockedAt.value <= shares[i].createdAt
  }

  predicate WitnessedByCreator(w: World, e: ShareState)
  {
    FindCircle(w.circles, e.parent).Some? && e.seller == FindCircle(w.circles, e.parent).value.creator
  }

  /** Every fill-or-refund share is witnessed by the creator or by a member who locked before it existed. */
  ghost predicate Witnessed(w: World)
  {
    forall i :: 0 <= i < |w.shares| && w.shares[i].policy == ShareV1 && !WitnessedByCreator(w, w.shares[i]) ==>
      exists j :: 0 <= j < i && Vouches(w.shares, j, i)
  }

  lemma NewShareIsWitnessed(w: World, id: Id, who: Pubkey, p: SharePayload) returns (j: nat)
    requires var parent := FindCircle(w.circles, p.parent);
             && ShareCreateError(p, id, who, w.now, parent, WitnessOf(w, p, parent), Some(w.View())) == None
             && p.policy == ShareV1 && p.seller != parent.value.creator
    ensures j < |w.shares| && w.shares[j].policy == ShareV1 && w.shares[j].parent == p.parent
    ensures w.shares[j].buyer == p.seller && w.shares[j].lockedAt.Some? && w.shares[j].lockedAt.value <= w.now
  {
    hide ShareCreateError;
    var parent := FindCircle(w.circles, p.parent);
    AcceptedShareCarries(p, id, who, w.now, parent, WitnessOf(w, p, parent), Some(w.View()));
    j := ShareIndex(w.shares, ShareOf(p.parent, p.seller, parent.value.terms.roundIndex));
  }

  lemma OldShareIsWitnessed(w: World, v: World, i: nat) returns (j: nat)
    requires Structured(w) && Structured(v) && Witnessed(w) && Grew(w, v) && i < |w.shares|
    requires w.shares[i].policy == ShareV1 && !WitnessedByCreator(v, v.shares[i])
    ensures j < i && Vouches(v.shares, j, i)
  {
    assert ShareFits(w.shares[i], w.circles, w.now);
    FindGrew(w, v, w.shares[i].parent);
    assert SameSeat(w.shares[i], v.shares[i]) && !WitnessedByCreator(w, w.shares[i]);
    j :| 0 <= j < i && Vouches(w.shares, j, i);
    assert SameSeat(w.shares[j], v.shares[j]);
  }

  lemma StepKeepsWitnessed(w: World, ev: Event)
    requires Structured(w) && Witnessed(w)
    ensures Witnessed(Step(w, ev))
  {
    hide Structured, CircleCreateError, ShareCreateError, ShareStep, Witnessed, Vouches;
    var v := Step(w, ev);
    StepGrows(w, ev);
    StepKeepsStructure(w, ev);
    forall i: nat | i < |v.shares| && v.shares[i].policy == ShareV1 && !WitnessedByCreator(v, v.shares[i])
      ensures exists j: nat :: j < i && Vouches(v.shares, j, i)
    {
      if i < |w.shares| {
        var j := OldShareIsWitnessed(w, v, i);
      } else {
        var parent := FindCircle(w.circles, ev.share.parent);
        AcceptedShareCarries(ev.share, ev.id, ev.who, w.now, parent, WitnessOf(w, ev.share, parent), Some(w.View()));
        var j := NewShareIsWitnessed(w, ev.id, ev.who, ev.share);
        assert Vouches(v.shares, j, i) by { NewVouch(w, v, j, i); }
      }
    }
    EachWitnessed(v);
  }

  lemma NewVouch(w: World, v: World, j: nat, i: nat)
    requires j < |w.shares| == i < |v.shares| && v.shares[j] == w.shares[j] && v.shares[i].createdAt == w.now
    requires w.shares[j].policy == ShareV1 && w.shares[j].parent == v.shares[i].parent
    requires w.shares[j].buyer == v.shares[i].seller
    requires w.shares[j].lockedAt.Some? && w.shares[j].lockedAt.value <= w.now
    ensures Vouches(v.shares, j, i)
  {
  }

  lemma EachWitnessed(w: World)
    requires forall i: nat :: i < |w.shares| && w.shares[i].policy == ShareV1 && !WitnessedByCreator(w, w.shares[i]) ==>
               exists j: nat :: j < i && Vouches(w.shares, j, i)
    ensures Witnessed(w)
  {
  }

  lemma {:induction false} RunsAreWitnessed(start: int, evs: seq<Event>)
    ensures Witnessed(Replay(Genesis(start), evs))
  {
    if evs != [] {
      hide Good, Structured, Step;
      RunsAreWitnessed(start, evs[..|evs| - 1]);
      EveryRunIsGood(start, evs[..|evs| - 1]);
      GoodIsStructured(Replay(Genesis(start), evs[..|evs| - 1]));
      StepKeepsWitnessed(Replay(Genesis(start), evs[..|evs| - 1]), evs[|evs| - 1]);
    }
  }

  /** The chain of witnesses behind share i leads back to one the creator witnessed. */
  ghost predicate VouchedBack(w: World, i: nat)
    requires i < |w.shares|
    decreases i
  {
    WitnessedByCreator(w, w.shares[i]) || exists j: nat :: j < i && Vouches(w.shares, j, i) && VouchedBack(w, j)
  }

  /** In every run every fill-or-refund share is witnessed, by members who locked before it existed and who were so
      witnessed themselves, back to the circle's creator: a ring of witnesses never closes on itself. */
  lemma {:induction false} RingsLeadToTheCreator(start: int, evs: seq<Event>, i: nat)
    requires i < |Replay(Genesis(start), evs).shares| && Replay(Genesis(start), evs).shares[i].policy == ShareV1
    ensures VouchedBack(Replay(Genesis(start), evs), i)
    decreases i
  {
    hide Replay;
    var w := Replay(Genesis(start), evs);
    RunsAreWitnessed(start, evs);
    if !WitnessedByCreator(w, w.shares[i]) {
      var j :| 0 <= j < i && Vouches(w.shares, j, i);
      RingsLeadToTheCreator(start, evs, j);
    }
  }
}
