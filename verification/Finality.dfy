/** What every run keeps: sealed orders and named collectors never change, no open round is stuck,
    and each rotation share sits where the outcome law expects it. */
module Finality {
  import opened Prelude
  import opened Circles
  import opened Rotation
  import opened Race
  import opened Gates
  import opened Writers
  import opened Chain

  // ── Views ──────────────────────────────────────────────────────────────────

  /** Shares as a view may list them: any order, repeats allowed, one escrow per seat. */
  ghost predicate LawfulShares(v: seq<ShareState>)
  {
    && (forall e, f :: e in v && f in v && e.id == f.id ==> e == f)
    && (forall e, f :: e in v && f in v && e.policy == f.policy && e.parent == f.parent && e.buyer == f.buyer ==>
        e.id == f.id)
  }

  lemma WorldSharesAreLawful(w: World)
    requires Structured(w)
    ensures LawfulShares(w.shares)
  {
    forall e, f | e in w.shares && f in w.shares && e.policy == f.policy && e.parent == f.parent && e.buyer == f.buyer
      ensures e.id == f.id
    {
      assert ShareFits(e, w.circles, w.now) && ShareFits(f, w.circles, w.now);
    }
  }

  lemma {:induction false} SeatIsLock(anchor: Id, v: seq<ShareState>, l: SeatLock)
    ensures l in CommitmentSeats(anchor, v) ==>
              exists e :: e in v && CommitmentShare(anchor, e) && e.lockedAt.Some?
                          && l == SeatLock(anchor, e.buyer, Some(e.id), e.lockedAt, Locked)
  {
    if v != [] {
      var n := |v| - 1;
      SeatIsLock(anchor, v[..n], l);
      assert v == v[..n] + [v[n]];
      if l in CommitmentSeats(anchor, v[..n]) {
        var e :| e in v[..n] && CommitmentShare(anchor, e) && e.lockedAt.Some?
                 && l == SeatLock(anchor, e.buyer, Some(e.id), e.lockedAt, Locked);
        assert e in v;
      }
    }
  }

  lemma {:induction false} LockIsSeat(anchor: Id, v: seq<ShareState>, e: ShareState)
    requires forall x, y :: x in v && y in v && x.id == y.id ==> x == y
    requires e in v && CommitmentShare(anchor, e) && e.lockedAt.Some?
    ensures SeatLock(anchor, e.buyer, Some(e.id), e.lockedAt, Locked) in CommitmentSeats(anchor, v)
  {
    var n := |v| - 1;
    assert v == v[..n] + [v[n]];
    if e in v[..n] {
      LockIsSeat(anchor, v[..n], e);
    } else {
      assert e == v[n];
      forall i | 0 <= i < n && CommitmentShare(anchor, v[i])
        ensures v[i].id != v[n].id
      {
        assert v[i] in v[..n];
      }
    }
  }

  /** The sealed order is drawn from the commitment round's locks and nothing else. */
  lemma SeatedRacers(anchor: Id, v: seq<ShareState>)
    requires LawfulShares(v)
    ensures Elements(Collect(SeatedIn(anchor), CommitmentSeats(anchor, v))) == LocksOf(ShareV1, anchor, v)
    ensures OneLockEach(LocksOf(ShareV1, anchor, v))
  {
    var seats := CommitmentSeats(anchor, v);
    CollectMembers(SeatedIn(anchor), seats);
    forall x
      ensures x in Collect(SeatedIn(anchor), seats) <==> x in LocksOf(ShareV1, anchor, v)
    {
      if x in Collect(SeatedIn(anchor), seats) {
        var l :| l in seats && SeatedIn(anchor)(l) == Some(x);
        SeatIsLock(anchor, v, l);
      }
      if x in LocksOf(ShareV1, anchor, v) {
        var e :| e in v && e.policy == ShareV1 && e.parent == anchor && e.lockedAt.Some?
            && x == Racer(e.buyer, e.lockedAt.value);
        LockIsSeat(anchor, v, e);
        assert SeatedIn(anchor)(SeatLock(anchor, e.buyer, Some(e.id), e.lockedAt, Locked)) == Some(x);
      }
    }
  }

  lemma OrderFromLocks(a: CircleState, u: seq<ShareState>, v: seq<ShareState>)
    requires LawfulShares(u) && LawfulShares(v)
    requires LocksOf(ShareV1, a.id, u) == LocksOf(ShareV1, a.id, v)
    ensures SealedOrder(a, u) == SealedOrder(a, v)
  {
    SeatedRacers(a.id, u);
    SeatedRacers(a.id, v);
    OrderFromSet(a.creator, Collect(SeatedIn(a.id), CommitmentSeats(a.id, u)),
                 Collect(SeatedIn(a.id), CommitmentSeats(a.id, v)));
  }

  lemma SealedOrderIsDistinct(a: CircleState, v: seq<ShareState>)
    ensures Distinct(SealedOrder(a, v))
  {
    OrderSpec(a.creator, Collect(SeatedIn(a.id), CommitmentSeats(a.id, v)));
  }

  /** Every sealed member locked the commitment round. */
  lemma SealedMembersLocked(a: CircleState, v: seq<ShareState>)
    requires LawfulShares(v)
    ensures CommitmentFilled(Cycle(a.id, SealedOrder(a, v), a.creator), v)
  {
    var racers := Collect(SeatedIn(a.id), CommitmentSeats(a.id, v));
    OrderSpec(a.creator, racers);
    SeatedRacers(a.id, v);
    forall m | m in SealedOrder(a, v)
      ensures exists x :: x in LocksOf(ShareV1, a.id, v) && x.member == m
    {
      assert m in Elements(SealedOrder(a, v));
      var x :| x in racers && x.member == m;
      assert x in Elements(racers);
    }
  }

  // ── Locks of a closed round are frozen ─────────────────────────────────────

  lemma LocksAreFrozen(v: World, w: World, policy: Policy, parent: Id)
    requires Grew(v, w) && Structured(w)
    requires FindCircle(w.circles, parent).Some? ==> v.now >= FindCircle(w.circles, parent).value.terms.fillDeadline
    ensures LocksOf(policy, parent, v.shares) == LocksOf(policy, parent, w.shares)
  {
    forall e | e in v.shares && e.policy == policy && e.parent == parent && e.lockedAt.Some?
      ensures Racer(e.buyer, e.lockedAt.value) in LocksOf(policy, parent, w.shares)
    {
      var i :| 0 <= i < |v.shares| && v.shares[i] == e;
      assert SameSeat(v.shares[i], w.shares[i]);
      assert w.shares[i] in w.shares;
    }
    forall f | f in w.shares && f.policy == policy && f.parent == parent && f.lockedAt.Some?
      ensures Racer(f.buyer, f.lockedAt.value) in LocksOf(policy, parent, v.shares)
    {
      var i :| 0 <= i < |w.shares| && w.shares[i] == f;
      assert ShareFits(f, w.circles, w.now);
      assert !LandsFrom(v.now, f);
      assert SameSeat(v.shares[i], f) && v.shares[i].lockedAt == f.lockedAt;
      assert v.shares[i] in v.shares;
    }
  }

  lemma FindGrew(v: World, w: World, id: Id)
    requires v.circles <= w.circles && Structured(w) && FindCircle(v.circles, id).Some?
    ensures FindCircle(w.circles, id) == FindCircle(v.circles, id)
  {
    FindMember(v.circles, id);
    FindUnique(w.circles, FindCircle(v.circles, id).value);
  }

  /** Once a round's fill deadline has passed, the race it feeds is decided for good. */
  lemma RaceIsFrozen(v: World, w: World, a: CircleState, k: int)
    requires Grew(v, w) && Structured(v) && Structured(w)
    requires a in v.circles && CanAnchor(a, None) && k >= 2 && v.now >= DeadlineOf(a, k - 1)
    ensures LocksOf(PreviousPolicy(k), PreviousId(a.id, k), v.shares)
        == LocksOf(PreviousPolicy(k), PreviousId(a.id, k), w.shares)
  {
    FindUnique(v.circles, a);
    FindGrew(v, w, a.id);
    ScheduleTiles(a, 1, v.now);
    if k == 2 {
      LocksAreFrozen(v, w, ShareV1, a.id);
    } else {
      var id := RoundOf(a.id, k - 1);
      var p := FindCircle(w.circles, id);
      FindMember(w.circles, id);
      if p.Some? && RotationRound(p.value.terms) {
        assert CircleFits(p.value, w.circles, w.now);
        LocksAreFrozen(v, w, ShareV2, id);
      } else {
        NoRotationLocks(v, w, id);
      }
    }
  }

  lemma NoRotationLocks(v: World, w: World, id: Id)
    requires Grew(v, w) && Structured(w)
    requires FindCircle(w.circles, id).Some? ==> !RotationRound(FindCircle(w.circles, id).value.terms)
    ensures LocksOf(ShareV2, id, v.shares) == {} == LocksOf(ShareV2, id, w.shares)
  {
    forall f | f in w.shares
      ensures !(f.policy == ShareV2 && f.parent == id)
    {
      assert ShareFits(f, w.circles, w.now);
    }
    forall e | e in v.shares
      ensures !(e.policy == ShareV2 && e.parent == id)
    {
      var i :| 0 <= i < |v.shares| && v.shares[i] == e;
      assert SameSeat(e, w.shares[i]) && w.shares[i] in w.shares;
    }
  }

  function CycleOf(a: CircleState, shares: seq<ShareState>): Cycle
  {
    Cycle(a.id, SealedOrder(a, shares), a.creator)
  }

  lemma OrderIsFrozen(v: World, w: World, a: CircleState)
    requires Grew(v, w) && Structured(v) && Structured(w)
    requires a in v.circles && v.now >= a.terms.fillDeadline
    ensures SealedOrder(a, v.shares) == SealedOrder(a, w.shares)
  {
    FindUnique(v.circles, a);
    FindGrew(v, w, a.id);
    LocksAreFrozen(v, w, ShareV1, a.id);
    WorldSharesAreLawful(v);
    WorldSharesAreLawful(w);
    OrderFromLocks(a, v.shares, w.shares);
  }

  lemma EarlierDeadlinesPassed(a: CircleState, k: int, r: int, now: int)
    requires CanAnchor(a, None) && k <= r && now >= DeadlineOf(a, r)
    ensures now >= DeadlineOf(a, k)
  {
    if k < r {
      StartsGrow(a, k, r);
      ScheduleTiles(a, k, now);
      ScheduleTiles(a, r, now);
    }
  }

  lemma RacesAreFrozen(v: World, w: World, a: CircleState, r: int)
    requires Grew(v, w) && Structured(v) && Structured(w)
    requires a in v.circles && CanAnchor(a, None) && r >= 2 && v.now >= DeadlineOf(a, r - 1)
    ensures forall k :: 2 <= k <= r ==>
              LocksOf(PreviousPolicy(k), PreviousId(a.id, k), v.shares)
                  == LocksOf(PreviousPolicy(k), PreviousId(a.id, k), w.shares)
  {
    forall k | 2 <= k <= r
      ensures LocksOf(PreviousPolicy(k), PreviousId(a.id, k), v.shares)
          == LocksOf(PreviousPolicy(k), PreviousId(a.id, k), w.shares)
    {
      EarlierDeadlinesPassed(a, k - 1, r - 1, v.now);
      RaceIsFrozen(v, w, a, k);
    }
  }

  /** Both worlds give the same order and the same collector of round r. */
  lemma CollectorIsFrozen(v: World, w: World, a: CircleState, r: int)
    requires Grew(v, w) && Structured(v) && Structured(w)
    requires a in v.circles && CanAnchor(a, None) && r >= 2 && v.now >= DeadlineOf(a, r - 1)
    ensures SealedOrder(a, v.shares) == SealedOrder(a, w.shares)
    ensures CollectorOf(CycleOf(a, v.shares), v.shares, r) == CollectorOf(CycleOf(a, w.shares), w.shares, r)
  {
    hide Structured, Grew, Collectors, LocksOf, SealedOrder;
    ScheduleTiles(a, 1, v.now);
    EarlierDeadlinesPassed(a, 1, r - 1, v.now);
    OrderIsFrozen(v, w, a);
    RacesAreFrozen(v, w, a, r);
    CollectorsFromLocks(CycleOf(a, v.shares), v.shares, w.shares, r);
  }

  // ── The sealing invariant ──────────────────────────────────────────────────

  /** A collection round opened on a sealed cycle that has a collector for it, with a seat for everyone else. */
  predicate RoundSealed(c: CircleState, a: CircleState, shares: seq<ShareState>)
  {
    var o := SealedOrder(a, shares);
    && Sealable(a, shares)
    && c.terms.roundIndex <= |o| + 1
    && c.terms.seatThreshold == |o| - 1
    && CollectorOf(CycleOf(a, shares), shares, c.terms.roundIndex).Some?
  }

  predicate SeatSealed(e: ShareState, a: CircleState, shares: seq<ShareState>)
  {
    && e.buyer in SealedOrder(a, shares)
    && CollectorOf(CycleOf(a, shares), shares, e.circle.roundIndex) == Some(e.seller)
  }

  function AnchorOf(circles: seq<CircleState>, id: Id): Option<CircleState>
  {
    if id.RoundOf? then FindCircle(circles, id.anchor) else None
  }

  ghost predicate Good(w: World)
  {
    && Structured(w)
    && (forall c :: c in w.circles && RotationRound(c.terms) ==>
          AnchorOf(w.circles, c.id).Some? && RoundSealed(c, AnchorOf(w.circles, c.id).value, w.shares))
    && (forall e :: e in w.shares && e.policy == ShareV2 ==>
          AnchorOf(w.circles, e.parent).Some? && SeatSealed(e, AnchorOf(w.circles, e.parent).value, w.shares))
  }

  /** The anchor of a chained round, and the facts that go with it. */
  lemma AnchorOfRound(w: World, c: CircleState) returns (a: CircleState)
    requires Structured(w) && c in w.circles && RotationRound(c.terms)
    ensures a in w.circles && CanAnchor(a, None) && c.id == RoundOf(a.id, c.terms.roundIndex)
    ensures FindCircle(w.circles, c.id.anchor) == Some(a) && OnSchedule(c, w.circles)
    ensures w.now >= StartOf(a, c.terms.roundIndex) >= DeadlineOf(a, c.terms.roundIndex - 1)
  {
    assert CircleFits(c, w.circles, w.now);
    a := FindCircle(w.circles, c.id.anchor).value;
    FindMember(w.circles, c.id.anchor);
    ScheduleTiles(a, c.terms.roundIndex - 1, w.now);
  }

  lemma RoundStaysSealed(v: World, w: World, c: CircleState, a: CircleState)
    requires Grew(v, w) && Structured(v) && Structured(w)
    requires a in v.circles && CanAnchor(a, None) && c.terms.roundIndex >= 2
    requires v.now >= DeadlineOf(a, c.terms.roundIndex - 1)
    requires RoundSealed(c, a, v.shares)
    ensures RoundSealed(c, a, w.shares)
  {
    CollectorIsFrozen(v, w, a, c.terms.roundIndex);
  }

  lemma SeatStaysSealed(v: World, w: World, e: ShareState, f: ShareState, a: CircleState)
    requires Grew(v, w) && Structured(v) && Structured(w) && SameSeat(e, f)
    requires a in v.circles && CanAnchor(a, None) && e.circle.roundIndex >= 2
    requires v.now >= DeadlineOf(a, e.circle.roundIndex - 1)
    requires SeatSealed(e, a, v.shares)
    ensures SeatSealed(f, a, w.shares)
  {
    CollectorIsFrozen(v, w, a, e.circle.roundIndex);
  }

  /** The parent round of a rotation share. */
  lemma RoundOfShare(w: World, e: ShareState) returns (c: CircleState)
    requires Structured(w) && e in w.shares && e.policy == ShareV2
    ensures c in w.circles && RotationRound(c.terms) && c.id == e.parent && c.terms == e.circle
    ensures FindCircle(w.circles, e.parent) == Some(c)
  {
    assert ShareFits(e, w.circles, w.now);
    c := FindCircle(w.circles, e.parent).value;
    FindMember(w.circles, e.parent);
  }

  lemma AcceptedRoundFacts(w: World, id: Id, who: Pubkey, p: CirclePayload, sim: bool) returns (s: Sealed)
    requires Structured(w) && RotationRound(p.terms)
    requires CircleCreateError(p, id, who, w.now, Some(w.View()), sim) == None
    ensures s.anchor in w.circles && s.order == SealedOrder(s.anchor, w.shares) && Sealable(s.anchor, w.shares)
    ensures id == RoundOf(s.anchor.id, p.terms.roundIndex) && FindCircle(w.circles, s.anchor.id) == Some(s.anchor)
    ensures p.terms.roundIndex <= |s.order| + 1 && p.terms.seatThreshold == |s.order| - 1
    ensures PreviousRoundError(s, w.shares, p.terms.roundIndex) == None
  {
    AcceptedRound(p, id, who, w.now, w.View(), sim);
    s := SealedAnchor(w, Claim(id, p.terms.roundIndex));
  }

  /** The cycle a claim resolves to, in a world where circle ids are unique. */
  lemma SealedAnchor(w: World, claim: Claim) returns (s: Sealed)
    requires UniqueCircles(w.circles) && RotationFrom(w.View(), Some(claim)).Ok?
    ensures RotationFrom(w.View(), Some(claim)) == Ok(s) && s.order == SealedOrder(s.anchor, w.shares)
    ensures s.anchor in w.circles && FindCircle(w.circles, s.anchor.id) == Some(s.anchor)
    ensures CanAnchor(s.anchor, Some(claim)) && Sealable(s.anchor, w.shares)
  {
    s := RotationFrom(w.View(), Some(claim)).value;
    SealedFacts(w.View(), Some(claim));
    FindUnique(w.circles, s.anchor);
  }

  /** An accepted round CREATE opens on a sealed cycle that already names its collector. */
  lemma AcceptedRoundIsSealed(w: World, id: Id, who: Pubkey, p: CirclePayload, sim: bool)
    requires Structured(w) && RotationRound(p.terms)
    requires CircleCreateError(p, id, who, w.now, Some(w.View()), sim) == None
    ensures id.RoundOf? && FindCircle(w.circles, id.anchor).Some?
    ensures RoundSealed(NewCircle(w, id, who, p), FindCircle(w.circles, id.anchor).value, w.shares)
  {
    var s := AcceptedRoundFacts(w, id, who, p, sim);
    OpenableRoundHasCollector(w, s, p.terms.roundIndex);
  }

  lemma OpenableRoundHasCollector(w: World, s: Sealed, r: int)
    requires Structured(w) && s.order == SealedOrder(s.anchor, w.shares) && 2 <= r <= |s.order| + 1
    requires PreviousRoundError(s, w.shares, r) == None
    ensures CollectorOf(s.Cy(), w.shares, r).Some?
  {
    WorldSharesAreLawful(w);
    SealedMembersLocked(s.anchor, w.shares);
    SealedOrderIsDistinct(s.anchor, w.shares);
    PreviousRoundCheck(s, w.shares, r);
    NoDeadlock(s.Cy(), w.shares, r);
  }

  /** An accepted rotation share seats a sealed member opposite the round's collector. */
  lemma AcceptedSeatIsSealed(w: World, id: Id, who: Pubkey, p: SharePayload)
    requires Structured(w) && p.policy == ShareV2
    requires FindCircle(w.circles, p.parent).Some?
    requires ShareCreateError(p, id, who, w.now, FindCircle(w.circles, p.parent),
                              WitnessOf(w, p, FindCircle(w.circles, p.parent)),
                              Some(w.View())) == None
    ensures p.parent.RoundOf? && FindCircle(w.circles, p.parent.anchor).Some?
    ensures SeatSealed(NewShare(w, id, who, p, FindCircle(w.circles, p.parent).value),
                       FindCircle(w.circles, p.parent.anchor).value, w.shares)
  {
    FindMember(w.circles, p.parent);
    var parent := FindCircle(w.circles, p.parent).value;
    AcceptedSeat(p, id, who, w.now, parent, WitnessOf(w, p, Some(parent)), w.View());
    var s := SealedAnchor(w, Claim(parent.id, parent.terms.roundIndex));
  }

  lemma OldRoundsStaySealed(v: World, w: World, c: CircleState)
    requires Good(v) && Structured(w) && Grew(v, w) && c in v.circles && RotationRound(c.terms)
    ensures AnchorOf(w.circles, c.id).Some? && RoundSealed(c, AnchorOf(w.circles, c.id).value, w.shares)
  {
    var a := AnchorOfRound(v, c);
    FindGrew(v, w, a.id);
    RoundStaysSealed(v, w, c, a);
  }

  lemma OldSeatsStaySealed(v: World, w: World, i: nat)
    requires Good(v) && Structured(w) && Grew(v, w) && i < |v.shares| && v.shares[i].policy == ShareV2
    ensures AnchorOf(w.circles, w.shares[i].parent).Some?
    ensures SeatSealed(w.shares[i], AnchorOf(w.circles, w.shares[i].parent).value, w.shares)
  {
    hide SealedOrder, Collectors, Structured, Lawful, SeatSealed;
    var e := v.shares[i];
    assert e in v.shares && SameSeat(e, w.shares[i]);
    var c := RoundOfShare(v, e);
    var a := AnchorOfRound(v, c);
    FindGrew(v, w, a.id);
    SeatStaysSealed(v, w, e, w.shares[i], a);
  }

  lemma StepKeepsGood(w: World, ev: Event)
    requires Good(w)
    ensures Good(Step(w, ev))
  {
    hide SealedOrder, Collectors, Structured, Lawful, SeatSealed, RoundSealed, RotationFrom;
    var v := Step(w, ev);
    StepKeepsStructure(w, ev);
    StepGrows(w, ev);
    forall c | c in v.circles && RotationRound(c.terms)
      ensures AnchorOf(v.circles, c.id).Some? && RoundSealed(c, AnchorOf(v.circles, c.id).value, v.shares)
    {
      if c in w.circles {
        OldRoundsStaySealed(w, v, c);
      } else {
        AcceptedRoundIsSealed(w, ev.id, ev.who, ev.circle, ev.sim);
        FindGrew(w, v, c.id.anchor);
      }
    }
    forall e | e in v.shares && e.policy == ShareV2
      ensures AnchorOf(v.circles, e.parent).Some? && SeatSealed(e, AnchorOf(v.circles, e.parent).value, v.shares)
    {
      var i :| 0 <= i < |v.shares| && v.shares[i] == e;
      if i < |w.shares| {
        OldSeatsStaySealed(w, v, i);
      } else {
        AcceptedSeatIsSealed(w, ev.id, ev.who, ev.share);
        NewSeatStaysSealed(w, v, e);
      }
    }
  }

  lemma NewSeatStaysSealed(w: World, v: World, e: ShareState)
    requires Structured(w) && Structured(v) && Grew(w, v) && v.circles == w.circles && v.now == w.now
    requires e in v.shares && e.policy == ShareV2
    requires e.parent.RoundOf? && FindCircle(w.circles, e.parent.anchor).Some?
    requires SeatSealed(e, FindCircle(w.circles, e.parent.anchor).value, w.shares)
    ensures AnchorOf(v.circles, e.parent).Some? && SeatSealed(e, AnchorOf(v.circles, e.parent).value, v.shares)
  {
    hide SealedOrder, Collectors, Lawful, SeatSealed;
    var c := RoundOfShare(v, e);
    var a := AnchorOfRound(v, c);
    SeatStaysSealed(w, v, e, e, a);
  }

  /** The invariant holds in every run. */
  lemma {:induction false} ReplayKeepsGood(w: World, evs: seq<Event>)
    requires Good(w)
    ensures Good(Replay(w, evs))
  {
    if evs != [] {
      ReplayKeepsGood(w, evs[..|evs| - 1]);
      StepKeepsGood(Replay(w, evs[..|evs| - 1]), evs[|evs| - 1]);
    }
  }

  lemma EveryRunIsGood(start: int, evs: seq<Event>)
    ensures Good(Replay(Genesis(start), evs))
  {
    ReplayKeepsGood(Genesis(start), evs);
  }
}
