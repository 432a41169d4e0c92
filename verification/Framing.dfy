/** Who can be marked for a round, from any glimpse of a run, and for what: the exact condition. */
module Framing {
  import opened Prelude
  import opened Circles
  import opened Rotation
  import opened Race
  import opened Gates
  import opened Writers
  import opened Chain
  import opened Finality
  import opened Protocol
  import opened Conduct
  import opened Accusation
  import opened RotationViews
  import opened Cycles

  // ── Every earlier round filled ─────────────────────────────────────────────

  /** The round before c filled. */
  ghost predicate PreviousFilled(w: World, c: CircleState)
  {
    RotationRound(c.terms) && c.terms.roundIndex > 2 && AnchorOf(w.circles, c.id).Some? ==>
      RoundFilled(CycleOf(AnchorOf(w.circles, c.id).value, w.shares), w.shares, c.terms.roundIndex - 1)
  }

  lemma NewRoundFollowsFilled(w: World, id: Id, who: Pubkey, p: CirclePayload, sim: bool)
    requires Good(w) && Structured(w) && CircleCreateError(p, id, who, w.now, Some(w.View()), sim) == None
    ensures var n := NewCircle(w, id, who, p);
            PreviousFilled(w.(circles := w.circles + [n]), n)
  {
    hide Good, Structured, CircleCreateError, SealedOrder, RoundFilled, PreviousRoundError, PreviousFilled, Sealable;
    var n := NewCircle(w, id, who, p);
    if RotationRound(p.terms) && p.terms.roundIndex > 2 {
      var s := AcceptedRoundFacts(w, id, who, p, sim);
      PreviousRoundCheck(s, w.shares, p.terms.roundIndex);
      FindAppend(w.circles, n, s.anchor.id);
      FilledBefore(w.(circles := w.circles + [n]), n, s.anchor);
    } else {
      NothingBefore(w.(circles := w.circles + [n]), n);
    }
  }

  lemma FilledBefore(w: World, c: CircleState, a: CircleState)
    requires c.id.RoundOf? && FindCircle(w.circles, c.id.anchor) == Some(a)
    requires RoundFilled(CycleOf(a, w.shares), w.shares, c.terms.roundIndex - 1)
    ensures PreviousFilled(w, c)
  {
    hide RoundFilled, SealedOrder;
  }

  lemma NothingBefore(w: World, c: CircleState)
    requires !(RotationRound(c.terms) && c.terms.roundIndex > 2)
    ensures PreviousFilled(w, c)
  {
  }

  lemma FilledThen(w: World, c: CircleState, a: CircleState)
    requires RotationRound(c.terms) && c.terms.roundIndex > 2 && PreviousFilled(w, c)
    requires c.id.RoundOf? && FindCircle(w.circles, c.id.anchor) == Some(a)
    ensures RoundFilled(CycleOf(a, w.shares), w.shares, c.terms.roundIndex - 1)
  {
    hide RoundFilled, SealedOrder;
  }

  lemma SameCollectorSameFill(cy: Cycle, v: seq<ShareState>, w: seq<ShareState>, k: int)
    requires RoundFilled(cy, v, k) && CollectorOf(cy, v, k) == CollectorOf(cy, w, k)
    requires LocksOf(ShareV2, RoundOf(cy.anchor, k), v) == LocksOf(ShareV2, RoundOf(cy.anchor, k), w)
    ensures RoundFilled(cy, w, k)
  {
    hide CollectorOf, LocksOf;
  }

  /** Locks are frozen by the time the next round opens, so a filled round stays filled. */
  lemma FilledStaysFilled(v: World, w: World, c: CircleState)
    requires Structured(v) && Structured(w) && Grew(v, w) && c in v.circles && PreviousFilled(v, c)
    ensures PreviousFilled(w, c)
  {
    hide Structured, Grew, SealedOrder, CollectorOf, LocksOf, Lawful, CanAnchor, PreviousFilled, RoundFilled;
    if RotationRound(c.terms) && c.terms.roundIndex > 2 {
      var r := c.terms.roundIndex;
      var a := AnchorOfRound(v, c);
      CirclesGrow(v, w);
      FindGrew(v, w, a.id);
      EarlierDeadlinesPassed(a, r - 2, r - 1, v.now);
      CollectorIsFrozen(v, w, a, r - 1);
      RaceIsFrozen(v, w, a, r);
      FilledThen(v, c, a);
      SameCollectorSameFill(CycleOf(a, v.shares), v.shares, w.shares, r - 1);
      FilledBefore(w, c, a);
    } else {
      NothingBefore(w, c);
    }
  }

  lemma CirclesGrow(v: World, w: World)
    requires Grew(v, w)
    ensures v.circles <= w.circles
  {
  }

  lemma StepKeepsFilled(w: World, ev: Event)
    requires Good(w) && forall c :: c in w.circles ==> PreviousFilled(w, c)
    ensures forall c :: c in Step(w, ev).circles ==> PreviousFilled(Step(w, ev), c)
  {
    hide Good, Structured, PreviousFilled, CircleCreateError, ShareCreateError;
    var v := Step(w, ev);
    StepKeepsGood(w, ev);
    StepGrows(w, ev);
    GoodIsStructured(w);
    GoodIsStructured(v);
    forall c | c in v.circles
      ensures PreviousFilled(v, c)
    {
      if c in w.circles {
        FilledStaysFilled(w, v, c);
      } else {
        NewRoundFollowsFilled(w, ev.id, ev.who, ev.circle, ev.sim);
      }
    }
  }

  lemma {:induction false} RoundsFollowFilled(start: int, evs: seq<Event>)
    ensures forall c :: c in Replay(Genesis(start), evs).circles ==> PreviousFilled(Replay(Genesis(start), evs), c)
  {
    if evs != [] {
      hide Good, Step, PreviousFilled;
      RoundsFollowFilled(start, evs[..|evs| - 1]);
      EveryRunIsGood(start, evs[..|evs| - 1]);
      StepKeepsFilled(Replay(Genesis(start), evs[..|evs| - 1]), evs[|evs| - 1]);
    }
  }

  /** The world of a run, as far as the past of its rounds goes. */
  ghost predicate Rooted(w: World)
  {
    Chained(w) && Good(w) && Structured(w) && forall c :: c in w.circles ==> PreviousFilled(w, c)
  }

  lemma EveryRunIsRooted(start: int, evs: seq<Event>)
    ensures Rooted(Replay(Genesis(start), evs))
  {
    hide Chained, Good, Structured, PreviousFilled, Replay;
    EveryRunIsChained(start, evs);
    RoundsFollowFilled(start, evs);
  }

  /** Every round before one that exists was opened and filled. */
  lemma {:induction false} EarlierRoundFilled(w: World, c: CircleState, a: CircleState, r: int, k: int)
    returns (d: CircleState)
    requires Rooted(w) && Anchors(w, a) && c in w.circles && RoundOfCycle(c, a, r) && 2 <= k < r
    ensures d in w.circles && RoundOfCycle(d, a, k) && RoundFilled(CycleOf(a, w.shares), w.shares, k)
    decreases r
  {
    hide Good, Structured, HasPrevious, LinkedBack, RoundFilled, SealedOrder, Lawful, CanAnchor;
    d := OneHopBack(w, c, a);
    FindUniqueIn(w, a);
    assert PreviousFilled(w, c);
    if k < r - 1 {
      d := EarlierRoundFilled(w, d, a, r - 1, k);
    }
  }

  // ── Who can be marked ──────────────────────────────────────────────────────

  /** Some view of the world marks `me` for the round at `now`; `once` if views list each escrow only once. */
  ghost predicate CanBeMarked(w: World, me: Pubkey, now: int, id: Id, once: bool)
  {
    exists view :: Glimpse(view, w.shares) && (once ==> UniqueShares(view)) && Marked(view, me, now, id)
  }

  /** A share of the round other than the member's own was refunded with a time before the round's end. */
  predicate RefundedEarly(w: World, c: CircleState, me: Pubkey)
  {
    exists f :: f in w.shares && f.parent == c.id && f.buyer != me && f.resolved.Some?
                && f.resolved.value.outcome == Refund && f.resolved.value.at < c.terms.roundEnd
  }

  /** `me` collected a round before r. */
  ghost predicate CollectedEarlier(w: World, a: CircleState, me: Pubkey, r: int)
  {
    exists k: int :: 2 <= k < r && CollectorOf(CycleOf(a, w.shares), w.shares, k) == Some(me)
  }

  // ── Every mark meets the condition ─────────────────────────────────────────

  /** The walk back takes a hop for each round. */
  lemma {:induction false} WalkNeedsHops(w: World, view: seq<ShareState>, id: Id, hops: nat)
    requires Structured(w) && Glimpse(view, w.shares) && forall c :: c in w.circles ==> LinkedBack(c)
    requires AnchorWalk(view, id, hops).Some?
    ensures id.RoundOf? && id.index <= hops + 1
    decreases hops
  {
    hide Structured, Glimpse;
    var s := SharesIn(view, id);
    var c, f := GlimpsedRound(w, view, id, s[0]);
    if c.terms.roundIndex != 2 {
      WalkNeedsHops(w, view, c.terms.prev.value, hops - 1);
    }
  }

  lemma EarlyRefundIsReal(w: World, view: seq<ShareState>, c: CircleState, me: Pubkey, now: int)
    requires Structured(w) && c in w.circles && Glimpse(view, w.shares) && LeftShort(SharesIn(view, c.id), me, now)
    ensures RefundedEarly(w, c, me) && now >= c.terms.fillDeadline && SharesIn(view, c.id) != []
  {
    hide Structured, Glimpse;
    var s := SharesIn(view, c.id);
    var d0, f0 := GlimpsedRound(w, view, c.id, s[0]);
    SameRound(w, c, d0);
    var e :| e in s && EarlyRefund(e, s[0].circle.roundEnd);
    var d, f := GlimpsedRound(w, view, c.id, e);
    SharesInView(view, c.id);
    ShownLocked(view, w, e);
    assert EarlyRefund(f, c.terms.roundEnd);
  }

  lemma ShownLocked(view: seq<ShareState>, w: World, e: ShareState)
    requires Glimpse(view, w.shares) && e in view && e.resolved.Some?
    ensures e.lockedAt.Some?
  {
  }

  lemma MarkMeetsCondition(w: World, view: seq<ShareState>, c: CircleState, a: CircleState, me: Pubkey, now: int)
    requires Rooted(w) && Anchors(w, a) && c in w.circles && RoundOfCycle(c, a, c.terms.roundIndex)
    requires RotationRound(c.terms)
    requires Glimpse(view, w.shares) && Marked(view, me, now, c.id)
    ensures 3 <= c.terms.roundIndex <= 65 && CollectedEarlier(w, a, me, c.terms.roundIndex)
    ensures RefundedEarly(w, c, me) && now >= c.terms.fillDeadline
  {
    hide Good, Structured, Glimpse, HasPrevious, LinkedBack, SealedOrder, Collectors, SharesIn;
    hide AnchorWalk, CollectedBefore;
    hide LeftShort, PreviousFilled, CanAnchor, Lawful, RefundedEarly;
    var earlier: Id := EarlierRound(view, me, now, c.id);
    WalkIsTrue(w, view, c.id, MAX_HOPS);
    WalkIsTrue(w, view, earlier, MAX_HOPS);
    WalkNeedsHops(w, view, c.id, MAX_HOPS);
    EarlyRefundIsReal(w, view, c, me, now);
    IndexSeen(w, view, c);
    var d, f := GlimpsedRound(w, view, earlier, SharesIn(view, earlier)[0]);
    var b := AnchorOfRound(w, d);
    SameRound(w, a, b);
    SeatOfShare(w, f, a);
  }

  lemma IndexSeen(w: World, view: seq<ShareState>, c: CircleState)
    requires Structured(w) && Glimpse(view, w.shares) && c in w.circles && SharesIn(view, c.id) != []
    ensures SharesIn(view, c.id)[0].circle == c.terms
  {
    hide Structured, Glimpse;
    var d, f := GlimpsedRound(w, view, c.id, SharesIn(view, c.id)[0]);
    SameRound(w, c, d);
  }

  // ── The condition gives a view that marks ──────────────────────────────────

  function KeptFor(id: Id, f: ShareState): ShareState -> Option<ShareState>
  {
    (e: ShareState) => if e.parent != id || e == f then Some(e) else None
  }

  /** Everything but the round's own shares, of which only f is shown. */
  function FramingView(shares: seq<ShareState>, id: Id, f: ShareState): seq<ShareState>
  {
    Collect(KeptFor(id, f), shares)
  }

  lemma {:induction false} FramingViewShows(shares: seq<ShareState>, id: Id, f: ShareState)
    requires UniqueShares(shares)
    ensures UniqueShares(FramingView(shares, id, f))
    ensures forall e :: e in FramingView(shares, id, f) <==> e in shares && (e.parent != id || e == f)
  {
    if shares != [] {
      var n := |shares| - 1;
      FramingViewShows(shares[..n], id, f);
      assert shares == shares[..n] + [shares[n]];
    }
  }

  lemma FramingViewIsGlimpse(w: World, id: Id, f: ShareState)
    requires Structured(w)
    ensures var view := FramingView(w.shares, id, f);
            && Glimpse(view, w.shares) && UniqueShares(view)
            && forall e :: e in view <==> e in w.shares && (e.parent != id || e == f)
  {
    var view := FramingView(w.shares, id, f);
    FramingViewShows(w.shares, id, f);
    forall e | e in view
      ensures exists g :: g in w.shares && GlimpseOf(e, g)
    {
      assert ShareFits(e, w.circles, w.now);
      assert GlimpseOf(e, e);
    }
  }

  lemma OnlyOneShown(w: World, c: CircleState, f: ShareState)
    requires Structured(w) && c in w.circles && f in w.shares && f.parent == c.id && f.policy == ShareV2
    ensures SharesIn(FramingView(w.shares, c.id, f), c.id) == [f]
  {
    hide Structured, FramingView;
    var view := FramingView(w.shares, c.id, f);
    FramingViewIsGlimpse(w, c.id, f);
    var d := RoundOfShare(w, f);
    SharesInView(view, c.id);
    ViewIsUnique(view, c.id);
    var s := SharesIn(view, c.id);
    assert f in s;
    ListsOnlyOne(s, f);
  }

  lemma ListsOnlyOne(s: seq<ShareState>, f: ShareState)
    requires UniqueShares(s) && f in s && forall e :: e in s ==> e == f
    ensures s == [f]
  {
    var last := |s| - 1;
    assert s[last] in s && s[0] in s;
    assert s[last].id == s[0].id;
    assert last == 0;
  }

  /** Every share of the round is in view. */
  predicate Shows(view: seq<ShareState>, shares: seq<ShareState>, id: Id)
  {
    forall e :: e in shares && e.parent == id ==> e in view
  }

  /** A filled round in view shows up filled. */
  lemma FilledRoundShows(w: World, view: seq<ShareState>, d: CircleState, a: CircleState)
    requires Rooted(w) && Anchors(w, a) && d in w.circles && RotationRound(d.terms)
    requires RoundOfCycle(d, a, d.terms.roundIndex)
    requires RoundFilled(CycleOf(a, w.shares), w.shares, d.terms.roundIndex) && Shows(view, w.shares, d.id)
    ensures var s := SharesIn(view, d.id);
            s != [] && |Collect(LockedShare(), s)| >= d.terms.seatThreshold > 0
  {
    hide Good, Structured, Chained, RoundFilled, SealedOrder, Collectors, EvidenceOf;
    hide PreviousFilled, CanAnchor, SharesIn;
    FindUniqueIn(w, a);
    FilledByCount(w, d, a);
    var s := SharesIn(view, d.id);
    SharesInView(view, d.id);
    CollectMembers(LockedShare(), s);
    forall m | m in LockedMembers(w.shares, d.id)
      ensures m in Elements(Collect(LockedShare(), s))
    {
      var e :| e in w.shares && e.policy == ShareV2 && e.parent == d.id && e.lockedAt.Some? && e.buyer == m;
      var g := RoundOfShare(w, e);
      assert LockedShare()(e) == Some(m);
    }
    ElementsBound(Collect(LockedShare(), s));
    DistinctCount(EvidenceOf(d.id, w.shares));
    SubsetSize(LockedMembers(w.shares, d.id), Elements(Collect(LockedShare(), s)));
  }

  /** Some share of every collection round of the cycle before round j is in view. */
  ghost predicate ShowsBefore(w: World, view: seq<ShareState>, a: CircleState, j: int)
  {
    forall x :: x in w.circles && RotationRound(x.terms) && RoundOfCycle(x, a, x.terms.roundIndex)
                && x.terms.roundIndex < j ==>
                  SharesIn(view, x.id) != []
  }

  /** The walk back through rounds in view reaches the anchor. */
  lemma {:induction false} WalkArrives(w: World, view: seq<ShareState>, a: CircleState, d: CircleState, j: int,
                          hops: nat)
    requires Rooted(w) && Anchors(w, a) && Glimpse(view, w.shares) && ShowsBefore(w, view, a, j)
    requires d in w.circles && RoundOfCycle(d, a, j) && SharesIn(view, d.id) != [] && 2 <= j <= hops + 1
    ensures AnchorWalk(view, d.id, hops) == Some(a.id)
    decreases hops
  {
    hide Good, Structured, Glimpse, SharesIn, PreviousFilled, CanAnchor, Anchors, HasPrevious, Lawful;
    IndexSeen(w, view, d);
    AnchorsAnchor(w, a);
    var e := OneHopBack(w, d, a);
    if j > 2 {
      WalkArrives(w, view, a, e, j - 1, hops - 1);
    }
  }

  /** The framing view shows whole every round but the framed one. */
  lemma FramingViewShowsRounds(w: World, c: CircleState, a: CircleState, r: int, f: ShareState)
    requires Rooted(w) && Anchors(w, a) && c in w.circles && RoundOfCycle(c, a, r) && f in w.shares && f.parent == c.id
    requires f.policy == ShareV2
    ensures SharesIn(FramingView(w.shares, c.id, f), c.id) == [f]
    ensures forall id :: id != c.id ==> Shows(FramingView(w.shares, c.id, f), w.shares, id)
    ensures ShowsBefore(w, FramingView(w.shares, c.id, f), a, r)
  {
    hide Good, Structured, FramingView, RoundFilled, SealedOrder, Collectors, PreviousFilled;
    hide CanAnchor, Anchors, HasPrevious, Lawful, SharesIn;
    var view := FramingView(w.shares, c.id, f);
    FramingViewIsGlimpse(w, c.id, f);
    OnlyOneShown(w, c, f);
    forall d | d in w.circles && RotationRound(d.terms) && RoundOfCycle(d, a, d.terms.roundIndex)
               && d.terms.roundIndex < r
      ensures SharesIn(view, d.id) != []
    {
      var e := EarlierRoundFilled(w, c, a, r, d.terms.roundIndex);
      SameRound(w, d, e);
      FilledRoundShows(w, view, d, a);
    }
  }

  lemma ConditionGivesMark(w: World, c: CircleState, a: CircleState, r: int, f: ShareState, me: Pubkey, k: int,
                          now: int, once: bool)
    requires Rooted(w) && Anchors(w, a) && c in w.circles && RoundOfCycle(c, a, r) && RotationRound(c.terms)
    requires 2 <= k < r <= 65
    requires f in w.shares && f.parent == c.id && f.buyer != me && EarlyRefund(f, c.terms.roundEnd)
    requires now >= c.terms.fillDeadline
    requires CollectorOf(CycleOf(a, w.shares), w.shares, k) == Some(me)
    ensures CanBeMarked(w, me, now, c.id, once)
  {
    hide Good, Structured, FramingView, RoundFilled, SealedOrder, Collectors, PreviousFilled;
    hide CanAnchor, Anchors, Chained, SharesIn;
    hide AnchorWalk, Lawful, CollectedBefore, LeftShort;
    var view := FramingView(w.shares, c.id, f);
    FramingViewIsGlimpse(w, c.id, f);
    ShareOfRound(w, c, f);
    var d := EarlierRoundFilled(w, c, a, r, k);
    FramingViewShowsRounds(w, c, a, r, f);
    EarlierCollectionShows(w, view, c, a, r, d, k, me, now);
    WalkArrives(w, view, a, c, r, MAX_HOPS);
    WalkArrives(w, view, a, d, k, MAX_HOPS);
    CollectionCounts(view, me, now, d.id, c.id, a.id, k, r);
    OneShareLooksShort(f, c, me, now);
  }

  lemma ShareOfRound(w: World, c: CircleState, f: ShareState)
    requires Structured(w) && c in w.circles && RotationRound(c.terms) && f in w.shares && f.parent == c.id
    ensures f.policy == ShareV2 && f.circle == c.terms && c.terms.seatThreshold >= 2
    ensures (f.resolved.Some? ==> f.lockedAt.Some?)
  {
    assert ShareFits(f, w.circles, w.now);
    FindUniqueIn(w, c);
    RoundFits(w, c);
    LawfulThreshold(c.terms, c.createdAt);
  }

  lemma OneShareLooksShort(f: ShareState, c: CircleState, me: Pubkey, now: int)
    requires f.circle == c.terms && f.buyer != me && f.lockedAt.Some? && c.terms.seatThreshold >= 2
    requires EarlyRefund(f, c.terms.roundEnd) && now >= c.terms.fillDeadline
    ensures LeftShort([f], me, now)
  {
    var s := [f];
    assert s[..0] == [] && s[0] == f;
    assert Collect(OtherLocked(me), s) == [f.buyer];
  }

  /** A filled round in view, once it has ended, shows as collected by its collector. */
  lemma FilledRoundShowsCollected(w: World, view: seq<ShareState>, d: CircleState, a: CircleState, me: Pubkey,
                          now: int)
    requires Rooted(w) && Anchors(w, a) && d in w.circles && RotationRound(d.terms)
    requires RoundOfCycle(d, a, d.terms.roundIndex) && Glimpse(view, w.shares) && Shows(view, w.shares, d.id)
    requires RoundFilled(CycleOf(a, w.shares), w.shares, d.terms.roundIndex)
    requires CollectorOf(CycleOf(a, w.shares), w.shares, d.terms.roundIndex) == Some(me) && now >= d.terms.roundEnd
    ensures PaidOutTo(SharesIn(view, d.id), me, now)
    ensures SharesIn(view, d.id)[0].circle == d.terms
  {
    hide Good, Structured, RoundFilled, SealedOrder, Collectors, PreviousFilled;
    hide CanAnchor, Chained, SharesIn, Lawful, LockedShare, Shows, Glimpse;
    FilledRoundShows(w, view, d, a);
    IndexSeen(w, view, d);
    var e, g := GlimpsedRound(w, view, d.id, SharesIn(view, d.id)[0]);
    FindUniqueIn(w, a);
    SeatOfShare(w, g, a);
    SellerSeen(SharesIn(view, d.id)[0], g);
  }

  lemma SellerSeen(e: ShareState, g: ShareState)
    requires GlimpseOf(e, g)
    ensures e.seller == g.seller
  {
  }

  /** The earlier round shows as collected by `me`. */
  lemma EarlierCollectionShows(w: World, view: seq<ShareState>, c: CircleState, a: CircleState, r: int,
                          d: CircleState, k: int, me: Pubkey, now: int)
    requires Rooted(w) && Anchors(w, a) && c in w.circles && RoundOfCycle(c, a, r) && RotationRound(c.terms)
    requires d in w.circles && RoundOfCycle(d, a, k) && 2 <= k < r && RoundFilled(CycleOf(a, w.shares), w.shares, k)
    requires CollectorOf(CycleOf(a, w.shares), w.shares, k) == Some(me) && now >= c.terms.fillDeadline
    requires Glimpse(view, w.shares) && Shows(view, w.shares, d.id)
    ensures PaidOutTo(SharesIn(view, d.id), me, now) && SharesIn(view, d.id)[0].circle.roundIndex == k
  {
    hide Good, Structured, RoundFilled, SealedOrder, Collectors, PreviousFilled;
    hide CanAnchor, Chained, SharesIn, Lawful, LockedShare, Shows, Glimpse;
    EarlierEndsFirst(w, c, d, a, k, r);
    FilledRoundShowsCollected(w, view, d, a, me, now);
  }

  lemma EarlierEndsFirst(w: World, c: CircleState, d: CircleState, a: CircleState, k: int, r: int)
    requires Structured(w) && Anchors(w, a) && c in w.circles && d in w.circles && 2 <= k < r
    requires RoundOfCycle(c, a, r) && RoundOfCycle(d, a, k)
    ensures d.terms.roundEnd < c.terms.fillDeadline
  {
    RoundFits(w, c);
    RoundFits(w, d);
    FindUniqueIn(w, a);
    StartsGrow(a, k, r);
    ScheduleTiles(a, r, 0);
  }

  lemma CollectionCounts(view: seq<ShareState>, me: Pubkey, now: int, earlier: Id, id: Id, anchor: Id, k: int, r: int)
    requires PaidOutTo(SharesIn(view, earlier), me, now) && SharesIn(view, earlier)[0].circle.roundIndex == k < r
    requires SharesIn(view, id) != [] && SharesIn(view, id)[0].circle.roundIndex == r
    requires AnchorWalk(view, earlier, MAX_HOPS) == Some(anchor) == AnchorWalk(view, id, MAX_HOPS)
    ensures CollectedBefore(view, me, now, id)
  {
    hide SharesIn, AnchorWalk, LockedShare;
    SeenMeansShares(view, earlier);
    CollectMembers(CollectionIn(view, me, now), RoundsSeen(view));
    assert CollectionIn(view, me, now)(earlier) == Some(Collection(Some(anchor), k));
    assert Collection(Some(anchor), k) in CollectionsSeen(view, me, now);
  }

  /** The mark, exactly. In every run, some view marks `me` for a collection round if and only if the round's fill
      deadline has passed, the round is the third to the sixty-fifth, `me` collected an earlier one, and a share of
      somebody else was refunded with a time before the round's end. Whether the round filled does not enter. */
  lemma MarkedExactly(start: int, evs: seq<Event>, c: CircleState, me: Pubkey, now: int, once: bool)
    returns (a: CircleState)
    requires c in Replay(Genesis(start), evs).circles && RotationRound(c.terms)
    ensures var w := Replay(Genesis(start), evs);
            var r := c.terms.roundIndex;
            && Anchors(w, a) && c.id == RoundOf(a.id, r)
            && (CanBeMarked(w, me, now, c.id, once) <==>
                  && now >= c.terms.fillDeadline && 3 <= r <= 65
                  && CollectedEarlier(w, a, me, r) && RefundedEarly(w, c, me))
  {
    hide Replay, Rooted, Anchors, Marked, Glimpse, SealedOrder, Collectors;
    EveryRunIsRooted(start, evs);
    a := MarkedExactlyIn(Replay(Genesis(start), evs), c, me, now, once);
  }

  lemma MarkedExactlyIn(w: World, c: CircleState, me: Pubkey, now: int, once: bool) returns (a: CircleState)
    requires Rooted(w) && c in w.circles && RotationRound(c.terms)
    ensures var r := c.terms.roundIndex;
            && Anchors(w, a) && c.id == RoundOf(a.id, r)
            && (CanBeMarked(w, me, now, c.id, once) <==>
                  && now >= c.terms.fillDeadline && 3 <= r <= 65
                  && CollectedEarlier(w, a, me, r) && RefundedEarly(w, c, me))
  {
    hide Anchors, Marked, Glimpse, SealedOrder, Collectors, Chained, Good, Structured, PreviousFilled;
    var r := c.terms.roundIndex;
    a := CycleOfRound(w, c);
    if CanBeMarked(w, me, now, c.id, once) {
      var view :| Glimpse(view, w.shares) && (once ==> UniqueShares(view)) && Marked(view, me, now, c.id);
      MarkMeetsCondition(w, view, c, a, me, now);
    }
    if && now >= c.terms.fillDeadline && 3 <= r <= 65
       && CollectedEarlier(w, a, me, r) && RefundedEarly(w, c, me) {
      var k: int :| 2 <= k < r && CollectorOf(CycleOf(a, w.shares), w.shares, k) == Some(me);
      var f :| f in w.shares && f.parent == c.id && f.buyer != me && EarlyRefund(f, c.terms.roundEnd);
      ConditionGivesMark(w, c, a, r, f, me, k, now, once);
    }
  }

  // ── Which refunds make a mark ──────────────────────────────────────────────

  /** Two ways a refund of a filled round passes the gate with a time before the round's end: no evidence and an
      honest time once the fill deadline has passed, or honest evidence and any time at all once the payday has
      lapsed. */
  lemma LiesPass(start: int, evs: seq<Event>, f: ShareState, stated: int)
    requires var w := Replay(Genesis(start), evs);
             f in w.shares && f.policy == ShareV2 && f.lockedAt.Some? && f.resolved.None? && TwoAgree(f, Refund)
    ensures var w := Replay(Genesis(start), evs);
            var evidence := EvidenceOf(f.parent, w.shares);
            && (ShareStep(w, f, Resolve(f.id, Refund, Some([]), w.now)).Some? <==> w.now >= f.circle.fillDeadline)
            && (w.now >= f.circle.roundEnd + 7 * 86_400 && |evidence| <= 128
                ==> ShareStep(w, f, Resolve(f.id, Refund, Some(evidence), stated)).Some?)
  {
    hide Replay, Good, Placed, OutcomeError, EvidenceOf, LawfulOutcome;
    var w := Replay(Genesis(start), evs);
    EveryRunIsGood(start, evs);
    GoodIsStructured(w);
    SharesArePlaced(w, f);
    RoundEndsAfterFill(w, f);
    NoEvidencePasses(f, w.View(), w.now);
    EvidenceAgreement(f, w.View(), Refund, w.now);
    NoDiscretion(f, w.View(), w.now);
    LapsedIsRefund(f, w.View(), w.now);
  }

  lemma NoEvidencePasses(f: ShareState, cycle: Context, at: int)
    requires Placed(f, cycle) && f.circle.seatThreshold > 0
    ensures OutcomeError(f, Refund, at, Some(cycle), Finalize, Some([])) == None <==> at >= f.circle.fillDeadline
  {
    hide SealedOrder, Collectors;
  }

  lemma LapsedIsRefund(f: ShareState, cycle: Context, at: int)
    requires f.circle.fillDeadline < f.circle.roundEnd
    ensures at >= f.circle.roundEnd + COLLECT_WINDOW_SEC ==> LawfulOutcome(f, cycle, at) == MustRefund
  {
  }

  /** An accepted resolution changes one share of the round and no race. */
  lemma ResolveKeepsRaces(w: World, f: ShareState, ev: Event, c: CircleState, a: CircleState, k: int)
    requires Structured(w) && f in w.shares && ev.Resolve? && ev.id == f.id && ShareStep(w, f, ev).Some?
    requires Anchors(w, a) && c in w.circles && RotationRound(c.terms) && RoundOfCycle(c, a, c.terms.roundIndex)
    ensures var v := Step(w, ev);
            && v.circles == w.circles && Structured(v)
            && (forall g :: g in v.shares <==> g == ShareStep(w, f, ev).value || (g in w.shares && g != f))
            && (k < c.terms.roundIndex ==>
                CollectorOf(CycleOf(a, v.shares), v.shares, k) == CollectorOf(CycleOf(a, w.shares), w.shares, k))
  {
    hide SealedOrder, Collectors, OutcomeError, Grew, CanAnchor;
    var v := Step(w, ev);
    ResolveTouchesOne(w, f, ev);
    StepGrows(w, ev);
    StepKeepsStructure(w, ev);
    var b := AnchorOfRound(w, c);
    SameRound(w, a, b);
    if 2 <= k < c.terms.roundIndex {
      EarlierDeadlinesPassed(a, k - 1, c.terms.roundIndex - 1, w.now);
      CollectorIsFrozen(w, v, a, k);
    }
  }

  lemma ResolveTouchesOne(w: World, f: ShareState, ev: Event)
    requires UniqueShares(w.shares) && f in w.shares && ev.Resolve? && ev.id == f.id && ShareStep(w, f, ev).Some?
    ensures Step(w, ev).circles == w.circles
    ensures forall g :: g in Step(w, ev).shares <==> g == ShareStep(w, f, ev).value || (g in w.shares && g != f)
  {
    hide OutcomeError;
    var i := ShareIndex(w.shares, ev.id);
    var h := ShareStep(w, f, ev).value;
    assert w.shares[i] == f;
    var s := w.shares[i := h];
    forall g
      ensures g in s <==> g == h || (g in w.shares && g != f)
    {
      assert s[i] == h;
      if g in w.shares && g != f {
        var j :| 0 <= j < |w.shares| && w.shares[j] == g;
        assert s[j] == g;
      }
      if g in s && g != h {
        var j :| 0 <= j < |s| && s[j] == g;
        assert w.shares[j] == g && w.shares[j].id != w.shares[i].id;
      }
    }
  }

  /** What one accepted refund does to a record: afterwards `me` can be marked for the round exactly when they could
      be before, or the refund is of somebody else's share, states a time before the round's end, and `me` collected
      earlier in a cycle the walk still spans. The time and evidence the gate judged do not enter. */
  lemma RefundMarks(start: int, evs: seq<Event>, c: CircleState, f: ShareState, ev: Event, me: Pubkey, now: int,
                    once: bool)
      returns (a: CircleState)
    requires var w := Replay(Genesis(start), evs);
             && c in w.circles && RotationRound(c.terms) && f in w.shares && f.parent == c.id
             && ev.Resolve? && ev.id == f.id && ev.outcome == Refund && ShareStep(w, f, ev).Some?
    ensures var w := Replay(Genesis(start), evs);
            var r := c.terms.roundIndex;
            && Anchors(w, a) && c.id == RoundOf(a.id, r)
            && (CanBeMarked(Replay(Genesis(start), evs + [ev]), me, now, c.id, once)
                <==> || CanBeMarked(w, me, now, c.id, once)
                     || (&& f.buyer != me && ev.stated < c.terms.roundEnd
                         && now >= c.terms.fillDeadline && 3 <= r <= 65 && CollectedEarlier(w, a, me, r)))
  {
    hide Replay, Anchors, SealedOrder, Collectors, Structured, Good, CanBeMarked, RefundedEarly;
    hide CollectedEarlier, Step, ShareStep;
    var w := Replay(Genesis(start), evs);
    OneMore(start, evs, ev);
    EveryRunIsGood(start, evs);
    GoodIsStructured(w);
    a := MarkedExactly(start, evs, c, me, now, once);
    ResolveKeepsRaces(w, f, ev, c, a, 0);
    var b := MarkedExactly(start, evs + [ev], c, me, now, once);
    SameAnchorAfter(w, Step(w, ev), a, b);
    RefundsAfter(w, c, f, ev, me);
    CollectedAfter(w, f, ev, c, a, me);
  }

  lemma OneMore(start: int, evs: seq<Event>, ev: Event)
    ensures Replay(Genesis(start), evs + [ev]) == Step(Replay(Genesis(start), evs), ev)
  {
    assert (evs + [ev])[..|evs|] == evs;
  }

  lemma SameAnchorAfter(w: World, v: World, a: CircleState, b: CircleState)
    requires Anchors(w, a) && Anchors(v, b) && v.circles == w.circles && a.id == b.id
    ensures a == b
  {
    SameRound(v, a, b);
  }

  lemma RefundsAfter(w: World, c: CircleState, f: ShareState, ev: Event, me: Pubkey)
    requires Structured(w) && f in w.shares && f.parent == c.id
    requires ev.Resolve? && ev.id == f.id && ev.outcome == Refund && ShareStep(w, f, ev).Some?
    ensures RefundedEarly(Step(w, ev), c, me)
        <==> RefundedEarly(w, c, me) || (f.buyer != me && ev.stated < c.terms.roundEnd)
  {
    hide OutcomeError, Step;
    ResolveTouchesOne(w, f, ev);
    var h := ShareStep(w, f, ev).value;
    assert EarlyRefund(h, c.terms.roundEnd) <==> ev.stated < c.terms.roundEnd;
    if g :| g in w.shares && g.parent == c.id && g.buyer != me && EarlyRefund(g, c.terms.roundEnd) {
      assert g != f;
      assert g in Step(w, ev).shares;
    }
  }

  lemma CollectedAfter(w: World, f: ShareState, ev: Event, c: CircleState, a: CircleState, me: Pubkey)
    requires Structured(w) && f in w.shares && ev.Resolve? && ev.id == f.id && ShareStep(w, f, ev).Some?
    requires Anchors(w, a) && c in w.circles && RotationRound(c.terms) && RoundOfCycle(c, a, c.terms.roundIndex)
    ensures CollectedEarlier(Step(w, ev), a, me, c.terms.roundIndex) <==> CollectedEarlier(w, a, me, c.terms.roundIndex)
  {
    hide Structured, SealedOrder, Collectors, CollectorOf, Step, ShareStep, Anchors;
    forall k: int | 2 <= k < c.terms.roundIndex
      ensures CollectorOf(CycleOf(a, Step(w, ev).shares), Step(w, ev).shares, k)
          == CollectorOf(CycleOf(a, w.shares), w.shares, k)
    {
      ResolveKeepsRaces(w, f, ev, c, a, k);
    }
  }
}
