/** What the mark of rotation conduct proves about the protocol, from any glimpse of it. */
module Accusation {
  import opened Prelude
  import opened Circles
  import opened Rotation
  import opened Race
  import opened Gates
  import opened Writers
  import opened Chain
  import opened Finality
  import opened Protocol
  import opened Conduct

  // ── Lineage of every round ─────────────────────────────────────────────────

  predicate LinkedBack(c: CircleState)
  {
    RotationRound(c.terms) ==>
      c.id.RoundOf? && c.id.index == c.terms.roundIndex
          && c.terms.prev == Some(PreviousId(c.id.anchor, c.terms.roundIndex))
  }

  lemma AcceptedRoundIsLinked(w: World, id: Id, who: Pubkey, p: CirclePayload, sim: bool)
    requires CircleCreateError(p, id, who, w.now, Some(w.View()), sim) == None
    ensures LinkedBack(NewCircle(w, id, who, p))
  {
    if RotationRound(p.terms) {
      assert ChainedRoundError(p, id, who, w.now, Some(w.View())) == None;
    }
  }

  lemma {:induction false} RoundsStayLinked(start: int, evs: seq<Event>)
    ensures forall c :: c in Replay(Genesis(start), evs).circles ==> LinkedBack(c)
  {
    if evs != [] {
      hide CircleCreateError, ShareCreateError, LinkedBack;
      var w, ev := Replay(Genesis(start), evs[..|evs| - 1]), evs[|evs| - 1];
      RoundsStayLinked(start, evs[..|evs| - 1]);
      if ev.OpenCircle? && Step(w, ev) != w {
        AcceptedRoundIsLinked(w, ev.id, ev.who, ev.circle, ev.sim);
      }
    }
  }

  // ── Glimpses ───────────────────────────────────────────────────────────────

  /** What a view may show of a share: the share itself, or an earlier state of it with locks or resolution
      still missing. Only a locked share can be resolved. */
  predicate GlimpseOf(e: ShareState, f: ShareState)
  {
    SameSeat(e, f) && (e.lockedAt.Some? ==> f.lockedAt == e.lockedAt) && (e.resolved.Some? ==> e.lockedAt.Some?)
  }

  ghost predicate Glimpse(view: seq<ShareState>, shares: seq<ShareState>)
  {
    forall e :: e in view ==> exists f :: f in shares && GlimpseOf(e, f)
  }

  lemma SharesInView(view: seq<ShareState>, id: Id)
    ensures forall e :: e in SharesIn(view, id)
              <==> e in view && e.policy == ShareV2 && e.circle.pot == RotationV2 && e.parent == id
  {
    CollectMembers(InRound(id), view);
  }

  /** The round behind a glimpsed share. */
  lemma GlimpsedRound(w: World, view: seq<ShareState>, id: Id, e: ShareState) returns (c: CircleState, f: ShareState)
    requires Structured(w) && Glimpse(view, w.shares) && e in SharesIn(view, id)
    ensures c in w.circles && c.id == id && c.terms == e.circle && RotationRound(c.terms)
    ensures f in w.shares && GlimpseOf(e, f) && f.policy == ShareV2 && f.parent == id
  {
    SharesInView(view, id);
    f :| f in w.shares && GlimpseOf(e, f);
    c := RoundOfShare(w, f);
  }

  /** The walk back through rounds in view names the round's true anchor or nothing. */
  lemma {:induction false} WalkIsTrue(w: World, view: seq<ShareState>, id: Id, hops: nat)
    requires Structured(w) && Glimpse(view, w.shares) && forall c :: c in w.circles ==> LinkedBack(c)
    requires AnchorWalk(view, id, hops).Some?
    ensures id.RoundOf? && AnchorWalk(view, id, hops) == Some(id.anchor)
    decreases hops
  {
    hide Structured, Glimpse;
    var s := SharesIn(view, id);
    var c, f := GlimpsedRound(w, view, id, s[0]);
    if c.terms.roundIndex != 2 {
      WalkIsTrue(w, view, c.terms.prev.value, hops - 1);
    }
  }

  // ── The mark ───────────────────────────────────────────────────────────────

  /** A round shown short by an early refund really is short, whenever resolutions follow the law. */
  lemma ShortIsShort(w: World, view: seq<ShareState>, id: Id)
    requires Structured(w) && Glimpse(view, w.shares) && forall e :: e in w.shares ==> FollowedLaw(e, w)
    requires SharesIn(view, id) != [] && ProvedShort(SharesIn(view, id))
    ensures |EvidenceOf(id, w.shares)| < SharesIn(view, id)[0].circle.seatThreshold
  {
    hide EvidenceOf, Structured, Glimpse;
    var s := SharesIn(view, id);
    var e :| e in s && EarlyRefund(e, s[0].circle.roundEnd);
    var c, f := GlimpsedRound(w, view, id, e);
    var d, g := GlimpsedRound(w, view, id, s[0]);
    SameRound(w, c, d);
    assert FollowedLaw(f, w);
    assert CircleFits(c, w.circles, w.now) by { RoundFits(w, c); }
    LawfulThreshold(c.terms, c.createdAt);
  }

  lemma RoundFits(w: World, c: CircleState)
    requires Structured(w) && c in w.circles
    ensures CircleFits(c, w.circles, w.now)
  {
  }

  lemma SameRound(w: World, c: CircleState, d: CircleState)
    requires Structured(w) && c in w.circles && d in w.circles && c.id == d.id
    ensures c == d
  {
    FindUnique(w.circles, c);
    FindUnique(w.circles, d);
  }

  /** The mark is sound under partial views: in a run whose resolutions commit honest evidence and state their own
      time, no view of any part of it, however stale, marks anybody for a round that filled. */
  lemma MarkIsSound(start: int, evs: seq<Event>, view: seq<ShareState>, c: CircleState, me: Pubkey, now: int)
    requires HonestRun(Genesis(start), evs)
    requires var w := Replay(Genesis(start), evs);
             c in w.circles && |EvidenceOf(c.id, w.shares)| >= c.terms.seatThreshold && Glimpse(view, w.shares)
    ensures !Marked(view, me, now, c.id)
  {
    hide Replay, HonestRun, Good, EvidenceOf, CollectedBefore, Glimpse, FollowedLaw;
    var w := Replay(Genesis(start), evs);
    HonestRunFacts(start, evs);
    if Marked(view, me, now, c.id) {
      var s := SharesIn(view, c.id);
      ShortIsShort(w, view, c.id);
      var d, f := GlimpsedRound(w, view, c.id, s[0]);
      SameRound(w, c, d);
    }
  }

  lemma NothingReplayed(w: World)
    ensures Replay(w, []) == w
  {
  }

  lemma {:induction false} LockedInView(w: World, view: seq<ShareState>, s: seq<ShareState>, id: Id)
    requires Structured(w) && Glimpse(view, w.shares) && UniqueShares(s)
    requires forall e :: e in s ==> e in SharesIn(view, id)
    ensures Distinct(Collect(LockedShare(), s)) && Elements(Collect(LockedShare(), s)) <= LockedMembers(w.shares, id)
  {
    if s != [] {
      hide Structured, Glimpse;
      var n := |s| - 1;
      LockedInView(w, view, s[..n], id);
      CollectMembers(LockedShare(), s[..n]);
      var c, f := GlimpsedRound(w, view, id, s[n]);
      if s[n].lockedAt.Some? && s[n].buyer in Collect(LockedShare(), s[..n]) {
        var i :| 0 <= i < n && LockedShare()(s[i]) == Some(s[n].buyer);
        var d, g := GlimpsedRound(w, view, id, s[i]);
        OneSeatEach(w, f, g);
      }
    }
  }

  lemma OneSeatEach(w: World, e: ShareState, f: ShareState)
    requires Structured(w) && e in w.shares && f in w.shares && e.parent == f.parent && e.buyer == f.buyer
    ensures e.id == f.id
  {
    assert ShareFits(e, w.circles, w.now) && ShareFits(f, w.circles, w.now);
  }

  lemma {:induction false} ViewIsUnique(view: seq<ShareState>, id: Id)
    requires UniqueShares(view)
    ensures UniqueShares(SharesIn(view, id))
  {
    if view != [] {
      ViewIsUnique(view[..|view| - 1], id);
      SharesInView(view[..|view| - 1], id);
    }
  }

  /** A collection in view is a true one: the round is `me`'s payday and its pot really filled. */
  lemma CollectionIsTrue(w: World, view: seq<ShareState>, me: Pubkey, now: int, id: Id) returns (a: CircleState)
    requires Good(w) && Glimpse(view, w.shares) && UniqueShares(view) && id.RoundOf?
    requires PaidOutTo(SharesIn(view, id), me, now)
    ensures a in w.circles && a.id == id.anchor && id.index == SharesIn(view, id)[0].circle.roundIndex
    ensures CollectorOf(CycleOf(a, w.shares), w.shares, id.index) == Some(me)
    ensures RoundFilled(CycleOf(a, w.shares), w.shares, id.index)
  {
    hide Good, EvidenceOf, Collectors, SealedOrder, Glimpse, RoundFilled, Lawful;
    GoodIsStructured(w);
    var s := SharesIn(view, id);
    var c, f := GlimpsedRound(w, view, id, s[0]);
    a := AnchorOfRound(w, c);
    ViewIsUnique(view, id);
    LockedInView(w, view, s, id);
    Pigeonhole(Collect(LockedShare(), s), LockedMembers(w.shares, id));
    DistinctCount(EvidenceOf(id, w.shares));
    FilledByCount(w, c, a);
    SeatOfShare(w, f, a);
  }

  lemma SeatOfShare(w: World, f: ShareState, a: CircleState)
    requires Good(w) && f in w.shares && f.policy == ShareV2 && AnchorOf(w.circles, f.parent) == Some(a)
    ensures CollectorOf(CycleOf(a, w.shares), w.shares, f.circle.roundIndex) == Some(f.seller)
  {
    hide Collectors, SealedOrder, Lawful;
    assert SeatSealed(f, a, w.shares);
  }

  /** An accusation says what happened: whoever is marked for a round collected an earlier, filled round of the
      same cycle, and this round fell short. They are wronged only if the view withholds their own lock. */
  lemma AccusationIsTrue(start: int, evs: seq<Event>, view: seq<ShareState>, id: Id, me: Pubkey, now: int)
      returns (a: CircleState, k: int)
    requires HonestRun(Genesis(start), evs)
    requires Glimpse(view, Replay(Genesis(start), evs).shares) && UniqueShares(view) && Marked(view, me, now, id)
    ensures var w := Replay(Genesis(start), evs);
            && a in w.circles && id.RoundOf? && id.anchor == a.id && k < id.index
            && CollectorOf(CycleOf(a, w.shares), w.shares, k) == Some(me)
            && RoundFilled(CycleOf(a, w.shares), w.shares, k)
            && !RoundFilled(CycleOf(a, w.shares), w.shares, id.index)
            && (forall e :: e in view && e.parent == id && e.buyer == me ==> e.lockedAt.None?)
  {
    hide Replay, HonestRun, Good, Glimpse, RoundFilled, Marked, LinkedBack, FollowedLaw;
    hide UniqueShares, CollectorOf, LockedMembers;
    HonestRunFacts(start, evs);
    a, k := TrueAccusation(Replay(Genesis(start), evs), view, id, me, now);
  }

  lemma HonestRunFacts(start: int, evs: seq<Event>)
    requires HonestRun(Genesis(start), evs)
    ensures var w := Replay(Genesis(start), evs);
            && Good(w) && Structured(w)
            && (forall c :: c in w.circles ==> LinkedBack(c)) && (forall e :: e in w.shares ==> FollowedLaw(e, w))
  {
    hide Replay, HonestRun, Good, LinkedBack, FollowedLaw;
    EveryRunIsGood(start, evs);
    EveryRunIsGood(start, []);
    GoodIsStructured(Replay(Genesis(start), evs));
    RoundsStayLinked(start, evs);
    NothingReplayed(Genesis(start));
    HonestRunsFollowTheLaw(Genesis(start), evs);
  }

  lemma TrueAccusation(w: World, view: seq<ShareState>, id: Id, me: Pubkey, now: int) returns (a: CircleState, k: int)
    requires Good(w) && Structured(w) && Glimpse(view, w.shares) && UniqueShares(view) && Marked(view, me, now, id)
    requires (forall c :: c in w.circles ==> LinkedBack(c)) && (forall e :: e in w.shares ==> FollowedLaw(e, w))
    ensures a in w.circles && id.RoundOf? && id.anchor == a.id && k < id.index
    ensures CollectorOf(CycleOf(a, w.shares), w.shares, k) == Some(me) && RoundFilled(CycleOf(a, w.shares), w.shares, k)
    ensures !RoundFilled(CycleOf(a, w.shares), w.shares, id.index)
    ensures forall e :: e in view && e.parent == id && e.buyer == me ==> e.lockedAt.None?
  {
    hide Good, Structured, EvidenceOf, Glimpse, RoundFilled, CollectorOf, AnchorWalk, Lawful;
    hide PaidOutTo, CollectedBefore;
    hide FollowedLaw, UniqueShares, SharesIn, LockedMembers, SealedOrder, OnSchedule;
    var s := SharesIn(view, id);
    var earlier: Id := EarlierRound(view, me, now, id);
    WalkIsTrue(w, view, id, MAX_HOPS);
    WalkIsTrue(w, view, earlier, MAX_HOPS);
    a := CollectionIsTrue(w, view, me, now, earlier);
    k := earlier.index;
    var c, f := GlimpsedRound(w, view, id, s[0]);
    ShortIsShort(w, view, id);
    var b := AnchorOfRound(w, c);
    SameRound(w, a, b);
    FilledByCount(w, c, a);
    WithheldLock(w, view, id, me, now);
  }

  lemma WithheldLock(w: World, view: seq<ShareState>, id: Id, me: Pubkey, now: int)
    requires Structured(w) && Glimpse(view, w.shares) && LeftShort(SharesIn(view, id), me, now)
    ensures forall e :: e in view && e.parent == id && e.buyer == me ==> e.lockedAt.None?
  {
    hide Structured, Glimpse;
    var s := SharesIn(view, id);
    SharesInView(view, id);
    var c, f := GlimpsedRound(w, view, id, s[0]);
    forall e | e in view && e.parent == id && e.buyer == me
      ensures e.lockedAt.None?
    {
      GlimpsedShare(w, view, e);
      var g :| g in w.shares && GlimpseOf(e, g);
      SameRoundShare(w, f, g);
      assert e in s;
    }
  }

  lemma GlimpsedShare(w: World, view: seq<ShareState>, e: ShareState)
    requires Glimpse(view, w.shares) && e in view
    ensures exists g :: g in w.shares && GlimpseOf(e, g)
  {
  }

  lemma SameRoundShare(w: World, e: ShareState, f: ShareState)
    requires Structured(w) && e in w.shares && f in w.shares && e.parent == f.parent
    ensures e.policy == f.policy && e.circle == f.circle
  {
    assert ShareFits(e, w.circles, w.now) && ShareFits(f, w.circles, w.now);
  }

  lemma EarlierRound(view: seq<ShareState>, me: Pubkey, now: int, id: Id) returns (earlier: Id)
    requires CollectedBefore(view, me, now, id)
    ensures PaidOutTo(SharesIn(view, earlier), me, now) && AnchorWalk(view, id, MAX_HOPS).Some?
    ensures AnchorWalk(view, earlier, MAX_HOPS) == AnchorWalk(view, id, MAX_HOPS)
    ensures SharesIn(view, earlier)[0].circle.roundIndex < SharesIn(view, id)[0].circle.roundIndex
  {
    var s := SharesIn(view, id);
    CollectMembers(CollectionIn(view, me, now), RoundsSeen(view));
    var c :| c in CollectionsSeen(view, me, now) && Before(c, AnchorWalk(view, id, MAX_HOPS), s[0].circle.roundIndex);
    earlier :| earlier in RoundsSeen(view) && CollectionIn(view, me, now)(earlier) == Some(c);
  }

  // ── The loyal member ───────────────────────────────────────────────────────

  /** Whenever `me` collected round k, they locked every later round that exists. */
  ghost predicate KeptPaying(w: World, me: Pubkey)
  {
    forall a, k: int, r: int :: CollectedRound(w, a, me, k) && PayableLater(w, a, k, r) ==>
      me in LockedMembers(w.shares, RoundOf(a.id, r))
  }

  ghost predicate CollectedRound(w: World, a: CircleState, me: Pubkey, k: int)
  {
    a in w.circles && CollectorOf(CycleOf(a, w.shares), w.shares, k) == Some(me)
  }

  predicate PayableLater(w: World, a: CircleState, k: int, r: int)
  {
    k < r && FindCircle(w.circles, RoundOf(a.id, r)).Some?
  }

  /** With the whole chain in view, a member who locked every round after collecting is never marked. */
  lemma LoyalMemberIsNeverMarked(start: int, evs: seq<Event>, view: seq<ShareState>, id: Id, me: Pubkey, now: int)
    requires var w := Replay(Genesis(start), evs);
             KeptPaying(w, me) && Elements(view) == Elements(w.shares) && UniqueShares(view)
    ensures !Marked(view, me, now, id)
  {
    hide Replay, Good, Structured, AnchorWalk, Lawful, PaidOutTo, CollectedBefore, SharesIn;
    hide SealedOrder, OnSchedule, LeftShort, KeptPaying;
    var w := Replay(Genesis(start), evs);
    EveryRunIsGood(start, evs);
    GoodIsStructured(w);
    RoundsStayLinked(start, evs);
    FullViewGlimpses(w, view);
    if Marked(view, me, now, id) {
      PayingMemberLocked(w, view, id, me, now);
      LockIsInView(w, view, id, me);
      WithheldLock(w, view, id, me, now);
      assert false;
    }
  }

  lemma FullViewGlimpses(w: World, view: seq<ShareState>)
    requires Structured(w) && Elements(view) == Elements(w.shares)
    ensures Glimpse(view, w.shares)
  {
    forall e | e in view
      ensures exists f :: f in w.shares && GlimpseOf(e, f)
    {
      assert e in Elements(w.shares);
      assert ShareFits(e, w.circles, w.now);
      assert GlimpseOf(e, e);
    }
  }

  lemma LockIsInView(w: World, view: seq<ShareState>, id: Id, me: Pubkey)
    requires Elements(view) == Elements(w.shares) && me in LockedMembers(w.shares, id)
    ensures exists e :: e in view && e.parent == id && e.buyer == me && e.lockedAt.Some?
  {
    var e :| e in w.shares && e.policy == ShareV2 && e.parent == id && e.lockedAt.Some? && e.buyer == me;
    assert e in Elements(view);
  }

  lemma PayingMemberLocked(w: World, view: seq<ShareState>, id: Id, me: Pubkey, now: int)
    requires Good(w) && Structured(w) && Glimpse(view, w.shares) && UniqueShares(view) && Marked(view, me, now, id)
    requires KeptPaying(w, me) && forall c :: c in w.circles ==> LinkedBack(c)
    ensures me in LockedMembers(w.shares, id)
  {
    hide Good, Structured, EvidenceOf, Glimpse, RoundFilled, CollectorOf, AnchorWalk, Lawful;
    hide PaidOutTo, CollectedBefore;
    hide UniqueShares, SharesIn, LockedMembers, SealedOrder, OnSchedule;
    var earlier: Id := EarlierRound(view, me, now, id);
    WalkIsTrue(w, view, id, MAX_HOPS);
    WalkIsTrue(w, view, earlier, MAX_HOPS);
    var a := CollectionIsTrue(w, view, me, now, earlier);
    var c, f := GlimpsedRound(w, view, id, SharesIn(view, id)[0]);
    FindUniqueIn(w, c);
    var b := AnchorOfRound(w, c);
    assert CollectedRound(w, a, me, earlier.index) && PayableLater(w, a, earlier.index, id.index);
  }

  lemma FindUniqueIn(w: World, c: CircleState)
    requires Structured(w) && c in w.circles
    ensures FindCircle(w.circles, c.id) == Some(c)
  {
    FindUnique(w.circles, c);
  }
}
