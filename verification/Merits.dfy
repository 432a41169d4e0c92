/** What the record of rotation conduct counts, told from the whole chain: paydays and the locks that follow them. */
module Merits {
  import opened Prelude
  import opened Circles
  import opened Rotation
  import opened Race
  import opened Gates
  import opened Writers
  import opened Chain
  import opened Finality
  import opened Protocol
  import opened Conduct
  import opened Accusation
  import opened RotationViews
  import opened Cycles
  import opened Framing

  /** Round d was `me`'s payday: it has ended, it filled, and the race gave it to `me`. */
  ghost predicate Payday(w: World, me: Pubkey, now: int, a: CircleState, d: CircleState)
  {
    && Anchors(w, a) && d in w.circles && RotationRound(d.terms) && d.id == RoundOf(a.id, d.terms.roundIndex)
    && now >= d.terms.roundEnd
    && CollectorOf(CycleOf(a, w.shares), w.shares, d.terms.roundIndex) == Some(me)
    && RoundFilled(CycleOf(a, w.shares), w.shares, d.terms.roundIndex)
  }

  /** The ids of the rounds that were `me`'s payday. */
  ghost function PaydayIds(w: World, me: Pubkey, now: int): set<Id>
  {
    set a, d | a in w.circles && d in w.circles && Payday(w, me, now, a, d) :: d.id
  }

  /** e is a lock of `me` in one of the rounds up to the sixty-fifth, after a payday in the same cycle. */
  ghost predicate PaidAfterPayday(w: World, me: Pubkey, now: int, e: ShareState)
  {
    && e in w.shares && e.policy == ShareV2 && e.buyer == me && e.lockedAt.Some?
    && e.circle.roundIndex <= 65
    && exists a, d :: Payday(w, me, now, a, d) && d.terms.roundIndex < e.circle.roundIndex && e.parent.RoundOf?
                      && e.parent.anchor == a.id
  }

  /** The whole chain is in view, each escrow once, in any order. */
  ghost predicate FullView(w: World, view: seq<ShareState>)
  {
    Elements(view) == Elements(w.shares) && UniqueShares(view)
  }

  // ── Collections ────────────────────────────────────────────────────────────

  lemma FullViewShows(w: World, view: seq<ShareState>)
    requires Structured(w) && FullView(w, view)
    ensures Glimpse(view, w.shares) && forall id :: Shows(view, w.shares, id)
    ensures forall e :: e in view <==> e in w.shares
  {
    FullViewGlimpses(w, view);
    forall e
      ensures e in view <==> e in w.shares
    {
      assert e in Elements(view) <==> e in Elements(w.shares);
    }
  }

  lemma PaydaySeen(w: World, view: seq<ShareState>, me: Pubkey, now: int, a: CircleState, d: CircleState)
    requires Rooted(w) && FullView(w, view) && Payday(w, me, now, a, d)
    ensures PaidOutTo(SharesIn(view, d.id), me, now) && SharesIn(view, d.id)[0].circle == d.terms
  {
    hide Good, Structured, RoundFilled, SealedOrder, Collectors, PreviousFilled, Chained, SharesIn, PaidOutTo;
    hide FullView, Anchors, Shows, Glimpse;
    FullViewShows(w, view);
    FilledRoundShowsCollected(w, view, d, a, me, now);
  }

  lemma SeenIsPayday(w: World, view: seq<ShareState>, me: Pubkey, now: int, id: Id)
    returns (a: CircleState, d: CircleState)
    requires Rooted(w) && FullView(w, view) && PaidOutTo(SharesIn(view, id), me, now)
    ensures Payday(w, me, now, a, d) && d.id == id && d.terms == SharesIn(view, id)[0].circle
  {
    hide Good, Structured, RoundFilled, SealedOrder, Collectors, PreviousFilled, SharesIn, Lawful, CanAnchor;
    hide Shows, Glimpse, OnSchedule, UniqueShares;
    FullViewShows(w, view);
    var f;
    d, f := GlimpsedRound(w, view, id, SharesIn(view, id)[0]);
    a := CycleOfRound(w, d);
    var b := CollectionIsTrue(w, view, me, now, id);
    AnchorsAnchor(w, a);
    SameRound(w, a, b);
  }

  lemma {:induction false} CollectCount<B>(f: Id -> Option<B>, s: seq<Id>)
    requires Distinct(s)
    ensures |Collect(f, s)| == |set x | x in s && f(x).Some?|
  {
    if s == [] {
      assert (set x | x in s && f(x).Some?) == {};
    } else {
      var n := |s| - 1;
      assert Distinct(s[..n]) && s[n] !in s[..n];
      CollectCount(f, s[..n]);
      ChosenGrows(f, s[..n], s[n]);
      assert s == s[..n] + [s[n]];
      hide Distinct;
    }
  }

  lemma ChosenGrows<B>(f: Id -> Option<B>, s: seq<Id>, last: Id)
    ensures (set x | x in s + [last] && f(x).Some?)
         == (set x | x in s && f(x).Some?) + (if f(last).Some? then {last} else {})
  {
  }

  lemma {:induction false} SeenOnce(view: seq<ShareState>)
    ensures Distinct(RoundsSeen(view))
  {
    if view != [] {
      SeenOnce(view[..|view| - 1]);
    }
  }

  /** The collections counted are exactly the member's paydays. */
  lemma CollectionsAreExact(w: World, view: seq<ShareState>, me: Pubkey, now: int)
    requires Rooted(w) && FullView(w, view)
    ensures |CollectionsSeen(view, me, now)| == |PaydayIds(w, me, now)|
  {
    hide Rooted, FullView, PaidOutTo, SharesIn, Payday, AnchorWalk, RoundsSeen;
    var f := CollectionIn(view, me, now);
    SeenOnce(view);
    CollectCount(f, RoundsSeen(view));
    forall id
      ensures id in RoundsSeen(view) && f(id).Some? <==> id in PaydayIds(w, me, now)
    {
      SeenMeansShares(view, id);
      if PaidOutTo(SharesIn(view, id), me, now) {
        var a, d := SeenIsPayday(w, view, me, now, id);
        PaydayInWorld(w, me, now, a, d);
        PaidOutShows(SharesIn(view, id), me, now);
      }
      if id in PaydayIds(w, me, now) {
        var a, d :| a in w.circles && d in w.circles && Payday(w, me, now, a, d) && d.id == id;
        PaydaySeen(w, view, me, now, a, d);
        PaidOutShows(SharesIn(view, id), me, now);
      }
    }
    assert (set id | id in RoundsSeen(view) && f(id).Some?) == PaydayIds(w, me, now);
  }

  lemma PaydayInWorld(w: World, me: Pubkey, now: int, a: CircleState, d: CircleState)
    requires Payday(w, me, now, a, d)
    ensures a in w.circles && d in w.circles
  {
  }

  lemma PaidOutShows(s: seq<ShareState>, me: Pubkey, now: int)
    requires PaidOutTo(s, me, now)
    ensures s != []
  {
  }

  // ── Sacrifices ─────────────────────────────────────────────────────────────

  lemma FullViewShowsBefore(w: World, view: seq<ShareState>, a: CircleState, c: CircleState, r: int)
    requires Rooted(w) && FullView(w, view) && Anchors(w, a) && c in w.circles && RoundOfCycle(c, a, r)
    ensures ShowsBefore(w, view, a, r)
  {
    hide Good, Structured, RoundFilled, SealedOrder, Collectors, PreviousFilled, FullView, Glimpse;
    hide CanAnchor, Anchors, HasPrevious, Lawful, SharesIn, Shows;
    FullViewShows(w, view);
    forall d | d in w.circles && RotationRound(d.terms) && RoundOfCycle(d, a, d.terms.roundIndex)
               && d.terms.roundIndex < r
      ensures SharesIn(view, d.id) != []
    {
      var e := EarlierRoundFilled(w, c, a, r, d.terms.roundIndex);
      SameRound(w, d, e);
      FilledRoundShows(w, view, d, a);
    }
  }

  /** In full view the walk from any round up to the sixty-fifth arrives, and from no later one. */
  lemma WalkIsExact(w: World, view: seq<ShareState>, a: CircleState, c: CircleState)
    requires Rooted(w) && FullView(w, view) && Anchors(w, a) && c in w.circles && RotationRound(c.terms)
    requires c.id == RoundOf(a.id, c.terms.roundIndex) && SharesIn(view, c.id) != []
    ensures AnchorWalk(view, c.id, MAX_HOPS)
         == if c.terms.roundIndex <= 65 then Some(a.id) else None
  {
    hide Good, Structured, RoundFilled, SealedOrder, Collectors, PreviousFilled, FullView, Glimpse;
    hide CanAnchor, Anchors, HasPrevious, Lawful, SharesIn, Shows, AnchorWalk, ShowsBefore;
    FullViewShows(w, view);
    if AnchorWalk(view, c.id, MAX_HOPS).Some? {
      WalkNeedsHops(w, view, c.id, MAX_HOPS);
    }
    if c.terms.roundIndex <= 65 {
      FullViewShowsBefore(w, view, a, c, c.terms.roundIndex);
      WalkArrives(w, view, a, c, c.terms.roundIndex, MAX_HOPS);
    }
  }

  lemma SacrificeIsPaid(w: World, view: seq<ShareState>, me: Pubkey, now: int, id: Id, e: ShareState)
    requires Rooted(w) && FullView(w, view)
    requires e in SharesIn(view, id) && Sacrificed(view, me, now, id) && e.buyer == me
    ensures PaidAfterPayday(w, me, now, e)
  {
    hide Rooted, Structured, FullView, SharesIn, Payday, AnchorWalk, PaidOutTo, CollectedBefore, LockedBy, Glimpse;
    hide Shows, LinkedBack;
    RootedIsStructured(w);
    FullViewShows(w, view);
    SharesInView(view, id);
    var earlier: Id := EarlierRound(view, me, now, id);
    var a, d := SeenIsPayday(w, view, me, now, earlier);
    var c, f := GlimpsedRound(w, view, id, e);
    WalkIsTrue(w, view, id, MAX_HOPS);
    WalkIsTrue(w, view, earlier, MAX_HOPS);
    WalkNeedsHops(w, view, id, MAX_HOPS);
    IndexSeen(w, view, c);
    OwnLock(w, view, me, id, e);
    LinkedIndex(w, c);
    PaydayAnchor(w, me, now, a, d);
  }

  lemma RootedIsStructured(w: World)
    requires Rooted(w)
    ensures Structured(w) && forall c :: c in w.circles ==> LinkedBack(c)
  {
  }

  lemma LinkedIndex(w: World, c: CircleState)
    requires Rooted(w) && c in w.circles && RotationRound(c.terms)
    ensures c.id.RoundOf? && c.id.index == c.terms.roundIndex
  {
    hide Good, Structured;
    assert LinkedBack(c);
  }

  lemma PaydayAnchor(w: World, me: Pubkey, now: int, a: CircleState, d: CircleState)
    requires Payday(w, me, now, a, d)
    ensures d.id == RoundOf(a.id, d.terms.roundIndex)
  {
  }

  /** A member holds one share of a round, so a lock of theirs is a lock of that share. */
  lemma OwnLock(w: World, view: seq<ShareState>, me: Pubkey, id: Id, e: ShareState)
    requires Structured(w) && FullView(w, view) && e in SharesIn(view, id) && e.buyer == me
    requires LockedBy(SharesIn(view, id), me)
    ensures e.lockedAt.Some?
  {
    hide Structured, SharesIn;
    FullViewShows(w, view);
    SharesInView(view, id);
    var f :| f in SharesIn(view, id) && f.buyer == me && f.lockedAt.Some?;
    OneSeatEach(w, e, f);
    SameIdSame(view, e, f);
  }

  lemma SameIdSame(s: seq<ShareState>, e: ShareState, f: ShareState)
    requires UniqueShares(s) && e in s && f in s && e.id == f.id
    ensures e == f
  {
  }

  lemma PaidIsSacrifice(w: World, view: seq<ShareState>, me: Pubkey, now: int, e: ShareState)
    requires Rooted(w) && FullView(w, view) && PaidAfterPayday(w, me, now, e)
    ensures e in SharesIn(view, e.parent) && Sacrificed(view, me, now, e.parent)
  {
    hide Rooted, FullView, SharesIn, Payday, AnchorWalk, PaidOutTo, CollectedBefore, Glimpse, Shows;
    RootedIsStructured(w);
    FullViewShows(w, view);
    SharesInView(view, e.parent);
    var c := RoundOfShare(w, e);
    var a, d :| Payday(w, me, now, a, d) && d.terms.roundIndex < e.circle.roundIndex && e.parent.RoundOf?
                && e.parent.anchor == a.id;
    PaydaySeen(w, view, me, now, a, d);
    PaidOutShows(SharesIn(view, d.id), me, now);
    PaydayFacts(w, me, now, a, d);
    LinkedIndex(w, c);
    IndexSeen(w, view, c);
    WalkIsExact(w, view, a, c);
    WalkIsExact(w, view, a, d);
    CollectionCounts(view, me, now, d.id, c.id, a.id, d.terms.roundIndex, c.terms.roundIndex);
  }

  lemma PaydayFacts(w: World, me: Pubkey, now: int, a: CircleState, d: CircleState)
    requires Payday(w, me, now, a, d)
    ensures Anchors(w, a) && d in w.circles && RotationRound(d.terms) && d.id == RoundOf(a.id, d.terms.roundIndex)
  {
  }

  /** The sacrifices listed are exactly the member's locks after a payday of theirs in the same cycle, in rounds up to
      the sixty-fifth. */
  lemma SacrificesAreExact(w: World, view: seq<ShareState>, me: Pubkey, now: int)
    requires Rooted(w) && FullView(w, view)
    ensures SacrificesIn(view, me, now, RoundsSeen(view))
         == set e | e in w.shares && PaidAfterPayday(w, me, now, e) :: e.id
  {
    hide Rooted, FullView, SharesIn, PaidAfterPayday, Sacrificed, RoundsSeen;
    var counted := SacrificesIn(view, me, now, RoundsSeen(view));
    forall x | x in counted
      ensures exists e :: e in w.shares && PaidAfterPayday(w, me, now, e) && e.id == x
    {
      var id, e :| id in RoundsSeen(view) && e in SharesIn(view, id) && Sacrificed(view, me, now, id)
                   && e.buyer == me && e.id == x;
      SacrificeIsPaid(w, view, me, now, id, e);
      PaidIsShare(w, me, now, e);
    }
    forall e | e in w.shares && PaidAfterPayday(w, me, now, e)
      ensures e.id in counted
    {
      PaidIsSacrifice(w, view, me, now, e);
      SeenMeansShares(view, e.parent);
      PaidIsShare(w, me, now, e);
    }
  }

  lemma PaidIsShare(w: World, me: Pubkey, now: int, e: ShareState)
    requires PaidAfterPayday(w, me, now, e)
    ensures e in w.shares && e.buyer == me
  {
  }

  // ── Marks ──────────────────────────────────────────────────────────────────

  /** `me` had a payday before round c of the same cycle. */
  ghost predicate HadPayday(w: World, me: Pubkey, now: int, c: CircleState)
  {
    exists a, d :: Payday(w, me, now, a, d) && d.terms.roundIndex < c.terms.roundIndex
                   && c.id == RoundOf(a.id, c.terms.roundIndex)
  }

  /** Round c is one of those up to the sixty-fifth, is past its deadline and short, has a share refunded with a time
      before the round's end, and has no lock of `me`, who had a payday before it. */
  ghost predicate LeftOwing(w: World, me: Pubkey, now: int, c: CircleState)
  {
    && HadPayday(w, me, now, c) && c.terms.roundIndex <= 65 && now >= c.terms.fillDeadline
    && me !in LockedMembers(w.shares, c.id) && |LockedMembers(w.shares, c.id)| < c.terms.seatThreshold
    && exists e :: e in w.shares && e.parent == c.id && e.resolved.Some?
                   && e.resolved.value.outcome == Refund && e.resolved.value.at < c.terms.roundEnd
  }

  lemma {:induction false} OthersAreAll(s: seq<ShareState>, me: Pubkey)
    requires !LockedBy(s, me)
    ensures Collect(OtherLocked(me), s) == Collect(LockedShare(), s)
  {
    if s != [] {
      assert s[|s| - 1] in s;
      OthersAreAll(s[..|s| - 1], me);
    }
  }

  lemma LocksInFullView(w: World, view: seq<ShareState>, c: CircleState)
    requires Structured(w) && FullView(w, view) && c in w.circles && RotationRound(c.terms)
    ensures var s := SharesIn(view, c.id);
            && |Collect(LockedShare(), s)| == |LockedMembers(w.shares, c.id)|
            && (forall m :: LockedBy(s, m) <==> m in LockedMembers(w.shares, c.id))
            && (forall e :: e in s <==> e in w.shares && e.parent == c.id)
  {
    hide Structured, SharesIn;
    var s := SharesIn(view, c.id);
    FullViewShows(w, view);
    SharesInView(view, c.id);
    ViewIsUnique(view, c.id);
    LockedInView(w, view, s, c.id);
    CollectMembers(LockedShare(), s);
    forall e | e in w.shares && e.parent == c.id
      ensures RotationShare(e)
    {
      ShareOfRound(w, c, e);
    }
    var locked := Collect(LockedShare(), s);
    DistinctCount(locked);
    forall m | m in LockedMembers(w.shares, c.id)
      ensures m in Elements(locked)
    {
      var e :| e in w.shares && e.policy == ShareV2 && e.parent == c.id && e.lockedAt.Some? && e.buyer == m;
      assert LockedShare()(e) == Some(m);
    }
    assert Elements(locked) == LockedMembers(w.shares, c.id);
  }

  lemma HadPaydaySeen(w: World, view: seq<ShareState>, me: Pubkey, now: int, c: CircleState)
    requires Rooted(w) && FullView(w, view) && c in w.circles && RotationRound(c.terms) && SharesIn(view, c.id) != []
    ensures CollectedBefore(view, me, now, c.id)
        <==> HadPayday(w, me, now, c) && c.terms.roundIndex <= 65
  {
    hide Rooted, FullView, SharesIn, Payday, AnchorWalk, PaidOutTo, CollectedBefore, Glimpse, Shows, LinkedBack;
    hide Structured;
    RootedIsStructured(w);
    FullViewShows(w, view);
    IndexSeen(w, view, c);
    if CollectedBefore(view, me, now, c.id) {
      var earlier: Id := EarlierRound(view, me, now, c.id);
      var a, d := SeenIsPayday(w, view, me, now, earlier);
      WalkIsTrue(w, view, c.id, MAX_HOPS);
      WalkIsTrue(w, view, earlier, MAX_HOPS);
      WalkNeedsHops(w, view, c.id, MAX_HOPS);
      LinkedIndex(w, c);
      PaydayAnchor(w, me, now, a, d);
    }
    if HadPayday(w, me, now, c) && c.terms.roundIndex <= 65 {
      var a, d :| Payday(w, me, now, a, d) && d.terms.roundIndex < c.terms.roundIndex
                  && c.id == RoundOf(a.id, c.terms.roundIndex);
      PaydaySeen(w, view, me, now, a, d);
      PaidOutShows(SharesIn(view, d.id), me, now);
      PaydayFacts(w, me, now, a, d);
      WalkIsExact(w, view, a, c);
      WalkIsExact(w, view, a, d);
      CollectionCounts(view, me, now, d.id, c.id, a.id, d.terms.roundIndex, c.terms.roundIndex);
    }
  }

  lemma ShortExactly(w: World, s: seq<ShareState>, me: Pubkey, now: int, c: CircleState)
    requires s != [] && s[0].circle == c.terms && (forall e :: e in s <==> e in w.shares && e.parent == c.id)
    requires |Collect(LockedShare(), s)| == |LockedMembers(w.shares, c.id)|
    requires LockedBy(s, me) <==> me in LockedMembers(w.shares, c.id)
    ensures LeftShort(s, me, now)
        <==> && now >= c.terms.fillDeadline && me !in LockedMembers(w.shares, c.id)
             && 0 < |LockedMembers(w.shares, c.id)| < c.terms.seatThreshold
             && exists e :: e in w.shares && e.parent == c.id && EarlyRefund(e, c.terms.roundEnd)
  {
    hide LockedMembers, LockedBy;
    if !LockedBy(s, me) {
      OthersAreAll(s, me);
    }
  }

  lemma UnseenIsNotMarked(view: seq<ShareState>, me: Pubkey, now: int, id: Id)
    requires SharesIn(view, id) == []
    ensures !Marked(view, me, now, id)
  {
  }

  /** In full view a round is marked exactly when it was left owing. */
  lemma MarkIsExact(w: World, view: seq<ShareState>, me: Pubkey, now: int, c: CircleState)
    requires Rooted(w) && FullView(w, view) && c in w.circles && RotationRound(c.terms)
    ensures Marked(view, me, now, c.id) <==> LeftOwing(w, me, now, c)
  {
    hide Rooted, FullView, SharesIn, CollectedBefore, HadPayday, LockedBy, LeftShort, Structured, LockedMembers;
    hide Glimpse, Shows, LinkedBack;
    var s := SharesIn(view, c.id);
    RootedIsStructured(w);
    LocksInFullView(w, view, c);
    if s == [] {
      UnseenIsNotMarked(view, me, now, c.id);
    } else {
      FullViewShows(w, view);
      IndexSeen(w, view, c);
      HadPaydaySeen(w, view, me, now, c);
      ShortExactly(w, s, me, now, c);
      RefundedIsLocked(w, c);
    }
  }

  lemma RefundedIsLocked(w: World, c: CircleState)
    requires Structured(w) && c in w.circles && RotationRound(c.terms)
    ensures (exists e :: e in w.shares && e.parent == c.id && EarlyRefund(e, c.terms.roundEnd)) ==>
              |LockedMembers(w.shares, c.id)| > 0
  {
    hide Structured;
    if e :| e in w.shares && e.parent == c.id && EarlyRefund(e, c.terms.roundEnd) {
      ShareOfRound(w, c, e);
      assert e.buyer in LockedMembers(w.shares, c.id);
    }
  }

  /** The record is true: with the whole chain in view it counts a member's paydays, lists the locks that followed one,
      and marks exactly the rounds the member left owing after one. */
  lemma RecordIsTrue(start: int, evs: seq<Event>, view: seq<ShareState>, me: Pubkey, now: int)
    requires FullView(Replay(Genesis(start), evs), view)
    ensures var w := Replay(Genesis(start), evs);
            && |CollectionsSeen(view, me, now)| == |PaydayIds(w, me, now)|
            && SacrificesIn(view, me, now, RoundsSeen(view))
               == (set e | e in w.shares && PaidAfterPayday(w, me, now, e) :: e.id)
            && forall c :: c in w.circles && RotationRound(c.terms) ==>
                 (Marked(view, me, now, c.id) <==> LeftOwing(w, me, now, c))
  {
    hide Replay, Rooted, FullView, PaydayIds, PaidAfterPayday, SacrificesIn, CollectionsSeen, Marked, LeftOwing;
    var w := Replay(Genesis(start), evs);
    EveryRunIsRooted(start, evs);
    CollectionsAreExact(w, view, me, now);
    SacrificesAreExact(w, view, me, now);
    forall c | c in w.circles && RotationRound(c.terms)
      ensures Marked(view, me, now, c.id) <==> LeftOwing(w, me, now, c)
    {
      MarkIsExact(w, view, me, now, c);
    }
  }
}
