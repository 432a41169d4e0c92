/** Two runs in which a member who paid is marked for a round that filled: one lie about the evidence, one about
    the time, each alone enough. */
module FalseMark {
  import opened Prelude
  import opened Circles
  import opened Rotation
  import opened Race
  import opened Gates
  import opened Writers
  import opened Chain
  import opened Finality
  import opened Protocol
  import opened Conduct
  import opened Accusation
  import opened RotationViews
  import opened Seats
  import opened Cycles
  import opened Framing
  import opened FirstCycle

  // ── Who collects ───────────────────────────────────────────────────────────

  /** The fastest uncollected locker of the round before collects. */
  lemma NextIs(cy: Cycle, shares: seq<ShareState>, before: seq<Pubkey>, k: int, x: Racer)
    requires x in LocksOf(PreviousPolicy(k), PreviousId(cy.anchor, k), shares) && k <= |cy.order|
    requires x.member in cy.order && x.member !in before && x.member != cy.host
    requires forall y :: y in LocksOf(PreviousPolicy(k), PreviousId(cy.anchor, k), shares) ==>
                           y.member in before || y.member == cy.host || !Ahead(y, x)
    ensures NextCollector(cy, shares, before, k) == Some(x.member)
  {
    hide LocksOf;
    var racers, excluded := Racers(cy.anchor, cy.order, shares, k), Elements(before) + {cy.host};
    RacersAreLocks(cy.anchor, cy.order, shares, k);
    WinnerIsFastest(racers, excluded);
    FastestIsUnique(Elements(racers), excluded, Winner(racers, excluded), Some(x.member));
  }

  /** Member 2 locked first among equals and collects round two. */
  lemma SecondCollector(w: World, later: seq<ShareState>)
    requires Structured(w) && w.shares == Committed() + later && forall e :: e in later ==> e.policy == ShareV2
    ensures var cy := CycleOf(Anchor(3), w.shares);
            && Collectors(cy, w.shares, 2) == Some([2]) && CollectorOf(cy, w.shares, 2) == Some(2)
            && Elements(cy.order) == {1, 2, 3} && |cy.order| == 3
  {
    hide Structured, SealedOrder, LocksOf, Collectors, NextCollector;
    var cy := CycleOf(Anchor(3), w.shares);
    ThreeAreSealed(w, later);
    WhoCommitted(3);
    CommitmentLocksAre(Committed(), later, {1, 2, 3});
    assert Racer(2, 0) in LocksOf(ShareV1, CIRCLE, w.shares);
    assert 2 in Elements(cy.order);
    NextIs(cy, w.shares, [], 2, Racer(2, 0));
    NoneBefore(cy, w.shares);
    CollectorStep(cy, w.shares, [], 2);
    assert [] + [2] == [2];
  }

  lemma NoneBefore(cy: Cycle, shares: seq<ShareState>)
    ensures Collectors(cy, shares, 1) == Some([])
  {
  }

  // ── A seat of a collection round ───────────────────────────────────────────

  function PayIn(k: int, seller: Pubkey, now: int): SharePayload
  {
    SharePayload(ShareV2, RoundOf(CIRCLE, k), seller, 1000, "mint", None, None, None, POOL, [], k * 7200 - now, now, 0,
                 0)
  }

  function PayInId(k: int, m: Pubkey): Id { ShareOf(RoundOf(CIRCLE, k), m, k) }

  function PaidIn(k: int, m: Pubkey, seller: Pubkey, at: int, lockedAt: Option<int>): ShareState
  {
    ShareState(PayInId(k, m), ShareV2, RoundOf(CIRCLE, k), m, seller, NextPayload(k, at).terms, at, lockedAt, None,
               None, None, None)
  }

  /** A sealed member other than the collector takes a seat and locks it. */
  lemma MemberPaysIn(past: seq<Event>, w: World, later: seq<ShareState>, c: CircleState, k: int, m: Pubkey,
                     seller: Pubkey)
    requires w == Replay(Genesis(0), past) && Anchor(3) in w.circles && c in w.circles && 2 <= k <= 3
    requires c == RoundState(k, 2, w.now) && w.now == (k - 1) * 7200
    requires w.shares == Committed() + later && (forall e :: e in later ==> e.policy == ShareV2) && m in {1, 2, 3}
    requires m != seller
    requires CollectorOf(CycleOf(Anchor(3), w.shares), w.shares, k) == Some(seller) && seller in {1, 2, 3}
    requires FindCircle(w.circles, PayInId(k, m)) == None && forall e :: e in w.shares ==> e.id != PayInId(k, m)
    ensures Replay(Genesis(0), past + [TakeSeat(PayInId(k, m), m, PayIn(k, seller, w.now))]
                   + [LockShare(PayInId(k, m))])
         == w.(shares := w.shares + [PaidIn(k, m, seller, w.now, Some(w.now))])
  {
    hide Replay, Good, Structured, Chained, SealedOrder, Collectors, Resolved, RotationSharePayload;
    hide Step, Committed, Sealable, Lawful;
    var take, lock := TakeSeat(PayInId(k, m), m, PayIn(k, seller, w.now)), LockShare(PayInId(k, m));
    EveryRunIsChained(0, past);
    var a, collector := SeatOpens(0, past, c, m);
    AnchorsAnchor(w, a);
    SameRound(w, a, Anchor(3));
    RoundFits(w, c);
    ThreeAreSealed(w, later);
    assert m in Elements(SealedOrder(Anchor(3), w.shares));
    assert 8 in c.pool && ArbiterFor(c, m, seller);
    NoSuchShare(w.shares, PayInId(k, m));
    RoundIsSealedHere(w, c);
    PayloadFromResolved(w, c, a, m);
    ThenStep(past, take);
    ThenStep(past + [take], lock);
    var e := PaidIn(k, m, seller, w.now, None);
    LastMoves(w.(shares := w.shares + [e]), w.shares, e, lock);
  }

  lemma RoundIsSealedHere(w: World, c: CircleState)
    requires Good(w) && Structured(w) && Anchor(3) in w.circles && c in w.circles && RotationRound(c.terms)
    requires c.id == RoundOf(CIRCLE, c.terms.roundIndex)
    ensures RoundSealed(c, Anchor(3), w.shares)
  {
    hide Good, Structured, SealedOrder, Collectors;
    FindUniqueIn(w, Anchor(3));
    RoundIsSealed(w, c, Anchor(3));
  }

  // ── Round two ──────────────────────────────────────────────────────────────

  function Seat(k: int, m: Pubkey, seller: Pubkey, now: int): Event
  {
    TakeSeat(PayInId(k, m), m, PayIn(k, seller, now))
  }

  /** Members 3 and the host pay in for member 2; the round runs out. */
  function RoundTwo(): seq<Event>
  {
    Story() + [OpenRound(2, 2, 7200)] + [Seat(2, 3, 2, 7200)] + [LockShare(PayInId(2, 3))]
    + [Seat(2, 1, 2, 7200)] + [LockShare(PayInId(2, 1))]
  }

  function PaidTwo(): seq<ShareState> { [PaidIn(2, 3, 2, 7200, Some(7200)), PaidIn(2, 1, 2, 7200, Some(7200))] }

  lemma SeatIdsAreFree(circles: seq<CircleState>, k: int, m: Pubkey)
    requires forall c :: c in circles ==> !c.id.ShareOf?
    ensures FindCircle(circles, PayInId(k, m)) == None
  {
    FindMember(circles, PayInId(k, m));
  }

  lemma EveryRunIsStructured(past: seq<Event>)
    ensures Structured(Replay(Genesis(0), past)) && Good(Replay(Genesis(0), past))
  {
    hide Replay, Structured, Good;
    EveryRunIsGood(0, past);
    GoodIsStructured(Replay(Genesis(0), past));
  }

  lemma CommittedSeats(k: int)
    requires k >= 2
    ensures forall e, m :: e in Committed() ==> e.id != PayInId(k, m)
  {
  }

  /** Everyone but member 2 locked round two. */
  lemma RoundTwoFilled(w: World, later: seq<ShareState>)
    requires Structured(w) && w.shares == Committed() + (PaidTwo() + later)
    requires forall e :: e in later ==> e.policy == ShareV2 && e.parent != RoundOf(CIRCLE, 2)
    ensures LocksOf(ShareV2, RoundOf(CIRCLE, 2), w.shares) == {Racer(3, 7200), Racer(1, 7200)}
    ensures RoundFilled(CycleOf(Anchor(3), w.shares), w.shares, 2)
  {
    hide Structured, SealedOrder, Collectors, CollectorOf;
    SecondCollector(w, PaidTwo() + later);
    LocksAtOnce(Committed(), PaidTwo(), later, 2, 3, 1, 2, 7200);
    forall m | m in SealedOrder(Anchor(3), w.shares) && m != 2
      ensures exists x :: x in LocksOf(ShareV2, RoundOf(CIRCLE, 2), w.shares) && x.member == m
    {
      assert m in Elements(SealedOrder(Anchor(3), w.shares));
      assert Racer(m, 7200) in LocksOf(ShareV2, RoundOf(CIRCLE, 2), w.shares);
    }
  }

  /** Two shares of round k, locked at once, are all the locks it has. */
  lemma LocksAtOnce(before: seq<ShareState>, pair: seq<ShareState>, later: seq<ShareState>, k: int, m: Pubkey,
                    n: Pubkey, seller: Pubkey, at: int)
    requires pair == [PaidIn(k, m, seller, at, Some(at)), PaidIn(k, n, seller, at, Some(at))]
    requires forall e :: e in before || e in later ==> e.parent != RoundOf(CIRCLE, k)
    ensures LocksOf(ShareV2, RoundOf(CIRCLE, k), before + (pair + later)) == {Racer(m, at), Racer(n, at)}
  {
    var s := before + (pair + later);
    assert pair[0] in pair && pair[1] in pair;
    assert pair[0] in s && pair[1] in s;
    forall x
      ensures x in LocksOf(ShareV2, RoundOf(CIRCLE, k), s) <==> x in {Racer(m, at), Racer(n, at)}
    {
      if x in LocksOf(ShareV2, RoundOf(CIRCLE, k), s) {
        var e :| e in s && e.policy == ShareV2 && e.parent == RoundOf(CIRCLE, k) && e.lockedAt.Some?
            && x == Racer(e.buyer, e.lockedAt.value);
        assert e in pair;
      }
    }
  }

  /** Round three goes to member 3, the fastest who waits. */
  lemma ThirdCollector(w: World, later: seq<ShareState>)
    requires Structured(w) && w.shares == Committed() + (PaidTwo() + later)
    requires forall e :: e in later ==> e.policy == ShareV2 && e.parent != RoundOf(CIRCLE, 2)
    ensures CollectorOf(CycleOf(Anchor(3), w.shares), w.shares, 3) == Some(3)
  {
    hide Structured, SealedOrder, LocksOf, Collectors, NextCollector;
    var cy := CycleOf(Anchor(3), w.shares);
    SecondCollector(w, PaidTwo() + later);
    RoundTwoFilled(w, later);
    assert 3 in Elements(cy.order);
    NextIs(cy, w.shares, [2], 3, Racer(3, 7200));
    CollectorStep(cy, w.shares, [2], 3);
  }

  // ── Two members pay in ─────────────────────────────────────────────────────

  /** Before round k is paid in, the shares of the earlier rounds are these. */
  function Earlier(k: int): seq<ShareState> { if k == 3 then PaidTwo() else [] }

  /** Round two goes to member 2, round three to member 3. */
  lemma CollectorIs(w: World, k: int, more: seq<ShareState>)
    requires Structured(w) && 2 <= k <= 3 && w.shares == Committed() + (Earlier(k) + more)
    requires forall e :: e in more ==> e.policy == ShareV2 && e.parent == RoundOf(CIRCLE, k)
    ensures CollectorOf(CycleOf(Anchor(3), w.shares), w.shares, k) == Some(k)
  {
    hide Structured, CollectorOf, Committed;
    if k == 2 {
      SecondCollector(w, Earlier(k) + more);
    } else {
      ThirdCollector(w, more);
    }
  }

  lemma FirstPaysIn(past: seq<Event>, w: World, c: CircleState, k: int, more: seq<ShareState>, m: Pubkey)
    requires w == Replay(Genesis(0), past) && Anchor(3) in w.circles && c in w.circles && 2 <= k <= 3
    requires c == RoundState(k, 2, w.now) && w.now == (k - 1) * 7200 && forall d :: d in w.circles ==> !d.id.ShareOf?
    requires w.shares == Committed() + (Earlier(k) + more) && m in {1, 2, 3} && m != k
    requires forall e :: e in more ==> e.policy == ShareV2 && e.parent == RoundOf(CIRCLE, k) && e.id != PayInId(k, m)
    ensures Replay(Genesis(0), past + [Seat(k, m, k, w.now)] + [LockShare(PayInId(k, m))])
         == w.(shares := w.shares + [PaidIn(k, m, k, w.now, Some(w.now))])
  {
    hide Replay, Structured, Good, CollectorOf, Committed;
    EveryRunIsStructured(past);
    CollectorIs(w, k, more);
    SeatIdsAreFree(w.circles, k, m);
    CommittedSeats(k);
    MemberPaysIn(past, w, Earlier(k) + more, c, k, m, k);
  }

  lemma BothPayIn(past: seq<Event>, w: World, c: CircleState, k: int, m: Pubkey, n: Pubkey)
    requires w == Replay(Genesis(0), past) && Anchor(3) in w.circles && c in w.circles && 2 <= k <= 3
    requires c == RoundState(k, 2, w.now) && w.now == (k - 1) * 7200 && forall d :: d in w.circles ==> !d.id.ShareOf?
    requires w.shares == Committed() + Earlier(k) && m in {1, 2, 3} && n in {1, 2, 3} && m != k && n != k && m != n
    ensures Replay(Genesis(0), past + [Seat(k, m, k, w.now)] + [LockShare(PayInId(k, m))] + [Seat(k, n, k, w.now)]
                   + [LockShare(PayInId(k, n))])
         == w.(shares := w.shares + [PaidIn(k, m, k, w.now, Some(w.now)), PaidIn(k, n, k, w.now, Some(w.now))])
  {
    hide Replay, Structured, Good, Committed, Earlier;
    var e, f := PaidIn(k, m, k, w.now, Some(w.now)), PaidIn(k, n, k, w.now, Some(w.now));
    assert Earlier(k) + [] == Earlier(k);
    FirstPaysIn(past, w, c, k, [], m);
    assert w.shares + [e] == Committed() + (Earlier(k) + [e]);
    FirstPaysIn(past + [Seat(k, m, k, w.now)] + [LockShare(PayInId(k, m))], w.(shares := w.shares + [e]), c, k, [e], n);
    assert w.shares + [e] + [f] == w.shares + [e, f];
  }

  lemma RoundTwoUnfolds()
    ensures Replay(Genesis(0), RoundTwo()) == World(7200, [Anchor(3), RoundState(2, 2, 7200)], Committed() + PaidTwo())
  {
    hide Replay, Committed;
    FirstCollectionRoundOpens();
    var c := RoundState(2, 2, 7200);
    var w := World(7200, [Anchor(3), c], Committed());
    assert w.circles[0] == Anchor(3) && w.circles[1] == c;
    assert Committed() + [] == Committed();
    BothPayIn(Story() + [OpenRound(2, 2, 7200)], w, c, 2, 3, 1);
  }

  // ── Round three ────────────────────────────────────────────────────────────

  /** Members 2 and the host pay in for member 3, each seat locked at once. */
  function RoundThree(): seq<Event>
  {
    RoundTwo() + [Tick(7200)] + [OpenRound(3, 2, 14400)] + [Seat(3, 2, 3, 14400)] + [LockShare(PayInId(3, 2))]
    + [Seat(3, 1, 3, 14400)] + [LockShare(PayInId(3, 1))]
  }

  function PaidThree(): seq<ShareState> { [PaidIn(3, 2, 3, 14400, Some(14400)), PaidIn(3, 1, 3, 14400, Some(14400))] }

  function Rounds(): seq<CircleState> { [Anchor(3), RoundState(2, 2, 7200), RoundState(3, 2, 14400)] }

  lemma ThirdRoundOpens()
    ensures Replay(Genesis(0), RoundTwo() + [Tick(7200)] + [OpenRound(3, 2, 14400)])
        == World(14400, Rounds(), Committed() + PaidTwo())
  {
    hide Replay, Step, Committed, Good, Structured, RoundFilled, PaidTwo;
    RoundTwoUnfolds();
    var c := RoundState(2, 2, 7200);
    var w := World(14400, [Anchor(3), c], Committed() + PaidTwo());
    ThenStep(RoundTwo(), Tick(7200));
    TimePasses(w.(now := 7200), 7200);
    EveryRunIsStructured(RoundTwo() + [Tick(7200)]);
    assert w.circles[0] == Anchor(3) && w.circles[1] == c;
    assert PaidTwo() + [] == PaidTwo();
    RoundTwoFilled(w, []);
    ThirdIdIsFree(w);
    NextOpens(RoundTwo() + [Tick(7200)], w, PaidTwo(), c, 2, 2);
    assert w.circles + [RoundState(3, 2, 14400)] == Rounds();
  }

  lemma ThirdIdIsFree(w: World)
    requires w.circles == [Anchor(3), RoundState(2, 2, 7200)] && w.shares == Committed() + PaidTwo()
    ensures !Taken(w, RoundOf(CIRCLE, 3)) && forall e :: e in PaidTwo() ==> e.policy == ShareV2
  {
    FindMember(w.circles, RoundOf(CIRCLE, 3));
    NoSuchShare(w.shares, RoundOf(CIRCLE, 3));
  }

  lemma RoundThreeUnfolds()
    ensures Replay(Genesis(0), RoundThree()) == World(14400, Rounds(), Committed() + (PaidTwo() + PaidThree()))
  {
    hide Replay, Committed, PaidTwo;
    ThirdRoundOpens();
    var c := RoundState(3, 2, 14400);
    var w := World(14400, Rounds(), Committed() + PaidTwo());
    assert w.circles[0] == Anchor(3) && w.circles[2] == c;
    BothPayIn(RoundTwo() + [Tick(7200)] + [OpenRound(3, 2, 14400)], w, c, 3, 2, 1);
    assert w.shares + PaidThree() == Committed() + (PaidTwo() + PaidThree());
  }

  // ── The lie ────────────────────────────────────────────────────────────────

  const HOST_SHARE := PayInId(3, HOST)

  /** The host and member 3, its two principals, vote to return the host's share of round three. */
  function Agreed(): seq<Event>
  {
    RoundThree() + [CastVote(HOST_SHARE, BuyerSeat, Refund, None)] + [CastVote(HOST_SHARE, SellerSeat, Refund, None)]
  }

  function HostShare(): ShareState
  {
    PaidIn(3, HOST, 3, 14400, Some(14400)).(buyerVote := Some(Refund), sellerVote := Some(Refund))
  }

  function Others(): seq<ShareState> { Committed() + (PaidTwo() + [PaidIn(3, 2, 3, 14400, Some(14400))]) }

  lemma OthersDiffer()
    ensures forall e :: e in Others() ==> e.id != HOST_SHARE
    ensures Committed() + (PaidTwo() + PaidThree()) == Others() + [PaidIn(3, HOST, 3, 14400, Some(14400))]
  {
  }

  lemma AgreedUnfolds()
    ensures Replay(Genesis(0), Agreed()) == World(14400, Rounds(), Others() + [HostShare()])
  {
    hide Replay, Step, Others, Committed, PaidTwo, PaidThree;
    RoundThreeUnfolds();
    OthersDiffer();
    var v1, v2 := CastVote(HOST_SHARE, BuyerSeat, Refund, None), CastVote(HOST_SHARE, SellerSeat, Refund, None);
    var e0 := PaidIn(3, HOST, 3, 14400, Some(14400));
    var e1 := e0.(buyerVote := Some(Refund));
    var w := World(14400, Rounds(), Others() + [e0]);
    ThenStep(RoundThree(), v1);
    LastMoves(w, Others(), e0, v1);
    ThenStep(RoundThree() + [v1], v2);
    LastMoves(w.(shares := Others() + [e1]), Others(), e1, v2);
  }

  /** The world in which the refund is settled, at a later time. */
  lemma AgreedLater(seconds: nat)
    ensures var w := Replay(Genesis(0), Agreed() + [Tick(seconds)]);
            && w == World(14400 + seconds, Rounds(), Others() + [HostShare()])
            && Good(w) && Structured(w) && HostShare() in w.shares && RoundState(3, 2, 14400) in w.circles
            && Anchors(w, Anchor(3))
            && RoundFilled(CycleOf(Anchor(3), w.shares), w.shares, 3) && CollectedEarlier(w, Anchor(3), 2, 3)
  {
    hide Replay, Step, Good, Structured, Others, RoundFilled, CollectorOf;
    AgreedUnfolds();
    ThenStep(Agreed(), Tick(seconds));
    TimePasses(World(14400, Rounds(), Others() + [HostShare()]), seconds);
    var w := World(14400 + seconds, Rounds(), Others() + [HostShare()]);
    EveryRunIsStructured(Agreed() + [Tick(seconds)]);
    TermsAreLawful(3);
    assert w.circles[0] == Anchor(3) && w.circles[2] == RoundState(3, 2, 14400) && w.shares[|Others()|] == HostShare();
    RoundThreeFilled(w);
  }

  lemma RoundThreeFilled(w: World)
    requires Structured(w) && w.shares == Others() + [HostShare()]
    ensures RoundFilled(CycleOf(Anchor(3), w.shares), w.shares, 3)
    ensures CollectorOf(CycleOf(Anchor(3), w.shares), w.shares, 2) == Some(2)
  {
    hide Structured, SealedOrder, Collectors, CollectorOf;
    var later := [PaidIn(3, 2, 3, 14400, Some(14400)), HostShare()];
    assert w.shares == Committed() + (PaidTwo() + later);
    SecondCollector(w, PaidTwo() + later);
    ThirdCollector(w, later);
    assert later[0] in later && later[1] in later;
    forall m | m in SealedOrder(Anchor(3), w.shares) && m != 3
      ensures exists x :: x in LocksOf(ShareV2, RoundOf(CIRCLE, 3), w.shares) && x.member == m
    {
      assert m in Elements(SealedOrder(Anchor(3), w.shares));
      assert Racer(m, 14400) in LocksOf(ShareV2, RoundOf(CIRCLE, 3), w.shares);
    }
  }

  /** Resolving the host's share, with whatever evidence passes and an early stated time, makes member 2 markable for
      the round they paid. */
  lemma LieMarks(past: seq<Event>, w: World, ev: Event, now: int)
    requires w == Replay(Genesis(0), past) && HostShare() in w.shares && RoundState(3, 2, 14400) in w.circles
    requires Anchors(w, Anchor(3))
    requires CollectedEarlier(w, Anchor(3), 2, 3) && ev.Resolve? && ev.id == HOST_SHARE && ev.outcome == Refund
    requires ShareStep(w, HostShare(), ev).Some? && ev.stated < 21600 && now >= 18000
    ensures CanBeMarked(Replay(Genesis(0), past + [ev]), 2, now, RoundOf(CIRCLE, 3), true)
  {
    hide Replay, ShareStep, CanBeMarked, CollectedEarlier, Anchors;
    var a := RefundMarks(0, past, RoundState(3, 2, 14400), HostShare(), ev, 2, now, true);
    AnchorsAnchor(w, a);
    AnchorsAnchor(w, Anchor(3));
    SameRound(w, a, Anchor(3));
  }

  /** Round three of this run filled: member 2, who collected round two, paid in like everyone else. A refund of the
      host's share at the fill deadline, stating its true time but committing no evidence, is accepted, and a view of
      the run marks member 2. */
  lemma NoEvidenceMarks()
    ensures var w := Replay(Genesis(0), Agreed() + [Tick(3600)]);
            RoundFilled(CycleOf(Anchor(3), w.shares), w.shares, 3) && 2 in LockedMembers(w.shares, RoundOf(CIRCLE, 3))
                && w.now == 18000
    ensures CanBeMarked(Replay(Genesis(0), Agreed() + [Tick(3600)] + [Resolve(HOST_SHARE, Refund, Some([]), 18000)]),
                        2, 18000, RoundOf(CIRCLE, 3), true)
  {
    hide Replay, ShareStep, CanBeMarked, CollectedEarlier, Anchors, Good, Structured, Agreed, RoundFilled;
    AgreedLater(3600);
    var past := Agreed() + [Tick(3600)];
    var w := Replay(Genesis(0), past);
    MemberTwoPaid(w);
    LiesPass(0, past, HostShare(), 18000);
    LieMarks(past, w, Resolve(HOST_SHARE, Refund, Some([]), 18000), 18000);
  }

  lemma MemberTwoPaid(w: World)
    requires w.shares == Others() + [HostShare()]
    ensures 2 in LockedMembers(w.shares, RoundOf(CIRCLE, 3))
  {
    assert w.shares[|Others()| - 1] == PaidIn(3, 2, 3, 14400, Some(14400));
  }

  /** The same refund once the payday has lapsed, committing true evidence but stating the time zero. */
  lemma FalseTimeMarks()
    ensures var w := Replay(Genesis(0), Agreed() + [Tick(7200 + COLLECT_WINDOW_SEC)]);
            && RoundFilled(CycleOf(Anchor(3), w.shares), w.shares, 3)
            && 2 in LockedMembers(w.shares, RoundOf(CIRCLE, 3))
            && CanBeMarked(Replay(Genesis(0), Agreed() + [Tick(7200 + COLLECT_WINDOW_SEC)]
                                              + [Resolve(HOST_SHARE, Refund,
                                                         Some(EvidenceOf(RoundOf(CIRCLE, 3), w.shares)), 0)]),
                           2, w.now, RoundOf(CIRCLE, 3), true)
  {
    hide Replay, ShareStep, CanBeMarked, CollectedEarlier, Anchors, Good, Structured, Agreed, RoundFilled, EvidenceOf;
    AgreedLater(7200 + COLLECT_WINDOW_SEC);
    var past := Agreed() + [Tick(7200 + COLLECT_WINDOW_SEC)];
    var w := Replay(Genesis(0), past);
    MemberTwoPaid(w);
    FewLockers(w);
    LiesPass(0, past, HostShare(), 0);
    LieMarks(past, w, Resolve(HOST_SHARE, Refund, Some(EvidenceOf(RoundOf(CIRCLE, 3), w.shares)), 0), w.now);
  }

  lemma FewLockers(w: World)
    requires w.shares == Others() + [HostShare()]
    ensures |EvidenceOf(RoundOf(CIRCLE, 3), w.shares)| <= MAX_EVIDENCE
  {
    hide EvidenceOf;
    var locked := LockedMembers(w.shares, RoundOf(CIRCLE, 3));
    DistinctCount(EvidenceOf(RoundOf(CIRCLE, 3), w.shares));
    assert locked <= {1, 2, 3};
    SubsetSize(locked, {1, 2, 3});
    assert |{1, 2, 3}| == 3;
  }
}
