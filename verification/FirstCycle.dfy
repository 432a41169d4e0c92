/** Small runs from an empty chain: a rotation that gets going, and a commitment of two that never can. */
module FirstCycle {
  import opened Prelude
  import opened Circles
  import opened Rotation
  import opened Race
  import opened Gates
  import opened Writers
  import opened Chain
  import opened Finality
  import opened Protocol
  import opened Sweep
  import opened Opener
  import opened Cycles

  const HOST: Pubkey := 1
  const POOL: seq<Pubkey> := [8, 9]
  const CIRCLE := Plain(0)

  /** Round one of a rotation for `n` seats or more: an hour to fill, two hours in all. */
  function TermsFor(n: int): Terms { Terms(1000, n, None, false, 3600, 7200, 1, None, RotationV2) }

  function Anchor(n: int): CircleState { CircleState(CIRCLE, HOST, None, "mint", None, None, POOL, [], 0, TermsFor(n)) }

  function Opening(n: int): Event
  {
    OpenCircle(CIRCLE, HOST, CirclePayload(TermsFor(n), None, "mint", None, None, POOL, [], 7200, 0), false)
  }

  function Join(seller: Pubkey, now: int): SharePayload
  {
    SharePayload(ShareV1, CIRCLE, seller, 1000, "mint", None, None, None, POOL, [], 7200 - now, now, 0, 0)
  }

  function SeatId(m: Pubkey): Id { ShareOf(CIRCLE, m, 1) }

  function SeatOf(n: int, m: Pubkey, seller: Pubkey, at: int, lockedAt: Option<int>): ShareState
  {
    ShareState(SeatId(m), ShareV1, CIRCLE, m, seller, TermsFor(n), at, lockedAt, None, None, None, None)
  }

  // ── Runs, step by step ─────────────────────────────────────────────────────

  lemma ThenStep(past: seq<Event>, ev: Event)
    ensures Replay(Genesis(0), past + [ev]) == Step(Replay(Genesis(0), past), ev)
  {
    assert (past + [ev])[..|past|] == past;
  }

  lemma TermsAreLawful(n: int)
    requires 2 <= n <= 3
    ensures Lawful(TermsFor(n), 0) && CanAnchor(Anchor(n), None)
  {
  }

  lemma CircleOpens(n: int)
    requires 2 <= n <= 3
    ensures Replay(Genesis(0), [Opening(n)]) == World(0, [Anchor(n)], [])
  {
    hide Lawful;
    TermsAreLawful(n);
    ThenStep([], Opening(n));
    assert [] + [Opening(n)] == [Opening(n)];
    NothingHappened();
  }

  lemma NothingHappened()
    ensures Replay(Genesis(0), []) == Genesis(0)
  {
  }

  lemma OnlyOneCircle(circles: seq<CircleState>, n: int, id: Id)
    requires circles == [Anchor(n)] && id != CIRCLE
    ensures FindCircle(circles, id) == None
  {
    assert circles[0].id == CIRCLE;
    assert FindCircle(circles[1..], id) == None;
  }

  lemma NotTakenYet(w: World, n: int, m: Pubkey)
    requires w.circles == [Anchor(n)] && forall e :: e in w.shares ==> e.id != SeatId(m)
    ensures !Taken(w, SeatId(m))
  {
    OnlyOneCircle(w.circles, n, SeatId(m));
    NoSuchShare(w.shares, SeatId(m));
  }

  lemma NoSuchShare(shares: seq<ShareState>, id: Id)
    requires forall e :: e in shares ==> e.id != id
    ensures FindShare(shares, id) == None
  {
    forall k | 0 <= k < |shares|
      ensures shares[k].id != id
    {
      assert shares[k] in shares;
    }
  }

  lemma MemberJoins(w: World, n: int, m: Pubkey, seller: Pubkey)
    requires 2 <= n <= 3 && w.circles == [Anchor(n)] && 0 <= w.now < 3600 && !Taken(w, SeatId(m)) && m != seller
    requires m !in POOL && seller !in POOL
    requires seller == HOST || FindShare(w.shares, SeatId(seller)) == Some(SeatOf(n, seller, HOST, 0, Some(0)))
    ensures Step(w, TakeSeat(SeatId(m), m, Join(seller, w.now)))
        == w.(shares := w.shares + [SeatOf(n, m, seller, w.now, None)])
  {
    TermsAreLawful(n);
    hide Lawful;
    assert FindCircle(w.circles, CIRCLE) == Some(Anchor(n));
    assert 8 in POOL;
    assert WitnessError(Join(seller, w.now), Anchor(n), w.now, WitnessOf(w, Join(seller, w.now), Some(Anchor(n))))
        == None;
  }

  /** The last share listed locks, takes a vote or is resolved. */
  lemma LastMoves(w: World, before: seq<ShareState>, e: ShareState, ev: Event)
    requires w.shares == before + [e] && (ev.LockShare? || ev.CastVote? || ev.Resolve?) && ev.id == e.id
    requires ShareStep(w, e, ev).Some?
    requires forall f :: f in before ==> f.id != e.id
    ensures Step(w, ev) == w.(shares := before + [ShareStep(w, e, ev).value])
  {
    hide OutcomeError;
    forall k | 0 <= k < |before|
      ensures w.shares[k].id != e.id
    {
      assert before[k] in before;
    }
    assert w.shares[|before|].id == e.id;
    assert ShareIndex(w.shares, e.id) == |before|;
  }

  /** Joining and locking in one go. */
  lemma MemberCommits(past: seq<Event>, w: World, n: int, m: Pubkey, seller: Pubkey)
    requires 2 <= n <= 3 && Replay(Genesis(0), past) == w
    requires w.circles == [Anchor(n)] && w.now == 0 && m != seller && m !in POOL && seller !in POOL
    requires forall e :: e in w.shares ==> e.id != SeatId(m)
    requires seller == HOST || FindShare(w.shares, SeatId(seller)) == Some(SeatOf(n, seller, HOST, 0, Some(0)))
    ensures Replay(Genesis(0), past + [TakeSeat(SeatId(m), m, Join(seller, 0))] + [LockShare(SeatId(m))])
         == w.(shares := w.shares + [SeatOf(n, m, seller, 0, Some(0))])
  {
    hide Step, Replay;
    var take := TakeSeat(SeatId(m), m, Join(seller, 0));
    ThenStep(past, take);
    ThenStep(past + [take], LockShare(SeatId(m)));
    NotTakenYet(w, n, m);
    MemberJoins(w, n, m, seller);
    LastMoves(w.(shares := w.shares + [SeatOf(n, m, seller, 0, None)]), w.shares, SeatOf(n, m, seller, 0, None),
              LockShare(SeatId(m)));
  }

  // ── Three members commit ───────────────────────────────────────────────────

  /** Two members commit, with the host as witness. */
  function TwoCommit(n: int): seq<Event>
  {
    [Opening(n)]
    + [TakeSeat(SeatId(2), 2, Join(HOST, 0))] + [LockShare(SeatId(2))]
    + [TakeSeat(SeatId(3), 3, Join(HOST, 0))] + [LockShare(SeatId(3))]
  }

  function Pair(n: int): seq<ShareState> { [SeatOf(n, 2, HOST, 0, Some(0)), SeatOf(n, 3, HOST, 0, Some(0))] }

  lemma TwoCommitted(n: int)
    requires 2 <= n <= 3
    ensures Replay(Genesis(0), TwoCommit(n)) == World(0, [Anchor(n)], Pair(n))
  {
    hide Replay, Step;
    CircleOpens(n);
    var w1 := World(0, [Anchor(n)], []);
    MemberCommits([Opening(n)], w1, n, 2, HOST);
    var w2 := w1.(shares := [SeatOf(n, 2, HOST, 0, Some(0))]);
    assert w1.shares + w2.shares == w2.shares;
    MemberCommits([Opening(n)] + [TakeSeat(SeatId(2), 2, Join(HOST, 0))] + [LockShare(SeatId(2))], w2, n, 3, HOST);
    assert w2.shares + [SeatOf(n, 3, HOST, 0, Some(0))] == Pair(n);
  }

  /** Then the host commits, with a member as witness, and the round runs out. */
  function Story(): seq<Event>
  {
    TwoCommit(3) + [TakeSeat(SeatId(HOST), HOST, Join(2, 0))] + [LockShare(SeatId(HOST))] + [Tick(7200)]
  }

  function Committed(): seq<ShareState> { Pair(3) + [SeatOf(3, HOST, 2, 0, Some(0))] }

  lemma StoryUnfolds()
    ensures Replay(Genesis(0), Story()) == World(7200, [Anchor(3)], Committed())
  {
    hide Replay, Step;
    TwoCommitted(3);
    MemberCommits(TwoCommit(3), World(0, [Anchor(3)], Pair(3)), 3, HOST, 2);
    var past := TwoCommit(3) + [TakeSeat(SeatId(HOST), HOST, Join(2, 0))] + [LockShare(SeatId(HOST))];
    ThenStep(past, Tick(7200));
    TimePasses(World(0, [Anchor(3)], Committed()), 7200);
  }

  lemma TimePasses(w: World, seconds: nat)
    ensures Step(w, Tick(seconds)) == w.(now := w.now + seconds)
  {
  }

  // ── The sealed order ───────────────────────────────────────────────────────

  /** The members of a list of racers who all locked at once. */
  lemma MembersAtOnce(racers: seq<Racer>, members: set<Pubkey>, at: int)
    requires Elements(racers) == set m | m in members :: Racer(m, at)
    ensures Members(racers) == members
  {
    forall m
      ensures m in Members(racers) <==> m in members
    {
      if m in Members(racers) {
        var x :| x in racers && x.member == m;
        assert x in Elements(racers);
      }
      if m in members {
        assert Racer(m, at) in Elements(racers);
      }
    }
  }

  /** Whoever committed, all at the start, is sealed. */
  lemma SealedAtOnce(w: World, n: int, members: set<Pubkey>)
    requires Structured(w) && LocksOf(ShareV1, CIRCLE, w.shares) == set m | m in members :: Racer(m, 0)
    ensures var o := SealedOrder(Anchor(n), w.shares);
            Distinct(o) && Elements(o) == members && |o| == |members|
  {
    hide CommitmentSeats, OrderOf, LocksOf, Collect, Structured;
    var racers := Collect(SeatedIn(CIRCLE), CommitmentSeats(CIRCLE, w.shares));
    WorldSharesAreLawful(w);
    SeatedRacers(CIRCLE, w.shares);
    OrderSpec(HOST, racers);
    MembersAtOnce(racers, members, 0);
    DistinctCount(SealedOrder(Anchor(n), w.shares));
  }

  ghost function Buyers(shares: seq<ShareState>): set<Pubkey> { set e | e in shares :: e.buyer }

  /** The locks of the commitment round, whatever collection shares follow. */
  lemma CommitmentLocksAre(first: seq<ShareState>, later: seq<ShareState>, members: set<Pubkey>)
    requires forall e :: e in first ==> e.policy == ShareV1 && e.parent == CIRCLE && e.lockedAt == Some(0)
    requires forall e :: e in later ==> e.policy == ShareV2
    requires members == Buyers(first)
    ensures LocksOf(ShareV1, CIRCLE, first + later) == set m | m in members :: Racer(m, 0)
  {
    var s := first + later;
    forall x
      ensures x in LocksOf(ShareV1, CIRCLE, s) <==> x in (set m | m in members :: Racer(m, 0))
    {
      if x in LocksOf(ShareV1, CIRCLE, s) {
        var e :| e in s && e.policy == ShareV1 && e.parent == CIRCLE && e.lockedAt.Some?
            && x == Racer(e.buyer, e.lockedAt.value);
        assert e in first;
      }
      if m :| m in members && x == Racer(m, 0) {
        var e :| e in first && e.buyer == m;
        assert e in s;
      }
    }
  }

  lemma WhoCommitted(n: int)
    ensures Buyers(Pair(n)) == {2, 3} && Buyers(Committed()) == {1, 2, 3}
  {
    assert Pair(n)[0] in Pair(n) && Pair(n)[1] in Pair(n);
    assert Committed()[0] in Committed() && Committed()[1] in Committed() && Committed()[2] in Committed();
  }

  /** The three are sealed, whatever happens in the collection rounds. */
  lemma ThreeAreSealed(w: World, later: seq<ShareState>)
    requires Structured(w) && w.shares == Committed() + later && forall e :: e in later ==> e.policy == ShareV2
    ensures var o := SealedOrder(Anchor(3), w.shares);
            Distinct(o) && Elements(o) == {1, 2, 3} && |o| == 3
  {
    hide Structured, SealedOrder, LocksOf;
    WhoCommitted(3);
    CommitmentLocksAre(Committed(), later, {1, 2, 3});
    SealedAtOnce(w, 3, {1, 2, 3});
    assert |{1, 2, 3}| == 3;
  }

  // ── The rotation gets going ────────────────────────────────────────────────

  /** The payload of collection round k of this rotation, published at `now`. */
  function NextPayload(k: int, now: int): CirclePayload
  {
    CirclePayload(Terms(1000, 2, Some(2), true, k * 7200 - 3600, k * 7200, k,
                        Some(if k == 2 then CIRCLE else RoundOf(CIRCLE, k - 1)),
                        RotationV2),
                  None, "mint", None, None, POOL, [], k * 7200 - now, now)
  }

  function OpenRound(k: int, who: Pubkey, now: int): Event
  {
    OpenCircle(RoundOf(CIRCLE, k), who, NextPayload(k, now), false)
  }

  function RoundState(k: int, who: Pubkey, now: int): CircleState
  {
    CircleState(RoundOf(CIRCLE, k), who, None, "mint", None, None, POOL, [], now, NextPayload(k, now).terms)
  }

  /** Once round r filled, or was committed to, any member opens the next. */
  lemma NextOpens(past: seq<Event>, w: World, later: seq<ShareState>, c: CircleState, r: int, who: Pubkey)
    requires w == Replay(Genesis(0), past) && Anchor(3) in w.circles && c in w.circles && RoundOfCycle(c, Anchor(3), r)
    requires 1 <= r <= 3
    requires w.shares == Committed() + later && (forall e :: e in later ==> e.policy == ShareV2) && who in {1, 2, 3}
    requires r * 7200 <= w.now < r * 7200 + 3600 && !Taken(w, RoundOf(CIRCLE, r + 1))
    requires r >= 2 ==> RoundFilled(CycleOf(Anchor(3), w.shares), w.shares, r)
    ensures Replay(Genesis(0), past + [OpenRound(r + 1, who, w.now)])
        == w.(circles := w.circles + [RoundState(r + 1, who, w.now)])
  {
    hide Replay, Good, Structured, Chained, SealedOrder, NextRoundOf, Resolved, HoldsCycle;
    hide RoundFilled, Committed, Step;
    var a, v := Anchor(3), Resolved(w.View(), c.id);
    EveryRunIsChained(0, past);
    TermsAreLawful(3);
    assert Anchors(w, a);
    ThreeAreSealed(w, later);
    assert who in Elements(SealedOrder(a, w.shares));
    DerivedFromResolved(w, c, a, r);
    ResolvedHoldsCycle(w, c, a, r);
    LastRoundIs(w, c, a, r, v);
    PayloadIs(r + 1, SealedOrder(a, w.shares), w.now);
    NextRoundOpens(0, past, a, v, r, who, false);
    ThenStep(past, OpenRound(r + 1, who, w.now));
  }

  lemma PayloadIs(k: int, order: seq<Pubkey>, now: int)
    requires |order| == 3 && 2 <= k <= 4 && (k - 1) * 7200 <= now < k * 7200 - 3600
    ensures var s := Sealed(Anchor(3), order);
            RoundPayload(s, Anchor(3), k, now) == NextPayload(k, now) && Representable(s, k)
                && FillsAt(Anchor(3), k, now)
  {
  }

  /** The first collection round opens: nothing the gates demand is out of reach. */
  lemma FirstCollectionRoundOpens()
    ensures Replay(Genesis(0), Story() + [OpenRound(2, 2, 7200)])
        == World(7200, [Anchor(3), RoundState(2, 2, 7200)], Committed())
  {
    hide Replay, Committed;
    StoryUnfolds();
    var w := World(7200, [Anchor(3)], Committed());
    assert w.circles[0] == Anchor(3);
    OnlyOneCircle(w.circles, 3, RoundOf(CIRCLE, 2));
    RoundIdsAreFree(2);
    assert w.shares == Committed() + [];
    NextOpens(Story(), w, [], Anchor(3), 1, 2);
  }

  lemma RoundIdsAreFree(k: int)
    ensures FindShare(Committed(), RoundOf(CIRCLE, k)) == None
  {
    NoSuchShare(Committed(), RoundOf(CIRCLE, k));
  }

  // ── Two are not enough ─────────────────────────────────────────────────────

  /** With a threshold of two and two members locked, the watcher takes the ended round as full and tries to open
      the first collection round, and the attempt comes to nothing, whoever makes it. */
  lemma TwoAreNotEnough(who: Pubkey, sim: bool)
    ensures var w := Replay(Genesis(0), TwoCommit(2) + [Tick(7200)]);
            && w == World(7200, [Anchor(2)], Pair(2))
            && Opens(w, Anchor(2), Rows(w.shares, None, {}), true)
            && Attempt(w, Anchor(2), who, sim) == w
  {
    hide Replay, Good, Structured, Chained, SealedOrder, Rows, Resolved, NextRoundOf, Pair, CountedFull;
    var past, a := TwoCommit(2) + [Tick(7200)], Anchor(2);
    var w := World(7200, [a], Pair(2));
    TwoCommitted(2);
    ThenStep(TwoCommit(2), Tick(7200));
    TimePasses(World(0, [a], Pair(2)), 7200);
    EveryRunIsChained(0, past);
    TermsAreLawful(2);
    assert w.circles[0] == a;
    TwoAreSealed(w);
    CountMatchesSeal(w, a, {});
    NoSuccessorYet(w);
    DerivedFromResolved(w, a, a, 1);
  }

  lemma TwoAreSealed(w: World)
    requires Structured(w) && w.shares == Pair(2)
    ensures |SealedOrder(Anchor(2), w.shares)| == 2
  {
    hide Structured, SealedOrder, LocksOf;
    WhoCommitted(2);
    assert Pair(2) + [] == Pair(2);
    CommitmentLocksAre(Pair(2), [], {2, 3});
    SealedAtOnce(w, 2, {2, 3});
    assert |{2, 3}| == 2;
  }

  lemma NoSuccessorYet(w: World)
    requires w.circles == [Anchor(2)] && w.shares == Pair(2)
    ensures !HasSuccessor(w.View(), CIRCLE)
  {
  }
}
