/** When the watcher opens the next collection round, and what becomes of the attempt. */
module Opener {
  import opened Prelude
  import opened Circles
  import opened Rotation
  import opened Race
  import opened Gates
  import opened Writers
  import opened Chain
  import opened Finality
  import opened Protocol
  import opened Sweep

  /** The watcher takes a round as filled by counting the seats locked in its window. */
  predicate CountedFull(c: CircleState, rows: seq<SeatLock>)
  {
    c.terms.seatThreshold > 0 && SeatsLockedInWindow(c, rows) >= c.terms.seatThreshold
  }

  /** The moments at which the watcher tries: from the round's end, for as long as its run window lasted. */
  predicate OpenerClock(t: Terms, now: int)
  {
    t.roundEnd <= now < t.roundEnd + (t.roundEnd - t.fillDeadline)
  }

  predicate HasSuccessor(v: Context, id: Id)
  {
    || (exists c :: c in v.circles && c.terms.pot == RotationV2 && c.terms.prev == Some(id))
    || (exists e :: e in v.shares && e.circle.pot == RotationV2 && e.circle.prev == Some(id))
  }

  predicate Opens(w: World, c: CircleState, rows: seq<SeatLock>, enabled: bool)
  {
    enabled && c.terms.pot == RotationV2 && OpenerClock(c.terms, w.now) && CountedFull(c, rows)
        && !HasSuccessor(w.View(), c.id)
  }

  function OpensIn(w: World, rows: seq<SeatLock>, enabled: bool): CircleState -> Option<Id>
  {
    (c: CircleState) => if Opens(w, c, rows, enabled) then Some(c.id) else None
  }

  // ── The clock ──────────────────────────────────────────────────────────────

  function RunWindow(a: CircleState): int { Duration(a) - FillWindow(a) }

  predicate FillsAt(a: CircleState, r: int, now: int) { StartOf(a, r) <= now < DeadlineOf(a, r) }

  predicate TriesAt(a: CircleState, r: int, now: int)
  {
    EndOf(a, r) <= now < EndOf(a, r) + (EndOf(a, r) - DeadlineOf(a, r))
  }

  /** The attempts stop when the ended round's run window is over, while the successor accepts its opening
      during a fill window. The two agree exactly when the windows are equally long: with a longer run window
      the watcher goes on trying too late, with a longer fill window it gives up too early. */
  lemma OpenerWindow(a: CircleState, r: int)
    requires Lawful(a.terms, a.createdAt)
    ensures (forall t :: TriesAt(a, r, t) ==> FillsAt(a, r + 1, t)) <==> RunWindow(a) <= FillWindow(a)
    ensures (forall t :: FillsAt(a, r + 1, t) ==> TriesAt(a, r, t)) <==> FillWindow(a) <= RunWindow(a)
  {
    NextStart(a, r);
    var fillEnd, runEnd := StartOf(a, r + 1) + FillWindow(a), StartOf(a, r + 1) + RunWindow(a);
    if fillEnd < runEnd {
      assert TriesAt(a, r, fillEnd) && !FillsAt(a, r + 1, fillEnd);
    }
    if runEnd < fillEnd {
      assert FillsAt(a, r + 1, runEnd) && !TriesAt(a, r, runEnd);
    }
  }

  // ── The count ──────────────────────────────────────────────────────────────

  lemma OneSharePerMember(w: World, i: nat, j: nat)
    requires Structured(w) && i < |w.shares| && j < |w.shares|
    requires w.shares[i].parent == w.shares[j].parent && w.shares[i].buyer == w.shares[j].buyer
    ensures i == j
  {
    assert ShareFits(w.shares[i], w.circles, w.now) && ShareFits(w.shares[j], w.circles, w.now);
  }

  lemma {:induction false} LockersPrefixDistinct(w: World, c: CircleState, n: nat)
    requires Structured(w) && c in w.circles && n <= |w.shares|
    ensures Distinct(Lockers(c, w.shares[..n]))
  {
    if n > 0 {
      var s := w.shares[..n];
      assert s[..n - 1] == w.shares[..n - 1];
      LockersPrefixDistinct(w, c, n - 1);
      CollectMembers(LockerOf(c), w.shares[..n - 1]);
      if LockerOf(c)(s[n - 1]).Some? && s[n - 1].buyer in Lockers(c, w.shares[..n - 1]) {
        var i :| 0 <= i < n - 1 && LockerOf(c)(w.shares[i]) == Some(s[n - 1].buyer);
        OneSharePerMember(w, i, n - 1);
      }
    }
  }

  /** Each member who locked is counted once, whatever was claimed since. */
  lemma CountIsMembers(w: World, c: CircleState, claimed: set<Id>, policy: Policy)
    requires Structured(w) && c in w.circles && (policy == ShareV2 <==> RotationRound(c.terms))
    ensures SeatsLockedInWindow(c, Rows(w.shares, None, claimed)) == |NamesIn(LocksOf(policy, c.id, w.shares))|
  {
    hide Rows;
    FillIgnoresClaims(c, w.shares, claimed);
    LockersPrefixDistinct(w, c, |w.shares|);
    assert w.shares[..|w.shares|] == w.shares;
    DistinctCount(Lockers(c, w.shares));
    CollectMembers(LockerOf(c), w.shares);
    FindUnique(w.circles, c);
    forall m
      ensures m in Elements(Lockers(c, w.shares)) <==> m in NamesIn(LocksOf(policy, c.id, w.shares))
    {
      if m in Lockers(c, w.shares) {
        var e :| e in w.shares && LockerOf(c)(e) == Some(m);
        assert ShareFits(e, w.circles, w.now);
        assert Racer(m, e.lockedAt.value) in LocksOf(policy, c.id, w.shares);
      }
      if m in NamesIn(LocksOf(policy, c.id, w.shares)) {
        var x :| x in LocksOf(policy, c.id, w.shares) && x.member == m;
        var e :| e in w.shares && e.policy == policy && e.parent == c.id && e.lockedAt.Some?
            && Racer(e.buyer, e.lockedAt.value) == x;
        assert ShareFits(e, w.circles, w.now);
        assert LockerOf(c)(e) == Some(m);
      }
    }
    assert Elements(Lockers(c, w.shares)) == NamesIn(LocksOf(policy, c.id, w.shares));
  }

  ghost function NamesIn(racers: set<Racer>): set<Pubkey> { set x | x in racers :: x.member }

  /** The members whose shares of the circle are locked. */
  ghost function LockedIn(c: CircleState, shares: seq<ShareState>): set<Pubkey>
  {
    set e | e in shares && e.parent == c.id && e.lockedAt.Some? :: e.buyer
  }

  lemma CountIsLocked(w: World, c: CircleState, claimed: set<Id>)
    requires Structured(w) && c in w.circles
    ensures SeatsLockedInWindow(c, Rows(w.shares, None, claimed)) == |LockedIn(c, w.shares)|
    ensures c.terms.seatThreshold >= 2
  {
    hide Rows, SeatsLockedInWindow;
    var policy := if RotationRound(c.terms) then ShareV2 else ShareV1;
    CountIsMembers(w, c, claimed, policy);
    FindUnique(w.circles, c);
    assert CircleFits(c, w.circles, w.now);
    LawfulThreshold(c.terms, c.createdAt);
    forall m
      ensures m in NamesIn(LocksOf(policy, c.id, w.shares)) <==> m in LockedIn(c, w.shares)
    {
      if m in LockedIn(c, w.shares) {
        var e :| e in w.shares && e.parent == c.id && e.lockedAt.Some? && e.buyer == m;
        assert ShareFits(e, w.circles, w.now);
        assert Racer(m, e.lockedAt.value) in LocksOf(policy, c.id, w.shares);
      }
    }
    assert NamesIn(LocksOf(policy, c.id, w.shares)) == LockedIn(c, w.shares);
  }

  /** Circle c is a rotation that has ended, no longer ago than it ran, with enough members locked and nothing known
      that continues it. */
  ghost predicate Awaits(w: World, c: CircleState)
  {
    && c.terms.pot == RotationV2 && 0 <= w.now - c.terms.roundEnd < c.terms.roundEnd - c.terms.fillDeadline
    && |LockedIn(c, w.shares)| >= c.terms.seatThreshold
    && (forall d :: d in w.circles && d.terms.pot == RotationV2 ==> d.terms.prev != Some(c.id))
    && (forall e :: e in w.shares && e.circle.pot == RotationV2 ==> e.circle.prev != Some(c.id))
  }

  /** When the watcher tries: with openings enabled, on every round that awaits its successor and no other. */
  lemma TriesExactly(w: World, c: CircleState, claimed: set<Id>, enabled: bool)
    requires Structured(w) && c in w.circles
    ensures Opens(w, c, Rows(w.shares, None, claimed), enabled) <==> enabled && Awaits(w, c)
  {
    hide Rows, Structured;
    CountIsLocked(w, c, claimed);
  }

  /** A circle's status, read off the chain: it fills until its deadline, and then, by how many members locked, is due
      back at once, or runs to its end and is complete. */
  lemma StatusExactly(w: World, c: CircleState, claimed: set<Id>)
    requires Structured(w) && c in w.circles
    ensures var full := |LockedIn(c, w.shares)| >= c.terms.seatThreshold;
            && (StatusIn(w, c, claimed) == Filling <==> w.now < c.terms.fillDeadline)
            && (StatusIn(w, c, claimed) == RefundDue <==> w.now >= c.terms.fillDeadline && !full)
            && (StatusIn(w, c, claimed) == Running <==> c.terms.fillDeadline <= w.now < c.terms.roundEnd && full)
            && (StatusIn(w, c, claimed) == Complete
                <==> w.now >= c.terms.roundEnd && w.now >= c.terms.fillDeadline && full)
  {
    hide Rows, Structured;
    CountIsLocked(w, c, claimed);
  }

  /** What the sweep returns, read off the chain: the locked shares of a circle that fell short or ended, until they are
      claimed back; a released rotation share is not owed once it is claimed. */
  lemma OwedExactly(w: World, c: CircleState, claimed: set<Id>, id: Id)
    requires Structured(w) && c in w.circles
    ensures id in DueBack(c, Rows(w.shares, None, claimed), w.now)
            <==> && w.now >= c.terms.fillDeadline
                 && (|LockedIn(c, w.shares)| < c.terms.seatThreshold || w.now >= c.terms.roundEnd)
                 && exists e :: e in w.shares && e.id == id && e.parent == c.id && e.lockedAt.Some?
                                && !(&& id in claimed && e.resolved.Some?
                                     && (e.resolved.value.outcome == Refund || e.policy == ShareV2))
  {
    hide Rows, Structured, DueBack;
    StatusExactly(w, c, claimed);
    UniqueInWorld(w);
    DueBackIds(w, c, claimed, id);
  }

  lemma UniqueInWorld(w: World)
    requires Structured(w)
    ensures UniqueShares(w.shares)
  {
  }

  /** A share's row on the roster. */
  lemma StatusOnRoster(e: ShareState, claimed: set<Id>)
    ensures var settled := e.lockedAt.Some? && e.id in claimed && e.resolved.Some?;
            var o := if settled then e.resolved.value.outcome else Refund;
            var at := if settled then e.resolved.value.at else 0;
            && (StatusOf(e, claimed) == Reserved <==> e.lockedAt.None?)
            && (StatusOf(e, claimed) == Refunded <==> settled && o == Refund && at < e.circle.roundEnd)
            && (StatusOf(e, claimed) == Returned <==> settled && o == Refund && at >= e.circle.roundEnd)
            && (StatusOf(e, claimed) == Paid <==> settled && o == Release && e.policy == ShareV2)
  {
  }

  /** For a collection round the watcher's count and the gate's list of expected members say the same. */
  lemma CountMatchesGate(w: World, c: CircleState, a: CircleState, claimed: set<Id>)
    requires Good(w) && c in w.circles && RotationRound(c.terms) && AnchorOf(w.circles, c.id) == Some(a)
    requires c.id == RoundOf(a.id, c.terms.roundIndex)
    ensures CountedFull(c, Rows(w.shares, None, claimed))
        <==> RoundFilled(CycleOf(a, w.shares), w.shares, c.terms.roundIndex)
  {
    hide SealedOrder, Rows, Lawful, Collectors, RoundFilled;
    CountIsMembers(w, c, claimed, ShareV2);
    LockersByName(w.shares, c.id);
    DistinctCount(EvidenceOf(c.id, w.shares));
    FilledByCount(w, c, a);
  }

  lemma LockersByName(shares: seq<ShareState>, roundId: Id)
    ensures NamesIn(LocksOf(ShareV2, roundId, shares)) == LockedMembers(shares, roundId)
  {
    forall m
      ensures m in LockedMembers(shares, roundId) <==> m in NamesIn(LocksOf(ShareV2, roundId, shares))
    {
      if m in LockedMembers(shares, roundId) {
        var e :| e in shares && e.policy == ShareV2 && e.parent == roundId && e.lockedAt.Some? && e.buyer == m;
        assert Racer(m, e.lockedAt.value) in LocksOf(ShareV2, roundId, shares);
      }
    }
  }

  /** For round one the count is the size of the order, so the watcher's test and the seal agree except when two
      seats suffice and exactly two are locked: then it keeps trying to open a round no gate will admit. */
  lemma CountMatchesSeal(w: World, a: CircleState, claimed: set<Id>)
    requires Structured(w) && a in w.circles && CanAnchor(a, None)
    ensures (CountedFull(a, Rows(w.shares, None, claimed)) <==> Sealable(a, w.shares))
            <==> !(a.terms.seatThreshold == 2 == |SealedOrder(a, w.shares)|)
  {
    hide Rows;
    CountIsMembers(w, a, claimed, ShareV1);
    WorldSharesAreLawful(w);
    SeatedRacers(a.id, w.shares);
    var racers := Collect(SeatedIn(a.id), CommitmentSeats(a.id, w.shares));
    OrderSpec(a.creator, racers);
    DistinctCount(SealedOrder(a, w.shares));
    assert Members(racers) == NamesIn(Elements(racers));
  }
}
