/** The rest of the watcher: circle status, returning the shares that are due back, opening the next round. */
module Sweep {
  import opened Prelude
  import opened Circles
  import opened Rotation
  import opened Race
  import opened Gates
  import opened Writers
  import opened Chain
  import opened Finality
  import opened Protocol
  import opened Watcher

  // ── The rows a circle is judged by ─────────────────────────────────────────

  /** Only a completed claim takes a locked share off the rows that are still owed. */
  function StatusOf(e: ShareState, claimed: set<Id>): SeatStatus
  {
    if e.lockedAt.None? then Reserved
    else if e.id !in claimed || e.resolved.None? then Locked
    else if e.resolved.value.outcome == Release then (if e.policy == ShareV2 then Paid else Locked)
    else if e.resolved.value.at < e.circle.roundEnd then Refunded
    else Returned
  }

  function RowOf(e: ShareState, claimed: set<Id>): SeatLock
  {
    SeatLock(e.parent, e.buyer, if e.lockedAt.Some? then Some(e.id) else None, e.lockedAt, StatusOf(e, claimed))
  }

  predicate Wanted(e: ShareState, only: Option<Id>) { only.None? || e.parent == only.value }

  function Rows(shares: seq<ShareState>, only: Option<Id>, claimed: set<Id>): seq<SeatLock>
  {
    if shares == [] then []
    else
      var n := |shares| - 1;
      var e := shares[n];
      Rows(shares[..n], only, claimed)
      + (if Wanted(e, only) && (forall i :: 0 <= i < n && Wanted(shares[i], only) ==> shares[i].id != e.id)
         then [RowOf(e, claimed)] else [])
  }

  /** Share i is wanted, and no wanted share before it has its id. */
  ghost predicate FirstWanted(shares: seq<ShareState>, only: Option<Id>, i: int)
    requires 0 <= i < |shares|
  {
    && (only.Some? ==> shares[i].parent == only.value)
    && forall j :: 0 <= j < i && (only.Some? ==> shares[j].parent == only.value) ==> shares[j].id != shares[i].id
  }

  /** The rows are those of the circle asked for, or of all of them, each escrow in its first listed state. */
  lemma {:induction false} RowsAreFirstStates(shares: seq<ShareState>, only: Option<Id>, claimed: set<Id>)
    ensures forall l :: l in Rows(shares, only, claimed)
              <==> exists i :: 0 <= i < |shares| && FirstWanted(shares, only, i) && l == RowOf(shares[i], claimed)
  {
    if shares != [] {
      hide RowOf;
      var n := |shares| - 1;
      RowsAreFirstStates(shares[..n], only, claimed);
      forall i | 0 <= i < n
        ensures FirstWanted(shares[..n], only, i) <==> FirstWanted(shares, only, i)
      {
        assert shares[..n][i] == shares[i];
      }
    }
  }

  method SharesForCircle(shares: seq<ShareState>, only: Option<Id>, claimed: set<Id>) returns (result: seq<SeatLock>)
    ensures result == Rows(shares, only, claimed)
  {
    var seen: set<Id> := {};
    result := [];
    for k := 0 to |shares|
      invariant seen == set i | 0 <= i < k && Wanted(shares[i], only) :: shares[i].id
      invariant result == Rows(shares[..k], only, claimed)
    {
      var e := shares[k];
      assert shares[..k + 1][..k] == shares[..k];
      if Wanted(e, only) && e.id !in seen {
        seen := seen + {e.id};
        result := result + [RowOf(e, claimed)];
      }
    }
    assert shares[..|shares|] == shares;
  }

  function InWindow(c: CircleState): SeatLock -> Option<Pubkey>
  {
    (l: SeatLock) =>
      if l.circleId == c.id && l.lockedAt.Some? && l.lockedAt.value < c.terms.fillDeadline then Some(l.member) else None
  }

  function SeatsLockedInWindow(c: CircleState, rows: seq<SeatLock>): nat { |Collect(InWindow(c), rows)| }

  datatype CircleStatus = Filling | RefundDue | Running | Complete

  function StatusAt(c: CircleState, rows: seq<SeatLock>, now: int): CircleStatus
  {
    if now < c.terms.fillDeadline then Filling
    else if SeatsLockedInWindow(c, rows) < c.terms.seatThreshold then RefundDue
    else if now < c.terms.roundEnd then Running
    else Complete
  }

  function OwedIn(c: CircleState): SeatLock -> Option<Id>
  {
    (l: SeatLock) => if l.circleId == c.id && l.status == Locked then l.escrowId else None
  }

  /** The locked escrows of a circle that fell short or ended: what the sweep has to return. */
  function DueBack(c: CircleState, rows: seq<SeatLock>, now: int): seq<Id>
  {
    var status := StatusAt(c, rows, now);
    if status == RefundDue || status == Complete then Collect(OwedIn(c), rows) else []
  }

  // ── The latch ──────────────────────────────────────────────────────────────

  function LockerOf(c: CircleState): ShareState -> Option<Pubkey>
  {
    (e: ShareState) =>
      if e.parent == c.id && e.lockedAt.Some? && e.lockedAt.value < c.terms.fillDeadline then Some(e.buyer) else None
  }

  /** Who locked inside the fill window, straight from the shares. */
  function Lockers(c: CircleState, shares: seq<ShareState>): seq<Pubkey> { Collect(LockerOf(c), shares) }

  /** The fill is counted from locks alone: what was claimed or returned since does not enter it. */
  lemma {:induction false} FillIgnoresClaims(c: CircleState, shares: seq<ShareState>, claimed: set<Id>)
    requires UniqueShares(shares)
    ensures Collect(InWindow(c), Rows(shares, None, claimed)) == Lockers(c, shares)
  {
    if shares != [] {
      var n := |shares| - 1;
      FillIgnoresClaims(c, shares[..n], claimed);
      assert Wanted(shares[n], None);
      var rows := Rows(shares, None, claimed);
      assert rows[..|rows| - 1] == Rows(shares[..n], None, claimed);
    }
  }

  lemma {:induction false} SameLockers(c: CircleState, u: seq<ShareState>, v: seq<ShareState>)
    requires |u| <= |v|
    requires forall i :: 0 <= i < |u| ==> LockerOf(c)(u[i]) == LockerOf(c)(v[i])
    requires forall i :: |u| <= i < |v| ==> LockerOf(c)(v[i]) == None
    ensures Lockers(c, u) == Lockers(c, v)
  {
    if v != [] {
      var n := |v| - 1;
      SameLockers(c, if |u| == |v| then u[..n] else u, v[..n]);
    }
  }

  /** Past the fill deadline the lockers of a circle are settled. */
  lemma LockersSettle(v: World, w: World, c: CircleState)
    requires Grew(v, w) && Structured(w) && c in w.circles && v.now >= c.terms.fillDeadline
    ensures Lockers(c, v.shares) == Lockers(c, w.shares)
  {
    FindUnique(w.circles, c);
    forall i | 0 <= i < |w.shares|
      ensures i < |v.shares| ==> LockerOf(c)(v.shares[i]) == LockerOf(c)(w.shares[i])
      ensures i >= |v.shares| ==> LockerOf(c)(w.shares[i]) == None
    {
      assert ShareFits(w.shares[i], w.circles, w.now);
      if i < |v.shares| {
        assert SameSeat(v.shares[i], w.shares[i]);
      }
    }
    SameLockers(c, v.shares, w.shares);
  }

  function StatusIn(w: World, c: CircleState, claimed: set<Id>): CircleStatus
  {
    StatusAt(c, Rows(w.shares, None, claimed), w.now)
  }

  /** Whether a circle filled is settled once: in every run a circle that ran never becomes refund-due, one that fell
      short never runs, and no claim or early exit changes which. */
  lemma FillIsLatched(start: int, past: seq<Event>, future: seq<Event>, c: CircleState, claimed: set<Id>,
                      later: set<Id>)
    requires c in Replay(Genesis(start), past).circles
    ensures var w := Replay(Genesis(start), past);
            var s, t := StatusIn(w, c, claimed), StatusIn(Replay(w, future), c, later);
            && (s == RefundDue ==> t == RefundDue) && (s == Complete ==> t == Complete)
            && (s == Running ==> t == Running || t == Complete)
  {
    hide Replay, Good, Rows, Lockers;
    var w := Replay(Genesis(start), past);
    var x := Replay(w, future);
    EveryRunIsGood(start, past);
    ReplayKeepsGood(w, future);
    ReplayGrows(w, future);
    GoodIsStructured(w);
    GoodIsStructured(x);
    FillIgnoresClaims(c, w.shares, claimed);
    FillIgnoresClaims(c, x.shares, later);
    if w.now >= c.terms.fillDeadline {
      LockersSettle(w, x, c);
    }
  }

  // ── Returning shares ───────────────────────────────────────────────────────

  function SweepBallot(w: World, me: Pubkey, net: Net, id: Id): Option<Ballot>
  {
    var e := FindShare(w.shares, id);
    if e.None? || !CanVote(e.value, me) || !Lands(w, e.value, MySeat(e.value, me).value, Refund, net) then None
    else Some(Ballot(id, MySeat(e.value, me).value, Refund))
  }

  function SweepIds(w: World, me: Pubkey, net: Net, ids: seq<Id>): Pass
  {
    if ids == [] then Pass(w, [])
    else
      var n := |ids| - 1;
      var before := SweepIds(w, me, net, ids[..n]);
      var b := SweepBallot(before.world, me, net, ids[n]);
      if b.None? then before else Pass(AfterBallot(before.world, b.value), before.ballots + [b.value])
  }

  /** Rotation collection rounds belong to the rotation pass; a thin view waits for the round's end. */
  predicate Swept(c: CircleState, net: Net, now: int)
  {
    (c.id in net.complete || now >= c.terms.roundEnd) && !RotationRound(c.terms)
  }

  function SweepCircles(w: World, me: Pubkey, net: Net, rows: seq<SeatLock>, circles: seq<CircleState>): Pass
  {
    if circles == [] then Pass(w, [])
    else
      var n := |circles| - 1;
      var before := SweepCircles(w, me, net, rows, circles[..n]);
      if !Swept(circles[n], net, w.now) then before
      else
        var here := SweepIds(before.world, me, net, DueBack(circles[n], rows, w.now));
        Pass(here.world, before.ballots + here.ballots)
  }

  /** Voting again on nothing: whoever cannot vote now cannot vote after more votes have landed. */
  lemma CannotVoteStays(v: World, w: World, b: Ballot, me: Pubkey, i: nat)
    requires w == AfterBallot(v, b) && i < |v.shares| && !CanVote(v.shares[i], me)
    ensures i < |w.shares| && !CanVote(w.shares[i], me)
  {
  }

  /** The client may vote on the share, and a refund on it can be published. */
  predicate Publishable(e: ShareState, me: Pubkey, net: Net)
  {
    CanVote(e, me) && Ballot(e.id, MySeat(e, me).value, Refund) !in net.lost
  }

  lemma SweepBallotLands(w: World, me: Pubkey, net: Net, id: Id, i: nat)
    requires i < |w.shares| && w.shares[i].id == id && UniqueShares(w.shares) && w.shares[i].policy == ShareV1
    ensures SweepBallot(w, me, net, id).Some? <==> Publishable(w.shares[i], me, net)
    ensures SweepBallot(w, me, net, id).Some? ==>
        !CanVote(AfterBallot(w, SweepBallot(w, me, net, id).value).shares[i], me)
  {
    assert ShareIndex(w.shares, id) == i;
  }

  /** A refund vote on a share named in the list, from a seat this client holds. */
  ghost predicate SweptOn(w: World, me: Pubkey, b: Ballot, ids: seq<Id>)
  {
    b.outcome == Refund && b.id in ids && exists i: nat :: SeatAt(w, me, b, i)
  }

  predicate SeatAt(w: World, me: Pubkey, b: Ballot, i: nat)
  {
    i < |w.shares| && w.shares[i].id == b.id && MySeat(w.shares[i], me) == Some(b.seat)
  }

  lemma SweptOnMore(w: World, me: Pubkey, b: Ballot, ids: seq<Id>, more: seq<Id>)
    requires SweptOn(w, me, b, ids) && forall id :: id in ids ==> id in more
    ensures SweptOn(w, me, b, more)
  {
  }

  lemma SweepBallotSound(v: World, w: World, me: Pubkey, net: Net, id: Id)
    requires OnlyVotesDiffer(v, w) && SweepBallot(w, me, net, id).Some?
    ensures SweptOn(v, me, SweepBallot(w, me, net, id).value, [id])
  {
    var i := ShareIndex(w.shares, id);
    assert SansVotes(v.shares[i]) == SansVotes(w.shares[i]);
    assert SeatAt(v, me, SweepBallot(w, me, net, id).value, i);
  }

  lemma OnlyVotesDifferTransitive(u: World, v: World, w: World)
    requires OnlyVotesDiffer(u, v) && OnlyVotesDiffer(v, w)
    ensures OnlyVotesDiffer(u, w)
  {
  }

  ghost predicate IdsSwept(w: World, me: Pubkey, net: Net, ids: seq<Id>, p: Pass)
  {
    && OnlyVotesDiffer(w, p.world) && UniqueShares(p.world.shares)
    && (forall j :: 0 <= j < |p.ballots| ==> SweptOn(w, me, p.ballots[j], ids))
    && (forall i :: 0 <= i < |w.shares| && !CanVote(w.shares[i], me) ==> !CanVote(p.world.shares[i], me))
    && (forall i :: 0 <= i < |w.shares| && w.shares[i].id in ids && w.shares[i].policy == ShareV1 ==>
        !Publishable(p.world.shares[i], me, net))
  }

  /** Only what the list names is voted on, and afterwards no fill-or-refund share it names still waits for
      this client's vote. */
  lemma {:induction false} SweepIdsSettle(w: World, me: Pubkey, net: Net, ids: seq<Id>)
    requires UniqueShares(w.shares)
    ensures IdsSwept(w, me, net, ids, SweepIds(w, me, net, ids))
  {
    if ids == [] {
      NothingSwept(w, me, net);
    } else {
      hide IdsSwept, AfterBallot, SweepBallot, UniqueShares;
      var n := |ids| - 1;
      SweepIdsSettle(w, me, net, ids[..n]);
      var before := SweepIds(w, me, net, ids[..n]);
      var b := SweepBallot(before.world, me, net, ids[n]);
      assert ids == ids[..n] + [ids[n]];
      if b.Some? {
        OneMoreId(w, me, net, ids[..n], ids[n], before);
      } else {
        NothingToVote(w, me, net, ids[..n], ids[n], before);
      }
    }
  }

  lemma NothingSwept(w: World, me: Pubkey, net: Net)
    requires UniqueShares(w.shares)
    ensures IdsSwept(w, me, net, [], Pass(w, []))
  {
    hide CanVote;
  }

  lemma NothingToVote(w: World, me: Pubkey, net: Net, ids: seq<Id>, id: Id, before: Pass)
    requires IdsSwept(w, me, net, ids, before) && SweepBallot(before.world, me, net, id).None?
    ensures IdsSwept(w, me, net, ids + [id], before)
  {
    hide CanVote, AfterBallot, SweepBallot, SweptOn;
    forall j | 0 <= j < |before.ballots|
      ensures SweptOn(w, me, before.ballots[j], ids + [id])
    {
      SweptOnMore(w, me, before.ballots[j], ids, ids + [id]);
    }
    forall i | 0 <= i < |w.shares| && w.shares[i].id == id && w.shares[i].policy == ShareV1
      ensures !Publishable(before.world.shares[i], me, net)
    {
      assert SansVotes(w.shares[i]) == SansVotes(before.world.shares[i]);
      SweepBallotLands(before.world, me, net, id, i);
    }
  }

  lemma OneMoreId(w: World, me: Pubkey, net: Net, ids: seq<Id>, id: Id, before: Pass)
    requires UniqueShares(w.shares) && IdsSwept(w, me, net, ids, before) && SweepBallot(before.world, me, net, id).Some?
    ensures var b := SweepBallot(before.world, me, net, id).value;
            IdsSwept(w, me, net, ids + [id], Pass(AfterBallot(before.world, b), before.ballots + [b]))
  {
    hide CanVote, AfterBallot, SweepBallot, SweptOn;
    var b := SweepBallot(before.world, me, net, id).value;
    forall j | 0 <= j < |before.ballots|
      ensures SweptOn(w, me, before.ballots[j], ids + [id])
    {
      SweptOnMore(w, me, before.ballots[j], ids, ids + [id]);
    }
    SweepBallotSound(w, before.world, me, net, id);
    SweptOnMore(w, me, b, [id], ids + [id]);
    BallotChangesVotesOnly(before.world, b);
    OnlyVotesDifferTransitive(w, before.world, AfterBallot(before.world, b));
    SameIds(w, AfterBallot(before.world, b));
    forall i | 0 <= i < |w.shares|
      ensures !CanVote(before.world.shares[i], me) ==> !CanVote(AfterBallot(before.world, b).shares[i], me)
      ensures w.shares[i].id == id && w.shares[i].policy == ShareV1 ==>
          !CanVote(AfterBallot(before.world, b).shares[i], me)
    {
      assert SansVotes(w.shares[i]) == SansVotes(before.world.shares[i]);
      if !CanVote(before.world.shares[i], me) {
        CannotVoteStays(before.world, AfterBallot(before.world, b), b, me, i);
      } else if w.shares[i].id == id && w.shares[i].policy == ShareV1 {
        SweepBallotLands(before.world, me, net, id, i);
      }
    }
  }

  lemma SameIds(v: World, w: World)
    requires OnlyVotesDiffer(v, w) && UniqueShares(v.shares)
    ensures UniqueShares(w.shares)
  {
    forall i, j | 0 <= i < j < |w.shares|
      ensures w.shares[i].id != w.shares[j].id
    {
      assert SansVotes(v.shares[i]) == SansVotes(w.shares[i]) && SansVotes(v.shares[j]) == SansVotes(w.shares[j]);
    }
  }

  // ── What the sweep returns ─────────────────────────────────────────────────

  lemma {:induction false} RowsMembers(shares: seq<ShareState>, claimed: set<Id>)
    requires UniqueShares(shares)
    ensures forall l :: l in Rows(shares, None, claimed) <==> exists e :: e in shares && RowOf(e, claimed) == l
  {
    if shares != [] {
      var n := |shares| - 1;
      RowsMembers(shares[..n], claimed);
      assert Wanted(shares[n], None);
      assert shares == shares[..n] + [shares[n]];
      assert Rows(shares, None, claimed) == Rows(shares[..n], None, claimed) + [RowOf(shares[n], claimed)];
      forall l
        ensures l in Rows(shares, None, claimed) <==> exists e :: e in shares && RowOf(e, claimed) == l
      {
        if e :| e in shares && RowOf(e, claimed) == l {
          assert e in shares[..n] || e == shares[n];
        }
      }
    }
  }

  /** The share is still owed in circle c: locked, and not yet claimed back. */
  predicate OwedTo(e: ShareState, c: CircleState, claimed: set<Id>)
  {
    e.parent == c.id && e.lockedAt.Some? && StatusOf(e, claimed) == Locked
  }

  predicate IsDue(w: World, c: CircleState, claimed: set<Id>)
  {
    StatusIn(w, c, claimed) == RefundDue || StatusIn(w, c, claimed) == Complete
  }

  lemma DueBackIds(w: World, c: CircleState, claimed: set<Id>, id: Id)
    requires UniqueShares(w.shares)
    ensures id in DueBack(c, Rows(w.shares, None, claimed), w.now)
            <==> IsDue(w, c, claimed) && exists e :: e in w.shares && e.id == id && OwedTo(e, c, claimed)
  {
    hide Rows, StatusOf, StatusAt;
    var rows := Rows(w.shares, None, claimed);
    CollectMembers(OwedIn(c), rows);
    RowsMembers(w.shares, claimed);
    if id in Collect(OwedIn(c), rows) {
      var l :| l in rows && OwedIn(c)(l) == Some(id);
      var e :| e in w.shares && RowOf(e, claimed) == l;
      assert OwedTo(e, c, claimed);
    }
    if e :| e in w.shares && e.id == id && OwedTo(e, c, claimed) {
      assert RowOf(e, claimed) in rows && OwedIn(c)(RowOf(e, claimed)) == Some(id);
    }
  }

  /** Share e is owed back now: its circle is a fill-or-refund round that fell short or ended, in a view the
      watcher may act on. */
  ghost predicate Returnable(w: World, net: Net, claimed: set<Id>, e: ShareState)
  {
    exists c :: ReturnableIn(w, net, claimed, e, c)
  }

  predicate ReturnableIn(w: World, net: Net, claimed: set<Id>, e: ShareState, c: CircleState)
  {
    && c in w.circles && OwedTo(e, c, claimed) && IsDue(w, c, claimed) && !RotationRound(c.terms)
    && (w.now >= c.terms.roundEnd || c.id in net.complete)
  }

  predicate PlainReturn(w: World, net: Net, claimed: set<Id>, e: ShareState, c: CircleState)
  {
    e.policy == ShareV1 && ReturnableIn(w, net, claimed, e, c)
  }

  /** A refund vote on a share owed back, from a seat this client holds. */
  ghost predicate Returns(w: World, me: Pubkey, net: Net, claimed: set<Id>, b: Ballot)
  {
    b.outcome == Refund
    && exists e :: e in w.shares && e.id == b.id && MySeat(e, me) == Some(b.seat) && Returnable(w, net, claimed, e)
  }

  lemma SweptReturns(w: World, me: Pubkey, net: Net, claimed: set<Id>, c: CircleState, b: Ballot)
    requires UniqueShares(w.shares) && c in w.circles && Swept(c, net, w.now)
    requires SweptOn(w, me, b, DueBack(c, Rows(w.shares, None, claimed), w.now))
    ensures Returns(w, me, net, claimed, b)
  {
    hide Rows, StatusOf, StatusAt, DueBack;
    DueBackIds(w, c, claimed, b.id);
    var e :| e in w.shares && e.id == b.id && OwedTo(e, c, claimed);
    assert ReturnableIn(w, net, claimed, e, c);
    var i: nat :| SeatAt(w, me, b, i);
    assert e == w.shares[i];
  }

  lemma SweptOnElsewhere(v: World, w: World, me: Pubkey, b: Ballot, ids: seq<Id>)
    requires OnlyVotesDiffer(v, w) && SweptOn(w, me, b, ids)
    ensures SweptOn(v, me, b, ids)
  {
    var i: nat :| SeatAt(w, me, b, i);
    assert SansVotes(v.shares[i]) == SansVotes(w.shares[i]);
    assert SeatAt(v, me, b, i);
  }

  ghost predicate SweptTo(w: World, me: Pubkey, net: Net, claimed: set<Id>, n: nat, p: Pass)
    requires n <= |w.circles|
  {
    && OnlyVotesDiffer(w, p.world) && UniqueShares(p.world.shares)
    && (forall j :: 0 <= j < |p.ballots| ==> Returns(w, me, net, claimed, p.ballots[j]))
    && (forall i :: 0 <= i < |w.shares| && !CanVote(w.shares[i], me) ==> !CanVote(p.world.shares[i], me))
    && (forall k, i :: 0 <= k < n && 0 <= i < |w.shares| && PlainReturn(w, net, claimed, w.shares[i], w.circles[k])
                       ==> !Publishable(p.world.shares[i], me, net))
  }

  lemma {:induction false} SweepSettles(w: World, me: Pubkey, net: Net, claimed: set<Id>, n: nat)
    requires UniqueShares(w.shares) && n <= |w.circles|
    ensures SweptTo(w, me, net, claimed, n, SweepCircles(w, me, net, Rows(w.shares, None, claimed), w.circles[..n]))
  {
    if n > 0 {
      hide SweptTo, Rows, DueBack, Swept;
      var rows := Rows(w.shares, None, claimed);
      SweepSettles(w, me, net, claimed, n - 1);
      assert w.circles[..n][..n - 1] == w.circles[..n - 1];
      var before := SweepCircles(w, me, net, rows, w.circles[..n - 1]);
      var c := w.circles[n - 1];
      if Swept(c, net, w.now) {
        OneMoreCircle(w, me, net, claimed, n, before, DueBack(c, rows, w.now));
      } else {
        NotThisCircle(w, me, net, claimed, n, before);
      }
    } else {
      hide CanVote;
    }
  }

  lemma NotThisCircle(w: World, me: Pubkey, net: Net, claimed: set<Id>, n: nat, before: Pass)
    requires 0 < n <= |w.circles| && SweptTo(w, me, net, claimed, n - 1, before)
    requires !Swept(w.circles[n - 1], net, w.now)
    ensures SweptTo(w, me, net, claimed, n, before)
  {
    hide Returns, CanVote, Rows, DueBack, IsDue, OwedTo;
  }

  lemma ReturnIsListed(w: World, net: Net, claimed: set<Id>, e: ShareState, c: CircleState)
    requires UniqueShares(w.shares) && e in w.shares && PlainReturn(w, net, claimed, e, c)
    ensures e.policy == ShareV1 && e.id in DueBack(c, Rows(w.shares, None, claimed), w.now)
  {
    hide Rows, DueBack, Swept, IsDue, OwedTo;
    DueBackIds(w, c, claimed, e.id);
  }

  lemma OneMoreCircle(w: World, me: Pubkey, net: Net, claimed: set<Id>, n: nat, before: Pass, ids: seq<Id>)
    requires UniqueShares(w.shares) && 0 < n <= |w.circles| && SweptTo(w, me, net, claimed, n - 1, before)
    requires Swept(w.circles[n - 1], net, w.now)
    requires ids == DueBack(w.circles[n - 1], Rows(w.shares, None, claimed), w.now)
    ensures var here := SweepIds(before.world, me, net, ids);
            SweptTo(w, me, net, claimed, n, Pass(here.world, before.ballots + here.ballots))
  {
    hide Returns, CanVote, Rows, DueBack, Swept, PlainReturn, SweptOn, Publishable;
    var c, here := w.circles[n - 1], SweepIds(before.world, me, net, ids);
    SweepIdsSettle(before.world, me, net, ids);
    OnlyVotesDifferTransitive(w, before.world, here.world);
    forall j | 0 <= j < |here.ballots|
      ensures Returns(w, me, net, claimed, here.ballots[j])
    {
      SweptOnElsewhere(w, before.world, me, here.ballots[j], ids);
      SweptReturns(w, me, net, claimed, c, here.ballots[j]);
    }
    forall i | 0 <= i < |w.shares| && PlainReturn(w, net, claimed, w.shares[i], c)
      ensures !Publishable(here.world.shares[i], me, net)
    {
      ReturnIsListed(w, net, claimed, w.shares[i], c);
      assert SansVotes(w.shares[i]) == SansVotes(before.world.shares[i]);
    }
    forall i | 0 <= i < |w.shares| && !Publishable(before.world.shares[i], me, net)
      ensures !Publishable(here.world.shares[i], me, net)
    {
      StaysSettled(before.world.shares[i], here.world.shares[i], me, net);
    }
  }

  lemma StaysSettled(e: ShareState, f: ShareState, me: Pubkey, net: Net)
    requires SansVotes(e) == SansVotes(f) && (!CanVote(e, me) ==> !CanVote(f, me)) && !Publishable(e, me, net)
    ensures !Publishable(f, me, net)
  {
  }

  /** In every run the sweep votes refund only on fill-or-refund shares that are owed back, never on a rotation
      share, and leaves none of them waiting for this client's vote except where publishing it failed. Before a
      circle's round end that means its fill failed in a view the client has completed. */
  lemma SweepIsRight(start: int, evs: seq<Event>, me: Pubkey, net: Net, claimed: set<Id>, b: Ballot, i: nat)
    ensures var w := Replay(Genesis(start), evs);
            var p := SweepCircles(w, me, net, Rows(w.shares, None, claimed), w.circles);
            && (b in p.ballots ==> RefundsFairly(w, me, net, claimed, b))
            && (i < |w.shares| && Returnable(w, net, claimed, w.shares[i]) ==>
                  i < |p.world.shares| && !Publishable(p.world.shares[i], me, net))
  {
    hide Replay, Good, Rows, CanVote, StatusOf;
    var w := Replay(Genesis(start), evs);
    EveryRunIsGood(start, evs);
    GoodIsStructured(w);
    SweepSettles(w, me, net, claimed, |w.circles|);
    assert w.circles[..|w.circles|] == w.circles;
    if i < |w.shares| && Returnable(w, net, claimed, w.shares[i]) {
      var c :| ReturnableIn(w, net, claimed, w.shares[i], c);
      ReturnableIsV1(w, net, claimed, w.shares[i], c);
    }
    var p := SweepCircles(w, me, net, Rows(w.shares, None, claimed), w.circles);
    if b in p.ballots {
      assert Returns(w, me, net, claimed, b);
      var e :| e in w.shares && e.id == b.id && MySeat(e, me) == Some(b.seat) && Returnable(w, net, claimed, e);
      var c :| ReturnableIn(w, net, claimed, e, c);
      ReturnableIsV1(w, net, claimed, e, c);
      assert FairRefund(w, me, net, claimed, b, e, c);
    }
  }

  ghost predicate RefundsFairly(w: World, me: Pubkey, net: Net, claimed: set<Id>, b: Ballot)
  {
    exists e, c :: FairRefund(w, me, net, claimed, b, e, c)
  }

  predicate FairRefund(w: World, me: Pubkey, net: Net, claimed: set<Id>, b: Ballot, e: ShareState, c: CircleState)
  {
    && e in w.shares && c in w.circles && e.id == b.id && e.parent == c.id && e.policy == ShareV1
    && b.outcome == Refund && MySeat(e, me) == Some(b.seat)
    && (w.now >= c.terms.roundEnd || (c.id in net.complete && StatusIn(w, c, claimed) == RefundDue))
  }

  lemma ReturnableIsV1(w: World, net: Net, claimed: set<Id>, e: ShareState, c: CircleState)
    requires Structured(w) && e in w.shares && ReturnableIn(w, net, claimed, e, c)
    ensures e.policy == ShareV1
    ensures w.now >= c.terms.roundEnd || (c.id in net.complete && StatusIn(w, c, claimed) == RefundDue)
  {
    hide Rows, StatusOf;
    FindUnique(w.circles, c);
    assert ShareFits(e, w.circles, w.now);
  }
}
