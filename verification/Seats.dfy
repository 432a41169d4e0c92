/** Taking a seat in a fill-or-refund round: the offer, the writer with its ring of witnesses, and the gate. */
module Seats {
  import opened Prelude
  import opened Circles
  import opened Rotation
  import opened Race
  import opened Gates
  import opened Writers
  import opened Chain
  import opened Finality
  import opened Protocol
  import opened Sweep
  import opened Opener

  datatype SeatRefusal = Closed | HostRefused | HostWaits | AlreadySeated | Full

  // ── The offer ──────────────────────────────────────────────────────────────

  predicate Holds(l: SeatLock) { l.status == Reserved || l.status == Locked }

  predicate SeatedBy(c: CircleState, rows: seq<SeatLock>, m: Pubkey)
  {
    exists l :: l in rows && l.circleId == c.id && l.member == m && Holds(l)
  }

  predicate LockedByAnother(c: CircleState, rows: seq<SeatLock>, m: Pubkey)
  {
    exists l :: l in rows && l.circleId == c.id && l.status == Locked && l.member != m
  }

  function HolderIn(c: CircleState): SeatLock -> Option<Pubkey>
  {
    (l: SeatLock) => if l.circleId == c.id && Holds(l) then Some(l.member) else None
  }

  /** Why this member may not take a seat right now; None when they may. */
  function SeatError(c: CircleState, rows: seq<SeatLock>, m: Pubkey, now: int, hostSeat: bool): Option<SeatRefusal>
  {
    if now >= c.terms.fillDeadline then Some(Closed)
    else if m == c.creator && !hostSeat then Some(HostRefused)
    else if m == c.creator && !LockedByAnother(c, rows, m) then Some(HostWaits)
    else if SeatedBy(c, rows, m) then Some(AlreadySeated)
    else if c.terms.seatCap.Some? && |Collect(HolderIn(c), rows)| >= c.terms.seatCap.value then Some(Full)
    else None
  }

  // ── Who is offered a seat ──────────────────────────────────────────────────

  /** The share takes up a seat until it was returned, or paid out, and claimed. */
  predicate TakesUpSeat(e: ShareState, c: CircleState, claimed: set<Id>)
  {
    && e.parent == c.id
    && !(&& e.id in claimed && e.lockedAt.Some? && e.resolved.Some?
         && (e.resolved.value.outcome == Refund || e.policy == ShareV2))
  }

  function HolderOf(c: CircleState, claimed: set<Id>): ShareState -> Option<Pubkey>
  {
    (e: ShareState) => if TakesUpSeat(e, c, claimed) then Some(e.buyer) else None
  }

  lemma RowTakesUpSeat(e: ShareState, c: CircleState, claimed: set<Id>)
    ensures HolderIn(c)(RowOf(e, claimed)) == HolderOf(c, claimed)(e)
    ensures RowOf(e, claimed).status == Locked && e.parent == c.id <==> TakesUpSeat(e, c, claimed) && e.lockedAt.Some?
  {
  }

  lemma {:induction false} HoldersFromShares(c: CircleState, shares: seq<ShareState>, claimed: set<Id>)
    requires UniqueShares(shares)
    ensures Collect(HolderIn(c), Rows(shares, None, claimed)) == Collect(HolderOf(c, claimed), shares)
  {
    if shares != [] {
      hide RowOf;
      var n := |shares| - 1;
      HoldersFromShares(c, shares[..n], claimed);
      RowTakesUpSeat(shares[n], c, claimed);
      assert Wanted(shares[n], None);
      var rows := Rows(shares, None, claimed);
      assert rows[..|rows| - 1] == Rows(shares[..n], None, claimed);
    }
  }

  lemma {:induction false} HoldersDiffer(w: World, c: CircleState, claimed: set<Id>, n: nat)
    requires Structured(w) && c in w.circles && n <= |w.shares|
    ensures Distinct(Collect(HolderOf(c, claimed), w.shares[..n]))
  {
    if n > 0 {
      hide Structured, TakesUpSeat;
      var s := w.shares[..n];
      assert s[..n - 1] == w.shares[..n - 1];
      HoldersDiffer(w, c, claimed, n - 1);
      CollectMembers(HolderOf(c, claimed), w.shares[..n - 1]);
      HolderSits(s[n - 1], c, claimed);
      if HolderOf(c, claimed)(s[n - 1]).Some? && s[n - 1].buyer in Collect(HolderOf(c, claimed), w.shares[..n - 1]) {
        var i :| 0 <= i < n - 1 && HolderOf(c, claimed)(w.shares[i]) == Some(s[n - 1].buyer);
        HolderSits(w.shares[i], c, claimed);
        OneSharePerMember(w, i, n - 1);
      }
    }
  }

  lemma HolderSits(e: ShareState, c: CircleState, claimed: set<Id>)
    ensures HolderOf(c, claimed)(e).Some? ==> e.parent == c.id && HolderOf(c, claimed)(e) == Some(e.buyer)
  {
  }

  /** The members whose shares take up a seat of the circle. */
  ghost function Seated(c: CircleState, shares: seq<ShareState>, claimed: set<Id>): set<Pubkey>
  {
    set e | e in shares && TakesUpSeat(e, c, claimed) :: e.buyer
  }

  lemma SeatedAreCounted(w: World, c: CircleState, claimed: set<Id>)
    requires Structured(w) && c in w.circles
    ensures |Collect(HolderIn(c), Rows(w.shares, None, claimed))| == |Seated(c, w.shares, claimed)|
  {
    hide Structured, Rows, TakesUpSeat;
    assert w.shares[..|w.shares|] == w.shares;
    HoldersDiffer(w, c, claimed, |w.shares|);
    AllUnique(w);
    HoldersFromShares(c, w.shares, claimed);
    var holders := Collect(HolderOf(c, claimed), w.shares);
    DistinctCount(holders);
    CollectMembers(HolderOf(c, claimed), w.shares);
    forall m
      ensures m in Elements(holders) <==> m in Seated(c, w.shares, claimed)
    {
      if m in Seated(c, w.shares, claimed) {
        var e :| e in w.shares && TakesUpSeat(e, c, claimed) && e.buyer == m;
        assert HolderOf(c, claimed)(e) == Some(m);
      }
      if m in Elements(holders) {
        var e :| e in w.shares && HolderOf(c, claimed)(e) == Some(m);
        HolderSits(e, c, claimed);
      }
    }
    assert Elements(holders) == Seated(c, w.shares, claimed);
  }

  lemma AllUnique(w: World)
    requires Structured(w)
    ensures UniqueShares(w.shares)
  {
  }

  /** Who is offered a seat, read off the shares: before the fill deadline, whoever has no share taking up a seat, while
      there is room; the creator only if hosts may sit and another member's locked share takes up a seat already. */
  lemma OfferedExactly(w: World, c: CircleState, claimed: set<Id>, m: Pubkey, hostSeat: bool)
    requires Structured(w) && c in w.circles
    ensures SeatError(c, Rows(w.shares, None, claimed), m, w.now, hostSeat) == None
            <==> && w.now < c.terms.fillDeadline && m !in Seated(c, w.shares, claimed)
                 && (c.terms.seatCap.Some? ==> |Seated(c, w.shares, claimed)| < c.terms.seatCap.value)
                 && (m == c.creator ==>
                       && hostSeat
                       && exists e :: e in w.shares && TakesUpSeat(e, c, claimed) && e.lockedAt.Some? && e.buyer != m)
  {
    hide Rows, Structured, TakesUpSeat;
    SeatedAreCounted(w, c, claimed);
    SeatsByShare(w, c, claimed, m);
  }

  lemma SeatsByShare(w: World, c: CircleState, claimed: set<Id>, m: Pubkey)
    requires Structured(w)
    ensures SeatedBy(c, Rows(w.shares, None, claimed), m) <==> m in Seated(c, w.shares, claimed)
    ensures LockedByAnother(c, Rows(w.shares, None, claimed), m)
            <==> exists e :: e in w.shares && TakesUpSeat(e, c, claimed) && e.lockedAt.Some? && e.buyer != m
  {
    hide Rows, Structured, TakesUpSeat, StatusOf;
    AllUnique(w);
    RowsMembers(w.shares, claimed);
    forall e | e in w.shares
      ensures RowOf(e, claimed) in Rows(w.shares, None, claimed)
      ensures Holds(RowOf(e, claimed)) && e.parent == c.id <==> TakesUpSeat(e, c, claimed)
      ensures RowOf(e, claimed).status == Locked && e.parent == c.id <==> TakesUpSeat(e, c, claimed) && e.lockedAt.Some?
    {
      RowTakesUpSeat(e, c, claimed);
      HolderSits(e, c, claimed);
    }
    if SeatedBy(c, Rows(w.shares, None, claimed), m) {
      var l :| l in Rows(w.shares, None, claimed) && l.circleId == c.id && l.member == m && Holds(l);
      var e :| e in w.shares && RowOf(e, claimed) == l;
    }
    if m in Seated(c, w.shares, claimed) {
      var e :| e in w.shares && TakesUpSeat(e, c, claimed) && e.buyer == m;
      assert Holds(RowOf(e, claimed)) && RowOf(e, claimed).circleId == c.id;
    }
    if LockedByAnother(c, Rows(w.shares, None, claimed), m) {
      var l :| l in Rows(w.shares, None, claimed) && l.circleId == c.id && l.status == Locked && l.member != m;
      var e :| e in w.shares && RowOf(e, claimed) == l;
    }
    if e :| e in w.shares && TakesUpSeat(e, c, claimed) && e.lockedAt.Some? && e.buyer != m {
      assert RowOf(e, claimed).status == Locked && RowOf(e, claimed).circleId == c.id;
    }
  }

  // ── The writer ─────────────────────────────────────────────────────────────

  predicate CanWitness(c: CircleState, m: Pubkey, now: int, l: SeatLock)
  {
    l.circleId == c.id && l.status == Locked && l.lockedAt.Some? && l.lockedAt.value <= now && l.member != m
  }

  /** The member who locked last, the first listed among equals. */
  function LatestWitness(c: CircleState, rows: seq<SeatLock>, m: Pubkey, now: int): (r: Option<SeatLock>)
    ensures r.Some? ==> r.value in rows && CanWitness(c, m, now, r.value)
    ensures r.Some? ==> forall l :: l in rows && CanWitness(c, m, now, l) ==> l.lockedAt.value <= r.value.lockedAt.value
    ensures r.None? ==> forall l :: l in rows ==> !CanWitness(c, m, now, l)
  {
    if rows == [] then None
    else
      var n := |rows| - 1;
      var best := LatestWitness(c, rows[..n], m, now);
      assert rows == rows[..n] + [rows[n]];
      if CanWitness(c, m, now, rows[n]) && (best.None? || rows[n].lockedAt.value > best.value.lockedAt.value) then
        Some(rows[n])
      else best
  }

  /** Whoever could vouch and is listed before i locked before it did. */
  ghost predicate LockedBefore(c: CircleState, rows: seq<SeatLock>, m: Pubkey, now: int, i: int, at: int)
    requires i <= |rows|
  {
    forall j :: 0 <= j < i && CanWitness(c, m, now, rows[j]) ==> rows[j].lockedAt.value < at
  }

  /** Among those who locked last, the first listed is taken. */
  lemma {:induction false} FirstAmongEquals(c: CircleState, rows: seq<SeatLock>, m: Pubkey, now: int) returns (i: nat)
    requires LatestWitness(c, rows, m, now).Some?
    ensures i < |rows| && LatestWitness(c, rows, m, now) == Some(rows[i]) && rows[i].lockedAt.Some?
    ensures LockedBefore(c, rows, m, now, i, rows[i].lockedAt.value)
  {
    var n := |rows| - 1;
    var best := LatestWitness(c, rows[..n], m, now);
    if LatestWitness(c, rows, m, now) == best {
      i := FirstAmongEquals(c, rows[..n], m, now);
      forall j | 0 <= j < i && CanWitness(c, m, now, rows[j])
        ensures rows[j].lockedAt.value < rows[i].lockedAt.value
      {
        assert rows[..n][j] == rows[j];
      }
    } else {
      i := n;
      forall j | 0 <= j < n && CanWitness(c, m, now, rows[j])
        ensures rows[j].lockedAt.value < rows[n].lockedAt.value
      {
        assert rows[j] in rows[..n];
      }
    }
  }

  /** A share payload: the latest locker other than the buyer vouches, and before any lock the creator does. */
  function RingPayload(c: CircleState, now: int, m: Pubkey, rows: seq<SeatLock>): Result<SharePayload, Refusal>
  {
    var plain := ShareCreatePayload(c, now);
    if plain.Err? then plain
    else
      var latest := LatestWitness(c, rows, m, now);
      if latest.Some? then Ok(plain.value.(seller := latest.value.member))
      else if m == c.creator then Err(HostsLockLast)
      else plain
  }

  // ── Offer, writer and gate agree ───────────────────────────────────────────

  lemma FindShareUnique(shares: seq<ShareState>, e: ShareState)
    requires UniqueShares(shares) && e in shares
    ensures FindShare(shares, e.id) == Some(e)
  {
  }

  /** A locked row of a fill-or-refund round is a member's own share, found at its deterministic id. */
  lemma RowIsShare(w: World, c: CircleState, claimed: set<Id>, l: SeatLock) returns (e: ShareState)
    requires Structured(w) && c in w.circles && l in Rows(w.shares, None, claimed) && l.circleId == c.id
    ensures e in w.shares && RowOf(e, claimed) == l && e.parent == c.id && e.buyer == l.member
    ensures e.id == ShareOf(c.id, l.member, c.terms.roundIndex) && FindShare(w.shares, e.id) == Some(e)
    ensures (e.policy == ShareV2 <==> RotationRound(c.terms)) && (e.lockedAt.Some? ==> e.lockedAt.value <= w.now)
  {
    hide Rows, StatusOf;
    RowsMembers(w.shares, claimed);
    e :| e in w.shares && RowOf(e, claimed) == l;
    FindUnique(w.circles, c);
    assert ShareFits(e, w.circles, w.now);
    FindShareUnique(w.shares, e);
  }

  /** The share can vouch for `m`: another member's locked share that still takes up its seat. */
  predicate Vouches(e: ShareState, c: CircleState, claimed: set<Id>, m: Pubkey)
  {
    TakesUpSeat(e, c, claimed) && e.lockedAt.Some? && e.buyer != m
  }

  lemma VouchingRow(w: World, c: CircleState, claimed: set<Id>, m: Pubkey, e: ShareState)
    requires Structured(w) && c in w.circles && e in w.shares
    ensures CanWitness(c, m, w.now, RowOf(e, claimed)) <==> Vouches(e, c, claimed, m)
    ensures RowOf(e, claimed).member == e.buyer && RowOf(e, claimed).lockedAt == e.lockedAt
  {
    hide StatusOf, TakesUpSeat;
    RowTakesUpSeat(e, c, claimed);
    HolderSits(e, c, claimed);
    assert ShareFits(e, w.circles, w.now);
    LockIsPast(w, e);
  }

  lemma LockIsPast(w: World, e: ShareState)
    requires Structured(w) && e in w.shares
    ensures e.lockedAt.Some? ==> e.lockedAt.value <= w.now
  {
    assert ShareFits(e, w.circles, w.now);
  }

  /** The ring, read off the shares: the seller of a payload is whoever locked last among the others, and the creator
      while nobody else has locked; only a creator before whom nobody locked gets no payload. */
  lemma RingIsLatest(w: World, c: CircleState, claimed: set<Id>, m: Pubkey)
    requires Structured(w) && c in w.circles
    ensures var r := RingPayload(c, w.now, m, Rows(w.shares, None, claimed));
            if exists e :: e in w.shares && Vouches(e, c, claimed, m) then
              && r.Ok?
              && exists e :: e in w.shares && Vouches(e, c, claimed, m) && r.value.seller == e.buyer
                             && forall f :: f in w.shares && Vouches(f, c, claimed, m) ==>
                                  f.lockedAt.value <= e.lockedAt.value
            else if m == c.creator then r == Err(HostsLockLast) else r.Ok? && r.value.seller == c.creator
  {
    hide Rows, Structured, TakesUpSeat, Vouches, CanWitness, RowOf, Lawful;
    var rows := Rows(w.shares, None, claimed);
    RoundIsLawful(w, c);
    AllUnique(w);
    RowsMembers(w.shares, claimed);
    forall e | e in w.shares
      ensures RowOf(e, claimed) in rows && (CanWitness(c, m, w.now, RowOf(e, claimed)) <==> Vouches(e, c, claimed, m))
      ensures RowOf(e, claimed).member == e.buyer && RowOf(e, claimed).lockedAt == e.lockedAt
    {
      VouchingRow(w, c, claimed, m, e);
    }
    var latest := LatestWitness(c, rows, m, w.now);
    if latest.Some? {
      var e :| e in w.shares && RowOf(e, claimed) == latest.value;
      assert Vouches(e, c, claimed, m);
      forall f | f in w.shares && Vouches(f, c, claimed, m)
        ensures f.lockedAt.Some? && e.lockedAt.Some? && f.lockedAt.value <= e.lockedAt.value
      {
        VouchingIsLocked(f, c, claimed, m);
        VouchingIsLocked(e, c, claimed, m);
        assert CanWitness(c, m, w.now, RowOf(f, claimed));
      }
    } else {
      forall e | e in w.shares
        ensures !Vouches(e, c, claimed, m)
      {
        assert RowOf(e, claimed) in rows;
      }
    }
  }

  lemma VouchingIsLocked(e: ShareState, c: CircleState, claimed: set<Id>, m: Pubkey)
    requires Vouches(e, c, claimed, m)
    ensures e.lockedAt.Some?
  {
  }

  /** The pool has an arbiter who holds neither seat. */
  predicate ArbiterFor(c: CircleState, m: Pubkey, seller: Pubkey) { exists k :: k in c.pool && k != m && k != seller }

  lemma WitnessVouches(w: World, c: CircleState, claimed: set<Id>, m: Pubkey)
    requires Structured(w) && c in w.circles && !RotationRound(c.terms)
    requires LatestWitness(c, Rows(w.shares, None, claimed), m, w.now).Some?
    ensures var seller := LatestWitness(c, Rows(w.shares, None, claimed), m, w.now).value.member;
            var vouch := FindShare(w.shares, ShareOf(c.id, seller, c.terms.roundIndex));
            && seller != m && vouch.Some? && vouch.value.policy == ShareV1 && vouch.value.parent == c.id
            && vouch.value.buyer == seller
            && vouch.value.id == ShareOf(c.id, seller, c.terms.roundIndex) && vouch.value.lockedAt.Some?
            && vouch.value.lockedAt.value <= w.now
  {
    hide Rows, StatusOf, Structured;
    var l := LatestWitness(c, Rows(w.shares, None, claimed), m, w.now).value;
    var e := RowIsShare(w, c, claimed, l);
  }

  /** What the ring writer makes of an offered seat passes the CREATE gate. */
  lemma RingPayloadPasses(w: World, c: CircleState, claimed: set<Id>, m: Pubkey, p: SharePayload)
    requires Structured(w) && c in w.circles && !RotationRound(c.terms) && c.createdAt <= w.now < c.terms.fillDeadline
    requires RingPayload(c, w.now, m, Rows(w.shares, None, claimed)) == Ok(p) && ArbiterFor(c, m, p.seller)
    ensures ShareCreateError(p, ShareOf(c.id, m, c.terms.roundIndex), m, w.now, Some(c), WitnessOf(w, p, Some(c)),
                             Some(w.View())) == None
  {
    hide Rows, Structured, Lawful, CollectorSeatError;
    RoundIsLawful(w, c);
    var latest := LatestWitness(c, Rows(w.shares, None, claimed), m, w.now);
    if latest.Some? {
      WitnessVouches(w, c, claimed, m);
    }
    assert WitnessError(p, c, w.now, WitnessOf(w, p, Some(c))) == None;
  }

  lemma RoundIsLawful(w: World, c: CircleState)
    requires Structured(w) && c in w.circles
    ensures Lawful(c.terms, c.createdAt) && SafeInt(c.createdAt) && SafeInt(c.terms.fillDeadline)
    ensures c.createdAt <= w.now
    ensures forall k :: k in c.bonded ==> k in c.pool
  {
    assert CircleFits(c, w.circles, w.now);
  }

  /** Whoever is offered a seat has a payload to publish. */
  lemma OfferHasPayload(w: World, c: CircleState, claimed: set<Id>, m: Pubkey, hostSeat: bool)
    requires Structured(w) && c in w.circles && SeatError(c, Rows(w.shares, None, claimed), m, w.now, hostSeat) == None
    ensures RingPayload(c, w.now, m, Rows(w.shares, None, claimed)).Ok?
  {
    hide Rows, Structured, Lawful, StatusOf;
    RoundIsLawful(w, c);
    var rows := Rows(w.shares, None, claimed);
    if m == c.creator {
      var l :| l in rows && l.circleId == c.id && l.status == Locked && l.member != m;
      var e := RowIsShare(w, c, claimed, l);
      LockedRowIsDated(e, claimed);
      assert CanWitness(c, m, w.now, l);
    }
  }

  lemma LockedRowIsDated(e: ShareState, claimed: set<Id>)
    ensures RowOf(e, claimed).status == Locked ==> e.lockedAt.Some?
    ensures !Holds(RowOf(e, claimed)) <==>
              && e.id in claimed && e.lockedAt.Some? && e.resolved.Some?
              && (e.resolved.value.outcome == Refund || e.policy == ShareV2)
  {
  }

  /** The member's own share of this round was refunded and claimed. */
  predicate SeatSpent(w: World, id: Id, claimed: set<Id>)
  {
    FindShare(w.shares, id).Some? && SettledAndClaimed(FindShare(w.shares, id).value, claimed)
  }

  /** In every run an offered seat of a fill-or-refund round has a payload to publish, and publishing it takes the
      seat, except exactly when the pool has no free arbiter, the member's own share of this round was refunded and
      claimed, or the seat's deterministic id is held by a circle: then nothing happens. */
  lemma OfferedSeatCanBeTaken(start: int, evs: seq<Event>, c: CircleState, claimed: set<Id>, m: Pubkey, hostSeat: bool)
    requires var w := Replay(Genesis(start), evs);
             c in w.circles && !RotationRound(c.terms)
                 && SeatError(c, Rows(w.shares, None, claimed), m, w.now, hostSeat) == None
    ensures var w := Replay(Genesis(start), evs);
            var r := RingPayload(c, w.now, m, Rows(w.shares, None, claimed));
            var id := ShareOf(c.id, m, c.terms.roundIndex);
            && r.Ok?
            && Step(w, TakeSeat(id, m, r.value))
               == if !ArbiterFor(c, m, r.value.seller) || SeatSpent(w, id, claimed) || FindCircle(w.circles, id).Some?
                  then w else w.(shares := w.shares + [NewShare(w, id, m, r.value, c)])
  {
    hide Replay, Good, Rows, Lawful, RingPayload, ShareCreateError, SeatError, SettledAndClaimed;
    var w := Replay(Genesis(start), evs);
    var id := ShareOf(c.id, m, c.terms.roundIndex);
    EveryRunIsGood(start, evs);
    GoodIsStructured(w);
    SeatIsOpen(w, c, claimed, m, hostSeat);
    OfferHasPayload(w, c, claimed, m, hostSeat);
    var p := RingPayload(c, w.now, m, Rows(w.shares, None, claimed)).value;
    FindUnique(w.circles, c);
    PayloadParent(c, w.now, m, Rows(w.shares, None, claimed));
    if ArbiterFor(c, m, p.seller) {
      RingPayloadPasses(w, c, claimed, m, p);
    } else {
      NoArbiterNoSeat(w, c, m, p);
    }
    if FindShare(w.shares, id).Some? {
      OldSeatIsSettled(w, c, claimed, m, hostSeat, FindShare(w.shares, id).value);
    }
  }

  lemma NoArbiterNoSeat(w: World, c: CircleState, m: Pubkey, p: SharePayload)
    requires !ArbiterFor(c, m, p.seller)
    ensures ShareCreateError(p, ShareOf(c.id, m, c.terms.roundIndex), m, w.now, Some(c), WitnessOf(w, p, Some(c)),
                             Some(w.View())).Some?
  {
    hide CollectorSeatError, WitnessError, Lawful;
  }

  lemma PayloadParent(c: CircleState, now: int, m: Pubkey, rows: seq<SeatLock>)
    requires RingPayload(c, now, m, rows).Ok?
    ensures RingPayload(c, now, m, rows).value.parent == c.id
  {
    hide Lawful;
  }

  lemma SeatIsOpen(w: World, c: CircleState, claimed: set<Id>, m: Pubkey, hostSeat: bool)
    requires Structured(w) && c in w.circles && SeatError(c, Rows(w.shares, None, claimed), m, w.now, hostSeat) == None
    ensures c.createdAt <= w.now < c.terms.fillDeadline
  {
    hide Rows, Lawful, Structured;
    RoundIsLawful(w, c);
  }

  predicate SettledAndClaimed(e: ShareState, claimed: set<Id>)
  {
    e.id in claimed && e.lockedAt.Some? && e.resolved.Some? && e.resolved.value.outcome == Refund
  }

  lemma OldSeatIsSettled(w: World, c: CircleState, claimed: set<Id>, m: Pubkey, hostSeat: bool, e: ShareState)
    requires Structured(w) && c in w.circles && !RotationRound(c.terms)
    requires SeatError(c, Rows(w.shares, None, claimed), m, w.now, hostSeat) == None
    requires e in w.shares && e.id == ShareOf(c.id, m, c.terms.roundIndex)
    ensures SettledAndClaimed(e, claimed)
  {
    hide Rows, StatusOf;
    FindUnique(w.circles, c);
    assert ShareFits(e, w.circles, w.now);
    RowsMembers(w.shares, claimed);
    assert RowOf(e, claimed) in Rows(w.shares, None, claimed);
    LockedRowIsDated(e, claimed);
  }
}
