/** Two runs in which a seat is offered that can never be taken: its deterministic id is used up. */
module SpentSeats {
  import opened Prelude
  import opened Circles
  import opened Rotation
  import opened Race
  import opened Gates
  import opened Writers
  import opened Chain
  import opened Sweep
  import opened Seats
  import opened FirstCycle

  // ── Refunded and claimed ───────────────────────────────────────────────────

  /** Member 2 commits; both principals take it back at once. */
  function Returned(): seq<Event>
  {
    [Opening(3)] + [TakeSeat(SeatId(2), 2, Join(HOST, 0))] + [LockShare(SeatId(2))]
    + [CastVote(SeatId(2), BuyerSeat, Refund, None)] + [CastVote(SeatId(2), SellerSeat, Refund, None)]
    + [Resolve(SeatId(2), Refund, None, 0)]
  }

  function Spent(): ShareState
  {
    var e := SeatOf(3, 2, HOST, 0, Some(0));
    e.(buyerVote := Some(Refund), sellerVote := Some(Refund), resolved := Some(Resolution(Refund, 0)))
  }

  lemma SeatIsReturned()
    ensures Replay(Genesis(0), Returned()) == World(0, [Anchor(3)], [Spent()])
  {
    hide Replay, Step;
    CircleOpens(3);
    var w0, e0 := World(0, [Anchor(3)], []), SeatOf(3, 2, HOST, 0, Some(0));
    MemberCommits([Opening(3)], w0, 3, 2, HOST);
    assert w0.shares + [e0] == [e0];
    var past := [Opening(3)] + [TakeSeat(SeatId(2), 2, Join(HOST, 0))] + [LockShare(SeatId(2))];
    var v1, v2 := CastVote(SeatId(2), BuyerSeat, Refund, None), CastVote(SeatId(2), SellerSeat, Refund, None);
    var e1 := e0.(buyerVote := Some(Refund));
    var e2 := e1.(sellerVote := Some(Refund));
    ThenStep(past, v1);
    LastMoves(w0.(shares := [e0]), [], e0, v1);
    ThenStep(past + [v1], v2);
    LastMoves(w0.(shares := [e1]), [], e1, v2);
    ThenStep(past + [v1] + [v2], Resolve(SeatId(2), Refund, None, 0));
    LastMoves(w0.(shares := [e2]), [], e2, Resolve(SeatId(2), Refund, None, 0));
  }

  /** Once claimed, the seat is offered to the member again, and taking it does nothing. */
  lemma RefundedSeatIsOffered(who: Pubkey, p: SharePayload)
    ensures var w := Replay(Genesis(0), Returned());
            && SeatError(Anchor(3), Rows(w.shares, None, {SeatId(2)}), 2, w.now, false) == None
            && Step(w, TakeSeat(SeatId(2), who, p)) == w
  {
    hide Replay, ShareCreateError;
    SeatIsReturned();
    var claimed := {SeatId(2)};
    assert [Spent()][..0] == [];
    assert Rows([Spent()], None, claimed) == [RowOf(Spent(), claimed)];
    assert RowOf(Spent(), claimed).status == Refunded;
  }

  // ── Held by a circle ───────────────────────────────────────────────────────

  /** A plain fill-or-refund circle under the id of member 2's seat, published by somebody else. */
  function Squatting(): Event
  {
    var terms := Terms(1000, 2, None, false, 3600, 7200, 1, None, NoPot);
    OpenCircle(SeatId(2), 5, CirclePayload(terms, None, "mint", None, None, POOL, [], 7200, 0), false)
  }

  lemma CircleHoldsSeat()
    ensures var w := Replay(Genesis(0), [Opening(3)] + [Squatting()]);
            w.now == 0 && w.shares == [] && Anchor(3) in w.circles && FindCircle(w.circles, SeatId(2)).Some?
  {
    hide Replay;
    CircleOpens(3);
    ThenStep([Opening(3)], Squatting());
    var w := World(0, [Anchor(3)], []);
    OnlyOneCircle(w.circles, 3, SeatId(2));
    var p := Squatting().circle;
    assert CircleCreateError(p, SeatId(2), 5, 0, Some(w.View()), false) == None;
    FindAppend(w.circles, NewCircle(w, SeatId(2), 5, p), SeatId(2));
    assert (w.circles + [NewCircle(w, SeatId(2), 5, p)])[0] == Anchor(3);
  }

  /** The seat is offered to member 2, and taking it does nothing. */
  lemma HeldSeatIsOffered(who: Pubkey, p: SharePayload)
    ensures var w := Replay(Genesis(0), [Opening(3)] + [Squatting()]);
            && Anchor(3) in w.circles && SeatError(Anchor(3), Rows(w.shares, None, {}), 2, w.now, false) == None
            && Step(w, TakeSeat(SeatId(2), who, p)) == w
  {
    hide Replay, ShareCreateError;
    CircleHoldsSeat();
  }
}
