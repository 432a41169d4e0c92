/** What a round's screen shows: the order, this round's collector and the standings, found by walking back. */
module RotationViews {
  import opened Prelude
  import opened Circles
  import opened Rotation
  import opened Race
  import opened Gates
  import opened Writers
  import opened Chain
  import opened Finality
  import opened Protocol
  import opened Accusation

  datatype Slot = Slot(roundIndex: int, collector: Option<Pubkey>)

  datatype RotationView = RotationView(round1Id: Id, order: seq<Pubkey>, totalRounds: int, collector: Option<Pubkey>,
                                       queue: seq<Slot>)

  const MAX_WALK := 64

  /** What the walk reads of a state: a circle or a share, both of which carry the terms of a round. */
  datatype Node = Node(terms: Terms, initiator: Pubkey)

  function NodeAt(v: Context, id: Id): Option<Node>
  {
    var c, e := FindCircle(v.circles, id), FindShare(v.shares, id);
    if c.Some? then Some(Node(c.value.terms, c.value.creator))
    else if e.Some? then Some(Node(e.value.circle, e.value.buyer))
    else None
  }

  /** The first round, reached from `cursor` through states in view. */
  function WalkBack(v: Context, cursor: Option<Id>, hops: nat): Option<Id>
    decreases hops
  {
    if hops == 0 || cursor.None? then None
    else
      var state := NodeAt(v, cursor.value);
      if state.None? then None
      else if state.value.terms.roundIndex == 1 then cursor
      else WalkBack(v, state.value.terms.prev, hops - 1)
  }

  function QueueFrom(cy: Cycle, shares: seq<ShareState>, k: int, n: nat): seq<Slot>
  {
    seq(n, i requires 0 <= i < n => Slot(k + i, CollectorOf(cy, shares, k + i)))
  }

  function CycleFrom(first: Id, host: Pubkey, shares: seq<ShareState>): Cycle
  {
    Cycle(first, RotationOrder(first, host, CommitmentSeats(first, shares)), host)
  }

  function ViewFrom(first: Id, host: Pubkey, shares: seq<ShareState>, roundIndex: int): RotationView
  {
    var cy := CycleFrom(first, host, shares);
    var total, next := |cy.order| + 1, Max(2, roundIndex + 1);
    RotationView(first, cy.order, total, if roundIndex >= 2 then CollectorOf(cy, shares, roundIndex) else None,
                 QueueFrom(cy, shares, next, Max(0, total - next + 1)))
  }

  function ViewOf(v: Context, circleId: Id, roundIndex: int, prev: Option<Id>): Option<RotationView>
  {
    var round1Id := if roundIndex == 1 then Some(circleId) else WalkBack(v, prev, MAX_WALK);
    var first := if round1Id.Some? then NodeAt(v, round1Id.value) else None;
    if first.None? then None else Some(ViewFrom(round1Id.value, first.value.initiator, v.shares, roundIndex))
  }

  /** Walks back through states in view. */
  method FindFirstRound(v: Context, circleId: Id, roundIndex: int, prev: Option<Id>) returns (round1Id: Option<Id>)
    ensures round1Id == if roundIndex == 1 then Some(circleId) else WalkBack(v, prev, MAX_WALK)
  {
    hide NodeAt;
    round1Id := if roundIndex == 1 then Some(circleId) else None;
    var cursor := prev;
    var hops := 0;
    while round1Id.None? && cursor.Some? && hops < MAX_WALK
      invariant 0 <= hops <= MAX_WALK && (roundIndex == 1 ==> round1Id == Some(circleId))
      invariant roundIndex != 1 ==>
          round1Id.None? && WalkBack(v, prev, MAX_WALK) == WalkBack(v, cursor, MAX_WALK - hops)
      decreases MAX_WALK - hops
    {
      var state := NodeAt(v, cursor.value);
      if state.None? {
        return None;
      }
      if state.value.terms.roundIndex == 1 {
        return cursor;
      }
      cursor := state.value.terms.prev;
      hops := hops + 1;
    }
  }

  method RotationViewFor(v: Context, circleId: Id, roundIndex: int, prev: Option<Id>) returns (r: Option<RotationView>)
    ensures r == ViewOf(v, circleId, roundIndex, prev)
  {
    hide Collectors, WalkBack, CommitmentSeats, RotationOrder, NodeAt;
    var round1Id := FindFirstRound(v, circleId, roundIndex, prev);
    if round1Id.None? {
      return None;
    }
    var first := NodeAt(v, round1Id.value);
    if first.None? {
      return None;
    }
    var host := first.value.initiator;
    var locks := CommitmentLocks(round1Id.value, v.shares);
    var cy := Cycle(round1Id.value, RotationOrder(round1Id.value, host, locks), host);
    var collector := None;
    if roundIndex >= 2 {
      collector := CollectorForRound(cy, v.shares, roundIndex);
    }
    var queue := Standings(cy, v.shares, Max(2, roundIndex + 1));
    r := Some(RotationView(round1Id.value, cy.order, |cy.order| + 1, collector, queue));
  }

  method Standings(cy: Cycle, shares: seq<ShareState>, start: int) returns (queue: seq<Slot>)
    requires start >= 2
    ensures queue == QueueFrom(cy, shares, start, Max(0, |cy.order| + 1 - start + 1))
  {
    hide Collectors;
    queue := [];
    var k := start;
    while k <= |cy.order| + 1
      invariant start <= k <= Max(start, |cy.order| + 2)
      invariant queue == QueueFrom(cy, shares, start, k - start)
    {
      var c := CollectorForRound(cy, shares, k);
      queue := queue + [Slot(k, c)];
      k := k + 1;
    }
  }

  // ── The walk in every run ──────────────────────────────────────────────────

  /** The round before c is on the chain too. */
  ghost predicate HasPrevious(circles: seq<CircleState>, c: CircleState)
  {
    RotationRound(c.terms) && c.terms.roundIndex > 2 ==>
      exists d :: d in circles && RotationRound(d.terms) && c.id.RoundOf?
          && d.id == RoundOf(c.id.anchor, c.terms.roundIndex - 1)
  }

  lemma FilledRoundExists(w: World, s: Sealed, r: int) returns (d: CircleState)
    requires Structured(w) && r > 2 && PreviousRoundError(s, w.shares, r) == None && |s.order| >= 3 && Distinct(s.order)
    ensures d in w.circles && RotationRound(d.terms) && d.id == RoundOf(s.anchor.id, r - 1)
  {
    hide Structured, Collectors;
    var collector := CollectorOf(s.Cy(), w.shares, r - 1).value;
    assert s.order[0] != s.order[1];
    var m := if s.order[0] != collector then s.order[0] else s.order[1];
    assert m in s.order && m in LockedMembers(w.shares, RoundOf(s.anchor.id, r - 1));
    var e :| e in w.shares && e.policy == ShareV2 && e.parent == RoundOf(s.anchor.id, r - 1) && e.lockedAt.Some?
        && e.buyer == m;
    d := RoundOfShare(w, e);
  }

  lemma AcceptedRoundHasPrevious(w: World, id: Id, who: Pubkey, p: CirclePayload, sim: bool)
    requires Good(w) && CircleCreateError(p, id, who, w.now, Some(w.View()), sim) == None
    ensures HasPrevious(w.circles, NewCircle(w, id, who, p))
  {
    if RotationRound(p.terms) && p.terms.roundIndex > 2 {
      hide SealedOrder, Good, CircleCreateError, Structured, PreviousRoundError;
      GoodIsStructured(w);
      var s := AcceptedRoundFacts(w, id, who, p, sim);
      SealedOrderIsDistinct(s.anchor, w.shares);
      var d := FilledRoundExists(w, s, p.terms.roundIndex);
    }
  }

  lemma {:induction false} RoundsHavePrevious(start: int, evs: seq<Event>)
    ensures forall c :: c in Replay(Genesis(start), evs).circles ==> HasPrevious(Replay(Genesis(start), evs).circles, c)
  {
    if evs != [] {
      hide CircleCreateError, ShareCreateError, Good, Step;
      var w, ev := Replay(Genesis(start), evs[..|evs| - 1]), evs[|evs| - 1];
      RoundsHavePrevious(start, evs[..|evs| - 1]);
      EveryRunIsGood(start, evs[..|evs| - 1]);
      StepKeepsPrevious(w, ev);
    }
  }

  lemma StepKeepsPrevious(w: World, ev: Event)
    requires Good(w) && forall c :: c in w.circles ==> HasPrevious(w.circles, c)
    ensures forall c :: c in Step(w, ev).circles ==> HasPrevious(Step(w, ev).circles, c)
  {
    hide CircleCreateError, ShareCreateError, Good;
    if ev.OpenCircle? && Step(w, ev) != w {
      AcceptedRoundHasPrevious(w, ev.id, ev.who, ev.circle, ev.sim);
      var n := NewCircle(w, ev.id, ev.who, ev.circle);
      forall c | c in w.circles + [n]
        ensures HasPrevious(w.circles + [n], c)
      {
        assert HasPrevious(w.circles, c);
        MoreCircles(w.circles, n, c);
      }
    }
  }

  lemma MoreCircles(circles: seq<CircleState>, n: CircleState, c: CircleState)
    requires HasPrevious(circles, c)
    ensures HasPrevious(circles + [n], c)
  {
    if RotationRound(c.terms) && c.terms.roundIndex > 2 {
      var d :| d in circles && RotationRound(d.terms) && c.id.RoundOf?
          && d.id == RoundOf(c.id.anchor, c.terms.roundIndex - 1);
      assert d in circles + [n];
    }
  }

  lemma OneHopBack(w: World, c: CircleState, a: CircleState) returns (d: CircleState)
    requires Structured(w) && RotationRound(c.terms) && LinkedBack(c) && HasPrevious(w.circles, c)
    requires forall x :: x in w.circles ==> LinkedBack(x)
    requires a in w.circles && CanAnchor(a, None) && c.id == RoundOf(a.id, c.terms.roundIndex)
    ensures d in w.circles && FindCircle(w.circles, d.id) == Some(d) && c.terms.prev == Some(d.id)
    ensures d.terms.roundIndex == c.terms.roundIndex - 1
    ensures if c.terms.roundIndex == 2 then d == a
            else RotationRound(d.terms) && d.id == RoundOf(a.id, c.terms.roundIndex - 1)
  {
    hide Lawful, Structured;
    if c.terms.roundIndex == 2 {
      d := a;
    } else {
      d :| d in w.circles && RotationRound(d.terms) && d.id == RoundOf(a.id, c.terms.roundIndex - 1);
    }
    assert c.terms.roundIndex > 2 ==> LinkedBack(d);
    FindUniqueIn(w, d);
  }

  /** Walking back from a round reaches its anchor in one hop per round, and not with fewer. */
  lemma {:induction false} WalkReachesAnchor(w: World, c: CircleState, a: CircleState, hops: nat)
    requires Structured(w) && c in w.circles && RotationRound(c.terms)
    requires a in w.circles && CanAnchor(a, None) && c.id == RoundOf(a.id, c.terms.roundIndex)
    requires forall d :: d in w.circles ==> LinkedBack(d) && HasPrevious(w.circles, d)
    ensures WalkBack(w.View(), c.terms.prev, hops) == if c.terms.roundIndex - 1 <= hops then Some(a.id) else None
    decreases hops
  {
    hide Structured, HasPrevious, LinkedBack, FindCircle, CanAnchor;
    if hops > 0 {
      var d := OneHopBack(w, c, a);
      if c.terms.roundIndex > 2 {
        WalkReachesAnchor(w, d, a, hops - 1);
      }
    }
  }

  /** In every run, the screen of a collection round shows the sealed order, the round's one collector and, for
      every round to come, the collector the race has named so far; it shows them exactly up to round 65, where
      the walk gives up. */
  lemma ViewIsTrue(start: int, evs: seq<Event>, c: CircleState) returns (a: CircleState)
    requires c in Replay(Genesis(start), evs).circles && RotationRound(c.terms)
    ensures var w := Replay(Genesis(start), evs);
            var r := c.terms.roundIndex;
            var v := ViewOf(w.View(), c.id, r, c.terms.prev);
            && a in w.circles && c.id == RoundOf(a.id, r)
            && (v.Some? <==> r <= 65)
            && (v.Some? ==> && v.value.round1Id == a.id && v.value.order == SealedOrder(a, w.shares)
                            && v.value.totalRounds == |v.value.order| + 1
                            && v.value.collector.Some?
                            && v.value.collector == CollectorOf(CycleOf(a, w.shares), w.shares, r)
                            && |v.value.queue| == |v.value.order| + 1 - r
                            && forall i :: 0 <= i < |v.value.queue| ==>
                                 v.value.queue[i]
                                     == Slot(r + 1 + i, CollectorOf(CycleOf(a, w.shares), w.shares, r + 1 + i)))
  {
    hide Replay, Good, Structured, SealedOrder, Collectors, Lawful, WalkBack, LinkedBack, HasPrevious, CycleFrom;
    var w := Replay(Genesis(start), evs);
    EveryRunIsGood(start, evs);
    GoodIsStructured(w);
    RoundsStayLinked(start, evs);
    RoundsHavePrevious(start, evs);
    a := AnchorOfRound(w, c);
    RoundIsSealed(w, c, a);
    FindUniqueIn(w, a);
    WalkReachesAnchor(w, c, a, MAX_WALK);
    SameCycle(a, w.shares);
  }

  /** The screen of a first round shows the order so far, no collector, and who would collect each round to come. */
  lemma FirstViewIsTrue(w: World, c: CircleState, prev: Option<Id>)
    requires Structured(w) && c in w.circles
    ensures var v := ViewOf(w.View(), c.id, 1, prev);
            && v.Some? && v.value.round1Id == c.id && v.value.order == SealedOrder(c, w.shares)
            && v.value.totalRounds == |v.value.order| + 1 && v.value.collector == None
            && |v.value.queue| == |v.value.order|
            && forall i :: 0 <= i < |v.value.queue| ==>
                 v.value.queue[i] == Slot(2 + i, CollectorOf(CycleOf(c, w.shares), w.shares, 2 + i))
  {
    hide Structured, SealedOrder, Collectors, WalkBack, CycleFrom;
    FindUniqueIn(w, c);
    SameCycle(c, w.shares);
  }

  lemma SameCycle(a: CircleState, shares: seq<ShareState>)
    ensures CycleFrom(a.id, a.creator, shares) == CycleOf(a, shares)
  {
  }

  lemma RoundIsSealed(w: World, c: CircleState, a: CircleState)
    requires Good(w) && c in w.circles && RotationRound(c.terms) && AnchorOf(w.circles, c.id) == Some(a)
    ensures RoundSealed(c, a, w.shares)
  {
    hide Structured, Lawful, Collectors, SealedOrder;
  }
}
