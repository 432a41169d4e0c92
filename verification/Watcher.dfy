/** The watcher's law for rotation shares: which vote a pass casts on each, and why it is the lawful one. */
module Watcher {
  import opened Prelude
  import opened Circles
  import opened Rotation
  import opened Race
  import opened Gates
  import opened Writers
  import opened Chain
  import opened Finality
  import opened Protocol

  datatype Ballot = Ballot(id: Id, seat: Seat, outcome: Outcome)

  /** What the network grants a pass: the circles whose refresh completed, and the ballots it fails to publish. */
  datatype Net = Net(complete: set<Id>, lost: set<Ballot>)

  // ── Votes on rotation shares ───────────────────────────────────────────────

  function MySeat(e: ShareState, me: Pubkey): Option<Seat>
  {
    if e.buyer == me then Some(BuyerSeat) else if e.seller == me then Some(SellerSeat) else None
  }

  /** The client holds a principal's seat on a locked, unresolved share and has not voted on it. */
  predicate CanVote(e: ShareState, me: Pubkey)
  {
    e.resolved.None? && e.lockedAt.Some? && MySeat(e, me).Some? && VoteOf(e, MySeat(e, me).value).None?
  }

  predicate Eligible(e: ShareState, me: Pubkey) { e.policy == ShareV2 && CanVote(e, me) }

  /** A client may vote on a locked, unresolved share: as its buyer when the buyer has not voted, and otherwise as its
      seller when the seller has not; the rotation pass keeps to rotation shares. */
  lemma VotesExactly(e: ShareState, me: Pubkey)
    ensures CanVote(e, me)
            <==> && e.lockedAt.Some? && e.resolved.None?
                 && if e.buyer == me then e.buyerVote.None? else e.seller == me && e.sellerVote.None?
    ensures CanVote(e, me) ==> MySeat(e, me) == Some(if e.buyer == me then BuyerSeat else SellerSeat)
    ensures Eligible(e, me) <==> e.policy == ShareV2 && CanVote(e, me)
  {
  }

  /** The outcomes to try, in order. Before the round ends only a completed view may claim a failed fill. */
  function Candidates(t: Terms, now: int, viewComplete: bool): seq<Outcome>
  {
    if now >= t.roundEnd + COLLECT_WINDOW_SEC then [Refund]
    else if now >= t.roundEnd then [Release, Refund]
    else if now >= t.fillDeadline && viewComplete then [Refund]
    else []
  }

  /** A release is tried in the week after the round's end, before anything else; a refund from that end on, and from
      the fill deadline on in a completed view. */
  lemma CandidatesByTheClock(t: Terms, now: int, viewComplete: bool)
    requires t.fillDeadline < t.roundEnd
    ensures var c := Candidates(t, now, viewComplete);
            && (Release in c <==> t.roundEnd <= now < t.roundEnd + 7 * 86_400)
            && (Refund in c <==> now >= t.roundEnd || (now >= t.fillDeadline && viewComplete))
            && (|c| > 1 ==> c == [Release, Refund])
  {
  }

  /** The client's own vote path: it signs only what its evidence justifies. */
  predicate Admits(w: World, e: ShareState, o: Outcome)
  {
    OutcomeError(e, o, w.now, Some(w.View()), Intent, None) == None
  }

  /** The vote is admitted and its publication goes through. */
  predicate Lands(w: World, e: ShareState, seat: Seat, o: Outcome, net: Net)
  {
    Admits(w, e, o) && Ballot(e.id, seat, o) !in net.lost
  }

  function FirstLanding(w: World, e: ShareState, seat: Seat, candidates: seq<Outcome>, net: Net): Option<Outcome>
  {
    if candidates == [] then None
    else if Lands(w, e, seat, candidates[0], net) then Some(candidates[0])
    else FirstLanding(w, e, seat, candidates[1..], net)
  }

  function BallotFor(w: World, me: Pubkey, net: Net, e: ShareState): Option<Ballot>
  {
    if !Eligible(e, me) then None
    else
      var o := FirstLanding(w, e, MySeat(e, me).value, Candidates(e.circle, w.now, e.parent in net.complete), net);
      if o.None? then None else Some(Ballot(e.id, MySeat(e, me).value, o.value))
  }

  function AfterBallot(w: World, b: Ballot): World
  {
    Step(w, CastVote(b.id, b.seat, b.outcome, None))
  }

  datatype Pass = Pass(world: World, ballots: seq<Ballot>)

  /** One pass over a snapshot of the shares, each vote landing before the next is considered. */
  function RotationPass(w: World, me: Pubkey, net: Net, snapshot: seq<ShareState>): Pass
  {
    if snapshot == [] then Pass(w, [])
    else
      var n := |snapshot| - 1;
      var before := RotationPass(w, me, net, snapshot[..n]);
      var b := BallotFor(before.world, me, net, snapshot[n]);
      if b.None? then before else Pass(AfterBallot(before.world, b.value), before.ballots + [b.value])
  }

  // ── What a pass does ───────────────────────────────────────────────────────

  function SansVotes(e: ShareState): ShareState
  {
    e.(buyerVote := None, sellerVote := None, arbiterVote := None)
  }

  ghost predicate OnlyVotesDiffer(v: World, w: World)
  {
    && v.now == w.now && v.circles == w.circles && |v.shares| == |w.shares|
    && forall i :: 0 <= i < |v.shares| ==> SansVotes(v.shares[i]) == SansVotes(w.shares[i])
  }

  lemma {:induction false} SameEvidence(u: seq<ShareState>, v: seq<ShareState>, roundId: Id)
    requires |u| == |v| && forall i :: 0 <= i < |u| ==> SansVotes(u[i]) == SansVotes(v[i])
    ensures EvidenceOf(roundId, u) == EvidenceOf(roundId, v)
  {
    if u != [] {
      var n := |u| - 1;
      SameEvidence(u[..n], v[..n], roundId);
      assert SansVotes(u[n]) == SansVotes(v[n]);
    }
  }

  lemma BallotChangesVotesOnly(w: World, b: Ballot)
    ensures OnlyVotesDiffer(w, AfterBallot(w, b))
    ensures forall i :: 0 <= i < |w.shares| && w.shares[i].id != b.id ==> AfterBallot(w, b).shares[i] == w.shares[i]
  {
  }

  /** A share's candidates reach its lawful outcome, and only that one is admitted. */
  lemma BallotIsLawful(w: World, me: Pubkey, net: Net, e: ShareState)
    requires Good(w) && e in w.shares && Eligible(e, me)
    ensures var b, lawful := BallotFor(w, me, net, e), LawfulOutcome(e, w.View(), w.now);
            && (b.Some? ==>
                  b.value.id == e.id && MySeat(e, me) == Some(b.value.seat) && lawful == Owes(b.value.outcome))
            && (b.Some? <==> Due(w, me, net, e))
  {
    hide Placed, OutcomeError, EvidenceOf, Good, Structured, Lawful;
    SharesArePlaced(w, e);
    NoDiscretion(e, w.View(), w.now);
    GoodIsStructured(w);
    RoundEndsAfterFill(w, e);
    var candidates, seat := Candidates(e.circle, w.now, e.parent in net.complete), MySeat(e, me).value;
    if |candidates| == 2 {
      assert candidates[1..] == [Refund];
      assert FirstLanding(w, e, seat, candidates, net)
          == if Lands(w, e, seat, Release, net) then Some(Release) else FirstLanding(w, e, seat, [Refund], net);
    }
    assert FirstLanding(w, e, seat, [Refund], net) == if Lands(w, e, seat, Refund, net) then Some(Refund) else None;
  }

  function Owes(o: Outcome): RoundOutcome { if o == Release then MustRelease else MustRefund }

  /** The law names an outcome for this share now, the client may vote for it, and the vote can be published. */
  predicate Due(w: World, me: Pubkey, net: Net, e: ShareState)
  {
    && Eligible(e, me) && (w.now >= e.circle.roundEnd || e.parent in net.complete)
    && var lawful := LawfulOutcome(e, w.View(), w.now);
       lawful != Nothing
           && Ballot(e.id, MySeat(e, me).value, if lawful == MustRelease then Release else Refund) !in net.lost
  }

  /** Ballot b is this client's lawful vote on share i, and due. */
  ghost predicate CastOn(w: World, me: Pubkey, net: Net, b: Ballot, i: nat)
  {
    && i < |w.shares| && w.shares[i].id == b.id && Due(w, me, net, w.shares[i])
    && MySeat(w.shares[i], me) == Some(b.seat)
    && LawfulOutcome(w.shares[i], w.View(), w.now) == Owes(b.outcome)
  }

  /** Ballot b is a lawful vote on one of the first n shares. */
  ghost predicate Backed(w: World, me: Pubkey, net: Net, b: Ballot, n: nat)
  {
    exists i: nat :: i < n && CastOn(w, me, net, b, i)
  }

  predicate VotedOn(ballots: seq<Ballot>, id: Id) { exists j :: 0 <= j < |ballots| && ballots[j].id == id }

  /** The ballots cast over the first n shares: lawful, complete, and no two on one share. */
  ghost predicate Exact(w: World, me: Pubkey, net: Net, n: nat, ballots: seq<Ballot>)
    requires n <= |w.shares|
  {
    && (forall j :: 0 <= j < |ballots| ==> Backed(w, me, net, ballots[j], n))
    && (forall i :: 0 <= i < n && Due(w, me, net, w.shares[i]) ==> VotedOn(ballots, w.shares[i].id))
    && (forall j, k :: 0 <= j < k < |ballots| ==> ballots[j].id != ballots[k].id)
  }

  /** What a pass over the first n shares has done. */
  ghost predicate PassedTo(w: World, me: Pubkey, net: Net, n: nat, p: Pass)
    requires n <= |w.shares|
  {
    && Good(p.world) && OnlyVotesDiffer(w, p.world)
    && (forall i :: n <= i < |w.shares| ==> p.world.shares[i] == w.shares[i])
    && (forall i :: 0 <= i < |w.shares| && !VotedOn(p.ballots, w.shares[i].id) ==> p.world.shares[i] == w.shares[i])
    && Exact(w, me, net, n, p.ballots)
  }

  /** With the whole cycle in view, a pass casts at most one vote per share, every vote it casts is the unique
      lawful outcome at that moment, and no lawful outcome it may vote for is missed. */
  lemma {:induction false} PassIsExact(w: World, me: Pubkey, net: Net, n: nat)
    requires Good(w) && n <= |w.shares|
    ensures PassedTo(w, me, net, n, RotationPass(w, me, net, w.shares[..n]))
  {
    if n == 0 {
      hide Good;
    } else {
      hide Good, PassedTo, BallotFor, AfterBallot;
      PassIsExact(w, me, net, n - 1);
      assert w.shares[..n][..n - 1] == w.shares[..n - 1];
      OneMoreShare(w, me, net, n, RotationPass(w, me, net, w.shares[..n - 1]));
    }
  }

  lemma OneMoreShare(w: World, me: Pubkey, net: Net, n: nat, before: Pass)
    requires Good(w) && 0 < n <= |w.shares| && PassedTo(w, me, net, n - 1, before)
    ensures var b := BallotFor(before.world, me, net, w.shares[n - 1]);
            PassedTo(w, me, net, n, if b.None? then before
                     else Pass(AfterBallot(before.world, b.value), before.ballots + [b.value]))
  {
    hide Good, BallotFor, LawfulOutcome, AfterBallot, Eligible, Due, Exact;
    var e := w.shares[n - 1];
    assert before.world.shares[n - 1] == e && e in before.world.shares;
    NextBallot(w, before.world, me, net, e);
    var b := BallotFor(before.world, me, net, e);
    GoodIsStructured(w);
    if b.Some? {
      StepKeepsGoodBallot(before.world, b.value);
      BallotChangesVotesOnly(before.world, b.value);
      OtherVotesStand(before.ballots, b.value);
      assert forall i :: 0 <= i < n - 1 ==> w.shares[i].id != e.id;
      assert forall i :: n <= i < |w.shares| ==> w.shares[i].id != e.id;
      ExactGrows(w, me, net, n, before.ballots, b.value);
    } else {
      ExactSkips(w, me, net, n, before.ballots);
    }
  }

  lemma OtherVotesStand(ballots: seq<Ballot>, b: Ballot)
    ensures forall id :: VotedOn(ballots + [b], id) <==> VotedOn(ballots, id) || id == b.id
  {
    forall id
      ensures VotedOn(ballots + [b], id) <==> VotedOn(ballots, id) || id == b.id
    {
      if VotedOn(ballots, id) {
        var j :| 0 <= j < |ballots| && ballots[j].id == id;
        assert (ballots + [b])[j].id == id;
      }
      assert (ballots + [b])[|ballots|] == b;
    }
  }

  lemma StepKeepsGoodBallot(w: World, b: Ballot)
    requires Good(w)
    ensures Good(AfterBallot(w, b))
  {
    StepKeepsGood(w, CastVote(b.id, b.seat, b.outcome, None));
  }

  /** The decision on the next share is the same as if no earlier vote of this pass had landed. */
  lemma NextBallot(w: World, x: World, me: Pubkey, net: Net, e: ShareState)
    requires Good(x) && OnlyVotesDiffer(w, x) && e in x.shares
    ensures var b, lawful := BallotFor(x, me, net, e), LawfulOutcome(e, w.View(), w.now);
            && (b.Some? ==> Eligible(e, me) && b.value.id == e.id && MySeat(e, me) == Some(b.value.seat)
                            && lawful == Owes(b.value.outcome))
            && (b.Some? <==> Due(w, me, net, e))
  {
    SameEvidence(w.shares, x.shares, e.parent);
    if Eligible(e, me) {
      BallotIsLawful(x, me, net, e);
    }
  }

  lemma ExactSkips(w: World, me: Pubkey, net: Net, n: nat, ballots: seq<Ballot>)
    requires 0 < n <= |w.shares| && Exact(w, me, net, n - 1, ballots) && !Due(w, me, net, w.shares[n - 1])
    ensures Exact(w, me, net, n, ballots)
  {
    hide CastOn, Due;
    forall j | 0 <= j < |ballots|
      ensures Backed(w, me, net, ballots[j], n)
    {
      assert Backed(w, me, net, ballots[j], n - 1);
    }
  }

  lemma ExactGrows(w: World, me: Pubkey, net: Net, n: nat, ballots: seq<Ballot>, b: Ballot)
    requires 0 < n <= |w.shares| && Exact(w, me, net, n - 1, ballots) && CastOn(w, me, net, b, n - 1)
    requires forall i :: 0 <= i < n - 1 ==> w.shares[i].id != w.shares[n - 1].id
    ensures Exact(w, me, net, n, ballots + [b])
  {
    hide LawfulOutcome, Eligible, Due;
    var all := ballots + [b];
    forall j | 0 <= j < |all|
      ensures Backed(w, me, net, all[j], n)
    {
      if j < |ballots| {
        assert Backed(w, me, net, ballots[j], n - 1);
      } else {
        assert CastOn(w, me, net, all[j], n - 1);
      }
    }
    forall i | 0 <= i < n && Due(w, me, net, w.shares[i])
      ensures VotedOn(all, w.shares[i].id)
    {
      if i < n - 1 {
        assert VotedOn(ballots, w.shares[i].id);
        var j :| 0 <= j < |ballots| && ballots[j].id == w.shares[i].id;
        assert all[j].id == w.shares[i].id;
      } else {
        assert all[|ballots|].id == w.shares[i].id;
      }
    }
    forall j | 0 <= j < |ballots|
      ensures ballots[j].id != b.id
    {
      assert Backed(w, me, net, ballots[j], n - 1);
    }
  }

  /** The share's round filled and its payday has not lapsed. */
  predicate InPayday(w: World, e: ShareState)
  {
    |EvidenceOf(e.parent, w.shares)| >= e.circle.seatThreshold > 0 && w.now < e.circle.roundEnd + 7 * 86_400
  }

  /** While a filled round's payday has not lapsed, a ballot on its share releases, and not before its end. */
  predicate KeepsPayday(w: World, e: ShareState, b: Ballot)
  {
    InPayday(w, e) ==> b.outcome == Release && w.now >= e.circle.roundEnd
  }

  /** The watcher in any run: exact votes, one per share, and while the payday window is open a filled round
      gets nothing but releases, from its end on. */
  lemma WatcherIsExact(start: int, evs: seq<Event>, me: Pubkey, net: Net)
    ensures var w := Replay(Genesis(start), evs);
            var p := RotationPass(w, me, net, w.shares);
            && Exact(w, me, net, |w.shares|, p.ballots)
            && (forall j, i :: 0 <= j < |p.ballots| && 0 <= i < |w.shares| && w.shares[i].id == p.ballots[j].id
                               ==> KeepsPayday(w, w.shares[i], p.ballots[j]))
  {
    hide Replay, Good, RotationPass, EvidenceOf;
    var w := Replay(Genesis(start), evs);
    EveryRunIsGood(start, evs);
    PassIsExact(w, me, net, |w.shares|);
    assert w.shares[..|w.shares|] == w.shares;
    GoodIsStructured(w);
    var p := RotationPass(w, me, net, w.shares);
    forall j, i | 0 <= j < |p.ballots| && 0 <= i < |w.shares| && w.shares[i].id == p.ballots[j].id
      ensures KeepsPayday(w, w.shares[i], p.ballots[j])
    {
      assert Backed(w, me, net, p.ballots[j], |w.shares|);
      var k: nat :| k < |w.shares| && CastOn(w, me, net, p.ballots[j], k);
      assert k == i;
    }
  }

  /** No vote is lost for good: whatever a pass fails to publish, the next pass that can publish makes up for. */
  lemma LostVotesAreRetried(start: int, evs: seq<Event>, me: Pubkey, net: Net, i: nat)
    requires i < |Replay(Genesis(start), evs).shares|
    requires Due(Replay(Genesis(start), evs), me, net.(lost := {}), Replay(Genesis(start), evs).shares[i])
    ensures var w := Replay(Genesis(start), evs);
            var p := RotationPass(w, me, net, w.shares);
            var q := RotationPass(p.world, me, net.(lost := {}), p.world.shares);
            VotedOn(p.ballots, w.shares[i].id) || VotedOn(q.ballots, w.shares[i].id)
  {
    hide Replay, Good, RotationPass, EvidenceOf, Exact, Eligible;
    var w := Replay(Genesis(start), evs);
    EveryRunIsGood(start, evs);
    PassIsExact(w, me, net, |w.shares|);
    assert w.shares[..|w.shares|] == w.shares;
    var x := RotationPass(w, me, net, w.shares).world;
    PassIsExact(x, me, net.(lost := {}), |x.shares|);
    assert x.shares[..|x.shares|] == x.shares;
    SameEvidence(w.shares, x.shares, w.shares[i].parent);
    ExactVotesOnDue(x, me, net.(lost := {}), RotationPass(x, me, net.(lost := {}), x.shares).ballots, i);
    assert SansVotes(w.shares[i]) == SansVotes(x.shares[i]);
  }

  lemma ExactVotesOnDue(w: World, me: Pubkey, net: Net, ballots: seq<Ballot>, i: nat)
    requires i < |w.shares| && Exact(w, me, net, |w.shares|, ballots)
    ensures Due(w, me, net, w.shares[i]) ==> VotedOn(ballots, w.shares[i].id)
  {
  }

  // ── One vote per share, over any number of passes ──────────────────────────

  lemma StepKeepsVotes(w: World, ev: Event, i: nat, seat: Seat)
    requires i < |w.shares| && VoteOf(w.shares[i], seat).Some?
    ensures i < |Step(w, ev).shares| && VoteOf(Step(w, ev).shares[i], seat) == VoteOf(w.shares[i], seat)
  {
  }

  lemma {:induction false} VotesStay(w: World, evs: seq<Event>, i: nat, seat: Seat)
    requires i < |w.shares| && VoteOf(w.shares[i], seat).Some?
    ensures i < |Replay(w, evs).shares| && VoteOf(Replay(w, evs).shares[i], seat) == VoteOf(w.shares[i], seat)
  {
    hide Step;
    if evs != [] {
      VotesStay(w, evs[..|evs| - 1], i, seat);
      StepKeepsVotes(Replay(w, evs[..|evs| - 1]), evs[|evs| - 1], i, seat);
    }
  }

  /** Ballot b stands on the chain, in the seat this client holds on that share. */
  ghost predicate Stands(w: World, me: Pubkey, b: Ballot)
  {
    exists i: nat :: StandsAt(w, me, b, i)
  }

  /** As the buyer this client votes in the buyer's seat, and otherwise, as the seller, in the seller's. */
  ghost predicate StandsAt(w: World, me: Pubkey, b: Ballot, i: nat)
  {
    && i < |w.shares| && w.shares[i].id == b.id
    && (w.shares[i].buyer == me ==> b.seat == BuyerSeat && w.shares[i].buyerVote == Some(b.outcome))
    && (w.shares[i].buyer != me ==>
          w.shares[i].seller == me && b.seat == SellerSeat && w.shares[i].sellerVote == Some(b.outcome))
  }

  lemma BallotLands(w: World, me: Pubkey, net: Net, e: ShareState)
    requires e in w.shares && UniqueShares(w.shares) && BallotFor(w, me, net, e).Some?
    ensures Stands(AfterBallot(w, BallotFor(w, me, net, e).value), me, BallotFor(w, me, net, e).value)
  {
    hide Admits, Candidates;
    var b := BallotFor(w, me, net, e).value;
    var i := ShareIndex(w.shares, b.id);
    assert w.shares[i] == e;
    assert StandsAt(AfterBallot(w, b), me, b, i);
  }

  lemma StandingBallotStays(w: World, evs: seq<Event>, me: Pubkey, b: Ballot)
    requires Stands(w, me, b)
    ensures Stands(Replay(w, evs), me, b)
  {
    hide Replay;
    var i: nat :| StandsAt(w, me, b, i);
    VotesStay(w, evs, i, b.seat);
    ReplayGrows(w, evs);
    assert SameSeat(w.shares[i], Replay(w, evs).shares[i]);
    assert StandsAt(Replay(w, evs), me, b, i);
  }

  /** Every vote of a pass stands when the pass is over. */
  lemma {:induction false} PassLands(w: World, me: Pubkey, net: Net, n: nat)
    requires Good(w) && n <= |w.shares|
    ensures var p := RotationPass(w, me, net, w.shares[..n]);
            forall j :: 0 <= j < |p.ballots| ==> Stands(p.world, me, p.ballots[j])
  {
    hide Good, BallotFor, AfterBallot, Exact, Stands;
    if n > 0 {
      PassLands(w, me, net, n - 1);
      PassIsExact(w, me, net, n - 1);
      assert w.shares[..n][..n - 1] == w.shares[..n - 1];
      var before := RotationPass(w, me, net, w.shares[..n - 1]);
      var e := w.shares[n - 1];
      assert before.world.shares[n - 1] == e && e in before.world.shares;
      var b := BallotFor(before.world, me, net, e);
      if b.Some? {
        GoodIsStructured(before.world);
        BallotLands(before.world, me, net, e);
        forall j | 0 <= j < |before.ballots|
          ensures Stands(AfterBallot(before.world, b.value), me, before.ballots[j])
        {
          LaterBallotKeeps(before.world, b.value, me, before.ballots[j]);
        }
      }
    }
  }

  lemma LaterBallotKeeps(w: World, b: Ballot, me: Pubkey, standing: Ballot)
    requires Stands(w, me, standing)
    ensures Stands(AfterBallot(w, b), me, standing)
  {
    hide Step;
    var evs := [CastVote(b.id, b.seat, b.outcome, None)];
    assert Replay(w, evs[..0]) == w;
    assert Replay(w, evs) == AfterBallot(w, b);
    StandingBallotStays(w, evs, me, standing);
  }

  /** A share voted on in one pass is never voted on again, whatever happens in between. */
  lemma NoSecondVote(start: int, past: seq<Event>, more: seq<Event>, me: Pubkey, net: Net, later: Net, j: nat, k: nat)
    requires var w := Replay(Genesis(start), past);
             var p := RotationPass(w, me, net, w.shares);
             var x := Replay(p.world, more);
             j < |p.ballots| && k < |RotationPass(x, me, later, x.shares).ballots|
    ensures var w := Replay(Genesis(start), past);
            var p := RotationPass(w, me, net, w.shares);
            var x := Replay(p.world, more);
            p.ballots[j].id != RotationPass(x, me, later, x.shares).ballots[k].id
  {
    hide Replay, Good, RotationPass, Stands;
    var w := Replay(Genesis(start), past);
    EveryRunIsGood(start, past);
    PassIsExact(w, me, net, |w.shares|);
    PassLands(w, me, net, |w.shares|);
    assert w.shares[..|w.shares|] == w.shares;
    var p := RotationPass(w, me, net, w.shares);
    var x := Replay(p.world, more);
    ReplayKeepsGood(p.world, more);
    StandingBallotStays(p.world, more, me, p.ballots[j]);
    PassIsExact(x, me, later, |x.shares|);
    assert x.shares[..|x.shares|] == x.shares;
    GoodIsStructured(x);
    NotBackedTwice(x, me, later, p.ballots[j], RotationPass(x, me, later, x.shares).ballots[k]);
  }

  lemma NotBackedTwice(x: World, me: Pubkey, net: Net, b: Ballot, c: Ballot)
    requires UniqueShares(x.shares) && Stands(x, me, b) && Backed(x, me, net, c, |x.shares|)
    ensures b.id != c.id
  {
    var i: nat :| StandsAt(x, me, b, i);
    var k: nat :| k < |x.shares| && CastOn(x, me, net, c, k);
  }
}
