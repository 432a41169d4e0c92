/** One client's watcher: a guarded pass that returns what is due, opens the next round, and votes the rotation. */
module Client {
  import opened Prelude
  import opened Circles
  import opened Rotation
  import opened Race
  import opened Gates
  import opened Writers
  import opened Chain
  import opened Finality
  import opened Protocol
  import opened Watcher
  import opened Sweep
  import opened Opener

  // ── What a whole pass does, as a function ──────────────────────────────────

  function SweepOf(w: World, me: Pubkey, net: Net, claimed: set<Id>): Pass
  {
    SweepCircles(w, me, net, Rows(w.shares, None, claimed), w.circles)
  }

  function WholePass(w: World, me: Pubkey, net: Net, claimed: set<Id>): Pass
  {
    var sweep := SweepOf(w, me, net, claimed);
    var rotation := RotationPass(sweep.world, me, net, w.shares);
    Pass(rotation.world, sweep.ballots + rotation.ballots)
  }

  function Openings(w: World, claimed: set<Id>, enabled: bool): seq<Id>
  {
    Collect(OpensIn(w, Rows(w.shares, None, claimed), enabled), w.circles)
  }

  // ── The watcher ────────────────────────────────────────────────────────────

  class RefundWatcher {
    const me: Pubkey
    const rotationEnabled: bool
    var running: bool
    var world: World
    var ballots: seq<Ballot>
    var attempts: seq<Id>

    constructor (me: Pubkey, world: World, rotationEnabled: bool)
      ensures this.me == me && this.world == world && this.rotationEnabled == rotationEnabled
      ensures !running && ballots == [] && attempts == []
    {
      this.me := me;
      this.world := world;
      this.rotationEnabled := rotationEnabled;
      running := false;
      ballots := [];
      attempts := [];
    }

    /** Tries one vote on the client's own vote path; it fails when refused or when publishing fails. */
    method Vote(e: ShareState, seat: Seat, outcome: Outcome, net: Net) returns (ok: bool)
      modifies this`world, this`ballots
      ensures ok <==> Lands(old(world), e, seat, outcome, net)
      ensures world == if ok then AfterBallot(old(world), Ballot(e.id, seat, outcome)) else old(world)
      ensures ballots == if ok then old(ballots) + [Ballot(e.id, seat, outcome)] else old(ballots)
    {
      ok := Lands(world, e, seat, outcome, net);
      if ok {
        world := AfterBallot(world, Ballot(e.id, seat, outcome));
        ballots := ballots + [Ballot(e.id, seat, outcome)];
      }
    }

    /** Walks the candidate outcomes of one rotation share and stops at the first that is admitted. */
    method VoteOn(e: ShareState, net: Net)
      modifies this`world, this`ballots
      ensures var b := BallotFor(old(world), me, net, e);
              && world == (if b.Some? then AfterBallot(old(world), b.value) else old(world))
              && ballots == (if b.Some? then old(ballots) + [b.value] else old(ballots))
    {
      hide Lands, AfterBallot;
      if !Eligible(e, me) {
        return;
      }
      var candidates, seat := Candidates(e.circle, world.now, e.parent in net.complete), MySeat(e, me).value;
      var i := 0;
      while i < |candidates|
        invariant 0 <= i <= |candidates|
        invariant world == old(world) && ballots == old(ballots)
        invariant FirstLanding(world, e, seat, candidates, net) == FirstLanding(world, e, seat, candidates[i..], net)
      {
        assert candidates[i..][1..] == candidates[i + 1..];
        var ok := Vote(e, seat, candidates[i], net);
        if ok {
          return;
        }
        i := i + 1;
      }
    }

    /** Votes refund on every named share this client may still vote on. */
    method ReturnShares(ids: seq<Id>, net: Net)
      modifies this`world, this`ballots
      ensures world == SweepIds(old(world), me, net, ids).world
      ensures ballots == old(ballots) + SweepIds(old(world), me, net, ids).ballots
    {
      hide AfterBallot, Lands;
      for k := 0 to |ids|
        invariant world == SweepIds(old(world), me, net, ids[..k]).world
        invariant ballots == old(ballots) + SweepIds(old(world), me, net, ids[..k]).ballots
      {
        assert ids[..k + 1][..k] == ids[..k];
        var e := FindShare(world.shares, ids[k]);
        if e.Some? && CanVote(e.value, me) {
          var ok := Vote(e.value, MySeat(e.value, me).value, Refund, net);
        }
      }
      assert ids[..|ids|] == ids;
    }

    method VoteRotation(snapshot: seq<ShareState>, net: Net)
      modifies this`world, this`ballots
      ensures world == RotationPass(old(world), me, net, snapshot).world
      ensures ballots == old(ballots) + RotationPass(old(world), me, net, snapshot).ballots
    {
      hide BallotFor, AfterBallot;
      for k := 0 to |snapshot|
        invariant world == RotationPass(old(world), me, net, snapshot[..k]).world
        invariant ballots == old(ballots) + RotationPass(old(world), me, net, snapshot[..k]).ballots
      {
        assert snapshot[..k + 1][..k] == snapshot[..k];
        VoteOn(snapshot[k], net);
      }
      assert snapshot[..|snapshot|] == snapshot;
    }

    /** Goes over the circles in view: returns what is due and records which successors it tries to open. */
    method TendCircles(net: Net, rows: seq<SeatLock>)
      modifies this`world, this`ballots, this`attempts
      ensures world == SweepCircles(old(world), me, net, rows, old(world).circles).world
      ensures ballots == old(ballots) + SweepCircles(old(world), me, net, rows, old(world).circles).ballots
      ensures attempts == old(attempts) + Collect(OpensIn(old(world), rows, rotationEnabled), old(world).circles)
    {
      hide SweepIds, Opens, DueBack;
      var w := world;
      for k := 0 to |w.circles|
        invariant world == SweepCircles(w, me, net, rows, w.circles[..k]).world
        invariant ballots == old(ballots) + SweepCircles(w, me, net, rows, w.circles[..k]).ballots
        invariant attempts == old(attempts) + Collect(OpensIn(w, rows, rotationEnabled), w.circles[..k])
      {
        var c := w.circles[k];
        assert w.circles[..k + 1][..k] == w.circles[..k];
        if c.id in net.complete || w.now >= c.terms.roundEnd {
          if !RotationRound(c.terms) {
            ReturnShares(DueBack(c, rows, w.now), net);
          }
          if Opens(w, c, rows, rotationEnabled) {
            attempts := attempts + [c.id];
          }
        } else {
          NothingToOpen(w, c, rows, rotationEnabled);
        }
      }
      assert w.circles[..|w.circles|] == w.circles;
    }

    /** One pass. A pass already under way makes the call do nothing. */
    method Run(net: Net, claimed: set<Id>)
      modifies this
      ensures running == old(running)
      ensures old(running) ==> world == old(world) && ballots == old(ballots) && attempts == old(attempts)
      ensures !old(running) ==>
                var p := WholePass(old(world), me, net, claimed);
                && world == p.world && ballots == old(ballots) + p.ballots
                && attempts == old(attempts) + Openings(old(world), claimed, rotationEnabled)
    {
      hide SweepCircles, RotationPass, Opens;
      if running {
        return;
      }
      running := true;
      var snapshot := world;
      var rows := SharesForCircle(snapshot.shares, None, claimed);
      TendCircles(net, rows);
      VoteRotation(snapshot.shares, net);
      running := false;
    }
  }

  lemma NothingToOpen(w: World, c: CircleState, rows: seq<SeatLock>, enabled: bool)
    requires w.now < c.terms.roundEnd
    ensures !Opens(w, c, rows, enabled)
  {
  }

  // ── The whole pass ─────────────────────────────────────────────────────────

  lemma SweepBallotKeepsGood(w: World, me: Pubkey, net: Net, id: Id)
    requires Good(w) && SweepBallot(w, me, net, id).Some?
    ensures Good(AfterBallot(w, SweepBallot(w, me, net, id).value))
  {
    hide Good, Step;
    var b := SweepBallot(w, me, net, id).value;
    StepKeepsGood(w, CastVote(b.id, b.seat, b.outcome, None));
  }

  /** The rotation shares are as they were: votes on other shares do not touch them. */
  ghost predicate RotationUntouched(v: World, w: World)
  {
    && |v.shares| == |w.shares|
    && forall i :: 0 <= i < |v.shares| && v.shares[i].policy == ShareV2 ==> w.shares[i] == v.shares[i]
  }

  ghost predicate NamesNoRotation(shares: seq<ShareState>, ids: seq<Id>)
  {
    forall i :: 0 <= i < |shares| && shares[i].policy == ShareV2 ==> shares[i].id !in ids
  }

  lemma UntouchedTwice(u: World, v: World, w: World)
    requires RotationUntouched(u, v) && RotationUntouched(v, w)
    ensures RotationUntouched(u, w)
  {
  }

  lemma {:induction false} SweepIdsKeep(w: World, me: Pubkey, net: Net, ids: seq<Id>)
    requires Good(w) && NamesNoRotation(w.shares, ids)
    ensures Good(SweepIds(w, me, net, ids).world) && RotationUntouched(w, SweepIds(w, me, net, ids).world)
  {
    if ids != [] {
      hide Good, AfterBallot, CanVote, Lands;
      var n := |ids| - 1;
      SweepIdsKeep(w, me, net, ids[..n]);
      var before := SweepIds(w, me, net, ids[..n]);
      var b := SweepBallot(before.world, me, net, ids[n]);
      if b.Some? {
        SweepBallotKeepsGood(before.world, me, net, ids[n]);
        BallotChangesVotesOnly(before.world, b.value);
      }
    }
  }

  lemma SweepOnlyVotes(w: World, me: Pubkey, net: Net, claimed: set<Id>, n: nat)
    requires Structured(w) && n <= |w.circles|
    ensures OnlyVotesDiffer(w, SweepCircles(w, me, net, Rows(w.shares, None, claimed), w.circles[..n]).world)
  {
    hide Returns, CanVote, PlainReturn, SweepCircles, OnlyVotesDiffer;
    SweepSettles(w, me, net, claimed, n);
  }

  lemma {:induction false} SweepKeeps(w: World, me: Pubkey, net: Net, claimed: set<Id>, n: nat)
    requires Good(w) && n <= |w.circles|
    ensures var x := SweepCircles(w, me, net, Rows(w.shares, None, claimed), w.circles[..n]).world;
            Good(x) && RotationUntouched(w, x)
  {
    if n == 0 {
      hide Good;
    } else {
      hide Good, Rows, DueBack, SweepIds, Structured, NamesNoRotation, OnlyVotesDiffer, RotationUntouched;
      SweepKeeps(w, me, net, claimed, n - 1);
      assert w.circles[..n][..n - 1] == w.circles[..n - 1];
      var before := SweepCircles(w, me, net, Rows(w.shares, None, claimed), w.circles[..n - 1]);
      GoodIsStructured(w);
      SweepOnlyVotes(w, me, net, claimed, n - 1);
      if Swept(w.circles[n - 1], net, w.now) {
        DueBackNamesNoRotation(w, w.circles[n - 1], net, claimed);
        NamesNoRotationElsewhere(w, before.world, DueBack(w.circles[n - 1], Rows(w.shares, None, claimed), w.now));
        var ids := DueBack(w.circles[n - 1], Rows(w.shares, None, claimed), w.now);
        SweepIdsKeep(before.world, me, net, ids);
        UntouchedTwice(w, before.world, SweepIds(before.world, me, net, ids).world);
      }
    }
  }

  lemma NamesNoRotationElsewhere(w: World, x: World, ids: seq<Id>)
    requires OnlyVotesDiffer(w, x) && NamesNoRotation(w.shares, ids)
    ensures NamesNoRotation(x.shares, ids)
  {
    forall i | 0 <= i < |x.shares| && x.shares[i].policy == ShareV2
      ensures x.shares[i].id !in ids
    {
      assert SansVotes(w.shares[i]) == SansVotes(x.shares[i]);
    }
  }

  lemma DueBackNamesNoRotation(w: World, c: CircleState, net: Net, claimed: set<Id>)
    requires Structured(w) && c in w.circles && Swept(c, net, w.now)
    ensures NamesNoRotation(w.shares, DueBack(c, Rows(w.shares, None, claimed), w.now))
  {
    hide Rows, DueBack, StatusOf;
    FindUnique(w.circles, c);
    forall i | 0 <= i < |w.shares| && w.shares[i].id in DueBack(c, Rows(w.shares, None, claimed), w.now)
      ensures w.shares[i].policy != ShareV2
    {
      DueBackIds(w, c, claimed, w.shares[i].id);
      var e :| e in w.shares && e.id == w.shares[i].id && OwedTo(e, c, claimed);
      assert ShareFits(e, w.circles, w.now);
    }
  }

  /** A stale snapshot of the other shares makes no difference to the rotation pass. */
  lemma {:induction false} SnapshotIsFresh(x: World, me: Pubkey, net: Net, u: seq<ShareState>, v: seq<ShareState>)
    requires |u| == |v|
    requires forall i :: 0 <= i < |u| ==> u[i] == v[i] || (u[i].policy == ShareV1 && v[i].policy == ShareV1)
    ensures RotationPass(x, me, net, u) == RotationPass(x, me, net, v)
  {
    if u != [] {
      hide AfterBallot, FirstLanding;
      SnapshotIsFresh(x, me, net, u[..|u| - 1], v[..|v| - 1]);
    }
  }

  /** The whole pass in any run. The sweep's refunds are those of SweepIsRight; after them, the rotation votes
      are exact: lawful, one per share, and none missed that the law makes due. */
  lemma WholePassIsExact(start: int, evs: seq<Event>, me: Pubkey, net: Net, claimed: set<Id>)
    ensures var w := Replay(Genesis(start), evs);
            var sweep := SweepOf(w, me, net, claimed);
            var p := WholePass(w, me, net, claimed);
            && OnlyVotesDiffer(w, sweep.world) && RotationUntouched(w, sweep.world)
            && sweep.ballots <= p.ballots && Good(p.world)
            && Exact(sweep.world, me, net, |sweep.world.shares|, p.ballots[|sweep.ballots|..])
  {
    hide Replay, Good, RotationPass, Rows, Exact, SweepCircles;
    var w := Replay(Genesis(start), evs);
    EveryRunIsGood(start, evs);
    GoodIsStructured(w);
    var sweep := SweepOf(w, me, net, claimed);
    var x := sweep.world;
    assert w.circles[..|w.circles|] == w.circles;
    SweepSettles(w, me, net, claimed, |w.circles|);
    SweepKeeps(w, me, net, claimed, |w.circles|);
    forall i | 0 <= i < |w.shares|
      ensures w.shares[i] == x.shares[i] || (w.shares[i].policy == ShareV1 && x.shares[i].policy == ShareV1)
    {
      assert SansVotes(w.shares[i]) == SansVotes(x.shares[i]);
    }
    SnapshotIsFresh(x, me, net, w.shares, x.shares);
    PassIsExact(x, me, net, |x.shares|);
    assert x.shares[..|x.shares|] == x.shares;
    var p := WholePass(w, me, net, claimed);
    assert p.ballots[|sweep.ballots|..] == RotationPass(x, me, net, x.shares).ballots;
  }

  /** Which rounds a pass tries to continue: all that await their successor and no other, if openings are enabled. */
  lemma OpeningsExactly(w: World, claimed: set<Id>, enabled: bool, c: CircleState)
    requires Structured(w) && c in w.circles
    ensures c.id in Openings(w, claimed, enabled) <==> enabled && Awaits(w, c)
  {
    hide Structured, Rows, Opens, Awaits;
    var f := OpensIn(w, Rows(w.shares, None, claimed), enabled);
    CollectMembers(f, w.circles);
    TriesExactly(w, c, claimed, enabled);
    FindUnique(w.circles, c) by { UniqueRounds(w); }
    if c.id in Openings(w, claimed, enabled) {
      var d :| d in w.circles && f(d) == Some(c.id);
      FindUnique(w.circles, d) by { UniqueRounds(w); }
    } else {
      assert f(c) != Some(c.id);
    }
  }

  lemma UniqueRounds(w: World)
    requires Structured(w)
    ensures UniqueCircles(w.circles)
  {
  }
}
