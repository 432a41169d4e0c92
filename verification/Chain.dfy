/** Every run of the protocol: circles open, seats are taken, shares lock, votes and resolutions land, time passes.
    Each event is applied only if its gate admits it; refused events change nothing. */
module Chain {
  import opened Prelude
  import opened Circles
  import opened Rotation
  import opened Race
  import opened Gates
  import opened Writers

  // ── The transition system ──────────────────────────────────────────────────

  datatype World = World(now: int, circles: seq<CircleState>, shares: seq<ShareState>)
  {
    function View(): Context { Context(circles, shares) }
  }

  datatype Seat = BuyerSeat | SellerSeat | ArbiterSeat

  /** A resolution carries the time it claims to have happened at; its gate judges the time of the event itself. */
  datatype Event =
    | Tick(seconds: nat)
    | OpenCircle(id: Id, who: Pubkey, circle: CirclePayload, sim: bool)
    | TakeSeat(id: Id, who: Pubkey, share: SharePayload)
    | LockShare(id: Id)
    | CastVote(id: Id, seat: Seat, outcome: Outcome, evidence: Option<seq<Pubkey>>)
    | Resolve(id: Id, outcome: Outcome, evidence: Option<seq<Pubkey>>, stated: int)

  function ShareIndex(shares: seq<ShareState>, id: Id): (i: nat)
    ensures i <= |shares| && (i < |shares| ==> shares[i].id == id)
    ensures i == |shares| ==> forall k :: 0 <= k < |shares| ==> shares[k].id != id
  {
    if shares == [] then 0 else if shares[0].id == id then 0 else 1 + ShareIndex(shares[1..], id)
  }

  function FindShare(shares: seq<ShareState>, id: Id): Option<ShareState>
  {
    var i := ShareIndex(shares, id);
    if i < |shares| then Some(shares[i]) else None
  }

  predicate Taken(w: World, id: Id)
  {
    FindCircle(w.circles, id).Some? || FindShare(w.shares, id).Some?
  }

  function NewCircle(w: World, id: Id, who: Pubkey, p: CirclePayload): CircleState
  {
    CircleState(id, who, p.community, p.mint, p.fed, p.fedPrefix, p.pool, p.bonded, w.now, p.terms)
  }

  function NewShare(w: World, id: Id, who: Pubkey, p: SharePayload, parent: CircleState): ShareState
  {
    ShareState(id, p.policy, p.parent, who, p.seller, parent.terms, w.now, None, None, None, None, None)
  }

  function WitnessOf(w: World, p: SharePayload, parent: Option<CircleState>): Option<ShareState>
  {
    if parent.None? then None else FindShare(w.shares, ShareOf(p.parent, p.seller, parent.value.terms.roundIndex))
  }

  function VoteOf(e: ShareState, seat: Seat): Option<Outcome>
  {
    match seat
    case BuyerSeat => e.buyerVote
    case SellerSeat => e.sellerVote
    case ArbiterSeat => e.arbiterVote
  }

  function WithVote(e: ShareState, seat: Seat, o: Outcome): ShareState
  {
    match seat
    case BuyerSeat => e.(buyerVote := Some(o))
    case SellerSeat => e.(sellerVote := Some(o))
    case ArbiterSeat => e.(arbiterVote := Some(o))
  }

  function ObservedAs(seat: Seat): Judgment { if seat == ArbiterSeat then ObserveArbiter else ObservePrincipal }

  /** Two of the three seats voted for the outcome. */
  predicate TwoAgree(e: ShareState, o: Outcome)
  {
    || (e.buyerVote == Some(o) && e.sellerVote == Some(o))
    || (e.buyerVote == Some(o) && e.arbiterVote == Some(o))
    || (e.sellerVote == Some(o) && e.arbiterVote == Some(o))
  }

  /** What an accepted event does to the share it names; None when it is refused. */
  function ShareStep(w: World, e: ShareState, ev: Event): Option<ShareState>
  {
    match ev
    case LockShare(_) =>
      if e.lockedAt.None? && e.resolved.None? && e.createdAt <= w.now < e.circle.fillDeadline
      then Some(e.(lockedAt := Some(w.now))) else None
    case CastVote(_, seat, o, evidence) =>
      if e.lockedAt.Some? && e.resolved.None? && VoteOf(e, seat).None?
         && OutcomeError(e, o, w.now, Some(w.View()), ObservedAs(seat), evidence) == None
      then Some(WithVote(e, seat, o)) else None
    case Resolve(_, o, evidence, stated) =>
      if e.lockedAt.Some? && e.resolved.None? && TwoAgree(e, o)
         && OutcomeError(e, o, w.now, Some(w.View()), Finalize, evidence) == None
      then Some(e.(resolved := Some(Resolution(o, stated)))) else None
    case _ => None
  }

  function Step(w: World, ev: Event): World
  {
    match ev
    case Tick(seconds) => w.(now := w.now + seconds)
    case OpenCircle(id, who, p, sim) =>
      if Taken(w, id) || CircleCreateError(p, id, who, w.now, Some(w.View()), sim).Some? then w
      else w.(circles := w.circles + [NewCircle(w, id, who, p)])
    case TakeSeat(id, who, p) =>
      var parent := FindCircle(w.circles, p.parent);
      if Taken(w, id)
          || ShareCreateError(p, id, who, w.now, parent, WitnessOf(w, p, parent), Some(w.View())).Some? then w
      else w.(shares := w.shares + [NewShare(w, id, who, p, parent.value)])
    case _ =>
      var i := ShareIndex(w.shares, ev.id);
      if i == |w.shares| then w
      else
        var next := ShareStep(w, w.shares[i], ev);
        if next.None? then w else w.(shares := w.shares[i := next.value])
  }

  function Replay(w: World, evs: seq<Event>): World
  {
    if evs == [] then w else Step(Replay(w, evs[..|evs| - 1]), evs[|evs| - 1])
  }

  function Genesis(now: int): World { World(now, [], []) }

  // ── How a world may grow ───────────────────────────────────────────────────

  predicate SameSeat(e: ShareState, f: ShareState)
  {
    && e.id == f.id && e.policy == f.policy && e.parent == f.parent && e.buyer == f.buyer && e.seller == f.seller
    && e.circle == f.circle && e.createdAt == f.createdAt
    && (e.resolved.Some? ==> f.resolved == e.resolved)
  }

  /** A lock that may land from time `now` on: not before now and not at or past the share's fill deadline. */
  predicate LandsFrom(now: int, f: ShareState)
  {
    f.lockedAt.Some? ==> now <= f.lockedAt.value < f.circle.fillDeadline
  }

  ghost predicate Grew(v: World, w: World)
  {
    && v.now <= w.now
    && v.circles <= w.circles
    && |v.shares| <= |w.shares|
    && (forall i :: 0 <= i < |v.shares| ==>
          && SameSeat(v.shares[i], w.shares[i])
          && (if v.shares[i].lockedAt.Some? then w.shares[i].lockedAt == v.shares[i].lockedAt
              else LandsFrom(v.now, w.shares[i])))
    && (forall i :: |v.shares| <= i < |w.shares| ==> LandsFrom(v.now, w.shares[i]))
  }

  lemma GrewTransitive(u: World, v: World, w: World)
    requires Grew(u, v) && Grew(v, w)
    ensures Grew(u, w)
  {
    forall i | 0 <= i < |u.shares|
      ensures && SameSeat(u.shares[i], w.shares[i])
              && (if u.shares[i].lockedAt.Some? then w.shares[i].lockedAt == u.shares[i].lockedAt
                  else LandsFrom(u.now, w.shares[i]))
    {
      assert SameSeat(u.shares[i], v.shares[i]) && SameSeat(v.shares[i], w.shares[i]);
    }
    forall i | |u.shares| <= i < |w.shares|
      ensures LandsFrom(u.now, w.shares[i])
    {
      if i < |v.shares| {
        assert LandsFrom(u.now, v.shares[i]) && SameSeat(v.shares[i], w.shares[i]);
      }
    }
  }

  lemma ShareStepGrows(w: World, e: ShareState, ev: Event)
    requires ShareStep(w, e, ev).Some?
    ensures var f := ShareStep(w, e, ev).value;
            SameSeat(e, f) && (if e.lockedAt.Some? then f.lockedAt == e.lockedAt else LandsFrom(w.now, f))
  {
  }

  lemma StepGrows(w: World, ev: Event)
    ensures Grew(w, Step(w, ev))
  {
    if !ev.Tick? && !ev.OpenCircle? && !ev.TakeSeat? {
      var i := ShareIndex(w.shares, ev.id);
      if i < |w.shares| && ShareStep(w, w.shares[i], ev).Some? {
        ShareStepGrows(w, w.shares[i], ev);
      }
    }
  }

  lemma {:induction false} ReplayGrows(w: World, evs: seq<Event>)
    ensures Grew(w, Replay(w, evs))
  {
    if evs != [] {
      ReplayGrows(w, evs[..|evs| - 1]);
      StepGrows(Replay(w, evs[..|evs| - 1]), evs[|evs| - 1]);
      GrewTransitive(w, Replay(w, evs[..|evs| - 1]), Replay(w, evs));
    }
  }

  // ── Structure every world keeps ────────────────────────────────────────────

  /** A chained round hangs off its anchor and keeps the cycle's schedule. */
  predicate OnSchedule(c: CircleState, circles: seq<CircleState>)
  {
    && c.id.RoundOf? && c.id.index == c.terms.roundIndex
    && FindCircle(circles, c.id.anchor).Some?
    && var a := FindCircle(circles, c.id.anchor).value;
       var r := c.terms.roundIndex;
       CanAnchor(a, None) && c.terms.fillDeadline == DeadlineOf(a, r) && c.terms.roundEnd == EndOf(a, r)
           && StartOf(a, r) <= c.createdAt
  }

  ghost predicate CircleFits(c: CircleState, circles: seq<CircleState>, now: int)
  {
    && Lawful(c.terms, c.createdAt) && c.createdAt <= now
    && (forall k :: k in c.bonded ==> k in c.pool)
    && (RotationRound(c.terms) ==> OnSchedule(c, circles))
  }

  predicate ShareFits(e: ShareState, circles: seq<CircleState>, now: int)
  {
    && FindCircle(circles, e.parent).Some?
    && var p := FindCircle(circles, e.parent).value;
       && e.circle == p.terms
       && e.id == ShareOf(e.parent, e.buyer, p.terms.roundIndex)
       && (e.policy == ShareV2 <==> RotationRound(p.terms))
       && e.buyer != e.seller
       && p.createdAt <= e.createdAt <= now
       && (e.lockedAt.Some? ==> e.createdAt <= e.lockedAt.value <= now && e.lockedAt.value < p.terms.fillDeadline)
       && (e.resolved.Some? ==> e.lockedAt.Some?)
  }

  ghost predicate UniqueShares(shares: seq<ShareState>)
  {
    forall i, j :: 0 <= i < j < |shares| ==> shares[i].id != shares[j].id
  }

  ghost predicate UniqueCircles(circles: seq<CircleState>)
  {
    forall i, j :: 0 <= i < j < |circles| ==> circles[i].id != circles[j].id
  }

  ghost predicate Structured(w: World)
  {
    && UniqueShares(w.shares) && UniqueCircles(w.circles)
    && (forall c :: c in w.circles ==> CircleFits(c, w.circles, w.now))
    && (forall e :: e in w.shares ==> ShareFits(e, w.circles, w.now))
  }

  lemma {:induction false} FindAppend(circles: seq<CircleState>, c: CircleState, id: Id)
    ensures FindCircle(circles + [c], id)
         == if FindCircle(circles, id).Some? then FindCircle(circles, id) else if c.id == id then Some(c) else None
  {
    if circles != [] {
      assert (circles + [c])[1..] == circles[1..] + [c];
      FindAppend(circles[1..], c, id);
    }
  }

  lemma FindUnique(circles: seq<CircleState>, c: CircleState)
    requires UniqueCircles(circles) && c in circles
    ensures FindCircle(circles, c.id) == Some(c)
  {
    FindMember(circles, c.id);
  }

  lemma FitsAfterAppend(w: World, c: CircleState)
    requires Structured(w) && FindCircle(w.circles, c.id).None?
    ensures forall d :: d in w.circles ==> CircleFits(d, w.circles + [c], w.now)
    ensures forall e :: e in w.shares ==> ShareFits(e, w.circles + [c], w.now)
    ensures UniqueCircles(w.circles + [c])
  {
    forall d | d in w.circles
      ensures CircleFits(d, w.circles + [c], w.now)
    {
      if RotationRound(d.terms) {
        FindAppend(w.circles, c, d.id.anchor);
      }
    }
    forall e | e in w.shares
      ensures ShareFits(e, w.circles + [c], w.now)
    {
      FindAppend(w.circles, c, e.parent);
    }
    FindMember(w.circles, c.id);
  }

  /** What an accepted circle CREATE guarantees. */
  lemma AcceptedCircleFits(w: World, id: Id, who: Pubkey, p: CirclePayload, sim: bool)
    requires Structured(w)
    requires FindCircle(w.circles, id).None? && CircleCreateError(p, id, who, w.now, Some(w.View()), sim) == None
    ensures CircleFits(NewCircle(w, id, who, p), w.circles + [NewCircle(w, id, who, p)], w.now)
  {
    var c := NewCircle(w, id, who, p);
    if RotationRound(p.terms) {
      var claim := Some(Claim(id, p.terms.roundIndex));
      AcceptedRound(p, id, who, w.now, w.View(), sim);
      SealedFacts(w.View(), claim);
      var a := RotationFrom(w.View(), claim).value.anchor;
      FindUnique(w.circles, a);
      FindAppend(w.circles, c, a.id);
    }
  }

  lemma StepKeepsStructure(w: World, ev: Event)
    requires Structured(w)
    ensures Structured(Step(w, ev))
  {
    var v := Step(w, ev);
    match ev
    case Tick(_) =>
    case OpenCircle(id, who, p, sim) =>
      if v != w {
        AcceptedCircleFits(w, id, who, p, sim);
        FitsAfterAppend(w, NewCircle(w, id, who, p));
      }
    case TakeSeat(id, who, p) =>
      if v != w {
        FindMember(w.circles, p.parent);
        var i := ShareIndex(w.shares, id);
        assert ShareFits(NewShare(w, id, who, p, FindCircle(w.circles, p.parent).value), w.circles, w.now);
      }
    case _ =>
      var i := ShareIndex(w.shares, ev.id);
      if i < |w.shares| && ShareStep(w, w.shares[i], ev).Some? {
        ShareUpdateKeepsStructure(w, i, ev);
      }
  }

  lemma ShareUpdateKeepsStructure(w: World, i: nat, ev: Event)
    requires Structured(w) && i < |w.shares| && ShareStep(w, w.shares[i], ev).Some?
    ensures Structured(w.(shares := w.shares[i := ShareStep(w, w.shares[i], ev).value]))
  {
    ShareStepGrows(w, w.shares[i], ev);
    assert ShareFits(w.shares[i], w.circles, w.now);
    var f := ShareStep(w, w.shares[i], ev).value;
    assert ShareFits(f, w.circles, w.now);
    forall e | e in w.shares[i := f]
      ensures ShareFits(e, w.circles, w.now)
    {
      assert e == f || e in w.shares;
    }
  }
}
