/** One cycle out of many: the context a client resolves for a round, and why it decides like the whole chain. */
module Cycles {
  import opened Prelude
  import opened Circles
  import opened Rotation
  import opened Race
  import opened Gates
  import opened Writers
  import opened Chain
  import opened Finality
  import opened Protocol
  import opened Sweep
  import opened Opener
  import opened Accusation
  import opened RotationViews
  import opened Seats

  // ── The context of a cycle ─────────────────────────────────────────────────

  /** Circle c belongs to the cycle anchored at a, up to round r. */
  predicate InCycle(c: CircleState, a: CircleState, r: int)
  {
    c == a || (RotationRound(c.terms) && c.id == RoundOf(a.id, c.terms.roundIndex) && c.terms.roundIndex <= r)
  }

  predicate ChildOf(e: ShareState, circles: seq<CircleState>) { exists c :: c in circles && c.id == e.parent }

  /** v holds the cycle of a up to round r, listed in any order: its circles, their shares, and nothing else. */
  ghost predicate HoldsCycle(v: Context, w: World, a: CircleState, r: int)
  {
    && (forall c :: c in v.circles <==> c in w.circles && InCycle(c, a, r))
    && (forall e :: e in v.shares <==> e in w.shares && ChildOf(e, v.circles))
  }

  /** An anchor of the world whose id no other circle has. */
  ghost predicate Anchors(w: World, a: CircleState)
  {
    Structured(w) && a in w.circles && CanAnchor(a, None)
  }

  // ── Same locks, same order, same collectors ────────────────────────────────

  lemma ViewIsLawful(v: Context, w: World, a: CircleState, r: int)
    requires Structured(w) && HoldsCycle(v, w, a, r)
    ensures LawfulShares(v.shares) && LawfulShares(w.shares)
  {
    hide Structured;
    WorldSharesAreLawful(w);
  }

  /** Shares of this policy and parent belong to the cycle up to round r. */
  ghost predicate OfCycle(policy: Policy, parent: Id, a: CircleState, r: int)
  {
    || (policy == ShareV1 && parent == a.id)
    || (policy == ShareV2 && exists j :: j <= r && parent == RoundOf(a.id, j))
  }

  /** Every share of a round of the cycle is in the context. */
  lemma ChildIsHeld(v: Context, w: World, a: CircleState, r: int, e: ShareState)
    requires Anchors(w, a) && HoldsCycle(v, w, a, r) && e in w.shares
    requires OfCycle(e.policy, e.parent, a, r)
    ensures e in v.shares
  {
    hide Structured, Lawful;
    if e.policy == ShareV1 {
      assert a in v.circles && InCycle(a, a, r);
    } else {
      var c := RoundOfShare(w, e);
      RoundHasItsIndex(w, c);
      assert c in v.circles;
    }
  }

  lemma RoundHasItsIndex(w: World, c: CircleState)
    requires Structured(w) && c in w.circles && RotationRound(c.terms)
    ensures c.id.RoundOf? && c.id.index == c.terms.roundIndex
  {
    hide Lawful;
    assert CircleFits(c, w.circles, w.now);
  }

  lemma SameLocks(v: Context, w: World, a: CircleState, r: int, policy: Policy, parent: Id)
    requires Anchors(w, a) && HoldsCycle(v, w, a, r)
    requires OfCycle(policy, parent, a, r)
    ensures LocksOf(policy, parent, v.shares) == LocksOf(policy, parent, w.shares)
  {
    hide Structured, HoldsCycle, CanAnchor;
    forall e | e in w.shares && e.policy == policy && e.parent == parent
      ensures e in v.shares
    {
      ChildIsHeld(v, w, a, r, e);
    }
    NothingElse(v, w, a, r);
  }

  lemma NothingElse(v: Context, w: World, a: CircleState, r: int)
    requires HoldsCycle(v, w, a, r)
    ensures forall e :: e in v.shares ==> e in w.shares
    ensures forall c :: c in v.circles ==> c in w.circles && InCycle(c, a, r)
  {
  }

  lemma SameOrder(v: Context, w: World, a: CircleState, r: int)
    requires Anchors(w, a) && HoldsCycle(v, w, a, r)
    ensures SealedOrder(a, v.shares) == SealedOrder(a, w.shares)
  {
    hide SealedOrder, HoldsCycle, Structured, LocksOf, CanAnchor, LawfulShares;
    ViewIsLawful(v, w, a, r);
    SameLocks(v, w, a, r, ShareV1, a.id);
    OrderFromLocks(a, v.shares, w.shares);
  }

  /** The context of round r knows the collectors up to round r + 1. */
  lemma SameCollector(v: Context, w: World, a: CircleState, r: int, k: int)
    requires Anchors(w, a) && HoldsCycle(v, w, a, r) && k <= r + 1
    ensures CollectorOf(CycleOf(a, v.shares), v.shares, k) == CollectorOf(CycleOf(a, w.shares), w.shares, k)
  {
    hide SealedOrder, HoldsCycle, Structured, LocksOf, CanAnchor, Collectors;
    SameOrder(v, w, a, r);
    if k >= 2 {
      forall j | 2 <= j <= k
        ensures LocksOf(PreviousPolicy(j), PreviousId(a.id, j), v.shares)
            == LocksOf(PreviousPolicy(j), PreviousId(a.id, j), w.shares)
      {
        assert j > 2 ==> j - 1 <= r && PreviousId(a.id, j) == RoundOf(a.id, j - 1);
        SameLocks(v, w, a, r, PreviousPolicy(j), PreviousId(a.id, j));
      }
      CollectorsFromLocks(CycleOf(a, w.shares), v.shares, w.shares, k);
    }
  }

  lemma SameLockers(v: Context, w: World, a: CircleState, r: int, j: int)
    requires Anchors(w, a) && HoldsCycle(v, w, a, r) && j <= r
    ensures LockedMembers(v.shares, RoundOf(a.id, j)) == LockedMembers(w.shares, RoundOf(a.id, j))
  {
    hide Structured, HoldsCycle, CanAnchor;
    NothingElse(v, w, a, r);
    forall e | e in w.shares && e.policy == ShareV2 && e.parent == RoundOf(a.id, j)
      ensures e in v.shares
    {
      ChildIsHeld(v, w, a, r, e);
    }
  }

  // ── Same rotation ──────────────────────────────────────────────────────────

  /** What an anchor's own commitment locks make of it. */
  function AnchorVerdict(a: CircleState, shares: seq<ShareState>): Result<Sealed, Refusal>
  {
    if |SealedOrder(a, shares)| < 3 then Err(TooFewMembers)
    else if |SealedOrder(a, shares)| < a.terms.seatThreshold then Err(CommitmentDidNotFill)
    else Ok(Sealed(a, SealedOrder(a, shares)))
  }

  lemma {:induction false} OnlyAnchor(circles: seq<CircleState>, shares: seq<ShareState>, claim: Option<Claim>,
                          error: Refusal, a: CircleState)
    requires CanAnchor(a, claim) && forall c :: c in circles && CanAnchor(c, claim) ==> c == a
    ensures ScanAnchors(circles, shares, claim, error) == if a in circles then AnchorVerdict(a, shares) else Err(error)
  {
    hide SealedOrder, CanAnchor;
    if circles != [] {
      var rest := circles[1..];
      assert forall c :: c in rest ==> c in circles;
      assert a in circles <==> a == circles[0] || a in rest;
      var v := AnchorVerdict(a, shares);
      OnlyAnchor(rest, shares, claim, if circles[0] == a && v.Err? then v.error else error, a);
    }
  }

  /** A claim of a round of this cycle, or no claim at all, leads the context to its own anchor. */
  lemma RotationInView(v: Context, w: World, a: CircleState, r: int, claim: Option<Claim>)
    requires Anchors(w, a) && HoldsCycle(v, w, a, r)
    requires claim.Some? ==> claim.value.id == RoundOf(a.id, claim.value.roundIndex)
    ensures RotationFrom(v, claim) == AnchorVerdict(a, w.shares)
  {
    hide SealedOrder, Structured, Lawful;
    NothingElse(v, w, a, r);
    assert a in v.circles by { assert InCycle(a, a, r); }
    SameOrder(v, w, a, r);
    OnlyAnchor(v.circles, v.shares, claim, NoRoundOne, a);
  }

  /** On the whole chain the claim alone singles the cycle out. */
  lemma RotationOnChain(w: World, a: CircleState, k: int)
    requires Anchors(w, a) && k >= 2
    ensures RotationFrom(w.View(), Some(Claim(RoundOf(a.id, k), k))) == AnchorVerdict(a, w.shares)
  {
    hide SealedOrder, Structured, Lawful;
    var claim := Some(Claim(RoundOf(a.id, k), k));
    forall c | c in w.circles && CanAnchor(c, claim)
      ensures c == a
    {
      SameRound(w, c, a);
    }
    OnlyAnchor(w.circles, w.shares, claim, NoRoundOne, a);
  }

  // ── Same gates ─────────────────────────────────────────────────────────────

  lemma FirstInView(v: Context, w: World, a: CircleState, r: int)
    requires Anchors(w, a) && HoldsCycle(v, w, a, r)
    ensures FindCircle(v.circles, a.id) == Some(a) && FindCircle(w.circles, a.id) == Some(a)
  {
    hide Structured, Lawful;
    NothingElse(v, w, a, r);
    assert a in v.circles by { assert InCycle(a, a, r); }
    FindMember(v.circles, a.id);
    SameRound(w, FindCircle(v.circles, a.id).value, a);
    FindUniqueIn(w, a);
  }

  lemma SamePreviousCheck(v: Context, w: World, a: CircleState, r: int, k: int)
    requires Anchors(w, a) && HoldsCycle(v, w, a, r) && k <= r + 1
    ensures var s := Sealed(a, SealedOrder(a, w.shares));
            PreviousRoundError(s, v.shares, k) == PreviousRoundError(s, w.shares, k)
  {
    hide SealedOrder, HoldsCycle, Structured, CanAnchor, Collectors, LockedMembers;
    if k > 2 {
      SameOrder(v, w, a, r);
      SameCollector(v, w, a, r, k - 1);
      SameLockers(v, w, a, r, k - 1);
    }
  }

  lemma SameChainedCheck(v: Context, w: World, a: CircleState, r: int, p: CirclePayload, who: Pubkey, at: int)
    requires Anchors(w, a) && HoldsCycle(v, w, a, r) && 2 <= p.terms.roundIndex <= r + 1
    ensures var id := RoundOf(a.id, p.terms.roundIndex);
            && ChainedRoundError(p, id, who, at, Some(v)) == ChainedRoundError(p, id, who, at, Some(w.View()))
            && PinnedTermsError(p, id, v) == PinnedTermsError(p, id, w.View())
  {
    hide SealedOrder, HoldsCycle, Structured, CanAnchor, Collectors, Lawful, RotationFrom;
    hide PreviousRoundError, FindCircle;
    var k := p.terms.roundIndex;
    RotationInView(v, w, a, r, Some(Claim(RoundOf(a.id, k), k)));
    RotationOnChain(w, a, k);
    FirstInView(v, w, a, r);
    SamePreviousCheck(v, w, a, r, k);
  }

  lemma LawfulIndex(t: Terms, at: int)
    requires Lawful(t, at)
    ensures t.roundIndex >= 1
  {
  }

  /** The CREATE gate for a round of the cycle decides on its context as on the whole chain. */
  lemma SameRoundGate(v: Context, w: World, a: CircleState, r: int, p: CirclePayload, who: Pubkey, at: int, sim: bool)
    requires Anchors(w, a) && HoldsCycle(v, w, a, r) && p.terms.roundIndex <= r + 1
    ensures var id := RoundOf(a.id, p.terms.roundIndex);
            CircleCreateError(p, id, who, at, Some(v), sim) == CircleCreateError(p, id, who, at, Some(w.View()), sim)
  {
    hide HoldsCycle, Structured, Anchors, Lawful, ChainedRoundError, PinnedTermsError;
    if Lawful(p.terms, at) {
      LawfulIndex(p.terms, at);
      if p.terms.roundIndex >= 2 {
        SameChainedCheck(v, w, a, r, p, who, at);
      }
    }
  }

  /** So does the CREATE gate for a share of one of its rounds. */
  lemma SameSeatGate(v: Context, w: World, a: CircleState, r: int, parent: CircleState, p: SharePayload, id: Id,
                     who: Pubkey,
                     at: int, vouch: Option<ShareState>)
    requires Anchors(w, a) && HoldsCycle(v, w, a, r) && parent.terms.roundIndex <= r + 1
    requires RotationRound(parent.terms) && parent.id == RoundOf(a.id, parent.terms.roundIndex)
    ensures ShareCreateError(p, id, who, at, Some(parent), vouch, Some(v))
        == ShareCreateError(p, id, who, at, Some(parent), vouch, Some(w.View()))
  {
    hide SealedOrder, HoldsCycle, Structured, CanAnchor, Collectors, Lawful, RotationFrom;
    var k := parent.terms.roundIndex;
    RotationInView(v, w, a, r, Some(Claim(parent.id, k)));
    RotationOnChain(w, a, k);
    SameOrder(v, w, a, r);
    SameCollector(v, w, a, r, k);
  }

  /** And the outcome gate, in every form, for a share of one of its rounds. */
  lemma SameOutcomeGate(v: Context, w: World, a: CircleState, r: int, e: ShareState, o: Outcome, at: int, j: Judgment,
                        evidence: Option<seq<Pubkey>>)
    requires Anchors(w, a) && HoldsCycle(v, w, a, r) && 2 <= e.circle.roundIndex <= r
    requires e.parent == RoundOf(a.id, e.circle.roundIndex)
    ensures OutcomeError(e, o, at, Some(v), j, evidence) == OutcomeError(e, o, at, Some(w.View()), j, evidence)
  {
    hide SealedOrder, HoldsCycle, Structured, CanAnchor, Collectors, RotationFrom, LockedMembers;
    var k := e.circle.roundIndex;
    RotationInView(v, w, a, r, Some(Claim(e.parent, k)));
    RotationOnChain(w, a, k);
    SameOrder(v, w, a, r);
    SameCollector(v, w, a, r, k);
    SameLockers(v, w, a, r, k);
  }

  // ── Every cycle moves on ───────────────────────────────────────────────────

  predicate IsRound(c: CircleState, anchor: Id, r: int)
  {
    RotationRound(c.terms) && c.id == RoundOf(anchor, r) && c.terms.roundIndex == r
  }

  lemma {:induction false} LastRoundKnown(circles: seq<CircleState>, anchor: Id, r: int)
    requires r >= 1
    requires forall c :: c in circles && IsRound(c, anchor, c.terms.roundIndex) ==> c.terms.roundIndex <= r
    ensures LastRound(circles, anchor) <= r
    ensures (exists c :: c in circles && IsRound(c, anchor, r)) ==> LastRound(circles, anchor) == r
  {
    if circles != [] {
      var n := |circles| - 1;
      assert forall c :: c in circles[..n] ==> c in circles;
      LastRoundKnown(circles[..n], anchor, r);
      if c :| c in circles && IsRound(c, anchor, r) {
        assert c in circles[..n] || c == circles[n];
      }
    }
  }

  lemma LastRoundInView(v: Context, w: World, a: CircleState, r: int)
    requires Anchors(w, a) && HoldsCycle(v, w, a, r) && r >= 1
    ensures LastRound(v.circles, a.id) <= r
    ensures (exists c :: c in w.circles && RotationRound(c.terms) && c.id == RoundOf(a.id, r)) ==>
        LastRound(v.circles, a.id) == r
  {
    hide Structured, Lawful, CanAnchor;
    forall c | c in v.circles && RotationRound(c.terms) && c.id == RoundOf(a.id, c.terms.roundIndex)
      ensures c.terms.roundIndex <= r
    {
      if c == a {
        RoundHasItsIndex(w, a);
        NotARound(a);
      }
    }
    if c :| c in w.circles && RotationRound(c.terms) && c.id == RoundOf(a.id, r) {
      RoundHasItsIndex(w, c);
      assert InCycle(c, a, r) && c in v.circles;
    }
    LastRoundKnown(v.circles, a.id, r);
  }

  lemma NotARound(a: CircleState)
    requires CanAnchor(a, None)
    ensures !RotationRound(a.terms)
  {
  }

  lemma PoolsHold(v: Context, w: World, a: CircleState, r: int)
    requires Structured(w) && HoldsCycle(v, w, a, r)
    ensures forall c :: c in v.circles ==> forall k :: k in c.bonded ==> k in c.pool
  {
    forall c | c in v.circles
      ensures forall k :: k in c.bonded ==> k in c.pool
    {
      assert CircleFits(c, w.circles, w.now);
    }
  }

  /** In every run and for every cycle on the chain, however many there are: the payload derived from a cycle's own
      context opens its next round for any sealed member once the previous round filled. */
  lemma NextRoundOpens(start: int, evs: seq<Event>, a: CircleState, v: Context, r: int, who: Pubkey, sim: bool)
    requires var w := Replay(Genesis(start), evs);
             a in w.circles && CanAnchor(a, None) && r >= 1 && HoldsCycle(v, w, a, r) && NextRoundOf(v, w.now).Ok?
    ensures var w := Replay(Genesis(start), evs);
            var n := NextRoundOf(v, w.now).value;
            var s := Sealed(a, SealedOrder(a, w.shares));
            var k := n.payload.terms.roundIndex;
            && k == LastRound(v.circles, a.id) + 1 && n.id == RoundOf(a.id, k)
            && Step(w, OpenCircle(n.id, who, n.payload, sim))
               == if !Taken(w, n.id) && Representable(s, k) && who in s.order
                   && (k == 2 || RoundFilled(s.Cy(), w.shares, k - 1))
                  then w.(circles := w.circles + [NewCircle(w, n.id, who, n.payload)]) else w
  {
    hide Replay, Good, Structured, HoldsCycle, SealedOrder, Collectors, CircleCreateError, Lawful, RoundFilled;
    hide RotationFrom, CanAnchor, Representable;
    var w := Replay(Genesis(start), evs);
    EveryRunIsGood(start, evs);
    GoodIsStructured(w);
    PoolsHold(v, w, a, r);
    RotationInView(v, w, a, r, None);
    NextRoundPassesGate(v, w.now, who, sim);
    var n := NextRoundOf(v, w.now).value;
    LastRoundInView(v, w, a, r);
    SameRoundGate(v, w, a, r, n.payload, who, w.now, sim);
    if n.payload.terms.roundIndex > 2 {
      SameFill(v, w, a, r, n.payload.terms.roundIndex - 1);
    }
  }

  lemma SameFill(v: Context, w: World, a: CircleState, r: int, k: int)
    requires Anchors(w, a) && HoldsCycle(v, w, a, r) && k <= r
    ensures SealedOrder(a, v.shares) == SealedOrder(a, w.shares)
    ensures RoundFilled(CycleOf(a, w.shares), v.shares, k) == RoundFilled(CycleOf(a, w.shares), w.shares, k)
  {
    hide HoldsCycle, Structured, SealedOrder, Collectors, LocksOf, CanAnchor;
    SameOrder(v, w, a, r);
    SameCollector(v, w, a, r, k);
    SameLocks(v, w, a, r, ShareV2, RoundOf(a.id, k));
  }

  // ── The context a client resolves ──────────────────────────────────────────

  const MAX_ROUNDS := 64

  function ChildOrNone(id: Id): ShareState -> Option<ShareState>
  {
    (e: ShareState) => if e.parent == id then Some(e) else None
  }

  function ChildrenOf(shares: seq<ShareState>, id: Id): seq<ShareState> { Collect(ChildOrNone(id), shares) }

  /** Circles from `cursor` back towards round one, each with its children, for at most `hops` rounds. */
  function ResolvedFrom(chain: Context, cursor: Option<Id>, hops: nat): Context
    decreases hops
  {
    if hops == 0 || cursor.None? then Context([], [])
    else
      var c := FindCircle(chain.circles, cursor.value);
      if c.None? then Context([], [])
      else
        var rest := ResolvedFrom(chain, if c.value.terms.roundIndex > 1 then c.value.terms.prev else None, hops - 1);
        Context([c.value] + rest.circles, ChildrenOf(chain.shares, c.value.id) + rest.shares)
  }

  function Resolved(chain: Context, roundId: Id): Context { ResolvedFrom(chain, Some(roundId), MAX_ROUNDS) }

  method ResolveCycle(chain: Context, roundId: Id) returns (r: Context)
    ensures r == Resolved(chain, roundId)
  {
    hide ChildrenOf, FindCircle;
    var circles, shares := [], [];
    var cursor := Some(roundId);
    var hops := 0;
    while cursor.Some? && hops < MAX_ROUNDS
      invariant 0 <= hops <= MAX_ROUNDS
      invariant var rest := ResolvedFrom(chain, cursor, MAX_ROUNDS - hops);
                Resolved(chain, roundId) == Context(circles + rest.circles, shares + rest.shares)
      decreases MAX_ROUNDS - hops
    {
      var state := FindCircle(chain.circles, cursor.value);
      if state.None? {
        break;
      }
      var children := LoadChildren(chain.shares, state.value.id);
      circles := circles + [state.value];
      shares := shares + children;
      cursor := if state.value.terms.roundIndex > 1 then state.value.terms.prev else None;
      hops := hops + 1;
    }
    assert circles + [] == circles && shares + [] == shares;
    return Context(circles, shares);
  }

  method LoadChildren(shares: seq<ShareState>, id: Id) returns (children: seq<ShareState>)
    ensures children == ChildrenOf(shares, id)
  {
    children := [];
    for k := 0 to |shares|
      invariant children == Collect(ChildOrNone(id), shares[..k])
    {
      CollectStep(ChildOrNone(id), shares, k);
      if shares[k].parent == id {
        children := children + [shares[k]];
      }
    }
    assert shares[..|shares|] == shares;
  }

  /** c is round r of the cycle anchored at a: the anchor itself, or a collection round. */
  predicate RoundOfCycle(c: CircleState, a: CircleState, r: int)
  {
    c.terms.roundIndex == r && if r == 1 then c == a else RotationRound(c.terms) && c.id == RoundOf(a.id, r)
  }

  /** The world knows where its rounds come from. */
  ghost predicate Chained(w: World)
  {
    Structured(w) && forall c :: c in w.circles ==> LinkedBack(c) && HasPrevious(w.circles, c)
  }

  lemma EveryRunIsChained(start: int, evs: seq<Event>)
    ensures var w := Replay(Genesis(start), evs);
            Chained(w) && Good(w) && Structured(w)
  {
    hide Replay, Good, LinkedBack, HasPrevious;
    EveryRunIsGood(start, evs);
    GoodIsStructured(Replay(Genesis(start), evs));
    RoundsStayLinked(start, evs);
    RoundsHavePrevious(start, evs);
  }

  lemma ChildrenAreListed(shares: seq<ShareState>, id: Id)
    ensures forall e :: e in ChildrenOf(shares, id) <==> e in shares && e.parent == id
  {
    CollectMembers(ChildOrNone(id), shares);
    forall e | e in shares && e.parent == id
      ensures e in ChildrenOf(shares, id)
    {
      assert ChildOrNone(id)(e) == Some(e);
    }
  }

  /** One round of the walk: the round found, and what remains to be walked. */
  lemma OneRound(w: World, c: CircleState, a: CircleState, r: int, hops: nat)
    requires Chained(w) && Anchors(w, a) && c in w.circles && RoundOfCycle(c, a, r) && hops > 0
    ensures var rest := ResolvedFrom(w.View(), if r > 1 then c.terms.prev else None, hops - 1);
            ResolvedFrom(w.View(), Some(c.id), hops)
                == Context([c] + rest.circles, ChildrenOf(w.shares, c.id) + rest.shares)
  {
    hide Structured, HasPrevious, LinkedBack, CanAnchor, ChildrenOf;
    FindUniqueIn(w, c);
  }

  /** The walk from round r finds the rounds of the cycle below r, nearest first, as many as it has hops, with
      all their shares. */
  lemma {:induction false} WalkFindsCycle(w: World, c: CircleState, a: CircleState, r: int, hops: nat)
    requires Chained(w) && Anchors(w, a) && c in w.circles && RoundOfCycle(c, a, r) && r >= 1
    ensures var v := ResolvedFrom(w.View(), Some(c.id), hops);
            && (forall d :: d in v.circles <==> d in w.circles && InCycle(d, a, r) && r - d.terms.roundIndex < hops)
            && (forall e :: e in v.shares <==> e in w.shares && ChildOf(e, v.circles))
    decreases hops
  {
    hide Structured, HasPrevious, LinkedBack, ChildrenOf, Lawful, ResolvedFrom;
    if hops == 0 {
      NothingResolved(w, Some(c.id));
      assert forall d :: d in w.circles && InCycle(d, a, r) ==> d.terms.roundIndex <= r;
    } else {
      OneRound(w, c, a, r, hops);
      ChildrenAreListed(w.shares, c.id);
      var rest: Context;
      if r == 1 {
        rest := ResolvedFrom(w.View(), None, hops - 1);
        NothingLeft(w, hops - 1);
      } else {
        var d := OneHopBack(w, c, a);
        rest := ResolvedFrom(w.View(), Some(d.id), hops - 1);
        WalkFindsCycle(w, d, a, r - 1, hops - 1);
      }
      assert forall d :: d in w.circles ==>
        (InCycle(d, a, r) && r - d.terms.roundIndex < hops <==> d == c || d in rest.circles) by {
        forall d | d in w.circles
          ensures InCycle(d, a, r) && r - d.terms.roundIndex < hops <==> d == c || d in rest.circles
        {
          TopRound(w, c, a, r, d);
        }
      }
    }
  }

  lemma NothingResolved(w: World, cursor: Option<Id>)
    ensures ResolvedFrom(w.View(), cursor, 0) == Context([], [])
  {
  }

  lemma NothingLeft(w: World, hops: nat)
    ensures ResolvedFrom(w.View(), None, hops) == Context([], [])
  {
  }

  lemma TopRound(w: World, c: CircleState, a: CircleState, r: int, d: CircleState)
    requires Anchors(w, a) && c in w.circles && d in w.circles && RoundOfCycle(c, a, r) && r >= 1
    ensures InCycle(d, a, r) <==> d == c || (r > 1 && InCycle(d, a, r - 1))
  {
    hide Structured, Lawful;
    if InCycle(d, a, r) && d != a && d.terms.roundIndex == r {
      SameRound(w, c, d);
    }
  }

  /** What a client resolves for round r of a cycle holds the whole cycle up to r, and up to round 64; from a later
      round the walk never reaches the anchor, and no gate or writer finds a rotation. */
  lemma ResolvedHoldsCycle(w: World, c: CircleState, a: CircleState, r: int)
    requires Chained(w) && Anchors(w, a) && c in w.circles && RoundOfCycle(c, a, r) && r >= 1
    ensures r <= 64 ==> HoldsCycle(Resolved(w.View(), c.id), w, a, r)
    ensures r > 64 ==> forall claim :: RotationFrom(Resolved(w.View(), c.id), claim) == Err(NoRoundOne)
  {
    hide Chained, Structured, ResolvedFrom, Lawful, ChildOf;
    var v := Resolved(w.View(), c.id);
    WalkFindsCycle(w, c, a, r, MAX_ROUNDS);
    if r <= MAX_ROUNDS {
      forall d | d in w.circles && InCycle(d, a, r)
        ensures d.terms.roundIndex >= 1
      {
      }
    } else {
      forall claim, d | d in v.circles
        ensures !CanAnchor(d, claim)
      {
      }
      forall claim
        ensures RotationFrom(v, claim) == Err(NoRoundOne)
      {
        NoAnchor(v.circles, v.shares, claim, NoRoundOne);
      }
    }
  }

  lemma {:induction false} NoAnchor(circles: seq<CircleState>, shares: seq<ShareState>, claim: Option<Claim>,
                          error: Refusal)
    requires forall c :: c in circles ==> !CanAnchor(c, claim)
    ensures ScanAnchors(circles, shares, claim, error) == Err(error)
  {
    hide SealedOrder, CanAnchor;
    if circles != [] {
      assert forall c :: c in circles[1..] ==> c in circles;
      NoAnchor(circles[1..], shares, claim, error);
    }
  }

  // ── Every cycle moves on, every seat can be taken ──────────────────────────

  /** Whatever round of whatever cycle the watcher tries to follow: what it derives from the context it resolves. */
  lemma DerivedFromResolved(w: World, c: CircleState, a: CircleState, r: int)
    requires Chained(w) && Anchors(w, a) && c in w.circles && RoundOfCycle(c, a, r) && r >= 1
    ensures var n, s := NextRoundOf(Resolved(w.View(), c.id), w.now), Sealed(a, SealedOrder(a, w.shares));
            && (n.Ok? <==> r <= 64 && Sealable(a, w.shares) && r <= |s.order| && FillsAt(a, r + 1, w.now))
            && (n.Ok? ==> n.value == NextRound(RoundOf(a.id, r + 1), RoundPayload(s, a, r + 1, w.now)))
  {
    hide Chained, Structured, Resolved, Lawful, HoldsCycle, SealedOrder, CanAnchor, InCycle;
    ResolvedHoldsCycle(w, c, a, r);
    if r <= MAX_ROUNDS {
      var v := Resolved(w.View(), c.id);
      RotationInView(v, w, a, r, None);
      LastRoundInView(v, w, a, r);
      FirstInView(v, w, a, r);
    }
  }

  lemma AnchorsAnchor(w: World, a: CircleState)
    requires Anchors(w, a)
    ensures Structured(w) && a in w.circles && CanAnchor(a, None)
  {
  }

  /** The cycle a round belongs to, for the anchor and for later rounds alike. */
  lemma CycleOfRound(w: World, c: CircleState) returns (a: CircleState)
    requires Structured(w) && c in w.circles && c.terms.pot == RotationV2
    ensures Anchors(w, a) && RoundOfCycle(c, a, c.terms.roundIndex) && c.terms.roundIndex >= 1
    ensures c.terms.roundIndex >= 2 ==> AnchorOf(w.circles, c.id) == Some(a)
  {
    hide Lawful, OnSchedule;
    RoundFits(w, c);
    LawfulIndex(c.terms, c.createdAt);
    if c.terms.roundIndex == 1 {
      a := c;
    } else {
      a := AnchorOfRound(w, c);
    }
  }

  lemma RoundEnds(w: World, c: CircleState, a: CircleState, r: int)
    requires Structured(w) && Anchors(w, a) && c in w.circles && RoundOfCycle(c, a, r) && r >= 1
    ensures c.terms.roundEnd == EndOf(a, r) == StartOf(a, r + 1)
  {
    NextStart(a, r);
    if r == 1 {
      ScheduleTiles(a, 1, 0);
    } else {
      RoundFits(w, c);
      FindUniqueIn(w, a);
    }
  }

  /** A round counted as full is full by name; for round one the seal says so already. */
  lemma RoundWasFull(w: World, c: CircleState, a: CircleState, claimed: set<Id>)
    requires Good(w) && Structured(w) && Anchors(w, a) && c in w.circles && c.terms.pot == RotationV2
    requires RoundOfCycle(c, a, c.terms.roundIndex) && CountedFull(c, Rows(w.shares, None, claimed))
    requires c.terms.roundIndex >= 1
    ensures c.terms.roundIndex == 1 || RoundFilled(CycleOf(a, w.shares), w.shares, c.terms.roundIndex)
  {
    hide Good, Structured, Rows, CountedFull, RoundFilled, SealedOrder, Lawful;
    if c.terms.roundIndex >= 2 {
      FindUniqueIn(w, a);
      CountMatchesGate(w, c, a, claimed);
    }
  }

  lemma LastRoundIs(w: World, c: CircleState, a: CircleState, r: int, v: Context)
    requires Anchors(w, a) && c in w.circles && RoundOfCycle(c, a, r) && r >= 1 && HoldsCycle(v, w, a, r)
    ensures LastRound(v.circles, a.id) == r
  {
    hide HoldsCycle, Anchors, Lawful;
    LastRoundInView(v, w, a, r);
  }

  /** What the opener makes of round r: the payload its resolved context gives, put to the chain. */
  function Attempt(w: World, c: CircleState, who: Pubkey, sim: bool): World
  {
    var n := NextRoundOf(Resolved(w.View(), c.id), w.now);
    if n.Err? then w else Step(w, OpenCircle(n.value.id, who, n.value.payload, sim))
  }

  /** In every run, for every round the watcher takes as ended and full, its attempt opens the successor for any
      sealed member, and opens nothing at all exactly when the walk back is too long, the cycle is not sealed or
      complete, the successor's fill window is over, the id is taken or a number is too large. */
  lemma AttemptOpens(start: int, evs: seq<Event>, c: CircleState, claimed: set<Id>, enabled: bool, who: Pubkey,
                     sim: bool)
      returns (a: CircleState)
    requires var w := Replay(Genesis(start), evs);
             c in w.circles && Opens(w, c, Rows(w.shares, None, claimed), enabled)
    ensures var w := Replay(Genesis(start), evs);
            var r := c.terms.roundIndex;
            var s := Sealed(a, SealedOrder(a, w.shares));
            && Anchors(w, a) && RoundOfCycle(c, a, r) && EndOf(a, r) <= w.now
            && if && r <= 64 && Sealable(a, w.shares) && r <= |s.order| && w.now < DeadlineOf(a, r + 1)
                  && !Taken(w, RoundOf(a.id, r + 1)) && Representable(s, r + 1) && who in s.order
               then Attempt(w, c, who, sim)
                    == var n := NewCircle(w, RoundOf(a.id, r + 1), who, RoundPayload(s, a, r + 1, w.now));
                       w.(circles := w.circles + [n])
               else Attempt(w, c, who, sim) == w
  {
    hide Replay, Good, Structured, HoldsCycle, SealedOrder, Collectors, CircleCreateError, Lawful;
    hide RoundFilled, Rows, Chained;
    hide RotationFrom, CanAnchor, Representable, Resolved, NextRoundOf, CountedFull, Sealable, Step, Anchors;
    var w, r := Replay(Genesis(start), evs), c.terms.roundIndex;
    EveryRunIsChained(start, evs);
    a := CycleOfRound(w, c);
    DerivedFromResolved(w, c, a, r);
    ResolvedHoldsCycle(w, c, a, r);
    RoundEnds(w, c, a, r);
    var v := Resolved(w.View(), c.id);
    if NextRoundOf(v, w.now).Ok? {
      RoundWasFull(w, c, a, claimed);
      LastRoundIs(w, c, a, r, v);
      AnchorsAnchor(w, a);
      NextRoundOpens(start, evs, a, v, r, who, sim);
    }
  }

  /** What a member's client makes of a press on the lock button of collection round c. */
  function SeatAttempt(w: World, c: CircleState, who: Pubkey): World
  {
    var p := RotationSharePayload(c, w.now, who, Resolved(w.View(), c.id));
    if p.Err? then w else Step(w, TakeSeat(ShareOf(c.id, who, c.terms.roundIndex), who, p.value))
  }

  /** The seat a sealed member takes opposite the collector. */
  function SeatOpposite(w: World, c: CircleState, who: Pubkey, collector: Pubkey): ShareState
  {
    ShareState(ShareOf(c.id, who, c.terms.roundIndex), ShareV2, c.id, who, collector, c.terms, w.now, None, None, None,
               None, None)
  }

  /** The payload written from the resolved context. */
  lemma PayloadFromResolved(w: World, c: CircleState, a: CircleState, who: Pubkey)
    requires Chained(w) && Good(w) && Anchors(w, a) && c in w.circles && RotationRound(c.terms)
    requires RoundOfCycle(c, a, c.terms.roundIndex) && RoundSealed(c, a, w.shares)
    ensures var r, cy := c.terms.roundIndex, CycleOf(a, w.shares);
            var p := RotationSharePayload(c, w.now, who, Resolved(w.View(), c.id));
            && (p.Ok? <==> r <= 64 && who in cy.order && Some(who) != CollectorOf(cy, w.shares, r))
            && (p.Ok? ==>
                  var base := ShareCreatePayload(c, w.now).value;
                  p.value == base.(policy := ShareV2, seller := CollectorOf(cy, w.shares, r).value))
  {
    hide Chained, Good, Structured, Resolved, HoldsCycle, SealedOrder, Collectors, CanAnchor, Lawful, Anchors;
    var r := c.terms.roundIndex;
    ResolvedHoldsCycle(w, c, a, r);
    AnchorsAnchor(w, a);
    RoundIsLawful(w, c);
    if r <= MAX_ROUNDS {
      var v := Resolved(w.View(), c.id);
      RotationInView(v, w, a, r, None);
      SameOrder(v, w, a, r);
      SameCollector(v, w, a, r, r);
    }
  }

  /** In every run and every cycle, a sealed member other than the collector can take a seat of a collection round
      from the context their client resolves, exactly before the fill deadline, with a free pool arbiter, a free id
      and a round the walk back can reach; nobody else can take one. */
  lemma SeatOpens(start: int, evs: seq<Event>, c: CircleState, who: Pubkey) returns (a: CircleState, collector: Pubkey)
    requires c in Replay(Genesis(start), evs).circles && RotationRound(c.terms)
    ensures var w := Replay(Genesis(start), evs);
            var r, cy := c.terms.roundIndex, CycleOf(a, w.shares);
            && Anchors(w, a) && RoundOfCycle(c, a, r) && CollectorOf(cy, w.shares, r) == Some(collector)
            && SeatAttempt(w, c, who)
               == if && r <= 64 && who in cy.order && who != collector && w.now < c.terms.fillDeadline
                     && ArbiterFor(c, who, collector) && !Taken(w, ShareOf(c.id, who, r))
                  then w.(shares := w.shares + [SeatOpposite(w, c, who, collector)]) else w
  {
    hide Replay, Good, Structured, HoldsCycle, SealedOrder, Collectors, ShareCreateError, Lawful, Chained;
    hide RotationFrom, CanAnchor, Resolved, RotationSharePayload, Anchors, Sealable;
    var w, r := Replay(Genesis(start), evs), c.terms.roundIndex;
    EveryRunIsChained(start, evs);
    a := CycleOfRound(w, c);
    RoundIsSealed(w, c, a);
    collector := CollectorOf(CycleOf(a, w.shares), w.shares, r).value;
    PayloadFromResolved(w, c, a, who);
    if RotationSharePayload(c, w.now, who, Resolved(w.View(), c.id)).Ok? {
      SeatGateDecides(w, c, a, who, collector);
      FindUniqueIn(w, c);
      RoundIsLawful(w, c);
    }
  }

  lemma SeatGateDecides(w: World, c: CircleState, a: CircleState, who: Pubkey, collector: Pubkey)
    requires Chained(w) && Good(w) && Structured(w) && Anchors(w, a) && c in w.circles && RotationRound(c.terms)
    requires RoundOfCycle(c, a, c.terms.roundIndex) && RoundSealed(c, a, w.shares) && c.terms.roundIndex <= MAX_ROUNDS
    requires CollectorOf(CycleOf(a, w.shares), w.shares, c.terms.roundIndex) == Some(collector)
    requires RotationSharePayload(c, w.now, who, Resolved(w.View(), c.id)).Ok?
    ensures var p := RotationSharePayload(c, w.now, who, Resolved(w.View(), c.id)).value;
            ShareCreateError(p, ShareOf(c.id, who, c.terms.roundIndex), who, w.now, Some(c), WitnessOf(w, p, Some(c)),
                             Some(w.View())) == None
            <==> w.now < c.terms.fillDeadline && ArbiterFor(c, who, collector)
  {
    hide Chained, Good, Structured, Resolved, HoldsCycle, SealedOrder, Collectors, CanAnchor;
    hide Lawful, Anchors, ShareCreateError;
    hide RotationSharePayload, RotationFrom;
    var r, v := c.terms.roundIndex, Resolved(w.View(), c.id);
    var p := RotationSharePayload(c, w.now, who, v).value;
    PayloadFromResolved(w, c, a, who);
    ResolvedHoldsCycle(w, c, a, r);
    RoundIsLawful(w, c);
    RotationInView(v, w, a, r, Some(Claim(c.id, r)));
    SameOrder(v, w, a, r);
    SameCollector(v, w, a, r, r);
    RotationSharePassesGate(c, w.now, who, v, WitnessOf(w, p, Some(c)));
    SameSeatGate(v, w, a, r, c, p, ShareOf(c.id, who, r), who, w.now, WitnessOf(w, p, Some(c)));
  }
}
