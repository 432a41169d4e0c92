/** Reader gates, the outcome gate, and the writers that must satisfy them. */
module Gates {
  import opened Prelude
  import opened Circles
  import opened Rotation
  import opened Race

  /** The locally resolved circles and shares a decision is judged against. */
  datatype Context = Context(circles: seq<CircleState>, shares: seq<ShareState>)

  // ── The sealed rotation ────────────────────────────────────────────────────

  datatype Sealed = Sealed(anchor: CircleState, order: seq<Pubkey>)
  {
    function Cy(): Cycle { Cycle(anchor.id, order, anchor.creator) }
  }

  datatype Refusal =
    | NoRoundOne | TooFewMembers | CommitmentDidNotFill
    | BondedOutsidePool | TimestampMismatch | BrokenRound | ExpiryMismatch | UnknownPotPolicy | WindowTooShort
    | NeedsContext | NotDeterministicId | NotChained | BeyondRotation | NotSealedMember | TermsChanged | WrongSeats
    | NotUnlisted | OffSchedule | TooEarly | TooLate | PreviousHasNoCollector | PreviousDidNotFill
    | PoolChanged | FederationChanged
    | NoParent | WrongAmount | WrongDeadlines | WrongShareId | SameSeats | WrongPolicy | OtherCycle | WrongCollector
    | WitnessRequired | WitnessMismatch | WitnessNotLocked | ParentTermsMismatch | NoArbiter | FeesCharged
    | RefundOnly | MissingEvidence | MalformedEvidence | EvidenceNamesNonMember | ReleaseNotLawful | RefundNotLawful
    | HostsLockLast | NotRotationRound | CollectorSitsOut | CycleComplete | PreviousNotEnded

  function SealedOrder(anchor: CircleState, shares: seq<ShareState>): seq<Pubkey>
  {
    RotationOrder(anchor.id, anchor.creator, CommitmentSeats(anchor.id, shares))
  }

  /** Which round is being validated: only the anchor whose chain produces this id may speak for it. */
  datatype Claim = Claim(id: Id, roundIndex: int)

  predicate CanAnchor(c: CircleState, claim: Option<Claim>)
  {
    && c.terms.roundIndex == 1 && c.terms.pot == RotationV2 && Lawful(c.terms, c.createdAt)
    && (claim.Some? && claim.value.roundIndex >= 2 ==> RoundOf(c.id, claim.value.roundIndex) == claim.value.id)
  }

  predicate Sealable(c: CircleState, shares: seq<ShareState>)
  {
    |SealedOrder(c, shares)| >= 3 && |SealedOrder(c, shares)| >= c.terms.seatThreshold
  }

  function ScanAnchors(circles: seq<CircleState>, shares: seq<ShareState>, claim: Option<Claim>,
                       error: Refusal): Result<Sealed, Refusal>
  {
    if circles == [] then Err(error)
    else if !CanAnchor(circles[0], claim) then ScanAnchors(circles[1..], shares, claim, error)
    else if |SealedOrder(circles[0], shares)| < 3 then ScanAnchors(circles[1..], shares, claim, TooFewMembers)
    else if |SealedOrder(circles[0], shares)| < circles[0].terms.seatThreshold then
      ScanAnchors(circles[1..], shares, claim, CommitmentDidNotFill)
    else Ok(Sealed(circles[0], SealedOrder(circles[0], shares)))
  }

  function RotationFrom(cycle: Context, claim: Option<Claim>): Result<Sealed, Refusal>
  {
    ScanAnchors(cycle.circles, cycle.shares, claim, NoRoundOne)
  }

  method RotationFromCycle(cycle: Context, claim: Option<Claim>) returns (r: Result<Sealed, Refusal>)
    ensures r == RotationFrom(cycle, claim)
  {
    var lastError := NoRoundOne;
    for i := 0 to |cycle.circles|
      invariant RotationFrom(cycle, claim) == ScanAnchors(cycle.circles[i..], cycle.shares, claim, lastError)
    {
      var c := cycle.circles[i];
      assert cycle.circles[i..][1..] == cycle.circles[i + 1..];
      if CanAnchor(c, claim) {
        var locks := CommitmentLocks(c.id, cycle.shares);
        var order := RotationOrder(c.id, c.creator, locks);
        if |order| < 3 {
          lastError := TooFewMembers;
        } else if |order| < c.terms.seatThreshold {
          lastError := CommitmentDidNotFill;
        } else {
          return Ok(Sealed(c, order));
        }
      }
    }
    return Err(lastError);
  }

  predicate Seals(c: CircleState, shares: seq<ShareState>, claim: Option<Claim>)
  {
    CanAnchor(c, claim) && Sealable(c, shares)
  }

  function SealsIn(shares: seq<ShareState>, claim: Option<Claim>): CircleState -> bool
  {
    (c: CircleState) => Seals(c, shares, claim)
  }

  /** The index of the first circle that can anchor and seal, or the length when there is none. */
  function FirstSealing(circles: seq<CircleState>, shares: seq<ShareState>, claim: Option<Claim>): nat
  {
    First(SealsIn(shares, claim), circles)
  }

  /** The scan answers with that circle and its order, and fails exactly when there is none. */
  lemma {:induction false} ScanFindsFirst(circles: seq<CircleState>, shares: seq<ShareState>, claim: Option<Claim>,
                          error: Refusal)
    ensures var i := FirstSealing(circles, shares, claim);
            var r := ScanAnchors(circles, shares, claim, error);
            && i <= |circles|
            && if i < |circles| then r == Ok(Sealed(circles[i], SealedOrder(circles[i], shares))) else r.Err?
  {
    hide SealedOrder, CanAnchor;
    if circles != [] && !Seals(circles[0], shares, claim) {
      var e := if !CanAnchor(circles[0], claim) then error
               else if |SealedOrder(circles[0], shares)| < 3 then TooFewMembers else CommitmentDidNotFill;
      ScanFindsFirst(circles[1..], shares, claim, e);
    }
  }

  /** Only a claim to a collection round narrows the search. */
  lemma {:induction false} FirstRoundClaimsNothing(circles: seq<CircleState>, shares: seq<ShareState>, claim: Claim,
                          error: Refusal)
    requires claim.roundIndex < 2
    ensures ScanAnchors(circles, shares, Some(claim), error) == ScanAnchors(circles, shares, None, error)
  {
    hide SealedOrder;
    if circles != [] {
      var c := circles[0];
      var e := if !CanAnchor(c, None) then error
               else if |SealedOrder(c, shares)| < 3 then TooFewMembers else CommitmentDidNotFill;
      FirstRoundClaimsNothing(circles[1..], shares, claim, e);
    }
  }

  // ── The schedule ───────────────────────────────────────────────────────────

  function Duration(a: CircleState): int { a.terms.roundEnd - a.createdAt }

  function FillWindow(a: CircleState): int { a.terms.fillDeadline - a.createdAt }

  /** When collection round r opens: round 1's end shifted by whole round durations. */
  function StartOf(a: CircleState, r: int): int { a.terms.roundEnd + (r - 2) * Duration(a) }

  function DeadlineOf(a: CircleState, r: int): int { StartOf(a, r) + FillWindow(a) }

  function EndOf(a: CircleState, r: int): int { StartOf(a, r) + Duration(a) }

  /** The round of the schedule a moment belongs to. */
  function RoundAt(a: CircleState, t: int): int
    requires Duration(a) > 0
  {
    (t - a.createdAt) / Duration(a) + 1
  }

  /** Chained rounds tile time: the schedule extends round 1's own clock, each round starts where the last
      ended and fills inside itself, and every moment falls in exactly one round. */
  lemma ScheduleTiles(a: CircleState, r: int, t: int)
    requires Lawful(a.terms, a.createdAt)
    ensures StartOf(a, 1) == a.createdAt && DeadlineOf(a, 1) == a.terms.fillDeadline && EndOf(a, 1) == a.terms.roundEnd
    ensures EndOf(a, r) == StartOf(a, r + 1) && StartOf(a, r) < DeadlineOf(a, r) < EndOf(a, r)
    ensures StartOf(a, r) <= t < EndOf(a, r) <==> r == RoundAt(a, t)
  {
    var d := Duration(a);
    StartAgain(a, r);
    NextStart(a, r);
    var q := (t - a.createdAt) / d;
    Quotient(t - a.createdAt, d, r - 1);
  }

  lemma Quotient(x: int, d: int, q: int)
    requires d > 0
    ensures q * d <= x < q * d + d <==> q == x / d
  {
    var p := x / d;
    assert x == p * d + x % d;
    if q < p {
      Monotone(q + 1, p, d);
      assert (q + 1) * d == q * d + d;
    } else if p < q {
      Monotone(p + 1, q, d);
      assert (p + 1) * d == p * d + d;
    }
  }

  lemma Monotone(x: int, y: int, d: int)
    requires x <= y && d > 0
    ensures x * d <= y * d
  {
  }

  lemma StartAgain(a: CircleState, r: int)
    ensures StartOf(a, r) == a.createdAt + (r - 1) * Duration(a)
  {
    var d := Duration(a);
    assert (r - 1) * d == (r - 2) * d + d;
  }

  lemma NextStart(a: CircleState, r: int)
    ensures EndOf(a, r) == StartOf(a, r + 1)
  {
    var d := Duration(a);
    assert (r - 1) * d == (r - 2) * d + d;
  }

  /** A later round never starts before an earlier one ends. */
  lemma StartsGrow(a: CircleState, r: int, s: int)
    requires Duration(a) > 0 && r < s
    ensures EndOf(a, r) <= StartOf(a, s)
  {
    NextStart(a, r);
    Monotone(r - 1, s - 2, Duration(a));
  }

  // ── CREATE gates ───────────────────────────────────────────────────────────

  datatype CirclePayload = CirclePayload(
    terms: Terms, community: Option<string>, mint: string, fed: Option<string>, fedPrefix: Option<string>,
    pool: seq<Pubkey>, bonded: seq<Pubkey>, expirySeconds: int, createdAt: int)

  datatype SharePayload = SharePayload(
    policy: Policy, parent: Id, seller: Pubkey, amountMsats: int, mint: string, community: Option<string>,
    fed: Option<string>, fedPrefix: Option<string>, pool: seq<Pubkey>, bonded: seq<Pubkey>,
    expirySeconds: int, createdAt: int, platformFeeBps: int, arbiterFeeMsats: int)

  function CommunityName(c: Option<string>): string { if c.Some? then c.value else "" }

  function FindCircle(circles: seq<CircleState>, id: Id): Option<CircleState>
  {
    if circles == [] then None
    else if circles[0].id == id then Some(circles[0])
    else FindCircle(circles[1..], id)
  }

  /** Members who locked a share-v2 escrow of the round. */
  function LockedMembers(shares: seq<ShareState>, roundId: Id): set<Pubkey>
  {
    set e | e in shares && e.policy == ShareV2 && e.parent == roundId && e.lockedAt.Some? :: e.buyer
  }

  function PreviousRoundError(s: Sealed, shares: seq<ShareState>, r: int): Option<Refusal>
  {
    if r <= 2 then None
    else
      var collector := CollectorOf(s.Cy(), shares, r - 1);
      if collector.None? then Some(PreviousHasNoCollector)
      else if !(forall m :: m in s.order ==>
                  m == collector.value || m in LockedMembers(shares, RoundOf(s.anchor.id, r - 1))) then
        Some(PreviousDidNotFill)
      else None
  }

  function ChainedRoundError(p: CirclePayload, id: Id, who: Pubkey, at: int, cycle: Option<Context>): Option<Refusal>
  {
    if cycle.None? then Some(NeedsContext)
    else
      var t := p.terms;
      var rot := RotationFrom(cycle.value, Some(Claim(id, t.roundIndex)));
      if rot.Err? then Some(rot.error)
      else
        var a, order := rot.value.anchor, rot.value.order;
        if id != RoundOf(a.id, t.roundIndex) then Some(NotDeterministicId)
        else if t.prev != Some(if t.roundIndex == 2 then a.id else RoundOf(a.id, t.roundIndex - 1)) then
          Some(NotChained)
        else if t.roundIndex > |order| + 1 then Some(BeyondRotation)
        else if who !in order then Some(NotSealedMember)
        else if t.shareMsats != a.terms.shareMsats || CommunityName(p.community) != CommunityName(a.community)
            || p.mint != a.mint then
          Some(TermsChanged)
        else if t.seatThreshold != |order| - 1 || t.seatCap != Some(|order| - 1) then Some(WrongSeats)
        else if !t.unlisted then Some(NotUnlisted)
        else if t.fillDeadline != DeadlineOf(a, t.roundIndex) || t.roundEnd != EndOf(a, t.roundIndex) then
          Some(OffSchedule)
        else if at < StartOf(a, t.roundIndex) then Some(TooEarly)
        else if at >= t.fillDeadline then Some(TooLate)
        else PreviousRoundError(rot.value, cycle.value.shares, t.roundIndex)
  }

  function PinnedTermsError(p: CirclePayload, id: Id, cycle: Context): Option<Refusal>
  {
    var rot := RotationFrom(cycle, Some(Claim(id, p.terms.roundIndex)));
    if rot.Err? then Some(rot.error)
    else
      var first := FindCircle(cycle.circles, rot.value.anchor.id);
      if first.None? then Some(NoRoundOne)
      else if p.pool != first.value.pool || p.bonded != first.value.bonded then Some(PoolChanged)
      else if p.fed != first.value.fed || p.fedPrefix != first.value.fedPrefix then Some(FederationChanged)
      else None
  }

  /** The CREATE gate for a circle parent. */
  function CircleCreateError(p: CirclePayload, id: Id, who: Pubkey, at: int, cycle: Option<Context>,
                          sim: bool): Option<Refusal>
  {
    var t := p.terms;
    if exists k :: k in p.bonded && k !in p.pool then Some(BondedOutsidePool)
    else if p.createdAt != at || !SafeInt(at) then Some(TimestampMismatch)
    else if !Lawful(t, at) then Some(BrokenRound)
    else if at + p.expirySeconds != t.roundEnd then Some(ExpiryMismatch)
    else if t.pot == UnknownPot then Some(UnknownPotPolicy)
    else if t.pot == NoPot then None
    else if t.roundIndex == 1 then
      (if !sim && (t.fillDeadline - at < 3600 || t.roundEnd - t.fillDeadline < 3600) then Some(WindowTooShort)
       else None)
    else
      var chained := ChainedRoundError(p, id, who, at, cycle);
      if chained.Some? then chained else PinnedTermsError(p, id, cycle.value)
  }

  /** A collection round of a rotation: round two or later of a rotation pot. */
  predicate RotationRound(t: Terms) { t.pot == RotationV2 && t.roundIndex >= 2 }

  function CollectorSeatError(p: SharePayload, parent: CircleState, who: Pubkey,
                          cycle: Option<Context>): Option<Refusal>
  {
    if cycle.None? then Some(NeedsContext)
    else
      var rot := RotationFrom(cycle.value, Some(Claim(parent.id, parent.terms.roundIndex)));
      if rot.Err? then Some(rot.error)
      else if parent.id != RoundOf(rot.value.anchor.id, parent.terms.roundIndex) then Some(OtherCycle)
      else
        var collector := CollectorOf(rot.value.Cy(), cycle.value.shares, parent.terms.roundIndex);
        if collector != Some(p.seller) then Some(WrongCollector)
        else if who !in rot.value.order then Some(NotSealedMember)
        else None
  }

  function WitnessError(p: SharePayload, parent: CircleState, at: int, vouch: Option<ShareState>): Option<Refusal>
  {
    if p.seller == parent.creator then None
    else if vouch.None? then Some(WitnessRequired)
    else
      var w := vouch.value;
      if w.id != ShareOf(parent.id, p.seller, parent.terms.roundIndex) || w.policy != ShareV1 || w.parent != parent.id
          || w.buyer != p.seller then
        Some(WitnessMismatch)
      else if w.lockedAt.None? || w.lockedAt.value > at then Some(WitnessNotLocked)
      else None
  }

  /** The CREATE gate for a member's share. An arbiter can be picked exactly when the pool has one who is
      neither member nor witness. */
  function ShareCreateError(p: SharePayload, id: Id, who: Pubkey, at: int, parent: Option<CircleState>,
                            vouch: Option<ShareState>, cycle: Option<Context>): Option<Refusal>
  {
    if exists k :: k in p.bonded && k !in p.pool then Some(BondedOutsidePool)
    else if p.createdAt != at || !SafeInt(at) then Some(TimestampMismatch)
    else if parent.None? || !Lawful(parent.value.terms, parent.value.createdAt) || p.parent != parent.value.id then
      Some(NoParent)
    else
      var c := parent.value;
      if p.amountMsats != c.terms.shareMsats then Some(WrongAmount)
      else if at < c.createdAt || at >= c.terms.fillDeadline || at + p.expirySeconds != c.terms.roundEnd then
        Some(WrongDeadlines)
      else if id != ShareOf(c.id, who, c.terms.roundIndex) then Some(WrongShareId)
      else if who == p.seller then Some(SameSeats)
      else if RotationRound(c.terms) != (p.policy == ShareV2) then Some(WrongPolicy)
      else
        var seat := if p.policy == ShareV2 then CollectorSeatError(p, c, who, cycle) else WitnessError(p, c, at, vouch);
        if seat.Some? then seat
        else if p.mint != c.mint || p.community != c.community || p.fed != c.fed || p.fedPrefix != c.fedPrefix
                || p.pool != c.pool || p.bonded != c.bonded then Some(ParentTermsMismatch)
        else if forall k :: k in p.pool ==> k == who || k == p.seller then Some(NoArbiter)
        else if p.platformFeeBps != 0 || p.arbiterFeeMsats != 0 then Some(FeesCharged)
        else None
  }

  // ── The outcome law ────────────────────────────────────────────────────────

  datatype RoundOutcome = Nothing | MustRefund | MustRelease

  /** Fill evidence and the clock admit at most one outcome. */
  function RoundOutcomeAt(t: Terms, lockedCount: int, expectedCount: int, now: int): RoundOutcome
  {
    var filled := lockedCount >= expectedCount && expectedCount > 0;
    if now < t.fillDeadline && !filled then Nothing
    else if !filled then MustRefund
    else if now < t.roundEnd then Nothing
    else if now < t.roundEnd + COLLECT_WINDOW_SEC then MustRelease
    else MustRefund
  }

  datatype Judgment = ObservePrincipal | ObserveArbiter | Intent | Finalize

  const MAX_EVIDENCE := 128

  function Lawfully(outcome: Outcome, lawful: RoundOutcome): Option<Refusal>
  {
    match outcome
    case Release => if lawful == MustRelease then None else Some(ReleaseNotLawful)
    case Refund => if lawful == MustRefund then None else Some(RefundNotLawful)
  }

  /** Why a rotation share does not belong to the context's cycle, or may not release to its seller. */
  function CycleFitError(e: ShareState, outcome: Outcome, s: Sealed, shares: seq<ShareState>): Option<Refusal>
  {
    var collector := CollectorOf(s.Cy(), shares, e.circle.roundIndex);
    if collector.None? || e.parent != RoundOf(s.anchor.id, e.circle.roundIndex) then Some(OtherCycle)
    else if outcome == Release && e.seller != collector.value then Some(WrongCollector)
    else None
  }

  predicate NamesOutsider(evidence: seq<Pubkey>, s: Sealed, shares: seq<ShareState>, r: int)
  {
    exists m :: m in evidence && (m !in s.order || Some(m) == CollectorOf(s.Cy(), shares, r))
  }

  function EvidenceError(e: ShareState, outcome: Outcome, at: int, cycle: Option<Context>,
                         evidence: Option<seq<Pubkey>>): Option<Refusal>
  {
    if evidence.None? then Some(MissingEvidence)
    else if |evidence.value| > MAX_EVIDENCE || !Distinct(evidence.value) then Some(MalformedEvidence)
    else
      var claim := Some(Claim(e.parent, e.circle.roundIndex));
      var rot := if cycle.Some? then RotationFrom(cycle.value, claim) else Err(NeedsContext);
      var fit := if rot.Err? then None else CycleFitError(e, outcome, rot.value, cycle.value.shares);
      if fit.Some? then fit
      else if rot.Ok? && NamesOutsider(evidence.value, rot.value, cycle.value.shares, e.circle.roundIndex) then
        Some(EvidenceNamesNonMember)
      else Lawfully(outcome, RoundOutcomeAt(e.circle, |evidence.value|, e.circle.seatThreshold, at))
  }

  /** How many expected members locked, in the caller's own view. */
  function LockedCount(s: Sealed, shares: seq<ShareState>, roundId: Id, collector: Pubkey): nat
  {
    |set m | m in s.order && m != collector && m in LockedMembers(shares, roundId)|
  }

  function IntentError(e: ShareState, outcome: Outcome, at: int, cycle: Option<Context>): Option<Refusal>
  {
    if cycle.None? then (if outcome == Refund then None else Some(NeedsContext))
    else
      var rot := RotationFrom(cycle.value, Some(Claim(e.parent, e.circle.roundIndex)));
      if rot.Err? then Some(rot.error)
      else
        var s, shares := rot.value, cycle.value.shares;
        var fit := CycleFitError(e, outcome, s, shares);
        if fit.Some? then fit
        else
          var collector := CollectorOf(s.Cy(), shares, e.circle.roundIndex).value;
          var expected := |set m | m in s.order && m != collector|;
          Lawfully(outcome, RoundOutcomeAt(e.circle, LockedCount(s, shares, e.parent, collector), expected, at))
  }

  /** Whether a vote or resolution for this outcome may stand, by who judges it. */
  function OutcomeError(e: ShareState, outcome: Outcome, at: int, cycle: Option<Context>, judgment: Judgment,
                        evidence: Option<seq<Pubkey>>): Option<Refusal>
  {
    if e.policy == ShareV1 then (if outcome == Refund then None else Some(RefundOnly))
    else
      match judgment
      case ObservePrincipal => None
      case Intent => IntentError(e, outcome, at, cycle)
      case _ => EvidenceError(e, outcome, at, cycle, evidence)
  }

  // ── Fill evidence ──────────────────────────────────────────────────────────

  predicate Ascending(s: seq<Pubkey>)
  {
    forall i, j :: 0 <= i < j < |s| ==> s[i] < s[j]
  }

  function AddKey(k: Pubkey, s: seq<Pubkey>): seq<Pubkey>
  {
    if s == [] then [k]
    else if s[0] < k then [s[0]] + AddKey(k, s[1..])
    else if s[0] == k then s
    else [k] + s
  }

  lemma {:induction false} AddKeyElements(k: Pubkey, s: seq<Pubkey>)
    ensures Elements(AddKey(k, s)) == Elements(s) + {k}
  {
    if s != [] {
      HeadElement(s[0], s[1..]);
      assert s == [s[0]] + s[1..];
      if s[0] < k {
        AddKeyElements(k, s[1..]);
        HeadElement(s[0], AddKey(k, s[1..]));
      } else if k < s[0] {
        HeadElement(k, s);
      }
    }
  }

  lemma HeadElement(x: Pubkey, s: seq<Pubkey>)
    ensures Elements([x] + s) == {x} + Elements(s)
  {
  }

  lemma {:induction false} AddKeySpec(k: Pubkey, s: seq<Pubkey>)
    requires Ascending(s)
    ensures Ascending(AddKey(k, s)) && Elements(AddKey(k, s)) == Elements(s) + {k}
  {
    AddKeyElements(k, s);
    if s != [] && s[0] < k {
      AddKeySpec(k, s[1..]);
      var t := AddKey(k, s[1..]);
      forall y | y in t
        ensures s[0] < y
      {
        assert y in Elements(t);
      }
      PrependAscends(s[0], t);
    } else if s != [] && k < s[0] {
      forall y | y in s
        ensures k < y
      {
      }
      PrependAscends(k, s);
    }
  }

  lemma PrependAscends(x: Pubkey, t: seq<Pubkey>)
    requires Ascending(t) && forall y :: y in t ==> x < y
    ensures Ascending([x] + t)
  {
    var s := [x] + t;
    forall i, j | 0 <= i < j < |s|
      ensures s[i] < s[j]
    {
      assert s[j] == t[j - 1] && t[j - 1] in t;
    }
  }

  function EvidenceOf(roundId: Id, shares: seq<ShareState>): (r: seq<Pubkey>)
    ensures Ascending(r) && Elements(r) == LockedMembers(shares, roundId)
  {
    if shares == [] then []
    else
      var n := |shares| - 1;
      var e := shares[n];
      assert shares == shares[..n] + [e];
      if e.policy == ShareV2 && e.parent == roundId && e.lockedAt.Some? then
        assert LockedMembers(shares, roundId) == LockedMembers(shares[..n], roundId) + {e.buyer};
        AddKeySpec(e.buyer, EvidenceOf(roundId, shares[..n]));
        AddKey(e.buyer, EvidenceOf(roundId, shares[..n]))
      else
        assert LockedMembers(shares, roundId) == LockedMembers(shares[..n], roundId);
        EvidenceOf(roundId, shares[..n])
  }

  /** The fill-evidence commitment: every member who locked, once, in key order. */
  method FillEvidenceFor(roundId: Id, cycle: Context) returns (locked: seq<Pubkey>)
    ensures locked == EvidenceOf(roundId, cycle.shares)
    ensures Ascending(locked) && Elements(locked) == LockedMembers(cycle.shares, roundId)
  {
    locked := [];
    for k := 0 to |cycle.shares|
      invariant locked == EvidenceOf(roundId, cycle.shares[..k])
    {
      var e := cycle.shares[k];
      assert cycle.shares[..k + 1][..k] == cycle.shares[..k];
      if e.policy == ShareV2 && e.parent == roundId && e.lockedAt.Some? {
        locked := AddKey(e.buyer, locked);
      }
    }
    assert cycle.shares[..|cycle.shares|] == cycle.shares;
  }

  // ── Writers ────────────────────────────────────────────────────────────────

  /** A share payload for a seat in `parent`, witnessed by its creator. */
  function ShareCreatePayload(parent: CircleState, now: int): Result<SharePayload, Refusal>
  {
    if !Lawful(parent.terms, parent.createdAt) then Err(NoParent)
    else Ok(SharePayload(ShareV1, parent.id, parent.creator, parent.terms.shareMsats, parent.mint, parent.community,
                         parent.fed, parent.fedPrefix, parent.pool, parent.bonded,
                         parent.terms.roundEnd - now, now, 0, 0))
  }

  /** A rotation share payload: the seller seat is this round's collector. */
  function RotationSharePayload(parent: CircleState, now: int, buyer: Pubkey,
                          cycle: Context): Result<SharePayload, Refusal>
  {
    if !RotationRound(parent.terms) then Err(NotRotationRound)
    else
      var rot := RotationFrom(cycle, None);
      if rot.Err? then Err(rot.error)
      else
        var collector := CollectorOf(rot.value.Cy(), cycle.shares, parent.terms.roundIndex);
        if collector.None? then Err(PreviousHasNoCollector)
        else if buyer == collector.value then Err(CollectorSitsOut)
        else if buyer !in rot.value.order then Err(NotSealedMember)
        else
          var base := ShareCreatePayload(parent, now);
          if base.Err? then base else Ok(base.value.(policy := ShareV2, seller := collector.value))
  }

  /** The highest round of this cycle in view. */
  function LastRound(circles: seq<CircleState>, anchor: Id): (last: int)
    ensures last >= 1
  {
    if circles == [] then 1
    else
      var before := LastRound(circles[..|circles| - 1], anchor);
      var c := circles[|circles| - 1];
      if RotationRound(c.terms) && c.id == RoundOf(anchor, c.terms.roundIndex) && c.terms.roundIndex > before
      then c.terms.roundIndex else before
  }

  function RoundPayload(s: Sealed, first: CircleState, next: int, now: int): CirclePayload
  {
    var a := s.anchor;
    CirclePayload(
      Terms(a.terms.shareMsats, |s.order| - 1, Some(|s.order| - 1), true, DeadlineOf(a, next), EndOf(a, next), next,
            Some(if next == 2 then a.id else RoundOf(a.id, next - 1)), RotationV2),
      if CommunityName(a.community) == "" then None else a.community, a.mint, first.fed, first.fedPrefix,
      first.pool, first.bonded, EndOf(a, next) - now, now)
  }

  datatype NextRound = NextRound(id: Id, payload: CirclePayload)

  function NextRoundOf(cycle: Context, now: int): Result<NextRound, Refusal>
  {
    var rot := RotationFrom(cycle, None);
    if rot.Err? then Err(rot.error)
    else
      var s := rot.value;
      var next := LastRound(cycle.circles, s.anchor.id) + 1;
      if next > |s.order| + 1 then Err(CycleComplete)
      else if now < StartOf(s.anchor, next) then Err(PreviousNotEnded)
      else if now >= DeadlineOf(s.anchor, next) then Err(TooLate)
      else
        var first := FindCircle(cycle.circles, s.anchor.id);
        if first.None? then Err(NoRoundOne)
        else Ok(NextRound(RoundOf(s.anchor.id, next), RoundPayload(s, first.value, next, now)))
  }

  /** The next chained round's id and CREATE payload, derived from the cycle alone. */
  method NextRotationRoundPayload(cycle: Context, now: int) returns (r: Result<NextRound, Refusal>)
    ensures r == NextRoundOf(cycle, now)
  {
    var rot := RotationFromCycle(cycle, None);
    if rot.Err? {
      return Err(rot.error);
    }
    var s := rot.value;
    var last := 1;
    for i := 0 to |cycle.circles|
      invariant last == LastRound(cycle.circles[..i], s.anchor.id)
    {
      var c := cycle.circles[i];
      assert cycle.circles[..i + 1][..i] == cycle.circles[..i];
      if RotationRound(c.terms) && c.id == RoundOf(s.anchor.id, c.terms.roundIndex) && c.terms.roundIndex > last {
        last := c.terms.roundIndex;
      }
    }
    assert cycle.circles[..|cycle.circles|] == cycle.circles;
    var next := last + 1;
    if next > |s.order| + 1 {
      return Err(CycleComplete);
    }
    if now < StartOf(s.anchor, next) {
      return Err(PreviousNotEnded);
    }
    if now >= DeadlineOf(s.anchor, next) {
      return Err(TooLate);
    }
    var first := FindCircle(cycle.circles, s.anchor.id);
    if first.None? {
      return Err(NoRoundOne);
    }
    return Ok(NextRound(RoundOf(s.anchor.id, next), RoundPayload(s, first.value, next, now)));
  }
}
