/** The savings circle as the chain carries it: terms, circles, shares, and the laws on a single round. */
module Circles {
  import opened Prelude

  /** A member key. Keys are 64 lower-case hex digits, so string order is the order of the number written. */
  type Pubkey = nat

  /** Escrow identifiers. The two derived forms stand for the SHA-256 ids of chained rounds and of shares:
      as constructors they are injective, which is the collision freedom the protocol leans on. */
  datatype Id =
    | Plain(name: nat)
    | RoundOf(anchor: Id, index: int)
    | ShareOf(circle: Id, member: Pubkey, round: int)

  datatype Pot = NoPot | RotationV2 | UnknownPot

  datatype Terms = Terms(
    shareMsats: int, seatThreshold: int, seatCap: Option<int>, unlisted: bool,
    fillDeadline: int, roundEnd: int, roundIndex: int, prev: Option<Id>, pot: Pot)

  /** A circle parent escrow. */
  datatype CircleState = CircleState(
    id: Id, creator: Pubkey, community: Option<string>, mint: string,
    fed: Option<string>, fedPrefix: Option<string>,
    pool: seq<Pubkey>, bonded: seq<Pubkey>, createdAt: int, terms: Terms)

  datatype Policy = ShareV1 | ShareV2
  datatype Outcome = Release | Refund
  /** `at` is the time the resolution itself states. */
  datatype Resolution = Resolution(outcome: Outcome, at: int)

  /** A member's share escrow. `lockedAt` is the timestamp of its LOCK event, if one was accepted. */
  datatype ShareState = ShareState(
    id: Id, policy: Policy, parent: Id, buyer: Pubkey, seller: Pubkey, circle: Terms, createdAt: int,
    lockedAt: Option<int>, buyerVote: Option<Outcome>, sellerVote: Option<Outcome>, arbiterVote: Option<Outcome>,
    resolved: Option<Resolution>)

  const MAX_ROUND_SEC := 14 * 86_400

  // ── Structural law of one round ────────────────────────────────────────────

  datatype Violation =
    | BadTimestamps | BadShare | BadThreshold | BadCap | DeadlineBeforeCreation
    | EndBeforeDeadline | TooLong | BadIndex | FirstWithPrevious | ReformedWithoutPrevious

  /** When a circle created at `at` with terms `t` breaks law `v`. */
  predicate Breaks(t: Terms, at: int, v: Violation)
  {
    match v
    case BadTimestamps => !(SafeInt(at) && SafeInt(t.fillDeadline) && SafeInt(t.roundEnd))
    case BadShare => !SafeInt(t.shareMsats) || t.shareMsats <= 0
    case BadThreshold => !SafeInt(t.seatThreshold) || t.seatThreshold < 2
    case BadCap => t.seatCap.Some? && (!SafeInt(t.seatCap.value) || t.seatCap.value < t.seatThreshold)
    case DeadlineBeforeCreation => t.fillDeadline <= at
    case EndBeforeDeadline => t.roundEnd <= t.fillDeadline
    case TooLong => t.roundEnd - at > MAX_ROUND_SEC
    case BadIndex => !SafeInt(t.roundIndex) || t.roundIndex < 1
    case FirstWithPrevious => t.roundIndex == 1 && t.prev.Some?
    case ReformedWithoutPrevious => t.roundIndex > 1 && t.prev.None?
  }

  predicate Lawful(t: Terms, at: int)
  {
    && !Breaks(t, at, BadTimestamps) && !Breaks(t, at, BadShare) && !Breaks(t, at, BadThreshold)
    && !Breaks(t, at, BadCap) && !Breaks(t, at, DeadlineBeforeCreation) && !Breaks(t, at, EndBeforeDeadline)
    && !Breaks(t, at, TooLong) && !Breaks(t, at, BadIndex) && !Breaks(t, at, FirstWithPrevious)
    && !Breaks(t, at, ReformedWithoutPrevious)
  }

  /** A round in exact numbers that starts, fills and ends in this order within fourteen days, costs something, seats at
      least two and no fewer than it needs, and continues another one exactly from the second on. */
  lemma LawfulMeans(t: Terms, at: int)
    ensures Lawful(t, at)
        <==> && at < t.fillDeadline < t.roundEnd <= at + 1_209_600 && 0 < t.shareMsats
             && 2 <= t.seatThreshold && (t.seatCap.Some? ==> t.seatThreshold <= t.seatCap.value)
             && 1 <= t.roundIndex && (t.prev.Some? <==> t.roundIndex != 1)
             && -9_007_199_254_740_991 <= at && t.roundEnd <= 9_007_199_254_740_991
             && t.shareMsats <= 9_007_199_254_740_991 && t.roundIndex <= 9_007_199_254_740_991
             && t.seatThreshold <= 9_007_199_254_740_991
             && (t.seatCap.Some? ==> t.seatCap.value <= 9_007_199_254_740_991)
  {
  }

  /** Pushes law `v` when the terms break it. */
  function Note(errors: seq<Violation>, t: Terms, at: int, v: Violation): (r: seq<Violation>)
    ensures forall w :: w in r <==> w in errors || (w == v && Breaks(t, at, v))
  {
    if Breaks(t, at, v) then errors + [v] else errors
  }

  /** Lists every broken law of a round, in the order they are checked. */
  method ValidateCircleRound(t: Terms, at: int) returns (errors: seq<Violation>)
    ensures forall v :: v in errors <==> Breaks(t, at, v)
    ensures errors == [] <==> Lawful(t, at)
  {
    errors := Note([], t, at, BadTimestamps);
    errors := Note(errors, t, at, BadShare);
    errors := Note(errors, t, at, BadThreshold);
    errors := Note(errors, t, at, BadCap);
    errors := Note(errors, t, at, DeadlineBeforeCreation);
    errors := Note(errors, t, at, EndBeforeDeadline);
    errors := Note(errors, t, at, TooLong);
    errors := Note(errors, t, at, BadIndex);
    errors := Note(errors, t, at, FirstWithPrevious);
    errors := Note(errors, t, at, ReformedWithoutPrevious);
    assert errors != [] ==> errors[0] in errors;
  }
}
