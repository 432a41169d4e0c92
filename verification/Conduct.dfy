/** Rotation conduct: who collected, who kept paying in afterwards, and the mark against those who did not. */
module Conduct {
  import opened Prelude
  import opened Circles
  import opened Rotation
  import opened Race
  import opened Gates
  import opened Writers
  import opened Chain
  import opened Finality
  import opened Protocol

  // ── The view, grouped by round ─────────────────────────────────────────────

  predicate RotationShare(e: ShareState) { e.policy == ShareV2 && e.circle.pot == RotationV2 }

  function InRound(id: Id): ShareState -> Option<ShareState>
  {
    (e: ShareState) => if RotationShare(e) && e.parent == id then Some(e) else None
  }

  function SharesIn(view: seq<ShareState>, id: Id): seq<ShareState> { Collect(InRound(id), view) }

  /** The rounds in view, in the order their first share appears. */
  function RoundsSeen(view: seq<ShareState>): seq<Id>
  {
    if view == [] then []
    else
      var n := |view| - 1;
      var before := RoundsSeen(view[..n]);
      if RotationShare(view[n]) && view[n].parent !in before then before + [view[n].parent] else before
  }

  lemma {:induction false} SeenMeansShares(view: seq<ShareState>, id: Id)
    ensures id in RoundsSeen(view) <==> SharesIn(view, id) != []
  {
    if view != [] {
      SeenMeansShares(view[..|view| - 1], id);
    }
  }

  /** A round's terms as its first share in view tells them. */
  function TermsSeen(view: seq<ShareState>, id: Id): Option<Terms>
  {
    var s := SharesIn(view, id);
    if s == [] then None else Some(s[0].circle)
  }

  // ── The anchor, walked to through rounds in view ───────────────────────────

  const MAX_HOPS := 64

  function AnchorWalk(view: seq<ShareState>, id: Id, hops: nat): Option<Id>
    decreases hops
  {
    var t := TermsSeen(view, id);
    if hops == 0 || t.None? || t.value.prev.None? then None
    else if t.value.roundIndex == 2 then t.value.prev
    else AnchorWalk(view, t.value.prev.value, hops - 1)
  }

  method AnchorFor(view: seq<ShareState>, roundId: Id) returns (r: Option<Id>)
    ensures r == AnchorWalk(view, roundId, MAX_HOPS)
  {
    var id := roundId;
    var hops := 0;
    while hops < MAX_HOPS
      invariant 0 <= hops <= MAX_HOPS
      invariant AnchorWalk(view, roundId, MAX_HOPS) == AnchorWalk(view, id, MAX_HOPS - hops)
    {
      var t := TermsSeen(view, id);
      if t.None? || t.value.prev.None? {
        return None;
      }
      if t.value.roundIndex == 2 {
        return t.value.prev;
      }
      id := t.value.prev.value;
      hops := hops + 1;
    }
    return None;
  }

  // ── Conduct ────────────────────────────────────────────────────────────────

  function LockedShare(): ShareState -> Option<Pubkey>
  {
    (e: ShareState) => if e.lockedAt.Some? then Some(e.buyer) else None
  }

  function OtherLocked(me: Pubkey): ShareState -> Option<Pubkey>
  {
    (e: ShareState) => if e.lockedAt.Some? && e.buyer != me then Some(e.buyer) else None
  }

  /** Round s paid its pot out to `me`, as far as these shares show. */
  predicate PaidOutTo(s: seq<ShareState>, me: Pubkey, now: int)
  {
    && s != [] && s[0].seller == me && now >= s[0].circle.roundEnd
    && |Collect(LockedShare(), s)| >= s[0].circle.seatThreshold > 0
  }

  predicate LockedBy(s: seq<ShareState>, me: Pubkey)
  {
    exists e :: e in s && e.buyer == me && e.lockedAt.Some?
  }

  /** A refund that states a time before the round's end. */
  predicate EarlyRefund(e: ShareState, roundEnd: int)
  {
    e.resolved.Some? && e.resolved.value.outcome == Refund && e.resolved.value.at < roundEnd
  }

  /** Resolved early, which the outcome law permits only for a short round. */
  predicate ProvedShort(s: seq<ShareState>)
    requires s != []
  {
    exists e :: e in s && EarlyRefund(e, s[0].circle.roundEnd)
  }

  /** In view the round is past its deadline, short, proved so, and without a lock of `me`. */
  predicate LeftShort(s: seq<ShareState>, me: Pubkey, now: int)
  {
    && s != [] && !LockedBy(s, me) && now >= s[0].circle.fillDeadline
    && 0 < |Collect(OtherLocked(me), s)| < s[0].circle.seatThreshold
    && ProvedShort(s)
  }

  datatype Collection = Collection(anchor: Option<Id>, roundIndex: int)

  function CollectionIn(view: seq<ShareState>, me: Pubkey, now: int): Id -> Option<Collection>
  {
    (id: Id) =>
      var s := SharesIn(view, id);
      if PaidOutTo(s, me, now) then Some(Collection(AnchorWalk(view, id, MAX_HOPS), s[0].circle.roundIndex)) else None
  }

  function CollectionsSeen(view: seq<ShareState>, me: Pubkey, now: int): seq<Collection>
  {
    Collect(CollectionIn(view, me, now), RoundsSeen(view))
  }

  predicate Before(c: Collection, anchor: Option<Id>, index: int)
  {
    anchor.Some? && c.anchor == anchor && c.roundIndex < index
  }

  /** `me` collected an earlier round of the cycle that round `id` belongs to. */
  predicate CollectedBefore(view: seq<ShareState>, me: Pubkey, now: int, id: Id)
  {
    var s := SharesIn(view, id);
    s != [] && exists c ::
        c in CollectionsSeen(view, me, now) && Before(c, AnchorWalk(view, id, MAX_HOPS), s[0].circle.roundIndex)
  }

  predicate Marked(view: seq<ShareState>, me: Pubkey, now: int, id: Id)
  {
    CollectedBefore(view, me, now, id) && LeftShort(SharesIn(view, id), me, now)
  }

  /** A round that counts as a sacrifice: paid into after one's own payday. */
  predicate Sacrificed(view: seq<ShareState>, me: Pubkey, now: int, id: Id)
  {
    CollectedBefore(view, me, now, id) && LockedBy(SharesIn(view, id), me)
  }

  datatype Record = Record(collectedRounds: nat, sacrificeShareIds: set<Id>, brokeAt: Option<int>)

  /** `at` is the earliest fill deadline among the marked rounds of `ids`, if any is marked. */
  ghost predicate EarliestMark(view: seq<ShareState>, me: Pubkey, now: int, ids: seq<Id>, at: Option<int>)
  {
    && (at.None? <==> forall id :: id in ids ==> !Marked(view, me, now, id))
    && (at.Some? ==> exists id ::
        id in ids && Marked(view, me, now, id) && TermsSeen(view, id).value.fillDeadline == at.value)
    && (at.Some? ==> forall id :: id in ids && Marked(view, me, now, id) ==>
        at.value <= TermsSeen(view, id).value.fillDeadline)
  }

  function SacrificesIn(view: seq<ShareState>, me: Pubkey, now: int, ids: seq<Id>): set<Id>
  {
    set id, e | id in ids && e in SharesIn(view, id) && Sacrificed(view, me, now, id) && e.buyer == me :: e.id
  }

  /** Groups the rotation shares by parent, keeping first-seen order. */
  method GroupByRound(view: seq<ShareState>) returns (keys: seq<Id>, byRound: map<Id, seq<ShareState>>)
    ensures keys == RoundsSeen(view) && byRound.Keys == Elements(keys)
    ensures forall id :: id in keys ==> byRound[id] == SharesIn(view, id)
  {
    keys, byRound := [], map[];
    for k := 0 to |view|
      invariant keys == RoundsSeen(view[..k]) && byRound.Keys == Elements(keys)
      invariant forall id :: id in keys ==> byRound[id] == SharesIn(view[..k], id)
    {
      var e := view[k];
      assert view[..k + 1][..k] == view[..k];
      forall id
        ensures SharesIn(view[..k + 1], id)
            == SharesIn(view[..k], id) + (if RotationShare(e) && e.parent == id then [e] else [])
      {
        CollectStep(InRound(id), view, k);
      }
      if RotationShare(e) {
        SeenMeansShares(view[..k], e.parent);
        if e.parent in byRound {
          assert e.parent in Elements(keys);
          byRound := byRound[e.parent := byRound[e.parent] + [e]];
        } else {
          byRound := byRound[e.parent := [e]];
          assert e.parent !in Elements(keys);
          keys := keys + [e.parent];
        }
      }
    }
    assert view[..|view|] == view;
  }

  method Collections(view: seq<ShareState>, me: Pubkey, now: int, keys: seq<Id>, byRound: map<Id, seq<ShareState>>)
    returns (collected: seq<Collection>)
    requires keys == RoundsSeen(view) && byRound.Keys == Elements(keys)
    requires forall id :: id in keys ==> byRound[id] == SharesIn(view, id)
    ensures collected == CollectionsSeen(view, me, now)
  {
    hide AnchorWalk, PaidOutTo;
    collected := [];
    for k := 0 to |keys|
      invariant collected == Collect(CollectionIn(view, me, now), keys[..k])
    {
      CollectStep(CollectionIn(view, me, now), keys, k);
      assert keys[k] in Elements(keys);
      var s := byRound[keys[k]];
      SeenMeansShares(view, keys[k]);
      if PaidOutTo(s, me, now) {
        var anchor := AnchorFor(view, keys[k]);
        collected := collected + [Collection(anchor, s[0].circle.roundIndex)];
      }
    }
    assert keys[..|keys|] == keys;
  }

  lemma SacrificesGrow(view: seq<ShareState>, me: Pubkey, now: int, ids: seq<Id>, id: Id)
    ensures SacrificesIn(view, me, now, ids + [id])
         == SacrificesIn(view, me, now, ids)
            + (if Sacrificed(view, me, now, id) then set e | e in SharesIn(view, id) && e.buyer == me :: e.id else {})
  {
    hide Sacrificed, SharesIn;
    var more := if Sacrificed(view, me, now, id) then set e | e in SharesIn(view, id) && e.buyer == me :: e.id else {};
    forall x
      ensures x in SacrificesIn(view, me, now, ids + [id]) <==> x in SacrificesIn(view, me, now, ids) + more
    {
      if x in SacrificesIn(view, me, now, ids + [id]) {
        var k, e :| k in ids + [id] && e in SharesIn(view, k) && Sacrificed(view, me, now, k) && e.buyer == me
            && e.id == x;
      }
    }
  }

  /** Rotation conduct over everything in view. */
  method RotationConduct(view: seq<ShareState>, me: Pubkey, now: int) returns (r: Record)
    ensures r.collectedRounds == |CollectionsSeen(view, me, now)|
    ensures r.sacrificeShareIds == SacrificesIn(view, me, now, RoundsSeen(view))
    ensures EarliestMark(view, me, now, RoundsSeen(view), r.brokeAt)
  {
    hide AnchorWalk, CollectionsSeen, SharesIn, LockedBy, LeftShort;
    var keys, byRound := GroupByRound(view);
    var collected := Collections(view, me, now, keys, byRound);
    var sacrifices: set<Id> := {};
    var brokeAt: Option<int> := None;
    for k := 0 to |keys|
      invariant sacrifices == SacrificesIn(view, me, now, keys[..k])
      invariant EarliestMark(view, me, now, keys[..k], brokeAt)
    {
      var id := keys[k];
      assert keys[..k + 1] == keys[..k] + [id] && id in Elements(keys);
      SeenMeansShares(view, id);
      SacrificesGrow(view, me, now, keys[..k], id);
      var s := byRound[id];
      var anchor := AnchorFor(view, id);
      var first := FirstBefore(collected, anchor, s[0].circle.roundIndex);
      if first < |collected| {
        assert collected[first] in collected;
        if LockedBy(s, me) {
          NoMarkWhenLocked(s, me, now);
          sacrifices := sacrifices + set e | e in s && e.buyer == me :: e.id;
        } else if LeftShort(s, me, now) {
          var d := s[0].circle.fillDeadline;
          var earliest := if brokeAt.None? then d else Min(brokeAt.value, d);
          MarkGrows(view, me, now, keys[..k], id, brokeAt, earliest);
          brokeAt := Some(earliest);
        }
      }
    }
    assert keys[..|keys|] == keys;
    r := Record(|collected|, sacrifices, brokeAt);
  }

  /** The position of the first collection of the same cycle with a smaller index. */
  function FirstBefore(cs: seq<Collection>, anchor: Option<Id>, index: int): (i: nat)
    ensures i <= |cs| && (i < |cs| ==> Before(cs[i], anchor, index))
    ensures i == |cs| ==> forall c :: c in cs ==> !Before(c, anchor, index)
  {
    if cs == [] || Before(cs[0], anchor, index) then 0 else 1 + FirstBefore(cs[1..], anchor, index)
  }

  lemma NoMarkWhenLocked(s: seq<ShareState>, me: Pubkey, now: int)
    requires LockedBy(s, me)
    ensures !LeftShort(s, me, now)
  {
  }

  lemma MarkGrows(view: seq<ShareState>, me: Pubkey, now: int, ids: seq<Id>, id: Id, at: Option<int>, earliest: int)
    requires EarliestMark(view, me, now, ids, at) && Marked(view, me, now, id) && TermsSeen(view, id).Some?
    requires earliest == if at.None? then TermsSeen(view, id).value.fillDeadline
        else Min(at.value, TermsSeen(view, id).value.fillDeadline)
    ensures EarliestMark(view, me, now, ids + [id], Some(earliest))
  {
    hide Marked, TermsSeen;
    assert id in ids + [id];
  }
}
