/** The laws of the order and the race, told from the shares alone: who stands where, and who collects when. */
module RaceLaw {
  import opened Prelude
  import opened Circles
  import opened Rotation
  import opened Race
  import opened Gates
  import opened Finality

  // ── The order ──────────────────────────────────────────────────────────────

  /** Member m locked the commitment round of `a` at time `at`. */
  ghost predicate Committed(a: CircleState, shares: seq<ShareState>, m: Pubkey, at: int)
  {
    exists e :: e in shares && e.policy == ShareV1 && e.parent == a.id && e.buyer == m && e.lockedAt == Some(at)
  }

  /** The sealed order lists whoever locked the commitment round, each once; whoever stands before a member other than
      the host locked earlier than that member, or at the same time with the smaller key; nobody stands behind the
      host. */
  lemma OrderIsSealed(a: CircleState, shares: seq<ShareState>)
    requires LawfulShares(shares)
    ensures var o := SealedOrder(a, shares);
            && Distinct(o) && (forall m :: m in o <==> exists at :: Committed(a, shares, m, at))
            && (forall i :: 0 <= i < |o| - 1 ==> o[i] != a.creator)
            && (forall i, j, s, t |
                  0 <= i < j < |o| && Committed(a, shares, o[i], s) && Committed(a, shares, o[j], t) ::
                  o[j] == a.creator || s < t || (s == t && o[i] < o[j]))
  {
    hide CommitmentSeats, OrderOf, Collect;
    var racers := Collect(SeatedIn(a.id), CommitmentSeats(a.id, shares));
    var o := SealedOrder(a, shares);
    SeatedRacers(a.id, shares);
    OrderSpec(a.creator, racers);
    forall m, at
      ensures Committed(a, shares, m, at) <==> Racer(m, at) in Elements(racers)
    {
      LockIsCommitment(a, shares, m, at);
    }
    forall m
      ensures m in o <==> exists at :: Committed(a, shares, m, at)
    {
      assert m in o <==> m in Elements(o);
      if m in Members(racers) {
        var x :| x in racers && x.member == m;
        assert x == Racer(m, x.at) && x in Elements(racers);
        assert Committed(a, shares, m, x.at);
      }
    }
    forall i, j, s, t | 0 <= i < j < |o| && Committed(a, shares, o[i], s) && Committed(a, shares, o[j], t)
      ensures o[j] == a.creator || s < t || (s == t && o[i] < o[j])
    {
      if o[j] != a.creator {
        var x, y := OrderIsByLockTime(a.creator, racers, i, j);
        assert x in Elements(racers) && y in Elements(racers);
        assert x == Racer(o[i], s) && y == Racer(o[j], t);
      }
    }
  }

  lemma LockIsCommitment(a: CircleState, shares: seq<ShareState>, m: Pubkey, at: int)
    ensures Committed(a, shares, m, at) <==> Racer(m, at) in LocksOf(ShareV1, a.id, shares)
  {
  }

  // ── The race ───────────────────────────────────────────────────────────────

  /** Share e entered the race for round r: a locked share of the round before, of a sealed member who is not the host
      and has not collected. */
  predicate Races(cy: Cycle, shares: seq<ShareState>, r: int, e: ShareState)
  {
    && e in shares && e.lockedAt.Some? && e.buyer in cy.order && e.buyer != cy.host
    && (if r == 2 then e.policy == ShareV1 && e.parent == cy.anchor
        else e.policy == ShareV2 && e.parent == RoundOf(cy.anchor, r - 1))
    && forall k :: 2 <= k < r ==> CollectorOf(cy, shares, k) != Some(e.buyer)
  }

  /** e locked before f, or at the same time with the smaller key. */
  predicate LockedFirst(e: ShareState, f: ShareState)
  {
    && e.lockedAt.Some? && f.lockedAt.Some?
    && (e.lockedAt.value < f.lockedAt.value || (e.lockedAt.value == f.lockedAt.value && e.buyer <= f.buyer))
  }

  /** Member m has a share in the race that is ahead of every other. */
  ghost predicate Leads(cy: Cycle, shares: seq<ShareState>, r: int, m: Pubkey)
  {
    exists e :: Races(cy, shares, r, e) && e.buyer == m && forall f :: Races(cy, shares, r, f) ==> LockedFirst(e, f)
  }

  /** Who collects: in round n+1 the seated host; in every other round the member who leads the race, and nobody
      exactly when the race is empty. Rounds outside 2..n+1 have no collector, and no round has one unless all before
      it do. */
  lemma FastestCollects(cy: Cycle, shares: seq<ShareState>, r: int)
    ensures r < 2 || r > |cy.order| + 1 ==> CollectorOf(cy, shares, r) == None
    ensures CollectorOf(cy, shares, r).Some? ==> forall k :: 2 <= k < r ==> CollectorOf(cy, shares, k).Some?
    ensures 2 <= r <= |cy.order| + 1 && (forall k :: 2 <= k < r ==> CollectorOf(cy, shares, k).Some?) ==>
              if cy.host in cy.order && r == |cy.order| + 1 then CollectorOf(cy, shares, r) == Some(cy.host)
              else && (CollectorOf(cy, shares, r) == None <==> forall e :: !Races(cy, shares, r, e))
                   && forall m: Pubkey :: CollectorOf(cy, shares, r) == Some(m) <==> Leads(cy, shares, r, m)
  {
    hide NextCollector, Races, Leads;
    if CollectorOf(cy, shares, r).Some? {
      forall k | 2 <= k < r
        ensures CollectorOf(cy, shares, k).Some?
      {
        CollectorAt(cy, shares, k, r);
      }
    }
    if 2 <= r <= |cy.order| + 1 && forall k :: 2 <= k < r ==> CollectorOf(cy, shares, k).Some? {
      var before := CollectedBefore(cy, shares, r);
      CollectorStep(cy, shares, before, r);
      if cy.host in cy.order && r == |cy.order| + 1 {
        HostCollectsLast(cy, shares, before, r);
      } else {
        LeaderIsNext(cy, shares, before, r);
      }
    }
  }

  ghost predicate Collected(cy: Cycle, shares: seq<ShareState>, r: int, m: Pubkey)
  {
    exists k :: 2 <= k < r && CollectorOf(cy, shares, k) == Some(m)
  }

  lemma CollectedBefore(cy: Cycle, shares: seq<ShareState>, r: int) returns (before: seq<Pubkey>)
    requires 2 <= r <= |cy.order| + 1 && forall k :: 2 <= k < r ==> CollectorOf(cy, shares, k).Some?
    ensures Collectors(cy, shares, r - 1) == Some(before)
    ensures forall m :: m in before <==> Collected(cy, shares, r, m)
  {
    if r == 2 {
      before := [];
    } else {
      assert CollectorOf(cy, shares, r - 1).Some?;
      before := Collectors(cy, shares, r - 1).value;
      forall k | 2 <= k < r
        ensures CollectorOf(cy, shares, k) == Some(before[k - 2])
      {
        CollectorAt(cy, shares, k, r - 1);
      }
      forall m
        ensures m in before <==> Collected(cy, shares, r, m)
      {
        if m in before {
          var i :| 0 <= i < |before| && before[i] == m;
          assert CollectorOf(cy, shares, i + 2) == Some(m);
        }
      }
    }
  }

  lemma HostCollectsLast(cy: Cycle, shares: seq<ShareState>, before: seq<Pubkey>, r: int)
    requires cy.host in cy.order && r == |cy.order| + 1 && r >= 2 && Collectors(cy, shares, r - 1) == Some(before)
    ensures NextCollector(cy, shares, before, r) == Some(cy.host)
  {
    CollectorsAreDistinct(cy, shares, r - 1);
    HostStillWaits(cy, before);
  }

  lemma EntrantIsRacer(cy: Cycle, shares: seq<ShareState>, before: seq<Pubkey>, r: int, e: ShareState)
    requires r >= 2 && (forall m :: m in before <==> Collected(cy, shares, r, m)) && Races(cy, shares, r, e)
    ensures Racer(e.buyer, e.lockedAt.value) in Elements(Racers(cy.anchor, cy.order, shares, r))
    ensures e.buyer !in Elements(before) + {cy.host}
  {
    hide CollectorOf;
    RacersAreLocks(cy.anchor, cy.order, shares, r);
  }

  lemma RacerIsEntrant(cy: Cycle, shares: seq<ShareState>, before: seq<Pubkey>, r: int, x: Racer)
    returns (e: ShareState)
    requires r >= 2 && forall m :: m in before <==> Collected(cy, shares, r, m)
    requires x in Elements(Racers(cy.anchor, cy.order, shares, r)) && x.member !in Elements(before) + {cy.host}
    ensures Races(cy, shares, r, e) && Racer(e.buyer, e.lockedAt.value) == x
  {
    hide CollectorOf;
    RacersAreLocks(cy.anchor, cy.order, shares, r);
    e :| e in shares && e.policy == PreviousPolicy(r) && e.parent == PreviousId(cy.anchor, r) && e.lockedAt.Some?
         && Racer(e.buyer, e.lockedAt.value) == x;
    assert !Collected(cy, shares, r, e.buyer);
  }

  lemma LeaderIsNext(cy: Cycle, shares: seq<ShareState>, before: seq<Pubkey>, r: int)
    requires 2 <= r <= |cy.order| + 1 && !(cy.host in cy.order && r == |cy.order| + 1)
    requires forall m :: m in before <==> Collected(cy, shares, r, m)
    ensures var next := NextCollector(cy, shares, before, r);
            && (next == None <==> forall e :: !Races(cy, shares, r, e))
            && forall m: Pubkey :: next == Some(m) <==> Leads(cy, shares, r, m)
  {
    hide CollectorOf, Winner, Races, Racers, Collected;
    var racers, excluded := Racers(cy.anchor, cy.order, shares, r), Elements(before) + {cy.host};
    var next := Winner(racers, excluded);
    WinnerIsFastest(racers, excluded);
    if next.Some? {
      WinnerLeads(cy, shares, before, r, next.value);
    } else {
      forall e
        ensures !Races(cy, shares, r, e)
      {
        if Races(cy, shares, r, e) {
          EntrantIsRacer(cy, shares, before, r, e);
          assert false;
        }
      }
    }
    forall m: Pubkey | Leads(cy, shares, r, m)
      ensures next == Some(m)
    {
      LeaderIsFastest(cy, shares, before, r, m);
      FastestIsUnique(Elements(racers), excluded, next, Some(m));
    }
  }

  lemma WinnerLeads(cy: Cycle, shares: seq<ShareState>, before: seq<Pubkey>, r: int, m: Pubkey)
    requires r >= 2 && forall m :: m in before <==> Collected(cy, shares, r, m)
    requires Fastest(Elements(Racers(cy.anchor, cy.order, shares, r)), Elements(before) + {cy.host}, Some(m))
    ensures Leads(cy, shares, r, m) && exists e :: Races(cy, shares, r, e)
  {
    hide CollectorOf, Races, Racers, Collected;
    var racers, excluded := Elements(Racers(cy.anchor, cy.order, shares, r)), Elements(before) + {cy.host};
    var x :| x in racers && x.member == m && forall y :: y in racers && y.member !in excluded ==> !Ahead(y, x);
    var e := RacerIsEntrant(cy, shares, before, r, x);
    EntrantLocked(cy, shares, r, e);
    forall f | Races(cy, shares, r, f)
      ensures LockedFirst(e, f)
    {
      EntrantIsRacer(cy, shares, before, r, f);
      EntrantLocked(cy, shares, r, f);
      assert !Ahead(Racer(f.buyer, f.lockedAt.value), x);
    }
  }

  lemma EntrantLocked(cy: Cycle, shares: seq<ShareState>, r: int, e: ShareState)
    requires Races(cy, shares, r, e)
    ensures e.lockedAt.Some?
  {
  }

  lemma LeaderIsFastest(cy: Cycle, shares: seq<ShareState>, before: seq<Pubkey>, r: int, m: Pubkey)
    requires r >= 2 && (forall m :: m in before <==> Collected(cy, shares, r, m)) && Leads(cy, shares, r, m)
    ensures Fastest(Elements(Racers(cy.anchor, cy.order, shares, r)), Elements(before) + {cy.host}, Some(m))
  {
    hide CollectorOf, Races, Racers, Collected;
    var racers, excluded := Elements(Racers(cy.anchor, cy.order, shares, r)), Elements(before) + {cy.host};
    var e :| Races(cy, shares, r, e) && e.buyer == m && forall f :: Races(cy, shares, r, f) ==> LockedFirst(e, f);
    EntrantIsRacer(cy, shares, before, r, e);
    var x := Racer(e.buyer, e.lockedAt.value);
    forall y | y in racers && y.member !in excluded
      ensures !Ahead(y, x)
    {
      var f := RacerIsEntrant(cy, shares, before, r, y);
      assert LockedFirst(e, f);
    }
  }
}
