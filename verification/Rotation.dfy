/** The pure core of the rotation: the sealed order, the race that names each collector, the outcome law. */
module Rotation {
  import opened Prelude
  import opened Circles

  const COLLECT_WINDOW_SEC := 7 * 86_400

  // ── Ranking by lock time, ties by key ──────────────────────────────────────

  datatype Racer = Racer(member: Pubkey, at: int)

  predicate Ahead(a: Racer, b: Racer)
  {
    a.at < b.at || (a.at == b.at && a.member < b.member)
  }

  predicate Ranked(s: seq<Racer>)
  {
    forall i, j :: 0 <= i < j < |s| ==> !Ahead(s[j], s[i])
  }

  function InsertRacer(x: Racer, s: seq<Racer>): (r: seq<Racer>)
    ensures multiset(r) == multiset(s) + multiset{x}
  {
    if s == [] then [x]
    else if Ahead(s[0], x) then
      assert s == [s[0]] + s[1..];
      [s[0]] + InsertRacer(x, s[1..])
    else [x] + s
  }

  function SortRacers(s: seq<Racer>): (r: seq<Racer>)
    ensures multiset(r) == multiset(s)
  {
    if s == [] then []
    else
      assert s == s[..|s| - 1] + [s[|s| - 1]];
      InsertRacer(s[|s| - 1], SortRacers(s[..|s| - 1]))
  }

  lemma {:induction false} InsertKeepsRanked(x: Racer, s: seq<Racer>)
    requires Ranked(s)
    ensures Ranked(InsertRacer(x, s))
  {
    if s != [] && Ahead(s[0], x) {
      InsertKeepsRanked(x, s[1..]);
      var t := InsertRacer(x, s[1..]);
      forall y | y in t
        ensures !Ahead(y, s[0])
      {
        assert y in multiset(t);
        assert y == x || y in s[1..];
      }
    }
  }

  lemma {:induction false} SortIsRanked(s: seq<Racer>)
    ensures Ranked(SortRacers(s))
  {
    if s != [] {
      SortIsRanked(s[..|s| - 1]);
      InsertKeepsRanked(s[|s| - 1], SortRacers(s[..|s| - 1]));
    }
  }

  lemma SortElements(s: seq<Racer>)
    ensures Elements(SortRacers(s)) == Elements(s)
  {
    forall x
      ensures x in SortRacers(s) <==> x in s
    {
      assert x in SortRacers(s) <==> x in multiset(SortRacers(s));
      assert x in s <==> x in multiset(s);
    }
  }

  /** Two rankings of the same racers, each listed once, are the same ranking. */
  lemma {:induction false} RankingIsUnique(a: seq<Racer>, b: seq<Racer>)
    requires Ranked(a) && Ranked(b) && Distinct(a) && Distinct(b)
    requires Elements(a) == Elements(b)
    ensures a == b
  {
    DistinctCount(a);
    DistinctCount(b);
    if a != [] {
      assert a[0] in Elements(a) && b[0] in Elements(b);
      assert a[0] in b && b[0] in a;
      assert a[0] == b[0];
      assert a == [a[0]] + a[1..] && b == [b[0]] + b[1..];
      assert Elements(a[1..]) == Elements(a) - {a[0]};
      assert Elements(b[1..]) == Elements(b) - {b[0]};
      RankingIsUnique(a[1..], b[1..]);
    }
  }

  // ── The winner of one race ─────────────────────────────────────────────────

  function FirstOutside(s: seq<Racer>, excluded: set<Pubkey>): Option<Pubkey>
  {
    if s == [] then None
    else if s[0].member !in excluded then Some(s[0].member)
    else FirstOutside(s[1..], excluded)
  }

  /** The best ranked racer who is not excluded. */
  function Winner(racers: seq<Racer>, excluded: set<Pubkey>): Option<Pubkey>
  {
    FirstOutside(SortRacers(racers), excluded)
  }

  /** What winning means, without any sorting: nobody eligible is ahead. */
  ghost predicate Fastest(racers: set<Racer>, excluded: set<Pubkey>, w: Option<Pubkey>)
  {
    match w
    case None => forall x :: x in racers ==> x.member in excluded
    case Some(m) =>
      && m !in excluded
      && exists x :: x in racers && x.member == m
                     && forall y :: y in racers && y.member !in excluded ==> !Ahead(y, x)
  }

  lemma {:induction false} FirstOutsideIsFastest(s: seq<Racer>, excluded: set<Pubkey>)
    requires Ranked(s)
    ensures Fastest(Elements(s), excluded, FirstOutside(s, excluded))
  {
    if s != [] {
      assert s[0] in Elements(s);
      assert Elements(s) == {s[0]} + Elements(s[1..]);
      if s[0].member in excluded {
        FirstOutsideIsFastest(s[1..], excluded);
      } else {
        forall y | y in Elements(s)
          ensures !Ahead(y, s[0])
        {
          var i :| 0 <= i < |s| && s[i] == y;
        }
      }
    }
  }

  lemma WinnerIsFastest(racers: seq<Racer>, excluded: set<Pubkey>)
    ensures Fastest(Elements(racers), excluded, Winner(racers, excluded))
  {
    SortIsRanked(racers);
    SortElements(racers);
    FirstOutsideIsFastest(SortRacers(racers), excluded);
  }

  lemma FastestIsUnique(racers: set<Racer>, excluded: set<Pubkey>, v: Option<Pubkey>, w: Option<Pubkey>)
    requires Fastest(racers, excluded, v) && Fastest(racers, excluded, w)
    ensures v == w
  {
  }

  /** A race depends on who locked when, never on the order the locks were listed in. */
  lemma WinnerFromSet(a: seq<Racer>, b: seq<Racer>, excluded: set<Pubkey>)
    requires Elements(a) == Elements(b)
    ensures Winner(a, excluded) == Winner(b, excluded)
  {
    WinnerIsFastest(a, excluded);
    WinnerIsFastest(b, excluded);
    FastestIsUnique(Elements(a), excluded, Winner(a, excluded), Winner(b, excluded));
  }

  // ── The commitment round and the sealed order ──────────────────────────────

  datatype SeatStatus = Reserved | Locked | Returned | Refunded | Paid

  datatype SeatLock = SeatLock(circleId: Id, member: Pubkey, escrowId: Option<Id>, lockedAt: Option<int>,
                               status: SeatStatus)

  predicate CommitmentShare(anchor: Id, e: ShareState)
  {
    e.policy == ShareV1 && e.parent == anchor
  }

  /** One seat for each locked share of the commitment round, in listing order. */
  function CommitmentSeats(anchor: Id, shares: seq<ShareState>): seq<SeatLock>
  {
    if shares == [] then []
    else
      var n := |shares| - 1;
      var e := shares[n];
      CommitmentSeats(anchor, shares[..n])
      + (if CommitmentShare(anchor, e) && e.lockedAt.Some?
            && (forall i :: 0 <= i < n && CommitmentShare(anchor, shares[i]) ==> shares[i].id != e.id)
         then [SeatLock(anchor, e.buyer, Some(e.id), e.lockedAt, Locked)] else [])
  }

  /** Which seats there are: one for each escrow of the commitment round whose first listed state is locked. */
  lemma {:induction false} FirstStateCounts(anchor: Id, shares: seq<ShareState>)
    ensures forall l :: l in CommitmentSeats(anchor, shares)
              <==> exists i :: && 0 <= i < |shares| && FirstOfCommitment(anchor, shares, i)
                               && shares[i].lockedAt.Some?
                               && l == SeatLock(anchor, shares[i].buyer, Some(shares[i].id), shares[i].lockedAt, Locked)
  {
    if shares != [] {
      var n := |shares| - 1;
      FirstStateCounts(anchor, shares[..n]);
      forall i | 0 <= i < n
        ensures FirstOfCommitment(anchor, shares[..n], i) <==> FirstOfCommitment(anchor, shares, i)
      {
        assert shares[..n][i] == shares[i];
      }
    }
  }

  /** The share at i belongs to the commitment round, and no earlier listed one there has its id. */
  ghost predicate FirstOfCommitment(anchor: Id, shares: seq<ShareState>, i: int)
    requires 0 <= i < |shares|
  {
    && shares[i].policy == ShareV1 && shares[i].parent == anchor
    && forall j :: 0 <= j < i && shares[j].policy == ShareV1 && shares[j].parent == anchor ==>
         shares[j].id != shares[i].id
  }

  method CommitmentLocks(anchor: Id, shares: seq<ShareState>) returns (out: seq<SeatLock>)
    ensures out == CommitmentSeats(anchor, shares)
  {
    var seen: set<Id> := {};
    out := [];
    for k := 0 to |shares|
      invariant seen == set i | 0 <= i < k && CommitmentShare(anchor, shares[i]) :: shares[i].id
      invariant out == CommitmentSeats(anchor, shares[..k])
    {
      var e := shares[k];
      assert shares[..k + 1][..k] == shares[..k];
      if CommitmentShare(anchor, e) && e.id !in seen {
        seen := seen + {e.id};
        if e.lockedAt.Some? {
          out := out + [SeatLock(anchor, e.buyer, Some(e.id), e.lockedAt, Locked)];
        }
      }
    }
    assert shares[..|shares|] == shares;
  }

  function SeatedIn(circleId: Id): SeatLock -> Option<Racer>
  {
    (l: SeatLock) => if l.circleId == circleId && l.lockedAt.Some? && l.status != Reserved
                     then Some(Racer(l.member, l.lockedAt.value)) else None
  }

  function Members(racers: seq<Racer>): set<Pubkey> { set x | x in racers :: x.member }

  /** One seat per member: the first listed lock counts. */
  function FirstPerMember(racers: seq<Racer>): seq<Racer>
  {
    if racers == [] then []
    else
      var n := |racers| - 1;
      FirstPerMember(racers[..n]) + (if racers[n].member in Members(racers[..n]) then [] else [racers[n]])
  }

  function NamesExcept(host: Pubkey, s: seq<Racer>): seq<Pubkey>
  {
    if s == [] then []
    else
      var n := |s| - 1;
      NamesExcept(host, s[..n]) + (if s[n].member == host then [] else [s[n].member])
  }

  function OrderOf(host: Pubkey, racers: seq<Racer>): seq<Pubkey>
  {
    NamesExcept(host, SortRacers(FirstPerMember(racers))) + (if host in Members(racers) then [host] else [])
  }

  /** Round-1 lock order with the host pinned last. */
  function RotationOrder(circleId: Id, host: Pubkey, locks: seq<SeatLock>): seq<Pubkey>
  {
    OrderOf(host, Collect(SeatedIn(circleId), locks))
  }

  /** Who is seated: whoever has a dated seat of the circle that is more than reserved. */
  lemma SeatedOnceLocked(circleId: Id, host: Pubkey, locks: seq<SeatLock>, m: Pubkey)
    ensures m in RotationOrder(circleId, host, locks)
        <==> exists l :: l in locks && l.circleId == circleId && l.member == m && l.lockedAt.Some?
                         && l.status in {Locked, Returned, Refunded, Paid}
  {
    hide OrderOf;
    var racers := Collect(SeatedIn(circleId), locks);
    CollectMembers(SeatedIn(circleId), locks);
    OrderSpec(host, racers);
    assert m in RotationOrder(circleId, host, locks) <==> m in Elements(OrderOf(host, racers));
    if m in Members(racers) {
      var x :| x in racers && x.member == m;
    }
    if l :| l in locks && l.circleId == circleId && l.member == m && l.lockedAt.Some? && l.status != Reserved {
      assert SeatedIn(circleId)(l) == Some(Racer(m, l.lockedAt.value));
      assert Racer(m, l.lockedAt.value) in racers;
    }
  }

  predicate OnePerMember(s: seq<Racer>)
  {
    forall i, j :: 0 <= i < j < |s| ==> s[i].member != s[j].member
  }

  lemma {:induction false} CountMembers(s: seq<Racer>)
    ensures |Members(s)| <= |s|
    ensures |Members(s)| == |s| <==> OnePerMember(s)
  {
    if s != [] {
      var n := |s| - 1;
      CountMembers(s[..n]);
      FirstPerMemberStep(s, n);
      OneMoreMember(s, n);
      hide OnePerMember, Members;
    }
  }

  lemma OneMoreMember(s: seq<Racer>, n: nat)
    requires |s| == n + 1
    ensures OnePerMember(s) <==> OnePerMember(s[..n]) && s[n].member !in Members(s[..n])
  {
    assert forall i :: 0 <= i < n ==> s[..n][i] == s[i];
    if s[n].member in Members(s[..n]) {
      var x :| x in s[..n] && x.member == s[n].member;
      var i :| 0 <= i < n && s[..n][i] == x;
      assert s[i].member == s[n].member;
    } else {
      assert forall i :: 0 <= i < n ==> s[..n][i].member in Members(s[..n]);
    }
  }

  lemma FirstPerMemberStep(racers: seq<Racer>, n: nat)
    requires |racers| == n + 1
    ensures Members(racers) == Members(racers[..n]) + {racers[n].member}
    ensures Elements(racers) == Elements(racers[..n]) + {racers[n]}
  {
    assert racers == racers[..n] + [racers[n]];
  }

  lemma {:induction false} FirstPerMemberSpec(racers: seq<Racer>)
    ensures Members(FirstPerMember(racers)) == Members(racers)
    ensures Elements(FirstPerMember(racers)) <= Elements(racers)
  {
    if racers != [] {
      var n := |racers| - 1;
      var v, u := FirstPerMember(racers[..n]), FirstPerMember(racers);
      FirstPerMemberSpec(racers[..n]);
      FirstPerMemberStep(racers, n);
      if racers[n].member !in Members(racers[..n]) {
        assert u[..|v|] == v;
        FirstPerMemberStep(u, |v|);
      } else {
        assert u == v;
      }
    }
  }

  lemma {:induction false} FirstPerMemberOnce(racers: seq<Racer>)
    ensures OnePerMember(FirstPerMember(racers))
  {
    if racers != [] {
      var n := |racers| - 1;
      FirstPerMemberOnce(racers[..n]);
      FirstPerMemberSpec(racers[..n]);
      var v := FirstPerMember(racers[..n]);
      forall i | 0 <= i < |v| && racers[n].member !in Members(racers[..n])
        ensures v[i].member != racers[n].member
      {
        assert v[i].member in Members(v);
      }
    }
  }

  /** The ranking behind the order: everyone once, by lock time then key. */
  lemma SeatRanking(racers: seq<Racer>)
    ensures var s := SortRacers(FirstPerMember(racers));
            Ranked(s) && OnePerMember(s) && Elements(s) <= Elements(racers) && Members(s) == Members(racers)
  {
    var u := FirstPerMember(racers);
    var s := SortRacers(u);
    FirstPerMemberSpec(racers);
    FirstPerMemberOnce(racers);
    CountMembers(u);
    SortIsRanked(u);
    SortElements(u);
    assert |s| == |u| by {
      assert |multiset(s)| == |s| && |multiset(u)| == |u|;
    }
    MembersFromElements(s, u);
    CountMembers(s);
  }

  lemma MembersFromElements(a: seq<Racer>, b: seq<Racer>)
    requires Elements(a) == Elements(b)
    ensures Members(a) == Members(b)
  {
    assert Members(a) == set x | x in Elements(a) :: x.member;
    assert Members(b) == set x | x in Elements(b) :: x.member;
  }

  lemma {:induction false} NamesSpec(host: Pubkey, s: seq<Racer>)
    requires OnePerMember(s)
    ensures Distinct(NamesExcept(host, s))
    ensures Elements(NamesExcept(host, s)) == Members(s) - {host}
  {
    if s != [] {
      var n := |s| - 1;
      NamesSpec(host, s[..n]);
      assert s == s[..n] + [s[n]];
      assert Members(s) == Members(s[..n]) + {s[n].member};
      var c, d := NamesExcept(host, s[..n]), NamesExcept(host, s);
      if s[n].member != host {
        assert Elements(d) == Elements(c) + {s[n].member};
        assert s[n].member !in Elements(c);
      }
    }
  }

  /** The sealed order seats exactly the members who locked, once each, and the host only in last place. */
  lemma OrderSpec(host: Pubkey, racers: seq<Racer>)
    ensures Distinct(OrderOf(host, racers))
    ensures Elements(OrderOf(host, racers)) == Members(racers)
    ensures forall i :: 0 <= i < |OrderOf(host, racers)| && OrderOf(host, racers)[i] == host ==>
                          i == |OrderOf(host, racers)| - 1
  {
    var s := SortRacers(FirstPerMember(racers));
    var c := NamesExcept(host, s);
    SeatRanking(racers);
    NamesSpec(host, s);
    assert host !in Elements(c);
    if host in Members(racers) {
      AppendLast(c, host);
    } else {
      assert OrderOf(host, racers) == c;
    }
  }

  lemma AppendLast(c: seq<Pubkey>, host: Pubkey)
    requires Distinct(c) && host !in Elements(c)
    ensures Distinct(c + [host])
    ensures Elements(c + [host]) == Elements(c) + {host}
    ensures forall i :: 0 <= i < |c| ==> c[i] != host
  {
  }

  lemma {:induction false} NamesAreRanked(host: Pubkey, s: seq<Racer>, i: int, j: int) returns (a: Racer, b: Racer)
    requires Ranked(s) && OnePerMember(s)
    requires 0 <= i < j < |NamesExcept(host, s)|
    ensures a in s && b in s && Ahead(a, b)
    ensures a.member == NamesExcept(host, s)[i] && b.member == NamesExcept(host, s)[j]
  {
    var n := |s| - 1;
    var c := NamesExcept(host, s[..n]);
    if j < |c| {
      a, b := NamesAreRanked(host, s[..n], i, j);
    } else {
      NamesSpec(host, s[..n]);
      assert c[i] in Elements(c);
      assert c[i] in Members(s[..n]);
      var k :| 0 <= k < n && s[..n][k].member == c[i];
      a, b := s[k], s[n];
    }
  }

  /** Earlier in the order means locked earlier, ties going to the smaller key; the host is exempt. */
  lemma OrderIsByLockTime(host: Pubkey, racers: seq<Racer>, i: int, j: int) returns (a: Racer, b: Racer)
    requires 0 <= i < j < |OrderOf(host, racers)| && OrderOf(host, racers)[j] != host
    ensures a in racers && b in racers && Ahead(a, b)
    ensures a.member == OrderOf(host, racers)[i] && b.member == OrderOf(host, racers)[j]
  {
    SeatRanking(racers);
    var s := SortRacers(FirstPerMember(racers));
    a, b := NamesAreRanked(host, s, i, j);
    assert a in Elements(s) && b in Elements(s);
  }

  ghost predicate OneLockEach(racers: set<Racer>)
  {
    forall x, y :: x in racers && y in racers && x.member == y.member ==> x == y
  }

  lemma FirstPerMemberAll(racers: seq<Racer>)
    requires OneLockEach(Elements(racers))
    ensures Elements(FirstPerMember(racers)) == Elements(racers)
  {
    FirstPerMemberSpec(racers);
    var u := FirstPerMember(racers);
    forall x | x in Elements(racers)
      ensures x in Elements(u)
    {
      assert x.member in Members(racers);
      var y :| y in u && y.member == x.member;
      assert y in Elements(u);
    }
  }

  /** With one lock per member the order depends only on who locked when, not on the listing order. */
  lemma OrderFromSet(host: Pubkey, a: seq<Racer>, b: seq<Racer>)
    requires Elements(a) == Elements(b) && OneLockEach(Elements(a))
    ensures OrderOf(host, a) == OrderOf(host, b)
  {
    FirstPerMemberAll(a);
    FirstPerMemberAll(b);
    var s, t := SortRacers(FirstPerMember(a)), SortRacers(FirstPerMember(b));
    SeatRanking(a);
    SeatRanking(b);
    SortElements(FirstPerMember(a));
    SortElements(FirstPerMember(b));
    assert Distinct(s) && Distinct(t);
    RankingIsUnique(s, t);
    MembersFromElements(a, b);
  }
}
