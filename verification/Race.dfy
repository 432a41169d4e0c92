/** The weekly race: who collects in each round of a cycle, and what a whole cycle pays. */
module Race {
  import opened Prelude
  import opened Circles
  import opened Rotation

  // ── Who locked in which round ──────────────────────────────────────────────

  /** The round whose locks are raced for round r's collection. */
  function PreviousId(anchor: Id, r: int): Id
  {
    if r == 2 then anchor else RoundOf(anchor, r - 1)
  }

  function PreviousPolicy(r: int): Policy
  {
    if r == 2 then ShareV1 else ShareV2
  }

  function RacerIn(policy: Policy, parent: Id, order: seq<Pubkey>): ShareState -> Option<Racer>
  {
    (e: ShareState) => if e.policy == policy && e.parent == parent && e.lockedAt.Some? && e.buyer in order
                       then Some(Racer(e.buyer, e.lockedAt.value)) else None
  }

  /** The field of the race that names round r's collector. */
  function Racers(anchor: Id, order: seq<Pubkey>, shares: seq<ShareState>, r: int): seq<Racer>
  {
    Collect(RacerIn(PreviousPolicy(r), PreviousId(anchor, r), order), shares)
  }

  /** Every lock of one round, as a set. */
  ghost function LocksOf(policy: Policy, parent: Id, shares: seq<ShareState>): set<Racer>
  {
    set e | e in shares && e.policy == policy && e.parent == parent && e.lockedAt.Some? ::
        Racer(e.buyer, e.lockedAt.value)
  }

  lemma RacersAreLocks(anchor: Id, order: seq<Pubkey>, shares: seq<ShareState>, r: int)
    ensures Elements(Racers(anchor, order, shares, r))
         == set x | x in LocksOf(PreviousPolicy(r), PreviousId(anchor, r), shares) && x.member in order
  {
    CollectMembers(RacerIn(PreviousPolicy(r), PreviousId(anchor, r), order), shares);
  }

  // ── Collectors ─────────────────────────────────────────────────────────────

  /** A sealed cycle: its anchor, its members in order, and its host. */
  datatype Cycle = Cycle(anchor: Id, order: seq<Pubkey>, host: Pubkey)

  /** Who collects round r when `before` already collected: the host in the last round, else the fastest left. */
  function NextCollector(cy: Cycle, shares: seq<ShareState>, before: seq<Pubkey>, r: int): Option<Pubkey>
  {
    if cy.host in cy.order && r == |cy.order| + 1 then
      (if cy.host in before then None else Some(cy.host))
    else Winner(Racers(cy.anchor, cy.order, shares, r), Elements(before) + {cy.host})
  }

  /** The collectors of rounds 2..r, or None when some race among them has no eligible locker. */
  function Collectors(cy: Cycle, shares: seq<ShareState>, r: int): (c: Option<seq<Pubkey>>)
    ensures c.Some? ==> |c.value| == Max(r - 1, 0)
    decreases r
  {
    if r < 2 then Some([])
    else
      var before := Collectors(cy, shares, r - 1);
      if before.None? then None
      else
        var next := NextCollector(cy, shares, before.value, r);
        if next.None? then None else Some(before.value + [next.value])
  }

  /** The collector of round r; None means no lawful collector. */
  function CollectorOf(cy: Cycle, shares: seq<ShareState>, r: int): Option<Pubkey>
  {
    if r < 2 || r > |cy.order| + 1 then None
    else
      var c := Collectors(cy, shares, r);
      if c.None? then None else Some(c.value[|c.value| - 1])
  }

  method CollectorForRound(cy: Cycle, shares: seq<ShareState>, roundIndex: int) returns (collector: Option<Pubkey>)
    ensures collector == CollectorOf(cy, shares, roundIndex)
  {
    if roundIndex < 2 || roundIndex > |cy.order| + 1 {
      return None;
    }
    var hostSeated := cy.host in cy.order;
    var collected: set<Pubkey> := {};
    ghost var named: seq<Pubkey> := [];
    collector := None;
    var r := 2;
    while r <= roundIndex
      invariant 2 <= r <= roundIndex + 1
      invariant Collectors(cy, shares, r - 1) == Some(named)
      invariant collected == Elements(named)
      invariant r > 2 ==> collector == CollectorOf(cy, shares, r - 1)
    {
      CollectorStep(cy, shares, named, r);
      if hostSeated && r == |cy.order| + 1 {
        collector := if cy.host in collected then None else Some(cy.host);
        return;
      }
      collector := RunRace(cy, shares, collected, r, named);
      if collector.None? {
        NoCollectorAfter(cy, shares, r, roundIndex);
        return;
      }
      named := named + [collector.value];
      collected := collected + {collector.value};
      r := r + 1;
    }
  }

  /** One turn of the loop: the collector of round r, given those before it. */
  lemma CollectorStep(cy: Cycle, shares: seq<ShareState>, before: seq<Pubkey>, r: int)
    requires 2 <= r <= |cy.order| + 1 && Collectors(cy, shares, r - 1) == Some(before)
    ensures var next := NextCollector(cy, shares, before, r);
            && CollectorOf(cy, shares, r) == next
            && (next.Some? ==> Collectors(cy, shares, r) == Some(before + [next.value])
                               && Elements(before + [next.value]) == Elements(before) + {next.value})
            && (next.None? ==> Collectors(cy, shares, r) == None)
  {
  }

  lemma NoCollectorAfter(cy: Cycle, shares: seq<ShareState>, r: int, s: int)
    requires 2 <= r <= s && Collectors(cy, shares, r) == None
    ensures CollectorOf(cy, shares, s) == None
  {
    CollectorsPrefix(cy, shares, r, s);
  }

  /** Ranks round r-1's lockers and names the best one who is still waiting. */
  method RunRace(cy: Cycle, shares: seq<ShareState>, collected: set<Pubkey>, r: int, ghost before: seq<Pubkey>)
    returns (collector: Option<Pubkey>)
    requires collected == Elements(before) && !(cy.host in cy.order && r == |cy.order| + 1)
    ensures collector == NextCollector(cy, shares, before, r)
  {
    var f := RacerIn(PreviousPolicy(r), PreviousId(cy.anchor, r), cy.order);
    var ranked := [];
    for k := 0 to |shares|
      invariant ranked == Collect(f, shares[..k])
    {
      CollectStep(f, shares, k);
      var e := shares[k];
      if e.policy == PreviousPolicy(r) && e.parent == PreviousId(cy.anchor, r) && e.lockedAt.Some?
          && e.buyer in cy.order {
        ranked := ranked + [Racer(e.buyer, e.lockedAt.value)];
      }
    }
    assert shares[..|shares|] == shares;
    ranked := SortRacers(ranked);
    collector := FirstOutside(ranked, collected + (if cy.host in cy.order then {cy.host} else {}));
    RaceDecides(cy, shares, before, r);
  }

  /** Excluding the host only when seated is excluding the host: an unseated host never races. */
  lemma RaceDecides(cy: Cycle, shares: seq<ShareState>, before: seq<Pubkey>, r: int)
    requires !(cy.host in cy.order && r == |cy.order| + 1)
    ensures var excluded := Elements(before) + (if cy.host in cy.order then {cy.host} else {});
            FirstOutside(SortRacers(Racers(cy.anchor, cy.order, shares, r)), excluded)
                == NextCollector(cy, shares, before, r)
  {
    if cy.host !in cy.order {
      var racers, few, many :=
          Racers(cy.anchor, cy.order, shares, r), Elements(before) + {}, Elements(before) + {cy.host};
      RacersAreLocks(cy.anchor, cy.order, shares, r);
      WinnerIsFastest(racers, few);
      WinnerIsFastest(racers, many);
      FastestIsUnique(Elements(racers), few, Winner(racers, few), Winner(racers, many));
    }
  }

  /** The list of collectors only ever grows with the round, and a missing one ends it. */
  lemma {:induction false} CollectorsPrefix(cy: Cycle, shares: seq<ShareState>, r: int, s: int)
    requires 1 <= r <= s
    ensures var c, d := Collectors(cy, shares, r), Collectors(cy, shares, s);
            d.Some? ==> c.Some? && c.value == d.value[..r - 1]
    decreases s
  {
    if r < s {
      CollectorsPrefix(cy, shares, r, s - 1);
      var d, e := Collectors(cy, shares, s), Collectors(cy, shares, s - 1);
      if d.Some? {
        assert d.value[..s - 2] == e.value;
        assert d.value[..r - 1] == e.value[..r - 1];
      }
    }
  }

  /** The collector of round k reads the same off any longer list. */
  lemma CollectorAt(cy: Cycle, shares: seq<ShareState>, k: int, r: int)
    requires 2 <= k <= r <= |cy.order| + 1
    requires Collectors(cy, shares, r).Some?
    ensures CollectorOf(cy, shares, k) == Some(Collectors(cy, shares, r).value[k - 2])
  {
    CollectorsPrefix(cy, shares, k, r);
  }

  lemma NextIsNew(cy: Cycle, shares: seq<ShareState>, before: seq<Pubkey>, r: int)
    ensures var next := NextCollector(cy, shares, before, r);
            next.Some? ==>
              && next.value in cy.order && next.value !in before
              && (next.value == cy.host ==> r == |cy.order| + 1)
  {
    if !(cy.host in cy.order && r == |cy.order| + 1) {
      RacersAreLocks(cy.anchor, cy.order, shares, r);
      WinnerIsFastest(Racers(cy.anchor, cy.order, shares, r), Elements(before) + {cy.host});
    }
  }

  /** Nobody collects twice, only sealed members collect, and a seated host only in the last round. */
  lemma {:induction false} CollectorsAreDistinct(cy: Cycle, shares: seq<ShareState>, r: int)
    requires r <= |cy.order| + 1
    requires Collectors(cy, shares, r).Some?
    ensures var c := Collectors(cy, shares, r).value;
            && Distinct(c)
            && Elements(c) <= Elements(cy.order)
            && (forall i :: 0 <= i < |c| && c[i] == cy.host ==> i + 2 == |cy.order| + 1)
    decreases r
  {
    if r >= 2 {
      CollectorsAreDistinct(cy, shares, r - 1);
      var before := Collectors(cy, shares, r - 1).value;
      var c := Collectors(cy, shares, r).value;
      NextIsNew(cy, shares, before, r);
      assert c == before + [c[|c| - 1]];
    }
  }

  /** A full cycle pays every sealed member exactly once, the seated host last. */
  lemma FullCycleIsAPermutation(cy: Cycle, shares: seq<ShareState>)
    requires Distinct(cy.order)
    requires Collectors(cy, shares, |cy.order| + 1).Some?
    ensures var c := Collectors(cy, shares, |cy.order| + 1).value;
            && Distinct(c) && |c| == |cy.order| && Elements(c) == Elements(cy.order)
            && (cy.host in cy.order ==> c[|c| - 1] == cy.host)
  {
    CollectorsAreDistinct(cy, shares, |cy.order| + 1);
    DistinctCount(cy.order);
    Pigeonhole(Collectors(cy, shares, |cy.order| + 1).value, Elements(cy.order));
    if |cy.order| == 0 {
      assert cy.host !in cy.order;
    }
  }

  lemma NextFromLocks(cy: Cycle, a: seq<ShareState>, b: seq<ShareState>, before: seq<Pubkey>, r: int)
    requires LocksOf(PreviousPolicy(r), PreviousId(cy.anchor, r), a)
        == LocksOf(PreviousPolicy(r), PreviousId(cy.anchor, r), b)
    ensures NextCollector(cy, a, before, r) == NextCollector(cy, b, before, r)
  {
    RacersAreLocks(cy.anchor, cy.order, a, r);
    RacersAreLocks(cy.anchor, cy.order, b, r);
    WinnerFromSet(Racers(cy.anchor, cy.order, a, r), Racers(cy.anchor, cy.order, b, r), Elements(before) + {cy.host});
  }

  /** Collectors of rounds up to r depend only on the locks of the rounds before r. */
  lemma {:induction false} CollectorsFromLocks(cy: Cycle, a: seq<ShareState>, b: seq<ShareState>, r: int)
    requires forall k :: 2 <= k <= r ==>
               LocksOf(PreviousPolicy(k), PreviousId(cy.anchor, k), a)
                   == LocksOf(PreviousPolicy(k), PreviousId(cy.anchor, k), b)
    ensures Collectors(cy, a, r) == Collectors(cy, b, r)
    decreases r
  {
    if r >= 2 {
      CollectorsFromLocks(cy, a, b, r - 1);
      if Collectors(cy, a, r - 1).Some? {
        NextFromLocks(cy, a, b, Collectors(cy, a, r - 1).value, r);
      }
    }
  }

  // ── No deadlock ────────────────────────────────────────────────────────────

  /** Round k filled: it had a collector, and every other sealed member locked a share of it. */
  ghost predicate RoundFilled(cy: Cycle, shares: seq<ShareState>, k: int)
  {
    var c := CollectorOf(cy, shares, k);
    c.Some? && forall m :: m in cy.order && m != c.value ==>
      exists x :: x in LocksOf(ShareV2, RoundOf(cy.anchor, k), shares) && x.member == m
  }

  ghost predicate CommitmentFilled(cy: Cycle, shares: seq<ShareState>)
  {
    forall m :: m in cy.order ==> exists x :: x in LocksOf(ShareV1, cy.anchor, shares) && x.member == m
  }

  /** A race with an eligible locker has a winner. */
  lemma RaceHasWinner(cy: Cycle, shares: seq<ShareState>, before: seq<Pubkey>, r: int, x: Racer)
    requires !(cy.host in cy.order && r == |cy.order| + 1)
    requires x in LocksOf(PreviousPolicy(r), PreviousId(cy.anchor, r), shares)
    requires x.member in cy.order && x.member !in before && x.member != cy.host
    ensures NextCollector(cy, shares, before, r).Some?
  {
    RacersAreLocks(cy.anchor, cy.order, shares, r);
    WinnerIsFastest(Racers(cy.anchor, cy.order, shares, r), Elements(before) + {cy.host});
  }

  /** If the round before r filled, round r has a collector: a cycle never stalls on an empty race. */
  lemma NoDeadlock(cy: Cycle, shares: seq<ShareState>, r: int)
    requires Distinct(cy.order) && 2 <= r <= |cy.order| + 1
    requires if r == 2 then CommitmentFilled(cy, shares) else RoundFilled(cy, shares, r - 1)
    ensures CollectorOf(cy, shares, r).Some?
  {
    var before := Collectors(cy, shares, r - 1).value;
    CollectorsAreDistinct(cy, shares, r - 1);
    HostStillWaits(cy, before);
    if !(cy.host in cy.order && r == |cy.order| + 1) {
      var m := UncollectedMember(cy, before, r);
      var x := UncollectedLocked(cy, shares, before, r, m);
      RaceHasWinner(cy, shares, before, r, x);
    }
  }

  lemma HostStillWaits(cy: Cycle, before: seq<Pubkey>)
    requires |before| < |cy.order|
    requires forall i :: 0 <= i < |before| && before[i] == cy.host ==> i + 2 == |cy.order| + 1
    ensures cy.host !in before
  {
  }

  lemma UncollectedLocked(cy: Cycle, shares: seq<ShareState>, before: seq<Pubkey>, r: int, m: Pubkey) returns (x: Racer)
    requires 2 <= r <= |cy.order| + 1 && Collectors(cy, shares, r - 1) == Some(before)
    requires if r == 2 then CommitmentFilled(cy, shares) else RoundFilled(cy, shares, r - 1)
    requires m in cy.order && m !in before
    ensures x in LocksOf(PreviousPolicy(r), PreviousId(cy.anchor, r), shares) && x.member == m
  {
    if r > 2 {
      assert before[|before| - 1] in before;
      x :| x in LocksOf(ShareV2, RoundOf(cy.anchor, r - 1), shares) && x.member == m;
    } else {
      x :| x in LocksOf(ShareV1, cy.anchor, shares) && x.member == m;
    }
  }

  /** Before the last payday somebody other than the host has not collected yet. */
  lemma UncollectedMember(cy: Cycle, before: seq<Pubkey>, r: int) returns (m: Pubkey)
    requires Distinct(cy.order) && |before| == r - 2
    requires 2 <= r <= |cy.order| + 1 && !(cy.host in cy.order && r == |cy.order| + 1)
    ensures m in cy.order && m !in before && m != cy.host
  {
    var seatedHost := if cy.host in cy.order then {cy.host} else {};
    var left := Elements(cy.order) - Elements(before) - seatedHost;
    DistinctCount(cy.order);
    ElementsBound(before);
    SubsetSize(Elements(cy.order), Elements(before) + seatedHost + left);
    assert |left| > 0;
    m :| m in left;
  }

  // ── What a cycle pays ──────────────────────────────────────────────────────

  datatype Transfer = Transfer(payer: Pubkey, payee: Pubkey, msats: nat)

  function PayTo(collector: Pubkey, share: nat): Pubkey -> Option<Transfer>
  {
    (m: Pubkey) => if m == collector then None else Some(Transfer(m, collector, share))
  }

  /** A released round: every sealed member but the collector hands over one share. */
  function Payday(order: seq<Pubkey>, collector: Pubkey, share: nat): seq<Transfer>
  {
    Collect(PayTo(collector, share), order)
  }

  function Paydays(order: seq<Pubkey>, collectors: seq<Pubkey>, share: nat): seq<Transfer>
  {
    if collectors == [] then []
    else Paydays(order, collectors[..|collectors| - 1], share) + Payday(order, collectors[|collectors| - 1], share)
  }

  function Paid(m: Pubkey, ts: seq<Transfer>): nat
  {
    if ts == [] then 0
    else Paid(m, ts[..|ts| - 1]) + (if ts[|ts| - 1].payer == m then ts[|ts| - 1].msats else 0)
  }

  function Received(m: Pubkey, ts: seq<Transfer>): nat
  {
    if ts == [] then 0
    else Received(m, ts[..|ts| - 1]) + (if ts[|ts| - 1].payee == m then ts[|ts| - 1].msats else 0)
  }

  function TotalNet(order: seq<Pubkey>, ts: seq<Transfer>): int
  {
    if order == [] then 0
    else TotalNet(order[..|order| - 1], ts) + Received(order[|order| - 1], ts) - Paid(order[|order| - 1], ts)
  }

  lemma {:induction false} SumsSplit(m: Pubkey, a: seq<Transfer>, b: seq<Transfer>)
    ensures Paid(m, a + b) == Paid(m, a) + Paid(m, b)
    ensures Received(m, a + b) == Received(m, a) + Received(m, b)
  {
    if b == [] {
      assert a + b == a;
    } else {
      var n := |b| - 1;
      assert (a + b)[..|a + b| - 1] == a + b[..n];
      SumsSplit(m, a, b[..n]);
    }
  }

  /** One payday: a member pays one share unless collecting. */
  lemma {:induction false} PaidOnPayday(m: Pubkey, order: seq<Pubkey>, c: Pubkey, share: nat)
    requires Distinct(order)
    ensures Paid(m, Payday(order, c, share)) == (if m in order && m != c then share else 0)
  {
    if order != [] {
      var n := |order| - 1;
      PaidOnPayday(m, order[..n], c, share);
      assert order == order[..n] + [order[n]];
      if order[n] != c {
        SumsSplit(m, Payday(order[..n], c, share), [Transfer(order[n], c, share)]);
        SingleSums(m, Transfer(order[n], c, share));
      } else {
        assert Payday(order, c, share) == Payday(order[..n], c, share);
      }
    }
  }

  /** One payday: the collector gets a share from everyone else listed, and nobody else gets anything. */
  lemma {:induction false} ReceivedOnPayday(m: Pubkey, order: seq<Pubkey>, c: Pubkey, share: nat)
    requires Distinct(order)
    ensures Received(m, Payday(order, c, share))
         == (if m == c then (|order| - (if c in order then 1 else 0)) * share else 0)
  {
    if order != [] {
      var n := |order| - 1;
      ReceivedOnPayday(m, order[..n], c, share);
      assert order == order[..n] + [order[n]];
      if order[n] != c {
        SumsSplit(m, Payday(order[..n], c, share), [Transfer(order[n], c, share)]);
        SingleSums(m, Transfer(order[n], c, share));
        Scale(n - (if c in order[..n] then 1 else 0), share);
      } else {
        assert Payday(order, c, share) == Payday(order[..n], c, share);
      }
    }
  }

  lemma SingleSums(m: Pubkey, t: Transfer)
    ensures Paid(m, [t]) == if t.payer == m then t.msats else 0
    ensures Received(m, [t]) == if t.payee == m then t.msats else 0
  {
    assert [t][..0] == [];
  }

  /** After any number of paydays a member has paid one share for each payday that was someone else's. */
  lemma {:induction false} AccountsAfter(m: Pubkey, order: seq<Pubkey>, collectors: seq<Pubkey>, share: nat)
    requires Distinct(order) && m in order
    requires Distinct(collectors) && Elements(collectors) <= Elements(order)
    ensures Paid(m, Paydays(order, collectors, share)) == (|collectors| - (if m in collectors then 1 else 0)) * share
    ensures Received(m, Paydays(order, collectors, share)) == (if m in collectors then (|order| - 1) * share else 0)
  {
    if collectors != [] {
      var n := |collectors| - 1;
      var c := collectors[n];
      assert collectors == collectors[..n] + [c];
      assert c in Elements(collectors);
      assert Elements(collectors[..n]) <= Elements(collectors);
      AccountsAfter(m, order, collectors[..n], share);
      PaidOnPayday(m, order, c, share);
      ReceivedOnPayday(m, order, c, share);
      SumsSplit(m, Paydays(order, collectors[..n], share), Payday(order, c, share));
      Scale(|collectors| - 1 - (if m in collectors[..n] then 1 else 0), share);
    }
  }

  lemma Scale(a: int, share: int)
    ensures (a + 1) * share == a * share + share
  {
  }

  ghost predicate Internal(order: seq<Pubkey>, ts: seq<Transfer>)
  {
    forall t :: t in ts ==> t.payer in order && t.payee in order
  }

  lemma {:induction false} OneTransferNets(order: seq<Pubkey>, t: Transfer)
    requires Distinct(order)
    ensures TotalNet(order, [t])
        == (if t.payee in order then t.msats else 0) - (if t.payer in order then t.msats else 0)
  {
    if order != [] {
      var n := |order| - 1;
      assert order == order[..n] + [order[n]];
      OneTransferNets(order[..n], t);
      SingleSums(order[n], t);
    }
  }

  lemma {:induction false} NetsSplit(order: seq<Pubkey>, a: seq<Transfer>, b: seq<Transfer>)
    ensures TotalNet(order, a + b) == TotalNet(order, a) + TotalNet(order, b)
  {
    if order != [] {
      NetsSplit(order[..|order| - 1], a, b);
      SumsSplit(order[|order| - 1], a, b);
    }
  }

  /** Money only moves between members: the nets of any list of transfers inside the circle cancel. */
  lemma {:induction false} NetsCancel(order: seq<Pubkey>, ts: seq<Transfer>)
    requires Distinct(order) && Internal(order, ts)
    ensures TotalNet(order, ts) == 0
  {
    if ts == [] {
      NothingMoved(order);
    } else {
      var n := |ts| - 1;
      assert ts == ts[..n] + [ts[n]];
      assert Internal(order, ts[..n]);
      NetsCancel(order, ts[..n]);
      OneTransferNets(order, ts[n]);
      NetsSplit(order, ts[..n], [ts[n]]);
    }
  }

  lemma {:induction false} NothingMoved(order: seq<Pubkey>)
    ensures TotalNet(order, []) == 0
  {
    if order != [] {
      NothingMoved(order[..|order| - 1]);
    }
  }

  lemma {:induction false} PaydaysAreInternal(order: seq<Pubkey>, collectors: seq<Pubkey>, share: nat)
    requires Elements(collectors) <= Elements(order)
    ensures Internal(order, Paydays(order, collectors, share))
  {
    if collectors != [] {
      var n := |collectors| - 1;
      var c := collectors[n];
      assert collectors == collectors[..n] + [c];
      assert c in Elements(collectors);
      assert Elements(collectors[..n]) <= Elements(collectors);
      PaydaysAreInternal(order, collectors[..n], share);
      CollectMembers(PayTo(c, share), order);
    }
  }

  /** The pot arithmetic: over a complete cycle everyone pays n-1 shares and collects n-1 shares, and after
      any number of released rounds the members' nets sum to zero. */
  lemma CycleAccounts(cy: Cycle, shares: seq<ShareState>, share: nat)
    requires Distinct(cy.order)
    requires Collectors(cy, shares, |cy.order| + 1).Some?
    ensures var c := Collectors(cy, shares, |cy.order| + 1).value;
            && (forall m :: m in cy.order ==>
                  && Paid(m, Paydays(cy.order, c, share)) == (|cy.order| - 1) * share
                  && Received(m, Paydays(cy.order, c, share)) == (|cy.order| - 1) * share)
            && (forall k :: 0 <= k <= |c| ==> TotalNet(cy.order, Paydays(cy.order, c[..k], share)) == 0)
  {
    FullCycleIsAPermutation(cy, shares);
    var c := Collectors(cy, shares, |cy.order| + 1).value;
    forall m | m in cy.order
      ensures && Paid(m, Paydays(cy.order, c, share)) == (|cy.order| - 1) * share
              && Received(m, Paydays(cy.order, c, share)) == (|cy.order| - 1) * share
    {
      assert m in Elements(c);
      AccountsAfter(m, cy.order, c, share);
    }
    forall k | 0 <= k <= |c|
      ensures TotalNet(cy.order, Paydays(cy.order, c[..k], share)) == 0
    {
      assert Elements(c[..k]) <= Elements(c);
      PaydaysAreInternal(cy.order, c[..k], share);
      NetsCancel(cy.order, Paydays(cy.order, c[..k], share));
    }
  }
}
