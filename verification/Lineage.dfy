/** The bond lineage walk: proving a claimed ancestry hop by hop, and the tenure it earns. */
module Lineage {
  import opened Prelude
  import Script

  type Txid = nat

  const MAX_LINEAGE_HOPS := 24

  datatype HopKey = Xonly(key: nat) | Malformed

  datatype Hop = Hop(fromTxid: Txid, fromXonly: HopKey, fromLockUntil: int)

  /** A bond address commits to its key and lock height: as a constructor it is injective. */
  datatype Address = BondAddress(key: nat, lockUntil: int) | Elsewhere(name: nat)

  datatype TxInfo = TxInfo(outputs: seq<Option<Address>>, height: Option<int>)
  datatype Spend = Unspent | SpentBy(spender: Option<Txid>)

  /** What the explorer answers; a read that is missing here fails. */
  datatype Reader = Reader(txs: map<Txid, TxInfo>, spends: map<(Txid, nat), Spend>)

  datatype Stop = Complete | AddressMismatch | NotSpent | WrongSpender | Unreadable | HopLimit

  datatype Proven = Proven(hops: nat, claimed: nat, rootHeight: Option<int>, rootTxid: Option<Txid>, stop: Stop)

  function AddressOf(h: Hop): Option<Address>
  {
    if h.fromXonly.Malformed? || !(0 < h.fromLockUntil < Script.LOCKTIME_THRESHOLD) then None
    else Some(BondAddress(h.fromXonly.key, h.fromLockUntil))
  }

  function Pays(a: Address): Option<Address> -> bool { (o: Option<Address>) => o == Some(a) }

  /** Why a hop cannot be shown to have been spent into `heir`; None when it can. */
  function HopFailure(r: Reader, h: Hop, heir: Txid): Option<Stop>
  {
    var a := AddressOf(h);
    if a.None? then Some(AddressMismatch)
    else if h.fromTxid !in r.txs then Some(Unreadable)
    else
      var outputs := r.txs[h.fromTxid].outputs;
      var vout := First(Pays(a.value), outputs);
      if vout == |outputs| then Some(AddressMismatch)
      else if (h.fromTxid, vout) !in r.spends then Some(Unreadable)
      else
        match r.spends[(h.fromTxid, vout)]
        case Unspent => Some(NotSpent)
        case SpentBy(t) => if t == Some(heir) then None else Some(WrongSpender)
  }

  /** The claim can be a bond at all, and its transaction is readable. */
  predicate Readable(r: Reader, h: Hop)
  {
    h.fromXonly.Xonly? && 0 < h.fromLockUntil < 500_000_000 && h.fromTxid in r.txs
  }

  /** Output `vout` of the claimed transaction pays the claimed bond, and no output before it does. */
  predicate FundsBond(r: Reader, h: Hop, vout: nat)
    requires Readable(r, h)
  {
    var outputs := r.txs[h.fromTxid].outputs;
    && vout < |outputs| && outputs[vout] == Some(BondAddress(h.fromXonly.key, h.fromLockUntil))
    && forall j :: 0 <= j < vout ==> outputs[j] != Some(BondAddress(h.fromXonly.key, h.fromLockUntil))
  }

  /** A hop is what the chain says it is, read off the explorer's answers: it is proven exactly when the first output
      that pays the claimed bond was spent into the heir, and every other answer has its own reason. */
  lemma HopIsJudged(r: Reader, h: Hop, heir: Txid)
    ensures HopFailure(r, h, heir) == None
            <==> && Readable(r, h)
                 && exists vout: nat :: FundsBond(r, h, vout) && (h.fromTxid, vout) in r.spends
                                        && r.spends[(h.fromTxid, vout)] == SpentBy(Some(heir))
    ensures h.fromXonly.Malformed? || h.fromLockUntil <= 0 || h.fromLockUntil >= 500_000_000 ==>
              HopFailure(r, h, heir) == Some(AddressMismatch)
    ensures Readable(r, h) && (forall vout: nat :: !FundsBond(r, h, vout)) ==>
              HopFailure(r, h, heir) == Some(AddressMismatch)
    ensures h.fromXonly.Xonly? && 0 < h.fromLockUntil < 500_000_000 && h.fromTxid !in r.txs ==>
              HopFailure(r, h, heir) == Some(Unreadable)
    ensures Readable(r, h) ==>
              forall vout: nat :: FundsBond(r, h, vout) ==>
                if (h.fromTxid, vout) !in r.spends then HopFailure(r, h, heir) == Some(Unreadable)
                else if r.spends[(h.fromTxid, vout)] == Unspent then HopFailure(r, h, heir) == Some(NotSpent)
                else if r.spends[(h.fromTxid, vout)] == SpentBy(Some(heir)) then HopFailure(r, h, heir) == None
                else HopFailure(r, h, heir) == Some(WrongSpender)
  {
    if Readable(r, h) {
      var a, outputs := BondAddress(h.fromXonly.key, h.fromLockUntil), r.txs[h.fromTxid].outputs;
      FirstSpec(Pays(a), outputs);
      if First(Pays(a), outputs) < |outputs| {
        assert FundsBond(r, h, First(Pays(a), outputs));
      }
    }
  }

  /** The transaction hop i must have been spent into. */
  function Heir(claimed: seq<Hop>, current: Txid, i: nat): Txid
    requires i <= |claimed|
  {
    if i == 0 then current else claimed[i - 1].fromTxid
  }

  predicate HopProven(r: Reader, claimed: seq<Hop>, current: Txid, i: nat)
    requires i < |claimed|
  {
    HopFailure(r, claimed[i], Heir(claimed, current, i)).None?
  }

  /** The first n hops form an unbroken chain of spends into the announcing bond. */
  ghost predicate Unbroken(r: Reader, claimed: seq<Hop>, current: Txid, n: nat)
    requires n <= |claimed|
  {
    forall i :: 0 <= i < n ==> HopProven(r, claimed, current, i)
  }

  /** n is the longest such prefix within the limit. */
  ghost predicate Longest(r: Reader, claimed: seq<Hop>, current: Txid, limit: nat, n: nat)
  {
    && n <= |claimed| && n <= limit && Unbroken(r, claimed, current, n)
    && (n < |claimed| && n < limit ==> !HopProven(r, claimed, current, n))
  }

  function HeightOf(r: Reader, h: Hop): Option<int>
  {
    if h.fromTxid in r.txs then r.txs[h.fromTxid].height else None
  }

  /** The oldest known funding height among the first n hops. */
  function RootHeight(r: Reader, claimed: seq<Hop>, n: nat): Option<int>
    requires n <= |claimed|
  {
    if n == 0 then None
    else
      var h := HeightOf(r, claimed[n - 1]);
      if h.Some? then h else RootHeight(r, claimed, n - 1)
  }

  function LimitOf(maxHops: Option<int>): nat
  {
    Max(0, Min(if maxHops.Some? then maxHops.value else MAX_LINEAGE_HOPS, MAX_LINEAGE_HOPS))
  }

  function StopFor(r: Reader, claimed: seq<Hop>, current: Txid, limit: nat, n: nat): Stop
    requires n <= |claimed|
  {
    if n == |claimed| then Complete
    else if n == limit then HopLimit
    else
      var f := HopFailure(r, claimed[n], Heir(claimed, current, n));
      if f.Some? then f.value else Complete
  }

  /** Proves as much of the claimed ancestry as the chain backs: exactly the longest unbroken prefix within the
      limit, with the reason the walk stopped there. */
  method VerifyLineage(claimed: seq<Hop>, current: Option<Txid>, r: Reader, maxHops: Option<int>) returns (p: Proven)
    ensures claimed == [] || current.None? ==> p == Proven(0, 0, None, None, Complete)
    ensures claimed != [] && current.Some? ==>
              && Longest(r, claimed, current.value, LimitOf(maxHops), p.hops)
              && p.claimed == |claimed|
              && p.rootHeight == RootHeight(r, claimed, p.hops)
              && p.rootTxid == (if p.hops == 0 then None else Some(claimed[p.hops - 1].fromTxid))
              && p.stop == StopFor(r, claimed, current.value, LimitOf(maxHops), p.hops)
  {
    if claimed == [] || current.None? {
      return Proven(0, 0, None, None, Complete);
    }
    var limit := LimitOf(maxHops);
    p := Proven(0, |claimed|, None, None, Complete);
    var expectedSpender := current.value;
    for i := 0 to |claimed|
      invariant p.hops == i <= limit && p.claimed == |claimed| && p.stop == Complete
      invariant Unbroken(r, claimed, current.value, i) && expectedSpender == Heir(claimed, current.value, i)
      invariant p.rootHeight == RootHeight(r, claimed, i)
      invariant p.rootTxid == (if i == 0 then None else Some(claimed[i - 1].fromTxid))
    {
      if i >= limit {
        return p.(stop := HopLimit);
      }
      var hop := claimed[i];
      var address := AddressOf(hop);
      if address.None? {
        return p.(stop := AddressMismatch);
      }
      if hop.fromTxid !in r.txs {
        return p.(stop := Unreadable);
      }
      var tx := r.txs[hop.fromTxid];
      var vout := First(Pays(address.value), tx.outputs);
      if vout == |tx.outputs| {
        return p.(stop := AddressMismatch);
      }
      if (hop.fromTxid, vout) !in r.spends {
        return p.(stop := Unreadable);
      }
      var spend := r.spends[(hop.fromTxid, vout)];
      if spend.Unspent? {
        return p.(stop := NotSpent);
      }
      if spend.spender != Some(expectedSpender) {
        return p.(stop := WrongSpender);
      }
      p := Proven(i + 1, |claimed|, if tx.height.Some? then tx.height else p.rootHeight, Some(hop.fromTxid), Complete);
      expectedSpender := hop.fromTxid;
    }
  }

  /** Whatever the walk proves is on the chain: each hop's transaction pays the claimed bond, that output was spent into
      the next bond up the line, and the first of them into the announcing bond; a walk that stops short of the claim
      and the limit stops at a hop for which that is not so. */
  lemma ProvenHopsAreSpent(r: Reader, claimed: seq<Hop>, current: Txid, limit: nat, n: nat)
    ensures Longest(r, claimed, current, limit, n) ==>
              && n <= |claimed| && n <= limit
              && (forall i :: 0 <= i < n ==> SpentInto(r, claimed, current, i))
              && (n < |claimed| && n < limit ==> !SpentInto(r, claimed, current, n))
  {
    hide HopFailure;
    if Longest(r, claimed, current, limit, n) {
      forall i | 0 <= i < n
        ensures SpentInto(r, claimed, current, i)
      {
        assert HopProven(r, claimed, current, i);
        HopIsJudged(r, claimed[i], if i == 0 then current else claimed[i - 1].fromTxid);
      }
      if n < |claimed| {
        HopIsJudged(r, claimed[n], if n == 0 then current else claimed[n - 1].fromTxid);
      }
    }
  }

  /** Why the walk stopped, for the walk that went as far as it could: at the end of the claim, at the limit, or at a
      hop the chain does not back; and the limit is never above 24, nor above what was asked for. */
  lemma StopIsExplained(r: Reader, claimed: seq<Hop>, current: Txid, maxHops: Option<int>, n: nat)
    requires Longest(r, claimed, current, LimitOf(maxHops), n)
    ensures LimitOf(None) == 24 && (forall k :: 0 <= k <= 24 ==> LimitOf(Some(k)) == k)
    ensures forall k :: (k < 0 ==> LimitOf(Some(k)) == 0) && (k > 24 ==> LimitOf(Some(k)) == 24)
    ensures var stop := StopFor(r, claimed, current, LimitOf(maxHops), n);
            && (stop == Complete <==> n == |claimed|) && (stop == HopLimit <==> n == LimitOf(maxHops) < |claimed|)
            && (stop != Complete && stop != HopLimit ==>
                  n < |claimed| && n < LimitOf(maxHops) && !SpentInto(r, claimed, current, n)
                  && HopFailure(r, claimed[n], if n == 0 then current else claimed[n - 1].fromTxid) == Some(stop))
  {
    ProvenHopsAreSpent(r, claimed, current, LimitOf(maxHops), n);
  }

  /** The chain shows hop i spent into the one before it, the first hop into the announcing bond. */
  ghost predicate SpentInto(r: Reader, claimed: seq<Hop>, current: Txid, i: nat)
    requires i < |claimed|
  {
    && Readable(r, claimed[i])
    && exists vout: nat :: FundsBond(r, claimed[i], vout) && (claimed[i].fromTxid, vout) in r.spends
                           && r.spends[(claimed[i].fromTxid, vout)]
                              == SpentBy(Some(if i == 0 then current else claimed[i - 1].fromTxid))
  }

  // ── No borrowed history ────────────────────────────────────────────────────

  /** A bond was spent into one transaction, so it can be an ancestor of one line only: two announcements that
      both prove the same hop agree on the bond that came next. */
  lemma OneHeir(r: Reader, a: seq<Hop>, x: Txid, i: nat, b: seq<Hop>, y: Txid, j: nat)
    requires i < |a| && j < |b| && a[i] == b[j] && HopProven(r, a, x, i) && HopProven(r, b, y, j)
    ensures Heir(a, x, i) == Heir(b, y, j)
  {
  }

  // ── Fail short, never long ─────────────────────────────────────────────────

  /** Reader `small` answers no differently than `large`, but fails on more reads. */
  predicate FailsMore(small: Reader, large: Reader)
  {
    && (forall t :: t in small.txs ==> t in large.txs && large.txs[t] == small.txs[t])
    && (forall k :: k in small.spends ==> k in large.spends && large.spends[k] == small.spends[k])
  }

  lemma ProofSurvives(small: Reader, large: Reader, claimed: seq<Hop>, current: Txid, i: nat)
    requires FailsMore(small, large) && i < |claimed| && HopProven(small, claimed, current, i)
    ensures HopProven(large, claimed, current, i) && HeightOf(small, claimed[i]) == HeightOf(large, claimed[i])
  {
  }

  /** Failed reads never prove more hops. */
  lemma FewerReadsFewerHops(small: Reader, large: Reader, claimed: seq<Hop>, current: Txid, limit: nat, m: nat, n: nat)
    requires FailsMore(small, large)
    requires Longest(small, claimed, current, limit, m) && Longest(large, claimed, current, limit, n)
    ensures m <= n
  {
    forall i | 0 <= i < m
      ensures HopProven(large, claimed, current, i)
    {
      ProofSurvives(small, large, claimed, current, i);
    }
  }

  lemma {:induction false} SameRoot(small: Reader, large: Reader, claimed: seq<Hop>, current: Txid, m: nat)
    requires FailsMore(small, large) && m <= |claimed| && Unbroken(small, claimed, current, m)
    ensures RootHeight(small, claimed, m) == RootHeight(large, claimed, m)
  {
    if m > 0 {
      ProofSurvives(small, large, claimed, current, m - 1);
      SameRoot(small, large, claimed, current, m - 1);
    }
  }

  // ── Tenure ─────────────────────────────────────────────────────────────────

  function TenureStart(own: Option<int>, hops: nat, rootHeight: Option<int>): Option<int>
  {
    var root := if hops > 0 then rootHeight else None;
    if root.None? then own
    else if own.None? then root
    else if root.value < own.value then root else own
  }

  /** Tenure as the first n hops give it. */
  function TenureAt(r: Reader, claimed: seq<Hop>, own: Option<int>, n: nat): Option<int>
    requires n <= |claimed|
  {
    TenureStart(own, n, RootHeight(r, claimed, n))
  }

  /** a starts no earlier than b; no tenure at all is the latest start. */
  predicate NotEarlier(a: Option<int>, b: Option<int>) { a.Some? ==> b.Some? && b.value <= a.value }

  /** The output of a hop that the walk follows. */
  function OutputOf(r: Reader, h: Hop): Option<(Txid, nat)>
  {
    var a := AddressOf(h);
    if a.None? || h.fromTxid !in r.txs then None
    else Some((h.fromTxid, First(Pays(a.value), r.txs[h.fromTxid].outputs)))
  }

  /** Hop m spends an output that no earlier hop spends, as every hop of an acyclic chain does. */
  predicate NewOutput(r: Reader, claimed: seq<Hop>, m: nat)
    requires m < |claimed|
  {
    forall j :: 0 <= j < m ==> OutputOf(r, claimed[j]) != OutputOf(r, claimed[m])
  }

  /** Hop i has the oldest known height of the first m hops in chain order. */
  predicate LastKnown(r: Reader, claimed: seq<Hop>, i: nat, m: nat)
    requires i < m <= |claimed|
  {
    HeightOf(r, claimed[i]).Some? && forall k :: i < k < m ==> HeightOf(r, claimed[k]).None?
  }

  /** A height h does no harm as a root: it is not below the full walk's root, or not below the bond's own. */
  predicate Harmless(h: int, root: Option<int>, own: Option<int>)
  {
    (root.Some? && root.value <= h) || (own.Some? && own.value <= h)
  }

  /** The exact condition on plain heights: wherever a walk can be made to stop, the last known height before the
      stop is harmless. */
  ghost predicate StopsAreHarmless(r: Reader, claimed: seq<Hop>, own: Option<int>, n: nat)
    requires n <= |claimed|
  {
    forall i, m :: 0 <= i < m < n && LastKnown(r, claimed, i, m) && NewOutput(r, claimed, m) ==>
      Harmless(HeightOf(r, claimed[i]).value, RootHeight(r, claimed, n), own)
  }

  lemma {:induction false} RootIsLastKnown(r: Reader, claimed: seq<Hop>, i: nat, m: nat)
    requires i < m <= |claimed| && LastKnown(r, claimed, i, m)
    ensures RootHeight(r, claimed, m) == HeightOf(r, claimed[i])
  {
    if i < m - 1 {
      RootIsLastKnown(r, claimed, i, m - 1);
    }
  }

  /** The reader that fails on one spend. */
  function Without(r: Reader, output: (Txid, nat)): Reader { r.(spends := r.spends - {output}) }

  /** Failing on the spend of a new output stops the walk right there. */
  lemma StopsThere(large: Reader, claimed: seq<Hop>, current: Txid, limit: nat, n: nat, m: nat)
    requires Longest(large, claimed, current, limit, n) && m < n && NewOutput(large, claimed, m)
    ensures OutputOf(large, claimed[m]).Some?
    ensures var small := Without(large, OutputOf(large, claimed[m]).value);
            FailsMore(small, large) && Longest(small, claimed, current, limit, m)
  {
    assert HopProven(large, claimed, current, m);
    var small := Without(large, OutputOf(large, claimed[m]).value);
    forall j | 0 <= j < m
      ensures HopProven(small, claimed, current, j)
    {
      assert HopProven(large, claimed, current, j);
    }
  }

  /** Whether hop m can be made the first one to fail: no shorter walk is possible where an output comes back. */
  lemma StoppedIsNew(small: Reader, large: Reader, claimed: seq<Hop>, current: Txid, limit: nat, m: nat, n: nat)
    requires FailsMore(small, large) && m < n
    requires Longest(small, claimed, current, limit, m) && Longest(large, claimed, current, limit, n)
    ensures NewOutput(large, claimed, m)
  {
    assert HopProven(large, claimed, current, m) && !HopProven(small, claimed, current, m);
    forall j | 0 <= j < m
      ensures OutputOf(large, claimed[j]) != OutputOf(large, claimed[m])
    {
      assert HopProven(small, claimed, current, j) && HopProven(large, claimed, current, j);
    }
  }

  lemma {:induction false} SomeLastKnown(r: Reader, claimed: seq<Hop>, m: nat) returns (i: nat)
    requires m <= |claimed| && RootHeight(r, claimed, m).Some?
    ensures i < m && LastKnown(r, claimed, i, m) && HeightOf(r, claimed[i]) == RootHeight(r, claimed, m)
  {
    if HeightOf(r, claimed[m - 1]).Some? {
      i := m - 1;
    } else {
      i := SomeLastKnown(r, claimed, m - 1);
    }
  }

  /** No reader that fails on more reads starts tenure earlier. */
  ghost predicate NeverEarlier(large: Reader, claimed: seq<Hop>, current: Txid, limit: nat, own: Option<int>, n: nat)
    requires n <= |claimed|
  {
    forall small, m: nat :: FailsMore(small, large) && m <= |claimed| && Longest(small, claimed, current, limit, m) ==>
      NotEarlier(TenureAt(small, claimed, own, m), TenureAt(large, claimed, own, n))
  }

  /** Fail short, never long, exactly: over all readers that fail on more reads, tenure never starts earlier if and
      only if every height a walk can be stopped at is no lower than the full walk's root or the bond's own. */
  lemma ShortIsSafe(large: Reader, claimed: seq<Hop>, current: Txid, limit: nat, own: Option<int>, n: nat)
    requires Longest(large, claimed, current, limit, n)
    ensures NeverEarlier(large, claimed, current, limit, own, n) <==> StopsAreHarmless(large, claimed, own, n)
  {
    hide HopFailure, NewOutput;
    if StopsAreHarmless(large, claimed, own, n) {
      forall small, m: nat | FailsMore(small, large) && m <= |claimed| && Longest(small, claimed, current, limit, m)
        ensures NotEarlier(TenureAt(small, claimed, own, m), TenureAt(large, claimed, own, n))
      {
        FewerReadsFewerHops(small, large, claimed, current, limit, m, n);
        SameRoot(small, large, claimed, current, m);
        if m < n && RootHeight(large, claimed, m).Some? {
          StoppedIsNew(small, large, claimed, current, limit, m, n);
          var i := SomeLastKnown(large, claimed, m);
          assert Harmless(HeightOf(large, claimed[i]).value, RootHeight(large, claimed, n), own);
        }
      }
    }
    if NeverEarlier(large, claimed, current, limit, own, n) {
      forall i, m | 0 <= i < m < n && LastKnown(large, claimed, i, m) && NewOutput(large, claimed, m)
        ensures Harmless(HeightOf(large, claimed[i]).value, RootHeight(large, claimed, n), own)
      {
        StopsThere(large, claimed, current, limit, n, m);
        var small := Without(large, OutputOf(large, claimed[m]).value);
        SameRoot(small, large, claimed, current, m);
        RootIsLastKnown(large, claimed, i, m);
        assert NotEarlier(TenureAt(small, claimed, own, m), TenureAt(large, claimed, own, n));
      }
    }
  }

  /** Where no transaction comes back, as on a chain, the condition is about every known height. */
  lemma AcyclicStops(large: Reader, claimed: seq<Hop>, own: Option<int>, n: nat)
    requires n <= |claimed| && forall j :: 0 <= j < n ==> OutputOf(large, claimed[j]).Some?
    requires forall j, k :: 0 <= j < k < n ==> claimed[j].fromTxid != claimed[k].fromTxid
    ensures StopsAreHarmless(large, claimed, own, n)
            <==> forall i :: 0 <= i < n && HeightOf(large, claimed[i]).Some? ==>
                   Harmless(HeightOf(large, claimed[i]).value, RootHeight(large, claimed, n), own)
  {
    hide AddressOf;
    if StopsAreHarmless(large, claimed, own, n) {
      forall i | 0 <= i < n && HeightOf(large, claimed[i]).Some?
        ensures Harmless(HeightOf(large, claimed[i]).value, RootHeight(large, claimed, n), own)
      {
        if i + 1 < n {
          assert NewOutput(large, claimed, i + 1) && LastKnown(large, claimed, i, i + 1);
        } else {
          RootIsLastKnown(large, claimed, i, n);
        }
      }
    }
  }

  /** On a chain, where no transaction is its own ancestor: failed reads never start tenure earlier exactly when no
      known height of the proven hops is below both the root's and the bond's own. */
  lemma ShortIsSafeOnChain(large: Reader, claimed: seq<Hop>, current: Txid, limit: nat, own: Option<int>, n: nat)
    requires Longest(large, claimed, current, limit, n)
    requires forall j, k :: 0 <= j < k < n ==> claimed[j].fromTxid != claimed[k].fromTxid
    ensures NeverEarlier(large, claimed, current, limit, own, n)
            <==> forall i :: 0 <= i < n && HeightOf(large, claimed[i]).Some? ==>
                   Harmless(HeightOf(large, claimed[i]).value, RootHeight(large, claimed, n), own)
  {
    hide NeverEarlier, StopsAreHarmless;
    ShortIsSafe(large, claimed, current, limit, own, n);
    forall j | 0 <= j < n
      ensures OutputOf(large, claimed[j]).Some?
    {
      assert HopProven(large, claimed, current, j);
    }
    AcyclicStops(large, claimed, own, n);
  }

  /** Known heights never rise going back: a bond is funded no later than the bond it was spent into. */
  predicate HeightsOrdered(r: Reader, claimed: seq<Hop>, n: nat)
    requires n <= |claimed|
  {
    forall i, j :: 0 <= i < j < n && HeightOf(r, claimed[i]).Some? && HeightOf(r, claimed[j]).Some? ==>
      HeightOf(r, claimed[j]).value <= HeightOf(r, claimed[i]).value
  }

  lemma {:induction false} OrderedRootIsOldest(r: Reader, claimed: seq<Hop>, m: nat, i: nat)
    requires m <= |claimed| && HeightsOrdered(r, claimed, m) && i < m && HeightOf(r, claimed[i]).Some?
    ensures RootHeight(r, claimed, m).Some? && RootHeight(r, claimed, m).value <= HeightOf(r, claimed[i]).value
  {
    if HeightOf(r, claimed[m - 1]).None? {
      OrderedRootIsOldest(r, claimed, m - 1, i);
    }
  }

  /** Fail short, never long: on a chain with ordered heights, a reader that fails on more reads never makes
      tenure start earlier. */
  lemma TenureFailsShort(small: Reader, large: Reader, claimed: seq<Hop>, current: Txid, limit: nat, own: Option<int>,
                         m: nat, n: nat)
    requires FailsMore(small, large)
    requires Longest(small, claimed, current, limit, m) && Longest(large, claimed, current, limit, n)
    requires HeightsOrdered(large, claimed, n)
    ensures m <= n && NotEarlier(TenureAt(small, claimed, own, m), TenureAt(large, claimed, own, n))
  {
    FewerReadsFewerHops(small, large, claimed, current, limit, m, n);
    forall i, k | 0 <= i < k < n && LastKnown(large, claimed, i, k)
      ensures Harmless(HeightOf(large, claimed[i]).value, RootHeight(large, claimed, n), own)
    {
      OrderedRootIsOldest(large, claimed, n, i);
    }
    ShortIsSafe(large, claimed, current, limit, own, n);
  }

  /** Without ordered heights the promise breaks: here the second ancestor claims a later block than the first,
      and a reader that cannot see it starts tenure twenty blocks earlier than one that can. */
  lemma UnorderedHeightsFailLong() returns (small: Reader, large: Reader, claimed: seq<Hop>)
    ensures FailsMore(small, large)
    ensures Longest(small, claimed, 1, MAX_LINEAGE_HOPS, 1) && Longest(large, claimed, 1, MAX_LINEAGE_HOPS, 2)
    ensures TenureAt(small, claimed, Some(100), 1) == Some(50) && TenureAt(large, claimed, Some(100), 2) == Some(70)
  {
    var a, b := BondAddress(7, 10), BondAddress(8, 10);
    claimed := [Hop(2, Xonly(7), 10), Hop(3, Xonly(8), 10)];
    var first, second := TxInfo([Some(a)], Some(50)), TxInfo([Some(b)], Some(70));
    var spends := map[(2, 0) := SpentBy(Some(1)), (3, 0) := SpentBy(Some(2))];
    small := Reader(map[2 := first], spends);
    large := Reader(map[2 := first, 3 := second], spends);
    assert HopProven(small, claimed, 1, 0) && !HopProven(small, claimed, 1, 1);
    assert HopProven(large, claimed, 1, 0) && HopProven(large, claimed, 1, 1);
    assert RootHeight(small, claimed, 1) == Some(50) && RootHeight(large, claimed, 2) == Some(70);
  }
}
