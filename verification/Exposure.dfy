/** The arbiter exposure ledger: what each arbiter's bonds cover, who may be seated, and what that keeps true. */
module Exposure {
  import opened Prelude

  type Pubkey = nat
  type TradeId = nat

  const UNBONDED_FLOOR_MSATS := 10_000_000
  const FULL_CAPACITY_DAYS := 30
  const MIN_CAPACITY_FRACTION := 0.25

  // ── Open exposure ──────────────────────────────────────────────────────────

  datatype Status = Created | Locked | Expired | Approved | Claimed | Completed | Cancelled

  datatype Trade = Trade(id: TradeId, amount: nat, arbiter: Option<Pubkey>, onchain: bool, deposited: bool,
                         status: Status)

  predicate IsOpen(t: Trade)
  {
    if t.onchain then t.deposited else t.status == Locked || t.status == Approved || t.status == Claimed
  }

  predicate Exposes(a: Pubkey, exclude: Option<TradeId>, t: Trade)
  {
    Some(t.id) != exclude && t.amount >= UNBONDED_FLOOR_MSATS && IsOpen(t) && t.arbiter == Some(a)
  }

  function ExposedBy(a: Pubkey, exclude: Option<TradeId>): Trade -> Option<Trade>
  {
    (t: Trade) => if Exposes(a, exclude, t) then Some(t) else None
  }

  function OpenBonded(a: Pubkey, trades: seq<Trade>, exclude: Option<TradeId>): seq<Trade>
  {
    Collect(ExposedBy(a, exclude), trades)
  }

  method GetOpenBondedTrades(a: Pubkey, trades: seq<Trade>, exclude: Option<TradeId>) returns (out: seq<Trade>)
    ensures out == OpenBonded(a, trades, exclude)
    ensures forall t :: t in out
              <==> && t in trades && t.arbiter == Some(a) && t.amount >= 10_000_000
                   && (exclude.Some? ==> t.id != exclude.value)
                   && (t.onchain ==> t.deposited)
                   && (!t.onchain ==> t.status !in {Created, Expired, Completed, Cancelled})
  {
    out := [];
    CollectMembers(ExposedBy(a, exclude), trades);
    for k := 0 to |trades|
      invariant out == OpenBonded(a, trades[..k], exclude)
    {
      var t := trades[k];
      CollectStep(ExposedBy(a, exclude), trades, k);
      if Some(t.id) == exclude || t.amount < UNBONDED_FLOOR_MSATS || !IsOpen(t) || t.arbiter != Some(a) {
        continue;
      }
      out := out + [t];
    }
    assert trades[..|trades|] == trades;
  }

  function Sum(trades: seq<Trade>): nat
  {
    if trades == [] then 0 else Sum(trades[..|trades| - 1]) + trades[|trades| - 1].amount
  }

  lemma {:induction false} SumAdds(a: seq<Trade>, b: seq<Trade>, t: Trade)
    ensures Sum(a + b) == Sum(a) + Sum(b) && Sum([t]) == t.amount && Sum([]) == 0
  {
    assert [t][..0] == [];
    if b == [] {
      assert a + b == a;
    } else {
      var n := |b| - 1;
      assert (a + b)[..|a + b| - 1] == a + b[..n];
      SumAdds(a, b[..n], t);
    }
  }

  /** The msats of a's open bonded trades. */
  function Exposed(a: Pubkey, trades: seq<Trade>, exclude: Option<TradeId>): nat { Sum(OpenBonded(a, trades, exclude)) }

  // ── Bond capacity ──────────────────────────────────────────────────────────

  datatype Bond = Bond(owner: Option<Pubkey>, sats: nat, address: Option<nat>, tenureDays: Option<real>,
                       fundingTxid: Option<nat>, ancestors: seq<nat>)

  /** Linear from the floor fraction to one over the maturity window; unknown tenure is new. */
  function Multiplier(tenureDays: Option<real>): (m: real)
    ensures MIN_CAPACITY_FRACTION <= m <= 1.0
    ensures tenureDays.Some? && 0.0 <= tenureDays.value <= 30.0 ==> 40.0 * m == 10.0 + tenureDays.value
    ensures tenureDays.Some? && tenureDays.value > 30.0 ==> m == 1.0
    ensures tenureDays.None? || tenureDays.value < 0.0 ==> 4.0 * m == 1.0
  {
    if tenureDays.None? || tenureDays.value <= 0.0 then MIN_CAPACITY_FRACTION
    else if tenureDays.value >= FULL_CAPACITY_DAYS as real then 1.0
    else
      var ramp := tenureDays.value / FULL_CAPACITY_DAYS as real;
      MIN_CAPACITY_FRACTION + ramp * (1.0 - MIN_CAPACITY_FRACTION)
  }

  /** A fraction of a bond's face value. */
  function Portion(face: nat, m: real): real { face as real * m }

  /** What one bond covers, in whole msats: between a quarter of its face and its face. */
  function ValueOf(b: Bond, gated: bool): (v: nat)
    ensures b.sats * 250 <= v <= b.sats * 1000
  {
    if !gated then b.sats * 1000
    else
      PortionBounds(b.sats, Multiplier(b.tenureDays));
      Portion(b.sats * 1000, Multiplier(b.tenureDays)).Floor
  }

  lemma PortionBounds(sats: nat, m: real)
    requires MIN_CAPACITY_FRACTION <= m <= 1.0
    ensures sats * 250 <= Portion(sats * 1000, m).Floor <= sats * 1000
  {
    ScaleBounds(sats * 1000, m);
    hide Portion;
    FloorBounds(Portion(sats * 1000, m), sats);
  }

  lemma FloorBounds(value: real, sats: nat)
    requires value <= (sats * 1000) as real <= 4.0 * value
    ensures sats * 250 <= value.Floor <= sats * 1000
  {
  }

  lemma ScaleBounds(face: nat, m: real)
    requires MIN_CAPACITY_FRACTION <= m <= 1.0
    ensures Portion(face, m) <= face as real <= 4.0 * Portion(face, m)
  {
    var x := face as real;
    assert x * (m - MIN_CAPACITY_FRACTION) >= 0.0;
    assert x * (1.0 - m) >= 0.0;
  }

  /** The value is the face, times the multiplier if gated, in whole msats. */
  lemma ValueIsWhole(b: Bond, gated: bool)
    ensures gated ==> var exact := (b.sats * 1000) as real * Multiplier(b.tenureDays);
                      ValueOf(b, gated) as real <= exact < ValueOf(b, gated) as real + 1.0
    ensures !gated ==> ValueOf(b, gated) == b.sats * 1000
  {
    hide Multiplier;
    assert Portion(b.sats * 1000, Multiplier(b.tenureDays)) == (b.sats * 1000) as real * Multiplier(b.tenureDays);
    hide Portion;
  }

  /** Age only helps: a longer tenure never covers less. */
  lemma OlderCoversMore(b: Bond, young: real, aged: real)
    requires young <= aged
    ensures ValueOf(b.(tenureDays := Some(young)), true) <= ValueOf(b.(tenureDays := Some(aged)), true)
    ensures ValueOf(b.(tenureDays := None), true) <= ValueOf(b.(tenureDays := Some(young)), true)
  {
    hide Multiplier, Portion;
    NewIsLeast(young);
    MultiplierGrows(young, aged);
    PortionGrows(b.sats * 1000, Multiplier(Some(young)), Multiplier(Some(aged)));
    PortionGrows(b.sats * 1000, Multiplier(None), Multiplier(Some(young)));
  }

  lemma NewIsLeast(days: real)
    ensures Multiplier(None) <= Multiplier(Some(days))
  {
  }

  lemma MultiplierGrows(young: real, aged: real)
    requires young <= aged
    ensures Multiplier(Some(young)) <= Multiplier(Some(aged))
  {
    assert young / 30.0 <= aged / 30.0;
  }

  lemma PortionGrows(face: nat, m: real, n: real)
    requires m <= n
    ensures Portion(face, m) <= Portion(face, n) && Portion(face, m).Floor <= Portion(face, n).Floor
  {
    assert face as real * (n - m) >= 0.0;
  }

  /** A bond another bond of the same owner names as its ancestor: the same sats, moved on. */
  predicate Renewed(bonds: seq<Bond>, b: Bond)
  {
    b.fundingTxid.Some? && exists i ::
        0 <= i < |bonds| && bonds[i].owner == b.owner && b.fundingTxid.value in bonds[i].ancestors
  }

  /** What tells two rows apart: owner and address, or the row itself when it has no address. */
  datatype BondKey = AtAddress(owner: Pubkey, address: nat) | AtRow(owner: Pubkey, row: nat)

  function KeyAt(bonds: seq<Bond>, i: nat): BondKey
    requires i < |bonds| && bonds[i].owner.Some?
  {
    var b := bonds[i];
    if b.address.Some? then AtAddress(b.owner.value, b.address.value) else AtRow(b.owner.value, i)
  }

  predicate Eligible(bonds: seq<Bond>, i: nat)
    requires i < |bonds|
  {
    bonds[i].owner.Some? && !Renewed(bonds, bonds[i])
  }

  /** Row i counts: it has an owner, nothing supersedes it, and it is the first of its key. */
  predicate Counts(bonds: seq<Bond>, i: nat)
    requires i < |bonds|
  {
    Eligible(bonds, i) && forall j :: 0 <= j < i && Eligible(bonds, j) ==> KeyAt(bonds, j) != KeyAt(bonds, i)
  }

  /** The row's owner announces, here or elsewhere in the list, that its funding transaction was spent on. */
  ghost predicate MovedOn(bonds: seq<Bond>, i: nat)
    requires i < |bonds|
  {
    exists k, txid :: 0 <= k < |bonds| && bonds[k].owner == bonds[i].owner && txid in bonds[k].ancestors
                      && bonds[i].fundingTxid == Some(txid)
  }

  /** Which rows count: those with an owner whose sats have not moved on, each address once per owner. */
  lemma CountedExactly(bonds: seq<Bond>, i: nat)
    requires i < |bonds|
    ensures Counts(bonds, i)
        <==> && bonds[i].owner.Some? && !MovedOn(bonds, i)
             && forall j :: 0 <= j < i && !MovedOn(bonds, j) && bonds[j].owner == bonds[i].owner ==>
                  bonds[j].address.None? || bonds[j].address != bonds[i].address
  {
    hide Renewed, MovedOn;
    RenewedIsMovedOn(bonds, i);
    if bonds[i].owner.Some? {
      forall j | 0 <= j < i
        ensures Eligible(bonds, j) <==> bonds[j].owner.Some? && !MovedOn(bonds, j)
        ensures bonds[j].owner.Some? ==>
                  (KeyAt(bonds, j) == KeyAt(bonds, i)
                   <==> && bonds[j].owner == bonds[i].owner
                        && bonds[j].address.Some? && bonds[j].address == bonds[i].address)
      {
        RenewedIsMovedOn(bonds, j);
      }
    }
  }

  lemma RenewedIsMovedOn(bonds: seq<Bond>, i: nat)
    requires i < |bonds|
    ensures Renewed(bonds, bonds[i]) <==> MovedOn(bonds, i)
  {
  }

  /** The counted rows of owner a among the first n. */
  function CapacitySum(bonds: seq<Bond>, gated: bool, a: Pubkey, n: nat): nat
    requires n <= |bonds|
  {
    if n == 0 then 0
    else CapacitySum(bonds, gated, a, n - 1)
         + (if Counts(bonds, n - 1) && bonds[n - 1].owner == Some(a) then ValueOf(bonds[n - 1], gated) else 0)
  }

  function Capacity(bonds: seq<Bond>, gated: bool, a: Pubkey): nat { CapacitySum(bonds, gated, a, |bonds|) }

  predicate Bonded(bonds: seq<Bond>, a: Pubkey)
  {
    exists i :: 0 <= i < |bonds| && Counts(bonds, i) && bonds[i].owner == Some(a)
  }

  /** The pairs (owner, ancestor txid) the announcements claim. */
  function RenewedPairs(bonds: seq<Bond>): set<(Pubkey, nat)>
  {
    set i, t | 0 <= i < |bonds| && bonds[i].owner.Some? && t in bonds[i].ancestors :: (bonds[i].owner.value, t)
  }

  ghost predicate Owns(bonds: seq<Bond>, a: Pubkey, n: nat)
    requires n <= |bonds|
  {
    exists j :: 0 <= j < n && Counts(bonds, j) && bonds[j].owner == Some(a)
  }

  /** The totals over the first n rows. */
  ghost predicate Totalled(bonds: seq<Bond>, gated: bool, n: nat, order: seq<Pubkey>, out: map<Pubkey, nat>)
    requires n <= |bonds|
  {
    && Distinct(order) && out.Keys == Elements(order)
    && (forall a: Pubkey :: a in out <==> Owns(bonds, a, n))
    && (forall a: Pubkey :: CapacitySum(bonds, gated, a, n) == if a in out then out[a] else 0)
  }

  lemma TotalsStep(bonds: seq<Bond>, gated: bool, n: nat)
    requires n < |bonds|
    ensures forall x: Pubkey :: Owns(bonds, x, n + 1) <==>
                Owns(bonds, x, n) || (Counts(bonds, n) && bonds[n].owner == Some(x))
    ensures forall x: Pubkey :: CapacitySum(bonds, gated, x, n + 1)
                == CapacitySum(bonds, gated, x, n)
                   + (if Counts(bonds, n) && bonds[n].owner == Some(x) then ValueOf(bonds[n], gated) else 0)
  {
    hide ValueOf, Counts;
  }

  lemma RowCounts(bonds: seq<Bond>, gated: bool, n: nat, order: seq<Pubkey>, out: map<Pubkey, nat>)
    requires n < |bonds| && Totalled(bonds, gated, n, order, out) && Counts(bonds, n) && bonds[n].owner.Some?
    ensures var a := bonds[n].owner.value;
            var total := (if a in out then out[a] else 0) + ValueOf(bonds[n], gated);
            Totalled(bonds, gated, n + 1, if a in out then order else order + [a], out[a := total])
  {
    hide ValueOf, Counts, Owns, CapacitySum, Distinct;
    var a := bonds[n].owner.value;
    TotalsStep(bonds, gated, n);
    DistinctAppend(order, a);
    assert a in out <==> a in Elements(order);
    assert Elements(order + [a]) == Elements(order) + {a};
  }

  lemma RowSkipped(bonds: seq<Bond>, gated: bool, n: nat, order: seq<Pubkey>, out: map<Pubkey, nat>)
    requires n < |bonds| && Totalled(bonds, gated, n, order, out) && !Counts(bonds, n)
    ensures Totalled(bonds, gated, n + 1, order, out)
  {
    hide ValueOf, Counts, Owns, CapacitySum, Distinct;
    TotalsStep(bonds, gated, n);
  }

  lemma RenewedIsPair(bonds: seq<Bond>, b: Bond)
    requires b.owner.Some?
    ensures Renewed(bonds, b) <==> b.fundingTxid.Some? && (b.owner.value, b.fundingTxid.value) in RenewedPairs(bonds)
  {
  }

  /** Each arbiter's total capacity, in first-seen order. */
  method BondCapacities(bonds: seq<Bond>, gated: bool) returns (order: seq<Pubkey>, out: map<Pubkey, nat>)
    ensures Distinct(order) && out.Keys == Elements(order)
    ensures forall a: Pubkey :: a in out <==> Bonded(bonds, a)
    ensures forall a: Pubkey :: a in out ==> out[a] == Capacity(bonds, gated, a)
  {
    hide ValueOf, Renewed, CapacitySum, Owns;
    var renewed := RenewedPairs(bonds);
    var seen: set<BondKey> := {};
    order, out := [], map[];
    assert Totalled(bonds, gated, 0, order, out) by { NothingYet(bonds, gated); }
    for i := 0 to |bonds|
      invariant seen == set j | 0 <= j < i && Eligible(bonds, j) :: KeyAt(bonds, j)
      invariant Totalled(bonds, gated, i, order, out)
    {
      hide Totalled;
      var b := bonds[i];
      ghost var order0, out0 := order, out;
      if b.owner.Some? {
        RenewedIsPair(bonds, b);
      }
      if b.owner.Some? && !(b.fundingTxid.Some? && (b.owner.value, b.fundingTxid.value) in renewed)
          && KeyAt(bonds, i) !in seen {
        assert Counts(bonds, i);
        RowCounts(bonds, gated, i, order0, out0);
        seen := seen + {KeyAt(bonds, i)};
        var a := b.owner.value;
        if a in out {
          out := out[a := out[a] + ValueOf(b, gated)];
        } else {
          order := order + [a];
          out := out[a := ValueOf(b, gated)];
        }
      } else {
        assert !Counts(bonds, i);
        RowSkipped(bonds, gated, i, order0, out0);
      }
    }
    OwnsAll(bonds);
  }

  lemma NothingYet(bonds: seq<Bond>, gated: bool)
    ensures Totalled(bonds, gated, 0, [], map[])
  {
  }

  lemma OwnsAll(bonds: seq<Bond>)
    ensures forall a: Pubkey :: Owns(bonds, a, |bonds|) <==> Bonded(bonds, a)
  {
  }

  /** Renewal moves capacity, it does not add it: when a new bond at a fresh address names a counted bond as its
      ancestor, the owner's total changes by exactly the difference of the two. */
  lemma RenewalReplaces(bonds: seq<Bond>, gated: bool, a: Pubkey, i: nat, b: Bond)
    requires i < |bonds| && Counts(bonds, i) && bonds[i].owner == Some(a) && bonds[i].fundingTxid.Some?
    requires b.owner == Some(a) && b.ancestors == [bonds[i].fundingTxid.value] && !Renewed(bonds + [b], b)
    requires forall j :: 0 <= j < |bonds| && j != i && bonds[j].owner == Some(a) ==>
               bonds[j].fundingTxid != bonds[i].fundingTxid
                   && (bonds[j].address.Some? ==> bonds[j].address != bonds[i].address)
    requires b.address.Some?
    requires forall j :: 0 <= j < |bonds| && bonds[j].owner == Some(a) ==> bonds[j].address != b.address
    ensures Capacity(bonds + [b], gated, a) == Capacity(bonds, gated, a) - ValueOf(bonds[i], gated) + ValueOf(b, gated)
  {
    hide ValueOf;
    var more := bonds + [b];
    forall j | 0 <= j < |bonds| && bonds[j].owner == Some(a)
      ensures Renewed(more, bonds[j]) <==> Renewed(bonds, bonds[j]) || j == i
    {
      if Renewed(bonds, bonds[j]) {
        var k :| 0 <= k < |bonds| && bonds[k].owner == bonds[j].owner
            && bonds[j].fundingTxid.value in bonds[k].ancestors;
        assert more[k] == bonds[k];
      }
      if j == i {
        assert more[|bonds|] == b;
      }
    }
    forall j | 0 <= j < |bonds| && bonds[j].owner == Some(a)
      ensures Counts(more, j) <==> Counts(bonds, j) && j != i
    {
      CountsAfterRenewal(bonds, a, i, b, j);
    }
    RenewedSums(bonds, gated, a, i, b, |bonds|);
    assert Counts(more, |bonds|);
  }

  lemma CountsAfterRenewal(bonds: seq<Bond>, a: Pubkey, i: nat, b: Bond, j: nat)
    requires i < |bonds| && j < |bonds| && bonds[i].owner == Some(a) && bonds[j].owner == Some(a) && Counts(bonds, i)
    requires forall k :: 0 <= k < |bonds| && bonds[k].owner == Some(a) ==>
               (Renewed(bonds + [b], bonds[k]) <==> Renewed(bonds, bonds[k]) || k == i)
    requires forall k :: 0 <= k < |bonds| && k != i && bonds[k].owner == Some(a) && bonds[k].address.Some? ==>
        bonds[k].address != bonds[i].address
    ensures Counts(bonds + [b], j) <==> Counts(bonds, j) && j != i
  {
    hide Renewed;
    var more := bonds + [b];
    assert forall k :: 0 <= k < |bonds| ==> more[k] == bonds[k];
    assert forall k :: 0 <= k < |bonds| && bonds[k].owner.Some? ==> KeyAt(more, k) == KeyAt(bonds, k);
    if Counts(more, j) {
      forall k | 0 <= k < j && Eligible(bonds, k)
        ensures KeyAt(bonds, k) != KeyAt(bonds, j)
      {
        if bonds[k].owner == Some(a) && k != i {
          assert Eligible(more, k);
        }
      }
    }
    if Counts(bonds, j) && j != i {
      forall k | 0 <= k < j && Eligible(more, k)
        ensures KeyAt(more, k) != KeyAt(more, j)
      {
        if bonds[k].owner == Some(a) {
          assert Eligible(bonds, k);
        }
      }
    }
  }

  lemma {:induction false} RenewedSums(bonds: seq<Bond>, gated: bool, a: Pubkey, i: nat, b: Bond, n: nat)
    requires i < |bonds| && n <= |bonds| && Counts(bonds, i) && bonds[i].owner == Some(a)
    requires forall j :: 0 <= j < |bonds| && bonds[j].owner == Some(a) ==>
        (Counts(bonds + [b], j) <==> Counts(bonds, j) && j != i)
    ensures CapacitySum(bonds + [b], gated, a, n)
        == CapacitySum(bonds, gated, a, n) - (if i < n then ValueOf(bonds[i], gated) else 0)
  {
    hide ValueOf, Counts;
    if n > 0 {
      RenewedSums(bonds, gated, a, i, b, n - 1);
      assert (bonds + [b])[n - 1] == bonds[n - 1];
    }
  }

  // ── Assignment ─────────────────────────────────────────────────────────────

  /** Both caps: the trade alone, and with everything else the arbiter has open. */
  predicate Covers(bonds: seq<Bond>, gated: bool, trades: seq<Trade>, exclude: Option<TradeId>, a: Pubkey, amount: nat)
  {
    && Bonded(bonds, a)
    && (amount < UNBONDED_FLOOR_MSATS
        || (amount <= Capacity(bonds, gated, a) && Exposed(a, trades, exclude) + amount <= Capacity(bonds, gated, a)))
  }

  method AssignableArbiters(bonds: seq<Bond>, gated: bool, trades: seq<Trade>, exclude: Option<TradeId>, amount: nat)
    returns (out: seq<Pubkey>)
    ensures Distinct(out) && forall a: Pubkey :: a in out <==> Covers(bonds, gated, trades, exclude, a, amount)
    ensures forall a: Pubkey :: a in out
              <==> && Bonded(bonds, a)
                   && (amount >= 10_000_000 ==>
                         Exposed(a, trades, exclude) + amount <= Capacity(bonds, gated, a))
  {
    hide Bonded, Capacity, OpenBonded;
    var order, capacity := BondCapacities(bonds, gated);
    out := [];
    for i := 0 to |order|
      invariant Distinct(out)
      invariant forall a: Pubkey :: a in out <==> a in order[..i] && Covers(bonds, gated, trades, exclude, a, amount)
    {
      var a := order[i];
      assert a in Elements(order) && a in capacity;
      assert order[..i + 1] == order[..i] + [a];
      var open := GetOpenBondedTrades(a, trades, exclude);
      if amount < UNBONDED_FLOOR_MSATS || (amount <= capacity[a] && Sum(open) + amount <= capacity[a]) {
        DistinctAppend(out, a);
        out := out + [a];
      }
    }
    assert order[..|order|] == order;
    assert forall a: Pubkey :: a in order <==> a in capacity by {
      assert forall a: Pubkey :: a in order <==> a in Elements(order);
    }
  }

  /** The whole sats of arbiter a's bonds that are not tied up in open trades. */
  function FreeSats(bonds: seq<Bond>, gated: bool, trades: seq<Trade>, a: Pubkey): nat
  {
    Max(0, Capacity(bonds, gated, a) - Exposed(a, trades, None)) / 1000
  }

  method LargestCoverSats(bonds: seq<Bond>, gated: bool, trades: seq<Trade>, self: Option<Pubkey>)
    returns (largest: nat)
    ensures forall a: Pubkey :: Bonded(bonds, a) && Some(a) != self ==> FreeSats(bonds, gated, trades, a) <= largest
    ensures largest > 0 ==>
        exists a: Pubkey :: Bonded(bonds, a) && Some(a) != self && FreeSats(bonds, gated, trades, a) == largest
  {
    hide Bonded, Capacity, OpenBonded;
    var order, capacity := BondCapacities(bonds, gated);
    largest := 0;
    for i := 0 to |order|
      invariant forall a: Pubkey :: a in order[..i] && Some(a) != self ==> FreeSats(bonds, gated, trades, a) <= largest
      invariant largest > 0 ==>
          exists a: Pubkey :: Bonded(bonds, a) && Some(a) != self && FreeSats(bonds, gated, trades, a) == largest
    {
      var a := order[i];
      assert a in Elements(order) && a in capacity;
      assert order[..i + 1] == order[..i] + [a];
      if Some(a) != self {
        var open := GetOpenBondedTrades(a, trades, None);
        var free := capacity[a] - Sum(open);
        largest := Max(largest, Max(0, free) / 1000);
      }
    }
    assert order[..|order|] == order;
    forall a: Pubkey | Bonded(bonds, a) && Some(a) != self
      ensures FreeSats(bonds, gated, trades, a) <= largest
    {
      assert a in capacity && a in Elements(order);
    }
  }

  /** `largest` is the most any eligible arbiter can cover. */
  ghost predicate IsLargestCover(bonds: seq<Bond>, gated: bool, trades: seq<Trade>, self: Option<Pubkey>, largest: nat)
  {
    && (forall a: Pubkey :: Bonded(bonds, a) && Some(a) != self ==> FreeSats(bonds, gated, trades, a) <= largest)
    && (largest > 0 ==>
        exists a: Pubkey :: Bonded(bonds, a) && Some(a) != self && FreeSats(bonds, gated, trades, a) == largest)
  }

  lemma CoversIsFree(bonds: seq<Bond>, gated: bool, trades: seq<Trade>, a: Pubkey, sats: nat)
    requires sats * 1000 >= UNBONDED_FLOOR_MSATS && Bonded(bonds, a)
    ensures Covers(bonds, gated, trades, None, a, sats * 1000) <==> sats <= FreeSats(bonds, gated, trades, a)
  {
    hide Bonded, Capacity, Exposed;
  }

  /** The number shown in advance never disagrees with the refusal: a trade at or above the floor has an eligible
      arbiter exactly when it is no larger than the largest cover. */
  lemma CoverMatchesAssignment(bonds: seq<Bond>, gated: bool, trades: seq<Trade>, self: Option<Pubkey>, largest: nat,
                          sats: nat)
    requires IsLargestCover(bonds, gated, trades, self, largest) && sats * 1000 >= UNBONDED_FLOOR_MSATS
    ensures (exists a: Pubkey :: Some(a) != self && Covers(bonds, gated, trades, None, a, sats * 1000))
        <==> sats <= largest
  {
    hide Bonded, Capacity, Exposed, FreeSats, Covers;
    if a: Pubkey :| Some(a) != self && Covers(bonds, gated, trades, None, a, sats * 1000) {
      CoveringIsBonded(bonds, gated, trades, a, sats * 1000);
      CoversIsFree(bonds, gated, trades, a, sats);
    }
    if sats <= largest {
      var a: Pubkey :| Bonded(bonds, a) && Some(a) != self && FreeSats(bonds, gated, trades, a) == largest;
      CoversIsFree(bonds, gated, trades, a, sats);
    }
  }

  lemma CoveringIsBonded(bonds: seq<Bond>, gated: bool, trades: seq<Trade>, a: Pubkey, amount: nat)
    requires Covers(bonds, gated, trades, None, a, amount)
    ensures Bonded(bonds, a)
  {
  }

  /** The pool an assignment draws from: members over capacity are skipped, unless that would leave nobody. */
  function AssignablePool(pool: seq<Pubkey>, over: set<Pubkey>): (r: seq<Pubkey>)
    ensures pool != [] ==> r != []
    ensures forall a: Pubkey :: a in r ==> a in pool
    ensures (exists a: Pubkey :: a in pool && a !in over) ==> forall a: Pubkey :: a in r <==> a in pool && a !in over
    ensures (forall a: Pubkey :: a in pool ==> a in over) ==> r == pool
  {
    var within := (a: Pubkey) => if a in over then None else Some(a);
    var filtered := Collect(within, pool);
    CollectMembers(within, pool);
    assert forall a: Pubkey :: a in pool && a !in over ==> within(a) == Some(a);
    if filtered != [] then
      assert filtered[0] in filtered;
      filtered
    else pool
  }
}
