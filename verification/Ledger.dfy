/** Runs of the exposure ledger: what seating only assignable arbiters keeps true, and when it does not. */
module Ledger {
  import opened Prelude
  import opened Exposure

  datatype Book = Book(bonds: seq<Bond>, gated: bool, trades: seq<Trade>)

  datatype Event =
    | Create(id: TradeId, amount: nat, arbiter: Pubkey, onchain: bool)
    | Commit(id: TradeId)
    | Release(id: TradeId)
    | Rebond(bonds: seq<Bond>)

  function HasId(id: TradeId): Trade -> bool { (t: Trade) => t.id == id }

  function IndexOf(trades: seq<Trade>, id: TradeId): (i: nat)
    ensures i <= |trades| && (i < |trades| ==> trades[i].id == id)
    ensures i == |trades| ==> forall k :: 0 <= k < |trades| ==> trades[k].id != id
  {
    FirstSpec(HasId(id), trades);
    First(HasId(id), trades)
  }

  /** The arbiter may be seated on this trade, whatever else is open. */
  predicate Assignable(k: Book, exclude: Option<TradeId>, arbiter: Option<Pubkey>, amount: nat)
  {
    amount < UNBONDED_FLOOR_MSATS || arbiter.None? || Covers(k.bonds, k.gated, k.trades, exclude, arbiter.value, amount)
  }

  function Committed(t: Trade): Trade { if t.onchain then t.(deposited := true) else t.(status := Locked) }

  function Released(t: Trade): Trade { t.(deposited := false, status := Completed) }

  /** Bonds may come and go as long as they still cover what is open. */
  predicate StillCovers(k: Book, bonds: seq<Bond>)
  {
    forall t :: t in k.trades && t.arbiter.Some? ==>
        Exposed(t.arbiter.value, k.trades, None) <= Capacity(bonds, k.gated, t.arbiter.value)
  }

  /** One event. Money is committed either behind the same assignability check, or, when `recheck` is off,
      unseen. */
  function Step(k: Book, ev: Event, recheck: bool): Book
  {
    match ev
    case Create(id, amount, arbiter, onchain) =>
      if IndexOf(k.trades, id) < |k.trades| || !Assignable(k, None, Some(arbiter), amount) then k
      else k.(trades := k.trades + [Trade(id, amount, Some(arbiter), onchain, false, Created)])
    case Commit(id) =>
      var i := IndexOf(k.trades, id);
      if i == |k.trades| || IsOpen(k.trades[i])
          || (recheck && !Assignable(k, Some(id), k.trades[i].arbiter, k.trades[i].amount)) then k
      else k.(trades := k.trades[i := Committed(k.trades[i])])
    case Release(id) =>
      var i := IndexOf(k.trades, id);
      if i == |k.trades| then k else k.(trades := k.trades[i := Released(k.trades[i])])
    case Rebond(bonds) => if StillCovers(k, bonds) then k.(bonds := bonds) else k
  }

  /** What each event does, and when it is turned away: a new trade needs an unused id and an arbiter free to take it, a
      commit a trade that is not open and, under the recheck, an arbiter who can take it now; money goes into an
      escrow on-chain as a deposit, otherwise as a lock, and comes out again with a release. */
  lemma EventsTakeEffect(k: Book, id: TradeId, amount: nat, arbiter: Pubkey, onchain: bool, i: nat, bonds: seq<Bond>,
                         recheck: bool)
    requires UniqueIds(k.trades) && i < |k.trades|
    ensures (forall t :: t in k.trades ==> t.id != id) && Assignable(k, None, Some(arbiter), amount) ==>
              Step(k, Create(id, amount, arbiter, onchain), recheck)
              == k.(trades := k.trades + [Trade(id, amount, Some(arbiter), onchain, false, Created)])
    ensures (exists t :: t in k.trades && t.id == id) || !Assignable(k, None, Some(arbiter), amount) ==>
              Step(k, Create(id, amount, arbiter, onchain), recheck) == k
    ensures var t := k.trades[i];
            Step(k, Commit(t.id), recheck)
            == if (if t.onchain then t.deposited else t.status in {Locked, Approved, Claimed})
                  || (recheck && !Assignable(k, Some(t.id), t.arbiter, t.amount)) then k
               else if t.onchain then k.(trades := k.trades[i := t.(deposited := true)])
               else k.(trades := k.trades[i := t.(status := Locked)])
    ensures Step(k, Release(k.trades[i].id), recheck)
         == k.(trades := k.trades[i := k.trades[i].(deposited := false, status := Completed)])
    ensures Step(k, Rebond(bonds), recheck).bonds == if StillCovers(k, bonds) then bonds else k.bonds
  {
    hide Assignable, StillCovers;
    UniqueAt(k.trades, IndexOf(k.trades, k.trades[i].id), i);
    var j := IndexOf(k.trades, id);
    if j < |k.trades| {
      assert k.trades[j] in k.trades;
    }
  }

  function Run(k: Book, evs: seq<Event>, recheck: bool): Book
  {
    if evs == [] then k else Step(Run(k, evs[..|evs| - 1], recheck), evs[|evs| - 1], recheck)
  }

  ghost predicate UniqueIds(trades: seq<Trade>)
  {
    forall i, j :: 0 <= i < j < |trades| ==> trades[i].id != trades[j].id
  }

  /** No arbiter has more open than their bonds cover. */
  ghost predicate Within(k: Book) { forall a: Pubkey :: Exposed(a, k.trades, None) <= Capacity(k.bonds, k.gated, a) }

  // ── Sums under one change ──────────────────────────────────────────────────

  function Weight(a: Pubkey, exclude: Option<TradeId>, t: Trade): nat { if Exposes(a, exclude, t) then t.amount else 0 }

  lemma ExposedStep(a: Pubkey, trades: seq<Trade>, exclude: Option<TradeId>)
    requires trades != []
    ensures Exposed(a, trades, exclude)
        == Exposed(a, trades[..|trades| - 1], exclude) + Weight(a, exclude, trades[|trades| - 1])
  {
    var before, last := OpenBonded(a, trades[..|trades| - 1], exclude), trades[|trades| - 1];
    if Exposes(a, exclude, last) {
      assert (before + [last])[..|before|] == before;
    } else {
      assert before + [] == before;
    }
  }

  lemma {:induction false} ExposedUpdate(a: Pubkey, trades: seq<Trade>, exclude: Option<TradeId>, i: nat, t: Trade)
    requires i < |trades|
    ensures Exposed(a, trades[i := t], exclude)
        == Exposed(a, trades, exclude) - Weight(a, exclude, trades[i]) + Weight(a, exclude, t)
  {
    hide Exposed, Weight;
    var n := |trades| - 1;
    ExposedStep(a, trades, exclude);
    ExposedStep(a, trades[i := t], exclude);
    if i < n {
      assert trades[i := t][..n] == trades[..n][i := t];
      ExposedUpdate(a, trades[..n], exclude, i, t);
    } else {
      assert trades[i := t][..n] == trades[..n];
    }
  }

  lemma {:induction false} ExposedExcluding(a: Pubkey, trades: seq<Trade>, id: TradeId)
    requires forall i :: 0 <= i < |trades| && trades[i].id == id ==> Weight(a, None, trades[i]) == 0
    ensures Exposed(a, trades, Some(id)) == Exposed(a, trades, None)
  {
    if trades != [] {
      ExposedStep(a, trades, Some(id));
      ExposedStep(a, trades, None);
      ExposedExcluding(a, trades[..|trades| - 1], id);
    }
  }

  lemma UniqueAt(trades: seq<Trade>, i: nat, k: nat)
    requires UniqueIds(trades) && i < |trades| && k < |trades| && trades[i].id == trades[k].id
    ensures i == k
  {
  }

  /** Committing a trade that was not open keeps everyone within their bonds exactly when its arbiter is assignable
      to it at that moment, leaving the trade itself out of the count. */
  lemma CommitIsExact(k: Book, i: nat)
    requires Within(k) && UniqueIds(k.trades) && i < |k.trades| && !IsOpen(k.trades[i])
    ensures Within(k.(trades := k.trades[i := Committed(k.trades[i])]))
            <==> Assignable(k, Some(k.trades[i].id), k.trades[i].arbiter, k.trades[i].amount)
  {
    hide Capacity, Exposed, Bonded;
    var t := k.trades[i];
    var after := k.(trades := k.trades[i := Committed(t)]);
    forall a: Pubkey
      ensures Exposed(a, after.trades, None)
              == Exposed(a, k.trades, None)
                  + (if t.amount >= UNBONDED_FLOOR_MSATS && t.arbiter == Some(a) then t.amount else 0)
      ensures Exposed(a, k.trades, Some(t.id)) == Exposed(a, k.trades, None)
    {
      ExposedUpdate(a, k.trades, None, i, Committed(t));
      forall j | 0 <= j < |k.trades| && k.trades[j].id == t.id
        ensures Weight(a, None, k.trades[j]) == 0
      {
        UniqueAt(k.trades, i, j);
      }
      ExposedExcluding(a, k.trades, t.id);
    }
    if t.amount >= UNBONDED_FLOOR_MSATS && t.arbiter.Some? {
      var a := t.arbiter.value;
      if Within(after) {
        assert Exposed(a, after.trades, None) <= Capacity(k.bonds, k.gated, a);
        CapacityNeedsBond(k.bonds, k.gated, a);
      }
    }
  }

  lemma {:induction false} HasBond(bonds: seq<Bond>, gated: bool, a: Pubkey, n: nat)
    requires n <= |bonds|
    ensures CapacitySum(bonds, gated, a, n) > 0 ==> Bonded(bonds, a)
  {
    if n > 0 {
      HasBond(bonds, gated, a, n - 1);
    }
  }

  lemma CapacityNeedsBond(bonds: seq<Bond>, gated: bool, a: Pubkey)
    ensures Capacity(bonds, gated, a) > 0 ==> Bonded(bonds, a)
  {
    HasBond(bonds, gated, a, |bonds|);
  }

  lemma StepStaysWithin(k: Book, ev: Event)
    requires Within(k) && UniqueIds(k.trades)
    ensures Within(Step(k, ev, true)) && UniqueIds(Step(k, ev, true).trades)
  {
    hide Capacity, Exposed, Covers;
    match ev
    case Create(id, amount, arbiter, onchain) =>
      var t := Trade(id, amount, Some(arbiter), onchain, false, Created);
      forall a: Pubkey
        ensures Exposed(a, k.trades + [t], None) == Exposed(a, k.trades, None)
      {
        ExposedStep(a, k.trades + [t], None);
        assert (k.trades + [t])[..|k.trades|] == k.trades;
      }
    case Commit(id) =>
      var i := IndexOf(k.trades, id);
      if i < |k.trades| && !IsOpen(k.trades[i]) {
        CommitIsExact(k, i);
      }
    case Release(id) =>
      var i := IndexOf(k.trades, id);
      if i < |k.trades| {
        forall a: Pubkey
          ensures Exposed(a, k.trades[i := Released(k.trades[i])], None) <= Exposed(a, k.trades, None)
        {
          ExposedUpdate(a, k.trades, None, i, Released(k.trades[i]));
        }
      }
    case Rebond(bonds) => RebondIsExact(k, bonds);
  }

  lemma {:induction false} SeatedNowhere(a: Pubkey, trades: seq<Trade>)
    requires forall t :: t in trades ==> t.arbiter != Some(a)
    ensures Exposed(a, trades, None) == 0
  {
    if trades != [] {
      ExposedStep(a, trades, None);
      SeatedNowhere(a, trades[..|trades| - 1]);
    }
  }

  /** A change of bonds keeps everyone within them exactly when the new bonds cover what every seated arbiter has
      open. */
  lemma RebondIsExact(k: Book, bonds: seq<Bond>)
    ensures Within(k.(bonds := bonds)) <==> StillCovers(k, bonds)
  {
    hide Capacity, Exposed;
    if StillCovers(k, bonds) {
      forall a: Pubkey
        ensures Exposed(a, k.trades, None) <= Capacity(bonds, k.gated, a)
      {
        if forall t :: t in k.trades ==> t.arbiter != Some(a) {
          SeatedNowhere(a, k.trades);
        } else {
          var t :| t in k.trades && t.arbiter == Some(a);
        }
      }
    }
    if Within(k.(bonds := bonds)) {
      forall t | t in k.trades && t.arbiter.Some?
        ensures Exposed(t.arbiter.value, k.trades, None) <= Capacity(bonds, k.gated, t.arbiter.value)
      {
        assert Exposed(t.arbiter.value, k.(bonds := bonds).trades, None) <= Capacity(bonds, k.gated, t.arbiter.value);
      }
    }
  }

  /** In every run that commits money only on assignable arbiters and changes bonds only where they still cover
      what is open, no arbiter's open exposure ever exceeds the total of their distinct, non-superseded bonds. Both
      guards are exact, by CommitIsExact and RebondIsExact. */
  lemma {:induction false} RunsStayWithin(bonds: seq<Bond>, gated: bool, evs: seq<Event>)
    ensures Within(Run(Book(bonds, gated, []), evs, true)) && UniqueIds(Run(Book(bonds, gated, []), evs, true).trades)
  {
    if evs == [] {
      assert forall a: Pubkey :: OpenBonded(a, [], None) == [];
    } else {
      hide Step, Within, UniqueIds;
      RunsStayWithin(bonds, gated, evs[..|evs| - 1]);
      StepStaysWithin(Run(Book(bonds, gated, []), evs[..|evs| - 1], true), evs[|evs| - 1]);
    }
  }

  // ── Seating is not enough ──────────────────────────────────────────────────

  /** Checking only when a trade is created does not hold the line: two trades, each within the bond when its
      arbiter is seated, are both committed and expose twice what the bond covers. */
  lemma SeatThenCommitOverruns() returns (k: Book, evs: seq<Event>)
    ensures k.trades == [] && Capacity(k.bonds, k.gated, 1) == 10_000_000
    ensures Exposed(1, Run(k, evs, false).trades, None) == 20_000_000
  {
    k := Book([Bond(Some(1), 10_000, Some(0), None, None, [])], false, []);
    OneBond(k);
    evs := [Create(1, 10_000_000, 1, true), Create(2, 10_000_000, 1, true), Commit(1), Commit(2)];
    var t := Trade(1, 10_000_000, Some(1), true, false, Created);
    var u := Trade(2, 10_000_000, Some(1), true, false, Created);
    SeatedTwice(k, t, u);
    RunFour(k, evs, false);
    ExposedPair(Committed(t), Committed(u));
  }

  lemma SeatedTwice(k: Book, t: Trade, u: Trade)
    requires k.trades == [] && Bonded(k.bonds, 1) && Capacity(k.bonds, k.gated, 1) == 10_000_000
    requires t == Trade(1, 10_000_000, Some(1), true, false, Created)
    requires u == Trade(2, 10_000_000, Some(1), true, false, Created)
    ensures Step(k, Create(1, 10_000_000, 1, true), false) == k.(trades := [t])
    ensures Step(k.(trades := [t]), Create(2, 10_000_000, 1, true), false) == k.(trades := [t, u])
    ensures Step(k.(trades := [t, u]), Commit(1), false) == k.(trades := [Committed(t), u])
    ensures Step(k.(trades := [Committed(t), u]), Commit(2), false) == k.(trades := [Committed(t), Committed(u)])
  {
    hide Bonded, Capacity, Exposed;
    NothingOpen([]);
    NothingOpen([t]);
    IndexOfTwo(t, u);
    IndexOfTwo(Committed(t), u);
  }

  lemma IndexOfTwo(t: Trade, u: Trade)
    requires t.id != u.id
    ensures IndexOf([t], u.id) == 1 && IndexOf([t, u], t.id) == 0 && IndexOf([t, u], u.id) == 1
  {
    var one, two := [t], [t, u];
    assert one[0] == t && two[0] == t && two[1] == u;
    FirstSpec(HasId(u.id), one);
    FirstSpec(HasId(t.id), two);
    FirstSpec(HasId(u.id), two);
  }

  lemma RunFour(k: Book, evs: seq<Event>, recheck: bool)
    requires |evs| == 4
    ensures Run(k, evs, recheck)
        == Step(Step(Step(Step(k, evs[0], recheck), evs[1], recheck), evs[2], recheck), evs[3], recheck)
  {
    hide Step;
    assert evs[..3][..2] == evs[..2] && evs[..2][..1] == evs[..1] && evs[..1][..0] == [];
    assert Run(k, evs[..1], recheck) == Step(Run(k, [], recheck), evs[0], recheck);
    assert Run(k, evs[..2], recheck) == Step(Run(k, evs[..1], recheck), evs[1], recheck);
    assert Run(k, evs[..3], recheck) == Step(Run(k, evs[..2], recheck), evs[2], recheck);
  }

  lemma ExposedPair(t: Trade, u: Trade)
    ensures Exposed(1, [t, u], None) == Weight(1, None, t) + Weight(1, None, u)
  {
    var both := [t, u];
    ExposedStep(1, both, None);
    assert both[..1] == [t] && [t][..0] == [];
    ExposedStep(1, [t], None);
  }

  lemma OneBond(k: Book)
    requires k.bonds == [Bond(Some(1), 10_000, Some(0), None, None, [])] && !k.gated
    ensures Bonded(k.bonds, 1) && Capacity(k.bonds, k.gated, 1) == 10_000_000
  {
    assert Counts(k.bonds, 0);
    assert CapacitySum(k.bonds, false, 1, 0) == 0;
    assert CapacitySum(k.bonds, false, 1, 1) == ValueOf(k.bonds[0], false);
  }

  lemma {:induction false} NothingOpen(trades: seq<Trade>)
    requires forall t :: t in trades ==> !IsOpen(t)
    ensures forall a: Pubkey :: Exposed(a, trades, None) == 0
  {
    if trades != [] {
      NothingOpen(trades[..|trades| - 1]);
      forall a: Pubkey
        ensures Exposed(a, trades, None) == 0
      {
        ExposedStep(a, trades, None);
      }
    }
  }
}
