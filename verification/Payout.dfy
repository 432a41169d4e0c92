/** What the settlement builder, the checklist and the chain promise each other. */
module Payout {
  import opened Prelude
  import opened Script
  import opened Escrow
  import opened Exits
  import opened Settlement

  // ── From order to block ────────────────────────────────────────────────────

  /** The transaction as input i sees it, given what its signatures are valid for. */
  function TxOf(psbt: Psbt, i: nat, signed: (Leaf, Bytes, Bytes) -> bool, keyPath: Bytes -> bool): Tx
    requires i < |psbt.inputs|
  {
    var s := psbt.inputs[i].sequence;
    Tx(2, psbt.lockTime, if s.Some? then s.value else SEQUENCE_FINAL, signed, keyPath)
  }

  /** The keys that must have signed a branch for its witness to finalize. */
  predicate Enough(e: Escrow, b: Branch, signers: set<Bytes>)
  {
    var p := e.params;
    match b
    case Coop => p.buyer in signers && p.seller in signers
    case Dispute => SignerCount(p, signers) == 2
    case Refund => (p.funder == Buyer ==> p.buyer in signers) && (p.funder == Seller ==> p.seller in signers)
  }

  /** End to end: whatever the builder agrees to build, signed for its branch by the right keys and assembled
      into a witness, is accepted by the script, and the next block may include it unless a lock time was asked
      for that lies ahead. */
  lemma BuiltSettlementConfirms(o: Order, i: nat, tip: int, time: int, fundedAt: Block,
                                signed: (Leaf, Bytes, Bytes) -> bool, keyPath: Bytes -> bool, sigs: seq<PartialSig>)
    requires Built(o.e) && OrderError(o).None? && i < |o.utxos|
    requires o.leaf == Coop || o.tip == Some(tip)
    requires o.leaf == Dispute && o.e.params.csv > 0 ==> fundedAt.height <= o.fundingHeight.value
    requires var tx := TxOf(SettlementOf(o, SequenceFor(o.leaf, o.e.params.csv).value), i, signed, keyPath);
             Genuine(tx, sigs)
    ensures var tx := TxOf(SettlementOf(o, SequenceFor(o.leaf, o.e.params.csv).value), i, signed, keyPath);
            && (Finalizes(o.e, tx, sigs, o.leaf) <==> Enough(o.e, o.leaf, Signers(sigs, o.e.LeafOf(o.leaf))))
            && AgedIn(tx, Block(tip + 1, time), fundedAt)
            && (FinalIn(tx, Block(tip + 1, time)) <==> LockTimePassed(o, tip, time))
  {
    hide BuildEscrow, Finalizes, Signers, Genuine, Total;
    var p := o.e.params;
    BuildsWhenSound(p);
    var s := SequenceFor(o.leaf, p.csv).value;
    var tx := TxOf(SettlementOf(o, s), i, signed, keyPath);
    match o.leaf
    case Coop => CoopFinalizes(p, tx, sigs);
    case Dispute => DisputeFinalizes(p, tx, sigs);
    case Refund => RefundFinalizes(p, tx, sigs);
  }

  /** The order's lock time does not hold the transaction back from the next block; with none given, or with the
      refund height the builder insists on, it never does. */
  predicate LockTimePassed(o: Order, tip: int, time: int)
  {
    o.lockTime.None? || o.lockTime.value == 0
    || (if o.lockTime.value < LOCKTIME_THRESHOLD then o.lockTime.value <= tip else o.lockTime.value < time)
  }

  // ── Builder and checklist ──────────────────────────────────────────────────

  function Ats(utxos: seq<Utxo>): seq<Outpoint> { seq(|utxos|, i requires 0 <= i < |utxos| => utxos[i].at) }

  lemma {:induction false} KnownOf(utxos: seq<Utxo>)
    ensures Known(utxos).Keys == Elements(Ats(utxos))
    ensures Distinct(Ats(utxos)) ==>
        forall i :: 0 <= i < |utxos| ==> utxos[i].at in Known(utxos) && Known(utxos)[utxos[i].at] == utxos[i].amount
  {
    if utxos != [] {
      var n := |utxos| - 1;
      KnownOf(utxos[..n]);
      assert Ats(utxos) == Ats(utxos[..n]) + [utxos[n].at];
      DistinctAppend(Ats(utxos[..n]), utxos[n].at);
      assert forall i :: 0 <= i < n ==> Ats(utxos[..n])[i] == utxos[i].at;
    }
  }

  lemma {:induction false} InSumOf(known: map<Outpoint, nat>, e: Escrow, utxos: seq<Utxo>, sequence: int,
                          inputs: seq<Input>)
    requires |inputs| == |utxos| && forall i :: 0 <= i < |utxos| ==> inputs[i] == InputFor(e, utxos[i], sequence)
    requires forall i :: 0 <= i < |utxos| ==> utxos[i].at in known && known[utxos[i].at] == utxos[i].amount
    ensures InSum(known, inputs) == Total(utxos)
  {
    if utxos != [] {
      InSumOf(known, e, utxos[..|utxos| - 1], sequence, inputs[..|utxos| - 1]);
    }
  }

  /** What a co-signer expects who knows the same outputs, destination and branch, and perhaps a deposit the parties
      committed to with its amount. */
  function Expect(o: Order, maxFee: int, committed: Option<Outpoint>, minInput: Option<int>): Expectation
  {
    Expectation(o.e, o.utxos, o.destination, maxFee, Some(o.leaf), o.tip, committed, minInput)
  }

  /** What the builder builds passes the checklist of a co-signer with the same facts exactly when no outpoint is
      listed twice, the fee is within the ceiling, a dispute has an appeal window, and a committed deposit is among
      the outputs with its amount known and no larger than their total. */
  lemma BuilderMeetsChecklist(o: Order, maxFee: int, committed: Option<Outpoint>, minInput: Option<int>)
    requires Built(o.e) && OrderError(o).None?
    ensures Passes(Expect(o, maxFee, committed, minInput), SettlementOf(o, SequenceFor(o.leaf, o.e.params.csv).value))
            <==> && Distinct(Ats(o.utxos)) && o.fee <= maxFee && (o.leaf == Dispute ==> o.e.params.csv > 0)
                 && (committed.Some? ==>
                       committed.value in Ats(o.utxos) && minInput.Some? && minInput.value <= Total(o.utxos))
  {
    hide BuildEscrow, Root, Known, Total, InSum, DisputeWindow;
    BuildsWhenSound(o.e.params);
    var s := SequenceFor(o.leaf, o.e.params.csv).value;
    var psbt, x := SettlementOf(o, s), Expect(o, maxFee, committed, minInput);
    assert Outpoints(psbt.inputs) == Ats(o.utxos);
    KnownOf(o.utxos);
    OneOutput(psbt.outputs);
    assert psbt.inputs[0] == InputFor(o.e, o.utxos[0], s);
    if Distinct(Ats(o.utxos)) {
      InSumOf(Known(o.utxos), o.e, o.utxos, s, psbt.inputs);
      forall i | 0 <= i < |o.utxos|
        ensures InputFits(x, psbt.inputs[i]) <==> (o.leaf == Dispute ==> o.e.params.csv > 0)
      {
        assert psbt.inputs[i] == InputFor(o.e, o.utxos[i], s);
      }
    }
  }

  lemma OneOutput(outputs: seq<Output>)
    requires |outputs| == 1
    ensures OutSum(outputs) == if outputs[0].amount.Some? then outputs[0].amount.value else 0
  {
    assert outputs[..0] == [];
  }

  /** Signing is safe: a settlement that passes spends at least one output, no output twice and only outputs this party
      knows, the committed one among them and at least the committed amount, or all of them when none is committed;
      and it hands all but the allowed fee to the one agreed destination. */
  lemma ChecklistProtects(x: Expectation, psbt: Psbt)
    requires Passes(x, psbt)
    ensures psbt.inputs != [] && Distinct(Ins(psbt)) && Elements(Ins(psbt)) <= Elements(Ats(x.utxos))
    ensures x.committed.Some? ==> x.committed.value in Ins(psbt) && x.minInput.Some?
    ensures x.committed.None? ==> Elements(Ins(psbt)) == Elements(Ats(x.utxos))
    ensures |psbt.outputs| == 1 && psbt.outputs[0].address == Some(x.destination)
    ensures var out := psbt.outputs[0].amount;
            var paid := if out.Some? then out.value else 0;
            var spent := InSum(Known(x.utxos), psbt.inputs);
            && spent - x.maxFee <= paid <= spent && (x.committed.Some? ==> x.minInput.value <= spent)
  {
    OneOutput(psbt.outputs);
    KnownOf(x.utxos);
    assert Ins(psbt) == Outpoints(psbt.inputs);
    forall i | 0 <= i < |psbt.inputs|
      ensures Ins(psbt)[i] in Known(x.utxos)
    {
      assert InputFits(x, psbt.inputs[i]);
    }
  }

  /** The outpoints a settlement spends. */
  function Ins(psbt: Psbt): seq<Outpoint> { seq(|psbt.inputs|, i requires 0 <= i < |psbt.inputs| => psbt.inputs[i].at) }

  /** The k-th listed output is the last one at this outpoint. */
  predicate LastAt(utxos: seq<Utxo>, at: Outpoint, k: int)
  {
    0 <= k < |utxos| && utxos[k].at == at && forall j :: k < j < |utxos| ==> utxos[j].at != at
  }

  lemma {:induction false} KnownIsListed(utxos: seq<Utxo>, at: Outpoint) returns (k: nat)
    requires at in Known(utxos)
    ensures LastAt(utxos, at, k) && utxos[k].amount == Known(utxos)[at]
  {
    k := |utxos| - 1;
    if utxos[k].at != at {
      k := KnownIsListed(utxos[..k], at);
    }
  }

  lemma {:induction false} ListedIsKnown(utxos: seq<Utxo>, at: Outpoint, k: int)
    requires LastAt(utxos, at, k)
    ensures at in Known(utxos) && Known(utxos)[at] == utxos[k].amount
  {
    if k < |utxos| - 1 {
      ListedIsKnown(utxos[..|utxos| - 1], at, k);
    }
  }

  /** Read off its fields, the input spends a known output of this escrow for its known amount and signs the whole
      transaction; for a refund it is neither final nor aged, and for a dispute it asserts the appeal window. */
  ghost predicate SafeInput(x: Expectation, inp: Input)
  {
    && (inp.sighash == None || inp.sighash == Some(0))
    && inp.script == Some(Taproot(Root(Fork(Fork(Tip(x.e.dispute), Tip(x.e.refund)), Tip(x.e.coop)))))
    && (exists k :: LastAt(x.utxos, inp.at, k) && inp.amount == Some(x.utxos[k].amount))
    && (x.leaf == Some(Refund) ==> inp.sequence == Some(0xffff_fffe))
    && (x.leaf == Some(Dispute) ==> 0 < x.e.params.csv <= 0xffff && inp.sequence == Some(x.e.params.csv))
  }

  /** A refund is locked to the committed height, and the tip has reached it. */
  ghost predicate LockedToHeight(x: Expectation, psbt: Psbt)
  {
    x.leaf == Some(Refund) ==>
      psbt.lockTime == x.e.params.refundLockUntil && x.tip.Some? && x.tip.value >= x.e.params.refundLockUntil
  }

  lemma FitsWhenSafe(x: Expectation, inp: Input)
    ensures InputFits(x, inp) <==> SafeInput(x, inp)
  {
    hide Root, Known;
    if inp.at in Known(x.utxos) {
      var k := KnownIsListed(x.utxos, inp.at);
    }
    if k :| LastAt(x.utxos, inp.at, k) && inp.amount == Some(x.utxos[k].amount) {
      ListedIsKnown(x.utxos, inp.at, k);
    }
  }

  /** Nothing passes as a blank cheque: every input of a passing settlement is safe, and a refund is locked to the
      committed height. */
  lemma PassingInputsAreSafe(x: Expectation, psbt: Psbt, i: nat)
    requires Passes(x, psbt) && i < |psbt.inputs|
    ensures SafeInput(x, psbt.inputs[i]) && LockedToHeight(x, psbt)
  {
    hide SafeInput, InputFits;
    FitsWhenSafe(x, psbt.inputs[i]);
  }

  /** And nothing safe is turned away: a settlement of safe inputs, each spent once, passes if it is timely, spends what
      it must and pays all but the allowed fee to the one destination. */
  lemma SafeSettlementsPass(x: Expectation, psbt: Psbt)
    requires psbt.inputs != [] && Distinct(Ins(psbt)) && LockedToHeight(x, psbt)
    requires forall i :: 0 <= i < |psbt.inputs| ==> SafeInput(x, psbt.inputs[i])
    requires if x.committed.Some? then x.committed.value in Ins(psbt) && x.minInput.Some?
             else Elements(Ins(psbt)) == Elements(Ats(x.utxos))
    requires |psbt.outputs| == 1 && psbt.outputs[0].address == Some(x.destination)
    requires var out := psbt.outputs[0].amount;
             var paid := if out.Some? then out.value else 0;
             var spent := InSum(Known(x.utxos), psbt.inputs);
             spent - x.maxFee <= paid <= spent && (x.committed.Some? ==> x.minInput.value <= spent)
    ensures Passes(x, psbt)
  {
    hide SafeInput, InputFits, InSum, Known, OutSum;
    OneOutput(psbt.outputs);
    KnownOf(x.utxos);
    assert Ins(psbt) == Outpoints(psbt.inputs);
    forall i | 0 <= i < |psbt.inputs|
      ensures InputFits(x, psbt.inputs[i])
    {
      FitsWhenSafe(x, psbt.inputs[i]);
    }
  }

  /** Known outputs may only be added to. */
  predicate Enlarges(small: map<Outpoint, nat>, large: map<Outpoint, nat>)
  {
    forall k :: k in small ==> k in large && large[k] == small[k]
  }

  lemma {:induction false} InSumKept(small: map<Outpoint, nat>, large: map<Outpoint, nat>, inputs: seq<Input>)
    requires Enlarges(small, large) && forall i :: 0 <= i < |inputs| ==> inputs[i].at in small
    ensures InSum(small, inputs) == InSum(large, inputs)
  {
    if inputs != [] {
      InSumKept(small, large, inputs[..|inputs| - 1]);
    }
  }

  /** With a committed outpoint no later deposit can freeze an agreed payout: acceptance survives any enlargement
      of the known outputs. Without one, a single further deposit undoes it. */
  lemma AcceptanceSurvivesDeposits(x: Expectation, more: seq<Utxo>, psbt: Psbt)
    requires Passes(x, psbt) && Enlarges(Known(x.utxos), Known(more))
    ensures x.committed.Some? ==> Passes(x.(utxos := more), psbt)
    ensures x.committed.None? ==> (Passes(x.(utxos := more), psbt) <==> Known(more).Keys == Known(x.utxos).Keys)
  {
    hide Known, Root;
    forall i | 0 <= i < |psbt.inputs|
      ensures psbt.inputs[i].at in Known(x.utxos)
      ensures InputFits(x.(utxos := more), psbt.inputs[i])
    {
      assert InputFits(x, psbt.inputs[i]);
    }
    InSumKept(Known(x.utxos), Known(more), psbt.inputs);
  }
}
