/** Settling an escrow: the dispute window, the PSBT builder, and the checklist a party runs before signing. */
module Settlement {
  import opened Prelude
  import opened Script
  import opened Escrow
  import opened Exits

  const SEQUENCE_NO_AGE := 0xffff_fffe

  datatype Outpoint = Outpoint(txid: nat, index: nat)

  datatype Utxo = Utxo(at: Outpoint, amount: nat)

  /** Output scripts: the taproot output over a script root with the unspendable internal key, or something else. */
  datatype OutputScript = Taproot(root: Hash) | OtherScript(name: nat)

  type Address = nat

  datatype Input = Input(at: Outpoint, amount: Option<int>, script: Option<OutputScript>, sighash: Option<int>,
                         sequence: Option<int>)
  datatype Output = Output(address: Option<Address>, amount: Option<int>)
  datatype Psbt = Psbt(lockTime: nat, inputs: seq<Input>, outputs: seq<Output>)

  /** Escrows only come from the builder. */
  predicate Built(e: Escrow) { BuildEscrow(e.params) == Ok(e) }

  function ScriptOf(e: Escrow): OutputScript { Taproot(Root(e.TapTree())) }

  // ── Sequence and window ────────────────────────────────────────────────────

  datatype SettleError =
    | NoUtxos | BadFee | WouldBeDust | WindowStillOpen(blocksRemaining: int) | RefundNotReady | WindowTooLong

  function SequenceFor(b: Branch, csv: int): Result<int, SettleError>
  {
    if b != Dispute || csv <= 0 then Ok(SEQUENCE_NO_AGE)
    else if csv > 0xffff then Err(WindowTooLong)
    else Ok(csv % 0x1_0000)
  }

  predicate AssertsRelativeBlockAge(sequence: int) { !DisableFlag(sequence) && !SecondsFlag(sequence) }

  datatype Window = Open | Closed(blocksRemaining: int, opensAt: int)

  function DisputeWindow(funding: Option<int>, tip: Option<int>, csv: int): Window
  {
    if csv <= 0 then Open
    else if funding.None? || tip.None? then Closed(csv, 0)
    else if tip.value - funding.value + 1 >= csv then Open
    else Closed(funding.value + csv - tip.value, funding.value + csv)
  }

  /** The window is open exactly when BIP 68 lets the next block include the spend; a closed one names the first
      block that may, and an unknown height never counts as open. */
  lemma WindowIsBip68(csv: int, fundedAt: int, tip: int, tx: Tx, time: int, fundedTime: int)
    requires 0 < csv <= MAX_CSV && tx.version >= 2 && SequenceFor(Dispute, csv) == Ok(tx.sequence)
    ensures AssertsRelativeBlockAge(tx.sequence)
    ensures DisputeWindow(Some(fundedAt), Some(tip), csv).Open?
        <==> AgedIn(tx, Block(tip + 1, time), Block(fundedAt, fundedTime))
    ensures var w := DisputeWindow(Some(fundedAt), Some(tip), csv);
            w.Closed? ==> && w.opensAt == tip + w.blocksRemaining
                          && forall h :: AgedIn(tx, Block(h, time), Block(fundedAt, fundedTime)) <==> h >= w.opensAt
    ensures DisputeWindow(None, Some(tip), csv) == Closed(csv, 0) == DisputeWindow(Some(fundedAt), None, csv)
  {
  }

  // ── The builder ────────────────────────────────────────────────────────────

  function Total(utxos: seq<Utxo>): nat
  {
    if utxos == [] then 0 else Total(utxos[..|utxos| - 1]) + utxos[|utxos| - 1].amount
  }

  datatype Order = Order(e: Escrow, utxos: seq<Utxo>, destination: Address, fee: int, leaf: Branch,
                         lockTime: Option<nat>,
                         fundingHeight: Option<int>, tip: Option<int>)

  function OrderError(o: Order): Option<SettleError>
  {
    var total := Total(o.utxos);
    var window := DisputeWindow(o.fundingHeight, o.tip, o.e.params.csv);
    if o.utxos == [] then Some(NoUtxos)
    else if o.fee < 0 || o.fee >= total then Some(BadFee)
    else if total - o.fee < DUST_SATS then Some(WouldBeDust)
    else if o.leaf == Dispute && window.Closed? then Some(WindowStillOpen(window.blocksRemaining))
    else if o.leaf == Refund
        && (o.lockTime != Some(o.e.params.refundLockUntil) || o.tip.None? || o.tip.value < o.e.params.refundLockUntil)
    then Some(RefundNotReady)
    else None
  }

  /** What the outputs hold is added up, one by one. */
  lemma {:induction false} TotalAdds(a: seq<Utxo>, b: seq<Utxo>, u: Utxo)
    ensures Total(a + b) == Total(a) + Total(b) && Total([u]) == u.amount
  {
    assert [u][..0] == [];
    if b == [] {
      assert a + b == a;
    } else {
      var n := |b| - 1;
      assert (a + b)[..|a + b| - 1] == a + b[..n];
      TotalAdds(a, b[..n], u);
    }
  }

  /** What can be ordered: at least one output, a fee from zero up that leaves a relayable payout, a dispute only when
      the deposit has waited out its window, a refund only under the committed height once the tip has reached it. */
  lemma OrdersAreTimely(o: Order)
    ensures OrderError(o) == None
            <==> && o.utxos != [] && 0 <= o.fee && Total(o.utxos) - o.fee >= 330
                 && (o.leaf == Dispute && o.e.params.csv > 0 ==>
                       && o.fundingHeight.Some? && o.tip.Some?
                       && o.tip.value + 1 >= o.fundingHeight.value + o.e.params.csv)
                 && (o.leaf == Refund ==>
                       && o.lockTime == Some(o.e.params.refundLockUntil)
                       && o.tip.Some? && o.tip.value >= o.e.params.refundLockUntil)
    ensures OrderError(o) == Some(NoUtxos) <==> o.utxos == []
    ensures OrderError(o) == Some(BadFee) <==> o.utxos != [] && !(0 <= o.fee < Total(o.utxos))
    ensures OrderError(o) == Some(WouldBeDust) <==> o.utxos != [] && 0 <= o.fee && 0 < Total(o.utxos) - o.fee < 330
    ensures OrderError(o) == Some(RefundNotReady) ==> o.leaf == Refund
    ensures OrderError(o).Some? && OrderError(o).value.WindowStillOpen? ==> o.leaf == Dispute
  {
  }

  function InputFor(e: Escrow, u: Utxo, sequence: int): Input
  {
    Input(u.at, Some(u.amount), Some(ScriptOf(e)), None, Some(sequence))
  }

  /** The settlement a lawful order gives: every output swept, one payout. */
  function SettlementOf(o: Order, sequence: int): Psbt
    requires o.fee <= Total(o.utxos)
  {
    Psbt(if o.lockTime.Some? then o.lockTime.value else 0,
         seq(|o.utxos|, i requires 0 <= i < |o.utxos| => InputFor(o.e, o.utxos[i], sequence)),
         [Output(Some(o.destination), Some(Total(o.utxos) - o.fee))])
  }

  method BuildSettlement(o: Order) returns (r: Result<Psbt, SettleError>)
    requires Built(o.e)
    ensures OrderError(o).Some? ==> r == Err(OrderError(o).value)
    ensures OrderError(o).None? ==>
        var s := SequenceFor(o.leaf, o.e.params.csv); s.Ok? && r == Ok(SettlementOf(o, s.value))
  {
    var error := OrderError(o);
    if error.Some? {
      return Err(error.value);
    }
    BuildsWhenSound(o.e.params);
    var sequence := SequenceFor(o.leaf, o.e.params.csv);
    var inputs: seq<Input> := [];
    for k := 0 to |o.utxos|
      invariant |inputs| == k && forall i :: 0 <= i < k ==> inputs[i] == InputFor(o.e, o.utxos[i], sequence.value)
    {
      inputs := inputs + [InputFor(o.e, o.utxos[k], sequence.value)];
    }
    var lockTime := if o.lockTime.Some? then o.lockTime.value else 0;
    r := Ok(Psbt(lockTime, inputs, [Output(Some(o.destination), Some(Total(o.utxos) - o.fee))]));
    assert r.value.inputs == SettlementOf(o, sequence.value).inputs;
  }

  // ── The checklist ──────────────────────────────────────────────────────────

  datatype Expectation = Expectation(e: Escrow, utxos: seq<Utxo>, destination: Address, maxFee: int,
                                     leaf: Option<Branch>,
                                     tip: Option<int>, committed: Option<Outpoint>, minInput: Option<int>)

  /** Outputs known locally, by outpoint; a repeated outpoint keeps its last amount. */
  function Known(utxos: seq<Utxo>): map<Outpoint, nat>
  {
    if utxos == [] then map[]
    else Known(utxos[..|utxos| - 1])[utxos[|utxos| - 1].at := utxos[|utxos| - 1].amount]
  }

  datatype Failure =
    | NoInputs | UnknownInput(i: nat) | DuplicateInput(i: nat) | WrongAmount(i: nat) | WrongScript(i: nat)
    | WrongSighash(i: nat) | WrongSequence(i: nat) | WrongLockTime | NotMature | CommittedNotSpent | NoCommittedAmount
    | TooLittleSpent | NotEverything
    | WrongOutputCount | WrongPayee(i: nat) | NegativeFee | FeeTooHigh

  predicate SequenceFits(x: Expectation, inp: Input)
  {
    && (x.leaf == Some(Refund) ==> inp.sequence == Some(SEQUENCE_NO_AGE))
    && (x.leaf == Some(Dispute) ==>
          var s := if inp.sequence.Some? then inp.sequence.value else SEQUENCE_FINAL;
          AssertsRelativeBlockAge(s) && SequenceFor(Dispute, x.e.params.csv) == Ok(s))
  }

  predicate InputFits(x: Expectation, inp: Input)
  {
    var known := Known(x.utxos);
    && inp.at in known && inp.amount == Some(known[inp.at]) && inp.script == Some(ScriptOf(x.e))
    && (inp.sighash == None || inp.sighash == Some(0)) && SequenceFits(x, inp)
  }

  function Outpoints(inputs: seq<Input>): seq<Outpoint> { seq(|inputs|, i requires 0 <= i < |inputs| => inputs[i].at) }

  /** What the spent outputs hold, as known locally. */
  function InSum(known: map<Outpoint, nat>, inputs: seq<Input>): nat
  {
    if inputs == [] then 0
    else
      var last := inputs[|inputs| - 1];
      InSum(known, inputs[..|inputs| - 1]) + (if last.at in known then known[last.at] else 0)
  }

  function OutSum(outputs: seq<Output>): int
  {
    if outputs == [] then 0
    else
      var last := outputs[|outputs| - 1];
      OutSum(outputs[..|outputs| - 1]) + (if last.amount.Some? then last.amount.value else 0)
  }

  /** Both sums go input by input and output by output; what is not known, or states no amount, adds nothing. */
  lemma {:induction false} SumsAdd(known: map<Outpoint, nat>, ins: seq<Input>, inp: Input, outs: seq<Output>,
                                   out: Output)
    ensures InSum(known, ins + [inp]) == InSum(known, ins) + (if inp.at in known then known[inp.at] else 0)
    ensures OutSum(outs + [out]) == OutSum(outs) + (if out.amount.Some? then out.amount.value else 0)
    ensures InSum(known, []) == 0 && OutSum([]) == 0
  {
    assert (ins + [inp])[..|ins|] == ins && (outs + [out])[..|outs|] == outs;
  }

  /** The settlement spends the committed outpoint and at least the committed amount, or else everything known. */
  predicate SpendsEnough(x: Expectation, tx: Psbt)
  {
    if x.committed.Some? then
      x.committed.value in Outpoints(tx.inputs) && x.minInput.Some?
          && InSum(Known(x.utxos), tx.inputs) >= x.minInput.value
    else Elements(Outpoints(tx.inputs)) == Known(x.utxos).Keys
  }

  predicate Passes(x: Expectation, tx: Psbt)
  {
    var fee := InSum(Known(x.utxos), tx.inputs) - OutSum(tx.outputs);
    && tx.inputs != [] && Distinct(Outpoints(tx.inputs))
    && (forall i :: 0 <= i < |tx.inputs| ==> InputFits(x, tx.inputs[i]))
    && (x.leaf == Some(Refund) ==>
        tx.lockTime == x.e.params.refundLockUntil && x.tip.Some? && x.tip.value >= tx.lockTime)
    && SpendsEnough(x, tx)
    && |tx.outputs| == 1 && tx.outputs[0].address == Some(x.destination)
    && 0 <= fee <= x.maxFee
  }

  function Fail(failures: seq<Failure>, bad: bool, f: Failure): (r: seq<Failure>)
    ensures r == [] <==> failures == [] && !bad
  {
    if bad then failures + [f] else failures
  }

  lemma SeenEverything(known: map<Outpoint, nat>, seen: set<Outpoint>)
    requires seen <= known.Keys
    ensures |seen| == |known| <==> seen == known.Keys
  {
    SubsetSize(seen, known.Keys);
  }

  method CheckInputs(x: Expectation, tx: Psbt, known: map<Outpoint, nat>)
    returns (failures: seq<Failure>, seen: set<Outpoint>, inSum: nat)
    requires Built(x.e) && known == Known(x.utxos)
    ensures seen <= known.Keys
    ensures failures == [] <==>
              && tx.inputs != [] && Distinct(Outpoints(tx.inputs))
              && forall i :: 0 <= i < |tx.inputs| ==> InputFits(x, tx.inputs[i])
    ensures failures == [] ==> seen == Elements(Outpoints(tx.inputs)) && inSum == InSum(known, tx.inputs)
  {
    hide BuildEscrow, Root, Known;
    failures := Fail([], tx.inputs == [], NoInputs);
    seen, inSum := {}, 0;
    for i := 0 to |tx.inputs|
      invariant seen <= known.Keys && (i == |tx.inputs| && i == 0 ==> failures != [])
      invariant failures == [] <==>
                  && tx.inputs != [] && Distinct(Outpoints(tx.inputs[..i]))
                  && forall j :: 0 <= j < i ==> InputFits(x, tx.inputs[j])
      invariant failures == [] ==> seen == Elements(Outpoints(tx.inputs[..i])) && inSum == InSum(known, tx.inputs[..i])
    {
      var inp := tx.inputs[i];
      assert tx.inputs[..i + 1][..i] == tx.inputs[..i];
      OneMoreOutpoint(tx.inputs, i);
      if inp.at !in known {
        failures := failures + [UnknownInput(i)];
      } else if inp.at in seen {
        failures := failures + [DuplicateInput(i)];
      } else {
        seen := seen + {inp.at};
        failures := Fail(failures, inp.amount != Some(known[inp.at]), WrongAmount(i));
        failures := Fail(failures, inp.script != Some(ScriptOf(x.e)), WrongScript(i));
        failures := Fail(failures, inp.sighash != None && inp.sighash != Some(0), WrongSighash(i));
        failures := Fail(failures, !SequenceFits(x, inp), WrongSequence(i));
        inSum := inSum + known[inp.at];
      }
    }
    assert tx.inputs[..|tx.inputs|] == tx.inputs;
  }

  lemma OneMoreOutpoint(inputs: seq<Input>, i: nat)
    requires i < |inputs|
    ensures Elements(Outpoints(inputs[..i + 1])) == Elements(Outpoints(inputs[..i])) + {inputs[i].at}
    ensures Distinct(Outpoints(inputs[..i + 1]))
        <==> Distinct(Outpoints(inputs[..i])) && inputs[i].at !in Elements(Outpoints(inputs[..i]))
  {
    assert Outpoints(inputs[..i + 1]) == Outpoints(inputs[..i]) + [inputs[i].at];
    DistinctAppend(Outpoints(inputs[..i]), inputs[i].at);
  }

  /** Runs the whole checklist; nothing failing means the settlement passes. */
  method VerifySettlement(x: Expectation, tx: Psbt) returns (failures: seq<Failure>)
    requires Built(x.e)
    ensures failures == [] <==> Passes(x, tx)
  {
    hide BuildEscrow, Root, Known, InputFits, DisputeWindow;
    var known := Known(x.utxos);
    var seen, inSum;
    failures, seen, inSum := CheckInputs(x, tx, known);
    if x.leaf == Some(Refund) {
      failures := Fail(failures, tx.lockTime != x.e.params.refundLockUntil, WrongLockTime);
      failures := Fail(failures, x.tip.None? || x.tip.value < x.e.params.refundLockUntil, NotMature);
    }
    if x.committed.Some? {
      failures := Fail(failures, x.committed.value !in seen, CommittedNotSpent);
      if x.minInput.None? {
        failures := failures + [NoCommittedAmount];
      } else {
        failures := Fail(failures, inSum < x.minInput.value, TooLittleSpent);
      }
    } else {
      SeenEverything(known, seen);
      failures := Fail(failures, |seen| != |known|, NotEverything);
    }
    failures := Fail(failures, |tx.outputs| != 1, WrongOutputCount);
    var outSum := 0;
    ghost var before := failures;
    for i := 0 to |tx.outputs|
      invariant outSum == OutSum(tx.outputs[..i])
      invariant failures == []
          <==> before == [] && forall j :: 0 <= j < i ==> tx.outputs[j].address == Some(x.destination)
    {
      assert tx.outputs[..i + 1][..i] == tx.outputs[..i];
      outSum := outSum + if tx.outputs[i].amount.Some? then tx.outputs[i].amount.value else 0;
      failures := Fail(failures, tx.outputs[i].address != Some(x.destination), WrongPayee(i));
    }
    assert tx.outputs[..|tx.outputs|] == tx.outputs;
    var fee := inSum - outSum;
    if fee < 0 {
      failures := failures + [NegativeFee];
    } else if fee > x.maxFee {
      failures := failures + [FeeTooHigh];
    }
  }
}
