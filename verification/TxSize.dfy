/** The exact size of the transactions that move a commitment bond, byte by byte. */
module TxSize {
  import opened Prelude
  import opened Script
  import opened Escrow

  // ── Wire bytes ─────────────────────────────────────────────────────────────

  /** n in k little-endian bytes. */
  function Fixed(n: nat, k: nat): (b: Bytes)
    ensures |b| == k
  {
    if k == 0 then [] else [n % 256] + Fixed(n / 256, k - 1)
  }

  function CompactSize(n: nat): Bytes
  {
    if n < 253 then [n]
    else if n <= 0xffff then [253] + Fixed(n, 2)
    else if n <= 0xffff_ffff then [254] + Fixed(n, 4)
    else [255] + Fixed(n, 8)
  }

  datatype RawInput = RawInput(txid: Bytes, index: nat, sequence: nat)
  datatype RawOutput = RawOutput(amount: nat, script: Bytes)

  /** A segregated-witness transaction with empty input scripts. */
  datatype RawTx = RawTx(version: nat, inputs: seq<RawInput>, outputs: seq<RawOutput>, witnesses: seq<seq<Bytes>>,
                         lockTime: nat)

  function InputBytes(inputs: seq<RawInput>): Bytes
  {
    if inputs == [] then []
    else
      var i := inputs[|inputs| - 1];
      InputBytes(inputs[..|inputs| - 1]) + (i.txid + Fixed(i.index, 4) + CompactSize(0) + Fixed(i.sequence, 4))
  }

  function OutputBytes(outputs: seq<RawOutput>): Bytes
  {
    if outputs == [] then []
    else
      var o := outputs[|outputs| - 1];
      OutputBytes(outputs[..|outputs| - 1]) + (Fixed(o.amount, 8) + CompactSize(|o.script|) + o.script)
  }

  function ItemBytes(items: seq<Bytes>): Bytes
  {
    if items == [] then []
    else
      var b := items[|items| - 1];
      ItemBytes(items[..|items| - 1]) + (CompactSize(|b|) + b)
  }

  function WitnessBytes(witnesses: seq<seq<Bytes>>): Bytes
  {
    if witnesses == [] then []
    else
      var w := witnesses[|witnesses| - 1];
      WitnessBytes(witnesses[..|witnesses| - 1]) + (CompactSize(|w|) + ItemBytes(w))
  }

  function BodyBytes(tx: RawTx): Bytes
  {
    CompactSize(|tx.inputs|) + InputBytes(tx.inputs) + CompactSize(|tx.outputs|) + OutputBytes(tx.outputs)
  }

  /** Without and with the witness. */
  function BaseBytes(tx: RawTx): Bytes { Fixed(tx.version, 4) + BodyBytes(tx) + Fixed(tx.lockTime, 4) }

  function FullBytes(tx: RawTx): Bytes
  {
    Fixed(tx.version, 4) + [0, 1] + BodyBytes(tx) + WitnessBytes(tx.witnesses) + Fixed(tx.lockTime, 4)
  }

  /** BIP 141: three times the base size plus the total size, and a quarter of that rounded up. */
  function Weight(tx: RawTx): nat { 3 * |BaseBytes(tx)| + |FullBytes(tx)| }

  function VirtualSize(tx: RawTx): nat { (Weight(tx) + 3) / 4 }

  // ── The bond leaf ──────────────────────────────────────────────────────────

  /** `<T> CHECKLOCKTIMEVERIFY DROP <owner> CHECKSIG`. */
  function TimelockLeaf(owner: Bytes, lockUntil: int): Result<Leaf, BuildError>
  {
    if !(0 < lockUntil < LOCKTIME_THRESHOLD) then Err(BadLockHeight)
    else if |owner| != 32 then Err(BadKey)
    else Ok([Push(EncodeNum(lockUntil)), CheckLockTime, Drop, Push(owner), CheckSig])
  }

  function OpBytes(op: Op): Bytes
  {
    match op
    case Push(data) => CompactSize(|data|) + data
    case CheckSig => [0xac]
    case CheckSigAdd => [0xba]
    case NumEqual => [0x9c]
    case CheckLockTime => [0xb1]
    case CheckSequence => [0xb2]
    case Drop => [0x75]
  }

  function LeafBytes(leaf: Leaf): Bytes { if leaf == [] then [] else OpBytes(leaf[0]) + LeafBytes(leaf[1..]) }

  predicate IsBond(owner: Bytes, lockUntil: int) { |owner| == 32 && 0 < lockUntil < LOCKTIME_THRESHOLD }

  function BondLeafBytes(owner: Bytes, lockUntil: int): Bytes
    requires IsBond(owner, lockUntil)
  {
    LeafBytes(TimelockLeaf(owner, lockUntil).value)
  }

  /** The leaf exists exactly for a 32-byte key and a height below the time domain. */
  lemma LeafIsBuilt(owner: Bytes, lockUntil: int)
    ensures TimelockLeaf(owner, lockUntil).Ok? <==> |owner| == 32 && 0 < lockUntil < 500_000_000
    ensures IsBond(owner, lockUntil) <==> TimelockLeaf(owner, lockUntil).Ok?
  {
  }

  lemma LeafLength(owner: Bytes, lockUntil: int)
    requires IsBond(owner, lockUntil)
    ensures |BondLeafBytes(owner, lockUntil)| == 37 + |EncodeNum(lockUntil)| <= 42
  {
    var leaf := TimelockLeaf(owner, lockUntil).value;
    assert Power256(4) == 4_294_967_296 by {
      assert Power256(1) == 256 && Power256(2) == 65_536;
      assert Power256(3) == 16_777_216;
    }
    NumRoundTrip(lockUntil, 4);
    assert leaf[1..][1..][1..][1..][1..] == [];
    assert leaf[1..][1..][1..][1..][0] == CheckSig && leaf[1..][1..][1..][0] == Push(owner);
    assert leaf[1..][1..][0] == Drop && leaf[1..][0] == CheckLockTime;
    assert |LeafBytes(leaf[1..][1..][1..][1..])| == 1;
    assert |LeafBytes(leaf[1..][1..][1..])| == 34;
    assert |LeafBytes(leaf[1..])| == 36;
  }

  // ── Estimates ──────────────────────────────────────────────────────────────

  datatype EstimateError = NoInputs | BadBond | BadRate

  function CountBytes(n: nat): nat { if n < 253 then 1 else 3 }

  /** The size of a sweep of n inputs to one 34-byte script, with `each` witness bytes on every input. */
  function SweepVsize(n: nat, each: nat): nat
  {
    var base: nat := 4 + CountBytes(n) + n * 41 + 1 + 43 + 4;
    (base * 4 + 2 + n * each + 3) / 4
  }

  function EstimateReclaimVsize(owner: Bytes, lockUntil: int, inputs: int): Result<nat, EstimateError>
  {
    if inputs <= 0 then Err(NoInputs)
    else if !IsBond(owner, lockUntil) then Err(BadBond)
    else Ok(SweepVsize(inputs, 101 + |BondLeafBytes(owner, lockUntil)|))
  }

  function EstimateKeyPathVsize(inputs: int): Result<nat, EstimateError>
  {
    if inputs <= 0 then Err(NoInputs) else Ok(SweepVsize(inputs, 66))
  }

  const FEE_FLOOR := 300

  function FeeFor(vsize: Result<nat, EstimateError>, rate: int): Result<nat, EstimateError>
  {
    if rate <= 0 then Err(BadRate)
    else if vsize.Err? then vsize
    else Ok(Max(FEE_FLOOR, vsize.value * rate))
  }

  /** An estimate exists exactly for a positive number of inputs and, for a reclaim, a bond; a fee also needs a positive
      rate. */
  lemma EstimatesExist(owner: Bytes, lockUntil: int, inputs: int, rate: int)
    ensures EstimateReclaimVsize(owner, lockUntil, inputs).Ok?
            <==> inputs > 0 && |owner| == 32 && 0 < lockUntil < 500_000_000
    ensures EstimateKeyPathVsize(inputs).Ok? <==> inputs > 0
    ensures FeeFor(EstimateKeyPathVsize(inputs), rate).Ok? <==> inputs > 0 && rate > 0
    ensures FeeFor(EstimateReclaimVsize(owner, lockUntil, inputs), rate).Ok?
            <==> EstimateReclaimVsize(owner, lockUntil, inputs).Ok? && rate > 0
  {
    hide SweepVsize, BondLeafBytes;
    if inputs > 0 && rate > 0 {
      assert forall v: nat :: v * rate >= 0;
    }
  }

  // ── The transactions ───────────────────────────────────────────────────────

  datatype Coin = Coin(txid: Bytes, index: nat, amount: nat)

  function Sum(coins: seq<Coin>): nat
  {
    if coins == [] then 0 else Sum(coins[..|coins| - 1]) + coins[|coins| - 1].amount
  }

  datatype SweepError = NoUtxos | BadFee | DustOutput | BadLockTime

  function SweepRefusal(coins: seq<Coin>, fee: int): Option<SweepError>
  {
    if coins == [] then Some(NoUtxos)
    else if fee < 0 || fee >= Sum(coins) then Some(BadFee)
    else if Sum(coins) - fee < DUST_SATS then Some(DustOutput)
    else None
  }

  /** What the coins hold is added up, coin by coin. */
  lemma {:induction false} SumAdds(a: seq<Coin>, b: seq<Coin>, c: Coin)
    ensures Sum(a + b) == Sum(a) + Sum(b) && Sum([c]) == c.amount
  {
    assert [c][..0] == [];
    if b == [] {
      assert a + b == a;
    } else {
      var n := |b| - 1;
      assert (a + b)[..|a + b| - 1] == a + b[..n];
      SumAdds(a, b[..n], c);
    }
  }

  /** A sweep is refused exactly when it has no coin, a negative fee, or less than the relayable minimum to pay out. */
  lemma SweepPaysOut(coins: seq<Coin>, fee: int)
    ensures SweepRefusal(coins, fee) == None <==> coins != [] && fee >= 0 && Sum(coins) - fee >= 330
    ensures SweepRefusal(coins, fee) == Some(NoUtxos) <==> coins == []
    ensures SweepRefusal(coins, fee) == Some(BadFee) <==> coins != [] && !(0 <= fee < Sum(coins))
  {
  }

  function InputOf(c: Coin, sequence: nat): RawInput { RawInput(c.txid, c.index, sequence) }

  /** What a finished sweep looks like: every coin in, one output, the same kind of witness on each input. */
  ghost predicate IsSweep(tx: RawTx, coins: seq<Coin>, script: Bytes, sequence: nat)
  {
    && |tx.inputs| == |coins| == |tx.witnesses| && |tx.outputs| == 1 && tx.outputs[0].script == script
    && forall i :: 0 <= i < |coins| ==> tx.inputs[i] == InputOf(coins[i], sequence)
  }

  /** The reclaim: sweeps every coin at the bond address through its leaf. `sigs` are the owner's signatures. */
  method BuildReclaimTx(owner: Bytes, lockUntil: int, coins: seq<Coin>, script: Bytes, fee: int, lockTime: Option<int>,
                        sigs: seq<Bytes>, control: Bytes) returns (r: Result<RawTx, SweepError>)
    requires IsBond(owner, lockUntil) && |sigs| == |coins|
    ensures SweepRefusal(coins, fee).Some? ==> r == Err(SweepRefusal(coins, fee).value)
    ensures SweepRefusal(coins, fee).None? && lockTime.Some? && lockTime.value < 0 ==> r == Err(BadLockTime)
    ensures SweepRefusal(coins, fee).None? && !(lockTime.Some? && lockTime.value < 0) ==>
              && r.Ok? && IsSweep(r.value, coins, script, 0xffff_fffe)
              && r.value.version == 2 && r.value.lockTime == (if lockTime.Some? then lockTime.value else lockUntil)
              && r.value.outputs[0].amount == Sum(coins) - fee
              && forall i :: 0 <= i < |coins| ==>
                  r.value.witnesses[i] == [sigs[i], BondLeafBytes(owner, lockUntil), control]
  {
    hide BondLeafBytes, Sum;
    var error := SweepRefusal(coins, fee);
    if error.Some? {
      return Err(error.value);
    }
    var at := if lockTime.Some? then lockTime.value else lockUntil;
    if at < 0 {
      return Err(BadLockTime);
    }
    var leaf := BondLeafBytes(owner, lockUntil);
    var inputs: seq<RawInput> := [];
    for i := 0 to |coins|
      invariant |inputs| == i && forall k :: 0 <= k < i ==> inputs[k] == InputOf(coins[k], 0xffff_fffe)
    {
      inputs := inputs + [InputOf(coins[i], 0xffff_fffe)];
    }
    var witnesses: seq<seq<Bytes>> := [];
    for i := 0 to |coins|
      invariant |witnesses| == i && forall k :: 0 <= k < i ==> witnesses[k] == [sigs[k], leaf, control]
    {
      witnesses := witnesses + [[sigs[i], leaf, control]];
    }
    r := Ok(RawTx(2, inputs, [RawOutput(Sum(coins) - fee, script)], witnesses, at));
  }

  /** The follow-up sweep of plain key-path outputs, one signature per input. */
  method BuildKeyPathSweepTx(coins: seq<Coin>, script: Bytes, fee: int, sigs: seq<Bytes>)
    returns (r: Result<RawTx, SweepError>)
    requires |sigs| == |coins|
    ensures SweepRefusal(coins, fee).Some? ==> r == Err(SweepRefusal(coins, fee).value)
    ensures SweepRefusal(coins, fee).None? ==>
              && r.Ok? && IsSweep(r.value, coins, script, SEQUENCE_FINAL)
              && r.value.version == 2 && r.value.lockTime == 0 && r.value.outputs[0].amount == Sum(coins) - fee
              && forall i :: 0 <= i < |coins| ==> r.value.witnesses[i] == [sigs[i]]
  {
    hide Sum;
    var error := SweepRefusal(coins, fee);
    if error.Some? {
      return Err(error.value);
    }
    var inputs: seq<RawInput> := [];
    var witnesses: seq<seq<Bytes>> := [];
    for i := 0 to |coins|
      invariant |inputs| == i && forall k :: 0 <= k < i ==> inputs[k] == InputOf(coins[k], SEQUENCE_FINAL)
      invariant |witnesses| == i && forall k :: 0 <= k < i ==> witnesses[k] == [sigs[k]]
    {
      inputs := inputs + [InputOf(coins[i], SEQUENCE_FINAL)];
      witnesses := witnesses + [[sigs[i]]];
    }
    r := Ok(RawTx(2, inputs, [RawOutput(Sum(coins) - fee, script)], witnesses, 0));
  }

  // ── Exactness ──────────────────────────────────────────────────────────────

  lemma {:induction false} InputsLength(inputs: seq<RawInput>)
    requires forall i :: 0 <= i < |inputs| ==> |inputs[i].txid| == 32
    ensures |InputBytes(inputs)| == 41 * |inputs|
  {
    if inputs != [] {
      InputsLength(inputs[..|inputs| - 1]);
    }
  }

  lemma {:induction false} WitnessesLength(witnesses: seq<seq<Bytes>>, each: nat)
    requires forall i :: 0 <= i < |witnesses| ==> |CompactSize(|witnesses[i]|) + ItemBytes(witnesses[i])| == each
    ensures |WitnessBytes(witnesses)| == |witnesses| * each
  {
    if witnesses != [] {
      WitnessesLength(witnesses[..|witnesses| - 1], each);
      Grow(|witnesses| - 1, each);
    }
  }

  lemma Grow(n: nat, each: nat)
    ensures (n + 1) * each == n * each + each
  {
  }

  lemma OneItem(a: Bytes)
    requires |a| < 253
    ensures |ItemBytes([a])| == 1 + |a|
  {
    var items := [a];
    assert items[..0] == [];
  }

  lemma ThreeItems(a: Bytes, b: Bytes, c: Bytes)
    requires |a| < 253 && |b| < 253 && |c| < 253
    ensures |ItemBytes([a, b, c])| == 3 + |a| + |b| + |c|
  {
    var items := [a, b, c];
    assert items[..2] == [a, b] && [a, b][..1] == [a];
    OneItem(a);
  }

  lemma OneOutputLength(o: RawOutput)
    ensures |OutputBytes([o])| == 8 + |CompactSize(|o.script|)| + |o.script|
  {
    var outputs := [o];
    assert outputs[..0] == [];
  }

  /** The size of any one-output sweep whose witnesses all take `each` bytes. */
  lemma SweepSize(tx: RawTx, coins: seq<Coin>, script: Bytes, sequence: nat, each: nat)
    requires IsSweep(tx, coins, script, sequence) && |script| < 253
    requires forall c :: c in coins ==> |c.txid| == 32
    requires forall i :: 0 <= i < |coins| ==> |CompactSize(|tx.witnesses[i]|) + ItemBytes(tx.witnesses[i])| == each
    ensures var base := 4 + |CompactSize(|coins|)| + |coins| * 41 + 1 + 9 + |script| + 4;
            |BaseBytes(tx)| == base && Weight(tx) == base * 4 + 2 + |coins| * each
  {
    InputsLength(tx.inputs);
    WitnessesLength(tx.witnesses, each);
    assert tx.outputs == [tx.outputs[0]];
    OneOutputLength(tx.outputs[0]);
  }

  lemma CountLength(n: nat)
    requires n <= 0xffff_ffff
    ensures |CompactSize(n)| == CountBytes(n) + (if n <= 0xffff then 0 else 2)
  {
  }

  /** The reclaim estimate is the virtual size of the finished transaction, byte for byte, exactly up to 65535
      inputs for a 34-byte output script; other script lengths shift both by the same amount, and past 65535
      inputs it is two short. */
  lemma ReclaimSizeIsExact(owner: Bytes, lockUntil: int, tx: RawTx, coins: seq<Coin>, script: Bytes)
    requires IsBond(owner, lockUntil) && IsSweep(tx, coins, script, 0xffff_fffe)
    requires 0 < |coins| <= 0xffff_ffff && |script| < 253 && forall c :: c in coins ==> |c.txid| == 32
    requires forall i :: 0 <= i < |coins| ==>
               |tx.witnesses[i]| == 3 && |tx.witnesses[i][0]| == 64
                   && tx.witnesses[i][1] == BondLeafBytes(owner, lockUntil)
               && |tx.witnesses[i][2]| == 33
    ensures var estimate := EstimateReclaimVsize(owner, lockUntil, |coins|);
            estimate.Ok? && VirtualSize(tx) == estimate.value + |script| - 34 + (if |coins| <= 0xffff then 0 else 2)
  {
    hide BondLeafBytes, BaseBytes, FullBytes, ItemBytes;
    LeafLength(owner, lockUntil);
    var len := |BondLeafBytes(owner, lockUntil)|;
    forall i | 0 <= i < |coins|
      ensures |CompactSize(|tx.witnesses[i]|) + ItemBytes(tx.witnesses[i])| == 101 + len
    {
      var w := tx.witnesses[i];
      assert w == [w[0], w[1], w[2]];
      ThreeItems(w[0], w[1], w[2]);
    }
    SweepSize(tx, coins, script, 0xffff_fffe, 101 + len);
    CountLength(|coins|);
    Rounded(|coins| * 41 + CountBytes(|coins|) + 53, |coins| * (101 + len), |script| - 34
            + (if |coins| <= 0xffff then 0 else 2));
  }

  /** Adding whole bytes to the base adds as many to the virtual size. */
  lemma Rounded(base: int, more: nat, extra: int)
    ensures ((base + extra) * 4 + 2 + more + 3) / 4 == (base * 4 + 2 + more + 3) / 4 + extra
  {
    var x := base * 4 + 2 + more + 3;
    assert (base + extra) * 4 + 2 + more + 3 == x + 4 * extra;
    assert (x + 4 * extra) / 4 == x / 4 + extra;
  }

  /** The follow-up sweep by key path, sized the same way. */
  lemma KeyPathSizeIsExact(tx: RawTx, coins: seq<Coin>, script: Bytes, sequence: nat)
    requires IsSweep(tx, coins, script, sequence)
    requires 0 < |coins| <= 0xffff_ffff && |script| < 253 && forall c :: c in coins ==> |c.txid| == 32
    requires forall i :: 0 <= i < |coins| ==> |tx.witnesses[i]| == 1 && |tx.witnesses[i][0]| == 64
    ensures var estimate := EstimateKeyPathVsize(|coins|);
            estimate.Ok? && VirtualSize(tx) == estimate.value + |script| - 34 + (if |coins| <= 0xffff then 0 else 2)
  {
    hide BaseBytes, FullBytes, ItemBytes;
    forall i | 0 <= i < |coins|
      ensures |CompactSize(|tx.witnesses[i]|) + ItemBytes(tx.witnesses[i])| == 66
    {
      var w := tx.witnesses[i];
      assert w == [w[0]];
      OneItem(w[0]);
    }
    SweepSize(tx, coins, script, sequence, 66);
    CountLength(|coins|);
    Rounded(|coins| * 41 + CountBytes(|coins|) + 53, |coins| * 66, |script| - 34
            + (if |coins| <= 0xffff then 0 else 2));
  }

  /** The fee is never below the rate times the real size, nor below the floor. */
  lemma ReclaimFeeCovers(owner: Bytes, lockUntil: int, tx: RawTx, coins: seq<Coin>, script: Bytes, rate: int)
    requires IsBond(owner, lockUntil) && IsSweep(tx, coins, script, 0xffff_fffe) && rate > 0
    requires 0 < |coins| <= 0xffff && |script| <= 34 && forall c :: c in coins ==> |c.txid| == 32
    requires forall i :: 0 <= i < |coins| ==>
               |tx.witnesses[i]| == 3 && |tx.witnesses[i][0]| == 64
                   && tx.witnesses[i][1] == BondLeafBytes(owner, lockUntil)
               && |tx.witnesses[i][2]| == 33
    ensures var fee := FeeFor(EstimateReclaimVsize(owner, lockUntil, |coins|), rate);
            && fee.Ok? && fee.value >= 300 && fee.value >= VirtualSize(tx) * rate
            && (|script| == 34 ==> fee.value == Max(300, VirtualSize(tx) * rate))
  {
    hide VirtualSize, EstimateReclaimVsize, BondLeafBytes;
    ReclaimSizeIsExact(owner, lockUntil, tx, coins, script);
    ScaleUp(VirtualSize(tx), EstimateReclaimVsize(owner, lockUntil, |coins|).value, rate);
  }

  lemma ScaleUp(a: nat, b: nat, rate: int)
    requires a <= b && rate > 0
    ensures a * rate <= b * rate
  {
  }

  // ── Before T, refused ──────────────────────────────────────────────────────

  /** The reclaim's lock time decides: the leaf accepts the owner's signature exactly when the lock time has reached
      T, so a transaction built with an earlier one is invalid. */
  lemma ReclaimNeedsMaturity(owner: Bytes, lockUntil: int, tx: Tx, w: seq<Bytes>)
    requires IsBond(owner, lockUntil) && tx.sequence == 0xffff_fffe
    ensures var leaf := TimelockLeaf(owner, lockUntil).value;
            Accepts(tx, leaf, w) <==>
              |w| == 1 && Signs(tx, leaf, owner, w[0]) && lockUntil <= tx.lockTime < 500_000_000
  {
    var leaf := TimelockLeaf(owner, lockUntil).value;
    var rest := [Push(owner), CheckSig];
    assert leaf == [Push(EncodeNum(lockUntil)), CheckLockTime, Drop] + rest;
    HeightGuard(tx, leaf, lockUntil, rest, w);
    OneKeyRuns(tx, leaf, owner, w);
    if |w| == 1 {
      SmallNum(0);
      SmallNum(1);
      OnesOfOne(w[0]);
      assert Offered(w, 1) == [w[0]];
    }
  }
}
