/** A stack machine for the tapscript opcodes the escrow uses: BIP 342 signature opcodes, BIP 65 and BIP 112. */
module Script {
  import opened Prelude

  type Byte = x: int | 0 <= x < 256
  type Bytes = seq<Byte>

  // ── Script numbers ─────────────────────────────────────────────────────────

  /** Little-endian digits, none for zero. */
  function Digits(n: nat): Bytes { if n == 0 then [] else [n % 256] + Digits(n / 256) }

  function FromDigits(b: Bytes): nat { if b == [] then 0 else b[0] + 256 * FromDigits(b[1..]) }

  /** The shortest encoding of a non-negative number; the top bit of the last byte is the sign. */
  function EncodeNum(n: nat): Bytes
  {
    var d := Digits(n);
    if d != [] && d[|d| - 1] >= 128 then d + [0] else d
  }

  function DecodeNum(b: Bytes): int
  {
    if b == [] then 0
    else if b[|b| - 1] >= 128 then 0 - FromDigits(b[..|b| - 1] + [b[|b| - 1] - 128])
    else FromDigits(b)
  }

  lemma {:induction false} DigitsValue(n: nat)
    ensures FromDigits(Digits(n)) == n
    decreases n
  {
    if n > 0 {
      DigitsValue(n / 256);
      assert Digits(n)[1..] == Digits(n / 256);
    }
  }

  lemma {:induction false} TrailingZero(b: Bytes)
    ensures FromDigits(b + [0]) == FromDigits(b)
  {
    if b == [] {
      assert FromDigits([0]) == 0 + 256 * FromDigits([]);
    } else {
      assert (b + [0])[1..] == b[1..] + [0];
      TrailingZero(b[1..]);
    }
  }

  function Power256(k: nat): nat { if k == 0 then 1 else 256 * Power256(k - 1) }

  lemma {:induction false} DigitsLength(n: nat, k: nat)
    requires n < Power256(k)
    ensures |Digits(n)| <= k
    decreases k
  {
    if n > 0 {
      assert n / 256 < Power256(k - 1);
      DigitsLength(n / 256, k - 1);
    }
  }

  /** Encoding and decoding a script number is the identity, and numbers below 2^(8k) need at most k + 1 bytes. */
  lemma NumRoundTrip(n: nat, k: nat)
    requires n < Power256(k)
    ensures DecodeNum(EncodeNum(n)) == n && |EncodeNum(n)| <= k + 1
  {
    DigitsValue(n);
    DigitsLength(n, k);
    TrailingZero(Digits(n));
  }

  lemma {:induction false} TopDigit(n: nat)
    requires n > 0
    ensures Digits(n) != [] && Digits(n)[|Digits(n)| - 1] > 0
    decreases n
  {
    if n >= 256 {
      TopDigit(n / 256);
    } else {
      assert Digits(n / 256) == [];
    }
  }

  /** The encoding is the shortest: its last byte is only ever zero to keep the sign bit of the byte before it clear.
      With the sign bit set it reads as the negative. */
  lemma EncodedShortest(n: nat)
    requires n > 0
    ensures var b := EncodeNum(n);
            && b != [] && b[|b| - 1] < 128 && (b[|b| - 1] == 0 ==> |b| >= 2 && b[|b| - 2] >= 128)
            && DecodeNum(b[|b| - 1 := b[|b| - 1] + 128]) == 0 - n
  {
    TopDigit(n);
    DigitsValue(n);
    TrailingZero(Digits(n));
    var b := EncodeNum(n);
    var signed := b[|b| - 1 := b[|b| - 1] + 128];
    assert signed[..|b| - 1] + [b[|b| - 1]] == b;
  }

  /** Anything but zero is true, where zero may be written with any number of zero bytes and a sign. */
  predicate Truthy(b: Bytes)
  {
    exists i :: 0 <= i < |b| && b[i] != 0 && !(i == |b| - 1 && b[i] == 128)
  }

  lemma {:induction false} ZeroDigits(b: Bytes)
    ensures FromDigits(b) == 0 <==> forall i :: 0 <= i < |b| ==> b[i] == 0
  {
    if b != [] {
      ZeroDigits(b[1..]);
      forall i | 1 <= i < |b|
        ensures b[i] == b[1..][i - 1]
      {
      }
      assert forall j :: 0 <= j < |b| - 1 ==> b[1..][j] == b[j + 1];
    }
  }

  /** A string is true exactly when the number it reads as is not zero. */
  lemma TrueIsNonZero(b: Bytes)
    ensures Truthy(b) <==> DecodeNum(b) != 0
  {
    if b != [] && b[|b| - 1] >= 128 {
      var n := |b| - 1;
      var plain := b[..n] + [b[n] - 128];
      ZeroDigits(plain);
      assert forall i :: 0 <= i < n ==> plain[i] == b[i];
      assert plain[n] == b[n] - 128;
    } else {
      ZeroDigits(b);
    }
  }

  function OfBool(b: bool): Bytes { if b then [1] else [] }

  // ── Opcodes ────────────────────────────────────────────────────────────────

  datatype Op = Push(data: Bytes) | CheckSig | CheckSigAdd | NumEqual | CheckLockTime | CheckSequence | Drop

  type Leaf = seq<Op>

  /** The transaction as an input's script sees it. `signed(leaf, key, sig)`: sig is a valid signature by key over
      this transaction and this leaf; `keyPath(sig)`: sig is valid for the output key itself. */
  datatype Tx = Tx(version: int, lockTime: nat, sequence: int, signed: (Leaf, Bytes, Bytes) -> bool,
                   keyPath: Bytes -> bool)

  const LOCKTIME_THRESHOLD := 500_000_000
  const SEQUENCE_FINAL := 0xffff_ffff

  predicate DisableFlag(sequence: int) { sequence / 0x8000_0000 % 2 == 1 }

  predicate SecondsFlag(sequence: int) { sequence / 0x40_0000 % 2 == 1 }

  /** The disable flag is the top bit of the 32, the seconds flag the twenty-third. */
  lemma FlagsAreBits(high: int, low: int)
    requires 0 <= high <= 0xff && 0 <= low < 0x80_0000
    ensures var sequence := high * 0x100_0000 + low;
            && (DisableFlag(sequence) <==> high >= 0x80) && (DisableFlag(sequence + 0x80_0000) <==> high >= 0x80)
            && (SecondsFlag(sequence) <==> low >= 0x40_0000)
            && (SecondsFlag(sequence + 0x80_0000) <==> low >= 0x40_0000)
  {
  }

  function BlockCount(sequence: int): int { sequence % 0x1_0000 }

  /** BIP 342: no signature is a plain false, a signature that does not verify ends the script, and keys of an
      unknown length accept any signature. */
  datatype Verdict = Failed | No | Yes

  function Judge(tx: Tx, leaf: Leaf, key: Bytes, sig: Bytes): Verdict
  {
    if key == [] then Failed
    else if sig == [] then No
    else if |key| != 32 || tx.signed(leaf, key, sig) then Yes
    else Failed
  }

  function Top(stack: seq<Bytes>): Bytes
    requires stack != []
  {
    stack[|stack| - 1]
  }

  function Pop(stack: seq<Bytes>, n: nat): seq<Bytes>
    requires n <= |stack|
  {
    stack[..|stack| - n]
  }

  function StepCheckSig(tx: Tx, leaf: Leaf, stack: seq<Bytes>): Option<seq<Bytes>>
  {
    if |stack| < 2 then None
    else
      var v := Judge(tx, leaf, Top(stack), stack[|stack| - 2]);
      if v == Failed then None else Some(Pop(stack, 2) + [OfBool(v == Yes)])
  }

  function StepCheckSigAdd(tx: Tx, leaf: Leaf, stack: seq<Bytes>): Option<seq<Bytes>>
  {
    if |stack| < 3 || |stack[|stack| - 2]| > 4 then None
    else
      var n := DecodeNum(stack[|stack| - 2]);
      var v := Judge(tx, leaf, Top(stack), stack[|stack| - 3]);
      if v == Failed then None
      else if v == No then Some(Pop(stack, 3) + [EncodeInt(n)])
      else Some(Pop(stack, 3) + [EncodeInt(n + 1)])
  }

  /** The encoding of any script number. */
  function EncodeInt(n: int): Bytes
  {
    if n >= 0 then EncodeNum(n)
    else
      var d := Digits(-n);
      assert d != [];
      if d[|d| - 1] >= 128 then d + [128] else d[|d| - 1 := d[|d| - 1] + 128]
  }

  function StepNumEqual(stack: seq<Bytes>): Option<seq<Bytes>>
  {
    if |stack| < 2 || |Top(stack)| > 4 || |stack[|stack| - 2]| > 4 then None
    else Some(Pop(stack, 2) + [OfBool(DecodeNum(Top(stack)) == DecodeNum(stack[|stack| - 2]))])
  }

  /** BIP 65. */
  predicate LockTimeMet(tx: Tx, n: int)
  {
    n >= 0 && (n < LOCKTIME_THRESHOLD <==> tx.lockTime < LOCKTIME_THRESHOLD) && n <= tx.lockTime
        && tx.sequence != SEQUENCE_FINAL
  }

  /** BIP 112. */
  predicate SequenceMet(tx: Tx, n: int)
  {
    n >= 0
    && (!DisableFlag(n) ==>
          tx.version >= 2 && !DisableFlag(tx.sequence) && SecondsFlag(n) == SecondsFlag(tx.sequence)
              && BlockCount(n) <= BlockCount(tx.sequence))
  }

  function StepOp(tx: Tx, leaf: Leaf, op: Op, stack: seq<Bytes>): Option<seq<Bytes>>
  {
    match op
    case Push(data) => Some(stack + [data])
    case CheckSig => StepCheckSig(tx, leaf, stack)
    case CheckSigAdd => StepCheckSigAdd(tx, leaf, stack)
    case NumEqual => StepNumEqual(stack)
    case CheckLockTime =>
      if stack != [] && |Top(stack)| <= 5 && LockTimeMet(tx, DecodeNum(Top(stack))) then Some(stack) else None
    case CheckSequence =>
      if stack != [] && |Top(stack)| <= 5 && SequenceMet(tx, DecodeNum(Top(stack))) then Some(stack) else None
    case Drop => if stack == [] then None else Some(Pop(stack, 1))
  }

  /** Runs the opcodes that are left of `leaf`. */
  function Run(tx: Tx, leaf: Leaf, ops: seq<Op>, stack: seq<Bytes>): Option<seq<Bytes>>
    decreases |ops|
  {
    if ops == [] then Some(stack)
    else
      var next := StepOp(tx, leaf, ops[0], stack);
      if next.None? then None else Run(tx, leaf, ops[1..], next.value)
  }

  /** A leaf accepts a witness when it leaves exactly one element, and that one true. */
  predicate Accepts(tx: Tx, leaf: Leaf, stack: seq<Bytes>)
  {
    var r := Run(tx, leaf, leaf, stack);
    r.Some? && |r.value| == 1 && Truthy(r.value[0])
  }

  lemma {:induction false} RunSplit(tx: Tx, leaf: Leaf, first: seq<Op>, rest: seq<Op>, stack: seq<Bytes>)
    ensures var mid := Run(tx, leaf, first, stack);
            Run(tx, leaf, first + rest, stack) == if mid.None? then None else Run(tx, leaf, rest, mid.value)
    decreases |first|
  {
    if first == [] {
      assert first + rest == rest;
    } else {
      assert (first + rest)[1..] == first[1..] + rest;
      var next := StepOp(tx, leaf, first[0], stack);
      if next.Some? {
        RunSplit(tx, leaf, first[1..], rest, next.value);
      }
    }
  }
}
