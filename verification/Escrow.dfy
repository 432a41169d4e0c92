/** The on-chain escrow: three leaves under one output, the witness for each, and the only ways out. */
module Escrow {
  import opened Prelude
  import opened Script

  // ── The three leaves ───────────────────────────────────────────────────────

  datatype Funder = Buyer | Seller
  datatype Branch = Coop | Dispute | Refund

  datatype Params = Params(buyer: Bytes, seller: Bytes, arbiter: Bytes, funder: Funder, refundLockUntil: int, csv: int)
  {
    function FunderKey(): Bytes { if funder == Buyer then buyer else seller }
  }

  const MAX_CSV := 65_535

  /** Below this a taproot output is not relayed. */
  const DUST_SATS := 330

  datatype BuildError = BadKey | KeysNotDistinct | BadWindow | BadLockHeight

  predicate IsXonly(k: Bytes) { |k| == 32 }

  /** m of n signatures, each key counted at most once. */
  function MultisigLeaf(m: nat, keys: seq<Bytes>): Leaf
  {
    MultisigCount(keys) + [Push(EncodeNum(m)), NumEqual]
  }

  function MultisigCount(keys: seq<Bytes>): Leaf
  {
    if keys == [] then []
    else if |keys| == 1 then [Push(keys[0]), CheckSig]
    else MultisigCount(keys[..|keys| - 1]) + [Push(keys[|keys| - 1]), CheckSigAdd]
  }

  function CoopLeaf(p: Params): Result<Leaf, BuildError>
  {
    if !IsXonly(p.buyer) || !IsXonly(p.seller) then Err(BadKey) else Ok(MultisigLeaf(2, [p.buyer, p.seller]))
  }

  function DisputeLeaf(p: Params): Result<Leaf, BuildError>
  {
    if !IsXonly(p.buyer) || !IsXonly(p.seller) || !IsXonly(p.arbiter) then Err(BadKey)
    else if p.buyer == p.seller || p.buyer == p.arbiter || p.seller == p.arbiter then Err(KeysNotDistinct)
    else
      var ms := MultisigLeaf(2, [p.buyer, p.seller, p.arbiter]);
      if p.csv == 0 then Ok(ms)
      else if !(0 < p.csv <= MAX_CSV) then Err(BadWindow)
      else Ok([Push(EncodeNum(p.csv)), CheckSequence, Drop] + ms)
  }

  function RefundLeaf(p: Params): Result<Leaf, BuildError>
  {
    if !IsXonly(p.FunderKey()) then Err(BadKey)
    else if !(0 < p.refundLockUntil < LOCKTIME_THRESHOLD) then Err(BadLockHeight)
    else Ok([Push(EncodeNum(p.refundLockUntil)), CheckLockTime, Drop, Push(p.FunderKey()), CheckSig])
  }

  /** Each leaf looks at its own keys and terms: all of them need 32-byte keys, the dispute leaf three different ones
      and a window of at most 65535 blocks, the refund leaf a height below the block domain's end. */
  lemma LeavesNeedTheirTerms(p: Params)
    ensures CoopLeaf(p).Ok? <==> |p.buyer| == 32 && |p.seller| == 32
    ensures DisputeLeaf(p).Ok? <==> && |p.buyer| == 32 && |p.seller| == 32 && |p.arbiter| == 32
                                    && p.buyer != p.seller && p.buyer != p.arbiter && p.seller != p.arbiter
                                    && 0 <= p.csv <= 65_535
    ensures RefundLeaf(p).Ok? <==> && 0 < p.refundLockUntil < 500_000_000
                                   && (if p.funder == Buyer then |p.buyer| == 32 else |p.seller| == 32)
  {
  }

  // ── The output ─────────────────────────────────────────────────────────────

  /** Tagged hashes as free constructors: a leaf hash is never a branch hash, and neither collides. A branch
      hashes its two children in sorted order, so only the pair counts. */
  datatype Hash = HashLeaf(leaf: Leaf) | HashBranch(pair: multiset<Hash>)

  datatype Tree = Tip(leaf: Leaf) | Fork(left: Tree, right: Tree)

  function Root(t: Tree): Hash
  {
    match t
    case Tip(leaf) => HashLeaf(leaf)
    case Fork(l, r) => HashBranch(multiset{Root(l), Root(r)})
  }

  function Leaves(t: Tree): set<Leaf>
  {
    match t
    case Tip(leaf) => {leaf}
    case Fork(l, r) => Leaves(l) + Leaves(r)
  }

  datatype Escrow = Escrow(coop: Leaf, dispute: Leaf, refund: Leaf, params: Params)
  {
    function LeafOf(b: Branch): Leaf { match b case Coop => coop case Dispute => dispute case Refund => refund }

    /** Two equal-weight leaves are joined first, then the third. */
    function TapTree(): Tree { Fork(Fork(Tip(dispute), Tip(refund)), Tip(coop)) }
  }

  function BuildEscrow(p: Params): Result<Escrow, BuildError>
  {
    var coop := CoopLeaf(p);
    if coop.Err? then Err(coop.error)
    else
      var dispute := DisputeLeaf(p);
      if dispute.Err? then Err(dispute.error)
      else
        var refund := RefundLeaf(p);
        if refund.Err? then Err(refund.error) else Ok(Escrow(coop.value, dispute.value, refund.value, p))
  }

  /** Terms an escrow can be built from. */
  predicate Sound(p: Params)
  {
    && IsXonly(p.buyer) && IsXonly(p.seller) && IsXonly(p.arbiter)
    && p.buyer != p.seller && p.buyer != p.arbiter && p.seller != p.arbiter
    && 0 <= p.csv <= 65_535 && 0 < p.refundLockUntil < 500_000_000
  }

  lemma BuildsWhenSound(p: Params)
    ensures BuildEscrow(p).Ok? <==> Sound(p)
    ensures BuildEscrow(p).Ok? ==> BuildEscrow(p).value.params == p
  {
  }

  // ── What each leaf accepts ─────────────────────────────────────────────────

  predicate Signs(tx: Tx, leaf: Leaf, key: Bytes, sig: Bytes) { sig != [] && tx.signed(leaf, key, sig) }

  /** No signature at all, or a valid one. */
  predicate EmptyOrSigns(tx: Tx, leaf: Leaf, key: Bytes, sig: Bytes) { sig == [] || tx.signed(leaf, key, sig) }

  /** Each of the top items is empty or signs for its key, the first key facing the top of the stack. */
  predicate SlotsFit(tx: Tx, leaf: Leaf, keys: seq<Bytes>, w: seq<Bytes>)
    requires |keys| <= |w|
  {
    forall i :: 0 <= i < |keys| ==> EmptyOrSigns(tx, leaf, keys[i], w[|w| - 1 - i])
  }

  lemma FitTwo(tx: Tx, leaf: Leaf, a: Bytes, b: Bytes, w: seq<Bytes>)
    requires |w| == 2
    ensures SlotsFit(tx, leaf, [a, b], w) <==> EmptyOrSigns(tx, leaf, a, w[1]) && EmptyOrSigns(tx, leaf, b, w[0])
  {
    var keys := [a, b];
    assert keys[0] == a && keys[1] == b;
  }

  lemma FitThree(tx: Tx, leaf: Leaf, a: Bytes, b: Bytes, c: Bytes, w: seq<Bytes>)
    requires |w| == 3
    ensures SlotsFit(tx, leaf, [a, b, c], w)
            <==> EmptyOrSigns(tx, leaf, a, w[2]) && EmptyOrSigns(tx, leaf, b, w[1]) && EmptyOrSigns(tx, leaf, c, w[0])
  {
    var keys := [a, b, c];
    assert keys[0] == a && keys[1] == b && keys[2] == c;
  }

  function Ones(sigs: seq<Bytes>): nat
  {
    if sigs == [] then 0 else Ones(sigs[..|sigs| - 1]) + (if sigs[|sigs| - 1] == [] then 0 else 1)
  }

  /** The signatures a witness offers for the first k keys, top of the stack first. */
  function Offered(w: seq<Bytes>, k: nat): (r: seq<Bytes>)
    requires k <= |w|
    ensures |r| == k
  {
    seq(k, i requires 0 <= i < k => w[|w| - 1 - i])
  }

  lemma SmallNum(n: nat)
    requires n < 128
    ensures |EncodeNum(n)| <= 1 && DecodeNum(EncodeNum(n)) == n && (n != 0 ==> Truthy(EncodeNum(n)))
  {
    NumRoundTrip(n, 1);
    if n > 0 {
      assert Digits(n / 256) == [];
      assert EncodeNum(n) == [n];
    }
  }

  /** What counting leaves: nothing unless every item offered is empty or valid, and then the rest of the stack
      below the number of valid ones. */
  function Counted(tx: Tx, leaf: Leaf, keys: seq<Bytes>, w: seq<Bytes>): Option<seq<Bytes>>
  {
    if |w| >= |keys| && SlotsFit(tx, leaf, keys, w)
    then Some(w[..|w| - |keys|] + [EncodeNum(Ones(Offered(w, |keys|)))]) else None
  }

  lemma CountedGrows(tx: Tx, leaf: Leaf, keys: seq<Bytes>, w: seq<Bytes>)
    requires 2 <= |keys| < 100 && IsXonly(keys[|keys| - 1])
    ensures var n := |keys| - 1;
            var mid := Counted(tx, leaf, keys[..n], w);
            Counted(tx, leaf, keys, w) == if mid.None? then None
                else Run(tx, leaf, [Push(keys[n]), CheckSigAdd], mid.value)
  {
    hide EncodeNum, Offered, Run, Ones, SlotsFit, EmptyOrSigns;
    var n := |keys| - 1;
    if |w| >= n {
      var below := w[..|w| - n];
      OnesBound(Offered(w, n));
      AddRuns(tx, leaf, keys[n], below, Ones(Offered(w, n)));
      if |w| > n {
        OneMoreSlot(tx, leaf, keys, w);
        assert below[..|below| - 1] == w[..|w| - |keys|] && below[|below| - 1] == w[|w| - 1 - n];
      }
    }
  }

  lemma {:induction false} CountRuns(tx: Tx, leaf: Leaf, keys: seq<Bytes>, w: seq<Bytes>)
    requires 1 <= |keys| < 100 && (forall k :: k in keys ==> IsXonly(k))
    ensures Run(tx, leaf, MultisigCount(keys), w) == Counted(tx, leaf, keys, w)
  {
    var n := |keys| - 1;
    if n == 0 {
      OneKeyRuns(tx, leaf, keys[0], w);
    } else {
      hide Counted, Run, IsXonly;
      CountRuns(tx, leaf, keys[..n], w);
      RunSplit(tx, leaf, MultisigCount(keys[..n]), [Push(keys[n]), CheckSigAdd], w);
      CountedGrows(tx, leaf, keys, w);
    }
  }

  lemma OneMoreSlot(tx: Tx, leaf: Leaf, keys: seq<Bytes>, w: seq<Bytes>)
    requires 1 <= |keys| <= |w|
    ensures var n := |keys| - 1;
            && (SlotsFit(tx, leaf, keys, w)
                <==> SlotsFit(tx, leaf, keys[..n], w) && EmptyOrSigns(tx, leaf, keys[n], w[|w| - 1 - n]))
            && Ones(Offered(w, n + 1)) == Ones(Offered(w, n)) + (if w[|w| - 1 - n] == [] then 0 else 1)
  {
    var n := |keys| - 1;
    assert Offered(w, n + 1)[..n] == Offered(w, n);
    if SlotsFit(tx, leaf, keys, w) {
      forall i | 0 <= i < n
        ensures EmptyOrSigns(tx, leaf, keys[..n][i], w[|w| - 1 - i])
      {
        assert keys[..n][i] == keys[i];
      }
    }
    if SlotsFit(tx, leaf, keys[..n], w) && EmptyOrSigns(tx, leaf, keys[n], w[|w| - 1 - n]) {
      forall i | 0 <= i < |keys|
        ensures EmptyOrSigns(tx, leaf, keys[i], w[|w| - 1 - i])
      {
        assert i < n ==> keys[..n][i] == keys[i];
      }
    }
  }

  lemma {:induction false} OnesBound(sigs: seq<Bytes>)
    ensures Ones(sigs) <= |sigs|
  {
    if sigs != [] {
      OnesBound(sigs[..|sigs| - 1]);
    }
  }

  lemma OnesOfOne(x: Bytes)
    ensures Ones([x]) == if x == [] then 0 else 1
  {
    var s := [x];
    assert s[..0] == [];
  }

  lemma OneKeyRuns(tx: Tx, leaf: Leaf, key: Bytes, w: seq<Bytes>)
    requires IsXonly(key)
    ensures var r := Run(tx, leaf, [Push(key), CheckSig], w);
            && (r.Some? <==> |w| >= 1 && EmptyOrSigns(tx, leaf, key, w[|w| - 1]))
            && (r.Some? ==> r.value == w[..|w| - 1] + [EncodeNum(Ones(Offered(w, 1)))])
  {
    RunTwo(tx, leaf, Push(key), CheckSig, w);
    SmallNum(0);
    assert Digits(1 / 256) == [];
    assert EncodeNum(1) == [1];
    if |w| >= 1 {
      OnesOfOne(w[|w| - 1]);
      assert Offered(w, 1) == [w[|w| - 1]];
      assert Pop(w + [key], 2) == w[..|w| - 1];
    }
  }

  lemma RunTwo(tx: Tx, leaf: Leaf, a: Op, b: Op, w: seq<Bytes>)
    ensures var next := StepOp(tx, leaf, a, w);
            Run(tx, leaf, [a, b], w) == if next.None? then None else StepOp(tx, leaf, b, next.value)
  {
    assert [a, b][1..] == [b] && [b][1..] == [];
    var next := StepOp(tx, leaf, a, w);
    if next.Some? {
      assert Run(tx, leaf, [b], next.value) == StepOp(tx, leaf, b, next.value);
    }
  }

  lemma AddRuns(tx: Tx, leaf: Leaf, key: Bytes, below: seq<Bytes>, n: nat)
    requires IsXonly(key) && n < 100
    ensures var r := Run(tx, leaf, [Push(key), CheckSigAdd], below + [EncodeNum(n)]);
            && (r.Some? <==> |below| >= 1 && EmptyOrSigns(tx, leaf, key, below[|below| - 1]))
            && (r.Some? ==>
                  r.value == below[..|below| - 1] + [EncodeNum(n + if below[|below| - 1] == [] then 0 else 1)])
  {
    var w := below + [EncodeNum(n)];
    RunTwo(tx, leaf, Push(key), CheckSigAdd, w);
    SmallNum(n);
    if |below| >= 1 {
      assert (w + [key])[|w| - 2] == below[|below| - 1];
      assert Pop(w + [key], 3) == below[..|below| - 1];
    }
  }

  /** An m-of-n leaf accepts exactly the witnesses with as many items as keys, the first key's on top, each empty or
      valid, and exactly m of them valid. */
  lemma MultisigAccepts(tx: Tx, leaf: Leaf, m: nat, keys: seq<Bytes>, w: seq<Bytes>)
    requires 1 <= |keys| < 100 && m < 100 && (forall k :: k in keys ==> IsXonly(k))
    ensures (var r := Run(tx, leaf, MultisigLeaf(m, keys), w); r.Some? && |r.value| == 1 && Truthy(r.value[0]))
            <==> |w| == |keys| && SlotsFit(tx, leaf, keys, w) && Ones(w) == m
  {
    CountRuns(tx, leaf, keys, w);
    RunSplit(tx, leaf, MultisigCount(keys), [Push(EncodeNum(m)), NumEqual], w);
    var mid := Run(tx, leaf, MultisigCount(keys), w);
    if mid.Some? {
      var k := Ones(Offered(w, |keys|));
      OnesBound(Offered(w, |keys|));
      SmallNum(k);
      SmallNum(m);
      RunTwo(tx, leaf, Push(EncodeNum(m)), NumEqual, mid.value);
      assert Pop(mid.value + [EncodeNum(m)], 2) == w[..|w| - |keys|];
      assert Truthy([1]) && !Truthy([]) by { assert [1][0] != 0; }
      if |w| == |keys| {
        OnesReversed(w);
      }
    }
  }

  function Reverse(w: seq<Bytes>): seq<Bytes> { seq(|w|, i requires 0 <= i < |w| => w[|w| - 1 - i]) }

  lemma {:induction false} OnesReversed(w: seq<Bytes>)
    ensures Ones(Reverse(w)) == Ones(w)
    ensures Offered(w, |w|) == Reverse(w)
  {
    if w != [] {
      var n := |w| - 1;
      OnesReversed(w[..n]);
      assert Reverse(w) == [w[n]] + Reverse(w[..n]);
      OnesHead(w[n], Reverse(w[..n]));
    }
  }

  lemma {:induction false} OnesHead(x: Bytes, s: seq<Bytes>)
    ensures Ones([x] + s) == Ones(s) + (if x == [] then 0 else 1)
  {
    if s == [] {
      assert [x] + s == [x];
      OnesOfOne(x);
    } else {
      assert ([x] + s)[..|s|] == [x] + s[..|s| - 1];
      OnesHead(x, s[..|s| - 1]);
    }
  }

  /** The coop leaf: both principals' signatures and nothing else. */
  lemma CoopAccepts(tx: Tx, p: Params, w: seq<Bytes>)
    requires Sound(p)
    ensures var leaf := BuildEscrow(p).value.coop;
            Accepts(tx, leaf, w) <==> |w| == 2 && Signs(tx, leaf, p.buyer, w[1]) && Signs(tx, leaf, p.seller, w[0])
  {
    var leaf := BuildEscrow(p).value.coop;
    hide Run, MultisigLeaf, Ones, Truthy;
    MultisigAccepts(tx, leaf, 2, [p.buyer, p.seller], w);
    if |w| == 2 {
      FitTwo(tx, leaf, p.buyer, p.seller, w);
      OnesOfTwo(w);
    }
  }

  lemma OnesOfTwo(w: seq<Bytes>)
    requires |w| == 2
    ensures Ones(w) == (if w[0] == [] then 0 else 1) + (if w[1] == [] then 0 else 1)
  {
    assert w[..1] == [w[0]];
    OnesOfOne(w[0]);
  }

  lemma OnesOfThree(w: seq<Bytes>)
    requires |w| == 3
    ensures Ones(w) == (if w[0] == [] then 0 else 1) + (if w[1] == [] then 0 else 1) + (if w[2] == [] then 0 else 1)
  {
    assert w[..2][0] == w[0] && w[..2][1] == w[1];
    OnesOfTwo(w[..2]);
  }

  /** The input asserts at least n blocks of age, in the form BIP 112 asks for. */
  predicate AssertsAge(tx: Tx, n: int)
  {
    tx.version >= 2 && !DisableFlag(tx.sequence) && !SecondsFlag(tx.sequence) && BlockCount(tx.sequence) >= n
  }

  /** The dispute leaf: exactly two of the three keys sign, the third item is empty, and with an appeal window
      the input asserts its age. A third signature makes the leaf refuse. */
  lemma DisputeAccepts(tx: Tx, p: Params, w: seq<Bytes>)
    requires Sound(p)
    ensures var leaf := BuildEscrow(p).value.dispute;
            Accepts(tx, leaf, w)
            <==> && |w| == 3 && EmptyOrSigns(tx, leaf, p.buyer, w[2]) && EmptyOrSigns(tx, leaf, p.seller, w[1])
                 && EmptyOrSigns(tx, leaf, p.arbiter, w[0])
                 && Ones(w) == 2 && (p.csv > 0 ==> AssertsAge(tx, p.csv))
  {
    hide Run, MultisigLeaf, Ones, Truthy, SlotsFit, EncodeNum, AssertsAge;
    var leaf := BuildEscrow(p).value.dispute;
    var keys := [p.buyer, p.seller, p.arbiter];
    MultisigAccepts(tx, leaf, 2, keys, w);
    if |w| == 3 {
      FitThree(tx, leaf, p.buyer, p.seller, p.arbiter, w);
    }
    if p.csv > 0 {
      WindowGuard(tx, leaf, p.csv, MultisigLeaf(2, keys), w);
    }
  }

  lemma RunGuard(tx: Tx, leaf: Leaf, data: Bytes, check: Op, rest: seq<Op>, w: seq<Bytes>)
    requires check == CheckSequence || check == CheckLockTime
    ensures Run(tx, leaf, [Push(data), check, Drop] + rest, w)
         == if StepOp(tx, leaf, check, w + [data]).None? then None else Run(tx, leaf, rest, w)
  {
    RunSplit(tx, leaf, [Push(data), check, Drop], rest, w);
    assert [Push(data), check, Drop] == [Push(data), check] + [Drop];
    RunSplit(tx, leaf, [Push(data), check], [Drop], w);
    RunTwo(tx, leaf, Push(data), check, w);
    if StepOp(tx, leaf, check, w + [data]).Some? {
      assert [Drop][1..] == [];
      assert Pop(w + [data], 1) == w;
      assert StepOp(tx, leaf, Drop, w + [data]) == Some(w);
      assert Run(tx, leaf, [Drop], w + [data]) == Some(w);
    }
  }

  lemma WindowGuard(tx: Tx, leaf: Leaf, csv: int, rest: seq<Op>, w: seq<Bytes>)
    requires 0 < csv <= MAX_CSV
    ensures Run(tx, leaf, [Push(EncodeNum(csv)), CheckSequence, Drop] + rest, w)
         == if AssertsAge(tx, csv) then Run(tx, leaf, rest, w) else None
  {
    RunGuard(tx, leaf, EncodeNum(csv), CheckSequence, rest, w);
    assert Power256(2) == 65_536 by { assert Power256(1) == 256 * Power256(0); }
    NumRoundTrip(csv, 2);
  }

  lemma HeightGuard(tx: Tx, leaf: Leaf, height: int, rest: seq<Op>, w: seq<Bytes>)
    requires 0 < height < LOCKTIME_THRESHOLD
    ensures Run(tx, leaf, [Push(EncodeNum(height)), CheckLockTime, Drop] + rest, w)
         == if height <= tx.lockTime < LOCKTIME_THRESHOLD && tx.sequence != SEQUENCE_FINAL then Run(tx, leaf, rest, w)
            else None
  {
    RunGuard(tx, leaf, EncodeNum(height), CheckLockTime, rest, w);
    assert Power256(4) == 4_294_967_296 by {
      assert Power256(1) == 256 && Power256(2) == 65_536;
      assert Power256(3) == 16_777_216;
    }
    NumRoundTrip(height, 4);
  }

  /** The refund leaf: the party that funded and nobody else, under a lock time at or past the refund height. */
  lemma RefundAccepts(tx: Tx, p: Params, w: seq<Bytes>)
    requires Sound(p)
    ensures var leaf := BuildEscrow(p).value.refund;
            Accepts(tx, leaf, w)
            <==> && |w| == 1
                 && (p.funder == Buyer ==> Signs(tx, leaf, p.buyer, w[0]))
                 && (p.funder == Seller ==> Signs(tx, leaf, p.seller, w[0]))
                 && p.refundLockUntil <= tx.lockTime < 500_000_000 && tx.sequence != 0xffff_ffff
  {
    var leaf := BuildEscrow(p).value.refund;
    var rest := [Push(p.FunderKey()), CheckSig];
    assert leaf == [Push(EncodeNum(p.refundLockUntil)), CheckLockTime, Drop] + rest;
    HeightGuard(tx, leaf, p.refundLockUntil, rest, w);
    OneKeyRuns(tx, leaf, p.FunderKey(), w);
    if |w| == 1 {
      SmallNum(0);
      SmallNum(1);
      OnesOfOne(w[0]);
      assert Offered(w, 1) == [w[0]];
    }
  }
}
