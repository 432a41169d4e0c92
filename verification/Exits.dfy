/** The only ways out of the escrow output, and the witnesses the client assembles for them. */
module Exits {
  import opened Prelude
  import opened Script
  import opened Escrow

  // ── Spending the output ────────────────────────────────────────────────────

  datatype Spend = KeyPath(sig: Bytes) | ScriptPath(leaf: Leaf, path: seq<Hash>, stack: seq<Bytes>)

  /** Folds a control block's path over a leaf hash. */
  function RootOf(h: Hash, path: seq<Hash>): Hash
  {
    if path == [] then h else HashBranch(multiset{RootOf(h, path[..|path| - 1]), path[|path| - 1]})
  }

  predicate Accepted(e: Escrow, tx: Tx, s: Spend)
  {
    match s
    case KeyPath(sig) => tx.keyPath(sig)
    case ScriptPath(leaf, path, stack) => RootOf(HashLeaf(leaf), path) == Root(e.TapTree()) && Accepts(tx, leaf, stack)
  }

  /** The internal key is a point nobody knows the logarithm of, so no signature is valid for the output key. */
  ghost predicate NoKeyPath(tx: Tx) { forall sig :: !tx.keyPath(sig) }

  /** A path that leads to the root of a tree starts at one of its leaves. */
  lemma {:induction false} PathStartsAtLeaf(t: Tree, leaf: Leaf, path: seq<Hash>)
    requires RootOf(HashLeaf(leaf), path) == Root(t)
    ensures leaf in Leaves(t)
    decreases t
  {
    match t
    case Tip(_) =>
    case Fork(l, r) =>
      var h := RootOf(HashLeaf(leaf), path[..|path| - 1]);
      assert h in multiset{Root(l), Root(r)};
      PathStartsAtLeaf(if h == Root(l) then l else r, leaf, path[..|path| - 1]);
  }

  /** The path a control block carries for each branch. */
  function PathOf(e: Escrow, b: Branch): seq<Hash>
  {
    match b
    case Coop => [Root(Fork(Tip(e.dispute), Tip(e.refund)))]
    case Dispute => [HashLeaf(e.refund), HashLeaf(e.coop)]
    case Refund => [HashLeaf(e.dispute), HashLeaf(e.coop)]
  }

  lemma PathLeadsToRoot(e: Escrow, b: Branch)
    ensures RootOf(HashLeaf(e.LeafOf(b)), PathOf(e, b)) == Root(e.TapTree())
  {
    hide Root, RootOf;
    var c, d, r := HashLeaf(e.coop), HashLeaf(e.dispute), HashLeaf(e.refund);
    RootIs(e);
    match b
    case Coop =>
      OneStep(c, HashBranch(multiset{d, r}));
      assert multiset{c, HashBranch(multiset{d, r})} == multiset{HashBranch(multiset{d, r}), c};
    case Dispute => TwoSteps(d, r, c);
    case Refund =>
      TwoSteps(r, d, c);
      assert multiset{r, d} == multiset{d, r};
  }

  lemma RootIs(e: Escrow)
    ensures var d, r := HashLeaf(e.dispute), HashLeaf(e.refund);
            && Root(Fork(Tip(e.dispute), Tip(e.refund))) == HashBranch(multiset{d, r})
            && Root(e.TapTree()) == HashBranch(multiset{HashBranch(multiset{d, r}), HashLeaf(e.coop)})
  {
    assert Root(Fork(Tip(e.dispute), Tip(e.refund))) == HashBranch(multiset{HashLeaf(e.dispute), HashLeaf(e.refund)});
  }

  lemma OneStep(h: Hash, sibling: Hash)
    ensures RootOf(h, [sibling]) == HashBranch(multiset{h, sibling})
  {
    var path := [sibling];
    assert path[..0] == [];
  }

  lemma TwoSteps(h: Hash, first: Hash, second: Hash)
    ensures RootOf(h, [first, second]) == HashBranch(multiset{HashBranch(multiset{h, first}), second})
  {
    var path := [first, second];
    assert path[..1] == [first];
    OneStep(h, first);
  }

  ghost predicate HasSigned(tx: Tx, leaf: Leaf, key: Bytes) { exists sig :: Signs(tx, leaf, key, sig) }

  ghost predicate TwoSigned(tx: Tx, leaf: Leaf, p: Params)
  {
    || (HasSigned(tx, leaf, p.buyer) && HasSigned(tx, leaf, p.seller))
    || (HasSigned(tx, leaf, p.buyer) && HasSigned(tx, leaf, p.arbiter))
    || (HasSigned(tx, leaf, p.seller) && HasSigned(tx, leaf, p.arbiter))
  }

  /** The three exits, told from signatures, sequence and lock time alone. */
  ghost predicate CoopExit(e: Escrow, tx: Tx)
  {
    HasSigned(tx, e.coop, e.params.buyer) && HasSigned(tx, e.coop, e.params.seller)
  }

  ghost predicate DisputeExit(e: Escrow, tx: Tx)
  {
    TwoSigned(tx, e.dispute, e.params) && (e.params.csv > 0 ==> AssertsAge(tx, e.params.csv))
  }

  ghost predicate RefundExit(e: Escrow, tx: Tx)
  {
    && (e.params.funder == Buyer ==> HasSigned(tx, e.refund, e.params.buyer))
    && (e.params.funder == Seller ==> HasSigned(tx, e.refund, e.params.seller))
    && e.params.refundLockUntil <= tx.lockTime < 500_000_000 && tx.sequence != 0xffff_ffff
  }

  lemma TreeLeaves(e: Escrow)
    ensures Leaves(e.TapTree()) == {e.coop, e.dispute, e.refund}
  {
    assert Leaves(Fork(Tip(e.dispute), Tip(e.refund))) == {e.dispute, e.refund};
  }

  lemma SpendUsesAnExit(p: Params, tx: Tx, s: Spend)
    requires Sound(p) && NoKeyPath(tx) && Accepted(BuildEscrow(p).value, tx, s)
    ensures var e := BuildEscrow(p).value;
            CoopExit(e, tx) || DisputeExit(e, tx) || RefundExit(e, tx)
  {
    hide Accepts, MultisigLeaf, EncodeNum, Ones, AssertsAge, RootOf, Root, Leaves;
    var e := BuildEscrow(p).value;
    PathStartsAtLeaf(e.TapTree(), s.leaf, s.path);
    TreeLeaves(e);
    if s.leaf == e.coop {
      CoopAccepts(tx, p, s.stack);
    } else if s.leaf == e.dispute {
      DisputeAccepts(tx, p, s.stack);
      OnesOfThree(s.stack);
      var w := s.stack;
      assert w[2] != [] ==> Signs(tx, s.leaf, p.buyer, w[2]);
      assert w[1] != [] ==> Signs(tx, s.leaf, p.seller, w[1]);
      assert w[0] != [] ==> Signs(tx, s.leaf, p.arbiter, w[0]);
    } else {
      RefundAccepts(tx, p, s.stack);
    }
  }

  lemma SpendFor(p: Params, tx: Tx, b: Branch, w: seq<Bytes>) returns (s: Spend)
    requires Sound(p) && Accepts(tx, BuildEscrow(p).value.LeafOf(b), w)
    ensures Accepted(BuildEscrow(p).value, tx, s)
  {
    var e := BuildEscrow(p).value;
    PathLeadsToRoot(e, b);
    s := ScriptPath(e.LeafOf(b), PathOf(e, b), w);
  }

  lemma DisputePair(p: Params, tx: Tx, x: Bytes, y: Bytes, z: Bytes)
    requires Sound(p) && (p.csv > 0 ==> AssertsAge(tx, p.csv)) && Ones([z, y, x]) == 2
    requires var leaf := BuildEscrow(p).value.dispute;
             EmptyOrSigns(tx, leaf, p.buyer, x) && EmptyOrSigns(tx, leaf, p.seller, y)
                 && EmptyOrSigns(tx, leaf, p.arbiter, z)
    ensures Accepts(tx, BuildEscrow(p).value.dispute, [z, y, x])
  {
    hide Accepts, MultisigLeaf, EncodeNum, Ones, AssertsAge;
    DisputeAccepts(tx, p, [z, y, x]);
  }

  lemma ExitIsOpen(p: Params, tx: Tx) returns (s: Spend)
    requires Sound(p)
    requires var e := BuildEscrow(p).value; CoopExit(e, tx) || DisputeExit(e, tx) || RefundExit(e, tx)
    ensures Accepted(BuildEscrow(p).value, tx, s)
  {
    hide Accepts, Accepted, MultisigLeaf, EncodeNum, Ones, AssertsAge;
    var e := BuildEscrow(p).value;
    if CoopExit(e, tx) {
      var x :| Signs(tx, e.coop, p.buyer, x);
      var y :| Signs(tx, e.coop, p.seller, y);
      CoopAccepts(tx, p, [y, x]);
      s := SpendFor(p, tx, Coop, [y, x]);
    } else if RefundExit(e, tx) {
      var x :| Signs(tx, e.refund, if p.funder == Buyer then p.buyer else p.seller, x);
      RefundAccepts(tx, p, [x]);
      s := SpendFor(p, tx, Refund, [x]);
    } else {
      var x :| if HasSigned(tx, e.dispute, p.buyer) then Signs(tx, e.dispute, p.buyer, x) else x == [];
      var y :| if HasSigned(tx, e.dispute, p.seller) then Signs(tx, e.dispute, p.seller, y) else y == [];
      var z :| if (x != [] && y != []) || !HasSigned(tx, e.dispute, p.arbiter) then z == []
               else Signs(tx, e.dispute, p.arbiter, z);
      OnesOfThree([z, y, x]);
      DisputePair(p, tx, x, y, z);
      s := SpendFor(p, tx, Dispute, [z, y, x]);
    }
  }

  /** The only exits, whatever the witness: a transaction can spend the escrow exactly when both principals signed
      it, or two of the three keys did and it asserts the appeal window, or the funder did under a lock time at or
      past the refund height. */
  lemma OnlyExits(p: Params, tx: Tx)
    requires Sound(p) && NoKeyPath(tx)
    ensures var e := BuildEscrow(p).value;
            (exists s :: Accepted(e, tx, s)) <==> CoopExit(e, tx) || DisputeExit(e, tx) || RefundExit(e, tx)
  {
    hide Accepted, CoopExit, DisputeExit, RefundExit;
    var e := BuildEscrow(p).value;
    if s :| Accepted(e, tx, s) {
      SpendUsesAnExit(p, tx, s);
    }
    if CoopExit(e, tx) || DisputeExit(e, tx) || RefundExit(e, tx) {
      var s := ExitIsOpen(p, tx);
    }
  }

  // ── When a block may include it ────────────────────────────────────────────

  /** A block, with the median time its predecessors set. */
  datatype Block = Block(height: int, time: int)

  predicate FinalIn(tx: Tx, b: Block)
  {
    tx.lockTime == 0 || tx.sequence == SEQUENCE_FINAL
    || tx.lockTime < (if tx.lockTime < LOCKTIME_THRESHOLD then b.height else b.time)
  }

  /** BIP 68 for the escrow input, funded in block f. */
  predicate AgedIn(tx: Tx, b: Block, f: Block)
  {
    tx.version >= 2 && !DisableFlag(tx.sequence) ==>
      if SecondsFlag(tx.sequence) then f.time + 512 * BlockCount(tx.sequence) - 1 < b.time
      else f.height + BlockCount(tx.sequence) - 1 < b.height
  }

  /** Block b may hold the spend of an escrow funded in block f. */
  predicate Includes(e: Escrow, tx: Tx, s: Spend, b: Block, f: Block)
  {
    Accepted(e, tx, s) && FinalIn(tx, b) && AgedIn(tx, b, f)
  }

  /** In blocks: cooperation any time, two of three only after the appeal window, the funder alone only past the
      refund height. */
  lemma ExitsByHeight(p: Params, tx: Tx, s: Spend, b: Block, f: Block)
    requires Sound(p) && NoKeyPath(tx) && Includes(BuildEscrow(p).value, tx, s, b, f)
    ensures var e := BuildEscrow(p).value;
            || CoopExit(e, tx)
            || (TwoSigned(tx, e.dispute, p) && (p.csv > 0 ==> b.height >= f.height + p.csv))
            || (p.funder == Buyer && HasSigned(tx, e.refund, p.buyer) && b.height > p.refundLockUntil)
            || (p.funder == Seller && HasSigned(tx, e.refund, p.seller) && b.height > p.refundLockUntil)
  {
    hide Accepted, BuildEscrow, HasSigned, TwoSigned;
    BuildsWhenSound(p);
    SpendUsesAnExit(p, tx, s);
  }

  /** No single key moves the coins up to the refund height. */
  lemma NoSingleKey(p: Params, tx: Tx, s: Spend, b: Block, f: Block, only: Bytes)
    requires Sound(p) && NoKeyPath(tx) && Includes(BuildEscrow(p).value, tx, s, b, f)
    requires forall leaf, key :: HasSigned(tx, leaf, key) ==> key == only
    ensures (only == p.buyer && p.funder == Buyer) || (only == p.seller && p.funder == Seller)
    ensures b.height > p.refundLockUntil
  {
    hide Includes, HasSigned, BuildEscrow;
    BuildsWhenSound(p);
    ExitsByHeight(p, tx, s, b, f);
  }

  /** Whoever did not put the money in never takes it out alone: a transaction that carries only the signatures of
      the other principal, or only those of the arbiter, is refused at any height. */
  lemma OthersNeverSpendAlone(p: Params, tx: Tx, s: Spend, only: Bytes)
    requires Sound(p) && NoKeyPath(tx) && forall leaf, key :: HasSigned(tx, leaf, key) ==> key == only
    requires only == p.arbiter || (only == p.seller && p.funder == Buyer) || (only == p.buyer && p.funder == Seller)
    ensures !Accepted(BuildEscrow(p).value, tx, s)
  {
    hide Accepted, HasSigned, BuildEscrow;
    BuildsWhenSound(p);
    if Accepted(BuildEscrow(p).value, tx, s) {
      SpendUsesAnExit(p, tx, s);
      assert false;
    }
  }

  // ── Assembling a witness ───────────────────────────────────────────────────

  datatype PartialSig = PartialSig(key: Bytes, leaf: Leaf, sig: Bytes)

  datatype WitnessError = NotSigned | MissingFunderSignature

  function ForLeaf(leaf: Leaf): PartialSig -> Option<PartialSig>
  {
    (s: PartialSig) => if s.leaf == leaf then Some(s) else None
  }

  /** The signature kept for a key: the last one listed, or the empty item. */
  function SigFor(sigs: seq<PartialSig>, key: Bytes): Bytes
  {
    if sigs == [] then []
    else if sigs[|sigs| - 1].key == key then sigs[|sigs| - 1].sig
    else SigFor(sigs[..|sigs| - 1], key)
  }

  function SlotsFor(sigs: seq<PartialSig>, keys: seq<Bytes>): seq<Bytes>
  {
    seq(|keys|, i requires 0 <= i < |keys| => SigFor(sigs, keys[i]))
  }

  function ByKey(key: Bytes): PartialSig -> bool { (s: PartialSig) => s.key == key }

  function LeafWitness(e: Escrow, all: seq<PartialSig>, b: Branch): Result<Spend, WitnessError>
  {
    var sigs := Collect(ForLeaf(e.LeafOf(b)), all);
    var p := e.params;
    if sigs == [] then Err(NotSigned)
    else if b == Refund then
      var i := First(ByKey(p.FunderKey()), sigs);
      FirstSpec(ByKey(p.FunderKey()), sigs);
      if i == |sigs| then Err(MissingFunderSignature) else Ok(ScriptPath(e.refund, PathOf(e, b), [sigs[i].sig]))
    else
      var keys := if b == Coop then [p.buyer, p.seller] else [p.buyer, p.seller, p.arbiter];
      Ok(ScriptPath(e.LeafOf(b), PathOf(e, b), Reverse(SlotsFor(sigs, keys))))
  }

  function Signers(all: seq<PartialSig>, leaf: Leaf): set<Bytes> { set s | s in all && s.leaf == leaf :: s.key }

  /** There is a witness to assemble exactly when somebody signed the branch's leaf, for a refund the party that funded;
      the refund's witness is then a signature of that party. */
  lemma WitnessIsAssembled(e: Escrow, all: seq<PartialSig>, b: Branch)
    ensures LeafWitness(e, all, b) == Err(NotSigned) <==> Signers(all, e.LeafOf(b)) == {}
    ensures LeafWitness(e, all, b) == Err(MissingFunderSignature)
            <==> && b == Refund && Signers(all, e.refund) != {}
                 && (if e.params.funder == Buyer then e.params.buyer else e.params.seller) !in Signers(all, e.refund)
    ensures b == Refund && LeafWitness(e, all, b).Ok? ==>
              exists s :: s in all && s.leaf == e.refund && LeafWitness(e, all, b).value.stack == [s.sig]
                          && (if e.params.funder == Buyer then s.key == e.params.buyer else s.key == e.params.seller)
  {
    hide PathOf;
    var sigs := Collect(ForLeaf(e.LeafOf(b)), all);
    var funder := if e.params.funder == Buyer then e.params.buyer else e.params.seller;
    CollectMembers(ForLeaf(e.LeafOf(b)), all);
    FirstSpec(ByKey(funder), sigs);
    forall s
      ensures s in sigs <==> s in all && s.leaf == e.LeafOf(b)
    {
      if s in all && s.leaf == e.LeafOf(b) {
        assert ForLeaf(e.LeafOf(b))(s) == Some(s);
      }
    }
    if sigs != [] {
      assert sigs[0] in sigs && sigs[0].key in Signers(all, e.LeafOf(b));
    }
    if First(ByKey(funder), sigs) < |sigs| {
      assert sigs[First(ByKey(funder), sigs)] in sigs;
    }
  }

  /** Every partial signature was made by its key over this transaction and its leaf. */
  ghost predicate Genuine(tx: Tx, all: seq<PartialSig>)
  {
    forall s :: s in all ==> Signs(tx, s.leaf, s.key, s.sig)
  }

  lemma {:induction false} SigForSpec(tx: Tx, leaf: Leaf, sigs: seq<PartialSig>, key: Bytes)
    requires Genuine(tx, sigs) && forall s :: s in sigs ==> s.leaf == leaf
    ensures if key in Signers(sigs, leaf) then Signs(tx, leaf, key, SigFor(sigs, key)) else SigFor(sigs, key) == []
  {
    if sigs != [] {
      var n := |sigs| - 1;
      SigForSpec(tx, leaf, sigs[..n], key);
      assert sigs == sigs[..n] + [sigs[n]];
    }
  }

  lemma CollectedSigs(tx: Tx, all: seq<PartialSig>, leaf: Leaf)
    requires Genuine(tx, all)
    ensures var sigs := Collect(ForLeaf(leaf), all);
            && Genuine(tx, sigs) && (forall s :: s in sigs ==> s.leaf == leaf)
                && Signers(sigs, leaf) == Signers(all, leaf)
            && (sigs == [] <==> Signers(all, leaf) == {})
  {
    var sigs := Collect(ForLeaf(leaf), all);
    CollectMembers(ForLeaf(leaf), all);
    forall s | s in all && s.leaf == leaf
      ensures s in sigs
    {
      assert ForLeaf(leaf)(s) == Some(s);
    }
    forall s | s in sigs
      ensures s in all && s.leaf == leaf
    {
      var a :| a in all && ForLeaf(leaf)(a) == Some(s);
    }
    if sigs != [] {
      assert sigs[0] in sigs && sigs[0] in all && sigs[0].key in Signers(all, leaf);
    }
    if Signers(all, leaf) != {} {
      var k :| k in Signers(all, leaf);
      var s :| s in all && s.leaf == leaf && s.key == k;
      assert s in sigs;
    }
    assert Signers(sigs, leaf) == Signers(all, leaf);
  }

  /** Whether the assembled witness for branch b exists and is accepted. */
  predicate Finalizes(e: Escrow, tx: Tx, all: seq<PartialSig>, b: Branch)
  {
    var w := LeafWitness(e, all, b);
    w.Ok? && Accepted(e, tx, w.value)
  }

  /** A coop settlement finalizes exactly when both principals signed it. */
  lemma CoopFinalizes(p: Params, tx: Tx, all: seq<PartialSig>)
    requires Sound(p) && Genuine(tx, all)
    ensures var e := BuildEscrow(p).value;
            Finalizes(e, tx, all, Coop) <==> p.buyer in Signers(all, e.coop) && p.seller in Signers(all, e.coop)
  {
    hide Accepts, MultisigLeaf, EncodeNum, Genuine, RootOf, Root;
    var e := BuildEscrow(p).value;
    var sigs := Collect(ForLeaf(e.coop), all);
    CollectedSigs(tx, all, e.coop);
    SigForSpec(tx, e.coop, sigs, p.buyer);
    SigForSpec(tx, e.coop, sigs, p.seller);
    PathLeadsToRoot(e, Coop);
    CoopAccepts(tx, p, Reverse(SlotsFor(sigs, [p.buyer, p.seller])));
  }

  function SignerCount(p: Params, signers: set<Bytes>): nat
  {
    (if p.buyer in signers then 1 else 0) + (if p.seller in signers then 1 else 0)
        + (if p.arbiter in signers then 1 else 0)
  }

  /** A dispute settlement finalizes exactly when two keys signed it, no more and no fewer, and the input asserts
      the appeal window: every available signature goes into the witness, and the leaf counts to exactly two. */
  lemma DisputeFinalizes(p: Params, tx: Tx, all: seq<PartialSig>)
    requires Sound(p) && Genuine(tx, all)
    ensures var e := BuildEscrow(p).value;
            Finalizes(e, tx, all, Dispute)
            <==> SignerCount(p, Signers(all, e.dispute)) == 2 && (p.csv > 0 ==> AssertsAge(tx, p.csv))
  {
    hide Accepts, MultisigLeaf, EncodeNum, Genuine, RootOf, Root, Ones, AssertsAge;
    var e := BuildEscrow(p).value;
    var sigs := Collect(ForLeaf(e.dispute), all);
    CollectedSigs(tx, all, e.dispute);
    SigForSpec(tx, e.dispute, sigs, p.buyer);
    SigForSpec(tx, e.dispute, sigs, p.seller);
    SigForSpec(tx, e.dispute, sigs, p.arbiter);
    PathLeadsToRoot(e, Dispute);
    var w := Reverse(SlotsFor(sigs, [p.buyer, p.seller, p.arbiter]));
    DisputeAccepts(tx, p, w);
    OnesOfThree(w);
  }

  /** A refund finalizes exactly when the funder signed it under a mature lock time. */
  lemma RefundFinalizes(p: Params, tx: Tx, all: seq<PartialSig>)
    requires Sound(p) && Genuine(tx, all)
    ensures var e := BuildEscrow(p).value;
            Finalizes(e, tx, all, Refund)
            <==> && (p.funder == Buyer ==> p.buyer in Signers(all, e.refund))
                 && (p.funder == Seller ==> p.seller in Signers(all, e.refund))
                 && p.refundLockUntil <= tx.lockTime < 500_000_000 && tx.sequence != 0xffff_ffff
  {
    hide Accepts, MultisigLeaf, EncodeNum, RootOf, Root;
    var e := BuildEscrow(p).value;
    var sigs := Collect(ForLeaf(e.refund), all);
    CollectedSigs(tx, all, e.refund);
    FirstSpec(ByKey(p.FunderKey()), sigs);
    PathLeadsToRoot(e, Refund);
    var i := First(ByKey(p.FunderKey()), sigs);
    if i < |sigs| {
      assert sigs[i] in sigs;
      RefundAccepts(tx, p, [sigs[i].sig]);
    }
  }
}
