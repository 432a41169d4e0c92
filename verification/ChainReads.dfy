/** Reading the escrow's funding from several explorers, and choosing what a dispute payout spends. */
module ChainReads {
  import opened Prelude
  import opened Script
  import opened Escrow
  import opened Exits
  import opened Settlement
  import opened Payout

  // ── Corroborated funding ───────────────────────────────────────────────────

  const QUORUM := 2

  datatype Funding = Funding(utxo: Utxo, height: Option<int>, confirmations: int)

  /** What two explorers must agree on: the output, its amount and its block. */
  datatype Key = Key(utxo: Utxo, height: Option<int>)

  function KeyOf(f: Funding): Key { Key(f.utxo, f.height) }

  function KeysOf(answer: seq<Funding>): set<Key> { set f | f in answer :: KeyOf(f) }

  function Names(k: Key): seq<Funding> -> Option<seq<Funding>>
  {
    (answer: seq<Funding>) => if k in KeysOf(answer) then Some(answer) else None
  }

  /** How many of the answers report k. */
  function Votes(k: Key, answers: seq<seq<Funding>>): nat { |Collect(Names(k), answers)| }

  /** One explorer's read: what it reports, or no answer. */
  type Read = Option<seq<Funding>>

  function Answered(): Read -> Option<seq<Funding>> { (r: Read) => r }

  datatype ReadError = Unavailable

  /** The first report of a key, and the votes for it. */
  datatype Entry = Entry(funding: Funding, votes: nat)

  type Counts = map<Key, Entry>

  /** The votes of `answers`, plus one more for each key in `seen`. */
  ghost predicate TalliedWith(keys: seq<Key>, counts: Counts, answers: seq<seq<Funding>>, seen: set<Key>)
  {
    && Distinct(keys) && counts.Keys == Elements(keys)
    && (forall k :: k in counts ==>
        KeyOf(counts[k].funding) == k && counts[k].votes == Votes(k, answers) + (if k in seen then 1 else 0))
    && (forall k: Key :: k !in counts ==> Votes(k, answers) == 0 && k !in seen)
  }

  ghost predicate Tallied(keys: seq<Key>, counts: Counts, answers: seq<seq<Funding>>)
  {
    TalliedWith(keys, counts, answers, {})
  }

  lemma OneMoreVote(keys: seq<Key>, counts: Counts, answers: seq<seq<Funding>>, seen: set<Key>, f: Funding)
    requires TalliedWith(keys, counts, answers, seen) && KeyOf(f) !in seen
    ensures var k := KeyOf(f);
            var first := if k in counts then counts[k].funding else f;
            var votes := if k in counts then counts[k].votes else 0;
            TalliedWith(if k in counts then keys else keys + [k], counts[k := Entry(first, votes + 1)], answers,
                        seen + {k})
  {
    hide Votes;
    var k := KeyOf(f);
    assert k in counts <==> k in Elements(keys);
    DistinctAppend(keys, k);
    assert Elements(keys + [k]) == Elements(keys) + {k};
  }

  lemma AnswerCounted(keys: seq<Key>, counts: Counts, answers: seq<seq<Funding>>, answer: seq<Funding>)
    requires TalliedWith(keys, counts, answers, KeysOf(answer))
    ensures Tallied(keys, counts, answers + [answer])
  {
    forall k: Key
      ensures Votes(k, answers + [answer]) == Votes(k, answers) + (if k in KeysOf(answer) then 1 else 0)
    {
      assert (answers + [answer])[..|answers|] == answers;
    }
    hide Votes;
  }

  /** Counts one explorer's answer, each of its keys once. */
  method CountAnswer(keys0: seq<Key>, counts0: Counts, ghost answers: seq<seq<Funding>>, answer: seq<Funding>)
    returns (keys: seq<Key>, counts: Counts)
    requires Tallied(keys0, counts0, answers)
    ensures Tallied(keys, counts, answers + [answer])
  {
    hide TalliedWith;
    keys, counts := keys0, counts0;
    var seen: set<Key> := {};
    for i := 0 to |answer|
      invariant seen == KeysOf(answer[..i]) && TalliedWith(keys, counts, answers, seen)
    {
      var f := answer[i];
      var k := KeyOf(f);
      assert answer[..i + 1] == answer[..i] + [f];
      assert KeysOf(answer[..i + 1]) == KeysOf(answer[..i]) + {k};
      if k !in seen {
        OneMoreVote(keys, counts, answers, seen, f);
        seen := seen + {k};
        if k in counts {
          counts := counts[k := Entry(counts[k].funding, counts[k].votes + 1)];
        } else {
          keys := keys + [k];
          counts := counts[k := Entry(f, 1)];
        }
      }
    }
    assert answer[..|answer|] == answer;
    AnswerCounted(keys, counts, answers, answer);
  }

  function Winner(counts: Counts): Key -> Option<Funding>
  {
    (k: Key) => if k in counts && counts[k].votes >= QUORUM then Some(counts[k].funding) else None
  }

  /** Asks every explorer and keeps what at least two report alike; fewer than two answers are no answer at all.
      With a single explorer configured, that one is the authority. */
  method FindCorroboratedFunding(replies: seq<Read>) returns (r: Result<seq<Funding>, ReadError>)
    ensures |replies| == 1 ==> r == if replies[0].Some? then Ok(replies[0].value) else Err(Unavailable)
    ensures |replies| != 1 ==> (r.Err? <==> |Collect(Answered(), replies)| < 2)
    ensures |replies| != 1 && r.Ok? ==>
              forall k: Key :: k in KeysOf(r.value) <==> Votes(k, Collect(Answered(), replies)) >= 2
    ensures |replies| != 1 && r.Ok? ==> OnePerKey(r.value)
  {
    if |replies| < QUORUM {
      return if replies != [] && replies[0].Some? then Ok(replies[0].value) else Err(Unavailable);
    }
    var answers := Collect(Answered(), replies);
    if |answers| < QUORUM {
      return Err(Unavailable);
    }
    var keys: seq<Key>, counts: Counts := [], map[];
    for i := 0 to |answers|
      invariant Tallied(keys, counts, answers[..i])
    {
      keys, counts := CountAnswer(keys, counts, answers[..i], answers[i]);
      assert answers[..i + 1] == answers[..i] + [answers[i]];
    }
    assert answers[..|answers|] == answers;
    ReportSpec(keys, counts, answers);
    r := Ok(Collect(Winner(counts), keys));
  }

  lemma ReportSpec(keys: seq<Key>, counts: Counts, answers: seq<seq<Funding>>)
    requires Tallied(keys, counts, answers)
    ensures var out := Collect(Winner(counts), keys);
            OnePerKey(out) && forall k: Key :: k in KeysOf(out) <==> Votes(k, answers) >= QUORUM
  {
    hide Votes;
    var out := Collect(Winner(counts), keys);
    CollectMembers(Winner(counts), keys);
    forall k: Key
      ensures k in KeysOf(out) <==> Votes(k, answers) >= QUORUM
    {
      if Votes(k, answers) >= QUORUM {
        assert k in Elements(keys) && Winner(counts)(k) == Some(counts[k].funding);
        assert counts[k].funding in out;
      }
      if k in KeysOf(out) {
        var f :| f in out && KeyOf(f) == k;
        var j :| j in keys && Winner(counts)(j) == Some(f);
        assert j in Elements(keys);
      }
    }
    ReportIsDistinct(keys, counts);
  }

  /** No key is reported twice. */
  ghost predicate OnePerKey(out: seq<Funding>)
  {
    forall i, j :: 0 <= i < j < |out| ==> KeyOf(out[i]) != KeyOf(out[j])
  }

  lemma {:induction false} ReportIsDistinct(keys: seq<Key>, counts: Counts)
    requires Distinct(keys) && forall k :: k in keys ==> k in counts && KeyOf(counts[k].funding) == k
    ensures var out := Collect(Winner(counts), keys);
            OnePerKey(out) && forall i :: 0 <= i < |out| ==> KeyOf(out[i]) in keys
  {
    if keys != [] {
      var n := |keys| - 1;
      ReportIsDistinct(keys[..n], counts);
    }
  }

  /** Everything an honest explorer reports is on the chain. */
  ghost predicate Honest(answer: seq<Funding>, onChain: set<Key>) { KeysOf(answer) <= onChain }

  lemma {:induction false} VotesByLiar(k: Key, answers: seq<seq<Funding>>, onChain: set<Key>, liar: nat)
    requires forall i :: 0 <= i < |answers| && i != liar ==> Honest(answers[i], onChain)
    requires k !in onChain
    ensures Votes(k, answers) <= 1
    ensures liar >= |answers| ==> Votes(k, answers) == 0
  {
    if answers != [] {
      VotesByLiar(k, answers[..|answers| - 1], onChain, liar);
    }
  }

  lemma {:induction false} VotesByTwo(k: Key, answers: seq<seq<Funding>>, i: nat, j: nat)
    requires i < j < |answers| && k in KeysOf(answers[i]) && k in KeysOf(answers[j])
    ensures Votes(k, answers) >= 2
  {
    var n := |answers| - 1;
    if j < n {
      VotesByTwo(k, answers[..n], i, j);
    } else {
      VotesByOne(k, answers[..n], i);
    }
  }

  lemma {:induction false} VotesByOne(k: Key, answers: seq<seq<Funding>>, i: nat)
    requires i < |answers| && k in KeysOf(answers[i])
    ensures Votes(k, answers) >= 1
  {
    var n := |answers| - 1;
    if i < n {
      VotesByOne(k, answers[..n], i);
    }
  }

  /** One lying explorer can neither invent a deposit nor hide one: with at most one dishonest answer every
      counted deposit is on the chain, and what any two explorers report is counted. */
  lemma OneLiarIsHarmless(answers: seq<seq<Funding>>, onChain: set<Key>, liar: nat, k: Key, i: nat, j: nat)
    requires forall n :: 0 <= n < |answers| && n != liar ==> Honest(answers[n], onChain)
    ensures Votes(k, answers) >= QUORUM ==> k in onChain
    ensures i < j < |answers| && k in KeysOf(answers[i]) && k in KeysOf(answers[j]) ==> Votes(k, answers) >= QUORUM
  {
    if k !in onChain {
      VotesByLiar(k, answers, onChain, liar);
    }
    if i < j < |answers| && k in KeysOf(answers[i]) && k in KeysOf(answers[j]) {
      VotesByTwo(k, answers, i, j);
    }
  }

  // ── What a dispute spends ──────────────────────────────────────────────────

  datatype SpendError = CommittedMissing | HeightUnknown
  datatype SpendSet = StillClosed(blocksRemaining: int) | Spendable(spend: seq<Funding>, fundingHeight: int)

  function IsAt(at: Outpoint): Funding -> bool { (f: Funding) => f.utxo.at == at }

  function Ripe(tip: int, csv: int): Funding -> Option<Funding>
  {
    (f: Funding) => if f.height.Some? && DisputeWindow(f.height, Some(tip), csv).Open? then Some(f) else None
  }

  function Highest(fs: seq<Funding>): (h: int)
    requires fs != [] && forall f :: f in fs ==> f.height.Some?
    ensures forall f :: f in fs ==> f.height.value <= h
    ensures exists f :: f in fs && f.height == Some(h)
  {
    var last := fs[|fs| - 1];
    assert last in fs;
    if |fs| == 1 then last.height.value
    else
      assert fs == fs[..|fs| - 1] + [last];
      Max(Highest(fs[..|fs| - 1]), last.height.value)
  }

  function DisputeSpendSet(found: seq<Funding>, committed: Outpoint, tip: int, csv: int): Result<SpendSet, SpendError>
  {
    var i := First(IsAt(committed), found);
    FirstSpec(IsAt(committed), found);
    if i == |found| then Err(CommittedMissing)
    else if found[i].height.None? then Err(HeightUnknown)
    else
      var w := DisputeWindow(found[i].height, Some(tip), csv);
      if w.Closed? then Ok(StillClosed(w.blocksRemaining))
      else
        var spend := Collect(Ripe(tip, csv), found);
        RipeSpec(found, tip, csv);
        assert Ripe(tip, csv)(found[i]) == Some(found[i]) && found[i] in found;
        Ok(Spendable(spend, Highest(spend)))
  }

  lemma RipeSpec(found: seq<Funding>, tip: int, csv: int)
    ensures forall f :: f in Collect(Ripe(tip, csv), found) <==> f in found && Ripe(tip, csv)(f) == Some(f)
  {
    CollectMembers(Ripe(tip, csv), found);
  }

  /** An open spend set holds the committed deposit, every member has waited out its own window, and the height
      reported with it passes the builder's own gate. It is open exactly when the committed deposit's window is. */
  lemma OpenSpendSet(found: seq<Funding>, committed: Outpoint, tip: int, csv: int)
    ensures var r := DisputeSpendSet(found, committed, tip, csv);
            var i := First(IsAt(committed), found);
            && i <= |found|
            && (r.Ok? && r.value.Spendable? <==>
                  i < |found| && found[i].height.Some? && DisputeWindow(found[i].height, Some(tip), csv).Open?)
            && (r.Ok? && r.value.Spendable? ==>
                  && found[i] in r.value.spend && found[i].utxo.at == committed
                  && (forall f :: f in r.value.spend <==>
                                    f in found && f.height.Some? && DisputeWindow(f.height, Some(tip), csv).Open?)
                  && (forall f :: f in r.value.spend ==> f.height.value <= r.value.fundingHeight)
                  && DisputeWindow(Some(r.value.fundingHeight), Some(tip), csv).Open?)
  {
    FirstSpec(IsAt(committed), found);
    RipeSpec(found, tip, csv);
  }

  /** Each output is listed once. */
  predicate OneEach(found: seq<Funding>)
  {
    forall f, g :: f in found && g in found && f.utxo.at == g.utxo.at ==> f == g
  }

  /** Dust immunity: however many deposits are added, in whatever order they are listed, an open set stays open
      and loses nothing it would have spent. */
  lemma DepositsNeverClose(found: seq<Funding>, more: seq<Funding>, committed: Outpoint, tip: int, csv: int)
    requires OneEach(more) && forall f :: f in found ==> f in more
    requires DisputeSpendSet(found, committed, tip, csv).Ok?
    requires DisputeSpendSet(found, committed, tip, csv).value.Spendable?
    ensures var r := DisputeSpendSet(more, committed, tip, csv);
            && r.Ok? && r.value.Spendable?
            && forall f :: f in DisputeSpendSet(found, committed, tip, csv).value.spend ==> f in r.value.spend
  {
    OpenSpendSet(found, committed, tip, csv);
    OpenSpendSet(more, committed, tip, csv);
    FirstSpec(IsAt(committed), found);
    FirstSpec(IsAt(committed), more);
    var i, j := First(IsAt(committed), found), First(IsAt(committed), more);
    var c := found[i];
    assert c in found && c in more;
    var k :| 0 <= k < |more| && more[k] == c;
    assert IsAt(committed)(more[k]);
    assert j <= k && more[j] in more;
  }

  /** The payout of an open set: the builder does not refuse it for its window, and BIP 68 lets the next block
      include every one of its inputs. */
  lemma DisputePayoutIsRipe(found: seq<Funding>, committed: Outpoint, o: Order, tip: int, f: Funding, tx: Tx, time: int,
                          fundedTime: int)
    requires Built(o.e) && o.leaf == Dispute && o.tip == Some(tip)
    requires var r := DisputeSpendSet(found, committed, tip, o.e.params.csv);
             r.Ok? && r.value.Spendable? && o.fundingHeight == Some(r.value.fundingHeight) && f in r.value.spend
    requires tx.version == 2 && SequenceFor(Dispute, o.e.params.csv) == Ok(tx.sequence)
    ensures OrderError(o).Some? ==> !OrderError(o).value.WindowStillOpen?
    ensures f.height.Some? && AgedIn(tx, Block(tip + 1, time), Block(f.height.value, fundedTime))
  {
    OpenSpendSet(found, committed, tip, o.e.params.csv);
    BuildsWhenSound(o.e.params);
    if o.e.params.csv > 0 {
      WindowIsBip68(o.e.params.csv, f.height.value, tip, tx, time, fundedTime);
    }
  }
}
