/** What the bond cache holds after any history of writes: per arbiter, the last read that named them. */
module CacheHistory {
  import opened Prelude
  import opened BondCache

  datatype Fetch = Fetch(bonds: seq<Bond>, at: Millis)

  /** One community's entry after a history of writes to it; empty ones change nothing. */
  function CacheAfter(h: seq<Fetch>): Option<Entry>
  {
    if h == [] then None
    else
      var before, last := CacheAfter(h[..|h| - 1]), h[|h| - 1];
      if last.bonds == [] then before else Some(EntryAfter(before, last.bonds, last.at))
  }

  function RecordsOf(e: Option<Entry>): seq<Record> { if e.None? then [] else e.value.bonds }

  function RecordBy(a: Npub): Record -> Option<Record>
  {
    (r: Record) => if r.Record? && r.npub == a then Some(r) else None
  }

  function Of(a: Npub, list: seq<Record>): seq<Record> { Collect(RecordBy(a), list) }

  function BondBy(a: Npub): Bond -> Option<Bond> { (b: Bond) => if b.npub == a then Some(b) else None }

  function BondsOf(a: Npub, bonds: seq<Bond>): seq<Bond> { Collect(BondBy(a), bonds) }

  /** The last write that names arbiter a. */
  function LatestFor(a: Npub, h: seq<Fetch>): Option<Fetch>
  {
    if h == [] then None
    else if a in Named(h[|h| - 1].bonds) then Some(h[|h| - 1])
    else LatestFor(a, h[..|h| - 1])
  }

  // ── Lists the cache itself writes ──────────────────────────────────────────

  predicate Sound(r: Record) { r.Record? && r.verifiedAt.Some? && DeserializeBond(r).Some? }

  /** Readable, dated, and no key twice. */
  ghost predicate Clean(list: seq<Record>)
  {
    && (forall i :: 0 <= i < |list| ==> Sound(list[i]))
    && (forall i, j :: 0 <= i < j < |list| ==> KeyOf(list[i]) != KeyOf(list[j]))
  }

  lemma PutClean(list: seq<Record>, r: Record)
    requires Clean(list) && Sound(r)
    ensures Clean(Put(list, r))
    ensures forall k :: Holds(Put(list, r), k) <==> Holds(list, k) || k == KeyOf(r)
  {
    hide DeserializeBond;
    var out := Put(list, r);
    assert forall i :: 0 <= i < |list| ==> KeyOf(out[i]) == KeyOf(list[i]);
    forall k
      ensures Holds(out, k) <==> Holds(list, k) || k == KeyOf(r)
    {
      if Holds(list, k) {
        var i :| 0 <= i < |list| && list[i].Record? && KeyOf(list[i]) == k;
        assert KeyOf(out[i]) == k;
      }
      if k == KeyOf(r) && !Holds(list, k) {
        assert out[|list|] == r;
      }
    }
  }

  lemma {:induction false} ReplaceOf(a: Npub, list: seq<Record>, r: Record)
    requires r.Record?
    ensures Of(a, Replace(list, r)) == if r.npub == a then Replace(Of(a, list), r) else Of(a, list)
  {
    if list != [] {
      var n := |list| - 1;
      ReplaceOf(a, list[..n], r);
      assert Replace(list, r)[..n] == Replace(list[..n], r);
      var last := Replace(list, r)[n];
      if r.npub == a && RecordBy(a)(list[n]).Some? {
        assert Replace(Of(a, list[..n]) + [list[n]], r) == Replace(Of(a, list[..n]), r) + [last];
      }
    }
  }

  lemma OfMembers(a: Npub, list: seq<Record>)
    ensures forall r :: r in Of(a, list) <==> r in list && r.Record? && r.npub == a
  {
    CollectMembers(RecordBy(a), list);
    forall r | r in list && r.Record? && r.npub == a
      ensures r in Of(a, list)
    {
      assert RecordBy(a)(r) == Some(r);
    }
  }

  lemma HoldsOf(a: Npub, list: seq<Record>, k: Key)
    requires k.npub == a
    ensures Holds(Of(a, list), k) <==> Holds(list, k)
  {
    hide Of;
    OfMembers(a, list);
    if Holds(list, k) {
      var i :| 0 <= i < |list| && list[i].Record? && KeyOf(list[i]) == k;
      assert list[i] in Of(a, list);
    }
    if Holds(Of(a, list), k) {
      var i :| 0 <= i < |Of(a, list)| && Of(a, list)[i].Record? && KeyOf(Of(a, list)[i]) == k;
      assert Of(a, list)[i] in Of(a, list);
    }
  }

  lemma PutOf(a: Npub, list: seq<Record>, r: Record)
    requires r.Record?
    ensures Of(a, Put(list, r)) == if r.npub == a then Put(Of(a, list), r) else Of(a, list)
  {
    hide Replace;
    ReplaceOf(a, list, r);
    if r.npub == a {
      HoldsOf(a, list, KeyOf(r));
    }
    assert (list + [r])[..|list|] == list;
  }

  lemma BondsOfStep(a: Npub, bonds: seq<Bond>)
    requires bonds != []
    ensures var n := |bonds| - 1;
            BondsOf(a, bonds) == if bonds[n].npub == a then BondsOf(a, bonds[..n]) + [bonds[n]]
                else BondsOf(a, bonds[..n])
  {
    var before := BondsOf(a, bonds[..|bonds| - 1]);
    assert before + [] == before;
  }

  lemma PutAllStep(base: seq<Record>, bonds: seq<Bond>, b: Bond, now: Millis)
    ensures PutAll(base, bonds + [b], now) == Put(PutAll(base, bonds, now), Stamped(b, now))
  {
    assert (bonds + [b])[..|bonds|] == bonds;
  }

  lemma {:induction false} PutAllOf(a: Npub, base: seq<Record>, bonds: seq<Bond>, now: Millis)
    ensures Of(a, PutAll(base, bonds, now)) == PutAll(Of(a, base), BondsOf(a, bonds), now)
  {
    if bonds != [] {
      hide Put, Of, Stamped, BondsOf, PutAll;
      var n := |bonds| - 1;
      PutAllOf(a, base, bonds[..n], now);
      assert bonds == bonds[..n] + [bonds[n]];
      PutAllStep(base, bonds[..n], bonds[n], now);
      PutOf(a, PutAll(base, bonds[..n], now), Stamped(bonds[n], now));
      BondsOfStep(a, bonds);
      if bonds[n].npub == a {
        PutAllStep(Of(a, base), BondsOf(a, bonds[..n]), bonds[n], now);
      }
    }
  }

  lemma {:induction false} PutAllClean(base: seq<Record>, bonds: seq<Bond>, now: Millis)
    requires Clean(base)
    ensures Clean(PutAll(base, bonds, now))
  {
    if bonds != [] {
      hide Put, DeserializeBond, SerializeBond;
      var n := |bonds| - 1;
      PutAllClean(base, bonds[..n], now);
      StampedIsSound(bonds[n], now);
      PutClean(PutAll(base, bonds[..n], now), Stamped(bonds[n], now));
    }
  }

  lemma StampedIsSound(b: Bond, now: Millis)
    ensures Sound(Stamped(b, now)) && DeserializeBond(Stamped(b, now)) == Some(Normal(b))
  {
    BondRoundTrip(b);
  }

  /** Over a clean list, carrying over is nothing but leaving out the arbiters just read. */
  lemma {:induction false} KeptIsFilter(prior: seq<Record>, at: Millis, named: set<Npub>, a: Npub)
    requires Clean(prior)
    ensures Clean(Kept(prior, at, named))
    ensures forall k :: Holds(Kept(prior, at, named), k) ==> Holds(prior, k)
    ensures Of(a, Kept(prior, at, named)) == if a in named then [] else Of(a, prior)
  {
    if prior != [] {
      hide DeserializeBond, Clean, Of, Holds, Put;
      var n := |prior| - 1;
      CleanPrefix(prior);
      KeptIsFilter(prior[..n], at, named, a);
      OfStep(a, prior);
      assert prior[n].(verifiedAt := Some(prior[n].verifiedAt.value)) == prior[n];
      if prior[n].npub !in named {
        var before := Kept(prior[..n], at, named);
        PutClean(before, prior[n]);
        AppendNew(a, before, prior[n]);
      }
    }
  }

  lemma CleanPrefix(list: seq<Record>)
    requires Clean(list) && list != []
    ensures var n := |list| - 1;
            && Clean(list[..n]) && Sound(list[n]) && !Holds(list[..n], KeyOf(list[n])) && Holds(list, KeyOf(list[n]))
            && forall k :: Holds(list[..n], k) ==> Holds(list, k)
  {
    hide DeserializeBond;
    assert Sound(list[|list| - 1]);
    assert KeyOf(list[|list| - 1]) == KeyOf(list[|list| - 1]);
  }

  lemma OfStep(a: Npub, list: seq<Record>)
    requires list != []
    ensures var n := |list| - 1;
            Of(a, list) == Of(a, list[..n]) + (if list[n].Record? && list[n].npub == a then [list[n]] else [])
  {
  }

  /** Setting a new key appends. */
  lemma AppendNew(a: Npub, list: seq<Record>, r: Record)
    requires r.Record? && !Holds(list, KeyOf(r))
    ensures Put(list, r) == list + [r] && Of(a, list + [r]) == Of(a, list) + (if r.npub == a then [r] else [])
  {
    assert (list + [r])[..|list|] == list;
  }

  lemma NamedBonds(a: Npub, bonds: seq<Bond>)
    ensures a in Named(bonds) <==> BondsOf(a, bonds) != []
  {
    CollectMembers(BondBy(a), bonds);
    if a in Named(bonds) {
      var b :| b in bonds && b.npub == a;
      assert BondBy(a)(b) == Some(b);
    }
    if BondsOf(a, bonds) != [] {
      assert BondsOf(a, bonds)[0] in BondsOf(a, bonds);
    }
  }

  /** After any history, each arbiter's records are those of the last write that named them, and nothing older
      beside it. */
  lemma {:induction false} LastReadWins(h: seq<Fetch>, a: Npub)
    ensures Clean(RecordsOf(CacheAfter(h)))
    ensures var f := LatestFor(a, h);
            Of(a, RecordsOf(CacheAfter(h))) == if f.None? then [] else PutAll([], BondsOf(a, f.value.bonds), f.value.at)
  {
    if h != [] {
      hide Clean, Of, Kept, PutAll, BondsOf, Named;
      var last := h[|h| - 1];
      LastReadWins(h[..|h| - 1], a);
      NamedBonds(a, last.bonds);
      if last.bonds == [] {
        NothingNamed(a);
      } else {
        WriteUpdates(CacheAfter(h[..|h| - 1]), last, a);
      }
    } else {
      assert Of(a, []) == [];
    }
  }

  lemma NothingNamed(a: Npub)
    ensures a !in Named([])
  {
  }

  lemma WriteUpdates(prior: Option<Entry>, f: Fetch, a: Npub)
    requires Clean(RecordsOf(prior))
    ensures var e := EntryAfter(prior, f.bonds, f.at);
            Clean(e.bonds)
                && Of(a, e.bonds) == if a in Named(f.bonds) then PutAll([], BondsOf(a, f.bonds), f.at)
                    else Of(a, RecordsOf(prior))
  {
    hide Clean, PutAll, BondsOf, Named;
    var named := Named(f.bonds);
    var base := if prior.None? then [] else Kept(prior.value.bonds, prior.value.verifiedAt, named);
    if prior.Some? {
      KeptIsFilter(prior.value.bonds, prior.value.verifiedAt, named, a);
    } else {
      assert Of(a, base) == [];
    }
    PutAllClean(base, f.bonds, f.at);
    PutAllOf(a, base, f.bonds, f.at);
    NamedBonds(a, f.bonds);
    NothingPut(Of(a, base), f.at);
  }

  lemma NothingPut(base: seq<Record>, now: Millis)
    ensures PutAll(base, [], now) == base
  {
  }

  // ── Reading it back ────────────────────────────────────────────────────────

  /** b is the last proof of its bond in this list. */
  predicate LastOf(b: Bond, bonds: seq<Bond>, i: nat)
  {
    && i < |bonds| && bonds[i] == b
    && forall j :: i < j < |bonds| ==> Key(bonds[j].npub, bonds[j].address) != Key(b.npub, b.address)
  }

  ghost predicate IsLast(b: Bond, bonds: seq<Bond>) { exists i: nat :: LastOf(b, bonds, i) }

  /** Setting a list of bonds leaves exactly the last proof of each. */
  lemma {:induction false} PutAllMembers(bonds: seq<Bond>, now: Millis, r: Record)
    ensures r in PutAll([], bonds, now) <==> exists b :: IsLast(b, bonds) && r == Stamped(b, now)
  {
    if bonds == [] {
      assert forall b :: !IsLast(b, bonds);
    } else {
      hide Stamped, IsLast, Put;
      var n := |bonds| - 1;
      var last := Stamped(bonds[n], now);
      PutAllMembers(bonds[..n], now, r);
      PutMembers(PutAll([], bonds[..n], now), last, r);
      PutAllRecords(bonds[..n], now);
      LastGrows(bonds);
      if b :| IsLast(b, bonds[..n]) && r == Stamped(b, now) && KeyOf(r) != KeyOf(last) {
        assert IsLast(b, bonds);
      }
      if b :| IsLast(b, bonds) && r == Stamped(b, now) {
        assert b == bonds[n] || (IsLast(b, bonds[..n]) && KeyOf(r) != KeyOf(last));
      }
    }
  }

  /** The last proofs of a longer list: the new bond, and the earlier ones it does not replace. */
  lemma LastGrows(bonds: seq<Bond>)
    requires bonds != []
    ensures var n := |bonds| - 1;
            forall b :: IsLast(b, bonds) <==>
                          || b == bonds[n]
                          || (IsLast(b, bonds[..n]) && Key(bonds[n].npub, bonds[n].address) != Key(b.npub, b.address))
  {
    var n := |bonds| - 1;
    assert LastOf(bonds[n], bonds, n);
    forall b
      ensures IsLast(b, bonds)
        <==> b == bonds[n] || (IsLast(b, bonds[..n]) && Key(bonds[n].npub, bonds[n].address) != Key(b.npub, b.address))
    {
      if i: nat :| LastOf(b, bonds, i) {
        assert i < n ==> LastOf(b, bonds[..n], i);
      }
      if IsLast(b, bonds[..n]) && Key(bonds[n].npub, bonds[n].address) != Key(b.npub, b.address) {
        var i: nat :| LastOf(b, bonds[..n], i);
        assert LastOf(b, bonds, i);
      }
    }
  }

  lemma {:induction false} PutAllRecords(bonds: seq<Bond>, now: Millis)
    ensures forall r :: r in PutAll([], bonds, now) ==> r.Record?
  {
    if bonds != [] {
      PutAllRecords(bonds[..|bonds| - 1], now);
    }
  }

  lemma PutMembers(list: seq<Record>, last: Record, r: Record)
    requires last.Record?
    ensures r in Put(list, last) <==> r == last || (r in list && (r.Garbage? || KeyOf(r) != KeyOf(last)))
  {
    var out := Put(list, last);
    if Holds(list, KeyOf(last)) {
      var i :| 0 <= i < |list| && list[i].Record? && KeyOf(list[i]) == KeyOf(last);
      assert out[i] == last;
      if r in list && (r.Garbage? || KeyOf(r) != KeyOf(last)) {
        var j :| 0 <= j < |list| && list[j] == r;
        assert out[j] == r;
      }
    } else {
      if r in list && r.Record? {
        var j :| 0 <= j < |list| && list[j] == r;
      }
    }
  }

  /** The bond was proved by the last write that named its arbiter, as the last proof of that bond in it. */
  ghost predicate Current(h: seq<Fetch>, b: Bond, at: Millis)
  {
    var f := LatestFor(b.npub, h);
    f.Some? && f.value.at == at && IsLast(b, BondsOf(b.npub, f.value.bonds))
  }

  lemma RecordsAreReadable(h: seq<Fetch>, e: Entry)
    requires CacheAfter(h) == Some(e)
    ensures forall s :: s in e.bonds ==> DeserializeBond(s).Some?
  {
    hide CacheAfter, DeserializeBond;
    LastReadWins(h, 0);
    forall s | s in e.bonds
      ensures DeserializeBond(s).Some?
    {
      var i :| 0 <= i < |e.bonds| && e.bonds[i] == s;
      assert Sound(e.bonds[i]);
    }
  }

  /** A usable record is a current bond in normal form, within its time to live. */
  lemma UsableIsCurrent(h: seq<Fetch>, e: Entry, now: Millis, allowStale: bool, s: Record)
    returns (c: Bond, at: Millis)
    requires CacheAfter(h) == Some(e) && s in e.bonds && Usable(e, now, allowStale)(s).Some?
    ensures Current(h, c, at) && (allowStale || now - at <= 43_200_000)
    ensures Usable(e, now, allowStale)(s) == Some(Normal(c))
  {
    hide CacheAfter, DeserializeBond, SerializeBond, Normal, Current;
    RecordIsCurrent(h, e, s);
    c, at :| Current(h, c, at) && s == Stamped(c, at);
    StampedIsSound(c, at);
  }

  lemma CurrentIsUsable(h: seq<Fetch>, e: Entry, now: Millis, allowStale: bool, c: Bond, at: Millis)
    requires CacheAfter(h) == Some(e) && Current(h, c, at) && (allowStale || now - at <= 43_200_000)
    ensures Stamped(c, at) in e.bonds && Usable(e, now, allowStale)(Stamped(c, at)) == Some(Normal(c))
  {
    hide CacheAfter, DeserializeBond, SerializeBond, Normal, Current;
    CurrentIsRecord(h, e, c, at);
    StampedIsSound(c, at);
  }

  /** A read returns exactly the current bonds still inside their time to live, each in normal form; nothing
      readable left means no answer. */
  lemma ReadIsCurrent(h: seq<Fetch>, now: Millis, allowStale: bool, b: Bond)
    requires CacheAfter(h).Some?
    ensures var r := ReadEntry(CacheAfter(h).value, now, allowStale);
            (r.Some? && b in r.value)
                <==> exists c, at :: Current(h, c, at) && (allowStale || now - at <= 43_200_000) && b == Normal(c)
  {
    hide CacheAfter, DeserializeBond, Normal, Current, Usable;
    var e := CacheAfter(h).value;
    RecordsAreReadable(h, e);
    CollectMembers(Usable(e, now, allowStale), e.bonds);
    var r := ReadEntry(e, now, allowStale);
    if r.Some? && b in r.value {
      var s :| s in e.bonds && Usable(e, now, allowStale)(s) == Some(b);
      var c, at := UsableIsCurrent(h, e, now, allowStale, s);
    }
    if c, at :| Current(h, c, at) && (allowStale || now - at <= 43_200_000) && b == Normal(c) {
      CurrentIsUsable(h, e, now, allowStale, c, at);
    }
  }

  lemma RecordIsCurrent(h: seq<Fetch>, e: Entry, s: Record)
    requires CacheAfter(h) == Some(e) && s in e.bonds
    ensures exists c, at :: Current(h, c, at) && s == Stamped(c, at)
  {
    hide CacheAfter, DeserializeBond, SerializeBond, PutAll;
    LastReadWins(h, 0);
    var i :| 0 <= i < |e.bonds| && e.bonds[i] == s;
    assert Sound(e.bonds[i]);
    var a := s.npub;
    LastReadWins(h, a);
    CollectMembers(RecordBy(a), e.bonds);
    assert RecordBy(a)(s) == Some(s) && s in Of(a, e.bonds);
    var f := LatestFor(a, h).value;
    PutAllMembers(BondsOf(a, f.bonds), f.at, s);
    var c :| IsLast(c, BondsOf(a, f.bonds)) && s == Stamped(c, f.at);
    assert Current(h, c, f.at);
  }

  lemma CurrentIsRecord(h: seq<Fetch>, e: Entry, c: Bond, at: Millis)
    requires CacheAfter(h) == Some(e) && Current(h, c, at)
    ensures Stamped(c, at) in e.bonds
  {
    hide CacheAfter, DeserializeBond, SerializeBond, PutAll;
    var a := c.npub;
    LastReadWins(h, a);
    var f := LatestFor(a, h).value;
    PutAllMembers(BondsOf(a, f.bonds), f.at, Stamped(c, at));
    CollectMembers(RecordBy(a), e.bonds);
    assert Stamped(c, at) in Of(a, e.bonds);
  }

  /** Two reads of one arbiter never coexist: all their records carry the same date. */
  lemma OneReadPerArbiter(h: seq<Fetch>, r: Record, s: Record)
    requires CacheAfter(h).Some? && r in CacheAfter(h).value.bonds && s in CacheAfter(h).value.bonds
    requires r.Record? && s.Record? && r.npub == s.npub
    ensures r.verifiedAt == s.verifiedAt
  {
    hide CacheAfter, SerializeBond, BondsOf, LatestFor;
    var e := CacheAfter(h).value;
    RecordIsCurrent(h, e, r);
    RecordIsCurrent(h, e, s);
  }

  // ── The cache as an object ─────────────────────────────────────────────────

  datatype Write = Write(community: Community, fetch: Fetch)

  function To(c: Community): Write -> Option<Fetch> { (w: Write) => if w.community == c then Some(w.fetch) else None }

  function HistoryOf(c: Community, ws: seq<Write>): seq<Fetch> { Collect(To(c), ws) }

  function Communities(ws: seq<Write>): set<Community> { set w | w in ws :: w.community }

  lemma AfterWrite(h: seq<Fetch>, f: Fetch)
    ensures CacheAfter(h + [f]) == if f.bonds == [] then CacheAfter(h)
        else Some(EntryAfter(CacheAfter(h), f.bonds, f.at))
  {
    assert (h + [f])[..|h|] == h;
  }

  lemma HistoryGrows(ws: seq<Write>, k: nat)
    requires k < |ws|
    ensures forall c ::
        HistoryOf(c, ws[..k + 1]) == if ws[k].community == c then HistoryOf(c, ws[..k]) + [ws[k].fetch]
            else HistoryOf(c, ws[..k])
  {
    forall c
      ensures HistoryOf(c, ws[..k + 1]) == if ws[k].community == c then HistoryOf(c, ws[..k]) + [ws[k].fetch]
          else HistoryOf(c, ws[..k])
    {
      assert HistoryOf(c, ws[..k]) + [] == HistoryOf(c, ws[..k]);
      CollectStep(To(c), ws, k);
    }
  }

  lemma AtFirst()
    ensures forall c :: CacheAfter(HistoryOf(c, [])) == None
  {
  }

  /** Within the community limit the object refines the history, community by community. */
  method Replay(ws: seq<Write>) returns (cache: Cache)
    requires |Communities(ws)| <= 50
    ensures forall c :: c != "" ==>
        CacheAfter(HistoryOf(c, ws)) == (if c in cache.store then Some(cache.store[c]) else None)
  {
    hide EntryAfter, CacheAfter, HistoryOf;
    AtFirst();
    cache := new Cache();
    for k := 0 to |ws|
      invariant "" !in cache.store && cache.store.Keys <= Communities(ws)
      invariant forall c :: c != "" ==>
          CacheAfter(HistoryOf(c, ws[..k])) == (if c in cache.store then Some(cache.store[c]) else None)
    {
      var w := ws[k];
      ghost var before := cache.store;
      HistoryGrows(ws, k);
      AfterWrite(HistoryOf(w.community, ws[..k]), w.fetch);
      assert w in ws && w.community in Communities(ws);
      cache.Write(w.community, w.fetch.bonds, w.fetch.at);
      if w.community != "" && w.fetch.bonds != [] {
        ghost var prior := if w.community in before then Some(before[w.community]) else None;
        ghost var full := before[w.community := EntryAfter(prior, w.fetch.bonds, w.fetch.at)];
        SubsetSize(full.Keys, Communities(ws));
        assert cache.store == full;
      }
    }
    assert ws[..|ws|] == ws;
  }
}
