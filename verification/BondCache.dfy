/** The cache of chain-verified bonds per community: what a write keeps, what a read returns. */
module BondCache {
  import opened Prelude

  type Npub = nat
  type Community = string
  type Millis = int

  const TTL_MS := 12 * 60 * 60 * 1000
  const MAX_COMMUNITIES := 50

  datatype Role = ArbiterRole | MerchantRole

  datatype Extras = Extras(lineage: Option<nat>, tenureFromHeight: Option<int>, lineageProven: Option<(nat, nat)>,
                           announcedAt: Option<int>)

  datatype Bond = Bond(event: nat, npub: Npub, community: Community, address: string, lockUntil: int,
                       actualSats: nat, claimedSats: nat, funded: bool, active: bool, roles: Option<seq<Role>>,
                       fundedAtHeight: Option<int>, fundingTxid: Option<string>,
                       ownerXonly: Option<string>, extras: Extras)

  /** A stored record; anything that does not have a record's shape is Garbage. */
  datatype Record =
    | Garbage
    | Record(event: nat, npub: Npub, community: Community, address: string, lockUntil: int,
             actualSats: string, claimedSats: string, funded: bool, active: bool, roles: Option<seq<Role>>,
             fundedAtHeight: Option<int>, fundingTxid: Option<string>,
             ownerXonly: Option<string>, extras: Extras, verifiedAt: Option<Millis>)

  // ── Decimal strings ────────────────────────────────────────────────────────

  const DIGITS := "0123456789"

  function Decimal(n: nat): (s: string)
    ensures s != []
  {
    if n < 10 then [DIGITS[n]] else Decimal(n / 10) + [DIGITS[n % 10]]
  }

  predicate IsDigit(c: char) { '0' <= c <= '9' }

  /** Reads decimal digits; the empty string reads as zero, anything else is refused. */
  function ParseDecimal(s: string): Option<nat>
  {
    if s == [] then Some(0)
    else
      var c, rest := s[|s| - 1], ParseDecimal(s[..|s| - 1]);
      if rest.None? || !IsDigit(c) then None else Some(10 * rest.value + (c as int - '0' as int))
  }

  lemma {:induction false} DecimalRoundTrip(n: nat)
    ensures ParseDecimal(Decimal(n)) == Some(n)
  {
    var s := Decimal(n);
    DigitReads(n % 10);
    if n >= 10 {
      DecimalRoundTrip(n / 10);
      assert s[..|s| - 1] == Decimal(n / 10);
    } else {
      assert s[..|s| - 1] == [];
    }
  }

  lemma DigitReads(d: nat)
    requires d < 10
    ensures IsDigit(DIGITS[d]) && DIGITS[d] as int - '0' as int == d
  {
  }

  // ── One record ─────────────────────────────────────────────────────────────

  function NonEmpty(s: Option<string>): Option<string> { if s == Some("") then None else s }

  function SerializeBond(b: Bond): (r: Record)
    ensures r.Record? && r.npub == b.npub && r.address == b.address
  {
    Record(b.event, b.npub, b.community, b.address, b.lockUntil, Decimal(b.actualSats), Decimal(b.claimedSats),
           b.funded, b.active, if b.roles == Some([]) then None else b.roles, b.fundedAtHeight, NonEmpty(b.fundingTxid),
           NonEmpty(b.ownerXonly), b.extras, None)
  }

  function DeserializeBond(r: Record): Option<Bond>
  {
    if r.Garbage? then None
    else
      var actual, claimed := ParseDecimal(r.actualSats), ParseDecimal(r.claimedSats);
      if actual.None? || claimed.None? then None
      else Some(Bond(r.event, r.npub, r.community, r.address, r.lockUntil, actual.value, claimed.value, r.funded,
                     r.active,
                     Some(if r.roles.Some? && r.roles.value != [] then r.roles.value else [ArbiterRole]),
                     r.fundedAtHeight, NonEmpty(r.fundingTxid), NonEmpty(r.ownerXonly), r.extras))
  }

  /** A bond as an announcement parses: with roles, and no empty strings. */
  predicate Canonical(b: Bond)
  {
    b.roles.Some? && b.roles.value != [] && b.fundingTxid != Some("") && b.ownerXonly != Some("")
  }

  /** What storing and reading back makes of a bond. */
  function Normal(b: Bond): Bond
  {
    b.(roles := Some(if b.roles.Some? && b.roles.value != [] then b.roles.value else [ArbiterRole]),
       fundingTxid := NonEmpty(b.fundingTxid), ownerXonly := NonEmpty(b.ownerXonly))
  }

  /** Every field survives, amounts of any size included, exactly for bonds in canonical form; for the rest,
      missing roles come back as the arbiter default and empty strings as absent. */
  lemma BondRoundTrip(b: Bond)
    ensures DeserializeBond(SerializeBond(b)) == Some(Normal(b))
    ensures DeserializeBond(SerializeBond(b)) == Some(b) <==> Canonical(b)
  {
    DecimalRoundTrip(b.actualSats);
    DecimalRoundTrip(b.claimedSats);
  }

  // ── A map in insertion order ───────────────────────────────────────────────

  datatype Key = Key(npub: Npub, address: string)

  function KeyOf(r: Record): Key
    requires r.Record?
  {
    Key(r.npub, r.address)
  }

  predicate Holds(list: seq<Record>, k: Key) { exists i :: 0 <= i < |list| && list[i].Record? && KeyOf(list[i]) == k }

  /** Setting a key keeps its place if it has one, and appends otherwise. */
  function Put(list: seq<Record>, r: Record): seq<Record>
    requires r.Record?
  {
    if Holds(list, KeyOf(r)) then Replace(list, r) else list + [r]
  }

  function Replace(list: seq<Record>, r: Record): seq<Record>
    requires r.Record?
  {
    seq(|list|, i requires 0 <= i < |list| => if list[i].Record? && KeyOf(list[i]) == KeyOf(r) then r else list[i])
  }

  function Stamped(b: Bond, now: Millis): (r: Record)
    ensures r.Record? && KeyOf(r) == Key(b.npub, b.address) && r.verifiedAt == Some(now)
  {
    var r := SerializeBond(b);
    r.(verifiedAt := Some(now))
  }

  /** Sets every bond of a read, in order: a bond listed twice keeps its last proof. */
  function PutAll(base: seq<Record>, bonds: seq<Bond>, now: Millis): seq<Record>
  {
    if bonds == [] then base else Put(PutAll(base, bonds[..|bonds| - 1], now), Stamped(bonds[|bonds| - 1], now))
  }

  function Named(bonds: seq<Bond>): set<Npub> { set b | b in bonds :: b.npub }

  /** The records carried over: readable, and of arbiters this read does not name. */
  function Kept(prior: seq<Record>, at: Millis, named: set<Npub>): seq<Record>
  {
    if prior == [] then []
    else
      var before, last := Kept(prior[..|prior| - 1], at, named), prior[|prior| - 1];
      if last.Garbage? || last.npub in named || DeserializeBond(last).None? then before
      else Put(before, last.(verifiedAt := Some(if last.verifiedAt.Some? then last.verifiedAt.value else at)))
  }

  /** Whatever is carried over can be read, is dated, and belongs to an arbiter the read does not name. */
  lemma {:induction false} KeptIsReadable(prior: seq<Record>, at: Millis, named: set<Npub>)
    ensures forall r :: r in Kept(prior, at, named) ==>
              r.Record? && DeserializeBond(r).Some? && r.verifiedAt.Some? && r.npub !in named
  {
    if prior != [] {
      KeptIsReadable(prior[..|prior| - 1], at, named);
    }
  }

  datatype Entry = Entry(verifiedAt: Millis, bonds: seq<Record>)

  function EntryAfter(prior: Option<Entry>, bonds: seq<Bond>, now: Millis): Entry
  {
    var base := if prior.None? then [] else Kept(prior.value.bonds, prior.value.verifiedAt, Named(bonds));
    Entry(now, PutAll(base, bonds, now))
  }

  // ── The cache ──────────────────────────────────────────────────────────────

  predicate IsFresh(r: Record, e: Entry, now: Millis)
    requires r.Record?
  {
    now - (if r.verifiedAt.Some? then r.verifiedAt.value else e.verifiedAt) <= TTL_MS
  }

  function Usable(e: Entry, now: Millis, allowStale: bool): Record -> Option<Bond>
  {
    (r: Record) => if r.Record? && (allowStale || IsFresh(r, e, now)) then DeserializeBond(r) else None
  }

  function ReadEntry(e: Entry, now: Millis, allowStale: bool): Option<seq<Bond>>
  {
    var bonds := Collect(Usable(e, now, allowStale), e.bonds);
    if (exists r :: r in e.bonds && DeserializeBond(r).None?) || bonds == [] then None else Some(bonds)
  }

  lemma ReadableIsRecord(r: Record)
    ensures DeserializeBond(r).Some? ==> r.Record?
  {
  }

  /** The record was verified no more than twelve hours before `now`, by its own time or else by its entry's. */
  predicate VerifiedLately(e: Entry, r: Record, now: Millis)
  {
    && r.Record?
    && (r.verifiedAt.Some? ==> now - r.verifiedAt.value <= 43_200_000)
    && (r.verifiedAt.None? ==> now - e.verifiedAt <= 43_200_000)
  }

  /** A read of an entry gives something exactly when every record in it can be read and one of them at least is fresh
      or may be stale; it then gives every such record's bond. */
  lemma EntryIsRead(e: Entry, now: Millis, allowStale: bool)
    ensures ReadEntry(e, now, allowStale).Some?
            <==> && (forall r :: r in e.bonds ==> DeserializeBond(r).Some?)
                 && exists r :: r in e.bonds && r.Record? && (allowStale || VerifiedLately(e, r, now))
    ensures ReadEntry(e, now, allowStale).Some? ==>
              forall b :: b in ReadEntry(e, now, allowStale).value
                <==> exists r :: r in e.bonds && r.Record? && (allowStale || VerifiedLately(e, r, now))
                                 && DeserializeBond(r) == Some(b)
  {
    hide DeserializeBond;
    CollectMembers(Usable(e, now, allowStale), e.bonds);
    var bonds := Collect(Usable(e, now, allowStale), e.bonds);
    if bonds != [] {
      assert bonds[0] in bonds;
    }
  }

  /** Roles are never stored as an empty list, and a record without any reads as the arbiter's. */
  lemma RolesDefault(b: Bond, r: Record)
    ensures SerializeBond(b).roles != Some([]) && (b.roles != Some([]) ==> SerializeBond(b).roles == b.roles)
    ensures r.Record? && (r.roles == None || r.roles == Some([])) && DeserializeBond(r).Some? ==>
              DeserializeBond(r).value.roles == Some([ArbiterRole])
  {
  }

  /** No community kept is older than one evicted. */
  ghost predicate EvictsOldest(before: map<Community, Entry>, after: map<Community, Entry>)
  {
    && (forall c :: c in after ==> c in before && after[c] == before[c])
    && (forall c, d :: c in before && c !in after && d in after ==> before[c].verifiedAt <= after[d].verifiedAt)
    && (if |before| <= 50 then after == before else |after| == 50)
  }

  lemma {:induction false} OldestExists(store: map<Community, Entry>, among: set<Community>) returns (c: Community)
    requires among != {} && among <= store.Keys
    ensures c in among && forall d :: d in among ==> store[c].verifiedAt <= store[d].verifiedAt
    decreases among
  {
    c :| c in among;
    if among != {c} {
      var d := OldestExists(store, among - {c});
      if store[d].verifiedAt <= store[c].verifiedAt {
        c := d;
      }
    }
  }

  class Cache {
    var store: map<Community, Entry>

    constructor ()
      ensures store == map[]
    {
      store := map[];
    }

    /** Drops the oldest communities beyond the limit. */
    method Save(full: map<Community, Entry>)
      modifies this
      ensures EvictsOldest(full, store)
    {
      store := full;
      while |store| > MAX_COMMUNITIES
        invariant forall c :: c in store ==> c in full && store[c] == full[c]
        invariant forall c, d :: c in full && c !in store && d in store ==> full[c].verifiedAt <= store[d].verifiedAt
        invariant if |full| <= MAX_COMMUNITIES then store == full else |store| >= MAX_COMMUNITIES
        decreases |store|
      {
        ghost var oldest := OldestExists(store, store.Keys);
        var c :| c in store && forall d :: d in store ==> store[c].verifiedAt <= store[d].verifiedAt;
        ghost var before := store;
        store := store - {c};
        assert store.Keys == before.Keys - {c};
      }
    }

    /** Records a successful read; an empty one is never written. */
    method Write(community: Community, bonds: seq<Bond>, now: Millis)
      modifies this
      ensures community == "" || bonds == [] ==> store == old(store)
      ensures community != "" && bonds != [] ==>
                var prior := if community in old(store) then Some(old(store)[community]) else None;
                EvictsOldest(old(store)[community := EntryAfter(prior, bonds, now)], store)
    {
      hide DeserializeBond, SerializeBond, EvictsOldest, Put, Replace, Holds, Stamped;
      if community == "" || bonds == [] {
        return;
      }
      var byBond: seq<Record> := [];
      var named := set b | b in bonds :: b.npub;
      if community in store {
        var prior := store[community];
        for i := 0 to |prior.bonds|
          invariant byBond == Kept(prior.bonds[..i], prior.verifiedAt, named)
          invariant store == old(store)
        {
          var r := prior.bonds[i];
          assert prior.bonds[..i + 1][..i] == prior.bonds[..i];
          if r.Record? && r.npub in named {
            continue;
          }
          ReadableIsRecord(r);
          if DeserializeBond(r).Some? {
            byBond := Put(byBond,
                          r.(verifiedAt := Some(if r.verifiedAt.Some? then r.verifiedAt.value else prior.verifiedAt)));
          }
        }
        assert prior.bonds[..|prior.bonds|] == prior.bonds;
      }
      ghost var base := byBond;
      for i := 0 to |bonds|
        invariant byBond == PutAll(base, bonds[..i], now)
        invariant store == old(store)
      {
        assert bonds[..i + 1][..i] == bonds[..i];
        byBond := Put(byBond, Stamped(bonds[i], now));
      }
      assert bonds[..|bonds|] == bonds;
      Save(store[community := Entry(now, byBond)]);
    }

    method Read(community: Community, now: Millis, allowStale: bool) returns (r: Option<seq<Bond>>)
      ensures r == if community in store then ReadEntry(store[community], now, allowStale) else None
    {
      if community !in store {
        return None;
      }
      var entry := store[community];
      var bonds: seq<Bond> := [];
      for i := 0 to |entry.bonds|
        invariant bonds == Collect(Usable(entry, now, allowStale), entry.bonds[..i])
        invariant forall k :: 0 <= k < i ==> DeserializeBond(entry.bonds[k]).Some?
      {
        var s := entry.bonds[i];
        CollectStep(Usable(entry, now, allowStale), entry.bonds, i);
        var b := DeserializeBond(s);
        if b.None? {
          return None;
        }
        if allowStale || IsFresh(s, entry, now) {
          bonds := bonds + [b.value];
        }
      }
      assert entry.bonds[..|entry.bonds|] == entry.bonds;
      r := if |bonds| > 0 then Some(bonds) else None;
    }
  }
}
