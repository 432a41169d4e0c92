/** Leaving a failing block explorer alone for a while: the health record kept per host. */
module Cooldown {
  import opened Prelude

  type Host = nat
  type Millis = int

  const FAILURE_STREAK := 3
  const COOLDOWN_MIN_MS := 60_000
  const COOLDOWN_MAX_MS := 15 * 60_000
  const DEFAULT_COOLDOWN_MS := 5 * 60_000

  datatype Health = Health(failures: nat, coolings: nat, until: Millis, restStarted: Millis)

  /** A Retry-After header: seconds, a date, or nothing that can be read. */
  datatype Header = Seconds(s: int) | Date(at: Millis) | Unreadable

  /** The stated wait when it lies between one and fifteen minutes, and else the nearer of the two. */
  function RetryAfterMs(h: Header, now: Millis): (r: Option<int>)
    ensures r.None? <==> h.Unreadable?
    ensures r.Some? ==> 60_000 <= r.value <= 900_000
    ensures h.Seconds? && 60 <= h.s <= 900 ==> r == Some(1000 * h.s)
    ensures h.Date? && 60_000 <= h.at - now <= 900_000 ==> r == Some(h.at - now)
    ensures (h.Seconds? && h.s < 60) || (h.Date? && h.at - now < 60_000) ==> r == Some(60_000)
    ensures (h.Seconds? && h.s > 900) || (h.Date? && h.at - now > 900_000) ==> r == Some(900_000)
  {
    match h
    case Unreadable => None
    case Seconds(s) => Some(Min(COOLDOWN_MAX_MS, Max(COOLDOWN_MIN_MS, s * 1000)))
    case Date(at) => Some(Min(COOLDOWN_MAX_MS, Max(COOLDOWN_MIN_MS, at - now)))
  }

  /** How a failure was limited: not at all, by the host without a term, or for a term. */
  datatype Limit = NotLimited | NoTerm | ForMs(ms: int)

  function LimitOf(retryAfter: Option<int>): Limit { if retryAfter.None? then NoTerm else ForMs(retryAfter.value) }

  function Pow2(k: nat): nat { if k == 0 then 1 else 2 * Pow2(k - 1) }

  lemma {:induction false} Pow2Positive(k: nat)
    ensures Pow2(k) >= 1
  {
    if k > 0 {
      Pow2Positive(k - 1);
    }
  }

  function RestLength(limit: Limit, coolings: nat): int
  {
    match limit
    case ForMs(ms) => ms
    case NoTerm => DEFAULT_COOLDOWN_MS
    case NotLimited => Min(COOLDOWN_MAX_MS, COOLDOWN_MIN_MS * Pow2(coolings))
  }

  /** A rest lasts between one and fifteen minutes, provided a stated term does. */
  lemma RestIsBounded(limit: Limit, coolings: nat)
    requires limit.ForMs? ==> 60_000 <= limit.ms <= 900_000
    ensures 60_000 <= RestLength(limit, coolings) <= 900_000
  {
    Pow2Positive(coolings);
  }

  /** How long a rest is: as long as the host says, five minutes when it names no term, and for failures of our own
      counting a minute that doubles with every rest so far up to fifteen. */
  lemma RestDoubles(ms: int, coolings: nat)
    ensures RestLength(ForMs(ms), coolings) == ms && RestLength(NoTerm, coolings) == 300_000
    ensures RestLength(NotLimited, 0) == 60_000
    ensures RestLength(NotLimited, coolings + 1) == Min(900_000, 2 * RestLength(NotLimited, coolings))
  {
    Pow2Positive(coolings);
  }

  const UNKNOWN := Health(0, 0, 0, 0)

  function Current(h: Option<Health>): Health { if h.Some? then h.value else UNKNOWN }

  /** Does this failure start a rest? */
  predicate StartsRest(h: Option<Health>, limit: Limit, started: Millis)
  {
    started >= Current(h).restStarted && (limit != NotLimited || Current(h).failures + 1 >= FAILURE_STREAK)
  }

  function AfterFailure(h: Option<Health>, limit: Limit, now: Millis, started: Millis): Option<Health>
  {
    var x := Current(h);
    if started < x.restStarted then h
    else if StartsRest(h, limit, started) then Some(Health(0, x.coolings + 1, now + RestLength(limit, x.coolings), now))
    else Some(x.(failures := x.failures + 1))
  }

  function AfterSuccess(h: Option<Health>, started: Millis): Option<Health>
  {
    if h.Some? && started < h.value.restStarted then h else None
  }

  /** What a failure does to a host: one sent before its current rest nothing; a limited one, or the third in a row,
      starts a rest and counts it; any other is counted towards the three. */
  lemma FailureIsCounted(h: Option<Health>, limit: Limit, now: Millis, started: Millis)
    ensures h.Some? && started < h.value.restStarted ==> AfterFailure(h, limit, now, started) == h
    ensures var x := if h.Some? then h.value else Health(0, 0, 0, 0);
            started >= x.restStarted ==>
              var y := AfterFailure(h, limit, now, started);
              && y.Some?
              && if limit != NotLimited || x.failures >= 2 then
                   && y.value.failures == 0 && y.value.coolings == x.coolings + 1 && y.value.restStarted == now
                   && y.value.until == now + RestLength(limit, x.coolings)
                   && StartsRest(h, limit, started)
                 else
                   && y.value.failures == x.failures + 1 && y.value.coolings == x.coolings
                   && y.value.restStarted == x.restStarted && y.value.until == x.until
                   && !StartsRest(h, limit, started)
    ensures h.Some? && started < h.value.restStarted ==> !StartsRest(h, limit, started)
  {
  }

  /** A success clears a host's record unless it was sent before the current rest. */
  lemma SuccessClears(h: Option<Health>, started: Millis)
    ensures AfterSuccess(h, started) == None <==> h.None? || started >= h.value.restStarted
    ensures h.Some? && started < h.value.restStarted ==> AfterSuccess(h, started) == h
  {
  }

  function Lookup(m: map<Host, Health>, host: Host): Option<Health> { if host in m then Some(m[host]) else None }

  function Store(m: map<Host, Health>, host: Host, h: Option<Health>): map<Host, Health>
  {
    if h.Some? then m[host := h.value] else m - {host}
  }

  class ExplorerHealth {
    var health: map<Host, Health>

    constructor ()
      ensures health == map[]
    {
      health := map[];
    }

    /** The end of the host's rest while it lasts; zero once requests may go out. */
    function CoolingUntil(host: Host, now: Millis): (until: Millis)
      reads this
      ensures until != 0 ==> until > now && host in health && until == health[host].until
      ensures host in health && health[host].until > now ==> until == health[host].until
    {
      var until := if host in health then health[host].until else 0;
      if until > now then until else 0
    }

    method NoteSuccess(host: Host, started: Millis)
      modifies this
      ensures health == Store(old(health), host, AfterSuccess(Lookup(old(health), host), started))
      ensures host in old(health) && started < old(health)[host].restStarted ==> health == old(health)
    {
      if host !in health {
        assert health - {host} == health;
        return;
      }
      if started < health[host].restStarted {
        return;
      }
      health := health - {host};
    }

    method NoteFailure(host: Host, limit: Limit, now: Millis, started: Millis)
      modifies this
      ensures started >= Current(Lookup(old(health), host)).restStarted ==>
                health == Store(old(health), host, AfterFailure(Lookup(old(health), host), limit, now, started))
      ensures started < Current(Lookup(old(health), host)).restStarted ==> health == old(health)
    {
      var h := if host in health then health[host] else Health(0, 0, 0, 0);
      if started < h.restStarted {
        return;
      }
      h := h.(failures := h.failures + 1);
      if limit != NotLimited || h.failures >= FAILURE_STREAK {
        h := Health(0, h.coolings + 1, now + RestLength(limit, h.coolings), now);
      }
      health := health[host := h];
    }

    /** Clears every record, as when the device reconnects. */
    method Reset()
      modifies this
      ensures health == map[]
    {
      health := map[];
    }
  }
}
