/** Every interleaving of explorer requests under the launch gate: how rests follow one another. */
module Rests {
  import opened Prelude
  import opened Cooldown

  type Req = nat

  datatype Call = Call(host: Host, started: Millis)

  /** A rest of a host, and when the request that caused it was sent. */
  datatype Rest = Rest(host: Host, begin: Millis, end: Millis, cause: Millis)

  datatype Net = Net(clock: Millis, health: map<Host, Health>, inflight: map<Req, Call>, rests: seq<Rest>)

  /** What may happen to requests. A drop is an outcome that says nothing about the host. */
  datatype Event =
    | Launch(req: Req, host: Host, at: Millis)
    | Answer(req: Req, at: Millis)
    | Fail(req: Req, rateLimit: Option<Header>, at: Millis)
    | Drop(req: Req, at: Millis)

  predicate Cooling(s: Net, host: Host, now: Millis) { host in s.health && s.health[host].until > now }

  function LimitFor(rateLimit: Option<Header>, now: Millis): Limit
  {
    if rateLimit.None? then NotLimited else Cooldown.LimitOf(RetryAfterMs(rateLimit.value, now))
  }

  /** One event at a later time than any before it. */
  function Step(s: Net, ev: Event): Net
  {
    if ev.at <= s.clock then s
    else
      var t := s.(clock := ev.at);
      match ev
      case Launch(req, host, at) =>
        if req in s.inflight || Cooling(s, host, at) then t else t.(inflight := s.inflight[req := Call(host, at)])
      case Answer(req, at) =>
        if req !in s.inflight then t
        else
          var c := s.inflight[req];
          t.(inflight := s.inflight - {req},
             health := Store(s.health, c.host, AfterSuccess(Lookup(s.health, c.host), c.started)))
      case Fail(req, rateLimit, at) =>
        if req !in s.inflight then t
        else
          var c := s.inflight[req];
          var h, limit := Lookup(s.health, c.host), LimitFor(rateLimit, at);
          var after := AfterFailure(h, limit, at, c.started);
          t.(inflight := s.inflight - {req}, health := Store(s.health, c.host, after),
             rests := if !StartsRest(h, limit, c.started) then s.rests
                      else s.rests + [Rest(c.host, at, after.value.until, c.started)])
      case Drop(req, at) => t.(inflight := s.inflight - {req})
  }

  function Run(evs: seq<Event>): Net
  {
    if evs == [] then Net(0, map[], map[], []) else Step(Run(evs[..|evs| - 1]), evs[|evs| - 1])
  }

  // ── What every run keeps ───────────────────────────────────────────────────

  /** Rests last one to fifteen minutes and those of one host follow one another. */
  ghost predicate RestsInTurn(rests: seq<Rest>)
  {
    && (forall i :: 0 <= i < |rests| ==> 60_000 <= rests[i].end - rests[i].begin <= 900_000)
    && (forall i, j :: 0 <= i < j < |rests| && rests[i].host == rests[j].host ==> rests[i].end <= rests[j].begin)
  }

  predicate OutsideRest(c: Call, r: Rest) { c.host == r.host ==> c.started < r.begin || r.end <= c.started }

  /** A rest is over, or it is the one the host's record is about. */
  predicate OverOrCurrent(s: Net, r: Rest)
  {
    r.end <= s.clock
        || (r.host in s.health && s.health[r.host].restStarted == r.begin && s.health[r.host].until == r.end)
  }

  /** A rest the record no longer remembers was over before the last event. */
  predicate OverOrRemembered(s: Net, r: Rest)
  {
    r.end < s.clock || (r.host in s.health && s.health[r.host].restStarted >= r.begin)
  }

  ghost predicate Orderly(s: Net)
  {
    && s.clock >= 0 && RestsInTurn(s.rests)
    && (forall q :: q in s.inflight ==> 0 < s.inflight[q].started <= s.clock)
    && (forall h :: h in s.health ==> s.health[h].restStarted <= s.clock)
    && (forall i :: 0 <= i < |s.rests| ==> s.rests[i].begin <= s.clock && OverOrCurrent(s, s.rests[i]))
    && (forall q, i :: q in s.inflight && 0 <= i < |s.rests| ==> OutsideRest(s.inflight[q], s.rests[i]))
  }

  lemma LaunchKeepsOrder(s: Net, req: Req, host: Host, at: Millis)
    requires Orderly(s) && at > s.clock
    ensures Orderly(Step(s, Launch(req, host, at)))
  {
    hide RestsInTurn;
    var t := Step(s, Launch(req, host, at));
    forall q, i | q in t.inflight && 0 <= i < |t.rests|
      ensures OutsideRest(t.inflight[q], t.rests[i])
    {
      assert OverOrCurrent(s, s.rests[i]);
    }
    assert forall i :: 0 <= i < |s.rests| ==> OverOrCurrent(s, s.rests[i]);
  }

  /** A completion that counts comes from a request sent after every rest of its host. */
  lemma CountsAfterRests(s: Net, c: Call, i: nat)
    requires Orderly(s) && i < |s.rests| && s.rests[i].host == c.host && OutsideRest(c, s.rests[i])
    requires c.started <= s.clock && c.started >= Current(Lookup(s.health, c.host)).restStarted
    ensures s.rests[i].end <= s.clock
  {
    hide RestsInTurn;
    assert OverOrCurrent(s, s.rests[i]);
  }

  lemma AnswerKeepsOrder(s: Net, req: Req, at: Millis)
    requires Orderly(s) && at > s.clock
    ensures Orderly(Step(s, Answer(req, at)))
  {
    hide RestsInTurn;
    var t := Step(s, Answer(req, at));
    if req in s.inflight {
      var c := s.inflight[req];
      forall i | 0 <= i < |s.rests|
        ensures OverOrCurrent(t, s.rests[i])
      {
        assert OverOrCurrent(s, s.rests[i]) && OutsideRest(c, s.rests[i]);
        if s.rests[i].host == c.host && c.started >= Current(Lookup(s.health, c.host)).restStarted {
          CountsAfterRests(s, c, i);
        }
      }
    }
  }

  lemma FailKeepsOrder(s: Net, req: Req, rateLimit: Option<Header>, at: Millis)
    requires Orderly(s) && at > s.clock && req in s.inflight
    ensures Orderly(Step(s, Fail(req, rateLimit, at)))
  {
    hide RestLength;
    var t := Step(s, Fail(req, rateLimit, at));
    var c := s.inflight[req];
    var h, limit := Lookup(s.health, c.host), LimitFor(rateLimit, at);
    if StartsRest(h, limit, c.started) {
      RestIsBounded(limit, Current(h).coolings);
      var r := Rest(c.host, at, at + RestLength(limit, Current(h).coolings), c.started);
      assert t.rests == s.rests + [r];
      forall i | 0 <= i < |s.rests| && s.rests[i].host == c.host
        ensures s.rests[i].end <= s.clock
      {
        assert OutsideRest(c, s.rests[i]);
        CountsAfterRests(s, c, i);
      }
      forall i | 0 <= i < |s.rests|
        ensures OverOrCurrent(t, s.rests[i])
      {
        assert OverOrCurrent(s, s.rests[i]);
      }
    } else {
      forall i | 0 <= i < |s.rests|
        ensures OverOrCurrent(t, s.rests[i])
      {
        assert OverOrCurrent(s, s.rests[i]);
      }
    }
  }

  /** In every run with a strictly increasing clock, rests last one to fifteen minutes, rests of one host never
      overlap, and no request in flight was sent during one. */
  lemma {:induction false} RestsAreOrderly(evs: seq<Event>)
    ensures Orderly(Run(evs))
  {
    if evs != [] {
      var s, ev := Run(evs[..|evs| - 1]), evs[|evs| - 1];
      RestsAreOrderly(evs[..|evs| - 1]);
      StepKeepsOrder(s, ev);
    }
  }

  lemma StepKeepsOrder(s: Net, ev: Event)
    requires Orderly(s)
    ensures Orderly(Step(s, ev))
  {
    if ev.at > s.clock {
      match ev
      case Launch(req, host, at) => LaunchKeepsOrder(s, req, host, at);
      case Answer(req, at) => AnswerKeepsOrder(s, req, at);
      case Fail(req, rateLimit, at) =>
        if req in s.inflight {
          FailKeepsOrder(s, req, rateLimit, at);
        } else {
          AnswerKeepsOrder(s, req, at);
        }
      case Drop(req, at) => DropKeepsOrder(s, req, at);
    }
  }

  lemma DropKeepsOrder(s: Net, req: Req, at: Millis)
    requires Orderly(s) && at > s.clock
    ensures Orderly(Step(s, Drop(req, at)))
  {
    hide RestsInTurn;
    forall i | 0 <= i < |s.rests|
      ensures OverOrCurrent(Step(s, Drop(req, at)), s.rests[i])
    {
      assert OverOrCurrent(s, s.rests[i]);
    }
  }

  /** No request is launched while its host rests. */
  lemma GateHolds(evs: seq<Event>, req: Req, host: Host, at: Millis, i: nat)
    requires var s := Run(evs);
             at > s.clock && req !in s.inflight && req in Step(s, Launch(req, host, at)).inflight
    requires i < |Run(evs).rests| && Run(evs).rests[i].host == host
    ensures !(Run(evs).rests[i].begin <= at < Run(evs).rests[i].end)
  {
    hide RestsInTurn;
    RestsAreOrderly(evs);
    assert OverOrCurrent(Run(evs), Run(evs).rests[i]);
  }

  // ── One burst, one rest ────────────────────────────────────────────────────

  /** A completing request was sent at most d milliseconds ago. */
  predicate Settles(s: Net, ev: Event, d: int)
  {
    (ev.Answer? || ev.Fail?) && ev.req in s.inflight ==> ev.at - s.inflight[ev.req].started <= d
  }

  predicate PromptRun(evs: seq<Event>, d: int)
  {
    evs == [] || (PromptRun(evs[..|evs| - 1], d) && Settles(Run(evs[..|evs| - 1]), evs[|evs| - 1], d))
  }

  /** Each rest was caused by a request sent after every earlier rest of its host was over. */
  ghost predicate FreshCauses(rests: seq<Rest>)
  {
    forall i, j :: 0 <= i < j < |rests| && rests[i].host == rests[j].host ==> rests[i].end <= rests[j].cause
  }

  ghost predicate Mindful(s: Net) { forall i :: 0 <= i < |s.rests| ==> OverOrRemembered(s, s.rests[i]) }

  lemma StepStaysMindful(s: Net, ev: Event)
    requires Orderly(s) && Mindful(s)
    ensures Mindful(Step(s, ev))
  {
    hide RestsInTurn, RestLength;
    var t := Step(s, ev);
    if ev.at > s.clock {
      forall i | 0 <= i < |t.rests|
        ensures OverOrRemembered(t, t.rests[i])
      {
        if i < |s.rests| {
          assert t.rests[i] == s.rests[i] && OverOrRemembered(s, s.rests[i]);
          if ev.Answer? && ev.req in s.inflight {
            var c := s.inflight[ev.req];
            assert OutsideRest(c, s.rests[i]);
            if s.rests[i].host == c.host && c.started >= Current(Lookup(s.health, c.host)).restStarted {
              CountsAfterRests(s, c, i);
            }
          }
        }
      }
    }
  }

  lemma CauseIsFresh(s: Net, c: Call, at: Millis, i: nat)
    requires Orderly(s) && Mindful(s) && i < |s.rests| && s.rests[i].host == c.host && OutsideRest(c, s.rests[i])
    requires at > s.clock && at - c.started <= 60_002
    requires c.started >= Current(Lookup(s.health, c.host)).restStarted
    ensures s.rests[i].end <= c.started
  {
    assert OverOrRemembered(s, s.rests[i]);
    assert 60_000 <= s.rests[i].end - s.rests[i].begin;
  }

  lemma {:induction false} PromptCausesAreFresh(evs: seq<Event>, d: int)
    requires PromptRun(evs, d) && d <= 60_002
    ensures Mindful(Run(evs)) && FreshCauses(Run(evs).rests)
  {
    if evs != [] {
      hide Orderly, Mindful, PromptRun;
      var s, ev := Run(evs[..|evs| - 1]), evs[|evs| - 1];
      PromptStep(evs, d);
      PromptCausesAreFresh(evs[..|evs| - 1], d);
      RestsAreOrderly(evs[..|evs| - 1]);
      StepStaysMindful(s, ev);
      CausesStayFresh(s, ev, d);
    }
  }

  lemma PromptStep(evs: seq<Event>, d: int)
    requires PromptRun(evs, d) && evs != []
    ensures PromptRun(evs[..|evs| - 1], d) && Settles(Run(evs[..|evs| - 1]), evs[|evs| - 1], d)
  {
  }

  lemma CausesStayFresh(s: Net, ev: Event, d: int)
    requires Orderly(s) && Mindful(s) && FreshCauses(s.rests) && Settles(s, ev, d) && d <= 60_002
    ensures FreshCauses(Step(s, ev).rests)
  {
    hide RestLength, RestsInTurn;
    var t := Step(s, ev);
    if |t.rests| > |s.rests| {
      var c := s.inflight[ev.req];
      forall i | 0 <= i < |s.rests| && s.rests[i].host == c.host
        ensures s.rests[i].end <= c.started
      {
        assert OutsideRest(c, s.rests[i]);
        CauseIsFresh(s, c, ev.at, i);
      }
    }
  }

  /** A late completion neither lifts nor lengthens a rest: what was sent before the rest began leaves the record
      alone. */
  lemma StaleIsIgnored(s: Net, ev: Event)
    requires (ev.Answer? || ev.Fail?) && ev.req in s.inflight
    requires var c := s.inflight[ev.req]; c.host in s.health && c.started < s.health[c.host].restStarted
    ensures Step(s, ev).health == s.health && Step(s, ev).rests == s.rests
  {
  }

  /** Three milliseconds over the shortest rest are too many: a success after the rest clears the record, and a
      leftover of the old burst then starts a second rest. */
  lemma SlowBurstRestsTwice() returns (evs: seq<Event>)
    ensures PromptRun(evs, 60_003) && !FreshCauses(Run(evs).rests)
    ensures Run(evs).rests == [Rest(0, 3, 60_003, 1), Rest(0, 60_005, 120_005, 2)]
  {
    var limited := Some(Seconds(1));
    evs := [Launch(1, 0, 1), Launch(2, 0, 2), Fail(1, limited, 3), Launch(3, 0, 60_003), Answer(3, 60_004),
            Fail(2, limited, 60_005)];
    var s0 := Net(0, map[], map[], []);
    var s1 := Step(s0, evs[0]);
    var s2 := Step(s1, evs[1]);
    var s3 := Step(s2, evs[2]);
    assert s3.rests == [Rest(0, 3, 60_003, 1)] && s3.health == map[0 := Health(0, 1, 60_003, 3)];
    var s4 := Step(s3, evs[3]);
    var s5 := Step(s4, evs[4]);
    assert s5.health == map[] && s5.inflight == map[2 := Call(0, 2)];
    var s6 := Step(s5, evs[5]);
    assert s6.rests == [Rest(0, 3, 60_003, 1), Rest(0, 60_005, 120_005, 2)];
    assert s6.rests[0].end > s6.rests[1].cause;
    RunSix(evs, 60_003);
  }

  lemma RunSix(evs: seq<Event>, d: int)
    requires |evs| == 6
    ensures var s1 := Step(Net(0, map[], map[], []), evs[0]);
            var s2 := Step(s1, evs[1]);
            var s3 := Step(s2, evs[2]);
            var s4 := Step(s3, evs[3]);
            var s5 := Step(s4, evs[4]);
            && Run(evs) == Step(s5, evs[5])
            && PromptRun(evs, d)
               == (Settles(Net(0, map[], map[], []), evs[0], d) && Settles(s1, evs[1], d) && Settles(s2, evs[2], d)
                   && Settles(s3, evs[3], d) && Settles(s4, evs[4], d) && Settles(s5, evs[5], d))
  {
    hide Step, Settles;
    assert evs[..5][..4] == evs[..4] && evs[..4][..3] == evs[..3] && evs[..3][..2] == evs[..2]
        && evs[..2][..1] == evs[..1];
    assert evs[..1][..0] == [];
    assert Run(evs[..1]) == Step(Run([]), evs[0]);
    assert Run(evs[..2]) == Step(Run(evs[..1]), evs[1]);
    assert Run(evs[..3]) == Step(Run(evs[..2]), evs[2]);
    assert Run(evs[..4]) == Step(Run(evs[..3]), evs[3]);
    assert Run(evs[..5]) == Step(Run(evs[..4]), evs[4]);
    assert PromptRun(evs[..1], d) == Settles(Run([]), evs[0], d);
    assert PromptRun(evs[..2], d) == (PromptRun(evs[..1], d) && Settles(Run(evs[..1]), evs[1], d));
    assert PromptRun(evs[..3], d) == (PromptRun(evs[..2], d) && Settles(Run(evs[..2]), evs[2], d));
    assert PromptRun(evs[..4], d) == (PromptRun(evs[..3], d) && Settles(Run(evs[..3]), evs[3], d));
    assert PromptRun(evs[..5], d) == (PromptRun(evs[..4], d) && Settles(Run(evs[..4]), evs[4], d));
  }

  lemma {:induction false} MorePrompt(evs: seq<Event>, d: int, more: int)
    requires PromptRun(evs, d) && d <= more
    ensures PromptRun(evs, more)
  {
    if evs != [] {
      MorePrompt(evs[..|evs| - 1], d, more);
    }
  }

  /** One burst, one rest, and exactly how late a request may settle for it. If every request settles within d
      milliseconds, then in every run no request sent before the end of a rest causes a later rest of the same
      host, if and only if d is at most two milliseconds over the shortest rest. The fetcher aborts a request after
      eight seconds, or after the deadline its caller gives, so the failing runs need a longer deadline or a timer
      that was suspended. */
  lemma OneRestPerBurst(d: int)
    ensures (forall evs :: PromptRun(evs, d) ==> FreshCauses(Run(evs).rests)) <==> d <= 60_002
  {
    hide PromptRun, FreshCauses, Run;
    if d <= 60_002 {
      forall evs | PromptRun(evs, d)
        ensures FreshCauses(Run(evs).rests)
      {
        PromptCausesAreFresh(evs, d);
      }
    } else {
      var evs := SlowBurstRestsTwice();
      MorePrompt(evs, 60_003, d);
    }
  }
}
