// The token bucket in front of GET /api/keepers, and the timer that forgets idle clients.
module RateLimiter {
  const KEEPERS_RATE_PER_MIN: real := 30.0
  const BUCKET_TTL_MS: int := 60 * 60 * 1000

  datatype Bucket = Bucket(tokens: real, updated: int)

  type Buckets = map<string, Bucket>

  function Min(a: real, b: real): real {
    if a <= b then a else b
  }

  function Earned(elapsedMs: int): real {
    elapsedMs as real * KEEPERS_RATE_PER_MIN / 60000.0
  }

  function Refill(b: Bucket, now: int): real {
    Min(KEEPERS_RATE_PER_MIN, b.tokens + Earned(now - b.updated))
  }

  function Found(m: Buckets, ip: string, now: int): Bucket {
    if ip in m then m[ip] else Bucket(KEEPERS_RATE_PER_MIN, now)
  }

  function Admits(m: Buckets, ip: string, now: int): bool {
    Refill(Found(m, ip, now), now) >= 1.0
  }

  function AfterRequest(m: Buckets, ip: string, now: int): Buckets {
    var tokens := Refill(Found(m, ip, now), now);
    m[ip := Bucket(if tokens < 1.0 then tokens else tokens - 1.0, now)]
  }

  function AfterSweep(m: Buckets, now: int): Buckets {
    map ip | ip in m && m[ip].updated >= now - BUCKET_TTL_MS :: m[ip]
  }

  class Limiter {
    var keepersBuckets: Buckets

    constructor ()
      ensures keepersBuckets == map[]
    {
      keepersBuckets := map[];
    }

    // keepersRateLimit: true calls next, false answers 429
    method KeepersRateLimit(ip: string, now: int) returns (admitted: bool)
      modifies this
      ensures admitted == Admits(old(keepersBuckets), ip, now)
      ensures keepersBuckets == AfterRequest(old(keepersBuckets), ip, now)
    {
      if ip !in keepersBuckets {
        keepersBuckets := keepersBuckets[ip := Bucket(KEEPERS_RATE_PER_MIN, now)];
      }
      var elapsedMs := now - keepersBuckets[ip].updated;
      var tokens := Min(KEEPERS_RATE_PER_MIN, keepersBuckets[ip].tokens + Earned(elapsedMs));
      keepersBuckets := keepersBuckets[ip := Bucket(tokens, now)];
      if tokens < 1.0 {
        return false;
      }
      keepersBuckets := keepersBuckets[ip := keepersBuckets[ip].(tokens := tokens - 1.0)];
      return true;
    }

    // The interval callback
    method SweepBuckets(now: int)
      modifies this
      ensures keepersBuckets == AfterSweep(old(keepersBuckets), now)
      ensures forall ip :: ip in keepersBuckets <==>
        ip in old(keepersBuckets) && now - old(keepersBuckets)[ip].updated <= 3600000
    {
      var cutoff := now - BUCKET_TTL_MS;
      var remaining := keepersBuckets.Keys;
      ghost var before := keepersBuckets;
      while remaining != {}
        invariant remaining <= before.Keys
        invariant keepersBuckets == map ip | ip in before && (ip in remaining || before[ip].updated >= cutoff) :: before[ip]
        decreases remaining
      {
        var ip :| ip in remaining;
        if keepersBuckets[ip].updated < cutoff {
          keepersBuckets := keepersBuckets - {ip};
        }
        remaining := remaining - {ip};
      }
    }
  }

  datatype Event = Request(ip: string, now: int) | Sweep(now: int)

  function Step(m: Buckets, e: Event): Buckets {
    match e
    case Request(ip, now) => AfterRequest(m, ip, now)
    case Sweep(now) => AfterSweep(m, now)
  }

  // The decisions of a run, in order
  function Decisions(m: Buckets, events: seq<Event>): seq<bool>
    decreases |events|
  {
    if events == [] then []
    else
      var first := if events[0].Request? then [Admits(m, events[0].ip, events[0].now)] else [];
      first + Decisions(Step(m, events[0]), events[1..])
  }

  function Final(m: Buckets, events: seq<Event>): Buckets
    decreases |events|
  {
    if events == [] then m else Final(Step(m, events[0]), events[1..])
  }

  function Requests(events: seq<Event>): (r: seq<Event>)
    ensures forall i :: 0 <= i < |r| ==> r[i].Request?
  {
    if events == [] then []
    else if events[0].Request? then [events[0]] + Requests(events[1..])
    else Requests(events[1..])
  }

  // What the clients see: one answer for each request

  datatype Answer = Answer(ip: string, now: int, admitted: bool)

  function Answered(requests: seq<Event>, decisions: seq<bool>): seq<Answer>
    requires |requests| == |decisions| && forall i :: 0 <= i < |requests| ==> requests[i].Request?
  {
    if requests == [] then []
    else [Answer(requests[0].ip, requests[0].now, decisions[0])] + Answered(requests[1..], decisions[1..])
  }

  function Answers(m: Buckets, events: seq<Event>): seq<Answer> {
    AsManyDecisions(m, events);
    Answered(Requests(events), Decisions(m, events))
  }

  lemma {:induction false} AsManyDecisions(m: Buckets, events: seq<Event>)
    ensures |Decisions(m, events)| == |Requests(events)|
    decreases |events|
  {
    if events != [] { AsManyDecisions(Step(m, events[0]), events[1..]); }
  }

  // How often a client was admitted
  function Count(log: seq<Answer>, ip: string): nat {
    if log == [] then 0
    else Count(log[..|log| - 1], ip) + (if log[|log| - 1].ip == ip && log[|log| - 1].admitted then 1 else 0)
  }

  lemma AnswersFirst(m: Buckets, events: seq<Event>)
    requires events != []
    ensures var e, rest := events[0], Answers(Step(m, events[0]), events[1..]);
      Answers(m, events) == if e.Request? then [Answer(e.ip, e.now, Admits(m, e.ip, e.now))] + rest else rest
  {
    hide Step, Admits;
    var e, rest := events[0], events[1..];
    AsManyDecisions(Step(m, e), rest);
    assert Decisions(m, events) == (if e.Request? then [Admits(m, e.ip, e.now)] else []) + Decisions(Step(m, e), rest);
    if e.Request? {
      assert Requests(events) == [e] + Requests(rest);
      assert Requests(events)[1..] == Requests(rest) && Decisions(m, events)[1..] == Decisions(Step(m, e), rest);
    } else {
      assert Requests(events) == Requests(rest) && Decisions(m, events) == Decisions(Step(m, e), rest);
    }
  }

  // The clock never runs backwards.
  ghost predicate Monotone(events: seq<Event>, start: int) {
    events == [] || (start <= events[0].now && Monotone(events[1..], events[0].now))
  }

  ghost predicate Sound(m: Buckets, now: int) {
    forall ip :: ip in m ==> 0.0 <= m[ip].tokens <= KEEPERS_RATE_PER_MIN && m[ip].updated <= now
  }

  lemma IdleIsFull(b: Bucket, now: int)
    requires 0.0 <= b.tokens && b.updated <= now - BUCKET_TTL_MS
    ensures Refill(b, now) == KEEPERS_RATE_PER_MIN
  {}

  lemma StepSound(m: Buckets, e: Event, start: int)
    requires Sound(m, start) && start <= e.now
    ensures Sound(Step(m, e), e.now)
  {}

  // n is what the map would be without sweeps: it also remembers idle clients.
  ghost predicate Forgets(m: Buckets, n: Buckets, now: int) {
    && (forall ip :: ip in m ==> ip in n && n[ip] == m[ip])
    && (forall ip :: ip in n && ip !in m ==> n[ip].updated < now - BUCKET_TTL_MS)
  }

  lemma SameLookup(m: Buckets, n: Buckets, start: int, ip: string, now: int)
    requires Sound(n, start) && Forgets(m, n, start) && start <= now
    ensures Refill(Found(m, ip, now), now) == Refill(Found(n, ip, now), now)
  {
    if ip in n && ip !in m {
      IdleIsFull(n[ip], now);
    }
  }

  // Forgetting idle clients is invisible: with and without sweeps the decisions are the same.
  lemma {:induction false} EvictionInvisibleFrom(m: Buckets, n: Buckets, events: seq<Event>, start: int)
    requires Sound(n, start) && Forgets(m, n, start) && Monotone(events, start)
    ensures Decisions(m, events) == Decisions(n, Requests(events))
    decreases |events|
  {
    if events != [] {
      var e, rest := events[0], events[1..];
      if e.Request? {
        SameLookup(m, n, start, e.ip, e.now);
        StepSound(n, e, start);
        EvictionInvisibleFrom(Step(m, e), Step(n, e), rest, e.now);
        assert Requests(events)[0] == e && Requests(events)[1..] == Requests(rest);
      } else {
        EvictionInvisibleFrom(Step(m, e), n, rest, e.now);
        assert Requests(events) == Requests(rest);
      }
    }
  }

  lemma EvictionInvisible(events: seq<Event>, start: int)
    requires Monotone(events, start)
    ensures Decisions(map[], events) == Decisions(map[], Requests(events))
  {
    EvictionInvisibleFrom(map[], map[], events, start);
  }

  // How many requests of one client a run admits
  function Admitted(m: Buckets, events: seq<Event>, ip: string): nat {
    Count(Answers(m, events), ip)
  }

  lemma {:induction false} CountFirst(first: Answer, log: seq<Answer>, ip: string)
    ensures Count([first] + log, ip) == (if first.ip == ip && first.admitted then 1 else 0) + Count(log, ip)
  {
    if log == [] {
      assert [first] + log == [first] && [first][..0] == [];
    } else {
      var n := |log| - 1;
      CountFirst(first, log[..n], ip);
      assert ([first] + log)[..n + 1] == [first] + log[..n];
    }
  }

  lemma AdmittedFirst(m: Buckets, events: seq<Event>, ip: string)
    requires events != []
    ensures Admitted(m, events, ip) == Admitted(Step(m, events[0]), events[1..], ip)
      + (if events[0].Request? && events[0].ip == ip && Admits(m, ip, events[0].now) then 1 else 0)
  {
    hide Answers, Count, Step, Admits;
    AnswersFirst(m, events);
    var e := events[0];
    if e.Request? {
      CountFirst(Answer(e.ip, e.now, Admits(m, e.ip, e.now)), Answers(Step(m, e), events[1..]), ip);
    }
  }

  function Level(m: Buckets, ip: string, now: int): real {
    Refill(Found(m, ip, now), now)
  }

  lemma LevelGrows(m: Buckets, ip: string, start: int, now: int)
    requires start <= now
    ensures Level(m, ip, now) <= Level(m, ip, start) + Earned(now - start)
  {
    assert Earned(now - start) >= 0.0;
    if ip in m {
      assert Earned(now - m[ip].updated) == Earned(start - m[ip].updated) + Earned(now - start);
    }
  }

  lemma LevelAfterStep(m: Buckets, e: Event, ip: string, start: int)
    requires Sound(m, start) && start <= e.now
    ensures Level(Step(m, e), ip, e.now)
         == Level(m, ip, e.now) - (if e.Request? && e.ip == ip && Admits(m, ip, e.now) then 1.0 else 0.0)
    ensures Level(m, ip, e.now) >= 0.0
  {
    if e.Sweep? && ip in m && ip !in Step(m, e) {
      IdleIsFull(m[ip], e.now);
    }
  }

  // Events no later than finish
  ghost predicate Before(events: seq<Event>, finish: int) {
    forall i :: 0 <= i < |events| ==> events[i].now <= finish
  }

  lemma {:induction false} AdmittedBound(m: Buckets, events: seq<Event>, ip: string, start: int, finish: int)
    requires Sound(m, start) && Monotone(events, start) && Before(events, finish) && start <= finish
    ensures Admitted(m, events, ip) as real <= Level(m, ip, start) + Earned(finish - start)
    decreases |events|
  {
    if events == [] {
      if ip in m { assert Level(m, ip, start) >= 0.0; }
    } else {
      var e, rest := events[0], events[1..];
      StepSound(m, e, start);
      AdmittedFirst(m, events, ip);
      AdmittedBound(Step(m, e), rest, ip, e.now, finish);
      LevelAfterStep(m, e, ip, start);
      LevelGrows(m, ip, start, e.now);
      assert Earned(finish - start) == Earned(finish - e.now) + Earned(e.now - start);
    }
  }

  lemma {:induction false} ReachableSound(m: Buckets, events: seq<Event>, start: int, t0: int)
    requires Sound(m, start) && Monotone(events, start) && Before(events, t0) && start <= t0
    ensures Sound(Final(m, events), t0)
    decreases |events|
  {
    if events != [] {
      StepSound(m, events[0], start);
      ReachableSound(Step(m, events[0]), events[1..], events[0].now, t0);
    }
  }

  // In any window of a run, sweeps included, one client gets at most 30 requests plus 30 a minute.
  lemma WindowBound(history: seq<Event>, window: seq<Event>, ip: string, start: int, t0: int, duration: nat)
    requires Monotone(history, start) && Before(history, t0) && start <= t0
    requires Monotone(window, t0) && Before(window, t0 + duration)
    ensures Admitted(Final(map[], history), window, ip) as real <= 30.0 + duration as real * 30.0 / 60000.0
  {
    ReachableSound(map[], history, start, t0);
    AdmittedBound(Final(map[], history), window, ip, t0, t0 + duration);
  }

  // From the bound on the other side: a client is refused only after having been admitted that often.

  // From answer j on, client log[i].ip was admitted more than 29 times plus 30 a minute before answer i.
  ghost predicate Burst(log: seq<Answer>, j: nat, i: nat) {
    && j <= i < |log| && log[j].ip == log[i].ip
    && Count(log[j..i], log[i].ip) as real > 29.0 + (log[i].now - log[j].now) as real * 30.0 / 60000.0
  }

  // The bucket was full at answer j and has lost nothing since but what was admitted.
  ghost predicate FullAt(b: Bucket, log: seq<Answer>, ip: string, j: nat) {
    && j < |log| && log[j].ip == ip
    && b.tokens >= 30.0 - Count(log[j..], ip) as real + Earned(b.updated - log[j].now)
  }

  ghost predicate Accounted(m: Buckets, log: seq<Answer>) {
    forall ip :: ip in m ==> exists j: nat :: FullAt(m[ip], log, ip, j)
  }

  lemma CountLast(log: seq<Answer>, last: Answer, j: nat, ip: string)
    requires j <= |log|
    ensures Count((log + [last])[j..], ip) == Count(log[j..], ip) + (if last.ip == ip && last.admitted then 1 else 0)
    ensures (log + [last])[j..|log|] == log[j..]
  {
    var tail := (log + [last])[j..];
    assert tail[..|tail| - 1] == log[j..];
  }

  // A refusal is a burst, and every answer keeps the account.
  lemma AnswerAccounted(m: Buckets, log: seq<Answer>, ip: string, now: int)
    requires Accounted(m, log)
    ensures var next := log + [Answer(ip, now, Admits(m, ip, now))];
      && Accounted(AfterRequest(m, ip, now), next)
      && (!Admits(m, ip, now) ==> exists j: nat :: Burst(next, j, |log|))
  {
    hide Count, Earned;
    var last := Answer(ip, now, Admits(m, ip, now));
    var next := log + [last];
    var v := AfterRequest(m, ip, now);
    forall k | k in v ensures exists j: nat :: FullAt(v[k], next, k, j) {
      if k != ip {
        var j: nat :| FullAt(m[k], log, k, j);
        CountLast(log, last, j, k);
        assert FullAt(v[k], next, k, j);
      } else {
        OwnAccounted(m, log, ip, now);
      }
    }
    OwnAccounted(m, log, ip, now);
  }

  lemma OwnAccounted(m: Buckets, log: seq<Answer>, ip: string, now: int)
    requires Accounted(m, log)
    ensures var next := log + [Answer(ip, now, Admits(m, ip, now))];
      && (exists j: nat :: FullAt(AfterRequest(m, ip, now)[ip], next, ip, j))
      && (!Admits(m, ip, now) ==> exists j: nat :: Burst(next, j, |log|))
  {
    hide Count;
    var last := Answer(ip, now, Admits(m, ip, now));
    var next, b := log + [last], AfterRequest(m, ip, now)[ip];
    if Refill(Found(m, ip, now), now) == KEEPERS_RATE_PER_MIN {
      CountLast(log, last, |log|, ip);
      NoneCounted(log, ip);
      assert FullAt(b, next, ip, |log|);
    } else {
      var j: nat :| FullAt(m[ip], log, ip, j);
      CountLast(log, last, j, ip);
      assert Earned(now - log[j].now) == Earned(m[ip].updated - log[j].now) + Earned(now - m[ip].updated);
      assert FullAt(b, next, ip, j);
      if !last.admitted { assert Burst(next, j, |log|); }
    }
  }

  lemma NoneCounted(log: seq<Answer>, ip: string)
    ensures Count(log[|log|..], ip) == 0
  {}

  lemma {:induction false} RefusalsAreBursts(m: Buckets, seen: seq<Answer>, events: seq<Event>, i: nat)
    requires Accounted(m, seen) && |seen| <= i < |seen + Answers(m, events)| && !(seen + Answers(m, events))[i].admitted
    ensures exists j: nat :: Burst(seen + Answers(m, events), j, i)
    decreases |events|
  {
    hide Count, Answers, Admits, AfterRequest;
    if events == [] {
      assert Answers(m, []) == [] by { NoAnswers(m); }
    } else {
      var e, rest := events[0], events[1..];
      AnswersFirst(m, events);
      if e.Request? {
        var next := seen + [Answer(e.ip, e.now, Admits(m, e.ip, e.now))];
        AnswerAccounted(m, seen, e.ip, e.now);
        assert seen + Answers(m, events) == next + Answers(Step(m, e), rest);
        if i > |seen| {
          RefusalsAreBursts(Step(m, e), next, rest, i);
        } else {
          var j: nat :| Burst(next, j, i);
          assert (seen + Answers(m, events))[j..i] == next[j..i];
          assert Burst(seen + Answers(m, events), j, i);
        }
      } else {
        SweepAccounted(m, seen, e.now);
        RefusalsAreBursts(Step(m, e), seen, rest, i);
      }
    }
  }

  lemma NoAnswers(m: Buckets)
    ensures Answers(m, []) == []
  {}

  lemma SweepAccounted(m: Buckets, log: seq<Answer>, now: int)
    requires Accounted(m, log)
    ensures Accounted(AfterSweep(m, now), log)
  {
    hide FullAt;
  }

  // A client is refused only after a burst: from some earlier answer on it was admitted more than 29
  // times plus 30 a minute.
  lemma RefusedOnlyAfterBurst(events: seq<Event>, i: nat)
    requires i < |Answers(map[], events)| && !Answers(map[], events)[i].admitted
    ensures exists j: nat :: Burst(Answers(map[], events), j, i)
  {
    hide Answers, Burst;
    assert [] + Answers(map[], events) == Answers(map[], events);
    RefusalsAreBursts(map[], [], events, i);
  }

  lemma {:induction false} CountSplit(log: seq<Answer>, more: seq<Answer>, ip: string)
    ensures Count(log + more, ip) == Count(log, ip) + Count(more, ip)
  {
    if more == [] {
      assert log + more == log;
    } else {
      var n := |more| - 1;
      CountSplit(log, more[..n], ip);
      assert (log + more)[..|log + more| - 1] == log + more[..n];
    }
  }

  lemma {:induction false} AnswersInOrder(m: Buckets, events: seq<Event>, start: int)
    requires Monotone(events, start)
    ensures forall i, j :: 0 <= i <= j < |Answers(m, events)| ==>
      start <= Answers(m, events)[i].now <= Answers(m, events)[j].now
    decreases |events|
  {
    hide Answers, Step, Admits;
    if events == [] {
      NoAnswers(m);
    } else {
      AnswersFirst(m, events);
      AnswersInOrder(Step(m, events[0]), events[1..], events[0].now);
    }
  }

  // So nobody is refused who has not been admitted 30 times before.
  lemma ThirtyFirst(events: seq<Event>, start: int, i: nat)
    requires Monotone(events, start) && i < |Answers(map[], events)| && !Answers(map[], events)[i].admitted
    ensures Count(Answers(map[], events)[..i], Answers(map[], events)[i].ip) >= 30
  {
    hide Answers, Count;
    var log := Answers(map[], events);
    RefusedOnlyAfterBurst(events, i);
    AnswersInOrder(map[], events, start);
    var j: nat :| Burst(log, j, i);
    assert log[..j] + log[j..i] == log[..i];
    CountSplit(log[..j], log[j..i], log[i].ip);
  }
}
