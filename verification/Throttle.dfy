/**
 The failure-only throttle in front of password checks (src/transports/lib/basic-auth-throttle.js).
 Times are milliseconds and are given by the caller, who never goes back in time.
 */
module Throttle {
  import Wrappers

  type Key = string
  type Time = int

  const WINDOW: Time := 15 * 60 * 1000
  const MAX_FAILURES := 5

  datatype Bucket = Bucket(count: nat, resetAt: Time)

  type Buckets = map<Key, Bucket>

  predicate Throttled(buckets: Buckets, key: Key, now: Time) {
    key in buckets && now <= buckets[key].resetAt && buckets[key].count >= MAX_FAILURES
  }

  /** A check drops an expired bucket. */
  function Checked(buckets: Buckets, key: Key, now: Time): Buckets {
    if key in buckets && now > buckets[key].resetAt then buckets - {key} else buckets
  }

  function Failed(buckets: Buckets, key: Key, now: Time): Buckets {
    if key !in buckets || now > buckets[key].resetAt then buckets[key := Bucket(1, now + WINDOW)]
    else buckets[key := Bucket(buckets[key].count + 1, buckets[key].resetAt)]
  }

  class BasicAuthThrottle {
    var buckets: Buckets

    constructor ()
      ensures buckets == map[]
    {
      buckets := map[];
    }

    method IsThrottled(key: Key, now: Time) returns (throttled: bool)
      modifies this
      ensures throttled == Throttled(old(buckets), key, now) && buckets == Checked(old(buckets), key, now)
      ensures throttled <==> key in old(buckets) && now <= old(buckets)[key].resetAt && old(buckets)[key].count >= 5
      ensures key in buckets <==> key in old(buckets) && now <= old(buckets)[key].resetAt
      ensures Wrappers.AgreeOutside(old(buckets), buckets, {key}) && (key in buckets ==> buckets[key] == old(buckets)[key])
    {
      if key !in buckets {
        return false;
      }
      var bucket := buckets[key];
      if now > bucket.resetAt {
        buckets := buckets - {key};
        return false;
      }
      return bucket.count >= MAX_FAILURES;
    }

    method RecordFailure(key: Key, now: Time)
      modifies this
      ensures buckets == Failed(old(buckets), key, now)
      ensures Wrappers.AgreeOutside(old(buckets), buckets, {key}) && key in buckets
      ensures if key in old(buckets) && now <= old(buckets)[key].resetAt then
                buckets[key].count == old(buckets)[key].count + 1 && buckets[key].resetAt == old(buckets)[key].resetAt
              else buckets[key].count == 1 && buckets[key].resetAt == now + 15 * 60 * 1000
    {
      if key !in buckets || now > buckets[key].resetAt {
        buckets := buckets[key := Bucket(1, now + WINDOW)];
        return;
      }
      var bucket := buckets[key];
      buckets := buckets[key := bucket.(count := bucket.count + 1)];
    }

    method ClearFailures(key: Key)
      modifies this
      ensures key !in buckets && Wrappers.AgreeOutside(old(buckets), buckets, {key})
    {
      buckets := buckets - {key};
    }
  }

  // ---- Throttling defined on the failures themselves ----

  /** A failure leads a window unless it falls into the window of an earlier one that does. */
  predicate Leads(failures: seq<Time>, i: nat)
    requires i < |failures|
    decreases i
  {
    forall j :: 0 <= j < i && Leads(failures, j) ==> failures[i] > failures[j] + WINDOW
  }

  /** Throttled: five failures from the leader of a window that has not passed. */
  predicate ThrottledByHistory(failures: seq<Time>, now: Time) {
    exists i :: 0 <= i < |failures| && Leads(failures, i) && now <= failures[i] + WINDOW && |failures| - i >= MAX_FAILURES
  }

  predicate Sorted(times: seq<Time>) {
    forall i, j :: 0 <= i < j < |times| ==> times[i] <= times[j]
  }

  /** Where the window of the latest of the first `n` failures starts. */
  function Start(failures: seq<Time>, n: nat): (s: nat)
    requires 1 <= n <= |failures|
    ensures s < n
  {
    if n == 1 then 0
    else
      var s := Start(failures, n - 1);
      if failures[n - 1] <= failures[s] + WINDOW then s else n - 1
  }

  /** What comes later does not move a window, or make or unmake a leader. */
  lemma {:induction false} StartInPrefix(failures: seq<Time>, t: Time, n: nat)
    requires 1 <= n <= |failures|
    ensures Start(failures + [t], n) == Start(failures, n)
  {
    if n > 1 {
      StartInPrefix(failures, t, n - 1);
    }
  }

  /** The latest window starts at the last leader. */
  predicate IsLed(failures: seq<Time>, n: nat)
    requires 1 <= n <= |failures|
  {
    Leads(failures, Start(failures, n)) && forall k :: Start(failures, n) < k < n ==> !Leads(failures, k)
  }

  lemma {:induction false} LatestIsLed(failures: seq<Time>, n: nat)
    requires 1 <= n <= |failures| && Sorted(failures)
    ensures IsLed(failures, n)
  {
    if n > 1 {
      LatestIsLed(failures, n - 1);
      var s := Start(failures, n - 1);
      if failures[n - 1] > failures[s] + WINDOW {
        forall j | 0 <= j < n - 1 && Leads(failures, j) ensures failures[n - 1] > failures[j] + WINDOW {
          assert j <= s;
        }
      }
    }
  }

  /** Throttling by the latest window alone. */
  predicate LatestThrottles(failures: seq<Time>, now: Time) {
    failures != [] && var s := Start(failures, |failures|); now <= failures[s] + WINDOW && |failures| - s >= MAX_FAILURES
  }

  lemma LatestDecides(failures: seq<Time>, now: Time)
    requires Sorted(failures) && (failures != [] ==> failures[|failures| - 1] <= now)
    ensures ThrottledByHistory(failures, now) <==> LatestThrottles(failures, now)
  {
    if failures != [] {
      LatestIsLed(failures, |failures|);
      var s := Start(failures, |failures|);
      forall i | 0 <= i < |failures| && Leads(failures, i) && now <= failures[i] + WINDOW ensures i == s {
        assert failures[s] <= now;
      }
    }
  }

  // ---- The table agrees with the history ----

  /** The buckets, and beside them each key's failures since its last success and the time. */
  datatype State = State(buckets: Buckets, failures: map<Key, seq<Time>>, clock: Time)

  /**
   What the routes do, in whatever order logins interleave: the gate is checked, and later a wrong password is
   recorded, a right one clears the failures, or the login crashes and does neither.
   */
  datatype Event = Check(key: Key, at: Time) | Failure(key: Key, at: Time) | Success(key: Key, at: Time) | Crash(key: Key, at: Time)

  function FailuresOf(s: State, key: Key): seq<Time> {
    if key in s.failures then s.failures[key] else []
  }

  function Step(s: State, e: Event): State {
    match e
    case Check(key, at) => State(Checked(s.buckets, key, at), s.failures, at)
    case Failure(key, at) => State(Failed(s.buckets, key, at), s.failures[key := FailuresOf(s, key) + [at]], at)
    case Success(key, at) => State(s.buckets - {key}, s.failures - {key}, at)
    case Crash(_, at) => s.(clock := at)
  }

  function Run(start: Time, events: seq<Event>): State {
    if events == [] then State(map[], map[], start)
    else Step(Run(start, events[..|events| - 1]), events[|events| - 1])
  }

  predicate Forward(start: Time, events: seq<Event>) {
    && (forall i :: 0 <= i < |events| ==> start <= events[i].at)
    && (forall i, j :: 0 <= i < j < |events| ==> events[i].at <= events[j].at)
  }

  /** The bucket counts the failures of the latest window, and is missing only if there is none or it has passed. */
  predicate BucketAgrees(buckets: Buckets, key: Key, failures: seq<Time>, clock: Time) {
    if failures == [] then key !in buckets
    else
      var s := Start(failures, |failures|);
      if key in buckets then buckets[key] == Bucket(|failures| - s, failures[s] + WINDOW)
      else clock > failures[s] + WINDOW
  }

  predicate Agrees(s: State, key: Key) {
    var failures := FailuresOf(s, key);
    && Sorted(failures)
    && (forall i :: 0 <= i < |failures| ==> failures[i] <= s.clock)
    && BucketAgrees(s.buckets, key, failures, s.clock)
  }

  lemma FailureAgrees(s: State, key: Key, at: Time)
    requires Agrees(s, key) && s.clock <= at
    ensures Agrees(Step(s, Failure(key, at)), key)
  {
    var failures := FailuresOf(s, key);
    if failures != [] {
      StartInPrefix(failures, at, |failures|);
    }
    assert FailuresOf(Step(s, Failure(key, at)), key) == failures + [at];
  }

  lemma OtherKeyAgrees(s: State, e: Event, key: Key)
    requires Agrees(s, key) && s.clock <= e.at && e.key != key
    ensures Agrees(Step(s, e), key)
  {
    assert FailuresOf(Step(s, e), key) == FailuresOf(s, key);
  }

  lemma StepAgrees(s: State, e: Event, key: Key)
    requires Agrees(s, key) && s.clock <= e.at
    ensures Agrees(Step(s, e), key)
  {
    if e.key != key {
      OtherKeyAgrees(s, e, key);
    } else if e.Failure? {
      FailureAgrees(s, key, e.at);
    }
  }

  lemma {:induction false} RunAgrees(start: Time, events: seq<Event>, key: Key)
    requires Forward(start, events)
    ensures Agrees(Run(start, events), key) && (events != [] ==> Run(start, events).clock == events[|events| - 1].at)
    ensures start <= Run(start, events).clock
  {
    if events != [] {
      RunAgrees(start, events[..|events| - 1], key);
      StepAgrees(Run(start, events[..|events| - 1]), events[|events| - 1], key);
    }
  }

  /** For every clock that does not go back, a check answers what the whole failure history defines. */
  lemma TableDecidesByHistory(start: Time, events: seq<Event>, key: Key, now: Time)
    requires Forward(start, events) && Run(start, events).clock <= now
    ensures var s := Run(start, events); Throttled(s.buckets, key, now) <==> ThrottledByHistory(FailuresOf(s, key), now)
  {
    RunAgrees(start, events, key);
    LatestDecides(FailuresOf(Run(start, events), key), now);
  }

  // ---- A client behind the gate ----

  /** The table, and how many logins of one key are between their check and its outcome. */
  datatype Gate = Gate(s: State, inFlight: int)

  /** A check lets its login in unless the key is throttled; every outcome is one of a login let in. */
  function Passed(g: Gate, e: Event, key: Key): Gate {
    Gate(Step(g.s, e),
         if e.key != key then g.inFlight
         else if e.Check? then (if Throttled(g.s.buckets, key, e.at) then g.inFlight else g.inFlight + 1)
         else g.inFlight - 1)
  }

  function PassedAll(g: Gate, events: seq<Event>, key: Key): Gate {
    if events == [] then g else Passed(PassedAll(g, events[..|events| - 1], key), events[|events| - 1], key)
  }

  /** At most `c` logins of the key are in flight at once; other keys may do what they like. */
  predicate Within(g: Gate, events: seq<Event>, key: Key, c: nat) {
    events != [] ==>
      Within(g, events[..|events| - 1], key, c) && 0 <= PassedAll(g, events, key).inFlight <= c
  }

  function Opened(start: Time): Gate { Gate(State(map[], map[], start), 0) }

  lemma {:induction false} PassedIsRun(start: Time, events: seq<Event>, key: Key)
    ensures PassedAll(Opened(start), events, key).s == Run(start, events)
  {
    if events != [] {
      PassedIsRun(start, events[..|events| - 1], key);
    }
  }

  /** No window ever held more than `m` failures. */
  predicate SmallWindows(failures: seq<Time>, m: nat) {
    forall n :: 1 <= n <= |failures| ==> n - Start(failures, n) <= m
  }

  predicate Open(failures: seq<Time>, now: Time) {
    failures != [] && now <= failures[Start(failures, |failures|)] + WINDOW
  }

  /** How many failures the latest window holds. */
  function Count(failures: seq<Time>): nat {
    if failures == [] then 0 else |failures| - Start(failures, |failures|)
  }

  lemma OneMoreFailure(failures: seq<Time>, t: Time, m: nat)
    requires SmallWindows(failures, m) && m >= 1 && (Open(failures, t) ==> Count(failures) < m)
    ensures SmallWindows(failures + [t], m) && Count(failures + [t]) == if Open(failures, t) then Count(failures) + 1 else 1
  {
    var more := failures + [t];
    forall n | 1 <= n <= |more| ensures n - Start(more, n) <= m {
      if failures != [] {
        StartInPrefix(failures, t, if n <= |failures| then n else |failures|);
      }
    }
    if failures != [] {
      StartInPrefix(failures, t, |failures|);
    }
  }

  /** Once an open window has five failures nobody is let in, so only those in flight can add to it. */
  predicate GateOk(g: Gate, key: Key, c: nat) {
    var failures := FailuresOf(g.s, key);
    && Agrees(g.s, key) && 0 <= g.inFlight <= c && SmallWindows(failures, MAX_FAILURES - 1 + c)
    && (Open(failures, g.s.clock) && Count(failures) >= MAX_FAILURES ==> Count(failures) + g.inFlight <= MAX_FAILURES - 1 + c)
  }

  lemma FailureKeepsGate(g: Gate, key: Key, at: Time, c: nat)
    requires GateOk(g, key, c) && g.s.clock <= at && g.inFlight >= 1
    ensures GateOk(Passed(g, Failure(key, at), key), key, c)
  {
    var failures, m := FailuresOf(g.s, key), MAX_FAILURES - 1 + c;
    FailureAgrees(g.s, key, at);
    OneMoreFailure(failures, at, m);
    assert FailuresOf(Step(g.s, Failure(key, at)), key) == failures + [at];
  }

  lemma PassedKeepsGate(g: Gate, e: Event, key: Key, c: nat)
    requires GateOk(g, key, c) && g.s.clock <= e.at && 0 <= Passed(g, e, key).inFlight <= c
    ensures GateOk(Passed(g, e, key), key, c)
  {
    if e.Failure? && e.key == key {
      FailureKeepsGate(g, key, e.at, c);
    } else {
      StepAgrees(g.s, e, key);
    }
  }

  lemma {:induction false} GateStaysOk(start: Time, events: seq<Event>, key: Key, c: nat)
    requires Forward(start, events) && Within(Opened(start), events, key, c)
    ensures GateOk(PassedAll(Opened(start), events, key), key, c)
  {
    if events != [] {
      var init := events[..|events| - 1];
      GateStaysOk(start, init, key, c);
      PassedIsRun(start, init, key);
      RunAgrees(start, init, key);
      PassedKeepsGate(PassedAll(Opened(start), init, key), events[|events| - 1], key, c);
    }
  }

  /** A window begins more than its length after the one before it. */
  lemma {:induction false} WindowBegins(failures: seq<Time>, n: nat)
    requires 1 <= n <= |failures|
    ensures var s := Start(failures, n); s > 0 ==> failures[s] > failures[Start(failures, s)] + WINDOW
  {
    if n > 1 {
      WindowBegins(failures, n - 1);
    }
  }

  /** An interval of 15 minutes meets two windows at most, and the first of them started before it. */
  lemma TwoWindowsMeet(failures: seq<Time>, m: nat, i: nat, j: nat)
    requires Sorted(failures) && SmallWindows(failures, m)
    requires i <= j < |failures| && failures[j] - failures[i] <= WINDOW
    ensures j - i + 1 <= 2 * m - 1
  {
    WindowBegins(failures, j + 1);
    var s := Start(failures, j + 1);
    if s > i {
      assert failures[s] <= failures[j];
      assert failures[Start(failures, s)] < failures[i];
    }
  }

  /**
   However the logins of all clients interleave, with at most `c` of one key in flight at once at most 2(4 + c) - 1
   failures of that key with no success between them fall into 15 minutes.
   */
  lemma GatedClientFails(start: Time, events: seq<Event>, key: Key, c: nat, i: nat, j: nat)
    requires Forward(start, events) && Within(Opened(start), events, key, c)
    requires var failures := FailuresOf(Run(start, events), key); i <= j < |failures| && failures[j] - failures[i] <= WINDOW
    ensures j - i + 1 <= 2 * (4 + c) - 1
  {
    GateStaysOk(start, events, key, c);
    PassedIsRun(start, events, key);
    TwoWindowsMeet(FailuresOf(Run(start, events), key), 4 + c, i, j);
  }

  /** So a client that waits for each answer fails nine times at most. */
  lemma GatedClientFailsNineTimes(start: Time, events: seq<Event>, key: Key, i: nat, j: nat)
    requires Forward(start, events) && Within(Opened(start), events, key, 1)
    requires var failures := FailuresOf(Run(start, events), key); i <= j < |failures| && failures[j] - failures[i] <= WINDOW
    ensures j - i + 1 <= 9
  {
    GatedClientFails(start, events, key, 1, i, j);
  }

  // ---- The bound is reached ----

  lemma {:induction false} PassedInTwo(g: Gate, a: seq<Event>, b: seq<Event>, key: Key)
    ensures PassedAll(g, a + b, key) == PassedAll(PassedAll(g, a, key), b, key)
  {
    if b == [] {
      assert a + b == a;
    } else {
      PassedInTwo(g, a, b[..|b| - 1], key);
      assert (a + b)[..|a + b| - 1] == a + b[..|b| - 1];
    }
  }

  lemma {:induction false} WithinInTwo(g: Gate, a: seq<Event>, b: seq<Event>, key: Key, c: nat)
    requires Within(g, a, key, c) && Within(PassedAll(g, a, key), b, key, c)
    ensures Within(g, a + b, key, c)
  {
    if b == [] {
      assert a + b == a;
    } else {
      WithinInTwo(g, a, b[..|b| - 1], key, c);
      PassedInTwo(g, a, b, key);
      assert (a + b)[..|a + b| - 1] == a + b[..|b| - 1];
    }
  }

  /** Failures and `n` more at one time. */
  function More(failures: seq<Time>, at: Time, n: nat): seq<Time> {
    if n == 0 then failures else More(failures, at, n - 1) + [at]
  }

  lemma {:induction false} MoreHas(failures: seq<Time>, at: Time, n: nat)
    ensures var more := More(failures, at, n);
            && |more| == |failures| + n
            && (forall i :: 0 <= i < |failures| ==> more[i] == failures[i])
            && (forall i :: |failures| <= i < |more| ==> more[i] == at)
  {
    if n > 0 {
      MoreHas(failures, at, n - 1);
    }
  }

  lemma {:induction false} MoreInTwo(failures: seq<Time>, at: Time, m: nat, n: nat)
    ensures More(More(failures, at, m), at, n) == More(failures, at, m + n)
  {
    if n > 0 {
      MoreInTwo(failures, at, m, n - 1);
    }
  }

  function Repeated(e: Event, n: nat): (events: seq<Event>)
    ensures |events| == n && forall i :: 0 <= i < n ==> events[i] == e
  {
    if n == 0 then [] else Repeated(e, n - 1) + [e]
  }

  /** A table with one open window of one key, and nothing in flight but what `g` says. */
  function Opening(key: Key, count: nat, resetAt: Time, failures: seq<Time>, clock: Time, inFlight: int): Gate {
    Gate(State(map[key := Bucket(count, resetAt)], map[key := failures], clock), inFlight)
  }

  /** One event more. */
  lemma OneMore(g: Gate, events: seq<Event>, e: Event, h: Gate, end: Gate, key: Key, c: nat)
    requires Within(g, events, key, c) && PassedAll(g, events, key) == h && Passed(h, e, key) == end && 0 <= end.inFlight <= c
    ensures Within(g, events + [e], key, c) && PassedAll(g, events + [e], key) == end
  {
    assert (events + [e])[..|events|] == events;
  }

  lemma OneMoreRepeated(e: Event, n: nat)
    ensures Repeated(e, n + 1) == Repeated(e, n) + [e]
  {
  }

  lemma NextCheckPasses(key: Key, count: nat, resetAt: Time, failures: seq<Time>, clock: Time, at: Time, inFlight: int)
    requires count < MAX_FAILURES && at <= resetAt
    ensures Passed(Opening(key, count, resetAt, failures, clock, inFlight), Check(key, at), key)
         == Opening(key, count, resetAt, failures, at, inFlight + 1)
  {
  }

  /** Checks at one time all pass an open gate. */
  lemma {:induction false} ChecksPass(key: Key, count: nat, resetAt: Time, failures: seq<Time>, clock: Time, at: Time, n: nat, c: nat)
    requires count < MAX_FAILURES && at <= resetAt && n <= c
    ensures var g := Opening(key, count, resetAt, failures, clock, 0); var checks := Repeated(Check(key, at), n);
            && PassedAll(g, checks, key) == Opening(key, count, resetAt, failures, if n == 0 then clock else at, n)
            && Within(g, checks, key, c)
  {
    if n > 0 {
      var before := if n == 1 then clock else at;
      ChecksPass(key, count, resetAt, failures, clock, at, n - 1, c);
      NextCheckPasses(key, count, resetAt, failures, before, at, n - 1);
      OneMoreRepeated(Check(key, at), n - 1);
      OneMore(Opening(key, count, resetAt, failures, clock, 0), Repeated(Check(key, at), n - 1), Check(key, at),
              Opening(key, count, resetAt, failures, before, n - 1), Opening(key, count, resetAt, failures, at, n), key, c);
    }
  }

  lemma FailureCounts(key: Key, count: nat, resetAt: Time, failures: seq<Time>, clock: Time, at: Time, inFlight: int)
    requires at <= resetAt
    ensures Passed(Opening(key, count, resetAt, failures, clock, inFlight), Failure(key, at), key)
         == Opening(key, count + 1, resetAt, failures + [at], at, inFlight - 1)
  {
  }

  /** The window after `n` failures at one time. */
  function AfterFailures(key: Key, count: nat, resetAt: Time, failures: seq<Time>, clock: Time, at: Time, n: nat, c: nat): Gate {
    Opening(key, count + n, resetAt, More(failures, at, n), if n == 0 then clock else at, c - n)
  }

  lemma NextFailureCounts(key: Key, count: nat, resetAt: Time, failures: seq<Time>, clock: Time, at: Time, n: nat, c: nat)
    requires at <= resetAt
    ensures Passed(AfterFailures(key, count, resetAt, failures, clock, at, n, c), Failure(key, at), key)
         == AfterFailures(key, count, resetAt, failures, clock, at, n + 1, c)
  {
    FailureCounts(key, count + n, resetAt, More(failures, at, n), if n == 0 then clock else at, at, c - n);
  }

  /** Failures at one time all count in an open window. */
  lemma {:induction false} FailuresCount(key: Key, count: nat, resetAt: Time, failures: seq<Time>, clock: Time, at: Time, n: nat, c: nat)
    requires at <= resetAt && n <= c
    ensures var g := Opening(key, count, resetAt, failures, clock, c);
            && PassedAll(g, Repeated(Failure(key, at), n), key) == AfterFailures(key, count, resetAt, failures, clock, at, n, c)
            && Within(g, Repeated(Failure(key, at), n), key, c)
  {
    if n > 0 {
      FailuresCount(key, count, resetAt, failures, clock, at, n - 1, c);
      NextFailureCounts(key, count, resetAt, failures, clock, at, n - 1, c);
      OneMoreRepeated(Failure(key, at), n - 1);
      OneMore(Opening(key, count, resetAt, failures, clock, c), Repeated(Failure(key, at), n - 1), Failure(key, at),
              AfterFailures(key, count, resetAt, failures, clock, at, n - 1, c),
              AfterFailures(key, count, resetAt, failures, clock, at, n, c), key, c);
    }
  }

  function Burst(key: Key, at: Time, n: nat): seq<Event> {
    Repeated(Check(key, at), n) + Repeated(Failure(key, at), n)
  }

  /** Two series of events, one after the other. */
  lemma Append(g: Gate, a: seq<Event>, h: Gate, b: seq<Event>, end: Gate, key: Key, c: nat)
    requires Within(g, a, key, c) && PassedAll(g, a, key) == h && Within(h, b, key, c) && PassedAll(h, b, key) == end
    ensures Within(g, a + b, key, c) && PassedAll(g, a + b, key) == end
  {
    PassedInTwo(g, a, b, key);
    WithinInTwo(g, a, b, key, c);
  }

  lemma {:induction false} WithinMore(g: Gate, events: seq<Event>, key: Key, c: nat, d: nat)
    requires Within(g, events, key, c) && c <= d
    ensures Within(g, events, key, d)
  {
    if events != [] {
      WithinMore(g, events[..|events| - 1], key, c, d);
    }
  }

  /** Checks and failures of one number of logins. */
  lemma ChecksThenFailures(g: Gate, checks: seq<Event>, h: Gate, fails: seq<Event>, end: Gate, key: Key, n: nat, c: nat)
    requires n <= c && Within(g, checks, key, n) && PassedAll(g, checks, key) == h
    requires Within(h, fails, key, n) && PassedAll(h, fails, key) == end
    ensures Within(g, checks + fails, key, c) && PassedAll(g, checks + fails, key) == end
  {
    Append(g, checks, h, fails, end, key, n);
    WithinMore(g, checks + fails, key, n, c);
  }

  lemma AllFailed(key: Key, count: nat, resetAt: Time, failures: seq<Time>, at: Time, n: nat)
    ensures AfterFailures(key, count, resetAt, failures, at, at, n, n)
         == Opening(key, count + n, resetAt, More(failures, at, n), at, 0)
  {
  }

  /** Logins that overlap all get in and all fail, if the window had not five failures before. */
  lemma BurstFails(key: Key, count: nat, resetAt: Time, failures: seq<Time>, clock: Time, at: Time, n: nat, c: nat)
    requires count < MAX_FAILURES && at <= resetAt && 1 <= n <= c
    ensures var g := Opening(key, count, resetAt, failures, clock, 0);
            && PassedAll(g, Burst(key, at, n), key) == Opening(key, count + n, resetAt, More(failures, at, n), at, 0)
            && Within(g, Burst(key, at, n), key, c)
  {
    var g := Opening(key, count, resetAt, failures, clock, 0);
    var h := Opening(key, count, resetAt, failures, at, n);
    var end := Opening(key, count + n, resetAt, More(failures, at, n), at, 0);
    ChecksPass(key, count, resetAt, failures, clock, at, n, n);
    FailuresCount(key, count, resetAt, failures, at, at, n, n);
    AllFailed(key, count, resetAt, failures, at, n);
    ChecksThenFailures(g, Repeated(Check(key, at), n), h, Repeated(Failure(key, at), n), end, key, n, c);
  }

  /** Three logins one by one, and then `c` at once. */
  function Wave(key: Key, at: Time, c: nat): seq<Event> { Burst(key, at, 1) + LastTwo(key, at, c) }

  function LastTwo(key: Key, at: Time, c: nat): seq<Event> { Burst(key, at, 1) + LastOne(key, at, c) }

  function LastOne(key: Key, at: Time, c: nat): seq<Event> { Burst(key, at, 1) + Burst(key, at, c) }

  lemma SingleFirst(key: Key, count: nat, resetAt: Time, failures: seq<Time>, clock: Time, at: Time, c: nat, rest: seq<Event>, end: Gate)
    requires count < MAX_FAILURES && at <= resetAt && c >= 1
    requires var h := Opening(key, count + 1, resetAt, More(failures, at, 1), at, 0); Within(h, rest, key, c) && PassedAll(h, rest, key) == end
    ensures var g := Opening(key, count, resetAt, failures, clock, 0);
            Within(g, Burst(key, at, 1) + rest, key, c) && PassedAll(g, Burst(key, at, 1) + rest, key) == end
  {
    BurstFails(key, count, resetAt, failures, clock, at, 1, c);
    Append(Opening(key, count, resetAt, failures, clock, 0), Burst(key, at, 1),
           Opening(key, count + 1, resetAt, More(failures, at, 1), at, 0), rest, end, key, c);
  }

  /** What a wave leaves of a window. */
  function AfterWave(key: Key, resetAt: Time, failures: seq<Time>, at: Time, c: nat, n: nat): Gate {
    Opening(key, 4 + c, resetAt, More(failures, at, n), at, 0)
  }

  lemma WaveStep(key: Key, count: nat, resetAt: Time, failures: seq<Time>, clock: Time, at: Time, c: nat, rest: seq<Event>, n: nat)
    requires count < 4 && at <= resetAt && c >= 1
    requires var h := Opening(key, count + 1, resetAt, More(failures, at, 1), at, 0);
             Within(h, rest, key, c) && PassedAll(h, rest, key) == AfterWave(key, resetAt, More(failures, at, 1), at, c, n)
    ensures var g := Opening(key, count, resetAt, failures, clock, 0);
            && Within(g, Burst(key, at, 1) + rest, key, c)
            && PassedAll(g, Burst(key, at, 1) + rest, key) == AfterWave(key, resetAt, failures, at, c, 1 + n)
  {
    MoreInTwo(failures, at, 1, n);
    SingleFirst(key, count, resetAt, failures, clock, at, c, rest, AfterWave(key, resetAt, More(failures, at, 1), at, c, n));
  }

  lemma LastOneFails(key: Key, resetAt: Time, failures: seq<Time>, clock: Time, at: Time, c: nat)
    requires at <= resetAt && c >= 1
    ensures var g := Opening(key, 3, resetAt, failures, clock, 0);
            && Within(g, LastOne(key, at, c), key, c)
            && PassedAll(g, LastOne(key, at, c), key) == AfterWave(key, resetAt, failures, at, c, 1 + c)
  {
    BurstFails(key, 4, resetAt, More(failures, at, 1), at, at, c, c);
    WaveStep(key, 3, resetAt, failures, clock, at, c, Burst(key, at, c), c);
  }

  lemma LastTwoFail(key: Key, resetAt: Time, failures: seq<Time>, clock: Time, at: Time, c: nat)
    requires at <= resetAt && c >= 1
    ensures var g := Opening(key, 2, resetAt, failures, clock, 0);
            && Within(g, LastTwo(key, at, c), key, c)
            && PassedAll(g, LastTwo(key, at, c), key) == AfterWave(key, resetAt, failures, at, c, 2 + c)
  {
    LastOneFails(key, resetAt, More(failures, at, 1), at, at, c);
    WaveStep(key, 2, resetAt, failures, clock, at, c, LastOne(key, at, c), 1 + c);
  }

  /** A wave brings a window with one failure to four, and then to `4 + c`. */
  lemma WaveFails(key: Key, resetAt: Time, failures: seq<Time>, clock: Time, at: Time, c: nat)
    requires at <= resetAt && c >= 1
    ensures var g := Opening(key, 1, resetAt, failures, clock, 0);
            && Within(g, Wave(key, at, c), key, c)
            && PassedAll(g, Wave(key, at, c), key) == AfterWave(key, resetAt, failures, at, c, 3 + c)
  {
    LastTwoFail(key, resetAt, More(failures, at, 1), at, at, c);
    WaveStep(key, 1, resetAt, failures, clock, at, c, LastTwo(key, at, c), 2 + c);
  }

  lemma CheckDrops(key: Key, count: nat, resetAt: Time, failures: seq<Time>, clock: Time, at: Time)
    requires at > resetAt
    ensures Passed(Opening(key, count, resetAt, failures, clock, 0), Check(key, at), key)
         == Gate(State(map[], map[key := failures], at), 1)
  {
  }

  lemma FailureOpens(key: Key, failures: seq<Time>, at: Time)
    ensures Passed(Gate(State(map[], map[key := failures], at), 1), Failure(key, at), key)
         == Opening(key, 1, at + WINDOW, More(failures, at, 1), at, 0)
  {
    assert More(failures, at, 1) == failures + [at];
  }

  /** A login after its window has passed opens the next one. */
  lemma NextWindowOpens(key: Key, count: nat, resetAt: Time, failures: seq<Time>, clock: Time, at: Time, c: nat)
    requires at > resetAt && c >= 1
    ensures var g := Opening(key, count, resetAt, failures, clock, 0);
            && PassedAll(g, Burst(key, at, 1), key) == Opening(key, 1, at + WINDOW, More(failures, at, 1), at, 0)
            && Within(g, Burst(key, at, 1), key, c)
  {
    CheckDrops(key, count, resetAt, failures, clock, at);
    FailureOpens(key, failures, at);
    OneByOne(Opening(key, count, resetAt, failures, clock, 0), Check(key, at), Failure(key, at), key, c);
    SingleBurst(key, at);
  }

  lemma SingleBurst(key: Key, at: Time)
    ensures Burst(key, at, 1) == [Check(key, at)] + [Failure(key, at)]
  {
  }

  /** What a check and an outcome after it come to. */
  lemma OneByOne(g: Gate, a: Event, b: Event, key: Key, c: nat)
    requires 0 <= Passed(g, a, key).inFlight <= c && 0 <= Passed(Passed(g, a, key), b, key).inFlight <= c
    ensures PassedAll(g, [a] + [b], key) == Passed(Passed(g, a, key), b, key) && Within(g, [a] + [b], key, c)
  {
    assert ([a] + [b])[..1] == [a] && [a][..0] == [];
    assert PassedAll(g, [a], key) == Passed(g, a, key);
  }

  lemma {:induction false} FirstChecksPass(key: Key, n: nat, c: nat)
    requires n <= c
    ensures PassedAll(Opened(0), Repeated(Check(key, 0), n), key) == Gate(State(map[], map[], 0), n)
    ensures Within(Opened(0), Repeated(Check(key, 0), n), key, c)
  {
    if n > 0 {
      FirstChecksPass(key, n - 1, c);
      assert Repeated(Check(key, 0), n)[..n - 1] == Repeated(Check(key, 0), n - 1);
    }
  }

  lemma {:induction false} FirstFailuresCount(key: Key, n: nat, c: nat)
    requires n <= c
    ensures var g := Gate(State(map[], map[], 0), c); var fails := Repeated(Failure(key, 0), n);
            && PassedAll(g, fails, key) == (if n == 0 then g else Opening(key, n, WINDOW, More([], 0, n), 0, c - n))
            && Within(g, fails, key, c)
  {
    if n > 0 {
      FirstFailuresCount(key, n - 1, c);
      assert Repeated(Failure(key, 0), n)[..n - 1] == Repeated(Failure(key, 0), n - 1);
      if n > 1 {
        FailureCounts(key, n - 1, WINDOW, More([], 0, n - 1), 0, 0, c - (n - 1));
      } else {
        assert More([], 0, 1) == [0];
      }
    }
  }

  /** Logins that start before the first of them is done all fail, however many they are. */
  lemma FirstBurstFails(key: Key, n: nat, c: nat)
    requires 1 <= n <= c
    ensures PassedAll(Opened(0), Burst(key, 0, n), key) == Opening(key, n, WINDOW, More([], 0, n), 0, 0)
    ensures Within(Opened(0), Burst(key, 0, n), key, c)
  {
    FirstChecksPass(key, n, n);
    FirstFailuresCount(key, n, n);
    Append(Opened(0), Repeated(Check(key, 0), n), Gate(State(map[], map[], 0), n),
           Repeated(Failure(key, 0), n), Opening(key, n, WINDOW, More([], 0, n), 0, 0), key, n);
    WithinMore(Opened(0), Burst(key, 0, n), key, n, c);
  }

  /** Nine is no bound for clients that do not wait: ten logins at once record ten failures. */
  lemma TenAtOnce(key: Key)
    ensures Forward(0, Burst(key, 0, 10)) && FailuresOf(Run(0, Burst(key, 0, 10)), key) == More([], 0, 10)
  {
    FirstBurstFails(key, 10, 10);
    PassedIsRun(0, Burst(key, 0, 10), key);
  }

  predicate AllAt(events: seq<Event>, at: Time) {
    forall i :: 0 <= i < |events| ==> events[i].at == at
  }

  lemma WaveAt(key: Key, at: Time, c: nat)
    ensures AllAt(Wave(key, at, c), at)
  {
  }

  /** One login, a wave a window later, and one login and a wave right after that. */
  function Worst(key: Key, c: nat): seq<Event> {
    (Burst(key, 0, 1) + Wave(key, WINDOW, c)) + (Burst(key, WINDOW + 1, 1) + Wave(key, WINDOW + 1, c))
  }

  lemma WorstIsForward(key: Key, c: nat)
    ensures Forward(0, Worst(key, c))
  {
    WaveAt(key, WINDOW, c);
    WaveAt(key, WINDOW + 1, c);
    assert AllAt(Burst(key, 0, 1), 0) && AllAt(Burst(key, WINDOW + 1, 1), WINDOW + 1);
  }

  /** The failures recorded after the first and after the second part. */
  function FirstPart(c: nat): seq<Time> { More(More([], 0, 1), WINDOW, 3 + c) }

  function BothParts(c: nat): seq<Time> { More(More(FirstPart(c), WINDOW + 1, 1), WINDOW + 1, 3 + c) }

  /** A wave after events that leave a window with one failure. */
  lemma WaveAfter(g: Gate, events: seq<Event>, key: Key, resetAt: Time, failures: seq<Time>, clock: Time, at: Time, c: nat)
    requires Within(g, events, key, c) && PassedAll(g, events, key) == Opening(key, 1, resetAt, failures, clock, 0)
    requires at <= resetAt && c >= 1
    ensures Within(g, events + Wave(key, at, c), key, c)
    ensures PassedAll(g, events + Wave(key, at, c), key) == AfterWave(key, resetAt, failures, at, c, 3 + c)
  {
    WaveFails(key, resetAt, failures, clock, at, c);
    Append(g, events, Opening(key, 1, resetAt, failures, clock, 0), Wave(key, at, c),
           AfterWave(key, resetAt, failures, at, c, 3 + c), key, c);
  }

  lemma FirstPartFails(key: Key, c: nat)
    requires c >= 1
    ensures var part := Burst(key, 0, 1) + Wave(key, WINDOW, c);
            Within(Opened(0), part, key, c) && PassedAll(Opened(0), part, key) == Opening(key, 4 + c, WINDOW, FirstPart(c), WINDOW, 0)
  {
    FirstBurstFails(key, 1, c);
    WaveAfter(Opened(0), Burst(key, 0, 1), key, WINDOW, More([], 0, 1), 0, WINDOW, c);
  }

  lemma SecondPartFails(key: Key, c: nat)
    requires c >= 1
    ensures var g, part := Opening(key, 4 + c, WINDOW, FirstPart(c), WINDOW, 0), Burst(key, WINDOW + 1, 1) + Wave(key, WINDOW + 1, c);
            && Within(g, part, key, c)
            && PassedAll(g, part, key) == Opening(key, 4 + c, WINDOW + 1 + WINDOW, BothParts(c), WINDOW + 1, 0)
  {
    var at, first := WINDOW + 1, FirstPart(c);
    NextWindowOpens(key, 4 + c, WINDOW, first, WINDOW, at, c);
    WaveAfter(Opening(key, 4 + c, WINDOW, first, WINDOW, 0), Burst(key, at, 1), key, at + WINDOW, More(first, at, 1), at, at, c);
  }

  lemma WorstFails(key: Key, c: nat)
    requires c >= 1
    ensures Within(Opened(0), Worst(key, c), key, c)
    ensures PassedAll(Opened(0), Worst(key, c), key) == Opening(key, 4 + c, WINDOW + 1 + WINDOW, BothParts(c), WINDOW + 1, 0)
  {
    FirstPartFails(key, c);
    SecondPartFails(key, c);
    Append(Opened(0), Burst(key, 0, 1) + Wave(key, WINDOW, c), Opening(key, 4 + c, WINDOW, FirstPart(c), WINDOW, 0),
           Burst(key, WINDOW + 1, 1) + Wave(key, WINDOW + 1, c),
           Opening(key, 4 + c, WINDOW + 1 + WINDOW, BothParts(c), WINDOW + 1, 0), key, c);
  }

  lemma PartsInNumbers(c: nat)
    ensures var failures, last := BothParts(c), 2 * (4 + c) - 1;
            |failures| == last + 1 && failures[1] == WINDOW && failures[last] == WINDOW + 1
  {
    MoreHas([], 0, 1);
    MoreHas(More([], 0, 1), WINDOW, 3 + c);
    MoreHas(FirstPart(c), WINDOW + 1, 1);
    MoreHas(More(FirstPart(c), WINDOW + 1, 1), WINDOW + 1, 3 + c);
  }

  /** The bound is reached for every number of logins in flight, and within a millisecond. */
  lemma BoundIsReached(key: Key, c: nat)
    requires c >= 1
    ensures Forward(0, Worst(key, c)) && Within(Opened(0), Worst(key, c), key, c)
    ensures var failures, last := FailuresOf(Run(0, Worst(key, c)), key), 2 * (4 + c) - 1;
            |failures| == last + 1 && failures[last] - failures[1] == 1
  {
    WorstIsForward(key, c);
    WorstFails(key, c);
    PassedIsRun(0, Worst(key, c), key);
    PartsInNumbers(c);
  }

  /** Nine, for a client that waits for each answer: ten wrong logins, the last nine of them failing within a millisecond. */
  lemma NineIsReached(key: Key)
    ensures Forward(0, Worst(key, 1)) && Within(Opened(0), Worst(key, 1), key, 1)
    ensures var failures := FailuresOf(Run(0, Worst(key, 1)), key);
            |failures| == 10 && failures[9] - failures[1] == 1
  {
    BoundIsReached(key, 1);
  }
}
