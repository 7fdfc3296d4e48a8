/** backend/app/auth/ratelimit.py, and the order in which backend/app/api/auth_api.py calls it. */
module LoginThrottling {
  import opened Wrappers

  /** A Redis counter and the moment it expires. */
  datatype Counter = Counter(count: nat, expires: int)

  function Key(username: string, ip: string): string {
    "nls:login_fail:" + ip + ":" + username[..Min(|username|, 64)]
  }

  /** GET */
  function Live(counters: map<string, Counter>, key: string, now: int): Option<nat> {
    if key in counters && now < counters[key].expires then Some(counters[key].count) else None
  }

  function Count(live: Option<nat>): nat {
    if live.None? then 0 else live.value
  }

  class LoginThrottle {
    const maxFailures: int
    const lockout: int
    var counters: map<string, Counter>

    constructor (maxFailures: int, lockout: int)
      ensures this.maxFailures == maxFailures && this.lockout == lockout && counters == map[]
    {
      this.maxFailures, this.lockout, counters := maxFailures, lockout, map[];
    }

    /** Answers when Redis does; otherwise everyone is let in. */
    method Check(username: string, ip: string, now: int, available: bool) returns (allowed: bool, remaining: int)
      ensures allowed <==> !available || Live(counters, Key(username, ip), now).None? ||
                           Live(counters, Key(username, ip), now).value < maxFailures
      ensures !allowed ==> remaining == counters[Key(username, ip)].expires - now
      ensures 0 <= remaining
    {
      if !available {
        return true, 0;
      }
      var key := Key(username, ip);
      var count := Live(counters, key, now);
      if count == None {
        return true, 0;
      }
      if count.value < maxFailures {
        return true, 0;
      }
      allowed, remaining := false, Max(counters[key].expires - now, 0);
    }

    /** INCR and EXPIRE in one transaction */
    method RecordFailure(username: string, ip: string, now: int, available: bool)
      modifies this
      ensures counters == if available then Failed(old(counters), Key(username, ip), now, lockout) else old(counters)
    {
      if available {
        var key := Key(username, ip);
        var count := Live(counters, key, now);
        if count == None {
          counters := counters[key := Counter(1, now + lockout)];
        } else {
          counters := counters[key := Counter(count.value + 1, now + lockout)];
        }
      }
    }

    method Clear(username: string, ip: string, available: bool)
      modifies this
      ensures counters == if available then old(counters) - {Key(username, ip)} else old(counters)
    {
      if available {
        counters := counters - {Key(username, ip)};
      }
    }
  }

  function Failed(counters: map<string, Counter>, key: string, now: int, lockout: int): map<string, Counter> {
    counters[key := Counter(Count(Live(counters, key, now)) + 1, now + lockout)]
  }

  // ----------------------------------------------------------------- logins at one counter

  /** Logins that share a key, with Redis available.
      verifying   logins that passed the check and are still comparing the password
      now         the time of the last event
      failures    (history) when failures were recorded
      successes   (history) when the counter was cleared
      streak      (history) the failures since it was last cleared */
  datatype State = State(counters: map<string, Counter>, verifying: nat, now: int,
                         failures: seq<int>, successes: seq<int>, streak: seq<int>)

  datatype Event = Begin(at: int) | Fail(at: int) | Succeed(at: int)

  datatype Policy = Policy(key: string, maxFailures: int, lockout: int)

  const NO_LOGINS := State(map[], 0, 0, [], [], [])

  predicate Refused(c: Policy, s: State, now: int) {
    var live := Live(s.counters, c.key, now);
    live.Some? && live.value >= c.maxFailures
  }

  predicate Possible(s: State, e: Event) {
    s.now <= e.at && (!e.Begin? ==> s.verifying > 0)
  }

  function Next(c: Policy, s: State, e: Event): State
    requires Possible(s, e)
  {
    var s' := s.(now := e.at);
    match e
    case Begin(now) => if Refused(c, s, now) then s' else s'.(verifying := s.verifying + 1)
    case Fail(now) =>
      s'.(counters := Failed(s.counters, c.key, now, c.lockout), verifying := s.verifying - 1,
          failures := s.failures + [now], streak := s.streak + [now])
    case Succeed(now) =>
      s'.(counters := s.counters - {c.key}, verifying := s.verifying - 1,
          successes := s.successes + [now], streak := [])
  }

  /** Runs in which at most `overlap` logins are between their check and their outcome. */
  function Run(c: Policy, s: State, events: seq<Event>, overlap: nat): Option<State>
    decreases events
  {
    if events == [] then Some(s)
    else if Possible(s, events[0]) && Next(c, s, events[0]).verifying <= overlap
      then Run(c, Next(c, s, events[0]), events[1..], overlap)
    else None
  }

  function Within(times: seq<int>, from: int, length: int): nat {
    if times == [] then 0
    else (if from <= times[|times| - 1] < from + length then 1 else 0) + Within(times[..|times| - 1], from, length)
  }

  lemma WithinSnoc(times: seq<int>, t: int, from: int, length: int)
    ensures Within(times + [t], from, length) == Within(times, from, length) + if from <= t < from + length then 1 else 0
  {
    assert (times + [t])[..|times|] == times;
  }

  // ----------------------------------------------------------------- the window theorem

  /** While the window is open and saw no success: the counter counts at least the window's
      failures and outlives the window, and once the limit is reached only logins already past
      their check can still fail. */
  predicate Bounded(c: Policy, s: State, from: int, overlap: nat) {
    var n := Within(s.failures, from, c.lockout);
    Within(s.successes, from, c.lockout) == 0 ==>
      && n <= c.maxFailures + overlap - 1
      && (n > 0 ==> from <= s.now)
      && (n > 0 && s.now < from + c.lockout ==>
            c.key in s.counters && s.counters[c.key].count >= n && s.counters[c.key].expires >= from + c.lockout)
      && (n >= c.maxFailures && s.now < from + c.lockout ==> n + s.verifying <= c.maxFailures + overlap - 1)
  }

  lemma StepStaysBounded(c: Policy, s: State, e: Event, from: int, overlap: nat)
    requires c.maxFailures >= 1 && overlap >= 1
    requires Possible(s, e) && s.verifying <= overlap && Next(c, s, e).verifying <= overlap
    requires Bounded(c, s, from, overlap)
    ensures Bounded(c, Next(c, s, e), from, overlap)
  {
    if e.Fail? {
      WithinSnoc(s.failures, e.at, from, c.lockout);
    } else if e.Succeed? {
      WithinSnoc(s.successes, e.at, from, c.lockout);
    }
  }

  lemma {:induction false} RunStaysBounded(c: Policy, s: State, events: seq<Event>, overlap: nat, from: int)
    requires c.maxFailures >= 1 && overlap >= 1 && s.verifying <= overlap && Bounded(c, s, from, overlap)
    requires Run(c, s, events, overlap).Some?
    ensures Bounded(c, Run(c, s, events, overlap).value, from, overlap)
    decreases events
  {
    if events != [] {
      StepStaysBounded(c, s, events[0], from, overlap);
      RunStaysBounded(c, Next(c, s, events[0]), events[1..], overlap, from);
    }
  }

  /** In any stretch of `lockout` seconds without a successful login at most maxFailures failures
      are recorded if logins come one after the other, and at most maxFailures + overlap - 1 if
      `overlap` of them can be verifying at a time. */
  lemma FailuresInAnyWindow(c: Policy, events: seq<Event>, overlap: nat, from: int)
    requires c.maxFailures >= 1 && overlap >= 1 && Run(c, NO_LOGINS, events, overlap).Some?
    ensures var s := Run(c, NO_LOGINS, events, overlap).value;
            Within(s.successes, from, c.lockout) == 0 ==>
              Within(s.failures, from, c.lockout) <= c.maxFailures + overlap - 1
  {
    RunStaysBounded(c, NO_LOGINS, events, overlap, from);
  }

  // ----------------------------------------------------------------- the bound is met

  /** n logins pass the check at the same instant. */
  function Begins(n: nat): seq<Event> {
    seq(n, _ => Begin(0))
  }

  function Fails(n: nat): seq<Event> {
    seq(n, _ => Fail(0))
  }

  /** maxFailures - 1 failures one after the other, then `overlap` at once. */
  function Sequential(n: nat): seq<Event> {
    if n == 0 then [] else [Begin(0), Fail(0)] + Sequential(n - 1)
  }

  lemma {:induction false} RunConcat(c: Policy, s: State, a: seq<Event>, b: seq<Event>, overlap: nat)
    requires Run(c, s, a, overlap).Some?
    ensures Run(c, s, a + b, overlap) == Run(c, Run(c, s, a, overlap).value, b, overlap)
    decreases a
  {
    if a == [] {
      assert a + b == b;
    } else {
      assert (a + b)[0] == a[0] && (a + b)[1..] == a[1..] + b;
      RunConcat(c, Next(c, s, a[0]), a[1..], b, overlap);
    }
  }

  /** k failures are on the counter, all at time 0. */
  predicate AtZero(c: Policy, s: State, k: nat, verifying: nat) {
    && s.now == 0 && s.verifying == verifying && s.successes == []
    && Count(Live(s.counters, c.key, 0)) == k && Within(s.failures, 0, c.lockout) == k
  }

  lemma {:induction false} BeginsRun(c: Policy, s: State, n: nat, k: nat, overlap: nat)
    requires c.lockout >= 1 && AtZero(c, s, k, s.verifying) && k < c.maxFailures && s.verifying + n <= overlap
    ensures var r := Run(c, s, Begins(n), overlap);
            r.Some? && AtZero(c, r.value, k, s.verifying + n)
    decreases n
  {
    if n > 0 {
      var s' := Next(c, s, Begin(0));
      assert Begins(n)[0] == Begin(0) && Begins(n)[1..] == Begins(n - 1);
      BeginsRun(c, s', n - 1, k, overlap);
    }
  }

  lemma FailAtZero(c: Policy, s: State, k: nat)
    requires c.lockout >= 1 && AtZero(c, s, k, s.verifying) && s.verifying > 0
    ensures AtZero(c, Next(c, s, Fail(0)), k + 1, s.verifying - 1)
  {
    var s' := Next(c, s, Fail(0));
    WithinSnoc(s.failures, 0, 0, c.lockout);
    assert s'.counters[c.key] == Counter(k + 1, c.lockout);
  }

  lemma {:induction false} FailsRun(c: Policy, s: State, n: nat, k: nat, overlap: nat)
    requires c.lockout >= 1 && AtZero(c, s, k, s.verifying) && s.verifying == n <= overlap
    ensures var r := Run(c, s, Fails(n), overlap);
            r.Some? && AtZero(c, r.value, k + n, 0)
    decreases n
  {
    if n > 0 {
      FailAtZero(c, s, k);
      assert Fails(n)[0] == Fail(0) && Fails(n)[1..] == Fails(n - 1);
      FailsRun(c, Next(c, s, Fail(0)), n - 1, k + 1, overlap);
    }
  }

  lemma {:induction false} SequentialRun(c: Policy, s: State, n: nat, k: nat, overlap: nat)
    requires c.lockout >= 1 && overlap >= 1 && AtZero(c, s, k, 0) && k + n <= c.maxFailures
    ensures var r := Run(c, s, Sequential(n), overlap);
            r.Some? && AtZero(c, r.value, k + n, 0)
    decreases n
  {
    if n > 0 {
      OneInTurn(c, s, k);
      RunTwo(c, s, Begin(0), Fail(0), Sequential(n - 1), overlap);
      SequentialRun(c, Next(c, Next(c, s, Begin(0)), Fail(0)), n - 1, k + 1, overlap);
    }
  }

  lemma OneInTurn(c: Policy, s: State, k: nat)
    requires c.lockout >= 1 && AtZero(c, s, k, 0) && k < c.maxFailures
    ensures Possible(s, Begin(0)) && Next(c, s, Begin(0)).verifying == 1
    ensures Possible(Next(c, s, Begin(0)), Fail(0)) && AtZero(c, Next(c, Next(c, s, Begin(0)), Fail(0)), k + 1, 0)
  {
    FailAtZero(c, Next(c, s, Begin(0)), k);
  }

  lemma RunTwo(c: Policy, s: State, a: Event, b: Event, rest: seq<Event>, overlap: nat)
    requires Possible(s, a) && Next(c, s, a).verifying <= overlap
    requires Possible(Next(c, s, a), b) && Next(c, Next(c, s, a), b).verifying <= overlap
    ensures Run(c, s, [a, b] + rest, overlap) == Run(c, Next(c, Next(c, s, a), b), rest, overlap)
  {
    var s1, events := Next(c, s, a), [a, b] + rest;
    assert events[0] == a && events[1..] == [b] + rest;
    assert ([b] + rest)[0] == b && ([b] + rest)[1..] == rest;
    assert Run(c, s, events, overlap) == Run(c, s1, [b] + rest, overlap);
  }

  /** No smaller bound holds: maxFailures - 1 wrong passwords in turn and then `overlap` at once. */
  lemma BoundIsMet(c: Policy, overlap: nat)
    requires c.maxFailures >= 1 && overlap >= 1 && c.lockout >= 1
    ensures exists events :: Run(c, NO_LOGINS, events, overlap).Some? &&
              var s := Run(c, NO_LOGINS, events, overlap).value;
              s.successes == [] && Within(s.failures, 0, c.lockout) == c.maxFailures + overlap - 1
  {
    var before := Sequential(c.maxFailures - 1);
    SequentialRun(c, NO_LOGINS, c.maxFailures - 1, 0, overlap);
    var s1 := Run(c, NO_LOGINS, before, overlap).value;
    BeginsRun(c, s1, overlap, c.maxFailures - 1, overlap);
    var s2 := Run(c, s1, Begins(overlap), overlap).value;
    FailsRun(c, s2, overlap, c.maxFailures - 1, overlap);
    RunConcat(c, s1, Begins(overlap), Fails(overlap), overlap);
    RunConcat(c, NO_LOGINS, before, Begins(overlap) + Fails(overlap), overlap);
  }

  // ----------------------------------------------------------------- who is refused

  /** The failures that count now: going back from now, no two neighbours a lockout apart. */
  function Recent(times: seq<int>, now: int, lockout: int): nat {
    if times == [] || now - times[|times| - 1] >= lockout then 0
    else 1 + Recent(times[..|times| - 1], times[|times| - 1], lockout)
  }

  predicate Counts(c: Policy, s: State) {
    && (s.streak == [] <==> c.key !in s.counters)
    && (s.streak != [] ==>
          var last := s.streak[|s.streak| - 1];
          last <= s.now && s.counters[c.key].expires == last + c.lockout &&
          s.counters[c.key].count == 1 + Recent(s.streak[..|s.streak| - 1], last, c.lockout))
  }

  lemma CountIsRecent(c: Policy, s: State, now: int)
    requires Counts(c, s) && s.now <= now
    ensures Count(Live(s.counters, c.key, now)) == Recent(s.streak, now, c.lockout)
  {
  }

  lemma FailCounts(c: Policy, s: State, now: int)
    requires Possible(s, Fail(now)) && Counts(c, s)
    ensures Counts(c, Next(c, s, Fail(now)))
  {
    CountIsRecent(c, s, now);
    var s' := Next(c, s, Fail(now));
    assert s'.streak[..|s'.streak| - 1] == s.streak;
    assert s'.counters[c.key] == Counter(Recent(s.streak, now, c.lockout) + 1, now + c.lockout);
  }

  lemma StepCounts(c: Policy, s: State, e: Event)
    requires Possible(s, e) && Counts(c, s)
    ensures Counts(c, Next(c, s, e))
  {
    if e.Fail? {
      FailCounts(c, s, e.at);
    }
  }

  lemma {:induction false} RunCounts(c: Policy, s: State, events: seq<Event>, overlap: nat)
    requires Counts(c, s) && Run(c, s, events, overlap).Some?
    ensures Counts(c, Run(c, s, events, overlap).value)
    decreases events
  {
    if events != [] {
      StepCounts(c, s, events[0]);
      RunCounts(c, Next(c, s, events[0]), events[1..], overlap);
    }
  }

  /** A login is refused exactly when maxFailures failures since the last success follow each other,
      and the present, at less than `lockout` seconds: every failure extends the lockout of those before. */
  lemma RefusedIff(c: Policy, events: seq<Event>, overlap: nat, now: int)
    requires c.maxFailures >= 1 && Run(c, NO_LOGINS, events, overlap).Some? && Run(c, NO_LOGINS, events, overlap).value.now <= now
    ensures var s := Run(c, NO_LOGINS, events, overlap).value;
            Refused(c, s, now) <==> Recent(s.streak, now, c.lockout) >= c.maxFailures
  {
    RunCounts(c, NO_LOGINS, events, overlap);
    CountIsRecent(c, Run(c, NO_LOGINS, events, overlap).value, now);
  }
}
