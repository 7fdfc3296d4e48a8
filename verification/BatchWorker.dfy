/** backend/app/services/worker.py: the batch worker as the program it is, next to the state
    machine of Delivery.  Every effect the program has on Redis and ClickHouse is one transition of
    that machine, whatever the other processes do while it awaits. */
module BatchWorkers {
  import opened Wrappers
  import opened Wire
  import opened RedisQueue
  import opened Delivery

  const MAX_BACKOFF := 30

  /** A row as it is inserted: the timestamp converted, in microseconds, the other columns as they travelled. */
  datatype StoredRow = StoredRow(timestamp: int, columns: Row)

  function RowOf(p: Payload): StoredRow {
    if Decodable(p) && HasTimestamp(p.items) then StoredRow(Moment(p.items[0]).value, p.items[1..])
    else StoredRow(0, [])
  }

  function RowsOf(batch: seq<Payload>): seq<StoredRow> {
    seq(|batch|, i requires 0 <= i < |batch| => RowOf(batch[i]))
  }

  /** The pause before attempt k + 2. */
  function Backoff(k: nat): nat {
    if k == 0 then 1 else Min(Backoff(k - 1) * 2, MAX_BACKOFF)
  }

  /** Pauses of one retry loop, the first one first. */
  predicate AreBackoffs(waits: seq<nat>) {
    forall k :: 0 <= k < |waits| ==> waits[k] == Backoff(k)
  }

  lemma BackoffSnoc(waits: seq<nat>)
    requires AreBackoffs(waits)
    ensures AreBackoffs(waits + [Backoff(|waits|)])
    ensures Backoff(|waits| + 1) == Min(Backoff(|waits|) * 2, MAX_BACKOFF)
  {
  }

  /** The pauses double and stop growing at MAX_BACKOFF. */
  lemma {:induction false} BackoffGrows(k: nat)
    ensures 1 <= Backoff(k) <= Backoff(k + 1) <= MAX_BACKOFF
    ensures k >= 5 ==> Backoff(k) == MAX_BACKOFF
    ensures k < 5 ==> Backoff(k) * 2 == (if k == 4 then 32 else Backoff(k + 1))
  {
    if k > 0 {
      BackoffGrows(k - 1);
    }
  }

  lemma RowsSnoc(claimed: seq<Payload>, i: nat)
    requires i < |claimed|
    ensures RowsOf(Rows(claimed[..i + 1])) ==
            RowsOf(Rows(claimed[..i])) + if Decodable(claimed[i]) then [RowOf(claimed[i])] else []
    ensures |Rows(claimed[..i + 1])| == |Rows(claimed[..i])| + if Decodable(claimed[i]) then 1 else 0
  {
    var one := if Decodable(claimed[i]) then [claimed[i]] else [];
    assert claimed[..i + 1] == claimed[..i] + [claimed[i]];
    RowsOfConcat(claimed[..i], [claimed[i]]);
    assert Rows([claimed[i]]) == one;
  }

  /** _decode: the rows to insert and the number of payloads skipped; ok is false when a timestamp
      conversion raises, which leaves the loop at once. */
  method DecodeBatch(claimed: seq<Payload>) returns (ok: bool, rows: seq<StoredRow>, bad: nat)
    ensures ok <==> !HasPoison(claimed)
    ensures ok ==> rows == RowsOf(Rows(claimed)) && bad == |claimed| - |Rows(claimed)|
  {
    rows, bad := [], 0;
    var i := 0;
    while i < |claimed|
      invariant 0 <= i <= |claimed|
      invariant forall j :: 0 <= j < i ==> !Poison(claimed[j])
      invariant rows == RowsOf(Rows(claimed[..i])) && bad == i - |Rows(claimed[..i])|
    {
      RowsSnoc(claimed, i);
      var decoded := Decode(claimed[i]);
      if decoded.None? {
        bad := bad + 1;
      } else {
        var moment := Moment(decoded.value[0]);
        if moment.None? {
          return false, [], 0;
        }
        rows := rows + [StoredRow(moment.value, decoded.value[1..])];
      }
      i := i + 1;
    }
    assert claimed[..i] == claimed;
    ok := true;
  }

  class ClickHouse {
    var rows: seq<StoredRow>

    method Insert(batch: seq<StoredRow>)
      modifies this
      ensures rows == old(rows) + batch
    {
      rows := rows + batch;
    }
  }

  /** The lists in Redis are those of the abstract state. */
  ghost predicate Couples(lists: Lists, queue: Key, keys: seq<Key>, sys: System) {
    && NoEmptyList(lists)
    && |sys.workers| == |keys|
    && ListAt(lists, queue) == sys.queue
    && forall i :: 0 <= i < |keys| ==> ListAt(lists, keys[i]) == sys.workers[i].inflight
  }

  ghost predicate DistinctKeys(queue: Key, keys: seq<Key>) {
    queue !in keys && forall i, j :: 0 <= i < j < |keys| ==> keys[i] != keys[j]
  }

  /** Storing a queue and one in-flight list couples the lists with any state that differs from
      the old one in nothing else. */
  lemma CouplesUpdate(lists: Lists, queue: Key, keys: seq<Key>, sys: System, sys': System, who: nat)
    requires Couples(lists, queue, keys, sys) && DistinctKeys(queue, keys)
    requires who < |keys| == |sys'.workers|
    requires forall i :: 0 <= i < |keys| && i != who ==> sys'.workers[i] == sys.workers[i]
    ensures Couples(WithList(WithList(lists, queue, sys'.queue), keys[who], sys'.workers[who].inflight), queue, keys, sys')
  {
    var lists' := WithList(WithList(lists, queue, sys'.queue), keys[who], sys'.workers[who].inflight);
    assert keys[who] != queue;
    forall i | 0 <= i < |keys| ensures ListAt(lists', keys[i]) == sys'.workers[i].inflight {
      if i != who {
        assert keys[i] != keys[who];
        assert keys[i] != queue;
      }
    }
  }

  /** A transition changes the queue and the list of its own worker, and no other list. */
  lemma CouplesNext(lists: Lists, queue: Key, keys: seq<Key>, sys: System, l: Label, other: nat)
    requires Couples(lists, queue, keys, sys) && DistinctKeys(queue, keys)
    requires Enabled(sys, l) && other < |keys|
    ensures var who, sys' := Actor(l, other), Next(sys, l);
      && who < |keys| == |sys'.workers|
      && Couples(WithList(WithList(lists, queue, sys'.queue), keys[who], sys'.workers[who].inflight), queue, keys, sys')
  {
    NextTouchesOne(sys, l, other);
    CouplesUpdate(lists, queue, keys, sys, Next(sys, l), Actor(l, other));
  }

  /** How an acknowledgement ends. */
  datatype AckResult = Acked | AckRaised(applied: bool)

  /** One pass through the retry loop as the outside world decides it: whether the insert is
      confirmed, what the other processes do before and after its answer, and whether a stop signal
      arrives. */
  datatype Attempt = Attempt(before: seq<Label>, confirmed: bool, after: seq<Label>, stop: bool)

  /** One pass through the main loop. */
  datatype Round = Round(meanwhile: seq<Label>, claimRaises: bool, attempts: seq<Attempt>, ack: AckResult, stop: bool)

  // ----------------------------------------------------------------- what a run consists of

  /** The transitions that worker `me` takes itself. */
  predicate Mine(l: Label, me: nat) {
    !l.Push? && !l.Land? && !l.Recover? && l.w == me
  }

  function Own(labels: seq<Label>, me: nat): seq<Label> {
    if labels == [] then []
    else
      var last := |labels| - 1;
      Own(labels[..last], me) + (if Mine(labels[last], me) then [labels[last]] else [])
  }

  /** How often the list of `me` was taken away by a recovery. */
  function Recoveries(labels: seq<Label>, me: nat): nat {
    if labels == [] then 0
    else
      var last := |labels| - 1;
      Recoveries(labels[..last], me) + (if labels[last] == Recover(me) then 1 else 0)
  }

  /** What each claim of `me` took from the queue, as the queue was then. */
  function Took(s: System, labels: seq<Label>, me: nat): seq<seq<Payload>> {
    if labels == [] then []
    else
      var last := |labels| - 1;
      var before := After(s, labels[..last]);
      Took(s, labels[..last], me) +
      (if before.Some? && labels[last].Claim? && labels[last].w == me
       then [Claimed(before.value.queue, labels[last].n)] else [])
  }

  lemma OwnSnoc(labels: seq<Label>, l: Label, me: nat)
    ensures Own(labels + [l], me) == Own(labels, me) + (if Mine(l, me) then [l] else [])
    ensures Recoveries(labels + [l], me) == Recoveries(labels, me) + (if l == Recover(me) then 1 else 0)
  {
    assert (labels + [l])[..|labels|] == labels;
  }

  function AckLabel(me: nat, ack: AckResult): Label {
    if ack.Acked? then Ack(me) else AckError(me, ack.applied)
  }

  // The retry loop: failed attempts, and then one of three ends.

  /** How many attempts fail before one is confirmed, a stop signal has arrived, or none is left. */
  function Failures(attempts: seq<Attempt>, stop: bool): (k: nat)
    ensures k <= |attempts| && (k > 0 ==> !stop)
    decreases attempts
  {
    if stop || attempts == [] || attempts[0].confirmed then 0 else 1 + Failures(attempts[1..], attempts[0].stop)
  }

  /** The stop signal that ends the loop. */
  predicate StoppedFirst(attempts: seq<Attempt>, stop: bool) {
    var k := Failures(attempts, stop);
    if k == 0 then stop else attempts[k - 1].stop
  }

  /** An insert is confirmed before any stop signal. */
  predicate Confirmed(attempts: seq<Attempt>, stop: bool) {
    Failures(attempts, stop) < |attempts| && !StoppedFirst(attempts, stop)
  }

  function Errors(me: nat, k: nat): (r: seq<Label>)
    ensures |r| == k
  {
    if k == 0 then [] else Errors(me, k - 1) + [InsertError(me)]
  }

  /** A confirmed insert is acknowledged, a stop signal gives the claim back, and a process that gets
      neither is killed some time. */
  function RetrySteps(me: nat, attempts: seq<Attempt>, ack: AckResult, stop: bool): seq<Label> {
    Errors(me, Failures(attempts, stop)) + RetryEnd(me, attempts, ack, stop)
  }

  function RetryEnd(me: nat, attempts: seq<Attempt>, ack: AckResult, stop: bool): seq<Label> {
    if StoppedFirst(attempts, stop) then [Stop(me)]
    else if Confirmed(attempts, stop) then [InsertOk(me), AckLabel(me, ack)]
    else [Crash(me)]
  }

  /** Whether a stop signal has arrived by the end of that. */
  predicate StopAfter(attempts: seq<Attempt>, stop: bool) {
    if Confirmed(attempts, stop) then attempts[Failures(attempts, stop)].stop else StoppedFirst(attempts, stop)
  }

  /** What follows a claim.  A record without a timestamp ends the process at once. */
  function BatchSteps(me: nat, claimed: seq<Payload>, attempts: seq<Attempt>, ack: AckResult, stop: bool): seq<Label> {
    if claimed == [] || HasPoison(claimed) then []
    else if Rows(claimed) == [] then [AckLabel(me, ack)]
    else RetrySteps(me, attempts, ack, stop)
  }

  predicate Inserts(claimed: seq<Payload>) {
    claimed != [] && !HasPoison(claimed) && Rows(claimed) != []
  }

  /** The process goes on to claim again. */
  predicate Survives(claimed: seq<Payload>, attempts: seq<Attempt>, ack: AckResult, stop: bool) {
    claimed == [] ||
    (!HasPoison(claimed) && ack.Acked? && (Rows(claimed) == [] || Confirmed(attempts, stop)))
  }

  /** The steps so far, what their claims took, whether the process is alive, and whether a stop signal has
      arrived. */
  datatype Progress = Progress(steps: seq<Label>, taken: seq<seq<Payload>>, alive: bool, stop: bool)

  function Turned(me: nat, n: int, round: Round, claimed: seq<Payload>, p: Progress): Progress {
    if round.claimRaises then p.(stop := round.stop)
    else
      Progress(p.steps + [Claim(me, n)] + BatchSteps(me, claimed, round.attempts, round.ack, round.stop),
               p.taken + [claimed],
               Survives(claimed, round.attempts, round.ack, round.stop),
               if Inserts(claimed) then StopAfter(round.attempts, round.stop) else round.stop)
  }

  /** The main loop, when round i claims claims[i]. */
  function Turns(me: nat, n: int, rounds: seq<Round>, claims: seq<seq<Payload>>): Progress
    requires |claims| == |rounds|
  {
    if rounds == [] then Progress([], [], true, false)
    else
      var last := |rounds| - 1;
      var p := Turns(me, n, rounds[..last], claims[..last]);
      if p.stop || !p.alive then p else Turned(me, n, rounds[last], claims[last], p)
  }

  /** All that the process does: recover its list, loop, and give up; a process that is never told to
      stop is killed some time. */
  function RunSteps(me: nat, n: int, rounds: seq<Round>, claims: seq<seq<Payload>>): seq<Label>
    requires |claims| == |rounds|
  {
    var p := Turns(me, n, rounds, claims);
    [Start(me)] + p.steps + (if !p.alive then [] else if p.stop then [Stop(me)] else [Crash(me)])
  }

  /** After `attempt` failures the loop goes on as it would from there. */
  predicate Retried(attempts: seq<Attempt>, first: bool, attempt: nat, stop: bool) {
    && attempt <= |attempts|
    && attempt + Failures(attempts[attempt..], stop) == Failures(attempts, first)
    && stop == if attempt == 0 then first else attempts[attempt - 1].stop
  }

  lemma RetriedStep(attempts: seq<Attempt>, first: bool, attempt: nat)
    requires Retried(attempts, first, attempt, false) && attempt < |attempts| && !attempts[attempt].confirmed
    ensures Retried(attempts, first, attempt + 1, attempts[attempt].stop)
  {
    assert attempts[attempt..][1..] == attempts[attempt + 1..];
  }

  lemma RetriedEnds(attempts: seq<Attempt>, first: bool, attempt: nat, stop: bool)
    requires Retried(attempts, first, attempt, stop)
    requires stop || attempt == |attempts| || attempts[attempt].confirmed
    ensures attempt == Failures(attempts, first) && stop == StoppedFirst(attempts, first)
  {
  }

  lemma ErrorsSnoc(before: seq<Label>, me: nat, k: nat)
    ensures before + Errors(me, k) + [InsertError(me)] == before + Errors(me, k + 1)
  {
    SeqAssoc(before, Errors(me, k), [InsertError(me)]);
  }

  // ----------------------------------------------------------------- what the steps come to

  /** The attempts before the end failed, no stop signal came between them, and the one after them, if the
      loop gets to it, is confirmed. */
  lemma {:induction false} FailuresAre(attempts: seq<Attempt>, stop: bool)
    ensures var k := Failures(attempts, stop);
      && (forall j :: 0 <= j < k ==> !attempts[j].confirmed)
      && (forall j :: 0 <= j < k - 1 ==> !attempts[j].stop)
      && (Confirmed(attempts, stop) ==> attempts[k].confirmed)
    decreases attempts
  {
    if !stop && attempts != [] && !attempts[0].confirmed {
      var k, rest := Failures(attempts[1..], attempts[0].stop), attempts[1..];
      FailuresAre(rest, attempts[0].stop);
      forall j | 0 <= j < k + 1 ensures !attempts[j].confirmed {
        if j > 0 {
          assert !rest[j - 1].confirmed;
        }
      }
      forall j | 0 <= j < k ensures !attempts[j].stop {
        if j > 0 {
          assert !rest[j - 1].stop;
        }
      }
    }
  }

  function Claims(steps: seq<Label>): nat {
    if steps == [] then 0
    else Claims(steps[..|steps| - 1]) + (if steps[|steps| - 1].Claim? then 1 else 0)
  }

  lemma {:induction false} ClaimsConcat(a: seq<Label>, b: seq<Label>)
    ensures Claims(a + b) == Claims(a) + Claims(b)
  {
    if b == [] {
      assert a + b == a;
    } else {
      var last := |b| - 1;
      assert (a + b)[..|a + b| - 1] == a + b[..last];
      ClaimsConcat(a, b[..last]);
    }
  }

  lemma {:induction false} ErrorsClaimNothing(me: nat, k: nat)
    ensures Claims(Errors(me, k)) == 0
  {
    if k > 0 {
      ErrorsClaimNothing(me, k - 1);
      assert Errors(me, k)[..k - 1] == Errors(me, k - 1);
    }
  }

  lemma RetryClaimsNothing(me: nat, attempts: seq<Attempt>, ack: AckResult, stop: bool)
    ensures Claims(RetrySteps(me, attempts, ack, stop)) == 0
  {
    var k := Failures(attempts, stop);
    ErrorsClaimNothing(me, k);
    ClaimsConcat(Errors(me, k), RetryEnd(me, attempts, ack, stop));
    if Confirmed(attempts, stop) {
      ClaimsConcat([InsertOk(me)], [AckLabel(me, ack)]);
      ClaimsOfOne(InsertOk(me));
      ClaimsOfOne(AckLabel(me, ack));
    } else {
      ClaimsOfOne(RetryEnd(me, attempts, ack, stop)[0]);
    }
  }

  lemma ClaimsOfOne(l: Label)
    ensures Claims([l]) == if l.Claim? then 1 else 0
  {
    assert [l][..0] == [];
  }

  /** How many rounds were begun, and how many of them claimed. */
  function Begun(me: nat, n: int, rounds: seq<Round>, claims: seq<seq<Payload>>): nat
    requires |claims| == |rounds|
  {
    if rounds == [] then 0
    else
      var last := |rounds| - 1;
      var p := Turns(me, n, rounds[..last], claims[..last]);
      Begun(me, n, rounds[..last], claims[..last]) + (if p.stop || !p.alive then 0 else 1)
  }

  function Answering(rounds: seq<Round>): nat {
    if rounds == [] then 0
    else Answering(rounds[..|rounds| - 1]) + (if rounds[|rounds| - 1].claimRaises then 0 else 1)
  }

  /** k rounds were begun, all of them or until the process ended or was told to stop, and it claimed once
      in each that answered. */
  predicate ClaimsMatch(p: Progress, rounds: seq<Round>, k: nat) {
    k <= |rounds| && (k < |rounds| ==> p.stop || !p.alive) && Claims(p.steps) == Answering(rounds[..k])
  }

  /** The process claims once in each round that it begins and whose claim answers, and goes on from
      round to round until it is told to stop or ends. */
  lemma {:induction false} OneClaimARound(me: nat, n: int, rounds: seq<Round>, claims: seq<seq<Payload>>)
    requires |claims| == |rounds|
    ensures ClaimsMatch(Turns(me, n, rounds, claims), rounds, Begun(me, n, rounds, claims))
  {
    if rounds == [] {
      assert rounds[..0] == [];
    } else {
      var last := |rounds| - 1;
      var p, k := Turns(me, n, rounds[..last], claims[..last]), Begun(me, n, rounds[..last], claims[..last]);
      OneClaimARound(me, n, rounds[..last], claims[..last]);
      if p.stop || !p.alive {
        assert rounds[..last][..k] == rounds[..k];
      } else {
        OneMoreClaim(me, n, rounds, claims[last], p, k);
      }
    }
  }

  lemma OneMoreClaim(me: nat, n: int, rounds: seq<Round>, claimed: seq<Payload>, p: Progress, k: nat)
    requires rounds != [] && !p.stop && p.alive && ClaimsMatch(p, rounds[..|rounds| - 1], k)
    ensures ClaimsMatch(Turned(me, n, rounds[|rounds| - 1], claimed, p), rounds, k + 1)
  {
    assert rounds[..|rounds| - 1][..k] == rounds[..k];
    AllBegun(rounds, k);
    TurnClaims(me, n, rounds[k], claimed, p);
  }

  lemma AllBegun(rounds: seq<Round>, k: nat)
    requires k == |rounds| - 1
    ensures rounds[..k + 1] == rounds
    ensures Answering(rounds) == Answering(rounds[..k]) + (if rounds[k].claimRaises then 0 else 1)
  {
  }

  lemma TurnClaims(me: nat, n: int, round: Round, claimed: seq<Payload>, p: Progress)
    ensures Claims(Turned(me, n, round, claimed, p).steps) == Claims(p.steps) + (if round.claimRaises then 0 else 1)
  {
    if !round.claimRaises {
      var steps := BatchSteps(me, claimed, round.attempts, round.ack, round.stop);
      ClaimsConcat(p.steps, [Claim(me, n)]);
      ClaimsConcat(p.steps + [Claim(me, n)], steps);
      ClaimsOfOne(Claim(me, n));
      if Inserts(claimed) {
        RetryClaimsNothing(me, round.attempts, round.ack, round.stop);
      } else {
        assert steps == [] || steps[..0] == [];
      }
    }
  }

  /** No step that begins or ends a process. */
  predicate Ordinary(steps: seq<Label>) {
    forall i :: 0 <= i < |steps| ==>
      !steps[i].Start? && !steps[i].Stop? && !steps[i].Crash? && !steps[i].AckError?
  }

  /** The steps of a process that has ended: by a stop, by a kill, by an acknowledgement that raised, or
      by a claim of a record without a timestamp. */
  predicate Ended(steps: seq<Label>) {
    steps != [] && Ordinary(steps[..|steps| - 1]) &&
    (var e := steps[|steps| - 1]; e.Stop? || e.Crash? || e.AckError? || e.Claim?)
  }

  lemma OrdinaryThen(a: seq<Label>, b: seq<Label>)
    requires Ordinary(a)
    ensures Ordinary(b) ==> Ordinary(a + b)
    ensures Ended(b) ==> Ended(a + b)
  {
    if Ended(b) {
      assert (a + b)[..|a + b| - 1] == a + b[..|b| - 1];
    }
  }

  lemma {:induction false} ErrorsAreOrdinary(me: nat, k: nat)
    ensures Ordinary(Errors(me, k))
  {
    if k > 0 {
      ErrorsAreOrdinary(me, k - 1);
    }
  }

  lemma RetryEnds(me: nat, attempts: seq<Attempt>, ack: AckResult, stop: bool)
    ensures var steps := RetrySteps(me, attempts, ack, stop);
      steps != [] && if Confirmed(attempts, stop) && ack.Acked? then Ordinary(steps) else Ended(steps)
  {
    var end := RetryEnd(me, attempts, ack, stop);
    if Confirmed(attempts, stop) {
      assert end[..1] == [InsertOk(me)];
    } else {
      assert end[..0] == [];
    }
    ErrorsAreOrdinary(me, Failures(attempts, stop));
    OrdinaryThen(Errors(me, Failures(attempts, stop)), end);
  }

  lemma BatchEnds(me: nat, n: int, claimed: seq<Payload>, attempts: seq<Attempt>, ack: AckResult, stop: bool)
    ensures var steps := [Claim(me, n)] + BatchSteps(me, claimed, attempts, ack, stop);
      if Survives(claimed, attempts, ack, stop) then Ordinary(steps) else Ended(steps)
  {
    var claim := Claim(me, n);
    if Inserts(claimed) {
      RetryEnds(me, attempts, ack, stop);
      OrdinaryThen([claim], RetrySteps(me, attempts, ack, stop));
    } else if claimed == [] || HasPoison(claimed) {
      assert [claim] + [] == [claim] && [claim][..0] == [];
    } else {
      var end := AckLabel(me, ack);
      assert [end][..0] == [];
      OrdinaryThen([claim], [end]);
    }
  }

  lemma {:induction false} TurnsEnd(me: nat, n: int, rounds: seq<Round>, claims: seq<seq<Payload>>)
    requires |claims| == |rounds|
    ensures var p := Turns(me, n, rounds, claims); if p.alive then Ordinary(p.steps) else Ended(p.steps)
  {
    if rounds != [] {
      var last := |rounds| - 1;
      TurnsEnd(me, n, rounds[..last], claims[..last]);
      var p, round := Turns(me, n, rounds[..last], claims[..last]), rounds[last];
      if !p.stop && p.alive && !round.claimRaises {
        BatchEnds(me, n, claims[last], round.attempts, round.ack, round.stop);
        var more := [Claim(me, n)] + BatchSteps(me, claims[last], round.attempts, round.ack, round.stop);
        SeqAssoc(p.steps, [Claim(me, n)], BatchSteps(me, claims[last], round.attempts, round.ack, round.stop));
        OrdinaryThen(p.steps, more);
      }
    }
  }

  /** A process begins by recovering its own list, never again does anything like it, and its last step is
      to give its list back exactly if it was not killed, was not ended by an acknowledgement that raised,
      and did not claim a record without a timestamp. */
  lemma RunEndsOneWay(me: nat, n: int, rounds: seq<Round>, claims: seq<seq<Payload>>)
    requires |claims| == |rounds|
    ensures var steps := RunSteps(me, n, rounds, claims);
      && |steps| >= 2 && steps[0] == Start(me) && Ended(steps[1..])
  {
    TurnsEnd(me, n, rounds, claims);
    var p, steps := Turns(me, n, rounds, claims), RunSteps(me, n, rounds, claims);
    var end := if !p.alive then [] else if p.stop then [Stop(me)] else [Crash(me)];
    assert steps[1..] == p.steps + end;
    if p.alive {
      assert end[..0] == [];
      OrdinaryThen(p.steps, end);
    } else {
      assert p.steps + end == p.steps;
    }
  }

  // ----------------------------------------------------------------- the program

  /** `after` is `before`, rows that others inserted, `rows` in one piece, and again rows of others. */
  predicate GrewBy(before: seq<StoredRow>, after: seq<StoredRow>, rows: seq<StoredRow>) {
    before <= after && exists k: nat :: |before| <= k <= |after| && StandsAt(after, rows, k)
  }

  predicate StandsAt(table: seq<StoredRow>, rows: seq<StoredRow>, k: nat) {
    k + |rows| <= |table| && table[k..k + |rows|] == rows
  }

  lemma GrewAmongOthers(before: seq<StoredRow>, first: seq<StoredRow>, mid: seq<StoredRow>, after: seq<StoredRow>,
                        rows: seq<StoredRow>)
    requires before <= first && GrewBy(first, mid, rows) && mid <= after
    ensures GrewBy(before, after, rows)
  {
    var k: nat :| |first| <= k <= |mid| && StandsAt(mid, rows, k);
    assert after[k..k + |rows|] == mid[k..k + |rows|];
    assert StandsAt(after, rows, k);
  }

  lemma RowsOfBoth(a: seq<Payload>, b: seq<Payload>)
    ensures RowsOf(a + b) == RowsOf(a) + RowsOf(b)
  {
  }

  lemma InsertMovesNoList(lists: Lists, queue: Key, keys: seq<Key>, s: System, me: nat)
    requires Couples(lists, queue, keys, s) && Enabled(s, InsertOk(me))
    ensures Couples(lists, queue, keys, Next(s, InsertOk(me)))
    ensures Next(s, InsertOk(me)).stored == s.stored + Rows(s.workers[me].phase.batch)
  {
  }

  lemma GrewLater(before: seq<StoredRow>, mid: seq<StoredRow>, after: seq<StoredRow>, rows: seq<StoredRow>)
    requires before <= mid && GrewBy(mid, after, rows)
    ensures GrewBy(before, after, rows)
  {
    var k: nat :| |mid| <= k <= |after| && StandsAt(after, rows, k);
  }

  /** The turns so far; the bound variable keeps Turns folded. */
  ghost predicate TurnsAre(me: nat, n: int, rounds: seq<Round>, claims: seq<seq<Payload>>, p: Progress) {
    |claims| <= |rounds| && forall begun :: begun == rounds[..|claims|] ==> Turns(me, n, begun, claims) == p
  }

  /** One more turn: what it adds to the steps and the claims so far. */
  lemma NextTurn(begun: seq<Label>, took: seq<seq<Payload>>, me: nat, n: int, rounds: seq<Round>,
                 claims: seq<seq<Payload>>, claimed: seq<Payload>, p: Progress)
    returns (q: Progress)
    requires |claims| < |rounds| && TurnsAre(me, n, rounds, claims, p) && !p.stop && p.alive
    ensures TurnsAre(me, n, rounds, claims + [claimed], q)
    ensures var round := rounds[|claims|];
      && q.alive == (round.claimRaises || Survives(claimed, round.attempts, round.ack, round.stop))
      && q.stop ==
         (if !round.claimRaises && Inserts(claimed) then StopAfter(round.attempts, round.stop) else round.stop)
      && begun + q.steps ==
         (if round.claimRaises then begun + p.steps
          else begun + p.steps + [Claim(me, n)] + BatchSteps(me, claimed, round.attempts, round.ack, round.stop))
      && took + q.taken == (if round.claimRaises then took + p.taken else took + p.taken + [claimed])
  {
    var round, k := rounds[|claims|], |claims|;
    q := Turned(me, n, round, claimed, p);
    assert rounds[..k + 1][..k] == rounds[..k] && (claims + [claimed])[..k] == claims;
    assert Turns(me, n, rounds[..k], claims) == p;
    if !round.claimRaises {
      TurnAppends(begun, took, me, n, round, claimed, p);
    }
  }

  lemma TurnAppends(begun: seq<Label>, took: seq<seq<Payload>>, me: nat, n: int, round: Round, claimed: seq<Payload>,
                    p: Progress)
    requires !round.claimRaises
    ensures var q := Turned(me, n, round, claimed, p);
      && begun + p.steps + [Claim(me, n)] + BatchSteps(me, claimed, round.attempts, round.ack, round.stop) ==
         begun + q.steps
      && took + p.taken + [claimed] == took + q.taken
  {
    SeqAssoc(begun, p.steps, [Claim(me, n)]);
    SeqAssoc(begun, p.steps + [Claim(me, n)], BatchSteps(me, claimed, round.attempts, round.ack, round.stop));
    SeqAssoc(took, p.taken, [claimed]);
  }

  /** Rounds after a stop signal or the end of the process change nothing. */
  lemma {:induction false} LoopIsOver(me: nat, n: int, rounds: seq<Round>, claims: seq<seq<Payload>>, i: nat)
    requires |claims| == |rounds| && i <= |rounds|
    requires var p := Turns(me, n, rounds[..i], claims[..i]); i == |rounds| || p.stop || !p.alive
    ensures Turns(me, n, rounds, claims) == Turns(me, n, rounds[..i], claims[..i])
  {
    if i == |rounds| {
      assert rounds[..i] == rounds && claims[..i] == claims;
    } else {
      var last := |rounds| - 1;
      assert rounds[..last][..i] == rounds[..i] && claims[..last][..i] == claims[..i];
      LoopIsOver(me, n, rounds[..last], claims[..last], i);
      RoundAfterEnd(me, n, rounds, claims);
    }
  }

  lemma RoundAfterEnd(me: nat, n: int, rounds: seq<Round>, claims: seq<seq<Payload>>)
    requires |claims| == |rounds| > 0
    ensures var p := Turns(me, n, rounds[..|rounds| - 1], claims[..|rounds| - 1]);
      p.stop || !p.alive ==> Turns(me, n, rounds, claims) == p
  {
  }

  lemma RunAppends(before: seq<Label>, begun: seq<Label>, me: nat, n: int, rounds: seq<Round>, claims: seq<seq<Payload>>)
    requires |claims| == |rounds| && begun == before + [Start(me)]
    ensures var p := Turns(me, n, rounds, claims);
      var end := if !p.alive then [] else if p.stop then [Stop(me)] else [Crash(me)];
      begun + p.steps + end == before + RunSteps(me, n, rounds, claims)
  {
    var p := Turns(me, n, rounds, claims);
    SeqAssoc(before, [Start(me)], p.steps);
    SeqAssoc(before, [Start(me)] + p.steps, if !p.alive then [] else if p.stop then [Stop(me)] else [Crash(me)]);
  }

  // The recursive functions of the next two predicates are bound, so that they are unfolded only where
  // they are spoken of.

  ghost predicate IsRun(origin: System, run: seq<Label>, sys: System) {
    Initial(origin) && forall s :: s == origin ==> After(s, run) == Some(sys)
  }

  ghost predicate IsOwn(run: seq<Label>, me: nat, mine: seq<Label>, recoveries: nat) {
    forall w: nat :: w == me ==> Own(run, w) == mine && Recoveries(run, w) == recoveries
  }

  ghost predicate IsTook(origin: System, run: seq<Label>, me: nat, took: seq<seq<Payload>>) {
    forall w: nat :: w == me ==> Took(origin, run, w) == took
  }

  lemma IsTookExtends(origin: System, run: seq<Label>, sys: System, me: nat, took: seq<seq<Payload>>, l: Label)
    requires IsRun(origin, run, sys) && IsTook(origin, run, me, took)
    ensures IsTook(origin, run + [l], me,
                   took + if l.Claim? && l.w == me then [Claimed(sys.queue, l.n)] else [])
  {
    assert (run + [l])[..|run|] == run;
    assert Took(origin, run, me) == took && After(origin, run) == Some(sys);
  }

  lemma IsRunExtends(origin: System, run: seq<Label>, sys: System, l: Label)
    requires IsRun(origin, run, sys) && Enabled(sys, l)
    ensures IsRun(origin, run + [l], Next(sys, l))
  {
    assert After(origin, run) == Some(sys);
    Extend(origin, run, l);
  }

  lemma IsOwnExtends(run: seq<Label>, me: nat, mine: seq<Label>, recoveries: nat, l: Label)
    requires IsOwn(run, me, mine, recoveries)
    ensures IsOwn(run + [l], me, mine + (if Mine(l, me) then [l] else []),
                  recoveries + (if l == Recover(me) then 1 else 0))
  {
    assert Own(run, me) == mine;
    OwnSnoc(run, l, me);
  }

  lemma AnsweredStep(s: System, l: Label)
    requires NothingUnseen(s) && Enabled(s, l) && !l.ClaimReplyLost?
    ensures NothingUnseen(Next(s, l))
  {
  }

  lemma StoredGrows(s: System, l: Label)
    requires Enabled(s, l)
    ensures RowsOf(s.stored) <= RowsOf(Next(s, l).stored)
  {
    var more := Next(s, l).stored[|s.stored|..];
    assert Next(s, l).stored == s.stored + more;
    RowsOfBoth(s.stored, more);
  }

  /** The other participants touch worker me only by recovering its list. */
  lemma OthersLeaveIt(s: System, l: Label, me: nat)
    requires Enabled(s, l) && me < |s.workers| && !Mine(l, me)
    ensures Next(s, l).workers[me].phase == s.workers[me].phase
    ensures l != Recover(me) ==> Next(s, l).workers[me] == s.workers[me]
  {
  }

  class BatchWorker {
    const me: nat
    const keys: seq<Key>
    const queue: LogQueue
    const ch: ClickHouse
    const batchSize: nat
    var stop: bool
    var parserErrors: nat
    var storedCounter: nat
    ghost const origin: System
    var sys: System
    ghost var run: seq<Label>
    ghost var mine: seq<Label>
    ghost var took: seq<seq<Payload>>
    ghost var recoveries: nat

    ghost predicate Shape()
    {
      me < |keys| && DistinctKeys(queue.key, keys) && batchSize >= 1
    }

    /** The real lists and rows are those of the abstract state, which a run of the machine reaches.
        `mine` are the worker's own steps of that run, and `took` what its claims took.  It is said of every
        s that is sys, so that proofs look inside only where they speak of Matches. */
    ghost predicate Valid()
      reads `sys, `run, `mine, `took, `recoveries, queue.r, ch
    {
      Shape() && |sys.workers| == |keys| && forall s: System :: s == sys ==> Matches(s)
    }

    ghost predicate Matches(s: System)
      reads `run, `mine, `took, `recoveries, queue.r, ch
    {
      && Couples(queue.r.lists, queue.key, keys, s)
      && ch.rows == RowsOf(s.stored)
      && Traced(s)
    }

    ghost predicate Traced(s: System)
      reads `run, `mine, `took, `recoveries
    {
      && IsRun(origin, run, s) && IsOwn(run, me, mine, recoveries) && IsTook(origin, run, me, took)
      && WorkersInv(s.workers) && ClaimsAnswered(run) && NothingUnseen(s)
    }

    ghost function Phase(): Phase
      reads `sys
      requires me < |sys.workers|
    {
      sys.workers[me].phase
    }

    /** The worker's in-flight list and the queue, as Redis has them. */
    function OwnList(): seq<Payload>
      reads queue.r
      requires me < |keys|
    {
      ListAt(queue.r.lists, keys[me])
    }

    function QueueList(): seq<Payload>
      reads queue.r
    {
      ListAt(queue.r.lists, queue.key)
    }

    constructor (me: nat, keys: seq<Key>, queue: LogQueue, ch: ClickHouse, batchSize: nat)
      requires me < |keys| && DistinctKeys(queue.key, keys) && batchSize >= 1
      requires queue.r.Valid() && queue.r.lists == map[] && ch.rows == []
      ensures Valid() && run == [] && mine == [] && took == [] && !stop && Phase() == Off
      ensures this.me == me && this.queue == queue && this.ch == ch && this.batchSize == batchSize
    {
      this.me, this.keys, this.queue, this.ch, this.batchSize := me, keys, queue, ch, batchSize;
      stop, parserErrors, storedCounter := false, 0, 0;
      origin := Fresh(|keys|);
      sys := Fresh(|keys|);
      run, mine, took, recoveries := [], [], [], 0;
    }

    /** The program or one of the other processes took the transition l, not a claim of the program. */
    method Note(l: Label)
      requires Traced(sys) && Enabled(sys, l) && !l.ClaimReplyLost? && !(l.Claim? && l.w == me)
      modifies this`sys, this`run, this`mine, this`recoveries
      ensures Traced(sys) && sys == Next(old(sys), l) && run == old(run) + [l]
      ensures mine == old(mine) + (if Mine(l, me) then [l] else [])
      ensures recoveries == old(recoveries) + (if l == Recover(me) then 1 else 0)
    {
      IsRunExtends(origin, run, sys, l);
      StepWorkers(sys, l);
      IsOwnExtends(run, me, mine, recoveries, l);
      IsTookExtends(origin, run, sys, me, took, l);
      AnsweredStep(sys, l);
      sys := Next(sys, l);
      run := run + [l];
      mine := mine + (if Mine(l, me) then [l] else []);
      recoveries := recoveries + (if l == Recover(me) then 1 else 0);
    }

    /** The program claimed. */
    method NoteClaim()
      requires Traced(sys) && Enabled(sys, Claim(me, batchSize))
      modifies this`sys, this`run, this`mine, this`took
      ensures Traced(sys) && sys == Next(old(sys), Claim(me, batchSize)) && mine == old(mine) + [Claim(me, batchSize)]
      ensures took == old(took) + [Claimed(old(sys).queue, batchSize)]
    {
      var l := Claim(me, batchSize);
      IsRunExtends(origin, run, sys, l);
      StepWorkers(sys, l);
      IsOwnExtends(run, me, mine, recoveries, l);
      IsTookExtends(origin, run, sys, me, took, l);
      AnsweredStep(sys, l);
      took := took + [Claimed(sys.queue, batchSize)];
      sys := Next(sys, l);
      run := run + [l];
      mine := mine + [l];
    }

    /** What the other participants may do on their own. */
    predicate Foreign(l: Label) {
      !Mine(l, me) && !l.ClaimReplyLost?
    }

    /** One transition of another participant, as Redis and ClickHouse show it. */
    method Environment(l: Label)
      requires Valid() && Foreign(l) && Enabled(sys, l)
      modifies this`sys, this`run, this`mine, this`recoveries, queue.r, ch
      ensures Valid() && sys == Next(old(sys), l) && run == old(run) + [l] && mine == old(mine)
      ensures recoveries == old(recoveries) + (if l == Recover(me) then 1 else 0)
      ensures old(ch.rows) <= ch.rows
    {
      assert Matches(sys);
      var r := queue.r;
      var who := Actor(l, me);
      CouplesNext(r.lists, queue.key, keys, sys, l, me);
      StoredGrows(sys, l);
      Note(l);
      r.lists := WithList(WithList(r.lists, queue.key, sys.queue), keys[who], sys.workers[who].inflight);
      ch.rows := RowsOf(sys.stored);
    }

    /** An await: any number of transitions of the others, skipping those that are not possible.  They
        leave the worker's list alone, unless they recover it. */
    method Await(meanwhile: seq<Label>)
      requires Valid()
      modifies this`sys, this`run, this`mine, this`recoveries, queue.r, ch
      ensures Valid() && Phase() == old(Phase()) && mine == old(mine)
      ensures old(ch.rows) <= ch.rows
      ensures recoveries >= old(recoveries) && (recoveries == old(recoveries) ==> OwnList() == old(OwnList()))
    {
      var i := 0;
      while i < |meanwhile|
        invariant 0 <= i <= |meanwhile|
        invariant Valid() && Phase() == old(Phase()) && mine == old(mine)
        invariant old(ch.rows) <= ch.rows
        invariant recoveries >= old(recoveries) && (recoveries == old(recoveries) ==> OwnList() == old(OwnList()))
      {
        if Foreign(meanwhile[i]) && Enabled(sys, meanwhile[i]) {
          assert Matches(sys);
          OthersLeaveIt(sys, meanwhile[i], me);
          Environment(meanwhile[i]);
          assert Matches(sys);
        }
        i := i + 1;
      }
    }

    // --------------------------------------------------------------- one effect each

    method ReleaseOwn(l: Label)
      requires Valid() && Enabled(sys, l) && l in [Start(me), Stop(me)]
      modifies this`sys, this`run, this`mine, this`recoveries, queue.r
      ensures Valid() && sys == Next(old(sys), l) && mine == old(mine) + [l] && recoveries == old(recoveries)
      ensures OwnList() == [] && QueueList() == old(OwnList()) + old(QueueList())
    {
      assert Matches(sys);
      CouplesNext(queue.r.lists, queue.key, keys, sys, l, me);
      ReleasedLengths(queue.r.lists, keys[me], queue.key);
      var n := queue.Release(keys[me]);
      Note(l);
    }

    method ClaimOwn() returns (items: seq<Payload>)
      requires Valid() && Phase() == Ready
      modifies this`sys, this`run, this`mine, this`took, queue.r
      ensures Valid() && items == Claimed(old(QueueList()), batchSize) && OwnList() == items
      ensures Phase() == if items == [] then Ready else Decoded(items)
      ensures sys == Next(old(sys), Claim(me, batchSize)) && mine == old(mine) + [Claim(me, batchSize)]
      ensures took == old(took) + [items]
    {
      assert Matches(sys);
      CouplesNext(queue.r.lists, queue.key, keys, sys, Claim(me, batchSize), me);
      assert [] + Claimed(QueueList(), batchSize) == Claimed(QueueList(), batchSize);
      items := queue.Claim(keys[me], batchSize);
      NoteClaim();
    }

    method InsertOwn(rows: seq<StoredRow>)
      requires Valid() && Phase().Holding? && rows == RowsOf(Rows(Phase().batch))
      modifies this`sys, this`run, this`mine, this`recoveries, ch
      ensures Valid() && sys == Next(old(sys), InsertOk(me)) && mine == old(mine) + [InsertOk(me)]
      ensures ch.rows == old(ch.rows) + rows && recoveries == old(recoveries)
    {
      assert Matches(sys);
      RowsOfBoth(sys.stored, Rows(Phase().batch));
      InsertMovesNoList(queue.r.lists, queue.key, keys, sys, me);
      ch.Insert(rows);
      Note(InsertOk(me));
    }

    /** The delete of the in-flight key; true when it answered. */
    method AckOwn(result: AckResult) returns (alive: bool)
      requires Valid() && (Phase().Inserted? || Phase().Discarding?)
      modifies this`sys, this`run, this`mine, this`recoveries, queue.r
      ensures Valid() && alive == result.Acked? && Phase() == (if alive then Ready else Off)
      ensures mine == old(mine) + [AckLabel(me, result)] && recoveries == old(recoveries)
      ensures OwnList() == if result.Acked? || result.applied then [] else old(OwnList())
    {
      assert Matches(sys);
      var l := AckLabel(me, result);
      CouplesNext(queue.r.lists, queue.key, keys, sys, l, me);
      WithListAsIs(queue.r.lists, queue.key);
      if result.Acked? || result.applied {
        queue.Ack(keys[me]);
      }
      Note(l);
      alive := result.Acked?;
    }

    /** An insert that raises. */
    method FailOwn()
      requires Valid() && Phase().Holding?
      modifies this`sys, this`run, this`mine, this`recoveries
      ensures Valid() && Phase() == old(Phase()) && OwnList() == old(OwnList())
      ensures mine == old(mine) + [InsertError(me)] && recoveries == old(recoveries)
    {
      assert Matches(sys);
      Note(InsertError(me));
    }

    method DieOwn()
      requires Valid() && Phase() != Off
      modifies this`sys, this`run, this`mine, this`recoveries
      ensures Valid() && Phase() == Off && OwnList() == old(OwnList())
      ensures mine == old(mine) + [Crash(me)] && recoveries == old(recoveries)
    {
      assert Matches(sys);
      Note(Crash(me));
    }

    // --------------------------------------------------------------- the retry loop

    /** An attempt whose insert raises: the claim is kept. */
    method TryFails(a: Attempt)
      requires Valid() && Phase().Holding?
      modifies this`sys, this`run, this`mine, this`recoveries, queue.r, ch
      ensures Valid() && Phase() == old(Phase()) && mine == old(mine) + [InsertError(me)]
      ensures old(ch.rows) <= ch.rows
      ensures recoveries >= old(recoveries) && (recoveries == old(recoveries) ==> OwnList() == old(OwnList()))
    {
      Await(a.before);
      FailOwn();
      Await(a.after);
    }

    /** The insert of a confirmed attempt. */
    method InsertAmong(rows: seq<StoredRow>, a: Attempt)
      requires Valid() && Phase().Holding? && rows == RowsOf(Rows(Phase().batch))
      modifies this`sys, this`run, this`mine, this`recoveries, queue.r, ch
      ensures Valid() && Phase() == Inserted(old(Phase()).batch) && mine == old(mine) + [InsertOk(me)]
      ensures GrewBy(old(ch.rows), ch.rows, rows)
    {
      Await(a.before);
      ghost var first := ch.rows;
      InsertOwn(rows);
      ghost var inserted := ch.rows;
      assert StandsAt(inserted, rows, |first|);
      Await(a.after);
      GrewAmongOthers(old(ch.rows), first, inserted, ch.rows, rows);
    }

    /** A confirmed attempt: the rows are in the table, and if the acknowledgement answers, the in-flight
        list is gone. */
    method Try(rows: seq<StoredRow>, a: Attempt, ack: AckResult) returns (alive: bool)
      requires Valid() && Phase().Holding? && rows == RowsOf(Rows(Phase().batch))
      modifies this`sys, this`run, this`mine, this`recoveries, this`storedCounter, queue.r, ch
      ensures Valid() && alive == ack.Acked? && Phase() == (if alive then Ready else Off)
      ensures mine == old(mine) + [InsertOk(me), AckLabel(me, ack)]
      ensures GrewBy(old(ch.rows), ch.rows, rows)
      ensures alive ==> OwnList() == []
      ensures storedCounter == old(storedCounter) + (if alive then |rows| else 0)
    {
      InsertAmong(rows, a);
      ghost var grown := ch.rows;
      SeqAssoc(old(mine), [InsertOk(me)], [AckLabel(me, ack)]);
      alive := AckOwn(ack);
      assert ch.rows == grown;
      if alive {
        storedCounter := storedCounter + |rows|;
      }
    }

    /** The failing passes of the retry loop: up to the first attempt that is confirmed, a stop signal, or
        the last attempt. */
    method RetryFailing(attempts: seq<Attempt>) returns (attempt: nat, waits: seq<nat>)
      requires Valid() && Phase().Holding?
      modifies this`sys, this`run, this`mine, this`recoveries, this`stop, queue.r, ch
      ensures Valid() && Phase() == old(Phase())
      ensures attempt == Failures(attempts, old(stop)) == |waits| && AreBackoffs(waits)
      ensures stop == StoppedFirst(attempts, old(stop))
      ensures attempt == |attempts| || stop || attempts[attempt].confirmed
      ensures mine == old(mine) + Errors(me, attempt)
      ensures old(ch.rows) <= ch.rows
      ensures recoveries >= old(recoveries) && (recoveries == old(recoveries) ==> OwnList() == old(OwnList()))
    {
      waits := [];
      var backoff := 1;
      attempt := 0;
      assert attempts[0..] == attempts;
      assert old(mine) + Errors(me, 0) == old(mine);
      while !stop && attempt < |attempts| && !attempts[attempt].confirmed
        invariant Retried(attempts, old(stop), attempt, stop)
        invariant Valid() && Phase() == old(Phase())
        invariant mine == old(mine) + Errors(me, attempt)
        invariant |waits| == attempt && backoff == Backoff(attempt) && AreBackoffs(waits)
        invariant old(ch.rows) <= ch.rows
        invariant recoveries >= old(recoveries) && (recoveries == old(recoveries) ==> OwnList() == old(OwnList()))
        decreases |attempts| - attempt
      {
        RetriedStep(attempts, old(stop), attempt);
        ErrorsSnoc(old(mine), me, attempt);
        BackoffSnoc(waits);
        TryFails(attempts[attempt]);
        stop := attempts[attempt].stop;
        waits := waits + [backoff];
        attempt := attempt + 1;
        backoff := Min(backoff * 2, MAX_BACKOFF);
      }
      RetriedEnds(attempts, old(stop), attempt, stop);
    }

    /** The retry loop of _write_with_retry and what follows it.  Confirmed: the rows are in the table, and
        an acknowledgement that answers leaves the list empty.  Stopped: the claim is back at the head of
        the queue.  Killed: it stays in the list.  In both cases a recovery may have taken it before. */
    method Retry(claimed: seq<Payload>, rows: seq<StoredRow>, attempts: seq<Attempt>, ack: AckResult)
      returns (alive: bool, waits: seq<nat>)
      requires Valid() && Inserts(claimed) && Phase() == Holding(claimed) && OwnList() == claimed
      requires rows == RowsOf(Rows(claimed))
      modifies this`sys, this`run, this`mine, this`recoveries, this`stop, this`storedCounter, queue.r, ch
      ensures Valid() && mine == old(mine) + RetrySteps(me, attempts, ack, old(stop))
      ensures alive <==> Confirmed(attempts, old(stop)) && ack.Acked?
      ensures Phase() == if alive then Ready else Off
      ensures stop == StopAfter(attempts, old(stop))
      ensures AreBackoffs(waits) && |waits| == Failures(attempts, old(stop))
      ensures Confirmed(attempts, old(stop)) ==> GrewBy(old(ch.rows), ch.rows, rows)
      ensures alive ==> OwnList() == []
      ensures StoppedFirst(attempts, old(stop)) ==>
                OwnList() == [] && (claimed <= QueueList() || recoveries > old(recoveries))
      ensures !Confirmed(attempts, old(stop)) && !StoppedFirst(attempts, old(stop)) ==>
                OwnList() == claimed || recoveries > old(recoveries)
      ensures storedCounter == old(storedCounter) + (if alive then |rows| else 0)
    {
      ghost var held := OwnList();
      var attempt;
      attempt, waits := RetryFailing(attempts);
      ghost var before := ch.rows;
      SeqAssoc(old(mine), Errors(me, attempt), RetryEnd(me, attempts, ack, old(stop)));
      alive := false;
      if stop {
        ReleaseOwn(Stop(me));
      } else if attempt == |attempts| {
        DieOwn();
      } else {
        alive := Try(rows, attempts[attempt], ack);
        GrewLater(old(ch.rows), before, ch.rows, rows);
        stop := attempts[attempt].stop;
      }
    }

    // --------------------------------------------------------------- the program

    /** _write_with_retry; alive: the process goes on to claim again.  Undecodable payloads are counted, a
        batch without rows is acknowledged, and a record without a timestamp ends the process with the
        claim in its list. */
    method WriteWithRetry(claimed: seq<Payload>, attempts: seq<Attempt>, ack: AckResult)
      returns (alive: bool, waits: seq<nat>)
      requires Valid() && claimed != [] && Phase() == Decoded(claimed) && OwnList() == claimed
      modifies this`sys, this`run, this`mine, this`recoveries, this`stop, this`parserErrors, this`storedCounter,
               queue.r, ch
      ensures Valid() && mine == old(mine) + BatchSteps(me, claimed, attempts, ack, old(stop))
      ensures alive <==> Survives(claimed, attempts, ack, old(stop))
      ensures Phase() == if alive then Ready else Off
      ensures stop == if Inserts(claimed) then StopAfter(attempts, old(stop)) else old(stop)
      ensures AreBackoffs(waits)
      ensures Inserts(claimed) && Confirmed(attempts, old(stop)) ==>
                GrewBy(old(ch.rows), ch.rows, RowsOf(Rows(claimed)))
      ensures alive ==> OwnList() == []
      ensures HasPoison(claimed) ==> OwnList() == claimed && mine == old(mine)
      ensures Inserts(claimed) && StoppedFirst(attempts, old(stop)) ==>
                OwnList() == [] && (claimed <= QueueList() || recoveries > old(recoveries))
      ensures storedCounter == old(storedCounter) + (if alive then |Rows(claimed)| else 0)
      ensures !HasPoison(claimed) ==> parserErrors == old(parserErrors) + |claimed| - |Rows(claimed)|
    {
      waits := [];
      var ok, rows, bad := DecodeBatch(claimed);
      if !ok {
        alive := false;
        return;
      }
      parserErrors := parserErrors + bad;
      if rows == [] {
        alive := AckOwn(ack);
      } else {
        alive, waits := Retry(claimed, rows, attempts, ack);
      }
    }

    /** One pass through the loop of run: one claim, unless it raises, and everything that follows it. */
    method TakeTurn(round: Round) returns (alive: bool, claimed: seq<Payload>)
      requires Valid() && Phase() == Ready
      modifies this`sys, this`run, this`mine, this`took, this`recoveries, this`stop, this`parserErrors,
               this`storedCounter, queue.r, ch
      ensures Valid() && Phase() == (if alive then Ready else Off)
      ensures round.claimRaises ==> alive && claimed == [] && mine == old(mine) && stop == round.stop
      ensures !round.claimRaises ==>
        && mine == old(mine) + [Claim(me, batchSize)] + BatchSteps(me, claimed, round.attempts, round.ack, round.stop)
        && alive == Survives(claimed, round.attempts, round.ack, round.stop)
        && stop == if Inserts(claimed) then StopAfter(round.attempts, round.stop) else round.stop
      ensures took == if round.claimRaises then old(took) else old(took) + [claimed]
      ensures alive && Inserts(claimed) ==> GrewBy(old(ch.rows), ch.rows, RowsOf(Rows(claimed)))
      ensures alive && claimed != [] ==> OwnList() == []
    {
      claimed := [];
      alive := true;
      Await(round.meanwhile);
      stop := round.stop;
      if round.claimRaises {
        return;
      }
      ghost var before := ch.rows;
      claimed := ClaimOwn();
      if claimed == [] {
        assert mine + [] == mine;
        return;
      }
      var waits;
      alive, waits := WriteWithRetry(claimed, round.attempts, round.ack);
      if alive && Inserts(claimed) {
        GrewLater(old(ch.rows), before, ch.rows, RowsOf(Rows(claimed)));
      }
    }

    /** The main loop.  claims[i] is what round i claimed; later rounds are not begun. */
    method Loop(rounds: seq<Round>) returns (alive: bool, claims: seq<seq<Payload>>)
      requires Valid() && Phase() == Ready && !stop
      modifies this`sys, this`run, this`mine, this`took, this`recoveries, this`stop, this`parserErrors,
               this`storedCounter, queue.r, ch
      ensures Valid() && Phase() == (if alive then Ready else Off)
      ensures |claims| == |rounds| || (|claims| < |rounds| && (stop || !alive))
      ensures var p := Turns(me, batchSize, rounds[..|claims|], claims);
              mine == old(mine) + p.steps && took == old(took) + p.taken && alive == p.alive && stop == p.stop
    {
      claims := [];
      alive := true;
      ghost var p := Progress([], [], true, false);
      assert mine + [] == mine && took + [] == took;
      while alive && !stop && |claims| < |rounds|
        invariant Valid() && Phase() == (if alive then Ready else Off) && TurnsAre(me, batchSize, rounds, claims, p)
        invariant mine == old(mine) + p.steps && took == old(took) + p.taken && alive == p.alive && stop == p.stop
        decreases |rounds| - |claims|
      {
        var claimed;
        alive, claimed := TakeTurn(rounds[|claims|]);
        p := NextTurn(old(mine), old(took), me, batchSize, rounds, claims, claimed, p);
        claims := claims + [claimed];
      }
    }

    /** run: recover the own list, then claim and write until a stop signal or the end of the process. */
    method Run(rounds: seq<Round>) returns (claims: seq<seq<Payload>>)
      requires Valid() && Phase() == Off && !stop
      modifies this`sys, this`run, this`mine, this`took, this`recoveries, this`stop, this`parserErrors,
               this`storedCounter, queue.r, ch
      ensures Valid() && Phase() == Off && |claims| == |rounds|
      ensures mine == old(mine) + RunSteps(me, batchSize, rounds, claims)
      ensures took == old(took) + Turns(me, batchSize, rounds, claims).taken
    {
      ReleaseOwn(Start(me));
      ghost var begun := mine;
      var alive;
      alive, claims := Loop(rounds);
      ghost var i := |claims|;
      ghost var taken := claims;
      claims := claims + seq(|rounds| - |claims|, _ => []);
      assert claims[..i] == taken;
      LoopIsOver(me, batchSize, rounds, claims, i);
      GiveUp(alive);
      RunAppends(old(mine), begun, me, batchSize, rounds, claims);
    }

    /** After the loop: a process that is alive was told to stop and gives its list back, or is killed. */
    method GiveUp(alive: bool)
      requires Valid() && Phase() == (if alive then Ready else Off)
      modifies this`sys, this`run, this`mine, this`recoveries, queue.r
      ensures Valid() && Phase() == Off
      ensures mine == old(mine) + (if !alive then [] else if stop then [Stop(me)] else [Crash(me)])
    {
      if !alive {
        assert mine + [] == mine;
      } else if stop {
        ReleaseOwn(Stop(me));
      } else {
        DieOwn();
      }
    }
  }

  // ----------------------------------------------------------------- what the operator can rely on

  /** Everything that was pushed in a run. */
  function Arrivals(labels: seq<Label>): seq<Payload> {
    if labels == [] then []
    else (if labels[0].Push? then labels[0].records else []) + Arrivals(labels[1..])
  }

  lemma {:induction false} PushedAreArrivals(s: System, labels: seq<Label>)
    requires After(s, labels).Some?
    ensures After(s, labels).value.pushed == s.pushed + Arrivals(labels)
    decreases labels
  {
    if labels == [] {
      assert s.pushed + [] == s.pushed;
    } else {
      var records := if labels[0].Push? then labels[0].records else [];
      var s1 := Next(s, labels[0]);
      assert s1.pushed == s.pushed + records;
      PushedAreArrivals(s1, labels[1..]);
      SeqAssoc(s.pushed, records, Arrivals(labels[1..]));
    }
  }

  /** How often p is in the lists of Redis with the given keys. */
  function InLists(lists: Lists, keys: seq<Key>, p: Payload): nat {
    if keys == [] then 0 else Count(ListAt(lists, keys[0]), p) + InLists(lists, keys[1..], p)
  }

  lemma {:induction false} ListsHoldInflight(lists: Lists, keys: seq<Key>, ws: seq<Worker>, p: Payload)
    requires |keys| == |ws| && forall i :: 0 <= i < |keys| ==> ListAt(lists, keys[i]) == ws[i].inflight
    ensures InLists(lists, keys, p) == InflightCount(ws, p)
  {
    if keys != [] {
      ListsHoldInflight(lists, keys[1..], ws[1..], p);
    }
  }

  function Occurrences(rows: seq<StoredRow>, row: StoredRow): nat {
    if rows == [] then 0 else (if rows[0] == row then 1 else 0) + Occurrences(rows[1..], row)
  }

  lemma {:induction false} RowsHoldStored(stored: seq<Payload>, p: Payload)
    ensures Occurrences(RowsOf(stored), RowOf(p)) >= Count(stored, p)
  {
    if stored != [] {
      assert RowsOf(stored)[1..] == RowsOf(stored[1..]);
      RowsHoldStored(stored[1..], p);
    }
  }

  /** Two records become the same row if and only if they differ at most in how the same moment is written, so
      different records of the receiver, whose timestamps are integers, become different rows. */
  lemma RowsTellRecordsApart(p: Payload, q: Payload)
    requires Decodable(p) && Decodable(q) && !Poison(p) && !Poison(q)
    ensures RowOf(p) == RowOf(q) <==> Moment(p.items[0]) == Moment(q.items[0]) && p.items[1..] == q.items[1..]
    ensures p.items[0].Num? && q.items[0].Num? ==> (RowOf(p) == RowOf(q) <==> p == q)
  {
    if RowOf(p) == RowOf(q) && p.items[0].Num? && q.items[0].Num? {
      assert p.items == [Num(p.items[0].n)] + p.items[1..];
      assert q.items == [Num(q.items[0].n)] + q.items[1..];
    }
  }

  /** At every point of the program, each decodable record that was pushed is, as often as it was pushed,
      in the queue or in an in-flight list of the real Redis, or a row of the real table.  No row counts for two
      records: the table has the rows of the stored records, one for one. */
  lemma WorkerLosesNothing(w: BatchWorker, p: Payload)
    requires w.Valid() && Decodable(p)
    ensures w.ch.rows == RowsOf(w.sys.stored)
    ensures Count(Arrivals(w.run), p) <=
            Count(ListAt(w.queue.r.lists, w.queue.key), p) + InLists(w.queue.r.lists, w.keys, p) +
            Count(w.sys.stored, p)
    ensures Count(Arrivals(w.run), p) <=
            Count(ListAt(w.queue.r.lists, w.queue.key), p) + InLists(w.queue.r.lists, w.keys, p) +
            Occurrences(w.ch.rows, RowOf(p))
  {
    assert w.Matches(w.sys);
    assert After(w.origin, w.run) == Some(w.sys);
    AtLeastOnce(w.origin, w.run, p);
    PushedAreArrivals(w.origin, w.run);
    assert [] + Arrivals(w.run) == Arrivals(w.run);
    ListsHoldInflight(w.queue.r.lists, w.keys, w.sys.workers, p);
    RowsHoldStored(w.sys.stored, p);
  }
}
