/** backend/app/services/receiver.py, Ingest: parse, encode, buffer, push.  Every method is one
    stretch of code without an await, so any order of calls is an interleaving of the event loop. */
module Ingestion {
  import opened Wrappers
  import opened Wire
  import MikroTikParser

  /** What became of a record after it left the buffer.  Cancelled: its push was cut off when the process
      exited, after or before Redis had carried it out; Abandoned: it was still in the buffer then. */
  datatype Fate = Delivered | Shed | Refused(applied: bool) | Cancelled(applied: bool) | Abandoned

  datatype Settled = Settled(record: Payload, fate: Fate)

  /** The counters, the buffer and the pushes of one receiver process.
      scheduled  push tasks created and not yet started
      awaiting   batches whose push has not answered yet
      exited     the event loop has been left; what is still under way is cancelled
      arrivals   (history) encoded records in the order they were parsed
      settled    (history) records whose push is over, in the order the pushes ended */
  datatype Intake = Intake(
    buffer: seq<Payload>,
    pushing: bool,
    pausedUntil: int,
    received: nat, bytes: nat, unknown: nat, errors: nat, parsed: nat, shed: nat, refused: nat,
    scheduled: nat,
    awaiting: seq<seq<Payload>>,
    exited: bool,
    arrivals: seq<Payload>,
    settled: seq<Settled>)

  const EMPTY_INTAKE := Intake([], false, 0, 0, 0, 0, 0, 0, 0, 0, 0, [], false, [], [])

  /** ParsedLog.as_row */
  function AsRow(log: MikroTikParser.ParsedLog, ts: int, router: string): (row: Row)
    ensures |row| == ROW_WIDTH
  {
    [Num(ts), Text(router), Text(log.subscriberId),
     Text(log.privateIp), Num(log.privatePort), Text(log.publicIp), Num(log.publicPort),
     Text(log.destIp), Num(log.destPort), Text(log.protocol), Null]
  }

  /** Everything a record carries can be read back from the queue. */
  lemma RowRoundTrip(log: MikroTikParser.ParsedLog, ts: int, router: string)
    requires TIMESTAMP_MIN <= ts <= TIMESTAMP_MAX
    ensures Decode(Encode(AsRow(log, ts, router))) == Some(AsRow(log, ts, router))
    ensures !Poison(Encode(AsRow(log, ts, router)))
    ensures forall log', ts', router' :: AsRow(log', ts', router') == AsRow(log, ts, router) ==>
              log' == log && ts' == ts && router' == router
  {
    forall log', ts', router' | AsRow(log', ts', router') == AsRow(log, ts, router)
      ensures log' == log && ts' == ts && router' == router
    {
      var a, b := AsRow(log', ts', router'), AsRow(log, ts, router);
      assert a[0] == b[0] && a[1] == b[1] && a[2] == b[2] && a[3] == b[3] && a[4] == b[4] && a[5] == b[5];
      assert a[6] == b[6] && a[7] == b[7] && a[8] == b[8] && a[9] == b[9];
    }
  }

  // ----------------------------------------------------------------- transitions

  datatype Event =
    | Line(text: string, source: string, now: int)
    | Flush
    | StartPush(draining: bool, now: int)
    | EndPush(k: nat, fate: Fate)
    | Backpressure(depth: int, now: int)
    | Exit

  /** The settings of the process and the parser it made; the allow-list is refreshed elsewhere.
      What is proved holds for any parser that always answers. */
  datatype Settings = Settings(parser: string -> MikroTikParser.Outcome, batch: nat, maxQueue: int, routers: set<string>)

  /** After the loop is left the only thing that happens is that pushes under way are cancelled. */
  predicate Possible(s: Intake, e: Event) {
    match e
    case Line(_, _, now) => !s.exited && TIMESTAMP_MIN <= now <= TIMESTAMP_MAX
    case Flush => !s.exited
    case StartPush(draining, _) => !s.exited && (draining || s.scheduled > 0)
    case EndPush(k, fate) =>
      k < |s.awaiting| && (if s.exited then fate.Cancelled? else fate.Delivered? || fate.Refused?)
    case Backpressure(_, _) => !s.exited
    case Exit => !s.exited
  }

  function Scheduled(s: Intake): Intake {
    if !s.pushing && s.buffer != [] then s.(pushing := true, scheduled := s.scheduled + 1) else s
  }

  /** handle, once the parser has answered for a known router */
  function Judged(batch: nat, s: Intake, outcome: MikroTikParser.Outcome, source: string, now: int): Intake {
    match outcome
    case Rejected(_) => s.(errors := s.errors + 1)
    case Parsed(log) => Buffered(batch, s, Encode(AsRow(log, now, source)))
  }

  function Buffered(batch: nat, s: Intake, record: Payload): Intake {
    var s' := s.(parsed := s.parsed + 1, buffer := s.buffer + [record], arrivals := s.arrivals + [record]);
    if |s'.buffer| >= batch then Scheduled(s') else s'
  }

  function Heard(s: Intake, text: string): Intake {
    s.(received := s.received + 1, bytes := s.bytes + |text|)
  }

  function Taken(c: Settings, s: Intake, text: string, source: string, now: int): Intake {
    var s' := Heard(s, text);
    if source !in c.routers then s'.(unknown := s.unknown + 1)
    else Judged(c.batch, s', c.parser(text), source, now)
  }

  function Fated(records: seq<Payload>, fate: Fate): seq<Settled> {
    seq(|records|, i requires 0 <= i < |records| => Settled(records[i], fate))
  }

  /** The part of _push up to its await; `draining` is the direct call at shutdown. */
  function Started(s: Intake, draining: bool, now: int): Intake
    requires draining || s.scheduled > 0
  {
    var s' := s.(buffer := [], scheduled := if draining then s.scheduled else s.scheduled - 1);
    if s.buffer == [] then s'.(pushing := false)
    else if now < s.pausedUntil then
      s'.(pushing := false, shed := s.shed + |s.buffer|, settled := s.settled + Fated(s.buffer, Shed))
    else s'.(awaiting := s.awaiting + [s.buffer])
  }

  /** The rest of _push, once push_many has answered. */
  function Ended(s: Intake, k: nat, fate: Fate): Intake
    requires k < |s.awaiting|
  {
    var batch := s.awaiting[k];
    s.(pushing := false, awaiting := s.awaiting[..k] + s.awaiting[k + 1..],
       refused := if fate.Refused? then s.refused + |batch| else s.refused,
       settled := s.settled + Fated(batch, fate))
  }

  function Paused(c: Settings, s: Intake, depth: int, now: int): Intake {
    if depth < 0 || depth <= c.maxQueue then s else s.(pausedUntil := now + 5)
  }

  /** The process leaves its event loop: what is still buffered goes with it. */
  function Left(s: Intake): Intake {
    s.(exited := true, scheduled := 0, buffer := [], settled := s.settled + Fated(s.buffer, Abandoned))
  }

  function Step(c: Settings, s: Intake, e: Event): Intake
    requires Possible(s, e)
  {
    match e
    case Line(text, source, now) => Taken(c, s, text, source, now)
    case Flush => Scheduled(s)
    case StartPush(draining, now) => Started(s, draining, now)
    case EndPush(k, fate) => Ended(s, k, fate)
    case Backpressure(depth, now) => Paused(c, s, depth, now)
    case Exit => Left(s)
  }

  function Run(c: Settings, s: Intake, events: seq<Event>): Option<Intake>
    decreases events
  {
    if events == [] then Some(s)
    else if Possible(s, events[0]) then Run(c, Step(c, s, events[0]), events[1..])
    else None
  }

  // ----------------------------------------------------------------- the program

  class Ingest {
    const c: Settings
    var buffer: seq<Payload>
    var pushing: bool
    var pausedUntil: int
    var received: nat
    var bytes: nat
    var unknown: nat
    var errors: nat
    var parsed: nat
    var shed: nat
    var refused: nat
    var scheduled: nat
    var awaiting: seq<seq<Payload>>
    var exited: bool
    ghost var arrivals: seq<Payload>
    ghost var settled: seq<Settled>

    ghost function State(): Intake
      reads this
    {
      Intake(buffer, pushing, pausedUntil, received, bytes, unknown, errors, parsed, shed, refused,
             scheduled, awaiting, exited, arrivals, settled)
    }

    constructor (c: Settings)
      ensures this.c == c && State() == EMPTY_INTAKE
    {
      this.c := c;
      buffer, pushing, pausedUntil := [], false, 0;
      received, bytes, unknown, errors, parsed, shed, refused := 0, 0, 0, 0, 0, 0, 0;
      scheduled, awaiting, exited := 0, [], false;
      arrivals, settled := [], [];
    }

    /** handle */
    method Handle(text: string, source: string, now: int)
      modifies this
      ensures State() == Taken(c, old(State()), text, source, now)
    {
      received := received + 1;
      bytes := bytes + |text|;
      if source !in c.routers {
        unknown := unknown + 1;
        return;
      }
      Judge(c.parser(text), source, now);
    }

    method Judge(outcome: MikroTikParser.Outcome, source: string, now: int)
      modifies this
      ensures State() == Judged(c.batch, old(State()), outcome, source, now)
    {
      if outcome.Rejected? {
        errors := errors + 1;
        return;
      }
      Accept(Encode(AsRow(outcome.log, now, source)));
    }

    method Accept(record: Payload)
      modifies this
      ensures State() == Buffered(c.batch, old(State()), record)
    {
      parsed := parsed + 1;
      buffer := buffer + [record];
      arrivals := arrivals + [record];
      if |buffer| >= c.batch {
        ScheduleFlush();
      }
    }

    /** _schedule_flush, also what each tick of the flusher does */
    method ScheduleFlush()
      modifies this`pushing, this`scheduled
      ensures State() == Scheduled(old(State()))
    {
      if !pushing && buffer != [] {
        pushing := true;
        scheduled := scheduled + 1;
      }
    }

    /** _push up to its await */
    method PushBegins(draining: bool, now: int)
      requires draining || scheduled > 0
      modifies this
      ensures State() == Started(old(State()), draining, now)
    {
      if !draining {
        scheduled := scheduled - 1;
      }
      var batch := buffer;
      buffer := [];
      if batch == [] {
        pushing := false;
        return;
      }
      if now < pausedUntil {
        shed := shed + |batch|;
        settled := settled + Fated(batch, Shed);
        pushing := false;
        return;
      }
      awaiting := awaiting + [batch];
    }

    /** _push after its await */
    method PushEnds(k: nat, fate: Fate)
      requires k < |awaiting|
      modifies this
      ensures State() == Ended(old(State()), k, fate)
    {
      var batch := awaiting[k];
      awaiting := awaiting[..k] + awaiting[k + 1..];
      if fate.Refused? {
        refused := refused + |batch|;
      }
      settled := settled + Fated(batch, fate);
      pushing := false;
    }

    /** The end of _serve. */
    method Leave()
      modifies this
      ensures State() == Left(old(State()))
    {
      settled := settled + Fated(buffer, Abandoned);
      exited, scheduled, buffer := true, 0, [];
    }

    /** _check_backpressure */
    method CheckBackpressure(depth: int, now: int)
      modifies this`pausedUntil
      ensures State() == Paused(c, old(State()), depth, now)
    {
      if depth < 0 {
        return;
      }
      if depth > c.maxQueue {
        pausedUntil := now + 5;
      }
    }
  }

  // ----------------------------------------------------------------- accounting

  function Flat(batches: seq<seq<Payload>>): seq<Payload> {
    if batches == [] then [] else batches[0] + Flat(batches[1..])
  }

  function Records(settled: seq<Settled>): seq<Payload> {
    seq(|settled|, i requires 0 <= i < |settled| => settled[i].record)
  }

  /** Ways to sort settled records; IsUnheard are in the queue although their push was cut off, IsLost are
      neither in the queue nor counted, Reached are all that are in the queue. */
  datatype Ending = IsDelivered | IsShed | IsRefused | IsUnheard | IsLost | Reached

  predicate Ends(fate: Fate, which: Ending) {
    match which
    case IsDelivered => fate.Delivered?
    case IsShed => fate.Shed?
    case IsRefused => fate.Refused?
    case IsUnheard => fate == Cancelled(true)
    case IsLost => fate == Cancelled(false) || fate.Abandoned?
    case Reached => fate.Delivered? || ((fate.Refused? || fate.Cancelled?) && fate.applied)
  }

  /** The settled records with that kind of ending. */
  function WithFate(settled: seq<Settled>, which: Ending): seq<Payload> {
    if settled == [] then []
    else (if Ends(settled[0].fate, which) then [settled[0].record] else []) + WithFate(settled[1..], which)
  }

  lemma {:induction false} WithFateConcat(a: seq<Settled>, b: seq<Settled>, which: Ending)
    ensures WithFate(a + b, which) == WithFate(a, which) + WithFate(b, which)
  {
    if a == [] {
      assert a + b == b;
    } else {
      assert (a + b)[0] == a[0] && (a + b)[1..] == a[1..] + b;
      WithFateConcat(a[1..], b, which);
      SeqAssoc(if Ends(a[0].fate, which) then [a[0].record] else [], WithFate(a[1..], which), WithFate(b, which));
    }
  }

  lemma {:induction false} WithFateOfFated(records: seq<Payload>, fate: Fate, which: Ending)
    ensures WithFate(Fated(records, fate), which) == if Ends(fate, which) then records else []
  {
    if records != [] {
      assert Fated(records, fate)[1..] == Fated(records[1..], fate);
      WithFateOfFated(records[1..], fate, which);
    }
  }

  lemma {:induction false} FlatWithout(batches: seq<seq<Payload>>, k: nat, p: Payload)
    requires k < |batches|
    ensures Count(Flat(batches), p) == Count(Flat(batches[..k] + batches[k + 1..]), p) + Count(batches[k], p)
  {
    var rest := batches[..k] + batches[k + 1..];
    CountConcat(batches[0], Flat(batches[1..]), p);
    if k == 0 {
      assert rest == batches[1..];
    } else {
      assert rest[0] == batches[0] && rest[1..] == batches[1..][..k - 1] + batches[1..][k..];
      FlatWithout(batches[1..], k - 1, p);
      CountConcat(rest[0], Flat(rest[1..]), p);
    }
  }

  lemma {:induction false} FlatConcat(a: seq<seq<Payload>>, b: seq<seq<Payload>>)
    ensures Flat(a + b) == Flat(a) + Flat(b)
  {
    if a == [] {
      assert a + b == b;
    } else {
      assert (a + b)[1..] == a[1..] + b;
      FlatConcat(a[1..], b);
      SeqAssoc(a[0], Flat(a[1..]), Flat(b));
    }
  }

  /** Each received message is counted under exactly one outcome. */
  predicate Counted(s: Intake) {
    CountedBut(s, 0)
  }

  /** ... except for the messages still being handled. */
  predicate CountedBut(s: Intake, handling: nat) {
    && s.received == s.unknown + s.errors + s.parsed + handling
    && s.parsed == |s.arrivals|
    && s.shed == |WithFate(s.settled, IsShed)|
    && s.refused == |WithFate(s.settled, IsRefused)|
  }

  /** The settled copies of a record: delivered, in one of the two drop counters, in the queue although its
      push was cut off, or lost by the exit. */
  function SettledCount(settled: seq<Settled>, p: Payload): nat {
    Count(WithFate(settled, IsDelivered), p)
    + Count(WithFate(settled, IsShed), p) + Count(WithFate(settled, IsRefused), p)
    + Count(WithFate(settled, IsUnheard), p) + Count(WithFate(settled, IsLost), p)
  }

  /** Each parsed record is in the buffer, in a push, or settled in exactly one way. */
  predicate Accounted(s: Intake, p: Payload) {
    Count(s.arrivals, p) == Count(s.buffer, p) + Count(Flat(s.awaiting), p) + SettledCount(s.settled, p)
  }

  predicate Storable(records: seq<Payload>) {
    forall i :: 0 <= i < |records| ==> Decodable(records[i]) && !Poison(records[i])
  }

  lemma FatesOf(settled: seq<Settled>, records: seq<Payload>, fate: Fate, which: Ending)
    ensures WithFate(settled + Fated(records, fate), which) ==
            WithFate(settled, which) + (if Ends(fate, which) then records else [])
  {
    WithFateConcat(settled, Fated(records, fate), which);
    WithFateOfFated(records, fate, which);
  }

  lemma BufferedCounted(batch: nat, s: Intake, record: Payload)
    requires CountedBut(s, 1)
    ensures Counted(Buffered(batch, s, record))
  {
  }

  lemma JudgedCounted(batch: nat, s: Intake, outcome: MikroTikParser.Outcome, source: string, now: int)
    requires CountedBut(s, 1)
    ensures Counted(Judged(batch, s, outcome, source, now))
  {
    if outcome.Parsed? {
      BufferedCounted(batch, s, Encode(AsRow(outcome.log, now, source)));
    }
  }

  lemma StartCounted(s: Intake, draining: bool, now: int)
    requires Counted(s) && (draining || s.scheduled > 0)
    ensures Counted(Started(s, draining, now))
  {
    if s.buffer != [] && now < s.pausedUntil {
      FatesOf(s.settled, s.buffer, Shed, IsShed);
      FatesOf(s.settled, s.buffer, Shed, IsRefused);
      assert WithFate(s.settled, IsRefused) + [] == WithFate(s.settled, IsRefused);
    }
  }

  lemma EndCounted(s: Intake, k: nat, fate: Fate)
    requires Counted(s) && k < |s.awaiting| && !fate.Shed?
    ensures Counted(Ended(s, k, fate))
  {
    FatesOf(s.settled, s.awaiting[k], fate, IsShed);
    FatesOf(s.settled, s.awaiting[k], fate, IsRefused);
  }

  lemma LeftCounted(s: Intake)
    requires Counted(s)
    ensures Counted(Left(s))
  {
    FatesOf(s.settled, s.buffer, Abandoned, IsShed);
    FatesOf(s.settled, s.buffer, Abandoned, IsRefused);
  }

  lemma StepCounted(c: Settings, s: Intake, e: Event)
    requires Counted(s) && Possible(s, e)
    ensures Counted(Step(c, s, e))
  {
    match e
    case Line(text, source, now) =>
      if source in c.routers {
        JudgedCounted(c.batch, Heard(s, text), c.parser(text), source, now);
      }
    case Flush =>
    case StartPush(draining, now) => StartCounted(s, draining, now);
    case EndPush(k, fate) => EndCounted(s, k, fate);
    case Backpressure(_, _) =>
    case Exit => LeftCounted(s);
  }

  lemma JudgedAccounted(batch: nat, s: Intake, outcome: MikroTikParser.Outcome, source: string, now: int, p: Payload,
                        s': Intake)
    requires Accounted(s, p) && s' == Judged(batch, s, outcome, source, now)
    ensures Accounted(s', p)
  {
    if outcome.Parsed? {
      var record := Encode(AsRow(outcome.log, now, source));
      CountConcat(s.buffer, [record], p);
      CountConcat(s.arrivals, [record], p);
    }
  }

  lemma SameAccounts(s: Intake, s': Intake, p: Payload)
    requires s'.arrivals == s.arrivals && s'.buffer == s.buffer && s'.awaiting == s.awaiting && s'.settled == s.settled
    ensures Accounted(s', p) == Accounted(s, p)
  {
  }

  lemma KnownIsJudged(c: Settings, s: Intake, text: string, source: string, now: int)
    requires source in c.routers
    ensures Taken(c, s, text, source, now) ==
            Judged(c.batch, Heard(s, text), c.parser(text), source, now)
  {
  }

  lemma TakenAccounted(c: Settings, s: Intake, text: string, source: string, now: int, p: Payload)
    requires Accounted(s, p)
    ensures Accounted(Taken(c, s, text, source, now), p)
  {
    var s1, s2 := Heard(s, text), Taken(c, s, text, source, now);
    if source in c.routers {
      SameAccounts(s, s1, p);
      KnownIsJudged(c, s, text, source, now);
      JudgedAccounted(c.batch, s1, c.parser(text), source, now, p, s2);
    } else {
      SameAccounts(s, s2, p);
    }
  }

  lemma FlushAccounted(c: Settings, s: Intake, depth: int, now: int, p: Payload)
    requires Accounted(s, p)
    ensures Accounted(Scheduled(s), p) && Accounted(Paused(c, s, depth, now), p)
  {
  }

  lemma StepAccounted(c: Settings, s: Intake, e: Event, p: Payload)
    requires Accounted(s, p) && Possible(s, e)
    ensures Accounted(Step(c, s, e), p)
  {
    if e.Line? {
      TakenAccounted(c, s, e.text, e.source, e.now, p);
    } else if e.StartPush? {
      StartAccounted(s, e.draining, e.now, p);
    } else if e.EndPush? {
      EndAccounted(s, e.k, e.fate, p);
    } else if e.Flush? {
      FlushAccounted(c, s, 0, 0, p);
    } else if e.Exit? {
      LeftAccounted(s, p);
    } else {
      FlushAccounted(c, s, e.depth, e.now, p);
    }
  }

  lemma LeftAccounted(s: Intake, p: Payload)
    requires Accounted(s, p)
    ensures Accounted(Left(s), p)
  {
    EachSettlesOnce(s, s.buffer, Abandoned, p, Left(s).settled);
  }

  lemma StartAccounted(s: Intake, draining: bool, now: int, p: Payload)
    requires Accounted(s, p) && (draining || s.scheduled > 0)
    ensures Accounted(Started(s, draining, now), p)
  {
    if s.buffer != [] && now < s.pausedUntil {
      EachSettlesOnce(s, s.buffer, Shed, p, Started(s, draining, now).settled);
    } else if s.buffer != [] {
      FlatConcat(s.awaiting, [s.buffer]);
      FlatOne(s.buffer);
      CountConcat(Flat(s.awaiting), s.buffer, p);
    }
  }

  lemma FlatOne(batch: seq<Payload>)
    ensures Flat([batch]) == batch
  {
    assert batch + [] == batch;
  }

  lemma EndAccounted(s: Intake, k: nat, fate: Fate, p: Payload)
    requires Accounted(s, p) && k < |s.awaiting|
    ensures Accounted(Ended(s, k, fate), p)
  {
    EachSettlesOnce(s, s.awaiting[k], fate, p, Ended(s, k, fate).settled);
    FlatWithout(s.awaiting, k, p);
  }

  lemma EndFate(s: Intake, batch: seq<Payload>, fate: Fate, which: Ending, p: Payload)
    ensures Count(WithFate(s.settled + Fated(batch, fate), which), p) ==
            Count(WithFate(s.settled, which), p) + (if Ends(fate, which) then Count(batch, p) else 0)
  {
    FatesOf(s.settled, batch, fate, which);
    CountConcat(WithFate(s.settled, which), if Ends(fate, which) then batch else [], p);
  }

  lemma EndFates(s: Intake, batch: seq<Payload>, fate: Fate, p: Payload, after: seq<Settled>)
    requires after == s.settled + Fated(batch, fate)
    ensures forall which :: Count(WithFate(after, which), p) ==
              Count(WithFate(s.settled, which), p) + if Ends(fate, which) then Count(batch, p) else 0
  {
    forall which ensures Count(WithFate(after, which), p) ==
              Count(WithFate(s.settled, which), p) + if Ends(fate, which) then Count(batch, p) else 0
    {
      EndFate(s, batch, fate, which, p);
    }
  }

  /** Whatever becomes of a batch, its records are settled in one way. */
  lemma EachSettlesOnce(s: Intake, batch: seq<Payload>, fate: Fate, p: Payload, after: seq<Settled>)
    requires after == s.settled + Fated(batch, fate)
    ensures SettledCount(after, p) == SettledCount(s.settled, p) + Count(batch, p)
  {
    EndFates(s, batch, fate, p, after);
    assert 1 == (if Ends(fate, IsDelivered) then 1 else 0) + (if Ends(fate, IsShed) then 1 else 0)
                + (if Ends(fate, IsRefused) then 1 else 0) + (if Ends(fate, IsUnheard) then 1 else 0)
                + if Ends(fate, IsLost) then 1 else 0;
  }

  lemma JudgedStorable(batch: nat, s: Intake, outcome: MikroTikParser.Outcome, source: string, now: int)
    requires Storable(s.arrivals) && TIMESTAMP_MIN <= now <= TIMESTAMP_MAX
    ensures Storable(Judged(batch, s, outcome, source, now).arrivals)
  {
    if outcome.Parsed? {
      RowRoundTrip(outcome.log, now, source);
    }
  }

  lemma StepStorable(c: Settings, s: Intake, e: Event)
    requires Storable(s.arrivals) && Possible(s, e)
    ensures Storable(Step(c, s, e).arrivals)
  {
    if e.Line? && e.source in c.routers {
      JudgedStorable(c.batch, Heard(s, e.text), c.parser(e.text), e.source, e.now);
    }
  }

  /** The accounts balance at every await, whatever the interleaving, the drain included. */
  lemma {:induction false} AccountsBalance(c: Settings, s: Intake, events: seq<Event>, p: Payload)
    requires Counted(s) && Accounted(s, p) && Storable(s.arrivals) && Run(c, s, events).Some?
    ensures var s' := Run(c, s, events).value; Counted(s') && Accounted(s', p) && Storable(s'.arrivals)
    decreases events
  {
    if events != [] {
      StepCounted(c, s, events[0]);
      StepAccounted(c, s, events[0], p);
      StepStorable(c, s, events[0]);
      AccountsBalance(c, Step(c, s, events[0]), events[1..], p);
    }
  }

  predicate Begins(s: Intake) {
    && s.buffer == [] && s.awaiting == [] && s.arrivals == [] && s.settled == []
    && s.received == s.unknown == s.errors == s.parsed == s.shed == s.refused == 0 && !s.exited
  }

  lemma EmptyBalances(s: Intake, p: Payload)
    requires Begins(s)
    ensures Counted(s) && Accounted(s, p) && Storable(s.arrivals)
  {
    assert WithFate([], IsDelivered) == [];
  }

  // ----------------------------------------------------------------- order

  /** One push at a time, and the flag says whether there is one. */
  predicate OneAtATime(s: Intake) {
    s.scheduled + |s.awaiting| == if s.pushing then 1 else 0
  }

  /** Settled, then on the way, then buffered: the order of arrival. */
  predicate InOrder(s: Intake) {
    Records(s.settled) + Flat(s.awaiting) + s.buffer == s.arrivals
  }

  lemma RecordsOfFated(settled: seq<Settled>, batch: seq<Payload>, fate: Fate)
    ensures Records(settled + Fated(batch, fate)) == Records(settled) + batch
  {
  }

  lemma JudgedInOrder(batch: nat, s: Intake, outcome: MikroTikParser.Outcome, source: string, now: int)
    requires OneAtATime(s) && InOrder(s)
    ensures OneAtATime(Judged(batch, s, outcome, source, now)) && InOrder(Judged(batch, s, outcome, source, now))
  {
    if outcome.Parsed? {
      SeqAssoc(Records(s.settled) + Flat(s.awaiting), s.buffer, [Encode(AsRow(outcome.log, now, source))]);
    }
  }

  lemma StartInOrder(s: Intake, now: int)
    requires OneAtATime(s) && InOrder(s) && s.scheduled > 0
    ensures OneAtATime(Started(s, false, now)) && InOrder(Started(s, false, now))
  {
    var done := Records(s.settled);
    assert s.awaiting == [];
    assert Flat([s.buffer]) == s.buffer;
    assert [] + [s.buffer] == [s.buffer];
    RecordsOfFated(s.settled, s.buffer, Shed);
    assert done + [] + s.buffer == done + s.buffer == done + s.buffer + [] + [];
  }

  lemma EndInOrder(s: Intake, k: nat, fate: Fate)
    requires OneAtATime(s) && InOrder(s) && k < |s.awaiting| && !fate.Shed?
    ensures OneAtATime(Ended(s, k, fate)) && InOrder(Ended(s, k, fate))
  {
    var done := Records(s.settled);
    assert s.awaiting == [s.awaiting[0]] && k == 0;
    assert Flat(s.awaiting) == s.awaiting[0];
    RecordsOfFated(s.settled, s.awaiting[0], fate);
    assert done + s.awaiting[0] + [] == done + s.awaiting[0];
  }

  lemma StepInOrder(c: Settings, s: Intake, e: Event)
    requires OneAtATime(s) && InOrder(s) && Possible(s, e) && !(e.StartPush? && e.draining) && !e.Exit?
    ensures OneAtATime(Step(c, s, e)) && InOrder(Step(c, s, e))
  {
    match e
    case Line(text, source, now) =>
      if source in c.routers {
        JudgedInOrder(c.batch, Heard(s, text), c.parser(text), source, now);
      }
    case Flush =>
    case StartPush(_, now) => StartInOrder(s, now);
    case EndPush(k, fate) => EndInOrder(s, k, fate);
    case Backpressure(_, _) =>
    case Exit =>
  }

  /** Neither the drain nor the exit has come. */
  predicate Serving(events: seq<Event>) {
    forall i :: 0 <= i < |events| ==> !(events[i].StartPush? && events[i].draining) && !events[i].Exit?
  }

  /** Until the process drains, records leave in the order they arrived. */
  lemma {:induction false} ArrivalOrderIsKept(c: Settings, s: Intake, events: seq<Event>)
    requires OneAtATime(s) && InOrder(s) && Serving(events) && Run(c, s, events).Some?
    ensures var s' := Run(c, s, events).value;
      && OneAtATime(s')
      && Records(s'.settled) + Flat(s'.awaiting) + s'.buffer == s'.arrivals
    decreases events
  {
    if events != [] {
      assert !(events[0].StartPush? && events[0].draining) && !events[0].Exit?;
      StepInOrder(c, s, events[0]);
      assert Serving(events[1..]);
      ArrivalOrderIsKept(c, Step(c, s, events[0]), events[1..]);
    }
  }

  // ----------------------------------------------------------------- the drain

  /** What is in the queue, in the order in which it came there. */
  function InRedis(s: Intake): seq<Payload> {
    WithFate(s.settled, Reached)
  }

  predicate AllAnswers(events: seq<Event>) {
    forall i :: 0 <= i < |events| ==> events[i].EndPush?
  }

  /** Every push under way in d is answered, in the order of `events`. */
  predicate AnswersAll(c: Settings, d: Intake, events: seq<Event>) {
    AllAnswers(events) && Run(c, d, events).Some? && Run(c, d, events).value.awaiting == []
  }

  /** Redis carries the k-th of the pushes under way out. */
  predicate CarriesOut(events: seq<Event>, k: nat) {
    events != [] && events[0].EndPush? &&
    if events[0].k == k then Ends(events[0].fate, Reached)
    else CarriesOut(events[1..], if events[0].k < k then k - 1 else k)
  }

  /** The batches that Redis carries out, in the order in which they left the buffer. */
  function CarriedOut(batches: seq<seq<Payload>>, events: seq<Event>): seq<Payload> {
    if batches == [] then []
    else
      var last := |batches| - 1;
      CarriedOut(batches[..last], events) + if CarriesOut(events, last) then batches[last] else []
  }

  lemma RunOne(c: Settings, s: Intake, e: Event, rest: seq<Event>)
    requires Possible(s, e)
    ensures Run(c, s, [e] + rest) == Run(c, Step(c, s, e), rest)
  {
    assert ([e] + rest)[0] == e && ([e] + rest)[1..] == rest;
  }

  lemma AnswerReaches(c: Settings, d: Intake, e: Event)
    requires e.EndPush? && Possible(d, e)
    ensures InRedis(Step(c, d, e)) == InRedis(d) + if Ends(e.fate, Reached) then d.awaiting[e.k] else []
    ensures Step(c, d, e).awaiting == d.awaiting[..e.k] + d.awaiting[e.k + 1..]
  {
    FatesOf(d.settled, d.awaiting[e.k], e.fate, Reached);
  }

  /** With no push under way there is nothing to answer. */
  lemma NoAnswers(c: Settings, d: Intake, events: seq<Event>)
    requires d.awaiting == [] && AnswersAll(c, d, events)
    ensures events == [] && Run(c, d, events) == Some(d)
  {
    if events != [] {
      assert false;
    }
  }

  lemma OneAnswer(c: Settings, d: Intake, events: seq<Event>)
    requires |d.awaiting| == 1 && AnswersAll(c, d, events)
    ensures |events| == 1 && events[0].k == 0
    ensures InRedis(Run(c, d, events).value) == InRedis(d) + if Ends(events[0].fate, Reached) then d.awaiting[0] else []
  {
    assert events != [] && events[0].EndPush?;
    AnswerReaches(c, d, events[0]);
    assert Step(c, d, events[0]).awaiting == [];
    NoAnswers(c, Step(c, d, events[0]), events[1..]);
  }

  /** Two pushes can be answered in either order, and their records reach the queue in that order. */
  lemma TwoAnswers(c: Settings, d: Intake, events: seq<Event>)
    requires |d.awaiting| == 2 && AnswersAll(c, d, events)
    ensures |events| == 2 && events[0].k < 2 && events[1].k == 0
    ensures InRedis(Run(c, d, events).value) ==
      InRedis(d) + (if Ends(events[0].fate, Reached) then d.awaiting[events[0].k] else [])
                 + if Ends(events[1].fate, Reached) then d.awaiting[1 - events[0].k] else []
  {
    assert events != [] && events[0].EndPush?;
    AnswerReaches(c, d, events[0]);
    assert Step(c, d, events[0]).awaiting == [d.awaiting[1 - events[0].k]];
    OneAnswer(c, Step(c, d, events[0]), events[1..]);
  }

  /** What a drain that starts in s may do to the order. */
  predicate DrainIsSafe(s: Intake, now: int) {
    || s.awaiting == [] || s.buffer == [] || now < s.pausedUntil
    || s.buffer + s.awaiting[0] == s.awaiting[0] + s.buffer
  }

  /** Whatever is answered and in which order: what Redis carries out reaches the queue in the order of
      arrival. */
  ghost predicate DrainKeepsOrder(c: Settings, s: Intake, now: int)
    requires !s.exited
  {
    var d := Started(s, true, now);
    forall events :: AnswersAll(c, d, events) ==>
      InRedis(Run(c, d, events).value) == InRedis(s) + CarriedOut(d.awaiting, events)
  }

  lemma DrainSheds(s: Intake, now: int)
    requires !s.exited
    ensures InRedis(Started(s, true, now)) == InRedis(s)
    ensures Started(s, true, now).awaiting ==
            if s.buffer == [] || now < s.pausedUntil then s.awaiting else s.awaiting + [s.buffer]
  {
    FatesOf(s.settled, s.buffer, Shed, Reached);
    assert InRedis(s) + [] == InRedis(s);
  }

  lemma CarriedOutOne(a: seq<Payload>, events: seq<Event>)
    ensures CarriedOut([a], events) == if CarriesOut(events, 0) then a else []
  {
    assert [a][..0] == [] && CarriedOut([a][..0], events) == [];
  }

  lemma CarriedOutTwo(a: seq<Payload>, b: seq<Payload>, events: seq<Event>)
    ensures CarriedOut([a, b], events) ==
            (if CarriesOut(events, 0) then a else []) + if CarriesOut(events, 1) then b else []
  {
    assert [a, b][..1] == [a];
    CarriedOutOne(a, events);
  }

  /** At most one push is under way: it cannot be overtaken. */
  lemma OneStaysInOrder(c: Settings, d: Intake, events: seq<Event>)
    requires |d.awaiting| <= 1 && AnswersAll(c, d, events)
    ensures InRedis(Run(c, d, events).value) == InRedis(d) + CarriedOut(d.awaiting, events)
  {
    if d.awaiting == [] {
      NoAnswers(c, d, events);
    } else {
      assert d.awaiting == [d.awaiting[0]];
      OneAnswer(c, d, events);
      CarriedOutOne(d.awaiting[0], events);
    }
  }

  lemma TwoStayInOrder(c: Settings, d: Intake, events: seq<Event>, a: seq<Payload>, b: seq<Payload>)
    requires d.awaiting == [a, b] && AnswersAll(c, d, events) && a + b == b + a
    ensures InRedis(Run(c, d, events).value) == InRedis(d) + CarriedOut(d.awaiting, events)
  {
    TwoAnswers(c, d, events);
    CarriedOutTwo(a, b, events);
    SwappedAnswers(events);
    SeqAssoc(InRedis(d), a, b);
    SeqAssoc(InRedis(d), b, a);
  }

  lemma SafeDrainKeepsOrder(c: Settings, s: Intake, now: int, events: seq<Event>)
    requires OneAtATime(s) && !s.exited && DrainIsSafe(s, now)
    requires AnswersAll(c, Started(s, true, now), events)
    ensures var d := Started(s, true, now);
            InRedis(Run(c, d, events).value) == InRedis(s) + CarriedOut(d.awaiting, events)
  {
    DrainSheds(s, now);
    if |Started(s, true, now).awaiting| <= 1 {
      OneStaysInOrder(c, Started(s, true, now), events);
    } else {
      TwoStayInOrder(c, Started(s, true, now), events, s.awaiting[0], s.buffer);
    }
  }

  lemma SwappedAnswers(events: seq<Event>)
    requires |events| == 2 && AllAnswers(events) && events[0].k < 2 && events[1].k == 0
    ensures CarriesOut(events, events[0].k) == Ends(events[0].fate, Reached)
    ensures CarriesOut(events, 1 - events[0].k) == Ends(events[1].fate, Reached)
  {
    assert events[1..][0] == events[1];
  }

  /** The answers in the order that an unsafe drain does not survive. */
  lemma UnsafeDrain(c: Settings, s: Intake, now: int) returns (events: seq<Event>)
    requires OneAtATime(s) && !s.exited && !DrainIsSafe(s, now)
    ensures var d := Started(s, true, now);
      AnswersAll(c, d, events) &&
      InRedis(Run(c, d, events).value) != InRedis(s) + CarriedOut(d.awaiting, events)
  {
    var d, a, b := Started(s, true, now), s.awaiting[0], s.buffer;
    DrainSheds(s, now);
    assert d.awaiting == [a, b];
    var d1 := Step(c, d, EndPush(1, Delivered));
    assert d1.awaiting == [a];
    RunOne(c, d1, EndPush(0, Delivered), []);
    RunOne(c, d, EndPush(1, Delivered), [EndPush(0, Delivered)] + []);
    events := [EndPush(1, Delivered)] + ([EndPush(0, Delivered)] + []);
    TwoAnswers(c, d, events);
    CarriedOutTwo(a, b, events);
    SwappedAnswers(events);
    Swapped(InRedis(s), a, b);
  }

  lemma Swapped(done: seq<Payload>, a: seq<Payload>, b: seq<Payload>)
    requires b + a != a + b
    ensures done + b + a != done + (a + b)
  {
    assert (done + b + a)[|done|..] == b + a;
    assert (done + (a + b))[|done|..] == a + b;
  }

  /** The drain does not look at the flag.  What it sends and what is still on its way reach the queue in the
      order of arrival, under every order of answers, if and only if, when it starts, no push is under way, or
      the buffer is empty, or pushes are paused, or the two batches cannot be told apart when swapped. */
  lemma DrainKeepsOrderIff(c: Settings, s: Intake, now: int)
    requires OneAtATime(s) && !s.exited
    ensures DrainKeepsOrder(c, s, now) <==> DrainIsSafe(s, now)
  {
    var d := Started(s, true, now);
    if DrainIsSafe(s, now) {
      forall events | AnswersAll(c, d, events)
        ensures InRedis(Run(c, d, events).value) == InRedis(s) + CarriedOut(d.awaiting, events)
      {
        SafeDrainKeepsOrder(c, s, now, events);
      }
    } else {
      var events := UnsafeDrain(c, s, now);
    }
  }

  /** A run from the start of the process that comes to such a state: one record is being pushed and a
      second one waits when the drain begins. */
  lemma BusyAtDrain(c: Settings, first: string, second: string, source: string, now: int) returns (events: seq<Event>)
    requires source in c.routers && TIMESTAMP_MIN <= now <= TIMESTAMP_MAX
    requires c.parser(first).Parsed? && c.parser(second).Parsed?
    ensures Run(c, EMPTY_INTAKE, events).Some? && Serving(events)
    ensures var s := Run(c, EMPTY_INTAKE, events).value;
      && s.awaiting == [[Encode(AsRow(c.parser(first).log, now, source))]]
      && s.buffer == [Encode(AsRow(c.parser(second).log, now, source))]
      && OneAtATime(s) && !s.exited && s.pausedUntil == 0
  {
    var e0, e1, e2, e3 := Line(first, source, now), Flush, StartPush(false, 0), Line(second, source, now);
    var s1 := Step(c, EMPTY_INTAKE, e0);
    var s2 := Step(c, s1, e1);
    assert s2.scheduled == 1 && s2.buffer == [Encode(AsRow(c.parser(first).log, now, source))];
    var s3 := Step(c, s2, e2);
    assert s3.awaiting == [s2.buffer];
    var s4 := Step(c, s3, e3);
    RunOne(c, s3, e3, []);
    RunOne(c, s2, e2, [e3] + []);
    RunOne(c, s1, e1, [e2] + ([e3] + []));
    RunOne(c, EMPTY_INTAKE, e0, [e1] + ([e2] + ([e3] + [])));
    events := [e0] + ([e1] + ([e2] + ([e3] + [])));
    assert Run(c, s4, []) == Some(s4);
    assert Flat(EMPTY_INTAKE.awaiting) == [] && Records([]) == [];
    ArrivalOrderIsKept(c, EMPTY_INTAKE, events);
  }

  /** So from the start of the process, with any two different records, the drain can overtake, unless its
      clock reads less than zero. */
  lemma DrainOvertakes(c: Settings, first: string, second: string, source: string, now: int, at: int)
    requires source in c.routers && TIMESTAMP_MIN <= now <= TIMESTAMP_MAX
    requires c.parser(first).Parsed? && c.parser(second).Parsed? && c.parser(first).log != c.parser(second).log
    ensures exists events :: Run(c, EMPTY_INTAKE, events).Some? && Serving(events) &&
              var s := Run(c, EMPTY_INTAKE, events).value;
              OneAtATime(s) && !s.exited && (DrainKeepsOrder(c, s, at) <==> at < 0)
  {
    var events := BusyAtDrain(c, first, second, source, now);
    var s := Run(c, EMPTY_INTAKE, events).value;
    RowRoundTrip(c.parser(first).log, now, source);
    assert s.buffer[0] != s.awaiting[0][0];
    assert (s.buffer + s.awaiting[0])[0] == s.buffer[0] && (s.awaiting[0] + s.buffer)[0] == s.awaiting[0][0];
    DrainKeepsOrderIff(c, s, at);
  }

  // ----------------------------------------------------------------- the exit

  /** The records that are neither in the queue nor in any counter of drops. */
  function Lost(s: Intake): seq<Payload> {
    WithFate(s.settled, IsLost)
  }

  predicate NonEmptyPushes(s: Intake) {
    forall k :: 0 <= k < |s.awaiting| ==> s.awaiting[k] != []
  }

  lemma StartServes(s: Intake, draining: bool, now: int)
    requires NonEmptyPushes(s) && (draining || s.scheduled > 0)
    ensures NonEmptyPushes(Started(s, draining, now)) && Lost(Started(s, draining, now)) == Lost(s)
  {
    if s.buffer != [] && now < s.pausedUntil {
      FatesOf(s.settled, s.buffer, Shed, IsLost);
      assert Lost(s) + [] == Lost(s);
    }
  }

  lemma EndServes(s: Intake, k: nat, fate: Fate)
    requires NonEmptyPushes(s) && k < |s.awaiting| && !Ends(fate, IsLost)
    ensures NonEmptyPushes(Ended(s, k, fate)) && Lost(Ended(s, k, fate)) == Lost(s)
  {
    FatesOf(s.settled, s.awaiting[k], fate, IsLost);
    assert Lost(s) + [] == Lost(s);
  }

  lemma StepServes(c: Settings, s: Intake, e: Event)
    requires Possible(s, e) && NonEmptyPushes(s) && !Step(c, s, e).exited && Lost(s) == []
    ensures NonEmptyPushes(Step(c, s, e)) && Lost(Step(c, s, e)) == []
  {
    if e.StartPush? {
      StartServes(s, e.draining, e.now);
    } else if e.EndPush? {
      EndServes(s, e.k, e.fate);
    } else {
      assert Step(c, s, e).settled == s.settled && Step(c, s, e).awaiting == s.awaiting;
    }
  }

  lemma {:induction false} ExitedStays(c: Settings, s: Intake, events: seq<Event>)
    requires s.exited && Run(c, s, events).Some?
    ensures Run(c, s, events).value.exited
    decreases events
  {
    if events != [] {
      ExitedStays(c, Step(c, s, events[0]), events[1..]);
    }
  }

  /** Nothing is lost uncounted while the process runs. */
  lemma {:induction false} NothingLostBeforeExit(c: Settings, s: Intake, events: seq<Event>)
    requires NonEmptyPushes(s) && Lost(s) == [] && Run(c, s, events).Some? && !Run(c, s, events).value.exited
    ensures NonEmptyPushes(Run(c, s, events).value) && Lost(Run(c, s, events).value) == []
    decreases events
  {
    if events != [] {
      if Step(c, s, events[0]).exited {
        ExitedStays(c, Step(c, s, events[0]), events[1..]);
      }
      StepServes(c, s, events[0]);
      NothingLostBeforeExit(c, Step(c, s, events[0]), events[1..]);
    }
  }

  /** The loop is left in s, and every push under way is cut off, in the order of `cancels`. */
  predicate Exits(c: Settings, s: Intake, cancels: seq<Event>) {
    Run(c, Left(s), cancels).Some? && Run(c, Left(s), cancels).value.awaiting == []
  }

  /** The batches whose push was cut off before Redis had carried it out. */
  function CutShort(batches: seq<seq<Payload>>, cancels: seq<Event>): seq<Payload> {
    if cancels == [] || !cancels[0].EndPush? || cancels[0].k >= |batches| then []
    else
      var k := cancels[0].k;
      (if cancels[0].fate == Cancelled(false) then batches[k] else []) +
      CutShort(batches[..k] + batches[k + 1..], cancels[1..])
  }

  /** What one cut-off does: the batch is lost or in the queue. */
  lemma CancelLoses(s: Intake, k: nat, applied: bool, p: Payload, s': Intake)
    requires k < |s.awaiting| && s' == Ended(s, k, Cancelled(applied))
    ensures Lost(s') == Lost(s) + if applied then [] else s.awaiting[k]
    ensures Count(Lost(s'), p) + Count(InRedis(s'), p) + Count(Flat(s'.awaiting), p) ==
            Count(Lost(s), p) + Count(InRedis(s), p) + Count(Flat(s.awaiting), p)
  {
    FatesOf(s.settled, s.awaiting[k], Cancelled(applied), IsLost);
    EndFate(s, s.awaiting[k], Cancelled(applied), IsLost, p);
    EndFate(s, s.awaiting[k], Cancelled(applied), Reached, p);
    FlatWithout(s.awaiting, k, p);
  }

  lemma {:induction false} CancelsLose(c: Settings, s: Intake, cancels: seq<Event>, p: Payload)
    requires s.exited && Run(c, s, cancels).Some?
    ensures var s' := Run(c, s, cancels).value;
      && Lost(s') == Lost(s) + CutShort(s.awaiting, cancels)
      && Count(Lost(s'), p) + Count(InRedis(s'), p) + Count(Flat(s'.awaiting), p) ==
         Count(Lost(s), p) + Count(InRedis(s), p) + Count(Flat(s.awaiting), p)
    decreases cancels
  {
    if cancels == [] {
      assert Lost(s) + [] == Lost(s);
    } else {
      var k, fate := cancels[0].k, cancels[0].fate;
      var s1 := Ended(s, k, fate);
      CancelLoses(s, k, fate.applied, p, s1);
      CancelsLose(c, s1, cancels[1..], p);
      SeqAssoc(Lost(s), if fate.applied then [] else s.awaiting[k], CutShort(s1.awaiting, cancels[1..]));
    }
  }

  /** What leaving the loop costs, once every push under way is cut off: exactly what was buffered and the
      batches whose push Redis had not carried out.  The rest of what was being pushed is in the queue. */
  lemma ExitLosesExactly(c: Settings, s: Intake, cancels: seq<Event>, p: Payload)
    requires !s.exited && Lost(s) == [] && Exits(c, s, cancels)
    ensures var s' := Run(c, Left(s), cancels).value;
      && Lost(s') == s.buffer + CutShort(s.awaiting, cancels)
      && Count(InRedis(s'), p) + Count(Lost(s'), p) ==
         Count(InRedis(s), p) + Count(Flat(s.awaiting), p) + Count(s.buffer, p)
  {
    CancelsLose(c, Left(s), cancels, p);
    FatesOf(s.settled, s.buffer, Abandoned, IsLost);
    EndFate(s, s.buffer, Abandoned, Reached, p);
    assert [] + s.buffer == s.buffer;
  }

  predicate AllCarriedOut(cancels: seq<Event>) {
    forall i :: 0 <= i < |cancels| ==> cancels[i].EndPush? && cancels[i].fate == Cancelled(true)
  }

  lemma {:induction false} NothingCutShortIff(c: Settings, s: Intake, cancels: seq<Event>)
    requires s.exited && NonEmptyPushes(s) && Run(c, s, cancels).Some?
    ensures CutShort(s.awaiting, cancels) == [] <==> AllCarriedOut(cancels)
    decreases cancels
  {
    if cancels != [] {
      var e := cancels[0];
      assert s.awaiting[e.k] != [];
      NothingCutShortIff(c, Step(c, s, e), cancels[1..]);
      assert AllCarriedOut(cancels) <==> e.fate == Cancelled(true) && AllCarriedOut(cancels[1..]);
    }
  }

  /** All pushes under way can be cut off before Redis has them. */
  lemma {:induction false} CutAll(c: Settings, s: Intake) returns (cancels: seq<Event>)
    requires s.exited
    ensures Run(c, s, cancels).Some? && Run(c, s, cancels).value.awaiting == []
    ensures s.awaiting != [] ==> !AllCarriedOut(cancels)
    decreases |s.awaiting|
  {
    cancels := [];
    if s.awaiting != [] {
      var e := EndPush(0, Cancelled(false));
      var rest := CutAll(c, Step(c, s, e));
      RunOne(c, s, e, rest);
      cancels := [e] + rest;
      assert cancels[0].fate != Cancelled(true);
    }
  }

  /** In any run of the process, for a given outcome of the pushes that its exit cuts off: no parsed record is
      lost if and only if the buffer is empty when the loop is left and Redis has carried all of them out. */
  lemma ExitLosesNothingIff(c: Settings, events: seq<Event>, cancels: seq<Event>)
    requires Run(c, EMPTY_INTAKE, events).Some? && !Run(c, EMPTY_INTAKE, events).value.exited
    requires Exits(c, Run(c, EMPTY_INTAKE, events).value, cancels)
    ensures var s := Run(c, EMPTY_INTAKE, events).value;
      Lost(Run(c, Left(s), cancels).value) == [] <==> s.buffer == [] && AllCarriedOut(cancels)
  {
    var s := Run(c, EMPTY_INTAKE, events).value;
    NothingLostBeforeExit(c, EMPTY_INTAKE, events);
    ExitLosesExactly(c, s, cancels, Junk([]));
    NothingCutShortIff(c, Left(s), cancels);
  }

  /** ... and none is lost whatever becomes of those pushes if and only if the buffer is empty and no push is
      under way when the loop is left.  The drain waits for its own push alone, and lines that arrive after it
      are still buffered. */
  lemma ExitNeverLosesIff(c: Settings, events: seq<Event>)
    requires Run(c, EMPTY_INTAKE, events).Some? && !Run(c, EMPTY_INTAKE, events).value.exited
    ensures var s := Run(c, EMPTY_INTAKE, events).value;
      (forall cancels :: Exits(c, s, cancels) ==> Lost(Run(c, Left(s), cancels).value) == [])
      <==> s.buffer == [] && s.awaiting == []
  {
    var s := Run(c, EMPTY_INTAKE, events).value;
    if s.buffer == [] && s.awaiting == [] {
      forall cancels | Exits(c, s, cancels) ensures Lost(Run(c, Left(s), cancels).value) == [] {
        NoCancels(c, s, cancels);
        ExitLosesNothingIff(c, events, cancels);
      }
    } else {
      var cancels := CutAll(c, Left(s));
      assert Exits(c, s, cancels);
      ExitLosesNothingIff(c, events, cancels);
    }
  }

  lemma NoCancels(c: Settings, s: Intake, cancels: seq<Event>)
    requires s.awaiting == [] && Exits(c, s, cancels)
    ensures cancels == []
  {
    if cancels != [] {
      assert false;
    }
  }
}
