/** A receiver and the delivery pipeline together: from the moment a line is parsed to the table. */
module EndToEnd {
  import opened Wrappers
  import opened Wire
  import opened Ingestion
  import opened Delivery

  datatype World = World(intake: Intake, pipe: System)

  /** A step of the receiver, or of anything else: other receivers, workers, maintenance. */
  datatype Move = Receiver(e: Event) | Pipeline(l: Label)

  predicate Allowed(w: World, m: Move) {
    match m
    case Receiver(e) => Possible(w.intake, e)
    case Pipeline(l) => Enabled(w.pipe, l) && !l.ClaimReplyLost?
  }

  /** A push that reaches Redis appends its batch to the queue, even when its answer is an error. */
  function Moved(c: Settings, w: World, m: Move): World
    requires Allowed(w, m)
  {
    match m
    case Pipeline(l) => w.(pipe := Next(w.pipe, l))
    case Receiver(e) =>
      World(Step(c, w.intake, e),
            if e.EndPush? && Ends(e.fate, Reached) then Next(w.pipe, Push(w.intake.awaiting[e.k])) else w.pipe)
  }

  function Play(c: Settings, w: World, moves: seq<Move>): Option<World>
    decreases moves
  {
    if moves == [] then Some(w)
    else if Allowed(w, moves[0]) then Play(c, Moved(c, w, moves[0]), moves[1..])
    else None
  }

  predicate Fresh(w: World) {
    Begins(w.intake) && Initial(w.pipe)
  }

  /** What the other receivers pushed in such a run. */
  function OthersPushed(moves: seq<Move>): seq<Payload> {
    if moves == [] then []
    else (if moves[0].Pipeline? && moves[0].l.Push? then moves[0].l.records else []) + OthersPushed(moves[1..])
  }

  /** Until the exit nothing is lost uncounted; after it nothing is buffered. */
  predicate InService(s: Intake) {
    if s.exited then s.buffer == [] else NonEmptyPushes(s) && Lost(s) == []
  }

  lemma StepInService(c: Settings, s: Intake, e: Event)
    requires Possible(s, e) && InService(s)
    ensures InService(Step(c, s, e))
  {
    if !Step(c, s, e).exited {
      StepServes(c, s, e);
    }
  }

  ghost predicate Sound(w: World) {
    && Inv(w.pipe) && NothingUnseen(w.pipe) && InService(w.intake)
    && Counted(w.intake) && Storable(w.intake.arrivals)
    && forall p :: Accounted(w.intake, p)
  }

  lemma FreshIsSound(w: World)
    requires Fresh(w)
    ensures Sound(w)
  {
    InitialInv(w.pipe);
    forall p ensures Accounted(w.intake, p) {
      EmptyBalances(w.intake, p);
    }
    EmptyBalances(w.intake, Junk([]));
  }

  lemma MoveIsSound(c: Settings, w: World, m: Move)
    requires Sound(w) && Allowed(w, m)
    ensures Sound(Moved(c, w, m))
  {
    var w' := Moved(c, w, m);
    match m
    case Pipeline(l) =>
      StepInv(w.pipe, l);
    case Receiver(e) =>
      if e.EndPush? && Ends(e.fate, Reached) {
        StepInv(w.pipe, Push(w.intake.awaiting[e.k]));
      }
      StepCounted(c, w.intake, e);
      StepStorable(c, w.intake, e);
      StepInService(c, w.intake, e);
      forall p ensures Accounted(w'.intake, p) {
        assert Accounted(w.intake, p);
        StepAccounted(c, w.intake, e, p);
      }
  }

  lemma {:induction false} PlayIsSound(c: Settings, w: World, moves: seq<Move>)
    requires Sound(w) && Play(c, w, moves).Some?
    ensures Sound(Play(c, w, moves).value)
    decreases moves
  {
    if moves != [] {
      MoveIsSound(c, w, moves[0]);
      PlayIsSound(c, Moved(c, w, moves[0]), moves[1..]);
    }
  }

  // ----------------------------------------------------------------- what was pushed

  /** Everything pushed up to w is what reached Redis of this receiver's records, and what others pushed. */
  predicate PushedBy(w: World, others: nat, p: Payload) {
    Count(w.pipe.pushed, p) == Count(InRedis(w.intake), p) + others
  }

  lemma NextPushed(s: System, l: Label)
    requires Enabled(s, l)
    ensures Next(s, l).pushed == if l.Push? then s.pushed + l.records else s.pushed
  {
  }

  lemma PipelinePushes(c: Settings, w: World, l: Label, others: nat, p: Payload)
    requires Allowed(w, Pipeline(l)) && PushedBy(w, others, p)
    ensures PushedBy(Moved(c, w, Pipeline(l)), others + Count(if l.Push? then l.records else [], p), p)
  {
    NextPushed(w.pipe, l);
    if l.Push? {
      CountConcat(w.pipe.pushed, l.records, p);
    }
  }

  lemma EndPushes(c: Settings, w: World, e: Event, others: nat, p: Payload)
    requires Possible(w.intake, e) && PushedBy(w, others, p) && e.EndPush?
    ensures PushedBy(Moved(c, w, Receiver(e)), others, p)
  {
    var batch := w.intake.awaiting[e.k];
    EndFate(w.intake, batch, e.fate, Reached, p);
    CountConcat(w.pipe.pushed, batch, p);
  }

  lemma ReceiverPushes(c: Settings, w: World, e: Event, others: nat, p: Payload)
    requires Possible(w.intake, e) && PushedBy(w, others, p)
    ensures PushedBy(Moved(c, w, Receiver(e)), others, p)
  {
    if e.StartPush? {
      EndFate(w.intake, w.intake.buffer, Shed, Reached, p);
    } else if e.EndPush? {
      EndPushes(c, w, e, others, p);
    } else if e.Exit? {
      EndFate(w.intake, w.intake.buffer, Abandoned, Reached, p);
    } else {
      assert Step(c, w.intake, e).settled == w.intake.settled;
    }
  }

  lemma {:induction false} PlayPushes(c: Settings, w: World, moves: seq<Move>, others: nat, p: Payload)
    requires Play(c, w, moves).Some? && PushedBy(w, others, p)
    ensures PushedBy(Play(c, w, moves).value, others + Count(OthersPushed(moves), p), p)
    decreases moves
  {
    if moves != [] {
      match moves[0] {
        case Pipeline(l) =>
          PipelinePushes(c, w, l, others, p);
          CountConcat(if l.Push? then l.records else [], OthersPushed(moves[1..]), p);
          PlayPushes(c, Moved(c, w, moves[0]), moves[1..], others + Count(if l.Push? then l.records else [], p), p);
        case Receiver(e) =>
          ReceiverPushes(c, w, e, others, p);
          assert [] + OthersPushed(moves[1..]) == OthersPushed(moves[1..]);
          PlayPushes(c, Moved(c, w, moves[0]), moves[1..], others, p);
      }
    }
  }

  /** Every record whose push was answered or cut off after Redis had it is among those that reached it. */
  lemma {:induction false} DeliveredReached(settled: seq<Settled>, p: Payload)
    ensures Count(WithFate(settled, IsDelivered), p) + Count(WithFate(settled, IsUnheard), p) <=
            Count(WithFate(settled, Reached), p)
  {
    if settled != [] {
      DeliveredReached(settled[1..], p);
      CountConcat(if Ends(settled[0].fate, IsDelivered) then [settled[0].record] else [],
                  WithFate(settled[1..], IsDelivered), p);
      CountConcat(if Ends(settled[0].fate, IsUnheard) then [settled[0].record] else [],
                  WithFate(settled[1..], IsUnheard), p);
      CountConcat(if Ends(settled[0].fate, Reached) then [settled[0].record] else [], WithFate(settled[1..], Reached), p);
    }
  }

  lemma StorableCounts(records: seq<Payload>, p: Payload)
    requires Storable(records)
    ensures Count(records, p) > 0 ==> Decodable(p) && !Poison(p)
  {
    CountOfAbsent(records, p);
  }

  /** The accounts of one state, from the parser to the table. */
  lemma SoundAccounts(w: World, others: nat, p: Payload)
    requires Sound(w) && PushedBy(w, others, p)
    ensures Count(w.intake.arrivals, p) + (if Decodable(p) then others else 0) <=
            Count(w.intake.buffer, p) + Count(Flat(w.intake.awaiting), p)
            + Count(w.pipe.queue, p) + InflightCount(w.pipe.workers, p) + Count(w.pipe.stored, p)
            + Count(WithFate(w.intake.settled, IsShed), p) + Count(WithFate(w.intake.settled, IsRefused), p)
            + Count(Lost(w.intake), p)
  {
    assert Accounted(w.intake, p);
    StorableCounts(w.intake.arrivals, p);
    DeliveredReached(w.intake.settled, p);
    if Decodable(p) {
      NothingMissing(w.pipe, p);
    }
  }

  /** No record that was parsed ever vanishes without a trace, nor does another receiver's record stand in for
      it: it is in the buffer, in a push on its way, in the queue, in an in-flight list or in the table, or it is
      one of the records that the two drop counters count; or the receiver has left its event loop, and it is one
      of those that ExitLosesExactly names. */
  lemma NothingVanishes(c: Settings, w0: World, moves: seq<Move>, p: Payload)
    requires Fresh(w0) && Play(c, w0, moves).Some?
    ensures var w := Play(c, w0, moves).value;
      && Count(w.intake.arrivals, p) + RowCount(OthersPushed(moves), p) <=
         Count(w.intake.buffer, p) + Count(Flat(w.intake.awaiting), p)
         + Count(w.pipe.queue, p) + InflightCount(w.pipe.workers, p) + Count(w.pipe.stored, p)
         + Count(WithFate(w.intake.settled, IsShed), p) + Count(WithFate(w.intake.settled, IsRefused), p)
         + Count(Lost(w.intake), p)
      && (!w.intake.exited ==> Lost(w.intake) == [])
      && |w.intake.arrivals| == w.intake.parsed
      && |WithFate(w.intake.settled, IsShed)| == w.intake.shed
      && |WithFate(w.intake.settled, IsRefused)| == w.intake.refused
  {
    FreshIsSound(w0);
    PlayIsSound(c, w0, moves);
    PlayPushes(c, w0, moves, 0, p);
    SoundAccounts(Play(c, w0, moves).value, Count(OthersPushed(moves), p), p);
  }

  // ----------------------------------------------------------------- finishing

  lemma {:induction false} PlayConcat(c: Settings, w: World, a: seq<Move>, b: seq<Move>)
    requires Play(c, w, a).Some?
    ensures Play(c, w, a + b) == Play(c, Play(c, w, a).value, b)
    decreases a
  {
    if a == [] {
      assert a + b == b;
    } else {
      assert (a + b)[1..] == a[1..] + b;
      PlayConcat(c, Moved(c, w, a[0]), a[1..], b);
    }
  }

  lemma PlayOne(c: Settings, w: World, m: Move)
    requires Allowed(w, m)
    ensures Play(c, w, [m]) == Some(Moved(c, w, m))
  {
    assert Play(c, Moved(c, w, m), [m][1..]) == Some(Moved(c, w, m));
  }

  /** The pushes on the way can all be answered, or, after the exit, cancelled. */
  lemma {:induction false} CanAnswerAll(c: Settings, w: World) returns (moves: seq<Move>)
    ensures OnlyRecords(moves)
    ensures Play(c, w, moves).Some?
    ensures var w' := Play(c, w, moves).value;
      && w'.intake.awaiting == [] && w'.intake.buffer == w.intake.buffer
      && w'.intake.arrivals == w.intake.arrivals && |w'.pipe.workers| == |w.pipe.workers|
      && w'.intake.exited == w.intake.exited
    decreases |w.intake.awaiting|
  {
    if w.intake.awaiting == [] {
      moves := [];
    } else {
      var m := Receiver(EndPush(0, if w.intake.exited then Cancelled(false) else Delivered));
      var w1 := Moved(c, w, m);
      PlayOne(c, w, m);
      var rest := CanAnswerAll(c, w1);
      PlayConcat(c, w, [m], rest);
      moves := [m] + rest;
    }
  }

  /** The buffer can be pushed by a drain after any pause. */
  lemma CanEmptyIntake(c: Settings, w: World) returns (moves: seq<Move>)
    requires InService(w.intake)
    ensures OnlyRecords(moves)
    ensures Play(c, w, moves).Some?
    ensures var w' := Play(c, w, moves).value;
      && w'.intake.awaiting == [] && w'.intake.buffer == []
      && w'.intake.arrivals == w.intake.arrivals && |w'.pipe.workers| == |w.pipe.workers|
      && w'.intake.exited == w.intake.exited
  {
    if w.intake.exited {
      moves := CanAnswerAll(c, w);
    } else {
      var m := Receiver(StartPush(true, w.intake.pausedUntil));
      var w1 := Moved(c, w, m);
      PlayOne(c, w, m);
      var rest := CanAnswerAll(c, w1);
      PlayConcat(c, w, [m], rest);
      moves := [m] + rest;
    }
  }

  function AsMoves(labels: seq<Label>): seq<Move> {
    seq(|labels|, i requires 0 <= i < |labels| => Pipeline(labels[i]))
  }

  lemma {:induction false} PlayPipeline(c: Settings, w: World, labels: seq<Label>)
    requires After(w.pipe, labels).Some? && ClaimsAnswered(labels)
    ensures Play(c, w, AsMoves(labels)) == Some(w.(pipe := After(w.pipe, labels).value))
    decreases labels
  {
    if labels != [] {
      assert !labels[0].ClaimReplyLost?;
      assert ClaimsAnswered(labels[1..]);
      assert AsMoves(labels)[1..] == AsMoves(labels[1..]);
      PlayPipeline(c, w.(pipe := Next(w.pipe, labels[0])), labels[1..]);
    }
  }

  /** Whatever the other receivers push was made by as_row too. */
  predicate OnlyRecords(moves: seq<Move>) {
    forall i :: 0 <= i < |moves| ==> moves[i].Pipeline? && moves[i].l.Push? ==> Storable(moves[i].l.records)
  }

  predicate AllStorable(w: World) {
    && Storable(w.pipe.pushed) && Storable(w.intake.buffer)
    && forall k :: 0 <= k < |w.intake.awaiting| ==> Storable(w.intake.awaiting[k])
  }

  lemma TakenStorable(c: Settings, s: Intake, text: string, source: string, now: int)
    requires Storable(s.buffer) && TIMESTAMP_MIN <= now <= TIMESTAMP_MAX
    ensures Storable(Taken(c, s, text, source, now).buffer)
    ensures Taken(c, s, text, source, now).awaiting == s.awaiting
  {
    var outcome := c.parser(text);
    if source in c.routers && outcome.Parsed? {
      RowRoundTrip(outcome.log, now, source);
    }
  }

  lemma MoveStorable(c: Settings, w: World, m: Move)
    requires AllStorable(w) && Allowed(w, m) && OnlyRecords([m])
    ensures AllStorable(Moved(c, w, m))
  {
    match m
    case Pipeline(l) =>
      assert [m][0] == m;
      NextPushed(w.pipe, l);
    case Receiver(e) =>
      if e.Line? {
        TakenStorable(c, w.intake, e.text, e.source, e.now);
      }
  }

  lemma {:induction false} PlayStorable(c: Settings, w: World, moves: seq<Move>)
    requires AllStorable(w) && OnlyRecords(moves) && Play(c, w, moves).Some?
    ensures AllStorable(Play(c, w, moves).value)
    ensures |Play(c, w, moves).value.pipe.workers| == |w.pipe.workers|
    decreases moves
  {
    if moves != [] {
      var w1 := Moved(c, w, moves[0]);
      assert OnlyRecords([moves[0]]);
      MoveStorable(c, w, moves[0]);
      assert |w1.pipe.workers| == |w.pipe.workers|;
      PlayStorable(c, w1, moves[1..]);
    }
  }

  lemma {:induction false} OthersConcat(a: seq<Move>, b: seq<Move>, p: Payload)
    ensures Count(OthersPushed(a + b), p) == Count(OthersPushed(a), p) + Count(OthersPushed(b), p)
  {
    if a == [] {
      assert a + b == b;
    } else {
      var first := if a[0].Pipeline? && a[0].l.Push? then a[0].l.records else [];
      assert (a + b)[0] == a[0] && (a + b)[1..] == a[1..] + b;
      OthersConcat(a[1..], b, p);
      CountConcat(first, OthersPushed(a[1..]), p);
      CountConcat(first, OthersPushed(a[1..] + b), p);
    }
  }

  /** From every state the receiver and the pipeline can be in there is a way on after which each
      parsed record, and each that others pushed, is in the table or was counted as dropped, or was lost by an
      exit that is past.  The workers claim n records at a time. */
  lemma CanAlwaysFinish(c: Settings, w0: World, moves: seq<Move>, n: int) returns (more: seq<Move>)
    requires Fresh(w0) && |w0.pipe.workers| >= 1 && n >= 1 && OnlyRecords(moves) && Play(c, w0, moves).Some?
    ensures Play(c, w0, moves + more).Some?
    ensures var w, w' := Play(c, w0, moves).value, Play(c, w0, moves + more).value;
      && w'.intake.arrivals == w.intake.arrivals
      && w'.intake.exited == w.intake.exited && (!w.intake.exited ==> Lost(w'.intake) == [])
      && forall p :: Count(w.intake.arrivals, p) + RowCount(OthersPushed(moves), p) <= Count(w'.pipe.stored, p)
           + Count(WithFate(w'.intake.settled, IsShed), p) + Count(WithFate(w'.intake.settled, IsRefused), p)
           + Count(Lost(w'.intake), p)
  {
    var w := Play(c, w0, moves).value;
    FreshIsSound(w0);
    PlayIsSound(c, w0, moves);
    PlayStorable(c, w0, moves);
    more := CanFinish(c, w, n);
    PlayConcat(c, w0, moves, more);
    var w' := Play(c, w0, moves + more).value;
    forall p ensures Count(w.intake.arrivals, p) + RowCount(OthersPushed(moves), p) <= Count(w'.pipe.stored, p)
           + Count(WithFate(w'.intake.settled, IsShed), p) + Count(WithFate(w'.intake.settled, IsRefused), p)
           + Count(Lost(w'.intake), p)
    {
      NothingVanishes(c, w0, moves + more, p);
      OthersConcat(moves, more, p);
      assert Count(w'.intake.buffer, p) == 0 && Count(Flat(w'.intake.awaiting), p) == 0 && Count(w'.pipe.queue, p) == 0;
    }
  }

  /** The way on: the receiver and Redis are emptied. */
  lemma CanFinish(c: Settings, w: World, n: int) returns (more: seq<Move>)
    requires Sound(w) && AllStorable(w) && |w.pipe.workers| >= 1 && n >= 1
    ensures Play(c, w, more).Some?
    ensures var w' := Play(c, w, more).value;
      && w'.intake.arrivals == w.intake.arrivals && w'.intake.exited == w.intake.exited
      && (!w.intake.exited ==> Lost(w'.intake) == [])
      && w'.intake.buffer == [] && w'.intake.awaiting == [] && w'.pipe.queue == []
      && forall p :: InflightCount(w'.pipe.workers, p) == 0
  {
    var empty := CanEmptyIntake(c, w);
    PlayIsSound(c, w, empty);
    PlayStorable(c, w, empty);
    var w1 := Play(c, w, empty).value;
    assert !HasPoison(w1.pipe.pushed);
    var drain := CanDrain(w1.pipe, n);
    PlayPipeline(c, w1, drain);
    PlayConcat(c, w, empty, AsMoves(drain));
    more := empty + AsMoves(drain);
    PlayIsSound(c, w, more);
  }
}
