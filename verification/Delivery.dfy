/** The delivery protocol between Redis, the batch workers, the maintenance service and
    ClickHouse, as a state machine.  One transition is what happens between two awaits of one of
    the participants (backend/app/services/worker.py, backend/app/services/maintenance.py). */
module Delivery {
  import opened Wrappers
  import opened Wire
  import opened RedisQueue

  /** Where a worker process stands.  Inserted: ClickHouse confirmed the batch, the in-flight list
      is not yet deleted.  Discarding: nothing in the batch could be decoded. */
  datatype Phase =
    | Off
    | Ready
    | Holding(batch: seq<Payload>)
    | Inserted(batch: seq<Payload>)
    | Discarding(batch: seq<Payload>)

  /** `unseen` is history: what claims whose answer never arrived put in the in-flight list since
      the list was last emptied or the process last died. */
  datatype Worker = Worker(inflight: seq<Payload>, phase: Phase, unseen: seq<Payload>)

  /** The first four fields are the running system; the others are history.
      doubtful   rows of inserts that failed or were cut off, which may land now or later or never
      pushed     records that entered the queue, in order
      acked      records that an acknowledgement deleted, in order
      confirmed  rows of inserts that ClickHouse confirmed
      strays     doubtful rows that landed after all
      redone     confirmed rows whose records no acknowledgement of that insert can remove, because
                 they went back to the queue or stay in the list of a dead process
      blind      records that an acknowledgement deleted without the worker ever having seen them */
  datatype System = System(
    queue: seq<Payload>,
    workers: seq<Worker>,
    stored: seq<Payload>,
    doubtful: seq<Payload>,
    pushed: seq<Payload>,
    acked: seq<Payload>,
    confirmed: seq<Payload>,
    strays: seq<Payload>,
    redone: seq<Payload>,
    blind: seq<Payload>)

  datatype Label =
    | Push(records: seq<Payload>)
    | Start(w: nat)
    | Claim(w: nat, n: int)
    | ClaimReplyLost(w: nat, n: int)
    | InsertOk(w: nat)
    | InsertError(w: nat)
    | Land(rows: seq<Payload>)
    | Ack(w: nat)
    | AckError(w: nat, applied: bool)
    | Stop(w: nat)
    | Crash(w: nat)
    | Recover(w: nat)

  const IDLE_WORKER := Worker([], Off, [])

  /** Every worker id that the run will ever use, none of them started yet. */
  predicate Initial(s: System) {
    && s.queue == [] && s.pushed == [] && s.acked == [] && s.blind == []
    && s.stored == [] && s.doubtful == [] && s.confirmed == [] && s.strays == [] && s.redone == []
    && forall i :: 0 <= i < |s.workers| ==> s.workers[i] == IDLE_WORKER
  }

  // ----------------------------------------------------------------- transitions

  predicate Enabled(s: System, l: Label) {
    match l
    case Push(_) => true
    case Land(rows) => multiset(s.strays + rows) <= multiset(s.doubtful)
    case Recover(w) => w < |s.workers|
    case Start(w) => w < |s.workers| && s.workers[w].phase.Off?
    case Claim(w, n) => w < |s.workers| && s.workers[w].phase.Ready? && n >= 1
    case ClaimReplyLost(w, n) => w < |s.workers| && s.workers[w].phase.Ready? && n >= 1
    case InsertOk(w) => w < |s.workers| && s.workers[w].phase.Holding?
    case InsertError(w) => w < |s.workers| && s.workers[w].phase.Holding?
    case Ack(w) => w < |s.workers| && (s.workers[w].phase.Inserted? || s.workers[w].phase.Discarding?)
    case AckError(w, _) => w < |s.workers| && (s.workers[w].phase.Inserted? || s.workers[w].phase.Discarding?)
    case Stop(w) => w < |s.workers| && (s.workers[w].phase.Ready? || s.workers[w].phase.Holding?)
    case Crash(w) => w < |s.workers| && !s.workers[w].phase.Off?
  }

  function Next(s: System, l: Label): System
    requires Enabled(s, l)
  {
    match l
    case Push(records) => s.(queue := s.queue + records, pushed := s.pushed + records)
    case Land(rows) => s.(stored := s.stored + rows, strays := s.strays + rows)
    case Recover(w) => Released(s, w, s.workers[w].phase)
    case Start(w) => Released(s, w, Ready)
    case Stop(w) => Released(s, w, Off)
    case Claim(w, n) =>
      var items := Claimed(s.queue, n);
      s.(queue := s.queue[|items|..], workers := s.workers[w := AfterDecode(s.workers[w], items)])
    case ClaimReplyLost(w, n) =>
      var items := Claimed(s.queue, n);
      var wk := s.workers[w];
      s.(queue := s.queue[|items|..],
         workers := s.workers[w := Worker(wk.inflight + items, Ready, wk.unseen + items)])
    case InsertOk(w) =>
      var b := s.workers[w].phase.batch;
      var rows := Rows(b);
      s.(stored := s.stored + rows, confirmed := s.confirmed + rows,
         redone := s.redone + (if s.workers[w].inflight == [] then rows else []),
         workers := s.workers[w := s.workers[w].(phase := Inserted(b))])
    case InsertError(w) =>
      s.(doubtful := s.doubtful + Rows(s.workers[w].phase.batch))
    case Ack(w) => Deleted(s, w, Ready)
    case AckError(w, applied) => if applied then Deleted(s, w, Off) else Died(s, w)
    case Crash(w) => Died(s, w)
  }

  /** The worker's state once a claim has answered.  Decoding follows without an await, and a
      payload that decodes but carries no timestamp ends the process there. */
  function AfterDecode(wk: Worker, items: seq<Payload>): Worker {
    var inflight := wk.inflight + items;
    if items == [] then Worker(inflight, Ready, wk.unseen)
    else Worker(inflight, Decoded(items), if HasPoison(items) then [] else wk.unseen)
  }

  function Decoded(items: seq<Payload>): Phase {
    if HasPoison(items) then Off
    else if Rows(items) == [] then Discarding(items)
    else Holding(items)
  }

  /** The rows of w that are confirmed while its list still holds their records. */
  function Unacked(wk: Worker): seq<Payload> {
    if wk.phase.Inserted? && wk.inflight != [] then Rows(wk.phase.batch) else []
  }

  /** The in-flight list of w goes back to the head of the queue. */
  function Released(s: System, w: nat, phase: Phase): System
    requires w < |s.workers|
  {
    var wk := s.workers[w];
    s.(queue := wk.inflight + s.queue, workers := s.workers[w := Worker([], phase, [])],
       redone := s.redone + Unacked(wk))
  }

  /** The in-flight list of w is deleted. */
  function Deleted(s: System, w: nat, phase: Phase): System
    requires w < |s.workers|
  {
    var wk := s.workers[w];
    s.(workers := s.workers[w := Worker([], phase, [])],
       acked := s.acked + wk.inflight, blind := s.blind + wk.unseen)
  }

  /** The process of w ends; its list stays, and an insert under way may or may not land. */
  function Died(s: System, w: nat): System
    requires w < |s.workers|
  {
    var wk := s.workers[w];
    s.(workers := s.workers[w := Worker(wk.inflight, Off, [])],
       doubtful := s.doubtful + (if wk.phase.Holding? then Rows(wk.phase.batch) else []),
       redone := s.redone + Unacked(wk))
  }

  /** The state after a sequence of transitions, None when one of them was not possible. */
  function After(s: System, labels: seq<Label>): Option<System>
    decreases labels
  {
    if labels == [] then Some(s)
    else if Enabled(s, labels[0]) then After(Next(s, labels[0]), labels[1..])
    else None
  }

  lemma {:induction false} AfterConcat(s: System, a: seq<Label>, b: seq<Label>)
    requires After(s, a).Some?
    ensures After(s, a + b) == After(After(s, a).value, b)
    decreases a
  {
    if a == [] {
      assert a + b == b;
    } else {
      assert (a + b)[1..] == a[1..] + b;
      AfterConcat(Next(s, a[0]), a[1..], b);
    }
  }

  lemma AfterOne(s: System, l: Label)
    requires Enabled(s, l)
    ensures After(s, [l]) == Some(Next(s, l))
  {
    assert After(Next(s, l), [l][1..]) == Some(Next(s, l));
  }

  /** The one worker that a transition concerns. */
  function Actor(l: Label, other: nat): nat {
    if l.Push? || l.Land? then other else l.w
  }

  lemma NextTouchesOne(s: System, l: Label, other: nat)
    requires Enabled(s, l)
    ensures |Next(s, l).workers| == |s.workers|
    ensures forall i :: 0 <= i < |s.workers| && i != Actor(l, other) ==> Next(s, l).workers[i] == s.workers[i]
  {
  }

  lemma {:induction false} SameWorkers(s: System, labels: seq<Label>)
    requires After(s, labels).Some?
    ensures |After(s, labels).value.workers| == |s.workers|
    decreases labels
  {
    if labels != [] {
      SameWorkers(Next(s, labels[0]), labels[1..]);
    }
  }

  lemma Extend(s0: System, labels: seq<Label>, l: Label)
    requires After(s0, labels).Some? && Enabled(After(s0, labels).value, l)
    ensures After(s0, labels + [l]) == Some(Next(After(s0, labels).value, l))
  {
    AfterConcat(s0, labels, [l]);
    AfterOne(After(s0, labels).value, l);
  }

  // ----------------------------------------------------------------- sums over the workers

  function InflightCount(ws: seq<Worker>, p: Payload): nat {
    if ws == [] then 0 else Count(ws[0].inflight, p) + InflightCount(ws[1..], p)
  }

  /** Confirmed rows whose records are still in the list of the worker that inserted them. */
  function PendingOf(wk: Worker, p: Payload): nat {
    if wk.phase.Inserted? && wk.inflight != [] then RowCount(wk.phase.batch, p) else 0
  }

  function PendingCount(ws: seq<Worker>, p: Payload): nat {
    if ws == [] then 0 else PendingOf(ws[0], p) + PendingCount(ws[1..], p)
  }

  /** Replacing one worker replaces its share of both sums. */
  lemma {:induction false} SumsUpdate(ws: seq<Worker>, w: nat, wk: Worker, p: Payload)
    requires w < |ws|
    ensures InflightCount(ws[w := wk], p) + Count(ws[w].inflight, p) == InflightCount(ws, p) + Count(wk.inflight, p)
    ensures PendingCount(ws[w := wk], p) + PendingOf(ws[w], p) == PendingCount(ws, p) + PendingOf(wk, p)
  {
    if w == 0 {
      assert ws[w := wk][1..] == ws[1..];
    } else {
      SumsUpdate(ws[1..], w - 1, wk, p);
      assert ws[w := wk][1..] == ws[1..][w - 1 := wk];
    }
  }

  lemma {:induction false} SumsOfIdle(ws: seq<Worker>, p: Payload)
    requires forall i :: 0 <= i < |ws| ==> ws[i] == IDLE_WORKER
    ensures InflightCount(ws, p) == 0 && PendingCount(ws, p) == 0
  {
    if ws != [] {
      SumsOfIdle(ws[1..], p);
    }
  }

  // ----------------------------------------------------------------- the invariant

  /** What a worker knows about its own in-flight list, which the code relies on and never says:
      on every claim the list holds nothing the worker has seen, and while it holds a batch the
      list is that batch or has been taken away. */
  predicate WorkerInv(wk: Worker) {
    match wk.phase
    case Off => wk.unseen == []
    case Ready => wk.inflight == wk.unseen
    case Holding(b) => HoldsList(wk, b)
    case Inserted(b) => HoldsList(wk, b)
    case Discarding(b) => HoldsList(wk, b) && Rows(b) == []
  }

  predicate HoldsList(wk: Worker, b: seq<Payload>) {
    && b != [] && !HasPoison(b)
    && (wk.inflight == wk.unseen + b || (wk.inflight == [] && wk.unseen == []))
  }

  predicate WorkersInv(ws: seq<Worker>) {
    forall i :: 0 <= i < |ws| ==> WorkerInv(ws[i])
  }

  /** Every pushed record is in the queue, in an in-flight list, or acknowledged, as often as it
      was pushed. */
  predicate Conserved(s: System, p: Payload) {
    Count(s.pushed, p) == Count(s.queue, p) + InflightCount(s.workers, p) + Count(s.acked, p)
  }

  /** Everything stored is confirmed or a stray, and confirmed rows and acknowledged rows are the
      same up to the rows waiting for their acknowledgement, the ones inserted again, and the ones
      deleted unseen. */
  predicate Balanced(s: System, p: Payload) {
    && Count(s.stored, p) == Count(s.confirmed, p) + Count(s.strays, p)
    && Count(s.confirmed, p) + RowCount(s.blind, p) ==
       RowCount(s.acked, p) + PendingCount(s.workers, p) + Count(s.redone, p)
  }

  ghost predicate Inv(s: System) {
    && WorkersInv(s.workers)
    && forall p :: Conserved(s, p) && Balanced(s, p)
  }

  lemma InitialInv(s: System)
    requires Initial(s)
    ensures Inv(s)
  {
    forall p ensures Conserved(s, p) && Balanced(s, p) {
      SumsOfIdle(s.workers, p);
    }
  }

  lemma UnackedCount(wk: Worker, p: Payload)
    ensures Count(Unacked(wk), p) == PendingOf(wk, p)
  {
    if wk.phase.Inserted? {
      CountRows(wk.phase.batch, p);
    }
  }

  lemma ReleasedCounts(s: System, w: nat, phase: Phase, p: Payload)
    requires w < |s.workers| && Conserved(s, p) && Balanced(s, p)
    ensures Conserved(Released(s, w, phase), p) && Balanced(Released(s, w, phase), p)
  {
    SumsUpdate(s.workers, w, Worker([], phase, []), p);
    CountConcat(s.workers[w].inflight, s.queue, p);
    CountConcat(s.redone, Unacked(s.workers[w]), p);
    UnackedCount(s.workers[w], p);
  }

  /** What a worker deletes is its batch and what it never saw. */
  lemma DeletedRows(wk: Worker, p: Payload)
    requires WorkerInv(wk) && (wk.phase.Inserted? || wk.phase.Discarding?)
    ensures RowCount(wk.inflight, p) == PendingOf(wk, p) + RowCount(wk.unseen, p)
  {
    CountConcat(wk.unseen, wk.phase.batch, p);
    CountRows(wk.phase.batch, p);
  }

  lemma DeletedConserved(s: System, w: nat, phase: Phase, p: Payload)
    requires w < |s.workers| && Conserved(s, p)
    ensures Conserved(Deleted(s, w, phase), p)
  {
    SumsUpdate(s.workers, w, Worker([], phase, []), p);
    CountConcat(s.acked, s.workers[w].inflight, p);
  }

  lemma DeletedBalanced(s: System, w: nat, phase: Phase, p: Payload)
    requires w < |s.workers| && Balanced(s, p) && WorkerInv(s.workers[w]) && !phase.Inserted?
    requires s.workers[w].phase.Inserted? || s.workers[w].phase.Discarding?
    ensures Balanced(Deleted(s, w, phase), p)
  {
    var wk := s.workers[w];
    SumsUpdate(s.workers, w, Worker([], phase, []), p);
    DeletedRows(wk, p);
    CountConcat(s.acked, wk.inflight, p);
    CountConcat(s.blind, wk.unseen, p);
  }

  lemma DeletedCounts(s: System, w: nat, phase: Phase, p: Payload)
    requires w < |s.workers| && Conserved(s, p) && Balanced(s, p) && WorkerInv(s.workers[w]) && !phase.Inserted?
    requires s.workers[w].phase.Inserted? || s.workers[w].phase.Discarding?
    ensures Conserved(Deleted(s, w, phase), p) && Balanced(Deleted(s, w, phase), p)
  {
    DeletedConserved(s, w, phase, p);
    DeletedBalanced(s, w, phase, p);
  }

  lemma DiedCounts(s: System, w: nat, p: Payload)
    requires w < |s.workers| && Conserved(s, p) && Balanced(s, p)
    ensures Conserved(Died(s, w), p) && Balanced(Died(s, w), p)
  {
    var wk := s.workers[w];
    SumsUpdate(s.workers, w, Worker(wk.inflight, Off, []), p);
    CountConcat(s.redone, Unacked(wk), p);
    UnackedCount(wk, p);
  }

  /** Both forms of a claim move the same records. */
  lemma ClaimCounts(s: System, w: nat, n: int, wk': Worker, p: Payload)
    requires w < |s.workers| && Conserved(s, p) && Balanced(s, p) && s.workers[w].phase.Ready?
    requires wk'.inflight == s.workers[w].inflight + Claimed(s.queue, n) && !wk'.phase.Inserted?
    ensures var s' := s.(queue := s.queue[|Claimed(s.queue, n)|..], workers := s.workers[w := wk']);
      Conserved(s', p) && Balanced(s', p)
  {
    var items := Claimed(s.queue, n);
    ClaimTakesPrefix(s.queue, n);
    CountConcat(items, s.queue[|items|..], p);
    CountConcat(s.workers[w].inflight, items, p);
    SumsUpdate(s.workers, w, wk', p);
  }

  lemma InsertCounts(s: System, w: nat, p: Payload)
    requires Conserved(s, p) && Balanced(s, p) && Enabled(s, InsertOk(w))
    ensures Conserved(Next(s, InsertOk(w)), p) && Balanced(Next(s, InsertOk(w)), p)
  {
    var b := s.workers[w].phase.batch;
    CountConcat(s.redone, if s.workers[w].inflight == [] then Rows(b) else [], p);
    SumsUpdate(s.workers, w, s.workers[w].(phase := Inserted(b)), p);
    CountRows(b, p);
    CountConcat(s.stored, Rows(b), p);
    CountConcat(s.confirmed, Rows(b), p);
  }

  lemma StepCounts(s: System, l: Label, p: Payload)
    requires WorkersInv(s.workers) && Conserved(s, p) && Balanced(s, p) && Enabled(s, l)
    ensures Conserved(Next(s, l), p) && Balanced(Next(s, l), p)
  {
    match l
    case Push(records) =>
      CountConcat(s.pushed, records, p);
      CountConcat(s.queue, records, p);
    case Land(rows) =>
      CountConcat(s.stored, rows, p);
      CountConcat(s.strays, rows, p);
    case Recover(w) => ReleasedCounts(s, w, s.workers[w].phase, p);
    case Start(w) => ReleasedCounts(s, w, Ready, p);
    case Stop(w) => ReleasedCounts(s, w, Off, p);
    case Claim(w, n) => ClaimCounts(s, w, n, AfterDecode(s.workers[w], Claimed(s.queue, n)), p);
    case ClaimReplyLost(w, n) =>
      var wk, items := s.workers[w], Claimed(s.queue, n);
      ClaimCounts(s, w, n, Worker(wk.inflight + items, Ready, wk.unseen + items), p);
    case InsertOk(w) => InsertCounts(s, w, p);
    case InsertError(w) =>
    case Ack(w) => DeletedCounts(s, w, Ready, p);
    case AckError(w, applied) =>
      if applied {
        DeletedCounts(s, w, Off, p);
      } else {
        DiedCounts(s, w, p);
      }
    case Crash(w) => DiedCounts(s, w, p);
  }

  lemma StepWorkers(s: System, l: Label)
    requires WorkersInv(s.workers) && Enabled(s, l)
    ensures WorkersInv(Next(s, l).workers)
  {
    if l.Claim? {
      assert [] + Claimed(s.queue, l.n) == Claimed(s.queue, l.n);
      assert s.workers[l.w].inflight + [] == s.workers[l.w].inflight;
    }
  }

  lemma StepInv(s: System, l: Label)
    requires Inv(s) && Enabled(s, l)
    ensures Inv(Next(s, l))
  {
    StepWorkers(s, l);
    forall p ensures Conserved(Next(s, l), p) && Balanced(Next(s, l), p) {
      StepCounts(s, l, p);
    }
  }

  lemma {:induction false} RunInv(s: System, labels: seq<Label>)
    requires Inv(s) && After(s, labels).Some?
    ensures Inv(After(s, labels).value)
    decreases labels
  {
    if labels != [] {
      StepInv(s, labels[0]);
      RunInv(Next(s, labels[0]), labels[1..]);
    }
  }

  /** Every state a run reaches from an initial one satisfies the invariant. */
  lemma ReachableInv(s0: System, labels: seq<Label>)
    requires Initial(s0) && After(s0, labels).Some?
    ensures Inv(After(s0, labels).value)
  {
    InitialInv(s0);
    RunInv(s0, labels);
  }

  // ----------------------------------------------------------------- conservation

  function AllInflight(ws: seq<Worker>): seq<Payload> {
    if ws == [] then [] else ws[0].inflight + AllInflight(ws[1..])
  }

  lemma {:induction false} CountAllInflight(ws: seq<Worker>, p: Payload)
    ensures Count(AllInflight(ws), p) == InflightCount(ws, p)
  {
    if ws != [] {
      CountConcat(ws[0].inflight, AllInflight(ws[1..]), p);
      CountAllInflight(ws[1..], p);
    }
  }

  lemma EqualCounts(a: seq<Payload>, b: seq<Payload>)
    requires forall p :: Count(a, p) == Count(b, p)
    ensures multiset(a) == multiset(b)
  {
    forall p ensures multiset(a)[p] == multiset(b)[p] {
      CountIsMultiplicity(a, p);
      CountIsMultiplicity(b, p);
    }
  }

  /** Whatever happens, the queue, the in-flight lists and the acknowledged records together are a
      rearrangement of what was pushed. */
  lemma Conservation(s0: System, labels: seq<Label>)
    requires Initial(s0) && After(s0, labels).Some?
    ensures var s := After(s0, labels).value;
      multiset(s.pushed) == multiset(s.queue + AllInflight(s.workers) + s.acked)
  {
    ReachableInv(s0, labels);
    var s := After(s0, labels).value;
    forall p ensures Count(s.pushed, p) == Count(s.queue + AllInflight(s.workers) + s.acked, p) {
      CountConcat(s.queue + AllInflight(s.workers), s.acked, p);
      CountConcat(s.queue, AllInflight(s.workers), p);
      CountAllInflight(s.workers, p);
      assert Conserved(s, p);
    }
    EqualCounts(s.pushed, s.queue + AllInflight(s.workers) + s.acked);
  }

  // ----------------------------------------------------------------- at least once

  /** Every claim that moved records was answered. */
  predicate ClaimsAnswered(labels: seq<Label>) {
    forall i :: 0 <= i < |labels| ==> !labels[i].ClaimReplyLost?
  }

  predicate NothingUnseen(s: System) {
    s.blind == [] && forall i :: 0 <= i < |s.workers| ==> s.workers[i].unseen == []
  }

  lemma {:induction false} AnsweredRunsAreSeen(s: System, labels: seq<Label>)
    requires NothingUnseen(s) && ClaimsAnswered(labels) && After(s, labels).Some?
    ensures NothingUnseen(After(s, labels).value)
    decreases labels
  {
    if labels != [] {
      assert !labels[0].ClaimReplyLost?;
      assert NothingUnseen(Next(s, labels[0]));
      assert ClaimsAnswered(labels[1..]);
      AnsweredRunsAreSeen(Next(s, labels[0]), labels[1..]);
    }
  }

  /** Where every record is, exactly, in every run: pushed copies, plus the rows that were or will be
      inserted a second time, are in the queue, in an in-flight list, stored or deleted unseen. */
  lemma ExactBalance(s0: System, labels: seq<Label>, p: Payload)
    requires Initial(s0) && After(s0, labels).Some? && Decodable(p)
    ensures var s := After(s0, labels).value;
      Count(s.pushed, p) + Count(s.redone, p) + Count(s.strays, p) + PendingCount(s.workers, p) ==
      Count(s.queue, p) + InflightCount(s.workers, p) + Count(s.stored, p) + Count(s.blind, p)
  {
    ReachableInv(s0, labels);
    var s := After(s0, labels).value;
    assert Conserved(s, p) && Balanced(s, p);
  }

  /** So a record is kept, as often as it was pushed, if and only if the copies deleted unseen are
      made up for by copies that were inserted without leaving Redis. */
  lemma LossIsBlind(s0: System, labels: seq<Label>, p: Payload)
    requires Initial(s0) && After(s0, labels).Some? && Decodable(p)
    ensures var s := After(s0, labels).value;
      Count(s.pushed, p) <= Count(s.queue, p) + InflightCount(s.workers, p) + Count(s.stored, p) <==>
      Count(s.blind, p) <= Count(s.redone, p) + Count(s.strays, p) + PendingCount(s.workers, p)
  {
    ExactBalance(s0, labels, p);
  }

  /** Deleting unseen happens in one way: an acknowledgement takes effect on a list into which a claim
      had moved records without its answer arriving. */
  lemma BlindGrowsIff(s: System, l: Label)
    requires Enabled(s, l)
    ensures Next(s, l).blind != s.blind <==>
            (l.Ack? || (l.AckError? && l.applied)) && s.workers[l.w].unseen != []
    ensures s.blind <= Next(s, l).blind
  {
  }

  /** At-least-once delivery: with any interleaving of receivers, workers, crashes, restarts, failed
      inserts and acknowledgements, and recovery even of a live worker's list. */
  lemma AtLeastOnce(s0: System, labels: seq<Label>, p: Payload)
    requires Initial(s0) && After(s0, labels).Some? && Decodable(p) && ClaimsAnswered(labels)
    ensures var s := After(s0, labels).value;
      Count(s.pushed, p) <= Count(s.queue, p) + InflightCount(s.workers, p) + Count(s.stored, p)
  {
    ExactBalance(s0, labels, p);
    AnsweredRunsAreSeen(s0, labels);
  }

  predicate NoStartOf(labels: seq<Label>, w: nat) {
    forall i :: 0 <= i < |labels| ==> labels[i] != Start(w)
  }

  /** The i-th step is the confirmation, by worker w, of the batch that it held at the start. */
  predicate ConfirmedAt(s: System, labels: seq<Label>, w: nat, i: nat) {
    w < |s.workers| && i < |labels| && labels[i] == InsertOk(w) && After(s, labels[..i]).Some? &&
    var s' := After(s, labels[..i]).value;
    w < |s'.workers| && s'.workers[w].phase == s.workers[w].phase
  }

  /** While a process lives it leaves a batch behind in one way only: after ClickHouse confirmed its own insert
      of every decodable row of it. */
  lemma {:induction false} ClaimIsNeverDiscarded(s: System, labels: seq<Label>, w: nat, p: Payload)
    requires w < |s.workers| && After(s, labels).Some? && NoStartOf(labels, w)
    requires w < |After(s, labels).value.workers| && After(s, labels).value.workers[w].phase.Ready?
    ensures !s.workers[w].phase.Off?
    ensures s.workers[w].phase.Holding? ==> exists i: nat :: ConfirmedAt(s, labels, w, i)
    ensures Count(After(s, labels).value.confirmed, p) >=
            Count(s.confirmed, p) + (if s.workers[w].phase.Holding? then RowCount(s.workers[w].phase.batch, p) else 0)
    decreases labels
  {
    if labels != [] {
      var l := labels[0];
      assert l != Start(w);
      if l.InsertOk? {
        CountRows(s.workers[l.w].phase.batch, p);
        CountConcat(s.confirmed, Rows(s.workers[l.w].phase.batch), p);
      }
      ClaimIsNeverDiscarded(Next(s, l), labels[1..], w, p);
      if s.workers[w].phase.Holding? {
        ConfirmedFirstOrLater(s, labels, w);
      }
    }
  }

  lemma ConfirmedFirstOrLater(s: System, labels: seq<Label>, w: nat)
    requires w < |s.workers| && labels != [] && Enabled(s, labels[0]) && s.workers[w].phase.Holding?
    requires Next(s, labels[0]).workers[w].phase.Holding? ==>
               exists i: nat :: ConfirmedAt(Next(s, labels[0]), labels[1..], w, i)
    requires !Next(s, labels[0]).workers[w].phase.Off?
    ensures exists i: nat :: ConfirmedAt(s, labels, w, i)
  {
    var l := labels[0];
    if l == InsertOk(w) {
      assert labels[..0] == [];
      assert ConfirmedAt(s, labels, w, 0);
    } else {
      assert Next(s, l).workers[w].phase == s.workers[w].phase;
      var i: nat :| ConfirmedAt(Next(s, l), labels[1..], w, i);
      assert labels[..i + 1] == [l] + labels[1..][..i];
      AfterOne(s, l);
      AfterConcat(s, [l], labels[1..][..i]);
      assert ConfirmedAt(s, labels, w, i + 1);
    }
  }

  // ----------------------------------------------------------------- duplicates

  lemma {:induction false} PendingIsInflight(ws: seq<Worker>, p: Payload)
    requires WorkersInv(ws)
    ensures PendingCount(ws, p) <= InflightCount(ws, p)
  {
    if ws != [] {
      assert WorkerInv(ws[0]);
      if ws[0].phase.Inserted? {
        CountConcat(ws[0].unseen, ws[0].phase.batch, p);
      }
      PendingIsInflight(ws[1..], p);
    }
  }

  /** A record is stored more often than it was pushed only through rows that were confirmed without
      their acknowledgement removing them, or through a failed insert that landed. */
  lemma DuplicatesAreAccounted(s0: System, labels: seq<Label>, p: Payload)
    requires Initial(s0) && After(s0, labels).Some?
    ensures var s := After(s0, labels).value;
      Count(s.stored, p) <= Count(s.pushed, p) + Count(s.redone, p) + Count(s.strays, p)
  {
    ReachableInv(s0, labels);
    var s := After(s0, labels).value;
    assert Conserved(s, p) && Balanced(s, p);
    PendingIsInflight(s.workers, p);
  }

  /** With every claim answered, a record is stored exactly as often as it was acknowledged or waits to
      be, if and only if none of its rows was confirmed in vain and none landed after a failure. */
  lemma StoredOnceIff(s0: System, labels: seq<Label>, p: Payload)
    requires Initial(s0) && After(s0, labels).Some? && ClaimsAnswered(labels)
    ensures var s := After(s0, labels).value;
      Count(s.stored, p) == RowCount(s.acked, p) + PendingCount(s.workers, p) <==>
      Count(s.redone, p) == 0 && Count(s.strays, p) == 0
  {
    ReachableInv(s0, labels);
    AnsweredRunsAreSeen(s0, labels);
    var s := After(s0, labels).value;
    assert Conserved(s, p) && Balanced(s, p);
  }

  /** The ways to confirm rows in vain: to insert a batch that was taken away, or to take a confirmed
      batch away, or to lose its process, before its acknowledgement. */
  predicate Redoes(s: System, l: Label)
    requires Enabled(s, l)
  {
    match l
    case InsertOk(w) => s.workers[w].inflight == [] && Rows(s.workers[w].phase.batch) != []
    case Recover(w) => Unacked(s.workers[w]) != []
    case Start(w) => Unacked(s.workers[w]) != []
    case Stop(w) => Unacked(s.workers[w]) != []
    case Crash(w) => Unacked(s.workers[w]) != []
    case AckError(w, applied) => !applied && Unacked(s.workers[w]) != []
    case _ => false
  }

  lemma RedoneAndStraysGrowIff(s: System, l: Label)
    requires Enabled(s, l)
    ensures Next(s, l).redone != s.redone <==> Redoes(s, l)
    ensures Next(s, l).strays != s.strays <==> l.Land? && l.rows != []
    ensures s.redone <= Next(s, l).redone && s.strays <= Next(s, l).strays
  {
  }

  /** The steps that cannot duplicate: no failed insert lands, no process dies and no list is taken
      away between a claim and its acknowledgement. */
  predicate Clean(s: System, l: Label)
    requires Enabled(s, l)
  {
    match l
    case Land(_) => false
    case ClaimReplyLost(_, _) => false
    case Recover(w) => s.workers[w].phase.Off? || s.workers[w].phase.Ready?
    case Crash(w) => !s.workers[w].phase.Inserted?
    case AckError(w, applied) => applied || s.workers[w].phase.Discarding?
    case _ => true
  }

  predicate CleanRun(s: System, labels: seq<Label>)
    decreases labels
  {
    labels == [] ||
    (Enabled(s, labels[0]) && Clean(s, labels[0]) && CleanRun(Next(s, labels[0]), labels[1..]))
  }

  predicate NothingTwice(s: System) {
    && s.redone == [] && s.strays == [] && s.blind == []
    && forall i :: 0 <= i < |s.workers| ==>
         var wk := s.workers[i];
         wk.unseen == [] && (wk.phase.Holding? || wk.phase.Inserted? ==> wk.inflight != [])
  }

  lemma CleanStep(s: System, l: Label)
    requires WorkersInv(s.workers) && NothingTwice(s) && Enabled(s, l) && Clean(s, l)
    ensures NothingTwice(Next(s, l))
  {
  }

  lemma {:induction false} CleanRunDoesNothingTwice(s: System, labels: seq<Label>)
    requires WorkersInv(s.workers) && NothingTwice(s) && CleanRun(s, labels)
    ensures After(s, labels).Some? && NothingTwice(After(s, labels).value)
    decreases labels
  {
    if labels != [] {
      CleanStep(s, labels[0]);
      StepWorkers(s, labels[0]);
      CleanRunDoesNothingTwice(Next(s, labels[0]), labels[1..]);
    }
  }

  /** Without such steps every decodable record is stored exactly as often as it was acknowledged or
      waits to be; once nothing is left in Redis, exactly as often as it was pushed. */
  lemma ExactlyOnce(s0: System, labels: seq<Label>, p: Payload)
    requires Initial(s0) && CleanRun(s0, labels)
    ensures After(s0, labels).Some?
    ensures var s := After(s0, labels).value;
      && Count(s.stored, p) == RowCount(s.acked, p) + PendingCount(s.workers, p)
      && (s.queue == [] && InflightCount(s.workers, p) == 0 ==> Count(s.stored, p) == RowCount(s.pushed, p))
  {
    InitialInv(s0);
    CleanRunDoesNothingTwice(s0, labels);
    ReachableInv(s0, labels);
    var s := After(s0, labels).value;
    assert Conserved(s, p) && Balanced(s, p);
    PendingIsInflight(s.workers, p);
  }

  // ----------------------------------------------------------------- order

  /** With one worker id: acknowledged, then in flight, then queued, is the order of arrival. */
  predicate InOrder(s: System) {
    |s.workers| == 1 && s.acked + s.workers[0].inflight + s.queue == s.pushed
  }

  lemma StepInOrder(s: System, l: Label)
    requires InOrder(s) && Enabled(s, l)
    ensures InOrder(Next(s, l))
  {
    var held, s' := s.workers[0].inflight, Next(s, l);
    match l
    case Push(records) =>
      SeqAssoc(s.acked + held, s.queue, records);
    case Claim(w, n) => ClaimInOrder(s, n);
    case ClaimReplyLost(w, n) => ClaimInOrder(s, n);
    case Start(w) => ReleaseInOrder(s);
    case Stop(w) => ReleaseInOrder(s);
    case Recover(w) => ReleaseInOrder(s);
    case Ack(w) =>
      assert (s.acked + held) + [] + s.queue == s.acked + held + s.queue;
    case AckError(w, applied) =>
      if applied {
        assert (s.acked + held) + [] + s.queue == s.acked + held + s.queue;
      }
    case InsertOk(w) =>
    case InsertError(w) =>
    case Land(rows) =>
    case Crash(w) =>
  }

  lemma ClaimInOrder(s: System, n: int)
    requires InOrder(s)
    ensures var items := Claimed(s.queue, n);
      s.acked + (s.workers[0].inflight + items) + s.queue[|items|..] == s.pushed
  {
    var items := Claimed(s.queue, n);
    ClaimTakesPrefix(s.queue, n);
    SeqAssoc(s.acked, s.workers[0].inflight, items);
    SeqAssoc(s.acked + s.workers[0].inflight, items, s.queue[|items|..]);
  }

  lemma ReleaseInOrder(s: System)
    requires InOrder(s)
    ensures s.acked + [] + (s.workers[0].inflight + s.queue) == s.pushed
  {
    assert s.acked + [] == s.acked;
    SeqAssoc(s.acked, s.workers[0].inflight, s.queue);
  }

  lemma {:induction false} RunInOrder(s: System, labels: seq<Label>)
    requires InOrder(s) && After(s, labels).Some?
    ensures InOrder(After(s, labels).value)
    decreases labels
  {
    if labels != [] {
      StepInOrder(s, labels[0]);
      RunInOrder(Next(s, labels[0]), labels[1..]);
    }
  }

  /** First in, first out: through crashes, releases, restarts and recoveries. */
  lemma SingleWorkerIsFifo(s0: System, labels: seq<Label>)
    requires Initial(s0) && |s0.workers| == 1 && After(s0, labels).Some?
    ensures var s := After(s0, labels).value;
      |s.workers| == 1 && s.acked + s.workers[0].inflight + s.queue == s.pushed
  {
    RunInOrder(s0, labels);
  }

  // ----------------------------------------------------------------- records that stop a worker

  predicate NeverConfirmed(s: System, p: Payload) {
    Count(s.confirmed, p) == 0
  }

  lemma {:induction false} CountOfAbsent(s: seq<Payload>, p: Payload)
    ensures Count(s, p) > 0 <==> p in s
  {
    if s != [] {
      CountOfAbsent(s[1..], p);
    }
  }

  lemma {:induction false} PoisonIsNeverConfirmed(s: System, labels: seq<Label>, p: Payload)
    requires WorkersInv(s.workers) && Poison(p) && NeverConfirmed(s, p) && After(s, labels).Some?
    ensures NeverConfirmed(After(s, labels).value, p)
    decreases labels
  {
    if labels != [] {
      var l := labels[0];
      if l.InsertOk? {
        var b := s.workers[l.w].phase.batch;
        assert WorkerInv(s.workers[l.w]);
        CountConcat(s.confirmed, Rows(b), p);
        CountRows(b, p);
        CountOfAbsent(b, p);
      }
      StepWorkers(s, l);
      PoisonIsNeverConfirmed(Next(s, l), labels[1..], p);
    }
  }

  /** An insert is all or nothing and is repeated until it succeeds.  So a record of which ClickHouse never
      confirms a row, for whatever reason, is not acknowledged either: all its copies stay in Redis. */
  lemma UnconfirmedStaysInRedis(s0: System, labels: seq<Label>, p: Payload)
    requires Initial(s0) && After(s0, labels).Some? && ClaimsAnswered(labels)
    requires Decodable(p) && NeverConfirmed(After(s0, labels).value, p)
    ensures var s := After(s0, labels).value;
      && Count(s.acked, p) == 0
      && Count(s.pushed, p) == Count(s.queue, p) + InflightCount(s.workers, p)
  {
    InitialInv(s0);
    ReachableInv(s0, labels);
    AnsweredRunsAreSeen(s0, labels);
    var s := After(s0, labels).value;
    assert Conserved(s, p) && Balanced(s, p);
  }

  /** With one worker, nothing that arrived at or after such a record is ever acknowledged. */
  lemma UnconfirmedStopsTheLine(s0: System, labels: seq<Label>, i: nat)
    requires Initial(s0) && |s0.workers| == 1 && After(s0, labels).Some? && ClaimsAnswered(labels)
    requires var s := After(s0, labels).value;
      i < |s.pushed| && Decodable(s.pushed[i]) && NeverConfirmed(s, s.pushed[i])
    ensures var s := After(s0, labels).value;
      |s.acked| <= i && s.acked == s.pushed[..|s.acked|]
  {
    var s := After(s0, labels).value;
    SingleWorkerIsFifo(s0, labels);
    SeqAssoc(s.acked, s.workers[0].inflight, s.queue);
    assert s.pushed[..|s.acked|] == s.acked;
    assert i < |s.acked| ==> s.pushed[i] in s.acked by {
      assert i < |s.acked| ==> s.acked[i] == s.pushed[i];
    }
    UnconfirmedStaysInRedis(s0, labels, s.pushed[i]);
    CountOfAbsent(s.acked, s.pushed[i]);
  }

  /** A record that decodes but has no timestamp is one of these, although undecodable payloads are skipped and
      counted: it stays in Redis for good. */
  lemma PoisonStaysInRedis(s0: System, labels: seq<Label>, p: Payload)
    requires Initial(s0) && After(s0, labels).Some? && ClaimsAnswered(labels) && Poison(p)
    ensures var s := After(s0, labels).value;
      && Count(s.acked, p) == 0 && Count(s.confirmed, p) == 0
      && Count(s.pushed, p) == Count(s.queue, p) + InflightCount(s.workers, p)
  {
    InitialInv(s0);
    PoisonIsNeverConfirmed(s0, labels, p);
    UnconfirmedStaysInRedis(s0, labels, p);
  }

  lemma PoisonStopsTheLine(s0: System, labels: seq<Label>, i: nat)
    requires Initial(s0) && |s0.workers| == 1 && After(s0, labels).Some? && ClaimsAnswered(labels)
    requires i < |After(s0, labels).value.pushed| && Poison(After(s0, labels).value.pushed[i])
    ensures var s := After(s0, labels).value;
      |s.acked| <= i && s.acked == s.pushed[..|s.acked|]
  {
    InitialInv(s0);
    PoisonIsNeverConfirmed(s0, labels, After(s0, labels).value.pushed[i]);
    UnconfirmedStopsTheLine(s0, labels, i);
  }

  // ----------------------------------------------------------------- two runs

  /** n workers that have never been started, and an empty queue. */
  function Fresh(n: nat): (s: System)
    ensures Initial(s) && |s.workers| == n
  {
    System([], seq(n, _ => IDLE_WORKER), [], [], [], [], [], [], [], [])
  }

  lemma ClaimOne(s: System, w: nat, a: Payload)
    requires Enabled(s, Claim(w, 1)) && s.queue != [] && s.queue[0] == a && Decodable(a) && !Poison(a)
    requires |s.workers[w].inflight| == |s.workers[w].unseen|
    ensures Claimed(s.queue, 1) == [a] && s.queue[|[a]|..] == s.queue[1..]
    ensures Next(s, Claim(w, 1)).workers ==
            s.workers[w := Worker(s.workers[w].inflight + [a], Holding([a]), s.workers[w].unseen)]
    ensures Rows([a]) == [a]
  {
    ClaimTakesPrefix(s.queue, 1);
    assert s.queue[..1] == [a];
    assert !HasPoison([a]);
  }

  lemma LostReplyBegins(a: Payload, b: Payload) returns (run: seq<Label>)
    ensures run == [Start(0), Push([a, b]), ClaimReplyLost(0, 1)]
    ensures After(Fresh(1), run).Some?
    ensures var s := After(Fresh(1), run).value;
      && s.queue == [b] && s.pushed == [a, b] && s.stored == []
      && s.workers == [Worker([a], Ready, [a])]
  {
    run := [];
    Extend(Fresh(1), run, Start(0));
    run := run + [Start(0)];
    Extend(Fresh(1), run, Push([a, b]));
    run := run + [Push([a, b])];
    var s2 := After(Fresh(1), run).value;
    assert s2.queue == [a, b] && s2.workers == [Worker([], Ready, [])];
    assert Claimed(s2.queue, 1) == [a] by {
      ClaimTakesPrefix(s2.queue, 1);
    }
    Extend(Fresh(1), run, ClaimReplyLost(0, 1));
    assert [] + [a] == [a];
    run := run + [ClaimReplyLost(0, 1)];
  }

  /** A claim that ran while its answer was lost: the worker claims again, and the next
      acknowledgement deletes a record that nobody inserted. */
  lemma LostReplyLosesARecord(a: Payload, b: Payload) returns (run: seq<Label>)
    requires Decodable(a) && Decodable(b) && !Poison(b) && a != b
    ensures run == [Start(0), Push([a, b]), ClaimReplyLost(0, 1), Claim(0, 1), InsertOk(0), Ack(0)]
    ensures After(Fresh(1), run).Some?
    ensures var s := After(Fresh(1), run).value;
      && Count(s.pushed, a) == 1
      && Count(s.queue, a) == 0 && InflightCount(s.workers, a) == 0 && Count(s.stored, a) == 0
  {
    run := LostReplyBegins(a, b);
    var s3 := After(Fresh(1), run).value;
    var rest := LostReplyEnds(s3, a, b);
    AfterConcat(Fresh(1), run, rest);
    run := run + rest;
    CountOfAbsent([b], a);
    assert Count([a, b], a) == 1 + Count([b], a) by {
      assert [a, b][1..] == [b];
    }
  }

  lemma LostReplyEnds(s: System, a: Payload, b: Payload) returns (run: seq<Label>)
    requires Decodable(b) && !Poison(b)
    requires s.queue == [b] && s.pushed == [a, b] && s.stored == [] && s.workers == [Worker([a], Ready, [a])]
    ensures run == [Claim(0, 1), InsertOk(0), Ack(0)]
    ensures After(s, run).Some?
    ensures var s' := After(s, run).value;
      && s'.queue == [] && s'.pushed == [a, b] && s'.stored == [b]
      && s'.workers == [Worker([], Ready, [])]
  {
    ClaimOne(s, 0, b);
    AfterOne(s, Claim(0, 1));
    run := [Claim(0, 1)];
    Extend(s, run, InsertOk(0));
    run := run + [InsertOk(0)];
    Extend(s, run, Ack(0));
    run := run + [Ack(0)];
  }

  lemma LiveRecoveryClaims(a: Payload) returns (run: seq<Label>)
    requires Decodable(a) && !Poison(a)
    ensures run == [Start(0), Push([a]), Claim(0, 1)]
    ensures After(Fresh(2), run).Some?
    ensures var s := After(Fresh(2), run).value;
      && s.queue == [] && s.pushed == [a] && s.stored == [] && s.strays == []
      && s.workers == [Worker([a], Holding([a]), []), IDLE_WORKER]
  {
    run := [];
    Extend(Fresh(2), run, Start(0));
    run := run + [Start(0)];
    Extend(Fresh(2), run, Push([a]));
    run := run + [Push([a])];
    var s2 := After(Fresh(2), run).value;
    assert s2.queue == [a] && s2.workers == [Worker([], Ready, []), IDLE_WORKER];
    ClaimOne(s2, 0, a);
    Extend(Fresh(2), run, Claim(0, 1));
    run := run + [Claim(0, 1)];
  }

  lemma LiveRecoveryTakes(s: System, a: Payload) returns (run: seq<Label>)
    requires s.queue == [] && s.pushed == [a] && s.stored == [] && s.strays == [] && Rows([a]) == [a]
    requires s.workers == [Worker([a], Holding([a]), []), IDLE_WORKER]
    ensures run == [Recover(0), InsertOk(0), Ack(0)]
    ensures After(s, run).Some?
    ensures var s' := After(s, run).value;
      && s'.queue == [a] && s'.pushed == [a] && s'.stored == [a] && s'.strays == []
      && s'.workers == [Worker([], Ready, []), IDLE_WORKER]
  {
    AfterOne(s, Recover(0));
    run := [Recover(0)];
    Extend(s, run, InsertOk(0));
    run := run + [InsertOk(0)];
    Extend(s, run, Ack(0));
    run := run + [Ack(0)];
  }

  /** Maintenance takes the list of a worker that is still at work: the worker's insert and
      acknowledgement succeed all the same, and the record is queued again. */
  lemma LiveRecoveryBegins(a: Payload) returns (run: seq<Label>)
    requires Decodable(a) && !Poison(a)
    ensures run == [Start(0), Push([a]), Claim(0, 1), Recover(0), InsertOk(0), Ack(0)]
    ensures After(Fresh(2), run).Some?
    ensures var s := After(Fresh(2), run).value;
      && s.queue == [a] && s.pushed == [a] && s.stored == [a] && s.strays == []
      && s.workers == [Worker([], Ready, []), IDLE_WORKER]
  {
    var claims := LiveRecoveryClaims(a);
    var takes := LiveRecoveryTakes(After(Fresh(2), claims).value, a);
    AfterConcat(Fresh(2), claims, takes);
    run := claims + takes;
  }

  /** Every insert and every acknowledgement succeeds, no process dies, no answer is lost, and a
      record is stored twice: the duplicates the design notes admit are not the only ones. */
  lemma LiveRecoveryStoresTwice(a: Payload) returns (run: seq<Label>)
    requires Decodable(a) && !Poison(a)
    ensures run == [Start(0), Push([a]), Claim(0, 1), Recover(0), InsertOk(0), Ack(0),
                    Start(1), Claim(1, 1), InsertOk(1), Ack(1)]
    ensures After(Fresh(2), run).Some?
    ensures var s := After(Fresh(2), run).value;
      s.pushed == [a] && s.stored == [a, a] && s.strays == []
  {
    run := LiveRecoveryBegins(a);
    Extend(Fresh(2), run, Start(1));
    run := run + [Start(1)];
    var s7 := After(Fresh(2), run).value;
    assert s7.queue == [a];
    ClaimOne(s7, 1, a);
    Extend(Fresh(2), run, Claim(1, 1));
    run := run + [Claim(1, 1)];
    Extend(Fresh(2), run, InsertOk(1));
    run := run + [InsertOk(1)];
    Extend(Fresh(2), run, Ack(1));
    run := run + [Ack(1)];
  }

  // ----------------------------------------------------------------- nothing is stuck

  predicate Quiet(s: System, k: nat) {
    k <= |s.workers| && forall i :: 0 <= i < k ==> s.workers[i] == IDLE_WORKER
  }

  /** Any worker can be taken out of service and its list given back. */
  lemma {:induction false} CanQuieten(s: System, k: nat) returns (labels: seq<Label>)
    requires Quiet(s, k)
    ensures After(s, labels).Some? && ClaimsAnswered(labels) && forall i :: 0 <= i < |labels| ==> !labels[i].Claim?
    ensures var s' := After(s, labels).value;
      Quiet(s', |s'.workers|) && |s'.workers| == |s.workers| && s'.pushed == s.pushed
    decreases |s.workers| - k
  {
    if k == |s.workers| {
      labels := [];
    } else {
      var first := if s.workers[k].phase.Off? then [Recover(k)] else [Crash(k), Recover(k)];
      if s.workers[k].phase.Off? {
        AfterOne(s, Recover(k));
      } else {
        AfterOne(Next(s, Crash(k)), Recover(k));
        assert first[1..] == [Recover(k)];
      }
      var s' := After(s, first).value;
      assert Quiet(s', k + 1);
      var rest := CanQuieten(s', k + 1);
      AfterConcat(s, first, rest);
      labels := first + rest;
    }
  }

  /** Every claim asks for the configured number of records. */
  predicate BatchesOf(labels: seq<Label>, n: int) {
    forall i :: 0 <= i < |labels| && labels[i].Claim? ==> labels[i].n == n
  }

  /** Worker 0 is running and alone in having anything. */
  predicate Alone(s: System) {
    && |s.workers| >= 1 && s.workers[0] == Worker([], Ready, [])
    && forall i :: 1 <= i < |s.workers| ==> s.workers[i] == IDLE_WORKER
  }

  lemma AloneHoldsNothing(s: System, p: Payload)
    requires Alone(s)
    ensures InflightCount(s.workers, p) == 0
  {
    SumsOfIdle(s.workers[1..], p);
  }

  /** One turn of that worker: it claims, inserts and acknowledges a batch. */
  lemma CanTakeBatch(s: System, n: int) returns (labels: seq<Label>)
    requires Alone(s) && n >= 1 && !HasPoison(s.queue) && s.queue != []
    ensures After(s, labels).Some? && ClaimsAnswered(labels) && BatchesOf(labels, n)
    ensures var s' := After(s, labels).value;
      Alone(s') && s'.queue == s.queue[Min(n, |s.queue|)..] && s'.pushed == s.pushed
  {
    ClaimTakesPrefix(s.queue, n);
    var b := s.queue[..Min(n, |s.queue|)];
    assert !HasPoison(b) by {
      assert forall i :: 0 <= i < |b| ==> b[i] == s.queue[i];
    }
    var s1 := Next(s, Claim(0, n));
    AfterOne(s, Claim(0, n));
    var ins := if Rows(b) == [] then [] else [InsertOk(0)];
    var s2 := if Rows(b) == [] then s1 else Next(s1, InsertOk(0));
    if Rows(b) != [] {
      AfterOne(s1, InsertOk(0));
    }
    AfterOne(s2, Ack(0));
    AfterConcat(s1, ins, [Ack(0)]);
    AfterConcat(s, [Claim(0, n)], ins + [Ack(0)]);
    labels := [Claim(0, n)] + (ins + [Ack(0)]);
  }

  /** It inserts everything that is queued, batch after batch. */
  lemma {:induction false} CanTakeAll(s: System, n: int) returns (labels: seq<Label>)
    requires Alone(s) && n >= 1 && !HasPoison(s.queue)
    ensures After(s, labels).Some? && ClaimsAnswered(labels) && BatchesOf(labels, n)
    ensures var s' := After(s, labels).value;
      Alone(s') && s'.queue == [] && s'.pushed == s.pushed
    decreases |s.queue|
  {
    if s.queue == [] {
      labels := [];
    } else {
      var first := CanTakeBatch(s, n);
      var s1 := After(s, first).value;
      assert !HasPoison(s1.queue) by {
        assert forall i :: 0 <= i < |s1.queue| ==> s1.queue[i] == s.queue[i + Min(n, |s.queue|)];
      }
      var rest := CanTakeAll(s1, n);
      AfterConcat(s, first, rest);
      labels := first + rest;
    }
  }

  /** One worker alone inserts everything that is queued, in batches of the configured size. */
  lemma CanInsertAll(s: System, n: int) returns (labels: seq<Label>)
    requires |s.workers| >= 1 && n >= 1 && Quiet(s, |s.workers|) && !HasPoison(s.queue)
    ensures After(s, labels).Some? && ClaimsAnswered(labels) && BatchesOf(labels, n)
    ensures var s' := After(s, labels).value;
      s'.queue == [] && s'.pushed == s.pushed && forall p :: InflightCount(s'.workers, p) == 0
  {
    var s1 := Next(s, Start(0));
    assert [] + s.queue == s.queue;
    AfterOne(s, Start(0));
    var rest := CanTakeAll(s1, n);
    AfterConcat(s, [Start(0)], rest);
    labels := [Start(0)] + rest;
    forall p ensures InflightCount(After(s, labels).value.workers, p) == 0 {
      AloneHoldsNothing(After(s, labels).value, p);
    }
  }

  /** The accounts of one state. */
  lemma NothingMissing(s: System, p: Payload)
    requires Inv(s) && NothingUnseen(s) && Decodable(p)
    ensures Count(s.pushed, p) <= Count(s.queue, p) + InflightCount(s.workers, p) + Count(s.stored, p)
  {
    assert Conserved(s, p) && Balanced(s, p);
  }

  /** From a state that satisfies the invariant there is a way on in which every decodable record
      ends up stored, as long as no record is one that stops a worker. */
  lemma CanDrain(s: System, n: int) returns (more: seq<Label>)
    requires Inv(s) && NothingUnseen(s) && |s.workers| >= 1 && n >= 1 && !HasPoison(s.pushed)
    ensures After(s, more).Some? && ClaimsAnswered(more) && BatchesOf(more, n)
    ensures var s' := After(s, more).value;
      && s'.pushed == s.pushed && s'.queue == []
      && forall p :: InflightCount(s'.workers, p) == 0 && (Decodable(p) ==> Count(s.pushed, p) <= Count(s'.stored, p))
  {
    var quieten := CanQuieten(s, 0);
    var q := After(s, quieten).value;
    RunInv(s, quieten);
    forall i | 0 <= i < |q.queue| ensures !Poison(q.queue[i]) {
      var p := q.queue[i];
      assert Conserved(q, p);
      CountOfAbsent(q.queue, p);
      CountOfAbsent(q.pushed, p);
    }
    var insert := CanInsertAll(q, n);
    AfterConcat(s, quieten, insert);
    more := quieten + insert;
    RunInv(s, more);
    AnsweredRunsAreSeen(s, more);
    forall p | Decodable(p) ensures Count(s.pushed, p) <= Count(After(s, more).value.stored, p) {
      NothingMissing(After(s, more).value, p);
    }
  }

  /** So no run, whatever went wrong in it, ever leaves a record where it cannot be stored any more. */
  lemma CanAlwaysDrain(s0: System, labels: seq<Label>, n: int) returns (more: seq<Label>)
    requires Initial(s0) && |s0.workers| >= 1 && n >= 1 && ClaimsAnswered(labels) && After(s0, labels).Some?
    requires !HasPoison(After(s0, labels).value.pushed)
    ensures After(s0, labels + more).Some? && BatchesOf(more, n)
    ensures var s, s' := After(s0, labels).value, After(s0, labels + more).value;
      && s'.pushed == s.pushed && s'.queue == []
      && forall p :: InflightCount(s'.workers, p) == 0 && (Decodable(p) ==> Count(s.pushed, p) <= Count(s'.stored, p))
  {
    SameWorkers(s0, labels);
    ReachableInv(s0, labels);
    AnsweredRunsAreSeen(s0, labels);
    more := CanDrain(After(s0, labels).value, n);
    AfterConcat(s0, labels, more);
  }
}
