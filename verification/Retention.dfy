/** Archiving over whole histories: which rows survive any sequence of inserts, attempts stopped
    anywhere, and prunings, and which do not (backend/app/services/maintenance.py). */
module Retention {
  import opened Wrappers
  import opened Wire
  import opened ArchiveFiles
  import opened Archive
  import Months

  // ----------------------------------------------------------------- attempts are appended

  /** An attempt adds one row to archive_runs and leaves the others alone. */
  lemma AttemptAppends(table: string, s: Store, p: string, chunks: seq<seq<Row>>, drop: bool, t: Trouble)
    ensures var s' := Attempted(table, s, p, chunks, drop, t).0;
            |s'.attempts| == |s.attempts| + 1 && s'.attempts[..|s.attempts|] == s.attempts &&
            s'.attempts[|s.attempts|].partition == p
  {
  }

  lemma DoneGrows(table: string, s: Store, p: string, chunks: seq<seq<Row>>, drop: bool, t: Trouble)
    ensures Done(s.attempts) <= Done(Attempted(table, s, p, chunks, drop, t).0.attempts)
  {
    AttemptAppends(table, s, p, chunks, drop, t);
    var s' := Attempted(table, s, p, chunks, drop, t).0;
    forall q | q in Done(s.attempts) ensures q in Done(s'.attempts) {
      var i :| 0 <= i < |s.attempts| && s.attempts[i] == Attempt(q, Succeeded);
      assert s'.attempts[..|s.attempts|][i] == s'.attempts[i];
    }
  }

  lemma FineIsDone(table: string, s: Store, p: string, chunks: seq<seq<Row>>, drop: bool)
    ensures RowsOf(s, p) != [] ==> p in Done(Attempted(table, s, p, chunks, drop, Fine).0.attempts)
    ensures Attempted(table, s, p, chunks, drop, Fine).1 in {Archived, Empty}
  {
    AttemptAppends(table, s, p, chunks, drop, Fine);
    var s' := Attempted(table, s, p, chunks, drop, Fine).0;
    if RowsOf(s, p) != [] {
      assert s'.attempts[|s.attempts|] == Attempt(p, Succeeded);
    }
  }

  // ----------------------------------------------------------------- a repeat run finds nothing

  predicate AllFine(plans: seq<Plan>) {
    forall i :: 0 <= i < |plans| ==> plans[i].trouble == Fine
  }

  lemma {:induction false} ClosedAre(listed: seq<string>, current: string, done: set<string>, p: string)
    ensures p in Closed(listed, current, done) <==> p in listed && Months.Less(p, current) && p !in done
  {
    if listed != [] {
      ClosedAre(listed[1..], current, done, p);
      assert p in listed <==> p == listed[0] || p in listed[1..];
    }
  }

  /** How a run without trouble that started from s0 has left month p. */
  predicate RanFine(s0: Store, o: Outcome, seen: seq<string>, p: string) {
    && o.alive && o.failures == 0
    && Done(s0.attempts) <= Done(o.store.attempts)
    && (p in seen ==> p in Done(o.store.attempts) || RowsOf(s0, p) == [])
    && (p in o.store.table ==> p in s0.table)
    && (RowsOf(o.store, p) == RowsOf(s0, p) || p in Done(o.store.attempts))
    && (RowsOf(s0, p) == [] ==> RowsOf(o.store, p) == [])
  }

  lemma FineAttempt(table: string, s0: Store, o: Outcome, seen: seq<string>, q: string, chunks: seq<seq<Row>>,
                    drop: bool, p: string)
    requires RanFine(s0, o, seen, p)
    ensures var (s', end) := Attempted(table, o.store, q, chunks, drop, Fine);
            end !in {Erred, Dead} && RanFine(s0, Outcome(s', 0, true), seen + [q], p)
  {
    DoneGrows(table, o.store, q, chunks, drop, Fine);
    FineIsDone(table, o.store, q, chunks, drop);
    if p != q {
      OthersUntouched(table, o.store, q, chunks, drop, Fine, p);
    }
    FineTable(table, o.store, q, chunks, drop, p);
  }

  lemma FineTable(table: string, s: Store, q: string, chunks: seq<seq<Row>>, drop: bool, p: string)
    ensures var s' := Attempted(table, s, q, chunks, drop, Fine).0;
            (p in s'.table ==> p in s.table) && (RowsOf(s, p) == [] ==> RowsOf(s', p) == [])
  {
  }

  /** After a run without trouble, each of its months was empty or is on record. */
  lemma {:induction false} FineRun(table: string, s: Store, closed: seq<string>, plans: seq<Plan>, drop: bool, p: string)
    requires |plans| == |closed| && AllFine(plans)
    ensures RanFine(s, Results(table, s, closed, plans, drop), closed, p)
  {
    if closed != [] {
      var last := |closed| - 1;
      FineRun(table, s, closed[..last], plans[..last], drop, p);
      var before := Results(table, s, closed[..last], plans[..last], drop);
      assert plans[last].trouble == Fine;
      FineAttempt(table, s, before, closed[..last], closed[last], plans[last].chunks, drop, p);
      assert closed == closed[..last] + [closed[last]];
    }
  }

  /** Running maintenance again in the same month, once a run had no trouble, archives nothing:
      the only months it looks at again are partitions without rows. */
  lemma RepeatRunFindsNothing(table: string, s: Store, listed: seq<string>, current: string, plans: seq<Plan>,
                              drop: bool, again: seq<string>, p: string)
    requires forall q :: q in listed <==> q in s.table
    requires |plans| == |Closed(listed, current, Done(s.attempts))| && AllFine(plans)
    requires var s' := Results(table, s, Closed(listed, current, Done(s.attempts)), plans, drop).store;
             forall q :: q in again <==> q in s'.table
    ensures var s' := Results(table, s, Closed(listed, current, Done(s.attempts)), plans, drop).store;
            p in Closed(again, current, Done(s'.attempts)) ==> RowsOf(s', p) == []
  {
    var closed := Closed(listed, current, Done(s.attempts));
    var s' := Results(table, s, closed, plans, drop).store;
    FineRun(table, s, closed, plans, drop, p);
    ClosedAre(listed, current, Done(s.attempts), p);
    ClosedAre(again, current, Done(s'.attempts), p);
  }

  lemma DoneOfAttempt(table: string, s: Store, p: string, chunks: seq<seq<Row>>, drop: bool, t: Trouble, q: string)
    ensures var s' := Attempted(table, s, p, chunks, drop, t).0;
            q in Done(s'.attempts) <==>
            q in Done(s.attempts) || (q == p && s'.attempts[|s.attempts|].status == Succeeded)
  {
    AttemptAppends(table, s, p, chunks, drop, t);
    var s' := Attempted(table, s, p, chunks, drop, t).0;
    DoneSnoc(s.attempts, s'.attempts[|s.attempts|], q);
    assert s'.attempts == s.attempts + [s'.attempts[|s.attempts|]];
  }

  lemma DoneSnoc(attempts: seq<Attempt>, a: Attempt, q: string)
    ensures q in Done(attempts + [a]) <==> q in Done(attempts) || (a.partition == q && a.status == Succeeded)
  {
    var all := attempts + [a];
    if q in Done(attempts) {
      var b :| b in attempts && b.status == Succeeded && b.partition == q;
      assert b in all;
    }
    if a.partition == q && a.status == Succeeded {
      assert a in all;
    }
  }

  /** An attempt that raised is made again by the next run exactly if ClickHouse still has the partition;
      it does not when the drop took effect and was reported as an error. */
  lemma ErredIsRetriedIff(table: string, s: Store, p: string, chunks: seq<seq<Row>>, drop: bool, t: Trouble,
                          listed: seq<string>, current: string)
    requires p in s.table && p !in Done(s.attempts) && Months.Less(p, current)
    requires Attempted(table, s, p, chunks, drop, t).1 == Erred
    requires forall q :: q in listed <==> q in Attempted(table, s, p, chunks, drop, t).0.table
    ensures p in Closed(listed, current, Done(Attempted(table, s, p, chunks, drop, t).0.attempts)) <==>
            !(drop && t == Raised(Dropping(true)) && RowsOf(s, p) != [])
  {
    ErredLeaves(table, s, p, chunks, drop, t);
    DoneOfAttempt(table, s, p, chunks, drop, t, p);
    ClosedAre(listed, current, Done(Attempted(table, s, p, chunks, drop, t).0.attempts), p);
  }

  lemma ErredLeaves(table: string, s: Store, p: string, chunks: seq<seq<Row>>, drop: bool, t: Trouble)
    requires p in s.table && Attempted(table, s, p, chunks, drop, t).1 == Erred
    ensures var s' := Attempted(table, s, p, chunks, drop, t).0;
            && s'.attempts == s.attempts + [Attempt(p, Failed)]
            && (p in s'.table <==> !(drop && t == Raised(Dropping(true)) && RowsOf(s, p) != []))
  {
  }

  // ----------------------------------------------------------------- histories

  /** How far the attempt under way is.  `rows` are what the stream's snapshot had. */
  datatype Stage =
    | Resting
    | Opened(p: string)
    | Streamed(p: string, rows: seq<Row>)
    | Published(p: string, rows: seq<Row>)
    | Recorded(p: string, rows: seq<Row>)

  /** written   (history) every row ever inserted, by month
      dropped   (history) the rows that DROP PARTITION took away, by month
      pruned    (history) the file names that prune_archives deleted */
  datatype World = World(store: Store, stage: Stage, written: map<string, seq<Row>>, dropped: map<string, seq<Row>>,
                         pruned: set<string>)

  /** The steps of an attempt, with inserts anywhere between them.  Kill(partial) cuts the stream off after
      some chunks; DropRaises is a drop that took effect and was reported as an error. */
  datatype Event =
    | Insert(p: string, rows: seq<Row>)
    | Prune(listed: seq<string>, cutoff: string)
    | Open(p: string, current: string)
    | Skip
    | Stream(chunks: seq<seq<Row>>)
    | Publish
    | Record
    | Rest
    | Drop
    | DropRaises
    | Raise
    | Kill(partial: Option<seq<seq<Row>>>)

  /** Attempts are one after the other, at closed months that have no success on record; inserts may come
      at any time, into any month. */
  predicate Possible(w: World, e: Event) {
    match e
    case Insert(_, _) => true
    case Prune(_, _) => true
    case Open(p, current) => w.stage.Resting? && Months.Less(p, current) && p !in Done(w.store.attempts)
    case Skip => w.stage.Opened? && RowsOf(w.store, w.stage.p) == [] && w.store.attempts != []
    case Stream(chunks) =>
      w.stage.Opened? && RowsOf(w.store, w.stage.p) != [] && Join(chunks) == RowsOf(w.store, w.stage.p)
    case Publish => w.stage.Streamed?
    case Record => w.stage.Published? && w.store.attempts != []
    case Rest => w.stage.Recorded?
    case Drop => w.stage.Recorded?
    case DropRaises => w.stage.Recorded? && w.store.attempts != []
    case Raise => !w.stage.Resting? && w.store.attempts != []
    case Kill(partial) => !w.stage.Resting? && (partial.Some? ==> w.stage.Opened?)
  }

  function WrittenOf(w: World, p: string): seq<Row> {
    if p in w.written then w.written[p] else []
  }

  function DroppedOf(w: World, p: string): seq<Row> {
    if p in w.dropped then w.dropped[p] else []
  }

  function Inserted(w: World, p: string, rows: seq<Row>): World {
    w.(store := w.store.(table := w.store.table[p := RowsOf(w.store, p) + rows]),
       written := w.written[p := WrittenOf(w, p) + rows])
  }

  function AfterPrune(table: string, w: World, listed: seq<string>, cutoff: string): World {
    w.(store := Pruned(w.store, table, listed, cutoff),
       pruned := w.pruned + set name | name in listed && Doomed(table, cutoff, name))
  }

  function AfterDrop(w: World): World
    requires w.stage.Recorded?
  {
    var p := w.stage.p;
    w.(store := Dropped(w.store, p), stage := Resting, dropped := w.dropped[p := DroppedOf(w, p) + RowsOf(w.store, p)])
  }

  function Next(table: string, w: World, e: Event): World
    requires Possible(w, e)
  {
    match e
    case Insert(p, rows) => Inserted(w, p, rows)
    case Prune(listed, cutoff) => AfterPrune(table, w, listed, cutoff)
    case Open(p, _) => w.(store := Begun(w.store, p), stage := Opened(p))
    case Skip => w.(store := Finish(w.store, Skipped), stage := Resting)
    case Stream(chunks) =>
      w.(store := Written(w.store, table, w.stage.p, Join(chunks)), stage := Streamed(w.stage.p, Join(chunks)))
    case Publish =>
      w.(store := Replaced(w.store, table, w.stage.p, w.stage.rows), stage := Published(w.stage.p, w.stage.rows))
    case Record => w.(store := Finish(w.store, Succeeded), stage := Recorded(w.stage.p, w.stage.rows))
    case Rest => w.(stage := Resting)
    case Drop => AfterDrop(w)
    case DropRaises => AfterDrop(w).(store := Handled(Dropped(w.store, w.stage.p), table, w.stage.p))
    case Raise => w.(store := Handled(w.store, table, w.stage.p), stage := Resting)
    case Kill(partial) =>
      w.(store := if partial.Some? then Written(w.store, table, w.stage.p, Join(partial.value)) else w.store,
         stage := Resting)
  }

  function History(table: string, w: World, events: seq<Event>): Option<World>
    decreases events
  {
    if events == [] then Some(w)
    else if Possible(w, events[0]) then History(table, Next(table, w, events[0]), events[1..])
    else None
  }

  function Initial(s: Store): World {
    World(s, Resting, s.table, map[], {})
  }

  // ----------------------------------------------------------------- what an attempt under way knows

  /** The month that an attempt has a snapshot of. */
  predicate Holds(stage: Stage, p: string) {
    (stage.Streamed? || stage.Published? || stage.Recorded?) && stage.p == p
  }

  predicate RunsLast(attempts: seq<Attempt>, p: string, status: Status) {
    attempts != [] && attempts[|attempts| - 1] == Attempt(p, status) && p !in Done(attempts[..|attempts| - 1])
  }

  /** The snapshot is not empty and the table has grown since; once published, the file is the snapshot. */
  predicate StageInv(table: string, w: World) {
    match w.stage
    case Resting => true
    case Opened(p) => RunsLast(w.store.attempts, p, Running)
    case Streamed(p, rows) => RunsLast(w.store.attempts, p, Running) && rows != [] && rows <= RowsOf(w.store, p)
    case Published(p, rows) =>
      RunsLast(w.store.attempts, p, Running) && rows != [] && rows <= RowsOf(w.store, p) && Backs(table, w, p, rows)
    case Recorded(p, rows) =>
      RunsLast(w.store.attempts, p, Succeeded) && rows != [] && rows <= RowsOf(w.store, p) && Backs(table, w, p, rows)
  }

  predicate Backs(table: string, w: World, p: string, rows: seq<Row>) {
    Target(table, p) in w.pruned || FileOf(table, w.store, p) == Some(rows)
  }

  /** Every row of a month is in the table or was dropped from it. */
  predicate Ledger(w: World, p: string) {
    WrittenOf(w, p) == DroppedOf(w, p) + RowsOf(w.store, p)
  }

  lemma LedgerStep(table: string, w: World, e: Event, p: string)
    requires Possible(w, e) && Ledger(w, p)
    ensures Ledger(Next(table, w, e), p)
  {
    if e.Insert? && e.p == p {
      SeqAssoc(DroppedOf(w, p), RowsOf(w.store, p), e.rows);
    } else if (e.Drop? || e.DropRaises?) && w.stage.p == p {
      assert WrittenOf(w, p) + [] == WrittenOf(w, p);
    }
  }

  lemma FilesStand(table: string, w: World, rows: seq<Row>, p: string, q: string)
    ensures FileOf(table, Written(w.store, table, p, rows), q) == FileOf(table, w.store, q)
    ensures p != q ==> FileOf(table, Replaced(w.store, table, p, rows), q) == FileOf(table, w.store, q)
    ensures FileOf(table, Replaced(w.store, table, p, rows), p) == Some(rows)
    ensures w.store.attempts != [] ==> FileOf(table, Handled(w.store, table, p), q) == FileOf(table, w.store, q)
  {
    TargetsDiffer(table, q, p);
    TargetsDiffer(table, p, q);
    TargetsDiffer(table, p, p);
  }

  lemma PruneBacks(table: string, w: World, listed: seq<string>, cutoff: string, p: string, rows: seq<Row>)
    requires Backs(table, w, p, rows)
    ensures Backs(table, AfterPrune(table, w, listed, cutoff), p, rows)
  {
    var w' := AfterPrune(table, w, listed, cutoff);
    if Target(table, p) in listed && Doomed(table, cutoff, Target(table, p)) {
      assert Target(table, p) in w'.pruned;
    }
  }

  lemma StageInvStep(table: string, w: World, e: Event)
    requires Possible(w, e) && StageInv(table, w)
    ensures StageInv(table, Next(table, w, e))
  {
    match e
    case Insert(p, rows) =>
    case Prune(listed, cutoff) =>
      if w.stage.Published? || w.stage.Recorded? {
        PruneBacks(table, w, listed, cutoff, w.stage.p, w.stage.rows);
      }
    case Open(p, _) => assert (w.store.attempts + [Attempt(p, Running)])[..|w.store.attempts|] == w.store.attempts;
    case Stream(chunks) =>
    case Publish => FilesStand(table, w, w.stage.rows, w.stage.p, w.stage.p);
    case Record =>
      assert Finish(w.store, Succeeded).attempts[..|w.store.attempts| - 1] == w.store.attempts[..|w.store.attempts| - 1];
    case Skip =>
    case Rest =>
    case Drop =>
    case DropRaises =>
    case Raise =>
    case Kill(_) =>
  }

  // ----------------------------------------------------------------- when rows are lost

  function Copies(rows: seq<Row>, r: Row): nat {
    multiset(rows)[r]
  }

  function FileRows(table: string, s: Store, p: string): seq<Row> {
    var file := FileOf(table, s, p);
    if file.Some? then file.value else []
  }

  /** Row r is in ClickHouse or in the month's file as often as it was ever written to the month, until the file
      is pruned. */
  predicate Covered(table: string, w: World, p: string, r: Row) {
    || Target(table, p) in w.pruned
    || Copies(WrittenOf(w, p), r) <= Copies(RowsOf(w.store, p), r) + Copies(FileRows(table, w.store, p), r)
  }

  /** The two steps that lose copies of r: to replace the file by a snapshot that, with what ClickHouse has, is
      too little, and to drop copies of which the file has too few. */
  predicate Loses(table: string, w: World, e: Event, p: string, r: Row)
    requires Possible(w, e)
  {
    Target(table, p) !in w.pruned &&
    match e
    case Publish =>
      w.stage.p == p && Copies(WrittenOf(w, p), r) > Copies(RowsOf(w.store, p), r) + Copies(w.stage.rows, r)
    case Drop => w.stage.p == p && Copies(WrittenOf(w, p), r) > Copies(FileRows(table, w.store, p), r)
    case DropRaises => w.stage.p == p && Copies(WrittenOf(w, p), r) > Copies(FileRows(table, w.store, p), r)
    case _ => false
  }

  lemma PruneCovers(table: string, w: World, listed: seq<string>, cutoff: string, p: string, r: Row)
    requires Covered(table, w, p, r)
    ensures Covered(table, AfterPrune(table, w, listed, cutoff), p, r)
  {
    var w' := AfterPrune(table, w, listed, cutoff);
    if Target(table, p) in listed && Doomed(table, cutoff, Target(table, p)) {
      assert Target(table, p) in w'.pruned;
    } else {
      assert FileOf(table, w'.store, p) == FileOf(table, w.store, p);
    }
  }

  lemma DropCoversIff(table: string, w: World, p: string, r: Row)
    requires w.stage.Recorded? && Covered(table, w, p, r)
    ensures Covered(table, AfterDrop(w), p, r) <==> !Loses(table, w, Drop, p, r)
  {
    assert FileRows(table, AfterDrop(w).store, p) == FileRows(table, w.store, p);
  }

  lemma InsertCovers(table: string, w: World, q: string, rows: seq<Row>, p: string, r: Row)
    requires Covered(table, w, p, r)
    ensures Covered(table, Inserted(w, q, rows), p, r)
  {
    assert FileRows(table, Inserted(w, q, rows).store, p) == FileRows(table, w.store, p);
  }

  /** A step that does not lose copies of r keeps it covered, and one that does, does not. */
  lemma StepCoversIff(table: string, w: World, e: Event, p: string, r: Row)
    requires Possible(w, e) && Covered(table, w, p, r)
    ensures Covered(table, Next(table, w, e), p, r) <==> !Loses(table, w, e, p, r)
  {
    match e
    case Insert(q, rows) => InsertCovers(table, w, q, rows, p, r);
    case Prune(listed, cutoff) => PruneCovers(table, w, listed, cutoff, p, r);
    case Stream(chunks) => FilesStand(table, w, Join(chunks), w.stage.p, p);
    case Publish => FilesStand(table, w, w.stage.rows, w.stage.p, p);
    case Drop => DropCoversIff(table, w, p, r);
    case DropRaises =>
      DropCoversIff(table, w, p, r);
      FilesStand(table, AfterDrop(w), [], w.stage.p, p);
    case Raise => FilesStand(table, w, [], w.stage.p, p);
    case Kill(partial) =>
      if partial.Some? {
        FilesStand(table, w, Join(partial.value), w.stage.p, p);
      }
    case Open(_, _) =>
    case Skip =>
    case Record =>
    case Rest =>
  }

  predicate NeverLoses(table: string, w: World, events: seq<Event>, p: string, r: Row)
    requires History(table, w, events).Some?
    decreases events
  {
    events == [] ||
    (!Loses(table, w, events[0], p, r) && NeverLoses(table, Next(table, w, events[0]), events[1..], p, r))
  }

  predicate AlwaysCovered(table: string, w: World, events: seq<Event>, p: string, r: Row)
    requires History(table, w, events).Some?
    decreases events
  {
    Covered(table, w, p, r) && (events == [] || AlwaysCovered(table, Next(table, w, events[0]), events[1..], p, r))
  }

  lemma {:induction false} CoveredIff(table: string, w: World, events: seq<Event>, p: string, r: Row)
    requires History(table, w, events).Some? && Covered(table, w, p, r)
    ensures AlwaysCovered(table, w, events, p, r) <==> NeverLoses(table, w, events, p, r)
    decreases events
  {
    if events != [] {
      StepCoversIff(table, w, events[0], p, r);
      if Covered(table, Next(table, w, events[0]), p, r) {
        CoveredIff(table, Next(table, w, events[0]), events[1..], p, r);
      }
    }
  }

  /** In any history whatever, each row ever written to a month is at all times in ClickHouse or in the month's
      file, as often as it was written, until the file is pruned, if and only if no step publishes a snapshot
      that leaves too few copies of it, and no drop takes copies that the file does not cover. */
  lemma ArchiveSafetyIff(table: string, s: Store, events: seq<Event>, p: string, r: Row)
    requires History(table, Initial(s), events).Some?
    ensures AlwaysCovered(table, Initial(s), events, p, r) <==> NeverLoses(table, Initial(s), events, p, r)
  {
    CoveredIff(table, Initial(s), events, p, r);
  }

  // ----------------------------------------------------------------- when the file is what was dropped

  /** What was dropped of a month is its file, until that is pruned: so all rows ever written to it are in
      ClickHouse or in the file, in their order. */
  predicate Kept(table: string, w: World, p: string) {
    DroppedOf(w, p) == [] || Backs(table, w, p, DroppedOf(w, p))
  }

  /** The two steps that part the file from what was dropped: to replace the file of a month of which rows were
      dropped before, by others, and to drop more than the snapshot had. */
  predicate Parts(table: string, w: World, e: Event, p: string)
    requires Possible(w, e)
  {
    Target(table, p) !in w.pruned &&
    match e
    case Publish => w.stage.p == p && DroppedOf(w, p) !in [[], w.stage.rows]
    case Drop => w.stage.p == p && DroppedOf(w, p) + RowsOf(w.store, p) != w.stage.rows
    case DropRaises => w.stage.p == p && DroppedOf(w, p) + RowsOf(w.store, p) != w.stage.rows
    case _ => false
  }

  /** Only those two do. */
  lemma StepKeepsIff(table: string, w: World, e: Event, p: string)
    requires Possible(w, e) && StageInv(table, w) && Kept(table, w, p)
    ensures Kept(table, Next(table, w, e), p) <==> !Parts(table, w, e, p)
  {
    match e
    case Prune(listed, cutoff) =>
      if DroppedOf(w, p) != [] {
        PruneBacks(table, w, listed, cutoff, p, DroppedOf(w, p));
      }
    case Stream(chunks) => FilesStand(table, w, Join(chunks), w.stage.p, p);
    case Publish => FilesStand(table, w, w.stage.rows, w.stage.p, p);
    case Drop => DropKeepsIff(table, w, p);
    case DropRaises =>
      DropKeepsIff(table, w, p);
      FilesStand(table, AfterDrop(w), [], w.stage.p, p);
    case Raise => FilesStand(table, w, [], w.stage.p, p);
    case Kill(partial) =>
      if partial.Some? {
        FilesStand(table, w, Join(partial.value), w.stage.p, p);
      }
    case Insert(_, _) =>
    case Open(_, _) =>
    case Skip =>
    case Record =>
    case Rest =>
  }

  lemma DropKeepsIff(table: string, w: World, p: string)
    requires w.stage.Recorded? && StageInv(table, w) && Kept(table, w, p)
    ensures Kept(table, AfterDrop(w), p) <==> !Parts(table, w, Drop, p)
  {
    if p == w.stage.p {
      assert RowsOf(w.store, p) != [] by { assert |RowsOf(w.store, p)| >= |w.stage.rows|; }
    }
  }

  predicate NeverParts(table: string, w: World, events: seq<Event>, p: string)
    requires History(table, w, events).Some?
    decreases events
  {
    events == [] ||
    (!Parts(table, w, events[0], p) && NeverParts(table, Next(table, w, events[0]), events[1..], p))
  }

  predicate AlwaysKept(table: string, w: World, events: seq<Event>, p: string)
    requires History(table, w, events).Some?
    decreases events
  {
    Kept(table, w, p) && (events == [] || AlwaysKept(table, Next(table, w, events[0]), events[1..], p))
  }

  lemma {:induction false} KeptIff(table: string, w: World, events: seq<Event>, p: string)
    requires History(table, w, events).Some? && StageInv(table, w) && Kept(table, w, p)
    ensures AlwaysKept(table, w, events, p) <==> NeverParts(table, w, events, p)
    decreases events
  {
    if events != [] {
      StepKeepsIff(table, w, events[0], p);
      StageInvStep(table, w, events[0]);
      if Kept(table, Next(table, w, events[0]), p) {
        KeptIff(table, Next(table, w, events[0]), events[1..], p);
      }
    }
  }

  // ----------------------------------------------------------------- inserts that are in time

  /** No insert into a month whose partition was dropped, nor into one of which an attempt has its snapshot.
      Rows that come late but before the export, or after an attempt that failed, are in time. */
  predicate InTime(w: World, e: Event) {
    e.Insert? ==> DroppedOf(w, e.p) == [] && !Holds(w.stage, e.p)
  }

  predicate AllInTime(table: string, w: World, events: seq<Event>)
    requires History(table, w, events).Some?
    decreases events
  {
    events == [] || (InTime(w, events[0]) && AllInTime(table, Next(table, w, events[0]), events[1..]))
  }

  /** Then a dropped month stays empty, and a snapshot stays complete. */
  predicate Orderly(w: World, p: string) {
    && (DroppedOf(w, p) != [] ==> RowsOf(w.store, p) == [])
    && (Holds(w.stage, p) ==> w.stage.rows == RowsOf(w.store, p))
  }

  lemma OrderlyStep(table: string, w: World, e: Event, p: string)
    requires Possible(w, e) && StageInv(table, w) && InTime(w, e) && Orderly(w, p)
    ensures Orderly(Next(table, w, e), p) && !Parts(table, w, e, p)
  {
  }

  lemma {:induction false} OrderlyHistory(table: string, w: World, events: seq<Event>, p: string)
    requires History(table, w, events).Some? && AllInTime(table, w, events)
    requires StageInv(table, w) && Orderly(w, p) && Ledger(w, p)
    ensures NeverParts(table, w, events, p)
    ensures var w' := History(table, w, events).value; StageInv(table, w') && Orderly(w', p) && Ledger(w', p)
    decreases events
  {
    if events != [] {
      OrderlyStep(table, w, events[0], p);
      StageInvStep(table, w, events[0]);
      LedgerStep(table, w, events[0], p);
      OrderlyHistory(table, Next(table, w, events[0]), events[1..], p);
    }
  }

  lemma {:induction false} KeptAtEnd(table: string, w: World, events: seq<Event>, p: string)
    requires History(table, w, events).Some? && AlwaysKept(table, w, events, p)
    ensures Kept(table, History(table, w, events).value, p)
    decreases events
  {
    if events != [] {
      KeptAtEnd(table, Next(table, w, events[0]), events[1..], p);
    }
  }

  /** With inserts in time, whatever is tried and wherever each attempt is stopped: all rows ever written to a
      month are in ClickHouse, or all are in its file, until that is pruned. */
  lemma ArchiveSafety(table: string, s: Store, events: seq<Event>, p: string)
    requires History(table, Initial(s), events).Some? && AllInTime(table, Initial(s), events)
    ensures var w := History(table, Initial(s), events).value;
            || RowsOf(w.store, p) == WrittenOf(w, p)
            || FileOf(table, w.store, p) == Some(WrittenOf(w, p))
            || Target(table, p) in w.pruned
  {
    assert [] + RowsOf(s, p) == RowsOf(s, p);
    OrderlyHistory(table, Initial(s), events, p);
    KeptIff(table, Initial(s), events, p);
    KeptAtEnd(table, Initial(s), events, p);
    var w := History(table, Initial(s), events).value;
    assert [] + RowsOf(w.store, p) == RowsOf(w.store, p) && DroppedOf(w, p) + [] == DroppedOf(w, p);
  }

  // ----------------------------------------------------------------- what a recorded success is worth

  /** A month on record has a file, until it is pruned, that holds everything that was dropped of the month
      and is the beginning of everything that was ever written to it. */
  predicate Safe(table: string, w: World, p: string) {
    p in Done(w.store.attempts) ==>
      || Target(table, p) in w.pruned
      || (var file := FileOf(table, w.store, p); file.Some? && DroppedOf(w, p) <= file.value <= WrittenOf(w, p))
  }

  lemma DoneOfFinish(s: Store, p: string, running: Status, status: Status, q: string)
    requires RunsLast(s.attempts, p, running)
    ensures q in Done(Finish(s, status).attempts) <==>
            if q == p then status == Succeeded else q in Done(s.attempts)
    ensures running != Succeeded ==> p !in Done(s.attempts)
  {
    var last := |s.attempts| - 1;
    var before := s.attempts[..last];
    assert s.attempts == before + [Attempt(p, running)];
    assert Finish(s, status).attempts == before + [Attempt(p, status)];
    DoneSnoc(before, Attempt(p, running), q);
    DoneSnoc(before, Attempt(p, status), q);
    DoneSnoc(before, Attempt(p, running), p);
  }

  lemma RecordIsSafe(table: string, w: World, q: string)
    requires w.stage.Published? && StageInv(table, w) && Kept(table, w, q) && Ledger(w, q) && Safe(table, w, q)
    ensures Safe(table, Next(table, w, Record), q)
  {
    var p, rows := w.stage.p, w.stage.rows;
    DoneOfFinish(w.store, p, Running, Succeeded, q);
    if q == p && DroppedOf(w, p) == [] {
      assert [] + RowsOf(w.store, p) == RowsOf(w.store, p);
    }
  }

  lemma RaiseIsSafe(table: string, w: World, q: string)
    requires !w.stage.Resting? && StageInv(table, w) && Safe(table, w, q) && w.store.attempts != []
    ensures Safe(table, Next(table, w, Raise), q)
  {
    var cleared := w.store.(files := w.store.files - {Temp(table, w.stage.p)});
    FilesStand(table, w, [], w.stage.p, q);
    DoneOfFinish(cleared, w.stage.p, if w.stage.Recorded? then Succeeded else Running, Failed, q);
  }

  lemma DropIsSafe(table: string, w: World, q: string)
    requires w.stage.Recorded? && StageInv(table, w) && Ledger(w, q) && Safe(table, w, q) && !Parts(table, w, Drop, q)
    ensures Safe(table, AfterDrop(w), q)
    ensures Safe(table, Next(table, w, DropRaises), q)
  {
    var w' := AfterDrop(w);
    FilesStand(table, w', [], w.stage.p, q);
    DoneOfFinish(w'.store.(files := w'.store.files - {Temp(table, w.stage.p)}), w.stage.p, Succeeded, Failed, q);
  }

  lemma QuietStepIsSafe(table: string, w: World, e: Event, q: string)
    requires Possible(w, e) && StageInv(table, w) && Safe(table, w, q)
    requires e.Insert? || e.Prune? || e.Open? || e.Rest? || e.Kill?
    ensures Safe(table, Next(table, w, e), q)
  {
    match e
    case Open(p, _) => DoneSnoc(w.store.attempts, Attempt(p, Running), q);
    case Kill(partial) =>
      if partial.Some? {
        FilesStand(table, w, Join(partial.value), w.stage.p, q);
      }
    case _ =>
  }

  lemma StreamIsSafe(table: string, w: World, e: Event, q: string)
    requires Possible(w, e) && StageInv(table, w) && Safe(table, w, q) && (e.Skip? || e.Stream? || e.Publish?)
    ensures Safe(table, Next(table, w, e), q)
  {
    DoneOfFinish(w.store, w.stage.p, Running, Skipped, q);
    match e
    case Stream(chunks) => FilesStand(table, w, Join(chunks), w.stage.p, q);
    case Publish => FilesStand(table, w, w.stage.rows, w.stage.p, q);
    case _ =>
  }

  lemma StepIsSafe(table: string, w: World, e: Event, q: string)
    requires Possible(w, e) && StageInv(table, w) && Kept(table, w, q) && Ledger(w, q) && Safe(table, w, q)
    requires !Parts(table, w, e, q)
    ensures Safe(table, Next(table, w, e), q)
  {
    if e.Record? {
      RecordIsSafe(table, w, q);
    } else if e.Raise? {
      RaiseIsSafe(table, w, q);
    } else if e.Drop? || e.DropRaises? {
      DropIsSafe(table, w, q);
    } else if e.Skip? || e.Stream? || e.Publish? {
      StreamIsSafe(table, w, e, q);
    } else {
      QuietStepIsSafe(table, w, e, q);
    }
  }

  lemma {:induction false} HistoryIsSafe(table: string, w: World, events: seq<Event>, p: string)
    requires History(table, w, events).Some? && NeverParts(table, w, events, p)
    requires StageInv(table, w) && Kept(table, w, p) && Ledger(w, p) && Safe(table, w, p)
    ensures Safe(table, History(table, w, events).value, p)
    decreases events
  {
    if events != [] {
      StepIsSafe(table, w, events[0], p);
      StepKeepsIff(table, w, events[0], p);
      StageInvStep(table, w, events[0]);
      LedgerStep(table, w, events[0], p);
      HistoryIsSafe(table, Next(table, w, events[0]), events[1..], p);
    }
  }

  /** In a history that never parts the file from what was dropped, a month that archive_runs has as a success,
      and that no later run will look at, has a file, until that is pruned, with everything that was dropped of
      it; what the file does not have came later and is still in ClickHouse. */
  lemma RecordedMonthsAreSafe(table: string, s: Store, events: seq<Event>, p: string)
    requires s.attempts == [] && History(table, Initial(s), events).Some? && NeverParts(table, Initial(s), events, p)
    ensures var w := History(table, Initial(s), events).value;
            p in Done(w.store.attempts) && Target(table, p) !in w.pruned ==>
              exists file :: FileOf(table, w.store, p) == Some(file) && file <= WrittenOf(w, p) &&
                             |WrittenOf(w, p)| - |file| <= |RowsOf(w.store, p)|
  {
    assert [] + RowsOf(s, p) == RowsOf(s, p);
    HistoryIsSafe(table, Initial(s), events, p);
    LedgerOfHistory(table, Initial(s), events, p);
  }

  lemma {:induction false} LedgerOfHistory(table: string, w: World, events: seq<Event>, p: string)
    requires History(table, w, events).Some? && Ledger(w, p)
    ensures Ledger(History(table, w, events).value, p)
    decreases events
  {
    if events != [] {
      LedgerStep(table, w, events[0], p);
      LedgerOfHistory(table, Next(table, w, events[0]), events[1..], p);
    }
  }

  // ----------------------------------------------------------------- how rows are lost

  lemma HistoryStep(table: string, w: World, e: Event, rest: seq<Event>)
    requires Possible(w, e)
    ensures History(table, w, [e] + rest) == History(table, Next(table, w, e), rest)
  {
    assert ([e] + rest)[0] == e && ([e] + rest)[1..] == rest;
  }

  lemma JoinOne(rows: seq<Row>)
    ensures Join([rows]) == rows
  {
    assert [rows][..0] == [];
    assert Join([rows]) == Join([rows][..0]) + rows;
  }

  /** The snapshot is taken, and then rows come. */
  lemma RowsComeAfterSnapshot(table: string, p: string, current: string, early: seq<Row>, late: seq<Row>)
    returns (w: World)
    requires early != [] && Months.Less(p, current)
    ensures var s := Store(map[p := early], map[], []);
      History(table, Initial(s), [Open(p, current)] + ([Stream([early])] + ([Insert(p, late)] + []))) == Some(w)
    ensures w.stage == Streamed(p, early) && RowsOf(w.store, p) == early + late && WrittenOf(w, p) == early + late
    ensures DroppedOf(w, p) == [] && w.pruned == {} && w.store.attempts != []
  {
    var s := Store(map[p := early], map[], []);
    JoinOne(early);
    var w0 := Initial(s);
    var w1 := Next(table, w0, Open(p, current));
    assert RowsOf(w1.store, p) == early;
    var w2 := Next(table, w1, Stream([early]));
    w := Next(table, w2, Insert(p, late));
    HistoryStep(table, w2, Insert(p, late), []);
    HistoryStep(table, w1, Stream([early]), [Insert(p, late)] + []);
    HistoryStep(table, w0, Open(p, current), [Stream([early])] + ([Insert(p, late)] + []));
  }

  /** Nothing fails, and rows are lost all the same: those that a backlog brings into a closed month while its
      export is being written are dropped with the partition. */
  lemma RowsBehindTheSnapshotAreLost(table: string, p: string, current: string, early: seq<Row>, late: seq<Row>)
    requires early != [] && late != [] && Months.Less(p, current)
    ensures var s := Store(map[p := early], map[], []);
      var events := ([Open(p, current)] + ([Stream([early])] + ([Insert(p, late)] + []))) +
                    ([Publish] + ([Record] + ([Drop] + [])));
      History(table, Initial(s), events).Some? &&
      var w := History(table, Initial(s), events).value;
      && WrittenOf(w, p) == early + late && RowsOf(w.store, p) == []
      && FileOf(table, w.store, p) == Some(early) && w.pruned == {}
  {
    var s := Store(map[p := early], map[], []);
    var first := [Open(p, current)] + ([Stream([early])] + ([Insert(p, late)] + []));
    var w := RowsComeAfterSnapshot(table, p, current, early, late);
    var w1 := Next(table, w, Publish);
    FilesStand(table, w, early, p, p);
    var w2 := Next(table, w1, Record);
    HistoryStep(table, w2, Drop, []);
    HistoryStep(table, w1, Record, [Drop] + []);
    HistoryStep(table, w, Publish, [Record] + ([Drop] + []));
    HistoryConcat(table, Initial(s), first, [Publish] + ([Record] + ([Drop] + [])));
  }

  lemma {:induction false} HistoryConcat(table: string, w: World, a: seq<Event>, b: seq<Event>)
    requires History(table, w, a).Some?
    ensures History(table, w, a + b) == History(table, History(table, w, a).value, b)
    decreases a
  {
    if a == [] {
      assert a + b == b;
    } else {
      assert (a + b)[0] == a[0] && (a + b)[1..] == a[1..] + b;
      HistoryConcat(table, Next(table, w, a[0]), a[1..], b);
    }
  }

  /** Each stream is the month's rows. */
  predicate Streams(s: Store, closed: seq<string>, plans: seq<Plan>) {
    |plans| == |closed| && forall i :: 0 <= i < |closed| ==> Join(plans[i].chunks) == RowsOf(s, closed[i])
  }

  /** The months are listed once each and are over. */
  predicate Over(closed: seq<string>, current: string) {
    && (forall i :: 0 <= i < |closed| ==> Months.Less(closed[i], current))
    && (forall i, j :: 0 <= i < j < |closed| ==> closed[i] != closed[j])
  }

  lemma {:induction false} OtherMonthsWait(table: string, s: Store, closed: seq<string>, plans: seq<Plan>, drop: bool,
                                           q: string)
    requires |plans| == |closed| && q !in closed
    ensures var s' := Results(table, s, closed, plans, drop).store;
      RowsOf(s', q) == RowsOf(s, q) && FileOf(table, s', q) == FileOf(table, s, q) &&
      (q in Done(s'.attempts) <==> q in Done(s.attempts))
  {
    if closed != [] {
      var last := |closed| - 1;
      OtherMonthsWait(table, s, closed[..last], plans[..last], drop, q);
      var before := Results(table, s, closed[..last], plans[..last], drop);
      OthersUntouched(table, before.store, closed[last], plans[last].chunks, drop, plans[last].trouble, q);
      DoneOfAttempt(table, before.store, closed[last], plans[last].chunks, drop, plans[last].trouble, q);
    }
  }

  /** A run without trouble exports each of its months that has rows. */
  lemma {:induction false} FineRunExports(table: string, s: Store, closed: seq<string>, plans: seq<Plan>, drop: bool,
                                          current: string, i: nat)
    requires Streams(s, closed, plans) && AllFine(plans) && Over(closed, current)
    requires i < |closed| && RowsOf(s, closed[i]) != []
    ensures FileOf(table, Results(table, s, closed, plans, drop).store, closed[i]) == Some(RowsOf(s, closed[i]))
  {
    var last := |closed| - 1;
    var s1 := FineLast(table, s, closed, plans, drop);
    if i < last {
      FineRunExports(table, s, closed[..last], plans[..last], drop, current, i);
      OthersUntouched(table, s1, closed[last], plans[last].chunks, drop, Fine, closed[i]);
    } else {
      OtherMonthsWait(table, s, closed[..last], plans[..last], drop, closed[i]);
      FineExports(table, s1, closed[i], plans[last].chunks, drop);
    }
  }

  /** The store before the last month of a run without trouble. */
  lemma FineLast(table: string, s: Store, closed: seq<string>, plans: seq<Plan>, drop: bool) returns (s1: Store)
    requires |plans| == |closed| > 0 && AllFine(plans)
    ensures var last := |closed| - 1;
      s1 == Results(table, s, closed[..last], plans[..last], drop).store &&
      Results(table, s, closed, plans, drop).store == Attempted(table, s1, closed[last], plans[last].chunks, drop, Fine).0
  {
    var last := |closed| - 1;
    s1 := Results(table, s, closed[..last], plans[..last], drop).store;
    assert plans[last].trouble == Fine;
    FineRun(table, s, closed[..last], plans[..last], drop, closed[last]);
  }

  lemma FineExports(table: string, s: Store, p: string, chunks: seq<seq<Row>>, drop: bool)
    requires RowsOf(s, p) != []
    ensures FileOf(table, Attempted(table, s, p, chunks, drop, Fine).0, p) == Some(Join(chunks))
  {
    TargetsDiffer(table, p, p);
  }

  /** Rows that come into a month after its partition was dropped: the next run without trouble overwrites the
      file, the only copy of the earlier rows, if and only if the month is not on record as a success. */
  lemma LateRowsOverwriteIff(table: string, s: Store, p: string, early: seq<Row>, late: seq<Row>, listed: seq<string>,
                             current: string, plans: seq<Plan>, drop: bool)
    requires FileOf(table, s, p) == Some(early) && RowsOf(s, p) == [] && late != [] && late != early
    requires var s1 := s.(table := s.table[p := late]);
      && (forall q :: q in listed <==> q in s1.table) && Months.Less(p, current)
      && AllFine(plans) && Streams(s1, Closed(listed, current, Done(s1.attempts)), plans)
      && Over(Closed(listed, current, Done(s1.attempts)), current)
    ensures var s1 := s.(table := s.table[p := late]);
      var s2 := Results(table, s1, Closed(listed, current, Done(s1.attempts)), plans, drop).store;
      FileOf(table, s2, p) == (if p in Done(s.attempts) then Some(early) else Some(late))
  {
    var s1 := s.(table := s.table[p := late]);
    var closed := Closed(listed, current, Done(s1.attempts));
    ClosedAre(listed, current, Done(s1.attempts), p);
    if p in Done(s.attempts) {
      OtherMonthsWait(table, s1, closed, plans, drop, p);
    } else {
      var i: nat :| i < |closed| && closed[i] == p;
      FineRunExports(table, s1, closed, plans, drop, current, i);
    }
  }

  /** A way into that state: a drop that took effect but was reported as an error turns the recorded success
      into a failure. */
  lemma MisreportedDrop(table: string, p: string, early: seq<Row>)
    requires early != []
    ensures var s := Attempted(table, Store(map[p := early], map[], []), p, [early], true, Raised(Dropping(true))).0;
      FileOf(table, s, p) == Some(early) && RowsOf(s, p) == [] && p !in Done(s.attempts)
  {
    TargetsDiffer(table, p, p);
    JoinOne(early);
    var s0 := Store(map[p := early], map[], []);
    DoneOfAttempt(table, s0, p, [early], true, Raised(Dropping(true)), p);
  }

  // ----------------------------------------------------------------- the program's attempts are such steps

  lemma {:induction false} HistorySnoc(table: string, w: World, events: seq<Event>, e: Event)
    requires History(table, w, events).Some? && Possible(History(table, w, events).value, e)
    ensures History(table, w, events + [e]) == Some(Next(table, History(table, w, events).value, e))
  {
    HistoryConcat(table, w, events, [e]);
    HistoryStep(table, History(table, w, events).value, e, []);
    assert [e] + [] == [e];
  }

  /** The attempt up to its snapshot. */
  lemma StepsToSnapshot(table: string, w: World, p: string, current: string, chunks: seq<seq<Row>>)
    returns (events: seq<Event>)
    requires Possible(w, Open(p, current)) && RowsOf(w.store, p) != [] && Join(chunks) == RowsOf(w.store, p)
    ensures History(table, w, events) ==
            Some(w.(store := Written(Begun(w.store, p), table, p, Join(chunks)), stage := Streamed(p, Join(chunks))))
  {
    events := [];
    HistorySnoc(table, w, events, Open(p, current));
    events := events + [Open(p, current)];
    HistorySnoc(table, w, events, Stream(chunks));
    events := events + [Stream(chunks)];
  }

  lemma StepsToPublished(table: string, w: World, p: string, current: string, chunks: seq<seq<Row>>)
    returns (events: seq<Event>)
    requires Possible(w, Open(p, current)) && RowsOf(w.store, p) != [] && Join(chunks) == RowsOf(w.store, p)
    ensures History(table, w, events) ==
            Some(w.(store := Replaced(Begun(w.store, p), table, p, Join(chunks)), stage := Published(p, Join(chunks))))
  {
    events := StepsToSnapshot(table, w, p, current, chunks);
    var s0 := Begun(w.store, p);
    assert Written(s0, table, p, Join(chunks)).files - {Temp(table, p)} == s0.files - {Temp(table, p)};
    HistorySnoc(table, w, events, Publish);
    events := events + [Publish];
  }

  lemma StepsToRecorded(table: string, w: World, p: string, current: string, chunks: seq<seq<Row>>)
    returns (events: seq<Event>)
    requires Possible(w, Open(p, current)) && RowsOf(w.store, p) != [] && Join(chunks) == RowsOf(w.store, p)
    ensures History(table, w, events) ==
            Some(w.(store := Finish(Replaced(Begun(w.store, p), table, p, Join(chunks)), Succeeded),
                    stage := Recorded(p, Join(chunks))))
  {
    events := StepsToPublished(table, w, p, current, chunks);
    HistorySnoc(table, w, events, Record);
    events := events + [Record];
  }

  /** The steps and the atomic attempt end in the same store. */
  ghost predicate SameEnd(table: string, w: World, events: seq<Event>, s': Store) {
    History(table, w, events).Some? &&
    var w' := History(table, w, events).value;
    w'.store == s' && w'.stage == Resting && w'.written == w.written && w'.pruned == w.pruned
  }

  lemma EarlyEnd(table: string, w: World, p: string, current: string, chunks: seq<seq<Row>>, drop: bool, t: Trouble)
    returns (events: seq<Event>)
    requires Possible(w, Open(p, current)) && Join(chunks) == RowsOf(w.store, p)
    requires Stops(t, Counting) || RowsOf(w.store, p) == [] || StopsStreaming(t, |chunks|)
    ensures SameEnd(table, w, events, Attempted(table, w.store, p, chunks, drop, t).0)
  {
    events := [];
    HistorySnoc(table, w, events, Open(p, current));
    events := events + [Open(p, current)];
    var s0 := Begun(w.store, p);
    assert RowsOf(s0, p) == RowsOf(w.store, p);
    var e :=
      if Stops(t, Counting) then (if t.Killed? then Kill(None) else Raise)
      else if RowsOf(w.store, p) == [] then Skip
      else if t.Killed? then Kill(Some(chunks[..t.at.n])) else Raise;
    if e.Raise? && StopsStreaming(t, |chunks|) {
      assert Written(s0, table, p, Join(chunks[..t.at.n])).files - {Temp(table, p)} == s0.files - {Temp(table, p)};
    }
    HistorySnoc(table, w, events, e);
    events := events + [e];
  }

  lemma MiddleEnd(table: string, w: World, p: string, current: string, chunks: seq<seq<Row>>, drop: bool, t: Trouble)
    returns (events: seq<Event>)
    requires Possible(w, Open(p, current)) && Join(chunks) == RowsOf(w.store, p) && RowsOf(w.store, p) != []
    requires Stops(t, Replacing) || Stops(t, Inspecting) || Stops(t, Recording)
    ensures SameEnd(table, w, events, Attempted(table, w.store, p, chunks, drop, t).0)
  {
    assert RowsOf(Begun(w.store, p), p) == RowsOf(w.store, p);
    if Stops(t, Replacing) {
      events := StepsToSnapshot(table, w, p, current, chunks);
    } else {
      events := StepsToPublished(table, w, p, current, chunks);
    }
    var e := if t.Killed? then Kill(None) else Raise;
    HistorySnoc(table, w, events, e);
    events := events + [e];
  }

  lemma LateEnd(table: string, w: World, p: string, current: string, chunks: seq<seq<Row>>, drop: bool, t: Trouble)
    returns (events: seq<Event>)
    requires Possible(w, Open(p, current)) && Join(chunks) == RowsOf(w.store, p) && RowsOf(w.store, p) != []
    requires !Stops(t, Counting) && !StopsStreaming(t, |chunks|)
    requires !Stops(t, Replacing) && !Stops(t, Inspecting) && !Stops(t, Recording)
    ensures SameEnd(table, w, events, Attempted(table, w.store, p, chunks, drop, t).0)
  {
    assert RowsOf(Begun(w.store, p), p) == RowsOf(w.store, p);
    events := StepsToRecorded(table, w, p, current, chunks);
    var e :=
      if !drop then Rest
      else if Stops(t, Dropping(false)) then (if t.Killed? then Kill(None) else Raise)
      else if t == Raised(Dropping(true)) then DropRaises
      else Drop;
    HistorySnoc(table, w, events, e);
    events := events + [e];
  }

  /** Every attempt of the program, however it is stopped, is a sequence of these steps. */
  lemma AttemptIsSteps(table: string, w: World, p: string, current: string, chunks: seq<seq<Row>>, drop: bool, t: Trouble)
    returns (events: seq<Event>)
    requires Possible(w, Open(p, current)) && Join(chunks) == RowsOf(w.store, p)
    ensures SameEnd(table, w, events, Attempted(table, w.store, p, chunks, drop, t).0)
  {
    if Stops(t, Counting) || RowsOf(w.store, p) == [] || StopsStreaming(t, |chunks|) {
      events := EarlyEnd(table, w, p, current, chunks, drop, t);
    } else if Stops(t, Replacing) || Stops(t, Inspecting) || Stops(t, Recording) {
      events := MiddleEnd(table, w, p, current, chunks, drop, t);
    } else {
      events := LateEnd(table, w, p, current, chunks, drop, t);
    }
  }

  /** What the loop of run does to the store, killed or not, is what a history of such steps does. */
  lemma {:induction false} RunIsHistory(table: string, w: World, closed: seq<string>, plans: seq<Plan>, drop: bool,
                                        current: string) returns (events: seq<Event>)
    requires Streams(w.store, closed, plans) && Over(closed, current) && w.stage == Resting
    requires forall i :: 0 <= i < |closed| ==> closed[i] !in Done(w.store.attempts)
    ensures SameEnd(table, w, events, Results(table, w.store, closed, plans, drop).store)
    decreases |closed|
  {
    events := [];
    if closed != [] {
      var last := |closed| - 1;
      events := RunIsHistory(table, w, closed[..last], plans[..last], drop, current);
      var before := Results(table, w.store, closed[..last], plans[..last], drop);
      if before.alive {
        var w1 := History(table, w, events).value;
        assert closed[last] !in closed[..last];
        OtherMonthsWait(table, w.store, closed[..last], plans[..last], drop, closed[last]);
        var more := AttemptIsSteps(table, w1, closed[last], current, plans[last].chunks, drop, plans[last].trouble);
        HistoryConcat(table, w, events, more);
        events := events + more;
      }
    }
  }
}
