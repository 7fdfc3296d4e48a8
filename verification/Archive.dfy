/** backend/app/services/maintenance.py: closed_partitions, archive_partition and the loop of run,
    over the archive_runs table of backend/app/database/meta.py. */
module Archive {
  import opened Wrappers
  import opened Wire
  import opened ArchiveFiles
  import Months

  datatype Status = Running | Succeeded | Failed | Skipped

  datatype Attempt = Attempt(partition: string, status: Status)

  /** What outlives the process: ClickHouse's partitions, the archive directory by file name, and
      the archive_runs table.  A file is described by the rows its Native stream decodes to. */
  datatype Store = Store(
    table: map<string, seq<Row>>,
    files: map<string, seq<Row>>,
    attempts: seq<Attempt>)

  /** Where an attempt stops.  Streaming(n) is after n chunks; Dropping(applied) is a DROP PARTITION
      that the server did or did not carry out. */
  datatype Point = Counting | Streaming(n: nat) | Replacing | Inspecting | Recording | Dropping(applied: bool)

  /** Raised: an exception that the handler sees.  Killed: the process is gone. */
  datatype Trouble = Fine | Raised(at: Point) | Killed(at: Point)

  datatype End = Archived | Empty | Erred | Dead

  function Join(chunks: seq<seq<Row>>): seq<Row> {
    if chunks == [] then [] else Join(chunks[..|chunks| - 1]) + chunks[|chunks| - 1]
  }

  /** archived_partitions */
  function Done(attempts: seq<Attempt>): set<string> {
    set a | a in attempts && a.status == Succeeded :: a.partition
  }

  /** closed_partitions, as a filter */
  function Closed(listed: seq<string>, current: string, done: set<string>): seq<string> {
    if listed == [] then []
    else (if IsClosed(listed[0], current, done) then [listed[0]] else []) + Closed(listed[1..], current, done)
  }

  /** The month is over and not on record as archived. */
  predicate IsClosed(p: string, current: string, done: set<string>) {
    Months.Less(p, current) && p !in done
  }

  /** The closed ones of the first i months; the bound variable keeps Closed folded. */
  ghost predicate ClosedSoFar(listed: seq<string>, i: nat, current: string, done: set<string>, closed: seq<string>) {
    i <= |listed| &&
    forall rest :: rest == listed[i..] ==> closed + Closed(rest, current, done) == Closed(listed, current, done)
  }

  lemma NoneClosed(listed: seq<string>, current: string, done: set<string>)
    ensures ClosedSoFar(listed, 0, current, done, [])
  {
    assert listed[0..] == listed && [] + Closed(listed, current, done) == Closed(listed, current, done);
  }

  lemma ClosedStep(listed: seq<string>, i: nat, current: string, done: set<string>, closed: seq<string>)
    requires i < |listed| && ClosedSoFar(listed, i, current, done, closed)
    ensures IsClosed(listed[i], current, done) ==> ClosedSoFar(listed, i + 1, current, done, closed + [listed[i]])
    ensures !IsClosed(listed[i], current, done) ==> ClosedSoFar(listed, i + 1, current, done, closed)
  {
    var rest := listed[i..];
    assert rest[0] == listed[i] && rest[1..] == listed[i + 1..];
    assert closed + Closed(rest, current, done) == Closed(listed, current, done);
    SeqAssoc(closed, if IsClosed(listed[i], current, done) then [listed[i]] else [], Closed(rest[1..], current, done));
    assert closed + [] == closed;
  }

  lemma AllClosed(listed: seq<string>, current: string, done: set<string>, closed: seq<string>)
    requires ClosedSoFar(listed, |listed|, current, done, closed)
    ensures closed == Closed(listed, current, done)
  {
    assert Closed(listed[|listed|..], current, done) == [];
    assert closed + [] == closed;
  }

  /** What the count and the stream of a month see; a month without a partition is empty. */
  function RowsOf(s: Store, p: string): seq<Row> {
    if p in s.table then s.table[p] else []
  }

  // ----------------------------------------------------------------- one attempt

  function Finish(s: Store, status: Status): Store
    requires s.attempts != []
  {
    var last := |s.attempts| - 1;
    s.(attempts := s.attempts[last := s.attempts[last].(status := status)])
  }

  function Begun(s: Store, p: string): Store {
    s.(attempts := s.attempts + [Attempt(p, Running)])
  }

  function Written(s: Store, table: string, p: string, rows: seq<Row>): Store {
    s.(files := s.files[Temp(table, p) := rows])
  }

  function Replaced(s: Store, table: string, p: string, rows: seq<Row>): Store {
    s.(files := (s.files - {Temp(table, p)})[Target(table, p) := rows])
  }

  function Dropped(s: Store, p: string): Store {
    s.(table := s.table - {p})
  }

  /** The except branch. */
  function Handled(s: Store, table: string, p: string): Store
    requires s.attempts != []
  {
    Finish(s.(files := s.files - {Temp(table, p)}), Failed)
  }

  /** The store and the way the attempt ends, for every way it can be stopped. */
  function Attempted(table: string, s: Store, p: string, chunks: seq<seq<Row>>, drop: bool, t: Trouble): (Store, End) {
    var s0 := Begun(s, p);
    if Stops(t, Counting) then Stopped(table, s0, p, t)
    else if RowsOf(s, p) == [] then (Finish(s0, Skipped), Empty)
    else if StopsStreaming(t, |chunks|) then Stopped(table, Written(s0, table, p, Join(chunks[..t.at.n])), p, t)
    else if Stops(t, Replacing) then Stopped(table, Written(s0, table, p, Join(chunks)), p, t)
    else
      var s1 := Replaced(s0, table, p, Join(chunks));
      if Stops(t, Inspecting) || Stops(t, Recording) then Stopped(table, s1, p, t)
      else
        var s2 := Finish(s1, Succeeded);
        if !drop then (s2, Archived)
        else if Stops(t, Dropping(false)) then Stopped(table, s2, p, t)
        else if Stops(t, Dropping(true)) then Stopped(table, Dropped(s2, p), p, t)
        else (Dropped(s2, p), Archived)
  }

  predicate Stops(t: Trouble, at: Point) {
    !t.Fine? && t.at == at
  }

  predicate StopsStreaming(t: Trouble, chunks: nat) {
    !t.Fine? && t.at.Streaming? && t.at.n <= chunks
  }

  function Stopped(table: string, s: Store, p: string, t: Trouble): (Store, End)
    requires s.attempts != [] && !t.Fine?
  {
    if t.Killed? then (s, Dead) else (Handled(s, table, p), Erred)
  }

  /** What happens to one month of a maintenance run: how the stream is cut, and the trouble. */
  datatype Plan = Plan(chunks: seq<seq<Row>>, trouble: Trouble)

  datatype Outcome = Outcome(store: Store, failures: nat, alive: bool)

  /** The loop of run over the closed months; a kill ends it. */
  function Results(table: string, s: Store, closed: seq<string>, plans: seq<Plan>, drop: bool): Outcome
    requires |plans| == |closed|
  {
    if closed == [] then Outcome(s, 0, true)
    else
      var last := |closed| - 1;
      var before := Results(table, s, closed[..last], plans[..last], drop);
      if !before.alive then before
      else
        var (s', end) := Attempted(table, before.store, closed[last], plans[last].chunks, drop, plans[last].trouble);
        Outcome(s', if end == Erred then before.failures + 1 else before.failures, end != Dead)
  }

  /** What is left of the directory after prune_archives has seen `listed`. */
  function Pruned(s: Store, table: string, listed: seq<string>, cutoff: string): Store {
    s.(files := map name | name in s.files && !(name in listed && Doomed(table, cutoff, name)) :: s.files[name])
  }

  // ----------------------------------------------------------------- the program

  class Maintenance {
    const name: string
    const drop: bool
    var table: map<string, seq<Row>>
    var files: map<string, seq<Row>>
    var attempts: seq<Attempt>

    function State(): Store
      reads this
    {
      Store(table, files, attempts)
    }

    constructor (name: string, drop: bool, s: Store)
      ensures State() == s && this.name == name && this.drop == drop
    {
      this.name, this.drop := name, drop;
      table, files, attempts := s.table, s.files, s.attempts;
    }

    method FinishArchive(status: Status)
      requires attempts != []
      modifies `attempts
      ensures State() == Finish(old(State()), status)
    {
      var last := |attempts| - 1;
      attempts := attempts[last := attempts[last].(status := status)];
    }

    /** What becomes of the exception or the kill. */
    method Stop(p: string, t: Trouble) returns (end: End)
      requires attempts != [] && !t.Fine?
      modifies `files, `attempts
      ensures (State(), end) == Stopped(name, old(State()), p, t)
    {
      if t.Killed? {
        return Dead;
      }
      FinishArchive(Failed);
      files := files - {Temp(name, p)};
      end := Erred;
    }

    /** Copies the stream, chunk by chunk, into the temporary file. */
    method Stream(p: string, chunks: seq<seq<Row>>, t: Trouble) returns (complete: bool)
      modifies `files
      ensures complete <==> !StopsStreaming(t, |chunks|)
      ensures State() == Written(old(State()), name, p, Join(if complete then chunks else chunks[..t.at.n]))
    {
      files := files[Temp(name, p) := []];
      var i := 0;
      while i < |chunks|
        invariant 0 <= i <= |chunks|
        invariant forall n :: 0 <= n < i ==> !Stops(t, Streaming(n))
        invariant State() == Written(old(State()), name, p, Join(chunks[..i]))
      {
        if !t.Fine? && t.at == Streaming(i) {
          return false;
        }
        assert chunks[..i + 1][..i] == chunks[..i];
        files := files[Temp(name, p) := files[Temp(name, p)] + chunks[i]];
        i := i + 1;
      }
      assert chunks[..i] == chunks;
      complete := t.Fine? || t.at != Streaming(i);
      if complete && StopsStreaming(t, |chunks|) {
        assert Stops(t, Streaming(t.at.n));
      }
    }

    /** archive_partition */
    method ArchivePartition(p: string, chunks: seq<seq<Row>>, t: Trouble) returns (end: End)
      modifies this
      ensures (State(), end) == Attempted(name, old(State()), p, chunks, drop, t)
    {
      attempts := attempts + [Attempt(p, Running)];
      if Stops(t, Counting) {
        end := Stop(p, t);
        return;
      }
      var expected := if p in table then |table[p]| else 0;
      if expected == 0 {
        FinishArchive(Skipped);
        return Empty;
      }
      var complete := Stream(p, chunks, t);
      if !complete || Stops(t, Replacing) {
        end := Stop(p, t);
        return;
      }
      ghost var before := old(files);
      assert files - {Temp(name, p)} == before - {Temp(name, p)};
      files := (files - {Temp(name, p)})[Target(name, p) := files[Temp(name, p)]];
      assert State() == Replaced(Begun(old(State()), p), name, p, Join(chunks));
      if Stops(t, Inspecting) || Stops(t, Recording) {
        end := Stop(p, t);
        return;
      }
      FinishArchive(Succeeded);
      if drop {
        if Stops(t, Dropping(false)) {
          end := Stop(p, t);
          return;
        }
        table := table - {p};
        if Stops(t, Dropping(true)) {
          end := Stop(p, t);
          return;
        }
      }
      end := Archived;
    }

    /** closed_partitions, over what ClickHouse lists */
    method ClosedPartitions(listed: seq<string>, current: string) returns (closed: seq<string>)
      ensures closed == Closed(listed, current, Done(attempts))
    {
      closed := [];
      var done := Done(attempts);
      NoneClosed(listed, current, done);
      var i := 0;
      while i < |listed|
        invariant 0 <= i <= |listed|
        invariant ClosedSoFar(listed, i, current, done, closed)
      {
        ClosedStep(listed, i, current, done, closed);
        if IsClosed(listed[i], current, done) {
          closed := closed + [listed[i]];
        }
        i := i + 1;
      }
      AllClosed(listed, current, done, closed);
    }

    /** The loop of run. */
    method ArchiveAll(closed: seq<string>, plans: seq<Plan>) returns (failures: nat, alive: bool)
      requires |plans| == |closed|
      modifies this
      ensures Outcome(State(), failures, alive) == Results(name, old(State()), closed, plans, drop)
    {
      failures, alive := 0, true;
      var i := 0;
      while i < |closed| && alive
        invariant 0 <= i <= |closed|
        invariant Outcome(State(), failures, alive) == Results(name, old(State()), closed[..i], plans[..i], drop)
      {
        assert closed[..i + 1][..i] == closed[..i] && plans[..i + 1][..i] == plans[..i];
        var end := ArchivePartition(closed[i], plans[i].chunks, plans[i].trouble);
        failures := if end == Erred then failures + 1 else failures;
        alive := end != Dead;
        i := i + 1;
      }
      if alive {
        assert closed[..i] == closed && plans[..i] == plans;
      } else {
        DeadStays(name, old(State()), closed, plans, drop, i);
      }
    }

    /** prune_archives, over what the glob lists */
    method PruneArchives(listed: seq<string>, cutoff: string) returns (removed: nat)
      modifies `files
      ensures State() == Pruned(old(State()), name, listed, cutoff)
    {
      removed := 0;
      var i := 0;
      while i < |listed|
        invariant 0 <= i <= |listed|
        invariant State() == Pruned(old(State()), name, listed[..i], cutoff)
      {
        if Doomed(name, cutoff, listed[i]) {
          files := files - {listed[i]};
          removed := removed + 1;
        }
        i := i + 1;
      }
      assert listed[..i] == listed;
    }
  }

  lemma {:induction false} DeadStays(table: string, s: Store, closed: seq<string>, plans: seq<Plan>, drop: bool, i: nat)
    requires |plans| == |closed| && i <= |closed|
    requires !Results(table, s, closed[..i], plans[..i], drop).alive
    ensures Results(table, s, closed, plans, drop) == Results(table, s, closed[..i], plans[..i], drop)
  {
    if i == |closed| {
      assert closed[..i] == closed && plans[..i] == plans;
    } else {
      var last := |closed| - 1;
      assert closed[..last][..i] == closed[..i] && plans[..last][..i] == plans[..i];
      DeadStays(table, s, closed[..last], plans[..last], drop, i);
    }
  }

  // ----------------------------------------------------------------- one attempt is safe

  function FileOf(table: string, s: Store, p: string): Option<seq<Row>> {
    if Target(table, p) in s.files then Some(s.files[Target(table, p)]) else None
  }

  /** Wherever the attempt is stopped, the archive file is either what it was or complete. */
  lemma FileIsOldOrComplete(table: string, s: Store, p: string, chunks: seq<seq<Row>>, drop: bool, t: Trouble)
    ensures var file := FileOf(table, Attempted(table, s, p, chunks, drop, t).0, p);
            file == FileOf(table, s, p) || file == Some(Join(chunks))
  {
    var s0 := Begun(s, p);
    if Stops(t, Counting) {
      StoppedKeepsFile(table, s0, p, t);
    } else if RowsOf(s, p) != [] {
      if StopsStreaming(t, |chunks|) {
        TempIsNoTarget(table, s0, p, Join(chunks[..t.at.n]), p);
        StoppedKeepsFile(table, Written(s0, table, p, Join(chunks[..t.at.n])), p, t);
      } else if Stops(t, Replacing) {
        TempIsNoTarget(table, s0, p, Join(chunks), p);
        StoppedKeepsFile(table, Written(s0, table, p, Join(chunks)), p, t);
      } else {
        PublishedIsComplete(table, s0, p, Join(chunks), drop, t);
      }
    }
  }

  lemma StoppedKeepsFile(table: string, s: Store, p: string, t: Trouble)
    requires s.attempts != [] && !t.Fine?
    ensures FileOf(table, Stopped(table, s, p, t).0, p) == FileOf(table, s, p)
  {
    TargetsDiffer(table, p, p);
  }

  /** Nothing that follows the replacement touches the file. */
  lemma PublishedIsComplete(table: string, s0: Store, p: string, rows: seq<Row>, drop: bool, t: Trouble)
    requires s0.attempts != []
    ensures var s1 := Replaced(s0, table, p, rows);
      var s2 := Finish(s1, Succeeded);
      && FileOf(table, s1, p) == FileOf(table, s2, p) == FileOf(table, Dropped(s2, p), p) == Some(rows)
      && (!t.Fine? ==>
            && FileOf(table, Stopped(table, s1, p, t).0, p) == Some(rows)
            && FileOf(table, Stopped(table, s2, p, t).0, p) == Some(rows)
            && FileOf(table, Stopped(table, Dropped(s2, p), p, t).0, p) == Some(rows))
  {
    TargetsDiffer(table, p, p);
    var s1 := Replaced(s0, table, p, rows);
    var s2 := Finish(s1, Succeeded);
    if !t.Fine? {
      StoppedKeepsFile(table, s1, p, t);
      StoppedKeepsFile(table, s2, p, t);
      StoppedKeepsFile(table, Dropped(s2, p), p, t);
    }
  }

  lemma TempIsNoTarget(table: string, s: Store, p: string, rows: seq<Row>, q: string)
    ensures FileOf(table, Written(s, table, p, rows), q) == FileOf(table, s, q)
  {
    TargetsDiffer(table, q, p);
  }

  /** A partition is gone only once the file holds all its rows; a kill then leaves a success on record. */
  lemma DropComesLast(table: string, s: Store, p: string, chunks: seq<seq<Row>>, drop: bool, t: Trouble)
    ensures var (s', end) := Attempted(table, s, p, chunks, drop, t);
            RowsOf(s', p) == RowsOf(s, p) ||
            (drop && RowsOf(s', p) == [] && FileOf(table, s', p) == Some(Join(chunks)) && s'.attempts != [] &&
             (end != Erred ==> s'.attempts[|s'.attempts| - 1] == Attempt(p, Succeeded)))
  {
    TargetsDiffer(table, p, p);
  }

  /** What each piece of an attempt at p does to another month: nothing. */
  lemma PiecesApart(table: string, s: Store, p: string, rows: seq<Row>, status: Status, q: string)
    requires q != p
    ensures Same(table, s, Begun(s, p), q) && Same(table, s, Written(s, table, p, rows), q)
    ensures Same(table, s, Replaced(s, table, p, rows), q) && Same(table, s, Dropped(s, p), q)
    ensures s.attempts != [] ==> Same(table, s, Finish(s, status), q) && Same(table, s, Handled(s, table, p), q)
  {
    TargetsDiffer(table, p, q);
    TargetsDiffer(table, q, p);
  }

  predicate Same(table: string, s: Store, s': Store, q: string) {
    RowsOf(s', q) == RowsOf(s, q) && FileOf(table, s', q) == FileOf(table, s, q)
  }

  lemma StoppedApart(table: string, s: Store, p: string, t: Trouble, q: string)
    requires q != p && s.attempts != [] && !t.Fine?
    ensures Same(table, s, Stopped(table, s, p, t).0, q)
  {
    PiecesApart(table, s, p, [], Failed, q);
  }

  lemma WrittenApart(table: string, s: Store, p: string, rows: seq<Row>, t: Trouble, q: string)
    requires q != p && s.attempts != [] && !t.Fine?
    ensures Same(table, s, Stopped(table, Written(s, table, p, rows), p, t).0, q)
  {
    PiecesApart(table, s, p, rows, Failed, q);
    StoppedApart(table, Written(s, table, p, rows), p, t, q);
  }

  /** Other months are out of reach. */
  lemma OthersUntouched(table: string, s: Store, p: string, chunks: seq<seq<Row>>, drop: bool, t: Trouble, q: string)
    requires q != p
    ensures var s' := Attempted(table, s, p, chunks, drop, t).0;
            RowsOf(s', q) == RowsOf(s, q) && FileOf(table, s', q) == FileOf(table, s, q)
  {
    var s0 := Begun(s, p);
    PiecesApart(table, s, p, [], Failed, q);
    if Stops(t, Counting) {
      StoppedApart(table, s0, p, t, q);
    } else if RowsOf(s, p) == [] {
      PiecesApart(table, s0, p, [], Skipped, q);
    } else if StopsStreaming(t, |chunks|) {
      WrittenApart(table, s0, p, Join(chunks[..t.at.n]), t, q);
    } else if Stops(t, Replacing) {
      WrittenApart(table, s0, p, Join(chunks), t, q);
    } else {
      PublishedApart(table, s0, p, chunks, drop, t, q);
    }
  }

  lemma PublishedApart(table: string, s0: Store, p: string, chunks: seq<seq<Row>>, drop: bool, t: Trouble, q: string)
    requires q != p && s0.attempts != []
    ensures var s1 := Replaced(s0, table, p, Join(chunks));
            var s2 := Finish(s1, Succeeded);
            && Same(table, s0, s1, q) && Same(table, s0, s2, q) && Same(table, s0, Dropped(s2, p), q)
            && (!t.Fine? ==> Same(table, s0, Stopped(table, s1, p, t).0, q) && Same(table, s0, Stopped(table, s2, p, t).0, q) &&
                             Same(table, s0, Stopped(table, Dropped(s2, p), p, t).0, q))
  {
    var s1 := Replaced(s0, table, p, Join(chunks));
    var s2 := Finish(s1, Succeeded);
    PiecesApart(table, s0, p, Join(chunks), Failed, q);
    PiecesApart(table, s1, p, [], Succeeded, q);
    PiecesApart(table, s2, p, [], Failed, q);
    if !t.Fine? {
      StoppedApart(table, s1, p, t, q);
      StoppedApart(table, s2, p, t, q);
      StoppedApart(table, Dropped(s2, p), p, t, q);
    }
  }
}
