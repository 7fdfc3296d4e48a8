/** backend/app/metrics.py: counters kept in a process and flushed to Redis.  FlushBegins and
    FlushEnds are the two sides of the await in flush; increments may come in between. */
module MetricsBuffer {
  import opened Wrappers

  /** A Python dict of counters, in insertion order. */
  type Counts = seq<(string, int)>

  predicate IsDict(c: Counts) {
    forall i, j :: 0 <= i < j < |c| ==> c[i].0 != c[j].0
  }

  function Total(c: Counts, name: string): int {
    if c == [] then 0
    else (if c[|c| - 1].0 == name then c[|c| - 1].1 else 0) + Total(c[..|c| - 1], name)
  }

  /** The position of a key, |c| when absent. */
  function Find(c: Counts, name: string): (i: nat)
    ensures i <= |c| && (i < |c| ==> c[i].0 == name)
    ensures forall j :: 0 <= j < i ==> c[j].0 != name
    ensures i == |c| ==> forall j :: 0 <= j < |c| ==> c[j].0 != name
  {
    if c == [] then 0
    else
      var i := Find(c[..|c| - 1], name);
      if i < |c| - 1 || c[|c| - 1].0 == name then i else |c|
  }

  /** c[name] = c.get(name, 0) + value */
  function Add(c: Counts, name: string, value: int): Counts {
    var i := Find(c, name);
    if i < |c| then c[i := (name, c[i].1 + value)] else c + [(name, value)]
  }

  lemma {:induction false} TotalOfUpdate(c: Counts, i: nat, value: int, name: string)
    requires i < |c|
    ensures Total(c[i := (c[i].0, value)], name) ==
            Total(c, name) + if c[i].0 == name then value - c[i].1 else 0
  {
    var c' := c[i := (c[i].0, value)];
    var last := |c| - 1;
    if i == last {
      assert c'[..last] == c[..last];
    } else {
      assert c'[..last] == c[..last][i := (c[i].0, value)];
      TotalOfUpdate(c[..last], i, value, name);
    }
  }

  lemma AddIsDict(c: Counts, name: string, value: int)
    requires IsDict(c)
    ensures IsDict(Add(c, name, value))
  {
  }

  lemma AddAdds(c: Counts, name: string, value: int, other: string)
    ensures Total(Add(c, name, value), other) == Total(c, other) + if name == other then value else 0
  {
    var i := Find(c, name);
    if i < |c| {
      TotalOfUpdate(c, i, c[i].1 + value, other);
    } else {
      TotalOfOne(c, name, value, other);
    }
  }

  lemma TotalOfOne(c: Counts, n: string, value: int, name: string)
    ensures Total(c + [(n, value)], name) == Total(c, name) + if n == name then value else 0
  {
    assert (c + [(n, value)])[..|c|] == c;
  }

  function AddAll(c: Counts, deltas: Counts): Counts {
    if deltas == [] then c
    else
      var last := |deltas| - 1;
      Add(AddAll(c, deltas[..last]), deltas[last].0, deltas[last].1)
  }

  lemma {:induction false} AddAllAdds(c: Counts, deltas: Counts, name: string)
    requires IsDict(c)
    ensures IsDict(AddAll(c, deltas))
    ensures Total(AddAll(c, deltas), name) == Total(c, name) + Total(deltas, name)
  {
    if deltas != [] {
      var last := |deltas| - 1;
      AddAllAdds(c, deltas[..last], name);
      AddIsDict(AddAll(c, deltas[..last]), deltas[last].0, deltas[last].1);
      AddAdds(AddAll(c, deltas[..last]), deltas[last].0, deltas[last].1, name);
    }
  }

  // ----------------------------------------------------------------- transitions

  /** local      _counts
      pending    the deltas of a flush that is waiting for Redis
      redis      the hash every process increments, here for one process
      counted    (history) every increment
      repeated   (history) deltas that Redis applied although the flush was taken as failed */
  datatype State = State(local: Counts, pending: Option<Counts>, redis: Counts, counted: Counts, repeated: Counts)

  /** `sent` is how many HINCRBYs Redis had applied when the pipeline failed. */
  datatype Event = Incr(name: string, value: int) | FlushBegins | FlushSucceeds | FlushFails(sent: nat)

  const NOTHING_COUNTED := State([], None, [], [], [])

  predicate Possible(s: State, e: Event) {
    match e
    case Incr(_, _) => true
    case FlushBegins => s.pending == None
    case FlushSucceeds => s.pending.Some?
    case FlushFails(sent) => s.pending.Some? && sent <= |s.pending.value|
  }

  function Next(s: State, e: Event): State
    requires Possible(s, e)
  {
    match e
    case Incr(name, value) => s.(local := Add(s.local, name, value), counted := s.counted + [(name, value)])
    case FlushBegins => if s.local == [] then s else s.(pending := Some(s.local), local := [])
    case FlushSucceeds => s.(pending := None, redis := AddAll(s.redis, s.pending.value))
    case FlushFails(sent) =>
      var applied := s.pending.value[..sent];
      s.(pending := None, local := AddAll(s.local, s.pending.value), redis := AddAll(s.redis, applied),
         repeated := s.repeated + applied)
  }

  function Run(s: State, events: seq<Event>): Option<State>
    decreases events
  {
    if events == [] then Some(s)
    else if Possible(s, events[0]) then Run(Next(s, events[0]), events[1..])
    else None
  }

  // ----------------------------------------------------------------- the program

  class Metrics {
    var counts: Counts
    var pending: Option<Counts>
    var redis: Counts
    ghost var counted: Counts
    ghost var repeated: Counts

    ghost function View(): State
      reads this
    {
      State(counts, pending, redis, counted, repeated)
    }

    constructor ()
      ensures View() == NOTHING_COUNTED
    {
      counts, pending, redis := [], None, [];
      counted, repeated := [], [];
    }

    method Incr(name: string, value: int)
      modifies this
      ensures View() == Next(old(View()), Event.Incr(name, value))
    {
      var i := Find(counts, name);
      if i < |counts| {
        counts := counts[i := (name, counts[i].1 + value)];
      } else {
        counts := counts + [(name, value)];
      }
      counted := counted + [(name, value)];
    }

    /** flush up to the await: the counters are swapped for an empty dict. */
    method FlushBegin()
      requires pending == None
      modifies this
      ensures View() == Next(old(View()), FlushBegins)
    {
      if counts == [] {
        return;
      }
      pending, counts := Some(counts), [];
    }

    /** The pipeline answers: `sent` increments took effect, all of them if it succeeded. */
    method FlushEnd(ok: bool, sent: nat)
      requires pending.Some? && sent <= |pending.value|
      modifies this
      ensures View() == Next(old(View()), if ok then FlushSucceeds else FlushFails(sent))
    {
      var deltas := pending.value;
      pending := None;
      if ok {
        redis := AddAll(redis, deltas);
        return;
      }
      redis := AddAll(redis, deltas[..sent]);
      repeated := repeated + deltas[..sent];
      ghost var before := counts;
      var i := 0;
      while i < |deltas|
        invariant 0 <= i <= |deltas|
        invariant counts == AddAll(before, deltas[..i])
        invariant pending == None && redis == AddAll(old(redis), deltas[..sent])
        invariant counted == old(counted) && repeated == old(repeated) + deltas[..sent]
      {
        assert deltas[..i + 1][..i] == deltas[..i];
        counts := Add(counts, deltas[i].0, deltas[i].1);
        i := i + 1;
      }
      assert deltas[..i] == deltas;
    }
  }

  // ----------------------------------------------------------------- nothing is lost

  function PendingOf(s: State, name: string): int {
    if s.pending.Some? then Total(s.pending.value, name) else 0
  }

  predicate Dicts(s: State) {
    IsDict(s.local) && IsDict(s.redis) && (s.pending.Some? ==> IsDict(s.pending.value))
  }

  /** Every increment is in Redis, waiting or local, and what is there twice is exactly what failed
      flushes had already sent. */
  predicate Balanced(s: State, name: string) {
    Total(s.redis, name) + PendingOf(s, name) + Total(s.local, name) == Total(s.counted, name) + Total(s.repeated, name)
  }

  lemma {:induction false} TotalConcat(a: Counts, b: Counts, name: string)
    ensures Total(a + b, name) == Total(a, name) + Total(b, name)
  {
    if b == [] {
      assert a + b == a;
    } else {
      var last := |b| - 1;
      assert (a + b)[..|a + b| - 1] == a + b[..last];
      TotalConcat(a, b[..last], name);
    }
  }

  lemma IncrBalanced(s: State, n: string, value: int, name: string)
    requires Dicts(s) && Balanced(s, name)
    ensures Dicts(Next(s, Incr(n, value))) && Balanced(Next(s, Incr(n, value)), name)
  {
    AddIsDict(s.local, n, value);
    AddAdds(s.local, n, value, name);
    TotalOfOne(s.counted, n, value, name);
  }

  lemma FailureBalanced(s: State, sent: nat, name: string)
    requires Possible(s, FlushFails(sent)) && Dicts(s) && Balanced(s, name)
    ensures Dicts(Next(s, FlushFails(sent))) && Balanced(Next(s, FlushFails(sent)), name)
  {
    var applied := s.pending.value[..sent];
    assert IsDict(applied);
    AddAllAdds(s.redis, applied, name);
    AddAllAdds(s.local, s.pending.value, name);
    TotalConcat(s.repeated, applied, name);
  }

  lemma StepStaysBalanced(s: State, e: Event, name: string)
    requires Possible(s, e) && Dicts(s) && Balanced(s, name)
    ensures Dicts(Next(s, e)) && Balanced(Next(s, e), name)
  {
    match e {
      case Incr(n, value) => IncrBalanced(s, n, value, name);
      case FlushBegins =>
      case FlushSucceeds => AddAllAdds(s.redis, s.pending.value, name);
      case FlushFails(sent) => FailureBalanced(s, sent, name);
    }
  }

  lemma {:induction false} RunStaysBalanced(s: State, events: seq<Event>, name: string)
    requires Run(s, events).Some? && Dicts(s) && Balanced(s, name)
    ensures Dicts(Run(s, events).value) && Balanced(Run(s, events).value, name)
    decreases events
  {
    if events != [] {
      StepStaysBalanced(s, events[0], name);
      RunStaysBalanced(Next(s, events[0]), events[1..], name);
    }
  }

  predicate OnlyUp(events: seq<Event>) {
    forall i :: 0 <= i < |events| && events[i].Incr? ==> events[i].value >= 0
  }

  predicate NoneNegative(c: Counts) {
    forall i :: 0 <= i < |c| ==> c[i].1 >= 0
  }

  lemma {:induction false} TotalIsNatural(c: Counts, name: string)
    requires NoneNegative(c)
    ensures Total(c, name) >= 0
  {
    if c != [] {
      TotalIsNatural(c[..|c| - 1], name);
    }
  }

  lemma {:induction false} AddAllNatural(c: Counts, deltas: Counts)
    requires NoneNegative(c) && NoneNegative(deltas)
    ensures NoneNegative(AddAll(c, deltas))
  {
    if deltas != [] {
      AddAllNatural(c, deltas[..|deltas| - 1]);
    }
  }

  predicate AllNatural(s: State) {
    NoneNegative(s.local) && NoneNegative(s.repeated) && (s.pending.Some? ==> NoneNegative(s.pending.value))
  }

  lemma {:induction false} RunStaysNatural(s: State, events: seq<Event>)
    requires Run(s, events).Some? && AllNatural(s) && OnlyUp(events)
    ensures AllNatural(Run(s, events).value)
    decreases events
  {
    if events != [] {
      if events[0].FlushFails? {
        AddAllNatural(s.local, s.pending.value);
      }
      RunStaysNatural(Next(s, events[0]), events[1..]);
    }
  }

  /** Redis, the waiting deltas and the local counters together never fall short of the increments
      made, whatever flushes fail and however far; they exceed them by exactly the deltas that
      failed flushes had applied. */
  lemma NeverUndercounts(events: seq<Event>, name: string)
    requires Run(NOTHING_COUNTED, events).Some? && OnlyUp(events)
    ensures var s := Run(NOTHING_COUNTED, events).value;
            Total(s.redis, name) + PendingOf(s, name) + Total(s.local, name) ==
              Increments(events, name) + Total(s.repeated, name) &&
            Total(s.repeated, name) >= 0
  {
    CountedIsIncrements(NOTHING_COUNTED, events, name);
    RunStaysBalanced(NOTHING_COUNTED, events, name);
    RunStaysNatural(NOTHING_COUNTED, events);
    TotalIsNatural(Run(NOTHING_COUNTED, events).value.repeated, name);
  }

  /** The history is what it says: the sum of the increments in the run. */
  function Increments(events: seq<Event>, name: string): int {
    if events == [] then 0
    else (if events[0].Incr? && events[0].name == name then events[0].value else 0) + Increments(events[1..], name)
  }

  lemma {:induction false} CountedIsIncrements(s: State, events: seq<Event>, name: string)
    requires Run(s, events).Some?
    ensures Total(Run(s, events).value.counted, name) == Total(s.counted, name) + Increments(events, name)
    decreases events
  {
    if events != [] {
      if events[0].Incr? {
        TotalOfOne(s.counted, events[0].name, events[0].value, name);
      }
      CountedIsIncrements(Next(s, events[0]), events[1..], name);
    }
  }

  /** Flushes that fail before Redis applied anything leave the sum exact. */
  lemma {:induction false} ExactWhenFailuresAreClean(s: State, events: seq<Event>, name: string)
    requires Run(s, events).Some? && s.repeated == []
    requires forall i :: 0 <= i < |events| && events[i].FlushFails? ==> events[i].sent == 0
    requires Dicts(s) && Balanced(s, name)
    ensures var s' := Run(s, events).value;
            Total(s'.redis, name) + PendingOf(s', name) + Total(s'.local, name) ==
              Total(s.counted, name) + Increments(events, name)
    decreases events
  {
    CountedIsIncrements(s, events, name);
    RunStaysBalanced(s, events, name);
    NothingRepeated(s, events);
  }

  lemma {:induction false} NothingRepeated(s: State, events: seq<Event>)
    requires Run(s, events).Some? && s.repeated == []
    requires forall i :: 0 <= i < |events| && events[i].FlushFails? ==> events[i].sent == 0
    ensures Run(s, events).value.repeated == []
    decreases events
  {
    if events != [] {
      NothingRepeated(Next(s, events[0]), events[1..]);
    }
  }
}
