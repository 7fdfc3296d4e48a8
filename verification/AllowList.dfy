/** The allow-list's three copies: the routers table, the Redis set, and what each receiver holds
    (backend/app/services/receiver.py, RouterRegistry; backend/app/api/routers_api.py).
    Every step is one stretch of code without an await. */
module AllowList {
  import opened Wrappers

  type Ips = set<string>

  /** An API process rewriting the set, or receiver r doing so in the middle of a refresh. */
  datatype Publisher = Api | Receiver(r: nat)

  datatype Publish = Publish(source: Publisher, ips: Ips)

  /** A receiver that asked Redis for the set and has not had the answer: None is an error. */
  datatype Reading = Reading(r: nat, answer: Option<Ips>)

  /** enabled     the addresses of the enabled routers
      cache       the Redis set, empty when the key is absent
      reading     answers to SMEMBERS on their way to receivers
      publishing  transactions sent or about to be sent
      held        what each receiver accepts
      history     (history) every value `enabled` has had, the current one last
      refreshed   (history) receivers that completed a refresh since the table last changed */
  datatype State = State(enabled: Ips, cache: Ips, reading: seq<Reading>, publishing: seq<Publish>, held: map<nat, Ips>,
                         history: seq<Ips>, refreshed: set<nat>)

  /** A refresh is Asks, with the moment at which Redis takes its snapshot of the set, then Hears, up to
      the await of the publish or to its end, and then PublishEnds: a transaction that Redis did or did not
      carry out. */
  datatype Event =
    | Change(ips: Ips)
    | SyncStarts
    | Asks(r: nat, reachable: bool)
    | Hears(k: nat, tableReadable: bool)
    | PublishEnds(k: nat, applied: bool)

  function HeldBy(s: State, r: nat): Ips {
    if r in s.held then s.held[r] else {}
  }

  predicate Possible(s: State, e: Event) {
    (e.PublishEnds? ==> e.k < |s.publishing|) && (e.Hears? ==> e.k < |s.reading|)
  }

  function Remove<T>(s: seq<T>, k: nat): seq<T>
    requires k < |s|
  {
    s[..k] + s[k + 1..]
  }

  function Hold(s: State, r: nat, ips: Ips): State {
    s.(held := s.held[r := ips], refreshed := s.refreshed + {r})
  }

  function Next(s: State, e: Event): State
    requires Possible(s, e)
  {
    match e
    case Change(ips) => s.(enabled := ips, history := s.history + [ips], refreshed := {})
    case SyncStarts => s.(publishing := s.publishing + [Publish(Api, s.enabled)])
    case Asks(r, reachable) =>
      s.(reading := s.reading + [Reading(r, if reachable then Some(s.cache) else None)])
    case Hears(k, tableReadable) =>
      var reading := s.reading[k];
      var s' := s.(reading := Remove(s.reading, k));
      if reading.answer.Some? && reading.answer.value != {} then Hold(s', reading.r, reading.answer.value)
      else if tableReadable then s'.(publishing := s.publishing + [Publish(Receiver(reading.r), s.enabled)])
      else s'
    case PublishEnds(k, applied) =>
      var p := s.publishing[k];
      var s' := s.(publishing := Remove(s.publishing, k), cache := if applied then p.ips else s.cache);
      if p.source.Api? then s' else Hold(s', p.source.r, p.ips)
  }

  function Run(s: State, events: seq<Event>): Option<State>
    decreases events
  {
    if events == [] then Some(s)
    else if Possible(s, events[0]) then Run(Next(s, events[0]), events[1..])
    else None
  }

  function Boot(enabled: Ips): State {
    State(enabled, {}, [], [], map[], [enabled], {})
  }

  // ----------------------------------------------------------------- the program

  /** The Redis key and the table, as every process sees them. */
  class Shared {
    var cache: Ips
    var enabled: Ips

    constructor (enabled: Ips)
      ensures this.enabled == enabled && cache == {}
    {
      this.enabled, cache := enabled, {};
    }

    /** DEL and SADD in one transaction; SADD is left out of it for the empty set. */
    method Rewrite(ips: Ips, applied: bool)
      modifies `cache
      ensures cache == if applied then ips else old(cache)
    {
      if applied {
        cache := {};
        if ips != {} {
          cache := cache + ips;
        }
      }
    }
  }

  class RouterRegistry {
    const shared: Shared
    var ips: Ips

    constructor (shared: Shared)
      ensures this.shared == shared && ips == {}
    {
      this.shared := shared;
      ips := {};
    }

    /** refresh, nothing else happening while it waits. */
    method Refresh(reachable: bool, tableReadable: bool, applied: bool)
      modifies this, shared
      ensures shared.enabled == old(shared.enabled)
      ensures ips == if reachable && old(shared.cache) != {} then old(shared.cache)
                     else if tableReadable then shared.enabled
                     else old(ips)
      ensures shared.cache == if !(reachable && old(shared.cache) != {}) && tableReadable && applied
                              then shared.enabled else old(shared.cache)
      ensures var s := old(State(shared.enabled, shared.cache, [], [], map[0 := ips], [shared.enabled], {}));
              ips == HeldBy(Refreshed(s, 0, reachable, tableReadable, applied), 0) &&
              shared.cache == Refreshed(s, 0, reachable, tableReadable, applied).cache
    {
      var members: Option<Ips> := if reachable then Some(shared.cache) else None;
      if members.None? || members.value == {} {
        if !tableReadable {
          return;
        }
        members := Some(shared.enabled);
        shared.Rewrite(members.value, applied);
      }
      if members.value != ips {
        ips := members.value;
      }
    }
  }

  predicate Still(s: State) {
    s.reading == [] && s.publishing == []
  }

  /** A refresh of receiver r during which nothing else happens. */
  function Refreshed(s: State, r: nat, reachable: bool, tableReadable: bool, applied: bool): State
    requires Still(s)
  {
    var s1 := Next(s, Asks(r, reachable));
    var s2 := Next(s1, Hears(0, tableReadable));
    if s2.publishing == [] then s2 else Next(s2, PublishEnds(0, applied))
  }

  // ----------------------------------------------------------------- only former truths are held

  predicate Former(s: State, ips: Ips) {
    ips == {} || ips in s.history
  }

  predicate FormerAnswer(s: State, reading: Reading) {
    reading.answer.Some? ==> Former(s, reading.answer.value)
  }

  predicate AllFormer(s: State) {
    && s.history != [] && s.enabled == s.history[|s.history| - 1]
    && Former(s, s.cache)
    && (forall k :: 0 <= k < |s.publishing| ==> Former(s, s.publishing[k].ips))
    && (forall k :: 0 <= k < |s.reading| ==> FormerAnswer(s, s.reading[k]))
    && (forall r :: r in s.held ==> Former(s, s.held[r]))
  }

  lemma StepKeepsFormer(s: State, e: Event)
    requires Possible(s, e) && AllFormer(s)
    ensures AllFormer(Next(s, e))
  {
    var s' := Next(s, e);
    assert s.enabled in s.history;
    forall ips | Former(s, ips) ensures Former(s', ips) {
    }
    if e.PublishEnds? {
      assert Former(s, s.publishing[e.k].ips);
    } else if e.Hears? {
      assert FormerAnswer(s, s.reading[e.k]);
    }
  }

  /** Whatever races and whatever fails, a receiver accepts nobody, or exactly the routers that were
      enabled together at some moment. */
  lemma {:induction false} HeldSetsAreHistorical(s: State, events: seq<Event>, r: nat)
    requires AllFormer(s) && Run(s, events).Some?
    ensures AllFormer(Run(s, events).value) && Former(Run(s, events).value, HeldBy(Run(s, events).value, r))
    decreases events
  {
    if events != [] {
      StepKeepsFormer(s, events[0]);
      HeldSetsAreHistorical(Next(s, events[0]), events[1..], r);
    }
  }

  // ----------------------------------------------------------------- when the copies agree again

  /** The cache, every publish and every answer on its way carry the present list or are harmless: no set, an
      error, or a publish by an API process that empties the cache.  A receiver holds what it publishes, so
      its own must carry the present list. */
  predicate Settled(s: State) {
    && Right(s, s.cache)
    && (forall k :: 0 <= k < |s.publishing| ==> RightPublish(s, s.publishing[k]))
    && (forall k :: 0 <= k < |s.reading| ==> s.reading[k].answer.None? || Right(s, s.reading[k].answer.value))
  }

  predicate Right(s: State, ips: Ips) {
    ips == {} || ips == s.enabled
  }

  predicate RightPublish(s: State, p: Publish) {
    p.ips == s.enabled || (p.source.Api? && p.ips == {})
  }

  predicate NoChange(events: seq<Event>) {
    forall i :: 0 <= i < |events| ==> !events[i].Change?
  }

  predicate RefreshedHoldIt(s: State) {
    forall r :: r in s.refreshed ==> HeldBy(s, r) == s.enabled
  }

  lemma StepStaysSettled(s: State, e: Event)
    requires Possible(s, e) && !e.Change? && Settled(s) && RefreshedHoldIt(s)
    ensures Settled(Next(s, e)) && RefreshedHoldIt(Next(s, e))
  {
    if e.PublishEnds? {
      assert RightPublish(s, s.publishing[e.k]);
    }
  }

  lemma {:induction false} RunStaysSettled(s: State, events: seq<Event>)
    requires Settled(s) && RefreshedHoldIt(s) && NoChange(events) && Run(s, events).Some?
    ensures var s' := Run(s, events).value;
            s'.enabled == s.enabled && Settled(s') && RefreshedHoldIt(s')
    decreases events
  {
    if events != [] {
      StepStaysSettled(s, events[0]);
      RunStaysSettled(Next(s, events[0]), events[1..]);
    }
  }

  lemma RunStep(s: State, e: Event, rest: seq<Event>)
    requires Possible(s, e)
    ensures Run(s, [e] + rest) == Run(Next(s, e), rest)
  {
    assert ([e] + rest)[0] == e && ([e] + rest)[1..] == rest;
  }

  /** Any receiver that refreshes takes a wrong cache over. */
  lemma WrongCacheSpreads(s: State) returns (events: seq<Event>)
    requires !Right(s, s.cache)
    ensures NoChange(events) && Run(s, events).Some? && !RefreshedHoldIt(Run(s, events).value)
  {
    var k := |s.reading|;
    var s1 := Next(s, Asks(0, true));
    assert s1.reading[k] == Reading(0, Some(s.cache));
    var s2 := Next(s1, Hears(k, true));
    RunStep(s1, Hears(k, true), []);
    RunStep(s, Asks(0, true), [Hears(k, true)] + []);
    events := [Asks(0, true)] + ([Hears(k, true)] + []);
    assert 0 in s2.refreshed && HeldBy(s2, 0) == s.cache;
  }

  /** So does anything else that is wrong and on its way. */
  lemma UnsettledGoesWrong(s: State) returns (events: seq<Event>)
    requires !Settled(s)
    ensures NoChange(events) && Run(s, events).Some? && !RefreshedHoldIt(Run(s, events).value)
  {
    if !Right(s, s.cache) {
      events := WrongCacheSpreads(s);
    } else if k: nat :| k < |s.reading| && s.reading[k].answer.Some? && !Right(s, s.reading[k].answer.value) {
      var s1 := Next(s, Hears(k, true));
      RunStep(s, Hears(k, true), []);
      events := [Hears(k, true)] + [];
      assert s.reading[k].r in s1.refreshed && HeldBy(s1, s.reading[k].r) == s.reading[k].answer.value;
    } else {
      var k: nat :| k < |s.publishing| && !RightPublish(s, s.publishing[k]);
      var p, s1 := s.publishing[k], Next(s, PublishEnds(k, true));
      events := [];
      if p.source.Api? {
        events := WrongCacheSpreads(s1);
      } else {
        assert p.source.r in s1.refreshed && HeldBy(s1, p.source.r) == p.ips;
      }
      RunStep(s, PublishEnds(k, true), events);
      events := [PublishEnds(k, true)] + events;
    }
  }

  /** Every refresh completed before the next change, in any run and whatever fails in it, yields the present
      list if and only if things are settled. */
  lemma SettledRefreshes(s: State)
    requires RefreshedHoldIt(s)
    ensures (forall events :: NoChange(events) && Run(s, events).Some? ==> RefreshedHoldIt(Run(s, events).value))
            <==> Settled(s)
  {
    if Settled(s) {
      forall events | NoChange(events) && Run(s, events).Some? ensures RefreshedHoldIt(Run(s, events).value) {
        RunStaysSettled(s, events);
      }
    } else {
      var events := UnsettledGoesWrong(s);
    }
  }

  /** That the answers count is no formality: one that was taken before the last change and arrives after its
      publish brings the old list back, although cache and table agree. */
  lemma OldAnswerComesLate(before: Ips, after: Ips, r: nat)
    requires before != {} && before != after
    ensures var s := State(after, after, [Reading(r, Some(before))], [], map[], [before, after], {});
      HeldBy(Next(s, Hears(0, true)), r) == before && !Settled(s)
  {
    var s := State(after, after, [Reading(r, Some(before))], [], map[], [before, after], {});
    assert !Right(s, s.reading[0].answer.value);
  }

  /** A run that comes to that state. */
  lemma OldAnswerIsOnItsWay(before: Ips, after: Ips, r: nat)
    requires before != {} && before != after
    ensures var events := [SyncStarts] + ([PublishEnds(0, true)] + ([Asks(r, true)] + ([Change(after)] +
                          ([SyncStarts] + ([PublishEnds(0, true)] + [])))));
      Run(Boot(before), events) == Some(State(after, after, [Reading(r, Some(before))], [], map[], [before, after], {}))
  {
    var e6: seq<Event> := [];
    var e5 := [PublishEnds(0, true)] + e6;
    var e4 := [SyncStarts] + e5;
    var e3 := [Change(after)] + e4;
    var e2 := [Asks(r, true)] + e3;
    var e1 := [PublishEnds(0, true)] + e2;
    var s0 := Boot(before);
    RunStep(s0, SyncStarts, e1);
    var s1 := Next(s0, SyncStarts);
    RunStep(s1, PublishEnds(0, true), e2);
    var s2 := Next(s1, PublishEnds(0, true));
    RunStep(s2, Asks(r, true), e3);
    var s3 := Next(s2, Asks(r, true));
    assert s3.reading == [Reading(r, Some(before))];
    RunStep(s3, Change(after), e4);
    var s4 := Next(s3, Change(after));
    RunStep(s4, SyncStarts, e5);
    var s5 := Next(s4, SyncStarts);
    assert s5.publishing == [Publish(Api, after)];
    RunStep(s5, PublishEnds(0, true), e6);
    var s6 := Next(s5, PublishEnds(0, true));
    assert s6.history == [before, after] && s6.publishing == [];
    assert s6 == State(after, after, [Reading(r, Some(before))], [], map[], [before, after], {});
  }

  /** With nothing on its way, a refresh yields the present list if and only if: Redis answers with a set,
      and it is the present list; or Redis is down or has no set, and the table can be read, or the
      receiver already had the present list, which it keeps. */
  lemma RefreshYieldsPresentIff(s: State, r: nat, reachable: bool, tableReadable: bool, applied: bool)
    requires Still(s)
    ensures HeldBy(Refreshed(s, r, reachable, tableReadable, applied), r) == s.enabled <==>
            if reachable && s.cache != {} then s.cache == s.enabled else tableReadable || HeldBy(s, r) == s.enabled
    ensures Still(Refreshed(s, r, reachable, tableReadable, applied))
  {
  }

  datatype Visit = Visit(r: nat, tableReadable: bool, applied: bool)

  function RefreshAll(s: State, visits: seq<Visit>): (s': State)
    requires Still(s)
    ensures Still(s') && s'.enabled == s.enabled
    decreases visits
  {
    if visits == [] then s
    else RefreshAll(Refreshed(s, visits[0].r, true, visits[0].tableReadable, visits[0].applied), visits[1..])
  }

  /** While Redis answers, a wrong cache is never repaired by refreshing: every receiver that refreshes takes it
      over. */
  lemma {:induction false} WrongCacheStays(s: State, visits: seq<Visit>, i: nat)
    requires Still(s) && s.cache != {} && s.cache != s.enabled && i < |visits|
    ensures var s' := RefreshAll(s, visits);
            s'.cache == s.cache && HeldBy(s', visits[i].r) == s.cache != s'.enabled
    decreases visits
  {
    VisitsTakeCache(s, visits, i);
  }

  lemma {:induction false} VisitsTakeCache(s: State, visits: seq<Visit>, i: int)
    requires Still(s) && s.cache != {} && 0 <= i < |visits|
    ensures RefreshAll(s, visits).cache == s.cache && HeldBy(RefreshAll(s, visits), visits[i].r) == s.cache
    decreases visits
  {
    var s1 := Refreshed(s, visits[0].r, true, visits[0].tableReadable, visits[0].applied);
    if i > 0 {
      VisitsTakeCache(s1, visits[1..], i - 1);
    } else {
      CacheIsKept(s1, visits[1..], visits[0].r);
    }
  }

  lemma {:induction false} CacheIsKept(s: State, visits: seq<Visit>, r: nat)
    requires Still(s) && s.cache != {} && HeldBy(s, r) == s.cache
    ensures RefreshAll(s, visits).cache == s.cache && HeldBy(RefreshAll(s, visits), r) == s.cache
    decreases visits
  {
    if visits != [] {
      CacheIsKept(Refreshed(s, visits[0].r, true, visits[0].tableReadable, visits[0].applied), visits[1..], r);
    }
  }

  // ----------------------------------------------------------------- how a disabled router stays

  /** A publish that fails is not made up for: receivers prefer the old cache to the table. */
  lemma FailedPublishKeepsOldList(before: Ips, after: Ips, r: nat, tableReadable: bool, applied: bool)
    requires before != {} && before != after
    ensures var events := [SyncStarts] + ([PublishEnds(0, true)] + ([Change(after)] + ([SyncStarts] +
                          ([PublishEnds(0, false)] + []))));
            Run(Boot(before), events).Some? &&
            var s := Run(Boot(before), events).value;
            && Still(s) && s.enabled == after && s.cache == before
            && HeldBy(Refreshed(s, r, true, tableReadable, applied), r) == before
  {
    var e5: seq<Event> := [];
    var e4 := [PublishEnds(0, false)] + e5;
    var e3 := [SyncStarts] + e4;
    var e2 := [Change(after)] + e3;
    var e1 := [PublishEnds(0, true)] + e2;
    var s0 := Boot(before);
    RunStep(s0, SyncStarts, e1);
    var s1 := Next(s0, SyncStarts);
    RunStep(s1, PublishEnds(0, true), e2);
    var s2 := Next(s1, PublishEnds(0, true));
    RunStep(s2, Change(after), e3);
    var s3 := Next(s2, Change(after));
    RunStep(s3, SyncStarts, e4);
    var s4 := Next(s3, SyncStarts);
    RunStep(s4, PublishEnds(0, false), e5);
  }

  /** Two changes whose publishes overtake each other leave the older list in the cache. */
  lemma RacingPublishesKeepOldList(before: Ips, after: Ips, r: nat, tableReadable: bool, applied: bool)
    requires before != {} && before != after
    ensures var events := [SyncStarts] + ([Change(after)] + ([SyncStarts] + ([PublishEnds(1, true)] +
                          ([PublishEnds(0, true)] + []))));
            Run(Boot(before), events).Some? &&
            var s := Run(Boot(before), events).value;
            && Still(s) && s.enabled == after && s.cache == before
            && HeldBy(Refreshed(s, r, true, tableReadable, applied), r) == before
  {
    var e5: seq<Event> := [];
    var e4 := [PublishEnds(0, true)] + e5;
    var e3 := [PublishEnds(1, true)] + e4;
    var e2 := [SyncStarts] + e3;
    var e1 := [Change(after)] + e2;
    var s0 := Boot(before);
    RunStep(s0, SyncStarts, e1);
    var s1 := Next(s0, SyncStarts);
    RunStep(s1, Change(after), e2);
    var s2 := Next(s1, Change(after));
    RunStep(s2, SyncStarts, e3);
    var s3 := Next(s2, SyncStarts);
    RunStep(s3, PublishEnds(1, true), e4);
    var s4 := Next(s3, PublishEnds(1, true));
    assert s4.publishing == [Publish(Api, before)];
    RunStep(s4, PublishEnds(0, true), e5);
  }
}
