/** backend/app/queue/redis_queue.py: the shared list, the in-flight lists, and the two Lua
    scripts that move records between them. */
module RedisQueue {
  import opened Wrappers
  import opened Wire

  type Key = string
  type Lists = map<Key, seq<Payload>>

  const INFLIGHT_PREFIX := "nls:inflight:"

  // Arguments of one RPUSH or LPUSH issued by a script: the scripts cut a batch into pieces of this size.
  const CHUNK := 1000

  /** Redis has no empty lists: a key whose list becomes empty disappears. */
  function ListAt(lists: Lists, k: Key): seq<Payload> {
    if k in lists then lists[k] else []
  }

  function WithList(lists: Lists, k: Key, items: seq<Payload>): Lists {
    if items == [] then lists - {k} else lists[k := items]
  }

  predicate NoEmptyList(lists: Lists) {
    forall k :: k in lists ==> lists[k] != []
  }

  /** The elements LRANGE answers with and LTRIM keeps: both ends are included, and a negative
      index counts from the end. */
  function RangeOf(s: seq<Payload>, start: int, stop: int): seq<Payload> {
    var lo := if start < 0 then Max(0, |s| + start) else start;
    var hi := if stop < 0 then |s| + stop else Min(stop, |s| - 1);
    if lo > hi then [] else s[lo..hi + 1]
  }

  function Reversed(s: seq<Payload>): (r: seq<Payload>)
    ensures |r| == |s|
  {
    if s == [] then [] else Reversed(s[1..]) + [s[0]]
  }

  lemma {:induction false} ReversedSnoc(s: seq<Payload>, x: Payload)
    ensures Reversed(s + [x]) == [x] + Reversed(s)
  {
    if s == [] {
      assert [] + [x] == [x];
    } else {
      assert (s + [x])[0] == s[0] && (s + [x])[1..] == s[1..] + [x];
      ReversedSnoc(s[1..], x);
      SeqAssoc([x], Reversed(s[1..]), [s[0]]);
    }
  }

  lemma {:induction false} ReversedTwice(s: seq<Payload>)
    ensures Reversed(Reversed(s)) == s
  {
    if s != [] {
      ReversedSnoc(Reversed(s[1..]), s[0]);
      ReversedTwice(s[1..]);
      assert s == [s[0]] + s[1..];
    }
  }

  /** Lua's unpack(t, i, j) for a table holding `items` at 1..#items.  The bound is the one that
      keeps the call within Lua's C stack. */
  function Unpack(items: seq<Payload>, i: int, j: int): (args: seq<Payload>)
    requires 1 <= i <= j <= |items|
    requires j - i + 1 <= CHUNK
    ensures 1 <= |args| <= CHUNK
  {
    items[i - 1..j]
  }

  // ----------------------------------------------------------------- specification

  /** What one claim of n records does to the queue list and to an in-flight list. */
  function Claimed(queue: seq<Payload>, n: int): seq<Payload> {
    RangeOf(queue, 0, n - 1)
  }

  function AfterClaim(lists: Lists, queue: Key, inflight: Key, n: int): Lists {
    var items := Claimed(ListAt(lists, queue), n);
    WithList(WithList(lists, queue, ListAt(lists, queue)[|items|..]),
             inflight, ListAt(lists, inflight) + items)
  }

  function AfterRelease(lists: Lists, inflight: Key, queue: Key): Lists {
    WithList(WithList(lists, queue, ListAt(lists, inflight) + ListAt(lists, queue)), inflight, [])
  }

  // ----------------------------------------------------------------- the server

  class Redis {
    var lists: Lists

    ghost predicate Valid()
      reads this
    {
      NoEmptyList(lists)
    }

    constructor ()
      ensures Valid() && lists == map[]
    {
      lists := map[];
    }

    method LRange(k: Key, start: int, stop: int) returns (items: seq<Payload>)
      ensures items == RangeOf(ListAt(lists, k), start, stop)
    {
      items := RangeOf(ListAt(lists, k), start, stop);
    }

    method LTrim(k: Key, start: int, stop: int)
      requires Valid()
      modifies this
      ensures Valid()
      ensures lists == WithList(old(lists), k, RangeOf(old(ListAt(lists, k)), start, stop))
    {
      lists := WithList(lists, k, RangeOf(ListAt(lists, k), start, stop));
    }

    method RPush(k: Key, args: seq<Payload>)
      requires Valid() && args != []
      modifies this
      ensures Valid()
      ensures lists == old(lists)[k := old(ListAt(lists, k)) + args]
    {
      lists := lists[k := ListAt(lists, k) + args];
    }

    /** LPUSH prepends its arguments one by one, so they end up reversed at the head. */
    method LPush(k: Key, args: seq<Payload>)
      requires Valid() && args != []
      modifies this
      ensures Valid()
      ensures lists == old(lists)[k := Reversed(args) + old(ListAt(lists, k))]
    {
      lists := lists[k := Reversed(args) + ListAt(lists, k)];
    }

    method Del(k: Key)
      requires Valid()
      modifies this
      ensures Valid() && lists == WithList(old(lists), k, [])
    {
      lists := lists - {k};
    }

    /** _CLAIM_LUA: one atomic script, walking the batch in pieces of CHUNK. */
    method ClaimScript(queue: Key, inflight: Key, n: int) returns (items: seq<Payload>)
      requires Valid() && queue != inflight
      modifies this
      ensures Valid()
      ensures items == Claimed(old(ListAt(lists, queue)), n)
      ensures lists == AfterClaim(old(lists), queue, inflight, n)
    {
      items := LRange(queue, 0, n - 1);
      var count := |items|;
      if count == 0 {
        ClaimOfNothing(lists, queue, inflight, n);
        return;
      }
      LTrim(queue, count, -1);
      assert RangeOf(old(ListAt(lists, queue)), count, -1) == old(ListAt(lists, queue))[count..];
      PushInPieces(inflight, items);
    }

    /** The loop of _CLAIM_LUA. */
    method PushInPieces(inflight: Key, items: seq<Payload>)
      requires Valid()
      modifies this
      ensures Valid()
      ensures lists == WithList(old(lists), inflight, old(ListAt(lists, inflight)) + items)
    {
      var count := |items|;
      ghost var held := old(ListAt(lists, inflight));
      assert held + items[..0] == held;
      WithListAsIs(lists, inflight);
      var i := 1;
      while i <= count
        invariant 1 <= i <= count + 1
        invariant Valid()
        invariant lists == WithList(old(lists), inflight, held + items[..i - 1])
        decreases count - i
      {
        var stop := Min(i + (CHUNK - 1), count);
        PushedRight(old(lists), inflight, held + items[..i - 1], items[i - 1..stop]);
        RPush(inflight, Unpack(items, i, stop));
        assert items[..i - 1] + items[i - 1..stop] == items[..stop];
        SeqAssoc(held, items[..i - 1], items[i - 1..stop]);
        i := stop + 1;
      }
      assert items[..count] == items;
    }

    /** _REQUEUE_LUA: the batch goes back to the head of the queue, fed in reverse, last piece first. */
    method RequeueScript(inflight: Key, queue: Key) returns (count: nat)
      requires Valid() && queue != inflight
      modifies this
      ensures Valid()
      ensures count == |old(ListAt(lists, inflight))|
      ensures lists == AfterRelease(old(lists), inflight, queue)
    {
      var items := LRange(inflight, 0, -1);
      assert items == ListAt(lists, inflight);
      count := |items|;
      ghost var rest := old(ListAt(lists, queue));
      WithListAsIs(lists, queue);
      assert items[count..] + rest == rest;
      if count == 0 {
        assert items + rest == rest;
        Del(inflight);
        return;
      }
      var i := count;
      while i >= 1
        invariant 0 <= i <= count
        invariant Valid()
        invariant lists == WithList(old(lists), queue, items[i..] + rest)
      {
        var start := Max(i - (CHUNK - 1), 1);
        var chunk: seq<Payload> := [];
        var n := 0;
        var j := i;
        while j >= start
          invariant start - 1 <= j <= i
          invariant n == |chunk| == i - j
          invariant chunk == Reversed(items[j..i])
        {
          n := n + 1;
          assert items[j - 1..i][0] == items[j - 1] && items[j - 1..i][1..] == items[j..i];
          chunk := chunk + [items[j - 1]];
          j := j - 1;
        }
        ReversedChunk(items, rest, start, i);
        assert chunk[..n] == chunk;
        PushedRight(old(lists), queue, items[i..] + rest, Reversed(chunk));
        LPush(queue, Unpack(chunk, 1, n));
        i := start - 1;
      }
      assert items[0..] == items;
      Del(inflight);
    }
  }

  lemma WithListAsIs(lists: Lists, k: Key)
    requires NoEmptyList(lists)
    ensures WithList(lists, k, ListAt(lists, k)) == lists
  {
  }

  lemma ClaimedLengths(lists: Lists, queue: Key, inflight: Key, n: int)
    requires inflight != queue
    ensures var after := AfterClaim(lists, queue, inflight, n);
      var items := Claimed(ListAt(lists, queue), n);
      && ListAt(after, queue) == ListAt(lists, queue)[|items|..]
      && ListAt(after, inflight) == ListAt(lists, inflight) + items
      && forall k :: k != queue && k != inflight ==> ListAt(after, k) == ListAt(lists, k)
  {
  }

  lemma PushedRight(lists: Lists, k: Key, a: seq<Payload>, args: seq<Payload>)
    requires args != []
    ensures ListAt(WithList(lists, k, a), k) == a
    ensures WithList(lists, k, a)[k := a + args] == WithList(lists, k, a + args)
    ensures WithList(lists, k, a)[k := args + a] == WithList(lists, k, args + a)
  {
  }

  /** A piece fed in reverse to LPUSH reappears in order in front of what was pushed before it. */
  lemma ReversedChunk(items: seq<Payload>, rest: seq<Payload>, start: int, i: int)
    requires 1 <= start <= i <= |items|
    ensures Reversed(Reversed(items[start - 1..i])) + (items[i..] + rest) == items[start - 1..] + rest
  {
    ReversedTwice(items[start - 1..i]);
    assert items[start - 1..] == items[start - 1..i] + items[i..];
    SeqAssoc(items[start - 1..i], items[i..], rest);
  }

  lemma ReleasedLengths(lists: Lists, inflight: Key, queue: Key)
    requires inflight != queue
    ensures var after := AfterRelease(lists, inflight, queue);
      && ListAt(after, queue) == ListAt(lists, inflight) + ListAt(lists, queue)
      && ListAt(after, inflight) == []
      && forall k :: k != queue && k != inflight ==> ListAt(after, k) == ListAt(lists, k)
  {
  }

  lemma ClaimOfNothing(lists: Lists, queue: Key, inflight: Key, n: int)
    requires NoEmptyList(lists)
    requires Claimed(ListAt(lists, queue), n) == []
    ensures AfterClaim(lists, queue, inflight, n) == lists
  {
    assert ListAt(lists, queue)[0..] == ListAt(lists, queue);
    assert ListAt(lists, inflight) + [] == ListAt(lists, inflight);
  }

  // ----------------------------------------------------------------- the wrapper

  /** LogQueue: the producer and consumer operations, each one Redis round trip. */
  class LogQueue {
    const r: Redis
    const key: Key
    const maxLen: nat

    constructor (r: Redis, key: Key, maxLen: nat)
      ensures this.r == r && this.key == key && this.maxLen == maxLen
    {
      this.r, this.key, this.maxLen := r, key, maxLen;
    }

    method PushMany(payloads: seq<Payload>) returns (accepted: nat)
      requires r.Valid()
      modifies r
      ensures r.Valid() && accepted == |payloads|
      ensures r.lists == WithList(old(r.lists), key, old(ListAt(r.lists, key)) + payloads)
    {
      if payloads == [] {
        assert ListAt(r.lists, key) + [] == ListAt(r.lists, key);
        return 0;
      }
      r.RPush(key, payloads);
      return |payloads|;
    }

    /** -1 when Redis does not answer. */
    method Length(reachable: bool) returns (n: int)
      ensures n == if reachable then |ListAt(r.lists, key)| else -1
    {
      if !reachable {
        return -1;
      }
      n := |ListAt(r.lists, key)|;
    }

    /** A Redis that does not answer is never over the limit. */
    method OverLimit(reachable: bool) returns (over: bool)
      ensures over <==> reachable && |ListAt(r.lists, key)| > maxLen
    {
      var n := Length(reachable);
      over := n > maxLen;
    }

    method Claim(inflight: Key, count: int) returns (items: seq<Payload>)
      requires r.Valid() && inflight != key
      modifies r
      ensures r.Valid()
      ensures items == Claimed(old(ListAt(r.lists, key)), count)
      ensures r.lists == AfterClaim(old(r.lists), key, inflight, count)
    {
      items := r.ClaimScript(key, inflight, count);
    }

    method Ack(inflight: Key)
      requires r.Valid()
      modifies r
      ensures r.Valid() && r.lists == WithList(old(r.lists), inflight, [])
    {
      r.Del(inflight);
    }

    method Release(inflight: Key) returns (count: nat)
      requires r.Valid() && inflight != key
      modifies r
      ensures r.Valid() && count == |old(ListAt(r.lists, inflight))|
      ensures r.lists == AfterRelease(old(r.lists), inflight, key)
    {
      count := r.RequeueScript(inflight, key);
    }

    /** The body of the recovery loop: a live worker's list is left alone. */
    method ReleaseOrphan(inflight: Key, live: set<string>) returns (n: nat)
      requires r.Valid() && inflight != key
      modifies r
      ensures r.Valid()
      ensures r.lists == if WorkerOf(inflight) in live then old(r.lists)
                         else AfterRelease(old(r.lists), inflight, key)
      ensures |ListAt(r.lists, key)| == n + |old(ListAt(r.lists, key))|
    {
      if WorkerOf(inflight) in live {
        return 0;
      }
      ReleasedLengths(r.lists, inflight, key);
      n := Release(inflight);
    }

    /** recover_orphaned_claims: every scanned list whose worker is not known to live goes back. */
    method RecoverOrphans(scanned: seq<Key>, live: set<string>) returns (recovered: nat)
      requires r.Valid() && key !in scanned
      modifies r
      ensures r.Valid()
      ensures r.lists == AfterRecovery(old(r.lists), key, Orphans(scanned, live))
      ensures recovered == |ListAt(r.lists, key)| - |old(ListAt(r.lists, key))|
    {
      recovered := 0;
      var i := 0;
      assert scanned[..0] == [];
      while i < |scanned|
        invariant 0 <= i <= |scanned| && r.Valid()
        invariant r.lists == AfterRecovery(old(r.lists), key, Orphans(scanned[..i], live))
        invariant recovered == |ListAt(r.lists, key)| - |old(ListAt(r.lists, key))|
      {
        RecoveryStep(old(r.lists), key, scanned, i, live);
        var n := ReleaseOrphan(scanned[i], live);
        recovered := recovered + n;
        i := i + 1;
      }
      assert scanned[..|scanned|] == scanned;
    }
  }

  /** name[len(INFLIGHT_PREFIX):] */
  function WorkerOf(k: Key): string {
    k[Min(|INFLIGHT_PREFIX|, |k|)..]
  }

  /** _live_worker_ids: one id for every process directory, whoever that process is. */
  function LiveWorkerIds(host: string, procEntries: set<string>): set<string> {
    set e | e in procEntries && IsNumeric(e) :: host + "-" + e
  }

  /** The in-flight keys that a recovery releases, in scan order. */
  function Orphans(scanned: seq<Key>, live: set<string>): seq<Key> {
    if scanned == [] then []
    else
      var last := scanned[|scanned| - 1];
      Orphans(scanned[..|scanned| - 1], live) + (if WorkerOf(last) in live then [] else [last])
  }

  function AfterRecovery(lists: Lists, queue: Key, keys: seq<Key>): Lists {
    if keys == [] then lists
    else AfterRelease(AfterRecovery(lists, queue, keys[..|keys| - 1]), keys[|keys| - 1], queue)
  }

  lemma RecoveryStep(lists: Lists, queue: Key, scanned: seq<Key>, i: nat, live: set<string>)
    requires i < |scanned|
    ensures var before := AfterRecovery(lists, queue, Orphans(scanned[..i], live));
      AfterRecovery(lists, queue, Orphans(scanned[..i + 1], live)) ==
      if WorkerOf(scanned[i]) in live then before else AfterRelease(before, scanned[i], queue)
  {
    var todo := Orphans(scanned[..i], live);
    assert scanned[..i + 1][..i] == scanned[..i];
    if WorkerOf(scanned[i]) in live {
      assert todo + [] == todo;
    } else {
      assert (todo + [scanned[i]])[..|todo|] == todo;
    }
  }

  lemma {:induction false} OrphansAre(scanned: seq<Key>, live: set<string>, k: Key)
    ensures k in Orphans(scanned, live) <==> k in scanned && WorkerOf(k) !in live
  {
    if scanned != [] {
      var init := scanned[..|scanned| - 1];
      OrphansAre(init, live, k);
      assert scanned == init + [scanned[|scanned| - 1]];
    }
  }

  // ----------------------------------------------------------------- what the scripts promise

  /** A claim of at least one record takes a prefix of the queue.  A claim of zero would take
      everything, which is why the configured batch size has a lower bound. */
  lemma ClaimTakesPrefix(queue: seq<Payload>, n: int)
    ensures n >= 1 ==> Claimed(queue, n) == queue[..Min(n, |queue|)]
    ensures n == 0 ==> Claimed(queue, n) == queue
    ensures Claimed(queue, n) + queue[|Claimed(queue, n)|..] == queue
  {
    if n >= 1 {
      assert RangeOf(queue, 0, n - 1) == queue[..Min(n, |queue|)];
    }
    if n == 0 {
      assert RangeOf(queue, 0, -1) == queue;
    }
  }

  /** One step of a worker that claims while receivers push. */
  datatype QueueStep = ClaimStep(n: int) | PushStep(batch: seq<Payload>)

  function AfterStep(lists: Lists, queue: Key, inflight: Key, step: QueueStep): Lists {
    match step
    case ClaimStep(n) => AfterClaim(lists, queue, inflight, n)
    case PushStep(batch) => WithList(lists, queue, ListAt(lists, queue) + batch)
  }

  function AfterSteps(lists: Lists, queue: Key, inflight: Key, steps: seq<QueueStep>): Lists
    decreases steps
  {
    if steps == [] then lists
    else AfterSteps(AfterStep(lists, queue, inflight, steps[0]), queue, inflight, steps[1..])
  }

  function PushedBy(step: QueueStep): seq<Payload> {
    match step
    case ClaimStep(_) => []
    case PushStep(batch) => batch
  }

  function Pushed(steps: seq<QueueStep>): seq<Payload> {
    if steps == [] then [] else PushedBy(steps[0]) + Pushed(steps[1..])
  }

  /** The in-flight list followed by the queue: the order in which records will be inserted. */
  function Outstanding(lists: Lists, queue: Key, inflight: Key): seq<Payload> {
    ListAt(lists, inflight) + ListAt(lists, queue)
  }

  lemma StepKeepsOrder(lists: Lists, queue: Key, inflight: Key, step: QueueStep)
    requires queue != inflight
    ensures Outstanding(AfterStep(lists, queue, inflight, step), queue, inflight) ==
            Outstanding(lists, queue, inflight) + PushedBy(step)
  {
    var q, held := ListAt(lists, queue), ListAt(lists, inflight);
    match step
    case ClaimStep(n) =>
      ClaimedLengths(lists, queue, inflight, n);
      ClaimTakesPrefix(q, n);
      SeqAssoc(held, Claimed(q, n), q[|Claimed(q, n)|..]);
      assert (held + q) + [] == held + q;
    case PushStep(batch) => PushKeepsOrder(lists, queue, inflight, batch);
  }

  lemma PushKeepsOrder(lists: Lists, queue: Key, inflight: Key, batch: seq<Payload>)
    requires queue != inflight
    ensures Outstanding(AfterStep(lists, queue, inflight, PushStep(batch)), queue, inflight) ==
            Outstanding(lists, queue, inflight) + batch
  {
    SeqAssoc(ListAt(lists, inflight), ListAt(lists, queue), batch);
  }

  /** Whatever is claimed and pushed, in any number of steps, order is kept and nothing is lost. */
  lemma {:induction false} StepsKeepOrder(lists: Lists, queue: Key, inflight: Key, steps: seq<QueueStep>)
    requires queue != inflight
    ensures Outstanding(AfterSteps(lists, queue, inflight, steps), queue, inflight) ==
            Outstanding(lists, queue, inflight) + Pushed(steps)
    decreases steps
  {
    var start := Outstanding(lists, queue, inflight);
    if steps == [] {
      assert start + [] == start;
    } else {
      var mid := AfterStep(lists, queue, inflight, steps[0]);
      assert Outstanding(mid, queue, inflight) == start + PushedBy(steps[0]) by {
        StepKeepsOrder(lists, queue, inflight, steps[0]);
      }
      StepsKeepOrder(mid, queue, inflight, steps[1..]);
      SeqAssoc(start, PushedBy(steps[0]), Pushed(steps[1..]));
    }
  }

  /** Giving a claim back undoes it: order and content of the queue are as if nothing had been
      claimed. */
  lemma ReleaseUndoesClaims(lists: Lists, queue: Key, inflight: Key, steps: seq<QueueStep>)
    requires queue != inflight && ListAt(lists, inflight) == []
    ensures var after := AfterRelease(AfterSteps(lists, queue, inflight, steps), inflight, queue);
      ListAt(after, queue) == ListAt(lists, queue) + Pushed(steps) && ListAt(after, inflight) == []
  {
    StepsKeepOrder(lists, queue, inflight, steps);
    ReleasedLengths(AfterSteps(lists, queue, inflight, steps), inflight, queue);
    assert [] + ListAt(lists, queue) == ListAt(lists, queue);
  }

  /** The lists of `keys`, the last one first: what a recovery puts in front of the queue. */
  function Stacked(lists: Lists, keys: seq<Key>): seq<Payload> {
    if keys == [] then [] else ListAt(lists, keys[|keys| - 1]) + Stacked(lists, keys[..|keys| - 1])
  }

  /** Recovery of distinct lists empties exactly those lists and loses none of their records. */
  lemma {:induction false} RecoveryMovesEverything(lists: Lists, queue: Key, keys: seq<Key>)
    requires queue !in keys
    requires forall i, j :: 0 <= i < j < |keys| ==> keys[i] != keys[j]
    ensures var after := AfterRecovery(lists, queue, keys);
      && ListAt(after, queue) == Stacked(lists, keys) + ListAt(lists, queue)
      && (forall k :: k in keys ==> ListAt(after, k) == [])
      && (forall k :: k != queue && k !in keys ==> ListAt(after, k) == ListAt(lists, k))
  {
    if keys == [] {
      assert [] + ListAt(lists, queue) == ListAt(lists, queue);
    } else {
      var init, last := keys[..|keys| - 1], keys[|keys| - 1];
      assert keys == init + [last];
      RecoveryMovesEverything(lists, queue, init);
      var before := AfterRecovery(lists, queue, init);
      ReleasedLengths(before, last, queue);
      assert last !in init;
      SeqAssoc(ListAt(lists, last), Stacked(lists, init), ListAt(lists, queue));
    }
  }

  /** A worker named through NLS_WORKER_ID, or on another host, is never among the live ids unless
      its name happens to be this host's name and a process number: its claim is taken for an
      orphan while it is still at work. */
  lemma OnlyLocalPidsAreLive(host: string, procEntries: set<string>, id: string)
    ensures id in LiveWorkerIds(host, procEntries) <==>
            |id| > |host| && id[..|host| + 1] == host + "-" && IsNumeric(id[|host| + 1..])
            && id[|host| + 1..] in procEntries
  {
    if |id| > |host| && id[..|host| + 1] == host + "-" {
      var e := id[|host| + 1..];
      assert id == host + "-" + e;
    }
    forall e | e in procEntries && IsNumeric(e) && id == host + "-" + e
      ensures id[..|host| + 1] == host + "-" && id[|host| + 1..] == e
    {
    }
  }
}
