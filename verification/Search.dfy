/** backend/app/database/clickhouse.py: the WHERE clause a search is translated to, the search with
    its extra row, and the count, over a table given as a sequence of rows. */
module Search {
  import opened Wrappers

  // ----------------------------------------------------------------- rows and requests

  /** The names of EXACT_FILTERS, which are also the columns. */
  datatype Field = RouterIp | PrivateIp | PublicIp | DestIp | PrivatePort | PublicPort | DestPort | Protocol

  datatype Cell = Nothing | Text(s: string) | Number(n: int)

  datatype Log = Log(timestamp: int, subscriber: string,
                     routerIp: Cell, privateIp: Cell, publicIp: Cell, destIp: Cell,
                     privatePort: Cell, publicPort: Cell, destPort: Cell, protocol: Cell)
  {
    function At(f: Field): Cell {
      match f
      case RouterIp => routerIp
      case PrivateIp => privateIp
      case PublicIp => publicIp
      case DestIp => destIp
      case PrivatePort => privatePort
      case PublicPort => publicPort
      case DestPort => destPort
      case Protocol => protocol
    }
  }

  /** exact is a dict: its entries in insertion order. */
  datatype Query = Query(timeFrom: int, timeTo: int, exact: seq<(Field, Cell)>,
                         subscriber: string, partial: bool, limit: nat, offset: nat)

  predicate IsDict(exact: seq<(Field, Cell)>) {
    forall i, j :: 0 <= i < j < |exact| ==> exact[i].0 != exact[j].0
  }

  /** value in (None, "") */
  predicate Blank(c: Cell) {
    c == Nothing || c == Text("")
  }

  // ----------------------------------------------------------------- SQL

  datatype Parameter = TimeFrom | TimeTo | Named(f: Field) | Subscriber

  /** The clauses that are ever built; each names the parameter it binds. */
  datatype Clause = NotBefore | NotAfter | Equals(f: Field) | SubscriberIs | SubscriberHas

  function BoundTo(c: Clause): Parameter {
    match c
    case NotBefore => TimeFrom
    case NotAfter => TimeTo
    case Equals(f) => Named(f)
    case SubscriberIs => Subscriber
    case SubscriberHas => Subscriber
  }

  function Lower(c: char): char {
    if 'A' <= c <= 'Z' then ((c as int) + 32) as char else c
  }

  predicate SameFolded(a: string, b: string) {
    |a| == |b| && forall i :: 0 <= i < |a| ==> Lower(a[i]) == Lower(b[i])
  }

  /** positionCaseInsensitive: 1-based, 0 when absent. */
  function Position(haystack: string, needle: string): nat {
    if |needle| > |haystack| then 0
    else if SameFolded(haystack[..|needle|], needle) then 1
    else
      var rest := Position(haystack[1..], needle);
      if rest == 0 then 0 else rest + 1
  }

  /** The row satisfies the clause under the bound values; nothing satisfies an unbound clause. */
  predicate Holds(c: Clause, bound: map<Parameter, Cell>, row: Log) {
    BoundTo(c) in bound &&
    var value := bound[BoundTo(c)];
    match c
    case NotBefore => value.Number? && row.timestamp >= value.n
    case NotAfter => value.Number? && row.timestamp <= value.n
    case Equals(f) => row.At(f) == value
    case SubscriberIs => value.Text? && row.subscriber == value.s
    case SubscriberHas => value.Text? && Position(row.subscriber, value.s) > 0
  }

  predicate AllHold(clauses: seq<Clause>, bound: map<Parameter, Cell>, row: Log) {
    forall i :: 0 <= i < |clauses| ==> Holds(clauses[i], bound, row)
  }

  // ----------------------------------------------------------------- what a request asks for

  predicate FoundAt(haystack: string, needle: string, i: nat) {
    i + |needle| <= |haystack| && SameFolded(haystack[i..i + |needle|], needle)
  }

  predicate Contains(haystack: string, needle: string) {
    exists i: nat :: i <= |haystack| && FoundAt(haystack, needle, i)
  }

  predicate FieldsMatch(exact: seq<(Field, Cell)>, row: Log) {
    forall i :: 0 <= i < |exact| ==> Blank(exact[i].1) || row.At(exact[i].0) == exact[i].1
  }

  /** Every filter that was filled in agrees with the row. */
  predicate Wanted(q: Query, row: Log) {
    && q.timeFrom <= row.timestamp <= q.timeTo
    && FieldsMatch(q.exact, row)
    && (q.subscriber == "" ||
        (if q.partial then Contains(row.subscriber, q.subscriber) else row.subscriber == q.subscriber))
  }

  lemma {:induction false} PositionMeansContains(haystack: string, needle: string)
    ensures Position(haystack, needle) > 0 <==> Contains(haystack, needle)
  {
    if |needle| > |haystack| {
    } else if SameFolded(haystack[..|needle|], needle) {
      assert haystack[0..0 + |needle|] == haystack[..|needle|];
      assert FoundAt(haystack, needle, 0);
    } else {
      PositionMeansContains(haystack[1..], needle);
      if Contains(haystack, needle) {
        var i: nat :| i <= |haystack| && FoundAt(haystack, needle, i);
        assert i > 0 by { assert haystack[0..0 + |needle|] == haystack[..|needle|]; }
        assert haystack[1..][i - 1..i - 1 + |needle|] == haystack[i..i + |needle|];
        assert FoundAt(haystack[1..], needle, i - 1);
      }
      if Contains(haystack[1..], needle) {
        var i: nat :| i <= |haystack[1..]| && FoundAt(haystack[1..], needle, i);
        assert haystack[i + 1..i + 1 + |needle|] == haystack[1..][i..i + |needle|];
        assert FoundAt(haystack, needle, i + 1);
      }
    }
  }

  /** _where: the conjunction of the clauses, under the bound parameters, selects exactly the rows
      the request asks for. */
  method Where(q: Query) returns (clauses: seq<Clause>, bound: map<Parameter, Cell>)
    requires IsDict(q.exact)
    ensures forall i :: 0 <= i < |clauses| ==> BoundTo(clauses[i]) in bound
    ensures forall row :: AllHold(clauses, bound, row) <==> Wanted(q, row)
  {
    clauses := [NotBefore, NotAfter];
    bound := map[TimeFrom := Number(q.timeFrom), TimeTo := Number(q.timeTo)];
    TimeClauses(q);
    var i := 0;
    while i < |q.exact|
      invariant 0 <= i <= |q.exact|
      invariant Subscriber !in bound
      invariant forall f :: Named(f) in bound ==> exists j :: 0 <= j < i && q.exact[j].0 == f
      invariant forall k :: 0 <= k < |clauses| ==> BoundTo(clauses[k]) in bound
      invariant forall row :: AllHold(clauses, bound, row) <==>
                              q.timeFrom <= row.timestamp <= q.timeTo && FieldsMatch(q.exact[..i], row)
    {
      var (name, value) := q.exact[i];
      FieldsOfPrefix(q.exact, i);
      if !Blank(value) {
        AddClause(clauses, bound, Equals(name), value);
        clauses, bound := clauses + [Equals(name)], bound[Named(name) := value];
      }
      i := i + 1;
    }
    assert q.exact[..i] == q.exact;
    if q.subscriber != "" {
      if q.partial {
        AddClause(clauses, bound, SubscriberHas, Text(q.subscriber));
        clauses := clauses + [SubscriberHas];
      } else {
        AddClause(clauses, bound, SubscriberIs, Text(q.subscriber));
        clauses := clauses + [SubscriberIs];
      }
      bound := bound[Subscriber := Text(q.subscriber)];
      forall row: Log ensures Position(row.subscriber, q.subscriber) > 0 <==> Contains(row.subscriber, q.subscriber) {
        PositionMeansContains(row.subscriber, q.subscriber);
      }
    }
  }

  lemma TimeClauses(q: Query)
    ensures var bound := map[TimeFrom := Number(q.timeFrom), TimeTo := Number(q.timeTo)];
            forall row :: AllHold([NotBefore, NotAfter], bound, row) <==>
                          q.timeFrom <= row.timestamp <= q.timeTo
  {
    var clauses := [NotBefore, NotAfter];
    var bound := map[TimeFrom := Number(q.timeFrom), TimeTo := Number(q.timeTo)];
    forall row ensures AllHold(clauses, bound, row) <==> q.timeFrom <= row.timestamp <= q.timeTo {
      assert Holds(clauses[0], bound, row) <==> q.timeFrom <= row.timestamp;
      assert Holds(clauses[1], bound, row) <==> row.timestamp <= q.timeTo;
    }
  }

  lemma FieldsOfPrefix(exact: seq<(Field, Cell)>, i: nat)
    requires i < |exact|
    ensures forall row :: FieldsMatch(exact[..i + 1], row) <==>
                          FieldsMatch(exact[..i], row) && (Blank(exact[i].1) || row.At(exact[i].0) == exact[i].1)
  {
    assert exact[..i + 1] == exact[..i] + [exact[i]];
  }

  /** A clause on a fresh parameter narrows the conjunction by that clause alone. */
  lemma AddClause(clauses: seq<Clause>, bound: map<Parameter, Cell>, c: Clause, value: Cell)
    requires BoundTo(c) !in bound && forall i :: 0 <= i < |clauses| ==> BoundTo(clauses[i]) in bound
    ensures forall row :: AllHold(clauses + [c], bound[BoundTo(c) := value], row) <==>
                          AllHold(clauses, bound, row) && Holds(c, bound[BoundTo(c) := value], row)
  {
    var bound' := bound[BoundTo(c) := value];
    forall row ensures AllHold(clauses + [c], bound', row) <==> AllHold(clauses, bound, row) && Holds(c, bound', row) {
      assert forall i :: 0 <= i < |clauses| ==> (clauses + [c])[i] == clauses[i];
      assert forall i :: 0 <= i < |clauses| ==> (Holds(clauses[i], bound', row) <==> Holds(clauses[i], bound, row));
      assert (clauses + [c])[|clauses|] == c;
    }
  }

  // ----------------------------------------------------------------- search and count

  function Matching(q: Query, table: seq<Log>): seq<Log> {
    if table == [] then []
    else Matching(q, table[..|table| - 1]) +
         (if Wanted(q, table[|table| - 1]) then [table[|table| - 1]] else [])
  }

  /** The rows the server selects. */
  method Select(clauses: seq<Clause>, bound: map<Parameter, Cell>, q: Query, table: seq<Log>) returns (rows: seq<Log>)
    requires forall row :: AllHold(clauses, bound, row) <==> Wanted(q, row)
    ensures rows == Matching(q, table)
  {
    rows := [];
    for i := 0 to |table|
      invariant rows == Matching(q, table[..i])
    {
      assert table[..i + 1][..i] == table[..i];
      if AllHold(clauses, bound, table[i]) {
        rows := rows + [table[i]];
      }
    }
    assert table[..|table|] == table;
  }

  function Slice<T>(s: seq<T>, offset: nat, limit: nat): (r: seq<T>)
    ensures |r| <= limit
  {
    var start := Min(offset, |s|);
    s[start..Min(start + limit, |s|)]
  }

  /** What search returns of the m matching rows: the page, and whether the server says there are more. */
  function Answer<T>(m: seq<T>, offset: nat, limit: nat, maxRows: nat): (seq<T>, bool) {
    if limit <= maxRows then (Slice(m, offset, limit), offset + limit < |m|)
    else (Slice(m, offset, maxRows + 1), false)
  }

  /** search: one extra row stands in for a count. */
  method FindPage(q: Query, table: seq<Log>, maxRows: nat) returns (rows: seq<Log>, hasMore: bool)
    requires IsDict(q.exact)
    ensures (rows, hasMore) == Answer(Matching(q, table), q.offset, q.limit, maxRows)
  {
    var clauses, bound := Where(q);
    var limit := Min(q.limit, maxRows) + 1;
    var selected := Select(clauses, bound, q, table);
    rows := Slice(selected, q.offset, limit);
    hasMore := |rows| > q.limit;
    if hasMore {
      FrontOfSlice(selected, q.offset, limit, q.limit);
      rows := rows[..q.limit];
    }
  }

  lemma FrontOfSlice<T>(s: seq<T>, offset: nat, limit: nat, n: nat)
    requires n <= |Slice(s, offset, limit)|
    ensures Slice(s, offset, limit)[..n] == Slice(s, offset, n)
  {
    var start := Min(offset, |s|);
    assert s[start..Min(start + limit, |s|)][..n] == s[start..start + n];
  }

  method CountRows(q: Query, table: seq<Log>) returns (n: nat)
    requires IsDict(q.exact)
    ensures n == |Matching(q, table)|
  {
    var clauses, bound := Where(q);
    var selected := Select(clauses, bound, q, table);
    n := |selected|;
  }

  lemma {:induction false} PagingIsNoFilter(q: Query, table: seq<Log>, offset: nat, limit: nat)
    ensures Matching(q.(offset := offset, limit := limit), table) == Matching(q, table)
  {
    if table != [] {
      PagingIsNoFilter(q, table[..|table| - 1], offset, limit);
    }
  }

  /** Exactly the wanted rows, each as often as it is in the table. */
  lemma {:induction false} MatchingAre(q: Query, table: seq<Log>, row: Log)
    ensures multiset(Matching(q, table))[row] == if Wanted(q, row) then multiset(table)[row] else 0
  {
    if table != [] {
      var last := |table| - 1;
      MatchingAre(q, table[..last], row);
      assert table == table[..last] + [table[last]];
    }
  }

  /** Whatever order the server sorts the table into, the same rows match, and the count agrees. */
  lemma OrderIsIrrelevant(q: Query, table: seq<Log>, sorted: seq<Log>)
    requires multiset(table) == multiset(sorted)
    ensures multiset(Matching(q, table)) == multiset(Matching(q, sorted))
    ensures |Matching(q, table)| == |Matching(q, sorted)|
  {
    var a, b := multiset(Matching(q, table)), multiset(Matching(q, sorted));
    forall row ensures a[row] == b[row] {
      MatchingAre(q, table, row);
      MatchingAre(q, sorted, row);
    }
    assert a == b;
    assert |a| == |Matching(q, table)| && |b| == |Matching(q, sorted)|;
  }
}
