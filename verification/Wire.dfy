/** What travels through the Redis queue.  msgpack itself is not modelled: a payload is
    described by what unpacking it would yield. */
module Wire {
  import opened Wrappers

  /** One msgpack value of a row.  Other: bytes, lists, maps, and the floats that are no real numbers. */
  datatype Value = Num(n: int) | Float(x: real) | Flag(b: bool) | Text(s: string) | Null | Other

  type Row = seq<Value>

  /** Junk is anything msgpack refuses or unpacks to something other than a list. */
  datatype Payload = Junk(raw: seq<int>) | Packed(items: Row)

  const ROW_WIDTH := 11

  // The epoch seconds that datetime.fromtimestamp converts (years 1 to 9999, UTC).
  const TIMESTAMP_MIN := -62135596800
  const TIMESTAMP_MAX := 253402300799

  function Encode(row: Row): Payload {
    Packed(row)
  }

  function Decode(p: Payload): Option<Row> {
    if p.Packed? && |p.items| == ROW_WIDTH then Some(p.items) else None
  }

  predicate Decodable(p: Payload) {
    Decode(p).Some?
  }

  const MICROS := 1_000_000

  /** The nearest integer, the even one of two. */
  function HalfEven(x: real): int {
    var n := x.Floor;
    if x - n as real < 0.5 || (x - n as real == 0.5 && n % 2 == 0) then n else n + 1
  }

  /** What datetime.fromtimestamp makes of a value, in microseconds; None when it raises.  Python's booleans are
      integers. */
  function Moment(v: Value): Option<int> {
    match v
    case Num(n) => InYears(n * MICROS)
    case Float(x) => InYears(HalfEven(x * MICROS as real))
    case Flag(b) => Some(if b then MICROS else 0)
    case _ => None
  }

  function InYears(us: int): Option<int> {
    if TIMESTAMP_MIN * MICROS <= us < (TIMESTAMP_MAX + 1) * MICROS then Some(us) else None
  }

  /** The first field can be turned into a datetime. */
  predicate HasTimestamp(row: Row) {
    row != [] && Moment(row[0]).Some?
  }

  /** Decodes, yet makes the worker's timestamp conversion raise. */
  predicate Poison(p: Payload) {
    Decodable(p) && !HasTimestamp(Decode(p).value)
  }

  predicate HasPoison(batch: seq<Payload>) {
    exists i :: 0 <= i < |batch| && Poison(batch[i])
  }

  /** The payloads of a batch that become rows of an insert. */
  function Rows(batch: seq<Payload>): seq<Payload> {
    if batch == [] then []
    else (if Decodable(batch[0]) then [batch[0]] else []) + Rows(batch[1..])
  }

  /** How often p occurs in s. */
  function Count(s: seq<Payload>, p: Payload): nat {
    if s == [] then 0 else (if s[0] == p then 1 else 0) + Count(s[1..], p)
  }

  lemma {:induction false} CountConcat(a: seq<Payload>, b: seq<Payload>, p: Payload)
    ensures Count(a + b, p) == Count(a, p) + Count(b, p)
  {
    if a == [] {
      assert a + b == b;
    } else {
      CountConcat(a[1..], b, p);
      assert (a + b)[1..] == a[1..] + b;
    }
  }

  lemma {:induction false} CountIsMultiplicity(s: seq<Payload>, p: Payload)
    ensures Count(s, p) == multiset(s)[p]
  {
    if s != [] {
      CountIsMultiplicity(s[1..], p);
      assert s == [s[0]] + s[1..];
      assert multiset(s) == multiset{s[0]} + multiset(s[1..]);
    }
  }

  /** Occurrences as a row: a payload that does not decode never becomes one. */
  function RowCount(s: seq<Payload>, p: Payload): nat {
    if Decodable(p) then Count(s, p) else 0
  }

  /** Rows keeps every decodable payload as often as it occurs, and nothing else. */
  lemma {:induction false} CountRows(batch: seq<Payload>, p: Payload)
    ensures Count(Rows(batch), p) == RowCount(batch, p)
  {
    if batch != [] {
      CountRows(batch[1..], p);
      CountConcat(if Decodable(batch[0]) then [batch[0]] else [], Rows(batch[1..]), p);
    }
  }

  lemma {:induction false} RowsOfConcat(a: seq<Payload>, b: seq<Payload>)
    ensures Rows(a + b) == Rows(a) + Rows(b)
  {
    if a == [] {
      assert a + b == b;
    } else {
      RowsOfConcat(a[1..], b);
      assert (a + b)[0] == a[0] && (a + b)[1..] == a[1..] + b;
      SeqAssoc(if Decodable(a[0]) then [a[0]] else [], Rows(a[1..]), Rows(b));
    }
  }
}
