/** The address segments of a RouterOS line: what the four patterns of backend/app/parser/patterns.py
    look for, said without any matcher. */
module Segments {
  import opened Wrappers
  import opened Regex
  import opened Addresses
  import opened Patterns

  datatype Shape = NatPorts | NatNoPorts | PlainPorts | PlainNoPorts

  /** The texts of the endpoints, as the parser fills them in: without ports the ports are "0",
      without translation the public side is the private side.  `blanks` stands between NAT and the
      parenthesis. */
  datatype Endpoints = Endpoints(
    blanks: string, pri: string, priPort: string, pub: string, pubPort: string, dst: string, dstPort: string)

  function PatternOf(shape: Shape): Pattern {
    match shape
    case NatPorts => SRCNAT_PORTS
    case NatNoPorts => SRCNAT_NOPORTS
    case PlainPorts => PLAIN_PORTS
    case PlainNoPorts => PLAIN_NOPORTS
  }

  /** How a segment is spelled; the empty pieces belong to the look-arounds. */
  function Pieces(shape: Shape, e: Endpoints): seq<string> {
    match shape
    case NatPorts => ["NAT", e.blanks, "(", e.pri, ":", e.priPort, "->", e.pub, ":", e.pubPort, ")->", e.dst, ":", e.dstPort]
    case NatNoPorts => ["NAT", e.blanks, "(", e.pri, "->", e.pub, ")->", e.dst, ""]
    case PlainPorts => ["", e.pri, ":", e.priPort, "->", e.dst, ":", e.dstPort]
    case PlainNoPorts => ["", e.pri, "->", e.dst, ""]
  }

  predicate WellFormed(shape: Shape, e: Endpoints) {
    && IsIPv4(e.pri) && IsIPv4(e.pub) && IsIPv4(e.dst) && IsBlank(e.blanks)
    && (if shape.NatPorts? || shape.PlainPorts? then IsPort(e.priPort) && IsPort(e.pubPort) && IsPort(e.dstPort)
        else e.priPort == e.pubPort == e.dstPort == "0")
    && (shape.PlainPorts? || shape.PlainNoPorts? ==> e.blanks == "" && e.pub == e.pri && e.pubPort == e.priPort)
  }

  predicate CharIn(s: string, i: int, chars: set<char>) {
    0 <= i < |s| && s[i] in chars
  }

  /** Where item k of the segment begins. */
  function Mark(shape: Shape, i: nat, e: Endpoints, k: nat): nat
    requires k <= |Pieces(shape, e)|
  {
    Pos(i, Pieces(shape, e), k)
  }

  /** The segment stands in s at i, and its addresses do not run into others. */
  predicate SegmentAt(shape: Shape, s: string, i: nat, e: Endpoints) {
    && i <= |s| && Spelt(s, i, Pieces(shape, e)) && WellFormed(shape, e)
    && match shape
       case NatPorts => true
       case NatNoPorts => !CharIn(s, Mark(shape, i, e, 8), ADDRESS_CHARS + {':'})
       case PlainPorts => !CharIn(s, i - 1, ADDRESS_CHARS)
       case PlainNoPorts => !CharIn(s, i - 1, ADDRESS_CHARS) && !CharIn(s, Mark(shape, i, e, 4), ADDRESS_CHARS + {':'})
  }

  /** The last port is read to its end: at most five digits. */
  predicate Complete(shape: Shape, s: string, i: nat, e: Endpoints) {
    (shape.NatPorts? ==> PortComplete(s, Mark(shape, i, e, 13), Mark(shape, i, e, 14))) &&
    (shape.PlainPorts? ==> PortComplete(s, Mark(shape, i, e, 7), Mark(shape, i, e, 8)))
  }

  /** The endpoints among the pieces of a segment. */
  function FromPieces(shape: Shape, ts: seq<string>): Endpoints
    requires |ts| == |PatternOf(shape)|
  {
    match shape
    case NatPorts => Endpoints(ts[1], ts[3], ts[5], ts[7], ts[9], ts[11], ts[13])
    case NatNoPorts => Endpoints(ts[1], ts[3], "0", ts[5], "0", ts[7], "0")
    case PlainPorts => Endpoints("", ts[1], ts[3], ts[1], ts[3], ts[5], ts[7])
    case PlainNoPorts => Endpoints("", ts[1], "0", ts[1], "0", ts[3], "0")
  }

  // ----------------------------------------------------------------- segments and matches

  lemma PatternsArePlain(shape: Shape)
    ensures Regex.Plain(PatternOf(shape))
  {
    IPv4Reads("");
  }

  /** The kinds of elements the address patterns are made of. */
  datatype Kind = Lit(text: string) | Address | Port | Blanks | NotAfter | NotBefore

  function KindsOf(shape: Shape): seq<Kind> {
    match shape
    case NatPorts =>
      [Lit("NAT"), Blanks, Lit("("), Address, Lit(":"), Port, Lit("->"), Address, Lit(":"), Port,
       Lit(")->"), Address, Lit(":"), Port]
    case NatNoPorts => [Lit("NAT"), Blanks, Lit("("), Address, Lit("->"), Address, Lit(")->"), Address, NotAfter]
    case PlainPorts => [NotBefore, Address, Lit(":"), Port, Lit("->"), Address, Lit(":"), Port]
    case PlainNoPorts => [NotBefore, Address, Lit("->"), Address, NotAfter]
  }

  function ItemOf(kind: Kind): Item {
    match kind
    case Lit(text) => Literal(text)
    case Address => IPV4
    case Port => PORT
    case Blanks => BLANKS
    case NotAfter => NOT_ADDR_AFTER
    case NotBefore => NOT_ADDR_BEFORE
  }

  predicate KindTakes(kind: Kind, s: string, i: nat, t: string) {
    match kind
    case Lit(text) => t == text
    case Address => IsIPv4(t)
    case Port => IsPort(t)
    case Blanks => IsBlank(t)
    case NotAfter => i <= |s| && t == "" && !CharIn(s, i, ADDRESS_CHARS + {':'})
    case NotBefore => i <= |s| && t == "" && !CharIn(s, i - 1, ADDRESS_CHARS)
  }

  lemma ItemTakes(kind: Kind, s: string, i: nat, t: string)
    ensures Takes(ItemOf(kind), s, i, t) <==> KindTakes(kind, s, i, t)
  {
    match kind
    case Lit(text) => LiteralReads(text, t);
    case Address => IPv4Reads(t);
    case Port => PortReads(t);
    case Blanks => BlanksRead(t);
    case NotAfter =>
    case NotBefore =>
  }

  predicate KindsTake(kinds: seq<Kind>, s: string, i: nat, ts: seq<string>) {
    |ts| == |kinds| && forall k :: 0 <= k < |kinds| ==> KindTakes(kinds[k], s, Pos(i, ts, k), ts[k])
  }

  lemma PatternItems(shape: Shape)
    ensures |PatternOf(shape)| == |KindsOf(shape)|
    ensures forall k :: 0 <= k < |KindsOf(shape)| ==> PatternOf(shape)[k] == ItemOf(KindsOf(shape)[k])
  {
  }

  lemma PatternTakes(shape: Shape, s: string, i: nat, ts: seq<string>)
    ensures TakesAll(PatternOf(shape), s, i, ts) <==> KindsTake(KindsOf(shape), s, i, ts)
  {
    var p, kinds := PatternOf(shape), KindsOf(shape);
    PatternItems(shape);
    TakesEach(p, s, i, ts);
    if |ts| == |p| {
      forall k | 0 <= k < |p|
        ensures Takes(p[k], s, Pos(i, ts, k), ts[k]) <==> KindTakes(kinds[k], s, Pos(i, ts, k), ts[k])
      {
        ItemTakes(kinds[k], s, Pos(i, ts, k), ts[k]);
      }
    }
  }

  /** A segment is a way for the pattern to match. */
  lemma SegmentFits(shape: Shape, s: string, i: nat, e: Endpoints)
    requires SegmentAt(shape, s, i, e)
    ensures Fits(PatternOf(shape), s, i, Cuts(i, Pieces(shape, e)))
  {
    var ts := Pieces(shape, e);
    SegmentKinds(shape, s, i, e);
    PatternsArePlain(shape);
    PatternTakes(shape, s, i, ts);
    SpellingFits(PatternOf(shape), s, i, ts);
  }

  lemma SegmentKinds(shape: Shape, s: string, i: nat, e: Endpoints)
    requires SegmentAt(shape, s, i, e)
    ensures KindsTake(KindsOf(shape), s, i, Pieces(shape, e))
  {
    match shape
    case NatPorts => NatPortsKinds(s, i, e);
    case NatNoPorts => NatNoPortsKinds(s, i, e);
    case PlainPorts => PlainPortsKinds(s, i, e);
    case PlainNoPorts => PlainNoPortsKinds(s, i, e);
  }

  lemma NatPortsKinds(s: string, i: nat, e: Endpoints)
    requires SegmentAt(NatPorts, s, i, e)
    ensures KindsTake(KindsOf(NatPorts), s, i, Pieces(NatPorts, e))
  {
    var ts, kinds := Pieces(NatPorts, e), KindsOf(NatPorts);
    forall k | 0 <= k < 14 ensures KindTakes(kinds[k], s, Pos(i, ts, k), ts[k]) {
      if k < 4 {
      } else if k < 8 {
      } else if k < 11 {
      } else {
      }
    }
  }

  lemma NatNoPortsKinds(s: string, i: nat, e: Endpoints)
    requires SegmentAt(NatNoPorts, s, i, e)
    ensures KindsTake(KindsOf(NatNoPorts), s, i, Pieces(NatNoPorts, e))
  {
    SpeltPieces(s, i, Pieces(NatNoPorts, e), 8);
  }

  lemma PlainPortsKinds(s: string, i: nat, e: Endpoints)
    requires SegmentAt(PlainPorts, s, i, e)
    ensures KindsTake(KindsOf(PlainPorts), s, i, Pieces(PlainPorts, e))
  {
  }

  lemma PlainNoPortsKinds(s: string, i: nat, e: Endpoints)
    requires SegmentAt(PlainNoPorts, s, i, e)
    ensures KindsTake(KindsOf(PlainNoPorts), s, i, Pieces(PlainNoPorts, e))
  {
    SpeltPieces(s, i, Pieces(PlainNoPorts, e), 4);
  }

  /** Every way for the pattern to match is a segment. */
  lemma FitIsSegment(shape: Shape, s: string, i: nat, cuts: seq<nat>)
    requires i <= |s| && Fits(PatternOf(shape), s, i, cuts)
    ensures |cuts| == |PatternOf(shape)|
    ensures var e := FromPieces(shape, Texts(s, i, cuts));
      SegmentAt(shape, s, i, e) && Pieces(shape, e) == Texts(s, i, cuts) && Cuts(i, Pieces(shape, e)) == cuts
  {
    var ts := Texts(s, i, cuts);
    PatternsArePlain(shape);
    FitSpells(PatternOf(shape), s, i, cuts);
    PatternTakes(shape, s, i, ts);
    KindsAreSegment(shape, s, i, ts);
  }

  lemma KindsAreSegment(shape: Shape, s: string, i: nat, ts: seq<string>)
    requires i <= |s| && Spelt(s, i, ts) && KindsTake(KindsOf(shape), s, i, ts)
    ensures |ts| == |PatternOf(shape)|
    ensures Pieces(shape, FromPieces(shape, ts)) == ts
    ensures SegmentAt(shape, s, i, FromPieces(shape, ts))
  {
    var kinds := KindsOf(shape);
    assert |ts| == |kinds|;
    assert forall k :: 0 <= k < |kinds| ==> KindTakes(kinds[k], s, Pos(i, ts, k), ts[k]);
    match shape
    case NatPorts => NatPortsFromPieces(s, i, ts);
    case NatNoPorts => NatNoPortsFromPieces(s, i, ts);
    case PlainPorts => PlainPortsFromPieces(s, i, ts);
    case PlainNoPorts => PlainNoPortsFromPieces(s, i, ts);
  }

  /** Fourteen pieces that make a translated segment with ports. */
  predicate NatPortsTexts(ts: seq<string>) {
    && |ts| == 14 && ts[0] == "NAT" && IsBlank(ts[1]) && ts[2] == "(" && IsIPv4(ts[3]) && ts[4] == ":" && IsPort(ts[5])
    && ts[6] == "->" && IsIPv4(ts[7]) && ts[8] == ":" && IsPort(ts[9])
    && ts[10] == ")->" && IsIPv4(ts[11]) && ts[12] == ":" && IsPort(ts[13])
  }

  lemma KindAt(kinds: seq<Kind>, s: string, i: nat, ts: seq<string>, k: nat)
    requires KindsTake(kinds, s, i, ts) && k < |kinds|
    ensures match kinds[k]
            case Lit(text) => ts[k] == text
            case Address => IsIPv4(ts[k])
            case Port => IsPort(ts[k])
            case Blanks => IsBlank(ts[k])
            case _ => true
  {
    assert KindTakes(kinds[k], s, Pos(i, ts, k), ts[k]);
  }

  lemma NatPortsRead(s: string, i: nat, ts: seq<string>)
    requires KindsTake(KindsOf(NatPorts), s, i, ts)
    ensures NatPortsTexts(ts)
  {
    var kinds := KindsOf(NatPorts);
    KindAt(kinds, s, i, ts, 0);
    KindAt(kinds, s, i, ts, 1);
    KindAt(kinds, s, i, ts, 2);
    KindAt(kinds, s, i, ts, 3);
    KindAt(kinds, s, i, ts, 4);
    KindAt(kinds, s, i, ts, 5);
    KindAt(kinds, s, i, ts, 6);
    KindAt(kinds, s, i, ts, 7);
    KindAt(kinds, s, i, ts, 8);
    KindAt(kinds, s, i, ts, 9);
    KindAt(kinds, s, i, ts, 10);
    KindAt(kinds, s, i, ts, 11);
    KindAt(kinds, s, i, ts, 12);
    KindAt(kinds, s, i, ts, 13);
  }

  lemma NatPortsFromPieces(s: string, i: nat, ts: seq<string>)
    requires KindsTake(KindsOf(NatPorts), s, i, ts)
    ensures Pieces(NatPorts, FromPieces(NatPorts, ts)) == ts && WellFormed(NatPorts, FromPieces(NatPorts, ts))
  {
    NatPortsRead(s, i, ts);
  }

  lemma NatNoPortsFromPieces(s: string, i: nat, ts: seq<string>)
    requires KindsTake(KindsOf(NatNoPorts), s, i, ts)
    ensures Pieces(NatNoPorts, FromPieces(NatNoPorts, ts)) == ts && WellFormed(NatNoPorts, FromPieces(NatNoPorts, ts))
    ensures !CharIn(s, Pos(i, ts, 8), ADDRESS_CHARS + {':'})
  {
    var kinds := KindsOf(NatNoPorts);
    assert KindTakes(kinds[0], s, Pos(i, ts, 0), ts[0]) && KindTakes(kinds[1], s, Pos(i, ts, 1), ts[1]);
    assert KindTakes(kinds[2], s, Pos(i, ts, 2), ts[2]) && KindTakes(kinds[3], s, Pos(i, ts, 3), ts[3]);
    assert KindTakes(kinds[4], s, Pos(i, ts, 4), ts[4]) && KindTakes(kinds[5], s, Pos(i, ts, 5), ts[5]);
    assert KindTakes(kinds[6], s, Pos(i, ts, 6), ts[6]) && KindTakes(kinds[7], s, Pos(i, ts, 7), ts[7]);
    assert KindTakes(kinds[8], s, Pos(i, ts, 8), ts[8]);
  }

  lemma PlainPortsFromPieces(s: string, i: nat, ts: seq<string>)
    requires KindsTake(KindsOf(PlainPorts), s, i, ts)
    ensures Pieces(PlainPorts, FromPieces(PlainPorts, ts)) == ts && WellFormed(PlainPorts, FromPieces(PlainPorts, ts))
    ensures !CharIn(s, i - 1, ADDRESS_CHARS)
  {
    var kinds := KindsOf(PlainPorts);
    assert KindTakes(kinds[0], s, Pos(i, ts, 0), ts[0]) && KindTakes(kinds[1], s, Pos(i, ts, 1), ts[1]);
    assert KindTakes(kinds[2], s, Pos(i, ts, 2), ts[2]) && KindTakes(kinds[3], s, Pos(i, ts, 3), ts[3]);
    assert KindTakes(kinds[4], s, Pos(i, ts, 4), ts[4]) && KindTakes(kinds[5], s, Pos(i, ts, 5), ts[5]);
    assert KindTakes(kinds[6], s, Pos(i, ts, 6), ts[6]) && KindTakes(kinds[7], s, Pos(i, ts, 7), ts[7]);
  }

  lemma PlainNoPortsFromPieces(s: string, i: nat, ts: seq<string>)
    requires KindsTake(KindsOf(PlainNoPorts), s, i, ts)
    ensures Pieces(PlainNoPorts, FromPieces(PlainNoPorts, ts)) == ts
    ensures WellFormed(PlainNoPorts, FromPieces(PlainNoPorts, ts))
    ensures !CharIn(s, i - 1, ADDRESS_CHARS) && !CharIn(s, Pos(i, ts, 4), ADDRESS_CHARS + {':'})
  {
    var kinds := KindsOf(PlainNoPorts);
    assert KindTakes(kinds[0], s, Pos(i, ts, 0), ts[0]) && KindTakes(kinds[1], s, Pos(i, ts, 1), ts[1]);
    assert KindTakes(kinds[2], s, Pos(i, ts, 2), ts[2]) && KindTakes(kinds[3], s, Pos(i, ts, 3), ts[3]);
    assert KindTakes(kinds[4], s, Pos(i, ts, 4), ts[4]);
  }

  lemma LastPortIsComplete(shape: Shape, s: string, i: nat, e: Endpoints)
    requires (shape.NatPorts? || shape.PlainPorts?) && Complete(shape, s, i, e)
    ensures var p, cuts := PatternOf(shape), Cuts(i, Pieces(shape, e));
      |p| == |cuts| > 1 && p[|p| - 1] == PORT && PortComplete(s, cuts[|p| - 2], cuts[|p| - 1])
  {
  }

  /** A complete segment is found at its place, exactly as it is. */
  lemma SegmentMatches(shape: Shape, s: string, i: nat, e: Endpoints)
    requires SegmentAt(shape, s, i, e) && Complete(shape, s, i, e)
    ensures Match(PatternOf(shape), s, i) == Some(Cuts(i, Pieces(shape, e)))
  {
    SegmentFits(shape, s, i, e);
    if shape.NatPorts? || shape.PlainPorts? {
      LastPortIsComplete(shape, s, i, e);
      NatPortsForced();
      PlainPortsForced();
      ExactPortMatch(PatternOf(shape), s, i, Cuts(i, Pieces(shape, e)));
    } else {
      NatNoPortsForced();
      PlainNoPortsForced();
      ExactMatch(PatternOf(shape), s, i, Cuts(i, Pieces(shape, e)));
    }
  }

  /** The segment stands somewhere at i. */
  ghost predicate SomeSegmentAt(shape: Shape, s: string, i: nat) {
    exists e :: SegmentAt(shape, s, i, e)
  }

  /** The pattern matches exactly where a segment stands. */
  lemma MatchIffSegment(shape: Shape, s: string, i: nat)
    requires i <= |s|
    ensures Match(PatternOf(shape), s, i).Some? <==> SomeSegmentAt(shape, s, i)
  {
    var p := PatternOf(shape);
    MatchIffFits(p, s, i);
    if Match(p, s, i).Some? {
      FitIsSegment(shape, s, i, Match(p, s, i).value);
    }
    if SomeSegmentAt(shape, s, i) {
      var e :| SegmentAt(shape, s, i, e);
      SegmentFits(shape, s, i, e);
    }
  }

  /** What a match reads off is a complete segment. */
  lemma MatchReadsSegment(shape: Shape, s: string, i: nat)
    requires i <= |s| && Match(PatternOf(shape), s, i).Some?
    ensures var cuts := Match(PatternOf(shape), s, i).value;
      |cuts| == |PatternOf(shape)| &&
      var e := FromPieces(shape, Texts(s, i, cuts));
      SegmentAt(shape, s, i, e) && Complete(shape, s, i, e)
  {
    var p := PatternOf(shape);
    var cuts := Match(p, s, i).value;
    MatchIffFits(p, s, i);
    FitIsSegment(shape, s, i, cuts);
    if shape.NatPorts? || shape.PlainPorts? {
      MatchedPortIsComplete(p, s, i);
    }
  }
}
