/** backend/app/parser/mikrotik.py: from a log line to a normalised record.  Text is ASCII. */
module MikroTikParser {
  import opened Wrappers
  import opened Regex
  import opened Addresses
  import opened Patterns
  import opened Segments

  datatype ParsedLog = ParsedLog(
    privateIp: string, privatePort: int,
    publicIp: string, publicPort: int,
    destIp: string, destPort: int,
    protocol: string, subscriberId: string)

  const NO_MATCH := "no_match"
  const NO_NAT := "no_nat"
  const PROTO_END: set<char> := {' ', ',', '(', ')', '\t', '\r', '\n'}

  datatype Outcome = Parsed(log: ParsedLog) | Rejected(reason: string)

  datatype Options = Options(requireNat: bool, subscriberFromInterface: bool)

  /** str.find(t, from): where t first occurs at or after `from`, -1 when it does not. */
  function FindText(s: string, t: string, from: nat): (i: int)
    ensures i == -1 || (from <= i && At(s, i, t) && forall j :: from <= j < i ==> !At(s, j, t))
    ensures i == -1 ==> forall j :: from <= j ==> !At(s, j, t)
    decreases |s| - from
  {
    if from > |s| then -1
    else if At(s, from, t) then from
    else FindText(s, t, from + 1)
  }

  predicate Contains(s: string, t: string) {
    FindText(s, t, 0) >= 0
  }

  predicate StartsWith(s: string, prefix: string) {
    At(s, 0, prefix)
  }

  // ----------------------------------------------------------------- the three extractions

  /** The groups of a match. */
  function Groups(shape: Shape, s: string, f: Found): Endpoints
    requires |f.cuts| == |PatternOf(shape)|
  {
    match shape
    case NatPorts =>
      Endpoints(Piece(s, f.start, f.cuts, 1), Piece(s, f.start, f.cuts, 3), Piece(s, f.start, f.cuts, 5),
                Piece(s, f.start, f.cuts, 7), Piece(s, f.start, f.cuts, 9), Piece(s, f.start, f.cuts, 11),
                Piece(s, f.start, f.cuts, 13))
    case NatNoPorts =>
      Endpoints(Piece(s, f.start, f.cuts, 1), Piece(s, f.start, f.cuts, 3), "0",
                Piece(s, f.start, f.cuts, 5), "0", Piece(s, f.start, f.cuts, 7), "0")
    case PlainPorts =>
      Endpoints("", Piece(s, f.start, f.cuts, 1), Piece(s, f.start, f.cuts, 3),
                Piece(s, f.start, f.cuts, 1), Piece(s, f.start, f.cuts, 3),
                Piece(s, f.start, f.cuts, 5), Piece(s, f.start, f.cuts, 7))
    case PlainNoPorts =>
      Endpoints("", Piece(s, f.start, f.cuts, 1), "0", Piece(s, f.start, f.cuts, 1), "0", Piece(s, f.start, f.cuts, 3), "0")
  }

  /** The endpoints of the leftmost match of one pattern. */
  function Locate(shape: Shape, s: string): Option<Endpoints> {
    var f := Search(PatternOf(shape), s, 0);
    if f.Some? && |f.value.cuts| == |PatternOf(shape)| then Some(Groups(shape, s, f.value)) else None
  }

  function UpperChar(c: char): char {
    if 'a' <= c <= 'z' then (c as int - 32) as char else c
  }

  function Upper(s: string): string {
    seq(|s|, k requires 0 <= k < |s| => UpperChar(s[k]))
  }

  /** Numbers that have a name are stored under it, everything else in capitals. */
  function ProtocolName(raw: string): string {
    if raw != "" && AllDigits(raw) then (if raw in PROTO_NUMBERS then PROTO_NUMBERS[raw] else raw)
    else Upper(raw)
  }

  /** The end of the token that begins at k. */
  function TokenEnd(s: string, k: nat): (e: nat)
    requires k <= |s|
    ensures k <= e <= |s|
    ensures forall j :: k <= j < e ==> s[j] !in PROTO_END
    ensures e == |s| || s[e] in PROTO_END
    decreases |s| - k
  {
    if k < |s| && s[k] !in PROTO_END then TokenEnd(s, k + 1) else k
  }

  /** What _protocol returns. */
  function ProtocolOf(s: string): string {
    var i := FindText(s, "proto ", 0);
    if i < 0 then PatternProtocol(s) else TokenProtocol(s, i + 6)
  }

  function PatternProtocol(s: string): string {
    var f := Search(PROTOCOL, s, 0);
    if f.Some? && |f.value.cuts| == |PROTOCOL| then ProtocolName(Piece(s, f.value.start, f.value.cuts, 3)) else ""
  }

  function TokenProtocol(s: string, j: nat): string
    requires j <= |s|
  {
    var raw := s[j..TokenEnd(s, j)];
    if raw == "" then "" else ProtocolName(raw)
  }

  /** _protocol, with its loop over the characters of the token. */
  method Protocol(s: string) returns (protocol: string)
    ensures protocol == ProtocolOf(s)
  {
    var raw: string;
    var i := FindText(s, "proto ", 0);
    if i < 0 {
      var f := Search(PROTOCOL, s, 0);
      if f.None? || |f.value.cuts| != |PROTOCOL| {
        return "";
      }
      raw := Piece(s, f.value.start, f.value.cuts, 3);
    } else {
      var j := i + 6;
      var k := j;
      while k < |s| && s[k] !in PROTO_END
        invariant j <= k <= |s|
        invariant TokenEnd(s, k) == TokenEnd(s, j)
      {
        k := k + 1;
      }
      raw := s[j..k];
      if raw == "" {
        return "";
      }
    }
    return ProtocolName(raw);
  }

  /** The inbound interface of the line, "" when it names none. */
  function Interface(s: string): string {
    var i := FindText(s, "in:<", 0);
    if i >= 0 then
      var j := FindText(s, ">", i + 4);
      if j > 0 then s[i + 4..j] else ""
    else
      var f := Search(IN_INTERFACE, s, 0);
      if f.Some? && |f.value.cuts| == |IN_INTERFACE| then Piece(s, f.value.start, f.value.cuts, 3) else ""
  }

  /** The interface without the first prefix it begins with. */
  function Unprefixed(iface: string, prefixes: seq<string>, otherwise: string): string {
    if prefixes == [] then otherwise
    else if StartsWith(iface, prefixes[0]) then iface[|prefixes[0]|..]
    else Unprefixed(iface, prefixes[1..], otherwise)
  }

  /** _subscriber */
  function Subscriber(o: Options, s: string): string {
    var iface := Interface(s);
    if iface == "" then ""
    else Unprefixed(iface, SUBSCRIBER_PREFIXES, if o.subscriberFromInterface then iface else "")
  }

  // ----------------------------------------------------------------- the parser

  const MAX_PORT := 65535

  function Accept(o: Options, s: string, e: Endpoints): Outcome {
    var pri, pub, dst := Number(e.priPort), Number(e.pubPort), Number(e.dstPort);
    if pri > MAX_PORT || pub > MAX_PORT || dst > MAX_PORT then Rejected(NO_MATCH)
    else Parsed(ParsedLog(e.pri, pri, e.pub, pub, e.dst, dst, ProtocolOf(s), Subscriber(o, s)))
  }

  /** _parse */
  function Parse(o: Options, s: string): Outcome {
    if Contains(s, "NAT") then
      var ports := Locate(NatPorts, s);
      if ports.Some? then Accept(o, s, ports.value)
      else
        var bare := Locate(NatNoPorts, s);
        if bare.Some? then Accept(o, s, bare.value) else Rejected(NO_MATCH)
    else if o.requireNat then Rejected(NO_NAT)
    else
      var ports := Locate(PlainPorts, s);
      if ports.Some? then Accept(o, s, ports.value)
      else
        var bare := Locate(PlainNoPorts, s);
        if bare.Some? then Accept(o, s, bare.value) else Rejected(NO_MATCH)
  }

  // ----------------------------------------------------------------- where a segment is found

  /** The leftmost segment of that shape, read to its end. */
  ghost predicate LeftmostSegment(shape: Shape, s: string, i: nat, e: Endpoints) {
    && SegmentAt(shape, s, i, e) && Complete(shape, s, i, e)
    && forall j :: 0 <= j < i ==> !SomeSegmentAt(shape, s, j)
  }

  ghost predicate NoSegment(shape: Shape, s: string) {
    forall j :: 0 <= j <= |s| ==> !SomeSegmentAt(shape, s, j)
  }

  lemma GroupsAreTexts(shape: Shape, s: string, f: Found)
    requires |f.cuts| == |PatternOf(shape)|
    ensures Groups(shape, s, f) == FromPieces(shape, Texts(s, f.start, f.cuts))
  {
    forall k | 0 <= k < |f.cuts| ensures Texts(s, f.start, f.cuts)[k] == Piece(s, f.start, f.cuts, k) {
      TextsArePieces(s, f.start, f.cuts, k);
    }
  }

  /** A pattern search answers with the leftmost complete segment, and with nothing only when no
      segment stands anywhere. */
  lemma LocateIsLeftmost(shape: Shape, s: string) returns (i: nat)
    ensures Locate(shape, s).Some? ==> LeftmostSegment(shape, s, i, Locate(shape, s).value)
    ensures Locate(shape, s).None? ==> NoSegment(shape, s)
  {
    var p := PatternOf(shape);
    SearchIsLeftmost(p, s, 0);
    forall j | 0 <= j <= |s| ensures Match(p, s, j).Some? <==> SomeSegmentAt(shape, s, j) {
      MatchIffSegment(shape, s, j);
    }
    i := 0;
    if Search(p, s, 0).Some? {
      var f := Search(p, s, 0).value;
      i := f.start;
      MatchReadsSegment(shape, s, i);
      GroupsAreTexts(shape, s, f);
    }
  }

  /** Conversely the leftmost complete segment is what the search answers. */
  lemma LeftmostIsLocated(shape: Shape, s: string, i: nat, e: Endpoints)
    requires LeftmostSegment(shape, s, i, e)
    ensures Locate(shape, s) == Some(e)
  {
    var p, ts := PatternOf(shape), Pieces(shape, e);
    SegmentMatches(shape, s, i, e);
    forall j | 0 <= j < i ensures Match(p, s, j).None? {
      MatchIffSegment(shape, s, j);
    }
    SearchFinds(p, s, 0, i);
    var f := Found(i, Cuts(i, ts));
    PatternItems(shape);
    GroupsOfSegment(shape, s, i, e);
  }

  lemma GroupsOfSegment(shape: Shape, s: string, i: nat, e: Endpoints)
    requires SegmentAt(shape, s, i, e)
    ensures |Pieces(shape, e)| == |PatternOf(shape)|
    ensures Groups(shape, s, Found(i, Cuts(i, Pieces(shape, e)))) == e
  {
    var ts := Pieces(shape, e);
    forall k | 0 <= k < |ts| ensures Piece(s, i, Cuts(i, ts), k) == ts[k] {
      SpeltPieces(s, i, ts, k);
    }
  }

  /** The search is settled by where segments stand, in both directions. */
  lemma LocateNone(shape: Shape, s: string)
    ensures Locate(shape, s).None? <==> NoSegment(shape, s)
  {
    var i := LocateIsLeftmost(shape, s);
    if Locate(shape, s).Some? {
      assert SomeSegmentAt(shape, s, i);
    }
  }

  // ----------------------------------------------------------------- what parsing means

  /** The shape that decides what a line yields, and the leftmost segment of it.  A line that says
      NAT anywhere is only ever read as a translation. */
  ghost predicate Decides(o: Options, s: string, shape: Shape, i: nat, e: Endpoints) {
    && LeftmostSegment(shape, s, i, e)
    && match shape
       case NatPorts => true
       case NatNoPorts => NoSegment(NatPorts, s)
       case PlainPorts => !Contains(s, "NAT") && !o.requireNat
       case PlainNoPorts => !Contains(s, "NAT") && !o.requireNat && NoSegment(PlainPorts, s)
  }

  predicate PortsInRange(e: Endpoints) {
    Number(e.priPort) <= MAX_PORT && Number(e.pubPort) <= MAX_PORT && Number(e.dstPort) <= MAX_PORT
  }

  function RecordOf(o: Options, s: string, e: Endpoints): ParsedLog {
    ParsedLog(e.pri, Number(e.priPort), e.pub, Number(e.pubPort), e.dst, Number(e.dstPort), ProtocolOf(s), Subscriber(o, s))
  }

  lemma NatSegmentSaysNat(shape: Shape, s: string, i: nat, e: Endpoints)
    requires (shape.NatPorts? || shape.NatNoPorts?) && SegmentAt(shape, s, i, e)
    ensures Contains(s, "NAT")
  {
    assert At(s, i, Pieces(shape, e)[0]);
    assert At(s, i, "NAT");
  }

  /** A segment that decides settles the whole outcome. */
  lemma DecidedOutcome(o: Options, s: string, shape: Shape, i: nat, e: Endpoints)
    requires Decides(o, s, shape, i, e)
    ensures Parse(o, s) == if PortsInRange(e) then Parsed(RecordOf(o, s, e)) else Rejected(NO_MATCH)
  {
    LeftmostIsLocated(shape, s, i, e);
    match shape
    case NatPorts => NatSegmentSaysNat(shape, s, i, e);
    case NatNoPorts =>
      NatSegmentSaysNat(shape, s, i, e);
      LocateNone(NatPorts, s);
    case PlainPorts =>
    case PlainNoPorts => LocateNone(PlainPorts, s);
  }

  /** A line is accepted only because a segment in it decides, with ports that are ports, and with
      addresses that the scanner accepts too; without translation public equals private. */
  lemma AcceptedMeans(o: Options, s: string) returns (shape: Shape, i: nat, e: Endpoints)
    requires Parse(o, s).Parsed?
    ensures Decides(o, s, shape, i, e) && PortsInRange(e)
    ensures Parse(o, s).log == RecordOf(o, s, e)
    ensures var log := Parse(o, s).log;
      && IsLooseIPv4(log.privateIp) && IsLooseIPv4(log.publicIp) && IsLooseIPv4(log.destIp)
      && 0 <= log.privatePort <= MAX_PORT && 0 <= log.publicPort <= MAX_PORT && 0 <= log.destPort <= MAX_PORT
      && (shape.PlainPorts? || shape.PlainNoPorts? ==>
            log.publicIp == log.privateIp && log.publicPort == log.privatePort)
  {
    shape, i, e := DecidingSegment(o, s);
    DecidedOutcome(o, s, shape, i, e);
    EndpointsAreValid(shape, e);
  }

  lemma DecidingSegment(o: Options, s: string) returns (shape: Shape, i: nat, e: Endpoints)
    requires Parse(o, s).Parsed?
    ensures Decides(o, s, shape, i, e)
  {
    if Contains(s, "NAT") {
      shape := NatPorts;
      i := LocateIsLeftmost(NatPorts, s);
      if Locate(NatPorts, s).None? {
        shape := NatNoPorts;
        i := LocateIsLeftmost(NatNoPorts, s);
      }
    } else {
      shape := PlainPorts;
      i := LocateIsLeftmost(PlainPorts, s);
      if Locate(PlainPorts, s).None? {
        shape := PlainNoPorts;
        i := LocateIsLeftmost(PlainNoPorts, s);
      }
    }
    e := Locate(shape, s).value;
  }

  lemma EndpointsAreValid(shape: Shape, e: Endpoints)
    requires WellFormed(shape, e)
    ensures IsLooseIPv4(e.pri) && IsLooseIPv4(e.pub) && IsLooseIPv4(e.dst)
    ensures Number(e.priPort) >= 0 && Number(e.pubPort) >= 0 && Number(e.dstPort) >= 0
  {
    CanonicalIffNoLeadingZero(e.pri);
    CanonicalIffNoLeadingZero(e.pub);
    CanonicalIffNoLeadingZero(e.dst);
    NumberIsNatural(e.priPort);
    NumberIsNatural(e.pubPort);
    NumberIsNatural(e.dstPort);
  }

  /** A line is rejected exactly when translations are required and it mentions none, or when no
      segment decides, or when the one that does carries a number that is no port. */
  lemma RejectedIff(o: Options, s: string)
    ensures Parse(o, s) == Rejected(NO_NAT) <==> o.requireNat && !Contains(s, "NAT")
    ensures Parse(o, s) == Rejected(NO_MATCH) <==>
            !(o.requireNat && !Contains(s, "NAT")) &&
            forall shape, i, e :: Decides(o, s, shape, i, e) ==> !PortsInRange(e)
    ensures Parse(o, s).Rejected? ==> Parse(o, s).reason in [NO_NAT, NO_MATCH]
  {
    if Parse(o, s).Parsed? {
      var shape, i, e := AcceptedMeans(o, s);
      assert Decides(o, s, shape, i, e) && PortsInRange(e);
    }
    forall shape, i, e | Decides(o, s, shape, i, e) && PortsInRange(e) ensures Parse(o, s).Parsed? {
      DecidedOutcome(o, s, shape, i, e);
    }
  }

  /** With translations not required, a line that carries a plain segment and no translation is kept
      exactly when the letters NAT occur nowhere in it: an interface or a user of that name is enough
      to lose the record.  The parser notes say that such lines are kept. */
  lemma MentionOfNatHidesPlainLine(o: Options, s: string, shape: Shape, i: nat, e: Endpoints)
    requires !o.requireNat && NoSegment(NatPorts, s) && NoSegment(NatNoPorts, s)
    requires shape.PlainPorts? || (shape.PlainNoPorts? && NoSegment(PlainPorts, s))
    requires LeftmostSegment(shape, s, i, e) && PortsInRange(e)
    ensures Parse(o, s).Parsed? <==> !Contains(s, "NAT")
    ensures Parse(o, s).Parsed? ==> Parse(o, s).log == RecordOf(o, s, e)
  {
    LocateNone(NatPorts, s);
    LocateNone(NatNoPorts, s);
    LocateNone(PlainPorts, s);
    LeftmostIsLocated(shape, s, i, e);
  }

  // ----------------------------------------------------------------- printing and parsing

  lemma {:induction false} PosAtEnd(i: nat, ts: seq<string>)
    ensures Pos(i, ts, |ts|) == i + |Flat(ts)|
    decreases ts
  {
    if ts != [] {
      var j, rest := i + |ts[0]|, ts[1..];
      PosAtEnd(j, rest);
      assert Cuts(i, ts) == [j] + Cuts(j, rest);
      assert Flat(ts) == ts[0] + Flat(rest);
    }
  }

  lemma {:induction false} PosStep(i: nat, ts: seq<string>, k: nat)
    requires k < |ts|
    ensures Pos(i, ts, k + 1) == Pos(i, ts, k) + |ts[k]|
    decreases ts
  {
    if k > 0 {
      PosStep(i + |ts[0]|, ts[1..], k - 1);
    }
  }

  lemma FindsFirst(s: string, t: string, from: nat, i: nat)
    requires from <= i && At(s, i, t) && forall j :: from <= j < i ==> !At(s, j, t)
    ensures FindText(s, t, from) == i
  {
  }

  lemma AtChars(s: string, i: nat, t: string, k: nat)
    requires At(s, i, t) && k < |t|
    ensures s[i + k] == t[k]
  {
    assert s[i..i + |t|][k] == t[k];
  }

  lemma {:induction false} TokenEndsAt(s: string, k: nat, e: nat)
    requires k <= e <= |s| && forall j :: k <= j < e ==> s[j] !in PROTO_END
    requires e == |s| || s[e] in PROTO_END
    ensures TokenEnd(s, k) == e
    decreases e - k
  {
    if k < e {
      TokenEndsAt(s, k + 1, e);
    }
  }

  /** Parts of a text that stands in s stand there too. */
  lemma AtParts(s: string, i: nat, a: string, b: string, c: string)
    requires At(s, i, a + b + c)
    ensures At(s, i, a) && At(s, i + |a|, b) && At(s, i + |a| + |b|, c)
  {
    PartOf(s, i, a + b, c);
    PartOf(s, i, a, b);
  }

  lemma PartOf(s: string, i: nat, a: string, b: string)
    requires At(s, i, a + b)
    ensures At(s, i, a) && At(s, i + |a|, b)
  {
    var t := a + b;
    assert s[i..i + |a|] == s[i..i + |t|][..|a|] == t[..|a|] == a;
    assert s[i + |a|..i + |t|] == s[i..i + |t|][|a|..] == t[|a|..] == b;
  }

  predicate DigitFollows(post: string) {
    post != "" && Addresses.IsDigit(post[0])
  }

  /** What may follow a printed segment: nothing that would make its end part of something longer. */
  predicate EndsThere(shape: Shape, e: Endpoints, post: string) {
    if shape.NatPorts? || shape.PlainPorts? then |e.dstPort| == 5 || !DigitFollows(post)
    else post == "" || post[0] !in ADDRESS_CHARS + {':'}
  }

  /** What may stand before one: a segment without translation begins with the address itself. */
  predicate StartsThere(shape: Shape, pre: string) {
    shape.NatPorts? || shape.NatNoPorts? || pre == "" || pre[|pre| - 1] !in ADDRESS_CHARS
  }

  lemma Around(pre: string, text: string, post: string, s: string)
    requires s == pre + text + post
    ensures At(s, |pre|, text) && s[|pre| + |text|..] == post
    ensures pre != "" ==> s[|pre| - 1] == pre[|pre| - 1]
    ensures post != "" ==> s[|pre| + |text|] == post[0]
  {
  }

  lemma PrintedIsSpelt(pre: string, ts: seq<string>, post: string, s: string)
    requires s == pre + Flat(ts) + post && ts != []
    ensures Spelt(s, |pre|, ts) && Pos(|pre|, ts, |ts|) == |pre| + |Flat(ts)|
    ensures Pos(|pre|, ts, |ts|) == Pos(|pre|, ts, |ts| - 1) + |ts[|ts| - 1]|
  {
    Around(pre, Flat(ts), post, s);
    SpeltIsAt(s, |pre|, ts);
    PosAtEnd(|pre|, ts);
    PosStep(|pre|, ts, |ts| - 1);
  }

  /** The last piece ends where the text after it begins. */
  lemma PrintedEnds(shape: Shape, i: nat, e: Endpoints, post: string, s: string, end: nat)
    requires EndsThere(shape, e, post) && WellFormed(shape, e)
    requires i <= |s| && Spelt(s, i, Pieces(shape, e)) && end <= |s| && s[end..] == post
    requires end == Mark(shape, i, e, |Pieces(shape, e)|)
    requires end == Mark(shape, i, e, |Pieces(shape, e)| - 1) + |Pieces(shape, e)[|Pieces(shape, e)| - 1]|
    requires post != "" ==> s[end] == post[0]
    ensures Complete(shape, s, i, e)
    ensures shape.NatNoPorts? || shape.PlainNoPorts? ==> !CharIn(s, end, ADDRESS_CHARS + {':'})
  {
  }

  lemma PrintedSegmentStands(shape: Shape, pre: string, e: Endpoints, post: string, ts: seq<string>, s: string)
    requires WellFormed(shape, e) && StartsThere(shape, pre) && EndsThere(shape, e, post)
    requires ts == Pieces(shape, e) && s == pre + Flat(ts) + post
    ensures SegmentAt(shape, s, |pre|, e) && Complete(shape, s, |pre|, e)
  {
    Around(pre, Flat(ts), post, s);
    PrintedIsSpelt(pre, ts, post, s);
    PrintedEnds(shape, |pre|, e, post, s, |pre| + |Flat(ts)|);
  }

  /** A segment of any of the four shapes, written into any line: it is found as written, unless
      another one of its shape comes first. */
  lemma PrintedSegmentIsFound(shape: Shape, pre: string, e: Endpoints, post: string)
    requires WellFormed(shape, e) && StartsThere(shape, pre) && EndsThere(shape, e, post)
    requires forall j :: 0 <= j < |pre| ==> !SomeSegmentAt(shape, pre + Flat(Pieces(shape, e)) + post, j)
    ensures LeftmostSegment(shape, pre + Flat(Pieces(shape, e)) + post, |pre|, e)
  {
    PrintedSegmentStands(shape, pre, e, post, Pieces(shape, e), pre + Flat(Pieces(shape, e)) + post);
  }

  /** "proto " and a token, the first one in the line, and something that ends the token. */
  lemma TokenIsRead(s: string, i: nat, token: string)
    requires At(s, i, "proto " + token) && token != ""
    requires forall j :: 0 <= j < i ==> !At(s, j, "proto ")
    requires forall k :: 0 <= k < |token| ==> token[k] !in PROTO_END
    requires i + 6 + |token| == |s| || s[i + 6 + |token|] in PROTO_END
    ensures ProtocolOf(s) == ProtocolName(token)
  {
    AtParts(s, i, "proto ", token, "");
    assert "proto " + token + "" == "proto " + token;
    TokenAfter(s, i, token);
  }

  lemma TokenAfter(s: string, i: nat, token: string)
    requires At(s, i, "proto ") && At(s, i + 6, token) && token != ""
    requires forall j :: 0 <= j < i ==> !At(s, j, "proto ")
    requires forall k :: 0 <= k < |token| ==> token[k] !in PROTO_END
    requires i + 6 + |token| == |s| || s[i + 6 + |token|] in PROTO_END
    ensures ProtocolOf(s) == ProtocolName(token)
  {
    FindsFirst(s, "proto ", 0, i);
    TokenStops(s, i + 6, token);
  }

  lemma TokenStops(s: string, j: nat, token: string)
    requires At(s, j, token) && token != "" && forall k :: 0 <= k < |token| ==> token[k] !in PROTO_END
    requires j + |token| == |s| || s[j + |token|] in PROTO_END
    ensures TokenProtocol(s, j) == ProtocolName(token)
  {
    forall k | j <= k < j + |token| ensures s[k] !in PROTO_END {
      AtChars(s, j, token, k - j);
    }
    TokenEndsAt(s, j, j + |token|);
  }

  predicate NoSmallLetter(t: string) {
    forall k :: 0 <= k < |t| ==> !('a' <= t[k] <= 'z')
  }

  /** Names in capitals are kept, numbers are named. */
  lemma ProtocolNames(token: string)
    requires token != ""
    ensures AllDigits(token) && token in PROTO_NUMBERS ==> ProtocolName(token) == PROTO_NUMBERS[token]
    ensures NoSmallLetter(token) && !(AllDigits(token) && token in PROTO_NUMBERS) ==> ProtocolName(token) == token
  {
    if NoSmallLetter(token) {
      assert Upper(token) == token;
    }
  }

  const PPPOE := "pppoe-"

  /** A session interface <pppoe-USER>, the first bracketed one in the line: the user comes back
      exactly when the name does not begin like one of the two longer prefixes. */
  lemma SubscriberIsReadIff(o: Options, s: string, i: nat, user: string)
    requires At(s, i, "in:<" + PPPOE + user + ">") && '>' !in user
    requires forall j :: 0 <= j < i ==> !At(s, j, "in:<")
    ensures Subscriber(o, s) == user <==> !StartsWith(user, "in-") && !StartsWith(user, "out-")
  {
    assert "in:<" + PPPOE + user + ">" == "in:<" + (PPPOE + user) + ">";
    InterfaceIsRead(s, i, PPPOE + user);
    PppoeUser(user, if o.subscriberFromInterface then PPPOE + user else "");
  }

  lemma InterfaceIsRead(s: string, i: nat, iface: string)
    requires At(s, i, "in:<" + iface + ">") && '>' !in iface
    requires forall j :: 0 <= j < i ==> !At(s, j, "in:<")
    ensures Interface(s) == iface
  {
    AtParts(s, i, "in:<", iface, ">");
    FindsFirst(s, "in:<", 0, i);
    var j := i + 4;
    var k := j + |iface|;
    forall m | j <= m < k ensures !At(s, m, ">") {
      AtChars(s, j, iface, m - j);
      assert s[m] in iface;
      assert s[m..m + 1] == [s[m]];
    }
    FindsFirst(s, ">", j, k);
  }

  lemma PppoeUser(user: string, otherwise: string)
    ensures Unprefixed(PPPOE + user, SUBSCRIBER_PREFIXES, otherwise) == user <==>
            !StartsWith(user, "in-") && !StartsWith(user, "out-")
  {
    var iface := PPPOE + user;
    var ps := SUBSCRIBER_PREFIXES;
    PrefixShift(user, "in-");
    PrefixShift(user, "out-");
    PrefixShift(user, "");
    assert ps[0] == PPPOE + "in-" && ps[1] == PPPOE + "out-" && ps[2] == PPPOE + "";
    assert ps[1..][0] == ps[1] && ps[1..][1..][0] == ps[2];
    if StartsWith(user, "in-") {
      assert Unprefixed(iface, ps, otherwise) == iface[9..];
      assert |iface[9..]| < |user|;
    } else if StartsWith(user, "out-") {
      assert Unprefixed(iface, ps, otherwise) == iface[10..];
      assert |iface[10..]| < |user|;
    } else {
      assert StartsWith(user, "");
      assert iface[6..] == user;
      assert Unprefixed(iface, ps[2..], otherwise) == user;
      assert ps[1..][1..] == ps[2..];
      assert Unprefixed(iface, ps[1..], otherwise) == user;
    }
  }

  lemma PrefixShift(user: string, tail: string)
    ensures StartsWith(PPPOE + user, PPPOE + tail) <==> StartsWith(user, tail)
  {
    var a, b := PPPOE + user, PPPOE + tail;
    if |tail| <= |user| {
      assert a[..|b|] == PPPOE + user[..|tail|];
      assert a[..|b|][6..] == user[..|tail|] && b[6..] == tail;
    }
  }

  /** A RouterOS line with a session interface, a protocol and a segment, and anything before,
      between and after them. */
  function RouterOsLine(shape: Shape, head: string, user: string, mid: string, protocol: string, mid': string,
                        e: Endpoints, tail: string): string {
    head + ("in:<" + PPPOE + user + ">") + mid + ("proto " + protocol) + mid' + Flat(Pieces(shape, e)) + tail
  }

  /** None of the three parts is preceded by something that reads like it, and nothing in the line
      reads like a shape that the parser prefers. */
  ghost predicate NothingEarlier(o: Options, shape: Shape, s: string, session: nat, token: nat, segment: nat) {
    && (forall j :: 0 <= j < session ==> !At(s, j, "in:<"))
    && (forall j :: 0 <= j < token ==> !At(s, j, "proto "))
    && (forall j :: 0 <= j < segment ==> !SomeSegmentAt(shape, s, j))
    && (shape.NatNoPorts? ==> NoSegment(NatPorts, s))
    && (shape.PlainPorts? || shape.PlainNoPorts? ==> !o.requireNat && !Contains(s, "NAT"))
    && (shape.PlainNoPorts? ==> NoSegment(PlainPorts, s))
  }

  lemma AtOfConcat(a: string, t: string, b: string)
    ensures At(a + t + b, |a|, t)
  {
  }

  /** Parsing undoes printing. */
  lemma PrintParse(o: Options, shape: Shape, head: string, user: string, mid: string, protocol: string, mid': string,
                   e: Endpoints, tail: string)
    requires WellFormed(shape, e) && PortsInRange(e) && StartsThere(shape, mid') && EndsThere(shape, e, tail)
    requires '>' !in user && !StartsWith(user, "in-") && !StartsWith(user, "out-")
    requires protocol != "" && ProtocolName(protocol) == protocol
    requires forall k :: 0 <= k < |protocol| ==> protocol[k] !in PROTO_END
    requires mid' != "" && mid'[0] in PROTO_END
    requires var p := head + ("in:<" + PPPOE + user + ">") + mid;
      NothingEarlier(o, shape, RouterOsLine(shape, head, user, mid, protocol, mid', e, tail),
                     |head|, |p|, |p + ("proto " + protocol) + mid'|)
    ensures Parse(o, RouterOsLine(shape, head, user, mid, protocol, mid', e, tail)) ==
            Parsed(ParsedLog(e.pri, Number(e.priPort), e.pub, Number(e.pubPort), e.dst, Number(e.dstPort), protocol, user))
  {
    var s := RouterOsLine(shape, head, user, mid, protocol, mid', e, tail);
    var session, token, segment := "in:<" + PPPOE + user + ">", "proto " + protocol, Flat(Pieces(shape, e));
    var p := head + session + mid;
    var n := p + token + mid';
    Regroup(head, session, mid, token, mid', segment, tail);
    PrintedSegmentIsFound(shape, n, e, tail);
    TokenOfLine(s, p, protocol, mid', segment + tail);
    AtOfConcat(head, session, mid + (token + (mid' + (segment + tail))));
    SubscriberIsReadIff(o, s, |head|, user);
    DecidedOutcome(o, s, shape, |n|, e);
  }

  lemma Regroup(a: string, b: string, c: string, d: string, e: string, f: string, g: string)
    ensures a + b + c + d + e + f + g == (a + b + c) + d + (e + (f + g))
    ensures a + b + c + d + e + f + g == a + b + (c + (d + (e + (f + g))))
  {
    SeqAssoc(a + b + c + d + e, f, g);
    SeqAssoc(a + b + c + d, e, f + g);
    SeqAssoc(a + b + c, d, e + (f + g));
    SeqAssoc(a + b, c, d + (e + (f + g)));
  }

  lemma TokenOfLine(s: string, p: string, protocol: string, mid: string, rest: string)
    requires protocol != "" && ProtocolName(protocol) == protocol
    requires forall k :: 0 <= k < |protocol| ==> protocol[k] !in PROTO_END
    requires mid != "" && mid[0] in PROTO_END
    requires forall j :: 0 <= j < |p| ==> !At(s, j, "proto ")
    ensures s == p + ("proto " + protocol) + (mid + rest) ==> ProtocolOf(s) == protocol
  {
    if s == p + ("proto " + protocol) + (mid + rest) {
      AtOfConcat(p, "proto " + protocol, mid + rest);
      assert s[|p| + 6 + |protocol|] == mid[0];
      TokenIsRead(s, |p|, protocol);
    }
  }
}
