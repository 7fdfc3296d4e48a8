/** backend/app/parser/patterns.py: the patterns as data, and the languages they stand for. */
module Patterns {
  import opened Wrappers
  import opened Regex
  import opened Addresses

  const DIGITS: set<char> := {'0', '1', '2', '3', '4', '5', '6', '7', '8', '9'}
  // \s on ASCII text: blank, tab to carriage return, and the four separators.
  const SPACES: set<char> := {' ', '\t', '\n', '\r', '\U{000B}', '\U{000C}',
                              '\U{001C}', '\U{001D}', '\U{001E}', '\U{001F}'}
  const ADDRESS_CHARS: set<char> := DIGITS + {'.'}

  const DIGIT := In(DIGITS)
  const TWO := In({'2'})
  const OCTET := Choice([
    [TWO, In({'5'}), In({'0', '1', '2', '3', '4', '5'})],
    [TWO, In({'0', '1', '2', '3', '4'}), DIGIT],
    [In({'1'}), DIGIT, DIGIT],
    [In(DIGITS - {'0'}), DIGIT],
    [DIGIT]])
  const DOT := Literal(".")
  const IPV4 := Group([OCTET, DOT, OCTET, DOT, OCTET, DOT, OCTET])
  const PORT := Run(DIGIT, 1, Some(5))
  const BLANKS := Run(In(SPACES), 0, None)
  const NOT_ADDR_AFTER := NotAhead(In(ADDRESS_CHARS + {':'}))
  const NOT_ADDR_BEFORE := NotBehind(In(ADDRESS_CHARS))

  const SRCNAT_PORTS: Pattern := [
    Literal("NAT"), BLANKS, Literal("("), IPV4, Literal(":"), PORT,
    Literal("->"), IPV4, Literal(":"), PORT, Literal(")->"), IPV4, Literal(":"), PORT]
  const SRCNAT_NOPORTS: Pattern := [
    Literal("NAT"), BLANKS, Literal("("), IPV4, Literal("->"), IPV4, Literal(")->"), IPV4, NOT_ADDR_AFTER]
  const PLAIN_PORTS: Pattern := [
    NOT_ADDR_BEFORE, IPV4, Literal(":"), PORT, Literal("->"), IPV4, Literal(":"), PORT]
  const PLAIN_NOPORTS: Pattern := [NOT_ADDR_BEFORE, IPV4, Literal("->"), IPV4, NOT_ADDR_AFTER]

  const LETTERS: set<char> := set c: char | 'a' <= c <= 'z' || 'A' <= c <= 'Z'
  const WORD_CHARS: set<char> := LETTERS + DIGITS + {'_'}

  const IN_INTERFACE: Pattern := [
    Boundary(WORD_CHARS), Literal("in:"), Choice([[In({'<'})], []]),
    Run(NotIn(SPACES + {',', '>'}), 0, None), Choice([[In({'>'})], []])]
  const PROTOCOL: Pattern := [
    Boundary(WORD_CHARS), Literal("proto"), Run(In(SPACES), 1, None),
    Run(In(WORD_CHARS + {'-'}), 1, Some(16))]

  const SUBSCRIBER_PREFIXES: seq<string> :=
    ["pppoe-in-", "pppoe-out-", "pppoe-", "l2tp-", "pptp-", "sstp-", "ovpn-"]

  const PROTO_NUMBERS: map<string, string> := map[
    "1" := "ICMP", "2" := "IGMP", "6" := "TCP", "17" := "UDP", "41" := "IPV6",
    "47" := "GRE", "50" := "ESP", "51" := "AH", "58" := "ICMPV6", "89" := "OSPF",
    "132" := "SCTP"]

  predicate IsPort(t: string) {
    1 <= |t| <= 5 && AllDigits(t)
  }

  predicate IsBlank(t: string) {
    forall k :: 0 <= k < |t| ==> t[k] in SPACES
  }

  // ----------------------------------------------------------------- languages

  lemma DigitsAre(c: char)
    ensures c in DIGITS <==> Addresses.IsDigit(c)
  {
  }

  lemma LiteralReads(text: string, t: string)
    ensures Reads(Literal(text), t) <==> t == text
  {
    var a := seq(|text|, k requires 0 <= k < |text| => In({text[k]}));
    assert Literal(text) == Choice([a]);
    assert a in [a];
    if Reads(Literal(text), t) {
      assert FitsClasses(a, t, 0);
      forall k | 0 <= k < |text| ensures t[k] == text[k] {
        assert Has(a[k], t[0 + k]);
      }
    }
    if t == text {
      assert FitsClasses(a, t, 0);
    }
  }

  lemma PortReads(t: string)
    ensures Reads(PORT, t) <==> IsPort(t)
  {
    forall k | 0 <= k < |t| ensures Has(DIGIT, t[k]) <==> Addresses.IsDigit(t[k]) {
      DigitsAre(t[k]);
    }
  }

  lemma BlanksRead(t: string)
    ensures Reads(BLANKS, t) <==> IsBlank(t)
  {
  }

  lemma NumberOfThree(t: string)
    requires 1 <= |t| <= 3
    ensures |t| == 1 ==> Number(t) == DigitValue(t[0])
    ensures |t| == 2 ==> Number(t) == 10 * DigitValue(t[0]) + DigitValue(t[1])
    ensures |t| == 3 ==> Number(t) == 100 * DigitValue(t[0]) + 10 * DigitValue(t[1]) + DigitValue(t[2])
  {
    if |t| == 2 {
      assert t[..1][..0] == "";
    }
    if |t| == 3 {
      assert t[..2][..1] == t[..1] && t[..1][..0] == "";
    }
  }

  /** The five alternatives spell the numbers from 0 to 255 without leading zeros. */
  lemma OctetReads(t: string)
    ensures Reads(OCTET, t) <==> IsOctet(t)
  {
    if Reads(OCTET, t) {
      var a :| a in OCTET.alts && |a| == |t| && FitsClasses(a, t, 0);
      AlternativeIsOctet(a, t);
    }
    if IsOctet(t) {
      if |t| > 3 {
        LongNumber(t);
      }
      OctetHasAlternative(t);
    }
  }

  lemma AlternativeIsOctet(a: seq<Class>, t: string)
    requires a in OCTET.alts && |a| == |t| && FitsClasses(a, t, 0)
    ensures IsOctet(t)
  {
    NumberOfThree(t);
    assert Has(a[0], t[0 + 0]);
    if |t| >= 2 {
      assert Has(a[1], t[0 + 1]);
    }
    if |t| >= 3 {
      assert Has(a[2], t[0 + 2]);
    }
    assert AllDigits(t);
  }

  lemma FitsOne(a: seq<Class>, t: string)
    requires |a| == |t| == 1 && Has(a[0], t[0])
    ensures FitsClasses(a, t, 0)
  {
  }

  lemma FitsTwo(a: seq<Class>, t: string)
    requires |a| == |t| == 2 && Has(a[0], t[0]) && Has(a[1], t[1])
    ensures FitsClasses(a, t, 0)
  {
  }

  lemma FitsThree(a: seq<Class>, t: string)
    requires |a| == |t| == 3 && Has(a[0], t[0]) && Has(a[1], t[1]) && Has(a[2], t[2])
    ensures FitsClasses(a, t, 0)
  {
  }

  lemma AlternativeReads(k: nat, t: string)
    requires k < |OCTET.alts| && |OCTET.alts[k]| == |t| && FitsClasses(OCTET.alts[k], t, 0)
    ensures Reads(OCTET, t)
  {
    assert OCTET.alts[k] in OCTET.alts;
  }

  lemma OctetHasAlternative(t: string)
    requires IsOctet(t) && |t| <= 3
    ensures Reads(OCTET, t)
  {
    NumberOfThree(t);
    assert forall k :: 0 <= k < |t| ==> Addresses.IsDigit(t[k]);
    DigitsAre(t[0]);
    if |t| == 1 {
      FitsOne(OCTET.alts[4], t);
      AlternativeReads(4, t);
    } else if |t| == 2 {
      DigitsAre(t[1]);
      FitsTwo(OCTET.alts[3], t);
      AlternativeReads(3, t);
    } else {
      ThreeDigitOctet(t);
    }
  }

  lemma ThreeDigitOctet(t: string)
    requires |t| == 3 && t[0] != '0'
    requires Addresses.IsDigit(t[0]) && Addresses.IsDigit(t[1]) && Addresses.IsDigit(t[2])
    requires 100 * DigitValue(t[0]) + 10 * DigitValue(t[1]) + DigitValue(t[2]) <= 255
    ensures Reads(OCTET, t)
  {
    DigitsAre(t[1]);
    DigitsAre(t[2]);
    if t[0] == '1' {
      FitsThree(OCTET.alts[2], t);
      AlternativeReads(2, t);
    } else {
      assert t[0] == '2';
      if t[1] == '5' {
        assert t[2] in {'0', '1', '2', '3', '4', '5'};
        FitsThree(OCTET.alts[0], t);
        AlternativeReads(0, t);
      } else {
        assert t[1] in {'0', '1', '2', '3', '4'};
        FitsThree(OCTET.alts[1], t);
        AlternativeReads(1, t);
      }
    }
  }

  /** A number of more than three digits without a leading zero exceeds 255. */
  lemma {:induction false} LongNumber(t: string)
    requires AllDigits(t) && |t| >= 1 && t[0] != '0'
    ensures |t| >= 4 ==> Number(t) >= 1000
    ensures |t| == 3 ==> Number(t) >= 100
    ensures |t| == 2 ==> Number(t) >= 10
    ensures Number(t) >= 1
  {
    if |t| == 1 {
      assert t[..0] == "";
    } else {
      var init := t[..|t| - 1];
      assert init[0] == t[0];
      assert AllDigits(init);
      LongNumber(init);
      assert Addresses.IsDigit(t[|t| - 1]);
    }
  }

  lemma FlatStep(ts: seq<string>, k: nat)
    requires k < |ts|
    ensures Flat(ts[k..]) == ts[k] + Flat(ts[k + 1..])
  {
    assert ts[k..][1..] == ts[k + 1..];
  }

  lemma FlatTail(ts: seq<string>)
    requires |ts| == 7
    ensures Flat(ts[4..]) == ts[4] + ts[5] + ts[6]
  {
    FlatStep(ts, 4);
    FlatStep(ts, 5);
    FlatStep(ts, 6);
    assert ts[7..] == [] && ts[6] + "" == ts[6];
    SeqAssoc(ts[4], ts[5], ts[6]);
  }

  lemma FlatSeven(ts: seq<string>)
    requires |ts| == 7
    ensures Flat(ts) == ts[0] + (ts[1] + (ts[2] + (ts[3] + (ts[4] + ts[5] + ts[6]))))
  {
    FlatTail(ts);
    FlatStep(ts, 3);
    FlatStep(ts, 2);
    FlatStep(ts, 1);
    FlatStep(ts, 0);
    assert ts[0..] == ts;
  }

  lemma JoinFour(a: string, b: string, c: string, d: string)
    ensures JoinDots([a, b, c, d]) == a + ("." + (b + ("." + (c + "." + d))))
  {
    assert [a, b][..1] == [a];
    assert JoinDots([a, b]) == a + "." + b;
    assert [a, b, c][..2] == [a, b];
    assert JoinDots([a, b, c]) == a + "." + b + "." + c;
    assert [a, b, c, d][..3] == [a, b, c];
    assert JoinDots([a, b, c, d]) == a + "." + b + "." + c + "." + d;
    JoinNested(a, b, c, d);
  }

  lemma JoinNested(a: string, b: string, c: string, d: string)
    ensures a + "." + b + "." + c + "." + d == a + ("." + (b + ("." + (c + "." + d))))
  {
    var tail := c + "." + d;
    assert a + "." + b + "." + c + "." + d == a + "." + b + "." + tail;
    assert a + "." + b + "." + tail == a + "." + (b + ("." + tail));
  }

  lemma OctetDotFree(t: string)
    requires IsOctet(t)
    ensures '.' !in t
  {
    assert forall k :: 0 <= k < |t| ==> Addresses.IsDigit(t[k]);
  }

  lemma ItemOfIPv4(k: nat, t: string)
    requires k < 7
    ensures |IPV4.items| == 7 && Local(IPV4.items[k])
    ensures Reads(IPV4.items[k], t) <==> if k % 2 == 0 then IsOctet(t) else t == "."
  {
    if k % 2 == 0 {
      assert IPV4.items[k] == OCTET;
      OctetReads(t);
    } else {
      assert IPV4.items[k] == DOT;
      LiteralReads(".", t);
    }
  }

  predicate QuadPieces(ts: seq<string>) {
    |ts| == 7 && forall k :: 0 <= k < 7 ==> if k % 2 == 0 then IsOctet(ts[k]) else ts[k] == "."
  }

  lemma EachOfIPv4(ts: seq<string>)
    ensures Local(IPV4) && (EachReads(IPV4.items, ts) <==> QuadPieces(ts))
  {
    if |ts| == 7 {
      forall k | 0 <= k < 7
        ensures Reads(IPV4.items[k], ts[k]) <==> if k % 2 == 0 then IsOctet(ts[k]) else ts[k] == "."
      {
        ItemOfIPv4(k, ts[k]);
      }
    }
  }

  lemma IPv4Pieces(ts: seq<string>)
    ensures ReadsAll(IPV4.items, ts) <==> QuadPieces(ts)
  {
    EachOfIPv4(ts);
    ReadsEach(IPV4.items, ts);
  }

  lemma QuadParts(ts: seq<string>)
    requires QuadPieces(ts)
    ensures IsIPv4(Flat(ts))
  {
    var a, b, c, d := ts[0], ts[2], ts[4], ts[6];
    assert IsOctet(a) && IsOctet(b) && IsOctet(c) && IsOctet(d);
    assert ts[1] == "." && ts[3] == "." && ts[5] == ".";
    FlatSeven(ts);
    JoinFour(a, b, c, d);
    OctetDotFree(a);
    OctetDotFree(b);
    OctetDotFree(c);
    OctetDotFree(d);
    PartsUndoJoin([a, b, c, d]);
  }

  lemma PartsQuad(t: string) returns (ts: seq<string>)
    requires IsIPv4(t)
    ensures QuadPieces(ts) && Flat(ts) == t
  {
    var ps := Parts(t);
    JoinUndoesParts(t);
    assert ps == [ps[0], ps[1], ps[2], ps[3]];
    JoinFour(ps[0], ps[1], ps[2], ps[3]);
    ts := [ps[0], ".", ps[1], ".", ps[2], ".", ps[3]];
    FlatSeven(ts);
    assert IsOctet(ps[0]) && IsOctet(ps[1]) && IsOctet(ps[2]) && IsOctet(ps[3]);
  }

  /** Four octets with dots between them. */
  lemma IPv4Reads(t: string)
    ensures Local(IPV4) && (Reads(IPV4, t) <==> IsIPv4(t))
  {
    if Reads(IPV4, t) {
      assert ReadsSeq(IPV4.items, t);
      var ts :| ReadsAll(IPV4.items, ts) && Flat(ts) == t;
      IPv4Pieces(ts);
      QuadParts(ts);
    }
    if IsIPv4(t) {
      var ts := PartsQuad(t);
      IPv4Pieces(ts);
      assert ReadsSeq(IPV4.items, t);
    }
  }

  // ----------------------------------------------------------------- one way to match

  lemma StopsAtLiteral(item: Item, chars: set<char>, text: string)
    requires Within(item, chars) && text != "" && text[0] !in chars
    ensures Stops(item, Literal(text))
  {
    assert StopsAt(item, Literal(text), chars);
  }

  lemma LiteralWithin(text: string, chars: set<char>)
    requires forall k :: 0 <= k < |text| ==> text[k] in chars
    ensures Within(Literal(text), chars)
  {
  }

  lemma IPv4Within()
    ensures Within(IPV4, ADDRESS_CHARS)
  {
    LiteralWithin(".", ADDRESS_CHARS);
    forall a, c | a in OCTET.alts && c in a ensures c.In? && c.chars <= ADDRESS_CHARS {
    }
    assert Within(OCTET, ADDRESS_CHARS);
    forall x | x in IPV4.items ensures Within(x, ADDRESS_CHARS) {
    }
  }

  /** The elements of the address patterns whose end the next element settles. */
  lemma AddressPieces()
    ensures Stops(IPV4, Literal(":")) && Stops(IPV4, Literal("->")) && Stops(IPV4, Literal(")->"))
    ensures Stops(IPV4, NOT_ADDR_AFTER)
    ensures Stops(PORT, Literal("->")) && Stops(PORT, Literal(")->"))
    ensures Stops(BLANKS, Literal("("))
  {
    IPv4Within();
    StopsAtLiteral(IPV4, ADDRESS_CHARS, ":");
    StopsAtLiteral(IPV4, ADDRESS_CHARS, "->");
    StopsAtLiteral(IPV4, ADDRESS_CHARS, ")->");
    assert StopsAt(IPV4, NOT_ADDR_AFTER, ADDRESS_CHARS);
    StopsAtLiteral(PORT, DIGITS, "->");
    StopsAtLiteral(PORT, DIGITS, ")->");
    StopsAtLiteral(BLANKS, SPACES, "(");
  }

  lemma NatPortsForced()
    ensures forall k :: 0 <= k < |SRCNAT_PORTS| - 1 ==> Forced(SRCNAT_PORTS, k)
  {
    AddressPieces();
  }

  lemma NatNoPortsForced()
    ensures forall k :: 0 <= k < |SRCNAT_NOPORTS| ==> Forced(SRCNAT_NOPORTS, k)
  {
    AddressPieces();
  }

  lemma PlainPortsForced()
    ensures forall k :: 0 <= k < |PLAIN_PORTS| - 1 ==> Forced(PLAIN_PORTS, k)
  {
    AddressPieces();
  }

  lemma PlainNoPortsForced()
    ensures forall k :: 0 <= k < |PLAIN_NOPORTS| ==> Forced(PLAIN_NOPORTS, k)
  {
    AddressPieces();
  }

  /** Nothing keeps the last port from ending at e: it has five digits, or no digit follows. */
  predicate PortComplete(s: string, start: nat, e: nat) {
    start <= e <= |s| && (e - start == 5 || e == |s| || !Addresses.IsDigit(s[e]))
  }

  lemma PortIsGreedy(s: string, start: nat, e: nat, d: nat)
    requires start <= |s| && d in Ends(PORT, s, start) && PortComplete(s, start, d)
    requires Preferred(Ends(PORT, s, start), e, d)
    ensures e == d
  {
    var n := RunLength(DIGIT, Some(5), s, start);
    if d < start + n {
      assert Has(DIGIT, s[d]);
      DigitsAre(s[d]);
    }
    assert Ends(PORT, s, start)[0] == d;
  }

  /** A pattern whose elements are all settled matches in the one way given. */
  lemma ExactMatch(p: Pattern, s: string, i: nat, d: seq<nat>)
    requires i <= |s| && Fits(p, s, i, d)
    requires forall k :: 0 <= k < |p| ==> Forced(p, k)
    ensures Match(p, s, i) == Some(d)
  {
    MatchIffFits(p, s, i);
    var c := Match(p, s, i).value;
    ForcedCuts(p, s, i, c, d, |p|);
    assert c[..|p|] == c && d[..|p|] == d;
  }

  /** With a port at the end, greed settles the last element. */
  lemma ExactPortMatch(p: Pattern, s: string, i: nat, d: seq<nat>)
    requires i <= |s| && |p| > 1 && Fits(p, s, i, d)
    requires forall k :: 0 <= k < |p| - 1 ==> Forced(p, k)
    requires p[|p| - 1] == PORT && PortComplete(s, d[|p| - 2], d[|p| - 1])
    ensures Match(p, s, i) == Some(d)
  {
    var c := PreferredLast(p, s, i, d);
    var last := |p| - 1;
    PortIsGreedy(s, d[last - 1], c[last], d[last]);
    SameCuts(c, d, last);
  }

  lemma SameCuts(c: seq<nat>, d: seq<nat>, last: nat)
    requires |c| == |d| == last + 1 && c[..last] == d[..last] && c[last] == d[last]
    ensures c == d
  {
    assert c == c[..last] + [c[last]] && d == d[..last] + [d[last]];
  }

  /** The match has the same cuts but for the last one, and prefers its own. */
  lemma PreferredLast(p: Pattern, s: string, i: nat, d: seq<nat>) returns (c: seq<nat>)
    requires i <= |s| && |p| > 1 && Fits(p, s, i, d) && forall k :: 0 <= k < |p| - 1 ==> Forced(p, k)
    requires p[|p| - 1] == PORT
    ensures Match(p, s, i) == Some(c) && |c| == |p| == |d| && c[..|p| - 1] == d[..|p| - 1]
    ensures d[|p| - 2] <= |s| && d[|p| - 1] in Ends(PORT, s, d[|p| - 2])
    ensures Preferred(Ends(PORT, s, d[|p| - 2]), c[|p| - 1], d[|p| - 1])
  {
    MatchIffFits(p, s, i);
    c := Match(p, s, i).value;
    LastCut(p, s, i, d);
    ForcedCuts(p, s, i, c, d, |p| - 1);
    MatchIsPreferred(p, s, i, d, |p| - 1);
  }

  lemma {:induction false} LastCut(p: Pattern, s: string, i: nat, d: seq<nat>)
    requires i <= |s| && p != [] && Fits(p, s, i, d)
    ensures var last := |p| - 1; var start := if last == 0 then i else d[last - 1];
      start <= |s| && d[last] in Ends(p[last], s, start)
    decreases p
  {
    if |p| > 1 {
      LastCut(p[1..], s, d[0], d[1..]);
    }
  }

  lemma {:induction false} ReplaceLast(p: Pattern, s: string, i: nat, c: seq<nat>, e: nat)
    requires i <= |s| && |p| > 1 && Fits(p, s, i, c)
    requires e <= |s| && c[|p| - 2] <= |s| && e in Ends(p[|p| - 1], s, c[|p| - 2])
    ensures Fits(p, s, i, c[..|p| - 1] + [e])
    decreases p
  {
    var d := c[..|p| - 1] + [e];
    if |p| == 2 {
      assert d[1..] == [e] && p[1..] == [p[1]];
      assert Fits(p[1..], s, c[0], [e]) by {
        assert [e][1..] == [] && p[1..][1..] == [];
      }
    } else {
      ReplaceLast(p[1..], s, c[0], c[1..], e);
      assert d[1..] == c[1..][..|p| - 2] + [e];
    }
  }

  /** A match reads its last port to the end. */
  lemma MatchedPortIsComplete(p: Pattern, s: string, i: nat)
    requires i <= |s| && |p| > 1 && p[|p| - 1] == PORT && Match(p, s, i).Some?
    ensures var c := Match(p, s, i).value;
      |c| == |p| && PortComplete(s, c[|p| - 2], c[|p| - 1])
  {
    var c, last := Match(p, s, i).value, |p| - 1;
    MatchIffFits(p, s, i);
    LastCut(p, s, i, c);
    var start := c[last - 1];
    var n := RunLength(DIGIT, Some(5), s, start);
    var longest := start + n;
    assert Ends(PORT, s, start)[0] == longest;
    ReplaceLast(p, s, i, c, longest);
    var d := c[..last] + [longest];
    assert d[..last] == c[..last];
    MatchIsPreferred(p, s, i, d, last);
    assert c[last] == longest;
    if longest < |s| {
      DigitsAre(s[longest]);
    }
  }
}
