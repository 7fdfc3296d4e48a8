/** backend/app/parser/base.py: the hand-written IPv4 scanner, and what a dotted quad is. */
module Addresses {
  predicate IsDigit(c: char) {
    '0' <= c <= '9'
  }

  predicate AllDigits(t: string) {
    forall k :: 0 <= k < |t| ==> IsDigit(t[k])
  }

  function DigitValue(c: char): int {
    c as int - '0' as int
  }

  /** int(t) for a string of decimal digits. */
  function Number(t: string): int {
    if t == "" then 0 else 10 * Number(t[..|t| - 1]) + DigitValue(t[|t| - 1])
  }

  lemma {:induction false} NumberIsNatural(t: string)
    requires AllDigits(t)
    ensures Number(t) >= 0
  {
    if t != "" {
      NumberIsNatural(t[..|t| - 1]);
    }
  }

  /** A decimal number from 0 to 255; the scanner does not mind leading zeros. */
  predicate IsLooseOctet(t: string) {
    t != "" && AllDigits(t) && Number(t) <= 255
  }

  /** The canonical spelling. */
  predicate IsOctet(t: string) {
    IsLooseOctet(t) && !LeadingZero(t)
  }

  predicate LeadingZero(t: string) {
    |t| > 1 && t[0] == '0'
  }

  /** The text between the dots. */
  function Parts(t: string): (ps: seq<string>)
    ensures |ps| >= 1
  {
    if t == "" then [""]
    else
      var init, c := Parts(t[..|t| - 1]), t[|t| - 1];
      if c == '.' then init + [""] else init[..|init| - 1] + [init[|init| - 1] + [c]]
  }

  function JoinDots(ps: seq<string>): string
    requires ps != []
  {
    if |ps| == 1 then ps[0] else JoinDots(ps[..|ps| - 1]) + "." + ps[|ps| - 1]
  }

  predicate LooseOctets(ps: seq<string>) {
    |ps| == 4 && forall k :: 0 <= k < |ps| ==> IsLooseOctet(ps[k])
  }

  predicate Octets(ps: seq<string>) {
    |ps| == 4 && forall k :: 0 <= k < |ps| ==> IsOctet(ps[k])
  }

  /** Four numbers from 0 to 255 with dots between them. */
  predicate IsLooseIPv4(t: string) {
    LooseOctets(Parts(t))
  }

  predicate IsIPv4(t: string) {
    Octets(Parts(t))
  }

  predicate DotFree(ps: seq<string>) {
    forall k :: 0 <= k < |ps| ==> '.' !in ps[k]
  }

  lemma {:induction false} JoinUndoesParts(t: string)
    ensures JoinDots(Parts(t)) == t && DotFree(Parts(t))
  {
    if t != "" {
      JoinUndoesParts(t[..|t| - 1]);
      var init, c, ps := Parts(t[..|t| - 1]), t[|t| - 1], Parts(t);
      assert t == t[..|t| - 1] + [c];
      if c == '.' {
        assert ps[..|ps| - 1] == init;
        assert JoinDots(init) + "." + "" == JoinDots(init) + ".";
      } else if |init| > 1 {
        assert ps[..|ps| - 1] == init[..|init| - 1];
      }
    }
  }

  function Extended(ps: seq<string>, u: string): seq<string>
    requires ps != []
  {
    ps[..|ps| - 1] + [ps[|ps| - 1] + u]
  }

  lemma ExtendedTwice(ps: seq<string>, u: string, v: string)
    requires ps != []
    ensures Extended(Extended(ps, u), v) == Extended(ps, u + v)
  {
    var last := ps[|ps| - 1];
    assert Extended(ps, u)[..|ps| - 1] == ps[..|ps| - 1];
    assert (last + u) + v == last + (u + v);
  }

  lemma PartsStep(t: string, v: string, c: char)
    requires c != '.'
    ensures Parts(t + (v + [c])) == Extended(Parts(t + v), [c])
  {
    assert (t + (v + [c]))[..|t + v|] == t + v;
  }

  lemma {:induction false} PartsAppend(t: string, u: string)
    requires '.' !in u
    ensures Parts(t + u) == Extended(Parts(t), u)
    decreases |u|
  {
    if u == "" {
      assert t + u == t;
      ExtendedByNothing(Parts(t));
    } else {
      var v, c := u[..|u| - 1], u[|u| - 1];
      PartsAppend(t, v);
      assert u == v + [c];
      PartsStep(t, v, c);
      ExtendedTwice(Parts(t), v, [c]);
    }
  }

  lemma ExtendedByNothing(ps: seq<string>)
    requires ps != []
    ensures Extended(ps, "") == ps
  {
    assert ps[|ps| - 1] + "" == ps[|ps| - 1];
  }

  lemma PartsDot(t: string)
    ensures Parts(t + ".") == Parts(t) + [""]
  {
    assert (t + ".")[..|t|] == t;
  }

  lemma ExtendedEmpty(init: seq<string>, u: string)
    ensures Extended(init + [""], u) == init + [u]
  {
    assert (init + [""])[..|init|] == init;
    assert "" + u == u;
  }

  lemma {:induction false} PartsUndoJoin(ps: seq<string>)
    requires ps != [] && DotFree(ps)
    ensures Parts(JoinDots(ps)) == ps
  {
    var init, last := ps[..|ps| - 1], ps[|ps| - 1];
    assert ps == init + [last];
    if |ps| == 1 {
      PartsAppend("", last);
      assert "" + last == last;
    } else {
      PartsUndoJoin(init);
      PartsDot(JoinDots(init));
      PartsAppend(JoinDots(init) + ".", last);
      ExtendedEmpty(init, last);
    }
  }

  /** A part that no further text can repair. */
  predicate Hopeless(ps: seq<string>) {
    exists k :: 0 <= k < |ps| && (!AllDigits(ps[k]) || Number(ps[k]) > 255 || (k < |ps| - 1 && ps[k] == ""))
  }

  lemma HopelessStays(t: string, c: char)
    requires Hopeless(Parts(t))
    ensures Hopeless(Parts(t + [c]))
  {
    var ps := Parts(t);
    assert (t + [c])[..|t|] == t;
    var qs := Parts(t + [c]);
    var k :| 0 <= k < |ps| && (!AllDigits(ps[k]) || Number(ps[k]) > 255 || (k < |ps| - 1 && ps[k] == ""));
    if k < |ps| - 1 || c == '.' {
      assert qs[k] == ps[k];
    } else {
      assert qs[k] == ps[k] + [c];
      assert qs[k][..|ps[k]|] == ps[k];
      if AllDigits(qs[k]) {
        assert forall j :: 0 <= j < |ps[k]| ==> qs[k][j] == ps[k][j];
        assert IsDigit(qs[k][|ps[k]|]);
      }
    }
  }

  lemma {:induction false} HopelessForEver(t: string, u: string)
    requires Hopeless(Parts(t))
    ensures Hopeless(Parts(t + u))
  {
    if u == "" {
      assert t + u == t;
    } else {
      HopelessForEver(t, u[..|u| - 1]);
      assert t + u == (t + u[..|u| - 1]) + [u[|u| - 1]];
      HopelessStays(t + u[..|u| - 1], u[|u| - 1]);
    }
  }

  /** What the scanner knows after reading t: n dots, and the number since the last one, -1 for none. */
  predicate Scanned(t: string, n: nat, octet: int) {
    var ps := Parts(t);
    && !Hopeless(ps) && |ps| == n + 1
    && octet == if ps[n] == "" then -1 else Number(ps[n])
  }

  lemma ScanDot(t: string, n: nat, octet: int)
    requires Scanned(t, n, octet)
    ensures octet <= 255
    ensures octet < 0 ==> Hopeless(Parts(t + "."))
    ensures octet >= 0 ==> Scanned(t + ".", n + 1, -1)
  {
    var ps, qs := Parts(t), Parts(t + ".");
    PartsDot(t);
    assert forall k :: 0 <= k <= n ==> qs[k] == ps[k];
    assert AllDigits(ps[n]) && Number(ps[n]) <= 255;
    NumberIsNatural(ps[n]);
    if octet < 0 {
      assert qs[n] == "" && n < |qs| - 1;
    }
  }

  lemma ScanOther(t: string, c: char, n: nat, octet: int)
    requires Scanned(t, n, octet) && c != '.'
    ensures !IsDigit(c) ==> Hopeless(Parts(t + [c]))
    ensures IsDigit(c) ==>
              var o := if octet < 0 then DigitValue(c) else octet * 10 + DigitValue(c);
              if o > 255 then Hopeless(Parts(t + [c])) else Scanned(t + [c], n, o)
  {
    var ps, qs := Parts(t), Parts(t + [c]);
    assert (t + [c])[..|t|] == t;
    assert qs[n] == ps[n] + [c] && qs[n][..|ps[n]|] == ps[n];
    assert forall k :: 0 <= k < n ==> qs[k] == ps[k];
    assert AllDigits(ps[n]) && Number(ps[n]) <= 255;
    NumberIsNatural(ps[n]);
    if !IsDigit(c) {
      assert !IsDigit(qs[n][|ps[n]|]);
    } else {
      assert AllDigits(qs[n]);
      assert Number(qs[n]) == 10 * Number(ps[n]) + DigitValue(c);
    }
  }

  lemma ScannedAll(t: string, n: nat, octet: int)
    requires Scanned(t, n, octet)
    ensures n == 3 && 0 <= octet <= 255 <==> IsLooseIPv4(t)
  {
    var ps := Parts(t);
    NumberIsNatural(ps[n]);
    if n == 3 && 0 <= octet <= 255 {
      forall k | 0 <= k < 4 ensures IsLooseOctet(ps[k]) {
        assert AllDigits(ps[k]) && Number(ps[k]) <= 255;
      }
    }
    if IsLooseIPv4(t) {
      assert IsLooseOctet(ps[3]);
    }
  }

  lemma HopelessIsInvalid(t: string)
    requires Hopeless(Parts(t))
    ensures !IsLooseIPv4(t)
  {
    var ps := Parts(t);
    var k :| 0 <= k < |ps| && (!AllDigits(ps[k]) || Number(ps[k]) > 255 || (k < |ps| - 1 && ps[k] == ""));
    assert |ps| == 4 ==> !IsLooseOctet(ps[k]);
  }

  /** valid_ipv4: octet is -1 between a dot and the next digit. */
  method ValidIPv4(text: string) returns (valid: bool)
    ensures valid <==> IsLooseIPv4(text)
  {
    var n, octet := 0, -1;
    assert text[..0] == "";
    for i := 0 to |text|
      invariant Scanned(text[..i], n, octet)
    {
      var ch := text[i];
      assert text[..i + 1] == text[..i] + [ch];
      assert text == text[..i + 1] + text[i + 1..];
      if ch == '.' {
        ScanDot(text[..i], n, octet);
        if octet < 0 || octet > 255 {
          HopelessForEver(text[..i + 1], text[i + 1..]);
          HopelessIsInvalid(text);
          return false;
        }
        n, octet := n + 1, -1;
      } else {
        ScanOther(text[..i], ch, n, octet);
        var d := ch as int - 48;
        if d < 0 || d > 9 {
          HopelessForEver(text[..i + 1], text[i + 1..]);
          HopelessIsInvalid(text);
          return false;
        }
        octet := if octet < 0 then d else octet * 10 + d;
        if octet > 255 {
          HopelessForEver(text[..i + 1], text[i + 1..]);
          HopelessIsInvalid(text);
          return false;
        }
      }
    }
    assert text[..|text|] == text;
    ScannedAll(text, n, octet);
    valid := n == 3 && 0 <= octet <= 255;
  }

  predicate NoLeadingZero(ps: seq<string>) {
    forall k :: 0 <= k < |ps| ==> !LeadingZero(ps[k])
  }

  /** What the patterns accept is what the scanner accepts, minus leading zeros. */
  lemma CanonicalIffNoLeadingZero(t: string)
    ensures IsIPv4(t) <==> IsLooseIPv4(t) && NoLeadingZero(Parts(t))
  {
    OctetsIff(Parts(t));
  }

  lemma OctetsIff(ps: seq<string>)
    ensures Octets(ps) <==> LooseOctets(ps) && NoLeadingZero(ps)
  {
    if LooseOctets(ps) && NoLeadingZero(ps) {
      forall k | 0 <= k < |ps| ensures IsOctet(ps[k]) {
        assert IsLooseOctet(ps[k]) && !LeadingZero(ps[k]);
      }
    }
    if Octets(ps) {
      forall k | 0 <= k < |ps| ensures IsLooseOctet(ps[k]) && !LeadingZero(ps[k]) {
        assert IsOctet(ps[k]);
      }
    }
  }
}
