/** The part of Python's regular expressions that the parser's patterns use, with the order in which
    a backtracking matcher tries its possibilities.  Text is ASCII. */
module Regex {
  import opened Wrappers

  /** A character class; negated classes are the [^...] form. */
  datatype Class = In(chars: set<char>) | NotIn(chars: set<char>)

  /** One element of a concatenation.
      Choice   fixed-length alternatives, tried in order: literals, ranges, the optional character
      Run      a greedy repetition of one class, at least min and at most max times
      Group    a parenthesised concatenation
      the last three are zero-width */
  datatype Item =
    | Choice(alts: seq<seq<Class>>)
    | Run(cls: Class, min: nat, max: Option<nat>)
    | Group(items: seq<Item>)
    | NotAhead(cls: Class)
    | NotBehind(cls: Class)
    | Boundary(word: set<char>)

  type Pattern = seq<Item>

  predicate Has(cls: Class, c: char) {
    match cls
    case In(chars) => c in chars
    case NotIn(chars) => c !in chars
  }

  predicate FitsClasses(classes: seq<Class>, s: string, i: nat) {
    i + |classes| <= |s| && forall k :: 0 <= k < |classes| ==> Has(classes[k], s[i + k])
  }

  /** The length of the longest run of the class at i, up to the limit. */
  function RunLength(cls: Class, max: Option<nat>, s: string, i: nat): (n: nat)
    requires i <= |s|
    ensures i + n <= |s| && (max.Some? ==> n <= max.value)
    ensures forall k :: i <= k < i + n ==> Has(cls, s[k])
    ensures i + n == |s| || !Has(cls, s[i + n]) || max == Some(n)
    decreases |s| - i
  {
    if i == |s| || !Has(cls, s[i]) || max == Some(0) then 0
    else 1 + RunLength(cls, if max.Some? then Some(max.value - 1) else None, s, i + 1)
  }

  /** hi, hi - 1, ..., lo */
  function Down(hi: nat, lo: nat): (r: seq<nat>)
    ensures forall e :: e in r <==> lo <= e <= hi
    ensures forall k :: 0 <= k < |r| ==> r[k] == hi - k
    decreases hi - lo
  {
    if hi < lo then [] else if hi == 0 then [0] else [hi] + Down(hi - 1, lo)
  }

  function WordAt(word: set<char>, s: string, i: int): bool {
    0 <= i < |s| && s[i] in word
  }

  // ----------------------------------------------------------------- the matcher

  function ChoiceEnds(alts: seq<seq<Class>>, s: string, i: nat): (r: seq<nat>)
    ensures forall e :: e in r <==> exists a :: a in alts && FitsClasses(a, s, i) && e == i + |a|
  {
    if alts == [] then []
    else (if FitsClasses(alts[0], s, i) then [i + |alts[0]|] else []) + ChoiceEnds(alts[1..], s, i)
  }

  /** Every place where the item may end when it begins at i, the preferred one first. */
  function Ends(item: Item, s: string, i: nat): seq<nat>
    requires i <= |s|
    decreases item, 0
  {
    match item
    case Choice(alts) => ChoiceEnds(alts, s, i)
    case Run(cls, min, max) => Down(i + RunLength(cls, max, s, i), i + min)
    case Group(items) => AllEnds(items, s, i)
    case NotAhead(cls) => if i < |s| && Has(cls, s[i]) then [] else [i]
    case NotBehind(cls) => if i > 0 && Has(cls, s[i - 1]) then [] else [i]
    case Boundary(word) => if WordAt(word, s, i - 1) != WordAt(word, s, i) then [i] else []
  }

  function AllEnds(items: seq<Item>, s: string, i: nat): seq<nat>
    requires i <= |s|
    decreases items, 1
  {
    if items == [] then [i] else AllFrom(items, s, Ends(items[0], s, i))
  }

  function AllFrom(items: seq<Item>, s: string, starts: seq<nat>): seq<nat>
    requires items != []
    decreases items, 0, |starts|
  {
    if starts == [] then []
    else (if starts[0] <= |s| then AllEnds(items[1..], s, starts[0]) else []) + AllFrom(items, s, starts[1..])
  }

  /** The first way a backtracking matcher finds to match the pattern at i: where each item ends. */
  function Match(p: Pattern, s: string, i: nat): Option<seq<nat>>
    requires i <= |s|
    decreases p, 1
  {
    if p == [] then Some([]) else MatchFrom(p, s, Ends(p[0], s, i))
  }

  function MatchFrom(p: Pattern, s: string, ends: seq<nat>): Option<seq<nat>>
    requires p != []
    decreases p, 0, |ends|
  {
    if ends == [] then None
    else
      var rest := if ends[0] <= |s| then Match(p[1..], s, ends[0]) else None;
      if rest.Some? then Some([ends[0]] + rest.value) else MatchFrom(p, s, ends[1..])
  }

  /** re.search: the leftmost match. */
  datatype Found = Found(start: nat, cuts: seq<nat>)

  function Search(p: Pattern, s: string, i: nat): Option<Found>
    requires i <= |s|
    decreases |s| - i
  {
    var m := Match(p, s, i);
    if m.Some? then Some(Found(i, m.value))
    else if i < |s| then Search(p, s, i + 1)
    else None
  }

  // ----------------------------------------------------------------- what a match is

  /** The positions cut the text into one piece for every item. */
  predicate Fits(p: Pattern, s: string, i: nat, cuts: seq<nat>)
    requires i <= |s|
    decreases p
  {
    |cuts| == |p| &&
    (p != [] ==> cuts[0] <= |s| && cuts[0] in Ends(p[0], s, i) && Fits(p[1..], s, cuts[0], cuts[1..]))
  }

  lemma {:induction false} MatchFromIs(p: Pattern, s: string, ends: seq<nat>)
    requires p != []
    ensures MatchFrom(p, s, ends).None? ==>
              forall k :: 0 <= k < |ends| && ends[k] <= |s| ==> Match(p[1..], s, ends[k]).None?
    ensures MatchFrom(p, s, ends).Some? ==> exists k :: 0 <= k < |ends| && FirstOf(p, s, ends, k)
    decreases |ends|
  {
    if ends != [] {
      var rest := if ends[0] <= |s| then Match(p[1..], s, ends[0]) else None;
      if rest.Some? {
        assert FirstOf(p, s, ends, 0);
      } else {
        MatchFromIs(p, s, ends[1..]);
        if MatchFrom(p, s, ends[1..]).Some? {
          var k :| 0 <= k < |ends[1..]| && FirstOf(p, s, ends[1..], k);
          assert ends[1..][k] == ends[k + 1];
          forall j | 0 <= j < k + 1 && ends[j] <= |s| ensures Match(p[1..], s, ends[j]).None? {
            if j > 0 {
              assert ends[j] == ends[1..][j - 1];
            }
          }
          assert FirstOf(p, s, ends, k + 1);
        } else {
          forall j | 0 <= j < |ends| && ends[j] <= |s| ensures Match(p[1..], s, ends[j]).None? {
            if j > 0 {
              assert ends[j] == ends[1..][j - 1];
            }
          }
        }
      }
    }
  }

  /** The k-th end is the first from which the rest of the pattern matches. */
  predicate FirstOf(p: Pattern, s: string, ends: seq<nat>, k: nat)
    requires p != [] && k < |ends|
  {
    && ends[k] <= |s| && Match(p[1..], s, ends[k]).Some?
    && MatchFrom(p, s, ends) == Some([ends[k]] + Match(p[1..], s, ends[k]).value)
    && forall j :: 0 <= j < k && ends[j] <= |s| ==> Match(p[1..], s, ends[j]).None?
  }

  /** The matcher finds a match exactly when there is one, and what it finds is one. */
  lemma {:induction false} MatchIffFits(p: Pattern, s: string, i: nat)
    requires i <= |s|
    ensures Match(p, s, i).Some? ==> Fits(p, s, i, Match(p, s, i).value)
    ensures forall cuts :: Fits(p, s, i, cuts) ==> Match(p, s, i).Some?
    decreases p
  {
    if p != [] {
      var ends := Ends(p[0], s, i);
      MatchFromIs(p, s, ends);
      if Match(p, s, i).Some? {
        var k :| 0 <= k < |ends| && FirstOf(p, s, ends, k);
        MatchIffFits(p[1..], s, ends[k]);
        assert Match(p, s, i).value[1..] == Match(p[1..], s, ends[k]).value;
      }
      forall cuts | Fits(p, s, i, cuts) ensures Match(p, s, i).Some? {
        MatchIffFits(p[1..], s, cuts[0]);
        assert Fits(p[1..], s, cuts[0], cuts[1..]);
        var k :| 0 <= k < |ends| && ends[k] == cuts[0];
        assert Match(p[1..], s, ends[k]).Some?;
      }
    }
  }

  /** e comes no later than d in the order of preference. */
  predicate Preferred(ends: seq<nat>, e: nat, d: nat) {
    forall k :: 0 <= k < |ends| && ends[k] == d ==> exists j :: 0 <= j <= k && ends[j] == e
  }

  /** Among all ways to match, the matcher's is the one a backtracking search reaches first: where
      another way first departs from it, its own end is preferred. */
  lemma {:induction false} MatchIsPreferred(p: Pattern, s: string, i: nat, cuts: seq<nat>, k: nat)
    requires i <= |s| && Fits(p, s, i, cuts) && k < |p|
    requires Match(p, s, i).Some? && |Match(p, s, i).value| == |p| && Match(p, s, i).value[..k] == cuts[..k]
    ensures var start := if k == 0 then i else cuts[k - 1];
      start <= |s| && Preferred(Ends(p[k], s, start), Match(p, s, i).value[k], cuts[k])
    decreases p
  {
    var found := Match(p, s, i).value;
    var ends := Ends(p[0], s, i);
    MatchFromIs(p, s, ends);
    var f :| 0 <= f < |ends| && FirstOf(p, s, ends, f);
    assert found[0] == ends[f] && found[1..] == Match(p[1..], s, ends[f]).value;
    if k == 0 {
      MatchIffFits(p[1..], s, cuts[0]);
      forall d | 0 <= d < |ends| && ends[d] == cuts[0] ensures exists j :: 0 <= j <= d && ends[j] == found[0] {
        assert f <= d;
      }
    } else {
      assert found[0] == found[..k][0] == cuts[..k][0] == cuts[0];
      assert found[1..][..k - 1] == found[..k][1..] == cuts[..k][1..] == cuts[1..][..k - 1];
      MatchIsPreferred(p[1..], s, cuts[0], cuts[1..], k - 1);
    }
  }

  /** A search answers with the leftmost place where the pattern matches, and fails only when it
      matches nowhere. */
  lemma {:induction false} SearchIsLeftmost(p: Pattern, s: string, i: nat)
    requires i <= |s|
    ensures Search(p, s, i).Some? ==>
              var f := Search(p, s, i).value;
              && i <= f.start <= |s| && Match(p, s, f.start) == Some(f.cuts)
              && forall j :: i <= j < f.start ==> Match(p, s, j).None?
    ensures Search(p, s, i).None? ==> forall j :: i <= j <= |s| ==> Match(p, s, j).None?
    decreases |s| - i
  {
    if Match(p, s, i).None? && i < |s| {
      SearchIsLeftmost(p, s, i + 1);
    }
  }

  lemma {:induction false} SearchFinds(p: Pattern, s: string, i: nat, j: nat)
    requires i <= j <= |s| && Match(p, s, j).Some?
    requires forall k :: i <= k < j ==> Match(p, s, k).None?
    ensures Search(p, s, i) == Some(Found(j, Match(p, s, j).value))
    decreases j - i
  {
    if i < j {
      SearchFinds(p, s, i + 1, j);
    }
  }

  // ----------------------------------------------------------------- patterns without a choice

  /** Everything the item can match is spelled with these characters. */
  predicate Within(item: Item, chars: set<char>)
    decreases item
  {
    match item
    case Choice(alts) => forall a :: a in alts ==> forall c :: c in a ==> c.In? && c.chars <= chars
    case Run(cls, _, _) => cls.In? && cls.chars <= chars
    case Group(items) => forall x :: x in items ==> Within(x, chars)
    case _ => true
  }

  predicate Spelled(s: string, i: nat, e: nat, chars: set<char>) {
    i <= e <= |s| && forall k :: i <= k < e ==> s[k] in chars
  }

  lemma {:induction false} EndsAreWithin(item: Item, s: string, i: nat, chars: set<char>)
    requires i <= |s| && Within(item, chars)
    ensures forall e :: e in Ends(item, s, i) ==> Spelled(s, i, e, chars)
    decreases item, 0
  {
    match item
    case Choice(alts) =>
      forall e | e in Ends(item, s, i) ensures Spelled(s, i, e, chars) {
        var a :| a in alts && FitsClasses(a, s, i) && e == i + |a|;
        forall k | i <= k < e ensures s[k] in chars {
          assert Has(a[k - i], s[i + (k - i)]);
          assert a[k - i] in a;
        }
      }
    case Group(items) => AllEndsAreWithin(items, s, i, chars);
    case _ =>
  }

  lemma {:induction false} AllEndsAreWithin(items: seq<Item>, s: string, i: nat, chars: set<char>)
    requires i <= |s| && forall x :: x in items ==> Within(x, chars)
    ensures forall e :: e in AllEnds(items, s, i) ==> Spelled(s, i, e, chars)
    decreases items, 1
  {
    if items != [] {
      EndsAreWithin(items[0], s, i, chars);
      AllFromAreWithin(items, s, i, Ends(items[0], s, i), chars);
    }
  }

  lemma {:induction false} AllFromAreWithin(items: seq<Item>, s: string, i: nat, starts: seq<nat>, chars: set<char>)
    requires items != [] && forall x :: x in items ==> Within(x, chars)
    requires forall e :: e in starts ==> Spelled(s, i, e, chars)
    ensures forall e :: e in AllFrom(items, s, starts) ==> Spelled(s, i, e, chars)
    decreases items, 0, |starts|
  {
    if starts != [] {
      assert Spelled(s, i, starts[0], chars);
      AllEndsAreWithin(items[1..], s, starts[0], chars);
      AllFromAreWithin(items, s, i, starts[1..], chars);
    }
  }

  /** Where the item ends is settled by its length, or by the literal that must follow it. */
  predicate Fixed(item: Item) {
    (item.Choice? && |item.alts| == 1) || item.NotAhead? || item.NotBehind? || item.Boundary?
  }

  function Literal(text: string): Item {
    Choice([seq(|text|, k requires 0 <= k < |text| => In({text[k]}))])
  }

  predicate StopsAt(item: Item, next: Item, chars: set<char>) {
    && Within(item, chars)
    && ((next.Choice? && |next.alts| == 1 && next.alts[0] != [] && next.alts[0][0].In? && next.alts[0][0].chars !! chars)
        || (next.NotAhead? && next.cls.In? && chars <= next.cls.chars))
  }

  ghost predicate Stops(item: Item, next: Item) {
    exists chars :: StopsAt(item, next, chars)
  }

  ghost predicate Forced(p: Pattern, k: nat)
    requires k < |p|
  {
    Fixed(p[k]) || (k + 1 < |p| && Stops(p[k], p[k + 1]))
  }

  lemma FixedEnds(item: Item, s: string, i: nat, e: nat, d: nat)
    requires i <= |s| && Fixed(item) && e in Ends(item, s, i) && d in Ends(item, s, i)
    ensures e == d
  {
    if item.Choice? {
      assert forall a :: a in item.alts ==> a == item.alts[0];
    }
  }

  lemma StopsOnce(item: Item, next: Item, s: string, i: nat, e: nat, d: nat, chars: set<char>)
    requires i <= |s| && e <= |s| && d <= |s| && StopsAt(item, next, chars)
    requires e in Ends(item, s, i) && d in Ends(item, s, i)
    requires Ends(next, s, e) != [] && Ends(next, s, d) != []
    ensures e == d
  {
    EndsAreWithin(item, s, i, chars);
    Outside(next, s, e, chars, item);
    Outside(next, s, d, chars, item);
  }

  lemma Outside(next: Item, s: string, e: nat, chars: set<char>, item: Item)
    requires e <= |s| && StopsAt(item, next, chars) && Ends(next, s, e) != []
    ensures e == |s| || s[e] !in chars
  {
    if next.Choice? {
      var a := next.alts[0];
      assert FitsClasses(a, s, e) by {
        assert Ends(next, s, e)[0] in Ends(next, s, e);
      }
      assert Has(a[0], s[e + 0]);
    }
  }

  /** All ways to match such a pattern cut the text at the same places, but for the last items. */
  lemma {:induction false} ForcedCuts(p: Pattern, s: string, i: nat, c: seq<nat>, d: seq<nat>, n: nat)
    requires i <= |s| && Fits(p, s, i, c) && Fits(p, s, i, d) && n <= |p|
    requires forall k :: 0 <= k < n ==> Forced(p, k)
    ensures c[..n] == d[..n]
    decreases p
  {
    if n > 0 {
      assert Forced(p, 0);
      if Fixed(p[0]) {
        FixedEnds(p[0], s, i, c[0], d[0]);
      } else {
        var chars :| StopsAt(p[0], p[1], chars);
        assert c[1..][0] in Ends(p[1..][0], s, c[0]);
        assert d[1..][0] in Ends(p[1..][0], s, d[0]);
        StopsOnce(p[0], p[1], s, i, c[0], d[0], chars);
      }
      forall k | 0 <= k < n - 1 ensures Forced(p[1..], k) {
        assert Forced(p, k + 1);
      }
      ForcedCuts(p[1..], s, c[0], c[1..], d[1..], n - 1);
      assert c[..n] == [c[0]] + c[1..][..n - 1];
      assert d[..n] == [d[0]] + d[1..][..n - 1];
    }
  }

  // ----------------------------------------------------------------- the language of a pattern

  /** The text t stands in s at i. */
  predicate At(s: string, i: nat, t: string) {
    i + |t| <= |s| && s[i..i + |t|] == t
  }

  function Flat(ts: seq<string>): string {
    if ts == [] then "" else ts[0] + Flat(ts[1..])
  }

  /** No look-around inside: whether the item matches a text depends on that text alone. */
  predicate Local(item: Item)
    decreases item
  {
    match item
    case Choice(_) => true
    case Run(_, _, _) => true
    case Group(items) => forall x :: x in items ==> Local(x)
    case _ => false
  }

  /** What the item means, without any order of trying: the set of texts it matches. */
  ghost predicate Reads(item: Item, t: string)
    requires Local(item)
    decreases item, 0
  {
    match item
    case Choice(alts) => exists a :: a in alts && |a| == |t| && FitsClasses(a, t, 0)
    case Run(cls, min, max) => min <= |t| && (max.Some? ==> |t| <= max.value) && forall k :: 0 <= k < |t| ==> Has(cls, t[k])
    case Group(items) => ReadsSeq(items, t)
  }

  /** The text is the concatenation of texts that the items match one by one. */
  ghost predicate ReadsSeq(items: seq<Item>, t: string)
    requires forall x :: x in items ==> Local(x)
    decreases items, 2
  {
    exists ts :: ReadsAll(items, ts) && Flat(ts) == t
  }

  ghost predicate ReadsAll(items: seq<Item>, ts: seq<string>)
    requires forall x :: x in items ==> Local(x)
    decreases items, 1
  {
    |ts| == |items| && (items != [] ==> Reads(items[0], ts[0]) && ReadsAll(items[1..], ts[1..]))
  }

  ghost predicate EachReads(items: seq<Item>, ts: seq<string>)
    requires forall x :: x in items ==> Local(x)
  {
    |ts| == |items| && forall k :: 0 <= k < |items| ==> Reads(items[k], ts[k])
  }

  lemma {:induction false} ReadsEach(items: seq<Item>, ts: seq<string>)
    requires forall x :: x in items ==> Local(x)
    ensures ReadsAll(items, ts) <==> EachReads(items, ts)
    decreases items
  {
    if items != [] && |ts| == |items| {
      ReadsEach(items[1..], ts[1..]);
      if ReadsAll(items, ts) {
        forall k | 0 <= k < |items| ensures Reads(items[k], ts[k]) {
          if k > 0 {
            assert Reads(items[1..][k - 1], ts[1..][k - 1]);
          }
        }
      }
      if forall k :: 0 <= k < |items| ==> Reads(items[k], ts[k]) {
        forall k | 0 <= k < |items| - 1 ensures Reads(items[1..][k], ts[1..][k]) {
          assert Reads(items[k + 1], ts[k + 1]);
        }
      }
    }
  }

  lemma RunEnds(cls: Class, min: nat, max: Option<nat>, s: string, i: nat, e: nat)
    requires i <= |s|
    ensures e in Ends(Run(cls, min, max), s, i) <==> i <= e <= |s| && Reads(Run(cls, min, max), s[i..e])
  {
    var n := RunLength(cls, max, s, i);
    if i <= e <= |s| {
      assert i + n < e ==> s[i..e][n] == s[i + n];
      if i + min <= e <= i + n {
        forall k | 0 <= k < e - i ensures Has(cls, s[i..e][k]) {
          assert Has(cls, s[i + k]);
        }
      }
    }
  }

  lemma ChoiceEndsRead(alts: seq<seq<Class>>, s: string, i: nat, e: nat)
    requires i <= |s|
    ensures e in ChoiceEnds(alts, s, i) <==> i <= e <= |s| && Reads(Choice(alts), s[i..e])
  {
    if e in ChoiceEnds(alts, s, i) {
      var a :| a in alts && FitsClasses(a, s, i) && e == i + |a|;
      forall k | 0 <= k < |a| ensures Has(a[k], s[i..e][k]) {
        assert Has(a[k], s[i + k]);
      }
      assert FitsClasses(a, s[i..e], 0);
    }
    if i <= e <= |s| && Reads(Choice(alts), s[i..e]) {
      var a :| a in alts && |a| == |s[i..e]| && FitsClasses(a, s[i..e], 0);
      forall k | 0 <= k < |a| ensures Has(a[k], s[i + k]) {
        assert Has(a[k], s[i..e][0 + k]);
      }
      assert FitsClasses(a, s, i);
    }
  }

  /** The first item takes a front part of the text, the others take the rest. */
  lemma SplitFront(items: seq<Item>, t: string) returns (k: nat)
    requires items != [] && (forall x :: x in items ==> Local(x)) && ReadsSeq(items, t)
    ensures FrontTaken(items, t, k)
  {
    var ts :| ReadsAll(items, ts) && Flat(ts) == t;
    k := |ts[0]|;
    assert t[..k] == ts[0];
    assert t[k..] == Flat(ts[1..]);
  }

  lemma JoinFront(items: seq<Item>, t: string, k: nat)
    requires items != [] && (forall x :: x in items ==> Local(x)) && FrontTaken(items, t, k)
    ensures ReadsSeq(items, t)
  {
    var ts :| ReadsAll(items[1..], ts) && Flat(ts) == t[k..];
    var all := [t[..k]] + ts;
    assert all[1..] == ts;
    assert t[..k] + t[k..] == t;
    assert ReadsAll(items, all) && Flat(all) == t;
  }

  ghost predicate FrontTaken(items: seq<Item>, t: string, k: nat)
    requires items != [] && forall x :: x in items ==> Local(x)
  {
    k <= |t| && Reads(items[0], t[..k]) && ReadsSeq(items[1..], t[k..])
  }

  /** The matcher's ends are exactly those the language allows. */
  lemma {:induction false} EndsRead(item: Item, s: string, i: nat, e: nat)
    requires i <= |s| && Local(item)
    ensures e in Ends(item, s, i) <==> i <= e <= |s| && Reads(item, s[i..e])
    decreases item, 0
  {
    match item
    case Choice(alts) => ChoiceEndsRead(alts, s, i, e);
    case Run(cls, min, max) => RunEnds(cls, min, max, s, i, e);
    case Group(items) =>
      AllEndsRead(items, s, i, e);
      assert Ends(item, s, i) == AllEnds(items, s, i);
  }

  lemma {:induction false} AllEndsRead(items: seq<Item>, s: string, i: nat, e: nat)
    requires i <= |s| && forall x :: x in items ==> Local(x)
    ensures e in AllEnds(items, s, i) <==> i <= e <= |s| && ReadsSeq(items, s[i..e])
    decreases items, 1
  {
    if items == [] {
      if e == i {
        assert ReadsAll(items, []) && Flat([]) == s[i..e];
      }
    } else {
      if e in AllEnds(items, s, i) {
        EndReads(items, s, i, e);
      }
      if i <= e <= |s| && ReadsSeq(items, s[i..e]) {
        ReadEnds(items, s, i, e);
      }
    }
  }

  lemma FirstEnd(items: seq<Item>, s: string, i: nat, e: nat) returns (m: nat)
    requires i <= |s| && items != [] && e in AllEnds(items, s, i)
    ensures m in Ends(items[0], s, i) && m <= |s| && e in AllEnds(items[1..], s, m)
  {
    var starts := Ends(items[0], s, i);
    AllFromIs(items, s, starts, e);
    m :| m in starts && m <= |s| && e in AllEnds(items[1..], s, m);
  }

  lemma {:induction false} EndReads(items: seq<Item>, s: string, i: nat, e: nat)
    requires i <= |s| && items != [] && forall x :: x in items ==> Local(x)
    requires e in AllEnds(items, s, i)
    ensures i <= e <= |s| && ReadsSeq(items, s[i..e])
    decreases items, 0
  {
    var m := FirstEnd(items, s, i, e);
    assert items[0] in items;
    EndsRead(items[0], s, i, m);
    AllEndsRead(items[1..], s, m, e);
    SliceOfSlice(s, i, m, e);
    JoinFront(items, s[i..e], m - i);
  }

  lemma SliceOfSlice(s: string, i: nat, m: nat, e: nat)
    requires i <= m <= e <= |s|
    ensures s[i..e][..m - i] == s[i..m] && s[i..e][m - i..] == s[m..e]
  {
  }

  lemma {:induction false} ReadEnds(items: seq<Item>, s: string, i: nat, e: nat)
    requires i <= |s| && items != [] && forall x :: x in items ==> Local(x)
    requires i <= e <= |s| && ReadsSeq(items, s[i..e])
    ensures e in AllEnds(items, s, i)
    decreases items, 0
  {
    var starts := Ends(items[0], s, i);
    AllFromIs(items, s, starts, e);
    assert items[0] in items;
    var k := SplitFront(items, s[i..e]);
    var m := i + k;
    assert s[i..e][..k] == s[i..m] && s[i..e][k..] == s[m..e];
    EndsRead(items[0], s, i, m);
    AllEndsRead(items[1..], s, m, e);
    assert m in starts && m <= |s| && e in AllEnds(items[1..], s, m);
  }

  lemma {:induction false} AllFromIs(items: seq<Item>, s: string, starts: seq<nat>, e: nat)
    requires items != []
    ensures e in AllFrom(items, s, starts) <==>
            exists m :: m in starts && m <= |s| && e in AllEnds(items[1..], s, m)
    decreases |starts|
  {
    if starts != [] {
      AllFromIs(items, s, starts[1..], e);
      assert starts == [starts[0]] + starts[1..];
      var first := if starts[0] <= |s| then AllEnds(items[1..], s, starts[0]) else [];
      assert e in AllFrom(items, s, starts) <==> e in first || e in AllFrom(items, s, starts[1..]);
      if e in first {
        assert starts[0] in starts;
      }
      if exists m :: m in starts && m <= |s| && e in AllEnds(items[1..], s, m) {
        var m :| m in starts && m <= |s| && e in AllEnds(items[1..], s, m);
        assert m == starts[0] || m in starts[1..];
      }
    }
  }

  // ----------------------------------------------------------------- matches as pieces of text

  /** The texts stand one after the other in s, from i on. */
  predicate Spelt(s: string, i: nat, ts: seq<string>)
    decreases ts
  {
    ts == [] || (At(s, i, ts[0]) && Spelt(s, i + |ts[0]|, ts[1..]))
  }

  function Cuts(i: nat, ts: seq<string>): (cuts: seq<nat>)
    ensures |cuts| == |ts|
    decreases ts
  {
    if ts == [] then [] else [i + |ts[0]|] + Cuts(i + |ts[0]|, ts[1..])
  }

  /** The text that item k of a match took. */
  function Piece(s: string, i: nat, cuts: seq<nat>, k: nat): string
    requires k < |cuts|
  {
    var from := if k == 0 then i else cuts[k - 1];
    if from <= cuts[k] <= |s| then s[from..cuts[k]] else ""
  }

  /** The piece is one that the item matches; a look-around takes nothing and must hold there. */
  ghost predicate Takes(item: Item, s: string, i: nat, t: string) {
    if Local(item) then Reads(item, t) else i <= |s| && t == "" && i in Ends(item, s, i)
  }

  ghost predicate TakesAll(p: Pattern, s: string, i: nat, ts: seq<string>)
    decreases p
  {
    |ts| == |p| && (p != [] ==> Takes(p[0], s, i, ts[0]) && TakesAll(p[1..], s, i + |ts[0]|, ts[1..]))
  }

  /** Patterns whose groups have no look-around inside. */
  predicate Plain(p: Pattern) {
    forall x :: x in p ==> Local(x) || x.NotAhead? || x.NotBehind? || x.Boundary?
  }

  function Texts(s: string, i: nat, cuts: seq<nat>): (ts: seq<string>)
    ensures |ts| == |cuts|
    decreases cuts
  {
    if cuts == [] then []
    else [if i <= cuts[0] <= |s| then s[i..cuts[0]] else ""] + Texts(s, cuts[0], cuts[1..])
  }

  /** A match is a way to spell the text at i with pieces that the items take. */
  lemma {:induction false} FitSpells(p: Pattern, s: string, i: nat, cuts: seq<nat>)
    requires i <= |s| && Plain(p) && Fits(p, s, i, cuts)
    ensures Spelt(s, i, Texts(s, i, cuts)) && TakesAll(p, s, i, Texts(s, i, cuts))
    ensures Cuts(i, Texts(s, i, cuts)) == cuts
    decreases p
  {
    if p != [] {
      assert p[0] in p;
      if Local(p[0]) {
        EndsRead(p[0], s, i, cuts[0]);
      }
      assert i <= cuts[0];
      FitSpells(p[1..], s, cuts[0], cuts[1..]);
    }
  }

  lemma {:induction false} SpellingFits(p: Pattern, s: string, i: nat, ts: seq<string>)
    requires i <= |s| && Plain(p) && Spelt(s, i, ts) && TakesAll(p, s, i, ts)
    ensures Fits(p, s, i, Cuts(i, ts))
    decreases p
  {
    if p != [] {
      assert p[0] in p;
      var e := i + |ts[0]|;
      assert s[i..e] == ts[0];
      if Local(p[0]) {
        EndsRead(p[0], s, i, e);
      }
      SpellingFits(p[1..], s, e, ts[1..]);
    }
  }

  /** Where item k begins when the texts stand one after the other from i on. */
  function Pos(i: nat, ts: seq<string>, k: nat): nat
    requires k <= |ts|
  {
    if k == 0 then i else Cuts(i, ts)[k - 1]
  }

  lemma {:induction false} TakesEach(p: Pattern, s: string, i: nat, ts: seq<string>)
    ensures TakesAll(p, s, i, ts) <==>
            |ts| == |p| && forall k :: 0 <= k < |p| ==> Takes(p[k], s, Pos(i, ts, k), ts[k])
    decreases p
  {
    if p != [] && |ts| == |p| {
      var j := i + |ts[0]|;
      TakesEach(p[1..], s, j, ts[1..]);
      forall k | 0 < k < |p| ensures Pos(i, ts, k) == Pos(j, ts[1..], k - 1) {
      }
      if TakesAll(p, s, i, ts) {
        forall k | 0 <= k < |p| ensures Takes(p[k], s, Pos(i, ts, k), ts[k]) {
          if k > 0 {
            assert Takes(p[1..][k - 1], s, Pos(j, ts[1..], k - 1), ts[1..][k - 1]);
          }
        }
      }
      if forall k :: 0 <= k < |p| ==> Takes(p[k], s, Pos(i, ts, k), ts[k]) {
        assert Takes(p[0], s, Pos(i, ts, 0), ts[0]);
        forall k | 0 <= k < |p| - 1 ensures Takes(p[1..][k], s, Pos(j, ts[1..], k), ts[1..][k]) {
          assert Takes(p[k + 1], s, Pos(i, ts, k + 1), ts[k + 1]);
        }
      }
    }
  }

  /** Pieces one after the other spell their concatenation. */
  lemma {:induction false} SpeltIsAt(s: string, i: nat, ts: seq<string>)
    ensures i <= |s| ==> (Spelt(s, i, ts) <==> At(s, i, Flat(ts)))
    decreases ts
  {
    if ts != [] && i <= |s| {
      var a, rest := ts[0], Flat(ts[1..]);
      if i + |a| <= |s| {
        SpeltIsAt(s, i + |a|, ts[1..]);
        if At(s, i, a + rest) {
          assert s[i..i + |a|] == s[i..i + |a + rest|][..|a|];
          assert s[i + |a|..i + |a| + |rest|] == s[i..i + |a + rest|][|a|..];
        }
        if At(s, i, a) && At(s, i + |a|, rest) {
          assert s[i..i + |a + rest|] == s[i..i + |a|] + s[i + |a|..i + |a| + |rest|];
        }
      }
    }
  }

  lemma {:induction false} SpeltPieces(s: string, i: nat, ts: seq<string>, k: nat)
    requires Spelt(s, i, ts) && k < |ts| && i <= |s|
    ensures Piece(s, i, Cuts(i, ts), k) == ts[k]
    ensures Pos(i, ts, k) <= |s|
    decreases ts
  {
    if k > 0 {
      SpeltPieces(s, i + |ts[0]|, ts[1..], k - 1);
    }
  }

  lemma {:induction false} TextsArePieces(s: string, i: nat, cuts: seq<nat>, k: nat)
    requires k < |cuts|
    ensures Texts(s, i, cuts)[k] == Piece(s, i, cuts, k)
    decreases cuts
  {
    if k > 0 {
      TextsArePieces(s, cuts[0], cuts[1..], k - 1);
    }
  }
}
