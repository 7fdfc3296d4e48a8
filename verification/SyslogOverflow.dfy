/** What the 64 KiB limit of SyslogTCP costs (backend/app/services/receiver.py): when a cut changes
    what is delivered, and by how much, for one call and for a whole connection. */
module SyslogOverflow {
  import opened Wrappers
  import opened SyslogFraming

  // ----------------------------------------------------------------- one line without its beginning

  predicate AllCr(s: Bytes) {
    forall i :: 0 <= i < |s| ==> s[i] == CR
  }

  /** How many bytes _strip_octet_count takes off. */
  function CountLength(line: Bytes): (n: nat)
    ensures n <= |line|
  {
    var sp := Find(line, SP);
    if 0 < sp <= MAX_COUNT_DIGITS && AllDigits(line[..sp]) then sp + 1 else 0
  }

  /** One to six digits and a space, and nothing else. */
  predicate IsCount(t: Bytes) {
    2 <= |t| <= MAX_COUNT_DIGITS + 1 && t[|t| - 1] == SP && AllDigits(t[..|t| - 1])
  }

  /** The line l, and l with t in front, hand on the same: t is empty, or both are blank, or t is an octet
      count and l has none, or t is the beginning of the count that l goes on with. */
  predicate LineSame(t: Bytes, l: Bytes) {
    t == [] ||
    if AllCr(l) then AllCr(t)
    else if CountLength(l) == 0 then IsCount(t)
    else AllDigits(t) && |t| + CountLength(l) - 1 <= MAX_COUNT_DIGITS
  }

  lemma {:induction false} FindInFront(a: Bytes, b: Bytes, c: byte)
    ensures Find(a + b, c) == if c in a then Find(a, c) else if Find(b, c) >= 0 then |a| + Find(b, c) else -1
  {
    if a == [] {
      assert a + b == b;
    } else {
      assert (a + b)[0] == a[0] && (a + b)[1..] == a[1..] + b;
      FindInFront(a[1..], b, c);
      if c in a && a[0] != c {
        assert c in a[1..];
      }
    }
  }

  lemma FindSome(s: Bytes, c: byte)
    ensures c in s <==> Find(s, c) >= 0
  {
  }

  /** What is left when the carriage returns at the end are gone. */
  lemma {:induction false} StripCrIs(s: Bytes, r: Bytes)
    requires r <= s && (r == [] || r[|r| - 1] != CR) && forall i :: |r| <= i < |s| ==> s[i] == CR
    ensures StripCr(s) == r
  {
    if |r| < |s| {
      StripCrIs(s[..|s| - 1], r);
    }
  }

  lemma BlankIff(l: Bytes)
    ensures StripCr(l) == [] <==> AllCr(l)
  {
    if AllCr(l) {
      StripCrIs(l, []);
    }
  }

  lemma StripCrInFront(t: Bytes, l: Bytes)
    requires !AllCr(l)
    ensures StripCr(l) != [] && StripCr(t + l) == t + StripCr(l)
  {
    BlankIff(l);
    StripCrIs(t + l, t + StripCr(l));
  }

  /** Carriage returns at the end do not matter to the count. */
  lemma CountOfStripped(l: Bytes)
    requires StripCr(l) != []
    ensures CountLength(StripCr(l)) == CountLength(l)
  {
    var r := StripCr(l);
    assert l == r + l[|r|..];
    FindInFront(r, l[|r|..], SP);
    FindSome(l[|r|..], SP);
    assert SP !in l[|r|..];
    var sp := Find(l, SP);
    if sp >= 0 {
      assert l[..sp] == r[..sp];
    }
  }

  /** The count that t and a line without trailing blanks have together. */
  lemma CountInFront(t: Bytes, l: Bytes)
    requires t != []
    ensures CountLength(t + l) == |t| + CountLength(l) <==>
            if CountLength(l) == 0 then IsCount(t)
            else AllDigits(t) && |t| + CountLength(l) - 1 <= MAX_COUNT_DIGITS
  {
    FindInFront(t, l, SP);
    if SP in t {
      CountWithin(t, l);
    } else {
      CountAcross(t, l);
    }
  }

  lemma CountWithin(t: Bytes, l: Bytes)
    requires SP in t
    ensures CountLength(t + l) == |t| + CountLength(l) <==> CountLength(l) == 0 && IsCount(t)
    ensures !AllDigits(t)
  {
    FindInFront(t, l, SP);
    FindSome(t, SP);
    var j := Find(t, SP);
    assert (t + l)[..j] == t[..j];
    assert !IsDigit(t[j]);
    if IsCount(t) {
      assert forall i :: 0 <= i < |t| - 1 ==> t[i] == t[..|t| - 1][i];
    }
  }

  lemma CountAcross(t: Bytes, l: Bytes)
    requires t != [] && SP !in t
    ensures CountLength(t + l) == |t| + CountLength(l) <==>
            CountLength(l) > 0 && AllDigits(t) && |t| + CountLength(l) - 1 <= MAX_COUNT_DIGITS
    ensures !IsCount(t)
  {
    FindInFront(t, l, SP);
    var sp := Find(l, SP);
    if sp >= 0 {
      assert (t + l)[..|t| + sp] == t + l[..sp];
      DigitsInFront(t, l[..sp]);
    }
  }

  lemma DigitsInFront(a: Bytes, b: Bytes)
    ensures AllDigits(a + b) <==> AllDigits(a) && AllDigits(b)
  {
    if AllDigits(a + b) {
      forall i | 0 <= i < |a| ensures IsDigit(a[i]) {
        assert (a + b)[i] == a[i];
      }
      forall i | 0 <= i < |b| ensures IsDigit(b[i]) {
        assert (a + b)[|a| + i] == b[i];
      }
    }
  }

  lemma AllCrInFront(a: Bytes, b: Bytes)
    ensures AllCr(a + b) <==> AllCr(a) && AllCr(b)
  {
    if AllCr(a + b) {
      assert forall i :: 0 <= i < |a| ==> (a + b)[i] == a[i];
      assert forall i :: 0 <= i < |b| ==> (a + b)[|a| + i] == b[i];
    }
  }

  lemma DigitsAreNoSpace(s: Bytes)
    requires AllDigits(s)
    ensures SP !in s
  {
  }

  lemma SuffixesEqual(s: Bytes, t: Bytes, m: nat, n: nat)
    requires m <= |t + s| && n <= |s|
    ensures (t + s)[m..] == s[n..] <==> m == |t| + n
  {
    if (t + s)[m..] == s[n..] {
      assert |(t + s)[m..]| == |s[n..]|;
    }
    if m == |t| + n {
      assert (t + s)[|t| + n..] == s[n..];
    }
  }

  lemma DeliverSameIff(t: Bytes, l: Bytes)
    ensures Deliver(t + l) == Deliver(l) <==> LineSame(t, l)
  {
    if t == [] {
      assert t + l == l;
    } else if AllCr(l) {
      BlankIff(l);
      BlankIff(t + l);
      AllCrInFront(t, l);
    } else {
      StripCrInFront(t, l);
      var r := StripCr(l);
      CountOfStripped(l);
      CountInFront(t, r);
      SuffixesEqual(r, t, CountLength(t + r), CountLength(r));
      assert StripOctetCount(t + r) == (t + r)[CountLength(t + r)..] && StripOctetCount(r) == r[CountLength(r)..];
    }
  }

  // ----------------------------------------------------------------- a line that is still open

  /** However the line goes on from `kept`, t in front makes no difference to it. */
  predicate OpenSame(t: Bytes, kept: Bytes) {
    t == [] ||
    (!AllCr(kept) &&
     if CountLength(kept) == 0 then IsCount(t) && !(AllDigits(kept) && |kept| <= MAX_COUNT_DIGITS)
     else AllDigits(t) && |t| + CountLength(kept) - 1 <= MAX_COUNT_DIGITS)
  }

  /** A line that neither has a count nor can still become one keeps what it has. */
  lemma CountIsSettled(kept: Bytes, m: Bytes)
    requires CountLength(kept) > 0 || !(AllDigits(kept) && |kept| <= MAX_COUNT_DIGITS)
    ensures CountLength(kept + m) == CountLength(kept)
  {
    FindInFront(kept, m, SP);
    FindSome(kept, SP);
    if SP in kept {
      assert (kept + m)[..Find(kept, SP)] == kept[..Find(kept, SP)];
    } else if Find(m, SP) >= 0 {
      assert (kept + m)[..|kept| + Find(m, SP)] == kept + m[..Find(m, SP)];
      DigitsInFront(kept, m[..Find(m, SP)]);
    }
  }

  lemma OpenSameHolds(t: Bytes, kept: Bytes, m: Bytes)
    requires OpenSame(t, kept)
    ensures LineSame(t, kept + m)
  {
    if t != [] {
      CountIsSettled(kept, m);
      AllCrInFront(kept, m);
    }
  }

  /** A way to go on after which t matters. */
  lemma OpenSameFails(t: Bytes, kept: Bytes) returns (m: Bytes)
    requires !OpenSame(t, kept)
    ensures LF !in m && !LineSame(t, kept + m)
  {
    if AllCr(kept) {
      OpenBlank(t, kept);
      m := if LineSame(t, kept + []) then [120] else [];
    } else if CountLength(kept) == 0 && IsCount(t) {
      m := [SP];
      DigitsAreNoSpace(kept);
      FindInFront(kept, [SP], SP);
      assert (kept + [SP])[..|kept|] == kept;
      assert CountLength(kept + [SP]) == |kept| + 1;
      AllCrInFront(kept, [SP]);
      assert !AllDigits(t) by { assert t[|t| - 1] == SP; }
    } else {
      m := [];
      assert kept + [] == kept;
    }
  }

  lemma OpenBlank(t: Bytes, kept: Bytes)
    requires t != [] && AllCr(kept)
    ensures LineSame(t, kept + []) ==> !LineSame(t, kept + [120])
  {
    assert kept + [] == kept;
    if AllCr(t) {
      assert t[0] == CR && t[|t| - 1] == CR;
      assert !AllCr(kept + [120]) by { assert (kept + [120])[|kept|] == 120; }
      assert !AllDigits(t) && !IsCount(t);
    }
  }

  // ----------------------------------------------------------------- one cut

  /** The first line of s, if s has a complete one, hands on the same with t in front. */
  predicate HeadSame(t: Bytes, s: Bytes) {
    LF in s ==> LineSame(t, s[..Find(s, LF)])
  }

  lemma CutChangesNothingIff(dropped: Bytes, kept: Bytes)
    ensures Messages(kept) == Messages(dropped + kept) <==>
            Messages(dropped) == [] && HeadSame(Residue(dropped), kept)
  {
    if Messages(dropped) != [] {
      OverflowLoses(dropped, kept);
    } else {
      SplitConcat(dropped, kept);
      ResidueFollowsLastNewline(dropped);
      assert [] + Messages(Residue(dropped) + kept) == Messages(Residue(dropped) + kept);
      ResidueInFront(Residue(dropped), kept);
    }
  }

  lemma ResidueInFront(t: Bytes, kept: Bytes)
    requires LF !in t
    ensures Messages(kept) == Messages(t + kept) <==> HeadSame(t, kept)
  {
    var i := Find(kept, LF);
    if i < 0 {
      assert LF !in t + kept;
    } else {
      assert kept[i] == LF;
      CutLine(t, kept, i);
      SameTail(Deliver(kept[..i]), Deliver(t + kept[..i]), Messages(kept[i + 1..]));
      DeliverSameIff(t, kept[..i]);
    }
  }

  lemma SameTail(a: seq<Bytes>, b: seq<Bytes>, tail: seq<Bytes>)
    ensures a + tail == b + tail <==> a == b
  {
    if a + tail == b + tail {
      assert |a| == |b|;
      assert a == (a + tail)[..|a|] && b == (b + tail)[..|b|];
    }
  }

  /** The line at the cut, if it is complete, or however it goes on, if it is not, hands on the same
      without its beginning t. */
  predicate HeadAlwaysSame(t: Bytes, kept: Bytes) {
    if LF in kept then LineSame(t, kept[..Find(kept, LF)]) else OpenSame(t, kept)
  }

  /** Nor does a message end in what is dropped. */
  predicate CutIsHarmless(dropped: Bytes, kept: Bytes) {
    Messages(dropped) == [] && HeadAlwaysSame(Residue(dropped), kept)
  }

  lemma HeadStaysSame(t: Bytes, kept: Bytes, more: Bytes)
    requires HeadAlwaysSame(t, kept)
    ensures HeadSame(t, kept + more)
  {
    FindInFront(kept, more, LF);
    FindSome(kept, LF);
    FindSome(more, LF);
    if LF in kept {
      assert (kept + more)[..Find(kept, LF)] == kept[..Find(kept, LF)];
    } else if LF in more {
      var m := more[..Find(more, LF)];
      OpenSameHolds(t, kept, m);
      assert (kept + more)[..|kept| + Find(more, LF)] == kept + m;
    }
  }

  lemma HeadCanDiffer(t: Bytes, kept: Bytes) returns (more: Bytes)
    requires !HeadAlwaysSame(t, kept)
    ensures !HeadSame(t, kept + more)
  {
    FindSome(kept, LF);
    if LF in kept {
      more := [];
      assert kept + [] == kept;
    } else {
      var m := OpenSameFails(t, kept);
      more := m + [LF];
      FindInFront(kept, more, LF);
      FindInFront(m, [LF], LF);
      assert (kept + more)[|kept| + |m|] == LF;
      assert (kept + more)[..|kept| + |m|] == kept + m;
    }
  }

  ghost predicate CutNeverShows(dropped: Bytes, kept: Bytes) {
    forall more: Bytes :: Messages(kept + more) == Messages(dropped + (kept + more))
  }

  /** A cut changes nothing, whatever follows it, if and only if it is harmless in this sense. */
  lemma OverflowIsHarmlessIff(dropped: Bytes, kept: Bytes)
    ensures CutNeverShows(dropped, kept) <==> CutIsHarmless(dropped, kept)
  {
    if Messages(dropped) != [] {
      CutChangesNothingIff(dropped, kept + []);
    } else if HeadAlwaysSame(Residue(dropped), kept) {
      forall more: Bytes ensures Messages(kept + more) == Messages(dropped + (kept + more)) {
        HeadStaysSame(Residue(dropped), kept, more);
        CutChangesNothingIff(dropped, kept + more);
      }
    } else {
      var more := HeadCanDiffer(Residue(dropped), kept);
      CutChangesNothingIff(dropped, kept + more);
    }
  }

  // ----------------------------------------------------------------- a whole connection

  /** What a call drops when it finds `all` in its buffer. */
  function Dropped(all: Bytes): Bytes {
    all[..|all| - |Keep(all)|]
  }

  /** Every call of a connection is harmless to what comes later: `lost` is the beginning of the open line
      that earlier calls have dropped. */
  predicate FeedSame(lost: Bytes, buf: Bytes, chunks: seq<Bytes>)
    decreases chunks
  {
    chunks == [] ||
    var all := buf + chunks[0];
    var kept, t := Keep(all), Residue(lost + Dropped(all));
    && Messages(lost + Dropped(all)) == []
    && (if LF in kept then LineSame(t, kept[..Find(kept, LF)]) && FeedSame([], Residue(kept), chunks[1..])
        else FeedSame(t, kept, chunks[1..]))
  }

  /** How many messages a connection loses. */
  function Losses(lost: Bytes, buf: Bytes, chunks: seq<Bytes>): nat
    decreases chunks
  {
    if chunks == [] then 0
    else
      var all := buf + chunks[0];
      var kept, t := Keep(all), Residue(lost + Dropped(all));
      |Messages(lost + Dropped(all))| +
      (if LF in kept then
         (if AllCr(kept[..Find(kept, LF)]) && !AllCr(t) then 1 else 0) + Losses([], Residue(kept), chunks[1..])
       else Losses(t, kept, chunks[1..]))
  }

  /** What the sender meant: the messages of everything sent. */
  function Meant(lost: Bytes, buf: Bytes, chunks: seq<Bytes>): seq<Bytes> {
    Messages(lost + (buf + Concat(chunks)))
  }

  lemma SplitCall(lost: Bytes, buf: Bytes, chunk: Bytes, rest: Bytes)
    ensures var all := buf + chunk;
      lost + (buf + (chunk + rest)) == (lost + Dropped(all)) + (Keep(all) + rest)
  {
    var all := buf + chunk;
    assert all == Dropped(all) + Keep(all);
    SeqAssoc(buf, chunk, rest);
    SeqAssoc(Dropped(all), Keep(all), rest);
    SeqAssoc(lost, Dropped(all), Keep(all) + rest);
  }

  /** What was meant, split at the cut. */
  lemma MeantAtCut(lost: Bytes, buf: Bytes, chunks: seq<Bytes>)
    requires chunks != []
    ensures var all := buf + chunks[0];
      var t := Residue(lost + Dropped(all));
      Meant(lost, buf, chunks) == Messages(lost + Dropped(all)) + Messages(t + (Keep(all) + Concat(chunks[1..])))
  {
    var all := buf + chunks[0];
    SplitCall(lost, buf, chunks[0], Concat(chunks[1..]));
    SplitConcat(lost + Dropped(all), Keep(all) + Concat(chunks[1..]));
  }

  /** The line at the cut is complete: it, the other lines of the buffer, and what comes later. */
  lemma CompleteAtCut(t: Bytes, kept: Bytes, rest: Bytes)
    requires LF !in t && LF in kept
    ensures var line, tail := kept[..Find(kept, LF)], kept[Find(kept, LF) + 1..];
      && Messages(kept) == Deliver(line) + Messages(tail)
      && Messages(t + (kept + rest)) == Deliver(t + line) + (Messages(tail) + Messages(Residue(kept) + rest))
  {
    FindSome(kept, LF);
    FindIsFirst(kept, LF);
    var i := Find(kept, LF);
    var line, tail := kept[..i], kept[i + 1..];
    assert t + (kept + rest) == (t + line) + [LF] + (tail + rest);
    FirstLine(t + line, tail + rest);
    SplitConcat(tail, rest);
  }

  lemma DeliverCounts(t: Bytes, l: Bytes)
    ensures |Deliver(t + l)| == |Deliver(l)| + (if AllCr(l) && !AllCr(t) then 1 else 0)
  {
    BlankIff(l);
    BlankIff(t + l);
    AllCrInFront(t, l);
  }

  /** Every message that is not lost is handed on, and only those. */
  lemma {:induction false} FeedLoses(lost: Bytes, buf: Bytes, chunks: seq<Bytes>)
    requires LF !in lost && LF !in buf
    ensures |Meant(lost, buf, chunks)| == |Handled(buf, chunks)| + Losses(lost, buf, chunks)
    decreases chunks
  {
    if chunks == [] {
      assert LF !in lost + (buf + Concat(chunks));
    } else {
      var all := buf + chunks[0];
      var kept, t, rest := Keep(all), Residue(lost + Dropped(all)), Concat(chunks[1..]);
      MeantAtCut(lost, buf, chunks);
      ResidueFollowsLastNewline(lost + Dropped(all));
      ResidueFollowsLastNewline(kept);
      FindSome(kept, LF);
      if LF in kept {
        CompleteAtCut(t, kept, rest);
        DeliverCounts(t, kept[..Find(kept, LF)]);
        FeedLoses([], Residue(kept), chunks[1..]);
        assert [] + (Residue(kept) + rest) == Residue(kept) + rest;
      } else {
        FeedLoses(t, kept, chunks[1..]);
      }
    }
  }

  /** Two sequences of parts, the second no longer in any part. */
  lemma PartsEqual(a: seq<Bytes>, d: seq<Bytes>, d': seq<Bytes>, m: seq<Bytes>, r: seq<Bytes>, r': seq<Bytes>)
    requires |d'| <= |d| && |r'| <= |r|
    ensures a + (d + (m + r)) == (d' + m) + r' <==> a == [] && d == d' && r == r'
  {
    if a + (d + (m + r)) == (d' + m) + r' {
      assert |a| + |d| + |m| + |r| == |d'| + |m| + |r'|;
      assert a == [] && d + (m + r) == (d' + m) + r';
      assert d == (d + (m + r))[..|d|] && d' == ((d' + m) + r')[..|d'|];
      assert r == (d + (m + r))[|d| + |m|..] && r' == ((d' + m) + r')[|d'| + |m|..];
    }
    if a == [] && d == d' && r == r' {
      SeqAssoc(d, m, r);
    }
  }

  /** A connection hands on exactly what was meant, however it was cut into chunks and whatever the limit
      made it drop, if and only if each of its calls is harmless. */
  lemma {:induction false} FeedIsExactIff(lost: Bytes, buf: Bytes, chunks: seq<Bytes>)
    requires LF !in lost && LF !in buf
    ensures Meant(lost, buf, chunks) == Handled(buf, chunks) <==> FeedSame(lost, buf, chunks)
    decreases chunks
  {
    if chunks == [] {
      assert LF !in lost + (buf + Concat(chunks));
    } else {
      var all := buf + chunks[0];
      ResidueFollowsLastNewline(lost + Dropped(all));
      ResidueFollowsLastNewline(Keep(all));
      FindSome(Keep(all), LF);
      if LF in Keep(all) {
        CompleteCall(lost, buf, chunks);
      } else {
        OpenCall(lost, buf, chunks);
      }
    }
  }

  lemma {:induction false} CompleteCall(lost: Bytes, buf: Bytes, chunks: seq<Bytes>)
    requires LF !in lost && LF !in buf && chunks != [] && LF in Keep(buf + chunks[0])
    ensures Meant(lost, buf, chunks) == Handled(buf, chunks) <==> FeedSame(lost, buf, chunks)
    decreases chunks, 0
  {
    var r := Residue(Keep(buf + chunks[0]));
    ResidueFollowsLastNewline(Keep(buf + chunks[0]));
    FeedLoses([], r, chunks[1..]);
    FeedIsExactIff([], r, chunks[1..]);
    assert [] + (r + Concat(chunks[1..])) == r + Concat(chunks[1..]);
    CompleteParts(lost, buf, chunks);
  }

  /** What was meant and what is handed on agree if and only if they do part by part. */
  lemma CompleteParts(lost: Bytes, buf: Bytes, chunks: seq<Bytes>)
    requires LF !in lost && LF !in buf && chunks != [] && LF in Keep(buf + chunks[0])
    requires var r := Residue(Keep(buf + chunks[0]));
      |Handled(r, chunks[1..])| <= |Messages(r + Concat(chunks[1..]))|
    ensures var all := buf + chunks[0];
      var kept, t := Keep(all), Residue(lost + Dropped(all));
      Meant(lost, buf, chunks) == Handled(buf, chunks) <==>
        && Messages(lost + Dropped(all)) == []
        && LineSame(t, kept[..Find(kept, LF)])
        && Messages(Residue(kept) + Concat(chunks[1..])) == Handled(Residue(kept), chunks[1..])
  {
    var all := buf + chunks[0];
    var kept, t, rest := Keep(all), Residue(lost + Dropped(all)), Concat(chunks[1..]);
    var line, tail := kept[..Find(kept, LF)], kept[Find(kept, LF) + 1..];
    CompleteMeant(lost, buf, chunks);
    LinePartsEqual(Messages(lost + Dropped(all)), t, line, Messages(tail),
                   Messages(Residue(kept) + rest), Handled(Residue(kept), chunks[1..]));
  }

  lemma LinePartsEqual(a: seq<Bytes>, t: Bytes, line: Bytes, m: seq<Bytes>, r: seq<Bytes>, r': seq<Bytes>)
    requires |r'| <= |r|
    ensures a + (Deliver(t + line) + (m + r)) == (Deliver(line) + m) + r' <==> a == [] && LineSame(t, line) && r == r'
  {
    DeliverCounts(t, line);
    DeliverSameIff(t, line);
    PartsEqual(a, Deliver(t + line), Deliver(line), m, r, r');
  }

  /** The parts of what was meant and of what is handed on. */
  lemma CompleteMeant(lost: Bytes, buf: Bytes, chunks: seq<Bytes>)
    requires LF !in lost && LF !in buf && chunks != [] && LF in Keep(buf + chunks[0])
    ensures var all := buf + chunks[0];
      var kept, t := Keep(all), Residue(lost + Dropped(all));
      var line, tail := kept[..Find(kept, LF)], kept[Find(kept, LF) + 1..];
      && Meant(lost, buf, chunks) == Messages(lost + Dropped(all)) +
           (Deliver(t + line) + (Messages(tail) + Messages(Residue(kept) + Concat(chunks[1..]))))
      && Handled(buf, chunks) == (Deliver(line) + Messages(tail)) + Handled(Residue(kept), chunks[1..])
  {
    var all := buf + chunks[0];
    MeantAtCut(lost, buf, chunks);
    ResidueFollowsLastNewline(lost + Dropped(all));
    CompleteAtCut(Residue(lost + Dropped(all)), Keep(all), Concat(chunks[1..]));
  }

  lemma {:induction false} OpenCall(lost: Bytes, buf: Bytes, chunks: seq<Bytes>)
    requires LF !in lost && LF !in buf && chunks != [] && LF !in Keep(buf + chunks[0])
    ensures Meant(lost, buf, chunks) == Handled(buf, chunks) <==> FeedSame(lost, buf, chunks)
    decreases chunks, 0
  {
    var all := buf + chunks[0];
    var kept, t := Keep(all), Residue(lost + Dropped(all));
    MeantAtCut(lost, buf, chunks);
    ResidueFollowsLastNewline(lost + Dropped(all));
    FindSome(kept, LF);
    assert Messages(kept) == [] && Residue(kept) == kept;
    FeedLoses(t, kept, chunks[1..]);
    FeedIsExactIff(t, kept, chunks[1..]);
    var a, r, r' := Messages(lost + Dropped(all)), Meant(t, kept, chunks[1..]), Handled(kept, chunks[1..]);
    assert [] + r' == r';
    if a + r == r' {
      assert |a| + |r| == |r'|;
      assert a == [] && [] + r == r;
    }
  }

  /** For a connection from its start. */
  lemma ConnectionIsExactIff(chunks: seq<Bytes>)
    ensures Handled([], chunks) == Messages(Concat(chunks)) <==> FeedSame([], [], chunks)
    ensures |Messages(Concat(chunks))| == |Handled([], chunks)| + Losses([], [], chunks)
  {
    assert [] + ([] + Concat(chunks)) == Concat(chunks);
    FeedIsExactIff([], [], chunks);
    FeedLoses([], [], chunks);
  }
}
