/** backend/app/services/receiver.py, SyslogTCP: cutting a TCP byte stream into syslog messages,
    whatever the pieces in which it arrives. */
module SyslogFraming {
  import opened Wrappers

  newtype byte = x: int | 0 <= x < 256
  type Bytes = seq<byte>

  const LF: byte := 10
  const CR: byte := 13
  const SP: byte := 32
  const MAX_LINE := 64 * 1024
  const MAX_COUNT_DIGITS := 6

  /** bytes.find for one byte. */
  function Find(s: Bytes, c: byte): (i: int)
    ensures -1 <= i < |s|
    ensures i >= 0 ==> s[i] == c
    ensures i < 0 ==> c !in s
  {
    if s == [] then -1
    else if s[0] == c then 0
    else
      var i := Find(s[1..], c);
      if i < 0 then -1 else i + 1
  }

  lemma {:induction false} FindIsFirst(s: Bytes, c: byte)
    ensures Find(s, c) >= 0 ==> c !in s[..Find(s, c)]
  {
    if s != [] && s[0] != c {
      FindIsFirst(s[1..], c);
      var i := Find(s[1..], c);
      assert i >= 0 ==> s[..i + 1] == [s[0]] + s[1..][..i];
    }
  }

  lemma {:induction false} FindBehind(a: Bytes, c: byte, b: Bytes)
    requires c !in a
    ensures Find(a + [c] + b, c) == |a|
  {
    if a == [] {
      assert a + [c] + b == [c] + b;
    } else {
      assert (a + [c] + b)[1..] == a[1..] + [c] + b;
      FindBehind(a[1..], c, b);
    }
  }

  /** bytes.rstrip(b"\r") */
  function StripCr(s: Bytes): (r: Bytes)
    ensures r <= s
    ensures r == [] || r[|r| - 1] != CR
    ensures forall i :: |r| <= i < |s| ==> s[i] == CR
  {
    if s != [] && s[|s| - 1] == CR then StripCr(s[..|s| - 1]) else s
  }

  predicate IsDigit(b: byte) {
    48 <= b <= 57
  }

  predicate AllDigits(s: Bytes) {
    forall i :: 0 <= i < |s| ==> IsDigit(s[i])
  }

  /** _strip_octet_count */
  function StripOctetCount(line: Bytes): Bytes {
    var sp := Find(line, SP);
    if 0 < sp <= MAX_COUNT_DIGITS && AllDigits(line[..sp]) then line[sp + 1..] else line
  }

  /** One to six digits and a space stand in front. */
  predicate HasOctetPrefix(line: Bytes) {
    exists k :: 1 <= k <= MAX_COUNT_DIGITS && k < |line| && line[k] == SP && AllDigits(line[..k])
  }

  // ----------------------------------------------------------------- splitting a whole stream

  /** The message a complete line hands on: none for a blank line. */
  function Deliver(line: Bytes): seq<Bytes> {
    var stripped := StripCr(line);
    if stripped == [] then [] else [StripOctetCount(stripped)]
  }

  /** The messages of the complete lines of s. */
  function Messages(s: Bytes): seq<Bytes>
    decreases |s|
  {
    var i := Find(s, LF);
    if i < 0 then [] else Deliver(s[..i]) + Messages(s[i + 1..])
  }

  /** What follows the last newline. */
  function Residue(s: Bytes): Bytes
    decreases |s|
  {
    var i := Find(s, LF);
    if i < 0 then s else Residue(s[i + 1..])
  }

  lemma {:induction false} ResidueFollowsLastNewline(s: Bytes)
    ensures LF !in Residue(s)
    ensures |Residue(s)| <= |s| && s[|s| - |Residue(s)|..] == Residue(s)
    ensures |Residue(s)| == |s| || s[|s| - |Residue(s)| - 1] == LF
    decreases |s|
  {
    var i := Find(s, LF);
    if i >= 0 {
      var rest := s[i + 1..];
      ResidueFollowsLastNewline(rest);
      EndOfRest(s, i, |Residue(rest)|);
    }
  }

  /** The end of the rest of a text is the end of the text. */
  lemma EndOfRest(s: Bytes, i: nat, n: nat)
    requires i < |s| && n <= |s| - i - 1
    ensures s[i + 1..][|s| - i - 1 - n..] == s[|s| - n..]
    ensures s[|s| - n - 1] == if n == |s| - i - 1 then s[i] else s[i + 1..][|s| - i - 1 - n - 1]
  {
  }

  /** A line and its newline in front of a stream. */
  lemma FirstLine(line: Bytes, rest: Bytes)
    requires LF !in line
    ensures Find(line + [LF] + rest, LF) == |line|
    ensures Messages(line + [LF] + rest) == Deliver(line) + Messages(rest)
    ensures Residue(line + [LF] + rest) == Residue(rest)
  {
    var s := line + [LF] + rest;
    FindBehind(line, LF, rest);
    assert s[..|line|] == line;
    assert s[|line| + 1..] == rest;
  }

  /** The lines of a text joined, each with its newline. */
  function Join(lines: seq<Bytes>): Bytes {
    if lines == [] then [] else lines[0] + [LF] + Join(lines[1..])
  }

  function DeliverAll(lines: seq<Bytes>): seq<Bytes> {
    if lines == [] then [] else Deliver(lines[0]) + DeliverAll(lines[1..])
  }

  /** Splitting undoes joining. */
  lemma {:induction false} SplitUndoesJoin(lines: seq<Bytes>, rest: Bytes)
    requires forall i :: 0 <= i < |lines| ==> LF !in lines[i]
    requires LF !in rest
    ensures Messages(Join(lines) + rest) == DeliverAll(lines)
    ensures Residue(Join(lines) + rest) == rest
  {
    if lines == [] {
      assert Join(lines) + rest == rest;
    } else {
      SplitUndoesJoin(lines[1..], rest);
      assert Join(lines) + rest == lines[0] + [LF] + (Join(lines[1..]) + rest);
      FirstLine(lines[0], Join(lines[1..]) + rest);
    }
  }

  /** Splitting a stream in two parts, carrying the residue over, splits the stream. */
  lemma {:induction false} SplitConcat(a: Bytes, b: Bytes)
    ensures Messages(a + b) == Messages(a) + Messages(Residue(a) + b)
    ensures Residue(a + b) == Residue(Residue(a) + b)
    decreases |a|
  {
    var i := Find(a, LF);
    if i >= 0 {
      FindIsFirst(a, LF);
      var rest := a[i + 1..];
      assert a + b == a[..i] + [LF] + (rest + b);
      assert a == a[..i] + [LF] + rest;
      FirstLine(a[..i], rest + b);
      FirstLine(a[..i], rest);
      SplitConcat(rest, b);
    }
  }

  // ----------------------------------------------------------------- the connection

  /** The last MAX_LINE bytes. */
  function Keep(s: Bytes): Bytes {
    if |s| > MAX_LINE then s[|s| - MAX_LINE..] else s
  }

  /** One TCP connection; `handled` is what it passed to Ingest.handle, in order. */
  class SyslogTCP {
    var buf: Bytes
    var handled: seq<Bytes>

    constructor ()
      ensures buf == [] && handled == []
    {
      buf, handled := [], [];
    }

    method DataReceived(data: Bytes)
      modifies this
      ensures handled == old(handled) + Messages(Keep(old(buf) + data))
      ensures buf == Residue(Keep(old(buf) + data))
    {
      buf := buf + data;
      if |buf| > MAX_LINE {
        buf := buf[|buf| - MAX_LINE..];
      }
      assert buf == Keep(old(buf) + data);
      SplitBuffer();
    }

    /** The loop of data_received. */
    method SplitBuffer()
      modifies this
      ensures handled == old(handled) + Messages(old(buf))
      ensures buf == Residue(old(buf))
    {
      while true
        invariant handled + Messages(buf) == old(handled) + Messages(old(buf))
        invariant Residue(buf) == Residue(old(buf))
        decreases |buf|
      {
        var idx := Find(buf, LF);
        if idx < 0 {
          break;
        }
        ghost var before, line, rest := handled, buf[..idx], buf[idx + 1..];
        assert Messages(buf) == Deliver(line) + Messages(rest);
        HandleLine(buf[..idx]);
        SeqAssoc(before, Deliver(line), Messages(rest));
        buf := buf[idx + 1..];
      }
      assert handled + [] == handled;
    }

    method HandleLine(text: Bytes)
      modifies this`handled
      ensures handled == old(handled) + Deliver(text)
    {
      var line := StripCr(text);
      if line != [] {
        handled := handled + [StripOctetCount(line)];
      } else {
        assert handled + [] == handled;
      }
    }
  }

  // ----------------------------------------------------------------- any chunks

  function Concat(chunks: seq<Bytes>): Bytes {
    if chunks == [] then [] else chunks[0] + Concat(chunks[1..])
  }

  /** What a connection has handed on, and what it holds, after receiving the chunks. */
  function Handled(buf: Bytes, chunks: seq<Bytes>): seq<Bytes>
    decreases chunks
  {
    if chunks == [] then []
    else Messages(Keep(buf + chunks[0])) + Handled(Residue(Keep(buf + chunks[0])), chunks[1..])
  }

  function Held(buf: Bytes, chunks: seq<Bytes>): Bytes
    decreases chunks
  {
    if chunks == [] then buf else Held(Residue(Keep(buf + chunks[0])), chunks[1..])
  }

  /** No call finds more than MAX_LINE bytes in its buffer. */
  predicate Bounded(buf: Bytes, chunks: seq<Bytes>)
    decreases chunks
  {
    chunks == [] ||
    (|buf| + |chunks[0]| <= MAX_LINE && Bounded(Residue(buf + chunks[0]), chunks[1..]))
  }

  /** A connection fed chunk by chunk is where the two functions say. */
  method Feed(c: SyslogTCP, chunks: seq<Bytes>)
    modifies c
    ensures c.handled == old(c.handled) + Handled(old(c.buf), chunks)
    ensures c.buf == Held(old(c.buf), chunks)
  {
    var i := 0;
    while i < |chunks|
      invariant 0 <= i <= |chunks|
      invariant c.handled + Handled(c.buf, chunks[i..]) == old(c.handled) + Handled(old(c.buf), chunks)
      invariant Held(c.buf, chunks[i..]) == Held(old(c.buf), chunks)
    {
      assert chunks[i..][1..] == chunks[i + 1..];
      var kept := Keep(c.buf + chunks[i]);
      SeqAssoc(c.handled, Messages(kept), Handled(Residue(kept), chunks[i + 1..]));
      c.DataReceived(chunks[i]);
      i := i + 1;
    }
    assert chunks[i..] == [];
    assert c.handled + [] == c.handled;
  }

  /** However the stream is cut, as long as no call overflows the buffer, the messages are those of
      the whole stream and the buffer is the text after its last newline. */
  lemma {:induction false} CuttingDoesNotMatter(buf: Bytes, chunks: seq<Bytes>)
    requires Bounded(buf, chunks) && LF !in buf
    ensures Handled(buf, chunks) == Messages(buf + Concat(chunks))
    ensures Held(buf, chunks) == Residue(buf + Concat(chunks))
    decreases chunks
  {
    if chunks == [] {
      assert buf + Concat(chunks) == buf;
    } else {
      var first := buf + chunks[0];
      ResidueFollowsLastNewline(first);
      CuttingDoesNotMatter(Residue(first), chunks[1..]);
      SplitConcat(first, Concat(chunks[1..]));
      SeqAssoc(buf, chunks[0], Concat(chunks[1..]));
    }
  }

  /** Whatever arrives, the buffer is a newline-free end of the stream no longer than MAX_LINE. */
  lemma {:induction false} BufferIsBoundedSuffix(buf: Bytes, chunks: seq<Bytes>)
    requires LF !in buf && |buf| <= MAX_LINE
    ensures var held, stream := Held(buf, chunks), buf + Concat(chunks);
      |held| <= MAX_LINE && LF !in held && EndsWith(stream, held)
    decreases chunks
  {
    if chunks == [] {
      assert buf + Concat(chunks) == buf;
    } else {
      var all := buf + chunks[0];
      var r := Residue(Keep(all));
      KeptEndsAll(all);
      BufferIsBoundedSuffix(r, chunks[1..]);
      SeqAssoc(buf, chunks[0], Concat(chunks[1..]));
      EndsWithLonger(all, r, Concat(chunks[1..]), Held(buf, chunks));
    }
  }

  lemma KeptEndsAll(all: Bytes)
    ensures var r := Residue(Keep(all));
            LF !in r && |r| <= MAX_LINE && EndsWith(all, r)
  {
    var kept := Keep(all);
    var r := Residue(kept);
    ResidueFollowsLastNewline(kept);
    assert all[|all| - |kept|..] == kept;
    assert all[|all| - |r|..] == kept[|kept| - |r|..];
  }

  predicate EndsWith(s: Bytes, end: Bytes) {
    |end| <= |s| && s[|s| - |end|..] == end
  }

  lemma EndsWithLonger(s: Bytes, end: Bytes, more: Bytes, held: Bytes)
    requires EndsWith(s, end) && EndsWith(end + more, held)
    ensures EndsWith(s + more, held)
  {
    var front := s[..|s| - |end|];
    assert s + more == front + (end + more);
  }

  // ----------------------------------------------------------------- what an overflow costs

  /** The cut runs through a line of which only carriage returns remain. */
  predicate CutBlanksALine(dropped: Bytes, kept: Bytes) {
    var i := Find(kept, LF);
    i >= 0 && StripCr(kept[..i]) == [] && StripCr(Residue(dropped) + kept[..i]) != []
  }

  /** Dropping the front of a buffer loses exactly the messages of the lines that end in it, and one
      more when only blanks of the line at the cut remain; `kept` stands for the rest of the buffer and
      whatever follows it. */
  lemma OverflowLoses(dropped: Bytes, kept: Bytes)
    ensures |Messages(dropped + kept)| ==
            |Messages(kept)| + |Messages(dropped)| + (if CutBlanksALine(dropped, kept) then 1 else 0)
  {
    SplitConcat(dropped, kept);
    var t := Residue(dropped);
    ResidueFollowsLastNewline(dropped);
    var i := Find(kept, LF);
    if i < 0 {
      assert LF !in t + kept;
    } else {
      CutLine(t, kept, i);
    }
  }

  lemma CutLine(t: Bytes, kept: Bytes, i: nat)
    requires LF !in t && i == Find(kept, LF)
    ensures Messages(t + kept) == Deliver(t + kept[..i]) + Messages(kept[i + 1..])
    ensures Messages(kept) == Deliver(kept[..i]) + Messages(kept[i + 1..])
    ensures Deliver(kept[..i]) != [] ==> Deliver(t + kept[..i]) != []
  {
    FindIsFirst(kept, LF);
    assert t + kept == (t + kept[..i]) + [LF] + kept[i + 1..];
    FirstLine(t + kept[..i], kept[i + 1..]);
    if StripCr(t + kept[..i]) == [] {
      forall j | 0 <= j < i ensures kept[j] == CR {
        assert (t + kept[..i])[|t| + j] == CR;
      }
      assert forall j :: 0 <= j < i ==> kept[..i][j] == CR;
    }
  }

  /** A chunk of whole lines that overflows the buffer loses its first line, although no line is
      too long. */
  lemma LargeChunkLosesLines(line: Bytes, rest: Bytes)
    requires LF !in line && StripCr(line) != [] && |rest| >= MAX_LINE
    ensures |Messages(Keep(line + [LF] + rest))| < |Messages(line + [LF] + rest)|
  {
    var cut := |rest| - MAX_LINE;
    var dropped, kept := line + [LF] + rest[..cut], rest[cut..];
    assert dropped + kept == line + [LF] + rest;
    assert Keep(line + [LF] + rest) == kept;
    FirstLine(line, rest[..cut]);
    OverflowLoses(dropped, kept);
  }

  // ----------------------------------------------------------------- senders

  /** How a sender frames a message: newline, carriage return and newline, or an octet count (not
      checked against the length) and a newline. */
  datatype Frame = Plain(m: Bytes) | WithCr(m: Bytes) | Counted(count: Bytes, m: Bytes)

  function Line(f: Frame): Bytes {
    match f
    case Plain(m) => m
    case WithCr(m) => m + [CR]
    case Counted(count, m) => count + [SP] + m
  }

  predicate Sendable(f: Frame) {
    && f.m != [] && LF !in f.m && f.m[|f.m| - 1] != CR
    && match f
       case Plain(m) => !HasOctetPrefix(m)
       case WithCr(m) => !HasOctetPrefix(m)
       case Counted(count, m) => 1 <= |count| <= MAX_COUNT_DIGITS && AllDigits(count)
  }

  function Stream(frames: seq<Frame>): Bytes {
    if frames == [] then [] else Line(frames[0]) + [LF] + Stream(frames[1..])
  }

  function Payloads(frames: seq<Frame>): seq<Bytes> {
    if frames == [] then [] else [frames[0].m] + Payloads(frames[1..])
  }

  lemma {:induction false} StripCrOf(m: Bytes, crs: Bytes)
    requires m == [] || m[|m| - 1] != CR
    requires forall i :: 0 <= i < |crs| ==> crs[i] == CR
    ensures StripCr(m + crs) == m
  {
    if crs == [] {
      assert m + crs == m;
    } else {
      assert (m + crs)[..|m + crs| - 1] == m + crs[..|crs| - 1];
      StripCrOf(m, crs[..|crs| - 1]);
    }
  }

  /** The octet count is taken off exactly when the line begins like one. */
  lemma StripsOnlyPrefixes(line: Bytes)
    ensures StripOctetCount(line) != line <==> HasOctetPrefix(line)
  {
    var sp := Find(line, SP);
    forall k | 1 <= k <= MAX_COUNT_DIGITS && k < |line| && line[k] == SP && AllDigits(line[..k])
      ensures sp == k
    {
      DigitsThenSpace(line, k);
    }
  }

  lemma DigitsThenSpace(line: Bytes, k: nat)
    requires k < |line| && line[k] == SP && AllDigits(line[..k])
    ensures Find(line, SP) == k
  {
    assert line == line[..k] + [SP] + line[k + 1..];
    assert forall j :: 0 <= j < k ==> IsDigit(line[..k][j]);
    FindBehind(line[..k], SP, line[k + 1..]);
  }

  lemma StripsTheCount(count: Bytes, m: Bytes)
    requires 1 <= |count| <= MAX_COUNT_DIGITS && AllDigits(count)
    ensures StripOctetCount(count + [SP] + m) == m
  {
    var line := count + [SP] + m;
    assert line[..|count|] == count && line[|count| + 1..] == m;
    DigitsThenSpace(line, |count|);
  }

  lemma FrameDelivers(f: Frame)
    requires Sendable(f)
    ensures LF !in Line(f) && Deliver(Line(f)) == [f.m]
  {
    var m := f.m;
    match f
    case Plain(_) =>
      StripCrOf(m, []);
      assert m + [] == m;
      StripsOnlyPrefixes(m);
    case WithCr(_) =>
      StripCrOf(m, [CR]);
      StripsOnlyPrefixes(m);
    case Counted(count, _) =>
      var line := count + [SP] + m;
      StripCrOf(line, []);
      assert line + [] == line;
      StripsTheCount(count, m);
      forall i | 0 <= i < |line| ensures line[i] != LF {
        if i < |count| {
          assert IsDigit(count[i]);
        }
      }
  }

  lemma {:induction false} StreamSplits(frames: seq<Frame>)
    requires forall i :: 0 <= i < |frames| ==> Sendable(frames[i])
    ensures Messages(Stream(frames)) == Payloads(frames) && Residue(Stream(frames)) == []
  {
    if frames != [] {
      FrameDelivers(frames[0]);
      FirstLine(Line(frames[0]), Stream(frames[1..]));
      StreamSplits(frames[1..]);
    }
  }

  /** Every message comes back, once, whole and in order, whatever mixture of framings the sender
      uses and however the network cuts the stream. */
  lemma FramingRoundTrip(frames: seq<Frame>, chunks: seq<Bytes>)
    requires forall i :: 0 <= i < |frames| ==> Sendable(frames[i])
    requires Concat(chunks) == Stream(frames) && Bounded([], chunks)
    ensures Handled([], chunks) == Payloads(frames) && Held([], chunks) == []
  {
    CuttingDoesNotMatter([], chunks);
    assert [] + Concat(chunks) == Concat(chunks);
    StreamSplits(frames);
  }

  lemma {:induction false} StripCrBehind(a: Bytes, m: Bytes)
    requires a == [] || a[|a| - 1] != CR
    ensures StripCr(a + m) == a + StripCr(m)
  {
    var r := StripCr(m);
    assert m == r + m[|r|..];
    SeqAssoc(a, r, m[|r|..]);
    StripCrOf(a + r, m[|r|..]);
  }

  lemma StripCrKeepsIff(m: Bytes)
    ensures StripCr(m) == m <==> m == [] || m[|m| - 1] != CR
  {
    if m == [] || m[|m| - 1] != CR {
      StripCrOf(m, []);
      assert m + [] == m;
    }
  }

  lemma LastLine(line: Bytes)
    requires LF !in line
    ensures Messages(line + [LF]) == Deliver(line)
  {
    FirstLine(line, []);
    assert line + [LF] + [] == line + [LF];
    assert Deliver(line) + [] == Deliver(line);
  }

  lemma BareComesBackIff(m: Bytes)
    requires m != []
    ensures Deliver(m) == [m] <==> m[|m| - 1] != CR && !HasOctetPrefix(m)
  {
    StripCrKeepsIff(m);
    if m[|m| - 1] != CR {
      StripsOnlyPrefixes(m);
    } else {
      assert |StripCr(m)| < |m|;
      assert |StripOctetCount(StripCr(m))| <= |StripCr(m)|;
    }
  }

  lemma CountedComesBackIff(count: Bytes, m: Bytes)
    requires count != [] && AllDigits(count)
    ensures Deliver(count + [SP] + m) == [m] <==> (m == [] || m[|m| - 1] != CR) && |count| <= MAX_COUNT_DIGITS
  {
    var head, r := count + [SP], StripCr(m);
    StripCrBehind(head, m);
    StripCrKeepsIff(m);
    if |count| <= MAX_COUNT_DIGITS {
      StripsTheCount(count, r);
    } else {
      var line := head + r;
      assert line[..|count|] == count && line[|count|] == SP;
      DigitsThenSpace(line, |count|);
      assert Deliver(head + m) == [line];
      assert line[|line| - 1] != CR by {
        assert line[|line| - 1] == if r == [] then SP else r[|r| - 1];
      }
    }
  }

  lemma OneMoreCr(m: Bytes)
    ensures Deliver(m + [CR]) == Deliver(m)
  {
    var r := StripCr(m);
    StripCrOf(r, m[|r|..] + [CR]);
    assert r + (m[|r|..] + [CR]) == m + [CR];
  }

  lemma DigitsHaveNoNewline(count: Bytes, m: Bytes)
    requires AllDigits(count) && LF !in m
    ensures LF !in count + [SP] + m
  {
    assert forall i :: 0 <= i < |count| ==> IsDigit(count[i]);
  }

  /** The conditions on what is sent are necessary too, in each of the three framings. */
  lemma FrameComesBackIff(f: Frame)
    requires LF !in f.m
    requires if f.Counted? then f.count != [] && AllDigits(f.count) else f.m != []
    ensures Messages(Line(f) + [LF]) == [f.m] <==>
            (f.m == [] || f.m[|f.m| - 1] != CR) &&
            (if f.Counted? then |f.count| <= MAX_COUNT_DIGITS else !HasOctetPrefix(f.m))
  {
    var m := f.m;
    match f
    case Plain(_) =>
      LastLine(m);
      BareComesBackIff(m);
    case WithCr(_) =>
      LastLine(m + [CR]);
      OneMoreCr(m);
      BareComesBackIff(m);
    case Counted(count, _) =>
      DigitsHaveNoNewline(count, m);
      LastLine(count + [SP] + m);
      CountedComesBackIff(count, m);
  }

  /** Octet counting as RFC 6587, section 3.4.1 has it, with nothing after the message. */
  function OctetCounted(frames: seq<Frame>): Bytes {
    if frames == [] then [] else Line(frames[0]) + OctetCounted(frames[1..])
  }

  /** Such a stream is never split: the receiver takes octet counts off, but only a newline ends a
      message.  The class comment says octet-counted framing is accepted. */
  lemma {:induction false} PureOctetCountingDeliversNothing(frames: seq<Frame>)
    requires forall i :: 0 <= i < |frames| ==> Sendable(frames[i]) && frames[i].Counted?
    ensures LF !in OctetCounted(frames) && Messages(OctetCounted(frames)) == []
  {
    if frames != [] {
      FrameDelivers(frames[0]);
      PureOctetCountingDeliversNothing(frames[1..]);
    }
  }
}
