/** Splitting a byte stream at newlines: what both line readers promise. */
module LineSplitting {
  import opened Wrappers
  import opened ByteStrings

  /** The first line without its newline, and what follows. `None` when nothing is pending. */
  function TakeLine(s: Bytes): Option<(Bytes, Bytes)> {
    match Position(s, NEWLINE)
    case Some(n) => Some((s[..n], s[n + 1..]))
    case None => if s == [] then None else Some((s, []))
  }

  /** A non-empty tail without a newline is still a line. */
  function SplitLines(s: Bytes): seq<Bytes>
    decreases |s|
  {
    match TakeLine(s)
    case None => []
    case Some(p) => [p.0] + SplitLines(p.1)
  }

  function Terminated(lines: seq<Bytes>): Bytes {
    if lines == [] then [] else lines[0] + [NEWLINE] + Terminated(lines[1..])
  }

  lemma TakeTerminated(line: Bytes, rest: Bytes)
    requires NEWLINE !in line
    ensures TakeLine(line + [NEWLINE] + rest) == Some((line, rest))
  {
    hide Position;
    PositionAfter(line, NEWLINE, rest);
    assert (line + [NEWLINE] + rest)[..|line|] == line;
  }

  /** Splitting undoes terminating every line with a newline. */
  lemma {:induction false} SplitOfTerminated(lines: seq<Bytes>)
    requires forall i :: 0 <= i < |lines| ==> NEWLINE !in lines[i]
    ensures SplitLines(Terminated(lines)) == lines
  {
    if lines != [] {
      hide TakeLine;
      TakeTerminated(lines[0], Terminated(lines[1..]));
      SplitOfTerminated(lines[1..]);
    } else {
      assert TakeLine([]) == None;
    }
  }

  /** No line holds a newline, and the lines put back together are the stream, but for a missing last newline. */
  lemma {:induction false} TerminatedOfSplit(s: Bytes)
    ensures forall i :: 0 <= i < |SplitLines(s)| ==> NEWLINE !in SplitLines(s)[i]
    ensures Terminated(SplitLines(s)) == if s == [] || s[|s| - 1] == NEWLINE then s else s + [NEWLINE]
    decreases |s|
  {
    hide Position;
    match Position(s, NEWLINE) {
      case None =>
        if s != [] {
          assert SplitLines([]) == [];
          assert SplitLines(s) == [s];
          hide SplitLines;
          assert [s][1..] == [];
          assert Terminated([]) == [];
          assert Terminated([s]) == s + [NEWLINE];
        }
      case Some(n) =>
        var rest := s[n + 1..];
        assert s == s[..n] + [NEWLINE] + rest;
        TerminatedOfSplit(rest);
        assert SplitLines(s) == [s[..n]] + SplitLines(rest);
        hide SplitLines;
        assert SplitLines(s)[1..] == SplitLines(rest);
    }
  }

  /** A newline that is already there decides the first line, whatever follows it. */
  lemma FirstLineIsSettled(head: Bytes, tail: Bytes)
    requires NEWLINE in head
    ensures TakeLine(head).Some?
    ensures TakeLine(head + tail) == Some((TakeLine(head).value.0, TakeLine(head).value.1 + tail))
  {
    hide Position;
    var n := Position(head, NEWLINE).value;
    var s := head + tail;
    assert s[..n] == head[..n] && s[n + 1..] == head[n + 1..] + tail;
    PositionIs(s, NEWLINE, n);
  }

  /** Dropping bytes from the front of an unfinished line changes the lines, unless there were none to drop. */
  lemma DroppingChangesLines(dropped: Bytes, rest: Bytes)
    requires NEWLINE !in dropped
    ensures SplitLines(dropped + rest) == SplitLines(rest) <==> dropped == []
  {
    if dropped == [] {
      assert dropped + rest == rest;
    } else {
      hide Position;
      var s := dropped + rest;
      match Position(rest, NEWLINE) {
        case None =>
          assert NEWLINE !in s;
          assert SplitLines(s)[0] == s;
          assert rest != [] ==> SplitLines(rest)[0] == rest;
        case Some(n) =>
          assert s[..|dropped| + n] == dropped + rest[..n];
          PositionIs(s, NEWLINE, |dropped| + n);
          assert SplitLines(s)[0] == dropped + rest[..n];
          assert SplitLines(rest)[0] == rest[..n];
      }
    }
  }

  // ---- Counting what the lines hold ----

  /** How many bytes are not newlines. */
  function Payload(s: Bytes): nat {
    if s == [] then 0 else (if s[0] == NEWLINE then 0 else 1) + Payload(s[1..])
  }

  lemma {:induction false} PayloadConcat(a: Bytes, b: Bytes)
    ensures Payload(a + b) == Payload(a) + Payload(b)
  {
    if a == [] {
      assert a + b == b;
    } else {
      assert (a + b)[1..] == a[1..] + b;
      PayloadConcat(a[1..], b);
    }
  }

  lemma {:induction false} PayloadOfLine(line: Bytes)
    requires NEWLINE !in line
    ensures Payload(line) == |line|
  {
    if line == [] {
    } else {
      PayloadOfLine(line[1..]);
    }
  }

  function Total(lines: seq<Bytes>): nat {
    if lines == [] then 0 else |lines[0]| + Total(lines[1..])
  }

  lemma PayloadOfNewline()
    ensures Payload([NEWLINE]) == 0
  {
  }

  /** The lines hold every byte but the newlines. */
  lemma {:induction false} TotalOfSplit(s: Bytes)
    ensures Total(SplitLines(s)) == Payload(s)
    decreases |s|
  {
    hide Position, Payload;
    match Position(s, NEWLINE) {
      case None =>
        PayloadOfLine(s);
        if s == [] {
          assert SplitLines(s) == [];
        } else {
          assert SplitLines([]) == [];
          assert SplitLines(s) == [s] && [s][1..] == [];
        }
      case Some(n) =>
        var line, rest := s[..n], s[n + 1..];
        assert s == line + ([NEWLINE] + rest);
        PayloadConcat(line, [NEWLINE] + rest);
        PayloadConcat([NEWLINE], rest);
        PayloadOfNewline();
        PayloadOfLine(line);
        TotalOfSplit(rest);
        assert SplitLines(s) == [line] + SplitLines(rest);
        hide SplitLines;
        assert ([line] + SplitLines(rest))[1..] == SplitLines(rest);
    }
  }

  /** The lines that are finished: everything up to the last newline. */
  function Complete(s: Bytes): (c: Bytes)
    ensures c <= s
  {
    match RPosition(s, NEWLINE) case None => [] case Some(i) => s[..i + 1]
  }

  predicate IsComplete(s: Bytes) {
    s == [] || s[|s| - 1] == NEWLINE
  }

  lemma CompleteLosesTheRest(s: Bytes)
    ensures Payload(s) == Payload(Complete(s)) + |s| - |Complete(s)|
    ensures Complete(s) == s <==> IsComplete(s)
  {
    hide RPosition, Payload;
    var c, rest := Complete(s), s[|Complete(s)|..];
    assert s == c + rest;
    assert NEWLINE !in rest;
    PayloadConcat(c, rest);
    PayloadOfLine(rest);
    assert s != [] ==> s[|s| - 1] == (if rest == [] then c[|c| - 1] else rest[|rest| - 1]);
  }

  lemma CompleteAfterLine(line: Bytes, rest: Bytes)
    requires NEWLINE !in line
    ensures Complete(line + [NEWLINE] + rest) == line + [NEWLINE] + Complete(rest)
  {
    hide RPosition;
    var s := line + [NEWLINE] + rest;
    match RPosition(rest, NEWLINE)
    case None =>
      assert s[|line| + 1..] == rest;
      RPositionIs(s, NEWLINE, |line|);
    case Some(i) =>
      assert s[|line| + 1 + i + 1..] == rest[i + 1..];
      RPositionIs(s, NEWLINE, |line| + 1 + i);
  }
}
