/**
 The two line readers: `Stdin::read_line` of `src/file.rs` and `Lines::next_line` of `src/socket.rs`.

 A descriptor is a script of what successive `read` calls return. Any way the kernel may cut a stream into
 reads, with signals and failures in between, is such a script.
 */
module LineReaders {
  import opened Wrappers
  import opened ByteStrings
  import opened LineSplitting

  const CHUNK := 8192

  datatype Event =
    | Data(bytes: Bytes)
    | EndOfFile
    | Interrupted
    | Failed(errno: int)

  predicate ValidScript(script: seq<Event>) {
    forall i :: 0 <= i < |script| && script[i].Data? ==> 1 <= |script[i].bytes| <= CHUNK
  }

  /** The bytes that reading on would yield, up to end of file, if failed reads are retried. */
  function Stream(script: seq<Event>): Bytes {
    if script == [] then []
    else match script[0]
      case Data(bytes) => bytes + Stream(script[1..])
      case EndOfFile => []
      case Interrupted => Stream(script[1..])
      case Failed(_) => Stream(script[1..])
  }

  /** The bytes that arrive before the next failed read, or before end of file. */
  function Lead(script: seq<Event>): Bytes {
    if script == [] then []
    else match script[0]
      case Data(bytes) => bytes + Lead(script[1..])
      case EndOfFile => []
      case Interrupted => Lead(script[1..])
      case Failed(_) => []
  }

  /** The failure that comes after `Lead`, if that is what comes. */
  function Failure(script: seq<Event>): Option<int> {
    if script == [] then None
    else match script[0]
      case Data(_) => Failure(script[1..])
      case EndOfFile => None
      case Interrupted => Failure(script[1..])
      case Failed(errno) => Some(errno)
  }

  /** What is left to read after that failure. */
  function AfterFailure(script: seq<Event>): (rest: seq<Event>)
    ensures |rest| <= |script| && (script != [] ==> |rest| < |script|)
    ensures forall e :: e in rest ==> e in script
  {
    if script == [] then []
    else match script[0]
      case Data(_) => AfterFailure(script[1..])
      case EndOfFile => []
      case Interrupted => AfterFailure(script[1..])
      case Failed(_) => script[1..]
  }

  lemma {:induction false} StreamFromLead(script: seq<Event>)
    ensures Failure(script).None? ==> Stream(script) == Lead(script)
    ensures Failure(script).Some? ==> Stream(script) == Lead(script) + Stream(AfterFailure(script))
  {
    if script == [] || script[0].EndOfFile? || script[0].Failed? {
    } else {
      StreamFromLead(script[1..]);
    }
  }

  /** The bytes that were read, in order. */
  function DataOf(events: seq<Event>): Bytes {
    if events == [] then []
    else (match events[0] case Data(bytes) => bytes case _ => []) + DataOf(events[1..])
  }

  /** What the next event contributes. */
  lemma NextEvent(script: seq<Event>)
    requires script != []
    ensures var next, rest := script[0], script[1..];
      match next
      case Data(bytes) =>
        && Stream(script) == bytes + Stream(rest) && Lead(script) == bytes + Lead(rest)
        && Failure(script) == Failure(rest) && AfterFailure(script) == AfterFailure(rest)
      case EndOfFile =>
        Stream(script) == [] && Lead(script) == [] && Failure(script).None? && AfterFailure(script) == []
      case Interrupted =>
        && Stream(script) == Stream(rest) && Lead(script) == Lead(rest)
        && Failure(script) == Failure(rest) && AfterFailure(script) == AfterFailure(rest)
      case Failed(errno) =>
        && Stream(script) == Stream(rest) && Lead(script) == []
        && Failure(script) == Some(errno) && AfterFailure(script) == rest
  {
  }

  lemma DataOfOneMore(pre: seq<Event>)
    requires pre != []
    ensures DataOf(pre) == (if pre[0].Data? then pre[0].bytes else []) + DataOf(pre[1..])
  {
  }

  /** Reads that bring data or are cut short by a signal only add their data to what comes after them. */
  lemma {:induction false} ReadsAddTheirData(pre: seq<Event>, rest: seq<Event>)
    requires forall e :: e in pre ==> e.Data? || e.Interrupted?
    ensures Stream(pre + rest) == DataOf(pre) + Stream(rest) && Lead(pre + rest) == DataOf(pre) + Lead(rest)
    ensures Failure(pre + rest) == Failure(rest) && AfterFailure(pre + rest) == AfterFailure(rest)
  {
    if pre == [] {
      assert pre + rest == rest;
    } else {
      hide Stream, Lead, Failure, AfterFailure, DataOf;
      var all := pre + rest;
      assert pre[0] in pre && all[0] == pre[0] && all[1..] == pre[1..] + rest;
      ReadsAddTheirData(pre[1..], rest);
      NextEvent(all);
      DataOfOneMore(pre);
    }
  }

  /** What a script says, where `pre` is what comes before its first failure or its end: data, and signals to retry. */
  lemma ScriptSays(pre: seq<Event>, errno: int, post: seq<Event>)
    requires forall e :: e in pre ==> e.Data? || e.Interrupted?
    ensures var failing := pre + ([Failed(errno)] + post);
      && Lead(failing) == DataOf(pre) && Failure(failing) == Some(errno) && AfterFailure(failing) == post
      && Stream(failing) == DataOf(pre) + Stream(post)
    ensures var ending := pre + ([EndOfFile] + post);
      Lead(ending) == DataOf(pre) && Failure(ending) == None && Stream(ending) == DataOf(pre)
    ensures Lead(pre) == DataOf(pre) && Failure(pre) == None && Stream(pre) == DataOf(pre)
  {
    ReadsAddTheirData(pre, [Failed(errno)] + post);
    ReadsAddTheirData(pre, [EndOfFile] + post);
    ReadsAddTheirData(pre, []);
    assert ([Failed(errno)] + post)[1..] == post && ([EndOfFile] + post)[1..] == post;
    assert pre + [] == pre && DataOf(pre) + [] == DataOf(pre);
  }

  lemma NoMoreEvents()
    ensures Stream([]) == [] && Lead([]) == [] && Failure([]).None? && AfterFailure([]) == []
  {
  }

  /** A line begun earlier ends at the first newline of what is buffered. */
  lemma FinishedLine(line: Bytes, buffered: Bytes, tail: Bytes, n: nat)
    requires NEWLINE !in line && Position(buffered, NEWLINE) == Some(n)
    ensures TakeLine(line + (buffered + tail)) == Some((line + buffered[..n], buffered[n + 1..] + tail))
  {
    hide Position;
    var s := line + (buffered + tail);
    assert s[..|line| + n] == line + buffered[..n];
    assert s[|line| + n + 1..] == buffered[n + 1..] + tail;
    PositionIs(s, NEWLINE, |line| + n);
  }

  lemma LastLine(s: Bytes)
    requires NEWLINE !in s
    ensures TakeLine(s) == if s == [] then None else Some((s, []))
  {
  }

  /** The answer is the first line of `before`, or `None` when there is none, and `after` is what follows it. */
  ghost predicate Delivers(r: Result<Option<Bytes>, int>, before: Bytes, after: Bytes) {
    match TakeLine(before)
    case None => r == Ok(None) && after == []
    case Some(p) => r == Ok(Some(p.0)) && after == p.1
  }

  /** The failure that comes before the next newline does, where `b` is buffered. */
  function FailureAhead(b: Bytes, script: seq<Event>): Option<int> {
    if NEWLINE in b + Lead(script) then None else Failure(script)
  }

  /**
   A call under way. `line` has been set aside, `b` is buffered, `script` is still to be read; `rest` was
   everything pending when the call began, with `origin` to be read, and `failure` the failure it will report, if
   it will.
   */
  ghost predicate Underway(
      line: Bytes, b: Bytes, script: seq<Event>, rest: Bytes, failure: Option<int>, origin: seq<Event>) {
    && NEWLINE !in line
    && rest == line + (b + Stream(script))
    && failure == FailureAhead(b, script)
    && Failure(script) == Failure(origin) && AfterFailure(script) == AfterFailure(origin)
  }

  lemma UnderwayStart(b: Bytes, script: seq<Event>)
    ensures Underway([], b, script, b + Stream(script), FailureAhead(b, script), script)
  {
    assert [] + (b + Stream(script)) == b + Stream(script);
  }

  lemma UnderwayNewline(
      line: Bytes, b: Bytes, script: seq<Event>, rest: Bytes, failure: Option<int>, origin: seq<Event>, n: nat)
    requires Underway(line, b, script, rest, failure, origin) && Position(b, NEWLINE) == Some(n)
    ensures failure.None? && Delivers(Ok(Some(line + b[..n])), rest, b[n + 1..] + Stream(script))
    ensures Failure(script) == Failure(origin) && AfterFailure(script) == AfterFailure(origin)
  {
    hide Position, Stream, Lead, Failure, TakeLine;
    FinishedLine(line, b, Stream(script), n);
    assert NEWLINE in b + Lead(script);
  }

  /** Setting the buffered bytes aside, as the socket reader does before it reads on. */
  lemma UnderwaySetAside(
      line: Bytes, b: Bytes, script: seq<Event>, rest: Bytes, failure: Option<int>, origin: seq<Event>)
    requires Underway(line, b, script, rest, failure, origin) && NEWLINE !in b
    ensures Underway(line + b, [], script, rest, failure, origin)
  {
    hide Stream, Lead, Failure;
    assert line + (b + Stream(script)) == (line + b) + ([] + Stream(script));
  }

  lemma UnderwayData(line: Bytes, b: Bytes, script: seq<Event>, rest: Bytes, failure: Option<int>, origin: seq<Event>)
    requires Underway(line, b, script, rest, failure, origin) && NEWLINE !in b && script != [] && script[0].Data?
    ensures Underway(line, b + script[0].bytes, script[1..], rest, failure, origin)
  {
    NextEvent(script);
    hide Stream, Lead, Failure;
    var bytes := script[0].bytes;
    assert b + (bytes + Stream(script[1..])) == (b + bytes) + Stream(script[1..]);
    assert b + (bytes + Lead(script[1..])) == (b + bytes) + Lead(script[1..]);
  }

  lemma UnderwayInterrupted(
      line: Bytes, b: Bytes, script: seq<Event>, rest: Bytes, failure: Option<int>, origin: seq<Event>)
    requires Underway(line, b, script, rest, failure, origin) && script != [] && script[0].Interrupted?
    ensures Underway(line, b, script[1..], rest, failure, origin)
  {
    NextEvent(script);
    hide Stream, Lead, Failure;
  }

  /** The events left once the reads that a signal interrupted have been retried. */
  function Settled(script: seq<Event>): (settled: seq<Event>)
    ensures |settled| <= |script|
    ensures settled == [] || !settled[0].Interrupted?
    ensures forall e :: e in settled ==> e in script
  {
    if script != [] && script[0].Interrupted? then Settled(script[1..]) else script
  }

  /** Only interruptions at the front are gone. */
  lemma {:induction false} SettledSkipsOnlySignals(script: seq<Event>)
    ensures var n := |script| - |Settled(script)|;
      script[n..] == Settled(script) && forall i :: 0 <= i < n ==> script[i].Interrupted?
  {
    if script == [] || !script[0].Interrupted? {
    } else {
      SettledSkipsOnlySignals(script[1..]);
    }
  }

  /** A signal changes nothing but the number of events. */
  lemma {:induction false} SettlingIsInvisible(script: seq<Event>)
    ensures Stream(Settled(script)) == Stream(script) && Lead(Settled(script)) == Lead(script)
    ensures Failure(Settled(script)) == Failure(script) && AfterFailure(Settled(script)) == AfterFailure(script)
  {
    if script == [] || !script[0].Interrupted? {
    } else {
      NextEvent(script);
      SettlingIsInvisible(script[1..]);
    }
  }

  lemma UnderwaySettled(line: Bytes, script: seq<Event>, rest: Bytes, failure: Option<int>, origin: seq<Event>)
    requires Underway(line, [], script, rest, failure, origin)
    ensures Underway(line, [], Settled(script), rest, failure, origin)
  {
    hide Stream, Lead, Failure, Settled;
    SettlingIsInvisible(script);
  }

  lemma UnderwayFailed(line: Bytes, b: Bytes, script: seq<Event>, rest: Bytes, failure: Option<int>, origin: seq<Event>)
    requires Underway(line, b, script, rest, failure, origin) && NEWLINE !in b && script != [] && script[0].Failed?
    ensures failure == Some(script[0].errno) && rest == line + (b + Stream(script[1..]))
    ensures AfterFailure(origin) == script[1..]
  {
    NextEvent(script);
    hide Stream, Lead, Failure;
    assert b + [] == b;
  }

  lemma UnderwayEnd(line: Bytes, b: Bytes, script: seq<Event>, rest: Bytes, failure: Option<int>, origin: seq<Event>)
    requires Underway(line, b, script, rest, failure, origin) && NEWLINE !in b
    requires script == [] || script[0].EndOfFile?
    ensures failure.None? && rest == line + b && Failure(origin).None? && AfterFailure(origin) == []
    ensures Delivers(Ok(if rest == [] then None else Some(rest)), rest, [])
  {
    if script == [] {
      NoMoreEvents();
    } else {
      NextEvent(script);
    }
    hide Stream, Lead, Failure, Position;
    assert b + [] == b;
    LastLine(rest);
  }

  // ---- What a reader that drops the line under way hands on ----

  /** The bytes that are left when every failed read costs the line under way, and the reader is asked again. */
  function Survivors(b: Bytes, script: seq<Event>): Bytes
    decreases |script|
  {
    if Failure(script).None? then b + Lead(script)
    else Complete(b + Lead(script)) + Survivors([], AfterFailure(script))
  }

  /** Every failed read falls where no line is under way. */
  predicate FailsBetweenLines(b: Bytes, script: seq<Event>)
    decreases |script|
  {
    Failure(script).Some? ==> IsComplete(b + Lead(script)) && FailsBetweenLines([], AfterFailure(script))
  }

  lemma FailedHasEvents(script: seq<Event>)
    requires Failure(script).Some?
    ensures script != []
  {
  }

  /** A failed read inside a line costs some of it; none elsewhere costs anything. */
  lemma {:induction false} SurvivorsAreFewer(b: Bytes, script: seq<Event>)
    ensures Payload(Survivors(b, script)) <= Payload(b + Stream(script))
    ensures FailsBetweenLines(b, script) ==> Survivors(b, script) == b + Stream(script)
    ensures !FailsBetweenLines(b, script) ==> Payload(Survivors(b, script)) < Payload(b + Stream(script))
    decreases |script|
  {
    hide Stream, Lead, Failure, AfterFailure, Payload, Complete, IsComplete;
    StreamFromLead(script);
    if Failure(script).None? {
    } else {
      var ahead, later := b + Lead(script), AfterFailure(script);
      FailedHasEvents(script);
      assert b + Stream(script) == ahead + Stream(later);
      SurvivorsAreFewer([], later);
      assert [] + Stream(later) == Stream(later);
      CompleteLosesTheRest(ahead);
      PayloadConcat(ahead, Stream(later));
      PayloadConcat(Complete(ahead), Survivors([], later));
    }
  }

  /** Retrying such a reader gives the lines of the stream exactly when no failed read falls inside a line. */
  lemma RetryingLosesLinesUnderWay(b: Bytes, script: seq<Event>)
    ensures SplitLines(Survivors(b, script)) == SplitLines(b + Stream(script)) <==> FailsBetweenLines(b, script)
  {
    hide SplitLines, Survivors, FailsBetweenLines, Stream, Payload;
    SurvivorsAreFewer(b, script);
    TotalOfSplit(Survivors(b, script));
    TotalOfSplit(b + Stream(script));
  }

  lemma SurvivorsBeforeFailure(b: Bytes, script: seq<Event>)
    requires Failure(script).Some?
    ensures Survivors(b, script) == Complete(b + Lead(script)) + Survivors([], AfterFailure(script))
  {
    hide Failure, Lead, AfterFailure, Complete;
  }

  lemma LineTaken(s: Bytes)
    requires NEWLINE in s
    ensures TakeLine(s).Some?
    ensures var (line, rest) := TakeLine(s).value; NEWLINE !in line && s == line + [NEWLINE] + rest
  {
    hide Position;
  }

  lemma SameFront(a: Bytes, b: Bytes, tail: Bytes)
    requires a + tail == b + tail
    ensures a == b
  {
    assert |a| == |b|;
    assert a == (a + tail)[..|a|] && b == (b + tail)[..|b|];
  }

  /** A line that is there is the same line whatever comes after the failure. */
  lemma LineBeforeTail(ahead: Bytes, ahead': Bytes, later: Bytes, line: Bytes)
    requires NEWLINE in ahead && TakeLine(ahead + later) == Some((line, ahead' + later))
    ensures NEWLINE !in line && ahead == line + [NEWLINE] + ahead'
  {
    hide TakeLine;
    FirstLineIsSettled(ahead, later);
    LineTaken(ahead);
    SameFront(ahead', TakeLine(ahead).value.1, later);
  }

  lemma Reassociate(a: Bytes, b: Bytes, c: Bytes)
    ensures (a + b) + c == a + (b + c)
  {
  }

  /** A line taken before the failure ahead is a line of the survivors. */
  lemma SurvivingLine(b: Bytes, script: seq<Event>, b': Bytes, script': seq<Event>, line: Bytes)
    requires Failure(script).Some? && NEWLINE in b + Lead(script)
    requires Failure(script') == Failure(script) && AfterFailure(script') == AfterFailure(script)
    requires TakeLine(b + Stream(script)) == Some((line, b' + Stream(script')))
    ensures NEWLINE !in line && Survivors(b, script) == line + [NEWLINE] + Survivors(b', script')
  {
    hide Stream, Lead, Failure, AfterFailure, TakeLine, Survivors, Complete;
    StreamFromLead(script);
    StreamFromLead(script');
    var ahead, ahead', later := b + Lead(script), b' + Lead(script'), AfterFailure(script);
    assert b + Stream(script) == ahead + Stream(later) && b' + Stream(script') == ahead' + Stream(later);
    LineBeforeTail(ahead, ahead', Stream(later), line);
    CompleteAfterLine(line, ahead');
    SurvivorsBeforeFailure(b, script);
    SurvivorsBeforeFailure(b', script');
    Reassociate(line + [NEWLINE], Complete(ahead'), Survivors([], later));
  }

  lemma LineIsThere(b: Bytes, script: seq<Event>)
    requires Failure(script).Some? && NEWLINE in b + Lead(script)
    ensures TakeLine(b + Stream(script)).Some?
  {
    hide Lead, Failure;
    StreamFromLead(script);
    assert b + Stream(script) == (b + Lead(script)) + Stream(AfterFailure(script));
    FirstLineIsSettled(b + Lead(script), Stream(AfterFailure(script)));
  }

  lemma SplitOffLine(line: Bytes, rest: Bytes)
    requires NEWLINE !in line
    ensures SplitLines(line + [NEWLINE] + rest) == [line] + SplitLines(rest)
  {
    TakeTerminated(line, rest);
  }

  lemma FailureCostsTheLine(b: Bytes, script: seq<Event>)
    requires Failure(script).Some? && NEWLINE !in b + Lead(script)
    ensures Survivors(b, script) == Survivors([], AfterFailure(script))
  {
    hide Failure, Lead, AfterFailure;
  }

  lemma NoFailureNoLoss(b: Bytes, script: seq<Event>)
    requires Failure(script).None?
    ensures Survivors(b, script) == b + Stream(script)
  {
    StreamFromLead(script);
  }

  /** What one `read` call of `CHUNK` bytes answers. */
  datatype ReadResult = Got(bytes: Bytes) | End | Eintr | Error(errno: int)

  class Descriptor {
    var script: seq<Event>

    constructor (script: seq<Event>)
      ensures this.script == script
    {
      this.script := script;
    }

    /** `read(2)`. Reading past the script keeps reporting end of file. */
    method Read() returns (r: ReadResult)
      requires ValidScript(script)
      modifies this
      ensures ValidScript(script)
      ensures old(script) == [] ==> r == End && script == []
      ensures old(script) != [] ==> script == old(script)[1..]
      ensures old(script) != [] ==>
                match old(script)[0]
                case Data(bytes) => r == Got(bytes) && 1 <= |bytes| <= CHUNK
                case EndOfFile => r == End
                case Interrupted => r == Eintr
                case Failed(errno) => r == Error(errno)
    {
      if script == [] {
        return End;
      }
      var e := script[0];
      script := script[1..];
      match e
      case Data(bytes) => r := Got(bytes);
      case EndOfFile => r := End;
      case Interrupted => r := Eintr;
      case Failed(errno) => r := Error(errno);
    }
  }

  /** `file::Stdin`: a growing buffer, a cursor, and an end-of-file flag that sticks. */
  class Stdin {
    const fd: Descriptor
    var buf: Bytes
    var at: nat
    var eof: bool

    ghost predicate Valid()
      reads this, fd
    {
      at <= |buf| && ValidScript(fd.script)
    }

    function Buffered(): Bytes
      reads this
      requires at <= |buf|
    {
      buf[at..]
    }

    /** Everything not handed out yet. */
    function Rest(): Bytes
      reads this, fd
      requires at <= |buf|
    {
      Buffered() + if eof then [] else Stream(fd.script)
    }

    constructor (fd: Descriptor)
      requires ValidScript(fd.script)
      ensures Valid() && this.fd == fd && Rest() == Stream(fd.script)
    {
      this.fd := fd;
      buf, at, eof := [], 0, false;
    }

    /** The failure that comes before the line under way is complete, if one does. */
    function Upcoming(): Option<int>
      reads this, fd
      requires at <= |buf|
    {
      if eof then None else FailureAhead(Buffered(), fd.script)
    }

    /** The next line of what is left; a failed read is reported and loses nothing. */
    method ReadLine() returns (r: Result<Option<Bytes>, int>)
      requires Valid()
      modifies this, fd
      ensures Valid()
      ensures match old(Upcoming())
              case Some(errno) =>
                r == Err(errno) && Rest() == old(Rest()) && |fd.script| < |old(fd.script)|
              case None => Delivers(r, old(Rest()), Rest())
      ensures |fd.script| <= |old(fd.script)|
      ensures r == Ok(None) ==> eof
      ensures old(eof) ==> eof && fd.script == old(fd.script)
    {
      hide Position, Stream, Lead, Failure, Delivers, Underway, ValidScript;
      // Once end of file has been seen, the reader behaves as if nothing were left to read.
      ghost var script, rest, failure := if eof then [] else fd.script, Rest(), Upcoming();
      ghost var origin := script;
      NoMoreEvents();
      UnderwayStart(Buffered(), script);
      while true
        invariant Valid() && |fd.script| <= |old(fd.script)|
        invariant script == if eof then [] else fd.script
        invariant Underway([], Buffered(), script, rest, failure, origin)
        invariant old(eof) ==> eof && fd.script == old(fd.script)
        decreases !eof, |fd.script|
      {
        match Position(buf[at..], NEWLINE) {
          case Some(nl) =>
            UnderwayNewline([], Buffered(), script, rest, failure, origin, nl);
            var line := buf[at..at + nl];
            assert line == [] + Buffered()[..nl];
            assert buf[at + nl + 1..] == Buffered()[nl + 1..];
            at := at + nl + 1;
            return Ok(Some(line));
          case None =>
        }
        if eof {
          UnderwayEnd([], Buffered(), script, rest, failure, origin);
          assert rest == buf[at..];
          if at < |buf| {
            var line := buf[at..];
            at := |buf|;
            assert Rest() == [];
            return Ok(Some(line));
          }
          assert Rest() == [];
          return Ok(None);
        }
        if at > 0 {
          buf := buf[at..];
          at := 0;
        }
        assert Buffered() == buf;
        var n := fd.Read();
        match n
        case Eintr =>
          UnderwayInterrupted([], buf, script, rest, failure, origin);
          script := fd.script;
        case Error(errno) =>
          UnderwayFailed([], buf, script, rest, failure, origin);
          assert rest == buf + Stream(fd.script);
          return Err(errno);
        case End =>
          UnderwayEnd([], buf, script, rest, failure, origin);
          UnderwayStart(buf, []);
          assert buf + [] == [] + buf;
          eof := true;
          script, origin := [], [];
        case Got(chunk) =>
          UnderwayData([], buf, script, rest, failure, origin);
          buf := buf + chunk;
          script := fd.script;
      }
    }
  }

  /** `socket::Stream`: a connection, read with retry on a signal. */
  class Connection {
    const fd: Descriptor

    constructor (fd: Descriptor)
      ensures this.fd == fd
    {
      this.fd := fd;
    }

    /** Reads once into the front of `buf`, answering how much arrived; zero is a clean end of stream. */
    method Read(buf: array<Byte>) returns (r: Result<nat, int>)
      requires ValidScript(fd.script) && buf.Length == CHUNK
      modifies fd, buf
      ensures ValidScript(fd.script)
      ensures var script := Settled(old(fd.script));
        if script == [] then r == Ok(0) && fd.script == []
        else
          && fd.script == script[1..]
          && match script[0]
             case Data(bytes) => r == Ok(|bytes|) && 0 < |bytes| <= CHUNK && buf[..|bytes|] == bytes
             case EndOfFile => r == Ok(0)
             case Failed(errno) => r == Err(errno)
             case Interrupted => false
    {
      while true
        invariant ValidScript(fd.script) && Settled(fd.script) == Settled(old(fd.script))
        decreases |fd.script|
      {
        var got := fd.Read();
        match got
        case Eintr =>
        case Error(errno) =>
          return Err(errno);
        case End =>
          return Ok(0);
        case Got(bytes) =>
          forall i | 0 <= i < |bytes| {
            buf[i] := bytes[i];
          }
          assert buf[..|bytes|] == bytes;
          return Ok(|bytes|);
      }
    }
  }

  /** `socket::Lines`: a fixed buffer and a window into it. A connection at end of stream stays there. */
  class SocketLines {
    const stream: Connection
    const buf: array<Byte>
    var filled: nat
    var at: nat

    ghost predicate Valid()
      reads this, stream.fd, buf
    {
      && buf.Length == CHUNK && at <= filled <= CHUNK
      && ValidScript(stream.fd.script) && EndOfFile !in stream.fd.script
    }

    function Buffered(): Bytes
      reads this, buf
      requires at <= filled <= buf.Length
    {
      buf[at..filled]
    }

    function Rest(): Bytes
      reads this, stream.fd, buf
      requires at <= filled <= buf.Length
    {
      Buffered() + Stream(stream.fd.script)
    }

    constructor (stream: Connection)
      requires ValidScript(stream.fd.script) && EndOfFile !in stream.fd.script
      ensures Valid() && this.stream == stream && fresh(buf)
      ensures Rest() == Stream(stream.fd.script)
    {
      this.stream := stream;
      buf := new Byte[CHUNK](_ => 0);
      filled, at := 0, 0;
    }

    function Upcoming(): Option<int>
      reads this, stream.fd, buf
      requires at <= filled <= buf.Length
    {
      FailureAhead(Buffered(), stream.fd.script)
    }

    /** The read in `next_line`'s loop, into an emptied window. */
    method Refill() returns (r: Result<nat, int>)
      requires Valid() && Buffered() == []
      modifies this, stream.fd, buf
      ensures Valid()
      ensures var script := Settled(old(stream.fd.script));
        if script == [] then r == Ok(0) && stream.fd.script == [] && Buffered() == []
        else
          && stream.fd.script == script[1..]
          && match script[0]
             case Data(bytes) => r == Ok(|bytes|) && |bytes| > 0 && Buffered() == bytes
             case Failed(errno) => r == Err(errno) && Buffered() == []
             case _ => false
    {
      at := 0;
      filled := 0;
      r := stream.Read(buf);
      if r.Ok? {
        filled := r.value;
      }
    }

    /**
     The next line of what is left. A failed read loses the bytes of the line under way: those still buffered
     and those that arrived before the failure.
     */
    method NextLine() returns (r: Result<Option<Bytes>, int>)
      requires Valid()
      modifies this, stream.fd, buf
      ensures Valid()
      ensures match old(Upcoming())
              case Some(errno) =>
                && r == Err(errno)
                && Buffered() == [] && stream.fd.script == AfterFailure(old(stream.fd.script))
                && Rest() == Stream(AfterFailure(old(stream.fd.script)))
                && old(Rest()) == old(Buffered() + Lead(stream.fd.script)) + Rest()
              case None => Delivers(r, old(Rest()), Rest())
      ensures r.Ok? ==>
                && Failure(stream.fd.script) == Failure(old(stream.fd.script))
                && AfterFailure(stream.fd.script) == AfterFailure(old(stream.fd.script))
    {
      hide Position, Stream, Lead, Failure, AfterFailure, Delivers, Underway, Settled, ValidScript;
      var line: Bytes := [];
      ghost var rest, failure, origin := Rest(), Upcoming(), stream.fd.script;
      StreamFromLead(stream.fd.script);
      UnderwayStart(Buffered(), stream.fd.script);
      while true
        invariant Valid()
        invariant Underway(line, Buffered(), stream.fd.script, rest, failure, origin)
        decreases |stream.fd.script|
      {
        ghost var script := stream.fd.script;
        var window := buf[at..filled];
        match Position(window, NEWLINE) {
          case Some(n) =>
            UnderwayNewline(line, window, script, rest, failure, origin, n);
            assert buf[at + n + 1..filled] == window[n + 1..];
            line := line + window[..n];
            at := at + n + 1;
            return Ok(Some(line));
          case None =>
        }
        UnderwaySetAside(line, window, script, rest, failure, origin);
        line := line + window;
        at := filled;
        UnderwaySettled(line, script, rest, failure, origin);
        script := Settled(script);
        var got := Refill();
        match got
        case Err(errno) =>
          UnderwayFailed(line, [], script, rest, failure, origin);
          return Err(errno);
        case Ok(n) =>
          if n == 0 {
            UnderwayEnd(line, [], script, rest, failure, origin);
            NoMoreEvents();
            assert rest == line && Rest() == [];
            return Ok(if line == [] then None else Some(line));
          }
          UnderwayData(line, [], script, rest, failure, origin);
          assert Buffered() == [] + script[0].bytes;
      }
    }
  }

  lemma DeliveredLine(r: Result<Option<Bytes>, int>, before: Bytes, after: Bytes)
    requires Delivers(r, before, after)
    ensures r.Ok?
    ensures r == Ok(None) ==> SplitLines(before) == []
    ensures r.value.Some? ==> SplitLines(before) == [r.value.value] + SplitLines(after) && |after| < |before|
  {
  }

  /** A caller that takes lines until there are none, and asks again after a failed read, misses nothing. */
  method AllStdinLines(stdin: Stdin) returns (lines: seq<Bytes>)
    requires stdin.Valid()
    modifies stdin, stdin.fd
    ensures lines == SplitLines(old(stdin.Rest()))
  {
    hide SplitLines, Delivers, Stream, Lead, Failure;
    lines := [];
    while true
      invariant stdin.Valid()
      invariant lines + SplitLines(stdin.Rest()) == SplitLines(old(stdin.Rest()))
      decreases |stdin.Rest()|, |stdin.fd.script|
    {
      ghost var before, upcoming := stdin.Rest(), stdin.Upcoming();
      var r := stdin.ReadLine();
      if upcoming.None? {
        DeliveredLine(r, before, stdin.Rest());
      }
      match r
      case Err(_) =>
      case Ok(None) =>
        return;
      case Ok(Some(line)) =>
        lines := lines + [line];
    }
  }

  /** Without failed reads the socket reader yields the same lines, however the stream was cut up. */
  method AllSocketLines(reader: SocketLines) returns (lines: seq<Bytes>)
    requires reader.Valid() && Failure(reader.stream.fd.script).None?
    modifies reader, reader.stream.fd, reader.buf
    ensures lines == SplitLines(old(reader.Rest()))
  {
    hide SplitLines, Delivers, Stream, Lead, Failure;
    lines := [];
    while true
      invariant reader.Valid() && Failure(reader.stream.fd.script).None?
      invariant lines + SplitLines(reader.Rest()) == SplitLines(old(reader.Rest()))
      decreases |reader.Rest()|
    {
      ghost var before := reader.Rest();
      var r := reader.NextLine();
      DeliveredLine(r, before, reader.Rest());
      match r
      case Err(_) =>
        return;
      case Ok(None) =>
        return;
      case Ok(Some(line)) =>
        lines := lines + [line];
    }
  }

  /** A caller that asks the socket reader again after failed reads gets the lines of the survivors. */
  method AllSocketLinesRetrying(reader: SocketLines) returns (lines: seq<Bytes>)
    requires reader.Valid()
    modifies reader, reader.stream.fd, reader.buf
    ensures lines == SplitLines(old(Survivors(reader.Buffered(), reader.stream.fd.script)))
  {
    hide SplitLines, Stream, Lead, Failure, AfterFailure, Survivors, TakeLine;
    lines := [];
    while true
      invariant reader.Valid()
      invariant lines + SplitLines(Survivors(reader.Buffered(), reader.stream.fd.script)) ==
                SplitLines(old(Survivors(reader.Buffered(), reader.stream.fd.script)))
      decreases |reader.Rest()|, |reader.stream.fd.script|
    {
      ghost var b, script := reader.Buffered(), reader.stream.fd.script;
      ghost var before, upcoming := reader.Rest(), reader.Upcoming();
      var r := reader.NextLine();
      ghost var b', script' := reader.Buffered(), reader.stream.fd.script;
      if upcoming.Some? {
        FailureCostsTheLine(b, script);
        FailedHasEvents(script);
      } else {
        DeliveredLine(r, before, reader.Rest());
        if Failure(script).None? {
          NoFailureNoLoss(b, script);
          NoFailureNoLoss(b', script');
        } else {
          LineIsThere(b, script);
          SurvivingLine(b, script, b', script', r.value.value);
          SplitOffLine(r.value.value, Survivors(b', script'));
        }
      }
      match r
      case Err(_) =>
      case Ok(None) =>
        return;
      case Ok(Some(line)) =>
        lines := lines + [line];
    }
  }

  /** What the socket reader loses to a failed read: everything since the last newline. */
  lemma FailedReadLosesTheLineUnderWay(buffered: Bytes, script: seq<Event>)
    requires Failure(script).Some? && NEWLINE !in buffered + Lead(script)
    ensures buffered + Stream(script) == (buffered + Lead(script)) + Stream(AfterFailure(script))
    ensures (SplitLines(Stream(AfterFailure(script))) == SplitLines(buffered + Stream(script)))
         <==> (buffered == [] && Lead(script) == [])
  {
    hide SplitLines;
    StreamFromLead(script);
    DroppingChangesLines(buffered + Lead(script), Stream(AfterFailure(script)));
  }

  /** Three bytes in two reads with a failure between them: one line was sent, and part of it comes out. */
  lemma SocketReaderLosesBytes()
    ensures var a, b: Byte := 97, 98;
      var script := [Data([a]), Failed(5), Data([b, NEWLINE])];
      && Failure(script).Some? && NEWLINE !in Lead(script)
      && SplitLines(Stream(script)) == [[a, b]]
      && SplitLines(Stream(AfterFailure(script))) == [[b]]
  {
    var a, b: Byte := 97, 98;
    var script := [Data([a]), Failed(5), Data([b, NEWLINE])];
    NextEvent(script);
    NextEvent(script[1..]);
    NextEvent(script[2..]);
    NoMoreEvents();
    assert script[1..][1..] == script[2..] && script[2..][1..] == [];
    assert Stream(script) == [a, b] + [NEWLINE] + [] && Stream(script[2..]) == [b] + [NEWLINE] + [];
    TakeTerminated([a, b], []);
    TakeTerminated([b], []);
    assert SplitLines([]) == [];
  }
}
