/**
 Collecting a child's two output streams: the poll loop of `Command::output` in `src/command.rs` against a
 child that writes to two bounded pipes.
 */
module PipeReader {
  import opened ByteStrings

  /** What one non-blocking `read` answers. */
  datatype ReadEvent =
    | Data(bytes: Bytes)
    | EndOfFile
    | Interrupted
    | WouldBlock
    | Failed(errno: int)

  predicate Stops(e: ReadEvent) {
    e.EndOfFile? || e.WouldBlock? || e.Failed?
  }

  /** The bytes that arrive before the read that stops. */
  function Arriving(events: seq<ReadEvent>): Bytes {
    if events == [] || Stops(events[0]) then []
    else (if events[0].Data? then events[0].bytes else []) + Arriving(events[1..])
  }

  /** The read that stops, and the events after it. */
  function Stop(events: seq<ReadEvent>): (r: (ReadEvent, seq<ReadEvent>))
    requires exists e :: e in events && Stops(e)
    ensures Stops(r.0)
  {
    if Stops(events[0]) then (events[0], events[1..])
    else
      assert forall e :: e in events ==> e == events[0] || e in events[1..];
      Stop(events[1..])
  }

  /** The bytes that were read, in order. */
  function DataOf(events: seq<ReadEvent>): Bytes {
    if events == [] then []
    else (match events[0] case Data(bytes) => bytes case _ => []) + DataOf(events[1..])
  }

  /**
   `pre` are reads that brought data or were cut short by a signal, `e` is the first that ends the round: end of
   file, nothing there yet, or a failure.
   */
  predicate Round(events: seq<ReadEvent>, pre: seq<ReadEvent>, e: ReadEvent, post: seq<ReadEvent>) {
    && events == pre + [e] + post
    && (forall x :: x in pre ==> x.Data? || x.Interrupted?)
    && (e.EndOfFile? || e.WouldBlock? || e.Failed?)
  }

  lemma {:induction false} RoundIsTaken(events: seq<ReadEvent>, pre: seq<ReadEvent>, e: ReadEvent, post: seq<ReadEvent>)
    requires Round(events, pre, e, post)
    ensures (exists x :: x in events && Stops(x)) && Arriving(events) == DataOf(pre) && Stop(events) == (e, post)
  {
    assert e in events && Stops(e);
    if pre == [] {
      assert events[0] == e && events[1..] == post;
    } else {
      assert events[0] == pre[0] && events[1..] == pre[1..] + [e] + post;
      assert pre[0] in pre;
      RoundIsTaken(events[1..], pre[1..], e, post);
    }
  }

  /** A signal in the middle of a round adds nothing and ends nothing. */
  lemma {:induction false} SignalsAddNothing(a: seq<ReadEvent>, b: seq<ReadEvent>)
    ensures DataOf(a + [Interrupted] + b) == DataOf(a) + DataOf(b) == DataOf(a + b)
  {
    if a == [] {
      assert a + [Interrupted] + b == [Interrupted] + b && a + b == b;
      assert ([Interrupted] + b)[1..] == b;
    } else {
      assert (a + [Interrupted] + b)[1..] == a[1..] + [Interrupted] + b && (a + b)[1..] == a[1..] + b;
      SignalsAddNothing(a[1..], b);
    }
  }

  /** The reading half of `Pipe`: `events` is what the descriptor will answer. */
  class Pipe {
    var done: bool
    var got: Bytes
    var events: seq<ReadEvent>

    constructor (events: seq<ReadEvent>)
      ensures !done && got == [] && this.events == events
    {
      done, got := false, [];
      this.events := events;
    }

    /**
     Reads until a read would block, ends or fails. Everything that arrived is kept, in order, and the pipe is
     finished unless the last answer was only that nothing is there yet.
     */
    method TakeReady()
      requires exists e :: e in events && Stops(e)
      modifies this
      ensures forall pre, e, post :: Round(old(events), pre, e, post) ==>
                && got == old(got) + DataOf(pre)
                && done == (old(done) || !e.WouldBlock?)
                && events == post
      ensures got == old(got) + Arriving(old(events))
      ensures done == (old(done) || !Stop(old(events)).0.WouldBlock?)
      ensures events == Stop(old(events)).1
    {
      forall pre, e, post | Round(old(events), pre, e, post)
        ensures Arriving(old(events)) == DataOf(pre) && Stop(old(events)) == (e, post)
      {
        RoundIsTaken(old(events), pre, e, post);
      }
      hide Round, DataOf;
      while true
        invariant exists e :: e in events && Stops(e)
        invariant got + Arriving(events) == old(got) + Arriving(old(events))
        invariant Stop(events) == Stop(old(events)) && done == old(done)
        decreases |events|
      {
        var n := events[0];
        assert forall e :: e in events ==> e == n || e in events[1..];
        events := events[1..];
        match n
        case Data(bytes) =>
          got := got + bytes;
        case EndOfFile =>
          done := true;
          return;
        case Interrupted =>
        case WouldBlock =>
          return;
        case Failed(_) =>
          done := true;
          return;
      }
    }
  }

  /** What `waitpid` answers: still running, a signal, no such child, or a status. */
  datatype WaitEvent = StillRunning | WaitInterrupted | NoChild | Exited(code: int)

  /** The first answer that is not just a signal. */
  function FirstAnswer(answers: seq<WaitEvent>): (a: WaitEvent)
    requires exists a :: a in answers && a != WaitInterrupted
    ensures a in answers && a != WaitInterrupted
  {
    if answers[0] != WaitInterrupted then answers[0]
    else
      assert forall a :: a in answers ==> a == answers[0] || a in answers[1..];
      FirstAnswer(answers[1..])
  }

  lemma {:induction false} FirstAnswerIs(answers: seq<WaitEvent>, i: nat)
    requires i < |answers| && answers[i] != WaitInterrupted
    requires forall k :: 0 <= k < i ==> answers[k] == WaitInterrupted
    ensures (exists a :: a in answers && a != WaitInterrupted) && FirstAnswer(answers) == answers[i]
  {
    assert answers[i] in answers;
    if i == 0 {
    } else {
      FirstAnswerIs(answers[1..], i - 1);
    }
  }

  /** What `poll` answers: `ready` are the pipes that have something to report, watched or not. */
  datatype PollAnswer = TimedOut | PollInterrupted | PollFailed | Reported(ready: set<Pipe>)

  ghost predicate Readable(events: seq<ReadEvent>) {
    exists e :: e in events && Stops(e)
  }

  /** The pipe was read until it had no more to give. */
  twostate predicate Took(p: Pipe)
    requires Readable(old(p.events))
    reads p
  {
    && p.got == old(p.got) + Arriving(old(p.events))
    && p.done == (old(p.done) || !Stop(old(p.events)).0.WouldBlock?)
    && p.events == Stop(old(p.events)).1
  }

  /** A running child, its two pipes, and its exit status once that is known. */
  class Child {
    const out: Pipe
    const err: Pipe
    var status: int
    var known: bool

    constructor (out: Pipe, err: Pipe)
      ensures !known && this.out == out && this.err == err
    {
      this.out, this.err, status, known := out, err, 0, false;
    }

    predicate Drained()
      reads out, err
    {
      out.done && err.done
    }

    /**
     One round of `poll`. A pipe is read exactly when it is not finished and was reported; a finished pipe is not
     watched, so nothing that is reported for it matters. A failed `poll` finishes both.
     */
    method ReadReady(answer: PollAnswer)
      requires out != err && Readable(out.events) && Readable(err.events)
      modifies out, err
      ensures answer.Reported? ==>
                && (if out in answer.ready && !old(out.done) then Took(out) else unchanged(out))
                && (if err in answer.ready && !old(err.done) then Took(err) else unchanged(err))
      ensures answer.PollFailed? ==>
                && Drained()
                && out.got == old(out.got) && err.got == old(err.got)
                && out.events == old(out.events) && err.events == old(err.events)
      ensures !answer.Reported? && !answer.PollFailed? ==> unchanged(out) && unchanged(err)
    {
      var fds: seq<Pipe> := [];
      var watchedOut, watchedErr := false, false;
      if !out.done {
        fds := fds + [out];
        watchedOut := true;
      }
      if !err.done {
        fds := fds + [err];
        watchedErr := true;
      }
      if |fds| == 0 {
        return;
      }
      match answer
      case TimedOut =>
      case PollInterrupted =>
      case PollFailed =>
        out.done := true;
        err.done := true;
      case Reported(ready) =>
        var slot := 0;
        if watchedOut {
          if fds[slot] in ready {
            out.TakeReady();
          }
          slot := slot + 1;
        }
        if watchedErr && fds[slot] in ready {
          err.TakeReady();
        }
    }

    /**
     `answers` is what successive `waitpid` calls would say; only a non-blocking wait can say `StillRunning`.
     Once an exit is known the kernel is not asked again.
     */
    method Collect(answers: seq<WaitEvent>) returns (exited: bool, code: int)
      requires exists a :: a in answers && a != WaitInterrupted
      modifies this
      ensures !old(known) ==>
                forall i :: 0 <= i < |answers| && answers[i] != WaitInterrupted
                            && (forall k :: 0 <= k < i ==> answers[k] == WaitInterrupted) ==>
                  match answers[i]
                  case StillRunning => !exited
                  case Exited(c) => exited && code == c
                  case NoChild => exited && code == -1
      ensures if old(known) then exited && code == old(status)
              else
                match FirstAnswer(answers)
                case StillRunning => !exited
                case Exited(c) => exited && code == c
                case _ => exited && code == -1
      ensures exited == known && (exited ==> status == code)
    {
      if known {
        return true, status;
      }
      forall i | 0 <= i < |answers| && answers[i] != WaitInterrupted
                 && (forall k :: 0 <= k < i ==> answers[k] == WaitInterrupted)
        ensures FirstAnswer(answers) == answers[i]
      {
        FirstAnswerIs(answers, i);
      }
      var rest := answers;
      while true
        invariant exists a :: a in rest && a != WaitInterrupted
        invariant !known && FirstAnswer(rest) == FirstAnswer(answers)
        decreases |rest|
      {
        var r := rest[0];
        assert forall a :: a in rest ==> a == r || a in rest[1..];
        rest := rest[1..];
        match r
        case StillRunning =>
          return false, 0;
        case WaitInterrupted =>
        case NoChild =>
          status, known := -1, true;
          return true, -1;
        case Exited(c) =>
          status, known := c, true;
          return true, c;
      }
    }
  }
}

module Drain {
  import opened ByteStrings

  const CHUNK := 8192

  /** The two streams. */
  datatype Stream = Out | Err

  /** What the child still has to do: write some bytes, or close one of its ends. */
  datatype Op = Write(to: Stream, bytes: Bytes) | CloseEnd(to: Stream)

  /** One pipe: the kernel's buffer, whether the child holds the write end, and the parent's half. */
  datatype PipeState = PipeState(capacity: nat, buffer: Bytes, open: bool, got: Bytes, done: bool)

  datatype Parent =
    | Polling
    | Taking(from: Stream, first: bool, thenErr: bool)  // `first`: no read since `poll` reported it ready
    | Waiting                                            // both pipes finished, in `waitpid`
    | Finished

  /** `written` is the history of each stream. */
  datatype Machine = Machine(
    ops: seq<Op>, alive: bool, out: PipeState, err: PipeState, parent: Parent, writtenOut: Bytes, writtenErr: Bytes)

  function At(m: Machine, s: Stream): PipeState {
    if s == Out then m.out else m.err
  }

  function Written(m: Machine, s: Stream): Bytes {
    if s == Out then m.writtenOut else m.writtenErr
  }

  function Put(m: Machine, s: Stream, p: PipeState): (m': Machine)
    ensures At(m', s) == p
    ensures forall t :: t != s ==> At(m', t) == At(m, t)
  {
    if s == Out then m.(out := p) else m.(err := p)
  }

  ghost predicate Init(m: Machine) {
    && m.alive && m.parent == Polling
    && m.out == PipeState(m.out.capacity, [], true, [], false) && m.out.capacity >= 1
    && m.err == PipeState(m.err.capacity, [], true, [], false) && m.err.capacity >= 1
    && m.writtenOut == [] && m.writtenErr == []
  }

  /** `poll` reports a pipe that has bytes or whose far end is gone. */
  predicate Readable(p: PipeState) {
    p.buffer != [] || !p.open
  }

  datatype Step =
    | ChildWrite(k: nat)
    | ChildNext
    | ChildExit
    | PollReturn(outReady: bool, errReady: bool)
    | PollInterrupted
    | Read(n: nat)
    | ReadEnd
    | ReadWouldBlock
    | ReadInterrupted
    | WaitReturn

  predicate Enabled(m: Machine, s: Step) {
    match s
    // A pipe accepts part of a write when that is all there is room for.
    case ChildWrite(k) =>
      && m.alive && m.ops != [] && m.ops[0].Write?
      && var p := At(m, m.ops[0].to); p.open && 1 <= k <= |m.ops[0].bytes| && |p.buffer| + k <= p.capacity
    case ChildNext =>
      && m.alive && m.ops != []
      && (m.ops[0].Write? ==> m.ops[0].bytes == [] || !At(m, m.ops[0].to).open)
    case ChildExit => m.alive && m.ops == []
    // Only pipes that are not finished are watched, and only readable ones are reported.
    case PollReturn(outReady, errReady) =>
      && m.parent == Polling && (outReady || errReady)
      && (outReady ==> !m.out.done && Readable(m.out))
      && (errReady ==> !m.err.done && Readable(m.err))
    case PollInterrupted => m.parent == Polling
    case Read(n) => m.parent.Taking? && 1 <= n <= CHUNK && n <= |At(m, m.parent.from).buffer|
    case ReadEnd => m.parent.Taking? && At(m, m.parent.from).buffer == [] && !At(m, m.parent.from).open
    case ReadWouldBlock => m.parent.Taking? && At(m, m.parent.from).buffer == [] && At(m, m.parent.from).open
    case ReadInterrupted => m.parent.Taking?
    case WaitReturn => m.parent == Waiting && !m.alive
  }

  /** Where the parent goes when it has taken what was ready on one pipe. */
  function AfterTaking(m: Machine): Parent
    requires m.parent.Taking?
  {
    if m.parent.thenErr then Taking(Err, true, false)
    else if m.out.done && m.err.done then Waiting
    else Polling
  }

  function Apply(m: Machine, s: Step): Machine
    requires Enabled(m, s)
  {
    match s
    case ChildWrite(k) =>
      var to, bytes := m.ops[0].to, m.ops[0].bytes;
      var p := At(m, to);
      var m1 := Put(m, to, p.(buffer := p.buffer + bytes[..k]));
      var m2 := if to == Out then m1.(writtenOut := m.writtenOut + bytes[..k])
                else m1.(writtenErr := m.writtenErr + bytes[..k]);
      m2.(ops := [Write(to, bytes[k..])] + m.ops[1..])
    case ChildNext =>
      var m1 := if m.ops[0].Write? then m else Put(m, m.ops[0].to, At(m, m.ops[0].to).(open := false));
      m1.(ops := m.ops[1..])
    case ChildExit => m.(alive := false, out := m.out.(open := false), err := m.err.(open := false))
    case PollReturn(outReady, errReady) =>
      m.(parent := if outReady then Taking(Out, true, errReady) else Taking(Err, true, false))
    case PollInterrupted => m
    case Read(n) =>
      var p := At(m, m.parent.from);
      Put(m, m.parent.from, p.(buffer := p.buffer[n..], got := p.got + p.buffer[..n]))
        .(parent := m.parent.(first := false))
    case ReadEnd =>
      var m1 := Put(m, m.parent.from, At(m, m.parent.from).(done := true));
      m1.(parent := AfterTaking(m1))
    case ReadWouldBlock => m.(parent := AfterTaking(m))
    case ReadInterrupted => m
    case WaitReturn => m.(parent := Finished)
  }

  ghost predicate StepAt(run: seq<Machine>, k: nat)
    requires k + 1 < |run|
  {
    exists s :: Enabled(run[k], s) && run[k + 1] == Apply(run[k], s)
  }

  ghost predicate IsRun(run: seq<Machine>) {
    && |run| > 0 && Init(run[0])
    && forall k :: 0 <= k < |run| - 1 ==> StepAt(run, k)
  }

  /** What the rest of the program will still write to a stream, given whether its end is open. */
  function Pending(ops: seq<Op>, s: Stream, open: bool): Bytes {
    if ops == [] || !open then []
    else if ops[0].to != s then Pending(ops[1..], s, open)
    else if ops[0].Write? then ops[0].bytes + Pending(ops[1..], s, open)
    else []
  }

  // ---- What every step keeps ----

  /** Nothing is lost or reordered, the buffer fits, and a finished pipe has nothing more to say. */
  ghost predicate PipeInv(m: Machine, s: Stream) {
    var p := At(m, s);
    && p.capacity >= 1 && |p.buffer| <= p.capacity
    && p.got + p.buffer == Written(m, s)
    && (p.done ==> !p.open && p.buffer == [])
    && (!m.alive ==> !p.open)
  }

  ghost predicate ParentInv(m: Machine) {
    match m.parent
    case Polling => !(m.out.done && m.err.done)
    case Taking(from, first, thenErr) =>
      && !At(m, from).done
      && (first ==> Readable(At(m, from)))
      && (thenErr ==> from == Out && !m.err.done && Readable(m.err))
    case Waiting => m.out.done && m.err.done
    case Finished => m.out.done && m.err.done && !m.alive
  }

  ghost predicate Inv(m: Machine) {
    PipeInv(m, Out) && PipeInv(m, Err) && ParentInv(m)
  }

  predicate ByChild(st: Step) {
    st.ChildWrite? || st.ChildNext? || st.ChildExit?
  }

  lemma ChildStepKeepsPipe(m: Machine, st: Step, s: Stream)
    requires Inv(m) && Enabled(m, st) && ByChild(st)
    ensures PipeInv(Apply(m, st), s)
  {
  }

  lemma ParentStepKeepsPipe(m: Machine, st: Step, s: Stream)
    requires Inv(m) && Enabled(m, st) && !ByChild(st)
    ensures PipeInv(Apply(m, st), s)
  {
  }

  lemma StepKeepsParent(m: Machine, st: Step)
    requires Inv(m) && Enabled(m, st)
    ensures ParentInv(Apply(m, st))
  {
  }

  lemma StepKeepsInv(m: Machine, st: Step)
    requires Inv(m) && Enabled(m, st)
    ensures Inv(Apply(m, st))
  {
    StepKeepsParent(m, st);
    if ByChild(st) {
      ChildStepKeepsPipe(m, st, Out);
      ChildStepKeepsPipe(m, st, Err);
    } else {
      ParentStepKeepsPipe(m, st, Out);
      ParentStepKeepsPipe(m, st, Err);
    }
    hide Apply, Enabled;
  }

  lemma InitInv(m: Machine)
    requires Init(m)
    ensures Inv(m)
  {
  }

  lemma {:induction false} RunKeepsInv(run: seq<Machine>, k: nat)
    requires IsRun(run) && k < |run|
    ensures Inv(run[k])
  {
    hide Apply, Enabled, Inv, Init;
    if k == 0 {
      InitInv(run[0]);
    } else {
      RunKeepsInv(run, k - 1);
      assert StepAt(run, k - 1);
      var st :| Enabled(run[k - 1], st) && run[k] == Apply(run[k - 1], st);
      StepKeepsInv(run[k - 1], st);
    }
  }

  /** The stream so far and the stream to come always add up to the same stream. */
  function Whole(m: Machine, s: Stream): Bytes {
    Written(m, s) + Pending(m.ops, s, At(m, s).open)
  }

  /** A write that was accepted in part leaves the rest of itself to be written. */
  lemma PendingAfterWrite(ops: seq<Op>, k: nat, s: Stream, open: bool)
    requires ops != [] && ops[0].Write? && k <= |ops[0].bytes|
    ensures var w := ops[0];
      Pending(ops, s, open) ==
        (if w.to == s && open then w.bytes[..k] else []) + Pending([Write(w.to, w.bytes[k..])] + ops[1..], s, open)
  {
    var w := ops[0];
    var now := [Write(w.to, w.bytes[k..])] + ops[1..];
    assert now[1..] == ops[1..];
    assert w.bytes == w.bytes[..k] + w.bytes[k..];
  }

  lemma WriteKeepsWhole(m: Machine, st: Step, s: Stream)
    requires Inv(m) && Enabled(m, st) && st.ChildWrite?
    ensures Whole(Apply(m, st), s) == Whole(m, s)
  {
    hide Pending;
    PendingAfterWrite(m.ops, st.k, s, At(m, s).open);
  }

  lemma StepKeepsWhole(m: Machine, st: Step, s: Stream)
    requires Inv(m) && Enabled(m, st)
    ensures Whole(Apply(m, st), s) == Whole(m, s)
  {
    if st.ChildWrite? {
      WriteKeepsWhole(m, st, s);
      hide Apply, Enabled;
    } else if st.ChildNext? {
      hide Inv;
    } else {
      hide Pending;
      assert Apply(m, st).ops == m.ops;
    }
  }

  // ---- No deadlock ----

  /** `poll` would block: nothing that is watched is readable. */
  predicate ParentBlocked(m: Machine) {
    && m.parent == Polling
    && (!m.out.done ==> !Readable(m.out))
    && (!m.err.done ==> !Readable(m.err))
  }

  /** The child is stuck in a write to a pipe without room. */
  predicate ChildBlocked(m: Machine) {
    && m.alive && m.ops != [] && m.ops[0].Write? && m.ops[0].bytes != []
    && var p := At(m, m.ops[0].to); p.open && |p.buffer| == p.capacity
  }

  /**
   While the parent is blocked in `poll`, a child in a write finds the whole pipe free, so it is not blocked
   however much room its write insists on.
   */
  lemma NeverBothBlocked(m: Machine)
    requires Inv(m) && ParentBlocked(m)
    ensures !ChildBlocked(m)
    ensures m.alive && m.ops != [] && m.ops[0].Write? && At(m, m.ops[0].to).open ==> At(m, m.ops[0].to).buffer == []
  {
    var s := if m.ops != [] then m.ops[0].to else Out;
    assert PipeInv(m, s);
  }

  predicate Internal(s: Step) {
    !s.PollInterrupted? && !s.ReadInterrupted?
  }

  /** A live child that is not blocked has a step. */
  lemma ChildStep(m: Machine) returns (s: Step)
    requires Inv(m) && m.alive && !ChildBlocked(m)
    ensures Internal(s) && Enabled(m, s)
  {
    if m.ops == [] {
      s := ChildExit;
    } else if m.ops[0].Write? && m.ops[0].bytes != [] && At(m, m.ops[0].to).open {
      assert PipeInv(m, m.ops[0].to);
      s := ChildWrite(1);
    } else {
      s := ChildNext;
    }
  }

  lemma Progress(m: Machine) returns (s: Step)
    requires Inv(m) && m.parent != Finished
    ensures Internal(s) && Enabled(m, s)
  {
    match m.parent {
      case Taking(from, _, _) =>
        var p := At(m, from);
        s := if p.buffer != [] then Read(1) else if p.open then ReadWouldBlock else ReadEnd;
      case Polling =>
        if ParentBlocked(m) {
          NeverBothBlocked(m);
          s := ChildStep(m);
        } else {
          s := PollReturn(!m.out.done && Readable(m.out), !m.err.done && Readable(m.err));
        }
      case Waiting =>
        if m.alive {
          s := ChildStep(m);
        } else {
          s := WaitReturn;
        }
    }
  }

  function ChildWork(ops: seq<Op>): nat {
    if ops == [] then 0
    else 1 + (if ops[0].Write? then |ops[0].bytes| else 0) + ChildWork(ops[1..])
  }

  function ParentWork(p: Parent): nat {
    match p
    case Polling => 5
    case Taking(_, first, _) => if first then 4 else 7
    case Waiting => 1
    case Finished => 0
  }

  function Work(m: Machine): nat {
    20 * (ChildWork(m.ops) + if m.alive then 1 else 0)
    + 10 * (|m.out.buffer| + |m.err.buffer|)
    + (if m.out.done then 0 else 10) + (if m.err.done then 0 else 10)
    + ParentWork(m.parent)
  }

  lemma InternalStepsRunOut(m: Machine, s: Step)
    requires Inv(m) && Enabled(m, s) && Internal(s)
    ensures Work(Apply(m, s)) < Work(m)
  {
    var m' := Apply(m, s);
    if s.ChildWrite? {
      assert m'.ops[0] == Write(m.ops[0].to, m.ops[0].bytes[s.k..]) && m'.ops[1..] == m.ops[1..];
    }
  }

  ghost predicate InternalRun(m: Machine, steps: seq<Step>, end: Machine)
    decreases |steps|
  {
    if steps == [] then m == end
    else Enabled(m, steps[0]) && Internal(steps[0]) && InternalRun(Apply(m, steps[0]), steps[1..], end)
  }

  /** However parent and child are interleaved, and whatever sizes the reads and writes have, the run ends. */
  lemma {:induction false} InternalRunsEnd(m: Machine, steps: seq<Step>, end: Machine)
    requires Inv(m) && InternalRun(m, steps, end)
    ensures Inv(end) && |steps| + Work(end) <= Work(m)
    ensures Whole(end, Out) == Whole(m, Out) && Whole(end, Err) == Whole(m, Err)
    decreases |steps|
  {
    if steps == [] {
    } else {
      var next := Apply(m, steps[0]);
      InternalStepsRunOut(m, steps[0]);
      StepKeepsInv(m, steps[0]);
      StepKeepsWhole(m, steps[0], Out);
      StepKeepsWhole(m, steps[0], Err);
      InternalRunsEnd(next, steps[1..], end);
    }
  }

  lemma WholeAtStart(m: Machine, s: Stream)
    requires Init(m)
    ensures Whole(m, s) == Pending(m.ops, s, true)
  {
    hide Pending;
    assert Whole(m, s) == [] + Pending(m.ops, s, true);
  }

  lemma WholeAtEnd(m: Machine, s: Stream)
    requires Inv(m) && m.parent == Finished
    ensures Whole(m, s) == At(m, s).got
  {
    assert At(m, s).got + [] == At(m, s).got;
  }

  lemma GotIsPrefix(m: Machine, s: Stream)
    requires Inv(m)
    ensures At(m, s).got <= Whole(m, s)
  {
  }

  /** No step of a run changes what a stream adds up to, so what was collected is always a prefix of it. */
  lemma {:induction false} RunKeepsWhole(run: seq<Machine>, k: nat, s: Stream)
    requires IsRun(run) && k < |run|
    ensures Whole(run[k], s) == Pending(run[0].ops, s, true)
    ensures At(run[k], s).got <= Pending(run[0].ops, s, true)
  {
    hide Apply, Enabled, Inv, Init, Pending, Whole;
    if k == 0 {
      WholeAtStart(run[0], s);
    } else {
      RunKeepsWhole(run, k - 1, s);
      RunKeepsInv(run, k - 1);
      assert StepAt(run, k - 1);
      var st :| Enabled(run[k - 1], st) && run[k] == Apply(run[k - 1], st);
      StepKeepsWhole(run[k - 1], st, s);
    }
    RunKeepsInv(run, k);
    GotIsPrefix(run[k], s);
  }

  /**
   In every run, signals included: where neither parent nor child can go on, `output` is over and has both streams
   whole.
   */
  lemma OutputIsComplete(run: seq<Machine>)
    requires IsRun(run)
    requires forall s :: Internal(s) ==> !Enabled(run[|run| - 1], s)
    ensures var end := run[|run| - 1];
      && end.parent == Finished
      && end.out.got == Pending(run[0].ops, Out, true) && end.err.got == Pending(run[0].ops, Err, true)
  {
    hide Pending, Whole, Inv, Init, Enabled, StepAt;
    var last := |run| - 1;
    RunKeepsInv(run, last);
    if run[last].parent != Finished {
      var s := Progress(run[last]);
      assert false;
    }
    RunKeepsWhole(run, last, Out);
    RunKeepsWhole(run, last, Err);
    WholeAtEnd(run[last], Out);
    WholeAtEnd(run[last], Err);
  }
}
