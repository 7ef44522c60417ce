/**
 `daemonize` of `src/daemonize.rs`, for any number of starts that share one pid file, which nobody unlinks.

 One start is four kinds of process: the launcher, which ends up reading the readiness pipe; its child, which leads
 the session; that child's child, the daemon; and whatever the daemon forks later. All of them inherit the write end
 of the pipe, and the last kind the locked pid file too. Any process may die at any step. Descriptors stand at the
 numbers of `DaemonDescriptors`, and redirecting the standard streams closes what stands at 0, 1 and 2.
 */
module Daemon {
  import opened DaemonDescriptors
  import opened Descriptors

  datatype Launcher =
    | Fresh
    | Piped                      // both ends of the pipe open, about to fork
    | Forked                     // about to close its write end
    | Reading                    // in `read`
    | Exited(code: nat)
    | Refused                    // `daemonize` returned an error to it; it lives on with both ends
    | Gone                       // killed, or exited after a refusal

  datatype Child =
    | NoChild
    | BeforeSession
    | BeforeFork
    | Leaving                    // has forked the daemon, about to exit
    | ChildRefused               // `daemonize` returned an error to it
    | ChildGone

  datatype Server =
    | NoServer
    | BeforeChdir
    | BeforeOpen
    | BeforeLock
    | BeforeTruncate
    | BeforeWrite
    | BeforeRedirect
    | Preparing                  // `daemonize` returned `Daemon(ready)`; nothing signalled yet
    | Signalling                 // the byte is written, the write end not yet closed
    | Serving
    | Unready                    // dropped its `Ready`
    | ServerRefused              // `daemonize` returned an error to it; there is no `Ready` to drop
    | ServerGone

  /** A process forked by the daemon once `daemonize` has returned. */
  datatype Helper = Helper(alive: bool, writeEnd: bool, locked: bool)

  /** How `daemonize` is called: with a pid file or not, and with which descriptors open. */
  datatype Call = Call(
    usesPidFile: bool,
    used: set<Fd>,
    crossed: bool)     // the pipe's write end got the lower number

  /** What the daemon has done for good. */
  datatype Deeds = Deeds(
    replaced: nat,     // how many standard streams it has redirected
    locked: bool,      // its open pid file was granted the lock
    named: bool,       // its pid was written
    said: bool,        // it called `signal` and lived
    signalled: bool)   // and its byte went into the pipe, not to what had replaced it

  datatype Start = Start(
    launcher: Launcher, child: Child, server: Server, helpers: seq<Helper>, how: Call, did: Deeds)

  const NOTHING_DONE := Deeds(0, false, false, false, false)

  /** Whoever wrote to the pid file last; what it held before the first start is nobody's. */
  datatype Content = Stale | Empty | PidOf(start: nat)

  datatype Machine = Machine(file: Content, starts: seq<Start>)

  // ---- What the kernel answers ----

  predicate ServerAlive(s: Start) {
    s.server != NoServer && s.server != ServerGone
  }

  /** The number of the pipe's write end still stands for the pipe. */
  predicate WriteFdKept(s: Start) {
    s.did.replaced <= WriteFd(s.how.used, s.how.crossed)
  }

  predicate PidFdKept(s: Start) {
    s.did.replaced <= PidFd(s.how.used, s.how.crossed)
  }

  predicate ServerHasWriteEnd(s: Start) {
    ServerAlive(s) && s.server != Serving && s.server != Unready && WriteFdKept(s)
  }

  predicate HelperHasWriteEnd(s: Start) {
    exists k :: 0 <= k < |s.helpers| && s.helpers[k].alive && s.helpers[k].writeEnd
  }

  predicate LauncherHasWriteEnd(s: Start) {
    s.launcher == Piped || s.launcher == Forked || s.launcher == Refused
  }

  predicate ChildHasWriteEnd(s: Start) {
    s.child == BeforeSession || s.child == BeforeFork || s.child == Leaving || s.child == ChildRefused
  }

  predicate WriteEndOpen(s: Start) {
    LauncherHasWriteEnd(s) || ChildHasWriteEnd(s) || ServerHasWriteEnd(s) || HelperHasWriteEnd(s)
  }

  /** `read` blocks while the pipe is empty and somebody could still write to it. */
  predicate ReadBlocked(s: Start) {
    s.launcher == Reading && !s.did.signalled && WriteEndOpen(s)
  }

  predicate HelperHasLock(s: Start) {
    exists k :: 0 <= k < |s.helpers| && s.helpers[k].alive && s.helpers[k].locked
  }

  /** A `flock` lasts until every process that shares the locked open file has closed it. */
  predicate HoldsLock(s: Start) {
    s.did.locked && ((ServerAlive(s) && PidFdKept(s)) || HelperHasLock(s))
  }

  predicate LockHeld(m: Machine) {
    exists i :: 0 <= i < |m.starts| && HoldsLock(m.starts[i])
  }

  // ---- Steps of one start ----

  /** `ok` is whether the call succeeded; `done` is how many of the three streams were redirected. */
  datatype Action =
    | OpenPipe(ok: bool)
    | ForkChild(ok: bool)
    | CloseWriteEnd
    | ReadReady
    | NewSession(ok: bool)
    | ForkServer(ok: bool)
    | LeaveServer
    | Chdir(ok: bool)
    | OpenPidFile(ok: bool)
    | Lock
    | Truncate(ok: bool)
    | WritePid(ok: bool)
    | Redirect(done: nat)
    | Signal(deadly: bool)
    | CloseReady
    | DropReady
    | ForkHelper
    | EndHelper(k: nat)
    | EndLauncher
    | EndChild
    | EndServer

  predicate Can(s: Start, a: Action) {
    match a
    case OpenPipe(_) => s.launcher == Fresh
    case ForkChild(_) => s.launcher == Piped
    case CloseWriteEnd => s.launcher == Forked
    case ReadReady => s.launcher == Reading && !ReadBlocked(s)
    case NewSession(_) => s.child == BeforeSession
    case ForkServer(_) => s.child == BeforeFork
    case LeaveServer => s.child == Leaving
    case Chdir(_) => s.server == BeforeChdir
    case OpenPidFile(_) => s.server == BeforeOpen
    case Lock => s.server == BeforeLock
    case Truncate(_) => s.server == BeforeTruncate
    case WritePid(_) => s.server == BeforeWrite
    case Redirect(done) => s.server == BeforeRedirect && done <= 3
    // With its reader gone the write may fail, which is ignored, or the process may die of the signal it raises.
    case Signal(deadly) => s.server == Preparing && (deadly ==> s.launcher == Gone && WriteFdKept(s))
    case CloseReady => s.server == Signalling
    case DropReady => s.server == Preparing
    case ForkHelper =>
      s.server == Preparing || s.server == Serving || s.server == Unready || s.server == ServerRefused
    case EndHelper(k) => k < |s.helpers| && s.helpers[k].alive
    case EndLauncher => !s.launcher.Exited? && s.launcher != Gone
    case EndChild => ChildHasWriteEnd(s)
    case EndServer => ServerAlive(s)
  }

  /** What one start becomes, given whether anybody holds the lock. */
  function After(s: Start, a: Action, held: bool): Start
    requires Can(s, a)
  {
    match a
    case OpenPipe(ok) => s.(launcher := if ok then Piped else Refused)
    case ForkChild(ok) =>
      if ok then s.(launcher := Forked, child := BeforeSession) else s.(launcher := Refused)
    case CloseWriteEnd => s.(launcher := Reading)
    case ReadReady => s.(launcher := Exited(if s.did.signalled then 0 else 1))
    case NewSession(ok) => s.(child := if ok then BeforeFork else ChildRefused)
    case ForkServer(ok) =>
      if ok then s.(child := Leaving, server := BeforeChdir) else s.(child := ChildRefused)
    case LeaveServer => s.(child := ChildGone)
    case Chdir(ok) =>
      s.(server := if !ok then ServerRefused else if s.how.usesPidFile then BeforeOpen else BeforeRedirect)
    case OpenPidFile(ok) => s.(server := if ok then BeforeLock else ServerRefused)
    case Lock =>
      if held then s.(server := ServerRefused)
      else s.(server := BeforeTruncate, did := s.did.(locked := true))
    case Truncate(ok) => s.(server := if ok then BeforeWrite else ServerRefused)
    case WritePid(ok) =>
      if ok then s.(server := BeforeRedirect, did := s.did.(named := true)) else s.(server := ServerRefused)
    case Redirect(done) => s.(did := s.did.(replaced := done), server := if done == 3 then Preparing else ServerRefused)
    case Signal(deadly) =>
      if deadly then s.(server := ServerGone)
      else s.(server := Signalling, did := s.did.(said := true, signalled := WriteFdKept(s)))
    case CloseReady => s.(server := Serving)
    case DropReady => s.(server := Unready)
    case ForkHelper =>
      s.(helpers := s.helpers + [Helper(true, ServerHasWriteEnd(s), s.did.locked && PidFdKept(s))])
    case EndHelper(k) => s.(helpers := s.helpers[k := s.helpers[k].(alive := false)])
    case EndLauncher => s.(launcher := Gone)
    case EndChild => s.(child := ChildGone)
    case EndServer => s.(server := ServerGone)
  }

  datatype Step = Step(i: nat, action: Action)

  predicate Enabled(m: Machine, s: Step) {
    s.i < |m.starts| && Can(m.starts[s.i], s.action)
  }

  function FileAfter(file: Content, s: Step): Content {
    match s.action
    case Truncate(ok) => if ok then Empty else file
    case WritePid(ok) => if ok then PidOf(s.i) else file
    case _ => file
  }

  function Apply(m: Machine, s: Step): Machine
    requires Enabled(m, s)
  {
    Machine(FileAfter(m.file, s), m.starts[s.i := After(m.starts[s.i], s.action, LockHeld(m))])
  }

  predicate FreshStart(s: Start) {
    s == Start(Fresh, NoChild, NoServer, [], s.how, NOTHING_DONE)
  }

  ghost predicate Init(m: Machine) {
    forall i :: 0 <= i < |m.starts| ==> FreshStart(m.starts[i])
  }

  ghost predicate StepAt(run: seq<Machine>, k: nat)
    requires k + 1 < |run|
  {
    exists s :: Enabled(run[k], s) && run[k + 1] == Apply(run[k], s)
  }

  ghost predicate IsRun(run: seq<Machine>) {
    && |run| > 0 && Init(run[0])
    && forall k :: 0 <= k < |run| - 1 ==> StepAt(run, k)
  }

  // ---- What every step keeps: one start ----

  predicate Unnamed(s: Start) {
    !s.did.locked && !s.did.named
  }

  predicate Untouched(s: Start) {
    s.did.replaced == 0 && s.helpers == []
  }

  /** How far the daemon is says what became of its descriptors, its pid file and its byte. */
  predicate ServerStage(s: Start) {
    && (s.did.named ==> s.did.locked)
    && s.did.replaced <= 3
    && (s.did.said ==> s.did.replaced == 3 && (s.server == Signalling || s.server == Serving || s.server == ServerGone))
    && (s.did.signalled <==> s.did.said && WriteFdKept(s))
    && match s.server
       case NoServer => Unnamed(s) && Untouched(s)
       case BeforeChdir => Unnamed(s) && Untouched(s)
       case BeforeOpen => Unnamed(s) && Untouched(s) && s.how.usesPidFile
       case BeforeLock => Unnamed(s) && Untouched(s) && s.how.usesPidFile
       case BeforeTruncate => s.did.locked && !s.did.named && Untouched(s) && s.how.usesPidFile
       case BeforeWrite => s.did.locked && !s.did.named && Untouched(s) && s.how.usesPidFile
       case BeforeRedirect => s.did.locked == s.did.named == s.how.usesPidFile && Untouched(s)
       case ServerRefused => true
       case ServerGone => true
       case _ =>
         && s.did.locked == s.did.named == s.how.usesPidFile && s.did.replaced == 3
         && ((s.server == Signalling || s.server == Serving) ==> s.did.said)
  }

  /** A helper inherited only what the daemon still had. */
  predicate HelperInv(s: Start) {
    forall k :: 0 <= k < |s.helpers| ==>
      (s.helpers[k].writeEnd ==> WriteFdKept(s)) && (s.helpers[k].locked ==> PidFdKept(s))
  }

  /** A process exists only after its parent forked it. */
  predicate Lineage(s: Start) {
    && (s.server != NoServer ==> s.child == Leaving || s.child == ChildGone)
    && (s.child == Leaving ==> s.server != NoServer)
    && (s.child != NoChild ==> s.launcher != Fresh && s.launcher != Piped && s.launcher != Refused)
    && (s.child == NoChild ==> s.launcher != Forked && s.launcher != Reading && !s.launcher.Exited?)
  }

  /** The launcher's exit code tells what the daemon did, and what it will never do. */
  predicate LauncherInv(s: Start) {
    match s.launcher
    case Exited(code) => if s.did.signalled then code == 0 else code == 1 && !WriteEndOpen(s)
    case _ => true
  }

  predicate StartInv(s: Start) {
    ServerStage(s) && Lineage(s) && HelperInv(s) && LauncherInv(s)
  }

  lemma StepKeepsStage(s: Start, a: Action, held: bool)
    requires ServerStage(s) && Lineage(s) && Can(s, a)
    ensures ServerStage(After(s, a, held))
  {
    hide WriteFd, PidFd;
  }

  lemma StepKeepsHelpers(s: Start, a: Action, held: bool)
    requires ServerStage(s) && HelperInv(s) && Can(s, a)
    ensures HelperInv(After(s, a, held))
  {
    hide WriteFd, PidFd;
  }

  predicate ByLauncher(a: Action) {
    a.OpenPipe? || a.ForkChild? || a.CloseWriteEnd? || a.ReadReady? || a.EndLauncher?
  }

  predicate ByChild(a: Action) {
    a.NewSession? || a.ForkServer? || a.LeaveServer? || a.EndChild?
  }

  lemma LauncherStepKeepsLineage(s: Start, a: Action, held: bool)
    requires Lineage(s) && Can(s, a) && ByLauncher(a)
    ensures Lineage(After(s, a, held))
  {
    hide WriteEndOpen, WriteFdKept, PidFdKept;
  }

  lemma ChildStepKeepsLineage(s: Start, a: Action, held: bool)
    requires Lineage(s) && Can(s, a) && ByChild(a)
    ensures Lineage(After(s, a, held))
  {
    hide ReadBlocked, WriteFdKept, PidFdKept;
  }

  lemma SameLineage(s: Start, s': Start)
    requires Lineage(s) && s'.launcher == s.launcher && s'.child == s.child
    requires s'.server == NoServer <==> s.server == NoServer
    ensures Lineage(s')
  {
  }

  lemma ServerStepKeepsLineage(s: Start, a: Action, held: bool)
    requires Lineage(s) && Can(s, a) && !ByLauncher(a) && !ByChild(a)
    ensures Lineage(After(s, a, held))
  {
    hide Lineage, ReadBlocked, ChildHasWriteEnd, ServerHasWriteEnd, WriteFdKept, PidFdKept;
    var s' := After(s, a, held);
    SameLineage(s, s');
  }

  lemma StepKeepsLineage(s: Start, a: Action, held: bool)
    requires Lineage(s) && Can(s, a)
    ensures Lineage(After(s, a, held))
  {
    if ByLauncher(a) {
      LauncherStepKeepsLineage(s, a, held);
    } else if ByChild(a) {
      ChildStepKeepsLineage(s, a, held);
    } else {
      ServerStepKeepsLineage(s, a, held);
    }
    hide Can, After, Lineage;
  }

  /** A pipe that nobody could write to any more stays that way once the launcher has exited. */
  lemma StepKeepsWriteEndClosed(s: Start, a: Action, held: bool)
    requires ServerStage(s) && Lineage(s) && Can(s, a) && s.launcher.Exited? && !WriteEndOpen(s)
    ensures !WriteEndOpen(After(s, a, held)) && (After(s, a, held).did.signalled ==> s.did.signalled)
  {
    hide WriteFd, PidFd;
  }

  lemma StepKeepsLauncher(s: Start, a: Action, held: bool)
    requires StartInv(s) && Can(s, a)
    ensures LauncherInv(After(s, a, held))
  {
    if s.launcher.Exited? && !s.did.signalled {
      StepKeepsWriteEndClosed(s, a, held);
    }
    hide WriteEndOpen;
  }

  lemma StepKeepsStart(s: Start, a: Action, held: bool)
    requires StartInv(s) && Can(s, a)
    ensures StartInv(After(s, a, held))
  {
    StepKeepsStage(s, a, held);
    StepKeepsLineage(s, a, held);
    StepKeepsHelpers(s, a, held);
    StepKeepsLauncher(s, a, held);
    hide After, Can, ServerStage, Lineage, HelperInv, LauncherInv;
  }

  /** A call that fails ends the start-up in the process that made it, and only the last redirection completes one. */
  lemma FailureEndsTheStart(s: Start, a: Action, held: bool)
    requires Can(s, a)
    ensures a == OpenPipe(false) || a == ForkChild(false) ==> After(s, a, held) == s.(launcher := Refused)
    ensures a == NewSession(false) || a == ForkServer(false) ==> After(s, a, held) == s.(child := ChildRefused)
    ensures a == Chdir(false) || a == OpenPidFile(false) ==> After(s, a, held) == s.(server := ServerRefused)
    ensures a == Truncate(false) || a == WritePid(false) ==> After(s, a, held) == s.(server := ServerRefused)
    ensures a == Lock && held ==> After(s, a, held) == s.(server := ServerRefused)
    ensures a.Redirect? && a.done < 3 ==> After(s, a, held).server == ServerRefused
    ensures After(s, a, held).server == Preparing && s.server != Preparing ==> a == Redirect(3)
  {
    hide ReadBlocked, ServerHasWriteEnd, WriteFd, PidFd;
  }

  /** Signalling and dropping `Ready` both close the daemon's write end for good. */
  lemma ReadyIsClosed(s: Start, a: Action, held: bool)
    requires Can(s, a) && (a == CloseReady || a == DropReady)
    ensures !ServerHasWriteEnd(After(s, a, held)) && ServerAlive(After(s, a, held))
  {
    hide WriteFdKept, PidFdKept;
  }

  // ---- What every step keeps: the lock and the file ----

  ghost predicate StartsInv(m: Machine) {
    forall i :: 0 <= i < |m.starts| ==> StartInv(m.starts[i])
  }

  /** The processes of one start at most hold the lock. */
  ghost predicate LockInv(m: Machine) {
    forall i, j :: 0 <= i < |m.starts| && 0 <= j < |m.starts| && HoldsLock(m.starts[i]) && HoldsLock(m.starts[j]) ==>
      i == j
  }

  /** What the file holds while start `i` holds the lock. */
  predicate FileFits(m: Machine, i: nat)
    requires i < |m.starts|
  {
    var s := m.starts[i];
    HoldsLock(s) ==> (s.did.named ==> m.file == PidOf(i)) && (s.server == BeforeWrite ==> m.file == Empty)
  }

  ghost predicate FileInv(m: Machine) {
    forall i :: 0 <= i < |m.starts| ==> FileFits(m, i)
  }

  ghost predicate Inv(m: Machine) {
    StartsInv(m) && LockInv(m) && FileInv(m)
  }

  /** Only `flock` gives a start the lock, and only when nobody holds it. */
  lemma LockIsGranted(s: Start, a: Action, held: bool)
    requires StartInv(s) && Can(s, a) && HoldsLock(After(s, a, held)) && !HoldsLock(s)
    ensures a == Lock && !held
  {
  }

  /** Only a start that holds the lock touches the file. */
  lemma WriterHoldsLock(s: Start, a: Action)
    requires StartInv(s) && Can(s, a) && (a.Truncate? || a.WritePid?)
    ensures HoldsLock(s)
  {
  }

  lemma StepKeepsStarts(m: Machine, s: Step)
    requires StartsInv(m) && Enabled(m, s)
    ensures StartsInv(Apply(m, s))
  {
    StepKeepsStart(m.starts[s.i], s.action, LockHeld(m));
    hide After, Can, StartInv;
  }

  lemma StepKeepsLock(m: Machine, s: Step)
    requires StartsInv(m) && LockInv(m) && Enabled(m, s)
    ensures LockInv(Apply(m, s))
  {
    hide After, Can, StartInv, HoldsLock;
    var m' := Apply(m, s);
    if HoldsLock(m'.starts[s.i]) && !HoldsLock(m.starts[s.i]) {
      LockIsGranted(m.starts[s.i], s.action, LockHeld(m));
    }
  }

  /** The stages of one start that matter to the file. */
  lemma StageOfFile(s: Start, a: Action, held: bool)
    requires StartInv(s) && Can(s, a) && HoldsLock(After(s, a, held))
    ensures var s' := After(s, a, held);
      if a == WritePid(true) then s'.did.named && s'.server != BeforeWrite
      else if a == Truncate(true) then !s'.did.named
      else if a == Lock then !s'.did.named && s'.server != BeforeWrite
      else HoldsLock(s) && s'.did.named == s.did.named && (s'.server == BeforeWrite ==> s.server == BeforeWrite)
  {
  }

  lemma StepKeepsFile(m: Machine, s: Step)
    requires Inv(m) && Enabled(m, s)
    ensures FileInv(Apply(m, s))
  {
    hide After, Can, StartInv, HoldsLock;
    var m' := Apply(m, s);
    forall j | 0 <= j < |m'.starts| ensures FileFits(m', j) {
      if j == s.i {
        if HoldsLock(m'.starts[j]) {
          StageOfFile(m.starts[j], s.action, LockHeld(m));
          assert FileFits(m, j);
        }
      } else if HoldsLock(m.starts[j]) {
        assert FileFits(m, j);
        if s.action.Truncate? || s.action.WritePid? {
          WriterHoldsLock(m.starts[s.i], s.action);
          assert false;
        }
      }
    }
  }

  lemma StepKeepsInv(m: Machine, s: Step)
    requires Inv(m) && Enabled(m, s)
    ensures Inv(Apply(m, s))
  {
    StepKeepsStarts(m, s);
    StepKeepsLock(m, s);
    StepKeepsFile(m, s);
    hide Apply, Enabled, StartsInv, LockInv, FileInv;
  }

  lemma InitInv(m: Machine)
    requires Init(m)
    ensures Inv(m)
  {
  }

  lemma {:induction false} RunKeepsInv(run: seq<Machine>, k: nat)
    requires IsRun(run) && k < |run|
    ensures Inv(run[k])
  {
    hide Apply, Enabled, Inv, Init;
    if k == 0 {
      InitInv(run[0]);
    } else {
      RunKeepsInv(run, k - 1);
      assert StepAt(run, k - 1);
      var s :| Enabled(run[k - 1], s) && run[k] == Apply(run[k - 1], s);
      StepKeepsInv(run[k - 1], s);
    }
  }

  // ---- The readiness pipe ----

  lemma ExitStays(s: Start, a: Action, held: bool)
    requires Can(s, a) && s.launcher.Exited?
    ensures After(s, a, held).launcher == s.launcher
  {
    hide ReadBlocked, ServerHasWriteEnd, WriteFdKept, PidFdKept;
  }

  lemma StepKeepsExit(m: Machine, s: Step, i: nat)
    requires Enabled(m, s) && i < |m.starts| && m.starts[i].launcher.Exited?
    ensures i < |Apply(m, s).starts| && Apply(m, s).starts[i].launcher == m.starts[i].launcher
  {
    hide Can, After, LockHeld;
    if i == s.i {
      ExitStays(m.starts[i], s.action, LockHeld(m));
    }
  }

  lemma StepOfRun(run: seq<Machine>, k: nat)
    requires IsRun(run) && k + 1 < |run|
    ensures StepAt(run, k)
  {
    hide StepAt;
  }

  /** What the process that called `daemonize` must have had open for the ready byte to arrive. */
  predicate WriteEndSafe(s: Start) {
    Holes(s.how.used) <= if s.how.crossed then 0 else 1
  }

  /** And for the pid file to stay locked. */
  predicate LockSafe(s: Start) {
    Holes(s.how.used) <= if s.how.crossed then 1 else 0
  }

  lemma SafeMeansKept(s: Start)
    requires s.did.replaced == 3
    ensures WriteFdKept(s) <==> WriteEndSafe(s)
    ensures PidFdKept(s) <==> LockSafe(s)
  {
    hide WriteFd, PidFd, Holes;
    KeptExactly(s.how.used, s.how.crossed);
  }

  lemma ExitedTells(m: Machine, i: nat)
    requires Inv(m) && i < |m.starts| && m.starts[i].launcher.Exited?
    ensures var s, code := m.starts[i], m.starts[i].launcher.code;
      (code == 0 || code == 1) && (code == 0 <==> s.did.said && WriteEndSafe(s))
  {
    hide LockInv, FileInv, WriteEndOpen, HelperInv, WriteFdKept, WriteEndSafe;
    assert StartInv(m.starts[i]);
    if m.starts[i].did.said {
      SafeMeansKept(m.starts[i]);
    }
  }

  /**
   The exit code is 0 exactly when the daemon said that it is ready and its write end was out of the redirection's
   way, and what happens afterwards never belies it.
   */
  lemma {:induction false} ExitCodeIsTheTruth(run: seq<Machine>, k: nat, l: nat, i: nat)
    requires IsRun(run) && k <= l < |run|
    requires i < |run[k].starts| && run[k].starts[i].launcher.Exited?
    ensures i < |run[l].starts| && run[l].starts[i].launcher == run[k].starts[i].launcher
    ensures var later, code := run[l].starts[i], run[k].starts[i].launcher.code;
      (code == 0 || code == 1) && (code == 0 <==> later.did.said && WriteEndSafe(later))
    decreases l - k
  {
    hide Apply, Enabled, Inv, IsRun;
    RunKeepsInv(run, l);
    if k < l {
      StepOfRun(run, l - 1);
      var s :| Enabled(run[l - 1], s) && run[l] == Apply(run[l - 1], s);
      ExitCodeIsTheTruth(run, k, l - 1, i);
      StepKeepsExit(run[l - 1], s, i);
      ExitedTells(run[l], i);
    } else {
      ExitedTells(run[l], i);
    }
  }

  /** What the code does by itself: not the daemon's own business after `daemonize`, and not dying. */
  predicate OfTheCode(a: Action) {
    match a
    case Signal(_) => false
    case DropReady => false
    case ForkHelper => false
    case EndHelper(_) => false
    case EndLauncher => false
    case EndChild => false
    case EndServer => false
    case _ => true
  }

  function LauncherWork(l: Launcher): nat {
    match l
    case Fresh => 4
    case Piped => 3
    case Forked => 2
    case Reading => 1
    case _ => 0
  }

  function ChildWork(s: Start): nat {
    match s.child
    case NoChild => 3
    case BeforeSession => 3
    case BeforeFork => 2
    case Leaving => 1
    case _ => 0
  }

  function ServerWork(s: Server): nat {
    match s
    case NoServer => 7
    case BeforeChdir => 7
    case BeforeOpen => 6
    case BeforeLock => 5
    case BeforeTruncate => 4
    case BeforeWrite => 3
    case BeforeRedirect => 2
    case Preparing => 1
    case Signalling => 1
    case _ => 0
  }

  function Work(s: Start): nat {
    LauncherWork(s.launcher) + ChildWork(s) + ServerWork(s.server)
  }

  lemma CodeStepsRunOut(s: Start, a: Action, held: bool)
    requires StartInv(s) && Can(s, a) && OfTheCode(a)
    ensures Work(After(s, a, held)) < Work(s)
  {
    hide WriteEndOpen, HelperHasWriteEnd;
  }

  /** Somebody below the launcher still owes it a byte or a close, and no code of this module will make them. */
  predicate Owing(s: Start) {
    || s.child == ChildRefused
    || ((s.server == Preparing || s.server == ServerRefused) && ServerHasWriteEnd(s))
    || HelperHasWriteEnd(s)
  }

  lemma StuckLauncher(s: Start)
    requires forall a :: OfTheCode(a) ==> !Can(s, a)
    ensures s.launcher == Refused || s.launcher == Gone || s.launcher.Exited? || ReadBlocked(s)
  {
    hide WriteEndOpen;
    assert !Can(s, OpenPipe(true)) && !Can(s, ForkChild(true)) && !Can(s, CloseWriteEnd) && !Can(s, ReadReady);
  }

  lemma StuckBelow(s: Start)
    requires forall a :: OfTheCode(a) ==> !Can(s, a)
    ensures s.child == NoChild || s.child == ChildRefused || s.child == ChildGone
    ensures s.server == NoServer || s.server == Preparing || s.server == Serving || s.server == Unready
         || s.server == ServerRefused || s.server == ServerGone
  {
    hide ReadBlocked, WriteFdKept;
    assert !Can(s, NewSession(true)) && !Can(s, ForkServer(true)) && !Can(s, LeaveServer);
    assert !Can(s, Chdir(true)) && !Can(s, OpenPidFile(true)) && !Can(s, Lock);
    assert !Can(s, Truncate(true)) && !Can(s, WritePid(true)) && !Can(s, Redirect(0)) && !Can(s, CloseReady);
  }

  /**
   When a start's code can do nothing more, and its launcher is neither gone nor refused itself, the launcher has its
   answer exactly when the byte was written or nobody owes it anything; otherwise it is blocked in `read`.
   */
  lemma LaunchersWaitOnlyForSomebody(s: Start)
    requires StartInv(s) && forall a :: OfTheCode(a) ==> !Can(s, a)
    requires s.launcher != Refused && s.launcher != Gone
    ensures s.launcher.Exited? <==> s.did.signalled || !Owing(s)
    ensures s.launcher == (if s.did.signalled || !Owing(s) then Exited(if s.did.signalled then 0 else 1) else Reading)
    ensures s.launcher == Reading ==> ReadBlocked(s)
  {
    hide Can, OfTheCode, WriteFdKept, HelperHasWriteEnd;
    StuckLauncher(s);
    StuckBelow(s);
  }

  /** With nobody left below it, a launcher in `read` gets its answer: the byte if there was one, else end of file. */
  lemma NobodyLeftMeansAnAnswer(s: Start, held: bool)
    requires StartInv(s) && s.launcher == Reading
    requires s.child == ChildGone && s.server == ServerGone && forall h :: h in s.helpers ==> !h.alive
    ensures Can(s, ReadReady) && After(s, ReadReady, held).launcher == Exited(if s.did.signalled then 0 else 1)
  {
  }

  /** A descendant to which `daemonize` returned an error: it has no `Ready` to drop. */
  predicate Failing(s: Start) {
    s.child == ChildRefused || (s.server == ServerRefused && WriteFdKept(s))
  }

  /**
   After a failure inside `daemonize`, in the session's first child or in the daemon, whatever the rest of the start
   does, the launcher stays blocked until the process that failed ends.
   */
  lemma RefusalAloneReleasesNobody(s: Start, a: Action, held: bool)
    requires StartInv(s) && Failing(s) && s.launcher == Reading
    ensures ReadBlocked(s)
    ensures Can(s, a) && a != EndLauncher && !(a == EndChild && s.child == ChildRefused)
            && !(a == EndServer && s.server == ServerRefused) ==>
              Failing(After(s, a, held)) && ReadBlocked(After(s, a, held))
  {
  }

  // ---- The pid file ----

  /** The file changes only under the lock, by the only start that holds it. */
  lemma OnlyTheHolderWrites(m: Machine, s: Step)
    requires Inv(m) && Enabled(m, s) && Apply(m, s).file != m.file
    ensures HoldsLock(m.starts[s.i])
    ensures forall j :: 0 <= j < |m.starts| && HoldsLock(m.starts[j]) ==> j == s.i
  {
    hide Can, After, StartInv, HoldsLock;
    WriterHoldsLock(m.starts[s.i], s.action);
  }

  /** A daemon that `daemonize` returned to, and that asked for a pid file. */
  predicate Running(s: Start) {
    s.how.usesPidFile && (s.server == Preparing || s.server == Signalling || s.server == Serving || s.server == Unready)
  }

  lemma RunningHolds(s: Start)
    requires StartInv(s) && Running(s)
    ensures HoldsLock(s) <==> LockSafe(s)
  {
    hide LauncherInv, Lineage, LockSafe, PidFdKept, WriteFdKept;
    SafeMeansKept(s);
  }

  /**
   Such a daemon holds the lock exactly when the redirection spared its pid file. Then the file holds its pid, no other
   start has any part in the lock, and no other daemon runs but one that has lost it.
   */
  lemma RunningDaemonOwnsPidFile(m: Machine, i: nat)
    requires Inv(m) && i < |m.starts| && Running(m.starts[i])
    ensures HoldsLock(m.starts[i]) <==> LockSafe(m.starts[i])
    ensures LockSafe(m.starts[i]) ==>
              && m.file == PidOf(i)
              && (forall j :: 0 <= j < |m.starts| && HoldsLock(m.starts[j]) ==> j == i)
              && (forall j :: 0 <= j < |m.starts| && Running(m.starts[j]) && LockSafe(m.starts[j]) ==> j == i)
  {
    hide LauncherInv, Lineage, LockSafe, PidFdKept, WriteFdKept, HoldsLock;
    forall j | 0 <= j < |m.starts| && Running(m.starts[j])
      ensures HoldsLock(m.starts[j]) <==> LockSafe(m.starts[j])
    {
      assert StartInv(m.starts[j]);
      RunningHolds(m.starts[j]);
    }
    assert FileFits(m, i);
    assert StartInv(m.starts[i]);
  }

  /**
   A second start is refused while any process shares the lock, and leaves the file as it was; once they are all
   dead it is let in, whatever a dead daemon left in the file.
   */
  lemma LockAnswersWhoIsAlive(m: Machine, i: nat)
    requires Inv(m) && Enabled(m, Step(i, Lock))
    ensures var m' := Apply(m, Step(i, Lock));
      && m'.file == m.file
      && (HoldsLock(m'.starts[i]) <==> forall j :: 0 <= j < |m.starts| && j != i ==> !HoldsLock(m.starts[j]))
      && (!HoldsLock(m'.starts[i]) ==> m'.starts[i].server == ServerRefused)
  {
    assert StartInv(m.starts[i]);
    hide LockInv, FileInv, Lineage, LauncherInv;
    assert !HoldsLock(m.starts[i]);
  }

  lemma LostLockStaysLost(s: Start, a: Action, held: bool)
    requires StartInv(s) && Can(s, a) && s.did.named && !HoldsLock(s)
    ensures !HoldsLock(After(s, a, held))
  {
  }

  lemma NameStays(s: Start, a: Action, held: bool)
    requires Can(s, a) && s.did.named
    ensures After(s, a, held).did.named
  {
    hide ReadBlocked, ServerHasWriteEnd, WriteFdKept, PidFdKept;
  }

  lemma StepKeepsNamed(m: Machine, s: Step, i: nat)
    requires Inv(m) && Enabled(m, s) && i < |m.starts| && m.starts[i].did.named
    ensures i < |Apply(m, s).starts| && Apply(m, s).starts[i].did.named
    ensures HoldsLock(Apply(m, s).starts[i]) ==> HoldsLock(m.starts[i])
  {
    hide HoldsLock, LockHeld, LockInv, FileInv, StartInv, Can, After;
    assert StartInv(m.starts[i]);
    if i == s.i {
      NameStays(m.starts[i], s.action, LockHeld(m));
      if !HoldsLock(m.starts[i]) {
        LostLockStaysLost(m.starts[i], s.action, LockHeld(m));
      }
    }
  }

  lemma {:induction false} NamedOnwards(run: seq<Machine>, k: nat, n: nat, i: nat)
    requires IsRun(run) && k <= n < |run|
    requires i < |run[k].starts| && run[k].starts[i].did.named
    ensures i < |run[n].starts| && run[n].starts[i].did.named
    decreases n
  {
    hide IsRun, Apply, Enabled, Inv;
    if k == n {
    } else {
      NamedOnwards(run, k, n - 1, i);
      RunKeepsInv(run, n - 1);
      StepOfRun(run, n - 1);
      var s :| Enabled(run[n - 1], s) && run[n] == Apply(run[n - 1], s);
      StepKeepsNamed(run[n - 1], s, i);
    }
  }

  lemma HolderIsNamed(m: Machine, i: nat)
    requires Inv(m) && i < |m.starts| && m.starts[i].did.named && HoldsLock(m.starts[i])
    ensures m.file == PidOf(i)
  {
    hide HoldsLock, StartsInv, LockInv;
    assert FileFits(m, i);
  }

  /** From the moment a daemon has written its pid until the last process sharing its lock ends, the file says so. */
  lemma {:induction false} PidStaysWhileHeld(run: seq<Machine>, k: nat, n: nat, l: nat, i: nat)
    requires IsRun(run) && k <= n <= l < |run|
    requires i < |run[k].starts| && run[k].starts[i].did.named
    requires i < |run[l].starts| && HoldsLock(run[l].starts[i])
    ensures i < |run[n].starts| && HoldsLock(run[n].starts[i]) && run[n].file == PidOf(i)
    decreases l
  {
    hide IsRun, Apply, Enabled, HoldsLock, Inv;
    NamedOnwards(run, k, n, i);
    RunKeepsInv(run, n);
    if n < l {
      NamedOnwards(run, k, l - 1, i);
      RunKeepsInv(run, l - 1);
      StepOfRun(run, l - 1);
      var s :| Enabled(run[l - 1], s) && run[l] == Apply(run[l - 1], s);
      StepKeepsNamed(run[l - 1], s, i);
      PidStaysWhileHeld(run, k, n, l - 1, i);
    } else {
      HolderIsNamed(run[n], i);
    }
  }

  // ---- Starts that go wrong ----

  ghost predicate Reaches(run: seq<Machine>, m: Machine) {
    IsRun(run) && run[|run| - 1] == m
  }

  /** The machine with start `i` as given. */
  function At(m: Machine, i: nat, file: Content, s: Start): Machine
    requires i < |m.starts|
  {
    Machine(file, m.starts[i := s])
  }

  lemma Extended(run: seq<Machine>, m: Machine, step: Step) returns (longer: seq<Machine>)
    requires Reaches(run, m) && Enabled(m, step)
    ensures Reaches(longer, Apply(m, step))
  {
    hide Enabled, Apply, Init;
    var end := |run| - 1;
    longer := run + [Apply(m, step)];
    forall k | 0 <= k < |longer| - 1 ensures StepAt(longer, k) {
      if k < end {
        StepOfRun(run, k);
        var t :| Enabled(run[k], t) && run[k + 1] == Apply(run[k], t);
        assert Enabled(longer[k], t) && longer[k + 1] == Apply(longer[k], t);
      } else {
        assert Enabled(longer[k], step) && longer[k + 1] == Apply(longer[k], step);
      }
    }
  }

  lemma LockMattersToLock(s: Start, a: Action, held: bool)
    requires Can(s, a) && a != Lock
    ensures After(s, a, held) == After(s, a, false)
  {
  }

  /** One more step of start `i`, to a state written out. */
  lemma Then(run: seq<Machine>, m: Machine, i: nat, file: Content, s: Start, a: Action, file': Content, next: Start)
    returns (longer: seq<Machine>)
    requires i < |m.starts| && Reaches(run, At(m, i, file, s)) && Can(s, a)
    requires a == Lock ==> !LockHeld(At(m, i, file, s))
    requires next == After(s, a, false) && file' == FileAfter(file, Step(i, a))
    ensures Reaches(longer, At(m, i, file', next))
  {
    hide Can, After, LockHeld, Reaches;
    var here := At(m, i, file, s);
    if a != Lock {
      LockMattersToLock(s, a, LockHeld(here));
    }
    longer := Extended(run, here, Step(i, a));
    assert m.starts[i := s][i := next] == m.starts[i := next];
  }

  lemma StillUnheld(m: Machine, i: nat, file: Content, s: Start)
    requires i < |m.starts| && !LockHeld(m) && !s.did.locked
    ensures !LockHeld(At(m, i, file, s))
  {
    hide HelperHasLock, PidFdKept;
    var starts := m.starts[i := s];
    forall j | 0 <= j < |starts| ensures !HoldsLock(starts[j]) {
      assert j != i ==> starts[j] == m.starts[j] && !HoldsLock(m.starts[j]);
    }
  }

  /** A start as far as `fork`ed twice, with nothing else done. */
  function Launched(s: Start): Start {
    s.(launcher := Reading, child := ChildGone, server := BeforeChdir)
  }

  lemma AtItself(m: Machine, i: nat)
    requires i < |m.starts|
    ensures At(m, i, m.file, m.starts[i]) == m
  {
    assert m.starts[i := m.starts[i]] == m.starts;
  }

  lemma Launch(run: seq<Machine>, m: Machine, i: nat) returns (longer: seq<Machine>)
    requires i < |m.starts| && FreshStart(m.starts[i]) && Reaches(run, m)
    ensures Reaches(longer, At(m, i, m.file, Launched(m.starts[i])))
  {
    var f, s0 := m.file, m.starts[i];
    var s1 := s0.(launcher := Piped);
    var s2 := s0.(launcher := Forked, child := BeforeSession);
    var s3 := s2.(launcher := Reading);
    var s4 := s3.(child := BeforeFork);
    var s5 := s3.(child := Leaving, server := BeforeChdir);
    assert m.starts[i := s0] == m.starts;
    hide Reaches, LockHeld, At;
    assert At(m, i, f, s0) == m by { AtItself(m, i); }
    longer := Then(run, m, i, f, s0, OpenPipe(true), f, s1);
    longer := Then(longer, m, i, f, s1, ForkChild(true), f, s2);
    longer := Then(longer, m, i, f, s2, CloseWriteEnd, f, s3);
    longer := Then(longer, m, i, f, s3, NewSession(true), f, s4);
    longer := Then(longer, m, i, f, s4, ForkServer(true), f, s5);
    longer := Then(longer, m, i, f, s5, LeaveServer, f, Launched(s0));
  }

  /** A start whose daemon has come back from `daemonize`. */
  function Prepared(s: Start): Start {
    Launched(s).(server := Preparing, did := Deeds(3, true, true, false, false))
  }

  function Locked(s: Start): Start {
    Launched(s).(server := BeforeTruncate, did := Deeds(0, true, false, false, false))
  }

  lemma TakeLock(run: seq<Machine>, m: Machine, i: nat) returns (longer: seq<Machine>)
    requires i < |m.starts| && FreshStart(m.starts[i]) && m.starts[i].how.usesPidFile && !LockHeld(m) && Reaches(run, m)
    ensures Reaches(longer, At(m, i, m.file, Locked(m.starts[i])))
  {
    var f, s6 := m.file, Launched(m.starts[i]);
    var s7 := s6.(server := BeforeOpen);
    var s8 := s6.(server := BeforeLock);
    StillUnheld(m, i, f, s8);
    hide Reaches, LockHeld, At;
    longer := Launch(run, m, i);
    longer := Then(longer, m, i, f, s6, Chdir(true), f, s7);
    longer := Then(longer, m, i, f, s7, OpenPidFile(true), f, s8);
    longer := Then(longer, m, i, f, s8, Lock, f, Locked(m.starts[i]));
  }

  /** Where nobody holds the lock, a start gets that far, whatever it has open. */
  lemma Prepare(run: seq<Machine>, m: Machine, i: nat) returns (longer: seq<Machine>)
    requires i < |m.starts| && FreshStart(m.starts[i]) && m.starts[i].how.usesPidFile && !LockHeld(m) && Reaches(run, m)
    ensures Reaches(longer, At(m, i, PidOf(i), Prepared(m.starts[i])))
  {
    var f, s9 := m.file, Locked(m.starts[i]);
    var s10 := s9.(server := BeforeWrite);
    var s11 := s9.(server := BeforeRedirect, did := Deeds(0, true, true, false, false));
    hide Reaches, LockHeld, At;
    longer := TakeLock(run, m, i);
    longer := Then(longer, m, i, f, s9, Truncate(true), Empty, s10);
    longer := Then(longer, m, i, Empty, s10, WritePid(true), PidOf(i), s11);
    longer := Then(longer, m, i, PidOf(i), s11, Redirect(3), PidOf(i), Prepared(m.starts[i]));
  }

  function NewStart(used: set<Fd>): Start {
    Start(Fresh, NoChild, NoServer, [], Call(true, used, false), NOTHING_DONE)
  }

  /** A process with its standard input closed, and then one with all three open, both end up with a running daemon. */
  lemma TwoDaemonsRun() returns (run: seq<Machine>, m: Machine)
    ensures Reaches(run, m) && |m.starts| == 2 && m.starts[0].how.used == {1, 2} && m.starts[1].how.used == {0, 1, 2}
    ensures Running(m.starts[0]) && Running(m.starts[1]) && m.file == PidOf(1)
  {
    var a, b := NewStart({1, 2}), NewStart({0, 1, 2});
    var m0 := Machine(Stale, [a, b]);
    var m1 := Machine(PidOf(0), [Prepared(a), b]);
    m := Machine(PidOf(1), [Prepared(a), Prepared(b)]);
    run := [m0];
    assert Reaches(run, m0) && !LockHeld(m0);
    ClosedStandardInputCostsTheLock();
    assert !HoldsLock(m1.starts[0]) && !HoldsLock(m1.starts[1]);
    hide Reaches, PidFd, WriteFd;
    run := Prepare(run, m0, 0);
    assert At(m0, 0, PidOf(0), Prepared(a)) == m1;
    run := Prepare(run, m1, 1);
    assert At(m1, 1, PidOf(1), Prepared(b)) == m;
  }

  lemma AtOnly(m: Machine, file: Content, s: Start)
    requires |m.starts| == 1
    ensures At(m, 0, file, s) == Machine(file, [s])
  {
  }

  /** What a prepared daemon's start does once the redirection has taken its write end. */
  lemma EndOfFileBeforeSignal(s: Start)
    requires s.launcher == Reading && s.child == ChildGone && s.server == Preparing && s.helpers == []
    requires !s.did.signalled && !WriteFdKept(s)
    ensures Can(s, ReadReady) && After(s, ReadReady, false) == s.(launcher := Exited(1))
    ensures var e := s.(launcher := Exited(1));
      Can(e, Signal(false)) && After(e, Signal(false), false) == e.(server := Signalling, did := e.did.(said := true))
    ensures var e := s.(launcher := Exited(1), server := Signalling, did := s.did.(said := true));
      Can(e, CloseReady) && After(e, CloseReady, false) == e.(server := Serving)
  {
    hide WriteFd;
  }

  /** With standard input and output closed, the launcher reports a failure of a daemon that goes on to serve. */
  lemma ServingDaemonReportedFailed() returns (run: seq<Machine>, m: Machine)
    ensures Reaches(run, m) && |m.starts| == 1 && m.starts[0].how.used == {2}
    ensures m.starts[0].launcher == Exited(1) && m.starts[0].server == Serving && m.starts[0].did.said
  {
    var a := NewStart({2});
    var m0 := Machine(Stale, [a]);
    var s := Prepared(a);
    var exited := s.(launcher := Exited(1));
    var signalling := s.(launcher := Exited(1), server := Signalling, did := s.did.(said := true));
    var serving := signalling.(server := Serving);
    run := [m0];
    assert Reaches(run, m0) && !LockHeld(m0);
    ClosedStandardInputCostsTheLock();
    assert !WriteFdKept(s);
    EndOfFileBeforeSignal(s);
    hide Reaches, PidFd, WriteFd, LockHeld, At, Can, After;
    run := Prepare(run, m0, 0);
    run := Then(run, m0, 0, PidOf(0), s, ReadReady, PidOf(0), exited);
    run := Then(run, m0, 0, PidOf(0), exited, Signal(false), PidOf(0), signalling);
    run := Then(run, m0, 0, PidOf(0), signalling, CloseReady, PidOf(0), serving);
    m := At(m0, 0, PidOf(0), serving);
    AtOnly(m0, PidOf(0), serving);
  }

  /** A daemon that cannot change to `/` keeps its launcher waiting. */
  lemma FailedDaemonKeepsItsLauncherWaiting() returns (run: seq<Machine>, m: Machine)
    ensures Reaches(run, m) && |m.starts| == 1 && ReadBlocked(m.starts[0])
    ensures m.starts[0].server == ServerRefused && m.starts[0].child == ChildGone
  {
    var a := NewStart({0, 1, 2});
    var m0 := Machine(Stale, [a]);
    var last := Launched(a).(server := ServerRefused);
    run := [m0];
    assert Reaches(run, m0);
    assert ReadBlocked(last);
    hide Reaches, LockHeld, At;
    run := Launch(run, m0, 0);
    run := Then(run, m0, 0, Stale, Launched(a), Chdir(false), Stale, last);
    m := At(m0, 0, Stale, last);
    AtOnly(m0, Stale, last);
  }
}
