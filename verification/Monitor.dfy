/**
 `Mutex`, `Guard` and `Condvar` of `src/thread.rs`: any number of threads, one mutex, one condition variable.

 `Condvar::wait` forgets the guard, counts itself, blocks in `pthread_cond_wait` (which releases the mutex and
 takes it back), uncounts itself, and builds a new guard. `notify_one` and `notify_all` load the count and then
 signal, in two steps, with or without the mutex.
 */
module Monitor {
  import opened Wrappers
  import opened Counting

  datatype Pc =
    | Outside
    | WantLock
    | Holding                                   // has a guard
    | Counted                                   // in `wait`, counted, about to block
    | Blocked
    | Woken                                     // wants the mutex back
    | Retaken                                   // has it, not yet uncounted
    | OneLoad(held: bool)
    | OneSignal(held: bool, had: bool)          // the count has been read
    | OneDone(held: bool, answer: bool)
    | AllLoad(held: bool)
    | AllSignal(held: bool, count: nat)
    | AllDone(held: bool, total: nat)

  datatype Machine = Machine(owner: Option<nat>, waiters: nat, threads: seq<Pc>)

  ghost predicate Init(m: Machine) {
    m.owner == None && m.waiters == 0 && forall i :: 0 <= i < |m.threads| ==> m.threads[i] == Outside
  }

  datatype Step =
    | CallLock(i: nat)
    | TakeLock(i: nat)
    | TryLock(i: nat)
    | Unlock(i: nat)
    | CountIn(i: nat)
    | Block(i: nat)
    | Spurious(i: nat)
    | CountOut(i: nat)
    | CallOne(i: nat)
    | LoadOne(i: nat)
    | SignalOne(i: nat, woken: nat)
    | CallAll(i: nat)
    | LoadAll(i: nat)
    | SignalAll(i: nat)
    | Return(i: nat)

  predicate SomeBlocked(m: Machine) {
    exists j :: 0 <= j < |m.threads| && m.threads[j] == Blocked
  }

  predicate Enabled(m: Machine, s: Step) {
    && s.i < |m.threads|
    && var pc := m.threads[s.i];
       match s
       case CallLock(_) => pc == Outside
       case TakeLock(_) => (pc == WantLock || pc == Woken) && m.owner == None
       case TryLock(_) => pc == Outside
       case Unlock(_) => pc == Holding
       case CountIn(_) => pc == Holding
       case Block(_) => pc == Counted
       case Spurious(_) => pc == Blocked
       case CountOut(_) => pc == Retaken
       case CallOne(_) => pc == Outside || pc == Holding
       case LoadOne(_) => pc.OneLoad?
       // A signal wakes a blocked thread if there is one.
       case SignalOne(_, woken) =>
         pc.OneSignal? && (SomeBlocked(m) ==> woken < |m.threads| && m.threads[woken] == Blocked)
       case CallAll(_) => pc == Outside || pc == Holding
       case LoadAll(_) => pc.AllLoad?
       case SignalAll(_) => pc.AllSignal?
       case Return(_) => pc.OneDone? || pc.AllDone?
  }

  function Wake(pc: Pc): Pc {
    if pc == Blocked then Woken else pc
  }

  function WakeAll(threads: seq<Pc>): (woken: seq<Pc>)
    ensures |woken| == |threads| && forall i :: 0 <= i < |threads| ==> woken[i] == Wake(threads[i])
  {
    seq(|threads|, i requires 0 <= i < |threads| => Wake(threads[i]))
  }

  function Put(m: Machine, i: nat, pc: Pc): Machine
    requires i < |m.threads|
  {
    m.(threads := m.threads[i := pc])
  }

  function Apply(m: Machine, s: Step): Machine
    requires Enabled(m, s)
  {
    var i, pc := s.i, m.threads[s.i];
    match s
    case CallLock(_) => Put(m, i, WantLock)
    case TakeLock(_) => Put(m, i, if pc == Woken then Retaken else Holding).(owner := Some(i))
    case TryLock(_) => if m.owner == None then Put(m, i, Holding).(owner := Some(i)) else m
    case Unlock(_) => Put(m, i, Outside).(owner := None)
    case CountIn(_) => Put(m, i, Counted).(waiters := m.waiters + 1)
    case Block(_) => Put(m, i, Blocked).(owner := None)
    case Spurious(_) => Put(m, i, Woken)
    // The model saturates; the invariant shows that it never has to.
    case CountOut(_) => Put(m, i, Holding).(waiters := if m.waiters == 0 then 0 else m.waiters - 1)
    case CallOne(_) => Put(m, i, OneLoad(pc == Holding))
    case LoadOne(_) => Put(m, i, OneSignal(pc.held, m.waiters > 0))
    case SignalOne(_, woken) =>
      var m1 := Put(m, i, OneDone(pc.held, pc.had));
      if woken < |m.threads| then Put(m1, woken, Wake(m1.threads[woken])) else m1
    case CallAll(_) => Put(m, i, AllLoad(pc == Holding))
    case LoadAll(_) => Put(m, i, AllSignal(pc.held, m.waiters))
    case SignalAll(_) => var m1 := Put(m, i, AllDone(pc.held, pc.count)); m1.(threads := WakeAll(m1.threads))
    case Return(_) => Put(m, i, if pc.held then Holding else Outside)
  }

  ghost predicate StepAt(run: seq<Machine>, k: nat)
    requires k + 1 < |run|
  {
    exists s :: Enabled(run[k], s) && run[k + 1] == Apply(run[k], s)
  }

  ghost predicate IsRun(run: seq<Machine>) {
    && |run| > 0 && Init(run[0])
    && forall k :: 0 <= k < |run| - 1 ==> StepAt(run, k)
  }

  // ---- What every step keeps ----

  predicate Holds(pc: Pc) {
    match pc
    case Holding => true
    case Counted => true
    case Retaken => true
    case OneLoad(held) => held
    case OneSignal(held, _) => held
    case OneDone(held, _) => held
    case AllLoad(held) => held
    case AllSignal(held, _) => held
    case AllDone(held, _) => held
    case _ => false
  }

  function InWait(pc: Pc): nat {
    if pc == Counted || pc == Blocked || pc == Woken || pc == Retaken then 1 else 0
  }

  function IsBlocked(pc: Pc): nat { if pc == Blocked then 1 else 0 }

  function IsWoken(pc: Pc): nat { if pc == Woken then 1 else 0 }

  /** One owner at most, through `wait` too: the guard it forgets and the guard it builds are never both live. */
  ghost predicate OwnerInv(m: Machine) {
    && (forall i :: 0 <= i < |m.threads| ==> (Holds(m.threads[i]) <==> m.owner == Some(i)))
    && (m.owner.Some? ==> m.owner.value < |m.threads|)
  }

  ghost predicate CountInv(m: Machine) {
    m.waiters == Sum(m.threads, InWait)
  }

  /** A notifier that holds the mutex still knows the count when it signals. */
  ghost predicate NotifierInv(m: Machine) {
    forall i :: 0 <= i < |m.threads| ==>
      match m.threads[i]
      case OneSignal(held, had) => held ==> had == (m.waiters > 0)
      case AllSignal(held, count) => held ==> count == m.waiters
      case _ => true
  }

  ghost predicate Inv(m: Machine) {
    OwnerInv(m) && CountInv(m) && NotifierInv(m)
  }

  lemma InitInv(m: Machine)
    requires Init(m)
    ensures Inv(m)
  {
    SumZero(m.threads, InWait);
  }

  lemma StepKeepsOwner(m: Machine, s: Step)
    requires OwnerInv(m) && Enabled(m, s)
    ensures OwnerInv(Apply(m, s))
  {
    hide SomeBlocked;
    var m' := Apply(m, s);
    assert Holds(m.threads[s.i]) <==> m.owner == Some(s.i);
    forall j | 0 <= j < |m'.threads| ensures Holds(m'.threads[j]) <==> m'.owner == Some(j) {
      assert Holds(m.threads[j]) <==> m.owner == Some(j);
    }
  }

  lemma {:induction false} WakeAllKeepsCount(threads: seq<Pc>)
    ensures Sum(WakeAll(threads), InWait) == Sum(threads, InWait)
  {
    if |threads| == 0 {
    } else {
      WakeAllKeepsCount(threads[..|threads| - 1]);
      assert WakeAll(threads)[..|threads| - 1] == WakeAll(threads[..|threads| - 1]);
    }
  }

  lemma StepKeepsCount(m: Machine, s: Step)
    requires OwnerInv(m) && CountInv(m) && Enabled(m, s)
    ensures CountInv(Apply(m, s))
  {
    hide Sum;
    var m' := Apply(m, s);
    SumAtLeast(m.threads, InWait, s.i);
    match s {
      case SignalOne(i, woken) =>
        var m1 := Put(m, i, OneDone(m.threads[i].held, m.threads[i].had));
        SumUpdate(m.threads, InWait, i, m1.threads[i]);
        if woken < |m.threads| {
          SumUpdate(m1.threads, InWait, woken, Wake(m1.threads[woken]));
        }
      case SignalAll(i) =>
        var m1 := Put(m, i, AllDone(m.threads[i].held, m.threads[i].count));
        SumUpdate(m.threads, InWait, i, m1.threads[i]);
        WakeAllKeepsCount(m1.threads);
      case TryLock(i) =>
        SumUpdate(m.threads, InWait, i, Holding);
      case _ =>
        SumUpdate(m.threads, InWait, s.i, m'.threads[s.i]);
    }
  }

  /** The count changes only under the mutex, so nobody changes it behind a notifier that holds it. */
  lemma StepKeepsNotifiers(m: Machine, s: Step)
    requires OwnerInv(m) && NotifierInv(m) && Enabled(m, s)
    ensures NotifierInv(Apply(m, s))
  {
    var m' := Apply(m, s);
    forall j | 0 <= j < |m'.threads|
      ensures match m'.threads[j]
              case OneSignal(held, had) => held ==> had == (m'.waiters > 0)
              case AllSignal(held, count) => held ==> count == m'.waiters
              case _ => true
    {
      assert Holds(m.threads[j]) <==> m.owner == Some(j);
      assert Holds(m.threads[s.i]) <==> m.owner == Some(s.i);
    }
  }

  lemma StepKeepsInv(m: Machine, s: Step)
    requires Inv(m) && Enabled(m, s)
    ensures Inv(Apply(m, s))
  {
    StepKeepsOwner(m, s);
    StepKeepsCount(m, s);
    StepKeepsNotifiers(m, s);
    hide Apply, Enabled;
  }

  lemma {:induction false} RunKeepsInv(run: seq<Machine>, k: nat)
    requires IsRun(run) && k < |run|
    ensures Inv(run[k])
  {
    hide Apply, Enabled, Inv;
    if k == 0 {
      InitInv(run[0]);
    } else {
      RunKeepsInv(run, k - 1);
      assert StepAt(run, k - 1);
      var s :| Enabled(run[k - 1], s) && run[k] == Apply(run[k - 1], s);
      StepKeepsInv(run[k - 1], s);
    }
  }

  // ---- What the answers mean ----

  lemma MutualExclusion(m: Machine, i: nat, j: nat)
    requires Inv(m) && i < |m.threads| && j < |m.threads| && Holds(m.threads[i]) && Holds(m.threads[j])
    ensures i == j
  {
  }

  lemma {:induction false} SumsAgree(threads: seq<Pc>)
    requires forall i :: 0 <= i < |threads| ==> InWait(threads[i]) == IsBlocked(threads[i]) + IsWoken(threads[i])
    ensures Sum(threads, InWait) == Sum(threads, IsBlocked) + Sum(threads, IsWoken)
  {
    if |threads| == 0 {
    } else {
      SumsAgree(threads[..|threads| - 1]);
    }
  }

  /** While a notifier holds the mutex, the count is exactly the threads blocked and those woken but not yet back. */
  lemma CountUnderMutex(m: Machine, i: nat)
    requires Inv(m) && i < |m.threads| && Holds(m.threads[i]) && InWait(m.threads[i]) == 0
    ensures m.waiters == Sum(m.threads, IsBlocked) + Sum(m.threads, IsWoken)
  {
    forall j | 0 <= j < |m.threads|
      ensures InWait(m.threads[j]) == IsBlocked(m.threads[j]) + IsWoken(m.threads[j])
    {
      assert Holds(m.threads[j]) <==> m.owner == Some(j);
    }
    SumsAgree(m.threads);
  }

  /**
   Under the mutex, `notify_one` answers `true` exactly when some thread is blocked or still on its way back;
   `false` therefore means that nobody is blocked.
   */
  lemma NotifyOneUnderMutex(m: Machine, i: nat)
    requires Inv(m) && i < |m.threads| && m.threads[i].OneSignal? && m.threads[i].held
    ensures m.threads[i].had <==> exists j :: 0 <= j < |m.threads| && (m.threads[j] == Blocked || m.threads[j] == Woken)
    ensures !m.threads[i].had ==> !SomeBlocked(m)
  {
    CountUnderMutex(m, i);
    hide Sum;
    if m.threads[i].had {
      if Sum(m.threads, IsBlocked) > 0 {
        var j := SumPositive(m.threads, IsBlocked);
      } else {
        var j := SumPositive(m.threads, IsWoken);
      }
    } else if j :| 0 <= j < |m.threads| && (m.threads[j] == Blocked || m.threads[j] == Woken) {
      SumAtLeast(m.threads, IsBlocked, j);
      SumAtLeast(m.threads, IsWoken, j);
    }
  }

  /** Under the mutex, `notify_all` answers at least the number of threads that it wakes. */
  lemma NotifyAllUnderMutex(m: Machine, i: nat)
    requires Inv(m) && i < |m.threads| && m.threads[i].AllSignal? && m.threads[i].held
    ensures m.threads[i].count == Sum(m.threads, IsBlocked) + Sum(m.threads, IsWoken)
    ensures m.threads[i].count >= Sum(m.threads, IsBlocked)
    ensures forall j :: 0 <= j < |m.threads| && m.threads[j] == Blocked ==> Apply(m, SignalAll(i)).threads[j] == Woken
  {
    CountUnderMutex(m, i);
  }

  /**
   What `notify_one` answers its caller. Under the mutex: whether some thread is blocked or on its way back, so
   `false` means that nobody is blocked. And with or without it, a blocked thread wakes if there is one.
   */
  lemma NotifyOneAnswers(m: Machine, i: nat, woken: nat)
    requires Inv(m) && Enabled(m, SignalOne(i, woken))
    ensures i < |Apply(m, SignalOne(i, woken)).threads|
    ensures var answer := Apply(m, SignalOne(i, woken)).threads[i];
      && answer.OneDone? && answer.held == m.threads[i].held
      && (answer.held ==>
            && (answer.answer <==>
                  exists j :: 0 <= j < |m.threads| && (m.threads[j] == Blocked || m.threads[j] == Woken))
            && (!answer.answer ==> !SomeBlocked(m)))
    ensures SomeBlocked(m) ==>
              && woken < |m.threads| && m.threads[woken] == Blocked
              && Apply(m, SignalOne(i, woken)).threads[woken] == Woken
  {
    if m.threads[i].held {
      NotifyOneUnderMutex(m, i);
    }
    hide Inv;
  }

  /** What `notify_all` answers: at least as many as it wakes; and all that are blocked wake, mutex or not. */
  lemma NotifyAllAnswers(m: Machine, i: nat)
    requires Inv(m) && Enabled(m, SignalAll(i))
    ensures |Apply(m, SignalAll(i)).threads| == |m.threads|
    ensures var answer := Apply(m, SignalAll(i)).threads[i];
      && answer.AllDone? && answer.held == m.threads[i].held
      && (answer.held ==>
            && answer.total == Sum(m.threads, IsBlocked) + Sum(m.threads, IsWoken)
            && answer.total >= Sum(m.threads, IsBlocked))
    ensures forall j :: 0 <= j < |m.threads| && m.threads[j] == Blocked ==> Apply(m, SignalAll(i)).threads[j] == Woken
  {
    hide Sum;
    if m.threads[i].held {
      NotifyAllUnderMutex(m, i);
    }
    hide Inv;
  }

  /** Without the mutex too, the answers are what the count was when it was read. */
  lemma AnswersAreTheCountRead(m: Machine, i: nat)
    requires i < |m.threads|
    ensures Enabled(m, LoadOne(i)) ==>
              |Apply(m, LoadOne(i)).threads| == |m.threads|
              && Apply(m, LoadOne(i)).threads[i] == OneSignal(m.threads[i].held, m.waiters > 0)
    ensures forall w :: Enabled(m, SignalOne(i, w)) ==>
              |Apply(m, SignalOne(i, w)).threads| == |m.threads|
              && Apply(m, SignalOne(i, w)).threads[i] == OneDone(m.threads[i].held, m.threads[i].had)
    ensures Enabled(m, LoadAll(i)) ==>
              |Apply(m, LoadAll(i)).threads| == |m.threads|
              && Apply(m, LoadAll(i)).threads[i] == AllSignal(m.threads[i].held, m.waiters)
    ensures Enabled(m, SignalAll(i)) ==>
              |Apply(m, SignalAll(i)).threads| == |m.threads|
              && Apply(m, SignalAll(i)).threads[i] == AllDone(m.threads[i].held, m.threads[i].count)
  {
  }

  /** Nothing that other threads do changes an answer that has been given. */
  lemma AnswersStay(m: Machine, s: Step, i: nat)
    requires Enabled(m, s) && s.i != i && i < |m.threads| && (m.threads[i].OneDone? || m.threads[i].AllDone?)
    ensures i < |Apply(m, s).threads| && Apply(m, s).threads[i] == m.threads[i]
  {
  }

  /** `try_lock` gets the mutex exactly when it is free; otherwise it changes nothing. */
  lemma TryLockAnswers(m: Machine, i: nat)
    requires Enabled(m, TryLock(i))
    ensures var m' := Apply(m, TryLock(i));
      if m.owner == None then m'.owner == Some(i) && m'.threads == m.threads[i := Holding] else m' == m
  {
  }

  ghost predicate Reaches(run: seq<Machine>, m: Machine) {
    IsRun(run) && run[|run| - 1] == m
  }

  lemma Extended(run: seq<Machine>, m: Machine, s: Step) returns (longer: seq<Machine>)
    requires Reaches(run, m) && Enabled(m, s)
    ensures Reaches(longer, Apply(m, s))
  {
    hide Apply, Enabled;
    var last := |run| - 1;
    longer := run + [Apply(run[last], s)];
    forall k | 0 <= k < |longer| - 1 ensures StepAt(longer, k) {
      if k < last {
        assert StepAt(run, k);
        var t :| Enabled(run[k], t) && run[k + 1] == Apply(run[k], t);
        assert Enabled(longer[k], t) && longer[k + 1] == Apply(longer[k], t);
      } else {
        assert Enabled(longer[k], s) && longer[k + 1] == Apply(longer[k], s);
      }
    }
  }

  /** One more step, to a machine written out. */
  lemma Then(run: seq<Machine>, m: Machine, s: Step, next: Machine) returns (longer: seq<Machine>)
    requires Reaches(run, m) && Enabled(m, s) && next == Apply(m, s)
    ensures Reaches(longer, next)
  {
    hide Apply, Enabled, IsRun;
    longer := Extended(run, m, s);
  }

  lemma WaitAlone() returns (run: seq<Machine>)
    ensures Reaches(run, Machine(None, 1, [Blocked, Outside]))
  {
    var m0 := Machine(None, 0, [Outside, Outside]);
    var m1 := Machine(Some(0), 0, [Holding, Outside]);
    var m2 := Machine(Some(0), 1, [Counted, Outside]);
    var m3 := Machine(None, 1, [Blocked, Outside]);
    run := [m0];
    assert Reaches(run, m0);
    hide Reaches, WakeAll, SomeBlocked;
    run := Then(run, m0, TryLock(0), m1);
    run := Then(run, m1, CountIn(0), m2);
    run := Then(run, m2, Block(0), m3);
  }

  /**
   `true` does not promise a blocked thread, even under the mutex: thread 0 waited and woke by itself, and is still
   counted when thread 1, holding the mutex, reads the count.
   */
  lemma TrueMayFindNobodyBlocked() returns (run: seq<Machine>, last: Machine)
    ensures Reaches(run, last)
    ensures last.threads == [Woken, OneSignal(true, true)] && last.owner == Some(1) && !SomeBlocked(last)
  {
    hide Reaches, WakeAll;
    var m3 := Machine(None, 1, [Blocked, Outside]);
    var m4 := Machine(None, 1, [Woken, Outside]);
    var m5 := Machine(Some(1), 1, [Woken, Holding]);
    var m6 := Machine(Some(1), 1, [Woken, OneLoad(true)]);
    last := Machine(Some(1), 1, [Woken, OneSignal(true, true)]);
    run := WaitAlone();
    run := Then(run, m3, Spurious(0), m4);
    run := Then(run, m4, TryLock(1), m5);
    run := Then(run, m5, CallOne(1), m6);
    run := Then(run, m6, LoadOne(1), last);
  }
}
