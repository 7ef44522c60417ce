/**
 The bounded channel of `src/channel.rs`: one mutex, two condition variables, any number of threads on the sending
 side, and any number on the receiving side, where a `Receiver` that is shared may be read by several at once.

 `State` is the mutex-protected record, with one method for each critical section. The protocol is a
 machine whose atomic steps are those critical sections, the lock and unlock around them, and the
 notifications, which the source issues after it has unlocked. Any sleeping thread may also wake
 spuriously, as section "pthread_cond_wait" of POSIX.1-2017 permits.
 */
module ChannelState {
  type Value(==, !new)

  /** What `send` finds when it holds the lock. */
  datatype SendVerdict = Refused | Queued | MustWait

  /** What `recv` finds when it holds the lock. */
  datatype RecvVerdict = Popped(value: Value) | Disconnected | NothingYet

  datatype Fields = Fields(queue: seq<Value>, senders: nat, receiver: bool)

  function SendTurn(f: Fields, capacity: nat, v: Value): (SendVerdict, Fields) {
    if !f.receiver then (Refused, f)
    else if |f.queue| < capacity then (Queued, f.(queue := f.queue + [v]))
    else (MustWait, f)
  }

  function RecvTurn(f: Fields): (RecvVerdict, Fields) {
    if |f.queue| > 0 then (Popped(f.queue[0]), f.(queue := f.queue[1..]))
    else if f.senders == 0 then (Disconnected, f)
    else (NothingYet, f)
  }

  function CloneTurn(f: Fields): Fields {
    f.(senders := f.senders + 1)
  }

  /** What dropping a sender leaves, and whether it was the last. The count saturates; it is shown never to have to. */
  function DropTurn(f: Fields): (Fields, bool) {
    var left := if f.senders == 0 then 0 else f.senders - 1;
    (f.(senders := left), left == 0)
  }

  function CloseTurn(f: Fields): Fields {
    f.(receiver := false)
  }

  class State {
    var queue: seq<Value>
    var senders: nat
    var receiver: bool

    function Now(): Fields
      reads this
    {
      Fields(queue, senders, receiver)
    }

    constructor ()
      ensures Now() == Fields([], 1, true)
    {
      queue, senders, receiver := [], 1, true;
    }

    /** One turn of `send`'s loop. */
    method TrySend(capacity: nat, v: Value) returns (verdict: SendVerdict)
      modifies this
      ensures verdict == Refused <==> !old(receiver)
      ensures verdict == Queued <==> old(receiver) && |old(queue)| < capacity
      ensures queue == if verdict == Queued then old(queue) + [v] else old(queue)
      ensures senders == old(senders) && receiver == old(receiver)
      ensures (verdict, Now()) == SendTurn(old(Now()), capacity, v)
    {
      if !receiver {
        return Refused;
      }
      if |queue| < capacity {
        queue := queue + [v];
        return Queued;
      }
      return MustWait;
    }

    /** One turn of `recv`'s loop; `try_recv` makes the same attempt once. */
    method TryRecv() returns (verdict: RecvVerdict)
      modifies this
      ensures old(queue) != [] ==> verdict == Popped(old(queue)[0]) && queue == old(queue)[1..]
      ensures old(queue) == [] ==> verdict == (if old(senders) == 0 then Disconnected else NothingYet) && queue == []
      ensures senders == old(senders) && receiver == old(receiver)
      ensures (verdict, Now()) == RecvTurn(old(Now()))
    {
      if |queue| > 0 {
        var value := queue[0];
        queue := queue[1..];
        return Popped(value);
      }
      if senders == 0 {
        return Disconnected;
      }
      return NothingYet;
    }

    method AddSender()
      modifies this`senders
      ensures senders == old(senders) + 1
      ensures Now() == CloneTurn(old(Now()))
    {
      senders := senders + 1;
    }

    /** Answers whether that was the last sender. */
    method DropSender() returns (last: bool)
      requires senders > 0
      modifies this`senders
      ensures senders == old(senders) - 1 && (last <==> senders == 0)
      ensures (Now(), last) == DropTurn(old(Now()))
    {
      senders := senders - 1;
      last := senders == 0;
    }

    method DropReceiver()
      modifies this`receiver
      ensures !receiver
      ensures Now() == CloseTurn(old(Now()))
    {
      receiver := false;
    }
  }
}

module Channel {
  import opened Counting
  import opened ChannelState

  type Handle = nat

  /** Where a sender-side thread is. Names ending in `Body` hold the mutex and are about to act. */
  datatype TxPc =
    | Idle
    | SendLock(h: Handle, v: Value)
    | SendBody(h: Handle, v: Value, again: bool)  // `again`: back from a wait, not yet rechecked
    | SendQueued(h: Handle)                       // item queued, mutex still held
    | SendNotify(h: Handle)                       // mutex released, `on_send.notify_one` owed
    | SendRefused(h: Handle, v: Value)            // receiver gone, mutex still held
    | SendAsleep(h: Handle, v: Value)             // blocked on `on_recv`
    | SendWoken(h: Handle, v: Value)              // awake, wants the mutex back
    | CloneLock(h: Handle)
    | CloneBody(h: Handle)
    | CloneDone(h: Handle)
    | DropLock
    | DropBody
    | DropDone(last: bool)                        // mutex still held
    | DropNotify                                  // `on_send.notify_all` owed

  /** Where a receiver-side thread is. */
  datatype RxPc =
    | RxIdle
    | RecvLock
    | RecvBody(again: bool)
    | RecvPopped     // item taken, mutex still held
    | RecvNotify     // mutex released, `on_recv.notify_one` owed
    | RecvFailed     // about to answer `RecvError`, mutex still held
    | RecvAsleep     // blocked on `on_send`
    | RecvWoken      // awake, wants the mutex back
    | TryLock
    | TryBody
    | TryEmpty       // about to answer `None`, mutex still held
    | RxDropLock
    | RxDropBody
    | RxDropDone     // mutex still held
    | RxDropNotify   // `on_recv.notify_all` owed

  datatype Owner = Free | Tx(i: nat) | Rx(j: nat)

  /**
   The whole machine. `live` are the sender handles nobody has started to drop, `shared` says the same of the
   receiver. The last four fields are histories: values accepted and delivered in lock order, values passed to
   `send`, and values handed back in a `SendError`.
   */
  datatype Machine = Machine(
    fields: Fields, capacity: nat, owner: Owner, live: set<Handle>, shared: bool,
    tx: seq<TxPc>, rx: seq<RxPc>,
    accepted: seq<Value>, delivered: seq<Value>, offered: seq<Value>, returned: seq<Value>)

  ghost predicate Init(m: Machine) {
    && m.fields == Fields([], 1, true)
    && m.owner == Free
    && |m.live| == 1 && m.shared
    && (forall i :: 0 <= i < |m.tx| ==> m.tx[i] == Idle)
    && (forall j :: 0 <= j < |m.rx| ==> m.rx[j] == RxIdle)
    && m.accepted == [] && m.delivered == []
    && m.offered == [] && m.returned == []
  }

  datatype Step =
    | CallSend(i: nat, h: Handle, v: Value)
    | CallClone(i: nat, h: Handle)
    | CallDrop(i: nat, h: Handle)
    | TxLock(i: nat)
    | TxBody(i: nat, clone: Handle)
    | TxUnlock(i: nat)
    | TxSignal(i: nat, woken: nat)
    | TxSpurious(i: nat)
    | CallRecv(j: nat)
    | CallTryRecv(j: nat)
    | CallRxDrop(j: nat)
    | RxLock(j: nat)
    | RxBody(j: nat)
    | RxUnlock(j: nat)
    | RxSignal(j: nat, woken: nat)
    | RxSpurious(j: nat)

  predicate Uses(pc: TxPc, h: Handle) {
    match pc
    case SendLock(g, _) => g == h
    case SendBody(g, _, _) => g == h
    case SendQueued(g) => g == h
    case SendNotify(g) => g == h
    case SendRefused(g, _) => g == h
    case SendAsleep(g, _) => g == h
    case SendWoken(g, _) => g == h
    case CloneLock(g) => g == h
    case CloneBody(g) => g == h
    case CloneDone(g) => g == h
    case _ => false
  }

  predicate WantsLock(pc: TxPc) {
    pc.SendLock? || pc.SendWoken? || pc.CloneLock? || pc.DropLock?
  }

  predicate AtBody(pc: TxPc) {
    pc.SendBody? || pc.CloneBody? || pc.DropBody?
  }

  predicate AtUnlock(pc: TxPc) {
    pc.SendQueued? || pc.SendRefused? || pc.CloneDone? || pc.DropDone?
  }

  predicate AtSignal(pc: TxPc) {
    pc.SendNotify? || pc.DropNotify?
  }

  predicate RxDropping(pc: RxPc) {
    pc.RxDropLock? || pc.RxDropBody? || pc.RxDropDone? || pc.RxDropNotify?
  }

  /** A call of `recv` or `try_recv`, which borrows the receiver. */
  predicate RxUses(pc: RxPc) {
    !pc.RxIdle? && !RxDropping(pc)
  }

  predicate RxWantsLock(pc: RxPc) {
    pc.RecvLock? || pc.RecvWoken? || pc.TryLock? || pc.RxDropLock?
  }

  predicate RxAtBody(pc: RxPc) {
    pc.RecvBody? || pc.TryBody? || pc.RxDropBody?
  }

  predicate RxAtUnlock(pc: RxPc) {
    pc.RecvPopped? || pc.RecvFailed? || pc.TryEmpty? || pc.RxDropDone?
  }

  predicate RxAtSignal(pc: RxPc) {
    pc.RecvNotify? || pc.RxDropNotify?
  }

  predicate SomeSenderAsleep(m: Machine) {
    exists i :: 0 <= i < |m.tx| && m.tx[i].SendAsleep?
  }

  predicate SomeReceiverAsleep(m: Machine) {
    exists j :: 0 <= j < |m.rx| && m.rx[j].RecvAsleep?
  }

  predicate Enabled(m: Machine, s: Step) {
    match s
    case CallSend(i, h, _) => i < |m.tx| && m.tx[i].Idle? && h in m.live
    case CallClone(i, h) => i < |m.tx| && m.tx[i].Idle? && h in m.live
    // A handle can only be dropped when no call borrows it.
    case CallDrop(i, h) =>
      && i < |m.tx| && m.tx[i].Idle? && h in m.live
      && forall k :: 0 <= k < |m.tx| ==> !Uses(m.tx[k], h)
    case TxLock(i) => i < |m.tx| && WantsLock(m.tx[i]) && m.owner == Free
    case TxBody(i, clone) => i < |m.tx| && AtBody(m.tx[i]) && clone !in m.live
    case TxUnlock(i) => i < |m.tx| && AtUnlock(m.tx[i])
    // `notify_one` wakes a blocked thread if there is one, and does nothing otherwise.
    case TxSignal(i, woken) =>
      && i < |m.tx| && AtSignal(m.tx[i])
      && (m.tx[i].SendNotify? && SomeReceiverAsleep(m) ==> woken < |m.rx| && m.rx[woken].RecvAsleep?)
    case TxSpurious(i) => i < |m.tx| && m.tx[i].SendAsleep?
    case CallRecv(j) => j < |m.rx| && m.rx[j].RxIdle? && m.shared
    case CallTryRecv(j) => j < |m.rx| && m.rx[j].RxIdle? && m.shared
    // The same holds for the receiver.
    case CallRxDrop(j) =>
      && j < |m.rx| && m.rx[j].RxIdle? && m.shared
      && forall k :: 0 <= k < |m.rx| ==> !RxUses(m.rx[k])
    case RxLock(j) => j < |m.rx| && RxWantsLock(m.rx[j]) && m.owner == Free
    case RxBody(j) => j < |m.rx| && RxAtBody(m.rx[j])
    case RxUnlock(j) => j < |m.rx| && RxAtUnlock(m.rx[j])
    case RxSignal(j, woken) =>
      && j < |m.rx| && RxAtSignal(m.rx[j])
      && (m.rx[j].RecvNotify? && SomeSenderAsleep(m) ==> woken < |m.tx| && m.tx[woken].SendAsleep?)
    case RxSpurious(j) => j < |m.rx| && m.rx[j].RecvAsleep?
  }

  function Acquired(pc: TxPc): TxPc {
    match pc
    case SendLock(h, v) => SendBody(h, v, false)
    case SendWoken(h, v) => SendBody(h, v, true)
    case CloneLock(h) => CloneBody(h)
    case DropLock => DropBody
    case _ => pc
  }

  function RxAcquired(pc: RxPc): RxPc {
    match pc
    case RecvLock => RecvBody(false)
    case RecvWoken => RecvBody(true)
    case TryLock => TryBody
    case RxDropLock => RxDropBody
    case _ => pc
  }

  function Wake(pc: TxPc): TxPc {
    if pc.SendAsleep? then SendWoken(pc.h, pc.v) else pc
  }

  /** `pthread_cond_broadcast` on `on_recv`: every sleeping sender wakes. */
  function WakeAll(tx: seq<TxPc>): (woken: seq<TxPc>)
    ensures |woken| == |tx|
    ensures forall i :: 0 <= i < |tx| ==> woken[i] == Wake(tx[i])
  {
    seq(|tx|, i requires 0 <= i < |tx| => Wake(tx[i]))
  }

  function RxWake(pc: RxPc): RxPc {
    if pc.RecvAsleep? then RecvWoken else pc
  }

  function RxWakeAll(rx: seq<RxPc>): (woken: seq<RxPc>)
    ensures |woken| == |rx|
    ensures forall j :: 0 <= j < |rx| ==> woken[j] == RxWake(rx[j])
  {
    seq(|rx|, j requires 0 <= j < |rx| => RxWake(rx[j]))
  }

  /** `notify_one` aimed at a thread. */
  function WakeAt(tx: seq<TxPc>, i: nat): (woken: seq<TxPc>)
    ensures |woken| == |tx|
  {
    if i < |tx| then tx[i := Wake(tx[i])] else tx
  }

  function RxWakeAt(rx: seq<RxPc>, j: nat): (woken: seq<RxPc>)
    ensures |woken| == |rx|
  {
    if j < |rx| then rx[j := RxWake(rx[j])] else rx
  }

  /** The critical section of the sender-side thread `i`. */
  function TxCritical(m: Machine, i: nat, clone: Handle): Machine
    requires Enabled(m, TxBody(i, clone))
  {
    match m.tx[i]
    case SendBody(h, v, _) =>
      var (verdict, after) := SendTurn(m.fields, m.capacity, v);
      (match verdict
       case Refused => m.(tx := m.tx[i := SendRefused(h, v)])
       case Queued => m.(fields := after, tx := m.tx[i := SendQueued(h)], accepted := m.accepted + [v])
       // `wait` releases the mutex and blocks in one step.
       case MustWait => m.(tx := m.tx[i := SendAsleep(h, v)], owner := Free))
    case CloneBody(h) =>
      m.(fields := CloneTurn(m.fields), live := m.live + {clone}, tx := m.tx[i := CloneDone(h)])
    case DropBody =>
      var (after, last) := DropTurn(m.fields);
      m.(fields := after, tx := m.tx[i := DropDone(last)])
    case _ => m
  }

  /** The critical section of the receiver-side thread `j`. */
  function RxCritical(m: Machine, j: nat): Machine
    requires Enabled(m, RxBody(j))
  {
    if m.rx[j].RxDropBody? then m.(fields := CloseTurn(m.fields), rx := m.rx[j := RxDropDone])
    else
      var (verdict, after) := RecvTurn(m.fields);
      match verdict
      case Popped(v) => m.(fields := after, rx := m.rx[j := RecvPopped], delivered := m.delivered + [v])
      case _ =>
        if m.rx[j].TryBody? then m.(rx := m.rx[j := TryEmpty])
        else if verdict.Disconnected? then m.(rx := m.rx[j := RecvFailed])
        else m.(rx := m.rx[j := RecvAsleep], owner := Free)
  }

  function Unlocked(pc: TxPc): TxPc {
    match pc
    case SendQueued(h) => SendNotify(h)
    case DropDone(last) => if last then DropNotify else Idle
    case _ => Idle
  }

  function RxUnlocked(pc: RxPc): RxPc {
    match pc
    case RecvPopped => RecvNotify
    case RxDropDone => RxDropNotify
    case _ => RxIdle
  }

  function Apply(m: Machine, s: Step): Machine
    requires Enabled(m, s)
  {
    match s
    case CallSend(i, h, v) => m.(tx := m.tx[i := SendLock(h, v)], offered := m.offered + [v])
    case CallClone(i, h) => m.(tx := m.tx[i := CloneLock(h)])
    case CallDrop(i, h) => m.(tx := m.tx[i := DropLock], live := m.live - {h})
    case TxLock(i) => m.(tx := m.tx[i := Acquired(m.tx[i])], owner := Tx(i))
    case TxBody(i, clone) => TxCritical(m, i, clone)
    case TxUnlock(i) =>
      m.(tx := m.tx[i := Unlocked(m.tx[i])], owner := Free,
         returned := if m.tx[i].SendRefused? then m.returned + [m.tx[i].v] else m.returned)
    case TxSignal(i, woken) =>
      m.(tx := m.tx[i := Idle], rx := if m.tx[i].DropNotify? then RxWakeAll(m.rx) else RxWakeAt(m.rx, woken))
    case TxSpurious(i) => m.(tx := m.tx[i := Wake(m.tx[i])])
    case CallRecv(j) => m.(rx := m.rx[j := RecvLock])
    case CallTryRecv(j) => m.(rx := m.rx[j := TryLock])
    case CallRxDrop(j) => m.(rx := m.rx[j := RxDropLock], shared := false)
    case RxLock(j) => m.(rx := m.rx[j := RxAcquired(m.rx[j])], owner := Rx(j))
    case RxBody(j) => RxCritical(m, j)
    case RxUnlock(j) => m.(rx := m.rx[j := RxUnlocked(m.rx[j])], owner := Free)
    case RxSignal(j, woken) =>
      m.(rx := m.rx[j := RxIdle], tx := if m.rx[j].RxDropNotify? then WakeAll(m.tx) else WakeAt(m.tx, woken))
    case RxSpurious(j) => m.(rx := m.rx[j := RxWake(m.rx[j])])
  }

  ghost predicate StepAt(run: seq<Machine>, k: nat)
    requires k + 1 < |run|
  {
    exists s :: Enabled(run[k], s) && run[k + 1] == Apply(run[k], s)
  }

  /** A finite run of the machine from an initial state. */
  ghost predicate IsRun(run: seq<Machine>) {
    && |run| > 0
    && Init(run[0])
    && forall k :: 0 <= k < |run| - 1 ==> StepAt(run, k)
  }

  lemma RunStep(run: seq<Machine>, k: nat) returns (s: Step)
    requires IsRun(run) && k + 1 < |run|
    ensures Enabled(run[k], s) && run[k + 1] == Apply(run[k], s)
  {
    hide Apply, Enabled, Init;
    assert StepAt(run, k);
    s :| Enabled(run[k], s) && run[k + 1] == Apply(run[k], s);
  }

  // ---- What every step keeps ----

  predicate HoldsLock(pc: TxPc) {
    AtBody(pc) || AtUnlock(pc)
  }

  predicate RxHoldsLock(pc: RxPc) {
    RxAtBody(pc) || RxAtUnlock(pc)
  }

  /** At most one thread is in a critical section, and it is the owner. */
  ghost predicate LockInv(m: Machine) {
    && (forall i :: 0 <= i < |m.tx| ==> (HoldsLock(m.tx[i]) <==> m.owner == Tx(i)))
    && (forall j :: 0 <= j < |m.rx| ==> (RxHoldsLock(m.rx[j]) <==> m.owner == Rx(j)))
    && (m.owner.Tx? ==> m.owner.i < |m.tx|)
    && (m.owner.Rx? ==> m.owner.j < |m.rx|)
  }

  function DropPending(pc: TxPc): nat { if pc.DropLock? || pc.DropBody? then 1 else 0 }

  function RxDropPending(pc: RxPc): nat { if pc.RxDropLock? || pc.RxDropBody? then 1 else 0 }

  /** A call borrows a handle, or the receiver, that nobody has started to drop. */
  ghost predicate BorrowInv(m: Machine) {
    && (forall i, h :: 0 <= i < |m.tx| && Uses(m.tx[i], h) ==> h in m.live)
    && (forall j :: 0 <= j < |m.rx| && RxUses(m.rx[j]) ==> m.shared)
  }

  /** `senders` counts the live handles and those whose drop has not yet taken effect. */
  ghost predicate HandleInv(m: Machine) {
    m.fields.senders == |m.live| + Sum(m.tx, DropPending)
  }

  function One(b: bool): nat { if b then 1 else 0 }

  /** The receiver exists until its one drop takes effect. */
  ghost predicate ReceiverInv(m: Machine) {
    One(m.fields.receiver) == One(m.shared) + Sum(m.rx, RxDropPending)
  }

  /** First in, first out, nothing lost, and never more than `capacity` waiting. */
  ghost predicate QueueInv(m: Machine) {
    && |m.fields.queue| <= m.capacity
    && m.accepted == m.delivered + m.fields.queue
  }

  function Count(s: seq<Value>, x: Value): nat {
    if |s| == 0 then 0 else Count(s[..|s| - 1], x) + if s[|s| - 1] == x then 1 else 0
  }

  predicate Carries(pc: TxPc, x: Value) {
    match pc
    case SendLock(_, v) => v == x
    case SendBody(_, v, _) => v == x
    case SendRefused(_, v) => v == x
    case SendAsleep(_, v) => v == x
    case SendWoken(_, v) => v == x
    case _ => false
  }

  /** How many `send` calls hold a copy of `x` that is neither accepted nor handed back. */
  function InFlight(tx: seq<TxPc>, x: Value): nat {
    if |tx| == 0 then 0
    else InFlight(tx[..|tx| - 1], x) + if Carries(tx[|tx| - 1], x) then 1 else 0
  }

  /** Every value passed to `send` is accepted once, handed back once, or still in its call. */
  ghost predicate ValueInv(m: Machine) {
    forall x :: Count(m.offered, x) == Count(m.accepted, x) + Count(m.returned, x) + InFlight(m.tx, x)
  }

  function PushOwed(pc: TxPc): nat { if pc.SendQueued? || pc.SendNotify? then 1 else 0 }

  function LastDropOwed(pc: TxPc): nat { if pc == DropDone(true) || pc.DropNotify? then 1 else 0 }

  function Rechecking(pc: TxPc): nat { if pc.SendWoken? || (pc.SendBody? && pc.again) then 1 else 0 }

  function PopOwed(pc: RxPc): nat { if pc.RecvPopped? || pc.RecvNotify? then 1 else 0 }

  function RxDropOwed(pc: RxPc): nat { if pc.RxDropDone? || pc.RxDropNotify? then 1 else 0 }

  function RxRechecking(pc: RxPc): nat { if pc.RecvWoken? || (pc.RecvBody? && pc.again) then 1 else 0 }

  /** A sleeping sender: every free slot has a notification or a woken sender on its way to it. */
  ghost predicate SenderWakeInv(m: Machine) {
    SomeSenderAsleep(m) ==>
      if m.fields.receiver then m.capacity - |m.fields.queue| <= Sum(m.rx, PopOwed) + Sum(m.tx, Rechecking)
      else Sum(m.rx, RxDropOwed) > 0
  }

  /**
   A sleeping receiver: every queued item has a notification or a woken receiver on its way to it, and the last
   sender's departure has its broadcast owed.
   */
  ghost predicate ReceiverWakeInv(m: Machine) {
    SomeReceiverAsleep(m) ==>
      && |m.fields.queue| <= Sum(m.tx, PushOwed) + Sum(m.rx, RxRechecking)
      && (m.fields.senders == 0 ==> Sum(m.tx, LastDropOwed) > 0)
  }

  ghost predicate Inv(m: Machine) {
    && LockInv(m) && BorrowInv(m) && HandleInv(m) && ReceiverInv(m) && QueueInv(m) && ValueInv(m)
    && SenderWakeInv(m) && ReceiverWakeInv(m)
  }

  lemma CountAppend(s: seq<Value>, v: Value, x: Value)
    ensures Count(s + [v], x) == Count(s, x) + if v == x then 1 else 0
  {
    assert (s + [v])[..|s|] == s;
  }

  lemma {:induction false} InFlightUpdate(tx: seq<TxPc>, i: nat, pc: TxPc, x: Value)
    requires i < |tx|
    ensures InFlight(tx[i := pc], x) + (if Carries(tx[i], x) then 1 else 0)
         == InFlight(tx, x) + (if Carries(pc, x) then 1 else 0)
  {
    var last := |tx| - 1;
    if i == last {
      assert tx[i := pc][..last] == tx[..last];
    } else {
      InFlightUpdate(tx[..last], i, pc, x);
      assert tx[i := pc][..last] == tx[..last][i := pc];
    }
  }

  lemma {:induction false} InFlightCongruent(tx: seq<TxPc>, tx': seq<TxPc>, x: Value)
    requires |tx| == |tx'|
    requires forall i :: 0 <= i < |tx| ==> (Carries(tx[i], x) <==> Carries(tx'[i], x))
    ensures InFlight(tx, x) == InFlight(tx', x)
  {
    if |tx| == 0 {
    } else {
      InFlightCongruent(tx[..|tx| - 1], tx'[..|tx| - 1], x);
    }
  }

  lemma {:induction false} NothingInFlight(tx: seq<TxPc>, x: Value)
    requires forall i :: 0 <= i < |tx| ==> tx[i] == Idle
    ensures InFlight(tx, x) == 0
  {
    if |tx| == 0 {
    } else {
      NothingInFlight(tx[..|tx| - 1], x);
    }
  }

  lemma InitInv(m: Machine)
    requires Init(m)
    ensures Inv(m)
  {
    SumZero(m.tx, DropPending);
    SumZero(m.rx, RxDropPending);
    forall x {
      NothingInFlight(m.tx, x);
    }
  }

  /** A step of a sender-side thread. */
  predicate OnTx(s: Step) {
    s.CallSend? || s.CallClone? || s.CallDrop? || s.TxLock? || s.TxBody? || s.TxUnlock? || s.TxSignal? || s.TxSpurious?
  }

  /** Such a step moves its thread, and the other side only by waking. */
  lemma TxEffect(m: Machine, s: Step)
    requires Enabled(m, s) && OnTx(s)
    ensures var m' := Apply(m, s);
      && s.i < |m.tx| && |m'.tx| == |m.tx| && m'.tx == m.tx[s.i := m'.tx[s.i]]
      && |m'.rx| == |m.rx| && m'.shared == m.shared
      && (forall j :: 0 <= j < |m.rx| ==> m'.rx[j] == m.rx[j] || m'.rx[j] == RxWake(m.rx[j]))
      && (!s.TxSignal? ==> m'.rx == m.rx)
  {
  }

  lemma RxEffect(m: Machine, s: Step)
    requires Enabled(m, s) && !OnTx(s)
    ensures var m' := Apply(m, s);
      && s.j < |m.rx| && |m'.rx| == |m.rx| && m'.rx == m.rx[s.j := m'.rx[s.j]]
      && |m'.tx| == |m.tx| && m'.live == m.live && m'.fields.senders == m.fields.senders
      && (forall i :: 0 <= i < |m.tx| ==> m'.tx[i] == m.tx[i] || m'.tx[i] == Wake(m.tx[i]))
      && (!s.RxSignal? ==> m'.tx == m.tx)
  {
  }

  /** Waking changes no count but that of threads about to recheck. */
  lemma WakingLeavesRx(rx: seq<RxPc>, rx': seq<RxPc>)
    requires |rx'| == |rx| && forall j :: 0 <= j < |rx| ==> rx'[j] == rx[j] || rx'[j] == RxWake(rx[j])
    ensures Sum(rx', RxDropPending) == Sum(rx, RxDropPending)
    ensures Sum(rx', PopOwed) == Sum(rx, PopOwed)
    ensures Sum(rx', RxDropOwed) == Sum(rx, RxDropOwed)
  {
    SumCongruent(rx', rx, RxDropPending);
    SumCongruent(rx', rx, PopOwed);
    SumCongruent(rx', rx, RxDropOwed);
  }

  lemma WakingLeavesTx(tx: seq<TxPc>, tx': seq<TxPc>)
    requires |tx'| == |tx| && forall i :: 0 <= i < |tx| ==> tx'[i] == tx[i] || tx'[i] == Wake(tx[i])
    ensures Sum(tx', DropPending) == Sum(tx, DropPending)
    ensures Sum(tx', PushOwed) == Sum(tx, PushOwed)
    ensures Sum(tx', LastDropOwed) == Sum(tx, LastDropOwed)
  {
    SumCongruent(tx', tx, DropPending);
    SumCongruent(tx', tx, PushOwed);
    SumCongruent(tx', tx, LastDropOwed);
  }

  /** What replacing one thread does to the counts of its side. */
  lemma Move(tx: seq<TxPc>, i: nat, pc: TxPc)
    requires i < |tx|
    ensures Sum(tx[i := pc], DropPending) + DropPending(tx[i]) == Sum(tx, DropPending) + DropPending(pc)
    ensures Sum(tx[i := pc], PushOwed) + PushOwed(tx[i]) == Sum(tx, PushOwed) + PushOwed(pc)
    ensures Sum(tx[i := pc], LastDropOwed) + LastDropOwed(tx[i]) == Sum(tx, LastDropOwed) + LastDropOwed(pc)
    ensures Sum(tx[i := pc], Rechecking) + Rechecking(tx[i]) == Sum(tx, Rechecking) + Rechecking(pc)
  {
    SumUpdate(tx, DropPending, i, pc);
    SumUpdate(tx, PushOwed, i, pc);
    SumUpdate(tx, LastDropOwed, i, pc);
    SumUpdate(tx, Rechecking, i, pc);
  }

  lemma RxMove(rx: seq<RxPc>, j: nat, pc: RxPc)
    requires j < |rx|
    ensures Sum(rx[j := pc], RxDropPending) + RxDropPending(rx[j]) == Sum(rx, RxDropPending) + RxDropPending(pc)
    ensures Sum(rx[j := pc], PopOwed) + PopOwed(rx[j]) == Sum(rx, PopOwed) + PopOwed(pc)
    ensures Sum(rx[j := pc], RxDropOwed) + RxDropOwed(rx[j]) == Sum(rx, RxDropOwed) + RxDropOwed(pc)
    ensures Sum(rx[j := pc], RxRechecking) + RxRechecking(rx[j]) == Sum(rx, RxRechecking) + RxRechecking(pc)
  {
    SumUpdate(rx, RxDropPending, j, pc);
    SumUpdate(rx, PopOwed, j, pc);
    SumUpdate(rx, RxDropOwed, j, pc);
    SumUpdate(rx, RxRechecking, j, pc);
  }

  lemma TxStepKeepsLock(m: Machine, s: Step)
    requires LockInv(m) && Enabled(m, s) && OnTx(s)
    ensures LockInv(Apply(m, s))
  {
    hide SomeReceiverAsleep;
    TxEffect(m, s);
    var i, m' := s.i, Apply(m, s);
    assert HoldsLock(m.tx[i]) <==> m.owner == Tx(i);
    assert HoldsLock(m'.tx[i]) <==> m'.owner == Tx(i);
  }

  lemma RxStepKeepsLock(m: Machine, s: Step)
    requires LockInv(m) && Enabled(m, s) && !OnTx(s)
    ensures LockInv(Apply(m, s))
  {
    hide SomeSenderAsleep;
    RxEffect(m, s);
    var j, m' := s.j, Apply(m, s);
    assert RxHoldsLock(m.rx[j]) <==> m.owner == Rx(j);
    assert RxHoldsLock(m'.rx[j]) <==> m'.owner == Rx(j);
  }

  lemma StepKeepsLock(m: Machine, s: Step)
    requires LockInv(m) && Enabled(m, s)
    ensures LockInv(Apply(m, s))
  {
    hide Apply, Enabled, LockInv;
    if OnTx(s) {
      TxStepKeepsLock(m, s);
    } else {
      RxStepKeepsLock(m, s);
    }
  }

  lemma TxStepKeepsBorrows(m: Machine, s: Step)
    requires BorrowInv(m) && Enabled(m, s) && OnTx(s)
    ensures BorrowInv(Apply(m, s))
  {
    hide SomeReceiverAsleep;
    TxEffect(m, s);
  }

  lemma RxStepKeepsBorrows(m: Machine, s: Step)
    requires BorrowInv(m) && Enabled(m, s) && !OnTx(s)
    ensures BorrowInv(Apply(m, s))
  {
    hide SomeSenderAsleep;
    RxEffect(m, s);
  }

  lemma StepKeepsBorrows(m: Machine, s: Step)
    requires BorrowInv(m) && Enabled(m, s)
    ensures BorrowInv(Apply(m, s))
  {
    hide Apply, Enabled, BorrowInv;
    if OnTx(s) {
      TxStepKeepsBorrows(m, s);
    } else {
      RxStepKeepsBorrows(m, s);
    }
  }

  lemma TxStepKeepsHandles(m: Machine, s: Step)
    requires HandleInv(m) && Enabled(m, s) && OnTx(s)
    ensures HandleInv(Apply(m, s))
  {
    hide Sum, SomeReceiverAsleep;
    TxEffect(m, s);
    SumUpdate(m.tx, DropPending, s.i, Apply(m, s).tx[s.i]);
    SumAtLeast(m.tx, DropPending, s.i);
    if s.CallDrop? {
      assert m.live == (m.live - {s.h}) + {s.h};
    }
  }

  lemma StepKeepsHandles(m: Machine, s: Step)
    requires HandleInv(m) && Enabled(m, s)
    ensures HandleInv(Apply(m, s))
  {
    hide Sum, Apply, Enabled;
    if OnTx(s) {
      TxStepKeepsHandles(m, s);
    } else {
      RxEffect(m, s);
      WakingLeavesTx(m.tx, Apply(m, s).tx);
    }
  }

  lemma RxStepKeepsReceiver(m: Machine, s: Step)
    requires ReceiverInv(m) && Enabled(m, s) && !OnTx(s)
    ensures ReceiverInv(Apply(m, s))
  {
    hide Sum, SomeSenderAsleep;
    RxEffect(m, s);
    SumUpdate(m.rx, RxDropPending, s.j, Apply(m, s).rx[s.j]);
    SumAtLeast(m.rx, RxDropPending, s.j);
  }

  lemma TxStepKeepsReceiver(m: Machine, s: Step)
    requires ReceiverInv(m) && Enabled(m, s) && OnTx(s)
    ensures ReceiverInv(Apply(m, s))
  {
    hide Sum, SomeReceiverAsleep;
    TxEffect(m, s);
    WakingLeavesRx(m.rx, Apply(m, s).rx);
  }

  lemma StepKeepsReceiver(m: Machine, s: Step)
    requires ReceiverInv(m) && Enabled(m, s)
    ensures ReceiverInv(Apply(m, s))
  {
    hide Apply, Enabled, ReceiverInv;
    if OnTx(s) {
      TxStepKeepsReceiver(m, s);
    } else {
      RxStepKeepsReceiver(m, s);
    }
  }

  lemma StepKeepsQueue(m: Machine, s: Step)
    requires QueueInv(m) && Enabled(m, s)
    ensures QueueInv(Apply(m, s))
  {
    hide SomeReceiverAsleep, SomeSenderAsleep;
  }

  lemma TxStepKeepsValueCount(m: Machine, s: Step, x: Value)
    requires Enabled(m, s) && OnTx(s)
    requires Count(m.offered, x) == Count(m.accepted, x) + Count(m.returned, x) + InFlight(m.tx, x)
    ensures var m' := Apply(m, s);
      Count(m'.offered, x) == Count(m'.accepted, x) + Count(m'.returned, x) + InFlight(m'.tx, x)
  {
    hide Count, InFlight, SomeReceiverAsleep;
    var m' := Apply(m, s);
    TxEffect(m, s);
    InFlightUpdate(m.tx, s.i, m'.tx[s.i], x);
    match s {
      case CallSend(_, _, v) => CountAppend(m.offered, v, x);
      case TxBody(i, _) => if m'.tx[i].SendQueued? { CountAppend(m.accepted, m.tx[i].v, x); }
      case TxUnlock(i) => if m.tx[i].SendRefused? { CountAppend(m.returned, m.tx[i].v, x); }
      case _ =>
    }
  }

  lemma RxStepKeepsValueCount(m: Machine, s: Step, x: Value)
    requires Enabled(m, s) && !OnTx(s)
    ensures var m' := Apply(m, s);
      && m'.offered == m.offered && m'.accepted == m.accepted && m'.returned == m.returned
      && InFlight(m'.tx, x) == InFlight(m.tx, x)
  {
    hide InFlight, SomeSenderAsleep;
    RxEffect(m, s);
    InFlightCongruent(m.tx, Apply(m, s).tx, x);
  }

  lemma StepKeepsValues(m: Machine, s: Step)
    requires ValueInv(m) && Enabled(m, s)
    ensures ValueInv(Apply(m, s))
  {
    hide Apply, Enabled, Count, InFlight;
    var m' := Apply(m, s);
    forall x ensures Count(m'.offered, x) == Count(m'.accepted, x) + Count(m'.returned, x) + InFlight(m'.tx, x) {
      if OnTx(s) {
        TxStepKeepsValueCount(m, s, x);
      } else {
        RxStepKeepsValueCount(m, s, x);
      }
    }
  }

  lemma TxStepKeepsSenderWake(m: Machine, s: Step)
    requires Inv(m) && Enabled(m, s) && OnTx(s)
    ensures SenderWakeInv(Apply(m, s))
  {
    hide Sum, ValueInv, ReceiverWakeInv, LockInv, SomeReceiverAsleep;
    var m' := Apply(m, s);
    TxEffect(m, s);
    Move(m.tx, s.i, m'.tx[s.i]);
    WakingLeavesRx(m.rx, m'.rx);
  }

  lemma RxStepKeepsSenderWake(m: Machine, s: Step)
    requires Inv(m) && Enabled(m, s) && !OnTx(s)
    ensures SenderWakeInv(Apply(m, s))
  {
    hide Sum, ValueInv, ReceiverWakeInv, LockInv;
    var m' := Apply(m, s);
    RxEffect(m, s);
    RxMove(m.rx, s.j, m'.rx[s.j]);
    SumAtLeast(m.rx, RxDropPending, s.j);
    if s.RxSignal? && m.rx[s.j].RecvNotify? && s.woken < |m.tx| {
      Move(m.tx, s.woken, Wake(m.tx[s.woken]));
    }
  }

  lemma StepKeepsSenderWake(m: Machine, s: Step)
    requires Inv(m) && Enabled(m, s)
    ensures SenderWakeInv(Apply(m, s))
  {
    hide Apply, Enabled, Inv, SenderWakeInv;
    if OnTx(s) {
      TxStepKeepsSenderWake(m, s);
    } else {
      RxStepKeepsSenderWake(m, s);
    }
  }

  lemma TxStepKeepsReceiverWake(m: Machine, s: Step)
    requires Inv(m) && Enabled(m, s) && OnTx(s)
    ensures ReceiverWakeInv(Apply(m, s))
  {
    hide Sum, ValueInv, SenderWakeInv, LockInv;
    var m' := Apply(m, s);
    TxEffect(m, s);
    Move(m.tx, s.i, m'.tx[s.i]);
    SumAtLeast(m.tx, DropPending, s.i);
    if s.TxSignal? && m.tx[s.i].SendNotify? && s.woken < |m.rx| {
      RxMove(m.rx, s.woken, RxWake(m.rx[s.woken]));
    }
  }

  lemma RxStepKeepsReceiverWake(m: Machine, s: Step)
    requires Inv(m) && Enabled(m, s) && !OnTx(s)
    ensures ReceiverWakeInv(Apply(m, s))
  {
    hide Sum, ValueInv, SenderWakeInv, LockInv, SomeSenderAsleep;
    var m' := Apply(m, s);
    RxEffect(m, s);
    RxMove(m.rx, s.j, m'.rx[s.j]);
    WakingLeavesTx(m.tx, m'.tx);
  }

  lemma StepKeepsReceiverWake(m: Machine, s: Step)
    requires Inv(m) && Enabled(m, s)
    ensures ReceiverWakeInv(Apply(m, s))
  {
    hide Apply, Enabled, Inv, ReceiverWakeInv;
    if OnTx(s) {
      TxStepKeepsReceiverWake(m, s);
    } else {
      RxStepKeepsReceiverWake(m, s);
    }
  }

  lemma StepKeepsInv(m: Machine, s: Step)
    requires Inv(m) && Enabled(m, s)
    ensures Inv(Apply(m, s))
  {
    StepKeepsLock(m, s);
    StepKeepsBorrows(m, s);
    StepKeepsHandles(m, s);
    StepKeepsReceiver(m, s);
    StepKeepsQueue(m, s);
    StepKeepsValues(m, s);
    StepKeepsSenderWake(m, s);
    StepKeepsReceiverWake(m, s);
    hide Apply, Enabled, LockInv, BorrowInv, HandleInv, ReceiverInv, QueueInv, ValueInv, SenderWakeInv, ReceiverWakeInv;
  }

  /** Every state of every run satisfies the invariant. */
  lemma {:induction false} RunKeepsInv(run: seq<Machine>, k: nat)
    requires IsRun(run) && k < |run|
    ensures Inv(run[k])
  {
    if k == 0 {
      InitInv(run[0]);
    } else {
      hide Apply, Enabled, Inv;
      RunKeepsInv(run, k - 1);
      var s := RunStep(run, k - 1);
      StepKeepsInv(run[k - 1], s);
    }
  }

  // ---- Delivery and disconnection ----

  /** Decrementing `senders` never underflows: whoever drops a handle finds itself counted. */
  lemma SendersNeverUnderflow(m: Machine, i: nat)
    requires Inv(m) && i < |m.tx| && m.tx[i].DropBody?
    ensures m.fields.senders > 0
  {
    SumAtLeast(m.tx, DropPending, i);
  }

  /** A `send` is refused exactly when the receiver is gone, and waits exactly when it lives and the queue is full. */
  lemma SendOutcome(m: Machine, i: nat, clone: Handle)
    requires Inv(m) && i < |m.tx| && m.tx[i].SendBody? && Enabled(m, TxBody(i, clone))
    ensures var m', pc := Apply(m, TxBody(i, clone)), m.tx[i];
      && (m'.tx[i] == SendRefused(pc.h, pc.v) <==> !m.fields.receiver)
      && (m'.tx[i] == SendAsleep(pc.h, pc.v) <==> m.fields.receiver && |m.fields.queue| == m.capacity)
      && (m'.tx[i] == SendQueued(pc.h) <==> m.fields.receiver && |m.fields.queue| < m.capacity)
      && m'.accepted == (if m'.tx[i].SendQueued? then m.accepted + [pc.v] else m.accepted)
  {
    hide Sum, ValueInv, SenderWakeInv, ReceiverWakeInv, LockInv, BorrowInv, HandleInv, ReceiverInv;
  }

  /** A value goes back to its sender only once there is no receiver. */
  ghost predicate RefusalInv(m: Machine) {
    && (forall i :: 0 <= i < |m.tx| && m.tx[i].SendRefused? ==> !m.fields.receiver)
    && (m.returned != [] ==> !m.fields.receiver)
  }

  lemma ReceiverStaysGone(m: Machine, s: Step)
    requires Enabled(m, s) && !m.fields.receiver
    ensures !Apply(m, s).fields.receiver
  {
    hide SomeSenderAsleep, SomeReceiverAsleep;
  }

  lemma TxStepKeepsRefusals(m: Machine, s: Step)
    requires RefusalInv(m) && Enabled(m, s) && OnTx(s)
    ensures RefusalInv(Apply(m, s))
  {
    hide SomeReceiverAsleep;
    TxEffect(m, s);
  }

  lemma RxStepReturnsNothing(m: Machine, s: Step)
    requires Enabled(m, s) && !OnTx(s)
    ensures Apply(m, s).returned == m.returned
  {
    hide SomeSenderAsleep;
  }

  lemma RxStepKeepsRefusals(m: Machine, s: Step)
    requires RefusalInv(m) && Enabled(m, s) && !OnTx(s)
    ensures RefusalInv(Apply(m, s))
  {
    RxEffect(m, s);
    if !m.fields.receiver {
      ReceiverStaysGone(m, s);
    }
    RxStepReturnsNothing(m, s);
    hide Apply, Enabled;
  }

  /** In every run, `SendError` is only ever answered without a receiver. */
  lemma {:induction false} RefusedOnlyWithoutReceiver(run: seq<Machine>, k: nat)
    requires IsRun(run) && k < |run|
    ensures RefusalInv(run[k])
  {
    hide Apply, Enabled;
    if k == 0 {
    } else {
      hide RefusalInv;
      RefusedOnlyWithoutReceiver(run, k - 1);
      var s := RunStep(run, k - 1);
      if OnTx(s) {
        TxStepKeepsRefusals(run[k - 1], s);
      } else {
        RxStepKeepsRefusals(run[k - 1], s);
      }
    }
  }

  /** What is at the front, if anything is, is delivered and leaves the queue. */
  predicate Takes(m: Machine, m': Machine) {
    if m.fields.queue == [] then m'.delivered == m.delivered && m'.fields.queue == []
    else m'.delivered == m.delivered + [m.fields.queue[0]] && m'.fields.queue == m.fields.queue[1..]
  }

  /** A `recv` takes the front item if there is one, fails without senders, and waits otherwise. */
  lemma RecvOutcome(m: Machine, j: nat)
    requires j < |m.rx| && m.rx[j].RecvBody?
    ensures Enabled(m, RxBody(j))
    ensures var m' := Apply(m, RxBody(j));
      && |m'.rx| == |m.rx|
      && (m'.rx[j] == RecvPopped <==> m.fields.queue != [])
      && (m'.rx[j] == RecvFailed <==> m.fields.queue == [] && m.fields.senders == 0)
      && (m'.rx[j] == RecvAsleep <==> m.fields.queue == [] && m.fields.senders > 0)
      && Takes(m, m')
  {
  }

  /** A `try_recv` takes the front item if there is one, and answers `None` otherwise. */
  lemma TryRecvOutcome(m: Machine, j: nat)
    requires j < |m.rx| && m.rx[j].TryBody?
    ensures Enabled(m, RxBody(j))
    ensures var m' := Apply(m, RxBody(j));
      && |m'.rx| == |m.rx|
      && (m'.rx[j] == RecvPopped <==> m.fields.queue != [])
      && (m'.rx[j] == TryEmpty <==> m.fields.queue == [])
      && Takes(m, m')
  {
  }

  /** `recv` reports disconnection exactly when no handle is left, no drop is pending, and the queue is drained. */
  lemma RecvFailsOnlyWhenDrained(m: Machine, j: nat)
    requires Inv(m) && j < |m.rx| && m.rx[j].RecvBody?
    ensures Apply(m, RxBody(j)).rx[j].RecvFailed? <==>
              m.live == {} && Sum(m.tx, DropPending) == 0 && m.delivered == m.accepted
  {
    assert |m.live| == 0 <==> m.live == {};
  }

  /** Nothing more can ever arrive. */
  ghost predicate Drained(m: Machine) {
    m.fields.senders == 0 && m.fields.queue == []
  }

  lemma BorrowedHandleIsLive(m: Machine, i: nat)
    requires BorrowInv(m) && i < |m.tx| && (m.tx[i].SendBody? || m.tx[i].CloneBody?)
    ensures m.tx[i].h in m.live
  {
    assert Uses(m.tx[i], m.tx[i].h);
  }

  /** The critical section of this `recv` ends in `RecvError` and changes nothing else. */
  predicate WouldFail(m: Machine, j: nat)
    requires j < |m.rx|
  {
    Enabled(m, RxBody(j)) && Apply(m, RxBody(j)) == m.(rx := m.rx[j := RecvFailed])
  }

  lemma RecvFailsWhenDrained(m: Machine, j: nat)
    requires Drained(m) && j < |m.rx| && m.rx[j].RecvBody?
    ensures WouldFail(m, j)
  {
  }

  /** Once drained, drained for good. */
  lemma DrainedIsForever(m: Machine, s: Step)
    requires Inv(m) && Drained(m) && Enabled(m, s)
    ensures Drained(Apply(m, s))
    ensures Apply(m, s).accepted == m.accepted && Apply(m, s).delivered == m.delivered
  {
    hide Sum, ValueInv, SenderWakeInv, ReceiverWakeInv, LockInv, SomeSenderAsleep, SomeReceiverAsleep;
    assert m.live == {};
    if s.TxBody? && !m.tx[s.i].DropBody? {
      BorrowedHandleIsLive(m, s.i);
    }
  }

  /** In a run: once drained, always drained. Nothing is delivered any more, and every `recv` answers the same error. */
  lemma {:induction false} DrainedEverAfter(run: seq<Machine>, k: nat, l: nat)
    requires IsRun(run) && k <= l < |run| && Drained(run[k])
    ensures Drained(run[l]) && run[l].accepted == run[k].accepted && run[l].delivered == run[k].delivered
    ensures forall j: nat :: j < |run[l].rx| && run[l].rx[j].RecvBody? ==> WouldFail(run[l], j)
  {
    hide Apply, Enabled, Inv;
    if k == l {
    } else {
      DrainedEverAfter(run, k, l - 1);
      RunKeepsInv(run, l - 1);
      var s := RunStep(run, l - 1);
      DrainedIsForever(run[l - 1], s);
    }
    forall j: nat | j < |run[l].rx| && run[l].rx[j].RecvBody?
      ensures WouldFail(run[l], j)
    {
      RecvFailsWhenDrained(run[l], j);
    }
  }

  /** After the receiver is gone the queue is frozen: nothing is accepted, nothing delivered. */
  lemma FrozenWithoutReceiver(m: Machine, s: Step)
    requires Inv(m) && !m.fields.receiver && Enabled(m, s)
    ensures var m' := Apply(m, s);
      && !m'.fields.receiver
      && m'.fields.queue == m.fields.queue && m'.accepted == m.accepted && m'.delivered == m.delivered
  {
    hide Sum, ValueInv, SenderWakeInv, ReceiverWakeInv, LockInv, SomeSenderAsleep, SomeReceiverAsleep;
    assert !m.shared;
    if s.RxBody? {
      SumAtLeast(m.rx, RxDropPending, s.j);
    }
  }

  /** In a run: after the receiver's drop the queue it left behind is the queue for ever. */
  lemma {:induction false} FrozenEverAfter(run: seq<Machine>, j: nat, k: nat)
    requires IsRun(run) && j <= k < |run| && !run[j].fields.receiver
    ensures !run[k].fields.receiver && run[k].fields.queue == run[j].fields.queue
    ensures run[k].accepted == run[j].accepted && run[k].delivered == run[j].delivered
  {
    hide Apply, Enabled, Inv;
    if j == k {
    } else {
      FrozenEverAfter(run, j, k - 1);
      RunKeepsInv(run, k - 1);
      var s := RunStep(run, k - 1);
      FrozenWithoutReceiver(run[k - 1], s);
    }
  }

  lemma StepGrowsHistories(m: Machine, s: Step)
    requires Enabled(m, s)
    ensures m.accepted <= Apply(m, s).accepted && m.delivered <= Apply(m, s).delivered
  {
  }

  /** The histories only grow, so the first value accepted is the first delivered in every run. */
  lemma {:induction false} HistoriesGrow(run: seq<Machine>, j: nat, k: nat)
    requires IsRun(run) && j <= k < |run|
    ensures run[j].accepted <= run[k].accepted && run[j].delivered <= run[k].delivered
    ensures run[k].accepted == run[k].delivered + run[k].fields.queue
  {
    hide Apply, Enabled, Sum, InFlight, Count;
    RunKeepsInv(run, k);
    if j == k {
    } else {
      HistoriesGrow(run, j, k - 1);
      var s := RunStep(run, k - 1);
      StepGrowsHistories(run[k - 1], s);
    }
  }

  // ---- No deadlock ----

  predicate Resting(pc: TxPc) { pc.Idle? || pc.SendAsleep? }

  predicate RxResting(pc: RxPc) { pc.RxIdle? || pc.RecvAsleep? }

  /** Nobody is running: every thread is outside a call or asleep on a condition variable. */
  ghost predicate Quiescent(m: Machine) {
    && (forall i :: 0 <= i < |m.tx| ==> Resting(m.tx[i]))
    && (forall j :: 0 <= j < |m.rx| ==> RxResting(m.rx[j]))
  }

  /** A step of a call already under way, other than a spurious wake. */
  predicate Internal(s: Step) {
    s.TxLock? || s.TxBody? || s.TxUnlock? || s.TxSignal? || s.RxLock? || s.RxBody? || s.RxUnlock? || s.RxSignal?
  }

  lemma FreshHandle(live: set<Handle>) returns (h: Handle)
    ensures h !in live
  {
    var bound := 0;
    var rest := live;
    while rest != {}
      invariant rest <= live
      invariant forall g :: g in live && g !in rest ==> g < bound
    {
      var g :| g in rest;
      rest := rest - {g};
      if bound <= g {
        bound := g + 1;
      }
    }
    h := bound;
  }

  lemma SignalOf(m: Machine, i: nat) returns (s: Step)
    requires i < |m.tx| && AtSignal(m.tx[i])
    ensures Internal(s) && Enabled(m, s)
  {
    if SomeReceiverAsleep(m) {
      var j :| 0 <= j < |m.rx| && m.rx[j].RecvAsleep?;
      s := TxSignal(i, j);
    } else {
      s := TxSignal(i, 0);
    }
  }

  lemma RxSignalOf(m: Machine, j: nat) returns (s: Step)
    requires j < |m.rx| && RxAtSignal(m.rx[j])
    ensures Internal(s) && Enabled(m, s)
  {
    if SomeSenderAsleep(m) {
      var i :| 0 <= i < |m.tx| && m.tx[i].SendAsleep?;
      s := RxSignal(j, i);
    } else {
      s := RxSignal(j, 0);
    }
  }

  /** Some thread can always proceed, unless all of them are resting. */
  lemma Progress(m: Machine) returns (s: Step)
    requires Inv(m) && !Quiescent(m)
    ensures Internal(s) && Enabled(m, s)
  {
    match m.owner {
      case Tx(i) =>
        if AtBody(m.tx[i]) {
          var h := FreshHandle(m.live);
          s := TxBody(i, h);
        } else {
          s := TxUnlock(i);
        }
      case Rx(j) =>
        s := if RxAtBody(m.rx[j]) then RxBody(j) else RxUnlock(j);
      case Free =>
        if j :| 0 <= j < |m.rx| && !RxResting(m.rx[j]) {
          if RxWantsLock(m.rx[j]) {
            s := RxLock(j);
          } else {
            s := RxSignalOf(m, j);
          }
        } else {
          var i :| 0 <= i < |m.tx| && !Resting(m.tx[i]);
          if WantsLock(m.tx[i]) {
            s := TxLock(i);
          } else {
            s := SignalOf(m, i);
          }
        }
    }
  }

  /** How many internal steps a thread can still cause, counting the one thread it will wake. */
  function TxWork(pc: TxPc): nat {
    match pc
    case Idle => 0
    case SendLock(_, _) => 13
    case SendBody(_, _, _) => 12
    case SendQueued(_) => 5
    case SendNotify(_) => 4
    case SendRefused(_, _) => 1
    case SendAsleep(_, _) => 10
    case SendWoken(_, _) => 13
    case CloneLock(_) => 3
    case CloneBody(_) => 2
    case CloneDone(_) => 1
    case DropLock => 4
    case DropBody => 3
    case DropDone(last) => if last then 2 else 1
    case DropNotify => 1
  }

  function RxWork(pc: RxPc): nat {
    match pc
    case RxIdle => 0
    case RecvLock => 13
    case RecvBody(_) => 12
    case RecvPopped => 5
    case RecvNotify => 4
    case RecvFailed => 1
    case RecvAsleep => 10
    case RecvWoken => 13
    case TryLock => 13
    case TryBody => 12
    case TryEmpty => 1
    case RxDropLock => 4
    case RxDropBody => 3
    case RxDropDone => 2
    case RxDropNotify => 1
  }

  /** Whether a thread may still broadcast. */
  function Casts(pc: TxPc): nat {
    if pc.DropLock? || pc.DropBody? || pc == DropDone(true) || pc.DropNotify? then 1 else 0
  }

  function RxCasts(pc: RxPc): nat { One(RxDropping(pc)) }

  function Times(a: nat, b: nat): nat { a * b }

  lemma TimesOneMore(a: nat, b: nat)
    ensures Times(a, b + 1) == Times(a, b) + a
  {
  }

  /** A broadcast may wake the whole other side. */
  function Work(m: Machine): nat {
    Sum(m.tx, TxWork) + Sum(m.rx, RxWork)
    + Times(3 * |m.rx|, Sum(m.tx, Casts)) + Times(3 * |m.tx|, Sum(m.rx, RxCasts))
  }

  lemma {:induction false} WakeAllWork(tx: seq<TxPc>)
    ensures Sum(WakeAll(tx), TxWork) <= Sum(tx, TxWork) + 3 * |tx|
  {
    if |tx| == 0 {
    } else {
      WakeAllWork(tx[..|tx| - 1]);
      assert WakeAll(tx)[..|tx| - 1] == WakeAll(tx[..|tx| - 1]);
    }
  }

  lemma {:induction false} RxWakeAllWork(rx: seq<RxPc>)
    ensures Sum(RxWakeAll(rx), RxWork) <= Sum(rx, RxWork) + 3 * |rx|
  {
    if |rx| == 0 {
    } else {
      RxWakeAllWork(rx[..|rx| - 1]);
      assert RxWakeAll(rx)[..|rx| - 1] == RxWakeAll(rx[..|rx| - 1]);
    }
  }

  /** A thread that can no longer broadcast saves the cost of it. */
  lemma CastsSpent(n: nat, before: nat, after: nat)
    requires after == before || after + 1 == before
    ensures Times(n, after) == Times(n, before) - if after == before then 0 else n
  {
    TimesOneMore(n, after);
  }

  lemma TxStepsRunOut(m: Machine, s: Step)
    requires Enabled(m, s) && Internal(s) && OnTx(s)
    ensures Work(Apply(m, s)) < Work(m)
  {
    hide Sum, Times, SomeReceiverAsleep;
    var m' := Apply(m, s);
    TxEffect(m, s);
    SumUpdate(m.tx, TxWork, s.i, m'.tx[s.i]);
    SumUpdate(m.tx, Casts, s.i, m'.tx[s.i]);
    SumCongruent(m'.rx, m.rx, RxCasts);
    CastsSpent(3 * |m.rx|, Sum(m.tx, Casts), Sum(m'.tx, Casts));
    if s.TxSignal? {
      if m.tx[s.i].DropNotify? {
        RxWakeAllWork(m.rx);
      } else if s.woken < |m.rx| {
        SumUpdate(m.rx, RxWork, s.woken, RxWake(m.rx[s.woken]));
      }
    }
  }

  lemma RxStepsRunOut(m: Machine, s: Step)
    requires Enabled(m, s) && Internal(s) && !OnTx(s)
    ensures Work(Apply(m, s)) < Work(m)
  {
    hide Sum, Times, SomeSenderAsleep;
    var m' := Apply(m, s);
    RxEffect(m, s);
    SumUpdate(m.rx, RxWork, s.j, m'.rx[s.j]);
    SumUpdate(m.rx, RxCasts, s.j, m'.rx[s.j]);
    SumCongruent(m'.tx, m.tx, Casts);
    CastsSpent(3 * |m.tx|, Sum(m.rx, RxCasts), Sum(m'.rx, RxCasts));
    if s.RxSignal? {
      if m.rx[s.j].RxDropNotify? {
        WakeAllWork(m.tx);
      } else if s.woken < |m.tx| {
        SumUpdate(m.tx, TxWork, s.woken, Wake(m.tx[s.woken]));
      }
    }
  }

  /** Without new calls or spurious wakes, every run ends. */
  lemma InternalStepsRunOut(m: Machine, s: Step)
    requires Enabled(m, s) && Internal(s)
    ensures Work(Apply(m, s)) < Work(m)
  {
    hide Apply, Enabled, Work;
    if OnTx(s) {
      TxStepsRunOut(m, s);
    } else {
      RxStepsRunOut(m, s);
    }
  }

  /**
   No deadlock. When nobody is running, a sleeping sender faces a full queue and a live receiver, and a sleeping
   receiver faces an empty queue and at least one live sender handle; with room for one item the two sides are never
   asleep together.
   */
  lemma NoDeadlock(m: Machine)
    requires Inv(m) && Quiescent(m)
    ensures SomeSenderAsleep(m) ==> m.fields.receiver && |m.fields.queue| == m.capacity
    ensures m.capacity >= 1 ==> !(SomeSenderAsleep(m) && SomeReceiverAsleep(m))
    ensures SomeReceiverAsleep(m) ==> m.fields.queue == [] && m.live != {}
  {
    SumZero(m.tx, Rechecking);
    SumZero(m.tx, PushOwed);
    SumZero(m.tx, LastDropOwed);
    SumZero(m.tx, DropPending);
    SumZero(m.rx, PopOwed);
    SumZero(m.rx, RxDropOwed);
    SumZero(m.rx, RxRechecking);
  }

  /** `steps` leads from `m` to `end` without a new call and without a spurious wake. */
  ghost predicate InternalRun(m: Machine, steps: seq<Step>, end: Machine)
    decreases |steps|
  {
    if steps == [] then m == end
    else Enabled(m, steps[0]) && Internal(steps[0]) && InternalRun(Apply(m, steps[0]), steps[1..], end)
  }

  /** Every internal run is at most `Work(m)` steps long, so it cannot go on forever. */
  lemma {:induction false} InternalRunsEnd(m: Machine, steps: seq<Step>, end: Machine)
    requires Inv(m) && InternalRun(m, steps, end)
    ensures Inv(end) && |steps| + Work(end) <= Work(m)
    decreases |steps|
  {
    if steps == [] {
    } else {
      InternalStepsRunOut(m, steps[0]);
      StepKeepsInv(m, steps[0]);
      InternalRunsEnd(Apply(m, steps[0]), steps[1..], end);
    }
  }

  /**
   However the scheduler runs the threads, an internal run that cannot be extended has come to rest, and at
   rest nobody is asleep who could be woken.
   */
  lemma StuckRunsAreAtRest(m: Machine, steps: seq<Step>, end: Machine)
    requires Inv(m) && InternalRun(m, steps, end)
    requires forall s :: Internal(s) ==> !Enabled(end, s)
    ensures Quiescent(end)
    ensures SomeSenderAsleep(end) ==> end.fields.receiver && |end.fields.queue| == end.capacity
    ensures end.capacity >= 1 ==> !(SomeSenderAsleep(end) && SomeReceiverAsleep(end))
    ensures SomeReceiverAsleep(end) ==> end.fields.queue == [] && end.live != {}
  {
    InternalRunsEnd(m, steps, end);
    if !Quiescent(end) {
      var s := Progress(end);
      assert false;
    }
    NoDeadlock(end);
  }
}
