/**
 `OnceLock` and `LazyLock` of `src/thread.rs` under any number of threads.

 Every atomic access to the state byte and every access to the cell is one step. For a `LazyLock` the
 initialiser is a closure kept beside the cell and taken when it runs.
 */
module OnceCell {
  import opened Wrappers

  type Value(==, !new)

  datatype State = Empty | Busy | Ready

  /** Where a thread is in `get`, `get_or_init` (or `force`), or `set`. */
  datatype Pc =
    | Idle
    | GetLoad
    | GetRead
    | GetDone(got: Option<Value>)
    | InitSwap                    // at the compare-exchange of the loop
    | InitRun                     // won it: about to run the initialiser
    | InitWrite(v: Value)
    | InitPublish(v: Value)
    | InitLoad                    // out of the loop: the `get` at the end
    | InitRead
    | InitDone(v: Value)
    | SetSwap(v: Value)
    | SetWrite(v: Value)
    | SetPublish(v: Value)
    | SetOk(v: Value)
    | SetRefused(v: Value)        // `Err` with the caller's own value
    | Panicked                    // an `expect` fired

  /** `owner` is the thread that moved the state to `Busy`; `stored` lists every value ever written to the cell. */
  datatype Cell = Cell(
    state: State, value: Option<Value>, lazy: bool, closure: bool, threads: seq<Pc>,
    owner: Option<nat>, stored: seq<Value>)

  ghost predicate Init(c: Cell) {
    && c.state == Empty && c.value == None && c.closure && c.owner == None && c.stored == []
    && forall i :: 0 <= i < |c.threads| ==> c.threads[i] == Idle
  }

  datatype Step =
    | CallGet(i: nat)
    | CallInit(i: nat)
    | CallSet(i: nat, v: Value)
    | Advance(i: nat, made: Value)   // `made` is what the initialiser returns, if this step runs it
    | Return(i: nat)

  predicate Finished(pc: Pc) {
    pc.GetDone? || pc.InitDone? || pc.SetOk? || pc.SetRefused?
  }

  predicate Enabled(c: Cell, s: Step) {
    && s.i < |c.threads|
    && match s
       // A `LazyLock` offers only `force`.
       case CallGet(i) => c.threads[i].Idle? && !c.lazy
       case CallInit(i) => c.threads[i].Idle?
       case CallSet(i, _) => c.threads[i].Idle? && !c.lazy
       case Advance(i, _) => !c.threads[i].Idle? && !Finished(c.threads[i]) && !c.threads[i].Panicked?
       case Return(i) => Finished(c.threads[i])
  }

  function At(c: Cell, i: nat, pc: Pc): Cell
    requires i < |c.threads|
  {
    c.(threads := c.threads[i := pc])
  }

  function Progress(c: Cell, i: nat, made: Value): Cell
    requires i < |c.threads|
  {
    match c.threads[i]
    case GetLoad => At(c, i, if c.state == Ready then GetRead else GetDone(None))
    case GetRead => At(c, i, GetDone(c.value))
    case InitSwap =>
      (match c.state
       case Empty => At(c, i, InitRun).(state := Busy, owner := Some(i))
       case Ready => At(c, i, InitLoad)
       case Busy => c)
    case InitRun =>
      if !c.lazy then At(c, i, InitWrite(made))
      else if c.closure then At(c, i, InitWrite(made)).(closure := false)
      else At(c, i, Panicked)
    case InitWrite(v) => At(c, i, InitPublish(v)).(value := Some(v), stored := c.stored + [v])
    case InitPublish(_) => At(c, i, InitLoad).(state := Ready, owner := None)
    case InitLoad => At(c, i, if c.state == Ready then InitRead else Panicked)
    case InitRead => At(c, i, if c.value.Some? then InitDone(c.value.value) else Panicked)
    case SetSwap(v) =>
      if c.state == Empty then At(c, i, SetWrite(v)).(state := Busy, owner := Some(i))
      else At(c, i, SetRefused(v))
    case SetWrite(v) => At(c, i, SetPublish(v)).(value := Some(v), stored := c.stored + [v])
    case SetPublish(v) => At(c, i, SetOk(v)).(state := Ready, owner := None)
    case _ => c
  }

  function Apply(c: Cell, s: Step): Cell
    requires Enabled(c, s)
  {
    match s
    case CallGet(i) => At(c, i, GetLoad)
    case CallInit(i) => At(c, i, InitSwap)
    case CallSet(i, v) => At(c, i, SetSwap(v))
    case Advance(i, made) => Progress(c, i, made)
    case Return(i) => At(c, i, Idle)
  }

  ghost predicate StepAt(run: seq<Cell>, k: nat)
    requires k + 1 < |run|
  {
    exists s :: Enabled(run[k], s) && run[k + 1] == Apply(run[k], s)
  }

  ghost predicate IsRun(run: seq<Cell>) {
    && |run| > 0 && Init(run[0])
    && forall k :: 0 <= k < |run| - 1 ==> StepAt(run, k)
  }

  // ---- What every step keeps ----

  predicate BeforeWrite(pc: Pc) { pc.InitRun? || pc.InitWrite? || pc.SetWrite? }

  predicate AfterWrite(pc: Pc) { pc.InitPublish? || pc.SetPublish? }

  /** What a thread's position says about the cell. */
  ghost predicate ThreadInv(c: Cell, i: nat)
    requires i < |c.threads|
  {
    var pc := c.threads[i];
    && !pc.Panicked?
    && ((BeforeWrite(pc) || AfterWrite(pc)) <==> c.owner == Some(i))
    && (BeforeWrite(pc) ==> c.stored == [] && c.value == None)
    && (pc.InitRun? && c.lazy ==> c.closure)
    && (AfterWrite(pc) ==> c.stored == [pc.v] && c.value == Some(pc.v))
    && (pc.GetRead? || pc.InitLoad? || pc.InitRead? ==> c.state == Ready)
    && (pc.GetDone? && pc.got.Some? ==> c.state == Ready && c.value == pc.got)
    && (pc.InitDone? ==> c.state == Ready && c.value == Some(pc.v))
    && (pc.SetOk? ==> c.state == Ready && c.value == Some(pc.v))
    && (pc.SetRefused? ==> c.state != Empty)
  }

  ghost predicate Inv(c: Cell) {
    && (c.state == Busy <==> c.owner.Some?)
    && (c.owner.Some? ==> c.owner.value < |c.threads|)
    && (c.state == Empty ==> c.stored == [] && c.value == None && c.closure)
    && (c.state == Ready ==> c.value.Some? && c.stored == [c.value.value])
    && (forall i :: 0 <= i < |c.threads| ==> ThreadInv(c, i))
  }

  lemma StepKeepsMover(c: Cell, s: Step)
    requires Inv(c) && Enabled(c, s)
    ensures |Apply(c, s).threads| == |c.threads| && ThreadInv(Apply(c, s), s.i)
  {
    assert ThreadInv(c, s.i);
    if c.owner.Some? {
      assert ThreadInv(c, c.owner.value);
    }
  }

  lemma StepKeepsOther(c: Cell, s: Step, j: nat)
    requires Inv(c) && Enabled(c, s) && j < |c.threads| && j != s.i
    ensures Apply(c, s).threads[j] == c.threads[j] && ThreadInv(Apply(c, s), j)
  {
    assert ThreadInv(c, s.i) && ThreadInv(c, j);
  }

  lemma StepKeepsCell(c: Cell, s: Step)
    requires Inv(c) && Enabled(c, s)
    ensures var c' := Apply(c, s);
      && (c'.state == Busy <==> c'.owner.Some?)
      && (c'.owner.Some? ==> c'.owner.value < |c'.threads|)
      && (c'.state == Empty ==> c'.stored == [] && c'.value == None && c'.closure)
      && (c'.state == Ready ==> c'.value.Some? && c'.stored == [c'.value.value])
  {
    assert ThreadInv(c, s.i);
  }

  lemma StepKeepsInv(c: Cell, s: Step)
    requires Inv(c) && Enabled(c, s)
    ensures Inv(Apply(c, s))
  {
    StepKeepsCell(c, s);
    StepKeepsMover(c, s);
    forall j | 0 <= j < |c.threads| && j != s.i
      ensures ThreadInv(Apply(c, s), j)
    {
      StepKeepsOther(c, s, j);
    }
    hide Apply, Enabled, ThreadInv;
  }

  lemma RunStep(run: seq<Cell>, k: nat) returns (s: Step)
    requires IsRun(run) && k + 1 < |run|
    ensures Enabled(run[k], s) && run[k + 1] == Apply(run[k], s)
  {
    hide Apply, Enabled, Init;
    assert StepAt(run, k);
    s :| Enabled(run[k], s) && run[k + 1] == Apply(run[k], s);
  }

  lemma {:induction false} RunKeepsInv(run: seq<Cell>, k: nat)
    requires IsRun(run) && k < |run|
    ensures Inv(run[k])
  {
    if k == 0 {
    } else {
      hide Apply, Enabled, Inv;
      RunKeepsInv(run, k - 1);
      var s := RunStep(run, k - 1);
      StepKeepsInv(run[k - 1], s);
    }
  }

  /** The state moves only from empty to busy and from busy to ready. */
  lemma StateMovesForward(c: Cell, s: Step)
    requires Inv(c) && Enabled(c, s)
    ensures var c' := Apply(c, s);
      || c'.state == c.state
      || (c.state == Empty && c'.state == Busy && c'.owner == Some(s.i))
      || (c.state == Busy && c'.state == Ready && c.owner == Some(s.i))
  {
    assert ThreadInv(c, s.i);
  }

  /** A ready cell never changes: no second value is stored and no reader can see another. */
  lemma ReadyIsForever(c: Cell, s: Step)
    requires Inv(c) && c.state == Ready && Enabled(c, s)
    ensures Apply(c, s).state == Ready && Apply(c, s).value == c.value && Apply(c, s).stored == c.stored
  {
    assert ThreadInv(c, s.i);
  }

  function Result(pc: Pc): Option<Value> {
    match pc
    case GetDone(got) => got
    case InitDone(v) => Some(v)
    case SetOk(v) => Some(v)
    case _ => None
  }

  lemma {:induction false} ReadyStays(run: seq<Cell>, j: nat, k: nat)
    requires IsRun(run) && j <= k < |run| && run[j].state == Ready
    ensures run[k].state == Ready && run[k].value == run[j].value && run[k].stored == run[j].stored
  {
    hide Apply, Enabled, Inv;
    if j == k {
    } else {
      ReadyStays(run, j, k - 1);
      RunKeepsInv(run, k - 1);
      var s := RunStep(run, k - 1);
      ReadyIsForever(run[k - 1], s);
    }
  }

  /** In any run, whatever two calls return or store at whatever times is one and the same value, stored once. */
  lemma AllResultsAgree(run: seq<Cell>, j: nat, k: nat, a: nat, b: nat)
    requires IsRun(run) && j <= k < |run| && a < |run[j].threads| && b < |run[k].threads|
    requires Result(run[j].threads[a]).Some? && Result(run[k].threads[b]).Some?
    ensures Result(run[j].threads[a]) == Result(run[k].threads[b])
    ensures run[k].stored == [Result(run[j].threads[a]).value]
  {
    RunKeepsInv(run, j);
    RunKeepsInv(run, k);
    assert ThreadInv(run[j], a) && ThreadInv(run[k], b);
    ReadyStays(run, j, k);
  }

  /** A `get` answers `None` only when it looked at a cell that was not ready. */
  lemma NoneOnlyFromUnready(c: Cell, s: Step, i: nat)
    requires Inv(c) && Enabled(c, s) && i < |c.threads|
    requires c.threads[i] != GetDone(None) && Apply(c, s).threads[i] == GetDone(None)
    ensures s.i == i && c.threads[i] == GetLoad && c.state != Ready
  {
    assert ThreadInv(c, i);
    if s.i != i {
      StepKeepsOther(c, s, i);
    }
  }

  lemma SameThreads(c: Cell, s: Step)
    requires Enabled(c, s)
    ensures |Apply(c, s).threads| == |c.threads|
  {
  }

  lemma AnswersTheStored(c: Cell, i: nat)
    requires Inv(c) && c.state == Ready && i < |c.threads|
    ensures |c.stored| == 1
    ensures c.threads[i].GetDone? && c.threads[i].got.Some? ==> c.threads[i].got == Some(c.stored[0])
  {
    assert ThreadInv(c, i);
  }

  /**
   In any run, from a state with a ready cell on, no `get` comes to answer `None`: each one that answers gives the
   one value stored.
   */
  lemma {:induction false} GetAfterReady(run: seq<Cell>, j: nat, k: nat, i: nat)
    requires IsRun(run) && j <= k < |run| && run[j].state == Ready
    requires i < |run[j].threads| && run[j].threads[i] != GetDone(None)
    ensures i < |run[k].threads| && run[k].threads[i] != GetDone(None)
    ensures run[k].threads[i].GetDone? ==>
              |run[j].stored| == 1 && run[k].threads[i] == GetDone(Some(run[j].stored[0]))
  {
    hide Apply, Enabled, Inv;
    if j == k {
    } else {
      GetAfterReady(run, j, k - 1, i);
      ReadyStays(run, j, k - 1);
      RunKeepsInv(run, k - 1);
      var s := RunStep(run, k - 1);
      SameThreads(run[k - 1], s);
      if run[k].threads[i] == GetDone(None) {
        NoneOnlyFromUnready(run[k - 1], s, i);
      }
    }
    ReadyStays(run, j, k);
    RunKeepsInv(run, k);
    AnswersTheStored(run[k], i);
  }

  /** The initialiser that runs is the one whose value is written, and `set` writes the value it was given. */
  lemma OwnerWritesItsValue(c: Cell, i: nat, made: Value)
    requires Inv(c) && i < |c.threads|
    ensures var c' := Progress(c, i, made);
      && (c.threads[i].InitRun? ==> c'.threads[i] == InitWrite(made))
      && (c.threads[i].InitWrite? || c.threads[i].SetWrite? ==> c'.stored == [c.threads[i].v])
  {
    assert ThreadInv(c, i);
  }

  /** The positions of a `set` that has won. */
  predicate Winning(pc: Pc, v: Value) {
    pc == SetWrite(v) || pc == SetPublish(v) || pc == SetOk(v)
  }

  lemma WinnerStep(c: Cell, s: Step, i: nat, v: Value)
    requires Inv(c) && Enabled(c, s) && i < |c.threads| && Winning(c.threads[i], v)
    ensures i < |Apply(c, s).threads|
    ensures Apply(c, s).threads[i] == Idle || Winning(Apply(c, s).threads[i], v)
  {
    if s.i != i {
      StepKeepsOther(c, s, i);
    }
  }

  lemma OkIsStored(c: Cell, i: nat)
    requires Inv(c) && i < |c.threads|
    ensures c.threads[i].SetOk? ==> c.state == Ready && c.stored == [c.threads[i].v]
  {
    assert ThreadInv(c, i);
  }

  /** A `set` that has won answers `Ok`, for its own value; until it has, it is on its way there. */
  lemma {:induction false} WinnerAnswersOk(run: seq<Cell>, j: nat, k: nat, i: nat, v: Value)
    requires IsRun(run) && j <= k < |run| && i < |run[j].threads| && Winning(run[j].threads[i], v)
    requires forall n :: j <= n <= k ==> i < |run[n].threads| && run[n].threads[i] != Idle
    ensures Winning(run[k].threads[i], v)
    ensures run[k].threads[i].SetOk? ==> run[k].state == Ready && run[k].stored == [v]
  {
    hide Apply, Enabled, Inv;
    if j == k {
    } else {
      WinnerAnswersOk(run, j, k - 1, i, v);
      RunKeepsInv(run, k - 1);
      var s := RunStep(run, k - 1);
      WinnerStep(run[k - 1], s, i, v);
    }
    RunKeepsInv(run, k);
    OkIsStored(run[k], i);
  }

  /** Step `k` of a run is a winning compare-exchange, by thread `i`. */
  predicate Wins(run: seq<Cell>, k: nat, i: nat) {
    k + 1 < |run| && run[k].state == Empty && run[k + 1].state == Busy && run[k + 1].owner == Some(i)
  }

  ghost predicate WonBefore(run: seq<Cell>, k: nat) {
    exists j: nat, w: nat :: j < k && Wins(run, j, w)
  }

  lemma {:induction false} NeverEmptyAgain(run: seq<Cell>, j: nat, k: nat)
    requires IsRun(run) && j <= k < |run| && run[j].state != Empty
    ensures run[k].state != Empty
  {
    hide Apply, Enabled, Inv;
    if j == k {
    } else {
      NeverEmptyAgain(run, j, k - 1);
      RunKeepsInv(run, k - 1);
      var s := RunStep(run, k - 1);
      StateMovesForward(run[k - 1], s);
    }
  }

  /** At most one compare-exchange of a run wins, so at most one thread ever runs the initialiser or writes. */
  lemma OneWinner(run: seq<Cell>, j: nat, k: nat, a: nat, b: nat)
    requires IsRun(run) && Wins(run, j, a) && Wins(run, k, b)
    ensures j == k && a == b
  {
    hide IsRun;
    if j < k {
      NeverEmptyAgain(run, j + 1, k);
    } else if k < j {
      NeverEmptyAgain(run, k + 1, j);
    }
  }

  lemma EmptyAtFirst(c: Cell)
    requires Init(c)
    ensures c.state == Empty
  {
  }

  /** A cell is not empty exactly when some earlier step won it. */
  lemma {:induction false} SomebodyWon(run: seq<Cell>, k: nat) returns (j: nat, i: nat)
    requires IsRun(run) && k < |run| && run[k].state != Empty
    ensures j < k && Wins(run, j, i)
  {
    hide Apply, Enabled, Inv, Init;
    if k == 0 {
      assert Init(run[0]);
      EmptyAtFirst(run[0]);
    } else {
      RunKeepsInv(run, k - 1);
      var s := RunStep(run, k - 1);
      StateMovesForward(run[k - 1], s);
      if run[k - 1].state == Empty {
        j, i := k - 1, s.i;
      } else {
        j, i := SomebodyWon(run, k - 1);
      }
    }
  }

  /**
   In any run, the call that attempts the exchange at step `k` wins it exactly when nobody has won before; otherwise
   a `set` hands its own value back and stores nothing.
   */
  lemma RefusedSet(run: seq<Cell>, k: nat, i: nat, made: Value)
    requires IsRun(run) && k < |run| && i < |run[k].threads| && run[k].threads[i].SetSwap?
    ensures var c, c' := run[k], Progress(run[k], i, made);
      if WonBefore(run, k) then
        && c'.threads[i] == SetRefused(c.threads[i].v)
        && c'.stored == c.stored && c'.value == c.value && c'.owner == c.owner
      else
        c'.owner == Some(i) && c'.state == Busy && c'.threads[i] == SetWrite(c.threads[i].v)
  {
    hide IsRun;
    if run[k].state == Empty {
      forall j: nat, w: nat | j < k && Wins(run, j, w) ensures false {
        NeverEmptyAgain(run, j + 1, k);
      }
    } else {
      var j, w := SomebodyWon(run, k);
    }
  }

  predicate Spins(c: Cell, i: nat) {
    i < |c.threads| && c.threads[i] == InitSwap && c.state == Busy
  }

  function Remaining(pc: Pc): nat {
    match pc
    case Idle => 0
    case GetLoad => 3
    case GetRead => 2
    case GetDone(_) => 1
    case InitSwap => 7
    case InitRun => 6
    case InitWrite(_) => 5
    case InitPublish(_) => 4
    case InitLoad => 3
    case InitRead => 2
    case InitDone(_) => 1
    case SetSwap(_) => 4
    case SetWrite(_) => 3
    case SetPublish(_) => 2
    case SetOk(_) => 1
    case SetRefused(_) => 1
    case Panicked => 0
  }

  /**
   A thread that spins does so because another thread owns the cell, and that one is on its way: every step but a
   turn of the spin brings its thread closer to the end of its call.
   */
  lemma OwnerMakesProgress(c: Cell, i: nat, made: Value)
    requires Inv(c) && Enabled(c, Advance(i, made))
    ensures !Spins(c, i) ==> Remaining(Progress(c, i, made).threads[i]) < Remaining(c.threads[i])
    ensures Spins(c, i) ==> c.owner.Some? && c.owner.value != i && Enabled(c, Advance(c.owner.value, made))
                            && !Spins(c, c.owner.value)
  {
    assert ThreadInv(c, i);
    if c.owner.Some? {
      assert ThreadInv(c, c.owner.value);
    }
  }
}
