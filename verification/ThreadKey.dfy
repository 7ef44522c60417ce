/** The race to create a `ThreadLocal`'s key, in `src/thread.rs`, among any number of threads. */
module ThreadKey {
  import opened Wrappers

  type Key = nat

  datatype Pc =
    | Idle
    | Load
    | Create
    | Swap(created: Key)
    | Delete(created: Key, theirs: nat)
    | Done(key: Option<Key>)

  /**
   `cell` is the key plus one, or zero. `ours` are the keys this race has made and not deleted; `others` belong
   to the rest of the process.
   */
  datatype Race = Race(cell: nat, ours: set<Key>, others: set<Key>, threads: seq<Pc>)

  ghost predicate Init(r: Race) {
    r.cell == 0 && r.ours == {} && forall i :: 0 <= i < |r.threads| ==> r.threads[i] == Idle
  }

  datatype Step =
    | Call(i: nat)
    | DoLoad(i: nat)
    | DoCreate(i: nat, k: Key)
    | CreateFails(i: nat)
    | DoSwap(i: nat)
    | DoDelete(i: nat)
    | Return(i: nat)
    | OtherCreates(k: Key)
    | OtherDeletes(k: Key)

  predicate Enabled(r: Race, s: Step) {
    match s
    case Call(i) => i < |r.threads| && r.threads[i] == Idle
    case DoLoad(i) => i < |r.threads| && r.threads[i] == Load
    // The system hands out any number that is not in use, zero and deleted ones included.
    case DoCreate(i, k) => i < |r.threads| && r.threads[i] == Create && k !in r.ours && k !in r.others
    case CreateFails(i) => i < |r.threads| && r.threads[i] == Create
    case DoSwap(i) => i < |r.threads| && r.threads[i].Swap?
    case DoDelete(i) => i < |r.threads| && r.threads[i].Delete?
    case Return(i) => i < |r.threads| && r.threads[i].Done?
    case OtherCreates(k) => k !in r.ours && k !in r.others
    case OtherDeletes(k) => k in r.others
  }

  function Minus1(n: nat): nat {
    if n == 0 then 0 else n - 1
  }

  function Apply(r: Race, s: Step): Race
    requires Enabled(r, s)
  {
    match s
    case Call(i) => r.(threads := r.threads[i := Load])
    case DoLoad(i) => r.(threads := r.threads[i := if r.cell != 0 then Done(Some(r.cell - 1)) else Create])
    case DoCreate(i, k) => r.(ours := r.ours + {k}, threads := r.threads[i := Swap(k)])
    case CreateFails(i) => r.(threads := r.threads[i := Done(None)])
    case DoSwap(i) =>
      var created := r.threads[i].created;
      if r.cell == 0 then r.(cell := created + 1, threads := r.threads[i := Done(Some(created))])
      else r.(threads := r.threads[i := Delete(created, r.cell)])
    case DoDelete(i) =>
      r.(ours := r.ours - {r.threads[i].created}, threads := r.threads[i := Done(Some(Minus1(r.threads[i].theirs)))])
    case Return(i) => r.(threads := r.threads[i := Idle])
    case OtherCreates(k) => r.(others := r.others + {k})
    case OtherDeletes(k) => r.(others := r.others - {k})
  }

  ghost predicate StepAt(run: seq<Race>, k: nat)
    requires k + 1 < |run|
  {
    exists s :: Enabled(run[k], s) && run[k + 1] == Apply(run[k], s)
  }

  ghost predicate IsRun(run: seq<Race>) {
    && |run| > 0 && Init(run[0])
    && forall k :: 0 <= k < |run| - 1 ==> StepAt(run, k)
  }

  /** The key a thread has made and not yet got rid of. */
  function Holding(pc: Pc): Option<Key> {
    match pc
    case Swap(k) => Some(k)
    case Delete(k, _) => Some(k)
    case _ => None
  }

  ghost predicate ThreadInv(r: Race, i: nat)
    requires i < |r.threads|
  {
    var pc := r.threads[i];
    && (Holding(pc).Some? ==> Holding(pc).value in r.ours && r.cell != Holding(pc).value + 1)
    && (pc.Delete? ==> r.cell != 0 && pc.theirs == r.cell)
    && (pc.Done? && pc.key.Some? ==> r.cell == pc.key.value + 1)
  }

  ghost predicate Exclusive(r: Race) {
    forall i, j :: 0 <= i < |r.threads| && 0 <= j < |r.threads| && i != j && Holding(r.threads[i]).Some? ==>
      Holding(r.threads[i]) != Holding(r.threads[j])
  }

  ghost predicate Held(r: Race, k: Key) {
    exists i :: 0 <= i < |r.threads| && Holding(r.threads[i]) == Some(k)
  }

  /** Every key of the race that is still allocated is the published one or held by exactly one thread. */
  ghost predicate Inv(r: Race) {
    && r.ours !! r.others
    && (r.cell != 0 ==> r.cell - 1 in r.ours)
    && (forall i :: 0 <= i < |r.threads| ==> ThreadInv(r, i))
    && Exclusive(r)
    && (forall k :: k in r.ours ==> r.cell == k + 1 || Held(r, k))
  }

  lemma StepKeepsThreads(r: Race, s: Step, j: nat)
    requires Inv(r) && Enabled(r, s) && j < |r.threads|
    ensures |Apply(r, s).threads| == |r.threads| && ThreadInv(Apply(r, s), j)
  {
    assert ThreadInv(r, j);
    if !s.OtherCreates? && !s.OtherDeletes? {
      assert ThreadInv(r, s.i);
    }
  }

  lemma StepKeepsExclusive(r: Race, s: Step)
    requires Inv(r) && Enabled(r, s)
    ensures Exclusive(Apply(r, s))
  {
    var r' := Apply(r, s);
    if s.DoCreate? {
      forall j | 0 <= j < |r.threads| && j != s.i
        ensures Holding(r'.threads[j]) != Some(s.k)
      {
        assert ThreadInv(r, j);
      }
    }
  }

  lemma StepKeepsHeld(r: Race, s: Step, k: Key)
    requires Inv(r) && Enabled(r, s) && k in Apply(r, s).ours && Apply(r, s).cell != k + 1
    ensures Held(Apply(r, s), k)
  {
    var r' := Apply(r, s);
    if k in r.ours {
      var i :| 0 <= i < |r.threads| && Holding(r.threads[i]) == Some(k);
      assert Holding(r'.threads[i]) == Some(k);
    } else {
      assert Holding(r'.threads[s.i]) == Some(k);
    }
  }

  lemma StepKeepsInv(r: Race, s: Step)
    requires Inv(r) && Enabled(r, s)
    ensures Inv(Apply(r, s))
  {
    var r' := Apply(r, s);
    StepKeepsExclusive(r, s);
    if s.DoDelete? || s.DoSwap? {
      assert ThreadInv(r, s.i);
    }
    assert r'.ours !! r'.others;
    assert r'.cell != 0 ==> r'.cell - 1 in r'.ours;
    forall j | 0 <= j < |r.threads|
      ensures |r'.threads| == |r.threads| && ThreadInv(r', j)
    {
      StepKeepsThreads(r, s, j);
    }
    assert |r'.threads| == |r.threads|;
    forall k | k in r'.ours && r'.cell != k + 1
      ensures Held(r', k)
    {
      StepKeepsHeld(r, s, k);
    }
    hide Apply, Enabled, ThreadInv, Held, Exclusive;
  }

  lemma RunStep(run: seq<Race>, k: nat) returns (s: Step)
    requires IsRun(run) && k + 1 < |run|
    ensures Enabled(run[k], s) && run[k + 1] == Apply(run[k], s)
  {
    hide Apply, Enabled, Init;
    assert StepAt(run, k);
    s :| Enabled(run[k], s) && run[k + 1] == Apply(run[k], s);
  }

  lemma {:induction false} RunKeepsInv(run: seq<Race>, k: nat)
    requires IsRun(run) && k < |run|
    ensures Inv(run[k])
  {
    if k == 0 {
    } else {
      hide Apply, Enabled, Inv;
      RunKeepsInv(run, k - 1);
      var s := RunStep(run, k - 1);
      StepKeepsInv(run[k - 1], s);
    }
  }

  /**
   A call answers `None` only because the system would not create a key. One that finds a key published, or loses the
   exchange and has deleted its own, answers the published key.
   */
  lemma NoneOnlyFromFailedCreation(r: Race, s: Step, i: nat)
    requires Inv(r) && Enabled(r, s) && i < |r.threads|
    ensures |Apply(r, s).threads| == |r.threads|
    ensures Apply(r, s).threads[i] == Done(None) && r.threads[i] != Done(None) ==> s == CreateFails(i)
    ensures s == CreateFails(i) ==> Apply(r, s).threads[i] == Done(None)
    ensures s == DoLoad(i) && r.cell != 0 ==> Apply(r, s).threads[i] == Done(Some(r.cell - 1))
    ensures s == DoLoad(i) && r.cell == 0 ==> Apply(r, s).threads[i] == Create
    ensures s == DoSwap(i) ==>
              if r.cell == 0 then Apply(r, s).threads[i] == Done(Some(r.threads[i].created))
              else Apply(r, s).threads[i].Delete? && Apply(r, s).threads[i].created == r.threads[i].created
    ensures s == DoDelete(i) ==>
              && r.cell > 0 && Apply(r, s).threads[i] == Done(Some(r.cell - 1))
              && r.threads[i].created !in Apply(r, s).ours
  {
    assert ThreadInv(r, i);
  }

  /** Once a key is published it stays published and allocated. */
  lemma PublishedKeyStays(r: Race, s: Step)
    requires Inv(r) && r.cell != 0 && Enabled(r, s)
    ensures Apply(r, s).cell == r.cell && r.cell - 1 in Apply(r, s).ours
  {
    if s.DoDelete? {
      assert ThreadInv(r, s.i);
    }
  }

  lemma {:induction false} PublishedKeyStaysInRun(run: seq<Race>, j: nat, k: nat)
    requires IsRun(run) && j <= k < |run| && run[j].cell != 0
    ensures run[k].cell == run[j].cell
  {
    hide Apply, Enabled, Inv;
    if j == k {
    } else {
      PublishedKeyStaysInRun(run, j, k - 1);
      RunKeepsInv(run, k - 1);
      var s := RunStep(run, k - 1);
      PublishedKeyStays(run[k - 1], s);
    }
  }

  /** Any two calls, at any times in a run, return the same key, and it is still allocated. */
  lemma AllCallsAgree(run: seq<Race>, j: nat, k: nat, a: nat, b: nat)
    requires IsRun(run) && j <= k < |run| && a < |run[j].threads| && b < |run[k].threads|
    requires run[j].threads[a].Done? && run[j].threads[a].key.Some?
    requires run[k].threads[b].Done? && run[k].threads[b].key.Some?
    ensures run[j].threads[a].key == run[k].threads[b].key
  {
    RunKeepsInv(run, j);
    RunKeepsInv(run, k);
    assert ThreadInv(run[j], a) && ThreadInv(run[k], b);
    PublishedKeyStaysInRun(run, j, k);
  }

  /** A key that a call has returned is never deleted. */
  lemma ReturnedKeyIsNeverDeleted(run: seq<Race>, j: nat, k: nat, a: nat)
    requires IsRun(run) && j <= k < |run| && a < |run[j].threads|
    requires run[j].threads[a].Done? && run[j].threads[a].key.Some?
    ensures run[j].threads[a].key.value in run[k].ours
  {
    RunKeepsInv(run, j);
    RunKeepsInv(run, k);
    assert ThreadInv(run[j], a);
    PublishedKeyStaysInRun(run, j, k);
  }

  /** When no call is under way the race has left exactly one key allocated, or none if none was published. */
  lemma NothingLeaks(r: Race)
    requires Inv(r) && forall i :: 0 <= i < |r.threads| ==> r.threads[i].Idle? || r.threads[i].Done?
    ensures r.ours == if r.cell == 0 then {} else {r.cell - 1}
  {
    forall k | k in r.ours
      ensures r.cell == k + 1
    {
    }
  }
}
