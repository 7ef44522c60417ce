/**
 `ScopedKey` of `src/thread.rs`: a slot that `set` fills for the duration of a call, however the call ends.

 A program is what one thread does with the key. `Set` restores the slot from a guard, so the restore also
 happens when the body unwinds; the reference reading below knows no slot, only the values whose `set` is active.
 */
module ScopedKey {
  import opened Wrappers

  /** A value's address, which is never null. */
  type Pointer = nat

  datatype Program =
    | Skip
    | Then(first: Program, second: Program)
    | Set(value: Pointer, body: Program)
    | With(body: Program)      // reads the installed value, then runs the body with it
    | IsSet
    | Unwind
    | Catch(body: Program)

  datatype Outcome = Returned | Unwound

  /** What the program gets to see. */
  datatype Event = Saw(value: Pointer) | Answered(installed: bool)

  /** The reference: `active` are the values of the calls of `set` now running, innermost first. */
  function Meaning(p: Program, active: seq<Pointer>): (Outcome, seq<Event>) {
    match p
    case Skip => (Returned, [])
    case Then(first, second) =>
      var (o, trace) := Meaning(first, active);
      if o == Unwound then (Unwound, trace)
      else
        var (o2, trace2) := Meaning(second, active);
        (o2, trace + trace2)
    case Set(value, body) => Meaning(body, [value] + active)
    case With(body) =>
      if active == [] then (Unwound, [])
      else
        var (o, trace) := Meaning(body, active);
        (o, [Saw(active[0])] + trace)
    case IsSet => (Returned, [Answered(active != [])])
    case Unwind => (Unwound, [])
    case Catch(body) => (Returned, Meaning(body, active).1)
  }

  /** What the slot holds while those calls are active. */
  function SlotFor(active: seq<Pointer>): Option<Pointer> {
    if active == [] then None else Some(active[0])
  }

  class Key {
    /** `None` is the null pointer. */
    var slot: Option<Pointer>

    constructor ()
      ensures slot == None
    {
      slot := None;
    }

    /** `replace`, then the body, then the guard's `Drop`, which runs whether the body returned or unwound. */
    method Set(value: Pointer, body: Program, ghost active: seq<Pointer>) returns (o: Outcome, trace: seq<Event>)
      requires slot == SlotFor(active)
      modifies this
      ensures slot == old(slot)
      ensures (o, trace) == Meaning(Program.Set(value, body), active)
      decreases body, 1
    {
      var previous := slot;
      slot := Some(value);
      o, trace := Run(body, [value] + active);
      slot := previous;
    }

    /** The slot is read, not taken; without a value this panics. */
    method With(body: Program, ghost active: seq<Pointer>) returns (o: Outcome, trace: seq<Event>)
      requires slot == SlotFor(active)
      modifies this
      ensures slot == old(slot)
      ensures (o, trace) == Meaning(Program.With(body), active)
      decreases body, 1
    {
      var p := slot;
      if p.None? {
        return Unwound, [];
      }
      var rest: seq<Event>;
      o, rest := Run(body, active);
      trace := [Saw(p.value)] + rest;
    }

    method IsSet(ghost active: seq<Pointer>) returns (installed: bool)
      requires slot == SlotFor(active)
      ensures installed <==> active != []
    {
      installed := slot.Some?;
    }

    /**
     Runs a program. Whatever it does and however it ends, the slot is as it was, every `with` saw the innermost
     active value, and `is_set` answered whether any `set` was active.
     */
    method Run(p: Program, ghost active: seq<Pointer>) returns (o: Outcome, trace: seq<Event>)
      requires slot == SlotFor(active)
      modifies this
      ensures slot == old(slot)
      ensures (o, trace) == Meaning(p, active)
      decreases p, 0
    {
      match p
      case Skip =>
        return Returned, [];
      case Then(first, second) =>
        o, trace := Run(first, active);
        if o == Returned {
          var rest: seq<Event>;
          o, rest := Run(second, active);
          trace := trace + rest;
        }
      case Set(value, body) =>
        o, trace := Set(value, body, active);
      case With(body) =>
        o, trace := With(body, active);
      case IsSet =>
        var answer := IsSet(active);
        return Returned, [Answered(answer)];
      case Unwind =>
        return Unwound, [];
      case Catch(body) =>
        o, trace := Run(body, active);
        o := Returned;
    }
  }

  /** Only values whose `set` is active, or becomes active inside the program, are ever seen. */
  function Installs(p: Program): set<Pointer> {
    match p
    case Then(first, second) => Installs(first) + Installs(second)
    case Set(value, body) => {value} + Installs(body)
    case With(body) => Installs(body)
    case Catch(body) => Installs(body)
    case _ => {}
  }

  lemma {:induction false} OnlyActiveValuesAreSeen(p: Program, active: seq<Pointer>, v: Pointer)
    requires Saw(v) in Meaning(p, active).1
    ensures v in active || v in Installs(p)
  {
    match p
    case Then(first, second) =>
      if Saw(v) in Meaning(first, active).1 {
        OnlyActiveValuesAreSeen(first, active, v);
      } else {
        OnlyActiveValuesAreSeen(second, active, v);
      }
    case Set(value, body) => OnlyActiveValuesAreSeen(body, [value] + active, v);
    case With(body) =>
      if v != active[0] {
        OnlyActiveValuesAreSeen(body, active, v);
      }
    case Catch(body) => OnlyActiveValuesAreSeen(body, active, v);
    case _ =>
  }

  /**
   What a program sees after another has ended, by returning, is active outside it or installed by itself: a value
   whose `set` has ended, returned or unwound, is not seen again.
   */
  lemma EndedSetIsSeenNoMore(ended: Program, after: Program, active: seq<Pointer>, v: Pointer)
    requires v !in active && v !in Installs(after)
    ensures var seen, trace := Meaning(ended, active).1, Meaning(Then(ended, after), active).1;
      seen <= trace && Saw(v) !in trace[|seen|..]
  {
    var (o, seen) := Meaning(ended, active);
    var trace := Meaning(Then(ended, after), active).1;
    if o == Returned {
      var later := Meaning(after, active).1;
      assert trace == seen + later && trace[|seen|..] == later;
      if Saw(v) in later {
        OnlyActiveValuesAreSeen(after, active, v);
      }
    } else {
      assert trace == seen;
    }
  }

  /** What each operation shows, under any list of active values. */
  lemma InnermostIsSeen(v: Pointer, w: Pointer, active: seq<Pointer>)
    ensures Meaning(Set(v, With(Skip)), active) == (Returned, [Saw(v)])
    ensures Meaning(Set(v, Set(w, With(Skip))), active) == (Returned, [Saw(w)])
    ensures Meaning(Set(v, Then(Set(w, Skip), With(Skip))), active) == (Returned, [Saw(v)])
    ensures Meaning(Set(v, Then(Catch(Set(w, Unwind)), With(Skip))), active) == (Returned, [Saw(v)])
    ensures Meaning(With(Skip), []) == (Unwound, [])
    ensures Meaning(IsSet, []) == (Returned, [Answered(false)])
    ensures Meaning(Set(v, IsSet), active) == (Returned, [Answered(true)])
  {
    assert ([v] + active)[0] == v && ([w] + ([v] + active))[0] == w;
    assert [Saw(v)] + [] == [Saw(v)] && [Saw(w)] + [] == [Saw(w)];
    assert Meaning(With(Skip), [v] + active) == (Returned, [Saw(v)]);
    assert Meaning(With(Skip), [w] + ([v] + active)) == (Returned, [Saw(w)]);
    assert Meaning(Set(w, Skip), [v] + active) == (Returned, []);
    assert Meaning(Set(w, Unwind), [v] + active) == (Unwound, []);
    assert Meaning(Catch(Set(w, Unwind)), [v] + active) == (Returned, []);
    assert [] + [Saw(v)] == [Saw(v)];
  }

  /** An unwind passes through `set`, `with` and what would have come next, up to the nearest catch. */
  lemma UnwindPasses(v: Pointer, body: Program, next: Program, active: seq<Pointer>)
    requires Meaning(body, [v] + active).0 == Unwound
    ensures Meaning(Set(v, body), active).0 == Unwound
    ensures Meaning(Then(Set(v, body), next), active) == Meaning(Set(v, body), active)
    ensures Meaning(Catch(Set(v, body)), active) == (Returned, Meaning(Set(v, body), active).1)
    ensures Meaning(Set(v, With(body)), active) == (Unwound, [Saw(v)] + Meaning(body, [v] + active).1)
  {
    assert ([v] + active)[0] == v;
    assert Meaning(With(body), [v] + active) == (Unwound, [Saw(v)] + Meaning(body, [v] + active).1);
  }
}
