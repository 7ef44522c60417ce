/**
 The descriptors of a spawned child: `Command::spawn` in `src/command.rs`, from the two pipes to the exec.

 A descriptor table maps numbers to open files. Every call that makes a descriptor takes the lowest free
 number, as section 2.14 of the System Interfaces volume of POSIX.1-2017 requires.
 */
module Descriptors {
  type Fd = nat

  /**
   What a descriptor can refer to: something the process had open before, the null device, an end of a child's two
   pipes or of a daemon's readiness pipe, or a pid file.
   */
  datatype File =
    | Inherited(id: nat)
    | DevNull
    | OutRead | OutWrite | ErrRead | ErrWrite
    | ReadyRead | ReadyWrite
    | PidFile

  datatype Entry = Entry(file: File, cloexec: bool)

  type Table = map<Fd, Entry>

  lemma StillUsed(used: set<Fd>, from: Fd, n: Fd)
    requires from in used && forall k :: from + 1 <= k < n ==> k in used - {from}
    ensures forall k :: from <= k < n ==> k in used
  {
    forall k | from <= k < n
      ensures k in used
    {
      if k > from {
        assert k in used - {from};
      }
    }
  }

  /** The lowest number at or above `from` that is not in use. */
  function LowestFree(used: set<Fd>, from: Fd): (n: Fd)
    ensures n >= from && n !in used
    ensures forall k :: from <= k < n ==> k in used
    decreases |used|
  {
    if from !in used then from
    else
      var found := LowestFree(used - {from}, from + 1);
      StillUsed(used, from, found);
      found
  }

  function AtExec(t: Table): Table {
    map fd | fd in t && !t[fd].cloexec :: t[fd]
  }

  class DescriptorTable {
    var table: Table

    constructor (table: Table)
      ensures this.table == table
    {
      this.table := table;
    }

    /** `pipe`, or `pipe2(O_CLOEXEC)`: the two lowest free numbers, in whichever order the system likes. */
    method Pipe(reader: File, writer: File, cloexec: bool, writerFirst: bool) returns (read: Fd, write: Fd)
      modifies this
      ensures var a := LowestFree(old(table).Keys, 0); var b := LowestFree(old(table).Keys + {a}, 0);
        && read == (if writerFirst then b else a) && write == (if writerFirst then a else b)
        && table == old(table)[read := Entry(reader, cloexec)][write := Entry(writer, cloexec)]
    {
      var a := LowestFree(table.Keys, 0);
      var b := LowestFree(table.Keys + {a}, 0);
      read, write := if writerFirst then b else a, if writerFirst then a else b;
      table := table[read := Entry(reader, cloexec)][write := Entry(writer, cloexec)];
    }

    /** `open`, without close-on-exec. */
    method Open(file: File) returns (fd: Fd)
      modifies this
      ensures fd == LowestFree(old(table).Keys, 0)
      ensures table == old(table)[fd := Entry(file, false)]
    {
      fd := LowestFree(table.Keys, 0);
      table := table[fd := Entry(file, false)];
    }

    /** `fcntl(F_DUPFD_CLOEXEC)`. */
    method DupFrom(fd: Fd, from: Fd) returns (copy: Fd)
      requires fd in table
      modifies this
      ensures copy == LowestFree(old(table).Keys, from)
      ensures table == old(table)[copy := Entry(old(table)[fd].file, true)]
    {
      copy := LowestFree(table.Keys, from);
      table := table[copy := Entry(table[fd].file, true)];
    }

    /** `dup2`: replaces `onto`, clears close-on-exec there, and does nothing when the two are the same. */
    method Dup2(fd: Fd, onto: Fd)
      requires fd in table
      modifies this
      ensures table == if fd == onto then old(table) else old(table)[onto := Entry(old(table)[fd].file, false)]
    {
      if fd != onto {
        table := table[onto := Entry(table[fd].file, false)];
      }
    }

    method Close(fd: Fd)
      modifies this
      ensures table == old(table) - {fd}
    {
      table := table - {fd};
    }

    /** What an `execve` keeps. */
    method Exec()
      modifies this
      ensures table == AtExec(old(table))
    {
      table := AtExec(table);
    }
  }

  /** What a program started by `spawn` should find: three standard streams and what was meant to be inherited. */
  function Expected(before: Table): Table {
    map[0 := Entry(DevNull, false), 1 := Entry(OutWrite, false), 2 := Entry(ErrWrite, false)]
    + (map fd | fd in before && !before[fd].cloexec && fd > 2 :: before[fd])
  }

  predicate OnlyInherited(t: Table) {
    forall fd :: fd in t ==> t[fd].file.Inherited?
  }

  /** In the program that starts there is one copy of each write end, no read end, and nothing marked close-on-exec. */
  lemma NoOtherPipeEndSurvives(before: Table, fd: Fd)
    requires OnlyInherited(before) && fd in Expected(before)
    ensures !Expected(before)[fd].cloexec
    ensures Expected(before)[fd].file == DevNull <==> fd == 0
    ensures Expected(before)[fd].file == OutWrite <==> fd == 1
    ensures Expected(before)[fd].file == ErrWrite <==> fd == 2
    ensures Expected(before)[fd].file.Inherited? <==> fd > 2
  {
    if fd > 2 {
      assert fd in before && Expected(before)[fd] == before[fd];
    }
  }

  /** The program finds the three standard streams, and everything above them that was meant to be inherited. */
  lemma WhatTheProgramFinds(before: Table, fd: Fd)
    ensures fd in Expected(before) <==> fd <= 2 || (fd in before && !before[fd].cloexec)
    ensures fd > 2 && fd in Expected(before) ==> Expected(before)[fd] == before[fd]
    ensures Expected(before)[0].file == DevNull
    ensures Expected(before)[1].file == OutWrite && Expected(before)[2].file == ErrWrite
  {
  }

  /** A copy of `fd` above the three standard descriptors, or `fd` itself when it is already clear of them. */
  method AboveStdio(fds: DescriptorTable, fd: Fd) returns (moved: Fd)
    requires fd in fds.table && fds.table[fd].cloexec
    modifies fds
    ensures moved > 2 && moved in fds.table && fds.table[moved] == old(fds.table)[fd]
    ensures fds.table == old(fds.table)[moved := old(fds.table)[fd]]
    ensures moved != fd ==> moved !in old(fds.table)
    ensures forall k :: k in old(fds.table) ==> k in fds.table && fds.table[k] == old(fds.table)[k]
  {
    if fd > 2 {
      assert fds.table == fds.table[fd := fds.table[fd]];
      return fd;
    }
    moved := fds.DupFrom(fd, 3);
  }

  /** Installing the three standard streams over whatever was there. */
  lemma InstalledAtExec(t: Table, before: Table)
    requires AtExec(t) == AtExec(before)
    ensures AtExec(t[0 := Entry(DevNull, false)][1 := Entry(OutWrite, false)][2 := Entry(ErrWrite, false)]) ==
            Expected(before)
  {
    var t' := t[0 := Entry(DevNull, false)][1 := Entry(OutWrite, false)][2 := Entry(ErrWrite, false)];
    forall fd
      ensures fd in AtExec(t') <==> fd in Expected(before)
      ensures fd in AtExec(t') ==> AtExec(t')[fd] == Expected(before)[fd]
    {
      assert fd in AtExec(t) <==> fd in AtExec(before);
      if fd in AtExec(t) {
        assert AtExec(t)[fd] == AtExec(before)[fd];
      }
    }
    assert AtExec(t').Keys == Expected(before).Keys;
  }

  /** The child's half, from the fork to the exec. */
  method ChildSetup(fds: DescriptorTable, outWrite: Fd, errWrite: Fd, ghost before: Table)
    requires {0, 1, 2} <= fds.table.Keys
    requires outWrite in fds.table && fds.table[outWrite] == Entry(OutWrite, true)
    requires errWrite in fds.table && fds.table[errWrite] == Entry(ErrWrite, true)
    requires AtExec(fds.table) == AtExec(before)
    modifies fds
    ensures fds.table == Expected(before)
  {
    var outW := AboveStdio(fds, outWrite);
    var errW := AboveStdio(fds, errWrite);
    ghost var moved := fds.table;
    assert AtExec(moved) == AtExec(before);
    var nul := fds.Open(DevNull);
    // The four pipe ends have filled every hole among the standard three.
    assert nul > 2;
    fds.Dup2(nul, 0);
    fds.Close(nul);
    assert fds.table == moved[0 := Entry(DevNull, false)];
    fds.Dup2(outW, 1);
    fds.Dup2(errW, 2);
    InstalledAtExec(moved, before);
    fds.Exec();
  }

  /** Four lowest-number allocations in a row fill every hole among the standard three. */
  lemma FourFillStdio(used: set<Fd>, a: Fd, b: Fd, c: Fd, d: Fd)
    requires a == LowestFree(used, 0) && b == LowestFree(used + {a}, 0)
    requires c == LowestFree(used + {a, b}, 0) && d == LowestFree(used + {a, b, c}, 0)
    ensures {0, 1, 2} <= used + {a, b, c, d}
    ensures a !in used && b !in used && c !in used && d !in used
    ensures a < b < c < d
  {
    hide LowestFree;
  }

  /** `Drop` for a pipe that still holds both ends. */
  method DropPipe(fds: DescriptorTable, read: Fd, write: Fd)
    modifies fds
    ensures fds.table == old(fds.table) - {read, write}
  {
    fds.Close(read);
    fds.Close(write);
  }

  lemma DroppedPipeLeavesNoTrace(t: Table, read: Fd, write: Fd, e1: Entry, e2: Entry)
    requires read !in t && write !in t
    ensures t[read := e1][write := e2] - {read, write} == t
  {
  }

  lemma ParentKeepsReadEnds(t: Table, or: Fd, ow: Fd, er: Fd, ew: Fd, e1: Entry, e2: Entry, e3: Entry, e4: Entry)
    requires or !in t && ow !in t && or != ow
    requires er !in t && er != or && er != ow && ew !in t && ew != or && ew != ow && er != ew
    ensures t[or := e1][ow := e2][er := e3][ew := e4] - {ow} - {ew} == t[or := e1][er := e3]
  {
  }

  datatype Trouble = NoTrouble | FirstPipeFails | SecondPipeFails | NoCandidates | ForkFails

  predicate TwoLowest(used: set<Fd>, r: Fd, w: Fd) {
    var a := LowestFree(used, 0);
    var b := LowestFree(used + {a}, 0);
    (r == a && w == b) || (r == b && w == a)
  }

  lemma FreshPair(used: set<Fd>, r: Fd, w: Fd)
    requires TwoLowest(used, r, w)
    ensures r !in used && w !in used && r != w
  {
    hide LowestFree;
  }

  /** Two pipes later: four new close-on-exec ends, and no hole among the standard three. */
  lemma PipesFillStdio(before: Table, one: Table, two: Table, outRead: Fd, outWrite: Fd, errRead: Fd, errWrite: Fd)
    requires TwoLowest(before.Keys, outRead, outWrite) && TwoLowest(one.Keys, errRead, errWrite)
    requires one == before[outRead := Entry(OutRead, true)][outWrite := Entry(OutWrite, true)]
    requires two == one[errRead := Entry(ErrRead, true)][errWrite := Entry(ErrWrite, true)]
    ensures {0, 1, 2} <= two.Keys && AtExec(two) == AtExec(before)
    ensures outRead !in before && outWrite !in before && errRead !in one && errWrite !in one
    ensures outRead != outWrite && errRead != errWrite
  {
    hide LowestFree;
    var used := before.Keys;
    var a := LowestFree(used, 0);
    var b := LowestFree(used + {a}, 0);
    assert one.Keys == used + {a, b};
    var c := LowestFree(used + {a, b}, 0);
    var d := LowestFree(used + {a, b} + {c}, 0);
    assert used + {a, b} + {c} == used + {a, b, c};
    FourFillStdio(used, a, b, c, d);
    assert two.Keys == used + {a, b, c, d};
  }

  /**
   `spawn`, as far as descriptors go. A failure on the way leaves the parent's table as it was. Otherwise the
   parent keeps exactly the two read ends, and the child reaches its exec with the table of `Expected`.
   */
  method Spawn(fds: DescriptorTable, outCrossed: bool, errCrossed: bool, trouble: Trouble)
    returns (started: bool, child: DescriptorTable)
    modifies fds
    ensures started <==> trouble == NoTrouble
    ensures !started ==> fds.table == old(fds.table)
    ensures started ==> fresh(child) && child.table == Expected(old(fds.table))
    ensures started ==>
              exists outRead: Fd, errRead: Fd ::
                && outRead !in old(fds.table) && errRead !in old(fds.table) && outRead != errRead
                && fds.table == old(fds.table)[outRead := Entry(OutRead, true)][errRead := Entry(ErrRead, true)]
  {
    hide LowestFree, AtExec, Expected;
    ghost var before := fds.table;
    child := new DescriptorTable(map[]);
    if trouble == FirstPipeFails {
      return false, child;
    }
    var outRead, outWrite := fds.Pipe(OutRead, OutWrite, true, outCrossed);
    ghost var one := fds.table;
    FreshPair(before.Keys, outRead, outWrite);
    DroppedPipeLeavesNoTrace(before, outRead, outWrite, Entry(OutRead, true), Entry(OutWrite, true));
    if trouble == SecondPipeFails {
      DropPipe(fds, outRead, outWrite);
      return false, child;
    }
    var errRead, errWrite := fds.Pipe(ErrRead, ErrWrite, true, errCrossed);
    FreshPair(one.Keys, errRead, errWrite);
    if trouble == NoCandidates || trouble == ForkFails {
      DroppedPipeLeavesNoTrace(one, errRead, errWrite, Entry(ErrRead, true), Entry(ErrWrite, true));
      DropPipe(fds, errRead, errWrite);
      DropPipe(fds, outRead, outWrite);
      return false, child;
    }
    PipesFillStdio(before, one, fds.table, outRead, outWrite, errRead, errWrite);
    ParentKeepsReadEnds(before, outRead, outWrite, errRead, errWrite,
      Entry(OutRead, true), Entry(OutWrite, true), Entry(ErrRead, true), Entry(ErrWrite, true));
    child := new DescriptorTable(fds.table);
    ChildSetup(child, outWrite, errWrite, before);
    fds.Close(outWrite);
    fds.Close(errWrite);
    started := true;
  }
}
