/**
 The descriptor numbers of `daemonize` in `src/daemonize.rs`.

 The readiness pipe and the pid file take the lowest free numbers, and the standard streams are then redirected over
 0, 1 and 2, whatever stands there. Nothing moves the pipe or the pid file out of the way first.
 */
module DaemonDescriptors {
  import opened Descriptors

  /** The ends of the readiness pipe, where `used` are the numbers in use when `daemonize` is called. */
  function PipeFds(used: set<Fd>, crossed: bool): (Fd, Fd) {
    var a := LowestFree(used, 0);
    var b := LowestFree(used + {a}, 0);
    if crossed then (b, a) else (a, b)
  }

  function WriteFd(used: set<Fd>, crossed: bool): Fd {
    PipeFds(used, crossed).1
  }

  /** The pid file's number: the child has closed its read end by then. */
  function PidFd(used: set<Fd>, crossed: bool): Fd {
    LowestFree(used + {WriteFd(used, crossed)}, 0)
  }

  /** The first `n` descriptors are the null device. */
  function Redirected(t: Table, n: nat): Table {
    if n == 0 then t else Redirected(t, n - 1)[n - 1 := Entry(DevNull, false)]
  }

  lemma {:induction false} RedirectedAt(t: Table, n: nat, fd: Fd)
    ensures fd in Redirected(t, n) <==> fd in t || fd < n
    ensures fd < n ==> Redirected(t, n)[fd] == Entry(DevNull, false)
    ensures n <= fd && fd in t ==> Redirected(t, n)[fd] == t[fd]
  {
    if n == 0 {
    } else {
      RedirectedAt(t, n - 1, fd);
    }
  }

  lemma SameTables(a: Table, b: Table)
    requires forall fd :: fd in a <==> fd in b
    requires forall fd :: fd in a && fd in b ==> a[fd] == b[fd]
    ensures a == b
  {
    assert a.Keys == b.Keys;
  }

  /** With one more number in use above or among the first `n`, redirecting and giving it back makes no difference. */
  lemma RedirectedAround(t: Table, nul: Fd)
    requires nul !in t
    ensures var after := Redirected(t[nul := Entry(DevNull, false)], 3);
      (if nul > 2 then after - {nul} else after) == Redirected(t, 3)
  {
    var before := t[nul := Entry(DevNull, false)];
    var after := Redirected(before, 3);
    var done := if nul > 2 then after - {nul} else after;
    forall fd
      ensures fd in done <==> fd in Redirected(t, 3)
      ensures fd in done && fd in Redirected(t, 3) ==> done[fd] == Redirected(t, 3)[fd]
    {
      RedirectedAt(before, 3, fd);
      RedirectedAt(t, 3, fd);
    }
    SameTables(done, Redirected(t, 3));
  }

  lemma RedirectedOnto(t: Table, nul: Fd)
    requires nul in t && t[nul] == Entry(DevNull, false)
    ensures Redirected(t, nul + 1) == Redirected(t, nul)
  {
    RedirectedAt(t, nul, nul);
    assert Redirected(t, nul)[nul := Entry(DevNull, false)] == Redirected(t, nul);
  }

  /** Standard in, out and error to the null device. */
  method RedirectStandardStreams(fds: DescriptorTable)
    modifies fds
    ensures fds.table == Redirected(old(fds.table), 3)
  {
    var devnull := fds.Open(DevNull);
    ghost var t := fds.table;
    for fd := 0 to 3
      invariant fds.table == Redirected(t, fd)
    {
      RedirectedAt(t, fd, devnull);
      if fd == devnull {
        RedirectedOnto(t, devnull);
      }
      fds.Dup2(devnull, fd);
    }
    RedirectedAround(old(fds.table), devnull);
    if devnull > 2 {
      fds.Close(devnull);
    }
  }

  predicate Holds(t: Table, file: File) {
    exists fd :: fd in t && t[fd].file == file
  }

  lemma AfterRedirection(t: Table, after: Table)
    requires after == Redirected(t, 3)
    ensures forall fd: Fd :: fd <= 2 ==> fd in after && after[fd] == Entry(DevNull, false)
    ensures forall fd: Fd :: fd > 2 ==> (fd in after <==> fd in t)
    ensures forall fd: Fd :: fd > 2 && fd in t ==> fd in after && after[fd] == t[fd]
  {
    hide Redirected;
    forall fd: Fd
      ensures fd in after <==> fd in t || fd < 3
      ensures fd < 3 ==> after[fd] == Entry(DevNull, false)
      ensures 3 <= fd && fd in t ==> after[fd] == t[fd]
    {
      RedirectedAt(t, 3, fd);
    }
  }

  /** What the daemon has open just before it redirects its standard streams. */
  function Opened(before: Table, write: Fd, pid: Fd, withPidFile: bool): Table {
    var piped := before[write := Entry(ReadyWrite, false)];
    if withPidFile then piped[pid := Entry(PidFile, false)] else piped
  }

  lemma WhatIsLeft(before: Table, after: Table, write: Fd, pid: Fd, withPidFile: bool)
    requires OnlyInherited(before) && write !in before && (withPidFile ==> pid !in before && pid != write)
    requires after == Redirected(Opened(before, write, pid, withPidFile), 3)
    ensures Holds(after, ReadyWrite) <==> write > 2
    ensures Holds(after, PidFile) <==> withPidFile && pid > 2
    ensures forall fd: Fd :: fd <= 2 ==> fd in after && after[fd] == Entry(DevNull, false)
    ensures forall fd: Fd :: fd > 2 && fd in before ==> fd in after && after[fd] == before[fd]
  {
    hide Redirected;
    var t := Opened(before, write, pid, withPidFile);
    AfterRedirection(t, after);
    if write > 2 {
      assert t[write].file == ReadyWrite;
    }
    if withPidFile && pid > 2 {
      assert t[pid].file == PidFile;
    }
  }

  /**
   What a daemon that starts without an error does with its descriptors: the pipe, the child's close of the read
   end, the pid file, the redirection. The ready byte can reach the launcher only if the write end is still there,
   and the pid file's lock lasts only as long as its descriptor.
   */
  method Daemonize(fds: DescriptorTable, crossed: bool, withPidFile: bool) returns (write: Fd, pid: Fd)
    requires OnlyInherited(fds.table)
    modifies fds
    ensures write == WriteFd(old(fds.table).Keys, crossed)
    ensures withPidFile ==> pid == PidFd(old(fds.table).Keys, crossed)
    ensures Holds(fds.table, ReadyWrite) <==> write > 2
    ensures Holds(fds.table, PidFile) <==> withPidFile && pid > 2
    ensures forall fd: Fd :: fd <= 2 ==> fd in fds.table && fds.table[fd] == Entry(DevNull, false)
    ensures forall fd: Fd :: fd > 2 && fd in old(fds.table) ==> fd in fds.table && fds.table[fd] == old(fds.table)[fd]
  {
    hide LowestFree, Redirected, Holds, OnlyInherited;
    ghost var before := fds.table;
    var read;
    read, write := fds.Pipe(ReadyRead, ReadyWrite, false, crossed);
    fds.Close(read);
    assert fds.table == before[write := Entry(ReadyWrite, false)];
    pid := 0;
    if withPidFile {
      assert fds.table.Keys == before.Keys + {write};
      pid := fds.Open(PidFile);
    }
    assert fds.table == Opened(before, write, pid, withPidFile);
    RedirectStandardStreams(fds);
    WhatIsLeft(before, fds.table, write, pid, withPidFile);
  }

  /** How many of 0, 1 and 2 are closed when `daemonize` is called. */
  function Holes(used: set<Fd>): nat {
    (if 0 in used then 0 else 1) + (if 1 in used then 0 else 1) + (if 2 in used then 0 else 1)
  }

  /**
   Which closed standard descriptors cost the daemon what. The end of the pipe that comes first takes the first
   hole, the other end the second, and the pid file the number that the read end gave back.
   */
  lemma KeptExactly(used: set<Fd>, crossed: bool)
    ensures WriteFd(used, crossed) > 2 <==> Holes(used) <= if crossed then 0 else 1
    ensures PidFd(used, crossed) > 2 <==> Holes(used) <= if crossed then 1 else 0
    ensures WriteFd(used, crossed) > 2 && PidFd(used, crossed) > 2 <==> {0, 1, 2} <= used
  {
    hide LowestFree;
    var (read, write) := PipeFds(used, crossed);
    assert PidFd(used, crossed) == read;
  }

  lemma LowestIs(used: set<Fd>, n: Fd)
    requires n !in used && forall k: Fd :: k < n ==> k in used
    ensures LowestFree(used, 0) == n
  {
    hide LowestFree;
    assert LowestFree(used, 0) !in used;
  }

  /** 0 closed: the pid file's lock is lost. 0 and 1 closed: so is the write end. */
  lemma ClosedStandardInputCostsTheLock()
    ensures PidFd({1, 2}, false) == 0 && WriteFd({1, 2}, false) == 3
    ensures PidFd({2}, false) == 0 && WriteFd({2}, false) == 1
  {
    hide LowestFree;
    LowestIs({1, 2}, 0);
    LowestIs({1, 2} + {0}, 3);
    LowestIs({1, 2} + {3}, 0);
    LowestIs({2}, 0);
    LowestIs({2} + {0}, 1);
    LowestIs({2} + {1}, 0);
  }
}
