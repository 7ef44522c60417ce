/** Listing and recursive deletion: `read_dir` and `remove_dir_all` of `src/fs.rs` over a modelled file tree. */
module RemoveTree {
  import opened Wrappers
  import opened ByteStrings
  import opened PathSyntax
  import opened FileTree

  ghost predicate Distinct(names: seq<Bytes>) {
    forall i, j :: 0 <= i < j < |names| ==> names[i] != names[j]
  }

  /** The names directly inside a directory, each once, in any order. */
  ghost predicate Children(t: Tree, d: Location, names: seq<Bytes>) {
    Distinct(names) && forall n :: n in names <==> d + [n] in t
  }

  predicate IsDot(n: Bytes) {
    n == CUR_DIR || n == PARENT_DIR
  }

  function WithoutDots(entries: seq<Bytes>): seq<Bytes> {
    if entries == [] then []
    else WithoutDots(entries[..|entries| - 1])
         + if IsDot(entries[|entries| - 1]) then [] else [entries[|entries| - 1]]
  }

  lemma {:induction false} WithoutDotsKeepsTheRest(entries: seq<Bytes>)
    ensures forall n :: n in WithoutDots(entries) <==> n in entries && !IsDot(n)
    ensures Distinct(entries) ==> Distinct(WithoutDots(entries))
  {
    hide IsDot;
    if entries == [] {
    } else {
      var last, init := entries[|entries| - 1], entries[..|entries| - 1];
      WithoutDotsKeepsTheRest(init);
      assert forall n :: n in entries <==> n in init || n == last;
      assert Distinct(entries) ==> last !in init;
    }
  }

  method Enumerate(all: set<Bytes>) returns (names: seq<Bytes>)
    ensures Distinct(names) && forall n :: n in names <==> n in all
  {
    names := [];
    var left := all;
    while left != {}
      invariant Distinct(names) && left <= all
      invariant forall n :: n in names <==> n in all && n !in left
      decreases |left|
    {
      var n :| n in left;
      left := left - {n};
      names := names + [n];
    }
  }

  function JoinAll(path: Bytes, names: seq<Bytes>): (paths: seq<Bytes>)
    ensures |paths| == |names| && forall i :: 0 <= i < |names| ==> paths[i] == Joined(path, names[i])
  {
    seq(|names|, i requires 0 <= i < |names| => Joined(path, names[i]))
  }

  /** `rmdir` refuses a path that ends in `.`, `..` or the root. */
  predicate EndsInName(path: Bytes) {
    var cs := Components(path);
    cs != [] && cs[|cs| - 1].Name?
  }

  /** The path names the directory itself, and `rmdir` would take it. */
  ghost predicate Removable(t: Tree, cwd: Location, links: nat, path: Bytes, d: Location) {
    EndsInName(path) && d != [] && Resolve(t, cwd, links, path, false) == Some(d)
  }

  // ---- Facts about the tree ----

  /** Neither the name itself nor anything under it. */
  ghost predicate NothingAt(t: Tree, l: Location) {
    forall q :: q in t ==> !(l <= q)
  }

  lemma {:induction false} AncestorsAreDirectories(t: Tree, l: Location, q: Location)
    requires WellFormedTree(t) && q in t && l <= q && l != q
    ensures IsDirectory(t, l)
    decreases |q|
  {
    var up := q[..|q| - 1];
    if l == up {
    } else {
      AncestorsAreDirectories(t, l, up);
    }
  }

  /** A name with nothing under it can go without leaving anything dangling. */
  lemma RemovingALeaf(t: Tree, l: Location)
    requires WellFormedTree(t) && l in t && l != []
    requires forall q :: q in t && l <= q ==> q == l
    ensures WellFormedTree(t - {l}) && OnlyRemovedUnder(t, t - {l}, l)
    ensures NothingAt(t - {l}, l)
  {
    forall q | q in t - {l} && q != []
      ensures IsDirectory(t - {l}, q[..|q| - 1])
    {
      assert q[..|q| - 1] == l ==> l <= q;
    }
  }

  lemma RemovedUnderChild(before: Tree, middle: Tree, after: Tree, d: Location, l: Location)
    requires OnlyRemovedUnder(before, middle, d) && OnlyRemovedUnder(middle, after, l) && d <= l
    ensures OnlyRemovedUnder(before, after, d)
  {
  }

  lemma {:induction false} AsComponentsAppend(d: Location, n: Bytes)
    ensures AsComponents(d + [n]) == AsComponents(d) + [Name(n)]
  {
    if d == [] {
      assert d + [n] == [n];
      assert AsComponents([n][1..]) == [];
    } else {
      assert (d + [n])[1..] == d[1..] + [n];
      AsComponentsAppend(d[1..], n);
    }
  }

  lemma JoinedName(path: Bytes, n: Bytes)
    requires IsNameBytes(n)
    ensures Components(Joined(path, n)) == Components(path) + [Name(n)] && Joined(path, n) != []
  {
    JoinComponents(path, n);
    ComponentsOfOne(Name(n));
  }

  /** A child's path resolves, last link not followed, to that name in the directory. */
  lemma ChildResolves(t: Tree, cwd: Location, links: nat, path: Bytes, n: Bytes)
    requires IsNameBytes(n) && path != []
    ensures Resolve(t, cwd, links, Joined(path, n), false) ==
            match Resolve(t, cwd, links, path, true)
            case None => None
            case Some(d) => if IsDirectory(t, d) && d + [n] in t then Some(d + [n]) else None
  {
    JoinedName(path, n);
    WalkName(t, cwd, Components(path), n, links);
  }

  lemma {:induction false} SubsetSize(a: set<Location>, b: set<Location>)
    requires a <= b
    ensures |a| <= |b|
  {
    if a == {} {
    } else {
      var x :| x in a;
      SubsetSize(a - {x}, b - {x});
    }
  }

  lemma StrictlyFewer(before: Tree, now: Tree, d: Location, l: Location)
    requires OnlyRemovedUnder(before, now, d) && IsDirectory(now, d) && d <= l && d != l
    ensures |Under(now, l)| < |Under(before, d)|
  {
    assert Under(now, l) <= Under(before, d) - {d};
    SubsetSize(Under(now, l), Under(before, d) - {d});
  }

  lemma JoinedEndsInName(path: Bytes, n: Bytes)
    requires IsNameBytes(n)
    ensures EndsInName(Joined(path, n))
  {
    JoinedName(path, n);
  }

  /** A directory that `rmdir` finds by a path is the one that `opendir` had found by it. */
  lemma RmdirTarget(before: Tree, last: Tree, cwd: Location, links: nat, path: Bytes, d: Location)
    requires OnlyRemovedUnder(before, last, d) && Resolve(before, cwd, links, path, true) == Some(d)
    requires var r := Resolve(last, cwd, links, path, false); r.Some? && IsDirectory(last, r.value)
    ensures Resolve(last, cwd, links, path, false) == Some(d) && Resolve(before, cwd, links, path, false) == Some(d)
  {
    FollowOnlyMattersAtLinks(last, cwd, Components(path), links);
    WalkInSubtree(last, before, cwd, Components(path), links, true);
    WalkInSubtree(last, before, cwd, Components(path), links, false);
  }

  /** The first `i` children are gone with everything under them; the others are still there. */
  ghost predicate Swept(t: Tree, d: Location, names: seq<Bytes>, i: nat) {
    && (forall j, q :: 0 <= j < i && j < |names| && q in t ==> !(d + [names[j]] <= q))
    && (forall j :: i <= j < |names| ==> d + [names[j]] in t)
  }

  lemma NothingSweptYet(t: Tree, d: Location, names: seq<Bytes>)
    requires Children(t, d, names)
    ensures Swept(t, d, names, 0)
  {
  }

  lemma NothingRemoved(t: Tree, d: Location)
    ensures OnlyRemovedUnder(t, t, d)
  {
  }

  lemma NoDotNames(t: Tree, d: Location)
    requires WellFormedTree(t)
    ensures forall n :: d + [n] in t ==> IsNameBytes(n) && !IsDot(n)
  {
    forall n | d + [n] in t
      ensures IsNameBytes(n) && !IsDot(n)
    {
      assert (d + [n])[|d + [n]| - 1] == n;
    }
  }

  lemma ChildHasName(t: Tree, d: Location, names: seq<Bytes>, i: nat)
    requires WellFormedTree(t) && Children(t, d, names) && i < |names|
    ensures IsNameBytes(names[i])
  {
    assert names[i] in names;
    NoDotNames(t, d);
  }

  lemma NextToSweep(t: Tree, d: Location, names: seq<Bytes>, i: nat)
    requires Swept(t, d, names, i) && i < |names|
    ensures d + [names[i]] in t
  {
  }

  /** Removing child `i` leaves the directory, the children already gone, and the children still to come. */
  lemma SweepOne(before: Tree, now: Tree, after: Tree, d: Location, names: seq<Bytes>, i: nat)
    requires WellFormedTree(before) && OnlyRemovedUnder(before, now, d) && IsDirectory(now, d)
    requires i < |names| && OnlyRemovedUnder(now, after, d + [names[i]])
    ensures OnlyRemovedUnder(before, after, d) && IsDirectory(after, d)
    ensures Children(before, d, names) && Swept(now, d, names, i) && NothingAt(after, d + [names[i]])
            ==> Swept(after, d, names, i + 1)
  {
    var l := d + [names[i]];
    RemovedUnderChild(before, now, after, d, l);
    assert !(l <= d);
    if Children(before, d, names) && Swept(now, d, names, i) {
      forall j | i < j < |names|
        ensures d + [names[j]] in after
      {
        assert names[j] != names[i];
        assert (d + [names[j]])[|d|] == names[j] && l[|d|] == names[i];
        assert !(l <= d + [names[j]]);
      }
    }
  }

  /** Whatever is under a directory is under one of its children. */
  lemma UnderSomeChild(t: Tree, d: Location, q: Location)
    requires WellFormedTree(t) && q in t && d <= q && d != q
    ensures d + [q[|d|]] <= q && d + [q[|d|]] in t
  {
    var child := d + [q[|d|]];
    assert child <= q;
    if child != q {
      AncestorsAreDirectories(t, child, q);
    }
  }

  lemma SweptLeavesNothing(before: Tree, now: Tree, d: Location, names: seq<Bytes>, n: Bytes, q: Location)
    requires Children(before, d, names) && Swept(now, d, names, |names|) && d + [n] in before && q in now
    ensures !(d + [n] <= q)
  {
    assert n in names;
    var j :| 0 <= j < |names| && names[j] == n;
  }

  /** When every child is gone there is nothing but the directory itself. */
  lemma SweptClean(before: Tree, now: Tree, d: Location, names: seq<Bytes>)
    requires WellFormedTree(now) && OnlyRemovedUnder(before, now, d) && IsDirectory(now, d)
    requires Children(before, d, names)
    requires Swept(now, d, names, |names|)
    ensures Under(now, d) == {d}
  {
    hide Swept, Children, WellFormedTree;
    forall q | q in now && d <= q
      ensures q == d
    {
      if q != d {
        UnderSomeChild(now, d, q);
        SweptLeavesNothing(before, now, d, names, q[|d|], q);
      }
    }
  }

  /** Where a child's path leads once some of the tree is gone: where it led before, or nowhere. */
  lemma ChildStaysPut(before: Tree, now: Tree, cwd: Location, links: nat, path: Bytes, n: Bytes, d: Location)
    requires OnlyRemovedUnder(before, now, d) && IsNameBytes(n) && path != []
    requires Resolve(before, cwd, links, path, true) == Some(d)
    ensures var r := Resolve(now, cwd, links, Joined(path, n), false); r.Some? ==> r.value == d + [n]
    ensures var r := Resolve(now, cwd, links, Joined(path, n), false);
      r.Some? && IsDirectory(now, r.value) ==> Resolve(now, cwd, links, Joined(path, n), true) == r
  {
    hide Components, Joined;
    ChildResolves(now, cwd, links, path, n);
    JoinedName(path, n);
    if Resolve(now, cwd, links, path, true).Some? {
      WalkInSubtree(now, before, cwd, Components(path), links, true);
    }
    var r := Resolve(now, cwd, links, Joined(path, n), false);
    if r.Some? && IsDirectory(now, r.value) {
      FollowOnlyMattersAtLinks(now, cwd, Components(Joined(path, n)), links);
    }
  }

  /** As long as the directory is there, a steady path still leads to it, and its child's path to the child. */
  lemma SteadyChildResolves(
      before: Tree, now: Tree, cwd: Location, links: nat, path: Bytes, n: Bytes, d: Location)
    requires OnlyRemovedUnder(before, now, d) && IsDirectory(now, d) && d + [n] in now && IsNameBytes(n)
    requires Resolve(before, cwd, links, path, true) == Some(d) && Steady(before, cwd, Components(path), links, d)
    ensures Resolve(now, cwd, links, Joined(path, n), false) == Some(d + [n])
    ensures IsDirectory(now, d + [n]) ==>
              && Resolve(now, cwd, links, Joined(path, n), true) == Some(d + [n])
              && Steady(now, cwd, Components(Joined(path, n)), links, d + [n])
  {
    hide Components, Joined, Walk, Steady, OnlyRemovedUnder;
    SteadyWalk(before, now, cwd, Components(path), links, true, d);
    ChildResolves(now, cwd, links, path, n);
    JoinedName(path, n);
    if IsDirectory(now, d + [n]) {
      SteadyChild(now, cwd, Components(path), links, d, n);
      FollowOnlyMattersAtLinks(now, cwd, Components(Joined(path, n)), links);
    }
  }

  /** Only directories have anything under them. */
  lemma OnlyItselfUnder(t: Tree, l: Location)
    requires WellFormedTree(t) && !IsDirectory(t, l)
    ensures l != []
    ensures forall q :: q in t && l <= q ==> q == l
  {
    forall q | q in t && l <= q
      ensures q == l
    {
      if q != l {
        AncestorsAreDirectories(t, l, q);
      }
    }
  }

  lemma NothingUnder(t: Tree, l: Location)
    requires WellFormedTree(t) && !IsDirectory(t, l)
    ensures l !in t ==> NothingAt(t, l)
  {
    OnlyItselfUnder(t, l);
  }

  lemma NamesAreChildren(t: Tree, d: Location, names: set<Bytes>)
    requires names == set l | l in t && |l| == |d| + 1 && l[..|d|] == d :: l[|d|]
    ensures forall n :: n in names <==> d + [n] in t
  {
    forall n
      ensures n in names <==> d + [n] in t
    {
      if d + [n] in t {
        assert (d + [n])[..|d|] == d && (d + [n])[|d|] == n;
      }
      if n in names {
        var l :| l in t && |l| == |d| + 1 && l[..|d|] == d && l[|d|] == n;
        assert l == d + [n];
      }
    }
  }

  lemma OneMoreEntry(path: Bytes, entries: seq<Bytes>, i: nat)
    requires i < |entries|
    ensures JoinAll(path, WithoutDots(entries[..i + 1])) ==
            JoinAll(path, WithoutDots(entries[..i])) + if IsDot(entries[i]) then [] else [Joined(path, entries[i])]
  {
    assert entries[..i + 1][..i] == entries[..i];
  }

  // ---- Opening the argument ----

  /**
   The directory opened is the one the path names exactly when the path does not name a link. In a link's case
   opening follows it.
   */
  lemma OpensWhatIsNamed(t: Tree, cwd: Location, links: nat, path: Bytes)
    requires WellFormedTree(t) && !(cwd in t && t[cwd].Link?)
    requires var r := Resolve(t, cwd, links, path, false); r.Some? && r.value in t
    ensures var l := Resolve(t, cwd, links, path, false).value;
      Resolve(t, cwd, links, path, true) == Resolve(t, cwd, links, path, false) <==> !t[l].Link?
  {
    hide Components, Walk;
    var l := Resolve(t, cwd, links, path, false).value;
    if t[l].Link? {
      if Resolve(t, cwd, links, path, true).Some? {
        WalkEndsOffLinks(t, cwd, Components(path), links);
      }
    } else {
      FollowOnlyMattersAtLinks(t, cwd, Components(path), links);
    }
  }

  /** A link's target of plain names: from the root, or from the directory the link is in. */
  ghost predicate LeadsTo(target: Bytes, l: Location, d: Location)
    requires l != []
  {
    Spells(l[..|l| - 1], target, d)
  }

  lemma SomeComponent(path: Bytes)
    requires path != []
    ensures Components(path) != []
  {
    hide Parts;
    if Parts(path) == [] {
      NoPartsMeansSlashes(path);
    }
  }

  lemma LinkAtTheEnd(t: Tree, up: Location, n: Bytes, links: nat, d: Location)
    requires IsDirectory(t, up) && up + [n] in t && t[up + [n]].Link? && t[up + [n]].target != [] && links > 0
    requires !StrictlyUnder(up, d) && !StrictlyUnder(up + [n], d)
    ensures var target := Components(t[up + [n]].target);
      && Walk(t, up, [Name(n)], links, false) == Some(up + [n])
      && Walk(t, up, [Name(n)], links, true) == Walk(t, up, target, links - 1, true)
      && (Steady(t, up, [Name(n)], links, d) <==> Steady(t, up, target, links - 1, d))
  {
    var target := Components(t[up + [n]].target);
    hide Components;
    assert [Name(n)][1..] == [] && target + [] == target;
    assert Walk(t, up + [n], [], links, false) == Some(up + [n]);
  }

  /** Where a link outside a directory leads to it in plain names, a path to the link opens the directory, steadily. */
  lemma TopLinkIsFollowed(t: Tree, cwd: Location, links: nat, path: Bytes, l: Location, d: Location)
    requires WellFormedTree(t) && links > 0 && Spells(cwd, path, l) && l != [] && l in t
    requires t[l].Link? && LeadsTo(t[l].target, l, d) && IsDirectory(t, d) && !(d <= l)
    ensures Resolve(t, cwd, links, path, false) == Some(l) && Resolve(t, cwd, links, path, true) == Some(d)
    ensures Steady(t, cwd, Components(path), links, d) && !Removable(t, cwd, links, path, d)
  {
    hide Components, Walk, Steady, WellFormedTree, EndsInName;
    var up, n := l[..|l| - 1], l[|l| - 1];
    assert l == up + [n];
    var absolute := Components(path) == [RootDir] + AsComponents(l);
    SomeComponent(path);
    var from: Location := if absolute then [] else cwd;
    var names := up[|from|..];
    assert from + names == up && l[|from|..] == names + [n];
    AsComponentsAppend(names, n);
    ParentIsDirectory(t, up, n);
    OffTheTargetSoFar(up, [n], d);
    WalkDown(t, from, names, [Name(n)], links, true, d);
    WalkDown(t, from, names, [Name(n)], links, false, d);
    SpelledPathResolves(t, up, links - 1, t[l].target, d, true);
    LinkAtTheEnd(t, up, n, links, d);
    if absolute {
      WalkFromRoot(t, cwd, AsComponents(l), links, true, d);
      WalkFromRoot(t, cwd, AsComponents(l), links, false, d);
    }
  }

  lemma NameUnderRoot(n: Bytes)
    requires IsNameBytes(n)
    ensures Components(ROOT + n) == [RootDir, Name(n)]
  {
    hide Parts;
    PartsSkipSlash(n);
    PartsOfOne(n);
  }

  lemma SmallTree()
    ensures var a, f, l: Bytes := [97], [102], [108];
      var tree: Tree := map[[] := Directory, [a] := Directory, [a, f] := File, [l] := Link([SLASH, 97])];
      && WellFormedTree(tree) && Spells([], [SLASH, 108], [l]) && LeadsTo([SLASH, 97], [l], [a])
  {
    var a, f, l: Bytes := [97], [102], [108];
    NameUnderRoot(a);
    NameUnderRoot(l);
    assert ROOT + a == [SLASH, 97] && ROOT + l == [SLASH, 108];
    hide Components;
    var one, two, here: Location := [a], [a, f], [l];
    assert one[1..] == [] && here[1..] == [] && here[..0] == [];
    assert one[..0] == [] && two[..1] == one;
  }

  lemma LeftInSmallTree(left: Tree)
    requires var a, f, l: Bytes := [97], [102], [108];
      var tree: Tree := map[[] := Directory, [a] := Directory, [a, f] := File, [l] := Link([SLASH, 97])];
      OnlyRemovedUnder(tree, left, [a]) && Under(left, [a]) == {[a]}
    ensures var a, f, l: Bytes := [97], [102], [108];
      left == map[[] := Directory, [a] := Directory, [l] := Link([SLASH, 97])]
  {
    var a, f, l: Bytes := [97], [102], [108];
    assert [a] in Under(left, [a]) && [a, f] !in Under(left, [a]);
    assert a[0] != l[0] && [a] <= [a, f];
    var here: Location := [l];
    assert here[0] == l && !([a] <= here);
  }

  // ---- The file system ----

  class FileSystem {
    var tree: Tree
    const cwd: Location
    /** How many links the kernel will follow in one path. */
    const links: nat
    /** Whether calls may fail for reasons of their own, such as permissions. */
    const faulty: bool
    /** Whether a call has reported an error. Nothing is removed after that. */
    var failed: bool

    ghost predicate Valid()
      reads this`tree
    {
      WellFormedTree(tree)
    }

    function Find(path: Bytes, follow: bool): Option<Location>
      reads this`tree
    {
      Resolve(tree, cwd, links, path, follow)
    }

    constructor (tree: Tree, cwd: Location, links: nat, faulty: bool)
      requires WellFormedTree(tree)
      ensures Valid() && this.tree == tree && this.cwd == cwd && this.links == links && this.faulty == faulty
      ensures !failed
    {
      failed := false;
      this.tree, this.cwd, this.links, this.faulty := tree, cwd, links, faulty;
    }

    method Fails() returns (b: bool)
      ensures b ==> faulty
    {
      b := false;
      if faulty {
        b := *;
      }
    }

    function Names(d: Location): (names: set<Bytes>)
      reads this`tree
      ensures forall n :: n in names <==> d + [n] in tree
    {
      var names := set l | l in tree && |l| == |d| + 1 && l[..|d|] == d :: l[|d|];
      NamesAreChildren(tree, d, names);
      names
    }

    /** `opendir`, and everything `readdir` will then report, the two dot names included. */
    method OpenDirectory(path: Bytes) returns (r: Option<seq<Bytes>>)
      requires Valid()
      ensures r.Some? ==>
                && Find(path, true).Some? && IsDirectory(tree, Find(path, true).value)
                && Distinct(r.value)
                && (forall n :: n in r.value <==> IsDot(n) || n in Names(Find(path, true).value))
      ensures !faulty && Find(path, true).Some? && IsDirectory(tree, Find(path, true).value) ==> r.Some?
    {
      var fails := Fails();
      var found := Find(path, true);
      if fails || found.None? || !IsDirectory(tree, found.value) {
        return None;
      }
      hide WellFormedTree;
      var entries := Enumerate(Names(found.value) + {CUR_DIR, PARENT_DIR});
      return Some(entries);
    }

    /** Every name directly inside a directory, as full paths, without the dot names. */
    method ReadDir(path: Bytes) returns (r: Option<seq<Bytes>>)
      requires Valid()
      modifies this`failed
      ensures failed == (old(failed) || r.None?)
      ensures r.Some? ==>
                && path != [] && Find(path, true).Some? && IsDirectory(tree, Find(path, true).value)
                && exists names :: Children(tree, Find(path, true).value, names) && r.value == JoinAll(path, names)
      ensures !faulty && Find(path, true).Some? && IsDirectory(tree, Find(path, true).value) ==> r.Some?
    {
      var dir := OpenDirectory(path);
      if dir.None? {
        failed := true;
        return None;
      }
      var entries := dir.value;
      ghost var d := Find(path, true).value;
      var out: seq<Bytes> := [];
      for i := 0 to |entries|
        invariant out == JoinAll(path, WithoutDots(entries[..i])) && failed == old(failed)
      {
        var fails := Fails();
        if fails {
          failed := true;
          return None;
        }
        var bytes := entries[i];
        OneMoreEntry(path, entries, i);
        if IsDot(bytes) {
          continue;
        }
        out := out + [Joined(path, bytes)];
      }
      assert entries[..|entries|] == entries;
      WithoutDotsKeepsTheRest(entries);
      NoDotNames(tree, d);
      assert Children(tree, d, WithoutDots(entries));
      return Some(out);
    }

    /** `lstat`: whether the name itself is a directory. */
    method SymlinkMetadata(path: Bytes) returns (isDir: Option<bool>)
      modifies this`failed
      ensures failed == (old(failed) || isDir.None?)
      ensures isDir.Some? ==> Find(path, false).Some? && Find(path, false).value in tree
                              && isDir.value == IsDirectory(tree, Find(path, false).value)
      ensures !faulty && Find(path, false).Some? && Find(path, false).value in tree ==> isDir.Some?
    {
      var fails := Fails();
      var found := Find(path, false);
      if fails || found.None? || found.value !in tree {
        failed := true;
        return None;
      }
      return Some(IsDirectory(tree, found.value));
    }

    /** `unlink`, which says nothing about how it went. Directories are refused. */
    method Unlink(path: Bytes)
      requires Valid() && !failed
      modifies this`tree
      ensures Valid()
      ensures match old(Find(path, false))
              case None => tree == old(tree)
              case Some(l) =>
                && OnlyRemovedUnder(old(tree), tree, l)
                && (old(IsDirectory(tree, l)) || l !in old(tree) ==> tree == old(tree))
                && (!faulty && EndsInName(path) && !old(IsDirectory(tree, l)) ==> NothingAt(tree, l))
    {
      var fails := Fails();
      var found := Find(path, false);
      if !fails && EndsInName(path) && found.Some? && found.value in tree && tree[found.value] != Directory {
        var l := found.value;
        OnlyItselfUnder(tree, l);
        RemovingALeaf(tree, l);
        tree := tree - {l};
      } else if found.Some? && !IsDirectory(tree, found.value) {
        NothingUnder(tree, found.value);
      }
    }

    /** `rmdir`: an empty directory other than the root, by a path that ends in its name. */
    method Rmdir(path: Bytes) returns (ok: bool)
      requires Valid() && !failed
      modifies this
      ensures Valid() && failed == !ok
      ensures ok ==>
                && old(Find(path, false)).Some?
                && EndsInName(path)
                && var l := old(Find(path, false)).value;
                   && l != [] && old(IsDirectory(tree, l)) && OnlyRemovedUnder(old(tree), tree, l)
                   && NothingAt(tree, l)
      ensures !ok ==> tree == old(tree)
      ensures !faulty && EndsInName(path) && old(Find(path, false)).Some?
              && (var l := old(Find(path, false)).value;
                  l != [] && old(IsDirectory(tree, l)) && old(Under(tree, l)) == {l})
              ==> ok
    {
      var fails := Fails();
      var found := Find(path, false);
      if fails || !EndsInName(path) || found.None? || found.value == [] || !IsDirectory(tree, found.value)
         || Under(tree, found.value) != {found.value} {
        failed := true;
        return false;
      }
      var l := found.value;
      assert forall q :: q in tree && l <= q ==> q in Under(tree, l);
      RemovingALeaf(tree, l);
      tree := tree - {l};
      return true;
    }

    /** How much there is to delete. */
    ghost function Size(path: Bytes): nat
      reads this`tree
    {
      match Find(path, true) case None => 0 case Some(d) => |Under(tree, d)|
    }

    /**
     Ends for every tree, cyclic links included, and at the first error: nothing is removed after one. Whatever
     happens, only names at and under the directory that the path leads to can go; on success exactly those are gone.
     Link targets elsewhere are not touched.

     Success needs a path that names the directory itself and ends in a name. When no call fails of its own accord
     and the deletion cannot disturb the path, that is also enough; and without it everything strictly under the
     directory is gone all the same, as when the path names a link to it.
     */
    method RemoveDirAll(path: Bytes) returns (ok: bool)
      requires Valid() && !failed
      modifies this
      ensures Valid() && failed == !ok
      ensures match old(Find(path, true))
              case None => !ok && tree == old(tree)
              case Some(d) =>
                && OnlyRemovedUnder(old(tree), tree, d)
                && (ok ==> old(IsDirectory(tree, d)) && NothingAt(tree, d) && Removable(old(tree), cwd, links, path, d))
                && (!faulty && old(IsDirectory(tree, d)) && Steady(old(tree), cwd, Components(path), links, d) ==>
                      (ok <==> Removable(old(tree), cwd, links, path, d)) && (!ok ==> Under(tree, d) == {d}))
      ensures var named := old(Find(path, false));
        named.Some? && named.value in old(tree) && old(tree)[named.value].Link? ==> !ok
      decreases Size(path)
    {
      hide Components, Joined, Walk, Children, Swept, Steady, EndsInName, OnlyRemovedUnder, NothingAt, WellFormedTree;
      ghost var before := tree;
      var listing := ReadDir(path);
      if Find(path, true).Some? {
        NothingRemoved(before, Find(path, true).value);
      }
      if listing.None? {
        return false;
      }
      var children := listing.value;
      ghost var d := Find(path, true).value;
      ghost var names :| Children(tree, d, names) && children == JoinAll(path, names);
      ghost var sure := !faulty && Steady(before, cwd, Components(path), links, d);
      NothingSweptYet(before, d, names);
      for i := 0 to |children|
        invariant Valid() && !failed && OnlyRemovedUnder(before, tree, d) && IsDirectory(tree, d)
        invariant sure ==> Swept(tree, d, names, i)
      {
        ghost var now, l := tree, d + [names[i]];
        var child := children[i];
        ChildHasName(before, d, names, i);
        JoinedEndsInName(path, names[i]);
        ChildStaysPut(before, now, cwd, links, path, names[i], d);
        if sure {
          NextToSweep(now, d, names, i);
          SteadyChildResolves(before, now, cwd, links, path, names[i], d);
        }
        var link := SymlinkMetadata(child);
        if link.None? {
          return false;
        }
        assert Find(child, false) == Some(l);
        if link.value {
          StrictlyFewer(before, now, d, l);
          var removed := RemoveDirAll(child);
          if !removed {
            RemovedUnderChild(before, now, tree, d, l);
            return false;
          }
        } else {
          Unlink(child);
        }
        SweepOne(before, now, tree, d, names, i);
      }
      if sure {
        SweptClean(before, tree, d, names);
        SteadyWalk(before, tree, cwd, Components(path), links, false, d);
      }
      ghost var last := tree;
      ok := Rmdir(path);
      if ok {
        RmdirTarget(before, last, cwd, links, path, d);
        RemovedUnderChild(before, last, tree, d, d);
      }
    }

    /** What deleting by a link outside its directory comes to: an error, and an emptied directory. */
    method RemoveThroughLink(path: Bytes, ghost l: Location, ghost d: Location) returns (ok: bool)
      requires Valid() && !failed && !faulty && links > 0
      requires Spells(cwd, path, l) && l != [] && l in tree && IsDirectory(tree, d) && !(d <= l)
      requires tree[l].Link? && LeadsTo(tree[l].target, l, d)
      modifies this
      ensures Valid() && !ok
      ensures OnlyRemovedUnder(old(tree), tree, d) && Under(tree, d) == {d}
    {
      hide Walk, Steady, WellFormedTree, OnlyRemovedUnder, Spells, LeadsTo;
      TopLinkIsFollowed(tree, cwd, links, path, l, d);
      ok := RemoveDirAll(path);
    }
  }

  /** A directory `/a` holding one file, and a link `/l` to it: deleting `/l` fails, and the file is gone. */
  method RemoveThroughSmallLink() returns (ok: bool, left: Tree)
    ensures var a, f, l := [97], [102], [108];
      !ok && left == map[[] := Directory, [a] := Directory, [l] := Link([SLASH, 97])]
  {
    var a, f, l: Bytes := [97], [102], [108];
    var tree: Tree := map[[] := Directory, [a] := Directory, [a, f] := File, [l] := Link([SLASH, 97])];
    SmallTree();
    var files := new FileSystem(tree, [], 1, false);
    ok := files.RemoveThroughLink([SLASH, 108], [l], [a]);
    left := files.tree;
    LeftInSmallTree(left);
  }
}
