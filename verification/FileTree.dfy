/**
 A file tree with symbolic links, and how the kernel resolves a path in it.

 A location is the list of names from the root. Resolution follows links along the way, at the end too if
 asked, and gives up after a fixed number of them.
 */
module FileTree {
  import opened Wrappers
  import opened ByteStrings
  import opened PathSyntax

  type Location = seq<Bytes>

  datatype Node = Directory | File | Link(target: Bytes)

  type Tree = map<Location, Node>

  predicate IsDirectory(t: Tree, l: Location) {
    l in t && t[l] == Directory
  }

  /** Everything has a name and hangs in a directory. */
  ghost predicate WellFormedTree(t: Tree) {
    && IsDirectory(t, [])
    && forall l :: l in t && l != [] ==> IsNameBytes(l[|l| - 1]) && IsDirectory(t, l[..|l| - 1])
  }

  ghost predicate Subtree(small: Tree, big: Tree) {
    forall l :: l in small ==> l in big && small[l] == big[l]
  }

  function Up(l: Location): Location {
    if l == [] then [] else l[..|l| - 1]
  }

  /** The names at and under a location. */
  function Under(t: Tree, d: Location): set<Location> {
    set l | l in t && d <= l
  }

  /** Nothing changed except at and under `d`, and there names only went away. */
  ghost predicate OnlyRemovedUnder(before: Tree, after: Tree, d: Location) {
    && Subtree(after, before)
    && forall l :: l in before && !(d <= l) ==> l in after
  }

  /** `links` more links may be followed. */
  function Walk(t: Tree, at: Location, cs: seq<Component>, links: nat, follow: bool): Option<Location>
    decreases links, |cs|
  {
    if cs == [] then Some(at)
    else
      var rest := cs[1..];
      match cs[0]
      case RootDir => Walk(t, [], rest, links, follow)
      case CurDir => if IsDirectory(t, at) then Walk(t, at, rest, links, follow) else None
      case ParentDir => if IsDirectory(t, at) then Walk(t, Up(at), rest, links, follow) else None
      case Name(n) =>
        var next := at + [n];
        if !IsDirectory(t, at) || next !in t then None
        else if t[next].Link? && (rest != [] || follow) then
          if links == 0 || t[next].target == [] then None
          else Walk(t, at, Components(t[next].target) + rest, links - 1, follow)
        else Walk(t, next, rest, links, follow)
  }

  function Resolve(t: Tree, cwd: Location, links: nat, path: Bytes, follow: bool): Option<Location> {
    if path == [] then None else Walk(t, cwd, Components(path), links, follow)
  }

  /** Removing names can make a path stop resolving; it never makes it resolve elsewhere. */
  lemma {:induction false} WalkInSubtree(
      small: Tree, big: Tree, at: Location, cs: seq<Component>, links: nat, follow: bool)
    requires Subtree(small, big) && Walk(small, at, cs, links, follow).Some?
    ensures Walk(big, at, cs, links, follow) == Walk(small, at, cs, links, follow)
    decreases links, |cs|
  {
    if cs == [] {
    } else {
      var rest := cs[1..];
      match cs[0]
      case RootDir => WalkInSubtree(small, big, [], rest, links, follow);
      case CurDir => WalkInSubtree(small, big, at, rest, links, follow);
      case ParentDir => WalkInSubtree(small, big, Up(at), rest, links, follow);
      case Name(n) =>
        var next := at + [n];
        if small[next].Link? && (rest != [] || follow) {
          WalkInSubtree(small, big, at, Components(small[next].target) + rest, links - 1, follow);
        } else {
          WalkInSubtree(small, big, next, rest, links, follow);
        }
    }
  }

  /** One more name on the end of a path is looked up in the directory that the path resolves to. */
  lemma {:induction false} WalkName(t: Tree, at: Location, cs: seq<Component>, n: Bytes, links: nat)
    ensures Walk(t, at, cs + [Name(n)], links, false) ==
            match Walk(t, at, cs, links, true)
            case None => None
            case Some(d) => if IsDirectory(t, d) && d + [n] in t then Some(d + [n]) else None
    decreases links, |cs|
  {
    var all := cs + [Name(n)];
    if cs == [] {
      assert all[1..] == [];
    } else {
      var rest := cs[1..];
      assert all[0] == cs[0] && all[1..] == rest + [Name(n)];
      match cs[0]
      case RootDir => WalkName(t, [], rest, n, links);
      case CurDir => WalkName(t, at, rest, n, links);
      case ParentDir => WalkName(t, Up(at), rest, n, links);
      case Name(first) =>
        var next := at + [first];
        if IsDirectory(t, at) && next in t && t[next].Link? {
          if links > 0 && t[next].target != [] {
            var target := Components(t[next].target);
            assert target + all[1..] == (target + rest) + [Name(n)];
            WalkName(t, at, target + rest, n, links - 1);
          }
        } else {
          WalkName(t, next, rest, n, links);
        }
    }
  }

  /** Following the last link or not makes no difference unless there is one. */
  lemma {:induction false} FollowOnlyMattersAtLinks(t: Tree, at: Location, cs: seq<Component>, links: nat)
    requires Walk(t, at, cs, links, false).Some?
    requires var l := Walk(t, at, cs, links, false).value; l in t && !t[l].Link?
    ensures Walk(t, at, cs, links, true) == Walk(t, at, cs, links, false)
    decreases links, |cs|
  {
    if cs == [] {
    } else {
      var rest := cs[1..];
      match cs[0]
      case RootDir => FollowOnlyMattersAtLinks(t, [], rest, links);
      case CurDir => FollowOnlyMattersAtLinks(t, at, rest, links);
      case ParentDir => FollowOnlyMattersAtLinks(t, Up(at), rest, links);
      case Name(n) =>
        var next := at + [n];
        if t[next].Link? && rest != [] {
          FollowOnlyMattersAtLinks(t, at, Components(t[next].target) + rest, links - 1);
        } else {
          FollowOnlyMattersAtLinks(t, next, rest, links);
        }
    }
  }

  /** A walk that follows every link never ends at one. */
  lemma {:induction false} WalkEndsOffLinks(t: Tree, at: Location, cs: seq<Component>, links: nat)
    requires WellFormedTree(t) && !(at in t && t[at].Link?)
    requires Walk(t, at, cs, links, true).Some?
    ensures var l := Walk(t, at, cs, links, true).value; !(l in t && t[l].Link?)
    decreases links, |cs|
  {
    if cs == [] {
    } else {
      hide Components;
      var rest := cs[1..];
      match cs[0]
      case RootDir => WalkEndsOffLinks(t, [], rest, links);
      case CurDir => WalkEndsOffLinks(t, at, rest, links);
      case ParentDir => WalkEndsOffLinks(t, Up(at), rest, links);
      case Name(n) =>
        var next := at + [n];
        if t[next].Link? {
          WalkEndsOffLinks(t, at, Components(t[next].target) + rest, links - 1);
        } else {
          WalkEndsOffLinks(t, next, rest, links);
        }
    }
  }

  function AsComponents(l: Location): seq<Component> {
    if l == [] then [] else [Name(l[0])] + AsComponents(l[1..])
  }

  /** A path of plain names that leads to `l`, either from the root or from the working directory. */
  ghost predicate Spells(cwd: Location, path: Bytes, l: Location) {
    && path != []
    && (|| Components(path) == [RootDir] + AsComponents(l)
        || (cwd <= l && Components(path) == AsComponents(l[|cwd|..])))
  }

  predicate StrictlyUnder(l: Location, d: Location) {
    d <= l && d != l
  }

  /**
   The walk, with links followed, passes no place strictly under `d`: neither as a directory on its way nor as a
   link. Deleting down there then cannot change where it leads.
   */
  predicate Steady(t: Tree, at: Location, cs: seq<Component>, links: nat, d: Location)
    decreases links, |cs|
  {
    if cs == [] then true
    else
      var rest := cs[1..];
      match cs[0]
      case RootDir => Steady(t, [], rest, links, d)
      case CurDir => !StrictlyUnder(at, d) && Steady(t, at, rest, links, d)
      case ParentDir => !StrictlyUnder(at, d) && Steady(t, Up(at), rest, links, d)
      case Name(n) =>
        var next := at + [n];
        && !StrictlyUnder(at, d) && !StrictlyUnder(next, d)
        && if IsDirectory(t, at) && next in t && t[next].Link? then
             links > 0 && Steady(t, at, Components(t[next].target) + rest, links - 1, d)
           else Steady(t, next, rest, links, d)
  }

  lemma SameOffTheTarget(before: Tree, now: Tree, d: Location, l: Location)
    requires OnlyRemovedUnder(before, now, d) && IsDirectory(now, d) && !StrictlyUnder(l, d)
    ensures l in now <==> l in before
    ensures l in now ==> now[l] == before[l]
  {
  }

  /** Such a walk leads to the same place as long as `d` itself is there. */
  lemma {:induction false} SteadyWalk(
      before: Tree, now: Tree, at: Location, cs: seq<Component>, links: nat, follow: bool, d: Location)
    requires OnlyRemovedUnder(before, now, d) && IsDirectory(now, d) && Steady(before, at, cs, links, d)
    ensures Walk(now, at, cs, links, follow) == Walk(before, at, cs, links, follow)
    ensures Steady(now, at, cs, links, d)
    decreases links, |cs|
  {
    if cs == [] {
    } else {
      hide Components, OnlyRemovedUnder;
      var rest := cs[1..];
      if cs[0] != RootDir {
        SameOffTheTarget(before, now, d, at);
      }
      match cs[0]
      case RootDir => SteadyWalk(before, now, [], rest, links, follow, d);
      case CurDir => SteadyWalk(before, now, at, rest, links, follow, d);
      case ParentDir => SteadyWalk(before, now, Up(at), rest, links, follow, d);
      case Name(n) =>
        var next := at + [n];
        SameOffTheTarget(before, now, d, next);
        if IsDirectory(before, at) && next in before && before[next].Link? {
          SteadyWalk(before, now, at, Components(before[next].target) + rest, links - 1, follow, d);
        } else {
          SteadyWalk(before, now, next, rest, links, follow, d);
        }
    }
  }

  /** The walk on to a directory inside `d` passes nothing strictly under that directory. */
  lemma {:induction false} SteadyChild(t: Tree, at: Location, cs: seq<Component>, links: nat, d: Location, n: Bytes)
    requires Steady(t, at, cs, links, d) && Walk(t, at, cs, links, true) == Some(d)
    requires IsDirectory(t, d + [n])
    ensures Steady(t, at, cs + [Name(n)], links, d + [n])
    decreases links, |cs|
  {
    hide Components;
    var all := cs + [Name(n)];
    assert StrictlyUnder(at, d + [n]) ==> StrictlyUnder(at, d);
    if cs == [] {
      assert all[0] == Name(n) && all[1..] == [];
    } else {
      var rest := cs[1..];
      assert all[0] == cs[0] && all[1..] == rest + [Name(n)];
      match cs[0]
      case RootDir => SteadyChild(t, [], rest, links, d, n);
      case CurDir => SteadyChild(t, at, rest, links, d, n);
      case ParentDir => SteadyChild(t, Up(at), rest, links, d, n);
      case Name(first) =>
        var next := at + [first];
        assert !StrictlyUnder(next, d + [n]);
        if IsDirectory(t, at) && next in t && t[next].Link? {
          var target := Components(t[next].target);
          assert target + all[1..] == (target + rest) + [Name(n)];
          SteadyChild(t, at, target + rest, links - 1, d, n);
        } else {
          SteadyChild(t, next, rest, links, d, n);
        }
    }
  }

  lemma StepInto(t: Tree, at: Location, n: Bytes, cs: seq<Component>, links: nat, follow: bool, d: Location)
    requires IsDirectory(t, at) && IsDirectory(t, at + [n]) && !StrictlyUnder(at + [n], d)
    ensures Walk(t, at, [Name(n)] + cs, links, follow) == Walk(t, at + [n], cs, links, follow)
    ensures Steady(t, at, [Name(n)] + cs, links, d) <==> Steady(t, at + [n], cs, links, d)
  {
    hide Components;
    assert ([Name(n)] + cs)[1..] == cs;
    assert StrictlyUnder(at, d) ==> StrictlyUnder(at + [n], d);
  }

  lemma ParentIsDirectory(t: Tree, at: Location, n: Bytes)
    requires WellFormedTree(t) && at + [n] in t
    ensures IsDirectory(t, at)
  {
    assert (at + [n])[..|at + [n]| - 1] == at;
  }

  lemma OffTheTargetSoFar(l: Location, rest: Location, d: Location)
    requires !StrictlyUnder(l + rest, d)
    ensures !StrictlyUnder(l, d)
  {
    assert StrictlyUnder(l, d) ==> d <= l + rest && |l + rest| > |d|;
  }

  /** Plain names lead down through directories to the one they spell, and on from there. */
  lemma {:induction false} WalkDown(
      t: Tree, at: Location, names: Location, cs: seq<Component>, links: nat, follow: bool, d: Location)
    requires WellFormedTree(t) && IsDirectory(t, at + names) && !StrictlyUnder(at + names, d)
    ensures IsDirectory(t, at)
    ensures Walk(t, at, AsComponents(names) + cs, links, follow) == Walk(t, at + names, cs, links, follow)
    ensures Steady(t, at, AsComponents(names) + cs, links, d) <==> Steady(t, at + names, cs, links, d)
    decreases |names|
  {
    hide Walk, Steady, WellFormedTree, StrictlyUnder;
    if names == [] {
      assert at + names == at && AsComponents(names) + cs == cs;
    } else {
      var next, rest := at + [names[0]], names[1..];
      assert next + rest == at + names;
      WalkDown(t, next, rest, cs, links, follow, d);
      ParentIsDirectory(t, at, names[0]);
      OffTheTargetSoFar(next, rest, d);
      StepInto(t, at, names[0], AsComponents(rest) + cs, links, follow, d);
      assert AsComponents(names) + cs == [Name(names[0])] + (AsComponents(rest) + cs);
    }
  }

  lemma WalkFromRoot(t: Tree, at: Location, cs: seq<Component>, links: nat, follow: bool, d: Location)
    ensures Walk(t, at, [RootDir] + cs, links, follow) == Walk(t, [], cs, links, follow)
    ensures Steady(t, at, [RootDir] + cs, links, d) <==> Steady(t, [], cs, links, d)
  {
    hide Components;
    assert ([RootDir] + cs)[1..] == cs;
  }

  lemma NoNamesLeft(t: Tree, d: Location, links: nat, follow: bool)
    ensures Walk(t, d, [], links, follow) == Some(d) && Steady(t, d, [], links, d)
  {
  }

  /** A path of plain names leads, and does so steadily, to the directory it spells, whatever links are elsewhere. */
  lemma SpelledPathResolves(t: Tree, cwd: Location, links: nat, path: Bytes, d: Location, follow: bool)
    requires WellFormedTree(t) && Spells(cwd, path, d) && IsDirectory(t, d)
    ensures Resolve(t, cwd, links, path, follow) == Some(d)
    ensures Steady(t, cwd, Components(path), links, d)
  {
    hide Components, Walk, Steady;
    var absolute := Components(path) == [RootDir] + AsComponents(d);
    var from: Location := if absolute then [] else cwd;
    var names := d[|from|..];
    assert from + names == d && AsComponents(names) + [] == AsComponents(names);
    WalkDown(t, from, names, [], links, follow, d);
    NoNamesLeft(t, d, links, follow);
    if absolute {
      WalkFromRoot(t, cwd, AsComponents(d), links, follow, d);
    }
  }
}
