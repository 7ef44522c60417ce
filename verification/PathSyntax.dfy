/**
 Paths as `src/path.rs` has them: bytes with `/` between the parts.

 Two readings of a path are specified here. `Components` is what the source's forward iterator yields:
 the root, then every non-empty part, with every `.` kept. `Normal` is the reading that the
 backwards-scanning `parent` and `file_name` follow: the same list without its `.` entries, except a
 leading one.
 */
module PathSyntax {
  import opened Wrappers
  import opened ByteStrings

  const CUR_DIR: Bytes := [DOT]
  const PARENT_DIR: Bytes := [DOT, DOT]
  const ROOT: Bytes := [SLASH]

  datatype Component = RootDir | CurDir | ParentDir | Name(name: Bytes)

  function ToComponent(part: Bytes): Component {
    if part == CUR_DIR then CurDir else if part == PARENT_DIR then ParentDir else Name(part)
  }

  function AsBytes(c: Component): Bytes {
    match c
    case RootDir => ROOT
    case CurDir => CUR_DIR
    case ParentDir => PARENT_DIR
    case Name(n) => n
  }

  predicate IsAbsolute(p: Bytes) {
    |p| > 0 && p[0] == SLASH
  }

  /** The non-empty stretches between slashes. */
  function Parts(b: Bytes): seq<Bytes>
    decreases |b|
  {
    match Position(b, SLASH)
    case None => if b == [] then [] else [b]
    case Some(i) => (if i == 0 then [] else [b[..i]]) + Parts(b[i + 1..])
  }

  function ToComponents(parts: seq<Bytes>): (cs: seq<Component>)
    ensures |cs| == |parts|
    ensures forall i :: 0 <= i < |parts| ==> cs[i] == ToComponent(parts[i])
  {
    seq(|parts|, i requires 0 <= i < |parts| => ToComponent(parts[i]))
  }

  function Components(p: Bytes): seq<Component> {
    (if IsAbsolute(p) then [RootDir] else []) + ToComponents(Parts(p))
  }

  function DropCurDirs(cs: seq<Component>): seq<Component> {
    if cs == [] then []
    else (if cs[0] == CurDir then [] else [cs[0]]) + DropCurDirs(cs[1..])
  }

  function DropInnerCurDirs(cs: seq<Component>): seq<Component> {
    if cs == [] then [] else [cs[0]] + DropCurDirs(cs[1..])
  }

  function Normal(p: Bytes): seq<Component> {
    DropInnerCurDirs(Components(p))
  }

  // ---- Parts ----

  lemma CutAtSlash(b: Bytes, i: nat)
    requires i < |b| && b[i] == SLASH
    ensures b == b[..i] + ROOT + b[i + 1..]
  {
  }

  function PartsOfStretch(n: Bytes): seq<Bytes> {
    if n == [] then [] else [n]
  }

  lemma PartsOfOne(n: Bytes)
    requires SLASH !in n
    ensures Parts(n) == PartsOfStretch(n)
  {
  }

  lemma PartsFirst(n: Bytes, rest: Bytes)
    requires SLASH !in n
    ensures Parts(n + ROOT + rest) == PartsOfStretch(n) + Parts(rest)
  {
    hide Position;
    var s := n + ROOT + rest;
    PositionAfter(n, SLASH, rest);
    assert s[..|n|] == n && s[|n| + 1..] == rest;
  }

  /** A slash is exactly a boundary between parts. */
  lemma {:induction false} PartsConcat(a: Bytes, b: Bytes)
    ensures Parts(a + ROOT + b) == Parts(a) + Parts(b)
    decreases |a|
  {
    hide Parts;
    match Position(a, SLASH) {
      case None =>
        PartsOfOne(a);
        PartsFirst(a, b);
      case Some(i) =>
        var rest := a[i + 1..];
        CutAtSlash(a, i);
        assert a + ROOT + b == a[..i] + ROOT + (rest + ROOT + b);
        PartsFirst(a[..i], rest);
        PartsFirst(a[..i], rest + ROOT + b);
        PartsConcat(rest, b);
    }
  }

  /** Every part is non-empty and free of slashes. */
  lemma {:induction false} PartsAreNames(b: Bytes)
    ensures forall k :: 0 <= k < |Parts(b)| ==> Parts(b)[k] != [] && SLASH !in Parts(b)[k]
    decreases |b|
  {
    hide Position, Parts;
    match Position(b, SLASH) {
      case None =>
        PartsOfOne(b);
      case Some(i) =>
        CutAtSlash(b, i);
        PartsFirst(b[..i], b[i + 1..]);
        PartsAreNames(b[i + 1..]);
    }
  }

  /** A leading slash adds no part. */
  lemma PartsSkipSlash(b: Bytes)
    ensures Parts(ROOT + b) == Parts(b)
  {
    PartsConcat([], b);
    assert [] + ROOT + b == ROOT + b;
  }

  /** A trailing slash adds no part. */
  lemma PartsDropSlash(b: Bytes)
    ensures Parts(b + ROOT) == Parts(b)
  {
    PartsConcat(b, []);
    assert b + ROOT + [] == b + ROOT;
  }

  lemma PartsEmpty()
    ensures Parts([]) == []
  {
  }

  lemma ToComponentsConcat(a: seq<Bytes>, b: seq<Bytes>)
    ensures ToComponents(a + b) == ToComponents(a) + ToComponents(b)
  {
  }

  // ---- Dropping `.` ----

  lemma {:induction false} DropCurDirsConcat(a: seq<Component>, b: seq<Component>)
    ensures DropCurDirs(a + b) == DropCurDirs(a) + DropCurDirs(b)
  {
    if a == [] {
      assert a + b == b;
    } else {
      assert (a + b)[1..] == a[1..] + b;
      DropCurDirsConcat(a[1..], b);
    }
  }

  lemma {:induction false} DroppingNothing(cs: seq<Component>)
    ensures |DropCurDirs(cs)| <= |cs|
    ensures DropCurDirs(cs) == cs <==> CurDir !in cs
  {
    if cs == [] {
    } else {
      DroppingNothing(cs[1..]);
      assert cs == [cs[0]] + cs[1..];
    }
  }

  /** The two readings of a path agree exactly when it has no `.` but a leading one. */
  lemma ReadingsAgree(p: Bytes)
    ensures Normal(p) == Components(p) <==> forall i :: 0 < i < |Components(p)| ==> Components(p)[i] != CurDir
  {
    hide Components;
    var cs := Components(p);
    if cs == [] {
    } else {
      DroppingNothing(cs[1..]);
      assert cs == [cs[0]] + cs[1..];
      assert Normal(p)[1..] == DropCurDirs(cs[1..]);
      assert forall i :: 0 < i < |cs| ==> cs[i] == cs[1..][i - 1];
    }
  }

  // ---- Printing: `push`, `join` and `from_iter` ----

  /** What `push` leaves in the buffer. */
  function Joined(base: Bytes, other: Bytes): Bytes {
    if IsAbsolute(other) then other
    else if base == [] || base[|base| - 1] == SLASH then base + other
    else base + ROOT + other
  }

  /** Appending to a path, with exactly one boundary between the two halves. */
  lemma PartsAppend(base: Bytes, other: Bytes)
    requires base != [] && base[|base| - 1] == SLASH
    ensures Parts(base + other) == Parts(base) + Parts(other)
  {
    hide Parts;
    var stem := base[..|base| - 1];
    assert base == stem + ROOT;
    PartsDropSlash(stem);
    PartsConcat(stem, other);
  }

  lemma JoinParts(base: Bytes, other: Bytes)
    requires base != [] && !IsAbsolute(other)
    ensures Parts(Joined(base, other)) == Parts(base) + Parts(other)
    ensures IsAbsolute(Joined(base, other)) == IsAbsolute(base)
  {
    hide Parts;
    if base[|base| - 1] == SLASH {
      PartsAppend(base, other);
    } else {
      PartsConcat(base, other);
    }
  }

  /** Joining concatenates component lists, unless the right side is absolute: then it replaces the left. */
  lemma JoinComponents(base: Bytes, other: Bytes)
    ensures Components(Joined(base, other)) ==
            if IsAbsolute(other) then Components(other) else Components(base) + Components(other)
  {
    hide Parts, ToComponents;
    if base == [] {
      PartsEmpty();
      assert base + other == other;
    } else if !IsAbsolute(other) {
      JoinParts(base, other);
      ToComponentsConcat(Parts(base), Parts(other));
      hide Joined;
    }
  }

  /** Pushing the components one after another onto an empty buffer. */
  function Collected(cs: seq<Component>): Bytes {
    if cs == [] then [] else Joined(Collected(cs[..|cs| - 1]), AsBytes(cs[|cs| - 1]))
  }

  /** A list that a path can have: the root only in front, and names that are names. */
  predicate IsNameBytes(n: Bytes) {
    n != [] && SLASH !in n && n != CUR_DIR && n != PARENT_DIR
  }

  ghost predicate WellFormed(cs: seq<Component>) {
    forall i :: 0 <= i < |cs| ==> (cs[i] == RootDir ==> i == 0) && (cs[i].Name? ==> IsNameBytes(cs[i].name))
  }

  lemma ComponentsWellFormed(p: Bytes)
    ensures WellFormed(Components(p))
  {
    hide Parts;
    PartsAreNames(p);
  }

  lemma ComponentsOfOne(c: Component)
    requires c.Name? ==> IsNameBytes(c.name)
    ensures Components(AsBytes(c)) == [c]
  {
    if c == RootDir {
      PartsSkipSlash([]);
      assert ROOT + [] == ROOT;
    } else {
      PartsOfOne(AsBytes(c));
    }
  }

  lemma WellFormedPush(base: Bytes, cs: seq<Component>, c: Component)
    requires Components(base) == cs && WellFormed(cs + [c])
    ensures Components(Joined(base, AsBytes(c))) == cs + [c]
  {
    assert (cs + [c])[|cs|] == c;
    ComponentsOfOne(c);
    JoinComponents(base, AsBytes(c));
  }

  lemma {:induction false} CollectWellFormed(cs: seq<Component>)
    requires WellFormed(cs)
    ensures Components(Collected(cs)) == cs
  {
    if cs == [] {
    } else {
      hide Components, Joined, Parts;
      var init := cs[..|cs| - 1];
      assert cs == init + [cs[|cs| - 1]];
      CollectWellFormed(init);
      WellFormedPush(Collected(init), init, cs[|cs| - 1]);
    }
  }

  /** Printing a component list and parsing it back gives the list exactly when it is well formed. */
  lemma CollectThenParse(cs: seq<Component>)
    ensures Components(Collected(cs)) == cs <==> WellFormed(cs)
  {
    if WellFormed(cs) {
      CollectWellFormed(cs);
    }
    ComponentsWellFormed(Collected(cs));
  }

  /** Parsing, printing and parsing again loses nothing, for every byte string. */
  lemma ParsePrintParse(p: Bytes)
    ensures Components(Collected(Components(p))) == Components(p)
  {
    ComponentsWellFormed(p);
    CollectWellFormed(Components(p));
  }

  // ---- `starts_with` and `strip_prefix` ----

  predicate EndsWithSlash(p: Bytes) {
    |p| > 0 && p[|p| - 1] == SLASH
  }

  predicate StartsWith(p: Bytes, prefix: Bytes) {
    && |p| >= |prefix|
    && p[..|prefix|] == prefix
    && (|p| == |prefix| || p[|prefix|] == SLASH || EndsWithSlash(prefix))
  }

  function StripPrefix(p: Bytes, prefix: Bytes): Option<Bytes> {
    if !StartsWith(p, prefix) then None
    else
      var rest := p[|prefix|..];
      Some(if |rest| > 0 && rest[0] == SLASH then rest[1..] else rest)
  }

  /** What is left after a matched prefix starts at a boundary between parts. */
  lemma PrefixParts(p: Bytes, prefix: Bytes)
    requires StartsWith(p, prefix) && prefix != []
    ensures Parts(p) == Parts(prefix) + Parts(p[|prefix|..])
  {
    hide Parts;
    var rest := p[|prefix|..];
    assert p == prefix + rest;
    if rest == [] {
      PartsEmpty();
    } else if EndsWithSlash(prefix) {
      PartsAppend(prefix, rest);
    } else {
      assert rest == ROOT + rest[1..];
      assert p == prefix + ROOT + rest[1..];
      PartsConcat(prefix, rest[1..]);
      PartsSkipSlash(rest[1..]);
    }
  }

  /** Text glued onto a path that does not end in a slash changes its last part. */
  lemma GluedPartDiffers(prefix: Bytes, rest: Bytes)
    requires prefix != [] && !EndsWithSlash(prefix)
    requires rest != [] && rest[0] != SLASH
    ensures !(Parts(prefix) <= Parts(prefix + rest))
  {
    hide Parts, Position, RPosition;
    var stem, last := [], prefix;
    match RPosition(prefix, SLASH) {
      case None =>
      case Some(i) =>
        stem, last := prefix[..i], prefix[i + 1..];
        assert prefix == stem + ROOT + last;
        assert prefix + rest == stem + ROOT + (last + rest);
        PartsConcat(stem, last);
        PartsConcat(stem, last + rest);
    }
    PartsOfOne(last);
    match Position(rest, SLASH) {
      case None =>
        PartsOfOne(last + rest);
      case Some(j) =>
        assert last + rest == (last + rest[..j]) + ROOT + rest[j + 1..];
        PartsFirst(last + rest[..j], rest[j + 1..]);
    }
    var at := |Parts(prefix)| - 1;
    assert Parts(prefix)[at] == last;
    assert Parts(prefix + rest)[at] != last;
  }

  lemma PartsFromComponents(a: seq<Bytes>, b: seq<Bytes>)
    requires ToComponents(a) <= ToComponents(b)
    ensures a <= b
  {
    forall k | 0 <= k < |a|
      ensures a[k] == b[k]
    {
      assert ToComponents(a)[k] == ToComponents(b)[k];
      assert AsBytes(ToComponent(a[k])) == a[k] && AsBytes(ToComponent(b[k])) == b[k];
    }
  }

  /** A component prefix is a prefix of the parts themselves. */
  lemma PrefixOfComponents(prefix: Bytes, p: Bytes)
    requires prefix != [] && prefix <= p && Components(prefix) <= Components(p)
    ensures Parts(prefix) <= Parts(p)
  {
    hide Parts, ToComponents;
    var root := if IsAbsolute(p) then 1 else 0;
    assert ToComponents(Parts(prefix)) == Components(prefix)[root..];
    assert ToComponents(Parts(p)) == Components(p)[root..];
    PartsFromComponents(Parts(prefix), Parts(p));
  }

  /**
   `starts_with` is exact for component prefixes among byte prefixes, except that the empty prefix is
   refused by a relative path that is not itself empty.
   */
  lemma StartsWithExact(p: Bytes, prefix: Bytes)
    ensures StartsWith(p, prefix) <==>
              && prefix <= p
              && (prefix != [] || p == [] || IsAbsolute(p))
              && Components(prefix) <= Components(p)
  {
    hide Parts, ToComponents;
    if prefix == [] {
      PartsEmpty();
    } else if StartsWith(p, prefix) {
      PrefixParts(p, prefix);
      ToComponentsConcat(Parts(prefix), Parts(p[|prefix|..]));
    } else if prefix <= p {
      var rest := p[|prefix|..];
      assert p == prefix + rest;
      GluedPartDiffers(prefix, rest);
      if Components(prefix) <= Components(p) {
        PrefixOfComponents(prefix, p);
      }
    }
  }

  lemma NoPartsMeansSlashes(b: Bytes)
    requires b != [] && Parts(b) == []
    ensures IsAbsolute(b)
  {
  }

  /** What `strip_prefix` leaves has the parts that the prefix does not; an empty prefix takes a leading root off. */
  lemma StrippedComponents(p: Bytes, prefix: Bytes)
    requires StripPrefix(p, prefix).Some?
    ensures Components(p) ==
            (if prefix == [] && IsAbsolute(p) then [RootDir] else Components(prefix))
            + ToComponents(Parts(StripPrefix(p, prefix).value))
  {
    hide Parts;
    var rest, raw := StripPrefix(p, prefix).value, p[|prefix|..];
    if raw != rest {
      assert raw == ROOT + rest;
      PartsSkipSlash(rest);
    }
    if prefix == [] {
      assert raw == p;
      PartsEmpty();
    } else {
      PrefixParts(p, prefix);
      ToComponentsConcat(Parts(prefix), Parts(rest));
    }
  }

  lemma StripEmptyThenJoin(p: Bytes)
    requires StripPrefix(p, []).Some?
    ensures var rest := StripPrefix(p, []).value;
      Components(Joined([], rest)) == Components(p) <==> (IsAbsolute(rest) || !IsAbsolute(p))
  {
    hide Parts;
    var rest := StripPrefix(p, []).value;
    assert [] + rest == rest;
    assert p[0..] == p;
    if rest != p {
      assert p == ROOT + rest;
      PartsSkipSlash(rest);
    }
  }

  /** Two separators stand in the path where the prefix ends. */
  predicate DoubledAfter(p: Bytes, prefix: Bytes) {
    |p| >= |prefix| + 2 && p[|prefix|] == SLASH && p[|prefix| + 1] == SLASH
  }

  lemma SameTail(a: seq<Component>, b: seq<Component>, tail: seq<Component>)
    ensures a + tail == b + tail <==> a == b
  {
    if a + tail == b + tail {
      assert |a| == |b|;
      assert a == (a + tail)[..|a|] && b == (b + tail)[..|b|];
    }
  }

  lemma OnlyRoot(b: Bytes)
    requires b != []
    ensures Components(b) == [RootDir] <==> Parts(b) == []
  {
    if Parts(b) == [] {
      NoPartsMeansSlashes(b);
    } else if !IsAbsolute(b) {
      assert Components(b)[0] == ToComponent(Parts(b)[0]);
    }
  }

  lemma Rejoin(p: Bytes, prefix: Bytes, rest: Bytes)
    requires prefix != [] && Components(p) == Components(prefix) + ToComponents(Parts(rest))
    ensures Components(Joined(prefix, rest)) == Components(p) <==> (IsAbsolute(rest) ==> Parts(prefix) == [])
  {
    hide Parts, ToComponents, Joined;
    JoinComponents(prefix, rest);
    assert IsAbsolute(rest) ==> Components(rest) == [RootDir] + ToComponents(Parts(rest));
    assert !IsAbsolute(rest) ==> Components(rest) == ToComponents(Parts(rest));
    if IsAbsolute(rest) {
      SameTail([RootDir], Components(prefix), ToComponents(Parts(rest)));
      OnlyRoot(prefix);
    }
  }

  /**
   `strip_prefix` removes one separator, so joining the remainder back gives the path again unless a doubled
   separator follows a prefix that has parts, or the prefix is empty and the path has a single leading separator.
   */
  lemma StripThenJoin(p: Bytes, prefix: Bytes)
    requires StartsWith(p, prefix)
    ensures var rest := StripPrefix(p, prefix).value;
      Components(Joined(prefix, rest)) == Components(p) <==>
        if DoubledAfter(p, prefix) then Parts(prefix) == [] else prefix != [] || !IsAbsolute(p)
  {
    var rest := StripPrefix(p, prefix).value;
    assert IsAbsolute(rest) <==> DoubledAfter(p, prefix) by {
      hide Parts, Components;
    }
    if prefix == [] {
      StripEmptyThenJoin(p);
      PartsEmpty();
    } else {
      StrippedComponents(p, prefix);
      Rejoin(p, prefix, rest);
    }
  }

  /** A doubled separator is no component. */
  lemma DoubledSlash(a: Byte, b: Byte)
    requires a != SLASH && b != SLASH
    ensures Components([a, SLASH, SLASH, b]) == Components([a, SLASH, b])
  {
    hide Parts;
    PartsConcat([a], [b]);
    PartsConcat([a], [SLASH, b]);
    PartsSkipSlash([b]);
    assert [a] + ROOT + [b] == [a, SLASH, b] && [a] + ROOT + [SLASH, b] == [a, SLASH, SLASH, b];
    assert ROOT + [b] == [SLASH, b];
  }

  lemma NotAPrefix(p: Bytes, prefix: Bytes, i: nat)
    requires i < |p| && i < |prefix| && p[i] != prefix[i]
    ensures !StartsWith(p, prefix)
  {
    if |prefix| <= |p| {
      assert p[..|prefix|][i] != prefix[i];
    }
  }

  /**
   `a` does not start with the empty path, nor `a//b` with `a/b`, though the components match; and `a` stripped from
   `a//b` leaves `/b`, which joined to `a` is `/b`.
   */
  lemma PrefixesGoAstray()
    ensures var a, b: Byte := 97, 98;
      && Components([]) <= Components([a]) && !StartsWith([a], [])
      && Components([a, SLASH, b]) == Components([a, SLASH, SLASH, b])
      && !StartsWith([a, SLASH, SLASH, b], [a, SLASH, b])
      && StripPrefix([a, SLASH, SLASH, b], [a]) == Some([SLASH, b])
      && Joined([a], [SLASH, b]) == [SLASH, b]
      && Components([SLASH, b]) != Components([a, SLASH, SLASH, b])
  {
    var a, b: Byte := 97, 98;
    PartsEmpty();
    DoubledSlash(a, b);
    NotAPrefix([a, SLASH, SLASH, b], [a, SLASH, b], 2);
    hide Parts;
    StripThenJoin([a, SLASH, SLASH, b], [a]);
    PartsOfOne([a]);
    assert [a, SLASH, SLASH, b][1..][1..] == [SLASH, b];
  }
}
