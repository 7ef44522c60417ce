/**
 The parts of `src/path.rs` that scan a path backwards, and the owned path and iterators that use them.

 `Parent` and `FileName` compute byte ranges, by stepping back over separators and `.` components. The lemmas say
 what those ranges mean in terms of `Normal`, the component list of `PathSyntax`.
 */
module Path {
  import opened Wrappers
  import opened ByteStrings
  import opened PathSyntax

  predicate LeadingCurDir(p: Bytes) {
    |p| > 0 && p[0] == DOT && (|p| == 1 || p[1] == SLASH)
  }

  /** Where the removable components begin. */
  function BodyStart(p: Bytes): (start: nat)
    ensures start <= |p|
  {
    if IsAbsolute(p) || LeadingCurDir(p) then 1 else 0
  }

  /** How much of a body is left without its trailing separators and `.` components. */
  function TrimmedLength(body: Bytes): (n: nat)
    ensures n <= |body|
    decreases |body|
  {
    match RPosition(body, SLASH)
    case Some(i) =>
      var last := body[i + 1..];
      if last != [] && last != CUR_DIR then |body| else TrimmedLength(body[..i])
    case None =>
      if body != CUR_DIR then |body| else 0
  }

  function TrimBack(p: Bytes, end: nat): (e: nat)
    requires BodyStart(p) <= end <= |p|
    ensures BodyStart(p) <= e <= end
  {
    BodyStart(p) + TrimmedLength(p[BodyStart(p)..end])
  }

  /** One turn of the loop in `trim_back`. */
  lemma TrimmedStep(body: Bytes)
    ensures TrimmedLength(body) ==
              match RPosition(body, SLASH)
              case Some(i) =>
                if body[i + 1..] != [] && body[i + 1..] != CUR_DIR then |body| else TrimmedLength(body[..i])
              case None => if body != CUR_DIR then |body| else 0
    ensures TrimmedLength([]) == 0
  {
  }

  lemma SliceOfSlice(p: Bytes, floor: nat, end: nat, i: nat)
    requires floor <= end <= |p| && i <= end - floor
    ensures p[floor..end][..i] == p[floor..floor + i]
  {
  }

  method TrimBackByScanning(p: Bytes, from: nat) returns (end: nat)
    requires BodyStart(p) <= from <= |p|
    ensures end == TrimBack(p, from)
  {
    hide RPosition, TrimmedLength;
    TrimmedStep([]);
    end := from;
    var floor := BodyStart(p);
    while end > floor
      invariant floor <= end <= from
      invariant TrimmedLength(p[floor..end]) == TrimmedLength(p[floor..from])
      decreases end
    {
      var body := p[floor..end];
      TrimmedStep(body);
      match RPosition(body, SLASH)
      case Some(i) =>
        var last := body[i + 1..];
        if last != [] && last != CUR_DIR {
          break;
        }
        SliceOfSlice(p, floor, end, i);
        end := floor + i;
      case None =>
        if body != CUR_DIR {
          break;
        }
        assert p[floor..floor] == [];
        end := floor;
    }
  }

  /** The byte range of the final component that is a name or `..`. */
  function LastBodyComponent(p: Bytes): (r: Option<(nat, nat)>)
    ensures r.Some? ==> BodyStart(p) <= r.value.0 <= r.value.1 <= |p|
  {
    var floor := BodyStart(p);
    var end := TrimBack(p, |p|);
    if end == floor then None
    else
      var body := p[floor..end];
      var start := match RPosition(body, SLASH) case None => floor case Some(i) => floor + i + 1;
      Some((start, end))
  }

  function FileName(p: Bytes): Option<Bytes> {
    match LastBodyComponent(p)
    case None => None
    case Some(range) =>
      var name := p[range.0..range.1];
      if name == PARENT_DIR then None else Some(name)
  }

  function Parent(p: Bytes): Option<Bytes> {
    match LastBodyComponent(p)
    case Some(range) => Some(p[..TrimBack(p, range.0)])
    case None => if LeadingCurDir(p) then Some([]) else None
  }

  // ---- The names in the body of a path ----

  function DropDots(parts: seq<Bytes>): seq<Bytes> {
    if parts == [] then [] else (if parts[0] == CUR_DIR then [] else [parts[0]]) + DropDots(parts[1..])
  }

  function Names(body: Bytes): seq<Bytes> {
    DropDots(Parts(body))
  }

  function Head(p: Bytes): seq<Component> {
    if IsAbsolute(p) then [RootDir] else if LeadingCurDir(p) then [CurDir] else []
  }

  lemma {:induction false} DropDotsConcat(a: seq<Bytes>, b: seq<Bytes>)
    ensures DropDots(a + b) == DropDots(a) + DropDots(b)
  {
    if a == [] {
      assert a + b == b;
    } else {
      assert (a + b)[1..] == a[1..] + b;
      DropDotsConcat(a[1..], b);
    }
  }

  lemma {:induction false} DropDotsOnComponents(parts: seq<Bytes>)
    ensures DropCurDirs(ToComponents(parts)) == ToComponents(DropDots(parts))
  {
    if parts == [] {
    } else {
      assert ToComponents(parts)[1..] == ToComponents(parts[1..]);
      DropDotsOnComponents(parts[1..]);
      ToComponentsConcat(if parts[0] == CUR_DIR then [] else [parts[0]], DropDots(parts[1..]));
    }
  }

  lemma {:induction false} NoDotsLeft(parts: seq<Bytes>, k: nat)
    requires k < |DropDots(parts)|
    ensures DropDots(parts)[k] != CUR_DIR
  {
    var here := if parts[0] == CUR_DIR then 0 else 1;
    if k < here {
    } else {
      NoDotsLeft(parts[1..], k - here);
    }
  }

  lemma NamesConcat(a: Bytes, b: Bytes)
    ensures Names(a + ROOT + b) == Names(a) + Names(b)
  {
    hide Parts;
    PartsConcat(a, b);
    DropDotsConcat(Parts(a), Parts(b));
  }

  function NameOfStretch(n: Bytes): seq<Bytes> {
    if n == [] || n == CUR_DIR then [] else [n]
  }

  lemma NamesOfOne(n: Bytes)
    requires SLASH !in n
    ensures Names(n) == NameOfStretch(n)
  {
    hide Parts;
    PartsOfOne(n);
    assert [n][1..] == [];
    assert DropDots([n][1..]) == [];
  }

  lemma NormalOfLeadingCurDir(p: Bytes)
    requires LeadingCurDir(p)
    ensures Normal(p) == [CurDir] + ToComponents(Names(p[1..]))
  {
    hide Parts;
    PartsOfOne(CUR_DIR);
    if |p| == 1 {
      PartsEmpty();
      assert p == CUR_DIR;
      assert p[1..] == [];
    } else {
      assert p[1..] == ROOT + p[2..];
      assert p == CUR_DIR + ROOT + p[2..];
      PartsFirst(CUR_DIR, p[2..]);
      PartsSkipSlash(p[2..]);
      assert Components(p)[1..] == ToComponents(Parts(p[2..]));
      DropDotsOnComponents(Parts(p[2..]));
    }
  }

  lemma FirstPart(p: Bytes)
    requires !IsAbsolute(p) && !LeadingCurDir(p) && Parts(p) != []
    ensures Parts(p)[0] != CUR_DIR
  {
  }

  lemma InnerDotsDropped(parts: seq<Bytes>)
    requires parts != [] ==> parts[0] != CUR_DIR
    ensures DropInnerCurDirs(ToComponents(parts)) == ToComponents(DropDots(parts))
  {
    if parts == [] {
      assert ToComponents(parts) == [];
    } else {
      var cs := ToComponents(parts);
      assert cs[1..] == ToComponents(parts[1..]);
      DropDotsOnComponents(parts[1..]);
      ToComponentsConcat([parts[0]], DropDots(parts[1..]));
      assert [cs[0]] == ToComponents([parts[0]]);
    }
  }

  lemma NormalOfNamesOnly(p: Bytes)
    requires !IsAbsolute(p) && !LeadingCurDir(p)
    ensures Normal(p) == ToComponents(Names(p))
  {
    if Parts(p) != [] {
      FirstPart(p);
    }
    hide Parts, ToComponents, DropDots, DropInnerCurDirs;
    InnerDotsDropped(Parts(p));
    assert [] + ToComponents(Parts(p)) == ToComponents(Parts(p));
  }

  /** The normal reading is the head, then the names of the body. */
  lemma NormalIsHeadAndNames(p: Bytes)
    ensures Normal(p) == Head(p) + ToComponents(Names(p[BodyStart(p)..]))
  {
    if IsAbsolute(p) {
      hide Parts;
      assert p == ROOT + p[1..];
      PartsSkipSlash(p[1..]);
      assert Components(p)[1..] == ToComponents(Parts(p[1..]));
      DropDotsOnComponents(Parts(p[1..]));
    } else if LeadingCurDir(p) {
      NormalOfLeadingCurDir(p);
    } else {
      NormalOfNamesOnly(p);
    }
  }

  // ---- Scanning backwards ----

  function LastPiece(b: Bytes): Bytes {
    match RPosition(b, SLASH) case None => b case Some(i) => b[i + 1..]
  }

  /** Splitting off the last piece splits off its name, if it is one. */
  lemma NamesByLastPiece(b: Bytes)
    ensures var piece := LastPiece(b);
      && |piece| <= |b| && SLASH !in piece
      && Names(b) == Names(b[..|b| - |piece|]) + NameOfStretch(piece)
  {
    hide Names;
    var piece := LastPiece(b);
    NamesOfOne(piece);
    match RPosition(b, SLASH) {
      case None =>
        NamesOfOne([]);
        assert b[..0] == [];
      case Some(i) =>
        var stem := b[..i];
        assert b == stem + ROOT + piece;
        assert b[..|b| - |piece|] == stem + ROOT;
        assert stem + ROOT == stem + ROOT + [];
        NamesConcat(stem, piece);
        NamesConcat(stem, []);
        NamesOfOne([]);
    }
  }

  /** Trimming drops no name, and stops at the start or right after a name. */
  lemma {:induction false} TrimmingKeepsNames(body: Bytes)
    ensures var kept := body[..TrimmedLength(body)];
      && Names(kept) == Names(body)
      && (kept != [] ==> NameOfStretch(LastPiece(kept)) != [])
    decreases |body|
  {
    hide Names, RPosition;
    assert body[..|body|] == body;
    match RPosition(body, SLASH) {
      case Some(i) =>
        var stem, last := body[..i], body[i + 1..];
        if last == [] || last == CUR_DIR {
          CutAtSlash(body, i);
          NamesConcat(stem, last);
          NamesOfOne(last);
          TrimmingKeepsNames(stem);
          assert stem[..TrimmedLength(stem)] == body[..TrimmedLength(body)];
        }
      case None =>
        NamesOfOne(CUR_DIR);
        NamesOfOne([]);
    }
  }

  /** `trim_back` drops no name. */
  lemma TrimBackKeepsNames(p: Bytes, end: nat)
    requires BodyStart(p) <= end <= |p|
    ensures Names(p[BodyStart(p)..TrimBack(p, end)]) == Names(p[BodyStart(p)..end])
    ensures var e := TrimBack(p, end);
      e > BodyStart(p) ==> NameOfStretch(LastPiece(p[BodyStart(p)..e])) != []
  {
    hide Names, TrimmedLength, LastPiece, NameOfStretch;
    var body := p[BodyStart(p)..end];
    assert p[BodyStart(p)..TrimBack(p, end)] == body[..TrimmedLength(body)];
    TrimmingKeepsNames(body);
  }

  /** A prefix that ends at the floor or right after a name reads like the path it came from. */
  lemma PrefixKeepsHead(p: Bytes, e: nat)
    requires BodyStart(p) <= e <= |p|
    requires e > BodyStart(p) ==> NameOfStretch(LastPiece(p[BodyStart(p)..e])) != []
    ensures BodyStart(p[..e]) == BodyStart(p) && Head(p[..e]) == Head(p)
    ensures Normal(p[..e]) == Head(p) + ToComponents(Names(p[BodyStart(p)..e]))
  {
    hide Names, Normal;
    var q := p[..e];
    assert q[BodyStart(q)..] == p[BodyStart(p)..e];
    NormalIsHeadAndNames(q);
  }

  /** The range found is where the last piece of the trimmed body stands. */
  lemma LastRange(p: Bytes, floor: nat, end: nat, piece: Bytes)
    requires floor == BodyStart(p) && end == TrimBack(p, |p|) && end != floor
    requires piece == LastPiece(p[floor..end])
    ensures |piece| <= end - floor && LastBodyComponent(p) == Some((end - |piece|, end))
    ensures p[end - |piece|..end] == piece
  {
    hide TrimBack, RPosition;
    var body := p[floor..end];
    match RPosition(body, SLASH)
    case None =>
    case Some(i) => assert body[i + 1..] == p[floor + i + 1..end];
  }

  /** The names are those before the range found, then the bytes in the range; no range means no names. */
  lemma LastBodyComponentSplits(p: Bytes)
    ensures var floor := BodyStart(p);
      match LastBodyComponent(p)
      case None => Names(p[floor..]) == []
      case Some(range) =>
        var name := p[range.0..range.1];
        && Names(p[floor..]) == Names(p[floor..range.0]) + [name]
        && name != [] && name != CUR_DIR && SLASH !in name
  {
    hide Names, TrimBack, RPosition, LastPiece;
    var floor, end := BodyStart(p), TrimBack(p, |p|);
    assert p[floor..|p|] == p[floor..];
    TrimBackKeepsNames(p, |p|);
    if end == floor {
      assert p[floor..end] == [];
      NamesOfOne([]);
    } else {
      var body := p[floor..end];
      var piece := LastPiece(body);
      NamesByLastPiece(body);
      LastRange(p, floor, end, piece);
      assert body[..|body| - |piece|] == p[floor..end - |piece|];
    }
  }

  lemma ParentDropsName(p: Bytes)
    requires LastBodyComponent(p).Some?
    ensures var start := LastBodyComponent(p).value.0;
      && Normal(p[..TrimBack(p, start)]) == Head(p) + ToComponents(Names(p[BodyStart(p)..start]))
      && Normal(p) == Normal(p[..TrimBack(p, start)])
                   + [ToComponent(p[start..LastBodyComponent(p).value.1])]
  {
    hide Names, Normal, LastPiece, RPosition, TrimBack;
    var range, floor := LastBodyComponent(p).value, BodyStart(p);
    NormalIsHeadAndNames(p);
    LastBodyComponentSplits(p);
    TrimBackKeepsNames(p, range.0);
    PrefixKeepsHead(p, TrimBack(p, range.0));
    ToComponentsConcat(Names(p[floor..range.0]), [p[range.0..range.1]]);
  }

  lemma NoNamesMeansHead(p: Bytes)
    requires LastBodyComponent(p).None?
    ensures Normal(p) == Head(p)
  {
    hide Names, Normal, LastBodyComponent;
    LastBodyComponentSplits(p);
    NormalIsHeadAndNames(p);
  }

  lemma WithoutLast(a: seq<Component>, c: Component)
    ensures (a + [c])[..|a + [c]| - 1] == a
  {
  }

  lemma NormalOfEmpty()
    ensures Normal([]) == []
  {
  }

  /**
   `parent` drops the last component of the normal reading, and answers `None` exactly when there is nothing
   but a root to drop from.
   */
  lemma ParentDropsLast(p: Bytes)
    ensures Parent(p).None? <==> Normal(p) == [] || Normal(p) == [RootDir]
    ensures match Parent(p)
            case None => true
            case Some(q) => q <= p && |q| < |p| && Normal(q) == Normal(p)[..|Normal(p)| - 1]
  {
    hide Names, Normal, LastBodyComponent, TrimBack;
    match LastBodyComponent(p) {
      case None =>
        NoNamesMeansHead(p);
        NormalOfEmpty();
      case Some(range) =>
        var q, name := p[..TrimBack(p, range.0)], p[range.0..range.1];
        ParentDropsName(p);
        LastBodyComponentSplits(p);
        assert ToComponent(name) != RootDir;
        WithoutLast(Normal(q), ToComponent(name));
        assert Normal(p)[|Normal(p)| - 1] == ToComponent(name);
    }
  }

  /** `file_name` is the last component of the normal reading when that is a name. */
  lemma FileNameIsLast(p: Bytes)
    ensures FileName(p) ==
            var cs := Normal(p);
            if cs != [] && cs[|cs| - 1].Name? then Some(cs[|cs| - 1].name) else None
  {
    hide Names, Normal;
    NormalIsHeadAndNames(p);
    LastBodyComponentSplits(p);
    match LastBodyComponent(p) {
      case None =>
      case Some(range) =>
        ToComponentsConcat(Names(p[BodyStart(p)..range.0]), [p[range.0..range.1]]);
    }
  }

  // ---- `parent` is the shortest answer ----

  lemma ShorterPieceHasNoMoreNames(x: Bytes, y: Bytes)
    requires x <= y
    ensures |NameOfStretch(x)| <= |NameOfStretch(y)|
  {
  }

  lemma SlashBeforeEmptyPiece(b: Bytes)
    requires b != [] && LastPiece(b) == []
    ensures b[|b| - 1] == SLASH
  {
  }

  /** Cutting inside the last piece leaves the names before it alone. */
  lemma PieceAfterCut(b: Bytes, k: nat)
    requires |b| - |LastPiece(b)| <= k <= |b|
    ensures LastPiece(b[..k]) == b[|b| - |LastPiece(b)|..k]
    ensures Names(b[..k]) == Names(b[..|b| - |LastPiece(b)|]) + NameOfStretch(b[|b| - |LastPiece(b)|..k])
    ensures |Names(b[..k])| <= |Names(b)|
  {
    hide Names, RPosition;
    var cut := b[..k];
    match RPosition(b, SLASH) {
      case None =>
      case Some(i) =>
        assert cut[i + 1..] == b[i + 1..][..k - i - 1];
        RPositionIs(cut, SLASH, i);
    }
    NamesByLastPiece(b);
    NamesByLastPiece(cut);
    var start := |b| - |LastPiece(b)|;
    assert cut[..start] == b[..start];
    ShorterPieceHasNoMoreNames(b[start..k], LastPiece(b));
  }

  /** Cutting a body short never adds a name. */
  lemma {:induction false} CutHasNoMoreNames(b: Bytes, k: nat)
    requires k <= |b|
    ensures |Names(b[..k])| <= |Names(b)|
    decreases |b|
  {
    hide Names, LastPiece, RPosition;
    if k == |b| {
      assert b[..k] == b;
    } else {
      NamesByLastPiece(b);
      var piece := LastPiece(b);
      var start := |b| - |piece|;
      if k <= start && piece != [] {
        CutHasNoMoreNames(b[..start], k);
        assert b[..start][..k] == b[..k];
      } else if piece == [] {
        var stem := b[..|b| - 1];
        SlashBeforeEmptyPiece(b);
        assert b == stem + ROOT + [];
        NamesConcat(stem, []);
        NamesOfOne([]);
        CutHasNoMoreNames(stem, k);
        assert stem[..k] == b[..k];
      } else {
        PieceAfterCut(b, k);
      }
    }
  }

  /** Cutting a body that ends in a name loses that name or changes it. */
  lemma FewerOrOtherNames(b: Bytes, k: nat)
    requires k < |b| && NameOfStretch(LastPiece(b)) != []
    ensures Names(b[..k]) != Names(b)
  {
    hide Names;
    NamesByLastPiece(b);
    var start := |b| - |LastPiece(b)|;
    if k <= start {
      CutHasNoMoreNames(b[..start], k);
      assert b[..start][..k] == b[..k];
    } else {
      PieceAfterCut(b, k);
      var stem, short := Names(b[..start]), b[start..k];
      assert Names(b)[|stem|] == LastPiece(b);
      assert NameOfStretch(short) != [] ==> Names(b[..k])[|stem|] == short;
    }
  }

  lemma ComponentsApart(a: seq<Bytes>, b: seq<Bytes>)
    requires a != b
    ensures ToComponents(a) != ToComponents(b)
  {
    if |a| == |b| {
      var i :| 0 <= i < |a| && a[i] != b[i];
      assert AsBytes(ToComponent(a[i])) == a[i] && AsBytes(ToComponent(b[i])) == b[i];
    }
  }

  lemma NamesApart(head: seq<Component>, a: seq<Bytes>, b: seq<Bytes>)
    requires a != b
    ensures head + ToComponents(a) != head + ToComponents(b)
  {
    if head + ToComponents(a) == head + ToComponents(b) {
      assert (head + ToComponents(a))[|head|..] == ToComponents(a);
      assert (head + ToComponents(b))[|head|..] == ToComponents(b);
      ComponentsApart(a, b);
    }
  }

  lemma NamesHaveNoDots(body: Bytes)
    ensures forall j :: 0 <= j < |Names(body)| ==> Names(body)[j] != CUR_DIR
  {
    forall j | 0 <= j < |Names(body)|
      ensures Names(body)[j] != CUR_DIR
    {
      NoDotsLeft(Parts(body), j);
    }
  }

  /** Where a path ends right after a name, every shorter prefix reads differently. */
  lemma NothingShorterReadsTheSame(p: Bytes, e: nat, k: nat)
    requires BodyStart(p) <= e <= |p| && k < e
    requires e > BodyStart(p) ==> NameOfStretch(LastPiece(p[BodyStart(p)..e])) != []
    ensures Normal(p[..k]) != Normal(p[..e])
  {
    hide Names, Normal, LastPiece, NameOfStretch, ToComponents;
    var floor := BodyStart(p);
    PrefixKeepsHead(p, e);
    NormalIsHeadAndNames(p[..k]);
    if k < floor {
      assert p[..k] == [];
      NormalOfEmpty();
    } else {
      var body, cut := p[floor..e], p[floor..k];
      assert body[..k - floor] == cut;
      FewerOrOtherNames(body, k - floor);
      if BodyStart(p[..k]) == floor {
        assert p[..k][floor..] == cut;
        assert Head(p[..k]) == Head(p);
        NamesApart(Head(p), Names(cut), Names(body));
      } else {
        // The cut left a lone leading dot of a longer first name.
        NamesHaveNoDots(body);
        assert Normal(p[..k])[0] == CurDir;
        assert Normal(p[..e]) == ToComponents(Names(body));
      }
    }
  }

  /** The parent is the shortest prefix with those components, so its bytes are determined. */
  lemma ParentIsShortest(p: Bytes, k: nat)
    requires Parent(p).Some? && k < |Parent(p).value|
    ensures Normal(p[..k]) != Normal(p)[..|Normal(p)| - 1]
  {
    hide Names, Normal;
    ParentDropsLast(p);
    var start := LastBodyComponent(p).value.0;
    TrimBackKeepsNames(p, start);
    NothingShorterReadsTheSame(p, TrimBack(p, start), k);
  }

  // ---- `ancestors` ----

  /** The path and each of its parents, longest first. */
  function AncestorList(p: Bytes): (list: seq<Bytes>)
    ensures |list| > 0 && list[0] == p
    decreases |p|
  {
    match Parent(p)
    case None => [p]
    case Some(q) =>
      ParentDropsLast(p);
      [p] + AncestorList(q)
  }

  /** How many components there are to drop. */
  function Depth(p: Bytes): nat {
    var cs := Normal(p);
    if cs != [] && cs[0] == RootDir then |cs| - 1 else |cs|
  }

  lemma NormalRootOnlyInFront(p: Bytes)
    ensures Normal(p) != [] && Normal(p)[0] == RootDir <==> IsAbsolute(p)
  {
    if !IsAbsolute(p) && Normal(p) != [] {
      assert Components(p)[0] == ToComponent(Parts(p)[0]);
    }
  }

  lemma ParentIsShallower(p: Bytes)
    ensures Parent(p).None? <==> Depth(p) == 0
    ensures Parent(p).Some? ==> Depth(Parent(p).value) == Depth(p) - 1
  {
    hide Normal, Parent;
    ParentDropsLast(p);
    NormalRootOnlyInFront(p);
    if Parent(p).Some? {
      var q := Parent(p).value;
      NormalRootOnlyInFront(q);
      assert |Normal(q)| > 0 ==> Normal(q)[0] == Normal(p)[0];
    }
  }

  /** The walk up ends: it visits every component to drop once, and then the root or the empty path. */
  lemma {:induction false} AncestorCount(p: Bytes)
    ensures |AncestorList(p)| == Depth(p) + 1
    decreases |p|
  {
    hide Depth, Parent;
    ParentIsShallower(p);
    ParentDropsLast(p);
    if Parent(p).None? {
    } else {
      AncestorCount(Parent(p).value);
    }
  }

  /** The k-th ancestor is a prefix of the path, shorter than the one before, with the last k components gone. */
  lemma {:induction false} AncestorDrops(p: Bytes, k: nat)
    requires k < |AncestorList(p)|
    ensures var a := AncestorList(p)[k];
      && a <= p && (k > 0 ==> |a| < |AncestorList(p)[k - 1]|)
      && k <= |Normal(p)| && Normal(a) == Normal(p)[..|Normal(p)| - k]
    decreases |p|
  {
    hide Normal, Parent;
    if k == 0 {
      assert Normal(p)[..|Normal(p)|] == Normal(p);
    } else {
      ParentDropsLast(p);
      var q := Parent(p).value;
      assert AncestorList(p) == [p] + AncestorList(q);
      AncestorDrops(q, k - 1);
    }
  }

  // ---- Names put on the end ----

  lemma AppendName(cs: seq<Component>, c: Component)
    requires c != CurDir
    ensures DropInnerCurDirs(cs + [c]) == DropInnerCurDirs(cs) + [c]
  {
    if cs == [] {
      assert cs + [c] == [c];
    } else {
      assert (cs + [c])[1..] == cs[1..] + [c];
      DropCurDirsConcat(cs[1..], [c]);
      assert DropCurDirs([c][1..]) == [];
    }
  }

  lemma JoinName(base: Bytes, n: Bytes)
    requires IsNameBytes(n)
    ensures Normal(Joined(base, n)) == Normal(base) + [Name(n)]
  {
    hide Components, Joined, DropInnerCurDirs;
    JoinComponents(base, n);
    ComponentsOfOne(Name(n));
    AppendName(Components(base), Name(n));
  }

  /** What a relative argument adds to a path that reads as `base`: a leading `.` counts only at the very front. */
  function Added(base: seq<Component>, o: Bytes): seq<Component> {
    if base == [] then Normal(o) else DropCurDirs(Components(o))
  }

  lemma DropInnerConcat(a: seq<Component>, b: seq<Component>)
    ensures DropInnerCurDirs(a + b) == DropInnerCurDirs(a) + if a == [] then DropInnerCurDirs(b) else DropCurDirs(b)
    ensures DropInnerCurDirs(a) == [] <==> a == []
  {
    if a == [] {
      assert a + b == b;
    } else {
      assert (a + b)[1..] == a[1..] + b;
      DropCurDirsConcat(a[1..], b);
    }
  }

  lemma JoinNormal(base: Bytes, o: Bytes)
    ensures Normal(Joined(base, o)) == if IsAbsolute(o) then Normal(o) else Normal(base) + Added(Normal(base), o)
  {
    hide Components, Joined, DropInnerCurDirs;
    JoinComponents(base, o);
    DropInnerConcat(Components(base), Components(o));
  }

  /** What `set_file_name` leaves in the buffer. */
  function Renamed(p: Bytes, name: Bytes): Bytes {
    Joined(if FileName(p).Some? && Parent(p).Some? then Parent(p).value else p, name)
  }

  /**
   Whatever is given replaces the last component if that is a name, and is appended otherwise; an absolute path
   replaces everything. A plain name is then the file name.
   */
  lemma RenamedPath(p: Bytes, name: Bytes)
    ensures var kept := if FileName(p).Some? then Normal(p)[..|Normal(p)| - 1] else Normal(p);
      && Normal(Renamed(p, name)) == (if IsAbsolute(name) then Normal(name) else kept + Added(kept, name))
      && (IsNameBytes(name) ==>
            Normal(Renamed(p, name)) == kept + [Name(name)] && FileName(Renamed(p, name)) == Some(name))
  {
    hide Normal, FileName, Parent, Joined, Added;
    FileNameIsLast(p);
    ParentDropsLast(p);
    var base := if FileName(p).Some? && Parent(p).Some? then Parent(p).value else p;
    JoinNormal(base, name);
    if IsNameBytes(name) {
      JoinName(base, name);
      FileNameIsLast(Renamed(p, name));
    }
  }

  // ---- Extensions ----

  /** Where the bytes after the last slash begin. */
  function TailStart(p: Bytes): (at: nat)
    ensures at <= |p| && SLASH !in p[at..] && (at > 0 ==> p[at - 1] == SLASH)
  {
    match RPosition(p, SLASH) case None => 0 case Some(i) => i + 1
  }

  /** Where a name's extension begins, its dot included. A leading dot begins none. */
  function StemEnd(name: Bytes): (end: nat)
    ensures end <= |name| && (name != [] ==> end > 0)
  {
    match RPosition(name, DOT) case None => |name| case Some(i) => if i == 0 then |name| else i
  }

  function Extension(p: Bytes): Option<Bytes> {
    match FileName(p)
    case None => None
    case Some(name) => if StemEnd(name) == |name| then None else Some(name[StemEnd(name) + 1..])
  }

  /** The name that replacing the extension is meant to give. */
  function Replaced(name: Bytes, ext: Bytes): Bytes {
    name[..StemEnd(name)] + if ext == [] then [] else [DOT] + ext
  }

  /** What `set_extension` leaves in the buffer: it looks at the bytes after the last slash, not at `file_name`. */
  function WithExtension(p: Bytes, ext: Bytes): Bytes {
    var at := TailStart(p);
    p[..at + StemEnd(p[at..])] + if ext == [] then [] else [DOT] + ext
  }

  predicate EndsInFileName(p: Bytes) {
    IsNameBytes(p[TailStart(p)..])
  }

  lemma PieceAlone(piece: Bytes)
    requires piece != [] && SLASH !in piece
    ensures Components(piece) == [ToComponent(piece)]
  {
    PartsOfOne(piece);
  }

  lemma PieceOnEnd(dir: Bytes, piece: Bytes)
    requires dir == [] || EndsWithSlash(dir)
    requires piece != [] && SLASH !in piece && piece != CUR_DIR
    ensures Normal(dir + piece) == Normal(dir) + [ToComponent(piece)]
  {
    hide Components, DropInnerCurDirs;
    assert Components(piece) == [ToComponent(piece)] by { PieceAlone(piece); }
    JoinComponents(dir, piece);
    AppendName(Components(dir), ToComponent(piece));
  }

  lemma InnerDotDropped(cs: seq<Component>)
    requires cs != []
    ensures DropInnerCurDirs(cs + [CurDir]) == DropInnerCurDirs(cs)
  {
    assert (cs + [CurDir])[1..] == cs[1..] + [CurDir];
    DropCurDirsConcat(cs[1..], [CurDir]);
    assert DropCurDirs([CurDir]) == DropCurDirs([CurDir][1..]);
  }

  lemma DotOnEnd(dir: Bytes)
    requires EndsWithSlash(dir)
    ensures Normal(dir + CUR_DIR) == Normal(dir)
  {
    var cs := Components(dir);
    assert cs != [] by {
      if Parts(dir) == [] {
        NoPartsMeansSlashes(dir);
      }
    }
    hide Components;
    PieceAlone(CUR_DIR);
    JoinComponents(dir, CUR_DIR);
    InnerDotDropped(cs);
  }

  lemma {:induction false} DroppedAreAmong(cs: seq<Component>)
    ensures forall c :: c in DropCurDirs(cs) ==> c in cs
  {
    if cs == [] {
    } else {
      DroppedAreAmong(cs[1..]);
    }
  }

  /** A name in a path's reading is a name. */
  lemma NormalNamesAreNames(p: Bytes, c: Component)
    requires c in Normal(p) && c.Name?
    ensures IsNameBytes(c.name)
  {
    hide Components;
    var cs := Components(p);
    if cs != [] {
      DroppedAreAmong(cs[1..]);
      ComponentsWellFormed(p);
    }
  }

  lemma ReplacedTail(p: Bytes, ext: Bytes)
    ensures var at := TailStart(p); WithExtension(p, ext) == p[..at] + Replaced(p[at..], ext)
  {
  }

  lemma TailIsDots(p: Bytes)
    requires !EndsInFileName(p)
    ensures var tail := p[TailStart(p)..]; tail == [] || tail == CUR_DIR || tail == PARENT_DIR
  {
    hide TailStart;
  }

  lemma CutAtTail(p: Bytes)
    ensures var dir := p[..TailStart(p)]; p == dir + p[TailStart(p)..] && (dir == [] || EndsWithSlash(dir))
  {
    hide RPosition;
  }

  lemma ParentDirIsNoName(p: Bytes)
    requires p[TailStart(p)..] == PARENT_DIR
    ensures FileName(p).None?
  {
    hide Normal, FileName, TailStart;
    CutAtTail(p);
    PieceOnEnd(p[..TailStart(p)], PARENT_DIR);
    FileNameIsLast(p);
  }

  lemma NormalOfDot()
    ensures Normal(CUR_DIR) == [CurDir]
  {
    PieceAlone(CUR_DIR);
  }

  lemma DotAloneIsNoName(p: Bytes)
    requires p == [] || p == CUR_DIR
    ensures FileName(p).None?
  {
    hide Normal, FileName;
    NormalOfEmpty();
    NormalOfDot();
    FileNameIsLast(p);
  }

  lemma AfterItsName(p: Bytes)
    requires FileName(p).Some? && !EndsInFileName(p)
    ensures var dir := p[..TailStart(p)]; EndsWithSlash(dir) && Normal(p) == Normal(dir)
    ensures p[TailStart(p)..] == [] || p[TailStart(p)..] == CUR_DIR
  {
    TailIsDots(p);
    hide Normal, FileName, EndsInFileName, TailStart, EndsWithSlash;
    CutAtTail(p);
    var dir, tail := p[..TailStart(p)], p[TailStart(p)..];
    if tail == PARENT_DIR {
      ParentDirIsNoName(p);
    } else if dir == [] {
      DotAloneIsNoName(p);
    } else if tail == CUR_DIR {
      DotOnEnd(dir);
    } else {
      assert p == dir;
    }
  }

  lemma NameSwapped(p: Bytes, ext: Bytes)
    requires EndsInFileName(p)
    ensures FileName(p) == Some(p[TailStart(p)..])
    ensures IsNameBytes(Replaced(p[TailStart(p)..], ext)) ==>
              Normal(WithExtension(p, ext)) ==
              Normal(p)[..|Normal(p)| - 1] + [Name(Replaced(p[TailStart(p)..], ext))]
  {
    hide Normal, FileName;
    var at := TailStart(p);
    var dir, tail := p[..at], p[at..];
    assert p == dir + tail;
    PieceOnEnd(dir, tail);
    FileNameIsLast(p);
    ReplacedTail(p, ext);
    if IsNameBytes(Replaced(tail, ext)) {
      PieceOnEnd(dir, Replaced(tail, ext));
    }
  }

  /** What replacing the extension of the final component means; without a final name there is nothing to replace. */
  predicate ReplacesExtension(p: Bytes, ext: Bytes) {
    match FileName(p)
    case Some(name) =>
      && Normal(p) != []
      && Normal(WithExtension(p, ext)) == Normal(p)[..|Normal(p)| - 1] + [Name(Replaced(name, ext))]
    case None => WithExtension(p, ext) == p
  }

  lemma DotStemEnd()
    ensures StemEnd([]) == 0 && StemEnd(CUR_DIR) == 1 && StemEnd(PARENT_DIR) == 1
  {
  }

  lemma NothingToAppend(p: Bytes)
    requires p[TailStart(p)..] == [] || p[TailStart(p)..] == CUR_DIR
    ensures WithExtension(p, []) == p
  {
    hide TailStart, StemEnd;
    DotStemEnd();
    var at := TailStart(p);
    assert p == p[..at] + p[at..];
  }

  lemma ReplacedByNothing(name: Bytes)
    ensures Replaced(name, []) == name <==> StemEnd(name) == |name|
  {
    hide StemEnd;
    assert |Replaced(name, [])| == StemEnd(name);
    assert name[..|name|] == name;
  }

  lemma PlainExtension(name: Bytes, ext: Bytes)
    requires ext != [] && SLASH !in Replaced(name, ext)
    ensures SLASH !in ext
  {
    hide StemEnd;
    assert forall b :: b in ext ==> b in Replaced(name, ext);
  }

  lemma SomethingToAppend(p: Bytes, ext: Bytes)
    requires p[TailStart(p)..] == [] || p[TailStart(p)..] == CUR_DIR
    requires ext != []
    ensures WithExtension(p, ext) == p[..TailStart(p)] + (p[TailStart(p)..] + ([DOT] + ext))
  {
    hide TailStart, StemEnd;
    DotStemEnd();
    var at := TailStart(p);
    assert p[..at + StemEnd(p[at..])] == p[..at] + p[at..];
  }

  /** Set on a path that goes on after its name, an extension becomes a component of its own. */
  lemma OneComponentMore(p: Bytes, ext: Bytes, name: Bytes)
    requires FileName(p).Some? && !EndsInFileName(p) && ext != [] && IsNameBytes(Replaced(name, ext))
    ensures |Normal(WithExtension(p, ext))| == |Normal(p)| + 1
  {
    hide FileName, EndsInFileName, StemEnd, TailStart, Normal, Replaced, WithExtension;
    AfterItsName(p);
    PlainExtension(name, ext);
    SomethingToAppend(p, ext);
    var piece := p[TailStart(p)..] + ([DOT] + ext);
    PieceOnEnd(p[..TailStart(p)], piece);
  }

  lemma NameNotSwapped(p: Bytes, ext: Bytes, name: Bytes)
    requires FileName(p) == Some(name) && !EndsInFileName(p) && IsNameBytes(Replaced(name, ext))
    ensures Normal(WithExtension(p, ext)) == Normal(p)[..|Normal(p)| - 1] + [Name(Replaced(name, ext))] <==>
              ext == [] && StemEnd(name) == |name|
  {
    hide Normal, FileName, WithExtension, Replaced, EndsInFileName, StemEnd;
    FileNameIsLast(p);
    AfterItsName(p);
    if ext == [] {
      NothingToAppend(p);
      assert Normal(p)[|Normal(p)| - 1] == Name(name);
      assert Replaced(name, ext) == name <==> StemEnd(name) == |name| by { ReplacedByNothing(name); }
    } else {
      OneComponentMore(p, ext, name);
    }
  }

  lemma NamedExtensionExact(p: Bytes, ext: Bytes, name: Bytes)
    requires FileName(p) == Some(name)
    ensures ReplacesExtension(p, ext) <==>
              IsNameBytes(Replaced(name, ext)) && (EndsInFileName(p) || (ext == [] && StemEnd(name) == |name|))
  {
    hide Normal, FileName, WithExtension, Replaced, EndsInFileName, StemEnd, TailStart;
    var q := WithExtension(p, ext);
    FileNameIsLast(p);
    var wanted := Normal(p)[..|Normal(p)| - 1] + [Name(Replaced(name, ext))];
    if !IsNameBytes(Replaced(name, ext)) {
      if Normal(q) == wanted {
        assert wanted[|wanted| - 1] in Normal(q);
        NormalNamesAreNames(q, Name(Replaced(name, ext)));
      }
    } else if EndsInFileName(p) {
      NameSwapped(p, ext);
    } else {
      NameNotSwapped(p, ext, name);
    }
  }

  lemma ExtendedLength(p: Bytes, ext: Bytes)
    ensures |WithExtension(p, ext)| == TailStart(p) + StemEnd(p[TailStart(p)..]) + if ext == [] then 0 else 1 + |ext|
  {
    hide TailStart, StemEnd;
  }

  lemma NamelessExtensionExact(p: Bytes, ext: Bytes)
    requires FileName(p).None?
    ensures WithExtension(p, ext) == p <==> ext == [] && p[TailStart(p)..] != PARENT_DIR
  {
    hide FileName, StemEnd, TailStart, WithExtension, EndsInFileName;
    if EndsInFileName(p) {
      NameSwapped(p, ext);
    }
    TailIsDots(p);
    DotStemEnd();
    ExtendedLength(p, ext);
    if p[TailStart(p)..] != PARENT_DIR && ext == [] {
      NothingToAppend(p);
    }
  }

  /**
   For every path and every extension, when `set_extension` does that. With a final name: when the path ends in it,
   or there is nothing to change, and what comes out is still a name. Without one: when the extension is empty and
   the path does not end in `..`.
   */
  lemma SetExtensionExact(p: Bytes, ext: Bytes)
    ensures ReplacesExtension(p, ext) <==>
              match FileName(p)
              case Some(name) =>
                && IsNameBytes(Replaced(name, ext))
                && (EndsInFileName(p) || (ext == [] && StemEnd(name) == |name|))
              case None => ext == [] && p[TailStart(p)..] != PARENT_DIR
  {
    hide Normal, FileName, WithExtension, Replaced, EndsInFileName, StemEnd, TailStart;
    match FileName(p) {
      case Some(name) => NamedExtensionExact(p, ext, name);
      case None => NamelessExtensionExact(p, ext);
    }
  }

  /**
   Three paths on which it does something else: on `a/` the extension becomes a component of its own, `..` becomes
   another directory or a name, and an empty extension makes `..` of the name `...`.
   */
  lemma SetExtensionGoesAstray(ext: Bytes)
    requires ext != []
    ensures var a: Byte := 97;
      && WithExtension([a, SLASH], ext) == [a, SLASH, DOT] + ext && !ReplacesExtension([a, SLASH], ext)
    ensures WithExtension(PARENT_DIR, []) == CUR_DIR && !ReplacesExtension(PARENT_DIR, [])
    ensures WithExtension(PARENT_DIR, ext) == [DOT, DOT] + ext && !ReplacesExtension(PARENT_DIR, ext)
    ensures WithExtension([DOT, DOT, DOT], []) == PARENT_DIR && !ReplacesExtension([DOT, DOT, DOT], [])
  {
    hide Normal, FileName, ReplacesExtension, RPosition;
    var a: Byte := 97;
    var slashed, dots := [a, SLASH], [DOT, DOT, DOT];
    assert TailStart(slashed) == 2 && slashed[2..] == [];
    assert TailStart(PARENT_DIR) == 0 && PARENT_DIR[0..] == PARENT_DIR;
    assert TailStart(dots) == 0 && dots[0..] == dots;
    DotStemEnd();
    RPositionIs(dots, DOT, 2);
    assert WithExtension(slashed, ext) == slashed + ([DOT] + ext);
    SetExtensionExact(slashed, ext);
    ParentDirIsNoName(PARENT_DIR);
    SetExtensionExact(PARENT_DIR, []);
    SetExtensionExact(PARENT_DIR, ext);
    NameSwapped(dots, []);
    SetExtensionExact(dots, []);
    assert Replaced(dots, []) == PARENT_DIR;
  }

  lemma TailIs(dir: Bytes, tail: Bytes)
    requires (dir == [] || dir[|dir| - 1] == SLASH) && SLASH !in tail
    ensures TailStart(dir + tail) == |dir| && (dir + tail)[|dir|..] == tail
  {
    hide RPosition;
    var p := dir + tail;
    if dir != [] {
      assert p[|dir| - 1] == SLASH && p[|dir|..] == tail;
      RPositionIs(p, SLASH, |dir| - 1);
    }
  }

  lemma ExtensionOfTail(p: Bytes, tail: Bytes)
    requires p[TailStart(p)..] == tail && IsNameBytes(tail)
    ensures Extension(p) == if StemEnd(tail) == |tail| then None else Some(tail[StemEnd(tail) + 1..])
  {
    hide FileName, StemEnd, TailStart, IsNameBytes;
    NameSwapped(p, []);
  }

  /** A tail without a dot after its first byte has no extension to take off. */
  lemma NoDotNoExtension(dir: Bytes, tail: Bytes, ext: Bytes)
    requires (dir == [] || dir[|dir| - 1] == SLASH) && SLASH !in tail && tail != [] && DOT !in tail[1..]
    ensures WithExtension(dir + tail, ext) == dir + tail + if ext == [] then [] else [DOT] + ext
    ensures IsNameBytes(tail) ==> Extension(dir + tail) == None
  {
    hide RPosition, FileName;
    TailIs(dir, tail);
    assert StemEnd(tail) == |tail| by {
      if DOT in tail {
        RPositionIs(tail, DOT, 0);
      }
    }
    if IsNameBytes(tail) {
      ExtensionOfTail(dir + tail, tail);
    }
  }

  lemma StemOfGlued(stem: Bytes, ext: Bytes)
    requires stem != [] && DOT !in ext
    ensures var glued := stem + ([DOT] + ext);
      StemEnd(glued) == |stem| && glued[|stem| + 1..] == ext
  {
    hide RPosition;
    var glued := stem + ([DOT] + ext);
    assert glued[|stem| + 1..] == ext;
    RPositionIs(glued, DOT, |stem|);
  }

  /** A last dot with something before it begins the extension. */
  lemma LastDotBeginsExtension(dir: Bytes, stem: Bytes, e: Bytes, ext: Bytes)
    requires (dir == [] || dir[|dir| - 1] == SLASH) && SLASH !in stem && stem != [] && SLASH !in e && DOT !in e
    ensures var tail := stem + ([DOT] + e);
      && WithExtension(dir + tail, ext) == dir + stem + (if ext == [] then [] else [DOT] + ext)
      && (IsNameBytes(tail) ==> Extension(dir + tail) == Some(e))
  {
    hide FileName, StemEnd, TailStart, Extension;
    var tail := stem + ([DOT] + e);
    TailIs(dir, tail);
    StemOfGlued(stem, e);
    assert (dir + tail)[..|dir| + |stem|] == dir + stem;
    if IsNameBytes(tail) {
      ExtensionOfTail(dir + tail, tail);
    }
  }

  /** `.bashrc` has no extension and can be given one. */
  lemma HiddenFile(ext: Bytes)
    requires ext != []
    ensures var name: Bytes := [DOT, 98, 99];
      Extension(name) == None && WithExtension(name, ext) == name + [DOT] + ext
  {
    var name: Bytes := [DOT, 98, 99];
    assert [] + name == name;
    assert name[1..] == [98, 99];
    NoDotNoExtension([], name, ext);
    assert name + ([DOT] + ext) == name + [DOT] + ext;
  }

  lemma GluedIsName(stem: Bytes, ext: Bytes)
    requires stem != [] && SLASH !in stem && ext != [] && SLASH !in ext
    ensures IsNameBytes(stem + ([DOT] + ext))
  {
    assert |stem + ([DOT] + ext)| > 2;
  }

  /** A plain extension that was set is the one read back. */
  lemma ExtensionReadBack(p: Bytes, ext: Bytes)
    requires EndsInFileName(p) && ext != [] && SLASH !in ext && DOT !in ext
    ensures Extension(WithExtension(p, ext)) == Some(ext)
  {
    hide Normal, FileName, WithExtension, StemEnd, TailStart;
    var name := p[TailStart(p)..];
    StemOfGlued(name[..StemEnd(name)], ext);
    GluedIsName(name[..StemEnd(name)], ext);
    NameSwapped(p, ext);
    FileNameIsLast(WithExtension(p, ext));
  }

  // ---- The owned path and the iterators ----

  class PathBuf {
    var inner: Bytes

    constructor ()
      ensures inner == []
    {
      inner := [];
    }

    method Push(o: Bytes)
      modifies this
      ensures inner == Joined(old(inner), o)
    {
      if |o| > 0 && o[0] == SLASH {
        inner := [];
        inner := inner + o;
        return;
      }
      if inner != [] && !EndsWithSlash(inner) {
        inner := inner + [SLASH];
      }
      inner := inner + o;
    }

    /** Answers `false`, and changes nothing, exactly when there is no component to drop. */
    method Pop() returns (popped: bool)
      modifies this
      ensures match Parent(old(inner))
              case Some(p) => popped && inner == p
              case None => !popped && inner == old(inner)
      ensures popped <==> Depth(old(inner)) > 0
      ensures popped ==> Depth(inner) == Depth(old(inner)) - 1
    {
      ParentIsShallower(inner);
      match Parent(inner)
      case Some(p) =>
        ParentDropsLast(inner);
        var n := |p|;
        assert inner[..n] == p;
        inner := inner[..n];
        popped := true;
      case None =>
        popped := false;
    }

    method SetFileName(name: Bytes)
      modifies this
      ensures inner == Renamed(old(inner), name)
    {
      if FileName(inner).Some? {
        FileNameIsLast(inner);
        ParentDropsLast(inner);
        ParentIsShallower(inner);
        var _ := Pop();
      }
      Push(name);
    }

    method SetExtension(ext: Bytes)
      modifies this
      ensures inner == WithExtension(old(inner), ext)
    {
      var nameStart := match RPosition(inner, SLASH) case None => 0 case Some(i) => i + 1;
      assert nameStart == TailStart(inner);
      match RPosition(inner[nameStart..], DOT) {
        case None =>
        case Some(dot) =>
          if dot != 0 {
            inner := inner[..nameStart + dot];
          }
      }
      if ext != [] {
        inner := inner + [DOT];
        inner := inner + ext;
      }
    }

    /** `from_iter` over components. */
    static method FromComponents(cs: seq<Component>) returns (out: PathBuf)
      ensures fresh(out) && out.inner == Collected(cs)
    {
      out := new PathBuf();
      for i := 0 to |cs|
        invariant fresh(out) && out.inner == Collected(cs[..i])
      {
        assert cs[..i + 1][..i] == cs[..i];
        out.Push(AsBytes(cs[i]));
      }
      assert cs[..|cs|] == cs;
    }
  }

  /** Taking the first part off a path that starts with one. */
  lemma FirstPartAndRest(part: Bytes, tail: Bytes)
    requires part != [] && SLASH !in part && (tail == [] || tail[0] == SLASH)
    ensures ToComponents(Parts(part + tail)) == [ToComponent(part)] + ToComponents(Parts(tail))
  {
    hide Parts, ToComponents, ToComponent;
    if tail == [] {
      assert part + tail == part;
      PartsOfOne(part);
      PartsEmpty();
    } else {
      CutAtSlash(tail, 0);
      assert part + tail == part + ROOT + tail[1..];
      PartsFirst(part, tail[1..]);
      assert tail == ROOT + tail[1..];
      PartsSkipSlash(tail[1..]);
    }
    ToComponentsConcat([part], Parts(tail));
  }

  /** The iterator returned by `components`. */
  class ComponentsIter {
    var rest: Bytes
    var root: bool

    ghost function Remaining(): seq<Component>
      reads this
    {
      (if root then [RootDir] else []) + ToComponents(Parts(rest))
    }

    constructor (p: Bytes)
      ensures Remaining() == Components(p)
    {
      rest, root := p, IsAbsolute(p);
    }

    method Next() returns (r: Option<Component>)
      modifies this
      ensures old(Remaining()) == (match r case None => [] case Some(c) => [c]) + Remaining()
      ensures r.None? ==> Remaining() == []
    {
      hide Parts, Position;
      PartsEmpty();
      ghost var before := Remaining();
      if root {
        root := false;
        if |rest| > 0 && rest[0] == SLASH {
          assert rest == ROOT + rest[1..];
          PartsSkipSlash(rest[1..]);
          rest := rest[1..];
        }
        return Some(RootDir);
      }
      while |rest| > 0 && rest[0] == SLASH
        invariant !root && Remaining() == before
        decreases |rest|
      {
        assert rest == ROOT + rest[1..];
        PartsSkipSlash(rest[1..]);
        rest := rest[1..];
      }
      if rest == [] {
        return None;
      }
      var end := match Position(rest, SLASH) case None => |rest| case Some(i) => i;
      var part := rest[..end];
      assert rest == part + rest[end..];
      FirstPartAndRest(part, rest[end..]);
      rest := rest[end..];
      r := Some(ToComponent(part));
    }
  }

  /** The iterator returned by `ancestors`. */
  class AncestorsIter {
    var next: Option<Bytes>

    ghost function Remaining(): seq<Bytes>
      reads this
    {
      match next case None => [] case Some(p) => AncestorList(p)
    }

    constructor (p: Bytes)
      ensures Remaining() == AncestorList(p)
    {
      next := Some(p);
    }

    method Next() returns (r: Option<Bytes>)
      modifies this
      ensures old(Remaining()) == (match r case None => [] case Some(p) => [p]) + Remaining()
      ensures r.None? ==> Remaining() == []
    {
      match next
      case None =>
        r := None;
      case Some(here) =>
        next := Parent(here);
        r := Some(here);
    }
  }
}
