/** Two laws of the archive code that hold for whole runs: packing then unpacking a
    folder gives it back, and unpacking twice is unpacking once. */
module TarRoundTrip {
  import opened Strings
  import opened FileTree
  import opened Archive

  // ----- TarLayer, then Untar -----

  /** What a real folder is: legal names, and no symbolic link with an empty target. */
  ghost predicate Named(t: Tree) {
    forall p | p in t :: Legal(p) && (t[p].Link? ==> t[p].target != "")
  }

  lemma {:induction false} UntarAppend(t: Tree, a: seq<Header>, b: seq<Header>)
    requires UntarRun(t, a).outcome == Ok
    ensures UntarRun(t, a + b) == UntarRun(UntarRun(t, a).tree, b)
    decreases |a|
  {
    if a == [] {
      assert a + b == b;
    } else {
      assert (a + b)[1..] == a[1..] + b;
      UntarAppend(UntarStep(t, a[0]).tree, a[1..], b);
    }
  }

  /** The headers of one path put that path, and nothing else, under its parent: the
      second header of a symbolic link finds the first one's link in place. */
  lemma EntriesLand(t: Tree, p: Path, n: Node)
    requires Closed(t) && p != ROOT && p !in t
    requires Parent(p) in t && t[Parent(p)].Dir?
    requires Legal(p) && (n.Link? ==> n.target != "")
    ensures UntarRun(t, EntriesOf(p, n)) == Step(t[p := n], Ok)
  {
    CleanRender(p);
    WayBeside(t, p);
    var hs := EntriesOf(p, n);
    assert UntarRun(t[p := n], []) == Step(t[p := n], Ok);
    match n
    case Dir =>
      assert hs[1..] == [];
      assert MkdirAll(t, Parent(p)) == Step(t, Ok) by { WayInside(t, Parent(p)); }
    case File(data) =>
      assert hs[1..] == [];
    case Link(target) =>
      var linked := t[p := n];
      assert hs[1..] == [Header(TypeSymlink, Render(p), p[|p| - 1], [])];
      assert hs[1..][1..] == [];
      assert Closed(linked) by { SymlinkKeeps(t, p, target); }
      WayBeside(linked, p);
      assert UntarStep(linked, hs[1]) == Step(linked, Ok);
  }

  /** Every header of a tarball tells of one path of the folder: its kind, and a file's content,
      or of a link its target, or (the second time) its own name. */
  lemma {:induction false} TarTells(t: Tree, order: seq<Path>, i: nat) returns (q: Path)
    requires forall j | 0 <= j < |order| :: order[j] in t && order[j] != ROOT
    requires i < |TarOf(t, order)|
    ensures q in t && q in order && TarOf(t, order)[i].name == Render(q)
    ensures var h := TarOf(t, order)[i];
            match t[q]
            case Dir => h.kind == TypeDir
            case File(data) => h.kind == TypeReg && h.body == data
            case Link(target) => h.kind == TypeSymlink && (h.link == target || h.link == q[|q| - 1])
    decreases |order|
  {
    var own := EntriesOf(order[0], t[order[0]]);
    if i < |own| {
      q := order[0];
      assert TarOf(t, order)[i] == own[i];
    } else {
      q := TarTells(t, order[1..], i - |own|);
      assert TarOf(t, order)[i] == TarOf(t, order[1..])[i - |own|];
    }
  }

  function Links(t: Tree, order: seq<Path>): nat
    requires forall j | 0 <= j < |order| :: order[j] in t
  {
    if order == [] then 0 else (if t[order[0]].Link? then 1 else 0) + Links(t, order[1..])
  }

  /** One header for each path, and one more for each symbolic link. */
  lemma {:induction false} TarSize(t: Tree, order: seq<Path>)
    requires forall j | 0 <= j < |order| :: order[j] in t && order[j] != ROOT
    ensures |TarOf(t, order)| == |order| + Links(t, order)
  {
    if order != [] { TarSize(t, order[1..]); }
  }

  function Part(t: Tree, done: seq<Path>): Tree {
    t - set p | p in t && p != ROOT && p !in done
  }

  /** The walk has visited a path's parent before the path. */
  lemma ParentEarlier(t: Tree, order: seq<Path>, i: nat)
    requires Closed(t) && WalkOrder(t, order) && i < |order|
    ensures Parent(order[i]) in t && t[Parent(order[i])].Dir?
    ensures Parent(order[i]) == ROOT || Parent(order[i]) in order[..i]
  {
    var p := order[i];
    var above := Parent(p);
    assert p in t && above in t;
    if above != ROOT {
      var j :| 0 <= j < |order| && order[j] == above;
      NotAfter(t, order, i, j);
      assert order[..i][j] == above;
    }
  }

  lemma NotAfter(t: Tree, order: seq<Path>, i: nat, j: nat)
    requires WalkOrder(t, order) && i < |order| && j < |order|
    requires order[j] <= order[i] && |order[j]| < |order[i]|
    ensures j < i
  {
  }

  lemma PartClosed(t: Tree, order: seq<Path>, k: nat)
    requires Folder(t) && WalkOrder(t, order) && k <= |order|
    ensures Closed(Part(t, order[..k]))
  {
    var part := Part(t, order[..k]);
    forall p | p in part && p != ROOT ensures Parent(p) in part && part[Parent(p)].Dir? {
      var i :| 0 <= i < k && order[..k][i] == p;
      ParentEarlier(t, order, i);
      assert order[..i] <= order[..k];
    }
  }

  lemma PartSnoc(t: Tree, order: seq<Path>, k: nat)
    requires k < |order| && order[k] in t
    ensures Part(t, order[..k])[order[k] := t[order[k]]] == Part(t, order[..k + 1])
  {
    assert order[..k + 1] == order[..k] + [order[k]];
  }

  lemma NotYet(t: Tree, order: seq<Path>, k: nat)
    requires WalkOrder(t, order) && k < |order|
    ensures order[k] !in Part(t, order[..k])
  {
    forall i | 0 <= i < k ensures order[..k][i] != order[k] { assert !(order[k] <= order[i]); }
  }

  lemma PartNext(t: Tree, order: seq<Path>, k: nat)
    requires Folder(t) && Named(t) && WalkOrder(t, order) && k < |order|
    ensures UntarRun(Part(t, order[..k]), EntriesOf(order[k], t[order[k]])) == Step(Part(t, order[..k + 1]), Ok)
  {
    var p := order[k];
    PartClosed(t, order, k);
    ParentEarlier(t, order, k);
    NotYet(t, order, k);
    EntriesLand(Part(t, order[..k]), p, t[p]);
    PartSnoc(t, order, k);
  }

  lemma {:induction false} RoundTripFrom(t: Tree, order: seq<Path>, k: nat)
    requires Folder(t) && Named(t) && WalkOrder(t, order) && k <= |order|
    ensures UntarRun(Part(t, order[..k]), TarOf(t, order[k..])) == Step(t, Ok)
    decreases |order| - k
  {
    var part := Part(t, order[..k]);
    if k == |order| {
      assert order[k..] == [];
      assert part == t by { AllPart(t, order); }
    } else {
      var first, rest := EntriesOf(order[k], t[order[k]]), TarOf(t, order[k + 1..]);
      assert order[k..][1..] == order[k + 1..];
      assert TarOf(t, order[k..]) == first + rest;
      PartNext(t, order, k);
      UntarAppend(part, first, rest);
      RoundTripFrom(t, order, k + 1);
    }
  }

  lemma AllPart(t: Tree, order: seq<Path>)
    requires WalkOrder(t, order) && ROOT in t
    ensures Part(t, order[..|order|]) == t
  {
    assert order[..|order|] == order;
  }

  /** `TarLayer` of any folder, then `Untar` into an empty one, gives the folder back. */
  lemma TarUntarRoundTrip(t: Tree, order: seq<Path>)
    requires Folder(t) && Named(t) && WalkOrder(t, order)
    ensures UntarRun(EMPTY_FOLDER, TarOf(t, order)) == Step(t, Ok)
  {
    RoundTripFrom(t, order, 0);
    assert Part(t, order[..0]) == EMPTY_FOLDER;
    assert order[0..] == order;
  }

  // ----- what extraction makes is a real folder again -----

  lemma {:induction false} ClimbIsLegal(parts: seq<string>, at: Path)
    requires Legal(at) && Free(parts, '/')
    ensures Climb(parts, at).Some? ==> Legal(Climb(parts, at).value)
  {
    if parts != [] {
      assert '/' !in parts[0];
      assert Free(parts[1..], '/');
      if parts[0] == "" || parts[0] == "." {
        ClimbIsLegal(parts[1..], at);
      } else if parts[0] == ".." {
        if at != ROOT { ClimbIsLegal(parts[1..], Parent(at)); }
      } else {
        ClimbIsLegal(parts[1..], at + [parts[0]]);
      }
    }
  }

  lemma CleanIsLegal(raw: string)
    ensures Clean(raw).Some? ==> Legal(Clean(raw).value)
  {
    SplitPieces(raw, '/');
    ClimbIsLegal(Split(raw, '/'), ROOT);
  }

  lemma {:induction false} MkdirAllNamed(t: Tree, p: Path)
    requires Named(t) && Legal(p)
    ensures Named(MkdirAll(t, p).tree)
    decreases |p|
  {
    if Stat(t, p) == Absent && p != ROOT { MkdirAllNamed(t, Parent(p)); }
  }

  lemma {:induction false} RemoveEachNamed(t: Tree, ps: seq<Path>)
    requires Named(t)
    ensures Named(RemoveEach(t, ps).tree)
  {
    if ps != [] { RemoveEachNamed(RemoveAll(t, ps[0]).tree, ps[1..]); }
  }

  lemma LayerStepNamed(t: Tree, h: Header)
    requires Named(t)
    ensures Named(LayerStep(t, h).tree)
  {
    CleanIsLegal(h.name);
    if Clean(h.name).Some? {
      var p := Clean(h.name).value;
      MkdirAllNamed(t, p);
      if IsMarker(p) && Removals(h, p).Some? { RemoveEachNamed(t, Removals(h, p).value); }
    }
  }

  lemma {:induction false} LayerRunNamed(t: Tree, hs: seq<Header>)
    requires Named(t)
    ensures Named(LayerRun(t, hs).tree)
    decreases |hs|
  {
    if hs != [] {
      LayerStepNamed(t, hs[0]);
      LayerRunNamed(LayerStep(t, hs[0]).tree, hs[1..]);
    }
  }

  // ----- Untar twice -----

  /** A hard link to bin/arch, which `Untar` copies. */
  predicate Copies(h: Header) {
    h.kind == TypeLink && h.link == ARCH
  }

  const ARCH_PATH: Path := ["bin", "arch"]

  /** Once it is copied, bin/arch is not stored again. */
  ghost predicate ArchSettled(hs: seq<Header>) {
    forall i, j | 0 <= i < j < |hs| && Copies(hs[i]) && hs[j].kind == TypeReg :: Clean(hs[j].name) != Some(ARCH_PATH)
  }

  /** `b` holds all of `a`: files may be longer and hold other bytes, the rest is equal. */
  ghost predicate Grown(a: Tree, b: Tree) {
    forall q | q in a ::
      q in b && (if a[q].File? then b[q].File? && |a[q].data| <= |b[q].data| else a[q] == b[q])
  }

  ghost predicate SameShape(a: Tree, b: Tree) {
    Grown(a, b) && Grown(b, a)
  }

  lemma {:induction false} SameWay(a: Tree, b: Tree, p: Path)
    requires SameShape(a, b)
    ensures WayTo(a, p) == WayTo(b, p)
    decreases |p|
  {
    if p != ROOT { SameWay(a, b, Parent(p)); }
  }

  lemma StepGrows(t: Tree, h: Header)
    requires Closed(t) && UntarStep(t, h).outcome == Ok
    ensures Grown(t, UntarStep(t, h).tree)
  {
    var p := Clean(h.name).value;
    match h.kind
    case TypeDir => MkdirAllKeeps(t, p);
    case TypeReg => WriteGrows(t, p, h.body);
    case TypeOther =>
    case _ =>
      if Copies(h) {
        CopyWrites(t, p);
        WriteGrows(t, p, Copied(t, p));
      } else {
        LinkGrows(t, p, h.link);
      }
  }

  /** What the copy of bin/arch writes at `p`. */
  function Copied(t: Tree, p: Path): Bytes {
    var source := WriteFile(t, p, [], false).tree;
    if ARCH_PATH in source && source[ARCH_PATH].File? then source[ARCH_PATH].data else []
  }

  /** The copy is one write of the bytes that bin/arch holds. */
  lemma CopyWrites(t: Tree, p: Path)
    requires Closed(t) && CopyArch(t, p).outcome == Ok
    ensures CopyArch(t, p) == WriteFile(t, p, Copied(t, p), false)
    ensures if p == ARCH_PATH then Copied(t, p) == (if p in t && t[p].File? then t[p].data else [])
            else ARCH_PATH in t && t[ARCH_PATH] == File(Copied(t, p))
  {
    var made := WriteFile(t, p, [], false).tree;
    TouchShape(t, p);
    assert ReadFile(made, ARCH_PATH).1 == Ok;
    assert ARCH_PATH in made && made[ARCH_PATH].File?;
    SameParent(t, made, p);
    WriteTwice(t, made, p, Copied(t, p));
  }

  /** Creating a file without truncation leaves what is there, or an empty file. */
  lemma TouchShape(t: Tree, p: Path)
    requires WriteFile(t, p, [], false).outcome == Ok
    ensures p in t ==> t[p].File?
    ensures WriteFile(t, p, [], false).tree == if p in t then t else t[p := File([])]
  {
    WriteShape(t, p, []);
    if p in t {
      assert Overwrite(t[p].data, []) == t[p].data;
      assert t[p := t[p]] == t;
    }
  }

  lemma WriteTwice(t: Tree, made: Tree, p: Path, body: Bytes)
    requires WriteFile(t, p, [], false).outcome == Ok && (p in t ==> t[p].File?)
    requires made == (if p in t then t else t[p := File([])]) && WayTo(t, p) == WayTo(made, p) == Clear
    ensures WriteFile(made, p, body, false) == WriteFile(t, p, body, false)
  {
    assert Overwrite([], body) == body;
  }

  /** A write leaves the way to its own path. */
  lemma SameParent(t: Tree, made: Tree, p: Path)
    requires Closed(t) && WriteFile(t, p, [], false) == Step(made, Ok)
    ensures WayTo(t, p) == WayTo(made, p) == Clear
  {
    WriteFileKeeps(t, p, [], false);
    if p in made { WayInside(made, p); }
  }

  lemma WriteGrows(t: Tree, p: Path, body: Bytes)
    ensures Grown(t, WriteFile(t, p, body, false).tree)
  {
  }

  lemma LinkGrows(t: Tree, p: Path, target: string)
    ensures Grown(t, Symlink(t, p, target).tree)
  {
  }

  lemma {:induction false} RunGrows(t: Tree, hs: seq<Header>)
    requires Closed(t) && UntarRun(t, hs).outcome == Ok
    ensures Grown(t, UntarRun(t, hs).tree)
    decreases |hs|
  {
    if hs != [] {
      StepGrows(t, hs[0]);
      UntarStepKeeps(t, hs[0]);
      RunGrows(UntarStep(t, hs[0]).tree, hs[1..]);
    }
  }

  /** A symbolic link that was dropped when its entry came, although its directory is
      there in the end (or is reached through a link). */
  predicate Stranded(t: Tree, h: Header) {
    && h.kind in {TypeSymlink, TypeLink} && h.link != ""
    && Clean(h.name).Some?
    && var p := Clean(h.name).value;
       p !in t && WayTo(t, p) in {Clear, Linked}
  }

  /** A second run `u` beside the first run `s`, both heading for `t`: every byte of
      `u` is already final, or is the byte the first run has there at this point. */
  ghost predicate Beside(s: Tree, u: Tree, t: Tree) {
    && SameShape(u, t)
    && forall q, k | q in u && u[q].File? && 0 <= k < |u[q].data| ::
         u[q].data[k] == t[q].data[k]
         || (q in s && s[q].File? && k < |s[q].data| && u[q].data[k] == s[q].data[k])
  }

  /** Writing the same body into both runs keeps them beside each other. */
  lemma BesideWrite(s: Tree, u: Tree, t: Tree, p: Path, body: Bytes)
    requires Beside(s, u, t)
    requires p in s ==> s[p].File?
    requires p in t && t[p].File? && |body| <= |t[p].data|
    ensures var s' := s[p := File(if p in s then Overwrite(s[p].data, body) else body)];
            Beside(s', u[p := File(Overwrite(u[p].data, body))], t)
  {
    var s' := s[p := File(if p in s then Overwrite(s[p].data, body) else body)];
    var u' := u[p := File(Overwrite(u[p].data, body))];
    forall q, k | q in u' && u'[q].File? && 0 <= k < |u'[q].data|
      ensures u'[q].data[k] == t[q].data[k]
              || (q in s' && s'[q].File? && k < |s'[q].data| && u'[q].data[k] == s'[q].data[k])
    {
      assert u[q].data[k] == t[q].data[k]
             || (q in s && s[q].File? && k < |s[q].data| && u[q].data[k] == s[q].data[k]);
    }
  }

  lemma BesideMore(s: Tree, s': Tree, u: Tree, t: Tree)
    requires Beside(s, u, t)
    requires forall q | q in s && s[q].File? :: q in s' && s'[q] == s[q]
    ensures Beside(s', u, t)
  {
    forall q, k | q in u && u[q].File? && 0 <= k < |u[q].data|
      ensures u[q].data[k] == t[q].data[k]
              || (q in s' && s'[q].File? && k < |s'[q].data| && u[q].data[k] == s'[q].data[k])
    {
    }
  }

  /** An entry that writes no file leaves the second run where it is. */
  lemma SecondRunIdle(s: Tree, u: Tree, t: Tree, h: Header)
    requires Closed(s) && Closed(t) && SameShape(u, t)
    requires h.kind != TypeReg && !Copies(h) && !Stranded(t, h)
    requires UntarStep(s, h).outcome == Ok && Grown(UntarStep(s, h).tree, t)
    ensures UntarStep(u, h) == Step(u, Ok)
  {
    if h.kind != TypeOther {
      var p := Clean(h.name).value;
      SameWay(u, t, p);
      if p in t { WayInside(t, p); }
      if h.kind == TypeDir {
        PutDirLands(s, p);
        assert p in u && !u[p].Link?;
        assert Stat(u, p) == Found(u[p]);
      } else {
        assert h.link != "" ==> p in u || WayTo(u, p) in {Missing, Blocked};
        assert Symlink(u, p, h.link) == Step(u, Ok);
      }
    }
  }

  lemma PutDirLands(s: Tree, p: Path)
    requires Closed(s) && PutDir(s, p).outcome == Ok
    ensures var s' := PutDir(s, p).tree;
            p in s' && !s'[p].Link?
  {
    MkdirAllKeeps(s, p);
  }

  lemma SecondRunWrites(s: Tree, u: Tree, t: Tree, h: Header)
    requires Closed(t) && Beside(s, u, t) && h.kind == TypeReg
    requires UntarStep(s, h).outcome == Ok && Grown(UntarStep(s, h).tree, t)
    ensures UntarStep(u, h).outcome == Ok
    ensures Beside(UntarStep(s, h).tree, UntarStep(u, h).tree, t)
  {
    var p := Clean(h.name).value;
    var s' := UntarStep(s, h).tree;
    WriteShape(s, p, h.body);
    assert p in s' && p in t && |h.body| <= |s'[p].data| <= |t[p].data|;
    SameWay(u, t, p);
    WayInside(t, p);
    assert p in u && u[p].File?;
    BesideWrite(s, u, t, p, h.body);
  }

  lemma WriteShape(s: Tree, p: Path, body: Bytes)
    requires WriteFile(s, p, body, false).outcome == Ok
    ensures p in s ==> s[p].File?
    ensures WriteFile(s, p, body, false).tree == s[p := File(if p in s then Overwrite(s[p].data, body) else body)]
  {
  }

  /** The first run leaves bin/arch as it will be in the end. */
  ghost predicate ArchDone(s: Tree, t: Tree) {
    ARCH_PATH in s && s[ARCH_PATH].File? && ARCH_PATH in t && t[ARCH_PATH] == s[ARCH_PATH]
  }

  /** The second run copies the same bytes. */
  lemma SecondCopy(s: Tree, u: Tree, t: Tree, p: Path, s': Tree)
    requires Closed(u) && Beside(s, u, t) && p in u && u[p].File? && CopyArch(s, p) == Step(s', Ok) && Closed(s)
    requires ArchDone(s', t)
    ensures CopyArch(u, p) == Step(u[p := File(Overwrite(u[p].data, if p == ARCH_PATH then u[p].data else Copied(s, p)))], Ok)
  {
    CopyWrites(s, p);
    assert ARCH_PATH in u && u[ARCH_PATH].File?;
    WayInside(u, p);
    WayInside(u, ARCH_PATH);
    assert Overwrite(u[p].data, []) == u[p].data && u[p := u[p]] == u;
    assert WriteFile(u, p, [], false) == Step(u, Ok);
    if p != ARCH_PATH {
      WriteShape(s, p, Copied(s, p));
      assert s'[ARCH_PATH] == s[ARCH_PATH];
      assert u[ARCH_PATH].data == t[ARCH_PATH].data;
    }
  }

  lemma SecondRunCopies(s: Tree, u: Tree, t: Tree, h: Header)
    requires Closed(s) && Closed(u) && Closed(t) && Beside(s, u, t) && Copies(h)
    requires UntarStep(s, h).outcome == Ok && Grown(UntarStep(s, h).tree, t)
    requires ArchDone(UntarStep(s, h).tree, t)
    ensures UntarStep(u, h).outcome == Ok
    ensures Beside(UntarStep(s, h).tree, UntarStep(u, h).tree, t)
  {
    var p := Clean(h.name).value;
    var s', body := UntarStep(s, h).tree, Copied(s, p);
    CopyLands(s, p, t);
    assert p in u && u[p].File?;
    SecondCopy(s, u, t, p, s');
    if p == ARCH_PATH {
      CopySelf(s, u, t, s');
    } else {
      BesideWrite(s, u, t, p, body);
    }
  }

  lemma CopyLands(s: Tree, p: Path, t: Tree)
    requires Closed(s) && CopyArch(s, p).outcome == Ok && Grown(CopyArch(s, p).tree, t)
    ensures p in t && t[p].File? && |Copied(s, p)| <= |t[p].data| && (p in s ==> s[p].File?)
    ensures CopyArch(s, p).tree == s[p := File(if p in s then Overwrite(s[p].data, Copied(s, p)) else Copied(s, p))]
  {
    CopyWrites(s, p);
    WriteShape(s, p, Copied(s, p));
    var s' := CopyArch(s, p).tree;
    assert p in s' && |Copied(s, p)| <= |s'[p].data|;
  }

  /** A link from bin/arch to itself changes nothing that is there. */
  lemma CopySelf(s: Tree, u: Tree, t: Tree, s': Tree)
    requires Closed(s) && Beside(s, u, t) && CopyArch(s, ARCH_PATH) == Step(s', Ok)
    requires ARCH_PATH in u && u[ARCH_PATH].File?
    ensures Beside(s', u[ARCH_PATH := File(Overwrite(u[ARCH_PATH].data, u[ARCH_PATH].data))], t)
  {
    CopyWrites(s, ARCH_PATH);
    WriteShape(s, ARCH_PATH, Copied(s, ARCH_PATH));
    assert Overwrite(u[ARCH_PATH].data, u[ARCH_PATH].data) == u[ARCH_PATH].data;
    assert u[ARCH_PATH := u[ARCH_PATH]] == u;
    assert ARCH_PATH in s ==> Overwrite(s[ARCH_PATH].data, s[ARCH_PATH].data) == s[ARCH_PATH].data;
    BesideMore(s, s', u, t);
  }

  lemma BesideStep(s: Tree, u: Tree, t: Tree, h: Header)
    requires Closed(s) && Closed(u) && Closed(t) && Beside(s, u, t) && !Stranded(t, h)
    requires UntarStep(s, h).outcome == Ok && Grown(UntarStep(s, h).tree, t)
    requires Copies(h) ==> ArchDone(UntarStep(s, h).tree, t)
    ensures UntarStep(u, h).outcome == Ok
    ensures Beside(UntarStep(s, h).tree, UntarStep(u, h).tree, t)
  {
    if h.kind == TypeReg {
      SecondRunWrites(s, u, t, h);
    } else if Copies(h) {
      SecondRunCopies(s, u, t, h);
    } else {
      SecondRunIdle(s, u, t, h);
      NonWriteKeepsFiles(s, h);
      BesideMore(s, UntarStep(s, h).tree, u, t);
    }
  }

  /** Entries that do not store bin/arch leave it as it is. */
  lemma {:induction false} ArchStays(s: Tree, hs: seq<Header>)
    requires Closed(s) && UntarRun(s, hs).outcome == Ok && ARCH_PATH in s && s[ARCH_PATH].File?
    requires forall j | 0 <= j < |hs| && hs[j].kind == TypeReg :: Clean(hs[j].name) != Some(ARCH_PATH)
    ensures ArchDone(s, UntarRun(s, hs).tree)
    decreases |hs|
  {
    if hs != [] {
      ArchStep(s, hs[0]);
      UntarStepKeeps(s, hs[0]);
      ArchStays(UntarStep(s, hs[0]).tree, hs[1..]);
    }
  }

  lemma ArchStep(s: Tree, h: Header)
    requires Closed(s) && UntarStep(s, h).outcome == Ok && ARCH_PATH in s && s[ARCH_PATH].File?
    requires h.kind == TypeReg ==> Clean(h.name) != Some(ARCH_PATH)
    ensures ArchDone(s, UntarStep(s, h).tree)
  {
    var p := Clean(h.name).value;
    if h.kind == TypeReg {
      WriteShape(s, p, h.body);
    } else if Copies(h) {
      CopyWrites(s, p);
      WriteShape(s, p, Copied(s, p));
      if p == ARCH_PATH { assert Overwrite(s[p].data, s[p].data) == s[p].data; }
    } else {
      NonWriteKeepsFiles(s, h);
    }
  }

  /** After a copy bin/arch is there. */
  lemma CopyHasArch(s: Tree, h: Header)
    requires Closed(s) && Copies(h) && UntarStep(s, h).outcome == Ok
    ensures var s' := UntarStep(s, h).tree;
            ARCH_PATH in s' && s'[ARCH_PATH].File?
  {
    var p := Clean(h.name).value;
    CopyWrites(s, p);
    WriteShape(s, p, Copied(s, p));
  }

  lemma NonWriteKeepsFiles(s: Tree, h: Header)
    requires Closed(s) && h.kind != TypeReg && !Copies(h)
    ensures var s' := UntarStep(s, h).tree;
            forall q | q in s && s[q].File? :: q in s' && s'[q] == s[q]
  {
    if Clean(h.name).Some? {
      var p := Clean(h.name).value;
      if h.kind == TypeDir {
        MkdirAllKeeps(s, p);
        assert UntarStep(s, h) == PutDir(s, p);
      } else if h.kind != TypeOther {
        assert UntarStep(s, h) == Symlink(s, p, h.link);
      }
    }
  }

  lemma BesideEnd(u: Tree, t: Tree)
    requires Beside(t, u, t)
    ensures u == t
  {
    forall q | q in u ensures q in t && u[q] == t[q] {
      if u[q].File? { assert u[q].data == t[q].data; }
    }
  }

  /** A copy finds bin/arch as it will be in the end. */
  lemma CopySettles(s: Tree, hs: seq<Header>)
    requires Closed(s) && hs != [] && Copies(hs[0]) && ArchSettled(hs) && UntarRun(s, hs).outcome == Ok
    ensures ArchDone(UntarStep(s, hs[0]).tree, UntarRun(s, hs).tree)
  {
    CopyHasArch(s, hs[0]);
    UntarStepKeeps(s, hs[0]);
    forall j | 0 <= j < |hs[1..]| && hs[1..][j].kind == TypeReg ensures Clean(hs[1..][j].name) != Some(ARCH_PATH) {
      assert hs[1..][j] == hs[j + 1];
    }
    ArchStays(UntarStep(s, hs[0]).tree, hs[1..]);
  }

  /** One entry of both runs, and what is left of the archive after it. */
  lemma BesideNext(s: Tree, u: Tree, t: Tree, hs: seq<Header>)
    requires Closed(s) && Closed(u) && Closed(t) && Beside(s, u, t) && ArchSettled(hs)
    requires hs != [] && UntarRun(s, hs) == Step(t, Ok) && !Stranded(t, hs[0])
    ensures var s', u' := UntarStep(s, hs[0]).tree, UntarStep(u, hs[0]).tree;
            && Closed(s') && Closed(u') && Beside(s', u', t) && ArchSettled(hs[1..])
            && UntarRun(s', hs[1..]) == Step(t, Ok) && UntarRun(u, hs) == UntarRun(u', hs[1..])
  {
    UntarStepKeeps(s, hs[0]);
    UntarStepKeeps(u, hs[0]);
    RunGrows(UntarStep(s, hs[0]).tree, hs[1..]);
    if Copies(hs[0]) { CopySettles(s, hs); }
    BesideStep(s, u, t, hs[0]);
  }

  lemma {:induction false} BesideRun(s: Tree, u: Tree, t: Tree, hs: seq<Header>)
    requires Closed(s) && Closed(u) && Closed(t) && Beside(s, u, t) && ArchSettled(hs)
    requires UntarRun(s, hs) == Step(t, Ok)
    requires forall i | 0 <= i < |hs| :: !Stranded(t, hs[i])
    ensures UntarRun(u, hs) == Step(t, Ok)
    decreases |hs|
  {
    if hs == [] {
      BesideEnd(u, t);
    } else {
      BesideNext(s, u, t, hs);
      BesideRun(UntarStep(s, hs[0]).tree, UntarStep(u, hs[0]).tree, t, hs[1..]);
    }
  }

  /** A stranded link is made, or followed, by the next run. */
  lemma StrandedStep(u: Tree, h: Header, t: Tree)
    requires Closed(u) && SameShape(u, t) && Stranded(t, h) && UntarStep(u, h).outcome == Ok
    ensures !Grown(UntarStep(u, h).tree, t)
  {
    var p := Clean(h.name).value;
    SameWay(u, t, p);
    if Copies(h) {
      CopyWrites(u, p);
      WriteShape(u, p, Copied(u, p));
    }
    assert p in UntarStep(u, h).tree;
  }

  lemma {:induction false} StrandedChanges(u: Tree, hs: seq<Header>, t: Tree, i: nat)
    requires Closed(u) && SameShape(u, t)
    requires i < |hs| && Stranded(t, hs[i])
    ensures UntarRun(u, hs) != Step(t, Ok)
    decreases |hs|
  {
    if UntarRun(u, hs) == Step(t, Ok) {
      var u' := UntarStep(u, hs[0]).tree;
      StepGrows(u, hs[0]);
      UntarStepKeeps(u, hs[0]);
      RunGrows(u', hs[1..]);
      if i == 0 {
        StrandedStep(u, hs[0], t);
      } else {
        StrandedChanges(u', hs[1..], t, i - 1);
      }
    }
  }

  /** Extracting an archive again over its own result succeeds, follows no link and changes
      nothing, for any folder and repetition of paths, exactly when no symbolic link was left
      stranded. (Without O_TRUNC a shorter body does not shorten a file; it need not. A copy of
      bin/arch comes out the same as long as bin/arch is not stored again after it.) */
  lemma UntarTwice(t: Tree, hs: seq<Header>)
    requires Closed(t) && ArchSettled(hs) && UntarRun(t, hs).outcome == Ok
    ensures var once := UntarRun(t, hs).tree;
            UntarRun(once, hs) == Step(once, Ok) <==>
            forall i | 0 <= i < |hs| :: !Stranded(once, hs[i])
  {
    var once := UntarRun(t, hs).tree;
    UntarRunKeeps(t, hs);
    RunGrows(t, hs);
    if i :| 0 <= i < |hs| && Stranded(once, hs[i]) {
      StrandedChanges(once, hs, once, i);
    } else {
      BesideRun(t, once, once, hs);
    }
  }

  lemma LinkedStops(u: Tree, t: Tree, hs: seq<Header>)
    requires Closed(u) && SameShape(u, t) && hs != [] && Stranded(t, hs[0])
    requires WayTo(t, Clean(hs[0].name).value) == Linked
    ensures UntarRun(u, hs).outcome == Unmodelled
  {
    SameWay(u, t, Clean(hs[0].name).value);
  }

  lemma {:induction false} BesideUntil(s: Tree, u: Tree, t: Tree, hs: seq<Header>, i: nat)
    requires Closed(s) && Closed(u) && Closed(t) && Beside(s, u, t) && ArchSettled(hs)
    requires UntarRun(s, hs) == Step(t, Ok) && i < |hs|
    requires Stranded(t, hs[i]) && WayTo(t, Clean(hs[i].name).value) == Linked
    requires forall j | 0 <= j < i :: !Stranded(t, hs[j])
    ensures UntarRun(u, hs).outcome == Unmodelled
    decreases |hs|
  {
    if i == 0 {
      LinkedStops(u, t, hs);
    } else {
      BesideNext(s, u, t, hs);
      BesideUntil(UntarStep(s, hs[0]).tree, UntarStep(u, hs[0]).tree, t, hs[1..], i - 1);
    }
  }

  /** If the first stranded link is one that a link now leads to, the second run would follow
      that link, and what it does is not known. */
  lemma UntarTwiceFollows(t: Tree, hs: seq<Header>, i: nat)
    requires Closed(t) && ArchSettled(hs) && UntarRun(t, hs).outcome == Ok && i < |hs|
    requires var once := UntarRun(t, hs).tree;
             && Stranded(once, hs[i]) && WayTo(once, Clean(hs[i].name).value) == Linked
             && forall j | 0 <= j < i :: !Stranded(once, hs[j])
    ensures UntarRun(UntarRun(t, hs).tree, hs).outcome == Unmodelled
  {
    var once := UntarRun(t, hs).tree;
    UntarRunKeeps(t, hs);
    RunGrows(t, hs);
    BesideUntil(t, once, once, hs, i);
  }

  /** A link listed before its directory is dropped by the first run and made by the second. */
  lemma StrandedExample()
    ensures var hs := [Header(TypeSymlink, "/a/l", "x", []), Header(TypeDir, "/a", "", [])];
            var once := UntarRun(EMPTY_FOLDER, hs);
            once.outcome == Ok && UntarRun(once.tree, hs) != once
  {
    var a: Path, l: Path := ["a"], ["a", "l"];
    var hs := [Header(TypeSymlink, Render(l), "x", []), Header(TypeDir, Render(a), "", [])];
    assert Render(l) == "/a/l" && Render(a) == "/a";
    CleanRender(l);
    CleanRender(a);
    assert Parent(l) == a && Parent(a) == ROOT;
    StrandedRun(hs, a, l);
    UntarTwice(EMPTY_FOLDER, hs);
  }

  lemma StrandedRun(hs: seq<Header>, a: Path, l: Path)
    requires |hs| == 2 && hs[0].kind == TypeSymlink && hs[0].link != "" && hs[1].kind == TypeDir
    requires Clean(hs[0].name) == Some(l) && Clean(hs[1].name) == Some(a)
    requires l != ROOT && Parent(l) == a && a != ROOT && Parent(a) == ROOT
    ensures var once := UntarRun(EMPTY_FOLDER, hs);
            once.outcome == Ok && Stranded(once.tree, hs[0])
  {
    var once := EMPTY_FOLDER[a := Dir];
    assert WayTo(EMPTY_FOLDER, ROOT) == WayTo(EMPTY_FOLDER, a) == WayTo(once, a) == Clear;
    assert WayTo(EMPTY_FOLDER, l) == Missing && WayTo(once, l) == Clear;
    assert UntarStep(EMPTY_FOLDER, hs[0]) == Step(EMPTY_FOLDER, Ok);
    assert MkdirAll(EMPTY_FOLDER, ROOT) == Step(EMPTY_FOLDER, Ok);
    assert UntarStep(EMPTY_FOLDER, hs[1]) == Step(once, Ok);
    assert hs[1..][1..] == [];
    assert UntarRun(once, []) == Step(once, Ok);
  }
}
