/** `DockerMerge` against the layered view of module Changeset. Extracting one layer with
    `UntarLayer` gives the view of the layer over the folder, exactly when the layer asks for
    no change of kind, holds no name that only looks like a whiteout, its opaque markers have
    nothing to hide, and its hard links name what their paths hold already. Extracting a stack
    bottom to top gives the view at every height exactly when this holds of every layer. */
module LayerMerge {
  import opened Strings
  import opened FileTree
  import opened Archive
  import opened TarRoundTrip
  import opened Changeset

  // ----- when a layer is extracted rightly -----

  /** An entry `UntarLayer` takes for a whiteout, though the format does not: its name starts
      with ".wh" but not with ".wh.". */
  predicate Bare(h: Header) {
    && h.kind in {TypeReg, TypeSymlink, TypeLink} && Clean(h.name).Some?
    && var p := Clean(h.name).value;
       p != ROOT && ".wh" <= p[|p| - 1] && !(".wh." <= p[|p| - 1])
  }

  predicate NoBare(hs: seq<Header>) {
    forall i | 0 <= i < |hs| :: !Bare(hs[i])
  }

  /** The extractor turns `was` into `now`: a file over a file, or nothing to change. */
  predicate Yields(was: Node, now: Node) {
    was == now || (was.File? && now.File?)
  }

  /** No kind change, and no symbolic link repeated with another target, unless a whiteout
      hides the old path. */
  ghost predicate Compatible(t: Tree, e: Effect) {
    forall q | q in e.up && q in t && !Whited(e.hid, q) :: Yields(t[q], e.up[q])
  }

  /** Below an opaque marker, what no whiteout hides is in the layer again. */
  ghost predicate OpaqueIdle(t: Tree, e: Effect) {
    forall q | q in t && Masked(e.opq, q) && !Whited(e.hid, q) :: q in e.up
  }

  /** What the extractor leaves where a hard link should be: the lower node, if it is in sight,
      else a symbolic link to the name the target has in the archive. */
  ghost function Made(t: Tree, e: Effect, p: Path): Node
    requires p in e.hard
  {
    if p in t && !Whited(e.hid, p) then t[p] else Link(e.hard[p])
  }

  /** Where a hard link should be, there already is the very node it names (or the link the
      extractor makes happens to be that node). */
  ghost predicate HardRight(t: Tree, e: Effect) {
    forall p | p in e.hard && p in e.up :: e.up[p] == Made(t, e, p)
  }

  ghost predicate Extractable(t: Tree, hs: seq<Header>) {
    var e := LayerEffect(t, NOTHING, hs);
    NoBare(hs) && Compatible(t, e) && HardRight(t, e) && OpaqueIdle(t, e)
  }

  /** A layer as the extractor sees it: without opaque markers. */
  function Blind(e: Effect): Effect {
    e.(opq := {})
  }

  // ----- one entry -----

  lemma SeenBlind(t: Tree, e: Effect, p: Path)
    requires HasFolder(Overlay(t, e), p)
    ensures HasFolder(Overlay(t, Blind(e)), p)
  {
  }

  lemma UnreservedOver(t: Tree, e: Effect)
    requires Unreserved(t) && Unreserved(e.up)
    ensures Unreserved(Overlay(t, e))
  {
  }

  /** Putting a node where nothing lies below it, or another directory, hides nothing more. */
  lemma HiddenPut(e: Effect, p: Path, n: Node, q: Path)
    requires p in e.up ==> e.up[p].Dir? == n.Dir?
    requires !n.Dir? ==> !(p < q) || Hidden(e, q)
    ensures Hidden(e.(up := e.up[p := n]), q) <==> Hidden(e, q)
  {
    var up' := e.up[p := n];
    if Covered(e.up, q) {
      var f :| f in e.up && f < q && !e.up[f].Dir?;
      assert f in up' && !up'[f].Dir?;
    }
  }

  lemma OverlayPut(t: Tree, e: Effect, p: Path, n: Node)
    requires Closed(Overlay(t, e)) && (p in Overlay(t, e) ==> Overlay(t, e)[p].Dir? == n.Dir?)
    ensures Overlay(t, e.(up := e.up[p := n])) == Overlay(t, e)[p := n]
  {
    var over := Overlay(t, e.(up := e.up[p := n]));
    forall q ensures Look(over, q) == Look(Overlay(t, e)[p := n], q) { OverlayPutAt(t, e, p, n, q); }
    SameLook(over, Overlay(t, e)[p := n]);
  }

  lemma OverlayPutAt(t: Tree, e: Effect, p: Path, n: Node, q: Path)
    requires Closed(Overlay(t, e)) && (p in Overlay(t, e) ==> Overlay(t, e)[p].Dir? == n.Dir?)
    ensures Look(Overlay(t, e.(up := e.up[p := n])), q) == Look(Overlay(t, e)[p := n], q)
  {
    if q in t && q != p && q !in e.up {
      assert p in e.up ==> p in Overlay(t, e);
      if !n.Dir? && !Hidden(e, q) { NothingBelow(Overlay(t, e), p, q); }
      HiddenPut(e, p, n, q);
    }
  }

  /** A whiteout removes its sibling; its own name is nowhere in the folder. */
  lemma WhiteoutStep(cur: Tree, h: Header, p: Path)
    requires Folder(cur) && Unreserved(cur) && HasFolder(cur, p)
    requires h.kind == TypeReg && Clean(h.name) == Some(p) && Reserved(p)
    requires LegalName(p[|p| - 1][|WHITEOUT|..])
    ensures LayerStep(cur, h) == Step(Without(cur, Sibling(p)), Ok)
  {
    var r := Sibling(p);
    WhiteoutRemoves(h, p);
    WayBeside(cur, r);
    WithoutKeeps(cur, r);
    var cut := Without(cur, r);
    assert Parent(p) in cut by { assert |r| > |Parent(p)|; }
    WayBeside(cut, p);
    forall q | q in cut ensures !(p <= q) { NothingBelow(cut, p, q); }
    assert Without(cut, p) == cut;
    RemoveBoth(cur, r, p);
  }

  lemma WhiteoutRemoves(h: Header, p: Path)
    requires h.kind == TypeReg && Reserved(p) && LegalName(p[|p| - 1][|WHITEOUT|..])
    ensures IsMarker(p) && Removals(h, p) == Some([Sibling(p)] + [p])
  {
    assert MARK <= MARK_DOT <= p[|p| - 1];
  }

  lemma RemoveBoth(t: Tree, a: Path, b: Path)
    requires RemoveAll(t, a).outcome == Ok
    ensures RemoveEach(t, [a] + [b]) == RemoveAll(Without(t, a), b)
  {
    var ps := [a] + [b];
    assert ps[0] == a && ps[1..] == [b] && [b][1..] == [];
    assert RemoveEach(t, ps) == RemoveEach(Without(t, a), [b]);
    var last := RemoveAll(Without(t, a), b);
    assert last.outcome == Ok ==> RemoveEach(last.tree, []) == last;
  }

  lemma OpaqueAgrees(t: Tree, e: Effect, h: Header, p: Path)
    requires Folder(Overlay(t, e)) && Unreserved(Overlay(t, e)) && HasFolder(Overlay(t, e), p)
    requires h.kind == TypeReg && Clean(h.name) == Some(p) && p[|p| - 1] == OPAQUE
    ensures LayerStep(Overlay(t, e), h) == Step(Overlay(t, e), Ok)
  {
    var cur, r := Overlay(t, e), Sibling(p);
    assert LegalName(OPAQUE[|WHITEOUT|..]);
    WhiteoutStep(cur, h, p);
    assert Reserved(r);
    forall q | q in cur ensures !(r <= q) { NothingBelow(cur, r, q); }
    assert Without(cur, r) == cur;
  }

  lemma WithoutHides(t: Tree, e: Effect, r: Path)
    requires e.opq == {} && forall q | q in e.up :: !(r <= q)
    ensures Without(Overlay(t, e), r) == Overlay(t, e.(hid := e.hid + {r}))
  {
    var e' := e.(hid := e.hid + {r});
    assert forall q :: Whited(e'.hid, q) <==> Whited(e.hid, q) || r <= q;
  }

  lemma HideAgrees(t: Tree, e: Effect, h: Header, p: Path)
    requires Folder(t) && Folder(Overlay(t, Blind(e))) && Unreserved(t) && Unreserved(e.up)
    requires h.kind == TypeReg && Clean(h.name) == Some(p) && Reserved(p) && Fits(t, e, h)
    ensures LayerStep(Overlay(t, Blind(e)), h) == Step(Overlay(t, Blind(Record(t, e, h))), Ok)
  {
    SeenBlind(t, e, p);
    UnreservedOver(t, Blind(e));
    if p[|p| - 1] == OPAQUE {
      OpaqueAgrees(t, Blind(e), h, p);
    } else {
      WhiteoutStep(Overlay(t, Blind(e)), h, p);
      WithoutHides(t, Blind(e), Sibling(p));
    }
  }

  lemma DirLands(cur: Tree, p: Path)
    requires Folder(cur) && (p == ROOT || HasFolder(cur, p)) && (p in cur ==> cur[p].Dir?)
    ensures PutDir(cur, p) == Step(cur[p := Dir], Ok)
  {
    if p != ROOT {
      WayBeside(cur, p);
      WayInside(cur, Parent(p));
      assert MkdirAll(cur, Parent(p)) == Step(cur, Ok);
    }
    if p in cur { assert cur[p := Dir] == cur; }
  }

  lemma FileLands(t: Tree, e: Effect, p: Path, body: Bytes)
    requires Folder(Overlay(t, e)) && HasFolder(Overlay(t, e), p)
    requires p in Overlay(t, e) ==> Overlay(t, e)[p].File?
    ensures WriteFile(Overlay(t, e), p, body, true) == Step(Overlay(t, e.(up := e.up[p := File(body)])), Ok)
  {
    WayBeside(Overlay(t, e), p);
    OverlayPut(t, e, p, File(body));
  }

  lemma LinkLands(t: Tree, e: Effect, p: Path, target: string)
    requires Folder(Overlay(t, e)) && HasFolder(Overlay(t, e), p) && target != ""
    requires p !in e.up && p in Overlay(t, e) ==> Overlay(t, e)[p] == Link(target)
    ensures Symlink(Overlay(t, e), p, target)
         == Step(Overlay(t, if p in e.up then e else e.(up := e.up[p := Link(target)])), Ok)
  {
    var cur := Overlay(t, e);
    WayBeside(cur, p);
    if p !in e.up {
      OverlayPut(t, e, p, Link(target));
      if p in cur { assert cur[p := Link(target)] == cur; }
    }
  }

  /** A hard link lands when what the extractor leaves at its path is the node it names. */
  lemma HardLands(t: Tree, e: Effect, p: Path, target: string, n: Node)
    requires Folder(Overlay(t, e)) && HasFolder(Overlay(t, e), p) && target != "" && !n.Dir?
    requires n == if p in Overlay(t, e) then Overlay(t, e)[p] else Link(target)
    ensures Symlink(Overlay(t, e), p, target) == Step(Overlay(t, e.(up := e.up[p := n])), Ok)
  {
    var cur := Overlay(t, e);
    WayBeside(cur, p);
    OverlayPut(t, e, p, n);
    if p in cur { assert cur[p := n] == cur; }
  }

  /** Beside a directory in sight, only whiteouts take lower paths out of sight. */
  lemma BesideSeen(t: Tree, e: Effect, p: Path)
    requires Closed(Overlay(t, Blind(e))) && HasFolder(Overlay(t, Blind(e)), p) && p !in e.up
    ensures p in Overlay(t, Blind(e)) <==> p in t && !Whited(e.hid, p)
    ensures p in t && !Whited(e.hid, p) ==> Overlay(t, Blind(e))[p] == t[p]
  {
    if Covered(e.up, p) {
      var f :| f in e.up && f < p && !e.up[f].Dir?;
      if f != Parent(p) {
        assert f < Parent(p);
        NothingBelow(Overlay(t, Blind(e)), f, Parent(p));
      }
    }
  }

  lemma HardAgrees(t: Tree, e: Effect, h: Header, p: Path)
    requires Folder(Overlay(t, Blind(e))) && Fits(t, e, h) && !Bare(h) && h.kind == TypeLink
    requires Clean(h.name) == Some(p) && HardRight(t, Record(t, e, h))
    ensures LayerStep(Overlay(t, Blind(e)), h) == Step(Overlay(t, Blind(Record(t, e, h))), Ok)
  {
    var n, b, e' := Target(t, e, h).value, Blind(e), Record(t, e, h);
    SeenBlind(t, e, p);
    BesideSeen(t, e, p);
    assert p in e'.hard && e'.up[p] == Made(t, e', p);
    LinkNamed(t, e, h);
    HardLands(t, b, p, h.link, n);
    HardUnseen(t, b.(up := b.up[p := n]), e'.hard);
    assert Blind(e') == b.(up := b.up[p := n]).(hard := e'.hard);
  }

  /** An empty link name is the root, which no hard link names. */
  lemma LinkNamed(t: Tree, e: Effect, h: Header)
    requires h.kind == TypeLink && Target(t, e, h).Some? && !Target(t, e, h).value.Dir?
    requires ROOT in Overlay(t, e) ==> Overlay(t, e)[ROOT].Dir?
    ensures h.link != ""
  {
    assert Split("", '/') == [""];
    assert Climb([""], ROOT) == Climb([], ROOT) == Some(ROOT);
  }

  lemma PutAgrees(t: Tree, e: Effect, h: Header, p: Path)
    requires Folder(Overlay(t, Blind(e))) && Fits(t, e, h) && !Bare(h)
    requires Clean(h.name) == Some(p) && !Reserved(p) && h.kind in {TypeReg, TypeSymlink}
    requires Compatible(t, Record(t, e, h))
    ensures LayerStep(Overlay(t, Blind(e)), h) == Step(Overlay(t, Blind(Record(t, e, h))), Ok)
  {
    SeenBlind(t, e, p);
    var e' := Record(t, e, h);
    assert p in t && !Whited(e'.hid, p) ==> Yields(t[p], e'.up[p]);
    if h.kind == TypeReg {
      FileLands(t, Blind(e), p, h.body);
    } else {
      LinkLands(t, Blind(e), p, h.link);
    }
  }

  /** One entry takes the view of a folder and part of a layer, as the extractor sees it, to
      the view with that entry. */
  lemma StepAgrees(t: Tree, e: Effect, h: Header)
    requires Folder(t) && Folder(Overlay(t, Blind(e))) && Unreserved(t) && Unreserved(e.up)
    requires Fits(t, e, h) && !Bare(h) && Compatible(t, Record(t, e, h)) && HardRight(t, Record(t, e, h))
    ensures LayerStep(Overlay(t, Blind(e)), h) == Step(Overlay(t, Blind(Record(t, e, h))), Ok)
  {
    var p := Clean(h.name).value;
    match h.kind
    case TypeDir => DirAgrees(t, e, h, p);
    case TypeReg => if Reserved(p) { HideAgrees(t, e, h, p); } else { PutAgrees(t, e, h, p); }
    case TypeSymlink => PutAgrees(t, e, h, p);
    case TypeLink => HardAgrees(t, e, h, p);
    case TypeOther =>
  }

  lemma DirAgrees(t: Tree, e: Effect, h: Header, p: Path)
    requires Folder(Overlay(t, Blind(e))) && Fits(t, e, h) && h.kind == TypeDir && Clean(h.name) == Some(p)
    requires Compatible(t, Record(t, e, h))
    ensures LayerStep(Overlay(t, Blind(e)), h) == Step(Overlay(t, Blind(Record(t, e, h))), Ok)
  {
    var e' := Record(t, e, h);
    assert p in e'.up && p in t && !Whited(e.hid, p) ==> Yields(t[p], e'.up[p]);
    if p != ROOT { SeenBlind(t, e, p); }
    OverlayPut(t, Blind(e), p, Dir);
    DirLands(Overlay(t, Blind(e)), p);
  }

  // ----- one layer -----

  lemma CompatibleBefore(t: Tree, e: Effect, hs: seq<Header>)
    requires WellFormed(t, e, hs) && Compatible(t, LayerEffect(t, e, hs))
    ensures Compatible(t, e)
  {
    EffectGrows(t, e, hs);
  }

  lemma HardBefore(t: Tree, e: Effect, hs: seq<Header>)
    requires WellFormed(t, e, hs) && HardRight(t, LayerEffect(t, e, hs))
    ensures HardRight(t, e)
  {
    EffectGrows(t, e, hs);
    var e' := LayerEffect(t, e, hs);
    forall p | p in e.hard && p in e.up ensures e.up[p] == Made(t, e, p) {
      assert e'.up[p] == Made(t, e', p);
    }
  }

  lemma {:induction false} RunAgrees(t: Tree, e: Effect, hs: seq<Header>)
    requires Folder(t) && Folder(Overlay(t, Blind(e))) && Unreserved(t) && Unreserved(e.up)
    requires WellFormed(t, e, hs) && NoBare(hs)
    requires Compatible(t, LayerEffect(t, e, hs)) && HardRight(t, LayerEffect(t, e, hs))
    ensures LayerRun(Overlay(t, Blind(e)), hs) == Step(Overlay(t, Blind(LayerEffect(t, e, hs))), Ok)
    decreases |hs|
  {
    if hs != [] {
      var e' := Record(t, e, hs[0]);
      CompatibleBefore(t, e', hs[1..]);
      HardBefore(t, e', hs[1..]);
      StepAgrees(t, e, hs[0]);
      LayerStepKeeps(Overlay(t, Blind(e)), hs[0]);
      RecordUnreserved(t, e, hs[0]);
      BlindRoot(t, e, hs[0]);
      RunAgrees(t, e', hs[1..]);
    }
  }

  lemma RootShown(t: Tree, e: Effect)
    ensures var over := Overlay(t, Blind(e));
            ROOT in over && over[ROOT].Dir? <==>
            if ROOT in e.up then e.up[ROOT].Dir? else ROOT in t && t[ROOT].Dir? && ROOT !in e.hid
  {
    assert forall r: Path | r in e.hid && r <= ROOT :: r == ROOT;
    assert !Covered(e.up, ROOT);
    assert Whited(e.hid, ROOT) <==> ROOT in e.hid;
  }

  lemma BlindRoot(t: Tree, e: Effect, h: Header)
    requires Fits(t, e, h) && Folder(Overlay(t, Blind(e)))
    ensures var over := Overlay(t, Blind(Record(t, e, h)));
            ROOT in over && over[ROOT].Dir?
  {
    RootShown(t, e);
    RootShown(t, Record(t, e, h));
  }

  // ----- a refused change is never made later -----

  /** What the layer neither hides nor may replace is still as it was. */
  ghost predicate Kept(cur: Tree, t: Tree, e: Effect) {
    forall q | q in t && !Whited(e.hid, q) && (q in e.up ==> !Yields(t[q], e.up[q])) ::
      q in cur && cur[q] == t[q]
  }

  lemma WithoutKept(cur: Tree, t: Tree, e: Effect, e': Effect, r: Path)
    requires Kept(cur, t, e) && e'.up == e.up
    requires forall q | q in t && !Whited(e'.hid, q) :: !Whited(e.hid, q) && !(r <= q)
    ensures Kept(Without(cur, r), t, e')
  {
  }

  lemma NotUnder(t: Tree, p: Path)
    requires Closed(t) && Unreserved(t) && Reserved(p)
    ensures forall q | q in t :: !(p <= q)
  {
    forall q | q in t ensures !(p <= q) { NothingBelow(t, p, q); }
  }

  lemma OpaqueKept(cur: Tree, t: Tree, e: Effect, e': Effect, r: Path, p: Path)
    requires Kept(cur, t, e) && Closed(t) && Unreserved(t) && Reserved(r) && Reserved(p)
    requires e'.up == e.up && e'.hid == e.hid
    ensures Kept(Without(Without(cur, r), p), t, e')
  {
    NotUnder(t, r);
    NotUnder(t, p);
    WithoutKept(cur, t, e, e', r);
    WithoutKept(Without(cur, r), t, e', e', p);
  }

  lemma SiblingKept(cur: Tree, t: Tree, e: Effect, r: Path, p: Path)
    requires Kept(cur, t, e) && Closed(t) && Unreserved(t) && Reserved(p)
    ensures Kept(Without(Without(cur, r), p), t, e.(hid := e.hid + {r}))
  {
    var e' := e.(hid := e.hid + {r});
    NotUnder(t, p);
    forall q | q in t && !Whited(e'.hid, q) ensures !Whited(e.hid, q) && !(r <= q) { assert r in e'.hid; }
    WithoutKept(cur, t, e, e', r);
    WithoutKept(Without(cur, r), t, e', e', p);
  }

  lemma HideKept(cur: Tree, t: Tree, e: Effect, h: Header, p: Path)
    requires Kept(cur, t, e) && Closed(t) && Unreserved(t)
    requires h.kind == TypeReg && Clean(h.name) == Some(p) && Reserved(p)
    requires LegalName(p[|p| - 1][|WHITEOUT|..]) && LayerStep(cur, h).outcome == Ok
    ensures Kept(LayerStep(cur, h).tree, t, Record(t, e, h))
  {
    WhiteoutRemoves(h, p);
    RemoveTwo(cur, Sibling(p), p);
    if p[|p| - 1] == OPAQUE {
      OpaqueKept(cur, t, e, Record(t, e, h), Sibling(p), p);
    } else {
      SiblingKept(cur, t, e, Sibling(p), p);
    }
  }

  lemma RemoveTwo(t: Tree, a: Path, b: Path)
    requires RemoveEach(t, [a] + [b]).outcome == Ok
    ensures RemoveEach(t, [a] + [b]).tree == Without(Without(t, a), b)
  {
    assert ([a] + [b])[0] == a;
    RemoveBoth(t, a, b);
  }

  lemma DirKept(cur: Tree, t: Tree, e: Effect, p: Path)
    requires Closed(cur) && Kept(cur, t, e)
    requires p in e.up ==> e.up[p].Dir?
    ensures Kept(PutDir(cur, p).tree, t, e.(up := e.up[p := Dir]))
  {
    MkdirAllKeeps(cur, p);
  }

  lemma WriteKept(cur: Tree, t: Tree, e: Effect, p: Path, body: Bytes)
    requires Kept(cur, t, e) && (p in e.up ==> e.up[p].File?)
    requires WriteFile(cur, p, body, true).outcome == Ok
    ensures Kept(WriteFile(cur, p, body, true).tree, t, e.(up := e.up[p := File(body)]))
  {
    assert p in cur ==> cur[p].File?;
  }

  lemma LinkKept(cur: Tree, t: Tree, e: Effect, p: Path, target: string)
    requires Kept(cur, t, e)
    ensures Kept(Symlink(cur, p, target).tree, t, if p in e.up then e else e.(up := e.up[p := Link(target)]))
  {
  }

  lemma HardKept(cur: Tree, t: Tree, e: Effect, h: Header, p: Path)
    requires Kept(cur, t, e) && Fits(t, e, h) && h.kind == TypeLink && Clean(h.name) == Some(p)
    ensures Kept(Symlink(cur, p, h.link).tree, t, Record(t, e, h))
  {
  }

  lemma StepKept(cur: Tree, t: Tree, e: Effect, h: Header)
    requires Closed(cur) && Closed(t) && Unreserved(t) && Fits(t, e, h) && !Bare(h) && Kept(cur, t, e)
    requires LayerStep(cur, h).outcome == Ok
    ensures Kept(LayerStep(cur, h).tree, t, Record(t, e, h))
  {
    var p := Clean(h.name).value;
    if h.kind == TypeDir {
      DirKept(cur, t, e, p);
    } else if h.kind != TypeOther {
      if Reserved(p) {
        assert LegalName(OPAQUE[|WHITEOUT|..]);
        HideKept(cur, t, e, h, p);
      } else if h.kind == TypeReg {
        WriteKept(cur, t, e, p, h.body);
      } else if h.kind == TypeSymlink {
        LinkKept(cur, t, e, p, h.link);
      } else {
        HardKept(cur, t, e, h, p);
      }
    }
  }

  // ----- a hard link is never made -----

  /** The layer holds `q`, or leaves it in sight. */
  ghost predicate InSight(t: Tree, e: Effect, q: Path) {
    q in e.up || (q in t && !Whited(e.hid, q))
  }

  /** Nothing is there but what is in sight. */
  ghost predicate Near(cur: Tree, t: Tree, e: Effect) {
    forall q | q in cur :: InSight(t, e, q)
  }

  /** Where the layer has a hard link, there is at most what the extractor leaves. */
  ghost predicate HardMade(cur: Tree, t: Tree, e: Effect) {
    forall p | p in e.hard :: p in e.up && !e.up[p].Dir? && (p in cur ==> cur[p] == Made(t, e, p))
  }

  lemma DirNear(cur: Tree, t: Tree, e: Effect, p: Path)
    requires Closed(Overlay(t, e)) && Near(cur, t, e) && (p == ROOT || HasFolder(Overlay(t, e), p))
    ensures Near(PutDir(cur, p).tree, t, e.(up := e.up[p := Dir]))
  {
    MkdirAllAdds(cur, p);
    var next, e' := PutDir(cur, p).tree, e.(up := e.up[p := Dir]);
    forall q | q in next ensures InSight(t, e', q) {
      if q in cur { assert InSight(t, e, q); } else { OnTheWay(Overlay(t, e), p, q); }
    }
  }

  /** What leads to `p` is `p` itself or a directory. */
  lemma OnTheWay(over: Tree, p: Path, q: Path)
    requires Closed(over) && (p == ROOT || HasFolder(over, p)) && q <= p
    ensures q == p || (q in over && over[q].Dir?)
  {
    assert |q| == |p| ==> q == p;
    if q != p && q != Parent(p) {
      assert q < Parent(p);
      AboveIn(over, q, Parent(p));
    }
  }

  lemma DirMade(cur: Tree, t: Tree, e: Effect, p: Path)
    requires Closed(cur) && Closed(Overlay(t, e)) && HardMade(cur, t, e) && p !in e.hard
    requires p == ROOT || HasFolder(Overlay(t, e), p)
    ensures HardMade(PutDir(cur, p).tree, t, e.(up := e.up[p := Dir]))
  {
    MkdirAllKeeps(cur, p);
    MkdirAllAdds(cur, p);
    var next, e' := PutDir(cur, p).tree, e.(up := e.up[p := Dir]);
    forall q | q in e'.hard ensures q in e'.up && !e'.up[q].Dir? && (q in next ==> next[q] == Made(t, e', q)) {
      assert Made(t, e', q) == Made(t, e, q);
      if q in next && q !in cur { OnTheWay(Overlay(t, e), p, q); }
    }
  }

  /** An entry that changes at most its own path, which is no hard link. */
  lemma PutMade(cur: Tree, next: Tree, t: Tree, e: Effect, e': Effect, p: Path)
    requires HardMade(cur, t, e) && p !in e.hard && e'.hid == e.hid && e'.hard == e.hard
    requires forall q | q in next && q != p :: q in cur && next[q] == cur[q]
    requires forall q | q in e.up && q != p :: q in e'.up && e'.up[q] == e.up[q]
    ensures HardMade(next, t, e')
  {
    forall q | q in e'.hard ensures q in e'.up && !e'.up[q].Dir? && (q in next ==> next[q] == Made(t, e', q)) {
      assert Made(t, e', q) == Made(t, e, q);
    }
  }

  lemma PutNear(cur: Tree, next: Tree, t: Tree, e: Effect, e': Effect, p: Path)
    requires Near(cur, t, e) && e'.hid == e.hid && p in e'.up && e.up.Keys <= e'.up.Keys
    requires forall q | q in next && q != p :: q in cur
    ensures Near(next, t, e')
  {
    forall q | q in next ensures InSight(t, e', q) {
      if q in cur { assert InSight(t, e, q); }
    }
  }

  lemma HardIsMade(cur: Tree, t: Tree, e: Effect, h: Header, p: Path)
    requires Near(cur, t, e) && HardMade(cur, t, e) && Kept(cur, t, e)
    requires Fits(t, e, h) && h.kind == TypeLink && Clean(h.name) == Some(p)
    ensures HardMade(Symlink(cur, p, h.link).tree, t, Record(t, e, h))
  {
    var next, e' := Symlink(cur, p, h.link).tree, Record(t, e, h);
    var n := Target(t, e, h).value;
    assert e' == e.(up := e.up[p := n], hard := e.hard[p := h.link]);
    assert p in cur ==> InSight(t, e, p);
    forall q | q in e'.hard ensures q in e'.up && !e'.up[q].Dir? && (q in next ==> next[q] == Made(t, e', q)) {
      if q != p { assert Made(t, e', q) == Made(t, e, q); }
    }
  }

  lemma HideNear(cur: Tree, t: Tree, e: Effect, h: Header, p: Path)
    requires Near(cur, t, e) && HardMade(cur, t, e)
    requires Fits(t, e, h) && h.kind == TypeReg && Clean(h.name) == Some(p) && Reserved(p)
    requires LayerStep(cur, h).outcome == Ok
    ensures Near(LayerStep(cur, h).tree, t, Record(t, e, h))
    ensures HardMade(LayerStep(cur, h).tree, t, Record(t, e, h))
  {
    var r, e', next := Sibling(p), Record(t, e, h), LayerStep(cur, h).tree;
    assert LegalName(OPAQUE[|WHITEOUT|..]);
    WhiteoutRemoves(h, p);
    RemoveTwo(cur, r, p);
    RecordGrows(t, e, h);
    forall q | q in next ensures InSight(t, e', q) {
      assert q in cur && !(r <= q) && InSight(t, e, q);
    }
    forall q | q in e'.hard ensures q in e'.up && !e'.up[q].Dir? && (q in next ==> next[q] == Made(t, e', q)) {
      assert Made(t, e', q) == Made(t, e, q);
    }
  }

  lemma StepNear(cur: Tree, t: Tree, e: Effect, h: Header)
    requires Closed(cur) && Folder(Overlay(t, e)) && Fits(t, e, h) && !Bare(h) && LayerStep(cur, h).outcome == Ok
    requires Kept(cur, t, e) && Near(cur, t, e) && HardMade(cur, t, e)
    ensures Near(LayerStep(cur, h).tree, t, Record(t, e, h))
    ensures HardMade(LayerStep(cur, h).tree, t, Record(t, e, h))
  {
    var p := Clean(h.name).value;
    if h.kind == TypeDir {
      DirNear(cur, t, e, p);
      DirMade(cur, t, e, p);
    } else if h.kind == TypeReg && Reserved(p) {
      HideNear(cur, t, e, h, p);
    } else if h.kind != TypeOther {
      EntryNear(cur, t, e, h, p);
    }
  }

  lemma EntryNear(cur: Tree, t: Tree, e: Effect, h: Header, p: Path)
    requires Fits(t, e, h) && !Bare(h) && Clean(h.name) == Some(p) && !Reserved(p) && h.kind !in {TypeDir, TypeOther}
    requires Kept(cur, t, e) && Near(cur, t, e) && HardMade(cur, t, e)
    ensures Near(LayerStep(cur, h).tree, t, Record(t, e, h))
    ensures HardMade(LayerStep(cur, h).tree, t, Record(t, e, h))
  {
    var next, e' := LayerStep(cur, h).tree, Record(t, e, h);
    PutOnly(cur, h, p);
    PutNear(cur, next, t, e, e', p);
    if h.kind == TypeLink {
      HardIsMade(cur, t, e, h, p);
    } else {
      PutMade(cur, next, t, e, e', p);
    }
  }

  lemma PutOnly(cur: Tree, h: Header, p: Path)
    requires !Bare(h) && Clean(h.name) == Some(p) && !Reserved(p) && h.kind !in {TypeDir, TypeOther}
    ensures var next := LayerStep(cur, h).tree;
            forall q | q in next && q != p :: q in cur && next[q] == cur[q]
    ensures h.kind == TypeLink ==> LayerStep(cur, h) == Symlink(cur, p, h.link)
  {
  }

  lemma {:induction false} RunKept(cur: Tree, t: Tree, e: Effect, hs: seq<Header>)
    requires Closed(cur) && Folder(t) && Folder(Overlay(t, e)) && Unreserved(t)
    requires WellFormed(t, e, hs) && NoBare(hs) && LayerRun(cur, hs).outcome == Ok
    requires Kept(cur, t, e) && Near(cur, t, e) && HardMade(cur, t, e)
    ensures Kept(LayerRun(cur, hs).tree, t, LayerEffect(t, e, hs))
    ensures HardMade(LayerRun(cur, hs).tree, t, LayerEffect(t, e, hs))
    decreases |hs|
  {
    if hs != [] {
      StepKept(cur, t, e, hs[0]);
      StepNear(cur, t, e, hs[0]);
      LayerStepKeeps(cur, hs[0]);
      RecordFolder(t, e, hs[0]);
      RunKept(LayerStep(cur, hs[0]).tree, t, Record(t, e, hs[0]), hs[1..]);
    }
  }

  // ----- a bare name is lost -----

  lemma {:induction false} RemovedGone(t: Tree, ps: seq<Path>)
    requires RemoveEach(t, ps).outcome == Ok
    ensures forall q | q in RemoveEach(t, ps).tree :: q in t && forall i | 0 <= i < |ps| :: q != ps[i]
    decreases |ps|
  {
    if ps != [] {
      RemovedGone(Without(t, ps[0]), ps[1..]);
      forall q, i | q in RemoveEach(t, ps).tree && 0 <= i < |ps| ensures q != ps[i] {
        if i > 0 { assert ps[1..][i - 1] == ps[i]; } else { assert q in Without(t, ps[0]); }
      }
    }
  }

  /** The extractor deletes a bare name instead of making it. */
  lemma BareGoes(cur: Tree, h: Header)
    requires Bare(h) && LayerStep(cur, h).outcome == Ok
    ensures Clean(h.name).value !in LayerStep(cur, h).tree
  {
    var p := Clean(h.name).value;
    var ps := Removals(h, p).value;
    assert ps[|ps| - 1] == p;
    RemovedGone(cur, ps);
  }

  lemma GoneDir(over: Tree, cur: Tree, p: Path, q: Path)
    requires Closed(over) && p in over && !over[p].Dir? && p !in cur
    requires p != q && (q == ROOT || HasFolder(over, q))
    ensures p !in PutDir(cur, q).tree
  {
    MkdirAllAdds(cur, q);
    assert p <= q && |p| == |q| ==> p == q;
    if p < q && p != Parent(q) { NothingBelow(over, p, Parent(q)); }
  }

  /** A bare name the layer holds stays away. */
  lemma GoneStep(over: Tree, cur: Tree, h: Header, p: Path)
    requires Closed(over) && p in over && !over[p].Dir? && IsMarker(p) && p !in cur
    requires Clean(h.name).Some? && LayerStep(cur, h).outcome == Ok
    requires var q := Clean(h.name).value;
             h.kind == TypeDir ==> q != p && (q == ROOT || HasFolder(over, q))
    ensures p !in LayerStep(cur, h).tree
  {
    var q := Clean(h.name).value;
    if h.kind == TypeDir {
      GoneDir(over, cur, p, q);
    } else if h.kind != TypeOther && IsMarker(q) {
      RemovedGone(cur, Removals(h, q).value);
    }
  }

  lemma {:induction false} GoneStays(t: Tree, e: Effect, cur: Tree, hs: seq<Header>, p: Path)
    requires Folder(t) && Folder(Overlay(t, e)) && WellFormed(t, e, hs) && LayerRun(cur, hs).outcome == Ok
    requires p in e.up && !e.up[p].Dir? && IsMarker(p) && p !in cur
    ensures p !in LayerRun(cur, hs).tree && p in LayerEffect(t, e, hs).up
    decreases |hs|
  {
    if hs != [] {
      GoneStep(Overlay(t, e), cur, hs[0], p);
      RecordFolder(t, e, hs[0]);
      RecordGrows(t, e, hs[0]);
      GoneStays(t, Record(t, e, hs[0]), LayerStep(cur, hs[0]).tree, hs[1..], p);
    }
  }

  lemma {:induction false} BareLost(t: Tree, e: Effect, cur: Tree, hs: seq<Header>, i: nat)
    requires Folder(t) && Folder(Overlay(t, e)) && WellFormed(t, e, hs) && LayerRun(cur, hs).outcome == Ok
    requires i < |hs| && Bare(hs[i])
    ensures LayerRun(cur, hs).tree != Overlay(t, LayerEffect(t, e, hs))
    decreases |hs|
  {
    var next, e' := LayerStep(cur, hs[0]).tree, Record(t, e, hs[0]);
    RecordFolder(t, e, hs[0]);
    if i == 0 {
      BareGoes(cur, hs[0]);
      GoneStays(t, e', next, hs[1..], Clean(hs[0].name).value);
    } else {
      BareLost(t, e', next, hs[1..], i - 1);
    }
  }

  // ----- opaque markers -----

  /** The extractor's view of a layer is the view exactly when opaque markers are idle. */
  lemma BlindIff(t: Tree, e: Effect)
    requires Closed(t) && Compatible(t, e)
    ensures Overlay(t, Blind(e)) == Overlay(t, e) <==> OpaqueIdle(t, e)
  {
    if Overlay(t, Blind(e)) == Overlay(t, e) {
      forall q | q in t && Masked(e.opq, q) && !Whited(e.hid, q) ensures q in e.up {
        if q !in e.up {
          assert q !in Overlay(t, e);
          assert Covered(e.up, q);
          var f :| f in e.up && f < q && !e.up[f].Dir?;
          assert Whited(e.hid, f) ==> Whited(e.hid, q) by { WhitedBelow(e.hid, f, q); }
          NothingBelow(t, f, q);
        }
      }
    }
  }

  lemma WhitedBelow(hid: set<Path>, above: Path, q: Path)
    requires above < q
    ensures Whited(hid, above) ==> Whited(hid, q)
  {
    if Whited(hid, above) {
      var r :| r in hid && r <= above;
      assert r <= q;
    }
  }

  /** Applying one well-formed layer over any folder succeeds and gives the layered view of
      the two, exactly when the layer asks for no kind change and no new target of an existing
      link without a whiteout, holds no ".wh" name that is no whiteout, its opaque markers
      hide nothing that the layer does not hide or hold anyway, and each of its hard links
      names the node that its path shows already. */
  lemma LayerAgreesIff(t: Tree, hs: seq<Header>)
    requires Folder(t) && Unreserved(t) && WellFormed(t, NOTHING, hs)
    ensures LayerRun(t, hs) == Step(Overlay(t, LayerEffect(t, NOTHING, hs)), Ok) <==> Extractable(t, hs)
  {
    var e := LayerEffect(t, NOTHING, hs);
    assert Overlay(t, NOTHING) == t && Blind(NOTHING) == NOTHING;
    if LayerRun(t, hs) == Step(Overlay(t, e), Ok) {
      if i :| 0 <= i < |hs| && Bare(hs[i]) { BareLost(t, NOTHING, t, hs, i); }
      RunKept(t, t, NOTHING, hs);
      KeptIsRight(t, e);
    }
    if NoBare(hs) && Compatible(t, e) && HardRight(t, e) {
      RunAgrees(t, NOTHING, hs);
      BlindIff(t, e);
    }
  }

  lemma KeptIsRight(t: Tree, e: Effect)
    requires Kept(Overlay(t, e), t, e) && HardMade(Overlay(t, e), t, e)
    ensures Compatible(t, e) && HardRight(t, e)
  {
    assert forall q | q in e.up :: Overlay(t, e)[q] == e.up[q];
  }

  // ----- a stack of layers -----

  ghost predicate Stackable(layers: seq<seq<Header>>) {
    WellStacked(layers) && forall i | 0 <= i < |layers| :: Extractable(Below(layers, i), layers[i])
  }

  lemma {:induction false} MergeSnoc(t: Tree, layers: seq<seq<Header>>, k: nat)
    requires k < |layers|
    ensures var s := MergeRun(t, layers[..k]);
            MergeRun(t, layers[..k + 1]) == if s.outcome == Ok then LayerRun(s.tree, layers[k]) else s
    decreases k
  {
    assert layers[..k + 1][0] == layers[0];
    if k == 0 {
      assert layers[..1][1..] == [] && layers[..0] == [];
    } else {
      var s := LayerRun(t, layers[0]);
      assert layers[..k + 1][1..] == layers[1..][..k] && layers[..k][1..] == layers[1..][..k - 1];
      if s.outcome == Ok { MergeSnoc(s.tree, layers[1..], k - 1); }
    }
  }

  /** The first `k` layers merge to their layered view. */
  ghost predicate MergesAt(layers: seq<seq<Header>>, k: nat)
    requires k <= |layers|
  {
    var r := MergeRun(EMPTY_FOLDER, layers[..k]);
    r.outcome == Ok && Shows(r.tree, Effects(layers)[..k])
  }

  lemma MergesNext(layers: seq<seq<Header>>, k: nat)
    requires WellStacked(layers) && k < |layers| && MergesAt(layers, k)
    ensures MergesAt(layers, k + 1) <==> Extractable(Below(layers, k), layers[k])
  {
    var t := Below(layers, k);
    ShowsStack(MergeRun(EMPTY_FOLDER, layers[..k]).tree, Effects(layers)[..k]);
    ShowsStack(MergeRun(EMPTY_FOLDER, layers[..k + 1]).tree, Effects(layers)[..k + 1]);
    MergeSnoc(EMPTY_FOLDER, layers, k);
    BelowFolder(layers, k);
    BelowNext(layers, k);
    LayerAgreesIff(t, layers[k]);
  }

  lemma {:induction false} MergesUpTo(layers: seq<seq<Header>>, k: nat)
    requires WellStacked(layers) && k <= |layers|
    requires forall i | 0 <= i < k :: Extractable(Below(layers, i), layers[i])
    ensures MergesAt(layers, k)
  {
    if k == 0 {
      assert layers[..0] == [] && Effects(layers)[..0] == [];
    } else {
      MergesUpTo(layers, k - 1);
      MergesNext(layers, k - 1);
    }
  }

  /** `DockerMerge` preserves meaning: for a stack of well-formed layers, the merged folder
      shows the layered view at every height exactly when every layer is extractable over the
      view of those below it. */
  lemma MergeAgreesIff(layers: seq<seq<Header>>)
    requires WellStacked(layers)
    ensures (forall k | 0 <= k <= |layers| :: MergesAt(layers, k)) <==> Stackable(layers)
  {
    if forall k | 0 <= k <= |layers| :: MergesAt(layers, k) {
      forall i | 0 <= i < |layers| ensures Extractable(Below(layers, i), layers[i]) {
        assert MergesAt(layers, i) && MergesAt(layers, i + 1);
        MergesNext(layers, i);
      }
    }
    if Stackable(layers) {
      forall k | 0 <= k <= |layers| ensures MergesAt(layers, k) { MergesUpTo(layers, k); }
    }
  }

  /** Extracting such a stack bottom to top succeeds, and every path of the result is as in
      the layered view. */
  lemma MergeAgrees(layers: seq<seq<Header>>)
    requires Stackable(layers)
    ensures var r := MergeRun(EMPTY_FOLDER, layers);
            r.outcome == Ok && Folder(r.tree) && Shows(r.tree, Effects(layers))
  {
    MergesUpTo(layers, |layers|);
    assert layers[..|layers|] == layers && Effects(layers)[..|layers|] == Effects(layers);
    ShowsStack(MergeRun(EMPTY_FOLDER, layers).tree, Effects(layers));
    BelowFolder(layers, |layers|);
  }

  lemma {:induction false} MergeNamed(t: Tree, layers: seq<seq<Header>>)
    requires Named(t)
    ensures Named(MergeRun(t, layers).tree)
    decreases |layers|
  {
    if layers != [] {
      LayerRunNamed(t, layers[0]);
      MergeNamed(LayerRun(t, layers[0]).tree, layers[1..]);
    }
  }

  /** The image `DockerMerge` registers is the tarball of the merged folder: extracting
      it as a single layer shows the layered view of the original stack. */
  lemma MergedImageAgrees(layers: seq<seq<Header>>, order: seq<Path>)
    requires Stackable(layers) && WalkOrder(MergeRun(EMPTY_FOLDER, layers).tree, order)
    ensures var merged := MergeRun(EMPTY_FOLDER, layers).tree;
            var r := UntarRun(EMPTY_FOLDER, TarOf(merged, order));
            r.outcome == Ok && Shows(r.tree, Effects(layers))
  {
    MergeAgrees(layers);
    MergeNamed(EMPTY_FOLDER, layers);
    TarUntarRoundTrip(MergeRun(EMPTY_FOLDER, layers).tree, order);
  }
}
