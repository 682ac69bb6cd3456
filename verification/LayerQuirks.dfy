/** Where the extractor leaves the rules of module Changeset, entry by entry: kind changes, hard
    links, names that only look like whiteouts, opaque markers, and links named like whiteouts. */
module LayerQuirks {
  import opened Strings
  import opened FileTree
  import opened Archive
  import opened Changeset
  import opened LayerMerge

  lemma OneMore(t: Tree, e: Effect, h: Header, hs: seq<Header>)
    ensures LayerEffect(t, e, [h] + hs) == LayerEffect(t, Record(t, e, h), hs)
    ensures WellFormed(t, e, [h] + hs) <==> Fits(t, e, h) && WellFormed(t, Record(t, e, h), hs)
  {
    assert ([h] + hs)[1..] == hs;
  }

  lemma OneMoreRun(t: Tree, h: Header, hs: seq<Header>)
    requires LayerStep(t, h).outcome == Ok
    ensures LayerRun(t, [h] + hs) == LayerRun(LayerStep(t, h).tree, hs)
  {
    assert ([h] + hs)[1..] == hs;
  }

  lemma OneEntry(t: Tree, h: Header)
    ensures LayerEffect(t, NOTHING, [h]) == Record(t, NOTHING, h)
    ensures WellFormed(t, NOTHING, [h]) <==> Fits(t, NOTHING, h)
    ensures LayerRun(t, [h]) == LayerStep(t, h)
  {
    assert [h][1..] == [];
    assert LayerEffect(t, NOTHING, [h]) == LayerEffect(t, Record(t, NOTHING, h), []);
    assert WellFormed(t, NOTHING, [h]) <==> Fits(t, NOTHING, h) && WellFormed(t, Record(t, NOTHING, h), []);
  }

  const F: Path := ["f"]

  function Holds(n: Node): Tree {
    EMPTY_FOLDER[F := n]
  }

  lemma FileEntry(data: Bytes)
    ensures var h := Header(TypeReg, Render(F), "", data);
            && Fits(EMPTY_FOLDER, NOTHING, h) && LayerStep(EMPTY_FOLDER, h) == Step(Holds(File(data)), Ok)
            && Overlay(EMPTY_FOLDER, Record(EMPTY_FOLDER, NOTHING, h)) == Holds(File(data))
  {
    CleanRender(F);
    assert Parent(F) == ROOT && Overlay(EMPTY_FOLDER, NOTHING) == EMPTY_FOLDER;
    WayBeside(EMPTY_FOLDER, F);
  }

  lemma LinkEntry(data: Bytes)
    ensures var h, t := Header(TypeSymlink, Render(F), "g", []), Holds(File(data));
            && Fits(t, NOTHING, h) && LayerStep(t, h) == Step(t, Ok)
            && Overlay(t, Record(t, NOTHING, h)) == Holds(Link("g"))
  {
    CleanRender(F);
    assert Parent(F) == ROOT && Overlay(Holds(File(data)), NOTHING) == Holds(File(data));
    WayBeside(Holds(File(data)), F);
  }

  const WH_F: Path := [".wh.f"]

  lemma WhiteoutEntry(n: Node)
    ensures var h, t := Header(TypeReg, Render(WH_F), "", []), Holds(n);
            && Fits(t, NOTHING, h) && LayerStep(t, h) == Step(EMPTY_FOLDER, Ok)
            && Overlay(t, Record(t, NOTHING, h)) == EMPTY_FOLDER
  {
    var h, t := Header(TypeReg, Render(WH_F), "", []), Holds(n);
    CleanRender(WH_F);
    assert Reserved(WH_F) && Sibling(WH_F) == F && WH_F[0] != OPAQUE;
    assert Overlay(t, NOTHING) == t && HasFolder(t, WH_F);
    assert LayerStep(t, h) == Step(Without(t, F), Ok) by { WhiteoutStep(t, h, WH_F); }
    assert Without(t, F) == EMPTY_FOLDER;
    assert Record(t, NOTHING, h) == NOTHING.(hid := NOTHING.hid + {F});
    WithoutHides(t, NOTHING, F);
  }

  /** Turning a file into a symbolic link without a whiteout, which the OCI format
      allows, leaves the file in place. */
  lemma KindChangeExample(data: Bytes)
    ensures var t, hs := Holds(File(data)), [Header(TypeSymlink, Render(F), "g", [])];
            && WellFormed(t, NOTHING, hs)
            && LayerRun(t, hs) == Step(t, Ok)
            && Overlay(t, LayerEffect(t, NOTHING, hs)) == Holds(Link("g"))
  {
    LinkEntry(data);
    OneEntry(Holds(File(data)), Header(TypeSymlink, Render(F), "g", []));
  }

  const G: Path := ["g"]

  lemma CleanName(name: string)
    requires LegalName(name)
    ensures Clean(name) == Some([name])
  {
    CleanRender([name]);
    SplitCons("", name, '/');
    assert Join([name], '/') == name && "" + ['/'] + name == Render([name]);
    assert ([""] + Split(name, '/'))[1..] == Split(name, '/');
  }

  lemma HardEntry(data: Bytes)
    ensures var h, e := Header(TypeLink, Render(G), "f", []), NOTHING.(up := map[F := File(data)]);
            && Fits(EMPTY_FOLDER, e, h) && Clean(h.name) == Some(G)
            && Record(EMPTY_FOLDER, e, h) == e.(up := e.up[G := File(data)], hard := map[G := "f"])
            && LayerStep(Holds(File(data)), h) == Step(Holds(File(data))[G := Link("f")], Ok)
  {
    CleanRender(G);
    CleanName("f");
    assert Parent(G) == ROOT;
    WayBeside(Holds(File(data)), G);
  }

  /** The extractor makes a hard link a symbolic one with the name its target has in the
      archive: the second name of a file is not that file. */
  lemma HardLinkExample(data: Bytes)
    ensures var hs := [Header(TypeReg, Render(F), "", data)] + [Header(TypeLink, Render(G), "f", [])];
            && WellFormed(EMPTY_FOLDER, NOTHING, hs)
            && LayerRun(EMPTY_FOLDER, hs) == Step(Holds(File(data))[G := Link("f")], Ok)
            && Overlay(EMPTY_FOLDER, LayerEffect(EMPTY_FOLDER, NOTHING, hs)) == Holds(File(data))[G := File(data)]
  {
    var file, link := Header(TypeReg, Render(F), "", data), Header(TypeLink, Render(G), "f", []);
    var e := NOTHING.(up := map[F := File(data)]);
    FileEntry(data);
    CleanRender(F);
    assert Record(EMPTY_FOLDER, NOTHING, file) == e;
    HardEntry(data);
    OneMore(EMPTY_FOLDER, NOTHING, file, [link]);
    OneMore(EMPTY_FOLDER, e, link, []);
    OneMoreRun(EMPTY_FOLDER, file, [link]);
    OneMoreRun(Holds(File(data)), link, []);
    HardShown(data, e.(up := e.up[G := File(data)], hard := map[G := "f"]));
  }

  lemma HardShown(data: Bytes, e: Effect)
    requires e.up == map[F := File(data)][G := File(data)] && e.hid == {} && e.opq == {}
    ensures Overlay(EMPTY_FOLDER, e) == Holds(File(data))[G := File(data)]
  {
    assert !Hidden(e, ROOT);
  }

  /** Before layer `k` the view is `t`, and the merge has come to `run`. */
  ghost predicate At(layers: seq<seq<Header>>, k: nat, t: Tree, run: Tree) {
    k <= |layers| && Below(layers, k) == t && MergeRun(EMPTY_FOLDER, layers[..k]) == Step(run, Ok)
  }

  lemma AtBottom(layers: seq<seq<Header>>)
    ensures At(layers, 0, EMPTY_FOLDER, EMPTY_FOLDER)
  {
    assert layers[..0] == [] && Effects(layers)[..0] == [];
  }

  /** One more layer of one entry on a stack. */
  lemma EntryNext(layers: seq<seq<Header>>, k: nat, h: Header, t: Tree, run: Tree, t': Tree, run': Tree)
    requires k < |layers| && layers[k] == [h] && At(layers, k, t, run) && Fits(t, NOTHING, h)
    requires Overlay(t, Record(t, NOTHING, h)) == t' && LayerStep(run, h) == Step(run', Ok)
    ensures WellFormed(Below(layers, k), NOTHING, layers[k]) && At(layers, k + 1, t', run')
  {
    OneEntry(t, h);
    OneEntry(run, h);
    BelowNext(layers, k);
    MergeSnoc(EMPTY_FOLDER, layers, k);
  }

  lemma MergesWhenSame(layers: seq<seq<Header>>, k: nat, t: Tree, run: Tree)
    requires At(layers, k, t, run)
    ensures MergesAt(layers, k) <==> t == run
  {
    ShowsStack(run, Effects(layers)[..k]);
  }

  ghost predicate FitsAt(layers: seq<seq<Header>>, k: nat) {
    k < |layers| && WellFormed(Below(layers, k), NOTHING, layers[k])
  }

  lemma FileNext(layers: seq<seq<Header>>, data: Bytes)
    requires |layers| > 0 && layers[0] == [Header(TypeReg, Render(F), "", data)]
    ensures FitsAt(layers, 0) && At(layers, 1, Holds(File(data)), Holds(File(data)))
  {
    AtBottom(layers);
    FileEntry(data);
    EntryNext(layers, 0, layers[0][0], EMPTY_FOLDER, EMPTY_FOLDER, Holds(File(data)), Holds(File(data)));
  }

  lemma LinkNext(layers: seq<seq<Header>>, data: Bytes)
    requires |layers| > 1 && layers[1] == [Header(TypeSymlink, Render(F), "g", [])]
    requires At(layers, 1, Holds(File(data)), Holds(File(data)))
    ensures FitsAt(layers, 1) && At(layers, 2, Holds(Link("g")), Holds(File(data)))
  {
    LinkEntry(data);
    EntryNext(layers, 1, layers[1][0], Holds(File(data)), Holds(File(data)), Holds(Link("g")), Holds(File(data)));
  }

  lemma WhiteoutNext(layers: seq<seq<Header>>, view: Node, run: Node)
    requires |layers| > 2 && layers[2] == [Header(TypeReg, Render(WH_F), "", [])]
    requires At(layers, 2, Holds(view), Holds(run))
    ensures FitsAt(layers, 2) && At(layers, 3, EMPTY_FOLDER, EMPTY_FOLDER)
  {
    WhiteoutEntry(view);
    WhiteoutEntry(run);
    EntryNext(layers, 2, layers[2][0], Holds(view), Holds(run), EMPTY_FOLDER, EMPTY_FOLDER);
  }

  /** The whole stack may merge to its view though a part of it does not: the file a second
      layer could not turn into a link is hidden by the third. */
  lemma HealedExample(data: Bytes)
    ensures var layers := [[Header(TypeReg, Render(F), "", data)], [Header(TypeSymlink, Render(F), "g", [])],
                           [Header(TypeReg, Render(WH_F), "", [])]];
            WellStacked(layers) && MergesAt(layers, 3) && !MergesAt(layers, 2)
  {
    var layers := [[Header(TypeReg, Render(F), "", data)], [Header(TypeSymlink, Render(F), "g", [])],
                   [Header(TypeReg, Render(WH_F), "", [])]];
    FileNext(layers, data);
    LinkNext(layers, data);
    WhiteoutNext(layers, Link("g"), File(data));
    MergesWhenSame(layers, 2, Holds(Link("g")), Holds(File(data)));
    MergesWhenSame(layers, 3, EMPTY_FOLDER, EMPTY_FOLDER);
    assert Holds(File(data))[F] != Holds(Link("g"))[F];
  }

  /** Any name that does not start with ".wh" is extracted: a file as its body, a link of
      either kind as a symbolic link where nothing is. */
  lemma PlainIsMade(t: Tree, h: Header, p: Path)
    requires Closed(t) && Clean(h.name) == Some(p) && p != [] && !(".wh" <= p[|p| - 1])
    requires Parent(p) in t && t[Parent(p)].Dir?
    ensures h.kind == TypeReg && (p in t ==> t[p].File?) ==> LayerStep(t, h) == Step(t[p := File(h.body)], Ok)
    ensures h.kind in {TypeSymlink, TypeLink} && h.link != "" && p !in t ==> LayerStep(t, h) == Step(t[p := Link(h.link)], Ok)
  {
    WayBeside(t, p);
  }

  /** A regular file named ".wh." and another name deletes that name beside it, and itself. */
  lemma WhiteoutDeletes(t: Tree, h: Header, dir: Path, name: string)
    requires Closed(t) && dir in t && t[dir].Dir? && LegalName(name)
    requires h.kind == TypeReg && Clean(h.name) == Some(dir + [".wh." + name])
    ensures LayerStep(t, h).outcome == Ok
    ensures forall q ::
              Look(LayerStep(t, h).tree, q) == (if dir + [name] <= q || dir + [".wh." + name] <= q then None else Look(t, q))
  {
    var p, r := dir + [".wh." + name], dir + [name];
    assert Parent(p) == dir && Parent(r) == dir && Reserved(p) && Sibling(p) == r;
    WhiteoutRemoves(h, p);
    WayBeside(t, r);
    WithoutKeeps(t, r);
    assert dir in Without(t, r) by { assert |r| > |dir|; }
    WayBeside(Without(t, r), p);
    RemoveBoth(t, r, p);
  }

  /** The test is ".wh", not ".wh.": a regular file called ".whx" is never extracted,
      and deletes what was there. */
  lemma BareMarkIsLost(t: Tree, h: Header, p: Path)
    requires h.kind == TypeReg && Clean(h.name) == Some(p)
    requires p != [] && ".wh" <= p[|p| - 1] && !(".wh." <= p[|p| - 1])
    ensures LayerStep(t, h).outcome == Ok ==> LayerStep(t, h).tree == Without(t, p)
    ensures Closed(t) && Parent(p) in t && t[Parent(p)].Dir? ==> LayerStep(t, h).outcome == Ok
  {
    assert Parent(p) + [p[|p| - 1]] == p;
    assert Removals(h, p) == Some([p] + [p]) by { assert p[|p| - 1] != "." && p[|p| - 1] != ".."; }
    assert Without(Without(t, p), p) == Without(t, p);
    if LayerStep(t, h).outcome == Ok { RemoveTwo(t, p, p); }
    if Closed(t) && Parent(p) in t && t[Parent(p)].Dir? {
      WayBeside(t, p);
      WithoutKeeps(t, p);
      assert Parent(p) in Without(t, p) by { assert |p| > |Parent(p)|; }
      WayBeside(Without(t, p), p);
      RemoveBoth(t, p, p);
    }
  }

  /** A file called just ".wh." deletes the directory it stands in; one called ".wh.." only
      itself. */
  lemma EmptyMarkDeletes(t: Tree, h: Header, dir: Path)
    requires h.kind == TypeReg && LayerStep(t, h).outcome == Ok
    ensures Clean(h.name) == Some(dir + [".wh."]) ==>
              forall q :: Look(LayerStep(t, h).tree, q) == if dir <= q then None else Look(t, q)
    ensures Clean(h.name) == Some(dir + [".wh.."]) ==>
              forall q :: Look(LayerStep(t, h).tree, q) == if dir + [".wh.."] <= q then None else Look(t, q)
  {
    if Clean(h.name) == Some(dir + [".wh."]) {
      var p := dir + [".wh."];
      assert Parent(p) == dir && TrimPrefix(".wh.", ".wh.") == "";
      assert Removals(h, p) == Some([dir] + [p]);
      RemoveTwo(t, dir, p);
      forall q ensures Look(LayerStep(t, h).tree, q) == if dir <= q then None else Look(t, q) {
        assert p <= q ==> dir <= q;
      }
    }
    if Clean(h.name) == Some(dir + [".wh.."]) {
      var p := dir + [".wh.."];
      assert TrimPrefix(".wh..", ".wh.") == ".";
      assert Removals(h, p) == Some([] + [p]);
      assert ([] + [p])[1..] == [];
      assert RemoveEach(t, [] + [p]) == RemoveEach(Without(t, p), []);
    }
  }

  /** The opaque marker hides no sibling: it only deletes a path ".wh..opq" beside it. */
  lemma OpaqueIsIgnored(t: Tree, h: Header, dir: Path)
    requires h.kind == TypeReg && Clean(h.name) == Some(dir + [OPAQUE])
    requires LayerStep(t, h).outcome == Ok
    ensures LayerStep(t, h).tree
         == Without(Without(t, dir + [".wh..opq"]), dir + [OPAQUE])
  {
    var p := dir + [OPAQUE];
    assert Parent(p) == dir && TrimPrefix(OPAQUE, MARK_DOT) == ".wh..opq";
    assert Removals(h, p) == Some([dir + [".wh..opq"]] + [p]);
    RemoveTwo(t, dir + [".wh..opq"], p);
  }

  lemma WithoutSame(t: Tree, a: Path, b: Path)
    requires Closed(t)
    ensures Without(t, a) == Without(t, b) <==> a == b || (a !in t && b !in t)
  {
    forall q | q in t ensures (a !in t ==> !(a <= q)) && (b !in t ==> !(b <= q)) {
      if a !in t { NothingBelow(t, a, q); }
      if b !in t { NothingBelow(t, b, q); }
    }
    if Without(t, a) == Without(t, b) && a != b {
      assert a !in Without(t, a) && b !in Without(t, b);
      assert a in t ==> b <= a;
      assert b in t ==> a <= b;
      assert a <= b && b <= a ==> a == b;
    }
  }

  lemma NothingReserved(t: Tree, p: Path)
    requires Closed(t) && Unreserved(t) && Reserved(p)
    ensures Without(t, p) == t
  {
    forall q | q in t ensures !(p <= q) { NothingBelow(t, p, q); }
  }

  /** A link that carries a whiteout's name (the format knows only regular files) removes
      what its target marks, not its own sibling: it does what its name says exactly when the
      two are the same path, or neither is there. */
  lemma LinkMarkIff(t: Tree, h: Header, p: Path, l: Path)
    requires Folder(t) && Unreserved(t) && h.kind in {TypeSymlink, TypeLink}
    requires Clean(h.name) == Some(p) && Reserved(p) && Clean(h.link) == Some(l)
    requires IsMarker(l) ==> Reserved(l) && LegalName(l[|l| - 1][|WHITEOUT|..])
    requires LayerStep(t, h).outcome == Ok
    ensures LayerStep(t, h).tree == Without(t, Sibling(p)) <==>
            if IsMarker(l) then Sibling(l) == Sibling(p) || (Sibling(l) !in t && Sibling(p) !in t)
            else Sibling(p) !in t
  {
    assert MARK <= MARK_DOT <= p[|p| - 1];
    if IsMarker(l) {
      LinkRemoves(t, h, p, l);
      WithoutSame(t, Sibling(l), Sibling(p));
    } else {
      assert Removals(h, p) == Some([p]) && [p][1..] == [];
      NothingReserved(t, p);
      assert RemoveEach(t, [p]) == RemoveEach(Without(t, p), []);
      WithoutSame(t, p, Sibling(p));
    }
  }

  lemma LinkRemoves(t: Tree, h: Header, p: Path, l: Path)
    requires Closed(t) && Unreserved(t) && h.kind in {TypeSymlink, TypeLink}
    requires Clean(h.name) == Some(p) && Reserved(p) && Clean(h.link) == Some(l)
    requires Reserved(l) && LegalName(l[|l| - 1][|WHITEOUT|..]) && LayerStep(t, h).outcome == Ok
    ensures LayerStep(t, h).tree == Without(t, Sibling(l))
  {
    assert MARK <= MARK_DOT <= l[|l| - 1] && MARK_DOT <= p[|p| - 1];
    var ps := [Sibling(l)] + [l, p];
    assert Removals(h, p) == Some(ps);
    var cut := Without(t, Sibling(l));
    assert ps[0] == Sibling(l) && ps[1..] == [l, p] && [l, p][1..] == [p] && [p][1..] == [];
    WithoutKeeps(t, Sibling(l));
    NothingReserved(cut, l);
    NothingReserved(cut, p);
    assert RemoveEach(t, ps) == RemoveEach(cut, [l, p]);
    assert RemoveEach(cut, [l, p]) == RemoveEach(cut, [p]);
    assert RemoveEach(cut, [p]) == RemoveEach(cut, []);
  }
}
