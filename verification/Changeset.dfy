/** What a layer tarball means, by the section "Whiteouts" of "Image Layer Filesystem
    Changeset" in the OCI Image Format Specification; a hard link entry is, as in any tar
    archive, one more name of the file its target names. Nothing here looks at how the
    extractors work: names and kinds of entries alone decide. */
module Changeset {
  import opened Strings
  import opened FileTree
  import opened Archive

  const WHITEOUT := ".wh."
  const OPAQUE := ".wh..wh..opq"

  /** The format reserves the prefix ".wh.": no file or directory of an image has it. */
  predicate Reserved(p: Path) {
    p != ROOT && WHITEOUT <= p[|p| - 1]
  }

  /** What the whiteout `p` hides: the sibling named after the prefix. */
  function Sibling(p: Path): Path
    requires Reserved(p)
  {
    Parent(p) + [p[|p| - 1][|WHITEOUT|..]]
  }

  ghost predicate Unreserved(t: Tree) {
    forall q | q in t :: !Reserved(q)
  }

  /** What a layer holds, the subtrees its whiteouts hide in the layers below, the directories
      whose lower contents its opaque markers hide, and what its hard links are written with. */
  datatype Effect = Effect(up: Tree, hid: set<Path>, opq: set<Path>, hard: map<Path, string>)

  const NOTHING := Effect(map[], {}, {}, map[])

  // ----- a layer over a tree -----

  ghost predicate Whited(hid: set<Path>, q: Path) {
    exists r | r in hid :: r <= q
  }

  ghost predicate Masked(opq: set<Path>, q: Path) {
    exists d | d in opq :: d < q
  }

  /** A file or link has nothing below it. */
  ghost predicate Covered(up: Tree, q: Path) {
    exists f | f in up :: f < q && !up[f].Dir?
  }

  /** The layer takes the lower `q` out of sight. */
  ghost predicate Hidden(e: Effect, q: Path) {
    Whited(e.hid, q) || Masked(e.opq, q) || Covered(e.up, q)
  }

  ghost function Overlay(t: Tree, e: Effect): Tree {
    t - (set q | q in t && Hidden(e, q)) + e.up
  }

  // ----- what the entries of a layer add -----

  /** One more entry of a layer over `t`. A directory may be listed again, a file again with
      another body; of a repeated symbolic link the first counts (`TarLayer` writes each twice).
      A hard link is one more name of the file or link that its target names. */
  ghost function Record(t: Tree, e: Effect, h: Header): Effect {
    match Clean(h.name)
    case None => e
    case Some(p) =>
      match h.kind
      case TypeOther => e
      case TypeDir => e.(up := e.up[p := Dir])
      case TypeReg =>
        if !Reserved(p) then e.(up := e.up[p := File(h.body)])
        else if p[|p| - 1] == OPAQUE then e.(opq := e.opq + {Parent(p)})
        else e.(hid := e.hid + {Sibling(p)})
      case TypeSymlink => if p in e.up then e else e.(up := e.up[p := Link(h.link)])
      case TypeLink =>
        match Target(t, e, h)
        case None => e
        case Some(n) => e.(up := e.up[p := n], hard := e.hard[p := h.link])
  }

  /** What the target of a hard link names in the layer so far, over `t`. */
  ghost function Target(t: Tree, e: Effect, h: Header): Option<Node> {
    match Clean(h.link)
    case None => None
    case Some(l) => Look(Overlay(t, e), l)
  }

  ghost function LayerEffect(t: Tree, e: Effect, hs: seq<Header>): Effect
    decreases |hs|
  {
    if hs == [] then e else LayerEffect(t, Record(t, e, hs[0]), hs[1..])
  }

  // ----- well-formed layers -----

  ghost predicate HasFolder(t: Tree, p: Path) {
    p != ROOT && Parent(p) in t && t[Parent(p)].Dir?
  }

  /** What the format guarantees of the next entry of a layer over `t`: its directory is
      there, in this layer or below it; it keeps the kind of a path it repeats; only regular
      files are whiteouts, and they come before the entries beside or below what they hide; a
      hard link names a file or link that is there, and its path is not repeated. */
  ghost predicate Fits(t: Tree, e: Effect, h: Header) {
    && Clean(h.name).Some?
    && var p := Clean(h.name).value;
       match h.kind
       case TypeOther => true
       case TypeDir =>
         (p == ROOT || HasFolder(Overlay(t, e), p)) && !Reserved(p) && (p in e.up ==> e.up[p].Dir?)
       case TypeReg =>
         && HasFolder(Overlay(t, e), p)
         && (if !Reserved(p) then Leaf(e, p) && (p in e.up ==> e.up[p].File?)
             else if p[|p| - 1] == OPAQUE then forall q | q in e.up :: !(Parent(p) < q)
             else LegalName(p[|p| - 1][|WHITEOUT|..]) && forall q | q in e.up :: !(Sibling(p) <= q))
       case TypeSymlink =>
         && HasFolder(Overlay(t, e), p) && !Reserved(p) && Leaf(e, p)
         && (p in e.up ==> e.up[p].Link?) && h.link != ""
       case TypeLink =>
         && HasFolder(Overlay(t, e), p) && !Reserved(p) && Leaf(e, p)
         && p !in e.up && Target(t, e, h).Some? && !Target(t, e, h).value.Dir?
  }

  /** The layer holds nothing below `p`, and `p` is no hard link of it. */
  ghost predicate Leaf(e: Effect, p: Path) {
    p !in e.hard && forall q | q in e.up :: !(p < q)
  }

  ghost predicate WellFormed(t: Tree, e: Effect, hs: seq<Header>)
    decreases |hs|
  {
    hs == [] || (Fits(t, e, hs[0]) && WellFormed(t, Record(t, e, hs[0]), hs[1..]))
  }

  // ----- a layer over a folder is a folder -----

  /** What is hidden is hidden with all that lies below it. */
  lemma HiddenBelow(e: Effect, above: Path, q: Path)
    requires above < q && Hidden(e, above)
    ensures Hidden(e, q)
  {
    if Whited(e.hid, above) {
      var r :| r in e.hid && r <= above;
      assert r <= q;
    } else if Masked(e.opq, above) {
      var d :| d in e.opq && d < above;
      assert d < q;
    } else {
      var f :| f in e.up && f < above && !e.up[f].Dir?;
      assert f < q;
    }
  }

  /** What stays in sight has its directory in sight. */
  lemma ParentShown(t: Tree, e: Effect, q: Path)
    requires Closed(t) && q in t && q != ROOT && q !in e.up && !Hidden(e, q)
    ensures Parent(q) in Overlay(t, e) && Overlay(t, e)[Parent(q)].Dir?
  {
    assert Parent(q) < q;
    if Hidden(e, Parent(q)) { HiddenBelow(e, Parent(q), q); }
  }

  /** Hiding more keeps a folder, as long as it hides nothing above what the layer holds. */
  lemma HideFolder(t: Tree, e: Effect, e': Effect)
    requires Folder(t) && Folder(Overlay(t, e)) && e'.up == e.up
    requires ROOT in e.up || !Hidden(e', ROOT)
    requires forall q | q in e.up && q != ROOT && Hidden(e', Parent(q)) :: Hidden(e, Parent(q))
    ensures Folder(Overlay(t, e'))
  {
    var over := Overlay(t, e');
    forall q | q in over && q != ROOT ensures Parent(q) in over && over[Parent(q)].Dir? {
      if q in e.up {
        assert q in Overlay(t, e) && Parent(q) in Overlay(t, e);
      } else {
        ParentShown(t, e', q);
      }
    }
  }

  lemma CoveredMore(up: Tree, p: Path, n: Node, above: Path, q: Path)
    requires above < q && !Covered(up, above) && (n.Dir? || !(p < q))
    ensures !Covered(up[p := n], above)
  {
  }

  lemma PutFolder(t: Tree, e: Effect, p: Path, n: Node)
    requires Folder(t) && Folder(Overlay(t, e)) && (if p == ROOT then n.Dir? else HasFolder(Overlay(t, e), p))
    requires p in e.up ==> e.up[p].Dir? == n.Dir?
    requires n.Dir? || forall q | q in e.up :: !(p < q)
    ensures Folder(Overlay(t, e.(up := e.up[p := n])))
  {
    var e' := e.(up := e.up[p := n]);
    var over := Overlay(t, e');
    forall q | q in over && q != ROOT ensures Parent(q) in over && over[Parent(q)].Dir? {
      if q in e'.up {
        var above := Parent(q);
        assert above < q && q in Overlay(t, e) + map[p := n];
        assert above in Overlay(t, e) && Overlay(t, e)[above].Dir?;
        if above !in e'.up { CoveredMore(e.up, p, n, above, q); }
      } else {
        ParentShown(t, e', q);
      }
    }
  }

  lemma MaskedMore(e: Effect, d: Path, above: Path, q: Path)
    requires above < q && !(d < q)
    ensures Hidden(e.(opq := e.opq + {d}), above) <==> Hidden(e, above)
  {
  }

  lemma WhitedMore(e: Effect, r: Path, above: Path, q: Path)
    requires above < q && !(r <= q)
    ensures Hidden(e.(hid := e.hid + {r}), above) <==> Hidden(e, above)
  {
  }

  lemma WhiteoutFolder(t: Tree, e: Effect, h: Header, p: Path)
    requires Folder(t) && Folder(Overlay(t, e)) && Fits(t, e, h)
    requires h.kind == TypeReg && Clean(h.name) == Some(p) && Reserved(p)
    ensures Folder(Overlay(t, Record(t, e, h)))
  {
    var e' := Record(t, e, h);
    forall q | q in e.up && q != ROOT && Hidden(e', Parent(q)) ensures Hidden(e, Parent(q)) {
      assert Parent(q) < q;
      if p[|p| - 1] == OPAQUE { MaskedMore(e, Parent(p), Parent(q), q); } else { WhitedMore(e, Sibling(p), Parent(q), q); }
    }
    HideFolder(t, e, e');
  }

  /** What hard links are written with does not change what is seen. */
  lemma HardUnseen(t: Tree, e: Effect, hard: map<Path, string>)
    ensures Overlay(t, e.(hard := hard)) == Overlay(t, e)
  {
    var e' := e.(hard := hard);
    assert forall q :: Hidden(e', q) <==> Hidden(e, q);
  }

  lemma RecordFolder(t: Tree, e: Effect, h: Header)
    requires Folder(t) && Folder(Overlay(t, e)) && Fits(t, e, h)
    ensures Folder(Overlay(t, Record(t, e, h)))
  {
    var p := Clean(h.name).value;
    match h.kind
    case TypeDir => PutFolder(t, e, p, Dir);
    case TypeReg => if Reserved(p) { WhiteoutFolder(t, e, h, p); } else { PutFolder(t, e, p, File(h.body)); }
    case TypeSymlink => PutFolder(t, e, p, Link(h.link));
    case TypeLink =>
      var n := Target(t, e, h).value;
      PutFolder(t, e, p, n);
      HardUnseen(t, e.(up := e.up[p := n]), e.hard[p := h.link]);
    case TypeOther =>
  }

  lemma RecordUnreserved(t: Tree, e: Effect, h: Header)
    requires Unreserved(e.up) && Fits(t, e, h)
    ensures Unreserved(Record(t, e, h).up)
  {
  }

  /** What later entries do not disturb. */
  lemma RecordGrows(t: Tree, e: Effect, h: Header)
    requires Fits(t, e, h)
    ensures var e' := Record(t, e, h);
            forall q | q in e.up ::
              && q in e'.up && (if e.up[q].File? then e'.up[q].File? else e'.up[q] == e.up[q])
              && (Whited(e'.hid, q) <==> Whited(e.hid, q))
              && (q in e'.hard <==> q in e.hard)
              && (q in e.hard ==> q in e'.hard && e'.hard[q] == e.hard[q] && e'.up[q] == e.up[q])
  {
  }

  lemma {:induction false} EffectGrows(t: Tree, e: Effect, hs: seq<Header>)
    requires WellFormed(t, e, hs)
    ensures var e' := LayerEffect(t, e, hs);
            forall q | q in e.up ::
              && q in e'.up && (if e.up[q].File? then e'.up[q].File? else e'.up[q] == e.up[q])
              && (Whited(e'.hid, q) <==> Whited(e.hid, q))
              && (q in e'.hard <==> q in e.hard)
              && (q in e.hard ==> q in e'.hard && e'.hard[q] == e.hard[q] && e'.up[q] == e.up[q])
    decreases |hs|
  {
    if hs != [] {
      RecordGrows(t, e, hs[0]);
      EffectGrows(t, Record(t, e, hs[0]), hs[1..]);
    }
  }

  lemma {:induction false} EffectFolder(t: Tree, e: Effect, hs: seq<Header>)
    requires Folder(t) && Folder(Overlay(t, e)) && Unreserved(e.up) && WellFormed(t, e, hs)
    ensures Folder(Overlay(t, LayerEffect(t, e, hs))) && Unreserved(LayerEffect(t, e, hs).up)
    decreases |hs|
  {
    if hs != [] {
      RecordFolder(t, e, hs[0]);
      RecordUnreserved(t, e, hs[0]);
      EffectFolder(t, Record(t, e, hs[0]), hs[1..]);
    }
  }

  /** A layer that is well formed over an empty folder is so over any folder, and means the
      same there. */
  lemma {:induction false} WellFormedAnywhere(t: Tree, e: Effect, hs: seq<Header>)
    requires Folder(t) && Folder(Overlay(t, e)) && Folder(Overlay(EMPTY_FOLDER, e))
    requires WellFormed(EMPTY_FOLDER, e, hs)
    ensures WellFormed(t, e, hs) && LayerEffect(t, e, hs) == LayerEffect(EMPTY_FOLDER, e, hs)
    decreases |hs|
  {
    if hs != [] {
      FitsAnywhere(t, e, hs[0]);
      RecordFolder(t, e, hs[0]);
      RecordFolder(EMPTY_FOLDER, e, hs[0]);
      WellFormedAnywhere(t, Record(t, e, hs[0]), hs[1..]);
    }
  }

  lemma FitsAnywhere(t: Tree, e: Effect, h: Header)
    requires Folder(t) && Folder(Overlay(t, e)) && Fits(EMPTY_FOLDER, e, h)
    ensures Fits(t, e, h) && Record(t, e, h) == Record(EMPTY_FOLDER, e, h)
  {
    var p := Clean(h.name).value;
    if p != ROOT && HasFolder(Overlay(EMPTY_FOLDER, e), p) {
      assert Parent(p) == ROOT || Parent(p) in e.up;
      assert HasFolder(Overlay(t, e), p);
    }
    if h.kind == TypeLink {
      var l := Clean(h.link).value;
      assert l in e.up || l == ROOT;
      assert EMPTY_FOLDER[ROOT].Dir?;
    }
  }

  // ----- the layered view of a stack -----

  /** The view of a path, `es` bottom first: the topmost layer that holds or hides it decides. */
  ghost function View(es: seq<Effect>, q: Path): Option<Node>
    decreases |es|
  {
    if es == [] then Look(EMPTY_FOLDER, q)
    else
      var top := es[|es| - 1];
      if q in top.up then Some(top.up[q])
      else if Hidden(top, q) then None
      else View(es[..|es| - 1], q)
  }

  ghost predicate Decides(e: Effect, q: Path) {
    q in e.up || Hidden(e, q)
  }

  /** The view of a path is what the topmost deciding layer holds there. */
  lemma {:induction false} ViewIsTopmost(es: seq<Effect>, q: Path, k: nat)
    requires k < |es| && Decides(es[k], q)
    requires forall j | k < j < |es| :: !Decides(es[j], q)
    ensures View(es, q) == Look(es[k].up, q)
    decreases |es|
  {
    var n := |es| - 1;
    if k < n {
      assert !Decides(es[n], q);
      ViewIsTopmost(es[..n], q, k);
    }
  }

  lemma {:induction false} ViewUndecided(es: seq<Effect>, q: Path)
    requires forall j | 0 <= j < |es| :: !Decides(es[j], q)
    ensures View(es, q) == Look(EMPTY_FOLDER, q)
    decreases |es|
  {
    if es != [] {
      var n := |es| - 1;
      assert !Decides(es[n], q);
      ViewUndecided(es[..n], q);
    }
  }

  /** The view as a folder: each layer over those below it. */
  ghost function Stack(es: seq<Effect>): Tree
    decreases |es|
  {
    if es == [] then EMPTY_FOLDER else Overlay(Stack(es[..|es| - 1]), es[|es| - 1])
  }

  lemma {:induction false} StackShows(es: seq<Effect>, q: Path)
    ensures Look(Stack(es), q) == View(es, q)
    decreases |es|
  {
    if es != [] { StackShows(es[..|es| - 1], q); }
  }

  ghost predicate Shows(t: Tree, es: seq<Effect>) {
    forall q :: Look(t, q) == View(es, q)
  }

  /** A tree shows the view exactly when it is the stack. */
  lemma ShowsStack(t: Tree, es: seq<Effect>)
    ensures Shows(t, es) <==> t == Stack(es)
  {
    forall q ensures Look(Stack(es), q) == View(es, q) { StackShows(es, q); }
    if Shows(t, es) {
      forall q ensures Look(t, q) == Look(Stack(es), q) { assert Look(t, q) == View(es, q); }
      SameLook(t, Stack(es));
    }
  }

  lemma SameLook(a: Tree, b: Tree)
    requires forall q :: Look(a, q) == Look(b, q)
    ensures a == b
  {
    forall q ensures q in a <==> q in b { assert Look(a, q) == Look(b, q); }
    forall q | q in a ensures a[q] == b[q] { assert Look(a, q) == Look(b, q); }
  }

  ghost function Effects(layers: seq<seq<Header>>): (es: seq<Effect>)
    ensures |es| == |layers|
    decreases |layers|
  {
    if layers == [] then []
    else
      var n := |layers| - 1;
      var below := Effects(layers[..n]);
      below + [LayerEffect(Stack(below), NOTHING, layers[n])]
  }

  lemma {:induction false} EffectsPrefix(layers: seq<seq<Header>>, i: nat)
    requires i <= |layers|
    ensures Effects(layers)[..i] == Effects(layers[..i])
    decreases |layers|
  {
    var n := |layers| - 1;
    if i == |layers| {
      assert layers[..i] == layers;
    } else {
      EffectsPrefix(layers[..n], i);
      assert layers[..n][..i] == layers[..i];
      assert Effects(layers)[..i] == Effects(layers[..n])[..i];
    }
  }

  lemma EffectAt(layers: seq<seq<Header>>, i: nat)
    requires i < |layers|
    ensures Effects(layers)[i] == LayerEffect(Below(layers, i), NOTHING, layers[i])
  {
    EffectsPrefix(layers, i + 1);
    EffectsPrefix(layers, i);
    assert layers[..i + 1][..i] == layers[..i];
    assert Effects(layers)[i] == Effects(layers)[..i + 1][i];
  }

  /** The stack below layer `i`. */
  ghost function Below(layers: seq<seq<Header>>, i: nat): Tree
    requires i <= |layers|
  {
    Stack(Effects(layers)[..i])
  }

  ghost predicate WellStacked(layers: seq<seq<Header>>) {
    forall i | 0 <= i < |layers| :: WellFormed(Below(layers, i), NOTHING, layers[i])
  }

  lemma BelowNext(layers: seq<seq<Header>>, i: nat)
    requires i < |layers|
    ensures Below(layers, i + 1) == Overlay(Below(layers, i), LayerEffect(Below(layers, i), NOTHING, layers[i]))
  {
    var es := Effects(layers);
    EffectAt(layers, i);
    assert es[..i + 1][..i] == es[..i];
  }

  lemma OverlayKeeps(t: Tree, hs: seq<Header>)
    requires Folder(t) && Unreserved(t) && WellFormed(t, NOTHING, hs)
    ensures var over := Overlay(t, LayerEffect(t, NOTHING, hs));
            Folder(over) && Unreserved(over)
  {
    assert Overlay(t, NOTHING) == t;
    EffectFolder(t, NOTHING, hs);
  }

  lemma {:induction false} BelowFolder(layers: seq<seq<Header>>, i: nat)
    requires i <= |layers| && WellStacked(layers)
    ensures Folder(Below(layers, i)) && Unreserved(Below(layers, i))
  {
    if i > 0 {
      BelowFolder(layers, i - 1);
      BelowNext(layers, i - 1);
      OverlayKeeps(Below(layers, i - 1), layers[i - 1]);
    } else {
      assert Effects(layers)[..0] == [];
    }
  }
}
