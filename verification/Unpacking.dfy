/** What `Untar` makes of one layer in a folder of its own, as `DockerDownload` keeps them:
    when it succeeds, which paths it leaves, and what they hold. */
module Unpacking {
  import opened Strings
  import opened FileTree
  import opened Archive
  import opened TarRoundTrip
  import opened Changeset
  import opened LayerMerge

  // ----- when a layer unpacks alone -----

  ghost predicate NoCopies(hs: seq<Header>) {
    forall i | 0 <= i < |hs| :: !Copies(hs[i])
  }

  /** A directory entry at or below the directory of `p`. */
  predicate Opens(h: Header, p: Path)
    requires p != ROOT
  {
    h.kind == TypeDir && Clean(h.name).Some? && Parent(p) <= Clean(h.name).value
  }

  ghost predicate Opened(hs: seq<Header>, i: nat, p: Path)
    requires i <= |hs| && p != ROOT
  {
    exists j :: 0 <= j < i && Opens(hs[j], p)
  }

  /** The layer lists the directory `q`, or one below it. */
  ghost predicate Leads(e: Effect, q: Path) {
    q == ROOT || exists d | d in e.up :: e.up[d].Dir? && q <= d
  }

  /** What unpacking has made so far: directories that lead to a listed one, whiteouts as plain
      files, and the layer's own files and links, a hard link as a symbolic one. */
  ghost predicate Within(cur: Tree, e: Effect) {
    Folder(cur) && forall q | q in cur :: Owned(cur[q], e, q)
  }

  ghost predicate Owned(n: Node, e: Effect, q: Path) {
    if n.Dir? then Leads(e, q)
    else if Reserved(q) then n.File?
    else q in e.up && !e.up[q].Dir? && (n.File? <==> e.up[q].File? && q !in e.hard)
  }

  ghost predicate Sound(t: Tree, e: Effect) {
    Folder(Overlay(t, e)) && Unreserved(Overlay(t, e)) && Unreserved(e.up)
  }

  lemma AboveIsDir(cur: Tree, t: Tree, e: Effect, p: Path, a: Path)
    requires Within(cur, e) && Sound(t, e) && HasFolder(Overlay(t, e), p) && a in cur && a < p
    ensures cur[a].Dir?
  {
    OnTheWay(Overlay(t, e), p, a);
    assert Owned(cur[a], e, a);
  }

  lemma {:induction false} WayOpen(cur: Tree, p: Path)
    requires Folder(cur) && p != ROOT && forall a | a in cur && a < p :: cur[a].Dir?
    ensures WayTo(cur, p) == if HasFolder(cur, p) then Clear else Missing
    decreases |p|
  {
    var above := Parent(p);
    assert above < p;
    if HasFolder(cur, p) {
      WayBeside(cur, p);
    } else if above != ROOT {
      assert forall a | a in cur && a < above :: a < p;
      WayOpen(cur, above);
    }
  }

  /** A file is refused over a directory, and where its directory is a file or is not there; a
      link is then dropped without an error. Either way the tree stays as it was. */
  lemma BadPlace(t: Tree, h: Header, p: Path)
    requires Folder(t) && Clean(h.name) == Some(p) && p != [] && !(".wh" <= p[|p| - 1])
    requires h.kind in {TypeReg, TypeSymlink}
    requires || (p in t && t[p].Dir?) || (Parent(p) in t && t[Parent(p)].File?)
             || (Parent(p) !in t && forall a | a in t && a < p :: t[a].Dir?)
    ensures h.kind == TypeReg ==> LayerStep(t, h).outcome.Error? && UntarStep(t, h).outcome.Error?
    ensures h.kind == TypeSymlink ==> LayerStep(t, h).outcome == Ok && UntarStep(t, h).outcome == Ok
    ensures LayerStep(t, h).tree == t && UntarStep(t, h).tree == t
  {
    if p in t {
      WayInside(t, p);
    } else if Parent(p) in t {
      WayBeside(t, p);
    } else {
      WayOpen(t, p);
    }
  }

  lemma Upwards(p: Path, q: Path)
    requires p != ROOT
    ensures q <= p <==> q == p || q <= Parent(p)
  {
    assert q <= p && |q| == |p| ==> q == p;
  }

  lemma {:induction false} MkdirAllOpen(cur: Tree, p: Path)
    requires Folder(cur) && forall a | a in cur && a <= p :: cur[a].Dir?
    ensures MkdirAll(cur, p).outcome == Ok && PutDir(cur, p) == MkdirAll(cur, p)
    ensures forall q | q <= p :: Look(MkdirAll(cur, p).tree, q) == Some(Dir)
    decreases |p|
  {
    var r := MkdirAll(cur, p);
    if p in cur {
      WayInside(cur, p);
      assert r == Step(cur, Ok);
      forall q | q <= p ensures Look(cur, q) == Some(Dir) { DirAbove(cur, p, q); }
    } else {
      WayOpen(cur, p);
      assert forall a | a in cur && a <= Parent(p) :: a <= p;
      MkdirAllOpen(cur, Parent(p));
      var above := MkdirAll(cur, Parent(p)).tree;
      assert r == Step(above[p := Dir], Ok);
      forall q | q <= p ensures Look(r.tree, q) == Some(Dir) {
        Upwards(p, q);
        assert q != p ==> Look(above, q) == Some(Dir);
      }
    }
  }

  lemma PutDirOpen(cur: Tree, p: Path)
    requires Folder(cur) && forall a | a in cur && a <= p :: cur[a].Dir?
    ensures PutDir(cur, p).outcome == Ok && Folder(PutDir(cur, p).tree)
    ensures forall q | q in cur :: Look(PutDir(cur, p).tree, q) == Look(cur, q)
    ensures forall q | q in PutDir(cur, p).tree :: q in cur || q <= p
    ensures forall q | q <= p :: Look(PutDir(cur, p).tree, q) == Some(Dir)
  {
    MkdirAllOpen(cur, p);
    MkdirAllKeeps(cur, p);
    MkdirAllAdds(cur, p);
  }

  lemma DirAbove(cur: Tree, p: Path, q: Path)
    requires Closed(cur) && p in cur && cur[p].Dir? && q <= p
    ensures q in cur && cur[q].Dir?
  {
    if q < p { AboveIn(cur, q, p); }
    assert !(q < p) ==> q == p;
  }

  /** The entry leaves `q`, given what is there before it. */
  ghost predicate Lands(cur: Tree, h: Header, q: Path) {
    && Clean(h.name).Some?
    && var p := Clean(h.name).value;
       match h.kind
       case TypeDir => q <= p
       case TypeOther => false
       case _ => q == p && HasFolder(cur, p)
  }

  /** What one entry does that does not fail. */
  ghost predicate Goes(cur: Tree, next: Tree, h: Header, e: Effect) {
    && Within(next, e)
    && (forall q | q != ROOT :: HasFolder(next, q) <==> HasFolder(cur, q) || Opens(h, q))
    && (forall q :: q in next <==> q in cur || Lands(cur, h, q))
  }

  /** What is owned stays so when the layer goes on. */
  lemma OwnedOn(n: Node, t: Tree, e: Effect, h: Header, q: Path)
    requires Fits(t, e, h) && Owned(n, e, q)
    ensures Owned(n, Record(t, e, h), q)
  {
    RecordGrows(t, e, h);
    if n.Dir? && q != ROOT {
      var d :| d in e.up && e.up[d].Dir? && q <= d;
      assert d in Record(t, e, h).up && Record(t, e, h).up[d].Dir?;
    }
  }

  /** Nothing stands where a directory of the layer is to be. */
  lemma DirFree(cur: Tree, t: Tree, e: Effect, h: Header, p: Path)
    requires Within(cur, e) && Sound(t, e) && Fits(t, e, h) && h.kind == TypeDir && Clean(h.name) == Some(p)
    ensures forall a | a in cur && a <= p :: cur[a].Dir?
  {
    forall a | a in cur && a <= p ensures cur[a].Dir? {
      if a < p { AboveIsDir(cur, t, e, p, a); } else { assert a == p && Owned(cur[a], e, a); }
    }
  }

  lemma DirWithin(cur: Tree, next: Tree, t: Tree, e: Effect, h: Header, p: Path)
    requires Within(cur, e) && Fits(t, e, h) && h.kind == TypeDir && Clean(h.name) == Some(p)
    requires forall q | q in cur :: Look(next, q) == Look(cur, q)
    requires forall q | q in next :: q in cur || q <= p
    requires forall q | q <= p :: Look(next, q) == Some(Dir)
    requires Folder(next)
    ensures Within(next, Record(t, e, h))
  {
    var e' := Record(t, e, h);
    forall q | q in next ensures Owned(next[q], e', q) {
      if q <= p {
        assert p in e'.up && e'.up[p].Dir? && Look(next, q) == Some(Dir);
      } else {
        assert Look(next, q) == Look(cur, q);
        OwnedOn(cur[q], t, e, h, q);
      }
    }
  }

  lemma DirGoes(cur: Tree, t: Tree, e: Effect, h: Header, p: Path)
    requires Within(cur, e) && Sound(t, e) && Fits(t, e, h) && h.kind == TypeDir && Clean(h.name) == Some(p)
    ensures UntarStep(cur, h).outcome == Ok && Goes(cur, UntarStep(cur, h).tree, h, Record(t, e, h))
  {
    var next := UntarStep(cur, h).tree;
    DirFree(cur, t, e, h, p);
    PutDirOpen(cur, p);
    DirWithin(cur, next, t, e, h, p);
    DirOpens(cur, next, p);
  }

  lemma DirOpens(cur: Tree, next: Tree, p: Path)
    requires forall q | q in cur :: Look(next, q) == Look(cur, q)
    requires forall q | q in next :: q in cur || q <= p
    requires forall q | q <= p :: Look(next, q) == Some(Dir)
    ensures forall q :: q in next <==> q in cur || q <= p
    ensures forall q | q != ROOT :: HasFolder(next, q) <==> HasFolder(cur, q) || Parent(q) <= p
  {
    forall q ensures q in next <==> q in cur || q <= p {
      assert q in cur ==> Look(next, q) == Look(cur, q);
      assert q <= p ==> Look(next, q) == Some(Dir);
    }
    forall q | q != ROOT ensures HasFolder(next, q) <==> HasFolder(cur, q) || Parent(q) <= p {
      var above := Parent(q);
      assert above in cur ==> Look(next, above) == Look(cur, above);
      assert above <= p ==> Look(next, above) == Some(Dir);
    }
  }

  lemma FolderOver(cur: Tree, p: Path, n: Node)
    requires Folder(cur) && HasFolder(cur, p) && !n.Dir? && (p in cur ==> !cur[p].Dir?)
    ensures Folder(cur[p := n])
    ensures forall q | q != ROOT :: HasFolder(cur[p := n], q) <==> HasFolder(cur, q)
  {
    var next := cur[p := n];
    forall q | q in next && q != ROOT ensures Parent(q) in next && next[Parent(q)].Dir? {
      assert q != p ==> q in cur;
    }
  }

  lemma PutGoes(cur: Tree, t: Tree, e: Effect, h: Header, p: Path, n: Node)
    requires Within(cur, e) && Fits(t, e, h) && h.kind !in {TypeDir, TypeOther} && Clean(h.name) == Some(p)
    requires HasFolder(cur, p) && !n.Dir? && (p in cur ==> !cur[p].Dir?) && Owned(n, Record(t, e, h), p)
    ensures Goes(cur, cur[p := n], h, Record(t, e, h))
  {
    var next, e' := cur[p := n], Record(t, e, h);
    FolderOver(cur, p, n);
    forall q | q in next ensures Owned(next[q], e', q) {
      if q != p { OwnedOn(cur[q], t, e, h, q); }
    }
  }

  /** An entry that changes nothing. */
  lemma IdleGoes(cur: Tree, t: Tree, e: Effect, h: Header)
    requires Within(cur, e) && Fits(t, e, h) && h.kind != TypeDir
    requires forall q | Lands(cur, h, q) :: q in cur
    ensures Goes(cur, cur, h, Record(t, e, h))
  {
    forall q | q in cur ensures Owned(cur[q], Record(t, e, h), q) { OwnedOn(cur[q], t, e, h, q); }
  }

  /** A file is never put over a directory or a link. */
  lemma FileFree(cur: Tree, t: Tree, e: Effect, h: Header, p: Path)
    requires Within(cur, e) && Sound(t, e) && Fits(t, e, h) && h.kind == TypeReg && Clean(h.name) == Some(p)
    requires p in cur
    ensures cur[p].File?
  {
    assert Owned(cur[p], e, p);
    if cur[p].Dir? { LeaderLeaf(t, e, p); }
  }

  /** The layer lists no directory at or below a path that it lists as something else. */
  lemma LeaderLeaf(t: Tree, e: Effect, p: Path)
    requires Sound(t, e) && HasFolder(Overlay(t, e), p) && Leads(e, p)
    ensures !Reserved(p) && (Leaf(e, p) ==> p in e.up && e.up[p].Dir?)
  {
    var d :| d in e.up && e.up[d].Dir? && p <= d;
    assert d in Overlay(t, e) && !Reserved(d);
    if p < d { AboveIn(Overlay(t, e), p, d); }
    assert !(p < d) ==> p == d;
  }

  lemma FileGoes(cur: Tree, t: Tree, e: Effect, h: Header, p: Path)
    requires Within(cur, e) && Sound(t, e) && Fits(t, e, h) && h.kind == TypeReg && Clean(h.name) == Some(p)
    ensures var r := UntarStep(cur, h);
            if HasFolder(cur, p) then r.outcome == Ok && Goes(cur, r.tree, h, Record(t, e, h))
            else r == Step(cur, Error(NoEntry))
  {
    forall a | a in cur && a < p ensures cur[a].Dir? { AboveIsDir(cur, t, e, p, a); }
    WayOpen(cur, p);
    if HasFolder(cur, p) {
      if p in cur { FileFree(cur, t, e, h, p); }
      var n := UntarStep(cur, h).tree[p];
      PutGoes(cur, t, e, h, p, n);
    }
  }

  lemma LinkGoes(cur: Tree, t: Tree, e: Effect, h: Header, p: Path)
    requires Within(cur, e) && Sound(t, e) && Fits(t, e, h) && h.kind in {TypeSymlink, TypeLink}
    requires Clean(h.name) == Some(p) && !Copies(h)
    ensures UntarStep(cur, h).outcome == Ok && Goes(cur, UntarStep(cur, h).tree, h, Record(t, e, h))
  {
    forall a | a in cur && a < p ensures cur[a].Dir? { AboveIsDir(cur, t, e, p, a); }
    WayOpen(cur, p);
    if h.kind == TypeLink { LinkNamed(t, e, h); }
    if HasFolder(cur, p) && p !in cur {
      PutGoes(cur, t, e, h, p, Link(h.link));
    } else {
      if p in cur { WayInside(cur, p); }
      IdleGoes(cur, t, e, h);
    }
  }

  lemma StepGoes(cur: Tree, t: Tree, e: Effect, h: Header)
    requires Within(cur, e) && Sound(t, e) && Fits(t, e, h) && !Copies(h)
    ensures var r := UntarStep(cur, h);
            if h.kind == TypeReg && !HasFolder(cur, Clean(h.name).value) then r == Step(cur, Error(NoEntry))
            else r.outcome == Ok && Goes(cur, r.tree, h, Record(t, e, h))
  {
    var p := Clean(h.name).value;
    match h.kind
    case TypeDir => DirGoes(cur, t, e, h, p);
    case TypeReg => FileGoes(cur, t, e, h, p);
    case TypeOther => IdleGoes(cur, t, e, h);
    case _ => LinkGoes(cur, t, e, h, p);
  }

  lemma SoundNext(t: Tree, e: Effect, h: Header)
    requires Folder(t) && Unreserved(t) && Sound(t, e) && Fits(t, e, h)
    ensures Sound(t, Record(t, e, h))
  {
    RecordFolder(t, e, h);
    RecordUnreserved(t, e, h);
    UnreservedOver(t, Record(t, e, h));
  }

  lemma OpenedNext(hs: seq<Header>, i: nat, p: Path)
    requires 0 < i <= |hs| && p != ROOT
    ensures Opened(hs, i, p) <==> Opens(hs[0], p) || Opened(hs[1..], i - 1, p)
  {
    if j :| 0 <= j < i && Opens(hs[j], p) && j > 0 { assert Opens(hs[1..][j - 1], p); }
    if j :| 0 <= j < i - 1 && Opens(hs[1..][j], p) { assert Opens(hs[j + 1], p); }
  }

  /** The directory of the `i`-th entry is there when its turn comes. */
  ghost predicate Ready(cur: Tree, hs: seq<Header>, i: nat)
    requires i < |hs|
  {
    && Clean(hs[i].name).Some? && Clean(hs[i].name) != Some(ROOT)
    && var p := Clean(hs[i].name).value;
       HasFolder(cur, p) || Opened(hs, i, p)
  }

  ghost predicate FilesReady(cur: Tree, hs: seq<Header>) {
    forall i | 0 <= i < |hs| && hs[i].kind == TypeReg :: Ready(cur, hs, i)
  }

  lemma ReadyNext(cur: Tree, next: Tree, hs: seq<Header>, e: Effect, i: nat)
    requires 0 < i < |hs| && Goes(cur, next, hs[0], e)
    ensures Ready(cur, hs, i) <==> Ready(next, hs[1..], i - 1)
  {
    if Clean(hs[i].name).Some? && Clean(hs[i].name) != Some(ROOT) { OpenedNext(hs, i, Clean(hs[i].name).value); }
  }

  lemma FilesNext(cur: Tree, next: Tree, hs: seq<Header>, e: Effect)
    requires hs != [] && Goes(cur, next, hs[0], e)
    ensures FilesReady(cur, hs) <==> (hs[0].kind == TypeReg ==> Ready(cur, hs, 0)) && FilesReady(next, hs[1..])
  {
    forall i | 0 < i < |hs| ensures Ready(cur, hs, i) <==> Ready(next, hs[1..], i - 1) {
      ReadyNext(cur, next, hs, e, i);
    }
    if FilesReady(cur, hs) {
      forall i | 0 <= i < |hs[1..]| && hs[1..][i].kind == TypeReg ensures Ready(next, hs[1..], i) {
        assert Ready(cur, hs, i + 1);
      }
    }
    if FilesReady(next, hs[1..]) {
      forall i | 0 < i < |hs| && hs[i].kind == TypeReg ensures Ready(cur, hs, i) {
        assert Ready(next, hs[1..], i - 1);
      }
    }
  }

  lemma {:induction false} UnpacksFrom(cur: Tree, t: Tree, e: Effect, hs: seq<Header>)
    requires Folder(t) && Unreserved(t) && Sound(t, e) && Within(cur, e)
    requires WellFormed(t, e, hs) && NoCopies(hs)
    ensures UntarRun(cur, hs).outcome == if FilesReady(cur, hs) then Ok else Error(NoEntry)
    decreases |hs|
  {
    if hs != [] {
      var h, next := hs[0], UntarStep(cur, hs[0]).tree;
      StepGoes(cur, t, e, h);
      if h.kind == TypeReg && !HasFolder(cur, Clean(h.name).value) {
        assert !Ready(cur, hs, 0);
      } else {
        FilesNext(cur, next, hs, Record(t, e, h));
        SoundNext(t, e, h);
        UnpacksFrom(next, t, Record(t, e, h), hs[1..]);
      }
    }
  }

  lemma Start(t: Tree)
    requires Folder(t) && Unreserved(t)
    ensures Sound(t, NOTHING) && Within(EMPTY_FOLDER, NOTHING)
  {
    assert Overlay(t, NOTHING) == t;
  }

  /** The directory of the `i`-th entry is the layer's root, or a directory entry before it is
      at or below that directory. */
  ghost predicate Listed(hs: seq<Header>, i: nat)
    requires i < |hs|
  {
    && Clean(hs[i].name).Some? && Clean(hs[i].name) != Some(ROOT)
    && (Parent(Clean(hs[i].name).value) == ROOT || Opened(hs, i, Clean(hs[i].name).value))
  }

  /** A layer that is well formed over some folder unpacks into a folder of its own exactly
      when the directory of each file in it, whiteouts included, is listed before the file, if
      only by listing a directory below; otherwise it stops at a file whose directory is not there. */
  lemma UnpacksIff(t: Tree, hs: seq<Header>)
    requires Folder(t) && Unreserved(t) && WellFormed(t, NOTHING, hs) && NoCopies(hs)
    ensures UntarRun(EMPTY_FOLDER, hs).outcome == Ok <==>
            forall i | 0 <= i < |hs| && hs[i].kind == TypeReg :: Listed(hs, i)
    ensures UntarRun(EMPTY_FOLDER, hs).outcome in {Ok, Error(NoEntry)}
  {
    Start(t);
    UnpacksFrom(EMPTY_FOLDER, t, NOTHING, hs);
    assert forall i | 0 <= i < |hs| :: Ready(EMPTY_FOLDER, hs, i) <==> Listed(hs, i);
  }

  // ----- which paths it leaves -----

  ghost predicate Left(cur: Tree, hs: seq<Header>, i: nat, q: Path)
    requires i < |hs|
  {
    && Clean(hs[i].name).Some?
    && var p := Clean(hs[i].name).value;
       match hs[i].kind
       case TypeDir => q <= p
       case TypeOther => false
       case _ => q == p && Ready(cur, hs, i)
  }

  lemma LeftNext(cur: Tree, next: Tree, hs: seq<Header>, e: Effect, q: Path)
    requires hs != [] && Goes(cur, next, hs[0], e)
    ensures (exists i :: 0 <= i < |hs| && Left(cur, hs, i, q)) <==>
            Lands(cur, hs[0], q) || exists i :: 0 <= i < |hs[1..]| && Left(next, hs[1..], i, q)
  {
    assert Left(cur, hs, 0, q) <==> Lands(cur, hs[0], q);
    if i :| 0 <= i < |hs| && Left(cur, hs, i, q) && i > 0 {
      ReadyNext(cur, next, hs, e, i);
      assert Left(next, hs[1..], i - 1, q);
    }
    if i :| 0 <= i < |hs[1..]| && Left(next, hs[1..], i, q) {
      ReadyNext(cur, next, hs, e, i + 1);
      assert Left(cur, hs, i + 1, q);
    }
  }

  lemma {:induction false} LeftFrom(cur: Tree, t: Tree, e: Effect, hs: seq<Header>, q: Path)
    requires Folder(t) && Unreserved(t) && Sound(t, e) && Within(cur, e)
    requires WellFormed(t, e, hs) && NoCopies(hs) && UntarRun(cur, hs).outcome == Ok
    ensures q in UntarRun(cur, hs).tree <==> q in cur || exists i :: 0 <= i < |hs| && Left(cur, hs, i, q)
    ensures Within(UntarRun(cur, hs).tree, LayerEffect(t, e, hs)) && Sound(t, LayerEffect(t, e, hs))
    decreases |hs|
  {
    if hs != [] {
      var h, next := hs[0], UntarStep(cur, hs[0]).tree;
      StepGoes(cur, t, e, h);
      LeftNext(cur, next, hs, Record(t, e, h), q);
      SoundNext(t, e, h);
      LeftFrom(next, t, Record(t, e, h), hs[1..], q);
    }
  }

  /** The layer holds the entry's path as the entry has it. */
  ghost predicate HeldAs(e: Effect, kind: Kind, p: Path) {
    match kind
    case TypeDir => p in e.up && e.up[p].Dir?
    case TypeReg => p in e.up && e.up[p].File? && p !in e.hard
    case TypeSymlink => p in e.up && e.up[p].Link? && p !in e.hard
    case TypeLink => p in e.up && !e.up[p].Dir? && p in e.hard
    case TypeOther => true
  }

  lemma HeldNow(t: Tree, e: Effect, h: Header, p: Path)
    requires Fits(t, e, h) && Clean(h.name) == Some(p) && !Reserved(p)
    ensures HeldAs(Record(t, e, h), h.kind, p)
  {
  }

  lemma HeldOn(t: Tree, e: Effect, hs: seq<Header>, kind: Kind, p: Path)
    requires WellFormed(t, e, hs) && HeldAs(e, kind, p)
    ensures HeldAs(LayerEffect(t, e, hs), kind, p)
  {
    EffectGrows(t, e, hs);
  }

  /** An entry decides the kind of its path for the whole layer. */
  lemma {:induction false} EntryHeld(t: Tree, e: Effect, hs: seq<Header>, i: nat)
    requires WellFormed(t, e, hs) && i < |hs| && Clean(hs[i].name).Some? && !Reserved(Clean(hs[i].name).value)
    ensures HeldAs(LayerEffect(t, e, hs), hs[i].kind, Clean(hs[i].name).value)
    decreases |hs|
  {
    if i == 0 {
      HeldNow(t, e, hs[0], Clean(hs[0].name).value);
      HeldOn(t, Record(t, e, hs[0]), hs[1..], hs[0].kind, Clean(hs[0].name).value);
    } else {
      EntryHeld(t, Record(t, e, hs[0]), hs[1..], i - 1);
    }
  }

  lemma {:induction false} EntryNamed(t: Tree, e: Effect, hs: seq<Header>, i: nat)
    requires WellFormed(t, e, hs) && i < |hs|
    ensures Clean(hs[i].name).Some?
    ensures var p := Clean(hs[i].name).value;
            (hs[i].kind !in {TypeReg, TypeOther} ==> !Reserved(p)) && (hs[i].kind !in {TypeDir, TypeOther} ==> p != ROOT)
    decreases |hs|
  {
    if i > 0 { EntryNamed(t, Record(t, e, hs[0]), hs[1..], i - 1); }
  }

  /** No directory entry is at or below a file or link of the layer. */
  lemma NoDirBelow(t: Tree, hs: seq<Header>, p: Path, j: nat)
    requires WellFormed(t, NOTHING, hs) && Sound(t, LayerEffect(t, NOTHING, hs))
    requires var e := LayerEffect(t, NOTHING, hs); p in e.up && !e.up[p].Dir?
    requires j < |hs| && hs[j].kind == TypeDir && Clean(hs[j].name).Some?
    ensures !(p <= Clean(hs[j].name).value)
  {
    var d := Clean(hs[j].name).value;
    EntryNamed(t, NOTHING, hs, j);
    EntryHeld(t, NOTHING, hs, j);
    if p < d { AboveIn(Overlay(t, LayerEffect(t, NOTHING, hs)), p, d); }
    assert p <= d && !(p < d) ==> p == d;
  }

  ghost predicate LinkListed(hs: seq<Header>, j: nat, p: Path)
    requires j < |hs|
  {
    hs[j].kind in {TypeSymlink, TypeLink} && Clean(hs[j].name) == Some(p) && Listed(hs, j)
  }

  lemma LinkLeft(t: Tree, hs: seq<Header>, i: nat, p: Path, j: nat)
    requires WellFormed(t, NOTHING, hs) && Sound(t, LayerEffect(t, NOTHING, hs))
    requires i < |hs| && hs[i].kind in {TypeSymlink, TypeLink} && Clean(hs[i].name) == Some(p) && j < |hs|
    ensures Left(EMPTY_FOLDER, hs, j, p) <==> LinkListed(hs, j, p)
  {
    EntryNamed(t, NOTHING, hs, i);
    EntryHeld(t, NOTHING, hs, i);
    if Clean(hs[j].name).Some? && hs[j].kind == TypeDir { NoDirBelow(t, hs, p, j); }
    if Clean(hs[j].name) == Some(p) { EntryHeld(t, NOTHING, hs, j); }
  }

  /** A link whose directory is not there is dropped without an error: after an unpacking that
      succeeds, a path the layer makes a link, hard or symbolic, is there exactly when the
      directory was listed before one of its entries; it is a symbolic link then. */
  lemma LinkKeptIff(t: Tree, hs: seq<Header>, i: nat, p: Path)
    requires Folder(t) && Unreserved(t) && WellFormed(t, NOTHING, hs) && NoCopies(hs)
    requires UntarRun(EMPTY_FOLDER, hs).outcome == Ok
    requires i < |hs| && hs[i].kind in {TypeSymlink, TypeLink} && Clean(hs[i].name) == Some(p)
    ensures var own := UntarRun(EMPTY_FOLDER, hs).tree;
            && (p in own <==> exists j :: 0 <= j < |hs| && LinkListed(hs, j, p))
            && (p in own ==> own[p].Link?)
  {
    var own, e := UntarRun(EMPTY_FOLDER, hs).tree, LayerEffect(t, NOTHING, hs);
    Start(t);
    LeftFrom(EMPTY_FOLDER, t, NOTHING, hs, p);
    EntryNamed(t, NOTHING, hs, i);
    EntryHeld(t, NOTHING, hs, i);
    forall j | 0 <= j < |hs| ensures Left(EMPTY_FOLDER, hs, j, p) <==> LinkListed(hs, j, p) {
      LinkLeft(t, hs, i, p, j);
    }
    if p in own && own[p].Dir? {
      var d :| d in e.up && e.up[d].Dir? && p <= d;
      if p != d { AboveIn(Overlay(t, e), p, d); }
    }
  }

  // ----- what a layer shows in its own folder -----

  /** A layer that stores each regular file once, and has no hard link to bin/arch. */
  ghost predicate Stored(hs: seq<Header>) {
    && NoCopies(hs)
    && forall i, j | 0 <= i < j < |hs| && hs[i].kind == TypeReg && hs[j].kind == TypeReg ::
         Clean(hs[i].name) != Clean(hs[j].name)
  }

  /** A layer that lists every directory itself. */
  ghost predicate Alone(hs: seq<Header>) {
    WellFormed(EMPTY_FOLDER, NOTHING, hs) && Stored(hs)
  }

  predicate Marks(h: Header) {
    h.kind == TypeReg && Clean(h.name).Some? && Reserved(Clean(h.name).value)
  }

  ghost predicate NoWhiteouts(hs: seq<Header>) {
    forall i | 0 <= i < |hs| :: !Marks(hs[i])
  }

  /** What `Untar` makes of a path of the layer: a hard link becomes a symbolic one. */
  ghost function Softly(e: Effect, p: Path): Option<Node> {
    if p in e.hard then Some(Link(e.hard[p])) else Look(e.up, p)
  }

  /** The same in a folder, which has its root. */
  ghost function Alike(e: Effect, p: Path): Option<Node> {
    if p == ROOT then Some(Dir) else Softly(e, p)
  }

  ghost predicate RootIsDir(e: Effect) {
    && (ROOT in e.up ==> e.up[ROOT].Dir?)
    && forall q | q in e.hard :: q in e.up && !e.up[q].Dir?
  }

  /** The folder of a layer so far: besides whiteout files, exactly what the layer holds. */
  ghost predicate OwnSoFar(cur: Tree, e: Effect) {
    && Folder(cur)
    && Unreserved(e.up)
    && RootIsDir(e)
    && (forall q | !Reserved(q) :: Look(cur, q) == Alike(e, q))
    && (forall q | q in cur && Reserved(q) :: cur[q].File?)
  }

  /** No file to come has its path taken by an earlier one. */
  ghost predicate Ahead(cur: Tree, hs: seq<Header>) {
    forall i, p | 0 <= i < |hs| && hs[i].kind == TypeReg && Clean(hs[i].name) == Some(p) && p in cur ::
      !cur[p].File?
  }

  lemma OwnParent(cur: Tree, e: Effect, p: Path)
    requires OwnSoFar(cur, e) && HasFolder(Overlay(EMPTY_FOLDER, e), p)
    ensures HasFolder(cur, p) && WayTo(cur, p) == Clear
  {
    var above := Parent(p);
    assert above == ROOT || above in e.up;
    assert !Reserved(above);
    assert Look(cur, above) == Alike(e, above);
    WayBeside(cur, p);
  }

  lemma OwnPut(cur: Tree, e: Effect, p: Path, n: Node, e': Effect)
    requires OwnSoFar(cur, e) && HasFolder(cur, p) && p !in cur && !Reserved(p)
    requires Unreserved(e'.up) && RootIsDir(e')
    requires forall q :: Alike(e', q) == if q == p then Some(n) else Alike(e, q)
    ensures OwnSoFar(cur[p := n], e')
  {
    FolderPut(cur, p, n);
    forall q | !Reserved(q) ensures Look(cur[p := n], q) == Alike(e', q) {
      assert Look(cur, q) == Alike(e, q);
    }
  }

  lemma FolderPut(cur: Tree, p: Path, n: Node)
    requires Folder(cur) && HasFolder(cur, p) && p !in cur
    ensures Folder(cur[p := n])
  {
    var next := cur[p := n];
    forall q | q in next && q != ROOT ensures Parent(q) in next && next[Parent(q)].Dir? {
      assert q != p ==> Parent(q) in cur;
    }
  }

  lemma OwnMark(cur: Tree, e: Effect, p: Path, n: Node, e': Effect)
    requires OwnSoFar(cur, e) && HasFolder(cur, p) && p !in cur && Reserved(p) && n.File?
    requires e'.up == e.up && e'.hard == e.hard
    ensures OwnSoFar(cur[p := n], e')
  {
    FolderPut(cur, p, n);
    forall q | !Reserved(q) ensures Look(cur[p := n], q) == Alike(e', q) {
      assert Look(cur, q) == Alike(e, q);
    }
  }

  /** `next` has at most one path more, and it is `p`. */
  ghost predicate Adds(cur: Tree, next: Tree, p: Path) {
    next == cur || (p !in cur && p in next && next == cur[p := next[p]])
  }

  lemma OwnSame(cur: Tree, e: Effect, e': Effect)
    requires OwnSoFar(cur, e) && Unreserved(e'.up) && RootIsDir(e')
    requires forall q :: Alike(e', q) == Alike(e, q)
    ensures OwnSoFar(cur, e')
  {
    forall q | !Reserved(q) ensures Look(cur, q) == Alike(e', q) { assert Look(cur, q) == Alike(e, q); }
  }

  lemma OwnDirLands(cur: Tree, e: Effect, p: Path)
    requires OwnSoFar(cur, e) && !Reserved(p) && (p == ROOT || HasFolder(Overlay(EMPTY_FOLDER, e), p))
    requires p in e.up ==> e.up[p].Dir?
    ensures PutDir(cur, p) == Step(cur[p := Dir], Ok) && (p in cur ==> cur[p].Dir?) && (p != ROOT ==> HasFolder(cur, p))
  {
    assert Look(cur, p) == Alike(e, p);
    if p != ROOT { OwnParent(cur, e, p); }
    DirLands(cur, p);
  }

  lemma AlikeDir(e: Effect, p: Path)
    requires RootIsDir(e) && (p in e.up ==> e.up[p].Dir?)
    ensures var e' := e.(up := e.up[p := Dir]);
            RootIsDir(e') && forall q :: Alike(e', q) == if q == p then Some(Dir) else Alike(e, q)
  {
  }

  lemma OwnDir(cur: Tree, e: Effect, p: Path)
    requires OwnSoFar(cur, e) && !Reserved(p) && (p == ROOT || HasFolder(Overlay(EMPTY_FOLDER, e), p))
    requires p in e.up ==> e.up[p].Dir?
    ensures PutDir(cur, p) == Step(cur[p := Dir], Ok) && Adds(cur, cur[p := Dir], p)
    ensures OwnSoFar(cur[p := Dir], e.(up := e.up[p := Dir]))
  {
    var e' := e.(up := e.up[p := Dir]);
    OwnDirLands(cur, e, p);
    AlikeDir(e, p);
    if p in cur {
      assert cur[p := Dir] == cur;
      assert Alike(e, p) == Some(Dir) by { assert Look(cur, p) == Alike(e, p); }
      OwnSame(cur, e, e');
    } else {
      OwnPut(cur, e, p, Dir, e');
    }
  }

  lemma AlikePut(e: Effect, p: Path, n: Node)
    requires RootIsDir(e) && Unreserved(e.up) && p != ROOT && !Reserved(p) && p !in e.hard
    ensures var e' := e.(up := e.up[p := n]);
            && RootIsDir(e') && Unreserved(e'.up)
            && forall q :: Alike(e', q) == if q == p then Some(n) else Alike(e, q)
  {
  }

  lemma OwnPlain(cur: Tree, e: Effect, p: Path, n: Node)
    requires OwnSoFar(cur, e) && HasFolder(cur, p) && p !in cur && !Reserved(p) && p !in e.hard
    ensures OwnSoFar(cur[p := n], e.(up := e.up[p := n]))
  {
    AlikePut(e, p, n);
    OwnPut(cur, e, p, n, e.(up := e.up[p := n]));
  }

  lemma OwnFile(cur: Tree, e: Effect, h: Header, p: Path)
    requires OwnSoFar(cur, e) && Fits(EMPTY_FOLDER, e, h) && h.kind == TypeReg && Clean(h.name) == Some(p)
    requires p in cur ==> !cur[p].File?
    ensures p !in cur && UntarStep(cur, h) == Step(cur[p := File(h.body)], Ok)
    ensures OwnSoFar(cur[p := File(h.body)], Record(EMPTY_FOLDER, e, h))
  {
    OwnParent(cur, e, p);
    if Reserved(p) {
      assert p !in cur;
      OwnMark(cur, e, p, File(h.body), Record(EMPTY_FOLDER, e, h));
    } else {
      assert Look(cur, p) == Alike(e, p);
      assert p !in cur;
      OwnPlain(cur, e, p, File(h.body));
    }
  }

  lemma OwnLink(cur: Tree, e: Effect, h: Header, p: Path)
    requires OwnSoFar(cur, e) && Fits(EMPTY_FOLDER, e, h) && h.kind == TypeSymlink && Clean(h.name) == Some(p)
    ensures UntarStep(cur, h) == Step(if p in cur then cur else cur[p := Link(h.link)], Ok)
    ensures OwnSoFar(UntarStep(cur, h).tree, Record(EMPTY_FOLDER, e, h))
  {
    OwnParent(cur, e, p);
    assert Look(cur, p) == Alike(e, p);
    assert p in cur <==> p in e.up;
    assert UntarStep(cur, h) == Symlink(cur, p, h.link);
    if p !in cur { OwnPlain(cur, e, p, Link(h.link)); }
  }

  lemma AlikeHard(e: Effect, h: Header, p: Path)
    requires Fits(EMPTY_FOLDER, e, h) && h.kind == TypeLink && Clean(h.name) == Some(p)
    requires RootIsDir(e) && Unreserved(e.up)
    ensures var e' := Record(EMPTY_FOLDER, e, h);
            && RootIsDir(e') && Unreserved(e'.up)
            && forall q :: Alike(e', q) == if q == p then Some(Link(h.link)) else Alike(e, q)
  {
    var n := Target(EMPTY_FOLDER, e, h).value;
    assert Record(EMPTY_FOLDER, e, h) == e.(up := e.up[p := n], hard := e.hard[p := h.link]);
  }

  lemma OwnHard(cur: Tree, e: Effect, h: Header, p: Path)
    requires OwnSoFar(cur, e) && Fits(EMPTY_FOLDER, e, h) && h.kind == TypeLink && Clean(h.name) == Some(p)
    requires !Copies(h)
    ensures p !in cur && UntarStep(cur, h) == Step(cur[p := Link(h.link)], Ok)
    ensures OwnSoFar(cur[p := Link(h.link)], Record(EMPTY_FOLDER, e, h))
  {
    OwnParent(cur, e, p);
    assert Look(cur, p) == Alike(e, p);
    LinkNamed(EMPTY_FOLDER, e, h);
    AlikeHard(e, h, p);
    OwnPut(cur, e, p, Link(h.link), Record(EMPTY_FOLDER, e, h));
  }

  /** One entry of `Untar` adds at most its own path, and keeps the folder as described. */
  lemma OwnStep(cur: Tree, e: Effect, h: Header)
    requires OwnSoFar(cur, e) && Fits(EMPTY_FOLDER, e, h) && !Copies(h)
    requires h.kind == TypeReg && Clean(h.name).value in cur ==> !cur[Clean(h.name).value].File?
    ensures var p, r := Clean(h.name).value, UntarStep(cur, h);
            && r.outcome == Ok && OwnSoFar(r.tree, Record(EMPTY_FOLDER, e, h)) && Adds(cur, r.tree, p)
            && (r.tree != cur ==> (r.tree[p].File? <==> h.kind == TypeReg) && (Reserved(p) ==> Marks(h)))
  {
    var p := Clean(h.name).value;
    match h.kind
    case TypeDir => OwnDir(cur, e, p);
    case TypeReg => OwnFile(cur, e, h, p);
    case TypeOther =>
    case TypeSymlink => OwnLink(cur, e, h, p);
    case TypeLink => OwnHard(cur, e, h, p);
  }

  lemma AheadNext(cur: Tree, next: Tree, hs: seq<Header>)
    requires hs != [] && Stored(hs) && Ahead(cur, hs) && Clean(hs[0].name).Some?
    requires var p := Clean(hs[0].name).value;
             Adds(cur, next, p) && (next != cur ==> (next[p].File? <==> hs[0].kind == TypeReg))
    ensures Stored(hs[1..]) && Ahead(next, hs[1..])
  {
    forall i, p | 0 <= i < |hs[1..]| && hs[1..][i].kind == TypeReg && Clean(hs[1..][i].name) == Some(p) && p in next
      ensures !next[p].File?
    {
      assert hs[1..][i] == hs[i + 1];
      if p in cur { assert next[p] == cur[p]; }
    }
  }

  lemma {:induction false} OwnRun(cur: Tree, e: Effect, hs: seq<Header>)
    requires OwnSoFar(cur, e) && WellFormed(EMPTY_FOLDER, e, hs) && Stored(hs) && Ahead(cur, hs)
    ensures UntarRun(cur, hs).outcome == Ok && OwnSoFar(UntarRun(cur, hs).tree, LayerEffect(EMPTY_FOLDER, e, hs))
    ensures NoWhiteouts(hs) && Unreserved(cur) ==> Unreserved(UntarRun(cur, hs).tree)
    decreases |hs|
  {
    if hs != [] {
      var h := hs[0];
      OwnStep(cur, e, h);
      var next := UntarStep(cur, h).tree;
      AheadNext(cur, next, hs);
      assert NoWhiteouts(hs) ==> NoWhiteouts(hs[1..]) && !Marks(h);
      OwnRun(next, Record(EMPTY_FOLDER, e, h), hs[1..]);
    }
  }

  /** Without whiteouts a layer hides nothing but what its files and links stand on. */
  lemma {:induction false} HidesNothing(t: Tree, e: Effect, hs: seq<Header>)
    requires NoWhiteouts(hs)
    ensures LayerEffect(t, e, hs).hid == e.hid && LayerEffect(t, e, hs).opq == e.opq
    decreases |hs|
  {
    if hs != [] {
      assert !Marks(hs[0]) && NoWhiteouts(hs[1..]);
      HidesNothing(t, Record(t, e, hs[0]), hs[1..]);
    }
  }

  /** A layer unpacked on its own shows, under every name but a whiteout's, what the layer
      holds, each hard link as a symbolic one; without whiteouts it is just that. */
  lemma OwnFolder(hs: seq<Header>)
    requires Alone(hs)
    ensures UntarRun(EMPTY_FOLDER, hs).outcome == Ok
    ensures forall q | q != ROOT && (NoWhiteouts(hs) || !Reserved(q)) ::
              Look(UntarRun(EMPTY_FOLDER, hs).tree, q) == Softly(LayerEffect(EMPTY_FOLDER, NOTHING, hs), q)
  {
    var own, e := UntarRun(EMPTY_FOLDER, hs).tree, LayerEffect(EMPTY_FOLDER, NOTHING, hs);
    OwnRun(EMPTY_FOLDER, NOTHING, hs);
    forall q | q != ROOT && (NoWhiteouts(hs) || !Reserved(q)) ensures Look(own, q) == Softly(e, q) {
      if Reserved(q) {
        assert q !in own && q !in e.up && q !in e.hard;
      } else {
        assert Look(own, q) == Alike(e, q);
      }
    }
  }

  /** A hard link of the layer names a file or link. */
  lemma HardIsFile(hs: seq<Header>, p: Path)
    requires Alone(hs)
    ensures var e := LayerEffect(EMPTY_FOLDER, NOTHING, hs);
            p in e.hard ==> p in e.up && !e.up[p].Dir?
  {
    OwnRun(EMPTY_FOLDER, NOTHING, hs);
  }
}
