/** The file side of `DockerCommit`: the writable layer is trimmed and frozen as a new
    layer, and a new writable layer is put on top. Outside the trimmed paths the container
    sees what it saw before. (The registry side is in module Registry.) */
module Commit {
  import opened Strings
  import opened FileTree
  import opened Archive
  import opened TarRoundTrip
  import opened UnionLookup
  import opened Volumes

  const ETC: Path := ["etc"]
  const GROUP: Path := ["etc", "group"]
  const PASSWD: Path := ["etc", "passwd"]
  const TMP: Path := ["tmp"]
  const WH_TMP: Path := [".wh.tmp"]
  const CACHE: Path := ["var", "cache", "apt", "archives"]
  const APT: Path := ["var", "lib", "apt", "lists"]
  const DPKG: Path := ["var", "lib", "dpkg"]

  // ----- volumes -----

  /** Nor is a volume mounted where the commit puts something itself. */
  ghost predicate Renewable(items: seq<string>) {
    Mountable(items) && !MountedAt(items, ETC) && !MountedAt(items, TMP) && !MountedAt(items, WH_TMP)
  }

  // ----- trimming -----

  predicate UnderAny(ps: seq<Path>, q: Path) {
    exists d | d in ps :: d <= q
  }

  function Cut(t: Tree, ps: seq<Path>): Tree {
    t - set q | q in t && UnderAny(ps, q)
  }

  /** `p` if the tree has it as a directory (or as anything else, for a file). */
  function Present(t: Tree, p: Path, folder: bool): seq<Path> {
    if p in t && t[p].Dir? == folder then [p] else []
  }

  /** Everything the trimming removes from the writable layer: first what is cut before
      the volume links, in order, then the links and the package state. */
  function Removed(t: Tree, doomed: seq<Path>): seq<Path> {
    RemovedFirst(t) + doomed + Present(t, APT, true) + Present(t, DPKG, true)
  }

  function RemovedFirst(t: Tree): seq<Path> {
    Present(t, CACHE, true) + Present(t, GROUP, false) + Present(t, PASSWD, false) + Present(t, TMP, true)
    + Present(t, WH_TMP, false)
  }

  function Frozen(t: Tree, doomed: seq<Path>): Tree {
    Cut(t, Removed(t, doomed))
  }

  /** The new writable layer: links, the two files moved back, and a hidden empty tmp. */
  function NewRw(links: Tree, t: Tree): Tree {
    var group, passwd := Present(t, GROUP, false), Present(t, PASSWD, false);
    var etc := if group + passwd != [] then links[ETC := Dir] else links;
    var withGroup := if group != [] then etc[GROUP := t[GROUP]] else etc;
    var withPasswd := if passwd != [] then withGroup[PASSWD := t[PASSWD]] else withGroup;
    withPasswd[TMP := Dir][WH_TMP := File([])]
  }

  lemma UnderAppend(a: seq<Path>, b: seq<Path>, q: Path)
    ensures UnderAny(a + b, q) <==> UnderAny(a, q) || UnderAny(b, q)
  {
    if UnderAny(a, q) { var d :| d in a && d <= q; assert d in a + b; }
    if UnderAny(b, q) { var d :| d in b && d <= q; assert d in a + b; }
  }

  lemma CutMore(t: Tree, ps: seq<Path>, p: Path)
    ensures Without(Cut(t, ps), p) == Cut(t, ps + [p])
  {
    forall q ensures UnderAny(ps + [p], q) <==> UnderAny(ps, q) || p <= q {
      UnderAppend(ps, [p], q);
      assert UnderAny([p], q) <==> p <= q by { assert p in [p]; }
    }
  }

  lemma CutIf(t: Tree, ps: seq<Path>, p: Path, folder: bool)
    ensures (if p in Cut(t, ps) && Cut(t, ps)[p].Dir? == folder then Without(Cut(t, ps), p) else Cut(t, ps))
         == Cut(t, ps + Present(t, p, folder))
  {
    var cur := Cut(t, ps);
    CutMore(t, ps, p);
    assert ps + [] == ps;
    if p !in cur && p in t {
      Prefixes(ps, p);
      assert Without(cur, p) == cur;
    }
  }

  lemma Prefixes(ps: seq<Path>, p: Path)
    requires UnderAny(ps, p)
    ensures forall q | p <= q :: UnderAny(ps, q)
  {
    var d :| d in ps && d <= p;
    forall q | p <= q ensures UnderAny(ps, q) { assert d <= q; }
  }

  lemma {:induction false} CutEach(t: Tree, ps: seq<Path>, doomed: seq<Path>)
    ensures RemoveEach(Cut(t, ps), doomed).outcome == Ok <==> Reachable(t, ps, doomed)
    ensures Reachable(t, ps, doomed) ==> RemoveEach(Cut(t, ps), doomed).tree == Cut(t, ps + doomed)
    decreases |doomed|
  {
    if doomed == [] {
      assert ps + doomed == ps;
    } else {
      CutMore(t, ps, doomed[0]);
      CutEach(t, ps + [doomed[0]], doomed[1..]);
      assert ps + [doomed[0]] + doomed[1..] == ps + doomed;
    }
  }

  lemma {:induction false} CutKeeps(t: Tree, ps: seq<Path>)
    requires Closed(t)
    ensures Closed(Cut(t, ps))
  {
    var r := Cut(t, ps);
    forall q | q in r && q != ROOT ensures Parent(q) in r && r[Parent(q)].Dir? {
      if UnderAny(ps, Parent(q)) { Prefixes(ps, Parent(q)); }
    }
  }

  // ----- when trimming goes through -----

  /** Taking away what is not above `p` leaves the way to it. */
  lemma {:induction false} WayCut(t: Tree, ps: seq<Path>, more: seq<Path>, p: Path)
    requires forall d | d in more :: !(d < p)
    ensures WayTo(Cut(t, ps + more), p) == WayTo(Cut(t, ps), p)
    decreases |p|
  {
    if p != ROOT {
      var above := Parent(p);
      forall d | d in more ensures !(d <= above) { assert d <= above ==> d < p; }
      assert forall d: Path | d in more :: !(d < above);
      WayCut(t, ps, more, above);
      UnderAppend(ps, more, above);
    }
  }

  /** Neither the cache nor the two files lie behind a link, and the files can be moved aside:
      the folder for them is made for a regular file only. */
  predicate FirstTrims(t: Tree) {
    && WayTo(t, CACHE) != Linked && WayTo(t, GROUP) != Linked
    && (GROUP in t ==> !t[GROUP].Link?)
    && (PASSWD in t && t[PASSWD].Link? ==> GROUP in t && t[GROUP].File?)
  }

  predicate LinkAt(t: Tree, p: Path) {
    p in t && t[p].Link?
  }

  /** The same, path by path. */
  lemma FirstTrimsIff(t: Tree)
    requires Folder(t)
    ensures FirstTrims(t) <==>
            && !LinkAt(t, ["var"]) && !LinkAt(t, ["var", "cache"]) && !LinkAt(t, ["var", "cache", "apt"])
            && !LinkAt(t, ["etc"]) && !LinkAt(t, ["etc", "group"])
            && (LinkAt(t, ["etc", "passwd"]) ==> ["etc", "group"] in t && t[["etc", "group"]].File?)
  {
    LinkedIff(t, CACHE);
    LinkedIff(t, GROUP);
    assert CACHE[..0] == [] && CACHE[..1] == ["var"] && CACHE[..2] == ["var", "cache"] && CACHE[..3] == ["var", "cache", "apt"];
    assert GROUP[..0] == [] && GROUP[..1] == ["etc"];
  }

  /** What the first part removes lies beside what it walks to afterwards. */
  lemma FirstWays(t: Tree)
    requires Folder(t)
    ensures var cache, group, passwd := Present(t, CACHE, true), Present(t, GROUP, false), Present(t, PASSWD, false);
            && Cut(t, []) == t
            && WayTo(Cut(t, cache), GROUP) == WayTo(t, GROUP)
            && WayTo(Cut(t, cache + group), PASSWD) == WayTo(t, GROUP)
            && WayTo(Cut(t, cache + group + passwd), TMP) == Clear
            && WayTo(Cut(t, cache + group + passwd + Present(t, TMP, true)), WH_TMP) == Clear
  {
    var cache, group, passwd := Present(t, CACHE, true), Present(t, GROUP, false), Present(t, PASSWD, false);
    assert Cut(t, []) == t;
    BesideWay(t, cache, GROUP);
    BesideWay(t, cache + group, PASSWD);
    assert Parent(GROUP) == Parent(PASSWD) == ETC;
    BesideWay(t, cache + group + passwd, TMP);
    BesideWay(t, cache + group + passwd + Present(t, TMP, true), WH_TMP);
    assert Parent(TMP) == ROOT && Parent(WH_TMP) == ROOT && WayTo(t, ROOT) == Clear;
  }

  lemma BesideWay(t: Tree, ps: seq<Path>, p: Path)
    requires forall d | d in ps :: !(d < p)
    ensures WayTo(Cut(t, ps), p) == WayTo(t, p)
  {
    assert [] + ps == ps && Cut(t, []) == t;
    WayCut(t, [], ps, p);
  }

  /** Removing `doomed` in order, after `done`, follows no link. */
  predicate Reachable(t: Tree, done: seq<Path>, doomed: seq<Path>)
    decreases |doomed|
  {
    doomed == [] || (WayTo(Cut(t, done), doomed[0]) != Linked && Reachable(t, done + [doomed[0]], doomed[1..]))
  }

  predicate Trims(t: Tree, doomed: seq<Path>) {
    var cut := Cut(t, RemovedFirst(t) + doomed);
    FirstTrims(t) && Reachable(t, RemovedFirst(t), doomed) && WayTo(cut, APT) != Linked && WayTo(cut, DPKG) != Linked
  }

  /** When a layer can be frozen: trimming goes through, leaves the folder itself, and the
      name of the new layer is free. */
  ghost predicate Freezable(t: Tree, base: map<string, Tree>, doomed: seq<Path>, tar: string) {
    Trims(t, doomed) && ROOT in Frozen(t, doomed) && (tar in base ==> base[tar].Keys == {ROOT})
  }

  // ----- the frozen layer, path by path -----

  /** `q` is `p` or below it, and `p` is there as a directory, or as anything else. */
  predicate Within(t: Tree, p: Path, folder: bool, q: Path) {
    p in t && t[p].Dir? == folder && p <= q
  }

  /** What the trimming takes: the package cache and lists, the two files, tmp and the file that
      hides it, and what is mounted by an item of two parts. */
  ghost predicate Dropped(t: Tree, items: seq<string>, q: Path) {
    || Within(t, ["var", "cache", "apt", "archives"], true, q)
    || Within(t, ["etc", "group"], false, q) || Within(t, ["etc", "passwd"], false, q)
    || Within(t, ["tmp"], true, q) || Within(t, [".wh.tmp"], false, q)
    || Within(t, ["var", "lib", "apt", "lists"], true, q) || Within(t, ["var", "lib", "dpkg"], true, q)
    || Mounted(items, q)
  }

  /** `q` lies at or below the place of an item of two parts. */
  ghost predicate Mounted(items: seq<string>, q: Path) {
    exists d :: VolumeAt(items, d, true) && d <= q
  }

  /** `f` is `t` without what the trimming takes. */
  ghost predicate Trimmed(t: Tree, items: seq<string>, f: Tree) {
    forall q :: Look(f, q) == if Dropped(t, items, q) then None else Look(t, q)
  }

  lemma PresentUnder(t: Tree, d: Path, folder: bool, q: Path)
    ensures UnderAny(Present(t, d, folder), q) <==> Within(t, d, folder, q)
  {
    if Within(t, d, folder, q) { assert d in Present(t, d, folder); }
  }

  lemma DoomedUnder(items: seq<string>, q: Path)
    ensures UnderAny(Doomed(items), q) <==> Mounted(items, q)
  {
    forall d ensures d in Doomed(items) <==> VolumeAt(items, d, true) { DoomedIff(items, d); }
    if UnderAny(Doomed(items), q) { var d :| d in Doomed(items) && d <= q; }
    if Mounted(items, q) { var d :| VolumeAt(items, d, true) && d <= q; }
  }

  lemma RemovedFirstUnder(t: Tree, q: Path)
    ensures UnderAny(RemovedFirst(t), q) <==>
            || Within(t, CACHE, true, q) || Within(t, GROUP, false, q) || Within(t, PASSWD, false, q)
            || Within(t, TMP, true, q) || Within(t, WH_TMP, false, q)
  {
    var cache, group, passwd := Present(t, CACHE, true), Present(t, GROUP, false), Present(t, PASSWD, false);
    var tmp, hidden := Present(t, TMP, true), Present(t, WH_TMP, false);
    UnderAppend(cache + group + passwd + tmp, hidden, q);
    UnderAppend(cache + group + passwd, tmp, q);
    UnderAppend(cache + group, passwd, q);
    UnderAppend(cache, group, q);
    PresentUnder(t, CACHE, true, q);
    PresentUnder(t, GROUP, false, q);
    PresentUnder(t, PASSWD, false, q);
    PresentUnder(t, TMP, true, q);
    PresentUnder(t, WH_TMP, false, q);
  }

  lemma DroppedIff(t: Tree, items: seq<string>, q: Path)
    ensures UnderAny(Removed(t, Doomed(items)), q) <==> Dropped(t, items, q)
  {
    var apt, dpkg := Present(t, APT, true), Present(t, DPKG, true);
    UnderAppend(RemovedFirst(t) + Doomed(items) + apt, dpkg, q);
    UnderAppend(RemovedFirst(t) + Doomed(items), apt, q);
    UnderAppend(RemovedFirst(t), Doomed(items), q);
    RemovedFirstUnder(t, q);
    DoomedUnder(items, q);
    PresentUnder(t, APT, true, q);
    PresentUnder(t, DPKG, true, q);
  }

  /** The frozen layer is the writable layer without exactly these paths. */
  lemma FrozenIsTrimmed(t: Tree, items: seq<string>)
    ensures Trimmed(t, items, Frozen(t, Doomed(items)))
  {
    var f := Frozen(t, Doomed(items));
    forall q ensures Look(f, q) == if Dropped(t, items, q) then None else Look(t, q) { DroppedIff(t, items, q); }
  }

  // ----- the code -----

  class Workspace {
    var rw: Tree
    /** The frozen layers, by the name of their folder. */
    var base: map<string, Tree>
    var tars: map<string, seq<Header>>

    constructor (t: Tree)
      ensures rw == t && base == map[] && tars == map[]
    {
      rw, base, tars := t, map[], map[];
    }

    /** Removes `p` if it is there with the wanted kind. */
    method RemoveIf(p: Path, folder: bool, ghost t: Tree, ghost ps: seq<Path>) returns (known: bool, ghost cut: seq<Path>)
      requires rw == Cut(t, ps)
      modifies this`rw
      ensures cut == ps + Present(t, p, folder)
      ensures known <==> WayTo(Cut(t, ps), p) != Linked
      ensures known ==> rw == Cut(t, cut)
    {
      cut := ps + Present(t, p, folder);
      if WayTo(rw, p) == Linked { return false, cut; }
      CutIf(t, ps, p, folder);
      if p in rw && rw[p].Dir? == folder {
        rw := Without(rw, p);
      }
      known := true;
    }

    /** Step 0, first part: remove caches, move group and passwd aside, remove tmp and the
        file that hides it. */
    method TrimFirst(ghost t: Tree) returns (outcome: Outcome)
      requires rw == t && Folder(t)
      modifies this`rw
      ensures outcome == Ok <==> FirstTrims(t)
      ensures outcome == Ok ==> rw == Cut(t, RemovedFirst(t))
    {
      FirstWays(t);
      assert rw == Cut(t, []);
      var known, ps := RemoveIf(CACHE, true, t, []);
      if !known { return Unmodelled; }
      assert ps == Present(t, CACHE, true);
      var aside := false;
      if GROUP in rw {
        // Rename makes the folder aside for a regular file, not for a symbolic link
        if rw[GROUP].Link? { return Error(NoEntry); }
        aside := rw[GROUP].File?;
      }
      known, ps := RemoveIf(GROUP, false, t, ps);
      if !known { return Unmodelled; }
      if PASSWD in rw {
        if rw[PASSWD].Link? && !aside { return Error(NoEntry); }
      }
      known, ps := RemoveIf(PASSWD, false, t, ps);
      if !known { return Unmodelled; }
      known, ps := RemoveIf(TMP, true, t, ps);
      if !known { return Unmodelled; }
      known, ps := RemoveIf(WH_TMP, false, t, ps);
      if !known { return Unmodelled; }
      return Ok;
    }

    /** Step 0, second part: volume links and package state. */
    method Trim(items: seq<string>) returns (outcome: Outcome)
      requires Folder(rw)
      modifies this`rw
      ensures outcome == Ok <==> Trims(old(rw), Doomed(items))
      ensures outcome == Ok ==> rw == Frozen(old(rw), Doomed(items)) && Trimmed(old(rw), items, rw)
    {
      ghost var t := rw;
      FrozenIsTrimmed(t, items);
      outcome := TrimFirst(t);
      if outcome != Ok { return; }
      var swept := RemoveEach(rw, Doomed(items));
      CutEach(t, RemovedFirst(t), Doomed(items));
      rw := swept.tree;
      if swept.outcome != Ok { return swept.outcome; }
      WayCut(t, RemovedFirst(t) + Doomed(items), Present(t, APT, true), DPKG);
      var known, ps := RemoveIf(APT, true, t, RemovedFirst(t) + Doomed(items));
      if !known { return Unmodelled; }
      known, ps := RemoveIf(DPKG, true, t, ps);
      if !known { return Unmodelled; }
      return Ok;
    }

    /** The volume links: a failing one ends the commit, an item without "=" is out of range. */
    method LinkVolumes(items: seq<string>) returns (outcome: Outcome)
      modifies this`rw
      ensures Step(rw, outcome) == LinkAll(old(rw), items)
    {
      for i := 0 to |items|
        invariant LinkAll(rw, items[i..]) == LinkAll(old(rw), items)
      {
        assert items[i..][1..] == items[i + 1..];
        if |items[i]| > 0 {
          var v := Split(items[i], '=');
          if |v| < 2 || ".." in Split(v[1], '/') || Target(v[1]) == None { return Unmodelled; }
          if !Creatable(v[1]) { return Error(NoEntry); }
          var s := MakeLink(rw, Target(v[1]).value, v[0]);
          rw := s.tree;
          if s.outcome != Ok { return s.outcome; }
        }
      }
      return Ok;
    }

    /** Step 3: a new folder, the volume links, the files moved back, and tmp hidden. */
    method Renew(items: seq<string>, ghost t: Tree, group: Option<Node>, passwd: Option<Node>) returns (outcome: Outcome)
      requires group == if Present(t, GROUP, false) != [] then Some(t[GROUP]) else None
      requires passwd == if Present(t, PASSWD, false) != [] then Some(t[PASSWD]) else None
      modifies this`rw
      ensures outcome == Ok <==> Renewable(items)
      ensures outcome == Ok ==> rw == NewRw(LinkAll(EMPTY_FOLDER, items).tree, t)
    {
      LinkAllIff(items);
      rw := EMPTY_FOLDER;
      outcome := LinkVolumes(items);
      if outcome != Ok { return; }
      NotDeeper(items);
      // a volume linked over etc or tmp would be followed
      if ETC in rw || TMP in rw || WH_TMP in rw || GROUP in rw || PASSWD in rw { return Unmodelled; }
      if group.Some? {
        rw := rw[ETC := Dir];
        rw := rw[GROUP := group.value];
      }
      if passwd.Some? {
        if group == None { rw := rw[ETC := Dir]; }
        rw := rw[PASSWD := passwd.value];
      }
      rw := rw[TMP := Dir];
      rw := rw[WH_TMP := File([])];
      return Ok;
    }

    /** Steps 0 to 2: the layer is trimmed, packed, and moved below the container. */
    method Freeze(items: seq<string>, tar: string, order: seq<Path>) returns (outcome: Outcome)
      requires Folder(rw) && WalkOrder(Frozen(rw, Doomed(items)), order)
      modifies this
      ensures outcome == Ok <==> Freezable(old(rw), old(base), Doomed(items), tar)
      ensures outcome == Ok ==> base == old(base)[tar := Frozen(old(rw), Doomed(items))]
      ensures outcome == Ok ==> tars == old(tars)[tar := TarOf(Frozen(old(rw), Doomed(items)), order)]
      ensures outcome != Ok ==> base == old(base)
    {
      outcome := Trim(items);
      if outcome != Ok { return; }
      if ROOT !in rw { return Error(NoEntry); }
      tars := tars[tar := TarOf(rw, order)];
      if tar in base && base[tar].Keys != {ROOT} { return Error(IsDirectory); }
      base := base[tar := rw];
    }

    /** The layer's folder and its tarball are both called `tar`; `order` is the order in
        which the trimmed layer is walked. */
    method DockerCommit(syncMap: string, tar: string, order: seq<Path>) returns (outcome: Outcome)
      requires Folder(rw) && WalkOrder(Frozen(rw, Doomed(Split(syncMap, ':'))), order)
      modifies this
      ensures var items := Split(syncMap, ':');
              outcome == Ok <==> Freezable(old(rw), old(base), Doomed(items), tar) && Renewable(items)
      ensures outcome == Ok ==>
                var items := Split(syncMap, ':');
                var frozen := Frozen(old(rw), Doomed(items));
                && rw == NewRw(LinkAll(EMPTY_FOLDER, items).tree, old(rw))
                && base == old(base)[tar := frozen] && Trimmed(old(rw), items, frozen)
                && tars == old(tars)[tar := TarOf(frozen, order)]
      ensures tar in old(base) && old(base)[tar].Keys != {ROOT} ==> outcome != Ok && base == old(base)
      ensures base == old(base) || base == old(base)[tar := Frozen(old(rw), Doomed(Split(syncMap, ':')))]
    {
      var items := Split(syncMap, ':');
      var group := if GROUP in rw && !rw[GROUP].Dir? then Some(rw[GROUP]) else None;
      var passwd := if PASSWD in rw && !rw[PASSWD].Dir? then Some(rw[PASSWD]) else None;
      ghost var t := rw;
      FrozenIsTrimmed(t, items);
      outcome := Freeze(items, tar, order);
      if outcome != Ok { return; }
      outcome := Renew(items, t, group, passwd);
    }
  }

  // ----- the container's view -----

  /** What a commit may change for the container: caches, tmp, package state, volumes. */
  ghost predicate Disturbed(items: seq<string>, p: Path) {
    || ["var", "cache", "apt", "archives"] <= p || ["tmp"] <= p || [".wh.tmp"] <= p
    || ["var", "lib", "apt", "lists"] <= p || ["var", "lib", "dpkg"] <= p
    || Mounted(items, p) || (p != [] && VolumeAt(items, p, false))
  }

  /** A commit preserves the container's view: with the trimmed layer frozen under a new
      writable layer, first-match lookup of every undisturbed path gives what it gave. */
  lemma CommitKeepsView(lower: seq<Tree>, t: Tree, items: seq<string>, p: Path)
    requires Folder(t) && !Disturbed(items, p)
    ensures FirstIn(lower + [t], p)
         == FirstIn(lower + [Frozen(t, Doomed(items)), NewRw(LinkAll(EMPTY_FOLDER, items).tree, t)], p)
  {
    var links := LinkAll(EMPTY_FOLDER, items).tree;
    var frozen, rw := Frozen(t, Doomed(items)), NewRw(links, t);
    TopTwo(lower, frozen, rw, p);
    LinksWithin(EMPTY_FOLDER, items, p);
    assert (lower + [t])[..|lower|] == lower;
    LinksKeepRoot(EMPTY_FOLDER, items);
    NewRwAt(links, t, items, p);
    if p in t { UndisturbedStays(t, items, p); }
  }

  /** What the new writable layer shows of undisturbed paths is what was there. */
  lemma NewRwAt(links: Tree, t: Tree, items: seq<string>, p: Path)
    requires Folder(t) && !Disturbed(items, p) && links == LinkAll(EMPTY_FOLDER, items).tree
    requires ROOT in links && links[ROOT].Dir?
    ensures p in NewRw(links, t) ==> p in t && NewRw(links, t)[p] == t[p]
    ensures p in {GROUP, PASSWD} && Present(t, p, false) == [p] ==> p in NewRw(links, t)
  {
    assert Parent(GROUP) == ETC && Parent(PASSWD) == ETC;
    assert GROUP in t || PASSWD in t ==> ETC in t && t[ETC].Dir?;
    assert p != TMP && p != WH_TMP;
    LinksWithin(EMPTY_FOLDER, items, p);
    assert p == ROOT || p !in links;
  }

  lemma TopTwo(lower: seq<Tree>, under: Tree, top: Tree, p: Path)
    ensures FirstIn(lower + [under, top], p)
         == if p in top then Some(top[p]) else if p in under then Some(under[p]) else FirstIn(lower, p)
  {
    var all := lower + [under, top];
    assert all[..|all| - 1] == lower + [under];
    assert (lower + [under])[..|lower|] == lower;
  }

  lemma {:induction false} LinksKeepRoot(t: Tree, items: seq<string>)
    requires ROOT in t && t[ROOT].Dir?
    ensures ROOT in LinkAll(t, items).tree && LinkAll(t, items).tree[ROOT].Dir?
    decreases |items|
  {
    if items != [] {
      if items[0] == "" {
        LinksKeepRoot(t, items[1..]);
      } else if Mount(items[0]).Some? && Creatable(Split(items[0], '=')[1]) {
        var p := Mount(items[0]).value;
        LinkAllUnfolds(t, items, p);
        LinksKeepRoot(MakeLink(t, p, Host(items[0])).tree, items[1..]);
      }
    }
  }

  /** Of the undisturbed paths only the two files leave the frozen layer. */
  lemma UndisturbedStays(t: Tree, items: seq<string>, p: Path)
    requires Folder(t) && !Disturbed(items, p) && p in t
    ensures p in Frozen(t, Doomed(items)) || (Present(t, p, false) == [p] && p in {GROUP, PASSWD})
  {
    DroppedIff(t, items, p);
    if Dropped(t, items, p) {
      var d := if Within(t, GROUP, false, p) then GROUP else PASSWD;
      NothingBelow(t, d, p);
    }
  }

  /** The new writable layer, path by path: the two files as they were, their directory, an empty
      tmp and the file that hides it, and for the rest the links. */
  lemma NewRwShows(links: Tree, t: Tree, q: Path)
    ensures var group, passwd := Within(t, ["etc", "group"], false, ["etc", "group"]), Within(t, ["etc", "passwd"], false, ["etc", "passwd"]);
            Look(NewRw(links, t), q) ==
              if q == [".wh.tmp"] then Some(File([]))
              else if q == ["tmp"] then Some(Dir)
              else if (q == ["etc", "group"] && group) || (q == ["etc", "passwd"] && passwd) then Look(t, q)
              else if q == ["etc"] && (group || passwd) then Some(Dir)
              else Look(links, q)
  {
    assert Present(t, GROUP, false) + Present(t, PASSWD, false) == [] <==>
           Present(t, GROUP, false) == [] && Present(t, PASSWD, false) == [];
  }

  /** After a commit each item's place holds the link to its own host path. */
  lemma VolumesAreBack(t: Tree, items: seq<string>, i: nat, host: string, c: string, more: string)
    requires Renewable(items) && i < |items| && Item(items[i], host, c, more)
    ensures "/" <= c && Clean(c).Some?
    ensures Look(NewRw(LinkAll(EMPTY_FOLDER, items).tree, t), Clean(c).value) == Some(Link(host))
  {
    LinkAllIff(items);
    LinkIsHost(EMPTY_FOLDER, items, i, host, c, more);
    ItemSplit(items[i], host, c, more);
    NotDeeper(items);
    assert Mount(items[i]) == Some(Clean(c).value);
    NewRwShows(LinkAll(EMPTY_FOLDER, items).tree, t, Clean(c).value);
  }

  /** No entry of the committed tarball is at a path the trimming takes, a volume's among them. */
  lemma NothingDroppedIsPacked(t: Tree, items: seq<string>, order: seq<Path>, i: nat)
    requires Named(t) && WalkOrder(Frozen(t, Doomed(items)), order)
    requires i < |TarOf(Frozen(t, Doomed(items)), order)|
    ensures var p := Clean(TarOf(Frozen(t, Doomed(items)), order)[i].name);
            p.Some? && p.value in t && !Dropped(t, items, p.value)
  {
    var f := Frozen(t, Doomed(items));
    var q := TarTells(f, order, i);
    CleanRender(q);
    FrozenIsTrimmed(t, items);
    assert Look(f, q).Some?;
  }

  /** The tarball a commit registers unpacks to the very folder it froze. */
  lemma CommittedLayerUnpacks(t: Tree, items: seq<string>, order: seq<Path>)
    requires Folder(t) && Named(t) && ROOT in Frozen(t, Doomed(items))
    requires WalkOrder(Frozen(t, Doomed(items)), order)
    ensures UntarRun(EMPTY_FOLDER, TarOf(Frozen(t, Doomed(items)), order)) == Step(Frozen(t, Doomed(items)), Ok)
  {
    CutKeeps(t, Removed(t, Doomed(items)));
    TarUntarRoundTrip(Frozen(t, Doomed(items)), order);
  }
}
