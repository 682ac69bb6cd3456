/** Layer archives: what `Untar`, `UntarLayer` and `TarLayer` do entry by entry.
    The functions say what each call does to a tree; the class does it in place. */
module Archive {
  import opened Strings
  import opened FileTree

  datatype Kind = TypeDir | TypeReg | TypeSymlink | TypeLink | TypeOther

  /** A tar header with the content that follows it. */
  datatype Header = Header(kind: Kind, name: string, link: string, body: Bytes)

  const MARK := ".wh"
  const MARK_DOT := ".wh."
  const ARCH := "bin/arch"

  /** The whiteout test of `UntarLayer`: ".wh" rather than ".wh.". */
  predicate IsMarker(p: Path) {
    p != ROOT && MARK <= p[|p| - 1]
  }

  /** What the marker `p` deletes. A bare ".wh." names its own directory; deleting
      "." is an error the code drops; ".." is not modelled. */
  function Marked(p: Path): Option<seq<Path>>
    requires IsMarker(p)
  {
    var name := TrimPrefix(p[|p| - 1], MARK_DOT);
    if name == "" then Some([Parent(p)])
    else if name == "." then Some([])
    else if name == ".." then None
    else Some([Parent(p) + [name]])
  }

  /** The removals a whiteout entry at `p` asks for, in order. */
  function Removals(h: Header, p: Path): Option<seq<Path>>
    requires IsMarker(p)
  {
    if h.kind == TypeReg then
      match Marked(p)
      case None => None
      case Some(ps) => Some(ps + [p])
    else
      match Clean(h.link)
      case None => None
      case Some(l) =>
        if IsMarker(l) then
          match Marked(l)
          case None => None
          case Some(ps) => Some(ps + [l, p])
        else Some([p])
  }

  function RemoveEach(t: Tree, ps: seq<Path>): Step {
    if ps == [] then Step(t, Ok)
    else
      var s := RemoveAll(t, ps[0]);
      if s.outcome == Ok then RemoveEach(s.tree, ps[1..]) else s
  }

  /** Both extractors: a directory that is not there yet is made. */
  function PutDir(t: Tree, p: Path): Step {
    match Stat(t, p)
    case Found(_) => Step(t, Ok)
    case Follows => Step(t, Unmodelled)
    case Absent => MkdirAll(t, p)
  }

  /** One entry of `UntarLayer`. */
  function LayerStep(t: Tree, h: Header): Step {
    match Clean(h.name)
    case None => Step(t, Unmodelled)
    case Some(p) =>
      match h.kind
      case TypeDir => PutDir(t, p)
      case TypeOther => Step(t, Ok)
      case _ =>
        if IsMarker(p) then
          match Removals(h, p)
          case None => Step(t, Unmodelled)
          case Some(ps) => RemoveEach(t, ps)
        else if h.kind == TypeReg then WriteFile(t, p, h.body, true)
        else Symlink(t, p, h.link)
  }

  /** The bytes `os.Open` and `io.Copy` read at `p`. */
  function ReadFile(t: Tree, p: Path): (Bytes, Outcome) {
    match WayTo(t, p)
    case Missing => ([], Error(NoEntry))
    case Blocked => ([], Error(NotDirectory))
    case Linked => ([], Unmodelled)
    case Clear =>
      if p !in t then ([], Error(NoEntry))
      else match t[p]
        case File(data) => (data, Ok)
        case Dir => ([], Error(IsDirectory))
        case Link(_) => ([], Unmodelled)
  }

  /** A hard link to bin/arch becomes a copy; the target is created before the
      source is opened. */
  function CopyArch(t: Tree, p: Path): Step {
    var made := WriteFile(t, p, [], false);
    if made.outcome != Ok then made
    else
      var (data, outcome) := ReadFile(made.tree, ["bin", "arch"]);
      if outcome != Ok then Step(made.tree, outcome) else WriteFile(made.tree, p, data, false)
  }

  /** One entry of `Untar`: no whiteouts, no truncation. */
  function UntarStep(t: Tree, h: Header): Step {
    match Clean(h.name)
    case None => Step(t, Unmodelled)
    case Some(p) =>
      match h.kind
      case TypeDir => PutDir(t, p)
      case TypeReg => WriteFile(t, p, h.body, false)
      case TypeSymlink => Symlink(t, p, h.link)
      case TypeLink => if h.link == ARCH then CopyArch(t, p) else Symlink(t, p, h.link)
      case TypeOther => Step(t, Ok)
  }

  function LayerRun(t: Tree, hs: seq<Header>): Step
    decreases |hs|
  {
    if hs == [] then Step(t, Ok)
    else
      var s := LayerStep(t, hs[0]);
      if s.outcome == Ok then LayerRun(s.tree, hs[1..]) else s
  }

  function UntarRun(t: Tree, hs: seq<Header>): Step
    decreases |hs|
  {
    if hs == [] then Step(t, Ok)
    else
      var s := UntarStep(t, hs[0]);
      if s.outcome == Ok then UntarRun(s.tree, hs[1..]) else s
  }

  /** `DockerMerge`: every layer of the image, bottom first, into one folder. */
  function MergeRun(t: Tree, layers: seq<seq<Header>>): Step
    decreases |layers|
  {
    if layers == [] then Step(t, Ok)
    else
      var s := LayerRun(t, layers[0]);
      if s.outcome == Ok then MergeRun(s.tree, layers[1..]) else s
  }

  /** The headers `TarLayer` writes for one path. A symbolic link gets two: the
      first carries its target, the second its own name. */
  function EntriesOf(p: Path, n: Node): seq<Header>
    requires p != ROOT
  {
    match n
    case Dir => [Header(TypeDir, Render(p), "", [])]
    case File(data) => [Header(TypeReg, Render(p), "", data)]
    case Link(target) =>
      [Header(TypeSymlink, Render(p), target, []), Header(TypeSymlink, Render(p), p[|p| - 1], [])]
  }

  /** The order in which `filepath.Walk` visits a folder: every path once, a
      directory before what it holds. (Walk also sorts names; nothing needs it.) */
  ghost predicate WalkOrder(t: Tree, order: seq<Path>) {
    && (forall i | 0 <= i < |order| :: order[i] in t && order[i] != ROOT)
    && (forall p | p in t && p != ROOT :: p in order)
    && (forall i, j | 0 <= i < j < |order| :: !(order[j] <= order[i]))
  }

  function TarOf(t: Tree, order: seq<Path>): seq<Header>
    requires forall i | 0 <= i < |order| :: order[i] in t && order[i] != ROOT
  {
    if order == [] then []
    else EntriesOf(order[0], t[order[0]]) + TarOf(t, order[1..])
  }

  lemma TarOfNext(t: Tree, order: seq<Path>, before: seq<Header>)
    requires order != []
    requires forall i | 0 <= i < |order| :: order[i] in t && order[i] != ROOT
    ensures before + EntriesOf(order[0], t[order[0]]) + TarOf(t, order[1..]) == before + TarOf(t, order)
  {
  }

  lemma {:induction false} Longest(ps: set<Path>) returns (p: Path)
    requires ps != {}
    ensures p in ps && forall q | q in ps :: |q| <= |p|
    decreases |ps|
  {
    var q :| q in ps;
    p := q;
    if ps != {q} {
      var r := Longest(ps - {q});
      if |r| > |q| { p := r; }
      assert forall o | o in ps :: o == q || o in ps - {q};
    }
  }

  /** Taking away a deepest path leaves a folder. */
  lemma LeafOff(t: Tree, p: Path)
    requires Folder(t) && p in t && p != ROOT && forall q | q in t :: |q| <= |p|
    ensures Folder(t - {p})
  {
    var t' := t - {p};
    forall q | q in t' && q != ROOT ensures Parent(q) in t' && t'[Parent(q)].Dir? {
      assert |Parent(q)| < |q| <= |p|;
    }
  }

  lemma NoPrefix(p: Path, q: Path)
    requires |q| <= |p| && q != p
    ensures !(p <= q)
  {
    assert |q| == |p| ==> p != q[..|p|];
  }

  lemma WalkLast(t: Tree, front: seq<Path>, p: Path)
    requires p in t && p != ROOT && (forall q | q in t :: |q| <= |p|) && WalkOrder(t - {p}, front)
    ensures WalkOrder(t, front + [p])
  {
    var order := front + [p];
    forall q | q in t && q != ROOT ensures q in order {
      if q != p { assert q in t - {p} && q in front; }
    }
    forall i, j | 0 <= i < j < |order| ensures !(order[j] <= order[i]) {
      if j == |front| {
        assert front[i] in t - {p};
        NoPrefix(p, front[i]);
      }
    }
  }

  /** Every folder can be walked. */
  lemma {:induction false} WalkExists(t: Tree) returns (order: seq<Path>)
    requires Folder(t)
    ensures WalkOrder(t, order)
    decreases |t.Keys|
  {
    if t.Keys == {ROOT} {
      order := [];
    } else {
      assert t.Keys == {ROOT} + (t.Keys - {ROOT});
      var p := Longest(t.Keys - {ROOT});
      assert forall q | q in t :: q == ROOT || q in t.Keys - {ROOT};
      LeafOff(t, p);
      assert (t - {p}).Keys == t.Keys - {p};
      var front := WalkExists(t - {p});
      WalkLast(t, front, p);
      order := front + [p];
    }
  }

  // ----- the code, in place -----

  class LayerFolder {
    var tree: Tree

    constructor ()
      ensures tree == EMPTY_FOLDER
    {
      tree := EMPTY_FOLDER;
    }

    method Call(s: Step) returns (outcome: Outcome)
      modifies this
      ensures tree == s.tree && outcome == s.outcome
    {
      tree := s.tree;
      outcome := s.outcome;
    }

    method Remove(ps: seq<Path>) returns (outcome: Outcome)
      modifies this
      ensures Step(tree, outcome) == RemoveEach(old(tree), ps)
    {
      for i := 0 to |ps|
        invariant RemoveEach(tree, ps[i..]) == RemoveEach(old(tree), ps)
      {
        outcome := Call(RemoveAll(tree, ps[i]));
        if outcome != Ok { return; }
        assert ps[i..][1..] == ps[i + 1..];
      }
      return Ok;
    }

    method UntarLayer(hs: seq<Header>) returns (outcome: Outcome)
      modifies this
      ensures Step(tree, outcome) == LayerRun(old(tree), hs)
    {
      for i := 0 to |hs|
        invariant LayerRun(tree, hs[i..]) == LayerRun(old(tree), hs)
      {
        var h := hs[i];
        assert hs[i..][1..] == hs[i + 1..];
        var target := Clean(h.name);
        if target == None { return Unmodelled; }
        var p := target.value;
        if h.kind == TypeDir {
          var found := Stat(tree, p);
          if found == Follows { return Unmodelled; }
          if found == Absent {
            outcome := Call(MkdirAll(tree, p));
            if outcome != Ok { return; }
          }
        } else if h.kind != TypeOther {
          if IsMarker(p) {
            var doomed := Removals(h, p);
            if doomed == None { return Unmodelled; }
            outcome := Remove(doomed.value);
          } else if h.kind == TypeReg {
            outcome := Call(WriteFile(tree, p, h.body, true));
          } else {
            outcome := Call(Symlink(tree, p, h.link));
          }
          if outcome != Ok { return; }
        }
      }
      return Ok;
    }

    method Untar(hs: seq<Header>) returns (outcome: Outcome)
      modifies this
      ensures Step(tree, outcome) == UntarRun(old(tree), hs)
    {
      for i := 0 to |hs|
        invariant UntarRun(tree, hs[i..]) == UntarRun(old(tree), hs)
      {
        var h := hs[i];
        assert hs[i..][1..] == hs[i + 1..];
        var target := Clean(h.name);
        if target == None { return Unmodelled; }
        var p := target.value;
        if h.kind == TypeDir {
          var found := Stat(tree, p);
          if found == Follows { return Unmodelled; }
          if found == Absent {
            outcome := Call(MkdirAll(tree, p));
            if outcome != Ok { return; }
          }
        } else if h.kind == TypeReg {
          outcome := Call(WriteFile(tree, p, h.body, false));
          if outcome != Ok { return; }
        } else if h.kind == TypeLink && h.link == ARCH {
          outcome := Call(WriteFile(tree, p, [], false));
          if outcome != Ok { return; }
          var (data, read) := ReadFile(tree, ["bin", "arch"]);
          if read != Ok { return read; }
          outcome := Call(WriteFile(tree, p, data, false));
          if outcome != Ok { return; }
        } else if h.kind != TypeOther {
          outcome := Call(Symlink(tree, p, h.link));
          if outcome != Ok { return; }
        }
      }
      return Ok;
    }

    /** The walk function of `TarLayer`: a link is written once with its target, and then
        again like everything else. */
    static method Headers(p: Path, n: Node) returns (own: seq<Header>)
      requires p != ROOT
      ensures own == EntriesOf(p, n)
    {
      own := [];
      if n.Link? { own := own + [Header(TypeSymlink, Render(p), n.target, [])]; }
      if n.Link? {
        own := own + [Header(TypeSymlink, Render(p), p[|p| - 1], [])];
      } else if n.Dir? {
        own := own + [Header(TypeDir, Render(p), "", [])];
      } else {
        own := own + [Header(TypeReg, Render(p), "", n.data)];
      }
    }

    method TarLayer(order: seq<Path>) returns (hs: seq<Header>)
      requires WalkOrder(tree, order)
      ensures hs == TarOf(tree, order)
    {
      hs := [];
      for i := 0 to |order|
        invariant hs + TarOf(tree, order[i..]) == TarOf(tree, order)
      {
        var own := Headers(order[i], tree[order[i]]);
        TarOfNext(tree, order[i..], hs);
        assert order[i..][1..] == order[i + 1..];
        hs := hs + own;
      }
      assert order[|order|..] == [];
    }

    /** The extraction loop of `DockerMerge`. */
    method Merge(layers: seq<seq<Header>>) returns (outcome: Outcome)
      modifies this
      ensures Step(tree, outcome) == MergeRun(old(tree), layers)
    {
      for i := 0 to |layers|
        invariant MergeRun(tree, layers[i..]) == MergeRun(old(tree), layers)
      {
        outcome := UntarLayer(layers[i]);
        assert layers[i..][1..] == layers[i + 1..];
        if outcome != Ok { return; }
      }
      return Ok;
    }
  }

  // ----- trees stay closed -----

  lemma {:induction false} RemoveEachKeeps(t: Tree, ps: seq<Path>)
    requires Closed(t)
    ensures Closed(RemoveEach(t, ps).tree)
  {
    if ps != [] {
      WithoutKeeps(t, ps[0]);
      RemoveEachKeeps(RemoveAll(t, ps[0]).tree, ps[1..]);
    }
  }

  lemma LayerStepKeeps(t: Tree, h: Header)
    requires Closed(t)
    ensures Closed(LayerStep(t, h).tree)
  {
    if Clean(h.name).Some? {
      var p := Clean(h.name).value;
      if h.kind == TypeDir {
        MkdirAllKeeps(t, p);
      } else if h.kind != TypeOther {
        if IsMarker(p) {
          if Removals(h, p).Some? { RemoveEachKeeps(t, Removals(h, p).value); }
        } else if h.kind == TypeReg {
          WriteFileKeeps(t, p, h.body, true);
        } else {
          SymlinkKeeps(t, p, h.link);
        }
      }
    }
  }

  /** `UntarLayer` leaves a closed tree after any entries at all, hence after every
      prefix of a layer, whiteout removals and failed runs included. */
  lemma {:induction false} LayerRunKeeps(t: Tree, hs: seq<Header>)
    requires Closed(t)
    ensures Closed(LayerRun(t, hs).tree)
    decreases |hs|
  {
    if hs != [] {
      LayerStepKeeps(t, hs[0]);
      LayerRunKeeps(LayerStep(t, hs[0]).tree, hs[1..]);
    }
  }

  lemma CopyArchKeeps(t: Tree, p: Path)
    requires Closed(t)
    ensures Closed(CopyArch(t, p).tree)
  {
    var made := WriteFile(t, p, [], false).tree;
    WriteFileKeeps(t, p, [], false);
    WriteFileKeeps(made, p, ReadFile(made, ["bin", "arch"]).0, false);
  }

  lemma UntarStepKeeps(t: Tree, h: Header)
    requires Closed(t)
    ensures Closed(UntarStep(t, h).tree)
  {
    if Clean(h.name).Some? {
      var p := Clean(h.name).value;
      match h.kind
      case TypeDir => MkdirAllKeeps(t, p);
      case TypeReg => WriteFileKeeps(t, p, h.body, false);
      case TypeSymlink => SymlinkKeeps(t, p, h.link);
      case TypeLink => SymlinkKeeps(t, p, h.link); CopyArchKeeps(t, p);
      case TypeOther =>
    }
  }

  lemma {:induction false} UntarRunKeeps(t: Tree, hs: seq<Header>)
    requires Closed(t)
    ensures Closed(UntarRun(t, hs).tree)
    decreases |hs|
  {
    if hs != [] {
      UntarStepKeeps(t, hs[0]);
      UntarRunKeeps(UntarStep(t, hs[0]).tree, hs[1..]);
    }
  }

  /** Over an existing file `UntarLayer` puts the body alone; `Untar` leaves the old bytes
      that lie beyond it. */
  lemma OnlyLayersTruncate(t: Tree, h: Header, p: Path)
    requires Closed(t) && h.kind == TypeReg && Clean(h.name) == Some(p) && !IsMarker(p)
    requires p in t && t[p].File?
    ensures LayerStep(t, h) == Step(t[p := File(h.body)], Ok)
    ensures var was := t[p].data;
            UntarStep(t, h) == Step(t[p := File(h.body + if |h.body| < |was| then was[|h.body|..] else [])], Ok)
  {
    WayInside(t, p);
  }

  /** A hard link to bin/arch becomes a file of its own with the same bytes. */
  lemma ArchIsCopied(t: Tree, h: Header, p: Path)
    requires Folder(t) && h.kind == TypeLink && h.link == "bin/arch" && Clean(h.name) == Some(p)
    requires p != ROOT && p !in t && Parent(p) in t && t[Parent(p)].Dir?
    requires ["bin", "arch"] in t && t[["bin", "arch"]].File?
    ensures UntarStep(t, h) == Step(t[p := t[["bin", "arch"]]], Ok)
  {
    var arch: Path := ["bin", "arch"];
    WayBeside(t, p);
    var made := t[p := File([])];
    assert WriteFile(t, p, [], false) == Step(made, Ok);
    WriteFileKeeps(t, p, [], false);
    WayInside(made, arch);
    WayInside(made, p);
    assert ReadFile(made, arch) == (t[arch].data, Ok);
    assert Overwrite([], t[arch].data) == t[arch].data;
  }
}
