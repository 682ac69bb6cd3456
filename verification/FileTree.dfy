/** A folder on disk as a finite map from relative paths to nodes, and the system
    calls the archive code makes on it. A call that would have to follow a symbolic
    link is `Unmodelled`: what it reaches lies outside the map. */
module FileTree {
  import opened Strings

  type Path = seq<string>
  type Bytes = seq<bv8>

  datatype Node = File(data: Bytes) | Dir | Link(target: string)

  type Tree = map<Path, Node>

  datatype Fault = NoEntry | NotDirectory | IsDirectory

  datatype Outcome = Ok | Error(fault: Fault) | Unmodelled

  /** What a call leaves behind: the tree, and whether the caller goes on. */
  datatype Step = Step(tree: Tree, outcome: Outcome)

  const ROOT: Path := []

  /** The folder that `CreateTempDir` or `MakeDir` has just made. */
  const EMPTY_FOLDER: Tree := map[ROOT := Dir]

  function Parent(p: Path): Path
    requires p != ROOT
  {
    p[..|p| - 1]
  }

  function Look(t: Tree, p: Path): Option<Node> {
    if p in t then Some(t[p]) else None
  }

  /** A name a directory entry can have. */
  predicate LegalName(n: string) {
    n != "" && n != "." && n != ".." && '/' !in n
  }

  predicate Legal(p: Path) {
    forall i | 0 <= i < |p| :: LegalName(p[i])
  }

  /** Every present path has a present directory as its parent. */
  ghost predicate Closed(t: Tree) {
    forall p | p in t && p != ROOT :: Parent(p) in t && t[Parent(p)].Dir?
  }

  /** A closed tree under a folder that is there. */
  ghost predicate Folder(t: Tree) {
    Closed(t) && ROOT in t && t[ROOT].Dir?
  }

  /** `filepath.Join(folder, raw)` as a path below the folder; `None` when a ".."
      climbs out of it. */
  function Clean(raw: string): Option<Path> {
    Climb(Split(raw, '/'), ROOT)
  }

  function Climb(parts: seq<string>, at: Path): Option<Path> {
    if parts == [] then Some(at)
    else if parts[0] == "" || parts[0] == "." then Climb(parts[1..], at)
    else if parts[0] == ".." then
      if at == ROOT then None else Climb(parts[1..], Parent(at))
    else Climb(parts[1..], at + [parts[0]])
  }

  /** A path as `filepath.Walk` reports it, the source folder trimmed off. */
  function Render(p: Path): string {
    "/" + Join(p, '/')
  }

  lemma {:induction false} ClimbLegal(parts: seq<string>, at: Path)
    requires Legal(parts)
    ensures Climb(parts, at) == Some(at + parts)
  {
    if parts != [] {
      assert LegalName(parts[0]);
      ClimbLegal(parts[1..], at + [parts[0]]);
      assert at + [parts[0]] + parts[1..] == at + parts;
    } else {
      assert at + parts == at;
    }
  }

  /** Joining a rendered path to the folder gives the path back. */
  lemma CleanRender(p: Path)
    requires Legal(p)
    ensures Clean(Render(p)) == Some(p)
  {
    SplitCons("", Join(p, '/'), '/');
    assert Render(p) == "" + ['/'] + Join(p, '/');
    if p == [] {
      assert Split("", '/') == [""];
      assert Climb(["", ""], ROOT) == Climb([""], ROOT) == Climb([], ROOT);
    } else {
      assert Free(p, '/') by {
        assert forall i | 0 <= i < |p| :: LegalName(p[i]);
      }
      SplitJoin(p, '/');
      assert ([""] + p)[1..] == p;
      ClimbLegal(p, ROOT);
      assert ROOT + p == p;
    }
  }

  lemma {:induction false} ClimbSnoc(parts: seq<string>, last: string, at: Path)
    ensures Climb(parts + [last], at) == match Climb(parts, at)
                                         case None => None
                                         case Some(p) => Climb([last], p)
  {
    if parts != [] {
      assert (parts + [last])[1..] == parts[1..] + [last];
      var next := if parts[0] == "" || parts[0] == "." then at
                  else if parts[0] == ".." && at != ROOT then Parent(at)
                  else at + [parts[0]];
      if parts[0] != ".." || at != ROOT { ClimbSnoc(parts[1..], last, next); }
    } else {
      assert parts + [last] == [last];
    }
  }

  lemma ClimbOne(part: string, at: Path)
    ensures Climb([part], at) == if part == "" || part == "." then Some(at)
                                 else if part == ".." then (if at == [] then None else Some(at[..|at| - 1]))
                                 else Some(at + [part])
  {
    assert [part][1..] == [];
    assert forall p :: Climb([], p) == Some(p);
  }

  /** What each part of a path does to what stands before it: blank and "." nothing, ".." goes
      up, which leaves the folder at its root, and any other name goes down. */
  lemma CleanNext(raw: string, part: string)
    requires '/' !in part
    ensures Clean("") == Some([])
    ensures Clean(raw + "/" + part) == match Clean(raw)
              case None => None
              case Some(p) => if part == "" || part == "." then Some(p)
                              else if part == ".." then (if p == [] then None else Some(p[..|p| - 1]))
                              else Some(p + [part])
    ensures Clean(part) == if part == "" || part == "." then Some([]) else if part == ".." then None else Some([part])
  {
    SplitSnoc(raw, part, '/');
    ClimbSnoc(Split(raw, '/'), part, ROOT);
    SplitFree(part, '/');
    assert Split("", '/') == [""];
    ClimbOne("", ROOT);
    ClimbOne(part, ROOT);
    assert ROOT + [part] == [part];
    if Clean(raw).Some? { ClimbOne(part, Clean(raw).value); }
  }

  /** A rendered path: a slash and a name for every directory on the way. */
  lemma RenderNext(p: Path, name: string)
    ensures Render([name]) == "/" + name
    ensures p != [] ==> Render(p + [name]) == Render(p) + "/" + name
  {
    if p != [] { JoinSnoc(p, name, '/'); }
  }

  lemma {:induction false} JoinSnoc(parts: seq<string>, last: string, sep: char)
    requires parts != []
    ensures Join(parts + [last], sep) == Join(parts, sep) + [sep] + last
  {
    assert (parts + [last])[1..] == parts[1..] + [last];
    if |parts| > 1 { JoinSnoc(parts[1..], last, sep); }
  }

  // ----- resolving a path -----

  datatype Way = Clear | Missing | Blocked | Linked

  /** How far the directories above `p` can be walked. */
  function WayTo(t: Tree, p: Path): Way
    decreases |p|
  {
    if p == ROOT then Clear
    else match WayTo(t, Parent(p))
      case Clear =>
        if Parent(p) !in t then Missing
        else (match t[Parent(p)]
          case Dir => Clear
          case File(_) => Blocked
          case Link(_) => Linked)
      case other => other
  }

  /** Nothing lies below a path that is no directory. */
  lemma {:induction false} NothingBelow(t: Tree, d: Path, p: Path)
    requires Closed(t) && p in t && (d in t ==> !t[d].Dir?)
    ensures !(d < p) && (d <= p ==> d == p)
    decreases |p|
  {
    assert |d| == |p| && d <= p ==> d == p;
    if d < p && d != Parent(p) {
      assert d < Parent(p);
      NothingBelow(t, d, Parent(p));
    }
  }

  /** In a closed tree all that lies above a path is there as a directory. */
  lemma {:induction false} AboveIn(t: Tree, a: Path, p: Path)
    requires Closed(t) && p in t && a < p
    ensures a in t && t[a].Dir?
    decreases |p|
  {
    if a != Parent(p) {
      assert a < Parent(p);
      AboveIn(t, a, Parent(p));
    }
  }

  lemma {:induction false} WayInside(t: Tree, p: Path)
    requires Closed(t) && p in t
    ensures WayTo(t, p) == Clear
    decreases |p|
  {
    if p != ROOT { WayInside(t, Parent(p)); }
  }

  /** In a closed tree the parent alone tells how a path resolves. */
  lemma WayBeside(t: Tree, p: Path)
    requires Closed(t) && p != ROOT && Parent(p) in t
    ensures WayTo(t, p) == (match t[Parent(p)] case Dir => Clear case File(_) => Blocked case Link(_) => Linked)
  {
    WayInside(t, Parent(p));
  }

  /** A path leads through a link exactly when a link lies above it. */
  lemma {:induction false} LinkedIff(t: Tree, p: Path)
    requires Folder(t)
    ensures WayTo(t, p) == Linked <==> exists k :: 0 <= k < |p| && p[..k] in t && t[p[..k]].Link?
    decreases |p|
  {
    if p != ROOT {
      var above := Parent(p);
      LinkedIff(t, above);
      assert forall k | 0 <= k < |above| :: above[..k] == p[..k];
      if k :| 0 <= k < |p| && p[..k] in t && t[p[..k]].Link? {
        if k < |above| { assert above[..k] in t && t[above[..k]].Link?; } else { WayInside(t, above); }
      }
      if WayTo(t, p) == Linked && WayTo(t, above) != Linked { assert p[..|above|] == above; }
    }
  }

  datatype Stated = Found(node: Node) | Absent | Follows

  /** `os.Stat`, which follows a link in last position too. */
  function Stat(t: Tree, p: Path): Stated {
    match WayTo(t, p)
    case Clear => if p !in t then Absent else if t[p].Link? then Follows else Found(t[p])
    case Linked => Follows
    case _ => Absent
  }

  // ----- system calls -----

  /** `os.MkdirAll`. */
  function MkdirAll(t: Tree, p: Path): Step
    decreases |p|
  {
    match Stat(t, p)
    case Found(Dir) => Step(t, Ok)
    case Found(_) => Step(t, Error(NotDirectory))
    case Follows => Step(t, Unmodelled)
    case Absent =>
      if p == ROOT then Step(t[p := Dir], Ok)
      else
        var above := MkdirAll(t, Parent(p));
        if above.outcome == Ok then Step(above.tree[p := Dir], Ok) else above
  }

  /** `os.OpenFile` with O_CREATE|O_RDWR, with or without O_TRUNC, and `io.Copy` into it. */
  function WriteFile(t: Tree, p: Path, body: Bytes, truncate: bool): Step {
    match WayTo(t, p)
    case Missing => Step(t, Error(NoEntry))
    case Blocked => Step(t, Error(NotDirectory))
    case Linked => Step(t, Unmodelled)
    case Clear =>
      if p !in t then Step(t[p := File(body)], Ok)
      else match t[p]
        case File(was) => Step(t[p := File(if truncate then body else Overwrite(was, body))], Ok)
        case Dir => Step(t, Error(IsDirectory))
        case Link(_) => Step(t, Unmodelled)
  }

  /** `os.Symlink` with its error dropped: it never replaces what is there, and an
      empty target is refused. */
  function Symlink(t: Tree, p: Path, target: string): Step {
    if target == "" then Step(t, Ok)
    else match WayTo(t, p)
      case Linked => Step(t, Unmodelled)
      case Clear => Step(if p in t then t else t[p := Link(target)], Ok)
      case _ => Step(t, Ok)
  }

  function Without(t: Tree, p: Path): Tree {
    t - set q | q in t && p <= q
  }

  /** `os.RemoveAll` with its error dropped. */
  function RemoveAll(t: Tree, p: Path): Step {
    if WayTo(t, p) == Linked then Step(t, Unmodelled) else Step(Without(t, p), Ok)
  }

  // ----- every call keeps a tree closed -----

  lemma {:induction false} MkdirAllKeeps(t: Tree, p: Path)
    requires Closed(t)
    ensures var r := MkdirAll(t, p);
            Closed(r.tree) && (r.outcome == Ok ==> p in r.tree && r.tree[p].Dir?)
    ensures var r := MkdirAll(t, p);
            forall q | q in t :: q in r.tree && r.tree[q] == t[q]
    decreases |p|
  {
    if Stat(t, p) == Absent {
      if p in t { WayInside(t, p); }
      if p != ROOT {
        MkdirAllKeeps(t, Parent(p));
        var above := MkdirAll(t, Parent(p));
        if above.outcome == Ok {
          var r := above.tree[p := Dir];
          forall q | q in r && q != ROOT ensures Parent(q) in r && r[Parent(q)].Dir? {
            assert q != p ==> q in above.tree;
          }
        }
      }
    }
  }

  /** Making a directory adds only what leads to it. */
  lemma {:induction false} MkdirAllAdds(t: Tree, p: Path)
    ensures forall q | q in MkdirAll(t, p).tree :: q in t || q <= p
    decreases |p|
  {
    if Stat(t, p) == Absent && p != ROOT {
      MkdirAllAdds(t, Parent(p));
    }
  }

  lemma WriteFileKeeps(t: Tree, p: Path, body: Bytes, truncate: bool)
    requires Closed(t)
    ensures Closed(WriteFile(t, p, body, truncate).tree)
  {
  }

  lemma SymlinkKeeps(t: Tree, p: Path, target: string)
    requires Closed(t)
    ensures Closed(Symlink(t, p, target).tree)
  {
  }

  lemma WithoutKeeps(t: Tree, p: Path)
    requires Closed(t)
    ensures Closed(Without(t, p))
  {
    var r := Without(t, p);
    forall q | q in r && q != ROOT ensures Parent(q) in r && r[Parent(q)].Dir? {
      assert p <= Parent(q) ==> p <= q;
    }
  }
}
