/** The other view of an image: layers kept in their own folders and searched from the
    top (`ReverseStrArray`, `GuessPathContainer`, `GuessPathsContainer`). */
module UnionLookup {
  import opened Strings
  import opened FileTree
  import opened Archive
  import opened Changeset
  import opened LayerMerge
  import opened Unpacking

  method ReverseStrArray(input: array<string>)
    modifies input
    ensures input[..] == Reverse(old(input[..]))
  {
    var n := input.Length;
    for i := 0 to n / 2
      invariant forall k :: 0 <= k < i || n - i <= k < n ==> input[k] == old(input[n - 1 - k])
      invariant forall k :: i <= k < n - i ==> input[k] == old(input[k])
    {
      var j := n - i - 1;
      input[i], input[j] := input[j], input[i];
    }
  }

  // ----- what lstat reports -----

  datatype FileType = Gone | Regular | Directory | SymLink | Pipe | Socket | Other

  predicate FileExist(k: FileType) {
    k in {Regular, Socket, Other, SymLink}
  }

  predicate FolderExist(k: FileType) {
    k == Directory
  }

  predicate Wanted(k: FileType, file: bool) {
    if file then FileExist(k) else FolderExist(k)
  }

  /** `strings.Replace(s, c, "", -1)`. */
  function Drop(s: string, c: char): string {
    if s == "" then "" else (if s[0] == c then "" else [s[0]]) + Drop(s[1..], c)
  }

  predicate IsAbs(s: string) {
    "/" <= s
  }

  /** A request without a mark that names a path below the layers. */
  predicate Relative(inp: string) {
    !("$" <= inp) && !("^" <= inp) && TrimSpace(inp) != "all" && !IsAbs(inp)
  }

  function PathIn(base: string, layer: string, inp: string): string {
    base + "/" + layer + "/" + inp
  }

  function HitAt(lstat: string -> FileType, tpath: string, file: bool): seq<string> {
    if Wanted(lstat(tpath), file) then [tpath] else []
  }

  function Hits(lstat: string -> FileType, base: string, layers: seq<string>, inp: string, file: bool): seq<string> {
    if layers == [] then []
    else HitAt(lstat, PathIn(base, layers[0], inp), file) + Hits(lstat, base, layers[1..], inp, file)
  }

  /** Every path a request can mean, best first. */
  function Guesses(lstat: string -> FileType, base: string, layers: seq<string>, inp: string, file: bool): seq<string> {
    if "$" <= inp then [Drop(inp, '$')]
    else
      var marked := "^" <= inp;
      var name := if marked then Drop(inp, '^') else inp;
      if TrimSpace(name) == "all" then [name]
      else if IsAbs(name) then (if Wanted(lstat(name), file || marked) then [name] else [])
      else Hits(lstat, base, layers, name, file || marked)
  }

  /** Stops at the first layer that has the path. */
  method GuessPathContainer(lstat: string -> FileType, base: string, layers: seq<string>, inp: string, file: bool)
    returns (found: Option<string>)
    ensures var all := Guesses(lstat, base, layers, inp, file);
            found == if all == [] then None else Some(all[0])
  {
    if "$" <= inp { return Some(Drop(inp, '$')); }
    var name, wantFile := inp, file;
    if "^" <= inp {
      name := Drop(inp, '^');
      wantFile := true;
    }
    if TrimSpace(name) == "all" { return Some(name); }
    if IsAbs(name) {
      if (wantFile && FileExist(lstat(name))) || (!wantFile && FolderExist(lstat(name))) { return Some(name); }
    } else {
      for i := 0 to |layers|
        invariant Hits(lstat, base, layers[i..], name, wantFile) == Hits(lstat, base, layers, name, wantFile)
      {
        var tpath := PathIn(base, layers[i], name);
        assert layers[i..][1..] == layers[i + 1..];
        if (wantFile && FileExist(lstat(tpath))) || (!wantFile && FolderExist(lstat(tpath))) { return Some(tpath); }
      }
    }
    return None;
  }

  method CollectHits(lstat: string -> FileType, base: string, layers: seq<string>, name: string, wantFile: bool)
    returns (found: seq<string>)
    ensures found == Hits(lstat, base, layers, name, wantFile)
  {
    found := [];
    for i := 0 to |layers|
      invariant found + Hits(lstat, base, layers[i..], name, wantFile) == Hits(lstat, base, layers, name, wantFile)
    {
      var tpath := PathIn(base, layers[i], name);
      Assoc(found, HitAt(lstat, tpath, wantFile), Hits(lstat, base, layers[i + 1..], name, wantFile));
      assert layers[i..][1..] == layers[i + 1..] && layers[i..][0] == layers[i];
      if (wantFile && FileExist(lstat(tpath))) || (!wantFile && FolderExist(lstat(tpath))) {
        found := found + [tpath];
      } else {
        assert found + [] == found;
      }
    }
    assert found + [] == found;
  }

  /** Collects from every layer; fails when nothing was found. */
  method GuessPathsContainer(lstat: string -> FileType, base: string, layers: seq<string>, inp: string, file: bool)
    returns (found: seq<string>, ok: bool)
    ensures found == Guesses(lstat, base, layers, inp, file)
    ensures ok <==> found != []
  {
    if "$" <= inp { return [Drop(inp, '$')], true; }
    var name, wantFile := inp, file;
    if "^" <= inp {
      name := Drop(inp, '^');
      wantFile := true;
    }
    found := [];
    if TrimSpace(name) == "all" { return [name], true; }
    if IsAbs(name) {
      if (wantFile && FileExist(lstat(name))) || (!wantFile && FolderExist(lstat(name))) { found := [name]; }
    } else {
      found := CollectHits(lstat, base, layers, name, wantFile);
    }
    ok := found != [];
  }

  /** For every request both searches fail together, and the single answer is the first
      of all answers. */
  method GuessBoth(lstat: string -> FileType, base: string, layers: seq<string>, inp: string, file: bool)
    returns (one: Option<string>, all: seq<string>, ok: bool)
    ensures one.Some? == ok == (all != [])
    ensures ok ==> one.value == all[0]
    ensures (inp == "" || inp[0] !in {'$', '^', '/'}) && !Around(inp, "all") ==>
              && (forall s :: s in all <==> exists i :: 0 <= i < |layers| && HitIn(lstat, base, layers[i], inp, file, s))
              && (ok ==> exists i :: 0 <= i < |layers| && HitIn(lstat, base, layers[i], inp, file, one.value)
                           && forall j | 0 <= j < i :: !HitIn(lstat, base, layers[j], inp, file, base + "/" + layers[j] + "/" + inp))
  {
    one := GuessPathContainer(lstat, base, layers, inp, file);
    all, ok := GuessPathsContainer(lstat, base, layers, inp, file);
    TrimIff(inp, "all");
    if (inp == "" || inp[0] !in {'$', '^', '/'}) && !Around(inp, "all") {
      GuessesRelative(lstat, base, layers, inp, file);
      HitsExact(lstat, base, layers, inp, file);
      if ok { ghost var i := FirstHit(lstat, base, layers, inp, file); }
    }
  }

  /** `s` is the path of `inp` in the layer's folder, and what is there is of the kind looked for:
      anything but a directory or a pipe for a file, a directory for a folder. */
  predicate HitIn(lstat: string -> FileType, base: string, layer: string, inp: string, file: bool, s: string) {
    && s == base + "/" + layer + "/" + inp
    && if file then lstat(s) in {Regular, Socket, Other, SymLink} else lstat(s) == Directory
  }

  lemma {:induction false} HitsExact(lstat: string -> FileType, base: string, layers: seq<string>, inp: string, file: bool)
    ensures forall s :: s in Hits(lstat, base, layers, inp, file) <==>
              exists i :: 0 <= i < |layers| && HitIn(lstat, base, layers[i], inp, file, s)
  {
    if layers != [] {
      HitsExact(lstat, base, layers[1..], inp, file);
      forall s | exists i :: 0 <= i < |layers| && HitIn(lstat, base, layers[i], inp, file, s)
        ensures s in Hits(lstat, base, layers, inp, file)
      {
        var i :| 0 <= i < |layers| && HitIn(lstat, base, layers[i], inp, file, s);
        if i > 0 { assert layers[1..][i - 1] == layers[i]; }
      }
    }
  }

  lemma {:induction false} FirstHit(lstat: string -> FileType, base: string, layers: seq<string>, inp: string, file: bool)
    returns (i: nat)
    requires Hits(lstat, base, layers, inp, file) != []
    ensures i < |layers| && HitIn(lstat, base, layers[i], inp, file, Hits(lstat, base, layers, inp, file)[0])
    ensures forall j | 0 <= j < i :: !HitIn(lstat, base, layers[j], inp, file, base + "/" + layers[j] + "/" + inp)
  {
    i := 0;
    if HitAt(lstat, PathIn(base, layers[0], inp), file) == [] {
      assert Hits(lstat, base, layers, inp, file) == Hits(lstat, base, layers[1..], inp, file);
      i := FirstHit(lstat, base, layers[1..], inp, file);
      assert forall j | 0 < j < |layers| :: layers[j] == layers[1..][j - 1];
      i := i + 1;
    }
  }

  function Concat(parts: seq<string>): string {
    if parts == [] then "" else parts[0] + Concat(parts[1..])
  }

  /** Dropping a mark leaves the pieces between the marks. */
  lemma {:induction false} DropIs(s: string, c: char)
    ensures Drop(s, c) == Concat(Split(s, c))
  {
    if s != "" {
      DropIs(s[1..], c);
      var rest := Split(s[1..], c);
      if s[0] == c {
        assert ([""] + rest)[1..] == rest;
      } else {
        var parts := [[s[0]] + rest[0]] + rest[1..];
        assert parts[1..] == rest[1..] && Concat(parts) == ([s[0]] + rest[0]) + Concat(rest[1..]);
      }
    }
  }

  lemma {:induction false} DropFree(s: string, c: char)
    ensures c !in Drop(s, c) && (c !in s ==> Drop(s, c) == s)
  {
    if s != "" { DropFree(s[1..], c); }
  }

  lemma DropFirst(a: string, c: char)
    ensures Drop([c] + a, c) == Drop(a, c)
  {
    assert ([c] + a)[1..] == a;
  }

  /** After "$", the rest less its marks, whether it is there or not. */
  lemma DollarGuess(lstat: string -> FileType, base: string, layers: seq<string>, a: string, file: bool)
    ensures Guesses(lstat, base, layers, "$" + a, file) == [Concat(Split(a, '$'))]
  {
    DropFirst(a, '$');
    DropIs(a, '$');
  }

  /** After "^", a file is looked for by the rest less its marks. */
  lemma CaretGuess(lstat: string -> FileType, base: string, layers: seq<string>, a: string, file: bool)
    requires var n := Concat(Split(a, '^')); n == "" || n[0] != '$'
    ensures Guesses(lstat, base, layers, "^" + a, file) == Guesses(lstat, base, layers, Concat(Split(a, '^')), true)
  {
    DropFirst(a, '^');
    DropIs(a, '^');
    DropFree(a, '^');
  }

  /** "all", in white space or not, is itself. */
  lemma AllGuess(lstat: string -> FileType, base: string, layers: seq<string>, inp: string, file: bool)
    requires Around(inp, "all")
    ensures Guesses(lstat, base, layers, inp, file) == [inp]
  {
    TrimIff(inp, "all");
    AllFirst(inp);
  }

  lemma AllFirst(inp: string)
    requires Around(inp, "all")
    ensures inp != "" && inp[0] !in {'$', '^', '/'}
  {
    var a, b :| AllWhite(a) && AllWhite(b) && inp == a + "all" + b;
    if a == "" { assert inp[0] == 'a'; } else { assert inp[0] == a[0]; }
  }

  /** An absolute path is itself, if it is there and of the kind looked for. */
  lemma RootGuess(lstat: string -> FileType, base: string, layers: seq<string>, inp: string, file: bool)
    requires inp != "" && inp[0] == '/'
    ensures Guesses(lstat, base, layers, inp, file)
         == if (if file then lstat(inp) in {Regular, Socket, Other, SymLink} else lstat(inp) == Directory) then [inp] else []
  {
    TrimIff(inp, "all");
    if Around(inp, "all") { AllFirst(inp); }
  }

  // ----- first match over stacked layers, against the layered view -----

  /** `trees` bottom first: the topmost tree that has the path answers. */
  function FirstIn(trees: seq<Tree>, p: Path): Option<Node> {
    if trees == [] then None
    else if p in trees[|trees| - 1] then Some(trees[|trees| - 1][p])
    else FirstIn(trees[..|trees| - 1], p)
  }

  ghost function Ups(es: seq<Effect>): (r: seq<Tree>)
    ensures |r| == |es| && forall i | 0 <= i < |r| :: r[i] == es[i].up
  {
    seq(|es|, i requires 0 <= i < |es| => es[i].up)
  }

  ghost predicate HeldBelow(es: seq<Effect>, p: Path, k: nat)
    requires k <= |es|
  {
    exists i :: 0 <= i < k && p in es[i].up
  }

  /** Layer `k` hides `p`, no layer from there up holds it, and one below does. */
  ghost predicate ShadowAt(es: seq<Effect>, p: Path, k: nat)
    requires k < |es|
  {
    Hidden(es[k], p) && HeldBelow(es, p, k) && forall j | k <= j < |es| :: p !in es[j].up
  }

  ghost predicate Shadowed(es: seq<Effect>, p: Path) {
    exists k :: 0 <= k < |es| && ShadowAt(es, p, k)
  }

  lemma SamePrefix(es: seq<Effect>, p: Path, n: nat)
    requires n <= |es|
    ensures HeldBelow(es[..n], p, n) <==> HeldBelow(es, p, n)
  {
    if HeldBelow(es, p, n) {
      var i :| 0 <= i < n && p in es[i].up;
      assert p in es[..n][i].up;
    }
    if HeldBelow(es[..n], p, n) {
      var i :| 0 <= i < n && p in es[..n][i].up;
      assert p in es[i].up;
    }
  }

  lemma ShadowedLower(es: seq<Effect>, p: Path, k: nat)
    requires es != [] && p !in es[|es| - 1].up && k < |es| - 1
    ensures ShadowAt(es[..|es| - 1], p, k) <==> ShadowAt(es, p, k)
  {
    var n := |es| - 1;
    SamePrefix(es, p, k);
    SamePrefix(es[..n], p, k);
    assert es[..n][..k] == es[..k];
    if ShadowAt(es[..n], p, k) {
      forall j | k <= j < |es| ensures p !in es[j].up { assert j < n ==> es[..n][j] == es[j]; }
    }
    if ShadowAt(es, p, k) {
      forall j | k <= j < n ensures p !in es[..n][j].up { assert es[..n][j] == es[j]; }
    }
  }

  /** A new top layer that does not hold `p` shadows it, or leaves the rest as it was. */
  lemma ShadowedSnoc(es: seq<Effect>, p: Path)
    requires es != [] && p !in es[|es| - 1].up
    ensures var n := |es| - 1;
            Shadowed(es, p) <==> (Hidden(es[n], p) && HeldBelow(es, p, n)) || Shadowed(es[..n], p)
    ensures HeldBelow(es, p, |es|) <==> HeldBelow(es[..|es| - 1], p, |es| - 1)
  {
    var n := |es| - 1;
    SamePrefix(es, p, n);
    forall k | 0 <= k < n ensures ShadowAt(es[..n], p, k) <==> ShadowAt(es, p, k) { ShadowedLower(es, p, k); }
    assert ShadowAt(es, p, n) <==> Hidden(es[n], p) && HeldBelow(es, p, n);
  }

  lemma {:induction false} FirstInHolder(es: seq<Effect>, p: Path)
    ensures FirstIn(Ups(es), p).Some? <==> HeldBelow(es, p, |es|)
    decreases |es|
  {
    if es != [] {
      var n := |es| - 1;
      assert Ups(es)[..n] == Ups(es[..n]);
      if p !in es[n].up {
        FirstInHolder(es[..n], p);
        ShadowedSnoc(es, p);
      }
    }
  }

  /** First match over what the layers hold agrees with the layered view of a path exactly
      when no layer shadows the path. */
  lemma {:induction false} FirstMatchIff(es: seq<Effect>, p: Path)
    requires p != ROOT
    ensures FirstIn(Ups(es), p) == View(es, p) <==> !Shadowed(es, p)
    decreases |es|
  {
    if es != [] {
      var n := |es| - 1;
      assert Ups(es)[..n] == Ups(es[..n]);
      if p !in es[n].up {
        ShadowedSnoc(es, p);
        FirstInHolder(es[..n], p);
        FirstMatchIff(es[..n], p);
        assert HeldBelow(es[..n], p, n) <==> HeldBelow(es, p, n) by { SamePrefix(es, p, n); }
        ShadowedHeld(es[..n], p);
      }
    }
  }

  lemma ShadowedHeld(es: seq<Effect>, p: Path)
    ensures Shadowed(es, p) ==> HeldBelow(es, p, |es|)
  {
    if k :| 0 <= k < |es| && ShadowAt(es, p, k) {
      var i :| 0 <= i < k && p in es[i].up;
    }
  }

  /** What a layer shadows is out of sight. */
  lemma {:induction false} ShadowedUnseen(es: seq<Effect>, p: Path)
    requires Shadowed(es, p)
    ensures View(es, p) == None
    decreases |es|
  {
    var k :| 0 <= k < |es| && ShadowAt(es, p, k);
    var n := |es| - 1;
    assert p !in es[n].up;
    if !Hidden(es[n], p) {
      ShadowedSnoc(es, p);
      ShadowedUnseen(es[..n], p);
    }
  }

  // ----- the folders that `Untar` makes of the layers -----

  /** The topmost layer that holds `p` makes it a hard link, and the symbolic link `Untar` puts
      there is not the node that it names. */
  ghost predicate SoftAt(es: seq<Effect>, p: Path, k: nat)
    requires k < |es|
  {
    p in es[k].up && Softly(es[k], p) != Some(es[k].up[p]) && forall j | k < j < |es| :: p !in es[j].up
  }

  ghost predicate Softened(es: seq<Effect>, p: Path) {
    exists k :: 0 <= k < |es| && SoftAt(es, p, k)
  }

  lemma SoftenedSnoc(es: seq<Effect>, p: Path)
    requires es != []
    ensures var n := |es| - 1;
            Softened(es, p) <==> if p in es[n].up then Softly(es[n], p) != Some(es[n].up[p]) else Softened(es[..n], p)
  {
    var n := |es| - 1;
    if p in es[n].up && Softly(es[n], p) != Some(es[n].up[p]) { assert SoftAt(es, p, n); }
    if k :| 0 <= k < |es| && SoftAt(es, p, k) && k < n && p !in es[n].up { assert SoftAt(es[..n], p, k); }
    if k :| 0 <= k < n && SoftAt(es[..n], p, k) && p !in es[n].up {
      assert forall j | k < j < n :: es[..n][j] == es[j];
      assert SoftAt(es, p, k);
    }
  }

  /** Every folder shows `p` as `Untar` makes it of its layer. */
  ghost predicate Unpacked(trees: seq<Tree>, es: seq<Effect>, p: Path) {
    && |trees| == |es|
    && forall i | 0 <= i < |es| :: Look(trees[i], p) == Softly(es[i], p) && (p in es[i].hard ==> p in es[i].up && !es[i].up[p].Dir?)
  }

  lemma {:induction false} FirstSoft(trees: seq<Tree>, es: seq<Effect>, p: Path)
    requires Unpacked(trees, es, p)
    ensures FirstIn(trees, p) == FirstIn(Ups(es), p) <==> !Softened(es, p)
    ensures FirstIn(trees, p).Some? <==> FirstIn(Ups(es), p).Some?
    decreases |es|
  {
    if es != [] {
      var n := |es| - 1;
      assert Look(trees[n], p) == Softly(es[n], p) && Ups(es)[..n] == Ups(es[..n]);
      SoftenedSnoc(es, p);
      if p !in es[n].up { FirstSoft(trees[..n], es[..n], p); }
    }
  }

  /** The folders `DockerDownload` extracts the layers into. */
  ghost function OwnTrees(layers: seq<seq<Header>>): (r: seq<Tree>)
    ensures |r| == |layers|
  {
    seq(|layers|, i requires 0 <= i < |layers| => UntarRun(EMPTY_FOLDER, layers[i]).tree)
  }

  lemma {:induction false} AloneBelow(layers: seq<seq<Header>>, i: nat)
    requires i <= |layers| && forall j | 0 <= j < i :: Alone(layers[j])
    ensures Folder(Below(layers, i)) && Unreserved(Below(layers, i))
  {
    if i > 0 {
      AloneBelow(layers, i - 1);
      BelowNext(layers, i - 1);
      AloneAnywhere(Below(layers, i - 1), layers[i - 1]);
      OverlayKeeps(Below(layers, i - 1), layers[i - 1]);
    } else {
      assert Effects(layers)[..0] == [];
    }
  }

  lemma AloneAnywhere(t: Tree, hs: seq<Header>)
    requires Folder(t) && Alone(hs)
    ensures WellFormed(t, NOTHING, hs) && LayerEffect(t, NOTHING, hs) == LayerEffect(EMPTY_FOLDER, NOTHING, hs)
  {
    assert Overlay(t, NOTHING) == t;
    WellFormedAnywhere(t, NOTHING, hs);
  }

  /** Such a layer means the same in the stack as by itself. */
  lemma AloneEffect(layers: seq<seq<Header>>, i: nat)
    requires i < |layers| && forall j | 0 <= j <= i :: Alone(layers[j])
    ensures Effects(layers)[i] == LayerEffect(EMPTY_FOLDER, NOTHING, layers[i])
  {
    EffectAt(layers, i);
    AloneBelow(layers, i);
    AloneAnywhere(Below(layers, i), layers[i]);
  }

  lemma OwnUnpackedAt(layers: seq<seq<Header>>, p: Path, i: nat)
    requires i < |layers| && forall j | 0 <= j <= i :: Alone(layers[j])
    requires p != ROOT && (Reserved(p) ==> NoWhiteouts(layers[i]))
    ensures Look(OwnTrees(layers)[i], p) == Softly(Effects(layers)[i], p)
    ensures var e := Effects(layers)[i];
            p in e.hard ==> p in e.up && !e.up[p].Dir?
  {
    AloneEffect(layers, i);
    OwnFolder(layers[i]);
    HardIsFile(layers[i], p);
  }

  lemma OwnUnpacked(layers: seq<seq<Header>>, p: Path)
    requires p != ROOT && forall i | 0 <= i < |layers| :: Alone(layers[i])
    requires Reserved(p) ==> forall i | 0 <= i < |layers| :: NoWhiteouts(layers[i])
    ensures Unpacked(OwnTrees(layers), Effects(layers), p)
  {
    var trees, es := OwnTrees(layers), Effects(layers);
    forall i | 0 <= i < |layers|
      ensures Look(trees[i], p) == Softly(es[i], p) && (p in es[i].hard ==> p in es[i].up && !es[i].up[p].Dir?)
    {
      OwnUnpackedAt(layers, p, i);
    }
  }

  /** Searching the folders `Untar` makes, top layer first, knows neither whiteouts nor hard
      links: for every stack of layers that list their directories and every path that is no
      whiteout's, it agrees with the layered view exactly when no layer shadows the path and
      the topmost to hold it does not make it a hard link to something else. */
  lemma FolderSearchIff(layers: seq<seq<Header>>, p: Path)
    requires p != ROOT && !Reserved(p)
    requires forall i | 0 <= i < |layers| :: Alone(layers[i])
    ensures FirstIn(OwnTrees(layers), p) == View(Effects(layers), p) <==>
            !Shadowed(Effects(layers), p) && !Softened(Effects(layers), p)
  {
    var es := Effects(layers);
    OwnUnpacked(layers, p);
    FirstSoft(OwnTrees(layers), es, p);
    FirstMatchIff(es, p);
    if Shadowed(es, p) {
      ShadowedUnseen(es, p);
      ShadowedHeld(es, p);
      FirstInHolder(es, p);
    }
  }

  // ----- stacks without whiteouts -----

  /** Layers without whiteouts, each listing its directories, and none changing a kind. */
  ghost predicate PlainStack(layers: seq<seq<Header>>) {
    && (forall i | 0 <= i < |layers| :: Alone(layers[i]) && NoWhiteouts(layers[i]))
    && forall i | 0 <= i < |layers| :: Extractable(Below(layers, i), layers[i])
  }

  lemma PlainStackable(layers: seq<seq<Header>>)
    requires PlainStack(layers)
    ensures Stackable(layers)
  {
    forall i | 0 <= i < |layers| ensures WellFormed(Below(layers, i), NOTHING, layers[i]) {
      AloneBelow(layers, i);
      AloneAnywhere(Below(layers, i), layers[i]);
    }
  }

  /** Going up one layer: its own node is in view if it has one, of the kind below if any. */
  ghost predicate Rises(below: Option<Node>, own: Option<Node>, above: Option<Node>) {
    && above == (if own.Some? then own else below)
    && (own.Some? && below.Some? ==> TypeOf(own) == TypeOf(below))
  }

  lemma ViewRises(layers: seq<seq<Header>>, p: Path, m: nat)
    requires PlainStack(layers) && p != ROOT && m < |layers|
    ensures Rises(View(Effects(layers)[..m], p), Look(Effects(layers)[m].up, p), View(Effects(layers)[..m + 1], p))
  {
    var t, e := Below(layers, m), Effects(layers)[m];
    EffectAt(layers, m);
    HidesNothing(t, NOTHING, layers[m]);
    StackShows(Effects(layers)[..m], p);
    StackShows(Effects(layers)[..m + 1], p);
    BelowNext(layers, m);
    AloneBelow(layers, m);
    assert Compatible(t, e);
    PlainOverlay(t, e, p);
  }

  /** A layer without whiteouts that changes no kind hides nothing. */
  lemma PlainOverlay(t: Tree, e: Effect, p: Path)
    requires Closed(t) && e.hid == {} && e.opq == {} && Compatible(t, e)
    ensures Rises(Look(t, p), Look(e.up, p), Look(Overlay(t, e), p))
  {
    if p in t && p !in e.up && Covered(e.up, p) {
      var f :| f in e.up && f < p && !e.up[f].Dir?;
      NothingBelow(t, f, p);
    }
    assert p in t && p in e.up ==> !Whited(e.hid, p) && Yields(t[p], e.up[p]);
  }

  lemma {:induction false} FirstIsView(layers: seq<seq<Header>>, p: Path, n: nat)
    requires PlainStack(layers) && n <= |layers| && p != ROOT
    ensures FirstIn(Ups(Effects(layers)[..n]), p) == View(Effects(layers)[..n], p)
  {
    var es := Effects(layers)[..n];
    if n > 0 {
      ViewRises(layers, p, n - 1);
      assert Ups(es)[..n - 1] == Ups(Effects(layers)[..n - 1]);
      FirstIsView(layers, p, n - 1);
    }
  }

  /** Without whiteouts the merged folder is the layered view, and so is the first match over
      the layers' own folders, exactly when the topmost layer to hold the path does not make it
      a hard link to something else. */
  lemma LookupAgrees(layers: seq<seq<Header>>, p: Path)
    requires PlainStack(layers) && p != ROOT
    ensures Look(MergeRun(EMPTY_FOLDER, layers).tree, p) == View(Effects(layers), p)
    ensures FirstIn(OwnTrees(layers), p) == View(Effects(layers), p) <==> !Softened(Effects(layers), p)
    ensures FirstIn(OwnTrees(layers), p).Some? <==> View(Effects(layers), p).Some?
  {
    FirstIsView(layers, p, |layers|);
    assert Effects(layers)[..|layers|] == Effects(layers);
    OwnUnpacked(layers, p);
    FirstSoft(OwnTrees(layers), Effects(layers), p);
    PlainStackable(layers);
    MergeAgrees(layers);
  }

  // ----- down to the text of `GuessPathContainer` -----

  function TypeOf(n: Option<Node>): FileType {
    match n
    case None => Gone
    case Some(File(_)) => Regular
    case Some(Dir) => Directory
    case Some(Link(_)) => SymLink
  }

  /** `lstat` sees the layers' folders under `base`. */
  ghost predicate Mounted(lstat: string -> FileType, base: string, names: seq<string>, trees: seq<Tree>, inp: string, p: Path) {
    && |names| == |trees|
    && forall k | 0 <= k < |names| :: lstat(PathIn(base, names[k], inp)) == TypeOf(Look(trees[k], p))
  }

  /** The topmost layer that has the path answers the search; one that lacks it leaves
      the answer to the layers below. */
  lemma HitsTop(lstat: string -> FileType, base: string, names: seq<string>, inp: string, file: bool, m: nat)
    requires m < |names|
    ensures Hits(lstat, base, Reverse(names[..m + 1]), inp, file)
         == HitAt(lstat, PathIn(base, names[m], inp), file)
            + Hits(lstat, base, Reverse(names[..m]), inp, file)
  {
    assert names[..m + 1] == names[..m] + [names[m]];
    ReverseSnoc(names[..m], names[m]);
    assert ([names[m]] + Reverse(names[..m]))[1..] == Reverse(names[..m]);
  }

  /** Layer `k` is the topmost of the lowest `n` to hold `p`, and what it holds is in view. */
  ghost predicate InView(es: seq<Effect>, view: Option<Node>, p: Path, n: nat, k: nat)
    requires n <= |es|
  {
    k < n && p in es[k].up && view == Some(es[k].up[p]) && forall j | k < j < n :: p !in es[j].up
  }

  /** `hits` are the answers for the lowest `n` layers: none when the view lacks a node of the
      wanted type, else led by the folder of the layer that the node in view comes from. */
  ghost predicate Answers(hits: seq<string>, base: string, names: seq<string>, es: seq<Effect>,
                          view: Option<Node>, inp: string, p: Path, file: bool, n: nat)
    requires n <= |names| == |es|
  {
    && (hits != [] <==> Wanted(TypeOf(view), file))
    && (hits != [] ==> exists k :: 0 <= k < n && InView(es, view, p, n, k) && hits[0] == PathIn(base, names[k], inp))
  }

  /** The views of a path from the bottom up, one for each number of layers. */
  ghost predicate Rising(views: seq<Option<Node>>, es: seq<Effect>, p: Path) {
    && |views| == |es| + 1 && views[0] == None
    && forall m | 0 <= m < |es| :: Rises(views[m], Look(es[m].up, p), views[m + 1])
  }

  /** A hard link and the link `Untar` makes of it are wanted alike. */
  ghost predicate Seen(lstat: string -> FileType, base: string, names: seq<string>, es: seq<Effect>, inp: string, p: Path) {
    && |names| == |es|
    && forall k, file | 0 <= k < |names| ::
         Wanted(lstat(PathIn(base, names[k], inp)), file) <==> Wanted(TypeOf(Look(es[k].up, p)), file)
  }

  lemma {:induction false} HitsRise(lstat: string -> FileType, base: string, names: seq<string>, es: seq<Effect>,
                                    views: seq<Option<Node>>, inp: string, p: Path, file: bool, n: nat)
    requires n <= |es| && Rising(views, es, p) && Seen(lstat, base, names, es, inp, p)
    ensures Answers(Hits(lstat, base, Reverse(names[..n]), inp, file), base, names, es, views[n], inp, p, file, n)
    decreases n
  {
    if n > 0 {
      var m := n - 1;
      var below := Hits(lstat, base, Reverse(names[..m]), inp, file);
      assert Hits(lstat, base, Reverse(names[..n]), inp, file)
          == HitAt(lstat, PathIn(base, names[m], inp), file) + below by {
        HitsTop(lstat, base, names, inp, file, m);
      }
      HitsRise(lstat, base, names, es, views, inp, p, file, m);
      AnswersNext(below, base, names, es, views[m], views[n], lstat, inp, p, file, m);
    }
  }

  lemma AnswersNext(hits: seq<string>, base: string, names: seq<string>, es: seq<Effect>,
                    below: Option<Node>, above: Option<Node>, lstat: string -> FileType,
                    inp: string, p: Path, file: bool, m: nat)
    requires m < |names| == |es| && Answers(hits, base, names, es, below, inp, p, file, m)
    requires Wanted(lstat(PathIn(base, names[m], inp)), file) <==> Wanted(TypeOf(Look(es[m].up, p)), file)
    requires Rises(below, Look(es[m].up, p), above)
    ensures Answers(HitAt(lstat, PathIn(base, names[m], inp), file) + hits,
                    base, names, es, above, inp, p, file, m + 1)
  {
    var own, tpath := Look(es[m].up, p), PathIn(base, names[m], inp);
    if Wanted(lstat(tpath), file) {
      assert (HitAt(lstat, tpath, file) + hits)[0] == tpath;
      assert InView(es, above, p, m + 1, m);
    } else {
      assert HitAt(lstat, tpath, file) + hits == hits;
      if hits != [] {
        assert own == None;
        var k :| 0 <= k < m && InView(es, below, p, m, k) && hits[0] == PathIn(base, names[k], inp);
        assert InView(es, above, p, m + 1, k);
      }
    }
  }

  lemma GuessesRelative(lstat: string -> FileType, base: string, layers: seq<string>, inp: string, file: bool)
    requires Relative(inp)
    ensures Guesses(lstat, base, layers, inp, file) == Hits(lstat, base, layers, inp, file)
  {
  }

  ghost function Views(layers: seq<seq<Header>>, p: Path): (r: seq<Option<Node>>)
    ensures |r| == |layers| + 1 && forall i | 0 <= i <= |layers| :: r[i] == View(Effects(layers)[..i], p)
  {
    seq(|layers| + 1, i requires 0 <= i <= |layers| => View(Effects(layers)[..i], p))
  }

  lemma ViewsRise(layers: seq<seq<Header>>, p: Path)
    requires PlainStack(layers) && p != ROOT
    ensures Rising(Views(layers, p), Effects(layers), p)
    ensures Views(layers, p)[|layers|] == View(Effects(layers), p)
  {
    var es, views := Effects(layers), Views(layers, p);
    forall m | 0 <= m < |layers| ensures Rises(views[m], Look(es[m].up, p), views[m + 1]) {
      ViewRises(layers, p, m);
    }
    assert es[..0] == [] && es[..|layers|] == es;
  }

  lemma UnpackedSeen(lstat: string -> FileType, base: string, names: seq<string>, trees: seq<Tree>,
                     es: seq<Effect>, inp: string, p: Path)
    requires Unpacked(trees, es, p) && Mounted(lstat, base, names, trees, inp, p)
    ensures Seen(lstat, base, names, es, inp, p)
  {
    forall k, file | 0 <= k < |names|
      ensures Wanted(lstat(PathIn(base, names[k], inp)), file) <==> Wanted(TypeOf(Look(es[k].up, p)), file)
    {
      assert Look(trees[k], p) == Softly(es[k], p);
    }
  }

  /** The answers for all the layers, from their folders. */
  lemma HitsInView(lstat: string -> FileType, base: string, names: seq<string>, trees: seq<Tree>, es: seq<Effect>,
                   views: seq<Option<Node>>, inp: string, p: Path, file: bool)
    requires Rising(views, es, p) && Unpacked(trees, es, p) && Mounted(lstat, base, names, trees, inp, p)
    ensures Answers(Hits(lstat, base, Reverse(names), inp, file), base, names, es, views[|es|], inp, p, file, |names|)
  {
    UnpackedSeen(lstat, base, names, trees, es, inp, p);
    assert names[..|names|] == names;
    HitsRise(lstat, base, names, es, views, inp, p, file, |names|);
  }

  /** Searching the reversed list of layers finds a relative path exactly when the merged
      folder has it with the wanted type, and then it points into the folder of the topmost
      layer that holds the path, which holds what the merged folder has there. */
  lemma GuessFindsMerged(lstat: string -> FileType, base: string, names: seq<string>,
                         layers: seq<seq<Header>>, inp: string, p: Path, file: bool)
    requires PlainStack(layers) && p != ROOT && Clean(inp) == Some(p) && Relative(inp)
    requires Mounted(lstat, base, names, OwnTrees(layers), inp, p)
    ensures Answers(Guesses(lstat, base, Reverse(names), inp, file), base, names, Effects(layers),
                    Look(MergeRun(EMPTY_FOLDER, layers).tree, p), inp, p, file, |names|)
  {
    GuessesRelative(lstat, base, Reverse(names), inp, file);
    ViewsRise(layers, p);
    OwnUnpacked(layers, p);
    LookupAgrees(layers, p);
    HitsInView(lstat, base, names, OwnTrees(layers), Effects(layers), Views(layers, p), inp, p, file);
  }

  /** The node in that folder is the very node of the merged folder, unless the layer makes the
      path a hard link to something else. */
  lemma FoundIsMerged(layers: seq<seq<Header>>, p: Path, k: nat)
    requires PlainStack(layers) && p != ROOT && k < |layers|
    requires InView(Effects(layers), Look(MergeRun(EMPTY_FOLDER, layers).tree, p), p, |layers|, k)
    ensures Look(OwnTrees(layers)[k], p) == Look(MergeRun(EMPTY_FOLDER, layers).tree, p) <==> !Softened(Effects(layers), p)
  {
    OwnUnpackedAt(layers, p, k);
    TopSoftened(Effects(layers), p, k);
  }

  lemma TopSoftened(es: seq<Effect>, p: Path, k: nat)
    requires k < |es| && p in es[k].up && forall j | k < j < |es| :: p !in es[j].up
    ensures Softened(es, p) <==> Softly(es[k], p) != Some(es[k].up[p])
  {
    if Softly(es[k], p) != Some(es[k].up[p]) { assert SoftAt(es, p, k); }
    if j :| 0 <= j < |es| && SoftAt(es, p, j) { assert j == k; }
  }
}
