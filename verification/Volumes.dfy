/** The volume map of a container, "host=container:host=container": what a commit removes for
    it from the old writable layer, and the links it makes in the new one. */
module Volumes {
  import opened Strings
  import opened FileTree

  // ----- what an item says -----

  /** `host`, "=" and the place `c` in the container; of what follows a second "=" the code
      makes nothing. */
  predicate Item(item: string, host: string, c: string, more: string) {
    && item == host + "=" + c + more
    && '=' !in host && '=' !in c && (more == "" || more[0] == '=')
  }

  /** The item names the place `d`; `whole` asks for one "=" only. */
  ghost predicate Names(item: string, d: Path, whole: bool) {
    exists host, c, more :: Item(item, host, c, more) && (whole ==> more == "") && "/" <= c && Clean(c) == Some(d)
  }

  ghost predicate VolumeAt(items: seq<string>, d: Path, whole: bool) {
    exists i :: 0 <= i < |items| && Names(items[i], d, whole)
  }

  lemma ItemSplit(item: string, host: string, c: string, more: string)
    requires Item(item, host, c, more)
    ensures var v := Split(item, '=');
            |v| >= 2 && v[0] == host && v[1] == c && (|v| == 2 <==> more == "")
    ensures item != ""
  {
    assert item == host + ['='] + (c + more);
    SplitCons(host, c + more, '=');
    if more == "" {
      assert c + more == c;
      SplitFree(c, '=');
    } else {
      assert c + more == c + ['='] + more[1..];
      SplitCons(c, more[1..], '=');
    }
  }

  lemma {:induction false} FirstSign(s: string) returns (a: string, b: string)
    requires '=' in s
    ensures s == a + "=" + b && '=' !in a
  {
    if s[0] == '=' {
      a, b := "", s[1..];
    } else {
      a, b := FirstSign(s[1..]);
      assert s == [s[0]] + s[1..];
      a := [s[0]] + a;
    }
  }

  /** Every item with an "=" is of that shape. */
  lemma ItemOf(item: string) returns (host: string, c: string, more: string)
    requires |Split(item, '=')| >= 2
    ensures Item(item, host, c, more)
  {
    if '=' !in item { SplitFree(item, '='); }
    var rest;
    host, rest := FirstSign(item);
    if '=' in rest {
      var tail;
      c, tail := FirstSign(rest);
      more := "=" + tail;
      assert rest == c + more;
    } else {
      c, more := rest, "";
      assert rest == c + more;
    }
    assert item == host + "=" + (c + more) == host + "=" + c + more;
  }

  // ----- what the code reads of an item -----

  /** Where `RootPath + text` lies in the writable layer; `None` when outside it. */
  function Target(text: string): Option<Path> {
    if "/" <= text then Clean(text) else None
  }

  /** The paths the trimming removes: items of exactly two parts. */
  function Doomed(items: seq<string>): seq<Path> {
    if items == [] then []
    else
      var v := Split(items[0], '=');
      (if |v| == 2 && Target(v[1]).Some? then [Target(v[1]).value] else []) + Doomed(items[1..])
  }

  /** Where an item is mounted; blank items are nowhere, and a ".." may lead through a link. */
  function Mount(item: string): Option<Path> {
    var v := Split(item, '=');
    if item == "" || |v| < 2 || ".." in Split(v[1], '/') then None else Target(v[1])
  }

  function Host(item: string): string {
    Split(item, '=')[0]
  }

  /** A link can be made at the path as it is written: its last part is a name, so it does not
      end in "/" or "/.". */
  predicate Creatable(text: string) {
    var parts := Split(text, '/');
    LegalName(parts[|parts| - 1])
  }

  /** The links made again in the new writable layer: any non-empty item. */
  function LinkAll(t: Tree, items: seq<string>): Step
    decreases |items|
  {
    if items == [] then Step(t, Ok)
    else if items[0] == "" then LinkAll(t, items[1..])
    else
      match Mount(items[0])
      case None => Step(t, Unmodelled)
      case Some(p) =>
        var s := if Creatable(Split(items[0], '=')[1]) then MakeLink(t, p, Host(items[0])) else Step(t, Error(NoEntry));
        if s.outcome == Ok then LinkAll(s.tree, items[1..]) else s
  }

  /** `os.Symlink` with its error returned. */
  function MakeLink(t: Tree, p: Path, target: string): Step {
    if target == "" then Step(t, Error(NoEntry))
    else match WayTo(t, p)
      case Linked => Step(t, Unmodelled)
      case Missing => Step(t, Error(NoEntry))
      case Blocked => Step(t, Error(NotDirectory))
      case Clear => if p in t then Step(t, Error(IsDirectory)) else Step(t[p := Link(target)], Ok)
  }

  /** A volume the new writable layer can take: a host path on a name right below the root,
      written so that a link can be made there. */
  predicate Mounts(item: string) {
    Host(item) != "" && Mount(item).Some? && |Mount(item).value| == 1 && Creatable(Split(item, '=')[1])
  }

  /** Every item can be mounted, no two at one place. */
  ghost predicate Mountable(items: seq<string>) {
    && (forall i | 0 <= i < |items| && items[i] != "" :: Mounts(items[i]))
    && forall i, j | 0 <= i < j < |items| && items[i] != "" && items[j] != "" :: Mount(items[i]) != Mount(items[j])
  }

  ghost predicate MountedAt(items: seq<string>, q: Path) {
    exists i :: 0 <= i < |items| && Mount(items[i]) == Some(q)
  }

  /** A root with links right below it, and nothing else. */
  ghost predicate OnlyLinks(t: Tree) {
    ROOT in t && t[ROOT].Dir? && forall q | q in t && q != ROOT :: |q| == 1 && t[q].Link?
  }

  lemma MakeLinkIff(t: Tree, p: Path, target: string)
    requires OnlyLinks(t)
    ensures MakeLink(t, p, target).outcome == Ok <==> target != "" && |p| == 1 && p !in t
    ensures MakeLink(t, p, target).outcome == Ok ==> MakeLink(t, p, target).tree == t[p := Link(target)]
  {
    if |p| == 1 {
      assert Parent(p) == ROOT && WayTo(t, ROOT) == Clear;
    } else if |p| > 1 {
      assert Parent(p) != ROOT;
    }
  }

  lemma MountedNext(items: seq<string>, q: Path)
    requires items != []
    ensures MountedAt(items, q) <==> Mount(items[0]) == Some(q) || MountedAt(items[1..], q)
  {
    if MountedAt(items, q) && Mount(items[0]) != Some(q) {
      var i :| 0 <= i < |items| && Mount(items[i]) == Some(q);
      assert items[1..][i - 1] == items[i];
    }
    if MountedAt(items[1..], q) {
      var i :| 0 <= i < |items[1..]| && Mount(items[1..][i]) == Some(q);
      assert items[i + 1] == items[1..][i];
    }
  }

  lemma MountableNext(items: seq<string>)
    requires items != []
    ensures Mountable(items) <==> Mountable(items[1..]) && (items[0] != "" ==>
              Mounts(items[0]) && !MountedAt(items[1..], Mount(items[0]).value))
  {
    var rest := items[1..];
    assert forall i | 0 <= i < |rest| :: rest[i] == items[i + 1];
    if Mountable(items) {
      forall i, j | 0 <= i < j < |rest| && rest[i] != "" && rest[j] != "" ensures Mount(rest[i]) != Mount(rest[j]) {
        assert items[i + 1] != "" && items[j + 1] != "";
      }
    }
  }

  /** No item is mounted on what is there already. */
  ghost predicate Vacant(t: Tree, items: seq<string>) {
    forall q | q in t && q != ROOT :: !MountedAt(items, q)
  }

  lemma VacantNext(t: Tree, items: seq<string>)
    requires items != []
    ensures Vacant(t, items) <==>
            (Vacant(t, items[1..]) && forall p | Mount(items[0]) == Some(p) && p != ROOT :: p !in t)
  {
    forall q ensures MountedAt(items, q) <==> Mount(items[0]) == Some(q) || MountedAt(items[1..], q) {
      MountedNext(items, q);
    }
  }

  lemma VacantPut(t: Tree, items: seq<string>, p: Path, n: Node)
    requires p != ROOT
    ensures Vacant(t[p := n], items) <==> Vacant(t, items) && !MountedAt(items, p)
  {
    if Vacant(t[p := n], items) {
      assert p in t[p := n];
      forall q | q in t && q != ROOT ensures !MountedAt(items, q) { assert q in t[p := n]; }
    }
  }

  /** What is there, and a link for every item. */
  ghost predicate LinksMade(before: Tree, after: Tree, items: seq<string>) {
    OnlyLinks(after) && forall q :: q in after <==> q in before || MountedAt(items, q)
  }

  lemma LinkedNext(t: Tree, p: Path, n: Node, after: Tree, items: seq<string>)
    requires items != [] && LinksMade(t[p := n], after, items[1..]) && Mount(items[0]) == Some(p)
    ensures LinksMade(t, after, items)
  {
    forall q ensures q in after <==> q in t || MountedAt(items, q) { MountedNext(items, q); }
  }

  lemma LinkedSkip(t: Tree, after: Tree, items: seq<string>)
    requires items != [] && LinksMade(t, after, items[1..]) && items[0] == ""
    ensures LinksMade(t, after, items)
  {
    forall q ensures q in after <==> q in t || MountedAt(items, q) { MountedNext(items, q); }
  }

  lemma {:induction false} LinkAllFrom(t: Tree, items: seq<string>)
    requires OnlyLinks(t)
    ensures LinkAll(t, items).outcome == Ok <==> Mountable(items) && Vacant(t, items)
    ensures LinkAll(t, items).outcome == Ok ==> LinksMade(t, LinkAll(t, items).tree, items)
    decreases |items|, 1
  {
    if items == [] {
      assert LinksMade(t, t, items);
    } else {
      MountableNext(items);
      VacantNext(t, items);
      if items[0] == "" {
        LinkAllFrom(t, items[1..]);
        if LinkAll(t, items).outcome == Ok { LinkedSkip(t, LinkAll(t, items).tree, items); }
      } else if Mount(items[0]).Some? && Creatable(Split(items[0], '=')[1]) {
        LinkAllStep(t, items, Mount(items[0]).value, Host(items[0]));
      }
    }
  }

  lemma LinkAllUnfolds(t: Tree, items: seq<string>, p: Path)
    requires items != [] && items[0] != "" && Mount(items[0]) == Some(p) && Creatable(Split(items[0], '=')[1])
    ensures var s := MakeLink(t, p, Host(items[0]));
            LinkAll(t, items) == if s.outcome == Ok then LinkAll(s.tree, items[1..]) else s
  {
  }

  lemma LinkAllStep(t: Tree, items: seq<string>, p: Path, target: string)
    requires OnlyLinks(t) && items != [] && items[0] != "" && Mount(items[0]) == Some(p)
    requires Host(items[0]) == target && Creatable(Split(items[0], '=')[1])
    ensures LinkAll(t, items).outcome == Ok <==>
              target != "" && |p| == 1 && p !in t && Mountable(items[1..]) && Vacant(t, items[1..]) && !MountedAt(items[1..], p)
    ensures LinkAll(t, items).outcome == Ok ==> LinksMade(t, LinkAll(t, items).tree, items)
    decreases |items|, 0
  {
    var rest, next := items[1..], t[p := Link(target)];
    MakeLinkIff(t, p, target);
    LinkAllUnfolds(t, items, p);
    if target != "" && |p| == 1 && p !in t {
      assert LinkAll(t, items) == LinkAll(next, rest);
      assert OnlyLinks(next);
      LinkAllFrom(next, rest);
      VacantPut(t, rest, p, Link(target));
      if LinkAll(next, rest).outcome == Ok { LinkedNext(t, p, Link(target), LinkAll(next, rest).tree, items); }
    }
  }

  /** The volume links can be made in an empty layer exactly when every volume has a host
      path and a place of its own right below the root, written without a slash behind it. */
  lemma LinkAllIff(items: seq<string>)
    ensures LinkAll(EMPTY_FOLDER, items).outcome == Ok <==> Mountable(items)
    ensures Mountable(items) ==>
              forall q :: q in LinkAll(EMPTY_FOLDER, items).tree <==> q == ROOT || MountedAt(items, q)
  {
    LinkAllFrom(EMPTY_FOLDER, items);
  }

  /** Links lie right below the root. */
  lemma NotDeeper(items: seq<string>)
    requires Mountable(items)
    ensures forall q | q in LinkAll(EMPTY_FOLDER, items).tree :: |q| <= 1
  {
    LinkAllFrom(EMPTY_FOLDER, items);
  }

  // ----- the same, by what the items say -----

  lemma NamesIff(item: string, d: Path, whole: bool)
    ensures Names(item, d, whole) <==>
            var v := Split(item, '=');
            |v| >= 2 && (whole ==> |v| == 2) && Target(v[1]) == Some(d)
  {
    if Names(item, d, whole) {
      var host, c, more :| Item(item, host, c, more) && (whole ==> more == "") && "/" <= c && Clean(c) == Some(d);
      ItemSplit(item, host, c, more);
    }
    if |Split(item, '=')| >= 2 && (whole ==> |Split(item, '=')| == 2) && Target(Split(item, '=')[1]) == Some(d) {
      var host, c, more := ItemOf(item);
      ItemSplit(item, host, c, more);
    }
  }

  lemma VolumeNext(items: seq<string>, d: Path, whole: bool)
    requires items != []
    ensures VolumeAt(items, d, whole) <==> Names(items[0], d, whole) || VolumeAt(items[1..], d, whole)
  {
    if i :| 0 <= i < |items| && Names(items[i], d, whole) && i > 0 { assert items[1..][i - 1] == items[i]; }
    if i :| 0 <= i < |items[1..]| && Names(items[1..][i], d, whole) { assert items[i + 1] == items[1..][i]; }
  }

  /** What a commit removes as volumes: exactly the places that items of two parts name. */
  lemma {:induction false} DoomedIff(items: seq<string>, d: Path)
    ensures d in Doomed(items) <==> VolumeAt(items, d, true)
  {
    if items != [] {
      NamesIff(items[0], d, true);
      VolumeNext(items, d, true);
      DoomedIff(items[1..], d);
    }
  }

  /** Nothing is made but at places that items name. */
  lemma {:induction false} LinksWithin(t: Tree, items: seq<string>, q: Path)
    ensures q in LinkAll(t, items).tree ==> q in t || VolumeAt(items, q, false)
    decreases |items|
  {
    if items != [] {
      NamesIff(items[0], q, false);
      VolumeNext(items, q, false);
      LinksWithin(t, items[1..], q);
      if Mount(items[0]).Some? {
        LinksWithin(MakeLink(t, Mount(items[0]).value, Host(items[0])).tree, items[1..], q);
      }
    }
  }

  lemma {:induction false} LinksKeep(t: Tree, items: seq<string>, q: Path)
    requires q in t
    ensures q in LinkAll(t, items).tree && LinkAll(t, items).tree[q] == t[q]
    decreases |items|
  {
    if items != [] {
      LinksKeep(t, items[1..], q);
      if Mount(items[0]).Some? { LinksKeep(MakeLink(t, Mount(items[0]).value, Host(items[0])).tree, items[1..], q); }
    }
  }

  /** Where all the links can be made, each place holds the link to its own host path. */
  lemma {:induction false} LinkIsHost(t: Tree, items: seq<string>, i: nat, host: string, c: string, more: string)
    requires i < |items| && Item(items[i], host, c, more) && LinkAll(t, items).outcome == Ok
    ensures "/" <= c && Clean(c).Some?
    ensures Look(LinkAll(t, items).tree, Clean(c).value) == Some(Link(host))
    decreases |items|
  {
    if i == 0 {
      ItemSplit(items[0], host, c, more);
      var s := MakeLink(t, Clean(c).value, host);
      LinksKeep(s.tree, items[1..], Clean(c).value);
    } else if items[0] == "" {
      LinkIsHost(t, items[1..], i - 1, host, c, more);
    } else {
      LinkIsHost(MakeLink(t, Mount(items[0]).value, Host(items[0])).tree, items[1..], i - 1, host, c, more);
    }
  }

  // ----- where a link can be made -----

  /** The path `c` names the place `name` right below the root, as it is written. */
  ghost predicate Below(c: string, name: string) {
    && "/" <= c && LegalName(name)
    && exists pre :: c == pre + "/" + name && forall i | 0 <= i < |Split(pre, '/')| :: Split(pre, '/')[i] in {"", "."}
  }

  lemma {:induction false} ClimbFlat(parts: seq<string>)
    requires ".." !in parts
    ensures Climb(parts, ROOT).Some?
    ensures Climb(parts, ROOT) == Some([]) <==> forall i | 0 <= i < |parts| :: parts[i] in {"", "."}
  {
    if parts != [] {
      var n := |parts| - 1;
      var front, last := parts[..n], parts[n];
      assert parts == front + [last];
      ClimbFlat(front);
      ClimbSnoc(front, last, ROOT);
      ClimbOne(last, Climb(front, ROOT).value);
      assert forall i | 0 <= i < n :: front[i] == parts[i];
    }
  }

  lemma {:induction false} JoinSplit(s: string, sep: char)
    ensures Join(Split(s, sep), sep) == s
  {
    if s != "" {
      JoinSplit(s[1..], sep);
      var rest := Split(s[1..], sep);
      assert s == [s[0]] + s[1..];
      if s[0] == sep {
        assert ([""] + rest)[1..] == rest;
      } else {
        var parts := [[s[0]] + rest[0]] + rest[1..];
        assert parts[1..] == rest[1..];
        if |rest| > 1 { assert Join(parts, sep) == [s[0]] + rest[0] + [sep] + Join(rest[1..], sep); }
      }
    }
  }

  /** The last part of a path with a slash in it. */
  lemma LastPart(c: string) returns (pre: string, last: string)
    requires "/" <= c
    ensures c == pre + "/" + last && '/' !in last && Split(c, '/') == Split(pre, '/') + [last]
  {
    var parts := Split(c, '/');
    SplitCons("", c[1..], '/');
    assert c == "" + ['/'] + c[1..];
    var n := |parts| - 1;
    SplitPieces(c, '/');
    JoinSplit(c, '/');
    pre, last := Join(parts[..n], '/'), parts[n];
    JoinSnoc(parts[..n], last, '/');
    assert parts == parts[..n] + [last];
    SplitSnoc(pre, last, '/');
  }

  lemma BelowIff(c: string, name: string)
    ensures Below(c, name) <==>
            "/" <= c && ".." !in Split(c, '/') && Clean(c) == Some([name]) && Creatable(c)
  {
    if Below(c, name) {
      var pre :| c == pre + "/" + name && forall i | 0 <= i < |Split(pre, '/')| :: Split(pre, '/')[i] in {"", "."};
      SplitSnoc(pre, name, '/');
      ClimbFlat(Split(pre, '/'));
      CleanNext(pre, name);
      assert [] + [name] == [name];
    }
    if "/" <= c && ".." !in Split(c, '/') && Clean(c) == Some([name]) && Creatable(c) {
      var pre, last := LastPart(c);
      CleanNext(pre, last);
      assert forall i | 0 <= i < |Split(pre, '/')| :: Split(pre, '/')[i] == Split(c, '/')[i];
      ClimbFlat(Split(pre, '/'));
      assert Clean(pre).value + [last] == [name];
      assert |Clean(pre).value + [last]| == 1;
      assert last == (Clean(pre).value + [last])[0];
    }
  }

  /** The volumes a new writable layer takes: a host, and a place whose path is slashes and dots
      and one name. */
  lemma MountsIff(item: string)
    ensures Mounts(item) <==> exists host, c, more, name :: Item(item, host, c, more) && host != "" && Below(c, name)
  {
    if Mounts(item) {
      var host, c, more := ItemOf(item);
      ItemSplit(item, host, c, more);
      var name := Mount(item).value[0];
      assert Mount(item).value == [name];
      BelowIff(c, name);
    }
    if host, c, more, name :| Item(item, host, c, more) && host != "" && Below(c, name) {
      ItemSplit(item, host, c, more);
      BelowIff(c, name);
    }
  }
}
