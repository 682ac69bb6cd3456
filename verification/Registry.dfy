/** The registries as a state machine: `Sys.Containers`, `Image.Images`, and the `.info`
    file in each container's folder. Paths are text, as in the code; saving and loading a
    file is the identity. */
module Registry {
  import opened Strings
  import UnionLookup

  datatype Image = Image(layerOrder: string, rootdir: string)

  /** What `Sys.Containers` keeps: the container's folder (`RootPath` and `ConfigPath` are
      its "rw" and ".lpmx") and the image. */
  datatype Entry = Entry(home: string, image: string)

  /** A container's own `.info`. */
  datatype Info = Info(id: string, home: string, layers: string, imageBase: string)

  /** `infos` maps a container folder to the `.info` in it. */
  datatype State = State(images: map<string, Image>, containers: map<string, Entry>, infos: map<string, Info>)

  const RW := "rw"

  /** `DockerCommit` saves `.info` before it sets the new `ImageBase`; `Intended` saves it
      afterwards. */
  datatype Version = Written | Intended

  // ----- names and layer lists -----

  function FullName(name: string): string {
    if ':' in name then name else name + ":latest"
  }

  function Rootdir(data: string, name: string): string
    requires |Split(name, ':')| >= 2
  {
    data + "/" + Split(name, ':')[0] + "/" + Split(name, ':')[1]
  }

  lemma {:induction false} HasTag(name: string)
    ensures ':' in name <==> |Split(name, ':')| >= 2
  {
    if name != "" { HasTag(name[1..]); }
  }

  function Home(rootdir: string, id: string): string {
    rootdir + "/workspace/" + id
  }

  /** `p` is `dir` or lies below it. */
  predicate Under(dir: string, p: string) {
    p == dir || dir + "/" <= p
  }

  function Bases(order: string): (r: seq<string>)
    ensures |r| == |Split(order, ':')| && forall i | 0 <= i < |r| :: r[i] == Base(Split(order, ':')[i])
  {
    var parts := Split(order, ':');
    seq(|parts|, i requires 0 <= i < |parts| => Base(parts[i]))
  }

  /** The container's `Layers`: "rw", then the image's layers from the top down. */
  function LayersText(order: string): string {
    Join([RW] + Reverse(Bases(order)), ':')
  }

  predicate Repeats(names: seq<string>) {
    exists i, j :: 0 <= i < j < |names| && names[i] == names[j]
  }

  lemma BasesFree(order: string)
    ensures Free(Bases(order), ':')
  {
    SplitPieces(order, ':');
    forall i | 0 <= i < |Bases(order)| ensures ':' !in Bases(order)[i] { BaseWithin(Split(order, ':')[i], ':'); }
  }

  /** Read back as a list, `Layers` is "rw" followed by the reverse of the base names of
      the image's `layer_order`. */
  lemma LayersAreReversed(order: string)
    ensures Split(LayersText(order), ':') == [RW] + Reverse(Bases(order))
  {
    BasesFree(order);
    var parts := [RW] + Reverse(Bases(order));
    forall i | 0 <= i < |parts| ensures ':' !in parts[i] {
      if i > 0 { assert parts[i] == Reverse(Bases(order))[i - 1] == Bases(order)[|Bases(order)| - i]; }
    }
    SplitJoin(parts, ':');
  }

  /** A full name: image and tag, and what a further ":" may bring. */
  predicate Tagged(full: string, name: string, tag: string, more: string) {
    full == name + ":" + tag + more && ':' !in name && ':' !in tag && (more == "" || more[0] == ':')
  }

  lemma TaggedSplit(full: string, name: string, tag: string, more: string)
    requires Tagged(full, name, tag, more)
    ensures ':' in full && |Split(full, ':')| >= 2 && Split(full, ':')[0] == name && Split(full, ':')[1] == tag
  {
    assert full == name + [':'] + (tag + more);
    SplitCons(name, tag + more, ':');
    if more == "" {
      assert tag + more == tag;
      SplitFree(tag, ':');
    } else {
      assert tag + more == tag + [':'] + more[1..];
      SplitCons(tag, more[1..], ':');
    }
    HasTag(full);
  }

  lemma {:induction false} FirstColon(s: string) returns (a: string, b: string)
    requires ':' in s
    ensures s == a + ":" + b && ':' !in a
  {
    if s[0] == ':' {
      a, b := "", s[1..];
    } else {
      a, b := FirstColon(s[1..]);
      assert s == [s[0]] + s[1..];
      a := [s[0]] + a;
    }
  }

  lemma TaggedBy(full: string) returns (name: string, tag: string, more: string)
    requires ':' in full
    ensures Tagged(full, name, tag, more)
  {
    var rest;
    name, rest := FirstColon(full);
    if ':' in rest {
      var tail;
      tag, tail := FirstColon(rest);
      more := ":" + tail;
    } else {
      tag, more := rest, "";
    }
    assert rest == tag + more;
    assert full == name + ":" + (tag + more) == name + ":" + tag + more;
  }

  /** `now` has just one record more or other than `was`: the image `full` and the suffix, with
      this `layer_order`, in the folder of its name and tag. */
  ghost predicate Registered(was: map<string, Image>, now: map<string, Image>, data: string, full: string,
                             suffix: string, order: string)
  {
    exists name, tag, more :: Tagged(full, name, tag, more)
      && now == was[full + suffix := Image(order, data + "/" + name + "/" + tag + suffix)]
  }

  /** What is left of the records when the folder `dir` is removed. */
  ghost predicate Cleared(was: map<string, Info>, now: map<string, Info>, dir: string) {
    && (forall h | h in was :: h in now <==> h != dir && !(dir + "/" <= h))
    && forall h | h in now :: h in was && now[h] == was[h]
  }

  // ----- the steps as functions of the state -----

  function Remove(infos: map<string, Info>, dir: string): map<string, Info> {
    infos - set h | h in infos && Under(dir, h)
  }

  /** `DockerDownload`, `fetched` telling whether the network delivered. */
  function Download(s: State, data: string, name: string, order: string, fetched: bool): State {
    var n := FullName(name);
    HasTag(n);
    if n in s.images || !fetched then s else s.(images := s.images[n := Image(order, Rootdir(data, n))])
  }

  /** `DockerLoad`: the name comes from the archive and is not completed. */
  function Load(s: State, data: string, name: string, order: string): State {
    HasTag(name);
    if name in s.images || ':' !in name then s
    else s.(images := s.images[name := Image(order, Rootdir(data, name))])
  }

  /** `DockerMerge` registers "<name>-merge" without looking whether it exists. */
  function Merge(s: State, data: string, name: string, layer: string, merged: bool): State {
    var n := FullName(name);
    HasTag(n);
    if !merged then s else s.(images := s.images[n + "-merge" := Image(layer, Rootdir(data, n) + "-merge")])
  }

  /** `generateContainer`: no such image, or a layer listed twice (its symlink exists). */
  function Generate(s: State, name: string, id: string, ready: bool): Option<Info> {
    if name !in s.images || Repeats(Bases(s.images[name].layerOrder)) || !ready then None
    else Some(Info(id, Home(s.images[name].rootdir, id), LayersText(s.images[name].layerOrder), name))
  }

  function Append(s: State, con: Info): State {
    s.(containers := s.containers[con.id := Entry(con.home, con.imageBase)])
  }

  /** `Run`, whatever becomes of the set-up and of the shell: a saved `.info` wins over the
      arguments, and the deferred function saves and registers the container. */
  function Run(s: State, args: Info): State {
    var con := if args.home in s.infos then s.infos[args.home] else args;
    Append(s.(infos := s.infos[con.home := con]), con)
  }

  function Create(s: State, name: string, id: string, ready: bool): State {
    match Generate(s, name, id, ready)
    case None => s
    case Some(con) => Run(s, con)
  }

  function Resume(s: State, id: string, live: bool): State {
    if id !in s.containers || s.containers[id].home !in s.infos || live then s
    else Run(s, s.infos[s.containers[id].home])
  }

  function Destroy(s: State, id: string, live: bool): State {
    if id !in s.containers || live then s
    else State(s.images, s.containers - {id}, Remove(s.infos, s.containers[id].home))
  }

  /** `CommonDelete` refuses while some container's `.info` is missing or names the image. */
  predicate MayDelete(s: State, name: string) {
    name in s.images && forall id | id in s.containers ::
      s.containers[id].home in s.infos && s.infos[s.containers[id].home].imageBase != name
  }

  function Delete(s: State, name: string): State {
    if !MayDelete(s, name) then s
    else State(s.images - {name}, s.containers, Remove(s.infos, s.images[name].rootdir))
  }

  predicate MayCommit(s: State, id: string, name: string, live: bool) {
    id in s.containers && s.containers[id].home in s.infos && !live && name !in s.images
  }

  /** `Panicked`: the old image is not registered, and after all its writes the code reads the
      `layer_order` that the new record lacks. */
  datatype CommitOutcome = Committed | Refused | Panicked

  function CommitResult(s: State, id: string, name: string, live: bool): CommitOutcome {
    if !MayCommit(s, id, name, live) then Refused
    else if s.infos[s.containers[id].home].imageBase in s.images then Committed
    else Panicked
  }

  /** The registry side of `DockerCommit`; `tar` is the file name of the new layer and
      `imageDir` the folder of the layer tarballs. A record without `layer_order` is shown
      with an empty one. */
  function Commit(s: State, v: Version, id: string, name: string, rootdir: string,
                  imageDir: string, tar: string, live: bool): State
  {
    if !MayCommit(s, id, name, live) then s
    else
      var con := s.infos[s.containers[id].home];
      var layers := Join([RW, tar] + Split(con.layers, ':')[1..], ':');
      var moved := Info(con.id, Home(rootdir, id), layers, if v == Intended then name else con.imageBase);
      var order := if con.imageBase in s.images then s.images[con.imageBase].layerOrder + ":" + (imageDir + "/" + tar) else "";
      State(s.images[name := Image(order, rootdir)],
            s.containers[con.id := Entry(moved.home, name)],
            Remove(s.infos, con.home)[moved.home := moved])
  }

  // ----- the code -----

  class Lpmx {
    var images: map<string, Image>
    var containers: map<string, Entry>
    var infos: map<string, Info>

    constructor ()
      ensures Now() == State(map[], map[], map[])
    {
      images, containers, infos := map[], map[], map[];
    }

    function Now(): State
      reads this
    {
      State(images, containers, infos)
    }

    method DockerDownload(data: string, name: string, order: string, fetched: bool) returns (ok: bool)
      modifies this
      ensures Now() == Download(old(Now()), data, name, order, fetched)
      ensures var full := if ':' in name then name else name + ":latest";
              && (ok <==> full !in old(images) && fetched)
              && (ok ==> Registered(old(images), images, data, full, "", order))
      ensures (!ok ==> images == old(images)) && containers == old(containers) && infos == old(infos)
    {
      var full := name;
      if ':' !in full { full := full + ":latest"; }
      if full in images { return false; }
      if !fetched { return false; }
      HasTag(full);
      ghost var x, y, more := TaggedBy(full);
      TaggedSplit(full, x, y, more);
      var tdata := Split(full, ':');
      assert full + "" == full && data + "/" + x + "/" + y + "" == data + "/" + x + "/" + y;
      images := images[full := Image(order, data + "/" + tdata[0] + "/" + tdata[1])];
      return true;
    }

    method DockerLoad(data: string, name: string, order: string) returns (ok: bool)
      modifies this
      ensures Now() == Load(old(Now()), data, name, order)
      ensures ok <==> name !in old(images) && ':' in name
      ensures ok ==> Registered(old(images), images, data, name, "", order)
      ensures (!ok ==> images == old(images)) && containers == old(containers) && infos == old(infos)
    {
      if name in images { return false; }
      var tdata := Split(name, ':');
      HasTag(name);
      if |tdata| < 2 { return false; }
      ghost var x, y, more := TaggedBy(name);
      TaggedSplit(name, x, y, more);
      assert name + "" == name && data + "/" + x + "/" + y + "" == data + "/" + x + "/" + y;
      images := images[name := Image(order, data + "/" + tdata[0] + "/" + tdata[1])];
      return true;
    }

    /** The registry part of `DockerMerge`: `layer` is the tarball of the merged folder. */
    method DockerMerge(data: string, name: string, layer: string, merged: bool) returns (ok: bool)
      modifies this
      ensures Now() == Merge(old(Now()), data, name, layer, merged)
      ensures ok <==> merged
      ensures ok ==> Registered(old(images), images, data, if ':' in name then name else name + ":latest", "-merge", layer)
      ensures (!ok ==> images == old(images)) && containers == old(containers) && infos == old(infos)
    {
      var full := name;
      if ':' !in full { full := full + ":latest"; }
      HasTag(full);
      ghost var x, y, more := TaggedBy(full);
      TaggedSplit(full, x, y, more);
      var tdata := Split(full, ':');
      var rootdir := data + "/" + tdata[0] + "/" + tdata[1] + "-merge";
      if !merged { return false; }
      images := images[full + "-merge" := Image(layer, rootdir)];
      return true;
    }

    /** The registry part of `DockerCommit`, in the order of its writes. */
    method DockerCommit(v: Version, id: string, name: string, rootdir: string,
                        imageDir: string, tar: string, live: bool) returns (outcome: CommitOutcome)
      modifies this
      ensures Now() == Commit(old(Now()), v, id, name, rootdir, imageDir, tar, live)
      ensures outcome == CommitResult(old(Now()), id, name, live)
      ensures outcome == Refused <==>
                id !in old(containers) || old(containers)[id].home !in old(infos) || live || name in old(images)
      ensures outcome == Refused ==> images == old(images) && containers == old(containers) && infos == old(infos)
      ensures outcome != Refused ==>
                var con := old(infos)[old(containers)[id].home];
                var home := rootdir + "/workspace/" + id;
                && containers == old(containers)[con.id := Entry(home, name)]
                && home in infos && infos[home].home == home && infos[home].id == con.id
                && infos[home].layers == Join(["rw", tar] + Split(con.layers, ':')[1..], ':')
                && infos[home].imageBase == (if v == Intended then name else con.imageBase)
                && Cleared(old(infos) - {home}, infos - {home}, con.home)
      ensures outcome == Panicked ==> old(infos)[old(containers)[id].home].imageBase !in old(images)
      ensures outcome == Committed ==>
                var con := old(infos)[old(containers)[id].home];
                && con.imageBase in old(images)
                && images == old(images)[name := Image(old(images)[con.imageBase].layerOrder + ":" + imageDir + "/" + tar, rootdir)]
    {
      if id !in containers { return Refused; }
      if containers[id].home !in infos { return Refused; }
      var con := infos[containers[id].home];
      if live { return Refused; }
      if name in images { return Refused; }
      infos := Remove(infos, con.home);
      con := con.(home := rootdir + "/workspace/" + id, layers := Join([RW, tar] + Split(con.layers, ':')[1..], ':'));
      var oldImageBase := con.imageBase;
      if v == Written {
        infos := infos[con.home := con];
        con := con.(imageBase := name);
      } else {
        con := con.(imageBase := name);
        infos := infos[con.home := con];
      }
      AppendToSys(con);
      if oldImageBase !in images {
        images := images[name := Image("", rootdir)];
        return Panicked;
      }
      var order := images[oldImageBase].layerOrder + ":" + (imageDir + "/" + tar);
      assert order == images[oldImageBase].layerOrder + ":" + imageDir + "/" + tar;
      images := images[name := Image(order, rootdir)];
      return Committed;
    }

    /** The layer loop of `generateContainer`. */
    method GenerateContainer(name: string, id: string, ready: bool) returns (con: Option<Info>)
      ensures con == Generate(Now(), name, id, ready)
      ensures con.Some? <==>
              name in images && ready && forall i, j | 0 <= i < j < |Bases(images[name].layerOrder)| ::
                Bases(images[name].layerOrder)[i] != Bases(images[name].layerOrder)[j]
      ensures con.Some? ==>
              && con.value.id == id && con.value.home == images[name].rootdir + "/workspace/" + id && con.value.imageBase == name
              && Split(con.value.layers, ':') == ["rw"] + Reverse(Bases(images[name].layerOrder))
    {
      if name !in images { return None; }
      var image := images[name];
      LayersAreReversed(image.layerOrder);
      var parts := Split(image.layerOrder, ':');
      var keys: seq<string> := [];
      for i := 0 to |parts|
        invariant keys == Bases(image.layerOrder)[..i] && !Repeats(keys)
      {
        var k := Base(parts[i]);
        assert Bases(image.layerOrder)[..i + 1] == keys + [k];
        if k in keys {
          RepeatFound(Bases(image.layerOrder), i);
          return None;
        }
        NoRepeatYet(keys, k);
        keys := keys + [k];
      }
      assert keys == Bases(image.layerOrder);
      if !ready { return None; }
      keys := keys + [RW];
      var reversed := new string[|keys|](i requires 0 <= i < |keys| => keys[i]);
      assert reversed[..] == keys;
      UnionLookup.ReverseStrArray(reversed);
      ReverseSnoc(Bases(image.layerOrder), RW);
      return Some(Info(id, image.rootdir + "/workspace/" + id, Join(reversed[..], ':'), name));
    }

    method AppendToSys(con: Info)
      modifies this`containers
      ensures Now() == Append(old(Now()), con)
      ensures containers == old(containers)[con.id := Entry(con.home, con.imageBase)]
    {
      if con.id !in containers {
        containers := containers[con.id := Entry(con.home, con.imageBase)];
      } else {
        var value := containers[con.id];
        containers := containers[con.id := value.(home := con.home, image := con.imageBase)];
      }
    }

    /** Registers once in the set-up, once before the shell, and once more, deferred, on
        every way out. */
    method RunContainer(args: Info, setUp: bool, started: bool) returns (ok: bool)
      modifies this
      ensures Now() == Run(old(Now()), args)
      ensures var con := if args.home in old(infos) then old(infos)[args.home] else args;
              && images == old(images) && infos == old(infos)[con.home := con]
              && containers == old(containers)[con.id := Entry(con.home, con.imageBase)]
    {
      var con := args;
      ok := true;
      if con.home in infos {
        con := infos[con.home];
      } else if setUp {
        AppendToSys(con);
      } else {
        ok := false;
      }
      if ok {
        AppendToSys(con);
        ok := started;
      }
      infos := infos[con.home := con];
      AppendToSys(con);
    }

    method CommonCreate(name: string, id: string, ready: bool, setUp: bool, started: bool) returns (ok: bool)
      modifies this
      ensures Now() == Create(old(Now()), name, id, ready)
    {
      var con := GenerateContainer(name, id, ready);
      if con == None { return false; }
      ok := RunContainer(con.value, setUp, started);
    }

    method ResumeContainer(id: string, live: bool, started: bool) returns (ok: bool)
      modifies this
      ensures Now() == Resume(old(Now()), id, live)
      ensures if id in old(containers) && old(containers)[id].home in old(infos) && !live then
                var saved := old(infos)[old(containers)[id].home];
                var con := if saved.home in old(infos) then old(infos)[saved.home] else saved;
                && images == old(images) && infos == old(infos)[con.home := con]
                && containers == old(containers)[con.id := Entry(con.home, con.imageBase)]
              else images == old(images) && containers == old(containers) && infos == old(infos)
    {
      if id !in containers { return false; }
      var home := containers[id].home;
      if home !in infos { return false; }
      var con := infos[home];
      if live { return false; }
      ok := RunContainer(con, true, started);
    }

    method DestroyContainer(id: string, live: bool) returns (ok: bool)
      modifies this
      ensures Now() == Destroy(old(Now()), id, live)
      ensures ok <==> id in old(containers) && !live
      ensures images == old(images) && containers == (if ok then old(containers) - {id} else old(containers))
      ensures if ok then Cleared(old(infos), infos, old(containers)[id].home) else infos == old(infos)
    {
      if id !in containers { return false; }
      if live { return false; }
      infos := Remove(infos, containers[id].home);
      containers := containers - {id};
      return true;
    }

    method CommonDelete(name: string) returns (ok: bool)
      modifies this
      ensures Now() == Delete(old(Now()), name)
      ensures ok <==> name in old(images) && forall id | id in old(containers) ::
                old(containers)[id].home in old(infos) && old(infos)[old(containers)[id].home].imageBase != name
      ensures containers == old(containers) && images == (if ok then old(images) - {name} else old(images))
      ensures if ok then name in old(images) && Cleared(old(infos), infos, old(images)[name].rootdir) else infos == old(infos)
    {
      var pending := containers.Keys;
      while pending != {}
        invariant pending <= containers.Keys
        invariant forall id | id in containers && id !in pending ::
          containers[id].home in infos && infos[containers[id].home].imageBase != name
      {
        var id :| id in pending;
        pending := pending - {id};
        if containers[id].home !in infos { return false; }
        if infos[containers[id].home].imageBase == name { return false; }
      }
      if name !in images { return false; }
      infos := Remove(infos, images[name].rootdir);
      images := images - {name};
      return true;
    }

    /** Fast run is neutral: with a fresh id, and nothing alive at the end, every way the
        run can go leaves all three registries as they were. If a process is still alive
        the container stays. */
    method CommonFastRun(name: string, id: string, ready: bool, setUp: bool, started: bool, liveAfter: bool)
      returns (ok: bool)
      requires name in images ==> Fresh(Now(), Home(images[name].rootdir, id), id)
      modifies this
      ensures !liveAfter ==> Now() == old(Now())
      ensures Generate(old(Now()), name, id, ready).Some? ==>
                (ok <==> !liveAfter) && (containers == old(containers) <==> !liveAfter)
    {
      var con := GenerateContainer(name, id, ready);
      if con == None { return false; }
      var ran := RunContainer(con.value, setUp, started);
      ok := DestroyContainer(id, liveAfter);
      if !liveAfter {
        FreshRunUndone(old(Now()), con.value);
      }
    }
  }

  lemma RepeatFound(names: seq<string>, i: nat)
    requires i < |names| && names[i] in names[..i]
    ensures Repeats(names)
  {
    var j :| 0 <= j < i && names[..i][j] == names[i];
    assert names[j] == names[i];
  }

  lemma NoRepeatYet(names: seq<string>, k: string)
    requires !Repeats(names) && k !in names
    ensures !Repeats(names + [k])
  {
    forall i, j | 0 <= i < j < |names + [k]| ensures (names + [k])[i] != (names + [k])[j] {
      assert names[i] in names;
    }
  }

  // ----- fresh containers -----

  /** A new id whose folder is new, and beside every other container's folder. */
  ghost predicate Fresh(s: State, home: string, id: string) {
    && id !in s.containers
    && (forall h | h in s.infos :: !Under(home, h))
    && forall i | i in s.containers :: !Under(home, s.containers[i].home) && !Under(s.containers[i].home, home)
  }

  lemma FreshRunUndone(s: State, con: Info)
    requires Fresh(s, con.home, con.id)
    ensures Destroy(Run(s, con), con.id, false) == s
  {
    assert con.home !in s.infos;
    var ran := Run(s, con);
    assert ran.containers - {con.id} == s.containers;
    assert Remove(ran.infos, con.home) == s.infos;
  }

  // ----- the invariant -----

  /** The container's own record names a registered image, and its layers are that image's
      layers reversed under "rw". */
  ghost predicate Aligned(s: State, id: string)
    requires id in s.containers
  {
    var entry := s.containers[id];
    && entry.home in s.infos
    && var con := s.infos[entry.home];
       && con.id == id && con.home == entry.home && con.imageBase == entry.image
       && con.imageBase in s.images
       && con.layers == LayersText(s.images[con.imageBase].layerOrder)
  }

  ghost predicate Apart(s: State) {
    forall i, j | i in s.containers && j in s.containers && i != j ::
      !Under(s.containers[i].home, s.containers[j].home)
  }

  ghost predicate Inv(s: State) {
    Apart(s) && forall id | id in s.containers :: Aligned(s, id)
  }

  datatype Action =
    | DoDownload(data: string, name: string, order: string, fetched: bool)
    | DoLoad(data: string, name: string, order: string)
    | DoMerge(data: string, name: string, layer: string, merged: bool)
    | DoCreate(name: string, id: string, ready: bool)
    | DoResume(id: string, live: bool)
    | DoDestroy(id: string, live: bool)
    | DoDelete(name: string)
    | DoCommit(v: Version, id: string, name: string, rootdir: string, imageDir: string, tar: string, live: bool)

  function Apply(s: State, a: Action): State {
    match a
    case DoDownload(data, name, order, fetched) => Download(s, data, name, order, fetched)
    case DoLoad(data, name, order) => Load(s, data, name, order)
    case DoMerge(data, name, layer, merged) => Merge(s, data, name, layer, merged)
    case DoCreate(name, id, ready) => Create(s, name, id, ready)
    case DoResume(id, live) => Resume(s, id, live)
    case DoDestroy(id, live) => Destroy(s, id, live)
    case DoDelete(name) => Delete(s, name)
    case DoCommit(v, id, name, rootdir, imageDir, tar, live) => Commit(s, v, id, name, rootdir, imageDir, tar, live)
  }

  /** No container lives in a folder below the one a deletion removes. */
  ghost predicate NoneUnder(s: State, dir: string) {
    forall i | i in s.containers :: !Under(dir, s.containers[i].home)
  }

  predicate TarName(tar: string) {
    tar != "" && '/' !in tar && ':' !in tar
  }

  /** Random ids are fresh; a merge makes a new name; a deletion removes no container's
      folder; a commit is the intended one, and moves to a new folder. */
  ghost predicate Allowed(s: State, a: Action) {
    match a
    case DoMerge(_, name, _, _) => FullName(name) + "-merge" !in s.images
    case DoCreate(name, id, _) => name in s.images ==> Fresh(s, Home(s.images[name].rootdir, id), id)
    case DoDelete(name) => name in s.images ==> NoneUnder(s, s.images[name].rootdir)
    case DoCommit(v, id, _, rootdir, imageDir, tar, _) =>
      && v == Intended && TarName(tar) && ':' !in imageDir
      && forall i | i in s.containers && i != id ::
           !Under(Home(rootdir, id), s.containers[i].home) && !Under(s.containers[i].home, Home(rootdir, id))
    case _ => true
  }

  ghost predicate AllowedRun(s: State, actions: seq<Action>)
    decreases |actions|
  {
    actions == [] || (Allowed(s, actions[0]) && AllowedRun(Apply(s, actions[0]), actions[1..]))
  }

  function RunAll(s: State, actions: seq<Action>): State
    decreases |actions|
  {
    if actions == [] then s else RunAll(Apply(s, actions[0]), actions[1..])
  }

  lemma MoreImages(s: State, images: map<string, Image>)
    requires Inv(s)
    requires forall n | n in s.images :: n in images && images[n] == s.images[n]
    ensures Inv(s.(images := images))
  {
    forall id | id in s.containers ensures Aligned(s.(images := images), id) { assert Aligned(s, id); }
  }

  lemma CreateKeeps(s: State, name: string, id: string, ready: bool)
    requires Inv(s) && (name in s.images ==> Fresh(s, Home(s.images[name].rootdir, id), id))
    ensures Inv(Create(s, name, id, ready))
  {
    var s' := Create(s, name, id, ready);
    if Generate(s, name, id, ready).Some? {
      var con := Generate(s, name, id, ready).value;
      FreshKeeps(s, con);
    }
  }

  lemma FreshKeeps(s: State, con: Info)
    requires Inv(s) && Fresh(s, con.home, con.id)
    requires con.imageBase in s.images && con.layers == LayersText(s.images[con.imageBase].layerOrder)
    ensures Inv(Run(s, con))
  {
    var s' := Run(s, con);
    assert Under(con.home, con.home);
    assert s' == State(s.images, s.containers[con.id := Entry(con.home, con.imageBase)], s.infos[con.home := con]);
    forall i | i in s'.containers ensures Aligned(s', i) {
      if i != con.id { OtherAligned(s, s', con, i); }
    }
  }

  /** A record written elsewhere leaves a container aligned. */
  lemma OtherAligned(s: State, s': State, con: Info, i: string)
    requires i in s.containers && Aligned(s, i) && i != con.id && !Under(con.home, s.containers[i].home)
    requires s'.images == s.images && s'.infos == s.infos[con.home := con]
    requires s'.containers == s.containers[con.id := Entry(con.home, con.imageBase)]
    ensures Aligned(s', i)
  {
    assert Under(con.home, con.home);
  }

  lemma ResumeKeeps(s: State, id: string, live: bool)
    requires Inv(s)
    ensures Resume(s, id, live) == s
  {
    if id in s.containers {
      assert Aligned(s, id);
      var con := s.infos[s.containers[id].home];
      assert s.infos[con.home := con] == s.infos;
      assert s.containers[con.id := Entry(con.home, con.imageBase)] == s.containers;
    }
  }

  lemma DestroyKeeps(s: State, id: string, live: bool)
    requires Inv(s)
    ensures Inv(Destroy(s, id, live))
  {
    var s' := Destroy(s, id, live);
    forall i | i in s'.containers ensures Aligned(s', i) { assert Aligned(s, i); }
  }

  /** Deleting an image that no container relies on keeps the invariant exactly when no
      container's folder lies below the image's folder. */
  lemma DeleteIff(s: State, name: string)
    requires Inv(s) && MayDelete(s, name)
    ensures Inv(Delete(s, name)) <==> NoneUnder(s, s.images[name].rootdir)
  {
    var s' := Delete(s, name);
    var dir := s.images[name].rootdir;
    if NoneUnder(s, dir) {
      forall i | i in s'.containers ensures Aligned(s', i) { assert Aligned(s, i); }
    } else {
      var i :| i in s.containers && Under(dir, s.containers[i].home);
      assert !Aligned(s', i);
    }
  }

  /** A merge, even onto an existing name, keeps the invariant exactly when no container
      names that image, or the new record lists the layers the old one listed. */
  lemma MergeIff(s: State, data: string, name: string, layer: string)
    requires Inv(s)
    ensures var target := FullName(name) + "-merge";
            Inv(Merge(s, data, name, layer, true)) <==>
            ((forall i | i in s.containers :: s.containers[i].image != target)
             || (target in s.images && Bases(s.images[target].layerOrder) == Bases(layer)))
  {
    var target, s' := FullName(name) + "-merge", Merge(s, data, name, layer, true);
    HasTag(FullName(name));
    forall i | i in s.containers
      ensures Aligned(s', i) <==>
              (s.containers[i].image == target ==> Bases(s.images[target].layerOrder) == Bases(layer))
    {
      assert Aligned(s, i);
      if s.containers[i].image == target { SameLayers(s.images[target].layerOrder, layer); }
    }
  }

  /** The layer text tells the base names of an image's layers. */
  lemma SameLayers(order: string, other: string)
    ensures LayersText(order) == LayersText(other) <==> Bases(order) == Bases(other)
  {
    LayersAreReversed(order);
    LayersAreReversed(other);
    if LayersText(order) == LayersText(other) {
      assert ([RW] + Reverse(Bases(order)))[1..] == Reverse(Bases(order));
      assert ([RW] + Reverse(Bases(other)))[1..] == Reverse(Bases(other));
      ReverseSame(Bases(order), Bases(other));
    }
  }

  lemma ReverseSame(a: seq<string>, b: seq<string>)
    requires Reverse(a) == Reverse(b)
    ensures a == b
  {
    assert |a| == |Reverse(a)| == |b|;
    forall k | 0 <= k < |a| ensures a[k] == b[k] {
      assert Reverse(a)[|a| - 1 - k] == a[k] && Reverse(b)[|a| - 1 - k] == b[k];
    }
  }

  // ----- commit and the layer list -----

  /** Appending a layer to an image's order puts it on top, under "rw". */
  lemma OrderOnTop(order: string, imageDir: string, tar: string)
    requires TarName(tar) && ':' !in imageDir
    ensures [RW] + Reverse(Bases(order + ":" + (imageDir + "/" + tar))) == [RW, tar] + Reverse(Bases(order))
  {
    var last := imageDir + "/" + tar;
    assert ':' !in last;
    SplitSnoc(order, last, ':');
    BaseOf(imageDir, tar);
    BasesSnoc(order, last, order + ":" + last);
    ReverseSnoc(Bases(order), tar);
  }

  lemma BasesSnoc(order: string, last: string, all: string)
    requires Split(all, ':') == Split(order, ':') + [last]
    ensures Bases(all) == Bases(order) + [Base(last)]
  {
  }

  lemma {:induction false} AfterSlashOf(dir: string, name: string)
    requires '/' !in name
    ensures AfterSlash(dir + "/" + name) == name
    decreases |name|
  {
    var p := dir + "/" + name;
    if name != "" {
      var k := |name| - 1;
      assert p[..|p| - 1] == dir + "/" + name[..k];
      AfterSlashOf(dir, name[..k]);
      assert name == name[..k] + [name[k]];
    }
  }

  lemma BaseOf(dir: string, name: string)
    requires name != "" && '/' !in name
    ensures Base(dir + "/" + name) == name
  {
    var p := dir + "/" + name;
    assert p[|p| - 1] == name[|name| - 1];
    AfterSlashOf(dir, name);
  }

  /** The list in a container's `.info` is that of image `name`. */
  ghost predicate Matches(s: State, id: string, name: string) {
    && id in s.containers && s.containers[id].home in s.infos && name in s.images
    && Split(s.infos[s.containers[id].home].layers, ':') == [RW] + Reverse(Bases(s.images[name].layerOrder))
  }

  lemma SplitCommitted(layers: string, tar: string)
    requires TarName(tar)
    ensures Split(Join([RW, tar] + Split(layers, ':')[1..], ':'), ':') == [RW, tar] + Split(layers, ':')[1..]
  {
    SplitPieces(layers, ':');
    var parts := [RW, tar] + Split(layers, ':')[1..];
    forall i | 0 <= i < |parts| ensures ':' !in parts[i] {
      if i >= 2 { assert parts[i] == Split(layers, ':')[i - 1]; }
    }
    SplitJoin(parts, ':');
  }

  /** In either version: after a commit the container's layers are the reverse of the new
      image's `layer_order` exactly when, below "rw", its saved layers were the reverse of
      the `layer_order` of the image that its saved record named. */
  lemma CommitIff(s: State, v: Version, id: string, name: string, rootdir: string, imageDir: string, tar: string)
    requires MayCommit(s, id, name, false) && TarName(tar) && ':' !in imageDir
    requires var con := s.infos[s.containers[id].home];
             con.id == id && con.imageBase in s.images
    ensures var con := s.infos[s.containers[id].home];
            Matches(Commit(s, v, id, name, rootdir, imageDir, tar, false), id, name) <==>
            Split(con.layers, ':')[1..] == Reverse(Bases(s.images[con.imageBase].layerOrder))
  {
    var con := s.infos[s.containers[id].home];
    var order := s.images[con.imageBase].layerOrder;
    OrderOnTop(order, imageDir, tar);
    SplitCommitted(con.layers, tar);
    var was, want := Split(con.layers, ':')[1..], Reverse(Bases(order));
    assert ([RW, tar] + was)[2..] == was && ([RW, tar] + want)[2..] == want;
  }

  /** The first commit of a well-kept container is right, as written. The record it leaves
      names the old image, so a second commit gets it wrong; LaterCommitsFail is about any
      number of them. */
  lemma SecondCommitFails(s: State, id: string, name: string, rootdir: string, imageDir: string, tar: string,
                          name2: string, rootdir2: string, tar2: string)
    requires Inv(s) && MayCommit(s, id, name, false) && TarName(tar) && ':' !in imageDir
    requires var s1 := Commit(s, Written, id, name, rootdir, imageDir, tar, false);
             MayCommit(s1, id, name2, false) && TarName(tar2)
    ensures var s1 := Commit(s, Written, id, name, rootdir, imageDir, tar, false);
            Matches(s1, id, name)
            && !Matches(Commit(s1, Written, id, name2, rootdir2, imageDir, tar2, false), id, name2)
  {
    assert Aligned(s, id);
    var con := s.infos[s.containers[id].home];
    var order := s.images[con.imageBase].layerOrder;
    LayersAreReversed(order);
    assert ([RW] + Reverse(Bases(order)))[1..] == Reverse(Bases(order));
    CommitIff(s, Written, id, name, rootdir, imageDir, tar);
    var s1 := Commit(s, Written, id, name, rootdir, imageDir, tar, false);
    CommitIff(s1, Written, id, name2, rootdir2, imageDir, tar2);
    SplitCommitted(con.layers, tar);
    var con1 := s1.infos[s1.containers[id].home];
    assert con1.imageBase == con.imageBase && s1.images[con.imageBase].layerOrder == order;
    assert |Split(con1.layers, ':')[1..]| == |Reverse(Bases(order))| + 1;
  }

  /** What as-written commits leave of container `id`: its record still names the first image,
      whose list is `n` layers behind the container's. */
  ghost predicate Behind(s: State, id: string, first: string, n: nat) {
    && id in s.containers && s.containers[id].home in s.infos && first in s.images
    && var con := s.infos[s.containers[id].home];
       && con.id == id && con.home == s.containers[id].home && con.imageBase == first
       && |Split(con.layers, ':')| == 1 + n + |Bases(s.images[first].layerOrder)|
  }

  /** The record of container `i`, if there is one, is its own. */
  ghost predicate OwnRecord(s: State, i: string) {
    i in s.containers && s.containers[i].home in s.infos ==>
      var con := s.infos[s.containers[i].home];
      con.id == i && con.home == s.containers[i].home
  }

  /** A later step that commits or resumes container `id` as written, or leaves alone what is
      saved about it: a download or load, a merge onto a new name, a new container, a step of
      another one whose folder is elsewhere, a deletion of an image folder elsewhere. */
  ghost predicate LaterStep(s: State, a: Action, id: string)
    requires id in s.containers
  {
    var home := s.containers[id].home;
    match a
    case DoDownload(_, _, _, _) => true
    case DoLoad(_, _, _) => true
    case DoMerge(_, name, _, _) => FullName(name) + "-merge" !in s.images
    case DoCreate(name, i, _) => name in s.images ==> Fresh(s, Home(s.images[name].rootdir, i), i)
    case DoResume(i, _) => i == id || OwnRecord(s, i)
    case DoDestroy(i, _) => i != id && (i in s.containers ==> !Under(s.containers[i].home, home))
    case DoDelete(name) => name in s.images ==> !Under(s.images[name].rootdir, home)
    case DoCommit(v, i, _, rootdir, imageDir, tar, _) =>
      if i == id then v == Written && TarName(tar) && ':' !in imageDir
      else OwnRecord(s, i) && Home(rootdir, i) != home && (i in s.containers ==> !Under(s.containers[i].home, home))
  }

  ghost predicate LaterRun(s: State, actions: seq<Action>, id: string)
    decreases |actions|
  {
    actions == []
    || (id in s.containers && LaterStep(s, actions[0], id) && LaterRun(Apply(s, actions[0]), actions[1..], id))
  }

  predicate CommitsNow(s: State, a: Action, id: string) {
    a.DoCommit? && a.id == id && MayCommit(s, id, a.name, a.live)
  }

  /** The images that commits of the container have registered and no deletion has removed. */
  function Noted(s: State, a: Action, id: string, names: set<string>): set<string> {
    if CommitsNow(s, a, id) then names + {a.name}
    else if a.DoDelete? && MayDelete(s, a.name) then names - {a.name}
    else names
  }

  function CommittedNames(s: State, actions: seq<Action>, id: string, names: set<string>): set<string>
    decreases |actions|
  {
    if actions == [] then names
    else CommittedNames(Apply(s, actions[0]), actions[1..], id, Noted(s, actions[0], id, names))
  }

  /** Every image among `names` has exactly one layer more than the first one. */
  ghost predicate OneMore(s: State, first: string, names: set<string>) {
    && first in s.images && first !in names
    && forall m | m in names ::
         m in s.images && |Bases(s.images[m].layerOrder)| == 1 + |Bases(s.images[first].layerOrder)|
  }

  lemma CommitBehind(s: State, id: string, first: string, n: nat, names: set<string>, name: string, rootdir: string,
                     imageDir: string, tar: string)
    requires Behind(s, id, first, n) && OneMore(s, first, names)
    requires MayCommit(s, id, name, false) && TarName(tar) && ':' !in imageDir
    ensures var s' := Commit(s, Written, id, name, rootdir, imageDir, tar, false);
            Behind(s', id, first, n + 1) && OneMore(s', first, names + {name})
  {
    var con := s.infos[s.containers[id].home];
    SplitCommitted(con.layers, tar);
    OrderOnTop(s.images[first].layerOrder, imageDir, tar);
    var order := s.images[first].layerOrder + ":" + (imageDir + "/" + tar);
    assert |[RW] + Reverse(Bases(order))| == |[RW, tar] + Reverse(Bases(s.images[first].layerOrder))|;
  }

  /** The container's folder and record stay as they are. */
  ghost predicate Untouched(s: State, s': State, id: string) {
    && id in s.containers && id in s'.containers && s'.containers[id].home == s.containers[id].home
    && var home := s.containers[id].home;
       home in s.infos && home in s'.infos && s'.infos[home] == s.infos[home]
  }

  lemma UntouchedBehind(s: State, s': State, id: string, first: string, n: nat, names: set<string>, names': set<string>)
    requires Behind(s, id, first, n) && OneMore(s, first, names) && Untouched(s, s', id) && names' <= names
    requires forall m | m == first || m in names' :: m in s.images && m in s'.images && s'.images[m] == s.images[m]
    ensures Behind(s', id, first, n) && OneMore(s', first, names')
  {
  }

  lemma OtherStep(s: State, id: string, first: string, n: nat, a: Action)
    requires Behind(s, id, first, n) && LaterStep(s, a, id) && !CommitsNow(s, a, id)
    ensures Untouched(s, Apply(s, a), id)
  {
    match a
    case DoDownload(data, name, order, fetched) => HasTag(FullName(name));
    case DoLoad(data, name, order) => HasTag(name);
    case DoMerge(data, name, layer, merged) => HasTag(FullName(name));
    case DoCreate(name, i, ready) => CreateBeside(s, id, name, i, ready);
    case DoResume(i, live) =>
    case DoDestroy(i, live) =>
    case DoDelete(name) =>
    case DoCommit(v, i, name, rootdir, imageDir, tar, live) =>
  }

  lemma CreateBeside(s: State, id: string, name: string, i: string, ready: bool)
    requires id in s.containers && s.containers[id].home in s.infos
    requires name in s.images ==> Fresh(s, Home(s.images[name].rootdir, i), i)
    ensures Untouched(s, Create(s, name, i, ready), id)
  {
    if Generate(s, name, i, ready).Some? {
      var con := Generate(s, name, i, ready).value;
      assert Under(con.home, con.home);
    }
  }

  lemma OtherImages(s: State, id: string, a: Action, m: string)
    requires id in s.containers && LaterStep(s, a, id) && m in s.images
    requires !(a.DoDelete? && MayDelete(s, a.name) && a.name == m)
    ensures m in Apply(s, a).images && Apply(s, a).images[m] == s.images[m]
  {
    match a
    case DoDownload(data, name, order, fetched) => HasTag(FullName(name));
    case DoLoad(data, name, order) => HasTag(name);
    case DoMerge(data, name, layer, merged) => HasTag(FullName(name));
    case _ =>
  }

  /** No deletion takes the first image: the container's record still names it. */
  lemma FirstStays(s: State, id: string, first: string, n: nat)
    requires Behind(s, id, first, n)
    ensures !MayDelete(s, first)
  {
  }

  lemma LaterKeeps(s: State, id: string, first: string, n: nat, names: set<string>, a: Action)
    requires Behind(s, id, first, n) && OneMore(s, first, names) && LaterStep(s, a, id)
    ensures Behind(Apply(s, a), id, first, if CommitsNow(s, a, id) then n + 1 else n)
    ensures OneMore(Apply(s, a), first, Noted(s, a, id, names))
  {
    if CommitsNow(s, a, id) {
      CommitBehind(s, id, first, n, names, a.name, a.rootdir, a.imageDir, a.tar);
    } else {
      OtherStep(s, id, first, n, a);
      FirstStays(s, id, first, n);
      var names' := Noted(s, a, id, names);
      forall m | m == first || m in names' ensures m in s.images && m in Apply(s, a).images && Apply(s, a).images[m] == s.images[m] {
        OtherImages(s, id, a, m);
      }
      UntouchedBehind(s, Apply(s, a), id, first, n, names, names');
    }
  }

  /** The list of a container that is two layers ahead is no later image's. */
  lemma NoneMatches(s: State, id: string, first: string, n: nat, names: set<string>, name: string)
    requires Behind(s, id, first, n) && OneMore(s, first, names) && name in names && n >= 2
    ensures name in s.images && !Matches(s, id, name)
  {
    var order := s.images[name].layerOrder;
    assert |[RW] + Reverse(Bases(order))| == 1 + |Bases(order)|;
  }

  lemma {:induction false} LaterFails(s: State, id: string, first: string, n: nat, names: set<string>, actions: seq<Action>)
    requires Behind(s, id, first, n) && OneMore(s, first, names) && n >= 1 && (n == 1 ==> names == {})
    requires LaterRun(s, actions, id)
    ensures var after := RunAll(s, actions);
            forall m | m in CommittedNames(s, actions, id, names) :: m in after.images && !Matches(after, id, m)
    decreases |actions|
  {
    if actions == [] {
      forall m | m in names ensures m in s.images && !Matches(s, id, m) { NoneMatches(s, id, first, n, names, m); }
    } else {
      var a := actions[0];
      LaterKeeps(s, id, first, n, names, a);
      LaterFails(Apply(s, a), id, first, if CommitsNow(s, a, id) then n + 1 else n, Noted(s, a, id, names), actions[1..]);
    }
  }

  lemma FirstCommit(s: State, id: string, name: string, rootdir: string, imageDir: string, tar: string)
    requires Inv(s) && MayCommit(s, id, name, false) && TarName(tar) && ':' !in imageDir
    ensures var s1, first := Commit(s, Written, id, name, rootdir, imageDir, tar, false), s.infos[s.containers[id].home].imageBase;
            Matches(s1, id, name) && Behind(s1, id, first, 1) && OneMore(s1, first, {})
  {
    assert Aligned(s, id);
    var con := s.infos[s.containers[id].home];
    var order := s.images[con.imageBase].layerOrder;
    LayersAreReversed(order);
    assert ([RW] + Reverse(Bases(order)))[1..] == Reverse(Bases(order));
    CommitIff(s, Written, id, name, rootdir, imageDir, tar);
    assert Behind(s, id, con.imageBase, 0) && OneMore(s, con.imageBase, {});
    CommitBehind(s, id, con.imageBase, 0, {}, name, rootdir, imageDir, tar);
    assert {} + {name} == {name};
  }

  /** The first commit of a well-kept container is right, as written. Whatever runs after it,
      as long as what is saved about the container is left alone, none of the images that later
      commits of it registered has the container's layers. */
  lemma LaterCommitsFail(s: State, id: string, name: string, rootdir: string, imageDir: string, tar: string,
                         actions: seq<Action>)
    requires Inv(s) && MayCommit(s, id, name, false) && TarName(tar) && ':' !in imageDir
    requires LaterRun(Commit(s, Written, id, name, rootdir, imageDir, tar, false), actions, id)
    ensures var s1 := Commit(s, Written, id, name, rootdir, imageDir, tar, false);
            var after := RunAll(s1, actions);
            && Matches(s1, id, name)
            && forall m | m in CommittedNames(s1, actions, id, {}) :: m in after.images && !Matches(after, id, m)
  {
    FirstCommit(s, id, name, rootdir, imageDir, tar);
    var s1 := Commit(s, Written, id, name, rootdir, imageDir, tar, false);
    LaterFails(s1, id, s.infos[s.containers[id].home].imageBase, 1, {}, actions);
  }

  lemma CommitKeeps(s: State, id: string, name: string, rootdir: string, imageDir: string, tar: string, live: bool)
    requires Inv(s) && Allowed(s, DoCommit(Intended, id, name, rootdir, imageDir, tar, live))
    ensures Inv(Commit(s, Intended, id, name, rootdir, imageDir, tar, live))
  {
    if MayCommit(s, id, name, live) {
      var s' := Commit(s, Intended, id, name, rootdir, imageDir, tar, live);
      CommittedAligned(s, id, name, rootdir, imageDir, tar);
      assert Aligned(s, id);
      forall i | i in s'.containers && i != id ensures Aligned(s', i) {
        assert Aligned(s, i);
        assert !Under(s.containers[id].home, s.containers[i].home);
      }
    }
  }

  lemma CommittedAligned(s: State, id: string, name: string, rootdir: string, imageDir: string, tar: string)
    requires Inv(s) && MayCommit(s, id, name, false) && TarName(tar) && ':' !in imageDir
    ensures var s' := Commit(s, Intended, id, name, rootdir, imageDir, tar, false);
            id in s'.containers && Aligned(s', id)
  {
    assert Aligned(s, id);
    var con := s.infos[s.containers[id].home];
    var order := s.images[con.imageBase].layerOrder;
    LayersAreReversed(order);
    OrderOnTop(order, imageDir, tar);
    assert ([RW] + Reverse(Bases(order)))[1..] == Reverse(Bases(order));
  }

  lemma StepKeeps(s: State, a: Action)
    requires Inv(s) && Allowed(s, a)
    ensures Inv(Apply(s, a))
  {
    match a
    case DoDownload(data, name, order, fetched) =>
      HasTag(FullName(name));
      if Apply(s, a) != s { MoreImages(s, Apply(s, a).images); }
    case DoLoad(data, name, order) =>
      HasTag(name);
      if Apply(s, a) != s { MoreImages(s, Apply(s, a).images); }
    case DoMerge(data, name, layer, merged) =>
      HasTag(FullName(name));
      if Apply(s, a) != s { MoreImages(s, Apply(s, a).images); }
    case DoCreate(name, id, ready) => CreateKeeps(s, name, id, ready);
    case DoResume(id, live) => ResumeKeeps(s, id, live);
    case DoDestroy(id, live) => DestroyKeeps(s, id, live);
    case DoDelete(name) => if MayDelete(s, name) { DeleteIff(s, name); }
    case DoCommit(v, id, name, rootdir, imageDir, tar, live) => CommitKeeps(s, id, name, rootdir, imageDir, tar, live);
  }

  /** Over every run: each registered container's image is still registered, and its layers
      read back as "rw" and the reverse of that image's `layer_order`. */
  lemma {:induction false} EveryRunAligned(s: State, actions: seq<Action>)
    requires Inv(s) && AllowedRun(s, actions)
    ensures var after := RunAll(s, actions);
            Inv(after) && forall id | id in after.containers :: Matches(after, id, after.containers[id].image)
    decreases |actions|
  {
    if actions == [] {
      forall id | id in s.containers ensures Matches(s, id, s.containers[id].image) {
        assert Aligned(s, id);
        LayersAreReversed(s.images[s.containers[id].image].layerOrder);
      }
    } else {
      StepKeeps(s, actions[0]);
      EveryRunAligned(Apply(s, actions[0]), actions[1..]);
    }
  }

  // ----- image folders can nest -----

  lemma NestedRun(data: string, outer: string, inner: string, order: string, id: string)
    requires outer != inner && |Split(outer, ':')| >= 2 && |Split(inner, ':')| >= 2 && !Repeats(Bases(order))
    requires Under(Rootdir(data, outer), Home(Rootdir(data, inner), id))
    ensures var s0 := State(map[], map[], map[]);
            var s := Create(Load(Load(s0, data, outer, order), data, inner, order), inner, id, true);
            Inv(s) && MayDelete(s, outer) && id in s.containers && !Inv(Delete(s, outer))
  {
    HasTag(outer);
    HasTag(inner);
    var s0 := State(map[], map[], map[]);
    var s1 := Load(s0, data, outer, order);
    var s2 := Load(s1, data, inner, order);
    CreateKeeps(s2, inner, id, true);
    var s := Create(s2, inner, id, true);
    assert s.containers[id].home == Home(Rootdir(data, inner), id);
    DeleteIff(s, outer);
  }

  /** The folder of "x:y" is above that of "x/y:z": deleting the first image, on which
      nothing relies, takes away the `.info` of a container of the second. */
  lemma NestedImages(data: string, order: string, id: string)
    requires !Repeats(Bases(order))
    ensures var outer, inner := "x:y", "x/y:z";
            var s0 := State(map[], map[], map[]);
            var s := Create(Load(Load(s0, data, outer, order), data, inner, order), inner, id, true);
            Inv(s) && MayDelete(s, outer) && id in s.containers && !Inv(Delete(s, outer))
  {
    TaggedName("x", "y", "x:y");
    TaggedName("x/y", "z", "x/y:z");
    NestedFolders(data, "x", "y", "z", id);
    assert "x" + "/" + "y" == "x/y";
    NestedRun(data, "x:y", "x/y:z", order, id);
  }

  lemma TaggedName(name: string, tag: string, full: string)
    requires ':' !in name && ':' !in tag && full == name + [':'] + tag
    ensures Split(full, ':') == [name, tag]
  {
    SplitCons(name, tag, ':');
    SplitFree(tag, ':');
  }

  lemma NestedFolders(data: string, name: string, tag: string, deeper: string, id: string)
    ensures var dir := data + "/" + name + "/" + tag;
            Under(dir, Home(data + "/" + (name + "/" + tag) + "/" + deeper, id))
  {
    var dir := data + "/" + name + "/" + tag;
    assert Home(data + "/" + (name + "/" + tag) + "/" + deeper, id) == dir + "/" + (deeper + "/workspace/" + id);
  }
}
