/** `compose`: validation of a compose file and the order its apps are started in. */
module ComposeOrder {
  import opened Strings

  const VERSION := "1"

  datatype App = App(name: string, image: string, imageType: string, expose: seq<string>, port: seq<string>,
                     share: seq<string>, inject: seq<string>, depends: seq<string>, envs: seq<string>)

  predicate AllContain(texts: seq<string>, c: char) {
    forall i | 0 <= i < |texts| :: c in texts[i]
  }

  predicate ValidApp(a: App) {
    && a.name != "" && a.image != "" && a.imageType in {"docker", "singularity"}
    && AllContain(a.expose, ':') && AllContain(a.port, ':') && AllContain(a.share, ':') && AllContain(a.inject, ':')
    && AllContain(a.envs, '=')
  }

  function Names(apps: seq<App>): (r: seq<string>)
    ensures |r| == |apps| && forall i | 0 <= i < |r| :: r[i] == apps[i].name
  {
    seq(|apps|, i requires 0 <= i < |apps| => apps[i].name)
  }

  /** All `depends` entries of the file, one after the other. */
  function Flat(apps: seq<App>): seq<string> {
    if apps == [] then [] else Flat(apps[..|apps| - 1]) + apps[|apps| - 1].depends
  }

  function Count(names: seq<string>, name: string): nat {
    if names == [] then 0
    else Count(names[..|names| - 1], name) + if names[|names| - 1] == name then 1 else 0
  }

  predicate Distinct(names: seq<string>) {
    forall i, j | 0 <= i < j < |names| :: names[i] != names[j]
  }

  ghost predicate ValidFile(version: string, apps: seq<App>) {
    && version != "" && TrimSpace(version) == VERSION
    && (forall i | 0 <= i < |apps| :: ValidApp(apps[i]))
    && Distinct(Names(apps))
    && forall d | d in Flat(apps) :: d in Names(apps)
  }

  /** An int8 counter. */
  function Wrap8(n: int): int {
    (n + 128) % 256 - 128
  }

  function Weight(apps: seq<App>, name: string): int {
    Wrap8(Count(Flat(apps), name))
  }

  datatype Validated = Invalid | Ordered(first: seq<string>, rest: seq<string>, apps: map<string, App>)

  /** What validation promises of its two lists: together every app once, the first list
      exactly the apps somebody depends on, heaviest counter first. */
  ghost predicate StartOrder(apps: seq<App>, first: seq<string>, rest: seq<string>) {
    && Distinct(first + rest)
    && (forall n :: n in first + rest <==> n in Names(apps))
    && (forall n :: n in first <==> n in Flat(apps))
    && forall i, j | 0 <= i < j < |first| :: Weight(apps, first[i]) >= Weight(apps, first[j])
  }

  /** What the file may say, field by field. */
  ghost predicate Acceptable(version: string, apps: seq<App>) {
    && Around(version, "1")
    && (forall i | 0 <= i < |apps| :: apps[i].name != "" && apps[i].image != "")
    && (forall i | 0 <= i < |apps| :: apps[i].imageType == "docker" || apps[i].imageType == "singularity")
    && (forall i, s | 0 <= i < |apps| && s in apps[i].expose :: ':' in s)
    && (forall i, s | 0 <= i < |apps| && s in apps[i].port :: ':' in s)
    && (forall i, s | 0 <= i < |apps| && s in apps[i].share :: ':' in s)
    && (forall i, s | 0 <= i < |apps| && s in apps[i].inject :: ':' in s)
    && (forall i, s | 0 <= i < |apps| && s in apps[i].envs :: '=' in s)
    && (forall i, j | 0 <= i < j < |apps| :: apps[i].name != apps[j].name)
    && forall i, d | 0 <= i < |apps| && d in apps[i].depends :: exists j :: 0 <= j < |apps| && apps[j].name == d
  }

  lemma {:induction false} FlatFrom(apps: seq<App>, d: string) returns (i: nat)
    requires d in Flat(apps)
    ensures i < |apps| && d in apps[i].depends
    decreases |apps|
  {
    var n := |apps| - 1;
    if d in apps[n].depends { i := n; } else { i := FlatFrom(apps[..n], d); }
  }

  lemma AppIff(a: App)
    ensures ValidApp(a) <==>
            && a.name != "" && a.image != "" && (a.imageType == "docker" || a.imageType == "singularity")
            && (forall s | s in a.expose :: ':' in s) && (forall s | s in a.port :: ':' in s)
            && (forall s | s in a.share :: ':' in s) && (forall s | s in a.inject :: ':' in s)
            && forall s | s in a.envs :: '=' in s
  {
    ContainIff(a.expose, ':');
    ContainIff(a.port, ':');
    ContainIff(a.share, ':');
    ContainIff(a.inject, ':');
    ContainIff(a.envs, '=');
  }

  lemma ContainIff(texts: seq<string>, c: char)
    ensures AllContain(texts, c) <==> forall s | s in texts :: c in s
  {
  }

  lemma DependsIff(apps: seq<App>)
    ensures (forall d | d in Flat(apps) :: d in Names(apps)) <==>
            forall i, d | 0 <= i < |apps| && d in apps[i].depends :: exists j :: 0 <= j < |apps| && apps[j].name == d
  {
    if forall d | d in Flat(apps) :: d in Names(apps) {
      forall i, d | 0 <= i < |apps| && d in apps[i].depends ensures exists j :: 0 <= j < |apps| && apps[j].name == d {
        DependsIn(apps, i, d);
        var j :| 0 <= j < |apps| && Names(apps)[j] == d;
        assert apps[j].name == d;
      }
    } else {
      var d :| d in Flat(apps) && d !in Names(apps);
      var i := FlatFrom(apps, d);
      assert forall j | 0 <= j < |apps| :: Names(apps)[j] == apps[j].name;
      assert d in apps[i].depends;
    }
  }

  lemma DistinctIff(apps: seq<App>)
    ensures Distinct(Names(apps)) <==> forall i, j | 0 <= i < j < |apps| :: apps[i].name != apps[j].name
  {
    assert forall i | 0 <= i < |apps| :: Names(apps)[i] == apps[i].name;
    if Distinct(Names(apps)) {
      forall i, j | 0 <= i < j < |apps| ensures apps[i].name != apps[j].name { assert Names(apps)[i] != Names(apps)[j]; }
    }
  }

  /** The valid files are the acceptable ones. */
  lemma ValidIff(version: string, apps: seq<App>)
    ensures ValidFile(version, apps) <==> Acceptable(version, apps)
  {
    TrimIff(version, "1");
    assert TrimSpace("") != "1";
    DependsIff(apps);
    DistinctIff(apps);
    forall i | 0 <= i < |apps|
      ensures ValidApp(apps[i]) <==>
              && apps[i].name != "" && apps[i].image != ""
              && (apps[i].imageType == "docker" || apps[i].imageType == "singularity")
              && (forall s | s in apps[i].expose :: ':' in s) && (forall s | s in apps[i].port :: ':' in s)
              && (forall s | s in apps[i].share :: ':' in s) && (forall s | s in apps[i].inject :: ':' in s)
              && forall s | s in apps[i].envs :: '=' in s
    {
      AppIff(apps[i]);
    }
  }

  lemma WrapIs(n: int)
    ensures n == Wrap8(n) + 256 * ((n + 128) / 256) && -128 <= Wrap8(n) < 128
  {
  }

  /** The counter of an app is the number of its mentions in eight bits with a sign: 128 mentions
      weigh less than one. */
  lemma CounterWraps(apps: seq<App>, name: string)
    ensures -128 <= Weight(apps, name) < 128
    ensures var n := Count(Flat(apps), name);
            n == Weight(apps, name) + 256 * ((n + 128) / 256)
  {
    WrapIs(Count(Flat(apps), name));
  }

  // ----- the code -----

  method CheckAll(texts: seq<string>, c: char) returns (ok: bool)
    ensures ok <==> AllContain(texts, c)
  {
    for i := 0 to |texts|
      invariant forall j | 0 <= j < i :: c in texts[j]
    {
      if c !in texts[i] { return false; }
    }
    return true;
  }

  method CheckApp(a: App) returns (ok: bool)
    ensures ok <==> ValidApp(a)
  {
    if a.name == "" || a.image == "" || a.imageType == "" { return false; }
    if a.imageType != "docker" && a.imageType != "singularity" { return false; }
    ok := CheckAll(a.expose, ':');
    if !ok { return; }
    ok := CheckAll(a.port, ':');
    if !ok { return; }
    ok := CheckAll(a.share, ':');
    if !ok { return; }
    ok := CheckAll(a.inject, ':');
    if !ok { return; }
    ok := CheckAll(a.envs, '=');
  }

  /** The first loop: fields, and no name twice. */
  method CollectApps(apps: seq<App>) returns (ok: bool, nameSet: set<string>, appsMap: map<string, App>)
    ensures ok <==> (forall i | 0 <= i < |apps| :: ValidApp(apps[i])) && Distinct(Names(apps))
    ensures ok ==> (forall n :: n in nameSet <==> n in Names(apps)) && appsMap.Keys == nameSet
    ensures ok ==> forall i | 0 <= i < |apps| :: appsMap[apps[i].name] == apps[i]
  {
    nameSet, appsMap := {}, map[];
    for idx := 0 to |apps|
      invariant forall i | 0 <= i < idx :: ValidApp(apps[i])
      invariant Collected(apps, idx, nameSet, appsMap)
    {
      var element := apps[idx];
      var fine := CheckApp(element);
      if !fine { return false, nameSet, appsMap; }
      CollectedNext(apps, idx, nameSet, appsMap);
      if element.name in nameSet { return false, nameSet, appsMap; }
      nameSet := nameSet + {element.name};
      appsMap := appsMap[element.name := element];
    }
    CollectedAll(apps, nameSet, appsMap);
    ok := true;
  }

  ghost predicate Collected(apps: seq<App>, k: nat, nameSet: set<string>, appsMap: map<string, App>)
    requires k <= |apps|
  {
    && (forall i, j | 0 <= i < j < k :: apps[i].name != apps[j].name)
    && (forall i | 0 <= i < k :: apps[i].name in nameSet && apps[i].name in appsMap && appsMap[apps[i].name] == apps[i])
    && (forall n | n in nameSet :: exists i :: 0 <= i < k && apps[i].name == n)
    && appsMap.Keys == nameSet
  }

  lemma CollectedNext(apps: seq<App>, k: nat, nameSet: set<string>, appsMap: map<string, App>)
    requires k < |apps| && Collected(apps, k, nameSet, appsMap)
    ensures var n := apps[k].name;
            if n in nameSet then !Distinct(Names(apps))
            else Collected(apps, k + 1, nameSet + {n}, appsMap[n := apps[k]])
  {
    var n := apps[k].name;
    if n in nameSet {
      var i :| 0 <= i < k && apps[i].name == n;
      assert Names(apps)[i] == Names(apps)[k];
    } else {
      var set', map' := nameSet + {n}, appsMap[n := apps[k]];
      forall m | m in set' ensures exists i :: 0 <= i < k + 1 && apps[i].name == m {
        if m == n { assert apps[k].name == m; } else { var i :| 0 <= i < k && apps[i].name == m; }
      }
      forall i | 0 <= i < k + 1 ensures apps[i].name in set' && apps[i].name in map' && map'[apps[i].name] == apps[i] {
        if i < k { assert apps[i].name in nameSet; }
      }
    }
  }

  lemma CollectedAll(apps: seq<App>, nameSet: set<string>, appsMap: map<string, App>)
    requires Collected(apps, |apps|, nameSet, appsMap)
    ensures Distinct(Names(apps)) && forall n :: n in nameSet <==> n in Names(apps)
  {
    forall n ensures n in nameSet <==> n in Names(apps) {
      if n in nameSet {
        var i :| 0 <= i < |apps| && apps[i].name == n;
        assert Names(apps)[i] == n;
      }
      if n in Names(apps) {
        var i :| 0 <= i < |apps| && Names(apps)[i] == n;
        assert apps[i].name in nameSet;
      }
    }
  }

  /** The second loop: how often each name is depended on. */
  method CountDepends(apps: seq<App>, nameSet: set<string>) returns (ok: bool, dependMap: map<string, int>)
    ensures ok <==> forall d | d in Flat(apps) :: d in nameSet
    ensures ok ==> (forall n :: n in dependMap <==> n in Flat(apps))
    ensures ok ==> forall n | n in dependMap :: dependMap[n] == Weight(apps, n)
  {
    dependMap := map[];
    for i := 0 to |apps|
      invariant forall d | d in Flat(apps[..i]) :: d in nameSet
      invariant Counted(dependMap, Flat(apps[..i]))
    {
      ok, dependMap := CountItems(apps[i].depends, nameSet, dependMap, Flat(apps[..i]));
      if !ok {
        FlatMissing(apps, i, nameSet);
        return false, dependMap;
      }
      FlatNext(apps, i);
    }
    assert apps[..|apps|] == apps;
    ok := true;
  }

  /** The `depends` of one app, after the names `before`. */
  method CountItems(depends: seq<string>, nameSet: set<string>, counts: map<string, int>, ghost before: seq<string>)
    returns (ok: bool, dependMap: map<string, int>)
    requires Counted(counts, before)
    ensures ok <==> forall d | d in depends :: d in nameSet
    ensures ok ==> Counted(dependMap, before + depends)
  {
    dependMap := counts;
    assert before + depends[..0] == before;
    for j := 0 to |depends|
      invariant forall d | d in depends[..j] :: d in nameSet
      invariant Counted(dependMap, before + depends[..j])
    {
      var item := depends[j];
      if item !in nameSet { return false, dependMap; }
      CountedNext(dependMap, before + depends[..j], item);
      assert before + depends[..j + 1] == before + depends[..j] + [item];
      if item in dependMap {
        dependMap := dependMap[item := Wrap8(dependMap[item] + 1)];
      } else {
        dependMap := dependMap[item := 1];
      }
    }
    assert depends[..|depends|] == depends;
    ok := true;
  }

  lemma FlatNext(apps: seq<App>, i: nat)
    requires i < |apps|
    ensures Flat(apps[..i + 1]) == Flat(apps[..i]) + apps[i].depends
  {
    assert apps[..i + 1][..i] == apps[..i];
  }

  lemma FlatMissing(apps: seq<App>, i: nat, nameSet: set<string>)
    requires i < |apps| && exists d :: d in apps[i].depends && d !in nameSet
    ensures exists d :: d in Flat(apps) && d !in nameSet
  {
    var d :| d in apps[i].depends && d !in nameSet;
    var j :| 0 <= j < |apps[i].depends| && apps[i].depends[j] == d;
    FlatHas(apps, i, j);
  }

  ghost predicate Counted(m: map<string, int>, names: seq<string>) {
    (forall n :: n in m <==> n in names) && forall n | n in m :: m[n] == Wrap8(Count(names, n))
  }

  function Bump(m: map<string, int>, item: string): map<string, int> {
    m[item := if item in m then Wrap8(m[item] + 1) else 1]
  }

  lemma CountedNext(m: map<string, int>, names: seq<string>, item: string)
    requires Counted(m, names)
    ensures Counted(Bump(m, item), names + [item])
  {
    forall n ensures n in Bump(m, item) <==> n in names + [item] { InSnoc(names, item, n); }
    forall n | n in Bump(m, item) ensures Bump(m, item)[n] == Wrap8(Count(names + [item], n)) {
      BumpAt(m, names, item, n);
    }
  }

  lemma BumpAt(m: map<string, int>, names: seq<string>, item: string, n: string)
    requires Counted(m, names) && n in Bump(m, item)
    ensures Bump(m, item)[n] == Wrap8(Count(names + [item], n))
  {
    CountSnoc(names, item, n);
    if n == item {
      if item in m { WrapNext(Count(names, item)); } else { CountAbsent(names, item); }
    }
  }

  lemma WrapNext(c: nat)
    ensures Wrap8(Wrap8(c) + 1) == Wrap8(c + 1)
  {
  }

  lemma CountSnoc(names: seq<string>, item: string, n: string)
    ensures Count(names + [item], n) == Count(names, n) + if item == n then 1 else 0
  {
    assert (names + [item])[..|names|] == names;
  }

  lemma InSnoc(names: seq<string>, item: string, n: string)
    ensures n in names + [item] <==> n in names || n == item
  {
  }

  lemma {:induction false} CountAbsent(names: seq<string>, n: string)
    requires n !in names
    ensures Count(names, n) == 0
  {
    if names != [] { CountAbsent(names[..|names| - 1], n); }
  }

  lemma {:induction false} FlatHas(apps: seq<App>, i: nat, j: nat)
    requires i < |apps| && j < |apps[i].depends|
    ensures apps[i].depends[j] in Flat(apps)
    decreases |apps|
  {
    var n := |apps| - 1;
    if i < n { FlatHas(apps[..n], i, j); }
  }

  function Insert(keys: seq<string>, key: string, weight: map<string, int>): (r: seq<string>)
    requires key in weight && forall k | k in keys :: k in weight
    ensures forall k :: k in r <==> k in keys || k == key
  {
    if keys == [] || weight[keys[0]] <= weight[key] then [key] + keys
    else [keys[0]] + Insert(keys[1..], key, weight)
  }

  ghost predicate Sorted(keys: seq<string>, weight: map<string, int>)
    requires forall k | k in keys :: k in weight
  {
    forall i, j | 0 <= i < j < |keys| :: weight[keys[i]] >= weight[keys[j]]
  }

  lemma {:induction false} InsertSorts(keys: seq<string>, key: string, weight: map<string, int>)
    requires key in weight && (forall k | k in keys :: k in weight)
    requires Sorted(keys, weight) && Distinct(keys) && key !in keys
    ensures Sorted(Insert(keys, key, weight), weight) && Distinct(Insert(keys, key, weight))
  {
    if keys != [] && weight[keys[0]] > weight[key] {
      InsertSorts(keys[1..], key, weight);
      var rest := Insert(keys[1..], key, weight);
      forall k | k in rest ensures weight[keys[0]] >= weight[k] && keys[0] != k {
        if k in keys[1..] { var i :| 0 <= i < |keys[1..]| && keys[1..][i] == k; assert keys[i + 1] == k; }
      }
    }
  }

  /** The map's keys, in the order `sort.Slice` leaves them: any order that sorts. */
  method SortedKeys(dependMap: map<string, int>) returns (keys: seq<string>)
    ensures forall k :: k in keys <==> k in dependMap
    ensures Distinct(keys) && Sorted(keys, dependMap)
  {
    keys := [];
    var pending := dependMap.Keys;
    while pending != {}
      invariant pending <= dependMap.Keys
      invariant forall k :: k in keys <==> k in dependMap && k !in pending
      invariant Distinct(keys) && Sorted(keys, dependMap)
    {
      var k :| k in pending;
      InsertSorts(keys, k, dependMap);
      keys := Insert(keys, k, dependMap);
      pending := pending - {k};
    }
  }

  method ToSlice(names: set<string>) returns (keys: seq<string>)
    ensures forall k :: k in keys <==> k in names
    ensures Distinct(keys)
  {
    keys := [];
    var pending := names;
    while pending != {}
      invariant pending <= names
      invariant forall k :: k in keys <==> k in names && k !in pending
      invariant Distinct(keys)
    {
      var k :| k in pending;
      keys := keys + [k];
      pending := pending - {k};
    }
  }

  method Validate(version: string, apps: seq<App>) returns (r: Validated)
    ensures r.Ordered? <==> ValidFile(version, apps)
    ensures r.Ordered? <==> Acceptable(version, apps)
    ensures r.Ordered? ==> StartOrder(apps, r.first, r.rest)
    ensures r.Ordered? ==> forall i | 0 <= i < |apps| :: apps[i].name in r.apps && r.apps[apps[i].name] == apps[i]
  {
    ValidIff(version, apps);
    if version == "" || TrimSpace(version) != VERSION { return Invalid; }
    var ok, nameSet, appsMap := CollectApps(apps);
    if !ok { return Invalid; }
    var counted, dependMap := CountDepends(apps, nameSet);
    if !counted { return Invalid; }
    var keys := SortedKeys(dependMap);
    var remain := ToSlice(nameSet - dependMap.Keys);
    forall i, j | 0 <= i < j < |keys + remain| ensures (keys + remain)[i] != (keys + remain)[j] {
      if i < |keys| <= j { assert keys[i] in keys && remain[j - |keys|] in remain; }
    }
    forall i, j | 0 <= i < j < |keys| ensures Weight(apps, keys[i]) >= Weight(apps, keys[j]) {
      assert keys[i] in keys && keys[j] in keys;
    }
    return Ordered(keys, remain, appsMap);
  }

  /** `Compose`: starts the first list, then the rest, and stops at the first failure. */
  method StartAll(first: seq<string>, rest: seq<string>, apps: map<string, App>, starts: App -> bool)
    returns (ran: seq<string>, ok: bool)
    requires forall n | n in first + rest :: n in apps
    ensures ran <= first + rest
    ensures ok ==> ran == first + rest && forall n | n in ran :: starts(apps[n])
    ensures !ok ==> ran != [] && !starts(apps[ran[|ran| - 1]]) && forall i | 0 <= i < |ran| - 1 :: starts(apps[ran[i]])
  {
    var all := first + rest;
    ran, ok := StartList(first, all, 0, apps, starts);
    if ok {
      var more;
      more, ok := StartList(rest, all, |first|, apps, starts);
      ran := ran + more;
      assert ran == all[..|ran|];
    }
  }

  /** One of the two loops: `names` is the part of `all` from `at` on. */
  method StartList(names: seq<string>, ghost all: seq<string>, ghost at: nat, apps: map<string, App>, starts: App -> bool)
    returns (ran: seq<string>, ok: bool)
    requires at + |names| <= |all| && all[at..at + |names|] == names
    requires forall n | n in all :: n in apps
    ensures ran <= names
    ensures ok ==> ran == names && forall n | n in ran :: n in apps && starts(apps[n])
    ensures !ok ==> ran != [] && ran[|ran| - 1] in apps && !starts(apps[ran[|ran| - 1]])
    ensures !ok ==> forall i | 0 <= i < |ran| - 1 :: ran[i] in apps && starts(apps[ran[i]])
  {
    ran := [];
    for i := 0 to |names|
      invariant ran == names[..i]
      invariant forall j | 0 <= j < i :: names[j] in apps && starts(apps[names[j]])
    {
      assert all[at + i] == names[i];
      if names[i] in apps {
        ran := ran + [names[i]];
        if !starts(apps[names[i]]) { return ran, false; }
      }
    }
    ok := true;
  }

  // ----- what the order gives -----

  /** An app nobody depends on starts after everything it depends on. */
  lemma LeavesStartLast(version: string, apps: seq<App>, first: seq<string>, rest: seq<string>, k: nat, d: string, at: nat)
    requires ValidFile(version, apps) && StartOrder(apps, first, rest)
    requires k < |apps| && apps[k].name !in Flat(apps) && d in apps[k].depends
    requires at < |first + rest| && (first + rest)[at] == apps[k].name
    ensures exists i :: 0 <= i < at && (first + rest)[i] == d
  {
    var j :| 0 <= j < |apps[k].depends| && apps[k].depends[j] == d;
    FlatHas(apps, k, j);
    assert d in first;
    var i :| 0 <= i < |first| && first[i] == d;
    assert (first + rest)[i] == d;
    assert forall p | 0 <= p < |first| :: first[p] in first && (first + rest)[p] != apps[k].name;
  }

  // ----- when the order is a topological order -----

  /** In `order`, `d` stands before `a`. */
  ghost predicate Earlier(order: seq<string>, d: string, a: string) {
    exists i, j :: 0 <= i < j < |order| && order[i] == d && order[j] == a
  }

  /** Every app comes after all it depends on. */
  ghost predicate Topological(apps: seq<App>, order: seq<string>) {
    forall k, d | 0 <= k < |apps| && d in apps[k].depends :: Earlier(order, d, apps[k].name)
  }

  /** Whatever a depended-on app depends on has a greater counter. */
  ghost predicate Climbing(apps: seq<App>) {
    forall k, d | 0 <= k < |apps| && apps[k].name in Flat(apps) && d in apps[k].depends ::
      Weight(apps, d) > Weight(apps, apps[k].name)
  }

  lemma HeavierFirst(apps: seq<App>, first: seq<string>, rest: seq<string>, d: string, a: string)
    requires StartOrder(apps, first, rest) && d in Flat(apps) && a in Flat(apps)
    requires Weight(apps, d) > Weight(apps, a)
    ensures Earlier(first + rest, d, a)
  {
    assert d in first && a in first;
    var i :| 0 <= i < |first| && first[i] == d;
    var j :| 0 <= j < |first| && first[j] == a;
    assert (first + rest)[i] == d && (first + rest)[j] == a;
  }

  lemma DependsIn(apps: seq<App>, k: nat, d: string)
    requires k < |apps| && d in apps[k].depends
    ensures d in Flat(apps)
  {
    var j :| 0 <= j < |apps[k].depends| && apps[k].depends[j] == d;
    FlatHas(apps, k, j);
  }

  lemma ClimbingOrders(version: string, apps: seq<App>, first: seq<string>, rest: seq<string>)
    requires ValidFile(version, apps) && StartOrder(apps, first, rest) && Climbing(apps)
    ensures Topological(apps, first + rest)
  {
    var order := first + rest;
    forall k, d | 0 <= k < |apps| && d in apps[k].depends ensures Earlier(order, d, apps[k].name) {
      DependsIn(apps, k, d);
      if apps[k].name in Flat(apps) {
        HeavierFirst(apps, first, rest, d, apps[k].name);
      } else {
        assert Names(apps)[k] == apps[k].name && apps[k].name in order;
        var at :| 0 <= at < |order| && order[at] == apps[k].name;
        LeavesStartLast(version, apps, first, rest, k, d, at);
      }
    }
  }

  /** A list of distinct names. */
  lemma {:induction false} Listed(names: set<string>) returns (keys: seq<string>)
    ensures Distinct(keys) && forall n :: n in keys <==> n in names
    decreases |names|
  {
    keys := [];
    if names != {} {
      var n :| n in names;
      var others := Listed(names - {n});
      keys := [n] + others;
      assert forall i | 0 <= i < |others| :: others[i] in others;
    }
  }

  lemma {:induction false} SortedList(names: set<string>, weight: map<string, int>) returns (keys: seq<string>)
    requires names <= weight.Keys
    ensures Distinct(keys) && forall n :: n in keys <==> n in names
    ensures Sorted(keys, weight)
    decreases |names|
  {
    keys := [];
    if names != {} {
      var n :| n in names;
      var others := SortedList(names - {n}, weight);
      InsertSorts(others, n, weight);
      keys := Insert(others, n, weight);
    }
  }

  /** A key is inserted before those that are not heavier. */
  lemma {:induction false} InsertBefore(keys: seq<string>, key: string, weight: map<string, int>, d: string)
    requires key in weight && (forall k | k in keys :: k in weight) && Sorted(keys, weight)
    requires d in keys && weight[d] <= weight[key]
    ensures Earlier(Insert(keys, key, weight), key, d)
  {
    var r := Insert(keys, key, weight);
    if weight[keys[0]] <= weight[key] {
      var i :| 0 <= i < |keys| && keys[i] == d;
      assert r[0] == key && r[i + 1] == d;
    } else {
      InsertBefore(keys[1..], key, weight, d);
      var i, j :| 0 <= i < j < |r| - 1 && r[1..][i] == key && r[1..][j] == d;
      assert r[i + 1] == key && r[j + 1] == d;
    }
  }

  lemma SortedByWeight(apps: seq<App>, keys: seq<string>, weight: map<string, int>)
    requires (forall n | n in keys :: n in weight) && Sorted(keys, weight)
    requires forall n | n in weight :: weight[n] == Weight(apps, n)
    ensures forall i, j | 0 <= i < j < |keys| :: Weight(apps, keys[i]) >= Weight(apps, keys[j])
  {
    forall i, j | 0 <= i < j < |keys| ensures Weight(apps, keys[i]) >= Weight(apps, keys[j]) {
      assert keys[i] in keys && keys[j] in keys;
    }
  }

  lemma Joined(apps: seq<App>, first: seq<string>, rest: seq<string>)
    requires Distinct(first) && Distinct(rest)
    requires forall n :: n in first <==> n in Flat(apps)
    requires forall n :: n in rest <==> n in Names(apps) && n !in Flat(apps)
    requires forall d | d in Flat(apps) :: d in Names(apps)
    requires forall i, j | 0 <= i < j < |first| :: Weight(apps, first[i]) >= Weight(apps, first[j])
    ensures StartOrder(apps, first, rest)
  {
    forall i, j | 0 <= i < j < |first + rest| ensures (first + rest)[i] != (first + rest)[j] {
      if i < |first| <= j { assert first[i] in first && rest[j - |first|] in rest; }
    }
  }

  /** Validation may put `a` before any other depended-on app that is not heavier. */
  lemma OrderWith(version: string, apps: seq<App>, a: string, d: string) returns (first: seq<string>, rest: seq<string>)
    requires ValidFile(version, apps) && a in Flat(apps) && d in Flat(apps) && Weight(apps, d) <= Weight(apps, a)
    ensures StartOrder(apps, first, rest) && (a != d ==> Earlier(first + rest, a, d))
  {
    var used := set n | n in Flat(apps);
    first := FirstWith(apps, used, a, d);
    rest := Listed((set n | n in Names(apps)) - used);
    Joined(apps, first, rest);
    if a != d { EarlierStill(first, rest, a, d); }
  }

  lemma FirstWith(apps: seq<App>, used: set<string>, a: string, d: string) returns (first: seq<string>)
    requires a in used && d in used && Weight(apps, d) <= Weight(apps, a)
    ensures Distinct(first) && (forall n :: n in first <==> n in used) && (a != d ==> Earlier(first, a, d))
    ensures forall i, j | 0 <= i < j < |first| :: Weight(apps, first[i]) >= Weight(apps, first[j])
  {
    var weight := map n | n in used :: Weight(apps, n);
    var others := SortedList(used - {a}, weight);
    InsertSorts(others, a, weight);
    first := Insert(others, a, weight);
    SortedByWeight(apps, first, weight);
    if a != d { InsertBefore(others, a, weight, d); }
  }

  lemma EarlierStill(first: seq<string>, rest: seq<string>, a: string, d: string)
    requires Earlier(first, a, d)
    ensures Earlier(first + rest, a, d)
  {
    var i, j :| 0 <= i < j < |first| && first[i] == a && first[j] == d;
    assert (first + rest)[i] == a && (first + rest)[j] == d;
  }

  lemma NotBoth(order: seq<string>, a: string, d: string)
    requires Distinct(order) && Earlier(order, a, d)
    ensures !Earlier(order, d, a)
  {
  }

  /** For a valid file, every order validation may give starts each app after all it depends
      on, exactly when whatever a depended-on app depends on has a greater counter. (Equal
      counters do not do: the sort may put them either way.) */
  lemma TopologicalIff(version: string, apps: seq<App>)
    requires ValidFile(version, apps)
    ensures (forall first, rest | StartOrder(apps, first, rest) :: Topological(apps, first + rest)) <==> Climbing(apps)
  {
    if Climbing(apps) {
      forall first, rest | StartOrder(apps, first, rest) ensures Topological(apps, first + rest) {
        ClimbingOrders(version, apps, first, rest);
      }
    } else {
      var k, d :| 0 <= k < |apps| && apps[k].name in Flat(apps) && d in apps[k].depends
                  && Weight(apps, d) <= Weight(apps, apps[k].name);
      DependsIn(apps, k, d);
      var first, rest := OrderWith(version, apps, apps[k].name, d);
      if apps[k].name != d { NotBoth(first + rest, apps[k].name, d); }
      assert !Earlier(first + rest, d, apps[k].name);
      assert !Topological(apps, first + rest);
    }
  }

  function Plain(name: string, depends: seq<string>): App {
    App(name, "image", "docker", [], [], [], [], depends, [])
  }

  /** A valid file that always starts an app before what it depends on: "a" needs "b", and
      two apps need "a". */
  lemma ChainExample(first: seq<string>, rest: seq<string>)
    ensures var apps := [Plain("a", ["b"]), Plain("b", []), Plain("c", ["a"]), Plain("d", ["a"])];
            && ValidFile("1", apps) && "b" in apps[0].depends
            && (StartOrder(apps, first, rest) ==> Earlier(first + rest, "a", "b") && !Topological(apps, first + rest))
  {
    var apps := [Plain("a", ["b"]), Plain("b", []), Plain("c", ["a"]), Plain("d", ["a"])];
    ChainFlat(apps);
    ChainValid(apps);
    if StartOrder(apps, first, rest) {
      HeavierFirst(apps, first, rest, "a", "b");
      NotBoth(first + rest, "a", "b");
      assert apps[0].name == "a" && !Earlier(first + rest, "b", apps[0].name);
    }
  }

  lemma ChainValid(apps: seq<App>)
    requires apps == [Plain("a", ["b"]), Plain("b", []), Plain("c", ["a"]), Plain("d", ["a"])]
    requires Flat(apps) == ["b", "a", "a"]
    ensures ValidFile("1", apps)
  {
    assert Names(apps) == ["a", "b", "c", "d"];
    assert TrimSpace("1") == VERSION;
    forall d | d in Flat(apps) ensures d in Names(apps) {
      assert Names(apps)[0] == "a" && Names(apps)[1] == "b";
    }
  }

  lemma FlatTwo(apps: seq<App>)
    requires |apps| == 2
    ensures Flat(apps) == apps[0].depends + apps[1].depends
  {
    var one := apps[..1];
    assert Flat(one[..0]) == [] && one[0] == apps[0];
    assert Flat(one) == [] + apps[0].depends == apps[0].depends;
  }

  lemma FlatFour(apps: seq<App>)
    requires |apps| == 4
    ensures Flat(apps) == apps[0].depends + apps[1].depends + apps[2].depends + apps[3].depends
  {
    var three := apps[..3];
    var two := three[..2];
    assert two[0] == apps[0] && two[1] == apps[1] && three[2] == apps[2];
    FlatTwo(two);
    assert Flat(three) == Flat(two) + apps[2].depends;
  }

  lemma ChainFlat(apps: seq<App>)
    requires apps == [Plain("a", ["b"]), Plain("b", []), Plain("c", ["a"]), Plain("d", ["a"])]
    ensures Flat(apps) == ["b", "a", "a"] && Weight(apps, "a") == 2 && Weight(apps, "b") == 1
  {
    FlatFour(apps);
    assert ["b"] + [] + ["a"] + ["a"] == ["b", "a", "a"];
    CountChain();
  }

  lemma CountChain()
    ensures Count(["b", "a", "a"], "a") == 2 && Count(["b", "a", "a"], "b") == 1
  {
    forall n ensures Count(["b", "a", "a"], n) == (if n == "b" then 1 else 0) + if n == "a" then 2 else 0 {
      CountSnoc(["b", "a"], "a", n);
      CountSnoc(["b"], "a", n);
      CountSnoc([], "b", n);
      assert ["b", "a"] + ["a"] == ["b", "a", "a"] && ["b"] + ["a"] == ["b", "a"] && [] + ["b"] == ["b"];
    }
  }

  function Total(keys: seq<string>, names: seq<string>): nat {
    if keys == [] then 0 else Count(names, keys[0]) + Total(keys[1..], names)
  }

  lemma {:induction false} TotalNext(keys: seq<string>, names: seq<string>, n: string)
    requires Distinct(keys)
    ensures Total(keys, names + [n]) == Total(keys, names) + if n in keys then 1 else 0
  {
    assert (names + [n])[..|names|] == names;
    if keys != [] {
      TotalNext(keys[1..], names, n);
      if keys[0] == n { assert n !in keys[1..]; }
    }
  }

  lemma {:induction false} TotalEmpty(keys: seq<string>)
    ensures Total(keys, []) == 0
  {
    if keys != [] { TotalEmpty(keys[1..]); }
  }

  lemma {:induction false} TotalIsSize(keys: seq<string>, names: seq<string>)
    requires Distinct(keys) && forall n | n in names :: n in keys
    ensures Total(keys, names) == |names|
    decreases |names|
  {
    if names == [] {
      TotalEmpty(keys);
    } else {
      var k := |names| - 1;
      assert names == names[..k] + [names[k]];
      TotalIsSize(keys, names[..k]);
      TotalNext(keys, names[..k], names[k]);
    }
  }

  function WeightSum(apps: seq<App>, keys: seq<string>): int {
    if keys == [] then 0 else Weight(apps, keys[0]) + WeightSum(apps, keys[1..])
  }

  lemma {:induction false} WeightSumIsTotal(apps: seq<App>, keys: seq<string>)
    requires forall k | k in keys :: Count(Flat(apps), k) < 128
    ensures WeightSum(apps, keys) == Total(keys, Flat(apps))
  {
    if keys != [] {
      assert keys[0] in keys;
      WeightSumIsTotal(apps, keys[1..]);
    }
  }

  /** Every `depends` entry is counted once: the counters of the first list add up to the
      number of entries, while no name has 128 or more. */
  lemma CountersAddUp(apps: seq<App>, first: seq<string>, rest: seq<string>)
    requires StartOrder(apps, first, rest)
    requires forall k | k in first :: Count(Flat(apps), k) < 128
    ensures WeightSum(apps, first) == |Flat(apps)|
  {
    assert Distinct(first) by {
      forall i, j | 0 <= i < j < |first| ensures first[i] != first[j] {
        assert (first + rest)[i] != (first + rest)[j];
      }
    }
    TotalIsSize(first, Flat(apps));
    WeightSumIsTotal(apps, first);
  }
}
