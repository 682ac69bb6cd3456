/** Executable maps end to end: `inject` entries of a compose file, through
    `convertMapValue`, the loop in `Run` and `setExec`, to what `getExec` reads. */
module Inject {
  import opened Strings
  import opened FileCache

  /** `strings.ReplaceAll(s, ":", "=")`. */
  function Replace(s: string, a: char, b: char): (r: string)
    ensures |r| == |s| && forall i | 0 <= i < |s| :: r[i] == if s[i] == a then b else s[i]
  {
    seq(|s|, i requires 0 <= i < |s| => if s[i] == a then b else s[i])
  }

  function Replaced(values: seq<string>): (r: seq<string>)
    ensures |r| == |values| && forall i | 0 <= i < |r| :: r[i] == Replace(values[i], ':', '=')
  {
    seq(|values|, i requires 0 <= i < |values| => Replace(values[i], ':', '='))
  }

  method ConvertMapValue(values: seq<string>) returns (text: string)
    ensures text == Join(Replaced(values), ':')
  {
    var retValues: seq<string> := [];
    if |values| > 0 {
      for i := 0 to |values|
        invariant retValues == Replaced(values)[..i]
      {
        retValues := retValues + [Replace(values[i], ':', '=')];
      }
      assert retValues == Replaced(values);
      return Join(retValues, ':');
    }
    return "";
  }

  /** The loop of `Run` over the items of the map text: container path = host path.
      `false` is the index error on an item without "=". */
  function InjectItems(content: Option<string>, items: seq<string>): (Option<string>, bool)
    decreases |items|
  {
    if items == [] then (content, true)
    else
      var kv := Split(items[0], '=');
      if |kv| < 2 then (content, false)
      else InjectItems(Some(SetText(content, kv[1], kv[0])), items[1..])
  }

  method InjectExecmaps(cache: FileCacheInst, execmaps: string) returns (ok: bool)
    modifies cache
    ensures (cache.content, ok) == if execmaps == "" then (old(cache.content), true)
                                   else InjectItems(old(cache.content), Split(execmaps, ':'))
  {
    if |execmaps| > 0 {
      var items := Split(execmaps, ':');
      for i := 0 to |items|
        invariant InjectItems(cache.content, items[i..]) == InjectItems(old(cache.content), items)
      {
        var kv := Split(items[i], '=');
        assert items[i..][1..] == items[i + 1..];
        if |kv| < 2 { return false; }
        cache.FSetValue(kv[1], kv[0]);
      }
    }
    return true;
  }

  // ----- from the compose file to `getExec` -----

  datatype Mapping = Mapping(host: string, container: string)

  function Entry(p: Mapping): string {
    p.host + ":" + p.container
  }

  function Entries(ps: seq<Mapping>): (r: seq<string>)
    ensures |r| == |ps| && forall i | 0 <= i < |r| :: r[i] == Entry(ps[i])
  {
    seq(|ps|, i requires 0 <= i < |ps| => Entry(ps[i]))
  }

  predicate Injectable(p: Mapping) {
    Plain(p.host) && Plain(p.container) && p.container != ""
  }

  function Hosts(m: map<string, string>, ps: seq<Mapping>): map<string, string>
    decreases |ps|
  {
    if ps == [] then m else Hosts(m[ps[0].container := ps[0].host], ps[1..])
  }

  lemma {:induction false} LastHostWins(m: map<string, string>, ps: seq<Mapping>, i: nat)
    requires i < |ps| && forall j | i < j < |ps| :: ps[j].container != ps[i].container
    ensures ps[i].container in Hosts(m, ps) && Hosts(m, ps)[ps[i].container] == ps[i].host
    decreases |ps|
  {
    var m' := m[ps[0].container := ps[0].host];
    if i > 0 { LastHostWins(m', ps[1..], i - 1); } else { OthersKeep(m', ps[1..], ps[0].container); }
  }

  lemma {:induction false} OthersKeep(m: map<string, string>, ps: seq<Mapping>, c: string)
    requires forall j | 0 <= j < |ps| :: ps[j].container != c
    ensures (c in Hosts(m, ps) <==> c in m) && (c in m ==> Hosts(m, ps)[c] == m[c])
    decreases |ps|
  {
    if ps != [] { OthersKeep(m[ps[0].container := ps[0].host], ps[1..], c); }
  }

  lemma EntryConverts(p: Mapping)
    requires Injectable(p)
    ensures Replace(Entry(p), ':', '=') == Pair(p.host, p.container)
    ensures Split(Pair(p.host, p.container), '=') == [p.host, p.container]
    ensures ':' !in Pair(p.host, p.container)
  {
    PairSplits(p.host, p.container);
    assert |Replace(Entry(p), ':', '=')| == |Pair(p.host, p.container)|;
  }

  lemma {:induction false} ItemsInject(content: Option<string>, m: map<string, string>, ps: seq<Mapping>)
    requires Represents(content, m) && forall i | 0 <= i < |ps| :: Injectable(ps[i])
    ensures var (after, ok) := InjectItems(content, Replaced(Entries(ps)));
            ok && Represents(after, Hosts(m, ps))
    decreases |ps|
  {
    if ps != [] {
      var p := ps[0];
      EntryConverts(p);
      SetRefines(content, m, p.container, p.host);
      assert Replaced(Entries(ps))[1..] == Replaced(Entries(ps[1..]));
      ItemsInject(Some(SetText(content, p.container, p.host)), m[p.container := p.host], ps[1..]);
    }
  }

  /** Every entry reaches the container's store: `getExec` on a container path gives the
      host path of the last entry that names it, and "" on a path nobody names. */
  lemma InjectEndToEnd(ps: seq<Mapping>, path: string)
    requires ps != [] && path != "" && forall i | 0 <= i < |ps| :: Injectable(ps[i])
    ensures var execmaps := Join(Replaced(Entries(ps)), ':');
            var (after, ok) := InjectItems(None, Split(execmaps, ':'));
            && execmaps != "" && ok
            && (forall i | 0 <= i < |ps| && ps[i].container == path
                  && (forall j | i < j < |ps| :: ps[j].container != path) ::
                  GetText(after, path) == Value(ps[i].host))
            && ((forall i | 0 <= i < |ps| :: ps[i].container != path) ==> GetText(after, path) == Value(""))
  {
    var items := Replaced(Entries(ps));
    forall i | 0 <= i < |ps| ensures ':' !in items[i] && items[i] != "" { EntryConverts(ps[i]); }
    SplitJoin(items, ':');
    assert Split("", ':') == [""];
    assert items[0] != "" && Join(items, ':') != "";
    ItemsInject(None, map[], ps);
    var after := InjectItems(None, items).0;
    GetRefines(after, Hosts(map[], ps), path);
    forall i | 0 <= i < |ps| && ps[i].container == path && (forall j | i < j < |ps| :: ps[j].container != path)
      ensures GetText(after, path) == Value(ps[i].host)
    {
      LastHostWins(map[], ps, i);
    }
    if forall i | 0 <= i < |ps| :: ps[i].container != path { OthersKeep(map[], ps, path); }
  }
}
