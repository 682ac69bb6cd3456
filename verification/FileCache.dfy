/** `filecache`: a map kept as `k=v:k=v` text in a file. The text refines a map over any
    run of sets, deletions and lookups. */
module FileCache {
  import opened Strings

  /** What a lookup comes to; `kv[1]` of an item without "=" is out of range in Go. */
  datatype Answer = Value(text: string) | Panic

  predicate Plain(s: string) {
    ':' !in s && '=' !in s
  }

  function Key(item: string): string {
    Split(item, '=')[0]
  }

  function Pair(key: string, value: string): string {
    key + "=" + value
  }

  /** The first item with this key, or the number of items. */
  function Find(items: seq<string>, key: string): (i: nat)
    ensures i <= |items|
    ensures forall j | 0 <= j < i :: Key(items[j]) != key
    ensures i < |items| ==> Key(items[i]) == key
  {
    if items == [] || Key(items[0]) == key then 0 else 1 + Find(items[1..], key)
  }

  // ----- the three calls as functions of the file's text (`None`: no file yet) -----

  function GetText(content: Option<string>, key: string): Answer {
    match content
    case None => Value("")
    case Some(text) =>
      var items := Split(text, ':');
      var i := Find(items, key);
      if i == |items| then Value("")
      else
        var kv := Split(items[i], '=');
        if |kv| < 2 then Panic else Value(kv[1])
  }

  function SetItems(items: seq<string>, key: string, value: string): seq<string> {
    var i := Find(items, key);
    if i < |items| then items[i := Pair(key, value)] else items + [Pair(key, value)]
  }

  function SetText(content: Option<string>, key: string, value: string): string {
    match content
    case None => Pair(key, value)
    case Some(text) => Join(SetItems(Split(text, ':'), key, value), ':')
  }

  /** The last item takes the place of the deleted one. */
  function DeleteItems(items: seq<string>, key: string): seq<string> {
    var i, n := Find(items, key), |items| - 1;
    if i == |items| then items else items[i := items[n]][..n]
  }

  function DeleteText(content: Option<string>, key: string): string {
    match content
    case None => ""
    case Some(text) => if Find(Split(text, ':'), key) == |Split(text, ':')| then text
                       else Join(DeleteItems(Split(text, ':'), key), ':')
  }

  // ----- the code -----

  class FileCacheInst {
    var content: Option<string>

    constructor ()
      ensures content == None
    {
      content := None;
    }

    method FGetStrValue(key: string) returns (answer: Answer)
      modifies this
      ensures answer == GetText(old(content), key)
      ensures content == if old(content) == None then Some("") else old(content)
    {
      if content == None {
        content := Some("");
        return Value("");
      }
      var items := Split(content.value, ':');
      for i := 0 to |items|
        invariant forall j | 0 <= j < i :: Key(items[j]) != key
      {
        var kv := Split(items[i], '=');
        if kv[0] == key {
          FindIs(items, key, i);
          if |kv| < 2 { return Panic; }
          return Value(kv[1]);
        }
      }
      return Value("");
    }

    method FSetValue(key: string, value: string)
      modifies this
      ensures content == Some(SetText(old(content), key, value))
    {
      var texts := [];
      if content == None {
        content := Some("");
      } else {
        texts := Split(content.value, ':');
        for idx := 0 to |texts|
          invariant forall j | 0 <= j < idx :: Key(texts[j]) != key
        {
          var kv := Split(texts[idx], '=');
          if kv[0] == key {
            FindIs(texts, key, idx);
            texts := texts[idx := kv[0] + "=" + value];
            content := Some(Join(texts, ':'));
            return;
          }
        }
      }
      if |texts| == 0 {
        texts := [key + "=" + value];
      } else {
        texts := texts + [key + "=" + value];
      }
      content := Some(Join(texts, ':'));
    }

    method FDeleteByKey(key: string)
      modifies this
      ensures content == Some(DeleteText(old(content), key))
    {
      if content == None {
        content := Some("");
        return;
      }
      var texts := Split(content.value, ':');
      for idx := 0 to |texts|
        invariant forall j | 0 <= j < idx :: Key(texts[j]) != key
      {
        if Key(texts[idx]) == key {
          FindIs(texts, key, idx);
          var last := |texts| - 1;
          ghost var kept := texts[idx := texts[last]][..last];
          texts := texts[last := texts[idx]][idx := texts[last]];
          texts := texts[..last];
          assert texts == kept;
          content := Some(Join(texts, ':'));
          return;
        }
      }
    }
  }

  lemma FindIs(items: seq<string>, key: string, i: nat)
    requires i < |items| && Key(items[i]) == key
    requires forall j | 0 <= j < i :: Key(items[j]) != key
    ensures Find(items, key) == i
  {
  }

  // ----- the text as a map -----

  /** A blank item stands only in front; the others are "k=v" with distinct keys. */
  ghost predicate Valid(items: seq<string>) {
    && (forall i | 0 <= i < |items| :: (items[i] == "" && i == 0) || IsPair(items[i]))
    && forall i, j | 0 <= i < j < |items| :: Key(items[i]) != Key(items[j])
  }

  predicate IsPair(item: string) {
    |Split(item, '=')| == 2 && Key(item) != ""
  }

  predicate ItemIn(item: string, m: map<string, string>) {
    item != "" ==> Key(item) in m && IsPair(item) && m[Key(item)] == Split(item, '=')[1]
  }

  predicate KeyAt(items: seq<string>, i: nat, k: string) {
    i < |items| && items[i] != "" && Key(items[i]) == k
  }

  ghost predicate Holds(items: seq<string>, m: map<string, string>) {
    && (forall i | 0 <= i < |items| :: ItemIn(items[i], m))
    && forall k | k in m :: exists i: nat :: KeyAt(items, i, k)
  }

  ghost predicate Represents(content: Option<string>, m: map<string, string>) {
    match content
    case None => m == map[]
    case Some(text) => Valid(Split(text, ':')) && Holds(Split(text, ':'), m)
  }

  lemma PairSplits(k: string, v: string)
    requires Plain(k) && Plain(v)
    ensures Split(Pair(k, v), '=') == [k, v] && ':' !in Pair(k, v)
  {
    SplitCons(k, v, '=');
    SplitFree(v, '=');
    assert Pair(k, v) == k + ['='] + v;
  }

  /** Writing items back and reading the text again loses nothing; no items read back as
      one blank. */
  lemma Rewritten(items: seq<string>, m: map<string, string>)
    requires Free(items, ':') && Valid(items) && Holds(items, m)
    ensures Represents(Some(Join(items, ':')), m)
  {
    if items == [] {
      assert Split("", ':') == [""];
      assert m == map[];
    } else {
      SplitJoin(items, ':');
    }
  }

  lemma GetRefines(content: Option<string>, m: map<string, string>, key: string)
    requires Represents(content, m) && key != ""
    ensures GetText(content, key) == Value(if key in m then m[key] else "")
  {
  }

  /** A pair put in the place of its key, or behind the last item when its key is new. */
  lemma PutValid(items: seq<string>, i: nat, pair: string)
    requires Valid(items) && IsPair(pair) && i <= |items|
    requires forall j | 0 <= j < |items| :: Key(items[j]) == Key(pair) <==> j == i
    ensures Valid(if i < |items| then items[i := pair] else items + [pair])
  {
    var out := if i < |items| then items[i := pair] else items + [pair];
    var key := Key(pair);
    forall j | 0 <= j < |out| ensures (out[j] == "" && j == 0) || IsPair(out[j]) {
      if j != i { assert out[j] == items[j]; }
    }
    forall j, k | 0 <= j < k < |out| ensures Key(out[j]) != Key(out[k]) {
      assert j != i ==> out[j] == items[j];
      assert k != i ==> out[k] == items[k];
    }
  }

  lemma PutHolds(items: seq<string>, m: map<string, string>, i: nat, pair: string, key: string, value: string)
    requires Holds(items, m) && i <= |items| && pair != "" && Split(pair, '=') == [key, value] && key != ""
    requires forall j | 0 <= j < |items| :: Key(items[j]) == key <==> j == i
    ensures Holds(if i < |items| then items[i := pair] else items + [pair], m[key := value])
  {
    var out := if i < |items| then items[i := pair] else items + [pair];
    var m' := m[key := value];
    forall j | 0 <= j < |out| ensures ItemIn(out[j], m') {
      if j != i { assert out[j] == items[j] && ItemIn(items[j], m) && Key(items[j]) != key; }
    }
    forall k | k in m' ensures exists j: nat :: KeyAt(out, j, k) {
      if k == key {
        assert KeyAt(out, i, k);
      } else {
        var j: nat :| KeyAt(items, j, k);
        assert KeyAt(out, j, k);
      }
    }
  }

  lemma SetHolds(items: seq<string>, m: map<string, string>, key: string, value: string)
    requires Valid(items) && Holds(items, m) && Plain(key) && Plain(value) && key != ""
    ensures Valid(SetItems(items, key, value)) && Holds(SetItems(items, key, value), m[key := value])
  {
    var pair, i := Pair(key, value), Find(items, key);
    PairSplits(key, value);
    PutValid(items, i, pair);
    PutHolds(items, m, i, pair, key, value);
  }

  lemma SetRefines(content: Option<string>, m: map<string, string>, key: string, value: string)
    requires Represents(content, m) && Plain(key) && Plain(value) && key != ""
    ensures Represents(Some(SetText(content, key, value)), m[key := value])
  {
    PairSplits(key, value);
    if content == None {
      SetHolds([], m, key, value);
      assert SetItems([], key, value) == [Pair(key, value)];
      Rewritten([Pair(key, value)], m[key := value]);
    } else {
      var items := Split(content.value, ':');
      SplitPieces(content.value, ':');
      SetHolds(items, m, key, value);
      Rewritten(SetItems(items, key, value), m[key := value]);
    }
  }

  lemma SwapOutValid(items: seq<string>, i: nat)
    requires Valid(items) && i < |items| && items[i] != ""
    ensures Valid(items[i := items[|items| - 1]][..|items| - 1])
  {
    var n := |items| - 1;
    var out := items[i := items[n]][..n];
    forall j | 0 <= j < |out| ensures out[j] == items[if j == i then n else j] {}
    forall j, k | 0 <= j < k < |out| ensures Key(out[j]) != Key(out[k]) {
      var a, b := if j == i then n else j, if k == i then n else k;
      assert out[j] == items[a] && out[k] == items[b];
      assert a < b || b < a;
    }
  }

  lemma SwapOutHolds(items: seq<string>, m: map<string, string>, i: nat, key: string)
    requires Valid(items) && Holds(items, m) && i < |items| && Key(items[i]) == key && key != ""
    ensures Holds(items[i := items[|items| - 1]][..|items| - 1], m - {key})
  {
    var n := |items| - 1;
    var out, m' := items[i := items[n]][..n], m - {key};
    forall j | 0 <= j < |out| ensures ItemIn(out[j], m') {
      var a := if j == i then n else j;
      assert out[j] == items[a] && a != i && ItemIn(items[a], m);
      assert Key(items[a]) != Key(items[i]);
    }
    forall k | k in m' ensures exists j: nat :: KeyAt(out, j, k) {
      var j: nat :| KeyAt(items, j, k);
      assert j != i;
      assert KeyAt(out, if j == n then i else j, k);
    }
  }

  lemma DeleteHolds(items: seq<string>, m: map<string, string>, key: string)
    requires Valid(items) && Holds(items, m) && key != ""
    ensures Valid(DeleteItems(items, key)) && Holds(DeleteItems(items, key), m - {key})
  {
    var i := Find(items, key);
    if i < |items| {
      assert Key("") == "";
      SwapOutValid(items, i);
      SwapOutHolds(items, m, i, key);
    } else {
      assert key !in m;
      assert m - {key} == m;
    }
  }

  lemma DeleteRefines(content: Option<string>, m: map<string, string>, key: string)
    requires Represents(content, m) && key != ""
    ensures Represents(Some(DeleteText(content, key)), m - {key})
  {
    if content == None {
      assert Split("", ':') == [""];
    } else {
      var items := Split(content.value, ':');
      SplitPieces(content.value, ':');
      DeleteHolds(items, m, key);
      Rewritten(DeleteItems(items, key), m - {key});
    }
  }

  // ----- whole runs -----

  datatype Op = Set(key: string, value: string) | Delete(key: string) | Get(key: string)

  function TextRun(content: Option<string>, ops: seq<Op>): (Option<string>, seq<Answer>)
    decreases |ops|
  {
    if ops == [] then (content, [])
    else
      match ops[0]
      case Set(k, v) => TextRun(Some(SetText(content, k, v)), ops[1..])
      case Delete(k) => TextRun(Some(DeleteText(content, k)), ops[1..])
      case Get(k) =>
        var (after, answers) := TextRun(if content == None then Some("") else content, ops[1..]);
        (after, [GetText(content, k)] + answers)
  }

  function MapRun(m: map<string, string>, ops: seq<Op>): (map<string, string>, seq<Answer>)
    decreases |ops|
  {
    if ops == [] then (m, [])
    else
      match ops[0]
      case Set(k, v) => MapRun(m[k := v], ops[1..])
      case Delete(k) => MapRun(m - {k}, ops[1..])
      case Get(k) =>
        var (after, answers) := MapRun(m, ops[1..]);
        (after, [Value(if k in m then m[k] else "")] + answers)
  }

  /** Non-empty keys, and no ":" or "=" in what is stored. */
  predicate Storable(op: Op) {
    op.key != "" && (op.Set? ==> Plain(op.key) && Plain(op.value))
  }

  /** Over any run the text answers as the map does, never panics, and still is the map's
      text: unique keys, at most one blank item and that in front. */
  lemma {:induction false} CacheRefinesMap(content: Option<string>, m: map<string, string>, ops: seq<Op>)
    requires Represents(content, m)
    requires forall i | 0 <= i < |ops| :: Storable(ops[i])
    ensures TextRun(content, ops).1 == MapRun(m, ops).1
    ensures Represents(TextRun(content, ops).0, MapRun(m, ops).0)
    decreases |ops|
  {
    if ops != [] {
      var key := ops[0].key;
      match ops[0]
      case Set(k, v) =>
        SetRefines(content, m, k, v);
        CacheRefinesMap(Some(SetText(content, k, v)), m[k := v], ops[1..]);
      case Delete(k) =>
        DeleteRefines(content, m, k);
        CacheRefinesMap(Some(DeleteText(content, k)), m - {k}, ops[1..]);
      case Get(k) =>
        GetRefines(content, m, k);
        assert Split("", ':') == [""];
        CacheRefinesMap(if content == None then Some("") else content, m, ops[1..]);
    }
  }

  // ----- exactly which values survive -----

  lemma AnswersArePlain(content: Option<string>, key: string)
    ensures GetText(content, key).Value? ==> Plain(GetText(content, key).text)
    ensures !Plain(key) ==> GetText(content, key) == Value("")
  {
    if content.Some? {
      var items := Split(content.value, ':');
      SplitPieces(content.value, ':');
      forall i | 0 <= i < |items| ensures Free(Split(items[i], '='), '=') && Free(Split(items[i], '='), ':') {
        SplitPieces(items[i], '=');
        SplitWithin(items[i], '=', ':');
      }
      forall i | 0 <= i < |items| ensures Plain(Key(items[i])) {
        assert Free(Split(items[i], '='), '=') && Free(Split(items[i], '='), ':');
      }
    }
  }

  /** A value set on any cache text is read back exactly when it has no ":" or "=", and
      neither has its key (which an empty value does not need). */
  lemma SetGetIff(content: Option<string>, m: map<string, string>, key: string, value: string)
    requires Represents(content, m) && key != ""
    ensures GetText(Some(SetText(content, key, value)), key) == Value(value)
       <==> Plain(value) && (Plain(key) || value == "")
  {
    var after := Some(SetText(content, key, value));
    AnswersArePlain(after, key);
    if Plain(key) && Plain(value) {
      SetRefines(content, m, key, value);
      GetRefines(after, m[key := value], key);
    }
  }

  /** A lookup goes out of range exactly for the empty key on a text with a blank first item,
      as a file that was only created has; any other lookup of the empty key finds nothing. */
  lemma EmptyKeyPanics(content: Option<string>, m: map<string, string>, key: string)
    requires Represents(content, m)
    ensures GetText(content, key) == Panic <==> key == "" && content.Some? && Split(content.value, ':')[0] == ""
    ensures key == "" && GetText(content, key) != Panic ==> GetText(content, key) == Value("")
    ensures GetText(Some(""), "") == Panic
  {
    assert Split("", ':') == [""] && Split("", '=') == [""];
    if key != "" {
      GetRefines(content, m, key);
    } else if content.Some? {
      var items := Split(content.value, ':');
      assert items[0] == "" || IsPair(items[0]);
    }
  }
}
