/** Challenges printed and parsed back: the scheme in lower case and exactly the printed
    parameters, whatever text follows them. */
module AuthRoundTrip {
  import opened Strings
  import opened AuthChallenge
  import opened AuthQuoted

  /** A parameter to print, its value as a bare token or as a quoted string. */
  datatype Param = Param(key: string, value: string, bare: bool)

  /** The characters of a token of section 2.2 of RFC 2616, one by one. */
  predicate TokenChar(c: char) {
    || 'a' <= c <= 'z' || 'A' <= c <= 'Z' || '0' <= c <= '9'
    || c in {'!', '#', '$', '%', '&', '\'', '*', '+', '-', '.', '^', '_', '`', '|', '~'}
  }

  /** They are what the parser takes for such. */
  lemma TokenChars(c: char)
    ensures IsToken(c) <==> TokenChar(c)
  {
  }

  predicate AllToken(s: string) {
    s != "" && forall k | 0 <= k < |s| :: TokenChar(s[k])
  }

  predicate AllSpace(s: string) {
    forall k | 0 <= k < |s| :: s[k] in {' ', '\t', '\r', '\n'}
  }

  /** A bare value must not run on into what follows it. */
  predicate Ends(p: Param, tail: string) {
    p.bare && tail != "" ==> !TokenChar(tail[0])
  }

  function PrintParam(p: Param, tail: string): string {
    p.key + "=" + (if p.bare then p.value else "\"" + Escape(p.value) + "\"") + tail
  }

  /** Parameters separated by commas, with `gap` after each comma, before any `tail`. */
  function PrintParams(ps: seq<Param>, gap: string, tail: string): string {
    if ps == [] then tail
    else PrintParam(ps[0], if |ps| == 1 then tail else "," + gap + PrintParams(ps[1..], gap, tail))
  }

  function Print(scheme: string, ps: seq<Param>, gap: string, tail: string): string {
    scheme + " " + PrintParams(ps, gap, tail)
  }

  function ParamMap(ps: seq<Param>, m: map<string, string>): map<string, string>
    decreases |ps|
  {
    if ps == [] then m else ParamMap(ps[1..], m[ToLower(ps[0].key) := ps[0].value])
  }

  lemma {:induction false} TokenStops(token: string, rest: string)
    requires forall k | 0 <= k < |token| :: TokenChar(token[k])
    requires rest == "" || !TokenChar(rest[0])
    ensures TokenLen(token + rest) == |token|
  {
    if token + rest != "" { TokenChars((token + rest)[0]); }
    if token != "" {
      assert (token + rest)[1..] == token[1..] + rest;
      TokenStops(token[1..], rest);
    } else {
      assert token + rest == rest;
    }
  }

  lemma {:induction false} SpaceStops(gap: string, rest: string)
    requires AllSpace(gap) && (rest == "" || !IsSpace(rest[0]))
    ensures SkipSpace(gap + rest) == rest
  {
    if gap != "" {
      assert (gap + rest)[1..] == gap[1..] + rest;
      SpaceStops(gap[1..], rest);
    } else {
      assert gap + rest == rest;
    }
  }

  lemma NextIs(v: Version, s: string, key: string, quoted: string)
    requires "," <= s && SkipSpace(s[1..]) == key + ("=" + quoted) && AllToken(key)
    ensures NextParam(v, s) == match TokenOrQuoted(v, quoted)
                               case Overrun => Broken
                               case Open => Stop
                               case Closed(value, rest) => if value == "" then Stop else Read(key, value, rest)
  {
    TokenStops(key, "=" + quoted);
    assert (key + ("=" + quoted))[..|key|] == key;
    assert (key + ("=" + quoted))[|key|..] == "=" + quoted;
    assert ("=" + quoted)[1..] == quoted;
  }

  /** The text of a quoted parameter's value, behind the opening quote. */
  function Inner(p: Param, tail: string): string {
    Escape(p.value) + "\"" + tail
  }

  /** What stands behind the "=" of a printed parameter. */
  function Valued(p: Param, tail: string): string {
    if p.bare then p.value + tail else "\"" + Inner(p, tail)
  }

  lemma PrintShape(p: Param, tail: string)
    ensures PrintParam(p, tail) == p.key + ("=" + Valued(p, tail))
  {
    if p.bare {
      assert p.key + "=" + p.value + tail == p.key + ("=" + (p.value + tail));
    } else {
      assert p.key + "=" + ("\"" + Escape(p.value) + "\"") + tail
          == p.key + ("=" + ("\"" + (Escape(p.value) + "\"" + tail)));
    }
  }

  /** What the parser makes of one printed parameter is what it makes of its value. */
  lemma ParamTurn(v: Version, p: Param, gap: string, tail: string)
    requires AllToken(p.key) && AllSpace(gap)
    ensures NextParam(v, "," + gap + PrintParam(p, tail)) == match TokenOrQuoted(v, Valued(p, tail))
                               case Overrun => Broken
                               case Open => Stop
                               case Closed(value, rest) => if value == "" then Stop else Read(p.key, value, rest)
  {
    var text := p.key + ("=" + Valued(p, tail));
    PrintShape(p, tail);
    assert text[0] == p.key[0];
    assert TokenChar(p.key[0]);
    SpaceStops(gap, text);
    var s := "," + gap + text;
    assert s[1..] == gap + text;
    NextIs(v, s, p.key, Valued(p, tail));
  }

  lemma QuotedTurn(v: Version, p: Param, tail: string)
    requires !p.bare
    ensures TokenOrQuoted(v, Valued(p, tail)) == Quoted(v, Inner(p, tail))
  {
    assert ("\"" + Inner(p, tail))[1..] == Inner(p, tail);
  }

  /** A bare value is read up to where it ends. */
  lemma BareTurn(v: Version, p: Param, tail: string)
    requires p.bare && AllToken(p.value) && Ends(p, tail)
    ensures TokenOrQuoted(v, Valued(p, tail)) == Closed(p.value, tail)
  {
    TokenStops(p.value, tail);
    assert (p.value + tail)[0] == p.value[0] && TokenChar(p.value[0]);
    assert (p.value + tail)[..|p.value|] == p.value && (p.value + tail)[|p.value|..] == tail;
  }

  /** One printed parameter is read whole, up to where its value ends. */
  lemma ParamReads(v: Version, p: Param, gap: string, tail: string)
    requires Readable(v, p) && AllSpace(gap) && Ends(p, tail)
    ensures NextParam(v, "," + gap + PrintParam(p, tail)) == Read(p.key, p.value, tail)
  {
    ParamTurn(v, p, gap, tail);
    if p.bare {
      BareTurn(v, p, tail);
    } else {
      QuotedTurn(v, p, tail);
      QuotedEscaped(v, p.value, tail);
    }
  }

  lemma ParamsStep(v: Version, s: string, scheme: string, params: map<string, string>, p: Param, rest: string)
    requires NextParam(v, s) == Read(p.key, p.value, rest)
    ensures Params(v, s, scheme, params) == Params(v, SkipSpace(rest), scheme, params[ToLower(p.key) := p.value])
  {
  }

  lemma CommaStops(rest: string)
    ensures SkipSpace("," + rest) == "," + rest
  {
  }

  predicate Readable(v: Version, p: Param) {
    AllToken(p.key) && if p.bare then AllToken(p.value) else p.value != "" && Survives(v, p.value)
  }

  /** What is printed behind the first parameter. */
  function After(ps: seq<Param>, gap: string, tail: string): string
    requires ps != []
  {
    if |ps| == 1 then tail else "," + gap + PrintParams(ps[1..], gap, tail)
  }

  lemma FirstPrinted(ps: seq<Param>, gap: string, tail: string)
    requires ps != []
    ensures PrintParams(ps, gap, tail) == PrintParam(ps[0], After(ps, gap, tail))
  {
  }

  ghost predicate AllReadable(v: Version, ps: seq<Param>, tail: string) {
    (forall i | 0 <= i < |ps| :: Readable(v, ps[i])) && (ps != [] ==> Ends(ps[|ps| - 1], tail))
  }

  lemma ReadableNext(v: Version, ps: seq<Param>, gap: string, tail: string)
    requires ps != [] && AllReadable(v, ps, tail)
    ensures Readable(v, ps[0]) && Ends(ps[0], After(ps, gap, tail)) && AllReadable(v, ps[1..], tail)
  {
    if |ps| > 1 { assert After(ps, gap, tail)[0] == ','; }
  }

  lemma AfterStops(ps: seq<Param>, gap: string, tail: string)
    requires |ps| > 1
    ensures SkipSpace(After(ps, gap, tail)) == "," + gap + PrintParams(ps[1..], gap, tail)
  {
    var others := PrintParams(ps[1..], gap, tail);
    Assoc(",", gap, others);
    CommaStops(gap + others);
  }

  /** The first comma and gap may be those in front of the list or those inside it. */
  lemma {:induction false} ParamsRead(v: Version, ps: seq<Param>, before: string, gap: string, tail: string,
                                      scheme: string, params: map<string, string>)
    requires ps != [] && AllSpace(before) && AllSpace(gap) && AllReadable(v, ps, tail)
    ensures Params(v, "," + before + PrintParams(ps, gap, tail), scheme, params)
         == Params(v, SkipSpace(tail), scheme, ParamMap(ps, params))
    decreases |ps|
  {
    var next := params[ToLower(ps[0].key) := ps[0].value];
    FirstPrinted(ps, gap, tail);
    ReadableNext(v, ps, gap, tail);
    OneParamRead(v, ps[0], before, After(ps, gap, tail), scheme, params);
    if |ps| == 1 {
      assert ParamMap(ps[1..], next) == next;
    } else {
      AfterStops(ps, gap, tail);
      ParamsRead(v, ps[1..], gap, gap, tail, scheme, next);
    }
  }

  lemma OneParamRead(v: Version, p: Param, before: string, tail: string, scheme: string, params: map<string, string>)
    requires Readable(v, p) && AllSpace(before) && Ends(p, tail)
    ensures Params(v, "," + before + PrintParam(p, tail), scheme, params)
         == Params(v, SkipSpace(tail), scheme, params[ToLower(p.key) := p.value])
  {
    ParamReads(v, p, before, tail);
    ParamsStep(v, "," + before + PrintParam(p, tail), scheme, params, p, tail);
  }

  /** A printed challenge, before any tail whatsoever, is read back: the scheme in lower
      case, every parameter under its lower-case key, and then whatever the tail holds. */
  lemma ChallengeReads(v: Version, scheme: string, ps: seq<Param>, gap: string, tail: string)
    requires AllToken(scheme) && ps != [] && AllSpace(gap) && AllReadable(v, ps, tail)
    ensures ParseHeader(v, Print(scheme, ps, gap, tail))
         == Params(v, SkipSpace(tail), ToLower(scheme), ParamMap(ps, map[]))
  {
    var body := PrintParams(ps, gap, tail);
    assert Readable(v, ps[0]);
    BodyStarts(ps, gap, tail);
    Assoc(scheme, " ", body);
    SchemeReads(v, scheme, body);
    assert "," + "" == ",";
    ParamsRead(v, ps, "", gap, tail, ToLower(scheme), map[]);
  }

  /** A tail that starts no parameter adds nothing and loses nothing. */
  lemma MalformedTail(v: Version, scheme: string, ps: seq<Param>, gap: string, tail: string)
    requires AllToken(scheme) && ps != [] && AllSpace(gap) && AllReadable(v, ps, tail)
    requires NextParam(v, SkipSpace(tail)) == Stop
    ensures ParseHeader(v, Print(scheme, ps, gap, tail)) == Parsed(ToLower(scheme), ParamMap(ps, map[]))
  {
    ChallengeReads(v, scheme, ps, gap, tail);
  }

  /** Tails that start no parameter: nothing, no comma, no key behind it, no "=" behind the key,
      and neither a token nor a quote behind that. */
  lemma TailStops(v: Version, gap: string, key: string, rest: string)
    requires AllSpace(gap)
    ensures rest == "" || rest[0] != ',' ==> NextParam(v, rest) == Stop
    ensures rest == "" || (rest[0] !in {' ', '\t', '\r', '\n'} && !TokenChar(rest[0])) ==>
              NextParam(v, "," + (gap + rest)) == Stop
    ensures AllToken(key) && (rest == "" || (rest[0] != '=' && !TokenChar(rest[0]))) ==>
              NextParam(v, "," + (gap + (key + rest))) == Stop
    ensures AllToken(key) && (rest == "" || (rest[0] != '\"' && !TokenChar(rest[0]))) ==>
              NextParam(v, "," + (gap + (key + ("=" + rest)))) == Stop
  {
    if rest == "" || (rest[0] !in {' ', '\t', '\r', '\n'} && !TokenChar(rest[0])) { NoKey(v, gap, rest); }
    if AllToken(key) {
      if rest == "" || (rest[0] != '=' && !TokenChar(rest[0])) { NoSign(v, gap, key, rest); }
      if rest == "" || (rest[0] != '\"' && !TokenChar(rest[0])) { NoValue(v, gap, key, rest); }
    }
  }

  lemma NoKey(v: Version, gap: string, rest: string)
    requires AllSpace(gap) && (rest == "" || (rest[0] !in {' ', '\t', '\r', '\n'} && !TokenChar(rest[0])))
    ensures NextParam(v, "," + (gap + rest)) == Stop
  {
    SpaceStops(gap, rest);
    TokenStops("", rest);
    assert "" + rest == rest && ("," + (gap + rest))[1..] == gap + rest;
  }

  lemma KeyRead(gap: string, key: string, rest: string)
    requires AllSpace(gap) && AllToken(key) && (rest == "" || !TokenChar(rest[0]))
    ensures SkipSpace(("," + (gap + (key + rest)))[1..]) == key + rest
    ensures (key + rest)[..TokenLen(key + rest)] == key && (key + rest)[TokenLen(key + rest)..] == rest
  {
    assert (key + rest)[0] == key[0] && TokenChar(key[0]);
    SpaceStops(gap, key + rest);
    TokenStops(key, rest);
    assert ("," + (gap + (key + rest)))[1..] == gap + (key + rest);
  }

  lemma NoSign(v: Version, gap: string, key: string, rest: string)
    requires AllSpace(gap) && AllToken(key) && (rest == "" || (rest[0] != '=' && !TokenChar(rest[0])))
    ensures NextParam(v, "," + (gap + (key + rest))) == Stop
  {
    KeyRead(gap, key, rest);
  }

  lemma NoValue(v: Version, gap: string, key: string, rest: string)
    requires AllSpace(gap) && AllToken(key) && (rest == "" || (rest[0] != '\"' && !TokenChar(rest[0])))
    ensures NextParam(v, "," + (gap + (key + ("=" + rest)))) == Stop
  {
    KeyRead(gap, key, "=" + rest);
    TokenStops("", rest);
    assert ("=" + rest)[1..] == rest && "" + rest == rest;
  }

  lemma BodyStarts(ps: seq<Param>, gap: string, tail: string)
    requires ps != [] && AllToken(ps[0].key)
    ensures PrintParams(ps, gap, tail) != "" && TokenChar(PrintParams(ps, gap, tail)[0])
  {
  }

  lemma SchemeReads(v: Version, scheme: string, body: string)
    requires AllToken(scheme) && body != "" && TokenChar(body[0])
    ensures ParseHeader(v, scheme + (" " + body)) == Params(v, "," + body, ToLower(scheme), map[])
  {
    var header := scheme + (" " + body);
    TokenStops(scheme, " " + body);
    assert header[..|scheme|] == scheme && header[|scheme|..] == " " + body;
    SpaceStops(" ", body);
  }

  /** Round trip: with keys distinct without regard to case, the parse is the lower-case
      scheme and exactly the printed parameters. */
  lemma ChallengeRoundTrip(v: Version, scheme: string, ps: seq<Param>, gap: string)
    requires AllToken(scheme) && AllSpace(gap)
    requires forall i | 0 <= i < |ps| :: Readable(v, ps[i])
    requires forall i, j | 0 <= i < j < |ps| :: ToLower(ps[i].key) != ToLower(ps[j].key)
    ensures var r := ParseHeader(v, Print(scheme, ps, gap, ""));
            && r.Parsed? && r.scheme == ToLower(scheme)
            && (forall i | 0 <= i < |ps| :: ToLower(ps[i].key) in r.params && r.params[ToLower(ps[i].key)] == ps[i].value)
            && (forall k | k in r.params :: exists i :: 0 <= i < |ps| && k == ToLower(ps[i].key))
  {
    if ps == [] {
      BareScheme(v, scheme);
      Assoc(scheme, " ", "");
    } else {
      ChallengeReads(v, scheme, ps, gap, "");
      assert Params(v, SkipSpace(""), ToLower(scheme), ParamMap(ps, map[])) == Parsed(ToLower(scheme), ParamMap(ps, map[]));
    }
    forall i | 0 <= i < |ps|
      ensures ToLower(ps[i].key) in ParamMap(ps, map[]) && ParamMap(ps, map[])[ToLower(ps[i].key)] == ps[i].value
    {
      ParamMapHas(ps, map[], i);
    }
    forall k | k in ParamMap(ps, map[]) ensures exists i :: 0 <= i < |ps| && k == ToLower(ps[i].key) {
      if forall i | 0 <= i < |ps| :: k != ToLower(ps[i].key) { ParamMapOthers(ps, map[], k); }
    }
  }

  lemma BareScheme(v: Version, scheme: string)
    requires AllToken(scheme)
    ensures ParseHeader(v, scheme + (" " + "")) == Parsed(ToLower(scheme), map[])
  {
    var header := scheme + (" " + "");
    TokenStops(scheme, " " + "");
    assert header[..|scheme|] == scheme && header[|scheme|..] == " " + "";
    SpaceStops(" ", "");
    assert ("," + "")[1..] == "";
  }

  /** A key that is not printed keeps its value, and no other key appears. */
  lemma {:induction false} ParamMapOthers(ps: seq<Param>, m: map<string, string>, k: string)
    requires forall i | 0 <= i < |ps| :: k != ToLower(ps[i].key)
    ensures (k in ParamMap(ps, m) <==> k in m) && (k in m ==> ParamMap(ps, m)[k] == m[k])
    decreases |ps|
  {
    if ps != [] { ParamMapOthers(ps[1..], m[ToLower(ps[0].key) := ps[0].value], k); }
  }

  lemma {:induction false} ParamMapHas(ps: seq<Param>, m: map<string, string>, i: nat)
    requires i < |ps| && forall j | i < j < |ps| :: ToLower(ps[i].key) != ToLower(ps[j].key)
    ensures ToLower(ps[i].key) in ParamMap(ps, m) && ParamMap(ps, m)[ToLower(ps[i].key)] == ps[i].value
    decreases |ps|
  {
    var m' := m[ToLower(ps[0].key) := ps[0].value];
    if i == 0 { ParamMapOthers(ps[1..], m', ToLower(ps[0].key)); } else { ParamMapHas(ps[1..], m', i - 1); }
  }
}
