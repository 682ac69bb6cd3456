/** When a printed challenge is read as it was printed: parameter by parameter for a list,
    and by its result for a single parameter. */
module AuthExact {
  import opened Strings
  import opened AuthChallenge
  import opened AuthQuoted
  import opened AuthEscapes
  import opened AuthRoundTrip

  // ----- parameter by parameter -----

  /** Each printed parameter in turn is read as its key and value, up to its closing quote. */
  ghost predicate ReadInTurn(v: Version, ps: seq<Param>, before: string, gap: string, tail: string)
    decreases |ps|
  {
    ps == []
    || (NextParam(v, "," + before + PrintParams(ps, gap, tail)) == Read(ps[0].key, ps[0].value, After(ps, gap, tail))
        && ReadInTurn(v, ps[1..], gap, gap, tail))
  }

  lemma ParamReadsIff(v: Version, p: Param, gap: string, tail: string)
    requires PrintableParam(p) && AllSpace(gap) && Ends(p, tail)
    ensures NextParam(v, "," + gap + PrintParam(p, tail)) == Read(p.key, p.value, tail) <==> p.bare || Survives(v, p.value)
  {
    ParamTurn(v, p, gap, tail);
    if p.bare {
      BareTurn(v, p, tail);
    } else {
      QuotedTurn(v, p, tail);
      SurvivesIff(v, p.value, tail);
    }
  }

  /** A bare value is a token; a quoted one is anything but empty. */
  predicate PrintableParam(p: Param) {
    AllToken(p.key) && if p.bare then AllToken(p.value) else p.value != ""
  }

  ghost predicate Printable(ps: seq<Param>, tail: string) {
    (forall i | 0 <= i < |ps| :: PrintableParam(ps[i])) && (ps != [] ==> Ends(ps[|ps| - 1], tail))
  }

  ghost predicate AllSurvive(v: Version, ps: seq<Param>) {
    forall i | 0 <= i < |ps| :: ps[i].bare || Survives(v, ps[i].value)
  }

  lemma AllSurviveNext(v: Version, ps: seq<Param>)
    requires ps != []
    ensures AllSurvive(v, ps) <==> (ps[0].bare || Survives(v, ps[0].value)) && AllSurvive(v, ps[1..])
  {
    assert forall i | 0 < i < |ps| :: ps[i] == ps[1..][i - 1];
  }

  lemma FirstEnds(ps: seq<Param>, gap: string, tail: string)
    requires ps != [] && Printable(ps, tail)
    ensures Ends(ps[0], After(ps, gap, tail)) && Printable(ps[1..], tail)
  {
    if |ps| > 1 { assert After(ps, gap, tail)[0] == ','; }
  }

  /** A printed list of parameters, quoted or bare, is read in turn exactly when every quoted
      value survives. */
  lemma {:induction false} ReadInTurnIff(v: Version, ps: seq<Param>, before: string, gap: string, tail: string)
    requires AllSpace(before) && AllSpace(gap) && Printable(ps, tail)
    ensures ReadInTurn(v, ps, before, gap, tail) <==> AllSurvive(v, ps)
    decreases |ps|
  {
    if ps != [] {
      FirstPrinted(ps, gap, tail);
      FirstEnds(ps, gap, tail);
      assert PrintableParam(ps[0]);
      ParamReadsIff(v, ps[0], before, After(ps, gap, tail));
      ReadInTurnIff(v, ps[1..], gap, gap, tail);
      AllSurviveNext(v, ps);
    }
  }

  // ----- by the result -----

  /** Every quote but the first and the last byte follows a backslash. */
  ghost predicate Guarded(s: string) {
    forall j | 0 < j < |s| - 1 && s[j] == '\"' :: s[j - 1] == '\\'
  }

  lemma GuardedSuffix(rest: string, s: string)
    requires Guarded(s) && Suffix(rest, s)
    ensures Guarded(rest)
  {
    var n := |s| - |rest|;
    forall j | 0 < j < |rest| - 1 && rest[j] == '\"' ensures rest[j - 1] == '\\' {
      assert rest[j] == s[n + j] && rest[j - 1] == s[n + j - 1];
    }
  }

  lemma {:induction false} EscapedGuarded(w: string)
    ensures Guarded(Escape(w) + "\"")
    ensures w != "" ==> (Escape(w) + "\"")[0] != '\"'
    decreases |w|
  {
    if w != "" {
      var head, rest := EscapeByte(w[0]), Escape(w[1..]) + "\"";
      EscapedGuarded(w[1..]);
      Assoc(head, Escape(w[1..]), "\"");
      assert Escape(w) + "\"" == head + rest;
      HeadGuarded(w[0], rest, w[1..] == "");
    }
  }

  lemma HeadGuarded(c: char, rest: string, last: bool)
    requires Guarded(rest) && rest != "" && (if last then |rest| == 1 else rest[0] != '\"')
    ensures Guarded(EscapeByte(c) + rest)
  {
    var head := EscapeByte(c);
    var s := head + rest;
    forall j | 0 < j < |s| - 1 && s[j] == '\"' ensures s[j - 1] == '\\' {
      if j >= |head| {
        assert s[j] == rest[j - |head|];
        if j > |head| { assert s[j - 1] == rest[j - |head| - 1]; }
      }
    }
  }

  predicate NoSpecial(s: string) {
    forall k | 0 <= k < |s| :: !Special(s[k])
  }

  lemma QuotedShrinks(v: Version, s: string)
    ensures Quoted(v, s).Closed? ==> Suffix(Quoted(v, s).rest, s)
  {
    UnescapeShrinks(s, Resume(v, FirstSpecial(s)), true, s[..FirstSpecial(s)], |s| - 1);
  }

  /** A quote behind an "=" can only be the last byte. */
  lemma QuoteIsLast(s2: string, s: string)
    requires Guarded(s) && Suffix(s2, s) && "=" <= s2 && "\"" <= s2[1..]
    ensures s2[1..] == "\""
  {
    GuardedSuffix(s2, s);
    assert s2[0] == '=' && s2[1] == '\"';
  }

  lemma ValueIsToken(v: Version, q: string)
    requires "\"" <= q ==> q == "\""
    ensures TokenOrQuoted(v, q).Closed? ==> NoSpecial(TokenOrQuoted(v, q).value)
  {
    if q == "\"" {
      assert q[1..] == "";
    }
  }

  lemma SkipIsSuffix(s: string)
    requires s != ""
    ensures var s1 := SkipSpace(s[1..]); Suffix(s1[TokenLen(s1)..], s)
  {
    var s1 := SkipSpace(s[1..]);
    var s2 := s1[TokenLen(s1)..];
    assert s1 == s[|s| - |s1|..];
    assert s2 == s[|s| - |s2|..];
  }

  /** In such a text no value is quoted: the only bare quote is the last byte. */
  lemma NextIsToken(v: Version, s: string)
    requires Guarded(s)
    ensures NextParam(v, s).Read? ==> NoSpecial(NextParam(v, s).value)
  {
    if "," <= s {
      var s1 := SkipSpace(s[1..]);
      var s2 := s1[TokenLen(s1)..];
      SkipIsSuffix(s);
      if "=" <= s2 {
        if "\"" <= s2[1..] { QuoteIsLast(s2, s); }
        ValueIsToken(v, s2[1..]);
      }
    }
  }

  lemma NextGuarded(v: Version, s: string)
    requires Guarded(s) && NextParam(v, s).Read?
    ensures Guarded(SkipSpace(NextParam(v, s).rest)) && |SkipSpace(NextParam(v, s).rest)| < |s|
  {
    NextShrinks(v, s);
    var rest := SkipSpace(NextParam(v, s).rest);
    assert Suffix(rest, s);
    GuardedSuffix(rest, s);
  }

  /** So parameters read from it hold no quote or backslash. */
  lemma {:induction false} TokensOnly(v: Version, s: string, scheme: string, params: map<string, string>, key: string)
    requires Guarded(s)
    ensures var r := Params(v, s, scheme, params);
            r.Parsed? && key in r.params ==> NoSpecial(r.params[key]) || (key in params && r.params[key] == params[key])
    decreases |s|
  {
    var next := NextParam(v, s);
    if next.Read? {
      var params' := params[ToLower(next.key) := next.value];
      NextIsToken(v, s);
      NextGuarded(v, s);
      TokensOnly(v, SkipSpace(next.rest), scheme, params', key);
      assert Params(v, s, scheme, params) == Params(v, SkipSpace(next.rest), scheme, params');
    }
  }

  lemma InnerGuarded(p: Param)
    ensures Guarded(Inner(p, ""))
  {
    EscapedGuarded(p.value);
    assert Inner(p, "") == Escape(p.value) + "\"";
  }

  /** Where another value is read, the result has another value for the key. */
  lemma WrongStays(v: Version, p: Param, scheme: string, value: string, rest: string)
    requires Quoted(v, Inner(p, "")) == Closed(value, rest) && value != p.value && !NoSpecial(p.value)
    ensures Params(v, SkipSpace(rest), scheme, map[ToLower(p.key) := value])
         != Parsed(scheme, map[ToLower(p.key) := p.value])
  {
    var key := ToLower(p.key);
    InnerGuarded(p);
    QuotedShrinks(v, Inner(p, ""));
    assert Suffix(SkipSpace(rest), Inner(p, ""));
    GuardedSuffix(SkipSpace(rest), Inner(p, ""));
    TokensOnly(v, SkipSpace(rest), scheme, map[key := value], key);
    assert map[key := p.value][key] == p.value;
  }

  /** The result of a challenge with one parameter is the scheme and that parameter exactly
      when the value is bare or survives. */
  lemma SingleRoundTripIff(v: Version, scheme: string, p: Param, gap: string)
    requires AllToken(scheme) && AllSpace(gap) && PrintableParam(p)
    ensures ParseHeader(v, Print(scheme, [p], gap, "")) == Parsed(ToLower(scheme), map[ToLower(p.key) := p.value])
       <==> p.bare || Survives(v, p.value)
  {
    var key, low := ToLower(p.key), ToLower(scheme);
    var wanted := Parsed(low, map[key := p.value]);
    SingleStart(v, scheme, p, gap);
    ParamTurn(v, p, "", "");
    ParamReadsIff(v, p, "", "");
    SurvivesIff(v, p.value, "");
    var r := TokenOrQuoted(v, Valued(p, ""));
    if !p.bare { QuotedTurn(v, p, ""); }
    assert key in wanted.params && wanted.params != map[];
    if p.bare || Survives(v, p.value) {
      SingleRead(v, low, p, p.value, "");
      assert NextParam(v, SkipSpace("")) == Stop;
    } else if r.Closed? && r.value != "" {
      SingleRead(v, low, p, r.value, r.rest);
      WrongStays(v, p, low, r.value, r.rest);
    }
  }

  lemma SingleStart(v: Version, scheme: string, p: Param, gap: string)
    requires AllToken(scheme) && AllToken(p.key)
    ensures ParseHeader(v, Print(scheme, [p], gap, "")) == Params(v, "," + "" + PrintParam(p, ""), ToLower(scheme), map[])
  {
    BodyStarts([p], gap, "");
    var body := PrintParams([p], gap, "");
    Assoc(scheme, " ", body);
    SchemeReads(v, scheme, body);
    assert "," + "" == ",";
  }

  lemma SingleRead(v: Version, scheme: string, p: Param, value: string, rest: string)
    requires NextParam(v, "," + "" + PrintParam(p, "")) == Read(p.key, value, rest)
    ensures Params(v, "," + "" + PrintParam(p, ""), scheme, map[])
         == Params(v, SkipSpace(rest), scheme, map[ToLower(p.key) := value])
  {
    assert map[][ToLower(p.key) := value] == map[ToLower(p.key) := value];
  }
}
