/** The WWW-Authenticate parser. Each character of a text here stands for one octet.

    Token and quoted-string are those of section 2.2 of RFC 2616, the challenge that of
    section 1.2 of RFC 2617. When the parser meets a backslash at offset `i` of a quoted
    string it resumes at `i + i`; the byte after the backslash is at `i + 1`. Every member
    takes the version it is about: `Written` is the code, `Intended` resumes at `i + 1`. */
module AuthChallenge {
  import opened Strings

  datatype Version = Written | Intended

  function Resume(v: Version, i: nat): nat {
    match v
    case Written => i + i
    case Intended => i + 1
  }

  predicate IsSpace(c: char) {
    c in {' ', '\t', '\r', '\n'}
  }

  predicate IsSeparator(c: char) {
    c in {' ', '\t', '\"', '(', ')', ',', '/', ':', ';', '<', '=', '>', '?', '@', '[', ']', '\\', '{', '}'}
  }

  predicate IsToken(c: char) {
    31 < c as int < 127 && !IsSeparator(c)
  }

  predicate Special(c: char) {
    c == '\"' || c == '\\'
  }

  predicate Suffix(rest: string, s: string) {
    |rest| <= |s| && rest == s[|s| - |rest|..]
  }

  // ----- tokens and white space -----

  function TokenLen(s: string): (n: nat)
    ensures n <= |s|
    ensures forall k | 0 <= k < n :: IsToken(s[k])
    ensures n < |s| ==> !IsToken(s[n])
  {
    if s != "" && IsToken(s[0]) then 1 + TokenLen(s[1..]) else 0
  }

  function SpaceLen(s: string): (n: nat)
    ensures n <= |s|
    ensures forall k | 0 <= k < n :: IsSpace(s[k])
    ensures n < |s| ==> !IsSpace(s[n])
  {
    if s != "" && IsSpace(s[0]) then 1 + SpaceLen(s[1..]) else 0
  }

  function SkipSpace(s: string): string {
    s[SpaceLen(s)..]
  }

  method ExpectToken(s: string) returns (token: string, rest: string)
    ensures token == s[..TokenLen(s)] && rest == s[TokenLen(s)..]
  {
    var i := 0;
    while i < |s|
      invariant i <= |s|
      invariant forall k | 0 <= k < i :: IsToken(s[k])
    {
      if !IsToken(s[i]) { break; }
      i := i + 1;
    }
    assert i == TokenLen(s);
    return s[..i], s[i..];
  }

  method SkipSpaces(s: string) returns (rest: string)
    ensures rest == SkipSpace(s)
  {
    var i := 0;
    while i < |s|
      invariant i <= |s|
      invariant forall k | 0 <= k < i :: IsSpace(s[k])
    {
      if !IsSpace(s[i]) { break; }
      i := i + 1;
    }
    assert i == SpaceLen(s);
    return s[i..];
  }

  // ----- quoted strings -----

  /** `Open`: no closing quote, the code returns two empty strings. `Overrun`: the
      unescape buffer is full and the code goes out of range. */
  datatype Scan = Closed(value: string, rest: string) | Open | Overrun

  function Unescape(s: string, i: nat, escape: bool, out: string, room: int): Scan
    decreases if i <= |s| then |s| - i else 0
  {
    if i >= |s| then Open
    else if !escape && s[i] == '\\' then Unescape(s, i + 1, true, out, room)
    else if !escape && s[i] == '\"' then Closed(out, s[i + 1..])
    else if |out| >= room then Overrun
    else Unescape(s, i + 1, false, out + [s[i]], room)
  }

  function FirstSpecial(s: string): (n: nat)
    ensures n <= |s|
    ensures forall k | 0 <= k < n :: !Special(s[k])
    ensures n < |s| ==> Special(s[n])
  {
    if s != "" && !Special(s[0]) then 1 + FirstSpecial(s[1..]) else 0
  }

  /** The text after the opening quote. */
  function Quoted(v: Version, s: string): Scan {
    var i := FirstSpecial(s);
    if i == |s| then Open
    else if s[i] == '\"' then Closed(s[..i], s[i + 1..])
    else Unescape(s, Resume(v, i), true, s[..i], |s| - 1)
  }

  function TokenOrQuoted(v: Version, s: string): Scan {
    if "\"" <= s then Quoted(v, s[1..]) else Closed(s[..TokenLen(s)], s[TokenLen(s)..])
  }

  method ExpectTokenOrQuoted(v: Version, s0: string) returns (scan: Scan)
    ensures scan == TokenOrQuoted(v, s0)
  {
    if !("\"" <= s0) {
      var token, rest := ExpectToken(s0);
      return Closed(token, rest);
    }
    var s := s0[1..];
    var i := 0;
    while i < |s|
      invariant i <= |s|
      invariant forall k | 0 <= k < i :: !Special(s[k])
    {
      if s[i] == '\"' {
        assert i == FirstSpecial(s);
        return Closed(s[..i], s[i + 1..]);
      } else if s[i] == '\\' {
        assert i == FirstSpecial(s);
        scan := UnescapeInto(v, s, i);
        return;
      }
      i := i + 1;
    }
    return Open;
  }

  /** The inner loop, over the buffer `p` of `len(s) - 1` bytes. */
  method UnescapeInto(v: Version, s: string, first: nat) returns (scan: Scan)
    requires first < |s|
    ensures scan == Unescape(s, Resume(v, first), true, s[..first], |s| - 1)
  {
    var p := new char[|s| - 1];
    forall k | 0 <= k < first {
      p[k] := s[k];
    }
    var j := first;
    assert p[..j] == s[..first];
    var escape := true;
    var i := Resume(v, first);
    while i < |s|
      invariant 0 <= j <= p.Length
      invariant Unescape(s, i, escape, p[..j], |s| - 1) == Unescape(s, Resume(v, first), true, s[..first], |s| - 1)
    {
      var b := s[i];
      if !escape && b == '\\' {
        escape := true;
      } else if !escape && b == '\"' {
        return Closed(p[..j], s[i + 1..]);
      } else {
        escape := false;
        if j >= p.Length { return Overrun; }
        ghost var before := p[..j];
        p[j] := b;
        j := j + 1;
        assert p[..j] == before + [b];
      }
      i := i + 1;
    }
    return Open;
  }

  // ----- the challenge -----

  datatype Parse = Parsed(scheme: string, params: map<string, string>) | Crash

  /** One turn of the parameter loop. */
  datatype Turn = Stop | Broken | Read(key: string, value: string, rest: string)

  function NextParam(v: Version, s: string): Turn {
    if !("," <= s) then Stop
    else
      var s1 := SkipSpace(s[1..]);
      var pkey, s2 := s1[..TokenLen(s1)], s1[TokenLen(s1)..];
      if pkey == "" || !("=" <= s2) then Stop
      else match TokenOrQuoted(v, s2[1..])
        case Overrun => Broken
        case Open => Stop
        case Closed(pvalue, rest) => if pvalue == "" then Stop else Read(pkey, pvalue, rest)
  }

  function Params(v: Version, s: string, scheme: string, params: map<string, string>): Parse
    decreases |s|
  {
    match NextParam(v, s)
    case Stop => Parsed(scheme, params)
    case Broken => Crash
    case Read(key, value, rest) =>
      NextShrinks(v, s);
      Params(v, SkipSpace(rest), scheme, params[ToLower(key) := value])
  }

  function ParseHeader(v: Version, header: string): Parse {
    var value, s := header[..TokenLen(header)], header[TokenLen(header)..];
    if value == "" then Parsed("", map[])
    else Params(v, "," + SkipSpace(s), ToLower(value), map[])
  }

  /** The remainder is a suffix of the text before it, so each parameter read leaves less. */
  lemma ScanShrinks(v: Version, s: string)
    ensures TokenOrQuoted(v, s).Closed? ==> Suffix(TokenOrQuoted(v, s).rest, s)
  {
    if "\"" <= s {
      var q := s[1..];
      UnescapeShrinks(q, Resume(v, FirstSpecial(q)), true, q[..FirstSpecial(q)], |q| - 1);
    }
  }

  /** Each turn of the loop leaves a suffix shorter than what it started from. */
  lemma NextShrinks(v: Version, s: string)
    ensures NextParam(v, s).Read? ==> s != "" && Suffix(NextParam(v, s).rest, s[1..])
  {
    if "," <= s {
      var s1 := SkipSpace(s[1..]);
      var s2 := s1[TokenLen(s1)..];
      if "=" <= s2 { ScanShrinks(v, s2[1..]); }
    }
  }

  lemma {:induction false} UnescapeShrinks(s: string, i: nat, escape: bool, out: string, room: int)
    ensures var r := Unescape(s, i, escape, out, room);
            r.Closed? ==> Suffix(r.rest, s)
    decreases if i <= |s| then |s| - i else 0
  {
    if i < |s| {
      UnescapeShrinks(s, i + 1, true, out, room);
      UnescapeShrinks(s, i + 1, false, out + [s[i]], room);
    }
  }

  /** The body of the parameter loop, up to the assignment. */
  method ReadParam(v: Version, s0: string) returns (turn: Turn)
    requires "," <= s0
    ensures turn == NextParam(v, s0)
  {
    var s := SkipSpaces(s0[1..]);
    var pkey;
    pkey, s := ExpectToken(s);
    if pkey == "" { return Stop; }
    if !("=" <= s) { return Stop; }
    var scan := ExpectTokenOrQuoted(v, s[1..]);
    if scan == Overrun { return Broken; }
    if scan == Open || scan.value == "" { return Stop; }
    return Read(pkey, scan.value, scan.rest);
  }

  method ParseValueAndParams(v: Version, header: string) returns (result: Parse)
    ensures result == ParseHeader(v, header)
  {
    var params: map<string, string> := map[];
    var value, s := ExpectToken(header);
    if value == "" { return Parsed("", params); }
    value := ToLower(value);
    var tail := SkipSpaces(s);
    s := "," + tail;
    while "," <= s
      invariant Params(v, s, value, params) == ParseHeader(v, header)
      decreases |s|
    {
      NextShrinks(v, s);
      var turn := ReadParam(v, s);
      if turn == Broken { return Crash; }
      if turn == Stop { return Parsed(value, params); }
      params := params[ToLower(turn.key) := turn.value];
      s := SkipSpaces(turn.rest);
    }
    return Parsed(value, params);
  }

  // ----- the unescape buffer -----

  lemma {:induction false} RoomEnough(s: string, i: nat, escape: bool, out: string, room: int)
    requires |out| <= room && |out| + |s| - i <= room
    ensures Unescape(s, i, escape, out, room) != Overrun
    decreases if i <= |s| then |s| - i else 0
  {
    if i < |s| {
      if !escape && s[i] == '\\' {
        RoomEnough(s, i + 1, true, out, room);
      } else if escape || s[i] != '\"' {
        RoomEnough(s, i + 1, false, out + [s[i]], room);
      }
    }
  }

  lemma {:induction false} OneByteShort(s: string, i: nat, out: string, room: int)
    requires i <= |s| && |out| <= room && |out| + |s| - i == room + 1
    ensures Unescape(s, i, false, out, room) == Overrun <==> forall k | i <= k < |s| :: !Special(s[k])
    decreases |s| - i
  {
    if s[i] == '\\' {
      RoomEnough(s, i + 1, true, out, room);
    } else if s[i] != '\"' && |out| < room {
      OneByteShort(s, i + 1, out + [s[i]], room);
    }
  }

  /** As intended the buffer is never overrun. The code overruns it exactly on a quoted
      string whose only special byte is a backslash right after the opening quote. */
  lemma OverrunIff(s: string)
    ensures Quoted(Intended, s) != Overrun
    ensures Quoted(Written, s) == Overrun
       <==> s != "" && s[0] == '\\' && forall k | 1 <= k < |s| :: !Special(s[k])
  {
    var i := FirstSpecial(s);
    if i < |s| && s[i] == '\\' {
      RoomEnough(s, i + 1, true, s[..i], |s| - 1);
      if i > 0 {
        RoomEnough(s, i + i, true, s[..i], |s| - 1);
      } else if |s| > 1 {
        OneByteShort(s, 1, "" + [s[0]], |s| - 1);
      }
    }
  }

  // ----- parameters are never lost -----

  /** Whatever follows, no parameter already read is dropped from the result. */
  lemma {:induction false} ParamsStay(v: Version, s: string, scheme: string, params: map<string, string>)
    ensures var r := Params(v, s, scheme, params);
            r.Parsed? ==> r.scheme == scheme && params.Keys <= r.params.Keys
    decreases |s|
  {
    var next := NextParam(v, s);
    if next.Read? {
      NextShrinks(v, s);
      ParamsStay(v, SkipSpace(next.rest), scheme, params[ToLower(next.key) := next.value]);
    }
  }
}
