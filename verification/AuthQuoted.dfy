/** Quoted strings printed and scanned back: which escaped values the challenge parser reads
    whole, before any text that follows. */
module AuthQuoted {
  import opened Strings
  import opened AuthChallenge

  function Escape(value: string): string {
    if value == "" then ""
    else (if value[0] == '\"' || value[0] == '\\' then ['\\', value[0]] else [value[0]]) + Escape(value[1..])
  }

  /** A run of backslashes, then a byte that is not special. */
  predicate SlashesThenPlain(w: string) {
    w != "" && if w[0] == '\\' then SlashesThenPlain(w[1..]) else w[0] != '\"'
  }

  /** The values that version `v` reads back: as written, those without a special byte, those
      with the first one at offset 1, and those that begin with backslashes before a byte
      that is not special. */
  predicate Survives(v: Version, value: string) {
    || v == Intended || FirstSpecial(value) == |value| || FirstSpecial(value) == 1
    || (FirstSpecial(value) == 0 && SlashesThenPlain(value))
  }

  lemma {:induction false} UnescapeEscaped(s: string, i: nat, w: string, tail: string, out: string, room: int)
    requires i <= |s| && s[i..] == Escape(w) + "\"" + tail && |out| + |w| <= room
    ensures Unescape(s, i, false, out, room) == Closed(out + w, tail)
    decreases |w|
  {
    if w == "" {
      assert s[i..] == "\"" + tail;
      assert s[i + 1..] == s[i..][1..] == tail;
      assert out + w == out;
    } else {
      EscapedHead(s, i, w, tail);
      Headed(out, w);
      UnescapeEscaped(s, if Special(w[0]) then i + 2 else i + 1, w[1..], tail, out + [w[0]], room);
    }
  }

  lemma {:induction false} EscapeSplit(value: string, k: nat)
    requires k <= FirstSpecial(value)
    ensures Escape(value) == value[..k] + Escape(value[k..])
  {
    if k > 0 {
      EscapeSplit(value[1..], k - 1);
      assert value[1..][k - 1..] == value[k..];
      assert value[..k] == [value[0]] + value[1..][..k - 1];
    }
  }

  lemma QuotedRaw(v: Version, value: string, tail: string)
    requires forall k | 0 <= k < |value| :: !Special(value[k])
    ensures Quoted(v, value + ("\"" + tail)) == Closed(value, tail)
  {
    var s := value + ("\"" + tail);
    FirstSpecialAt(s, |value|);
    assert s[..|value|] == value && s[|value| + 1..] == tail;
  }

  lemma AroundBackslash(pre: string, a: char, b: char, rest: string)
    ensures var s, k := pre + ([a, b] + rest), |pre|;
            s[..k] == pre && s[k] == a && s[k + 1] == b && s[k + 2..] == rest
  {
  }

  /** A text whose first special byte is a backslash: where the scan resumes. */
  lemma ScanAtBackslash(v: Version, pre: string, c: char, rest: string)
    requires forall k | 0 <= k < |pre| :: !Special(pre[k])
    ensures var s, k := pre + (['\\', c] + rest), |pre|;
            Quoted(v, s) == Unescape(s, Resume(v, k), true, pre, |s| - 1)
  {
    var s, k := pre + (['\\', c] + rest), |pre|;
    AroundBackslash(pre, '\\', c, rest);
    assert forall j | 0 <= j < k :: s[j] == pre[j];
    FirstSpecialAt(s, k);
  }

  lemma PairRead(s: string, pre: string, c: char, w: string, tail: string)
    requires |s| == |pre| + 2 + |Escape(w)| + 1 + |tail| && s[|pre| + 1] == c
    requires s[|pre| + 2..] == Escape(w) + "\"" + tail
    ensures Unescape(s, |pre| + 1, true, pre, |s| - 1) == Closed(pre + [c] + w, tail)
  {
    EscapeGrows(w);
    var i := |pre| + 1;
    assert s[i + 1..] == Escape(w) + "\"" + tail;
    PlainRead(s, i, c, w, tail, pre, |s| - 1);
  }

  lemma QuotedAtBackslash(v: Version, pre: string, c: char, w: string, tail: string)
    requires forall k | 0 <= k < |pre| :: !Special(pre[k])
    requires Resume(v, |pre|) == |pre| + 1
    ensures Quoted(v, pre + (['\\', c] + (Escape(w) + "\"" + tail))) == Closed(pre + [c] + w, tail)
  {
    var rest := Escape(w) + "\"" + tail;
    ScanAtBackslash(v, pre, c, rest);
    AroundBackslash(pre, '\\', c, rest);
    PairRead(pre + (['\\', c] + rest), pre, c, w, tail);
  }

  lemma RawReads(v: Version, value: string, tail: string)
    requires FirstSpecial(value) == |value|
    ensures Quoted(v, Escape(value) + "\"" + tail) == Closed(value, tail)
  {
    EscapeSplit(value, |value|);
    assert value[..|value|] == value && value[|value|..] == "";
    assert Escape(value) == value;
    Assoc(value, "\"", tail);
    QuotedRaw(v, value, tail);
  }

  lemma EscapedReads(v: Version, text: string, pre: string, c: char, w: string, tail: string)
    requires forall k | 0 <= k < |pre| :: !Special(pre[k])
    requires text == pre + (['\\', c] + Escape(w)) && Resume(v, |pre|) == |pre| + 1
    ensures Quoted(v, text + "\"" + tail) == Closed(pre + [c] + w, tail)
  {
    Regroup(pre, ['\\', c], Escape(w), "\"", tail);
    QuotedAtBackslash(v, pre, c, w, tail);
  }

  lemma Rejoin(s: string, k: nat)
    requires k < |s|
    ensures s[..k] + [s[k]] + s[k + 1..] == s
  {
  }

  lemma Behind(s: string, i: nat, a: string, b: string)
    requires i <= |s| && s[i..] == a + b
    ensures i + |a| <= |s| && s[i + |a|..] == b
    ensures forall j | 0 <= j < |a| :: s[i + j] == a[j]
  {
    assert forall j | 0 <= j < |a| :: s[i + j] == s[i..][j];
    assert s[i + |a|..] == s[i..][|a|..];
  }

  lemma Rebracket(a: string, b: string, c: string, d: string)
    ensures a + b + c + d == a + (b + c + d)
  {
  }

  function EscapeByte(c: char): string {
    if Special(c) then ['\\', c] else [c]
  }

  /** The first byte of an escaped text, and what follows it. */
  lemma EscapedHead(s: string, i: nat, w: string, tail: string)
    requires i <= |s| && s[i..] == Escape(w) + "\"" + tail && w != ""
    ensures Special(w[0]) ==> i + 2 <= |s| && s[i] == '\\' && s[i + 1] == w[0] && s[i + 2..] == Escape(w[1..]) + "\"" + tail
    ensures !Special(w[0]) ==> i + 1 <= |s| && s[i] == w[0] && s[i + 1..] == Escape(w[1..]) + "\"" + tail
  {
    var head, rest := EscapeByte(w[0]), Escape(w[1..]);
    assert Escape(w) == head + rest;
    Rebracket(head, rest, "\"", tail);
    Behind(s, i, head, rest + "\"" + tail);
    HeadBytes(s, i, w[0]);
  }

  lemma HeadBytes(s: string, i: nat, c: char)
    requires i + |EscapeByte(c)| <= |s| && forall j | 0 <= j < |EscapeByte(c)| :: s[i + j] == EscapeByte(c)[j]
    ensures if Special(c) then s[i] == '\\' && s[i + 1] == c else s[i] == c
  {
    assert s[i + 0] == EscapeByte(c)[0];
    assert Special(c) ==> s[i + 1] == EscapeByte(c)[1];
  }

  lemma TwoSlashes(s: string, i: nat, out: string, room: int)
    requires i + 2 <= |s| && s[i] == '\\' && s[i + 1] == '\\' && |out| < room
    ensures Unescape(s, i, true, out, room) == Unescape(s, i + 2, true, out + ['\\'], room)
  {
    assert Unescape(s, i, true, out, room) == Unescape(s, i + 1, false, out + ['\\'], room);
  }

  lemma PlainRead(s: string, i: nat, c: char, w: string, tail: string, out: string, room: int)
    requires i < |s| && s[i] == c && s[i + 1..] == Escape(w) + "\"" + tail && |out| + 1 + |w| <= room
    ensures Unescape(s, i, true, out, room) == Closed(out + [c] + w, tail)
  {
    UnescapeEscaped(s, i + 1, w, tail, out + [c], room);
  }

  lemma Headed(out: string, w: string)
    requires w != ""
    ensures out + [w[0]] + w[1..] == out + w
  {
  }

  /** From an escape on, a text of backslashes and a plain byte is read to its end. */
  lemma {:induction false} SlashesRead(s: string, i: nat, w: string, tail: string, out: string, room: int)
    requires i <= |s| && s[i..] == Escape(w) + "\"" + tail && |out| + |w| <= room && SlashesThenPlain(w)
    ensures Unescape(s, i, true, out, room) == Closed(out + w, tail)
    decreases |w|
  {
    EscapedHead(s, i, w, tail);
    Headed(out, w);
    if w[0] == '\\' {
      TwoSlashes(s, i, out, room);
      SlashesRead(s, i + 2, w[1..], tail, out + [w[0]], room);
    } else {
      PlainRead(s, i, w[0], w[1..], tail, out, room);
    }
  }

  lemma SlashesFirst(value: string, tail: string)
    requires FirstSpecial(value) == 0 && SlashesThenPlain(value)
    ensures Quoted(Written, Escape(value) + "\"" + tail) == Closed(value, tail)
  {
    var s := Escape(value) + "\"" + tail;
    assert s[0..] == s;
    EscapedHead(s, 0, value, tail);
    FirstSpecialAt(s, 0);
    EscapeGrows(value);
    SlashesRead(s, 0, value, tail, "", |s| - 1);
    assert s[..0] == "";
  }

  lemma QuotedEscaped(v: Version, value: string, tail: string)
    requires Survives(v, value)
    ensures Quoted(v, Escape(value) + "\"" + tail) == Closed(value, tail)
  {
    var k := FirstSpecial(value);
    if k == |value| {
      RawReads(v, value, tail);
    } else if v == Intended || k == 1 {
      EscapeAt(value, k);
      EscapedReads(v, Escape(value), value[..k], value[k], value[k + 1..], tail);
      Rejoin(value, k);
    } else {
      SlashesFirst(value, tail);
    }
  }

  lemma EscapeAt(value: string, k: nat)
    requires k < |value| && k == FirstSpecial(value)
    ensures Escape(value) == value[..k] + (['\\', value[k]] + Escape(value[k + 1..]))
  {
    EscapeSplit(value, k);
    assert value[k..][1..] == value[k + 1..];
  }

  lemma Regroup(a: string, b: string, c: string, d: string, e: string)
    ensures (a + (b + c)) + d + e == a + (b + (c + d + e))
  {
  }

  lemma FirstSpecialAt(s: string, k: nat)
    requires k < |s| && Special(s[k]) && forall j | 0 <= j < k :: !Special(s[j])
    ensures FirstSpecial(s) == k
  {
  }

  lemma {:induction false} EscapeGrows(w: string)
    ensures |w| <= |Escape(w)|
  {
    if w != "" { EscapeGrows(w[1..]); }
  }
}
