/** Which escaped values the challenge parser reads back, value by value. A quoted string
    that is scanned from the wrong place may still come out right; this module says exactly
    when, for the code's resumption at `i + i` as for the intended one at `i + 1`. */
module AuthEscapes {
  import opened Strings
  import opened AuthChallenge
  import opened AuthQuoted

  function Repeat(c: char, n: nat): (s: string)
    ensures |s| == n && forall k | 0 <= k < n :: s[k] == c
  {
    if n == 0 then "" else [c] + Repeat(c, n - 1)
  }

  /** A scan that closes has read at least the closing quote. */
  lemma {:induction false} RestShorter(s: string, i: nat, escape: bool, out: string, room: int)
    ensures var r := Unescape(s, i, escape, out, room);
            r.Closed? ==> i < |s| && |r.rest| < |s| - i
    decreases if i <= |s| then |s| - i else 0
  {
    if i < |s| {
      RestShorter(s, i + 1, true, out, room);
      RestShorter(s, i + 1, false, out + [s[i]], room);
    }
  }

  /** What a scan of the escaped `w`, begun with `out`, may come to if it closes no later than
      at the quote behind `w`: no more bytes than `w` has, or just `w`. */
  predicate NotLonger(r: Scan, out: string, w: string, tail: string) {
    r.Closed? && |r.rest| >= |tail| ==> |r.value| <= |out| + |w|
  }

  /** From an escape on, the whole of an escaped text is read as itself only if it is
      backslashes and a plain byte. */
  lemma {:induction false} WholeOnly(s: string, i: nat, w: string, tail: string, out: string, room: int)
    requires i <= |s| && s[i..] == Escape(w) + "\"" + tail && |out| + |w| + 1 <= room
    ensures var r := Unescape(s, i, true, out, room);
            && NotLonger(r, out, w, tail)
            && (r.Closed? && |r.rest| >= |tail| && r.value == out + w ==> SlashesThenPlain(w))
    decreases |w|
  {
    if w == "" {
      QuoteSkipped(s, i, tail, out, room);
    } else {
      EscapedHead(s, i, w, tail);
      Headed(out, w);
      if w[0] == '\\' {
        TwoSlashes(s, i, out, room);
        WholeOnly(s, i + 2, w[1..], tail, out + [w[0]], room);
      } else if w[0] == '\"' {
        assert Unescape(s, i, true, out, room) == Closed(out + ['\\'], s[i + 2..]);
        assert (out + w)[|out|] == '\"';
      } else {
        PlainRead(s, i, w[0], w[1..], tail, out, room);
      }
    }
  }

  /** A closing quote taken for an escaped byte: a later one closes. */
  lemma QuoteSkipped(s: string, i: nat, tail: string, out: string, room: int)
    requires i <= |s| && s[i..] == "\"" + tail
    ensures var r := Unescape(s, i, true, out, room);
            r.Closed? ==> |r.rest| < |tail|
  {
    assert |s| - i == 1 + |tail|;
    RestShorter(s, i + 1, false, out + [s[i]], room);
  }

  lemma CutBehind(head: string, rest: string, m: nat)
    requires |head| <= m <= |head| + |rest|
    ensures (head + rest)[m..] == rest[m - |head|..]
  {
  }

  lemma EscapeShape(w: string, tail: string)
    requires w != ""
    ensures Escape(w) + "\"" + tail == EscapeByte(w[0]) + (Escape(w[1..]) + "\"" + tail)
    ensures |Escape(w)| == |EscapeByte(w[0])| + |Escape(w[1..])|
  {
    var head := EscapeByte(w[0]);
    assert Escape(w) == head + Escape(w[1..]);
    Rebracket(head, Escape(w[1..]), "\"", tail);
  }

  lemma CutAt(c: char, rest: string, m: nat)
    requires 0 < m <= |EscapeByte(c)| + |rest|
    ensures var n := |EscapeByte(c)|;
            (EscapeByte(c) + rest)[m..] == if m >= n then rest[m - n..] else [c] + rest
  {
    var head := EscapeByte(c);
    if m >= |head| { CutBehind(head, rest, m); } else { CutInside('\\', c, rest); }
  }

  /** Cutting an escaped text behind its first byte, or in the middle of it. */
  lemma EscapeFrom(w: string, tail: string, m: nat)
    requires w != "" && 0 < m <= |Escape(w)| + 1
    ensures var n := |EscapeByte(w[0])|;
            if m >= n then m - n <= |Escape(w[1..])| + 1
                           && (Escape(w) + "\"" + tail)[m..] == (Escape(w[1..]) + "\"" + tail)[m - n..]
            else (Escape(w) + "\"" + tail)[m..] == [w[0]] + (Escape(w[1..]) + "\"" + tail)
  {
    EscapeShape(w, tail);
    CutAt(w[0], Escape(w[1..]) + "\"" + tail, m);
  }

  lemma CutInside(a: char, b: char, rest: string)
    ensures ([a, b] + rest)[1..] == [b] + rest
  {
  }

  /** No part of an escaped text, read from an escape on, gives more bytes than the text. */
  lemma {:induction false} PartShort(s: string, i: nat, w: string, tail: string, m: nat, out: string, room: int)
    requires i <= |s| && m <= |Escape(w)| + 1 && s[i..] == (Escape(w) + "\"" + tail)[m..] && |out| + |w| + 1 <= room
    ensures NotLonger(Unescape(s, i, true, out, room), out, w, tail)
    decreases |w|
  {
    if m == 0 {
      WholeOnly(s, i, w, tail, out, room);
    } else if w == "" {
      assert |s[i..]| == |tail|;
      RestShorter(s, i, true, out, room);
    } else {
      EscapeFrom(w, tail, m);
      var n := |EscapeByte(w[0])|;
      if m >= n {
        PartShort(s, i, w[1..], tail, m - n, out, room);
      } else {
        Behind(s, i, [w[0]], Escape(w[1..]) + "\"" + tail);
        assert s[i + 0] == [w[0]][0];
        PlainRead(s, i, w[0], w[1..], tail, out, room);
      }
    }
  }

  lemma SlashText(value: string, tail: string, k: nat)
    requires k == FirstSpecial(value) < |value|
    ensures Escape(value) + "\"" + tail == value[..k] + (['\\', value[k]] + (Escape(value[k + 1..]) + "\"" + tail))
  {
    EscapeAt(value, k);
    Regroup(value[..k], ['\\', value[k]], Escape(value[k + 1..]), "\"", tail);
  }

  /** With the first special byte at offset 2 or later, the code loses the byte it escapes. */
  lemma RunShort(s: string, k: nat, w: string, tail: string)
    requires k >= 2 && |s| == k + 2 + |Escape(w)| + 1 + |tail| && s[k + 2..] == Escape(w) + "\"" + tail
    ensures var r := Unescape(s, k + k, true, s[..k], |s| - 1);
            r.Closed? && |r.rest| >= |tail| ==> |r.value| <= k + |w|
  {
    EscapeGrows(w);
    if k - 2 <= |Escape(w)| + 1 {
      TailOfTail(s, k + 2, k - 2);
      PartShort(s, k + k, w, tail, k - 2, s[..k], |s| - 1);
    } else {
      RestShorter(s, k + k, true, s[..k], |s| - 1);
    }
  }

  lemma TailOfTail(s: string, a: nat, b: nat)
    requires a + b <= |s|
    ensures s[a + b..] == s[a..][b..]
  {
  }

  /** The value comes back, with no part of what follows it read. */
  predicate Back(r: Scan, value: string, tail: string) {
    r.Closed? && r.value == value && |r.rest| >= |tail|
  }

  lemma LateIn(s: string, k: nat, w: string, tail: string, value: string)
    requires 2 <= k < |s| && s[k] == '\\' && forall j | 0 <= j < k :: !Special(s[j])
    requires |s| == k + 2 + |Escape(w)| + 1 + |tail| && s[k + 2..] == Escape(w) + "\"" + tail
    requires |value| == k + 1 + |w|
    ensures !Back(Quoted(Written, s), value, tail)
  {
    FirstSpecialAt(s, k);
    RunShort(s, k, w, tail);
  }

  lemma LateRun(s: string, pre: string, c: char, w: string, tail: string, value: string)
    requires |pre| >= 2 && (forall k | 0 <= k < |pre| :: !Special(pre[k])) && |value| == |pre| + 1 + |w|
    requires s == pre + (['\\', c] + (Escape(w) + "\"" + tail))
    ensures !Back(Quoted(Written, s), value, tail)
  {
    var rest := Escape(w) + "\"" + tail;
    var k := |pre|;
    AroundBackslash(pre, '\\', c, rest);
    forall j | 0 <= j < k ensures !Special(s[j]) { assert s[j] == s[..k][j]; }
    assert |rest| == |Escape(w)| + 1 + |tail|;
    LateIn(s, k, w, tail, value);
  }

  lemma LateLost(value: string, tail: string)
    requires 2 <= FirstSpecial(value) < |value|
    ensures !Back(Quoted(Written, Escape(value) + "\"" + tail), value, tail)
  {
    var k := FirstSpecial(value);
    SlashText(value, tail, k);
    LateRun(Escape(value) + "\"" + tail, value[..k], value[k], value[k + 1..], tail, value);
  }

  /** As written, a backslash at the start is scanned again. */
  lemma ScanAtStart(s: string)
    requires s != "" && s[0] == '\\'
    ensures Quoted(Written, s) == Unescape(s, 0, true, "", |s| - 1)
  {
    FirstSpecialAt(s, 0);
    assert s[..0] == "";
  }

  /** A scan of the whole from its start, at `i`, which is 0. */
  lemma FirstScan(s: string, i: nat, value: string, tail: string)
    requires i == 0 && s[i..] == Escape(value) + "\"" + tail && |value| + 2 <= |s| && !SlashesThenPlain(value)
    ensures !Back(Unescape(s, i, true, "", |s| - 1), value, tail)
  {
    WholeOnly(s, i, value, tail, "", |s| - 1);
    FromEmpty(value);
  }

  lemma FirstLost(value: string, tail: string)
    requires FirstSpecial(value) == 0 < |value| && !SlashesThenPlain(value)
    ensures !Back(Quoted(Written, Escape(value) + "\"" + tail), value, tail)
  {
    var s := Escape(value) + "\"" + tail;
    FromStart(s);
    EscapedHead(s, 0, value, tail);
    EscapeLonger(value);
    ScanAtStart(s);
    FirstScan(s, 0, value, tail);
  }

  lemma FromStart(s: string)
    ensures s[0..] == s
  {
  }

  lemma FromEmpty(s: string)
    ensures "" + s == s
  {
  }

  lemma EscapeLonger(value: string)
    requires value != "" && Special(value[0])
    ensures |Escape(value)| >= |value| + 1
  {
    EscapeGrows(value[1..]);
  }

  /** Which single values come back, before any text that follows: exactly the surviving ones,
      in either version. A scan that goes wrong does not even happen on the right value
      without reading into what follows. */
  lemma SurvivesIff(v: Version, value: string, tail: string)
    ensures Quoted(v, Escape(value) + "\"" + tail) == Closed(value, tail) <==> Survives(v, value)
    ensures Back(Quoted(v, Escape(value) + "\"" + tail), value, tail) <==> Survives(v, value)
  {
    var k := FirstSpecial(value);
    if Survives(v, value) {
      QuotedEscaped(v, value, tail);
    } else if k == 0 {
      FirstLost(value, tail);
    } else {
      LateLost(value, tail);
    }
  }

  /** A value that the code does not read back, for every offset but 1. */
  lemma OffsetFails(k: nat)
    requires k != 1
    ensures var value := Repeat('a', k) + "\"";
            FirstSpecial(value) == k < |value| && !Survives(Written, value)
  {
    var value := Repeat('a', k) + "\"";
    FirstSpecialAt(value, k);
    assert value[k] == '\"';
  }

  /** As written, escaped values whose first special byte is at offset `k` are all read
      back, before any text, exactly for k = 1, where `i + i` and `i + 1` agree. */
  lemma OffsetIff(k: nat, tail: string)
    ensures (forall value: string | value != "" && FirstSpecial(value) == k < |value| ::
               Quoted(Written, Escape(value) + "\"" + tail) == Closed(value, tail))
       <==> k == 1
  {
    if k == 1 {
      forall value: string | value != "" && FirstSpecial(value) == k < |value|
        ensures Quoted(Written, Escape(value) + "\"" + tail) == Closed(value, tail)
      {
        SurvivesIff(Written, value, tail);
      }
    } else {
      OffsetFails(k);
      SurvivesIff(Written, Repeat('a', k) + "\"", tail);
    }
  }
}
