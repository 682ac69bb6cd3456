/** What the four passes of `Patchldso` leave. Each pass blanks its pattern, but a blanked
    pattern ends in new NUL bytes, with which the text after it can be a pattern again; and
    two copies of a pattern can share the NUL between them. This module says exactly for
    which images a pattern is still there at the end. */
module LdRemains {
  import opened LdPatch
  import opened Strings

  /** `w` stands at offset `k` of `s`. */
  predicate At(s: string, w: string, k: int) {
    0 <= k && k + |w| <= |s| && s[k..k + |w|] == w
  }

  lemma AtByte(s: string, w: string, k: int, i: nat)
    requires At(s, w, k) && i < |w|
    ensures s[k + i] == w[i]
  {
    assert s[k..k + |w|][i] == s[k + i];
  }

  lemma AtBytes(s: string, w: string, k: int)
    requires 0 <= k && k + |w| <= |s| && forall i | 0 <= i < |w| :: s[k + i] == w[i]
    ensures At(s, w, k)
  {
  }

  ghost predicate Occurs(s: string, w: string) {
    exists k :: At(s, w, k)
  }

  // ----- the windows of one pass -----

  lemma {:induction false} WindowStart(s: string, was: string, i: nat)
    requires was != "" && Offset(s, was, i).Some?
    ensures Offset(s, was, i).value <= i
    decreases |s|
  {
    if was <= s {
      if i >= |was| { WindowStart(s[|was|..], was, i - |was|); }
    } else {
      WindowStart(s[1..], was, i - 1);
    }
  }

  /** How the search goes on. */
  lemma OffsetSteps(s: string, was: string, i: nat)
    requires was != "" && |s| >= |was|
    ensures was <= s ==> Offset(s, was, i) == if i < |was| then Some(i) else Offset(s[|was|..], was, i - |was|)
    ensures !(was <= s) ==> Offset(s, was, i) == if i == 0 then None else Offset(s[1..], was, i - 1)
  {
  }

  /** The windows of a pass do not overlap. */
  lemma {:induction false} WindowWhole(s: string, was: string, i: nat, j: nat)
    requires was != "" && Offset(s, was, i).Some?
    requires i - Offset(s, was, i).value <= j < i - Offset(s, was, i).value + |was|
    ensures Offset(s, was, j) == Some(j - (i - Offset(s, was, i).value))
    decreases |s|
  {
    OffsetSteps(s, was, i);
    OffsetSteps(s, was, j);
    if was <= s {
      if i >= |was| {
        WindowStart(s[|was|..], was, i - |was|);
        WindowWhole(s[|was|..], was, i - |was|, j - |was|);
      }
    } else {
      WindowStart(s[1..], was, i - 1);
      WindowWhole(s[1..], was, i - 1, j - 1);
    }
  }

  /** The search passes over no occurrence without a window on its first byte. */
  lemma {:induction false} WindowThere(s: string, was: string, k: nat)
    requires was != "" && At(s, was, k)
    ensures Offset(s, was, k).Some?
    decreases |s|
  {
    if was <= s {
      if k >= |was| {
        AtShift(s, was, |was|, k);
        WindowThere(s[|was|..], was, k - |was|);
      }
    } else {
      if At(s, was, 0) { AtStart(s, was); }
      AtShift(s, was, 1, k);
      WindowThere(s[1..], was, k - 1);
    }
  }

  lemma AtStart(s: string, w: string)
    requires At(s, w, 0)
    ensures w <= s
  {
    assert s[0..|w|] == s[..|w|];
  }

  lemma AtShift(s: string, w: string, n: nat, k: int)
    requires n <= k && n <= |s|
    ensures At(s[n..], w, k - n) <==> At(s, w, k)
  {
    if 0 <= k && k + |w| <= |s| { assert s[n..][k - n..k - n + |w|] == s[k..k + |w|]; }
  }

  lemma WindowAt(s: string, was: string, i: nat)
    requires was != "" && Offset(s, was, i).Some?
    ensures Offset(s, was, i).value <= i && At(s, was, i - Offset(s, was, i).value)
  {
    OffsetInMatch(s, was, i);
    var m := i - Offset(s, was, i).value;
    assert s[m..][..|was|] == s[m..m + |was|];
  }

  // ----- words and patterns -----

  /** A text like "/lib": from a slash on, no NUL, and more than a slash at the end. */
  predicate Word(v: string) {
    |v| >= 2 && v[0] == '/' && v[|v| - 1] != '/' && forall i | 0 <= i < |v| :: v[i] != '\0'
  }

  /** The word after a NUL, and before one too if `closed`. */
  function Led(u: string, closed: bool): string {
    if closed then "\0" + u + "\0" else "\0" + u
  }

  /** A pass with pattern `was` takes `s` to `r`. */
  ghost predicate Pass(s: string, r: string, was: string)
    requires was != ""
  {
    |r| == |s| && forall i | 0 <= i < |s| :: r[i] == if Gone(s, was, i) then '\0' else s[i]
  }

  predicate Gone(s: string, was: string, i: nat)
    requires was != ""
  {
    Offset(s, was, i).Some? && Offset(s, was, i).value >= 2
  }

  /** The two words differ before either ends. */
  ghost predicate Differ(u: string, v: string) {
    exists j :: 0 <= j < |u| && j < |v| && u[j] != v[j]
  }

  /** A blanked byte blanks the next one too, unless its window ends there. */
  lemma GoneNext(s: string, was: string, i: nat)
    requires was != "" && Gone(s, was, i) && !Gone(s, was, i + 1)
    ensures Offset(s, was, i) == Some(|was| - 1)
  {
    var o := Offset(s, was, i).value;
    if o + 1 < |was| {
      WindowAt(s, was, i);
      WindowWhole(s, was, i, i + 1);
    }
  }

  /** Before a blanked byte there is another, or the pattern's second byte. */
  lemma GonePrevious(s: string, was: string, t: nat)
    requires |was| > 2 && t < |s| && Gone(s, was, t)
    ensures t > 0 && (Gone(s, was, t - 1) || s[t - 1] == was[1])
  {
    var o := Offset(s, was, t).value;
    WindowAt(s, was, t);
    WindowWhole(s, was, t, t - 1);
    AtByte(s, was, t - o, 1);
  }

  /** A NUL after the end of a word was there before. */
  lemma NulAfter(s: string, r: string, was: string, t: nat)
    requires |was| > 2 && was[1] == '/' && Pass(s, r, was) && 0 < t < |s|
    requires r[t] == '\0' && r[t - 1] != '\0' && r[t - 1] != '/'
    ensures s[t] == '\0'
  {
    if Gone(s, was, t) { GonePrevious(s, was, t); }
  }

  /** Inside a pattern, between its ends, there is no NUL. */
  lemma Inner(s: string, u: string, closed: bool, m: int, k: int)
    requires Word(u) && At(s, Led(u, closed), m) && m < k <= m + |u|
    ensures s[k] != '\0'
  {
    AtByte(s, Led(u, closed), m, k - m);
    assert Led(u, closed)[k - m] == u[k - m - 1];
  }

  /** No window but one on the NUL itself covers the word behind it. */
  lemma NoWindow(s: string, u: string, closed: bool, k: nat, i: nat)
    requires Word(u) && k < i < |s| && s[k] == '\0' && forall j | k < j <= i :: s[j] != '\0'
    ensures Offset(s, Led(u, closed), i).Some? ==> i - Offset(s, Led(u, closed), i).value == k
  {
    var was := Led(u, closed);
    if Offset(s, was, i).Some? {
      var m := i - Offset(s, was, i).value;
      WindowAt(s, was, i);
      AtByte(s, was, m, 0);
      if m < k <= m + |u| { Inner(s, u, closed, m, k); }
    }
  }

  /** Two words behind the same NUL do not differ. */
  lemma SameLead(s: string, u: string, closed: bool, v: string, k: int)
    requires At(s, Led(u, closed), k) && At(s, Led(v, false), k)
    ensures !Differ(u, v)
  {
    forall j | 0 <= j < |u| && j < |v| ensures u[j] == v[j] {
      AtByte(s, Led(u, closed), k, j + 1);
      AtByte(s, Led(v, false), k, j + 1);
    }
  }

  /** A word behind a NUL keeps its place through a pass for another word. */
  lemma StaysLed(s: string, r: string, u: string, closed: bool, v: string, k: int)
    requires Word(u) && Word(v) && Differ(u, v) && Pass(s, r, Led(u, closed))
    requires At(s, Led(v, false), k)
    ensures At(r, Led(v, false), k)
  {
    var w := Led(v, false);
    forall i | 0 <= i < |w| ensures r[k + i] == w[i] {
      AtByte(s, w, k, i);
      if i > 0 { StaysByte(s, u, closed, v, k, k + i); }
    }
    AtBytes(r, w, k);
  }

  lemma StaysByte(s: string, u: string, closed: bool, v: string, k: int, i: int)
    requires Word(u) && Word(v) && Differ(u, v) && At(s, Led(v, false), k) && k < i <= k + |v|
    ensures !Gone(s, Led(u, closed), i)
  {
    LedSize(s, v, k);
    LedByte(s, v, k, i);
    NoWindow(s, u, closed, k, i);
    if Offset(s, Led(u, closed), i).Some? {
      WindowAt(s, Led(u, closed), i);
      SameLead(s, u, closed, v, k);
    }
  }

  lemma LedByte(s: string, v: string, k: int, i: int)
    requires Word(v) && At(s, Led(v, false), k) && k < i <= k + |v|
    ensures forall j | k < j <= i :: s[j] != '\0'
  {
    forall j | k < j <= i ensures s[j] != '\0' { Inner(s, v, false, k, j); }
  }

  /** After a blanked pattern that ends in its word, the text behind it is led by a NUL. */
  lemma NewlyLed(s: string, r: string, u: string, v: string, m: int)
    requires Word(u) && Word(v) && Pass(s, r, Led(u, false)) && At(s, Led(u + v, false), m)
    ensures At(r, Led(v, false), m + |u|)
  {
    AtFirst(s, u, v, m);
    EndGone(s, u, m);
    forall i | 0 <= i < |v| + 1 ensures r[m + |u| + i] == Led(v, false)[i] {
      if i > 0 { BehindByte(s, u, v, m, m + |u| + i); }
    }
    AtBytes(r, Led(v, false), m + |u|);
  }

  lemma EndGone(s: string, u: string, m: nat)
    requires Word(u) && At(s, Led(u, false), m)
    ensures Gone(s, Led(u, false), m + |u|)
  {
    StartsThere(s, u, m);
    WindowWhole(s, Led(u, false), m, m + |u|);
  }

  lemma BehindByte(s: string, u: string, v: string, m: nat, i: nat)
    requires Word(u) && Word(v) && At(s, Led(u + v, false), m) && m + |u| < i <= m + |u| + |v|
    ensures s[i] == v[i - m - |u| - 1] && !Gone(s, Led(u, false), i)
  {
    AtByte(s, Led(u + v, false), m, i - m);
    assert Led(u + v, false)[i - m] == v[i - m - |u| - 1];
    WordJoin(u, v);
    BeyondWindow(s, u, v, m, i);
  }

  lemma AtFirst(s: string, u: string, v: string, m: int)
    requires At(s, Led(u + v, false), m)
    ensures At(s, Led(u, false), m)
  {
    assert Led(u + v, false)[..|u| + 1] == Led(u, false);
    assert s[m..m + |u + v| + 1][..|u| + 1] == s[m..m + |u| + 1];
  }

  /** A window on the first byte of an open pattern starts there. */
  lemma StartsThere(s: string, u: string, m: nat)
    requires Word(u) && At(s, Led(u, false), m)
    ensures Offset(s, Led(u, false), m) == Some(0)
  {
    var was := Led(u, false);
    WindowThere(s, was, m);
    WindowAt(s, was, m);
    var o := Offset(s, was, m).value;
    AtByte(s, was, m, 0);
    if o > 0 { Inner(s, u, false, m - o, m); }
  }

  lemma BeyondWindow(s: string, u: string, v: string, m: nat, i: nat)
    requires Word(u) && At(s, Led(u + v, false), m) && Word(u + v) && m + |u| < i <= m + |u| + |v|
    ensures !Gone(s, Led(u, false), i)
  {
    AtByte(s, Led(u + v, false), m, 0);
    LedByte(s, u + v, m, i);
    NoWindow(s, u, false, m, i);
  }

  /** A word that is there after a pass was not touched by it. */
  lemma Untouched(s: string, r: string, u: string, closed: bool, v: string, k: int)
    requires Word(v) && Pass(s, r, Led(u, closed)) && At(r, Led(v, false), k)
    ensures forall i | k < i <= k + |v| :: s[i] == v[i - k - 1] && !Gone(s, Led(u, closed), i)
  {
    forall i | k < i <= k + |v| ensures s[i] == v[i - k - 1] && !Gone(s, Led(u, closed), i) {
      AtByte(r, Led(v, false), k, i - k);
      assert Led(v, false)[i - k] == v[i - k - 1];
    }
  }

  lemma LedAt(s: string, v: string, k: int)
    requires 0 <= k && k + |v| < |s| && s[k] == '\0' && forall i | k < i <= k + |v| :: s[i] == v[i - k - 1]
    ensures At(s, Led(v, false), k)
  {
    AtBytes(s, Led(v, false), k);
  }

  /** The byte that ends a blanked window is no NUL: the pattern is open. */
  lemma ClosedEnds(s: string, u: string, k: int)
    requires Word(u) && 0 <= k && Gone(s, Led(u, true), k) && !Gone(s, Led(u, true), k + 1)
    ensures k < |s| && s[k] == '\0'
  {
    EndsThere(s, Led(u, true), k);
    LedLast(u, true);
  }

  lemma OpenEnds(s: string, u: string, k: int)
    requires Word(u) && 0 <= k && Gone(s, Led(u, false), k) && !Gone(s, Led(u, false), k + 1)
    ensures At(s, Led(u, false), k - |u|)
  {
    EndsThere(s, Led(u, false), k);
    LedLast(u, false);
  }

  /** Before an untouched word, a blanked byte is the end of an open pattern. */
  lemma BlankBefore(s: string, u: string, closed: bool, v: string, k: int)
    requires Word(u) && 0 <= k && k + |v| < |s| && s[k] != '\0'
    requires Gone(s, Led(u, closed), k) && !Gone(s, Led(u, closed), k + 1)
    requires forall i | k < i <= k + |v| :: s[i] == v[i - k - 1]
    ensures !closed && At(s, Led(u + v, false), k - |u|)
  {
    if closed {
      ClosedEnds(s, u, k);
    } else {
      OpenEnds(s, u, k);
      JoinAt(s, u, v, k - |u|);
    }
  }

  lemma PassByte(s: string, r: string, was: string, i: nat)
    requires was != "" && Pass(s, r, was) && i < |s| && r[i] == '\0'
    ensures s[i] == '\0' || Gone(s, was, i)
  {
  }

  lemma LedSize(s: string, v: string, k: int)
    requires Word(v) && At(s, Led(v, false), k)
    ensures 0 <= k && k + |v| < |s| && s[k] == '\0'
  {
    AtByte(s, Led(v, false), k, 0);
  }

  /** What leads a word after a pass led it before, or is the end of a blanked pattern. */
  lemma LedBefore(s: string, r: string, u: string, closed: bool, v: string, k: int)
    requires Word(u) && Word(v) && Pass(s, r, Led(u, closed)) && At(r, Led(v, false), k)
    ensures At(s, Led(v, false), k) || (!closed && At(s, Led(u + v, false), k - |u|))
  {
    LedSize(r, v, k);
    PassByte(s, r, Led(u, closed), k);
    Untouched(s, r, u, closed, v, k);
    if s[k] == '\0' {
      LedAt(s, v, k);
    } else {
      BlankBefore(s, u, closed, v, k);
    }
  }

  lemma LedLast(u: string, closed: bool)
    requires Word(u)
    ensures var was := Led(u, closed);
            if closed then |was| == |u| + 2 && was[|was| - 1] == '\0' else |was| == |u| + 1 && was == "\0" + u
  {
  }

  lemma EndsThere(s: string, was: string, k: nat)
    requires was != "" && Gone(s, was, k) && !Gone(s, was, k + 1)
    ensures k >= |was| - 1 && At(s, was, k - (|was| - 1)) && k < |s| && s[k] == was[|was| - 1]
  {
    GoneNext(s, was, k);
    WindowAt(s, was, k);
    AtByte(s, was, k - (|was| - 1), |was| - 1);
  }

  lemma JoinAt(s: string, u: string, v: string, m: int)
    requires At(s, Led(u, false), m) && m + |u| + |v| < |s|
    requires forall i | m + |u| < i <= m + |u| + |v| :: s[i] == v[i - m - |u| - 1]
    ensures At(s, Led(u + v, false), m)
  {
    forall i | 0 <= i < |u + v| + 1 ensures s[m + i] == Led(u + v, false)[i] {
      if i <= |u| { AtByte(s, Led(u, false), m, i); }
    }
    AtBytes(s, Led(u + v, false), m);
  }

  // ----- one pass, for another word -----

  predicate NulAt(s: string, t: int) {
    0 <= t < |s| && s[t] == '\0'
  }

  lemma AtClosed(s: string, v: string, k: int)
    ensures At(s, Led(v, true), k) <==> At(s, Led(v, false), k) && NulAt(s, k + |v| + 1)
  {
    var open, full, t := Led(v, false), Led(v, true), k + |v| + 1;
    assert full == open + "\0";
    if 0 <= k && t < |s| {
      assert s[k..t + 1] == s[k..t] + [s[t]];
      assert s[k..t + 1][..|v| + 1] == s[k..t] && full[..|v| + 1] == open;
      assert s[k..t + 1][|v| + 1] == s[t] && full[|v| + 1] == '\0';
    }
  }

  lemma LastByte(s: string, v: string, k: int)
    requires Word(v) && At(s, Led(v, false), k)
    ensures s[k + |v|] != '\0' && s[k + |v|] != '/'
  {
    AtByte(s, Led(v, false), k, |v|);
    assert Led(v, false)[|v|] == v[|v| - 1];
  }

  /** The NUL behind a word neither comes nor goes. */
  lemma NulIff(s: string, r: string, u: string, closed: bool, v: string, k: int)
    requires Word(u) && Word(v) && Pass(s, r, Led(u, closed)) && At(r, Led(v, false), k)
    ensures NulAt(r, k + |v| + 1) <==> NulAt(s, k + |v| + 1)
  {
    LastByte(r, v, k);
    if NulAt(r, k + |v| + 1) { NulAfter(s, r, Led(u, closed), k + |v| + 1); }
  }

  lemma OpenOf(s: string, v: string, k: int)
    requires At(s, Led(v, true), k)
    ensures At(s, Led(v, false), k) && NulAt(s, k + |v| + 1)
  {
    AtClosed(s, v, k);
  }

  lemma ClosedOf(s: string, v: string, k: int, t: int)
    requires At(s, Led(v, false), k) && t == k + |v| + 1 && NulAt(s, t)
    ensures At(s, Led(v, true), k)
  {
    AtClosed(s, v, k);
  }

  lemma FullBefore(s: string, r: string, u: string, closed: bool, v: string, k: int)
    requires Word(u) && Word(v) && Pass(s, r, Led(u, closed)) && At(r, Led(v, true), k)
    ensures At(s, Led(v, true), k) || (!closed && At(s, Led(u + v, true), k - |u|))
  {
    var t := k + |v| + 1;
    OpenOf(r, v, k);
    NulIff(s, r, u, closed, v, k);
    LedBefore(s, r, u, closed, v, k);
    if At(s, Led(v, false), k) { ClosedOf(s, v, k, t); } else { ClosedOf(s, u + v, k - |u|, t); }
  }

  lemma FullStays(s: string, r: string, u: string, closed: bool, v: string, k: int)
    requires Word(u) && Word(v) && Differ(u, v) && Pass(s, r, Led(u, closed)) && At(s, Led(v, true), k)
    ensures At(r, Led(v, true), k)
  {
    OpenOf(s, v, k);
    StaysLed(s, r, u, closed, v, k);
    NulIff(s, r, u, closed, v, k);
    ClosedOf(r, v, k, k + |v| + 1);
  }

  lemma FullNew(s: string, r: string, u: string, v: string, m: int)
    requires Word(u) && Word(v) && Pass(s, r, Led(u, false)) && At(s, Led(u + v, true), m)
    ensures At(r, Led(v, true), m + |u|)
  {
    OpenOf(s, u + v, m);
    NewlyLed(s, r, u, v, m);
    NulIff(s, r, u, false, v, m + |u|);
    ClosedOf(r, v, m + |u|, m + |u + v| + 1);
  }

  lemma OpenIff(s: string, r: string, u: string, closed: bool, v: string, k: int)
    requires Word(u) && Word(v) && Differ(u, v) && Pass(s, r, Led(u, closed))
    ensures At(r, Led(v, false), k) <==>
            At(s, Led(v, false), k) || (!closed && At(s, Led(u + v, false), k - |u|))
  {
    if At(r, Led(v, false), k) { LedBefore(s, r, u, closed, v, k); }
    if At(s, Led(v, false), k) { StaysLed(s, r, u, closed, v, k); }
    if !closed && At(s, Led(u + v, false), k - |u|) { NewlyLed(s, r, u, v, k - |u|); }
  }

  lemma FullIff(s: string, r: string, u: string, closed: bool, v: string, k: int)
    requires Word(u) && Word(v) && Differ(u, v) && Pass(s, r, Led(u, closed))
    ensures At(r, Led(v, true), k) <==>
            At(s, Led(v, true), k) || (!closed && At(s, Led(u + v, true), k - |u|))
  {
    if At(r, Led(v, true), k) { FullBefore(s, r, u, closed, v, k); }
    if At(s, Led(v, true), k) { FullStays(s, r, u, closed, v, k); }
    if !closed && At(s, Led(u + v, true), k - |u|) { FullNew(s, r, u, v, k - |u|); }
  }

  /** A word is led by a NUL after the pass exactly when it was before, or stood behind the
      pattern. */
  lemma LedIff(s: string, r: string, u: string, closed: bool, v: string, end: bool, k: int)
    requires Word(u) && Word(v) && Differ(u, v) && Pass(s, r, Led(u, closed))
    ensures At(r, Led(v, end), k) <==>
            At(s, Led(v, end), k) || (!closed && At(s, Led(u + v, end), k - |u|))
  {
    if end { FullIff(s, r, u, closed, v, k); } else { OpenIff(s, r, u, closed, v, k); }
  }

  lemma OccursIff(s: string, r: string, u: string, closed: bool, v: string, end: bool)
    requires Word(u) && Word(v) && Word(u + v) && Differ(u, v) && Pass(s, r, Led(u, closed))
    ensures Occurs(r, Led(v, end)) <==> Occurs(s, Led(v, end)) || (!closed && Occurs(s, Led(u + v, end)))
  {
    forall k ensures At(r, Led(v, end), k) <==> At(s, Led(v, end), k) || (!closed && At(s, Led(u + v, end), k - |u|)) {
      LedIff(s, r, u, closed, v, end, k);
    }
    OccursSplit(s, r, Led(v, end), Led(u + v, end), |u|, !closed);
  }

  /** What stands at the same place, or `n` bytes further, occurs as well. */
  lemma OccursSplit(s: string, r: string, w: string, behind: string, n: nat, open: bool)
    requires forall k :: At(r, w, k) <==> At(s, w, k) || (open && At(s, behind, k - n))
    ensures Occurs(r, w) <==> Occurs(s, w) || (open && Occurs(s, behind))
  {
    if k :| At(s, behind, k) {
      assert k + n - n == k;
      assert open ==> At(r, w, k + n);
    }
  }

  // ----- one pass, for its own word -----

  lemma StartGone(s: string, was: string, k: nat)
    requires |was| > 2 && Offset(s, was, k) == Some(0)
    ensures Gone(s, was, k + 2)
  {
    WindowWhole(s, was, k, k + 2);
  }

  /** An open pattern is there after its own pass exactly when its word stood twice. */
  lemma OwnOpen(s: string, r: string, u: string)
    requires Word(u) && Word(u + u) && Pass(s, r, Led(u, false))
    ensures Occurs(r, Led(u, false)) <==> Occurs(s, Led(u + u, false))
  {
    if k :| At(r, Led(u, false), k) {
      LedBefore(s, r, u, false, u, k);
      Untouched(s, r, u, false, u, k);
      if At(s, Led(u, false), k) {
        StartsThere(s, u, k);
        StartGone(s, Led(u, false), k);
      }
    }
    if m :| At(s, Led(u + u, false), m) { NewlyLed(s, r, u, u, m); }
  }

  /** Two copies that share a NUL. */
  function Twice(u: string): string {
    Led(u, true) + u + "\0"
  }

  lemma AtJoin(s: string, a: string, b: string, m: int)
    ensures At(s, a + b, m) <==> At(s, a, m) && At(s, b, m + |a|)
  {
    if 0 <= m && m + |a| + |b| <= |s| {
      var all := s[m..m + |a| + |b|];
      assert all[..|a|] == s[m..m + |a|] && all[|a|..] == s[m + |a|..m + |a| + |b|];
      assert all == all[..|a|] + all[|a|..];
      assert (a + b)[..|a|] == a && (a + b)[|a|..] == b;
    }
  }

  lemma AtTwice(s: string, u: string, m: int)
    ensures At(s, Twice(u), m) <==> At(s, Led(u, true), m) && At(s, Led(u, true), m + |u| + 1)
  {
    var one, tail := Led(u, true), u + "\0";
    assert Twice(u) == one + tail && one == "\0" + tail && one == "\0" + u + "\0";
    AtJoin(s, one, tail, m);
    AtJoin(s, "\0", tail, m + |u| + 1);
    AtJoin(s, "\0" + u, "\0", m);
  }

  /** A copy whose first NUL is the last of a window keeps its place. */
  lemma Spared(s: string, r: string, u: string, k: nat)
    requires Word(u) && Pass(s, r, Led(u, true)) && At(s, Led(u, true), k)
    requires Offset(s, Led(u, true), k) == Some(|u| + 1)
    ensures At(r, Led(u, true), k)
  {
    var was := Led(u, true);
    forall i | 0 <= i < |was| ensures r[k + i] == was[i] {
      AtByte(s, was, k, i);
      if 0 < i <= |u| { SparedByte(s, u, k, k + i); }
    }
    AtBytes(r, was, k);
  }

  lemma SparedByte(s: string, u: string, k: nat, i: nat)
    requires Word(u) && At(s, Led(u, true), k) && k < i <= k + |u|
    requires Offset(s, Led(u, true), k) == Some(|u| + 1)
    ensures !Gone(s, Led(u, true), i)
  {
    var was := Led(u, true);
    AtClosed(s, u, k);
    AtByte(s, was, k, 0);
    LedByte(s, u, k, i);
    NoWindow(s, u, true, k, i);
    if Offset(s, was, i).Some? { WindowWhole(s, was, i, k); }
  }

  /** A NUL in a closed pattern is its first or last byte. */
  lemma NulInside(s: string, u: string, m: int, k: int)
    requires Word(u) && At(s, Led(u, true), m) && m <= k < m + |u| + 2 && s[k] == '\0'
    ensures k == m || k == m + |u| + 1
  {
    if m < k <= m + |u| { Inner(s, u, true, m, k); }
  }

  /** A window on the first byte of a closed pattern starts or ends there. */
  lemma StartsOrEnds(s: string, u: string, k: nat)
    requires Word(u) && At(s, Led(u, true), k)
    ensures Offset(s, Led(u, true), k) in {Some(0), Some(|u| + 1)}
    ensures Offset(s, Led(u, true), k) == Some(|u| + 1) ==> At(s, Led(u, true), k - |u| - 1)
  {
    var was := Led(u, true);
    WindowThere(s, was, k);
    FirstNul(s, u, k);
    WindowAt(s, was, k);
    NulInside(s, u, k - Offset(s, was, k).value, k);
  }

  lemma FirstNul(s: string, u: string, k: nat)
    requires At(s, Led(u, true), k)
    ensures s[k] == '\0' && |Led(u, true)| == |u| + 2
  {
    AtByte(s, Led(u, true), k, 0);
  }

  /** Of two copies that share a NUL, one is spared. */
  lemma OneSpared(s: string, r: string, u: string, m: nat)
    requires Word(u) && Pass(s, r, Led(u, true)) && At(s, Led(u, true), m) && At(s, Led(u, true), m + |u| + 1)
    ensures At(r, Led(u, true), m) || At(r, Led(u, true), m + |u| + 1)
  {
    StartsOrEnds(s, u, m);
    if Offset(s, Led(u, true), m) == Some(0) {
      WindowWhole(s, Led(u, true), m, m + |u| + 1);
      Spared(s, r, u, m + |u| + 1);
    } else {
      Spared(s, r, u, m);
    }
  }

  /** A closed pattern is there after its own pass exactly when two copies shared a NUL. */
  lemma OwnClosed(s: string, r: string, u: string)
    requires Word(u) && Pass(s, r, Led(u, true))
    ensures Occurs(r, Led(u, true)) <==> Occurs(s, Twice(u))
  {
    if k :| At(r, Led(u, true), k) { WereTwo(s, r, u, k); }
    if m :| At(s, Twice(u), m) {
      AtTwice(s, u, m);
      OneSpared(s, r, u, m);
    }
  }

  lemma WereTwo(s: string, r: string, u: string, k: int)
    requires Word(u) && Pass(s, r, Led(u, true)) && At(r, Led(u, true), k)
    ensures At(s, Twice(u), k - |u| - 1)
  {
    StillThere(s, r, u, k);
    AtTwice(s, u, k - |u| - 1);
  }

  lemma StillThere(s: string, r: string, u: string, k: int)
    requires Word(u) && Pass(s, r, Led(u, true)) && At(r, Led(u, true), k)
    ensures At(s, Led(u, true), k) && At(s, Led(u, true), k - |u| - 1)
  {
    WasThere(s, r, u, k);
    StartsOrEnds(s, u, k);
    if Offset(s, Led(u, true), k) == Some(0) {
      StartGone(s, Led(u, true), k);
      AtClosed(r, u, k);
      Untouched(s, r, u, true, u, k);
    }
  }

  lemma WasThere(s: string, r: string, u: string, k: int)
    requires Word(u) && Pass(s, r, Led(u, true)) && At(r, Led(u, true), k)
    ensures At(s, Led(u, true), k)
  {
    AtClosed(r, u, k);
    AtClosed(s, u, k);
    LedBefore(s, r, u, true, u, k);
    NulIff(s, r, u, true, u, k);
  }

  // ----- the four passes -----

  const V_ETC := "/etc/ld.so.preload"
  const V_ETC1 := "/etc/ld.so.cache"
  const V_LIB := "/lib"
  const V_USR := "/usr/lib"

  lemma Words()
    ensures Word(V_ETC) && Word(V_ETC1) && Word(V_LIB) && Word(V_USR)
    ensures ETC == Led(V_ETC, true) && ETC1 == Led(V_ETC1, true) && LIB == Led(V_LIB, false) && USR == Led(V_USR, false)
  {
  }

  lemma WordJoin(a: string, b: string)
    requires Word(a) && Word(b)
    ensures Word(a + b)
  {
  }

  lemma DifferAt(u: string, v: string, j: nat)
    requires j < |u| && j < |v| && u[j] != v[j]
    ensures Differ(u, v)
  {
  }

  lemma PassIs(s: string, was: string, now: string)
    requires |was| == |now| >= 2 && now[..2] == was[..2] && forall j | 2 <= j < |now| :: now[j] == '\0'
    ensures Pass(s, Replace(s, was, now), was)
  {
    ReplaceSize(s, was, now);
    forall i | 0 <= i < |s| ensures Replace(s, was, now)[i] == if Gone(s, was, i) then '\0' else s[i] {
      BlankByte(s, was, now, i);
    }
  }

  lemma PassOf(image: string, k: nat)
    requires k < 4
    ensures Pass(Passes(image, k), Passes(image, k + 1), Pattern(k))
  {
    BlankFits(k);
    PassIs(Passes(image, k), Pattern(k), Blank(k));
  }

  /** A word that starts with "/l" or "/u" passes the first two passes. */
  lemma EtcPasses(image: string, v: string, end: bool)
    requires Word(v) && v[1] != 'e'
    ensures Occurs(Passes(image, 2), Led(v, end)) <==> Occurs(image, Led(v, end))
  {
    Words();
    PassOf(image, 0);
    PassOf(image, 1);
    WordJoin(V_ETC, v);
    WordJoin(V_ETC1, v);
    DifferAt(V_ETC, v, 1);
    DifferAt(V_ETC1, v, 1);
    OccursIff(image, Passes(image, 1), V_ETC, true, v, end);
    OccursIff(Passes(image, 1), Passes(image, 2), V_ETC1, true, v, end);
  }

  /** The word stands behind a library pattern that the passes blank. */
  ghost predicate Behind(image: string, v: string, end: bool) {
    || Occurs(image, Led(V_LIB + v, end)) || Occurs(image, Led(V_USR + v, end))
    || Occurs(image, Led(V_LIB + (V_USR + v), end))
  }

  /** Through two passes for open patterns, for another word. */
  lemma TwoPasses(s: string, r: string, last: string, lib: string, usr: string, v: string, end: bool)
    requires Word(lib) && Word(usr) && Word(v) && Differ(lib, v) && Differ(usr, v) && Differ(lib, usr + v)
    requires Pass(s, r, Led(lib, false)) && Pass(r, last, Led(usr, false))
    ensures Occurs(last, Led(v, end)) <==>
            || Occurs(s, Led(v, end)) || Occurs(s, Led(lib + v, end))
            || Occurs(s, Led(usr + v, end)) || Occurs(s, Led(lib + (usr + v), end))
  {
    WordJoin(lib, v);
    WordJoin(usr, v);
    WordJoin(lib, usr + v);
    OccursIff(s, r, lib, false, v, end);
    OccursIff(r, last, usr, false, v, end);
    OccursIff(s, r, lib, false, usr + v, end);
  }

  /** What the last pass finds behind "/usr/lib". */
  lemma UsrFinds(image: string, v: string, end: bool)
    requires Word(v)
    ensures Occurs(Passes(image, 3), Led(V_USR + v, end)) <==>
            Occurs(image, Led(V_USR + v, end)) || Occurs(image, Led(V_LIB + (V_USR + v), end))
  {
    Words();
    WordJoin(V_USR, v);
    WordJoin(V_LIB, V_USR + v);
    DifferAt(V_LIB, V_USR + v, 1);
    PassOf(image, 2);
    OccursIff(Passes(image, 2), Passes(image, 3), V_LIB, false, V_USR + v, end);
    EtcPasses(image, V_USR + v, end);
    EtcPasses(image, V_LIB + (V_USR + v), end);
  }

  /** Through the two library passes, for a word that is neither library. */
  lemma LibPasses(image: string, v: string, end: bool)
    requires Word(v) && v[1] == 'e'
    ensures Occurs(Passes(image, 4), Led(v, end)) <==> Occurs(Passes(image, 2), Led(v, end)) || Behind(image, v, end)
  {
    Words();
    DifferAt(V_LIB, v, 1);
    DifferAt(V_USR, v, 1);
    DifferAt(V_LIB, V_USR + v, 1);
    PassOf(image, 2);
    PassOf(image, 3);
    TwoPasses(Passes(image, 2), Passes(image, 3), Passes(image, 4), V_LIB, V_USR, v, end);
    LibEtcPasses(image, v, end);
  }

  lemma LibEtcPasses(image: string, v: string, end: bool)
    requires Word(v)
    ensures Behind(Passes(image, 2), v, end) <==> Behind(image, v, end)
  {
    Words();
    WordJoin(V_LIB, v);
    WordJoin(V_USR, v);
    WordJoin(V_LIB, V_USR + v);
    EtcPasses(image, V_LIB + v, end);
    EtcPasses(image, V_USR + v, end);
    EtcPasses(image, V_LIB + (V_USR + v), end);
  }

  lemma LibRemains(image: string)
    ensures Occurs(Passes(image, 4), LIB) <==> Behind(image, V_LIB, false)
  {
    Words();
    WordJoin(V_LIB, V_LIB);
    WordJoin(V_USR, V_LIB);
    DifferAt(V_USR, V_LIB, 1);
    PassOf(image, 2);
    PassOf(image, 3);
    OwnOpen(Passes(image, 2), Passes(image, 3), V_LIB);
    EtcPasses(image, V_LIB + V_LIB, false);
    OccursIff(Passes(image, 3), Passes(image, 4), V_USR, false, V_LIB, false);
    UsrFinds(image, V_LIB, false);
  }

  lemma UsrRemains(image: string)
    ensures Occurs(Passes(image, 4), USR) <==>
            Occurs(image, Led(V_USR + V_USR, false)) || Occurs(image, Led(V_LIB + (V_USR + V_USR), false))
  {
    Words();
    WordJoin(V_USR, V_USR);
    PassOf(image, 3);
    OwnOpen(Passes(image, 3), Passes(image, 4), V_USR);
    UsrFinds(image, V_USR, false);
  }

  lemma EtcRemains(image: string)
    ensures Occurs(Passes(image, 4), ETC) <==> Occurs(image, Twice(V_ETC)) || Behind(image, V_ETC, true)
  {
    Words();
    WordJoin(V_ETC1, V_ETC);
    assert V_ETC1[11] == 'c' && V_ETC[11] == 'p';
    DifferAt(V_ETC1, V_ETC, 11);
    PassOf(image, 0);
    PassOf(image, 1);
    OwnClosed(image, Passes(image, 1), V_ETC);
    OccursIff(Passes(image, 1), Passes(image, 2), V_ETC1, true, V_ETC, true);
    LibPasses(image, V_ETC, true);
  }

  lemma Etc1Remains(image: string)
    ensures Occurs(Passes(image, 4), ETC1) <==> Occurs(image, Twice(V_ETC1)) || Behind(image, V_ETC1, true)
  {
    Words();
    PassOf(image, 1);
    OwnClosed(Passes(image, 1), Passes(image, 2), V_ETC1);
    TwicePasses(image);
    LibPasses(image, V_ETC1, true);
  }

  lemma TwicePasses(image: string)
    ensures Occurs(Passes(image, 1), Twice(V_ETC1)) <==> Occurs(image, Twice(V_ETC1))
  {
    Words();
    WordJoin(V_ETC, V_ETC1);
    assert V_ETC[11] == 'p' && V_ETC1[11] == 'c';
    DifferAt(V_ETC, V_ETC1, 11);
    PassOf(image, 0);
    forall k ensures At(Passes(image, 1), Twice(V_ETC1), k) <==> At(image, Twice(V_ETC1), k) {
      AtTwice(image, V_ETC1, k);
      AtTwice(Passes(image, 1), V_ETC1, k);
      LedIff(image, Passes(image, 1), V_ETC, true, V_ETC1, true, k);
      LedIff(image, Passes(image, 1), V_ETC, true, V_ETC1, true, k + |V_ETC1| + 1);
    }
  }

  /** `x`, less its leading NUL, stands right behind "\0/lib", "\0/usr/lib" or
      "\0/lib/usr/lib". */
  ghost predicate Exposed(image: string, x: string)
    requires x != ""
  {
    Occurs(image, LIB + x[1..]) || Occurs(image, USR + x[1..]) || Occurs(image, LIB + USR[1..] + x[1..])
  }

  /** Of the four patterns, exactly these are left by `Patchldso`: a text that stood behind a
      blanked library pattern, and of two copies that share a NUL one. (A "/lib" behind
      "/lib" is exposed; a "/usr/lib" behind "/lib" is blanked by the last pass.) */
  lemma PatternRemainsIff(image: string)
    ensures var patched := Passes(image, 4);
            && (Occurs(patched, ETC) <==> Occurs(image, ETC + ETC[1..]) || Exposed(image, ETC))
            && (Occurs(patched, ETC1) <==> Occurs(image, ETC1 + ETC1[1..]) || Exposed(image, ETC1))
            && (Occurs(patched, LIB) <==> Exposed(image, LIB))
            && (Occurs(patched, USR) <==> Occurs(image, USR + USR[1..]) || Occurs(image, LIB + USR[1..] + USR[1..]))
  {
    EtcRemains(image);
    Etc1Remains(image);
    LibRemains(image);
    UsrRemains(image);
    Words();
    ExposedIs(image, V_ETC, true);
    ExposedIs(image, V_ETC1, true);
    ExposedIs(image, V_LIB, false);
    UsrTwice();
    TwiceIs(V_ETC);
    TwiceIs(V_ETC1);
  }

  lemma TwiceIs(u: string)
    ensures Twice(u) == Led(u, true) + Led(u, true)[1..]
  {
  }

  lemma ExposedIs(image: string, v: string, end: bool)
    ensures Exposed(image, Led(v, end)) <==> Behind(image, v, end)
  {
    Words();
    TailOf(V_LIB, v, end);
    TailOf(V_USR, v, end);
    TailOf(V_LIB + V_USR, v, end);
    LibUsr(v);
  }

  lemma LibUsr(v: string)
    ensures Led(V_LIB + V_USR, false) == LIB + USR[1..] && V_LIB + V_USR + v == V_LIB + (V_USR + v)
  {
    assert USR[1..] == V_USR;
  }

  lemma UsrTwice()
    ensures USR + USR[1..] == Led(V_USR + V_USR, false)
    ensures LIB + USR[1..] + USR[1..] == Led(V_LIB + (V_USR + V_USR), false)
  {
    Words();
    TailOf(V_USR, V_USR, false);
    TailOf(V_LIB, V_USR, false);
    TailOf(V_LIB + V_USR, V_USR, false);
    assert V_LIB + V_USR + V_USR == V_LIB + (V_USR + V_USR);
  }

  /** A pattern behind another, less its leading NUL. */
  lemma TailOf(u: string, v: string, end: bool)
    ensures Led(u, false) + Led(v, end)[1..] == Led(u + v, end)
  {
    var x := if end then v + "\0" else v;
    assert Led(v, end) == "\0" + x && Led(v, end)[1..] == x;
    assert Led(u + v, end) == "\0" + (u + x);
    assert "\0" + u + x == "\0" + (u + x);
  }
}
