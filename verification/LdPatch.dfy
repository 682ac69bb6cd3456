/** `Patchldso`: four byte replacements over the image of ld.so. A string here is a run of
    octets. */
module LdPatch {
  import opened Strings

  const ETC := "\0/etc/ld.so.preload\0"
  const ETC1 := "\0/etc/ld.so.cache\0"
  const LIB := "\0/lib"
  const USR := "\0/usr/lib"
  const NUL_ETC := "\0/\0\0\0\0\0\0\0\0\0\0\0\0\0\0\0\0\0\0"
  const NUL_ETC1 := "\0/\0\0\0\0\0\0\0\0\0\0\0\0\0\0\0\0"
  const NUL_LIB := "\0/\0\0\0"
  const NUL_USR := "\0/\0\0\0\0\0\0\0"

  /** `bytes.Replace(s, was, now, -1)` for a non-empty pattern. */
  function Replace(s: string, was: string, now: string): string
    requires was != ""
    decreases |s|
  {
    if |s| < |was| then s
    else if was <= s then now + Replace(s[|was|..], was, now)
    else [s[0]] + Replace(s[1..], was, now)
  }

  /** The offset of byte `i` inside the window of the left-to-right search that covers it. */
  function Offset(s: string, was: string, i: nat): (r: Option<nat>)
    requires was != ""
    ensures r.Some? ==> r.value < |was|
    decreases |s|
  {
    if |s| < |was| then None
    else if was <= s then (if i < |was| then Some(i) else Offset(s[|was|..], was, i - |was|))
    else if i == 0 then None
    else Offset(s[1..], was, i - 1)
  }

  /** A covering window is an occurrence of the pattern. */
  lemma {:induction false} OffsetInMatch(s: string, was: string, i: nat)
    requires was != "" && Offset(s, was, i).Some?
    ensures var o := Offset(s, was, i).value;
            o <= i <= |s| && was <= s[i - o..]
    decreases |s|
  {
    if was <= s {
      if i < |was| {
        assert s[0..] == s;
      } else {
        OffsetInMatch(s[|was|..], was, i - |was|);
        Shifted(s, |was|, i - |was| - Offset(s, was, i).value);
      }
    } else {
      OffsetInMatch(s[1..], was, i - 1);
      Shifted(s, 1, i - 1 - Offset(s, was, i).value);
    }
  }

  lemma Shifted(s: string, n: nat, from: nat)
    requires n + from <= |s|
    ensures s[n..][from..] == s[n + from..]
  {
  }

  /** With a replacement as long as the pattern the text keeps its length, a covered byte
      becomes the replacement's byte, and every other byte is as it was. */
  lemma {:induction false} ReplaceByte(s: string, was: string, now: string, i: nat)
    requires was != "" && |was| == |now| && i < |s|
    ensures |Replace(s, was, now)| == |s|
    ensures Replace(s, was, now)[i] == match Offset(s, was, i) case None => s[i] case Some(o) => now[o]
    decreases |s|
  {
    ReplaceSize(s, was, now);
    if |s| >= |was| {
      if was <= s {
        if i >= |was| {
          ReplaceByte(s[|was|..], was, now, i - |was|);
          ShiftedByte(now, Replace(s[|was|..], was, now), i);
        }
      } else if i > 0 {
        ReplaceByte(s[1..], was, now, i - 1);
        ShiftedByte([s[0]], Replace(s[1..], was, now), i);
      }
    }
  }

  lemma ShiftedByte(a: string, b: string, i: nat)
    requires |a| <= i < |a| + |b|
    ensures (a + b)[i] == b[i - |a|]
  {
  }

  lemma {:induction false} ReplaceSize(s: string, was: string, now: string)
    requires was != "" && |was| == |now|
    ensures |Replace(s, was, now)| == |s|
    decreases |s|
  {
    if |s| >= |was| { ReplaceSize(s[if was <= s then |was| else 1..], was, now); }
  }

  method Patchldso(image: string) returns (content: string)
    ensures content == Passes(image, 4)
  {
    content := image;
    assert content == Passes(image, 0);
    content := Replace(content, ETC, NUL_ETC);
    assert content == Passes(image, 1);
    content := Replace(content, ETC1, NUL_ETC1);
    assert content == Passes(image, 2);
    content := Replace(content, LIB, NUL_LIB);
    assert content == Passes(image, 3);
    content := Replace(content, USR, NUL_USR);
  }

  function Pattern(k: nat): string
    requires k < 4
    ensures |Pattern(k)| >= 5
  {
    [ETC, ETC1, LIB, USR][k]
  }

  function Blank(k: nat): string
    requires k < 4
  {
    [NUL_ETC, NUL_ETC1, NUL_LIB, NUL_USR][k]
  }

  /** The image after the first `k` passes. */
  function Passes(image: string, k: nat): string
    requires k <= 4
  {
    if k == 0 then image else Replace(Passes(image, k - 1), Pattern(k - 1), Blank(k - 1))
  }

  lemma BlankFits(k: nat)
    requires k < 4
    ensures |Blank(k)| == |Pattern(k)|
    ensures Blank(k)[..2] == Pattern(k)[..2]
    ensures forall i | 2 <= i < |Blank(k)| :: Blank(k)[i] == '\0'
  {
    if k == 0 { assert |NUL_ETC| == |ETC|; }
    else if k == 1 { assert |NUL_ETC1| == |ETC1|; }
    else if k == 2 { assert |NUL_LIB| == |LIB|; }
    else { assert |NUL_USR| == |USR|; }
  }

  /** Pass `k` matched a window over byte `i`, and the byte is past its "\0/". */
  predicate Blanked(image: string, k: nat, i: nat)
    requires k < 4
  {
    var o := Offset(Passes(image, k), Pattern(k), i);
    o.Some? && o.value >= 2
  }

  /** A replacement that keeps two bytes and blanks the rest. */
  lemma BlankByte(s: string, was: string, now: string, i: nat)
    requires |was| == |now| >= 2 && now[..2] == was[..2] && i < |s|
    requires forall j | 2 <= j < |now| :: now[j] == '\0'
    ensures |Replace(s, was, now)| == |s|
    ensures Replace(s, was, now)[i]
         == if Offset(s, was, i).Some? && Offset(s, was, i).value >= 2 then '\0' else s[i]
  {
    ReplaceByte(s, was, now, i);
    if Offset(s, was, i).Some? {
      var o := Offset(s, was, i).value;
      OffsetInMatch(s, was, i);
      assert s[i - o..][o] == was[o];
      if o < 2 { assert now[..2][o] == was[..2][o]; }
    }
  }

  /** Patching keeps the length, and a byte is changed exactly inside a match of one of the
      passes, after its "\0/"; it then becomes NUL. */
  lemma {:induction false} PatchIsLocal(image: string, k: nat, i: nat)
    requires k <= 4 && i < |image|
    ensures |Passes(image, k)| == |image|
    ensures Passes(image, k)[i] == if exists j :: 0 <= j < k && Blanked(image, j, i) then '\0' else image[i]
    decreases k
  {
    if k > 0 {
      PatchIsLocal(image, k - 1, i);
      BlankFits(k - 1);
      BlankByte(Passes(image, k - 1), Pattern(k - 1), Blank(k - 1), i);
      assert (exists j :: 0 <= j < k && Blanked(image, j, i))
        <==> (exists j :: 0 <= j < k - 1 && Blanked(image, j, i)) || Blanked(image, k - 1, i);
      assert Passes(image, k) == Replace(Passes(image, k - 1), Pattern(k - 1), Blank(k - 1));
    }
  }

  // ----- a pattern by itself -----

  /** No NUL stands before a slash. */
  ghost predicate NoLead(s: string) {
    forall i | 0 <= i < |s| - 1 && s[i] == '\0' :: s[i + 1] != '/'
  }

  predicate Leads(was: string) {
    |was| >= 2 && was[0] == '\0' && was[1] == '/'
  }

  lemma {:induction false} NoneReplaced(s: string, was: string, now: string)
    requires Leads(was) && NoLead(s)
    ensures Replace(s, was, now) == s
    decreases |s|
  {
    if |s| >= |was| {
      assert NoLead(s[1..]) by {
        forall i | 0 <= i < |s[1..]| - 1 && s[1..][i] == '\0' ensures s[1..][i + 1] != '/' { assert s[i + 1] == '\0'; }
      }
      NoneReplaced(s[1..], was, now);
    }
  }

  /** The search passes over text without a slash. */
  lemma {:induction false} PassedOver(a: string, x: string, was: string, now: string)
    requires Leads(was) && '/' !in a && x != "" && x[0] == '\0'
    ensures Replace(a + x, was, now) == a + Replace(x, was, now)
    decreases |a|
  {
    if a == "" {
      assert a + x == x;
    } else {
      var s := a + x;
      assert s[1..] == a[1..] + x;
      assert |s| > 1 && s[1] != '/';
      PassedOver(a[1..], x, was, now);
      if |s| >= |was| {
        assert Replace(s, was, now) == [s[0]] + Replace(s[1..], was, now);
      } else {
        assert Replace(x, was, now) == x;
      }
    }
  }

  /** One pass over one led word: the word is replaced if it is the pattern, and stays if the
      pattern does not stand there. */
  lemma OnePass(a: string, x: string, b: string, was: string, now: string)
    requires Leads(was) && Leads(x) && '/' !in a && '/' !in b && NoLead(x[1..]) && x[|x| - 1] != '/'
    ensures was == x ==> Replace(a + (x + b), was, now) == a + (now + b)
    ensures !(was <= x + b) ==> Replace(a + (x + b), was, now) == a + (x + b)
  {
    PassedOver(a, x + b, was, now);
    if was == x {
      assert (x + b)[|was|..] == b;
      NoneReplaced(b, was, now);
    }
    if !(was <= x + b) {
      var rest := (x + b)[1..];
      assert rest == x[1..] + b && NoLead(rest);
      NoneReplaced(rest, was, now);
      assert [x[0]] + rest == x + b;
    }
  }

  /** The pattern cannot stand where the word stands. */
  ghost predicate Unlike(was: string, x: string) {
    exists j :: 0 <= j < |was| && j < |x| && was[j] != x[j]
  }

  lemma StaysPut(a: string, x: string, b: string, was: string, now: string)
    requires Leads(was) && Leads(x) && '/' !in a && '/' !in b && NoLead(x[1..]) && x[|x| - 1] != '/'
    requires Unlike(was, x)
    ensures Replace(a + (x + b), was, now) == a + (x + b)
  {
    var j :| 0 <= j < |was| && j < |x| && was[j] != x[j];
    assert (x + b)[j] == x[j];
    OnePass(a, x, b, was, now);
  }

  function Nuls(n: nat): (s: string)
    ensures |s| == n && forall i | 0 <= i < n :: s[i] == '\0'
  {
    seq(n, i requires 0 <= i < n => '\0')
  }

  lemma PatternIs(k: nat)
    requires k < 4
    ensures Pattern(k) == ["\0/etc/ld.so.preload\0", "\0/etc/ld.so.cache\0", "\0/lib", "\0/usr/lib"][k]
    ensures Leads(Pattern(k)) && NoLead(Pattern(k)[1..]) && Pattern(k)[|Pattern(k)| - 1] != '/' && Pattern(k)[2] != '\0'
  {
  }

  lemma BlankIs(k: nat)
    requires k < 4
    ensures Blank(k) == "\0/" + Nuls(|Pattern(k)| - 2)
    ensures Leads(Blank(k)) && NoLead(Blank(k)[1..]) && Blank(k)[|Blank(k)| - 1] != '/'
  {
    BlankFits(k);
    PatternIs(k);
    assert Blank(k)[0] == Pattern(k)[..2][0] && Blank(k)[1] == Pattern(k)[..2][1];
  }

  lemma PatternsDiffer(m: nat, k: nat)
    requires m < 4 && k < 4 && m != k
    ensures Unlike(Pattern(m), Pattern(k))
  {
    PatternIs(m);
    PatternIs(k);
    assert m < 2 && k < 2 ==> Pattern(m)[12] != Pattern(k)[12];
    assert m >= 2 || k >= 2 ==> Pattern(m)[2] != Pattern(k)[2];
  }

  /** The word before its own pass, and blanked after it. */
  lemma {:induction false} AfterPasses(a: string, b: string, k: nat, m: nat)
    requires '/' !in a && '/' !in b && k < 4 && m <= 4
    ensures Passes(a + (Pattern(k) + b), m) == a + ((if m <= k then Pattern(k) else Blank(k)) + b)
  {
    if m > 0 {
      AfterPasses(a, b, k, m - 1);
      PatternIs(k);
      BlankIs(k);
      PatternIs(m - 1);
      if m - 1 < k {
        PatternsDiffer(m - 1, k);
        StaysPut(a, Pattern(k), b, Pattern(m - 1), Blank(m - 1));
      } else if m - 1 == k {
        OnePass(a, Pattern(k), b, Pattern(k), Blank(k));
      } else {
        assert Blank(k)[2] == '\0';
        StaysPut(a, Blank(k), b, Pattern(m - 1), Blank(m - 1));
      }
    }
  }

  /** Each of the four paths, by itself between text without a slash, is overwritten with NULs
      behind its first slash. */
  lemma LoneIsBlanked(a: string, word: string, b: string)
    requires '/' !in a && '/' !in b
    requires word in {"\0/etc/ld.so.preload\0", "\0/etc/ld.so.cache\0", "\0/lib", "\0/usr/lib"}
    ensures Passes(a + (word + b), 4) == a + ("\0/" + Nuls(|word| - 2) + b)
  {
    var k := if word == "\0/lib" then 2 else if word == "\0/usr/lib" then 3 else if word == "\0/etc/ld.so.cache\0" then 1 else 0;
    PatternIs(k);
    BlankIs(k);
    AfterPasses(a, b, k, 4);
  }
}
