/** Text operations of Go's `strings` package that the modelled code relies on,
    with the laws that make delimited text a faithful encoding of a list. */
module Strings {

  datatype Option<+T> = None | Some(value: T)

  /** `strings.Split(s, sep)` for a one-character separator: never empty, and
      `Split("")` is one blank piece. */
  function Split(s: string, sep: char): (parts: seq<string>)
    ensures |parts| >= 1
  {
    if s == "" then [""]
    else
      var rest := Split(s[1..], sep);
      if s[0] == sep then [""] + rest else [[s[0]] + rest[0]] + rest[1..]
  }

  /** `strings.Join(parts, sep)`. */
  function Join(parts: seq<string>, sep: char): string {
    if |parts| == 0 then ""
    else if |parts| == 1 then parts[0]
    else parts[0] + [sep] + Join(parts[1..], sep)
  }

  /** No piece contains the separator. */
  ghost predicate Free(parts: seq<string>, sep: char) {
    forall i | 0 <= i < |parts| :: sep !in parts[i]
  }

  lemma {:induction false} SplitCons(a: string, b: string, sep: char)
    requires sep !in a
    ensures Split(a + [sep] + b, sep) == [a] + Split(b, sep)
  {
    var s := a + [sep] + b;
    if a == "" {
      assert s[1..] == b;
    } else {
      assert s[1..] == a[1..] + [sep] + b;
      SplitCons(a[1..], b, sep);
      assert a == [a[0]] + a[1..];
    }
  }

  lemma {:induction false} SplitFree(s: string, sep: char)
    requires sep !in s
    ensures Split(s, sep) == [s]
  {
    if s != "" {
      SplitFree(s[1..], sep);
      assert s == [s[0]] + s[1..];
    }
  }

  lemma {:induction false} SplitSnoc(a: string, b: string, sep: char)
    requires sep !in b
    ensures Split(a + [sep] + b, sep) == Split(a, sep) + [b]
  {
    var s := a + [sep] + b;
    if a == "" {
      assert s[1..] == b;
      SplitFree(b, sep);
    } else {
      assert s[1..] == a[1..] + [sep] + b;
      SplitSnoc(a[1..], b, sep);
    }
  }

  /** Splitting gives back exactly the pieces that were joined. */
  lemma {:induction false} SplitJoin(parts: seq<string>, sep: char)
    requires |parts| >= 1 && Free(parts, sep)
    ensures Split(Join(parts, sep), sep) == parts
  {
    if |parts| == 1 {
      SplitFree(parts[0], sep);
    } else {
      assert Free(parts[1..], sep);
      SplitJoin(parts[1..], sep);
      SplitCons(parts[0], Join(parts[1..], sep), sep);
    }
  }

  lemma {:induction false} SplitPieces(s: string, sep: char)
    ensures Free(Split(s, sep), sep)
  {
    if s != "" {
      SplitPieces(s[1..], sep);
    }
  }

  /** A piece of a text holds only characters of the text. */
  lemma {:induction false} SplitWithin(s: string, sep: char, c: char)
    requires c !in s
    ensures Free(Split(s, sep), c)
  {
    if s != "" {
      SplitWithin(s[1..], sep, c);
    }
  }

  /** Reversal of a list, by recursion on its head. */
  function Reverse<T>(s: seq<T>): (r: seq<T>)
    ensures |r| == |s|
    ensures forall k | 0 <= k < |s| :: r[k] == s[|s| - 1 - k]
  {
    if s == [] then [] else Reverse(s[1..]) + [s[0]]
  }

  lemma ReverseSnoc<T>(s: seq<T>, x: T)
    ensures Reverse(s + [x]) == [x] + Reverse(s)
  {
  }

  lemma Assoc<T>(a: seq<T>, b: seq<T>, c: seq<T>)
    ensures (a + b) + c == a + (b + c)
  {
  }

  /** What is written over an old file from its start, without truncation. */
  function Overwrite<T>(was: seq<T>, body: seq<T>): (r: seq<T>)
    ensures |r| == if |was| < |body| then |body| else |was|
    ensures forall k | 0 <= k < |r| :: r[k] == if k < |body| then body[k] else was[k]
  {
    body + (if |body| < |was| then was[|body|..] else [])
  }

  /** `path.Base`: the last element, trailing slashes stripped, "." for the
      empty path and "/" for a path of slashes. */
  function Base(p: string): string {
    if p == "" then "."
    else if p[|p| - 1] == '/' then (if Slashes(p) then "/" else Base(p[..|p| - 1]))
    else AfterSlash(p)
  }

  predicate Slashes(p: string) {
    forall i | 0 <= i < |p| :: p[i] == '/'
  }

  function AfterSlash(p: string): string {
    if p == "" || p[|p| - 1] == '/' then "" else AfterSlash(p[..|p| - 1]) + [p[|p| - 1]]
  }

  lemma {:induction false} AfterSlashWithin(p: string, c: char)
    requires c !in p
    ensures c !in AfterSlash(p)
  {
    if p != "" && p[|p| - 1] != '/' {
      AfterSlashWithin(p[..|p| - 1], c);
    }
  }

  /** A base name holds only characters of its path, "." and "/". */
  lemma {:induction false} BaseWithin(p: string, c: char)
    requires c !in p && c != '.' && c != '/'
    ensures c !in Base(p)
  {
    if p != "" {
      if p[|p| - 1] == '/' {
        if !Slashes(p) { BaseWithin(p[..|p| - 1], c); }
      } else {
        AfterSlashWithin(p, c);
      }
    }
  }

  /** `strings.HasPrefix` then the rest of the text, or the text itself: `strings.TrimPrefix`. */
  function TrimPrefix(s: string, prefix: string): string {
    if prefix <= s then s[|prefix|..] else s
  }

  /** `strings.ToLower` on the ASCII text it is given here. */
  function ToLower(s: string): (r: string)
    ensures |r| == |s|
    ensures forall i | 0 <= i < |s| :: r[i] == if 'A' <= s[i] <= 'Z' then 'a' + (s[i] - 'A') else s[i]
  {
    seq(|s|, i requires 0 <= i < |s| => if 'A' <= s[i] <= 'Z' then s[i] + 32 as char else s[i])
  }

  predicate White(c: char) {
    c in {' ', '\t', '\n', '\r', '\U{000B}', '\U{000C}', '\U{0085}', '\U{00A0}'}
  }

  function TrimLeft(s: string): string {
    if s != "" && White(s[0]) then TrimLeft(s[1..]) else s
  }

  function TrimRight(s: string): string {
    if s != "" && White(s[|s| - 1]) then TrimRight(s[..|s| - 1]) else s
  }

  function TrimSpace(s: string): string {
    TrimRight(TrimLeft(s))
  }

  predicate AllWhite(s: string) {
    forall i | 0 <= i < |s| :: s[i] in {' ', '\t', '\n', '\r', '\U{000B}', '\U{000C}', '\U{0085}', '\U{00A0}'}
  }

  lemma {:induction false} TrimLeftOf(a: string, s: string)
    requires AllWhite(a) && (s == "" || !White(s[0]))
    ensures TrimLeft(a + s) == s
  {
    if a == "" {
      assert a + s == s;
    } else {
      assert (a + s)[1..] == a[1..] + s;
      TrimLeftOf(a[1..], s);
    }
  }

  lemma {:induction false} TrimRightOf(s: string, b: string)
    requires AllWhite(b) && (s == "" || !White(s[|s| - 1]))
    ensures TrimRight(s + b) == s
    decreases |b|
  {
    if b == "" {
      assert s + b == s;
    } else {
      var k := |b| - 1;
      assert (s + b)[..|s + b| - 1] == s + b[..k];
      TrimRightOf(s, b[..k]);
    }
  }

  lemma {:induction false} TrimLeftPart(s: string) returns (a: string)
    ensures AllWhite(a) && s == a + TrimLeft(s)
  {
    a := "";
    if s != "" && White(s[0]) {
      a := TrimLeftPart(s[1..]);
      a := [s[0]] + a;
      assert s == [s[0]] + s[1..];
    }
  }

  lemma {:induction false} TrimRightPart(s: string) returns (b: string)
    ensures AllWhite(b) && s == TrimRight(s) + b
  {
    b := "";
    if s != "" && White(s[|s| - 1]) {
      b := TrimRightPart(s[..|s| - 1]);
      b := b + [s[|s| - 1]];
      assert s == s[..|s| - 1] + [s[|s| - 1]];
    }
  }

  /** `s` is `word` with white space around it. */
  ghost predicate Around(s: string, word: string) {
    exists a, b :: AllWhite(a) && AllWhite(b) && s == a + word + b
  }

  /** Trimming gives a word exactly when it stands between white space. */
  lemma TrimIff(s: string, word: string)
    requires word != "" && !White(word[0]) && !White(word[|word| - 1])
    ensures TrimSpace(s) == word <==> Around(s, word)
  {
    if Around(s, word) {
      var a, b :| AllWhite(a) && AllWhite(b) && s == a + word + b;
      assert s == a + (word + b);
      TrimLeftOf(a, word + b);
      TrimRightOf(word, b);
    }
    if TrimSpace(s) == word {
      var a := TrimLeftPart(s);
      var b := TrimRightPart(TrimLeft(s));
      assert s == a + (word + b) == a + word + b;
    }
  }
}
