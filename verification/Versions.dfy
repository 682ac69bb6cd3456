/** `CompareVersion` and the loop of `GenGithubURLfromYaml` that picks the closest
    supported version. */
module Versions {
  import opened Strings
  import opened Decimal

  /** The code's pair of an order and an error; with an error the order is 0. */
  datatype Compared = Order(sign: int) | Bad

  function Pieces(xs: seq<string>, ys: seq<string>): Compared
    decreases |xs|
  {
    if xs == [] || ys == [] then
      Order(if |xs| < |ys| then -1 else if |xs| > |ys| then 1 else 0)
    else
      match (Atoi(xs[0]), Atoi(ys[0]))
      case (Some(a), Some(b)) =>
        if a < b then Order(-1) else if a > b then Order(1) else Pieces(xs[1..], ys[1..])
      case _ => Bad
  }

  function Compare(str1: string, str2: string, delimeter: char): Compared {
    var s1, s2 := ToLower(str1), ToLower(str2);
    if s1 == s2 then Order(0) else Pieces(Split(s1, delimeter), Split(s2, delimeter))
  }

  method CompareVersion(str1: string, str2: string, delimeter: char) returns (ret: int, ok: bool)
    ensures Compare(str1, str2, delimeter) == if ok then Order(ret) else Bad
    ensures !ok ==> ret == 0
  {
    var s1, s2 := ToLower(str1), ToLower(str2);
    if s1 == s2 { return 0, true; }
    var arr1, arr2 := Split(s1, delimeter), Split(s2, delimeter);
    var min := |arr1|;
    if |arr1| > |arr2| { min := |arr2|; }
    for i := 0 to min
      invariant Pieces(arr1[i..], arr2[i..]) == Pieces(arr1, arr2)
    {
      var i1, i2 := Atoi(arr1[i]), Atoi(arr2[i]);
      assert arr1[i..][1..] == arr1[i + 1..] && arr2[i..][1..] == arr2[i + 1..];
      if i1 == None { return 0, false; }
      if i2 == None { return 0, false; }
      if i1.value < i2.value { return -1, true; }
      if i1.value > i2.value { return 1, true; }
    }
    if |arr1| < |arr2| { return -1, true; }
    if |arr1| > |arr2| { return 1, true; }
    return 0, true;
  }

  // ----- numeric versions are totally ordered -----

  predicate Numeric(s: string, delimeter: char) {
    forall i | 0 <= i < |Split(ToLower(s), delimeter)| :: Atoi(Split(ToLower(s), delimeter)[i]).Some?
  }

  function Numbers(s: string, delimeter: char): (ns: seq<int>)
    requires Numeric(s, delimeter)
    ensures |ns| == |Split(ToLower(s), delimeter)|
  {
    var parts := Split(ToLower(s), delimeter);
    seq(|parts|, i requires 0 <= i < |parts| => Atoi(parts[i]).value)
  }

  /** `a` and `b` agree up to `k`, where `a` ends first or has the smaller number. */
  predicate LessAt(a: seq<int>, b: seq<int>, k: nat) {
    k <= |a| && k < |b| && a[..k] == b[..k] && (k < |a| ==> a[k] < b[k])
  }

  /** The order meant: the first difference decides, and a proper prefix comes first. */
  ghost predicate Before(a: seq<int>, b: seq<int>) {
    exists k: nat :: LessAt(a, b, k)
  }

  lemma {:induction false} PiecesMean(xs: seq<string>, ys: seq<string>, a: seq<int>, b: seq<int>)
    requires |xs| == |a| && forall i | 0 <= i < |xs| :: Atoi(xs[i]) == Some(a[i])
    requires |ys| == |b| && forall i | 0 <= i < |ys| :: Atoi(ys[i]) == Some(b[i])
    ensures Pieces(xs, ys).Order?
    ensures Pieces(xs, ys) == Order(-1) <==> Before(a, b)
    ensures Pieces(xs, ys) == Order(1) <==> Before(b, a)
    ensures Pieces(xs, ys) == Order(0) <==> a == b
    decreases |xs|
  {
    if a == [] || b == [] {
      BeforeEmpty(a, b);
      BeforeEmpty(b, a);
    } else {
      BeforeHead(a, b);
      BeforeHead(b, a);
      assert Atoi(xs[0]) == Some(a[0]) && Atoi(ys[0]) == Some(b[0]);
      if a[0] == b[0] {
        PiecesMean(xs[1..], ys[1..], a[1..], b[1..]);
        assert Pieces(xs, ys) == Pieces(xs[1..], ys[1..]);
        SameHead(a, b);
      }
    }
  }

  lemma SameHead(a: seq<int>, b: seq<int>)
    requires a != [] && b != [] && a[0] == b[0]
    ensures a == b <==> a[1..] == b[1..]
  {
    assert a == [a[0]] + a[1..] && b == [b[0]] + b[1..];
  }

  lemma BeforeEmpty(a: seq<int>, b: seq<int>)
    requires a == [] || b == []
    ensures Before(a, b) <==> a == [] && b != []
  {
    assert a == [] && b != [] ==> LessAt(a, b, 0);
  }

  lemma LessAtTail(a: seq<int>, b: seq<int>, k: nat)
    requires a != [] && b != [] && k > 0
    ensures LessAt(a, b, k) <==> a[0] == b[0] && LessAt(a[1..], b[1..], k - 1)
  {
    if k <= |a| && k <= |b| {
      assert a[..k] == [a[0]] + a[1..][..k - 1] && b[..k] == [b[0]] + b[1..][..k - 1];
      assert a[..k][1..] == a[1..][..k - 1] && b[..k][1..] == b[1..][..k - 1];
    }
  }

  lemma BeforeHead(a: seq<int>, b: seq<int>)
    requires a != [] && b != []
    ensures Before(a, b) <==> a[0] < b[0] || (a[0] == b[0] && Before(a[1..], b[1..]))
  {
    if Before(a, b) {
      var k: nat :| LessAt(a, b, k);
      if k > 0 { LessAtTail(a, b, k); }
    }
    if a[0] < b[0] {
      assert LessAt(a, b, 0);
    }
    if a[0] == b[0] && Before(a[1..], b[1..]) {
      var k: nat :| LessAt(a[1..], b[1..], k);
      LessAtTail(a, b, k + 1);
    }
  }

  /** On numeric versions the comparison never fails and is the order of the sequences of
      numbers, whatever the spelling ("1.05" and "1.5" are equal). */
  lemma CompareMeans(s: string, t: string, delimeter: char)
    requires Numeric(s, delimeter) && Numeric(t, delimeter)
    ensures var a, b := Numbers(s, delimeter), Numbers(t, delimeter);
            && Compare(s, t, delimeter).Order?
            && (Compare(s, t, delimeter) == Order(-1) <==> Before(a, b))
            && (Compare(s, t, delimeter) == Order(1) <==> Before(b, a))
            && (Compare(s, t, delimeter) == Order(0) <==> a == b)
  {
    var a, b := Numbers(s, delimeter), Numbers(t, delimeter);
    PiecesMean(Split(ToLower(s), delimeter), Split(ToLower(t), delimeter), a, b);
    if ToLower(s) == ToLower(t) {
      assert a == b;
    }
  }

  lemma {:induction false} BeforeTransitive(a: seq<int>, b: seq<int>, c: seq<int>)
    requires Before(a, b) && Before(b, c)
    ensures Before(a, c)
    decreases |a|
  {
    if b == [] || c == [] {
      assert false;
    } else if a == [] {
      assert LessAt(a, c, 0);
    } else {
      BeforeHead(a, b);
      BeforeHead(b, c);
      BeforeHead(a, c);
      if a[0] == b[0] && b[0] == c[0] { BeforeTransitive(a[1..], b[1..], c[1..]); }
    }
  }

  /** `CompareVersion` is antisymmetric and transitive on numeric versions, and 0 exactly
      on equal sequences of numbers. */
  lemma CompareIsOrder(s: string, t: string, u: string, delimeter: char)
    requires Numeric(s, delimeter) && Numeric(t, delimeter) && Numeric(u, delimeter)
    ensures Compare(s, t, delimeter).Order? && Compare(t, s, delimeter) == Order(-Compare(s, t, delimeter).sign)
    ensures Compare(s, t, delimeter) == Order(0) <==> Numbers(s, delimeter) == Numbers(t, delimeter)
    ensures Compare(s, t, delimeter).sign <= 0 && Compare(t, u, delimeter).Order? && Compare(t, u, delimeter).sign <= 0
            ==> Compare(s, u, delimeter).Order? && Compare(s, u, delimeter).sign <= 0
  {
    CompareSigns(s, t, delimeter);
    CompareSigns(t, u, delimeter);
    CompareSigns(s, u, delimeter);
    CompareMeans(s, t, delimeter);
    CompareMeans(t, s, delimeter);
    CompareMeans(t, u, delimeter);
    CompareMeans(s, u, delimeter);
    CompareSigns(t, s, delimeter);
    var a, b, c := Numbers(s, delimeter), Numbers(t, delimeter), Numbers(u, delimeter);
    if Before(a, b) && Before(b, c) { BeforeTransitive(a, b, c); }
  }

  lemma {:induction false} PieceSigns(xs: seq<string>, ys: seq<string>)
    ensures Pieces(xs, ys).Order? ==> Pieces(xs, ys).sign in {-1, 0, 1}
    decreases |xs|
  {
    if xs != [] && ys != [] { PieceSigns(xs[1..], ys[1..]); }
  }

  lemma CompareSigns(s: string, t: string, delimeter: char)
    ensures Compare(s, t, delimeter).Order? ==> Compare(s, t, delimeter).sign in {-1, 0, 1}
  {
    PieceSigns(Split(ToLower(s), delimeter), Split(ToLower(t), delimeter));
  }

  // ----- versions as they are written -----

  function Written(ns: seq<nat>): (r: seq<string>)
    ensures |r| == |ns| && forall i | 0 <= i < |r| :: r[i] == Digits(ns[i])
  {
    seq(|ns|, i requires 0 <= i < |ns| => Digits(ns[i]))
  }

  /** "16.04" for 16 and 4, less the zeros in front. */
  function Version(ns: seq<nat>): string {
    Join(Written(ns), '.')
  }

  /** Its numbers fit 64 bits. */
  predicate Fits(ns: seq<nat>) {
    ns != [] && forall i | 0 <= i < |ns| :: ns[i] < 9223372036854775808
  }

  lemma {:induction false} JoinedDigits(parts: seq<string>)
    requires forall i | 0 <= i < |parts| :: AllDigits(parts[i])
    ensures forall i | 0 <= i < |Join(parts, '.')| :: IsDigit(Join(parts, '.')[i]) || Join(parts, '.')[i] == '.'
  {
    if |parts| > 1 { JoinedDigits(parts[1..]); }
  }

  /** A written version is read back as its numbers. */
  lemma VersionReads(ns: seq<nat>)
    requires Fits(ns)
    ensures ToLower(Version(ns)) == Version(ns) && Split(Version(ns), '.') == Written(ns)
    ensures Numeric(Version(ns), '.') && |Numbers(Version(ns), '.')| == |ns|
    ensures forall i | 0 <= i < |ns| :: Numbers(Version(ns), '.')[i] == ns[i]
  {
    var parts := Written(ns);
    JoinedDigits(parts);
    assert ToLower(Version(ns)) == Version(ns);
    forall i | 0 <= i < |parts| ensures '.' !in parts[i] && Atoi(parts[i]) == Some(ns[i]) {
      AtoiPrinted(ns[i]);
      assert AllDigits(parts[i]);
    }
    SplitJoin(parts, '.');
  }

  /** `a` comes before `b`: the first difference decides, and a proper prefix comes first. */
  ghost predicate Below(a: seq<nat>, b: seq<nat>) {
    exists k: nat :: k <= |a| && k < |b| && a[..k] == b[..k] && (k < |a| ==> a[k] < b[k])
  }

  lemma BelowIs(a: seq<nat>, b: seq<nat>, x: seq<int>, y: seq<int>)
    requires |x| == |a| && |y| == |b|
    requires (forall i | 0 <= i < |a| :: x[i] == a[i]) && forall i | 0 <= i < |b| :: y[i] == b[i]
    ensures Below(a, b) <==> Before(x, y)
    ensures a == b <==> x == y
  {
    if Below(a, b) {
      var k: nat :| k <= |a| && k < |b| && a[..k] == b[..k] && (k < |a| ==> a[k] < b[k]);
      forall i | 0 <= i < k ensures x[i] == y[i] { assert a[i] == a[..k][i] == b[..k][i]; }
      assert LessAt(x, y, k);
    }
    if Before(x, y) {
      var k: nat :| LessAt(x, y, k);
      forall i | 0 <= i < k ensures a[i] == b[i] { assert x[i] == x[..k][i] == y[..k][i]; }
      assert a[..k] == b[..k];
    }
  }

  /** Two written versions compare as their numbers do. */
  lemma WrittenCompare(a: seq<nat>, b: seq<nat>)
    requires Fits(a) && Fits(b)
    ensures Compare(Version(a), Version(b), '.') in {Order(-1), Order(0), Order(1)}
    ensures Compare(Version(a), Version(b), '.') == Order(-1) <==> Below(a, b)
    ensures Compare(Version(a), Version(b), '.') == Order(1) <==> Below(b, a)
    ensures Compare(Version(a), Version(b), '.') == Order(0) <==> a == b
  {
    VersionReads(a);
    VersionReads(b);
    var x, y := Numbers(Version(a), '.'), Numbers(Version(b), '.');
    BelowIs(a, b, x, y);
    BelowIs(b, a, y, x);
    CompareMeans(Version(a), Version(b), '.');
    CompareSigns(Version(a), Version(b), '.');
  }

  // ----- the closest supported version -----

  /** A version the loop takes. An error counts as 0, hence as a match. */
  predicate Taken(version: string, tag: string) {
    Compare(version, tag, '.') in {Order(0), Order(-1), Bad}
  }

  function Picked(versions: seq<string>, tag: string): string {
    if versions == [] then tag
    else if Taken(versions[0], tag) then versions[0]
    else Picked(versions[1..], tag)
  }

  method PickVersion(versions: seq<string>, tag0: string) returns (tag: string)
    ensures tag == Picked(versions, tag0)
  {
    tag := tag0;
    for i := 0 to |versions|
      invariant tag == tag0 && Picked(versions[i..], tag0) == Picked(versions, tag0)
    {
      var ret, ok := CompareVersion(versions[i], tag, '.');
      assert versions[i..][1..] == versions[i + 1..];
      if ret == 0 || ret == -1 {
        tag := versions[i];
        break;
      }
      CompareSigns(versions[i], tag, '.');
    }
  }

  /** Supported versions as the configuration lists them: numeric, greatest first. */
  ghost predicate Descending(versions: seq<string>) {
    && (forall i | 0 <= i < |versions| :: Numeric(versions[i], '.'))
    && forall i, j | 0 <= i < j < |versions| :: Compare(versions[j], versions[i], '.') == Order(-1)
  }

  ghost predicate NotAbove(s: string, t: string) {
    Compare(s, t, '.') in {Order(0), Order(-1)}
  }

  /** The greatest supported version not above the tag, or the tag itself when all are. */
  ghost predicate Closest(versions: seq<string>, tag: string, picked: string) {
    && ((forall i | 0 <= i < |versions| :: !NotAbove(versions[i], tag)) ==> picked == tag)
    && ((exists i :: 0 <= i < |versions| && NotAbove(versions[i], tag)) ==>
          && picked in versions && NotAbove(picked, tag)
          && forall i | 0 <= i < |versions| && NotAbove(versions[i], tag) :: NotAbove(versions[i], picked))
  }

  /** Every version that cannot be compared with the tag comes after one not above it. */
  ghost predicate Comparable(versions: seq<string>, tag: string) {
    forall i | 0 <= i < |versions| && Compare(versions[i], tag, '.') == Bad ::
      exists j :: 0 <= j < i && NotAbove(versions[j], tag)
  }

  /** The loop takes the first version that is not above the tag or not comparable. */
  lemma {:induction false} PickedFirst(versions: seq<string>, tag: string, k: nat)
    requires k <= |versions| && forall i | 0 <= i < k :: !Taken(versions[i], tag)
    requires k < |versions| ==> Taken(versions[k], tag)
    ensures Picked(versions, tag) == if k < |versions| then versions[k] else tag
    decreases k
  {
    if k > 0 { PickedFirst(versions[1..], tag, k - 1); }
  }

  lemma {:induction false} FirstTrue(flags: seq<bool>) returns (k: nat)
    ensures k <= |flags| && (forall i | 0 <= i < k :: !flags[i]) && (k < |flags| ==> flags[k])
  {
    k := 0;
    if flags != [] && !flags[0] {
      var rest := FirstTrue(flags[1..]);
      assert forall i | 0 < i < |flags| :: flags[i] == flags[1..][i - 1];
      k := rest + 1;
    }
  }

  lemma FirstTaken(versions: seq<string>, tag: string) returns (k: nat)
    ensures k <= |versions| && forall i | 0 <= i < k :: !Taken(versions[i], tag)
    ensures k < |versions| ==> Taken(versions[k], tag)
  {
    var flags := seq(|versions|, i requires 0 <= i < |versions| => Taken(versions[i], tag));
    k := FirstTrue(flags);
    forall i | 0 <= i < k ensures !Taken(versions[i], tag) { assert !flags[i]; }
  }

  lemma SameIsZero(v: string)
    ensures Compare(v, v, '.') == Order(0)
  {
  }

  /** The first version taken fails to compare: it is not the closest. */
  lemma BadFirst(versions: seq<string>, tag: string, k: nat)
    requires k < |versions| && Compare(versions[k], tag, '.') == Bad
    requires forall i | 0 <= i < k :: !Taken(versions[i], tag)
    ensures !Comparable(versions, tag) && !Closest(versions, tag, versions[k])
  {
    SameIsZero(tag);
    forall j | 0 <= j < k ensures !NotAbove(versions[j], tag) { assert !Taken(versions[j], tag); }
    assert !NotAbove(versions[k], tag);
  }

  lemma LaterIsNotAbove(versions: seq<string>, k: nat, i: nat)
    requires Descending(versions) && k <= i < |versions|
    ensures NotAbove(versions[i], versions[k])
  {
    if i == k { SameIsZero(versions[k]); }
  }

  lemma NotTaken(v: string, tag: string)
    requires !Taken(v, tag)
    ensures !NotAbove(v, tag) && Compare(v, tag, '.') != Bad
  {
  }

  lemma GoodIsComparable(versions: seq<string>, tag: string, k: nat)
    requires k <= |versions| && forall i | 0 <= i < k :: !Taken(versions[i], tag)
    requires k < |versions| ==> NotAbove(versions[k], tag)
    ensures Comparable(versions, tag)
  {
    forall i | 0 <= i < |versions| && Compare(versions[i], tag, '.') == Bad
      ensures exists j :: 0 <= j < i && NotAbove(versions[j], tag)
    {
      assert i >= k && i != k;
    }
  }

  /** No version is taken, or the first one compares: it is the closest. */
  lemma GoodFirst(versions: seq<string>, tag: string, k: nat)
    requires Descending(versions) && k <= |versions| && forall i | 0 <= i < k :: !Taken(versions[i], tag)
    requires k < |versions| ==> NotAbove(versions[k], tag)
    ensures Closest(versions, tag, if k < |versions| then versions[k] else tag)
  {
    forall i | 0 <= i < |versions| && NotAbove(versions[i], tag) ensures k <= i && NotAbove(versions[i], versions[k]) {
      if i < k { NotTaken(versions[i], tag); }
      LaterIsNotAbove(versions, k, i);
    }
  }

  /** On a descending list and for any tag, the loop picks the closest version (or keeps the
      tag) exactly when no version before the first one not above the tag fails to compare. */
  lemma ClosestIff(versions: seq<string>, tag: string)
    requires Descending(versions)
    ensures Closest(versions, tag, Picked(versions, tag)) <==> Comparable(versions, tag)
  {
    var k := FirstTaken(versions, tag);
    PickedFirst(versions, tag, k);
    if k < |versions| && Compare(versions[k], tag, '.') == Bad {
      BadFirst(versions, tag, k);
    } else {
      GoodFirst(versions, tag, k);
      GoodIsComparable(versions, tag, k);
    }
  }

  /** For a numeric tag it always is the closest. */
  lemma PickedIsClosest(versions: seq<string>, tag: string)
    requires Descending(versions) && Numeric(tag, '.')
    ensures Closest(versions, tag, Picked(versions, tag))
  {
    forall i | 0 <= i < |versions| ensures Compare(versions[i], tag, '.') != Bad {
      CompareMeans(versions[i], tag, '.');
    }
    ClosestIff(versions, tag);
  }

  function WrittenAll(vs: seq<seq<nat>>): (r: seq<string>)
    ensures |r| == |vs| && forall i | 0 <= i < |r| :: r[i] == Version(vs[i])
  {
    seq(|vs|, i requires 0 <= i < |vs| => Version(vs[i]))
  }

  /** On a written list, greatest first, and a written tag, the greatest version not above the
      tag is picked, or the tag when all are above it. */
  lemma WrittenPick(vs: seq<seq<nat>>, tag: seq<nat>, k: nat)
    requires Fits(tag) && forall i | 0 <= i < |vs| :: Fits(vs[i])
    requires forall i, j | 0 <= i < j < |vs| :: Below(vs[j], vs[i])
    requires k <= |vs| && (forall i | 0 <= i < k :: Below(tag, vs[i])) && (k < |vs| ==> !Below(tag, vs[k]))
    ensures Picked(WrittenAll(vs), Version(tag)) == if k < |vs| then Version(vs[k]) else Version(tag)
    ensures forall i | 0 <= i < |vs| && !Below(tag, vs[i]) :: k <= i && (i == k || Below(vs[i], vs[k]))
  {
    var versions := WrittenAll(vs);
    forall i | 0 <= i < |vs| ensures Taken(versions[i], Version(tag)) <==> !Below(tag, vs[i]) {
      WrittenCompare(vs[i], tag);
    }
    PickedFirst(versions, Version(tag), k);
  }

  lemma NamedTagTaken(version: string, tag: string)
    requires Atoi(Split(ToLower(tag), '.')[0]) == None
    ensures Taken(version, tag)
    ensures Compare(version, tag, '.') == if ToLower(version) == ToLower(tag) then Order(0) else Bad
  {
  }

  /** A tag that starts with no number ("latest") makes the loop pick the first version on
      the list, whatever it is, and on a descending list this is not the closest one: the
      comparison fails, and the failure reads as equality. */
  lemma NamedTagTakesFirst(versions: seq<string>, tag: string)
    requires versions != [] && Atoi(Split(ToLower(tag), '.')[0]) == None
    ensures Picked(versions, tag) == versions[0]
    ensures Descending(versions) ==> !Closest(versions, tag, Picked(versions, tag))
  {
    NamedTagTaken(versions[0], tag);
    PickedFirst(versions, tag, 0);
    if Descending(versions) {
      assert Numeric(versions[0], '.') && ToLower(versions[0]) != ToLower(tag);
      ClosestIff(versions, tag);
      assert Compare(versions[0], tag, '.') == Bad;
    }
  }
}
