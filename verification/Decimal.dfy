/** Decimal text: `strconv.Itoa`, `strconv.Atoi` and `strconv.ParseInt` in base 10. */
module Decimal {
  import opened Strings

  predicate IsDigit(c: char) {
    '0' <= c <= '9'
  }

  function Digit(n: nat): char
    requires n < 10
  {
    '0' + n as char
  }

  predicate AllDigits(s: string) {
    forall i | 0 <= i < |s| :: IsDigit(s[i])
  }

  function Digits(n: nat): (s: string)
    ensures |s| > 0 && AllDigits(s)
  {
    if n < 10 then [Digit(n)] else Digits(n / 10) + [Digit(n % 10)]
  }

  function Itoa(n: int): string {
    if n < 0 then "-" + Digits(-n) else Digits(n)
  }

  function Val(s: string): nat
    requires AllDigits(s)
  {
    if s == "" then 0 else Val(s[..|s| - 1]) * 10 + (s[|s| - 1] - '0') as nat
  }

  function Pow10(d: nat): (p: nat)
    ensures p >= 1
  {
    if d == 0 then 1 else 10 * Pow10(d - 1)
  }

  /** Base 10 with an optional sign, an error when empty, not a number or not below
      `limit` in magnitude (the negative end reaches `limit` itself). */
  function ParseInt(s: string, limit: nat): Option<int> {
    var signed := s != "" && s[0] in {'+', '-'};
    var digits := if signed then s[1..] else s;
    if digits == "" || !AllDigits(digits) then None
    else
      var n: int := Val(digits);
      if signed && s[0] == '-' then (if n <= limit then Some(-n) else None)
      else if n < limit then Some(n) else None
  }

  const INT32_LIMIT := 0x8000_0000
  const INT64_LIMIT := 0x8000_0000_0000_0000

  function Atoi(s: string): Option<int> {
    ParseInt(s, INT64_LIMIT)
  }

  lemma {:induction false} ValDigits(n: nat)
    ensures Val(Digits(n)) == n
  {
    if n >= 10 {
      ValDigits(n / 10);
      assert Digits(n)[..|Digits(n)| - 1] == Digits(n / 10);
    } else {
      assert Digits(n)[..0] == "";
    }
  }

  /** How a number is printed: digit by digit, the last one for the units. */
  lemma DigitsNext(n: nat, k: nat)
    requires k < 10
    ensures Digits(k) == ["0123456789"[k]]
    ensures n > 0 ==> Digits(10 * n + k) == Digits(n) + ["0123456789"[k]]
  {
    assert Digit(k) == "0123456789"[k];
    if n > 0 { assert (10 * n + k) / 10 == n && (10 * n + k) % 10 == k; }
  }

  lemma ParsePrinted(n: nat, limit: nat)
    ensures ParseInt(Digits(n), limit) == if n < limit then Some(n) else None
    ensures ParseInt("+" + Digits(n), limit) == if n < limit then Some(n) else None
    ensures ParseInt("-" + Digits(n), limit) == if n <= limit then Some(-(n as int)) else None
  {
    var s := Digits(n);
    ValDigits(n);
    assert IsDigit(s[0]);
    assert ("+" + s)[1..] == s && ("-" + s)[1..] == s;
    assert ("+" + s)[0] == '+' && ("-" + s)[0] == '-';
  }

  /** `strconv.Atoi` reads printed numbers of 64 bits, with a sign or without, and nothing that
      is empty or holds anything but digits behind the sign. */
  lemma AtoiPrinted(n: nat)
    ensures Atoi(Digits(n)) == if n < 9223372036854775808 then Some(n) else None
    ensures Atoi("+" + Digits(n)) == if n < 9223372036854775808 then Some(n) else None
    ensures Atoi("-" + Digits(n)) == if n <= 9223372036854775808 then Some(-(n as int)) else None
  {
    ParsePrinted(n, INT64_LIMIT);
  }

  lemma AtoiFails(s: string)
    requires s == "" || s == "+" || s == "-" || (!('0' <= s[0] <= '9') && s[0] != '+' && s[0] != '-')
          || exists i :: 0 < i < |s| && !('0' <= s[i] <= '9')
    ensures Atoi(s) == None
  {
    if s != "" && s[0] in {'+', '-'} && s != "+" && s != "-" {
      var i :| 0 < i < |s| && !('0' <= s[i] <= '9');
      assert s[1..][i - 1] == s[i];
    }
  }

  lemma TimesTen(x: nat, p: nat, y: nat, c: nat)
    ensures (x * p + y) * 10 + c == x * (10 * p) + (y * 10 + c)
  {
  }

  lemma {:induction false} ValAppend(a: string, b: string)
    requires AllDigits(a) && AllDigits(b)
    ensures Val(a + b) == Val(a) * Pow10(|b|) + Val(b)
    decreases |b|
  {
    if b == "" {
      assert a + b == a;
    } else {
      var k := |b| - 1;
      var front, s := b[..k], a + b;
      assert s[..|s| - 1] == a + front && s[|s| - 1] == b[k];
      ValAppend(a, front);
      TimesTen(Val(a), Pow10(k), Val(front), (b[k] - '0') as nat);
    }
  }

  /** The last `d` digits are the remainder by 10^d. */
  lemma {:induction false} LastDigits(n: nat, d: nat)
    requires d <= |Digits(n)|
    ensures Val(Digits(n)[|Digits(n)| - d..]) == n % Pow10(d)
    decreases d
  {
    var s := Digits(n);
    if d == 0 {
      assert s[|s|..] == "";
    } else {
      var last := s[|s| - d..];
      assert last[..d - 1] == s[..|s| - 1][|s| - d..];
      if n < 10 {
        assert d == 1 && last[..0] == "";
        assert Pow10(1) == 10;
      } else {
        assert s[..|s| - 1] == Digits(n / 10);
        LastDigits(n / 10, d - 1);
        RemainderByTen(n, Pow10(d - 1));
      }
    }
  }

  lemma RemainderByTen(n: nat, m: nat)
    requires m >= 1
    ensures (n / 10 % m) * 10 + n % 10 == n % (10 * m)
  {
    var q, r := n / 10 / m, n / 10 % m;
    assert n / 10 == q * m + r;
    assert n == 10 * (q * m + r) + n % 10;
    assert n == q * (10 * m) + (r * 10 + n % 10);
    DivUnique(n, 10 * m, q, r * 10 + n % 10);
  }

  lemma MulAtLeast(k: int, m: int)
    requires k >= 1 && m >= 1
    ensures k * m >= m
  {
  }

  lemma MulLess(k: nat, m: nat)
    requires k >= 1 && m >= 2
    ensures k * m > k
  {
    MulAtLeast(k, m - 1);
    assert k * m == k * (m - 1) + k;
  }

  lemma DivUnique(n: nat, m: nat, q: nat, r: nat)
    requires m >= 1 && r < m && n == q * m + r
    ensures n % m == r
  {
    var q', r' := n / m, n % m;
    assert n == q' * m + r' && 0 <= r' < m;
    assert (q - q') * m == q * m - q' * m;
    assert (q' - q) * m == q' * m - q * m;
    if q' < q {
      MulAtLeast(q - q', m);
    } else if q' > q {
      MulAtLeast(q' - q, m);
    }
  }

  lemma {:induction false} FirstDigit(n: nat)
    ensures n > 0 ==> Digits(n)[0] != '0'
    ensures n == 0 ==> Digits(n) == "0"
  {
    if n >= 10 { FirstDigit(n / 10); }
  }

  /** A run of digits without a leading zero is how its value is printed. */
  lemma {:induction false} DigitsOfVal(s: string)
    requires s != "" && AllDigits(s) && s[0] != '0'
    ensures Val(s) > 0 && Digits(Val(s)) == s
    decreases |s|
  {
    var k := |s| - 1;
    if k == 0 {
      assert s[..0] == "" && s == [s[0]];
    } else {
      DigitsOfVal(s[..k]);
      assert s == s[..k] + [s[k]];
      assert Val(s) / 10 == Val(s[..k]) && Val(s) % 10 == (s[k] - '0') as nat;
    }
  }
}
