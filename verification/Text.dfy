/** Separators and decimal numerals, as used by the idempotency-key and error-message formats. */
module Text {

  predicate StartsWith(s: string, prefix: string) {
    |prefix| <= |s| && s[..|prefix|] == prefix
  }

  /** The index of the first `c` in `s`, or |s| when there is none. */
  function IndexOf(s: string, c: char): (i: nat)
    ensures i <= |s|
    ensures i < |s| ==> s[i] == c
    ensures forall j :: 0 <= j < i ==> s[j] != c
  {
    if s == "" || s[0] == c then 0 else 1 + IndexOf(s[1..], c)
  }

  /** One more than the index of the last `c` in `s`, or 0 when there is none. */
  function AfterLast(s: string, c: char): (i: nat)
    ensures i <= |s|
    ensures i > 0 ==> s[i - 1] == c
    ensures forall j :: i <= j < |s| ==> s[j] != c
  {
    if s == "" then 0 else if s[|s| - 1] == c then |s| else AfterLast(s[..|s| - 1], c)
  }

  lemma FirstSeparator(a: string, x: string, c: char)
    requires c !in a
    ensures var s := a + [c] + x;
            IndexOf(s, c) == |a| && s[..|a|] == a && s[|a| + 1..] == x
  {
    var s := a + [c] + x;
    assert s[|a|] == c;
    assert forall j :: 0 <= j < |a| ==> s[j] == a[j];
    assert s[..|a|] == a && s[|a| + 1..] == x;
  }

  lemma LastSeparator(x: string, a: string, c: char)
    requires c !in a
    ensures var s := x + [c] + a;
            AfterLast(s, c) == |x| + 1 && s[..|x|] == x && s[|x| + 1..] == a
  {
    var s := x + [c] + a;
    assert s[|x|] == c;
    assert forall j :: |x| < j < |s| ==> s[j] == a[j - |x| - 1];
    assert s[..|x|] == x && s[|x| + 1..] == a;
  }

  /** When two texts agree, so do their parts before and after the first separator. */
  lemma CutFirst(a: string, x: string, b: string, y: string, c: char)
    requires c !in a && c !in b
    requires a + [c] + x == b + [c] + y
    ensures a == b && x == y
  {
    FirstSeparator(a, x, c);
    FirstSeparator(b, y, c);
  }

  /** When two texts agree, so do their parts before and after the last separator. */
  lemma CutLast(x: string, a: string, y: string, b: string, c: char)
    requires c !in a && c !in b
    requires x + [c] + a == y + [c] + b
    ensures x == y && a == b
  {
    LastSeparator(x, a, c);
    LastSeparator(y, b, c);
  }

  /** The byte order of two texts (for UTF-8 this is also the order of their code points). */
  predicate Before(a: string, b: string) {
    b != "" && (a == "" || a[0] < b[0] || (a[0] == b[0] && Before(a[1..], b[1..])))
  }

  lemma {:induction false} BeforeTotal(a: string, b: string)
    ensures Before(a, b) || a == b || Before(b, a)
    ensures !(Before(a, b) && Before(b, a))
    ensures !Before(a, a)
  {
    if a != "" {
      BeforeTotal(a[1..], a[1..]);
      if b != "" && a[0] == b[0] {
        BeforeTotal(a[1..], b[1..]);
        assert a == [a[0]] + a[1..] && b == [b[0]] + b[1..];
      }
    }
  }

  lemma {:induction false} BeforeTransitive(a: string, b: string, c: string)
    requires Before(a, b) && Before(b, c)
    ensures Before(a, c)
  {
    if a != "" && a[0] == b[0] == c[0] {
      BeforeTransitive(a[1..], b[1..], c[1..]);
    }
  }

  /** The texts agree on their first `k` characters, and there the first ends or has the lower one. */
  predicate DivergesAt(a: string, b: string, k: nat) {
    k <= |a| && k < |b| && (forall i :: 0 <= i < k ==> a[i] == b[i]) && (k == |a| || a[k] < b[k])
  }

  /** The order is the one by the first difference, a proper prefix coming first. */
  lemma {:induction false} BeforeMeans(a: string, b: string)
    ensures Before(a, b) <==> exists k: nat :: DivergesAt(a, b, k)
  {
    if a != "" && b != "" && a[0] == b[0] {
      BeforeMeans(a[1..], b[1..]);
      if k: nat :| DivergesAt(a[1..], b[1..], k) {
        assert forall i :: 1 <= i < k + 1 ==> a[i] == a[1..][i - 1] && b[i] == b[1..][i - 1];
        assert DivergesAt(a, b, k + 1);
      }
      if k: nat :| DivergesAt(a, b, k) {
        assert DivergesAt(a[1..], b[1..], k - 1);
      }
    } else if b != "" && (a == "" || a[0] < b[0]) {
      assert DivergesAt(a, b, 0);
    }
  }

  predicate IsNumeral(c: char) {
    c == '-' || '0' <= c <= '9'
  }

  /** Length of the leading run of numeral characters. */
  function NumeralRun(s: string): (i: nat)
    ensures i <= |s|
    ensures i < |s| ==> !IsNumeral(s[i])
    ensures forall j :: 0 <= j < i ==> IsNumeral(s[j])
  {
    if s == "" || !IsNumeral(s[0]) then 0 else 1 + NumeralRun(s[1..])
  }

  predicate AllNumeral(s: string) {
    forall i :: 0 <= i < |s| ==> IsNumeral(s[i])
  }

  function Digits(n: nat): string {
    if n < 10 then [('0' as int + n) as char] else Digits(n / 10) + [('0' as int + n % 10) as char]
  }

  /** The decimal text of an integer. */
  function Decimal(n: int): string {
    if n < 0 then "-" + Digits(-n) else Digits(n)
  }

  lemma {:induction false} DigitsFacts(n: nat)
    ensures |Digits(n)| == 1 <==> n < 10
    ensures |Digits(n)| > 0
    ensures forall i :: 0 <= i < |Digits(n)| ==> '0' <= Digits(n)[i] <= '9'
  {
    if n >= 10 {
      DigitsFacts(n / 10);
    }
  }

  /** The number that a text of digits stands for. */
  function ValueOf(s: string): int {
    if s == "" then 0 else 10 * ValueOf(s[..|s| - 1]) + (s[|s| - 1] as int - 48)
  }

  lemma {:induction false} DigitsMean(n: nat)
    ensures ValueOf(Digits(n)) == n
  {
    if n >= 10 {
      DigitsMean(n / 10);
      assert Digits(n)[..|Digits(n)| - 1] == Digits(n / 10);
    } else {
      assert Digits(n)[..0] == "";
    }
  }

  lemma DecimalFacts(n: int)
    ensures |Decimal(n)| > 0 && AllNumeral(Decimal(n)) && '|' !in Decimal(n)
    ensures n < 0 <==> Decimal(n)[0] == '-'
  {
    DigitsFacts(if n < 0 then -n else n);
  }

  lemma {:induction false} DigitsInjective(m: nat, n: nat)
    requires Digits(m) == Digits(n)
    ensures m == n
  {
    var s := Digits(m);
    DigitsFacts(m);
    DigitsFacts(n);
    if m >= 10 {
      assert s[..|s| - 1] == Digits(m / 10) == Digits(n / 10);
      assert s[|s| - 1] == ('0' as int + m % 10) as char == ('0' as int + n % 10) as char;
      DigitsInjective(m / 10, n / 10);
    } else {
      assert s[0] == ('0' as int + m) as char == ('0' as int + n) as char;
    }
  }

  lemma DecimalInjective(m: int, n: int)
    requires Decimal(m) == Decimal(n)
    ensures m == n
  {
    var s := Decimal(m);
    DecimalFacts(m);
    DecimalFacts(n);
    if m < 0 {
      assert s[1..] == Digits(-m) == Digits(-n);
      DigitsInjective(-m, -n);
    } else {
      DigitsInjective(m, n);
    }
  }

  lemma NumeralRunOf(a: string, s: string)
    requires AllNumeral(a) && (s == "" || !IsNumeral(s[0]))
    ensures NumeralRun(a + s) == |a| && (a + s)[..|a|] == a && (a + s)[|a|..] == s
  {
    var l := a + s;
    assert forall j :: 0 <= j < |a| ==> l[j] == a[j];
    assert |a| < |l| ==> l[|a|] == s[0];
    assert l[..|a|] == a && l[|a|..] == s;
  }

  /** A numeral followed by text that does not continue it can be read back. */
  lemma NumeralPrefix(m: int, s: string, n: int, t: string)
    requires s == "" || !IsNumeral(s[0])
    requires t == "" || !IsNumeral(t[0])
    requires Decimal(m) + s == Decimal(n) + t
    ensures m == n && s == t
  {
    DecimalFacts(m);
    DecimalFacts(n);
    NumeralRunOf(Decimal(m), s);
    NumeralRunOf(Decimal(n), t);
    DecimalInjective(m, n);
  }
}
