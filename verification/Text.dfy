/** Byte-wise string order, decimal numerals and splitting, as Go and SQLite see them. */
module Text {
  // ------------------------------------------------------------------- order

  /** a sorts strictly before b, comparing character by character. */
  predicate Before(a: string, b: string) {
    b != [] && (a == [] || a[0] < b[0] || (a[0] == b[0] && Before(a[1..], b[1..])))
  }

  /** A text comes before another if it is a proper prefix of it, or is the smaller where they first differ. */
  lemma {:induction false} BeforeMeaning(a: string, b: string)
    ensures Before(a, b) <==> exists k :: FirstSmaller(a, b, k)
  {
    if a != [] && b != [] && a[0] == b[0] {
      BeforeMeaning(a[1..], b[1..]);
      if k :| FirstSmaller(a[1..], b[1..], k) {
        assert forall i :: 0 < i <= k ==> a[i] == a[1..][i - 1] && b[i] == b[1..][i - 1];
        assert FirstSmaller(a, b, k + 1);
      }
      if k :| FirstSmaller(a, b, k) {
        assert FirstSmaller(a[1..], b[1..], k - 1);
      }
    } else if Before(a, b) {
      assert FirstSmaller(a, b, 0);
    }
  }

  predicate FirstSmaller(a: string, b: string, k: int) {
    && 0 <= k <= |a| && k < |b|
    && (forall i :: 0 <= i < k ==> a[i] == b[i])
    && (k == |a| || a[k] < b[k])
  }

  lemma {:induction false} BeforeIrreflexive(a: string)
    ensures !Before(a, a)
  {
    if a != [] {
      BeforeIrreflexive(a[1..]);
    }
  }

  lemma {:induction false} BeforeTotal(a: string, b: string)
    ensures Before(a, b) || a == b || Before(b, a)
  {
    if a != [] && b != [] && a[0] == b[0] {
      BeforeTotal(a[1..], b[1..]);
      assert a[1..] == b[1..] ==> a == [a[0]] + a[1..] == [b[0]] + b[1..] == b;
    }
  }

  lemma {:induction false} BeforeTransitive(a: string, b: string, c: string)
    requires Before(a, b) && Before(b, c)
    ensures Before(a, c)
  {
    if a != [] && a[0] == b[0] == c[0] {
      BeforeTransitive(a[1..], b[1..], c[1..]);
    }
  }

  lemma BeforeAsymmetric(a: string, b: string)
    requires Before(a, b)
    ensures !Before(b, a) && a != b
  {
    if Before(b, a) {
      BeforeTransitive(a, b, a);
    }
    BeforeIrreflexive(a);
  }

  /** Behind parts of equal length, order is decided by those parts first. */
  lemma {:induction false} BeforeConcat(p: string, q: string, p': string, q': string)
    requires |p| == |p'|
    ensures Before(p + q, p' + q') <==> Before(p, p') || (p == p' && Before(q, q'))
  {
    if p == [] {
      assert p + q == q && p' + q' == q';
    } else {
      assert (p + q)[1..] == p[1..] + q && (p' + q')[1..] == p'[1..] + q';
      BeforeConcat(p[1..], q, p'[1..], q');
      assert p == [p[0]] + p[1..] && p' == [p'[0]] + p'[1..];
    }
  }

  // ---------------------------------------------------------------- numerals

  predicate IsDigit(c: char) {
    '0' <= c <= '9'
  }

  predicate AllDigits(s: string) {
    forall i :: 0 <= i < |s| ==> IsDigit(s[i])
  }

  function Digit(d: nat): (c: char)
    requires d < 10
    ensures IsDigit(c)
  {
    ('0' as int + d) as char
  }

  function Value(s: string): nat
    requires AllDigits(s)
  {
    if s == [] then 0 else 10 * Value(s[..|s| - 1]) + (s[|s| - 1] as int - '0' as int)
  }

  /** The decimal numeral of n, without leading zeros. */
  function Decimal(n: nat): (s: string)
    ensures AllDigits(s) && |s| >= 1
  {
    if n < 10 then [Digit(n)] else Decimal(n / 10) + [Digit(n % 10)]
  }

  lemma {:induction false} DecimalValue(n: nat)
    ensures Value(Decimal(n)) == n
  {
    if n < 10 {
      assert Decimal(n)[..0] == [];
    } else {
      DecimalValue(n / 10);
      assert Decimal(n)[..|Decimal(n)| - 1] == Decimal(n / 10);
    }
  }

  function Pow10(w: nat): (p: nat)
    ensures p > 0
  {
    if w == 0 then 1 else 10 * Pow10(w - 1)
  }

  /** n in exactly w digits, zero-padded. */
  function Padded(n: nat, w: nat): (s: string)
    ensures AllDigits(s) && |s| == w
  {
    if w == 0 then [] else Padded(n / 10, w - 1) + [Digit(n % 10)]
  }

  lemma {:induction false} PaddedValue(n: nat, w: nat)
    requires n < Pow10(w)
    ensures Value(Padded(n, w)) == n
  {
    if w > 0 {
      PaddedValue(n / 10, w - 1);
      assert Padded(n, w)[..w - 1] == Padded(n / 10, w - 1);
    }
  }

  /** Among numerals of one width, text order is numeric order. */
  lemma {:induction false} PaddedOrder(a: nat, b: nat, w: nat)
    requires a < Pow10(w) && b < Pow10(w)
    ensures Before(Padded(a, w), Padded(b, w)) <==> a < b
    ensures Padded(a, w) == Padded(b, w) <==> a == b
  {
    if w > 0 {
      PaddedOrder(a / 10, b / 10, w - 1);
      BeforeConcat(Padded(a / 10, w - 1), [Digit(a % 10)], Padded(b / 10, w - 1), [Digit(b % 10)]);
    }
    PaddedValue(a, w);
    PaddedValue(b, w);
  }

  // --------------------------------------------------------------- splitting

  /** strings.Split for a one-character separator. */
  function Split(s: string, sep: char): (parts: seq<string>)
    ensures parts != []
  {
    if s == [] then [[]]
    else if s[0] == sep then [[]] + Split(s[1..], sep)
    else
      var rest := Split(s[1..], sep);
      [[s[0]] + rest[0]] + rest[1..]
  }

  function Join(parts: seq<string>, sep: char): string
    requires parts != []
  {
    if |parts| == 1 then parts[0] else parts[0] + [sep] + Join(parts[1..], sep)
  }

  lemma {:induction false} SplitPlain(s: string, sep: char)
    requires sep !in s
    ensures Split(s, sep) == [s]
  {
    if s != [] {
      SplitPlain(s[1..], sep);
      assert [s[0]] + s[1..] == s;
    }
  }

  lemma {:induction false} SplitFirst(s: string, rest: string, sep: char)
    requires sep !in s
    ensures Split(s + [sep] + rest, sep) == [s] + Split(rest, sep)
  {
    var t := s + [sep] + rest;
    if s == [] {
      assert t[1..] == rest;
    } else {
      assert t[1..] == s[1..] + [sep] + rest;
      SplitFirst(s[1..], rest, sep);
      assert [s[0]] + s[1..] == s;
    }
  }

  /** Splitting undoes joining parts that do not contain the separator. */
  lemma {:induction false} SplitJoin(parts: seq<string>, sep: char)
    requires parts != [] && forall p :: p in parts ==> sep !in p
    ensures Split(Join(parts, sep), sep) == parts
  {
    assert parts[0] in parts;
    if |parts| == 1 {
      SplitPlain(parts[0], sep);
    } else {
      assert forall p :: p in parts[1..] ==> p in parts;
      SplitJoin(parts[1..], sep);
      SplitFirst(parts[0], Join(parts[1..], sep), sep);
    }
  }
}
