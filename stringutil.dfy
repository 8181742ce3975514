/**
 * Character classes, index search, decimal formatting and parsing, and the
 * code-point order Python uses to compare and sort strings.
 */
module StringUtil {
  import opened Wrappers

  predicate IsDigit(c: char) { '0' <= c <= '9' }

  predicate IsLowerHex(c: char) { IsDigit(c) || 'a' <= c <= 'f' }

  /** The ASCII class `[a-zA-Z0-9]`. */
  predicate IsAlnum(c: char) { IsDigit(c) || 'a' <= c <= 'z' || 'A' <= c <= 'Z' }

  /** Every character is a decimal digit (the empty string included). */
  predicate DigitsOnly(s: string) { forall i :: 0 <= i < |s| ==> IsDigit(s[i]) }

  /** The class `[0-9]+`. */
  predicate AllDigits(s: string) { |s| > 0 && DigitsOnly(s) }

  /** A run of characters that the regular-expression dot may cover. */
  predicate NoNewline(s: string) { '\n' !in s }

  /**
   * The text that the part of a pattern before a final `$` must cover: without
   * the MULTILINE flag, `$` matches at the end and also just before a final newline.
   */
  function DropFinalNewline(s: string): (r: string)
    ensures s == r || s == r + "\n"
    ensures |s| > 0 && s[|s| - 1] != '\n' ==> r == s
  {
    if |s| > 0 && s[|s| - 1] == '\n' then s[..|s| - 1] else s
  }

  /** Position of the first `c` in `s`. */
  function FirstIndex(s: string, c: char): (r: Option<nat>)
    ensures r.Some? ==> r.value < |s| && s[r.value] == c && c !in s[..r.value]
    ensures r.None? ==> c !in s
  {
    FirstIndexFrom(s, c, 0)
  }

  /** Position of the first `c` in `s[k..]`, counted from the start of `s`. */
  function FirstIndexFrom(s: string, c: char, k: nat): (r: Option<nat>)
    requires k <= |s|
    requires c !in s[..k]
    ensures r.Some? ==> k <= r.value < |s| && s[r.value] == c && c !in s[..r.value]
    ensures r.None? ==> c !in s
    decreases |s| - k
  {
    if k == |s| then
      assert s[..k] == s;
      None
    else if s[k] == c then Some(k)
    else
      assert s[..k + 1] == s[..k] + [s[k]];
      FirstIndexFrom(s, c, k + 1)
  }

  /** Position of the last `c` in `s`. */
  function LastIndex(s: string, c: char): (r: Option<nat>)
    ensures r.Some? ==> r.value < |s| && s[r.value] == c && c !in s[r.value + 1..]
    ensures r.None? ==> c !in s
  {
    LastIndexBelow(s, c, |s|)
  }

  /** Position of the last `c` in `s[..n]`. */
  function LastIndexBelow(s: string, c: char, n: nat): (r: Option<nat>)
    requires n <= |s|
    requires c !in s[n..]
    ensures r.Some? ==> r.value < n && s[r.value] == c && c !in s[r.value + 1..]
    ensures r.None? ==> c !in s
  {
    if n == 0 then
      assert s[0..] == s;
      None
    else if s[n - 1] == c then Some(n - 1)
    else
      assert s[n - 1..] == [s[n - 1]] + s[n..];
      LastIndexBelow(s, c, n - 1)
  }

  /** When `c` does not occur after the separator, the last `c` of `a + [c] + b` is the separator. */
  lemma LastIndexOfJoin(a: string, c: char, b: string)
    requires c !in b
    ensures LastIndex(a + [c] + b, c) == Some(|a|)
  {
    var s := a + [c] + b;
    assert s[|a|] == c;
    assert s[|a| + 1..] == b;
  }

  /** When `a` has no `c`, the first `c` of `a + [c] + b` is the separator. */
  lemma FirstIndexOfJoin(a: string, c: char, b: string)
    requires c !in a
    ensures FirstIndex(a + [c] + b, c) == Some(|a|)
    ensures (a + [c] + b)[..|a|] == a && (a + [c] + b)[|a| + 1..] == b
  {
    var s := a + [c] + b;
    assert s[|a|] == c;
    assert s[..|a|] == a;
    assert s[|a| + 1..] == b;
  }

  // ---------------------------------------------------------------------------
  // Decimal numerals

  function DigitChar(d: nat): (c: char)
    requires d < 10
    ensures IsDigit(c)
  {
    (48 + d) as char
  }

  function DigitValue(c: char): (d: nat)
    requires IsDigit(c)
    ensures d < 10 && DigitChar(d) == c
  {
    c as int - 48
  }

  /** The value of a string of decimal digits, most significant first. */
  function DigitsValue(s: string): nat
    requires DigitsOnly(s)
  {
    if s == [] then 0 else DigitsValue(s[..|s| - 1]) * 10 + DigitValue(s[|s| - 1])
  }

  /** The shortest decimal numeral of `n`. */
  function Decimal(n: nat): (r: string)
    ensures AllDigits(r)
    ensures r[0] == '0' ==> n == 0
  {
    if n < 10 then [DigitChar(n)]
    else
      var r := Decimal(n / 10) + [DigitChar(n % 10)];
      assert r[0] == Decimal(n / 10)[0];
      r
  }

  function Zeros(k: nat): (r: string)
    ensures |r| == k && DigitsOnly(r)
  {
    seq(k, _ => '0')
  }

  lemma {:induction false} DecimalValue(n: nat)
    ensures DigitsValue(Decimal(n)) == n
  {
    if n >= 10 {
      var d := Decimal(n);
      assert d[..|d| - 1] == Decimal(n / 10);
      DecimalValue(n / 10);
    }
  }

  lemma {:induction false} LeadingZeroValue(s: string)
    requires DigitsOnly(s)
    ensures DigitsOnly("0" + s) && DigitsValue("0" + s) == DigitsValue(s)
  {
    var t := "0" + s;
    assert DigitsOnly(t) by {
      forall i | 0 <= i < |t| ensures IsDigit(t[i]) {
        if i > 0 { assert t[i] == s[i - 1]; }
      }
    }
    if s != [] {
      assert t[..|t| - 1] == "0" + s[..|s| - 1];
      LeadingZeroValue(s[..|s| - 1]);
    }
  }

  lemma {:induction false} ZerosValue(k: nat, s: string)
    requires DigitsOnly(s)
    ensures DigitsOnly(Zeros(k) + s) && DigitsValue(Zeros(k) + s) == DigitsValue(s)
  {
    if k > 0 {
      var t := Zeros(k - 1) + s;
      assert Zeros(k) == "0" + Zeros(k - 1);
      assert Zeros(k) + s == "0" + t;
      ZerosValue(k - 1, s);
      LeadingZeroValue(t);
    } else {
      assert Zeros(k) + s == s;
    }
  }

  lemma PadZerosValue(s: string, width: nat)
    requires DigitsOnly(s)
    ensures DigitsOnly(PadZeros(s, width)) && DigitsValue(PadZeros(s, width)) == DigitsValue(s)
  {
    if |s| < width { ZerosValue(width - |s|, s); }
  }

  /** `s` padded on the left with zeros to at least `width` characters. */
  function PadZeros(s: string, width: nat): (r: string)
    ensures |r| >= width && |r| >= |s|
  {
    if |s| >= width then s else Zeros(width - |s|) + s
  }

  /**
   * Python's `'{:04d}'.format(n)`: the decimal numeral zero-padded to width
   * four, where the width counts the minus sign of a negative number.
   */
  function Format04(n: int): (r: string)
    ensures |r| >= 4
    ensures n >= 0 ==> AllDigits(r) && (n < 10000 ==> |r| == 4)
    ensures n < 0 ==> r[0] == '-' && AllDigits(r[1..])
  {
    if n >= 0 then
      var r := PadZeros(Decimal(n), 4);
      PadZerosValue(Decimal(n), 4);
      assert n < 10000 ==> |Decimal(n)| <= 4 by {
        if n < 10000 { DecimalLength(n, 4); }
      }
      r
    else
      var d := PadZeros(Decimal(-n), 3);
      PadZerosValue(Decimal(-n), 3);
      var r := "-" + d;
      assert r[1..] == d;
      r
  }

  lemma {:induction false} DecimalLength(n: nat, k: nat)
    requires k > 0
    requires n < Pow10(k)
    ensures |Decimal(n)| <= k
  {
    if n >= 10 {
      assert k > 1;
      DecimalLength(n / 10, k - 1);
    }
  }

  function Pow10(k: nat): (r: nat)
    ensures r > 0
  {
    if k == 0 then 1 else 10 * Pow10(k - 1)
  }

  /**
   * Python's `int()` on a string: an optional sign followed by decimal digits.
   * None stands for the ValueError that any other text raises.
   */
  function ParseInt(s: string): Option<int>
  {
    if |s| > 0 && (s[0] == '-' || s[0] == '+') && AllDigits(s[1..]) then
      var magnitude: int := DigitsValue(s[1..]);
      Some(if s[0] == '-' then -magnitude else magnitude)
    else if AllDigits(s) then Some(DigitsValue(s))
    else None
  }

  /** Reading back a zero-padded numeral gives the number that was formatted. */
  lemma Format04RoundTrip(n: int)
    ensures ParseInt(Format04(n)) == Some(n)
  {
    if n >= 0 {
      var d := Decimal(n);
      DecimalValue(n);
      PadZerosValue(d, 4);
      var r := Format04(n);
      assert r[0] != '-' && r[0] != '+';
    } else {
      var d := Decimal(-n);
      DecimalValue(-n);
      PadZerosValue(d, 3);
      var r := Format04(n);
      assert r[1..] == PadZeros(d, 3);
    }
  }

  // ---------------------------------------------------------------------------
  // The order Python's `<` and `sort` use on str: code point by code point,
  // a proper prefix first.

  predicate StrLess(a: string, b: string)
  {
    if a == [] then b != []
    else b != [] && (a[0] < b[0] || (a[0] == b[0] && StrLess(a[1..], b[1..])))
  }

  lemma {:induction false} StrLessIrreflexive(a: string)
    ensures !StrLess(a, a)
  {
    if a != [] { StrLessIrreflexive(a[1..]); }
  }

  lemma {:induction false} StrLessTransitive(a: string, b: string, c: string)
    requires StrLess(a, b) && StrLess(b, c)
    ensures StrLess(a, c)
  {
    if a != [] && a[0] == b[0] && b[0] == c[0] {
      StrLessTransitive(a[1..], b[1..], c[1..]);
    }
  }

  lemma {:induction false} StrLessTotal(a: string, b: string)
    ensures a == b || StrLess(a, b) || StrLess(b, a)
  {
    if a != [] && b != [] && a[0] == b[0] {
      StrLessTotal(a[1..], b[1..]);
      if a[1..] == b[1..] {
        assert a == [a[0]] + a[1..] && b == [b[0]] + b[1..];
      }
    }
  }

  lemma StrLessAsymmetric(a: string, b: string)
    requires StrLess(a, b)
    ensures !StrLess(b, a)
  {
    if StrLess(b, a) {
      StrLessTransitive(a, b, a);
      StrLessIrreflexive(a);
    }
  }

  /** Sorted in Python's string order with no element twice. */
  predicate StrictlySorted(s: seq<string>)
  {
    forall i, j :: 0 <= i < j < |s| ==> StrLess(s[i], s[j])
  }

  /** Adds `x` to a strictly sorted list unless it is already there. */
  function InsertUnique(s: seq<string>, x: string): (r: seq<string>)
    requires StrictlySorted(s)
    ensures StrictlySorted(r)
    ensures forall y :: y in r <==> y in s || y == x
  {
    if s == [] then [x]
    else if x == s[0] then s
    else if StrLess(x, s[0]) then
      var r := [x] + s;
      assert forall j :: 0 < j < |r| ==> StrLess(x, r[j]) by {
        forall j | 0 < j < |r| ensures StrLess(x, r[j]) {
          if j > 1 { StrLessTransitive(x, s[0], s[j - 1]); }
        }
      }
      r
    else
      StrLessTotal(x, s[0]);
      var t := InsertUnique(s[1..], x);
      var r := [s[0]] + t;
      assert forall j :: 0 < j < |r| ==> StrLess(s[0], r[j]) by {
        forall j | 0 < j < |r| ensures StrLess(s[0], r[j]) {
          assert r[j] in t;
          if r[j] != x {
            var k :| 0 <= k < |s[1..]| && s[1..][k] == r[j];
            assert s[k + 1] == r[j];
          }
        }
      }
      r
  }

  lemma HeadIsElement<T>(s: seq<T>)
    requires s != []
    ensures s[0] in s
  {}

  /** A strictly sorted list is determined by its elements. */
  lemma {:induction false} StrictlySortedUnique(a: seq<string>, b: seq<string>)
    requires StrictlySorted(a) && StrictlySorted(b)
    requires forall y :: y in a <==> y in b
    ensures a == b
  {
    if a != [] && b != [] {
      if a[0] != b[0] {
        assert a[0] in b && b[0] in a;
        var i :| 0 <= i < |b| && b[i] == a[0];
        var j :| 0 <= j < |a| && a[j] == b[0];
        assert StrLess(b[0], a[0]) && StrLess(a[0], b[0]);
        StrLessAsymmetric(a[0], b[0]);
        assert false;
      }
      forall y ensures y in a[1..] <==> y in b[1..] {
        if y in a[1..] {
          var k :| 0 <= k < |a[1..]| && a[1..][k] == y;
          assert StrLess(a[0], y);
          StrLessIrreflexive(y);
          assert y in b;
          assert y != b[0];
          assert y in b[1..] by { var m :| 0 <= m < |b| && b[m] == y; assert m > 0; assert b[1..][m - 1] == y; }
        }
        if y in b[1..] {
          var k :| 0 <= k < |b[1..]| && b[1..][k] == y;
          assert StrLess(b[0], y);
          StrLessIrreflexive(y);
          assert y in a;
          assert y in a[1..] by { var m :| 0 <= m < |a| && a[m] == y; assert m > 0; assert a[1..][m - 1] == y; }
        }
      }
      StrictlySortedUnique(a[1..], b[1..]);
      assert a == [a[0]] + a[1..] && b == [b[0]] + b[1..];
    } else if a != [] {
      HeadIsElement(a);
      assert false;
    } else if b != [] {
      HeadIsElement(b);
      assert false;
    }
  }
}
