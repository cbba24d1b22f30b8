/**
 * The two pieces of .NET string behaviour the service relies on: the
 * ordinal ignore-case comparison behind its case-insensitive dictionary,
 * and the decimal rendering of an `int` by `ToString()`.
 */
module DotNetText {
  import opened Wrappers

  // ---------------------------------------------------------------------
  // Case-insensitive key comparison (ASCII letters only)
  // ---------------------------------------------------------------------

  function LowerChar(c: char): char
  {
    if 'A' <= c <= 'Z' then (c as int + 32) as char else c
  }

  /** The key under which a case-insensitive dictionary files a string. */
  function Fold(s: string): string
  {
    seq(|s|, i requires 0 <= i < |s| => LowerChar(s[i]))
  }

  predicate SameIgnoringCase(a: string, b: string)
  {
    Fold(a) == Fold(b)
  }

  /** Lowering identifies two characters exactly when they are equal or an ASCII upper/lower pair. */
  lemma LowerCharMatches(x: char, y: char)
    ensures LowerChar(x) == LowerChar(y) <==>
              x == y || ('A' <= x <= 'Z' && y as int == x as int + 32) ||
              ('A' <= y <= 'Z' && x as int == y as int + 32)
  {
  }

  /**
   * Which strings the ignore-case comparison treats as equal: same length,
   * and at each position the same character or the two cases of one ASCII letter.
   */
  lemma {:induction false} SameIgnoringCaseExactly(a: string, b: string)
    ensures SameIgnoringCase(a, b) <==>
              |a| == |b| &&
              forall i :: 0 <= i < |a| ==>
                a[i] == b[i] || ('A' <= a[i] <= 'Z' && b[i] as int == a[i] as int + 32) ||
                ('A' <= b[i] <= 'Z' && a[i] as int == b[i] as int + 32)
  {
    if SameIgnoringCase(a, b) {
      assert |Fold(a)| == |a| && |Fold(b)| == |b|;
      forall i | 0 <= i < |a|
        ensures a[i] == b[i] || ('A' <= a[i] <= 'Z' && b[i] as int == a[i] as int + 32) ||
                ('A' <= b[i] <= 'Z' && a[i] as int == b[i] as int + 32)
      {
        assert Fold(a)[i] == Fold(b)[i];
        LowerCharMatches(a[i], b[i]);
      }
    }
    if |a| == |b| &&
       forall i :: 0 <= i < |a| ==>
         a[i] == b[i] || ('A' <= a[i] <= 'Z' && b[i] as int == a[i] as int + 32) ||
         ('A' <= b[i] <= 'Z' && a[i] as int == b[i] as int + 32)
    {
      forall i | 0 <= i < |a|
        ensures Fold(a)[i] == Fold(b)[i]
      {
        LowerCharMatches(a[i], b[i]);
      }
      assert Fold(a) == Fold(b);
    }
  }

  // ---------------------------------------------------------------------
  // Int32.ToString(): an optional '-' followed by the decimal digits
  // ---------------------------------------------------------------------

  predicate IsDigit(c: char)
  {
    '0' <= c <= '9'
  }

  function DigitChar(d: nat): char
    requires d < 10
  {
    (d + '0' as int) as char
  }

  function CharDigit(c: char): nat
    requires IsDigit(c)
  {
    c as int - '0' as int
  }

  /** The digits of `n`, most significant first, without leading zeros. */
  function NatDigits(n: nat): (r: string)
    ensures |r| > 0
    ensures forall i :: 0 <= i < |r| ==> IsDigit(r[i])
    ensures r[0] == '0' ==> n == 0
    decreases n
  {
    if n < 10 then [DigitChar(n)] else NatDigits(n / 10) + [DigitChar(n % 10)]
  }

  /** What `n.ToString()` yields for an `int` under a culture whose negative sign is '-'. */
  function DecimalString(n: int): (r: string)
    ensures |r| > 0
    ensures r[0] == '-' <==> n < 0
    ensures n >= 0 ==> IsDigit(r[0])
    ensures forall i :: 0 < i < |r| ==> IsDigit(r[i])
    // Canonical form: no leading zero, and no "-0".
    ensures n >= 0 && r[0] == '0' ==> r == "0"
    ensures n < 0 ==> |r| > 1 && r[1] != '0'
  {
    if n < 0 then "-" + NatDigits(-n) else NatDigits(n)
  }

  /** Reads back a non-empty string of digits; anything else is None. */
  function ParseDigits(s: string): (r: Option<nat>)
    decreases |s|
  {
    if |s| == 0 || !IsDigit(s[|s| - 1]) then None
    else if |s| == 1 then Some(CharDigit(s[0]))
    else match ParseDigits(s[..|s| - 1])
      case None => None
      case Some(v) => Some(v * 10 + CharDigit(s[|s| - 1]))
  }

  /** The inverse of DecimalString: an optional '-' and then digits. */
  function ParseDecimal(s: string): (r: Option<int>)
  {
    if |s| > 0 && s[0] == '-' then
      match ParseDigits(s[1..])
      case None => None
      case Some(v) => Some(-(v as int))
    else
      match ParseDigits(s)
      case None => None
      case Some(v) => Some(v as int)
  }

  lemma {:induction false} ParseNatDigits(n: nat)
    ensures ParseDigits(NatDigits(n)) == Some(n)
    decreases n
  {
    if n >= 10 {
      var s := NatDigits(n);
      assert s[..|s| - 1] == NatDigits(n / 10);
      ParseNatDigits(n / 10);
    }
  }

  /** Rendering a number and reading it back gives the number. */
  lemma DecimalRoundTrip(n: int)
    ensures ParseDecimal(DecimalString(n)) == Some(n)
  {
    if n < 0 {
      assert DecimalString(n)[1..] == NatDigits(-n);
      ParseNatDigits(-n);
    } else {
      ParseNatDigits(n);
    }
  }

  /** Distinct numbers render as distinct strings, so a string compares equal to at most one rendering. */
  lemma DecimalStringInjective(a: int, b: int)
    ensures DecimalString(a) == DecimalString(b) <==> a == b
  {
    DecimalRoundTrip(a);
    DecimalRoundTrip(b);
  }
}
