/**
 * The few string facts of PHP the model needs: decimal numerals (how PHP
 * prints an integer), canonical integer strings (which string array keys PHP
 * turns into integer keys), substring search, and the `/key-(\d+)/` search
 * used by the stylesheet auto-numbering.
 */
module PhpStrings {
  import opened Wrappers

  predicate IsDigit(c: char) { '0' <= c <= '9' }

  predicate AllDigits(s: string) { forall i :: 0 <= i < |s| ==> IsDigit(s[i]) }

  function DigitChar(d: int): (c: char)
    requires 0 <= d < 10
    ensures IsDigit(c)
  {
    ('0' as int + d) as char
  }

  function DigitValue(c: char): (d: nat)
    requires IsDigit(c)
    ensures d < 10 && DigitChar(d) == c
  {
    c as int - '0' as int
  }

  /** The decimal numeral PHP prints for a non-negative integer. */
  function Dec(n: nat): (s: string)
    ensures 1 <= |s| && AllDigits(s)
    ensures s[0] == '0' <==> n == 0
    ensures n == 0 ==> s == "0"
    decreases n
  {
    if n < 10 then [DigitChar(n)] else Dec(n / 10) + [DigitChar(n % 10)]
  }

  /** The number a string of decimal digits denotes. */
  function DigitsValue(s: string): nat
    requires AllDigits(s)
  {
    if s == [] then 0 else 10 * DigitsValue(s[..|s| - 1]) + DigitValue(s[|s| - 1])
  }

  /** A numeral PHP reads back as the same non-negative integer: no sign, no leading zero. */
  predicate IsCanonicalNat(s: string) {
    1 <= |s| && AllDigits(s) && (s[0] == '0' ==> |s| == 1)
  }

  /** A numeral PHP reads back as the same negative integer. */
  predicate IsCanonicalNegative(s: string) {
    2 <= |s| && s[0] == '-' && s[1] != '0' && IsCanonicalNat(s[1..])
  }

  lemma {:induction false} DecRoundTrip(n: nat)
    ensures DigitsValue(Dec(n)) == n
    decreases n
  {
    if n >= 10 {
      var s := Dec(n);
      assert s[..|s| - 1] == Dec(n / 10);
      DecRoundTrip(n / 10);
    }
  }

  lemma DecInjective(m: nat, n: nat)
    requires Dec(m) == Dec(n)
    ensures m == n
  {
    DecRoundTrip(m);
    DecRoundTrip(n);
  }

  lemma {:induction false} PositiveDigits(s: string)
    requires IsCanonicalNat(s) && s[0] != '0'
    ensures DigitsValue(s) >= 1
    decreases |s|
  {
    if |s| > 1 {
      var p := s[..|s| - 1];
      assert IsCanonicalNat(p) && p[0] != '0';
      PositiveDigits(p);
    }
  }

  /** Every canonical numeral is the one PHP prints for its value. */
  lemma {:induction false} CanonicalIsDec(s: string)
    requires IsCanonicalNat(s)
    ensures Dec(DigitsValue(s)) == s
    decreases |s|
  {
    if |s| > 1 {
      var p := s[..|s| - 1];
      assert IsCanonicalNat(p) && p[0] != '0';
      PositiveDigits(p);
      CanonicalIsDec(p);
      var n := DigitsValue(s);
      assert n / 10 == DigitsValue(p) && n % 10 == DigitValue(s[|s| - 1]);
      assert s == p + [s[|s| - 1]];
    }
  }

  /** Whether `key` occurs in `t` (what the unanchored pattern "key-?\d*" matches). */
  predicate Contains(t: string, key: string)
    ensures key == [] ==> Contains(t, key)
    ensures Contains(t, key) ==> |key| <= |t|
    ensures key <= t ==> Contains(t, key)
    decreases |t|
  {
    if |t| < |key| then false else t[..|key|] == key || (|t| > 0 && Contains(t[1..], key))
  }

  /** `key` occurs in `t` at position `p`. */
  predicate OccursAt(t: string, key: string, p: int) {
    0 <= p <= |t| - |key| && t[p..p + |key|] == key
  }

  lemma {:induction false} ContainsIff(t: string, key: string)
    ensures Contains(t, key) <==> exists p :: OccursAt(t, key, p)
    decreases |t|
  {
    if |t| >= |key| {
      if t[..|key|] == key {
        assert OccursAt(t, key, 0);
      } else if |t| > 0 {
        ContainsIff(t[1..], key);
        if Contains(t[1..], key) {
          var p :| OccursAt(t[1..], key, p);
          OccursShift(t, key, p);
        }
        if p :| OccursAt(t, key, p) {
          OccursUnshift(t, key, p);
        }
      }
    }
  }

  lemma OccursShift(t: string, key: string, p: int)
    requires |t| > 0 && OccursAt(t[1..], key, p)
    ensures OccursAt(t, key, p + 1)
  {
    assert t[p + 1..p + 1 + |key|] == t[1..][p..p + |key|];
  }

  lemma OccursUnshift(t: string, key: string, p: int)
    requires |t| >= |key| && t[..|key|] != key && OccursAt(t, key, p)
    ensures p != 0 && OccursAt(t[1..], key, p - 1)
  {
    assert p != 0;
    assert t[1..][p - 1..p - 1 + |key|] == t[p..p + |key|];
  }

  /** `t` begins with `key`, a dash and at least one digit. */
  predicate NumberedAt(key: string, t: string) {
    |t| > |key| + 1 && t[..|key|] == key && t[|key|] == '-' && IsDigit(t[|key| + 1])
  }

  /** The longest prefix of `t` made of digits (what a greedy `\d+` captures). */
  function LeadingDigits(t: string): (d: string)
    ensures AllDigits(d) && d <= t
    ensures |d| < |t| ==> !IsDigit(t[|d|])
    decreases |t|
  {
    if t != [] && IsDigit(t[0]) then [t[0]] + LeadingDigits(t[1..]) else []
  }

  /**
   * What `preg_match("/$key-(\d+)/", $t, $match)` captures in `$match[1]`,
   * as a number: the digits after the leftmost `key-` followed by a digit.
   */
  function FindNumbered(key: string, t: string): (r: Option<nat>)
    ensures r.Some? ==> |t| >= |key| + 2
    ensures r.Some? ==> Contains(t, key)
    ensures NumberedAt(key, t) ==> r.Some?
    decreases |t|
  {
    if NumberedAt(key, t) then Some(DigitsValue(LeadingDigits(t[|key| + 1..])))
    else if t == [] then None
    else FindNumbered(key, t[1..])
  }

  /** A numeral never matches: the pattern needs a dash. */
  lemma {:induction false} FindNumberedDigits(key: string, t: string)
    requires AllDigits(t)
    ensures FindNumbered(key, t) == None
    decreases |t|
  {
    if t != [] {
      assert !NumberedAt(key, t) by {
        if |t| > |key| + 1 {
          assert IsDigit(t[|key|]);
        }
      }
      FindNumberedDigits(key, t[1..]);
    }
  }
}
