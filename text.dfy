/**
 * The few Python string operations the validators use (str.strip, str.lower, str.replace(c, ''),
 * the regex classes \d and \s), over ASCII: Unicode digits, Unicode white space and Unicode case
 * mapping are not modelled.
 */
module Text {
  import opened Wrappers

  /** Python's str.isspace() (and the regex class \s) on ASCII: tab .. carriage return, 0x1c .. 0x1f and space. */
  predicate IsSpace(c: char) {
    9 <= c as int <= 13 || 28 <= c as int <= 32
  }

  /** The regex class \d on ASCII. */
  predicate IsDigit(c: char) {
    '0' <= c <= '9'
  }

  predicate AllDigits(s: string) {
    forall i :: 0 <= i < |s| ==> IsDigit(s[i])
  }

  /** Number of decimal digits in s. */
  function DigitCount(s: string): (n: nat)
    ensures n <= |s|
    ensures AllDigits(s) ==> n == |s|
  {
    if s == [] then 0 else (if IsDigit(s[0]) then 1 else 0) + DigitCount(s[1..])
  }

  function StripLeft(s: string): (r: string)
    ensures |r| <= |s| && r == s[|s| - |r|..]
    ensures r == [] || !IsSpace(r[0])
    ensures forall i :: 0 <= i < |s| - |r| ==> IsSpace(s[i])
  {
    if s != [] && IsSpace(s[0]) then StripLeft(s[1..]) else s
  }

  function StripRight(s: string): (r: string)
    ensures |r| <= |s| && r == s[..|r|]
    ensures r == [] || !IsSpace(r[|r| - 1])
    ensures forall i :: |r| <= i < |s| ==> IsSpace(s[i])
  {
    if s != [] && IsSpace(s[|s| - 1]) then StripRight(s[..|s| - 1]) else s
  }

  /** Python's str.strip() with no argument: the slice of s between its leading and trailing white space. */
  function Strip(s: string): (r: string)
    ensures |r| <= |s|
    ensures r == [] || (!IsSpace(r[0]) && !IsSpace(r[|r| - 1]))
    ensures var off := |s| - |StripLeft(s)|; off + |r| <= |s| && r == s[off..off + |r|]
  {
    StripRight(StripLeft(s))
  }

  /** A string that starts and ends with a non-space character is its own strip. */
  lemma StripOfTrimmed(s: string)
    requires s == [] || (!IsSpace(s[0]) && !IsSpace(s[|s| - 1]))
    ensures Strip(s) == s
  {
  }

  /** Stripping twice is stripping once. */
  lemma StripIdempotent(s: string)
    ensures Strip(Strip(s)) == Strip(s)
  {
    StripOfTrimmed(Strip(s));
  }

  function LowerChar(c: char): (d: char)
    ensures !('A' <= d <= 'Z')
    ensures IsSpace(c) <==> IsSpace(d)
  {
    if 'A' <= c <= 'Z' then (c as int + 32) as char else c
  }

  /** Python's str.lower() on ASCII letters. */
  function Lower(s: string): (r: string)
    ensures |r| == |s|
    ensures forall i :: 0 <= i < |s| ==> r[i] == LowerChar(s[i])
  {
    seq(|s|, i requires 0 <= i < |s| => LowerChar(s[i]))
  }

  /** A string whose characters are all fixed by LowerChar is unchanged by Lower. */
  lemma LowerOfLowered(s: string)
    requires forall c :: c in s ==> LowerChar(c) == c
    ensures Lower(s) == s
  {
    assert forall i :: 0 <= i < |s| ==> s[i] in s;
  }

  /** Python's s.replace(c, '') for a single character c. */
  function Remove(s: string, c: char): (r: string)
    ensures |r| <= |s|
    ensures forall x :: x in r <==> x in s && x != c
  {
    if s == [] then [] else (if s[0] == c then [] else [s[0]]) + Remove(s[1..], c)
  }

  lemma {:induction false} RemoveAbsent(s: string, c: char)
    requires c !in s
    ensures Remove(s, c) == s
  {
    if s != [] {
      assert s[0] != c;
      RemoveAbsent(s[1..], c);
      assert s == [s[0]] + s[1..];
    }
  }

  lemma {:induction false} RemoveConcat(a: string, b: string, c: char)
    ensures Remove(a + b, c) == Remove(a, c) + Remove(b, c)
  {
    if a == [] {
      assert a + b == b;
    } else {
      assert (a + b)[0] == a[0];
      assert (a + b)[1..] == a[1..] + b;
      RemoveConcat(a[1..], b, c);
    }
  }

  /** Removing characters never removes a digit. */
  lemma {:induction false} RemoveKeepsDigits(s: string, c: char)
    requires !IsDigit(c)
    ensures DigitCount(Remove(s, c)) == DigitCount(s)
  {
    if s != [] {
      RemoveKeepsDigits(s[1..], c);
      var head := if s[0] == c then [] else [s[0]];
      var r := head + Remove(s[1..], c);
      if head == [] {
        assert r == Remove(s[1..], c);
      } else {
        assert r[0] == s[0];
        assert r[1..] == Remove(s[1..], c);
      }
    }
  }

  /** Removing a character other than the last one keeps the last one last. */
  lemma RemoveKeepsLast(s: string, c: char)
    requires s != [] && s[|s| - 1] != c
    ensures var r := Remove(s, c); r != [] && r[|r| - 1] == s[|s| - 1]
  {
    var last := s[|s| - 1];
    assert s == s[..|s| - 1] + [last];
    RemoveConcat(s[..|s| - 1], [last], c);
    RemoveAbsent([last], c);
  }

  /** The value of one decimal digit. */
  function DigitValue(c: char): (d: nat)
    requires IsDigit(c)
    ensures d < 10
  {
    c as int - '0' as int
  }

  /** The digit that stands for d. */
  function Digit(d: nat): (c: char)
    requires d < 10
    ensures IsDigit(c) && DigitValue(c) == d
  {
    ('0' as int + d) as char
  }

  /** The number a string of decimal digits denotes (leading zeros allowed). */
  function DigitsValue(s: string): (n: nat)
    requires AllDigits(s)
  {
    if s == [] then 0 else DigitsValue(s[..|s| - 1]) * 10 + DigitValue(s[|s| - 1])
  }

  /** The decimal representation of n, without leading zeros. */
  function Decimal(n: nat): (s: string)
    ensures s != [] && AllDigits(s) && DigitsValue(s) == n
    ensures n > 0 ==> s[0] != '0'
    decreases n
  {
    if n < 10 then [Digit(n)]
    else
      var init := Decimal(n / 10);
      var s := init + [Digit(n % 10)];
      assert s[..|s| - 1] == init;
      s
  }

  /** The decimal representation of i, with a leading '-' for a negative number (Python's str(i)). */
  function Show(i: int): (s: string)
    ensures s != [] && !IsSpace(s[0]) && !IsSpace(s[|s| - 1])
  {
    if i < 0 then "-" + Decimal(-i) else Decimal(i)
  }

  /**
   * The digits of a Python integer literal body: digits, where single underscores may separate
   * two digits.
   */
  predicate Grouped(s: string) {
    s != [] && IsDigit(s[0]) && IsDigit(s[|s| - 1]) &&
    (forall i :: 0 <= i < |s| ==> IsDigit(s[i]) || s[i] == '_') &&
    (forall i :: 0 <= i < |s| - 1 ==> s[i] == '_' ==> s[i + 1] != '_')
  }

  /** A plain run of digits is its own stripped, grouped, underscore-free literal body. */
  lemma PlainDigits(s: string)
    requires AllDigits(s) && s != []
    ensures Strip(s) == s && Grouped(s) && Remove(s, '_') == s
  {
    StripOfTrimmed(s);
    RemoveAbsent(s, '_');
  }

  /** Python's int(s) on a str: surrounding white space, an optional sign, grouped digits; None is the ValueError. */
  function ParseInt(s: string): (r: Option<int>)
    ensures AllDigits(s) && s != [] ==> r == Some(DigitsValue(s))
    ensures r.Some? ==> Strip(s) != [] && (r.value < 0 ==> Strip(s)[0] == '-')
  {
    var t := Strip(s);
    if t == [] then None
    else
      var body := if t[0] == '-' || t[0] == '+' then t[1..] else t;
      if !Grouped(body) then None
      else
        var digits := Remove(body, '_');
        assert AllDigits(digits) by {
          forall i | 0 <= i < |digits| ensures IsDigit(digits[i]) {
            assert digits[i] in digits;
          }
        }
        assert AllDigits(s) && s != [] ==> t == s && body == s && digits == s by {
          if AllDigits(s) && s != [] {
            PlainDigits(s);
          }
        }
        var n: int := DigitsValue(digits);
        Some(if t[0] == '-' then -n else n)
  }

  /** int(str(i)) == i. */
  lemma ParseShow(i: int)
    ensures ParseInt(Show(i)) == Some(i)
  {
    if i < 0 {
      var d := Decimal(-i);
      var s := Show(i);
      StripOfTrimmed(s);
      PlainDigits(d);
      assert s[0] == '-' && s[1..] == d;
    }
  }
}
