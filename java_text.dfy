/** The three pieces of the Java class library the harness relies on for text:
    `String.indexOf(char)`, `new Integer(String)` (that is, `Integer.parseInt(s, 10)`)
    and `String.replace(target, "")`. */
module JavaText {
  import opened Results

  const MIN_INT: int := -0x8000_0000
  const MAX_INT: int := 0x7FFF_FFFF

  /** `s.indexOf(c)`: the position of the first `c` in `s`, or -1 when there is none. */
  function IndexOf(s: string, c: char): (r: int)
    ensures -1 <= r < |s|
    ensures r == -1 <==> c !in s
    ensures 0 <= r ==> s[r] == c && c !in s[..r]
  {
    if s == [] then -1
    else if s[0] == c then 0
    else
      var k := IndexOf(s[1..], c);
      assert 0 <= k ==> s[..k + 1] == [s[0]] + s[1..][..k];
      if k == -1 then -1 else k + 1
  }

  // ---------------------------------------------------------------------------
  // Integer(String)

  predicate IsDigit(c: char) {
    '0' <= c <= '9'
  }

  predicate AllDigits(s: string) {
    forall i :: 0 <= i < |s| ==> IsDigit(s[i])
  }

  /** The value of a string of decimal digits, most significant first. */
  function DigitsValue(s: string): nat
    requires AllDigits(s)
  {
    if s == [] then 0 else DigitsValue(s[..|s| - 1]) * 10 + (s[|s| - 1] as int - '0' as int)
  }

  /** `new Integer(s)`: an optional sign followed by at least one decimal digit, whose
      value must fit in 32 bits; anything else is a `NumberFormatException`. */
  function ParseInt(s: string): (r: Result<int>)
    ensures r.Success? ==> MIN_INT <= r.value <= MAX_INT
    ensures r.Success? ==> 0 < |s| && (s[0] == '-' || s[0] == '+' || IsDigit(s[0])) && AllDigits(s[1..])
    ensures r.Success? ==> IsDigit(s[0]) || 1 < |s|  // a lone sign is not a number
    ensures r.Failure? ==> r.error == NumberFormatError(s)
  {
    if s == [] then Failure(NumberFormatError(s))
    else
      var signed := s[0] == '-' || s[0] == '+';
      var digits := if signed then s[1..] else s;
      if digits == [] || !AllDigits(digits) then Failure(NumberFormatError(s))
      else
        var magnitude: int := DigitsValue(digits);
        var v := if s[0] == '-' then -magnitude else magnitude;
        if MIN_INT <= v <= MAX_INT then Success(v) else Failure(NumberFormatError(s))
  }

  /** `Integer.toString(n)` for a non-negative `n`: the canonical decimal digits. */
  function Decimal(n: nat): string
  {
    if n < 10 then ['0' + n as char] else Decimal(n / 10) + ['0' + (n % 10) as char]
  }

  lemma {:induction false} DecimalDigits(n: nat)
    ensures 0 < |Decimal(n)| && AllDigits(Decimal(n)) && DigitsValue(Decimal(n)) == n
  {
    if n >= 10 {
      DecimalDigits(n / 10);
      var s := Decimal(n);
      assert s[..|s| - 1] == Decimal(n / 10);
    }
  }

  /** Parsing the decimal digits of a 32-bit non-negative number gives the number back. */
  lemma ParseDecimal(n: nat)
    requires n <= MAX_INT
    ensures ParseInt(Decimal(n)) == Success(n)
  {
    DecimalDigits(n);
  }

  /** With a leading minus sign, the same digits parse to the negated number, down to `MIN_INT`. */
  lemma ParseNegativeDecimal(n: nat)
    requires n <= -MIN_INT
    ensures ParseInt("-" + Decimal(n)) == Success(-(n as int))
  {
    DecimalDigits(n);
    assert ("-" + Decimal(n))[1..] == Decimal(n);
  }

  /** Every signed or unsigned digit string: the parse gives the digits' value, negated under
      a minus sign, when that lies in the 32-bit range, and a number-format error otherwise.
      Leading zeros and a plus sign are accepted, as `"+050"` and `"-0"`. */
  lemma ParseDigits(d: string)
    requires 0 < |d| && AllDigits(d)
    ensures ParseInt(d) ==
      if DigitsValue(d) <= MAX_INT then Success(DigitsValue(d)) else Failure(NumberFormatError(d))
    ensures ParseInt("+" + d) ==
      if DigitsValue(d) <= MAX_INT then Success(DigitsValue(d)) else Failure(NumberFormatError("+" + d))
    ensures ParseInt("-" + d) ==
      if DigitsValue(d) <= -MIN_INT then Success(-(DigitsValue(d) as int))
      else Failure(NumberFormatError("-" + d))
  {
    ParseUnsigned(d);
    var plus, minus := "+" + d, "-" + d;
    assert plus[0] == '+' && plus[1..] == d;
    ParseSigned(plus);
    assert minus[0] == '-' && minus[1..] == d;
    ParseSigned(minus);
  }

  /** Digits alone: their value, if in range. */
  lemma ParseUnsigned(d: string)
    requires 0 < |d| && AllDigits(d)
    ensures ParseInt(d) ==
      if DigitsValue(d) <= MAX_INT then Success(DigitsValue(d)) else Failure(NumberFormatError(d))
  {
    assert IsDigit(d[0]);
  }

  /** A sign followed by digits: the digits' value, negated under a minus sign, if in range. */
  lemma ParseSigned(s: string)
    requires 1 < |s| && (s[0] == '+' || s[0] == '-') && AllDigits(s[1..])
    ensures ParseInt(s) ==
      var v := if s[0] == '-' then -(DigitsValue(s[1..]) as int) else DigitsValue(s[1..]);
      if MIN_INT <= v <= MAX_INT then Success(v) else Failure(NumberFormatError(s))
  {
  }

  /** Out of range is out: every decimal above `MAX_INT`, and every negated decimal below
      `MIN_INT`, is rejected although the text is well formed. */
  lemma ParseOverflow(n: nat)
    requires n > MAX_INT
    ensures ParseInt(Decimal(n)).Failure?
    ensures n > -MIN_INT ==> ParseInt("-" + Decimal(n)).Failure?
  {
    DecimalDigits(n);
    assert ("-" + Decimal(n))[1..] == Decimal(n);
  }

  // ---------------------------------------------------------------------------
  // String.replace(target, "")

  /** `pat` occurs in `s` starting at position `i`. */
  predicate OccursAt(pat: string, s: string, i: int) {
    0 <= i && i + |pat| <= |s| && s[i..i + |pat|] == pat
  }

  /** `pat` occurs somewhere in `s`. */
  predicate Occurs(pat: string, s: string) {
    exists i | 0 <= i <= |s| :: OccursAt(pat, s, i)
  }

  /** `s.replace(pat, "")`: scanning left to right, every occurrence of `pat` that does not
      overlap an occurrence already deleted is deleted. The scan does not look again at
      what the deletion joins together. */
  function DeleteAll(s: string, pat: string): (r: string)
    requires 0 < |pat|
    ensures |r| <= |s|
    decreases |s|
  {
    if |s| < |pat| then s
    else if s[..|pat|] == pat then DeleteAll(s[|pat|..], pat)
    else [s[0]] + DeleteAll(s[1..], pat)
  }

  lemma {:induction false} OccursInTail(pat: string, s: string)
    requires 0 < |s| && Occurs(pat, s) && !(|pat| <= |s| && s[..|pat|] == pat)
    ensures Occurs(pat, s[1..])
  {
    var i :| 0 <= i <= |s| && OccursAt(pat, s, i);
    assert OccursAt(pat, s, i);
    assert i != 0;
    assert s[1..][i - 1..i - 1 + |pat|] == s[i..i + |pat|];
    assert OccursAt(pat, s[1..], i - 1);
  }

  /** The deletion leaves `s` as it is exactly when `pat` does not occur in it. */
  lemma {:induction false} DeleteAllUnchanged(s: string, pat: string)
    requires 0 < |pat|
    ensures DeleteAll(s, pat) == s <==> !Occurs(pat, s)
    decreases |s|
  {
    if |s| < |pat| {
      assert !Occurs(pat, s);
    } else if s[..|pat|] == pat {
      assert |DeleteAll(s, pat)| < |s|;
      assert OccursAt(pat, s, 0);
    } else {
      DeleteAllUnchanged(s[1..], pat);
      if Occurs(pat, s) {
        OccursInTail(pat, s);
      } else {
        if Occurs(pat, s[1..]) {
          var i :| 0 <= i <= |s[1..]| && OccursAt(pat, s[1..], i);
          assert OccursAt(pat, s[1..], i);
          assert s[i + 1..i + 1 + |pat|] == s[1..][i..i + |pat|];
          assert OccursAt(pat, s, i + 1);
        }
      }
    }
  }

  lemma OccursInWhole(pat: string, t: string)
    requires 0 < |t|
    ensures Occurs(pat, t[1..]) ==> Occurs(pat, t)
  {
    if Occurs(pat, t[1..]) {
      var i :| 0 <= i <= |t[1..]| && OccursAt(pat, t[1..], i);
      assert OccursAt(pat, t[1..], i);
      assert t[i + 1..i + 1 + |pat|] == t[1..][i..i + |pat|];
      assert OccursAt(pat, t, i + 1);
    }
  }

  /** The first occurrence met by the left-to-right scan is deleted and the scan resumes right
      after it: when no occurrence starts inside `x`, the `pat` that follows `x` goes. */
  lemma {:induction false} DeleteAllLeftmost(x: string, pat: string, y: string)
    requires 0 < |pat| && !Occurs(pat, x + pat[..|pat| - 1])
    ensures DeleteAll(x + pat + y, pat) == x + DeleteAll(y, pat)
    decreases |x|
  {
    var s := x + pat + y;
    if x == [] {
      assert s[..|pat|] == pat && s[|pat|..] == y;
    } else {
      var scanned := x + pat[..|pat| - 1];
      assert s[..|pat|] == scanned[..|pat|];
      assert !OccursAt(pat, scanned, 0);
      assert scanned[1..] == x[1..] + pat[..|pat| - 1];
      OccursInWhole(pat, scanned);
      DeleteAllLeftmost(x[1..], pat, y);
      assert s[1..] == x[1..] + pat + y;
      assert DeleteAll(s, pat) == [s[0]] + DeleteAll(s[1..], pat);
      assert x + DeleteAll(y, pat) == [x[0]] + (x[1..] + DeleteAll(y, pat));
    }
  }

  /** A prefix that cannot start an occurrence (it lacks `pat`'s first character) passes through. */
  lemma {:induction false} DeleteAllPrefix(p: string, s: string, pat: string)
    requires 0 < |pat| && pat[0] !in p
    ensures DeleteAll(p + s, pat) == p + DeleteAll(s, pat)
    decreases |p|
  {
    if p == [] {
      assert p + s == s;
    } else {
      assert pat[0] !in p[1..];
      DeleteAllPrefix(p[1..], s, pat);
      assert (p + s)[1..] == p[1..] + s;
      if |p + s| < |pat| {
        assert DeleteAll(s, pat) == s;
        assert DeleteAll(p[1..] + s, pat) == p[1..] + s;
      } else {
        assert (p + s)[..|pat|][0] != pat[0];
        assert DeleteAll(p + s, pat) == [p[0]] + DeleteAll(p[1..] + s, pat);
        assert p + DeleteAll(s, pat) == [p[0]] + (p[1..] + DeleteAll(s, pat));
      }
    }
  }

  /** An occurrence of `pat` cannot begin inside `b` and run into `t` when `t` starts with a
      character that `pat` does not contain. */
  lemma NoOccurrenceAcross(b: string, t: string, pat: string)
    requires |b| < |pat| <= |b + t| && 0 < |t| && t[0] !in pat
    ensures (b + t)[..|pat|] != pat
  {
    assert (b + t)[..|pat|][|b|] == t[0];
  }

  /** A suffix that cannot end an occurrence begun earlier (its first character is not in `pat`)
      and holds none of its own passes through. */
  lemma {:induction false} DeleteAllSuffix(b: string, t: string, pat: string)
    requires 0 < |pat| && 0 < |t| && t[0] !in pat && DeleteAll(t, pat) == t
    ensures DeleteAll(b + t, pat) == DeleteAll(b, pat) + t
    decreases |b|
  {
    if |b| < |pat| <= |b + t| {
      NoOccurrenceAcross(b, t, pat);
    }
    if b == [] {
      assert b + t == t;
    } else if |b + t| < |pat| {
      assert DeleteAll(b, pat) == b;
    } else if (b + t)[..|pat|] == pat {
      assert b[..|pat|] == pat;
      assert (b + t)[|pat|..] == b[|pat|..] + t;
      DeleteAllSuffix(b[|pat|..], t, pat);
    } else {
      assert (b + t)[1..] == b[1..] + t;
      DeleteAllSuffix(b[1..], t, pat);
      if |b| < |pat| {
        assert DeleteAll(b[1..], pat) == b[1..];
        assert DeleteAll(b, pat) == b;
      } else {
        assert b[..|pat|] == (b + t)[..|pat|];
      }
    }
  }

  /** Proof hint for `DeleteAllFramed`: regrouping a concatenation of three strings. */
  lemma Associative(a: string, b: string, c: string)
    ensures a + b + c == a + (b + c)
  {
  }

  /** A text framed by a prefix and a suffix that can take no part in an occurrence (the
      prefix lacks `pat`'s first character, the suffix starts outside `pat` and is shorter
      than it) has only its middle rewritten. */
  lemma DeleteAllFramed(pre: string, mid: string, post: string, pat: string)
    requires 0 < |pat| && pat[0] !in pre
    requires 0 < |post| < |pat| && post[0] !in pat
    ensures DeleteAll(pre + mid + post, pat) == pre + DeleteAll(mid, pat) + post
  {
    assert DeleteAll(post, pat) == post;
    DeleteAllSuffix(mid, post, pat);
    DeleteAllPrefix(pre, mid + post, pat);
    Associative(pre, mid, post);
    Associative(pre, DeleteAll(mid, pat), post);
  }
}
