/**
 * The three Java library string operations the client depends on:
 * `String.trim`, `Integer.parseInt` (radix 10) and `Integer.toString` /
 * `Long.toString`, with Java's 32-bit `int` and 64-bit `long` ranges.
 */
module JavaText {
  import opened Basics

  const INT_MIN: int := -0x8000_0000
  const INT_MAX: int := 0x7FFF_FFFF

  predicate IsInt32(v: int) { INT_MIN <= v <= INT_MAX }

  /** Java's `long`. */
  type int64 = x: int | -0x8000_0000_0000_0000 <= x < 0x8000_0000_0000_0000

  // ---------------------------------------------------------------------------
  // String.trim
  // ---------------------------------------------------------------------------

  /** `String.trim` removes every character whose code is at most U+0020. */
  predicate IsTrimmable(c: char) { c <= ' ' }

  /** The index of the first character `trim` keeps, or `|s|` when it keeps none. */
  function TrimStart(s: string): (i: nat)
    ensures i <= |s|
    ensures forall k :: 0 <= k < i ==> IsTrimmable(s[k])
    ensures i < |s| ==> !IsTrimmable(s[i])
  {
    if s == [] || !IsTrimmable(s[0]) then 0 else 1 + TrimStart(s[1..])
  }

  /** One past the index of the last character `trim` keeps, but never below `lo`. */
  function TrimEnd(s: string, lo: nat): (j: nat)
    requires lo <= |s|
    ensures lo <= j <= |s|
    ensures forall k :: j <= k < |s| ==> IsTrimmable(s[k])
    ensures j > lo ==> !IsTrimmable(s[j - 1])
    decreases |s|
  {
    if |s| == lo || !IsTrimmable(s[|s| - 1]) then |s| else TrimEnd(s[..|s| - 1], lo)
  }

  /**
   * `s.trim()`: `s` without its leading and trailing characters up to U+0020.
   * The result is a slice of `s` whose dropped ends consist of such characters
   * only, and which neither starts nor ends with one.
   */
  function Trim(s: string): (r: string)
    ensures exists i, j :: 0 <= i <= j <= |s| && r == s[i..j] && IsTrimmedSlice(s, i, j)
  {
    var i := TrimStart(s);
    var j := TrimEnd(s, i);
    assert IsTrimmedSlice(s, i, j);
    s[i..j]
  }

  /** `s[i..j]` is what trimming `s` leaves: the ends dropped are blanks, the ends kept are not. */
  predicate IsTrimmedSlice(s: string, i: int, j: int)
    requires 0 <= i <= j <= |s|
  {
    && (forall k :: 0 <= k < i ==> IsTrimmable(s[k]))
    && (forall k :: j <= k < |s| ==> IsTrimmable(s[k]))
    && (i < j ==> !IsTrimmable(s[i]) && !IsTrimmable(s[j - 1]))
  }

  /** There is only one such slice, so `Trim` is fully determined by its contract. */
  lemma TrimUnique(s: string, i: int, j: int)
    requires 0 <= i <= j <= |s| && IsTrimmedSlice(s, i, j)
    ensures s[i..j] == Trim(s)
  {
    var i0 := TrimStart(s);
    var j0 := TrimEnd(s, i0);
    if i < j {
      assert i0 == i;
      assert j0 == j;
    } else {
      assert forall k :: 0 <= k < |s| ==> IsTrimmable(s[k]);
      assert i0 == |s|;
    }
  }

  /** Trailing blanks, such as a line separator, make no difference to `trim`. */
  lemma TrimIgnoresTrailingBlanks(s: string, blanks: string)
    requires forall k :: 0 <= k < |blanks| ==> IsTrimmable(blanks[k])
    ensures Trim(s + blanks) == Trim(s)
  {
    var t := s + blanks;
    var i := TrimStart(s);
    var j := TrimEnd(s, i);
    forall k | 0 <= k < |t| ensures (k < |s| ==> t[k] == s[k]) && (k >= |s| ==> IsTrimmable(t[k])) {
      if k >= |s| { assert t[k] == blanks[k - |s|]; }
    }
    assert forall k :: 0 <= k < i ==> IsTrimmable(t[k]) by {
      forall k | 0 <= k < i ensures IsTrimmable(t[k]) { assert t[k] == s[k]; }
    }
    assert forall k :: j <= k < |t| ==> IsTrimmable(t[k]) by {
      forall k | j <= k < |t| ensures IsTrimmable(t[k]) {
        if k < |s| { assert t[k] == s[k]; }
      }
    }
    assert i < j ==> t[i] == s[i] && t[j - 1] == s[j - 1];
    assert IsTrimmedSlice(t, i, j);
    assert t[i..j] == s[i..j];
    TrimUnique(t, i, j);
  }

  /** A string with no blank at either end is its own trim. */
  lemma TrimOfTrimmed(s: string)
    requires s != [] ==> !IsTrimmable(s[0]) && !IsTrimmable(s[|s| - 1])
    ensures Trim(s) == s
  {
    assert s[0..|s|] == s;
    TrimUnique(s, 0, |s|);
  }

  // ---------------------------------------------------------------------------
  // Integer.parseInt and Integer.toString
  // ---------------------------------------------------------------------------

  predicate IsDigit(c: char) { '0' <= c <= '9' }

  predicate AllDigits(s: string) { forall k :: 0 <= k < |s| ==> IsDigit(s[k]) }

  /** The number a string of decimal digits denotes, most significant digit first. */
  function DigitsValue(ds: string): nat
    requires AllDigits(ds)
    decreases |ds|
  {
    if ds == [] then 0 else DigitsValue(ds[..|ds| - 1]) * 10 + (ds[|ds| - 1] as int - '0' as int)
  }

  /** `s` without one leading sign character. */
  function Unsigned(s: string): string {
    if s != [] && (s[0] == '-' || s[0] == '+') then s[1..] else s
  }

  /** The value a sign and a string of digits denote: the digits' value, negated after a `-`. */
  function SignedValue(s: string): int
    requires AllDigits(Unsigned(s))
  {
    if s != [] && s[0] == '-' then -(DigitsValue(Unsigned(s)) as int) else DigitsValue(Unsigned(s))
  }

  /**
   * `Integer.parseInt(s)`: an optional `-` or `+`, then at least one digit, and
   * the value must lie in the 32-bit range; anything else is a
   * `NumberFormatException`, here `None`.
   */
  function ParseInt(s: string): (r: Option<int>)
    ensures r.Some? ==> IsInt32(r.value)
    ensures r.Some? ==> |s| > 0 && AllDigits(s[1..]) && (IsDigit(s[0]) || (|s| > 1 && s[0] in "+-"))
    ensures r == (if Unsigned(s) != [] && AllDigits(Unsigned(s)) && IsInt32(SignedValue(s))
                  then Some(SignedValue(s)) else None)
  {
    if s == [] then None
    else
      var digits := if s[0] == '-' || s[0] == '+' then s[1..] else s;
      if digits == [] || !AllDigits(digits) then None
      else
        var v: int := if s[0] == '-' then -(DigitsValue(digits) as int) else DigitsValue(digits);
        if IsInt32(v) then Some(v) else None
  }

  function DigitChar(d: int): char
    requires 0 <= d < 10
  {
    ('0' as int + d) as char
  }

  /** The decimal digits of a natural number, without leading zeros. */
  function NatToString(n: nat): (r: string)
    ensures |r| > 0 && AllDigits(r)
    decreases n
  {
    if n < 10 then [DigitChar(n)] else NatToString(n / 10) + [DigitChar(n % 10)]
  }

  /** `Integer.toString(v)` and `Long.toString(v)`: a `-` for negative values, then the digits. */
  function IntToString(v: int): (r: string)
    ensures |r| > 0 && (r[0] == '-' <==> v < 0)
    ensures v < 0 ==> |r| > 1 && AllDigits(r[1..])
    ensures v >= 0 ==> AllDigits(r)
  {
    if v < 0 then "-" + NatToString(-v) else NatToString(v)
  }

  lemma {:induction false} NatToStringValue(n: nat)
    ensures DigitsValue(NatToString(n)) == n
    decreases n
  {
    if n >= 10 {
      var s := NatToString(n);
      NatToStringValue(n / 10);
      assert s[..|s| - 1] == NatToString(n / 10);
    }
  }

  /** `parseInt` reads back every 32-bit value that `toString` writes. */
  lemma ParseIntToString(v: int)
    requires IsInt32(v)
    ensures ParseInt(IntToString(v)) == Some(v)
  {
    var s := IntToString(v);
    if v < 0 {
      var ds := NatToString(-v);
      NatToStringValue(-v);
      assert s == "-" + ds && s[0] == '-' && s[1..] == ds;
      assert ds != [] && AllDigits(ds) && DigitsValue(ds) == -v;
    } else {
      var ds := NatToString(v);
      NatToStringValue(v);
      assert s == ds && IsDigit(s[0]) && s[0] != '-' && s[0] != '+';
      assert AllDigits(ds) && DigitsValue(ds) == v;
    }
  }

  /**
   * Every optional sign followed by at least one digit, with a value in the
   * 32-bit range, is accepted; the result is the digits' value, negated after
   * a `-`. Leading zeros are allowed (`"+007"` reads as 7).
   */
  lemma ParseIntAccepts(sign: string, ds: string)
    requires sign == "" || sign == "+" || sign == "-"
    requires ds != [] && AllDigits(ds)
    requires IsInt32(if sign == "-" then -(DigitsValue(ds) as int) else DigitsValue(ds))
    ensures ParseInt(sign + ds) == Some(if sign == "-" then -(DigitsValue(ds) as int) else DigitsValue(ds))
  {
    var s := sign + ds;
    if sign == "" {
      assert s == ds && IsDigit(s[0]);
    } else {
      assert s[0] == sign[0] && s[1..] == ds;
    }
    assert Unsigned(s) == ds;
  }

  /** `parseInt` accepts no blank anywhere, so for a padded number the `trim` is what makes it parse. */
  lemma ParseIntRejectsBlanks(s: string, k: int)
    requires 0 <= k < |s| && IsTrimmable(s[k])
    ensures ParseInt(s) == None
  {
  }

  /** A `toString` result starts and ends with a non-blank, so `trim` leaves it alone. */
  lemma TrimOfIntToString(v: int)
    ensures Trim(IntToString(v)) == IntToString(v)
  {
    TrimOfTrimmed(IntToString(v));
  }
}
