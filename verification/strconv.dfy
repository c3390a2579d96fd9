/** Decimal rendering and parsing of integers, as Go's strconv.Itoa /
    fmt "%d" and strconv.Atoi (through ParseInt and ParseUint, base 10) do it. */
module Strconv {
  import opened Wrappers
  import opened GoInt

  predicate IsDigit(c: char) {
    '0' <= c <= '9'
  }

  predicate AllDigits(s: string) {
    forall i :: 0 <= i < |s| ==> IsDigit(s[i])
  }

  /** The numeric value of a decimal digit character (0 for anything else). */
  function DigitValue(c: char): (d: nat)
    ensures d < 10
  {
    if IsDigit(c) then (c as int) - ('0' as int) else 0
  }

  function DigitChar(d: nat): (c: char)
    requires d < 10
    ensures IsDigit(c) && DigitValue(c) == d
  {
    ('0' as int + d) as char
  }

  /** The value of the decimal digits s[i..], read left to right starting from
      the accumulated value `acc`: the reference meaning of a digit string. */
  function ValueFrom(s: string, i: nat, acc: nat): nat
    requires i <= |s|
    decreases |s| - i
  {
    if i == |s| then acc else ValueFrom(s, i + 1, acc * 10 + DigitValue(s[i]))
  }

  function Value(s: string): nat {
    ValueFrom(s, 0, 0)
  }

  /** fmt's "%d" of a non-negative integer: the shortest decimal rendering. */
  function FormatNat(n: nat): (r: string)
    ensures |r| >= 1 && AllDigits(r)
    ensures r[0] == '0' ==> n == 0 && r == "0"
    decreases n
  {
    if n < 10 then [DigitChar(n)] else FormatNat(n / 10) + [DigitChar(n % 10)]
  }

  /** strconv.Itoa / fmt's "%d" of any integer: a '-' sign for negative values
      followed by the digits of the magnitude, with no leading zero. */
  function Itoa(v: int): (r: string)
    ensures |r| >= 1
    ensures v >= 0 <==> IsDigit(r[0])
    ensures v >= 0 ==> AllDigits(r) && Value(r) == v
    ensures v < 0 ==> r[0] == '-' && |r| >= 2 && AllDigits(r[1..]) && Value(r[1..]) == -v
    ensures r[0] == '0' ==> v == 0 && r == "0"
    ensures v < 0 ==> r[1] != '0'
  {
    var mag: nat := if v < 0 then -v else v;
    ValueOfFormatNat(mag);
    if v < 0 then
      assert ("-" + FormatNat(mag))[1..] == FormatNat(mag);
      "-" + FormatNat(mag)
    else FormatNat(mag)
  }

  /** The error kinds of strconv.NumError. */
  datatype NumError = ErrSyntax | ErrRange

  /** A Go `(value, err)` pair returned by the strconv parsers. */
  datatype Parsed = Parsed(value: int, err: Option<NumError>)

  const MaxUint64: nat := Two64 - 1
  /** ParseUint's overflow threshold for base 10: maxUint64/10 + 1. */
  const Cutoff10: nat := MaxUint64 / 10 + 1

  /** The digit loop of strconv.ParseUint in base 10, from position `i` with
      accumulated value `n`: a non-digit is a syntax error, and an overflow past
      `maxVal` returns `maxVal` with a range error at once, without looking at
      the rest of the text. */
  function ParseUintFrom(s: string, i: nat, n: nat, maxVal: nat): (r: Parsed)
    requires i <= |s|
    requires maxVal <= MaxUint64
    requires n <= maxVal
    ensures 0 <= r.value <= maxVal
    ensures r.err == Some(ErrSyntax) ==> r.value == 0
    ensures r.err == Some(ErrRange) ==> r.value == maxVal
    ensures r.err == None ==> AllDigits(s[i..]) && r.value == ValueFrom(s, i, n)
    decreases |s| - i
  {
    if i == |s| then Parsed(n, None)
    else if !IsDigit(s[i]) then Parsed(0, Some(ErrSyntax))
    else if n >= Cutoff10 then Parsed(maxVal, Some(ErrRange))
    else
      var n1 := n * 10 + DigitValue(s[i]);
      if n1 > maxVal then Parsed(maxVal, Some(ErrRange))
      else
        var r := ParseUintFrom(s, i + 1, n1, maxVal);
        assert r.err == None ==> AllDigits(s[i..]) by {
          if r.err == None {
            forall k | 0 <= k < |s[i..]| ensures IsDigit(s[i..][k]) {
              if k > 0 { assert s[i..][k] == s[i + 1..][k - 1]; }
            }
          }
        }
        r
  }

  /** strconv.ParseUint(s, 10, bits) with the bit size of `w`. Digits whose
      value fits give that value; digits that do not fit saturate with a
      range error; otherwise the first non-digit decides: a syntax error if
      the digits before it still fit, a range error if they had already
      overflowed (the loop stops at the overflow). */
  function ParseUint(w: Width, s: string): (r: Parsed)
    ensures 0 <= r.value <= w.MaxUint()
    ensures r.err == Some(ErrSyntax) ==> r.value == 0
    ensures r.err == Some(ErrRange) ==> r.value == w.MaxUint()
    ensures r.err == None ==> |s| >= 1 && AllDigits(s) && r.value == Value(s)
    ensures |s| == 0 ==> r == Parsed(0, Some(ErrSyntax))
    ensures |s| >= 1 && AllDigits(s) && Value(s) <= w.MaxUint() ==> r == Parsed(Value(s), None)
    ensures |s| >= 1 && AllDigits(s) && Value(s) > w.MaxUint() ==> r == Parsed(w.MaxUint(), Some(ErrRange))
    ensures forall j :: 0 <= j < |s| && !IsDigit(s[j]) && AllDigits(s[..j]) ==>
              r.err == Some(if Value(s[..j]) <= w.MaxUint() then ErrSyntax else ErrRange)
  {
    if |s| == 0 then Parsed(0, Some(ErrSyntax))
    else
      ParseUintMeaning(s, w.MaxUint());
      ParseUintFrom(s, 0, 0, w.MaxUint())
  }

  /** Text strconv.ParseInt accepts in base 10: an optional sign followed by
      one or more digits. */
  predicate IsIntegerText(s: string) {
    if |s| >= 1 && (s[0] == '+' || s[0] == '-') then |s| >= 2 && AllDigits(s[1..])
    else |s| >= 1 && AllDigits(s)
  }

  /** The text after an optional leading sign. */
  function Unsigned(s: string): (t: string)
    ensures |t| >= |s| - 1
  {
    if |s| >= 1 && (s[0] == '+' || s[0] == '-') then s[1..] else s
  }

  /** The number an integer text denotes: the value of its digits, negated
      after a '-'. */
  function SignedValue(s: string): int {
    if |s| >= 1 && s[0] == '-' then -(Value(s[1..]) as int) else Value(Unsigned(s))
  }

  /** The length of the run of digits that `s` starts with. */
  function DigitRun(s: string): (k: nat)
    ensures k <= |s| && AllDigits(s[..k])
    ensures k < |s| ==> !IsDigit(s[k])
  {
    if |s| == 0 || !IsDigit(s[0]) then 0
    else
      var k := 1 + DigitRun(s[1..]);
      assert forall i :: 1 <= i < k ==> s[..k][i] == s[1..][..k - 1][i - 1];
      k
  }

  /** The value of the digits a text starts with after an optional sign (0
      when there are none). */
  function LeadingValue(s: string): nat {
    var u := Unsigned(s);
    Value(u[..DigitRun(u)])
  }

  /** The reference meaning of strconv.ParseInt(s, 10, 0), read off the text
      rather than the digit loop. After an optional sign, the leading digits
      are taken as one number; if that number needs more than 64 bits the
      answer is the `int` bound on the side of the sign with a range error,
      even when a non-digit follows. Otherwise a non-digit (or no digit at
      all) is a syntax error with value 0, and an integer text gives its
      number, clamped with a range error when it does not fit `w`. */
  function IntReading(w: Width, s: string): Parsed {
    var u := Unsigned(s);
    var k := DigitRun(u);
    var clamped := Parsed(if |s| >= 1 && s[0] == '-' then w.MinInt() else w.MaxInt(), Some(ErrRange));
    if |u| == 0 then Parsed(0, Some(ErrSyntax))
    else if LeadingValue(s) > MaxUint64 then clamped
    else if k < |u| then Parsed(0, Some(ErrSyntax))
    else if InIntRange(w, SignedValue(s)) then Parsed(SignedValue(s), None)
    else clamped
  }

  /** strconv.ParseInt(s, 10, 0), which is also what strconv.Atoi returns.
      The digits after the sign are always read by ParseUint at 64 bits,
      whatever the platform; the result is then clamped to the `int` range.
      An integer text gives its number, or math.MaxInt / math.MinInt with a
      range error when the number does not fit; any other text is an
      error. */
  function ParseInt(w: Width, s: string): (r: Parsed)
    ensures InIntRange(w, r.value)
    ensures r.err == Some(ErrSyntax) ==> r.value == 0
    ensures r.err == Some(ErrRange) ==> r.value == (if |s| >= 1 && s[0] == '-' then w.MinInt() else w.MaxInt())
    ensures r.err == None ==> IsIntegerText(s) && r.value == SignedValue(s)
    ensures !IsIntegerText(s) ==> r.err.Some?
    ensures IsIntegerText(s) && InIntRange(w, SignedValue(s)) ==> r == Parsed(SignedValue(s), None)
    ensures IsIntegerText(s) && SignedValue(s) > w.MaxInt() ==> r == Parsed(w.MaxInt(), Some(ErrRange))
    ensures IsIntegerText(s) && SignedValue(s) < w.MinInt() ==> r == Parsed(w.MinInt(), Some(ErrRange))
    ensures !IsIntegerText(s) && LeadingValue(s) <= MaxUint64 ==> r == Parsed(0, Some(ErrSyntax))
    ensures LeadingValue(s) > MaxUint64 ==> r.err == Some(ErrRange)
    ensures r == IntReading(w, s)
  {
    var u := Unsigned(s);
    assert u[..|u|] == u;
    if |s| == 0 then Parsed(0, Some(ErrSyntax))
    else
      var neg := s[0] == '-';
      var u := ParseUint(W64, Unsigned(s));
      var cutoff := w.Modulus() / 2;
      match u.err
      case Some(ErrSyntax) => Parsed(0, Some(ErrSyntax))
      case Some(ErrRange) =>
        // ParseUint saturated at 2^64 - 1, which is above the cutoff
        // whatever the sign.
        if neg then Parsed(-cutoff, Some(ErrRange)) else Parsed(cutoff - 1, Some(ErrRange))
      case None =>
        if !neg && u.value >= cutoff then Parsed(cutoff - 1, Some(ErrRange))
        else if neg && u.value > cutoff then Parsed(-cutoff, Some(ErrRange))
        else Parsed(if neg then -u.value else u.value, None)
  }

  /** strconv.Atoi: the same `(value, err)` pair as ParseInt. Its fast path for
      short inputs computes the same pair and is not modelled separately. */
  function Atoi(w: Width, s: string): (r: Parsed)
    ensures InIntRange(w, r.value)
    ensures r.err == Some(ErrSyntax) ==> r.value == 0
    ensures r.err == None ==> IsIntegerText(s) && r.value == SignedValue(s)
    ensures !IsIntegerText(s) ==> r.err.Some?
    ensures IsIntegerText(s) && InIntRange(w, SignedValue(s)) ==> r == Parsed(SignedValue(s), None)
    ensures IsIntegerText(s) && SignedValue(s) > w.MaxInt() ==> r == Parsed(w.MaxInt(), Some(ErrRange))
    ensures r.err == Some(ErrRange) ==> r.value == (if |s| >= 1 && s[0] == '-' then w.MinInt() else w.MaxInt())
    ensures IsIntegerText(s) && SignedValue(s) < w.MinInt() ==> r == Parsed(w.MinInt(), Some(ErrRange))
    ensures !IsIntegerText(s) && LeadingValue(s) <= MaxUint64 ==> r == Parsed(0, Some(ErrSyntax))
    ensures LeadingValue(s) > MaxUint64 ==> r.err == Some(ErrRange)
    ensures r == IntReading(w, s)
  {
    ParseInt(w, s)
  }

  // ---------------------------------------------------------------------
  // What the digit loop computes.

  /** The digit loop from the start of a non-empty text, in terms of the
      value of its digits. */
  lemma ParseUintMeaning(s: string, maxVal: nat)
    requires |s| >= 1 && maxVal <= MaxUint64
    ensures AllDigits(s) && Value(s) <= maxVal ==> ParseUintFrom(s, 0, 0, maxVal) == Parsed(Value(s), None)
    ensures AllDigits(s) && Value(s) > maxVal ==> ParseUintFrom(s, 0, 0, maxVal) == Parsed(maxVal, Some(ErrRange))
    ensures forall j :: 0 <= j < |s| && !IsDigit(s[j]) && AllDigits(s[..j]) ==>
              ParseUintFrom(s, 0, 0, maxVal).err == Some(if Value(s[..j]) <= maxVal then ErrSyntax else ErrRange)
  {
    if AllDigits(s) {
      if Value(s) <= maxVal {
        assert s[0..] == s;
        ParseUintFromExact(s, 0, 0, maxVal);
      } else {
        ParseUintFromOverflow(s, 0, 0, maxVal);
      }
    }
    forall j | 0 <= j < |s| && !IsDigit(s[j]) && AllDigits(s[..j])
      ensures ParseUintFrom(s, 0, 0, maxVal).err == Some(if Value(s[..j]) <= maxVal then ErrSyntax else ErrRange)
    {
      assert forall k :: 0 <= k < j ==> s[..j][k] == s[k];
      ParseUintFromStop(s, 0, 0, j, maxVal);
    }
  }

  /** Digits whose value exceeds `maxVal` end the loop with a range error. */
  lemma {:induction false} ParseUintFromOverflow(s: string, i: nat, n: nat, maxVal: nat)
    requires i <= |s| && maxVal <= MaxUint64 && n <= maxVal
    requires forall k :: i <= k < |s| ==> IsDigit(s[k])
    requires ValueFrom(s, i, n) > maxVal
    ensures ParseUintFrom(s, i, n, maxVal) == Parsed(maxVal, Some(ErrRange))
    decreases |s| - i
  {
    var n1 := n * 10 + DigitValue(s[i]);
    if n < Cutoff10 && n1 <= maxVal {
      ParseUintFromOverflow(s, i + 1, n1, maxVal);
    }
  }

  /** The loop meets the non-digit at `j` with a syntax error, unless the
      digits before it had already overflowed. */
  lemma {:induction false} ParseUintFromStop(s: string, i: nat, n: nat, j: nat, maxVal: nat)
    requires i <= j < |s| && maxVal <= MaxUint64 && n <= maxVal
    requires forall k :: i <= k < j ==> IsDigit(s[k])
    requires !IsDigit(s[j])
    ensures ParseUintFrom(s, i, n, maxVal).err ==
              Some(if ValueFrom(s[..j], i, n) <= maxVal then ErrSyntax else ErrRange)
    decreases j - i
  {
    if i < j {
      assert s[..j][i] == s[i];
      var n1 := n * 10 + DigitValue(s[i]);
      ValueFromAtLeast(s[..j], i + 1, n1);
      if n < Cutoff10 && n1 <= maxVal {
        ParseUintFromStop(s, i + 1, n1, j, maxVal);
      }
    }
  }

  /** The digits are read at 64 bits on every platform: on a 32-bit one,
      ten digits too large for `int` followed by a letter are a syntax error
      with value 0, not a range error. */
  lemma WideDigitsThenLetter()
    ensures Atoi(W32, "5000000000x") == Parsed(0, Some(ErrSyntax))
  {
    var s := "5000000000x";
    assert !IsDigit(s[10]) && AllDigits(s[..10]);
    var t := s[..10];
    assert t == "5000000000";
    assert DigitValue('5') == 5 && DigitValue('0') == 0;
    assert ValueFrom(t, 10, 5000000000) == 5000000000;
    assert ValueFrom(t, 9, 500000000) == 5000000000;
    assert ValueFrom(t, 8, 50000000) == 5000000000;
    assert ValueFrom(t, 7, 5000000) == 5000000000;
    assert ValueFrom(t, 6, 500000) == 5000000000;
    assert ValueFrom(t, 5, 50000) == 5000000000;
    assert ValueFrom(t, 4, 5000) == 5000000000;
    assert ValueFrom(t, 3, 500) == 5000000000;
    assert ValueFrom(t, 2, 50) == 5000000000;
    assert ValueFrom(t, 1, 5) == 5000000000;
    assert Value(t) == 5000000000;
  }

  /** Digits that overflow 64 bits followed by a non-digit: the loop stops at
      the overflow, so the answer is math.MaxInt with a range error rather
      than a syntax error. */
  lemma OverflowThenLetter(w: Width, digits: string, c: char)
    requires AllDigits(digits) && Value(digits) > MaxUint64 && !IsDigit(c)
    ensures Atoi(w, digits + [c]) == Parsed(w.MaxInt(), Some(ErrRange))
  {
    var s := digits + [c];
    assert |digits| >= 1;
    assert IsDigit(s[0]) && Unsigned(s) == s;
    assert forall i :: 0 <= i < |digits| ==> IsDigit(s[i]);
    var k := DigitRun(s);
    assert !IsDigit(s[|digits|]);
    assert k == |digits|;
    assert s[..k] == digits;
  }

  // ---------------------------------------------------------------------
  // Round trip: parsing what Itoa renders gives the number back.

  lemma {:induction false} ValueFromSnoc(s: string, c: char, i: nat, acc: nat)
    requires i <= |s|
    ensures ValueFrom(s + [c], i, acc) == ValueFrom(s, i, acc) * 10 + DigitValue(c)
    decreases |s| - i
  {
    if i == |s| {
      assert (s + [c])[i] == c;
    } else {
      assert (s + [c])[i] == s[i];
      ValueFromSnoc(s, c, i + 1, acc * 10 + DigitValue(s[i]));
    }
  }

  lemma {:induction false} ValueOfFormatNat(n: nat)
    ensures Value(FormatNat(n)) == n
    decreases n
  {
    if n < 10 {
      assert ValueFrom(FormatNat(n), 1, DigitValue(FormatNat(n)[0])) == n;
    } else {
      ValueOfFormatNat(n / 10);
      ValueFromSnoc(FormatNat(n / 10), DigitChar(n % 10), 0, 0);
    }
  }

  lemma {:induction false} ValueFromAtLeast(s: string, i: nat, acc: nat)
    requires i <= |s|
    ensures ValueFrom(s, i, acc) >= acc
    decreases |s| - i
  {
    if i < |s| {
      ValueFromAtLeast(s, i + 1, acc * 10 + DigitValue(s[i]));
    }
  }

  /** The digit loop never stops early on digits whose value fits in `maxVal`. */
  lemma {:induction false} ParseUintFromExact(s: string, i: nat, n: nat, maxVal: nat)
    requires i <= |s| && maxVal <= MaxUint64 && n <= maxVal
    requires AllDigits(s[i..])
    requires ValueFrom(s, i, n) <= maxVal
    ensures ParseUintFrom(s, i, n, maxVal) == Parsed(ValueFrom(s, i, n), None)
    decreases |s| - i
  {
    if i < |s| {
      assert IsDigit(s[i..][0]);
      var n1 := n * 10 + DigitValue(s[i]);
      ValueFromAtLeast(s, i + 1, n1);
      assert s[i + 1..] == s[i..][1..];
      ParseUintFromExact(s, i + 1, n1, maxVal);
    }
  }

  /** Atoi(Itoa(v)) == v, with no error, for every `int` of the platform. */
  lemma AtoiItoa(w: Width, v: int)
    requires InIntRange(w, v)
    ensures Atoi(w, Itoa(v)) == Parsed(v, None)
  {
    var mag: nat := if v < 0 then -v else v;
    var digits := FormatNat(mag);
    ValueOfFormatNat(mag);
    assert digits[0] != '+' && digits[0] != '-' by { assert IsDigit(digits[0]); }
    assert digits[0..] == digits;
    ParseUintFromExact(digits, 0, 0, w.MaxUint());
    if v < 0 {
      assert Itoa(v)[1..] == digits;
    }
  }
}
