/** Unsigned numerals in base 10 and 16 as Go's strconv reads them
    (ParseUint, ParseInt) and as fmt's %x writes them. */
module Numerals {
  import opened Outcomes

  const MaxUint64: nat := 0xFFFF_FFFF_FFFF_FFFF
  const MinInt32: int := -0x8000_0000
  const MaxInt32: int := 0x7FFF_FFFF

  /** The value strconv gives a character as a digit: 0-9, then a/A = 10 up
      to z/Z = 35; anything else is 36, a digit in no base. */
  function DigitValue(c: char): (d: nat)
    ensures d <= 36
  {
    if '0' <= c <= '9' then c as int - '0' as int
    else if 'a' <= c <= 'z' then c as int - 'a' as int + 10
    else if 'A' <= c <= 'Z' then c as int - 'A' as int + 10
    else 36
  }

  predicate AllDigits(s: string, base: nat) {
    forall i :: 0 <= i < |s| ==> DigitValue(s[i]) < base
  }

  /** The value of a numeral, most significant digit first. */
  function Value(s: string, base: nat): nat {
    if s == [] then 0 else Value(s[..|s| - 1], base) * base + DigitValue(s[|s| - 1])
  }

  /** The lower-case digit character for d. */
  function DigitChar(d: nat): (c: char)
    requires d < 16
    ensures DigitValue(c) == d
  {
    "0123456789abcdef"[d]
  }

  /** The numeral of n in the given base without leading zeros, in lower
      case, as fmt's %d and %x print a non-negative integer. */
  function Format(n: nat, base: nat): (s: string)
    requires 2 <= base <= 16
    decreases n
  {
    if n < base then [DigitChar(n)] else Format(n / base, base) + [DigitChar(n % base)]
  }

  /** Reading back a formatted numeral gives the number, and every character
      of it is a digit of the base. */
  lemma {:induction false} ValueOfFormat(n: nat, base: nat)
    requires 2 <= base <= 16
    decreases n
    ensures Format(n, base) != [] && AllDigits(Format(n, base), base)
    ensures Value(Format(n, base), base) == n
  {
    if n >= base {
      var q, r := n / base, n % base;
      DivStep(n, base);
      var p := Format(q, base);
      ValueOfFormat(q, base);
      assert Format(n, base) == p + [DigitChar(r)];
      ValueSnoc(p, DigitChar(r), base);
      DigitsSnoc(p, DigitChar(r), base);
    }
  }

  lemma DigitsSnoc(s: string, c: char, base: nat)
    requires AllDigits(s, base) && DigitValue(c) < base
    ensures AllDigits(s + [c], base)
  {
    assert forall i :: 0 <= i < |s| ==> (s + [c])[i] == s[i];
  }

  lemma DivStep(n: nat, base: nat)
    requires 2 <= base <= n
    ensures n / base < n && n % base < base && (n / base) * base + n % base == n
  {
  }

  /** Appending a digit: the value shifts one place and adds the digit. */
  lemma ValueSnoc(s: string, c: char, base: nat)
    ensures Value(s + [c], base) == Value(s, base) * base + DigitValue(c)
  {
    assert (s + [c])[..|s|] == s;
  }

  /** A leading zero does not change the value of a numeral. */
  lemma {:induction false} LeadingZero(s: string, base: nat)
    ensures Value("0" + s, base) == Value(s, base)
  {
    if s != [] {
      var t := "0" + s;
      assert t[..|t| - 1] == "0" + s[..|s| - 1];
      LeadingZero(s[..|s| - 1], base);
    }
  }

  /** The number of decimal digits s starts with. */
  function DigitRun(s: string): (k: nat)
    ensures k <= |s|
    ensures forall i :: 0 <= i < k ==> DigitValue(s[i]) < 10
    ensures k < |s| ==> DigitValue(s[k]) >= 10
  {
    if s != [] && DigitValue(s[0]) < 10 then 1 + DigitRun(s[1..]) else 0
  }

  /** The digit loop of strconv.ParseUint in base 10 with 64 bits, from the
      value n read so far: a non-digit ends it with 0 (a syntax error), a
      digit that takes the value past 64 bits ends it with the largest
      64-bit value (a range error), and otherwise the digit is taken in. */
  function ScanDecimal(s: string, n: nat): (v: nat)
    requires n <= MaxUint64
    ensures v <= MaxUint64
  {
    if s == [] then n
    else if DigitValue(s[0]) >= 10 then 0
    else if n * 10 + DigitValue(s[0]) > MaxUint64 then MaxUint64
    else ScanDecimal(s[1..], n * 10 + DigitValue(s[0]))
  }

  /** strconv.ParseUint(s, 10, 64) with its error ignored, as the account-age
      helper uses it: the empty text is a syntax error and yields 0,
      otherwise the digit loop runs from 0. */
  function ParseUint64Lax(s: string): (v: nat)
    ensures v <= MaxUint64
    ensures s == [] ==> v == 0
  {
    if s == [] then 0 else ScanDecimal(s, 0)
  }

  /** Appending more digits never lowers the value of a decimal numeral. */
  lemma {:induction false} ValueOfPrefix(p: string, q: string)
    decreases |q|
    ensures Value(p, 10) <= Value(p + q, 10)
  {
    if q != [] {
      var q' := q[..|q| - 1];
      assert p + q == (p + q') + [q[|q| - 1]];
      ValueSnoc(p + q', q[|q| - 1], 10);
      ValueOfPrefix(p, q');
    } else {
      assert p + q == p;
    }
  }

  /** What the digit loop yields after the digits p: the largest 64-bit value
      when the leading digits of s take the value past 64 bits, else 0 when a
      non-digit follows them, else the value of the whole numeral. */
  lemma {:induction false} ScanDecimalValue(p: string, s: string)
    requires Value(p, 10) <= MaxUint64
    decreases |s|
    ensures var k := DigitRun(s);
            var lead := Value(p + s[..k], 10);
            ScanDecimal(s, Value(p, 10)) ==
              if lead > MaxUint64 then MaxUint64 else if k < |s| then 0 else lead
  {
    var k := DigitRun(s);
    if s == [] || DigitValue(s[0]) >= 10 {
      assert k == 0;
      EmptyPrefix(p, s);
    } else {
      var c := s[0];
      var p' := p + [c];
      ValueSnoc(p, c, 10);
      assert k == 1 + DigitRun(s[1..]);
      ShiftPrefix(p, s, k);
      if Value(p', 10) > MaxUint64 {
        ValueOfPrefix(p', s[1..][..k - 1]);
      } else {
        ScanDecimalValue(p', s[1..]);
      }
    }
  }

  lemma EmptyPrefix<T>(p: seq<T>, s: seq<T>)
    ensures p + s[..0] == p
  {
  }

  lemma ShiftPrefix<T>(p: seq<T>, s: seq<T>, k: nat)
    requires 1 <= k <= |s|
    ensures p + s[..k] == (p + [s[0]]) + s[1..][..k - 1]
  {
  }

  /** strconv.ParseUint(s, 10, 64) with its error ignored: the largest 64-bit
      value when the leading digits already exceed 64 bits, whatever follows
      them; else 0 for the empty text or a text with a non-digit; else the
      value of the numeral. */
  lemma ParseUint64LaxValue(s: string)
    ensures var k := DigitRun(s);
            ParseUint64Lax(s) ==
              if Value(s[..k], 10) > MaxUint64 then MaxUint64
              else if s == [] || k < |s| then 0
              else Value(s, 10)
  {
    if s != [] {
      var k := DigitRun(s);
      var e: string := [];
      assert Value(e, 10) == 0;
      ScanDecimalValue(e, s);
      assert e + s[..k] == s[..k];
      assert k == |s| ==> s[..k] == s;
    }
  }

  lemma {:induction false} DigitRunOfNumeral(s: string)
    requires AllDigits(s, 10)
    ensures DigitRun(s) == |s|
  {
    if s != [] {
      assert AllDigits(s[1..], 10) by {
        assert forall i :: 0 <= i < |s| - 1 ==> s[1..][i] == s[i + 1];
      }
      DigitRunOfNumeral(s[1..]);
    }
  }

  /** A decimal numeral reads as its value, capped at the largest 64-bit
      value. */
  lemma ParseDecimalNumeral(s: string)
    requires s != [] && AllDigits(s, 10)
    ensures ParseUint64Lax(s) == if Value(s, 10) > MaxUint64 then MaxUint64 else Value(s, 10)
  {
    ParseUint64LaxValue(s);
    DigitRunOfNumeral(s);
    assert s[..|s|] == s;
  }

  /** Every 64-bit number's decimal numeral parses back to it. */
  lemma ParseFormattedUint64(n: nat)
    requires n <= MaxUint64
    ensures ParseUint64Lax(Format(n, 10)) == n
  {
    ValueOfFormat(n, 10);
    ParseDecimalNumeral(Format(n, 10));
  }

  /** The value of hexadecimal digits under an optional minus sign. */
  function SignedValue(neg: bool, digits: string): int {
    if neg then -(Value(digits, 16) as int) else Value(digits, 16)
  }

  /** strconv.ParseInt(s, 16, 32): an optional sign, then hexadecimal digits
      whose signed value fits in 32 bits; None stands for the error. */
  function ParseHexInt32(s: string): (r: Option<int>)
    ensures r.Some? ==> MinInt32 <= r.value <= MaxInt32
    ensures r.Some? ==> s != [] && (s[0] == '+' || s[0] == '-' || DigitValue(s[0]) < 16)
    ensures var neg := s != [] && s[0] == '-';
            var digits := if s != [] && (s[0] == '+' || s[0] == '-') then s[1..] else s;
            && (r.Some? <==> digits != [] && AllDigits(digits, 16) && MinInt32 <= SignedValue(neg, digits) <= MaxInt32)
            && (r.Some? ==> r.value == SignedValue(neg, digits))
  {
    if s == [] then None
    else
      var neg := s[0] == '-';
      var digits := if s[0] == '+' || s[0] == '-' then s[1..] else s;
      if digits == [] || !AllDigits(digits, 16) then None
      else
        var u := Value(digits, 16);
        if !neg && u > MaxInt32 then None
        else if neg && u > -MinInt32 then None
        else Some(if neg then 0 - u else u as int)
  }

  /** A hexadecimal numeral of a number below 2^31 parses back to it. */
  lemma ParseFormattedHex(n: nat)
    requires n <= MaxInt32
    ensures ParseHexInt32(Format(n, 16)) == Some(n)
  {
    ValueOfFormat(n, 16);
    var s := Format(n, 16);
    assert DigitValue(s[0]) < 16;
  }
}
