/**
  The few pieces of Go's strconv and fmt packages the mock servers rely on:
  decimal formatting of integers (strconv.Itoa, "%d", "%04d"), parsing with
  strconv.Atoi (errors discarded, as every caller does) and with
  fmt.Sscanf(s, "%d", &v), plus the string prefix helpers of package strings.
  Integers are unbounded here; where Go's 64-bit or 32-bit range matters it is
  written out (Clamp64, WrapInt32, WrapInt64).
*/
module Text {
  import opened Wrappers

  const MaxInt64: int := 0x7fff_ffff_ffff_ffff
  const MinInt64: int := -0x8000_0000_0000_0000

  predicate IsDigit(c: char) { '0' <= c <= '9' }

  predicate AllDigits(s: string) { forall i :: 0 <= i < |s| ==> IsDigit(s[i]) }

  function DigitChar(d: nat): (c: char)
    requires d < 10
    ensures IsDigit(c)
  {
    (('0' as int) + d) as char
  }

  function DigitVal(c: char): (d: nat)
    requires IsDigit(c)
    ensures d < 10 && DigitChar(d) == c
  {
    (c as int) - ('0' as int)
  }

  /** strings.HasPrefix */
  predicate HasPrefix(s: string, prefix: string) {
    |prefix| <= |s| && s[..|prefix|] == prefix
  }

  /** strings.TrimPrefix: s without prefix when s starts with it, else s unchanged. */
  function TrimPrefix(s: string, prefix: string): (r: string)
    ensures HasPrefix(s, prefix) ==> prefix + r == s
    ensures !HasPrefix(s, prefix) ==> r == s
  {
    if HasPrefix(s, prefix) then s[|prefix|..] else s
  }

  /** The decimal text of a non-negative integer, as strconv.Itoa and "%d" write it. */
  function Itoa(n: nat): (s: string)
    ensures |s| >= 1 && AllDigits(s)
    ensures n > 0 ==> s[0] != '0'
  {
    if n < 10 then [DigitChar(n)] else Itoa(n / 10) + [DigitChar(n % 10)]
  }

  /** "%d" of any int: a minus sign before the digits of a negative value. */
  function FormatInt(i: int): (s: string)
    ensures |s| >= 1
    ensures i < 0 <==> s[0] == '-'
  {
    if i < 0 then "-" + Itoa(-i) else Itoa(i)
  }

  /** The value of a string of decimal digits, read left to right. */
  function DigitsValue(s: string): nat
    requires AllDigits(s)
  {
    if s == [] then 0 else DigitsValue(s[..|s| - 1]) * 10 + DigitVal(s[|s| - 1])
  }

  /** Reading back what Itoa writes gives the number again. */
  lemma {:induction false} DigitsValueItoa(n: nat)
    ensures DigitsValue(Itoa(n)) == n
  {
    if n >= 10 {
      var s := Itoa(n);
      assert s[..|s| - 1] == Itoa(n / 10);
      DigitsValueItoa(n / 10);
    }
  }

  /** Go's int range: what strconv.ParseInt reports for an out-of-range value. */
  function Clamp64(v: int): (r: int)
    ensures MinInt64 <= r <= MaxInt64
    ensures MinInt64 <= v <= MaxInt64 ==> r == v
  {
    if v > MaxInt64 then MaxInt64 else if v < MinInt64 then MinInt64 else v
  }

  const MaxUint64: int := 0xffff_ffff_ffff_ffff

  /**
    What `v, _ := strconv.Atoi(s)` leaves in v. After an optional '+' or '-'
    the digits are read left to right; as soon as those read exceed 2^64 - 1
    parsing stops with the clamped value (MaxInt64, or MinInt64 after '-'),
    whatever follows. Otherwise text that is not one or more digits gives 0,
    and a number gives its value clamped to the int64 range.
  */
  function Atoi(s: string): (v: int)
    ensures MinInt64 <= v <= MaxInt64
    ensures v > 0 ==> |s| > 0 && s[0] != '-'
    ensures s != [] && AllDigits(s) && DigitsValue(s) <= MaxInt64 ==> v == DigitsValue(s)
  {
    var signed := |s| > 0 && (s[0] == '-' || s[0] == '+');
    var negative := signed && s[0] == '-';
    var unsigned := if signed then s[1..] else s;
    var digits := LeadingDigits(unsigned);
    var magnitude: int := DigitsValue(digits);
    if s != [] && AllDigits(s) then LeadingDigitsOfDigits(s); ParsedValue(negative, magnitude, digits, unsigned)
    else ParsedValue(negative, magnitude, digits, unsigned)
  }

  /** The outcome of strconv.ParseInt once the leading digits of the unsigned text are known. */
  function ParsedValue(negative: bool, magnitude: int, digits: string, unsigned: string): int {
    if magnitude > MaxUint64 then (if negative then MinInt64 else MaxInt64)
    else if digits == [] || |digits| < |unsigned| then 0
    else Clamp64(if negative then -magnitude else magnitude)
  }

  /** Atoi reads back every cursor and page size Itoa writes. */
  lemma AtoiItoa(n: nat)
    requires n <= MaxInt64
    ensures Atoi(Itoa(n)) == n
  {
    DigitsValueItoa(n);
  }

  /**
    A run of digits worth more than 2^64 - 1 decides the value whatever text
    follows it: the clamp for its sign.
  */
  lemma AtoiOverflow(d: string, rest: string)
    requires AllDigits(d) && DigitsValue(d) > MaxUint64
    ensures Atoi(d + rest) == MaxInt64
    ensures Atoi("+" + d + rest) == MaxInt64
    ensures Atoi("-" + d + rest) == MinInt64
  {
    assert d != [];
    LeadingDigitsAppend(d, rest);
    DigitsValueMono(d, LeadingDigits(rest));
    var u := d + rest;
    assert u[0] == d[0];
    var m := DigitsValue(LeadingDigits(u));
    assert m > MaxUint64;
    AtoiUnsigned(u);
    AtoiSigned('+', u);
    AtoiSigned('-', u);
    assert "+" + d + rest == ['+'] + u;
    assert "-" + d + rest == ['-'] + u;
  }

  /** Atoi of text that starts with a digit. */
  lemma AtoiUnsigned(u: string)
    requires u != [] && IsDigit(u[0])
    ensures Atoi(u) == ParsedValue(false, DigitsValue(LeadingDigits(u)), LeadingDigits(u), u)
  {
  }

  /** Atoi of a sign followed by u. */
  lemma AtoiSigned(sign: char, u: string)
    requires sign == '+' || sign == '-'
    ensures Atoi([sign] + u) == ParsedValue(sign == '-', DigitsValue(LeadingDigits(u)), LeadingDigits(u), u)
  {
    assert ([sign] + u)[1..] == u;
  }

  /** Text after the digits makes Atoi give 0 unless the digits overflow. */
  lemma AtoiTrailingText(n: nat, rest: string)
    requires n <= MaxInt64 && rest != [] && !IsDigit(rest[0])
    ensures Atoi(Itoa(n) + rest) == 0
  {
    LeadingDigitsAppend(Itoa(n), rest);
    DigitsValueItoa(n);
    assert (Itoa(n) + rest)[0] == Itoa(n)[0];
  }

  /** The digits of d come first in the leading digits of d + rest. */
  lemma {:induction false} LeadingDigitsAppend(d: string, rest: string)
    requires AllDigits(d)
    ensures LeadingDigits(d + rest) == d + LeadingDigits(rest)
    decreases |d|
  {
    if d != [] {
      assert IsDigit(d[0]) && (d + rest)[0] == d[0];
      assert (d + rest)[1..] == d[1..] + rest;
      assert AllDigits(d[1..]);
      assert LeadingDigits(d + rest) == [d[0]] + LeadingDigits(d[1..] + rest);
      LeadingDigitsAppend(d[1..], rest);
      assert d == [d[0]] + d[1..];
      assert [d[0]] + (d[1..] + LeadingDigits(rest)) == d + LeadingDigits(rest);
    } else {
      assert d + rest == rest && d + LeadingDigits(rest) == LeadingDigits(rest);
    }
  }

  /** More digits never make the value smaller. */
  lemma {:induction false} DigitsValueMono(d: string, e: string)
    requires AllDigits(d) && AllDigits(e)
    ensures DigitsValue(d + e) >= DigitsValue(d)
    decreases |e|
  {
    if e != [] {
      var e' := e[..|e| - 1];
      assert (d + e)[..|d + e| - 1] == d + e';
      DigitsValueMono(d, e');
    } else {
      assert d + e == d;
    }
  }

  /** The longest run of decimal digits at the start of s. */
  function LeadingDigits(s: string): (d: string)
    ensures AllDigits(d) && |d| <= |s| && d == s[..|d|]
    ensures |d| < |s| ==> !IsDigit(s[|d|])
  {
    if s != [] && IsDigit(s[0]) then [s[0]] + LeadingDigits(s[1..]) else []
  }

  lemma {:induction false} LeadingDigitsOfDigits(s: string)
    requires AllDigits(s)
    ensures LeadingDigits(s) == s
  {
    if s != [] {
      LeadingDigitsOfDigits(s[1..]);
    }
  }

  /**
    What `fmt.Sscanf(s, "%d", &v)` stores: an optional sign, then the longest
    run of decimal digits (text after it is not read). None when no digit
    follows the sign or the value does not fit in an int64; v then keeps the
    value it had before the call.
  */
  function ScanDecimal(s: string): (r: Option<int>)
    ensures r.Some? ==> MinInt64 <= r.value <= MaxInt64
    ensures r.Some? ==> StartsWithNumber(s)
    ensures |s| > 0 && IsDigit(s[0]) ==>
              (r.Some? <==> DigitsValue(LeadingDigits(s)) <= MaxInt64)
              && (r.Some? ==> r.value == DigitsValue(LeadingDigits(s)))
    ensures |s| > 1 && s[0] == '-' && IsDigit(s[1]) ==>
              (r.Some? <==> DigitsValue(LeadingDigits(s[1..])) <= -MinInt64)
              && (r.Some? ==> r.value + DigitsValue(LeadingDigits(s[1..])) == 0)
    ensures |s| > 1 && s[0] == '+' && IsDigit(s[1]) ==>
              (r.Some? <==> DigitsValue(LeadingDigits(s[1..])) <= MaxInt64)
              && (r.Some? ==> r.value == DigitsValue(LeadingDigits(s[1..])))
  {
    var signed := |s| > 0 && (s[0] == '-' || s[0] == '+');
    var digits := LeadingDigits(if signed then s[1..] else s);
    var magnitude: int := DigitsValue(digits);
    var v := if signed && s[0] == '-' then -magnitude else magnitude;
    if digits == [] || v < MinInt64 || MaxInt64 < v then None else Some(v)
  }

  /** An optional sign followed by at least one digit. */
  predicate StartsWithNumber(s: string) {
    |s| > 0 && (IsDigit(s[0]) || ((s[0] == '-' || s[0] == '+') && |s| > 1 && IsDigit(s[1])))
  }

  /** Sscanf stops at the first character after the digits. */
  lemma ScanDecimalStopsAfterDigits(n: nat, rest: string)
    requires n <= MaxInt64 && (rest == [] || !IsDigit(rest[0]))
    ensures ScanDecimal(Itoa(n) + rest) == Some(n)
  {
    LeadingDigitsAppend(Itoa(n), rest);
    assert LeadingDigits(rest) == [];
    assert Itoa(n) + [] == Itoa(n);
    DigitsValueItoa(n);
    assert (Itoa(n) + rest)[0] == Itoa(n)[0];
  }

  /** Sscanf reads back every cursor Itoa writes. */
  lemma ScanDecimalItoa(n: nat)
    requires n <= MaxInt64
    ensures ScanDecimal(Itoa(n)) == Some(n)
  {
    LeadingDigitsOfDigits(Itoa(n));
    DigitsValueItoa(n);
  }

  function Zeros(k: nat): (z: string)
    ensures |z| == k && AllDigits(z)
    ensures forall i :: 0 <= i < k ==> z[i] == '0'
  {
    seq(k, _ => '0')
  }

  /** s with '0's in front up to width w, as the 0 flag of fmt pads. */
  function ZeroPad(s: string, w: nat): (r: string)
    ensures |r| == if |s| < w then w else |s|
    ensures |s| < w ==> r == Zeros(w - |s|) + s
    ensures |s| >= w ==> r == s
  {
    if |s| < w then Zeros(w - |s|) + s else s
  }

  /** "%04d": at least four characters, zeros after the sign of a negative value. */
  function Format04(i: int): (s: string)
    ensures |s| >= 4
    ensures i < 0 <==> s[0] == '-'
  {
    if i < 0 then "-" + ZeroPad(Itoa(-i), 3) else ZeroPad(Itoa(i), 4)
  }

  /** Leading zeros do not change the value of a digit string. */
  lemma {:induction false} DigitsValueZeros(k: nat, s: string)
    requires AllDigits(s)
    ensures DigitsValue(Zeros(k) + s) == DigitsValue(s)
  {
    if s == [] {
      assert Zeros(k) + s == Zeros(k);
      DigitsValueOfZeros(k);
    } else {
      var p := s[..|s| - 1];
      assert (Zeros(k) + s)[..|Zeros(k) + s| - 1] == Zeros(k) + p;
      DigitsValueZeros(k, p);
    }
  }

  lemma {:induction false} DigitsValueOfZeros(k: nat)
    ensures DigitsValue(Zeros(k)) == 0
  {
    if k > 0 {
      assert Zeros(k)[..k - 1] == Zeros(k - 1);
      DigitsValueOfZeros(k - 1);
    }
  }

  /** The digits of "%04d" spell the value back. */
  lemma PaddedValue(n: nat, w: nat)
    ensures AllDigits(ZeroPad(Itoa(n), w)) && DigitsValue(ZeroPad(Itoa(n), w)) == n
  {
    DigitsValueItoa(n);
    if |Itoa(n)| < w {
      DigitsValueZeros(w - |Itoa(n)|, Itoa(n));
    }
  }

  /** Distinct values never print the same under "%04d". */
  lemma Format04Injective(i: int, j: int)
    requires Format04(i) == Format04(j)
    ensures i == j
  {
    if i < 0 && j < 0 {
      SignedPaddedInjective(-i, -j);
    } else if 0 <= i && 0 <= j {
      PaddedInjective(i, j, 4);
    }
  }

  lemma SignedPaddedInjective(m: nat, n: nat)
    requires "-" + ZeroPad(Itoa(m), 3) == "-" + ZeroPad(Itoa(n), 3)
    ensures m == n
  {
    var s, t := ZeroPad(Itoa(m), 3), ZeroPad(Itoa(n), 3);
    assert ("-" + s)[1..] == s && ("-" + t)[1..] == t;
    PaddedInjective(m, n, 3);
  }

  lemma PaddedInjective(m: nat, n: nat, w: nat)
    requires ZeroPad(Itoa(m), w) == ZeroPad(Itoa(n), w)
    ensures m == n
  {
    PaddedValue(m, w);
    PaddedValue(n, w);
  }

  /** Two's-complement wrap-around of a 32-bit signed integer. */
  function WrapInt32(x: int): (r: int)
    ensures -0x8000_0000 <= r < 0x8000_0000
    ensures -0x8000_0000 <= x < 0x8000_0000 ==> r == x
  {
    (x + 0x8000_0000) % 0x1_0000_0000 - 0x8000_0000
  }

  /** Adding one after wrapping is the same as wrapping after adding one. */
  lemma WrapInt32Succ(x: int)
    ensures WrapInt32(WrapInt32(x) + 1) == WrapInt32(x + 1)
  {
    var m := 0x1_0000_0000;
    var a := x + 0x8000_0000;
    var q := a / m;
    assert a == q * m + a % m;
    assert a + 1 == q * m + (a % m + 1);
    if a % m + 1 < m {
      assert (a + 1) % m == a % m + 1;
    } else {
      assert a + 1 == (q + 1) * m;
      assert (a + 1) % m == 0;
    }
  }

  /** Two's-complement wrap-around of Go's 64-bit int. */
  function WrapInt64(x: int): (r: int)
    ensures MinInt64 <= r <= MaxInt64
    ensures MinInt64 <= x <= MaxInt64 ==> r == x
    ensures MaxInt64 < x <= MaxInt64 + 0x1_0000_0000_0000_0000 ==> r == x - 0x1_0000_0000_0000_0000
    ensures MinInt64 - 0x1_0000_0000_0000_0000 <= x < MinInt64 ==> r == x + 0x1_0000_0000_0000_0000
  {
    (x - MinInt64) % 0x1_0000_0000_0000_0000 + MinInt64
  }
}
