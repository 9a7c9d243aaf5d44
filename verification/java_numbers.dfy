/** Java's fixed-width integers and the two operations on them the runtime uses:
    32-bit wrap-around (for `AtomicInteger`) and truncating `long` division
    followed by `Long.toString` (for the duration header). */
module JavaNumbers {
  import opened Wrappers

  const IntMin: int := -0x8000_0000
  const IntMax: int := 0x7fff_ffff
  const IntRange: int := 0x1_0000_0000

  const LongMin: int := -0x8000_0000_0000_0000
  const LongMax: int := 0x7fff_ffff_ffff_ffff

  /** A Java `int`. */
  type Int32 = x: int | IntMin <= x <= IntMax

  /** A Java `long`. */
  type Int64 = x: int | LongMin <= x <= LongMax

  /** Two's-complement wrap-around of a mathematical integer into a Java `int`. */
  function Wrap(x: int): (r: Int32)
    ensures IntMin <= x <= IntMax ==> r == x
  {
    (x - IntMin) % IntRange + IntMin
  }

  /** Wrapping an intermediate result does not change the final wrapped value. */
  lemma WrapAdd(a: int, b: int)
    ensures Wrap(Wrap(a) + b) == Wrap(a + b)
  {
  }

  /** `AtomicInteger.incrementAndGet`: add one, wrapping past `Integer.MAX_VALUE`. */
  function Inc(x: Int32): (r: Int32)
    ensures x < IntMax ==> r == x + 1
    ensures x == IntMax ==> r == IntMin
  {
    Wrap(x + 1)
  }

  /** `AtomicInteger.decrementAndGet`: subtract one, wrapping past `Integer.MIN_VALUE`. */
  function Dec(x: Int32): (r: Int32)
    ensures x > IntMin ==> r == x - 1
    ensures x == IntMin ==> r == IntMax
  {
    Wrap(x - 1)
  }

  /** A decrement undoes an increment for every `int`, including across the wrap. */
  lemma DecInc(x: Int32)
    ensures Dec(Inc(x)) == x
  {
  }

  /** Java's `/` on integers: the quotient truncated toward zero (the dividend here is
      a count of nanoseconds and the divisor the constant 1000). */
  function MicrosFromNanos(nanos: Int64): (us: Int64)
    ensures 0 <= nanos ==> 0 <= us && 1000 * us <= nanos < 1000 * us + 1000
    ensures nanos < 0 ==> us <= 0 && 1000 * us - 1000 < nanos <= 1000 * us
  {
    var n: int := nanos;
    if n >= 0 then n / 1000 else -((-n) / 1000)
  }

  predicate IsDigit(c: char) {
    '0' <= c <= '9'
  }

  predicate AllDigits(s: string) {
    forall i :: 0 <= i < |s| ==> IsDigit(s[i])
  }

  function DigitChar(d: nat): (c: char)
    requires d < 10
    ensures IsDigit(c)
  {
    "0123456789"[d]
  }

  function DigitValue(c: char): (d: nat)
    requires IsDigit(c)
    ensures d < 10
  {
    (c as int - '0' as int) as nat
  }

  lemma DigitRoundTrip(d: nat)
    requires d < 10
    ensures DigitValue(DigitChar(d)) == d
  {
  }

  /** The decimal digits of a natural number, most significant first, with no
      leading zero except for the number 0 itself. */
  function NatToDecimal(n: nat): (s: string)
    ensures 1 <= |s|
    ensures AllDigits(s)
    ensures s[0] == '0' ==> n == 0 && s == "0"
    decreases n
  {
    if n < 10 then [DigitChar(n)] else NatToDecimal(n / 10) + [DigitChar(n % 10)]
  }

  /** The value of a string of decimal digits (the empty string reads as 0). */
  function DecimalValue(s: string): nat
    requires AllDigits(s)
  {
    if |s| == 0 then 0 else DecimalValue(s[..|s| - 1]) * 10 + DigitValue(s[|s| - 1])
  }

  /** Reading back the digits of `n` gives `n`. */
  lemma {:induction false} DecimalRoundTrip(n: nat)
    ensures DecimalValue(NatToDecimal(n)) == n
    decreases n
  {
    var s := NatToDecimal(n);
    if n < 10 {
      DigitRoundTrip(n);
    } else {
      DecimalRoundTrip(n / 10);
      assert s[..|s| - 1] == NatToDecimal(n / 10);
      DigitRoundTrip(n % 10);
    }
  }

  /** `Long.toString`: decimal digits, with a leading '-' for a negative value and
      no leading zero except in "0" itself. */
  function LongToString(n: Int64): (s: string)
    ensures 0 <= n ==> 1 <= |s| && AllDigits(s)
    ensures 0 <= n && s[0] == '0' ==> n == 0 && s == "0"
    ensures n < 0 ==> 2 <= |s| && s[0] == '-' && AllDigits(s[1..])
    ensures n < 0 ==> s[1] != '0'
  {
    var v: int := n;
    if v < 0 then "-" + NatToDecimal(-v) else NatToDecimal(v)
  }

  /** A reader for decimal integer text: an optional '-' followed by at least one digit. */
  function ParseDecimal(s: string): Option<int> {
    if 2 <= |s| && s[0] == '-' && AllDigits(s[1..]) then Some(0 - DecimalValue(s[1..]) as int)
    else if 1 <= |s| && AllDigits(s) then Some(DecimalValue(s))
    else None
  }

  /** `Long.toString` is read back exactly: its text is a decimal integer of the same value. */
  lemma LongToStringRoundTrip(n: Int64)
    ensures ParseDecimal(LongToString(n)) == Some(n)
  {
    var s := LongToString(n);
    var v: int := n;
    if v < 0 {
      assert s[1..] == NatToDecimal(-v);
      DecimalRoundTrip(-v);
    } else {
      DecimalRoundTrip(n);
    }
  }
}
