/** The Go package `internal/system`, as far as it computes: the host facts
    a report shows, the hand-written integer-to-decimal conversion and the
    hours computed from the first line of `/proc/uptime`. Go's `int` is 64
    bits wide here. */
module SystemInfo {
  import opened Wrappers
  import opened Text

  /** `system.Info`; the same five facts make up Python's `sys_info`
      dictionary. How they are probed is not modelled. */
  datatype Info = Info(hostname: string, ip: string, os: string, uptime: string, time: string)

  /** Every fact fits on one line. */
  predicate InfoOneLine(sys: Info) {
    NoNewline(sys.hostname) && NoNewline(sys.ip) && NoNewline(sys.os) &&
    NoNewline(sys.uptime) && NoNewline(sys.time)
  }

  const MinInt64: int := -0x8000_0000_0000_0000
  const MaxInt64: int := 0x7FFF_FFFF_FFFF_FFFF

  // ---------------------------------------------------------------------
  // Decimal conversion

  /** The decimal form of an integer, "-" first when it is negative: what
      `strconvItoa` is meant to compute (Go's `strconv.Itoa`). */
  function Itoa(n: int): string {
    if n < 0 then "-" + DecimalString(-n) else DecimalString(n)
  }

  /** Reading a decimal form back, with an optional leading "-". */
  function ParseSigned(s: string): int {
    if s != [] && s[0] == '-' then -DigitsValue(s[1..]) else DigitsValue(s)
  }

  /** `Itoa` loses nothing: reading its result back gives the number. */
  lemma ItoaRoundTrip(n: int)
    ensures ParseSigned(Itoa(n)) == n
  {
    if n < 0 {
      DecimalStringValue(-n);
      assert Itoa(n)[1..] == DecimalString(-n);
    } else {
      DecimalStringValue(n);
      assert DecimalString(n)[0] != '-';
    }
  }

  /** The shape of `Itoa(n)`: "0" for zero, digits without a leading zero
      for a positive number, and "-" followed by such digits for a negative
      one. */
  lemma ItoaShape(n: int)
    ensures n == 0 ==> Itoa(n) == "0"
    ensures n > 0 ==> IsCanonicalDecimal(Itoa(n)) && Itoa(n)[0] != '0'
    ensures n < 0 ==>
      (|Itoa(n)| >= 2 && Itoa(n)[0] == '-' && IsCanonicalDecimal(Itoa(n)[1..]) && Itoa(n)[1] != '0')
  {
    if n < 0 {
      DecimalStringValue(-n);
      assert Itoa(n)[1..] == DecimalString(-n);
      assert DecimalString(-n) != "0" by {
        assert DigitsValue("0") == 0;
      }
    } else if n > 0 {
      DecimalStringValue(n);
      assert DecimalString(n) != "0" by {
        assert DigitsValue("0") == 0;
      }
    }
  }

  function Pow10(k: nat): nat {
    if k == 0 then 1 else 10 * Pow10(k - 1)
  }

  lemma Pow10Twenty()
    ensures Pow10(20) == 100_000_000_000_000_000_000
  {
    assert Pow10(10) == 10_000_000_000;
  }

  /** The value of a digit string with one more digit in front. */
  lemma {:induction false} DigitsValuePrepend(c: char, s: string)
    ensures DigitsValue([c] + s) == (c as int - '0' as int) * Pow10(|s|) + DigitsValue(s)
    decreases |s|
  {
    if s != [] {
      var init := s[..|s| - 1];
      var d, last := c as int - '0' as int, s[|s| - 1] as int - '0' as int;
      assert ([c] + s)[..|s|] == [c] + init && ([c] + s)[|s|] == s[|s| - 1];
      assert DigitsValue([c] + s) == DigitsValue([c] + init) * 10 + last;
      DigitsValuePrepend(c, init);
      assert DigitsValue([c] + init) == d * Pow10(|init|) + DigitsValue(init);
      assert Pow10(|s|) == 10 * Pow10(|init|);
      calc {
        DigitsValue([c] + s);
        (d * Pow10(|init|) + DigitsValue(init)) * 10 + last;
        d * (10 * Pow10(|init|)) + (DigitsValue(init) * 10 + last);
        d * Pow10(|s|) + DigitsValue(s);
      }
    }
  }

  /** Writing the last digit of `n` in front of the digits already written
      and dividing `n` by ten keeps the value they stand for. */
  lemma DigitStep(n: nat, i: nat)
    requires 0 < n < Pow10(i) && i <= 20
    ensures 0 < i && n / 10 < Pow10(i - 1)
    ensures (n % 10) * Pow10(20 - i) + (n / 10) * Pow10(20 - (i - 1)) == n * Pow10(20 - i)
  {
    assert Pow10(20 - (i - 1)) == 10 * Pow10(20 - i);
    ShiftDigit(n, Pow10(20 - i));
    if i > 0 {
      assert Pow10(i) == 10 * Pow10(i - 1);
    }
  }

  /** The digits written so far plus the value still to write make up
      the magnitude, and what is left fits in the free positions. */
  ghost predicate Pending(n: int, written: string, magnitude: int) {
    |written| <= 20 && 0 <= n < Pow10(20 - |written|) &&
    DigitsValue(written) + n * Pow10(|written|) == magnitude
  }

  /** One turn of the digit loop keeps the value of the digits written
      plus the value still to write. */
  lemma WriteDigit(n: int, written: string, magnitude: int)
    requires 0 < n && Pending(n, written, magnitude)
    ensures |written| < 20
    ensures Pending(n / 10, [DigitChar(n % 10)] + written, magnitude)
    ensures n / 10 == 0 ==> DigitChar(n % 10) != '0'
  {
    var i := 20 - |written|;
    DigitStep(n, i);
    DigitsValuePrepend(DigitChar(n % 10), written);
  }

  lemma ShiftDigit(n: nat, p: nat)
    ensures (n % 10) * p + (n / 10) * (10 * p) == n * p
  {
    var q, d := n / 10, n % 10;
    assert n == 10 * q + d;
    calc {
      d * p + q * (10 * p);
      == d * p + (10 * q) * p;
      == (d + 10 * q) * p;
    }
  }

  /** Go's unary minus on a 64-bit int: the minimum int is its own
      negation. */
  function Negate64(n: int): int
    requires MinInt64 <= n <= MaxInt64
  {
    if n == MinInt64 then MinInt64 else -n
  }

  /** `strconvItoa`: digits are written from the end of a 20-byte buffer.
      Every 64-bit value except the minimum gets its decimal form; for the
      minimum, `-n` wraps back to a negative value, the digit loop does not
      run, and the result is a lone "-". */
  method StrconvItoa(n0: int) returns (r: string)
    requires MinInt64 <= n0 <= MaxInt64
    ensures n0 != MinInt64 ==> r == Itoa(n0)
    ensures n0 == MinInt64 ==> r == "-"
  {
    if n0 == 0 {
      return "0";
    }
    var n := n0;
    var sign := "";
    if n < 0 {
      sign := "-";
      n := Negate64(n);
    }
    var magnitude := if n0 < 0 then -n0 else n0;
    var b := new char[20];
    var i := b.Length;
    ghost var written: string := [];
    assert n >= 0 ==> Pending(n, written, magnitude) by {
      Pow10Twenty();
    }
    while n > 0
      invariant 0 <= i <= 20 && written == b[i..]
      invariant n < 0 <==> n0 == MinInt64
      invariant n < 0 ==> i == 20
      invariant n >= 0 ==> Pending(n, written, magnitude)
      invariant forall k :: 0 <= k < |written| ==> IsDigit(written[k])
      invariant n == 0 && written != [] ==> written[0] != '0'
      decreases n
    {
      var d := n % 10;
      WriteDigit(n, written, magnitude);
      ghost var prev := written;
      i := i - 1;
      b[i] := DigitChar(d);
      n := n / 10;
      assert b[i + 1..] == prev;
      written := [b[i]] + prev;
      assert b[i..] == [b[i]] + b[i + 1..];
    }
    assert b[i..] == written;
    if n0 != MinInt64 {
      assert DigitsValue(written) == magnitude && magnitude > 0;
      assert written != [] by {
        assert DigitsValue([]) == 0;
      }
      SignedDigits(n0, sign, written);
    }
    r := sign + b[i..];
  }

  /** The minimum 64-bit value: its decimal form reads back as itself, but
      the lone "-" `strconvItoa` returns for it reads back as zero. */
  lemma MinInt64Misprinted()
    ensures ParseSigned(Itoa(MinInt64)) == MinInt64
    ensures ParseSigned("-") == 0 != MinInt64
  {
    ItoaRoundTrip(MinInt64);
  }

  /** The sign, then the canonical digits of the magnitude, is the
      decimal form. */
  lemma SignedDigits(n: int, sign: string, digits: string)
    requires n != 0 && sign == (if n < 0 then "-" else "")
    requires IsCanonicalDecimal(digits) && DigitsValue(digits) == (if n < 0 then -n else n)
    ensures sign + digits == Itoa(n)
  {
    CanonicalDecimalRoundTrip(digits);
    if n > 0 {
      assert sign + digits == digits;
    }
  }

  // ---------------------------------------------------------------------
  // Uptime

  /** Go's conversion of a float64 that holds a whole number to int on
      amd64: exact when it fits, the minimum int otherwise. */
  function ToInt64(x: int): (n: int)
    ensures MinInt64 <= n <= MaxInt64
    ensures MinInt64 <= x <= MaxInt64 ==> n == x
  {
    if MinInt64 <= x <= MaxInt64 then x else MinInt64
  }

  /** Go's integer `/`: the quotient truncated toward zero. */
  function GoDiv(a: int, b: int): (q: int)
    requires b > 0
    ensures a >= 0 ==> q == a / b
    ensures a < 0 ==> q == -((-a) / b)
  {
    if a >= 0 then a / b else -((-a) / b)
  }

  /** The seconds `readUptime` accumulates from a line: `c - '0'` summed in
      base 10 over the characters of the first space-separated field, up to
      its first ".". */
  function UptimeSeconds(line: string): int {
    DigitsValue(BeforeFirst(Split(line, ' ')[0], '.'))
  }

  /** The whole hours `readUptime` reports for a line. */
  function UptimeHours(line: string): int {
    GoDiv(ToInt64(UptimeSeconds(line)), 3600)
  }

  /** `readUptime` on the first line the scanner yields (None when the file
      cannot be opened or has no line): the hours, then "h"; or "Unknown". */
  method ReadUptime(firstLine: Option<string>) returns (r: string)
    ensures firstLine.None? ==> r == "Unknown"
    ensures firstLine.Some? ==> r == Itoa(UptimeHours(firstLine.value)) + "h"
  {
    if firstLine.None? {
      return "Unknown";
    }
    var parts := Split(firstLine.value, ' ');
    var secStr := parts[0];
    var secs := 0;
    var i := 0;
    while i < |secStr|
      invariant 0 <= i <= |secStr|
      invariant '.' !in secStr[..i]
      invariant secs == DigitsValue(secStr[..i])
    {
      var c := secStr[i];
      if c == '.' {
        break;
      }
      assert secStr[..i + 1][..i] == secStr[..i];
      secs := secs * 10 + (c as int - '0' as int);
      i := i + 1;
    }
    BeforeFirstUnique(secStr, '.', i);
    var h := GoDiv(ToInt64(secs), 3600);
    var digits := StrconvItoa(h);
    r := digits + "h";
  }

  /** On a well-formed `/proc/uptime` line, whole seconds followed by "." or
      " " or nothing, the report is those seconds divided by 3600, rounded
      down, in decimal, then "h". */
  lemma UptimeOfProcLine(digits: string, rest: string)
    requires digits != [] && forall k :: 0 <= k < |digits| ==> IsDigit(digits[k])
    requires rest == [] || rest[0] == '.' || rest[0] == ' '
    requires DigitsValue(digits) <= MaxInt64
    ensures DigitsValue(digits) >= 0
    ensures Itoa(UptimeHours(digits + rest)) + "h" == DecimalString(DigitsValue(digits) / 3600) + "h"
  {
    DigitsNonNegative(digits);
    SecondsField(digits, rest);
    assert UptimeSeconds(digits + rest) == DigitsValue(digits);
  }

  /** The digits before the first "." of the first field of such a line
      are the whole seconds. */
  lemma SecondsField(digits: string, rest: string)
    requires forall k :: 0 <= k < |digits| ==> IsDigit(digits[k])
    requires rest == [] || rest[0] == '.' || rest[0] == ' '
    ensures BeforeFirst(Split(digits + rest, ' ')[0], '.') == digits
  {
    var line := digits + rest;
    var field := BeforeFirst(rest, ' ');
    assert ' ' !in digits && '.' !in digits;
    SplitHead(line, ' ');
    BeforeFirstAppend(digits, rest, ' ');
    assert Split(line, ' ')[0] == digits + field;
    assert field == [] || field[0] == '.';
    BeforeFirstAppend(digits, field, '.');
    assert BeforeFirst(field, '.') == [];
  }

  lemma {:induction false} DigitsNonNegative(s: string)
    requires forall k :: 0 <= k < |s| ==> IsDigit(s[k])
    ensures DigitsValue(s) >= 0
    decreases |s|
  {
    if s != [] {
      DigitsNonNegative(s[..|s| - 1]);
    }
  }
}
