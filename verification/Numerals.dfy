/** Numerals: printing in a base, reading back, and the bounded argument parser. */
module Numerals {
  import opened Base

  // ---- digits -------------------------------------------------------------------------

  /** Value of a digit character in any base up to 16; 16 for anything else. */
  function DigitValue(c: char): nat {
    if '0' <= c <= '9' then c as int - '0' as int
    else if 'a' <= c <= 'f' then c as int - 'a' as int + 10
    else if 'A' <= c <= 'F' then c as int - 'A' as int + 10
    else 16
  }

  predicate IsDigit(c: char, base: nat) {
    DigitValue(c) < base
  }

  ghost predicate AllDigits(s: string, base: nat) {
    forall i :: 0 <= i < |s| ==> IsDigit(s[i], base)
  }

  /** The number a digit string stands for, without any width. */
  function Value(s: string, base: nat): nat {
    if s == "" then 0 else Value(s[..|s| - 1], base) * base + DigitValue(s[|s| - 1])
  }

  function DigitChar(d: nat, upper: bool): char
    requires d < 16
  {
    if d < 10 then '0' + d as char else if upper then 'A' + (d - 10) as char else 'a' + (d - 10) as char
  }

  /** The bases the printers and the parser know. */
  predicate Radix(base: nat) {
    base == 8 || base == 10 || base == 16
  }

  lemma DivMod(n: nat, base: nat)
    requires Radix(base)
    ensures n / base * base + n % base == n && n % base < base
    ensures n >= base ==> 0 < n / base < n
  {
    if base == 8 {} else if base == 10 {} else {}
  }

  /** The shortest numeral of `n`, as %lu, %lo, %lx and %lX print it. */
  function Print(n: nat, base: nat, upper: bool): (s: string)
    requires Radix(base)
    ensures |s| >= 1
  {
    DivMod(n, base);
    if n < base then [DigitChar(n, upper)]
    else Print(n / base, base, upper) + [DigitChar(n % base, upper)]
  }

  function Decimal(n: nat): string {
    Print(n, 10, false)
  }

  /** The digits are the usual ones. */
  lemma DigitTable(d: nat, upper: bool)
    requires d < 16
    ensures DigitChar(d, upper) == (if upper then "0123456789ABCDEF" else "0123456789abcdef")[d]
  {
  }

  lemma DigitRoundTrip(d: nat, upper: bool)
    requires d < 16
    ensures DigitValue(DigitChar(d, upper)) == d
    ensures DigitChar(d, upper) == '0' <==> d == 0
  {
  }

  lemma AppendDigit(s: string, d: nat, base: nat, upper: bool)
    requires d < base <= 16
    ensures Value(s + [DigitChar(d, upper)], base) == Value(s, base) * base + d
    ensures AllDigits(s, base) ==> AllDigits(s + [DigitChar(d, upper)], base)
  {
    DigitRoundTrip(d, upper);
    assert (s + [DigitChar(d, upper)])[..|s|] == s;
  }

  /** Printing then reading gives the number back; only zero starts with '0'. */
  lemma {:induction false} PrintReads(n: nat, base: nat, upper: bool)
    requires Radix(base)
    ensures var s := Print(n, base, upper);
            Value(s, base) == n && AllDigits(s, base) && (s[0] == '0' <==> n == 0)
    decreases n
  {
    if n < base {
      DigitRoundTrip(n, upper);
      AppendDigit("", n, base, upper);
      assert "" + [DigitChar(n, upper)] == Print(n, base, upper);
    } else {
      PrintReads(n / base, base, upper);
      AppendDigit(Print(n / base, base, upper), n % base, base, upper);
      DivMod(n, base);
    }
  }

  /** The least number that needs more than `k` digits. */
  function Ceiling(base: nat, k: nat): nat
    requires Radix(base)
  {
    if k == 0 then 1
    else if base == 8 then 8 * Ceiling(8, k - 1)
    else if base == 10 then 10 * Ceiling(10, k - 1)
    else 16 * Ceiling(16, k - 1)
  }

  lemma {:induction false} PrintLength(n: nat, base: nat, upper: bool, k: nat)
    requires Radix(base) && k >= 1 && n < Ceiling(base, k)
    ensures |Print(n, base, upper)| <= k
    decreases k
  {
    if n >= base {
      assert k > 1;
      if base == 8 {
        PrintLength(n / 8, 8, upper, k - 1);
      } else if base == 10 {
        PrintLength(n / 10, 10, upper, k - 1);
      } else {
        PrintLength(n / 16, 16, upper, k - 1);
      }
    }
  }

  lemma WordLength(n: u32)
    ensures |Decimal(n)| <= 10
  {
    assert Ceiling(10, 10) == 10000000000;
    PrintLength(n, 10, false, 10);
  }

  // ---- strtoul and parseUnsigned --------------------------------------------------------

  /** Where base detection says the digits start: after "0x" only when a hex digit follows. */
  function Prefix(text: string): (nat, nat)
    requires text != ""
  {
    if text[0] != '0' then (10, 0)
    else if |text| > 2 && (text[1] == 'x' || text[1] == 'X') && IsDigit(text[2], 16) then (16, 2)
    else (8, 0)
  }

  /** The unsigned numerals: decimal, octal with a leading zero, hexadecimal with 0x. */
  ghost predicate IsNumeral(text: string) {
    text != "" && '0' <= text[0] <= '9' &&
    if text[0] != '0' then AllDigits(text, 10)
    else if |text| > 2 && (text[1] == 'x' || text[1] == 'X') then AllDigits(text[2..], 16)
    else AllDigits(text, 8)
  }

  function NumeralValue(text: string): nat
    requires text != ""
  {
    if text[0] != '0' then Value(text, 10)
    else if |text| > 2 && (text[1] == 'x' || text[1] == 'X') then Value(text[2..], 16)
    else Value(text, 8)
  }

  lemma Scaled(value: nat, base: nat)
    requires base >= 1
    ensures value * base >= value
  {
    assert value * base == value + value * (base - 1);
  }

  lemma {:induction false} ValueGrows(s: string, n: nat, base: nat)
    requires n <= |s| && base >= 1
    ensures Value(s[..n], base) <= Value(s, base)
    decreases |s| - n
  {
    if n < |s| {
      assert s[..n + 1][..n] == s[..n];
      Scaled(Value(s[..n], base), base);
      ValueGrows(s, n + 1, base);
    } else {
      assert s[..n] == s;
    }
  }

  /** One more digit on the right. */
  function Push(value: nat, base: nat, digit: nat): nat {
    value * base + digit
  }

  lemma NextDigit(text: string, start: nat, end: nat, base: nat)
    requires start <= end < |text| && Radix(base)
    ensures var before := Value(text[start..end], base);
            var after := Value(text[start..end + 1], base);
            after == Push(before, base, DigitValue(text[end])) && after >= before
    ensures AllDigits(text[start..end], base) && IsDigit(text[end], base) ==> AllDigits(text[start..end + 1], base)
  {
    var longer := text[start..end + 1];
    assert forall i :: 0 <= i < |longer| - 1 ==> longer[i] == text[start..end][i];
    assert longer[..|longer| - 1] == text[start..end];
    if base == 8 {} else if base == 10 {} else {}
  }

  /** strtoul with base 0 on a text that starts with a digit: `limit` is ULONG_MAX. */
  method StrToUl(text: string, limit: nat) returns (value: nat, end: nat, rangeError: bool)
    requires text != "" && '0' <= text[0] <= '9' && limit >= U32_MAX
    ensures var (base, start) := Prefix(text);
            && start < end <= |text|
            && AllDigits(text[start..end], base) && (end < |text| ==> !IsDigit(text[end], base))
            && (rangeError <==> Value(text[start..end], base) > limit)
            && value == if rangeError then limit else Value(text[start..end], base)
  {
    var (base, start) := Prefix(text);
    value, end, rangeError := 0, start, false;
    while end < |text| && IsDigit(text[end], base)
      invariant start <= end <= |text| && AllDigits(text[start..end], base)
      invariant rangeError <==> Value(text[start..end], base) > limit
      invariant !rangeError ==> value == Value(text[start..end], base)
    {
      ghost var before, after := Value(text[start..end], base), Value(text[start..end + 1], base);
      NextDigit(text, start, end, base);
      var next := Push(value, base, DigitValue(text[end]));
      assert !rangeError ==> value == before && next == after;
      if rangeError || next > limit {
        rangeError := true;
      } else {
        value := next;
      }
      end := end + 1;
    }
    if rangeError {
      value := limit;
    }
  }

  datatype CString = Null | Text(chars: string)

  /** Parse one argument. `output` is the caller's variable; `limit` is the platform's ULONG_MAX.
      Exactly the unsigned numerals in range are accepted, at any width of unsigned long. */
  method ParseUnsigned(text: CString, minimum: u32, maximum: u32, output: u32, limit: nat)
    returns (ok: bool, result: u32)
    requires text.Text? ==> '\0' !in text.chars
    requires limit >= U32_MAX
    ensures ok <==> text.Text? && IsNumeral(text.chars) && minimum <= NumeralValue(text.chars) <= maximum
    ensures result == if ok then NumeralValue(text.chars) else output
  {
    if text.Null? || text.chars == "" || text.chars[0] < '0' || text.chars[0] > '9' {
      return false, output;
    }
    var t := text.chars;
    var value, end, rangeError := StrToUl(t, limit);
    NumeralShape(t, end);
    if rangeError || end == 0 || end < |t| || value < minimum || value > maximum {
      return false, output;
    }
    return true, value;
  }

  /** A maximal run of digits reaches the end of the text exactly when the text is a numeral. */
  lemma NumeralShape(t: string, end: nat)
    requires t != "" && '0' <= t[0] <= '9' && end <= |t|
    requires var (base, start) := Prefix(t);
             start < end && AllDigits(t[start..end], base) && (end < |t| ==> !IsDigit(t[end], base))
    ensures end == |t| <==> IsNumeral(t)
    ensures end == |t| ==> NumeralValue(t) == Value(t[Prefix(t).1..end], Prefix(t).0)
  {
    var (base, start) := Prefix(t);
    if end == |t| {
      assert t[start..end] == t[start..];
      assert t[0..] == t;
    } else if start == 2 {
      assert t[2..][end - 2] == t[end];
    } else if t[0] == '0' && |t| > 2 && (t[1] == 'x' || t[1] == 'X') {
      assert t[2..][0] == t[2];
    }
  }

  /** Every 32-bit value survives printing in decimal, leading-zero octal or 0x hexadecimal. */
  lemma PrintersInvert(n: u32, upper: bool)
    ensures IsNumeral(Decimal(n)) && NumeralValue(Decimal(n)) == n
    ensures var octal := "0" + Print(n, 8, false); IsNumeral(octal) && NumeralValue(octal) == n
    ensures var hex := "0x" + Print(n, 16, upper); IsNumeral(hex) && NumeralValue(hex) == n
  {
    PrintReads(n, 10, false);
    if n == 0 { assert Decimal(0) == "0"; }
    OctalNumeral(n);
    PrintReads(n, 16, upper);
    var hex := "0x" + Print(n, 16, upper);
    assert hex[2..] == Print(n, 16, upper);
  }

  lemma OctalNumeral(n: u32)
    ensures var octal := "0" + Print(n, 8, false); IsNumeral(octal) && NumeralValue(octal) == n
  {
    var (digits, octal) := (Print(n, 8, false), "0" + Print(n, 8, false));
    PrintReads(n, 8, false);
    assert octal[1..] == digits;
    assert forall i :: 1 <= i < |octal| ==> octal[i] == digits[i - 1];
    LeadingZero(digits, 8);
    if |octal| > 2 { assert IsDigit(octal[1], 8); }
  }

  lemma {:induction false} LeadingZero(s: string, base: nat)
    ensures Value("0" + s, base) == Value(s, base)
    decreases |s|
  {
    if s == "" {
      assert "0" + s == "0" && "0"[..0] == "";
    } else {
      LeadingZero(s[..|s| - 1], base);
      assert ("0" + s)[..|s|] == "0" + s[..|s| - 1];
    }
  }
}
