/** Decimal rendering of integers, and Rust's `parse::<u32>` and `parse::<i64>`. */
module Decimal {
  datatype Option<+T> = None | Some(value: T)

  const U32_MAX: nat := 0xFFFF_FFFF
  const I64_MIN: int := -0x8000_0000_0000_0000
  const I64_MAX: int := 0x7FFF_FFFF_FFFF_FFFF

  predicate IsDigit(c: char) {
    '0' <= c <= '9'
  }

  ghost predicate AllDigits(s: string) {
    forall i :: 0 <= i < |s| ==> IsDigit(s[i])
  }

  function DigitChar(d: nat): (c: char)
    requires d < 10
    ensures IsDigit(c)
  {
    (d + 48) as char
  }

  /** Rendering of an unsigned integer, without leading zeros. */
  function PrintNat(n: nat): (s: string)
    ensures |s| > 0
    ensures AllDigits(s)
  {
    if n < 10 then [DigitChar(n)] else PrintNat(n / 10) + [DigitChar(n % 10)]
  }

  /** Rendering of a signed integer. */
  function PrintInt(n: int): (s: string)
    ensures |s| > 0
    ensures forall i :: 0 <= i < |s| ==> IsDigit(s[i]) || (i == 0 && s[i] == '-')
    ensures IsDigit(s[|s| - 1])
  {
    if n < 0 then ['-'] + PrintNat(-n) else PrintNat(n)
  }

  /** The number a nonempty string of digits denotes. */
  function Digits(s: string): Option<nat> {
    if s == [] then None
    else if !IsDigit(s[|s| - 1]) then None
    else
      var d := s[|s| - 1] as int - 48;
      if |s| == 1 then Some(d)
      else match Digits(s[..|s| - 1])
        case None => None
        case Some(n) => Some(10 * n + d)
  }

  /** `str::parse::<u32>`: an optional `+`, at least one digit, no overflow. */
  function ParseU32(s: string): Option<nat> {
    var body := if s != [] && s[0] == '+' then s[1..] else s;
    match Digits(body)
    case Some(n) => if n <= U32_MAX then Some(n) else None
    case None => None
  }

  /** `str::parse::<i64>`: an optional sign, at least one digit, no overflow. */
  function ParseI64(s: string): Option<int> {
    var negative := s != [] && s[0] == '-';
    var body := if s != [] && (s[0] == '+' || s[0] == '-') then s[1..] else s;
    match Digits(body)
    case Some(n) =>
      var v := if negative then 0 - n else n as int;
      if I64_MIN <= v <= I64_MAX then Some(v) else None
    case None => None
  }

  lemma {:induction false} DigitsOfPrintNat(n: nat)
    ensures Digits(PrintNat(n)) == Some(n)
  {
    if n >= 10 {
      DigitsOfPrintNat(n / 10);
      var s := PrintNat(n);
      assert s[..|s| - 1] == PrintNat(n / 10);
    }
  }

  lemma PrintNatHead(n: nat)
    ensures IsDigit(PrintNat(n)[0])
  {
  }

  /** Every u32 survives printing and parsing. */
  lemma U32RoundTrip(n: nat)
    requires n <= U32_MAX
    ensures ParseU32(PrintNat(n)) == Some(n)
  {
    hide Digits, PrintNat;
    DigitsOfPrintNat(n);
    PrintNatHead(n);
  }

  /** Every i64 survives printing and parsing. */
  lemma I64RoundTrip(n: int)
    requires I64_MIN <= n <= I64_MAX
    ensures ParseI64(PrintInt(n)) == Some(n)
  {
    hide Digits, PrintNat;
    if n < 0 {
      DigitsOfPrintNat(-n);
      assert PrintInt(n)[1..] == PrintNat(-n);
    } else {
      DigitsOfPrintNat(n);
      PrintNatHead(n);
    }
  }

  /** Distinct integers print differently. */
  lemma PrintIntInjective(a: int, b: int)
    requires PrintInt(a) == PrintInt(b)
    ensures a == b
  {
    hide Digits, PrintNat;
    if a < 0 {
      assert PrintInt(a)[1..] == PrintNat(-a);
      DigitsOfPrintNat(-a);
    } else {
      PrintNatHead(a);
      DigitsOfPrintNat(a);
    }
    if b < 0 {
      assert PrintInt(b)[1..] == PrintNat(-b);
      DigitsOfPrintNat(-b);
    } else {
      PrintNatHead(b);
      DigitsOfPrintNat(b);
    }
  }

  /** Splitting at the last separator is unambiguous when the tails do not contain it. */
  lemma LastSeparator(a: string, b: string, x: string, y: string, sep: char)
    requires a + [sep] + x == b + [sep] + y
    requires sep !in x && sep !in y
    ensures a == b && x == y
  {
    var l := a + [sep] + x;
    var r := b + [sep] + y;
    assert l[|a|] == sep && r[|b|] == sep;
    assert forall j :: |a| < j < |l| ==> l[j] == x[j - |a| - 1];
    assert forall j :: |b| < j < |r| ==> r[j] == y[j - |b| - 1];
    assert l[..|a|] == a && r[..|b|] == b;
    assert l[|a| + 1..] == x && r[|b| + 1..] == y;
  }
}
