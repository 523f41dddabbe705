/**
 Decimal text of integers as the lease handlers use it: `fmt.Sprintf("%v", id)` on the way out and
 `strconv.ParseInt(text, 10, 64)` on the way in.
 */
module Decimal {
  const MAX_INT64 := 0x7FFF_FFFF_FFFF_FFFF
  const MAX_UINT64 := 0xFFFF_FFFF_FFFF_FFFF

  function DigitChar(d: nat): (c: char)
    requires d < 10
    ensures IsDigit(c) && DigitValue(c) == d
  {
    ('0' as int + d) as char
  }

  predicate IsDigit(c: char) {
    '0' <= c <= '9'
  }

  function DigitValue(c: char): (d: nat)
    requires IsDigit(c)
    ensures d < 10
  {
    c as int - '0' as int
  }

  function FormatNat(n: nat): (text: string)
    ensures text != [] && forall c | c in text :: IsDigit(c)
  {
    if n < 10 then [DigitChar(n)] else FormatNat(n / 10) + [DigitChar(n % 10)]
  }

  function FormatInt(n: int): string {
    if n < 0 then "-" + FormatNat(-n) else FormatNat(n)
  }

  /** The number a digit string denotes. */
  function Value(text: string): nat
    requires forall c | c in text :: IsDigit(c)
  {
    if text == [] then 0 else Value(text[..|text| - 1]) * 10 + DigitValue(text[|text| - 1])
  }

  lemma {:induction false} ValueOfFormat(n: nat)
    ensures Value(FormatNat(n)) == n
  {
    if n < 10 {
      assert Value([]) == 0;
    } else {
      ValueOfFormat(n / 10);
      assert FormatNat(n)[..|FormatNat(n)| - 1] == FormatNat(n / 10);
    }
  }

  lemma FormatNatInjective(a: nat, b: nat)
    requires FormatNat(a) == FormatNat(b)
    ensures a == b
  {
    ValueOfFormat(a);
    ValueOfFormat(b);
  }

  /** The outcome of `ParseInt`: a range error still carries the nearest 64-bit value, a syntax error carries 0. */
  datatype Parsed = Number(value: int) | OutOfRange(value: int) | BadSyntax {
    function Result(): int {
      if BadSyntax? then 0 else value
    }
  }

  /** Left-to-right scan of digits; it stops at the first digit that overflows 64 bits. */
  function Scan(text: string, acc: nat): Parsed {
    if text == [] then Number(acc)
    else if !IsDigit(text[0]) then BadSyntax
    else
      var next := acc * 10 + DigitValue(text[0]);
      if next > MAX_UINT64 then OutOfRange(MAX_UINT64) else Scan(text[1..], next)
  }

  function ParseInt(text: string): Parsed {
    if text == [] then BadSyntax
    else
      var signed := text[0] == '-' || text[0] == '+';
      var digits := if signed then text[1..] else text;
      var scanned := if digits == [] then BadSyntax else Scan(digits, 0);
      if scanned.BadSyntax? then BadSyntax
      else if text[0] == '-' then
        (if scanned.value > MAX_INT64 + 1 then OutOfRange(-(MAX_INT64 + 1)) else Number(-scanned.value))
      else if scanned.value > MAX_INT64 then OutOfRange(MAX_INT64)
      else Number(scanned.value)
  }

  lemma {:induction false} ScanSnoc(text: string, acc: nat, c: char)
    requires Scan(text, acc).Number? && IsDigit(c)
    requires Scan(text, acc).value * 10 + DigitValue(c) <= MAX_UINT64
    ensures Scan(text, acc).value >= 0
    ensures Scan(text + [c], acc) == Number(Scan(text, acc).value * 10 + DigitValue(c))
    decreases |text|
  {
    if text == [] {
      assert text + [c] == [c];
      assert Scan([c][1..], acc * 10 + DigitValue(c)) == Number(acc * 10 + DigitValue(c));
    } else {
      assert (text + [c])[1..] == text[1..] + [c];
      ScanSnoc(text[1..], acc * 10 + DigitValue(text[0]), c);
    }
  }

  lemma {:induction false} ScanOfFormat(n: nat)
    requires n <= MAX_UINT64
    ensures Scan(FormatNat(n), 0) == Number(n)
  {
    if n < 10 {
      assert Scan([DigitChar(n)][1..], n) == Number(n);
    } else {
      ScanOfFormat(n / 10);
      ScanSnoc(FormatNat(n / 10), 0, DigitChar(n % 10));
    }
  }

  /** The lease id a client was sent as text is the lease id its keepalives ask for. */
  lemma RoundTrip(n: int)
    requires -(MAX_INT64 + 1) <= n <= MAX_INT64
    ensures ParseInt(FormatInt(n)) == Number(n)
  {
    if n < 0 {
      ScanOfFormat(-n);
      assert FormatInt(n)[1..] == FormatNat(-n);
    } else {
      ScanOfFormat(n);
      assert IsDigit(FormatInt(n)[0]);
    }
  }
}
