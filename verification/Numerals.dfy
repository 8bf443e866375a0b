/** Numbers as text: `{:x}`, `from_str_radix` and `parse` for a 64-bit `usize`. */
module Numerals {
  import opened Wrappers

  const USIZE: nat := 0x1_0000_0000_0000_0000

  function HexDigit(d: nat): char
    requires d < 16
  {
    "0123456789abcdef"[d]
  }

  function Hex(n: nat): string {
    if n < 16 then [HexDigit(n)] else Hex(n / 16) + [HexDigit(n % 16)]
  }

  function Decimal(n: nat): string {
    if n < 10 then [HexDigit(n)] else Decimal(n / 10) + [HexDigit(n % 10)]
  }

  lemma {:induction false} DecimalIsDigits(n: nat)
    ensures forall i :: 0 <= i < |Decimal(n)| ==> '0' <= Decimal(n)[i] <= '9'
  {
    if n >= 10 {
      DecimalIsDigits(n / 10);
    }
  }

  function DigitValue(c: char, radix: nat): Option<nat> {
    var value := if '0' <= c <= '9' then c as int - '0' as int
                 else if 'a' <= c <= 'z' then c as int - 'a' as int + 10
                 else if 'A' <= c <= 'Z' then c as int - 'A' as int + 10
                 else radix;
    if value < radix then Some(value) else None
  }

  function Value(digits: string, radix: nat): Option<nat> {
    if digits == "" then Some(0)
    else
      match (Value(digits[..|digits| - 1], radix), DigitValue(digits[|digits| - 1], radix))
      case (Some(high), Some(low)) => Some(high * radix + low)
      case _ => None
  }

  /** One leading plus sign is allowed; no digits or too large a number is an error. */
  function FromText(s: string, radix: nat): Option<nat> {
    var digits := if s != "" && s[0] == '+' then s[1..] else s;
    if digits == "" then None
    else
      match Value(digits, radix)
      case Some(value) => if value < USIZE then Some(value) else None
      case None => None
  }

  lemma HexDigitHasItsValue(d: nat)
    requires d < 16
    ensures DigitValue(HexDigit(d), 16) == Some(d) && (d > 0 ==> HexDigit(d) != '0')
  {
  }

  lemma NoDigits()
    ensures Value("", 16) == Some(0)
  {
  }

  lemma OneMoreDigit(digits: string, c: char)
    requires Value(digits, 16).Some? && DigitValue(c, 16).Some?
    ensures Value(digits + [c], 16) == Some(Value(digits, 16).value * 16 + DigitValue(c, 16).value)
  {
    assert (digits + [c])[..|digits|] == digits;
  }

  lemma {:induction false} HexHasItsValue(n: nat)
    ensures Value(Hex(n), 16) == Some(n) && Hex(n) != ""
    ensures DigitValue(Hex(n)[0], 16).Some? && (n > 0 ==> Hex(n)[0] != '0')
  {
    hide DigitValue, HexDigit, Value;
    HexDigitHasItsValue(n % 16);
    if n < 16 {
      NoDigits();
      OneMoreDigit("", HexDigit(n));
      assert "" + [HexDigit(n)] == [HexDigit(n)];
    } else {
      HexHasItsValue(n / 16);
      OneMoreDigit(Hex(n / 16), HexDigit(n % 16));
    }
  }

  predicate HexDigits(s: string) {
    forall i :: 0 <= i < |s| ==> DigitValue(s[i], 16).Some?
  }

  lemma {:induction false} ValuedIsHexDigits(s: string)
    ensures Value(s, 16).Some? <==> HexDigits(s)
  {
    if s != "" {
      ValuedIsHexDigits(s[..|s| - 1]);
      assert s == s[..|s| - 1] + [s[|s| - 1]];
    }
  }

  /** Digits that do not start with a zero have a value, and it is not zero. */
  lemma {:induction false} NoLeadingZero(s: string)
    requires s != "" && HexDigits(s) && s[0] != '0'
    ensures Value(s, 16).Some? && Value(s, 16).value > 0
  {
    if |s| == 1 {
      assert s[..0] == "" && Value("", 16) == Some(0);
    } else {
      NoLeadingZero(s[..|s| - 1]);
    }
  }

  /** Dropping digits at the end does not make a number larger. */
  lemma {:induction false} ShorterIsSmaller(s: string, k: nat)
    requires HexDigits(s) && k <= |s|
    ensures Value(s, 16).Some? && Value(s[..k], 16).Some? && Value(s[..k], 16).value <= Value(s, 16).value
  {
    if k == |s| {
      assert s[..k] == s;
      ValuedIsHexDigits(s);
    } else {
      ShorterIsSmaller(s[..|s| - 1], k);
      assert s[..|s| - 1][..k] == s[..k];
      assert DigitValue(s[|s| - 1], 16).Some?;
    }
  }

  lemma HexReadsBack(n: nat)
    requires n < USIZE
    ensures FromText(Hex(n), 16) == Some(n)
  {
    HexHasItsValue(n);
  }
}
