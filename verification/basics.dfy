/** Small value types shared by the whole model: the optional and the
    `expected<void, string>` results of the controller, the 32-bit `int`
    of the firmware, and the decimal rendering `std::format("{}", n)` uses
    when it embeds a number in a message. */
module Basics {

  /** The C++ `int` (32 bits on the target) used for progress and sizes. */
  newtype int32 = x: int | -0x8000_0000 <= x < 0x8000_0000

  datatype Option<+T> = None | Some(value: T)

  /** `std::expected<void, std::string>`: success, or failure with a message. */
  datatype Outcome = Pass | Fail(msg: string)

  predicate IsDigit(c: char) {
    '0' <= c <= '9'
  }

  function DigitChar(d: nat): (c: char)
    requires d < 10
    ensures IsDigit(c)
  {
    ['0', '1', '2', '3', '4', '5', '6', '7', '8', '9'][d]
  }

  function DigitValue(c: char): (d: nat)
    requires IsDigit(c)
    ensures d < 10 && DigitChar(d) == c
  {
    (c as int - '0' as int) as nat
  }

  /** Decimal digits of `n`, most significant first, without leading zeros. */
  function NatToDecimal(n: nat): (r: string)
    ensures 1 <= |r|
    ensures forall i :: 0 <= i < |r| ==> IsDigit(r[i])
    ensures 1 < |r| ==> r[0] != '0'
    decreases n
  {
    if n < 10 then [DigitChar(n)] else NatToDecimal(n / 10) + [DigitChar(n % 10)]
  }

  /** The value a string of decimal digits denotes: the inverse of NatToDecimal. */
  function DecimalValue(s: string): nat
    requires forall i :: 0 <= i < |s| ==> IsDigit(s[i])
  {
    if |s| == 0 then 0 else 10 * DecimalValue(s[..|s| - 1]) + DigitValue(s[|s| - 1])
  }

  lemma {:induction false} DecimalRoundTrip(n: nat)
    ensures DecimalValue(NatToDecimal(n)) == n
    decreases n
  {
    if 10 <= n {
      var p := NatToDecimal(n / 10);
      var r := NatToDecimal(n);
      assert r == p + [DigitChar(n % 10)];
      assert r[..|r| - 1] == p;
      DecimalRoundTrip(n / 10);
    }
  }

  /** Decimal rendering of a signed integer: a '-' before the digits of |x|. */
  function IntToDecimal(x: int): (r: string)
    ensures 1 <= |r|
    ensures x < 0 <==> r[0] == '-'
    ensures x < 0 ==> r[1..] == NatToDecimal(-x)
    ensures 0 <= x ==> r == NatToDecimal(x)
  {
    if x < 0 then "-" + NatToDecimal(-x) else NatToDecimal(x)
  }
}
