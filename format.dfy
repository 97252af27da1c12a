/** C++ integer and stream-formatting primitives that the recorder's text
    helpers are built from: truncating division, the 32-bit `int` cast,
    `operator<<` on integers and `std::setw`-style zero padding. */
module Format {

  datatype Option<+T> = None | Some(value: T)

  const Int32Modulus: int := 0x1_0000_0000

  /** The C++ `int` the helpers take their arguments as. */
  newtype int32 = x: int | -0x8000_0000 <= x < 0x8000_0000

  /** `static_cast<int>` of a 64-bit value: wraps modulo 2^32 (C++20). */
  function ToInt32(x: int): (r: int32)
    ensures (r as int - x) % Int32Modulus == 0
    ensures -0x8000_0000 <= x < 0x8000_0000 ==> r as int == x
  {
    ((x + 0x8000_0000) % Int32Modulus - 0x8000_0000) as int32
  }

  /** C++ integer division, which truncates toward zero (Dafny's `/` does not). */
  function TDiv(a: int, b: int): int
    requires b > 0
  {
    if a >= 0 then a / b else -((-a) / b)
  }

  /** C++ `%`: the remainder takes the sign of the dividend. */
  function TMod(a: int, b: int): (r: int)
    requires b > 0
    ensures a == b * TDiv(a, b) + r
    ensures -b < r < b
    ensures a >= 0 ==> r >= 0
    ensures a <= 0 ==> r <= 0
  {
    a - b * TDiv(a, b)
  }

  function Digit(d: int): (c: char)
    requires 0 <= d < 10
    ensures '0' <= c <= '9'
  {
    (0x30 + d) as char
  }

  predicate IsDigit(c: char) {
    '0' <= c <= '9'
  }

  predicate AllDigits(s: string) {
    forall i :: 0 <= i < |s| ==> IsDigit(s[i])
  }

  /** Decimal digits of a natural number, most significant first, no leading zeros. */
  function NatDigits(n: nat): (s: string)
    ensures 1 <= |s|
    ensures AllDigits(s)
    ensures s[0] == '0' ==> n == 0
    decreases n
  {
    if n < 10 then [Digit(n)] else NatDigits(n / 10) + [Digit(n % 10)]
  }

  /** What `operator<<` writes for an `int` with no width set. */
  function IntToString(n: int): string {
    if n < 0 then "-" + NatDigits(-n) else NatDigits(n)
  }

  /** The value of a string of decimal digits (the empty string is 0). */
  function DigitsValue(s: string): nat
    requires AllDigits(s)
  {
    if s == [] then 0 else DigitsValue(s[..|s| - 1]) * 10 + DigitValue(s[|s| - 1])
  }

  function DigitValue(c: char): int {
    c as int - 0x30
  }

  /** The value of a field of exactly two digits. */
  function TwoDigitValue(s: string): int
    requires |s| == 2
  {
    10 * DigitValue(s[0]) + DigitValue(s[1])
  }

  /** The value of a field of exactly four digits. */
  function FourDigitValue(s: string): int
    requires |s| == 4
  {
    1000 * DigitValue(s[0]) + 100 * DigitValue(s[1]) + 10 * DigitValue(s[2]) + DigitValue(s[3])
  }

  /** Right-adjusted padding: `stream.width(w)` with `stream.fill(fill)`. */
  function PadLeft(s: string, width: nat, fill: char): (r: string)
    ensures |r| == if |s| < width then width else |s|
  {
    if |s| < width then seq(width - |s|, _ => fill) + s else s
  }

  /** The padded text ends with the original text, after fill characters only. */
  lemma PadLeftContents(s: string, width: nat, fill: char)
    ensures var r := PadLeft(s, width, fill);
      r[|r| - |s|..] == s && forall i :: 0 <= i < |r| - |s| ==> r[i] == fill
  {
  }

  /** `ss.width(2); ss << n;` on a stream whose fill character is '0'. */
  function Width2(n: int): string {
    PadLeft(IntToString(n), 2, '0')
  }

  lemma {:induction false} NatDigitsValue(n: nat)
    ensures DigitsValue(NatDigits(n)) == n
    decreases n
  {
    if n >= 10 {
      var s := NatDigits(n);
      assert s[..|s| - 1] == NatDigits(n / 10);
      NatDigitsValue(n / 10);
    }
  }

  lemma {:induction false} LeadingZeroValue(s: string)
    requires AllDigits(s)
    ensures AllDigits("0" + s) && DigitsValue("0" + s) == DigitsValue(s)
    decreases |s|
  {
    assert AllDigits("0" + s);
    if s != [] {
      var t := "0" + s;
      assert t[..|t| - 1] == "0" + s[..|s| - 1];
      LeadingZeroValue(s[..|s| - 1]);
    }
  }

  /** A zero-padded field of a non-negative number reads back as that number. */
  lemma Width2Value(n: nat)
    ensures AllDigits(Width2(n)) && DigitsValue(Width2(n)) == n
  {
    NatDigitsValue(n);
    if n < 10 {
      assert Width2(n) == "0" + NatDigits(n);
      LeadingZeroValue(NatDigits(n));
    }
  }

  /** The two-digit rendering of 0..99. */
  lemma Width2Small(n: int)
    requires 0 <= n < 100
    ensures Width2(n) == [Digit(n / 10), Digit(n % 10)]
  {
    if n >= 10 {
      assert NatDigits(n) == NatDigits(n / 10) + [Digit(n % 10)];
    }
  }

  /** The four-digit rendering of 1000..9999, written with no padding. */
  lemma FourDigits(n: int)
    requires 1000 <= n < 10000
    ensures IntToString(n) == [Digit(n / 10 / 10 / 10), Digit(n / 10 / 10 % 10), Digit(n / 10 % 10), Digit(n % 10)]
  {
    assert NatDigits(n / 10 / 10) == [Digit(n / 10 / 10 / 10), Digit(n / 10 / 10 % 10)];
    assert NatDigits(n / 10) == NatDigits(n / 10 / 10) + [Digit(n / 10 % 10)];
  }

  lemma Width2Digits(n: int)
    requires 0 <= n < 100
    ensures |Width2(n)| == 2 && AllDigits(Width2(n)) && TwoDigitValue(Width2(n)) == n
  {
    Width2Small(n);
  }

  lemma FourDigitsValue(n: int)
    requires 1000 <= n < 10000
    ensures |IntToString(n)| == 4 && AllDigits(IntToString(n)) && FourDigitValue(IntToString(n)) == n
  {
    FourDigits(n);
    var q1 := n / 10;
    var q2 := q1 / 10;
    assert n == 10 * q1 + n % 10 && q1 == 10 * q2 + q1 % 10 && q2 == 10 * (q2 / 10) + q2 % 10;
  }
}
