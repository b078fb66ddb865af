/** Fixed-width integers of the Rust sources, the casts between them, and
    the decimal rendering of `usize::to_string`. Casts with `as` keep the low
    bits (two's complement), which the functions here write out. */
module Ints {

  const TWO_8: int := 0x100
  const TWO_16: int := 0x1_0000
  const TWO_31: int := 0x8000_0000
  const TWO_32: int := 0x1_0000_0000
  const TWO_63: int := 0x8000_0000_0000_0000
  const TWO_64: int := 0x1_0000_0000_0000_0000

  type u8 = x: int | 0 <= x < TWO_8
  type u16 = x: int | 0 <= x < TWO_16
  type u32 = x: int | 0 <= x < TWO_32
  type u64 = x: int | 0 <= x < TWO_64
  type i32 = x: int | -TWO_31 <= x < TWO_31
  type i64 = x: int | -TWO_63 <= x < TWO_63

  const I32_MAX: int := TWO_31 - 1
  const I64_MAX: int := TWO_63 - 1

  /** `x as i32`: the low 32 bits read as a signed number. */
  function AsI32(x: int): (r: i32)
    ensures (r - x) % TWO_32 == 0
    ensures -TWO_31 <= x < TWO_31 ==> r == x
  {
    var m := x % TWO_32;
    if m >= TWO_31 then m - TWO_32 else m
  }

  /** `x as i64`: the low 64 bits read as a signed number. */
  function AsI64(x: int): (r: i64)
    ensures (r - x) % TWO_64 == 0
    ensures -TWO_63 <= x < TWO_63 ==> r == x
  {
    var m := x % TWO_64;
    if m >= TWO_63 then m - TWO_64 else m
  }

  /** `x as u64`: the low 64 bits. */
  function AsU64(x: int): (r: u64)
    ensures (r - x) % TWO_64 == 0
    ensures 0 <= x < TWO_64 ==> r == x
  {
    x % TWO_64
  }

  /** `x as u32` (and `x as u16`, `x as u8` with the other widths). */
  function AsU32(x: int): (r: u32)
    ensures (r - x) % TWO_32 == 0
    ensures 0 <= x < TWO_32 ==> r == x
  {
    x % TWO_32
  }

  // ---------------------------------------------------------------------------
  // Decimal rendering

  function Digit(d: nat): char
    requires d < 10
  {
    "0123456789"[d]
  }

  /** `n.to_string()` for an unsigned integer: its decimal digits, most
      significant first, with no leading zero. */
  function Decimal(n: nat): (s: string)
    ensures |s| >= 1
    ensures n < 10 <==> |s| == 1
    ensures s[|s| - 1] == Digit(n % 10)
    decreases n
  {
    if n < 10 then [Digit(n)] else Decimal(n / 10) + [Digit(n % 10)]
  }

  lemma DigitInjective(a: nat, b: nat)
    requires a < 10 && b < 10 && Digit(a) == Digit(b)
    ensures a == b
  {
  }

  /** Distinct numbers have distinct decimal renderings, so names built from
      a counter never collide. */
  lemma {:induction false} DecimalInjective(a: nat, b: nat)
    requires Decimal(a) == Decimal(b)
    ensures a == b
    decreases a
  {
    var s := Decimal(a);
    DigitInjective(a % 10, b % 10);
    if a >= 10 {
      assert b >= 10;
      assert Decimal(a / 10) == s[..|s| - 1] == Decimal(b / 10);
      DecimalInjective(a / 10, b / 10);
    }
  }

  /** The lower-case hexadecimal digit of `d`. */
  function HexDigit(d: nat): char
    requires d < 16
  {
    if d < 10 then ('0' as int + d) as char else ('a' as int + d - 10) as char
  }

  /** The value of a lower-case hexadecimal digit. */
  function DigitValue(c: char): nat
  {
    if '0' <= c <= '9' then c as int - '0' as int
    else if 'a' <= c <= 'f' then c as int - 'a' as int + 10
    else 0
  }

  /** The value of a string of lower-case hexadecimal digits, most
      significant first. */
  function HexValue(s: string): nat
  {
    if s == [] then 0 else HexValue(s[..|s| - 1]) * 16 + DigitValue(s[|s| - 1])
  }

  /** `format!` with the alternate hexadecimal specifier `#x`: `0x` and the lower-case hexadecimal digits,
      most significant first, with no leading zero. */
  function Hex(n: nat): (s: string)
    ensures |s| >= 3 && s[..2] == "0x"
    ensures s[|s| - 1] == HexDigit(n % 16)
  {
    "0x" + HexDigits(n)
  }

  function HexDigits(n: nat): (s: string)
    ensures |s| >= 1
    ensures n < 16 <==> |s| == 1
    ensures s[|s| - 1] == HexDigit(n % 16)
    decreases n
  {
    if n < 16 then [HexDigit(n)] else HexDigits(n / 16) + [HexDigit(n % 16)]
  }

  /** Reading the digits back gives the number, and the first digit is `0`
      only for zero itself: the rendering is the number's shortest
      hexadecimal spelling. */
  lemma {:induction false} HexDigitsValue(n: nat)
    ensures HexValue(HexDigits(n)) == n
    ensures HexDigits(n)[0] == '0' <==> n == 0
    decreases n
  {
    var s := HexDigits(n);
    if n < 16 {
      assert s[..|s| - 1] == [];
    } else {
      HexDigitsValue(n / 16);
      assert s[..|s| - 1] == HexDigits(n / 16);
      assert s[0] == HexDigits(n / 16)[0];
    }
  }

  /** The alternate hexadecimal format round-trips: after the `0x` prefix
      the digits read back as the number, with no leading zero. */
  lemma HexRoundTrip(n: nat)
    ensures Hex(n)[..2] == "0x" && HexValue(Hex(n)[2..]) == n
    ensures Hex(n)[2] == '0' ==> n == 0
  {
    HexDigitsValue(n);
    assert Hex(n)[2..] == HexDigits(n);
  }
}
