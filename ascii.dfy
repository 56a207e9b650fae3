/** Bytes, ASCII text and the `%d` conversion used by both boards. */
module Ascii {

  /** An unsigned 8-bit value (`uint8_t`, and a `char` byte). */
  type uint8 = x: int | 0 <= x < 256

  /** 2^32: `uint32_t` arithmetic wraps modulo this. */
  const UINT32_MODULUS: int := 0x1_0000_0000

  datatype Option<T> = None | Some(value: T)

  const NEWLINE: uint8 := 10
  const CARRIAGE_RETURN: uint8 := 13
  const SPACE: uint8 := 32
  const COMMA: uint8 := 44
  const DIGIT_ZERO: uint8 := 48
  /** The character 'a' the load routine seeds its scan variables with. */
  const LETTER_A: uint8 := 97

  predicate IsDigit(b: uint8) {
    DIGIT_ZERO <= b <= DIGIT_ZERO + 9
  }

  /** A character that is neither a comma, a digit, a newline nor NUL, and is 7-bit ASCII:
      the load routine passes over such characters without effect. */
  predicate IsPlainChar(c: char) {
    c != ',' && !('0' <= c <= '9') && c != '\n' && c != 0 as char && (c as int) < 128
  }

  predicate IsPlainText(s: string) {
    forall i | 0 <= i < |s| :: IsPlainChar(s[i])
  }

  /** A string literal of the firmware, one byte per character. */
  function Bytes(s: string): (r: seq<uint8>)
    requires forall i | 0 <= i < |s| :: s[i] as int < 256
  {
    seq(|s|, i requires 0 <= i < |s| => s[i] as int)
  }

  /** `sprintf("%d", n)` for a non-negative `n`: decimal digits, most significant first. */
  function Decimal(n: nat): seq<uint8> {
    if n < 10 then [DIGIT_ZERO + n] else Decimal(n / 10) + [DIGIT_ZERO + n % 10]
  }

  /** `%d` prints only digits, at least one, ending in the units digit, with no leading zero, and
      as many as the value has decimal places. */
  lemma {:induction false} DecimalShape(n: nat)
    ensures var r := Decimal(n);
      && 1 <= |r|
      && (forall i | 0 <= i < |r| :: IsDigit(r[i]))
      && r[|r| - 1] == DIGIT_ZERO + n % 10
      && (n >= 10 ==> r[0] != DIGIT_ZERO)
      && (n < 10 ==> |r| == 1)
      && (n < 100 ==> |r| <= 2)
      && (n < 1000 ==> |r| <= 3)
  {
    if n >= 10 {
      DecimalShape(n / 10);
      var r, p := Decimal(n), Decimal(n / 10);
      assert r == p + [DIGIT_ZERO + n % 10];
      forall i | 0 <= i < |r| ensures IsDigit(r[i]) {
        if i < |p| { assert r[i] == p[i]; }
      }
      assert r[0] == p[0];
    }
  }

  /** The number a string of decimal digits denotes. */
  function DigitsValue(s: seq<uint8>): int {
    if s == [] then 0 else DigitsValue(s[..|s| - 1]) * 10 + (s[|s| - 1] - DIGIT_ZERO)
  }

  /** `%d` is read back exactly by accumulating digits. */
  lemma {:induction false} DecimalValue(n: nat)
    ensures DigitsValue(Decimal(n)) == n
  {
    if n >= 10 {
      var r := Decimal(n);
      DecimalShape(n / 10);
      assert r[..|r| - 1] == Decimal(n / 10);
      DecimalValue(n / 10);
    }
  }

  /** Number of occurrences of byte `b` in `s`. */
  function Count(s: seq<uint8>, b: uint8): nat {
    if s == [] then 0 else (if s[0] == b then 1 else 0) + Count(s[1..], b)
  }

  lemma {:induction false} CountAppend(s: seq<uint8>, t: seq<uint8>, b: uint8)
    ensures Count(s + t, b) == Count(s, b) + Count(t, b)
  {
    if s != [] {
      assert (s + t)[0] == s[0];
      assert (s + t)[1..] == s[1..] + t;
      CountAppend(s[1..], t, b);
    } else {
      assert s + t == t;
    }
  }

  lemma {:induction false} CountAbsent(s: seq<uint8>, b: uint8)
    requires forall i | 0 <= i < |s| :: s[i] != b
    ensures Count(s, b) == 0
  {
    if s != [] {
      CountAbsent(s[1..], b);
    }
  }
}
