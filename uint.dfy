/** Fixed-width machine integers of the firmware (ESP32: `unsigned long` and
    `uint32_t` are 32 bits wide) and the wrap-around arithmetic it relies on. */
module Uint {

  const U32: int := 0x1_0000_0000

  /** An 8-bit byte as read from the serial line. */
  type byte = b: int | 0 <= b < 256

  /** A 32-bit unsigned value: counters, `millis()` timestamps, intervals. */
  type u32 = x: int | 0 <= x < 0x1_0000_0000

  /** `x + n` in 32-bit unsigned arithmetic (counter increments wrap to 0). */
  function Add32(x: u32, n: nat): (r: u32)
    ensures x + n < U32 ==> r == x + n
  {
    (x + n) % U32
  }

  /** Two wrapping additions are one wrapping addition of the sum. */
  lemma Add32Assoc(x: u32, a: nat, b: nat)
    ensures Add32(Add32(x, a), b) == Add32(x, a + b)
  {
    var q := (x + a) / U32;
    assert x + a == q * U32 + Add32(x, a);
    assert Add32(x, a) + b == (x + a + b) - q * U32;
  }

  /** `a - b` in 32-bit unsigned arithmetic: the elapsed time between two
      `millis()` readings, correct across the 49.7-day wrap of the clock. */
  function Sub32(a: u32, b: u32): (r: u32)
    ensures a >= b ==> r == a - b
    ensures a < b ==> r == U32 + a - b
    ensures Add32(b, r) == a
  {
    (a - b) % U32
  }
}
