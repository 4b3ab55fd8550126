/**
  Fixed-width unsigned arithmetic of the controller, written out on unbounded
  integers. Timestamps are `millis()` readings: the model passes them in as
  `nat` values and reproduces the `uint32` subtraction the firmware uses when it
  measures an interval.
 */
module Uint {

  const U8: nat := 0x100
  const U16: nat := 0x1_0000
  const U32: nat := 0x1_0000_0000
  const U64: nat := 0x1_0000_0000_0000_0000

  /** `a - b` on two `uint32` values: the difference wraps modulo 2^32. */
  function Sub32(a: nat, b: nat): (r: nat)
    ensures r < U32
    ensures b <= a < b + U32 ==> r == a - b
  {
    (a - b) % U32
  }

  /** `a - b` on two `uint64` values. */
  function Sub64(a: nat, b: nat): (r: nat)
    ensures r < U64
    ensures b <= a < b + U64 ==> r == a - b
  {
    (a - b) % U64
  }

  /** `a += b` on a `uint16` accumulator. */
  function Add16(a: nat, b: nat): (r: nat)
    ensures r < U16
    ensures a + b < U16 ==> r == a + b
  {
    (a + b) % U16
  }

  /** An `int` narrowed to `int16_t`: the value modulo 2^16, read as two's complement. */
  function Int16(x: int): (v: int)
    ensures -0x8000 <= v < 0x8000
    ensures (x - v) % U16 == 0
    ensures -0x8000 <= x < 0x8000 ==> v == x
  {
    var m := x % U16;
    if m < 0x8000 then m else m - U16
  }

  /** Clamping of `constrain(x, lo, hi)` for `lo <= hi`. */
  function Clamp(x: int, lo: int, hi: int): (r: int)
    requires lo <= hi
    ensures lo <= r <= hi
    ensures lo <= x <= hi ==> r == x
  {
    if x < lo then lo else if x > hi then hi else x
  }

  /**
    Shifting a full fixed-size table down from slot i to make room for x:
    the last entry falls off and x comes in, nothing else changes.
   */
  lemma ShiftInMultiset<T>(t: seq<T>, i: nat, x: T)
    requires i < |t|
    ensures multiset(t[..i] + [x] + t[i..|t| - 1]) + multiset{t[|t| - 1]} == multiset(t) + multiset{x}
  {
    var a, b, last := t[..i], t[i..|t| - 1], t[|t| - 1];
    assert t == a + (b + [last]);
    calc {
      multiset(a + [x] + b) + multiset{last};
      multiset(a) + multiset{x} + multiset(b) + multiset{last};
      multiset(a) + multiset(b + [last]) + multiset{x};
      multiset(t) + multiset{x};
    }
  }
}
