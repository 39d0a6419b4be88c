/** Fixed-width integers of the two firmwares, the Arduino `map` helper and
    the `millis()`-based cadence gate shared by every animated effect. */
module Machine {

  /** `uint8_t`. */
  type Byte = x: int | 0 <= x < 0x100

  /** `uint16_t`. */
  type U16 = x: int | 0 <= x < 0x1_0000

  /** `unsigned long` on the ESP32 (32 bits), the type of `millis()`. */
  type U32 = x: int | 0 <= x < 0x1_0000_0000

  /** `int8_t`. */
  type I8 = x: int | -0x80 <= x < 0x80

  /** Assignment of an `int` to a `uint8_t`: C keeps the value modulo 2^8. */
  function ToByte(x: int): Byte {
    x % 0x100
  }

  /** Assignment of an `int`/`long` to a `uint16_t`: modulo 2^16. */
  function ToU16(x: int): U16 {
    x % 0x1_0000
  }

  /** Subtraction of two `unsigned long`s: modulo 2^32. */
  function SubU32(a: U32, b: U32): U32 {
    (a - b) % 0x1_0000_0000
  }

  /** C's integer division, which truncates toward zero (Dafny's `/` is
      Euclidean, which differs for a negative dividend). */
  function CDiv(a: int, b: int): (q: int)
    requires b > 0
    ensures a >= 0 ==> q == a / b
    ensures a < 0 ==> q == -((-a) / b)
  {
    if a >= 0 then a / b else -((-a) / b)
  }

  /** Arduino's `map(x, inMin, inMax, outMin, outMax)` on `long`s. Every call
      site in the firmware passes a constant input range with `inMin < inMax`. */
  function ArduinoMap(x: int, inMin: int, inMax: int, outMin: int, outMax: int): int
    requires inMin < inMax
  {
    CDiv((x - inMin) * (outMax - outMin), inMax - inMin) + outMin
  }

  /** The update interval every animated effect derives from `speed`:
      `uint16_t updateInterval = map(speed, 0, 100, slow, fast)`. */
  function Interval(speed: Byte, slow: U16, fast: U16): U16 {
    ToU16(ArduinoMap(speed, 0, 100, slow, fast))
  }

  /** The cadence gate `currentMillis - lastUpdate >= updateInterval`, with
      the subtraction wrapping like `unsigned long` does. */
  predicate Due(now: U32, lastUpdate: U32, interval: U16) {
    SubU32(now, lastUpdate) >= interval
  }

  /** For a speed in the documented range 0..100 the interval falls from
      `slow` by the speed's share of the span, truncated. */
  lemma IntervalFormula(speed: Byte, slow: U16, fast: U16)
    requires speed <= 100 && fast <= slow
    ensures Interval(speed, slow, fast) == slow - (speed * (slow - fast)) / 100
  {
    var d := slow - fast;
    ScaledDrop(speed, d);
    assert (speed - 0) * (fast - slow) == -(speed * d);
  }

  /** Hence it stays between the fast and the slow bound. */
  lemma IntervalInRange(speed: Byte, slow: U16, fast: U16)
    requires speed <= 100 && fast <= slow
    ensures fast <= Interval(speed, slow, fast) <= slow
  {
    IntervalFormula(speed, slow, fast);
    ScaledDrop(speed, slow - fast);
  }

  /** A higher speed never gives a longer interval (speed 0..100). */
  lemma IntervalNonIncreasing(s1: Byte, s2: Byte, slow: U16, fast: U16)
    requires s1 <= s2 <= 100 && fast <= slow
    ensures Interval(s2, slow, fast) <= Interval(s1, slow, fast)
  {
    var d := slow - fast;
    IntervalFormula(s1, slow, fast);
    IntervalFormula(s2, slow, fast);
    MulMonotone(s1, s2, d);
    DivMonotone(s1 * d, s2 * d);
  }

  lemma DivMonotone(a: nat, b: nat)
    requires a <= b
    ensures a / 100 <= b / 100
  {
    assert a == 100 * (a / 100) + a % 100;
    assert b == 100 * (b / 100) + b % 100;
  }

  /** The drop below `slow` is at most the whole span. */
  lemma ScaledDrop(speed: nat, d: nat)
    requires speed <= 100
    ensures 0 <= (speed * d) / 100 <= d
  {
    MulMonotone(speed, 100, d);
  }

  lemma MulMonotone(a: nat, b: nat, c: nat)
    requires a <= b
    ensures a * c <= b * c
  {
  }

  /** A `uint8_t` level scaled onto a ceiling, `map(level, 0, 255, 0, ceiling)`,
      never exceeds the ceiling and is never negative. */
  lemma ScaleBounded(level: Byte, ceiling: Byte)
    ensures 0 <= ArduinoMap(level, 0, 255, 0, ceiling) <= ceiling
    ensures ArduinoMap(level, 0, 255, 0, ceiling) == level * ceiling / 255
  {
    MulMonotone(level, 255, ceiling);
    assert (level - 0) * (ceiling - 0) == level * ceiling;
  }

  /** `map(level, 0, 255, 0, ceiling)`: a level scaled to a brightness. */
  function Scale(level: Byte, ceiling: Byte): (r: Byte)
    ensures r <= ceiling
    ensures r == level * ceiling / 255
  {
    ScaleBounded(level, ceiling);
    ArduinoMap(level, 0, 255, 0, ceiling)
  }
}
