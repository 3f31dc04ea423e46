/** The 64-bit integer arithmetic of durations and sample counts. */
module Int64 {
  const MIN: int := -0x8000_0000_0000_0000
  const MAX: int := 0x7fff_ffff_ffff_ffff
  const NS_PER_SECOND: int := 1_000_000_000
  const NS_PER_MS: int := 1_000_000

  /** Samples per second of canonical audio. */
  const RATE: int := 16_000

  /** Two's-complement wrap-around of an exact result. */
  function Wrap(x: int): (w: int)
    ensures MIN <= w <= MAX
    ensures MIN <= x <= MAX ==> w == x
  {
    (x - MIN) % 0x1_0000_0000_0000_0000 + MIN
  }

  /** Division that truncates toward zero. */
  function Quot(a: int, b: int): int
    requires b > 0
  {
    if a >= 0 then a / b else -((-a) / b)
  }

  /** Samples in a duration at a rate, multiplied and divided in 64 bits. */
  function SamplesIn(rate: int, duration: int): int {
    Quot(Wrap(rate * duration), NS_PER_SECOND)
  }

  /** Duration of a sample count at a rate, multiplied and divided in 64 bits. */
  function DurationOf(samples: int, rate: int): int
    requires rate > 0
  {
    Quot(Wrap(samples * NS_PER_SECOND), rate)
  }
}
