/** Instants are nanoseconds; the conditional-update tables store them cut to milliseconds. */
module Milliseconds {

  const MILLI: int := 1_000_000

  function Ms(time: int): int { time / MILLI }

  /** An instant is before the stored millisecond exactly if its own millisecond is. */
  lemma MillisecondsAgree(now: int, expires: int)
    ensures now < expires * MILLI <==> Ms(now) < expires
  {
  }

  lemma MsMonotone(a: int, b: int)
    requires a <= b
    ensures Ms(a) <= Ms(b)
  {
  }
}
