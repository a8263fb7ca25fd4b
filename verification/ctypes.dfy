/**
 * The C integer types of the 32-bit target (`unsigned long` and `int` are both
 * 32 bits wide there) and the wrap-around subtraction that every timer in the
 * firmware uses to measure elapsed `millis()`.
 */
module CTypes {

  const MODULUS: int := 0x1_0000_0000

  newtype uint32 = x: int | 0 <= x < 0x1_0000_0000

  newtype int32 = x: int | -0x8000_0000 <= x < 0x8000_0000

  /** `now - since` computed in `unsigned long`: the milliseconds elapsed since
      `since`, read correctly even when `millis()` wrapped in between. */
  function Elapsed(now: uint32, since: uint32): (d: uint32)
    ensures since <= now ==> d as int == now as int - since as int
    ensures now < since ==> d as int == MODULUS - (since as int - now as int)
  {
    ((now as int - since as int) % MODULUS) as uint32
  }

  /** The clock reading `d` milliseconds after `t`, wrapping like `millis()`. */
  function Later(t: uint32, d: nat): uint32
  {
    ((t as int + d) % MODULUS) as uint32
  }

  /** The implicit `int` to `unsigned long` conversion of an assignment. */
  function ToUnsigned(x: int32): (r: uint32)
    ensures 0 <= x ==> r as int == x as int
    ensures x < 0 ==> r as int == x as int + MODULUS
  {
    (x as int % MODULUS) as uint32
  }

  /** Elapsed time measures exactly the delay added by `Later`, up to one
      full turn of the clock. */
  lemma ElapsedLater(since: uint32, d: nat)
    requires d < MODULUS
    ensures Elapsed(Later(since, d), since) as int == d
  {
  }

  /** Adding the elapsed time to the start gives back the current reading. */
  lemma LaterElapsed(since: uint32, now: uint32)
    ensures Later(since, Elapsed(now, since) as nat) == now
  {
  }
}
