/**
 * The token estimator. The encoder is a foreign library, so it is a parameter:
 * `encode(text)` is `Some(n)` when it returns a count and `None` when it raises.
 */
module Tokens {
  import opened Wrappers

  /** The encoder's count, or `len(text) // 4` when the encoder raised. */
  function EstimateTokens(encode: string -> Option<nat>, text: string): (r: nat)
    ensures encode(text).Some? ==> r == encode(text).value
    ensures encode(text).None? ==> 4 * r <= |text| < 4 * r + 4
  {
    match encode(text)
    case Some(n) => n
    case None => |text| / 4
  }
}
