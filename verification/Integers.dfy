/** Integer helpers. */
module Integers {

  /** The least integer at or above x. */
  function Ceiling(x: real): int { -((-x).Floor) }

  function Greater(a: int, b: int): int { if a < b then b else a }

  function Distance(a: int, b: int): nat { if a < b then b - a else a - b }
}
