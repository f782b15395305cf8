/** The bounding helpers the game uses on positions (Math.max, Math.min and their composition). */
module Numeric {
  function Max(a: real, b: real): real { if a < b then b else a }
  function Min(a: real, b: real): real { if a < b then a else b }

  /** v kept within [lo, hi], the lower bound winning when the range is empty. */
  function Clamp(v: real, lo: real, hi: real): real
  {
    Max(lo, Min(v, hi))
  }
}
