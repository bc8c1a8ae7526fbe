/** Vocabulary shared by the models: optional values, durations, and Redis keys with an expiry. */
module Basics {

  datatype Option<+T> = None | Some(value: T)

  /** A span of time that does not run backwards. */
  type Duration = d: real | 0.0 <= d witness 0.0

  /** Redis keys that carry no value of interest, each with the instant at which it expires.
      A key is gone at its expiry instant. */
  type Expiries = map<nat, real>

  predicate Live(keys: Expiries, key: nat, now: real) {
    key in keys && now < keys[key]
  }

  /** The smallest integer that is at least x. */
  function Ceil(x: real): (c: int)
    ensures c as real - 1.0 < x <= c as real
  {
    -((-x).Floor)
  }
}
