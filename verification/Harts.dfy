/** The three hardware threads that one wrapper holds. */
module Harts {
  type Hart = i: nat | i < 3

  /** One value a hart. */
  datatype Three<T> = Three(h0: T, h1: T, h2: T) {
    function At(i: Hart): T {
      if i == 0 then h0 else if i == 1 then h1 else h2
    }

    function Map<U>(f: T -> U): Three<U> {
      Three(f(h0), f(h1), f(h2))
    }
  }
}
