/** A way to keep a fact closed: under a quantifier over Unlock it is available only to a proof that mentions
    Unlock, and long chains of steps can pass it on unopened. */
module Locks {
  ghost predicate Unlock(k: int) {
    true
  }
}
