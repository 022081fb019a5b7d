/** What several modules use: numbers above 0, bytes, and how sets within others count. */
module Basics {
  type pos = n: nat | n > 0 witness 1

  type byte = b: int | 0 <= b < 0x100

  lemma {:induction false} FewerWithin<T>(a: set<T>, b: set<T>)
    requires a <= b
    ensures |a| <= |b|
  {
    assert b == a + (b - a);
  }
}
