// Small notions that several parts share.

module Collections {

  predicate Increasing(s: seq<int>) {
    forall i, j | 0 <= i < j < |s| :: s[i] < s[j]
  }

  /** What a map of counters reads as; a missing key is zero. */
  function Get<K>(m: map<K, int>, key: K): int {
    if key in m then m[key] else 0
  }
}
