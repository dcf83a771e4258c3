/** Facts about sequences that several modules need. */
module Sequences {

  /** Nothing outside [lo, hi) differs between `a` and `b`. */
  ghost predicate SameOutside<T>(a: seq<T>, b: seq<T>, lo: nat, hi: nat) {
    |a| == |b| && forall k :: 0 <= k < |a| && !(lo <= k < hi) ==> a[k] == b[k]
  }
}
