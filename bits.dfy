/**
 * Bit values as the elements handle them: a java.util.BitSet is a finite set of
 * set bit positions, and a reference that may be null is an Option.
 */
module Bits {

  datatype Option<T> = None | Some(value: T)

  /** The value `BitSet.set(0, n)` leaves in an empty bit-set: exactly positions 0..n-1 set. */
  function AllOnes(n: nat): (r: set<nat>)
    ensures forall i: nat :: i in r <==> i < n
    ensures |r| == n
  {
    if n == 0 then {} else AllOnes(n - 1) + {n - 1}
  }

  /** `BitSet.flip(0, n)`: positions below n are complemented, the others are left as they are. */
  function FlipBelow(s: set<nat>, n: nat): (r: set<nat>)
    ensures forall i: nat :: i < n ==> (i in r <==> i !in s)
    ensures forall i: nat :: n <= i ==> (i in r <==> i in s)
  {
    (s - AllOnes(n)) + (AllOnes(n) - s)
  }
}
