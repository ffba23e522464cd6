/** What the kernel reads at its own addresses, before and after the paging layer resized a block of its pages.
    The paging layer guarantees it, and the kernel heap relies on it. */
module KernelBytes {

  predicate CarriedAt(m: map<nat, bv8>, m': map<nat, bv8>, a: nat, at: nat, i: nat) {
    a + i in m ==> at + i in m' && m'[at + i] == m[a + i]
  }

  predicate LeftAt(m: map<nat, bv8>, m': map<nat, bv8>, x: nat) { x in m ==> x in m' && m'[x] == m[x] }

  /** The block of len bytes at `a` has become the block of n bytes at `at`: what both hold is the same, and outside
      the two nothing has changed. */
  predicate Carried(m: map<nat, bv8>, m': map<nat, bv8>, a: nat, len: nat, at: nat, n: nat) {
    && (forall i: nat {:trigger CarriedAt(m, m', a, at, i)} :: i < len && i < n ==> CarriedAt(m, m', a, at, i))
    && (forall x: nat {:trigger LeftAt(m, m', x)} ::
       x in m && !(a <= x < a + len) && !(at <= x < at + n) ==> LeftAt(m, m', x))
  }
}
