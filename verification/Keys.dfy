/** Keys as the tables see them. */
module Keys {
  import opened Prober
  import opened SizePolicy

  /** Abstract hash function and key equality. */
  datatype KeyPolicy<!K> = KeyPolicy(hash: K -> nat, eq: (K, K) -> bool)

  /** Equality is an equivalence and equal keys hash equally, to 64-bit values. */
  ghost predicate Lawful<K(!new)>(p: KeyPolicy<K>) {
    && (forall k :: p.hash(k) < Pow2(WORD))
    && (forall k :: p.eq(k, k))
    && (forall a, b :: p.eq(a, b) ==> p.eq(b, a) && p.hash(a) == p.hash(b))
    && (forall a, b, c :: p.eq(a, b) && p.eq(b, c) ==> p.eq(a, c))
  }
}
