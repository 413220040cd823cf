/** `DualKey`: the work item and de-duplication key of the equality
    traversal, a pair of references compared by identity. */
module Pairs {
  import opened ObjectGraph

  datatype DualKey = DualKey(key1: Ref, key2: Ref)

  /** `DualKey.equals(other)`.  `other` is `None` when it is null or not a
      DualKey; otherwise both components must be the identical objects.
      So Java's equality on DualKeys is exactly value equality of this
      datatype, which is why the visited `HashSet<DualKey>` is a `set`. */
  function Equals(k: DualKey, other: Option<DualKey>): (r: bool)
    ensures r <==> other == Some(k)
  {
    other.Some? && k.key1 == other.value.key1 && k.key2 == other.value.key2
  }

  /** The `hashCode()` of one component (0 for null). */
  function RefHash(r: Ref, objHash: ObjId -> Int32): Int32 {
    if r.Null? then 0 else objHash(r.id)
  }

  /** `DualKey.hashCode()`: the Java-int sum of the components' hashes. */
  function HashCode(k: DualKey, objHash: ObjId -> Int32): Int32 {
    AddInt32(RefHash(k.key1, objHash), RefHash(k.key2, objHash))
  }

  /** Equal DualKeys have equal hashes, whatever the objects' own hashCode,
      so HashSet lookups of DualKeys are consistent. */
  lemma EqualKeysEqualHashes(k: DualKey, other: DualKey, objHash: ObjId -> Int32)
    requires Equals(k, Some(other))
    ensures HashCode(k, objHash) == HashCode(other, objHash)
  {
  }

  /** The pair of two nulls hashes to 0; swapping the components keeps the hash. */
  lemma HashCodeFacts(k: DualKey, objHash: ObjId -> Int32)
    ensures k.key1.Null? && k.key2.Null? ==> HashCode(k, objHash) == 0
    ensures HashCode(DualKey(k.key2, k.key1), objHash) == HashCode(k, objHash)
  {
  }
}
