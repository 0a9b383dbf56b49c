/** ByteView: the immutable bytes of a cached value. */
module ByteViews {
  datatype ByteView = ByteView(b: seq<bv8>)

  /** The byte length the cache charges for a view (its Value.Len). */
  function Len(v: ByteView): nat { |v.b| }

  /** cloneBytes: a defensive copy. Sequences are values, so the copy holds
      exactly the source's bytes. */
  function CloneBytes(b: seq<bv8>): seq<bv8> { b }
}
