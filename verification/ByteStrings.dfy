/** Bytes that are only joined, cut, counted and compared. */
module ByteStrings {
  type Bytes = seq<bv8>
}
