/** The values of the content-addressed store library that the transfer layer
    handles without looking inside them. */
module Blobs {

  /** A content identifier (a 32-byte BLAKE3 digest in the store). */
  datatype Hash = Hash(digest: seq<bv8>)

  /** A temporary tag keeping one blob alive in the store; only the hash it
      protects is visible to the transfer layer. */
  datatype TempTag = TempTag(hash: Hash)

  /** The identity of a peer. */
  datatype NodeId = NodeId(key: seq<bv8>)

  datatype BlobFormat = Raw | HashSeq

  /** A parsed blob ticket: where to reach the peer and which content to ask for. */
  datatype BlobTicket = BlobTicket(nodeId: NodeId, hash: Hash, format: BlobFormat)

  /** A collection: `(name, hash)` pairs in the order they were collected. */
  type Collection = seq<(string, Hash)>
}
