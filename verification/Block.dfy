/** Block metadata, the values a swarm replicates. */
module Blocks {
  import opened Oids

  /** `updateTime` is the instant on a common clock; only comparisons of it matter. */
  datatype Metadata = Metadata(oid: Oid, length: nat, updateTime: int, isDeleted: bool) {
    /** The text under which an index files this metadata. */
    function Slot(): string { oid.s }
  }

  /** Metadata with the number a node's own journal gave it. */
  datatype ExtendedMetadata = ExtendedMetadata(sequenceNumber: nat, metadata: Metadata)

  predicate IsMetadataEqual(a: Metadata, b: Metadata) {
    a == b
  }
}
