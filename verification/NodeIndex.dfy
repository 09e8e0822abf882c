/** The persisted list of peers and, for each, the journal position synced so far. */
module NodeIndexes {
  import opened Results
  import opened Oids
  import opened Keys

  /** `sequenceNumber` is the watermark; addresses, capabilities and usage figures play no part in syncing. */
  datatype NodeMetadata = NodeMetadata(nodeID: Oid, sequenceNumber: uint64)

  class NodeIndex {
    var db: map<string, NodeMetadata>

    constructor ()
      ensures db == map[]
    {
      db := map[];
    }

    /** The watermark a caller that treats every error as "never seen" works with. */
    ghost function Mark(node: Oid): uint64
      reads this
    {
      var key := KeyFromNodeOid(node);
      if key in db && db[key].nodeID == node then db[key].sequenceNumber else 0
    }

    method Get(node: Oid, readFails: bool) returns (r: Result<NodeMetadata>)
      ensures readFails ==> r.Err?
      ensures !readFails && r.Err? ==> Mark(node) == 0
      ensures r.Ok? ==> r.value == NodeMetadata(node, Mark(node))
    {
      var key := KeyFromNodeOid(node);
      if readFails {
        return Err(Io);
      }
      if key !in db {
        return Err(NotFound);
      }
      if db[key].nodeID != node {
        return Err(Corrupted);
      }
      return Ok(db[key]);
    }

    method Put(metadata: NodeMetadata, writeFails: bool) returns (r: Result<NodeMetadata>)
      modifies this
      ensures r.Err? <==> writeFails
      ensures r.Err? ==> Mark(metadata.nodeID) == old(Mark(metadata.nodeID))
      ensures r.Ok? ==> r.value == metadata && Mark(metadata.nodeID) == metadata.sequenceNumber
      ensures forall node: Oid | node.s != metadata.nodeID.s :: Mark(node) == old(Mark(node))
    {
      if writeFails {
        return Err(Io);
      }
      forall node: Oid | node.s != metadata.nodeID.s
        ensures KeyFromNodeOid(node) != KeyFromNodeOid(metadata.nodeID)
      {
        assert KeyFromNodeOid(node)[3..] == node.s && KeyFromNodeOid(metadata.nodeID)[3..] == metadata.nodeID.s;
      }
      db := db[KeyFromNodeOid(metadata.nodeID) := metadata];
      return Ok(metadata);
    }
  }
}
