/**
  One node's sync with a peer, as the program runs it: nested loops over batches and entries,
  with the writes of other goroutines interleaved at every point where the program holds no
  lock. `Gossip` has the same protocol as a step system for a whole swarm.
 */
module Swarm {
  import opened Results
  import opened Oids
  import opened Blocks
  import opened Keys
  import opened Journals
  import opened BlockIndexes
  import opened NodeIndexes
  import opened GossipMirrors
  import opened Gossip

  const BLOCK_INDEX_SYNC_BATCH_SIZE: uint64 := 100

  datatype PeerSyncRequest = PeerSyncRequest(sequenceNumber: uint64, batchSize: uint64)

  /** How a sync ends. `Exhausted` stands for the runs in which the node's own counter would wrap. */
  datatype Outcome = Done | Ignored | Stale | Failed | Exhausted

  class Node {
    const id: Oid
    const blockIndex: BlockIndex
    const nodeIndex: NodeIndex

    constructor (id: Oid, blockIndex: BlockIndex, nodeIndex: NodeIndex)
      ensures this.id == id && this.blockIndex == blockIndex && this.nodeIndex == nodeIndex
    {
      this.id, this.blockIndex, this.nodeIndex := id, blockIndex, nodeIndex;
    }
  }

  /** The server side: unsigned addition turns a request near 2^64 into an empty, refused range. */
  method PeerSync(index: BlockIndex, request: PeerSyncRequest) returns (r: Result<seq<ExtendedMetadata>>)
    ensures r.Err? <==> request.sequenceNumber + request.batchSize >= TWO_TO_THE_64
    ensures index.Valid() && r.Ok? ==>
              r.value == EntriesBetween(index.journal, request.sequenceNumber, request.sequenceNumber + request.batchSize)
  {
    hide BlockIndex.Valid, EntriesBetween;
    r := index.EnumerateBySeq(request.sequenceNumber, Add64(request.sequenceNumber, request.batchSize));
  }

  lemma KeepsFirst(j: seq<Metadata>, k: seq<Metadata>, q: seq<Metadata>, lo: nat, hi: nat, m: Metadata)
    requires Keeps(j, k) && lo <= hi <= |q| && forall i | lo <= i < hi :: Dominates(j, q[i])
    ensures forall i | lo <= i < hi :: Dominates(Put(k, m), q[i])
  {
    PutKeeps(j, k, m);
  }

  lemma PutAllSlices(j: seq<Metadata>, q: seq<Metadata>, lo: nat, mid: nat, hi: nat)
    requires lo <= mid <= hi <= |q|
    ensures PutAll(j, q[lo..hi]) == PutAll(PutAll(j, q[lo..mid]), q[mid..hi])
  {
    PutAllConcat(j, q[lo..mid], q[mid..hi]);
    assert q[lo..mid] + q[mid..hi] == q[lo..hi];
  }

  /** The writes of other goroutines to `index` while the caller holds no lock; none when `quiet`. */
  method Interleave(index: BlockIndex, quiet: bool) returns (ghost puts: seq<Metadata>)
    requires index.Valid()
    modifies index
    ensures index.Valid() && Keeps(old(index.journal), index.journal)
    ensures index.journal == PutAll(old(index.journal), puts)
    ensures quiet ==> puts == [] && index.journal == old(index.journal) && index.lastSeq == old(index.lastSeq)
  {
    hide BlockIndex.Valid, Put, PutAll, Keeps;
    puts := [];
    PutNothing(index.journal, []);
    KeepsItself(index.journal);
    var writes: nat := *;
    while writes > 0 && !quiet && index.lastSeq < MAX_UINT64
      invariant index.Valid() && Keeps(old(index.journal), index.journal)
      invariant index.journal == PutAll(old(index.journal), puts)
      invariant quiet ==> puts == [] && index.journal == old(index.journal) && index.lastSeq == old(index.lastSeq)
    {
      var m: Metadata := *;
      var readFails: bool := *;
      var writeFails: bool := *;
      PutKeeps(old(index.journal), index.journal, m);
      PutAllSnoc(old(index.journal), puts, m);
      var put := index.Put(ExtendedMetadata(0, m), readFails, writeFails);
      if put.Ok? {
        puts := puts + [m];
      }
      writes := writes - 1;
    }
  }

  /** The inner loop: one batch, which is the part of the peer's journal `q` after `seen`. */
  method ApplyBatch(index: BlockIndex, entries: seq<ExtendedMetadata>, seen: nat, ghost q: seq<Metadata>,
                    faulty: bool, quiet: bool, ghost f: Frame, ghost mark: nat)
    returns (outcome: Outcome, maxSeen: nat)
    requires index.Valid()
    requires seen + |entries| <= |q| && forall i | 0 <= i < |entries| :: entries[i] == Numbered(q, seen + i + 1)
    requires f.quiet == quiet && Mirrors(f, index.journal, q, mark, Applying(f.q, entries, 0, seen))
    modifies index
    ensures Mirrors(f, index.journal, q, mark, if outcome == Done then Applying(f.q, entries, |entries|, maxSeen) else Idle)
    ensures outcome in {Done, Failed, Exhausted} && (outcome == Failed ==> faulty)
    ensures outcome == Exhausted ==> |index.journal| == MAX_UINT64
    ensures index.Valid() && Keeps(old(index.journal), index.journal)
    ensures outcome == Done ==>
              && maxSeen == seen + |entries|
              && forall i | seen <= i < maxSeen :: Dominates(index.journal, q[i])
    ensures outcome == Done && quiet ==> index.journal == PutAll(old(index.journal), q[seen..maxSeen])
  {
    hide BlockIndex.Valid, Put, PutAll, Dominates, Keeps, Accepts, Filed, Mirrors;
    maxSeen := seen;
    var i := 0;
    KeepsItself(index.journal);
    assert PutAll(index.journal, q[seen..seen]) == index.journal by { PutNothing(index.journal, q[seen..seen]); }
    while i < |entries|
      invariant 0 <= i <= |entries| && maxSeen == seen + i
      invariant Mirrors(f, index.journal, q, mark, Applying(f.q, entries, i, maxSeen))
      invariant index.Valid() && Keeps(old(index.journal), index.journal)
      invariant forall k | seen <= k < maxSeen :: Dominates(index.journal, q[k])
      invariant quiet ==> index.journal == PutAll(old(index.journal), q[seen..maxSeen])
    {
      var block := entries[i];
      label before:
      ghost var puts := Interleave(index, quiet);
      ghost var j := index.journal;
      OwnPuts(f, old@before(index.journal), q, mark, Applying(f.q, entries, i, maxSeen), puts);
      ApplyFails(f, j, q, mark, entries, i, maxSeen);
      Applies(f, j, q, mark, entries, i, maxSeen);
      KeepsIsTransitive(old(index.journal), old@before(index.journal), j);
      var number := index.GetSeq();
      JournalFits(index);
      if number == MAX_UINT64 {
        return Exhausted, maxSeen;
      }
      var readFails: bool := *;
      var writeFails: bool := *;
      PutKeeps(old(index.journal), j, block.metadata);
      PutDominates(j, block.metadata);
      KeepsFirst(old@before(index.journal), j, q, seen, maxSeen, block.metadata);
      PutAllSnoc(old(index.journal), q[seen..maxSeen], block.metadata);
      assert q[seen..maxSeen] + [block.metadata] == q[seen..maxSeen + 1];
      var put := index.Put(block, readFails && faulty, writeFails && faulty);
      if put.Err? {
        return Failed, maxSeen;
      }
      maxSeen := Max(maxSeen, block.sequenceNumber);
      i := i + 1;
    }
    return Done, maxSeen;
  }

  lemma JournalFits(index: BlockIndex)
    requires index.Valid()
    ensures |index.journal| == index.lastSeq < TWO_TO_THE_64
  {
    hide Grown, SeqKeys, SlotKeys;
  }

  /** One `PeerSync` call over the network: the peer may write before it answers, the call may fail or time out. */
  method Fetch(peer: BlockIndex, seen: uint64, faulty: bool, quiet: bool)
    returns (r: Result<seq<ExtendedMetadata>>, ghost puts: seq<Metadata>)
    requires peer.Valid() && seen <= |peer.journal| && seen < MAX_UINT64
    modifies peer
    ensures peer.Valid() && Keeps(old(peer.journal), peer.journal)
    ensures peer.journal == PutAll(old(peer.journal), puts) && (quiet ==> puts == [])
    ensures r.Ok? ==> r.value == EntriesBetween(peer.journal, seen + 1, seen + 1 + BLOCK_INDEX_SYNC_BATCH_SIZE)
    ensures old(peer.journal) <= peer.journal && |peer.journal| < TWO_TO_THE_64
    ensures quiet ==> peer.journal == old(peer.journal)
    ensures r.Err? ==> faulty || seen + 1 + BLOCK_INDEX_SYNC_BATCH_SIZE >= TWO_TO_THE_64
    ensures r.Ok? ==>
              && |r.value| == Min(BLOCK_INDEX_SYNC_BATCH_SIZE, |peer.journal| - seen)
              && seen + |r.value| < MAX_UINT64
              && forall i | 0 <= i < |r.value| :: r.value[i] == Numbered(peer.journal, seen + i + 1)
  {
    hide BlockIndex.Valid, EntriesBetween, Dominates, PutAll;
    puts := Interleave(peer, quiet);
    JournalFits(peer);
    var rpcFails: bool := *;
    if rpcFails && faulty {
      return Err(Io), puts;
    }
    BatchAfter(peer.journal, seen, BLOCK_INDEX_SYNC_BATCH_SIZE);
    assert Add64(seen, 1) == seen + 1;
    r := PeerSync(peer, PeerSyncRequest(Add64(seen, 1), BLOCK_INDEX_SYNC_BATCH_SIZE));
  }

  /**
    The outer loop: batches from `known` on until the peer has no more, recording progress after
    each. Two peers' journals are different objects.
   */
  method PullBatches(node: Node, announced: NodeMetadata, known: uint64, peer: BlockIndex, faulty: bool, quiet: bool,
                     ghost f: Frame)
    returns (outcome: Outcome, ghost calls: nat, ghost responded: nat)
    requires node.blockIndex.Valid() && peer.Valid() && peer != node.blockIndex
    requires known < announced.sequenceNumber <= |peer.journal|
    requires SyncedUpTo(node.blockIndex.journal, peer.journal, known)
    requires SyncedUpTo(node.blockIndex.journal, peer.journal, node.nodeIndex.Mark(announced.nodeID))
    requires f.quiet == quiet
    requires Mirrors(f, node.blockIndex.journal, peer.journal, node.nodeIndex.Mark(announced.nodeID), Asking(f.q, known))
    modifies node.blockIndex, node.nodeIndex, peer
    ensures Mirrors(f, node.blockIndex.journal, peer.journal, node.nodeIndex.Mark(announced.nodeID), Idle)
    ensures outcome in {Done, Failed, Exhausted} && calls > 0
    ensures node.blockIndex.Valid() && Keeps(old(node.blockIndex.journal), node.blockIndex.journal)
    ensures peer.Valid() && Keeps(old(peer.journal), peer.journal)
    ensures SyncedUpTo(node.blockIndex.journal, peer.journal, node.nodeIndex.Mark(announced.nodeID))
    ensures node.nodeIndex.Mark(announced.nodeID) != old(node.nodeIndex.Mark(announced.nodeID)) ==>
              node.nodeIndex.Mark(announced.nodeID) > known
    ensures forall n: Oid | n.s != announced.nodeID.s :: node.nodeIndex.Mark(n) == old(node.nodeIndex.Mark(n))
    ensures !faulty && outcome == Failed ==> |peer.journal| + 1 + BLOCK_INDEX_SYNC_BATCH_SIZE >= TWO_TO_THE_64
    ensures outcome == Exhausted ==> |node.blockIndex.journal| == MAX_UINT64
    // every full batch but the one under way was recorded
    ensures outcome != Done ==>
              node.nodeIndex.Mark(announced.nodeID)
              == if calls == 1 then old(node.nodeIndex.Mark(announced.nodeID)) else known + (calls - 1) * BLOCK_INDEX_SYNC_BATCH_SIZE
    ensures outcome == Done ==>
              && node.nodeIndex.Mark(announced.nodeID) == responded
              && announced.sequenceNumber <= responded <= |peer.journal|
    ensures quiet ==> peer.journal == old(peer.journal)
    ensures quiet && outcome == Done ==>
              && calls == (|peer.journal| - known) / BLOCK_INDEX_SYNC_BATCH_SIZE + 1
              && node.blockIndex.journal == PutAll(old(node.blockIndex.journal), peer.journal[known..])
  {
    hide BlockIndex.Valid, NodeIndex.Mark, Put, PutAll, Dominates, Keeps, SyncedUpTo, EntriesBetween, Mirrors;
    ghost var own, w := node.blockIndex.journal, node.nodeIndex.Mark(announced.nodeID);
    KeepsItself(own);
    KeepsItself(peer.journal);
    PutNothing(own, peer.journal[known..known]);
    var newMetadata, maxSeen := announced, known;
    calls, responded := 0, 0;
    while true
      invariant Mirrors(f, node.blockIndex.journal, peer.journal, node.nodeIndex.Mark(announced.nodeID), Asking(f.q, maxSeen))
      invariant node.blockIndex.Valid() && Keeps(own, node.blockIndex.journal)
      invariant peer.Valid() && Keeps(old(peer.journal), peer.journal)
      invariant known <= maxSeen < MAX_UINT64 && SyncedUpTo(node.blockIndex.journal, peer.journal, maxSeen)
      invariant SyncedUpTo(node.blockIndex.journal, peer.journal, node.nodeIndex.Mark(announced.nodeID))
      invariant node.nodeIndex.Mark(announced.nodeID) == if calls == 0 then w else maxSeen
      invariant newMetadata.nodeID == announced.nodeID
      invariant forall n: Oid | n.s != announced.nodeID.s :: node.nodeIndex.Mark(n) == old(node.nodeIndex.Mark(n))
      invariant maxSeen == known + calls * BLOCK_INDEX_SYNC_BATCH_SIZE
      invariant maxSeen <= |peer.journal| && announced.sequenceNumber <= |peer.journal|
      invariant quiet ==> peer.journal == old(peer.journal)
      invariant quiet ==> node.blockIndex.journal == PutAll(own, peer.journal[known..maxSeen])
      decreases TWO_TO_THE_64 - maxSeen
    {
      ghost var j, q0 := node.blockIndex.journal, peer.journal;
      calls := calls + 1;
      ghost var mark := node.nodeIndex.Mark(announced.nodeID);
      var ps, puts := Fetch(peer, maxSeen, faulty, quiet);
      ghost var q := peer.journal;
      TheirPuts(f, j, q0, mark, Asking(f.q, maxSeen), puts);
      Asks(f, j, q, mark, maxSeen, ps.Err?);
      responded := |q|;
      KeepsIsTransitive(old(peer.journal), q0, q);
      KeepsItself(j);
      SyncedStays(j, j, q0, q, maxSeen);
      SyncedStays(j, j, q0, q, node.nodeIndex.Mark(announced.nodeID));
      if ps.Err? {
        return Failed, calls, responded;
      }
      var entries := ps.value;
      assert q[known..|q|] == q[known..];
      if |entries| == 0 {
        break;
      }
      var applied, newMaxSeen := ApplyBatch(node.blockIndex, entries, maxSeen, q, faulty, quiet, f, mark);
      KeepsIsTransitive(own, j, node.blockIndex.journal);
      KeepsItself(q);
      SyncedStays(j, node.blockIndex.journal, q, q, maxSeen);
      SyncedStays(j, node.blockIndex.journal, q, q, node.nodeIndex.Mark(announced.nodeID));
      if applied != Done {
        return applied, calls, responded;
      }
      SyncedFurther(node.blockIndex.journal, q, maxSeen, newMaxSeen);
      PutAllSlices(own, q, known, maxSeen, newMaxSeen);
      maxSeen := newMaxSeen;
      newMetadata := newMetadata.(sequenceNumber := maxSeen);
      Records(f, node.blockIndex.journal, q, mark, entries, maxSeen);
      RecordFails(f, node.blockIndex.journal, q, mark, entries, maxSeen);
      var storeFails: bool := *;
      var stored := node.nodeIndex.Put(newMetadata, storeFails && faulty);
      if stored.Err? {
        return Failed, calls, responded;
      }
      if |entries| < BLOCK_INDEX_SYNC_BATCH_SIZE {
        break;
      }
    }
    return Done, calls, responded;
  }

  /**
    A sync triggered by an announcement. `announced` was true of the peer when it was sent;
    `faulty` says whether I/O may fail, `quiet` whether nothing else writes meanwhile.
   */
  method SyncBlockIndexAndUpdateMetadata(node: Node, announced: NodeMetadata, peer: BlockIndex, faulty: bool, quiet: bool,
                                         ghost f: Frame)
    returns (outcome: Outcome, ghost known: uint64, ghost calls: nat, ghost responded: nat)
    requires node.blockIndex.Valid() && peer.Valid() && peer != node.blockIndex
    requires announced.sequenceNumber <= |peer.journal|
    requires f.number == announced.sequenceNumber && f.quiet == quiet
    requires Mirrors(f, node.blockIndex.journal, peer.journal, node.nodeIndex.Mark(announced.nodeID), Idle)
    requires SyncedUpTo(node.blockIndex.journal, peer.journal, node.nodeIndex.Mark(announced.nodeID))
    modifies node.blockIndex, node.nodeIndex, peer
    // every ending is that of a run of the protocol
    ensures Mirrors(f, node.blockIndex.journal, peer.journal, node.nodeIndex.Mark(announced.nodeID), Idle)
    // what every ending keeps
    ensures node.blockIndex.Valid() && Keeps(old(node.blockIndex.journal), node.blockIndex.journal)
    ensures peer.Valid() && Keeps(old(peer.journal), peer.journal)
    ensures SyncedUpTo(node.blockIndex.journal, peer.journal, node.nodeIndex.Mark(announced.nodeID))
    ensures !faulty ==> node.nodeIndex.Mark(announced.nodeID) >= old(node.nodeIndex.Mark(announced.nodeID))
    ensures forall n: Oid | n.s != announced.nodeID.s :: node.nodeIndex.Mark(n) == old(node.nodeIndex.Mark(n))
    // which ending
    ensures outcome == Ignored <==> announced.nodeID == node.id
    ensures !faulty && outcome != Ignored ==>
              (outcome == Stale <==> announced.sequenceNumber < old(node.nodeIndex.Mark(announced.nodeID)))
    ensures !faulty && outcome == Failed ==> |peer.journal| + 1 + BLOCK_INDEX_SYNC_BATCH_SIZE >= TWO_TO_THE_64
    ensures outcome == Exhausted ==> |node.blockIndex.journal| == MAX_UINT64
    // completeness: a finished sync has everything up to the last response, and at least what was announced
    ensures outcome == Done ==> node.nodeIndex.Mark(announced.nodeID) >= announced.sequenceNumber
    ensures outcome == Done && calls > 0 ==>
              node.nodeIndex.Mark(announced.nodeID) == responded && announced.sequenceNumber <= responded <= |peer.journal|
    ensures !faulty && outcome == Done ==>
              (calls > 0 <==> announced.sequenceNumber > old(node.nodeIndex.Mark(announced.nodeID)))
    ensures outcome == Done && calls == 0 ==> node.nodeIndex.Mark(announced.nodeID) == announced.sequenceNumber
    // progress: an unfinished sync has recorded every full batch before its last call
    ensures known == old(node.nodeIndex.Mark(announced.nodeID)) || (faulty && known == 0)
    ensures outcome != Done ==>
              node.nodeIndex.Mark(announced.nodeID)
              == if calls <= 1 then old(node.nodeIndex.Mark(announced.nodeID)) else known + (calls - 1) * BLOCK_INDEX_SYNC_BATCH_SIZE
    // exact effect and cost when nothing else writes
    ensures quiet ==> peer.journal == old(peer.journal)
    ensures quiet && !faulty && outcome == Done && calls > 0 ==>
              var w := old(node.nodeIndex.Mark(announced.nodeID));
              && calls == (|peer.journal| - w) / BLOCK_INDEX_SYNC_BATCH_SIZE + 1
              && node.blockIndex.journal == PutAll(old(node.blockIndex.journal), peer.journal[w..])
    ensures calls == 0 ==> node.blockIndex.journal == old(node.blockIndex.journal)
  {
    hide BlockIndex.Valid, NodeIndex.Mark, PutAll, Keeps, SyncedUpTo, Mirrors;
    calls, responded := 0, 0;
    known := node.nodeIndex.Mark(announced.nodeID);
    KeepsItself(node.blockIndex.journal);
    KeepsItself(peer.journal);
    if announced.nodeID == node.id {
      return Ignored, known, calls, responded;
    }
    var getFails: bool := *;
    var existing := node.nodeIndex.Get(announced.nodeID, getFails && faulty);
    var start: uint64 := if existing.Ok? then existing.value.sequenceNumber else 0;
    known := start;
    SyncedDown(node.blockIndex.journal, peer.journal, node.nodeIndex.Mark(announced.nodeID), start);
    Opens(f, node.blockIndex.journal, peer.journal, node.nodeIndex.Mark(announced.nodeID), existing.Err?, false);
    if start > announced.sequenceNumber {
      return Stale, known, calls, responded;
    }
    if start == announced.sequenceNumber {
      var storeFails: bool := *;
      var stored := node.nodeIndex.Put(announced, storeFails && faulty);
      return if stored.Err? then Failed else Done, known, calls, responded;
    }
    var dialFails: bool := *;
    if dialFails && faulty {
      return Failed, known, calls, responded;
    }
    outcome, calls, responded := PullBatches(node, announced, start, peer, faulty, quiet, f);
  }
}
