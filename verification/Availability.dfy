/** Which nodes are known to hold a block: the table that block announcements keep up to date. */
module Availability {
  import opened Results
  import opened Oids

  datatype Report = Report(block: Oid, node: Oid, available: bool)

  /** What was last reported about `node` and `block`. */
  function Last(history: seq<Report>, block: Oid, node: Oid): Option<bool>
    decreases |history|
  {
    if history == [] then None
    else
      var r := history[|history| - 1];
      if r.block == block && r.node == node then Some(r.available) else Last(history[..|history| - 1], block, node)
  }

  predicate About(r: Report, block: Oid, node: Oid) {
    r.block == block && r.node == node
  }

  /** Report `k` is about the block and node, and no later one is. */
  ghost predicate FinalAt(history: seq<Report>, k: int, block: Oid, node: Oid, available: bool) {
    && 0 <= k < |history| && history[k] == Report(block, node, available)
    && forall j | k < j < |history| :: !About(history[j], block, node)
  }

  /** `Last` is the report no other about the same block and node follows. */
  lemma LastIsLast(history: seq<Report>, block: Oid, node: Oid, available: bool)
    ensures Last(history, block, node) == Some(available) <==> exists k :: FinalAt(history, k, block, node, available)
  {
    if Last(history, block, node) == Some(available) {
      LastIsFinal(history, block, node, available);
    } else if k :| FinalAt(history, k, block, node, available) {
      FinalIsLast(history, k, block, node, available);
      assert false;
    }
  }

  lemma {:induction false} LastIsFinal(history: seq<Report>, block: Oid, node: Oid, available: bool)
    requires Last(history, block, node) == Some(available)
    ensures exists k :: FinalAt(history, k, block, node, available)
    decreases |history|
  {
    var n := |history| - 1;
    if About(history[n], block, node) {
      assert FinalAt(history, n, block, node, available);
    } else {
      LastIsFinal(history[..n], block, node, available);
      var k :| FinalAt(history[..n], k, block, node, available);
      assert FinalAt(history, k, block, node, available);
    }
  }

  lemma {:induction false} FinalIsLast(history: seq<Report>, k: int, block: Oid, node: Oid, available: bool)
    requires FinalAt(history, k, block, node, available)
    ensures Last(history, block, node) == Some(available)
    decreases |history|
  {
    var n := |history| - 1;
    if k < n {
      assert FinalAt(history[..n], k, block, node, available);
      FinalIsLast(history[..n], k, block, node, available);
    }
  }

  /** Reports that arrive in another order lead to the same table unless they are about the same block and node. */
  lemma ReportsCommute(history: seq<Report>, r: Report, q: Report, block: Oid, node: Oid)
    ensures (Last(history + [r, q], block, node) == Last(history + [q, r], block, node))
            <==> (About(r, block, node) && About(q, block, node) ==> r == q)
  {
    LastOfTwo(history, r, q, block, node);
    LastOfTwo(history, q, r, block, node);
  }

  lemma LastOfTwo(history: seq<Report>, r: Report, q: Report, block: Oid, node: Oid)
    ensures Last(history + [r, q], block, node)
            == if About(q, block, node) then Some(q.available)
               else if About(r, block, node) then Some(r.available) else Last(history, block, node)
  {
    assert (history + [r, q])[..|history| + 1] == history + [r];
    assert (history + [r])[..|history|] == history;
  }

  class BlockAvailabilityTracker {
    var blocks: map<Oid, map<Oid, bool>>
    ghost var history: seq<Report>

    ghost predicate Valid()
      reads this
    {
      forall block, node :: Last(history, block, node) == Lookup(block, node)
    }

    function Lookup(block: Oid, node: Oid): Option<bool>
      reads this
    {
      if block in blocks && node in blocks[block] then Some(blocks[block][node]) else None
    }

    constructor ()
      ensures Valid() && history == [] && blocks == map[]
    {
      blocks := map[];
      history := [];
    }

    /** The entry of a block, created empty when there is none. */
    method GetBlockInfo(block: Oid) returns (nodes: map<Oid, bool>)
      requires Valid()
      modifies this
      ensures Valid() && history == old(history)
      ensures block in blocks && nodes == blocks[block]
      ensures forall b | b != block :: (b in blocks <==> b in old(blocks)) && (b in blocks ==> blocks[b] == old(blocks)[b])
      ensures nodes == if block in old(blocks) then old(blocks)[block] else map[]
    {
      if block !in blocks {
        blocks := blocks[block := map[]];
      }
      nodes := blocks[block];
      assert forall b, n :: Lookup(b, n) == old(Lookup(b, n));
    }

    method Update(block: Oid, node: Oid, available: bool)
      requires Valid()
      modifies this
      ensures Valid() && history == old(history) + [Report(block, node, available)]
    {
      var nodes := GetBlockInfo(block);
      blocks := blocks[block := nodes[node := available]];
      ghost var r := Report(block, node, available);
      history := history + [r];
      assert history[..|history| - 1] == old(history);
      forall b, n ensures Last(history, b, n) == Lookup(b, n) {
        assert Last(old(history), b, n) == old(Lookup(b, n));
      }
    }

    /** The nodes whose last report about the block was that they have it, each once, in any order. */
    method WhoHas(block: Oid) returns (nodes: seq<Oid>)
      requires Valid()
      ensures forall n :: n in nodes <==> Last(history, block, n) == Some(true)
      ensures forall i, j | 0 <= i < j < |nodes| :: nodes[i] != nodes[j]
    {
      nodes := [];
      assert forall n :: Last(history, block, n) == Lookup(block, n);
      if block !in blocks {
        return;
      }
      var left := blocks[block].Keys;
      while left != {}
        invariant left <= blocks[block].Keys
        invariant forall n :: n in nodes <==> n in blocks[block] && n !in left && blocks[block][n]
        invariant forall i, j | 0 <= i < j < |nodes| :: nodes[i] != nodes[j]
      {
        var n :| n in left;
        if blocks[block][n] {
          nodes := nodes + [n];
        }
        left := left - {n};
      }
    }
  }
}
