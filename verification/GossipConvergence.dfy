/** Quiescence implies convergence, along any strongly connected pattern of who syncs with whom. */
module GossipConvergence {
  import opened Blocks
  import opened Journals
  import opened Merging
  import opened Gossip

  /** `(p, q) in links`: node p follows the announcements of node q. */
  type Links = set<(nat, nat)>

  predicate LinksOk(links: Links, size: nat) {
    forall e | e in links :: e.0 < size && e.1 < size && e.0 != e.1
  }

  predicate Path(links: Links, ps: seq<nat>) {
    ps != [] && forall i | 0 <= i < |ps| - 1 :: (ps[i], ps[i + 1]) in links
  }

  /** News from q reaches p along the links. */
  ghost predicate Reaches(links: Links, p: nat, q: nat) {
    exists ps :: Path(links, ps) && ps[0] == p && ps[|ps| - 1] == q
  }

  ghost predicate StronglyConnected(links: Links, size: nat) {
    forall p, q | 0 <= p < size && 0 <= q < size :: Reaches(links, p, q)
  }

  /** No link has anything left to fetch. */
  predicate Quiescent(s: State, links: Links) {
    forall e | e in links :: e.0 < |s.nodes| && e.1 < |s.nodes| && Mark(s.nodes[e.0], e.1) == |s.nodes[e.1].journal|
  }

  /** Whatever `k` holds, `j` dominates. */
  ghost predicate Covers(j: seq<Metadata>, k: seq<Metadata>) {
    SyncedUpTo(j, k, |k|)
  }

  lemma CoversItself(j: seq<Metadata>)
    requires Grown(j)
    ensures Covers(j, j)
  {
    hide Grown, Dominates;
    forall i | 0 <= i < |j| ensures Dominates(j, j[i]) {
      LatestIsNewest(j, i);
    }
  }

  lemma CoversIsTransitive(a: seq<Metadata>, b: seq<Metadata>, c: seq<Metadata>)
    requires Covers(a, b) && Covers(b, c)
    ensures Covers(a, c)
  {
    forall i | 0 <= i < |c| ensures Dominates(a, c[i]) {
      assert Dominates(b, c[i]);
      assert Dominates(a, b[LastNumber(b, c[i].Slot()) - 1]);
    }
  }

  lemma {:induction false} PathCovers(s: State, links: Links, ps: seq<nat>)
    requires Inv(s) && Quiescent(s, links) && Path(links, ps) && ps[0] < |s.nodes|
    ensures ps[|ps| - 1] < |s.nodes| && Covers(s.nodes[ps[0]].journal, s.nodes[ps[|ps| - 1]].journal)
    decreases |ps|
  {
    assert JournalsOk(s) && MarksOk(s);
    hide Inv, JournalsOk, Covers;
    if |ps| == 1 {
      assert Grown(s.nodes[ps[0]].journal) by { InvGrown(s, ps[0]); }
      CoversItself(s.nodes[ps[0]].journal);
    } else {
      assert (ps[0], ps[1]) in links;
      var j, k := s.nodes[ps[0]].journal, s.nodes[ps[1]].journal;
      assert SyncedUpTo(j, k, Mark(s.nodes[ps[0]], ps[1]));
      SyncedCovers(j, k);
      PathCovers(s, links, ps[1..]);
      CoversIsTransitive(j, k, s.nodes[ps[|ps| - 1]].journal);
    }
  }

  lemma InvGrown(s: State, p: nat)
    requires Inv(s) && p < |s.nodes|
    ensures Grown(s.nodes[p].journal)
  {
    assert JournalsOk(s);
  }

  lemma SyncedCovers(j: seq<Metadata>, k: seq<Metadata>)
    requires SyncedUpTo(j, k, |k|)
    ensures Covers(j, k)
  {
  }

  /** The two journals have the same slots, each with the same time. */
  ghost predicate SameTimes(j: seq<Metadata>, k: seq<Metadata>) {
    forall slot :: Has(j, slot) == Has(k, slot) && (Has(j, slot) ==> Latest(j, slot).updateTime == Latest(k, slot).updateTime)
  }

  lemma MutualCover(j: seq<Metadata>, k: seq<Metadata>)
    requires Covers(j, k) && Covers(k, j)
    ensures SameTimes(j, k)
  {
    forall slot
      ensures Has(j, slot) == Has(k, slot)
      ensures Has(j, slot) ==> Latest(j, slot).updateTime == Latest(k, slot).updateTime
    {
      if Has(k, slot) {
        CoverTimes(j, k, slot);
      }
      if Has(j, slot) {
        CoverTimes(k, j, slot);
      }
    }
  }

  lemma CoverTimes(j: seq<Metadata>, k: seq<Metadata>, slot: string)
    requires Covers(j, k) && Has(k, slot)
    ensures Has(j, slot) && Latest(j, slot).updateTime >= Latest(k, slot).updateTime
  {
    assert Dominates(j, k[LastNumber(k, slot) - 1]);
  }

  /** Everything any node has in its journal. */
  ghost function Known(s: State): (u: set<Metadata>)
    ensures forall m :: m in u <==> exists p :: 0 <= p < |s.nodes| && m in s.nodes[p].journal
  {
    set p, m | 0 <= p < |s.nodes| && m in s.nodes[p].journal :: m
  }

  lemma QuiescentPairCovers(s: State, links: Links, p: nat, q: nat)
    requires Inv(s) && Quiescent(s, links) && StronglyConnected(links, |s.nodes|) && p < |s.nodes| && q < |s.nodes|
    ensures Covers(s.nodes[p].journal, s.nodes[q].journal)
  {
    hide Inv, Quiescent, Covers;
    assert Reaches(links, p, q);
    var ps :| Path(links, ps) && ps[0] == p && ps[|ps| - 1] == q;
    PathCovers(s, links, ps);
  }

  /** Quiescence implies agreement on every slot and its time. */
  lemma QuiescenceAgreesOnTimes(s: State, links: Links, p: nat, q: nat)
    requires Inv(s) && Quiescent(s, links) && StronglyConnected(links, |s.nodes|) && p < |s.nodes| && q < |s.nodes|
    ensures SameTimes(s.nodes[p].journal, s.nodes[q].journal)
  {
    hide *;
    QuiescentPairCovers(s, links, p, q);
    QuiescentPairCovers(s, links, q, p);
    MutualCover(s.nodes[p].journal, s.nodes[q].journal);
  }

  lemma LatestIsNewestKnown(s: State, links: Links, p: nat, slot: string)
    requires Inv(s) && Quiescent(s, links) && StronglyConnected(links, |s.nodes|) && p < |s.nodes|
    requires Has(s.nodes[p].journal, slot)
    ensures Newest(Latest(s.nodes[p].journal, slot), Known(s))
  {
    hide Inv, Quiescent, StronglyConnected;
    var m := Latest(s.nodes[p].journal, slot);
    forall x | x in Known(s) && x.Slot() == slot ensures x.updateTime <= m.updateTime {
      var q :| 0 <= q < |s.nodes| && x in s.nodes[q].journal;
      QuiescentPairCovers(s, links, p, q);
      var i :| 0 <= i < |s.nodes[q].journal| && s.nodes[q].journal[i] == x;
      assert Dominates(s.nodes[p].journal, s.nodes[q].journal[i]);
    }
  }

  /** With one newest version per slot, quiescence implies that all nodes have the same index. */
  lemma QuiescenceConverges(s: State, links: Links, p: nat, q: nat)
    requires Inv(s) && Quiescent(s, links) && StronglyConnected(links, |s.nodes|) && p < |s.nodes| && q < |s.nodes|
    requires UniqueNewest(Known(s))
    ensures View(s.nodes[p].journal) == View(s.nodes[q].journal)
  {
    var j, k := s.nodes[p].journal, s.nodes[q].journal;
    QuiescenceAgreesOnTimes(s, links, p, q);
    hide Inv, Quiescent, StronglyConnected, Newest, Known, LastNumber;
    forall slot ensures slot in View(j) <==> slot in View(k) {
      HasIsMembership(j, slot);
      HasIsMembership(k, slot);
      assert Has(j, slot) == Has(k, slot);
    }
    forall slot | slot in View(j) ensures View(j)[slot] == View(k)[slot] {
      assert Has(j, slot) && Has(k, slot);
      LatestIsNewestKnown(s, links, p, slot);
      LatestIsNewestKnown(s, links, q, slot);
    }
  }
}
