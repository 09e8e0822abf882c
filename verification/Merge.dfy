/**
  Merging as a join: when the outcome of many `Put`s does not depend on their order or repetition,
  and when a repeated `Put` writes nothing.
 */
module Merging {
  import opened Blocks
  import opened Journals

  /** No version of the slot among `u` is newer than `m`. */
  ghost predicate Newest(m: Metadata, u: set<Metadata>) {
    m in u && forall x | x in u && x.Slot() == m.Slot() :: x.updateTime <= m.updateTime
  }

  /** Each slot has one newest version. */
  ghost predicate UniqueNewest(u: set<Metadata>) {
    forall x, y | Newest(x, u) && Newest(y, u) && x.Slot() == y.Slot() :: x == y
  }

  /** No two versions of a slot carry the same time. */
  ghost predicate DistinctTimes(u: set<Metadata>) {
    forall x, y | x in u && y in u && x.Slot() == y.Slot() && x.updateTime == y.updateTime :: x == y
  }

  lemma DistinctTimesAreUniqueNewest(u: set<Metadata>)
    requires DistinctTimes(u)
    ensures UniqueNewest(u)
  {
    forall x, y | Newest(x, u) && Newest(y, u) && x.Slot() == y.Slot() ensures x == y {
      assert x.updateTime == y.updateTime;
    }
  }

  /** `a` is some listing of `u`: any order, any repetition. */
  ghost predicate Lists(a: seq<Metadata>, u: set<Metadata>) {
    forall m :: m in a <==> m in u
  }

  /** The view after any listing holds, for each slot that occurs, a newest version of it. */
  lemma {:induction false} ViewHoldsNewest(a: seq<Metadata>, u: set<Metadata>)
    requires Lists(a, u)
    ensures View(PutAll([], a)).Keys == set m | m in u :: m.Slot()
    ensures forall s | s in View(PutAll([], a)) ::
              Newest(View(PutAll([], a))[s], u) && View(PutAll([], a))[s].Slot() == s
  {
    var j := PutAll([], a);
    PutAllHoldsOnly([], a);
    PutAllDominates([], a);
    forall s ensures s in View(j) <==> s in (set m | m in u :: m.Slot()) {
      HasIsMembership(j, s);
    }
    forall s | s in View(j) ensures Newest(View(j)[s], u) {
      forall x | x in u && x.Slot() == s ensures x.updateTime <= View(j)[s].updateTime {
        assert x in a;
      }
    }
  }

  ghost predicate OrderIndependent(u: set<Metadata>) {
    forall a, b | Lists(a, u) && Lists(b, u) :: View(PutAll([], a)) == View(PutAll([], b))
  }

  /** A newest version put last is what the slot ends up with. */
  lemma PutNewestLast(a: seq<Metadata>, m: Metadata)
    requires forall x | x in a && x.Slot() == m.Slot() :: x.updateTime <= m.updateTime
    ensures m.Slot() in View(PutAll([], a + [m])) && View(PutAll([], a + [m]))[m.Slot()] == m
  {
    var j := PutAll([], a);
    PutAllSnoc([], a, m);
    PutAllHoldsOnly([], a);
    PutDominates(j, m);
    HasIsMembership(Put(j, m), m.Slot());
  }

  lemma {:induction false} ListingExists(u: set<Metadata>)
    ensures exists a :: Lists(a, u)
    decreases |u|
  {
    if u == {} {
      assert Lists([], u);
    } else {
      var m :| m in u;
      ListingExists(u - {m});
      var a :| Lists(a, u - {m});
      assert Lists(a + [m], u);
    }
  }

  lemma SameListingSameView(a: seq<Metadata>, b: seq<Metadata>, u: set<Metadata>)
    requires UniqueNewest(u) && Lists(a, u) && Lists(b, u)
    ensures View(PutAll([], a)) == View(PutAll([], b))
  {
    hide PutAll, View;
    ViewHoldsNewest(a, u);
    ViewHoldsNewest(b, u);
  }

  lemma RivalsSplitTheView(x: Metadata, y: Metadata, u: set<Metadata>)
    requires Newest(x, u) && Newest(y, u) && x.Slot() == y.Slot() && x != y
    ensures !OrderIndependent(u)
  {
    hide PutAll, View;
    ListingExists(u);
    var l :| Lists(l, u);
    PutNewestLast(l, x);
    PutNewestLast(l, y);
    assert Lists(l + [x], u) && Lists(l + [y], u);
    assert View(PutAll([], l + [x])) != View(PutAll([], l + [y]));
  }

  /** Order and repetition are irrelevant for exactly those sets in which each slot has one newest version. */
  lemma MergeOrder(u: set<Metadata>)
    ensures OrderIndependent(u) <==> UniqueNewest(u)
  {
    hide PutAll, View, Newest;
    if UniqueNewest(u) {
      forall a, b | Lists(a, u) && Lists(b, u) ensures View(PutAll([], a)) == View(PutAll([], b)) {
        SameListingSameView(a, b, u);
      }
    } else {
      var x, y :| Newest(x, u) && Newest(y, u) && x.Slot() == y.Slot() && x != y;
      RivalsSplitTheView(x, y, u);
    }
  }

  /** With distinct times a Put writes exactly when the index does not already dominate the value. */
  lemma WritesWhenNotDominated(j: seq<Metadata>, m: Metadata, u: set<Metadata>)
    requires DistinctTimes(u) && m in u && forall x | x in j :: x in u
    ensures Accepts(j, m) <==> !Dominates(j, m)
  {
  }

  /** Fetching again what was already merged writes nothing. */
  lemma {:induction false} RefetchWritesNothing(j: seq<Metadata>, ms: seq<Metadata>, u: set<Metadata>)
    requires DistinctTimes(u) && forall x | x in j :: x in u
    requires forall m | m in ms :: m in u && Dominates(j, m)
    ensures PutAll(j, ms) == j
    decreases |ms|
  {
    if ms != [] {
      assert ms[0] in ms;
      WritesWhenNotDominated(j, ms[0], u);
      RefetchWritesNothing(j, ms[1..], u);
    }
  }
}
