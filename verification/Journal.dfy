/**
  The abstract block index: a journal of metadata in which entry `i` carries number `i + 1`. The
  latest entry per slot is derived from it. `BlockIndexes` proves that the stored index refines
  this; `Gossip` builds on it.
 */
module Journals {
  import opened Blocks

  // ---------- the latest entry of a slot ----------

  /** The number of the last entry for slot `s`, 0 when there is none. */
  function LastNumber(j: seq<Metadata>, s: string): (n: nat)
    ensures n <= |j|
    ensures n > 0 ==> j[n - 1].Slot() == s
    ensures forall i | n <= i < |j| :: j[i].Slot() != s
  {
    if j == [] then 0
    else if j[|j| - 1].Slot() == s then |j|
    else LastNumber(j[..|j| - 1], s)
  }

  predicate Has(j: seq<Metadata>, s: string) {
    LastNumber(j, s) > 0
  }

  function Latest(j: seq<Metadata>, s: string): (m: Metadata)
    requires Has(j, s)
    ensures m.Slot() == s && m in j
  {
    j[LastNumber(j, s) - 1]
  }

  function Slots(j: seq<Metadata>): set<string> {
    set m | m in j :: m.Slot()
  }

  /** The index as a reader by OID sees it. */
  function View(j: seq<Metadata>): (v: map<string, Metadata>) {
    map s | s in Slots(j) && Has(j, s) :: Latest(j, s)
  }

  lemma LastNumberIsLast(j: seq<Metadata>, s: string, i: nat)
    requires i < |j| && j[i].Slot() == s && forall k | i < k < |j| :: j[k].Slot() != s
    ensures LastNumber(j, s) == i + 1
  {
  }

  lemma HasIsMembership(j: seq<Metadata>, s: string)
    ensures Has(j, s) <==> s in Slots(j)
    ensures View(j).Keys == Slots(j)
  {
    forall x ensures Has(j, x) <==> x in Slots(j) {
      if x in Slots(j) {
        var m :| m in j && m.Slot() == x;
      }
    }
  }

  lemma LatestAfterAppend(j: seq<Metadata>, m: Metadata, s: string)
    ensures LastNumber(j + [m], s) == if m.Slot() == s then |j| + 1 else LastNumber(j, s)
    ensures Has(j + [m], s) <==> Has(j, s) || m.Slot() == s
    ensures m.Slot() != s && Has(j, s) ==> Latest(j + [m], s) == Latest(j, s)
    ensures Has(j + [m], m.Slot()) && Latest(j + [m], m.Slot()) == m
  {
    assert (j + [m])[..|j|] == j;
  }

  // ---------- Put ----------

  /** Put writes unless the entry it finds is identical or strictly newer; equal times overwrite. */
  predicate Accepts(j: seq<Metadata>, m: Metadata) {
    Has(j, m.Slot()) ==>
      var existing := Latest(j, m.Slot());
      !IsMetadataEqual(existing, m) && !(existing.updateTime > m.updateTime)
  }

  function Put(j: seq<Metadata>, m: Metadata): seq<Metadata> {
    if Accepts(j, m) then j + [m] else j
  }

  /** What Put returns: the entry now on file for the slot. */
  function Filed(j: seq<Metadata>, m: Metadata): ExtendedMetadata {
    if Accepts(j, m) then ExtendedMetadata(|j| + 1, m)
    else ExtendedMetadata(LastNumber(j, m.Slot()), Latest(j, m.Slot()))
  }

  function PutAll(j: seq<Metadata>, ms: seq<Metadata>): seq<Metadata>
    decreases |ms|
  {
    if ms == [] then j else PutAll(Put(j, ms[0]), ms[1..])
  }

  /** `j` holds something at least as new as `m` for the slot of `m`. */
  predicate Dominates(j: seq<Metadata>, m: Metadata) {
    Has(j, m.Slot()) && Latest(j, m.Slot()).updateTime >= m.updateTime
  }

  lemma PutDominates(j: seq<Metadata>, m: Metadata)
    ensures j <= Put(j, m) && Dominates(Put(j, m), m)
    ensures Has(Put(j, m), m.Slot()) && Filed(j, m).metadata == Latest(Put(j, m), m.Slot())
    ensures Filed(j, m).sequenceNumber == LastNumber(Put(j, m), m.Slot())
  {
    LatestAfterAppend(j, m, m.Slot());
  }

  /** Slots never disappear and their times never go back, so domination is for good. */
  lemma PutKeepsDominated(j: seq<Metadata>, m: Metadata, x: Metadata)
    requires Dominates(j, x)
    ensures Dominates(Put(j, m), x)
  {
    LatestAfterAppend(j, m, x.Slot());
  }

  lemma {:induction false} PutAllKeepsDominated(j: seq<Metadata>, ms: seq<Metadata>, x: Metadata)
    requires Dominates(j, x)
    ensures Dominates(PutAll(j, ms), x)
    decreases |ms|
  {
    if ms != [] {
      PutKeepsDominated(j, ms[0], x);
      PutAllKeepsDominated(Put(j, ms[0]), ms[1..], x);
    }
  }

  lemma {:induction false} PutAllDominates(j: seq<Metadata>, ms: seq<Metadata>)
    ensures j <= PutAll(j, ms)
    ensures forall m | m in ms :: Dominates(PutAll(j, ms), m)
    decreases |ms|
  {
    if ms != [] {
      PutDominates(j, ms[0]);
      PutAllKeepsDominated(Put(j, ms[0]), ms[1..], ms[0]);
      PutAllDominates(Put(j, ms[0]), ms[1..]);
    }
  }

  lemma PutNothing(j: seq<Metadata>, ms: seq<Metadata>)
    requires ms == []
    ensures PutAll(j, ms) == j
  {
  }

  lemma {:induction false} PutAllConcat(j: seq<Metadata>, a: seq<Metadata>, b: seq<Metadata>)
    ensures PutAll(j, a + b) == PutAll(PutAll(j, a), b)
    decreases |a|
  {
    if a == [] {
      assert a + b == b;
    } else {
      assert (a + b)[1..] == a[1..] + b;
      PutAllConcat(Put(j, a[0]), a[1..], b);
    }
  }

  lemma PutAllSnoc(j: seq<Metadata>, a: seq<Metadata>, m: Metadata)
    ensures PutAll(j, a + [m]) == Put(PutAll(j, a), m)
  {
    PutAllConcat(j, a, [m]);
    assert PutAll(PutAll(j, a), [m]) == PutAll(Put(PutAll(j, a), m), []);
  }

  lemma {:induction false} PutAllHoldsOnly(j: seq<Metadata>, ms: seq<Metadata>)
    ensures forall m | m in PutAll(j, ms) :: m in j || m in ms
    decreases |ms|
  {
    if ms != [] {
      PutAllHoldsOnly(Put(j, ms[0]), ms[1..]);
    }
  }

  // ---------- journals that Put can produce ----------

  /** Every entry was accepted by the journal before it. */
  predicate Grown(j: seq<Metadata>) {
    forall i | 0 <= i < |j| :: Accepts(j[..i], j[i])
  }

  lemma PutKeepsGrown(j: seq<Metadata>, m: Metadata)
    requires Grown(j)
    ensures Grown(Put(j, m))
  {
    var k := Put(j, m);
    forall i | 0 <= i < |k| ensures Accepts(k[..i], k[i]) {
      if i < |j| {
        assert k[..i] == j[..i];
      } else {
        assert k[..i] == j;
      }
    }
  }

  lemma {:induction false} PutAllKeepsGrown(j: seq<Metadata>, ms: seq<Metadata>)
    requires Grown(j)
    ensures Grown(PutAll(j, ms))
    decreases |ms|
  {
    if ms != [] {
      PutKeepsGrown(j, ms[0]);
      PutAllKeepsGrown(Put(j, ms[0]), ms[1..]);
    }
  }

  lemma GrownPrefix(j: seq<Metadata>, n: nat)
    requires Grown(j) && n <= |j|
    ensures Grown(j[..n])
  {
    forall i | 0 <= i < n ensures Accepts(j[..n][..i], j[..n][i]) {
      assert j[..n][..i] == j[..i];
    }
  }

  /** The latest entry of a slot is its newest: nothing in the journal beats it. */
  lemma {:induction false} LatestIsNewest(j: seq<Metadata>, i: nat)
    requires Grown(j) && i < |j|
    ensures Dominates(j, j[i])
    decreases |j|
  {
    var init, m := j[..|j| - 1], j[|j| - 1];
    assert j == init + [m];
    GrownPrefix(j, |j| - 1);
    assert Put(init, m) == j;
    if i == |j| - 1 {
      PutDominates(init, m);
    } else {
      LatestIsNewest(init, i);
      PutKeepsDominated(init, m, init[i]);
    }
  }

  predicate SameSlot(j: seq<Metadata>, i: nat, k: nat)
    requires i < |j| && k < |j|
  {
    j[i].Slot() == j[k].Slot()
  }

  /** Entry `i` is the last one before entry `k` for its slot. */
  predicate Precedes(j: seq<Metadata>, i: nat, k: nat)
    requires i < k < |j|
  {
    SameSlot(j, i, k) && forall x | i < x < k :: j[x].Slot() != j[k].Slot()
  }

  /** Per slot, times never go back and no entry repeats the one before it. */
  predicate Ordered(j: seq<Metadata>) {
    && (forall i, k | 0 <= i < k < |j| :: SameSlot(j, i, k) ==> j[i].updateTime <= j[k].updateTime)
    && (forall i, k | 0 <= i < k < |j| :: Precedes(j, i, k) ==> j[i] != j[k])
  }

  lemma GrownPair(j: seq<Metadata>, i: nat, k: nat)
    requires Grown(j) && i < k < |j| && SameSlot(j, i, k)
    ensures j[i].updateTime <= j[k].updateTime
    ensures Precedes(j, i, k) ==> j[i] != j[k]
  {
    var init := j[..k];
    assert Accepts(init, j[k]) && init[i] == j[i];
    GrownPrefix(j, k);
    hide Grown;
    LatestIsNewest(init, i);
    if Precedes(j, i, k) {
      LastNumberIsLast(init, j[k].Slot(), i);
    }
  }

  lemma OrderedAccepts(j: seq<Metadata>, k: nat)
    requires Ordered(j) && k < |j|
    ensures Accepts(j[..k], j[k])
  {
    var init := j[..k];
    if Has(init, j[k].Slot()) {
      var i := LastNumber(init, j[k].Slot()) - 1;
      assert init[i] == j[i] && SameSlot(j, i, k);
      assert forall x | i < x < k :: j[x] == init[x];
      assert Precedes(j, i, k);
    }
  }

  /** Exactly the ordered journals are those that Put can produce. */
  lemma GrownIsOrdered(j: seq<Metadata>)
    ensures Grown(j) <==> Ordered(j)
  {
    hide LastNumber, Accepts;
    if Grown(j) {
      forall i, k | 0 <= i < k < |j| && SameSlot(j, i, k)
        ensures j[i].updateTime <= j[k].updateTime
        ensures Precedes(j, i, k) ==> j[i] != j[k]
      {
        GrownPair(j, i, k);
      }
    }
    if Ordered(j) {
      forall k | 0 <= k < |j| {
        OrderedAccepts(j, k);
      }
    }
  }

  /** Replaying a journal reproduces it exactly when Put could have produced it. */
  lemma {:induction false} ReplayReproduces(j: seq<Metadata>)
    ensures PutAll([], j) == j <==> Grown(j)
    decreases |j|
  {
    if j == [] {
    } else {
      var init, m := j[..|j| - 1], j[|j| - 1];
      assert j == init + [m];
      PutAllSnoc([], init, m);
      ReplayReproduces(init);
      PutAllLength([], init);
      if Grown(j) {
        GrownPrefix(j, |j| - 1);
      }
      if PutAll([], j) == j {
        PutAllKeepsGrown([], j);
      }
    }
  }

  lemma {:induction false} PutAllLength(j: seq<Metadata>, ms: seq<Metadata>)
    ensures |PutAll(j, ms)| <= |j| + |ms|
    decreases |ms|
  {
    if ms != [] {
      PutAllLength(Put(j, ms[0]), ms[1..]);
    }
  }

  // ---------- ranges of a journal ----------

  function Max(a: int, b: int): int {
    if a < b then b else a
  }

  function Min(a: int, b: int): int {
    if a < b then a else b
  }

  function Numbered(j: seq<Metadata>, n: nat): ExtendedMetadata
    requires 1 <= n <= |j|
  {
    ExtendedMetadata(n, j[n - 1])
  }

  /** The entries numbered from `start` up to, but not including, `end`. */
  function EntriesBetween(j: seq<Metadata>, start: nat, end: nat): (e: seq<ExtendedMetadata>)
    ensures |e| == Max(0, Min(end, |j| + 1) - Max(start, 1))
    ensures forall i | 0 <= i < |e| :: Max(start, 1) + i <= |j| && e[i] == Numbered(j, Max(start, 1) + i)
  {
    var lo, hi := Max(start, 1), Min(end, |j| + 1);
    if lo < hi then seq(hi - lo, i requires 0 <= i < hi - lo => Numbered(j, lo + i)) else []
  }

  /** The range is half open: it holds entry `n` exactly when `start <= n < end`. */
  lemma EntriesAreHalfOpen(j: seq<Metadata>, start: nat, end: nat, n: nat)
    requires 1 <= n <= |j|
    ensures Numbered(j, n) in EntriesBetween(j, start, end) <==> start <= n < end
  {
    var e := EntriesBetween(j, start, end);
    if start <= n < end {
      assert e[n - Max(start, 1)] == Numbered(j, n);
    }
  }

  /** A request for `size` entries after number `seen` gets as many of them as the journal has. */
  lemma BatchAfter(j: seq<Metadata>, seen: nat, size: nat)
    requires seen <= |j|
    ensures var e := EntriesBetween(j, seen + 1, seen + 1 + size);
            && |e| == Min(size, |j| - seen)
            && forall i | 0 <= i < |e| :: e[i] == Numbered(j, seen + i + 1)
  {
    hide Numbered, EntriesBetween;
  }

  // ---------- growth, and one journal following another ----------

  /** Everything journal `j` dominates, journal `k` dominates too. */
  ghost predicate Keeps(j: seq<Metadata>, k: seq<Metadata>) {
    j <= k && forall x | Dominates(j, x) :: Dominates(k, x)
  }

  lemma PutKeeps(j: seq<Metadata>, k: seq<Metadata>, m: Metadata)
    requires Keeps(j, k)
    ensures Keeps(j, Put(k, m))
  {
    forall x | Dominates(j, x) ensures Dominates(Put(k, m), x) {
      PutKeepsDominated(k, m, x);
    }
  }

  lemma KeepsIsTransitive(a: seq<Metadata>, b: seq<Metadata>, c: seq<Metadata>)
    requires Keeps(a, b) && Keeps(b, c)
    ensures Keeps(a, c)
  {
    hide Dominates;
  }

  /** The first `n` entries of `q` are dominated by `j`. */
  ghost predicate SyncedUpTo(j: seq<Metadata>, q: seq<Metadata>, n: nat) {
    n <= |q| && forall i | 0 <= i < n :: Dominates(j, q[i])
  }

  lemma KeepsItself(j: seq<Metadata>)
    ensures Keeps(j, j)
  {
  }

  lemma SyncedStays(j: seq<Metadata>, k: seq<Metadata>, q: seq<Metadata>, r: seq<Metadata>, n: nat)
    requires SyncedUpTo(j, q, n) && Keeps(j, k) && Keeps(q, r)
    ensures SyncedUpTo(k, r, n)
  {
  }

  lemma SyncedFurther(j: seq<Metadata>, q: seq<Metadata>, n: nat, m: nat)
    requires SyncedUpTo(j, q, n) && n <= m <= |q| && forall i | n <= i < m :: Dominates(j, q[i])
    ensures SyncedUpTo(j, q, m)
  {
  }

  lemma SyncedDown(j: seq<Metadata>, q: seq<Metadata>, n: nat, m: nat)
    requires SyncedUpTo(j, q, n) && m <= n
    ensures SyncedUpTo(j, q, m)
  {
  }

  /** Putting the next entry of `q` syncs one entry further. */
  lemma PutNext(j: seq<Metadata>, q: seq<Metadata>, n: nat)
    requires SyncedUpTo(j, q, n) && n < |q|
    ensures SyncedUpTo(Put(j, q[n]), q, n + 1)
  {
    PutDominates(j, q[n]);
    KeepsItself(j);
    PutKeeps(j, j, q[n]);
  }
}
