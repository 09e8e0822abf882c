/**
  With no new local values and distinct times per slot, gossip settles: a potential bounds how many
  steps of any run, under any interleaving and any failures, can still change a journal or a
  watermark, although merging makes journals grow and feed each other.
 */
module GossipTermination {
  import Radix
  import opened Blocks
  import opened Journals
  import opened Merging
  import opened Gossip
  import opened GossipRuns

  // ---------- sums ----------

  function Sum(a: seq<nat>): nat {
    if a == [] then 0 else Sum(a[..|a| - 1]) + a[|a| - 1]
  }

  lemma {:induction false} SumUpdate(a: seq<nat>, i: nat, x: nat)
    requires i < |a|
    ensures Sum(a[i := x]) + a[i] == Sum(a) + x
  {
    var init := a[..|a| - 1];
    if i < |a| - 1 {
      assert a[i := x][..|a| - 1] == init[i := x];
      SumUpdate(init, i, x);
    } else {
      assert a[i := x][..|a| - 1] == init;
    }
  }

  /** Pointwise smaller sequences have smaller sums, and equal sums only if they are equal. */
  lemma {:induction false} SumMonotone(a: seq<nat>, b: seq<nat>)
    requires |a| == |b| && forall i | 0 <= i < |a| :: a[i] <= b[i]
    ensures Sum(a) <= Sum(b) && (Sum(a) == Sum(b) ==> a == b)
  {
    if a != [] {
      SumMonotone(a[..|a| - 1], b[..|b| - 1]);
      assert a == a[..|a| - 1] + [a[|a| - 1]] && b == b[..|b| - 1] + [b[|b| - 1]];
    }
  }

  lemma {:induction false} SumBelow(a: seq<nat>, bound: nat)
    requires forall i | 0 <= i < |a| :: a[i] <= bound
    ensures Sum(a) <= bound * |a|
  {
    if a != [] {
      SumBelow(a[..|a| - 1], bound);
      assert bound * (|a| - 1) + bound == bound * |a|;
    }
  }

  // ---------- the potential ----------

  /** The known values that journal `j` does not dominate yet. */
  ghost function Missing(u: set<Metadata>, j: seq<Metadata>): set<Metadata> {
    set m | m in u && !Dominates(j, m)
  }

  ghost function Lags(s: State): (a: seq<nat>)
    ensures |a| == |s.nodes|
  {
    seq(|s.nodes|, p requires 0 <= p < |s.nodes| => |Missing(s.origin, s.nodes[p].journal)|)
  }

  ghost function Lengths(s: State): (a: seq<nat>)
    ensures |a| == |s.nodes|
  {
    seq(|s.nodes|, p requires 0 <= p < |s.nodes| => |s.nodes[p].journal|)
  }

  /** The watermarks of node `n` for each of `size` peers. */
  ghost function Marks(n: Node, size: nat): (a: seq<nat>)
    ensures |a| == size
  {
    seq(size, q requires 0 <= q < size => Mark(n, q))
  }

  ghost function MarkSums(s: State): (a: seq<nat>)
    ensures |a| == |s.nodes|
  {
    seq(|s.nodes|, p requires 0 <= p < |s.nodes| => Sum(Marks(s.nodes[p], |s.nodes|)))
  }

  /** Each value a node still lacks may cost a write and a fetch by every node; the rest is what is left to fetch. */
  ghost function Potential(s: State): int {
    Weigh(Sum(Lags(s)), Sum(Lengths(s)), Sum(MarkSums(s)), |s.nodes|)
  }

  function Weigh(lags: nat, lengths: nat, marks: nat, size: nat): int {
    lags * (size + 1) + lengths * size - marks
  }

  lemma MarksBelowLengths(s: State, p: nat)
    requires MarksOk(s) && p < |s.nodes|
    ensures MarkSums(s)[p] <= Sum(Lengths(s))
  {
    hide Dominates;
    var size := |s.nodes|;
    forall q | 0 <= q < size ensures Marks(s.nodes[p], size)[q] <= Lengths(s)[q] {
      assert SyncedUpTo(s.nodes[p].journal, s.nodes[q].journal, Mark(s.nodes[p], q));
    }
    SumMonotone(Marks(s.nodes[p], size), Lengths(s));
  }

  lemma PotentialIsNatural(s: State)
    requires Inv(s)
    ensures Potential(s) >= 0
  {
    hide JournalsOk, MarksOk, PcsOk, MessagesOk, AvailabilityOk;
    forall p | 0 <= p < |s.nodes| {
      MarksBelowLengths(s, p);
    }
    SumBelow(MarkSums(s), Sum(Lengths(s)));
    assert Sum(Lags(s)) * (|s.nodes| + 1) >= 0;
  }

  /** Same journals, same watermarks. */
  ghost predicate Same(s: State, t: State) {
    && |s.nodes| == |t.nodes|
    && (forall p | 0 <= p < |s.nodes| :: t.nodes[p].journal == s.nodes[p].journal)
    && (forall p, q | 0 <= p < |s.nodes| && 0 <= q < |s.nodes| :: Mark(t.nodes[p], q) == Mark(s.nodes[p], q))
  }

  /** Not a new local value, not a failing read of the node index. */
  predicate Settling(s: State, step: Step) {
    !ReadFault(step) && (step.LocalPut? ==> step.m in s.origin)
  }

  lemma MissingShrinks(u: set<Metadata>, j: seq<Metadata>, m: Metadata)
    requires DistinctTimes(u) && m in u && Accepts(j, m) && forall x | x in j :: x in u
    ensures |Missing(u, Put(j, m))| < |Missing(u, j)|
  {
    WritesWhenNotDominated(j, m, u);
    PutDominates(j, m);
    KeepsItself(j);
    PutKeeps(j, j, m);
    hide Accepts, Dominates, Put;
    var a, b := Missing(u, Put(j, m)), Missing(u, j);
    assert m in b && m !in a;
    assert a <= b - {m};
    SubsetSize(a, b - {m});
  }

  lemma {:induction false} SubsetSize(a: set<Metadata>, b: set<Metadata>)
    requires a <= b
    ensures |a| <= |b|
    decreases |b|
  {
    if a != {} {
      var x :| x in a;
      SubsetSize(a - {x}, b - {x});
    }
  }

  /** The value a step puts into the journal of its node, if it puts one. */
  function PutBy(s: State, step: Step): seq<Metadata>
    requires Enabled(s, step)
  {
    match step
    case LocalPut(_, m, fails) => if fails then [] else [m]
    case Apply(p, fails) => if fails then [] else [s.nodes[p].pc.batch[s.nodes[p].pc.applied].metadata]
    case PutNews(_, item, fails) => if fails then [] else [item.metadata]
    case _ => []
  }

  lemma PutByJournal(s: State, step: Step)
    requires Enabled(s, step)
    ensures |PutBy(s, step)| <= 1
    ensures NextNode(s, step).journal == if PutBy(s, step) == [] then s.nodes[step.p].journal else Put(s.nodes[step.p].journal, PutBy(s, step)[0])
    ensures PutBy(s, step) != [] ==> NextNode(s, step).marks == s.nodes[step.p].marks
  {
    hide Put, EntriesBetween;
  }

  lemma PutByKnown(s: State, step: Step)
    requires Inv(s) && Enabled(s, step) && Settling(s, step)
    ensures forall m | m in PutBy(s, step) :: m in s.origin
    ensures Next(s, step).origin == s.origin
    ensures Next(s, step).nodes == s.nodes[step.p := NextNode(s, step)]
  {
    if step.Apply? && !step.fails {
      BatchIsKnown(s, step.p, s.nodes[step.p].pc.batch[s.nodes[step.p].pc.applied]);
    }
    assert JournalsOk(s) && MessagesOk(s);
    hide NextNode, Inv, Grown;
  }

  lemma MarkSumsChange(s: State, t: State, r: nat)
    requires r < |s.nodes| == |t.nodes| && t.nodes == s.nodes[r := t.nodes[r]]
    requires forall q | 0 <= q < |s.nodes| :: Mark(s.nodes[r], q) <= Mark(t.nodes[r], q)
    ensures Sum(MarkSums(s)) <= Sum(MarkSums(t))
    ensures Sum(MarkSums(s)) == Sum(MarkSums(t)) ==> forall q | 0 <= q < |s.nodes| :: Mark(s.nodes[r], q) == Mark(t.nodes[r], q)
  {
    var size := |s.nodes|;
    SumMonotone(Marks(s.nodes[r], size), Marks(t.nodes[r], size));
    assert MarkSums(t) == MarkSums(s)[r := MarkSums(t)[r]];
    SumUpdate(MarkSums(s), r, MarkSums(t)[r]);
    if Sum(MarkSums(s)) == Sum(MarkSums(t)) {
      forall q | 0 <= q < size ensures Mark(s.nodes[r], q) == Mark(t.nodes[r], q) {
        assert Marks(s.nodes[r], size)[q] == Marks(t.nodes[r], size)[q];
      }
    }
  }

  lemma SumsSameMarks(s: State, t: State, r: nat)
    requires r < |s.nodes| == |t.nodes| && t.nodes == s.nodes[r := t.nodes[r]] && t.nodes[r].marks == s.nodes[r].marks
    ensures MarkSums(s) == MarkSums(t)
  {
    forall p | 0 <= p < |s.nodes| ensures MarkSums(s)[p] == MarkSums(t)[p] {
      assert Marks(s.nodes[p], |s.nodes|) == Marks(t.nodes[p], |s.nodes|);
    }
  }

  lemma WritingStepDrops(s: State, t: State, r: nat, m: Metadata)
    requires r < |s.nodes| == |t.nodes| && t.nodes == s.nodes[r := t.nodes[r]] && t.origin == s.origin
    requires t.nodes[r].journal == s.nodes[r].journal + [m] && t.nodes[r].marks == s.nodes[r].marks
    requires DistinctTimes(s.origin) && m in s.origin && Accepts(s.nodes[r].journal, m)
    requires forall x | x in s.nodes[r].journal :: x in s.origin
    ensures Potential(t) < Potential(s)
  {
    hide *;
    LagDrops(s, t, r, m);
    LengthsStep(s, t, r);
    SumsSameMarks(s, t, r);
    Arithmetic(|s.nodes|, Sum(Lags(s)), Sum(Lags(t)), Sum(Lengths(s)), Sum(MarkSums(s)));
    PotentialIs(s);
    PotentialIs(t);
  }

  lemma PotentialIs(s: State)
    ensures Potential(s) == Weigh(Sum(Lags(s)), Sum(Lengths(s)), Sum(MarkSums(s)), |s.nodes|)
  {
  }

  lemma LagDrops(s: State, t: State, r: nat, m: Metadata)
    requires r < |s.nodes| == |t.nodes| && t.nodes == s.nodes[r := t.nodes[r]] && t.origin == s.origin
    requires t.nodes[r].journal == s.nodes[r].journal + [m]
    requires DistinctTimes(s.origin) && m in s.origin && Accepts(s.nodes[r].journal, m)
    requires forall x | x in s.nodes[r].journal :: x in s.origin
    ensures Sum(Lags(t)) < Sum(Lags(s))
  {
    hide Dominates, Accepts, DistinctTimes, Missing, Sum;
    assert Put(s.nodes[r].journal, m) == t.nodes[r].journal;
    MissingShrinks(s.origin, s.nodes[r].journal, m);
    assert Lags(t) == Lags(s)[r := Lags(t)[r]] && Lags(t)[r] < Lags(s)[r];
    SumUpdate(Lags(s), r, Lags(t)[r]);
  }

  lemma LengthsStep(s: State, t: State, r: nat)
    requires r < |s.nodes| == |t.nodes| && t.nodes == s.nodes[r := t.nodes[r]]
    requires |t.nodes[r].journal| == |s.nodes[r].journal| + 1
    ensures Sum(Lengths(t)) == Sum(Lengths(s)) + 1
  {
    hide Sum;
    assert Lengths(t) == Lengths(s)[r := Lengths(t)[r]] && Lengths(t)[r] == Lengths(s)[r] + 1;
    SumUpdate(Lengths(s), r, Lengths(t)[r]);
  }

  lemma Arithmetic(size: nat, a: nat, b: nat, lengths: nat, marks: nat)
    requires b < a
    ensures Weigh(b, lengths + 1, marks, size) < Weigh(a, lengths, marks, size)
  {
    Radix.StepUp(b, a, size + 1);
    assert (lengths + 1) * size == lengths * size + size;
  }

  lemma SilentStepKeeps(s: State, t: State, r: nat)
    requires r < |s.nodes| == |t.nodes| && t.nodes == s.nodes[r := t.nodes[r]] && t.origin == s.origin
    requires t.nodes[r].journal == s.nodes[r].journal
    requires forall q | 0 <= q < |s.nodes| :: Mark(s.nodes[r], q) <= Mark(t.nodes[r], q)
    ensures Potential(t) < Potential(s) || (Potential(t) == Potential(s) && Same(s, t))
  {
    hide Dominates, Missing, MarkSums, Marks;
    MarkSumsChange(s, t, r);
    assert Lags(t) == Lags(s) && Lengths(t) == Lengths(s);
  }

  /** Every settling step lowers the potential or changes no journal and no watermark. */
  lemma StepPotential(s: State, step: Step)
    requires Inv(s) && MarksBehind(s) && DistinctTimes(s.origin) && Enabled(s, step) && Settling(s, step)
    ensures Potential(Next(s, step)) < Potential(s) || (Potential(Next(s, step)) == Potential(s) && Same(s, Next(s, step)))
  {
    var t, r := Next(s, step), step.p;
    PutByJournal(s, step);
    PutByKnown(s, step);
    StepMarksBehind(s, step);
    assert JournalsOk(s);
    hide Inv, MarksBehind, Enabled, NextNode, Next, Grown, DistinctTimes, Potential, Accepts, Same, Mark, PutBy;
    if PutBy(s, step) != [] && Accepts(s.nodes[r].journal, PutBy(s, step)[0]) {
      WritingStepDrops(s, t, r, PutBy(s, step)[0]);
    } else {
      SilentStepKeeps(s, t, r);
    }
  }

  ghost function Changes(s: State, steps: seq<Step>): nat
    requires Run(s, steps)
    decreases |steps|
  {
    if steps == [] then 0
    else (if Same(s, Next(s, steps[0])) then 0 else 1) + Changes(Next(s, steps[0]), steps[1..])
  }

  ghost predicate SettlingRun(s: State, steps: seq<Step>) {
    Run(s, steps) && forall x | x in steps :: Settling(s, x)
  }

  lemma SettlingTail(s: State, t: State, steps: seq<Step>)
    requires SettlingRun(s, steps) && steps != [] && t == Next(s, steps[0]) && t.origin == s.origin
    ensures SettlingRun(t, steps[1..])
  {
    hide Next, Enabled, ReadFault;
    forall x | x in steps[1..] ensures Settling(t, x) {
      assert x in steps;
    }
  }

  lemma SameIsTransitive(s: State, t: State, u: State)
    requires Same(s, t) && Same(t, u)
    ensures Same(s, u)
  {
  }

  /**
    However a run without new local values interleaves, loses, fails or crashes, at most
    `Potential` of its steps change a journal or a watermark.
   */
  lemma {:induction false} GossipTerminates(s: State, steps: seq<Step>)
    requires Inv(s) && MarksBehind(s) && DistinctTimes(s.origin) && SettlingRun(s, steps)
    ensures Changes(s, steps) + Potential(After(s, steps)) <= Potential(s)
    ensures 0 <= Potential(After(s, steps))
    ensures Inv(After(s, steps)) && MarksBehind(After(s, steps)) && After(s, steps).origin == s.origin
    ensures Potential(After(s, steps)) == Potential(s) ==> Same(s, After(s, steps))
    decreases |steps|
  {
    PotentialIsNatural(s);
    hide Inv, MarksBehind, DistinctTimes, Potential, Same, Next, Enabled, Settling;
    if steps == [] {
      SameItself(s);
    } else {
      var t := Next(s, steps[0]);
      assert steps[0] in steps;
      StepInv(s, steps[0]);
      StepMarksBehind(s, steps[0]);
      PutByKnown(s, steps[0]);
      StepPotential(s, steps[0]);
      SettlingTail(s, t, steps);
      GossipTerminates(t, steps[1..]);
      if Potential(After(s, steps)) == Potential(s) {
        SameIsTransitive(s, t, After(s, steps));
      }
    }
  }

  lemma SameItself(s: State)
    ensures Same(s, s)
  {
  }
}
