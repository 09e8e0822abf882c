/** What holds after every run of the gossip protocol, whatever is lost, fails or crashes. */
module GossipRuns {
  import opened Blocks
  import opened Journals
  import opened Gossip

  lemma {:induction false} RunInv(s: State, steps: seq<Step>)
    requires Inv(s) && Run(s, steps)
    ensures Inv(After(s, steps))
    decreases |steps|
  {
    hide Inv, Next, Enabled;
    if steps != [] {
      StepInv(s, steps[0]);
      RunInv(Next(s, steps[0]), steps[1..]);
    }
  }

  lemma {:induction false} RunConcat(s: State, a: seq<Step>, b: seq<Step>)
    requires Run(s, a) && Run(After(s, a), b)
    ensures Run(s, a + b) && After(s, a + b) == After(After(s, a), b)
    decreases |a|
  {
    hide Next, Enabled;
    if a == [] {
      assert a + b == b;
    } else {
      assert (a + b)[1..] == a[1..] + b;
      RunConcat(Next(s, a[0]), a[1..], b);
    }
  }

  /** Journals only grow; an OID once present stays, with a time that never goes back. */
  lemma {:induction false} RunGrows(s: State, steps: seq<Step>)
    requires Run(s, steps)
    ensures Grows(s, After(s, steps))
    decreases |steps|
  {
    hide Next, Enabled, Keeps;
    if steps == [] {
      forall p | 0 <= p < |s.nodes| {
        KeepsItself(s.nodes[p].journal);
      }
    } else {
      var t := Next(s, steps[0]);
      StepGrows(s, steps[0]);
      RunGrows(t, steps[1..]);
      var u := After(t, steps[1..]);
      forall p | 0 <= p < |s.nodes| ensures Keeps(s.nodes[p].journal, u.nodes[p].journal) {
        KeepsIsTransitive(s.nodes[p].journal, t.nodes[p].journal, u.nodes[p].journal);
      }
    }
  }

  lemma KeepsSlots(j: seq<Metadata>, k: seq<Metadata>, slot: string)
    requires Keeps(j, k) && Has(j, slot)
    ensures Has(k, slot) && Latest(k, slot).updateTime >= Latest(j, slot).updateTime
  {
    assert Dominates(j, Latest(j, slot));
  }

  /** A deletion, like any update, is never undone by an older version, by whichever route it comes. */
  lemma {:induction false} NeverGoesBack(s: State, steps: seq<Step>, p: nat, slot: string)
    requires Run(s, steps) && p < |s.nodes| && Has(s.nodes[p].journal, slot)
    ensures var j := After(s, steps).nodes[p].journal;
            Has(j, slot) && Latest(j, slot).updateTime >= Latest(s.nodes[p].journal, slot).updateTime
  {
    RunGrows(s, steps);
    KeepsSlots(s.nodes[p].journal, After(s, steps).nodes[p].journal, slot);
  }

  // ---------- from an empty swarm ----------

  /** Watermark soundness: what lies at or below the watermark is here already, or something newer is. */
  lemma WatermarkSoundness(size: nat, steps: seq<Step>, p: nat, q: nat, number: nat)
    requires Run(Init(size), steps) && p < size && q < size
    requires 1 <= number <= Mark(After(Init(size), steps).nodes[p], q)
    ensures var s := After(Init(size), steps);
            number <= |s.nodes[q].journal| && Dominates(s.nodes[p].journal, Numbered(s.nodes[q].journal, number).metadata)
  {
    InitInv(size);
    RunInv(Init(size), steps);
    RunGrows(Init(size), steps);
    var s := After(Init(size), steps);
    assert SyncedUpTo(s.nodes[p].journal, s.nodes[q].journal, Mark(s.nodes[p], q));
  }

  ghost function LocalPuts(steps: seq<Step>): set<Metadata> {
    set x | x in steps && x.LocalPut? :: x.m
  }

  ghost function Stored(steps: seq<Step>): set<(nat, string)> {
    set x | x in steps && x.StoreBlock? && x.present :: (x.p, x.slot)
  }

  lemma {:induction false} RunHistory(s: State, steps: seq<Step>)
    requires Run(s, steps)
    ensures After(s, steps).origin == s.origin + LocalPuts(steps)
    ensures After(s, steps).held == s.held + Stored(steps)
    decreases |steps|
  {
    hide NextNode, Enabled;
    if steps == [] {
      assert LocalPuts(steps) == {} && Stored(steps) == {};
    } else {
      var t := Next(s, steps[0]);
      HistoryStep(s, steps[0]);
      HistoryConcat([steps[0]], steps[1..]);
      assert [steps[0]] + steps[1..] == steps;
      hide Next, LocalPuts, Stored;
      RunHistory(t, steps[1..]);
    }
  }

  lemma HistoryStep(s: State, step: Step)
    requires Enabled(s, step)
    ensures Next(s, step).origin == s.origin + LocalPuts([step])
    ensures Next(s, step).held == s.held + Stored([step])
  {
    hide NextNode;
  }

  lemma HistoryConcat(a: seq<Step>, b: seq<Step>)
    ensures LocalPuts(a + b) == LocalPuts(a) + LocalPuts(b)
    ensures Stored(a + b) == Stored(a) + Stored(b)
  {
  }

  ghost predicate Carried(s: State, p: nat, m: Metadata)
    requires p < |s.nodes|
  {
    || m in s.nodes[p].journal
    || (exists x :: x in s.news && x.metadata == m)
    || (s.nodes[p].pc.Applying? && exists e :: e in s.nodes[p].pc.batch && e.metadata == m)
  }

  lemma BatchIsKnown(s: State, p: nat, e: ExtendedMetadata)
    requires PcsOk(s) && p < |s.nodes| && s.nodes[p].pc.Applying? && e in s.nodes[p].pc.batch
    ensures s.nodes[p].pc.peer < |s.nodes| && e.metadata in s.nodes[s.nodes[p].pc.peer].journal
  {
    hide SyncedUpTo;
    assert PcOk(s, p);
    var pc := s.nodes[p].pc;
    var i :| 0 <= i < |pc.batch| && pc.batch[i] == e;
    assert e == Numbered(s.nodes[pc.peer].journal, pc.seen - pc.applied + i + 1);
  }

  lemma CarriedIsKnown(s: State, p: nat, m: Metadata)
    requires Inv(s) && p < |s.nodes| && Carried(s, p, m)
    ensures m in s.origin
  {
    hide Grown, MarksOk, PcsOk, AvailabilityOk;
    if x :| x in s.news && x.metadata == m {
      assert m in s.nodes[x.from].journal;
    } else if m !in s.nodes[p].journal {
      var e :| e in s.nodes[p].pc.batch && e.metadata == m;
      BatchIsKnown(s, p, e);
    }
  }

  /** Every value in a journal, in a batch in flight or in a block announcement was put locally somewhere. */
  lemma Provenance(size: nat, steps: seq<Step>, p: nat, m: Metadata)
    requires Run(Init(size), steps) && p < size
    requires Carried(After(Init(size), steps), p, m)
    ensures m in LocalPuts(steps)
  {
    hide Inv, Carried;
    InitInv(size);
    RunInv(Init(size), steps);
    RunHistory(Init(size), steps);
    CarriedIsKnown(After(Init(size), steps), p, m);
  }

  /** A node listed as holding a block did store that block at some point of the run. */
  lemma ListedNodesStored(size: nat, steps: seq<Step>, p: nat, slot: string, q: nat)
    requires Run(Init(size), steps) && p < size
    requires var who := After(Init(size), steps).nodes[p].who; (slot, q) in who && who[(slot, q)]
    ensures exists x :: x in steps && x == StoreBlock(q, slot, true)
  {
    InitInv(size);
    RunInv(Init(size), steps);
    RunHistory(Init(size), steps);
    assert (q, slot) in Stored(steps);
  }

  // ---------- watermarks never go back ----------

  /** A running sync is never behind the watermark it is about to replace. */
  ghost predicate MarksBehind(s: State) {
    forall p | 0 <= p < |s.nodes| :: Behind(s.nodes[p])
  }

  predicate ReadFault(step: Step) {
    step.Start? && step.getFails
  }

  lemma StepMarksBehind(s: State, step: Step)
    requires Inv(s) && MarksBehind(s) && Enabled(s, step) && !ReadFault(step)
    ensures MarksBehind(Next(s, step))
    ensures forall p, q | 0 <= p < |s.nodes| :: Mark(Next(s, step).nodes[p], q) >= Mark(s.nodes[p], q)
  {
    OwnMarksBehind(s, step);
    hide Inv, NextNode, Enabled;
    assert Next(s, step).nodes == s.nodes[step.p := NextNode(s, step)];
  }

  predicate Behind(n: Node) {
    n.pc != Idle ==> Mark(n, n.pc.peer) + (if n.pc.Applying? then n.pc.applied else 0) <= n.pc.seen
  }

  lemma OwnMarksBehind(s: State, step: Step)
    requires Inv(s) && MarksBehind(s) && Enabled(s, step) && !ReadFault(step)
    ensures Behind(NextNode(s, step)) && forall q :: Mark(NextNode(s, step), q) >= Mark(s.nodes[step.p], q)
  {
    assert PcOk(s, step.p) && Behind(s.nodes[step.p]);
    hide Inv, MarksBehind, SyncedUpTo, Put, EntriesBetween;
    var n := s.nodes[step.p];
    if step.Apply? {
      assert n.pc.batch[n.pc.applied].sequenceNumber == n.pc.seen + 1;
    } else if step.Record? {
      assert Mark(n, n.pc.peer) <= n.pc.seen;
    } else {
      hide PcOk, FollowsOk;
    }
  }

  /** Without failing reads of the node index, no run lowers a watermark. */
  lemma {:induction false} WatermarksNeverGoBack(s: State, steps: seq<Step>, p: nat, q: nat)
    requires Inv(s) && MarksBehind(s) && Run(s, steps) && p < |s.nodes|
    requires forall x | x in steps :: !ReadFault(x)
    ensures MarksBehind(After(s, steps))
    ensures Mark(s.nodes[p], q) <= Mark(After(s, steps).nodes[p], q)
    decreases |steps|
  {
    hide Inv, MarksBehind, Enabled, NextNode;
    if steps != [] {
      assert steps[0] in steps;
      StepInv(s, steps[0]);
      StepMarksBehind(s, steps[0]);
      WatermarksNeverGoBack(Next(s, steps[0]), steps[1..], p, q);
    }
  }

  /** The start of a sync lowers a watermark in one case only: the read fails and the announcement says 0. */
  lemma StartLowersMark(s: State, step: Step)
    requires Enabled(s, step) && step.Start?
    ensures Mark(Next(s, step).nodes[step.p], step.hello.from) < Mark(s.nodes[step.p], step.hello.from) <==>
            step.getFails && !step.fails && step.hello.number == 0 && Mark(s.nodes[step.p], step.hello.from) > 0
  {
  }

  lemma OneStep(s: State, step: Step)
    requires Enabled(s, step)
    ensures Run(s, [step]) && After(s, [step]) == Next(s, step)
  {
    hide Next, Enabled;
    assert After(Next(s, step), []) == Next(s, step);
  }
}
