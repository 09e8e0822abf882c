/**
  Failing reads of the node index. Such a read makes a sync start from 0, and the first batch it
  records replaces the watermark. This says exactly when that lowers the watermark.
 */
module GossipFaults {
  import opened Journals
  import opened Gossip
  import opened GossipRuns
  import opened GossipRounds

  predicate Starts(step: Step, p: nat) {
    step.Start? && step.p == p
  }

  /** A sync of p that `hello` starts with a failing read, and whatever else happens meanwhile. */
  ghost predicate FaultySync(s: State, steps: seq<Step>, p: nat, hello: Hello) {
    && Run(s, steps) && steps != []
    && Starts(steps[0], p) && steps[0].hello == hello && steps[0].getFails
    && forall x | x in steps[1..] :: !Starts(x, p)
  }

  ghost predicate Lowers(s: State, steps: seq<Step>, p: nat, q: nat)
    requires Run(s, steps) && p < |s.nodes|
  {
    Mark(After(s, steps).nodes[p], q) < Mark(s.nodes[p], q)
  }

  // ---------- when it does not ----------

  /** The watermark of `n` for `q` is not below `w`, and the sync under way will not lower it further. */
  predicate Floor(n: Node, q: nat, w: nat) {
    && Mark(n, q) >= w
    && (n.pc != Idle ==> n.pc.peer == q)
    && (n.pc.Asking? ==> n.pc.seen == 0 || n.pc.seen >= w)
    && (n.pc.Applying? ==> n.pc.seen + |n.pc.batch| >= w + n.pc.applied)
  }

  lemma AskFloor(s: State, p: nat, q: nat, w: nat, fails: bool)
    requires Inv(s) && p < |s.nodes| && q < |s.nodes| && w <= BATCH && s.nodes[p].pc.Asking? && Floor(s.nodes[p], q, w)
    ensures Floor(AskPeer(s.nodes[p], s.nodes[q].journal, fails), q, w)
  {
    assert MarksOk(s) && PcOk(s, p);
    hide Inv, Dominates, EntriesBetween;
    var n, j := s.nodes[p], s.nodes[q].journal;
    assert SyncedUpTo(n.journal, j, Mark(n, q));
    BatchAfter(j, n.pc.seen, BATCH);
  }

  lemma ApplyFloor(s: State, p: nat, q: nat, w: nat, fails: bool)
    requires Inv(s) && p < |s.nodes| && s.nodes[p].pc.Applying? && s.nodes[p].pc.applied < |s.nodes[p].pc.batch|
    requires Floor(s.nodes[p], q, w)
    ensures Floor(ApplyEntry(s.nodes[p], fails), q, w)
  {
    assert PcOk(s, p);
    hide Inv, Put, SyncedUpTo;
    var pc := s.nodes[p].pc;
    assert pc.batch[pc.applied].sequenceNumber == pc.seen + 1;
  }

  lemma StepFloor(s: State, step: Step, p: nat, q: nat, w: nat)
    requires Inv(s) && Enabled(s, step) && p < |s.nodes| && q < |s.nodes| && w <= BATCH
    requires Floor(s.nodes[p], q, w) && !Starts(step, p)
    ensures Floor(Next(s, step).nodes[p], q, w)
  {
    hide Inv, AskPeer, ApplyEntry, Put;
    if step.p == p {
      if step.Ask? {
        AskFloor(s, p, q, w, step.fails);
      } else if step.Apply? {
        ApplyFloor(s, p, q, w, step.fails);
      }
    }
  }

  lemma {:induction false} RunFloor(s: State, steps: seq<Step>, p: nat, q: nat, w: nat)
    requires Inv(s) && Run(s, steps) && p < |s.nodes| && q < |s.nodes| && w <= BATCH && Floor(s.nodes[p], q, w)
    requires forall x | x in steps :: !Starts(x, p)
    ensures Floor(After(s, steps).nodes[p], q, w)
    decreases |steps|
  {
    hide Inv, Next, Enabled, Floor, Starts;
    if steps != [] {
      assert steps[0] in steps && forall x | x in steps[1..] :: x in steps;
      StepInv(s, steps[0]);
      StepFloor(s, steps[0], p, q, w);
      RunFloor(Next(s, steps[0]), steps[1..], p, q, w);
    }
  }

  /** The watermark a sync that starts from 0 may lower: any if nothing is announced, else one beyond the first batch. */
  predicate AtRisk(mark: nat, announced: nat) {
    if announced == 0 then mark > 0 else mark > BATCH
  }

  lemma NotAtRisk(s: State, steps: seq<Step>, p: nat, hello: Hello)
    requires Inv(s) && FaultySync(s, steps, p, hello) && p < |s.nodes| && !AtRisk(Mark(s.nodes[p], hello.from), hello.number)
    ensures !Lowers(s, steps, p, hello.from)
  {
    var q, w, t := hello.from, Mark(s.nodes[p], hello.from), Next(s, steps[0]);
    StepInv(s, steps[0]);
    if w > 0 {
      assert Floor(t.nodes[p], q, w);
      hide Inv, Next, Floor, Starts;
      RunFloor(t, steps[1..], p, q, w);
      FloorMark(After(s, steps).nodes[p], q, w);
    }
  }

  lemma FloorMark(n: Node, q: nat, w: nat)
    requires Floor(n, q, w)
    ensures Mark(n, q) >= w
  {
  }

  // ---------- when it does ----------

  /** The first batch of a sync that starts from 0 sets the watermark to the size of a batch. */
  lemma FirstBatchLowers(s: State, p: nat, hello: Hello)
    requires Inv(s) && Enabled(s, Start(p, hello, true, false)) && hello.number > 0 && Mark(s.nodes[p], hello.from) > BATCH
    ensures var steps := [Start(p, hello, true, false)] + BatchSteps(p, BATCH);
            Run(s, steps) && Mark(After(s, steps).nodes[p], hello.from) == BATCH
  {
    var q, n := hello.from, s.nodes[p];
    assert MarksOk(s);
    assert |s.nodes[q].journal| > BATCH by {
      hide Dominates;
      assert SyncedUpTo(n.journal, s.nodes[q].journal, Mark(n, q));
    }
    var start := Start(p, hello, true, false);
    var t := WithNode(s, p, n.(pc := Asking(q, 0)));
    assert Next(s, start) == t;
    hide Inv, Goes, BatchSteps, PutAll, Run, After, Next;
    GoesOne(s, start);
    assert Syncing(t, p) && PeerJournal(t, p) == s.nodes[q].journal;
    BatchRun(t, p, BATCH);
    var u := WithNode(t, p, Batched(t.nodes[p], PeerJournal(t, p), BATCH));
    GoesOn(s, [start], t, BatchSteps(p, BATCH), u);
    GoesMeans(s, [start] + BatchSteps(p, BATCH), u);
  }

  lemma GoesMeans(s: State, steps: seq<Step>, t: State)
    requires Goes(s, steps, t)
    ensures Run(s, steps) && After(s, steps) == t
  {
    hide Run, After;
  }

  lemma BatchDoesNotStart(p: nat, size: nat)
    ensures forall x | x in BatchSteps(p, size) :: !Starts(x, p)
  {
    AppliesOnly(p, size);
  }

  lemma AtRiskLowers(s: State, p: nat, hello: Hello) returns (steps: seq<Step>)
    requires Inv(s) && Enabled(s, Start(p, hello, true, false)) && AtRisk(Mark(s.nodes[p], hello.from), hello.number)
    ensures FaultySync(s, steps, p, hello) && Lowers(s, steps, p, hello.from)
  {
    var start := Start(p, hello, true, false);
    if hello.number == 0 {
      steps := [start];
      OneStep(s, start);
    } else {
      hide Inv, BatchSteps;
      steps := [start] + BatchSteps(p, BATCH);
      FirstBatchLowers(s, p, hello);
      BatchDoesNotStart(p, BATCH);
      assert steps[1..] == BatchSteps(p, BATCH);
    }
  }

  /**
    After a failing read, a sync can lower the watermark exactly when the announcement says 0 and
    anything was fetched before, or says more and more than one batch was fetched before.
   */
  lemma ReadFaultLowersExactly(s: State, p: nat, hello: Hello)
    requires Inv(s) && Enabled(s, Start(p, hello, true, false))
    ensures (exists steps :: FaultySync(s, steps, p, hello) && Lowers(s, steps, p, hello.from))
            <==> AtRisk(Mark(s.nodes[p], hello.from), hello.number)
  {
    hide Inv, Lowers, AtRisk, Run, After;
    if AtRisk(Mark(s.nodes[p], hello.from), hello.number) {
      var steps := AtRiskLowers(s, p, hello);
    } else {
      forall steps | FaultySync(s, steps, p, hello) ensures !Lowers(s, steps, p, hello.from) {
        NotAtRisk(s, steps, p, hello);
      }
    }
  }
}
