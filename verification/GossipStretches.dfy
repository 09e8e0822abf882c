/**
  Arbitrary runs, with syncs in flight, lost messages, failures, crashes and read faults. News spreads
  one hop in every stretch of a run in which each link catches up, and links catch up when a sync that
  was answered in the stretch ends well. So all nodes come to agree, and in runs without new values
  nearly every stretch leaves nothing to fetch.
 */
module GossipStretches {
  import opened Blocks
  import opened Journals
  import opened Merging
  import opened Gossip
  import opened GossipRuns
  import opened GossipConvergence
  import opened GossipTermination

  // ---------- moments of a run ----------

  /** The state after the first `k` steps. */
  function Moment(s: State, steps: seq<Step>, k: nat): (t: State)
    requires Run(s, steps) && k <= |steps|
    ensures |t.nodes| == |s.nodes|
    decreases k
  {
    if k == 0 then s else Moment(Next(s, steps[0]), steps[1..], k - 1)
  }

  lemma {:induction false} MomentSplits(s: State, steps: seq<Step>, k: nat)
    requires Run(s, steps) && k <= |steps|
    ensures Run(Moment(s, steps, k), steps[k..]) && After(Moment(s, steps, k), steps[k..]) == After(s, steps)
    ensures k < |steps| ==> Enabled(Moment(s, steps, k), steps[k]) && Moment(s, steps, k + 1) == Next(Moment(s, steps, k), steps[k])
    decreases k
  {
    hide Next, Enabled;
    if k == 0 {
      assert steps[0..] == steps;
      assert steps != [] ==> Moment(s, steps, 1) == Moment(Next(s, steps[0]), steps[1..], 0);
    } else {
      assert steps[1..][k - 1..] == steps[k..];
      MomentSplits(Next(s, steps[0]), steps[1..], k - 1);
    }
  }

  lemma {:induction false} MomentInv(s: State, steps: seq<Step>, k: nat)
    requires Run(s, steps) && k <= |steps|
    ensures Grows(s, Moment(s, steps, k))
    ensures Inv(s) ==> Inv(Moment(s, steps, k))
    ensures Inv(s) && AsksBehind(s) ==> AsksBehind(Moment(s, steps, k))
    decreases k
  {
    hide Next, Enabled, Keeps, Inv, AsksBehind;
    if k == 0 {
      forall p | 0 <= p < |s.nodes| {
        KeepsItself(s.nodes[p].journal);
      }
    } else {
      var t, u := Next(s, steps[0]), Moment(s, steps, k);
      StepGrows(s, steps[0]);
      if Inv(s) {
        StepInv(s, steps[0]);
        if AsksBehind(s) {
          StepAsks(s, steps[0]);
        }
      }
      MomentInv(t, steps[1..], k - 1);
      GrowsFurther(s, t, u);
    }
  }

  lemma GrowsFurther(s: State, t: State, u: State)
    requires Grows(s, t) && Grows(t, u)
    ensures Grows(s, u)
  {
    hide Keeps;
    forall p | 0 <= p < |s.nodes| {
      KeepsIsTransitive(s.nodes[p].journal, t.nodes[p].journal, u.nodes[p].journal);
    }
  }

  lemma {:induction false} MomentConcat(s: State, a: seq<Step>, b: seq<Step>, k: nat)
    requires Run(s, a) && Run(After(s, a), b) && k <= |a| + |b|
    ensures Run(s, a + b)
    ensures Moment(s, a + b, k) == if k <= |a| then Moment(s, a, k) else Moment(After(s, a), b, k - |a|)
    decreases |a|
  {
    hide Next, Enabled;
    RunConcat(s, a, b);
    if a == [] {
      assert a + b == b;
    } else if k > 0 {
      assert (a + b)[1..] == a[1..] + b;
      MomentConcat(Next(s, a[0]), a[1..], b, k - 1);
    }
  }

  /** A sync asks from its watermark on or from further back, read faults included. */
  ghost predicate AsksBehind(s: State) {
    forall p | 0 <= p < |s.nodes| && s.nodes[p].pc.Asking? :: s.nodes[p].pc.seen <= Mark(s.nodes[p], s.nodes[p].pc.peer)
  }

  lemma StepAsks(s: State, step: Step)
    requires AsksBehind(s) && Enabled(s, step)
    ensures AsksBehind(Next(s, step))
  {
    hide Put, EntriesBetween;
  }

  // ---------- catching up ----------

  /** At some moment p has fetched all that q had at the start. */
  ghost predicate CaughtUp(s: State, steps: seq<Step>, p: nat, q: nat)
    requires Run(s, steps) && p < |s.nodes| && q < |s.nodes|
  {
    exists k :: 0 <= k <= |steps| && Mark(Moment(s, steps, k).nodes[p], q) >= |s.nodes[q].journal|
  }

  lemma CatchesUpAt(s: State, steps: seq<Step>, k: nat, p: nat, q: nat)
    requires Run(s, steps) && p < |s.nodes| && q < |s.nodes| && k <= |steps|
    requires Mark(Moment(s, steps, k).nodes[p], q) >= |s.nodes[q].journal|
    ensures CaughtUp(s, steps, p, q)
  {
    hide Run, Moment;
  }

  lemma CaughtUpSooner(s: State, a: seq<Step>, b: seq<Step>, p: nat, q: nat)
    requires Run(s, a) && Run(After(s, a), b) && p < |s.nodes| && q < |s.nodes| && CaughtUp(s, a, p, q)
    ensures Run(s, a + b) && CaughtUp(s, a + b, p, q)
  {
    var k :| 0 <= k <= |a| && Mark(Moment(s, a, k).nodes[p], q) >= |s.nodes[q].journal|;
    hide *;
    MomentConcat(s, a, b, k);
    CatchesUpAt(s, a + b, k, p, q);
  }

  lemma CaughtUpLater(s: State, a: seq<Step>, b: seq<Step>, p: nat, q: nat)
    requires Run(s, a) && Run(After(s, a), b) && p < |s.nodes| && q < |s.nodes| && CaughtUp(After(s, a), b, p, q)
    ensures Run(s, a + b) && CaughtUp(s, a + b, p, q)
  {
    hide Run, After, Moment, Next, Enabled, Dominates;
    var t := After(s, a);
    RunGrows(s, a);
    assert |s.nodes[q].journal| <= |t.nodes[q].journal| by { assert Keeps(s.nodes[q].journal, t.nodes[q].journal); }
    var k :| 0 <= k <= |b| && Mark(Moment(t, b, k).nodes[p], q) >= |t.nodes[q].journal|;
    hide *;
    MomentConcat(s, a, b, |a| + k);
    MomentEnds(s, a);
    MomentStarts(t, b);
    CatchesUpAt(s, a + b, |a| + k, p, q);
  }

  /** A run that starts or ends with one in which p catches up is another. */
  lemma CaughtUpInConcat(s: State, a: seq<Step>, b: seq<Step>, p: nat, q: nat)
    requires Run(s, a) && Run(After(s, a), b) && p < |s.nodes| && q < |s.nodes|
    ensures Run(s, a + b)
    ensures CaughtUp(s, a, p, q) || CaughtUp(After(s, a), b, p, q) ==> CaughtUp(s, a + b, p, q)
  {
    hide *;
    RunConcat(s, a, b);
    if CaughtUp(s, a, p, q) {
      CaughtUpSooner(s, a, b, p, q);
    } else if CaughtUp(After(s, a), b, p, q) {
      CaughtUpLater(s, a, b, p, q);
    }
  }

  lemma MomentEnds(s: State, steps: seq<Step>)
    requires Run(s, steps)
    ensures Moment(s, steps, |steps|) == After(s, steps)
  {
    MomentSplits(s, steps, |steps|);
    assert steps[|steps|..] == [];
  }

  lemma MomentStarts(s: State, steps: seq<Step>)
    requires Run(s, steps)
    ensures Moment(s, steps, 0) == s
  {
  }

  function Asked(s: State, p: nat): seq<ExtendedMetadata>
    requires p < |s.nodes| && s.nodes[p].pc.Asking? && s.nodes[p].pc.peer < |s.nodes|
  {
    var pc := s.nodes[p].pc;
    EntriesBetween(s.nodes[pc.peer].journal, pc.seen + 1, pc.seen + 1 + BATCH)
  }

  /** Steps `i` to `k` end a sync of p with q: its last question, and the empty answer or the record of a batch that was not full. */
  ghost predicate EndsSync(s: State, steps: seq<Step>, p: nat, q: nat, i: nat, k: nat)
    requires Run(s, steps) && p < |s.nodes| && q < |s.nodes|
  {
    && i <= k < |steps| && steps[i] == Ask(p, false)
    && (var pc := Moment(s, steps, i).nodes[p].pc; pc.Asking? && pc.peer == q)
    && (forall x | i < x <= k :: !IsAsk(steps[x], p))
    && if k == i then Asked(Moment(s, steps, i), p) == []
       else steps[k] == Record(p, false)
            && (var pc := Moment(s, steps, k).nodes[p].pc; pc.Applying? && |pc.batch| < BATCH)
  }

  predicate IsAsk(step: Step, p: nat) {
    step.Ask? && step.p == p
  }

  /** Steps `i` and `k` tell p that it has nothing to fetch from q: an announcement, and its receipt. */
  ghost predicate NothingToFetch(s: State, steps: seq<Step>, p: nat, q: nat, i: nat, k: nat)
    requires Run(s, steps) && p < |s.nodes| && q < |s.nodes|
  {
    && i < k < |steps| && steps[i] == Announce(q)
    && (var number := |Moment(s, steps, i).nodes[q].journal|;
        (exists fails :: steps[k] == Start(p, Hello(q, number), false, fails)) && Mark(Moment(s, steps, k).nodes[p], q) >= number)
  }

  /** If node `n` applies a batch of `q`, it is `batch`, which follows number `base`. */
  predicate Carries(n: Node, q: nat, batch: seq<ExtendedMetadata>, base: nat) {
    n.pc.Applying? ==> n.pc.batch == batch && n.pc.peer == q && n.pc.seen == base + n.pc.applied
  }

  lemma StepCarries(s: State, step: Step, p: nat, q: nat, batch: seq<ExtendedMetadata>, base: nat)
    requires Inv(s) && Enabled(s, step) && p < |s.nodes| && Carries(s.nodes[p], q, batch, base) && !IsAsk(step, p)
    ensures Carries(Next(s, step).nodes[p], q, batch, base)
  {
    assert PcOk(s, p);
    hide Inv, Put, EntriesBetween, SyncedUpTo;
    var n := s.nodes[p];
    if step.Apply? && step.p == p && !step.fails {
      assert n.pc.batch[n.pc.applied].sequenceNumber == n.pc.seen + 1;
    }
  }

  lemma {:induction false} StillCarries(s: State, steps: seq<Step>, k: nat, p: nat, q: nat, batch: seq<ExtendedMetadata>, base: nat)
    requires Inv(s) && Run(s, steps) && k <= |steps| && p < |s.nodes| && Carries(s.nodes[p], q, batch, base)
    requires forall x | 0 <= x < k :: !IsAsk(steps[x], p)
    ensures Carries(Moment(s, steps, k).nodes[p], q, batch, base)
    decreases k
  {
    hide Inv, Next, Enabled, Carries, IsAsk;
    if k > 0 {
      StepInv(s, steps[0]);
      StepCarries(s, steps[0], p, q, batch, base);
      StillCarries(Next(s, steps[0]), steps[1..], k - 1, p, q, batch, base);
    }
  }

  lemma {:induction false} MomentLater(s: State, steps: seq<Step>, i: nat, k: nat)
    requires Run(s, steps) && i <= k <= |steps|
    ensures Run(Moment(s, steps, i), steps[i..]) && Moment(Moment(s, steps, i), steps[i..], k - i) == Moment(s, steps, k)
    decreases i
  {
    hide Next, Enabled;
    MomentSplits(s, steps, i);
    if i == 0 {
      assert steps[0..] == steps;
    } else {
      assert steps[1..][i - 1..] == steps[i..];
      MomentLater(Next(s, steps[0]), steps[1..], i - 1, k - 1);
    }
  }

  /** What a question is answered with is all that is left, or a full batch. */
  lemma AskedIsRest(s: State, p: nat)
    requires Inv(s) && p < |s.nodes| && s.nodes[p].pc.Asking?
    ensures var pc := s.nodes[p].pc;
            pc.peer < |s.nodes| && pc.seen <= |s.nodes[pc.peer].journal|
            && |Asked(s, p)| == Min(BATCH, |s.nodes[pc.peer].journal| - pc.seen)
  {
    assert PcOk(s, p);
    hide Inv, EntriesBetween;
    var pc := s.nodes[p].pc;
    BatchAfter(s.nodes[pc.peer].journal, pc.seen, BATCH);
  }

  lemma AskCarries(s: State, p: nat)
    requires Inv(s) && Enabled(s, Ask(p, false)) && s.nodes[p].pc.Asking?
    ensures Carries(Next(s, Ask(p, false)).nodes[p], s.nodes[p].pc.peer, Asked(s, p), s.nodes[p].pc.seen)
  {
    hide EntriesBetween, Inv;
  }

  lemma RecordMarks(s: State, p: nat)
    requires Enabled(s, Record(p, false)) && s.nodes[p].pc.Applying?
    ensures Mark(Next(s, Record(p, false)).nodes[p], s.nodes[p].pc.peer) == s.nodes[p].pc.seen
    ensures s.nodes[p].pc.applied == |s.nodes[p].pc.batch|
  {
  }

  /** At the record of a batch, the number seen is where the batch ends. */
  lemma RecordedBatch(s: State, steps: seq<Step>, p: nat, i: nat, k: nat)
    requires Inv(s) && Run(s, steps) && p < |s.nodes| && i < k < |steps| && steps[i] == Ask(p, false)
    requires Moment(s, steps, i).nodes[p].pc.Asking? && Moment(s, steps, i).nodes[p].pc.peer < |s.nodes|
    requires forall x | i < x <= k :: !IsAsk(steps[x], p)
    ensures var t := Moment(s, steps, i); Carries(Moment(s, steps, k).nodes[p], t.nodes[p].pc.peer, Asked(t, p), t.nodes[p].pc.seen)
  {
    hide *;
    var t, u, rest := Moment(s, steps, i), Moment(s, steps, i + 1), steps[i + 1..];
    MomentInv(s, steps, i);
    MomentInv(s, steps, i + 1);
    MomentSplits(s, steps, i);
    MomentLater(s, steps, i + 1, k);
    AskCarries(t, p);
    forall x | 0 <= x < k - (i + 1) ensures !IsAsk(rest[x], p) {
      assert rest[x] == steps[x + (i + 1)];
    }
    StillCarries(u, rest, k - (i + 1), p, t.nodes[p].pc.peer, Asked(t, p), t.nodes[p].pc.seen);
  }

  /** The marks at the end of a sync: all that the peer had when it was asked for the last time. */
  lemma EndedSyncMarks(s: State, steps: seq<Step>, p: nat, q: nat, i: nat, k: nat)
    requires Inv(s) && Run(s, steps) && p < |s.nodes| && q < |s.nodes| && EndsSync(s, steps, p, q, i, k) && i < k
    ensures Mark(Moment(s, steps, k + 1).nodes[p], q) == |Moment(s, steps, i).nodes[q].journal|
  {
    hide Inv, Next, Enabled, Moment, Asked, IsAsk, Grows, Run;
    var t, v := Moment(s, steps, i), Moment(s, steps, k);
    MomentInv(s, steps, i);
    MomentSplits(s, steps, k);
    RecordedBatch(s, steps, p, i, k);
    AskedIsRest(t, p);
    RecordMarks(v, p);
  }

  /** A sync whose last question lies in the run and that ends well has caught up. */
  lemma EndedSyncCatchesUp(s: State, steps: seq<Step>, p: nat, q: nat, i: nat, k: nat)
    requires Inv(s) && AsksBehind(s) && Run(s, steps) && p < |s.nodes| && q < |s.nodes| && EndsSync(s, steps, p, q, i, k)
    ensures CaughtUp(s, steps, p, q)
  {
    var t := Moment(s, steps, i);
    MomentInv(s, steps, i);
    assert |s.nodes[q].journal| <= |t.nodes[q].journal| by { assert Keeps(s.nodes[q].journal, t.nodes[q].journal); }
    hide Inv, Next, Enabled, Moment, Asked, IsAsk, Grows;
    if k > i {
      EndedSyncMarks(s, steps, p, q, i, k);
      assert Mark(Moment(s, steps, k + 1).nodes[p], q) >= |s.nodes[q].journal|;
    } else {
      AskedIsRest(t, p);
      assert Mark(Moment(s, steps, i).nodes[p], q) >= |s.nodes[q].journal|;
    }
  }

  /** So has a node that hears an announcement from within the run and has nothing to fetch. */
  lemma NothingToFetchIsCaughtUp(s: State, steps: seq<Step>, p: nat, q: nat, i: nat, k: nat)
    requires Run(s, steps) && p < |s.nodes| && q < |s.nodes| && NothingToFetch(s, steps, p, q, i, k)
    ensures CaughtUp(s, steps, p, q)
  {
    MomentInv(s, steps, i);
    assert Keeps(s.nodes[q].journal, Moment(s, steps, i).nodes[q].journal);
    assert Mark(Moment(s, steps, k).nodes[p], q) >= |s.nodes[q].journal|;
  }

  /** For every link a sync ends well in the run, or there is nothing to fetch. */
  ghost predicate AllSynced(s: State, steps: seq<Step>, links: Links) {
    && Run(s, steps)
    && forall e | e in links ::
         && e.0 < |s.nodes| && e.1 < |s.nodes|
         && exists i, k :: EndsSync(s, steps, e.0, e.1, i, k) || NothingToFetch(s, steps, e.0, e.1, i, k)
  }

  lemma SyncsCatchUp(s: State, steps: seq<Step>, links: Links)
    requires Inv(s) && AsksBehind(s) && AllSynced(s, steps, links)
    ensures AllCaughtUp(s, steps, links)
  {
    hide Inv, AsksBehind, Run, EndsSync, NothingToFetch, CaughtUp;
    forall e | e in links ensures CaughtUp(s, steps, e.0, e.1) {
      var i, k :| EndsSync(s, steps, e.0, e.1, i, k) || NothingToFetch(s, steps, e.0, e.1, i, k);
      if EndsSync(s, steps, e.0, e.1, i, k) {
        EndedSyncCatchesUp(s, steps, e.0, e.1, i, k);
      } else {
        NothingToFetchIsCaughtUp(s, steps, e.0, e.1, i, k);
      }
    }
  }

  /** What the lemmas of this module ask of the state they start from holds after any run. */
  lemma ReachableAsksBehind(size: nat, steps: seq<Step>)
    requires Run(Init(size), steps)
    ensures Inv(After(Init(size), steps)) && AsksBehind(After(Init(size), steps))
  {
    InitInv(size);
    MomentInv(Init(size), steps, |steps|);
    MomentEnds(Init(size), steps);
  }

  // ---------- news spreads ----------

  /** Having caught up with q's journal, p dominates it for good. */
  lemma CatchingUpCovers(s: State, steps: seq<Step>, p: nat, q: nat)
    requires Inv(s) && Run(s, steps) && p < |s.nodes| && q < |s.nodes| && CaughtUp(s, steps, p, q)
    ensures Covers(After(s, steps).nodes[p].journal, s.nodes[q].journal)
  {
    var k :| 0 <= k <= |steps| && Mark(Moment(s, steps, k).nodes[p], q) >= |s.nodes[q].journal|;
    var u := Moment(s, steps, k);
    MomentInv(s, steps, k);
    MomentSplits(s, steps, k);
    hide Moment, Run, After, CaughtUp;
    RunGrows(u, steps[k..]);
    assert MarksOk(u);
    hide Inv, Grown, Next, Enabled;
    assert SyncedUpTo(u.nodes[p].journal, u.nodes[q].journal, Mark(u.nodes[p], q));
    Handed(u.nodes[p].journal, u.nodes[q].journal, Mark(u.nodes[p], q), After(u, steps[k..]).nodes[p].journal, s.nodes[q].journal);
  }

  lemma Handed(j: seq<Metadata>, q: seq<Metadata>, n: nat, k: seq<Metadata>, q0: seq<Metadata>)
    requires SyncedUpTo(j, q, n) && Keeps(j, k) && Keeps(q0, q) && |q0| <= n
    ensures Covers(k, q0)
  {
    hide Dominates;
    assert forall i | 0 <= i < |q0| :: q0[i] == q[i];
  }

  ghost predicate AllCaughtUp(s: State, steps: seq<Step>, links: Links) {
    && Run(s, steps)
    && forall e | e in links :: e.0 < |s.nodes| && e.1 < |s.nodes| && CaughtUp(s, steps, e.0, e.1)
  }

  /** Consecutive stretches of a run, in each of which every link catches up. */
  ghost predicate Stretches(s: State, stretches: seq<seq<Step>>, links: Links)
    decreases |stretches|
  {
    stretches != [] ==> AllCaughtUp(s, stretches[0], links) && Stretches(After(s, stretches[0]), stretches[1..], links)
  }

  ghost function Finally(s: State, stretches: seq<seq<Step>>, links: Links): (t: State)
    requires Stretches(s, stretches, links)
    ensures |t.nodes| == |s.nodes|
    decreases |stretches|
  {
    if stretches == [] then s else Finally(After(s, stretches[0]), stretches[1..], links)
  }

  /** Consecutive stretches are one run. */
  lemma {:induction false} FinallyIsRun(s: State, stretches: seq<seq<Step>>, links: Links) returns (steps: seq<Step>)
    requires Stretches(s, stretches, links)
    ensures Run(s, steps) && After(s, steps) == Finally(s, stretches, links)
    decreases |stretches|
  {
    hide Run, After, CaughtUp;
    if stretches == [] {
      steps := [];
      NoSteps(s);
    } else {
      var rest := FinallyIsRun(After(s, stretches[0]), stretches[1..], links);
      RunConcat(s, stretches[0], rest);
      steps := stretches[0] + rest;
    }
  }

  lemma NoSteps(s: State)
    ensures Run(s, []) && After(s, []) == s
  {
  }

  lemma {:induction false} FinallyGrows(s: State, stretches: seq<seq<Step>>, links: Links)
    requires Inv(s) && Stretches(s, stretches, links)
    ensures Inv(Finally(s, stretches, links)) && Grows(s, Finally(s, stretches, links))
    decreases |stretches|
  {
    hide Inv, Run, After, AllCaughtUp, Keeps, Next, Enabled;
    if stretches == [] {
      forall p | 0 <= p < |s.nodes| {
        KeepsItself(s.nodes[p].journal);
      }
    } else {
      assert Run(s, stretches[0]) by { RunOfStretch(s, stretches[0], links); }
      var t := After(s, stretches[0]);
      RunInv(s, stretches[0]);
      RunGrows(s, stretches[0]);
      FinallyGrows(t, stretches[1..], links);
      GrowsFurther(s, t, Finally(t, stretches[1..], links));
    }
  }

  lemma RunOfStretch(s: State, steps: seq<Step>, links: Links)
    requires AllCaughtUp(s, steps, links)
    ensures Run(s, steps)
  {
    hide Run;
  }

  /** After as many stretches as a path has hops, its head dominates what its tail had at the start. */
  lemma {:induction false} NewsSpreads(s: State, stretches: seq<seq<Step>>, links: Links, ps: seq<nat>)
    requires Inv(s) && Stretches(s, stretches, links) && Path(links, ps) && |ps| <= |stretches| + 1
    requires LinksOk(links, |s.nodes|) && ps[|ps| - 1] < |s.nodes|
    ensures ps[0] < |s.nodes| && Covers(Finally(s, stretches, links).nodes[ps[0]].journal, s.nodes[ps[|ps| - 1]].journal)
    decreases |stretches|
  {
    PathWithin(links, |s.nodes|, ps);
    var u := Finally(s, stretches, links);
    if |ps| == 1 {
      hide Stretches, Finally;
      FinallyGrows(s, stretches, links);
      InvGrown(s, ps[0]);
      hide Inv;
      CoversItself(s.nodes[ps[0]].journal);
      KeptCover(s.nodes[ps[0]].journal, u.nodes[ps[0]].journal, s.nodes[ps[0]].journal);
    } else {
      hide Inv, Run, After, Covers, Next, Enabled, CaughtUp;
      var steps, p, q := stretches[0], ps[|ps| - 2], ps[|ps| - 1];
      var t := After(s, steps);
      assert (p, q) in links;
      CatchingUpCovers(s, steps, p, q);
      RunInv(s, steps);
      assert Path(links, ps[..|ps| - 1]);
      NewsSpreads(t, stretches[1..], links, ps[..|ps| - 1]);
      CoversIsTransitive(u.nodes[ps[0]].journal, t.nodes[p].journal, s.nodes[q].journal);
    }
  }

  lemma KeptCover(j: seq<Metadata>, k: seq<Metadata>, q: seq<Metadata>)
    requires Covers(j, q) && Keeps(j, k)
    ensures Covers(k, q)
  {
    hide Dominates;
  }

  lemma PathWithin(links: Links, size: nat, ps: seq<nat>)
    requires LinksOk(links, size) && Path(links, ps) && (ps[0] < size || ps[|ps| - 1] < size)
    ensures forall i | 0 <= i < |ps| :: ps[i] < size
  {
    forall i | 0 <= i < |ps| ensures ps[i] < size {
      if i < |ps| - 1 {
        assert (ps[i], ps[i + 1]) in links;
      } else if i > 0 {
        assert (ps[i - 1], ps[i]) in links;
      }
    }
  }

  // ---------- short paths ----------

  lemma {:induction false} Below(u: set<nat>, size: nat)
    requires forall x | x in u :: x < size
    ensures |u| <= size
    decreases size
  {
    if size == 0 {
      assert u == {};
    } else {
      Below(u - {size - 1}, size - 1);
      assert u <= (u - {size - 1}) + {size - 1};
    }
  }

  lemma AllDifferent(ps: seq<nat>, size: nat)
    requires forall i, j | 0 <= i < j < |ps| :: ps[i] != ps[j]
    requires forall i | 0 <= i < |ps| :: ps[i] < size
    ensures |ps| <= size
  {
    AsMany(ps);
    Below(Elements(ps), size);
  }

  function Elements(ps: seq<nat>): set<nat> {
    set x | x in ps
  }

  lemma {:induction false} AsMany(ps: seq<nat>)
    requires forall i, j | 0 <= i < j < |ps| :: ps[i] != ps[j]
    ensures |Elements(ps)| == |ps|
  {
    if ps == [] {
      assert Elements(ps) == {};
    } else {
      var init, last := ps[..|ps| - 1], ps[|ps| - 1];
      AsMany(init);
      assert ps == init + [last];
      assert last !in Elements(init) && Elements(ps) == Elements(init) + {last};
    }
  }

  /** A path longer than there are nodes visits one of them twice. */
  lemma VisitedTwice(ps: seq<nat>, size: nat)
    requires |ps| > size && forall i | 0 <= i < |ps| :: ps[i] < size
    ensures exists i, j :: 0 <= i < j < |ps| && ps[i] == ps[j]
  {
    if !exists i, j :: 0 <= i < j < |ps| && ps[i] == ps[j] {
      AllDifferent(ps, size);
      assert false;
    }
  }

  lemma {:induction false} ShortPath(links: Links, size: nat, ps: seq<nat>) returns (qs: seq<nat>)
    requires LinksOk(links, size) && Path(links, ps) && ps[0] < size
    ensures Path(links, qs) && qs[0] == ps[0] && qs[|qs| - 1] == ps[|ps| - 1] && |qs| <= size
    decreases |ps|
  {
    PathWithin(links, size, ps);
    if |ps| <= size {
      qs := ps;
    } else {
      VisitedTwice(ps, size);
      var i, j :| 0 <= i < j < |ps| && ps[i] == ps[j];
      var cut := ps[..i] + ps[j..];
      forall x | 0 <= x < |cut| - 1 ensures (cut[x], cut[x + 1]) in links {
        if x < i {
          assert cut[x] == ps[x] && cut[x + 1] == ps[x + 1];
        } else {
          assert cut[x] == ps[x - i + j] && cut[x + 1] == ps[x - i + j + 1];
        }
      }
      qs := ShortPath(links, size, cut);
    }
  }

  // ---------- agreement ----------

  /** No step puts a value of its own that is not among `u`. */
  predicate BringsOnly(steps: seq<Step>, u: set<Metadata>) {
    forall x | x in steps && x.LocalPut? && !x.fails :: x.m in u
  }

  lemma PutByHeld(s: State, step: Step, u: set<Metadata>)
    requires Inv(s) && Enabled(s, step) && Known(s) <= u && (step.LocalPut? && !step.fails ==> step.m in u)
    ensures forall m | m in PutBy(s, step) :: m in u
  {
    assert MessagesOk(s) && PcsOk(s);
    hide Inv, NextNode, Grown, MarksOk;
    if step.Apply? && !step.fails {
      var e := s.nodes[step.p].pc.batch[s.nodes[step.p].pc.applied];
      BatchIsKnown(s, step.p, e);
      assert e.metadata in Known(s);
    } else if step.PutNews? && !step.fails {
      assert step.item.metadata in Known(s);
    }
  }

  lemma StepKnown(s: State, step: Step, u: set<Metadata>)
    requires Inv(s) && Enabled(s, step) && Known(s) <= u && (step.LocalPut? && !step.fails ==> step.m in u)
    ensures Known(Next(s, step)) <= u
  {
    PutByHeld(s, step, u);
    PutByJournal(s, step);
    OnlyOwnNode(s, step);
    hide Inv, Next, NextNode, Enabled, PutBy, Known;
    var j, t := s.nodes[step.p].journal, Next(s, step);
    forall m | m in t.nodes[step.p].journal ensures m in j || m in u {
      if PutBy(s, step) != [] {
        PutHolds(j, PutBy(s, step)[0], m);
      }
    }
    KnownWithin(s, t, step.p, u);
  }

  lemma OnlyOwnNode(s: State, step: Step)
    requires Enabled(s, step)
    ensures Next(s, step).nodes == s.nodes[step.p := NextNode(s, step)]
  {
    hide NextNode;
  }

  lemma PutHolds(j: seq<Metadata>, m: Metadata, x: Metadata)
    requires x in Put(j, m)
    ensures x in j || x == m
  {
  }

  lemma KnownWithin(s: State, t: State, r: nat, u: set<Metadata>)
    requires r < |s.nodes| == |t.nodes| && t.nodes == s.nodes[r := t.nodes[r]] && Known(s) <= u
    requires forall m | m in t.nodes[r].journal :: m in s.nodes[r].journal || m in u
    ensures Known(t) <= u
  {
    forall m | m in Known(t) ensures m in u {
      var p :| 0 <= p < |t.nodes| && m in t.nodes[p].journal;
      assert m in s.nodes[p].journal ==> m in Known(s);
    }
  }

  lemma {:induction false} RunKnown(s: State, steps: seq<Step>, u: set<Metadata>)
    requires Inv(s) && Run(s, steps) && Known(s) <= u && BringsOnly(steps, u)
    ensures Known(After(s, steps)) <= u
    decreases |steps|
  {
    hide Inv, Next, Enabled, Known;
    if steps != [] {
      assert steps[0] in steps;
      StepInv(s, steps[0]);
      StepKnown(s, steps[0], u);
      assert forall x | x in steps[1..] :: x in steps;
      RunKnown(Next(s, steps[0]), steps[1..], u);
    }
  }

  lemma {:induction false} FinallyKnown(s: State, stretches: seq<seq<Step>>, links: Links, u: set<Metadata>)
    requires Inv(s) && Stretches(s, stretches, links) && Known(s) <= u
    requires forall x | x in stretches :: BringsOnly(x, u)
    ensures Known(Finally(s, stretches, links)) <= u
    decreases |stretches|
  {
    hide Inv, Run, After, Known, CaughtUp, BringsOnly;
    if stretches != [] {
      assert stretches[0] in stretches;
      RunInv(s, stretches[0]);
      RunKnown(s, stretches[0], u);
      assert forall x | x in stretches[1..] :: x in stretches;
      FinallyKnown(After(s, stretches[0]), stretches[1..], links, u);
    }
  }

  /** Node p has a newest version of every slot that occurs in `u`, and nothing else. */
  ghost predicate HasNewest(j: seq<Metadata>, u: set<Metadata>) {
    && (forall m | m in u :: Has(j, m.Slot()))
    && (forall slot | Has(j, slot) :: Newest(Latest(j, slot), u))
  }

  lemma CoversAllIsNewest(j: seq<Metadata>, s: State)
    requires forall q | 0 <= q < |s.nodes| :: Covers(j, s.nodes[q].journal)
    requires forall m | m in j :: m in Known(s)
    ensures HasNewest(j, Known(s))
  {
    hide LastNumber;
    forall m | m in Known(s) ensures Dominates(j, m) {
      var q :| 0 <= q < |s.nodes| && m in s.nodes[q].journal;
      assert Covers(j, s.nodes[q].journal);
      var i :| 0 <= i < |s.nodes[q].journal| && s.nodes[q].journal[i] == m;
    }
  }

  /**
    As many stretches as there are nodes, less one, and everybody has a newest version of all that
    anybody had at the start, whatever else the run did, unless new values came in meanwhile.
   */
  lemma NewsReachesAll(s: State, stretches: seq<seq<Step>>, links: Links, p: nat)
    requires Inv(s) && LinksOk(links, |s.nodes|) && StronglyConnected(links, |s.nodes|)
    requires Stretches(s, stretches, links) && |s.nodes| <= |stretches| + 1
    requires forall x | x in stretches :: BringsOnly(x, Known(s))
    requires p < |s.nodes|
    ensures HasNewest(Finally(s, stretches, links).nodes[p].journal, Known(s))
  {
    var u := Finally(s, stretches, links);
    FinallyKnown(s, stretches, links, Known(s));
    hide Inv, Stretches, Finally, Known, Covers, BringsOnly, Path, LinksOk;
    forall q | 0 <= q < |s.nodes| ensures Covers(u.nodes[p].journal, s.nodes[q].journal) {
      assert Reaches(links, p, q);
      var ps :| Path(links, ps) && ps[0] == p && ps[|ps| - 1] == q;
      var short := ShortPath(links, |s.nodes|, ps);
      NewsSpreads(s, stretches, links, short);
    }
    assert forall m | m in u.nodes[p].journal :: m in Known(u);
    CoversAllIsNewest(u.nodes[p].journal, s);
  }

  lemma NewestAgree(j: seq<Metadata>, k: seq<Metadata>, u: set<Metadata>)
    requires HasNewest(j, u) && HasNewest(k, u)
    ensures SameTimes(j, k)
    ensures UniqueNewest(u) ==> View(j) == View(k)
  {
    hide LastNumber;
    forall slot ensures Has(j, slot) == Has(k, slot) {
    }
    forall slot ensures slot in View(j) <==> Has(j, slot) {
      HasIsMembership(j, slot);
    }
    forall slot ensures slot in View(k) <==> Has(k, slot) {
      HasIsMembership(k, slot);
    }
  }

  /**
    Gossip converges, in any run: after such stretches all nodes agree on every slot and its time, and
    if each slot has one newest version, on the whole index.
   */
  lemma GossipConverges(s: State, stretches: seq<seq<Step>>, links: Links, p: nat, q: nat)
    requires Inv(s) && LinksOk(links, |s.nodes|) && StronglyConnected(links, |s.nodes|)
    requires Stretches(s, stretches, links) && |s.nodes| <= |stretches| + 1
    requires forall x | x in stretches :: BringsOnly(x, Known(s))
    requires p < |s.nodes| && q < |s.nodes|
    ensures SameTimes(Finally(s, stretches, links).nodes[p].journal, Finally(s, stretches, links).nodes[q].journal)
    ensures UniqueNewest(Known(s)) ==>
              View(Finally(s, stretches, links).nodes[p].journal) == View(Finally(s, stretches, links).nodes[q].journal)
  {
    hide *;
    NewsReachesAll(s, stretches, links, p);
    NewsReachesAll(s, stretches, links, q);
    var u := Finally(s, stretches, links);
    NewestAgree(u.nodes[p].journal, u.nodes[q].journal, Known(s));
  }

  // ---------- settling ----------

  /** A stretch without new values in which all links catch up lowers the potential or leaves nothing to fetch. */
  lemma StretchSettles(s: State, steps: seq<Step>, links: Links)
    requires Inv(s) && MarksBehind(s) && DistinctTimes(s.origin) && AllCaughtUp(s, steps, links) && SettlingRun(s, steps)
    ensures Potential(After(s, steps)) < Potential(s)
            || (Potential(After(s, steps)) == Potential(s) && Same(s, After(s, steps)) && Quiescent(After(s, steps), links))
  {
    var t := After(s, steps);
    assert 0 <= Changes(s, steps);
    hide Inv, MarksBehind, DistinctTimes, Run, After, Potential, Changes, CaughtUp;
    GossipTerminates(s, steps);
    if Potential(t) == Potential(s) {
      forall e | e in links ensures Mark(t.nodes[e.0], e.1) == |t.nodes[e.1].journal| {
        CaughtUpMark(s, steps, e.0, e.1);
      }
    }
  }

  lemma CaughtUpMark(s: State, steps: seq<Step>, p: nat, q: nat)
    requires Inv(s) && MarksBehind(s) && SettlingRun(s, steps) && p < |s.nodes| && q < |s.nodes| && CaughtUp(s, steps, p, q)
    ensures |s.nodes[q].journal| <= Mark(After(s, steps).nodes[p], q) <= |After(s, steps).nodes[q].journal|
  {
    var k :| 0 <= k <= |steps| && Mark(Moment(s, steps, k).nodes[p], q) >= |s.nodes[q].journal|;
    MomentInv(s, steps, k);
    MomentSplits(s, steps, k);
    MomentBehind(s, steps, k);
    assert forall x | x in steps[k..] :: x in steps;
    hide Moment, Run, After, MarksBehind, Next, Enabled, SyncedUpTo;
    RunInv(s, steps);
    WatermarksNeverGoBack(Moment(s, steps, k), steps[k..], p, q);
    assert MarksOk(After(s, steps));
    hide Inv;
    SyncedWithin(After(s, steps).nodes[p].journal, After(s, steps).nodes[q].journal, Mark(After(s, steps).nodes[p], q));
  }

  lemma {:induction false} MomentBehind(s: State, steps: seq<Step>, k: nat)
    requires Inv(s) && MarksBehind(s) && SettlingRun(s, steps) && k <= |steps|
    ensures MarksBehind(Moment(s, steps, k))
    decreases k
  {
    hide Inv, MarksBehind, Next, Enabled;
    if k > 0 {
      assert steps[0] in steps && Settling(s, steps[0]);
      StepInv(s, steps[0]);
      StepMarksBehind(s, steps[0]);
      PutByKnown(s, steps[0]);
      SettlingTail(s, Next(s, steps[0]), steps);
      MomentBehind(Next(s, steps[0]), steps[1..], k - 1);
    }
  }

  /** No stretch brings new values or a failing read of the node index. */
  ghost predicate Settled(s: State, stretches: seq<seq<Step>>, links: Links)
    requires Stretches(s, stretches, links)
    decreases |stretches|
  {
    stretches != [] ==> SettlingRun(s, stretches[0]) && Settled(After(s, stretches[0]), stretches[1..], links)
  }

  /** How many stretches end with something left to fetch. */
  ghost function Unquiet(s: State, stretches: seq<seq<Step>>, links: Links): nat
    requires Stretches(s, stretches, links)
    decreases |stretches|
  {
    if stretches == [] then 0
    else (if Quiescent(After(s, stretches[0]), links) then 0 else 1) + Unquiet(After(s, stretches[0]), stretches[1..], links)
  }

  /** With distinct times, all stretches but as many as the potential end with nothing to fetch. */
  lemma {:induction false} StretchesSettle(s: State, stretches: seq<seq<Step>>, links: Links)
    requires Inv(s) && MarksBehind(s) && DistinctTimes(s.origin) && Stretches(s, stretches, links) && Settled(s, stretches, links)
    ensures Unquiet(s, stretches, links) <= Potential(s)
    decreases |stretches|
  {
    hide Inv, MarksBehind, DistinctTimes, Run, After, Potential, Quiescent, Same, CaughtUp, Settling, Changes;
    if stretches == [] {
      PotentialIsNatural(s);
    } else {
      StretchSettles(s, stretches[0], links);
      GossipTerminates(s, stretches[0]);
      StretchesSettle(After(s, stretches[0]), stretches[1..], links);
    }
  }
}
