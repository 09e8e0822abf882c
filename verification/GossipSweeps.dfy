/**
  Schedules of undisturbed syncs. With distinct times, visiting every link again and again settles
  and converges within a number of sweeps that the potential bounds. With two versions of equal
  time, two nodes overwrite each other for ever.
 */
module GossipSweeps {
  import opened Blocks
  import opened Journals
  import opened Merging
  import opened Gossip
  import opened GossipRuns
  import opened GossipConvergence
  import opened GossipTermination
  import opened GossipStretches
  import opened GossipRounds

  type Visits = seq<(nat, nat)>

  predicate AllIdle(s: State) {
    forall p | 0 <= p < |s.nodes| :: s.nodes[p].pc == Idle
  }

  ghost predicate Ready(s: State) {
    Inv(s) && AllIdle(s)
  }

  predicate VisitsOk(v: Visits, size: nat) {
    forall e | e in v :: e.0 < size && e.1 < size && e.0 != e.1
  }

  lemma ReadyMark(s: State, p: nat, q: nat)
    requires Ready(s) && p < |s.nodes| && q < |s.nodes|
    ensures Mark(s.nodes[p], q) <= |s.nodes[q].journal|
  {
    assert MarksOk(s);
    hide Inv;
    assert SyncedUpTo(s.nodes[p].journal, s.nodes[q].journal, Mark(s.nodes[p], q));
  }

  lemma SyncedReady(s: State, p: nat, q: nat)
    requires Ready(s) && p < |s.nodes| && q < |s.nodes| && p != q
    ensures Mark(s.nodes[p], q) <= |s.nodes[q].journal|
    ensures Ready(Synced(s, p, q)) && Synced(s, p, q).origin == s.origin
    ensures Goes(s, RoundSteps(s, p, q), Synced(s, p, q))
  {
    ReadyMark(s, p, q);
    RoundIsRun(s, p, q);
    hide Inv, RoundSteps;
    RunInv(s, RoundSteps(s, p, q));
  }

  /** One undisturbed sync after the other. */
  ghost function Visit(s: State, v: Visits): (t: State)
    requires Ready(s) && VisitsOk(v, |s.nodes|)
    ensures Ready(t) && |t.nodes| == |s.nodes| && t.origin == s.origin
    decreases |v|
  {
    if v == [] then s
    else
      assert v[0] in v;
      assert VisitsOk(v[1..], |s.nodes|) by { assert forall e | e in v[1..] :: e in v; }
      SyncedReady(s, v[0].0, v[0].1);
      Visit(Synced(s, v[0].0, v[0].1), v[1..])
  }

  lemma GoesNowhere(s: State)
    ensures Goes(s, [], s)
  {
  }

  lemma {:induction false} PullSettles(p: nat, left: nat)
    ensures forall x | x in Pull(p, left) :: x.Ask? || x.Apply? || x.Record?
    decreases left
  {
    AppliesOnly(p, Min(left, BATCH));
    PullUnfolds(p, left);
    hide Applies, Pull;
    if left >= BATCH {
      PullSettles(p, left - BATCH);
    }
  }

  /** No step puts a local value, none fails to read the node index. */
  predicate Plain(steps: seq<Step>) {
    forall x | x in steps :: !x.LocalPut? && !ReadFault(x)
  }

  lemma RoundIsPlain(s: State, p: nat, q: nat)
    requires p < |s.nodes| && q < |s.nodes|
    ensures Plain(RoundSteps(s, p, q))
  {
    var left := |s.nodes[q].journal| - Mark(s.nodes[p], q);
    if left > 0 {
      PullSettles(p, left);
    }
    hide Pull;
  }

  /** `steps` is a run from `s` to `t` in which all of `v` catch up, and a plain one. */
  ghost predicate Catches(s: State, steps: seq<Step>, t: State, v: Visits)
    requires VisitsOk(v, |s.nodes|)
  {
    Goes(s, steps, t) && Plain(steps) && forall e | e in v :: CaughtUp(s, steps, e.0, e.1)
  }

  lemma RoundCatches(s: State, p: nat, q: nat)
    requires Ready(s) && p < |s.nodes| && q < |s.nodes| && p != q
    ensures Mark(s.nodes[p], q) <= |s.nodes[q].journal|
    ensures Run(s, RoundSteps(s, p, q)) && CaughtUp(s, RoundSteps(s, p, q), p, q)
  {
    SyncedReady(s, p, q);
    var steps, t := RoundSteps(s, p, q), Synced(s, p, q);
    assert Mark(t.nodes[p], q) == |s.nodes[q].journal|;
    hide Ready, RoundSteps, Synced, Moment, Run, After;
    MomentEnds(s, steps);
    assert Mark(Moment(s, steps, |steps|).nodes[p], q) >= |s.nodes[q].journal|;
  }

  lemma {:induction false} VisitCatches(s: State, v: Visits)
    requires Ready(s) && VisitsOk(v, |s.nodes|)
    ensures exists steps :: Catches(s, steps, Visit(s, v), v)
    decreases |v|
  {
    hide Ready, Synced, RoundSteps, CaughtUp, Run, After;
    if v == [] {
      GoesNowhere(s);
      assert Catches(s, [], Visit(s, v), v);
    } else {
      var p, q, rest := v[0].0, v[0].1, v[1..];
      assert v[0] in v && forall e | e in rest :: e in v;
      SyncedReady(s, p, q);
      RoundCatches(s, p, q);
      RoundIsPlain(s, p, q);
      var a, t := RoundSteps(s, p, q), Synced(s, p, q);
      VisitCatches(t, rest);
      var b :| Catches(t, b, Visit(t, rest), rest);
      GoesOn(s, a, t, b, Visit(t, rest));
      forall e | e in v ensures CaughtUp(s, a + b, e.0, e.1) {
        assert e == v[0] || e in rest;
        CaughtUpInConcat(s, a, b, e.0, e.1);
      }
      assert Catches(s, a + b, Visit(s, v), v);
    }
  }

  lemma IdleIsBehind(s: State)
    requires AllIdle(s)
    ensures MarksBehind(s)
  {
  }

  /** A sweep visits every link at least once, in any order, and nothing else. */
  ghost predicate IsSweep(v: Visits, links: Links) {
    forall e :: e in v <==> e in links
  }

  ghost predicate SweepsOk(sweeps: seq<Visits>, links: Links, size: nat) {
    LinksOk(links, size) && forall v | v in sweeps :: IsSweep(v, links)
  }

  lemma SweepVisitsOk(v: Visits, links: Links, size: nat)
    requires LinksOk(links, size) && IsSweep(v, links)
    ensures VisitsOk(v, size)
  {
  }

  lemma SweepsTail(sweeps: seq<Visits>, links: Links, size: nat)
    requires SweepsOk(sweeps, links, size) && sweeps != []
    ensures IsSweep(sweeps[0], links) && VisitsOk(sweeps[0], size) && SweepsOk(sweeps[1..], links, size)
  {
    hide IsSweep, LinksOk, VisitsOk;
    assert sweeps[0] in sweeps;
    SweepVisitsOk(sweeps[0], links, size);
    forall v | v in sweeps[1..] ensures IsSweep(v, links) {
      assert v in sweeps;
    }
  }

  ghost function Sweep(s: State, sweeps: seq<Visits>, links: Links): (t: State)
    requires Ready(s) && SweepsOk(sweeps, links, |s.nodes|)
    ensures Ready(t) && |t.nodes| == |s.nodes| && t.origin == s.origin
    decreases |sweeps|
  {
    if sweeps == [] then s
    else
      SweepsTail(sweeps, links, |s.nodes|);
      Sweep(Visit(s, sweeps[0]), sweeps[1..], links)
  }

  lemma CatchesIsStretch(s: State, steps: seq<Step>, v: Visits, links: Links, u: set<Metadata>)
    requires Ready(s) && LinksOk(links, |s.nodes|) && IsSweep(v, links) && VisitsOk(v, |s.nodes|)
    requires Catches(s, steps, Visit(s, v), v)
    ensures AllCaughtUp(s, steps, links) && BringsOnly(steps, u) && SettlingRun(s, steps)
  {
    hide Ready, Visit, CaughtUp, Run, After;
  }

  /** Sweeps are stretches of a run: of one that brings no values. */
  lemma {:induction false} SweepsAreStretches(s: State, sweeps: seq<Visits>, links: Links, u: set<Metadata>) returns (stretches: seq<seq<Step>>)
    requires Ready(s) && SweepsOk(sweeps, links, |s.nodes|)
    ensures |stretches| == |sweeps| && Stretches(s, stretches, links) && Finally(s, stretches, links) == Sweep(s, sweeps, links)
    ensures forall x | x in stretches :: BringsOnly(x, u)
    decreases |sweeps|
  {
    if sweeps == [] {
      stretches := [];
    } else {
      SweepsTail(sweeps, links, |s.nodes|);
      VisitCatches(s, sweeps[0]);
      hide Ready, Visit, Run, After, AllCaughtUp, SweepsOk, VisitsOk, IsSweep, BringsOnly, SettlingRun, CaughtUp, Plain;
      var t := Visit(s, sweeps[0]);
      var steps :| Catches(s, steps, t, sweeps[0]);
      assert LinksOk(links, |s.nodes|) by { SweepsHaveLinks(sweeps, links, |s.nodes|); }
      CatchesIsStretch(s, steps, sweeps[0], links, u);
      var rest := SweepsAreStretches(t, sweeps[1..], links, u);
      stretches := [steps] + rest;
      assert stretches[1..] == rest;
    }
  }

  lemma SweepIsRun(s: State, sweeps: seq<Visits>, links: Links)
    requires Ready(s) && SweepsOk(sweeps, links, |s.nodes|)
    ensures exists steps :: Goes(s, steps, Sweep(s, sweeps, links))
  {
    var stretches := SweepsAreStretches(s, sweeps, links, {});
    var steps := FinallyIsRun(s, stretches, links);
    assert Goes(s, steps, Sweep(s, sweeps, links)) by {
      hide Run, After, Stretches, Ready, Finally, Sweep;
    }
  }

  lemma SweepsHaveLinks(sweeps: seq<Visits>, links: Links, size: nat)
    requires SweepsOk(sweeps, links, size)
    ensures LinksOk(links, size)
  {
  }

  /** As many sweeps as there are nodes, less one, and all nodes agree. */
  lemma SweepsConverge(s: State, sweeps: seq<Visits>, links: Links, p: nat, q: nat)
    requires Ready(s) && SweepsOk(sweeps, links, |s.nodes|) && StronglyConnected(links, |s.nodes|)
    requires |s.nodes| <= |sweeps| + 1 && p < |s.nodes| && q < |s.nodes|
    ensures SameTimes(Sweep(s, sweeps, links).nodes[p].journal, Sweep(s, sweeps, links).nodes[q].journal)
    ensures UniqueNewest(Known(s)) ==>
              View(Sweep(s, sweeps, links).nodes[p].journal) == View(Sweep(s, sweeps, links).nodes[q].journal)
  {
    assert Inv(s);
    hide *;
    SweepsHaveLinks(sweeps, links, |s.nodes|);
    var stretches := SweepsAreStretches(s, sweeps, links, Known(s));
    GossipStretches.GossipConverges(s, stretches, links, p, q);
  }

  lemma QuiescentSame(s: State, t: State, links: Links)
    requires Quiescent(s, links) && Same(s, t)
    ensures Quiescent(t, links)
  {
  }

  lemma SyncedQuiescent(s: State, links: Links, p: nat, q: nat)
    requires Ready(s) && Quiescent(s, links) && LinksOk(links, |s.nodes|) && (p, q) in links
    ensures p < |s.nodes| && q < |s.nodes| && p != q && Same(s, Synced(s, p, q)) && Quiescent(Synced(s, p, q), links)
  {
    hide Inv, PutAll;
    var j := s.nodes[q].journal;
    PutNothing(s.nodes[p].journal, j[Mark(s.nodes[p], q)..]);
    QuiescentSame(s, Synced(s, p, q), links);
  }

  /** Visiting links that have nothing to fetch changes nothing. */
  lemma {:induction false} VisitQuiescent(s: State, v: Visits, links: Links)
    requires Ready(s) && VisitsOk(v, |s.nodes|) && LinksOk(links, |s.nodes|) && (forall e | e in v :: e in links)
    requires Quiescent(s, links)
    ensures Quiescent(Visit(s, v), links)
    decreases |v|
  {
    hide Ready, Synced, Quiescent, Same, RoundSteps;
    if v != [] {
      var p, q := v[0].0, v[0].1;
      assert v[0] in v && (p, q) in links && forall e | e in v[1..] :: e in v;
      SyncedReady(s, p, q);
      SyncedQuiescent(s, links, p, q);
      VisitQuiescent(Synced(s, p, q), v[1..], links);
    }
  }

  lemma {:induction false} SweepQuiescent(s: State, sweeps: seq<Visits>, links: Links)
    requires Ready(s) && SweepsOk(sweeps, links, |s.nodes|) && Quiescent(s, links)
    ensures Quiescent(Sweep(s, sweeps, links), links)
    decreases |sweeps|
  {
    hide Ready, Visit, Quiescent;
    if sweeps != [] {
      SweepsTail(sweeps, links, |s.nodes|);
      VisitQuiescent(s, sweeps[0], links);
      SweepQuiescent(Visit(s, sweeps[0]), sweeps[1..], links);
    }
  }

  /** A sweep lowers the potential or ends quiescent. */
  lemma SweepStep(s: State, v: Visits, links: Links)
    requires Ready(s) && DistinctTimes(s.origin) && LinksOk(links, |s.nodes|) && IsSweep(v, links) && VisitsOk(v, |s.nodes|)
    ensures Potential(Visit(s, v)) < Potential(s) || Quiescent(Visit(s, v), links)
  {
    VisitCatches(s, v);
    IdleIsBehind(s);
    assert Inv(s);
    hide *;
    var steps :| Catches(s, steps, Visit(s, v), v);
    CatchesIsStretch(s, steps, v, links, {});
    assert After(s, steps) == Visit(s, v) by { CatchesGoes(s, steps, Visit(s, v), v); }
    StretchSettles(s, steps, links);
  }

  lemma CatchesGoes(s: State, steps: seq<Step>, t: State, v: Visits)
    requires VisitsOk(v, |s.nodes|) && Catches(s, steps, t, v)
    ensures Run(s, steps) && After(s, steps) == t
  {
    hide Run, After, CaughtUp;
  }

  /** More sweeps than the potential, in whatever order each visits the links, and nothing is left to fetch. */
  lemma {:induction false} SweepsSettle(s: State, sweeps: seq<Visits>, links: Links)
    requires Ready(s) && DistinctTimes(s.origin) && SweepsOk(sweeps, links, |s.nodes|)
    requires |sweeps| > Potential(s)
    ensures Quiescent(Sweep(s, sweeps, links), links)
    decreases |sweeps|
  {
    ReadyPotential(s);
    hide Ready, Potential, DistinctTimes, Quiescent, Visit;
    SweepsTail(sweeps, links, |s.nodes|);
    var t := Visit(s, sweeps[0]);
    SweepStep(s, sweeps[0], links);
    if Quiescent(t, links) {
      SweepQuiescent(t, sweeps[1..], links);
    } else {
      SweepsSettle(t, sweeps[1..], links);
    }
  }

  lemma ReadyPotential(s: State)
    requires Ready(s)
    ensures Potential(s) >= 0
  {
    PotentialIsNatural(s);
  }

  lemma KnownIsOrigin(s: State)
    requires Inv(s) && DistinctTimes(s.origin)
    ensures UniqueNewest(Known(s))
  {
    assert JournalsOk(s);
    hide Inv, Grown;
    assert Known(s) <= s.origin;
    DistinctTimesAreUniqueNewest(Known(s));
  }

  /**
    Gossip converges: along a strongly connected pattern of links, more sweeps than the potential
    leave all nodes with the same index. The sweeps are a run of the protocol.
   */
  lemma GossipConverges(s: State, sweeps: seq<Visits>, links: Links, p: nat, q: nat)
    requires Ready(s) && DistinctTimes(s.origin) && SweepsOk(sweeps, links, |s.nodes|)
    requires StronglyConnected(links, |s.nodes|) && |sweeps| > Potential(s)
    requires p < |s.nodes| && q < |s.nodes|
    ensures exists steps :: Goes(s, steps, Sweep(s, sweeps, links))
    ensures View(Sweep(s, sweeps, links).nodes[p].journal) == View(Sweep(s, sweeps, links).nodes[q].journal)
  {
    SweepIsRun(s, sweeps, links);
    SweepsSettle(s, sweeps, links);
    var t := Sweep(s, sweeps, links);
    assert Inv(t);
    hide *;
    KnownIsOrigin(t);
    QuiescenceConverges(t, links, p, q);
  }

  // ---------- two versions with the same time ----------

  /** Two nodes, each with one local version of a slot. */
  function Duel(a: Metadata, b: Metadata): (s: State)
    ensures |s.nodes| == 2
  {
    var s := Next(Init(2), LocalPut(0, a, false));
    Next(s, LocalPut(1, b, false))
  }

  const BOTH_WAYS: Links := {(0, 1), (1, 0)}

  predicate Rivals(a: Metadata, b: Metadata) {
    a != b && a.Slot() == b.Slot() && a.updateTime == b.updateTime
  }

  lemma DuelReady(a: Metadata, b: Metadata)
    ensures Ready(Duel(a, b)) && Duel(a, b).origin == {a, b}
    ensures Duel(a, b).nodes[0].journal == [a] && Duel(a, b).nodes[1].journal == [b]
    ensures Mark(Duel(a, b).nodes[0], 1) == 0 == Mark(Duel(a, b).nodes[1], 0)
  {
    InitInv(2);
    StepInv(Init(2), LocalPut(0, a, false));
    StepInv(Next(Init(2), LocalPut(0, a, false)), LocalPut(1, b, false));
    hide Inv;
  }

  /** Node 0 syncs with node 1, then node 1 with node 0, and again. */
  ghost function Alternate(s: State, rounds: nat): (t: State)
    requires Ready(s) && |s.nodes| == 2
    ensures Ready(t) && |t.nodes| == 2
    decreases rounds
  {
    if rounds == 0 then s
    else
      SyncedReady(s, 0, 1);
      SyncedReady(Synced(s, 0, 1), 1, 0);
      Alternate(Synced(Synced(s, 0, 1), 1, 0), rounds - 1)
  }

  /** `j` ends with version `b` on file, and what its peer has not fetched is the overwriting pair `a`, `b`. */
  ghost predicate Overwriting(j: seq<Metadata>, mark: nat, a: Metadata, b: Metadata) {
    mark <= |j| && j[mark..] == [a, b]
  }

  predicate EndsWith(j: seq<Metadata>, b: Metadata) {
    j != [] && j[|j| - 1] == b
  }

  lemma PutRivals(j: seq<Metadata>, a: Metadata, b: Metadata)
    requires Rivals(a, b) && EndsWith(j, b)
    ensures PutAll(j, [a, b]) == j + [a, b]
  {
    RivalIsWritten(j, a, b);
    assert Rivals(b, a);
    RivalIsWritten(j + [a], b, a);
    hide *;
    PutOne(j, a);
    PutAllSnoc(j, [a], b);
    assert [a] + [b] == [a, b] && j + [a] + [b] == j + [a, b];
  }

  lemma RivalIsWritten(j: seq<Metadata>, a: Metadata, b: Metadata)
    requires Rivals(a, b) && EndsWith(j, b)
    ensures Put(j, a) == j + [a] && EndsWith(j + [a], a)
  {
    assert LastNumber(j, a.Slot()) == |j|;
  }

  /** Both journals end with `b`; node 0 has `a`, `b` to fetch; node 1 has everything node 0 has. */
  ghost predicate Duelling(j: seq<Metadata>, k: seq<Metadata>, mark0: nat, mark1: nat, a: Metadata, b: Metadata) {
    EndsWith(j, b) && EndsWith(k, b) && Overwriting(k, mark0, a, b) && mark1 == |j|
  }

  ghost predicate DuelShape(s: State, a: Metadata, b: Metadata) {
    && Ready(s) && |s.nodes| == 2
    && Duelling(s.nodes[0].journal, s.nodes[1].journal, Mark(s.nodes[0], 1), Mark(s.nodes[1], 0), a, b)
  }

  lemma RivalRound(j: seq<Metadata>, k: seq<Metadata>, mark0: nat, mark1: nat, a: Metadata, b: Metadata)
    requires Rivals(a, b) && Duelling(j, k, mark0, mark1, a, b)
    ensures PutAll(j, k[mark0..]) == j + [a, b] && PutAll(k, (j + [a, b])[mark1..]) == k + [a, b]
    ensures Duelling(j + [a, b], k + [a, b], |k|, |j + [a, b]|, a, b)
  {
    PutRivals(j, a, b);
    PutRivals(k, a, b);
    hide PutAll;
    assert (j + [a, b])[|j|..] == [a, b] && (k + [a, b])[|k|..] == [a, b];
  }

  lemma SyncedEffect(s: State, p: nat, q: nat)
    requires Ready(s) && p < |s.nodes| && q < |s.nodes| && p != q
    ensures Mark(s.nodes[p], q) <= |s.nodes[q].journal| && Ready(Synced(s, p, q))
    ensures var t := Synced(s, p, q);
            && t.nodes[p].journal == PutAll(s.nodes[p].journal, s.nodes[q].journal[Mark(s.nodes[p], q)..])
            && Mark(t.nodes[p], q) == |s.nodes[q].journal|
            && t.nodes[p].pc == Idle && s.hellos <= t.hellos
            && forall i | 0 <= i < |s.nodes| && i != p :: t.nodes[i] == s.nodes[i]
  {
    SyncedReady(s, p, q);
    hide Ready, RoundSteps, PutAll;
  }

  /** One round, with both syncs spelled out. */
  lemma AlternateOnce(s: State)
    requires Ready(s) && |s.nodes| == 2
    ensures Mark(s.nodes[0], 1) <= |s.nodes[1].journal| && Mark(s.nodes[1], 0) <= |s.nodes[0].journal|
    ensures var j, k := s.nodes[0].journal, s.nodes[1].journal;
            var j' := PutAll(j, k[Mark(s.nodes[0], 1)..]);
            var u := Alternate(s, 1);
            && |j| <= |j'| && u.nodes[0].journal == j' && Mark(u.nodes[0], 1) == |k|
            && u.nodes[1].journal == PutAll(k, j'[Mark(s.nodes[1], 0)..]) && Mark(u.nodes[1], 0) == |j'|
  {
    ReadyMark(s, 1, 0);
    SyncedEffect(s, 0, 1);
    var t := Synced(s, 0, 1);
    SyncedEffect(t, 1, 0);
    PutAllDominates(s.nodes[0].journal, s.nodes[1].journal[Mark(s.nodes[0], 1)..]);
    hide Ready, RoundSteps, PutAll, Synced;
    SyncedReady(s, 0, 1);
    SyncedReady(t, 1, 0);
    assert Alternate(s, 1) == Alternate(Synced(t, 1, 0), 0);
  }

  lemma DuelStep(s: State, a: Metadata, b: Metadata)
    requires Rivals(a, b) && DuelShape(s, a, b)
    ensures DuelShape(Alternate(s, 1), a, b)
    ensures |Alternate(s, 1).nodes[0].journal| == |s.nodes[0].journal| + 2
    ensures |Alternate(s, 1).nodes[1].journal| == |s.nodes[1].journal| + 2
  {
    AlternateOnce(s);
    hide Ready, PutAll, Alternate, Rivals, Duelling;
    RivalRound(s.nodes[0].journal, s.nodes[1].journal, Mark(s.nodes[0], 1), Mark(s.nodes[1], 0), a, b);
  }

  lemma DuelOpens(a: Metadata, b: Metadata)
    requires Rivals(a, b)
    ensures Ready(Duel(a, b)) && DuelShape(Alternate(Duel(a, b), 1), a, b)
    ensures |Alternate(Duel(a, b), 1).nodes[0].journal| == 2
    ensures |Alternate(Duel(a, b), 1).nodes[1].journal| == 3
  {
    DuelReady(a, b);
    AlternateOnce(Duel(a, b));
    hide Ready, PutAll, Duel, Alternate, Rivals;
    OpeningMerge(a, b);
    assert [b][0..] == [b] && [a, b][0..] == [a, b];
  }

  lemma OpeningMerge(a: Metadata, b: Metadata)
    requires Rivals(a, b)
    ensures PutAll([a], [b]) == [a, b] && PutAll([b], [a, b]) == [b, a, b]
    ensures Duelling([a, b], [b, a, b], 1, 2, a, b)
  {
    PutOne([a], b);
    LatestAfterAppend([], a, b.Slot());
    assert [] + [a] == [a] && [a] + [b] == [a, b];
    PutRivals([b], a, b);
    assert [b] + [a, b] == [b, a, b] && [b, a, b][1..] == [a, b];
  }

  lemma PutOne(j: seq<Metadata>, m: Metadata)
    ensures PutAll(j, [m]) == Put(j, m)
  {
    assert PutAll(j, [m]) == PutAll(Put(j, m), []);
  }

  lemma {:induction false} AlternateMore(s: State, n: nat)
    requires Ready(s) && |s.nodes| == 2
    ensures Alternate(s, n + 1) == Alternate(Alternate(s, n), 1)
    decreases n
  {
    hide Ready, RoundSteps, Synced;
    SyncedReady(s, 0, 1);
    SyncedReady(Synced(s, 0, 1), 1, 0);
    if n > 0 {
      AlternateMore(Synced(Synced(s, 0, 1), 1, 0), n - 1);
    }
  }

  lemma DuelIsNotQuiescent(s: State, a: Metadata, b: Metadata)
    requires DuelShape(s, a, b)
    ensures !Quiescent(s, BOTH_WAYS)
  {
    hide Ready;
    assert (0, 1) in BOTH_WAYS && Mark(s.nodes[0], 1) < |s.nodes[1].journal|;
  }

  /** Rival versions are exchanged for ever: every round adds two entries to both journals. */
  lemma {:induction false} RivalsNeverSettle(a: Metadata, b: Metadata, n: nat)
    requires Rivals(a, b)
    ensures Ready(Duel(a, b)) && DuelShape(Alternate(Duel(a, b), n + 1), a, b)
    ensures |Alternate(Duel(a, b), n + 1).nodes[0].journal| == 2 * n + 2
    ensures |Alternate(Duel(a, b), n + 1).nodes[1].journal| == 2 * n + 3
    ensures !Quiescent(Alternate(Duel(a, b), n + 1), BOTH_WAYS)
    decreases n
  {
    DuelReady(a, b);
    hide Ready, Duel, Rivals, Duelling, Alternate, DuelShape, Quiescent;
    if n == 0 {
      DuelOpens(a, b);
    } else {
      RivalsNeverSettle(a, b, n - 1);
      AlternateMore(Duel(a, b), n);
      DuelStep(Alternate(Duel(a, b), n), a, b);
    }
    DuelIsNotQuiescent(Alternate(Duel(a, b), n + 1), a, b);
  }

  const THERE_AND_BACK: Visits := [(0, 1), (1, 0)]

  ghost function Repeated(n: nat): (v: seq<Visits>)
    ensures |v| == n && forall x | x in v :: x == THERE_AND_BACK
  {
    if n == 0 then [] else [THERE_AND_BACK] + Repeated(n - 1)
  }

  lemma RepeatedSweeps(n: nat)
    ensures SweepsOk(Repeated(n), BOTH_WAYS, 2)
  {
    assert IsSweep(THERE_AND_BACK, BOTH_WAYS);
  }

  lemma VisitNowhere(s: State)
    requires Ready(s)
    ensures Visit(s, []) == s
  {
    hide Ready;
  }

  lemma VisitUnfolds(s: State, p: nat, q: nat, rest: Visits)
    requires Ready(s) && VisitsOk([(p, q)] + rest, |s.nodes|)
    ensures p < |s.nodes| && q < |s.nodes| && p != q && VisitsOk(rest, |s.nodes|)
    ensures Mark(s.nodes[p], q) <= |s.nodes[q].journal| && Ready(Synced(s, p, q))
    ensures Visit(s, [(p, q)] + rest) == Visit(Synced(s, p, q), rest)
  {
    var v := [(p, q)] + rest;
    assert v[0] in v && v[1..] == rest && forall e | e in rest :: e in v;
    SyncedReady(s, p, q);
    hide Ready, RoundSteps, Synced;
  }

  lemma RoundIsVisit(s: State)
    requires Ready(s) && |s.nodes| == 2
    ensures VisitsOk(THERE_AND_BACK, 2) && Visit(s, THERE_AND_BACK) == Alternate(s, 1)
  {
    hide Ready, RoundSteps, Synced, Visit;
    assert THERE_AND_BACK == [(0, 1)] + ([(1, 0)] + []);
    VisitUnfolds(s, 0, 1, [(1, 0)] + []);
    var t := Synced(s, 0, 1);
    VisitUnfolds(t, 1, 0, []);
    var u := Synced(t, 1, 0);
    VisitNowhere(u);
    assert Alternate(s, 1) == Alternate(u, 0);
  }

  lemma {:induction false} AlternateIsSweep(s: State, n: nat)
    requires Ready(s) && |s.nodes| == 2
    ensures SweepsOk(Repeated(n), BOTH_WAYS, 2) && Sweep(s, Repeated(n), BOTH_WAYS) == Alternate(s, n)
    decreases n
  {
    RepeatedSweeps(n);
    hide Ready, RoundSteps, Visit, SweepsOk;
    if n > 0 {
      RoundIsVisit(s);
      var t := Alternate(s, 1);
      SyncedReady(s, 0, 1);
      SyncedReady(Synced(s, 0, 1), 1, 0);
      AlternateIsSweep(t, n - 1);
      assert Repeated(n)[0] == THERE_AND_BACK && Repeated(n)[1..] == Repeated(n - 1);
      assert Alternate(s, n) == Alternate(t, n - 1) by { AlternateFirst(s, n - 1); }
    }
  }

  lemma AlternateFirst(s: State, n: nat)
    requires Ready(s) && |s.nodes| == 2
    ensures Alternate(s, n + 1) == Alternate(Alternate(s, 1), n)
  {
    SyncedReady(s, 0, 1);
    SyncedReady(Synced(s, 0, 1), 1, 0);
    hide Ready, RoundSteps, Synced;
    assert Alternate(s, 1) == Alternate(Synced(Synced(s, 0, 1), 1, 0), 0);
  }

  /**
    The hypothesis of distinct times is sharp: two nodes with one version each settle under
    alternating syncs exactly when the versions are not rivals.
   */
  lemma SettlesUnlessRivals(a: Metadata, b: Metadata)
    ensures Ready(Duel(a, b))
    ensures (exists n :: Quiescent(Alternate(Duel(a, b), n), BOTH_WAYS)) <==> !Rivals(a, b)
  {
    DuelReady(a, b);
    hide *;
    if Rivals(a, b) {
      forall n: nat ensures !Quiescent(Alternate(Duel(a, b), n), BOTH_WAYS) {
        if n == 0 {
          DuelStarts(a, b);
        } else {
          RivalsNeverSettle(a, b, n - 1);
        }
      }
    } else {
      DuelSettles(a, b);
    }
  }

  lemma DuelSettles(a: Metadata, b: Metadata)
    requires !Rivals(a, b)
    ensures Ready(Duel(a, b)) && exists n :: Quiescent(Alternate(Duel(a, b), n), BOTH_WAYS)
  {
    DuelReady(a, b);
    var s := Duel(a, b);
    assert DistinctTimes(s.origin);
    hide *;
    ReadyPotential(s);
    var n := Potential(s) + 1;
    AlternateIsSweep(s, n);
    SweepsSettle(s, Repeated(n), BOTH_WAYS);
    assert Quiescent(Alternate(s, n), BOTH_WAYS);
  }

  lemma DuelStarts(a: Metadata, b: Metadata)
    ensures Ready(Duel(a, b)) && !Quiescent(Alternate(Duel(a, b), 0), BOTH_WAYS)
  {
    DuelReady(a, b);
    hide Ready, Duel;
    assert (0, 1) in BOTH_WAYS;
  }

  /** Node 1 announces itself while empty and then puts `m`. */
  function Primed(m: Metadata): (s: State)
    ensures |s.nodes| == 2
  {
    Next(Next(Init(2), Announce(1)), LocalPut(1, m, false))
  }

  lemma PrimedFacts(m: Metadata)
    ensures Ready(Primed(m)) && Goes(Init(2), [Announce(1)] + [LocalPut(1, m, false)], Primed(m))
    ensures Hello(1, 0) in Primed(m).hellos && |Primed(m).nodes[1].journal| == 1
  {
    var s1 := Next(Init(2), Announce(1));
    InitInv(2);
    StepInv(Init(2), Announce(1));
    StepInv(s1, LocalPut(1, m, false));
    GoesOne(Init(2), Announce(1));
    GoesOne(s1, LocalPut(1, m, false));
    hide Inv, Goes;
    GoesOn(Init(2), [Announce(1)], s1, [LocalPut(1, m, false)], Primed(m));
  }

  lemma StaleHelloForgets(t: State)
    requires |t.nodes| == 2 && t.nodes[0].pc == Idle && Hello(1, 0) in t.hellos && Mark(t.nodes[0], 1) > 0
    ensures ForgetsMark(t, Start(0, Hello(1, 0), true, false))
  {
    StartLowersMark(t, Start(0, Hello(1, 0), true, false));
  }

  /**
    A failing read of the node index can forget a watermark: after a completed sync, the peer's
    first announcement, which said 0, arrives once more while the read fails.
   */
  lemma ReadFaultForgets(m: Metadata)
    ensures exists steps, t :: Goes(Init(2), steps, t) && ForgetsMark(t, Start(0, Hello(1, 0), true, false))
  {
    hide Goes, RoundSteps, PutAll, Primed, ForgetsMark, Ready, Synced, Run, After;
    var s := Primed(m);
    PrimedFacts(m);
    SyncedReady(s, 0, 1);
    SyncedEffect(s, 0, 1);
    var t := Synced(s, 0, 1);
    StaleHelloForgets(t);
    var first := [Announce(1)] + [LocalPut(1, m, false)];
    GoesOn(Init(2), first, s, RoundSteps(s, 0, 1), t);
    assert Goes(Init(2), first + RoundSteps(s, 0, 1), t);
  }

  predicate ForgetsMark(s: State, step: Step) {
    && Enabled(s, step) && step.Start?
    && Mark(Next(s, step).nodes[step.p], step.hello.from) < Mark(s.nodes[step.p], step.hello.from)
  }
}
