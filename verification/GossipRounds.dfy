/** A complete, undisturbed sync as a run of the protocol: its steps, its effect and its cost. */
module GossipRounds {
  import opened Blocks
  import opened Journals
  import opened Gossip
  import opened GossipRuns

  // ---------- one sync as a run ----------

  function Applies(p: nat, count: nat): seq<Step> {
    if count == 0 then [] else [Apply(p, false)] + Applies(p, count - 1)
  }

  lemma {:induction false} AppliesOnly(p: nat, count: nat)
    ensures forall x | x in Applies(p, count) :: x.Apply?
  {
    if count > 0 {
      AppliesOnly(p, count - 1);
    }
  }

  /** The steps of the sync loop when `left` entries are missing. */
  function Pull(p: nat, left: nat): seq<Step> {
    [Ask(p, false)] +
    (if left == 0 then []
     else Applies(p, Min(left, BATCH)) + [Record(p, false)] + (if left < BATCH then [] else Pull(p, left - BATCH)))
  }

  /** Node q announces itself, node p syncs with it, nothing fails and nothing interferes. */
  function RoundSteps(s: State, p: nat, q: nat): seq<Step>
    requires p < |s.nodes| && q < |s.nodes|
  {
    var number := |s.nodes[q].journal|;
    [Announce(q), Start(p, Hello(q, number), false, false)] +
    (if Mark(s.nodes[p], q) < number then Pull(p, number - Mark(s.nodes[p], q)) else [])
  }

  function WithNode(s: State, p: nat, n: Node): (t: State)
    requires p < |s.nodes|
    ensures |t.nodes| == |s.nodes| && t.nodes[p] == n
    ensures forall i | 0 <= i < |s.nodes| && i != p :: t.nodes[i] == s.nodes[i]
  {
    s.(nodes := s.nodes[p := n])
  }

  lemma WithNodeTwice(s: State, p: nat, a: Node, b: Node)
    requires p < |s.nodes|
    ensures WithNode(WithNode(s, p, a), p, b) == WithNode(s, p, b)
    ensures WithNode(s, p, s.nodes[p]) == s
  {
    assert s.nodes[p := s.nodes[p]] == s.nodes;
  }

  function SyncedNode(n: Node, q: nat, peer: seq<Metadata>): Node
    requires Mark(n, q) <= |peer|
  {
    n.(journal := PutAll(n.journal, peer[Mark(n, q)..]), marks := n.marks[q := |peer|], pc := Idle)
  }

  /** The state after one undisturbed sync of p with q. */
  function Synced(s: State, p: nat, q: nat): (t: State)
    requires p < |s.nodes| && q < |s.nodes| && Mark(s.nodes[p], q) <= |s.nodes[q].journal|
    ensures |t.nodes| == |s.nodes|
  {
    WithNode(s.(hellos := s.hellos + {Hello(q, |s.nodes[q].journal|)}), p, SyncedNode(s.nodes[p], q, s.nodes[q].journal))
  }

  /** `steps` is a run from `s` to `t`. */
  predicate Goes(s: State, steps: seq<Step>, t: State) {
    Run(s, steps) && After(s, steps) == t
  }

  lemma GoesOne(s: State, step: Step)
    requires Enabled(s, step)
    ensures Goes(s, [step], Next(s, step))
  {
    OneStep(s, step);
  }

  lemma GoesOn(s: State, a: seq<Step>, t: State, b: seq<Step>, u: State)
    requires Goes(s, a, t) && Goes(t, b, u)
    ensures Goes(s, a + b, u)
  {
    RunConcat(s, a, b);
  }

  /** Node p's sync body runs against a peer other than itself. */
  predicate Syncing(s: State, p: nat) {
    p < |s.nodes| && s.nodes[p].pc != Idle && s.nodes[p].pc.peer < |s.nodes| && s.nodes[p].pc.peer != p
  }

  function PeerJournal(s: State, p: nat): seq<Metadata>
    requires Syncing(s, p)
  {
    s.nodes[s.nodes[p].pc.peer].journal
  }

  lemma SyncingStays(s: State, p: nat, m: Node)
    requires Syncing(s, p) && m.pc != Idle && m.pc.peer == s.nodes[p].pc.peer
    ensures Syncing(WithNode(s, p, m), p) && PeerJournal(WithNode(s, p, m), p) == PeerJournal(s, p)
  {
  }

  lemma AskGoes(s: State, p: nat)
    requires Syncing(s, p) && s.nodes[p].pc.Asking?
    ensures Goes(s, [Ask(p, false)], WithNode(s, p, AskPeer(s.nodes[p], PeerJournal(s, p), false)))
  {
    hide AskPeer, Goes;
    GoesOne(s, Ask(p, false));
  }

  lemma ApplyGoes(s: State, p: nat)
    requires Syncing(s, p) && s.nodes[p].pc.Applying? && s.nodes[p].pc.applied < |s.nodes[p].pc.batch|
    ensures Goes(s, [Apply(p, false)], WithNode(s, p, ApplyEntry(s.nodes[p], false)))
  {
    hide ApplyEntry, Goes;
    GoesOne(s, Apply(p, false));
  }

  lemma RecordGoes(s: State, p: nat)
    requires Syncing(s, p) && s.nodes[p].pc.Applying? && s.nodes[p].pc.applied == |s.nodes[p].pc.batch|
    ensures Goes(s, [Record(p, false)], WithNode(s, p, RecordBatch(s.nodes[p], false)))
  {
    hide RecordBatch, Goes;
    GoesOne(s, Record(p, false));
  }

  /** Node `n` with `count` more entries of its batch, a part of journal `q`, applied. */
  function Applied(n: Node, q: seq<Metadata>, count: nat): Node
    requires n.pc.Applying? && n.pc.seen + count <= |q|
  {
    n.(journal := PutAll(n.journal, q[n.pc.seen..n.pc.seen + count]),
       pc := Applying(n.pc.peer, n.pc.batch, n.pc.applied + count, n.pc.seen + count))
  }

  lemma AppliedStep(n: Node, q: seq<Metadata>, count: nat)
    requires n.pc.Applying? && 0 < count && n.pc.applied + count == |n.pc.batch| && n.pc.applied <= n.pc.seen
    requires IsSlice(n.pc.batch, q, n.pc.seen - n.pc.applied)
    ensures var m := ApplyEntry(n, false);
            && m.pc == Applying(n.pc.peer, n.pc.batch, n.pc.applied + 1, n.pc.seen + 1)
            && Applied(m, q, count - 1) == Applied(n, q, count)
  {
    hide Put;
    assert n.pc.batch[n.pc.applied] == Numbered(q, n.pc.seen + 1);
    var missing := q[n.pc.seen..n.pc.seen + count];
    assert missing[0] == q[n.pc.seen] && missing[1..] == q[n.pc.seen + 1..n.pc.seen + count];
  }

  lemma AppliesUnfolds(p: nat, count: nat)
    requires count > 0
    ensures Applies(p, count) == [Apply(p, false)] + Applies(p, count - 1)
  {
  }

  lemma {:induction false} ApplyRun(s: State, p: nat, count: nat)
    requires CanApply(s, p, count)
    ensures Goes(s, Applies(p, count), WithNode(s, p, Applied(s.nodes[p], PeerJournal(s, p), count)))
    decreases count
  {
    hide *;
    CanApplyFacts(s, p, count);
    var n, q := s.nodes[p], PeerJournal(s, p);
    if count == 0 {
      NothingApplied(s, p);
    } else {
      var t := WithNode(s, p, ApplyEntry(n, false));
      OneApplied(s, p, count);
      ApplyGoes(s, p);
      ApplyRun(t, p, count - 1);
      WithNodeTwice(s, p, ApplyEntry(n, false), Applied(n, q, count));
      GoesOn(s, [Apply(p, false)], t, Applies(p, count - 1), WithNode(s, p, Applied(n, q, count)));
      AppliesUnfolds(p, count);
    }
  }

  /** Node p has `count` entries of its batch left to apply. */
  ghost predicate CanApply(s: State, p: nat, count: nat) {
    && Syncing(s, p) && s.nodes[p].pc.Applying?
    && var pc := s.nodes[p].pc;
       && pc.applied + count == |pc.batch| && pc.applied <= pc.seen
       && IsSlice(pc.batch, PeerJournal(s, p), pc.seen - pc.applied)
  }

  lemma CanApplyFacts(s: State, p: nat, count: nat)
    requires CanApply(s, p, count)
    ensures Syncing(s, p) && p < |s.nodes| && s.nodes[p].pc.Applying?
    ensures s.nodes[p].pc.applied + count == |s.nodes[p].pc.batch|
    ensures s.nodes[p].pc.seen + count <= |PeerJournal(s, p)|
  {
  }

  lemma NothingApplied(s: State, p: nat)
    requires CanApply(s, p, 0)
    ensures Goes(s, Applies(p, 0), WithNode(s, p, Applied(s.nodes[p], PeerJournal(s, p), 0)))
  {
    CanApplyFacts(s, p, 0);
    hide PutAll, IsSlice, CanApply;
    var n, q := s.nodes[p], PeerJournal(s, p);
    PutNothing(n.journal, q[n.pc.seen..n.pc.seen + 0]);
    WithNodeTwice(s, p, n, n);
  }

  lemma OneApplied(s: State, p: nat, count: nat)
    requires CanApply(s, p, count) && count > 0
    ensures var n, q, t := s.nodes[p], PeerJournal(s, p), WithNode(s, p, ApplyEntry(s.nodes[p], false));
            && CanApply(t, p, count - 1) && PeerJournal(t, p) == q && t.nodes[p] == ApplyEntry(n, false)
            && Applied(t.nodes[p], q, count - 1) == Applied(n, q, count)
  {
    AppliedStep(s.nodes[p], PeerJournal(s, p), count);
    SyncingStays(s, p, ApplyEntry(s.nodes[p], false));
    hide ApplyEntry, Applied, WithNode, IsSlice, PeerJournal;
  }

  /** Node `n` after one whole batch of `size` entries. */
  function Batched(n: Node, q: seq<Metadata>, size: nat): Node
    requires n.pc.Asking? && n.pc.seen + size <= |q|
  {
    n.(journal := PutAll(n.journal, q[n.pc.seen..n.pc.seen + size]),
       marks := n.marks[n.pc.peer := n.pc.seen + size],
       pc := if size < BATCH then Idle else Asking(n.pc.peer, n.pc.seen + size))
  }

  lemma AskedBatch(n: Node, q: seq<Metadata>, size: nat)
    requires n.pc.Asking? && n.pc.seen <= |q| && size == Min(BATCH, |q| - n.pc.seen) > 0
    ensures var a := AskPeer(n, q, false);
            a.pc.Applying? && |a.pc.batch| == size && a == n.(pc := Applying(n.pc.peer, a.pc.batch, 0, n.pc.seen))
            && IsSlice(a.pc.batch, q, a.pc.seen)
  {
    BatchAfter(q, n.pc.seen, BATCH);
    hide EntriesBetween;
    var batch := EntriesBetween(q, n.pc.seen + 1, n.pc.seen + 1 + BATCH);
    assert AskPeer(n, q, false) == n.(pc := Applying(n.pc.peer, batch, 0, n.pc.seen));
  }

  lemma RecordedBatch(n: Node, batch: seq<ExtendedMetadata>, q: seq<Metadata>, size: nat)
    requires n.pc.Asking? && n.pc.seen + size <= |q| && |batch| == size
    ensures var b := Applied(n.(pc := Applying(n.pc.peer, batch, 0, n.pc.seen)), q, size);
            && b.pc == Applying(n.pc.peer, batch, size, n.pc.seen + size)
            && RecordBatch(b, false) == Batched(n, q, size)
  {
    hide PutAll;
  }

  /** Ask, apply the whole batch and record it. */
  lemma BatchRun(s: State, p: nat, size: nat)
    requires Syncing(s, p) && s.nodes[p].pc.Asking? && s.nodes[p].pc.seen <= |PeerJournal(s, p)|
    requires size == Min(BATCH, |PeerJournal(s, p)| - s.nodes[p].pc.seen) > 0
    ensures Goes(s, BatchSteps(p, size), WithNode(s, p, Batched(s.nodes[p], PeerJournal(s, p), size)))
  {
    var n, q := s.nodes[p], PeerJournal(s, p);
    AskedBatch(n, q, size);
    RecordedBatch(n, AskPeer(n, q, false).pc.batch, q, size);
    SyncingStays(s, p, AskPeer(n, q, false));
    SyncingStays(s, p, Applied(AskPeer(n, q, false), q, size));
    hide PeerJournal, AskPeer, Applied, RecordBatch, Batched, Goes, WithNode, IsSlice, Applies;
    var a := AskPeer(n, q, false);
    var b := Applied(a, q, size);
    var t, u, v := WithNode(s, p, a), WithNode(s, p, b), WithNode(s, p, Batched(n, q, size));
    AskGoes(s, p);
    ApplyRun(t, p, size);
    WithNodeTwice(s, p, a, b);
    RecordGoes(u, p);
    WithNodeTwice(s, p, b, Batched(n, q, size));
    GoesOn(s, [Ask(p, false)], t, Applies(p, size), u);
    GoesOn(s, [Ask(p, false)] + Applies(p, size), u, [Record(p, false)], v);
  }

  /** Node `n` after pulling everything journal `q` has. */
  function Pulled(n: Node, q: seq<Metadata>): Node
    requires n.pc.Asking? && n.pc.seen <= |q|
  {
    n.(journal := PutAll(n.journal, q[n.pc.seen..]),
       marks := if n.pc.seen == |q| then n.marks else n.marks[n.pc.peer := |q|],
       pc := Idle)
  }

  lemma PulledStep(n: Node, q: seq<Metadata>, size: nat)
    requires n.pc.Asking? && n.pc.seen <= |q| && size == Min(BATCH, |q| - n.pc.seen) > 0
    ensures size < BATCH ==> Batched(n, q, size) == Pulled(n, q)
    ensures size == BATCH ==> Pulled(Batched(n, q, size), q) == Pulled(n, q)
  {
    hide PutAll;
    PutAllConcat(n.journal, q[n.pc.seen..n.pc.seen + size], q[n.pc.seen + size..]);
    assert q[n.pc.seen..n.pc.seen + size] + q[n.pc.seen + size..] == q[n.pc.seen..];
    assert n.pc.seen + size == |q| ==> q[n.pc.seen..n.pc.seen + size] == q[n.pc.seen..];
    assert n.marks[n.pc.peer := n.pc.seen + size][n.pc.peer := |q|] == n.marks[n.pc.peer := |q|];
  }

  lemma EmptyPull(s: State, p: nat)
    requires Syncing(s, p) && s.nodes[p].pc.Asking? && s.nodes[p].pc.seen == |PeerJournal(s, p)|
    ensures Goes(s, [Ask(p, false)], WithNode(s, p, Pulled(s.nodes[p], PeerJournal(s, p))))
  {
    hide Goes, WithNode;
    var n, q := s.nodes[p], PeerJournal(s, p);
    BatchAfter(q, n.pc.seen, BATCH);
    PutNothing(n.journal, q[n.pc.seen..]);
    AskGoes(s, p);
  }

  /** The steps for one batch of `size` entries. */
  function BatchSteps(p: nat, size: nat): seq<Step> {
    [Ask(p, false)] + Applies(p, size) + [Record(p, false)]
  }

  lemma PullUnfolds(p: nat, left: nat)
    ensures left == 0 ==> Pull(p, left) == [Ask(p, false)]
    ensures 0 < left < BATCH ==> Pull(p, left) == BatchSteps(p, left)
    ensures left >= BATCH ==> Pull(p, left) == BatchSteps(p, BATCH) + Pull(p, left - BATCH)
  {
    hide Applies;
  }

  lemma BatchedPc(n: Node, q: seq<Metadata>, size: nat)
    requires n.pc.Asking? && n.pc.seen + size <= |q|
    ensures Batched(n, q, size).pc == if size < BATCH then Idle else Asking(n.pc.peer, n.pc.seen + size)
  {
    hide PutAll;
  }

  lemma {:induction false} PullRun(s: State, p: nat, left: nat)
    requires Syncing(s, p) && s.nodes[p].pc.Asking? && s.nodes[p].pc.seen + left == |PeerJournal(s, p)|
    ensures Goes(s, Pull(p, left), WithNode(s, p, Pulled(s.nodes[p], PeerJournal(s, p))))
    decreases left
  {
    hide Goes, WithNode, Pulled, PutAll, BatchSteps, Pull, Batched, PeerJournal, Next, Enabled, Run, After, Applies, EntriesBetween;
    var n, q := s.nodes[p], PeerJournal(s, p);
    PullUnfolds(p, left);
    if left == 0 {
      EmptyPull(s, p);
    } else {
      var size := Min(left, BATCH);
      var batched := Batched(n, q, size);
      var t := WithNode(s, p, batched);
      PulledStep(n, q, size);
      BatchedPc(n, q, size);
      if left >= BATCH {
        SyncingStays(s, p, batched);
      }
      BatchRun(s, p, size);
      if left >= BATCH {
        PullRun(t, p, left - BATCH);
        WithNodeTwice(s, p, batched, Pulled(n, q));
        GoesOn(s, BatchSteps(p, BATCH), t, Pull(p, left - BATCH), WithNode(s, p, Pulled(n, q)));
      }
    }
  }

  lemma StartGoes(s: State, p: nat, hello: Hello)
    requires Enabled(s, Start(p, hello, false, false))
    ensures Goes(s, [Start(p, hello, false, false)], WithNode(s, p, StartSync(s.nodes[p], hello, false, false)))
  {
    hide StartSync, Goes;
    GoesOne(s, Start(p, hello, false, false));
  }

  lemma AnnounceGoes(s: State, q: nat)
    requires q < |s.nodes|
    ensures Goes(s, [Announce(q)], s.(hellos := s.hellos + {Hello(q, |s.nodes[q].journal|)}))
  {
    hide Goes;
    GoesOne(s, Announce(q));
    assert s.nodes[q := s.nodes[q]] == s.nodes;
  }

  lemma OpeningGoes(s: State, p: nat, q: nat)
    requires p < |s.nodes| && q < |s.nodes| && p != q && s.nodes[p].pc == Idle
    ensures var hello := Hello(q, |s.nodes[q].journal|);
            Goes(s, [Announce(q), Start(p, hello, false, false)],
                 WithNode(s.(hellos := s.hellos + {hello}), p, StartSync(s.nodes[p], hello, false, false)))
  {
    var hello := Hello(q, |s.nodes[q].journal|);
    var start := Start(p, hello, false, false);
    var t := s.(hellos := s.hellos + {hello});
    AnnounceGoes(s, q);
    StartGoes(t, p, hello);
    hide Goes, StartSync;
    GoesOn(s, [Announce(q)], t, [start], WithNode(t, p, StartSync(s.nodes[p], hello, false, false)));
    assert [Announce(q)] + [start] == [Announce(q), start];
  }

  lemma FetchingRound(s: State, p: nat, q: nat)
    requires p < |s.nodes| && q < |s.nodes| && p != q && s.nodes[p].pc == Idle
    requires Mark(s.nodes[p], q) < |s.nodes[q].journal|
    ensures var n, j := s.nodes[p], s.nodes[q].journal;
            Goes(s, [Announce(q), Start(p, Hello(q, |j|), false, false)] + Pull(p, |j| - Mark(n, q)), Synced(s, p, q))
  {
    hide Goes, Pull, PutAll;
    OpeningGoes(s, p, q);
    var n, j := s.nodes[p], s.nodes[q].journal;
    var hello := Hello(q, |j|);
    var t := s.(hellos := s.hellos + {hello});
    var m := StartSync(n, hello, false, false);
    StartedNode(n, q, j);
    var u := WithNode(t, p, m);
    assert Syncing(u, p) && PeerJournal(u, p) == j;
    assert Synced(s, p, q) == WithNode(t, p, SyncedNode(n, q, j));
    hide *;
    WithNodeTwice(t, p, m, Pulled(m, j));
    PullRun(u, p, |j| - Mark(n, q));
    GoesOn(s, [Announce(q), Start(p, hello, false, false)], u, Pull(p, |j| - Mark(n, q)), WithNode(t, p, SyncedNode(n, q, j)));
  }

  lemma StartedNode(n: Node, q: nat, j: seq<Metadata>)
    requires n.pc == Idle && Mark(n, q) < |j|
    ensures var m := StartSync(n, Hello(q, |j|), false, false);
            m == n.(pc := Asking(q, Mark(n, q))) && Pulled(m, j) == SyncedNode(n, q, j)
  {
    hide PutAll;
  }

  /** An undisturbed sync is a run, and `Synced` is what it does. */
  lemma RoundIsRun(s: State, p: nat, q: nat)
    requires p < |s.nodes| && q < |s.nodes| && p != q && s.nodes[p].pc == Idle
    requires Mark(s.nodes[p], q) <= |s.nodes[q].journal|
    ensures Goes(s, RoundSteps(s, p, q), Synced(s, p, q))
  {
    hide Goes, Pull, PutAll;
    var n, j := s.nodes[p], s.nodes[q].journal;
    if Mark(n, q) < |j| {
      FetchingRound(s, p, q);
    } else {
      OpeningGoes(s, p, q);
      PutNothing(n.journal, j[Mark(n, q)..]);
      assert RoundSteps(s, p, q) == [Announce(q), Start(p, Hello(q, |j|), false, false)];
    }
  }

  function CountAsks(steps: seq<Step>): nat {
    if steps == [] then 0 else (if steps[0].Ask? then 1 else 0) + CountAsks(steps[1..])
  }

  lemma {:induction false} CountAsksConcat(a: seq<Step>, b: seq<Step>)
    ensures CountAsks(a + b) == CountAsks(a) + CountAsks(b)
  {
    if a == [] {
      assert a + b == b;
    } else {
      assert (a + b)[1..] == a[1..] + b;
      CountAsksConcat(a[1..], b);
    }
  }

  lemma {:induction false} NoAsksInApplies(p: nat, count: nat)
    ensures CountAsks(Applies(p, count)) == 0
  {
    if count > 0 {
      NoAsksInApplies(p, count - 1);
      CountAsksConcat([Apply(p, false)], Applies(p, count - 1));
    }
  }

  /** Fetching `left` entries takes one call per full batch and one more, also when the last batch was full. */
  lemma {:induction false} PullCalls(p: nat, left: nat)
    ensures CountAsks(Pull(p, left)) == left / BATCH + 1
    decreases left
  {
    var ask, record := [Ask(p, false)], [Record(p, false)];
    assert CountAsks(ask) == 1 && CountAsks(record) == 0;
    if left == 0 {
      assert Pull(p, left) == ask;
    } else {
      var applies := Applies(p, Min(left, BATCH));
      var rest := if left < BATCH then [] else Pull(p, left - BATCH);
      assert Pull(p, left) == ask + (applies + record + rest);
      NoAsksInApplies(p, Min(left, BATCH));
      CountAsksConcat(ask, applies + record + rest);
      CountAsksConcat(applies + record, rest);
      CountAsksConcat(applies, record);
      if left >= BATCH {
        PullCalls(p, left - BATCH);
      }
    }
  }
}
