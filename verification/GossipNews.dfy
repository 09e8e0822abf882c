/**
  Discovery and announcements of blocks, exactly: what an answer says, who is listed as holding a
  block, that announced metadata is merged, and what failing operations and idle starts leave alone.
 */
module GossipNews {
  import opened Blocks
  import opened Journals
  import opened Gossip
  import opened GossipRuns

  // ---------- the last of several steps ----------

  /** Some step is `on`, and none after it is `off`. */
  ghost predicate Lasts(steps: seq<Step>, on: Step -> bool, off: Step -> bool) {
    exists k :: 0 <= k < |steps| && on(steps[k]) && forall j | k < j < |steps| :: !off(steps[j])
  }

  ghost predicate Never(steps: seq<Step>, off: Step -> bool) {
    forall j | 0 <= j < |steps| :: !off(steps[j])
  }

  lemma LastsCons(steps: seq<Step>, on: Step -> bool, off: Step -> bool)
    requires steps != []
    ensures Lasts(steps, on, off) <==> Lasts(steps[1..], on, off) || (on(steps[0]) && Never(steps[1..], off))
    ensures Never(steps, off) <==> !off(steps[0]) && Never(steps[1..], off)
  {
    var rest := steps[1..];
    assert forall j | 1 <= j < |steps| :: steps[j] == rest[j - 1];
    if Lasts(rest, on, off) {
      var k :| 0 <= k < |rest| && on(rest[k]) && forall j | k < j < |rest| :: !off(rest[j]);
      assert on(steps[k + 1]) && forall j | k + 1 < j < |steps| :: !off(steps[j]);
    }
    if Lasts(steps, on, off) {
      var k :| 0 <= k < |steps| && on(steps[k]) && forall j | k < j < |steps| :: !off(steps[j]);
      assert forall j | 0 <= j < |rest| :: rest[j] == steps[j + 1];
      if k > 0 {
        assert on(rest[k - 1]) && forall j | k - 1 < j < |rest| :: !off(rest[j]);
      }
    }
  }

  // ---------- answers ----------

  function Stores(p: nat, slot: string, present: bool): Step -> bool {
    (x: Step) => x == StoreBlock(p, slot, present)
  }

  /** The last change of node p's store for the block put it there. */
  ghost predicate StoredLast(steps: seq<Step>, p: nat, slot: string) {
    Lasts(steps, Stores(p, slot, true), Stores(p, slot, false))
  }

  lemma StoreStep(s: State, step: Step, p: nat, slot: string)
    requires Enabled(s, step) && p < |s.nodes|
    ensures slot in Next(s, step).nodes[p].blocks
            <==> Stores(p, slot, true)(step) || (slot in s.nodes[p].blocks && !Stores(p, slot, false)(step))
  {
    hide Put, EntriesBetween;
  }

  lemma {:induction false} HeldExactly(s: State, steps: seq<Step>, p: nat, slot: string)
    requires Run(s, steps) && p < |s.nodes|
    ensures slot in After(s, steps).nodes[p].blocks
            <==> StoredLast(steps, p, slot) || (slot in s.nodes[p].blocks && Never(steps, Stores(p, slot, false)))
    decreases |steps|
  {
    hide Next, Enabled, Stores, Lasts, Never;
    if steps == [] {
      NothingLasts(Stores(p, slot, true), Stores(p, slot, false));
    } else {
      StoreStep(s, steps[0], p, slot);
      LastsCons(steps, Stores(p, slot, true), Stores(p, slot, false));
      HeldExactly(Next(s, steps[0]), steps[1..], p, slot);
    }
  }

  lemma NothingLasts(on: Step -> bool, off: Step -> bool)
    ensures !Lasts([], on, off) && Never([], off)
  {
  }

  /**
    At any time a node can answer with any entry of its journal, and the answer says that it has the
    block if and only if the last change of its store for that block put it there.
   */
  lemma AnswersExactly(size: nat, steps: seq<Step>, p: nat, number: nat)
    requires Run(Init(size), steps) && p < size && 1 <= number <= |After(Init(size), steps).nodes[p].journal|
    ensures var s := After(Init(size), steps);
            var m := s.nodes[p].journal[number - 1];
            && Enabled(s, Answer(p, number))
            && Next(s, Answer(p, number)).news == s.news + {News(p, m, StoredLast(steps, p, m.Slot()))}
  {
    var s := After(Init(size), steps);
    HeldExactly(Init(size), steps, p, s.nodes[p].journal[number - 1].Slot());
    hide Run, After, StoredLast, Never;
  }

  // ---------- the table of holders ----------

  predicate IsNote(x: Step, p: nat, slot: string, q: nat, has: bool) {
    x.NoteAvailability? && x.p == p && x.item.from == q && x.item.metadata.Slot() == slot && x.item.has == has
  }

  /** A report that q does not have the block, or a crash, which loses the table. */
  predicate Unlists(x: Step, p: nat, slot: string, q: nat) {
    IsNote(x, p, slot, q, false) || (x.Crash? && x.p == p)
  }

  /** The last report of q about the block to p says that q has it, and p did not crash since. */
  ghost predicate ReportedLast(steps: seq<Step>, p: nat, slot: string, q: nat) {
    Lasts(steps, x => IsNote(x, p, slot, q, true), x => Unlists(x, p, slot, q))
  }

  predicate Listed(n: Node, slot: string, q: nat) {
    (slot, q) in n.who && n.who[(slot, q)]
  }

  lemma ListingStep(s: State, step: Step, p: nat, slot: string, q: nat)
    requires Enabled(s, step) && p < |s.nodes|
    ensures Listed(Next(s, step).nodes[p], slot, q)
            <==> IsNote(step, p, slot, q, true) || (Listed(s.nodes[p], slot, q) && !Unlists(step, p, slot, q))
  {
    hide Put, EntriesBetween;
    var n, m := s.nodes[p], Next(s, step).nodes[p];
    if step.p != p {
      assert m == n;
    } else if step.NoteAvailability? {
      assert m.who == n.who[(step.item.metadata.Slot(), step.item.from) := step.item.has];
    } else if !step.Crash? {
      assert m.who == n.who;
    }
  }

  lemma {:induction false} ListingRun(s: State, steps: seq<Step>, p: nat, slot: string, q: nat)
    requires Run(s, steps) && p < |s.nodes|
    ensures Listed(After(s, steps).nodes[p], slot, q)
            <==> ReportedLast(steps, p, slot, q)
                 || (Listed(s.nodes[p], slot, q) && Never(steps, x => Unlists(x, p, slot, q)))
    decreases |steps|
  {
    hide Next, Enabled, IsNote, Unlists, Lasts, Never, Listed;
    var on, off := (x: Step) => IsNote(x, p, slot, q, true), (x: Step) => Unlists(x, p, slot, q);
    if steps == [] {
      NothingLasts(on, off);
    } else {
      ListingStep(s, steps[0], p, slot, q);
      LastsCons(steps, on, off);
      ListingRun(Next(s, steps[0]), steps[1..], p, slot, q);
    }
  }

  /** Node q is listed at p if and only if p's last report about it and the block said so, and p did not crash since. */
  lemma ListedExactly(size: nat, steps: seq<Step>, p: nat, slot: string, q: nat)
    requires Run(Init(size), steps) && p < size
    ensures Listed(After(Init(size), steps).nodes[p], slot, q) <==> ReportedLast(steps, p, slot, q)
  {
    ListingRun(Init(size), steps, p, slot, q);
    hide Run, After, Lasts, Never;
  }

  // ---------- values that are put ----------

  /** The step puts `m` into p's index without failing: as a local value or from an announcement. */
  predicate Merges(step: Step, p: nat, m: Metadata) {
    match step
    case LocalPut(r, x, fails) => r == p && x == m && !fails
    case PutNews(r, item, fails) => r == p && item.metadata == m && !fails
    case _ => false
  }

  /** A value put stays: the node dominates it for the rest of the run. */
  lemma {:induction false} MergedStays(s: State, steps: seq<Step>, k: nat, p: nat, m: Metadata)
    requires Run(s, steps) && k < |steps| && p < |s.nodes| && Merges(steps[k], p, m)
    ensures Dominates(After(s, steps).nodes[p].journal, m)
    decreases k
  {
    var t := Next(s, steps[0]);
    if k == 0 {
      assert t.nodes[p].journal == Put(s.nodes[p].journal, m);
      PutDominates(s.nodes[p].journal, m);
      hide Next, Enabled, Dominates, Put;
      RunGrows(t, steps[1..]);
      assert Keeps(t.nodes[p].journal, After(t, steps[1..]).nodes[p].journal);
    } else {
      hide Next, Enabled, Dominates, Merges;
      MergedStays(t, steps[1..], k - 1, p, m);
    }
  }

  // ---------- what may happen at any time, and what changes nothing ----------

  /** Local values, announcements, changes of the store and crashes wait for nothing; a message can be received whenever it was sent. */
  lemma AlwaysEnabled(s: State, p: nat, m: Metadata, slot: string, present: bool, fails: bool)
    requires p < |s.nodes|
    ensures Enabled(s, LocalPut(p, m, fails)) && Enabled(s, Announce(p)) && Enabled(s, StoreBlock(p, slot, present)) && Enabled(s, Crash(p))
    ensures forall x | x in s.news :: Enabled(s, NoteAvailability(p, x)) && (x.from != p ==> Enabled(s, PutNews(p, x, fails)))
    ensures forall h, getFails | h in s.hellos && h.from < |s.nodes| && h.from != p && s.nodes[p].pc == Idle ::
              Enabled(s, Start(p, h, getFails, fails))
  {
  }

  predicate Fails(step: Step) {
    (step.LocalPut? || step.Start? || step.Ask? || step.Apply? || step.Record? || step.PutNews?) && step.fails
  }

  /** A failing operation changes nothing on disk and no table, and ends the sync it is part of. */
  lemma FailuresLoseNothing(s: State, step: Step)
    requires Enabled(s, step) && Fails(step)
    ensures var n, m := s.nodes[step.p], Next(s, step).nodes[step.p];
            && m == n.(pc := m.pc)
            && m.pc == if step.Ask? || step.Apply? || step.Record? then Idle else n.pc
    ensures forall p | 0 <= p < |s.nodes| && p != step.p :: Next(s, step).nodes[p] == s.nodes[p]
  {
    hide Put, EntriesBetween;
  }

  /** A sync goes on after its start exactly when more is announced than is known, and the peer can be reached. */
  lemma StartGoesOn(s: State, step: Step)
    requires Enabled(s, step) && step.Start?
    ensures var known := if step.getFails then 0 else Mark(s.nodes[step.p], step.hello.from);
            var m := Next(s, step).nodes[step.p];
            && (m.pc == Idle <==> known >= step.hello.number || step.fails)
            && (m.pc != Idle ==> m == s.nodes[step.p].(pc := Asking(step.hello.from, known)))
            && (known > step.hello.number ==> m == s.nodes[step.p])
  {
  }

  /** A crash keeps what is on disk: the journal, the watermarks and the blocks. */
  lemma CrashKeepsTheDisk(s: State, p: nat)
    requires p < |s.nodes|
    ensures var m := Next(s, Crash(p)).nodes[p];
            m.journal == s.nodes[p].journal && m.marks == s.nodes[p].marks && m.blocks == s.nodes[p].blocks && m.pc == Idle
  {
  }
}
