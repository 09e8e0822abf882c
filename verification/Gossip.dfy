/**
  The replicated block index as a protocol: any number of nodes, each with a journal, a watermark
  per peer, at most one running sync and a view of who holds which block. A step is one section
  of the program during which the node holds a lock, so a run is any interleaving of such
  sections, of message deliveries, of failures and of crashes.
 */
module Gossip {
  import opened Blocks
  import opened Journals

  const BATCH := 100

  /** Where a node's sync body stands: between calls, or with a batch half applied. */
  datatype Pc =
    | Idle
    | Asking(peer: nat, seen: nat)
    | Applying(peer: nat, batch: seq<ExtendedMetadata>, applied: nat, seen: nat)

  datatype Node = Node(
    journal: seq<Metadata>,
    marks: map<nat, nat>,
    pc: Pc,
    blocks: set<string>,
    who: map<(string, nat), bool>)

  datatype Hello = Hello(from: nat, number: nat)
  datatype News = News(from: nat, metadata: Metadata, has: bool)

  /**
    Sent messages are never removed: a message may be delivered never, once or often, in any
    order. `origin` collects what was ever put locally, `held` which node ever stored which block.
   */
  datatype State = State(
    nodes: seq<Node>,
    hellos: set<Hello>,
    news: set<News>,
    origin: set<Metadata>,
    held: set<(nat, string)>)

  /** `fails` is a failing disk or network operation of that step. A crash loses what is not on disk. */
  datatype Step =
    | LocalPut(p: nat, m: Metadata, fails: bool)
    | Announce(p: nat)
    | Start(p: nat, hello: Hello, getFails: bool, fails: bool)
    | Ask(p: nat, fails: bool)
    | Apply(p: nat, fails: bool)
    | Record(p: nat, fails: bool)
    | Crash(p: nat)
    | StoreBlock(p: nat, slot: string, present: bool)
    | Answer(p: nat, number: nat)
    | NoteAvailability(p: nat, item: News)
    | PutNews(p: nat, item: News, fails: bool)

  function Init(n: nat): State {
    State(seq(n, _ => Node([], map[], Idle, {}, map[])), {}, {}, {}, {})
  }

  /** The watermark, 0 for a peer never recorded. */
  function Mark(n: Node, q: nat): nat {
    if q in n.marks then n.marks[q] else 0
  }

  predicate Enabled(s: State, step: Step) {
    && step.p < |s.nodes|
    && var n := s.nodes[step.p];
       match step
       case LocalPut(_, _, _) => true
       case Announce(_) => true
       case Start(p, hello, _, _) => n.pc == Idle && hello in s.hellos && hello.from < |s.nodes| && hello.from != p
       case Ask(_, _) => n.pc.Asking? && n.pc.peer < |s.nodes|
       case Apply(_, _) => n.pc.Applying? && n.pc.applied < |n.pc.batch|
       case Record(_, _) => n.pc.Applying? && n.pc.applied == |n.pc.batch|
       case Crash(_) => true
       case StoreBlock(_, _, _) => true
       case Answer(_, number) => 1 <= number <= |n.journal|
       case NoteAvailability(_, item) => item in s.news
       case PutNews(p, item, _) => item in s.news && item.from != p
  }

  function StartSync(n: Node, hello: Hello, getFails: bool, fails: bool): Node {
    var known := if getFails then 0 else Mark(n, hello.from);
    if known > hello.number then n
    else if known == hello.number then
      if fails then n else n.(marks := n.marks[hello.from := hello.number])
    else if fails then n
    else n.(pc := Asking(hello.from, known))
  }

  function AskPeer(n: Node, peer: seq<Metadata>, fails: bool): Node
    requires n.pc.Asking?
  {
    var batch := EntriesBetween(peer, n.pc.seen + 1, n.pc.seen + 1 + BATCH);
    if fails || batch == [] then n.(pc := Idle) else n.(pc := Applying(n.pc.peer, batch, 0, n.pc.seen))
  }

  function ApplyEntry(n: Node, fails: bool): Node
    requires n.pc.Applying? && n.pc.applied < |n.pc.batch|
  {
    var entry := n.pc.batch[n.pc.applied];
    if fails then n.(pc := Idle)
    else n.(journal := Put(n.journal, entry.metadata),
            pc := n.pc.(applied := n.pc.applied + 1, seen := Max(n.pc.seen, entry.sequenceNumber)))
  }

  function RecordBatch(n: Node, fails: bool): Node
    requires n.pc.Applying?
  {
    if fails then n.(pc := Idle)
    else n.(marks := n.marks[n.pc.peer := n.pc.seen],
            pc := if |n.pc.batch| < BATCH then Idle else Asking(n.pc.peer, n.pc.seen))
  }

  /** The step's own node afterwards; no step changes another node. */
  function NextNode(s: State, step: Step): Node
    requires Enabled(s, step)
  {
    var n := s.nodes[step.p];
    match step
    case LocalPut(_, m, fails) => if fails then n else n.(journal := Put(n.journal, m))
    case Announce(_) => n
    case Start(_, hello, getFails, fails) => StartSync(n, hello, getFails, fails)
    case Ask(_, fails) => AskPeer(n, s.nodes[n.pc.peer].journal, fails)
    case Apply(_, fails) => ApplyEntry(n, fails)
    case Record(_, fails) => RecordBatch(n, fails)
    case Crash(_) => n.(pc := Idle, who := map[])
    case StoreBlock(_, slot, present) => n.(blocks := if present then n.blocks + {slot} else n.blocks - {slot})
    case Answer(_, _) => n
    case NoteAvailability(_, item) => n.(who := n.who[(item.metadata.Slot(), item.from) := item.has])
    case PutNews(_, item, fails) => if fails then n else n.(journal := Put(n.journal, item.metadata))
  }

  function Next(s: State, step: Step): (t: State)
    requires Enabled(s, step)
    ensures |t.nodes| == |s.nodes|
  {
    var n := s.nodes[step.p];
    var t := s.(nodes := s.nodes[step.p := NextNode(s, step)]);
    match step
    case LocalPut(_, m, _) => t.(origin := s.origin + {m})
    case Announce(p) => t.(hellos := s.hellos + {Hello(p, |n.journal|)})
    case StoreBlock(p, slot, present) => if present then t.(held := s.held + {(p, slot)}) else t
    case Answer(p, number) =>
      var m := n.journal[number - 1];
      t.(news := s.news + {News(p, m, m.Slot() in n.blocks)})
    case _ => t
  }

  predicate Run(s: State, steps: seq<Step>)
    decreases |steps|
  {
    steps != [] ==> Enabled(s, steps[0]) && Run(Next(s, steps[0]), steps[1..])
  }

  function After(s: State, steps: seq<Step>): (t: State)
    requires Run(s, steps)
    ensures |t.nodes| == |s.nodes|
    decreases |steps|
  {
    if steps == [] then s else After(Next(s, steps[0]), steps[1..])
  }

  // ---------- what every reachable state satisfies ----------

  ghost predicate JournalsOk(s: State) {
    forall p | 0 <= p < |s.nodes| :: Grown(s.nodes[p].journal) && forall m | m in s.nodes[p].journal :: m in s.origin
  }

  /** Watermark soundness. */
  ghost predicate MarksOk(s: State) {
    forall p, q | 0 <= p < |s.nodes| && 0 <= q < |s.nodes| ::
      SyncedUpTo(s.nodes[p].journal, s.nodes[q].journal, Mark(s.nodes[p], q))
  }

  /** `batch` is the part of journal `j` from number `from + 1` on. */
  ghost predicate IsSlice(batch: seq<ExtendedMetadata>, j: seq<Metadata>, from: nat) {
    from + |batch| <= |j| && forall i | 0 <= i < |batch| :: batch[i] == Numbered(j, from + i + 1)
  }

  /** The sync body of node `n` stands where its peer's journal `q` says it may. */
  ghost predicate FollowsOk(n: Node, q: seq<Metadata>)
    requires n.pc != Idle
  {
    && SyncedUpTo(n.journal, q, n.pc.seen)
    && (n.pc.Applying? ==>
          && n.pc.applied <= |n.pc.batch| <= BATCH && n.pc.applied <= n.pc.seen && n.pc.batch != []
          && IsSlice(n.pc.batch, q, n.pc.seen - n.pc.applied))
  }

  ghost predicate PcOk(s: State, p: nat)
    requires p < |s.nodes|
  {
    var n := s.nodes[p];
    n.pc != Idle ==> n.pc.peer < |s.nodes| && n.pc.peer != p && FollowsOk(n, s.nodes[n.pc.peer].journal)
  }

  ghost predicate PcsOk(s: State) {
    forall p | 0 <= p < |s.nodes| :: PcOk(s, p)
  }

  ghost predicate MessagesOk(s: State) {
    && (forall h | h in s.hellos :: h.from < |s.nodes| && h.number <= |s.nodes[h.from].journal|)
    && (forall x | x in s.news ::
          && x.from < |s.nodes| && x.metadata in s.nodes[x.from].journal
          && (x.has ==> (x.from, x.metadata.Slot()) in s.held))
  }

  ghost predicate AvailabilityOk(s: State) {
    && (forall p | 0 <= p < |s.nodes| :: forall b | b in s.nodes[p].blocks :: (p, b) in s.held)
    && (forall p | 0 <= p < |s.nodes| :: forall k | k in s.nodes[p].who && s.nodes[p].who[k] :: (k.1, k.0) in s.held)
  }

  ghost predicate Inv(s: State) {
    JournalsOk(s) && MarksOk(s) && PcsOk(s) && MessagesOk(s) && AvailabilityOk(s)
  }

  lemma InitInv(n: nat)
    ensures Inv(Init(n))
  {
  }

  /** No step takes anything away from any journal. */
  ghost predicate Grows(s: State, t: State) {
    |s.nodes| == |t.nodes| && forall p | 0 <= p < |s.nodes| :: Keeps(s.nodes[p].journal, t.nodes[p].journal)
  }

  lemma StepGrows(s: State, step: Step)
    requires Enabled(s, step)
    ensures Grows(s, Next(s, step))
  {
    forall p | 0 <= p < |s.nodes| ensures Keeps(s.nodes[p].journal, Next(s, step).nodes[p].journal) {
      var j := s.nodes[p].journal;
      KeepsItself(j);
      if p == step.p {
        match step
        case LocalPut(_, m, _) => PutKeeps(j, j, m);
        case Apply(_, _) => PutKeeps(j, j, s.nodes[p].pc.batch[s.nodes[p].pc.applied].metadata);
        case PutNews(_, item, _) => PutKeeps(j, j, item.metadata);
        case _ =>
      }
    }
  }

  lemma StepJournals(s: State, step: Step)
    requires Inv(s) && Enabled(s, step)
    ensures JournalsOk(Next(s, step))
  {
    hide Grown, Accepts, SyncedUpTo, MarksOk, AvailabilityOk;
    var n := s.nodes[step.p];
    match step
    case LocalPut(_, m, _) => PutOrigin(n.journal, m, s.origin + {m});
    case Apply(p, _) =>
      assert PcOk(s, p);
      PutOrigin(n.journal, n.pc.batch[n.pc.applied].metadata, s.origin);
    case PutNews(_, item, _) => PutOrigin(n.journal, item.metadata, s.origin);
    case _ =>
  }

  lemma PutOrigin(j: seq<Metadata>, m: Metadata, u: set<Metadata>)
    requires Grown(j) && m in u && forall x | x in j :: x in u
    ensures Grown(Put(j, m)) && forall x | x in Put(j, m) :: x in u
  {
    PutKeepsGrown(j, m);
  }

  lemma StepMarks(s: State, step: Step)
    requires Inv(s) && Enabled(s, step)
    ensures MarksOk(Next(s, step))
  {
    StepGrows(s, step);
    hide Inv, Keeps, SyncedUpTo, Next, Enabled;
    var t := Next(s, step);
    forall p, q | 0 <= p < |s.nodes| && 0 <= q < |s.nodes|
      ensures SyncedUpTo(t.nodes[p].journal, t.nodes[q].journal, Mark(t.nodes[p], q))
    {
      MarkIsSynced(s, step, p, q);
      SyncedStays(s.nodes[p].journal, t.nodes[p].journal, s.nodes[q].journal, t.nodes[q].journal, Mark(t.nodes[p], q));
    }
  }

  /** What a step records has been synced before. */
  lemma MarkIsSynced(s: State, step: Step, p: nat, q: nat)
    requires Inv(s) && Enabled(s, step) && p < |s.nodes| && q < |s.nodes|
    ensures SyncedUpTo(s.nodes[p].journal, s.nodes[q].journal, Mark(Next(s, step).nodes[p], q))
  {
    assert MarksOk(s) && PcOk(s, p);
    hide Inv, SyncedUpTo, NextNode;
    assert SyncedUpTo(s.nodes[p].journal, s.nodes[q].journal, Mark(s.nodes[p], q));
    assert Next(s, step).nodes == s.nodes[step.p := NextNode(s, step)];
    if p == step.p {
      hide Next;
      MarkChanges(s, step, q);
      if Mark(NextNode(s, step), q) <= Mark(s.nodes[p], q) {
        SyncedDown(s.nodes[p].journal, s.nodes[q].journal, Mark(s.nodes[p], q), Mark(NextNode(s, step), q));
      }
    }
  }

  /** A step lowers the mark, leaves it or records what the sync under way has seen. */
  lemma MarkChanges(s: State, step: Step, q: nat)
    requires Enabled(s, step)
    ensures var n, m := s.nodes[step.p], NextNode(s, step);
            Mark(m, q) <= Mark(n, q) || (n.pc.Applying? && n.pc.peer == q && Mark(m, q) == n.pc.seen)
  {
    hide Put, EntriesBetween;
  }

  lemma StepPcs(s: State, step: Step)
    requires Inv(s) && Enabled(s, step)
    ensures PcsOk(Next(s, step))
  {
    StepGrows(s, step);
    var t := Next(s, step);
    forall p | 0 <= p < |s.nodes| ensures PcOk(t, p) {
      StepPc(s, step, p);
    }
  }

  lemma SliceStays(batch: seq<ExtendedMetadata>, j: seq<Metadata>, k: seq<Metadata>, from: nat)
    requires IsSlice(batch, j, from) && Keeps(j, k)
    ensures IsSlice(batch, k, from)
  {
  }

  lemma SamePcStays(s: State, t: State, p: nat)
    requires p < |s.nodes| && PcOk(s, p) && Grows(s, t) && t.nodes[p].pc == s.nodes[p].pc
    ensures PcOk(t, p)
  {
    hide Keeps, SyncedUpTo, IsSlice;
    var pc := s.nodes[p].pc;
    if pc != Idle {
      SyncedStays(s.nodes[p].journal, t.nodes[p].journal, s.nodes[pc.peer].journal, t.nodes[pc.peer].journal, pc.seen);
      if pc.Applying? {
        SliceStays(pc.batch, s.nodes[pc.peer].journal, t.nodes[pc.peer].journal, pc.seen - pc.applied);
      }
    }
  }

  lemma AppliedFollows(n: Node, q: seq<Metadata>)
    requires n.pc.Applying? && n.pc.applied < |n.pc.batch| && FollowsOk(n, q)
    ensures FollowsOk(ApplyEntry(n, false), q)
  {
    hide SyncedUpTo, Put;
    assert n.pc.batch[n.pc.applied] == Numbered(q, n.pc.seen + 1);
    PutNext(n.journal, q, n.pc.seen);
  }

  lemma AskedFollows(n: Node, q: seq<Metadata>, fails: bool)
    requires n.pc.Asking? && FollowsOk(n, q) && AskPeer(n, q, fails).pc != Idle
    ensures FollowsOk(AskPeer(n, q, fails), q)
  {
    SyncedWithin(n.journal, q, n.pc.seen);
    BatchAfter(q, n.pc.seen, BATCH);
    hide SyncedUpTo, EntriesBetween;
    var batch := EntriesBetween(q, n.pc.seen + 1, n.pc.seen + 1 + BATCH);
    assert AskPeer(n, q, fails) == n.(pc := Applying(n.pc.peer, batch, 0, n.pc.seen));
    assert IsSlice(batch, q, n.pc.seen);
  }

  lemma SyncedWithin(j: seq<Metadata>, q: seq<Metadata>, n: nat)
    requires SyncedUpTo(j, q, n)
    ensures n <= |q|
  {
  }

  lemma StepPc(s: State, step: Step, p: nat)
    requires Inv(s) && Enabled(s, step) && p < |s.nodes|
    ensures PcOk(Next(s, step), p)
  {
    StepGrows(s, step);
    assert PcOk(s, p);
    hide Keeps, SyncedUpTo, Inv, EntriesBetween, IsSlice, Put;
    if Next(s, step).nodes[p].pc == s.nodes[p].pc {
      hide Next;
      SamePcStays(s, Next(s, step), p);
    } else {
      NewPc(s, step);
    }
  }

  lemma NewPc(s: State, step: Step)
    requires Inv(s) && Enabled(s, step) && Next(s, step).nodes[step.p].pc != s.nodes[step.p].pc
    ensures PcOk(Next(s, step), step.p)
  {
    assert PcOk(s, step.p) && MarksOk(s);
    hide SyncedUpTo, Inv, EntriesBetween, IsSlice, Put;
    var t, n := Next(s, step), s.nodes[step.p];
    match step
    case Start(_, hello, _, _) =>
      SyncedDown(n.journal, s.nodes[hello.from].journal, Mark(n, hello.from), t.nodes[step.p].pc.seen);
    case Ask(_, fails) =>
      if t.nodes[step.p].pc != Idle {
        AskedFollows(n, s.nodes[n.pc.peer].journal, fails);
      }
    case Apply(_, fails) =>
      if !fails {
        AppliedFollows(n, s.nodes[n.pc.peer].journal);
      }
    case _ =>
  }

  lemma StepHellos(s: State, step: Step, h: Hello)
    requires MessagesOk(s) && Enabled(s, step) && h in Next(s, step).hellos
    ensures h.from < |s.nodes| && h.number <= |Next(s, step).nodes[h.from].journal|
  {
    StepGrows(s, step);
    hide Next, NextNode;
    var t := Next(s, step);
    assert h in s.hellos || h == Hello(step.p, |s.nodes[step.p].journal|) by { SentHello(s, step, h); }
    assert Keeps(s.nodes[h.from].journal, t.nodes[h.from].journal);
  }

  lemma SentHello(s: State, step: Step, h: Hello)
    requires Enabled(s, step) && h in Next(s, step).hellos
    ensures h in s.hellos || h == Hello(step.p, |s.nodes[step.p].journal|)
  {
    hide NextNode;
  }

  lemma SentNews(s: State, step: Step, x: News)
    requires Enabled(s, step) && x in Next(s, step).news && x !in s.news
    ensures x.from == step.p && x.metadata in s.nodes[step.p].journal
    ensures x.has ==> x.metadata.Slot() in s.nodes[step.p].blocks
  {
    hide NextNode;
  }

  lemma HeldGrows(s: State, step: Step)
    requires Enabled(s, step)
    ensures s.held <= Next(s, step).held
  {
    hide NextNode;
  }

  lemma StepNews(s: State, step: Step, x: News)
    requires MessagesOk(s) && AvailabilityOk(s) && Enabled(s, step) && x in Next(s, step).news
    ensures x.from < |s.nodes| && x.metadata in Next(s, step).nodes[x.from].journal
    ensures x.has ==> (x.from, x.metadata.Slot()) in Next(s, step).held
  {
    StepGrows(s, step);
    HeldGrows(s, step);
    var t := Next(s, step);
    if x !in s.news {
      SentNews(s, step, x);
    }
    hide Next, NextNode;
    assert Keeps(s.nodes[x.from].journal, t.nodes[x.from].journal);
  }

  lemma StepMessages(s: State, step: Step)
    requires Inv(s) && Enabled(s, step)
    ensures MessagesOk(Next(s, step))
  {
    hide Next;
    forall h | h in Next(s, step).hellos {
      StepHellos(s, step, h);
    }
    forall x | x in Next(s, step).news {
      StepNews(s, step, x);
    }
  }

  lemma StepAvailability(s: State, step: Step)
    requires Inv(s) && Enabled(s, step)
    ensures AvailabilityOk(Next(s, step))
  {
    hide Put, EntriesBetween, SyncedUpTo, Grown;
    var t := Next(s, step);
    assert s.held <= t.held;
    var n, k := s.nodes[step.p], t.nodes[step.p];
    forall b | b in k.blocks ensures (step.p, b) in t.held {
      assert b in n.blocks || (step.p, b) in t.held;
    }
    forall x | x in k.who && k.who[x] ensures (x.1, x.0) in t.held {
      if step.NoteAvailability? && x == (step.item.metadata.Slot(), step.item.from) {
        assert step.item in s.news;
      } else {
        assert x in n.who && n.who[x];
      }
    }
  }

  lemma StepInv(s: State, step: Step)
    requires Inv(s) && Enabled(s, step)
    ensures Inv(Next(s, step))
  {
    StepJournals(s, step);
    StepMarks(s, step);
    StepPcs(s, step);
    StepMessages(s, step);
    StepAvailability(s, step);
  }
}
