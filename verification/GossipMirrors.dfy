/**
  What ties the sync loop over objects to the protocol: the two journals, the watermark and the place
  in the loop are those of some run of the protocol that takes only the steps of one sync and puts of
  others.
 */
module GossipMirrors {
  import opened Blocks
  import opened Journals
  import opened Gossip
  import opened GossipRuns

  /** Node p syncs with node q from state `s` on, after q announced `number`; nobody else puts when `quiet`. */
  datatype Frame = Frame(s: State, p: nat, q: nat, number: nat, quiet: bool)

  /** A step of that sync, or a put at one of the two nodes. */
  predicate OfSync(f: Frame, x: Step) {
    match x
    case LocalPut(p, _, _) => !f.quiet && (p == f.p || p == f.q)
    case Start(p, hello, _, _) => p == f.p && hello == Hello(f.q, f.number)
    case Ask(p, _) => p == f.p
    case Apply(p, _) => p == f.p
    case Record(p, _) => p == f.p
    case _ => false
  }

  ghost predicate Leads(f: Frame, t: State) {
    exists steps :: Run(f.s, steps) && After(f.s, steps) == t && forall x | x in steps :: OfSync(f, x)
  }

  predicate Shows(f: Frame, t: State, own: seq<Metadata>, theirs: seq<Metadata>, mark: nat, pc: Pc) {
    && f.p < |t.nodes| && f.q < |t.nodes| && f.p != f.q && Hello(f.q, f.number) in t.hellos
    && t.nodes[f.p].journal == own && t.nodes[f.q].journal == theirs
    && Mark(t.nodes[f.p], f.q) == mark && t.nodes[f.p].pc == pc
  }

  ghost predicate Mirrors(f: Frame, own: seq<Metadata>, theirs: seq<Metadata>, mark: nat, pc: Pc) {
    exists t :: Leads(f, t) && Shows(f, t, own, theirs, mark, pc)
  }

  lemma Begin(f: Frame, own: seq<Metadata>, theirs: seq<Metadata>, mark: nat, pc: Pc)
    requires Shows(f, f.s, own, theirs, mark, pc)
    ensures Mirrors(f, own, theirs, mark, pc)
  {
    assert Run(f.s, []) && After(f.s, []) == f.s;
    assert Leads(f, f.s);
  }

  /** Any two journals, watermark and announcement are those of some state. */
  lemma SomeFrame(own: seq<Metadata>, theirs: seq<Metadata>, mark: nat, number: nat, quiet: bool) returns (f: Frame)
    ensures f.number == number && f.quiet == quiet && Mirrors(f, own, theirs, mark, Idle)
  {
    var a, b := Node(own, map[1 := mark], Idle, {}, map[]), Node(theirs, map[], Idle, {}, map[]);
    f := Frame(State([a, b], {Hello(1, number)}, {}, {}, {}), 0, 1, number, quiet);
    Begin(f, own, theirs, mark, Idle);
  }

  lemma LeadsOn(f: Frame, t: State, step: Step)
    requires Leads(f, t) && Enabled(t, step) && OfSync(f, step)
    ensures Leads(f, Next(t, step))
  {
    hide Enabled, Next, OfSync, Run, After;
    var steps :| Run(f.s, steps) && After(f.s, steps) == t && forall x | x in steps :: OfSync(f, x);
    OneStep(t, step);
    RunConcat(f.s, steps, [step]);
    var more := steps + [step];
    assert forall x | x in more :: OfSync(f, x);
    assert Run(f.s, more) && After(f.s, more) == Next(t, step);
  }

  // ---------- one lemma per action of the loop ----------

  lemma OwnPut(f: Frame, own: seq<Metadata>, theirs: seq<Metadata>, mark: nat, pc: Pc, m: Metadata)
    requires Mirrors(f, own, theirs, mark, pc) && !f.quiet
    ensures Mirrors(f, Put(own, m), theirs, mark, pc)
  {
    hide Leads, Put;
    var t :| Leads(f, t) && Shows(f, t, own, theirs, mark, pc);
    LeadsOn(f, t, LocalPut(f.p, m, false));
    assert Shows(f, Next(t, LocalPut(f.p, m, false)), Put(own, m), theirs, mark, pc);
  }

  lemma TheirPut(f: Frame, own: seq<Metadata>, theirs: seq<Metadata>, mark: nat, pc: Pc, m: Metadata)
    requires Mirrors(f, own, theirs, mark, pc) && !f.quiet
    ensures Mirrors(f, own, Put(theirs, m), mark, pc)
  {
    hide Leads, Put;
    var t :| Leads(f, t) && Shows(f, t, own, theirs, mark, pc);
    LeadsOn(f, t, LocalPut(f.q, m, false));
    assert Shows(f, Next(t, LocalPut(f.q, m, false)), own, Put(theirs, m), mark, pc);
  }

  lemma {:induction false} OwnPuts(f: Frame, own: seq<Metadata>, theirs: seq<Metadata>, mark: nat, pc: Pc, ms: seq<Metadata>)
    requires Mirrors(f, own, theirs, mark, pc) && (f.quiet ==> ms == [])
    ensures Mirrors(f, PutAll(own, ms), theirs, mark, pc)
    decreases |ms|
  {
    hide Mirrors, Put;
    if ms != [] {
      OwnPut(f, own, theirs, mark, pc, ms[0]);
      OwnPuts(f, Put(own, ms[0]), theirs, mark, pc, ms[1..]);
    }
  }

  lemma {:induction false} TheirPuts(f: Frame, own: seq<Metadata>, theirs: seq<Metadata>, mark: nat, pc: Pc, ms: seq<Metadata>)
    requires Mirrors(f, own, theirs, mark, pc) && (f.quiet ==> ms == [])
    ensures Mirrors(f, own, PutAll(theirs, ms), mark, pc)
    decreases |ms|
  {
    hide Mirrors, Put;
    if ms != [] {
      TheirPut(f, own, theirs, mark, pc, ms[0]);
      TheirPuts(f, own, Put(theirs, ms[0]), mark, pc, ms[1..]);
    }
  }

  /** The start of the sync, which goes on only when it has something to fetch and the peer can be reached. */
  lemma Opens(f: Frame, own: seq<Metadata>, theirs: seq<Metadata>, mark: nat, getFails: bool, fails: bool)
    requires Mirrors(f, own, theirs, mark, Idle)
    ensures var known := if getFails then 0 else mark;
            if known > f.number || fails then Mirrors(f, own, theirs, mark, Idle)
            else if known == f.number then Mirrors(f, own, theirs, f.number, Idle)
            else Mirrors(f, own, theirs, mark, Asking(f.q, known))
  {
    hide Leads;
    var t :| Leads(f, t) && Shows(f, t, own, theirs, mark, Idle);
    var step := Start(f.p, Hello(f.q, f.number), getFails, fails);
    LeadsOn(f, t, step);
    var known := if getFails then 0 else mark;
    if known <= f.number && !fails {
      assert Shows(f, Next(t, step), own, theirs, if known == f.number then f.number else mark,
                   if known == f.number then Idle else Asking(f.q, known));
    }
  }

  lemma Asks(f: Frame, own: seq<Metadata>, theirs: seq<Metadata>, mark: nat, seen: nat, fails: bool)
    requires Mirrors(f, own, theirs, mark, Asking(f.q, seen))
    ensures var batch := EntriesBetween(theirs, seen + 1, seen + 1 + BATCH);
            Mirrors(f, own, theirs, mark, if fails || batch == [] then Idle else Applying(f.q, batch, 0, seen))
  {
    hide Leads, EntriesBetween;
    var t :| Leads(f, t) && Shows(f, t, own, theirs, mark, Asking(f.q, seen));
    var batch := EntriesBetween(theirs, seen + 1, seen + 1 + BATCH);
    LeadsOn(f, t, Ask(f.p, fails));
    assert Shows(f, Next(t, Ask(f.p, fails)), own, theirs, mark, if fails || batch == [] then Idle else Applying(f.q, batch, 0, seen));
  }

  lemma Applies(f: Frame, own: seq<Metadata>, theirs: seq<Metadata>, mark: nat, batch: seq<ExtendedMetadata>, i: nat, seen: nat)
    requires Mirrors(f, own, theirs, mark, Applying(f.q, batch, i, seen)) && i < |batch|
    ensures Mirrors(f, Put(own, batch[i].metadata), theirs, mark, Applying(f.q, batch, i + 1, Max(seen, batch[i].sequenceNumber)))
  {
    hide Leads, Put;
    var t :| Leads(f, t) && Shows(f, t, own, theirs, mark, Applying(f.q, batch, i, seen));
    LeadsOn(f, t, Apply(f.p, false));
    assert Shows(f, Next(t, Apply(f.p, false)), Put(own, batch[i].metadata), theirs, mark,
                 Applying(f.q, batch, i + 1, Max(seen, batch[i].sequenceNumber)));
  }

  lemma Records(f: Frame, own: seq<Metadata>, theirs: seq<Metadata>, mark: nat, batch: seq<ExtendedMetadata>, seen: nat)
    requires Mirrors(f, own, theirs, mark, Applying(f.q, batch, |batch|, seen))
    ensures Mirrors(f, own, theirs, seen, if |batch| < BATCH then Idle else Asking(f.q, seen))
  {
    hide Leads;
    var t :| Leads(f, t) && Shows(f, t, own, theirs, mark, Applying(f.q, batch, |batch|, seen));
    LeadsOn(f, t, Record(f.p, false));
    assert Shows(f, Next(t, Record(f.p, false)), own, theirs, seen, if |batch| < BATCH then Idle else Asking(f.q, seen));
  }

  /** An entry cannot be put. */
  lemma ApplyFails(f: Frame, own: seq<Metadata>, theirs: seq<Metadata>, mark: nat, batch: seq<ExtendedMetadata>, i: nat, seen: nat)
    requires Mirrors(f, own, theirs, mark, Applying(f.q, batch, i, seen)) && i < |batch|
    ensures Mirrors(f, own, theirs, mark, Idle)
  {
    hide Leads;
    var t :| Leads(f, t) && Shows(f, t, own, theirs, mark, Applying(f.q, batch, i, seen));
    LeadsOn(f, t, Apply(f.p, true));
    assert Shows(f, Next(t, Apply(f.p, true)), own, theirs, mark, Idle);
  }

  /** A batch cannot be recorded. */
  lemma RecordFails(f: Frame, own: seq<Metadata>, theirs: seq<Metadata>, mark: nat, batch: seq<ExtendedMetadata>, seen: nat)
    requires Mirrors(f, own, theirs, mark, Applying(f.q, batch, |batch|, seen))
    ensures Mirrors(f, own, theirs, mark, Idle)
  {
    hide Leads;
    var t :| Leads(f, t) && Shows(f, t, own, theirs, mark, Applying(f.q, batch, |batch|, seen));
    LeadsOn(f, t, Record(f.p, true));
    assert Shows(f, Next(t, Record(f.p, true)), own, theirs, mark, Idle);
  }
}
