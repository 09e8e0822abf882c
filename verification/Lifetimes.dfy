/**
  A stored block index over any number of openings: accepted, rejected and failing `Put`s, crashes
  before or after the batch of a `Put` was written, and reopenings. The journals it shows along the way
  are prefixes of one another, so a number is never given to another entry.
 */
module Lifetimes {
  import opened Blocks
  import opened Keys
  import opened Journals
  import opened BlockIndexes

  /** A crash in the middle of a `Put` leaves its batch written or not; the database is then reopened. */
  datatype Event =
    | PutEvent(m: Metadata, readFails: bool, writeFails: bool)
    | CrashInPut(m: Metadata, written: bool)
    | Reopen

  function After(j: seq<Metadata>, e: Event): seq<Metadata> {
    match e
    case PutEvent(m, readFails, writeFails) => if readFails || writeFails then j else Put(j, m)
    case CrashInPut(m, written) => if written then Put(j, m) else j
    case Reopen => j
  }

  /** The journal the events lead to from an empty database. */
  function Outcome(events: seq<Event>): seq<Metadata> {
    if events == [] then [] else After(Outcome(events[..|events| - 1]), events[|events| - 1])
  }

  lemma OutcomeSnoc(events: seq<Event>, e: Event)
    ensures Outcome(events + [e]) == After(Outcome(events), e)
  {
    assert (events + [e])[..|events|] == events;
  }

  lemma {:induction false} OutcomeLength(events: seq<Event>)
    ensures |Outcome(events)| <= |events|
  {
    if events != [] {
      OutcomeLength(events[..|events| - 1]);
    }
  }

  lemma EmptyStore()
    ensures Represents(map[], [])
  {
  }

  method Reopened(db: Store, ghost journal: seq<Metadata>) returns (index: BlockIndex)
    requires Represents(db, journal)
    ensures fresh(index) && index.Valid() && index.journal == journal
  {
    index := BlockIndex.NewBlockIndex(db, false, journal);
  }

  lemma PutUnlessAccepted(j: seq<Metadata>, m: Metadata)
    ensures !Accepts(j, m) ==> Put(j, m) == j
  {
  }

  /** One event, after which the index or the one opened in its place goes on. */
  method Live(index: BlockIndex, e: Event) returns (next: BlockIndex)
    requires index.Valid() && |index.journal| < MAX_UINT64
    modifies index
    ensures next == index || fresh(next)
    ensures next.Valid() && next.journal == After(old(index.journal), e)
  {
    hide Put, Accepts, Represents;
    next := index;
    match e
    case PutEvent(m, readFails, writeFails) =>
      PutUnlessAccepted(index.journal, m);
      var r := index.Put(ExtendedMetadata(0, m), readFails, writeFails);
    case CrashInPut(m, written) =>
      PutUnlessAccepted(index.journal, m);
      var r := index.Put(ExtendedMetadata(0, m), false, !written);
      next := Reopened(index.db, index.journal);
    case Reopen =>
      next := Reopened(index.db, index.journal);
  }

  /** What the database holds after each of the events. */
  method LiveAll(events: seq<Event>) returns (index: BlockIndex, ghost disks: seq<Store>)
    requires |events| < MAX_UINT64
    ensures fresh(index) && index.Valid() && index.journal == Outcome(events)
    ensures |disks| == |events| + 1 && disks[|events|] == index.db
    ensures forall n | 0 <= n <= |events| :: Represents(disks[n], Outcome(events[..n]))
  {
    EmptyStore();
    hide Represents, Outcome, After;
    index := Reopened(map[], []);
    var i := 0;
    assert events[..0] == [];
    NoEvents();
    disks := [index.db];
    while i < |events|
      invariant 0 <= i <= |events| && |disks| == i + 1 && disks[i] == index.db
      invariant fresh(index) && index.Valid() && index.journal == Outcome(events[..i])
      invariant forall n | 0 <= n <= i :: Represents(disks[n], Outcome(events[..n]))
    {
      OutcomeLength(events[..i]);
      OutcomeSnoc(events[..i], events[i]);
      assert events[..i] + [events[i]] == events[..i + 1];
      index := Live(index, events[i]);
      i := i + 1;
      disks := disks + [index.db];
    }
    assert events[..i] == events;
  }

  lemma NoEvents()
    ensures Outcome([]) == []
  {
  }

  // ---------- append only ----------

  /** What was there at one time is there, in the same place, at any later time. */
  lemma {:induction false} AppendOnly(events: seq<Event>, n: nat, k: nat)
    requires n <= k <= |events|
    ensures Outcome(events[..n]) <= Outcome(events[..k])
    decreases k
  {
    if n < k {
      AppendOnly(events, n, k - 1);
      assert events[..k] == events[..k - 1] + [events[k - 1]];
      OutcomeSnoc(events[..k - 1], events[k - 1]);
    }
  }

  /** A number that was given out is in a later range exactly when it lies between its ends, and with the same entry. */
  lemma NeverRebound(events: seq<Event>, n: nat, k: nat, number: nat, start: nat, end: nat, e: ExtendedMetadata)
    requires n <= k <= |events| && 1 <= number <= |Outcome(events[..n])| && e.sequenceNumber == number
    ensures e in EntriesBetween(Outcome(events[..k]), start, end)
            <==> start <= number < end && e == Numbered(Outcome(events[..n]), number)
  {
    AppendOnly(events, n, k);
    var j := Outcome(events[..k]);
    hide Outcome;
    assert Numbered(j, number) == Numbered(Outcome(events[..n]), number);
    EntriesAreHalfOpen(j, start, end, number);
    if e in EntriesBetween(j, start, end) {
      InRangeIsNumbered(j, start, end, e);
    }
  }

  lemma InRangeIsNumbered(j: seq<Metadata>, start: nat, end: nat, e: ExtendedMetadata)
    requires e in EntriesBetween(j, start, end)
    ensures 1 <= e.sequenceNumber <= |j| && e == Numbered(j, e.sequenceNumber) && start <= e.sequenceNumber < end
  {
  }
}
