/**
  The stored block index: one ordered map from byte keys to entries holds both the journal and
  the latest entry of every slot. The map stands for the database (atomic batches, iteration in
  byte order, entries encoded without loss). `Put` and the enumerations are proved to refine the
  abstract journal of `Journals`.
 */
module BlockIndexes {
  import opened Results
  import opened ByteOrder
  import opened Oids
  import opened Blocks
  import opened Keys
  import opened Journals

  type Store = map<string, ExtendedMetadata>

  function SlotKey(s: string): string {
    KEY_PREFIX_OID + s
  }

  ghost function SeqKeys(j: seq<Metadata>): set<string>
    requires |j| < TWO_TO_THE_64
  {
    set n | 1 <= n <= |j| :: KeyFromSeq(n)
  }

  ghost function SlotKeys(j: seq<Metadata>): set<string> {
    set s | s in Slots(j) :: SlotKey(s)
  }

  /** The store holds journal `j` and its view, and nothing else. */
  ghost predicate Represents(db: Store, j: seq<Metadata>) {
    && Grown(j)
    && |j| < TWO_TO_THE_64
    && db.Keys == SeqKeys(j) + SlotKeys(j)
    && (forall n | 1 <= n <= |j| :: KeyFromSeq(n) in db && db[KeyFromSeq(n)] == Numbered(j, n))
    && (forall s | s in Slots(j) :: Has(j, s) && SlotKey(s) in db && db[SlotKey(s)] == Numbered(j, LastNumber(j, s)))
  }

  lemma SlotKeyApart(s: string, n: uint64)
    ensures SlotKey(s) != KeyFromSeq(n) && Less(SlotKey(s), KeyFromSeq(n)) && !Less(KeyFromSeq(n), SlotKey(s))
    ensures KEY_PREFIX_OID <= SlotKey(s) && !(KEY_PREFIX_OID <= KeyFromSeq(n))
    ensures KEY_PREFIX_SEQ <= KeyFromSeq(n) && !(KEY_PREFIX_SEQ <= SlotKey(s))
  {
    FamiliesApart(Oid([], 0, s), n);
    assert SlotKey(s)[0] == 'O' && KeyFromSeq(n)[0] == 'S';
  }

  lemma SlotKeyInjective(s: string, t: string)
    ensures SlotKey(s) == SlotKey(t) <==> s == t
    ensures Less(SlotKey(s), SlotKey(t)) <==> Less(s, t)
  {
    assert SlotKey(s)[3..] == s && SlotKey(t)[3..] == t;
    LessUnderPrefix(KEY_PREFIX_OID, s, t);
  }

  /** Looking up a slot key finds the latest entry of the journal, if there is one. */
  lemma SlotLookup(db: Store, j: seq<Metadata>, s: string)
    requires Represents(db, j)
    ensures SlotKey(s) in db <==> Has(j, s)
    ensures Has(j, s) ==> db[SlotKey(s)] == Numbered(j, LastNumber(j, s))
  {
    hide KeyFromSeq, Grown;
    HasIsMembership(j, s);
    if SlotKey(s) in db {
      forall n | 1 <= n <= |j| ensures SlotKey(s) != KeyFromSeq(n) {
        SlotKeyApart(s, n);
      }
      forall t | t in Slots(j) && SlotKey(t) == SlotKey(s) ensures t == s {
        SlotKeyInjective(s, t);
      }
    }
  }

  /** Looking up a journal key finds exactly the entry with that number. */
  lemma SeqLookup(db: Store, j: seq<Metadata>, n: uint64)
    requires Represents(db, j)
    ensures KeyFromSeq(n) in db <==> 1 <= n <= |j|
    ensures 1 <= n <= |j| ==> db[KeyFromSeq(n)] == Numbered(j, n)
  {
    hide KeyFromSeq, Grown;
    forall m | 1 <= m <= |j| ensures KeyFromSeq(m) == KeyFromSeq(n) <==> m == n {
      SeqKeyOrder(m, n);
    }
    forall s | s in Slots(j) ensures SlotKey(s) != KeyFromSeq(n) {
      SlotKeyApart(s, n);
    }
  }

  /** A store represents at most one journal. */
  lemma RepresentsOne(db: Store, j: seq<Metadata>, k: seq<Metadata>)
    requires Represents(db, j) && Represents(db, k)
    ensures j == k
  {
    hide KeyFromSeq;
    SeqLookup(db, j, |k|);
    SeqLookup(db, k, |k|);
    SeqLookup(db, j, |j|);
    SeqLookup(db, k, |j|);
    forall i | 0 <= i < |j| ensures j[i] == k[i] {
      assert db[KeyFromSeq(i + 1)] == Numbered(j, i + 1) == Numbered(k, i + 1);
    }
  }

  /** The atomic batch Put writes. */
  function Batch(db: Store, m: Metadata, number: uint64): Store {
    var md := ExtendedMetadata(number, m);
    db[KeyFromBlockOid(m.oid) := md][KeyFromSeq(number) := md]
  }

  lemma BatchKeys(db: Store, j: seq<Metadata>, m: Metadata)
    requires Represents(db, j) && |j| + 1 < TWO_TO_THE_64
    ensures Batch(db, m, |j| + 1).Keys == SeqKeys(j + [m]) + SlotKeys(j + [m])
  {
    hide KeyFromSeq, Grown, LastNumber;
    var k := j + [m];
    assert Slots(k) == Slots(j) + {m.Slot()};
    assert SeqKeys(k) == SeqKeys(j) + {KeyFromSeq(|k|)};
    assert SlotKeys(k) == SlotKeys(j) + {SlotKey(m.Slot())};
  }

  lemma BatchNumbers(db: Store, j: seq<Metadata>, m: Metadata, n: nat)
    requires Represents(db, j) && 1 <= n <= |j| + 1 < TWO_TO_THE_64
    ensures KeyFromSeq(n) in Batch(db, m, |j| + 1) && Batch(db, m, |j| + 1)[KeyFromSeq(n)] == Numbered(j + [m], n)
  {
    hide KeyFromSeq, Less, Represents;
    SeqLookup(db, j, n);
    SeqKeyOrder(n, |j| + 1);
    SlotKeyApart(m.Slot(), n);
  }

  lemma BatchSlots(db: Store, j: seq<Metadata>, m: Metadata, s: string)
    requires Represents(db, j) && |j| + 1 < TWO_TO_THE_64 && s in Slots(j + [m])
    ensures Has(j + [m], s) && SlotKey(s) in Batch(db, m, |j| + 1)
    ensures Batch(db, m, |j| + 1)[SlotKey(s)] == Numbered(j + [m], LastNumber(j + [m], s))
  {
    hide KeyFromSeq, Less, Represents, LastNumber;
    assert Slots(j + [m]) == Slots(j) + {m.Slot()};
    HasIsMembership(j, s);
    SlotLookup(db, j, s);
    LatestAfterAppend(j, m, s);
    SlotKeyInjective(s, m.Slot());
    SlotKeyApart(s, |j| + 1);
  }

  lemma BatchExtends(db: Store, j: seq<Metadata>, m: Metadata)
    requires Represents(db, j) && Accepts(j, m) && |j| + 1 < TWO_TO_THE_64
    ensures Represents(Batch(db, m, |j| + 1), j + [m])
  {
    PutKeepsGrown(j, m);
    BatchKeys(db, j, m);
    forall n | 1 <= n <= |j| + 1 {
      BatchNumbers(db, j, m, n);
    }
    forall s | s in Slots(j + [m]) {
      BatchSlots(db, j, m, s);
    }
  }

  /** Once the counter has wrapped to zero the store is no journal any more. */
  lemma WrapBreaksTheJournal(db: Store, m: Metadata, k: seq<Metadata>)
    ensures !Represents(Batch(db, m, 0), k)
  {
    if Represents(Batch(db, m, 0), k) {
      SeqLookup(Batch(db, m, 0), k, 0);
    }
  }

  // ---------- ranges of the store ----------

  /** The keys an iterator over [start, limit) visits. */
  function KeysIn(db: Store, start: string, limit: string): set<string> {
    set k | k in db && InRange(k, start, limit)
  }

  function Values(db: Store, keys: seq<string>): (v: seq<ExtendedMetadata>)
    requires forall k | k in keys :: k in db
    ensures |v| == |keys| && forall i | 0 <= i < |keys| :: v[i] == db[keys[i]]
  {
    seq(|keys|, i requires 0 <= i < |keys| => db[keys[i]])
  }

  lemma SortedAreStored(db: Store, start: string, limit: string)
    ensures forall i | 0 <= i < |Sorted(KeysIn(db, start, limit))| :: Sorted(KeysIn(db, start, limit))[i] in db
    ensures forall k | k in Sorted(KeysIn(db, start, limit)) :: k in db
  {
    SortedIsAscending(KeysIn(db, start, limit));
    hide Sorted, InRange;
    var s := Sorted(KeysIn(db, start, limit));
    forall i | 0 <= i < |s| ensures s[i] in db {
      assert s[i] in s;
    }
  }

  function SeqKeysBetween(j: seq<Metadata>, start: nat, end: nat): (s: seq<string>)
    requires |j| < TWO_TO_THE_64
    ensures |s| == |EntriesBetween(j, start, end)|
    ensures forall i | 0 <= i < |s| :: s[i] == KeyFromSeq(EntriesBetween(j, start, end)[i].sequenceNumber)
  {
    var e := EntriesBetween(j, start, end);
    seq(|e|, i requires 0 <= i < |e| => KeyFromSeq(e[i].sequenceNumber))
  }

  lemma SeqKeyInRange(db: Store, j: seq<Metadata>, start: uint64, end: uint64, n: uint64)
    requires Represents(db, j)
    ensures KeyFromSeq(n) in KeysIn(db, KeyFromSeq(start), KeyFromSeq(end)) <==> 1 <= n <= |j| && start <= n < end
  {
    hide KeyFromSeq, Less, Represents;
    SeqLookup(db, j, n);
    SeqKeyOrder(n, start);
    SeqKeyOrder(n, end);
  }

  /** Every stored key is a slot key or a journal key. */
  lemma KeyFamilies(db: Store, j: seq<Metadata>, k: string)
    requires Represents(db, j) && k in db
    ensures (exists s :: s in Slots(j) && k == SlotKey(s)) || (exists n :: 1 <= n <= |j| && k == KeyFromSeq(n))
  {
    assert k in SeqKeys(j) + SlotKeys(j);
  }

  lemma SeqRangeKeys(db: Store, j: seq<Metadata>, start: uint64, end: uint64, k: string)
    requires Represents(db, j)
    ensures k in SeqKeysBetween(j, start, end) <==> k in KeysIn(db, KeyFromSeq(start), KeyFromSeq(end))
  {
    assert |j| < TWO_TO_THE_64;
    hide *;
    if k in KeysIn(db, KeyFromSeq(start), KeyFromSeq(end)) {
      SeqKeyIsListed(db, j, start, end, k);
    }
    if k in SeqKeysBetween(j, start, end) {
      ListedSeqKey(db, j, start, end, k);
    }
  }

  lemma SeqKeyIsListed(db: Store, j: seq<Metadata>, start: uint64, end: uint64, k: string)
    requires Represents(db, j) && k in KeysIn(db, KeyFromSeq(start), KeyFromSeq(end))
    ensures k in SeqKeysBetween(j, start, end)
  {
    assert |j| < TWO_TO_THE_64;
    var e := EntriesBetween(j, start, end);
    assert k in db && InRange(k, KeyFromSeq(start), KeyFromSeq(end));
    hide KeyFromSeq, Less, Represents, EntriesBetween, SeqKeysBetween, KeysIn, SlotKey, Slots;
    KeyFamilies(db, j, k);
    if t :| t in Slots(j) && k == SlotKey(t) {
      SlotKeyApart(t, start);
      assert false;
    }
    var n :| 1 <= n <= |j| && k == KeyFromSeq(n);
    SeqKeyInRange(db, j, start, end, n);
    EntriesAreHalfOpen(j, start, end, n);
    var i :| 0 <= i < |e| && e[i] == Numbered(j, n);
    assert SeqKeysBetween(j, start, end)[i] == k;
  }

  lemma ListedSeqKey(db: Store, j: seq<Metadata>, start: uint64, end: uint64, k: string)
    requires Represents(db, j) && |j| < TWO_TO_THE_64 && k in SeqKeysBetween(j, start, end)
    ensures k in KeysIn(db, KeyFromSeq(start), KeyFromSeq(end))
  {
    hide KeyFromSeq, Less, Represents, EntriesBetween, SeqKeysBetween, KeysIn;
    var s, e := SeqKeysBetween(j, start, end), EntriesBetween(j, start, end);
    var i :| 0 <= i < |s| && s[i] == k;
    EntriesAreHalfOpen(j, start, end, e[i].sequenceNumber);
    SeqKeyInRange(db, j, start, end, e[i].sequenceNumber);
  }

  /** Between two journal keys lie exactly the journal keys with numbers in the half-open range. */
  lemma SeqRange(db: Store, j: seq<Metadata>, start: uint64, end: uint64)
    requires Represents(db, j)
    ensures Sorted(KeysIn(db, KeyFromSeq(start), KeyFromSeq(end))) == SeqKeysBetween(j, start, end)
    ensures forall k | k in SeqKeysBetween(j, start, end) :: k in db
    ensures Values(db, SeqKeysBetween(j, start, end)) == EntriesBetween(j, start, end)
  {
    assert |j| < TWO_TO_THE_64;
    hide KeyFromSeq, Less, Represents, SeqKeysBetween, EntriesBetween, Values, KeysIn, Sorted;
    SeqKeysAscend(j, start, end);
    forall k {
      SeqRangeKeys(db, j, start, end, k);
    }
    SortedIsUnique(SeqKeysBetween(j, start, end), KeysIn(db, KeyFromSeq(start), KeyFromSeq(end)));
    SeqValues(db, j, start, end);
  }

  lemma SeqKeysAscend(j: seq<Metadata>, start: uint64, end: uint64)
    requires |j| < TWO_TO_THE_64
    ensures var s := SeqKeysBetween(j, start, end); forall a, b | 0 <= a < b < |s| :: Less(s[a], s[b])
  {
    hide KeyFromSeq, Less;
    var s, e := SeqKeysBetween(j, start, end), EntriesBetween(j, start, end);
    hide SeqKeysBetween, EntriesBetween;
    forall a, b | 0 <= a < b < |s| ensures Less(s[a], s[b]) {
      SeqKeyOrder(e[a].sequenceNumber, e[b].sequenceNumber);
    }
  }

  lemma SeqValues(db: Store, j: seq<Metadata>, start: uint64, end: uint64)
    requires Represents(db, j)
    ensures forall k | k in SeqKeysBetween(j, start, end) :: k in db
    ensures Values(db, SeqKeysBetween(j, start, end)) == EntriesBetween(j, start, end)
  {
    hide KeyFromSeq, Grown, SeqKeys, SlotKeys, SeqKeysBetween, EntriesBetween, Values;
    var s, e := SeqKeysBetween(j, start, end), EntriesBetween(j, start, end);
    assert forall i | 0 <= i < |s| :: s[i] in db && db[s[i]] == e[i];
    assert Values(db, s) == e;
  }

  /** The latest entries, one per slot, by ascending slot. */
  ghost function ViewInOrder(j: seq<Metadata>): (v: seq<ExtendedMetadata>)
    ensures |v| == |Slots(j)| == |Sorted(Slots(j))|
    ensures forall i | 0 <= i < |v| ::
              var s := Sorted(Slots(j))[i]; Has(j, s) && v[i] == Numbered(j, LastNumber(j, s))
  {
    SortedIsAscending(Slots(j));
    var s := Sorted(Slots(j));
    assert forall i | 0 <= i < |s| :: Has(j, s[i]) by {
      forall i | 0 <= i < |s| ensures Has(j, s[i]) {
        assert s[i] in s;
        HasIsMembership(j, s[i]);
      }
    }
    seq(|s|, i requires 0 <= i < |s| => Numbered(j, LastNumber(j, s[i])))
  }

  lemma SlotRangeKeys(db: Store, j: seq<Metadata>, k: string)
    requires Represents(db, j)
    ensures k in KeysIn(db, KEY_PREFIX_OID, PrefixLimit(KEY_PREFIX_OID)) <==> k in SlotKeys(j)
  {
    hide KeyFromSeq, Less, Grown;
    PrefixRange(k, KEY_PREFIX_OID);
    if k in db {
      KeyFamilies(db, j, k);
      if n :| 1 <= n <= |j| && k == KeyFromSeq(n) {
        SlotKeyApart("", n);
        forall s | s in Slots(j) {
          SlotKeyApart(s, n);
        }
      } else {
        var s :| s in Slots(j) && k == SlotKey(s);
        SlotKeyApart(s, 0);
      }
    }
  }

  /** The keys with the OID prefix are exactly the slot keys, in the order of their slots. */
  lemma SlotRange(db: Store, j: seq<Metadata>)
    requires Represents(db, j)
    ensures var keys := KeysIn(db, KEY_PREFIX_OID, PrefixLimit(KEY_PREFIX_OID));
            (forall k | k in Sorted(keys) :: k in db) && Values(db, Sorted(keys)) == ViewInOrder(j)
  {
    hide Represents, KeysIn, PrefixLimit, SlotKeys, Sorted, Less, Values, ViewInOrder;
    var keys, s := KeysIn(db, KEY_PREFIX_OID, PrefixLimit(KEY_PREFIX_OID)), SlotKeysInOrder(j);
    forall k ensures k in s <==> k in keys {
      SlotRangeKeys(db, j, k);
      ListedSlotKey(j, k);
    }
    SortedIsUnique(s, keys);
    SlotValues(db, j);
  }

  ghost function SlotKeysInOrder(j: seq<Metadata>): (s: seq<string>)
    ensures |s| == |Sorted(Slots(j))| && forall i | 0 <= i < |s| :: s[i] == SlotKey(Sorted(Slots(j))[i])
    ensures forall a, b | 0 <= a < b < |s| :: Less(s[a], s[b])
  {
    var slots := Sorted(Slots(j));
    SortedIsAscending(Slots(j));
    var s := seq(|slots|, i requires 0 <= i < |slots| => SlotKey(slots[i]));
    assert forall a, b | 0 <= a < b < |s| :: Less(s[a], s[b]) by {
      hide Less, Slots, Sorted;
      forall a, b | 0 <= a < b < |s| ensures Less(s[a], s[b]) {
        SlotKeyInjective(slots[a], slots[b]);
      }
    }
    s
  }

  lemma ListedSlotKey(j: seq<Metadata>, k: string)
    ensures k in SlotKeysInOrder(j) <==> k in SlotKeys(j)
  {
    var s, slots := SlotKeysInOrder(j), Sorted(Slots(j));
    SortedIsAscending(Slots(j));
    hide Sorted, Less, SlotKey, SlotKeysInOrder, Slots;
    if k in SlotKeys(j) {
      var t :| t in Slots(j) && k == SlotKey(t);
      assert t in slots;
      var i :| 0 <= i < |slots| && slots[i] == t;
      assert s[i] == k;
    }
    if k in s {
      var i :| 0 <= i < |s| && s[i] == k;
      assert slots[i] in slots;
    }
  }

  lemma SlotValues(db: Store, j: seq<Metadata>)
    requires Represents(db, j)
    ensures (forall k | k in SlotKeysInOrder(j) :: k in db) && Values(db, SlotKeysInOrder(j)) == ViewInOrder(j)
  {
    var s, slots := SlotKeysInOrder(j), Sorted(Slots(j));
    SortedIsAscending(Slots(j));
    hide Sorted, Less, SlotKeysInOrder, Grown, KeyFromSeq, ViewInOrder, Values, SlotKeys, SeqKeys, SlotKey;
    forall i | 0 <= i < |s| ensures s[i] in db && db[s[i]] == ViewInOrder(j)[i] {
      assert slots[i] in slots;
    }
    assert Values(db, s) == ViewInOrder(j);
  }

  lemma SeqPrefixed(db: Store, j: seq<Metadata>, k: string)
    requires Represents(db, j) && k in db && KEY_PREFIX_SEQ <= k
    ensures exists n :: 1 <= n <= |j| && k == KeyFromSeq(n)
  {
    KeyFamilies(db, j, k);
    hide KeyFromSeq, Represents;
    forall t {
      SlotKeyApart(t, 0);
    }
  }

  ghost predicate IsGreatest(k: string, keys: set<string>) {
    k in keys && forall x | x in keys :: AtMost(x, k)
  }

  /** The last key with the journal prefix carries the largest number. */
  lemma LastSeqKey(db: Store, j: seq<Metadata>, last: string)
    requires Represents(db, j)
    requires IsGreatest(last, KeysIn(db, KEY_PREFIX_SEQ, PrefixLimit(KEY_PREFIX_SEQ)))
    ensures 0 < |j| < TWO_TO_THE_64 && last == KeyFromSeq(|j|)
  {
    assert |j| < TWO_TO_THE_64;
    PrefixRange(last, KEY_PREFIX_SEQ);
    hide Less, KeyFromSeq, Represents, PrefixLimit, InRange;
    SeqPrefixed(db, j, last);
    var n :| 1 <= n <= |j| && last == KeyFromSeq(n);
    SeqKeysArePrefixed(db, j);
    SeqKeyOrder(n, |j|);
    LessIsTotal(KeyFromSeq(|j|), last);
  }

  lemma SeqKeysArePrefixed(db: Store, j: seq<Metadata>)
    requires Represents(db, j) && j != []
    ensures KeyFromSeq(|j|) in KeysIn(db, KEY_PREFIX_SEQ, PrefixLimit(KEY_PREFIX_SEQ))
  {
    hide Less, Grown, KeyFromSeq;
    SlotKeyApart("", |j|);
    PrefixRange(KeyFromSeq(|j|), KEY_PREFIX_SEQ);
  }

  lemma GreatestExists(keys: set<string>)
    requires keys != {}
    ensures exists k :: k in keys && forall x | x in keys :: AtMost(x, k)
  {
    SortedIsAscending(keys);
    var s := Sorted(keys);
    var k := s[|s| - 1];
    assert k in s;
    forall x | x in keys ensures AtMost(x, k) {
      assert x in s;
    }
  }

  class BlockIndex {
    var db: Store
    var lastSeq: uint64
    ghost var journal: seq<Metadata>

    ghost predicate Valid()
      reads this
    {
      Represents(db, journal) && lastSeq == |journal|
    }

    constructor (db: Store, lastSeq: uint64, ghost journal: seq<Metadata>)
      ensures this.db == db && this.lastSeq == lastSeq && this.journal == journal
    {
      this.db, this.lastSeq, this.journal := db, lastSeq, journal;
    }

    /**
      Opening a database recovers the counter from the last journal key. Whatever journal the
      database represents, the reopened index carries it on.
     */
    static method NewBlockIndex(disk: Store, openFails: bool, ghost journal: seq<Metadata>) returns (index: BlockIndex?)
      ensures openFails ==> index == null
      ensures !openFails && Represents(disk, journal) ==>
                index != null && fresh(index) && index.Valid() && index.db == disk && index.journal == journal
      ensures index == null ==> openFails || exists k :: k in disk && KEY_PREFIX_SEQ <= k && SeqFromKey(k).Err?
    {
      if openFails {
        return null;
      }
      var keys := KeysIn(disk, KEY_PREFIX_SEQ, PrefixLimit(KEY_PREFIX_SEQ));
      var maxSeq: uint64 := 0;
      if keys != {} {
        GreatestExists(keys);
        var last :| last in keys && forall k | k in keys :: AtMost(k, last);
        var parsed := SeqFromKey(last);
        if Represents(disk, journal) {
          LastSeqKey(disk, journal, last);
          SeqKeyRoundTrip(|journal|);
        }
        if parsed.Err? {
          PrefixRange(last, KEY_PREFIX_SEQ);
          return null;
        }
        maxSeq := parsed.value;
      } else if Represents(disk, journal) && journal != [] {
        SeqKeysArePrefixed(disk, journal);
      }
      index := new BlockIndex(disk, maxSeq, journal);
    }

    method GetByOid(oid: Oid, readFails: bool) returns (r: Result<ExtendedMetadata>)
      ensures r.Ok? ==> r.value.metadata.oid == oid
      ensures readFails ==> r == Err(Io)
      ensures Valid() && !readFails ==>
                r == if !Journals.Has(journal, oid.s) then Err(NotFound)
                     else if Latest(journal, oid.s).oid != oid then Err(Corrupted)
                     else Ok(Numbered(journal, LastNumber(journal, oid.s)))
    {
      if Valid() {
        SlotLookup(db, journal, oid.s);
      }
      if readFails {
        return Err(Io);
      }
      if KeyFromBlockOid(oid) !in db {
        return Err(NotFound);
      }
      var md := db[KeyFromBlockOid(oid)];
      if md.metadata.oid != oid {
        return Err(Corrupted);
      }
      return Ok(md);
    }

    method GetBySeq(number: uint64, readFails: bool) returns (r: Result<ExtendedMetadata>)
      ensures r.Ok? ==> r.value.sequenceNumber == number
      ensures readFails ==> r == Err(Io)
      ensures Valid() && !readFails ==> r == if 1 <= number <= |journal| then Ok(Numbered(journal, number)) else Err(NotFound)
    {
      if Valid() {
        SeqLookup(db, journal, number);
      }
      if readFails {
        return Err(Io);
      }
      if KeyFromSeq(number) !in db {
        return Err(NotFound);
      }
      var md := db[KeyFromSeq(number)];
      if md.sequenceNumber != number {
        return Err(Corrupted);
      }
      return Ok(md);
    }

    /**
      A database read or write may fail. Every other Put leaves the journal that `Journals.Put`
      describes, except that the counter wraps after 2^64 - 1 entries.
     */
    method Put(metadata: ExtendedMetadata, readFails: bool, writeFails: bool) returns (r: Result<ExtendedMetadata>)
      requires Valid()
      modifies this
      ensures r.Err? <==> readFails || (writeFails && Accepts(old(journal), metadata.metadata))
      ensures r.Err? ==> Valid() && db == old(db) && journal == old(journal)
      ensures r.Ok? && (old(lastSeq) < MAX_UINT64 || !Accepts(old(journal), metadata.metadata)) ==>
                Valid() && journal == Journals.Put(old(journal), metadata.metadata) && r.value == Filed(old(journal), metadata.metadata)
      ensures r.Ok? && old(lastSeq) == MAX_UINT64 && Accepts(old(journal), metadata.metadata) ==>
                lastSeq == 0 && forall k :: !Represents(db, k)
    {
      hide KeyFromSeq, Represents;
      var oid := metadata.metadata.oid;
      SlotLookup(db, journal, oid.s);
      if readFails {
        return Err(Io);
      }
      if KeyFromBlockOid(oid) in db {
        var existing := db[KeyFromBlockOid(oid)];
        if IsMetadataEqual(existing.metadata, metadata.metadata) {
          return Ok(existing);
        }
        if existing.metadata.updateTime > metadata.metadata.updateTime {
          return Ok(existing);
        }
      }
      var newSeq := Add64(lastSeq, 1);
      var md := ExtendedMetadata(newSeq, metadata.metadata);
      if writeFails {
        return Err(Io);
      }
      if lastSeq == MAX_UINT64 {
        forall k ensures !Represents(Batch(db, metadata.metadata, 0), k) {
          WrapBreaksTheJournal(db, metadata.metadata, k);
        }
      } else {
        BatchExtends(db, journal, metadata.metadata);
        journal := journal + [metadata.metadata];
      }
      db := Batch(db, metadata.metadata, newSeq);
      lastSeq := newSeq;
      return Ok(md);
    }

    method Has(oid: Oid, readFails: bool) returns (r: Result<bool>)
      ensures readFails ==> r == Err(Io)
      ensures Valid() && !readFails ==> r == Ok(Journals.Has(journal, oid.s))
    {
      if Valid() {
        SlotLookup(db, journal, oid.s);
      }
      return if readFails then Err(Io) else Ok(KeyFromBlockOid(oid) in db);
    }

    /** Walks the iterator over [start, limit) from the least key upwards. */
    method Collect(start: string, limit: string) returns (results: seq<ExtendedMetadata>)
      ensures forall k | k in Sorted(KeysIn(db, start, limit)) :: k in db
      ensures results == Values(db, Sorted(KeysIn(db, start, limit)))
    {
      SortedAreStored(db, start, limit);
      hide KeysIn, Sorted, Ascending;
      var rest := KeysIn(db, start, limit);
      ghost var all := Sorted(rest);
      results := [];
      while rest != {}
        invariant |results| <= |all| && all[|results|..] == Sorted(rest)
        invariant forall i | 0 <= i < |results| :: results[i] == db[all[i]]
        decreases |rest|
      {
        LeastExists(rest);
        hide Less;
        var key :| key in rest && forall k | k in rest :: AtMost(key, k);
        SortedFromLeast(key, rest);
        assert all[|results|] == key;
        results := results + [db[key]];
        rest := rest - {key};
      }
      SortedIsAscending({});
    }

    /** The half-open range: `end` itself is not included. */
    method EnumerateBySeq(start: uint64, end: uint64) returns (r: Result<seq<ExtendedMetadata>>)
      ensures r.Err? <==> start > end
      ensures Valid() && start <= end ==> r == Ok(EntriesBetween(journal, start, end))
    {
      if start > end {
        return Err(InvalidRange);
      }
      if Valid() {
        SeqRange(db, journal, start, end);
      }
      var results := Collect(KeyFromSeq(start), KeyFromSeq(end));
      return Ok(results);
    }

    method Enumerate() returns (results: seq<ExtendedMetadata>)
      ensures Valid() ==> results == ViewInOrder(journal)
    {
      if Valid() {
        SlotRange(db, journal);
      }
      results := Collect(KEY_PREFIX_OID, PrefixLimit(KEY_PREFIX_OID));
    }

    method GetSeq() returns (number: uint64)
      ensures Valid() ==> number == |journal|
    {
      number := lastSeq;
    }
  }
}
