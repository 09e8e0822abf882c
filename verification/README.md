# Verification model of juren

juren is a peer-to-peer block store. Every node keeps an index of block metadata, tells the others
how far its index has grown, and pulls from them what it has not seen. This project models the three
parts of it that carry the hard guarantees and proves what they promise:

* **The replicated block index** (`Journal`, `Merge`, `Gossip*`, `Swarm`). Each node has a journal of
  metadata changes under local numbers, the latest entry per object, and one watermark per peer. A
  node that hears of a larger number pulls the missing range in batches of 100, merges each entry with
  `Put`, which may append to its own journal, and records the watermark. `Swarm` has the sync loop as
  a method over objects that other goroutines may write to. `Gossip` has any number of nodes as a step
  system: a step is one section under a mutex, one request or one message, so a run is any
  interleaving of sections with lost, repeated, delayed and reordered messages, failing disks and
  calls, and crashes. Restarting a node is a crash that keeps what is on disk; `Lifetimes` proves that the
  stored index does so over any number of failing writes, crashes and reopenings. `GossipMirrors` ties
  the loop to the steps: every ending of a sync is that of a run of the step system.
* **The stored index under it** (`Oid`, `Keys`, `ByteOrder`, `Radix`, `BlockIndex`, `NodeIndex`, `Lifetimes`). One
  ordered map from byte keys to records holds the journal (fixed-width hexadecimal keys) and the
  latest entries (base32 keys). The class `BlockIndex` is proved to refine the abstract journal.
* **The RPC connection** (`Crpc*`). `Crpc` has one connection as a step system: any number of senders,
  the input loop, `Close`, and the server's loop, over two streams of items without framing.
  `CrpcClient` has the client as an object with mutable fields, `CrpcServer` the server's loop as a
  method; what they do is proved to be a run of that system.

`Availability` has the table behind `WhoHas`.

## Reading order

`Journal` and `Merge` give the meaning of the index, `Gossip` the protocol and its invariant,
`GossipRuns` what holds in every run, `GossipNews` what discovery answers say and who is listed, `GossipConvergence` that a silent swarm agrees,
`GossipTermination` that it falls silent, `GossipStretches` that news reaches all nodes in any run in
which syncs keep ending well, `GossipSweeps` the schedules of undisturbed syncs and the case that
never settles, `GossipFaults` what a failing read does to a watermark. `Crpc`, `CrpcDelivery`, `CrpcCorrelation`, `CrpcOnce` and `CrpcLimits` do the same for
connections: what always holds, what holds under three conditions, and that all three are needed.

## What the proofs found

* What merging leaves does not depend on order and repetition exactly when each slot has one newest
  version. `Put` overwrites on *equal* times with different content (datastore/leveldb/blockindex.go:134), whereas
  docs/concepts.md:108 asks for a newer time. Two nodes with such versions overwrite each other for
  ever, and each exchange makes both journals longer (`GossipSweeps.RivalsNeverSettle`,
  `GossipSweeps.SettlesUnlessRivals`, `Merging.MergeOrder`).
* `EnumerateBySeq` excludes the end of its range (datastore/leveldb/blockindex.go:204); the interface
  comment says it includes it (datamodel/block/block.go:83). The sync loop relies on the former.
* Any error from `NodeIndex.Get`, not only "not found", counts as "never seen"
  (swarm/node/node.go:133-140), and the sync starts from 0. That can lower the watermark exactly when
  the announcement says 0 and the watermark is not 0, or it says more and the watermark is above 100:
  the first batch recorded sets it to 100 (`GossipFaults.ReadFaultLowersExactly`,
  `GossipFaults.FirstBatchLowers`, `GossipSweeps.ReadFaultForgets`). Without failing reads no watermark
  ever goes back. Soundness of watermarks and convergence hold either way.
* A journal of 2^64 - 1 entries wraps its counter to 0, after which the store represents no journal
  (`BlockIndexes.WrapBreaksTheJournal`).
* `Encode` keeps all of an `int` type in the struct but one byte of it in the text, so text and struct
  agree exactly for types 0 to 255 (`Oids.RoundTrip`). docs/concepts.md:25-29 has the layout version,
  padding, type; the code has type, padding, padding (oid/oid.go:27), and the model follows the code.
* An RPC method that fails with an empty text is taken for a success, and the next header on the stream
  for its body (`CrpcCorrelation.Framing`). `send` writes header and arguments outside the mutex
  (net/crpc/client.go:53-66); two headers in a row make the server take the second for arguments, and
  arguments that fail to encode do the same. Calls and outcomes correlate exactly when none of the three
  can happen (`CrpcLimits.CorrelationExactly`).

## Assumptions

The database is a map with atomic batches that iterates in byte order; encoding and decoding a record
gives the same record. Update times are integers. A method of a server is a function that returns,
fails or panics. A decoder that meets an item of another kind may make anything of it. Serialised
sends, encodable arguments and errors with a text are parameters of the connection's configuration,
not assumptions of the model.

## Model

| member | source | states |
|---|---|---|
| Base32.GroupsOfEncode | oid/oid.go:99 | Decoding the base32 text (section 6 of RFC 4648) of any whole groups of five bytes gives the bytes back. |
| Base32.EncodeOfDecode | oid/oid.go:106 | Any text that decodes to whole groups is the encoding of what it decodes to: no second spelling. |
| Base32.EncodeInjective | oid/oid.go:99 | The text of whole groups determines the bytes. |
| Base32.EncodeKeepsValue | oid/oid.go:99 | The text of whole groups, read in the literal alphabet of RFC 4648, is the same number in base 32 as the bytes are in base 256. |
| Oids.UnmarshalBinary | oid/oid.go:50-68 | Accepts exactly 35 bytes with two zero padding bytes, and then all three fields agree with the input; an empty input has its own error, and a failure leaves the receiver as it was but for the type set before the padding is looked at. |
| Oids.FromText | oid/oid.go:105-116 | Parsing the text of 35 bytes gives their OID when the padding is right and the invalid-string error otherwise. |
| Oids.RoundTrip | oid/oid.go:88-116 | Printing and parsing gives the same OID back if and only if the type is within 0 to 255; otherwise the OID with the truncated type. |
| Oids.AcceptedStrings | oid/oid.go:105-116 | Accepted strings are exactly the texts of well-padded identifiers up to line breaks; they are 56 characters long and equal their own `String()`. |
| Oids.TextCarries | oid/oid.go:88-116 | The text of an identifier parses to the low byte of its type, two zero bytes and its hash. |
| Oids.EncodeTellsApart | oid/oid.go:88-103 | Two identifiers are equal if and only if their types and hashes are; their texts, if and only if the low type bytes and the hashes are. |
| Oids.ThreeEqualities | oid/oid.go:143-151 | For the OIDs the package hands out, struct equality, `Equal` and equality of texts coincide. |
| Keys.SeqKeyRoundTrip | datastore/leveldb/leveldb.go:32-48 | Parsing the key of any 64-bit number gives the number back. |
| Keys.SeqKeyText | datastore/leveldb/leveldb.go:32-34 | A journal key is SEQ and the number in sixteen lower-case hexadecimal digits. |
| Keys.KeysThatParse | datastore/leveldb/leveldb.go:36-48 | The keys that parse are exactly those of 19 characters with the prefix and a digit behind it. |
| Keys.SeqKeyOrder | datastore/leveldb/leveldb.go:32-34 | The byte order of journal keys is the order of their numbers; equal keys mean equal numbers. |
| Keys.FamiliesApart | datastore/leveldb/leveldb.go:24-34 | OID keys and journal keys never meet, and the former sort first. |
| Keys.NodeKeysApart | datastore/leveldb/leveldb.go:24-34 | Keys of nodes meet neither keys of blocks nor journal keys, and two are equal exactly when the texts are. |
| Keys.OidKeys | datastore/leveldb/leveldb.go:24-26 | Two OIDs share a key exactly when their texts agree; for OIDs from the constructors, exactly when they are equal. |
| Keys.PrefixRange | datastore/leveldb/blockindex.go:36 | The range derived from a prefix holds exactly the keys with that prefix. |
| Journals.LatestIsNewest | datastore/leveldb/blockindex.go:133-137 | In a journal that `Put` can produce, the latest entry of a slot is at least as new as every other entry of it. |
| Journals.GrownIsOrdered | datastore/leveldb/blockindex.go:127-137 | The journals `Put` can produce are exactly those whose times never go back per slot and whose consecutive entries of a slot differ. |
| Journals.ReplayReproduces | datastore/leveldb/blockindex.go:110-173 | Replaying a journal into an empty index reproduces it entry by entry exactly when `Put` could have produced it. |
| Journals.PutDominates | datastore/leveldb/blockindex.go:123-172 | After `Put` the index holds the value or a version at least as new. |
| Journals.PutKeepsDominated | datastore/leveldb/blockindex.go:134-137 | What the index dominates it still dominates after any `Put`. |
| Journals.PutAllKeepsDominated | datastore/leveldb/blockindex.go:134-137 | The same over any sequence of `Put`s. |
| Journals.PutAllDominates | datastore/leveldb/blockindex.go:110-173 | After a sequence of `Put`s the index dominates every value in it. |
| Journals.PutAllHoldsOnly | datastore/leveldb/blockindex.go:144-148 | Merging adds nothing but values that were put. |
| Journals.EntriesAreHalfOpen | datastore/leveldb/blockindex.go:190-221 | Entry n is in the range exactly when start <= n < end and n is a number of the journal. |
| Journals.BatchAfter | swarm/node/server.go:17 | The range a sync asks for next is exactly the next entries of the peer's journal, as many as a batch takes or as are left. |
| Merging.ViewHoldsNewest | datastore/leveldb/blockindex.go:123-172 | Merging any listing of a set, in any order and with repetitions, leaves for every slot a newest version of it. |
| Merging.MergeOrder | datastore/leveldb/blockindex.go:123-172 | The outcome is the same for all listings of a set if and only if each slot has one newest version. |
| Merging.WritesWhenNotDominated | datastore/leveldb/blockindex.go:127-137 | With distinct times `Put` writes exactly when the index does not dominate the value yet. |
| Merging.RefetchWritesNothing | swarm/node/node.go:197-203 | With distinct times, merging a batch again that was merged before leaves the journal as it is. |
| BlockIndexes.SlotLookup | datastore/leveldb/blockindex.go:63 | A look-up by OID key finds the latest journal entry of the slot, and nothing exactly when there is none. |
| BlockIndexes.SeqLookup | datastore/leveldb/blockindex.go:89 | A look-up by number finds exactly the journal entry with that number; numbers are 1 to the counter. |
| BlockIndexes.RepresentsOne | datastore/leveldb/blockindex.go:159-161 | A database represents at most one journal. |
| BlockIndexes.BatchExtends | datastore/leveldb/blockindex.go:156-167 | The batch of an accepted `Put` turns a database of a journal into one of the journal with the value appended. |
| BlockIndexes.WrapBreaksTheJournal | datastore/leveldb/blockindex.go:142 | A batch under the wrapped number 0 leaves a database that represents no journal. |
| BlockIndexes.SeqRange | datastore/leveldb/blockindex.go:198-204 | In byte order, the keys between two journal keys are exactly those of the half-open range of numbers, ascending. |
| BlockIndexes.SlotRange | datastore/leveldb/blockindex.go:230 | The keys with the OID prefix are exactly one per slot, in the order of the texts, each with the latest entry. |
| BlockIndexes.LastSeqKey | datastore/leveldb/blockindex.go:36-47 | The last journal key in byte order is the key of the number of entries. |
| BlockIndexes.BlockIndex.NewBlockIndex | datastore/leveldb/blockindex.go:28-56 | Opening a database that represents a journal gives an index with that journal and counter; it fails when the database cannot be opened, and otherwise only on a journal key that does not parse. |
| BlockIndexes.BlockIndex.GetByOid | datastore/leveldb/blockindex.go:58-82 | Returns the latest journal entry of the OID with its number, or the error the journal implies; a failing read is an error. |
| BlockIndexes.BlockIndex.GetBySeq | datastore/leveldb/blockindex.go:84-108 | Returns the journal entry with the number, or not found exactly outside 1 to the counter; a failing read is an error. |
| BlockIndexes.BlockIndex.Put | datastore/leveldb/blockindex.go:110-173 | Refines `Journals.Put`: appends, or keeps and returns the entry on file; any failure leaves database and journal as they were; at the largest counter the database stops being a journal. |
| BlockIndexes.BlockIndex.Has | datastore/leveldb/blockindex.go:175-188 | True exactly when the journal has an entry for the OID; a failing read is an error. |
| BlockIndexes.BlockIndex.Collect | datastore/leveldb/blockindex.go:203-220 | The iterator loop returns the records of the range in ascending key order, each once. |
| BlockIndexes.BlockIndex.EnumerateBySeq | datastore/leveldb/blockindex.go:190-221 | Returns exactly the journal entries with start <= number < end, ascending; an error exactly when start exceeds end. |
| BlockIndexes.BlockIndex.Enumerate | datastore/leveldb/blockindex.go:223-247 | Returns exactly the latest entries, one per slot, in the order of the texts. |
| BlockIndexes.BlockIndex.GetSeq | datastore/leveldb/blockindex.go:249-253 | Returns the number of journal entries. |
| Lifetimes.Live | datastore/leveldb/blockindex.go:110-173 | A `Put` that succeeds or fails, a crash before or after its batch, or a reopening leaves an index whose journal is the one the event should lead to. |
| Lifetimes.LiveAll | datastore/leveldb/blockindex.go:28-56 | After each of any list of such events, the database represents the journal the events so far lead to. |
| Lifetimes.AppendOnly | datastore/leveldb/blockindex.go:35-54 | The journals along such a list are prefixes of one another. |
| Lifetimes.NeverRebound | datastore/leveldb/blockindex.go:141-170 | A number given out once is in every later range around it, always with the same entry, and in no other range. |
| NodeIndexes.NodeIndex.Get | datastore/leveldb/nodeindex.go:38-62 | Returns the watermark on file; without a failing read, an error means that the watermark counts as 0. |
| NodeIndexes.NodeIndex.Put | datastore/leveldb/nodeindex.go:64-80 | Stores the watermark of one peer and leaves those of all others; a failing write changes nothing. |
| Swarm.PeerSync | swarm/node/server.go:15-24 | Serves exactly the half-open range of the journal, and refuses exactly the requests whose end does not fit 64 bits. |
| Swarm.ApplyBatch | swarm/node/node.go:197-207 | A batch that is applied to the end leaves everything in it dominated and the last number seen, whatever else writes to the index meanwhile; undisturbed, the journal is exactly the merge of the batch. |
| Swarm.Fetch | swarm/node/node.go:177-188 | A response is the next part of the peer's journal as it is when the peer answers, a full batch or all that is left. |
| Swarm.PullBatches | swarm/node/node.go:172-224 | However the loop ends, the watermark is sound; if it breaks off, every full batch before the call under way was recorded; if it ends well, the watermark is the peer's number at the last response and at least the announced one; an undisturbed loop makes (S - w) / 100 + 1 calls, also for exact multiples of 100. |
| Swarm.SyncBlockIndexAndUpdateMetadata | swarm/node/node.go:122-232 | Which ending each announcement leads to, that every ending keeps the watermark sound and those of other peers untouched, that a finished sync has at least what was announced and an unfinished one has recorded every full batch before its last call, its exact effect and cost when nothing else writes, and that its ending is that of a run of the protocol, of one without puts of others when there are none. |
| GossipMirrors.Opens | swarm/node/node.go:133-170 | What the opening of a sync does to journals, watermark and place in the loop is what a step of the protocol does. |
| GossipMirrors.Asks | swarm/node/node.go:177-195 | The same for a request and its answer, from the peer's journal as it is then. |
| GossipMirrors.Applies | swarm/node/node.go:197-207 | The same for merging one entry. |
| GossipMirrors.Records | swarm/node/node.go:209-223 | The same for recording a batch, after which the sync ends or asks again. |
| GossipMirrors.ApplyFails | swarm/node/node.go:201-203 | A failing put ends the sync with journals and watermark as they were, as in the protocol. |
| GossipMirrors.RecordFails | swarm/node/node.go:216-218 | So does a failing record of a batch. |
| GossipMirrors.SomeFrame | swarm/node/node.go:122-232 | Any two journals, watermark and announcement are those of some state of the protocol, so the tie excludes no call of the sync. |
| Gossip.StepInv | swarm/node/node.go:122-274 | Every step keeps the protocol invariant: well-formed journals, sound watermarks, running syncs in step with their peers, truthful messages in flight, and only holders listed as holding a block (who exactly is listed is `GossipNews.ListedExactly`). |
| Gossip.StepGrows | datastore/leveldb/blockindex.go:141-170 | Every step extends journals at the end only and keeps what each index dominates. |
| GossipRuns.RunInv | swarm/node/node.go:122-274 | The invariant holds after every run. |
| GossipRuns.RunGrows | datastore/leveldb/blockindex.go:141-170 | Over any run with crashes and failures journals are append-only, so a number never names another entry. |
| GossipRuns.NeverGoesBack | swarm/node/node.go:234-250 | Once present, a slot stays present with a time that never decreases, whichever route updates take: a deletion is never undone by an older version. |
| GossipRuns.WatermarkSoundness | swarm/node/node.go:172-218 | In every reachable state, every entry of q's journal up to p's watermark for q exists and is dominated by what p has. |
| GossipRuns.RunHistory | swarm/node/node.go:234-274 | What the state records as ever put or stored is exactly what the steps of the run put or stored. |
| GossipRuns.Provenance | swarm/node/node.go:197-203 | Every value in a journal, in a batch in flight or in an announcement was put locally at some node in the run. |
| GossipRuns.ListedNodesStored | swarm/node/node.go:234-274 | A node listed as holding a block stored that block in the run; that answers do say so, and that it is listed then, are `GossipNews.AnswersExactly` and `GossipNews.ListedExactly`. |
| GossipNews.AnswersExactly | swarm/node/node.go:254-274 | At any time after any run a node can answer with any entry it had on file, and the answer says that it has the block if and only if the last change of its store for the block put it there. |
| GossipNews.ListedExactly | swarm/node/node.go:234-236 | A node is listed as holding a block if and only if the last report received about both said so and the listing node did not crash since. |
| GossipNews.MergedStays | swarm/node/node.go:238-249 | Metadata merged from an announcement, or put locally, is dominated by the node's index for the rest of the run. |
| GossipNews.AlwaysEnabled | swarm/node/node.go:105-274 | Local values, announcements, store changes and crashes can happen at any time, and a message can be received at any time after it was sent, by any other node. |
| GossipNews.FailuresLoseNothing | swarm/node/node.go:186-218 | A failing operation changes no journal, watermark, block or table, and ends the sync it is part of. |
| GossipNews.StartGoesOn | swarm/node/node.go:142-170 | A sync goes on after its start if and only if more is announced than is known and the peer can be reached; an outdated announcement changes nothing. |
| GossipNews.CrashKeepsTheDisk | datastore/leveldb/blockindex.go:28-56 | A crash keeps the journal, the watermarks and the blocks. |
| GossipRuns.StepMarksBehind | swarm/node/node.go:142-159 | Without a failing read, no step lowers a watermark, and a running sync is never behind the one it will replace. |
| GossipRuns.WatermarksNeverGoBack | swarm/node/node.go:129-218 | Without failing reads of the node index, no run lowers a watermark, whatever announcements arrive. |
| GossipRuns.StartLowersMark | swarm/node/node.go:133-159 | The start of a sync lowers the watermark exactly when the read fails, the write succeeds and the announcement says 0. |
| GossipFaults.FirstBatchLowers | swarm/node/node.go:133-218 | After a failing read and an announcement above 0, the first batch recorded sets a watermark above 100 back to 100. |
| GossipFaults.NotAtRisk | swarm/node/node.go:133-218 | Otherwise no sync that a failing read opens ever lowers the watermark, whatever else happens meanwhile. |
| GossipFaults.ReadFaultLowersExactly | swarm/node/node.go:129-218 | A sync that a failing read opens can lower the watermark if and only if the announcement says 0 and the watermark is not 0, or it says more and the watermark is above 100. |
| GossipConvergence.PathCovers | swarm/node/node.go:142-224 | In a quiescent state the node at the start of a path dominates everything in the journal at its end. |
| GossipConvergence.QuiescenceAgreesOnTimes | swarm/node/node.go:142-224 | If watermarks equal the peers' numbers along strongly connected links, all nodes have the same slots with the same times. |
| GossipConvergence.QuiescenceConverges | docs/concepts.md:98-108 | If moreover each slot has one newest version, all nodes have the same index. |
| GossipTermination.StepPotential | swarm/node/node.go:149-224 | With distinct times, every step other than a new local value or a failing read lowers the potential or changes no journal and no watermark. |
| GossipTermination.GossipTerminates | swarm/node/node.go:149-224 | In any run without new local values, under any interleaving, loss, failure and crash, at most the initial potential many steps change a journal or a watermark. |
| GossipStretches.EndedSyncCatchesUp | swarm/node/node.go:176-224 | In any run, a sync whose last request was made in it and that ends well has at some moment recorded all its peer had at the start of the run, read faults included. |
| GossipStretches.NothingToFetchIsCaughtUp | swarm/node/node.go:142-159 | So has a node that hears an announcement made in the run and has nothing to fetch. |
| GossipStretches.SyncsCatchUp | swarm/node/node.go:122-232 | If for every link a sync ends well in a run, or there is nothing to fetch, every link catches up in it. |
| GossipStretches.ReachableAsksBehind | swarm/node/node.go:133-188 | In every reachable state a running sync asks from its watermark on or from further back, as these theorems ask of the state they start from. |
| GossipStretches.CatchingUpCovers | swarm/node/node.go:172-218 | Having caught up, a node dominates for good what its peer had at the start. |
| GossipStretches.NewsSpreads | swarm/node/node.go:105-232 | After as many stretches of a run in which every link catches up as a path has hops, the head of the path dominates what its end had at the start, whatever interleaves, fails, crashes or is lost. |
| GossipStretches.NewsReachesAll | docs/concepts.md:98-108 | Along strongly connected links, one stretch fewer than there are nodes leaves everybody with a newest version of exactly the slots anybody had, unless new values came in. |
| GossipStretches.GossipConverges | docs/concepts.md:98-108 | Then all nodes agree on slots and times, and on the whole index if each slot had one newest version. |
| GossipStretches.StretchSettles | swarm/node/node.go:149-224 | With distinct times, a stretch without new values and failing reads lowers the potential, or changes nothing and leaves nothing to fetch. |
| GossipStretches.StretchesSettle | swarm/node/node.go:149-224 | So of any number of such stretches at most as many as the potential end with something left to fetch. |
| GossipRounds.RoundIsRun | swarm/node/node.go:105-224 | An announcement followed by an undisturbed sync is a run of the steps, and its effect is to merge what lies behind the watermark and to set the watermark to the peer's number. |
| GossipRounds.PullCalls | swarm/node/node.go:176-224 | Fetching n entries asks n / 100 + 1 times, also when the last batch was full. |
| GossipSweeps.SweepsSettle | swarm/node/node.go:149-224 | The case of undisturbed syncs: with distinct times, more sweeps over the links than the potential, each in any order, leave nothing to fetch. |
| GossipSweeps.GossipConverges | docs/concepts.md:98-108 | With strongly connected links, such sweeps are a run of the protocol after which all nodes have the same index. |
| GossipSweeps.SweepsConverge | docs/concepts.md:98-108 | One sweep fewer than there are nodes is enough for all nodes to agree, without distinct times on slots and times, and on the whole index if each slot has one newest version. |
| GossipSweeps.RivalsNeverSettle | datastore/leveldb/blockindex.go:128-137 | Two nodes with versions of equal time and different content write at every sync: after n + 1 rounds the journals hold 2n + 2 and 2n + 3 entries and the exchange goes on. |
| GossipSweeps.SettlesUnlessRivals | datastore/leveldb/blockindex.go:128-137 | Two nodes with one version each settle under alternating syncs if and only if the versions are not different versions of one slot with the same time. |
| GossipSweeps.ReadFaultForgets | swarm/node/node.go:133-159 | There is a run after which a late announcement of 0 and a failing read lower a watermark. |
| CrpcDelivery.StepInv | net/crpc/client.go:41-163 | Every step of every configuration keeps each call in one place: completed, waiting in `pending`, or in the input loop's hands. |
| CrpcDelivery.NoCallIsLost | net/crpc/client.go:41-162 | Once the input loop has ended and the call's `send` has returned, the call was completed: exactly once unless its own `send` failed, and then at most twice. |
| CrpcDelivery.NeverThrice | net/crpc/client.go:68-133 | At no time is a call completed twice, except a call whose `send` failed, which is completed at most twice. |
| CrpcDelivery.ShutdownIsFinal | net/crpc/client.go:43-53 | Pending numbers are below the next number in every state, and after shutdown nothing is pending ever again, whatever is still sent. |
| CrpcCorrelation.Framing | net/crpc/server.go:275-294 | The client's rule to read a body recovers from the server's stream exactly what the server did if and only if no method failed with an empty text. |
| CrpcCorrelation.StreamAt | net/crpc/server.go:279-294 | The response stream is the units of the calls one after the other, each a header and at most one body. |
| CrpcCorrelation.StepInv | net/crpc/client.go:41-163 | With serialised sends, encodable arguments and named errors, every step keeps both streams framed and every completion explained by a method call. |
| CrpcCorrelation.RunInv | net/crpc/client.go:41-163 | So does every run. |
| CrpcCorrelation.Correlation | net/crpc/client.go:101-132 | A call completed with a reply or a server error got the outcome of a method call for its own number, method and arguments, whatever time-outs, late replies, lost connections or shutdowns occur. |
| CrpcCorrelation.FramingAgreement | net/crpc/server.go:211-254 | On either stream the next item is always of the kind its reader is about to decode, replies to unknown numbers included. |
| CrpcOnce.AtMostOnce | net/crpc/server.go:201-295 | No call is executed twice. |
| CrpcOnce.TheOutcome | net/crpc/client.go:101-132 | Any method call made for the number of a call completed with a reply or a server error has its method, its arguments and that outcome: the outcome is that of the only execution. |
| CrpcLimits.InterleavedSends | net/crpc/client.go:53-66 | Two senders at once can make a call complete with a reply to other arguments. |
| CrpcLimits.UnencodableArguments | net/crpc/client.go:63-75 | So can arguments that do not encode, while the failing `send` has not yet removed its call. |
| CrpcLimits.NamelessErrors | net/crpc/server.go:275-277 | So can a method that fails with an empty text. |
| CrpcLimits.CorrelationExactly | net/crpc/client.go:41-133 | Over all runs every completion is explained if and only if sends are serialised, arguments encode and errors have a text. |
| CrpcServer.LastDot | net/crpc/server.go:225-231 | Finds the last dot of a method name, and none exactly when there is none. |
| CrpcServer.LookupSelects | net/crpc/server.go:225-244 | A service, a dot and a procedure without a dot name exactly the procedure registered for that service, or none. |
| CrpcServer.NamesHaveDots | net/crpc/server.go:225-229 | A name without a dot names no method. |
| CrpcServer.NextCall | net/crpc/server.go:211-273 | Decodes one request, finds its method and calls it, or stops where the loop returns. |
| CrpcServer.Respond | net/crpc/server.go:279-294 | Writes a header and a body exactly for calls that returned, or as much of it as the connection takes. |
| CrpcServer.ServeConn | net/crpc/server.go:194-296 | The calls made are those the requests lead to, up to the first response that cannot be written, and what is written are their units cut off there. |
| CrpcServer.ServesAsSteps | net/crpc/server.go:194-296 | Whatever `ServeConn` does is done by some run of the connection's steps, which ends with the server stopped. |
| CrpcClient.Client.Send | net/crpc/client.go:41-76 | A sent call waits under a fresh number, with its header and arguments on the stream; a rejected or failed one is completed with an error and waits nowhere; and each is a run of the connection's steps. |
| CrpcClient.Client.Receive | net/crpc/client.go:93-133 | One round of the loop completes exactly the call waiting under the number of the response and takes the items of one unit. |
| CrpcClient.Client.Terminate | net/crpc/client.go:135-163 | Completes exactly the calls still waiting, each once, in whatever order the map yields them. |
| CrpcClient.Client.Input | net/crpc/client.go:89-163 | The loop delivers the stream up to the first item that does not decode, tells the calls left, ends in shutdown with nothing pending, and is a run of the connection's steps. |
| CrpcClient.Client.Close | net/crpc/client.go:214-223 | Closes once, leaves calls, numbers and waiting calls as they are, and is a run of the connection's steps. |
| CrpcClient.TellAll | net/crpc/client.go:158-162 | The loop over the map completes each waiting call once and no other. |
| CrpcPipeline.DeliverStream | net/crpc/client.go:93-133 | Over the units of named outcomes the input loop resolves the calls one after the other and consumes the whole stream. |
| CrpcPipeline.FirstReplyCounts | net/crpc/client.go:103-106 | A waiting call is completed by the first reply to its number and by no other reply. |
| CrpcPipeline.ServesInOrder | net/crpc/server.go:201-295 | For known methods the server makes exactly the calls the requests ask for, in their order. |
| CrpcPipeline.EveryCallAnswered | net/crpc/server.go:201-295 | Through both loops every waiting call to a registered service and procedure is completed exactly once, with what that procedure gives on its own arguments: a reply, the text of its error, or for a panic a text that names the method. |
| CrpcPipeline.UnknownEndsServing | net/crpc/server.go:233-244 | Nothing from a request for an unregistered method on is served. |
| CrpcPipeline.TwoHeadersInARow | net/crpc/server.go:254-258 | A header where arguments are due is used as whatever the decoder makes of it, or ends the connection. |
| CrpcPipeline.ArgumentsAsHeader | net/crpc/server.go:211-222 | Arguments where a header is due are served as the header the decoder makes of them, or end the connection. |
| CrpcPipeline.HeaderAsBody | net/crpc/client.go:126-131 | A response header where a body is due completes the call with whatever the decoder makes of it, or with an error. |
| CrpcPipeline.BodyAsHeader | net/crpc/client.go:93-99 | A body where a response header is due is taken for the header the decoder makes of it, or ends the loop. |
| Availability.LastIsLast | swarm/node/blockavailability.go:39-44 | What the table is said to hold is the report about the block and node that no later one replaces. |
| Availability.ReportsCommute | swarm/node/blockavailability.go:39-44 | Two reports in either order leave the same table for a block and node, exactly unless both are about them and differ. |
| Availability.BlockAvailabilityTracker.GetBlockInfo | swarm/node/blockavailability.go:25-37 | Finds or creates the entry of a block and changes no other. |
| Availability.BlockAvailabilityTracker.Update | swarm/node/blockavailability.go:39-52 | The table holds the last report for every block and node after each update. |
| Availability.BlockAvailabilityTracker.WhoHas | swarm/node/blockavailability.go:81-97 | Lists without repetition exactly the nodes whose last report about the block was true. |

## Left out

- LevelDB, CBOR, sockets, UDP multicast and singleflight themselves: a sorted map with atomic batches, records that decode to what was encoded, streams, messages that are lost, repeated or reordered, and one sync at a time per node.
- The precision and time zone of `time.Time`, which `reflect.DeepEqual` in `IsMetadataEqual` sees: times are integers and equal exactly when they are the same instant.
- Records that do not decode: `Put` overwrites them, the other operations report them; the model's store has none.
- `fmt.Sscanf` skipping leading spaces in `seqFromKey`: keys the index writes have none.
- The zero bits of a base32 text that does not end on a whole group: 35 bytes are seven whole groups.
- Gossip numbers are unbounded in the step system `Gossip`; the wrap of 64-bit numbers is modelled in `BlockIndexes` and `Swarm`.
- Addresses, capabilities, storage usage and last-seen times of peers, and address filtering: they play no part in syncing.
- Two nodes with one node ID; a node is its position in the model.
- `Vacuum`, `BlockGet` and `BlockPut`: they do nothing or are unsupported. That the numbers of a journal have no gaps relies on `Vacuum` deleting nothing (datastore/leveldb/blockindex.go:255-262).
- `NodeIndex.Enumerate`, the file store, `DiscoverBlock` with its polling and time-outs, commands and configuration.
- Subscribers of the availability table: nothing registers one.
- `Register` and reflection over services: a registered method is a function from arguments to an outcome. `Server.Addr` and the accept loop.
- The buffer of a call's `Done` channel: a completion counts when `done` is called, also if the channel is full. The counter of calls per method.
- The fields `Error` and `Reply` of a call that is completed twice, which the later writer overwrites: the model records each completion in order.
- The number of a CRPC call is unbounded; 2^64 calls on one connection would reuse numbers.
- CrpcClient.Client.Send: runs alone; its interleavings with the input loop and other senders are the runs of `Crpc`, in which each section is a step of its own.
- CrpcClient.Client.Input: gets everything that will arrive at once; reading while the server still writes is in `Crpc`.
- Swarm.SyncBlockIndexAndUpdateMetadata: a sync of a node whose own journal is full ends as `Exhausted`, where the code would wrap its counter; the wrap is stated for `BlockIndexes.BlockIndex.Put`.
- That syncs along all links keep ending well is up to timers and the network; `GossipStretches` says what follows when they do.
