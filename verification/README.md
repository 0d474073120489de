# TPX archive: a verified model

TPX is an append-only archive for tensors. This project models its logic in Dafny and proves what
the parts promise, from single bits up to whole runs of the archive:

- **Adaptive radix tree** (`Art*.dfy`). Five node shapes with growth and leaf splitting. The tree is
  proved to be a finite map: exactly when one insert keeps every other key, exactly which puts can be
  followed by anything, for which runs the tree agrees with a map, and a concrete run in which it does
  not. A Node48 counts its children to find the next slot, so after a removal that left a hole the next
  insert overwrites a live child; the model keeps that behaviour.
- **Archive engine** (`Engine*.dfy`, `Puts.dfy`, `ShardTrees.dfy`, `History.dfy`, `Ledger.dfy`,
  `Recovery.dfy`). Put, batch put, delete, read, versions, checkpoint, compaction, open, with the radix
  trees of all shards, which can stop a put. The archive means a history of records; every method is
  proved to change that history, the trees, the chains and the books exactly as it should, to stop
  exactly when a tree does, and to checkpoint exactly when it is due. Chunk reference counters are tied to
  the versions that use them by an exact balance that also names what leaks and what is never counted.
- **Reading** (`ChunkIo.dfy`, `ChunkDecoding.dfy`). A written chunk reads back; a chunk with a wrong
  checksum, a wrong length or a broken payload is reported as such by the reader and by `get`, and what
  is returned comes out of chunks with the right checksums.
- **Versions** (`VersionChain.dfy`, `VersionRuns.dfy`). Which versions each policy keeps, with the numbers
  written out, and k puts under `KeepLastN(n)` with the ids they leave and what each id reads.
- **Whole runs** (`ArchiveRuns.dfy`). A driver takes an archive through any sequence of puts, batches,
  deletes, checkpoints, compactions and crashes; as long as nothing halts it, the archive means the map
  that the same operations build, and a crash leaves the map of the last commit.
- **Runs that fail** (`ArchiveWitness.dfy`, `ArtHole.dfy`, `Recovery.dfy`). A put that a tree stops, a
  compaction that loses the one tensor of the archive, an id that is listed and cannot be read, a counter
  below zero, a torn checkpoint that empties the archive: each on a concrete run or tail.
- **Crash recovery** (`Footer.dfy`, `FooterSearch.dfy`, `Recovery.dfy`). Opening the last synced commit
  behind any torn tail recovers that commit if and only if the backward scan meets no false footer there;
  the scan is also said by bytes and offsets alone.
- **Formats** (`LittleEndian.dfy`, `Chunk.dfy`, `Attrs.dfy`, `Toc.dfy`, `TocIndex.dfy`, `Layout.dfy`,
  `Utf8Text.dfy`). Round trips with the exact condition under which they hold, what stands at each place
  of a record digit by digit, what the parsers refuse, and UTF-8 by the arithmetic of scalars.
- **Write-coalescing backend** (`Backend.dfy`, `BackendInterleaving.dfy`). File, buffer and counters
  are one flat byte array, for one caller and for every interleaving of readers and appenders, and no
  reader or lock holder is ever stuck.
- **Content-defined chunking and content store** (`Cdc.dfy`, `ContentStore.dfy`). Segments are cut by the
  content and are the only ones so cut; inputs that end alike get the same segments again.
- **Chimp128** (`Bits.dfy`, `Chimp.dfy`, `ChimpFormat.dfy`, `ChimpCoder.dfy`, `ChimpCodec.dfy`). Encoder
  and decoder as two state machines kept in step by the bits alone; which bits a value takes, said by zero
  counts over the history; round trip, size bound, byte-level codec.
- **Reversible filters** (`BitShuffle.dfy`, `ByteShuffle.dfy`, `DeltaZigZag.dfy`, `Filters.dfy`). Each is
  a bijection, and which bit, byte or difference goes where.

`dafny verify dfyconfig.toml` checks everything.

## How to read it

Code that updates state is a class or a method with loops, proved equal to a function of its inputs or
old state; the properties are lemmas about those functions. Where a round trip alone would leave a choice
open (a byte order, a slot, a number of versions, a place to cut), a second definition that shares nothing
with the code's says which choice it is, and a lemma ties the two. Keys and strings are their UTF-8 bytes.

The hashes, the checksum, LZ4 and Zstd are foreign: `ChunkIo.Env` holds them as arbitrary functions.
What the engine theorems assume about them is written out in `Trusted`: LZ4 gives back what it was
given, the key hash does not collide on the keys in use (`keys`), and the content hash not on the
segments in use (`blobs`). The checksum and the table checksum are arbitrary.

An engine method promises two things at once: what it does to the fields in any sound engine (`Sound`),
and what that means in a valid one (`Valid`), whose table reads back. Only a compaction can lead from
one to the other. Whether a put stops depends on the keys in the tree alone, so contracts speak of the
trees' shapes (`ArtShape`) and of the touches an operation makes (`ShardTrees.Touched`).

Conditions the theorems carry, because the code needs them:

- An archive is created on an empty file (or one whose length is a multiple of 4096): `create` writes
  its header page over the file without truncating it.
- A put of data with at least one segment inserts into the radix tree of its shard, and stops there when
  the tree runs into the empty slot (`Puts.PutStops`, `ArchiveWitness.HoleRun`). A batch stops at the
  first such item, with the items before it recorded. Trees rebuilt by `open` after a crash have no
  holes, and sessions of puts on them never stop (`ArchiveRuns.PutSessionsRun`).
- The backward scan never checks the footer's checksum, so recovery holds exactly for tails without a
  false footer at a probe offset (`CleanTail`). A one-page checkpoint of which only the end reached the
  disk is such a footer, and the archive opens empty (`Recovery.TornPageEmpties`).
- A checkpoint reads its offset before it appends; the engine's methods run one at a time, so the
  footer points at its own table.
- A table is committed only if its entries fit their fields (`Committable`): keys below 64 KiB, at most
  255 dimensions, attribute names of at most 255 bytes, attribute blocks below 4 GiB, fewer than 2^16
  chunks.
- Compaction truncates the file but leaves the content store. It keeps every read if no segment of a
  current tensor is filed there. If all are, it writes no chunk at all: the table refers to where the
  chunks were, and tensors are lost (`ArchiveWitness.CompactLoses`, `RefiledPastEnd`). The hashes whose
  chunks are gone are `stale`; a later put of such a segment is a dedup hit on nothing.
- Compaction restarts the table but not the version chains, so from then on a key's ids run ahead of its
  records by `shift`, and a listed id may have nothing to read (`ArchiveWitness.MisalignedIds`).
- `get_version` counts the entries of a key including dead ones, so after delete and put an id can
  read a deleted tensor (`VersionsAligned`, `StaleVersion`).
- Counters are exact as long as nothing leaked or was missed. A delete leaks the references of its
  chain, opening starts with empty counters, a stopped put leaves its segments counted, and a batch
  counts a new hash that it uses n times once only (`leaked`, `missed`, `Puts.BatchDone`,
  `Puts.MissesNothing`, `ArchiveWitness.CountBelowZero`).

Where comments and code differ, the code is modelled. The tree's comment
(crates/tpx-index/src/art.rs:3-5) promises arbitrary keys; the slot reuse of Node48 (lines 308-313 and
592-598) breaks that promise after some removals, and `ArtHole` gives the run. The comment on the
backward scan (crates/tpx-core/src/footer.rs:121-122) speaks of valid footers; the code accepts any
footer with a known end magic whose table offset lies below it.

## Model

| member | source | states |
|---|---|---|
| Art.FindByte | crates/tpx-index/src/art.rs:428-436 | the byte scan of a linear node: the position found holds the byte, and nothing found means no used position does |
| Art.Child | crates/tpx-index/src/art.rs:415-466 | the child a byte leads to exists only for a used byte and is a strictly smaller node, so descent ends |
| ArtProofs.ChildPresent | crates/tpx-index/src/art.rs:192-201 | in a well-formed node every used byte has its child: the `unwrap` of a descent cannot fail |
| ArtProofs.SetChildAt | crates/tpx-index/src/art.rs:192-201 | replacing the subtree behind a byte changes that byte only |
| ArtProofs.AddNewAt | crates/tpx-index/src/art.rs:203-356 | a new byte gets its leaf and every other byte keeps its child, in place and through every growth 4 to 16, 16 to 48, 48 to 256, provided a Node48 with room has its next slot free |
| ArtProofs.GrownIndexFinds | crates/tpx-index/src/art.rs:264-271 | the index built when a Node16 grows sends exactly the used keys to their slots |
| ArtProofs.GrownChildrenFind | crates/tpx-index/src/art.rs:316-323 | the children built when a Node48 grows are those reached through the index |
| ArtProofs.DropChildAt | crates/tpx-index/src/art.rs:513-600 | dropping a byte removes that child and no other, whether a linear node closes the gap or a Node48 leaves a hole |
| ArtProofs.SplitRefines | crates/tpx-index/src/art.rs:136-176 | splitting a leaf builds one Node4 per shared byte and ends with exactly the old and the new entry, prefix keys included |
| ArtProofs.InsertSized | crates/tpx-index/src/art.rs:124-359 | inserting stays within array bounds in every tree, damaged ones included |
| ArtProofs.RemoveSized | crates/tpx-index/src/art.rs:490-631 | the same for removing |
| ArtMap.InsertRefines | crates/tpx-index/src/art.rs:124-359 | on a well-formed tree whose next Node48 slots are free on the way, insert does not stop, answers the old binding, keeps the tree well formed and rebinds exactly its key |
| ArtMap.InsertExact | crates/tpx-index/src/art.rs:124-359 | on any well-formed tree insert never stops, and it rebinds its key and keeps all others if and only if the subtree in the slot it takes over holds no key |
| ArtMap.OverwriteExact | crates/tpx-index/src/art.rs:308-313 | the step where it can go wrong: a Node48 with room takes its next slot, and the other keys stay if and only if the subtree in it holds none |
| ArtMap.SafeKeeps | crates/tpx-index/src/art.rs:308-313 | a free slot is enough for that condition |
| ArtMap.RemoveRefines | crates/tpx-index/src/art.rs:490-631 | remove answers the old binding, keeps the tree well formed and unbinds exactly its key |
| ArtRuns.StepAgrees | crates/tpx-index/src/art.rs:114-122 | one operation on the tree with its optional root does what it does on a map, and answers alike |
| ArtRuns.RunsAreMaps | crates/tpx-index/src/art.rs:114-631 | every run of inserts and removes that takes no used Node48 slot: no stop, the answers of a finite map, and its bindings afterwards for every key |
| ArtRuns.InsertDense | crates/tpx-index/src/art.rs:308-334 | inserting never opens a hole in a Node48 |
| ArtRuns.RemoveDense | crates/tpx-index/src/art.rs:592-598 | removing opens none either when it empties the last used slot |
| ArtRuns.HoleFreeIsSafe | crates/tpx-index/src/art.rs:308-313 | runs whose removes only empty last slots are safe, from any tree without holes |
| ArtRuns.PutsAreMaps | crates/tpx-index/src/art.rs:114-359 | runs of inserts alone agree with a map for all keys, with nothing to check |
| ArtHole.Filled | crates/tpx-index/src/art.rs:203-281 | the tree after the inserts 0, 1, ..., n-1 of one-byte keys, through both linear growth steps |
| ArtHole.HoleLosesKey | crates/tpx-index/src/art.rs:308-313 | the failing run: 17 inserts, one remove, one insert, and a key the map binds is gone from the tree |
| ArtHole.HoleStops | crates/tpx-index/src/art.rs:298-301 | the same run, two operations on: an insert unwraps an empty slot and stops |
| ArtExact.SharedSlot | crates/tpx-index/src/art.rs:308-313 | a byte that takes a used Node48 slot leaves two bytes in one slot: the key under the other byte, put and if need be removed again, changes what the first one reads |
| ArtExact.SafeIsExact | crates/tpx-index/src/art.rs:114-631 | on a well-formed tree that agrees with a map, a put takes no used slot if and only if the tree after it agrees with the map under everything that can safely follow |
| ArtExact.UnsafeRunDisagrees | crates/tpx-index/src/art.rs:114-631 | every run that is not safe, cut behind its first unsafe put and continued by at most two operations on the byte sharing the slot, disagrees with the map |
| ArtShape.ShapeInsert | crates/tpx-index/src/art.rs:124-359 | whether an insert stops, and how it rearranges the nodes, does not depend on the values in the tree |
| ArtShape.ShapeRun | crates/tpx-index/src/art.rs:114-631 | the same for whole runs, removals included |
| ArtPrefix.CollectAllLists | crates/tpx-index/src/art.rs:713-763 | collecting below a node lists each binding below it once, its own value included |
| ArtPrefix.CollectPrefixLists | crates/tpx-index/src/art.rs:642-711 | following the prefix and collecting lists exactly the bindings below that start with it |
| ArtPrefix.PrefixIsExact | crates/tpx-index/src/art.rs:633-640 | `get_prefix`: every entry whose key starts with the prefix, once each, and nothing else, for every prefix |
| ArtPrefix.RunPrefix | crates/tpx-index/src/art.rs:633-640 | after any safe run, exactly the bindings of the map with that prefix |
| ArtPrefix.SnapshotAgrees | crates/tpx-index/src/art.rs:765-783 | a snapshot answers every key as the tree did when it was taken |
| ArtPrefix.WithPrefixPicks | crates/tpx-index/src/art.rs:785-791 | the prefix query of a snapshot: the items whose key starts with the prefix, all of them, in order, once for each place |
| ArtPrefix.SnapshotPrefixAgrees | crates/tpx-index/src/art.rs:765-791 | it lists what the tree itself would have listed when the snapshot was taken, each key once |
| ArtTree.SearchByte | crates/tpx-index/src/art.rs:192-201 | the scan loop finds what the search function says |
| ArtTree.BuildIndex | crates/tpx-index/src/art.rs:264-271 | the index-building loop of growth to Node48 |
| ArtTree.SpreadChildren | crates/tpx-index/src/art.rs:316-323 | the child-moving loop of growth to Node256 |
| ArtTree.AddEntry | crates/tpx-index/src/art.rs:203-356 | adding a byte in place or by growth, loop by loop |
| ArtTree.ShiftDown | crates/tpx-index/src/art.rs:523-527 | the shifting loop closes the gap and empties the last child slot |
| ArtTree.InsertRec | crates/tpx-index/src/art.rs:124-359 | the recursive insert computes the insert function |
| ArtTree.RemoveRec | crates/tpx-index/src/art.rs:490-631 | the recursive remove computes the remove function |
| ArtTree.CollectAllInto | crates/tpx-index/src/art.rs:713-763 | the collector pushes exactly the walk, in order, behind what was there |
| ArtTree.CollectPrefixInto | crates/tpx-index/src/art.rs:642-711 | the prefix collector likewise |
| ArtTree.ArtTree.Insert | crates/tpx-index/src/art.rs:114-122 | new root, answer and failure; on a well-formed tree with free slots exactly the key is rebound |
| ArtTree.ArtTree.Get | crates/tpx-index/src/art.rs:379-468 | the descent loop returns the value bound to the key |
| ArtTree.ArtTree.Remove | crates/tpx-index/src/art.rs:470-488 | new root and answer; on a well-formed tree exactly the key is unbound |
| ArtTree.ArtTree.GetPrefix | crates/tpx-index/src/art.rs:633-640 | the bindings with the prefix, once each |
| ArtTree.ArtSnapshot.GetPrefix | crates/tpx-index/src/art.rs:785-791 | the filter loop yields exactly those items |
| Engine.ShardedEngine.Create | crates/tpx-shard/src/engine.rs:41-78 | the header page is written over whatever the file holds; from an empty or page-aligned file the result is a valid engine without records and with empty books |
| Engine.ShardedEngine.Open | crates/tpx-shard/src/engine.rs:80-165 | for any bytes the outcome is that of `Recover`, unless rebuilding the trees from the table stops; chains are rebuilt from the last entries of their keys, with shard and offset as stand-in hashes; on the last commit and a tail without a false footer it does not stop, and gives a valid engine holding exactly the committed history, with trees without holes, an empty content store and every retained reference still uncounted |
| Engine.RebuildChains | crates/tpx-shard/src/engine.rs:124-152 | chains rebuilt on open hold exactly one version per live entry of each live key, numbered from zero, and no chain for any other key; in any table the versions are those of the last entries of their key, keep forever, and carry shard and offset of each reference in place of hashes |
| Engine.RebuildTrees | crates/tpx-shard/src/engine.rs:124-148 | the trees rebuilt on open: it stops exactly when the inserts and removes of the table, in order, stop one of them |
| ShardTrees.TableNeverStops | crates/tpx-shard/src/engine.rs:124-148 | a table whose dead entries of a key come before its live ones never stops it, and leaves trees without holes that hold live keys only |
| Engine.TreePutKey | crates/tpx-shard/src/engine.rs:280-281 | the insert into the tree that the key's hash modulo the shard count selects stops exactly when the insert into its shape does, and changes that tree only |
| ShardTrees.TouchedByShard | crates/tpx-shard/src/router.rs:3-8 | operations on many shards stop exactly when the run of one shard's own operations does, and otherwise each tree is what its own run leaves |
| ShardTrees.SafeNeverStops | crates/tpx-shard/src/engine.rs:280-281 | operations that are safe in every shard never stop |
| ShardTrees.PutsNeverStop | crates/tpx-shard/src/engine.rs:280-281 | on trees without holes puts never stop, and leave none |
| Puts.PutStops | crates/tpx-shard/src/engine.rs:280-281 | a put stops if and only if its data has a segment and the insert into the tree selected by the key's hash modulo the shard count unwraps an empty slot, whatever references the tree holds |
| Engine.ShardedEngine.StoreSegment | crates/tpx-shard/src/engine.rs:214-277 | hit or miss, one more use of the hash is counted and filed entries keep their references; a hit refers to the filed chunk, a miss appends the image and files it at the end of the log; the reference reads back this segment unless its chunk was cut off by a compaction; the bytes written are counted |
| Engine.ShardedEngine.StoreAll | crates/tpx-shard/src/engine.rs:194-277 | the references of all segments are those filed under their hashes and read back the whole data, whatever the dtype asked with, unless a chunk was cut off; new chunks belong to the given shard and lie in the bytes appended, which are counted; if every segment is filed, nothing is written |
| Engine.ShardedEngine.CommitVersion | crates/tpx-shard/src/engine.rs:288-319 | chain, evicted hashes, leaks and the new table entry, exactly; in a valid engine the record is appended to the history and the books stay balanced |
| Engine.ShardedEngine.ExecuteCheckpoint | crates/tpx-shard/src/checkpoint.rs:55-105 | history unchanged; the file grows by exactly the table, padding and a footer with the table's offset, the chunk count, the checksum and the end magic; everything is synced, the table committed whenever it fits its fields, and the byte count back at zero |
| Engine.ShardedEngine.PutWithRetention | crates/tpx-shard/src/engine.rs:178-326 | stops, with nothing recorded and its segments leaked, if and only if the insert into the tree of its shard does; otherwise the new entry, its references, chain, leaks and trees are exactly these, the tensor reads back unless a segment was cut off, and file, disk and byte count are those after the stored chunks, with a checkpoint exactly when 64 MiB were written since the last one, or anything at all in a minute; in a valid engine the history grows by exactly this record, and the last commit is kept or renewed; nothing changes in read-only mode |
| Engine.ShardedEngine.MaybeCheckpoint | crates/tpx-shard/src/checkpoint.rs:45-105 | a checkpoint exactly when 64 MiB were written, or anything at all in a minute: then table, padding and footer follow the chunks, all is on disk and the byte count starts again; otherwise file, disk and count are unchanged |
| Puts.PutKeepsLast | crates/tpx-shard/src/engine.rs:288-306 | the version of a put is the newest of its chain, with dtype, shape, attributes and segment hashes; the chain takes over the policy, and exactly the versions it does not keep are evicted |
| Engine.ShardedEngine.PutBatch | crates/tpx-shard/src/engine.rs:328-530 | the history grows by exactly the items in order, all of them or those before the first whose tree stops; chains, trees, chunk count and stored hashes are those of the same puts; of a new hash used n times, n - 1 uses are missed, and leaks are the uses of unrecorded items and the evictions that find no counter; one checkpoint at the end exactly when it is due |
| Puts.BatchKeepsPolicies | crates/tpx-shard/src/engine.rs:506-520 | after a batch every chain has the policy it had, and a chain that the batch began keeps the latest version only |
| Puts.MissingAll | crates/tpx-shard/src/engine.rs:432-492 | planned hits and pending writes together: everything the batch uses is filed, and the surplus uses of new hashes are missed |
| Puts.MissesNothing | crates/tpx-shard/src/engine.rs:432-492 | a batch misses nothing if and only if no hash that is new to the store occurs twice in it |
| Engine.ShardedEngine.Delete | crates/tpx-shard/src/engine.rs:659-677 | exactly the records of the key die, its tree loses the key, its chain goes and its references leak |
| Engine.ShardedEngine.ReadTensorFromEntry | crates/tpx-shard/src/engine.rs:532-593 | reassembles the chunks of an entry, or fails with the first error in reading order; an entry whose first unreadable chunk is damaged fails with that damage, and a tensor that is returned consists of chunks with the right checksums |
| Engine.ShardedEngine.Get | crates/tpx-shard/src/engine.rs:595-605 | in any sound engine what the looked-up entry reads as, its damage reported as such; in a valid one the current tensor of the key: dtype, shape and bytes of its last undeleted put |
| Engine.ShardedEngine.Keys | crates/tpx-shard/src/engine.rs:644-657 | the live non-empty keys, each once |
| Engine.ShardedEngine.GetPrefix | crates/tpx-shard/src/engine.rs:615-632 | exactly the current tensors whose key starts with the prefix |
| Engine.ShardedEngine.ListVersionIds | crates/tpx-shard/src/engine.rs:679-705 | the ids of the chain, or one per live entry without a chain; in a valid engine consecutive ids that end at the key's lead since the last compaction plus its live puts |
| Engine.ShardedEngine.GetVersion | crates/tpx-shard/src/engine.rs:707-749 | ids not in the chain are refused; a listed id reads the table entry of the key at that position, if there is one |
| VersionRuns.PutVersions | crates/tpx-shard/src/engine.rs:178-749 | k puts of a fresh key under `KeepLastN(n)`: the listed ids are the last min(k, max(n, 1)) of 0 to k - 1, and each reads the tensor of its put |
| VersionRuns.ReadVersion | crates/tpx-shard/src/engine.rs:707-749 | one such id reads the tensor of its put |
| Engine.VersionsAligned | crates/tpx-shard/src/engine.rs:707-749 | that entry is the put of this id when the key was never deleted, and a deleted tensor exactly for ids below the number of dead entries |
| Engine.StaleVersion | crates/tpx-shard/src/engine.rs:667-671 | put, delete, put: version 0 still is the deleted tensor |
| Engine.ShardedEngine.CountsAreUses | crates/tpx-dedup/src/content_store.rs:54-79 | as long as nothing leaked or was missed, every counter equals the uses by retained versions, and the collectable chunks are exactly the unused ones |
| Engine.ShardedEngine.FreshCommitIsCurrent | crates/tpx-shard/src/checkpoint.rs:55-105 | a checkpoint of a table that fits commits the current history |
| Engine.ShardedEngine.CrashRecovers | crates/tpx-shard/src/engine.rs:80-112 | last commit plus any tail: the scan and the parse give back the committed table if and only if no probe of the tail holds a false footer |
| Engine.Restart | crates/tpx-shard/src/engine.rs:80-165 | crash and open: the new engine holds exactly the history of the last commit, with nothing filed, every use missed, and trees without holes |
| Engine.ShardedEngine.Compact | crates/tpx-shard/src/engine.rs:825-868 | stops exactly when putting the live items again stops a tree; keys whose tensors have no filed segment read as before and absent keys stay absent; without any filed segment the engine stays valid with the same view; with every segment filed, the table lists the old references and a table follows the header page at once; ids run ahead by the lead of each key |
| Puts.KeptReads | crates/tpx-shard/src/engine.rs:830-865 | what the rewritten table means to readers: the current tensor of every key whose segments were not filed, and nothing for keys that had none |
| Engine.ShardedEngine.PutItems | crates/tpx-shard/src/engine.rs:856-865 | the loop of puts over the live items, up to the first that stops |
| Engine.StoreAfterCut | crates/tpx-shard/src/engine.rs:847-861 | right after the cut the content store is right if and only if it holds nothing |
| History.RewrittenView | crates/tpx-shard/src/engine.rs:830-865 | rewriting the live records keeps the current tensor of every key and revives none |
| History.CompactedRecords | crates/tpx-shard/src/engine.rs:830-865 | a compaction lists exactly the live records again, in order, each with its own key and attributes and the current tensor of the key |
| Puts.RewriteKeepsLatest | crates/tpx-shard/src/engine.rs:864-869 | afterwards each rewritten key keeps the latest version only, that of its last item |
| ArchiveRuns.BatchIsPuts | crates/tpx-shard/src/engine.rs:328-530 | a batch leaves the history, trees and chains of its items put one at a time, and evicts the same versions, if every chain it touches keeps the latest version only |
| ArchiveRuns.Drive | crates/tpx-shard/src/engine.rs:80-868 | any run of puts, batches, deletes, checkpoints, compactions and crashes on an engine: the current tensors are the map that the operations build and a crash leaves the map of the last commit, until an operation is stopped by a tree, needs a cut-off chunk, meets a false footer, or outgrows the table; a session is stopped by a tree if and only if the touches of its operations stop one |
| ArchiveRuns.StartNew | crates/tpx-shard/src/engine.rs:41-78 | a created and checkpointed archive is a start for any run, with empty maps and trees without holes |
| ArchiveRuns.PutSessionsRun | crates/tpx-shard/src/engine.rs:178-530 | sessions of puts, batches and checkpoints on trees without holes are never stopped by a tree |
| ArchiveRuns.SessionsByShard | crates/tpx-shard/src/engine.rs:178-677 | a session runs if and only if its operations run on the tree of every shard, and always if they are safe there |
| ArchiveWitness.HoleRun | crates/tpx-shard/src/engine.rs:280-281 | a session that stops: 20 operations on 18 one-byte keys of a one-shard archive, and the next put runs into the empty slot |
| ArchiveWitness.TableIsNoChunk | crates/tpx-shard/src/engine.rs:547-586 | a table of one or of 4 to 255 entries right behind the header page cannot be read as a chunk, under any checksum |
| ArchiveWitness.CompactLoses | crates/tpx-shard/src/engine.rs:825-868 | create, put, compact: for every key and every tensor with data, the tensor reads before the compaction and fails to read after it |
| ArchiveWitness.RefiledPastEnd | crates/tpx-shard/src/engine.rs:847-865 | after a compaction that found everything filed, a tensor with a chunk that ended past the new file is lost |
| ArchiveWitness.MisalignedIds | crates/tpx-shard/src/engine.rs:679-749 | create, put, compact: version 1 is listed and there is no version 1 to read |
| ArchiveWitness.DeadCompact | crates/tpx-shard/src/engine.rs:825-868 | put, delete, compact: chunks stay filed and nothing is lost |
| ArchiveWitness.CountBelowZero | crates/tpx-shard/src/engine.rs:473-487 | a batch with one segment under two keys, then both replaced: the counter stands at 2^32 - 1 with no use left, and the chunk is never collectable |
| History.DeadView | crates/tpx-shard/src/engine.rs:659-677 | a delete removes exactly its key |
| History.LiveAreLast | crates/tpx-shard/src/engine.rs:659-677 | dead records of a key come before its live ones |
| History.LiveInView | crates/tpx-shard/src/engine.rs:595-605 | a key is current exactly when it has a live record, and the last one is its tensor |
| History.FindIsView | crates/tpx-index/src/toc.rs:86-95 | the current entry of a key reads as the current tensor |
| EngineState.LookupIsCurrent | crates/tpx-index/src/toc.rs:86-95 | with a hash that does not collide, the index leads to the current entry and so to the current tensor |
| EngineState.HitHolds | crates/tpx-shard/src/engine.rs:217-226 | a dedup hit refers to the very bytes asked for |
| EngineState.ChainsPut | crates/tpx-shard/src/engine.rs:288-306 | a put keeps every chain in step with the live records, at its lead |
| EngineState.TableTombstone | crates/tpx-index/src/toc.rs:119-125 | tombstoning leaves the table readable and marks exactly the key's records dead |
| EngineBatch.PendingHolds | crates/tpx-shard/src/engine.rs:473-487 | a chunk planned at an offset of the batch buffer reads back after the one append |
| EngineBatch.RowReads | crates/tpx-shard/src/engine.rs:494-497 | a row of filled references reads back the whole item |
| Ledger.ExactCounts | crates/tpx-dedup/src/content_store.rs:54-79 | balanced books without leaks or misses: the counters are the uses |
| Ledger.DuplicateUnderflows | crates/tpx-shard/src/engine.rs:473-487 | the arithmetic behind it: a chunk counted once and used twice, released twice, wraps its counter while the books still balance |
| ChunkIo.BuildChunk | crates/tpx-shard/src/engine.rs:228-258 | header, block table, payload and padding of a segment |
| ChunkDecoding.ImageLayout | crates/tpx-shard/src/engine.rs:228-258 | the bytes of a written chunk: a header for one LZ4 block without a filter, both lengths, the checksum of the block, its length, the block, and zeros to whole pages |
| ChunkIo.DecodeImage | crates/tpx-shard/src/engine.rs:543-586 | reading a written chunk gives the segment back for every dtype |
| ChunkIo.ReadChunksGrows | crates/tpx-shard/src/engine.rs:541-586 | appending to the log changes no tensor already readable |
| Engine.DecodeBytes | crates/tpx-shard/src/engine.rs:547-586 | the reader's checks in order; whatever the bytes, a chunk whose blocks have another checksum is refused with offset and both checksums, one that decompresses to another length or not at all with that error, and a success comes out of blocks with the right checksum |
| ChunkDecoding.CorruptIsRefused | crates/tpx-shard/src/engine.rs:547-576 | bytes that begin with a header, a table of as many lengths as it says, and blocks of those lengths with another checksum are refused with the offset, the header's checksum and the real one, whatever they would decompress to |
| ChunkDecoding.MisfitIsRefused | crates/tpx-shard/src/engine.rs:577-586 | blocks with the right checksum that do not decompress, or to another length than the header says, are refused with that error or with both lengths |
| ChunkDecoding.ShortPayloadIsRefused | crates/tpx-shard/src/engine.rs:556-564 | a chunk whose blocks end too early is refused with the size needed and the size there is |
| ChunkDecoding.AcceptedIsSealed | crates/tpx-shard/src/engine.rs:547-586 | a segment that is returned comes out of blocks with the right checksum, by the codec and the filter that the header names |
| ChunkDecoding.SealedIsAccepted | crates/tpx-shard/src/engine.rs:547-586 | and whatever comes out so is returned, for every codec, filter and number of blocks |
| ChunkDecoding.DamageIsReported | crates/tpx-shard/src/engine.rs:532-593 | an entry whose first unreadable chunk is damaged reads as exactly that chunk's error |
| ChunkDecoding.SuccessIsUndamaged | crates/tpx-shard/src/engine.rs:532-593 | a tensor that is returned has the dtype and shape of its entry and consists of chunks with the right checksums |
| Recovery.RecoverCommitted | crates/tpx-shard/src/engine.rs:80-112 | a committed file and any tail recover to the committed table and length if and only if the tail holds no false footer |
| Recovery.CleanLength | crates/tpx-shard/src/engine.rs:80-115 | finding the clean length at the commit is enough to know that the tail was clean |
| Recovery.TornPageEmpties | crates/tpx-shard/src/engine.rs:80-112 | a tail that is not clean: a one-page checkpoint of which only the footer reached the disk makes any archive open as an empty table one page further on |
| Recovery.ZeroTail | crates/tpx-core/src/footer.rs:123-166 | a file extended with any number of zeros has a clean tail |
| FooterSearch.ScanIs | crates/tpx-core/src/footer.rs:123-166 | for any bytes: the scan finds a footer at an offset if and only if its 24 bytes stand there digit by digit, with a table offset below, at the end of the file or right before a multiple of the alignment (at least 512), and none stands at a later such place |
| FooterSearch.ScanIsNone | crates/tpx-core/src/footer.rs:123-166 | and it finds none exactly when none stands at any such place |
| FooterSearch.CleanTailIs | crates/tpx-core/src/footer.rs:123-166 | a tail is clean exactly when no footer stands in it or across its front, at the end or before a multiple of 4096 |
| FooterSearch.BlockLayout | crates/tpx-shard/src/checkpoint.rs:79-94 | a checkpoint block is the table, fewer than 4096 zeros and the footer, in whole pages |
| Recovery.BlockCommits | crates/tpx-shard/src/checkpoint.rs:79-94 | a checkpoint block behind an aligned log commits the table if and only if every entry fits its fields |
| HeaderFormat.HeaderRoundTrip | crates/tpx-core/src/header.rs:58-120 | the header reads back from the front of any file that starts with it |
| Layout.HeaderLayout | crates/tpx-core/src/header.rs:41-95 | the 48 bytes of a new header: magic, version 1.0, the flag, alignment, block size, shard count, zeros |
| Layout.HeaderParse | crates/tpx-core/src/header.rs:97-150 | any bytes: too short, another magic, a major version above one, or alignment and shard count from their places |
| FooterFormat.RoundTrip | crates/tpx-core/src/footer.rs:47-95 | a footer is read back exactly when its end magic is one of the two |
| Layout.FooterLayout | crates/tpx-core/src/footer.rs:47-63 | the 24 bytes of a footer, digit by digit |
| Layout.EndMagics | crates/tpx-core/src/footer.rs:25-45 | a checkpoint ends in "1XPC", a final footer in "1XPT" |
| Layout.FooterParse | crates/tpx-core/src/footer.rs:65-117 | any bytes: the last 24 are a footer if and only if they end in one of the two magics, and its numbers are the digits that stand there |
| FooterFormat.ScanForFooter | crates/tpx-core/src/footer.rs:123-166 | the loop over probe offsets computes the scan |
| FooterFormat.ScanIsLatest | crates/tpx-core/src/footer.rs:123-166 | the scan returns the highest probe with an acceptable footer, and none only if there is none |
| FooterFormat.ScanFindsCommitted | crates/tpx-core/src/footer.rs:123-166 | behind any tail the committed footer is found if and only if no probe of the tail accepts a false one |
| TocFormat.TocRoundTrip | crates/tpx-index/src/toc.rs:127-229 | for entries whose keys, attribute names and text values are any sequences of Unicode scalars in UTF-8: a table followed by any padding is read back if and only if keys, dimensions, chunk counts, attribute names, attribute blocks and the entry count fit their fields |
| TocFormat.EntryRoundTrip | crates/tpx-index/src/toc.rs:132-226 | one entry reads back at any position of a buffer |
| Layout.TocLayout | crates/tpx-index/src/toc.rs:127-132 | the table is its count and its entries, one after the other |
| Layout.EntryLayout | crates/tpx-index/src/toc.rs:132-166 | the bytes of an entry: hash, key length, key, type, shape, attribute block, references, tombstone, each at its place |
| Layout.TypeLayout | crates/tpx-index/src/toc.rs:139-143 | the type code, the number of dimensions and the dimensions |
| Layout.TailLayout | crates/tpx-index/src/toc.rs:145-165 | the length of the attribute block, the block, the number of references, the references and the tombstone |
| Layout.RefLayout | crates/tpx-index/src/toc.rs:158-163 | a reference: shard in two bytes, offset in eight, length in four |
| Layout.EntryRefused | crates/tpx-index/src/toc.rs:179-188 | an entry whose key is not the encoding of any scalars is refused as corrupt, and one with an unknown type code with that code |
| Utf8Text.ValidIsText | crates/tpx-index/src/toc.rs:184-185 | the validator accepts exactly the concatenations of the 1- to 4-byte encodings of scalars 0 to D7FF and E000 to 10FFFF (hexadecimal) |
| Utf8Text.EncodingIsInjective | crates/tpx-index/src/toc.rs:184-185 | different texts have different bytes |
| TocIndex.Toc.Build | crates/tpx-index/src/toc.rs:56-80 | the index sends each hash to the last entry filed under it |
| TocIndex.IndexIsLast | crates/tpx-index/src/toc.rs:61-65 | the same as a statement about the index map |
| TocIndex.Toc.Lookup | crates/tpx-index/src/toc.rs:86-95 | hash, position, key and tombstone checks in order |
| TocIndex.LookupIsFind | crates/tpx-index/src/toc.rs:86-95 | a lookup returns the current entry if and only if no later entry of another key shares its hash |
| TocIndex.Toc.LookupPrefix | crates/tpx-index/src/toc.rs:97-110 | the backward walk with its set of seen keys |
| TocIndex.PrefixIsFind | crates/tpx-index/src/toc.rs:97-110 | exactly the current entries with the prefix, each key once |
| TocIndex.KeysAreLive | crates/tpx-shard/src/engine.rs:644-657 | exactly the live non-empty keys, each once |
| TocIndex.Toc.AddEntry | crates/tpx-index/src/toc.rs:112-117 | entry and index grow together |
| TocIndex.Toc.Tombstone | crates/tpx-index/src/toc.rs:119-125 | every entry of the key is marked, nothing else changes |
| TocIndex.Toc.Serialize | crates/tpx-index/src/toc.rs:127-169 | the bytes of the table format |
| TocIndex.Deserialize | crates/tpx-index/src/toc.rs:171-229 | the reader's loop parses exactly the format, with its first error; what the format refuses as text is said by `Layout.EntryRefused` and `Utf8Text.ValidIsText` |
| AttrsFormat.Attrs.Set | crates/tpx-core/src/attrs.rs:44-59 | values above 4096 bytes are refused, others stored |
| AttrsFormat.Attrs.Serialize | crates/tpx-core/src/attrs.rs:77-121 | records in key order, names cut at 255 bytes |
| AttrsFormat.Attrs.Deserialize | crates/tpx-core/src/attrs.rs:123-190 | the cursor loop parses the records or fails as the format says |
| AttrsFormat.RoundTrip | crates/tpx-core/src/attrs.rs:77-190 | attributes survive serialization if and only if every name fits its one-byte length |
| AttrsFormat.ParsedIsShort | crates/tpx-core/src/attrs.rs:123-190 | bytes never parse to attributes that would need more bytes, so an attribute block cut to 32 bits never comes back whole |
| Layout.AttrLayout | crates/tpx-core/src/attrs.rs:77-121 | the bytes of an attribute record: name length, name, type code, value length, value |
| Layout.ValueLayout | crates/tpx-core/src/attrs.rs:93-117 | type codes 0 to 4: text, a number in two's complement, a float's bits, one byte, raw bytes |
| Layout.CutName | crates/tpx-core/src/attrs.rs:85-90 | a name over 255 bytes is written as its first 255 |
| Layout.AttrParse | crates/tpx-core/src/attrs.rs:123-190 | any record that is all there: what is refused, in order and with which error, and what is read |
| Layout.ValueParse | crates/tpx-core/src/attrs.rs:157-184 | values by type code: text, eight bytes in two's complement, eight bytes, one byte, or anything |
| KeyOrder.Sorted | crates/tpx-core/src/attrs.rs:80-81 | all keys of a set once, none missing and none else |
| KeyOrder.SortedByBytes | crates/tpx-core/src/attrs.rs:80-81 | in the order of unsigned bytes at the first difference, a proper prefix first |
| ChunkFormat.Serialize | crates/tpx-core/src/chunk.rs:40-62 | the bytes of a chunk header and its block table |
| ChunkFormat.Deserialize | crates/tpx-core/src/chunk.rs:64-110 | the parser, with its errors in order |
| ChunkFormat.RoundTrip | crates/tpx-core/src/chunk.rs:40-110 | header and table read back in front of any payload |
| Layout.ChunkLayout | crates/tpx-core/src/chunk.rs:40-62 | the 16 bytes in front of a chunk, digit by digit |
| Layout.ChunkFixedParse | crates/tpx-core/src/chunk.rs:64-90 | any 16 bytes: an unknown codec or filter is refused with its code, and otherwise the fields are the digits that stand there |
| Layout.ChunkParse | crates/tpx-core/src/chunk.rs:64-110 | any bytes: too short, fixed fields that are refused, a table cut off, or the header and a table of the digits that stand there |
| Layout.Codes | crates/tpx-core/src/types.rs:62-175 | codec, filter and type codes are the places in their lists, and codes past the end are refused with the code |
| ChunkFormat.Padded | crates/tpx-core/src/chunk.rs:113-123 | the shortest zero padding to a multiple of the alignment |
| Backend.MmapBackend.FlushBufferInternal | crates/tpx-io/src/mmap.rs:61-75 | writes the buffer out without changing the flat array |
| Backend.MmapBackend.Append | crates/tpx-io/src/mmap.rs:113-154 | the flat array grows by the data at its old length, in all three branches; the buffer is written out exactly when it or the data reaches 1 MiB |
| Backend.MmapBackend.WriteAt | crates/tpx-io/src/mmap.rs:79-93 | the flat array is patched at the offset |
| Backend.MmapBackend.ReadAt | crates/tpx-io/src/mmap.rs:95-111 | the bytes of the flat array, or an error exactly past its end; the buffer is written out exactly when the range reaches into it |
| Backend.MmapBackend.Sync | crates/tpx-io/src/mmap.rs:160-167 | the whole flat array is on disk |
| Backend.MmapBackend.Truncate | crates/tpx-io/src/mmap.rs:169-178 | buffered bytes are lost, the file cut or extended |
| BackendInterleaving.StepInv | crates/tpx-io/src/mmap.rs:61-154 | every atomic step of appenders, flushers and readers keeps the invariant and only extends the log |
| BackendInterleaving.RunInv | crates/tpx-io/src/mmap.rs:61-154 | the invariant holds in every state of every run |
| BackendInterleaving.ReadsAreExact | crates/tpx-io/src/mmap.rs:101-111 | a read of a range appended before it began ends with exactly those bytes, in every interleaving |
| BackendInterleaving.AppendsAreDisjoint | crates/tpx-io/src/mmap.rs:113-154 | appends never share a byte, and length is start plus buffer whenever the lock is free |
| BackendInterleaving.LockFrees | crates/tpx-io/src/mmap.rs:61-154 | whoever holds the buffer lock lets go of it by its own steps, four at most |
| BackendInterleaving.ReadEnds | crates/tpx-io/src/mmap.rs:61-111 | no reader is ever stuck: it can be done after ten steps at most, and after three of its own if its range is in the file already |
| BackendInterleaving.AppendBegins | crates/tpx-io/src/mmap.rs:113-122 | at rest any append may begin, and is given the end of everything reserved before |
| BackendInterleaving.ReadBegins | crates/tpx-io/src/mmap.rs:101-105 | a read of any range of returned appends may begin at any time |
| Cdc.CdcChunk | crates/tpx-dedup/src/cdc.rs:65-121 | the chunking loop yields the segments function, whose segments are the only ones that the content allows (`CdcProperties.SegmentsAreUnique`) |
| Cdc.ScanBoundary | crates/tpx-dedup/src/cdc.rs:98-108 | the scan loop yields the first cut |
| CdcProperties.SegmentsTile | crates/tpx-dedup/src/cdc.rs:65-121 | segments cover the data without gap or overlap, each with the hash of its bytes |
| CdcProperties.SegmentSizes | crates/tpx-dedup/src/cdc.rs:83-118 | none above the maximum, all but the last above the minimum |
| CdcProperties.DefaultSizes | crates/tpx-dedup/src/cdc.rs:54-63 | 32 KiB and 512 KiB under the default configuration |
| CdcProperties.PrefixStable | crates/tpx-dedup/src/cdc.rs:65-121 | appending bytes changes no segment but the last |
| CdcProperties.SuffixStable | crates/tpx-dedup/src/cdc.rs:83-118 | inputs that cut at the start of a common suffix have the same segments from there on, shifted |
| CdcProperties.FindCutIsFirst | crates/tpx-dedup/src/cdc.rs:98-108 | the cut is the first position whose rolling hash meets the mask |
| CdcProperties.SegmentsCutRight | crates/tpx-dedup/src/cdc.rs:83-118 | every segment of every input: longer than the minimum unless it is the last, without a boundary of the content inside, and ending at one unless it is as long as the maximum or the last |
| CdcProperties.SegmentsAreUnique | crates/tpx-dedup/src/cdc.rs:65-121 | segments that tile the data within the maximum and are cut so are the ones computed |
| CdcProperties.WindowDecidesCut | crates/tpx-dedup/src/cdc.rs:101-104 | with a mask below 2^m the test depends on the last m bytes only, although the hash is 64 bits wide and wraps |
| CdcProperties.DefaultWindow | crates/tpx-dedup/src/cdc.rs:60-60 | 17 bytes for the default mask, whatever the scans began with |
| CdcProperties.Resynchronise | crates/tpx-dedup/src/cdc.rs:83-118 | for any mask below 2^w: two inputs end alike from w bytes before a content cut of the first; if the second has scanned w bytes there, it cuts there too, and from then on the segments are the same, shifted |
| CdcProperties.MaskedIsZero | crates/tpx-dedup/src/cdc.rs:104-104 | the test against the mask is that no bit is set in both |
| CdcProperties.GearTable | crates/tpx-dedup/src/cdc.rs:3-15 | the gear table: its first entry, and each one from the entry before |
| ContentStoreModel.ContentStore.Insert | crates/tpx-dedup/src/content_store.rs:46-52 | an entry already there is kept |
| ContentStoreModel.ContentStore.AddRef | crates/tpx-dedup/src/content_store.rs:54-61 | the counter goes up by one, on 32 bits |
| ContentStoreModel.ContentStore.Release | crates/tpx-dedup/src/content_store.rs:63-71 | the stored counter wraps below zero while the returned one saturates |
| VersionChainModel.ApplyRetention | crates/tpx-version/src/chain.rs:103-126 | exactly the last versions are kept: one for `KeepLatest`, the smaller of their number and n, but at least one, for `KeepLastN(n)`, all for `KeepForever`; the hashes of exactly the others are returned in order |
| VersionChainModel.Append | crates/tpx-version/src/chain.rs:87-101 | the next id, the pushed version, and of all versions with the new one exactly the last ones that the policy keeps |
| VersionChainModel.AppendKeepsIds | crates/tpx-version/src/chain.rs:87-126 | ids stay consecutive and end one later, under every policy |
| VersionChainModel.AppendConserves | crates/tpx-version/src/chain.rs:87-126 | hashes before plus hashes added are hashes kept plus hashes evicted |
| VersionChainModel.HashesInOrder | crates/tpx-version/src/chain.rs:103-126 | the hashes of a run of versions are those of each version, one after the other |
| Chimp.OneSync | crates/tpx-codec/src/chimp128.rs:72-142 | same bits and same state before: the decoder reads the encoder's value and both reach the same state |
| Chimp.PayloadSync | crates/tpx-codec/src/chimp128.rs:115-142 | the same for one XOR payload, with kept or renewed zero bounds |
| Chimp.Unshift | crates/tpx-codec/src/chimp128.rs:115-124 | shifting the written bits back up restores the XOR word |
| Chimp.AllSync | crates/tpx-codec/src/chimp128.rs:245-274 | from equal states the decoder follows over any number of values |
| Chimp.RoundTrip | crates/tpx-codec/src/chimp128.rs:60-157 | decoding a finished stream gives the values back in order, all of them if and only if there are fewer than 2^32 |
| Chimp.BestIsBest | crates/tpx-codec/src/chimp128.rs:86-96 | the history search returns a candidate with the most leading zeros |
| ChimpFormat.EncodedValue | crates/tpx-codec/src/chimp128.rs:72-113 | what is written for any value in any state, said by leading zeros over all 128 slots: if some slot has more in common than the previous value, 01, the first best slot in seven bits and its payload; otherwise 1 and the payload of the previous value; 00 for a repetition |
| ChimpFormat.WrittenPayload | crates/tpx-codec/src/chimp128.rs:115-142 | a payload is one false bit and the bits between the remembered bounds when the zero counts are those, and otherwise a true bit, both bounds in six bits and the bits between |
| ChimpFormat.SearchIsFirst | crates/tpx-codec/src/chimp128.rs:86-96 | the search returns the first of the best slots, and none only if none is better than the previous value |
| ChimpFormat.FinishedStream | crates/tpx-codec/src/chimp128.rs:60-157 | the output: the number of values, least significant byte first, and then the bits of each value in order from an empty history, packed from the top of each byte |
| Chimp.OneSize | crates/tpx-codec/src/chimp128.rs:72-113 | no value takes more than 85 bits |
| Chimp.SizeBound | crates/tpx-codec/src/chimp128.rs:72-157 | n values take at most 4 + ceil((64 + 85(n-1)) / 8) bytes |
| ChimpCoder.Encoder.WriteBits | crates/tpx-codec/src/chimp128.rs:42-58 | the per-bit loop appends exactly the low bits, most significant first |
| ChimpCoder.Encoder.EncodePayload | crates/tpx-codec/src/chimp128.rs:115-142 | state and output move as the payload format says |
| ChimpCoder.Encoder.EncodeWord | crates/tpx-codec/src/chimp128.rs:72-113 | state and output move as the format says for one value, and the bits written are those of `ValueBits`: the first value whole; two bits for a repetition; the first slot with the most leading zeros in common if it has more than the previous value; otherwise the previous value; bounds only when they change |
| ChimpCoder.Encoder.EncodeF64 | crates/tpx-codec/src/chimp128.rs:66-70 | one more value is encoded |
| ChimpCoder.Encoder.Finish | crates/tpx-codec/src/chimp128.rs:144-157 | count and packed bits of exactly the encoded values |
| ChimpCoder.PackTail | crates/tpx-codec/src/chimp128.rs:144-151 | the shifted last byte is the zero-padded rest of the bits |
| ChimpCoder.Decoder.ReadBit | crates/tpx-codec/src/chimp128.rs:200-215 | the next bit of the stream, zero past its end |
| ChimpCoder.Decoder.ReadWord | crates/tpx-codec/src/chimp128.rs:217-224 | the next bits as the low end of a word |
| ChimpCoder.Decoder.DecodeWord | crates/tpx-codec/src/chimp128.rs:245-274 | value, state and position move as the format says |
| ChimpCoder.Decoder.DecodeF64 | crates/tpx-codec/src/chimp128.rs:236-243 | the next value of the stream, or nothing once the count is reached |
| ChimpCoder.OpenDecoder | crates/tpx-codec/src/chimp128.rs:174-198 | too short a buffer is refused, and the decoder of any other one holds exactly the values it decodes to |
| ChimpCodec.Compress | crates/tpx-codec/src/lib.rs:55-74 | the loops encode the whole elements of the input |
| ChimpCodec.Decompress | crates/tpx-codec/src/lib.rs:76-102 | the loop collects the decoded bytes and checks their length |
| ChimpCodec.CodecRoundTrip | crates/tpx-codec/src/lib.rs:55-102 | the whole elements, of eight bytes for Float64 and four for every other type, come back when their length is asked for, and otherwise both lengths are reported |
| ChimpCodec.CodecExact | crates/tpx-codec/src/lib.rs:55-102 | asked for the original length, the input comes back if and only if it is a multiple of eight bytes for Float64 and of four for every other type |
| ChimpCodec.CompressedIs | crates/tpx-codec/src/lib.rs:55-74 | compressing writes the stream of the whole floats, eight bytes each for Float64 and four for every other type, whose bits are read least significant byte first, a 32-bit float in the upper half |
| Bits.PackHolds | crates/tpx-codec/src/chimp128.rs:144-151 | packing adds at most seven zero bits, and takes one byte per eight bits rounded up |
| BitShuffle.RoundTrip | crates/tpx-filter/src/bit_shuffle.rs:4-50 | each direction undoes the other for every length |
| BitShuffle.PositionUnique | crates/tpx-filter/src/bit_shuffle.rs:17-22 | plane and byte fix the bit position |
| BitShuffle.ShuffledPlanes | crates/tpx-filter/src/bit_shuffle.rs:15-24 | bit k of byte i, counted by powers of two, becomes bit (nk + i) mod 8 of byte (nk + i) / 8 |
| BitShuffle.Shuffle | crates/tpx-filter/src/bit_shuffle.rs:4-27 | the nested loops compute the planes; the guard never drops a bit |
| BitShuffle.Unshuffle | crates/tpx-filter/src/bit_shuffle.rs:29-50 | the nested loops gather the bytes back |
| ByteShuffle.RoundTrip | crates/tpx-filter/src/byte_shuffle.rs:5-52 | each direction undoes the other for every element size and remainder |
| ByteShuffle.ShuffledAt | crates/tpx-filter/src/byte_shuffle.rs:14-19 | byte b of element i comes to stand at place i of run b |
| ByteShuffle.ShuffledRuns | crates/tpx-filter/src/byte_shuffle.rs:5-28 | the same for every byte of every element, and the bytes after the last whole element stay |
| ByteShuffle.Shuffle | crates/tpx-filter/src/byte_shuffle.rs:5-28 | the nested loops and the tail copy compute the shuffle |
| ByteShuffle.Unshuffle | crates/tpx-filter/src/byte_shuffle.rs:30-52 | the nested loops and the tail copy compute the unshuffle |
| DeltaZigZag.RoundTrip | crates/tpx-filter/src/delta_zigzag.rs:7-206 | each direction undoes the other for every type and length, with wrapping differences and a raw tail |
| DeltaZigZag.FoldBack | crates/tpx-filter/src/delta_zigzag.rs:22-23 | folding a difference loses nothing, and is 2d for d at least 0 and -2d-1 below |
| DeltaZigZag.EncodedIsSteps | crates/tpx-filter/src/delta_zigzag.rs:11-33 | each whole element of the output stands for the signed step from the element before, the first from zero, up to a multiple of 256^width and for no other; the rest stays |
| DeltaZigZag.StepsByType | crates/tpx-filter/src/delta_zigzag.rs:7-103 | eight, four, two and one bytes by type, and floats unchanged |
| DeltaZigZag.EncodeElements | crates/tpx-filter/src/delta_zigzag.rs:11-33 | the element loop and the tail copy compute the encoding |
| DeltaZigZag.DecodeElements | crates/tpx-filter/src/delta_zigzag.rs:111-134 | the same for decoding |
| Filters.RoundTrip | crates/tpx-filter/src/lib.rs:65-72 | every filter of the registry is a bijection on blocks |
| Filters.FormsByType | crates/tpx-filter/src/lib.rs:65-72 | which filter writes what, with the element sizes 8, 4, 2 and 1 for their types |

## Left out

- ArtTree.ArtTree.Insert: nodes are values held by the class, and a method returns the changed node; the boxes that the code overwrites in place, and their ownership, are not modelled. The lock is not modelled.
- Engine.ShardedEngine.PutBatch: stated for segments whose chunks no compaction has cut off, because a valid engine is what it keeps; `PutWithRetention`, `Delete`, `Get`, `ListVersionIds` and `GetVersion` are stated without that condition. The worker threads are a map over the items in order; a worker that dies is not modelled.
- Engine.ShardedEngine.Compact: stated for a valid engine. What readers get of a tensor with filed segments is described where every segment of every current tensor is filed, not for mixtures. Crash safety during compaction is not claimed, since the file is truncated in place.
- Engine.ShardedEngine.Keys: stated for a valid engine.
- Engine.ShardedEngine.GetPrefix: stated for a valid engine.
- ArchiveRuns.Drive: starts from an archive that has been committed once, and ends where an operation needs a chunk that a compaction cut off, or where the table or file outgrows its fields; what such an archive goes on to do is left to the single methods.
- VersionChainModel.Append: a chain is a value in a map of the engine and the method returns the new chain; ids are unbounded numbers, timestamps are left out.
- Chimp.RoundTrip: a decoder on foreign data may shift by a remembered bound of 255; the model takes the shift count modulo 64, as a release build does. Counts wrap at 2^32, as a release build does.
- DeltaZigZag.EncodeElements: the code repeats the loop for four widths; here one method takes the width.
- Backend.MmapBackend.Truncate: the interleaving machine has appends, flushes and reads, but neither `write_at` nor `truncate`, which the engine only calls while it is being set up or compacted.
- Which chunk reference a radix tree holds for a key: it differs between put and open, and nothing in the engine reads it. The trees of all shards are one sequence of values. Chunk counters of all shards are one sum; version chains of all shards are one map, since a key belongs to one shard.
- What an unwinding caller does after a put that stops: the locks it held and the state it leaves in other threads are not modelled.
- `auto_select` beyond the engine's fixed target of 250.0, which always selects LZ4 without a filter (Raw for an empty sample); entropy and correlation estimates use floating point.
- Parsing of retention names: a policy is passed in.
- Time: the milliseconds since the last checkpoint are a parameter of put.
- LZ4, Zstd, xxHash and CRC internals.
- File locks, memory mapping and operating-system errors: a write succeeds, and `sync` puts every byte on disk. The backend's `durable` field, what is sure to be on disk, is the model's own.
- `surf.rs`, `radix_spline.rs`, the global attributes of the header, `get_batch`, `get_attrs`, `diff`, `close`: they add only easy members.
- The Python bindings, the command line, GPU and acceleration crates, benchmarks.
