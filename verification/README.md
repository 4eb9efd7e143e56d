# AtlasFS in Dafny

AtlasFS is a content-addressed filesystem: file bytes are cut into chunks named by their BLAKE3 hash, chunks are packed
into immutable containers in object storage, and a bbolt metadata store holds names, inodes, chunk locators, a graveyard
of unlinked inodes and a quota. Remote mounts cache metadata under leases. This project models the parts of it whose
correctness is a property of whole runs, and proves those properties.

Verify everything with `dafny verify dfyconfig.toml`.

## How the model is organised

- **Namespace.** `Namespace` gives each metadata transaction as a function from a state to a new state or an error;
  `MetaDB` is the store itself, a class that updates its buckets in place and rolls back, proved to be those functions.
  `Transactions` says of each exactly when it is refused and which fields of which records it changes. `TreeShape` is about
  the directory tree and rename, `Accounting` and `Histories` about link counts, the graveyard and
  quota over every history, `DirCounts` and `DirHistories` about the link counts of directories. `Handlers` is about removals, which
  take several transactions. `Witnesses` are short histories of a fresh store that end where one more call breaks an
  invariant.
- **Content.** `Manifest` (the codec), `Chunking` (chunker and packer), `Storage` and `ContentPath` (locators, containers,
  storing), `FileReading` (ranges read back through two fetch paths and a 16-entry cache), `RoundTrip` (storing and then
  reading, and what corruption or an overflowing length does to it), `Materializer` (the local cache keyed by content).
- **Garbage collection.** `Garbage` defines what a sweep must leave: the *view* of a disk, that is its names, the inodes
  and graves that stay, the chunks that stay located and the bytes each of those reads as. `GarbageWrites` shows that
  each single write of a sweep keeps the view. `Marking`, `Space`, `Repacking` and `Collector` are the algorithms;
  `Collector` keeps a log of the disk after every write, so its theorems hold wherever a run stops. `Grace` is about
  readers that hold an old locator, `OpenHandles` about descriptors that pin an unlinked inode, `Uncommitted` about
  files just unlinked, chunks not yet committed and chunks nothing refers to any more, `SweepLimits` about where these
  guarantees end.
- **Cache coherence.** `Coherence` is the lease manager as a state machine over its critical sections, `LeaseHistory`
  its answers as functions of the history of calls. `LeaseCache` is one client's cache, `CachedAnswers` when it answers
  what, `Protocol` the authority with any number of clients as a transition system over the critical sections and
  messages of both sides, `RecallSafety` what follows for recalls, `PosixWrites` who still answers the old record when a
  recalled inode is written, `MonotonicReads` when an answer goes back in time, `InodeCoherence` from when on a cached
  record is right or about to be invalidated, `Deliveries` that clients are told only what happened, `Chronicle` what is
  registered, waits, is owed and is lost as functions of the run, `Settling` what can always be brought to an end,
  `LeaseAge` how old an answer can be, `ProtocolLimits` how the handlers fit in and where the guarantees end.
  `Invalidation` shows that each mutation bumps the right keys. `WriteSession` is the buffered writer of a remote mount.

Hashing is a parameter `sum`. Where a result needs that certain bytes have no second preimage it says so with
`NoCollision`; nothing assumes that the hash is injective. Clocks are parameters or advance by arbitrary amounts.
Failures of the backend and of requests are parameters.

## Where the code does less than its documentation says

Each of these is a proved statement: a concrete failing case, and the exact condition.

- Renaming one name of a file onto another name of the same file leaves its count one too high
  (`Histories.RenameCountsIff`, at `Witnesses.RenameMiscounts`).
- Linking an inode that is already in the graveyard leaves it there with a name (`Histories.LinkBuriedIff`,
  `Witnesses.LinkMisburies`).
- A detached write to an inode that still has a name changes its size without charging it (`Histories.DetachedExactIff`,
  `Witnesses.DetachedMischarges`).
- RemoveEntry and the create paths trust their callers: removing a directory that has entries, or publishing, committing,
  linking or renaming into a removed one, takes names off the tree (`Histories.RemoveTreeIff`, `Histories.PublishTreeIff`
  and the lemmas beside it, `Witnesses.RemoveCutsOff`, `Witnesses.PublishHangsOff` and the lemmas beside it).
- Rmdir looks its name up, lists the directory and removes the entry in separate transactions, at the authority too, where
  the check was put to avoid a race. It keeps the tree exactly if what the name leads to at the end has no entries then
  (`Handlers.RmdirTreeIff`): a file put there after the listing is cut off (`Handlers.RmdirCutsOff`), and a file that took
  the name is removed (`Handlers.RmdirTakesFile`). Unlink likewise takes whatever has the name by then
  (`Handlers.UnlinkTakesOther`).
- Renaming a directory over an empty directory miscounts the parent's links (`DirCounts.RenameDirCountsIff`,
  `Witnesses.RenameMiscountsDirs`).
- A rename to the empty name succeeds and the file can no longer be resolved (`TreeShape.RenameResolvableIff`,
  `Witnesses.RenameHides`).
- Compact stamps every retirement with the time it started, so a long compaction eats into the grace period of readers:
  a locator is good for the grace period less how late the retirement was written (`Grace.StaleReaderProtected`), and from
  a lateness of the grace minus the minimum grace on, a reader can lose its bytes (`SweepLimits.StaleReaderLost`).
- Sweep reports how many chunk IDs it meant to forget. That is the number of locator entries removed exactly if every
  unmarked chunk of an entry past grace still had its locator (`Collector.Collector.Sweep`); after a sweep that was stopped
  between a chunk and its inode it is not (`SweepLimits.MiscountReached`).
- A sweep stopped after an inode's record went and before its graveyard entry did is finished by the next one only if that
  entry is past grace and unpinned for it too. Otherwise, as after a longer grace was set, the mark phase fails, and so does
  every sweep until then (`SweepLimits.ResumesIff`, `SweepLimits.StuckReached`).
- A commit made while a sweep is running, once the sweep has its marks, can lose chunks it found already stored. A chunk
  survives exactly if it was live when the marks were made, or, once the commit is done, belongs to no entry past grace and
  lies in no old container (`Collector.Collector.SweepDuring`). The orphan phase takes an old orphan from under a new file
  (`SweepLimits.DedupLost`), the graveyard phase a chunk of an unlinked file even from a young container
  (`SweepLimits.BuriedLost`).
- A read that fails can leave unverified bytes in the caller's buffer, past those it returns: the direct path fetches into
  the buffer before it checks the hash. It cannot if no entry lies wholly inside the range asked for
  (`FileReading.FileReader.ReadAt`), and if the first lost chunk of the range does, it does so exactly if what was delivered
  differs from what was there (`FileReading.FileReader.ReadStored`, `RoundTrip.CorruptReadSpills`).
- A manifest stores chunk lengths and the number of chunks in four bytes each. A file stored through a manifest reads back
  exactly if both fit (`ContentPath.StoredReadsBackIff`, `ContentPath.WidthsExceeded`). If its first chunk does not, a read
  that starts before the shortened length succeeds with the right bytes through the cache and fails on the direct path
  (`RoundTrip.ReadShortened`), and a read past it succeeds with bytes of the second chunk (`RoundTrip.ReadShifted`).
- A hit in the local cache hands out a path: the file can be gone before it is opened (`Materializer.HitEvicted`). An entry
  survives the arrival of another exactly if the two and those before it fit the budget (`Materializer.Cache.Finish`).
- The authority's Rename bumps neither the moved nor the displaced inode (`ProtocolLimits.RenameUntold`). In the posix class
  the displaced one is recalled before the rename, which leaves the time between the two. Unlink and Rmdir bump the inode
  they looked up, and change the one they then find: the changed one is bumped exactly if they are the same. Every other
  record a handler changes is bumped (`ProtocolLimits.HandlerTells`), and whenever one is not, a client that fetched it
  answers the old record with nothing on its way (`InodeCoherence.UntoldLeavesStale`, `InodeCoherence.RenameLeavesStale`,
  `InodeCoherence.UnlinkLeavesStale`).
- A local mount's Unlink, Rmdir and Rename look up what they will bump before their transaction in the same way; they bump
  all they change exactly if they had found it (`Invalidation.BumpsComplete`, `Invalidation.RemovalMissed`).
- A recall does not keep other clients from answering the old record when the write is made
  (`PosixWrites.WriteFinds`, `PosixWrites.AnswersIff`). It does not ask one that is granted a lease after it
  (`PosixWrites.GrantedAfter`), whose lease lapsed at the authority, though the client counts from when it stored the record
  (`PosixWrites.LapsedFirst`), or was taken by an earlier recall (`PosixWrites.RevokedBefore`); it does not wait beyond its
  deadline (`PosixWrites.Unanswering`); and an acknowledgement is a request of its own, sent after the drop, so a GetInode
  asked in between brings the record back before the client acknowledges (`RecallSafety.AckedGetIgnored`,
  `RecallSafety.HeldAtAck`, `PosixWrites.AckedAndBack`). The handler recalls the inode it looked up, and may write another
  (`ProtocolLimits.RecalledFirst`, `ProtocolLimits.CommitRecallsOther`).
- Reads of one client are not monotonic: it stores whatever response arrives as long as it has not dropped the inode, and
  the lease's version is not looked at. Its view goes back exactly if a response that was read earlier arrives later
  (`MonotonicReads.KeepGoesBackIff`, `MonotonicReads.GoesBack`).
- A client's Lookup reads the inode's epoch when the response has arrived, so it can restore a record whose recall the
  client has acknowledged (`ProtocolLimits.LookupRestoresRecalled`, `RecallSafety.LookupStoredIff`).
- The authority reads a record before it registers the client for it. A write announced between the two finds nobody to
  tell, and the client answers the old record with nothing on its way (`InodeCoherence.ReadBeforeGrantStale`). A cached
  record is right or about to be invalidated ever after if it was when its registration was made, for a Lookup when it read
  the epoch, and, until something more about the inode is announced, only if it was (`InodeCoherence.RecordCoherence`).
- When a push is lost, the age of a cached binding is not bounded by the lease (`LeaseAge.AgeUnbounded`): it is bounded
  by its own lease exactly as long as no other Lookup in the directory has renewed that (`LeaseAge.BindingAge`).
- A flush asks where its name leads and then commits, in two requests. If the name is unlinked or passes to another file in
  between, or if the first request fails, it can bring the name back or overwrite another file
  (`WriteSession.FlushKeepsNamesIff`, `WriteSession.FlushClobbersIff`, `WriteSession.FlushRecreates`,
  `WriteSession.FlushClobbers`).
- Two holder and name pairs can share a negative-cache key when a name contains a NUL (`Coherence.NegKeysCollideIff`); one
  lookup of such a name makes a name that is bound a trusted miss for another holder (`Invalidation.NulMisleads`).

## Model

| member | source | states |
|---|---|---|
| `TreeShape.TreeIsAcyclic` | pkg/metadb/metadb.go:696-714 | in a tree, no walk of one or more names leads from a directory back to itself |
| `TreeShape.ReachableIffNamed` | pkg/metadb/metadb.go:931-952 | an inode is reachable from the root by some path exactly when some dentry names it |
| `TreeShape.RenameRefusesExactlyCycles` | pkg/metadb/metadb.go:600-683 | for every input, rename reports an invalid rename if and only if a directory would move into itself or below itself |
| `TreeShape.RenameKeepsTree` | pkg/metadb/metadb.go:600-683 | after any rename the directories are still one tree rooted at the root |
| `TreeShape.RenameMovesPaths` | pkg/metadb/metadb.go:600-683 | for every suffix, resolving the new path plus the suffix after the rename gives what the old path plus the suffix gave before |
| `TreeShape.RenameResolvableIff` | pkg/metadb/metadb.go:600-683 | the moved inode resolves at its new name if and only if that name is not empty |
| `TreeShape.RenameKeepsOtherPaths` | pkg/metadb/metadb.go:600-683 | a path to an inode outside the moved subtree, other than the displaced one, still resolves to it |
| `TreeShape.ResolveIff` | pkg/metadb/metadb.go:931-952 | a path resolves to an inode if and only if its non-empty components lead there one after the other through inodes with records |
| `Transactions.QuotaRefusesIff` | pkg/metadb/metadb.go:1193-1236 | a change is refused if and only if a positive delta added to usage passes a limit that is set; otherwise usage moves by exactly the deltas |
| `Transactions.PublishRefusedIff` | pkg/metadb/metadb.go:1279-1307 | each error of publish if and only if its cause holds and no earlier one does, and success if and only if none does |
| `Transactions.PublishDoes` | pkg/metadb/metadb.go:1279-1307 | the new inode has the record given and its charge, the parent new times, and nothing else changes |
| `Transactions.CommitRefusedIff` | pkg/metadb/metadb.go:1389-1465 | the same for create and overwrite, a shrinking overwrite never being refused for quota |
| `Transactions.CommitDoes` | pkg/metadb/metadb.go:1389-1465 | an overwrite replaces content, size, kind and times of one record, keeps its links, mode, owner and access time, and charges the difference; a create is as publish |
| `Transactions.MkdirRefusedIff` | pkg/metadb/metadb.go:1474-1510 | each error of mkdir exactly |
| `Transactions.MkdirDoes` | pkg/metadb/metadb.go:1474-1510 | as publish, with the parent counting one more |
| `Transactions.LinkRefusedIff` | pkg/metadb/metadb.go:538-576 | each error of link exactly |
| `Transactions.LinkDoes` | pkg/metadb/metadb.go:538-576 | of the target only count and change time, of the parent only times |
| `Transactions.RemoveRefusedIff` | pkg/metadb/metadb.go:466-490 | removal fails only when the name, its inode or the directory is missing |
| `Transactions.RemoveDoes` | pkg/metadb/metadb.go:466-532 | of the removed inode only count and change time, with grave and refund if and only if it was the last name; of the parent only times, and its count if a directory went |
| `Transactions.RenameRefusedIff` | pkg/metadb/metadb.go:600-683 | each error of rename exactly, and that none is left |
| `Transactions.RenameDoes` | pkg/metadb/metadb.go:600-683 | of the moved record only the change time; of the displaced one what losing a name changes, with grave and refund; of the two directories only times, and counts if a directory moved between them; every other record is equal |
| `Transactions.DetachedDoes` | pkg/metadb/metadb.go:1016-1028 | a detached write changes size, content and times of one record |
| `Transactions.SetAttrDoes` | pkg/metadb/setattr.go:31-74 | only the attributes asked for and the change time of one record; only permission bits; changing a file's owner drops its set-ID bits |
| `Transactions.HistoryKeepsPersona` | pkg/metadb/metadb.go:466-1510 | over every history, content, size, mode, owner and kind of an inode change only by writing it, setting its attributes or sweeping it |
| `MetaDB.DB.constructor` | pkg/metadb/metadb.go:207-308 | a fresh store holds the root alone and satisfies every invariant |
| `MetaDB.DB.RemoveEntry` | pkg/metadb/metadb.go:466-490 | the in-place transaction is the specified function, and an error leaves every bucket as it was |
| `MetaDB.DB.Link` | pkg/metadb/metadb.go:538-576 | the same for link |
| `MetaDB.DB.PublishFile` | pkg/metadb/metadb.go:1279-1307 | the same for publish, including the inode drawn |
| `MetaDB.DB.CommitFile` | pkg/metadb/metadb.go:1389-1465 | the same for create and overwrite |
| `MetaDB.DB.CommitMkdir` | pkg/metadb/metadb.go:1474-1510 | the same for mkdir |
| `MetaDB.DB.UpdateInodeContent` | pkg/metadb/metadb.go:1016-1028 | the same for a detached write |
| `MetaDB.DB.ParentOf` | pkg/metadb/metadb.go:724-732 | the scan finds a dentry naming the child, or there is none |
| `MetaDB.DB.CheckNotDescendant` | pkg/metadb/metadb.go:696-714 | the walk up terminates and refuses exactly when the start lies within the ancestor |
| `MetaDB.DB.Rename` | pkg/metadb/metadb.go:600-683 | the in-place rename is the specified function, an error rolls everything back, and it refuses with an invalid rename exactly the moves that would make a cycle |
| `MetaDB.DB.Resolve` | pkg/metadb/metadb.go:931-952 | the loop resolves as the recursive definition does and returns the record found, errors included |
| `MetaDB.DB.EnsureDirCharged` | pkg/metadb/metadb.go:1314-1346 | it succeeds if and only if every missing component can be made, stops at the first that cannot with that error, and has then made exactly those before it: one inside the other, with this record, one inode charged each; nothing else but the counts and times of their parents changes |
| `Accounting.CreateBalanced` | pkg/metadb/metadb.go:1279-1307 | creating a fresh inode under a free name keeps counts, graveyard and usage exact |
| `Accounting.UnbindLast` | pkg/metadb/metadb.go:502-532 | dropping the last name returns exactly the inode's charge: usage never goes below zero, so the clamp never fires |
| `Accounting.UnbindBalanced` | pkg/metadb/metadb.go:466-532 | removing any name keeps counts, graveyard and usage exact |
| `Accounting.MoveBalanced` | pkg/metadb/metadb.go:600-683 | moving a name to a free slot keeps counts, graveyard and usage exact |
| `Histories.RenameKeepsInv` | pkg/metadb/metadb.go:600-683 | a rename, displacing or not, keeps tree, counts, graveyard and quota |
| `Histories.StepKeepsInv` | pkg/metadb/metadb.go:466-1510 | every transaction, and both writes of a sweep, keep them |
| `Histories.HistoryKeepsInv` | pkg/metadb/metadb.go:466-1510 | over every history: link counts are the numbers of names, graves are exactly the unnamed inodes, no dentry names a missing inode, usage is the sum over named inodes |
| `Histories.GrowthWithinLimit` | pkg/metadb/metadb.go:1193-1236 | no transaction grows a usage past its limit |
| `Histories.LimitHolds` | pkg/metadb/metadb.go:1193-1236 | over every history without another setting of the limits, from every state on, usage never passes the greater of the limit and what is used then |
| `Histories.LimitsSet` | pkg/metadb/metadb.go:1240-1250 | so limits that are set, even below usage, change none of it and bound it from then on |
| `Witnesses.LimitBelowUsage` | pkg/metadb/metadb.go:1240-1250 | a reachable store with a limit below usage: creating is refused, removing brings usage down to it |
| `Histories.RenameCountsIff` | pkg/metadb/metadb.go:645-683 | link counts survive a rename if and only if the two names are not of one inode |
| `Histories.LinkBuriedIff` | pkg/metadb/metadb.go:558-564 | the graveyard stays right after a link if and only if the target was not in it |
| `Histories.DetachedExactIff` | pkg/metadb/metadb.go:1016-1028 | usage stays exact after a detached write if and only if the inode has no name or its size did not change |
| `Histories.RemoveTreeIff` | pkg/metadb/metadb.go:466-490 | the tree survives RemoveEntry if and only if what is removed has no entries |
| `Histories.PublishTreeIff` | pkg/metadb/metadb.go:1279-1307 | the tree survives a publish if and only if the directory is reachable |
| `Histories.CommitTreeIff` | pkg/metadb/metadb.go:1389-1465 | so for a file committed under a new name |
| `Histories.MkdirTreeIff` | pkg/metadb/metadb.go:1474-1510 | so for a new directory |
| `Histories.LinkTreeIff` | pkg/metadb/metadb.go:538-576 | so for a new link |
| `Histories.RenameTreeIff` | pkg/metadb/metadb.go:600-683 | the tree survives a rename if and only if the target directory is reachable |
| `Histories.ReclaimInvIff` | pkg/metadb/metadb.go:776-780 | deleting an inode record keeps every invariant if and only if the inode is in the graveyard |
| `Histories.ForgetInvIff` | pkg/metadb/metadb.go:836-840 | removing a graveyard entry keeps every invariant if and only if the record is gone |
| `Handlers.RmdirTreeIff` | pkg/mds/server.go:402-438 | over the four transactions of an Rmdir, the tree survives if and only if what the name leads to in the last has no entries then |
| `Handlers.RmdirTakes` | pkg/mds/server.go:402-438 | an Rmdir that succeeds found a directory without entries and removes what the name leads to by then |
| `Handlers.RmdirRefusedIff` | pkg/repo/write.go:347-376 | each error of Rmdir with its exact cause, over the four transactions |
| `Handlers.RmdirUndisturbed` | pkg/repo/write.go:347-376 | if nobody rebound the name or put an entry in, an Rmdir keeps the tree and the accounts |
| `Handlers.UnlinkTakes` | pkg/mds/server.go:259-281 | an Unlink succeeds if and only if the name is bound in both its transactions, takes it from what it leads to in the second, and keeps the tree if and only if that has no entries |
| `Handlers.RemovalTakes` | pkg/mds/server.go:259-281 | the removal takes a name from whatever it leads to then; a file's record always changes, a directory's unless it has no links and this change time |
| `Handlers.RmdirCutsOff` | pkg/mds/server.go:415-430 | a reachable empty directory, a file put into it after the listing, and an Rmdir that cuts the file off the tree |
| `Handlers.RmdirTakesFile` | pkg/mds/server.go:403-430 | a name that passed to a file after the listing, and an Rmdir that removes the file |
| `Handlers.UnlinkTakesOther` | pkg/mds/server.go:261-274 | a name that passed to another file after the lookup, and an Unlink that removes that one |
| `DirCounts.MkdirCounts` | pkg/metadb/metadb.go:1474-1510 | mkdir keeps every directory's count at two plus its subdirectories |
| `DirCounts.RmdirCounts` | pkg/metadb/metadb.go:466-490 | so does removing an empty directory |
| `DirCounts.RenameDirCountsIff` | pkg/metadb/metadb.go:655-683 | so does a rename, if and only if it displaces no directory |
| `DirHistories.HistoryKeepsCounts` | pkg/metadb/metadb.go:466-1510 | over every history of file and directory transactions and sweeps in which no directory is renamed onto another, every reachable directory counts two plus its subdirectories |
| `Witnesses.RenameMiscounts` | pkg/metadb/metadb.go:645-683 | a reachable state and a rename between two names of one file after which its count is wrong |
| `Witnesses.LinkMisburies` | pkg/metadb/metadb.go:558-564 | a reachable state and a link after which the graveyard is wrong |
| `Witnesses.DetachedMischarges` | pkg/metadb/metadb.go:1016-1028 | a reachable state and a detached write after which usage is wrong |
| `Witnesses.RemoveCutsOff` | pkg/metadb/metadb.go:466-490 | a reachable state and a removal after which a name hangs off no reachable directory |
| `Witnesses.PublishHangsOff` | pkg/metadb/metadb.go:1279-1307 | a reachable state and a publish after which the same is so |
| `Witnesses.CommitHangsOff` | pkg/metadb/metadb.go:1389-1465 | so a commit |
| `Witnesses.MkdirHangsOff` | pkg/metadb/metadb.go:1474-1510 | so a mkdir |
| `Witnesses.LinkHangsOff` | pkg/metadb/metadb.go:538-576 | so a link |
| `Witnesses.RenameHangsOff` | pkg/metadb/metadb.go:600-683 | so a rename |
| `Witnesses.RenameHides` | pkg/metadb/metadb.go:600-683 | a reachable state and a rename after which the file does not resolve at its name |
| `Witnesses.RenameMiscountsDirs` | pkg/metadb/metadb.go:655-683 | a reachable, rightly counted state and a rename after which a directory is miscounted |
| `Manifest.DecodeUndoesEncode` | pkg/manifest/manifest.go:71-124 | decoding an encoded version-1 manifest whose fields fit gives it back, whatever follows in the stream |
| `Manifest.DecodeAcceptsExactly` | pkg/manifest/manifest.go:99-124 | decode succeeds with a manifest if and only if the manifest fits and its encoding is a prefix of the input |
| `Manifest.EncodeInjective` | pkg/manifest/manifest.go:71-96 | manifests with equal encodings are equal |
| `Manifest.EncodeLayout` | pkg/manifest/manifest.go:71-85 | the offset, width and order of every field of the format |
| `Manifest.BigEndianDigits` | pkg/manifest/manifest.go:135-160 | integers are written most significant byte first |
| `Manifest.DecodeRefusesIff` | pkg/manifest/manifest.go:99-124 | input is refused if and only if its version is another or it is shorter than its header and declared entries |
| `Manifest.DecodeCrops` | pkg/manifest/manifest.go:71-124 | a manifest with more entries than four bytes can count decodes to its first entries, as many as the low four bytes say, and the rest is taken for trailing bytes |
| `Manifest.EncodeBytes` | pkg/manifest/manifest.go:71-91 | the entry-by-entry writer produces the canonical encoding, which decodes to the manifest |
| `Manifest.Reader.ReadBytes` | pkg/manifest/manifest.go:192-197 | a short read sets the sticky error; otherwise exactly the bytes asked for are consumed |
| `Manifest.Reader.ReadEntries` | pkg/manifest/manifest.go:112-123 | the loop reads the declared number of entries or fails on the first short one |
| `Manifest.Decode` | pkg/manifest/manifest.go:99-124 | the streaming decoder returns the specified result, and accepts exactly the encodings |
| `Chunking.SplitLaws` | pkg/chunk/chunk.go:69-118 | splitting loses nothing; every piece but the last has the full size and none is empty |
| `Chunking.Chunker.Next` | pkg/chunk/chunk.go:78-101 | each call returns the next piece with its hash, or end of file, and after that end of file for ever |
| `Chunking.SplitAll` | pkg/chunk/chunk.go:105-118 | all pieces in order |
| `Chunking.Packer.Add` | pkg/pack/pack.go:124-136 | the chunk lands on the next multiple of the alignment, less than one alignment away, after zeros, and nothing added before moves |
| `Chunking.Packer.Seal` | pkg/pack/pack.go:161-178 | every pending chunk gets the locator of its last entry, under which the container holds its bytes; the packer is empty again |
| `Chunking.LocatorsAre` | pkg/pack/pack.go:161-178 | the locators of a sealed container are of exactly the chunks added, each where it was added last |
| `ContentPath.Repo.FlushPacker` | pkg/repo/repo.go:551-562 | everything pending becomes located in one new container with the buffer as its bytes and a seal time of now; nothing located or stored before is lost or moved |
| `ContentPath.Repo.StoreChunk` | pkg/repo/repo.go:531-549 | a located chunk is not stored again; a large file's chunk gets a container of its own; a small one's joins the packer, which is sealed if and only if it reached the seal size |
| `ContentPath.Repo.StoreContent` | pkg/repo/repo.go:484-507 | the reference returned stands for the data: nothing, one inline chunk, or a manifest of all chunks; content already located adds no object; chunks of large files are alone in their containers, and no shared container is sealed early |
| `ContentPath.Repo.StoreAndFlush` | pkg/repo/write.go:168-253 | once stored and flushed every chunk is located, and the reference reads back as the data if and only if it needs no manifest or the manifest's numbers fit; chunks located anew are in new containers sealed then |
| `ContentPath.StoredReadsBack` | pkg/repo/repo.go:484-572 | a store that locates all chunks of a file reads its reference back as exactly the file |
| `ContentPath.ManifestDescribes` | pkg/manifest/manifest.go:52-65 | a file's manifest says its length and of each piece in order its hash and length |
| `ContentPath.StoredReadsBackIff` | pkg/manifest/manifest.go:52-65 | a reference whose chunks are all located reads back as the file if and only if it is no manifest or chunk lengths and entry count fit four bytes |
| `ContentPath.WidthsExceeded` | pkg/manifest/manifest.go:52-65 | each of the two widths is exceeded by some file |
| `FileReading.FileReader.Store` | pkg/repo/repo.go:641-657 | the cache is a queue of at most 16 distinct verified chunks: a new one goes to its end, and only the oldest leaves, only when full |
| `FileReading.FileReader.ChunkBytes` | pkg/repo/repo.go:712-731 | a chunk comes from the cache or is fetched and verified, and fails exactly if neither has it; the queue is unchanged on a hit or a failure, and else has the chunk at its end and at most the oldest gone |
| `FileReading.FileReader.Search` | pkg/repo/repo.go:757-763 | the binary search finds the first entry that ends after the offset |
| `FileReading.FetchInto` | pkg/pack/pack.go:209-220 | succeeds exactly if the chunk is located, intact and of the length asked for; whatever was delivered is in the buffer, verified or not |
| `FileReading.FileReader.ReadPiece` | pkg/repo/repo.go:755-792 | one turn copies the right bytes of one chunk, by either path, or fails, leaving the cache alone and in the buffer what a direct fetch delivered |
| `FileReading.FileReader.ReadAt` | pkg/repo/repo.go:734-797 | for any entry list: the bytes its chunks give at the offset and no others, the rest of the buffer untouched; a failed read returns a first part of them and leaves after it exactly what a direct fetch delivered, which is nothing if no entry lies wholly inside the range; a read that one chunk fills succeeds if that chunk can be had |
| `FileReading.FileReader.ReadStored` | pkg/repo/repo.go:734-797 | on an opened file every read returns exactly the requested slice; with a cache filled from the same store it fails if and only if a chunk in the range is lost, returns what comes before the first such, and leaves the rest of the buffer as it was if and only if that entry is not wholly inside the range or delivered the bytes that were there |
| `FileReading.OpenFile` | pkg/repo/repo.go:661-681 | fails exactly when the manifest cannot be fetched; otherwise reads exactly the stored bytes |
| `RoundTrip.StoreThenRead` | pkg/repo/repo.go:484-797 | store, flush, open, then any sequence of reads on one reader: every read returns the requested slice, for every file, chunk size, threshold and prior state, and files stored before read as they did |
| `RoundTrip.CorruptReadSpills` | pkg/repo/repo.go:775-780 | a damaged container, and a read of it that fails with the damaged byte left in the buffer |
| `RoundTrip.StoreOverlong` | pkg/repo/repo.go:484-681 | storing and opening a file whose chunks do not fit the length field gives a reader with shortened entries and all its chunks in the store |
| `RoundTrip.ReadShortened` | pkg/repo/repo.go:755-792 | a read of an overlong first chunk that starts before the shortened length succeeds with the right bytes, unless it takes the direct path, where it fails with the buffer untouched |
| `RoundTrip.ShortenedDirect` | pkg/repo/repo.go:775-780 | a direct read of that chunk fails, whatever else the range holds |
| `RoundTrip.ReadShifted` | pkg/repo/repo.go:755-792 | a read past the shortened length succeeds and returns bytes of the second chunk in their place |
| `Garbage.PinnedIsProtected` | pkg/repo/gc.go:126-156 | an inode held open is protected, named or not |
| `Garbage.ProtectedReadsSame` | pkg/repo/gc.go:114-211 | with an unchanged view, a protected file has the same record and reads back the same bytes |
| `Garbage.CleanIsExact` | pkg/repo/gc.go:139-199 | a finished sweep leaves exactly the graves, inodes and located chunks that its first disk says stay |
| `Garbage.InterruptedSweepConverges` | pkg/repo/gc.go:139-211 | stopping and sweeping again with the same cutoff and pins ends in the same inodes, graves and located chunks |
| `GarbageWrites.DropLocatorKeepsView` | pkg/repo/gc.go:164-179 | deleting the locator of an unmarked, swept or aged chunk keeps the view |
| `GarbageWrites.DropInodeKeepsView` | pkg/repo/gc.go:181-183 | deleting a swept inode's record keeps the view |
| `GarbageWrites.DropGraveKeepsView` | pkg/repo/gc.go:184-186 | removing its graveyard entry keeps the view |
| `GarbageWrites.MoveLocatorKeepsView` | pkg/repo/gc.go:361-365 | repointing a kept chunk at the same bytes in a young container keeps the view |
| `GarbageWrites.MarkDeadKeepsView` | pkg/metadb/metadb.go:1123-1131 | retiring a container nothing points at keeps the view |
| `GarbageWrites.DropObjectKeepsView` | pkg/repo/gc.go:401-418 | deleting a retired container's object keeps the view |
| `Marking.MarkLiveTree` | pkg/repo/gc.go:518-543 | the recursive walk marks exactly the chunks needed below the directory, and fails exactly if a manifest below it cannot be fetched |
| `Marking.MarkLive` | pkg/repo/gc.go:479-512 | the marks are exactly the live chunks: tree, graves in grace or held, and the packer's buffer; it fails exactly if the manifest of one of those inodes cannot be read or a grave in grace has no record |
| `Marking.MarkGraves` | pkg/repo/gc.go:486-507 | the loop over the graveyard adds exactly the chunks of entries in grace or held, and fails exactly if one of those has no record or no readable manifest |
| `Space.TallyContainers` | pkg/repo/gc.go:242-262 | per container: exactly its located chunks and the sum of their lengths |
| `Space.SpaceBound` | pkg/repo/gc.go:213-215 | if every container that is not retired is dense, their total size times the threshold is at most what is located |
| `Space.SettledBound` | pkg/repo/gc.go:236-306 | so after a finished compaction at one half, at most twice what is located is stored |
| `Space.RetiringNext` | pkg/repo/gc.go:278-304 | rewriting and retiring a container below the threshold retires it alone and moves its chunks alone |
| `Repacking.PackEntries` | pkg/repo/gc.go:345-356 | the image holds every chunk's verified bytes back to back, or some chunk could not be read |
| `Collector.SweepNeverLoses` | pkg/repo/gc.go:114-419 | at every state of every sweep, each file reachable, in grace or held open at its start has its record and reads back the same bytes |
| `Collector.KeptAlong` | pkg/repo/gc.go:114-473 | at every state of every sweep, each chunk it is to keep, referenced or not, is located and reads back the same bytes |
| `Collector.ResumedSweepConverges` | pkg/repo/gc.go:114-211 | a sweep stopped at any of its writes and run again ends as the one that was not stopped |
| `Collector.SweepIsGraceRun` | pkg/repo/gc.go:114-419 | a sweep or a compaction is a run that stale readers survive, with as slack how long after its clock reading a retirement was written |
| `Collector.Collector.SweepEntry` | pkg/repo/gc.go:140-187 | one entry past grace goes with its record and exactly its unmarked chunks, or nothing changes, which happens exactly if its manifest cannot be read |
| `Collector.Collector.SweepGraveyard` | pkg/repo/gc.go:134-187 | no entry past grace and unpinned remains, and what was forgotten is exactly the unmarked chunks of those entries; it fails exactly if one of their manifests cannot be read |
| `Collector.Collector.SweepOrphans` | pkg/repo/gc.go:439-473 | exactly the unmarked chunks of old containers go, and exactly the chunks of the view stay located |
| `Collector.Collector.RewriteContainer` | pkg/repo/gc.go:345-367 | nothing points at the old container, all others keep their locators, there is one new full container or none if nothing was located; it fails exactly if one of its chunks cannot be read, and then nothing changed |
| `Collector.Collector.Compact` | pkg/repo/gc.go:236-306 | exactly the listed, unretired containers with a live fraction below the threshold are retired, all as of one moment of the run, and counted; dense ones keep their locators; names and located chunks are unchanged; it fails exactly if a chunk of a container below the threshold cannot be read; every chunk it moves lies in a new container that has a seal time, no earlier than its start and no later than its end, and every other seal time stays |
| `Collector.Collector.CompactAlone` | pkg/repo/gc.go:236-306 | on its own, for any grace period: the same, with the result the number of containers below the threshold; a run like a sweep, whose stamps are at most its duration late; at every state every located chunk stays located and reads back the same bytes, and no name, inode or manifest changes; it fails exactly if a chunk of a container below the threshold cannot be read; seal times as for Compact |
| `Collector.Collector.Reap` | pkg/repo/gc.go:379-419 | exactly the containers retired by the cutoff go, object first; it fails exactly if one of their deletions does, which keeps its entry, and then fewer objects than a batch are gone with their entries left |
| `Collector.Collector.Sweep` | pkg/repo/gc.go:114-211 | a grace of 1h 30.5s, 3 630 500 000 000 ns, or less is refused with nothing touched, and every greater one is taken; otherwise every state kept the view, success leaves a clean disk and settled containers, and it succeeds exactly if the manifests it marks or sweeps and the chunks it repacks can be read, every entry in grace has its record and no deletion fails; a failed mark phase touches nothing; it forgets exactly the unmarked chunks of swept entries and old containers, and its count is the number of locators gone if and only if those were all located; of the containers it retires exactly those then less than half located and deletes exactly those retired by the cutoff; what it moves is sealed during the run; however it ends, a container object is gone only if the container was retired by the cutoff and its deletion did not fail, and a dead-list entry only once its object is |
| `Grace.HeldContainer` | pkg/repo/gc.go:372-419 | a container not retired at one moment keeps its bytes for the grace period less the slack |
| `Grace.StaleReaderProtected` | pkg/repo/gc.go:372-419 | over any run of commits, sweeps and compactions a locator keeps resolving to the same bytes for that long |
| `Grace.StaleReaderMinGrace` | pkg/repo/gc.go:93-93 | which covers the minimum grace when retirements are written less late than the grace exceeds it by |
| `Grace.RunsJoin` | pkg/repo/gc.go:114-419 | runs of commits, sweeps and compactions that meet join into one such run |
| `Grace.RunsFollow` | pkg/repo/gc.go:114-419 | also with time passing in between |
| `Grace.CommitIsStep` | pkg/repo/repo.go:531-562 | storing and committing is a step such runs may take |
| `Grace.CommitExtends` | pkg/repo/repo.go:531-562 | so a commit extends any such run |
| `SweepLimits.StaleReaderLost` | pkg/repo/gc.go:278-304 | from that lateness on, a compaction and a sweep, write by write, in which a reader told a locator loses its bytes within the minimum grace |
| `SweepLimits.StoppedSweepMiscounts` | pkg/repo/gc.go:164-179 | a sweep stopped after dropping a chunk of an entry past grace leaves a disk whose next sweep counts it again |
| `SweepLimits.MiscountReached` | pkg/repo/gc.go:114-211 | such a sweep, from a reachable disk on which the count would have been right |
| `SweepLimits.ResumesIff` | pkg/repo/gc.go:139-163 | once an inode's record is gone and its graveyard entries are left, a mark phase that worked before still does if and only if all those entries are past grace and unpinned |
| `SweepLimits.StuckReached` | pkg/repo/gc.go:114-211 | such a sweep, stopped at that write on a reachable disk: a later one with nothing pinned marks if and only if its cutoff is not before the unlinking |
| `Uncommitted.UnlinkedLiveIff` | pkg/repo/gc.go:139-156 | on every disk, once a file has lost its last name its chunks are live if and only if the cutoff is before that, the file is held, the chunk is pending or another inode that stays needs it; swept if and only if the grace is over and nobody holds it, or another entry past grace has them |
| `Uncommitted.OrphanGoesIff` | pkg/repo/gc.go:439-473 | a located chunk that is neither live nor of an entry past grace goes with a finished sweep if and only if its container was sealed by the cutoff |
| `Uncommitted.TurnsSeal` | pkg/metadb/metadb.go:975-995 | over any sequence of sweeps, compactions and other clients' work, seal times stay, every chunk that comes or moves lies in a container sealed since the beginning, and if every container of a chunk had a seal time then all have |
| `Uncommitted.MovedOrphanGoesIff` | pkg/repo/gc.go:345-370 | a chunk that a run has moved lies in a container sealed during that run; once nothing refers to it, whatever happened in between, a finished sweep takes it if and only if its cutoff is no earlier than the seal time of its container, which is that one unless the chunk was moved again |
| `Uncommitted.OrphansGo` | pkg/repo/gc.go:439-473 | so where every container of a chunk has a seal time, no chunk that nothing refers to is out of the reach of all later sweeps |
| `Uncommitted.KeptThrough` | pkg/repo/gc.go:114-473 | over any sequence of sweeps, compactions and other clients' work, a chunk that each sweep is to keep is located at the end and reads back the same |
| `Uncommitted.YoungThrough` | pkg/repo/gc.go:421-473 | a chunk sealed at a time is to be kept by every sweep with a cutoff before that, unless an entry past grace has it, and stays sealed since then, compactions included |
| `Uncommitted.StoreAhead` | pkg/repo/gc.go:421-432 | content stored for a commit to come reads back as the data after any such sequence with cutoffs before the storing, chunks that were there before being kept on their own account |
| `Uncommitted.StoreThenSweep` | pkg/repo/gc.go:114-211 | one sweep started within the minimum grace of the storing, however it ends, leaves such content readable |
| `Uncommitted.StoringExtends` | pkg/repo/write.go:168-253 | storing is such work of another client, if no located chunk has a hash collision |
| `Uncommitted.CommittedIsLive` | pkg/repo/gc.go:421-432 | once the commit is made in a directory of the tree, the file's chunks are live for every sweep |
| `Collector.Collector.SweepDuring` | pkg/repo/gc.go:114-211 | with any commits after the marks were made, and the sweep getting through: a chunk located after them is located at the end if and only if it was live at the mark, or is then neither a chunk of an entry past grace nor in an old container; a readable file reads the same if and only if that holds of its chunks |
| `Collector.Collector.SweepStale` | pkg/repo/gc.go:134-211 | the phases after the mark with marks of any age: exactly the unmarked chunks that are swept or aged go, names and records of files stay, and content reads the same if and only if it needs none of those chunks |
| `SweepLimits.DedupLost` | pkg/repo/gc.go:439-473 | a file overwritten during a sweep with the bytes of an old orphan has its name and record and is unreadable after it |
| `SweepLimits.BuriedLost` | pkg/repo/gc.go:164-179 | so is a file committed during a sweep with the bytes of an unlinked file past grace, although their container is young |
| `OpenHandles.OpenHandles.Acquire` | pkg/repo/openhandle.go:49-66 | one more descriptor is open; counts are the numbers of open descriptors |
| `OpenHandles.OpenHandles.Close` | pkg/repo/openhandle.go:54-65 | exactly this descriptor is closed, once however often it is called |
| `OpenHandles.OpenHandles.Snapshot` | pkg/repo/openhandle.go:87-100 | exactly the inodes some descriptor is open on |
| `Coherence.NeverRegresses` | pkg/coherence/coherence.go:176-208 | versions, directory versions and time never go back in any interleaving |
| `Coherence.TrustedIsRecent` | pkg/coherence/coherence.go:120-194 | with every push lost, a trusted version was the authoritative one within the last lease duration |
| `Coherence.RecalledIsUntrusted` | pkg/coherence/coherence.go:268-306 | once a recall is issued no holder but the mutator is trusted until it is granted again |
| `Coherence.RunKeepsInv` | pkg/coherence/coherence.go:156-169 | in every run no object has more than 64 subscribers, and pending recalls are well formed |
| `Coherence.RecallOutcome` | pkg/coherence/coherence.go:268-351 | acked and timed out split the asked holders by whether they acknowledged this recall; its channel is closed once if all did, else never |
| `Coherence.TrustedNegative` | pkg/coherence/coherence.go:377-400 | a trusted negative entry was recorded under its key within the lease, with no directory bump since |
| `Coherence.NegKeysCollideIff` | pkg/coherence/coherence.go:372-372 | two holder and name pairs share a key exactly when they are equal or split differently at a NUL |
| `Coherence.NegKeysDistinct` | pkg/coherence/coherence.go:372-372 | for names without a NUL the key determines both |
| `LeaseHistory.VersionCounts` | pkg/coherence/coherence.go:176-208 | an object's version is the number of its bumps, a directory's that of its own, in every interleaving |
| `LeaseHistory.TrustedIff` | pkg/coherence/coherence.go:120-150 | a holder is trusted with a version if and only if it was the version at its last grant, the lease has not run out, and nobody else recalled the object since |
| `LeaseHistory.RecalledIff` | pkg/coherence/coherence.go:278-297 | a recall asks exactly the other holders that are trusted and have a handler |
| `LeaseHistory.RecallTakes` | pkg/coherence/coherence.go:278-297 | it takes the trust of everyone else in that object, nothing of the mutator's and nothing elsewhere |
| `LeaseHistory.RecallPends` | pkg/coherence/coherence.go:298-308 | it waits if and only if someone is asked, and never for the mutator |
| `LeaseHistory.LateAckIgnored` | pkg/coherence/coherence.go:339-351 | an acknowledgement after the recall was given up changes nothing |
| `LeaseHistory.HandlerIff` | pkg/coherence/coherence.go:221-241 | a holder has a handler if and only if it registered one and has not withdrawn it since |
| `LeaseHistory.SubscribedIff` | pkg/coherence/coherence.go:156-169 | a holder is subscribed if and only if it once asked while the object had fewer than 64 subscribers |
| `LeaseHistory.NegativeTrustedIff` | pkg/coherence/coherence.go:377-400 | a miss is trusted if and only if one was recorded under its key, the last such is within its lease, and the directory was not bumped since |
| `Coherence.Manager.Revoke` | pkg/coherence/coherence.go:278-297 | every current lease on the object but the mutator's goes, and those with a handler are exactly the recalled |
| `Coherence.Manager.BeginRecall` | pkg/coherence/coherence.go:268-308 | the first section is the specified step, with a pending entry only if someone is asked |
| `Coherence.Manager.Ack` | pkg/coherence/coherence.go:339-351 | the acknowledgement section is the specified step |
| `Coherence.Manager.EndRecall` | pkg/coherence/coherence.go:319-332 | reports exactly who answered and who did not |
| `LeaseCache.InvalidateDrops` | pkg/mds/client.go:338-348 | an invalidation leaves nothing of its object to answer from and touches no other |
| `LeaseCache.LateResponseIgnored` | pkg/mds/client.go:210-336 | a response asked for before an invalidation is stored by none of the three store sections after it |
| `LeaseCache.StoredAnswers` | pkg/mds/client.go:319-336 | a response in time is answered from until exactly its time to live has passed, and nothing else in the cache changes |
| `LeaseCache.StoredNameAnswers` | pkg/mds/client.go:210-254 | a binding or miss in time is stored beside those already there |
| `LeaseCache.LeaseClient.StoreEntry` | pkg/mds/client.go:319-336 | the section is the specified function of the cache |
| `LeaseCache.LeaseClient.Drop` | pkg/mds/client.go:338-348 | the section is the specified function of the cache |
| `LeaseCache.LeaseClient.GetCachedDentry` | pkg/mds/client.go:191-208 | the method is the specified answer; over every run it gives an inode exactly when `CachedAnswers.NameAnsweredIff` says, the record with it |
| `LeaseCache.LeaseClient.HasCachedNegative` | pkg/mds/client.go:230-239 | the method is the specified answer; over every run it is yes exactly when `CachedAnswers.AbsenceAnsweredIff` says |
| `CachedAnswers.NameAnsweredIff` | pkg/mds/client.go:191-223 | over every run, a client answers an inode for a name if and only if that binding is the last it stored for the name with the directory not dropped since, the directory's last renewal, by whatever name, is no older than its time to live with no drop since, and a record of the inode is the last stored, not dropped since, and no older than its own |
| `CachedAnswers.AbsenceAnsweredIff` | pkg/mds/client.go:230-254 | over every run, it answers that there is no such name if and only if it stored a miss with the directory not dropped since and the directory's lease runs so |
| `CachedAnswers.RecordAnsweredIff` | pkg/mds/client.go:113-139 | over every run, it answers this record of an inode if and only if it is the last stored, not dropped since, and its time to live has not passed |
| `Protocol.MutateKeepsInv` | pkg/mds/server.go:206-280 | a mutation leaves every cached or in-flight answer right, or owes its client an invalidation |
| `Protocol.NetKeepsInv` | pkg/mds/server.go:107-152 | collecting and firing callbacks loses no invalidation that was owed, unless the push is dropped |
| `Protocol.DeliverKeepsInv` | pkg/mds/client.go:398-416 | handling an event leaves no stored or welcome answer about its directory behind |
| `Protocol.CutComing` | pkg/mds/server.go:284-304 | after a reconnect exactly what mutations under way still owe the client is coming, and exactly what waited is lost besides what was |
| `Protocol.KeepNameKeepsInv` | pkg/mds/client.go:210-254 | storing a binding or a miss under the epoch guard keeps every answer right or about to be invalidated |
| `Protocol.StepKeepsInv` | pkg/mds/client.go:113-416 | every step of the protocol keeps that invariant |
| `Protocol.DirectoryCoherence` | pkg/mds/client.go:145-254 | in every interleaving with no push dropped, a stored binding or a usable miss agrees with the authority or an invalidation is on its way |
| `RecallSafety.AckedGetIgnored` | pkg/mds/client.go:398-416 | over every run, of a GetInode issued by the time a recall was acknowledged: its record is ignored if and only if the client has dropped the inode since it asked, so always if it asked before it handled the recall |
| `RecallSafety.RestoredOnlyByLater` | pkg/mds/client.go:398-416 | a dropped record is back in this client's cache only through its GetInode asked afterwards, or its Lookup that read the inode's epoch afterwards, and not dropped since |
| `RecallSafety.HeldAfterDrop` | pkg/mds/client.go:338-348 | after a drop a client holds a record of the inode if and only if such a request stored one that was not dropped since |
| `RecallSafety.AckedAt` | pkg/mds/client.go:398-416 | every acknowledgement was sent after the client had handled that recall and dropped its copy (the converse is `Chronicle.AckedIff`) |
| `Chronicle.DebtIff` | pkg/mds/client.go:398-416 | over every run, a client owes the acknowledgement of a recall if and only if it has handled the recall and has not sent one since, however many other events wait |
| `Chronicle.AckedIff` | pkg/mds/client.go:398-416 | over every run, a client has acknowledged a recall if and only if the recall was pushed to it, it handled it and so dropped its copy, and the first acknowledgement it sent afterwards arrived |
| `RecallSafety.HeldAtAck` | pkg/mds/client.go:398-416 | and when it is sent the client holds a record if and only if it stored one that it asked for after the drop |
| `PosixWrites.AnswersIff` | pkg/mds/client.go:113-139 | over every run, a client answers a record of an inode if and only if it stored one, has not dropped it since, and the lease of that storing runs |
| `PosixWrites.WriteFinds` | pkg/mds/server.go:206-257 | if a client answers a record when the mutator of a recall writes, then the recall did not ask it (granted later, lapsed at the authority first, or taken by an earlier recall), or it has not acknowledged, or it stored the record for a request made after it handled the recall |
| `PosixWrites.AckedHolds` | pkg/mds/server.go:206-257 | a client that acknowledged the recall holds a record at any later step if and only if it stored one for such a request |
| `PosixWrites.GrantedAfter` | pkg/mds/server.go:231-247 | a run that ends with the write made and the old record answered, the lease granted after the recall |
| `PosixWrites.LapsedFirst` | pkg/coherence/coherence.go:278-281 | such a run, the lease lapsed at the authority and not at the client |
| `PosixWrites.RevokedBefore` | pkg/coherence/coherence.go:278-291 | such a run, the lease taken by an earlier recall that was not answered |
| `PosixWrites.Unanswering` | pkg/coherence/coherence.go:309-317 | such a run, the client asked and the deadline passed |
| `PosixWrites.AckedAndBack` | pkg/mds/client.go:398-416 | such a run, the client having dropped its copy, fetched the record again, and then acknowledged |
| `MonotonicReads.KeepGoesBackIff` | pkg/mds/client.go:319-336 | over every run, a response replaces what the client holds by the record read for it if and only if the client has not dropped the inode since it asked (a Lookup: since it read the epoch), so the view goes back if and only if that was also read before what it held |
| `MonotonicReads.GoesBackOnlyIf` | pkg/mds/client.go:128-139 | if the view goes back by a GetInode, that was asked before what it replaced was read, with no drop until it was stored |
| `MonotonicReads.AskedLaterIsNewer` | pkg/mds/client.go:128-139 | a GetInode asked after what the client holds was stored never takes it back |
| `MonotonicReads.GoesBack` | pkg/mds/client.go:319-336 | a run in which a client answers a new record and then the old one, with no drop, no push lost and nothing on its way |
| `RecallSafety.LookupStoredIff` | pkg/mds/client.go:145-166 | over every run a Lookup's record is stored if and only if the client has not dropped the inode since it read its epoch, with the response in hand; earlier drops, acknowledged recalls included, do not count |
| `RecallSafety.GetStoredIff` | pkg/mds/client.go:113-139 | a GetInode's record is stored if and only if the client has not dropped the inode since it asked |
| `RecallSafety.CachedIsRegistered` | pkg/mds/server.go:107-121 | in every run, a client that holds an inode's record is registered for pushes about it, unless the registration was refused or a push lost |
| `RecallSafety.WriteTellsHolders` | pkg/mds/server.go:107-152 | so when a write is announced, an invalidation is on its way to every such client that holds the record |
| `RecallSafety.QueueBounded` | pkg/mds/server.go:141-152 | in every run no more than 64 events wait for a client |
| `RecallSafety.CachedWasCurrent` | pkg/mds/client.go:113-139 | every cached record was read at the authority for that very request, between its sending and its storing, and is answered from no longer than its time to live |
| `InodeCoherence.RecordCoherence` | pkg/mds/server.go:154-191 | over every run with each write of the inode bumped and no push about it lost: a cached record that was the authority's or about to be invalidated when its promise began (at the registration, or at the Lookup's later reading of the epoch) is so ever after; it was, if nothing wrote the inode between read and registration and the client dropped nothing of it between that and then; and until more is announced it is so exactly if it was |
| `InodeCoherence.InSyncStays` | pkg/mds/server.go:107-152 | a registered client's record stays right or about to be invalidated through every step until the client drops it |
| `InodeCoherence.OutOfSyncStays` | pkg/mds/server.go:107-152 | a record that is wrong with nothing on its way stays so until the inode is bumped, recalled or created |
| `InodeCoherence.CachedBrought` | pkg/mds/server.go:154-191 | every cached record was brought by one request that was read, then registered, then stored, with the record not dropped since |
| `InodeCoherence.HandlerAnnounces` | pkg/mds/server.go:206-535 | a handler's write of an inode bumps it, as that needs, if and only if the inode is not the moved or displaced one of a rename, nor one that loses its name to a removal whose lookup had found another |
| `InodeCoherence.ReadBeforeGrantStale` | pkg/mds/server.go:154-160 | a run with no push lost in which a write between read and registration leaves the client answering the old record with nothing on its way |
| `InodeCoherence.UntoldLeavesStale` | pkg/mds/server.go:206-535 | for every state, handler and inode it changes untold there is a run with no push lost in which a client ends answering the old record with nothing on its way |
| `InodeCoherence.RenameLeavesStale` | pkg/mds/server.go:442-459 | such a run at a reachable state, for the moved and for the displaced inode of a rename |
| `InodeCoherence.UnlinkLeavesStale` | pkg/mds/server.go:259-281 | and one for an Unlink whose name passed to another file after the lookup |
| `Deliveries.ToldWithCause` | pkg/mds/server.go:107-152 | over every run, an invalidation waiting for a client is of an object some mutation bumped and the client was registered for, a recall is one pushed to it, and it had asked, though perhaps been refused |
| `Deliveries.RegisteredAt` | pkg/mds/server.go:107-199 | who is registered for an object was registered by its own Readdir, Lookup or GetInode, when there was room |
| `Deliveries.AskedAt` | pkg/mds/server.go:107-199 | who is registered, was refused or had a push lost had asked by one of those |
| `Chronicle.RegisteredIff` | pkg/mds/server.go:107-121 | over every run, a client is registered for an object if and only if one of its requests asked for it while there was room |
| `Chronicle.AskedIff` | pkg/mds/server.go:107-199 | and it is among the registered or the lost if and only if one asked |
| `Chronicle.LostIff` | pkg/mds/server.go:141-152 | what counts as lost is exactly what was refused, what a full queue dropped, and what was waiting at a reconnect |
| `Chronicle.OwedIff` | pkg/coherence/coherence.go:176-194 | over every run, an object is yet to be bumped if and only if its mutation has changed the store and its callbacks have not been collected since |
| `Chronicle.PushIff` | pkg/coherence/coherence.go:176-194 | a callback is yet to be fired if and only if it was registered when its object was collected and has not been fired since |
| `Chronicle.PushableIff` | pkg/mds/server.go:141-152 | a callback that is owed can always be fired, and a recall pushed to exactly those who asked; the event is taken if and only if fewer than 64 wait |
| `Chronicle.QueueIs` | pkg/mds/server.go:284-320 | events reach a client in the order they were sent, none twice and none left out: from any moment at which nothing waited for it, what it has handled and what waits is what was sent, until it reconnects |
| `Settling.SettlesToAuthority` | pkg/mds/server.go:107-152 | from every world a run can reach the deliveries under way can be completed with nothing lost; then nothing is owed, waits or is unacknowledged, and every client answers about every name in every directory it lost nothing of what the authority has |
| `Settling.LookupCompletes` | pkg/mds/client.go:145-176 | from every world a Lookup of a bound name that nothing interferes with completes, and the client then answers the authority's inode and record, registered for both |
| `Settling.MissCompletes` | pkg/mds/client.go:145-176 | and one that finds nothing completes, and the client answers that |
| `Settling.GetCompletes` | pkg/mds/client.go:128-139 | so does a GetInode |
| `ProtocolLimits.HandlerCovers` | pkg/mds/server.go:206-535 | every handler rebinds names only in directories whose object it bumps |
| `ProtocolLimits.HandlerTells` | pkg/mds/server.go:206-535 | of the records a handler changes exactly those are bumped that are neither moved nor displaced by a rename, nor lose their name to a removal whose lookup had found another; a removal bumps the inode it changes if and only if the name led to it in both transactions |
| `ProtocolLimits.CommitTells` | pkg/mds/server.go:246-256 | a commit bumps the file it leaves under the name, new or not |
| `ProtocolLimits.HandlerBumps` | pkg/mds/server.go:206-535 | a handler bumps exactly the directories it rebinds names in, by both objects, and the inodes its operation is about; a rename only the directories |
| `ProtocolLimits.RenameUntold` | pkg/mds/server.go:442-459 | the moved and the displaced inode are never bumped, and exactly when each one's record changes |
| `ProtocolLimits.RecalledFirst` | pkg/mds/server.go:206-487 | of the records a posix handler changes exactly these are not among those it recalls first: directories it works in, a link's target and a moved inode; the others have been recalled if and only if its lookup found under the name what its transaction does |
| `ProtocolLimits.RecalledAre` | pkg/mds/server.go:206-535 | who is recalled, for every operation: whatever the name of a commit or removal or the new name of a rename leads to at the lookup, the inode of a detached write or setattr; for a publish, mkdir and link nobody |
| `ProtocolLimits.CommitRecallsOther` | pkg/mds/server.go:231-247 | a name that passed to another file after the lookup: one file is recalled, the other overwritten |
| `ProtocolLimits.LookupRestoresRecalled` | pkg/mds/client.go:145-166 | a run in which a Lookup restores a recalled record with nothing left to correct it |
| `LeaseAge.BindingAge` | pkg/mds/client.go:191-254 | whatever is lost: a binding answered from the cache was the authority's when it was read; the lease it is answered under was renewed at most its time to live ago, and is the binding's own if and only if no other Lookup in the directory has renewed it since |
| `LeaseAge.MissAge` | pkg/mds/client.go:225-254 | the same for a miss answered from the cache: the name was unbound when it was read, and the lease is the miss's own if and only if it has not been renewed since |
| `LeaseAge.NameStoredIff` | pkg/mds/client.go:210-254 | a Lookup's answer, found or not, is stored if and only if the client has not dropped the directory since it asked |
| `LeaseAge.LeaseKeptIff` | pkg/mds/client.go:210-211 | so is the directory's lease |
| `LeaseAge.RenewalRevives` | pkg/mds/client.go:210-223 | in every run, right after a Lookup in a directory renews its lease the bindings answered are exactly those still stored whose inode is leased, and the misses exactly those still stored, however long ago they were stored |
| `LeaseAge.AgeUnbounded` | pkg/mds/client.go:210-223 | for every age, a run with one refused push in which a rebound name is answered at that age |
| `Invalidation.KeyInjective` | pkg/repo/write.go:41-59 | coherence keys of different objects differ |
| `Invalidation.BumpsComplete` | pkg/repo/write.go:168-486 | whatever others do between an operation's lookups and its transaction, each directory it changed a name in is bumped, and of the inodes it changed exactly those its lookups found; so all are if and only if it found them all, as it did if nobody rebound a name; a commit bumps its file, new or not |
| `Invalidation.RemovalMissed` | pkg/repo/write.go:298-319 | a name that passed to another file after the lookup of an unlink: that file changes and is not bumped |
| `Invalidation.BumpsNoMore` | pkg/repo/write.go:168-486 | nothing is bumped but the inodes the operation found and the directories it works in |
| `Invalidation.RenameComplete` | pkg/repo/write.go:384-423 | in particular a rename that found both: moved inode, displaced inode and both directories |
| `Invalidation.TrustedNegativeIsTrue` | pkg/coherence/coherence.go:365-400 | after any sequence of completed calls, a trusted negative entry means the name is unbound |
| `Invalidation.NulMisleads` | pkg/coherence/coherence.go:372-400 | a reachable namespace and one lookup of a name with a NUL after which a bound name is a trusted miss |
| `WriteSession.FlushKeepsNamespace` | pkg/mdsfuse/write.go:125-197 | if nobody rebinds the name between its two requests, a flush of a bound session changes that inode's record only, which then has the flushed content and size |
| `WriteSession.FlushKeepsNamesIff` | pkg/mdsfuse/write.go:182-197 | in every interleaving names are kept if and only if the lookup said the name is no longer the session's, or the name is bound when the commit arrives |
| `WriteSession.FlushClobbersIff` | pkg/mdsfuse/write.go:182-197 | the one record written is the session's own if and only if the lookup said so, or the name is its own when the commit arrives |
| `WriteSession.FlushLands` | pkg/mdsfuse/write.go:125-173 | in every interleaving the flushed bytes, their length and time are in exactly one record: the session's own, that of the file with the name, or a new one with the session's mode and owner |
| `WriteSession.FlushRecreates` | pkg/mdsfuse/write.go:157-172 | a name unlinked between the two requests, or a lookup that failed: the flush brings the name back with a new inode |
| `WriteSession.FlushClobbers` | pkg/mdsfuse/write.go:157-172 | a name taken by another file between the two requests: that file is overwritten and the session's is not |
| `WriteSession.Session.WriteAt` | pkg/mdsfuse/write.go:79-88 | the written range holds the bytes, gaps are zero, everything else is kept |
| `WriteSession.Session.Resize` | pkg/mdsfuse/write.go:107-116 | a prefix is kept, or zeros are appended |
| `WriteSession.Session.Commit` | pkg/mdsfuse/write.go:125-173 | it succeeds if and only if the buffer was clean, or was stored and the authority took and answered the commit; success means the authority has the buffer, its length and time, under the name the file has now; undisturbed, only the session's inode changed and it reads back as the buffer; a failure leaves the session dirty; a clean session's last commit equals its buffer |
| `WriteSession.Session.RenameWriteFlush` | pkg/mdsfuse/write.go:68-77 | an open file that is renamed, written and flushed is written under its new name, with the buffer's length and content |
| `Materializer.ContentKeyInjective` | pkg/libatlas/materializer.go:135-144 | equal content keys come from equal references |
| `Materializer.SameKeySameBytes` | pkg/libatlas/materializer.go:135-144 | equal keys mean equal bytes, in any two stores at any two times |
| `Materializer.Cache.Begin` | pkg/libatlas/materializer.go:180-196 | hit, join or lead, with list, index, total and flights consistent; a hit moves its entry to the front and no other |
| `Materializer.Cache.HitIsFresh` | pkg/libatlas/materializer.go:180-187 | the file of a cached key is what a fresh read of any reference with that key would give |
| `Materializer.Cache.EvictLocked` | pkg/libatlas/materializer.go:260-276 | entries go from the back until the budget holds or only the protected one is left, and no more than that takes |
| `Materializer.Cache.Finish` | pkg/libatlas/materializer.go:202-216 | the new entry is first and survives; the older ones that stay are exactly those that fit the budget with it and all before them; no key is both cached and in flight |
| `Materializer.HitEvicted` | pkg/libatlas/materializer.go:170-187 | a hit whose file is gone before it can be opened |
| `Materializer.Cache.Evict` | pkg/libatlas/materializer.go:285-300 | removes exactly the key and its file, if it is cached |

## Left out

- WriteSession.Session.Commit: the upload of a remote mount is modelled by the storing path of pkg/repo; its own loop
  (pkg/mdsfuse/write.go:217-271) differs in packing everything into one container and in inlining a lone chunk of any size.
- Collector.Collector.Compact: the threshold is an exact fraction, where the source divides in floating point; sealing a
  container and registering its locators is one step relative to it, because nothing protects a container listed between
  the two (pkg/repo/gc.go:278-304).
- Collector.Collector.Sweep: its contract is for a disk nobody else writes; `SweepDuring` has commits between its phases, not
  in the middle of one. The packer's unsealed chunks and the open descriptors are snapshots. Errors of single database
  writes are not modelled, since a run may stop anywhere anyway.
- Materializer.Cache.Rename: a record's size is taken to be the length of its content, as the storing path makes it.
- Protocol.DirectoryCoherence: the immutable class, which has no leases to invalidate, is not modelled, and all clocks
  advance together; a client only ever compares its own.
- Protocol.StepKeepsInv: granting a lease, subscribing to invalidations and subscribing to recalls are one step
  (pkg/mds/server.go:107-121). A client may handle further events before it has acknowledged a recall, as a new stream's
  reader can while the old one's still waits for its request. A recall is a mark in the run; whom it asks is a function of
  the run (`PosixWrites.Asked`), and the model may push recalls to others too.
- MetaDB.DB.CheckNotDescendant: it requires the tree invariant, which every history keeps; the source's guard for a parent that
  is its own child cannot arise then.
- MetaDB.DB.EnsureDirCharged: two callers racing to create the same component are not modelled; EnsureDir, which charges
  nothing, is not part of the model.
- Coherence: SubscribeRecall and UnsubscribeRecall appear as steps of the state machine only; version counters do not wrap.
- Concurrency of one FileReader: its cache is used by one caller at a time.
- Names longer than 255 bytes are refused by creating operations and by rename, as in the code; the limit counts characters.
- fallocate, xattrs, symlink resolution, Readdir paging and statfs: small and local.
- FUSE node plumbing, gRPC transport, errno mapping, storage backends, cost model, CSI driver: wrappers around other systems.
- BLAKE3, gob and bbolt: a hash function as a parameter, faithful encoding, atomic transactions.
