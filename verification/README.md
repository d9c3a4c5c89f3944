# Code index, claims and budgets: a verified model

This project models the stateful core of the code intelligence tool and proves what its parts promise.

* **The index store** (`Layers`, `Snapshot`, `Compaction`, `BaseWriter`). A segment is a strictly path-sorted sequence of
  records. A snapshot stacks immutable overlays with tombstones on a base split into path ranges. The specification is a map
  from paths to live records, obtained by laying the overlays over the base; every view of a snapshot, deriving one snapshot
  from another, writing a base and compacting are proved against that map.
* **Its lifetime protocol** (`Lifetime`, `LifetimeInv`, `LifetimeTidy`, `LifetimeProgress`). A state machine over the store's single
  visible steps: writing a file, renaming the manifest into place, swapping the current snapshot, releasing one reference,
  unmapping one segment, closing, crashing and loading again. An inductive invariant gives safety over every interleaving and
  consistency after every crash; no file is left behind, and every operation that can start can complete.
* **The segment image** (`SegmentBytes`, `SegmentRecords`, `SegmentTables`, `SegmentSearch`, `SegmentOrders`, `SegmentStrings`,
  `SegmentTexts`, `SegmentEncode`, `SegmentRoundTrip`, `SegmentImage`, `SegmentFormat`, `SegmentParse`, `SegmentInside`,
  `SegmentWhole`, `SegmentLookup`, `NameSearch`). From files' facts to bytes and back, all twenty sections: the aligned
  container with its checksummed table, fixed-width records, string interning, permuted cross references, the search
  dictionaries, the validator and what it guarantees byte by byte, the binary-search lookups and the trigram search.
* **Rewriting** (`Rewriting`, `Contents`). Compaction decodes records and encodes them again; what every path decodes to stays the
  same up to the order of records that tie, exactly when the stored positions are ordered.
* **Reconciling with git** (`Reconcile`, `Agreement`, `Gaps`, `Engine`). git and the workspace are an environment that takes
  arbitrary steps between passes. A reconcile that asks git is proved equal to listing the workspace, exactly where it is; each
  condition it needs is shown to be needed by a concrete history.
* **Local PageRank** (`Push`), over reals: what the scores still mean when the work is cut off, and how much work is done before.
* **Claims** (`Anchors`, `Claims`, `ClaimStore`, `ClaimRuns`): anchors that move with their text, and truth maintenance over derived
  claims, for every run of additions, refreshes and restores.
* **Budgets** (`Pricing`, `Budget`): 64-bit cost arithmetic, and a cap over every interleaving of reservations and settlements.
* **Two parsers** (`ScipSymbol`, `ShellWords`), each against a printer, with the exact condition under which it undoes it.

`Common`, `Order`, `Search`, `Sorting` and `Decimals` hold what these share: optional values, the byte order of paths, binary
search, sorting by composite keys and decimal numbers. `dafny verify dfyconfig.toml` checks everything.

Where the source updates state in place the model does too: `Snapshot`, `BaseWriter`, `Engine`, `Encoder`, `Store` and `Tracker`
are classes whose methods are tied to functions of the old state, and `Assemble` fills an array by offset. Hash values stand for
the contents they were computed from. Steps of the environment (files, git, the disk) are parameters.

## Where the code and its promises differ

* `indexable` keeps at most 4096 dirty paths and drops the rest without setting the overflow flag that `Touched` has for it
  (indexer/engine.go:887-889). `Agreement.KeptIffFew` gives the exact condition, `Gaps.TruncationForgets` the history.
* A reconcile publishes its segments before its metadata (indexer/engine.go:376-381). `Agreement.InterruptedRemembersIff` says when
  stopping in between is harmless, `Gaps.InterruptionForgets` shows that it need not be, and `Agreement.RetryIsUpToDate` that
  retrying in the same workspace is.
* A listing records a commit even when git could not list the dirty paths (indexer/engine.go:389-390). The promise then holds
  exactly when the dirty paths were kept all the same (`Agreement.RemembersIffDirtyKept`); `Gaps.FailedStatusForgets` is a history
  in which they were not.
* A listing records the workspace's modules although `go.mod` paths are never remembered as touched. A path git does not report is
  right exactly if its recorded unit is the true one (`Agreement.UnreportedIsExact`); after an edit of `go.mod` that is undone again
  it is not (`Gaps.EditedModuleForgets`).
* A file that an ignore rule matches and that is removed from git's index only stays indexed after a git reconcile, and would not
  after a listing: `Gaps.IgnoredFileStaysIndexed`.
* Claim ids come from a 64-bit counter that a restored claim can set to its maximum; after it wraps, what `List` returns can no
  longer be restored: `ClaimStore.RestoreOfList` is an equivalence with that condition, `ClaimRuns.WrappedListIsRefused` the run.
* A reference's column is stored in 16 bits and larger ones become 65535, so references the input orders by column can come back in
  another order once their record is compacted: `Rewriting.RewritingTies` says exactly when a rewritten file differs in ties only,
  `Rewriting.FarColumnsMove` shows a file for which it does not.

Two parsers undo their printers only for some inputs, which the theorems characterise exactly: a SCIP symbol's manager, name and
version must not be empty or start with a space (`ScipSymbol.PartsOfPrinted`), and the lexer refuses a quoted argument that starts
with a variable name and "=" (`ShellWords.WordsUndoQuotes`).

## Model

| member | source | states |
|---|---|---|
| Order.PrefixesAreConvex | indexer/store/snapshot.go:246-270 | the paths with a prefix are contiguous in path order |
| Search.First | indexer/store/snapshot.go:146-151 | binary search returns the least index where a monotone predicate holds |
| Layers.FindFile | indexer/segment/reader.go:421-424 | finds a path exactly when the sorted records hold it, at its lower bound |
| Layers.MeaningIsNewest | indexer/store/snapshot.go:214-227 | laying overlays over a base gives each path its newest record, none under a tombstone |
| Layers.ShardIndexInRange | indexer/store/snapshot.go:146-151 | the shard chosen for a path is the one whose range holds it |
| Layers.ShardIndexUnique | indexer/store/snapshot.go:146-151 | and the only one |
| Snapshots.CoherentIsUnique | indexer/store/snapshot.go:73-143 | routes, dead sets and live count are determined by the segments |
| Snapshots.IncrementalEqualsRebuilt | indexer/store/snapshot.go:91-105 | a snapshot grown overlay by overlay equals one built at once from the same segments |
| Snapshots.BaseCoherent | indexer/store/snapshot.go:73-88 | a base alone needs no routes and no dead sets |
| Snapshots.StepCoherent | indexer/store/snapshot.go:109-143 | routing one more record keeps routes, dead sets and live count those of the stack |
| Snapshots.CurrentCount | indexer/store/snapshot.go:214-215 | as many current records as live paths |
| Snapshots.Snapshot.Fresh | indexer/store/snapshot.go:73-88 | a new snapshot is coherent with its shards and overlays |
| Snapshots.Snapshot.Stack | indexer/store/snapshot.go:91-105 | deriving a snapshot with one more overlay is coherent and leaves the older one's answers unchanged |
| Snapshots.Snapshot.Apply | indexer/store/snapshot.go:109-143 | applies one overlay, copying a shared dead set before its first change |
| Snapshots.Snapshot.MarkDead | indexer/store/snapshot.go:110-122 | marks one record dead in a set that is this snapshot's own |
| Snapshots.Snapshot.ShardFor | indexer/store/snapshot.go:146-151 | binary search returns the shard index of a path |
| Snapshots.Snapshot.BaseLookup | indexer/store/snapshot.go:153-160 | finds a path in the base exactly when its shard holds it |
| Snapshots.Snapshot.Lookup | indexer/store/snapshot.go:218-227 | returns the newest record of a path exactly when the path is live |
| Snapshots.Snapshot.LiveIsCurrent | indexer/store/snapshot.go:205-212 | a record is live exactly when looking up its path returns it |
| Snapshots.Snapshot.NumFiles | indexer/store/snapshot.go:214-215 | the counter is the number of live paths |
| Snapshots.Snapshot.Refs | indexer/store/snapshot.go:283-293 | lists every live path's record once and nothing else |
| Snapshots.Snapshot.HasPrefix | indexer/store/snapshot.go:249-270 | true exactly when some live path has the prefix |
| Compaction.SortByPath | indexer/store/store.go:505-631 | sorts records of distinct paths into a segment with the same records |
| Compaction.Build | indexer/store/store.go:505-631 | cuts sorted records into pieces that together are the records in order; every piece but the last reaches the size target, and none reaches it before its last record |
| Compaction.CutIsUnique | indexer/store/store.go:553-566 | the records and the size target determine the pieces |
| Compaction.CutIsShort | indexer/store/store.go:553-566 | and their number is at most the records' bytes over the target, plus one |
| Compaction.GatherOverlays | indexer/store/store.go:505-631 | collects each shard's live overlay records and the shards overlays touch |
| Compaction.GatherShard | indexer/store/store.go:505-631 | adds the shard's own live records to them: exactly the live records of its range |
| Compaction.CompactShard | indexer/store/store.go:505-631 | extends the new base by one range: reused when untouched, else rewritten |
| Compaction.CompactUnbased | indexer/store/store.go:505-631 | folds overlays without any base into a first one |
| Compaction.Fold | indexer/store/store.go:505-631 | the pieces of all ranges together are a base with the live map of the snapshot |
| Compaction.Compact | indexer/store/store.go:505-631 | compaction preserves the live map, lays out a well-formed base and reuses exactly the untouched shards; of two new pieces from one old shard's range the earlier reaches the size target, which bounds how many there are |
| Contents.CompactTables | indexer/store/store.go:505-631 | so it does with the records decoded and encoded again: every live path decodes to the same facts as before, re-ordered, and if the format can hold every position, with only exact ties moved |
| Contents.Rewrite | indexer/store/store.go:532-560 | a new shard decodes to what its records stand for; it fails only when their different texts come to 2 GiB |
| Contents.IndexedCarries | indexer/store/store.go:319-335 | a newly indexed segment decodes to what its records stand for |
| Contents.LookupsAgree | indexer/store/snapshot.go:218-227 | two stacks with one live map decode every path alike |
| Rewriting.ReorderedTwice | indexer/store/store.go:520-592 | encoding and decoding twice is still a re-ordering of the original facts, every link following |
| Rewriting.StoredIsTied | indexer/segment/writer.go:69-77 | two stored forms of one file differ only in records that tie |
| Rewriting.StoredAgain | indexer/store/store.go:520-592 | a stored form of a stored form is one of the original, when the format holds its positions |
| Rewriting.RewritingTies | indexer/store/store.go:520-592 | writing a decoded file again moves only records that tie, exactly when its records are in source order |
| Rewriting.FittingIsInPlace | indexer/segment/writer.go:295-321 | which they are when lines are 32-bit and columns 16-bit numbers |
| Rewriting.FarColumnsMove | indexer/segment/writer.go:180-180 | two references beyond column 65535 change places when written again |
| Compaction.SortIsIdentity | indexer/store/store.go:505-631 | pieces come out in order, so sorting them changes nothing |
| Compaction.UntouchedHolds | indexer/store/store.go:505-631 | a shard no overlay touches already holds exactly the live records of its range |
| BaseWriting.WrittenIsBase | indexer/store/store.go:434-447 | shards cut from ascending records are a well-formed base |
| BaseWriting.ConcatMeaning | indexer/store/store.go:434-447 | and mean what the records in sequence mean |
| BaseWriting.BaseWriter.Add | indexer/store/store.go:406-420 | accepts a record exactly when its path ascends, skips tombstones, flushes full shards |
| BaseWriting.BaseWriter.Flush | indexer/store/store.go:434-447 | moves the pending records to a shard, changing nothing accepted |
| BaseWriting.BaseWriter.Commit | indexer/store/store.go:451-476 | once: the shards are exactly the accepted records, in order, cut at the size target, and mean what was accepted |
| BaseWriting.OneCut | indexer/store/store.go:406-447 | adding records one by one cuts the same shards as cutting them all at once |
| Lifetime.CompactionCanStart | indexer/store/store.go:505-631 | whatever Compact returns is something the protocol can publish |
| LifetimeSafety.LoadIsGood | indexer/store/store.go:124-192 | loading a good disk establishes the invariant |
| LifetimeSafety.LoadKeepsLive | indexer/store/store.go:201-215 | loading keeps the live map and metadata; orphan cleaning removes only unlisted files |
| LifetimeSafety.WriteSegKeeps | indexer/store/store.go:319-335 | writing a segment file keeps the invariant |
| LifetimeSafety.PublishKeeps | indexer/store/store.go:339-360 | renaming the manifest keeps it |
| LifetimeSafety.DiscardKeeps | indexer/store/store.go:339-360 | undoing a failed operation file by file keeps it |
| LifetimeSafety.SwapKeeps | indexer/store/store.go:362-368 | replacing the current snapshot, retiring what it drops, keeps it |
| LifetimeSafety.ReleaseSegKeeps | indexer/store/snapshot.go:172-178 | a finished snapshot's release of one segment keeps it |
| LifetimeSafety.CloseSegKeeps | indexer/store/snapshot.go:25-34 | closing, and removing unless kept, a retired segment whose count is zero keeps it |
| LifetimeSafety.DetachKeeps | indexer/store/store.go:726-737 | Close's first step keeps it |
| LifetimeSafety.MarkKeeps | indexer/store/store.go:726-737 | and its retiring of the published segments with their files kept |
| LifetimeSafety.StepKeeps | indexer/store/store.go:223-368 | every step of every interleaving keeps the invariant |
| LifetimeSafety.RunKeeps | indexer/store/store.go:223-368 | so every state of every run satisfies it |
| LifetimeSafety.HeldSegmentsAreOpen | indexer/store/snapshot.go:23-34 | no held snapshot ever contains a closed segment |
| LifetimeSafety.ClosedOnceByLastHolder | indexer/store/snapshot.go:23-34 | counts equal the unfinished snapshots; a segment is closed at most once, after its last holder, and is retired then |
| LifetimeSafety.PublishedFilesExist | indexer/store/store.go:469-475 | no file named in the published manifest is ever missing |
| LifetimeSafety.StepLive | indexer/store/store.go:339-360 | only the rename changes the live map, to what the operation means |
| LifetimeSafety.CrashConsistency | indexer/store/store.go:124-145 | after any run, crashes included, the live map and metadata that load gives are the effect of exactly the operations that were published, and of the last metadata saved or published with them |
| LifetimeSafety.PublishedBaseIsWellFormed | indexer/store/store.go:147-192 | the published shards always form a base that load accepts |
| LifetimeTidy.StepTidies | indexer/store/snapshot.go:25-34 | every step keeps each file on disk either named in the manifest or needed by a segment that is open or was closed with its file kept |
| LifetimeTidy.NothingLeaks | indexer/store/snapshot.go:25-34 | so in every state of every run |
| LifetimeTidy.FilesAtRest | indexer/store/snapshot.go:25-34 | when nothing runs and only the store holds a snapshot, the files are exactly the manifest's |
| LifetimeTidy.LoadTidy | indexer/store/store.go:201-215 | loading leaves exactly the files that the manifest lists |
| LifetimeProgress.RunCanRest | indexer/store/store.go:279-368 | from every state of every run with the store open, readers can drop what they hold and the running operation can be published, after which the files are exactly the manifest's |
| LifetimeProgress.OperationCompletes | indexer/store/store.go:279-368 | every operation that can start can complete, with its effect on the live map |
| SegmentBytes.UnLEOfLE | indexer/segment/format.go:101-111 | little-endian numbers that fit read back |
| SegmentBytes.Assemble | indexer/segment/writer.go:386-413 | fills an array with header, aligned sections and table: exactly the specified image |
| SegmentBytes.Open | indexer/segment/reader.go:80-123 | accepts exactly well-formed containers and returns their sections |
| SegmentBytes.OpenedImage | indexer/segment/reader.go:80-123 | opening an image gives back its kind, generation and sections, for any hash function |
| SegmentBytes.SectionsAreInside | indexer/segment/reader.go:103-114 | every section of an accepted image lies between header and table |
| SegmentRecords.UnpackedOfPacked | indexer/segment/format.go:113-148 | a record's fields read back from their offsets |
| SegmentRecords.RowOfSection | indexer/segment/reader.go:403-403 | record i of a section is the i-th record written |
| SegmentTables.WrittenIsValid | indexer/segment/reader.go:125-291 | every image that encoding produces passes validation, all sections included |
| SegmentEncode.Encoder.Intern | indexer/segment/writer.go:22-33 | a string's reference reads back as the string, forever; equal strings share one place |
| SegmentEncode.Encoder.WriteSymbol | indexer/segment/writer.go:86-126 | writes a symbol's record with its container as a global index |
| SegmentEncode.Encoder.WriteRef | indexer/segment/writer.go:170-194 | writes a reference's record with enclosing symbol and lambda as global indexes |
| SegmentEncode.Encoder.WriteImport | indexer/segment/writer.go:221-247 | writes an import's record, whose range of names is exactly its listed names with their aliases |
| SegmentEncode.Encoder.WriteExport | indexer/segment/writer.go:259-267 | writes an export's record |
| SegmentEncode.Encoder.WriteFiles | indexer/segment/writer.go:281-336 | gives every file the ranges of exactly its symbols, imports, references, exports and hints, in source order |
| SegmentEncode.Encoder.WriteDict | indexer/segment/writer.go:470-482 | writes a dictionary with exactly the keys that occur, ascending, each with the range of exactly its postings |
| SegmentEncode.Encoder.WriteSearch | indexer/segment/writer.go:423-510 | writes the lengths and postings of every term, the names of exactly the declarations and the trigrams of those names |
| SegmentOrders.AllSlots | indexer/segment/writer.go:62-68 | lists every symbol of every file once |
| SegmentOrders.GroupedSlots | indexer/segment/writer.go:208-279 | lists every import, export or hint once, file by file, each file's in the order of its key |
| SegmentOrders.FileIndex | indexer/segment/writer.go:295-304 | one file's global indexes, each once, in the order of a key |
| SegmentOrders.SymbolsFollow | indexer/segment/writer.go:69-77 | a file's symbols by line, then global index, are its symbols by line and name |
| SegmentOrders.RefsFollow | indexer/segment/writer.go:142-161 | a file's references by line, column, then global index, are its references by line, column and what they name |
| SegmentOrders.EnclosingIndex | indexer/segment/writer.go:190-206 | lists exactly the references with an enclosing symbol, by that symbol and line |
| SegmentOrders.IndexByName | indexer/segment/writer.go:248-248 | lists every index once, by name, ties by index |
| SegmentEncode.SortFiles | indexer/segment/writer.go:49-55 | sorts by path, and fails exactly on a repeated path |
| SegmentEncode.EncodedIsInOrder | indexer/segment/writer.go:69-77 | encoded tables are in the orders lookups rely on |
| SegmentEncode.Encode | indexer/segment/writer.go:48-374 | writes a permutation of the files, sorted; each file decodes to its facts with symbols by line and name, imports by path and line, references by line and column, exports and hints by line; all symbols and references are in their global orders; fails exactly for repeated paths, unstorable facts and different texts of 2 GiB |
| SegmentRoundTrip.LocalsPermute | indexer/segment/writer.go:78-84 | a file's global indexes name each of its symbols once |
| SegmentRoundTrip.LinkMoves | indexer/segment/reader.go:674-700 | following a written link in the decoded file leads where the local link led |
| SegmentRoundTrip.SymbolRoundTrips | indexer/segment/reader.go:664-678 | a decoded symbol is the input's, up to what the format stores |
| SegmentRoundTrip.RefRoundTrips | indexer/segment/reader.go:689-702 | likewise for references |
| SegmentRoundTrip.HintRoundTrips | indexer/segment/reader.go:704-706 | and for binding hints |
| SegmentRoundTrip.ImportRoundTrips | indexer/segment/reader.go:585-598 | a decoded import is the input's, with its listed names in order |
| SegmentRoundTrip.ExportRoundTrips | indexer/segment/reader.go:620-629 | a decoded export is the input's |
| SegmentRoundTrip.OrderIsPlain | indexer/segment/writer.go:208-321 | said of the records themselves, the keys of the sorts put a file's records in source order |
| SegmentRoundTrip.FileRoundTrips | indexer/segment/reader.go:657-712 | decoding undoes encoding: every record comes back once, with every link following, in an order stated on the records: imports by path, then line, then as given, and so on; for positions the format holds, the decoded records themselves are in it |
| SegmentImage.LayoutsMatch | indexer/segment/format.go:41-72 | the record layouts have the documented sizes |
| SegmentImage.FileLayout | indexer/segment/format.go:113-121 | the fields of a file record are at the documented offsets |
| SegmentFormat.HeaderBytes | indexer/segment/format.go:131-132 | every field of an image's header at its documented place, with its documented constant |
| SegmentFormat.TableBytes | indexer/segment/writer.go:402-411 | each entry of the section table gives its section's number, place, length and checksum |
| SegmentFormat.SectionsAreDocumented | indexer/segment/format.go:71-148 | each table in its documented section, and every field of every record at its documented offset and width |
| SegmentParse.Validate | indexer/segment/reader.go:125-291 | the loops accept exactly the sections of whole records whose tables are valid |
| SegmentParse.Parse | indexer/segment/reader.go:80-123 | the tables of exactly the images that open and validate |
| SegmentInside.AcceptedIsInside | indexer/segment/reader.go:125-291 | in any accepted image, by its bytes at the documented offsets: every record's strings, ranges and links lie inside their sections, and every entry of every index list is a record |
| SegmentInside.FileChainsEnd | indexer/segment/reader.go:493-650 | and what the accessors of a file read through its ranges are whole records |
| SegmentInside.SearchChainsEnd | indexer/segment/reader.go:330-364 | as are an import's listed names, a term's postings' symbols and a trigram's names |
| SegmentImage.ParsedImage | indexer/segment/reader.go:80-291 | parsing an image's bytes gives back its tables |
| SegmentWhole.WrittenFits | indexer/segment/writer.go:48-374 | every field that encoding writes fits its bytes |
| SegmentWhole.EncodeImage | indexer/segment/writer.go:48-374 | the image of any files parses to the tables written, and each file decodes from its bytes to its facts in source order, as long as the image fits; it fails exactly for repeated paths, unstorable facts and too many different texts |
| SegmentLookup.FindFile | indexer/segment/reader.go:421-424 | finds a path in any valid image exactly when a file has it |
| SegmentLookup.SymbolsNamed | indexer/segment/reader.go:486-490 | the range is exactly the symbols with the name |
| SegmentLookup.RefsTo | indexer/segment/reader.go:557-561 | the range is exactly the references with the name |
| SegmentLookup.RefsFrom | indexer/segment/reader.go:564-570 | exactly the references inside a symbol, in line order |
| SegmentLookup.PackageFiles | indexer/segment/reader.go:376-381 | exactly the files of a package, in path order |
| SegmentLookup.Importers | indexer/segment/reader.go:611-617 | exactly the imports of a path, in stored order |
| SegmentLookup.Find | indexer/segment/reader.go:330-338 | a key's range of the list is exactly what was written under it, empty when the dictionary does not have it |
| SegmentLookup.Postings | indexer/segment/reader.go:341-344 | exactly the declarations with a term and its weights there, in symbol order |
| SegmentLookup.TrigramNames | indexer/segment/reader.go:361-364 | exactly the names with a trigram, ascending |
| SegmentLookup.ReadFile | indexer/segment/reader.go:657-712 | the decoding loops and maps compute the specified file |
| SegmentSearch.Weigh | indexer/segment/writer.go:433-466 | the lengths and terms of exactly the declarations, and their distinct names ascending |
| SegmentSearch.Gather | indexer/segment/writer.go:456-459 | every term's postings are the symbols with it, in order |
| SegmentSearch.GatherTrigrams | indexer/segment/writer.go:484-498 | each name is listed once under exactly its trigrams |
| NameSearch.IntersectNames | indexer/query/search.go:267-291 | exactly the names with every one of the trigrams |
| SegmentSearch.ContainedTrigrams | indexer/query/search.go:226-244 | a name containing a text, both in UTF-8, has all its trigrams |
| NameSearch.Matching | indexer/query/search.go:221-244 | the candidate names are exactly those that contain the query |
| NameSearch.FuzzyNames | indexer/query/search.go:221-244 | so they are the names of exactly the declarations whose lower-case name contains it |
| Reconciling.Indexable | indexer/engine.go:878-891 | a prefix of the sorted distinct source paths, all of them up to the cap |
| Reconciling.AppendTouched | indexer/engine.go:605-617 | keeps the old paths first and adds each new one once |
| Reconciling.NearestModuleCounts | indexer/engine.go:834-850 | a file's unit comes from the module of the nearest enclosing directory that declares one |
| Agreement.GitPassIsExact | indexer/engine.go:329-382 | after a git reconcile a path is as a listing would leave it, with the three exact exceptions |
| Agreement.UnreportedIsExact | indexer/engine.go:351-375 | a path git does not report is right exactly if the index held the recorded commit's content and the true unit |
| Agreement.ListPassIsExact | indexer/engine.go:385-437 | a listing is right except for skipped files whose size and time did not change |
| Agreement.ModulesStayCurrent | indexer/engine.go:359-370 | when git reports no module file the recorded modules are the workspace's |
| Agreement.GitPassEqualsListing | indexer/engine.go:294-324 | re-indexing only what git reports gives every path and the metadata a listing would |
| Agreement.ReconcileIsExact | indexer/engine.go:294-324 | under the stated conditions a reconcile leaves every path as a listing would, whichever way it goes |
| Agreement.UpdateRemembers | indexer/engine.go:590-602 | an update keeps every differing path remembered, or forces a listing |
| Agreement.UpdateIsExact | indexer/engine.go:548-603 | which taken paths an update brings in as a listing would; others stay |
| Agreement.RemembersIffDirtyKept | indexer/engine.go:380-380 | after a pass the promise holds exactly when the dirty paths were kept |
| Agreement.KeptIffFew | indexer/engine.go:887-889 | they are kept exactly when there are at most 4096 |
| Agreement.EventKeeps | indexer/engine.go:298-437 | every pass keeps the promise and a reconcile ends up to date |
| Agreement.RunStaysEqual | indexer/engine.go:298-603 | so over every history of edits, updates, reconciles and restarts |
| Agreement.FromNewStaysEqual | indexer/engine.go:298-603 | in particular from an empty index |
| Agreement.InterruptedRemembersIff | indexer/engine.go:376-381 | when stopping between the two writes of a reconcile is harmless |
| Agreement.RetryIsUpToDate | indexer/engine.go:376-381 | repeating the interrupted reconcile at once ends up to date |
| Gaps.QuietIsExact | indexer/engine.go:329-382 | what a reconcile without changes leaves wrong |
| Gaps.IgnoredFileStaysIndexed | indexer/engine.go:359-370 | a file that became ignored stays indexed |
| Gaps.FailedStatusForgets | indexer/engine.go:388-391 | a failed git status during a listing loses an edit |
| Gaps.InterruptionForgets | indexer/engine.go:376-381 | an interrupted reconcile leaves another commit's text |
| Gaps.EditedModuleForgets | indexer/engine.go:403-411 | a restored go.mod leaves wrong units |
| Gaps.TruncationForgets | indexer/engine.go:887-889 | the first path beyond the cap is forgotten |
| Engines.Engine.IndexPaths | indexer/engine.go:666-735 | indexes changed candidates and deletions as one overlay |
| Engines.Engine.GitReconcile | indexer/engine.go:329-382 | equals the specified pass, or changes nothing when git cannot answer |
| Engines.Engine.ListReconcile | indexer/engine.go:385-437 | equals the specified listing, rebuilt or incremental |
| Engines.Engine.Reconcile | indexer/engine.go:298-324 | asks git when the metadata allows and git can answer, else lists; with at most 50000 changed paths, none of them a module or ignore file, paths that did not change keep their entries |
| Engines.Engine.Classify | indexer/engine.go:621-642 | the source paths, unless one is a module or ignore file, or a dotless path that is a directory or has indexed files under it, which force a reconcile |
| Engines.Engine.Update | indexer/engine.go:548-603 | equals the specified update of exactly the paths it takes, or reconciles: a given directory, module or ignore file leaves every path as a listing would, so that nothing under a removed directory stays indexed; up to 4096 paths are remembered without overflowing |
| Engines.Engine.Note | indexer/engine.go:590-602 | remembers the taken paths, or that there are too many; none overflow up to 4096 |
| Pushing.Push | indexer/retrieve/retrieve.go:387-429 | the loop is the bounded run of pushes from the sorted seeds; at most 80 nodes are resolved and 600 scored, each of the first 600 seeds of at least 0.0005 scores at least a quarter of its weight, and among at most 80 reachable nodes every scored one has its links resolved |
| Pushing.PushOne | indexer/retrieve/retrieve.go:392-429 | one iteration is one push |
| Pushing.StepKeepsWorth | indexer/retrieve/retrieve.go:392-429 | a push changes no linear worth |
| Pushing.RunKeepsLinks | indexer/retrieve/retrieve.go:341-386 | resolved links never change, and a full table stays full |
| Pushing.FollowsLinks | indexer/retrieve/retrieve.go:341-386 | among at most 80 reachable nodes a run follows the links themselves |
| Pushing.RunKeepsWorth | indexer/retrieve/retrieve.go:387-429 | scores·f + residual·h is invariant over a run, for h that solves the equation along the links it follows |
| Pushing.MassIsConserved | indexer/retrieve/retrieve.go:387-429 | no mass is made or lost however few pushes are allowed |
| Pushing.EmptyQueueIsSettled | indexer/retrieve/retrieve.go:425-427 | when the queue empties every residual is below 0.0005 |
| Pushing.PushesAreBounded | indexer/retrieve/retrieve.go:392-429 | the pushes that are not skipped are at most the seed mass over 0.000125 |
| Pushing.MaximumPrinciple | indexer/retrieve/retrieve.go:330-332 | an exact solution never exceeds a bound on what it averages |
| Pushing.SolutionIsUnique | indexer/retrieve/retrieve.go:330-332 | so there is at most one |
| Pushing.ScoresUnderestimate | indexer/retrieve/retrieve.go:387-429 | scores undershoot the exact value, by at most the mass left over |
| Pushing.LinkedScores | indexer/retrieve/retrieve.go:387-429 | among at most 80 reachable nodes the scores undershoot the exact value along the links themselves, by at most the mass left over |
| Pushing.FollowedScores | indexer/retrieve/retrieve.go:387-429 | and beyond, along the links the run follows |
| Pushing.QueuedScores | indexer/retrieve/retrieve.go:392-400 | a queued node is pushed while pushes are left, and scores at least a quarter of its residual |
| Pushing.Normalize | indexer/retrieve/retrieve.go:615-626 | scales weights to sum to one unless they sum to zero |
| Anchors.HashSpan | internal/claims/anchor.go:76-83 | hashes exactly the lines of a span |
| Anchors.HashAnchor | internal/claims/anchor.go:86-94 | a span's hash, or none outside the file |
| Anchors.Locate | internal/claims/anchor.go:99-128 | the early return and the scan compute the specified place |
| Anchors.LocatedIsNearest | internal/claims/anchor.go:96-128 | found exactly when some window has the content, at the nearest one, lowest on ties |
| Anchors.PresenceIgnoresPosition | internal/claims/anchor.go:96-128 | whether an anchor is found does not depend on where it was last seen |
| Anchors.RecordedIsPresent | internal/claims/anchor.go:86-94 | a new anchor is present where it was recorded |
| Decimals.AtoiOfDecimal | internal/claims/store.go:257-260 | parsing a printed number gives it back exactly within 64 bits |
| Claims.CheckedFindsBroken | internal/claims/store.go:199-213 | checking reports a failure exactly when some anchor's content is gone, and moves only positions |
| Claims.RefreshedAt | internal/claims/store.go:189-219 | one ordered pass leaves every claim derived from its parents' final statuses |
| Claims.RefreshSettles | internal/claims/store.go:221-236 | so the pass is a fixed point |
| Claims.RefreshJudges | internal/claims/store.go:164-219 | stale exactly when an anchor failed at the last check |
| Claims.LiveIffNoStaleAncestor | internal/claims/store.go:221-236 | live exactly when neither the claim nor any ancestor is stale |
| Claims.FullRefreshForgetsHistory | internal/claims/store.go:164-219 | a full refresh depends only on the claims and the files now |
| Claims.HistoryDoesNotMatter | internal/claims/store.go:164-219 | whatever edits and refreshes came before |
| Claims.ChangedPathsSuffice | internal/claims/store.go:164-219 | refreshing the changed paths does what refreshing everything does |
| Claims.FullRefreshIsCurrent | internal/claims/store.go:164-219 | after a full refresh every claim is as the files now say |
| Claims.NamedChangesSuffice | internal/claims/store.go:164-219 | from then on, refreshes that each name the paths changed keep every status what a full refresh would make it |
| ClaimStore.AddIsGood | internal/claims/store.go:85-140 | a new claim under a new id carries the given text, evidence, anchors and distinct parents, disturbs nothing and is live exactly if its parents are |
| ClaimStore.NextIsNew | internal/claims/store.go:126-128 | the next id is new until the counter has wrapped |
| ClaimStore.ReusedIdBreaks | internal/claims/store.go:126-128 | an addition that gives out an id in use lists it twice |
| ClaimStore.RestoreIsGood | internal/claims/store.go:248-300 | whatever it is given, Restore fails or builds a well-formed store |
| ClaimStore.RestoreOfList | internal/claims/store.go:244-300 | restoring a listing gives the same store exactly while the id counter has not wrapped |
| ClaimStore.RefreshIsGood | internal/claims/store.go:168-219 | refreshing keeps the store well-formed |
| ClaimStore.Store.ApplyDerived | internal/claims/store.go:223-236 | sets status and reason from own anchors and the first parent that is not live |
| ClaimStore.Store.Add | internal/claims/store.go:85-140 | stores the specified claim or changes nothing |
| ClaimStore.Store.List | internal/claims/store.go:154-162 | the claims in creation order |
| ClaimStore.Store.Refresh | internal/claims/store.go:168-219 | the specified pass, and exactly its transitions in creation order |
| ClaimStore.Store.Restore | internal/claims/store.go:248-300 | the specified store, or the first thing wrong |
| ClaimRuns.EventTells | internal/claims/store.go:85-300 | every addition, refresh and restore keeps the store well-formed and every claim as its last check found it |
| ClaimRuns.RunIsTruthful | internal/claims/store.go:85-300 | after any run a claim is stale exactly when its last check failed, and live exactly when neither it nor an ancestor is |
| ClaimRuns.RestartChangesNothing | internal/claims/store.go:244-300 | listing and restoring changes nothing, verdicts included |
| ClaimRuns.EarlierRefreshesDoNotMatter | internal/claims/store.go:164-219 | refreshing everything gives the statuses it would give without any earlier refresh, whatever was added or restored |
| ClaimRuns.WrappedListIsRefused | internal/claims/store.go:126-128 | restoring the largest id and adding one claim gives a list that Restore refuses |
| Pricing.SumScaled | internal/budget/budget.go:307-330 | exact on non-negative terms, failing exactly above the limit |
| Pricing.NoOverflow | internal/budget/budget.go:320-323 | the checked product stays within 64 bits |
| Pricing.CostsAreRounded | internal/budget/budget.go:254-305 | reservations round up, actual costs to the nearest, both within 64 bits |
| Pricing.SelectRates | internal/budget/budget.go:67-75 | the rates of the last exceeded tier |
| Pricing.Cost | internal/budget/budget.go:256-269 | the tokens at their own rates, rounded up, or none exactly above the 64-bit limit or for negative counts |
| Pricing.CostWithCache | internal/budget/budget.go:291-305 | each part of the usage at its own rate, cache reads and both cache writes included, rounded to the nearest, or none |
| Pricing.RatesRise | internal/budget/budget.go:65-75 | a longer prompt is never billed at lower rates, if tiers rise |
| Pricing.ReservationCovers | internal/budget/budget.go:254-305 | a reservation covers every call within its estimate |
| Budgets.CapCheckIsExact | internal/budget/budget.go:332-334 | the wrapped check passes exactly when the new total is within the cap |
| Budgets.Tracker.Reserve | internal/budget/budget.go:161-184 | reserves under a new id exactly when the price is known, the cost is an amount and the cap allows it; else changes nothing |
| Budgets.Tracker.ReconcileUsage | internal/budget/budget.go:195-220 | replaces the reservation by the actual cost exactly when the usage is not negative, the reservation exists and the cost is an amount; else changes nothing |
| Budgets.Tracker.RecordUnpriced | internal/budget/budget.go:225-235 | spent and reserved stay, the session's count of unpriced calls grows by one, other sessions stay |
| Budgets.UnpricedIsCounted | internal/budget/budget.go:222-235 | over any run the count is zero exactly when the spent amount accounts for every completed call |
| Budgets.TokensAreCounted | internal/budget/budget.go:195-235 | over any run each token counter is the wrapped sum of its own part of the settled and recorded calls |
| Budgets.AfterKeeps | internal/budget/budget.go:161-235 | the ledger invariant over every run |
| Budgets.SettledOnce | internal/budget/budget.go:203-218 | each reservation is settled at most once |
| Budgets.NeverOverCap | internal/budget/budget.go:161-220 | reserved is the sum outstanding, and spent plus reserved never exceeds the cap plus overruns |
| Budgets.AmountsAreExact | internal/budget/budget.go:161-220 | recorded amounts are the true sums exactly while those fit 64 bits |
| Budgets.CoveredNeverOverCap | internal/budget/budget.go:161-220 | without overruns a session never exceeds its cap |
| Budgets.ReleaseUndoesReserve | internal/budget/budget.go:186-191 | settling with zero usage undoes the reservation |
| ScipSymbol.Unescape | indexer/scip/symbol.go:62-77 | the escape loop computes the specified run |
| ScipSymbol.UnescapedOfEscaped | indexer/scip/symbol.go:60-77 | unescaping undoes escaping exactly when the next character does not continue it |
| ScipSymbol.EscapedOfUnescaped | indexer/scip/symbol.go:60-77 | and accepts no second spelling |
| ScipSymbol.IdentifierOfPrinted | indexer/scip/symbol.go:111-135 | printed names, plain or quoted, read back |
| ScipSymbol.DescriptorAt | indexer/scip/symbol.go:79-109 | every descriptor consumes input |
| ScipSymbol.DescriptorOfPrinted | indexer/scip/symbol.go:79-109 | printed descriptors read back without their disambiguators |
| ScipSymbol.PartsOfPrinted | indexer/scip/symbol.go:34-58 | parsing undoes printing exactly for fields that can be carried |
| ScipSymbol.SymbolOfPrinted | indexer/scip/symbol.go:32-58 | for whole symbols, local ones apart |
| ScipSymbol.LocalIffScheme | indexer/scip/symbol.go:35-37 | when a printed symbol is taken for a local one |
| ScipSymbol.ParsedReprints | indexer/scip/symbol.go:32-58 | whatever is parsed, printed and parsed again is the same symbol |
| ScipSymbol.ParseSymbol | indexer/scip/symbol.go:34-58 | the loops compute the specified symbol |
| ShellWords.Words | internal/checks/evidence.go:18-91 | the character loop computes the specified words |
| ShellWords.IsAssignmentName | internal/checks/evidence.go:93-103 | exactly the shell variable names |
| ShellWords.QuotedRuns | internal/checks/checks.go:251-256 | reading one quoted argument |
| ShellWords.DoubleQuotedWord | internal/checks/evidence.go:28-58 | a double-quoted word: a backslash goes only before a quote or a backslash |
| ShellWords.UnquotedWords | internal/checks/evidence.go:18-91 | a command without quotes is split at blanks, and refused exactly if it has a special character, is too long or is blank |
| ShellWords.WordsUndoQuotes | internal/checks/evidence.go:18-91 | lexing undoes quoting exactly under four conditions on the arguments |
| ShellWords.QuotedNeverMisread | internal/checks/evidence.go:18-91 | and never reads anything else |

## Left out

- Disk operations below whole files: mapping, syncing, locking and temporary files. The disk is a map from names to complete contents and one manifest that a rename replaces at once.
- `Store.Import` and the progressive first build that publishes a working set early.
- Operations that begin after `Close` has detached the current snapshot, and reopening a store in a process that still holds snapshots of the closed one. Operations already running when `Close` starts are modelled.
- Publication and lifetime as methods of a locked object: the protocol is a state machine whose steps are the store's atomic actions, so the two mutexes are the atomicity of its steps.
- Segments of another format, root or extractor appear only as a disk that is not loadable and is started afresh.
- Passes of the engine that fail part-way for other reasons than a crash between publishing and recording, directories or links where a source file is expected, and files that change while a pass reads them.
- What the extractors find in a file: a file's facts are a function of its content.
- How terms are found in text and weighted, and the floating-point sums of their weights: each symbol's terms come with the bits of their weights, and lengths and totals are functions of them.
- The order in which the string table is filled: all exports are written before all hints, not file by file.
- SegmentWhole.EncodeImage: promises the round trip only for tables of fewer than 2^32 records each, since the code truncates larger counts without a check.
- Contents.CompactTables: requires that a shard's symbols and references have 32-bit indexes, which the code does not check.
- The choice of the best predecessor and the role of each node in the retrieval walk, and rounding of floating-point weights.
- Pushing.RunKeepsWorth: that a solution of the linear equation exists is not proved, only that it is unique and bounded.
- Path normalisation and trimming in claims: any functions with the property that applying them twice is applying them once.
- ClaimStore.Store.Add: promises a well-formed store only while the next id is new; once the counter has wrapped around completely it need not be.
- Budgets.Tracker.Reserve: does not model the wrap-around of the reservation number after 2^64 reservations.
- Token totals under the session token governor, compression levels and the conversion of dollar rates.
- Lower-casing: any function whose results are UTF-8. Shell commands are sequences of code points.
- BM25 scoring, name resolution, regular-expression recognisers, watchers, background runners and the command line: heuristics and plumbing without a crisp specification.
