# Verified models of the darling-workspace tooling

A Dafny model of the parts of this repository whose correctness is hardest to see from the code: two
crash-safe publication protocols, a concurrent command scheduler, the decoding of Mach-O fixups and
the load-closure analysis built on it, a JSON editor that keeps a file's layout, and three rewriters
that must conserve what they do not name. `dafny verify dfyconfig.toml` checks the whole project.

**Publication protocols.** `HandoffTransaction` is the handoff transaction as a step machine over the
disk: one step per durable operation, one step per record of a recursive deletion or copy, and from
every point a crash or a raised exception. `AllOrNothing` holds at every moment of every run, with any
number of crashes, also inside recovery. `HandoffProgram` holds the loops of the program themselves;
each operation they do is a step of the machine, so a crash is a trace cut short. `PackTransaction` is
the smaller protocol of `pack`, which keeps no copy and whose recovery never refuses.

**Scheduler.** `HostTier` lets any number of tiers interleave, step by step, over one shared cache.
`HostTierInvariant` is what every step keeps; `HostTierTheorems` draws conclusions about whole runs:
slots are conserved and weights respected, no process escapes a failure, exit 0 is sound over the
history of the cache, no tier deadlocks and every run ends. `ContractCensus` is the worklist of the same
file as a least fixed point.

**Mach-O.** `Leb128`, `BindOpcodes` with `BindRecords`, `Macho` with `MachoLayout`, and `ChainedStarts`
with `ChainedFixups` decode bytes, each against a specification that does not mention the decoder: which
bytes stand where (`ByteOrder`), and what they say. `ReexportClosure`, `BindOrder` and `CoverLabels` are
the graph searches and what they decide.

**Registries.** `JsonSyntax` and `JsonRoundTrip` are JSON texts with their layout. `JsonScanner` finds
the spans, `JsonSplice` edits the text from right to left, and `JsonTheorems` says that loading the
edited text gives the edited document. `RegistryDiff`, `RegistryTarget` and `RegistryFrame` carry this on
to "write, then check passes", for the weak-binding registry (`WeakBinding`), the inventory
(`DigestTable`, `InventoryDerivation`, with the generator's replay in `InventoryReplay`) and the
candidate audit (`JsonDump`, `AuditDerivation`). `WeakBindingMeaning`, `InventoryMeaning` and
`AuditMeaning` say which values a rewritten document then holds, without the derivation.
`RegistryRun` is the driver over all of them, and the generator that rewrites an inventory together with
the audit scanned from it.

**Rewriters.** `PinText` and `PinSync`, `ReviewCarry`, `BundleDigest`. `PinLines`, `PinManifest` and
`PinProjects` describe a manifest by its lines, and say that its projects are the ones that are read.

Renaming, unlinking and replacing the journal are atomic and durable in program order, recursive
deletion is neither, and no other process writes the modelled paths. A snapshot of a tree is the tree,
and a digest is a function of what it covers. Clocks, the file system below a path, other programs and
the scan of the source tree enter as parameters.

## Findings

Where a property fails of the code, the code is kept and a lemma gives the exact condition.

- A crash while recovery deletes a published directory leaves a part of it behind, and recovery then
  refuses for good: `BlockedIsReachable`, `BlockedForGood`. Nothing is lost (`AllOrNothing`), and
  `RecoverJournal` and `Execute` refuse exactly on a blocked disk.
- A repeated name in an object can hide the token that is edited: `RepeatedNameBreaks`. The edit equals
  the tree update exactly when every derived path holds a scalar or already its value (`SpliceIsApply`);
  with names that are not repeated it always does (`SpliceMeansApply`).
- `diff` does not see the order of names below a list (`OrderInListsIsLost`), although it reports it
  elsewhere (`OrderMatters`), nor a truth value in the place of the number Python takes it for
  (`TruthIsNumber`); `DiffEmptyIff` says exactly when it finds nothing. After a rewrite the check passes
  (`WriteThenCheck`, `GenerateThenCheck`).
- With the generator's replay asked for, the inventory derivation raises when a digest that the replay
  relies on is stale, instead of putting it right: `ReplayIff` is the exact condition, and
  `StaleIsRefused` gives, for every inventory with a declared input, file contents for which the plain
  derivation succeeds and the replaying one raises. A rewrite without the replay records all those
  digests (`PlainRewriteRecords`), and then the replay alone decides (`ReplayAfterRewrite`).
- The check of the candidate audit passes for texts that writing would change: `LayoutIsNotChecked`.
  `AuditCheckIff` says exactly when it passes and when writing changes nothing.
- The depth limit changes the bind order exactly when the traversal would enter a new image below it
  (`LimitIff`). Then some image is listed before one it loads, so without cycles the order is a
  post-order exactly when the limit is not met (`PostOrderIff`), and an image can be lost altogether
  (`LimitLosesImages`).
- The pin sync's own description says that a pin which is not an ancestor of its gitlink is refused
  without the flag. The code refuses only pins that are known to be ahead, and rewrites those of another
  branch or of a submodule that is not there: `OtherBranchIsRewritten`, `OtherBranchIff`.
- The pin sync is described as replacing only the value of a revision, but any white space before the
  value becomes one blank: a rewritten line differs in the value alone exactly when it was one blank
  before (`GapIff`).
- The bundle digest does not see directories, so bundles that differ in empty ones share it:
  `DirectoryIsLost`. `SameStreamIff` says exactly when two bundles are digested alike.
- Drops and moves beside moves that are already applied are left undone: `DropIsSkipped`,
  `SourceIsKept`, with `DropsDoneIff` and `SourcesGoneIff`.
- The docstring of `dyld_info_bind_imports` names special ordinals that differ from the table the code
  uses; the model follows the table.

## Model

| member | source | states |
|---|---|---|
| `HandoffTransaction.AllOrNothing` | scripts/handoff_transaction.py:766-952 | at every moment of every run, with any crashes and failures, the last committed content is at the destinations, or the journal says prepared, records it, and each piece of it is in place or intact in its backup |
| `HandoffTransaction.NextKeeps` | scripts/handoff_transaction.py:678-952 | every step keeps the invariant; only the replacement of the journal by the committed one changes what the transaction stands for, from all old to all new |
| `HandoffTransaction.OrphansKeep` | scripts/handoff_transaction.py:739-763 | orphan cleanup touches no destination, and changes the disk only when there is no journal |
| `HandoffTransaction.RecoveryKeeps` | scripts/handoff_transaction.py:766-809 | each recovery step keeps every old content in place or in its backup |
| `HandoffTransaction.CleanupKeeps` | scripts/handoff_transaction.py:678-697 | cleanup removes no copy that is still needed |
| `HandoffTransaction.PreparingKeeps` | scripts/handoff_transaction.py:817-859 | once the journal says prepared, every destination has a complete backup |
| `HandoffTransaction.PublishingKeeps` | scripts/handoff_transaction.py:861-892 | displacing and publishing keep the old content recoverable; the commit turns it into the staged content |
| `HandoffTransaction.RaiseKeeps` | scripts/handoff_transaction.py:893-910 | an operation that raises, or a crash, loses nothing from any point |
| `HandoffTransaction.LateKeeps` | scripts/handoff_transaction.py:891-895 | a write of the committed journal that raises after the replacement has committed all the same |
| `HandoffTransaction.InvHolds` | scripts/handoff_transaction.py:931-952 | the invariant holds in every state of every run |
| `HandoffTransaction.LogicalIsStable` | scripts/handoff_transaction.py:766-910 | between two moments without a commit the transaction stands for the same content |
| `HandoffTransaction.RecoveryRestores` | scripts/handoff_transaction.py:766-809 | when recovery hands over, all destinations are old if the journal said prepared, and untouched otherwise |
| `HandoffTransaction.BlockedIsReachable` | scripts/handoff_transaction.py:582-586 | a crash inside a recursive deletion can leave a destination that recovery refuses |
| `HandoffTransaction.BlockedForGood` | scripts/handoff_transaction.py:792-796 | once a process has left a blocked disk, it stays blocked and nothing is committed, whatever runs later |
| `HandoffProgram.Workspace.CleanupTransaction` | scripts/handoff_transaction.py:678-697 | removes scratch, backups, displaced, temporary file and journal, and no destination changes |
| `HandoffProgram.Workspace.CleanupOrphans` | scripts/handoff_transaction.py:739-763 | without a journal nothing of an earlier transaction is left; with one the disk is unchanged |
| `HandoffProgram.Workspace.RollBackUnit` | scripts/handoff_transaction.py:784-808 | restores one unit and leaves the units before it alone, or refuses exactly when the destination is foreign |
| `HandoffProgram.Workspace.RollBack` | scripts/handoff_transaction.py:784-808 | last unit first, all units are restored, or exactly on a blocked disk it refuses |
| `HandoffProgram.Workspace.RecoverJournal` | scripts/handoff_transaction.py:766-809 | succeeds exactly when the disk is not blocked, and then the destinations hold what the transaction stands for and no journal is left; otherwise the disk is still blocked |
| `HandoffProgram.Workspace.CopyBackup` | scripts/handoff_transaction.py:821-828 | ends with a backup equal to the destination, and no other backup changes |
| `HandoffProgram.Workspace.BackUpAll` | scripts/handoff_transaction.py:820-841 | what is recorded as old is what is at the destinations |
| `HandoffProgram.Workspace.WriteJournal` | scripts/handoff_transaction.py:550-579 | the journal is replaced as a whole and the temporary file is gone |
| `HandoffProgram.Workspace.PublishUnit` | scripts/handoff_transaction.py:861-890 | displaces and publishes one unit, as steps of the machine |
| `HandoffProgram.Workspace.Commit` | scripts/handoff_transaction.py:891-892 | at the commit every destination holds its staged content |
| `HandoffProgram.Workspace.PublishAll` | scripts/handoff_transaction.py:812-910 | undisturbed, every destination ends with its staged content and no journal is left |
| `HandoffProgram.Workspace.Execute` | scripts/handoff_transaction.py:931-952 | from any disk that crashes can leave, publishes all of it exactly when the disk is not blocked, and otherwise keeps the old content recoverable |
| `PackTransaction.NextKeeps` | scripts/handoff.py:255-364 | every step keeps the invariant, and only the commit changes what the output stands for |
| `PackTransaction.PackIsAtomic` | scripts/handoff.py:335-364 | in every state of every run the output stands for the last committed package, recovery never finds the backup missing, and what is committed is what was staged |
| `PackTransaction.Packer.RecoverPack` | scripts/handoff.py:255-286 | total: from every disk that crashes can leave, the output is restored and nothing is left that could stop the next pack |
| `PackTransaction.Packer.Pack` | scripts/handoff.py:335-364 | undisturbed, publishes its package from any disk left behind |
| `HostTierInvariant.TierKeeps` | ci/run-host-tier.py:737-824 | every step of a worker or main thread keeps a tier's invariant |
| `HostTierInvariant.LocksKept` | ci/run-host-tier.py:737-763 | a lock file has one holder, the command that took it, across all tiers |
| `HostTierInvariant.ResultsKept` | ci/run-host-tier.py:632-692 | markers are written only for commands that succeeded, and a cache hit names one |
| `HostTierInvariant.RunInv` | ci/run-host-tier.py:695-824 | the invariant holds in every state of every interleaving |
| `HostTierTheorems.SlotsConserved` | ci/run-host-tier.py:571-593 | free slots plus the slots held are the workers, and the commands that run hold no more than that |
| `HostTierTheorems.HeavyRunsAlone` | ci/run-host-tier.py:757-763 | in every state of every run, beside a running command whose weight is at least the number of workers no command of positive weight runs |
| `HostTierTheorems.WeightsFit` | ci/run-host-tier.py:757-763 | where all weights are at most the number of workers, free slots plus the weights of the commands that hold slots are the workers, and the weights of those that run sum to no more |
| `HostTierTheorems.AdmittedIff` | ci/run-host-tier.py:581-593 | a waiting command gets its slots exactly when its weight fits beside the weights held; a heavy one exactly when nothing of positive weight holds any |
| `HostTierTheorems.ThreadsBounded` | ci/run-host-tier.py:795-802 | no tier ever has more commands in its threads than workers |
| `HostTierTheorems.NoProcessEscapes` | ci/run-host-tier.py:765-809 | once the failure is handled and the snapshot signalled, a running process has been signalled, or its own thread has still to register it or to signal it |
| `HostTierTheorems.WaitedIsSignalled` | ci/run-host-tier.py:765-809 | after that no thread waits for a process that was not signalled |
| `HostTierTheorems.SucceededRan` | ci/run-host-tier.py:632-692 | a recorded success goes back to a step of the run where that command exited 0 |
| `HostTierTheorems.ExitZeroIsSound` | ci/run-host-tier.py:737-824 | exit 0 means that every command's own process exited 0, at a step of the run, or the command was cacheable and ran to 0 earlier under the same key, name and argv; none was skipped |
| `HostTierTheorems.ExitStatus` | ci/run-host-tier.py:796-824 | the status is 0 exactly when no command failed |
| `HostTierTheorems.ExitCode` | ci/run-host-tier.py:796-824 | a status other than 0 is the code of the command whose failure the main thread took first, or 1 where that code is outside 1 to 255 |
| `HostTierTheorems.NoDeadlock` | ci/run-host-tier.py:571-593 | while a tier has not ended, some step is possible, also with shared locks |
| `HostTierTheorems.StepDecreases` | ci/run-host-tier.py:737-824 | every step lowers a measure |
| `HostTierTheorems.RunsEnd` | ci/run-host-tier.py:737-824 | a run has no more steps than the measure of its first state |
| `HostTierTheorems.StuckIsEnded` | ci/run-host-tier.py:737-824 | a run that cannot go on has ended every tier |
| `ContractCensus.ScanText` | ci/run-host-tier.py:522-527 | accounts for exactly the contracts that the text invokes, and queues those that are new |
| `ContractCensus.ScanSource` | ci/run-host-tier.py:509-527 | one turn of the worklist keeps what is pending and what is needed |
| `ContractCensus.Worklist` | ci/run-host-tier.py:508-527 | the result is closed under invocation and the smallest such set |
| `ContractCensus.Listing` | ci/run-host-tier.py:473-507 | exactly the contracts accounted for at the start, by file name, excluded family or host workload, and exactly the sources to begin with; excluded ones are no sources |
| `ContractCensus.HostScripts` | ci/run-host-tier.py:473-507 | exactly the scripts, with their file names, of workloads of this repository on the host that are contracts |
| `ContractCensus.ListedByTier` | ci/run-host-tier.py:473-507 | exactly the file names of what the tier registers, runs or excludes, and the contracts of an excluded family |
| `ContractCensus.Unaccounted` | ci/run-host-tier.py:463-528 | the names reported are the contracts outside some closed set, that is outside the smallest |
| `Leb128.UlebGroup` | scripts/closure_analyze.py:1228-1238 | a group reads as the number its bytes spell, whatever follows |
| `Leb128.SlebGroup` | scripts/closure_analyze.py:1241-1253 | the same with a sign |
| `Leb128.UlebRoundTrip` | scripts/closure_analyze.py:1228-1238 | reading the shortest encoding of a number gives the number |
| `Leb128.SlebRoundTrip` | scripts/closure_analyze.py:1241-1253 | the same for every integer |
| `Leb128.ReadUleb` | scripts/closure_analyze.py:1228-1238 | the loop reads what the definition says and ends inside the bytes |
| `Leb128.ReadSleb` | scripts/closure_analyze.py:1241-1253 | the same with a sign |
| `BindOpcodes.ExecuteEncoded` | scripts/closure_analyze.py:1180-1225 | an encoded operation has its own effect and leaves the bytes behind it |
| `BindOpcodes.EncodedMeans` | scripts/closure_analyze.py:1160-1225 | the bytes of every program are interpreted as its operations one after the other, and what follows its end is not read |
| `BindRecords.RecordsRoundTrip` | scripts/closure_analyze.py:1160-1225 | any program, in any forms and encodings, is interpreted to a list of records exactly when it says them: each bind takes name and weakness from the last symbol before it and the ordinal from the last ordinal before it, as often as its count, whatever stands between |
| `BindRecords.RunsWritten` | scripts/closure_analyze.py:1160-1225 | every list of bind records, with repeats folded, is said by some program |
| `BindOpcodes.ExecuteAt` | scripts/closure_analyze.py:1180-1225 | one turn of the loop at a position is the operation on the bytes from there |
| `BindOpcodes.DyldInfoBindImports` | scripts/closure_analyze.py:1160-1225 | ends on every byte string, with the imports it stands for |
| `Macho.MachoSlices` | scripts/closure_analyze.py:812-831 | gives slices exactly when the file has well-formed ones, and then those |
| `Macho.SlicesInFile` | scripts/closure_analyze.py:812-831 | every slice lies inside the file |
| `Macho.ReadLoadCommands` | scripts/closure_analyze.py:849-937 | accepts exactly the slices whose commands tile their table and are long enough for what is read of them, and every range it reports lies inside the slice |
| `MachoLayout.SlicesIff` | scripts/closure_analyze.py:812-831 | the slices of a file are those whose fields its bytes spell in big-endian order at the offsets of the 20 or 32 byte records, or the file itself |
| `MachoLayout.CommandIff` | scripts/closure_analyze.py:849-937 | a load command is accepted exactly when its bytes spell code, size and, for segments and fixups, each field at its offset |
| `MachoLayout.CommandsIff` | scripts/closure_analyze.py:849-937 | a slice has load commands exactly when its bytes spell header and commands one after the other up to the declared size |
| `MachoLayout.Collected` | scripts/closure_analyze.py:888-898 | what is collected are the segments spelt, in order, and the last fixups spelt |
| `ByteOrder.LittleIff` | scripts/closure_analyze.py:957-960 | a little-endian number is read exactly when its base-256 digits stand there, lowest first |
| `ByteOrder.BigIff` | scripts/closure_analyze.py:816-825 | a big-endian number is read exactly when its digits stand there, highest first |
| `ByteOrder.NumbersIff` | scripts/closure_analyze.py:957-960 | a table of numbers is read exactly when their encodings stand there one after the other |
| `Macho.VmFileLocation` | scripts/closure_analyze.py:944-954 | the loop finds the mapping of a range of addresses |
| `Macho.LocationIff` | scripts/closure_analyze.py:944-954 | a range is mapped exactly when one segment holds it, to the offset in that segment |
| `Macho.LocationInside` | scripts/closure_analyze.py:944-954 | a mapped range lies inside the slice and the file |
| `ChainedFixups.PackedFields` | scripts/closure_analyze.py:1072-1080 | packing the fields of a fixup and reading them gives them back |
| `ChainedFixups.FieldsPacked` | scripts/closure_analyze.py:1072-1080 | every 64-bit word is the packing of its fields |
| `ChainedFixups.NextOfPack` | scripts/closure_analyze.py:1034-1038 | the distance that is followed is the one packed into the word |
| `ChainedFixups.TargetInverse` | scripts/closure_analyze.py:1076-1077 | exactly the addresses without bits between the target field and the high byte have a rebase |
| `ChainedFixups.TargetIff` | scripts/closure_analyze.py:1072-1084 | a word resolves to an address exactly when it is the packing of a local rebase to it |
| `ChainedFixups.ChainIsUnique` | scripts/closure_analyze.py:1026-1038 | a start has at most one chain, with at most one list of fixups |
| `ChainedFixups.ChainIff` | scripts/closure_analyze.py:1026-1038 | a walk ends with a list of slots exactly when the words there are packed fixups, each saying in units of four bytes how far the next slot is and the last saying 0 |
| `ChainedFixups.ChainRises` | scripts/closure_analyze.py:1027-1038 | the slots of a chain rise in steps of four and stay in the page |
| `ChainedFixups.WalkChain` | scripts/closure_analyze.py:1026-1038 | follows a walk to its end exactly when it has one inside the page that meets no slot already visited |
| `ChainedFixups.WalkPage` | scripts/closure_analyze.py:1020-1041 | accepts an address exactly when it is one of the slots of disjoint chains of packed fixups from the starts of the page |
| `ChainedFixups.MemberIff` | scripts/closure_analyze.py:1020-1041 | being a slot of such chains is being met on disjoint walks from all starts |
| `ChainedStarts.PageHolds` | scripts/closure_analyze.py:963-1019 | the page that is walked is the one that holds the address |
| `ChainedStarts.StartsIff` | scripts/closure_analyze.py:1001-1019 | a page has the one start of its own table entry, or the list the entry points to behind the pages, up to the first entry with its high bit set |
| `ChainedStarts.RecordIff` | scripts/closure_analyze.py:984-988 | a record of starts is read exactly when the bytes spell each field of it at its offset |
| `ChainedStarts.HeaderIff` | scripts/closure_analyze.py:970-978 | the header is read exactly when the bytes spell version 0, the offset of the starts and the table of segment offsets |
| `ChainedStarts.PageIff` | scripts/closure_analyze.py:963-1019 | a page is found exactly when header, record and table spell it for the one segment that holds the address, with all sizes in bounds |
| `ChainedFixups.ChainedPointerFormat` | scripts/closure_analyze.py:963-1041 | gives the page's format exactly when the address is a slot of the chains of packed fixups of its page |
| `ChainedFixups.ResolvePointer` | scripts/closure_analyze.py:1044-1089 | resolves exactly when the bytes of the slot spell a word that stands for an address backed by the file, above the base of the one segment with the header, and reads the bytes there up to the limit |
| `ChainedFixups.PointerIff` | scripts/closure_analyze.py:1057-1064 | a pointer is read exactly when its eight bytes spell it at the place the address is mapped to |
| `ChainedFixups.BaseIff` | scripts/closure_analyze.py:1052-1056 | there is a base exactly when one segment alone holds the header, and it is the address of that segment |
| `ChainedFixups.PointerInside` | scripts/closure_analyze.py:1057-1064 | every pointer that is read lies inside the slice |
| `ReexportClosure.ReachedIsWalk` | scripts/closure_analyze.py:1503-1534 | the levels of the search are the walks of that length |
| `ReexportClosure.Closure` | scripts/closure_analyze.py:1503-1534 | the names are exactly the exports of all images at distance 1 to the bound, on any graph |
| `BindOrder.CoverTraversal` | scripts/closure_analyze.py:2544-2575 | the order of the bounded depth-first traversal: every image once and within the limit; while the limit is not met exactly the reachable ones; without cycles each after all it loads exactly when the limit is not met |
| `BindOrder.LimitIff` | scripts/closure_analyze.py:2556-2558 | the order is that of the traversal without a limit exactly when that traversal never enters a new image below the limit |
| `BindOrder.FullOrderIs` | scripts/closure_analyze.py:2544-2575 | without a limit, exactly the reachable images, each once, and without cycles each after all it loads |
| `BindOrder.PostOrderIff` | scripts/closure_analyze.py:2556-2558 | without cycles the bounded order is a post-order exactly when the limit is not met |
| `BindOrder.SmallStays` | scripts/closure_analyze.py:2556-2558 | the limit is not met while there are no more images than the limit plus one |
| `BindOrder.LimitLosesImages` | scripts/closure_analyze.py:2556-2558 | with one image more, a reachable one can be lost |
| `CoverLabels.SuppliedByLoaded` | scripts/closure_analyze.py:2460-2474 | finds a supplier exactly when there is one: the first that exports the name itself, or else the first that re-exports it |
| `CoverLabels.CoverLabel` | scripts/closure_analyze.py:2477-2517 | the searches of the program give the label that `FoundIff` and `MissingIff` describe case by case |
| `CoverLabels.FoundIff` | scripts/closure_analyze.py:2477-2517 | a flat import is found exactly when an image of the closure supplies the name, or of the loaded ones when the closure is empty; another one in its field's image, through that image's re-exports, or in load order, in this order, each exactly when |
| `CoverLabels.MissingIff` | scripts/closure_analyze.py:2451-2517 | an import that is supplied nowhere it may come from, the flat cases written out, is missing exactly when eager and not weak in either way, absent-weak exactly when weak, and absent-lazy otherwise |
| `CoverLabels.LabelsAreAntitone` | scripts/closure_analyze.py:2451-2517 | exporting more makes no import missing |
| `CoverLabels.LabelsAreLocal` | scripts/closure_analyze.py:2451-2517 | changing the exports of one name changes only the labels of imports of that name |
| `CoverLabels.SupplyFollowsExports` | scripts/closure_analyze.py:1503-1534 | larger export sets give larger supply, through re-exports too |
| `CoverLabels.SupplyFollowsName` | scripts/closure_analyze.py:1503-1534 | export sets that differ in one name give supply that differs in that name only |
| `CoverLabels.CoverEvents` | scripts/closure_analyze.py:2520-2541 | the events are exactly the image and symbol stops of reached images, with multiplicity, each before those of images bound later, by symbol within an image, and in the order they came in where these agree |
| `CoverLabels.KeyIsOrder` | scripts/closure_analyze.py:2538-2540 | the sort key orders two stops exactly when the referrer of the first is listed no later, and, for one referrer, its symbol is no greater |
| `CoverLabels.SortStable` | scripts/closure_analyze.py:2538-2540 | sorting keeps stops with equal keys in the order they came in |
| `CoverLabels.StopsAreMisses` | scripts/closure_analyze.py:2520-2541 | the symbol stops are exactly the imports labelled missing |
| `CoverLabels.StopsAreAntitone` | scripts/closure_analyze.py:2451-2541 | exporting more makes no new stop, counted with multiplicity |
| `CoverLabels.ExportsMakeNoStop` | scripts/closure_analyze.py:1503-1534 | for a fixed load graph, enlarging what images export makes no new stop |
| `CoverLabels.NameIsLocal` | scripts/closure_analyze.py:2451-2517 | for a fixed load graph, exporting one name or not changes labels of imports of that name only |
| `JsonRoundTrip.ParseIsPrint` | scripts/generate_namespace_writer_registry.py:187-259 | a text that parses is its tree printed between white space, every character of it |
| `JsonRoundTrip.ParsePrint` | scripts/generate_namespace_writer_registry.py:187-259 | a well-formed tree printed between white space parses back to itself |
| `JsonScanner.Scanner.Value` | scripts/generate_namespace_writer_registry.py:209-257 | from a position where a value parses, ends where the value ends and records exactly its scalar spans |
| `JsonScanner.Scanner.Scan` | scripts/generate_namespace_writer_registry.py:187-259 | on a text that loads, the spans are those of its scalars, under their paths |
| `JsonReplace.EditPrints` | scripts/generate_namespace_writer_registry.py:300-301 | cutting out a token left of all edits so far and putting another in is printing the tree with that leaf replaced |
| `JsonRender.RenderMeans` | scripts/generate_namespace_writer_registry.py:297-297 | loading what is dumped gives the value back |
| `JsonSplice.CollectEdits` | scripts/generate_namespace_writer_registry.py:277-298 | refuses exactly when a derived path is no scalar and does not hold its value already; otherwise one edit for each token that has to change |
| `JsonSplice.MakeEdits` | scripts/generate_namespace_writer_registry.py:300-302 | from right to left, the edits give the tree with those leaves replaced, in the layout of the old text |
| `JsonSplice.Splice` | scripts/generate_namespace_writer_registry.py:277-302 | succeeds exactly when every path is a scalar or already right, and gives the old layout around the new tokens |
| `JsonMeaning.ReplaceMeans` | scripts/generate_namespace_writer_registry.py:277-302 | replacing leaves in the text's tree is updating the document at their paths |
| `JsonApply.ApplyDerived` | scripts/generate_namespace_writer_registry.py:175-184 | assigns every derived value in turn, or raises where the source does |
| `JsonValues.SetIff` | scripts/generate_namespace_writer_registry.py:175-184 | an assignment succeeds exactly when the container is there and, unless it is a dictionary, the entry too |
| `JsonApply.UpdatedIffApplied` | scripts/generate_namespace_writer_registry.py:175-302 | updating the scalars alone equals the assignments exactly when every path is a scalar or already holds its value |
| `JsonTheorems.SplicedLoads` | scripts/generate_namespace_writer_registry.py:277-302 | loading the spliced text gives the loaded document with its scalars updated |
| `JsonTheorems.SpliceIsApply` | scripts/generate_namespace_writer_registry.py:175-302 | for every text that loads, splicing equals the tree update exactly when every derived path is a scalar or already holds its value |
| `JsonTheorems.SpliceMeansApply` | scripts/generate_namespace_writer_registry.py:175-302 | with names that are not repeated, what the splice accepts always equals the tree update |
| `JsonTheorems.SpansApart` | scripts/generate_namespace_writer_registry.py:187-259 | spans are not empty and do not overlap |
| `JsonTheorems.SpliceAgain` | scripts/generate_namespace_writer_registry.py:277-302 | splicing twice is splicing once |
| `JsonTheorems.RepeatedNameBreaks` | scripts/generate_namespace_writer_registry.py:175-302 | with a repeated name an accepted splice can differ from the tree update |
| `JsonTheorems.NestedPathsBreak` | scripts/generate_namespace_writer_registry.py:175-184 | derived paths that lead through each other depend on their order |
| `RegistryDiff.DiffEmptyIff` | scripts/registry_derivation.py:61-86 | the comparison finds nothing exactly when the documents are equal and the names outside lists are in the same order |
| `RegistryDiff.DiffSays` | scripts/registry_derivation.py:61-103 | every line names a path where the documents really differ, in the way the line says |
| `RegistryDiff.TruthIsNumber` | scripts/registry_derivation.py:61-86 | between a number and a truth value nothing is found exactly when the number is the one Python takes the truth value for |
| `RegistryDiff.DiffSelf` | scripts/registry_derivation.py:61-86 | nothing between a document and itself |
| `RegistryDiff.OrderMatters` | scripts/registry_derivation.py:61-86 | equal documents can differ in the order of names |
| `RegistryDiff.OrderInListsIsLost` | scripts/registry_derivation.py:61-86 | below a list such a difference is not found |
| `RegistryTarget.Evaluate` | scripts/generate_namespace_writer_registry.py:315-329 | what moved, the rendered text, and a layout line when only the layout differs |
| `RegistryTarget.HeldDiff` | scripts/generate_namespace_writer_registry.py:323-329 | when every derived value is held already, nothing has moved exactly when orders agree |
| `RegistryTarget.CheckAfterWrite` | scripts/generate_namespace_writer_registry.py:315-329 | when the rewritten registry derives the same values, rendering it changes nothing, and the check passes exactly when no value left in place differs in the order of names |
| `RegistryRun.Run` | scripts/registry_derivation.py:108-135 | over spliced registries and the audit: status 0 exactly when all targets evaluate and, in check mode, none has moved; nothing is written in check mode or when one fails, else every target is |
| `RegistryRun.TargetFixedPoint` | scripts/registry_derivation.py:108-135 | what any target would write, its own check finds current |
| `RegistryRun.CheckIff` | scripts/generate_namespace_writer_registry.py:315-329 | for a registry that is spliced, the check finds nothing exactly when writing would change nothing |
| `RegistryRun.WriteThenCheck` | scripts/registry_derivation.py:108-135 | write mode that ends in 0, and then check mode on the same tree, ends in 0 |
| `RegistryRun.ScannedAgain` | scripts/generate_namespace_writer_registry.py:370-438 | rewriting an inventory does not change what its audit is derived from |
| `RegistryRun.Generate` | scripts/generate_namespace_writer_registry.py:460-504 | loads the inventory, then checks or writes it and the audit scanned from it: status 0 exactly when both evaluate and, in check mode, neither has moved; both are written or none |
| `RegistryRun.PairFixedPoint` | scripts/generate_namespace_writer_registry.py:460-504 | what a run writes, a run that starts from the rewritten inventory finds current, the audit included |
| `RegistryRun.GenerateThenCheck` | scripts/generate_namespace_writer_registry.py:460-504 | a rewrite succeeds exactly when both evaluate, and the check after it passes |
| `WeakBinding.DeriveFields` | scripts/generate_weak_binding_registry.py:223-257 | the loop with its dictionary and counters derives the fields of every entry and the counts; which values these are says `WeakBindingMeaning.RewrittenIsCurrent` |
| `WeakBindingMeaning.RewrittenIsCurrent` | scripts/generate_weak_binding_registry.py:223-261 | in the rewritten registry every entry and every strong side that is a dictionary holds the digest of its own repository and path; a classified entry holds discovery and fault mode of the candidate with its path and name and the role `defined`, any other one null for both; the counts are the numbers of indices with and without that status; the digest covers the entries as they stand; repository, path, name and status of every entry are as before |
| `WeakBinding.DerivePaths` | scripts/generate_weak_binding_registry.py:223-261 | no derived path repeats or leads through another, and all derived values are scalars |
| `WeakBinding.DeriveAgain` | scripts/generate_weak_binding_registry.py:223-261 | deriving from the rewritten registry gives the same values, the digest over the derived entries included |
| `WeakBinding.WeakBindingFixedPoint` | scripts/generate_weak_binding_registry.py:288-310 | after a rewrite the check finds nothing and a second rewrite changes nothing |
| `DigestTable.DeriveAll` | scripts/generate_namespace_writer_registry.py:113-172 | the loops over the lists of a table derive a digest for each file, and what the replay finds |
| `DigestTable.DeriveAgain` | scripts/generate_namespace_writer_registry.py:113-172 | for every table whose written fields are not read, the rewritten registry derives the same values, also with a replay that reads the lists themselves |
| `InventoryDerivation.DeriveInventory` | scripts/generate_namespace_writer_registry.py:113-172 | derives for the lists of the inventory, in their order |
| `InventoryDerivation.InventoryIsTable` | scripts/generate_namespace_writer_registry.py:118-171 | no field of the inventory that is read is one that is written, and no two derived paths meet |
| `InventoryDerivation.InventoryAgain` | scripts/generate_namespace_writer_registry.py:113-172 | deriving from the rewritten inventory gives the same values |
| `InventoryDerivation.InventoryFixedPoint` | scripts/generate_namespace_writer_registry.py:315-329 | after a rewrite the check finds nothing and a second rewrite changes nothing |
| `InventoryMeaning.RewrittenIsCurrent` | scripts/generate_namespace_writer_registry.py:113-172 | in the rewritten inventory every file of every list, inner lists included, has the digest of its repository and path, and with the replay every tool and output row holds what the replay found |
| `DigestTable.ReadsKept` | scripts/generate_namespace_writer_registry.py:113-184 | whoever follows no written field finds the same scalars and the same containers in the rewritten registry |
| `InventoryDerivation.InventoryReads` | scripts/generate_namespace_writer_registry.py:315-329 | so does whoever loads the rewritten inventory |
| `InventoryReplay.ReplayIff` | tests/west_test_contracts/namespace_writer_inventory_contract.py:1599-1679 | where all digests can be had, the derivation with the replay succeeds exactly when the digests of declared inputs and bindings are recorded already and the replay itself succeeds |
| `InventoryReplay.StaleIsRefused` | tests/west_test_contracts/namespace_writer_inventory_contract.py:1599-1679 | for every document with a declared input there are file contents for which the plain derivation succeeds and the one with the replay raises |
| `InventoryReplay.PlainRewriteRecords` | scripts/generate_namespace_writer_registry.py:113-172 | every text that evaluates without the replay, names not repeated, is rewritten to one that loads and records every digest the replay relies on |
| `InventoryReplay.ReplayAfterRewrite` | scripts/generate_namespace_writer_registry.py:153-171 | after such a rewrite the derivation with the replay succeeds exactly when the replay does |
| `JsonDump.DumpLoads` | scripts/generate_namespace_writer_registry.py:441-442 | loading the indented, escaped text gives the value back, characters beyond the basic plane included |
| `JsonDump.DumpTextIs` | scripts/generate_namespace_writer_registry.py:441-442 | the text is the value laid out two blanks to the level, one entry to a line, and a line break |
| `JsonDump.LoadedTokens` | scripts/generate_namespace_writer_registry.py:89-93 | whatever is loaded from a UTF-8 file can be dumped and loaded again |
| `AuditDerivation.CollectReviews` | scripts/generate_namespace_writer_registry.py:384-392 | reads the reviews, or raises at a missing field or a key that is repeated |
| `AuditDerivation.DeriveAudit` | scripts/generate_namespace_writer_registry.py:370-438 | one entry for each candidate under its own review, or raises when a review or a check fails |
| `AuditMeaning.AuditIff` | scripts/generate_namespace_writer_registry.py:370-438 | an audit is derived exactly when the reviews are readable, none for the same file, and every candidate has one that passes each check |
| `AuditMeaning.AuditSays` | scripts/generate_namespace_writer_registry.py:370-438 | the derived audit lists for the candidates in order the digest, the classification and reason of the one review of that file, and the scope, operators and anchor found, under the names and in the order of the file |
| `AuditDerivation.AuditAgain` | scripts/generate_namespace_writer_registry.py:370-438 | the audit derived from a derived audit is that audit |
| `AuditDerivation.AuditFixedPoint` | scripts/generate_namespace_writer_registry.py:445-457 | after the audit is written the check passes and writing it again changes nothing |
| `AuditDerivation.AuditCheckIff` | scripts/generate_namespace_writer_registry.py:454-457 | the check passes exactly when the derived audit equals the loaded one with names outside lists in order; writing changes nothing exactly when it is the loaded one and the text is its dump |
| `AuditDerivation.AuditCurrentIff` | scripts/generate_namespace_writer_registry.py:454-457 | the texts that both checking and writing leave alone are exactly the dumps of audits that derive themselves |
| `AuditDerivation.LayoutIsNotChecked` | scripts/generate_namespace_writer_registry.py:454-457 | the check also passes for a text that writing would change |
| `PinText.JoinSplit` | scripts/west-pin-sync.py:256-274 | splitting a text into lines and joining them gives the text |
| `PinText.SplitJoin` | scripts/west-pin-sync.py:256-274 | joining lines and splitting the text gives the lines |
| `PinText.RepinnedField` | scripts/west-pin-sync.py:256-274 | a rewritten line holds the new revision, its indent and its tail as before |
| `PinText.FieldParts` | scripts/west-pin-sync.py:256-274 | a revision line is its indent, key, white space, value and tail |
| `PinText.GapIff` | scripts/west-pin-sync.py:256-274 | a rewritten line differs from the old one in the value alone exactly when one blank stood before the value |
| `PinLines.RevisionIff` | scripts/west-pin-sync.py:36 | a line holds a revision exactly when it is white space, the key, white space, the word, and anything behind it that does not go on with the word |
| `PinLines.PathIff` | scripts/west-pin-sync.py:35 | a line holds a path exactly when it is of that form with nothing but white space behind the word |
| `PinLines.NameIff` | scripts/west-pin-sync.py:33 | a line names a project exactly when it is a dash after the indent and then a name field with nothing behind the word |
| `PinLines.SectionIff` | scripts/west-pin-sync.py:34 | a line opens a section exactly when it is an indent, a key of lower-case letters, digits and dashes, a colon and white space |
| `PinLines.QuietIff` | scripts/west-pin-sync.py:82-83 | a line is passed over exactly when it is blank or a comment |
| `PinSync.ParseProjects` | scripts/west-pin-sync.py:45-96 | the line loop reads the projects that `PinProjects.ParsedProjects` finds in a manifest |
| `PinProjects.ParsedProjects` | scripts/west-pin-sync.py:45-96 | a text whose lines are project blocks under a `projects:` heading between other sections parses to exactly those projects, each with the name of its block, the first path and first revision in it, and their line numbers, whatever comments, nested names and other fields stand between |
| `PinProjects.SheetProjects` | scripts/west-pin-sync.py:45-96 | the same over lists of lines |
| `PinManifest.ManifestProjects` | scripts/west-pin-sync.py:45-96 | the same over lines that are already classified |
| `PinSync.ProjectsPinned` | scripts/west-pin-sync.py:45-96 | every project's recorded revision is the one on its recorded line |
| `PinSync.ParseRepinned` | scripts/west-pin-sync.py:45-96 | rewriting revision lines and parsing again gives the same projects with the new revisions |
| `PinSync.Plan` | scripts/west-pin-sync.py:203-229 | one row for each selected project, in order, with the action that `ActionIff` and `LeaveIff` describe |
| `PinSync.PlanIs` | scripts/west-pin-sync.py:203-211 | the rows are those of the projects chosen by name or path, in order |
| `PinSync.ActionIff` | scripts/west-pin-sync.py:213-228 | a pin with a gitlink is left when equal, refused exactly when it differs, is ahead of the gitlink and the flag is off, and else rewritten |
| `PinSync.LeaveIff` | scripts/west-pin-sync.py:209-220 | a project is left alone exactly when it is no child of the superproject, has no gitlink or has no revision |
| `PinSync.NoDowngrade` | scripts/west-pin-sync.py:203-229 | in the synced text, without the flag, every pin known to be ahead of its gitlink is as it was |
| `PinSync.PinKeptIff` | scripts/west-pin-sync.py:125-143 | which pins of the synced text are kept, and that every other one is its gitlink |
| `PinSync.OtherBranchIff` | scripts/west-pin-sync.py:125-143 | a pin not known to be an ancestor of its gitlink is kept without the flag exactly when it is known to be ahead |
| `PinSync.OtherBranchIsRewritten` | scripts/west-pin-sync.py:125-143 | every pin can be rewritten to a gitlink of another branch without the flag |
| `PinSync.SecondPlan` | scripts/west-pin-sync.py:203-229 | the plan for the rewritten projects rewrites nothing |
| `PinSync.ApplyRows` | scripts/west-pin-sync.py:256-274 | succeeds exactly when every rewritten row names a revision line, and then changes those lines only |
| `PinSync.SyncedLines` | scripts/west-pin-sync.py:256-274 | the synced text has the same lines but for the rewritten ones |
| `PinSync.SyncKeepsProjects` | scripts/west-pin-sync.py:256-289 | parsing it again gives the same names, paths and line numbers; each rewritten project has its gitlink for revision, the others theirs |
| `PinSync.SyncSettles` | scripts/west-pin-sync.py:256-289 | a second plan has no rewrite, and the check that only revisions changed passes |
| `PinSync.SyncTwice` | scripts/west-pin-sync.py:256-289 | syncing the synced text changes nothing |
| `PinSync.Sync` | scripts/west-pin-sync.py:256-274 | parsing, planning and applying never fails and gives the synced text |
| `BundleDigest.DecodeEncode` | ci/native-transport.py:101-129 | an encoded asset decodes to itself and leaves what follows, for payloads of any bytes |
| `BundleDigest.DecodeAllEncodeAll` | ci/native-transport.py:101-129 | a whole stream decodes to its assets |
| `BundleDigest.StreamIsInjective` | ci/native-transport.py:101-129 | equal streams come from equal lists of assets |
| `BundleDigest.BundleStream` | ci/native-transport.py:95-132 | the loop refuses exactly when an entry is refused and else digests the encoding of all assets in order |
| `BundleDigest.KindNames` | ci/native-transport.py:112-115 | links, files and executable files are digested under these three names |
| `BundleDigest.SameStreamIff` | ci/native-transport.py:95-132 | two bundles give the same stream exactly when they have the same files, modes and links, in the same order |
| `BundleDigest.DirectoryIsLost` | ci/native-transport.py:117-118 | a directory adds nothing to what is digested |
| `ReviewCarry.ParseMoves` | scripts/audit-test-registration.py:251-267 | accepts exactly arguments that each name two keys, none repeated on its side, and gives an injective mapping |
| `ReviewCarry.MoveSpelt` | scripts/audit-test-registration.py:257-259 | an argument is cut at its first equals sign |
| `ReviewCarry.ApplyReview` | scripts/audit-test-registration.py:304-383 | refused, unchanged or written, as the mapping and the records demand |
| `ReviewCarry.RefusedIff` | scripts/audit-test-registration.py:304-383 | refused exactly when a target is not declared, a key is both dropped and moved, or, unless all moves are in place already, a move has no recorded source, a source whose review is of another declaration or name, or a target with a record that is neither moved nor dropped |
| `ReviewCarry.CarryConserves` | scripts/audit-test-registration.py:340-383 | chains and swaps included, no two records collide, all but the dropped survive as they were, every target reviews its current declaration, and keys that are not named keep theirs |
| `ReviewCarry.ApplyAgain` | scripts/audit-test-registration.py:304-383 | applying the same arguments once more changes nothing |
| `ReviewCarry.DropsDoneIff` | scripts/audit-test-registration.py:304-383 | drops are done exactly when the moves were not applied already, or there was nothing to drop |
| `ReviewCarry.DropIsSkipped` | scripts/audit-test-registration.py:304-383 | a drop beside moves that are already applied is left undone |
| `ReviewCarry.SourcesGoneIff` | scripts/audit-test-registration.py:304-383 | moved keys are gone exactly when the moves were not applied already, or they were gone before |
| `ReviewCarry.SourceIsKept` | scripts/audit-test-registration.py:304-383 | a target that has its review already keeps its source, although the move would be refused |

## Left out

- The `KeyboardInterrupt` branch of `run_commands`; failures go through the handler for failing commands.
- Condition variables and events: waiting for slots or a lock is a step that is possible once they are free, and fairness is not modelled.
- File modes, ownership and symbolic-link checks, fsync and deadlines of both publication protocols, and the planning and staging that precede them.
- The contents of packages, handoff units and markers beyond their identity.
- Python's recursion limit, and equality of floating-point numbers, which are known by their literals.
- How `_apply` copies a document before it assigns: documents are values.
- What texts that do not load do to the scanner: the callers load the text first.
- The scan of the source tree behind `audit_derivation`, the file digests and what the generator's replay finds: parameters. The scan is any function of the loaded inventory that follows no digest and nothing of the proof, as the code's does. Of the replay's own checks the model has the one on recorded digests.
- `Target` of scripts/registry_derivation.py, which no generator uses.
- `_build_anchor` and `render` helpers of the audit, and how `expected` is filtered and sorted: a parameter.
- The gate on classification problems before the weak-binding registry is evaluated.
- Decoding symbol names as UTF-8, chained imports, export tries, and what load commands other than segments and chained fixups say.
- How `resolve_pointer` picks the slice of an architecture and shows the bytes it read as a string.
- The strings that say where a symbol was found, and the providers map of the re-export search.
- The order in which unaccounted names are printed; the census returns them as a set.
- The regular expressions of the census are functions of a text; those of the pin sync are functions on lines, with their languages written out. The texts of error messages are left out throughout.
- Manifests with more than one `projects:` heading: `PinProjects` describes those with one, while all other lemmas about the pin sync hold of every text.
- The git queries behind gitlinks and relationships of pins: parameters.
- Route classification, disassembly heuristics, command-line handling and all reporting.
