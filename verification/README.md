# Verified models of Accounted's migration, undo and money scripts

Dafny models of the parts of the repository where a mistake would lose retained
bookkeeping documents, reopen a signed year, or move an öre, with proofs of what
those parts promise. `dafny verify dfyconfig.toml` checks everything.

## What is modelled

**Document storage migration** (`scripts/backfill-document-storage-paths.ts`). The
`documents` bucket is a map from key to bytes, `document_attachments` a map from id
to (company, path, hash), ordered as the table is by (created_at, id). Every remote
call is a step of `RemoteStore.Store` that may fail, by an error reply or by
throwing, and a failed write may have landed all the same. Before every call other
actors may delete any rows and add rows that are newer than all others and born at
company-scoped keys; they do not touch objects. `StoragePaths` holds the key
helpers, `DocumentStore` the states and steps, `MigrationLaws` what every run keeps,
`RemovalLaws` what a removal leaves behind, `Paging`, `BackfillGroup`, `SweepLegacy`
and `Backfill` the script itself, and `BackfillLimits` runs that break its promises. The
recorded `trace` has every state a run passed through; a killed run leaves the last
state of a prefix.

**Year-end undo** (`scripts/undo-year-end-closing.ts` and
`scripts/lib/year-end-undo-gate.ts`). `YearEndGate` has the annual report, what
signers can do to it at any moment, and the gate; `YearEndBooks` the two periods
and the append-only journal with storno reversal; `YearEndUndo` the committed steps
and all their interleavings with signers; `UndoRun` the script and its re-run.

**Bounded worker pool** (`src/lib/concurrency.ts`, and the cursor pool of
`scripts/parity-trial-balance-rpc.ts`): `WorkerPool`, `ParityRun`. Any worker that
can take a step may be the next to take one; a schedule is a trace of such steps.

**Parity comparator**: `ParityRows`. **Seed generator**
(`scripts/generate-skill-bodies.ts`): `SqlQuoting`, `MigrationNames`,
`SeedVersions`. **Money** (`src/lib/money.ts`): `Decimals` has numbers as exact
decimals and their text as `Number::toString` writes it (section 6.1.6.1.20 of
ECMA-262), `Money` the primitives on top. **Smaller cores**: `LogPercentiles`,
`TaxTables` with `StableSort`, `ObservedBenchmark`. `Numerals`, `IsoDates` and
`Prelude` are shared.

## Assumptions

- Company ids are slash-free, and the user id in a legacy key is never a company id.
  Gate soundness and crash-and-resume need it; retention does not.
- Crash-and-resume and "the next run writes nothing" start from stores whose stored
  hashes match the bytes (`Sound`). The killed run may be disturbed by anyone, as long
  as the rows born meanwhile match theirs, the finishing one by nobody.
- A signature needs a request bound to a version that is ready for signature; no
  version becomes ready, and none is superseded except by the undo, while it runs.
  No other bookkeeping is done meanwhile.
- The books start with at most one posted opening balance and one posted result
  appropriation in the next period, honest links, and a storno chain in order
  (`WellKept`). The closing entry is booked in the closed year.
- SHA-256 does not collide. Decimal arithmetic is exact.
- `date` columns and the local date come as ten-character ISO dates (`IsoDates`).
- A reply has at most 1000 rows and is cut behind them, nowhere else.

## What the proofs turned up

- `legacy_objects_remaining` alone may miss a leftover object: a group with a row
  deleted mid-run is neither fully migrated nor swept
  (`BackfillLimits.ACounterCanMissAnObject`). What it misses is at the key of an
  unmigrated row, so the sum of both counters misses nothing (`Backfill.CountersAdd`).
- Paging by offset loses a live row exactly when a row of the pages already read is
  gone at a later request and an unread one is live (`Paging.ARowIsHiddenIff`). An open
  gate is sound unless a row read is gone; there is a run that loses a row that way and
  opens its gate over it (`BackfillLimits.OpenGateCanMissARow`).
- The rollback of an unreferenced copy checks and then removes; a row born at that
  key in between, and only such a row, loses its object
  (`MigrationLaws.RollbackCanStrandANewbornRow`, `OnlyARollbackCanStrandARow`).
- A copy whose read-back failed is not tracked for rollback and stays
  (`MigrationLaws.ReadBackFailureLeavesACopy`). A copy no row was at stays only if an
  upload, a download, a reference check or a removal of its group failed, or a pointer
  update threw; a pointer update that replies with an error is rolled back.
- "A legacy object goes only when every row that maps to it has a verified copy" does
  not hold. Step 6 of a group does not look at rows already at home
  (`MigrationLaws.StepSixSkipsScopedRows`), and the sweep groups the fetched rows, so
  that with `--company` it verifies nothing for other companies' rows of the key
  (`BackfillLimits.AWindowedSweepCanLoseAnObject`), against its own comment. It holds
  exactly when the rows this run did not re-home had their copies
  (`RemovalLaws.RemovalIsSafeIff`), so under deletions from any sound start. After
  a sweep without `--company`, with no row gone between page requests, only rows born
  since the fetch can be left without (`Backfill.Run`).
- The comment on the inverse key mapping calls it exact. It is, forward and back;
  back and forward it fails exactly on doubly scoped keys.
- A failed lookup of the next period reads as "no next period", a failed read of its
  entries as "no entries", and a reply cut at the service's 1000 rows as all there are.
  The undo then can complete and detach the closing entry with the new year's entries
  still posted, and a re-run refuses; unread entries go unnoticed exactly when no
  opening balance is linked over one (`YearEndBooks.RightIffNothingMissed`). Nothing
  else goes unseen (last clauses of `UndoRun.Undo`).
- An unreadable company lock date passes as no lock (`UndoRun.CheckEntry`).
- Were someone else to supersede a signed version between the gate's reads, the gate
  would miss the signature (`YearEndGate.OutsideSupersedeDefeatsTheGate`).
- The header the generator writes says that exposure stays with a person; a community
  skill's is overwritten by every seed taken (`SeedVersions.SeedRowByRow`).
- Dollar quoting loses the text of a string that ends in the tag less its last
  dollar, although the tag does not occur in it.
- Overwritten columns outside the content hash follow whichever seed of the version is
  applied last, while review date and exposure are merged; an atom removed and added again is shut out of a registry past version 1.
- The review date of a community skill is hashed but merged: it depends on the order
  the seeds are applied in exactly when the newest version carries none and an older
  one taken does (`SeedVersions.ReviewDateInOneHistory`, `ReviewDateDependsOnTheOrder`).
- A two-character table number such as `3x` is accepted as table 3
  (`TaxTables.TableNumberMayTrailGarbage`; `AcceptedIff` has all that is accepted).
- The truncation to whole kronor is odd everywhere but at k + 0.995 in magnitude.

## Model

| member | source | states |
|---|---|---|
| StoragePaths.LegacyUndoesScoped | scripts/backfill-document-storage-paths.ts:241-257 | for every path and company, the scoped key is recognised as scoped, is never scoped again, and its derived legacy key is the path it came from |
| StoragePaths.ScopedPathInjective | scripts/backfill-document-storage-paths.ts:241-245 | a scoped key determines both the legacy path and the slash-free company, so distinct groups get distinct targets |
| StoragePaths.OneCompanyPerPath | scripts/backfill-document-storage-paths.ts:233-235 | no key is under the prefixes of two different slash-free companies |
| StoragePaths.ScopedUndoesLegacy | scripts/backfill-document-storage-paths.ts:247-257 | the reverse round trip holds if and only if the derived key is not itself under that company's prefix |
| StoragePaths.DoublyScopedDoesNotRoundTrip | scripts/backfill-document-storage-paths.ts:247-252 | a whole family of keys for which the inverse the comment calls exact does not round trip |
| DocumentStore.EnvKeepsLicence | scripts/backfill-document-storage-paths.ts:360-401 | what other actors may do between a check and the write it allows never takes that permission away |
| MigrationLaws.StepRetains | scripts/backfill-document-storage-paths.ts:414-565 | each single step of a run, a failed call or another actor's change included, keeps every document that was readable at the start |
| MigrationLaws.EveryWriteIsChecked | scripts/backfill-document-storage-paths.ts:428-545 | every write of every run, in keys and digests alone: a row is repointed only from `documents/{rest}` to `documents/{company}/{rest}`, inside the window, over a copy with the digest stored with it or, without one, the digest of the bytes at the old key; an upload goes to a free key and copies the old one; a source goes only in a delete run |
| MigrationLaws.EveryReachableStateRetains | scripts/backfill-document-storage-paths.ts:414-699 | in every state any run can reach or be killed in, each surviving row whose object was present and matched its hash still points at a present object with the same bytes |
| MigrationLaws.NoObjectOverwritten | scripts/backfill-document-storage-paths.ts:454-467 | no step changes the bytes at a key that stays present |
| MigrationLaws.EveryReachableStateKeepsLayout | scripts/backfill-document-storage-paths.ts:23-28 | the layout promise (slash-free companies, uploader ids never company ids) survives every run |
| MigrationLaws.SourceRemovedUnreferenced | scripts/backfill-document-storage-paths.ts:370-401 | after a legacy object is removed no live row points at its key, not even one added between the reference check and the removal |
| MigrationLaws.OnlyARollbackCanStrandARow | scripts/backfill-document-storage-paths.ts:370-401 | over every run: a row with a matching object, be it there from the start or born during the run, finds those bytes in every later state it lives in, unless a rollback of its own key, whose reference check did not list the row, took them; rows of the start are never stranded |
| MigrationLaws.AStepStrandsIff | scripts/backfill-document-storage-paths.ts:370-401 | step by step it is exact: a row that finds its bytes loses them if and only if the step is a rollback of its key whose check did not list it |
| MigrationLaws.RollbackCanStrandANewbornRow | scripts/backfill-document-storage-paths.ts:454-553 | the exception is real: after the script's calls for a row whose pointer update failed, up to the reference check, a row born at the copy's key loses its object to the rollback |
| MigrationLaws.ReadBackFailureLeavesACopy | scripts/backfill-document-storage-paths.ts:454-495 | the calls for a group of one row whose read-back fails, from the first to the last: the copy is there at the end, and no state of the run has a row at it |
| MigrationLaws.StepSixSkipsScopedRows | scripts/backfill-document-storage-paths.ts:557-562 | step 6 asks about the rows of the group only: a run that removes a key a row at home maps to though that row's copy is missing; RemovalIsSafeIff has the condition |
| MigrationLaws.EveryReachableStateStaysSound | scripts/backfill-document-storage-paths.ts:414-699 | under any deletions by others, killed anywhere, the layout holds and stored hashes and finished copies still match the legacy bytes |
| MigrationLaws.SettledIsFinal | scripts/backfill-document-storage-paths.ts:589-699 | a state with nothing left to do is its own final state |
| MigrationLaws.UploadConserves | scripts/backfill-document-storage-paths.ts:454-467 | uploading a copy leaves the final state of the migration, key by key and row by row, where it was |
| MigrationLaws.RepointConserves | scripts/backfill-document-storage-paths.ts:511-515 | so does repointing a row |
| MigrationLaws.RollbackConserves | scripts/backfill-document-storage-paths.ts:534-545 | so does rolling a copy back |
| MigrationLaws.RemovalConserves | scripts/backfill-document-storage-paths.ts:395-400 | so does removing a legacy source, which the final state does not hold either |
| MigrationLaws.StepConservesFinal | scripts/backfill-document-storage-paths.ts:414-699 | whatever an undisturbed run does next, failed calls included, the state it is heading for does not move, also when a later run may delete sources this one keeps |
| MigrationLaws.EveryReachableStateIsOnCourse | scripts/backfill-document-storage-paths.ts:414-752 | from every crash point of an undisturbed run the final state is that of the start, and layout and hashes are still sound |
| RemovalLaws.CopiesStay | scripts/backfill-document-storage-paths.ts:414-699 | in every reachable state of any run, whatever others add or delete: a row this run re-homed has its copy, a row of the start that had its copy has it still, and the object a row was at stays as long as the row is at it |
| RemovalLaws.RemovalIsSafeIff | scripts/backfill-document-storage-paths.ts:370-401 | at every removal of a legacy object, by step 6 or the sweep, of any run: every live row that maps to the key is left with its copy if and only if those this run did not re-home had a verified one |
| RemovalLaws.RemovalFromASoundStart | scripts/backfill-document-storage-paths.ts:370-401 | from a sound start it is up to the rows born during the run alone, so under deletions every live row that maps to the key has its copy after every removal |
| RemovalLaws.RowKept | scripts/backfill-document-storage-paths.ts:414-699 | ids are not reused: a row that is live was live all along since it was issued, and is as it was or re-homed |
| RemovalLaws.SoundUpToNewborns | scripts/backfill-document-storage-paths.ts:414-699 | what a run from a sound start leaves, killed anywhere and whatever others do, is sound if and only if the rows born during it are |
| RemoteStore.Store.constructor | scripts/backfill-document-storage-paths.ts:705-712 | a run begins with an empty history and a clean slate |
| RemoteStore.Store.Exists | scripts/backfill-document-storage-paths.ts:342-351 | a listing that fails is thrown and never reads as a missing object |
| RemoteStore.Store.StillReferenced | scripts/backfill-document-storage-paths.ts:360-368 | an answer is the live table's at that moment, rows of any company included |
| RemoteStore.Store.Upload | scripts/backfill-document-storage-paths.ts:455-467 | the copy lands with the source bytes, or only on a failed reply does it not; rows changed only by others |
| RemoteStore.Store.Repoint | scripts/backfill-document-storage-paths.ts:511-524 | exactly the row with that id is re-homed, the reply counts the rows matched, and a failed call may have landed |
| RemoteStore.Store.RemoveCopy | scripts/backfill-document-storage-paths.ts:538-540 | exactly the scoped copy goes, or on a failed reply nothing may have |
| RemoteStore.Store.RemoveSource | scripts/backfill-document-storage-paths.ts:395-400 | exactly the legacy object goes, or on a failed reply nothing may have |
| BackfillGroup.FailRows | scripts/backfill-document-storage-paths.ts:421-423 | one failure for each row concerned, once, under the group's key and for that step, and for no other row |
| BackfillGroup.DistinctCompanies | scripts/backfill-document-storage-paths.ts:442 | each owning company of the group once |
| BackfillGroup.CopyTarget | scripts/backfill-document-storage-paths.ts:450-490 | a recorded target is readable and carries the digest of what was read back; a copy made this run is remembered as such; a copy that cannot be read back stays and is not recorded; if no call fails there always is a target |
| BackfillGroup.CopyCompany | scripts/backfill-document-storage-paths.ts:445-491 | one company more is copied or reported missing, in a state where earlier copies still stand |
| BackfillGroup.CopyTargets | scripts/backfill-document-storage-paths.ts:440-491 | the only new objects are copies of the source at the group's targets, and each row's company has a target or each of its rows a failure |
| BackfillGroup.RepointRow | scripts/backfill-document-storage-paths.ts:501-527 | a row whose stored hash, or without one the source's, is not the copy's digest is neither written nor counted, and the step is verify-hash; any other counts only when a live row was updated; one deleted before the update does not |
| BackfillGroup.RepointRows | scripts/backfill-document-storage-paths.ts:493-528 | over the whole group: the counter is the number of moved rows, moved rows were live at their target, and every other row is reported, once |
| BackfillGroup.RollBackCopy | scripts/backfill-document-storage-paths.ts:535-552 | unless its calls fail the copy is gone or some row was at it |
| BackfillGroup.RollBackCopies | scripts/backfill-document-storage-paths.ts:530-553 | only copies made this run that no row was moved to disappear, the source never does, and unless one of its calls fails all of those are resolved |
| BackfillGroup.RemoveLegacySourceIfUnreferenced | scripts/backfill-document-storage-paths.ts:377-401 | it reports removal only if the object is gone, and left alone it removes exactly when no row references the key |
| BackfillGroup.NoResurrection | scripts/backfill-document-storage-paths.ts:530-553 | any object the group created that is still there was at some live row's pointer |
| BackfillGroup.GroupSettles | scripts/backfill-document-storage-paths.ts:555-565 | after a clean group each row is moved or cannot be, and a source that may go is gone |
| BackfillGroup.GroupIdles | scripts/backfill-document-storage-paths.ts:445-528 | a group in which nothing can be moved issues no write |
| BackfillGroup.MigrateGroup | scripts/backfill-document-storage-paths.ts:414-565 | migrated plus failed is the group size; each row is migrated or reported once and never both, and without faults the group is done and a row that does not count as migrated is as it was, or gone; a migrated row was live at its scoped key and its copy has the stored digest, or without one that of the source; without a source no row is; a source reported as removed went, and without faults the other way round; a source that went had every row of the group repointed, and all live rows that map to it have their copies if and only if those outside the group do; a new object that stays was some row's pointer, unless an upload, a download, a reference check or a removal of the group failed or a pointer update threw; nothing outside the group changes; a clean run settles the group |
| BackfillGroup.MovedCopiesStay | scripts/backfill-document-storage-paths.ts:493-553 | the copies of the moved rows are still there with the digest they were checked for after every other copy has been rolled back |
| SweepLegacy.VerifyCopy | scripts/backfill-document-storage-paths.ts:627-676 | a verified copy is readable and has the digest stored with the row, or without one that of the legacy bytes; without faults every such copy is verified |
| SweepLegacy.VerifyCopies | scripts/backfill-document-storage-paths.ts:623-678 | a key is verified only if every row it was grouped with has such a copy, and one that is not is reported |
| SweepLegacy.SweepKey | scripts/backfill-document-storage-paths.ts:611-695 | an object still there is counted and never reported removed, without faults exactly so; none goes without budget, or unless each row of the group has a copy with the digest stored with it, or without one that of the legacy bytes; after it went all live rows that map to the key have their copies if and only if those outside the group do |
| SweepLegacy.SweepLegacyObjects | scripts/backfill-document-storage-paths.ts:589-699 | every key that still has an object is counted and not taken off again, whatever fails; no more objects are removed than the budget allows, without faults exactly as many went as are reported; only the derived legacy keys may disappear, and the rows swept for those that did still have their copies at the end; a faultless run that stops short of its budget leaves only keys some row was at, or with a copy that is not verified, and then reports them; every failure is of a row of one of the groups |
| Paging.SortedIdsSpec | scripts/backfill-document-storage-paths.ts:321-326 | the listing holds each row of the window once, in table order |
| Paging.LaterPageIsLater | scripts/backfill-document-storage-paths.ts:316-337 | a row on a later page comes after every row already read, whatever was added or deleted meanwhile, so no row is fetched twice |
| Paging.OnPageIffRank | scripts/backfill-document-storage-paths.ts:326-336 | a row is on the page exactly when its rank lies in the requested range |
| Paging.DeletionBetweenPagesHidesARow | scripts/backfill-document-storage-paths.ts:308-337 | deleting any row of the pages already read hides the row at the next offset from every later request |
| Paging.ARowIsHiddenIff | scripts/backfill-document-storage-paths.ts:326-336 | from the table as the next request meets it, after any insertions and deletions: some live unread row is lost to this and every later request if and only if some row read is gone and some unread row is live |
| Paging.FetchAllDocuments | scripts/backfill-document-storage-paths.ts:312-340 | the result is what the requests met, page by page; each fetched row is live and as fetched, or gone; every row of the window was fetched if no row already read was gone at a later request, whatever else was deleted or added; as many requests as the table has pages are enough unless one fails |
| Backfill.Classify | scripts/backfill-document-storage-paths.ts:714-736 | candidates and already scoped rows are exactly those with a company whose key starts with `documents/` and without, or with, that company's segment, told apart by the text of the key |
| Backfill.ClassifiedByText | scripts/backfill-document-storage-paths.ts:230-257 | the two classes, read off the characters of the key alone |
| Backfill.GroupByKey | scripts/backfill-document-storage-paths.ts:743-752 | every row once, in the one group of its key, no group empty and no key twice |
| Backfill.TakeBatch | scripts/backfill-document-storage-paths.ts:773-779 | the limit takes a prefix of whole groups, and stops at the first that reaches it |
| Backfill.RowsInBatch | scripts/backfill-document-storage-paths.ts:773-779 | the batch stops at the first group with which its rows reach the limit |
| Backfill.SkipBatchKeys | scripts/backfill-document-storage-paths.ts:836-842 | the sweep gets exactly the scoped rows whose key this run did not migrate |
| Backfill.MigrateNext | scripts/backfill-document-storage-paths.ts:804-822 | each row of the group is migrated or reported and never both, also when the group threw; a source left behind by a fully migrated group is counted as kept and no other, one that went as removed |
| Backfill.MigrateBatch | scripts/backfill-document-storage-paths.ts:797-824 | each row of the batch is migrated or reported and never both; migrated rows are counted once each over all groups, every source still there though its whole group was migrated is counted as kept, and no more are counted as removed than went, without faults exactly those |
| Backfill.StillLegacyUnmoved | scripts/backfill-document-storage-paths.ts:845 | a row still on a legacy key was a fetched candidate that was not counted as migrated |
| Backfill.RowsCounted | scripts/backfill-document-storage-paths.ts:845 | the number of rows still on legacy keys is at most candidates less migrated |
| Backfill.ObjectAccounted | scripts/backfill-document-storage-paths.ts:845-847 | every object left at a fetched row's legacy key belongs to an unmigrated row, a kept source or a sweep leftover |
| Backfill.ObjectsCounted | scripts/backfill-document-storage-paths.ts:845-847 | of the leftover objects at most legacyObjectsRemaining are at keys other than those of unmigrated candidates, and those keys are at most legacyRowsRemaining, whatever failed, was limited away or disappeared |
| Backfill.CountersAdd | scripts/backfill-document-storage-paths.ts:845-847 | so the two counters together never under-count the leftover objects |
| BackfillLimits.ACounterCanMissAnObject | scripts/backfill-document-storage-paths.ts:773-847 | one counter alone can: two rows on one key, one deleted before its turn, and any plan and report of that run have legacyObjectsRemaining 0, legacyRowsRemaining 1 and the object still there |
| Backfill.NothingLeftIsSound | scripts/backfill-document-storage-paths.ts:867-871 | both counters at zero: no row of the window on a legacy key and no object at any fetched row's legacy key |
| Backfill.RunSettles | scripts/backfill-document-storage-paths.ts:705-842 | after a clean unlimited apply run nothing can be moved, and in a delete run nothing may be removed |
| Backfill.SettledIsIdle | scripts/backfill-document-storage-paths.ts:705-842 | from a settled state every group and every sweep key is idle |
| Backfill.Tally | scripts/backfill-document-storage-paths.ts:845-871 | the counters are those of the plan and the migrated rows, bound the rows and objects left, the gate is open exactly when both are zero without failures, and an open gate is sound |
| Backfill.NothingToPlan | scripts/backfill-document-storage-paths.ts:714-752 | if no fetched row is to be migrated and no object is at a fetched row's legacy key, there are no candidates and no leftovers |
| Backfill.MovedDocs | scripts/backfill-document-storage-paths.ts:511-527 | each row counted as migrated is, if still live after the sweep, at its scoped key |
| Backfill.RemovedCounted | scripts/backfill-document-storage-paths.ts:842-860 | the removals of the batch and of the sweep add up: no more are reported than objects went, without faults exactly as many, and the sweep's share is within the limit |
| Backfill.FinishRun | scripts/backfill-document-storage-paths.ts:826-871 | sweep and report: the counters, the gate, the removals and the limit, for what the batch left |
| BackfillLimits.OpenGateCanMissARow | scripts/backfill-document-storage-paths.ts:312-340 | a run of two requests with one deletion between them fetches a full page of rows at home and nothing else while a row is on a legacy key; by the last clause but one of Run its gate opens |
| Backfill.LookedAtIsCovered | scripts/backfill-document-storage-paths.ts:705-842 | at the end of a run, for every object that went: each live row the run looked at for it, as a candidate of the key or in its sweep, has its copy |
| Backfill.RunLosses | scripts/backfill-document-storage-paths.ts:599-609 | so it is the rows not looked at that decide whether a copy is missing; without a window and with a complete fetch these are, for a swept object, the rows born since |
| BackfillLimits.AWindowedSweepCanLoseAnObject | scripts/backfill-document-storage-paths.ts:599-695 | the failing run: with `--company` and `--delete-source` two rows of different companies derive one key, the sweep of any plan of that run verifies the one in the window, and the key goes though the other row's copy is missing |
| Backfill.MigrateAndSweep | scripts/backfill-document-storage-paths.ts:714-871 | one run after its fetch: no row of the batch is passed over in silence; the gate is sound and the counters never too low whatever fails or is deleted; no more removals are reported than objects went, without faults exactly as many, and the sweep takes no more than the limit; a dry run writes nothing; with nothing seen on legacy keys a fault-free run opens the gate |
| Backfill.Run | scripts/backfill-document-storage-paths.ts:705-886 | retention in every state the run passes; every row of the batch is migrated or reported, and without faults one that does not count as migrated is as it was, or gone; no more removals are reported than objects went, without faults exactly as many, and the sweep takes no more than the limit; an open gate is sound and no leftover row or object goes uncounted, but for objects at the keys of unmigrated rows, unless a row already read was gone at a later page request; for every object that went, all live rows that map to it have their copies if and only if those the run did not look at do, and without `--company`, unless a row read was gone later, for a swept object if and only if those born since the fetch do; a fault-free run with as many requests as the table has pages comes to its report; a clean unlimited run ends in the final state of its start, settled; a run from a settled state writes nothing; with nothing seen on legacy keys a fault-free run opens the gate |
| Backfill.ResumeAfterCrash | scripts/backfill-document-storage-paths.ts:454-466 | after a run killed anywhere, after any failed calls and whatever others did, one fault-free unlimited run comes to its report and leaves nothing to do, in a sound state, if what it found was sound; after a sound start it is so if and only if the rows born meanwhile are, always under deletions; if nobody interfered it ends where an uninterrupted run would have, deletions of sources included |
| YearEndGate.SignerStepTransitive | scripts/lib/year-end-undo-gate.ts:24-31 | any number of signer actions between two calls compose to one |
| YearEndGate.ClearIsStable | scripts/lib/year-end-undo-gate.ts:24-31 | with no signature on record and no version ready for one, no signer can ever record one |
| YearEndGate.CollectBlockers | scripts/lib/year-end-undo-gate.ts:78-95 | exactly the reasons there are: the submission statuses, the number of requests that are signed or carry a signing time, each signed, filed or registered version by number and status |
| YearEndGate.OpenGateReadNothing | scripts/lib/year-end-undo-gate.ts:74-95 | no blocker exactly when no submission was read, every version is a draft, ready for signature or superseded, and every request pending or declined without a signing time |
| YearEndGate.VoidedAmong | scripts/lib/year-end-undo-gate.ts:100-105 | voided requests are the pending ones bound to a version to be superseded |
| YearEndGate.UnboundAmong | scripts/lib/year-end-undo-gate.ts:107-126 | the requests without a version are counted exactly |
| YearEndGate.WarningsFor | scripts/lib/year-end-undo-gate.ts:107-126 | each warning appears exactly when its count is positive, with that count, or the meeting date has passed |
| YearEndGate.EvaluateYearEndUndoGate | scripts/lib/year-end-undo-gate.ts:74-129 | the gate is open exactly when no submission was read, every version is a draft, ready for signature or superseded, and every request pending or declined without a signing time; blockers, warnings, ready versions and the pending requests bound to them are exactly those there are |
| YearEndGate.SplitReadsConfine | scripts/undo-year-end-closing.ts:161-195 | requests read at one moment and versions at another, in either order: every signature made or still possible belongs to a version about to be superseded |
| YearEndGate.ConfinedIsStable | scripts/undo-year-end-closing.ts:344-359 | signers cannot leave that confinement while the versions are being superseded |
| YearEndGate.OutsideSupersedeDefeatsTheGate | scripts/undo-year-end-closing.ts:161-195 | the assumption that only the undo supersedes is needed: a history in which reads show nothing, nothing is superseded or rechecked, and a signature is on record |
| YearEndBooks.StornoCancels | src/lib/bookkeeping/engine.ts:1502-1511 | an entry and its storno cancel on every account, negative sides included, and storno lines are non-negative |
| YearEndBooks.ReverseExactly | src/lib/bookkeeping/engine.ts:1560-1853 | one reversal, entry by entry and line by line: the entry is marked reversed, its storno comes last with each amount on the other side, nothing else in the journal changes, and the opening balance link goes with the entry it names and no other |
| YearEndBooks.ReverseKeepsChain | src/lib/bookkeeping/engine.ts:1560-1640 | a reversal leaves every reversed entry with exactly one posted storno that mirrors it and every posted one with none |
| YearEndBooks.ReverseTakesOffTheNet | src/lib/bookkeeping/engine.ts:1502-1640 | a reversal takes exactly the entry's amounts off every account of the ledger |
| YearEndBooks.ReverseAppropriation | scripts/undo-year-end-closing.ts:378-382 | after the first stage no appropriation entry is left to find, and the opening balance found is the one before |
| YearEndBooks.ReverseOpening | scripts/undo-year-end-closing.ts:384-388 | after the second stage nothing generated is left to find and the link and flag are clear, link or fallback match alike |
| YearEndBooks.UndoneIsVerified | scripts/undo-year-end-closing.ts:510-516 | from any well-kept books the undone state passes the script's own final check, is well kept and has nothing left to reverse |
| YearEndBooks.UndoneExactly | scripts/undo-year-end-closing.ts:378-434 | entry by entry: the posted closing, appropriation and linked opening entries are reversed, each with one mirrored storno, and no other entry changes; the period is open and unlinked, the next one without opening balance and continuity mark |
| YearEndBooks.StepKeepsUndone | scripts/undo-year-end-closing.ts:378-434 | each step in order leaves the state the undo ends in exactly where it was, so re-running from there reaches it |
| YearEndBooks.SeenIsReversed | scripts/undo-year-end-closing.ts:258-388 | of well-kept books exactly the generated entries that were seen are gone from the next year, and a seen opening balance takes its link along |
| YearEndBooks.RightIffNothingMissed | scripts/undo-year-end-closing.ts:229-289 | a failed lookup of the next period, or of its entries, reads as none, and a reply may be cut short at any entry; for each of these: the run ends in the undone state if and only if the next year held nothing it failed to see, it passes its final check if and only if no opening balance link is left over an unread entry, the unseen entries are still posted, and no closing entry is left for a re-run |
| YearEndBooks.UndoneLedger | scripts/undo-year-end-closing.ts:378-434 | over the whole undo each account loses exactly the closing entry and the two generated entries, as far as they were posted |
| YearEndUndo.NoSignatureOnceBooksAreTouched | scripts/undo-year-end-closing.ts:344-376 | from the first change to the books on, in every interleaving, no request is signed or carries a signing time, no version is ready for signature, and none can be again |
| YearEndUndo.NeverReopenedAfterASignature | scripts/undo-year-end-closing.ts:344-416 | if a signature is on record in any reachable state, the books, the closed period included, are as they were at the start |
| YearEndUndo.EveryReachableStateHasLinksInOrder | scripts/undo-year-end-closing.ts:399-434 | in every reachable state: link cleared means closing entry reversed, and closing entry reversed means period open |
| YearEndUndo.EveryReachableStateKeepsUndone | scripts/undo-year-end-closing.ts:258-286 | at every crash point of a run with working lookups the books are well kept and the undone state is the one of the start |
| YearEndUndo.Office.Interfere | scripts/lib/year-end-undo-gate.ts:24-31 | between calls the report may take any signer step, the books none |
| YearEndUndo.Office.Supersede | scripts/undo-year-end-closing.ts:346-357 | compare-and-set: the version changes only if it was ready, the count says whether it was, and a failed call may have landed |
| YearEndUndo.Office.Change | scripts/undo-year-end-closing.ts:378-434 | the step's change lands whole or, only on a failed reply, not at all; no signature can come in while it does |
| UndoRun.ReadGate | scripts/undo-year-end-closing.ts:161-186 | four reads in any order with signers acting in between: it returns what was read exactly when none of them failed, and each read was true at its own moment and the moments are ordered |
| UndoRun.Gate | scripts/undo-year-end-closing.ts:161-196 | an open gate read paperwork only and confines every present and future signature to the versions to supersede; a failed read shuts it; left alone it opens exactly on a report without legal weight |
| UndoRun.VoidedIsClear | scripts/undo-year-end-closing.ts:344-376 | with all those versions superseded and no signature at the recheck, or no such version at all, nothing can be signed any more |
| IsoDates.StringOrderIsDateOrder | scripts/undo-year-end-closing.ts:203-210 | comparing two ISO dates as strings is comparing their year, month and day |
| UndoRun.LockCoversIff | scripts/undo-year-end-closing.ts:203-210 | so the books are locked for the undo exactly when the lock's year, month and day come on or after those of the period's end |
| UndoRun.VoidReport | scripts/undo-year-end-closing.ts:344-376 | it goes on only to a report that is clear for good, and left alone it does go on |
| UndoRun.FindNext | scripts/undo-year-end-closing.ts:229-246 | the next period, found by back link or by date; or none because a lookup failed, and only then |
| UndoRun.ScanNext | scripts/undo-year-end-closing.ts:258-284 | the last posted match of each kind, by link when the link is set, among the entries returned: all of them, none exactly when the read failed, or those that fill a reply of 1000 rows |
| UndoRun.CheckEntry | scripts/undo-year-end-closing.ts:198-222 | stopped by the company lock exactly when it was read and its year, month and day come on or after those of the period's end, so a covering lock that could not be read lets the run go on; it goes on exactly then, with a closing entry read as posted or reversed |
| UndoRun.Prepare | scripts/undo-year-end-closing.ts:141-289 | it goes on only past reads that held paperwork only and a lock, if read, that ends before the period; left alone and without faults, exactly when the stated preconditions hold, having changed nothing |
| UndoRun.ReverseGenerated | scripts/undo-year-end-closing.ts:378-388 | exactly the generated entries the lookups showed are reversed, the appropriation first; the closing entry and period untouched |
| UndoRun.ReopenPeriod | scripts/undo-year-end-closing.ts:390-416 | the period is open with its link in place and the journal untouched |
| UndoRun.ReverseAndDetach | scripts/undo-year-end-closing.ts:418-434 | the link is let go of only over a reversed entry with a posted storno |
| UndoRun.VerifyUndone | scripts/undo-year-end-closing.ts:488-526 | it passes only on books that are verified as far as it looked, and without faults on all that are |
| UndoRun.Execute | scripts/undo-year-end-closing.ts:337-434 | a run that gets through leaves the end state that goes with what its lookups showed; one stopped by a changed version or a signature leaves the books alone |
| UndoRun.Commit | scripts/undo-year-end-closing.ts:337-526 | the writes and the final check: completion means the end state that goes with what the lookups showed, verified as far as they went, with the closing entry reversed and a storno posted |
| UndoRun.Undo | scripts/undo-year-end-closing.ts:137-528 | refusals and dry runs change no books; any change means that every submission, request and version, as it stood when it was read, was paperwork, that no lock was read that covers the period's end, and that no signature is or can be recorded; completion means exactly the end state that goes with what the lookups showed, the undone state if all succeeded, a posted storno of the closing entry and a passed final check; entries go unseen only behind a failed call or a full reply; left alone it completes if and only if the preconditions hold |
| UndoRun.ResumeUndo | scripts/undo-year-end-closing.ts:258-286 | re-running a run killed before the detach, on a next year that fits one reply, completes if and only if the report is paperwork only, the lock does not cover the period's end and the next year is neither closed nor locked; then in the undone state of the original start with one mirrored storno per reversed entry |
| WorkerPool.ClaimKeepsSound | src/lib/concurrency.ts:26-28 | a claim leaves every index below the counter stored or held by exactly one worker |
| WorkerPool.SettleKeepsSound | src/lib/concurrency.ts:28 | so does storing a result |
| WorkerPool.RejectKeepsSound | src/lib/concurrency.ts:10-12 | so does a rejected call, whose index stays held |
| WorkerPool.AllStored | src/lib/concurrency.ts:27-32 | when all workers have stopped no result is missing |
| WorkerPool.PoolStepKeepsSound | src/lib/concurrency.ts:21-33 | every step of any worker keeps the index invariant and takes one from what is left to do |
| WorkerPool.EveryPoolStateIsSound | src/lib/concurrency.ts:21-33 | in every state of every schedule: the indexes claimed are 0, 1, 2 … without gap or repeat, each is stored or in one call, no more calls are in flight than workers, and steps taken plus steps left to do are 2n and one a worker |
| WorkerPool.StandsStillIff | src/lib/concurrency.ts:21-33 | there is no deadlock: a pool stands still if and only if every worker has stopped or had its call rejected |
| WorkerPool.RestIsComplete | src/lib/concurrency.ts:27-32 | a pool at rest without a rejected call has claimed and stored every index |
| WorkerPool.EveryPoolStateIsDelivered | src/lib/concurrency.ts:28 | under every schedule each stored result came from the call on its own item, and a worker failed only on a rejected call |
| WorkerPool.MapWithConcurrency | src/lib/concurrency.ts:14-33 | a limit below 1 or not finite is refused; otherwise it runs some schedule of a pool, with as many workers as limit and items allow and not one more, to rest, rejects if and only if a call was rejected, and else returns that pool's results in input order, every index claimed once |
| WorkerPool.TimelessCallsMapInOrder | src/lib/concurrency.ts:1-3 | for calls whose result does not depend on when they are made, the pool is the sequential map |
| ParityRun.ParseConcurrency | scripts/parity-trial-balance-rpc.ts:53-63 | 4 by default, the number itself when it is a positive integer, refused otherwise |
| ParityRun.RunPool | scripts/parity-trial-balance-rpc.ts:381-414 | it runs some schedule of the pool to rest, every period claimed once, and the gate opens if and only if every case of every period agrees and no probe failed; with no workers it would open on nothing |
| ParityRun.CheckCase | scripts/parity-trial-balance-rpc.ts:352-373 | the findings are exactly the row differences, or the two outcomes unless both raised the expected guard; none exactly when both paths returned the same rows or both raised it |
| ParityRun.CheckPeriod | scripts/parity-trial-balance-rpc.ts:337-380 | the findings are exactly those of its cases; none exactly when every case of the period agrees |
| ParityRows.DiffAccount | scripts/parity-trial-balance-rpc.ts:177-196 | exactly the differences of one account, each once: missing on a side, label, each of the six amounts |
| ParityRows.DiffRows | scripts/parity-trial-balance-rpc.ts:172-202 | every difference once and nothing else; empty if and only if both sides agree account by account and in the joined order |
| ParityRows.LastRowIsFound | scripts/parity-trial-balance-rpc.ts:174-176 | of several rows of an account it is the last that is compared |
| ParityRows.JoinInjective | scripts/parity-trial-balance-rpc.ts:198-200 | the joined text of comma-free names determines the names and their order |
| ParityRows.EmptyDiffMeansEqual | scripts/parity-trial-balance-rpc.ts:172-202 | with one row per comma-free account, an empty diff is equality of the row sequences, order included |
| ParityRows.RepeatedAccountHidesARow | scripts/parity-trial-balance-rpc.ts:174-176 | without uniqueness two different row sequences have an empty diff |
| ParityRows.CommaHidesTheOrder | scripts/parity-trial-balance-rpc.ts:198-200 | without comma-freeness two different orders have an empty diff |
| SqlQuoting.OneTagPerPosition | scripts/generate-skill-bodies.ts:67-73 | two different tags never occur at the same position of a string |
| SqlQuoting.TagsTakePositions | scripts/generate-skill-bodies.ts:67-73 | n tags that all occur take n positions, so at most |s| of them can occur |
| SqlQuoting.DollarQuote | scripts/generate-skill-bodies.ts:66-75 | ends on every string, with the first tag of the list that does not occur in it |
| SqlQuoting.SharedDollar | scripts/generate-skill-bodies.ts:66-75 | an occurrence of the tag that starts inside the string and ends behind it shares exactly one dollar with the closing tag |
| SqlQuoting.DollarQuoteRoundTrip | scripts/generate-skill-bodies.ts:66-75 | the literal scans back to the string, whatever follows, if and only if the string does not end in the tag less its last dollar |
| SqlQuoting.OverlapLosesTheText | scripts/generate-skill-bodies.ts:66-75 | the shortest string for which a fresh tag still loses the text |
| SqlQuoting.SqlStrRoundTrip | scripts/generate-skill-bodies.ts:77-80 | the quoted literal scans back to the string as long as no quote follows it |
| MigrationNames.NextMigrationTimestamp | scripts/generate-skill-bodies.ts:87-100 | one more than the highest number of fourteen digits any file name starts with; the new file sorts after every such name if and only if that is below 100000000000000 |
| SeedVersions.FindDrift | scripts/generate-skill-bodies.ts:206-215 | added, changed and removed are exactly those, and all are empty if and only if the manifest is current |
| SeedVersions.BuildRows | scripts/generate-skill-bodies.ts:235-244 | the written manifest and seed rows are those of the disk, atom by atom |
| SeedVersions.Generate | scripts/generate-skill-bodies.ts:170-251 | refused on an empty disk; up to date or passing exactly when the manifest lists the atoms found, each with the hash of what counts as its content; otherwise stale or a new seed, which holds exactly the atoms found, a changed one a version higher, and switches off exactly the developer-only ids and the community skills gone from disk |
| SeedVersions.SameContentIff | scripts/generate-skill-bodies.ts:204 | two community skills have one content exactly if body, title, description, exposure and review date agree, other atoms exactly if the body does |
| SeedVersions.HistoryIsTracked | scripts/generate-skill-bodies.ts:203-244 | over any linear history, for an atom that stays on disk: a version rises by one exactly when the hashed content changed, so a version stands for one content |
| SeedVersions.RegeneratingIsIdle | scripts/generate-skill-bodies.ts:230-233 | generating again right away emits nothing |
| SeedVersions.SeedRowByRow | scripts/generate-skill-bodies.ts:118-166 | what applying a seed makes of a row, column by column: inserted exposed unless the atom says otherwise, merged unless newer, left alone, switched off |
| SeedVersions.WithdrawnIsSwitchedOff | scripts/generate-skill-bodies.ts:161-166 | after the emitted seed a community skill gone from disk is inactive and unexposed, and any other atom gone keeps its row unless it is for developers only |
| SeedVersions.NeverDowngrades | scripts/generate-skill-bodies.ts:143-166 | applying any seed lowers no row's version, takes away no review date, switches no row on and removes none |
| SeedVersions.ExposureStaysManual | scripts/generate-skill-bodies.ts:155-166 | the exposure of a row that is no community skill only ever changes by being switched off by name |
| SeedVersions.EndsAtTheMaximum | scripts/generate-skill-bodies.ts:143-158 | from any registry, any seeds in any order, with repeats: a row ends at the maximum of its own version and those of the seeds; unless it is newer than every seed it has the overwritten columns of the last seed of the highest version, and as a community skill never switched off its exposure; if it is newer, only switching it off touches it |
| SeedVersions.OrderDoesNotMatter | scripts/generate-skill-bodies.ts:128-158 | two orders of the same seeds of one history bring any registry to the same version and body, and a community skill to the same title and description, and the same exposure if none of them switched it off |
| SeedVersions.ReviewDateIgnoresOrderIff | scripts/generate-skill-bodies.ts:156-158 | from any registry, for any seeds: the review date a row ends with is the same in every order, with any repeats, if and only if the seeds of the highest version, not below the row's, carry exactly one date or no seed that is taken carries a date other than the row's |
| SeedVersions.ReviewDateInOneHistory | scripts/generate-skill-bodies.ts:156-204 | for a community skill of one history: exactly when a seed of the highest version is taken and carries a date, or none taken carries a new one |
| SeedVersions.ReviewDateDependsOnTheOrder | scripts/generate-skill-bodies.ts:156-158 | a skill reviewed in version 1 and not in version 2: in one order it ends with the date of version 1, in the other without |
| SeedVersions.ReaddedAtomIsShutOut | scripts/generate-skill-bodies.ts:235-243 | an atom removed and added again restarts at 1, and a registry past that keeps the old text |
| SeedVersions.UnhashedColumnsFollowTheLastSeed | scripts/generate-skill-bodies.ts:143-154 | of two seeds of one version the one applied last decides all overwritten columns, those outside the hash included, older or newer |
| Decimals.TextRoundTrip | src/lib/money.ts:35-38 | the shortest decimal text of every number, in all four layouts, reads back as that number |
| Decimals.ShiftIsExact | src/lib/money.ts:23-38 | editing the exponent in that text moves the decimal point exactly, for every number, layout and shift |
| Decimals.ShiftsCompose | src/lib/money.ts:35-38 | shifts add up, and a shift by nothing is the identity |
| Money.RoundOreIsNearest | src/lib/money.ts:40-73 | a whole number of öre within half an öre, an exact half going toward positive infinity |
| Money.NothingIsNearer | src/lib/money.ts:40-73 | no whole öre is nearer, one as near is lower, and the error is at most 0.005 |
| Money.RoundOreIsIdempotent | src/lib/money.ts:70-73 | rounding again changes nothing |
| Money.RoundOreIsMonotone | src/lib/money.ts:70-73 | a larger amount never rounds to less |
| Money.RoundOreCommutesWithOre | src/lib/money.ts:70-73 | whole öre can be added before or after rounding |
| Money.RoundOreIsOddExceptAtHalves | src/lib/money.ts:59-63 | the rounding of the negative is the negative of the rounding if and only if the amount is not at an exact half |
| Money.TruncationDropsOre | src/lib/money.ts:74-94 | strictly less than one krona is dropped from the rounded amount, always toward zero |
| Money.TruncationIsOddExceptAtLastHalves | src/lib/money.ts:85-94 | the truncation of the negative is the negative of the truncation if and only if the amount is not k + 0.995 in magnitude for a natural k |
| Money.LastHalvesExist | src/lib/money.ts:85-94 | there is an amount at every such half, so the asymmetry does occur |
| Money.EqualOreIsEquality | src/lib/money.ts:132-146 | on whole öre the tolerance comparison is equality, and zero-to-the-öre is zero |
| Money.EqualOreIsWithinHalf | src/lib/money.ts:132-146 | equal means within half an öre, the half included, and so does zero |
| Money.SumOreIsPermutationInvariant | src/lib/money.ts:148-156 | the order of the addends does not matter |
| Money.SumOreIsNearest | src/lib/money.ts:148-156 | the whole number of öre within half an öre of the exact sum of all addends, an exact half going upward |
| Money.SumOreIsExactOnOre | src/lib/money.ts:148-156 | on whole öre the sum is exact |
| Money.SumOreAgainstRoundedAddends | src/lib/money.ts:148-153 | against rounding each addend, it differs by at most half an öre per addend and half for the total |
| LogPercentiles.PercentileIsNearestRank | scripts/perf/log-percentiles.ts:59-64 | an element with fewer than rank values strictly below it and at least rank at or below it |
| LogPercentiles.PercentileIsMonotone | scripts/perf/log-percentiles.ts:59-64 | it never falls as p grows |
| LogPercentiles.StatsAreOrdered | scripts/perf/log-percentiles.ts:122-128 | p50 ≤ p90 ≤ p99 ≤ max |
| LogPercentiles.StatsAreShares | scripts/perf/log-percentiles.ts:122-128 | p50, p90 and p99 are values that at least 50, 90 and 99 in a hundred are at or below and fewer are below; max is the greatest value |
| LogPercentiles.SortSorts | scripts/perf/log-percentiles.ts:122 | ascending, and a permutation |
| LogPercentiles.GroupsPartition | scripts/perf/log-percentiles.ts:94-114 | the group counts add up to the number of records that pass the filters |
| LogPercentiles.Gather | scripts/perf/log-percentiles.ts:96-114 | after the loop every bucket holds exactly its group's count and finite values, in record order and as often as the field is named, and no passing record is missed |
| LogPercentiles.Summarize | scripts/perf/log-percentiles.ts:91-131 | one row for each group at the threshold; its count is the number of records that pass the filters and carry its label, and p50, p90, p99 and max of a field split the finite values of those records at 50, 90, 99 and 100 in a hundred; without a threshold the rows partition the records that pass |
| LogPercentiles.StatsAreReadOff | scripts/perf/log-percentiles.ts:96-128 | the statistics, from sorting the pushed values, are those of the records themselves, however often the field is named |
| LogPercentiles.RepetitionKeepsStats | scripts/perf/log-percentiles.ts:110-128 | a field named more than once in `--field` pushes its values again, and none of the four statistics changes |
| TaxTables.ParseLineInvertsRender | scripts/import-tax-tables.ts:9-19 | reading inverts the documented 49-character record for every table number and every field in range, the blank upper bound included |
| TaxTables.AcceptedIff | scripts/import-tax-tables.ts:53-119 | a line is accepted if and only if its raw characters say so: long enough, month and kind, a table field of a digit and anything or a digit behind a space or sign, every income and column field a digit string amid white space, only a percent row's upper bound blank; it fails the import if and only if it is a two-week record, or a monthly one with a table number and a field that is no number, and is skipped otherwise |
| TaxTables.SpacesAre | scripts/import-tax-tables.ts:83-103 | what trimming takes off is the white space and line ends of ECMA-262, by code point |
| TaxTables.TableNumberMayTrailGarbage | scripts/import-tax-tables.ts:75-77 | every documented record of table 10d, with any non-digit in place of the second digit, is accepted as table d with all other fields as written |
| TaxTables.GatherRows | scripts/import-tax-tables.ts:125-135 | it fails exactly when some line is malformed, and else keeps every accepted row of every table in file order |
| TaxTables.ParseFile | scripts/import-tax-tables.ts:121-145 | table numbers strictly increasing, each with exactly its accepted rows, by lower bound and equal bounds in file order, and no table missing |
| TaxTables.ImportTables | scripts/import-tax-tables.ts:201-220 | it goes ahead if and only if no line is malformed, something was read, and every table read has both a krona and a percent row |
| StableSort.SortSorts | scripts/import-tax-tables.ts:140-142 | ascending by key, a permutation with the same members |
| StableSort.SortIsStable | scripts/import-tax-tables.ts:140-142 | elements with equal keys keep their order |
| ObservedBenchmark.SupplierSuffix | scripts/parties/seed-observed-benchmark.ts:69-74 | the loop ends for every index, with the name the bijection gives it |
| ObservedBenchmark.IndexOfSuffix | scripts/parties/seed-observed-benchmark.ts:69-74 | different indexes give different names |
| ObservedBenchmark.SuffixOfIndex | scripts/parties/seed-observed-benchmark.ts:69-74 | every non-empty lowercase name is reached |
| ObservedBenchmark.SuffixIsIncreasing | scripts/parties/seed-observed-benchmark.ts:69-74 | names come in length-then-alphabet order |
| ObservedBenchmark.EveryVoucherBalances | scripts/parties/seed-observed-benchmark.ts:80-89 | the lines of every generated voucher sum to zero |

## Left out

- BackfillGroup.MigrateGroup: "no resurrected copies" is stated for groups in which no upload, download, reference check or removal failed and no pointer update threw, because the script forgets a copy whose upload or read-back failed, skips the rollback when it throws, and keeps a copy whose reference check or removal failed.
- Backfill.Run: an open gate is stated sound for runs in which no row already read was gone at a later page request, because offset paging then skips rows; `pages` stands for the number of requests the process lived to make.
- Backfill.ResumeAfterCrash: from a state that is not sound, because a row born meanwhile or a stored hash does not match its bytes, the next run is not promised to settle; retention and the gate cover it.
- SqlQuoting.SqlStrRoundTrip: a quote directly behind the literal is excluded, as it would extend any SQL literal; the generator never writes one.
- An empty stored hash, which the migration takes at its word and the sweep as missing, is not told apart from a present one.
- The default page size of the storage listing and its fuzzy search: a listing finds the name or fails.
- Rows without a company or outside `documents/`: the script skips them and its gate does not cover them.
- The inside of `reverseEntry`: voucher numbers, draft and post, bank links and orphan cleanup. It is one step that posts the mirrored entry, marks the entry reversed and clears the opening balance link, or does nothing; the chain depth guard is not part of it.
- The audit row after the detach and its retries: a crash there cannot be resumed, as the script then refuses.
- Attribution to a company member: the user is taken as given.
- Journal entries are taken to be scanned in journal order; cancelled ones are skipped as non-posted ones are.
- `casesFor`, dimension probing and retries of the parity script: a period comes with the outcomes its calls return.
- SQL arrays, JSON columns and dangling-link checks of the seed generator; a skill body that is itself the JSON text hashed for another skill.
- Negative zero and non-finite numbers, which `roundOre` passes through, and the rounding of binary floating point in `Number(...)` and in sums.
- The final ranking of percentile rows by p50: with a group without samples the comparator sees NaN and the order is up to the engine. Parsing log lines and rendering tables.
- Splitting the tax file into lines and emitting the TypeScript module.
- Flags, prompts, banners, console reports, clients and environment files.
