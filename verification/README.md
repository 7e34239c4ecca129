# Account store verification

A Dafny model of the stateful parts of `packages/core/src`: the account-store migration, relocation and
rollback protocol, the whole-pool replacement, the selection engine, the account codecs and verdict rules, and
the streaming response decoder, with proofs of what each is for.

`dafny verify dfyconfig.toml` checks everything.

## How it is organised

| file | models |
|---|---|
| `Text.dfy` | options, JavaScript whitespace and `trim` |
| `Codecs.dfy`, `Shapes.dfy` | the codec combinators as data, and the real account shapes built from them |
| `Legacy.dfy`, `Dedup.dfy`, `Cursors.dfy` | splitting and rejoining legacy JSON; which of several accounts with one email stays; index cursors and row refs |
| `Journal.dfy` | the migration journal: what its decoder accepts and every change a driver saves |
| `Migration.dfy` | legacy writers, migration, cancellation, fresh installation and rollback over durable steps |
| `Relocation.dfy` | moving a store between two anchors, cancelling, and moving back |
| `Snapshot.dfy` | the optimistic read of a store's files |
| `Canonical.dfy` | the canonical JSON texts that digests are taken of |
| `Replacement.dfy` | the journaled replacement of the whole pool, what the store checks before it publishes, and operations that commit late |
| `Verdicts.dfy` | access verdicts, stored and in memory |
| `Pending.dfy` | coalesced and requeued row writes; merged reset times and counts |
| `Rows.dfy`, `Selector.dfy` | when a row may be selected and how long it is not; the selector itself |
| `Sessions.dfy` | the bounded session tables |
| `Transport.dfy` | chunked and fixed-length bodies, the response head |

Protocols are state machines over durable artifacts: each durable write is a step guarded by the checks the code
makes right before it, a run is any sequence of steps, and a process may stop between any two. Locks are mutual
exclusion while held, digests stand for the content they identify, and clocks, random ids and the unseen model
registry and hybrid scoring are parameters. Classes and loops in the source are classes and loops here; code made
of expressions is functions.

## What the proofs show about the code as it is

- A move compares its source for the last time before it writes the forward, and nothing looks at the source again. A
  write admitted earlier that lands after that comparison is lost, unless it leaves the rows as copied
  (`Relocation.SourceWriteSurvivesIff`, `Relocation.LandedWriteCanBeLost`); one that lands before it stops the move
  (`Relocation.LandedWriteStopsTheMove`).
- Moving back, a write in the moved store is lost once a copy was compared for the last time or recorded. That includes
  a session's write after a stopped reverse was recorded, since the resumed move does not copy again
  (`Relocation.LateWriteSurvivesIff`, `Relocation.LateWriteCanBeLost`).
- Operations check for a pending replacement only when they are admitted. One committed after the journal was
  written leaves the replacement pending for good, while ordinary operations are refused, exactly if it changed a
  row's token or identity: a refresh does, and so does an identity recorded on a row without one
  (`Replacement.LateWriteStrandsIff`, `Replacement.LateRefreshStrands`, `Replacement.LateIdentityStrands`).
- A replacement whose input holds an old row's token under another known identity is accepted and recorded, and the
  store then refuses to publish it on every attempt (`Replacement.ReattributionStrands`, `Replacement.CompletableIff`).
- A reorder that commits after a replacement was published or even verified leaves it pending for good unless it is the
  inputs' order, since every later call checks that order (`Replacement.PublishedReorderStrandsIff`).
- The chunked decoder accepts sizes below zero. Below minus the length of the size line and its break, what is read
  depends on how the bytes were cut into segments (`Transport.ReadsAlikeIff`, `Transport.MinusFiveHello`); `-6`
  makes the decoding loop run forever (`Transport.MinusSixNeverEnds`), and `-0` ends the body
  (`Transport.MinusZeroEnds`).
- A `cleared` verdict on a row without an eligibility record erases its evidence, and an older verdict then takes
  effect (`Verdicts.LastObservedWinsIff`).
- A response cut off early reads like a complete one, chunked (`Transport.TruncationReadsAsComplete`) or of declared
  length (`Transport.ShortBodyReadsAsComplete`), and one of declared length 0 does not end by itself
  (`Transport.ExactlyTheLength`).
- A row write that meets contention while a later one of its row is in flight is applied after it, so the row ends as
  the earlier one says wherever the two disagree on a field: a lifted cooldown returns (`Pending.OvertakenIff`,
  `Pending.CooldownReturns`). A write that fails otherwise is not queued again.
- One coalesced row write differs from the single writes where a key's reset follows a clear or a later reset
  (`Pending.CoalescingExactIff`).
- `canonicalJson` loses a key named `__proto__`, which the account codecs refuse (`Canonical.ProtoKeyIsLost`).
- A session keyed by the empty string is never evicted (`Sessions.BoundKeptIff`).
- The optimistic snapshot compares the files' bytes before and after, so some schedule of reads mixes files of different
  instants exactly where a file changed in between and is back to its earlier bytes (`Snapshots.MixesIff`).
- The journal decoder accepts a verify-phase journal with rows missing, from which the next save is refused
  (`Journals.VerifyNeedsEveryRow`); no driver saves one.

## Model

| member | source | states |
|---|---|---|
| Text.TrimIsTrimmed | packages/core/src/account-repository-codecs.ts:210-222 | trimming is idempotent and leaves the empty string exactly for blank ones |
| Codecs.EncodeUndoesDecode | packages/core/src/account-repository-codecs.ts:254-411 | for every codec built from the combinators, whatever decodes is encoded back to the same JSON, unknown keys at every depth and null versus absent included |
| Codecs.DecodeUndoesEncode | packages/core/src/account-repository-codecs.ts:254-411 | whatever encodes decodes back to the same value, up to empty `extensions` slots at any depth |
| Codecs.DecodeIsInjective | packages/core/src/account-repository-codecs.ts:334-411 | two raw values read alike are the same JSON: decoding loses nothing |
| Codecs.DecodedIsTidy | packages/core/src/account-repository-codecs.ts:334-372 | decoding never leaves an empty `extensions` slot |
| Codecs.DecodeKeepsNull | packages/core/src/account-repository-codecs.ts:254-260 | no decoder turns null into a value or a value into null |
| Codecs.EncodeKeepsNull | packages/core/src/account-repository-codecs.ts:254-260 | no encoder turns null into a value or a value into null |
| Shapes.MetadataIsWellFormed | packages/core/src/account-repository-codecs.ts:456-521 | the codec laws apply to the real provider-metadata shape |
| Shapes.QuotaIsWellFormed | packages/core/src/account-repository-codecs.ts:523-562 | the codec laws apply to the real quota shape |
| Shapes.RoutingIsWellFormed | packages/core/src/account-repository-codecs.ts:604-633 | the codec laws apply to the real routing-settings shape |
| Shapes.MetadataRefusesOtherOwners | packages/core/src/account-repository-codecs.ts:564-588 | the metadata codec refuses the refresh token and every quota field, even as unknown keys |
| Dedup.DeduplicateByEmail | packages/core/src/account-storage.ts:200-256 | the loader's email deduplication keeps exactly the positions the declarative rule keeps, in order |
| Dedup.KeepWinners | packages/core/src/account-migration.ts:563-579 | the migration's own deduplication keeps exactly the same positions |
| Dedup.OneSurvivorPerEmail | packages/core/src/account-storage.ts:200-256 | every email keeps exactly one account, and none of that email is newer |
| Dedup.NothingDroppedIff | packages/core/src/account-storage.ts:200-256 | nothing is dropped exactly when no email is claimed twice |
| Legacy.AccountRoundTrip | packages/core/src/account-migration.ts:404-497 | every accepted version-4 row is exported from its own split exactly |
| Legacy.AccountRestoredIff | packages/core/src/account-migration.ts:404-497 | splitting an exported account restores it exactly when its quota has a known field and no unknown top-level ones |
| Legacy.DocumentRoundTrip | packages/core/src/account-migration.ts:529-638 | for every accepted version-4 document and any clock, export after parse gives the document with only superseded duplicates gone |
| Legacy.DistinctDocumentRoundTrip | packages/core/src/account-migration.ts:529-638 | with no email claimed twice the document itself comes back |
| Legacy.ManifestRoundTrip | packages/core/src/account-migration.ts:605-638 | parsing an exported roster with plain quotas restores the manifest |
| Legacy.AccountCodecsSuit | packages/core/src/account-repository-codecs.ts:483-633 | the real metadata, quota and routing codecs meet everything the document laws ask |
| Cursors.RemainderIsRemainder | packages/core/src/account-migration.ts:1932-1948 | the modelled `%` is the remainder of division rounded toward zero, fractions and negative cursors included |
| Cursors.SelectionSurvivesImport | packages/core/src/account-migration.ts:1932-1948 | for every finite cursor, the account the pool-file loader selects per family is the one the store-backed manager selects after the import |
| Cursors.SelectionSurvivesRollback | packages/core/src/account-migration.ts:4768-4795 | a loader reading the exported cursors selects the row each family's ref names |
| Cursors.SelectionSurvivesRoundTrip | packages/core/src/account-manager.ts:565-578 | importing a pool file and rolling back keeps every family's selected account |
| Journals.ChangesAreAccepted | packages/core/src/account-migration.ts:1014-1437 | every journal any driver saves from a sound one is accepted by the decoder, and sound again |
| Journals.CaptureIsSound | packages/core/src/account-migration.ts:2777-2864 | a migration's captured journal is sound |
| Journals.FreshIsSound | packages/core/src/account-migration.ts:5527-5659 | a fresh installation's journal is sound |
| Journals.MoveIsSound | packages/core/src/account-migration.ts:3552-3637 | a move's captured journal is sound |
| Journals.NextMakesProgress | packages/core/src/account-migration.ts:3364-3426 | every sound pending journal has a next save its own driver's guards allow, strictly nearer to the end |
| Journals.ChangesNeverGoBack | packages/core/src/account-migration.ts:4967-5201 | no save within an operation moves it away from its end |
| Journals.Settle | packages/core/src/account-migration.ts:4046-4318 | re-running a journal's own driver ends it active for a migration and inactive for a cancellation or rollback |
| Journals.VerifyNeedsEveryRow | packages/core/src/account-migration.ts:1355-1363 | from an accepted verify-phase journal the verification record is accepted exactly when no row is missing |
| Journals.ParsedManifestAccepted | packages/core/src/account-migration.ts:529-602 | every parsed pool file makes a manifest the journal decoder accepts |
| Migration.RunKeepsInv | packages/core/src/account-migration.ts:3215-3446 | the protocol invariant holds after every run of writers, migrator, cancellation, rollback and crashes |
| Migration.NoWriteUnderTheStore | packages/core/src/account-migration.ts:2758-2775 | no legacy write is accepted while a published generation is pending or active |
| Migration.HandoffHoldsTheLastWrite | packages/core/src/account-migration.ts:2777-2864 | while a published migration is pending, its manifest is the split of the last legacy write the guard accepted |
| Migration.CredentialsAreRecoverable | packages/core/src/account-migration.ts:3020-3103 | after every run, stopped anywhere, the pool file, or its retired copy and the verified import, or the store holds the accounts as last established |
| Migration.AuthorityPassesWithItsTokens | packages/core/src/account-migration.ts:5079-5199 | activation gives the store exactly the pool file's tokens in order, and a rollback restores exactly the store's current ones; nothing else but accepted writes and the serving store changes the accounts |
| Migration.MigrationCanFinish | packages/core/src/account-migration.ts:3364-3426 | wherever a published migration stopped, re-running it alone activates the same generation |
| Migration.CancellationCanFinish | packages/core/src/account-migration.ts:4950-5001 | wherever a cancellation stopped, it can be ended with the pool file as captured |
| Migration.RollbackCanFinish | packages/core/src/account-migration.ts:5024-5199 | wherever a rollback stopped, re-running it alone restores the exported document, which lists the store's tokens, and ends it |
| Migration.ResumeMakesProgress | packages/core/src/account-migration.ts:3364-3426 | the resumed migrator's next step is always allowed and strictly nearer to activation |
| Migration.ExportKeepsTokens | packages/core/src/account-migration.ts:4796-4832 | an exported document lists the rows' tokens in their order |
| Relocation.RunKeepsInv | packages/core/src/account-migration.ts:3797-4336 | the two-anchor invariant holds after every run of forward moves, cancels, resumes, moves back, sessions, writes landing under a move, and crashes |
| Relocation.AuthorityFlipsOnlyBack | packages/core/src/account-migration.ts:2555-2795 | from no state does a step take a served store's authority to the other one, but restoring the old pointer; anchors that both bind agree |
| Relocation.BoundRowsAreTheLastWritten | packages/core/src/account-migration.ts:4096-4306 | whichever generation is bound holds the rows as last written, unless a session's write came after its store's last comparison |
| Relocation.SwitchesKeepRows | packages/core/src/account-migration.ts:3797-4336 | any moves, cancels, moves back and crashes between two bindings hand over the same rows, with the same exception |
| Relocation.NeverStranded | packages/core/src/account-migration.ts:3713-3745 | wherever drivers stopped, one cancel-or-finish pass makes a store bind again, with the last rows written but for the same exception |
| Relocation.SourceWriteSurvivesIff | packages/core/src/account-migration.ts:4230-4290 | a write in the source up to the forward is in whatever is bound from then on exactly if it came before the last comparison, or left the rows as copied |
| Relocation.WriteBesideIsLost | packages/core/src/account-migration.ts:4286-4306 | a write landing in the source after the forward, or in a moved store whose pointer is gone, is in nothing that is bound from then on |
| Relocation.LateWriteSurvivesIff | packages/core/src/account-migration.ts:4532-4745 | a write in the moved store, served or landing at any point of a move back, is in whatever is bound from then on exactly if the original does not hold a copy that was compared for the last time or recorded, or holds the same rows |
| Relocation.LandedWriteStopsTheMove | packages/core/src/account-migration.ts:4188-4264 | a write landing before the last comparison that changes what a pending move copied stops that move for good: until another is captured nothing is forwarded, only the original is bound, holding the write, and a recovery binds it |
| Relocation.LandedWriteCanBeLost | packages/core/src/account-migration.ts:4258-4290 | moving forward, from any store: a write landing between the last comparison and the forward is not in the store the move ends bound to |
| Relocation.LateWriteCanBeLost | packages/core/src/account-migration.ts:4388-4758 | moving back, from any store: a concrete run ends bound to rows older than the last written |
| Snapshots.CurrentSuccessor | packages/core/src/account-migration.ts:2326-2375 | within three attempts, on a steady history, what is returned is the decoding of one pair of files the disk held at one instant; busy only if the disk changed during every attempt |
| Snapshots.AttemptIsOneInstant | packages/core/src/account-migration.ts:2331-2372 | on a steady history an attempt whose stamps agree, read failures included, reports one instant's files, whatever decodes them |
| Snapshots.MixesIff | packages/core/src/account-migration.ts:2331-2372 | some schedule of one attempt's reads returns what no pair of files decodes to exactly on a history that is not steady: one on which what an attempt compares agrees while the files between differ |
| Snapshots.NeverRestoringIsSteady | packages/core/src/account-migration.ts:2335-2363 | a history in which no write restores earlier bytes is steady |
| Snapshots.RestoredBytesMix | packages/core/src/account-migration.ts:2335-2363 | a concrete history that restores a state's bytes, and the mixed snapshot read from it |
| Canonical.CanonicalIff | packages/core/src/account-migration.ts:982-994 | two values have one canonical text exactly when they are equal JSON up to object key order and the sign of zero |
| Canonical.CanonicalJsonIff | packages/core/src/account-repository.ts:1063-1075 | the repository's writer tells apart exactly the values that differ outside keys named `__proto__`; without such keys it is the same relation |
| Canonical.ProtoKeyIsLost | packages/core/src/account-repository.ts:1064-1073 | an object holding only a `__proto__` key has the text of an empty one there, and not in `canonical` |
| Canonical.CanonicalIsSortedText | packages/core/src/account-migration.ts:982-994 | sorting each object as it is written and sorting them all first write the same text |
| Canonical.WritePrefixFree | packages/core/src/account-migration.ts:982-994 | no value's text continues another's: equal texts are of equal trees |
| Canonical.QuotedReads | packages/core/src/account-migration.ts:987-990 | a quoted string, escapes and lone surrogates included, reads back exactly |
| Canonical.NormalisedByMeaning | packages/core/src/account-migration.ts:985-987 | sorted values that say the same are the same value |
| Canonical.KeysOrdered | packages/core/src/account-migration.ts:986 | both key orders, by code unit and as objects enumerate, are total and strict |
| Replacement.RunKeepsInv | packages/core/src/account-repository.ts:2867-3099 | the replacement invariant holds after every run with crashes, resumes and ordinary operations, those admitted before the journal and committed after it included |
| Replacement.RosterIsOldOrNew | packages/core/src/account-repository.ts:2867-3099 | until the one publication readers are served the very accounts the pool held, none added, removed or replaced and no known identity changed, whatever earlier-admitted writes did to them; from then on exactly the inputs |
| Replacement.OnlyPublicationSwapsRosters | packages/core/src/account-repository.ts:1756-1771 | while a replacement is pending only earlier-admitted operations and the publication change what is served: each writes its own row in its own fields (and disables duplicates of an identity it learns), only a reorder still lands once published, and the publication turns exactly the planned rows into exactly the inputs, in order |
| Replacement.InputsAreKept | packages/core/src/account-repository.ts:3447-3490 | a journal that may still need its inputs always has its transfer file, and `finalize` is a prefix of the input order |
| Replacement.NextInputFollows | packages/core/src/account-repository.ts:2988-2989 | with a prefix finalized, the first input not yet finalized is the one after it |
| Replacement.StoreWillAccept | packages/core/src/common-auth-embedded/store/publication.js:184-251 | a wholly prepared, publishable replacement passes every check `publishRoster` makes: survivors, removed and staged rows, repeated identities, one identity per secret |
| Replacement.CompletesOnce | packages/core/src/account-repository.ts:3306-3346 | an operation completes once, for the inputs it was started with, published and verified, leaving no journal and no transfer file |
| Replacement.PublishableCompletes | packages/core/src/account-repository.ts:2867-3099 | wherever calls stopped, calling again with the same inputs completes a publishable replacement; so does a running call that has verified the order, whatever the order is by then |
| Replacement.CompletableIff | packages/core/src/account-repository.ts:2867-3099 | once no earlier-admitted operation is outstanding, a pending replacement can be completed exactly when it is published and in order, or its removed rows hold the planned credentials, what is staged is in order and no input gives a removed row's token to another known identity; a call that verified the order and is still running does not need it |
| Replacement.LateWriteStrandsIff | packages/core/src/account-repository.ts:1756-1771 | from any pool, a row operation admitted before the plan and committed after the journal leaves a replacement that can be published exactly if it kept its row's token and identity and the inputs contradicted no row |
| Replacement.LateRefreshStrands | packages/core/src/account-repository.ts:2092-2135 | a late refresh that brought another token is one that strands it |
| Replacement.LateIdentityStrands | packages/core/src/account-repository.ts:2208-2217 | so is an identity recorded late on a row that had none, with no refresh anywhere |
| Replacement.LateObservationIsHarmless | packages/core/src/account-repository.ts:2242-2568 | late flags, verdicts, metadata and quota readings never strand it |
| Replacement.LateReorderIsHarmless | packages/core/src/common-auth-embedded/store/rows.js:1129-1150 | nor does a late reorder that names no input |
| Replacement.PublishedReorderStrandsIff | packages/core/src/account-repository.ts:3077-3086 | a late reorder of a published pool, even of a verified one, strands it once the call stops exactly if it is not the inputs' order |
| Replacement.ReattributionStrands | packages/core/src/common-auth-embedded/store/publication.js:245-251 | with nothing outstanding: a replacement that gives a row's token to another known identity is accepted and recorded, and can never be published |
| Verdicts.LastObservedWinsIff | packages/core/src/account-repository.ts:855-918 | verdicts are last-observed-wins in whatever order they arrive exactly on rows with an eligibility record |
| Verdicts.OrderDoesNotMatter | packages/core/src/account-repository.ts:855-918 | on such a row verdicts observed at distinct times leave the same standing in every order |
| Verdicts.AnchoredRowsKeepTheLast | packages/core/src/account-repository.ts:855-918 | on such a row any sequence of verdicts ends with the newest one's standing, or the row's own where it is newer |
| Verdicts.UnanchoredRowForgets | packages/core/src/account-repository.ts:897-916 | on any other row a `cleared` followed by an older verdict ends with the older one |
| Verdicts.EvidenceGrows | packages/core/src/account-repository.ts:578-586 | on a row with an eligibility record evidence time never decreases |
| Verdicts.TakenSettles | packages/core/src/account-repository.ts:855-918 | a verdict that is taken settles the whole standing; its time stays as evidence unless it is a `cleared` that finds no eligibility record |
| Verdicts.Account.MarkVerificationRequired | packages/core/src/account-selector.ts:1563-1609 | the in-memory mark changes the account exactly as the reported verdict changes a stored row |
| Verdicts.Account.MarkIneligible | packages/core/src/account-selector.ts:1611-1638 | likewise for ineligibility, the default reason included |
| Verdicts.Account.ClearAccessBlocks | packages/core/src/account-selector.ts:1640-1689 | likewise for clearing; where nothing is reported the standing did not change |
| Pending.LatestSurvives | packages/core/src/account-repository.ts:546-561 | after any writes in any order each key holds the latest time ever written for it, and null only where no time was |
| Pending.ResetsJoin | packages/core/src/account-repository.ts:546-561 | merging reset maps is commutative and associative, and merging the same map again changes nothing |
| Pending.CountsJoin | packages/core/src/account-manager.ts:359-371 | request counts of several copies merge to the same whatever the order |
| Pending.RequeueKeepsOrder | packages/core/src/account-manager.ts:1127-1146 | requeueing a failed write gives the write that coalesces its changes with those that wait, its own first |
| Pending.NothingIsLost | packages/core/src/account-manager.ts:1181-1205 | in every run, whatever order writes settle in, each change of a row was applied, is in flight, waits, or went with a write given up, and is in one place only |
| Pending.OrderIsKept | packages/core/src/account-manager.ts:1181-1205 | in every run in which writes commit in turn and only the last in flight is requeued, a row's changes are applied in the order they were queued |
| Pending.OvertakenIff | packages/core/src/account-manager.ts:1127-1205 | a write requeued with a later one of its row in flight is applied after it; every stored row ends as if in turn exactly where the two agree on all fields both touch |
| Pending.CooldownReturns | packages/core/src/account-manager.ts:1181-1205 | so a cooldown whose write met contention returns on a row on which it was already lifted |
| Pending.CoalescingExactIff | packages/core/src/account-manager.ts:223-252 | one coalesced write does what the single writes would, for every stored row, exactly where no key's reset follows a clear or a later reset |
| Pending.AppliesOnce | packages/core/src/account-manager.ts:223-252 | applying the same write again changes nothing |
| Pending.WriteQueue.Queue | packages/core/src/account-manager.ts:1107-1124 | a row's pending write always coalesces exactly the changes that wait for it: the change joins its own row's behind the others, and no other row's |
| Pending.WriteQueue.Dispatch | packages/core/src/account-manager.ts:1182-1201 | a save takes for each row one write that coalesces all its waiting changes, now in flight; nothing waits after |
| Pending.WriteQueue.Requeue | packages/core/src/account-manager.ts:1127-1146 | a failed write's changes leave what is in flight and wait again, ahead of those waiting, through the loop over its rates |
| Rows.OpenStays | packages/core/src/account-selector.ts:309-337 | time alone never closes a row, the quota cache age included |
| Rows.FadedAlike | packages/core/src/account-selector.ts:213-243 | dropping passed limits and cooldowns never changes whether a row may be selected from then on |
| Rows.WaitIsExact | packages/core/src/account-selector.ts:1709-1746 | a row is ready at a time exactly if its computed wait is over |
| Rows.SelectableWaitIsExact | packages/core/src/account-selector.ts:2032-2085 | likewise with soft quota: exactly from the later of both, and never where the reset is unknown |
| Selector.Row.IsRateLimited | packages/core/src/account-selector.ts:204-243 | on a clock that never goes back: limited only if it was at the start, not limited only if it is not at the end |
| Selector.Row.IsOverSoftQuota | packages/core/src/account-selector.ts:309-337 | likewise for soft quota |
| Selector.Row.IsCoolingDown | packages/core/src/account-selector.ts:1441-1450 | likewise for cooldowns, which are dropped once passed |
| Selector.AccountSelector.Reconcile | packages/core/src/account-selector.ts:580-653 | any membership change keeps each row's index its position; what named a kept row names the same object; departed rows leave nothing, new rows inherit nothing |
| Selector.AccountSelector.MatchRows | packages/core/src/account-selector.ts:590-612 | rows are matched by key alone, the kept object staying, and each old index of a kept row is sent to its new one |
| Selector.AccountSelector.MoveState | packages/core/src/account-selector.ts:616-643 | selections, pins, used marks, counts and toast follow their rows, a departed selection falling back |
| Selector.AccountSelector.RemoveAccount | packages/core/src/account-selector.ts:546-571 | removal is exactly the shift down by one of everything past the row, its own state dropped and its selection passed on |
| Selector.AccountSelector.GetCurrentOrNext | packages/core/src/account-selector.ts:933-1154 | for every strategy: what is returned may be selected and becomes the request's selection; nothing is returned only where nothing could be selected |
| Selector.AccountSelector.GetNext | packages/core/src/account-selector.ts:1156-1212 | a row is found exactly where one is open, and it is the one whose turn it is among the preferred candidates, the cursor moving on by one |
| Selector.AccountSelector.OpenRows | packages/core/src/account-selector.ts:1169-1187 | the rows that may be selected now, no other and none missing, in the pool's order |
| Selector.AccountSelector.PickHybrid | packages/core/src/account-selector.ts:998-1063 | whatever the unseen scoring picks among unblocked candidates may be selected |
| Selector.AccountSelector.GetPinned | packages/core/src/account-selector.ts:957-980 | a pinned session gets its own row, and only while it may be selected |
| Selector.AccountSelector.StickyCurrent | packages/core/src/account-selector.ts:1094-1139 | the sticky choice is the currently selected row, and only while it may be selected |
| Selector.AccountSelector.ApplyOffset | packages/core/src/account-selector.ts:1065-1092 | the process offset moves the selection once per session, by the process id modulo the pool |
| Selector.AccountSelector.SetActiveIndex | packages/core/src/account-selector.ts:789-804 | a session's selection is set for it, and for the pool only where it has no parent |
| Selector.AccountSelector.OpenSession | packages/core/src/account-selector.ts:723-748 | a session keeps its state, or starts unpinned from the pool's cursors; no other session changes but by being pruned |
| Selector.TurnsVisitEach | packages/core/src/account-selector.ts:1204-1211 | over an unchanged list of n candidates, n consecutive turns give each exactly one |
| Selector.AccountSelector.TakeTurns | packages/core/src/account-selector.ts:1156-1212 | n consecutive picks, the same n rows being candidates for each, pick every one of them exactly once |
| Selector.AccountSelector.GetMinWait | packages/core/src/account-selector.ts:1709-1746 | from now on some permitted eligible row is ready exactly from now plus the returned wait |
| Selector.AccountSelector.GetMinSelectableWait | packages/core/src/account-selector.ts:2032-2085 | likewise with soft quota applied; no wait exactly where every eligible row is over it without a later reset |
| Sessions.AgyRequestSessionStore.GetOrCreateEntry | packages/core/src/agy-request-metadata.ts:104-121 | the stored table is the specified one, and the context returned is the entry's |
| Sessions.AgyRequestSessionStore.BeginRequest | packages/core/src/agy-request-metadata.ts:123-132 | the timestamp is the later of the access and one past the entry's last, and is recorded |
| Sessions.AgyRequestSessionStore.PruneEntries | packages/core/src/agy-request-metadata.ts:157-182 | both pruning loops together leave exactly the unexpired entries less those evicted to make room |
| Sessions.AgyRequestSessionStore.OldestEntry | packages/core/src/agy-request-metadata.ts:169-176 | the scan finds the first least recently accessed entry other than the one preserved |
| Sessions.AccessKeepsRecent | packages/core/src/agy-request-metadata.ts:157-182 | the accessed entry is kept; another goes only if expired, or from a full table when nothing kept was accessed earlier |
| Sessions.BoundKeptIff | packages/core/src/agy-request-metadata.ts:157-182 | an access keeps the size bound exactly when the table is not full behind an empty-string key |
| Sessions.StaysBounded | packages/core/src/agy-request-metadata.ts:104-182 | over every run of a new store with nonempty keys it holds at most `max(1, maxEntries)` sessions |
| Sessions.TimestampsIncrease | packages/core/src/agy-request-metadata.ts:123-132 | in every run of a new store, on any clock, a living session's request timestamps strictly increase and are never before the clock |
| Sessions.OneEvictionSuffices | packages/core/src/account-selector.ts:750-776 | within the bound the selector's single eviction prunes as the request store's loop would |
| Sessions.SelectorStaysBounded | packages/core/src/account-selector.ts:723-776 | over every run of a new selector with nonempty session ids it holds at most 256 sessions |
| Transport.ChunkedDecodeStream.Transform | packages/core/src/agy-transport.ts:447-459 | one segment changes the decoder as specified |
| Transport.ChunkedDecodeStream.Flush | packages/core/src/agy-transport.ts:461-468 | the end of the source changes the decoder as specified |
| Transport.ChunkedDecodeStream.FlushAvailableChunks | packages/core/src/agy-transport.ts:470-493 | the loop emits and keeps exactly what decoding the whole buffer yields, sizes below zero included; where the source's loop would find the same buffer forever it stops as hung |
| Transport.HangsIff | packages/core/src/agy-transport.ts:470-493 | the loop never returns exactly where decoding is said to hang |
| Transport.StuckIff | packages/core/src/agy-transport.ts:479-491 | a size line leaves the buffer as it is exactly for a size of minus the line and four, or a buffer's length or more below that |
| Transport.MinusSixNeverEnds | packages/core/src/agy-transport.ts:474-491 | after a size line `-6` the loop goes on forever, whatever follows |
| Transport.ReadsAlikeIff | packages/core/src/agy-transport.ts:444-493 | a stream, however it goes on within its last line or chunk, is read alike in every segmentation exactly when no size line the decoder reaches in it is below minus the length of its line and break |
| Transport.SegmentsDoNotMatter | packages/core/src/agy-transport.ts:444-493 | for every stream with no such size line and every segmentation, what a reader sees, the end of the source included, depends on the bytes alone |
| Transport.MinusFiveReadsUnlike | packages/core/src/agy-transport.ts:474-491 | a minus sign before any body whose first chunk holds five bytes: at once, all but the last byte after the line is pushed first; cut after the line, nothing is |
| Transport.MinusFiveHello | packages/core/src/agy-transport.ts:474-491 | `-5` before the five bytes of hello is read as `hello` or with 11 bytes more, as the segments fall |
| Transport.DrainContinues | packages/core/src/agy-transport.ts:470-493 | decoding a buffer with no such size line now and its continuation later is decoding both at once |
| Transport.ChunkedRoundTrip | packages/core/src/agy-transport.ts:444-493 | every body in chunks, any size lines and extensions, is read as exactly those chunks and one end |
| Transport.PartDecodes | packages/core/src/agy-transport.ts:470-493 | any part of an encoding yields its whole chunks, and their encoding followed by the buffer is that part |
| Transport.TruncationReadsAsComplete | packages/core/src/agy-transport.ts:461-468 | a body cut before its last chunk ended reads as a complete body of its whole chunks |
| Transport.SizeLineReads | packages/core/src/agy-transport.ts:474-478 | the size written in hexadecimal is the size read, whatever extension follows |
| Transport.RequestBodyReads | packages/core/src/agy-transport.ts:336-360 | the chunked body written for a nonempty request body reads back as that body |
| Transport.ContentLengthStream.Transform | packages/core/src/agy-transport.ts:419-441 | one segment changes the counter as specified |
| Transport.ExactlyTheLength | packages/core/src/agy-transport.ts:411-442 | in every segmentation exactly the first n bytes are emitted, and the end comes by itself, once and last, exactly when they are complete and n is not 0 |
| Transport.ShortBodyReadsAsComplete | packages/core/src/agy-transport.ts:411-442 | a body whose source ends before its declared length reads as complete: all bytes that came, one end, no error |
| Transport.WaitForHead | packages/core/src/agy-transport.ts:147-191 | every segmentation is split at the first blank line, the leftover and what was not yet read being the rest |

## Left out

- Real file I/O, fsync, permissions, hard links, lock leases and their renewal: each durable write is one step, a lock is mutual exclusion until its holder stops.
- The embedded pool store: its checks on publication, staged adds, row fences, identity duplicates and orders are modelled, each operation as one write; two-file writes and their repair, stamps, labels and the per-process list of removed ids are not.
- Digests are injective; the config and state hashes inside a verification record, which nothing reads again, are not modelled.
- Legacy.ParseAccount: works on parsed JSON; byte parsing, the nesting-depth limit and the refusal of -0 in a source file are not modelled.
- Codecs.Decode: does not tell -0 from 0, and treats objects as unordered; error paths and messages are not modelled.
- Journals.Accepted: takes the fields after parsing; text patterns of ids, hashes and paths are not modelled.
- Migration.Next: rollback of a moved store and a migration of a moved store are refused by the code and have no steps; the routing settings written with the rows are one flag.
- Relocation.Next: two anchors only; a rollback begun between moves, the reverse evidence file and the progress file are not modelled; taking and releasing the refresh locks are one step; what a write landing in the original does once a copy back was compared or recorded is not characterised, beyond the invariant.
- Snapshots.Attempt: a state file that cannot be opened is not modelled; decoding failures are.
- Replacement.Next: the fallback for stores without `publishRoster`, `clear` and `removeTargets` are not modelled; a call's lease is held from its first write to its last; epochs come from one counter.
- Transport.ParseHex: sizes are exact; one of so many digits that it reads as infinite is an error in the source and a number here.
- Transport.ChunkedDecodeStream.Flush: gzip, sockets, timeouts and aborts are not modelled; nor is what a stream pushes after its end, which Node drops or reports as the segments fall.
- Selector.AccountSelector.GetMinWait: on a clock that stands still during the call.
- Selector.AccountSelector.GetMinSelectableWait: on a clock that stands still during the call; the reset time is taken as parsed.
- Selector.AccountSelector.MatchRows: takes row keys that do not change while rows are refreshed, distinct within the old and within the new rows; the matching and the refreshing are one loop in the source and two here. The lists of added and removed rows, trackers, sinks and diagnostics are not modelled.
- Selector.AccountSelector.PickHybrid: hybrid scoring is a parameter that picks, if anything, an unblocked candidate; `rotation.ts` is not part of this model.
- Rows.ReadingFor: the model registry is a parameter.
- Sessions.GetOrCreate: contexts are opaque numbers; `completeExecution` and the selector's session contents are not here.
- Pending.Apply: absent, null and empty rate-limit maps are one; days are numbers in date order.
- Pending.Step: any number of a row's writes may be in flight and settle in any order; a write that failed with its outcome unknown counts as applied or as given up. Selections are not queued here.
- Verdicts.Account.ClearAccessBlocks: a mark older than the account's evidence is still applied in memory, as the source does; the stored row then refuses its verdict.
- Soft-quota reset as a guarantee of availability: the selection check depends on the cache age, so none is claimed.
- `mergeSameCredential`, `replacementMetadata`, tier and project observations, `mergeAccountStorage`, fingerprints, the request metadata fields, proxies, TLS, OAuth and the command menus: easy members, or outside the protocols above.
