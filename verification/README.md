# A verified model of an ERC-4337 bundler

This project models, in Dafny, the algorithms an ERC-4337 bundler stakes its safety on, and proves what they guarantee
over whole loops and whole runs. Each Dafny file follows one file of the bundler, or holds the theorems about it.

| files | what they cover |
|---|---|
| `ReputationManager.dfy` | counters of seen and included operations, throttling, banning, the hourly backoff |
| `MempoolManager.dfy`, `MempoolAdmission.dfy`, `MempoolProofs.dfy` | the entry list and the index counting roles per address; admission, replacement, the in-place ban scan |
| `BundleManager.dfy`, `BundleProofs.dfy`, `BundleRules.dfy` | the greedy loop that builds a bundle while it changes mempool and reputation, and the blame taken when a bundle fails |
| `StorageMap.dfy`, `BundleTraces.dfy` | merging storage preconditions, where an account root absorbs its slots; the map of a bundle whose operations were traced from one chain state |
| `EventsManager.dfy`, `EventsProofs.dfy` | the block cursor, the 1000-block window and crediting inclusions |
| `BundlerCollectorTracer.dfy`, `TracerProofs.dfy`, `TracerSegments.dfy`, `TracerTables.dfy`, `InitialValues.dfy` | the tracer that watches a simulated validation step by step |
| `CallStack.dfy`, `TracerResultParser.dfy`, `ParserRules.dfy`, `ParserProofs.dfy` | rebuilding calls from a trace and judging it by the rules of ERC-7562 |
| `GasEstimation.dfy` | depth of a call tree, the 64/63 back-computation of a gas limit, searches in a trace |
| `UserOpCodec.dfy`, `ValidationData.dfy` | packed user operations and packed validation results |
| `Common.dfy`, `Sequences.dfy`, `Words.dfy` | bytes, addresses and operations; sums and filters; big-endian numbers |

Objects the bundler updates in place are classes here (`ReputationManager`, `MempoolManager`, `BundleManager`,
`EventsManager`, `BundlerCollectorTracer`). Each of their methods is proved equal, on the whole state, to a step of a
state machine over values; the theorems are about that machine. Re-validation of an operation, paymaster balances,
account storage roots, the two answers of the provider during a scan, stake records, the hash function, the lookup of
method names, what counts as stake and the current time are parameters, so every theorem holds for all of them.

## What the code does that its documentation does not say

The model follows the code. These are the places where a reader of the comments, tests or rules would expect otherwise;
each is proved, most of them as an if-and-only-if.

- A bundle is filled in ascending order of `maxPriorityFeePerGas`: the cheapest operations come first
  (`Mempool.MempoolManager.GetSortedForInclusion`, `Mempool.SortedExactly`).
- `THROTTLED_ENTITY_BUNDLE_COUNT` is 4, but it is compared before it is incremented: five operations of one bundle may
  name the same entity, and the bound of five is reached (`BundleProofs.FiveShareAPaymaster`). The comments promise
  throttled entities a few operations per bundle; they get none (`BundleProofs.BundledEntitiesAreOk`).
- An hourly tick recomputes `opsIncluded` from the new `opsSeen` and forgets the old value. So it lifts every ban that
  rests on counters as long as `opsSeen` is at least -12, one imposed a moment earlier included
  (`Reputation.CronOutcomeExactlyWhen`, `Reputation.CronAfterCrashExactlyWhen`). `opsSeen` can be negative, because
  sightings taken back after a tick are not scaled: below that bound a tick leaves an address throttled, and from -61
  down banned, even one that was fine before (`Reputation.TickCanBan`). A record with negative `opsSeen` is never dropped
  (`Reputation.CronDeletesExactlyWhen`).
- Replacing an entry neither recounts roles nor checks for role conflicts. The index stays right exactly when the
  replacement names the same entities (`MempoolProofs.ReplacementKeepsCountsExactlyWhen`), and roles stay apart exactly
  when the skipped check would have passed (`MempoolProofs.ReplacementKeepsRolesApartExactlyWhen`). Instances of both
  failures are `MempoolProofs.DroppedPaymasterStaysCounted` and `MempoolProofs.ReplacementCanMixRoles`. What building and
  blaming do to the entries does not depend on either, only on unique senders and nonces, which every run keeps
  (`MempoolProofs.RunsKeepKeysUnique`).
- The reverse ban scan removes by hash. It always clears the banned address, and removes nothing else exactly when no
  offending entry follows an innocent one with the same hash (`MempoolProofs.BanRemovesExactlyWhen`).
- Two scans more than 1001 blocks apart miss the events in between (`Events.NothingMissedExactlyWhen`), and one event
  taken by the live listener hides the other events of its block from later scans (`Events.LiveEventHidesItsBlock`).
- A successful plain transfer to the EntryPoint passes rule OP-054 and a reverted one does not, and value sent with a
  contract creation escapes rule OP-061 (`CallStack.NodeRule`, `CallStack.FlatSearchIsTreeRule`). A call still open
  when collecting stops is not looked at (`CallStack.OpenCallIsNotListed`).
- Only the first top-level call to an entity is judged, and calls to anything else, the deployment helper included, are
  not (`ParserProofs.OnlyFirstLevelsAreJudged`, `ParserProofs.OtherCallsAreUnrestricted`). So the reported addresses are
  not all "known not to contain zero-sized addresses": the exceptions come from unjudged calls
  (`ParserProofs.CodelessReportIsUnjudged`).
- The parser's test for stake accepts any stake record, so as written no storage rule ever rejects an entity for want of
  stake (`ParserProofs.StakeIsNeverMissing`). Elsewhere the test is an arbitrary predicate.
- Parsing validation data inverts packing exactly when `validUntil` is not zero
  (`ValidationDatas.ParseOfPackExactlyWhen`).

## Model

| member | source | states |
|---|---|---|
| Reputation.ReputationManager.GetOrCreate | packages/bundler/src/modules/ReputationManager.ts:95-106 | returns the address's record and adds a zero one exactly when there was none; no other record changes |
| Reputation.ReputationManager.UpdateSeenStatus | packages/bundler/src/modules/ReputationManager.ts:113-120 | the table after adding to one address's opsSeen; nothing happens without an address |
| Reputation.ReputationManager.UpdateIncludedStatus | packages/bundler/src/modules/ReputationManager.ts:127-131 | the table after one more inclusion of an address |
| Reputation.ReputationManager.CrashedHandleOps | packages/bundler/src/modules/ReputationManager.ts:184-194 | the table after the penalty of 10000 and the reset of inclusions |
| Reputation.ReputationManager.HourlyCron | packages/bundler/src/modules/ReputationManager.ts:75-85 | visiting the keys in any order scales every record by one tick and drops exactly those that reach zero |
| Reputation.StatusExactly | packages/bundler/src/modules/ReputationManager.ts:138-158 | BANNED and THROTTLED exactly by the lists and by how far inclusions fall short of the expected share of sightings |
| Reputation.StakeCheckExactly | packages/bundler/src/modules/ReputationManager.ts:244-258 | the check passes exactly for the whitelisted and for the staked that are not banned, and which error the others get |
| Reputation.AllowanceExactly | packages/bundler/src/modules/ReputationManager.ts:265-287 | four for a sender, ten for the unknown, and otherwise ten plus the tenths of sightings included, rounded down, plus inclusions up to 10000 |
| Reputation.LoweringSeenNeverHurts | packages/bundler/src/modules/ReputationManager.ts:138-158 | status is monotone in opsSeen: lowering one address's counter worsens no address's status |
| Reputation.RunTotals | packages/bundler/src/modules/ReputationManager.ts:113-131 | after any run of updates each counter has grown by the total reported for its address |
| Reputation.CrashBansExactlyWhen | packages/bundler/src/modules/ReputationManager.ts:184-194 | with the bundler parameters a crash bans an unlisted address exactly when its opsSeen was at least -9490 |
| Reputation.CrashBanHolds | packages/bundler/src/modules/ReputationManager.ts:138-194 | after a crash and any run of sightings and inclusions the exact condition for still being banned; from non-negative opsSeen, fewer than 950 inclusions never lift the ban |
| Reputation.CronDecay | packages/bundler/src/modules/ReputationManager.ts:75-85 | from non-negative opsSeen, after k ticks 24^k * seen_k <= 23^k * seen_0 and seen_k is not negative |
| Reputation.CronDeletesExactlyWhen | packages/bundler/src/modules/ReputationManager.ts:75-85 | ticks alone ever drop a record exactly when its opsSeen is not negative, and then within max(1, opsSeen) ticks |
| Reputation.CronOutcomeExactlyWhen | packages/bundler/src/modules/ReputationManager.ts:75-85 | with the bundler parameters and any table, whitelist and blacklist: status after a tick is OK exactly when whitelisted, or not blacklisted with opsSeen at least -12; and BANNED exactly when not whitelisted and blacklisted or with opsSeen at most -61 |
| Reputation.CronAfterCrashExactlyWhen | packages/bundler/src/modules/ReputationManager.ts:75-194 | a tick straight after a crash lifts its ban, unless the address is blacklisted or opsSeen was below -10012 |
| Reputation.CronOutcomeForRelaysExactlyWhen | packages/bundler/src/modules/ReputationManager.ts:34-85 | with the other parameter set: OK exactly from opsSeen -11 up, and never THROTTLED |
| Reputation.TickCanBan | packages/bundler/src/modules/ReputationManager.ts:75-85 | an instance: opsSeen -100 and no inclusions is OK before a tick and BANNED after it |
| Reputation.CronClearsNonNegative | packages/bundler/src/modules/ReputationManager.ts:75-85 | with any denominator of at least 2, a tick leaves no address of non-negative opsSeen throttled or banned by counters |
| Mempool.FindBySenderNonce | packages/bundler/src/modules/MempoolManager.ts:217-225 | the first entry with the sender and nonce, and -1 exactly when there is none |
| Mempool.FindByHash | packages/bundler/src/modules/MempoolManager.ts:227-235 | the first entry with the hash, and -1 exactly when there is none |
| Mempool.MempoolManager.IncrementEntryCount | packages/bundler/src/modules/MempoolManager.ts:38-44 | the index with one more role of the address |
| Mempool.MempoolManager.DecrementEntryCount | packages/bundler/src/modules/MempoolManager.ts:46-56 | the index with one role fewer; a count that reaches zero is deleted |
| Mempool.MempoolManager.IndexBySenderNonce | packages/bundler/src/modules/MempoolManager.ts:217-225 | the search loop finds the first match |
| Mempool.MempoolManager.IndexByHash | packages/bundler/src/modules/MempoolManager.ts:227-235 | the search loop finds the first match |
| Mempool.MempoolManager.RemoveUserOp | packages/bundler/src/modules/MempoolManager.ts:241-257 | removes the first entry with the operation's sender and nonce, uncounts its three roles, and otherwise changes nothing |
| Mempool.MempoolManager.RemoveUserOpByHash | packages/bundler/src/modules/MempoolManager.ts:241-257 | the same for a hash |
| Mempool.MempoolManager.AddUserOp | packages/bundler/src/modules/MempoolManager.ts:67-105 | replaces, appends or refuses as the fee, reputation and role checks say; a refusal leaves mempool, index and reputation as they were |
| Admission.AdmittedExactlyWhen | packages/bundler/src/modules/MempoolManager.ts:91-104 | an operation with a new sender and nonce is admitted exactly when no entity of it is banned, none is throttled with more than four roles, each at its allowance is whitelisted or staked, and no role clashes; it is then appended and its roles rightly counted |
| Admission.BannedStayOut | packages/bundler/src/modules/MempoolManager.ts:176-177 | no new operation with a banned sender, paymaster, factory or aggregator is admitted |
| Admission.RefusedWith | packages/bundler/src/modules/MempoolManager.ts:133-185 | a refusal is for roles exactly when all entities may enter, else for reputation or stake |
| Admission.ReplacedExactlyWhen | packages/bundler/src/modules/MempoolManager.ts:187-203 | an operation with a known sender and nonce is admitted exactly when both fees reach eleven tenths of the old ones, and takes the old one's place |
| Admission.AdmissionCountsSightings | packages/bundler/src/modules/MempoolManager.ts:104-117 | every admission adds to opsSeen one for each of aggregator, paymaster and factory an address is, and one for a trusted sender, and nothing else |
| Mempool.MempoolManager.UpdateSeenStatus | packages/bundler/src/modules/MempoolManager.ts:107-117 | counts a sighting of every named entity, and of the sender only if its stake check passes |
| Mempool.MempoolManager.RemoveBannedAddr | packages/bundler/src/modules/MempoolManager.ts:301-310 | the reverse in-place scan with removal by hash |
| Mempool.MempoolManager.GetSortedForInclusion | packages/bundler/src/modules/MempoolManager.ts:205-215 | the list returned ascends in priority fee, has the mempool's length and entries, and keeps the entries of each fee in mempool order; the mempool itself is not reordered |
| MempoolProofs.DroppedRepresents | packages/bundler/src/modules/MempoolManager.ts:241-257 | removing an entry and uncounting its roles keeps the index equal to the role occurrences |
| MempoolProofs.AppendRepresents | packages/bundler/src/modules/MempoolManager.ts:95-102 | so does counting the roles of an appended entry |
| MempoolProofs.ReplacementKeepsCountsExactlyWhen | packages/bundler/src/modules/MempoolManager.ts:85-90 | the replace branch keeps the index right exactly when both operations name the same entities |
| MempoolProofs.DroppedPaymasterStaysCounted | packages/bundler/src/modules/MempoolManager.ts:85-90 | an accepted replacement without the paymaster leaves the index wrong |
| MempoolProofs.ReplacementKeepsRolesApartExactlyWhen | packages/bundler/src/modules/MempoolManager.ts:85-94 | the replace branch keeps senders apart from other entries' entities exactly when the role check it skips would pass against the rest |
| MempoolProofs.ReplacementCanMixRoles | packages/bundler/src/modules/MempoolManager.ts:85-94 | an accepted replacement may take another entry's sender for its paymaster |
| MempoolProofs.RunsKeepKeysUnique | packages/bundler/src/modules/MempoolManager.ts:38-310 | over every run of add, remove, ban, clear and reputation changes, with no condition on replacements, no two entries share sender and nonce |
| MempoolProofs.RunsStayHealthy | packages/bundler/src/modules/MempoolManager.ts:38-185 | over every run of add, remove, ban, clear and arbitrary reputation changes whose replacements keep their entities: sender and nonce are unique, the index equals the role occurrences, no sender is another entry's entity, unstaked senders hold at most 4 entries |
| MempoolProofs.BanScanClears | packages/bundler/src/modules/MempoolManager.ts:301-310 | from any position, the scan leaves no entry naming the address in any role |
| MempoolProofs.BanScanResult | packages/bundler/src/modules/MempoolManager.ts:301-310 | the scan leaves exactly the innocent entries in order, or strictly fewer of them when one shares its hash with a later offender |
| MempoolProofs.BanRemovesExactlyWhen | packages/bundler/src/modules/MempoolManager.ts:301-310 | the scan skips no offender, and removes nothing else exactly when no offender follows an innocent entry with its hash |
| MempoolProofs.HashesUnique | packages/bundler/src/modules/MempoolManager.ts:301-310 | hashes that determine sender and nonce are unique in a mempool with unique keys, so the scan is then exact |
| Mempool.SortedIsStable | packages/bundler/src/modules/MempoolManager.ts:213 | the insertion sort that stands for the library's is ascending, keeps the length, and keeps the entries of each fee in their order |
| Mempool.SortedExactly | packages/bundler/src/modules/MempoolManager.ts:213 | and it is the only list whose fees ascend and which keeps the entries of each fee in order, so any stable sort gives it |
| Mempool.SortedHasTheSameEntries | packages/bundler/src/modules/MempoolManager.ts:205-215 | the sort has the same entries, and unique keys stay unique |
| Bundle.BundleManager.CreateBundle | packages/bundler/src/modules/BundleManager.ts:203-314 | bundle, storage map, mempool, index and reputation are those of the state machine run over the sorted mempool |
| Bundle.BundleManager.VisitAll | packages/bundler/src/modules/BundleManager.ts:221-312 | the loop with its break follows that machine until it stops |
| Bundle.BundleManager.Consider | packages/bundler/src/modules/BundleManager.ts:222-286 | the tests on an entry, in their order, give the machine's verdict |
| Bundle.BundleManager.ActOn | packages/bundler/src/modules/BundleManager.ts:226-311 | removals, deposits, counts and the bundle change as the machine says for that verdict |
| Bundle.BundleManager.Include | packages/bundler/src/modules/BundleManager.ts:278-311 | what including an operation does to the five accumulators |
| Bundle.BundleManager.HandleSecondValidationException | packages/bundler/src/modules/BundleManager.ts:316-325 | takes back the paymaster's sighting for a failure of account or factory, and removes the entry |
| Bundle.BundleManager.HandleFailedOp | packages/bundler/src/modules/BundleManager.ts:152-166 | the state after the FailedOp branch: scan for the blamed entity, penalty, removal of the failed operation |
| BundleProofs.BundleWithinLimits | packages/bundler/src/modules/BundleManager.ts:203-314 | for every mempool, reputation table, deposit function and oracle: distinct senders, total gas within the limit, prefunds within each paymaster's fetched deposit, at most 5 operations naming any one non-zero address |
| BundleProofs.BundleIsASubsequence | packages/bundler/src/modules/BundleManager.ts:204-314 | the bundle is the picked entries of the sorted mempool at strictly increasing positions, and every picked position is in it |
| BundleProofs.EveryVerdictIsJustified | packages/bundler/src/modules/BundleManager.ts:221-311 | every skipped entry still fails its test against the finished bundle, and the entry that broke the loop would push it over the gas limit |
| BundleRules.VerdictsFollowTheRules | packages/bundler/src/modules/BundleManager.ts:221-311 | for all inputs, each entry's verdict is the one the rules give on the entries picked before it and on reputation less the sightings taken back before it, and building changes no other reputation |
| BundleRules.RemovedExactlyWhen | packages/bundler/src/modules/BundleManager.ts:224-260 | an entry leaves the mempool exactly when it is reached and names a banned entity, or is not skipped for a limit or its sender and fails re-validation |
| BundleRules.BannedExactlyWhen | packages/bundler/src/modules/BundleManager.ts:226-229 | while no sighting was taken back, an entry reached counts as banned exactly when its paymaster or factory is BANNED in the starting table, and is then gone |
| BundleProofs.NotReachedExactlyAfterStop | packages/bundler/src/modules/BundleManager.ts:274-276 | entries are left unvisited exactly when an earlier one broke the loop |
| BundleProofs.MempoolAfterBuilding | packages/bundler/src/modules/BundleManager.ts:224-260 | for every mempool with unique keys, building removes exactly the visited entries with a banned entity or a failed re-validation, keeps the rest in order, and keeps every bundled operation |
| BundleProofs.BuildingKeepsHealthy | packages/bundler/src/modules/BundleManager.ts:224-260 | and if the index was right and roles were apart before, they are after |
| BundleProofs.BundledEntitiesAreOk | packages/bundler/src/modules/BundleManager.ts:225-248 | paymaster and factory of every bundled operation have status OK when building is done |
| BundleProofs.BundledOpsAreIsolated | packages/bundler/src/modules/BundleManager.ts:215-273 | no bundled operation's validated storage contains another bundled sender, nor any other sender known when building started |
| BundleProofs.BundleStorageMapKeepsMeaning | packages/bundler/src/modules/BundleManager.ts:302-307 | if one state meets every bundled operation's map and root, any state meets the bundle's storage map exactly when it meets all of them |
| BundleTraces.TracedMapHolds | packages/validation-manager/src/TracerResultParser.ts:501-508 | the storage a trace started from meets the map the trace reports, the EntryPoint apart |
| BundleTraces.TracedBundleKeepsMeaning | packages/bundler/src/modules/BundleManager.ts:302-307 | if every bundled operation was traced from one chain state and roots are of that state, then outside the EntryPoint that state meets the bundle's map, and any state meets it exactly when it meets every operation's map and root |
| BundleProofs.FiveShareAPaymaster | packages/bundler/src/modules/BundleManager.ts:231-238 | up to five cheap operations of different senders with one paymaster are all bundled |
| BundleProofs.FailedOpBlamesOne | packages/bundler/src/modules/BundleManager.ts:152-166 | for every mempool with unique keys: no entry naming the blamed address survives, nor the failed operation; and where no offender follows an innocent entry with its hash, exactly the other entries survive, in order |
| BundleProofs.BlamedIsBannedExactlyWhen | packages/bundler/src/modules/BundleManager.ts:157-159 | the blamed address is BANNED exactly when not whitelisted and blacklisted or with opsSeen of at least -9490, and no other record changes |
| BundleProofs.FailedOpKeepsHealthy | packages/bundler/src/modules/BundleManager.ts:152-166 | whoever is blamed, a right index and separate roles stay so |
| BundleProofs.FailedOpBlamesNobody | packages/bundler/src/modules/BundleManager.ts:160-163 | without an entity to blame exactly the failed operation goes, and reputation is untouched |
| BundleRules.BlamedExactly | packages/bundler/src/modules/BundleManager.ts:168-180 | who is to blame for which code: the factory for AA1, the account or its staked factory for AA2, the paymaster or the staked account for AA3, nobody else |
| BundleRules.FailureOutcome | packages/bundler/src/modules/BundleManager.ts:152-180 | after a failure of any code: the failed operation is gone, no entry names whoever is to blame, who is BANNED exactly as the lists and opsSeen say; with nobody to blame nothing else changes |
| StorageMaps.MergeStorageMap | packages/utils/src/Utils.ts:161-182 | the nested loops, in any order of keys, compute the merged map: roots replace, absorb or stay, slots are overwritten |
| StorageMaps.CopySlots | packages/utils/src/Utils.ts:176-178 | the inner loop gives the later value of every slot |
| StorageMaps.MergedExactly | packages/utils/src/Utils.ts:161-182 | what the merged map asks of an account: the later root, else the earlier one, else all slots of both with the later value |
| StorageMaps.MergedIsImplied | packages/utils/src/Utils.ts:152-182 | a state meeting both maps meets the merged one |
| StorageMaps.MergedKeepsMeaning | packages/utils/src/Utils.ts:152-182 | if some state meets both, any state meeting the merged map meets both |
| StorageMaps.MergedAllKeepsMeaning | packages/utils/src/Utils.ts:152-182 | the same for the whole fold, including slots absorbed by a root, if equal roots mean equal values in every slot |
| StorageMaps.MergedAllKeepsMeaningExactlyWhen | packages/utils/src/Utils.ts:152-182 | a fold some state meets keeps the meaning of its parts exactly when some state meets them all |
| StorageMaps.ConflictingPartsLoseMeaning | packages/utils/src/Utils.ts:152-182 | without a common state it can fail: any two conflicting values give an instance |
| Events.EventsManager.HandlePastEvents | packages/bundler/src/modules/EventsManager.ts:39-48 | cursor, aggregator fields, mempool and reputation after one scan |
| Events.EventsManager.HandleEvent | packages/bundler/src/modules/EventsManager.ts:50-95 | the same after one event of any kind |
| Events.EventsManager.GetEventAggregator | packages/bundler/src/modules/EventsManager.ts:76-82 | the aggregator announced in the event's transaction, forgotten when the transaction changes |
| Events.EventsManager.IncludedAddress | packages/bundler/src/modules/EventsManager.ts:97-102 | credits the first 20 bytes of data that has them |
| Events.ScansHandleCoveredOnce | packages/bundler/src/modules/EventsManager.ts:39-63 | over every run of scans at non-decreasing heads, the list of events handled grows by exactly those of the covered blocks, each once and in chain order, with the state that handling them gives |
| Events.NothingMissedExactlyWhen | packages/bundler/src/modules/EventsManager.ts:41-44 | the covered blocks are all of them from the first start on exactly when no two scans are more than 1001 blocks apart |
| Events.GapStaysUncovered | packages/bundler/src/modules/EventsManager.ts:41-44 | a wider gap leaves its first block uncovered for ever |
| Events.CursorNeverGoesBack | packages/bundler/src/modules/EventsManager.ts:39-63 | no scan moves the cursor back |
| Events.LiveEventHidesItsBlock | packages/bundler/src/modules/EventsManager.ts:29-34 | after a live event no scan in the window returns any event of its block or an earlier one |
| Events.InclusionsCountMentions | packages/bundler/src/modules/EventsManager.ts:65-102 | over every run of scans opsIncluded grows by exactly the number of times handled events name the address as sender, paymaster, factory or announced aggregator |
| EventsProofs.ScansRemoveMined | packages/bundler/src/modules/EventsManager.ts:89-91 | over every run of scans from unique hashes, the mempool keeps in order exactly the entries whose hash no handled event reports as included |
| EventsProofs.ScansKeepHealthy | packages/bundler/src/modules/EventsManager.ts:89-91 | and a right index and separate roles stay so |
| CollectorTracer.BundlerCollectorTracer.constructor | packages/validation-manager/src/BundlerCollectorTracer.ts:118-131 | the tracer starts with empty tables |
| CollectorTracer.BundlerCollectorTracer.OnEnter | packages/validation-manager/src/BundlerCollectorTracer.ts:147-160 | records a call unless collecting has stopped |
| CollectorTracer.BundlerCollectorTracer.OnExit | packages/validation-manager/src/BundlerCollectorTracer.ts:161-170 | records a return or revert with at most 1999 bytes of data unless collecting has stopped |
| CollectorTracer.BundlerCollectorTracer.OnStep | packages/validation-manager/src/BundlerCollectorTracer.ts:176-374 | all fields after a step of any opcode at any depth, or that the step throws for want of a level |
| CollectorTracer.BundlerCollectorTracer.Prepare | packages/validation-manager/src/BundlerCollectorTracer.ts:180-257 | the opcode window, the out-of-gas mark, the top-level return and the opening of levels |
| CollectorTracer.BundlerCollectorTracer.Charge | packages/validation-manager/src/BundlerCollectorTracer.ts:268-347 | code inspections, opcode counts and storage accesses charged to the current level only |
| CollectorTracer.BundlerCollectorTracer.Collect | packages/validation-manager/src/BundlerCollectorTracer.ts:349-373 | hashed data of 21 to 511 bytes and logs with all their topics |
| TracerProofs.FrozenAfterMarker | packages/validation-manager/src/BundlerCollectorTracer.ts:177-179 | once BeforeExecution was seen nothing changes, whatever follows |
| TracerProofs.TablesCountSteps | packages/validation-manager/src/BundlerCollectorTracer.ts:176-347 | over every trace: the window is the last three opcodes since a return; writes and transient accesses summed over levels equal the recorded steps per address and slot; opcode counts equal steps; GAS counts those not followed by a call |
| TracerProofs.EarlierLevelsAreFinal | packages/validation-manager/src/BundlerCollectorTracer.ts:217-257 | a step changes no level but the current one or one it opens |
| TracerSegments.LevelsAreReplays | packages/validation-manager/src/BundlerCollectorTracer.ts:176-374 | over every trace there is one level per top-level call, in order, and each level equals what its own stretch of steps leaves |
| TracerSegments.SegmentsDivideSteps | packages/validation-manager/src/BundlerCollectorTracer.ts:217-268 | the stretches divide the recorded steps below the top: each is in exactly one, in order, but for those before the first call |
| TracerSegments.UnchargedNeedNothing | packages/validation-manager/src/BundlerCollectorTracer.ts:268-347 | those before the first call count, call and inspect nothing, or the tracer would have thrown |
| TracerSegments.SizesAreOfInspected | packages/validation-manager/src/BundlerCollectorTracer.ts:284-304 | a level holds a code size for exactly the addresses its steps called or inspected, the allowed precompiles apart |
| TracerSegments.SizeIsOfFirst | packages/validation-manager/src/BundlerCollectorTracer.ts:298-303 | and it is the size and opcode of the first time |
| TracerSegments.CodeUsesAreHeld | packages/validation-manager/src/BundlerCollectorTracer.ts:268-282 | a level notes code use for exactly the addresses an EXTCODE opcode named other than in a test for emptiness |
| TracerSegments.CodeUseIsLast | packages/validation-manager/src/BundlerCollectorTracer.ts:274-277 | and the opcode noted is the one after the last such use |
| TracerSegments.KeccakListsHashed | packages/validation-manager/src/BundlerCollectorTracer.ts:349-358 | over every trace the hashed data listed is exactly that of the steps below the top hashing 21 to 511 bytes, in order |
| TracerTables.ReadsAreOfFreshLoads | packages/validation-manager/src/BundlerCollectorTracer.ts:334-339 | a level holds a read of a slot exactly when its stretch has an SLOAD of it with no SSTORE of it before |
| TracerTables.ReadIsOfFirstLoad | packages/validation-manager/src/BundlerCollectorTracer.ts:334-339 | and its value is the slot's at the first such SLOAD |
| TracerTables.AccessesAreHeld | packages/validation-manager/src/BundlerCollectorTracer.ts:319-333 | a level lists exactly the addresses whose storage, transient or not, its stretch accessed |
| TracerTables.MarkedExactlyWhenShort | packages/validation-manager/src/BundlerCollectorTracer.ts:192-197 | over every trace, a level is marked out of gas exactly when a step ran short of its cost, or an SSTORE of 2300, while its call was the latest |
| TracerTables.ListsAreOfLiveEvents | packages/validation-manager/src/BundlerCollectorTracer.ts:147-373 | over every trace recording ends with the first BeforeExecution marker, and the steps, calls and logs recorded are all those up to there, with top-level returns and topics |
| InitialValues.UnwrittenIsInitial | packages/validation-manager/src/BundlerCollectorTracer.ts:334-339 | whatever reverted, a slot no earlier step wrote still has its first value |
| InitialValues.UnrecordedIsUnwritten | packages/validation-manager/src/BundlerCollectorTracer.ts:319-347 | a slot the current level has not recorded as written, of an address no earlier level touched, was never written |
| InitialValues.ReportedValuesAreInitial | packages/validation-manager/src/TracerResultParser.ts:501-508 | over every trace with reverts restoring earlier states, each value reported for an address other than the EntryPoint is the one from before the first step |
| InitialValues.ReportedExactly | packages/validation-manager/src/TracerResultParser.ts:502-507 | over every trace the report on an address has exactly the slots its first stretch reads before writing them, with the values at the first such read |
| InitialValues.ReportedAddresses | packages/validation-manager/src/TracerResultParser.ts:502-507 | and it has exactly the addresses whose storage the trace accessed |
| CallStack.ParseCallStack | packages/validation-manager/src/TracerResultParser.ts:56-118 | the push and splice loop, on every event list, gives the entries of a left fold |
| CallStack.ParsedIsPostOrder | packages/validation-manager/src/TracerResultParser.ts:49-118 | from the events of any finished call forest it lists exactly its calls in post-order, each with its own from, to and type, and the top-level return last |
| CallStack.EntryKeeps | packages/validation-manager/src/TracerResultParser.ts:78-108 | an entry keeps its call's ends, kind and data; its value, method and failure unless it is a creation; and an unknown selector unless it failed |
| CallStack.TopKeeps | packages/validation-manager/src/TracerResultParser.ts:73-76 | the end of the transaction is listed without ends or value, as validateUserOp unless it failed |
| CallStack.OpenCallIsNotListed | packages/validation-manager/src/TracerResultParser.ts:115 | a call still open at the end is not listed, while the calls inside it are |
| CallStack.CheckCalls | packages/validation-manager/src/TracerResultParser.ts:235-257 | the two searches pass exactly when no listed entry is an illegal EntryPoint call or an illegal transfer |
| CallStack.NodeRule | packages/validation-manager/src/TracerResultParser.ts:78-108 | what OP-054 and OP-061 come to for one call, given what its entry keeps of it |
| CallStack.FlatSearchIsTreeRule | packages/validation-manager/src/TracerResultParser.ts:235-257 | the flat searches accept exactly when no node of the forest breaks the rules |
| ResultParser.ParseEntitySlots | packages/validation-manager/src/TracerResultParser.ts:128-163 | the index has a key for each recorded entity once anything was hashed, and under it exactly the hashes of the traced preimages starting with the padded address |
| ResultParser.AssociatedWith | packages/validation-manager/src/TracerResultParser.ts:347-366 | by that index, true exactly when the slot is the padded address or lies in [h, h+128) for the hash h of a traced preimage starting with it |
| ResultParser.ScanSlots | packages/validation-manager/src/TracerResultParser.ts:378-440 | whatever the order of slots, the loop and its overwritten flag give the error for a forbidden slot, for missing stake, or none |
| ResultParser.RequireCondAndStake | packages/validation-manager/src/TracerResultParser.ts:451-465 | an entity without a record is an internal error, one without stake a rule error, only if stake is needed |
| ResultParser.ScanIsSlotRule | packages/validation-manager/src/TracerResultParser.ts:375-440 | the scan accepts exactly when each slot on its own is permitted by STO-010 to STO-033 |
| ResultParser.CheckOpcodes | packages/validation-manager/src/TracerResultParser.ts:300-327 | passes exactly when no banned opcode was counted, balances are read by staked entities only, and CREATE2 at most once by a factory that is not the sender |
| ResultParser.CheckAccess | packages/validation-manager/src/TracerResultParser.ts:329-441 | passes exactly when every slot of every contract but the sender and the EntryPoint is permitted |
| ResultParser.CheckCode | packages/validation-manager/src/TracerResultParser.ts:467-497 | passes exactly when every address touched but the sender has more than a stub of code and the EntryPoint's code was not inspected |
| ResultParser.CheckEntity | packages/validation-manager/src/TracerResultParser.ts:278-498 | passes exactly when the first top-level call to the entity obeys every rule, or there is none and it is not the sender; and which error is raised otherwise |
| ResultParser.FindLevel | packages/validation-manager/src/TracerResultParser.ts:280-282 | the first top-level call to the entity, if any |
| ResultParser.AddReads | packages/validation-manager/src/TracerResultParser.ts:504-506 | the inner loop, in any order of keys, adds the reads of exactly the addresses not reported yet |
| ResultParser.CollectReads | packages/validation-manager/src/TracerResultParser.ts:502-507 | for each address the reads of the first level that touched it |
| ResultParser.CollectAddresses | packages/validation-manager/src/TracerResultParser.ts:501 | exactly the addresses whose code size any level noted |
| ResultParser.TracerResultParser | packages/validation-manager/src/TracerResultParser.ts:202-509 | accepts a trace exactly when calls and all entities obey the rules, and reports those addresses and reads |
| ParserRules.EntitiesExactly | packages/validation-manager/src/TracerResultParser.ts:262-274 | the entities judged are exactly sender, factory and paymaster, the later role's stake record in force |
| ParserRules.BelongsExactly | packages/validation-manager/src/TracerResultParser.ts:347-366 | a slot is an entity's exactly when it is its zero-padded address or among the 128 from the hash of traced data starting with that, the entity being on record |
| ParserRules.OpcodeRulesExactly | packages/validation-manager/src/TracerResultParser.ts:211-327 | the fifteen banned opcodes, balances for the staked, one CREATE2 for the factory |
| ParserRules.SlotRulesExactly | packages/validation-manager/src/TracerResultParser.ts:384-425 | who may read and write which slot of a third contract, by stake, factory and owner of the slot |
| ParserRules.AllowedExactly | packages/validation-manager/src/TracerResultParser.ts:293-497 | all the rules on one part of the trace, written out on its tables |
| ParserRules.AcceptedExactlyWhen | packages/validation-manager/src/TracerResultParser.ts:202-498 | a trace is accepted exactly when its calls are allowed, the sender was called, and the first call to each of sender, factory and paymaster obeys the rules |
| ParserProofs.FilledRecords | packages/validation-manager/src/ValidationManager.ts:56-63 | with the records the simulation supplies, the entities in the index are exactly those with a non-zero address |
| ParserProofs.StakeIsNeverMissing | packages/validation-manager/src/TracerResultParser.ts:444-448 | with the test as written every such entity counts as staked, and access is judged by forbidden slots alone |
| ParserProofs.OnlyFirstLevelsAreJudged | packages/validation-manager/src/TracerResultParser.ts:280-289 | changing or adding any other part of the trace keeps it accepted |
| ParserProofs.OtherCallsAreUnrestricted | packages/validation-manager/src/TracerResultParser.ts:280-289 | an accepted trace stays accepted with any call to a contract that is no entity |
| ParserProofs.AcceptedTraceRunsNothingBanned | packages/validation-manager/src/TracerResultParser.ts:300-313 | if the tracer's tables are accepted, every step below the top that ran a banned opcode other than GAS fell in a stretch, and only in stretches that are not judged |
| ParserProofs.AcceptedTraceHasNoLooseGas | packages/validation-manager/src/BundlerCollectorTracer.ts:306-310 | and a GAS step below the top that no call follows shows in an unjudged part |
| ParserProofs.AcceptedTraceCreatesAtMostOnce | packages/validation-manager/src/TracerResultParser.ts:314-327 | if every part is judged, at most one step ran CREATE2, and none without a factory other than the sender |
| ParserProofs.AcceptedWritesArePermitted | packages/validation-manager/src/TracerResultParser.ts:384-425 | if the tracer's tables are accepted, every storage write below the top outside sender and EntryPoint fell in a stretch, and in each judged one the entity called may make it, given exactly the data hashed in the trace |
| ParserProofs.AcceptedCodeIsDeployed | packages/validation-manager/src/TracerResultParser.ts:467-497 | if they are accepted, in a judged stretch every contract but the sender had code when first called or inspected, and the EntryPoint's code was not used |
| ParserProofs.CodelessReportIsUnjudged | packages/validation-manager/src/TracerResultParser.ts:500-501 | a reported address without code, other than the sender, comes from an unjudged part |
| GasEstimation.GetDepth | packages/bundler/src/MethodHandlerERC4337.ts:150-166 | the recursion with its running maximum computes the height of the call tree |
| GasEstimation.DepthIsLongestChain | packages/bundler/src/MethodHandlerERC4337.ts:150-166 | the depth is one more than the longest chain of nested calls |
| GasEstimation.LimitExactly | packages/bundler/src/MethodHandlerERC4337.ts:168-175 | zero without a call, an error for a failed one, otherwise the gas used times (64/63)^depth rounded down |
| GasEstimation.BackComputedIsSufficientAndTight | packages/bundler/src/MethodHandlerERC4337.ts:168-175 | d reductions to all but one 64th (EIP-150) leave at least the gas used and less than 64 more |
| GasEstimation.LimitSufficesAlongEveryChain | packages/bundler/src/MethodHandlerERC4337.ts:168-175 | the limit computed from a traced call is enough at every nesting the call reached, also counted from its caller |
| GasEstimation.SearchFindsFirst | packages/bundler/src/MethodHandlerERC4337.ts:101-148 | the recursive search returns the first match in pre-order, and nothing exactly when none matches |
| GasEstimation.RevertedCallIsFirst | packages/bundler/src/MethodHandlerERC4337.ts:101-119 | so the reverted call found is the first failed leaf that is not a static call |
| GasEstimation.CallFromTraceIsFirst | packages/bundler/src/MethodHandlerERC4337.ts:126-148 | and the call found is the first with the selector and the given ends |
| UserOpCodec.UnpackOfPackUint | packages/utils/src/ERC4337Utils.ts:50-57 | two 128-bit numbers survive packing into 32 bytes |
| UserOpCodec.PackedUintSurvivesExactlyWhen | packages/utils/src/ERC4337Utils.ts:50-57 | of all numbers that can be packed, a pair survives exactly when the lower one fits 128 bits |
| UserOpCodec.UnpackOfPack | packages/utils/src/ERC4337Utils.ts:122-200 | every operation with 128-bit gas fields, 20-byte entities and the fields they need comes back, up to fields packing cannot carry |
| UserOpCodec.PackedLayout | packages/utils/src/ERC4337Utils.ts:142-163 | which field a packed operation holds where, down to the halves of its words |
| UserOpCodec.PacksExactlyWhen | packages/utils/src/ERC4337Utils.ts:142-163 | packing fails exactly for a paymaster without gas limits, a factory without data or numbers too wide for a word |
| UserOpCodec.PackOfUnpackExactlyWhen | packages/utils/src/ERC4337Utils.ts:122-200 | a packed operation unpacks exactly when its paymaster field is empty or has 52 bytes, and packs back exactly when both gas words have 32 bytes |
| ValidationDatas.ParsedFields | packages/utils/src/ERC4337Utils.ts:80-94 | the byte slices are the arithmetic fields of the word |
| ValidationDatas.ParsedAs | packages/utils/src/ERC4337Utils.ts:80-94 | parsing yields those fields, with 0 read as 2^48-1 |
| ValidationDatas.MergedPassesExactlyWhen | packages/utils/src/ERC4337Utils.ts:108-114 | the checks on merged data pass exactly when they would pass on both parts |
| ValidationDatas.ValidityChecksPassExactlyWhen | packages/validation-manager/src/ValidationManager.ts:245-269 | for all words and times the checks pass exactly when both words have zero low 160 bits, have begun, and end more than 30 seconds ahead |
| ValidationDatas.ParseOfPackExactlyWhen | packages/utils/src/ERC4337Utils.ts:80-120 | parse inverts pack exactly when validUntil is not zero |
| ValidationDatas.PackOfParseExactlyWhen | packages/utils/src/ERC4337Utils.ts:80-120 | pack inverts parse exactly when the word's end field is not zero |
| ValidationDatas.MergeIntersects | packages/utils/src/ERC4337Utils.ts:108-114 | the merged window is the intersection; the aggregator is the account's, or the failure mark if the paymaster gives one |

## Left out

- Addresses are in one canonical form. The code compares some addresses as given and others in lower case, so it can treat spellings of one address as different.
- Nonces are integers; the code compares the texts they were given as.
- Asynchrony inside a method: each method is one atomic step, so the chain's answers are fixed for the length of one bundle or one scan.
- Reorganisations of the chain, and a scan whose cursor is ahead of the provider's head is taken to return nothing.
- The live event listener and the cron and bundling timers, except for what one live event does to the cursor.
- Rounding of the factor 1.1, of the inclusion rate and of fees beyond 2^53: exact rationals and integers are used, and the error the code raises for such fees is not modelled.
- Bundle.BundleManager.CreateBundle: the loop's variables are held in one record and its body is split into methods; the merged storage map is a returned value, so the aliasing of its argument is not captured.
- CollectorTracer.BundlerCollectorTracer.OnStep: the current level is the last one of the list rather than a reference shared with it; memory and code length come with the step; a peek below the stack reads zero; opcode names other than those listed that begin with EXT are not inspections.
- CollectorTracer.BundlerCollectorTracer.OnExit: debug output and the fault hook, which only write to a log.
- ResultParser.CollectAddresses: the order and repetitions of the reported addresses.
- ResultParser.TracerResultParser: which of several broken rules is reported depends on enumeration order, and the texts of messages are not modelled; addresses longer than 32 bytes, for which padding throws.
- CallStack.ParseCallStack: events marked as depth, which the tracer never produces, are not part of the input.
- InitialValues.ReportedValuesAreInitial: values of the EntryPoint's own slots are excluded, because its steps at the top level are not recorded.
- An empty text standing for a missing paymaster or factory in the role check, which matters only if a sender were empty.
- Sending transactions and fee choice, tracing calls over the network, code hashes, the gas margin and aggregator checks of validation, and stake look-ups: their results are parameters or absent.
- The check of a paymaster's deposit against pending operations, the pre-verification gas formula, log filtering, RIP-7560, RPC, configuration and command line.
- ABI, RLP and hash internals and decoding of revert reasons.
