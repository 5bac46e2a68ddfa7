# Trust and first run of the CryptOS manager, modelled in Dafny

The manager lets operators in by certificates of an external operator CA. Several replicas share one Postgres: CA rows,
CRLs and a denylist change in transactions that move a version or an epoch, and each replica polls that version,
rebuilds numbered trust generations, reloads its lists and decides every web and MCP request from its own view. This
project models that protocol and the parts of the manager around it, and proves what they promise over whole runs.

`dafny verify dfyconfig.toml` checks everything.

- `TrustTables`, `TrustStoreDb`, `Crls`: the shared rows, CRLs, denylist and epoch, each transaction as a function and as
  a method that takes the steps of the SQL; `TrustColumns` says of each, column by column, when it commits and what it leaves.
- `Serials`, `Fingerprints`, `AnchorSettings`, `Revocations`, `TrustGenerations`, `Poller`: one replica.
- `Replication`, `ReplicationInvariant`, `ReplicationSteps`, `ReplicationTheorems`, `OneLoad`, `Retirement`: the replicas
  together. The version read, the rebuild and the end of a poll are steps of their own; so are the denylist read, its
  install, the CRL read and its install of every load, the poll's and those of other calls, and the check, the
  transaction and the end of a StoreCRL call. Transactions, restarts, the clock and other replicas come in between.
  `OneReplica` begins the runs of `LateInstall`, `OverlappingLoads` and `HiddenChange`, which show that the conditions of
  the theorems are needed.
- `FirstRun`, `FirstRunColumns`, `FirstRunService`, `FirstAdmin`: the first-run latch, tokens, sessions, registration and the
  first admin, the transactions again also by their columns.
- `AuditChain`, `Approvals`, `NodeNames`, `FormerNames`: the hash-chained log, step-up approvals, who held a node name
  when, and who gave it up.
- `Lru`, `OcspCache`, `RateLimit`, `Crockford`, `BootstrapTokens`: data structures and codecs against simpler forms.

Classes hold the fields their Go types update in place; their methods are tied to functions on values, about which the
run-level lemmas speak, and to relations on the fields alone (`Revocations.WebRules`, `TrustColumns.RotationDone`,
`FirstRunColumns.StartDone` and their like), which name none of those functions.

## Where the code does less than its text says

- StoreCRL and every reload put to use what they stored or read before, and not under the lock they install it under. A
  call that comes late leaves an older CRL, or a denylist without a denial, in memory until the epoch moves again:
  `ReplicationTheorems.EpochConverges` has the exact condition, `OneLoad.Converges` says when it holds, and `LateInstall`
  and `OverlappingLoads` build runs in which it does not.
- The settings string of two anchors that can both be stored can be the same when a CRL URL holds an OCSP mode between
  '|' characters, and then a rebuild installs nothing: `AnchorSettings.TwinIff` and `TrustGenerations.OverlooksIff` say
  exactly when, `RebuildsIffChangedWithoutCrlUrls` that it takes a CRL URL, and `HiddenChange` builds the run.
- While CRLs with and without a cRLNumber alternate, a replaced CRL can be stored again (`TrustTables.ReplacedCrlReturns`),
  and only then (`Crls.ReturnNeedsBothKinds`).
- A first-admin certificate is judged by the replica's own denylist, so a replica that has not polled can take a
  superseded one back (`FirstAdmin.StaleReplicaTakesItBack`); `NewestStandsIffViewAgrees` has the condition.
- An approval's expiry binds the check and not the consumption (`Approvals.UseCanOutliveExpiry`), which comes at most
  the call's own duration later (`ConsumedNearExpiry`).
- The text of NodeByFormerName speaks of renames only; the in-memory store also counts removals
  (`FormerNames.MemoryFindsIff`), the Postgres store does not (`PostgresFindsIff`).

## Model

| member | source | states |
|---|---|---|
| ReplicationTheorems.EpochConverges | internal/operatorca/revocation.go:177-274 | in every reachable state, other replicas committing between the steps of a poll and other calls loading beside it, a replica whose last completed poll saw the store's epoch has an anchor state for every trusted row, has exactly the store's denylist if and only if the list it put to use last was the store's then, and uses an anchor's stored CRL if and only if the one it put to use last was |
| ReplicationTheorems.CasConverge | internal/operatorca/revocation.go:672-691 | a replica whose last completed poll saw the store's CA version trusts exactly the active and retiring rows, in the trust generation and in the revocation engine, with the row's certificate, state and CRL source, and with its URLs and OCSP mode too unless its CRL comes from a URL and other settings that could be stored can be read from the row's line; and the pool its chains are verified with has exactly those rows' certificates |
| ReplicationTheorems.NoRaceNoneLate | internal/operatorca/revocation.go:216-274 | while whatever a replica puts to use is still what the store holds, nothing is ever late, so denylist and CRLs converge without exception |
| ReplicationTheorems.DenylistConverges | internal/operatorca/revocation.go:253-274 | while no list is put to use over one that has more of the store's entries, a replica whose last poll saw the epoch has exactly the store's denylist |
| OneLoad.Converges | internal/operatorca/revocation.go:216-274 | with at most one load of a replica under way at a time and every StoreCRL call ending while its CRL is stored, whatever is committed between the reads and the installs, a replica whose last poll saw the epoch has exactly the store's denylist and enforces every stored CRL of its anchors |
| OneLoad.DropsNoDenial | internal/operatorca/revocation.go:253-274 | with at most one load of a replica under way at a time no list is ever put to use over a longer one |
| ReplicationTheorems.VersionTells | internal/store/postgres/operatortrust.go:262-270 | two states of a run with one CA version have the same rows, and with one epoch the same denylist, stored CRLs and CAs that may be trusted: a poll that finds nothing new missed nothing |
| ReplicationTheorems.QuietPollMakesCurrent | internal/operatorca/revocation.go:689-690 | a poll that ends with the store as its version read found it makes the replica current in both respects |
| ReplicationInvariant.LoadedCrl | internal/operatorca/revocation.go:228-243 | a stored CRL the replica reads verifies again under the anchor's certificate, since every write verified it first, and is in use afterwards |
| ReplicationTheorems.DenialIsPermanent | internal/operatorca/revocation.go:291-316 | once the store denies a pair, every replica that completes a poll begun later refuses it on the web path under either policy and on the MCP path for the rest of the run, through rotation, retirement, re-registration, CRL replacement, reset and restarts, as long as no load that read the list before the denial puts it to use over a list that has it |
| OneLoad.DenialStaysRefused | internal/operatorca/revocation.go:291-316 | so with at most one load of the replica under way at a time a polled denial is refused without exception |
| Retirement.RetiredStaysOut | internal/fleet/operatorca_rpcs.go:579-601 | once the store does not trust a CA, every replica that completes a poll begun later has it in no trust generation and refuses its certificates on both paths, until a rotation to the CA or a registration of it |
| Retirement.StaysUntrusted | internal/store/postgres/operatortrust.go:365-475 | no other transaction brings trust back |
| ReplicationTheorems.DenialStays | internal/store/postgres/operatortrust.go:230-258 | no step of any replica takes an entry out of the store's denylist |
| ReplicationTheorems.HeldForever | internal/operatorca/revocation.go:253-274 | a denial a replica holds stays held through a stretch of the run if and only if no list without it is put to use there |
| ReplicationTheorems.PollHolds | internal/operatorca/revocation.go:672-691 | a poll that read the version after the denial ends with the denial held whichever branch it takes: through the reload, or because an unchanged epoch means it was held already |
| ReplicationTheorems.McpStalenessBounded | internal/operatorca/revocation.go:575-599 | an MCP acceptance means the store did not deny the pair at some moment of the preceding five minutes plus the longest poll, unless an overlapping load took a denial of this certificate back, and the web path accepts too under either policy |
| ReplicationTheorems.RunTimed | internal/operatorca/revocation.go:276-281 | the poll time is never ahead of the clock nor more than one poll's duration after the store read behind it |
| ReplicationTheorems.RunRemembers | internal/operatorca/revocation.go:225-249 | what a replica remembers of a store read is the time and denylist of an actual earlier state of the run |
| ReplicationSteps.RunOk | internal/operatorca/revocation.go:672-691 | the invariant tying every replica to the store holds in every state of every run |
| ReplicationSteps.NextKeeps | internal/operatorca/revocation.go:672-691 | every step of every replica, and every transaction, keeps that invariant whatever the others are in the middle of |
| ReplicationSteps.InstallPreserves | internal/operatorca/revocation.go:340-346 | finishing a StoreCRL call costs the replica nothing its polls vouch for, once a late finish is recorded as such |
| ReplicationSteps.PollReloadKeeps | internal/operatorca/revocation.go:682-688 | both branches of a poll, reload and mark-only, keep the invariant |
| ReplicationSteps.CallLoadedKeeps | internal/operatorca/revocation.go:216-274 | each part of a load of another call keeps it too, however late it comes |
| ReplicationInvariant.RebuildKeeps | internal/operatorca/truststore.go:181-196 | a rebuild leaves exactly the trusted rows as anchors, each with its row's settings line, and keeps the CRLs loaded for anchors that stay |
| ReplicationInvariant.InstallDenyKeeps | internal/operatorca/revocation.go:265-273 | putting a denylist to use changes no anchor or CRL, and makes the replica current exactly when the list is the store's |
| ReplicationInvariant.InstallCrlsKeeps | internal/operatorca/revocation.go:228-249 | putting the stored CRLs to use costs no anchor its current CRL, and leaves every one current when they are still what is stored |
| ReplicationInvariant.ApplyStoreOk | internal/store/postgres/operatortrust.go:365-461 | every transaction keeps each row's certificate that of its fingerprint and each stored CRL one that verifies |
| ReplicationInvariant.CommitKeeps | internal/store/postgres/operatortrust.go:262-270 | a commit by another replica breaks nothing a replica's polls vouch for, because it moves the version or the epoch whenever it matters |
| LateInstall.LateInstallDiverges | internal/operatorca/revocation.go:333-346 | for every CA and every two CRLs of rising number a reachable state has the epoch up to date and the older CRL in use: the condition of EpochConverges is needed |
| OverlappingLoads.OverlapForgets | internal/operatorca/revocation.go:253-274 | for every CA and every denial under it a reachable state, after a reload that overlapped a poll, has the epoch up to date, the denial in the store and the certificate let in: the denylist condition is needed |
| HiddenChange.ChangeIsMissed | internal/operatorca/truststore.go:189-195 | for every CA from whose URLs other settings that could be stored can be read, with the CRLs its URLs come with, two transactions on its row and the poll after them leave the replica up to date by its CA version with the settings of before |
| HiddenChange.SceneExists | internal/operatorca/truststore.go:134-134 | such CAs exist, one for every two texts that are accepted as URLs where the change puts them |
| LateInstall.SceneExists | internal/operatorca/revocation.go:333-346 | such a CA and such CRLs exist |
| Poller.Poller.PollOnce | internal/operatorca/revocation.go:672-691 | a poll succeeds unless a read it needs fails; with another row count or newest change, or on the first poll, the anchors are then those of the usable rows or their settings are unchanged; with another epoch, or on the first poll, the denylist and CRLs are those read; the poll time is now and the version is remembered; after a failure the version and the poll time are as before |
| Poller.PollOutcomeIs | internal/operatorca/revocation.go:672-691 | what a poll that gets through leaves, in the columns of the rows, denylist and CRLs it read |
| Poller.FailedOutcomeIs | internal/operatorca/revocation.go:672-707 | what a poll a failing read stops leaves: the parts already done, and nothing of the failing one |
| Poller.PollIsItsSteps | internal/operatorca/revocation.go:672-691 | what a poll comes to is the composition of the steps of the replication model, with other commits between its four reads |
| Poller.FailedPollKeepsLastGood | internal/operatorca/revocation.go:693-707 | a poll a failing read stops keeps the denylist or replaces it by the store's, keeps the CRLs of anchors that stay, and moves neither the version nor the poll time |
| Poller.Poller.RebuildTrust | internal/operatorca/truststore.go:181-196 | equal settings change nothing; other ones install a generation with the next number, whose anchors and pool are those of the usable rows, and hand its anchors to the engine |
| Poller.PeerAuthorizer.AuthorizePeer | internal/operatorca/truststore.go:265-274 | an admitted peer chains to an anchor of the current generation under that generation's pool, is on neither the denylist nor the CRL, and the web rules allow it; a refused one chains too and the reason is the one the rules give; a peer not chained has no chain under a pool with the certificates of all the anchors |
| Poller.PeerAuthorizer.AdmitMcp | internal/operatorca/truststore.go:278-288 | an admitted MCP certificate chains now and is listed nowhere, the poll is at most five minutes old, the CRL's nextUpdate is to come, and the web rules admit it under either policy; a refused one chains too and the reason is the one the MCP rules give; one not chained has no chain under a pool with the certificates of all the anchors |
| Revocations.Engine.SetAnchors | internal/operatorca/revocation.go:177-195 | the anchors are the last entries of the list; those that stay keep their state object and CRL, new ones get an object never used before; every one is pointed at its denylist; with an OCSP client exactly those that stay with another OCSP mode or URL have their answers dropped |
| Revocations.Engine.ReloadDenylist | internal/operatorca/revocation.go:253-274 | the new denylist has the normalised serial of every entry under its issuer and nothing else, every anchor is pointed at it, and nothing else changes |
| Revocations.Engine.ReloadCrls | internal/operatorca/revocation.go:216-250 | a stored CRL with other bytes than the one in use replaces it if it verifies against the anchor, dated at most five minutes ahead; else the one in use stays; the reload counts as a poll |
| Revocations.Engine.MarkPolled | internal/operatorca/revocation.go:276-281 | a poll that found nothing new moves the poll time only |
| Revocations.Engine.Deny | internal/operatorca/revocation.go:302-316 | the store gets the normalised entry and this replica refuses the certificate at once |
| Revocations.Engine.StoreCrl | internal/operatorca/revocation.go:321-350 | an unknown anchor and a CRL that does not verify are refused; older bytes are refused as a rollback, the same bytes are no change, and a newer CRL is stored and in use for the anchor's state object; nothing else changes |
| Revocations.Engine.CheckWeb | internal/operatorca/revocation.go:413-466 | the verdict is the one the web rules give: lists, then the answer of the responder asked, then a CRL before its nextUpdate, then the policy |
| Revocations.Engine.CheckMcp | internal/operatorca/revocation.go:557-573 | the verdict is the one the MCP rules give: past the lists, the poll's age and the CRL's nextUpdate a revoked or unknown answer refuses, and a good one or none allows |
| Revocations.Engine.CheckMcpSets | internal/operatorca/revocation.go:575-599 | in this order: an unknown anchor, a listed serial, a poll over five minutes old, no CRL source, no CRL or one at or past its nextUpdate; else allowed |
| Revocations.WebVerdictIs | internal/operatorca/revocation.go:397-466 | the web verdict is the one verdict the rules allow: an unlisted certificate whose responder, the anchor's own URL or the first the certificate names, answers revoked or unknown is refused for it; without an answer the CRL's nextUpdate and the policy decide |
| Revocations.McpVerdictIs | internal/operatorca/revocation.go:546-599 | the MCP verdict is the one verdict the MCP rules allow |
| Revocations.OnlyTheAskedCount | internal/operatorca/revocation.go:468-478 | no answer changes a verdict but that of the responder asked about an unlisted certificate |
| Revocations.WithAnchorsIs | internal/operatorca/revocation.go:177-195 | what a new list of anchors makes of every anchor |
| Revocations.WithDenylistLoads | internal/operatorca/revocation.go:253-274 | what putting a denylist to use makes of the index and of every anchor |
| Revocations.WebAllowsIff | internal/operatorca/revocation.go:397-466 | exactly when the web path allows: trusted, unlisted, and a good answer, or no answer and the soft policy, a CRL before its nextUpdate, or neither CRL source nor responder |
| Revocations.McpAllowsIff | internal/operatorca/revocation.go:546-599 | exactly when the MCP path allows: trusted, unlisted, a poll within five minutes, a CRL before its nextUpdate, and a good answer or none |
| Revocations.ResponderChangeClears | internal/operatorca/revocation.go:174-189 | when who is asked about any certificate of an anchor changes, the anchor's cached answers are dropped |
| Revocations.RevokedIsRefused | internal/operatorca/revocation.go:413-426 | a listed serial is refused on both paths before any responder or policy is consulted |
| Revocations.McpImpliesWeb | internal/operatorca/revocation.go:546-573 | what MCP accepts the web path accepts in the same state with the same OCSP outcome, under either policy |
| Revocations.McpNeedsFreshData | internal/operatorca/revocation.go:586-597 | an MCP acceptance has a poll at most five minutes old, a CRL whose nextUpdate is to come, and the serial on neither list |
| Revocations.HardOnlyRefusesMore | internal/operatorca/revocation.go:451-465 | the hard policy differs from the soft one only by refusing for want of fresh data |
| Revocations.IndexedDenies | internal/operatorca/revocation.go:258-266 | an entry however written makes the certificate's own key denied under its issuer |
| TrustTables.ExactlyOneActive | internal/store/postgres/bootstrap.go:234-281 | after a committed registration or rotation exactly one row is active until a reset, over every run of transactions |
| TrustTables.ApplySound | internal/store/postgres/operatortrust.go:365-475 | every transaction keeps at most one active and at most one retiring row, and every row within the table's checks |
| TrustTables.RunSound | internal/store/postgres/operatortrust.go:365-475 | so does every run from an empty store |
| TrustTables.RotationKeepsTrust | internal/store/postgres/operatortrust.go:361-429 | a rotation keeps every trusted CA trusted: the active row becomes retiring, the new one active, no other row changes |
| TrustTables.RetirementIsAlone | internal/fleet/operatorca_rpcs.go:579-601 | a retirement takes trust from one retiring row and changes no other |
| TrustTables.ApplyKeepsActive | internal/store/postgres/operatortrust.go:365-429 | only a reset takes the active row away |
| TrustTables.ApplyEvolves | internal/store/postgres/operatortrust.go:262-270 | each transaction keeps the denylist growing, never turns the version or epoch back, and moves the version whenever a row changes and the epoch whenever the denylist, a stored CRL or a newly trusted row changes |
| TrustTables.NoCrlStoredTwice | internal/store/postgres/operatortrust.go:158-207 | over every run and every write path a replaced CRL is never stored again while all stored CRLs of the issuer have a cRLNumber, nor while none does |
| TrustTables.ApplyCrlWrite | internal/store/postgres/operatortrust.go:158-207 | a write that changes the stored CRL stores the offered one, moves the epoch and raises the number, or the date when one lacks a number; identical bytes and failed attempts change nothing |
| TrustTables.CrlHistoryIsOfferRun | internal/fleet/operatorca_rpcs.go:552-561 | the stored CRL of an issuer changes only by the anti-rollback rule, whichever transaction writes it |
| Crls.NumbersAdvance | internal/operatorca/crl.go:182-200 | while all stored CRLs have a cRLNumber a replaced one only gives way to a higher number |
| Crls.DatesAdvance | internal/operatorca/crl.go:195-199 | while none has one, only to a later thisUpdate |
| Crls.AcceptNewerIs | internal/operatorca/crl.go:182-200 | other bytes whose number is not higher, or whose date is not later when one has no number, are a rollback; the same bytes are no change; anything else is accepted |
| Crls.ReturnNeedsBothKinds | internal/operatorca/crl.go:182-200 | a replaced CRL comes back only if CRLs with and without a number were stored in between |
| TrustTables.ReplacedCrlReturns | internal/operatorca/crl.go:182-200 | with readable CRLs of both kinds every stored CRL can be replaced and stored again by three writes: the converse |
| TrustStoreDb.Store.PutCrlTx | internal/store/postgres/operatortrust.go:158-195 | older bytes are refused, the same bytes change nothing, and a newer CRL is stored with its columns and moves the epoch |
| TrustStoreDb.Store.PutOperatorCrl | internal/store/postgres/operatortrust.go:139-154 | the rollback error if and only if other bytes are stored and the offered CRL is not newer, unchanged if and only if the bytes are the same, else stored; and the whole state after it |
| TrustColumns.PutCrlIs | internal/store/postgres/operatortrust.go:158-195 | the same of the transaction: when it aborts, and every column it leaves |
| TrustColumns.RotateIs | internal/store/postgres/operatortrust.go:365-429 | a rotation commits exactly when the CA is not trusted, none is retiring, the table's checks hold and its CRL is no rollback; then the active row is retiring, the new one has the columns asked for, with OCSP mode aia when left out, and no other row differs |
| TrustColumns.RegisterIs | internal/store/postgres/bootstrap.go:234-281 | a first-run registration commits exactly when the table's checks hold and its CRL is no rollback; then every other trusted row is retired as superseded and the new one is active and confirmed |
| TrustColumns.CrlSourceIs | internal/store/postgres/operatortrust.go:434-461 | when a CRL source change commits and the columns it writes |
| TrustColumns.OcspIs | internal/store/postgres/operatortrust.go:465-475 | when an OCSP change commits and the columns it writes |
| TrustColumns.RetireIs | internal/fleet/operatorca_rpcs.go:595-601 | only a retiring row is retired, and only its state, reason and stamp change |
| TrustColumns.ResetIs | internal/store/postgres/bootstrap.go:392-396 | every trusted row is retired for the reset, and no other column of the store changes |
| TrustStoreDb.Store.CheckTrustedRows | internal/store/postgres/operatortrust.go:394-401 | rotation is let through exactly when the CA is not trusted and none is retiring |
| TrustStoreDb.Store.RotateOperatorCa | internal/store/postgres/operatortrust.go:365-429 | exactly when it commits, with every row, CRL and counter it leaves; otherwise nothing changes and the error is that of the first check that fails, a CRL rollback last; a CRL with the stored bytes never stops it |
| TrustStoreDb.Store.RegisterFirstRunOperatorCa | internal/store/postgres/bootstrap.go:252-280 | the same for a first-run registration, which only a table check or a CRL rollback stops |
| TrustStoreDb.Store.RetireOperatorCa | internal/fleet/operatorca_rpcs.go:574-601 | only a retiring row is retired, the caller's own only knowingly; an unknown, retired or active row and a self-lockout each have their refusal and change nothing |
| TrustStoreDb.Store.SetOperatorCaCrlSource | internal/store/postgres/operatortrust.go:434-461 | a trusted row's CRL source and CRL change together, or a check or a CRL rollback leaves both as they were |
| TrustStoreDb.Store.SetOperatorCaOcsp | internal/store/postgres/operatortrust.go:465-475 | a trusted row's OCSP settings change within the table's check |
| TrustStoreDb.Store.RetireAllRows | internal/store/postgres/bootstrap.go:392-396 | the trust half of a reset: every row retired, denylist and CRLs kept |
| TrustStoreDb.Store.AddOperatorDenylistEntry | internal/store/postgres/operatortrust.go:230-258 | a new entry moves the epoch, an existing one changes nothing |
| TrustStoreDb.Store.RecordOperatorCrlAttempt | internal/store/postgres/operatortrust.go:199-207 | a failed refresh keeps the stored CRL and records the error |
| TrustStoreDb.Store.OperatorTrustVersion | internal/store/postgres/operatortrust.go:262-270 | the row count, the newest change among the rows, and the epoch |
| TrustGenerations.TrustStore.VerifyPeer | internal/operatorca/truststore.go:225-253 | the returned anchor, cached or not, belongs to the generation loaded at the call and the leaf chained to it under that generation's pool at that time or earlier; an expired leaf is not served from the cache; a refusal means no anchor is chained to now, under a pool that has the certificate of every anchor |
| TrustGenerations.TrustStore.VerifyUnder | internal/operatorca/truststore.go:228-252 | the same when other calls installed newer generations after this one loaded its own |
| TrustGenerations.TrustStore.Rebuild | internal/operatorca/truststore.go:181-196 | a generation is installed exactly when the settings differ, never for the file source; it has the next number, the list's anchors, and a pool of exactly their certificates |
| TrustGenerations.TrustStore.Load | internal/operatorca/truststore.go:97-129 | an anchor with the row's columns for every active or retiring row whose certificate parses and has the row's fingerprint, and nothing else |
| TrustGenerations.MakeGenIs | internal/operatorca/truststore.go:140-156 | the pool of a generation has exactly its anchors' certificates, and its anchors are the list's |
| TrustGenerations.TrustStore.SettingsText | internal/operatorca/truststore.go:131-138 | the joined sorted settings lines |
| TrustGenerations.TrustStore.Install | internal/operatorca/truststore.go:140-166 | numbers strictly increase and the cache stays sound for every generation so far |
| TrustGenerations.HitIsVerified | internal/operatorca/truststore.go:228-231 | a cache hit was verified for that leaf under the generation its key names |
| TrustGenerations.RebuildsIffLinesChanged | internal/operatorca/truststore.go:192-195 | a new generation appears if and only if a trusted anchor came or went or its settings line changed |
| TrustGenerations.RebuildsIffChanged | internal/operatorca/truststore.go:192-195 | while no other settings that could be stored can be read from the current URLs, that is if and only if trust or its settings changed |
| TrustGenerations.RebuildsIffChangedWithoutCrlUrls | internal/operatorca/truststore.go:192-195 | without exception while no current CA takes its CRL from a URL |
| TrustGenerations.OverlooksIff | internal/operatorca/truststore.go:192-195 | some storable change of settings installs nothing exactly when other storable settings can be read from a current anchor's URLs |
| TrustGenerations.LoadedAnchors | internal/operatorca/truststore.go:102-125 | however the rows are ordered the loaded anchors are those of the rows |
| AnchorSettings.SettingsEqualIffSameLines | internal/operatorca/truststore.go:131-138 | equal strings exactly for equal multisets of lines |
| AnchorSettings.SettingsEqualIffSame | internal/operatorca/truststore.go:131-138 | for settings that can be stored, while no others can be read from the URLs of one list, equal strings exactly for equal multisets of settings |
| AnchorSettings.NoCrlUrlIsClear | internal/operatorca/registration.go:49-101 | no other settings can be read from those of a CA that takes no CRL from a URL |
| AnchorSettings.LinesAgreeIff | internal/operatorca/truststore.go:134-134 | a line gives back the fingerprint, the state and the CRL source, and is ambiguous at most in its URLs and mode |
| AnchorSettings.TwinIff | internal/operatorca/truststore.go:134-134 | another anchor that can be stored, with the same certificate, state and CRL source, has the same line exactly when "off", "aia" or "url" stands between separators in the URLs at another place than the mode's own and what it leaves on either side is what the source and that mode call for |
| AnchorSettings.SortedSorts | internal/operatorca/truststore.go:136-136 | the sort is a sorted permutation |
| Serials.NormalizeIsSerialKey | internal/operatorca/certcheck.go:256-266 | every hex writing of a serial normalises to the key of its number |
| Serials.KeysAgreeIffSameSerial | internal/operatorca/certcheck.go:250-266 | two writings share a key exactly when they name the same serial |
| Serials.SerialKeyMeans | internal/operatorca/certcheck.go:252-254 | the key is hex of the number |
| Serials.FormatSerial | internal/authz/middleware.go:112-123 | the colon-separated bytes of the serial, zero included |
| Serials.FormattedKeyAgrees | internal/authz/middleware.go:112-123 | the identity's form normalises to the certificate's key for every natural number |
| Serials.NormalizeTwice | internal/operatorca/certcheck.go:256-266 | normalising again changes nothing exactly when no space follows the leading zeros and colons and none precedes the trailing colons |
| Serials.AcceptedNormalizesOnce | internal/fleet/operators.go:56-59 | a serial that is accepted, because it comes out as hex, is in its final form |
| Lru.RunRefinesClock | internal/operatorca/lru.go:41-77 | over every sequence of get, put and remove the list and map hold each key once, never more than max, and equal a cache told by the time of each last touch |
| Lru.PutTells | internal/operatorca/lru.go:52-66 | a put at capacity evicts exactly the key whose last touch is longest ago |
| Lru.OperationsKeepValid | internal/operatorca/lru.go:41-77 | map and list hold the same keys, each once, within capacity |
| Lru.Cache.Get | internal/operatorca/lru.go:41-50 | the value, and the key moved to the front |
| Lru.Cache.Put | internal/operatorca/lru.go:52-66 | the recency sequence after a put |
| Lru.Cache.Remove | internal/operatorca/lru.go:68-77 | exactly the matching keys go, the others keep their order |
| Lru.Cache.Len | internal/operatorca/lru.go:79-83 | how many keys are held, at most max |
| OcspCache.ServedIsFresh | internal/operatorca/ocspclient.go:172-196 | what is served from the cache was validated for that anchor and serial, is under an hour old, five minutes without a nextUpdate, and before its nextUpdate; a failure is under 30 seconds old |
| OcspCache.OcspClient.Check | internal/operatorca/ocspclient.go:172-196 | a live entry is served, and flagged for refresh from its half life on or 30 seconds after a failed one; a miss makes one fetch, serves its outcome and stores it |
| OcspCache.OcspClient.Fill | internal/operatorca/ocspclient.go:207-249 | a failed fetch leaves a live response and its expiry as they were, else is remembered for 30 seconds |
| OcspCache.OcspClient.Refresh | internal/operatorca/ocspclient.go:200-205 | a failed refresh never moves the expiry, and the next is due in 30 seconds |
| OcspCache.OcspClient.ClearAnchor | internal/operatorca/ocspclient.go:162-165 | no answer under the anchor is left and the others stay |
| OcspCache.Expiry | internal/operatorca/ocspclient.go:230-236 | the lifetime: an hour, sooner at nextUpdate, five minutes without one |
| OcspCache.HalfLife | internal/operatorca/ocspclient.go:236-249 | as long after the fetch as before the expiry, give or take the rounding |
| FirstRun.RunOk | internal/store/postgres/bootstrap.go:51-174 | over every run of issue, start, touch, end, register, close and reset: at most one unused token, at most one session not ended, each token starts at most one session, and closed means neither |
| FirstRun.ClosedUntilReset | internal/store/postgres/bootstrap.go:83-99 | once closed, first run stays closed by the same certificate and issues, starts and registers nothing until a reset |
| FirstRun.TokenStartsOnce | internal/store/postgres/bootstrap.go:139-174 | of two starts with one token the second fails whatever happens in between |
| FirstRun.RegistrationNeedsOpen | internal/store/postgres/bootstrap.go:234-281 | a registration needs the latch open and leaves its CA the only trusted row, confirmed by its session |
| FirstRun.ResetKeepsRevocations | internal/store/postgres/bootstrap.go:359-401 | a reset reopens, deletes tokens and sessions, retires every row and keeps the denylist and CRLs |
| FirstRunService.BootstrapDb.IssueToken | internal/store/postgres/bootstrap.go:102-122 | the new token has its expiry and is the only unused one, unless first run is closed or the hash is taken |
| FirstRunService.BootstrapDb.StartSession | internal/store/postgres/bootstrap.go:142-174 | only an unused token before its expiry starts a session while first run is open; it is consumed, earlier sessions end and the session starts, or nothing changes |
| FirstRunColumns.StartIs | internal/store/postgres/bootstrap.go:142-174 | when a session start commits, and every column it leaves |
| FirstRunColumns.StartsBeforeExpiry | internal/store/postgres/bootstrap.go:154-161 | over every run a session that starts does so before the expiry its token was issued with |
| FirstRunColumns.TokensWereIssued | internal/store/postgres/bootstrap.go:102-122 | every token of a run has the creation and expiry some issue of the run gave it |
| FirstRunColumns.FirstRegistrationIs | internal/store/postgres/bootstrap.go:234-281 | when a first-run registration commits, and every column it leaves |
| FirstRunService.BootstrapDb.TouchSession | internal/store/postgres/bootstrap.go:197-202 | only a session not ended is touched |
| FirstRunService.BootstrapDb.EndSession | internal/store/postgres/bootstrap.go:205-211 | the first end of a session is kept |
| FirstRunService.BootstrapDb.EndSessions | internal/store/postgres/bootstrap.go:214-220 | every session not yet ended ends |
| FirstRunService.BootstrapDb.CloseFirstRun | internal/store/postgres/bootstrap.go:51-81 | closes once, ending every session and deleting every token |
| FirstRunService.BootstrapDb.RegisterCa | internal/store/postgres/bootstrap.go:234-281 | refused once closed, for a table check and for a CRL rollback, each with its error and nothing changed; else the columns of the registration |
| FirstRunService.BootstrapDb.ResetFirstRun | internal/store/postgres/bootstrap.go:362-401 | the whole state after a reset |
| FirstRunService.BootstrapDb.HasLiveSession | internal/store/postgres/bootstrap.go:223-230 | whether some session is live |
| FirstRunService.BootstrapDb.LiveToken | internal/store/postgres/bootstrap.go:125-137 | the newest token that is unused and before its expiry, if there is one |
| FirstRunService.Latch.Observe | internal/bootstrap/latch.go:101-140 | only an admin's request closes first run, once for all replicas, and only the closing call records the first admin |
| FirstRunService.Latch.MarkClosed | internal/bootstrap/latch.go:91-94 | the flag never goes back and onClose runs once |
| FirstRunService.Service.GetPhase | internal/bootstrap/service.go:275-299 | closed, in progress or open, from the latch, the live session and the active row |
| FirstRunService.Service.Fail | internal/bootstrap/service.go:352-375 | one more failure than 49 within the hour ends every session, replaces the token by one good for an hour and starts the count again; any other is counted and changes nothing else |
| FirstRunService.Service.CheckSession | internal/bootstrap/service.go:400-424 | succeeds exactly for a session not ended, within its hour and used in the last fifteen minutes, which it touches; one past its limits is ended as expired, and every refusal is counted |
| FirstRunService.Service.StartSession | internal/bootstrap/service.go:454-487 | a session of at most an hour starts exactly when first run is open, the caller is not blocked and the text stands for an unused token before its expiry; it consumes the token and issues one good for an hour; a wrong token is counted as a failure |
| FirstRunService.RotationLeavesOneToken | internal/bootstrap/service.go:362-375 | after a rotation no session is open and the new token, good for an hour, is the one unused token |
| FirstRunService.LiveSessionIsTheOne | internal/bootstrap/service.go:400-424 | a live session is the only open one, and first run is open |
| FirstRunService.Service.Reconfirm | internal/bootstrap/register.go:268-307 | a session becomes the confirming one only by repeating the active row's fingerprint, in any writing; another fingerprint, or one with nothing registered, is counted as a failure; a preview changes nothing |
| Fingerprints.NormalizeFingerprintIs | internal/bootstrap/register.go:53-57 | a text normalises to a fingerprint exactly when, without the space around it, it is that fingerprint in letters of either case with colons in between |
| Fingerprints.FoldFingerprintIs | internal/fleet/adopt_confirm.go:99-109 | in the fleet service space may stand in between too |
| Fingerprints.TrimSpaceIs | internal/bootstrap/register.go:55-57 | trimming takes off exactly the space at both ends |
| FirstRunService.Tokens.HoldLock | internal/bootstrap/token.go:191-206 | the lock is held once taken |
| FirstRunService.Tokens.Ensure | internal/bootstrap/token.go:221-246 | without the lock nothing changes; with it an unused token before its expiry is there afterwards unless first run is closed or the hash was taken; a token that is issued is good for an hour |
| FirstAdmin.NewestStandsIffViewAgrees | internal/bootstrap/firstadmin.go:63-131 | after a submission every other first-admin record is denied, and the new one is not denied exactly when the replica's denylist agreed with the store about it |
| FirstAdmin.SupersededStaysOut | internal/bootstrap/firstadmin.go:167-200 | a superseded certificate is never accepted again by a replica that knows of its denial |
| FirstAdmin.StaleReplicaTakesItBack | internal/bootstrap/firstadmin.go:152-165 | from an empty desk: a first certificate, a second, and the first again on a replica that has not polled, after which no first-admin certificate is usable |
| FirstAdmin.FirstAdminDesk.Supersede | internal/bootstrap/firstadmin.go:171-200 | every other record ends up denied and nothing else does |
| FirstAdmin.FirstAdminDesk.Submit | internal/bootstrap/firstadmin.go:63-131 | each refusal in its order: first run closed, the caller's budget used up, no session in use, the CA not confirmed by this session, then the certificate; an unconfirmed CA, a refused certificate and a bad session are counted as failures and want of fresh data is not; accepted exactly past them; a refusal changes no record, row or denial |
| FirstAdmin.FirstAdminDesk.Judge | internal/bootstrap/firstadmin.go:90-103 | a certificate that fits the profile is judged by the lists and the web rules; the refusals that count and the one that does not |
| FirstAdmin.FirstAdminDesk.Check | internal/bootstrap/firstadmin.go:144-150 | the verdict is the one the lists and the web rules give |
| FirstAdmin.DenyEntryDenies | internal/operatorca/revocation.go:302-316 | denying one pair makes exactly that pair denied |
| AuditChain.SameLastHashSameLog | internal/store/memory/memory.go:347-361 | two logs built from empty with the same last hash are equal event by event, or show two texts with one hash |
| AuditChain.InjectiveHashSealsLog | internal/store/store.go:411-440 | with an injective hash the last hash determines the whole log |
| AuditChain.EncodeIsInjective | internal/store/store.go:425-437 | the length-prefixed encoding determines the previous hash and all 17 fields |
| AuditChain.FieldIsReadBack | internal/store/store.go:433-436 | one length-prefixed field is read back unambiguously |
| AuditChain.WriteFields | internal/store/store.go:426-437 | the builder loop writes that encoding |
| AuditChain.HashEvent | internal/store/store.go:419-440 | both formulas, chosen by the version |
| AuditChain.OldFormulaMissesMoves | internal/store/store.go:420-423 | the first formula lets text move between fields unseen |
| AuditChain.AuditLog.Add | internal/store/memory/memory.go:347-361 | the log stays what its inputs build; the stored event keeps every given field |
| Approvals.RunsOnceUnderAProperApproval | internal/approval/approval.go:245-286 | in every interleaving of decisions, uses, their separate reads and the clock: one run per approval, approved before expiry by a person at or above both levels, for the same key, tool and digest, on a check before expiry |
| Approvals.RanWasApproved | internal/approval/approval.go:184-286 | behind every operation that ran is a decision for its approval that a person began earlier in the run |
| Approvals.DecisionsAreFinal | internal/store/memory/memory.go:634-666 | once off pending an approval only goes from approved to used, and its decider never changes |
| Approvals.UseCanOutliveExpiry | internal/approval/approval.go:253-265 | the clock may pass the expiry between the check and the consumption, and the operation runs all the same |
| Approvals.ConsumedNearExpiry | internal/approval/approval.go:253-265 | when no call stays longer than a limit between the two, every operation that ran consumed its approval before expiry plus that limit |
| Approvals.NextInv | internal/approval/approval.go:184-286 | every step of every call keeps the invariant |
| Approvals.Service.Request | internal/approval/approval.go:100-115 | a fresh pending approval for exactly this key, tool, digest and level that expires the service's time to live from now, fifteen minutes unless set |
| Approvals.Service.Decide | internal/approval/approval.go:184-236 | every refusal in order, by the row's stage, expiry and level, else the decided row with its decider and nothing else changed |
| Approvals.Service.Use | internal/approval/approval.go:245-286 | every refusal in order, by the row's key, tool, digest, stage, expiry and decider's level, else the used row with nothing else changed |
| Approvals.CheckDecideIs | internal/approval/approval.go:184-211 | the checks of a decision are those refusals in every state |
| Approvals.CheckUseIs | internal/approval/approval.go:245-265 | the checks of a use are those refusals in every state |
| Approvals.ApprovalStore.DecideApproval | internal/store/memory/memory.go:634-650 | decides only a pending, unexpired approval, in one step |
| Approvals.ApprovalStore.UseApproval | internal/store/memory/memory.go:653-666 | uses only an approved, unexpired approval, in one step |
| Approvals.Gate.Require | internal/mcpserver/server.go:118-141 | the call proceeds only by consuming an approval no later call can use; without one it stores a pending approval of exactly this request and stops; a refusal has the reason of the check |
| Approvals.TokenRoundTrip | internal/authz/level.go:51-76 | a stored level reads back |
| NodeNames.NameIsAttributed | internal/fleet/nodeid.go:198-227 | over every run of add, rename and remove a time at which some node held a name is attributed to exactly that node, whoever uses the name later |
| NodeNames.StepKeeps | internal/store/memory/memory.go:162-230 | spans of one name never overlap and every name in use has its open span |
| NodeNames.NodeStore.AddNode | internal/store/memory/memory.go:162-178 | a node that joins again keeps its id; a new one starts its history |
| NodeNames.NodeStore.RemoveNode | internal/store/memory/memory.go:182-198 | the node goes and its open span ends |
| NodeNames.NodeStore.RenameNode | internal/store/memory/memory.go:202-230 | without a node of the id an error; its own name again changes nothing, a name in use is refused, and any other replaces the node's, ends its open span and begins a new one |
| NodeNames.NodeStore.NodeByFormerName | internal/store/memory/memory.go:131-146 | the node of the span that ended last, the first recorded of equals, if it is still in the inventory |
| FormerNames.MemoryFindsIff | internal/store/memory/memory.go:131-146 | over every run the in-memory store finds the node last renamed away from a name exactly when that node is still there, no node with the name was removed at a later time, and no other left the name earlier at the same time |
| FormerNames.MemoryFindsIffNoRemoval | internal/store/memory/memory.go:131-146 | with no two departures at one time: exactly when it is there and no removal of the name came after |
| FormerNames.MemoryAnswers | internal/store/memory/memory.go:135-145 | what it answers in every case: nothing while nobody left the name, else the node of the latest departure, rename or removal, the first of those at one time, if it is still there |
| FormerNames.PostgresFindsIff | internal/store/postgres/postgres.go:137-141 | the Postgres query finds that node, and no other, exactly when it is still in the inventory: there a removal hides nothing |
| FormerNames.RemovedStaysGone | internal/store/memory/memory.go:182-198 | a removed node is in no later inventory |
| FormerNames.RemovalHidesRename | internal/store/memory/memory.go:135-145 | a run on which the two stores differ |
| NodeNames.AuditNodeIds.Of | internal/fleet/nodeid.go:198-227 | a current id wins, then the holder of the name at the entry's time, and without a readable time the node that held the name last |
| NodeNames.AuditNodeIds.Find | internal/fleet/nodeid.go:208-226 | the holder of the name at the entry's time, and the latest holder when that time does not parse |
| NodeNames.SegmentIs | internal/fleet/nodeid.go:203-203 | the name is the path up to the next slash |
| Crockford.Encode | internal/bootstrap/token.go:65-83 | the loop writes the base-32 digits of the value padded right to a multiple of five bits, despite the 64-bit accumulator wrapping |
| Crockford.EncodedIsInjective | internal/bootstrap/token.go:65-83 | at a fixed length different bytes give different texts |
| Crockford.WrapKeepsLowBits | internal/bootstrap/token.go:71-77 | the bits read from a wrapped accumulator are the value's own |
| Crockford.SecretLength | internal/bootstrap/token.go:51-52 | 32 bytes give 52 symbols |
| Crockford.SymbolIs | internal/bootstrap/token.go:59-59 | the alphabet |
| BootstrapTokens.CanonicalToken | internal/bootstrap/token.go:105-128 | the builder loop computes the canonical form, and takes exactly the texts with the prefix in any case and 52 legible characters, dashes and surrounding space aside |
| BootstrapTokens.CanonicalIsIdempotent | internal/bootstrap/token.go:105-128 | canonicalising twice is canonicalising once |
| BootstrapTokens.SameTokenIffVariant | internal/bootstrap/token.go:100-128 | two texts stand for one token exactly when they differ only in surrounding space, case, dashes and letters read as the same digit |
| BootstrapTokens.NewToken | internal/bootstrap/token.go:87-98 | the prefix and the 52 symbols of the secret with a dash after every fourth |
| BootstrapTokens.NewTokenMeans | internal/bootstrap/token.go:87-98 | a new token canonicalises to its ungrouped text, and different secrets to different tokens |
| RateLimit.TripsIffLimitInside | internal/ratelimit/ratelimit.go:94-111 | under a monotone clock a failure trips exactly when limit failures since the last trip, itself included, are less than the window old |
| RateLimit.KeptCount | internal/ratelimit/ratelimit.go:98-105 | as many times are kept as are less than the window old |
| RateLimit.StoredAre | internal/ratelimit/ratelimit.go:98-105 | the stored times are exactly the failures since the last trip inside the window |
| RateLimit.TripsAreDear | internal/ratelimit/ratelimit.go:105-110 | fewer than limit times are stored between calls, and k trips took at least k times limit failures |
| RateLimit.Window.Compact | internal/ratelimit/ratelimit.go:99-104 | the in-place compaction keeps the times after the cutoff, in order |
| RateLimit.Window.Fail | internal/ratelimit/ratelimit.go:94-111 | one failure: trip or the new contents |

## Left out

- Certificate, CRL and OCSP parsing, signatures and chain building are uninterpreted functions; SHA-256 is taken as
  injective where it names certificates, and reading a CRL again from its DER form gives the same CRL.
- Postgres locking: each transaction is one step, clock_timestamp() strictly increases in commit order, and
  RetireOperatorCA's check and write are one step.
- One clock for all replicas and the store. The reads of a starting replica are one step, as it serves nothing before
  them, and so are a rebuild's read and install, which the manager holds one lock over.
- TrustGenerations.TrustStore.Rebuild: takes lists in which a fingerprint stands for one certificate, as SHA-256 is taken to
  make it; every list TrustStore.Load returns is one.
- Requests are taken as checked before their transaction: stored CAs parse and have their fingerprint, offered CRLs
  verified by then, and CRL and OCSP URLs are as their source and mode call for. Which texts are URLs is left to net/url;
  none it takes is empty or holds a newline.
- The acknowledgements, warnings and registered-at columns, reasons and notes of denylist entries, status banners, log
  lines, audit rows of the revocation engine, TLS configurations and session tickets.
- CRLs from config-file paths, and the fetching of CRLs and OCSP responses; an OCSP fetch and its put are one step, so
  the background goroutine and singleflight are not modelled.
- FirstRunService.Service.Fail: only the global cap is modelled; a failure also counts against the caller's own budget,
  a token bucket whose arithmetic is a library's.
- FirstRunService.Service.StartSession: whether the caller's own budget is used up is a parameter.
- FirstAdmin.FirstAdminDesk.Submit: the same.
- FirstRunService.Service.Reconfirm: a registered certificate that does not parse, and what a preview describes of it,
  are left to the library.
- First-run states not applicable and unavailable, request parsing, certificate profile checks and CSR matching; the
  rebuild at the start of SubmitFirstAdminCertificate is Poller.RebuildTrust and not repeated in Submit.
- Postgres versions of the audit log, approvals and node names; the in-memory store is modelled, and of the Postgres
  node names the query of FormerNames.Selected.
- Unicode: text is ASCII, and in the audit chain a sequence of bytes.
- The entry's time in NodeNames is the one it carries; the audit log writes whole seconds, so a rename within the second
  of an entry can precede the time written. A node's other fields are not modelled.
- Node dialling, adoption, ferry, re-key, escrow, decommission and config push; HTTP and gRPC plumbing; the web UI;
  profile and adapter catalogues; OAuth: remote calls, presentation or easy members only.
