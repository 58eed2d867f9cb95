# Verification of the payment gateway

This project models the parts of the gateway where a mistake costs money or evidence, and proves what
they promise over all inputs, all interleavings and all runs. `dafny verify dfyconfig.toml` checks it.

Five groups of modules:

1. **Credential lifecycle and payment routing.** `RoutingStore` holds the credential table, its
   constraints and the ideal cipher; `CredentialTransactions` runs the create, rotate and set-status
   transactions statement by statement; `PaymentRouting` has mappings, resolution, payments and the status
   query; `RoutingRuns` interleaves open transactions, single statements and payment handlers in one state
   machine. `MerchantRouting` is the repository as a class over those tables, `Provisioning` the four-step
   onboarding with its undo, `BootProvisioning` the seeding at start-up. The main theorem is
   `RoutingRuns.DestinationIsFrozen`.
2. **The two-tier log writer.** `LogPipeline` is the concurrent protocol (producers, two workers, fallback
   file and its mutex, replay, shutdown) as steps in any order; `LogRepository` is the same code as a class,
   one call at a time; `Months` and `LogPartitions` are the partition arithmetic, migration and expiry.
3. **In-memory stores.** `RateLimiter`, `LoginLimiter`, `SessionStore`, `ApiKeyAuth`: each prunes lazily,
   and each is proved against a version that keeps everything.
4. **The pending-payment reconciler.** `Reconciler`: when a pass ends, and what it has done by then.
5. **Two encoders.** `CanonicalJson` (what requests are signed over) and `CredentialEncoding` (star-marked
   base64).

`Uuids` (how a uuid column reads a text and writes it back), `Options`, `Text`, `Decimals` and `Sorting` are
shared.

Code that updates state in place is modelled by classes whose methods are proved against ghost histories or
specification functions; the lemmas beside them say what those specifications are worth.

## Where the code falls short of what its comments say

Each of these is kept as the code has it, shown by a concrete case, and delimited exactly.

- A created credential need not ever decrypt. It is encrypted under the recipient id as the caller spelled it
  (merchant_routing.go:194-212, 278-281), which the administration endpoint passes on unvalidated
  (merchant_routing_admin_controller.go:134), and looked up under the id as the uuid column writes it. It opens
  exactly when the two texts agree: `CredentialTransactions.NewRowOpensIff`, over whole runs
  `RoutingRuns.CredentialDecryptsIff`. An upper-case or braced uuid is accepted and never opens:
  `MisspelledDraftNeverOpens`, `SomeRecipientHasLetters`, `Uuids.UpperCaseIsStored`, `Uuids.BracedIsStored`. A link recorded on a payment
  always opens: `RoutingRuns.RecordedLinkIsStable`.
- Boot provisioning "only ever adds" (provision_boot.go:24-26): it retires an active credential when the
  payee's mapping is missing or disabled. `BootProvisioning.ProvisionOne` gives the condition both ways, for the
  recipient it names, and retires the credential of every payee in that case;
  `DisabledMappingLosesActiveCredential` shows that this is not adding.
- "Never silently drop T1" (logs.go:644-645): an append that fails after writing part of its line leaves the next
  record's line glued to it, and a replay discards the two. Insert reported success for that record, the append
  did too, and it is nowhere. `LogPipeline.TornAppendForgetsTheNext` is such a run; `AppendForgetsIff` delimits
  the appends; without torn appends `Tier1IsNeverSilentlyDropped`.
- The drain at shutdown (logs.go:708-729): an Insert that has passed its closed check when Close runs can be
  accepted after the drain, and its record stays in the queue for good. `LogPipeline.LateInsertIsStranded` is such
  a run; `StoppedWorkerHasDrained` says exactly what is left, `QuietShutdownLosesNothing` when nothing is, and
  `OrderlyShutdown` that the drain ends.
- "Exactly one active session per user": two overlapping logins leave two.
  `SessionStore.OneSessionIffNoneWasLive`, `InterleavedLoginsKeepBoth`.
- "Locks key when threshold is reached": with a configured threshold of one the first failure does not lock.
  `LoginLimiter.ConfiguredThresholdIsMet`.
- Storing a bank transaction "identified by STAN" writes every payment of the app that carries the STAN. A
  payment's status query sends the id last stored under its app and STAN, its own exactly while no other has
  been stored since: `RoutingRuns.QuerySendsLastStored`, `OverwrittenIff`. `SharedStanMisdirects` is a run where
  it sends another payment's.
- A reconcile pass never ends once a full batch of due rows cannot be moved (blank references, or writes that
  keep failing). `Reconciler.PassEndsIff`.
- An API key refused before it was added goes on being refused for one cache lifetime after the refusal, to the
  instant. `ApiKeyAuth.NewKeyIsRefusedForOneTTL`, `StalenessEnds`.
- "Lexical sort is chronological": exactly when the years are written with equally many digits.
  `Months.ChronologicalIff`. January of year 1 is taken for the current month, so a range that reaches into it
  is not covered: `LogPartitions.RangeIsCoveredIff`, and a migration of such rows fails:
  `LogPartitions.PartitionedLogs.MigrateUnpartitioned`.

## Model

| member | source | states |
|---|---|---|
| RoutingRuns.DestinationIsFrozen | controllers/business_controller.go:448-490 | For any reachable payment and any further interleaved run, a status query by its reference gets through exactly when the gateway recorded at initiation was complete and the transaction id is known, and then sends the bank the account stored on that row at initiation, through the credential recorded then |
| RoutingRuns.ConfirmIsFrozen | controllers/business_controller.go:218-262 | After any further run a confirmation of the newest payment with the STAN goes through exactly when the gateway recorded at its initiation was complete and the bank's answer is stored, and debits by that answer through the credential recorded then |
| RoutingRuns.ConfirmFollowsTheAnswer | controllers/business_controller.go:78-262 | From any sound state in which the reference resolves to a complete gateway: after an initiation and its insert a confirmation is refused; once the bank's id is stored it debits that id through the credential resolved at initiation |
| RoutingRuns.FirstPayment | controllers/business_controller.go:78-285 | From any sound state: onboarding a new merchant, one payment and the bank's answer; the confirmation then debits through the merchant's credential and the status query names the merchant's account |
| RoutingRuns.InitiationGoesOnIff | controllers/business_controller.go:78-108 | An initiation goes on exactly when its merchant reference resolves to a gateway that names account, account name and bank |
| RoutingRuns.PaymentIsInserted | controllers/business_controller.go:78-200 | It then adds one row, with the account and the credential taken from the gateway it resolved |
| RoutingRuns.RecordedLinkIsStable | controllers/gateway_resolver.go:50-75 | The credential link recorded on a payment decrypts, and whatever has run since, to the same values |
| RoutingRuns.CredentialDecryptsIff | internal/storage/merchant_routing.go:194-212 | Over any run a credential decrypts exactly when its recipient was spelled, at creation, as the table spells it |
| RoutingRuns.QuerySendsLastStored | controllers/business_controller.go:432-490 | After any further run a payment's status query sends the transaction id last stored under its app and STAN, whichever payment that was for; its own exactly when it was not overwritten |
| RoutingRuns.OverwrittenIff | internal/storage/repository.go:115-122 | The last stored id is another one exactly when some store under the app and STAN wrote another and no later one wrote the first back |
| RoutingRuns.AnswerIsLastStored | internal/storage/repository.go:97-143 | Over any run each of the bank's three answers on a payment row (transaction id, order number, outcome) is the one stored last under its app and STAN |
| RoutingRuns.SharedStanMisdirects | controllers/business_controller.go:218-285 | A run with two payments of one app on one STAN after which the first one's status query sends the second one's id |
| RoutingRuns.CommitIsAtomic | internal/storage/merchant_routing.go:194-296 | Whatever was interleaved, a commit has exactly the effect of running the whole transaction alone on the table as it is then |
| RoutingRuns.AloneOutcome | internal/storage/merchant_routing.go:194-379 | A transaction whose recipient nobody has locked commits its whole effect exactly when its row exists and its request is one the constraints allow; otherwise nothing has changed |
| RoutingRuns.EveryViewIsSound | internal/storage/migrations_merchant_routing.go:43-74 | In every reachable state every open transaction sees a table with one active row per pair, unique gapless versions and well-founded rotation links |
| RoutingRuns.StepKeepsOk | internal/storage/merchant_routing.go:194-379 | Every event keeps the invariant, and of an existing credential nothing but the status ever changes |
| RoutingRuns.RunKeeps | internal/storage/merchant_routing.go:194-379 | Any run from a sound state ends in one, with every earlier payment's destination kept |
| RoutingRuns.OnboardedMerchantResolves | internal/storage/merchant_routing.go:77-221 | Creating recipient, mapping and credential and activating it, event by event, makes the reference resolve to the given values and touches no other row |
| RoutingRuns.InitialIsOk | internal/storage/migrations_merchant_routing.go:43-74 | Empty tables are sound |
| RoutingRuns.OthersUnaffected | internal/storage/merchant_routing.go:268-271 | Under the recipient row lock a commit leaves every other open transaction as valid as it was |
| CredentialTransactions.PrefixOutcome | internal/storage/merchant_routing.go:194-296 | After any number of its statements a transaction has written the closed-form overlay, and fails only for the listed reasons |
| CredentialTransactions.EveryStatementKeepsOk | internal/storage/merchant_routing.go:225-296 | After every statement of a rotate, create or status change the table it sees is sound |
| CredentialTransactions.OverlayStaysInPair | internal/storage/merchant_routing.go:350-379 | A transaction writes rows of its own recipient and provider only, and adds at most its own new id |
| CredentialTransactions.PrefixFrame | internal/storage/merchant_routing.go:268-287 | A transaction cannot tell apart two tables that agree on its recipient's rows |
| CredentialTransactions.OverlayStaysCanonical | internal/storage/merchant_routing.go:273-287 | What is written stays well-formed for the additional data |
| CredentialTransactions.NewRowOpensIff | internal/storage/merchant_routing.go:278-296 | A created credential opens exactly when the recipient was spelled as the table will spell it; a rotated one always does |
| CredentialTransactions.MisspelledDraftNeverOpens | controllers/merchant_routing_admin_controller.go:134-134 | An upper-case spelling with letters, or a braced one, is read as the same recipient, and the draft never opens |
| Uuids.TextIsStored | internal/storage/merchant_routing.go:409-411 | The text a uuid is written as is read back as that uuid |
| Uuids.UpperCaseIsStored | internal/storage/merchant_routing.go:278-287 | Upper case is read as the same uuid, and is its own text only without letters |
| Uuids.BracedIsStored | internal/storage/merchant_routing.go:278-287 | Braces are read away and are never in a uuid's own text |
| RoutingStore.AdditionalDataInjective | internal/storage/merchant_routing.go:409-411 | On colon-free parts, as a uuid's text and the known providers are, the additional data determines id, recipient text, provider and version |
| RoutingStore.UnsealsOwnBindingOnly | controllers/gateway_resolver.go:61-75 | A ciphertext opens for the identity whose binding it was sealed under and no other |
| RoutingStore.OpensIffSpelledOut | internal/storage/merchant_routing.go:278-296 | Sealed under some spelling of its recipient, a credential opens exactly when that is the id's own text |
| RoutingStore.RowOpensIffSpelledOut | controllers/gateway_resolver.go:61-75 | The same of any row of a sound table |
| RoutingStore.SecretOpensAsItselfOnly | internal/storage/merchant_routing.go:289-296 | One credential's secret opens as another's exactly when they are the same credential and it opens at all |
| Decimals.SignedInjective | internal/storage/merchant_routing.go:409-411 | The version's decimal text determines it, sign included |
| PaymentRouting.ResolutionIsAFunction | internal/storage/merchant_routing.go:381-407 | The resolution query never has two rows to choose from |
| PaymentRouting.StatementKeepsDbOk | internal/storage/merchant_routing.go:77-192 | A recipient or mapping statement that succeeds keeps the database sound and leaves credentials and payments alone |
| PaymentRouting.ResolvedValuesAreSealedValues | controllers/gateway_resolver.go:33-75 | A successful resolution yields the values sealed when the credential was written |
| PaymentRouting.RecordedLinkDecrypts | controllers/gateway_resolver.go:50-75 | On a sound database the link of a payment decrypts, to the account stored on the payment |
| PaymentRouting.ResolutionDecryptsIff | controllers/gateway_resolver.go:33-75 | A resolved credential decrypts exactly when its recipient was spelled as the table spells it |
| PaymentRouting.ResolveActiveAnswers | internal/storage/merchant_routing.go:381-407 | Resolution returns its unique witness, or reports that there is none |
| PaymentRouting.ResolvedIsLive | internal/storage/merchant_routing.go:381-407 | What is resolved has an active mapping for the app and reference, an active recipient and an active credential of the provider |
| PaymentRouting.DisabledRecipientIsNotPaid | internal/storage/merchant_routing.go:112-124 | Disabling a recipient takes away exactly the answers that name it |
| PaymentRouting.DisabledMappingIsNotFollowed | internal/storage/merchant_routing.go:180-192 | Disabling a mapping takes away exactly the answers for its app and reference |
| PaymentRouting.InactiveCredentialIsNotUsed | internal/storage/merchant_routing.go:381-407 | A credential that is no longer active takes its answer with it and no other |
| PaymentRouting.MappingIsAcceptedIff | internal/storage/migrations_merchant_routing.go:31-45 | A mapping is refused exactly for a missing row, an empty reference or an active mapping of the same app and reference beside it |
| PaymentRouting.ReferenceIsMoved | internal/storage/merchant_routing.go:140-192 | A reference cannot be mapped a second time while its mapping is active, and can once that is disabled |
| PaymentRouting.LatestIsLast | internal/storage/transaction_routing.go:36-53 | The lookup returns the newest row of the app with the value, or there is none |
| PaymentRouting.ConfirmGoesThroughIff | controllers/business_controller.go:218-262 | A confirmation goes through exactly when the newest payment of the app with the STAN has a complete gateway recorded and a stored transaction id, and debits by these two |
| PaymentRouting.NothingToConfirm | controllers/business_controller.go:236-239 | With no such payment it is not found |
| PaymentRouting.StatusByReferenceGoesThroughIff | controllers/business_controller.go:448-478 | A query by reference goes through exactly when the app has a payment with it, a complete gateway on it and a known transaction id |
| PaymentRouting.StatusByTransactionGoesThroughIff | controllers/business_controller.go:463-490 | A query by bare transaction id goes through exactly when the newest payment of the app that the bank gave this id has a complete gateway, and sends that id and that payment's account |
| PaymentRouting.UnknownTransactionIsNotFound | controllers/business_controller.go:463-468 | With no such payment it is not found |
| PaymentRouting.PaymentIsStoredIff | internal/storage/repository.go:39-92 | A payment row is stored exactly when its routing is complete, its credential exists under that identity and its app has no other payment with the order |
| PaymentRouting.StatusQueryIsAboutItsPayment | controllers/business_controller.go:432-490 | A query by reference is about the one payment of the app with it, and sends its account and transaction id |
| PaymentRouting.EffectKeepsDbOk | internal/storage/merchant_routing.go:194-296 | The whole effect of a credential transaction keeps payments, mappings and credentials sound |
| PaymentRouting.UpdateKeepsPaymentsOk | internal/storage/repository.go:97-143 | No update statement touches app, reference, link or account |
| MerchantRouting.MerchantRoutingRepository.Autocommit | internal/storage/merchant_routing.go:77-192 | A single statement either takes effect whole or leaves everything as it was |
| MerchantRouting.MerchantRoutingRepository.CreateRecipient | internal/storage/merchant_routing.go:77-90 | Adds one recipient with the trimmed name under the given id, or a generated one for a blank id; succeeds exactly when the id is blank or an unused uuid |
| MerchantRouting.MerchantRoutingRepository.SetRecipientActive | internal/storage/merchant_routing.go:112-124 | Changes one flag of an existing recipient, or nothing |
| MerchantRouting.MerchantRoutingRepository.CreateMapping | internal/storage/merchant_routing.go:140-150 | Adds one mapping that breaks no constraint, or nothing |
| MerchantRouting.MerchantRoutingRepository.SetMappingActive | internal/storage/merchant_routing.go:180-192 | Succeeds exactly for an existing mapping whose new flag breaks no uniqueness, and changes that flag only; otherwise nothing |
| MerchantRouting.MerchantRoutingRepository.CreateDraftCredential | internal/storage/merchant_routing.go:194-221 | Succeeds exactly for a known recipient in any spelling, a known provider and a working encryptor; adds one draft with the next version, which opens exactly when the recipient was spelled as the table spells it |
| MerchantRouting.MerchantRoutingRepository.RotateCredential | internal/storage/merchant_routing.go:225-266 | Succeeds exactly for an existing source and a working encryptor; the new row has the next version, seals the given values and opens, replaces the pair's active row and names it as rotated from; all or nothing under any outage |
| MerchantRouting.MerchantRoutingRepository.SetCredentialStatus | internal/storage/merchant_routing.go:350-379 | Succeeds exactly for an existing credential and a known status; all or nothing under any outage |
| Provisioning.MerchantRoutingOverviewController.Provision | controllers/merchant_routing_overview_controller.go:326-366 | All or nothing as resolution sees it, a blank provider being dkpg: a failure anywhere, undo included, changes no answer; success changes the requested triple's only |
| Provisioning.MerchantRoutingOverviewController.StoreDestination | controllers/merchant_routing_overview_controller.go:350-359 | The recipient ends up with exactly one active credential holding the given values, invisible so far |
| Provisioning.MerchantRoutingOverviewController.MapReference | controllers/merchant_routing_overview_controller.go:360-366 | The mapping makes the destination reachable at the requested triple and changes no other answer |
| Provisioning.MerchantRoutingOverviewController.Undo | controllers/merchant_routing_overview_controller.go:345-348 | Undoing, successfully or not, changes no answer |
| Provisioning.UnmappedRecipientIsInvisible | internal/storage/merchant_routing.go:381-407 | Nothing done to a recipient that no mapping names can be seen by resolution |
| Provisioning.MappingRoutesOneTriple | internal/storage/merchant_routing.go:140-150 | Mapping a reference to a set-up recipient changes exactly one answer |
| BootProvisioning.ProvisionAtBoot | provision_boot.go:64-95 | A new plan ends up with every usable payee's reference resolving, per provider, to the values the plan lists for it; every credential added seals some payee's values for its provider; a plan already provided for changes nothing, so a second boot is a no-op |
| BootProvisioning.ProvisionOne | provision_boot.go:97-175 | An unknown payee is provided for, paid as listed and only added; every credential added opens to what the plan gives the payee for its provider; in general, for the payee's first named recipient or a new one, existing rows survive if and only if no listed destination was unresolvable beside an active credential; a payee whose mapping is gone has that credential retired |
| BootProvisioning.ProvisionDestinations | provision_boot.go:128-155 | Whatever order the providers are taken in, exactly the missing destinations are stored and activated, each sealing what the plan lists for its provider |
| BootProvisioning.MappedPayeeIsPaid | provision_boot.go:128-175 | Once the missing destinations are stored and the reference is mapped, each listed provider resolves to the listed values |
| BootProvisioning.ResolvesToSurvives | internal/storage/merchant_routing.go:381-407 | Added rows leave what a reference resolves to alone |
| BootProvisioning.PaidSurvives | provision_boot.go:90-95 | Providing for one payee leaves those before it paid as listed |
| BootProvisioning.FindRecipient | provision_boot.go:106-118 | Finds the first recipient of the listing with the payee's name, or there is none |
| BootProvisioning.NamedIff | provision_boot.go:106-118 | Recipient and payee have one name exactly when the trimmed names fold to one text |
| BootProvisioning.ListRecipients | internal/storage/merchant_routing.go:92-110 | Lists every recipient once |
| BootProvisioning.FindOrCreateRecipient | provision_boot.go:106-126 | Uses the recipient of that name or adds one |
| BootProvisioning.ClaimReference | provision_boot.go:157-174 | The reference ends up with an active mapping, an existing one left alone |
| BootProvisioning.IsPayable | provision_boot.go:133-135 | True exactly when resolution succeeds |
| BootProvisioning.GrowsIffNothingRetired | provision_boot.go:128-155 | The destination loop changes no existing row exactly when nothing is retired |
| BootProvisioning.DisabledMappingLosesActiveCredential | provision_boot.go:24-26 | Once the mapping is disabled, what boot does retires the active credential, so that it does not only add |
| BootProvisioning.ProvidedSurvives | provision_boot.go:90-95 | Providing for one payee leaves those before it provided for |
| BootProvisioning.UnknownSurvives | provision_boot.go:90-95 | Providing for one payee leaves the distinct ones after it unknown |
| LogPipeline.Tier1IsNeverSilentlyDropped | internal/storage/logs.go:638-748 | Without torn appends, in every interleaving each accepted tier 1 record is queued, in hand, in the file, inserted, or among the worker's own failed appends |
| LogPipeline.Tier1IsAccountedFor | internal/storage/logs.go:638-748 | With any appends each accepted tier 1 record is in one of those places or in a line that two appends share |
| LogPipeline.StoppedWorkerHasDrained | internal/storage/logs.go:687-729 | Once the worker has stopped, the queue holds exactly the records queued after its drain had ended; every other accepted record is in the file or inserted, short only of failed appends and of lines glued together |
| LogPipeline.QuietShutdownLosesNothing | internal/storage/logs.go:573-598 | When no Insert is past its closed check as the repository is closed, the stopped worker leaves an empty queue and every accepted record in the file or inserted, short of the same |
| LogPipeline.LateInsertIsStranded | internal/storage/logs.go:620-642 | A run in which an Insert past its closed check is accepted after the drain and its record stays in the queue whatever runs after it |
| LogPipeline.OrderlyShutdown | internal/storage/logs.go:708-729 | From any idle, closed state, with a working database, some run of the worker alone inserts every queued record and every line that decodes, in order, empties the file and ends |
| LogPipeline.StoppedStays | internal/storage/logs.go:708-712 | Nothing leaves the queue or enters the table once the worker has stopped |
| LogPipeline.DoneWorker2HasDrained | internal/storage/logs.go:750-778 | Once the tier 2 worker is done its queue holds exactly the records queued since; every other accepted record is inserted or a counted drop |
| LogPipeline.DropsAreCounted | internal/storage/logs.go:912-921 | Over any run the drop counter counts exactly the records that found no room, whose request was over, or whose insert failed |
| LogPipeline.AppendForgetsIff | internal/storage/logs.go:923-955 | The append of a record's last copy reports success and forgets it exactly when it continues an unfinished line |
| LogPipeline.TornAppendForgetsTheNext | internal/storage/logs.go:644-650 | A run from a fresh start in which an accepted record is nowhere: not queued, in hand, in the file, inserted, nor reported |
| LogPipeline.AppendAccounts | internal/storage/logs.go:923-955 | An append ruins what it glues together and loses no other line |
| LogPipeline.RunStaysTidy | internal/storage/logs.go:923-1039 | Runs without torn appends ruin nothing |
| LogPipeline.Tier2IsConserved | internal/storage/logs.go:652-663 | Accepted tier 2 records equal queued, in hand, inserted and counted drops, record by record and in total |
| LogPipeline.RunIsSound | internal/storage/logs.go:687-778 | The coverage, exactness and mutex invariants hold after every run |
| LogPipeline.WorkerStepStaysCovered | internal/storage/logs.go:687-748 | Every step of the tier 1 worker, replay and rewrite included, keeps every accepted record somewhere |
| LogPipeline.StepStaysExclusive | internal/storage/logs.go:923-955 | The fallback mutex keeps an append out of a replay's rewrite |
| LogPipeline.Tier1Insert | internal/storage/logs.go:620-664 | Uncontended, a tier 1 call is queued while there is room, appended otherwise, and accepted when the append says so |
| LogPipeline.Tier2Insert | internal/storage/logs.go:652-663 | Uncontended, a tier 2 call is queued or counted as dropped |
| LogPipeline.WorkerSettlesHead | internal/storage/logs.go:698-748 | Uncontended, the worker inserts the head of the queue if either attempt works and appends it only if both fail |
| LogPipeline.Worker2SettlesHead | internal/storage/logs.go:753-778 | The tier 2 worker inserts the head of its queue or counts it as dropped |
| LogRepository.ReplaySplitsFile | internal/storage/logs.go:957-1039 | What a pass inserts and what it keeps make up the old file's records exactly |
| LogRepository.ReplayKeepsOrder | internal/storage/logs.go:957-1039 | The kept lines are a subsequence of the old file, without undecodable ones |
| LogRepository.ReplayGoesByOutcome | internal/storage/logs.go:981-1000 | Each record is inserted as often as a line of it is and its INSERT works, and kept as often as it fails |
| LogRepository.PassMeetsItsFunctions | internal/storage/logs.go:957-1039 | The protocol's replay steps leave exactly those lines and insert exactly those records |
| LogRepository.ReplayFromTheFile | internal/storage/logs.go:957-1039 | From taking the mutex to giving it back a replay leaves in the file what could not be inserted, adds to the table what could, and changes nothing else |
| LogRepository.LogRepository.Insert | internal/storage/logs.go:620-664 | Tier 1 is queued, spilled or refused with an error; tier 2 is queued or counted as dropped, either of them when its context is done and there is room |
| LogRepository.LogRepository.AppendToFallback | internal/storage/logs.go:923-955 | Reports success exactly for a whole line, which is then in the file exactly when the line before was finished; the new file for every partial write |
| LogRepository.LogRepository.ReplayFallback | internal/storage/logs.go:957-1039 | Without a fault the file ends as the function says; with one it is untouched; what was scanned and could be inserted is inserted either way |
| LogRepository.LogRepository.InsertT1WithRetry | internal/storage/logs.go:731-748 | Inserts once if either attempt works, the second an interval after the first unless shutdown cuts the wait short |
| LogRepository.LogRepository.SettleHead | internal/storage/logs.go:698-704 | Moves the received record to the table, to the file or to the known losses, and touches no other |
| LogRepository.LogRepository.DrainT1Queue | internal/storage/logs.go:715-729 | Empties the queue without waiting: into the table, in order and with the file untouched, when every INSERT works, and leaving the table alone when none does; every copy ends up inserted, in the file, known lost or ruined; nothing is ruined without torn appends |
| LogRepository.LogRepository.DrainT2Queue | internal/storage/logs.go:766-778 | Empties the queue: the table gains, in order, exactly the records whose INSERT works, and the counted drops exactly the others |
| Months.MonthStartsBetween | internal/storage/logs.go:449-460 | Every month from one instant's to the other's once and in order, whichever comes first |
| Months.UniqueMonthStarts | internal/storage/logs.go:462-482 | The same months each once, ordered by key, for any map order |
| Months.AddMonthIsCivil | internal/storage/logs.go:278-279 | One month later is a real date one or two months on, the next month for days up to 28 |
| Months.MonthsAreGregorian | internal/storage/logs.go:278-279 | Month lengths are those of the Gregorian calendar, leap years by 4, 100 and 400 |
| Months.MonthIsInterval | internal/storage/logs.go:403-428 | A month's instants are those from its first up to the next month's first |
| Months.KeyInjective | internal/storage/logs.go:462-467 | No two months share a key, for any year |
| Months.KeyOrder | internal/storage/logs.go:475-476 | Keys of years with equally many digits sort as time does |
| Months.KeyDisorder | internal/storage/logs.go:475-476 | Where a year needs one more digit than the one before, its keys sort first |
| Months.ChronologicalIff | internal/storage/logs.go:475-476 | Over consecutive months from year 0 on, key order is time order exactly when first and last year have equally many digits |
| LogPartitions.RangeIsCoveredIff | internal/storage/logs.go:272-286 | Each instant of a range is in exactly one generated partition, if and only if the range avoids January of year 1 (or it is that month now) |
| LogPartitions.HeldOnceIff | internal/storage/logs.go:352-374 | An instant is in exactly one generated partition exactly when its month is among the restarted months |
| LogPartitions.PartitionsAbut | internal/storage/logs.go:403-428 | One month's partition ends where the next begins |
| LogPartitions.MonthsToCover | internal/storage/logs.go:441-482 | The computed months cover the range under that condition, for every surface |
| LogPartitions.LeafNameInjective | internal/storage/logs.go:422-422 | A partition's name determines its surface and month |
| LogPartitions.HomeHolds | internal/storage/logs.go:352-374 | A row belongs to the leaf of its surface whose interval holds it, and to no other |
| LogPartitions.OnlyOldRowsGo | internal/storage/logs.go:865-910 | An expiry loses no copy of any row but internal ones written before the cutoff |
| LogPartitions.ExpiresIff | internal/storage/logs.go:865-910 | A leaf expires exactly when it is registered, internal, not yet marked and its month ends before the day of the cutoff |
| LogPartitions.PartitionedLogs.CreatePartition | internal/storage/logs.go:357-401 | Creates a missing leaf and registers it, leaving an earlier dropped mark |
| LogPartitions.PartitionedLogs.EnsureMonthlyPartitions | internal/storage/logs.go:352-374 | Adds exactly the leaves of the given months, three surfaces each, changing no other |
| LogPartitions.PartitionedLogs.Insert | internal/storage/logs.go:1041-1076 | A row is accepted exactly when some partition of its surface contains its instant |
| LogPartitions.PartitionedLogs.DropExpiredPartitions | internal/storage/logs.go:865-910 | Drops exactly the expired leaves with their rows and marks exactly those; of each row, the copies it leaves are all or none as its leaf is expired |
| LogPartitions.PartitionedLogs.RunPartitionMaintenance | internal/storage/logs.go:836-863 | Afterwards every row of this and the next month is accepted, and only old internal rows are gone |
| LogPartitions.PartitionedLogs.MigrateUnpartitioned | internal/storage/logs.go:241-330 | Copies every legacy row, undated ones stamped now, into a partition that holds it, exactly when none lies in a January of year 1 that is not now; otherwise nothing |
| LogPartitions.MonthsToMigrate | internal/storage/logs.go:270-281 | The computed months include every row's under that condition |
| LogPartitions.MinMax | internal/storage/logs.go:272-277 | The bounds are attained and enclose every dated row |
| RateLimiter.IPRateLimiter.Allow | internal/auth/rate_limiter.go:47-81 | Answers by the full history: allowed iff fewer than the maximum in the closed window; a denial announces the exact wait |
| RateLimiter.IPRateLimiter.PruneOld | internal/auth/rate_limiter.go:85-91 | Leaves exactly the part of a slice from the cutoff on |
| RateLimiter.IPRateLimiter.EvictStale | internal/auth/rate_limiter.go:95-103 | Every slice pruned, no empty one left |
| RateLimiter.CountIsSliceLength | internal/auth/rate_limiter.go:47-81 | Counting over the whole history is the length of the pruned slice |
| RateLimiter.CountIsCardinality | internal/auth/rate_limiter.go:47-81 | The count is the number of the history's requests in the closed window, each as often as it was made |
| RateLimiter.AllowingKeepsQuota | internal/auth/rate_limiter.go:47-81 | No closed interval of the window's length ever holds more than the maximum |
| RateLimiter.RetryAfterIsExact | internal/auth/rate_limiter.go:63-73 | Nothing else allowed, requests are denied up to and including now plus retryAfter and allowed after it |
| RateLimiter.PrunedLengthDecides | internal/auth/rate_limiter.go:57-73 | The pruned slice decides as the full history does |
| RateLimiter.EvictionStaysInStep | internal/auth/rate_limiter.go:95-103 | Eviction at any moment changes no later decision for any address |
| LoginLimiter.LoginLimiter.Allow | internal/auth/login_limiter.go:43-61 | Answers as the limiter that never cleans up |
| LoginLimiter.LoginLimiter.RegisterFailure | internal/auth/login_limiter.go:63-99 | Answers and counts as the limiter that never cleans up |
| LoginLimiter.LoginLimiter.RegisterSuccess | internal/auth/login_limiter.go:101-109 | Forgets exactly that key |
| LoginLimiter.LoginLimiter.FailureCount | internal/auth/login_limiter.go:111-132 | Counts as the limiter that never cleans up, and 0 for a key without failures since its last success; what that count is, CountIsNumberOfFailures says |
| LoginLimiter.CountIsNumberOfFailures | internal/auth/login_limiter.go:111-132 | After the failures of a burst on a fresh key the count is their number until the window after the first is over, and 0 from then on and once the last has locked the key |
| LoginLimiter.NothingCounts | internal/auth/login_limiter.go:101-132 | A key without a record, new or forgotten after a success, has count 0 and no lock |
| LoginLimiter.LateFailureStartsOver | internal/auth/login_limiter.go:83-88 | A failure more than a window after the first of an open run begins a run of one |
| LoginLimiter.LockIsNotExtended | internal/auth/login_limiter.go:77-81 | However many failures follow while a key is locked, the lock ends when it was announced to, none of them counts and none is a guess |
| LoginLimiter.FailureAfterLockStartsOver | internal/auth/login_limiter.go:83-88 | The first failure after a lock begins a run of one |
| LoginLimiter.LoginLimiter.Cleanup | internal/auth/login_limiter.go:134-148 | Keeps the simulation of the limiter that never cleans up |
| LoginLimiter.StandInAnswersAlike | internal/auth/login_limiter.go:43-132 | A cleaned-up entry and the full one give the same answers and the same next state at every later time |
| LoginLimiter.CleanupIsInvisible | internal/auth/login_limiter.go:134-148 | Dropping any expired entries keeps the simulation |
| LoginLimiter.GuessesPerWindow | internal/auth/login_limiter.go:63-98 | No closed interval of the window's length holds more than twice the threshold of guesses for one key |
| LoginLimiter.BoundIsAttained | internal/auth/login_limiter.go:63-98 | That bound is reached for every threshold when the lock lasts one window, as by default |
| LoginLimiter.BurstIsGuesses | internal/auth/login_limiter.go:63-98 | Each failure of a burst up to the threshold is a guess |
| LoginLimiter.BurstLocksAtThreshold | internal/auth/login_limiter.go:63-98 | A burst within one window locks with failure number threshold and no earlier one |
| LoginLimiter.ConfiguredThresholdIsMet | internal/auth/login_limiter.go:63-98 | The configured number of failures locks exactly when it is at least two |
| SessionStore.SessionManager.Create | internal/auth/session_store.go:39-70 | Grants one new session to a non-blank user, or nothing |
| SessionStore.SessionManager.Get | internal/auth/session_store.go:77-105 | Agrees with a plain map of unexpired sessions; handled after a later clock reading, it can refuse only sessions expired by that one |
| SessionStore.SessionManager.Revoke | internal/auth/session_store.go:107-119 | Revokes exactly that session |
| SessionStore.SessionManager.RevokeUser | internal/auth/session_store.go:121-141 | Revokes all and only the user's sessions |
| SessionStore.SessionManager.CleanupExpired | internal/auth/session_store.go:143-149 | Drops exactly the expired sessions |
| SessionStore.SessionManager.DeleteSession | internal/auth/session_store.go:151-166 | Keeps the user index the exact inverse, with no empty bucket |
| SessionStore.SessionManager.Login | controllers/auth_controller.go:321-323 | A sequential login leaves the user exactly one live session and everyone else's as they were |
| SessionStore.RevocationStaysInStep | internal/auth/session_store.go:121-141 | Dropping a user's bucket with its sessions removes the user from every map |
| SessionStore.OneSessionIffNoneWasLive | controllers/auth_controller.go:321-323 | After a grant the user has one live session exactly when there was none before |
| SessionStore.InterleavedLoginsKeepBoth | controllers/auth_controller.go:321-323 | Two logins that both revoke first leave two live sessions |
| ApiKeyAuth.RunKeepsOk | middleware/api_key_auth.go:58-158 | In every interleaving held slots equal scans in flight, cached keys were scanned in vain one TTL before expiry, and every answer is justified |
| ApiKeyAuth.SlotsStayOk | middleware/api_key_auth.go:58-78 | Every step, every exit path included, keeps held slots equal to scans in flight and within capacity |
| ApiKeyAuth.UnchangedTableAnswers | middleware/api_key_auth.go:133-158 | While the table is unchanged an answer that is neither busy nor failed is a full scan's |
| ApiKeyAuth.StalenessEnds | middleware/api_key_auth.go:85-121 | Once no scan of an older table runs, an invalid answer more than one TTL later agrees with the table |
| ApiKeyAuth.CallAlone | middleware/api_key_auth.go:133-158 | The protocol's steps taken without interruption are the call: same answer, same cache, same slots |
| ApiKeyAuth.NewKeyIsRefusedForOneTTL | middleware/api_key_auth.go:85-102 | A key refused and then added is refused up to and including one TTL after the refusal, and scanned for from then on |
| ApiKeyAuth.HousekeepingIsInvisible | middleware/api_key_auth.go:97-119 | Lazy deletion and the cleanup change nothing that is known from then on |
| ApiKeyAuth.FullScanFinds | middleware/api_key_auth.go:149-155 | The scan finds an app that the key was issued to if and only if there is one |
| ApiKeyAuth.CallAnswersByTable | middleware/api_key_auth.go:133-158 | With a free slot, a working listing and a key not known to be invalid, the answer is an app the key was issued to, or that there is none |
| ApiKeyAuth.FoundKeyIsCleared | middleware/api_key_auth.go:123-158 | A key that a scan has found is no longer known to be invalid, whoever refused it meanwhile |
| ApiKeyAuth.FullCacheIsPruned | middleware/api_key_auth.go:104-121 | Past the threshold exactly the unexpired entries stay |
| ApiKeyAuth.ApiKeyAuthVerifier.constructor | middleware/api_key_auth.go:36-56 | Sixteen slots and two seconds where the options are not positive, the options otherwise |
| ApiKeyAuth.ApiKeyAuthVerifier.FindMatchingApp | middleware/api_key_auth.go:133-158 | The answer and the cache afterwards by case, with the slots as they were on every exit path |
| ApiKeyAuth.ApiKeyAuthVerifier.IsKnownInvalid | middleware/api_key_auth.go:85-102 | True exactly for an unexpired entry; an expired one is dropped |
| ApiKeyAuth.ApiKeyAuthVerifier.RememberInvalid | middleware/api_key_auth.go:104-121 | Adds the entry and, past the threshold, removes exactly the expired ones |
| ApiKeyAuth.ApiKeyAuthVerifier.ClearInvalid | middleware/api_key_auth.go:123-131 | Removes exactly that key |
| ApiKeyAuth.ApiKeyAuthVerifier.TryAcquire | middleware/api_key_auth.go:58-68 | Takes a slot if one is free |
| ApiKeyAuth.ApiKeyAuthVerifier.Release | middleware/api_key_auth.go:70-78 | Gives a slot back, tolerating none held |
| ApiKeyAuth.ApiKeyAuthVerifier.Scan | middleware/api_key_auth.go:149-155 | The first app whose hash verifies the key |
| Reconciler.PassEndsIff | controllers/international_controller.go:496-550 | An uncancelled pass ends exactly when the due rows it cannot move do not fill a batch |
| Reconciler.RoundsAreBounded | controllers/international_controller.go:496-550 | It then takes at most one round per movable row |
| Reconciler.StuckPassGoesOn | controllers/international_controller.go:496-550 | Otherwise it is still looping after any number of rounds |
| Reconciler.NothingStuck | controllers/international_controller.go:437-461 | With named rows and working writes the pass ends and every due row is movable |
| Reconciler.CheckingRemoves | internal/storage/international_repository.go:270-338 | Checked rows, and only those, stop being due |
| Reconciler.CheckingComposes | controllers/international_controller.go:515-541 | Checks of disjoint rows compose, so the order of the workers' writes does not matter |
| Reconciler.NextCheckIsAnIntervalLater | controllers/international_controller.go:410-411 | A checked row comes up again exactly while it is unpaid and recent, one interval later at the earliest |
| Reconciler.CheckedIsSettled | controllers/international_controller.go:437-461 | A check completes a row by the database clock exactly when the client entitled to ask about it is at hand and was told that it is paid; otherwise it leaves nothing but the time of the attempt |
| Reconciler.PassYieldsResults | controllers/international_controller.go:486-550 | So it is of every row of a pass, and the count is the number of rows found paid |
| Reconciler.PendingIff | internal/storage/international_repository.go:270-292 | The statuses a row can be due with are exactly the listing query's |
| Reconciler.ListingIsFair | internal/storage/international_repository.go:282-292 | Nobody left out of a listing has waited longer than a listed row |
| Reconciler.WorkersRanBatch | controllers/international_controller.go:515-541 | Workers that cancellation strikes have asked and not written; the others have done both |
| Reconciler.ListingExists | internal/storage/international_repository.go:282-292 | Some ordered, limited listing always exists |
| Reconciler.InternationalController.ReconcilePendingPayments | controllers/international_controller.go:486-550 | Uncancelled, every movable due row has been checked exactly once and none is left; each is completed by the database clock exactly when its entitled client was told that it is paid, and otherwise only marked with the time; every client entitled and at hand was asked and no other; cancelled, the same of some rows; the completed count is exact |
| Reconciler.InternationalController.ReconcileBatch | controllers/international_controller.go:508-541 | A batch moves exactly its movable rows; cut short, some of them, and loses those whose write came after the cancellation |
| Reconciler.InternationalController.RunWorkers | controllers/international_controller.go:508-541 | Any completion order gives the same table and count |
| Reconciler.InternationalController.ReconcileSinglePendingPayment | controllers/international_controller.go:437-461 | One check, of the row as listed, and one write, to the row as it is: completed by the database clock exactly when the client entitled to ask was told that it is paid, otherwise only marked; a client at hand is always asked; errors as the code returns them |
| Reconciler.InternationalController.CheckPaymentStatus | controllers/international_controller.go:555-618 | A pending row is checked first, through the client entitled to ask, and answered as that settles it; any other is only read |
| Reconciler.InternationalController.CreatePayment | controllers/international_controller.go:103-354 | Every stored row has a non-blank trimmed reference, and is pending exactly on success |
| Reconciler.InternationalController.StoreFailedCreate | controllers/international_controller.go:356-399 | Stores a failed row unless merchant or reference is blank, its routing is incomplete or the pair is taken |
| Reconciler.InternationalRepository.ListPendingForStatusCheck | internal/storage/international_repository.go:270-320 | The first rows due in the query's order, all of them if they are fewer than the limit |
| Reconciler.InternationalRepository.MarkStatusCheckAttempt | internal/storage/international_repository.go:323-338 | Changes one row's last check, or nothing and an error |
| Reconciler.InternationalRepository.UpdatePaymentStatus | internal/storage/international_repository.go:155-171 | Changes one row's status, completion and last check, or nothing and an error |
| Reconciler.InternationalRepository.CreatePayment | internal/storage/international_repository.go:61-99 | Adds one row with complete routing under the unique pair, or nothing |
| CanonicalJson.SameTextIffSameValue | internal/dkpg/canonical.go:12-74 | Two values have the same text exactly when they are the same JSON value, objects being finite maps |
| CanonicalJson.SmallTexts | internal/dkpg/canonical.go:32-74 | The text of null, of the literals, of empty collections and of collections of one |
| CanonicalJson.ArrayGrows | internal/dkpg/canonical.go:54-65 | One more item goes before the closing bracket, after a comma |
| CanonicalJson.ObjectGrows | internal/dkpg/canonical.go:34-53 | A field whose key is beyond all others goes before the closing brace, after a comma |
| CanonicalJson.Unambiguous | internal/dkpg/canonical.go:32-74 | A text followed by a delimiter determines the value and what follows |
| CanonicalJson.EscapedUnambiguous | internal/dkpg/canonical.go:45-46 | Escaped strings are self-delimiting and determine their string (section 7 of RFC 8259) |
| CanonicalJson.TextIsHarmless | internal/dkpg/canonical.go:45-73 | The signed text holds no control character, angle bracket, ampersand or Unicode line end, whatever the value holds |
| CanonicalJson.EscapesAreStandard | internal/dkpg/canonical.go:45-46 | The short escapes, the escaped line ends, and that a slash stands for itself (section 7 of RFC 8259) |
| CanonicalJson.WriteCanonical | internal/dkpg/canonical.go:32-74 | Appends the canonical text whatever order the maps are ranged over in |
| CanonicalJson.WriteObject | internal/dkpg/canonical.go:34-53 | Appends an object's text, keys sorted |
| CanonicalJson.WriteArray | internal/dkpg/canonical.go:54-65 | Appends an array's text in order |
| CanonicalJson.CanonicalJSON | internal/dkpg/canonical.go:12-28 | The signed string is a function of the value |
| Sorting.SortedListingIsUnique | internal/dkpg/canonical.go:39-39 | A set of keys has one sorted listing |
| Sorting.LargestKeyIsLast | internal/dkpg/canonical.go:39-39 | A key beyond all others is listed last |
| Sorting.SortStrings | internal/dkpg/canonical.go:39-39 | Any enumeration of the keys is turned into that listing |
| Sorting.CollectKeys | internal/dkpg/canonical.go:35-38 | Enumerates the keys, each once |
| CredentialEncoding.CredentialRoundTrip | controllers/apps_management_controller.go:256-263 | For every credential, removing the stars and decoding gives the bytes of the trimmed credential |
| CredentialEncoding.BytesRoundTrip | controllers/apps_management_controller.go:256-263 | The same for every byte string |
| CredentialEncoding.IssuedCredentialsAreShown | internal/common/api_key.go:14-42 | Every API key and secret that is issued is shown exactly as generated |
| CredentialEncoding.ShownIffAscii | views/app.js:405-408 | The page shows the trimmed credential itself exactly when that is ASCII |
| CredentialEncoding.AtobInvertsEncode | views/app.js:405-408 | Decoding inverts base64 for every byte string (section 4 of RFC 4648) |
| CredentialEncoding.StarsComeOut | controllers/apps_management_controller.go:258-262 | Removing the stars gives the base64 text back, for every length |
| CredentialEncoding.StarsArePlaced | controllers/apps_management_controller.go:258-262 | Of a text of more than eight characters: two stars at either end and two after each of its first three quarters, the text itself unchanged between them |
| CredentialEncoding.TestVectors | controllers/apps_management_controller.go:256-263 | The test vectors of section 10 of RFC 4648 |
| CredentialEncoding.UrlEncodeIsSafe | internal/common/api_key.go:14-42 | The encoding of keys and secrets holds neither '+' nor '/', and has '-' and '_' in their places |

## Left out

- Databases: SQL text, timestamps, actor columns and listing queries; rows are maps, ties in created_at are broken by insertion order. A uuid is its 32 digits; ids that come out of the database or were generated are passed as uuids, and only a recipient id typed by a caller as text.
- Transactions: deadlocks and lost connections are rollbacks; a COMMIT whose outcome is unknown is not modelled.
- Cryptography: AES-GCM is an ideal AEAD, bcrypt and SHA-256 are ideal; random ids do not repeat.
- Clocks: nondecreasing; a mutex-held call is one atomic step. The session store (internal/auth/session_store.go:53,88) and the API key lookup (middleware/api_key_auth.go:89) read the clock before they take the mutex: SessionStore allows readings out of order, ApiKeyAuth takes the reading and the lookup as one step.
- Gateway credentials: the JSON form inside the ciphertext and the per-provider field validation (a flag).
- Network calls to the bank, to Stripe and to Turnstile: results or errors chosen freely; intra-bank inquiry and transfer are not modelled.
- HTTP: request parsing, headers, response bodies and the middleware chain.
- BootProvisioning.ProvisionAtBoot: every database write succeeds, and case folding is any rune-by-rune folding; the listing order of the recipients, by the collation of their names, is left open.
- LogPipeline.Tier1IsNeverSilentlyDropped: a failed INSERT inserts nothing, so an INSERT that commits and still reports an error may be repeated; what the operating system loses in a crash is not modelled; the tier of a record is a field rather than the path tests of classifyLogTier.
- Retention deletes in api_logs by row (internal/storage/logs.go:801-834): two DELETE statements.
- LogPartitions.PartitionedLogs.DropExpiredPartitions: DDL and registry statements succeed; tables are keyed by surface and month, which their names determine; surfaces are already normalised.
- Months.ChronologicalIff: years before 0 are not considered, their keys carry a minus sign.
- Reconciler.PassEndsIff: a pass that cannot list its batch ends like a cancelled one; answers, usable credentials and failing writes are fixed for one pass, and nothing else writes the table meanwhile; which credentials resolve is a set.
- Reconciler.InternationalController.CreatePayment: amounts, fees and URLs are flags.
- CanonicalJson.SameTextIffSameValue: a number is its shortest decimal text, so the formatting of floats is not modelled; neither is the Marshal and Unmarshal round before the writer.
- ApiKeyAuth.RunKeepsOk: the database is enabled, keys are trimmed by the handler, and reads of the table see one version.
- SessionStore.SessionManager.Get: the second expiry test after the cleanup can never fail and is not repeated.
- RateLimiter.IPRateLimiter.Allow: map entries hold slices by value; nil receivers are not modelled.
- Fees (calculateTotalAmount): floating point.
- Masking, date ranges, field validators and views: single-branch code.
