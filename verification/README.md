# Teleflow platform: verified models

This project models the parts of the Teleflow platform whose decisions are long-lived or hard to see by
reading one function, and proves what they promise over all inputs and all runs. Everything is Dafny 4.11;
`dafny verify dfyconfig.toml` checks the whole project.

How the source is rendered:

- The tables that a handler or a report updates in place are classes or record states (`AuditTables`, `TokenTable`,
  `LoginAccount`, `DestinationTable`, `Desk`, `ChangeDesk`, `CampaignTable`, `DailyTable`, `Walker`); each method is
  proved equal to a function on values, and the theorems are about that function and about runs of it. What such a
  function means is said once more without it, from the rows, the jobs or the gateway's answers alone.
- A refused request is an error value or an unchanged state; one request is one atomic step.
- SHA-256, the canonical JSON text, the Telegram gateway, row validation, time zones, policy digests, lower-casing of
  choice names and the wording of an inserted comment are parameters. Nothing is assumed about the hash: tamper evidence
  is stated as "the same record, or here is a collision".
- Clocks, fresh ids and fresh token hashes are arguments of the step. Ids that are only compared are natural
  numbers, ordered like the fixed-length text they stand for.
- Choice names are normalised by an arbitrary idempotent function where only that matters, and by the service's own
  `strip`, `lower`, `split` and `" ".join` in `Text`. Of `lower` only this is used: it works word by word between blanks,
  leaves blanks alone, turns words into words and leaves what it returned alone (`LowersByWord`). Mappings that lengthen
  a letter or look at its neighbours in the word, as Unicode's do, are covered.

Where the code does not keep what one would expect, the exact condition is proved and a failing input given:

- Two organisations share an audit chain exactly when their chain keys collide (`WriteDisturbsIffKeysClash`), which takes
  two of: the system itself, an empty id, the reserved key (`KeysClashIff`). The first entry of an organisation with such
  an id breaks the system's chain (`ReservedIdBreaksSystemChain`).
- The chain verifier raises instead of answering when an otherwise well-placed entry has lost its chain version
  (`RaisesIffVersionLost`), as a single first entry without one shows (`LostVersionRaises`).
- Re-validating a destination stores the chat the gateway resolves now, and can create a duplicate that the table's
  unique constraint does not see because its topic is null (`RevalidationKeepsUniqueIff`, `BatchKeepsUniqueIff`;
  two merged groups in `RevalidationCanDuplicate`).
- The login lock bounds guessing exactly when its duration is positive; the settings check the failure limit but not
  the duration (`BoundedIffPositiveLock`, `NoLockWithoutDuration`).
- Under a blank label, alias normalisation drops the first alias, and drops another one each time a stored flow is
  parsed again (`NormalizeAliasesKeepsNamesIff`, `NormalizeAliasesIdempotentIff`): a one-space label with the aliases a
  and b loses a, then b (`SpaceLabelLosesNames`, `BlankLabelLosesWords`).
- Daily figures add up exactly when no row falls on a local day outside the list (`DailyAddsUpIff`), which holds in zones
  whose date never goes back (`DailyConserves`) and fails in one whose date does (`DateGoingBackLosesDelivery`).
- A two-option choice whose labels are both blank is refused although its names differ (`SpaceLabelsAreRefused`); the
  check asks for at most one blank label and for no name kept twice (`UniqueIffApart`).
- Revoking a connection leaves jobs held for later batches alone, and releasing a batch does not look at the connection:
  such a job goes out again exactly when its batch is released (`RevokedUntilReleased`, `HeldJobOutlivesRevocation`).
- A connection revoked while an authorisation for it is open becomes active when that is completed; nothing else brings
  it back (`RevokedUntilAuthEnds`, `AuthReopensRevoked`).
- The jobs and runs an edited campaign leaves behind stay as they are until one of its failed or skipped jobs is retried,
  which a new approval allows (`CampaignQuietUntilRetried`, `RetryOutlivesEdit`).

## Files

| file | contents |
|---|---|
| Common, Text | options and results, stable sorting and its uniqueness, string operations |
| Redaction, AuditChain, AuditTheorems, AuditRebuild, AuditRuns, AuditStore | the audit hash chain |
| FlowNodes, FlowPaths, FlowGraph, FlowScripts, FlowEngine | automation flows: validators, search, conversation engine |
| Lockout, Sessions | login lockout and refresh-token rotation |
| DestinationImport, DestinationStore, BatchValidation, DestinationRuns | bulk import, the destination table, batch re-validation, runs of them |
| JobTables, Rollout | jobs, runs, campaigns, connections; SQL conditions; batches of a staged run |
| OperatorActions, OperatorDesk, OperatorEffects | the operator's requests, as functions, as handlers on the tables, and in plain terms |
| OperatorSteps, OperatorRuns | what one request and what any sequence of requests can do |
| Splicing, JsDefinitions, JsDocInserter | the comment inserter and its three patterns |
| Analytics, LatestAssessments, ChangeControl | reports, gauges, change interlock |

## Model

| member | source | states |
|---|---|---|
| Redaction.RedactCleans | app/audit.py:37-54 | After redaction no secret-named key at any depth carries a value and no text exceeds the limit plus its mark; redacting again changes nothing |
| Redaction.RedactedAt | app/audit.py:37-54 | Place by place: redaction adds no place, keeps everything under no secret key, long texts cut and marked, and leaves the mark alone under a secret one |
| Redaction.HarmlessIsKept | app/audit.py:37-54 | Details without a secret key and without a text over the limit are stored as they are |
| Redaction.SensitiveIff | app/audit.py:44-45 | A key is secret exactly when, in lower case, it has one of the listed words in it |
| AuditTheorems.ValidIffChain | app/audit.py:272-332 | The verifier answers valid exactly when no row is legacy, the rows by sequence form a chain, and the stored head is the chain's head |
| AuditTheorems.VerdictSays | app/audit.py:272-332 | The whole answer: the counts, the stored head, and the first fault found, each holding exactly of the rows walked and the head |
| AuditTheorems.RowsWalked | app/audit.py:274-283 | The rows walked are the organisation's numbered and hashed ones, each once, by number, then time, then id |
| AuditTheorems.ValidIffSomeOrderIsChain | app/audit.py:274-283 | The verdict ignores storage order and timestamps: valid means some listing of the organisation's rows is a chain ending at the stored head |
| AuditTheorems.ChainOrderIsCanonical | app/audit.py:281-283 | Any listing of the rows that is a chain is the listing the verifier walks |
| AuditTheorems.FirstErrorIsFirstUnsound | app/audit.py:285-310 | The reported entry is the first unsound one: its whole prefix is sound, it is not, and the reported head is the last sound hash |
| AuditTheorems.RaisesIffVersionLost | app/audit.py:246-303 | The verifier raises exactly when the first unsound entry is numbered and linked but has no chain version |
| AuditTheorems.LostVersionRaises | app/audit.py:246-252 | A lone first entry, rightly numbered and linked, without a chain version makes the verifier raise |
| AuditTheorems.SharedHashPinsPrefix | app/audit.py:74-130 | Two sound chains sharing the hash of entry n hold the same events and chain metadata in their first n entries, or exhibit a collision at one position |
| AuditTheorems.TamperEvidence | app/audit.py:272-332 | Two row sets that verify against one stored head hold the same events in the same order, or exhibit a collision |
| AuditTheorems.WriteElsewhere | app/audit.py:133-223 | A write to a chain with another key never changes a verdict |
| AuditTheorems.WriteDisturbsIffKeysClash | app/audit.py:57-61 | A write for another organisation leaves a valid chain valid exactly when the chain keys differ |
| AuditTheorems.KeysClashIff | app/audit.py:57-61 | Two organisations share a chain key exactly when each is the system, has an empty id or bears the reserved key |
| AuditTheorems.ReservedIdBreaksSystemChain | app/audit.py:57-61 | After one system entry, the first entry of an organisation with an empty or reserved id makes the system chain invalid |
| AuditTheorems.WriteKeepsChain | app/audit.py:154-223 | Appending to a verifiable or unopened chain leaves it verifiable, whatever the clock says |
| AuditRuns.StepKeepsSound | app/audit.py:133-223 | Every write or rebuild keeps every opened chain valid and every unopened one empty |
| AuditRuns.EveryRunKeepsEveryChain | app/audit.py:133-223 | Any interleaving of writes and rebuilds for any organisations leaves every touched chain valid |
| AuditRuns.EveryRunFromEmpty | app/audit.py:133-223 | From an empty database on, every chain ever written or rebuilt verifies and an untouched one has no rows |
| AuditRuns.RunKeepsEvents | app/audit.py:133-365 | Writes and rebuilds never change an event that is stored, and keep all details clean |
| AuditRuns.EveryRunIsClean | app/audit.py:173-209 | From an empty database on, no stored row ever carries a secret value |
| AuditRebuild.RelinkLinks | app/audit.py:353-359 | The rebuilt rows form a chain, keep their events and carry the current version |
| AuditRebuild.BackfillIsValid | app/audit.py:335-365 | A rebuild from any mix of legacy, broken and chained rows ends in a valid verdict |
| AuditRebuild.BackfillTouchesOnlyMetadata | app/audit.py:336-338 | A rebuild changes only chain metadata of the organisation's own rows and its own chain state |
| AuditRebuild.RebuildNumbersByTime | app/audit.py:340-359 | A rebuild numbers the organisation's rows from one on, lower the earlier the event and, at one time, the lower its id |
| AuditRebuild.BackfillElsewhere | app/audit.py:340-348 | A rebuild never changes another chain's verdict |
| AuditRebuild.BackfillIsIdentityIff | app/audit.py:335-365 | A rebuild is the identity exactly on valid chains of current-version entries whose sequence order is their time order |
| AuditRebuild.BackfillIsIdempotent | app/audit.py:335-365 | Rebuilding twice is rebuilding once |
| AuditRuns.RebuildingEveryChain | scripts/audit_chain.py:87-95 | Rebuilding a list of chains one after another leaves each of them, and every chain valid before, valid |
| AuditStore.AuditTables.LockChainState | app/audit.py:133-151 | Returns the stored head or opens the chain at zero |
| AuditStore.AuditTables.WriteAudit | app/audit.py:154-223 | Appends a row that records the request field by field, its details redacted and those with nothing to hide unchanged; it bears the next number, links to the head, hashes link and record, and becomes the head |
| AuditStore.AuditTables.VerifyAuditChain | app/audit.py:272-332 | The early-exit loop computes the declarative verdict |
| AuditStore.AuditTables.RelinkRows | app/audit.py:351-359 | The rebuild loop writes back the relinked rows one by one |
| AuditStore.AuditTables.BackfillAuditChain | app/audit.py:335-365 | Ends in the rebuilt tables and returns a valid verdict |
| Text.LowerIsByWord | app/schemas.py:1972 | What is used of lower-casing is met by the letter-by-letter mapping of Latin and Russian letters |
| Text.NormalizeTwice | app/schemas.py:1972 | Name normalisation is idempotent, for every lower-casing that works word by word |
| Text.AnswerNormalForm | app/services/flows.py:199-201 | An answer is normalised to the same form as a choice name |
| Text.LabelNormalForm | app/services/flows.py:206-210 | Labels compared without stripping have the same normal form |
| FlowNodes.NormalizeAliases | app/schemas.py:1964-1977 | The loop keeps the first occurrence of each non-blank name and drops the label |
| FlowNodes.KeptAliasesAre | app/schemas.py:1964-1977 | The aliases kept under a label that names something are the other non-blank names given, each once; under a blank label, the names after the first |
| FlowNodes.OccurrencesInOrder | app/schemas.py:1968-1976 | Names are kept in the order in which they first occur |
| FlowNodes.NormalizeAliasesIdempotentIff | app/schemas.py:1964-1977 | A second pass changes nothing exactly when the label is not blank or at most one alias is left |
| FlowNodes.NormalizeAliasesKeepsNamesIff | app/schemas.py:1964-1977 | The set of names survives exactly when the label is not blank or there is no alias |
| FlowNodes.SpaceLabelLosesNames | app/schemas.py:1970-1976 | A label of one space with the aliases a and b: after normalisation a is no longer a name |
| FlowNodes.BlankLabelLosesWords | app/schemas.py:1970-1976 | Under the service's normal form any blank label loses the first of two words at the first pass and the second at the next |
| FlowNodes.ChoicesAreUnique | app/schemas.py:2008-2014 | The nested loop accepts exactly when all normalised names are pairwise different |
| FlowNodes.UniqueIffApart | app/schemas.py:2005-2014 | The check accepts exactly when at most one label is blank and no two options keep a name in common; repeats inside one option never reject |
| FlowNodes.SpaceLabelsAreRefused | app/schemas.py:2005-2014 | Two options labelled with a space and named a and b share no name and are refused |
| FlowNodes.ServiceNamesUniqueIffApart | app/schemas.py:2005-2014 | The same condition for the service's own normal form |
| FlowNodes.ValidateNode | app/schemas.py:1994-2021 | A step passes exactly when its text, field, next step and options fit its type; each error is raised exactly under its condition, in the order of the checks |
| FlowGraph.Walker.Walk | app/schemas.py:2050-2067 | The search terminates, expands a step at most once even when it ends at a cycle, finishes only steps below its start, and fails only on a real cycle |
| FlowGraph.WalkFrom | app/schemas.py:2053-2068 | The search fails exactly when a cycle is reachable, and otherwise visits exactly the reachable steps |
| FlowGraph.CollectReferences | app/schemas.py:2039-2048 | Builds the link table or names the first unknown target of the first offending step |
| FlowGraph.TargetsMean | app/schemas.py:2041-2044 | A step links to its next step and the next steps of its options and to nothing else |
| FlowGraph.TextLeMeans | app/schemas.py:2068-2070 | Ids are compared as texts: a start comes first, else the lower character at the first difference |
| FlowGraph.SortedUnvisited | app/schemas.py:2068-2070 | Lists the unvisited steps, least id first |
| FlowGraph.ValidateGraph | app/schemas.py:2029-2073 | Each error is raised exactly under its declarative condition, in the order of the checks |
| FlowGraph.AcceptedIffWellFormed | app/schemas.py:2029-2073 | A flow is accepted exactly when ids are unique, links known, no cycle exists anywhere, every step is reachable and some step is terminal |
| FlowScripts.EveryScriptEnds | app/schemas.py:1994-2073 | Every path through an accepted flow is shorter than the number of steps, repeats none, and can stop only at a terminal step |
| FlowScripts.TerminalCheckIsRedundant | app/schemas.py:2071-2072 | The final terminal-step check never fires on steps that passed their own checks |
| FlowScripts.ParseFlow | app/schemas.py:1964-2073 | Options, steps and graph checked in turn accept exactly the well-formed normalised flows; parsing changes nothing but the aliases of options |
| FlowEngine.AnswerNamesOneOption | app/services/flows.py:202-213 | In a checked choice step an answer names at most one option |
| FlowEngine.SelectedIsTheOne | app/services/flows.py:202-213 | The option selected is the one option of the step whose label or alias the answer names; none is selected exactly when none is named |
| FlowEngine.CaptureFollowsALink | app/services/flows.py:190-292 | An accepted or existing answer always leads along a link of its step |
| FlowEngine.Process | app/services/flows.py:42-172 | On an accepted flow of at most fifty steps the engine never reaches its error exit and repeats no step. Each link it follows is a message step's, that of a step already answered, or that of the awaited answer: a choice goes where the one option named leads and stores its label, and that answer alone changes the candidate. It stops at a terminal step, at an answer refused or at a question that nothing answers yet |
| FlowEngine.Converse | app/services/flows.py:42-172 | All messages of a conversation together walk one script from the start step, passing no step twice; it is completed exactly at a terminal step, and from then on messages are not handled |
| Lockout.LoginAccount.Login | app/api/auth.py:67-117 | Succeeds exactly for an active, unlocked account with both checks passed, and then clears counter and lock; fails exactly for an active, unlocked account with one of them wrong, and then counts and, from the limit on, locks; refused and locked attempts change nothing |
| Lockout.GuessRateBound | app/api/auth.py:71-112 | From any account state, a window of length W without success lets at most maxFailures + floor(W / lock) guesses through |
| Lockout.GuessRateBoundIsReached | app/api/auth.py:71-112 | A fresh account gives away exactly that many, so no smaller bound holds |
| Lockout.NoLockWithoutDuration | app/api/auth.py:79-80 | With a duration of zero or less every guess is tested |
| Lockout.BoundedIffPositiveLock | app/config.py:57-58 | Guesses in one instant are bounded at all exactly when the lock duration is positive |
| Sessions.TokenTable.RefreshSession | app/api/auth.py:155-176 | Accepts exactly a stored, unrevoked, unexpired token of an active user; revokes it, links it to the new token of the same user, and changes no other row |
| Sessions.TokenTable.LogoutSession | app/api/auth.py:206-221 | Revokes the presented token if it is still unrevoked |
| Sessions.TokenTable.RevokeOwnSession | app/api/auth.py:281-290 | Finds only the user's own session and revokes it once |
| Sessions.TokenTable.RevokeOtherSessions | app/api/auth.py:323-336 | Revokes the user's other sessions; the count is the drop in live sessions |
| Sessions.TokenTable.ChangeUserPassword | app/api/auth.py:365-370 | Revokes every unrevoked token of the user |
| Sessions.StepKeepsLinks | app/api/auth.py:113-380 | Every handler keeps links leading to later tokens of the same user, no token replacing two, replaced tokens revoked |
| Sessions.EveryRunKeepsLinks | app/api/auth.py:113-380 | So does every run |
| Sessions.RunExtends | app/api/auth.py:142-380 | Rows are never removed or re-owned, and a revocation time, once set, never changes |
| Sessions.ChainsAreFinite | app/api/auth.py:168-176 | Replacement chains are acyclic and end within the table |
| Sessions.OnlyTheLastIsLive | app/api/auth.py:168-176 | Only the last token of a chain can be unrevoked |
| Sessions.ChainsAreDisjoint | app/api/auth.py:168-176 | The chains of two logins share no token |
| Sessions.RevokedIsFinal | app/api/auth.py:160-167 | A revoked token is refused after any further events |
| Sessions.AcceptedAtMostOnce | app/api/auth.py:155-176 | After an accepted refresh the same token is refused for ever |
| Sessions.PasswordChangeEndsSessions | app/api/auth.py:365-370 | After a password change no token of the user is accepted until the next login |
| Sessions.LiveSessionsAtMostLogins | app/api/auth.py:113-193 | Live sessions never exceed successful logins, and chains are exactly as many |
| Sessions.LiveIsSize | app/api/auth.py:323-336 | Live sessions are the user's unrevoked rows |
| DestinationStore.DestinationTable.BulkDestinationResult | app/api/destinations.py:246-432 | From the validation and the gateway's answers alone: a row is deferred exactly after one that made Telegram ask for a pause, else an error exactly if it has a parse error, is invalid or unresolved, else a duplicate exactly if its pair was stored or met before; the table gains exactly the destinations of the created rows, as the gateway described them |
| DestinationImport.ImportMeans | app/api/destinations.py:252-432 | The same for the import as a function, previews included |
| DestinationImport.LookMeans | app/api/destinations.py:267-325 | A row pauses the import exactly when it is valid and answered with an error that names a time to wait |
| DestinationImport.PreviewPredictsApply | app/api/destinations.py:252-461 | A preview changes nothing, and applying reports row by row what it reported, with ready turned into created |
| DestinationImport.ReapplyCreatesNothing | app/api/destinations.py:327-351 | A second apply creates nothing; rows created before become duplicates and all others keep their status |
| DestinationImport.ResumedImportIsComplete | app/api/destinations.py:253-325 | Repeating an import that Telegram interrupted stores the keys of one uninterrupted import |
| DestinationImport.EveryRowReported | app/api/destinations.py:252-281 | Each row is reported once, in order, and is deferred exactly after the first throttled row |
| DestinationImport.CountsAddUp | app/api/destinations.py:452-461 | Status counts add up to the rows, created is what the table gained, and only applying creates |
| DestinationStore.DestinationTable.CreateDestination | app/api/destinations.py:698-746 | Creates exactly when the gateway answers and chat and topic are new, with the fields it answered |
| DestinationStore.DestinationTable.RevalidateDestination | app/services/destination_validation.py:51-132 | Stores the chat, name and title resolved now unless the constraint refuses them, and disables exactly what cannot be written to; any other failure changes nothing |
| BatchValidation.ValidateBatch | app/api/destinations.py:155-229 | Id by id, from the gateway's answers for the stored rows alone: deferred after a pause, failed, write-forbidden or passed; and row by row what is stored. A refused flush changes nothing |
| BatchValidation.BatchIsRowByRow | app/api/destinations.py:157-211 | Each id is reported once, in order, by its stored row alone or as deferred after the first pause; exactly the caller's rows asked before it are checked |
| BatchValidation.BatchMeans | app/api/destinations.py:157-211 | The same for the batch as a function: every item and every row from the gateway's answers alone |
| BatchValidation.RefusedIffClash | app/api/destinations.py:228 | A flush is refused exactly when one of its writes repeats connection, chat and topic of another row as it stands by then |
| BatchValidation.BatchOnlyDisables | app/services/destination_validation.py:75-76 | A batch never enables a destination, disables one exactly with a write-forbidden item, and leaves unnamed and foreign rows alone |
| BatchValidation.BatchSummary | app/api/destinations.py:213-219 | Passed, failed and write-forbidden items add up to the ids up to the first pause, deferred ones to the rest |
| BatchValidation.CommittedIsSession | app/api/destinations.py:228 | In whatever order the session writes, a committed batch stores the session's rows, and a clash under the constraint is refused in every order |
| BatchValidation.UnchangedRowsDoNotMatter | app/api/destinations.py:228 | Whether the session also writes rows it did not change makes no difference to what is stored or refused |
| BatchValidation.BatchKeepsUniqueIff | app/services/destination_validation.py:67 | A committed batch keeps chat and topic unique exactly when no two topic-less destinations end at one chat |
| DestinationStore.CreateIffNew | app/api/destinations.py:707-717 | The null-aware duplicate query decides; the constraint never gets in the way, and a repeat is refused |
| DestinationRuns.EveryRunKeepsKeysUnique | app/api/destinations.py:144-461 | Over imports, creations, edits, deletions, safe re-validations and safe batches no two destinations of a connection share chat and topic, null topics included |
| DestinationRuns.EditsAndDeletions | app/api/destinations.py:787-978 | An edit changes label and switches of its own destination only; a deletion removes its own destination unless a campaign uses it |
| DestinationStore.RevalidationKeepsUniqueIff | app/services/destination_validation.py:67 | Re-validation breaks that exactly when it gives a topic-less destination the chat of another one |
| DestinationStore.RevalidationCanDuplicate | app/api/destinations.py:99-123 | Two concrete groups that end up with one chat |
| JobTables.ConditionsMean | app/api/connections.py:601-607 | The three-valued conditions select exactly the uncertain and the reviewable jobs; without the null test, jobs without a code would be missed |
| Rollout.ReleaseMeans | app/services/rollouts.py:83-136 | A release makes exactly the held jobs of the next batch pending, none due before the pause is over, and changes no other job |
| Rollout.ReleasedAreSpaced | app/services/rollouts.py:117-121 | Any two released jobs are due at least the campaign's spacing apart |
| Rollout.ReleasedInTurn | app/services/rollouts.py:95-121 | Held jobs are released by due time, creation time and id: the first when the pause is over, each one spacing after the one before |
| Rollout.ThresholdMeans | app/services/rollouts.py:62-77 | The limit is exceeded exactly when the rounded share of the batch's results other than sent is above it |
| Rollout.SettledMeans | app/services/delivery.py:953-1111 | From the jobs alone: when a run waits, asks for a checkpoint, goes on or ends; it ends completed exactly when as many jobs were sent as it has, partial when fewer but some, else failed, and its campaign with it |
| OperatorDesk.Desk.CancelActiveRuns | app/api/campaigns.py:302-315 | The loop cancels exactly the campaign's active runs |
| OperatorDesk.Desk.Cancel | app/api/campaigns.py:1454-1490 | Allowed exactly for an unfinished campaign without uncertain deliveries; cancels its work |
| OperatorDesk.Desk.Patch | app/api/campaigns.py:662-718 | Allowed exactly for a draft or paused campaign without uncertain deliveries; cancels its work and unschedules it |
| OperatorDesk.Desk.Pause | app/api/campaigns.py:1312-1315 | Pauses exactly a scheduled or running campaign |
| OperatorDesk.Desk.Abort | app/api/campaigns.py:1652-1697 | Allowed exactly for an active run with nothing uncertain or being sent; cancels its work and pauses the campaign |
| OperatorDesk.Desk.ResumeTelegram | app/api/connections.py:568-610 | Allowed exactly when not revoked, not flood-blocked and acknowledged where needed; retries reviewed jobs |
| OperatorDesk.Desk.ReleaseNextBatch | app/services/rollouts.py:95-136 | The loop releases the waiting jobs in order of due time, moves the run to its next batch and returns their number |
| OperatorDesk.Desk.FinalizeRun | app/services/delivery.py:953-1111 | Settling a run does exactly what the previous row says, on the tables themselves |
| OperatorDesk.Desk.Continue | app/api/campaigns.py:1535-1599 | Allowed exactly for an approved campaign's run at its checkpoint with held jobs in the next batch and nothing to review; releases that batch |
| OperatorDesk.Desk.RetryOneJob | app/api/jobs.py:104-142 | Allowed exactly for an unreviewed failed or skipped job of an active connection and a running, approved campaign |
| OperatorDesk.Desk.CancelOneJob | app/api/jobs.py:167-193 | Cancels work that is not uncertain and settles its run |
| OperatorDesk.Desk.ResolveOneJob | app/api/jobs.py:218-377 | Settles exactly an uncertain delivery; another attempt needs an active connection and a running campaign |
| OperatorDesk.Desk.Revoke | app/api/connections.py:636-674 | Revokes the connection and cancels its pending, retrying and reviewed jobs |
| OperatorEffects.CampaignGuards | app/api/campaigns.py:443-1490 | In plain terms, when each request about a campaign is let through |
| OperatorEffects.RunGuards | app/api/campaigns.py:1527-1697 | The same for continuing and aborting a run |
| OperatorEffects.JobGuards | app/api/jobs.py:92-377 | The same for retrying, cancelling and settling a delivery |
| OperatorEffects.ConnectionGuards | app/api/connections.py:295-674 | The same for requests about a connection |
| OperatorEffects.StoppedCampaign | app/api/campaigns.py:274-316 | A cancellation or edit cancels exactly the campaign's unsent jobs and runs under way, and takes its approval |
| OperatorEffects.AbortedRun | app/services/rollouts.py:139-180 | An abort cancels exactly the run's unsent jobs whose result is not unknown |
| OperatorEffects.ContinuedRun | app/api/campaigns.py:1583-1599 | Continuing moves the run to its next batch, releases it and sets the campaign running |
| OperatorEffects.RetriedOne | app/api/jobs.py:129-142 | A retry puts the one job back into the queue, due now and without its error |
| OperatorEffects.SettledOne | app/api/jobs.py:167-377 | Cancelling a job or settling an unknown result gives it that result and settles its run |
| OperatorEffects.ChangedCampaign | app/api/campaigns.py:733-1442 | What approving, starting, pausing and resuming leave of a campaign, and that nothing else changes |
| OperatorEffects.ChangedConnection | app/api/connections.py:295-674 | What each request leaves of a connection, and which of its jobs it retries or cancels |
| OperatorEffects.PublishingPaused | app/api/organization.py:81-154 | Stopping publication parks exactly the organisation's pending and retrying jobs |
| OperatorEffects.PublishingResumed | app/api/organization.py:157-230 | Restarting it makes exactly the jobs the stop parked pending again |
| OperatorEffects.StageLowered | app/services/pilot_stages.py:725-774 | Lowering the stage pauses exactly the campaigns above it that are on their way and parks their unsent jobs |
| OperatorSteps.StepMoves | app/api/jobs.py:92-377 | Whatever one operator request does to a job, it is one of the listed moves, and the listed request alone brings it about |
| OperatorRuns.FixedChangesIffTargeted | app/api/jobs.py:92-377 | Over any operator requests a job that is finished, being sent or uncertain ever changes exactly when it is retried or its delivery resolved by hand |
| OperatorRuns.FinalNeverChanges | app/api/jobs.py:105-111 | A sent or cancelled job, one being sent, and a failed or skipped one settled by hand never change |
| OperatorRuns.OthersLeaveJobsAlone | app/api/connections.py:596-674 | Operator requests of other organisations never touch a job |
| OperatorRuns.CancelledRunStays | app/services/delivery.py:972-976 | No operator request resurrects a cancelled run |
| OperatorRuns.CampaignQuietUntilRetried | app/api/campaigns.py:271-316 | After a cancel or edit the campaign's jobs have a result or are being sent and its runs are idle; over any later operator requests they ever change exactly when one of its jobs is retried |
| OperatorRuns.RetryOutlivesEdit | app/api/jobs.py:104-142 | A failed job of an edited campaign that was approved again is retried |
| OperatorRuns.RevokedUntilReleased | app/api/connections.py:655-674 | After a revocation, with no authorisation open, a job of the connection ever becomes ready to go out exactly when it was held and some operator request releases its batch |
| OperatorRuns.RevokedUntilAuthEnds | app/api/connections.py:309-382 | A revoked connection ever leaves that status exactly when an authorisation still open for it ends |
| OperatorRuns.AuthReopensRevoked | app/api/connections.py:309-382 | Completing an open authorisation makes a revoked connection active |
| OperatorRuns.HeldJobOutlivesRevocation | app/services/rollouts.py:95-121 | A held job is pending on its revoked connection once its run is continued |
| OperatorSteps.ResumeRetriesExactly | app/api/connections.py:596-610 | Resuming changes exactly the reviewed jobs, those without an error code included |
| OperatorRuns.CancelledIsFinal | app/api/campaigns.py:1455-1490 | Over any later operator requests a cancelled campaign, its jobs and its runs stay exactly as the cancellation left them |
| Splicing.SpliceInReverse | scripts/document_functions.py:425-426 | Splicing blocks in at original indices, last first, equals interleaving them |
| Splicing.UndoRestores | scripts/document_functions.py:425-426 | Deleting the inserted blocks restores the lines |
| JsDocInserter.HasPrecedingComment | scripts/document_functions.py:396-405 | The cursor loop finds whether the nearest non-blank line above is a comment |
| JsDocInserter.DocumentJavaScript | scripts/document_functions.py:408-429 | Every line stands in order, behind three lines for each undocumented definition up to it; directly above an undocumented definition stand the comment's three lines; nothing else is added and the count is their number |
| JsDocInserter.UndoRestoresFile | scripts/document_functions.py:411-426 | Deleting the three lines at each reported place restores the original file |
| JsDocInserter.SecondRunInsertsNothing | scripts/document_functions.py:408-429 | Afterwards every definition has a comment above it and a second run changes nothing |
| JsDefinitions.DefinitionShape | scripts/document_functions.py:373-393 | A recognised definition is a blank indent and code beginning with a letter, `_` or `$`; its name is an identifier and no control word |
| JsDefinitions.DefineMeans | scripts/document_functions.py:373-393 | A line is a definition of that indent and name exactly when it can be cut as one of the three patterns says, the first that gives no control word deciding |
| JsDocInserter.CommentMeans | scripts/document_functions.py:404-405 | A line is a comment exactly when behind blanks it starts with two slashes or before blanks ends with a star and a slash |
| JsDocInserter.BlankMeans | scripts/document_functions.py:400 | A line is blank exactly when it holds blanks only |
| JsDocInserter.ScriptIsSensible | scripts/document_functions.py:373-405 | The script's own three patterns and its blank and comment tests meet what the previous rows assume |
| JsDocInserter.ScriptRunsOnce | scripts/document_functions.py:373-429 | On any file a second run inserts nothing, every definition is commented by then, and deleting the inserted lines restores the file |
| Analytics.CountStatuses | app/api/analytics.py:228-230 | The counter holds each status' number of rows and adds up to all rows |
| Analytics.StatusRowsAddUp | app/api/analytics.py:111-121 | Status rows add up to their counter, unlabelled statuses included |
| Analytics.StatusRowsMean | app/api/analytics.py:111-121 | Status rows list every status that occurs, once and with its count: labelled ones in the labels' order, then the others sorted |
| Analytics.CampaignReport | app/api/analytics.py:247-267 | The campaigns with deliveries, each once, its deliveries counted status by status, the busiest first; before truncation the rows add up to the totals |
| Analytics.DailyReport | app/api/analytics.py:385-432 | One point per local day, counting that day's sent and failed deliveries, conversations, inbound messages, candidates and ready candidates |
| Analytics.DailyAddsUpIff | app/api/analytics.py:385-432 | For rows of any kind, daily figures add up to the total exactly when no counted row falls outside the listed days |
| Analytics.DateGoingBackLosesDelivery | app/api/analytics.py:391-401 | In a zone whose date goes back a delivery is in the total and on no day |
| Analytics.DailyConserves | app/api/analytics.py:385-432 | In zones whose date never goes back, all six daily series add up to their totals |
| LatestAssessments.LatestIffLast | app/observability.py:359-384 | The two-stage grouping lists exactly the rows that are their organisation's last by creation time and id |
| LatestAssessments.LatestIsOnePerOrganization | app/observability.py:359-384 | Every assessed organisation is listed exactly once |
| LatestAssessments.Gauges | app/observability.py:395-488 | The loops count exactly the organisations whose last assessment is missing or stale, and those freshly blocked |
| ChangeControl.ChangeDesk.Approve | app/api/changes.py:163-178 | Approves exactly a matching draft by somebody else, and records by whom |
| ChangeControl.ChangeDesk.Start | app/api/changes.py:331-363 | Starts exactly an approved change that passes verification, in maintenance where the type needs it |
| ChangeControl.ChangeDesk.StopMaintenanceMode | app/api/changes.py:233-246 | Stops exactly when no change of the organisation is in progress |
| ChangeControl.ChangeDesk.Complete | app/api/changes.py:390-408 | Completes exactly a change in progress that passes verification |
| ChangeControl.ChangeDesk.Fail | app/api/changes.py:440-446 | Fails exactly a change in progress |
| ChangeControl.ChangeDesk.Cancel | app/api/changes.py:478-489 | Cancels exactly a draft or approved change |
| ChangeControl.EveryRunIsSafe | app/api/changes.py:153-464 | In every reachable state maintenance is on under every risky change in progress, and everything approved or beyond was approved by another than its author |
| ChangeControl.EveryRunMovesForward | app/api/changes.py:170-487 | A change keeps its author, kind and organisation, and its status goes only where permitted moves lead |
| ChangeControl.LeadsForward | app/api/changes.py:170-487 | Permitted moves lead forward only: never back, and never out of a final status |
| ChangeControl.FinalIsFinal | app/api/changes.py:390-490 | Completed, failed and cancelled changes never change again |
| ChangeControl.OneUserCannotStart | app/api/changes.py:172-173 | One user acting alone never gets a change approved or started |

## Left out

- Execution fencing, delivery attempts, preflight, capacity and continuity: where a modelled handler asks them, their answer is a flag of the request.
- The worker and the scheduler: runs of operator requests cover every handler that sets the status of a job, run, campaign or connection, and not the steps by which the worker sends and the scheduler creates runs, pauses campaigns and expires approvals. Creating campaigns and connections is left out too.
- The approval workflow beyond its outcome: a decision is recorded, approves or rejects; policies and quorums are a flag.
- Rollout.ThresholdExceeded: the failure percentage is rounded to two places exactly, not in binary floating point.
- Concurrency between requests: every request is one atomic step, so the unique-constraint race of two simultaneous imports is not modelled.
- Message texts of responses and audit details of the handlers: only statuses, fields and state changes are modelled.
- `updated_at`, `verified_at` and the other timestamps that no decision reads.
- Text.Lower: the letter-by-letter mapping of Latin and Russian letters and the Kelvin sign is what redaction lowers keys with; that is enough to find the ASCII words it looks for. Choice names are lowered by any mapping that works word by word.
- FlowEngine.Process: field formats (age, phone, e-mail, length limits) are one parameter that stores an answer or refuses it; candidate status, vacancy key and reply texts are left out.
- JsDefinitions.Define: Unicode's word characters and the wording of a comment are parameters; words are taken to be neither blanks nor parentheses.
- Analytics.CampaignReport: the report is modelled before it is cut to twenty rows; rates, funnels, template variants and the fixed range check are arithmetic on the same counters.
- The Python docstring inserter, which depends on syntax-tree positions.
- Cookies, JWT, Argon2, TOTP, encryption, HTTP, database connections and the web interface.
