# MAPP configuration service: verified models

This project models the parts of the configuration service whose correctness is a matter of interleaving,
of recovery, or of two independent descriptions agreeing, and proves what they promise. Every module is
ordinary Dafny; `dafny verify dfyconfig.toml` checks all of it.

| files | what they model |
|---|---|
| `OutboxModel`, `OutboxInvariants`, `OutboxTheorems`, `OutboxProgress`, `OutboxRecovery`, `OutboxPreflight`, `OutboxStore` | the semantic outbox and the definition registry: a leased work queue with claims, retries, parked events, asset generations and reset recovery |
| `DraftModel`, `DraftTheorems`, `DraftStore`, `ManagedReferences` | disposable drafts: publication records, the workspace, the proposals and the database journal, under a shared and an exclusive lock, with a crash possible after every step |
| `ApprovalModel`, `ApprovalInvariants`, `ApprovalTheorems`, `ApprovalStore` | approvals and their receipts, standing windows, grants and clients, device authorizations, tokens, sessions and the recovery epoch |
| `OAuthModel`, `OAuthTheorems`, `OAuthStore` | the authorization server's records: rotating refresh families with replay detection and a grace window, one-shot codes, the exchange of access tokens for single-use ones, consent, and what revocation and the epoch end |
| `CanonicalNumber`, `CanonicalText`, `CanonicalJson`, `Percent`, `Envelope` | canonical JSON (RFC 8785), percent-encoded paths and queries, and the execution envelope that is digested |
| `JsonPointer`, `JsonEdit`, `JsonHeap` | RFC 6901 pointers, workspace edits and their diffs, and the same edits in place on a mutable document |
| `Keyset` | keyset pages of the proposal directory, fed by a bounded heap |
| `PlanRows`, `PlanWalk`, `Expansion`, `SearchPath` | the estimators and guards of derived-layer queries |
| `SchemaModel`, `SchemaTheorems`, `LadderModel`, `LadderStages`, `LadderRows`, `LadderTheorems`, `LadderStore` | the migration ladder of the control schema: the data definition statements it uses with what makes the server refuse them, its eleven migrations and rollbacks, and the two procedures that step a database with rows up and down |
| `Wrappers` | `Option` and `Result` |

## How the models are built

A committed SQL transaction, or a statement outside one (connections are autocommit), is one atomic step.
A state machine is a `State`, a function per step, a `Step` datatype and a `Run` over any sequence of steps:
every interleaving is some sequence. Beside the steps stands a class whose fields are the tables; its methods
change them statement by statement, and each says which step function of the old state it computes. Secrets
are counters that never repeat, their hashes are the same numbers, and time is an integer that never goes back.

A control database is a catalogue (tables with columns, types, defaults, checks, references and indexes), rows
and a ledger. The scripts of the ladder are sequences of statements; a statement is refused when an object it
names is missing or in the way, or when a row fails what it newly demands, with checks that are unknown because
of a null passing. The services may replace the rows at any time by any rows that satisfy the structure.

Histories are part of the state where a property is about the past: the log of what happened to each approval,
the bindings ever written to a publication record, the assets ever cleaned up.

## Where the code and its own words differ

- `revoke_oauth_grant` says that the approvals are revoked in the transaction that revokes the grant. No
  transaction is open there, so each statement commits on its own: a receipt made under the grant can be
  redeemed after the grant is revoked and before its approvals are (`RevokedGrantStillRedeems`); revoking the
  grant alone changes no receipt (`WithdrawnGrantKeepsReceipts`), and the later statement stops every one of
  them (`SweptGrantNeverRedeems`). An approval asked for after that statement is not stopped: no window decides
  it, but a person can, and it is then redeemed (`RevokedGrantStillAsks`).
- `requeue_reset_semantic_repairs` puts an event back to pending and leaves the definition's status at
  `needs_repair`. Statuses stay exact if and only if no definition was waiting on a parked archive
  (`RequeueExactIff`).
- The ladder exists so that a forward migration can be undone and applied again. Rolling back to version 2 keeps
  single-use tokens and drops the columns that say what they are for; migration 3 then adds those columns empty
  and its check refuses every such token, so `migrate` fails whenever a store is first used. Down and up
  restores the structure if and only if this is not the case (`DownAndUpIff`, `RollbackStrands`); it is the only
  thing that can stop either procedure (`MigrateSucceedsIff`, `RollbackReaches`).
- A register waits for any undelivered archive of another asset with its name, also a later one: two create and
  drop rounds without a delivery in between never drain (`TwoRoundsNeverDrain`).
- Recovery behind the gate requeues a reset archive and recovery's own current registration, as the operations
  guide says, and no other registration. One that was parked when a reset began is lost once archives are queued
  and recovery has run: it waits for the gate, the gate waits for its successor, and archiving again deadlocks it
  (`ParkedRegistrationIsLost`); the guide does not mention this case. A name drains if and only if it has neither such
  a deadlock nor such a trap (`DrainsIff`). The preflight of the reset command, which queues archives only over a
  delivered outbox, is what prevents the trap, and it always does (`PreflightNeverTraps`).
- `_check_domain` walks the values of an object and not its member names, so a value it admits can still fail to
  serialize; it does exactly when a name has an unpaired surrogate (`AdmittedCanonicalizesIff`).
- An integral number has one text, as integer and as float, exactly below 10^21 in magnitude
  (`SpellingsAgreeIff`).
- `_literal_series_range_rows` multiplies the lengths of the series of one range, but a range of several functions
  yields as many rows as its longest. The product bounds the rows if and only if no series is empty or all are
  (`ProductBoundsIff`): an empty series beside one of 200000 is bounded at nought (`EmptySeriesHidesLong`), and
  only the limit on each call keeps it out (`CallLimitsBound`).
- `_check_segment` refuses other spellings so that one path has one digest. An accepted value has one spelling if
  and only if each of its characters is unreserved, a percent sign or an unpaired surrogate (`OneSpellingIff`);
  any other character may be written out or escaped. The query is digested by its pairs, whatever their spelling.
- `redeem` says that an expired token's binding is not found. The statement looks at the grant only: in every run
  a read operation's token redeems for its request if and only if its grant is live (`ReadRedeemsIff`), long after
  it has expired and introspection calls it inactive (`ExpiredReadTokenRedeems`).
- The exchange budget is counted from the tokens already written. Along a run it is kept throughout if and only if
  each admitted exchange had room among the written tokens and the exchanges under way (`BudgetHoldsIff`,
  `CanMintIff`). The check asks for the first only, so exchanges that race exceed the budget by any number
  (`RacingExchangesExceed`).
- The cached row estimate never depends on what was asked before if the plan's CTE references are acyclic
  (`EffectiveIsPlain`); on some cyclic plans it does (`CyclicPlansDependOnOrder`).

## Model

| member | source | states |
|---|---|---|
| OutboxTheorems.DeliveredPrefix | config-ui/derived_layers.py:5263-5351 | in every reachable state the delivered events of a name are a prefix of its creation order, and at most one event of a name holds a claim, although leases expire and late workers still report |
| OutboxTheorems.SuccessorWaits | config-ui/derived_layers.py:5286-5325 | a register that succeeds an asset is claimed or delivered only after every event of its predecessor |
| OutboxTheorems.ClaimableIff | config-ui/derived_layers.py:5289-5325 | an event is claimable if and only if it is the earliest undelivered event of its name, pending or retrying, available, free of a lease, and no register facing an undelivered archive of another asset |
| OutboxTheorems.ProfilesFollowEvents | config-ui/derived_layers.py:5505-5521 | every definition has exactly one event of its asset and generation, and its status and revision agree with it across refresh, replace, late delivery, parking and reset recovery |
| OutboxTheorems.ExactRun | config-ui/derived_layers.py:5606-5615 | in every run without the requeue of all parked archives each definition has the one status its current event calls for |
| OutboxTheorems.RequeueExactIff | config-ui/derived_layers.py:5617-5645 | that requeue leaves the statuses exact if and only if no definition is current on a parked archive |
| OutboxTheorems.GateOpensRecovered | config-ui/derived_layers.py:5999-6064 | completing a reset opens the gate only for its owner, and only when every definition whose current event is a recovery registration is ready, with every event of its name delivered |
| OutboxInvariants.RunKeeps | config-ui/derived_layers.py:4956-4975 | the invariant of the registry and the outbox holds after every sequence of steps |
| OutboxProgress.DeliveredForGood | config-ui/derived_layers.py:5472-5521 | a delivered event is never changed, removed or renamed by any later run |
| OutboxProgress.DeadlockForever | config-ui/derived_layers.py:5311-5319 | a register and a later archive of another asset that wait for each other are delivered by no run |
| OutboxRecovery.DrainsIff | config-ui/derived_layers.py:5263-5351 | in every reachable state a name has a run that delivers all its events if and only if no unclaimed register of it waits for a later archive of another asset and none of its events is trapped: parked out of reach behind a gate that no worker can complete, with a register of the name that archiving once more would deadlock |
| OutboxRecovery.DoomedForever | config-ui/derived_layers.py:5797-5997 | a trap stays a trap in every run, until queueing archives turns it into a deadlock, which stays too |
| OutboxRecovery.RecoveryReports | config-ui/derived_layers.py:5797-5997 | recovery lists, each once, the re-registered definitions in name order and then exactly the other definitions of which it requeued an event |
| OutboxPreflight.ParkedRegistrationIsLost | config-ui/derived_layers.py:5927-5975 | from every reachable state, a current registration that is parked when a reset begins is delivered by no run once archives are queued and recovery has run, and its name never drains |
| OutboxPreflight.PreflightNeverTraps | config-ui/app.py:1656-1695 | in every run that queues archives only over a delivered outbox the gate never gets stuck, and a name drains if and only if no two of its rounds block each other |
| OutboxRecovery.HeadDeliversIff | config-ui/derived_layers.py:5286-5325 | in every reachable state the earliest undelivered event of a name, pending, claimed or parked, has a run that delivers it if and only if it neither waits unclaimed for a later archive of another asset nor holds the gate against its own repair |
| OutboxProgress.TwoRoundsNeverDrain | config-ui/derived_layers.py:5204-5240 | two undelivered create and drop rounds of one name stay undelivered in every continuation |
| OutboxStore.DerivedLayerStore.Create | config-ui/derived_layers.py:4722-4866 | creation inserts the definition and its register event together, or refuses and changes nothing |
| OutboxStore.DerivedLayerStore.Drop | config-ui/derived_layers.py:5192-5261 | a drop removes the definition and enqueues its archive one generation up |
| OutboxStore.DerivedLayerStore.ClaimSemanticEvents | config-ui/derived_layers.py:5263-5351 | the scan returns claimable events in creation order, at most the limit; no claimable event is passed over for a later one or while there is room; exactly the returned rows get the new lease, and every other row is left as it was |
| OutboxStore.DerivedLayerStore.MarkDelivered | config-ui/derived_layers.py:5472-5521 | a report is taken only with the claim the event still holds, and moves the definition only if the event is its current one |
| OutboxStore.DerivedLayerStore.MarkRetry | config-ui/derived_layers.py:5523-5572 | a retry frees the claim and postpones the event |
| OutboxStore.DerivedLayerStore.MarkRepair | config-ui/derived_layers.py:5574-5615 | parking frees the claim and marks the definition that is current on the event |
| OutboxStore.DerivedLayerStore.RequeueResetRepairs | config-ui/derived_layers.py:5617-5645 | requeuing touches parked archives only |
| OutboxStore.DerivedLayerStore.RepairSemanticProfile | config-ui/derived_layers.py:5647-5706 | a repair requeues the parked event of the name and sets its status back |
| OutboxStore.DerivedLayerStore.QueueSemanticArchives | config-ui/derived_layers.py:5708-5753 | every definition is archived in name order, each one once |
| OutboxStore.DerivedLayerStore.RecoverResetProfiles | config-ui/derived_layers.py:5797-5997 | recovery gives each lost definition a new asset that names its predecessor, requeues the parked archives and registrations of the reset definition by definition, and returns the re-registered names followed by those requeued and not yet listed; without a gate, or with another owner's, it is refused |
| OutboxStore.DerivedLayerStore.CompleteResetRecovery | config-ui/derived_layers.py:5999-6064 | the gate opens only for its owner and only when nothing is waiting |
| DraftTheorems.RunKeeps | config-ui/derived_drafts.py:48-73 | the invariant of drafts, records, publishers and sweeper holds after every sequence of steps, crashes included |
| DraftTheorems.RecordedNeverCleaned | config-ui/derived_drafts.py:244-268 | a draft that any publication record ever named is dropped by automatic cleanup in no run, wherever publishers and the sweeper crash and whatever the workspace names later |
| DraftTheorems.PreparedNeverCleaned | config-ui/derived_drafts.py:244-257 | writing the intent puts every draft it resolved out of reach of cleanup, whether or not the publication goes further |
| DraftTheorems.SettledNeverCleaned | config-ui/derived_layers.py:4652-4677 | an adopted draft is never cleaned afterwards |
| DraftTheorems.CleanupHitsExaminedRelation | config-ui/derived_layers.py:4696-4712 | every automatic drop hits the relation whose asset and generation are those of the examined draft, with no reset on, under a name the workspace does not hold, no other open proposal needs and no relation is built on, never recorded, and expired or turned down |
| DraftTheorems.SweepAdoptsIff | config-ui/derived_drafts.py:319-354 | with no lock held, one pass over an active draft adopts it if and only if no reset is on, the relation still is the draft, and the workspace names it, or the record met is committed, or no record names it and its own proposal was applied |
| DraftTheorems.SweepDropsIff | config-ui/derived_drafts.py:319-388 | with no lock held, one pass over an active draft drops it if and only if no reset is on, the relation still is the draft, none is built on it, and no workspace, record, proposal, lease or preview speaks for it, owned and turned down, owned and expired, or unowned and expired; then the relation goes and its row is closed, and otherwise the registry is unchanged |
| DraftTheorems.AdoptEachIff | config-ui/derived_layers.py:4652-4677 | adoption goes through if and only if every identity can be adopted, and then adopts those rows and no other |
| DraftTheorems.BindEachIff | config-ui/derived_layers.py:4621-4650 | binding goes through if and only if every identity can be bound, and then binds those rows and no other |
| DraftTheorems.OrphanRecordStays | config-ui/derived_drafts.py:259-268 | the record of a publisher that died holding it is removed by no run |
| DraftStore.DraftLifecycle.AdoptDrafts | config-ui/derived_layers.py:4652-4677 | one to a hundred identities under different names, with no reset on: all are adopted, or the call is refused and nothing changes |
| DraftStore.DraftLifecycle.BindDrafts | config-ui/derived_layers.py:4621-4650 | all of the identities are bound by their creator or an administrator, while active, unexpired, still the registered relation and not another proposal's, with no reset on, or nothing changes |
| DraftStore.DraftLifecycle.CleanupDraft | config-ui/derived_layers.py:4696-4712 | cleanup drops exactly the relation with the draft's identity and closes its row; it is refused while a reset is on, for another relation, an adopted draft or one that relations are built on, and returns normally for a draft already dropped |
| DraftStore.DraftLifecycle.DraftsForNames | config-ui/derived_layers.py:4592-4619 | the scan returns every active draft of the names, or fails exactly when one is no longer the registered relation |
| DraftStore.DraftLifecycle.PreparePublication | config-ui/derived_drafts.py:244-257 | preparation resolves and records in one go, or changes nothing |
| DraftStore.DraftLifecycle.CommitPublication | config-ui/derived_drafts.py:259-268 | the record is marked, the drafts adopted and the record removed; a failed adoption leaves the marked record |
| DraftStore.DraftLifecycle.PublicationState | config-ui/derived_drafts.py:270-286 | the scan of the records yields the state of some record naming the draft, and none exactly when there is none |
| DraftStore.DraftLifecycle.NeededByOthers | config-ui/derived_drafts.py:358-364 | the scan of the proposals finds another open one that needs the name exactly when there is one |
| DraftStore.DraftLifecycle.Settle | config-ui/derived_drafts.py:319-372 | the branches of reconciliation come to the decision of the model, binding at most the examined row |
| DraftStore.DraftLifecycle.ReconcileOne | config-ui/derived_drafts.py:319-388 | a whole pass is lock, decision, one database call and release |
| ManagedReferences.ManagedReferences | config-ui/derived_drafts.py:104-130 | the walk with a pending stack ends and finds what recursion over the document finds |
| ManagedReferences.FoundIffMentioned | config-ui/derived_drafts.py:104-130 | a relation name is found if and only if some text of the workspace mentions it, at any depth |
| ManagedReferences.LeftoverUnresolved | config-ui/derived_drafts.py:126-129 | a text that names the schema without a relation makes the result unresolved |
| ApprovalInvariants.RunKeeps | config-ui/control_schema.py:905-920 | in every interleaving the history of each approval is exactly what its row says, the row CHECKs hold, windows count their decisions and live authority carries the current epoch |
| ApprovalTheorems.RedemptionHistory | config-ui/control_plane.py:1655-1675 | an approval is redeemed at most once, after exactly one approving decision less than five minutes earlier, exactly one claim and no revocation, with the digest that was asked for |
| ApprovalTheorems.ReceiptSpendableIff | config-ui/control_plane.py:1655-1675 | a receipt can be spent if and only if some approval was asked for with this digest, approved less than five minutes ago, claimed as this receipt, and nothing else ever happened to it |
| ApprovalTheorems.RowChecksHold | config-ui/control_schema.py:905-934 | the CHECK constraints and the unique receipt index hold of every reachable table |
| ApprovalTheorems.FrozenHistory | config-ui/control_plane.py:1633-1645 | nothing but a revocation is ever added to the history of an approval that is spent, declined or revoked |
| ApprovalTheorems.WindowsCountDecisions | config-ui/control_plane.py:1374-1387 | a window's count is the number of approvals it decided, and a client has at most one live window per instance |
| ApprovalTheorems.WindowDecisionWasCovered | config-ui/control_plane.py:1457-1482 | every decision a window made was made while it was live for that client and instance and a live grant and an enabled client both covered the scopes |
| ApprovalTheorems.WindowOffNeverRedeems | config-ui/control_plane.py:1406-1423 | once a window is off it decides nothing more, and none of its approvals is claimed or redeemed in any later run |
| ApprovalTheorems.SweptGrantNeverRedeems | config-ui/control_plane.py:1683-1702 | after the statement that revokes a grant's approvals none of them is ever redeemed |
| ApprovalTheorems.RevokedGrantStillRedeems | config-ui/control_plane.py:827-864 | a run in which a receipt is redeemed after its grant was revoked |
| ApprovalTheorems.RevokedGrantStillAsks | config-ui/control_plane.py:1429-1490 | from every reachable state, an approval asked for under a grant that is revoked already is decided by no window, and a person's yes, a claim and a redemption spend it |
| ApprovalTheorems.LiveMeansCurrentEpoch | config-ui/control_plane.py:470-483 | every live approval, window, token, device and session was minted under the current epoch |
| ApprovalTheorems.NothingSurvivesTheEpoch | config-ui/control_plane.py:450-579 | from any database, after the epoch advances no approval, window, personal token, device authorization or session it held is decided, claimed, redeemed, authenticated or minted from, not even by a device poll that had read `approved`; the epoch is strictly larger |
| ApprovalTheorems.DeviceMintsOnce | config-ui/control_plane.py:1735-1800 | a device authorization mints at most one token, whatever polls race |
| ApprovalStore.ControlStore.CreateApproval | config-ui/control_plane.py:1425-1482 | the window's use and the row it decides are recorded together, and the row is decided exactly when a window covers it |
| ApprovalStore.ControlStore.ConsumeWindow | config-ui/control_plane.py:1364-1387 | the one covering window is counted up, or none is and none covers |
| ApprovalStore.ControlStore.DecideApproval | config-ui/control_plane.py:1572-1601 | a decision is taken once, on a pending, unexpired, unrevoked row |
| ApprovalStore.ControlStore.ClaimReceipt | config-ui/control_plane.py:1623-1645 | one receipt is minted for an approved row, and a second claim gets none |
| ApprovalStore.ControlStore.RedeemReceipt | config-ui/control_plane.py:1647-1681 | the row that matches is spent, and the same receipt then matches nothing |
| ApprovalStore.ControlStore.OpenApprovalWindow | config-ui/control_plane.py:1324-1362 | a window is opened, or found open, exactly for an enabled agent client after a recent sign-in |
| ApprovalStore.ControlStore.RevokeApprovalWindow | config-ui/control_plane.py:1406-1428 | the window and its unspent receipts go together |
| ApprovalStore.ControlStore.DisableOAuthClient | config-ui/control_plane.py:881-944 | the client, its windows and their unspent receipts go together |
| ApprovalStore.ControlStore.RevokeOAuthGrant | config-ui/control_plane.py:827-859 | uninterrupted, the grant and then its unspent approvals are revoked, by the call that found it live and by no other |
| ApprovalStore.ControlStore.StartDeviceAuthorization | config-ui/control_plane.py:1205-1277 | expired rows are dropped and a request queued, within both limits and only under a code nobody waits with |
| ApprovalStore.ControlStore.MintDeviceToken | config-ui/control_plane.py:1759-1795 | the consume is conditional and comes with the token it mints |
| ApprovalStore.ControlStore.AdvanceRecoveryEpoch | config-ui/control_plane.py:497-579 | personal tokens, grants, approvals and windows are revoked and sessions and device authorizations removed in one transaction |
| OAuthTheorems.FamilyNeverForks | mcp-auth/sql_store.py:262-441 | after any run, however rotations and retries race, every refresh family has exactly one token that is not spent, and the successors of each of its tokens lead to it |
| OAuthTheorems.UsedAtMostOnce | mcp-auth/sql_store.py:300-314 | in every interleaving a refresh token rotates, a code is taken, a single-use token is spent and a parked request is consented to at most once |
| OAuthTheorems.UsedAsIssued | mcp-auth/sql_store.py:932-967 | what was spent is a single-use token minted for this very operation and request, before it expired; a code was taken by its own client in time; no rotation and no retry began after its family's absolute deadline |
| OAuthTheorems.ReplayEndsTheGrant | mcp-auth/sql_store.py:448-503 | from the detection of a replay on, in every run, nothing of the family rotates, nothing under the grant rotates or is spent and none of its tokens is active, also where a retry or an exchange was under way |
| OAuthTheorems.RevokedGrantIsDead | mcp-auth/sql_store.py:711-735 | one write to the grant ends every rotation, spend and activity under it, in every continuation |
| OAuthTheorems.RevokedFamilyIsDead | mcp-auth/sql_store.py:515-530 | nothing of a revoked family ever rotates again |
| OAuthTheorems.NoOAuthRecordSurvives | config-ui/control_schema.py:525-557 | from any database, after the epoch advances no refresh token, code, access token, parked request or browser session it held is used or active in any run, whatever retries and exchanges were under way |
| OAuthTheorems.RefusalExplained | mcp-auth/sql_store.py:346-510 | of a known refresh token whose grant has a row, exactly one of a rotation and one of the six stated outcomes is due |
| OAuthTheorems.ReadRedeemsIff | mcp-auth/sql_store.py:969-991 | in every run, whatever becomes of the token, a read operation's token redeems for its request if and only if its grant is live |
| OAuthTheorems.ExpiredReadTokenRedeems | mcp-auth/introspection.py:197-220 | a run from the empty store after which such a token has expired, is not active and still redeems |
| OAuthTheorems.StepKeepsBudgetIff | mcp-auth/exchange.py:264-269 | with every grant within its budget, counting tokens of the window and exchanges under way, a step keeps that if and only if it admits no exchange of a grant whose budget is used up so |
| OAuthTheorems.BudgetHoldsIff | mcp-auth/exchange.py:253-269 | along every run each grant stays within its budget throughout if and only if every exchange was admitted with room |
| OAuthTheorems.CanMintIff | mcp-auth/exchange.py:264-292 | without another admission some continuation leaves a grant with n tokens in the window if and only if its tokens there and its fresh exchanges under way are at least n |
| OAuthTheorems.RacingExchangesExceed | mcp-auth/exchange.py:264-292 | for every n a run from the empty store leaves one grant with n tokens in the window |
| OAuthStore.SqlStore.RotateRefreshToken | mcp-auth/sql_store.py:262-513 | every branch does what the model says, and a token handed out is the family's only live one |
| OAuthStore.SqlStore.StartRefreshFamily | mcp-auth/sql_store.py:224-260 | the family and its one live token appear together |
| OAuthStore.SqlStore.WithdrawConsent | config-ui/control_plane.py:827-846 | uninterrupted, the grant and all its refresh families are revoked for good, by the call that found it live |
| OAuthStore.SqlStore.ConsumeAuthorizationCode | mcp-auth/sql_store.py:792-812 | an unexpired code is taken by its own client, and then by nobody |
| OAuthStore.SqlStore.ConsumeExchangedToken | mcp-auth/sql_store.py:932-967 | the token is spent exactly for its own operation and digest under a live grant, and then for nothing |
| OAuthStore.SqlStore.Introspect | mcp-auth/introspection.py:69-133 | a token is active exactly when it, its grant and the grant's client are |
| OAuthStore.SqlStore.Redeem | mcp-auth/introspection.py:158-220 | a single-use token is spent by the statement, any other is compared and left |
| OAuthStore.SqlStore.Exchange | mcp-auth/exchange.py:153-290 | a token B is issued exactly when the subject token, its grant, client, scopes and budget allow it |
| OAuthStore.SqlStore.ConsumePending | mcp-auth/sql_store.py:1085-1119 | a parked request is taken exactly with its form token, by the session it was shown to |
| OAuthStore.SqlStore.AdvanceRecoveryEpoch | config-ui/control_schema.py:529-557 | the OAuth tables of the sweep: no authority below the advance is left |
| LadderTheorems.LedgerAndStructureAgree | config-ui/control_schema.py:114-167 | after every sequence of migrations, rollbacks and writes, failed ones included, the ledger is {1..k} for some k, the structure is exactly the fold of migrations 1 to k, and every row satisfies it |
| LadderTheorems.MigrateSucceedsIff | config-ui/control_schema.py:144-163 | `migrate` brings every reachable database to version 11, applying the missing versions in order, if and only if it is not at version 2 with a single-use token in it |
| LadderTheorems.RollbackReaches | config-ui/control_schema.py:1353-1378 | with leave to lose data `rollback` always reaches its target, undoing exactly the versions above it newest first, whatever the rows are |
| LadderTheorems.RollbackRefusals | config-ui/control_schema.py:1341-1369 | without leave it changes nothing, and names the newest version above the target exactly when there is one; below zero and without a ledger it is refused |
| LadderTheorems.DownAndUpIff | config-ui/control_schema.py:1321-1339 | rolling a full database down to any version and migrating up restores ledger and structure if and only if the target is not version 2 with a single-use token in the database |
| LadderTheorems.RollbackStrands | config-ui/control_schema.py:1189-1212 | a run of migrate, one issued token and a rollback to version 2 after which `migrate` is refused |
| LadderTheorems.ReplacementRevokes | config-ui/control_schema.py:1034-1043 | after migration 11 no window is live, the receipts that windows decided and that could be spent are revoked, and every other approval is as it was |
| LadderTheorems.RollbackRevokes | config-ui/control_schema.py:1063-1070 | after its rollback the approvals that client windows decided name no window and cannot be spent, and every other approval is as it was |
| LadderRows.RollbackIsInverse | config-ui/control_schema.py:1163-1304 | each rollback is legal on what its migration builds and restores the structure before it: tables, columns, types, defaults, checks, references and indexes |
| LadderRows.BindingRunsIff | config-ui/control_schema.py:386-407 | migration 3 goes through if and only if no token is single use |
| SchemaTheorems.ExecConforms | config-ui/control_schema.py:372-409 | whatever a statement of the ladder does to any database, the rows that stay satisfy the structure it leaves |
| SchemaTheorems.CreatedAndDropped | config-ui/control_schema.py:1173-1186 | dropping the tables that a script created, in one statement, undoes the script, with its indexes |
| LadderStages.DefaultsSet | config-ui/control_schema.py:629-638 | the loop over the epoch tables sets exactly their defaults |
| LadderStore.ControlSchema.Migrate | config-ui/control_schema.py:114-167 | the loop over the migrations does what the model says, or leaves everything as it was |
| LadderStore.ControlSchema.Rollback | config-ui/control_schema.py:1321-1382 | the loop down the ledger does what the model says, or leaves everything as it was |
| CanonicalNumber.FollowsEcmaScript | config-ui/canonical.py:83-126 | the text of a float is that of ECMAScript's Number::toString |
| CanonicalNumber.TextDenotesValue | config-ui/canonical.py:83-126 | the text of a number denotes the number |
| CanonicalNumber.OneTextOneValue | config-ui/canonical.py:83-126 | two numbers have one text only if they are equal |
| CanonicalNumber.NumberShape | config-ui/canonical.py:107-126 | every number's text is an optional minus, a whole part without leading zeros, a fraction without trailing zeros if any, and an exponent with its sign and without leading zeros if any, after a single non-zero digit |
| CanonicalNumber.SpellingsAgreeIff | config-ui/canonical.py:92-116 | an integer and the float of the same value have one text if and only if the magnitude is below 10^21 |
| CanonicalText.FormatString | config-ui/canonical.py:142-155 | the loop over the characters yields the quoted text, and fails exactly on an unpaired surrogate |
| CanonicalText.QuotedUnique | config-ui/canonical.py:129-155 | a quoted string is read back in one way, whatever follows it |
| CanonicalText.SortKeyIsUtf16Order | config-ui/canonical.py:182-190 | byte order of the sort key is UTF-16 code-unit order |
| CanonicalText.SortKeyInjective | config-ui/canonical.py:182-190 | different names have different keys |
| CanonicalText.OrdersAgreeIff | config-ui/canonical.py:182-190 | the key and Python's own order disagree on two texts if and only if, where they first differ, an astral character meets one of U+E000 to U+FFFF |
| CanonicalText.Utf8Injective | config-ui/canonical.py:275-277 | different texts have different bytes |
| CanonicalJson.SortIgnoresOrder | config-ui/canonical.py:171-178 | the sorted members do not depend on the order of insertion |
| CanonicalJson.ValuesDelimited | config-ui/canonical.py:158-179 | a serialized value is read back in one way, whatever follows it |
| CanonicalJson.SameBytesIff | config-ui/canonical.py:275-277 | two values that canonicalize have the same bytes only if they are the same value, objects compared as maps; and the same value has the same bytes where its integral numbers are below 10^21 |
| CanonicalJson.SerializesIff | config-ui/canonical.py:158-179 | a value serializes if and only if its strings, names included, and its integers are in the domain |
| CanonicalJson.CanonicalizesIff | config-ui/canonical.py:275-277 | and what serializes can always be encoded, so the same condition decides whether it has canonical bytes |
| CanonicalJson.AdmittedCanonicalizesIff | config-ui/canonical.py:250-272 | an admitted value canonicalizes if and only if no member name has an unpaired surrogate |
| CanonicalJson.LoneSurrogateNameAdmitted | config-ui/canonical.py:268-272 | a value that is admitted and does not canonicalize |
| Percent.ComputeSegment | config-ui/execution_envelope.py:54-82 | the loop over the escapes refuses a segment for its first bad escape, and the later checks for the rest, in their order |
| Percent.AcceptedMeans | config-ui/execution_envelope.py:54-82 | an accepted segment spells the bytes of its value, and no separator is left in the value |
| Percent.QuotedAccepted | config-ui/execution_envelope.py:54-82 | every encodable text without a separator, other than a dot segment, has a spelling that is accepted and read back as that text |
| Percent.UnreservedOneSpelling | config-ui/execution_envelope.py:65-72 | a value of unreserved characters has one spelling |
| Percent.OneSpellingIff | config-ui/execution_envelope.py:40-82 | an accepted value has exactly one accepted spelling if and only if each of its characters is unreserved, a percent sign or a surrogate |
| Percent.SameTextIffSameBytes | config-ui/execution_envelope.py:73-76 | two spellings decode to one text if and only if they spell the same bytes |
| Percent.DecodesIff | config-ui/execution_envelope.py:74 | strict decoding succeeds on exactly the encodings and returns what was encoded |
| Percent.ComputeQueryPairs | config-ui/execution_envelope.py:111-146 | the parse and the loop with its set of seen names refuse a NUL, a field without an equals sign, what is no UTF-8, and a repeated name that is not repeatable, and pass the pairs on in order |
| Percent.QueryRoundTrip | config-ui/execution_envelope.py:111-146 | every list of pairs without such a repetition has a query that is read as that list |
| Envelope.ComputePathParameters | config-ui/execution_envelope.py:85-108 | the loop over the segments matches the template, checking and decoding each parameter, or refuses |
| Envelope.EnvelopeProper | config-ui/execution_envelope.py:149-211 | what is built is an object of exactly the twelve members, in their order, all different |
| Envelope.EnvelopeCanonicalizesIff | config-ui/execution_envelope.py:214-216 | it has a digest if and only if every string of the request can be encoded and its four JSON values are in the domain of canonical JSON |
| Envelope.SameDigestSameRequest | config-ui/execution_envelope.py:194-211 | two envelopes with equal canonical bytes agree on all twelve members, the query by its pairs |
| JsonPointer.PointerParts | config-ui/control_api.py:2296-2308 | the loop reads the parts or stops at the first bad escape |
| JsonPointer.FormatParses | config-ui/control_api.py:2296-2308 | every list of names has a pointer that is read back as that list |
| JsonPointer.ParsesIffFormatted | config-ui/control_api.py:2296-2308 | a pointer is accepted if and only if it is the pointer of some list, and then of one only |
| JsonPointer.EscapeUnescape | config-ui/control_api.py:2305-2307 | the two replacements in their order undo the escapes of section 4 of RFC 6901 |
| JsonPointer.IndexSpelling | config-ui/control_api.py:2311-2318 | a list index has one spelling |
| JsonEdit.DiffRestores | config-ui/control_api.py:2344-2410 | replaying the diff backwards restores the document, removed list items at their index |
| JsonEdit.SetReadsBack | config-ui/control_api.py:2373-2388 | what was set is read back at its path |
| JsonEdit.SetPreservesUnrelated | config-ui/control_api.py:2373-2388 | a set leaves everything off its path as it was |
| JsonEdit.UnsetPreservesUnrelated | config-ui/control_api.py:2395-2407 | an unset leaves everything off its path as it was, but for the later items of the one list |
| JsonEdit.UnsetShiftsDown | config-ui/control_api.py:2395-2407 | and whatever stood under a later item is read one index lower |
| JsonEdit.UnsetIffPresent | config-ui/control_api.py:2395-2407 | an unset succeeds if and only if its path can be read, and its entry holds what was read |
| JsonHeap.Memory.DeepCopy | config-ui/control_api.py:2349 | a copy is the same document in cells that nothing else uses |
| JsonHeap.Memory.Walk | config-ui/control_api.py:2369-2371 | following references down a path finds the cell of that part of the document |
| JsonHeap.DownReplaced | config-ui/control_api.py:2379-2387 | overwriting one cell of a tree edits exactly the document at that path |
| JsonHeap.Memory.ApplyOperation | config-ui/control_api.py:2353-2409 | one operation in place does to the document what it does to the value, and touches no other cell |
| JsonHeap.Memory.ApplyOperations | config-ui/control_api.py:2344-2410 | the in-place edit computes the candidate and the diff of the model, or its error; the input document, the submitted values and the entries already in the diff are never changed |
| Keyset.ProposalNames | config-ui/control_api.py:2779-2797 | one pass with the bounded heap yields the first names, as byte strings, of the descending sort below the cursor |
| Keyset.TopIsPrefix | config-ui/control_api.py:2790-2797 | the greatest elements of a set, sorted, are a prefix of the set, sorted |
| Keyset.BoundedCollectionItems | config-ui/control_api.py:161-196 | the byte counter is the length of the compact array, the page is cut where it would grow too long, and an item that fits no page fails it |
| Keyset.PageProgress | config-ui/control_api.py:401-418 | a page of a non-empty remainder is not empty |
| Keyset.WalkYieldsAll | config-ui/control_api.py:401-418 | following the cursors ends and yields every proposal exactly once, in the unpaginated order; it fails if and only if some proposal fits no page |
| PlanRows.EffectiveIsPlain | config-ui/derived_layers.py:4042-4116 | on every acyclic plan the cached estimate is the plain recursion, whatever was asked before |
| PlanRows.GeneratedIsPlain | config-ui/derived_layers.py:4015-4040 | on every acyclic plan the cached test for generated rows is the plain recursion |
| PlanRows.NeverBelowPlanned | config-ui/derived_layers.py:4042-4116 | on every plan, cyclic or not, an estimate is never below the planner's rows |
| PlanRows.MonotoneInBounds | config-ui/derived_layers.py:4042-4116 | on every plan larger bounds of generated rows never make an estimate smaller |
| PlanRows.CyclicPlansDependOnOrder | config-ui/derived_layers.py:4047-4050 | a cyclic plan on which the estimate of a node depends on an earlier question |
| PlanRows.PlanProbe.EffectiveRows | config-ui/derived_layers.py:4042-4116 | the recursion with its caches ends on every plan and is the function of the plan and the caches |
| PlanRows.PlanProbe.HasGeneratedRows | config-ui/derived_layers.py:4015-4040 | likewise for the test of generated rows, with its short cuts |
| PlanRows.PlanProbe.NestedLoops | config-ui/derived_layers.py:4118-4151 | over all nodes of an acyclic plan the nested loops are counted, the largest pair of input rows is the maximum, and the query is refused if and only if some node pairs more rows than the limit |
| PlanWalk.Walk | config-ui/derived_layers.py:3780-3835 | the walk with its explicit stack computes the recursive fold, and finds an invalid node exactly when there is one |
| PlanWalk.FoldCounts | config-ui/derived_layers.py:3806-3808 | the counters are the number of nodes, the height and the sum of the workers |
| PlanWalk.FoldAnswers | config-ui/derived_layers.py:3809-3834 | a running maximum exceeds a limit if and only if some node of the plan does |
| PlanWalk.ExceedsIffBreaks | config-ui/derived_layers.py:3853-3913 | each test of the probe fails exactly when the plan breaks the limit it is about |
| PlanWalk.ProbeResult | config-ui/derived_layers.py:3746-3915 | a plan is refused with exactly the limits it breaks, in their order, and accepted when it breaks none |
| Expansion.SeriesRowsIsLength | config-ui/derived_query_guard.py:567-579 | the count is the length of the emitted sequence for every start, stop and non-zero step |
| Expansion.RangeRows | config-ui/derived_query_guard.py:582-604 | a bound is given exactly when no running product exceeds the limit, and then it is the product of the lengths |
| Expansion.ProductBoundsIff | config-ui/derived_query_guard.py:588-604 | the product is at least the rows that the range yields if and only if no series is empty or all are |
| Expansion.RangeEnds | config-ui/derived_query_guard.py:582-587 | the rows of a range are those up to the end of its longest series |
| Expansion.EmptySeriesHidesLong | config-ui/derived_query_guard.py:601-603 | a range bounded at nought that yields twice the limit |
| Expansion.CallLimitsBound | config-ui/derived_query_guard.py:724-733 | with the limit on every call a range yields no more rows than the limit, and only then |
| Expansion.ExpansionGuard | config-ui/derived_layers.py:1326-1366 | the saturating estimate exceeds its limit if and only if the unbounded product of cells and multipliers does |
| Expansion.DiskSize | config-ui/derived_layers.py:1335-1339 | a hexagonal disk of radius k has 3k(k + 1) + 1 cells |
| SearchPath.ParseSearchPath | config-ui/derived_query_guard.py:1709-1756 | the scanner ends on every string and returns what the grammar says |
| SearchPath.ParsesIffSpelled | config-ui/derived_query_guard.py:1709-1756 | it returns these names if and only if the string is a list of quoted and bare names with these values |
| SearchPath.QuotedNamesRoundTrip | config-ui/derived_query_guard.py:1717-1736 | non-empty names, quoted with inner quotes doubled and joined with commas, are read back |

## Left out

- Rows between the steps of the ladder satisfy the types, NOT NULL and CHECK constraints; uniqueness and foreign keys of rows are not asked for, which only adds runs, and the witness of `RollbackStrands` satisfies them too.
- The advisory lock and the statement timeout of the ladder: each procedure is one transaction, so concurrent ones are in some order.
- Creation order of the outbox: an event's identity is its place in the outbox, so ties of `created_at` are broken by insertion.
- The draft check in refresh and replace: the outbox model allows both on an active draft, which only adds runs; the draft model has the check.
- Semantic field lists, reasons, audit lines and the `last_cleanup` columns: nothing reads them back.
- A transaction that is committed by the server after its client died: the drop of the sweep and the release of its lock are one step.
- File-system mechanics: a record or a proposal is replaced atomically, and the scan limits of the directory walks are not modelled.
- Floating-point rounding: a finite float is represented by its shortest decimal, the byte estimate of a plan is exact, and ratios are real numbers.
- `upper` and `lower` outside ASCII in the envelope and in plan node types; the reference pattern is a parameter of `ManagedReferences`, the character classes of Python are a parameter of `SearchPath`.
- Python's `sorted` and `heapq`: the first is an insertion sort in `CanonicalJson`, the second any heap whose first element is its least.
- Key order of dictionaries: documents are compared as Python compares dicts.
- The password hash and grants' subjects; windows bound to a grant, which no code opens any more.
- ApprovalTheorems.NothingSurvivesTheEpoch: the advance is one step, so a credential minted inside its transaction is not considered, as its own documentation assumes; the OAuth records that the same transaction sweeps are in `OAuthTheorems.NoOAuthRecordSurvives`.
- ApprovalStore.ControlStore.AdvanceRecoveryEpoch: the OAuth tables of the same transaction are in `OAuthStore.SqlStore.AdvanceRecoveryEpoch`.
- ApprovalStore.ControlStore.RevokeOAuthGrant: the statement on the grant's refresh families is in `OAuthStore.SqlStore.WithdrawConsent`; its last statement, on windows bound to a grant, meets none.
- Isolation of two rotations or retries of one refresh family: a rotation is one step and the write of a retry another, as the row locks order them.
- The fixed profile of the exchange request, the table of allowlisted operations, PKCE and redirect checks, client secrets, and the limits on parked requests.
- The grace window, the idle and the absolute period of refresh tokens are the defaults.
- Whether a relation has dependents, and which, is set by the environment of the draft model at any time.
- JsonHeap.Memory.ApplyOperations: the input is a tree, as parsed JSON is; a document that shares one object in two places is not considered.
- PlanRows: the order in which producers of one CTE name overwrite each other is given with the plan.
- Request plumbing, HTTP, database drivers, EXPLAIN, SQL text, cryptography, and the static rule and schema tables.
