# Anchor: the backend's protocols and algorithms, modelled and proved

Anchor answers customers' questions from a workspace's documents. This project models the parts of
its backend where correctness spans several statements, tables or processes, and proves what they
promise: charging for answers, the answer cache and its lock, membership and handoff, invitations,
metering of embedded chunks, and five algorithms (rate limiting, chunking, keyset paging, LIKE
escaping, rank fusion). `dafny verify dfyconfig.toml` checks all of it.

## How the model is laid out

A protocol is a state machine over the committed tables plus the requests and transactions in
flight. One event is one SQL statement, one Redis command or one transaction boundary. `Apply` gives
the next state, or `None` when the statement would wait for a lock; `Exec` runs a sequence of events,
and `Reachable` is any state some sequence leads to. A transaction's writes are kept with the
transaction and reach the tables at its commit, so every state's tables are committed tables. Any
request may stop for good between two statements, and any open transaction may roll back. Fields
such as `wrote`, `claims`, `charges` or `stamp` record history; no branch of the modelled code reads
them.

| module | models | events follow |
|---|---|---|
| `Quotas` | the counter per workspace and period, as a class | Backend/src/metering/quota.service.ts, statement by statement |
| `AnswerLedger`, `AnswerGuarantees`, `AnswerOutcomes`, `QuotaBound` | charging, persisting and replaying answers | `answer`, `persistAndReturn`, `findReplay` with `reserve`, `refund`, `reconcile` |
| `Citations` | resolving cited numbers | `resolveCitations` |
| `Membership`, `HandoffGuarantees`, `HandoffOutcomes` | roles, ownership, claims | `updateMemberRole`, `transferOwnership`, `endMembership`, `claim`, `resolve`, `recordEscalation`, `lockMembershipForShare` |
| `AnswerKey`, `AnswerCache`, `CacheCoherence`, `CacheOutcomes` | cache keys and coherence | `normalizeQuestion`, `buildKey`, `produce`, the three document writers |
| `CacheLock` | the single-flight lock | `acquire`, `release`, `waitForEntry`, the `finally` of `produce` |
| `Invitations`, `InvitationGuarantees`, `InvitationOutcomes` | the life of an invitation | `create`, `resend`, `revoke`, `recordDelivery`, `acceptAsExistingUser`, `acceptWithSignup` |
| `ChunkMetering`, `ChunkSets`, `ChunkOutcomes` | charging embedded chunks, replacing a document's chunks | the embedding processor, the chunk replacement, document removal |
| `EmbeddingJob` | one job's attempts, undisturbed, as a class | `process`, `saveAndMeter`, `onFailed` |
| `Runs`, `Common` | runs of any state machine, shared datatypes | |
| `TokenBucket`, `RateLimiter` | the limiter, as classes over a specification of one bucket | the TAKE and PEEK scripts, `takeLocal` |
| `Chunking`, `LikePattern`, `KeysetWalk`, `RankFusion` | the algorithms | `chunkText`, `containsPattern`, `listTurns`, the fusion query |

The `…Guarantees` modules say what no interleaving can break; the `…Outcomes` modules say what an
operation does achieve: where each of its checks refuses it, and that run on its own (`Alone`) it ends
at the tables its meaning gives.

In `AnswerLedger` a crash also stands for a refund that fails and for a reservation that commits but
is reported as failed: all three leave a unit behind. `CommitUnheard` is a commit that takes effect
although the client is told it did not. In `AnswerCache` and `CacheLock` a command may execute
after its caller has stopped waiting.

Assumed throughout: hashes are injective and tokens fresh; serial ids increase in arrival order (chunk
ids need only be fresh and, within one insert, increasing); clocks do not go backwards; reals stand for
floating-point numbers; statements run at READ COMMITTED, each on one snapshot.

## Where the code and its promises part

- A transaction whose commit takes effect while its acknowledgement is lost is refunded, although
  the code says nothing was delivered: the billable row stands (`UnheardCommitOversells`).
  Conversely the refund is right in every other case (`ChargedOrRefunded`).
- `reconcile` counts events by when they occurred, `reserve` charges the period current when the
  request began; an answer that straddles a period end is carried by both (`StraddlingAnswerCountsTwice`;
  what a reconciliation writes in every case, and when it only removes leaks, is `ReconcileIsExact`).
- A demotion releases the claims of a member who can no longer work them, but a claim whose share
  lock comes after that commit still succeeds, because the lock asks only whether the row exists
  (`ViewerCanHoldAClaim`, exact condition in `ClaimerWorksIfLockSawWork`). Setting a role the member
  already has writes no row, so its release is not ordered against claims at all
  (`RepeatedDemotionIsNotAtomic`, exact condition in `CommitsAreAtomic`).
- The schema says an instant belongs to exactly one period but constrains only period starts. Where two
  periods overlapped, one reservation would charge both and its refund give back one
  (`ChargesOneIffOneGrants`, `ReserveThenRefund`). `AnswerLedger` takes periods of a workspace to be disjoint.
- Every path that changes what retrieval sees is meant to bump the version, but the bump is a
  statement of its own: a writer that stops before it leaves old entries in force and its retry is a
  no-op (`LostBumpServesStale`; exactly when a change can be missed is `MissedIffStaleIsLeft`).
- "Already a member" is not "a member": the insert that does nothing locks nothing
  (`MemberGuaranteedIffInserted`, `AcceptedWithoutMembership`).
- The sentence branch of the boundary search does not look past a newline, so it need not find the
  last sentence end of its window (`EarlierLineWins`; exactly when it does is `BehindLastSentenceExactly`).
- A take that costs more than the capacity is given a retry time although it can never be granted
  (`RetryIsExact`). The field is described as the time to one token; it is the time to the whole cost.
- The lock allows a second holder once the first outlives its TTL (`ExpiredHolderIsJoined`, and exactly
  then or after its release, `GivenIffNoLiveOwner`), and a
  waiter may read the entry just before it is written and then find the lock gone. "Exactly one
  generation" is therefore not claimed.

## Model

| member | source | states |
|---|---|---|
| `AnswerGuarantees.LedgerBalances` | Backend/src/modules/answer/answer.service.ts:74-90 | In every reachable state, over all interleavings and crashes, a quota row's `used` is what the last reconciliation left plus billable answers charged since plus open reservations plus units leaked by crashes, and lies in 0..allowance |
| `AnswerGuarantees.ChargedOrRefunded` | Backend/src/modules/answer/answer.service.ts:79-90 | A request that took a unit and finished uncrashed refunded at most once, kept the unit exactly if it delivered a fresh billable answer, and "kept the unit" and "wrote a billable row" coincide exactly unless its commit took effect unheard |
| `QuotaBound.NeverOversold` | Backend/src/metering/quota.service.ts:95-151 | Over its whole life, through any number of reconciliations, a quota row is charged for no more billable answers, with what is open or leaked since the last reconciliation, than its allowance plus commits that took effect unheard and were refunded plus answers that strayed out of the period; with none of those two never more than the allowance |
| `AnswerGuarantees.ForgivenIsUnheard` | Backend/src/modules/answer/answer.service.ts:82-85 | Only a request whose commit took effect although it was told otherwise is refunded with a billable row standing |
| `AnswerGuarantees.BillableRowsCounted` | Backend/src/modules/answer/answer.service.ts:333-369 | Billable rows charged to a quota row and the requests that wrote them correspond one to one |
| `AnswerGuarantees.ReconcileIsExact` | Backend/src/metering/quota.service.ts:136-151 | With no request of the workspace in flight, reconciling writes `used` less the leaked units, plus units refunded although their row stands, plus answers that strayed into the period, less those that strayed out, capped at the allowance; it takes off exactly the leaked units if and only if additions and strays out are equal, or the allowance is reached without leaks and no less is added |
| `AnswerGuarantees.OneRowPerKey` | Backend/src/modules/answer/answer.service.ts:332-377 | At most one conversation row per workspace and idempotency key; rows and usage events correspond one to one and agree on workspace and billability |
| `AnswerGuarantees.RepliesComeFromRows` | Backend/src/modules/answer/answer.service.ts:386-408 | Every answer returned, fresh or replayed, is the stored one: under a key the one row of that key with its citations, status and tokens, without a key the row the request itself committed; a replay shows no retrieved chunks and no escalation reason, and a fresh one is its writer's |
| `AnswerGuarantees.SameKeySameAnswer` | Backend/src/modules/answer/answer.service.ts:69-72 | Any two requests with one workspace and key that return an answer return the same text, citations, status, distance, cache outcome and tokens; at most one is fresh, and replays show neither retrieved chunks nor an escalation reason |
| `AnswerGuarantees.LoserReplays` | Backend/src/modules/answer/answer.service.ts:370-377 | The loser of the unique constraint always finds the winner's row and goes on to deliver it as a replay |
| `AnswerGuarantees.KeyCostsOneUnit` | Backend/src/modules/answer/answer.service.ts:87-89 | In every reachable state, whatever runs or has crashed under a key: among its requests that are done exactly the writer of its row keeps a unit, if the row is billable and the writer was on a quota and heard of its commit, and otherwise none; the rest of what the key holds is held by running or crashed requests |
| `AnswerGuarantees.SettledKeyCostsOneUnit` | Backend/src/modules/answer/answer.service.ts:87-89 | As a corollary, a key whose requests are all done and heard of their commits costs one unit if its row is billable and was written on a quota, and nothing otherwise |
| `AnswerGuarantees.UnheardCommitOversells` | Backend/src/modules/answer/answer.service.ts:79-85 | A run in which an allowance of one meters two billable answers: a commit acknowledged as failed is refunded although its row stands |
| `AnswerGuarantees.StraddlingAnswerCountsTwice` | Backend/src/metering/quota.service.ts:136-151 | A run in which one answer, reserved in one period and committed in the next, is carried by both quota rows after a reconciliation |
| `AnswerLedger.RefundFindsUnit` | Backend/src/metering/quota.service.ts:126-131 | The guard of the refund never bites: a request about to refund always finds `used` above zero |
| `AnswerOutcomes.UpdateDecides` | Backend/src/metering/quota.service.ts:95-104 | Whatever runs beside it, a request that survives its reserving statement is let in on a unit of a current row with one left, which alone is charged, exactly if such a row exists at that instant, and otherwise goes on to the first probe with nothing changed |
| `AnswerOutcomes.CurrentDecides` | Backend/src/metering/quota.service.ts:106-113 | One that survives the first probe is turned away as used up exactly if a row of its workspace is current at that instant |
| `AnswerOutcomes.LatestDecides` | Backend/src/metering/quota.service.ts:115-120 | One that survives the second probe is turned away as ended if its workspace has any row at that instant, and let in free exactly if it has none |
| `AnswerOutcomes.LimitedIsPaid` | Backend/src/metering/quota.service.ts:16-18 | Once a workspace has a quota row, in every continuation of the run whoever arrives later and gets a fresh billable answer holds and keeps a unit of one of that workspace's rows; an ended period is never free use |
| `AnswerOutcomes.KeyAnswersAlone` | Backend/src/modules/answer/answer.service.ts:69-72 | A request whose key has a stored row is answered from it at once, as a replay, with no table changed |
| `AnswerOutcomes.TurnedAwayAlone` | Backend/src/modules/answer/answer.service.ts:74-77 | With no row that grants and some row of the workspace, a request run alone ends turned away, as used up exactly if a row is current and otherwise as ended, with no table changed |
| `AnswerOutcomes.AnsweredAlone` | Backend/src/modules/answer/answer.service.ts:74-90 | A request run alone from any reachable state, on a unit of any granting row or free where the workspace has no row, ends with its answer delivered as produced, its row and event stored under its key, and a unit gone exactly if it was on one and the status is answered or refused |
| `AnswerOutcomes.EscalationIsRecorded` | Backend/src/modules/answer/answer.service.ts:379-381 | In every run that ends with a fresh escalation settled or delivered to a request with a session, that request recorded the escalation |
| `Quotas.QuotaService.Reserve` | Backend/src/metering/quota.service.ts:95-121 | On any table: exactly one of four outcomes and when: a unit of a current period with units left, else nothing changes; used up with allowance and end of a row current at the second read, ended with the latest end of any row, or never had one; with disjoint periods just the one row is charged |
| `Quotas.QuotaService.UpdateGranting` | Backend/src/metering/quota.service.ts:96-104 | On any table the reserving UPDATE raises `used` by one on every row that grants and returns one of them, or finds none; with disjoint periods that is one row |
| `Quotas.QuotaService.SelectLatest` | Backend/src/metering/quota.service.ts:115-120 | The greatest period end of the workspace, none exactly if it has no row |
| `Quotas.QuotaService.Refund` | Backend/src/metering/quota.service.ts:126-131 | Gives one unit back to the reserved row, and changes nothing for any other outcome |
| `Quotas.QuotaService.Reconcile` | Backend/src/metering/quota.service.ts:136-151 | Sets a current period to its metered count, never above the allowance, reporting before and after, and with disjoint periods changes nothing else; no change when no period is current |
| `Quotas.QuotaService.CreateTrial` | Backend/src/metering/quota.service.ts:58-64 | A new row of 200 answers and seven days; a workspace without a period keeps periods valid and disjoint |
| `Quotas.QuotaService.ReserveThenRefund` | Backend/src/metering/quota.service.ts:95-131 | Refunding what was just reserved restores the table if and only if no two rows granted it |
| `Quotas.ChargesOneIffOneGrants` | Backend/src/metering/quota.service.ts:96-104 | The reserving UPDATE has no LIMIT; it charges just the row it returns if and only if no other row grants at that instant |
| `Quotas.OneCurrent` | Backend/src/database/migrations/1790790000000-CreateWorkspaceQuotas.ts:23-31 | With half-open periods that do not overlap an instant belongs to at most one period |
| `Quotas.AdjacentPeriods` | Backend/src/metering/quota.service.ts:109 | Where one period ends as the next begins an instant belongs to exactly one of them, with no gap and no overlap |
| `Citations.MatchAll` | Backend/src/modules/answer/answer.service.ts:430-433 | The scan finds exactly the numbers the text cites as a bracketed run of digits |
| `Citations.NumberReadsDigits` | Backend/src/modules/answer/answer.service.ts:432 | A cited run of digits is read as the number whose decimal digits it is, behind any leading zeros |
| `Citations.NumberReadsBack` | Backend/src/modules/answer/answer.service.ts:432 | A number written in decimal digits is read back as itself |
| `Citations.ResolveCitations` | Backend/src/modules/answer/answer.service.ts:429-454 | Exactly the cited numbers that name a chunk, each once, in ascending order; others dropped |
| `Citations.IncreasingIsUnique` | Backend/src/modules/answer/answer.service.ts:453 | An ascending list of given numbers is unique, so the result does not depend on the order of the set |
| `HandoffGuarantees.EveryWorkspaceHasAnOwner` | Backend/src/modules/workspaces/workspaces.service.ts:77-98 | In every committed state every workspace has an owner, over all interleavings of demotions, removals, departures and transfers, lock, count, write and commit being separate statements, and of joins that take no lock |
| `HandoffGuarantees.ClaimantsAreMembers` | Backend/src/modules/handoff/handoff.service.ts:280-291 | In every committed state a claimed session is claimed by someone still a member, who can still work it if the role the claim's share lock saw could |
| `HandoffGuarantees.ClaimerWorksIfLockSawWork` | Backend/src/modules/tenancy/membership-locks.ts:18-26 | At the commit of a claim its claimant can work the session if and only if the role seen under the share lock could |
| `HandoffGuarantees.ViewerCanHoldAClaim` | Backend/src/modules/tenancy/membership-locks.ts:18-26 | A run that ends with a viewer holding a claimed session: the share lock asks only for existence |
| `HandoffGuarantees.ClaimsAreConserved` | Backend/src/modules/handoff/handoff.service.ts:353-379 | From an empty table no session is ever open and no lookup ever finds one, and claims equal releases plus one if the session is now claimed or resolved |
| `HandoffGuarantees.SessionsOnlyAdvance` | Backend/src/modules/handoff/handoff.service.ts:318-326 | Through every run a session stays, resolved is final, the escalation time never moves, and a claimant is replaced only after a release |
| `HandoffGuarantees.CommitsAreAtomic` | Backend/src/modules/workspaces/workspaces.service.ts:127-171 | A transaction that commits does to memberships exactly what its operation means on the tables at that instant, although it read, checked and locked statements earlier, and to sessions too if and only if the member has claimed nothing since a role change released its claims, which it can have only if the role does not change |
| `HandoffGuarantees.RepeatedDemotionIsNotAtomic` | Backend/src/modules/workspaces/workspaces.service.ts:86-98 | A run in which setting a viewer to viewer has released, a claim by that viewer commits, and the commit leaves the session claimed where the operation at that instant would release it |
| `HandoffGuarantees.StepAdvances` | Backend/src/modules/workspaces/workspaces.service.ts:239-248 | One step resolves a session only from claimed, and otherwise changes its status by claim or release only |
| `HandoffOutcomes.ChecksAreExact` | Backend/src/modules/workspaces/workspaces.service.ts:222-231 | Over all interleavings a transaction rolls back by itself only where its operation is refused on the tables at that instant; the last check rolls back exactly then, an owner being refused exactly if no other owner is there, and the first read exactly if its row is not there |
| `HandoffOutcomes.OperationsRunAlone` | Backend/src/modules/workspaces/workspaces.service.ts:155-171 | With nothing else running, a claim, departure, role change or transfer ends at the tables its meaning gives whenever it gives any, and otherwise leaves them as they were |
| `HandoffOutcomes.MeaningForSessions` | Backend/src/modules/workspaces/workspaces.service.ts:239-248 | That meaning for the queue: a claim takes just the session it names; an end of membership or a change to viewer puts back just what the member has claimed, waiting since it first escalated; nothing else moves |
| `HandoffOutcomes.EscalationRunsAlone` | Backend/src/modules/handoff/handoff.service.ts:354-378 | A first escalation queues the session, waiting from now on; a later one leaves it as it is |
| `CacheCoherence.ServedAfterChanges` | Backend/src/cache/answer-cache.service.ts:58-76 | Coherence: any cached answer served to a request that has yet to read its identity was retrieved after every change committed before the workspace's present version was set, whichever writer changed and whichever bumped |
| `CacheCoherence.AnyBumpCoversAll` | Backend/src/modules/documents/processing/embedding/document-embedding.processor.ts:76-80 | One bump covers every change any writer had committed by then, also of a run that failed and whose retry bumped |
| `CacheCoherence.BumpedWriterIsCovered` | Backend/src/modules/documents/processing/document-processing.processor.ts:93-111 | A writer that has bumped is covered from then on, for all three writers, even if its workspace's id is reused |
| `CacheCoherence.MissedIffStaleIsLeft` | Backend/src/modules/answer/answer.service.ts:124-150 | A request that has yet to read its identity can be served an answer that missed a committed change if and only if such an answer is stored under the present version, or a request that retrieved too early for that version has yet to store it |
| `CacheCoherence.ServedIsOwn` | Backend/src/modules/answer/answer.service.ts:124-135 | A served entry has the request's workspace, public key, prompt version and normal form, was answered without history, and saw every change committed before the version read was set |
| `CacheCoherence.LostBumpServesStale` | Backend/src/modules/documents/documents.service.ts:106-113 | A run in which a removal stops between its delete and its bump, its retry is a no-op, and a later request is served an answer retrieved before the removal |
| `CacheOutcomes.QuestionIsLookedUp` | Backend/src/modules/answer/answer.service.ts:124-135 | From any state a question without history is served the entry under its workspace's public key and version, its prompt version and normal form if there is one, and misses exactly if there is none |
| `CacheOutcomes.MissIsWritten` | Backend/src/modules/answer/answer.service.ts:149-150 | A miss that is answered is written under that key with everything retrieval saw; one that is refused or escalated leaves nothing to write |
| `CacheOutcomes.WrittenIsFound` | Backend/src/cache/answer-cache.service.ts:89-92 | What is written is found: any question of the same workspace, prompt version and normal form asked before the version changes is served that entry |
| `CacheOutcomes.WriterIsGuarded` | Backend/src/modules/documents/processing/embedding/document-embedding.processor.ts:33-44 | A writer goes on exactly with a document that is there and, unless it removes it, is still pending; otherwise it ends with nothing changed |
| `CacheOutcomes.WriterRunsAlone` | Backend/src/modules/documents/documents.service.ts:106-113 | A removal or a replacement that runs through is one change and leaves its workspace the next version, stamped with every change so far |
| `CacheOutcomes.EmbeddingRunsAlone` | Backend/src/modules/documents/processing/embedding/document-embedding.processor.ts:58-80 | However many chunks an embedding run fills, it makes the document ready and sets the next version once, behind all of them |
| `CacheOutcomes.VanishedDocument` | Backend/src/modules/documents/documents.service.ts:106-113 | A writer whose document has gone since it looked changes nothing; a removal and an embedding run still set the next version, a replacement fails and sets none |
| `AnswerKey.KeysNeverCollide` | Backend/src/cache/answer-cache.service.ts:89-92 | Two key strings are equal if and only if workspace, public key, knowledge version, prompt version and normal form all are, for any injective hash |
| `AnswerKey.LocksNeverCollide` | Backend/src/cache/answer-cache.service.ts:257-259 | A lock key is never an answer key, and lock keys are equal exactly if their answer keys are |
| `AnswerKey.NormalIsFixed` | Backend/src/cache/answer-cache.service.ts:37-44 | Normalisation leaves exactly the questions in normal form alone; it is idempotent |
| `AnswerKey.NormalizeKeepsCharacters` | Backend/src/cache/answer-cache.service.ts:30-44 | The visible characters of the normal form are those of the question in lower case less closing punctuation: nothing inside is lost |
| `CacheLock.AtMostOneInTime` | Backend/src/cache/answer-cache.service.ts:208-220 | Two requests given the same lock are in the pipeline together only if one has outlived the time to live of its SET |
| `CacheLock.OnlyOwnerReleases` | Backend/src/cache/answer-cache.service.ts:180-185 | A live lock vanishes or changes hands only by a release that its own request sent on leaving the pipeline |
| `CacheLock.DrainedHoldsNothing` | Backend/src/modules/answer/answer.service.ts:149-162 | Once its connection has drained, a request that left after "unavailable" or "acquired" holds no lock, even if its SET executed late |
| `CacheLock.HeldOwnsNothing` | Backend/src/cache/answer-cache.service.ts:208-216 | A request told "held" never owns the lock, while it works or after, so not releasing leaves nothing behind |
| `CacheLock.GivenIffNoLiveOwner` | Backend/src/cache/answer-cache.service.ts:208-216 | A SET NX is given the lock if and only if every request that was given it, and whose release has not executed, has outlived its time to live |
| `CacheLock.AcquireRunsAlone` | Backend/src/cache/answer-cache.service.ts:208-220 | On a drained connection a request that waits for the reply is told acquired, with the lock its own for fifteen seconds, exactly if nobody owns it, and held otherwise |
| `CacheLock.LeaveRunsAlone` | Backend/src/cache/answer-cache.service.ts:180-185 | A holder that leaves takes its own lock away and nobody else's |
| `CacheLock.ExpiredHolderIsJoined` | Backend/src/cache/answer-cache.service.ts:165-168 | A run in which a holder outlives the time to live and a second request is given the lock beside it |
| `CacheLock.WaitForEntry` | Backend/src/cache/answer-cache.service.ts:240-255 | The wait returns the first entry a poll sees, none exactly if the deadline passes, the lock is gone or Redis fails first, and polls at most a hundred times |
| `InvitationGuarantees.AcceptedOnceByInvitee` | Backend/src/modules/invitations/invitation-acceptance.service.ts:149-171 | An invitation is accepted at most once, by an account of the invited address, in a transaction begun before it expired; its role never exceeds its inviter's |
| `InvitationGuarantees.OnePendingPerAddress` | Backend/src/modules/invitations/invitations.service.ts:166-184 | At most one pending invitation per workspace and address, and a token opens at most one invitation |
| `InvitationGuarantees.AccountIffAccepted` | Backend/src/modules/invitations/invitation-acceptance.service.ts:115-136 | A failed sign-up leaves no account: once a sign-up has inserted its user, at every later instant the account exists if and only if an invitation has been accepted by it |
| `InvitationGuarantees.CommitJoins` | Backend/src/modules/invitations/invitation-acceptance.service.ts:173-192 | A commit accepts a pending invitation of its address, creates an account exactly for a sign-up, keeps every existing membership and role, and adds at most the acceptor with the invited role |
| `InvitationGuarantees.DeliveryIsConsistent` | Backend/src/modules/invitations/invitations.service.ts:132-152 | In every state the delivery columns agree: queued means not sent, sent has its time, failed its error |
| `InvitationGuarantees.MemberGuaranteedIffInserted` | Backend/src/modules/invitations/invitation-acceptance.service.ts:178-191 | The acceptor is sure to be a member at the commit if and only if the insert added the membership, that is, `alreadyMember` is false; a last owner is no exception, another can be invited and the first removed |
| `InvitationGuarantees.AcceptedWithoutMembership` | Backend/src/modules/invitations/invitation-acceptance.service.ts:187-191 | A run of two requests to invite one address, both past the member check, that ends with an accepted invitation whose acceptor is no member |
| `InvitationGuarantees.SettledIsFinal` | Backend/src/modules/invitations/invitations.service.ts:238-248 | Through every run workspace, address and role of an invitation stay, and accepted and revoked are final with acceptor, token and expiry |
| `InvitationGuarantees.ResendRetiresToken` | Backend/src/modules/invitations/invitations.service.ts:132-152 | After a resend, in every later state no link with the old token finds an invitation and no report carrying it changes anything |
| `InvitationOutcomes.ChecksAreExact` | Backend/src/modules/invitations/invitation-acceptance.service.ts:99-111 | Over all interleavings an acceptance short of its commit is ended by its own statement exactly where the tables refuse it: no such token; for a sign-up no invitation that is pending, in time and for an unregistered address; another account's address; an address taken meanwhile; an invitation settled or expired when the transaction began |
| `InvitationOutcomes.SignupRefused` | Backend/src/modules/invitations/invitation-acceptance.service.ts:99-111 | A sign-up whose link opens nothing pending, in time and for an unregistered address is over after its first read, with no table changed |
| `InvitationOutcomes.SignupJoins` | Backend/src/modules/invitations/invitation-acceptance.service.ts:92-136 | From every reachable state, whatever else is under way, a sign-up with a pending link in time, consumed by nobody, whose address nobody has or is registering, goes through: the account exists with that address, is a member with the invited role, and the invitation is accepted by it |
| `InvitationOutcomes.SignupTooLate` | Backend/src/modules/invitations/invitation-acceptance.service.ts:115-136 | A sign-up whose invitation expires between its first read and its transaction is refused there, and the account it had inserted is gone with it |
| `InvitationOutcomes.ExistingJoins` | Backend/src/modules/invitations/invitation-acceptance.service.ts:68-90 | From every reachable state an account of the invited address can accept: it ends a member, with the invited role or, if it was one before, its old one, and the invitation accepted |
| `InvitationOutcomes.InvitingIsExact` | Backend/src/modules/invitations/invitations.service.ts:154-188 | An invitation is made exactly if its role is not above the inviter's, its address is no member's and none is pending for it there; it is open for seven days, and otherwise no table changes |
| `InvitationOutcomes.ResendReopens` | Backend/src/modules/invitations/invitations.service.ts:225-252 | A resend of a pending invitation, expired or not, opens it for seven days with the new token and no other, and counts one email more, not yet sent |
| `InvitationOutcomes.RevokeCloses` | Backend/src/modules/invitations/invitations.service.ts:254-267 | A revoked invitation is never accepted, whatever comes after |
| `InvitationOutcomes.ReportsAreOnTheLastEmail` | Backend/src/modules/invitations/invitations.service.ts:132-152 | A report on the email now out sets sent with its time, failed with its error, or an error while still queued; a report on an earlier one changes nothing |
| `ChunkSets.ChargedOncePerChunk` | Backend/src/modules/documents/processing/embedding/document-embedding.processor.ts:97-115 | Under any redelivery, any number of workers, and chunks replaced or removed in between, no chunk id is charged twice and a chunk is embedded if and only if it has been charged exactly once |
| `ChunkSets.ChargesOnlyFollowEmbeddings` | Backend/src/metering/usage-meter.service.ts:25-42 | A charge is never taken back, and each new one is for a chunk whose embedding appears in the same step |
| `ChunkSets.ChunksAreOneRun` | Backend/src/modules/documents/processing/document-processing.processor.ts:87-105 | However processing runs of one document and of others overlap, draw ids in turns, are redelivered and crash, a document's chunks are at every instant those one run inserted: same run, no index twice, ids in the order of the indexes, none missing |
| `ChunkSets.AllOrNothing` | Backend/src/modules/documents/processing/document-processing.processor.ts:93-105 | A replacement that commits deletes every row its document has by then, or, when another replaced them since it chose, inserts none |
| `ChunkOutcomes.JobRunsAlone` | Backend/src/modules/documents/processing/embedding/document-embedding.processor.ts:46-66 | A job that runs alone embeds every chunk of its document that lacks an embedding and charges each once, in the order read, and touches no other chunk or charge |
| `ChunkOutcomes.ReplacementRunsAlone` | Backend/src/modules/documents/processing/document-processing.processor.ts:93-105 | A processing run that runs alone swaps its document's chunks for one fresh row per index, not embedded yet, and touches no other document's chunk, no event and no charge |
| `ChunkOutcomes.OrphanGivesUp` | Backend/src/modules/documents/processing/document-processing.processor.ts:93-105 | A processing run whose document is gone gives up at its first row and changes nothing |
| `EmbeddingJob.DocumentEmbedding.Process` | Backend/src/modules/documents/processing/embedding/document-embedding.processor.ts:58-80 | Undisturbed, a run fills and charges missing chunks in order exactly up to the first failing call, and sets the status and bumps the version if and only if there is none |
| `EmbeddingJob.DocumentEmbedding.SaveAndMeter` | Backend/src/modules/documents/processing/embedding/document-embedding.processor.ts:97-115 | Fills and charges a chunk that lacks an embedding, and leaves any other alone |
| `EmbeddingJob.DocumentEmbedding.RunJob` | Backend/src/modules/documents/processing/embedding/document-embedding.processor.ts:117-130 | However many attempts a job has and wherever each fails, together they fill and charge each missing chunk up to where they stopped once, in order, as one run that far would; the document is ready if and only if they got through, and failed otherwise |
| `TokenBucket.WindowBound` | Backend/src/common/rate-limit/token-bucket-rate-limiter.ts:15-44 | In every run, over any window of length d, from any bucket state, the granted cost is at most capacity plus rate times d |
| `TokenBucket.TakeKeepsLevel` | Backend/src/common/rate-limit/token-bucket-rate-limiter.ts:31-41 | The level stays in 0..capacity through every take |
| `TokenBucket.RetryIsExact` | Backend/src/common/rate-limit/token-bucket-rate-limiter.ts:34-39 | After a refusal, whatever refused takes and peeks come between, the same take is allowed at an instant if and only if the cost fits the capacity and the retry time has passed |
| `TokenBucket.RetryAfterIsEnough` | Backend/src/common/rate-limit/token-bucket-rate-limiter.ts:173-181 | A refused client that waits the fewest whole seconds covering the `retryAfterMs` it was told (section 10.2.3 of RFC 9110) is let through, for a cost that fits the bucket, whatever refused takes and peeks come between |
| `TokenBucket.SecondsRefill` | Backend/src/common/rate-limit/token-bucket-rate-limiter.ts:31 | A stored bucket regains the rate times whole seconds, cut off at capacity, and nothing on a clock that has gone back |
| `TokenBucket.TtlIsASecondMore` | Backend/src/common/rate-limit/token-bucket-rate-limiter.ts:102-105 | The time to live is one second more than the least time in which an empty bucket fills |
| `TokenBucket.ResetIsExact` | Backend/src/common/rate-limit/token-bucket-rate-limiter.ts:148-157 | Left alone the bucket is full from the reset time on and not before |
| `TokenBucket.PeekPredictsTake` | Backend/src/common/rate-limit/token-bucket-rate-limiter.ts:48-57 | A whole cost is granted exactly when it is at most what a peek at that instant says, and peeking changes nothing |
| `TokenBucket.RefusalsLeaveNoTrace` | Backend/src/common/rate-limit/token-bucket-rate-limiter.ts:31-41 | Refused takes and peeks never move the level a later request finds |
| `RateLimiter.ForgettingIsInvisible` | Backend/src/common/rate-limit/token-bucket-rate-limiter.ts:103-105 | A store that loses keys idle for the whole TTL answers every take and peek on every key exactly as one that never forgets |
| `RateLimiter.ServiceWindowBound` | Backend/src/common/rate-limit/token-bucket-rate-limiter.ts:108-119 | The window bound holds per key for the whole forgetting store |
| `RateLimiter.KeysAreIndependent` | Backend/src/common/rate-limit/token-bucket-rate-limiter.ts:15-44 | What a key is granted by the store is what its own bucket grants, whatever other keys do |
| `RateLimiter.TokenBucketRateLimiter.TakeToken` | Backend/src/common/rate-limit/token-bucket-rate-limiter.ts:108-157 | Allowed exactly if the level covers the cost; `remaining` the whole tokens left; `limit` the capacity; on a refusal `retryAfterMs` the least wait after which the same take succeeds, if the bucket can hold the cost, and 0 otherwise; `resetMs` the least wait until full; degraded exactly after a timeout, when the process's own bucket answers and the timed-out script may still take from Redis |
| `RateLimiter.TokenBucketRateLimiter.TakeLocal` | Backend/src/common/rate-limit/token-bucket-rate-limiter.ts:132-157 | The same answer, degraded, from the level a map never swept would have; above 10 000 entries idle ones go, and the key's entry is rewritten |
| `RateLimiter.TokenBucketRateLimiter.Sweep` | Backend/src/common/rate-limit/token-bucket-rate-limiter.ts:134-138 | Deletes exactly the entries idle for longer than the TTL |
| `RateLimiter.RedisBuckets.EvalTake` | Backend/src/common/rate-limit/token-bucket-rate-limiter.ts:23-43 | A take is granted exactly if the level covers it, exactly the granted cost leaves the bucket, which stays in 0..capacity, and no other key's bucket changes |
| `Chunking.ChunkText` | Backend/src/modules/documents/processing/chunking/chunking.ts:19-55 | Terminates; each chunk is its slice, the first chunk and each later one less its first 150 units give the trimmed text, all but the last have 800..1000 units and the last 151..1000 when there are several, at most 1 + (L-151)/650 chunks, each cut snapped |
| `Chunking.SnapPreference` | Backend/src/modules/documents/processing/chunking/chunking.ts:57-83 | The boundary lies in the last 200 units before the target, or all since the start if fewer, and is there the last paragraph break, else after a sentence end with none ahead on its line, else after the last space, else the raw target, each exactly when the better ones are absent |
| `Chunking.BehindLastSentenceExactly` | Backend/src/modules/documents/processing/chunking/chunking.ts:72-75 | In a window with a sentence end and no paragraph break the cut is behind the last sentence end if and only if every sentence end with a later one has another ahead of it, past its first white space, with no line terminator between |
| `Chunking.EarlierLineWins` | Backend/src/modules/documents/processing/chunking/chunking.ts:63-75 | A text of 1001 units whose search behind unit 800 cuts after a sentence of one line although the next line in the window ends one too |
| `Chunking.CutsReassemble` | Backend/src/modules/documents/processing/chunking/chunking.ts:14-18 | Any chain of slices overlapping by 150 units reassembles to the text it spans |
| `LikePattern.ContainsMeansSubstring` | Backend/src/common/utils/like-pattern.ts:11-14 | The escaped pattern is well formed and matches under ILIKE with backslash escape (section 8.5 of ISO/IEC 9075-2) if and only if the input occurs in the text, letter case aside |
| `LikePattern.ContainsMeansExactSubstring` | Backend/src/common/utils/like-pattern.ts:11-14 | The same under plain LIKE, where case counts |
| `LikePattern.UnderscoreMatchesAny` | Backend/src/common/utils/like-pattern.ts:5-7 | Unescaped, an underscore matches any one character; escaped, only itself |
| `KeysetWalk.WalkIsExact` | Backend/src/modules/handoff/handoff.service.ts:233-259 | Following the cursor to the end while turns keep arriving gathers exactly the turns present at the first fetch, each once, in order |
| `KeysetWalk.FetchesIsCeiling` | Backend/src/modules/handoff/handoff.service.ts:244 | The number of fetches is one for an empty transcript and otherwise n over limit rounded up |
| `KeysetWalk.PageIsNewestRows` | Backend/src/common/pagination/pagination.ts:43-51 | A page is the newest rows below the cursor, oldest first; the next cursor is its oldest row exactly when older ones remain |
| `KeysetWalk.ListedTurns` | Backend/src/modules/handoff/handoff.service.ts:227-259 | Listing fails exactly on a cursor that is no integer; otherwise the page holds, oldest first, at most `limit` of the session's turns below the cursor, says there is more exactly if it leaves one out, leaves out only older ones, and then names its oldest as the next cursor |
| `KeysetWalk.ArrivalsStayAbove` | Backend/src/modules/handoff/handoff.service.ts:229-232 | Rows arriving later are invisible below a cursor already in the table |
| `RankFusion.TopKIsExact` | Backend/src/modules/retrieval/retrieval.service.ts:78-121 | The result is the one list without duplicates, as long as k allows, that is ordered by, and leaves out nothing better than what it holds in, the exact fraction each chunk earns by its places i and j counted from zero: 1/(61+i) from one list, (122+i+j)/((61+i)(61+j)) from both; of equal fractions the smaller id |
| `RankFusion.ScoreIsFraction` | Backend/src/modules/retrieval/retrieval.service.ts:103-106 | A score that adds up what the lists contribute is that fraction |
| `RankFusion.BetterRankFirst` | Backend/src/modules/retrieval/retrieval.service.ts:103-121 | Of two chunks that only one and the same search found the better ranked comes first |
| `RankFusion.DoubleHitsComeFirst` | Backend/src/modules/retrieval/retrieval.service.ts:103-110 | Every chunk both searches found stands before every chunk only one found |
| `RankFusion.ImprovingNeverDemotes` | Backend/src/modules/retrieval/retrieval.service.ts:103-121 | If one chunk's ranks get no worse and no other's get better, it stays in the result at a place no worse |
| `RankFusion.MovingUpImproves` | Backend/src/modules/retrieval/retrieval.service.ts:83-102 | Moving a chunk up a ranking, those it passes slipping one place, is such a change |

## Left out

- AnswerLedger: takes quota periods of one workspace to be disjoint, which the schema intends and does not enforce.
- ReconcileIsExact: only with no request of the workspace in flight; the statement itself ignores open reservations.
- OperationsRunAlone: with no other transaction open; what holds beside others is `ChecksAreExact` and `CommitsAreAtomic`.
- JobRunsAlone: with no other job or run under way, and so `ReplacementRunsAlone`; what holds beside others is `ChargedOncePerChunk` and `ChunksAreOneRun`.
- NormalIsFixed: NFKC normalisation and letters outside ASCII are not modelled, and white space is ASCII's.
- NormalizeKeepsCharacters: the same.
- WaitForEntry: a timer is taken to sleep at least its interval.
- DrainedHoldsNothing: connections that break and are replayed, and failover of Redis, are not modelled.
- ContainsMeansSubstring: letter case is any folding that leaves the pattern's special characters alone; the database's collation is not modelled.
- State machines instead of classes: the services that change rows under concurrency (answer, workspaces, handoff, invitations, embedding) are steps on values, because their steps interleave; the quota counter, the limiter, the chunker, one undisturbed embedding run, the wait loop and citation resolving keep their imperative form.
- Deadlocks: a statement that waits forever is an event that never happens; that the lock orders are free of deadlock is not claimed.
- Error texts, HTTP statuses, broadcasts, logging and warn throttling.
- Calls to Gemini, SMTP, BullMQ and storage: their results are arbitrary, including failure.
- The shadow tier of the cache, cache TTL jitter (entries may vanish at any time instead) and the fixed-window limiter that guards invitation mails.
- JWT, bcrypt, refresh tokens, agent presence, permission lookup (the seeded matrix for handoff.work is fixed), offset paging, the handoff queue listing, usage reports.
- Conversation fields that play no part in charging: question, embedding, versions and shadow columns of the row.
- `listTurns` compares ids only; malformed cursors are the one error modelled.
- Vector distance and text ranking: the two ranked lists are inputs.
- Deletion of users and workspaces, which no code path performs; a reused workspace id is modelled in the cache only.
- The frontends and the widget.
