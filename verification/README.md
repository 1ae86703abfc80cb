# SDQP API: sessions, UEBA, rule versions, directory and watermark summaries

A Dafny model of the stateful core of the `sdqp-api` service, and proofs of what each part keeps over
whole runs: through concurrent requests, crashes and errors, and in every order in which a hash map
may be visited.

| file | what it holds |
|---|---|
| `SessionModel.dfy`, `SessionRegistry.dfy`, `SessionSystem.dfy` | the session registry as a value with its invariant, the object behind the lock, and runs in which requests interleave at their critical sections |
| `Mitigation.dfy` | what a batch of UEBA alerts does to sessions |
| `UebaAlerts.dfy` | the textual reason of a stored alert, its decoder and the two signatures |
| `UebaStream.dfy`, `UebaStreamSafety.dfy`, `UebaConsumer.dfy`, `UebaSessions.dfy` | the stream consumer as a machine that may crash anywhere, the proofs about all its runs, the consumer's code, each execution of which is a run, and the consumer together with the sessions it mitigates |
| `RuleVersions.dfy`, `RuleGovernance.dfy`, `RuleOutcomes.dfy`, `GovernanceHomes.dfy`, `RuleInterleaving.dfy`, `RuleNumbering.dfy` | UEBA rule versions, the two homes that store them and their agreement, what each request does, the code of both homes, and the in-memory home under concurrent requests, with the numbers it gives |
| `ClassificationRules.dfy` | classification rule versions, with creations that interleave |
| `ScimDirectory.dfy`, `IdentityService.dfy`, `DirectorySystem.dfy` | the account directory, its object, and runs of directory writes, logins and sessions together |
| `SortedStrings.dfy`, `ScimListing.dfy`, `ScimGroups.dfy` | sorted member lists, the users reported to the SCIM provider, and groups |
| `WatermarkSummary.dfy` | summaries of scans, per document and per batch |
| `Subsequences.dfy`, `Wrappers.dfy` | what it is to keep some elements of a list in their order; `Option` and `Result` |

Each object follows one pattern: its methods update its fields as the code does, and their
postconditions equate the whole new state with a function of the old one (`State() == RevokeUser(old(State()), user)`).
The functions are then what the lemmas and runs speak about, so every theorem about them is a theorem
about the methods. What each function means, without its definition, is stated by lemmas named after the
operation (`PostureOutcome`, `PassOutcome`, `ChangeOutcome`, `WriteOutcome`, ...); for the machines whose
requests have several critical sections, `Undisturbed...` lemmas say that the sections in a row are the
whole request. A run is a sequence of states and events in which each event is possible in the
state before it; every theorem about runs holds at every position of every run.

## Assumptions

- A newly drawn refresh token, session id, pending-login id or ULID is not in use. Rotating a refresh
  token succeeds when the presented token is the current one, which the scan before it ensures.
- The fingerprint of a refresh token determines the token.
- Whether an MFA proof is accepted, an access token can be signed, or a challenge can be begun is
  arbitrary, and so are the risk score and the recommended response of a posture assessment.
- A fetch returns every record from the requested offset up to the last one it returns.
- One evaluation returns alerts with pairwise different signatures that name the evaluated tenant;
  apart from that it may return anything.
- Arithmetic on the 32-bit counters of watermark summaries wraps around, as in a build without overflow
  checks.
- Each critical section (one scope of a lock), each SQL statement and each transaction is atomic.
- The homes of rule versions, the directory and the sessions start empty or in a state that satisfies
  the stated invariant; the claims are about one process lifetime.

## Where the code does less than one might expect

Each entry names the exact condition under which the expectation fails.

- A refresh that passes the replay scan while its token is current and is overtaken by another refresh of
  the token is refused, but no replay is detected and the session is not revoked: exactly the replays
  scanned while the token was still current are missed (`SessionSystem.ReplayMissedExactly`). The token is
  still exchanged only once.
- A step-up demanded without a challenge, which is how UEBA demands it, cannot be ended by a step-up
  proof until a posture report that asks for step-up has given the session a challenge, or one that allows
  it has ended the step-up (`SessionSystem.StepUpEndsExactlyBy`).
- A user id that contains `|` can make two different alerts share a signature; which pairs do is
  `UebaAlerts.SignaturesCollideExactly`, and for which user ids that can happen
  `UebaAlerts.UsersCollideExactly`.
- A record that does not decode stops the stream for good (`UebaStreamSafety.GarbageBlocks`). A crash after
  an alert is stored and before its rule hit is loses the hit and the notice for good, one before the
  notice loses the notice, and nothing else loses either (`UebaStreamSafety.HitLostExactly`,
  `UebaStreamSafety.NoticeLostExactly`).
- In memory two versions of a rule can have the same number: exactly when a creation that has pushed had
  another push of the rule between its reading and its own push (`RuleNumbering.NumbersUniqueExactly`).
- An activation of a classification version that is answered "not found" may still have retired the
  active one, and has if there was one (`ClassificationRules.NotFoundMayStillRetire`).
- An account filed under the username of another external id evicts that account without ending its
  sessions. Until the id is in the directory again, a write about it ends them exactly if it is an
  inactive upsert that brings the old user id (`DirectorySystem.EvictionKeepsSessions`).
- A single sign-on callback for a subject known under another username can open its session under a user
  id other than the one the directory binds to the subject (`DirectorySystem.SsoLoginIsOwnedExactly`).
- Two interleaved upserts of one external id leave two accounts with it
  (`ScimDirectory.InterleavedUpsertsDuplicate`, `ScimDirectory.AttachKeepsUniqueExactly`).
- Revoking the sessions of a user does not reach a session opened afterwards from a login that was begun
  before (`DirectorySystem.RevocationSparesLater`).
- The aggregate of a batch can be marked verified although an expected token was missed, if it was missed
  only in documents without a watermark; the disposition is the same either way, and the batch endpoint
  expects no token (`WatermarkSummary.AggregateIsWhole`).

## Model

| member | source | states |
|---|---|---|
| `SessionModel.CurrentTokensAreUnique` | apps/sdqp-api/src/lib.rs:1740-1806 | In every good registry no two sessions share a current token or a remembered one, and no remembered fingerprint is that of any current token |
| `SessionModel.HolderIsUnique` | apps/sdqp-api/src/lib.rs:1766-1773 | The scan for a live session by token has the same answer in every order of the map |
| `SessionModel.ReplayVictimIsUnique` | apps/sdqp-api/src/lib.rs:1744-1757 | The scan for a replayed token has the same answer in every order of the map |
| `SessionModel.OnlyTheOwnerKnows` | apps/sdqp-api/src/lib.rs:1744-1773 | A token's distance from the end of its session's chain decides whether it is current, replayable or neither, and no other session knows it |
| `SessionModel.RefreshOutcome` | apps/sdqp-api/src/lib.rs:1740-1823 | The full table of an undisturbed refresh: the last token of a live session rotates it or is held back by step-up, the one before it revokes it, anything else is refused with no change; and the rotated session field by field: new token, presented token remembered, claims good for 15 more minutes, risk and posture kept |
| `SessionModel.StepUpOutcome` | apps/sdqp-api/src/lib.rs:1648-1738 | Exactly when a step-up goes through, the session it leaves field by field (rotated, cleared, risk capped at 25), and that a refusal changes nothing and names the first condition that fails |
| `SessionModel.LogoutOutcome` | apps/sdqp-api/src/lib.rs:1825-1849 | Logging out ends exactly the live session whose current token is presented, and changes nothing else |
| `SessionModel.AccessOutcome` | apps/sdqp-api/src/lib.rs:4129-4185 | A request is accepted exactly when its token has not expired, its session is neither revoked nor held back, and neither its address nor the device it names, if any, differs from those of the token; a refusal names the first of these that fails |
| `SessionModel.ScanDetectsExactly` | apps/sdqp-api/src/lib.rs:1744-1757 | The replay scan detects exactly the tokens that are one behind in a live session, and revokes that session alone |
| `SessionModel.PostureOutcome` | apps/sdqp-api/src/lib.rs:2600-2655 | For the current token of a live session a report stores posture and score, and then: allowing ends a step-up, terminating revokes and ends it, asking for step-up demands it under the new challenge, and without a challenge is not answered and demands nothing; any other token is not answered and changes nothing |
| `SessionModel.RevokeUserOutcome` | apps/sdqp-api/src/lib.rs:2586-2598 | Exactly the sessions of the user are revoked besides those that were, and nothing else of any session changes |
| `SessionModel.OpenOutcome` | apps/sdqp-api/src/lib.rs:1535-1573 | An opened session is live, with user, tenant and binding of its login and no risk or step-up; its requests are accepted for 15 minutes and from that address and device alone |
| `SessionModel.ReplayScanKeepsInv` | apps/sdqp-api/src/lib.rs:1744-1757 | The replay scan keeps the token invariant and never revives or forgets anything |
| `SessionModel.RefreshRotateKeepsInv` | apps/sdqp-api/src/lib.rs:1764-1806 | The same for the rotation of a refresh |
| `SessionModel.StepUpVerifyKeepsInv` | apps/sdqp-api/src/lib.rs:1648-1721 | The same for step-up |
| `SessionModel.LogoutKeepsInv` | apps/sdqp-api/src/lib.rs:1825-1840 | The same for logout |
| `SessionModel.AssessPostureKeepsInv` | apps/sdqp-api/src/lib.rs:2600-2655 | The same for a posture assessment, including the one whose challenge cannot be begun |
| `SessionModel.RevokeUserKeepsInv` | apps/sdqp-api/src/lib.rs:2586-2598 | The same for revoking the sessions of a user |
| `SessionModel.OpenSessionKeepsInv` | apps/sdqp-api/src/lib.rs:1545-1573 | The same for opening a session |
| `SessionRegistryObject.SessionRegistry.InsertPending` | apps/sdqp-api/src/lib.rs:1289-1302 | Registers a pending login and changes nothing else |
| `SessionRegistryObject.SessionRegistry.TakePending` | apps/sdqp-api/src/lib.rs:1522-1529 | Takes a pending login out, if it is still there, and changes nothing else |
| `SessionRegistryObject.SessionRegistry.InsertActive` | apps/sdqp-api/src/lib.rs:1546-1573 | Opens a session whose token and id are new, keeping the invariant |
| `SessionRegistryObject.SessionRegistry.ScanForReplay` | apps/sdqp-api/src/lib.rs:1744-1757 | The first critical section of a refresh: scans all sessions and revokes the replayed one |
| `SessionRegistryObject.SessionRegistry.RotateForRefresh` | apps/sdqp-api/src/lib.rs:1764-1806 | The second critical section of a refresh: finds, checks and rotates in place, with every error reply |
| `SessionRegistryObject.SessionRegistry.VerifyStepUp` | apps/sdqp-api/src/lib.rs:1652-1721 | The critical section of a step-up, with every error reply |
| `SessionRegistryObject.SessionRegistry.RevokeByToken` | apps/sdqp-api/src/lib.rs:1829-1839 | Revokes the session that holds the token, or answers not found |
| `SessionRegistryObject.SessionRegistry.ApplyPosture` | apps/sdqp-api/src/lib.rs:2600-2655 | The assessment of `SessionModel.PostureOutcome`, in place: posture and score first, then the response; a challenge that cannot be begun leaves only the first part |
| `SessionRegistryObject.SessionRegistry.RevokeSessionsForUser` | apps/sdqp-api/src/lib.rs:2586-2598 | Revokes every session of the user and no other |
| `SessionRegistryObject.SessionRegistry.ApplyMitigations` | apps/sdqp-api/src/phase6.rs:2153-2187 | In every order of users and sessions the loops have the outcome of `Mitigation.PassOutcome`, with its counts, and queue each changed session for saving once |
| `SessionRegistryObject.SessionRegistry.VerifyLogin` | apps/sdqp-api/src/lib.rs:1485-1573 | An undisturbed verification opens a session exactly for a waiting login, a good proof and a signed token, and takes the login out in any case once proved |
| `SessionRegistryObject.SessionRegistry.RefreshToken` | apps/sdqp-api/src/lib.rs:1740-1806 | An undisturbed refresh is the replay scan followed by the rotation, so the table of `SessionModel.RefreshOutcome` describes it |
| `SessionSystem.TokensAlwaysUnique` | apps/sdqp-api/src/lib.rs:1740-1806 | In every interleaving no two sessions share a current token or remember the same one, and no remembered fingerprint is that of a current token |
| `SessionSystem.RedeemedAtMostOnce` | apps/sdqp-api/src/lib.rs:1648-1823 | In every interleaving each refresh token is exchanged at most once, by refresh or step-up, whether or not the exchange could be answered |
| `SessionSystem.PairMeansRedeemed` | apps/sdqp-api/src/lib.rs:1648-1823 | A reply with a token pair means that the presented token was exchanged |
| `SessionSystem.AnsweredAtMostOnce` | apps/sdqp-api/src/lib.rs:1648-1823 | In every interleaving at most one request is answered with a token pair for the same token |
| `SessionSystem.SpentTokenIsDead` | apps/sdqp-api/src/lib.rs:1740-1806 | A rotated-out token never again yields a pair, however requests interleave |
| `SessionSystem.RevokedSessionIsDead` | apps/sdqp-api/src/lib.rs:4150-4169 | Whichever writer revoked a session, it stays revoked and no access token of it is accepted |
| `SessionSystem.RevokedTokensAreDead` | apps/sdqp-api/src/lib.rs:1648-1806 | No token a revoked session was ever given is exchanged again |
| `SessionSystem.ReplayBetweenScansGoesUnnoticed` | apps/sdqp-api/src/lib.rs:1744-1773 | The interleaving of two refreshes in which a replay is not detected |
| `SessionSystem.ReplayMissedExactly` | apps/sdqp-api/src/lib.rs:1744-1773 | For a token that is later one behind, an earlier scan of a live session missed the replay if and only if the token was then still current; a token not yet issued is always missed, and if the session is still live the scan did miss it |
| `SessionSystem.MissedReplayWasExchanged` | apps/sdqp-api/src/lib.rs:1744-1806 | Whenever a scan missed a replay, another request exchanged the token in between |
| `SessionSystem.StepUpHoldsBack` | apps/sdqp-api/src/lib.rs:1775-1777 | While step-up is required neither a refresh nor an authenticated request of the session succeeds |
| `SessionSystem.StepUpEndsExactlyBy` | apps/sdqp-api/src/lib.rs:1662-1706 | A live session leaves step-up exactly by a verified proof of an issued challenge or by a posture report that allows it |
| `SessionSystem.StepUpBeginsExactlyBy` | apps/sdqp-api/src/lib.rs:2624-2645 | A live session comes to be held back exactly by a posture report that asks for step-up and has a challenge for it, or by a mitigation that steps its user up |
| `SessionSystem.EndsExactlyBy` | apps/sdqp-api/src/lib.rs:1744-1757 | A live session ends exactly by a logout under its token, a replay of the token before it, a posture report that terminates, a revocation of its user or a mitigation that terminates its user |
| `SessionSystem.ExchangesExactlyBy` | apps/sdqp-api/src/lib.rs:1648-1806 | A session's token is exchanged exactly by a refresh presenting it while the session is live and not held back, or by a proved step-up presenting it while the session is held back with a challenge |
| `SessionSystem.OpensExactlyBy` | apps/sdqp-api/src/lib.rs:1545-1573 | A session comes into being exactly by issuing it for a verified login with a signed token |
| `SessionSystem.UndisturbedRefresh` | apps/sdqp-api/src/lib.rs:1740-1806 | The two critical sections of a refresh with nothing between them are the whole refresh, state and answer |
| `SessionSystem.UndisturbedVerification` | apps/sdqp-api/src/lib.rs:1489-1573 | The critical sections of a verification with nothing between them open a session exactly for a waiting login, a good proof and a signed token |
| `SessionSystem.ChallengeMeansStepUp` | apps/sdqp-api/src/lib.rs:2624-2652 | In every reachable state a live session that holds a challenge is held back for step-up |
| `SessionSystem.OneSessionPerLogin` | apps/sdqp-api/src/lib.rs:1489-1573 | However the verifications of one pending login interleave, at most one of them opens a session |
| `Mitigation.HighestActionByUser` | apps/sdqp-api/src/phase6.rs:2228-2241 | The keys are exactly the alerted users, each with an action of one of its alerts that no other alert of that user exceeds |
| `Mitigation.HighestIsOrderFree` | apps/sdqp-api/src/phase6.rs:2228-2241 | Batches with the same users and actions have the same highest actions, whatever their order |
| `Mitigation.HighestIsStrictest` | apps/sdqp-api/src/phase6.rs:2228-2241 | An alerted user is terminated if one of its alerts says so, else suspended if one says so, else stepped up if one says so, else observed |
| `Mitigation.PassOutcome` | apps/sdqp-api/src/phase6.rs:2153-2187 | What the pass makes of each session, by its user's action and its own flags alone, and the two counts as numbers of sessions: step-up holds back every unrevoked session, termination revokes it, nothing else changes |
| `Mitigation.PassIsExactAndIdempotent` | apps/sdqp-api/src/phase6.rs:2153-2187 | The pass changes exactly the sessions it counts, no session in both counts, and a second pass finds nothing to do |
| `Mitigation.PassKeepsInv` | apps/sdqp-api/src/phase6.rs:776-802 | Both versions of the pass keep the session invariant |
| `UebaAlerts.DecodeAfterEncode` | apps/sdqp-api/src/persistence.rs:5248-5267 | Decoding an encoded reason returns the rule, the score and the evidence, for every evidence text |
| `UebaAlerts.EncodeAfterDecode` | apps/sdqp-api/src/persistence.rs:5248-5267 | Exactly which stored texts are reproduced by encoding what they decode to |
| `UebaAlerts.SplitLosesNothing` | apps/sdqp-api/src/persistence.rs:5258-5265 | Splitting at the first bar loses no character |
| `UebaAlerts.ScoreTextIsCanonical` | apps/sdqp-api/src/persistence.rs:5260-5264 | A text that parses as a score is the score's own decimal text exactly without a plus sign or superfluous zeros |
| `UebaAlerts.SignaturesAgree` | apps/sdqp-api/src/persistence.rs:5269-5271 | The signature rebuilt from a stored row, under the stored rule label, is the one computed in memory under the rule's debug name |
| `UebaStream.RowKeepsAlert` | apps/sdqp-api/src/persistence.rs:706-725 | Every field of an alert can be had back from the row it is stored as |
| `UebaAlerts.SignatureIdentifies` | apps/sdqp-api/src/phase6.rs:2243-2248 | For user ids without a bar, equal signatures mean equal user, rule, score and evidence, and conversely |
| `UebaAlerts.BarInUserIdCollides` | apps/sdqp-api/src/phase6.rs:2243-2248 | With a bar in a user id two alerts of different rules can share a signature |
| `UebaAlerts.SignaturesCollideExactly` | apps/sdqp-api/src/phase6.rs:2243-2248 | For any two alerts: they share a signature exactly when they agree in user, rule, score and evidence, or one's user id continues the beginning of the other's signature and its whole reason ends the other's evidence |
| `UebaAlerts.UsersCollideExactly` | apps/sdqp-api/src/phase6.rs:2243-2248 | Two different user ids can share a signature exactly when one goes on, where the other ends, with a bar, a rule name, a bar and a score, and then ends or has a further bar |
| `UebaStreamSafety.UnseenIsExact` | apps/sdqp-api/src/phase6.rs:702-706 | The staged events taken over have pairwise different hashes, none of them stored, and together exactly the missing ones |
| `UebaStreamSafety.MergedIsExact` | apps/sdqp-api/src/phase6.rs:697-706 | The list that is evaluated has exactly the stored and staged hashes, starts with the stored events and adds each missing hash once |
| `UebaStreamSafety.NewAlertsAreExact` | apps/sdqp-api/src/phase6.rs:736-741 | The new alerts are exactly the evaluated ones whose signature is not stored |
| `UebaStreamSafety.TrailInOrder` | apps/sdqp-api/src/persistence.rs:538-547 | A tenant's stored trail is the subsequence of the trail at exactly the positions of its events |
| `UebaStreamSafety.EventsInOrder` | apps/sdqp-api/src/stage11_ueba.rs:120-135 | What is staged for a tenant is the subsequence of the fetched records at exactly the positions that decode to its events |
| `UebaStreamSafety.UnseenInOrder` | apps/sdqp-api/src/phase6.rs:702-706 | The staged events taken over are the subsequence at exactly the positions that carry an unknown hash for the first time |
| `UebaStreamSafety.NewAlertsInOrder` | apps/sdqp-api/src/phase6.rs:738-741 | The new alerts are the subsequence at exactly the positions whose signature is not stored |
| `UebaStreamSafety.MergedInOrder` | apps/sdqp-api/src/phase6.rs:697-706 | What is evaluated is the stored trail in its order, followed by the first staged event of each new hash, in theirs |
| `UebaStreamSafety.StepKeepsInv` | apps/sdqp-api/src/stage11_ueba.rs:84-151 | Every step, a crash included, keeps the invariants of offsets, completions and stored alerts, and never moves the offset back |
| `UebaStreamSafety.CommittedRecordsWereProcessed` | apps/sdqp-api/src/stage11_ueba.rs:120-152 | Wherever ticks fail, the offset never goes back or passes an undecodable record, and every decodable record below it was, in order, in the input of a completed processing of its tenant |
| `UebaStreamSafety.GarbageBlocks` | apps/sdqp-api/src/stage11_ueba.rs:128-129 | The offset never passes a record that does not decode |
| `UebaStreamSafety.AlertsStoredOnceAfterMitigation` | apps/sdqp-api/src/phase6.rs:736-760 | Wherever ticks fail, no signature of a tenant is stored twice, an alert is stored only after a mitigation pass covering it has returned, and the alerts of a completed processing stay stored |
| `UebaSessions.StoredMeansTerminated` | apps/sdqp-api/src/phase6.rs:736-760 | Wherever ticks fail and however session requests interleave, for every stored alert whose action terminates there was an earlier pass covering it, and every session its user had at that pass is revoked |
| `UebaStreamSafety.HitLostExactly` | apps/sdqp-api/src/phase6.rs:745-760 | In every run the lost rule hits are exactly those whose alert had been stored when a tick crashed before storing the hit |
| `UebaStreamSafety.NoticeLostExactly` | apps/sdqp-api/src/phase6.rs:745-760 | In every run the notices lost while their hit is stored are exactly those whose tick crashed between the two |
| `UebaStreamSafety.LostHitIsNeverStored` | apps/sdqp-api/src/phase6.rs:745-760 | A lost hit stays lost, and its notice is never sent |
| `UebaStreamSafety.CrashLosesHit` | apps/sdqp-api/src/phase6.rs:746-747 | In every run a crash right after storing an alert loses its hit |
| `UebaConsumerObject.LoadTenantTrail` | apps/sdqp-api/src/persistence.rs:538-547 | The events of one tenant: the subsequence of the trail at exactly their positions |
| `UebaConsumerObject.MergeTrail` | apps/sdqp-api/src/phase6.rs:697-706 | The merging loop appends to the stored events the staged ones at exactly the positions that carry an unknown hash for the first time, in their order |
| `UebaConsumerObject.LoadSignatures` | apps/sdqp-api/src/persistence.rs:680-704 | The signatures of a tenant are exactly those rebuilt from its stored rows |
| `UebaConsumerObject.SelectNew` | apps/sdqp-api/src/phase6.rs:738-741 | Keeps the alerts at exactly the positions whose signature is not stored, in their order |
| `UebaConsumerObject.UebaConsumer.Stage` | apps/sdqp-api/src/stage11_ueba.rs:120-135 | Stages the fetched records so that each tenant's events are in stream order, and fails exactly on a record that does not decode |
| `UebaConsumerObject.UebaConsumer.Select` | apps/sdqp-api/src/phase6.rs:691-741 | Loading, merging, evaluating and selecting are steps of the machine: trail and staged events are merged in order, the result is evaluated, and exactly the unstored alerts are kept in order |
| `UebaConsumerObject.UebaConsumer.SaveUebaAlert` | apps/sdqp-api/src/persistence.rs:706-725 | Stores one row for the alert |
| `UebaConsumerObject.UebaConsumer.SaveUebaRuleHit` | apps/sdqp-api/src/persistence.rs:727-748 | Stores one hit for the alert |
| `UebaConsumerObject.UebaConsumer.StoreCurrent` | apps/sdqp-api/src/phase6.rs:745-760 | Alert, hit and notice in this order, or an error before or after any of them takes effect |
| `UebaConsumerObject.UebaConsumer.ProcessTenant` | apps/sdqp-api/src/phase6.rs:691-763 | Processing a tenant, with an error possible at every call, is a run of the machine that ends with the tenant completed or the tick given up |
| `UebaConsumerObject.UebaConsumer.CommitOffset` | apps/sdqp-api/src/persistence.rs:1134-1155 | Stores the offset once every tenant has been processed |
| `UebaConsumerObject.UebaConsumer.Tick` | apps/sdqp-api/src/stage11_ueba.rs:84-153 | Every tick is a run of the machine; the offset moves when the tick succeeds and otherwise stays, unless the commit took effect and was reported as failed; it fails only by a failed call or an undecodable record |
| `RuleVersions.EffectsAgree` | apps/sdqp-api/src/phase6.rs:1254-1261 | The two codes for a state change differ exactly on disabling a target that is retired and still enabled |
| `RuleVersions.ChangeKeepsSound` | apps/sdqp-api/src/phase6.rs:1224-1269 | Every change keeps retired tied to the retirement time, retired versions disabled, and lineages descending |
| `RuleVersions.ChangeKeepsOneActive` | apps/sdqp-api/src/phase6.rs:1236-1252 | Activating a version leaves it the only active one of its rule, even after pending pushes; no other change activates anything |
| `RuleVersions.ChangeKeepsUniqueVersions` | apps/sdqp-api/src/phase6.rs:1224-1269 | No change makes two versions of a rule share a number |
| `RuleVersions.MaxVersionOrderFree` | apps/sdqp-api/src/phase6.rs:2055-2063 | The next number does not depend on the order in which versions are listed |
| `RuleVersions.CreatedIsAddable` | apps/sdqp-api/src/phase6.rs:1087-1138 | A created version is well-formed and has no base |
| `RuleVersions.TunedIsAddable` | apps/sdqp-api/src/phase6.rs:1140-1183 | A tuned version is well-formed and has a larger number than its source, of the same rule |
| `RuleVersions.CreatedDiffersFromSeedAsAsked` | apps/sdqp-api/src/phase6.rs:1087-1138 | A creation fails exactly for an unknown rule or action, and otherwise has the seeded settings except where the request gives its own |
| `RuleVersions.TunedDiffersFromSourceAsAsked` | apps/sdqp-api/src/phase6.rs:1140-1183 | Tuning never fails, changes exactly the settings given and ignores an unknown action |
| `RuleVersions.NumberedFromBookIsUnique` | apps/sdqp-api/src/phase6.rs:2055-2063 | A number taken from the versions as they are keeps numbers unique |
| `RuleVersions.LineageDescends` | apps/sdqp-api/src/phase6.rs:1140-1183 | Following base versions stays within the rule, strictly lowers the number and ends, within that many steps, at a version without base |
| `RuleGovernance.VectorFollowsBook` | apps/sdqp-api/src/phase6.rs:1224-1269 | The loop over the vector has the effect of the row-by-row update, since no retired version is enabled |
| `RuleGovernance.ChangeAgrees` | apps/sdqp-api/src/persistence.rs:811-877 | After activate, enable, disable or retire both homes hold the same versions and give the same answer, not found included |
| `RuleGovernance.SavedByTenant` | apps/sdqp-api/src/persistence.rs:773-809 | Filing a new version under its id adds it to the versions of its own tenant and to no other's |
| `RuleGovernance.SeedingAgrees` | apps/sdqp-api/src/phase6.rs:1017-1039 | Seeding fills both homes with the same versions |
| `RuleGovernance.BuildsAgree` | apps/sdqp-api/src/phase6.rs:1087-1183 | Whatever order the rows come back in, both homes build the same version |
| `RuleGovernance.SavingAgrees` | apps/sdqp-api/src/phase6.rs:1185-1222 | Saving a new version, with or without activation, keeps the homes in agreement |
| `RuleGovernance.CallAgrees` | apps/sdqp-api/src/phase6.rs:371-560 | One request of any kind keeps the homes in agreement and is answered the same by both, a load with the same versions |
| `RuleGovernance.HomesAlwaysAgree` | apps/sdqp-api/src/phase6.rs:945-1015 | After every history of requests from empty homes both hold the same versions and have given the same answers |
| `RuleGovernance.HistoryIsGood` | apps/sdqp-api/src/phase6.rs:1017-1269 | After every history of requests run one at a time each rule has at most one active version, numbers are unique, lineages descend, and retired means retirement time set |
| `RuleOutcomes.ChangeOutcome` | apps/sdqp-api/src/persistence.rs:811-877 | What each change does, in fields: retiring gives retired, disabled and stamped; activating gives active, enabled and stamped, and retires the other active versions of the rule; enabling enables unless retired; disabling disables; everything else is unchanged, and the answer is the new row or not found |
| `RuleOutcomes.SeedingOutcome` | apps/sdqp-api/src/phase6.rs:1042-1077 | A tenant without versions gets one version of each of the six rules, number 1, active, with the given thresholds, scores and actions; no other tenant and no tenant with versions is touched |
| `RuleOutcomes.LoadOutcome` | apps/sdqp-api/src/phase6.rs:1017-1040 | A load is answered with exactly the tenant's versions |
| `RuleOutcomes.CreateOutcome` | apps/sdqp-api/src/phase6.rs:1087-1222 | A creation is refused exactly for an unknown rule or action; otherwise exactly one new version is filed, with the next number, the settings given or those of the seed, and as draft or active as asked, the active one retiring the others of its rule |
| `RuleOutcomes.TuneOutcome` | apps/sdqp-api/src/phase6.rs:1140-1222 | The same for tuning, refused exactly for a version the tenant does not have, with the source's settings |
| `GovernanceHomes.NextRuleVersion` | apps/sdqp-api/src/phase6.rs:2055-2063 | One past the largest number in use for the rule, or one |
| `GovernanceHomes.AgreeingMemoryIsKept` | apps/sdqp-api/src/phase6.rs:1185-1269 | What the in-memory code relies on holds after every history |
| `GovernanceHomes.GovernanceRuntime.LoadOrSeed` | apps/sdqp-api/src/phase6.rs:1033-1038 | Returns the tenant's vector, seeding it first if there is none |
| `GovernanceHomes.GovernanceRuntime.ChangeState` | apps/sdqp-api/src/phase6.rs:1224-1269 | The in-place update of the vector, with its answer; by `RuleGovernance.ChangeAgrees` its outcome is that of `RuleOutcomes.ChangeOutcome` |
| `GovernanceHomes.GovernanceRuntime.SaveRuleVersion` | apps/sdqp-api/src/phase6.rs:1205-1222 | Pushes and, if asked, activates; the activation cannot miss the version just pushed |
| `GovernanceHomes.GovernanceRuntime.Handle` | apps/sdqp-api/src/phase6.rs:371-560 | A whole request against the in-memory home |
| `GovernanceHomes.GovernanceStore.LoadAll` | apps/sdqp-api/src/persistence.rs:750-771 | Each row of the tenant once |
| `GovernanceHomes.GovernanceStore.LoadOrSeed` | apps/sdqp-api/src/phase6.rs:1022-1030 | Saves the default versions row by row if the tenant has none, and returns the tenant's rows |
| `GovernanceHomes.GovernanceStore.Activate` | apps/sdqp-api/src/persistence.rs:811-840 | Retires the other active versions of the rule row by row, then activates the target |
| `GovernanceHomes.GovernanceStore.SetEnabled` | apps/sdqp-api/src/persistence.rs:842-859 | Enables or disables a version unless it is retired |
| `GovernanceHomes.GovernanceStore.Retire` | apps/sdqp-api/src/persistence.rs:861-877 | Loads, retires and saves one version; the outcome is that of `RuleOutcomes.ChangeOutcome` |
| `GovernanceHomes.GovernanceStore.Handle` | apps/sdqp-api/src/phase6.rs:371-560 | A whole request against the store, for whatever order its rows come back in |
| `RuleInterleaving.StepKeepsInv` | apps/sdqp-api/src/phase6.rs:1205-1269 | Every critical section of every request keeps the in-memory versions in order, pushes not yet activated set aside |
| `RuleInterleaving.UndisturbedCall` | apps/sdqp-api/src/phase6.rs:1185-1269 | The critical sections of a request with nothing between them do what the whole request does |
| `RuleInterleaving.OneActiveWhenSettled` | apps/sdqp-api/src/phase6.rs:1205-1269 | Under any interleaving, of two active versions of one rule at least one awaits its activation; retired always means retirement time set, and lineages descend |
| `RuleInterleaving.FinishFinds` | apps/sdqp-api/src/phase6.rs:1211-1219 | The activation after a push always finds the pushed version, so the expectation in the code never fails |
| `RuleInterleaving.PushOverlapsActive` | apps/sdqp-api/src/phase6.rs:1205-1212 | While the activation is pending the rule does have two active versions if it had one, so the condition above is needed |
| `RuleInterleaving.OverlappingCreatesShareANumber` | apps/sdqp-api/src/phase6.rs:382-403 | Two creations of a rule that begin one after the other and then push give their versions the same number |
| `RuleNumbering.NumbersUniqueExactly` | apps/sdqp-api/src/phase6.rs:1185-1269 | In every interleaving the versions of a tenant's rule have different numbers exactly as long as no creation of the rule that has pushed had another push of the rule between its reading and its own push |
| `ClassificationRules.ActivationIsExact` | apps/sdqp-api/src/persistence.rs:2026-2079 | After an activation exactly the target is active in its scope if it existed there unretired, nothing otherwise, and other scopes are untouched |
| `ClassificationRules.ActivationOutcome` | apps/sdqp-api/src/persistence.rs:2026-2079 | What an activation leaves of every version, in fields: the target active and stamped, the other active ones of the scope retired and stamped, the rest unchanged |
| `ClassificationRules.RetirementOutcome` | apps/sdqp-api/src/persistence.rs:2081-2109 | Retiring a version of the scope retires and stamps it and takes it, alone, off the active ones; nothing else changes |
| `ClassificationRules.UndisturbedCreation` | apps/sdqp-api/src/persistence.rs:1960-2024 | Reading the number and inserting with nothing in between is accepted and files a draft under that number |
| `ClassificationRules.NotFoundMayStillRetire` | apps/sdqp-api/src/persistence.rs:2073-2075 | An activation answered not found has changed nothing exactly when no version of the scope was active |
| `ClassificationRules.StepKeepsInv` | apps/sdqp-api/src/persistence.rs:1960-2109 | Every statement and transaction keeps one active version per scope, unique numbers, and forgets or revives nothing |
| `ClassificationRules.AlwaysOneActive` | apps/sdqp-api/src/persistence.rs:1960-2109 | After every sequence of interleaved creations, activations and retirements each scope has at most one active version and unique numbers |
| `ClassificationRules.RetiredForGood` | apps/sdqp-api/src/persistence.rs:2053-2066 | A retired version never becomes active again |
| `ClassificationRules.CreationRefused` | apps/sdqp-api/src/persistence.rs:1968-2023 | A creation is refused exactly when another version of its scope was inserted between its reading the number and its insert |
| `ClassificationRules.ClassificationStore.NextNumber` | apps/sdqp-api/src/persistence.rs:1968-1981 | One past the largest number of the scope, or one |
| `ClassificationRules.ClassificationStore.Insert` | apps/sdqp-api/src/persistence.rs:1998-2021 | Inserts a draft, or refuses a used id or number |
| `ClassificationRules.ClassificationStore.Create` | apps/sdqp-api/src/persistence.rs:1960-2024 | With nothing in between, creating always succeeds with the next number |
| `ClassificationRules.ClassificationStore.Activate` | apps/sdqp-api/src/persistence.rs:2026-2079 | The transaction and its answer |
| `ClassificationRules.ClassificationStore.Retire` | apps/sdqp-api/src/persistence.rs:2081-2109 | The retirement and its answer |
| `ScimDirectory.ApplyKeepsInv` | apps/sdqp-api/src/lib.rs:2483-2584 | Every writer of the directory keeps accounts filed under their usernames and external ids unique |
| `ScimDirectory.UserIdIsStable` | apps/sdqp-api/src/lib.rs:2483-2496 | The user id of an external id stays the same while the id is in the directory |
| `ScimDirectory.LeavesExactly` | apps/sdqp-api/src/lib.rs:2498-2502 | An external id leaves the directory exactly when it is removed or another account is filed under its username |
| `ScimDirectory.WriteOutcome` | apps/sdqp-api/src/lib.rs:2483-2584 | What each write makes of the directory and answers: an upsert replaces the account of its external id and keeps that user id; a patch replaces exactly the details given and refiles; disabling clears the active flag; removing takes out; an unknown id changes nothing |
| `ScimDirectory.RevocationNamesTheUser` | apps/sdqp-api/src/lib.rs:2503-2505 | A reply that leads to revocation names the user id bound to the external id, exactly when the id is then gone or inactive |
| `ScimDirectory.WriteEndsExactly` | apps/sdqp-api/src/lib.rs:2483-2598 | Whose sessions a write about an external id ends: those of the bound user if it deactivates or removes the account, and for an id not in the directory only those of the user id an inactive upsert brings |
| `ScimDirectory.AttachKeepsUniqueExactly` | apps/sdqp-api/src/lib.rs:2497-2502 | The second critical section of an upsert keeps external ids unique exactly when no one else has got the id since the first |
| `ScimDirectory.InterleavedUpsertsDuplicate` | apps/sdqp-api/src/lib.rs:2483-2502 | Two interleaved upserts of a new external id leave two accounts with it |
| `ScimDirectory.SsoLoginUserId` | apps/sdqp-api/src/lib.rs:1391-1400 | Exactly when the account a callback logs in has the user id of the directory |
| `IdentityServiceObject.IdentityService.FindByExternalId` | apps/sdqp-api/src/lib.rs:2527-2531 | The account with the external id, in every order of the map |
| `IdentityServiceObject.IdentityService.TakeOut` | apps/sdqp-api/src/lib.rs:2484-2496 | The first critical section of an upsert; afterwards no account has the external id |
| `IdentityServiceObject.IdentityService.UpsertUserAccount` | apps/sdqp-api/src/lib.rs:2483-2515 | Replaces the account of the external id, keeping its user id, and revokes the user's sessions if it is inactive |
| `IdentityServiceObject.IdentityService.PatchUserByExternalId` | apps/sdqp-api/src/lib.rs:2517-2556 | Changes and refiles the account, and revokes the user's sessions if it is then inactive |
| `IdentityServiceObject.IdentityService.DisableUserByExternalId` | apps/sdqp-api/src/lib.rs:2558-2571 | Deactivates the account and revokes the user's sessions |
| `IdentityServiceObject.IdentityService.RemoveUserByExternalId` | apps/sdqp-api/src/lib.rs:2573-2584 | Takes the account out and revokes the user's sessions |
| `IdentityServiceObject.IdentityService.SsoAccount` | apps/sdqp-api/src/lib.rs:1391-1400 | The account a callback opens a login for |
| `DirectorySystem.StepKeepsInv` | apps/sdqp-api/src/lib.rs:1240-1573 | Logins, sessions and directory writes interleave so that every session carries the user its login was opened for |
| `DirectorySystem.UserIdStays` | apps/sdqp-api/src/lib.rs:2483-2556 | Over every run the user id of an external id does not change while the id is in the directory |
| `DirectorySystem.ComesAndGoesExactlyBy` | apps/sdqp-api/src/lib.rs:2483-2584 | By which events an external id leaves the directory, and by which one comes in and with which user id |
| `DirectorySystem.LoginOutcome` | apps/sdqp-api/src/lib.rs:1289-1302 | A password login or callback leaves pending a login of the account's user and tenant, bound to where it came from, and changes nothing else; a disabled account gets none |
| `DirectorySystem.PasswordLoginIsOwned` | apps/sdqp-api/src/lib.rs:1197-1302 | A password login belongs to the user id the directory binds to the account's external id |
| `DirectorySystem.SsoLoginIsOwnedExactly` | apps/sdqp-api/src/lib.rs:1391-1400 | A single sign-on login does exactly when the account under its username has the subject's external id, or, without such an account, the subject was unknown or known with the same user id |
| `DirectorySystem.RevocationEndsExactly` | apps/sdqp-api/src/lib.rs:2586-2598 | After the sessions of a user have been revoked, the session opened from a login is revoked exactly if it was before or the login was that user's; sessions of other user ids are unchanged |
| `DirectorySystem.DeactivationEndsExactly` | apps/sdqp-api/src/lib.rs:2483-2598 | A write that deactivates or deletes an account ends the session of a login opened by then exactly if the login's user is the one bound to the id at the write, or the one the write brings for an id not in the directory |
| `DirectorySystem.DeactivationEndsSessions` | apps/sdqp-api/src/lib.rs:2483-2598 | In particular it ends every session opened earlier from the id's logins, under whichever username, if the id stayed in the directory, and changes no session of another user id |
| `DirectorySystem.RevocationSparesLater` | apps/sdqp-api/src/lib.rs:1545-1573 | A session of a user's login is revoked by a revocation exactly if it was opened before it, even when the login was begun before it |
| `DirectorySystem.EmptySystem` | apps/sdqp-api/src/lib.rs:583-585 | Runs may start with no account, session or login |
| `DirectorySystem.EvictionKeepsSessions` | apps/sdqp-api/src/lib.rs:2547-2550 | An account evicted by its username keeps its sessions; afterwards patching, disabling or removing its external id finds nothing, and a write about the id ends those sessions exactly if it is an inactive upsert that brings the old user id |
| `ScimListing.ReportIsRightExactly` | apps/sdqp-api/src/lib.rs:2204-2238 | In whatever order accounts are visited, every user is reported with exactly its active groups if and only if no two SCIM accounts share an external id that an active group lists |
| `ScimListing.ReportIsRight` | apps/sdqp-api/src/lib.rs:2204-2238 | Hence with the directory's invariant every report is right: sorted, without repeats, exactly the active groups listing the account |
| `ScimListing.IndexGroups` | apps/sdqp-api/src/lib.rs:2206-2214 | The index holds exactly the active groups of every member |
| `ScimListing.InActiveGroups` | apps/sdqp-api/src/lib.rs:2206-2214 | A group counts for a user exactly if it is in the directory, active and lists the user |
| `ScimListing.ScimUsers` | apps/sdqp-api/src/lib.rs:2216-2237 | Reports every SCIM account with an external id once, the groups going to the first account visited under an external id |
| `ScimGroups.MembershipDiffCount` | apps/sdqp-api/src/lib.rs:2250-2260 | The number of members in exactly one of the lists, repeats not counted |
| `SortedStrings.BelowExactly` | apps/sdqp-api/src/lib.rs:2039-2046 | The order in which members are stored: where two texts part, the one that ends or has the smaller character is below |
| `ScimGroups.CountIsDifference` | apps/sdqp-api/src/lib.rs:2099-2117 | A member patch reports the members that entered or left, plus two for each new member it added and removed |
| `ScimGroups.SwapUndoes` | apps/sdqp-api/src/lib.rs:2099-2117 | The swapped patch restores the members exactly when nothing added was there and everything removed was there after adding |
| `ScimGroups.SwapRestoresTheList` | apps/sdqp-api/src/lib.rs:2099-2119 | Then the stored list itself is restored |
| `ScimGroups.GroupDirectory.Upsert` | apps/sdqp-api/src/lib.rs:2039-2061 | Stores the members sorted and without repeats and reports the size of the difference; the special case for no previous members agrees |
| `ScimGroups.GroupDirectory.Patch` | apps/sdqp-api/src/lib.rs:2062-2092 | Changes name and activity and nothing else, or answers not found |
| `ScimGroups.GroupDirectory.PatchMembers` | apps/sdqp-api/src/lib.rs:2093-2132 | The two loops store (old + added) - removed, sorted and without repeats, with the count above, or answer not found |
| `ScimListing.EndedGroupListsNobody` | apps/sdqp-api/src/lib.rs:2133-2174 | Disabling or deleting a group takes it, and nothing else, off what every user is reported with |
| `WatermarkSummary.SummarizeMatches` | apps/sdqp-api/src/watermark_grpc.rs:328-359 | The summary of a scan: presence, verification, and each 32-bit counter the number of matches it counts |
| `WatermarkSummary.DispositionOutcome` | apps/sdqp-api/src/watermark_grpc.rs:389-399 | The four dispositions of a scan, each exactly by what was found, verified and expected |
| `WatermarkSummary.CountersOutcome` | apps/sdqp-api/src/watermark_grpc.rs:328-359 | Each counter is the number of matches, in all or of its tier, modulo 2^32 |
| `WatermarkSummary.AggregateReportSummaries` | apps/sdqp-api/src/watermark_grpc.rs:361-387 | The aggregate of any reports, including reports without a summary |
| `WatermarkSummary.AggregateIsWhole` | apps/sdqp-api/src/watermark_grpc.rs:328-399 | The aggregate of per-document summaries is the summary of the concatenated matches, except for the verified flag in one exactly stated case; the disposition is always the same |
| `WatermarkSummary.AggregateDisposition` | apps/sdqp-api/src/watermark_grpc.rs:361-399 | The four dispositions of an aggregate, each exactly by what was found, verified and missed in the documents |
| `WatermarkSummary.BatchAggregateIsWhole` | apps/sdqp-api/src/watermark_grpc.rs:248-267 | Without expected tokens the two are equal |
| `WatermarkSummary.BatchScan` | apps/sdqp-api/src/watermark_grpc.rs:128-142 | The batch endpoint's reports each summarize their document and its aggregate summarizes the whole batch |
| `WatermarkSummary.SummaryExists` | apps/sdqp-api/src/watermark_grpc.rs:328-359 | A scan has exactly one summary |
| `WatermarkSummary.TiersAddUp` | apps/sdqp-api/src/watermark_grpc.rs:333-358 | The three tier counters add up to the match counter, up to wrapping, and exactly below 2^32 matches |

## Left out

- Roles, MFA methods, authentication sources and audit entries of sessions; cryptography, the text of
  tokens, TOTP and WebAuthn: they become fresh values and arbitrary booleans.
- Errors of saving a session after its critical section: the registry has already changed then, and the
  reply alone differs.
- The permission and grant side of mitigation, baselines, and what evaluation looks for in events.
- A second stream consumer beside the one loop, and log compaction or truncation.
- Descriptions and the tuning map of rule versions, the parsing of labels, and the difference between the
  clock readings of one request. The texts of seeded and generated ids are assumed not to collide.
- GovernanceHomes.NextRuleVersion: does not model the 32-bit wrap-around of rule version numbers, which
  are unbounded here.
- RuleGovernance.HomesAlwaysAgree: requests run one at a time; interleaved requests against the persistent
  home, whose activation is several saves without a transaction, are not modelled. Tuning proposals, which
  tune like any other request, have no member of their own.
- Overflow of the classification version number, deletion of rows by cascade, and restart seeding of
  catalogs.
- Uniqueness of user ids across accounts, which the directory does not maintain; revocation is stated per
  user id. Passwords, roles and MFA registrations of accounts, and persisting them.
- ScimDirectory.ApplyKeepsInv: an upsert runs without another writer between its two critical sections;
  what happens otherwise is `ScimDirectory.AttachKeepsUniqueExactly` and
  `ScimDirectory.InterleavedUpsertsDuplicate`.
- DirectorySystem.DeactivationEndsExactly: a directory write is one step of a run, and the revocation it
  asks for is another.
- UebaConsumerObject.UebaConsumer.MitigateAll: in the consumer's own code the pass is one step that has
  returned; what it does to sessions is `SessionRegistryObject.SessionRegistry.ApplyMitigations`, and the
  two together are `UebaSessions.StoredMeansTerminated`.
- Building the SCIM sync plan and the cursor.
- Scanning itself, formats, payloads and DLP policies of the watermark service, and its refusal of empty
  batches and documents.
