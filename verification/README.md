# Protocol models of the collaboration platform

Dafny models of the stateful parts of the services, each with proofs about all inputs, all runs or
all reachable states. Every module has the same shape: the state as a value, a function that says
what one request does to it, lemmas about runs of requests, and, where the service changes state in
place, a class whose methods are proved to do exactly what that function says.

- `RefreshTokens`: refresh-token rotation and session revocation (auth-svc).
- `TokenBucket`: the Redis token-bucket limiter (colab_common).
- `Idempotency`: the Idempotency-Key middleware (colab_common), in front of an arbitrary handler.
- `Settlement`, `WebhookSettlement`, `RunCommand`: the calls that settle a credit reservation, from the
  Replicate webhook and from the command endpoint (ai-orchestrator-svc).
- `MockupConsent`: bilateral consent, its assets and their expiry (ai-orchestrator-svc).
- `Entitlements`: the versioned entitlement table (admin-svc).
- `LoginLockout`: the failure counter and lock of the e-mail login (auth-svc).
- `ModerationScore`: combined score and risk-tier routing (moderation-svc).
- `MagicLinks`: e-mail verification, password reset and e-mail change links (auth-svc).
- `UuidV7`: the bit packing of chat-svc and media-svc.
- `KpiBackfill`: upserted KPI rollups and backfills (analytics-svc).

Time is explicit: an operation carries its instant or waits. A Redis key is a value with the instant
at which it is gone. A request is one atomic step; the row writes of a request that raises are rolled
back with its transaction (`packages/colab_common/src/colab_common/db.py:129-141`), its Redis writes
are not. Foreign calls (HTTP services, mail, OpenAI, Replicate, S3, the broker, password hashing, the
database commit where its failure matters) may answer anything: their answers are inputs.

Every lemma switches automatic induction off; a proof by induction calls itself.

## Where code and documentation differ

The models follow the code.

- A detected token replay promises to revoke the whole session chain
  (`services/auth-svc/app/routers/token.py:36-39`), but the raise at line 56 undoes the row write at
  line 55. `ReplayLeavesChainAlive` shows that the chain goes on.
- Decoding asks for 30 seconds of leeway through the decode options
  (`services/auth-svc/app/services/tokens.py:177-181`), where the library does not look for it. The
  leeway is a parameter; `RotatedOutTokenIsReplay` and `LeewayOpensReplayGap` say what it decides.
- The palette command allows a second attempt, but remembers the first one's exception
  (`services/ai-orchestrator-svc/app/routers/commands.py:357-375`), so a good second attempt is
  still a failure.
- Forced moderation cases with a low score go to tier 1, not tier 2 as the comment says
  (`services/moderation-svc/app/score.py:212-216`); `ForcedReachesTierTwoIff` says which reach tier 2.
- Accepting a mock-up consent with too few credits still commits the approval
  (`services/ai-orchestrator-svc/app/routers/consent.py:137-140`). The consent then has no asset, and
  by `ApprovalIsFinal` its collab can never get another one.
- A failed credit release is said to be cleaned up by a retry
  (`services/ai-orchestrator-svc/app/services/billing_client.py:111`). The webhook retries it within the
  day if and only if billing-svc did not answer at all (`RetriedIffUnanswered`): after an error answer it
  sets its key all the same, and nothing is called again (`AnsweredReleaseIsNotRepeated`).
- The docstring of the KPI rollup says that one failing query does not abort the rest
  (`services/analytics-svc/app/tasks/rollup.py:264-270`). All queries share one transaction: after a
  failed statement the others fail too and the day stores nothing, metrics reported as ok included
  (`DayHoldsLastRows`). Only an exception outside the database leaves the rest alone.
- The idempotency key is joined with colons (`packages/colab_common/src/colab_common/idempotency.py:41`),
  so requests that differ can share it; `CacheKeyIsSharedIffColon` says exactly when, and
  `RepliesStayWithTheirUser` that no reply crosses from one user or method to another.
- A verification code is looked up without its user and without an order
  (`services/auth-svc/app/routers/email_verify.py:113-120`), so another open link with the same code, even
  an expired one, can be returned instead; `CodeRedeemsUnlessRivalled` says exactly when a code is sure to
  redeem its link, and `TwoSignupsRival` gives a run in which it is not.

## Model

| member | source | states |
|---|---|---|
| RefreshTokens.RowHoldsNewestToken | services/auth-svc/app/routers/token.py:58-92 | after any run of logins, refreshes, logouts, deletes and waits, a session's row holds the token minted last for that session |
| RefreshTokens.AcceptedIffNewestOfOpenSession | services/auth-svc/app/routers/token.py:30-94 | a refresh succeeds if and only if the token is genuine, unexpired, the newest of an open session and its user active; the replay check never refuses a rightful holder |
| RefreshTokens.RefreshAnswers | services/auth-svc/app/routers/token.py:43-94 | which of its five answers a refresh gets after any run, told from the stored tokens, rows, marks and the clock: accepted only before expiry plus leeway |
| RefreshTokens.TokenLivesItsLifetime | services/auth-svc/app/services/tokens.py:172-188 | a token left alone after its login is accepted if and only if less than its lifetime and the leeway have passed |
| RefreshTokens.TokensWereHandedOut | services/auth-svc/app/services/tokens.py:129-147 | every genuine token was handed out by a login or refresh of the run |
| RefreshTokens.RotationHandsOutNewest | services/auth-svc/app/routers/token.py:75-94 | a refresh hands out never-used tokens of the same session and user with the configured lifetimes; the new refresh token becomes the newest and the presented one stops being it |
| RefreshTokens.LoginHandsOutNewest | services/auth-svc/app/routers/login.py:43-70 | a login opens a session unlike any before it, open, and held by the token it returns |
| RefreshTokens.NeverHeldAgain | services/auth-svc/app/routers/token.py:89-92 | no row ever again holds a token that was rotated out, however the run goes on |
| RefreshTokens.AcceptedAtMostOnce | services/auth-svc/app/routers/token.py:58-92 | over every run each refresh token is accepted at most once |
| RefreshTokens.RotatedOutTokenIsReplay | services/auth-svc/app/routers/token.py:49-56 | an unexpired rotated-out token gets the replay answer exactly while its Redis key lives, which with zero leeway is always, however long the chain |
| RefreshTokens.LeewayOpensReplayGap | services/auth-svc/app/services/tokens.py:172-189 | for every positive leeway a run exists in which a rotated-out token outlives its key and is refused as an unknown session instead |
| RefreshTokens.ReplayLeavesChainAlive | services/auth-svc/app/routers/token.py:49-56 | the replay branch leaves every row as it was (its row write is rolled back) and sets the session's Redis key; afterwards a token is accepted if and only if it would have been before, as the newest of an open session; the docstring promises revocation of the chain |
| RefreshTokens.ReplayedSessionGoesOn | services/auth-svc/app/routers/token.py:49-56 | a reachable run for every positive refresh lifetime: login, refresh, the first token again, which is detected as a replay, and then the second token is accepted |
| RefreshTokens.LogoutClosesWithNewestToken | services/auth-svc/app/routers/token.py:97-119 | logout closes exactly the token's session if the token is the newest of an open session, and otherwise changes nothing at all |
| RefreshTokens.LogoutEffect | services/auth-svc/app/routers/token.py:97-119 | the whole effect of logout, told from tokens, rows and the clock: an unexpired newest token of an open session closes it and marks session and token for 2592000 seconds; any other changes nothing |
| RefreshTokens.LogoutAllClosesEverySession | services/auth-svc/app/routers/token.py:122-140 | logout-all leaves every session of the user closed, with live keys for those it closed, and every other row untouched |
| RefreshTokens.DeleteClosesOwnSession | services/auth-svc/app/routers/sessions.py:55-76 | a delete closes the named session for its owner and changes nothing for anyone else |
| RefreshTokens.ClosedSessionStaysClosed | services/auth-svc/app/routers/token.py:97-140 | once a session is closed it stays closed, and no refresh token of it, past or present, is accepted in any later step |
| RefreshTokens.RevocationIsForGood | services/auth-svc/app/routers/token.py:97-140 | after any run a session gets closed exactly by logout with its newest token, by logout-all or by a delete of its user, and after such a request no refresh of it is accepted in any continuation |
| RefreshTokens.SessionKeyOutlivesAccessTokens | services/auth-svc/app/services/tokens.py:243-251 | while any access token of a closed session is unexpired the session's Redis key is live, provided access tokens live no longer than the key's thirty days |
| RefreshTokens.LongAccessTokensOutliveKey | services/auth-svc/app/services/tokens.py:243-246 | that proviso is exact: for every longer access lifetime a run exists in which a token outlives the key |
| RefreshTokens.AuthService.IssueTokenPair | services/auth-svc/app/routers/login.py:43-70 | new session row and token pair, as the login step of the state machine, keeping the chain invariant |
| RefreshTokens.AuthService.FindByHash | services/auth-svc/app/routers/token.py:59-65 | finds a row with the hash if and only if there is one |
| RefreshTokens.AuthService.RotateToken | services/auth-svc/app/routers/token.py:30-94 | the whole refresh handler, all its refusals included, is the refresh step of the state machine and keeps the chain invariant |
| RefreshTokens.AuthService.Logout | services/auth-svc/app/routers/token.py:97-119 | the logout handler is the logout step and keeps the chain invariant |
| RefreshTokens.AuthService.LogoutAll | services/auth-svc/app/routers/token.py:122-140 | the logout-all handler is the logout-all step and keeps the chain invariant |
| RefreshTokens.AuthService.CloseSessions | services/auth-svc/app/routers/token.py:134-137 | the revocation loop closes and marks exactly the sessions it was given |
| RefreshTokens.AuthService.RevokeSession | services/auth-svc/app/routers/sessions.py:55-76 | the delete handler, with its not-found and forbidden answers, keeps the chain invariant |
| RefreshTokens.AuthService.MintRefresh | services/auth-svc/app/services/tokens.py:129-147 | a refresh token with an unused jti and expiry at whole seconds plus the refresh lifetime |
| TokenBucket.ExpiryIsInvisible | packages/colab_common/src/colab_common/rate_limit.py:34-51 | on every call sequence in time order the bucket with EXPIRE answers as one that never expires, while over no idle period the Redis clock gains eleven seconds or more on the caller's whole-second clock |
| TokenBucket.ElevenSecondsShow | packages/colab_common/src/colab_common/rate_limit.py:34-51 | eleven seconds is exact for every limit: if a gain of eleven seconds is allowed, expiry is invisible on all runs if and only if the capacity is 0 |
| TokenBucket.TwoBurstsDiffer | packages/colab_common/src/colab_common/rate_limit.py:34-51 | for every limit with capacity, a run of two bursts that the bucket with EXPIRE and the kept one answer differently |
| TokenBucket.ExpiredIsFull | packages/colab_common/src/colab_common/rate_limit.py:38-40 | an idle time of the rounded-up capacity over rate has refilled the bucket, so a gone key and a kept one decide alike |
| TokenBucket.AdmittedInStretch | packages/colab_common/src/colab_common/rate_limit.py:34-51 | in any stretch of calls of any run at most capacity + floor(rate * elapsed) are admitted |
| TokenBucket.AdmittedWithinAllowance | packages/colab_common/src/colab_common/rate_limit.py:34-51 | the same with the allowance spelled out as the whole tokens of elapsed seconds times rate |
| TokenBucket.OneCall | packages/colab_common/src/colab_common/rate_limit.py:34-50 | what one call admits and leaves, for a missing and a kept bucket, in tokens |
| TokenBucket.FlooredTrailsExact | packages/colab_common/src/colab_common/rate_limit.py:38-50 | charged for the same admissions, the floored bucket never exceeds the unfloored one and after n calls trails it by less than n tokens |
| TokenBucket.DenseTrafficNeverRefills | packages/colab_common/src/colab_common/rate_limit.py:38-50 | if every gap is shorter than 1/rate, exactly the initial tokens (or all calls, if fewer) are admitted over the whole run |
| TokenBucket.RateLimiter.CheckRateLimit | packages/colab_common/src/colab_common/rate_limit.py:28-104 | the stored hash, its expiry, the decision and the remaining count are those of the specification, for missing, expired and live keys |
| Idempotency.CacheKeyIsInjective | packages/colab_common/src/colab_common/idempotency.py:40-43 | for colon-free user id, method and path, cache keys are equal if and only if the four fields are |
| Idempotency.CacheKeyIsSharedIffColon | packages/colab_common/src/colab_common/idempotency.py:40-43 | among the guarded requests one user can send with one method over HTTP, another shares the cache key if and only if path and key, joined by a colon, can be cut into a URL path and a header value at another colon |
| Idempotency.CacheKeyTellsUserAndMethod | packages/colab_common/src/colab_common/idempotency.py:40-43 | with colon-free user ids and methods equal cache keys imply the same user and the same method, whatever path and key are |
| Idempotency.RepliesStayWithTheirUser | packages/colab_common/src/colab_common/idempotency.py:57-108 | on every run in time order a dropped request is answered with an earlier answer to the same user and the same method |
| Idempotency.ColonFreeKeyIsOwn | packages/colab_common/src/colab_common/idempotency.py:40-43 | a request with no colon in user id, method, path and key shares its cache key with no other request at all |
| Idempotency.HitIffFresh | packages/colab_common/src/colab_common/idempotency.py:71-79 | the cache hits if and only if an earlier guarded request with the same cache key got a 2xx less than a day ago, and the entry is that answer |
| Idempotency.RefinesDeduplicatedTrace | packages/colab_common/src/colab_common/idempotency.py:57-108 | on every run in time order the handler ends in the state, and gives the answers, of the bare handler on the requests that were not dropped; a request is dropped exactly when a 2xx for its cache key is less than a day old, and is answered with that status and document |
| Idempotency.FateOfRequest | packages/colab_common/src/colab_common/idempotency.py:57-108 | for every request of a run: dropped if and only if its method is none of GET, HEAD, OPTIONS, its key is not empty, and an earlier such request with its cache key was executed with a status from 200 to 299 less than 86400 seconds before; what it is answered in each case |
| Idempotency.DroppedOnceAnswered | packages/colab_common/src/colab_common/idempotency.py:57-108 | with colon-free fields the same in terms of user, method, path and key |
| Idempotency.IdempotencyMiddleware.Dispatch | packages/colab_common/src/colab_common/idempotency.py:57-108 | state, cache, reply with its headers, and record of one request are those of the specification on every branch |
| Idempotency.HeaderDict | packages/colab_common/src/colab_common/idempotency.py:102-106 | the headers of a stored answer go out as a dictionary, which has exactly the names given and for each its first value; a replayed answer carries none of them |
| Idempotency.FirstHeaderWins | packages/colab_common/src/colab_common/idempotency.py:102-106 | of headers with one name the first value goes out |
| Idempotency.DocumentOfChunks | packages/colab_common/src/colab_common/idempotency.py:86-97 | the document of a body cut into byte and text chunks is what its bytes parse as, and the wrapper if they do not |
| Idempotency.IdempotencyMiddleware.ReadBody | packages/colab_common/src/colab_common/idempotency.py:86-92 | the loop over the body stream yields the concatenation of its chunks, text chunks encoded |
| WebhookSettlement.DeliveryCallsAtMostTwice | services/ai-orchestrator-svc/app/routers/webhooks.py:102-106 | one delivery makes at most two settlement calls, and a second one is a release made only because the first raised |
| WebhookSettlement.DeliverySettles | services/ai-orchestrator-svc/app/routers/webhooks.py:54-110 | exactly when a settlement call returns normally within a delivery; it is then the last call, matches the stored status, and the asset is active if and only if it was a commit; and when the key is set |
| WebhookSettlement.GoodPredictionIsCharged | services/ai-orchestrator-svc/app/routers/webhooks.py:113-229 | a successful prediction that downloads: a blocked image ends moderation_blocked with one release and an inactive asset, anything else that renders ends completed with one commit and an active asset for its lifespan |
| WebhookSettlement.BadPredictionIsReleased | services/ai-orchestrator-svc/app/routers/webhooks.py:83-106 | a failed prediction, one without output, and one that cannot be downloaded, rendered or committed end failed with one release and an inactive asset |
| WebhookSettlement.RaisedSettlementIsReleased | services/ai-orchestrator-svc/app/routers/webhooks.py:102-106 | a charge not answered with a 2xx, or a moderation release not answered at all, is followed by a second call, a release, and ends failed |
| WebhookSettlement.OtherDeliveries | services/ai-orchestrator-svc/app/routers/webhooks.py:54-110 | what changes nothing, what only sets the key for 86400 seconds, and what raises |
| WebhookSettlement.AtMostOneSettlementReturns | services/ai-orchestrator-svc/app/routers/webhooks.py:54-110 | over every run of deliveries, whichever calls fail, if none comes a day or more after one that settled, at most one settlement call returns normally; it is the last and matches the stored status, and a charge was confirmed |
| WebhookSettlement.SettlementsAreADayApart | services/ai-orchestrator-svc/app/routers/webhooks.py:54-110 | over runs of any length two deliveries that settle are at least 24 hours apart |
| WebhookSettlement.ConfirmedAreReturned | services/ai-orchestrator-svc/app/services/billing_client.py:86-111 | at most as many calls are confirmed by billing-svc as return, so the bound on returned calls bounds confirmed ones |
| WebhookSettlement.SettlesAgainIffDayHasPassed | services/ai-orchestrator-svc/app/routers/webhooks.py:35-60 | after a delivery that settled, another that would settle without the key does so if and only if 24 hours have passed |
| WebhookSettlement.WebhookHandler.HandleSuccess | services/ai-orchestrator-svc/app/routers/webhooks.py:113-229 | rows, calls and raising of the success handler for every failure of its foreign calls |
| WebhookSettlement.WebhookHandler.HandleFailure | services/ai-orchestrator-svc/app/routers/webhooks.py:232-252 | rows, calls and raising of the failure handler |
| WebhookSettlement.WebhookHandler.Deliver | services/ai-orchestrator-svc/app/routers/webhooks.py:38-110 | one delivery, with the failure handler run after a success handler that raised, and the key set on every path that does not raise |
| WebhookSettlement.RetriedIffUnanswered | services/ai-orchestrator-svc/app/services/billing_client.py:97-111 | after a delivery that ends in an unconfirmed release of whatever kind, the failure redelivered within the day releases again if and only if the release got no answer at all; after an error answer nothing is called |
| WebhookSettlement.CallsAgainIffUnanswered | services/ai-orchestrator-svc/app/routers/webhooks.py:54-110 | the same of every redelivery that would call billing if there were no key |
| WebhookSettlement.AnsweredReleaseIsNotRepeated | services/ai-orchestrator-svc/app/routers/webhooks.py:84-110 | after a release answered with an error, over any run of the next day nothing changes: no delivery calls billing, and the failed or blocked status stays |
| WebhookSettlement.EarlyDeliverySwallowsTheDay | services/ai-orchestrator-svc/app/routers/webhooks.py:75-78 | a delivery before the worker has stored the prediction id sets the key, so that no delivery of the next day settles the reservation |
| WebhookSettlement.WebhookHandler.AssignPrediction | services/ai-orchestrator-svc/app/workers/generation_tasks.py:54-63 | the worker links the prediction to its rows and marks the interaction as processing |
| WebhookSettlement.WorkerLinksOnce | services/ai-orchestrator-svc/app/workers/generation_tasks.py:54-63 | the same in fields: linked and processing, unless linked before |
| RunCommand.HandleCommand | services/ai-orchestrator-svc/app/routers/commands.py:199-454 | whatever fails, commit is called exactly once iff `completed` is stored, release exactly once iff `failed` or `moderation_blocked` is, never both; a reservation of a synchronous command stays unsettled exactly if one of the two database commits fails or a palette attempt raises something other than a ValueError; what decides each status and reply |
| RunCommand.Summarize | services/ai-orchestrator-svc/app/routers/commands.py:276-315 | three outcomes, each with its own stored status and settlement call: charged iff a safe summary was generated, answered iff the charge returned |
| RunCommand.BrainstormTopic | services/ai-orchestrator-svc/app/routers/commands.py:317-347 | three outcomes, each with its own stored status and settlement call: charged iff the topic has three characters and ideas were generated |
| RunCommand.MakePalette | services/ai-orchestrator-svc/app/routers/commands.py:349-394 | three outcomes and an exception that escapes the retry loop: charged iff the first attempt gave five colours; charged without an answer iff the colours are malformed or the charge is unconfirmed |
| RunCommand.QueueMockup | services/ai-orchestrator-svc/app/routers/commands.py:400-452 | an empty prompt is released and refused; otherwise the reservation stays with the worker, whether or not the request then breaks off |
| RunCommand.GeneratePalette | services/ai-orchestrator-svc/app/routers/commands.py:357-371 | the retry loop succeeds if and only if the first attempt gives five colours: the remembered exception makes a good second attempt fail too; exactly when an exception escapes it |
| MockupConsent.OneCurrentConsent | services/ai-orchestrator-svc/app/routers/consent.py:96-198 | in every reachable state a collab has at most one consent pending or approved |
| MockupConsent.ApprovedBySomeoneElse | services/ai-orchestrator-svc/app/routers/consent.py:105-153 | an approved consent was accepted by a user other than its requester; only approved consents have assets, and at most one each |
| MockupConsent.PartiesDiffer | services/ai-orchestrator-svc/app/routers/consent.py:105-198 | over every run, of the requests that created a consent and had it accepted, the users differ and the collab is the same |
| MockupConsent.CreationRecordsAsker | services/ai-orchestrator-svc/app/routers/consent.py:183-196 | a created consent is pending, for the collab, user and instant of its request |
| MockupConsent.SecondRequest | services/ai-orchestrator-svc/app/routers/consent.py:91-181 | what the request after a creation is answered, for every outcome of the foreign calls: 409 to the same user, acceptance only to another one |
| MockupConsent.AcceptanceLeaves | services/ai-orchestrator-svc/app/routers/consent.py:105-153 | the rows an acceptance, one with too few credits, and any other answer leave behind |
| MockupConsent.ApprovalIsFinal | services/ai-orchestrator-svc/app/workers/expire_tasks.py:62-80 | an approved consent never changes again, no asset is ever added to those it has, and its collab never sees another consent created or accepted |
| MockupConsent.PendingLastsTwoDays | services/ai-orchestrator-svc/app/workers/expire_tasks.py:62-80 | a consent left pending is expired by the task if and only if 172800 seconds have passed since its request |
| MockupConsent.AssetLivesItsLifespan | services/ai-orchestrator-svc/app/workers/expire_tasks.py:32-56 | an asset made active for a lifespan is deactivated by the task if and only if that has passed |
| MockupConsent.PredictionIsStored | services/ai-orchestrator-svc/app/workers/generation_tasks.py:54-63 | the prediction id is stored on its asset alone, exactly unless another asset has it |
| MockupConsent.SlashCommandAddsAsset | services/ai-orchestrator-svc/app/routers/commands.py:414-424 | a mock-up command adds one active asset without consent, exactly unless another still waits for its prediction id |
| MockupConsent.AnswersOfRequest | services/ai-orchestrator-svc/app/routers/consent.py:96-198 | exactly when a request creates a consent, accepts one with an asset, or leaves it approved without an asset because credits were short |
| MockupConsent.ConsentService.MockupConsent | services/ai-orchestrator-svc/app/routers/consent.py:80-202 | the endpoint, with its 404, 402, 409 and failed-insert answers, is the request step of the state machine |
| MockupConsent.ConsentService.AcceptPending | services/ai-orchestrator-svc/app/routers/consent.py:105-174 | acceptance: flushed rows are kept by the commit and dropped by every raise before it |
| MockupConsent.ConsentService.FirstCurrent | services/ai-orchestrator-svc/app/routers/consent.py:97-103 | finds a pending or approved consent of the collab if and only if there is one |
| MockupConsent.ConsentService.ExpirePendingConsents | services/ai-orchestrator-svc/app/workers/expire_tasks.py:62-80 | exactly the consents still pending after 48 hours expire |
| MockupConsent.ConsentService.ExpireMockupAssets | services/ai-orchestrator-svc/app/workers/expire_tasks.py:32-56 | exactly the active assets past their lifespan go inactive, and exactly they are reported |
| MockupConsent.ConsentService.AssignPrediction | services/ai-orchestrator-svc/app/workers/generation_tasks.py:54-63 | the prediction id replaces the placeholder unless another asset has it |
| Entitlements.ReadingIsReplay | services/admin-svc/app/routers/billing.py:44-119 | at every instant no later update is backdated to, the active rows of a key are what replaying the accepted updates gives, at most one row each; with default times that is every instant, with arbitrary ones every instant from the latest update on |
| Entitlements.TwoSettingsRead | services/admin-svc/app/routers/billing.py:88-119 | of two settings of a key, with or without times of their own, the rows and the instants at which each is active |
| Entitlements.SupersedesNamedKeys | services/admin-svc/app/routers/billing.py:171-183 | an update supersedes exactly the open rows of the keys it names, at its own instant |
| Entitlements.EarlierReadingKeptIffNotBackdated | services/admin-svc/app/routers/billing.py:88-119 | an accepted update changes an earlier reading if and only if it is backdated to that instant or before |
| Entitlements.OneOpenRowIffDistinctKeys | services/admin-svc/app/routers/billing.py:171-198 | an update leaves one row per key unsuperseded if and only if it names no key twice (the select inside the loop does not see rows the request has added) |
| Entitlements.KeySetTwiceReadsTwice | services/admin-svc/app/routers/billing.py:171-198 | such a request is accepted when its times differ, and from the later time on both rows are active |
| Entitlements.AlwaysActiveIffNotFutureDated | services/admin-svc/app/routers/billing.py:44-119 | as long as nothing is backdated, a key once set has an active row at every later instant if and only if no accepted update that decides it is dated into the future |
| Entitlements.AcceptedAreDistinct | services/admin-svc/alembic/versions/20260511_001_admin_schema.py:153-156 | with default times the unique constraint refuses every request that names a key twice |
| Entitlements.EntitlementTable.UpdateEntitlements | services/admin-svc/app/routers/billing.py:159-211 | the nested loops supersede and append as specified, and a broken constraint leaves the table as it was; both update endpoints |
| Entitlements.EntitlementTable.GetTiers | services/admin-svc/app/routers/billing.py:44-63 | the nested dictionary shows a tier and axis if and only if a row is active for them, with that row's values, and agrees with every replay reading |
| LoginLockout.CounterNeverExceedsTen | services/auth-svc/app/services/brute_force.py:30-52 | in any run, whatever the clock does, the counter is at most ten, the failure that makes it ten is the one that locks, and the advised back-off never reaches its cap |
| LoginLockout.ElevenFailuresSpanWindow | services/auth-svc/app/services/brute_force.py:30-70 | any stretch with eleven recorded failures and no success spans at least 900 seconds |
| LoginLockout.ElevenFailuresInExactlyWindow | services/auth-svc/app/services/brute_force.py:30-46 | the bound is tight: eleven failures recorded within exactly 900 seconds |
| LoginLockout.LockHolds | services/auth-svc/app/services/brute_force.py:55-64 | for 900 seconds after the locking failure every attempt is refused as locked, right password or not, and changes nothing |
| LoginLockout.WhoGetsIn | services/auth-svc/app/routers/login.py:82-101 | exactly the right password of an active account outside a lock logs in, and that forgets all failures |
| LoginLockout.WrongInARow | services/auth-svc/app/services/brute_force.py:30-52 | wrong passwords less than 900 seconds apart: four refusals, back-offs of 1, 2, 4, 8 and 16 seconds, and the tenth locks for 900 seconds |
| LoginLockout.BruteForceGuard.RecordFailedLogin | services/auth-svc/app/services/brute_force.py:30-52 | counter, expiry, lock and answer of a recorded failure |
| LoginLockout.BruteForceGuard.CheckLoginLocked | services/auth-svc/app/services/brute_force.py:55-64 | locked if and only if the lock key has not expired |
| LoginLockout.BruteForceGuard.ClearFailedLogins | services/auth-svc/app/services/brute_force.py:67-70 | a success forgets counter and lock |
| LoginLockout.BruteForceGuard.LoginEmail | services/auth-svc/app/routers/login.py:82-101 | the order lock check, deactivated account, failure record, clearing, and the answer of each |
| ModerationScore.GroupThenWeight | services/moderation-svc/app/score.py:51-121 | grouping labels by parent and weighting the groups gives the maximum of all labels weighted directly, unless weight and confidence of a label are both negative |
| ModerationScore.GroupingOfOne | services/moderation-svc/app/score.py:51-121 | that condition is exact |
| ModerationScore.LabelOrderIrrelevant | services/moderation-svc/app/score.py:51-121 | score and tier depend only on which labels occur, not on order or repetition |
| ModerationScore.WorseContentNeverRoutedLower | services/moderation-svc/app/score.py:94-226 | raising a score or confidence, adding a category, label or flag, or gaining a duplicate match or IP claim never lowers score or tier, without a negative bump or a negative score under a negative weight; for thresholds in any order |
| ModerationScore.MonotoneIff | services/moderation-svc/app/score.py:94-129 | for given settings the score is monotone on all contents if and only if the bump is not negative and, where negative scores occur, no weight is |
| ModerationScore.TierMonotone | services/moderation-svc/app/score.py:153-226 | a higher score with no fewer signals is never routed to a lower tier |
| ModerationScore.TierIff | services/moderation-svc/app/score.py:169-216 | exactly which content reaches tier 1, 2 and 3, in flags, parents, claim, score and thresholds |
| ModerationScore.ScoreIsGreatest | services/moderation-svc/app/score.py:94-129 | the score is the greatest of zero, the bare and weighted categories and the weighted labels, plus the duplicate bump, and at most one |
| ModerationScore.ParentScores | services/moderation-svc/app/score.py:51-58 | the loop computes, for exactly the parents that occur, the greatest confidence, not below zero |
| ModerationScore.CombinedScore | services/moderation-svc/app/score.py:94-129 | the score whatever order the dictionaries are taken in; equal to that of labels weighted one by one; between 0 and 1 without a negative bump |
| ModerationScore.TextWeighted | services/moderation-svc/app/score.py:108-114 | the greatest weighted or bare text score, whatever the order |
| ModerationScore.ImageWeighted | services/moderation-svc/app/score.py:116-121 | the greatest weighted group, whatever the order |
| ModerationScore.Route | services/moderation-svc/app/score.py:153-226 | tier, action, hours, forced review and the reason given, in their order of precedence; a forced low score goes to tier 1, where the comment beside it says 2 |
| ModerationScore.ForcedReachesTierTwoIff | services/moderation-svc/app/score.py:212-216 | a forced case reaches tier 2 or more if and only if it is CSAM or its score reaches both lower thresholds |
| MagicLinks.AtMostOneOpenLink | services/auth-svc/app/routers/email_verify.py:56-79 | in every reachable state each user has at most one unconsumed link per purpose |
| MagicLinks.RedeemedAtMostOnce | services/auth-svc/app/routers/email_verify.py:98-140 | over every run each link is redeemed at most once, by token and code together |
| MagicLinks.RejectedLeaveNoTrace | services/auth-svc/app/routers/account.py:121-136 | leaving the rejected requests out of a run changes neither the links and accounts it ends with nor any other answer, also where a consumption was written before the raise |
| MagicLinks.ConsumedForGood | services/auth-svc/app/routers/account.py:57-81 | a consumed link keeps its stamp, is never redeemed, and no link is lost |
| MagicLinks.IssuingRetiresOlderLinks | services/auth-svc/app/routers/password_reset.py:49-72 | once a link is issued no older one of its user and purpose is ever redeemed |
| MagicLinks.TokenRedeemsItsLink | services/auth-svc/app/routers/password_reset.py:80-109 | after any run a token redeems its own link if and only if that is open, unexpired and of the right purpose (and, for an e-mail change, the address still free), to the effect promised and for that user alone |
| MagicLinks.LinkLivesFifteenMinutes | services/auth-svc/app/routers/email_verify.py:125-127 | after any run and any wait the token of a signup or reset link is redeemed if and only if no more than 900 seconds have passed |
| MagicLinks.SignupOpensAccount | services/auth-svc/app/routers/signup.py:98-139 | exactly a free address and an accepted password open an account with them, not verified, and its first link |
| MagicLinks.StartsIssue | services/auth-svc/app/routers/account.py:52-84 | which start requests issue a link, to whom, for what and with which address, retiring the open ones; all others change nothing |
| MagicLinks.UnusableFinishes | services/auth-svc/app/routers/password_reset.py:105-107 | without token and code, or with a refused password, nothing is redeemed |
| MagicLinks.CodeRedeemsUnlessRivalled | services/auth-svc/app/routers/email_verify.py:110-127 | after any run, an open, unexpired verification link is redeemed by its own code whichever matching row the query returns, if and only if no other open link of that purpose, whoever's, has the same code |
| MagicLinks.TwoSignupsRival | services/auth-svc/app/routers/email_verify.py:113-120 | two signups that draw one code: both links are good, and the code redeems either, as the rows happen to be returned |
| MagicLinks.ChangeCodeRedeems | services/auth-svc/app/routers/account.py:110-136 | after any run, an open, unexpired e-mail change link whose address is free is redeemed by its own code, whichever row the query returns |
| MagicLinks.AddressesStayUnique | services/auth-svc/app/routers/account.py:132-140 | signups and e-mail changes never give two users one address |
| MagicLinks.MagicLinkService.IssueLink | services/auth-svc/app/routers/email_verify.py:56-81 | the loop consumes exactly the open links of user and purpose, one new link follows, and a mail failure undoes both |
| MagicLinks.MagicLinkService.Select | services/auth-svc/app/routers/email_verify.py:98-120 | some stored link that the query matches, any of them, if there is one |
| MagicLinks.MagicLinkService.SignupEmail | services/auth-svc/app/routers/signup.py:98-149 | a free address and an accepted password get an account, its first link and the token pair of a first session, whether or not the mail goes out |
| MagicLinks.MagicLinkService.VerifyEmailStart | services/auth-svc/app/routers/email_verify.py:35-83 | unknown and verified addresses change nothing; others get a link |
| MagicLinks.MagicLinkService.VerifyEmailFinish | services/auth-svc/app/routers/email_verify.py:87-140 | redemption marks the link's user as verified |
| MagicLinks.MagicLinkService.ResetPasswordStart | services/auth-svc/app/routers/password_reset.py:34-76 | unknown addresses change nothing; others get a link |
| MagicLinks.MagicLinkService.ResetPasswordFinish | services/auth-svc/app/routers/password_reset.py:80-109 | redemption sets the new password; a refused password keeps the link open |
| MagicLinks.MagicLinkService.ChangeEmailStart | services/auth-svc/app/routers/account.py:43-84 | a free address gets a link that carries it |
| MagicLinks.MagicLinkService.ChangeEmailFinish | services/auth-svc/app/routers/account.py:88-143 | redemption moves the user to the new address, unless it has been taken meanwhile, which leaves the link open |
| UuidV7.UnpackInvertsPack | services/chat-svc/app/uuidv7.py:19-33 | reading the value by the layout of section 5.7 of RFC 9562 gives back the timestamp, version 7, the low 12 bits of the first draw, variant 10b and the low 62 bits of the second |
| UuidV7.GeneratesIffTimestampFits | services/chat-svc/app/uuidv7.py:33-33 | the value fits 128 bits, so that a UUID is produced, if and only if the timestamp is below 2^48 ms |
| UuidV7.PackIsInjective | services/media-svc/app/uuidv7.py:10-21 | two values are equal if and only if timestamps and the random bits used are |
| UuidV7.BytesFollowValues | services/chat-svc/app/uuidv7.py:33-33 | big-endian bytes compare lexicographically as the values do |
| UuidV7.BytesStandForValue | services/chat-svc/app/uuidv7.py:33-33 | the bytes of a value that fits are below 256 and read back as the value |
| UuidV7.BytesSortByTime | services/media-svc/app/uuidv7.py:10-21 | the sixteen bytes of UUIDs made at different milliseconds sort by time |
| UuidV7.PackIsSum | services/chat-svc/app/uuidv7.py:26-32 | the bitwise ors of shifted and masked fields add up to the fields in their places |
| KpiBackfill.RollupSetsItsDay | services/analytics-svc/app/tasks/rollup.py:264-298 | rolling up a day leaves in each of its cells what the sources alone say, and every other cell as it was, whichever metrics fail |
| KpiBackfill.DayHoldsLastRows | services/analytics-svc/app/tasks/rollup.py:284-296 | a cell of the day holds the last row written to it, rows of a metric that raised included; if a statement failed the day stores nothing |
| KpiBackfill.RunSetsCoveredDays | services/analytics-svc/app/tasks/rollup.py:314-331 | after any backfills each cell of a covered day holds what the sources say, every other what it held |
| KpiBackfill.BackfillDependsOnDaysOnly | services/analytics-svc/app/tasks/rollup.py:314-331 | backfills over ranges that cover the same days, repeated, overlapping or reordered, end in the same table |
| KpiBackfill.KpiRollups.UpsertRow | services/analytics-svc/app/tasks/rollup.py:40-51 | an upsert replaces the cell of its day, key and dimensions and no other |
| KpiBackfill.KpiRollups.RollupOneDay | services/analytics-svc/app/tasks/rollup.py:264-298 | the loop over the seven metrics and its commit are the daily rollup; the status says ok of exactly the metrics that ended well before any statement failed |
| KpiBackfill.KpiRollups.BackfillRange | services/analytics-svc/app/tasks/rollup.py:314-331 | the loop over days is the rollup of each day of the range, up to and including the last, and reports exactly those |

## Left out

- Signatures: only minted tokens and genuine webhooks are taken to decode; JWT and HMAC checking are not modelled.
- Hashes and random identifiers: SHA-256 is injective, uuids and opaque tokens never repeat; six-digit codes may.
- Overlapping requests: handlers and deliveries of one key, prediction or table are served one after another.
- Failing commits of the auth requests; in ai-orchestrator-svc commits may fail.
- RefreshTokens.AuthService.RotateToken: whether the user exists and is active is an input of the request, and the rate limit in front, `last_seen_at` and the claims that only describe the user are not modelled.
- The gateway's use of the session keys: only how long they live is shown.
- TokenBucket.RateLimiter.CheckRateLimit: rate and time are exact, not floating point; a failing Redis is not modelled.
- Idempotency.IdempotencyMiddleware.Dispatch: the content headers the framework adds by itself are not modelled, and the stored document is taken to survive its JSON round trip; the handler never raises.
- WebhookSettlement.ConfirmedAreReturned: a call without an answer may have taken effect in billing-svc, which is not part of this model.
- WebhookSettlement.AtMostOneSettlementReturns: per prediction; a redelivered Celery task makes a new prediction, and Redis writes succeed.
- RunCommand.HandleCommand: one request by itself; the cost lookup and the wording of prompts are left out; moderation clients never raise, as in the source.
- MockupConsent.ConsentService.MockupConsent: brief, kind and the calls after the commit are not modelled; listing, screenshots and their audit are left out.
- Entitlements.EntitlementTable.UpdateEntitlements: audit rows, the broadcast after the commit and malformed bodies are left out.
- LoginLockout.BruteForceGuard.LoginEmail: rehashing and the session it opens (see RefreshTokens) are left out; one e-mail address and client address.
- ModerationScore.Route: response hours are the default settings; the breakdown dictionary and its rounding are left out, scores are exact reals.
- MagicLinks.MagicLinkService.SignupEmail: the answer stands for the token pair; the session behind it is RefreshTokens.LoginHandsOutNewest; legal acceptances and the event are left out.
- KpiBackfill.KpiRollups.RollupOneDay: the sources and failures of a day do not change between runs; the text of an error, its report to Sentry, row ids and timestamps are left out.
- Phone codes, wallets and dunning, gateway routing, due dates, preferences, proxies, notifications, user interfaces and telemetry: single branches, tables, or code whose rules are not in the repository.
