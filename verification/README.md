# Burger reviews: verified models of the protocols

Dafny models of the parts of the burger-review service that are protocols or algorithms rather than
plumbing, with proofs of what they promise. `dafny verify dfyconfig.toml` checks all of it.

Three kinds of modules work together:

* **Specification functions** on plain values (`StatsTables`, `OAuthTables`, `Scores`, ...) say what one
  statement, one transaction or one computation does.
* **Code modules** (`StatsService`, `OAuthStore`, `ReviewService`, `MailService`, `SignInService`,
  `OneShotService`, and the loops in `Scores`, `ShopSummaries`, `OAuthScopes`, `JpegOrientation`,
  `PixelTransform`, `Languages`, `TokenCaches`) keep the program's own form: classes whose methods
  reassign their fields, and loops. Every method is proved against a specification.
* **Protocol modules** (`StatsQueue`, `OAuthTokens`, `ReviewPhotos`, `MailQueue`, `SignIn`, `OneShots`,
  `TokenCaches`) interleave the steps of any number of requests and workers. `Reached(s, n)` means that
  some interleaving of `n` steps leads to `s`; the main theorems hold for every reached state.
  `OAuthSafety`, `OAuthDeletion`, `OAuthFlows`, `StatsLateReview`, `StatsDrain` and `StatsWorkers` prove more
  about their runs; `StatsDeletions` and `ShopPhotos` compose them with further steps.

What the specification functions themselves mean is proved apart from their definitions: `StatsWrites` says
what each writer does to the reviews that count, `ScoreLaws` what the score arithmetic amounts to, and the
other modules state such laws beside their functions, with the source's constants written out.

## What is proved

* **Statistics queue.** With writers interleaved between a worker's lock, read and save-and-complete,
  an entity without a pending request shows the count, plain average and photo of its current reviews
  (`StatsQueue.SettledMeansFresh`). Without new writes and with cycles 300 seconds apart the queue
  drains and every entity that was not given up ends fresh (`StatsDrain.QueueDrains`). Writers never
  deadlock on request rows (`StatsLocks.AscendingNeverDeadlocks`). With any number of workers at once,
  as many passes over listed requests as there are attempts left drain it too (`StatsWorkers.WorkersDrain`).
  Account deletions that list and commit at different times do no harm in any run in which nobody posts
  while their own account is being deleted (`StatsDeletions.QuietRunsStayFresh`). A post adds one row to
  what counts for its burger and shops, an edit replaces one, a discard removes one (`StatsWrites`).
* **OAuth token families.** Codes and refresh tokens work once, a family has one live token of each
  kind, every record is covered by an existing grant (`OAuthSafety.TokensAreSafe`); exactly when a
  revocation ends a family (`RevocationExactly`, `RevokedForever`); exactly when an account deletion
  leaves its user without tokens (`OAuthDeletion.DeletionExactly`). From every reached state a consent leads
  to tokens with exactly its scopes (`OAuthFlows.ConsentIsHonoured`).
* **Review photos.** A kept review never names a missing blob, whatever fails (`ReviewPhotos.PhotosNeverDangle`).
  Exactly which steps orphan a blob (`LosesExactly`); in runs without them the stored blobs are exactly
  the photos of kept reviews once all requests are over (`LosslessRuns`). With the statistics composed
  with the photos, a shop shows a stored photo or its recalculation is pending (`ShopPhotos.ShownPhotosAreStored`).
* **Mail.** No send on a closed channel, FIFO, conservation of jobs, at most one delivery per key, and
  at most two notices per address in any 60 seconds (`MailQueue.MailerIsSafe`, `MailNotices.AtMostTwoNotices`);
  a Close that returned nil leaves every job recorded and delivered once, or its record failed
  (`MailQueue.ClosedMeansTreated`); a record reads sent or failed only as its delivery went
  (`MailQueue.RecordsTellTheTruth`).
* **Accounts.** Uniqueness of external accounts, everyone can sign in, secrets that work once
  (`SignIn.AccountsAreReachable`, `OneShots.SecretsWorkOnce`); whoever signed in or linked an external account
  signs in with it again (`SignInService.SignInAgain`, `LinkThenSignIn`).
* **EXIF orientation.** The byte loops equal a declarative reading, which returns what was written
  into any header in either byte order (`JpegOrientation.JpegOrientation`, `JpegFiles.OrientationRoundTrip`);
  the eight transforms mean what the Exif standard says, form a group, and the pixel loops realise it
  (`PixelTransform.*`).
* **Scores, paging, languages, caches.** Bounds, order independence and rounding of the scores; the
  walk over pages under insertion; the choice of a language; two caches.

## Where the code does not meet a promise

Each of these has an exact condition, and those about concurrency a concrete sequence of steps.

* *Account deletion and the statistics.* The deletion lists the reviewed burgers, lists them again for
  their shops, and commits later. A review posted in between escapes the lists. If it has been
  recalculated by the commit, its burger then stays stale (`StatsLateReview.LateReviewBreaksDeletion`);
  if a worker has loaded it but not yet saved, the worker's next step makes the burger stale and
  completes the request (`LoadedReviewBreaksDeletion`). Entities without a request stay current in every
  continuation exactly when whatever counts a review of the user was listed, or is pending and no worker
  is about to complete that very request with facts it has loaded (`LateDeletionExactly`). Runs with only
  such commits stay right (`StatsDeletions.CoveredRunsStayFresh`).
* *Revocation during a rotation.* A revocation is one statement under READ COMMITTED. A rotation that
  commits while it runs leaves tokens it never saw, so a replayed code may not end its family
  (`OAuthSafety.RevocationMissesRotation`). It fails exactly when the family is rotated between its start
  and its end and nothing ends the family after that (`RevocationExactly`), or, seen from its end, exactly
  when a live token is newer than its start (`RevocationSees`); otherwise the family is over for good
  (`RevokedForever`). This is narrower than the comment at
  backend-go/internal/adapter/oauthserver/storage.go:59-63.
* *Linking and account deletion.* `link` checks that the user is active and inserts later. A deletion
  in between leaves an external account bound to a deleted user (`SignIn.LinkOutlivesAccount`), and so
  does an insert between the deletion's clearing of the identities and its commit
  (`LinkEscapesDeletion`). The insert is right exactly when the user is active and no deletion of the
  user is under way (`LinkExactly`), and runs in which all are right keep deleted users without external
  accounts (`NoneOutlive`).
* *Consent and account deletion.* The deletion deletes the grants it sees and commits later. A grant
  approved in between survives it, and a code exchanged for it leaves access and refresh tokens of a
  closed account (`OAuthDeletion.TokenOutlivesAccount`). The deletion works exactly when at its commit no
  token of a later grant exists and no code of one is in hand after the owner check (`DeletionExactly`),
  and runs without such approvals never leave any (`NoneOutlive`). Requests with such tokens are still
  refused, because their owner is not active (`OAuthScopes.Authenticate`).
* *A second provider.* With Google as the only provider every active user can sign in. The unlink rule
  counts links before it removes one, so a second provider would break it (`SignIn.TwoProvidersLockOut`,
  `RemovalExactly`).
* *Far pages.* The offset is the exact one capped to 2^31-1, except exactly with one item per page beyond
  page 2^31-1, where it is 2^31-2 (`Paging.OffsetExactly`). No list of fewer than 2^31-1 rows can tell
  (`Paging.PageIsSlice`).

Where the repository's comments disagree with its code, the code is modelled:
backend-go/internal/usecase/shop_stats_worker.go:11-15 and backend-go/internal/domain/shop_stats.go:84-87
say that the burger worker registers shop requests, but the writers do
(backend-go/internal/usecase/shop_stats.go:54-84); backend-go/db/queries/oauth_grants.sql:3 says that the
caller orders the scopes, but a widening upsert sorts them by name (lines 7-9), so stored scopes are compared as sets.

## Model

| member | source | states |
|---|---|---|
| Rounding.RoundingIsNearest | backend-go/internal/domain/burger_stats.go:162-174 | rounding returns the one grid point nearest to the value, ties away from zero, and no other |
| Rounding.CorrectionNeverFires | backend-go/internal/domain/burger_stats.go:162-174 | in exact arithmetic neither correction branch is taken |
| Rounding.RoundingMonotone | backend-go/internal/domain/burger_stats.go:162-174 | rounding keeps order |
| Rounding.RoundingIdempotent | backend-go/internal/domain/burger_stats.go:162-174 | rounding twice is rounding once |
| Rounding.RoundingWithinHalfStep | backend-go/internal/domain/burger_stats.go:162-174 | rounding moves a value by at most half a grid step |
| Rounding.RoundingStaysWithin | backend-go/internal/domain/burger_stats.go:162-174 | rounding cannot leave an interval with integer ends |
| Scores.TrustRange | backend-go/internal/domain/burger_stats.go:58-92 | helper: trust lies between 0.35 and 1 |
| Scores.ReviewerTrustScore | backend-go/internal/domain/burger_stats.go:58-92 | the accumulating loops compute mean, variance and trust as specified |
| Scores.VarianceOf | backend-go/internal/domain/burger_stats.go:58-92 | the two loops compute the population variance |
| Scores.WeighReview | backend-go/internal/domain/burger_stats.go:149-152 | the weight is trust times recency |
| Scores.ReviewWeight | backend-go/internal/domain/burger_stats.go:149-152 | every review has a positive weight |
| Scores.WeightedAverageRating | backend-go/internal/domain/burger_stats.go:123-131 | the single pass computes the weighted mean and the total weight |
| Scores.CalculateBurgerStat | backend-go/internal/domain/burger_stats.go:203-213 | the stat is count, rounded mean, rounded weighted mean and confidence, also for no reviews |
| Scores.WeightedAverageWithin | backend-go/internal/domain/burger_stats.go:100-131 | the weighted average lies between the smallest and largest rating, before and after rounding |
| Scores.AverageRatingWithin | backend-go/internal/domain/burger_stats.go:135-144 | so does the plain average |
| Scores.ConfidenceRange | backend-go/internal/domain/burger_stats.go:100-117 | confidence lies in [0,1] and is positive for a non-empty list |
| Scores.StatOrderIndependent | backend-go/internal/domain/burger_stats.go:203-213 | the order of the facts does not change the stat |
| Scores.TrustOrderIndependent | backend-go/internal/domain/burger_stats.go:58-92 | the order of a history does not change trust |
| ScoreLaws.VarianceIsSpread | backend-go/internal/domain/burger_stats.go:58-92 | the population variance is the mean of the squares less the square of the mean |
| ScoreLaws.TrustTable | backend-go/internal/domain/burger_stats.go:58-92 | helper: trust is 0.5, 0.7, 0.9 or 1 by the number of ratings, and from three on 0.7 times that if they hardly vary |
| ScoreLaws.OlderWeighsHalf | backend-go/internal/domain/burger_stats.go:149-152 | for a decay with a half-life, a review one half-life older weighs half as much |
| ScoreLaws.OneMoreReview | backend-go/internal/domain/burger_stats.go:123-131 | one more review pulls the average towards its own stars by exactly its share of the weight |
| ScoreLaws.OnlyReview | backend-go/internal/domain/burger_stats.go:123-131 | a single review's average is its own stars |
| ScoreLaws.StatPrecision | backend-go/internal/domain/burger_stats.go:203-213 | the published numbers are within half a unit of their last digit of the exact mean, weighted mean and confidence |
| ShopSummaries.CalculateShopStat | backend-go/internal/domain/shop_stats.go:51-73 | one pass gives count, weighted average and the photo of the newest review with one |
| ShopSummaries.SummaryIsUnique | backend-go/internal/domain/shop_stats.go:51-82 | any two permutations of one list have the same summary |
| ShopSummaries.ShopAverageWithin | backend-go/internal/domain/shop_summary.go:21-24 | the published average keeps within the given stars |
| ScoreLaws.ShopPrecision | backend-go/internal/domain/shop_stats.go:51-73 | a shop's average is within 0.05 of the exact weighted mean |
| Listings.List | backend-go/db/queries/burger_stats.sql:28-40 | listing a set in an order gives its one sorted list |
| Listings.SortedUnique | backend-go/internal/usecase/unit_of_work.go:105-122 | a set has only one sorted list, so re-sorting a sorted read changes nothing |
| StatsService.StatsDatabase.RequestRecalc | backend-go/db/queries/burger_stats_recalc_requests.sql:1-11 | the upsert draws a new version and clears attempts and retry time, so the entity is due at once; no other request changes |
| StatsService.StatsDatabase.CompleteRecalc | backend-go/internal/adapter/repository/burger_stat_repository.go:68-77 | the request goes only if its version is the one listed, and the caller learns which |
| StatsService.StatsDatabase.RecordRecalcFailure | backend-go/internal/adapter/repository/burger_stat_repository.go:81-92 | a failure is recorded only on the listed version |
| StatsService.StatsDatabase.ListBurgerShopIDs | backend-go/internal/adapter/query/shop_stats_query.go:67-73 | the shops of a burger, ascending |
| StatsService.StatsDatabase.ListReviewedBurgerIDsByUser | backend-go/internal/adapter/query/burger_stats_query.go:63-69 | the burgers with kept reviews of a user, each once, ascending |
| StatsService.StatsDatabase.RequestRecalculationReviewedBy | backend-go/internal/usecase/unit_of_work.go:110-122 | a request for every reviewed burger in ascending order |
| StatsService.StatsDatabase.RequestRecalculationForBurgers | backend-go/internal/usecase/shop_stats.go:62-84 | a request for every linked shop, each once, in ascending order |
| StatsService.StatsDatabase.RequestForBurger | backend-go/internal/usecase/reviews.go:202-212 | a review write requests its burger and then its shops |
| StatsService.StatsDatabase.CreateReview | backend-go/internal/usecase/reviews.go:192-217 | the posted review, a burger new to the shop with its link, and all requests appear together or not at all, and which it is depends on burger and shop alone |
| StatsService.StatsDatabase.UpdateReview | backend-go/internal/usecase/reviews.go:253-270 | a kept review takes the new rating, and the new photo if one came; author, burger, time and every other review stay, and the requests come with it |
| StatsService.StatsDatabase.DeleteReview | backend-go/internal/usecase/reviews.go:300-312 | a kept review is discarded and nothing else about it or any other review changes; its requests are in the same transaction |
| StatsService.StatsDatabase.DeleteAccount | backend-go/internal/usecase/users.go:138-165 | closing an open account keeps its reviews in the table and requests every burger the user reviewed and their shops |
| StatsService.StatsDatabase.LoadReviewerHistories | backend-go/internal/adapter/query/burger_stats_query.go:93-115 | dealing out one ordered read gives each user that user's own ordered history |
| StatsService.HistoryOfRead | backend-go/internal/adapter/query/burger_stats_query.go:93-115 | the shared read and a read of one user alone list the same ratings |
| StatsService.StatsDatabase.ListBurgerReviewFacts | backend-go/internal/adapter/query/burger_stats_query.go:36-58 | the facts are the counted reviews in order with their authors' histories |
| StatsService.StatsDatabase.ListShopReviewFacts | backend-go/internal/adapter/query/shop_stats_query.go:34-62 | the same over all burgers of the shop |
| StatsService.StatsDatabase.Recalculate | backend-go/internal/usecase/stats_worker.go:77-86 | lock, read, compute, save and complete in one transaction; a burger that is gone is an error without effect, a shop that is gone is only completed |
| StatsService.StatsDatabase.ListDue | backend-go/internal/adapter/query/burger_stats_query.go:74-88 | exactly requests that were not given up and whose time has come, never failed first, then by time and id; one is left out only if the batch is full of earlier ones |
| StatsService.StatsDatabase.RunOnce | backend-go/internal/usecase/stats_worker.go:53-74 | until the context is cancelled each due request is completed or its failure recorded if it can be, missing burgers fail, and the result is the number of requests that succeeded |
| StatsService.StatsDatabase.Handle | backend-go/internal/usecase/stats_worker.go:90-109 | a failed recalculation leaves only the record of its failure |
| StatsService.ListedEarliestFirst | backend-go/db/queries/burger_stats_recalc_requests.sql:13-21 | whoever awaits a recalculation is listed or stands behind a full batch of earlier ones, whatever order the list was made with |
| StatsWrites.PostAddsRow | backend-go/internal/usecase/reviews.go:192-217 | a post adds exactly its row to the reviews counted for its burger and for every shop that serves it, the one where the burger is new among them, and to no other entity |
| StatsWrites.EditReplacesRow | backend-go/internal/usecase/reviews.go:253-270 | an edit replaces, wherever the review counts, its one row by the one with the new rating, and changes no other row of any entity |
| StatsWrites.DiscardRemovesRow | backend-go/internal/usecase/reviews.go:300-312 | a discard removes exactly the review's row wherever it counted |
| StatsWrites.DeletionRemovesRows | backend-go/internal/usecase/users.go:138-165 | closing an account removes exactly the rows of its user from what counts for any entity |
| StatsWrites.ReachedKnown | backend-go/db/migrations/000005_create_reviews.up.sql:6 | in every reached state a review is of a burger in the table, so a burger that comes with a new link has none yet |
| StatsWrites.RequestedDueAtOnce | backend-go/db/queries/burger_stats_recalc_requests.sql:1-11 | each entity of a list of requests ends without failures and without a time to wait for |
| StatsWrites.WriteRevives | backend-go/db/queries/burger_stats_recalc_requests.sql:1-11 | a write makes every entity it touches due at once, however often its recalculation failed or was given up, and no other request changes |
| StatsWrites.ShownAverage | backend-go/internal/domain/burger_stats.go:135-144 | in every run a burger without a request shows the number of its counted reviews and an average between their smallest and largest rating |
| StatsWrites.ShownPhoto | backend-go/internal/domain/shop_stats.go:51-82 | in every run a shop without a request shows the photo of the counted review posted last among those with one, the greater id deciding between equal times |
| StatsWrites.HistoryIs | backend-go/internal/adapter/query/burger_stats_query.go:93-115 | a history holds one rating for each kept review of its user, of whatever burger |
| StatsWrites.FactOfReview | backend-go/internal/adapter/query/burger_stats_query.go:36-58 | a burger has one fact for each counted review, with its stars, its time and its author's history |
| StatsWrites.ShopFactOfReview | backend-go/internal/adapter/query/shop_stats_query.go:34-62 | so has a shop, with the photo too |
| StatsQueue.ComputedAgrees | backend-go/internal/usecase/unit_of_work.go:136-152 | a row computed from the current tables carries the current numbers |
| StatsQueue.RequestsRaised | backend-go/db/queries/burger_stats_recalc_requests.sql:1-11 | every requested row gets a version drawn after all earlier ones; no other row changes |
| StatsQueue.TouchedMembers | backend-go/internal/usecase/shop_stats.go:62-84 | exactly the changed burgers and the shops that serve them are requested |
| StatsQueue.WriteEffect | backend-go/internal/usecase/reviews.go:192-212 | whatever entity a writer changes the reviews of, it also requests anew |
| StatsQueue.WriteKeepsInv | backend-go/internal/usecase/reviews.go:192-312 | a writer transaction at any point between a worker's steps keeps the invariant |
| StatsQueue.FinishKeepsInv | backend-go/internal/usecase/stats_worker.go:77-86 | saving and comparing versions keeps the invariant even if the facts are outdated |
| StatsQueue.RemoveShopKeepsInv | backend-go/internal/usecase/shop_stats.go:111-117 | a shop removed after its request was listed does no harm |
| StatsQueue.RecordKeepsInv | backend-go/internal/usecase/stats_worker.go:90-109 | recording a failure keeps the invariant |
| StatsQueue.StepKeepsInv | backend-go/internal/usecase/stats_worker.go:40-86 | every step of writers and workers keeps the invariant |
| StatsQueue.SettledMeansFresh | backend-go/internal/usecase/unit_of_work.go:81-152 | in every reached state an entity without a request is current, and a worker with loaded facts has current numbers or leaves a newer request |
| StatsLateReview.LeftIsWritten | backend-go/internal/usecase/users.go:146-161 | helper: the atomic deletion is the one that lists at commit time |
| StatsLateReview.LateDeletionKeepsInv | backend-go/internal/usecase/unit_of_work.go:110-122 | a deletion that listed burgers and shops earlier keeps the queue's invariant if and only if it is covered: each counted review was listed, or is awaited by a request nobody is about to complete with older facts |
| StatsLateReview.LateDeletionExactly | backend-go/internal/usecase/shop_stats.go:95-101 | after any run, statistics without a request stay current in every continuation if and only if the deletion is covered |
| StatsLateReview.LateReviewBreaksDeletion | backend-go/internal/usecase/users.go:146-161 | five steps after which committing such a deletion leaves a stale burger at once |
| StatsLateReview.LoadedReviewBreaksDeletion | backend-go/internal/usecase/users.go:146-161 | four steps after which the commit is still fine but a worker's next step leaves a stale burger without a request |
| StatsDeletions.CoveredRunsStayFresh | backend-go/internal/usecase/users.go:146-161 | in every run in which deletions list statement by statement, commit later and are covered when they commit, every entity without a request is current |
| StatsDeletions.QuietRunsStayFresh | backend-go/internal/usecase/shop_stats.go:62-101 | every commit is covered, and every entity without a request current, in all runs in which nobody posts a review between the first listing and the commit of their own account's deletion |
| StatsDeletions.CompleteIsCovered | backend-go/internal/usecase/unit_of_work.go:110-122 | a deletion whose lists hold all burgers its user has reviews on, and their shops, is covered |
| StatsLocks.TouchedAscends | backend-go/internal/usecase/unit_of_work.go:105-122 | helper: a writer takes its request rows in one ascending order |
| StatsLocks.AscendingNeverDeadlocks | backend-go/internal/usecase/shop_stats.go:54-61 | writers that take ascending rows are never deadlocked |
| StatsLocks.OppositeOrdersDeadlock | backend-go/internal/usecase/shop_stats.go:54-61 | without the order two writers suffice for a deadlock |
| StatsDrain.RetryDelayIsCappedDoubling | backend-go/internal/domain/burger_stats.go:282-301 | the delay is min(2 * 2^(n-1), 300) seconds for every n |
| StatsDrain.RetryDelays | backend-go/internal/domain/burger_stats.go:282-301 | 2, 4, 8, ... 256 seconds after the first eight failures, then always 300 |
| StatsDrain.RetryDelayNeverShrinks | backend-go/internal/domain/burger_stats.go:282-301 | the delay never decreases and stays within 2 and 300 seconds |
| StatsDrain.CycleExactly | backend-go/internal/usecase/stats_worker.go:53-109 | after a cycle each listed request is gone or has one more failure, nothing else changed, and the attempts left fell by at least the number handled |
| StatsWorkers.WorkersDrain | backend-go/internal/usecase/stats_worker.go:53-109 | with any workers at once and no new writes, as many listed-and-handled requests in succession as attempts are left end with all requests gone or given up; entities without a recorded failure are current |
| StatsWorkers.WornSlack | backend-go/internal/usecase/stats_worker.go:90-109 | attempts left never grow without writes, and fall whenever any request is completed, removed or fails |
| StatsDrain.LiveIsDue | backend-go/db/queries/burger_stats_recalc_requests.sql:13-21 | while a request is left to try, a late enough cycle lists one |
| StatsDrain.HandledKeepsSettled | backend-go/internal/usecase/stats_worker.go:77-109 | handling a request keeps every settled entity current |
| StatsDrain.QueueDrains | backend-go/internal/usecase/stats_worker.go:40-109 | without writes, as many spaced cycles as attempts are left end with every request gone or given up, and every entity that never fails current |
| OAuthScopes.MergeOAuthScopes | backend-go/internal/domain/oauth.go:179-200 | the loops give the one canonical list of the names in either list |
| OAuthScopes.MergeIsUnion | backend-go/internal/domain/oauth.go:177-200 | merging is commutative, associative, idempotent and fixes canonical lists |
| OAuthScopes.CanonicalUnique | backend-go/internal/domain/oauth.go:177-200 | a set of names has one canonical list, without duplicates |
| OAuthScopes.AlphabeticalIs | backend-go/internal/domain/oauth.go:194-199 | the recursive order of unknown names is that of the first character in which they differ, a prefix coming first |
| OAuthScopes.ScreenOrder | backend-go/internal/domain/oauth.go:177-200 | merged lists show read, write, admin and then unknown names in their order |
| OAuthScopes.OAuthConsentRequired | backend-go/internal/domain/oauth.go:205-212 | consent is needed exactly when a requested scope was not granted |
| OAuthScopes.ApprovedNeedsNoConsent | backend-go/internal/usecase/oauth.go:173-186 | helper: after an approval neither the approved nor the earlier scopes need consent again |
| OAuthScopes.Validate | backend-go/internal/domain/oauth.go:165-175 | accepted exactly when non-empty and all known |
| OAuthScopes.Permits | backend-go/internal/domain/oauth_grant.go:25-33 | wrong owner or app first, then the scopes |
| OAuthScopes.Check | backend-go/internal/domain/oauth.go:239-253 | audience first; otherwise exactly the missing scopes, in the order asked |
| OAuthScopes.MissingInOrder | backend-go/internal/domain/oauth.go:243-248 | the missing scopes of two lists in a row are those of the first and then those of the second |
| OAuthScopes.Authenticate | backend-go/internal/usecase/oauth.go:47-72 | accepted exactly for a known token of this audience, an active owner and all scopes; an inactive owner is invalid whatever is missing |
| OAuthStore.TokenDatabase.Save | backend-go/internal/adapter/repository/oauth_token_session_repository.go:29-45 | saved active, only with an existing grant and a new signature |
| OAuthStore.TokenDatabase.Use | backend-go/internal/adapter/repository/oauth_token_session_repository.go:50-59 | one attempt finds the record active; missing and inactive are told apart |
| OAuthStore.TokenDatabase.Rotate | backend-go/internal/adapter/repository/oauth_token_session_repository.go:63-72 | deactivates the token and drops the family's access tokens, or changes nothing |
| OAuthStore.TokenDatabase.RevokeRequest | backend-go/internal/adapter/repository/oauth_token_session_repository.go:87-92 | undisturbed, it removes the family's access tokens, ends its refresh tokens, changes nothing else, and leaves no live token of the family |
| OAuthTokens.ForgetKeepsInv | backend-go/internal/adapter/repository/oauth_token_session_repository.go:95-100 | removing a single record keeps every record covered, every family's rules and what each request under way relies on |
| OAuthStore.TokenDatabase.ExchangeCode | backend-go/internal/adapter/oauthserver/storage.go:59-89 | an active code gives an access and a refresh token with exactly its scopes, family, grant and user and is used up, no other record changing; or nothing happens |
| OAuthStore.TokenDatabase.RotateRefreshToken | backend-go/internal/adapter/oauthserver/storage.go:303-314 | an active refresh token gives a new pair with exactly the scopes asked for and is used up, its family's access tokens go, no other record changing; or nothing happens |
| OAuthStore.TokenDatabase.CreateOAuthGrant | backend-go/internal/adapter/repository/oauth_grant_repository.go:25-36 | the grant of this user and app holds what it held before and the approved scopes, nothing beyond, under the same id or as a new row if there was none; other grants stay |
| OAuthStore.TokenDatabase.Revoke | backend-go/internal/adapter/repository/oauth_grant_repository.go:40-49 | only the owner's grant goes, with all its tokens and no others |
| OAuthStore.TokenDatabase.DeleteAccount | backend-go/internal/usecase/users.go:146-155 | closing an open account removes all its grants and their tokens and no others |
| OAuthTables.ExchangedIs | backend-go/internal/adapter/oauthserver/storage.go:59-89 | helper: record by record, an exchange issues a pair with exactly the code's scopes and uses up nothing but the code |
| OAuthTables.RotatedIs | backend-go/internal/adapter/oauthserver/storage.go:303-314 | helper: a rotation issues a pair with exactly the scopes asked for and removes exactly the family's access tokens |
| OAuthTokens.ApproveKeepsInv | backend-go/internal/domain/oauth_grant.go:78-92 | widening a grant keeps the invariant |
| OAuthTokens.IssueKeepsInv | backend-go/internal/adapter/oauthserver/server.go:226-273 | a code issued after the grant was checked is covered, even if grants changed in between |
| OAuthTokens.ExchangeKeepsInv | backend-go/internal/adapter/oauthserver/storage.go:59-89 | an exchange after the owner was checked keeps the invariant, even if the account was deleted in between |
| OAuthTokens.RotateKeepsInv | backend-go/internal/adapter/oauthserver/storage.go:303-314 | so does a rotation |
| OAuthTokens.ReadKeepsInv | backend-go/internal/adapter/oauthserver/server.go:308-366 | reading, owner checks, reuse detection and losing a race keep the invariant |
| OAuthTokens.EndRevocationKeepsInv | backend-go/db/queries/oauth_token_sessions.sql:30-40 | a revocation of the rows it saw keeps the invariant |
| OAuthTokens.WithdrawKeepsInv | backend-go/internal/usecase/oauth.go:214-219 | withdrawing a grant keeps the invariant |
| OAuthTokens.CommitDeleteKeepsInv | backend-go/internal/usecase/users.go:146-155 | committing an account deletion that saw its grants earlier keeps the invariant |
| OAuthTokens.StepKeepsInv | backend-go/internal/adapter/oauthserver/storage.go:195-341 | every step keeps the invariant |
| OAuthFlows.ApprovedPasses | backend-go/internal/usecase/oauth.go:173-186 | in every reached state a saved consent passes the grant check before its code is issued, unless its grant was withdrawn or deleted |
| OAuthFlows.ConsentIsHonoured | backend-go/internal/usecase/oauth.go:173-186 | from every reached state a consent leads, with nothing in between, to a code and to live tokens with exactly its scopes, under a grant that holds the earlier scopes and these |
| OAuthFlows.RefreshIsHonoured | backend-go/internal/adapter/oauthserver/storage.go:284-334 | from every reached state a live refresh token of an open account leads to a new pair with exactly the scopes asked for, if these are among its own |
| OAuthSafety.TokensAreSafe | backend-go/internal/domain/oauth_token_session.go:31-66 | in every reached state codes and refresh tokens were used at most once, a family has one live token of each kind, every record is covered by a grant, and only used codes' families are revoked |
| OAuthSafety.OnlyRotationRenews | backend-go/internal/adapter/oauthserver/storage.go:284-334 | once its code is used, only a rotation gives a family new live tokens |
| OAuthSafety.DeadStaysDead | backend-go/internal/adapter/oauthserver/storage.go:316-334 | a family without a usable code or token never has one again |
| OAuthSafety.RevocationSees | backend-go/db/queries/oauth_token_sessions.sql:30-40 | over any run from its start to its end, a revocation ends its family if and only if no token live at the end was issued after the start |
| OAuthSafety.RevocationExactly | backend-go/db/queries/oauth_token_sessions.sql:30-40 | it fails if and only if the family is rotated in between and still live from then to the end |
| OAuthSafety.RevokedForever | backend-go/internal/adapter/oauthserver/server.go:334-346 | a revocation that was not so overtaken ends the family in every continuation |
| OAuthSafety.RevocationMissesRotation | backend-go/internal/adapter/oauthserver/server.go:334-346 | fourteen steps after which a revoked family has live tokens |
| OAuthDeletion.GoneStays | backend-go/internal/usecase/users.go:146-155 | once a closed account has no token and no code in hand, no step gives it one |
| OAuthDeletion.DeletionExactly | backend-go/db/queries/oauth_grants.sql:19-21 | a deletion leaves its user without access and refresh tokens in every continuation if and only if at its commit no token of a grant it did not see exists and no such code is past the owner check |
| OAuthDeletion.NoneOutlive | backend-go/internal/usecase/users.go:146-155 | in every run without a grant approved for a user being deleted no access or refresh token outlives its owner's account |
| OAuthDeletion.TokenOutlivesAccount | backend-go/internal/usecase/users.go:146-155 | eight steps after which a closed account has live tokens |
| ReviewPhotos.StepKeepsInv | backend-go/internal/usecase/reviews.go:166-353 | every step, failing or not, keeps the invariant |
| ReviewPhotos.PhotosNeverDangle | backend-go/internal/usecase/reviews.go:166-353 | in every reached state a kept review's photo is stored and nobody else's, and every stored photo is a review's, a request's or lost |
| ReviewPhotos.LosesExactly | backend-go/internal/usecase/reviews.go:320-353 | a step orphans a blob if and only if it loses that very key by a failed clean-up or upload, a crash or an overtaken edit, and the blob is still stored and in nobody's hands; the history grows by exactly the lost key |
| ReviewPhotos.LosslessRuns | backend-go/internal/usecase/reviews.go:166-353 | in every run that loses no key the stored blobs are exactly the photos of kept reviews and those in the hands of requests, and when all requests are over exactly the former |
| ReviewPhotos.AssumptionIsNeeded | backend-go/internal/usecase/unit_of_work.go:64-71 | if an error could hide a commit, the clean-up would break the review exactly when the edit carried a photo |
| ShopPhotos.StepKeepsOneTable | backend-go/internal/usecase/reviews.go:166-314 | posting, editing and discarding a review are one step for the statistics and for the photos, so both speak of the same reviews throughout |
| ShopPhotos.ShownPhotosAreStored | backend-go/internal/domain/shop_stats.go:51-73 | in every interleaving the photo a shop shows is the stored photo of a kept review that counts for the shop, or a recalculation of the shop is pending |
| ReviewService.Reviews.Create | backend-go/internal/usecase/reviews.go:166-225 | the review appears with its photo or nothing does; without failing deletes no blob is left over |
| ReviewService.Reviews.Update | backend-go/internal/usecase/reviews.go:239-286 | missing, then forbidden, then storage and transaction errors; a success swaps the key and frees the old blob |
| ReviewService.Reviews.Delete | backend-go/internal/usecase/reviews.go:292-314 | the blob goes only after the discard committed |
| ReviewPhotos.StepKeepsPrivate | backend-go/internal/usecase/reviews.go:320-333 | an uploaded photo is known to its own request only until a row names it |
| ReviewPhotos.CleanupIsSafe | backend-go/internal/usecase/reviews.go:344-353 | from the moment a request is left with a blob to delete, no kept review names it in any continuation, so deleting it at any time breaks none |
| MailQueue.SendKeepsInv | backend-go/internal/adapter/infra/async_mailer.go:92-104 | helper: a send between any steps of others keeps the invariant |
| MailQueue.CloseKeepsInv | backend-go/internal/adapter/infra/async_mailer.go:150-169 | helper: so does a close |
| MailQueue.RecordKeepsInv | backend-go/internal/adapter/infra/async_mailer.go:114-129 | only the creator of a record goes on to deliver |
| MailQueue.MailerIsSafe | backend-go/internal/adapter/infra/async_mailer.go:64-169 | in every schedule nothing is sent on a closed channel, the bound and the order hold, accepted = waiting + in work + finished, a key is delivered at most once, and a Close that returned nil means all are finished |
| MailQueue.ClosedMeansTreated | backend-go/internal/adapter/infra/async_mailer.go:106-169 | in every schedule, once a Close has returned nil every accepted key is recorded unless its record failed, nothing else is recorded, and each record was delivered exactly once and nothing else at all |
| MailQueue.JobsMoveKeeps | backend-go/internal/adapter/infra/async_mailer.go:106-145 | whatever a worker does next, every job taken from the channel is recorded, failed to be, or is being recorded, and every record is delivered or about to be |
| MailQueue.ClosedForGood | backend-go/internal/adapter/infra/async_mailer.go:147-169 | helper: after such a Close nothing is accepted, recorded or delivered any more |
| MailQueue.RecordsTellTheTruth | backend-go/internal/adapter/infra/async_mailer.go:131-145 | in every reached state a record reads sent only if the one delivery of its key succeeded, failed only if it failed, and pending only during the delivery or if the result could not be recorded |
| MailNotices.TwoWindows | backend-go/internal/domain/mail_delivery.go:45-51 | helper: any 60 seconds, before or after 1970, fall into at most two windows |
| MailNotices.AtMostTwoNotices | backend-go/internal/domain/mail_delivery.go:45-51 | whatever the letter case, requests within any 60 seconds bring at most two notices to an address |
| MailNotices.DifferentKeys | backend-go/internal/domain/mail_delivery.go:45-51 | two requests less than a minute apart have different keys exactly when a window ends between them |
| MailNotices.KeysOfRequests | backend-go/internal/domain/mail_delivery.go:45-51 | two requests share a key if and only if their addresses differ at most in letter case and they fall into one window |
| MailNotices.QuotientIs | backend-go/internal/domain/mail_delivery.go:49 | a window is the quotient rounded towards zero, as Go divides, and no other number |
| Letters.LowerIs | backend-go/internal/domain/mail_delivery.go:48-51 | lowered addresses have no capitals, and are equal exactly if the addresses differ at most in letter case |
| MailNotices.LowerIdempotent | backend-go/internal/domain/mail_delivery.go:48-51 | helper: lowering an address twice changes nothing |
| MailService.AsyncMailer.Enqueue | backend-go/internal/adapter/infra/async_mailer.go:92-104 | accepted at the end of the queue exactly when open and not full |
| MailService.AsyncMailer.Process | backend-go/internal/adapter/infra/async_mailer.go:114-145 | delivers exactly when this job created the record, which then reads sent after a success, failed after a failure, and pending if that could not be recorded; other records stay |
| MailService.AsyncMailer.Work | backend-go/internal/adapter/infra/async_mailer.go:106-111 | drains the queue; every new key whose record succeeds is delivered once |
| MailService.AsyncMailer.Close | backend-go/internal/adapter/infra/async_mailer.go:150-169 | stops the intake and works off what was accepted |
| SignupRequests.ConfirmationsAreSpaced | backend-go/db/queries/signup_verifications.sql:1-25 | accepted requests have distinct mail keys, and mails for one pending row are at least a minute apart |
| SignIn.StepKeepsBase | backend-go/internal/adapter/repository/user_identity_repository.go:37-57 | the unique keys survive every step with any providers |
| SignIn.StepKeepsSignIn | backend-go/internal/usecase/google_login.go:373-393 | with one provider every step leaves active users a way to sign in |
| SignIn.AccountsAreReachable | backend-go/internal/usecase/google_login.go:195-294 | in every reached state external accounts and addresses are unique, and with one provider every active user can sign in |
| SignIn.RemovalExactly | backend-go/internal/domain/user_identity.go:77-82 | a removal is right if and only if a password or another link exists at that moment |
| SignIn.LinkExactly | backend-go/internal/usecase/google_login.go:262-294 | after a link, deleted users stay without external accounts in every continuation with right links if and only if its user was active and not being deleted |
| SignIn.NoneOutlive | backend-go/internal/usecase/users.go:146-157 | in runs all of whose links meet that condition no deleted user has an external account, though a deletion clears and commits at different times |
| SignIn.LinkOutlivesAccount | backend-go/internal/usecase/google_login.go:262-294 | six steps after which a deleted user holds an external account |
| SignIn.LinkEscapesDeletion | backend-go/internal/usecase/users.go:146-157 | the same with the insert before the commit, while the user is still active |
| SignIn.UndisturbedDeletion | backend-go/internal/usecase/users.go:146-157 | helper: a deletion with nothing between its clearing and its commit frees exactly the user's external accounts |
| SignIn.TwoProvidersLockOut | backend-go/internal/usecase/google_login.go:373-393 | with a second provider, ten steps after which a user cannot sign in |
| SignInService.SignInDatabase.CreateUser | backend-go/internal/domain/user.go:128-134 | an account without a password must ask for that; addresses stay unique |
| SignInService.SignInDatabase.CreateIdentity | backend-go/internal/adapter/repository/user_identity_repository.go:37-57 | inserted exactly when neither unique key is violated; a taken account is reported before a second link of the user |
| SignInService.SignInDatabase.SignInLinked | backend-go/internal/usecase/google_login.go:243-260 | none if the account is linked to nobody; otherwise its user is signed in if active and refused if not |
| SignInService.SignInDatabase.SignInWith | backend-go/internal/usecase/google_login.go:195-238 | an active linked user is signed in and an inactive one refused; an account linked to nobody becomes a new user without a password if the address is free, and is not linked otherwise |
| SignInService.SignInDatabase.Link | backend-go/internal/usecase/google_login.go:262-294 | refused for an inactive user, linked if it is theirs already, taken, a second of its provider, or linked, in this order; only the last adds the link |
| SignInService.SignInDatabase.Unlink | backend-go/internal/usecase/google_login.go:373-393 | not linked, inactive and the last way to sign in are errors in this order; otherwise exactly the links of this provider go |
| SignInService.SignInDatabase.UpdateProfile | backend-go/internal/adapter/repository/user_repository.go:71-108 | never takes a password away and keeps addresses unique |
| SignInService.SignInDatabase.DeleteAccount | backend-go/internal/usecase/users.go:146-157 | frees the external accounts of the deleted user |
| SignInService.SignInAgain | backend-go/internal/usecase/google_login.go:195-260 | round trip: whoever signed in with an external account, new or not, signs in with it again as the same user, whatever address comes with it |
| SignInService.LinkThenSignIn | backend-go/internal/usecase/google_login.go:243-294 | round trip: after a link its external account signs in the user it was linked to |
| OneShots.SecretsWorkOnce | backend-go/internal/usecase/google_login.go:309-346 | in every reached state each secret was used at most once and is gone, tokens come only from signed-in outcomes, and confirmed accounts match their rows |
| OneShots.TokenForActiveUser | backend-go/internal/usecase/google_login.go:323-337 | helper: a token is signed if and only if the outcome is signed in and the user is active when read, and for that very user; otherwise the answer is the outcome without a token, or a failure for an inactive user |
| OneShots.RefusalsLeaveRows | backend-go/internal/usecase/google_login.go:309-346 | helper: only a committed use, a replacement or an expiry removes a row, and nothing alters what a row says |
| OneShots.WrongBinderOnlyRollsBack | backend-go/internal/domain/login_handoff.go:68-73 | helper: with a wrong binder an attempt can only roll back, and the row stays |
| OneShots.StepKeepsInv | backend-go/internal/usecase/signup.go:203-236 | every step of concurrent attempts keeps the invariant |
| OneShotService.OneShotDatabase.IssueHandoff | backend-go/internal/domain/login_handoff.go:130-152 | stored for 60 seconds, and only if a user comes with exactly the outcomes that need one |
| OneShotService.OneShotDatabase.Redeem | backend-go/internal/usecase/google_login.go:309-346 | unknown, expired and wrongly bound codes are one error; a signed-in outcome gives its active user the token and an inactive one a failure, any other outcome comes without; only a success uses the code up, and an internal error means exactly that a call it needed failed |
| OneShotService.OneShotDatabase.RequestSignup | backend-go/db/queries/signup_verifications.sql:1-25 | one pending row per address; replaced only a minute after the last mail, with the next generation |
| OneShotService.OneShotDatabase.Confirm | backend-go/internal/usecase/signup.go:203-236 | the account is created exactly when the row is removed; anything else is one error and no change |
| JpegOrientation.ExifOrientation | backend-go/internal/photo/orientation.go:77-123 | in bounds, 1 to 8, and the value of the first orientation entry of a readable directory |
| JpegOrientation.JpegOrientation | backend-go/internal/photo/orientation.go:29-72 | in bounds, terminating, 1 to 8, and the orientation of the first Exif segment among the first 32 |
| JpegOrientation.ReadSegment | backend-go/internal/photo/orientation.go:35-66 | one turn of the walk, in bounds: the segment at a place after its fill bytes, whether to skip it, stop, or read its Exif payload |
| JpegOrientation.OrientationUnique | backend-go/internal/photo/orientation.go:29-123 | every input has exactly one orientation |
| JpegOrientation.NothingReached | backend-go/internal/photo/orientation.go:35-72 | a walk that stops or has passed 32 segments means orientation 1 |
| JpegOrientation.UnreadableMeansOne | backend-go/internal/photo/orientation.go:81-98 | a stream that is too short, of unknown byte order or without the magic number means orientation 1, whatever follows |
| JpegFiles.TiffRoundTrip | backend-go/internal/photo/orientation.go:77-123 | a stream built with an orientation reads back as that, in either byte order |
| JpegFiles.OrientationRoundTrip | backend-go/internal/photo/orientation.go:29-123 | so does a whole header with fill bytes and up to 31 other segments in front, and no other value qualifies |
| JpegFiles.LiteralHeaders | backend-go/internal/photo/orientation.go:29-123 | two headers given byte by byte, big-endian and little-endian, are read as their orientation |
| JpegFiles.WrongEntry | backend-go/internal/photo/orientation.go:106-121 | an orientation entry of another type, of several values or out of range means 1 and nothing else |
| JpegFiles.NothingBehindScan | backend-go/internal/photo/orientation.go:52-56 | a scan that starts at once means orientation 1, whatever is behind it |
| PixelTransform.ThenComposes | backend-go/internal/photo/orientation.go:141-160 | the eight orientations are closed under composition on every pixel and size |
| PixelTransform.InverseUndoes | backend-go/internal/photo/orientation.go:141-160 | 6 and 8 undo each other, the rest undo themselves, and nothing else does |
| PixelTransform.GroupLaws | backend-go/internal/photo/orientation.go:141-160 | composition is associative with 1 as unit |
| PixelTransform.RowAndColumn | backend-go/internal/photo/orientation.go:141-160 | helper: each of the eight values puts row 0 and column 0 of the stored image on the edges that the Exif standard names for it |
| PixelTransform.MovedIsBijection | backend-go/internal/photo/orientation.go:139-161 | every destination pixel has exactly one source, and insides match |
| PixelTransform.Orient | backend-go/internal/photo/orientation.go:129-164 | the loops fill every pixel of the turned image from its one source; out-of-range values pass the image through |
| PixelTransform.ShrunkSize | backend-go/internal/photo/photo.go:179-194 | sizes stay in 1..1600, never grow, change only if too large, and keep the aspect ratio within one pixel |
| PixelTransform.ShrunkExactly | backend-go/internal/photo/photo.go:185-190 | the longer edge becomes 1600 and the shorter one the exact proportion rounded down, but never nothing |
| PixelTransform.ShrinkThenTurn | backend-go/internal/photo/photo.go:161-163 | shrinking before turning gives the same size as turning before shrinking |
| Paging.PageIsSlice | backend-go/internal/usecase/pagination.go:17-24 | a page is its slice and knows whether anything follows, for any list below 2^31-1 rows |
| Paging.OffsetExactly | backend-go/internal/usecase/pagination.go:17-24 | the offset is the exact one capped to 32 bits, except exactly for one item per page beyond page 2^31-1 |
| Paging.FetchedIsSlice | backend-go/internal/adapter/query/page.go:6-11 | trimming the extra row gives the page and the flag |
| Paging.MergeMeans | frontend/src/api/page.ts:25-27 | each fetched id once, with its last value, in order of first appearance |
| Paging.WalkSeesEverything | frontend/src/api/page.ts:23-27 | while items are only inserted, the merged walk holds every item of the first fetch |
| Paging.QuietWalk | frontend/src/api/page.ts:25-27 | without changes the walk returns the list |
| Languages.ParseLanguageRange | backend-go/internal/adapter/handler/lang.go:73-97 | tag and quality of one range, the last quality winning and an unreadable one spoiling the range |
| Languages.DecimalIs | backend-go/internal/adapter/handler/lang.go:87-93 | digits, alone or around one point, are that number, and a point alone is none |
| Languages.FractionIsWhole | backend-go/internal/adapter/handler/lang.go:90 | the digits behind the point are the whole number they spell over as many powers of ten |
| Languages.TwoPoints | backend-go/internal/adapter/handler/lang.go:90-93 | nothing with a second point is a number |
| Languages.NoDecimal | backend-go/internal/adapter/handler/lang.go:87-89 | nothing with a character that is neither digit nor point is a number |
| Languages.ParsedOneMore | backend-go/internal/adapter/handler/lang.go:80-96 | one more parameter changes a range only if it is a quality: a readable one replaces the quality, an unreadable one spoils the range |
| Languages.PrimaryIs | backend-go/internal/adapter/handler/lang.go:99-105 | the language part is the prefix before the first hyphen or underscore, and nothing else |
| Languages.SplitNPrefix | backend-go/internal/adapter/handler/lang.go:36-40 | limiting the split changes nothing about the ranges that are read |
| Languages.LangOf | backend-go/internal/adapter/handler/lang.go:34-69 | the pass makes the choice: greatest quality, explicit before wildcard, ties by place, English otherwise |
| Languages.SplitExactly | backend-go/internal/adapter/handler/lang.go:73-76 | the parts are the one list without separators that joined gives the string back |
| Languages.TrimExactly | backend-go/internal/adapter/handler/lang.go:73-76 | trimming gives back a string from any white space around it |
| Languages.WrittenRange | backend-go/internal/adapter/handler/lang.go:73-97 | a range written with a tag and a quality is read as these, or not at all if the quality is unreadable |
| Languages.OffersExist | backend-go/internal/adapter/handler/lang.go:55-69 | every list of ranges makes one offer to each language |
| Languages.ChoiceUnique | backend-go/internal/adapter/handler/lang.go:55-69 | every header makes exactly one choice |
| Languages.TwoLanguages | backend-go/internal/adapter/handler/lang.go:55-69 | of two named languages the greater quality wins, the earlier on a tie, and zero never |
| Languages.Wildcard | backend-go/internal/adapter/handler/lang.go:28-33 | a wildcard stands for the language that is not named |
| Languages.OneRange | backend-go/internal/adapter/handler/lang.go:28-33 | a wildcard alone, another language or nothing means English, and a regional Japanese tag Japanese unless its quality is zero |
| Languages.ZeroIsNeverChosen | backend-go/internal/adapter/handler/lang.go:28-33 | for every header, a language with quality zero is never chosen over an acceptable one, and the chosen quality is the greater |
| TokenCaches.TokensMatchCallers | frontend/worker/google-identity.js:61-85 | in every reached state callers have tokens for their own pair and the cache holds one for the current pair only |
| TokenCaches.CallsShareRequests | frontend/worker/google-identity.js:64-84 | helper: a call starts a request exactly when its pair is new or there is neither a lasting token nor a request under way |
| TokenCaches.CallsAreServed | frontend/worker/google-identity.js:64-84 | a call is answered at once exactly if the cached token is for its pair and lasts more than a minute; otherwise it waits for a request for its own pair |
| TokenCaches.SettledIsShared | frontend/worker/google-identity.js:69-84 | helper: a token is cached if its request was the current one and goes to exactly the callers that waited for it |
| TokenCaches.ClientResolver.Cached | backend-go/internal/adapter/oauthserver/clients.go:73-82 | an entry is returned exactly until it expires, and dropped then |
| TokenCaches.ClientResolver.Remember | backend-go/internal/adapter/oauthserver/clients.go:84-99 | at most 256 entries; unexpired ones are never pushed out; the document is remembered exactly when there is room, if need be after dropping what has expired |
| TokenCaches.ClientResolver.Resolve | backend-go/internal/adapter/oauthserver/clients.go:51-71 | a static client, a document learned less than five minutes ago, or one just fetched, in this order |

## Left out

- HTTP, JSON, HTML, cookies, SMTP, blob storage and the database driver; PKCE verification, signatures, hashing, expiry of OAuth tokens and everything else inside the OAuth library. What the library does with a replayed code or refresh token is taken from its documented behaviour.
- Randomness: keys, signatures, hashes and ids are numbers that never repeat.
- Floating point: scores, qualities and times of decay are exact reals; the exponential is any positive function of age. A quality that only rounds to 1 or to 0 in binary is treated by its exact value.
- Letter case and white space of addresses beyond ASCII letters.
- Weighted score, confidence and shop average in the queue theorem: they also depend on the clock and on other reviews by the same authors, and such changes raise no request, so only an entity's own count, plain average and photo are claimed.
- Transactions of writers are atomic in `StatsQueue`; account deletion is split into what it lists and its commit in `StatsLateReview`, `StatsDeletions`, `OAuthTokens` and `SignIn`, each for its own tables. Transactions of workers are split into lock, read and save-and-complete. In `OAuthTokens` a revocation is split into what it saw and what it changed, other statements are not. The methods of the service classes run one at a time.
- OAuthSafety.TokensAreSafe: does not say that no token outlives its owner's account, because that is false of the code (`OAuthDeletion.TokenOutlivesAccount`); `OAuthDeletion.DeletionExactly` and `OAuthDeletion.NoneOutlive` say when it holds.
- StatsDrain.QueueDrains: is about one worker with nothing else in flight, where the spacing of cycles can be stated by the clock; `StatsWorkers.WorkersDrain` is the statement for several workers, which counts handled requests instead.
- StatsQueue.SettledMeansFresh: a shop can be removed only once it has no burgers, as the foreign key demands; shops and burgers are otherwise not edited.
- Truncation of failure reasons, mail texts and names, and the validators of form fields.
- The ordering of scopes inside stored grants, because the upsert sorts them by name while the code that reads them only asks for membership.
- Image decoding, resampling and encoding, the size guards before decoding and the two-slot decode semaphore: only sizes and the pixel permutation are modelled.
- Deletions between page fetches, which the repository names as a known limitation of its paging.
- React components, message catalogues, configuration and one-off tools.
