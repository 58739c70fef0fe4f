# Verified model of Brightbean's crash-safe protocols and analytics arithmetic

This Dafny project models the parts of the application where a mistake is quiet and lasting: writes
to social platforms that must not be repeated, walks over remote pages that must not skip anything,
idempotency slots shared by concurrent workers, the scheduling of analytics calls, and the numbers
and strings computed from what came back. `dafny verify dfyconfig.toml` checks everything.

| file | what it models |
|---|---|
| `NativeVideo.dfy` | publishing a video to Instagram or Threads with a write-ahead checkpoint |
| `InstagramPoll.dfy` | the resumable two-level walk over direct messages |
| `Idempotency.dfy` | claim, finalize, release and sweep of idempotency slots, interleaved |
| `MastodonPublish.dfy` | cached uploads and a keyed status, over a network that loses responses |
| `SyncCadence.dfy` | when a post's analytics are due, and how many calls a post can cost |
| `SyncPass.dfy` | one batched pass over the due posts of an account, and fairness over passes |
| `PostDeltas.dfy` | a daily series rebuilt from cumulative snapshots |
| `AnalyticsBundle.dfy` | merging that series with what the platform reports, up to the card |
| `DerivedMetrics.dfy` | a card's value and chart, and the engagement rate |
| `YouTubeComments.dfy` | reading comment threads within a quota, newest first |
| `CommentRefresh.dfy` | the bisecting batch fetch of comments |
| `CaptionEscaping.dfy` | LinkedIn's escaping against the counted caption length |
| `ResourceNames.dfy` | Google Business resource names and the credentials they are applied to |
| `QuotaMessage.dfy` | the printed rate-limit message and its parser |
| `Positions.dfy` | exact lists of what a nested structure holds, position by position |
| `Strings.dfy`, `Wrappers.dfy` | whitespace and digits; `Option` |

Objects and dictionaries the source updates in place are classes with fields; loops are methods
proved against a specification function, and the laws are lemmas about that function. Runs are
sequences of worlds or attempts linked by what one step is proved to do. Times are integer seconds,
floating-point values are real numbers, and a remote is a value with a function for what it answers.
Every request and every durable write takes its fate (success, failure before or after it took
effect) from a script or a parameter, and the theorems hold for all of them.

## Assumptions

- Native video: attempts on one key run one after the other, and the store keeps an entry for its
  time to live. A process death is the same as the next durable step raising, because nothing runs
  after an exception.
- Instagram: the remote does not change between polls, and each page's cursor is non-empty and new
  until the last page. Polls that raise commit neither messages nor state.
- Idempotency: an insert under the unique constraint, an update, a lookup and a delete are each
  atomic; a finalized status is never the pending sentinel 0. Where the 24-hour assumption is needed
  it is a hypothesis (`TimelySweeps`), and `SweepIsHarmlessIffTimely` shows that it is exactly what is needed.
- Mastodon: the server answers an Idempotency-Key it saw less than an hour ago with the status it
  created; hashes are injective, so a digest stands for its content.
- Sync: the starvation results are about a fixed set of posts and at least one post reached per pass;
  platform ids may repeat. The counts and stamps need no such assumption.
- Comments: the feed is newest first, and does not change between the polls of one sweep; the server
  answers 404 to exactly the batches that hold a poisoned id.

## What the proofs found

- The lifetime bound is 79 calls, not the 80 that adding up the rungs suggests (24 + 24 + 23 + 9):
  counting the gaps from call to call, only eight fall into the last rung. 79 is reached.
- The database prefilter in front of the cadence check loses due posts on a platform that keeps less
  than 90 days of history (TikTok's 60): it is lossless if and only if the cap is 90 days or more.
- Two posts of one chunk with the same platform id: only the last is stamped and counted. The
  returned counts fall short, and the earlier post keeps its row and its place in the queue exactly
  as long as every completed chunk it is in holds a later post with its id, which no number of
  passes rules out as long as both posts are found due together.
- A worker that loses the insert of an idempotency row can find no row on its re-fetch, when the
  holder releases it in between; the lookup then raises an exception that is not handled there. The
  exact condition is a deletion in between with no new claim after it.
- A claim that outlives a sweep can always overwrite the response of another request, or, once
  answered, leave its slot with two claimants.
- Mastodon: an attempt that starts an hour or more after the last status under its key publishes
  the post again.
- Google Business: an account whose id is the word `locations` does not survive being stored; its
  posts go to another account. It is the only slash-free, trimmed, non-empty id that does not.
- Engagement rate: engagement on days without a denominator lifts the headline above the mean of the
  daily rates, by exactly its own rate; on the follower fallback the headline is a sum, not a mean.
  A series that ends before the longest would be drawn on the wrong days, unless it is zero throughout.
- A negative number in the rate-limit message comes back as text and sets no header, and a tier made
  of digits comes back as a number; no caller passes either.

## Model

| member | source | states |
|---|---|---|
| `NativeVideo.NativeVideoSession.SetCheckpoint` | providers/meta_video.py:343-352 | A checkpoint that raises may or may not have been stored; the caller goes on only when it returned normally. |
| `NativeVideo.NativeVideoSession.Attempt` | providers/meta_video.py:322-425 | One attempt, with any request or checkpoint failing: exactly which writes go out, which checkpoint is left durable, and which answer or refusal each case gives. |
| `NativeVideo.AttemptKeepsWriteAhead` | providers/meta_video.py:322-424 | Every attempt keeps the write-ahead invariant between the durable phase and the writes sent, never moves the phase back, and never changes a stored deadline. |
| `NativeVideo.FirstAttemptKeepsWriteAhead` | providers/meta_video.py:370-424 | The same for the attempt that starts from an empty store. |
| `NativeVideo.RunKeepsWriteAhead` | providers/meta_video.py:322-424 | The invariant holds after any sequence of attempts. |
| `NativeVideo.AtMostOnceEach` | providers/meta_video.py:368-424 | Over any attempts, failing anywhere, create, upload and publish are each sent at most once; a publish comes third, after an acknowledged upload, and both carry the id of the one create. |
| `NativeVideo.RunOnlyGrows` | providers/meta_video.py:322-424 | Later attempts only extend the log of writes; phase rank and deadline are kept. |
| `NativeVideo.WritersBeginBeforeTheDeadline` | providers/meta_video.py:335-347 | Every attempt that writes checked its clock before the deadline, and the deadline is the start of the attempt that stored the first checkpoint plus one hour. |
| `NativeVideo.FirstCheckpoint` | providers/meta_video.py:343-347 | The deadline in the store always comes from one attempt that found the store empty. |
| `NativeVideo.CompleteIsFinal` | providers/meta_video.py:324-330 | Once complete, the three writes are closed, and every later attempt returns that publish's media id, or refuses exactly when the id is malformed. |
| `NativeVideo.CompleteIsFixed` | providers/meta_video.py:324-330 | A completed session never changes again. |
| `NativeVideo.SuccessesAgree` | providers/meta_video.py:324-424 | All attempts that succeed, first or replayed, name the same media id. |
| `NativeVideo.InterruptedWaitResumes` | providers/meta_video.py:368-424 | A wait that times out, or a stop before the publish, leaves the container uploaded; an undisturbed attempt before the deadline sends one publish for it and no second create or upload. |
| `NativeVideo.FirstAttemptPublishesIff` | providers/meta_video.py:331-418 | Every reply and condition a first attempt needs to publish, spelled out, both ways: authorization, the hour, each stored checkpoint, a well-formed session id and safe address, a 2xx upload answer with `success`, the settled container. |
| `NativeVideo.LaterAttemptPublishesIff` | providers/meta_video.py:331-418 | A later attempt publishes if and only if it finds the container uploaded, is authorized and in time, sees it settle and stores its checkpoint; it never creates or uploads. |
| `NativeVideo.PublishedWasUploaded` | providers/meta_video.py:388-418 | Whatever was published in a run was uploaded in it under the id of its own session, and that upload was answered with a 2xx status and `success`. |
| `NativeVideo.UnconfirmedIsFinal` | providers/meta_video.py:368-369 | After an attempt refused as unconfirmed no later attempt writes, changes the session, or succeeds. |
| `InstagramPoll.KeptMessages` | providers/meta_messaging.py:191-211 | The filter loop keeps exactly the inbox messages of a page, in order. |
| `InstagramPoll.MessagePage` | providers/meta_messaging.py:185-215 | One page of messages moves the walk by one step and yields that page's messages. |
| `InstagramPoll.NextPage` | providers/meta_messaging.py:173-215 | One request moves the walk by one step and yields that request's messages. |
| `InstagramPoll.WalkPages` | providers/meta_messaging.py:172-215 | The loop makes at most 100 requests, stops at the first one that raises, and its locals and messages are those of that many steps. |
| `InstagramPoll.FetchPageMessages` | providers/meta_messaging.py:127-226 | A poll raises if and only if a request it makes raises; otherwise, from any valid continuation, the requests made plus those left behind are exactly those that lay ahead, the messages are those of the requests made, and the state is empty just when nothing is left. |
| `InstagramPoll.NextCursorAdvances` | providers/meta_messaging.py:164-170 | On a well-formed chain of pages the cursor rule (more pages, non-empty, not seen) always leads to the next page and ends at the last. |
| `InstagramPoll.StepAdvances` | providers/meta_messaging.py:172-215 | Every step takes exactly the first request off what is left. |
| `InstagramPoll.ContinuationResumes` | providers/meta_messaging.py:140-148 | The stored continuation leads back to exactly where the walk stopped, also inside a conversation and across an owner check. |
| `InstagramPoll.StepsMeetContract` | providers/meta_messaging.py:127-226 | Any number of steps within the budget fulfils the contract of a poll. |
| `InstagramPoll.ChainCovers` | providers/meta_messaging.py:138-226 | The requests of a chain of polls, with what the last one left, are the requests that lay ahead of the first. |
| `InstagramPoll.ChainDelivers` | providers/meta_messaging.py:191-226 | The concatenated batches are the messages of the concatenated requests. |
| `InstagramPoll.ResumedWalkIsTheFullWalk` | providers/meta_messaging.py:127-226 | Polls resuming from each other's state until it is empty fetch every page of the plain traversal once and in order and deliver, concatenated, exactly its messages. |
| `InstagramPoll.ResumedWalkEnds` | providers/meta_messaging.py:138-226 | When the clock lets each poll make at least one request, there are no more polls than pages. |
| `InstagramPoll.ListingBringsIn` | providers/meta_messaging.py:173-215 | The requests of the plain traversal bring in the remote's messages page by page, whatever the cursors are called. |
| `InstagramPoll.EveryMessageIsDeliveredOnce` | providers/meta_messaging.py:180-215 | Polls resumed until the state is empty deliver every message at every (listing page, entry, message page, message) that somebody else sent, is no echo and has an id and a time, in its inbox form, once, in that order, and nothing else. |
| `InstagramPoll.OthersStartAfresh` | providers/meta_messaging.py:140-146 | A continuation stored for another page or owner is not used: the walk starts from the first page. |
| `Idempotency.IdempotencyStore.Claim` | apps/api/middleware.py:172-224 | A claim inserts a pending row or answers from the row found: claimed, in flight, replay, or mismatch. |
| `Idempotency.IdempotencyStore.Finalize` | apps/api/middleware.py:227-245 | Sets the response of the row if there is one, keeping its fingerprint. |
| `Idempotency.IdempotencyStore.Release` | apps/api/middleware.py:248-266 | Deletes the row only while it is pending. |
| `Idempotency.IdempotencyStore.Sweep` | apps/api/tasks.py:38-59 | Deletes exactly the rows older than 24 hours. |
| `Idempotency.StepKeepsSafe` | apps/api/middleware.py:203-266 | Every single statement of any worker, and any crash, keeps: a worker that may still write a row owns it, and no two hold one slot. |
| `Idempotency.SweepIsSafeIffTimely` | apps/api/tasks.py:38-59 | A sweep keeps that invariant if and only if no claim is older than the time to live when it runs. |
| `Idempotency.RunKeepsSafe` | apps/api/middleware.py:203-266 | The invariant holds in every reachable state. |
| `Idempotency.OneClaimantPerSlot` | apps/api/middleware.py:203-213 | Each (API key, key) has at most one claimant, and its row is pending under the claimant's fingerprint. |
| `Idempotency.FinalizedNeverChanges` | apps/api/middleware.py:227-266 | A finalized response stays unchanged until a sweep deletes it past its time to live. |
| `Idempotency.ExecutionsAreSeparated` | apps/api/middleware.py:203-266 | With no assumption on time: two executions under one key are separated by a release or a sweep of the row. |
| `Idempotency.OnlyTheClaimerHolds` | apps/api/middleware.py:203-213 | A row that appears was inserted by the one worker that now holds the slot. |
| `Idempotency.RowHasClaim` | apps/api/middleware.py:203-213 | Every row has lived since a claim with its fingerprint. |
| `Idempotency.ResponseHasAuthor` | apps/api/middleware.py:227-245 | Every response was finalized by the worker that claimed the row, after the claim. |
| `Idempotency.ReplayIsTheFirstResponse` | apps/api/middleware.py:214-224 | A replay hands out exactly the response the claimer finalized, only for the same fingerprint. |
| `Idempotency.PendingUntilFinalized` | apps/api/middleware.py:203-245 | A row that has lived since its claim is pending exactly until its slot is finalized. |
| `Idempotency.LookupAnswersForTheClaim` | apps/api/middleware.py:214-224 | A lookup that finds a row answers mismatch exactly when the claim behind it had another fingerprint, and otherwise in flight until the slot is finalized and a replay from then on. |
| `Idempotency.LostInsertMayFindNothing` | apps/api/middleware.py:214-217 | Between a lost insert and the re-fetch the row can be released: the lookup then finds nothing and the code raises. |
| `Idempotency.GoneUntilClaimed` | apps/api/middleware.py:203-266 | A deleted row stays away until somebody claims the slot again. |
| `Idempotency.MissingIffDeleted` | apps/api/middleware.py:214-217 | The lookup after a lost insert finds nothing if and only if a release or a sweep deleted the row in between and nobody claimed the slot again before the lookup. |
| `Idempotency.LateFinalizeOverwrites` | apps/api/middleware.py:242-245 | One run in which a claim older than a sweep overwrites another request's response. |
| `Idempotency.LateHolderOverwrites` | apps/api/middleware.py:227-245 | From any safe state: once a holder older than the time to live is swept, it can overwrite a response another worker has given. |
| `Idempotency.LateAnswererMakesRivals` | apps/api/middleware.py:248-266 | From any safe state: once an answered worker older than the time to live is swept, its release can leave a slot with two claimants. |
| `Idempotency.StepKeepsResponses` | apps/api/middleware.py:227-266 | In a safe state no statement of any worker changes a finalized response. |
| `Idempotency.SweepIsHarmlessIffTimely` | apps/api/tasks.py:38-59 | A sweep leaves every continuation without rival claimants and without changed responses if and only if no claim is older than the time to live when it runs. |
| `MastodonPublish.KeyIgnoresMediaIds` | providers/mastodon.py:449-465 | The Idempotency-Key of an attempt does not depend on the media ids it holds. |
| `MastodonPublish.MastodonPublisher.Upload` | providers/mastodon.py:361-375 | What an upload's answer means: no success, no id; a new id otherwise, ready exactly when the answer was 200; it belongs to its cache key and is remembered under it, and exists on the server even when the response is lost. |
| `MastodonPublish.MastodonPublisher.AskMediaState` | providers/mastodon.py:416-444 | Ready exactly on 200, processing exactly on 206, failed exactly on 422, unknown exactly on 404, 405, 410 and 501. |
| `MastodonPublish.MastodonPublisher.ReuseOrUpload` | providers/mastodon.py:393-414 | A remembered upload is asked about and used as ready or processing by its answer; it is uploaded again exactly when the server does not know it; any other answer ends the attempt. |
| `MastodonPublish.MastodonPublisher.WaitForMedia` | providers/base.py:422-449 | The wait asks on while the answer is 206; it ends well exactly with a settling answer, and otherwise for a stop, another answer, or the deadline. |
| `MastodonPublish.MastodonPublisher.CreateStatus` | providers/mastodon.py:467-506 | Posts again only on the not-ready answer; at most one status is created, with the parameters and the key sent, and only when the server remembers none; failure means a stop, another answer, a lost response, or the deadline. |
| `MastodonPublish.MastodonPublisher.UploadAll` | providers/mastodon.py:274-284 | One medium per file, each uploaded for that position of that post. |
| `MastodonPublish.MastodonPublisher.WaitForAll` | providers/mastodon.py:286-294 | Success means every medium was reported settled, on one shared deadline. |
| `MastodonPublish.MastodonPublisher.PublishPost` | providers/mastodon.py:271-337 | A whole attempt, with any request lost before or after the server acted: its effect on the server, soundness kept, success when nothing is disturbed, and, when all answers are successes, no failure before 120 seconds have passed. |
| `MastodonPublish.RunKeepsSound` | providers/mastodon.py:271-414 | Over any run the cache and every status stay sound: the fields of its key, and one upload per file, made for that position of that post and reported by the server as no longer processing. |
| `MastodonPublish.WindowKeepsOne` | providers/mastodon.py:271-337 | From an attempt whose key the server does not remember, and for an hour, at most one status with that key appears, and every success at it lies among the statuses that appeared. |
| `MastodonPublish.RunMovesOn` | providers/mastodon.py:467-506 | Along a run no status is ever removed or changed, and the clock does not go back. |
| `MastodonPublish.ExactlyOnce` | providers/mastodon.py:271-337 | In any run, on an account with any history: within an hour of the start of an attempt whose key the server does not remember, all attempts at that unchanged post, losing any responses, create at most one status, and every success returns its id. |
| `MastodonPublish.MediaIsNeverShared` | providers/mastodon.py:377-414 | Posts with different publish keys never share a media id, and no status holds one upload twice, with no bound on time. |
| `MastodonPublish.RunKeepsSpaced` | providers/mastodon.py:449-506 | Over any run, however long, statuses under one key stay at least an hour apart. |
| `MastodonPublish.TheHourDecides` | providers/mastodon.py:51-54 | An attempt started an hour or more after the last status under its key creates another one, even when its response is lost, or creates none and fails; one that ended before the hour was over creates none, and returns that status if it succeeds. |
| `MastodonPublish.LateRetryRepeats` | providers/mastodon.py:51-54 | One post published undisturbed and again an hour later ends up twice on the account: the hour is necessary. |
| `MastodonPublish.EditIsPublished` | providers/mastodon.py:449-465 | After an edit an attempt that succeeds returns a status with the edited fields and the edited files' uploads in order, never one of the stale content's statuses; unless the server remembers the edit already, the attempt created it. |
| `SyncCadence.PostSyncInterval` | apps/analytics/tasks.py:53-64 | The ladder walk returns the interval of the first rung above the age. |
| `SyncCadence.BackoffIsCappedDoubling` | apps/analytics/tasks.py:100-114 | The clamped backoff equals one hour doubled per failure, capped at seven days, for every count, and is saturated exactly from nine failures on. |
| `SyncCadence.BackoffIsMonotone` | apps/analytics/tasks.py:100-114 | More failures never wait less. |
| `SyncCadence.PrefilterIsLosslessIff` | apps/analytics/tasks.py:1262-1287 | The database filter loses no due post if and only if the platform keeps at least 90 days of history. |
| `SyncCadence.PrefilteredIff` | apps/analytics/tasks.py:1262-1287 | What the filter leaves out, spelled out: no history, no published id, older than the cap, attempted within the hour. |
| `SyncCadence.UnstampedIsDueIff` | apps/analytics/tasks.py:1217-1241 | A post without a stamp is due in its first 90 days if and only if it has no snapshot or its last is as old as the ladder says. |
| `SyncCadence.StampedIsDueIff` | apps/analytics/tasks.py:424-456 | After a success only the ladder counts; after a failure the capped doubling of one failure more as well. |
| `SyncCadence.AttemptsAreNotEarly` | apps/analytics/tasks.py:1217-1229 | The n-th stamped attempt cannot come before an exact age, whatever the outcomes. |
| `SyncCadence.AtMost79Calls` | apps/analytics/tasks.py:44-64 | A post costs at most 79 calls before its 90-day horizon, whatever the outcomes. |
| `SyncCadence.SeventyNineIsReached` | apps/analytics/tasks.py:44-64 | A run that always succeeds costs exactly 79. |
| `SyncCadence.FailingAttemptsAreNotEarly` | apps/analytics/tasks.py:100-114 | The same clock for a post whose every attempt fails. |
| `SyncCadence.AtMost20FailingCalls` | apps/analytics/tasks.py:76-114 | A post whose every attempt fails costs at most 20 calls. |
| `SyncCadence.TwentyIsReached` | apps/analytics/tasks.py:76-114 | Such a post can cost exactly 20. |
| `SyncPass.PostTable.IndexChunk` | apps/analytics/tasks.py:1013-1014 | The index by platform id keeps the last post under each id. |
| `SyncPass.PostTable.SettleChunk` | apps/analytics/tasks.py:1024-1064 | A completed chunk stamps each indexed post once, hit or miss, with exact counts, in any order of the index. |
| `SyncPass.PostTable.CompleteChunk` | apps/analytics/tasks.py:1013-1064 | One chunk, answered or failed as a whole, extends what the pass has done by exactly its posts. |
| `SyncPass.PostTable.TryChunk` | apps/analytics/tasks.py:1006-1064 | One turn of the loop: the pass stops for the right reason with nothing changed, or one more chunk, begun in time, is completed. |
| `SyncPass.PostTable.SyncAccountPosts` | apps/analytics/tasks.py:964-1075 | A pass settles consecutive chunks, each begun before the deadline, until done, out of time, unsupported, or an account-wide error; everything later keeps its state. |
| `SyncPass.ByIdKeepsTheLast` | apps/analytics/tasks.py:1013-1014 | A post stands for its platform id exactly when no later post of the chunk carries it. |
| `SyncPass.CompletedIsPrefix` | apps/analytics/tasks.py:1005-1013 | The posts of the completed chunks are a prefix of the due list. |
| `SyncPass.OthersAreUntouched` | apps/analytics/tasks.py:1005-1075 | Posts outside the completed chunks keep their state. |
| `SyncPass.EachPostIsStampedOnce` | apps/analytics/tasks.py:1013-1064 | Every post of a completed chunk is stamped exactly once, as hit or miss, with a snapshot exactly for hits, unless a later post of its chunk carries its id; then it is not touched. |
| `SyncPass.WhatAPassRecords` | apps/analytics/tasks.py:424-456 | Field by field, for a post standing for its id in a completed chunk: returned, its failures are cleared and one snapshot is written; absent or in a failed chunk, one failure more and no snapshot; the attempt is stamped either way. |
| `SyncPass.ChunksAreSlices` | apps/analytics/tasks.py:1005-1013 | Chunk c holds the posts from c times the batch size on, as many as the size or as are left. |
| `SyncPass.DeadlineIsKept` | apps/analytics/tasks.py:1006-1012 | No chunk is begun at or after the deadline, and a pass stops for it only then. |
| `SyncPass.ByIdCounts` | apps/analytics/tasks.py:1013-1014 | The index has one entry per post exactly when the ids differ. |
| `SyncPass.CountsCoverIffIdsDiffer` | apps/analytics/tasks.py:1043-1075 | Synced plus failed equals the posts of the completed chunks if and only if no platform id repeats inside a chunk. |
| `SyncPass.StampedRow` | apps/analytics/tasks.py:1013-1064 | A pass stamps exactly the posts that stand for their platform id in a completed chunk, each once, and leaves every other row alone. |
| `SyncPass.StampedAreCounted` | apps/analytics/tasks.py:1013-1075 | These posts are as many as the counts a pass returns, and there is one whenever a chunk was completed. |
| `SyncPass.PassedOverMovesUp` | apps/analytics/tasks.py:1276-1287 | A due post a pass did not reach moves up by every post the pass stamped and counted, for any order of ties and any repeated ids. |
| `SyncPass.NeglectIsBounded` | apps/analytics/tasks.py:1262-1287 | Over all passes together, a post due in every pass and never reached sees fewer posts counted than were stamped no later than it at the start. |
| `SyncPass.NoPostStarves` | apps/analytics/tasks.py:1262-1287 | With one post reached per pass, every post that stays due is in a completed chunk within as many passes as there are posts, whatever platform ids repeat. |
| `SyncPass.StampedIffNotShadowed` | apps/analytics/tasks.py:1013-1064 | A pass changes a post's row if and only if it completed a chunk holding the post with no later post of its platform id. |
| `SyncPass.StampedInTimeIff` | apps/analytics/tasks.py:1262-1287 | A post that stays due over as many passes as there are posts is stamped if and only if one of the completed chunks it is in holds no later post with its platform id. |
| `SyncPass.ShadowedIsNeverStamped` | apps/analytics/tasks.py:1013-1064 | A post that shares its platform id with a later post of every chunk it is in is never stamped: over any passes its row stays as it was. |
| `SyncPass.AnyNumberOfPassesCanStarve` | apps/analytics/tasks.py:1013-1064 | There are runs of any length in which a due post's chunk is completed by every pass and the post is never stamped. |
| `PostDeltas.Spread` | apps/analytics/services.py:230-236 | A first value is spread evenly over the days since publication. |
| `PostDeltas.CreditFirst` | apps/analytics/services.py:214-238 | The three cases of a post's first observation. |
| `PostDeltas.PostSummedSeries` | apps/analytics/services.py:135-246 | The loop over the snapshot rows computes each day's credit, the days observed and the latest capture. |
| `PostDeltas.RowAddsItsGain` | apps/analytics/services.py:206-244 | Over all days together a row adds exactly its gain. |
| `PostDeltas.FirstValueIsSpread` | apps/analytics/services.py:214-238 | A post's first value adds its even share to each day since publication inside the window, falls on its own day when the date is missing or later, and adds nothing when the post is older than the window. |
| `PostDeltas.LaterValueAddsItsRise` | apps/analytics/services.py:239-244 | A later value adds, on its own day only, what it rises above everything its post had before. |
| `PostDeltas.ObservedIff` | apps/analytics/services.py:239-245 | A day is observed if and only if a later snapshot is dated on it or a first value was credited to it. |
| `PostDeltas.CreditedIff` | apps/analytics/services.py:214-244 | A day is credited if and only if a first value was credited to it or a later one rose on it. |
| `PostDeltas.SeriesSumsToGains` | apps/analytics/services.py:206-244 | The daily totals sum to the gains of the rows. |
| `PostDeltas.HighestIsTheMaximum` | apps/analytics/services.py:239-244 | The peak is the greatest of a post's snapshots. |
| `PostDeltas.GainsArePeaksLessAnchors` | apps/analytics/services.py:206-244 | The gains sum, post by post, to peak less anchor. |
| `PostDeltas.NothingIsLostOrInvented` | apps/analytics/services.py:200-246 | The daily totals sum exactly to every post's peak in the window less its anchor (the first value of a post published before the window, zero otherwise). |
| `PostDeltas.CreditsAreNonNegativeIff` | apps/analytics/services.py:215-246 | No credit is negative if and only if no credited first value is. |
| `PostDeltas.CreditIsPlacedRight` | apps/analytics/services.py:214-246 | Credits lie inside the window on touched days, and a snapshot at or below the running peak credits nothing. |
| `PostDeltas.PeakWithout` | apps/analytics/services.py:239-244 | Leaving out a snapshot at or below the running peak keeps the running peak and the first observation of every other row. |
| `PostDeltas.LowSnapshotsChangeNothing` | apps/analytics/services.py:239-246 | Leaving out a snapshot at or below its post's running peak gives the same credited days with the same totals. |
| `AnalyticsBundle.MergeMetric` | apps/analytics/services.py:284-329 | Which days of a metric come from the platform and which from the rebuilt series, which are present, and when the metric counts as estimated. |
| `AnalyticsBundle.EstimatedIff` | apps/analytics/services.py:310-323 | A metric is estimated if and only if it supports the rebuilt series, some snapshot observed a day, and the platform reported nothing or some snapshot was captured after its last report. |
| `AnalyticsBundle.MergedDay` | apps/analytics/services.py:320-328 | A day of the merged series is its rebuilt total where a snapshot credited it, else the platform's value, else zero. |
| `AnalyticsBundle.MergedTotal` | apps/analytics/services.py:310-328 | A merged series sums to what the posts gained plus what the platform reported for the days not rebuilt. |
| `AnalyticsBundle.UnobservedIsZero` | apps/analytics/services.py:313-315 | Skipping a rebuilt series with nothing observed changes nothing. |
| `AnalyticsBundle.CardsAccountForEveryGain` | apps/analytics/services.py:310-350 | For a counted metric the platform does not report, the card's value and the one it is compared with add up to exactly what every post gained over both periods. |
| `AnalyticsBundle.CardsMatchTheirCharts` | apps/analytics/services.py:327-350 | The value on the card of any counted metric, reported or rebuilt, is the sum of the points its chart shows. |
| `DerivedMetrics.UnreportedIsTheTrailingRun` | apps/analytics/derive.py:63-74 | Of a daily quantity a day is unreported if and only if neither it nor any later day has a value. |
| `DerivedMetrics.AverageIsTheMeanOfTheChart` | apps/analytics/derive.py:83-126 | An average on a card is the mean of exactly the points its chart shows. |
| `DerivedMetrics.CountIsTheSumOfTheChart` | apps/analytics/derive.py:83-126 | When days without a value count as zero, a count equals the sum of its chart's points: the gaps leave nothing out. |
| `DerivedMetrics.ChartOfOneMetric` | apps/analytics/derive.py:63-80 | A chart shows each day's own value, or a gap exactly on an unreported day. |
| `DerivedMetrics.CountAndItsChange` | apps/analytics/derive.py:97-126 | A count is the total of the last days, and its delta the per-cent change from the total of as many days before; from nothing there is no change. |
| `DerivedMetrics.AverageAndItsChange` | apps/analytics/derive.py:97-126 | The delta of an average is the change from the average of the reported days before. |
| `DerivedMetrics.EngagementIsTheNine` | apps/analytics/metrics.py:106-116 | Each of the nine engagement metrics counts once when the series has it, and nothing else does. |
| `DerivedMetrics.DenominatorIsTheFirstWithData` | apps/analytics/derive.py:150-153 | The rate divides by the first of views, reach, impressions and plays with data in the period. |
| `DerivedMetrics.RateAndItsChange` | apps/analytics/derive.py:165-183 | The headline is the parts of the period by its denominators or the followers, and its delta the change from the same rate of the period before. |
| `DerivedMetrics.WindowsAgree` | apps/analytics/derive.py:149-174 | With series of equal length the denominators under the daily points are the days the headline adds up. |
| `DerivedMetrics.HeadlineIsTheWeightedMeanIff` | apps/analytics/derive.py:149-189 | The headline is the denominator-weighted mean of the daily rates plus the rate of the engagement on days without a denominator; so it is that mean if and only if there is none. |
| `DerivedMetrics.HeadlineIsBetweenTheDailyRates` | apps/analytics/derive.py:149-189 | With non-negative series and no engagement on days without a denominator, the headline lies between any bounds of the daily rates over days with one. |
| `DerivedMetrics.ChartShowsAPrefix` | apps/analytics/derive.py:190-199 | The points of a chart are the daily rates before its trailing gap, whatever masks are given. |
| `DerivedMetrics.FallbackIsTheSumOfThePoints` | apps/analytics/derive.py:175-199 | On the follower fallback, for any presence masks, the headline is the sum of all daily rates, not their mean, and the points shown add up to it less the rates of the trailing gap. |
| `DerivedMetrics.GapsAreTrailing` | apps/analytics/derive.py:190-199 | The chart is the daily rates with a trailing run of gaps, whatever masks are given. |
| `DerivedMetrics.RateIsShownIff` | apps/analytics/derive.py:190-199 | A day of the rate is shown if and only if one of the metrics it depends on has a value on that day or later. |
| `DerivedMetrics.RateDependsOn` | apps/analytics/derive.py:193-194 | These are the denominator, or on the follower fallback all parts. |
| `DerivedMetrics.PartsAreAlignedIff` | apps/analytics/derive.py:159-163 | Non-negative engagement series are added up on their own days, counted back from the last, if and only if every one that ends before the longest is zero throughout. |
| `DerivedMetrics.ShortPartIsMisplaced` | apps/analytics/derive.py:159-173 | One such input: a part reported for the second of two days only is drawn on the first, and the chart is flat at zero under a positive headline. |
| `YouTubeComments.YouTubeProvider.Request` | providers/youtube.py:484-490 | A request is counted before it is sent, so a raising one is counted too. |
| `YouTubeComments.YouTubeProvider.AllCommentReplies` | providers/youtube.py:619-636 | All reply pages in order, one unit each. |
| `YouTubeComments.YouTubeProvider.KeepReplies` | providers/youtube.py:571-591 | The replies as new as asked for, in order. |
| `YouTubeComments.YouTubeProvider.ReadThread` | providers/youtube.py:539-591 | A thread's wanted messages, and the units its replies cost. |
| `YouTubeComments.YouTubeProvider.ReadPage` | providers/youtube.py:539-591 | A page's messages and units thread by thread, and its oldest thread's time. |
| `YouTubeComments.YouTubeProvider.VisitPage` | providers/youtube.py:523-591 | One page's messages and units, and whether its oldest thread lies past the cutoff. |
| `YouTubeComments.YouTubeProvider.WalkPages` | providers/youtube.py:509-617 | The page loop stops at the end, past the cutoff, or at the page cap with a continuation. |
| `YouTubeComments.YouTubeProvider.GetMessages` | providers/youtube.py:446-617 | A poll's messages, continuation and exact quota units (one for the channel, one per page, one per page of replies); a poll that raises does so at the raising request, on a page it had reason to read, with all units counted. |
| `YouTubeComments.OldestIsLeast` | providers/youtube.py:537-543 | The tracked oldest time lies under a bound exactly when some thread does. |
| `YouTubeComments.WalkTopLevel` | providers/youtube.py:539-563 | The top-level messages of a walk are the wanted threads of the pages it visited. |
| `YouTubeComments.OldThreadsAreNotWanted` | providers/youtube.py:597-600 | Pages that hold only older threads add nothing. |
| `YouTubeComments.EarlyExitLosesNothing` | providers/youtube.py:593-617 | A routine poll that returns no continuation delivers every thread published since `since` once and in feed order and none older, has visited all newer than `since` less the lookback, and cost one unit plus its pages, at most five. |
| `YouTubeComments.PollsCoverAPrefix` | providers/youtube.py:602-617 | Polls continued from each other's token have read a prefix of the channel, each page once, at exactly the units of its pages. |
| `YouTubeComments.SweepCoversTheChannel` | providers/youtube.py:503-617 | A deep sweep or first sync, continued until no continuation comes back, delivers every wanted thread of the channel in feed order, in as few polls as the cap allows, one unit each besides the pages. |
| `YouTubeComments.PollDeliversEverything` | providers/youtube.py:513-617 | A poll delivers every top comment and every reply of its pages as new as asked for, with replies fetched page by page exactly where a deep or first poll meets a thread reporting more than it embeds, each once and in order, and nothing else; it costs one unit for the channel, one per page and one per such reply page. |
| `YouTubeComments.SweepDeliversEverything` | providers/youtube.py:513-636 | The same for the whole channel of a sweep continued over several polls. |
| `YouTubeComments.RoutineFetchesNoReplies` | providers/youtube.py:565-570 | A routine poll spends nothing on replies. |
| `YouTubeComments.NothingOlderIsDelivered` | providers/youtube.py:548-591 | No message of any poll, thread or reply, is older than asked for. |
| `CommentRefresh.GetCommentsById` | providers/youtube.py:800-823 | Returns exactly the existing ids that are not poisoned, ends, stays within the request bound, and raises exactly at the request that fails with another error. |
| `CommentRefresh.FetchChunk` | providers/youtube.py:804-822 | A chunk of n ids with k poisoned ones costs at most 1 + 2k⌈log2 n⌉ requests. |
| `CommentRefresh.ChunkBoundIs` | providers/youtube.py:803-820 | The bound of a chunk is 1 + 2k⌈log2 n⌉. |
| `CommentRefresh.SplitFits` | providers/youtube.py:817-820 | Splitting a poisoned chunk in two stays within its bound. |
| `CommentRefresh.TotalBound` | providers/youtube.py:800-823 | A whole list costs at most one request per fifty ids plus twelve per poisoned id. |
| `CaptionEscaping.EscapeCommentary` | providers/linkedin.py:76-92 | The loop of replacements computes the one-pass escape, for every text. |
| `CaptionEscaping.NextReplacement` | providers/linkedin.py:89-91 | One more replacement widens the one-pass escape by one character. |
| `CaptionEscaping.OrderMattersExactly` | providers/linkedin.py:84-91 | With other characters replaced ahead of the backslash, the result is the one-pass escape if and only if the text holds none of them. |
| `CaptionEscaping.RenderedInverts` | providers/linkedin.py:76-92 | Read by LinkedIn's rule (a backslash makes the next character literal, an unescaped reserved one ends the text), the escaped caption is the text typed. |
| `CaptionEscaping.EscapeIsInjective` | providers/linkedin.py:76-92 | No two captions are sent as the same commentary. |
| `CaptionEscaping.UnescapedSurvivesIff` | providers/linkedin.py:66-73 | Sent as typed, a caption survives if and only if it has no reserved character and no backslash but a last one. |
| `CaptionEscaping.EscapedOnce` | providers/linkedin.py:84-91 | For any escaped set that holds the backslash, a character of the output stands behind an odd run of backslashes if and only if it is in the set. |
| `CaptionEscaping.ReservedIsEscapedOnce` | providers/linkedin.py:84-91 | In the output a character stands behind an odd run of backslashes if and only if it is reserved. |
| `CaptionEscaping.WireLengthIsPublishedLength` | providers/__init__.py:47-69 | The composer's count is the length of what goes out: the escaped commentary on LinkedIn, the text elsewhere. |
| `ResourceNames.Credentials.ApplyStoredTarget` | providers/google_business.py:80-102 | The stored names win, then the named account, then the pinned one; absent names leave the credentials alone. |
| `ResourceNames.SpellingsAgree` | providers/google_business.py:37-54 | A bare id and a resource name, on either side, give one parent. |
| `ResourceNames.FindInFull` | providers/google_business.py:50-51 | The account part ends where it should, except for an account called `locations`. |
| `ResourceNames.RoundTripIff` | providers/google_business.py:42-77 | For slash-free ids, splitting the parent gives back both names if and only if the account is not `locations` and the location is not empty and does not end in whitespace. |
| `ResourceNames.FullParentStandsIff` | providers/google_business.py:42-54 | A full parent given as the location is returned unchanged, whatever the account, if and only if its account is not `locations` and its location is not empty. |
| `ResourceNames.StoredTargetWins` | providers/google_business.py:80-102 | For any prior credentials and listings, applying a stored full target makes it the publish parent. |
| `ResourceNames.StoredTargetWinsIff` | providers/google_business.py:80-102 | For slash-free, trimmed, non-empty ids this holds for all prior credentials if and only if the account is not `locations`. |
| `ResourceNames.LocationsAccountIsLost` | providers/google_business.py:65-71 | An account called `locations` loses its posts to the first account listed. |
| `ResourceNames.LegacyRowBorrowsPinnedAccount` | providers/google_business.py:80-102 | A row that stores only a location keeps it and takes the account out of a full name pinned in the credentials. |
| `ResourceNames.NamedAccountBeatsPinned` | providers/google_business.py:91-98 | An account named in the credentials, bare or as a resource name, wins over the account inside a pinned location. |
| `ResourceNames.AccountRowKeepsPinnedLocation` | providers/google_business.py:90-102 | A row that stores only an account takes the pinned location. |
| `ResourceNames.NothingEntered` | providers/google_business.py:268-293 | With nothing stored or entered, the first account and location listed are used, or nothing can be published. |
| `QuotaMessage.FormatWrittenOut` | apps/api/limits.py:172-178 | The printed line, written out. |
| `QuotaMessage.ParseQuotaMessage` | apps/api/api.py:293-315 | The loop over the words computes the fields, and the headers follow from them. |
| `QuotaMessage.ReadInvertsPrint` | apps/api/api.py:304 | Reading the printed digits of a number gives the number. |
| `QuotaMessage.PrintInvertsReadIff` | apps/api/api.py:304 | Printing what digits read as gives them back if and only if they have no leading zero. |
| `QuotaMessage.WordsSplitAtSpace` | apps/api/api.py:301 | The words of a line are those before a space and those after it. |
| `QuotaMessage.NumbersComeBack` | apps/api/api.py:293-315 | For every tier whatsoever the three numbers come back as fields, and as headers exactly when they are not negative. |
| `QuotaMessage.SpaceFreeTier` | apps/api/api.py:293-315 | For a tier without whitespace the answer holds the five fields and no other. |
| `QuotaMessage.TierComesBackIff` | apps/api/api.py:301-304 | The tier comes back as given if and only if it has no whitespace and is not a number. |
| `QuotaMessage.CallersTierComesBack` | apps/api/limits.py:163-170 | Every tier the limits pass comes back. |

## Left out

- Posts of platforms without a batch endpoint (`apps/analytics/tasks.py:1078-1137`): the same stamps, one post at a time.
- Fairness between accounts: the account query has no order (`apps/analytics/tasks.py:1537-1540`).
- Backfill runs, which skip the cadence check on purpose (`apps/analytics/tasks.py:1457-1464`), and posts kept alive for metrics outside the cadence.
- The quota cooldown a quota error starts after a pass, and the handling of dead grants: a pass only ends with the error.
- Posts whose stored platform id is unusable: the pass drops them before it begins (`apps/analytics/tasks.py:987`), so the due list of the model is the list without them.
- Transaction rollback when writing a snapshot raises: the pass is modelled with its snapshots written.
- YouTube's own account bundle and period reports, which do not use the rebuilt series.
- The fields of a comment or message other than ids, senders, names, text and times; attachments and their URL rules.
- NativeVideo.NativeVideoSession.Attempt: the checks on the create response (URI, configuration) are one parameter each, and error texts are one reason each.
- MastodonPublish.MastodonPublisher.Upload: the cache's own time to live is the right of the cache to forget anything between attempts.
- MastodonPublish.MastodonPublisher.PublishPost: visibility, language and poll fields are one map of authored fields.
- InstagramPoll.FetchPageMessages: the 20-second clock is a parameter that says how many requests it lets start.
- DerivedMetrics.HeadlineIsTheWeightedMeanIff: series of equal length, as the bundle builds them (`apps/analytics/services.py:327-329`); with a shorter engagement series the code pads at the end and the days no longer line up with the right-aligned denominators, as `PartsAreAlignedIff` and `ShortPartIsMisplaced` show.
- DerivedMetrics.AverageIsTheMeanOfTheChart: rounding to one or two places is not modelled, nor a period of zero days, which the views never ask for (`apps/analytics/views.py:83-88`).
- The order in which engagement metrics are added is that of the metrics table; over real numbers it makes no difference.
- QuotaMessage.ParseQuotaMessage: digits are `0` to `9`; other digits of Unicode, some of which `int` refuses, are not modelled.
- ResourceNames.Credentials.ApplyStoredTarget: credential values are text, and a missing one is empty.
- HTTP, OAuth, JSON, hashing, time zones and rounding of floating-point numbers.
- Views, administration, middleware other than the idempotency slots, routing, templates and the publisher engine.
- Enumerations and single-branch validators, which one reading settles.
