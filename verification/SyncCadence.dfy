/** When a post's analytics are due (apps/analytics/tasks.py): the age ladder, the failure
    backoff, the SQL prefilter in front of them, and how many calls a post can cost in its life.
    Times are whole seconds. */
module SyncCadence {
  import opened Wrappers

  const HOUR := 3600
  const DAY := 24 * HOUR

  datatype Rung = Rung(maxAge: Option<int>, interval: Option<int>)

  const CADENCE: seq<Rung> := [
    Rung(Some(1 * DAY), Some(1 * HOUR)),
    Rung(Some(7 * DAY), Some(6 * HOUR)),
    Rung(Some(30 * DAY), Some(1 * DAY)),
    Rung(Some(90 * DAY), Some(7 * DAY)),
    Rung(None, None)]

  const BACKOFF_BASE := 1 * HOUR
  const BACKOFF_MAX := 7 * DAY
  const MAX_DOUBLINGS := 16

  /** `post_sync_interval`: the first rung whose age limit lies above `age`. */
  method PostSyncInterval(age: int) returns (interval: Option<int>)
    ensures interval == Interval(age)
  {
    for i := 0 to |CADENCE|
      invariant i > 0 ==> age >= DAY
      invariant i > 1 ==> age >= 7 * DAY
      invariant i > 2 ==> age >= 30 * DAY
      invariant i > 3 ==> age >= 90 * DAY
      invariant i < 5
    {
      if CADENCE[i].maxAge.None? || age < CADENCE[i].maxAge.value {
        return CADENCE[i].interval;
      }
    }
    assert false;
    return None;
  }

  /** The ladder spelled out. */
  function Interval(age: int): Option<int> {
    if age < DAY then Some(HOUR)
    else if age < 7 * DAY then Some(6 * HOUR)
    else if age < 30 * DAY then Some(DAY)
    else if age < 90 * DAY then Some(7 * DAY)
    else None
  }

  function Pow2(n: nat): (p: nat)
    ensures p >= 1
  {
    if n == 0 then 1 else 2 * Pow2(n - 1)
  }

  function Min(a: int, b: int): int { if a < b then a else b }

  function Max(a: int, b: int): int { if a > b then a else b }

  /** `_analytics_failure_backoff`, with its clamped exponent. */
  function Backoff(failures: int): int {
    if failures <= 0 then 0
    else Min(BACKOFF_BASE * Pow2(Min(failures - 1, MAX_DOUBLINGS)), BACKOFF_MAX)
  }

  /** The clamp changes nothing: for every count the backoff is the doubling hour, capped. */
  lemma BackoffIsCappedDoubling(failures: nat)
    requires failures >= 1
    ensures Backoff(failures) == Min(BACKOFF_BASE * Pow2(failures - 1), BACKOFF_MAX)
    ensures Backoff(failures) == BACKOFF_MAX <==> failures >= 9
  {
    assert Pow2(7) == 128 && Pow2(8) == 256 by { SmallPowers(); }
    if failures >= 9 {
      Pow2Grows(8, failures - 1);
      Pow2Grows(8, Min(failures - 1, MAX_DOUBLINGS));
    } else {
      Pow2Grows(failures - 1, 7);
    }
  }

  lemma BackoffIsMonotone(a: int, b: int)
    requires a <= b
    ensures Backoff(a) <= Backoff(b)
  {
    if a >= 1 {
      Pow2Grows(Min(a - 1, MAX_DOUBLINGS), Min(b - 1, MAX_DOUBLINGS));
    }
  }

  lemma SmallPowers()
    ensures Pow2(0) == 1 && Pow2(1) == 2 && Pow2(2) == 4 && Pow2(3) == 8 && Pow2(4) == 16
    ensures Pow2(5) == 32 && Pow2(6) == 64 && Pow2(7) == 128 && Pow2(8) == 256
  {
    assert Pow2(2) == 4;
    assert Pow2(4) == 16;
    assert Pow2(6) == 64;
  }

  lemma {:induction false} Pow2Grows(a: nat, b: nat)
    requires a <= b
    ensures Pow2(a) <= Pow2(b)
  {
    if a < b { Pow2Grows(a, b - 1); }
  }

  /* ---- Due or not ---- */

  datatype Post = Post(
    published: bool, platformId: string, publishedAt: Option<int>, attemptedAt: Option<int>, failures: nat,
    lastSnapshot: Option<int>)

  function Wait(post: Post, cadence: int): int {
    if post.failures != 0 then Max(cadence, Backoff(post.failures)) else cadence
  }

  /** `_post_cadence_due`. */
  predicate Due(post: Post, now: int) {
    if post.publishedAt.None? then false
    else
      var cadence := Interval(now - post.publishedAt.value);
      if cadence.None? then false
      else if post.attemptedAt.Some? then now - post.attemptedAt.value >= Wait(post, cadence.value)
      else post.lastSnapshot.None? || now - post.lastSnapshot.value >= cadence.value
  }

  predicate Publishable(post: Post) {
    post.published && post.platformId != ""
  }

  /** The filters `_due_posts_for` puts into SQL, for a platform with `capDays` of history. */
  predicate Prefiltered(post: Post, now: int, capDays: nat) {
    && capDays != 0
    && Publishable(post)
    && post.publishedAt.Some? && post.publishedAt.value >= now - capDays * DAY
    && (post.attemptedAt.None? || post.attemptedAt.value <= now - BACKOFF_BASE)
  }

  /** The narrowing loses no due post exactly when the platform keeps 90 days or more. */
  lemma PrefilterIsLosslessIff(capDays: nat)
    ensures (forall post, now :: Publishable(post) && Due(post, now) ==> Prefiltered(post, now, capDays))
      <==> capDays >= 90
  {
    if capDays < 90 {
      var post := Post(true, "id", Some(0 - capDays * DAY - 1), None, 0, None);
      assert Publishable(post) && Due(post, 0) && !Prefiltered(post, 0, capDays);
    }
  }

  /* ---- A post's lifetime of stamped attempts ---- */

  /** Found due at `at`; stamped once the platform has answered. */
  datatype Attempt = Attempt(at: int, stampedAt: int, ok: bool)

  /** `_record_post_sync_success` and `_record_post_sync_failure`. */
  function Stamped(post: Post, a: Attempt): Post {
    post.(attemptedAt := Some(a.stampedAt), failures := if a.ok then 0 else post.failures + 1)
  }

  function After(post: Post, attempts: seq<Attempt>): Post {
    if attempts == [] then post
    else Stamped(After(post, attempts[..|attempts| - 1]), attempts[|attempts| - 1])
  }

  /** Attempts the cron makes: each when the post is due, none before it was published. */
  predicate CronAttempts(post: Post, attempts: seq<Attempt>) {
    attempts == [] ||
    (var init := attempts[..|attempts| - 1];
     var last := attempts[|attempts| - 1];
     && CronAttempts(post, init)
     && Due(After(post, init), last.at)
     && post.publishedAt.Some? && post.publishedAt.value <= last.at <= last.stampedAt)
  }

  /** The earliest age at which attempt number i (from 0) can happen, whatever the outcomes. */
  function Earliest(i: nat): int {
    if i < 24 then i * HOUR
    else if i < 48 then 29 * HOUR + (i - 24) * 6 * HOUR
    else if i < 71 then 191 * HOUR + (i - 48) * DAY
    else 887 * HOUR + (i - 71) * 7 * DAY
  }

  lemma NextIsNotEarly(i: nat, previous: int, age: int)
    requires previous >= Earliest(i) && Interval(age).Some? && age - previous >= Interval(age).value
    ensures age >= Earliest(i + 1)
  {
  }

  /** A due post waited out the ladder, and on a failure streak the backoff too. */
  lemma DueHasWaited(post: Post, now: int)
    requires Due(post, now) && post.attemptedAt.Some?
    ensures post.publishedAt.Some? && Interval(now - post.publishedAt.value).Some?
    ensures now - post.attemptedAt.value >= Interval(now - post.publishedAt.value).value
    ensures now - post.attemptedAt.value >= Backoff(post.failures)
  {
  }

  lemma LastOf(post: Post, attempts: seq<Attempt>)
    requires CronAttempts(post, attempts) && attempts != []
    ensures var init, last := attempts[..|attempts| - 1], attempts[|attempts| - 1];
      && CronAttempts(post, init) && Due(After(post, init), last.at)
      && After(post, attempts).attemptedAt == Some(last.stampedAt) && last.at <= last.stampedAt
      && post.publishedAt.Some? && 0 <= last.at - post.publishedAt.value < 90 * DAY
  {
    PublishedAtIsKept(post, attempts[..|attempts| - 1]);
  }

  lemma {:induction false} AttemptsAreNotEarly(post: Post, attempts: seq<Attempt>)
    requires CronAttempts(post, attempts) && attempts != [] && post.publishedAt.Some?
    ensures attempts[|attempts| - 1].at - post.publishedAt.value >= Earliest(|attempts| - 1)
  {
    var init, last := attempts[..|attempts| - 1], attempts[|attempts| - 1];
    LastOf(post, attempts);
    if init != [] {
      AttemptsAreNotEarly(post, init);
      LastOf(post, init);
      PublishedAtIsKept(post, init);
      DueHasWaited(After(post, init), last.at);
      var published := post.publishedAt.value;
      NextIsNotEarly(|init| - 1, init[|init| - 1].at - published, last.at - published);
    }
  }

  lemma {:induction false} PublishedAtIsKept(post: Post, attempts: seq<Attempt>)
    ensures After(post, attempts).publishedAt == post.publishedAt
  {
    if attempts != [] { PublishedAtIsKept(post, attempts[..|attempts| - 1]); }
  }

  /** Main result 1. The cron calls for a post at most 79 times before its horizon, whatever the
      outcomes: 24 + 24 + 23 + 8 over the rungs. */
  lemma AtMost79Calls(post: Post, attempts: seq<Attempt>)
    requires CronAttempts(post, attempts)
    ensures |attempts| <= 79
  {
    if attempts != [] {
      LastOf(post, attempts);
      AttemptsAreNotEarly(post, attempts);
    }
  }

  const FRESH := Post(true, "id", Some(0), None, 0, None)

  /** A post that always succeeds and is asked as early as allowed costs exactly 79. */
  function Busiest(n: nat): seq<Attempt> {
    seq(n, i requires 0 <= i < n => Attempt(Earliest(i), Earliest(i), true))
  }

  lemma {:induction false} BusiestIsAllowed(n: nat)
    requires n <= 79
    ensures CronAttempts(FRESH, Busiest(n))
    ensures After(FRESH, Busiest(n)) == if n == 0 then FRESH else FRESH.(attemptedAt := Some(Earliest(n - 1)))
  {
    if n > 0 {
      BusiestIsAllowed(n - 1);
      assert Busiest(n)[..n - 1] == Busiest(n - 1);
      EarliestIsDue(n - 1);
    }
  }

  lemma EarliestIsDue(i: nat)
    requires i < 79
    ensures Due(if i == 0 then FRESH else FRESH.(attemptedAt := Some(Earliest(i - 1))), Earliest(i))
  {
  }

  lemma SeventyNineIsReached()
    ensures |Busiest(79)| == 79 && CronAttempts(FRESH, Busiest(79))
  {
    BusiestIsAllowed(79);
  }

  /** The same clock for a post whose every attempt fails. */
  function EarliestFailing(i: nat): int {
    if i <= 8 then (Pow2(i) - 1) * HOUR else 255 * HOUR + (i - 8) * 7 * DAY
  }

  predicate AllFail(attempts: seq<Attempt>) {
    forall i | 0 <= i < |attempts| :: !attempts[i].ok
  }

  lemma {:induction false} FailuresAreCounted(post: Post, attempts: seq<Attempt>)
    requires AllFail(attempts)
    ensures After(post, attempts).failures == post.failures + |attempts|
  {
    if attempts != [] { FailuresAreCounted(post, attempts[..|attempts| - 1]); }
  }

  lemma NextFailureIsNotEarly(i: nat, previous: int, age: int)
    requires previous >= EarliestFailing(i) && age - previous >= Backoff(i + 1)
    ensures age >= EarliestFailing(i + 1)
  {
    BackoffIsCappedDoubling(i + 1);
    SmallPowers();
  }

  lemma {:induction false} FailingAttemptsAreNotEarly(post: Post, attempts: seq<Attempt>)
    requires CronAttempts(post, attempts) && AllFail(attempts) && attempts != [] && post.publishedAt.Some?
    ensures attempts[|attempts| - 1].at - post.publishedAt.value >= EarliestFailing(|attempts| - 1)
  {
    var init, last := attempts[..|attempts| - 1], attempts[|attempts| - 1];
    LastOf(post, attempts);
    if init == [] {
      SmallPowers();
    } else {
      FailingAttemptsAreNotEarly(post, init);
      LastOf(post, init);
      DueHasWaited(After(post, init), last.at);
      FailuresAreCounted(post, init);
      BackoffIsMonotone(|init|, post.failures + |init|);
      var published := post.publishedAt.value;
      NextFailureIsNotEarly(|init| - 1, init[|init| - 1].at - published, last.at - published);
    }
  }

  /** Main result 2. A post whose every attempt fails costs at most 20 calls, and can cost 20. */
  lemma AtMost20FailingCalls(post: Post, attempts: seq<Attempt>)
    requires CronAttempts(post, attempts) && AllFail(attempts)
    ensures |attempts| <= 20
  {
    if attempts != [] {
      LastOf(post, attempts);
      FailingAttemptsAreNotEarly(post, attempts);
    }
  }

  function AlwaysFailing(n: nat): seq<Attempt> {
    seq(n, i requires 0 <= i < n => Attempt(EarliestFailing(i), EarliestFailing(i), false))
  }

  lemma {:induction false} AlwaysFailingIsAllowed(n: nat)
    requires n <= 20
    ensures CronAttempts(FRESH, AlwaysFailing(n)) && AllFail(AlwaysFailing(n))
    ensures After(FRESH, AlwaysFailing(n))
      == if n == 0 then FRESH else FRESH.(attemptedAt := Some(EarliestFailing(n - 1)), failures := n)
  {
    if n > 0 {
      AlwaysFailingIsAllowed(n - 1);
      assert AlwaysFailing(n)[..n - 1] == AlwaysFailing(n - 1);
      EarliestFailingIsDue(n - 1);
    }
  }

  lemma EarliestFailingIsDue(i: nat)
    requires i < 20
    ensures EarliestFailing(i) >= 0
    ensures Due(if i == 0 then FRESH else FRESH.(attemptedAt := Some(EarliestFailing(i - 1)), failures := i),
                EarliestFailing(i))
  {
    SmallPowers();
    if i > 0 {
      GapIsBackoff(i);
      assert Interval(EarliestFailing(i)).value <= Backoff(i);
    }
  }

  lemma GapIsBackoff(i: nat)
    requires i > 0
    ensures EarliestFailing(i) - EarliestFailing(i - 1) == Backoff(i)
  {
    BackoffIsCappedDoubling(i);
    SmallPowers();
    if i <= 8 {
      Pow2Grows(i - 1, 7);
    }
  }

  lemma TwentyIsReached()
    ensures |AlwaysFailing(20)| == 20 && CronAttempts(FRESH, AlwaysFailing(20)) && AllFail(AlwaysFailing(20))
  {
    AlwaysFailingIsAllowed(20);
  }

  /* ---- The schedule spelled out ---- */

  /** How long a post of this age waits between attempts: an hour in its first day, six in its
      first week, a day in its first month, a week after that. */
  function Hours(age: int): int {
    if age < 24 * 3600 then 1 else if age < 168 * 3600 then 6 else if age < 720 * 3600 then 24 else 168
  }

  /** A post without a stamp is due in its first 90 days when it has no snapshot, or its last one is
      as old as the ladder says. */
  lemma UnstampedIsDueIff(post: Post, now: int)
    requires post.attemptedAt.None?
    ensures Due(post, now) <==>
      && post.publishedAt.Some? && now - post.publishedAt.value < 90 * 24 * 3600
      && (post.lastSnapshot.None?
          || now - post.lastSnapshot.value >= Hours(now - post.publishedAt.value) * 3600)
  {
  }

  /** After a success only the ladder counts; after a failure the backoff of one failure more too. */
  lemma StampedIsDueIff(post: Post, a: Attempt, now: int)
    ensures Due(Stamped(post, a), now) <==>
      && post.publishedAt.Some? && now - post.publishedAt.value < 90 * 24 * 3600
      && now - a.stampedAt >= Hours(now - post.publishedAt.value) * 3600
      && (a.ok || now - a.stampedAt >= Min(3600 * Pow2(post.failures), 7 * 24 * 3600))
  {
    BackoffIsCappedDoubling(post.failures + 1);
  }

  /** What the prefilter leaves out: platforms without history, posts not published under an id or
      older than the cap, and posts attempted less than an hour ago. */
  lemma PrefilteredIff(post: Post, now: int, capDays: nat)
    ensures Prefiltered(post, now, capDays) <==>
      && capDays > 0 && post.published && post.platformId != ""
      && post.publishedAt.Some? && now - post.publishedAt.value <= capDays * 24 * 3600
      && (post.attemptedAt.Some? ==> now - post.attemptedAt.value >= 3600)
  {
  }
}
