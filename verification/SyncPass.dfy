/** One batched analytics pass over an account's due posts, and why no due post starves
    (apps/analytics/tasks.py). Rows are updated in the database by primary key. */
module SyncPass {
  import opened Wrappers

  /** The part of a post row the pass reads and writes; `snapshots` counts snapshot writes. */
  datatype Row = Row(platformId: string, attemptedAt: Option<int>, failures: nat, snapshots: nat)

  type Table = map<nat, Row>

  /** What `get_post_metrics_batch` did for one chunk. */
  datatype Answer = Metrics(ids: set<string>) | ChunkFailed | AccountWide | NotSupported

  /** One chunk's turn: the clock at the deadline check, the platform's answer, the stamp. */
  datatype Turn = Turn(checkedAt: int, answer: Answer, stampedAt: int)

  /** A completed chunk: its posts and the answer they were settled with. */
  datatype Chunk = Chunk(posts: seq<nat>, turn: Turn)

  datatype Outcome = Finished | OutOfTime | Unsupported | Raised

  predicate Known(rows: Table, posts: seq<nat>) {
    forall pk | pk in posts :: pk in rows
  }

  predicate NoRepeats<T(==)>(s: seq<T>) {
    forall i, j | 0 <= i < j < |s| :: s[i] != s[j]
  }

  /* ---- What settling a chunk means ---- */

  function Stamp(row: Row, at: int, hit: bool): Row {
    if hit then row.(attemptedAt := Some(at), failures := 0, snapshots := row.snapshots + 1)
    else row.(attemptedAt := Some(at), failures := row.failures + 1)
  }

  predicate Hit(answer: Answer, platformId: string) {
    answer.Metrics? && platformId in answer.ids
  }

  /** `by_platform_id`: the last post of the chunk under each platform id. */
  function ById(rows: Table, posts: seq<nat>): map<string, nat>
    requires Known(rows, posts)
  {
    if posts == [] then map[]
    else
      var last := posts[|posts| - 1];
      ById(rows, posts[..|posts| - 1])[rows[last].platformId := last]
  }

  /** A post stands for its platform id when no later post of the chunk carries the same id. */
  lemma {:induction false} ByIdKeepsTheLast(rows: Table, posts: seq<nat>, i: nat)
    requires Known(rows, posts) && NoRepeats(posts) && i < |posts|
    ensures var id := rows[posts[i]].platformId;
      && id in ById(rows, posts)
      && (ById(rows, posts)[id] == posts[i] <==>
          forall j | i < j < |posts| :: rows[posts[j]].platformId != id)
  {
    var n := |posts| - 1;
    if i < n {
      var init := posts[..n];
      ByIdKeepsTheLast(rows, init, i);
      assert forall j | i < j < n :: init[j] == posts[j];
    }
  }

  lemma {:induction false} ByIdIsSound(rows: Table, posts: seq<nat>)
    requires Known(rows, posts)
    ensures forall id | id in ById(rows, posts) ::
      ById(rows, posts)[id] in posts && ById(rows, posts)[id] in rows && rows[ById(rows, posts)[id]].platformId == id
  {
    if posts != [] { ByIdIsSound(rows, posts[..|posts| - 1]); }
  }

  /** The row of a post once its chunk has been stamped, except for the ids still in `todo`. */
  function Settle(row: Row, pk: nat, byId: map<string, nat>, todo: set<string>, turn: Turn): Row {
    if row.platformId in byId && row.platformId !in todo && byId[row.platformId] == pk
    then Stamp(row, turn.stampedAt, Hit(turn.answer, row.platformId))
    else row
  }

  function SettleAll(rows: Table, byId: map<string, nat>, todo: set<string>, turn: Turn): Table {
    map pk | pk in rows :: Settle(rows[pk], pk, byId, todo, turn)
  }

  /** The ids settled so far, as hits or as misses. */
  function SettledIds(byId: map<string, nat>, todo: set<string>, answer: Answer, hit: bool): set<string> {
    set id | id in byId && id !in todo && Hit(answer, id) == hit
  }

  lemma SettleOne(rows: Table, byId: map<string, nat>, todo: set<string>, turn: Turn, id: string)
    requires id in todo && id in byId && byId[id] in rows && rows[byId[id]].platformId == id
    ensures SettledIds(byId, todo - {id}, turn.answer, true)
      == SettledIds(byId, todo, turn.answer, true) + if Hit(turn.answer, id) then {id} else {}
    ensures SettledIds(byId, todo - {id}, turn.answer, false)
      == SettledIds(byId, todo, turn.answer, false) + if Hit(turn.answer, id) then {} else {id}
    ensures SettleAll(rows, byId, todo - {id}, turn)
      == SettleAll(rows, byId, todo, turn)[byId[id] := Stamp(rows[byId[id]], turn.stampedAt, Hit(turn.answer, id))]
    ensures SettleAll(rows, byId, todo, turn)[byId[id]] == rows[byId[id]]
  {
  }

  /** The table once a chunk's standing posts carry their stamp, hit or miss. */
  function AfterChunk(rows: Table, chunk: Chunk): Table
    requires Known(rows, chunk.posts)
  {
    SettleAll(rows, ById(rows, chunk.posts), {}, chunk.turn)
  }

  function Posts(chunks: seq<Chunk>): seq<nat> {
    if chunks == [] then [] else Posts(chunks[..|chunks| - 1]) + chunks[|chunks| - 1].posts
  }

  function AfterChunks(rows: Table, chunks: seq<Chunk>): (after: Table)
    requires Known(rows, Posts(chunks))
    ensures after.Keys == rows.Keys
    ensures forall pk | pk in rows :: after[pk].platformId == rows[pk].platformId
  {
    if chunks == [] then rows
    else AfterChunk(AfterChunks(rows, chunks[..|chunks| - 1]), chunks[|chunks| - 1])
  }

  function HitsOf(rows: Table, chunk: Chunk): set<string>
    requires Known(rows, chunk.posts)
  {
    set id | id in ById(rows, chunk.posts) && Hit(chunk.turn.answer, id)
  }

  function MissesOf(rows: Table, chunk: Chunk): set<string>
    requires Known(rows, chunk.posts)
  {
    set id | id in ById(rows, chunk.posts) && !Hit(chunk.turn.answer, id)
  }

  function Synced(rows: Table, chunks: seq<Chunk>): nat
    requires Known(rows, Posts(chunks))
  {
    if chunks == [] then 0
    else Synced(rows, chunks[..|chunks| - 1]) + |HitsOf(rows, chunks[|chunks| - 1])|
  }

  function Failed(rows: Table, chunks: seq<Chunk>): nat
    requires Known(rows, Posts(chunks))
  {
    if chunks == [] then 0
    else Failed(rows, chunks[..|chunks| - 1]) + |MissesOf(rows, chunks[|chunks| - 1])|
  }

  function Slice(due: seq<nat>, lo: nat, size: nat): seq<nat>
    requires lo <= |due|
  {
    due[lo..if lo + size <= |due| then lo + size else |due|]
  }

  /** The completed chunks of a pass: consecutive slices of the list, settled turn by turn. */
  predicate Completed(due: seq<nat>, size: nat, turns: seq<Turn>, chunks: seq<Chunk>) {
    chunks == [] ||
    (var init, last := chunks[..|chunks| - 1], chunks[|chunks| - 1];
     && Completed(due, size, turns, init)
     && |init| < |turns| && last.turn == turns[|init|]
     && (last.turn.answer.Metrics? || last.turn.answer.ChunkFailed?)
     && |Posts(init)| < |due| && last.posts == Slice(due, |Posts(init)|, size))
  }

  lemma {:induction false} CompletedIsPrefix(due: seq<nat>, size: nat, turns: seq<Turn>, chunks: seq<Chunk>)
    requires Completed(due, size, turns, chunks)
    ensures Posts(chunks) <= due && |chunks| <= |turns|
  {
    if chunks != [] { CompletedIsPrefix(due, size, turns, chunks[..|chunks| - 1]); }
  }

  class PostTable {
    var rows: Table

    constructor (rows: Table)
      ensures this.rows == rows
    {
      this.rows := rows;
    }

    method IndexChunk(posts: seq<nat>) returns (byId: map<string, nat>)
      requires Known(rows, posts)
      ensures byId == ById(rows, posts)
    {
      byId := map[];
      for k := 0 to |posts|
        invariant byId == ById(rows, posts[..k])
      {
        assert posts[..k + 1][..k] == posts[..k];
        byId := byId[rows[posts[k]].platformId := posts[k]];
      }
      assert posts[..|posts|] == posts;
    }

    /** Stamps one completed chunk, going over `by_platform_id` in any order. */
    method SettleChunk(chunk: Chunk) returns (hits: nat, misses: nat)
      requires Known(rows, chunk.posts)
      modifies this
      ensures rows == AfterChunk(old(rows), chunk)
      ensures hits == |HitsOf(old(rows), chunk)| && misses == |MissesOf(old(rows), chunk)|
    {
      var byId := IndexChunk(chunk.posts);
      ByIdIsSound(rows, chunk.posts);
      var todo := byId.Keys;
      assert rows == SettleAll(rows, byId, todo, chunk.turn);
      var hitIds: set<string>, missIds: set<string> := {}, {};
      while todo != {}
        invariant todo <= byId.Keys
        invariant rows == SettleAll(old(rows), byId, todo, chunk.turn)
        invariant hitIds == SettledIds(byId, todo, chunk.turn.answer, true)
        invariant missIds == SettledIds(byId, todo, chunk.turn.answer, false)
      {
        var id :| id in todo;
        var hit := Hit(chunk.turn.answer, id);
        SettleOne(old(rows), byId, todo, chunk.turn, id);
        rows := rows[byId[id] := Stamp(rows[byId[id]], chunk.turn.stampedAt, hit)];
        todo := todo - {id};
        if hit {
          hitIds := hitIds + {id};
        } else {
          missIds := missIds + {id};
        }
      }
      hits, misses := |hitIds|, |missIds|;
      assert hitIds == HitsOf(old(rows), chunk) && missIds == MissesOf(old(rows), chunk);
    }

    /** The chunk at `offset` is answered, hit or missed, and counted. */
    method CompleteChunk(ghost start: Table, due: seq<nat>, size: nat, ghost turns: seq<Turn>, ghost chunks: seq<Chunk>,
                         offset: nat, turn: Turn, synced: nat, failed: nat)
      returns (chunk: Chunk, nowSynced: nat, nowFailed: nat)
      requires Known(start, due) && size > 0 && Progress(start, due, size, turns, chunks, rows, synced, failed)
      requires offset == |Posts(chunks)| < |due| && |chunks| < |turns| && turn == turns[|chunks|]
      requires turn.answer.Metrics? || turn.answer.ChunkFailed?
      modifies this
      ensures chunk == Chunk(Slice(due, offset, size), turn)
      ensures offset < |Posts(chunks + [chunk])| == offset + |chunk.posts| <= |due|
      ensures Progress(start, due, size, turns, chunks + [chunk], rows, nowSynced, nowFailed)
    {
      chunk := Chunk(Slice(due, offset, size), turn);
      ProgressByOneChunk(start, due, size, turns, chunks, rows, synced, failed, chunk);
      var hits, misses := SettleChunk(chunk);
      nowSynced, nowFailed := synced + hits, failed + misses;
    }

    /** One turn of the loop: why the pass stops here, or one more chunk completed. */
    method TryChunk(ghost start: Table, due: seq<nat>, size: nat, turns: seq<Turn>, deadline: Option<int>,
                    ghost chunks: seq<Chunk>, offset: nat, calls: nat, synced: nat, failed: nat)
      returns (stop: Option<Outcome>, nowOffset: nat, nowCalls: nat, nowSynced: nat, nowFailed: nat,
               ghost nowChunks: seq<Chunk>)
      requires Known(start, due) && size > 0 && Progress(start, due, size, turns, chunks, rows, synced, failed)
      requires InTime(chunks, deadline) && calls == |chunks| < |turns| && offset == |Posts(chunks)| < |due|
      modifies this
      ensures Progress(start, due, size, turns, nowChunks, rows, nowSynced, nowFailed) && InTime(nowChunks, deadline)
      ensures stop.Some? ==>
        !stop.value.Finished? && StopsRightly(stop.value, due, turns, deadline, nowChunks, nowCalls)
      ensures stop.None? ==>
        nowCalls == |nowChunks| == |chunks| + 1 && offset < nowOffset == |Posts(nowChunks)| <= |due|
    {
      nowOffset, nowCalls, nowSynced, nowFailed, nowChunks := offset, calls, synced, failed, chunks;
      var turn := turns[calls];
      if deadline.Some? && turn.checkedAt >= deadline.value {
        stop := Some(OutOfTime);
        return;
      }
      if turn.answer.NotSupported? {
        stop := Some(Unsupported);
        return;
      }
      nowCalls := calls + 1;
      if turn.answer.AccountWide? {
        stop := Some(Raised);
        return;
      }
      var chunk;
      chunk, nowSynced, nowFailed := CompleteChunk(start, due, size, turns, chunks, offset, turn, synced, failed);
      InTimeByOne(chunks, deadline, chunk);
      stop, nowOffset, nowChunks := None, offset + |chunk.posts|, chunks + [chunk];
    }

    /** `_sync_account_posts` for a platform with a batch endpoint; `chunks` are those completed. */
    method SyncAccountPosts(due: seq<nat>, size: nat, turns: seq<Turn>, deadline: Option<int>)
      returns (outcome: Outcome, synced: nat, failed: nat, calls: nat, ghost chunks: seq<Chunk>)
      requires Known(rows, due) && size > 1 && |turns| >= |due|
      modifies this
      ensures Progress(old(rows), due, size, turns, chunks, rows, synced, failed)
      ensures InTime(chunks, deadline)
      ensures StopsRightly(outcome, due, turns, deadline, chunks, calls)
    {
      synced, failed, calls, chunks := 0, 0, 0, [];
      var offset := 0;
      NothingYet(rows, due, size, turns, deadline);
      while offset < |due|
        invariant offset == |Posts(chunks)| <= |due| && calls == |chunks| <= offset
        invariant Progress(old(rows), due, size, turns, chunks, rows, synced, failed)
        invariant InTime(chunks, deadline)
      {
        var stop;
        stop, offset, calls, synced, failed, chunks :=
          TryChunk(old(rows), due, size, turns, deadline, chunks, offset, calls, synced, failed);
        if stop.Some? {
          return stop.value, synced, failed, calls, chunks;
        }
      }
      outcome := Finished;
    }
  }

  /** Why a pass ended after these chunks, and what its calls count. */
  predicate StopsRightly(outcome: Outcome, due: seq<nat>, turns: seq<Turn>, deadline: Option<int>,
                         chunks: seq<Chunk>, calls: nat) {
    match outcome
    case Finished => |Posts(chunks)| == |due| && calls == |chunks|
    case OutOfTime =>
      |chunks| < |turns| && deadline.Some? && deadline.value <= turns[|chunks|].checkedAt && calls == |chunks|
    case Unsupported => |chunks| < |turns| && turns[|chunks|].answer.NotSupported? && calls == |chunks|
    case Raised => |chunks| < |turns| && turns[|chunks|].answer.AccountWide? && calls == |chunks| + 1
  }

  /** Every completed chunk was begun before the deadline. */
  predicate InTime(chunks: seq<Chunk>, deadline: Option<int>) {
    chunks == [] || deadline.None?
    || (InTime(chunks[..|chunks| - 1], deadline) && chunks[|chunks| - 1].turn.checkedAt < deadline.value)
  }

  lemma InTimeByOne(chunks: seq<Chunk>, deadline: Option<int>, chunk: Chunk)
    requires InTime(chunks, deadline) && (deadline.Some? ==> chunk.turn.checkedAt < deadline.value)
    ensures InTime(chunks + [chunk], deadline)
  {
    assert (chunks + [chunk])[..|chunks|] == chunks;
  }

  /** What the pass has done after its first chunks. */
  ghost predicate Progress(start: Table, due: seq<nat>, size: nat, turns: seq<Turn>, chunks: seq<Chunk>,
                           rows: Table, synced: nat, failed: nat) {
    && Completed(due, size, turns, chunks) && Known(start, Posts(chunks))
    && rows == AfterChunks(start, chunks)
    && synced == Synced(start, chunks) && failed == Failed(start, chunks)
  }

  lemma NothingYet(start: Table, due: seq<nat>, size: nat, turns: seq<Turn>, deadline: Option<int>)
    ensures Progress(start, due, size, turns, [], start, 0, 0) && InTime([], deadline) && Posts([]) == []
  {
  }

  lemma ProgressByOneChunk(start: Table, due: seq<nat>, size: nat, turns: seq<Turn>, chunks: seq<Chunk>,
                           rows: Table, synced: nat, failed: nat, chunk: Chunk)
    requires Known(start, due) && size > 0 && Progress(start, due, size, turns, chunks, rows, synced, failed)
    requires |Posts(chunks)| < |due| && |chunks| < |turns| && chunk.turn == turns[|chunks|]
    requires chunk.turn.answer.Metrics? || chunk.turn.answer.ChunkFailed?
    requires chunk.posts == Slice(due, |Posts(chunks)|, size)
    ensures Known(rows, chunk.posts)
    ensures |Posts(chunks)| < |Posts(chunks + [chunk])| == |Posts(chunks)| + |chunk.posts| <= |due|
    ensures Progress(start, due, size, turns, chunks + [chunk], AfterChunk(rows, chunk),
                     synced + |HitsOf(rows, chunk)|, failed + |MissesOf(rows, chunk)|)
  {
    assert (chunks + [chunk])[..|chunks|] == chunks;
    ChunkExtendsTotals(start, chunks, chunk);
  }

  lemma {:induction false} ByIdSeesOnlyIds(a: Table, b: Table, posts: seq<nat>)
    requires Known(a, posts) && Known(b, posts)
    requires forall pk | pk in posts :: a[pk].platformId == b[pk].platformId
    ensures ById(a, posts) == ById(b, posts)
  {
    if posts != [] { ByIdSeesOnlyIds(a, b, posts[..|posts| - 1]); }
  }

  lemma ChunkExtendsTotals(rows: Table, chunks: seq<Chunk>, chunk: Chunk)
    requires Known(rows, Posts(chunks)) && Known(rows, chunk.posts)
    ensures Known(rows, Posts(chunks + [chunk]))
    ensures AfterChunks(rows, chunks + [chunk]) == AfterChunk(AfterChunks(rows, chunks), chunk)
    ensures Synced(rows, chunks + [chunk]) == Synced(rows, chunks) + |HitsOf(AfterChunks(rows, chunks), chunk)|
    ensures Failed(rows, chunks + [chunk]) == Failed(rows, chunks) + |MissesOf(AfterChunks(rows, chunks), chunk)|
  {
    assert (chunks + [chunk])[..|chunks|] == chunks;
    ByIdSeesOnlyIds(rows, AfterChunks(rows, chunks), chunk.posts);
  }

  /* ---- Which posts a pass touches ---- */

  predicate LastUnderItsId(rows: Table, posts: seq<nat>, i: nat)
    requires Known(rows, posts) && i < |posts|
  {
    forall j | i < j < |posts| :: rows[posts[j]].platformId != rows[posts[i]].platformId
  }

  lemma {:induction false} OthersAreUntouched(rows: Table, chunks: seq<Chunk>, pk: nat)
    requires Known(rows, Posts(chunks)) && pk in rows && pk !in Posts(chunks)
    ensures AfterChunks(rows, chunks)[pk] == rows[pk]
  {
    if chunks != [] {
      var init, last := chunks[..|chunks| - 1], chunks[|chunks| - 1];
      OthersAreUntouched(rows, init, pk);
      ByIdIsSound(AfterChunks(rows, init), last.posts);
    }
  }

  /** Main result 1. Every post of a completed chunk is stamped exactly once, as hit or as miss,
      unless a later post of its chunk carries its platform id; then it is not touched. A
      snapshot is written exactly for the hits. */
  lemma {:induction false} EachPostIsStampedOnce(rows: Table, chunks: seq<Chunk>, c: nat, i: nat)
    requires Known(rows, Posts(chunks)) && NoRepeats(Posts(chunks))
    requires c < |chunks| && i < |chunks[c].posts|
    ensures chunks[c].posts[i] in Posts(chunks) && Known(rows, chunks[c].posts)
    ensures var pk := chunks[c].posts[i];
      AfterChunks(rows, chunks)[pk] ==
        if LastUnderItsId(rows, chunks[c].posts, i)
        then Stamp(rows[pk], chunks[c].turn.stampedAt, Hit(chunks[c].turn.answer, rows[pk].platformId))
        else rows[pk]
  {
    var init, last := chunks[..|chunks| - 1], chunks[|chunks| - 1];
    var pk := chunks[c].posts[i];
    var before := AfterChunks(rows, init);
    HalvesHaveNoRepeats(Posts(init), last.posts);
    if c < |init| {
      EachPostIsStampedOnce(rows, init, c, i);
      Disjoint(Posts(init), last.posts, pk);
      ByIdIsSound(before, last.posts);
    } else {
      DisjointBack(Posts(init), last.posts, pk);
      OthersAreUntouched(rows, init, pk);
      ByIdKeepsTheLast(before, last.posts, i);
      SameIdsSameLast(rows, before, last.posts, i);
    }
  }

  lemma SameIdsSameLast(a: Table, b: Table, posts: seq<nat>, i: nat)
    requires Known(a, posts) && Known(b, posts) && i < |posts|
    requires forall pk | pk in posts :: a[pk].platformId == b[pk].platformId
    ensures LastUnderItsId(a, posts, i) == LastUnderItsId(b, posts, i)
  {
  }

  lemma HalvesHaveNoRepeats(a: seq<nat>, b: seq<nat>)
    requires NoRepeats(a + b)
    ensures NoRepeats(a) && NoRepeats(b)
  {
    assert forall k | 0 <= k < |a| :: (a + b)[k] == a[k];
    assert forall k | 0 <= k < |b| :: (a + b)[|a| + k] == b[k];
  }

  lemma DisjointBack(a: seq<nat>, b: seq<nat>, x: nat)
    requires NoRepeats(a + b) && x in b
    ensures x !in a && x in a + b
  {
    var j :| 0 <= j < |b| && b[j] == x;
    assert (a + b)[|a| + j] == x;
    forall i | 0 <= i < |a|
      ensures a[i] != x
    {
      assert (a + b)[i] != (a + b)[|a| + j];
    }
  }

  lemma Disjoint(a: seq<nat>, b: seq<nat>, x: nat)
    requires NoRepeats(a + b) && x in a
    ensures x !in b
  {
    var i :| 0 <= i < |a| && a[i] == x;
    forall j | 0 <= j < |b|
      ensures b[j] != x
    {
      assert (a + b)[i] != (a + b)[|a| + j];
    }
  }

  lemma {:induction false} ByIdCounts(rows: Table, posts: seq<nat>)
    requires Known(rows, posts)
    ensures |ById(rows, posts)| <= |posts|
    ensures |ById(rows, posts)| == |posts| <==> IdsDiffer(rows, posts)
  {
    if posts != [] {
      var n := |posts| - 1;
      var init := posts[..n];
      var id := rows[posts[n]].platformId;
      ByIdCounts(rows, init);
      LastIdIsNewIff(rows, posts);
      var rest := ById(rows, init);
      if id in rest {
        assert ById(rows, posts).Keys == rest.Keys;
      } else {
        assert ById(rows, posts).Keys == rest.Keys + {id};
      }
      assert |ById(rows, posts)| == |ById(rows, posts).Keys| && |rest| == |rest.Keys|;
    }
  }

  lemma LastIdIsNewIff(rows: Table, posts: seq<nat>)
    requires Known(rows, posts) && posts != []
    ensures var init, id := posts[..|posts| - 1], rows[posts[|posts| - 1]].platformId;
      IdsDiffer(rows, posts) <==> IdsDiffer(rows, init) && id !in ById(rows, init)
  {
    var n := |posts| - 1;
    var init, id := posts[..n], rows[posts[n]].platformId;
    ByIdHasIds(rows, init);
    if IdsDiffer(rows, posts) {
      forall i | 0 <= i < n
        ensures LastUnderItsId(rows, init, i) && rows[init[i]].platformId != id
      {
        assert LastUnderItsId(rows, posts, i);
      }
    }
    if IdsDiffer(rows, init) && id !in ById(rows, init) {
      forall i | 0 <= i < |posts|
        ensures LastUnderItsId(rows, posts, i)
      {
        if i < n {
          assert LastUnderItsId(rows, init, i) && rows[init[i]].platformId != id;
        }
      }
    }
  }

  lemma {:induction false} ByIdHasIds(rows: Table, posts: seq<nat>)
    requires Known(rows, posts)
    ensures forall id :: id in ById(rows, posts) <==> exists i | 0 <= i < |posts| :: rows[posts[i]].platformId == id
  {
    if posts != [] {
      var init := posts[..|posts| - 1];
      ByIdHasIds(rows, init);
      assert forall i | 0 <= i < |init| :: posts[i] == init[i];
    }
  }

  lemma HitOrMissed(rows: Table, chunk: Chunk)
    requires Known(rows, chunk.posts)
    ensures |HitsOf(rows, chunk)| + |MissesOf(rows, chunk)| == |ById(rows, chunk.posts)|
  {
    var hits, misses, byId := HitsOf(rows, chunk), MissesOf(rows, chunk), ById(rows, chunk.posts);
    assert hits + misses == byId.Keys && hits !! misses;
    assert |hits + misses| == |hits| + |misses|;
    assert |byId| == |byId.Keys|;
  }

  /** Main result 2. The counts a pass returns cover every post of its completed chunks exactly
      when no platform id repeats inside a chunk; a repeated id leaves posts uncounted. */
  lemma {:induction false} CountsCoverIffIdsDiffer(rows: Table, chunks: seq<Chunk>)
    requires Known(rows, Posts(chunks))
    ensures Synced(rows, chunks) + Failed(rows, chunks) <= |Posts(chunks)|
    ensures Synced(rows, chunks) + Failed(rows, chunks) == |Posts(chunks)| <==>
      forall c | 0 <= c < |chunks| :: IdsDiffer(rows, chunks[c].posts)
  {
    if chunks != [] {
      var init, last := chunks[..|chunks| - 1], chunks[|chunks| - 1];
      CountsCoverIffIdsDiffer(rows, init);
      ByIdCounts(rows, last.posts);
      HitOrMissed(rows, last);
      assert forall c | 0 <= c < |init| :: init[c] == chunks[c];
    }
  }

  predicate IdsDiffer(rows: Table, posts: seq<nat>) {
    Known(rows, posts) && forall i | 0 <= i < |posts| :: LastUnderItsId(rows, posts, i)
  }

  /* ---- Fairness ---- */

  const HOUR := 3600

  /** Never attempted counts as earliest. */
  predicate NoLater(a: Option<int>, b: Option<int>) {
    a.None? || (b.Some? && a.value <= b.value)
  }

  /** One pass: the list came ordered by attempt time, nulls first, ties in any order. */
  datatype Pass = Pass(before: Table, now: int, due: seq<nat>, chunks: seq<Chunk>)

  ghost predicate FairPass(p: Pass) {
    && Known(p.before, p.due) && NoRepeats(p.due) && Posts(p.chunks) <= p.due
    && (forall i, j | 0 <= i < j < |p.due| :: NoLater(p.before[p.due[i]].attemptedAt, p.before[p.due[j]].attemptedAt))
    && (forall i | 0 <= i < |p.due| :: NoLater(p.before[p.due[i]].attemptedAt, Some(p.now - HOUR)))
    && (forall c | 0 <= c < |p.chunks| :: p.chunks[c].turn.stampedAt >= p.now)
  }

  function Ahead(rows: Table, pk: nat): set<nat>
    requires pk in rows
  {
    set q | q in rows && NoLater(rows[q].attemptedAt, rows[pk].attemptedAt)
  }

  lemma {:induction false} FindPost(chunks: seq<Chunk>, pk: nat) returns (c: nat, i: nat, at: nat)
    requires pk in Posts(chunks)
    ensures c < |chunks| && i < |chunks[c].posts| && chunks[c].posts[i] == pk
    ensures at + |chunks[c].posts| <= |Posts(chunks)|
    ensures chunks[c].posts == Posts(chunks)[at..at + |chunks[c].posts|]
  {
    var init, last := chunks[..|chunks| - 1], chunks[|chunks| - 1];
    if pk in last.posts {
      c, at := |init|, |Posts(init)|;
      i :| 0 <= i < |last.posts| && last.posts[i] == pk;
    } else {
      c, i, at := FindPost(init, pk);
      assert Posts(init)[at..at + |init[c].posts|] == Posts(chunks)[at..at + |init[c].posts|];
    }
  }

  /** The posts that stand for their platform id in a completed chunk. */
  function StampedPosts(rows: Table, chunks: seq<Chunk>): (stamped: set<nat>)
    requires Known(rows, Posts(chunks))
  {
    if chunks == [] then {}
    else StampedPosts(rows, chunks[..|chunks| - 1]) + ById(rows, chunks[|chunks| - 1].posts).Values
  }

  lemma {:induction false} StampedAreReached(rows: Table, chunks: seq<Chunk>, q: nat)
    requires Known(rows, Posts(chunks)) && q in StampedPosts(rows, chunks)
    ensures q in Posts(chunks)
  {
    var init, last := chunks[..|chunks| - 1], chunks[|chunks| - 1];
    if q in ById(rows, last.posts).Values {
      ByIdIsSound(rows, last.posts);
    } else {
      StampedAreReached(rows, init, q);
    }
  }

  /** A pass stamps exactly these posts, each once, and leaves every other row alone. */
  lemma {:induction false} StampedRow(rows: Table, chunks: seq<Chunk>, q: nat)
    requires Known(rows, Posts(chunks)) && NoRepeats(Posts(chunks)) && q in rows
    ensures q !in StampedPosts(rows, chunks) ==> AfterChunks(rows, chunks)[q] == rows[q]
    ensures q in StampedPosts(rows, chunks) ==>
      exists c | 0 <= c < |chunks| ::
        AfterChunks(rows, chunks)[q]
        == Stamp(rows[q], chunks[c].turn.stampedAt, Hit(chunks[c].turn.answer, rows[q].platformId))
  {
    if chunks != [] {
      var init, last := chunks[..|chunks| - 1], chunks[|chunks| - 1];
      var before := AfterChunks(rows, init);
      HalvesHaveNoRepeats(Posts(init), last.posts);
      StampedRow(rows, init, q);
      ByIdSeesOnlyIds(rows, before, last.posts);
      ByIdIsSound(rows, last.posts);
      if q in ById(rows, last.posts).Values {
        DisjointBack(Posts(init), last.posts, q);
        OthersAreUntouched(rows, init, q);
        assert AfterChunks(rows, chunks)[q]
          == Stamp(rows[q], last.turn.stampedAt, Hit(last.turn.answer, rows[q].platformId));
      } else {
        assert AfterChunks(rows, chunks)[q] == before[q];
      }
    }
  }

  lemma {:induction false} OneEntryPerPost(rows: Table, byId: map<string, nat>)
    requires forall id | id in byId :: byId[id] in rows && rows[byId[id]].platformId == id
    ensures |byId.Values| == |byId|
    decreases |byId|
  {
    if id :| id in byId {
      var rest := byId - {id};
      assert byId == rest[id := byId[id]];
      OneEntryPerPost(rows, rest);
      forall x
        ensures x in byId.Values <==> x in rest.Values + {byId[id]}
      {
        assert x in rest.Values ==> exists other | other in rest :: rest[other] == x;
        if x in byId.Values {
          var other :| other in byId && byId[other] == x;
          assert other == id || rest[other] == x;
        }
      }
      assert byId.Values == rest.Values + {byId[id]};
      assert byId[id] !in rest.Values;
    } else {
      assert byId == map[];
    }
  }

  /** They are as many as the pass counts, hits and misses together. */
  lemma {:induction false} StampedAreCounted(rows: Table, chunks: seq<Chunk>)
    requires Known(rows, Posts(chunks)) && NoRepeats(Posts(chunks))
    ensures |StampedPosts(rows, chunks)| == Synced(rows, chunks) + Failed(rows, chunks)
    ensures Posts(chunks) != [] ==> StampedPosts(rows, chunks) != {}
  {
    if chunks != [] {
      var init, last := chunks[..|chunks| - 1], chunks[|chunks| - 1];
      var byId, earlier := ById(rows, last.posts), StampedPosts(rows, init);
      HalvesHaveNoRepeats(Posts(init), last.posts);
      StampedAreCounted(rows, init);
      ByIdIsSound(rows, last.posts);
      OneEntryPerPost(rows, byId);
      HitOrMissed(rows, last);
      forall q | q in byId.Values
        ensures q !in earlier
      {
        DisjointBack(Posts(init), last.posts, q);
        if q in earlier {
          StampedAreReached(rows, init, q);
        }
      }
      assert |earlier + byId.Values| == |earlier| + |byId.Values| - |earlier * byId.Values|;
      assert earlier * byId.Values == {};
      if last.posts != [] {
        var id := rows[last.posts[|last.posts| - 1]].platformId;
        assert byId[id] in byId.Values;
      }
    }
  }

  lemma StampedMovesBehind(p: Pass, pk: nat, q: nat)
    requires FairPass(p) && pk in p.due && Known(p.before, Posts(p.chunks)) && NoRepeats(Posts(p.chunks))
    requires q in p.before && q in StampedPosts(p.before, p.chunks)
    ensures !NoLater(AfterChunks(p.before, p.chunks)[q].attemptedAt, p.before[pk].attemptedAt)
  {
    StampedRow(p.before, p.chunks, q);
    var k :| 0 <= k < |p.due| && p.due[k] == pk;
    assert NoLater(p.before[p.due[k]].attemptedAt, Some(p.now - HOUR));
  }

  lemma FairPassIsKnown(p: Pass)
    requires FairPass(p)
    ensures Known(p.before, Posts(p.chunks)) && NoRepeats(Posts(p.chunks))
  {
    var reached := Posts(p.chunks);
    assert forall k | 0 <= k < |reached| :: reached[k] == p.due[k];
  }

  /** A due post that a pass does not reach moves up by every post the pass stamps and counts. */
  lemma PassedOverMovesUp(p: Pass, pk: nat)
    requires FairPass(p) && pk in p.due && pk !in Posts(p.chunks)
    ensures Known(p.before, Posts(p.chunks))
    ensures var after := AfterChunks(p.before, p.chunks);
      && after[pk] == p.before[pk]
      && |Ahead(after, pk)| + Synced(p.before, p.chunks) + Failed(p.before, p.chunks) <= |Ahead(p.before, pk)|
  {
    FairPassIsKnown(p);
    var after, front := AfterChunks(p.before, p.chunks), StampedPosts(p.before, p.chunks);
    OthersAreUntouched(p.before, p.chunks, pk);
    forall q | q in Ahead(after, pk)
      ensures q in Ahead(p.before, pk) - front
    {
      StampedRow(p.before, p.chunks, q);
      if q in front {
        StampedMovesBehind(p, pk, q);
      }
    }
    forall q | q in front
      ensures q in Ahead(p.before, pk)
    {
      StampedAreReached(p.before, p.chunks, q);
      ReachedIsAhead(p, pk, q);
    }
    StampedAreCounted(p.before, p.chunks);
    Fits(Ahead(after, pk), front, Ahead(p.before, pk));
  }

  lemma ReachedIsAhead(p: Pass, pk: nat, q: nat)
    requires FairPass(p) && pk in p.due && pk !in Posts(p.chunks) && q in Posts(p.chunks)
    ensures q in p.before && NoLater(p.before[q].attemptedAt, p.before[pk].attemptedAt)
  {
    var reached := Posts(p.chunks);
    var k :| 0 <= k < |reached| && reached[k] == q;
    var at :| 0 <= at < |p.due| && p.due[at] == pk;
    assert forall j | 0 <= j < |reached| :: reached[j] == p.due[j];
    assert k < at;
  }

  lemma Fits(a: set<nat>, b: set<nat>, whole: set<nat>)
    requires a <= whole - b && b <= whole
    ensures |a| + |b| <= |whole|
  {
    Subset(a + b, whole);
    assert |a + b| == |a| + |b| - |a * b|;
    assert a * b == {};
  }

  lemma {:induction false} Subset(a: set<nat>, b: set<nat>)
    requires a <= b
    ensures |a| <= |b|
  {
    if a != {} {
      var x :| x in a;
      Subset(a - {x}, b - {x});
    }
  }

  /** Passes over a fixed set of posts, each working on what the one before left. */
  ghost predicate Passes(passes: seq<Pass>) {
    && (forall k | 0 <= k < |passes| :: FairPass(passes[k]) && Known(passes[k].before, Posts(passes[k].chunks)))
    && forall k | 0 < k < |passes| ::
         passes[k].before == AfterChunks(passes[k - 1].before, passes[k - 1].chunks)
  }

  /** What the passes counted, all together. */
  function Counted(passes: seq<Pass>): nat
    requires forall k | 0 <= k < |passes| :: Known(passes[k].before, Posts(passes[k].chunks))
  {
    if passes == [] then 0
    else Synced(passes[0].before, passes[0].chunks) + Failed(passes[0].before, passes[0].chunks) + Counted(passes[1..])
  }

  /** Main result 3. A post that is due in every pass and reached in none sees fewer posts stamped
      ahead of it, over all passes together, than were stamped no later than it at the start. */
  lemma {:induction false} NeglectIsBounded(passes: seq<Pass>, pk: nat)
    requires Passes(passes) && passes != []
    requires forall k | 0 <= k < |passes| :: pk in passes[k].due && pk !in Posts(passes[k].chunks)
    ensures Counted(passes) < |Ahead(passes[0].before, pk)|
  {
    var rest := passes[1..];
    PassedOverMovesUp(passes[0], pk);
    var after := AfterChunks(passes[0].before, passes[0].chunks);
    assert pk in Ahead(after, pk);
    if rest != [] {
      assert rest[0].before == after;
      forall k | 0 < k < |rest|
        ensures rest[k].before == AfterChunks(rest[k - 1].before, rest[k - 1].chunks)
      {
        assert rest[k] == passes[k + 1] && rest[k - 1] == passes[k];
      }
      NeglectIsBounded(rest, pk);
    }
  }

  /** So with at least one post reached per pass, N posts need at most N passes: a post that stays
      due is in a completed chunk by then, whatever platform ids repeat. */
  lemma NoPostStarves(passes: seq<Pass>, pk: nat)
    requires Passes(passes) && passes != [] && |passes| >= |passes[0].before|
    requires forall k | 0 <= k < |passes| :: pk in passes[k].due && Posts(passes[k].chunks) != []
    ensures exists k | 0 <= k < |passes| :: pk in Posts(passes[k].chunks)
  {
    if forall k | 0 <= k < |passes| :: pk !in Posts(passes[k].chunks) {
      NeglectIsBounded(passes, pk);
      EachPassCounts(passes);
      Subset(Ahead(passes[0].before, pk), passes[0].before.Keys);
      assert false;
    }
  }

  lemma {:induction false} EachPassCounts(passes: seq<Pass>)
    requires forall k | 0 <= k < |passes| :: FairPass(passes[k]) && Posts(passes[k].chunks) != []
    requires forall k | 0 <= k < |passes| :: Known(passes[k].before, Posts(passes[k].chunks))
    ensures Counted(passes) >= |passes|
  {
    if passes != [] {
      FairPassIsKnown(passes[0]);
      StampedAreCounted(passes[0].before, passes[0].chunks);
      EachPassCounts(passes[1..]);
    }
  }

  /* ---- A repeated platform id starves the earlier post ---- */

  /** In every chunk of the pass that holds the post, a later post carries its platform id. */
  ghost predicate Shadowed(p: Pass, pk: nat)
    requires Known(p.before, Posts(p.chunks))
  {
    && NoRepeats(Posts(p.chunks))
    && forall c, i | 0 <= c < |p.chunks| && 0 <= i < |p.chunks[c].posts| && p.chunks[c].posts[i] == pk ::
         Known(p.before, p.chunks[c].posts) && !LastUnderItsId(p.before, p.chunks[c].posts, i)
  }

  /** Passes over a fixed table, however their posts were chosen. */
  ghost predicate Follow(passes: seq<Pass>) {
    && (forall k | 0 <= k < |passes| :: Known(passes[k].before, Posts(passes[k].chunks)))
    && forall k | 0 < k < |passes| ::
         passes[k].before == AfterChunks(passes[k - 1].before, passes[k - 1].chunks)
  }

  /** A pass changes a post's row exactly when it reached the post and the post was not shadowed. */
  lemma StampedIffNotShadowed(p: Pass, pk: nat)
    requires pk in p.before && Known(p.before, Posts(p.chunks)) && NoRepeats(Posts(p.chunks))
    ensures AfterChunks(p.before, p.chunks)[pk] != p.before[pk] <==> pk in Posts(p.chunks) && !Shadowed(p, pk)
  {
    if pk !in Posts(p.chunks) {
      OthersAreUntouched(p.before, p.chunks, pk);
    } else if Shadowed(p, pk) {
      var c, i, at := FindPost(p.chunks, pk);
      EachPostIsStampedOnce(p.before, p.chunks, c, i);
    } else {
      var c, i := NotShadowedIn(p, pk);
      EachPostIsStampedOnce(p.before, p.chunks, c, i);
    }
  }

  lemma NotShadowedIn(p: Pass, pk: nat) returns (c: nat, i: nat)
    requires Known(p.before, Posts(p.chunks)) && NoRepeats(Posts(p.chunks)) && !Shadowed(p, pk)
    ensures c < |p.chunks| && i < |p.chunks[c].posts| && p.chunks[c].posts[i] == pk
    ensures Known(p.before, p.chunks[c].posts) && LastUnderItsId(p.before, p.chunks[c].posts, i)
  {
    c, i :| 0 <= c < |p.chunks| && 0 <= i < |p.chunks[c].posts| && p.chunks[c].posts[i] == pk
            && !(Known(p.before, p.chunks[c].posts) && !LastUnderItsId(p.before, p.chunks[c].posts, i));
    EachPostIsStampedOnce(p.before, p.chunks, c, i);
  }

  /** Main result 4. A post that stays due over as many passes as there are posts is stamped in
      one of them if and only if one of the completed chunks it is in holds no later post with
      its platform id. */
  lemma StampedInTimeIff(passes: seq<Pass>, pk: nat)
    requires Passes(passes) && passes != [] && |passes| >= |passes[0].before|
    requires forall k | 0 <= k < |passes| :: pk in passes[k].due && Posts(passes[k].chunks) != []
    ensures exists k | 0 <= k < |passes| :: pk in Posts(passes[k].chunks)
    ensures (exists k | 0 <= k < |passes| ::
               AfterChunks(passes[k].before, passes[k].chunks)[pk] != passes[k].before[pk])
      <==> exists k | 0 <= k < |passes| :: pk in Posts(passes[k].chunks) && !Shadowed(passes[k], pk)
  {
    NoPostStarves(passes, pk);
    forall k | 0 <= k < |passes|
      ensures AfterChunks(passes[k].before, passes[k].chunks)[pk] != passes[k].before[pk]
        <==> pk in Posts(passes[k].chunks) && !Shadowed(passes[k], pk)
    {
      FairPassIsKnown(passes[k]);
      StampedIffNotShadowed(passes[k], pk);
    }
  }

  /** Main result 5. A post that shares its platform id with a later post of every chunk it is in
      is never stamped: its row stays as it was, and with it its place in the queue, however many
      of its chunks are completed. */
  lemma {:induction false} ShadowedIsNeverStamped(passes: seq<Pass>, pk: nat, k: nat)
    requires Follow(passes) && k < |passes| && pk in passes[0].before
    requires forall j | 0 <= j < |passes| :: Shadowed(passes[j], pk)
    ensures pk in passes[k].before && passes[k].before[pk] == passes[0].before[pk]
    ensures AfterChunks(passes[k].before, passes[k].chunks)[pk] == passes[0].before[pk]
  {
    if k > 0 {
      ShadowedIsNeverStamped(passes, pk, k - 1);
    }
    StampedIffNotShadowed(passes[k], pk);
  }

  /** Hour after hour, two posts with one platform id are due together, the first never stamped. */
  function NamesakePass(k: nat): Pass {
    var now := k * HOUR;
    var first, second := Row("id", None, 0, 0), Row("id", if k == 0 then None else Some(now - HOUR), 0, k);
    Pass(map[0 := first, 1 := second], now, [0, 1], [Chunk([0, 1], Turn(now, Metrics({"id"}), now))])
  }

  lemma PostsOfOne(chunk: Chunk)
    ensures Posts([chunk]) == chunk.posts
  {
    assert [chunk][..0] == [] && Posts([]) == [];
    assert [] + chunk.posts == chunk.posts;
  }

  lemma TwoInOrder(p: Pass, x: nat, y: nat)
    requires x in p.before && y in p.before && x != y && p.due == [x, y] && Posts(p.chunks) == [x, y]
    requires p.before[x].attemptedAt.None? && NoLater(p.before[y].attemptedAt, Some(p.now - HOUR))
    requires forall c | 0 <= c < |p.chunks| :: p.chunks[c].turn.stampedAt >= p.now
    ensures FairPass(p)
  {
    forall i, j | 0 <= i < j < |p.due|
      ensures p.due[i] == x && p.due[j] == y
    {
    }
  }

  lemma NamesakeIsReached(k: nat)
    ensures var p := NamesakePass(k); Posts(p.chunks) == [0, 1] && Known(p.before, [0, 1]) && FairPass(p)
  {
    var p := NamesakePass(k);
    PostsOfOne(p.chunks[0]);
    TwoInOrder(p, 0, 1);
  }

  lemma NamesakeIsShadowed(k: nat)
    ensures Known(NamesakePass(k).before, Posts(NamesakePass(k).chunks)) && Shadowed(NamesakePass(k), 0)
  {
    var p := NamesakePass(k);
    NamesakeIsReached(k);
    assert p.before[[0, 1][1]].platformId == p.before[[0, 1][0]].platformId;
    assert !LastUnderItsId(p.before, [0, 1], 0);
  }

  lemma NamesakesGoOn(k: nat)
    ensures var p := NamesakePass(k);
      Known(p.before, Posts(p.chunks)) && AfterChunks(p.before, p.chunks) == NamesakePass(k + 1).before
  {
    var p := NamesakePass(k);
    NamesakeIsReached(k);
    NamesakeIsShadowed(k);
    StampedIffNotShadowed(p, 0);
    assert LastUnderItsId(p.before, p.chunks[0].posts, 1);
    EachPostIsStampedOnce(p.before, p.chunks, 0, 1);
  }

  /** A pass that completes a chunk of a due post, never attempted, without stamping it. */
  ghost predicate Starves(p: Pass, pk: nat) {
    && FairPass(p) && Known(p.before, Posts(p.chunks))
    && pk in p.due && pk in Posts(p.chunks) && p.before[pk].attemptedAt.None? && Shadowed(p, pk)
  }

  lemma NamesakeStarves(k: nat)
    ensures Starves(NamesakePass(k), 0)
  {
    NamesakeIsReached(k);
    NamesakeIsShadowed(k);
  }

  /** Such passes do happen: any number of fair passes in a row, each of them completing the chunk
      of the due post without stamping it. */
  lemma {:induction false} AnyNumberOfPassesCanStarve(n: nat) returns (passes: seq<Pass>)
    ensures |passes| == n && Passes(passes)
    ensures forall k | 0 <= k < n :: Starves(passes[k], 0)
    ensures n > 0 ==> passes[n - 1] == NamesakePass(n - 1)
  {
    passes := [];
    if n > 0 {
      var earlier := AnyNumberOfPassesCanStarve(n - 1);
      var last := NamesakePass(n - 1);
      NamesakeStarves(n - 1);
      if n > 1 {
        NamesakesGoOn(n - 2);
      }
      passes := earlier + [last];
      OneMorePass(earlier, last, 0);
    }
  }

  lemma OneMorePass(earlier: seq<Pass>, last: Pass, pk: nat)
    requires Passes(earlier) && Starves(last, pk) && forall k | 0 <= k < |earlier| :: Starves(earlier[k], pk)
    requires earlier != [] ==> last.before == AfterChunks(earlier[|earlier| - 1].before, earlier[|earlier| - 1].chunks)
    ensures Passes(earlier + [last]) && forall k | 0 <= k <= |earlier| :: Starves((earlier + [last])[k], pk)
  {
    AllStarve(earlier, last, pk);
    var passes := earlier + [last];
    forall k | 0 <= k < |passes|
      ensures FairPass(passes[k]) && Known(passes[k].before, Posts(passes[k].chunks))
    {
      assert Starves(passes[k], pk);
    }
    forall k | 0 < k < |passes|
      ensures passes[k].before == AfterChunks(passes[k - 1].before, passes[k - 1].chunks)
    {
      assert passes[k - 1] == earlier[k - 1];
      if k < |earlier| {
        assert passes[k] == earlier[k];
      } else {
        assert passes[k] == last;
      }
    }
  }

  lemma AllStarve(earlier: seq<Pass>, last: Pass, pk: nat)
    requires Starves(last, pk) && forall k | 0 <= k < |earlier| :: Starves(earlier[k], pk)
    ensures forall k | 0 <= k <= |earlier| :: Starves((earlier + [last])[k], pk)
  {
  }

  /* ---- What a pass records, field by field ---- */

  /** Main result 6. Of a post that stands for its platform id in a completed chunk: the attempt is
      stamped; if the platform returned the id, the failures are cleared and one snapshot is
      written; if it did not, or the chunk failed, there is one failure more and no snapshot. */
  lemma WhatAPassRecords(rows: Table, chunks: seq<Chunk>, c: nat, i: nat)
    requires Known(rows, Posts(chunks)) && NoRepeats(Posts(chunks))
    requires c < |chunks| && i < |chunks[c].posts| && Known(rows, chunks[c].posts)
    requires forall j | i < j < |chunks[c].posts| ::
      rows[chunks[c].posts[j]].platformId != rows[chunks[c].posts[i]].platformId
    ensures var pk, turn := chunks[c].posts[i], chunks[c].turn;
      var before, after := rows[pk], AfterChunks(rows, chunks)[pk];
      && after.platformId == before.platformId && after.attemptedAt == Some(turn.stampedAt)
      && (turn.answer.Metrics? && before.platformId in turn.answer.ids ==>
          after.failures == 0 && after.snapshots == before.snapshots + 1)
      && (!turn.answer.Metrics? || before.platformId !in turn.answer.ids ==>
          after.failures == before.failures + 1 && after.snapshots == before.snapshots)
  {
    EachPostIsStampedOnce(rows, chunks, c, i);
  }

  /* ---- Which posts make up a chunk, and when it was begun ---- */

  function MinOf(a: nat, b: nat): nat { if a < b then a else b }

  /** Chunk c holds the posts from c * size on, `size` of them or as many as there are. */
  lemma {:induction false} ChunksAreSlices(due: seq<nat>, size: nat, turns: seq<Turn>, chunks: seq<Chunk>, c: nat)
    requires Completed(due, size, turns, chunks) && c < |chunks| && size > 0
    ensures c * size < |due| && MinOf(c * size + size, |due|) <= |due|
    ensures chunks[c].posts == due[c * size..MinOf(c * size + size, |due|)] && chunks[c].turn == turns[c]
  {
    var init := chunks[..|chunks| - 1];
    if c < |init| {
      ChunksAreSlices(due, size, turns, init, c);
    } else {
      PostsOfFullChunks(due, size, turns, init);
    }
  }

  lemma {:induction false} PostsOfFullChunks(due: seq<nat>, size: nat, turns: seq<Turn>, chunks: seq<Chunk>)
    requires Completed(due, size, turns, chunks) && size > 0
    ensures |Posts(chunks)| == MinOf(|chunks| * size, |due|)
  {
    if chunks != [] {
      var init := chunks[..|chunks| - 1];
      PostsOfFullChunks(due, size, turns, init);
      OneChunkMore(|init|, size);
    }
  }

  lemma OneChunkMore(n: nat, size: nat)
    ensures (n + 1) * size == n * size + size
  {
  }

  /** No chunk is begun at or after the deadline, and a pass that stops for it had reached it. */
  lemma {:induction false} DeadlineIsKept(outcome: Outcome, due: seq<nat>, turns: seq<Turn>, deadline: int,
                                          chunks: seq<Chunk>, calls: nat, c: nat)
    requires InTime(chunks, Some(deadline)) && StopsRightly(outcome, due, turns, Some(deadline), chunks, calls)
    ensures c < |chunks| ==> chunks[c].turn.checkedAt < deadline
    ensures outcome == OutOfTime ==> |chunks| < |turns| && turns[|chunks|].checkedAt >= deadline
  {
    if c < |chunks| {
      InTimeAt(chunks, deadline, c);
    }
  }

  lemma {:induction false} InTimeAt(chunks: seq<Chunk>, deadline: int, c: nat)
    requires InTime(chunks, Some(deadline)) && c < |chunks|
    ensures chunks[c].turn.checkedAt < deadline
  {
    if c < |chunks| - 1 {
      InTimeAt(chunks[..|chunks| - 1], deadline, c);
    }
  }
}
