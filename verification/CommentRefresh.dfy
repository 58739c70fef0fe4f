/** Refreshing comments by id in batches (providers/youtube.py, get_comments_by_id).

    One missing id can fail a whole batch with a 404, so a failed batch is split in two and each
    half asked again. The server is assumed to answer 404 to exactly the batches that hold a
    poisoned id. */
module CommentRefresh {
  import opened Wrappers

  const CHUNK := 50

  datatype Server = Server(comments: map<string, string>, poisoned: set<string>)

  /** What a batch of ids is answered with; None is the 404. */
  function Ask(server: Server, ids: seq<string>): Option<map<string, string>> {
    if exists i | 0 <= i < |ids| :: ids[i] in server.poisoned then None
    else Some(map id | id in ids && id in server.comments :: server.comments[id])
  }

  /** What the caller should get: every id that exists and is not poisoned. */
  function Expected(server: Server, ids: seq<string>): map<string, string> {
    map id | id in ids && id in server.comments && id !in server.poisoned :: server.comments[id]
  }

  function Poisoned(server: Server, ids: seq<string>): nat {
    if ids == [] then 0
    else (if ids[0] in server.poisoned then 1 else 0) + Poisoned(server, ids[1..])
  }

  function CeilLog2(n: nat): nat {
    if n <= 1 then 0 else 1 + CeilLog2((n + 1) / 2)
  }

  /** The levels that k descents of the same height go down together. */
  function Levels(k: nat, height: nat): nat {
    if k == 0 then 0 else Levels(k - 1, height) + height
  }

  /** The requests one chunk of n ids with k poisoned ones may cost: two for every level on the
      way down to each of them. */
  function ChunkBound(n: nat, k: nat): nat {
    1 + 2 * Levels(k, CeilLog2(n))
  }

  lemma {:induction false} LevelsAreProduct(k: nat, height: nat)
    ensures Levels(k, height) == k * height
  {
    if k > 0 {
      LevelsAreProduct(k - 1, height);
      assert k * height == (k - 1) * height + height;
    }
  }

  lemma ChunkBoundIs(n: nat, k: nat)
    ensures ChunkBound(n, k) == 1 + 2 * (k * CeilLog2(n))
  {
    LevelsAreProduct(k, CeilLog2(n));
  }

  function ChunkEnd(offset: nat, n: nat): nat {
    if offset + CHUNK <= n then offset + CHUNK else n
  }

  /** The requests that the ids from `offset` on may cost. */
  function BoundFrom(server: Server, ids: seq<string>, offset: nat): nat
    decreases |ids| - offset
  {
    if offset >= |ids| then 0
    else
      var end := ChunkEnd(offset, |ids|);
      ChunkBound(end - offset, Poisoned(server, ids[offset..end])) + BoundFrom(server, ids, end)
  }

  function Bound(server: Server, ids: seq<string>): nat {
    BoundFrom(server, ids, 0)
  }

  /** `get_comments_by_id`. Request number `failAt` of the whole call fails with another error,
      which is raised; `first` requests were made before this call. */
  method GetCommentsById(server: Server, ids: seq<string>, failAt: Option<nat>, first: nat)
    returns (result: Option<map<string, string>>, requests: nat)
    ensures requests <= Bound(server, ids)
    ensures result.Some? ==> result.value == Expected(server, ids)
    ensures result.Some? && failAt.Some? ==> failAt.value < first || first + requests <= failAt.value
    ensures result.None? ==> requests > 0 && failAt == Some(first + requests - 1)
    decreases |ids|, 1
  {
    var found: map<string, string> := map[];
    var offset := 0;
    requests := 0;
    while offset < |ids|
      invariant 0 <= offset <= |ids|
      invariant found == Expected(server, ids[..offset])
      invariant requests + BoundFrom(server, ids, offset) <= Bound(server, ids)
      invariant failAt.Some? ==> failAt.value < first || first + requests <= failAt.value
      decreases |ids| - offset
    {
      var end := ChunkEnd(offset, |ids|);
      var chunk := ids[offset..end];
      var items, n := FetchChunk(server, chunk, failAt, first + requests);
      requests := requests + n;
      NextChunk(server, ids, offset, end);
      if items.None? {
        return None, requests;
      }
      found := found + items.value;
      offset := end;
    }
    assert ids[..offset] == ids;
    result := Some(found);
  }

  /** One pass of its loop: a request for the chunk, and on a 404 one call for each half. */
  method FetchChunk(server: Server, chunk: seq<string>, failAt: Option<nat>, first: nat)
    returns (result: Option<map<string, string>>, requests: nat)
    requires 0 < |chunk| <= CHUNK
    ensures requests <= ChunkBound(|chunk|, Poisoned(server, chunk))
    ensures result.Some? ==> result.value == Expected(server, chunk)
    ensures result.Some? && failAt.Some? ==> failAt.value < first || first + requests <= failAt.value
    ensures result.None? ==> requests > 0 && failAt == Some(first + requests - 1)
    decreases |chunk|, 0
  {
    requests := 1;
    if failAt == Some(first) {
      return None, requests;
    }
    PoisonIsCounted(server, chunk);
    var answer := Ask(server, chunk);
    if answer.Some? {
      return answer, requests;
    }
    if |chunk| == 1 {
      return Some(map[]), requests;
    }
    var split := |chunk| / 2;
    SplitFits(server, chunk, split);
    var left, n := GetCommentsById(server, chunk[..split], failAt, first + requests);
    requests := requests + n;
    if left.None? {
      return None, requests;
    }
    var right, m := GetCommentsById(server, chunk[split..], failAt, first + requests);
    requests := requests + m;
    if right.None? {
      return None, requests;
    }
    ExpectedOfParts(server, chunk[..split], chunk[split..]);
    assert chunk[..split] + chunk[split..] == chunk;
    result := Some(left.value + right.value);
  }

  lemma NextChunk(server: Server, ids: seq<string>, offset: nat, end: nat)
    requires offset <= end <= |ids|
    ensures Expected(server, ids[..end]) == Expected(server, ids[..offset]) + Expected(server, ids[offset..end])
  {
    assert ids[..end] == ids[..offset] + ids[offset..end];
    ExpectedOfParts(server, ids[..offset], ids[offset..end]);
  }

  lemma ExpectedOfParts(server: Server, a: seq<string>, b: seq<string>)
    ensures Expected(server, a + b) == Expected(server, a) + Expected(server, b)
  {
  }

  lemma {:induction false} PoisonIsCounted(server: Server, ids: seq<string>)
    ensures Poisoned(server, ids) > 0 <==> exists i | 0 <= i < |ids| :: ids[i] in server.poisoned
  {
    if ids != [] {
      PoisonIsCounted(server, ids[1..]);
      assert forall i | 0 < i < |ids| :: ids[i] == ids[1..][i - 1];
    }
  }

  lemma {:induction false} PoisonAddsUp(server: Server, a: seq<string>, b: seq<string>)
    ensures Poisoned(server, a + b) == Poisoned(server, a) + Poisoned(server, b)
  {
    if a == [] {
      assert a + b == b;
    } else {
      assert (a + b)[1..] == a[1..] + b;
      PoisonAddsUp(server, a[1..], b);
    }
  }

  lemma {:induction false} LogGrows(n: nat, m: nat)
    requires n <= m
    ensures CeilLog2(n) <= CeilLog2(m)
    decreases m
  {
    if n > 1 { LogGrows((n + 1) / 2, (m + 1) / 2); }
  }

  /** Splitting a poisoned batch stays within its bound: each half is one level down. */
  lemma SplitFits(server: Server, chunk: seq<string>, split: nat)
    requires 1 < |chunk| <= CHUNK && split == |chunk| / 2 && Poisoned(server, chunk) > 0
    ensures 1 + Bound(server, chunk[..split]) + Bound(server, chunk[split..])
      <= ChunkBound(|chunk|, Poisoned(server, chunk))
  {
    var left, right := chunk[..split], chunk[split..];
    assert chunk == left + right;
    PoisonAddsUp(server, left, right);
    OneChunk(server, left);
    OneChunk(server, right);
    OneLevelDown(|chunk|);
    assert |left| == |chunk| / 2 && |right| == (|chunk| + 1) / 2;
    HalvesFit(Poisoned(server, left), Poisoned(server, right), CeilLog2(|left|), CeilLog2(|right|));
  }

  lemma OneLevelDown(n: nat)
    requires n > 1
    ensures CeilLog2(n / 2) <= CeilLog2((n + 1) / 2) == CeilLog2(n) - 1
  {
    LogGrows(n / 2, (n + 1) / 2);
  }

  lemma OneChunk(server: Server, ids: seq<string>)
    requires 0 < |ids| <= CHUNK
    ensures Bound(server, ids) == 1 + 2 * Levels(Poisoned(server, ids), CeilLog2(|ids|))
  {
    assert ids[0..|ids|] == ids;
    assert BoundFrom(server, ids, |ids|) == 0;
  }

  lemma HalvesFit(k1: nat, k2: nat, log1: nat, log2: nat)
    requires k1 + k2 > 0 && log1 <= log2
    ensures 2 + 2 * Levels(k1, log1) + 2 * Levels(k2, log2) <= 2 * Levels(k1 + k2, log2 + 1)
  {
    LevelsGrow(k1, log1, log2);
    LevelsAddUp(k1, k2, log2);
    OneLevelMore(k1 + k2, log2);
  }

  lemma {:induction false} LevelsGrow(k: nat, a: nat, b: nat)
    requires a <= b
    ensures Levels(k, a) <= Levels(k, b)
  {
    if k > 0 { LevelsGrow(k - 1, a, b); }
  }

  lemma {:induction false} LevelsAddUp(k1: nat, k2: nat, height: nat)
    ensures Levels(k1 + k2, height) == Levels(k1, height) + Levels(k2, height)
  {
    if k2 > 0 { LevelsAddUp(k1, k2 - 1, height); }
  }

  lemma {:induction false} OneLevelMore(k: nat, height: nat)
    ensures Levels(k, height + 1) == Levels(k, height) + k
  {
    if k > 0 { OneLevelMore(k - 1, height); }
  }

  /** Main result. Over a whole list: one request per chunk of fifty, plus at most twelve for
      every poisoned id. */
  lemma TotalBound(server: Server, ids: seq<string>)
    ensures Bound(server, ids) <= (|ids| + 49) / 50 + 12 * Poisoned(server, ids)
  {
    ChunksOfFifty(|ids|);
    TotalBoundFrom(server, ids, 0);
    assert ids[0..] == ids;
  }

  lemma {:induction false} TotalBoundFrom(server: Server, ids: seq<string>, offset: nat)
    requires offset <= |ids|
    ensures BoundFrom(server, ids, offset) <= Chunks(|ids| - offset) + 12 * Poisoned(server, ids[offset..])
    decreases |ids| - offset
  {
    if offset < |ids| {
      var end := ChunkEnd(offset, |ids|);
      TotalBoundFrom(server, ids, end);
      assert ids[offset..] == ids[offset..end] + ids[end..];
      PoisonAddsUp(server, ids[offset..end], ids[end..]);
      ChunkCostsTwelvePerPoison(end - offset, Poisoned(server, ids[offset..end]));
    }
  }

  function Chunks(n: nat): nat {
    if n == 0 then 0 else 1 + Chunks(if n <= CHUNK then 0 else n - CHUNK)
  }

  lemma {:induction false} ChunksOfFifty(n: nat)
    ensures Chunks(n) == (n + 49) / 50
  {
    if n > CHUNK {
      ChunksOfFifty(n - CHUNK);
    }
  }

  lemma ChunkCostsTwelvePerPoison(n: nat, k: nat)
    requires n <= CHUNK
    ensures ChunkBound(n, k) <= 1 + 12 * k
  {
    LogGrows(n, CHUNK);
    assert CeilLog2(CHUNK) == 6 by {
      assert CeilLog2(4) == 2;
      assert CeilLog2(13) == 4;
    }
    LevelsGrow(k, CeilLog2(n), 6);
    LevelsAreProduct(k, 6);
  }
}
