/** Publishing to Mastodon exactly once (providers/mastodon.py, providers/base.py).

    An attempt uploads (or reuses) the media, waits until the server has processed it, and posts
    the status under an Idempotency-Key that stands for the content. Any request may be lost
    before or after the server acted on it; the next attempt starts over. The server is assumed
    to answer a key it saw less than an hour ago with the status it already created. */
module MastodonPublish {
  import opened Wrappers

  const IDEMPOTENCY_TTL := 3600
  const MEDIA_POLL_INTERVAL := 5
  const MEDIA_PROCESSING_TIMEOUT := 120
  const MEDIA_PARAM := "media_ids[]"

  datatype Param = Text(values: seq<string>) | MediaIds(ids: seq<nat>)

  type Params = map<string, Param>

  /** Hashes are injective here: a digest is the content it was taken of. */
  datatype CacheKey = CacheKey(account: string, publishKey: string, position: nat, digest: string)

  datatype IdempotencyKey = IdempotencyKey(baseKey: string, authored: Params, digests: seq<string>)

  /** The fields an author sets; media ids are not among them. */
  type Fields = params: Params | MEDIA_PARAM !in params witness map[]

  /** A post: the engine's key for it ("" for none), the authored fields, one digest per file. */
  datatype Content = Content(publishKey: string, authored: Fields, digests: seq<string>)

  function UploadCacheKey(account: string, publishKey: string, position: nat, digest: string): Option<CacheKey> {
    if publishKey == "" then None else Some(CacheKey(account, publishKey, position, digest))
  }

  function IdempotencyHeader(baseKey: string, params: Params, digests: seq<string>): Option<IdempotencyKey> {
    if baseKey == "" then None else Some(IdempotencyKey(baseKey, params - {MEDIA_PARAM}, digests))
  }

  function StatusParams(content: Content, mediaIds: seq<nat>): Params {
    if mediaIds == [] then content.authored else content.authored[MEDIA_PARAM := MediaIds(mediaIds)]
  }

  /** The key of a post: what every attempt at it sends, whatever media ids it holds. */
  function KeyOf(content: Content): Option<IdempotencyKey> {
    IdempotencyHeader(content.publishKey, content.authored, content.digests)
  }

  lemma KeyIgnoresMediaIds(content: Content, mediaIds: seq<nat>)
    ensures IdempotencyHeader(content.publishKey, StatusParams(content, mediaIds), content.digests) == KeyOf(content)
  {
    assert StatusParams(content, mediaIds) - {MEDIA_PARAM} == content.authored - {MEDIA_PARAM};
  }

  /* ---- The server ---- */

  /** A status shows what it was created with. */
  datatype Status = Status(key: Option<IdempotencyKey>, params: Params, at: int) {
    function Media(): seq<nat> {
      if MEDIA_PARAM in params && params[MEDIA_PARAM].MediaIds? then params[MEDIA_PARAM].ids else []
    }
  }

  datatype Server = Server(uploads: nat, statuses: seq<Status>)

  predicate Remembers(status: Status, key: Option<IdempotencyKey>, now: int) {
    key.Some? && status.key == key && now < status.at + IDEMPOTENCY_TTL
  }

  function Find(statuses: seq<Status>, key: Option<IdempotencyKey>, now: int): (found: Option<nat>)
    ensures found.Some? ==> found.value < |statuses| && Remembers(statuses[found.value], key, now)
    ensures found.None? ==> forall i | 0 <= i < |statuses| :: !Remembers(statuses[i], key, now)
  {
    if statuses == [] then None
    else if Remembers(statuses[|statuses| - 1], key, now) then Some(|statuses| - 1)
    else Find(statuses[..|statuses| - 1], key, now)
  }

  /** What a POST that reaches the server does, and the id it answers with. */
  function PostStatus(server: Server, key: Option<IdempotencyKey>, params: Params, now: int): (r: (Server, nat)) {
    match Find(server.statuses, key, now)
    case Some(id) => (server, id)
    case None => (server.(statuses := server.statuses + [Status(key, params, now)]), |server.statuses|)
  }

  /* ---- The network ---- */

  datatype Reply = Ok(ready: bool) | NotReady | Refused(code: nat) | LostBefore | LostAfter {
    predicate ReachedServer() { Ok? || LostAfter? }
  }

  /** One request: whether the worker was told to stop before it, its fate, and how long it took. */
  datatype Turn = Turn(stop: bool, reply: Reply, took: nat)

  /** What a request is for: an upload that will get this id, the state of one, or a status. */
  datatype Purpose = Uploading(id: nat) | Asking(id: nat) | Posting

  /** The answers after which a medium is not waited for: processed, or 404 and the like for media
      that are attached already or cannot be asked about. */
  predicate Settles(reply: Reply) {
    reply == Ok(true) || reply in {Refused(404), Refused(405), Refused(410), Refused(501)}
  }

  /** The medium the server has reported on with this reply. */
  function NowSettled(purpose: Purpose, reply: Reply): set<nat> {
    match purpose
    case Uploading(id) => if reply == Ok(true) then {id} else {}
    case Asking(id) => if Settles(reply) then {id} else {}
    case Posting => {}
  }

  /** The turn the next request meets: a dead line once the script is used up. */
  function NextTurn(script: seq<Turn>): Turn {
    if script == [] then Turn(false, LostBefore, 0) else script[0]
  }

  function Rest(script: seq<Turn>): seq<Turn> {
    if script == [] then [] else script[1..]
  }

  /** Nobody is told to stop, and every response arrives and is a success. */
  predicate Undisturbed(script: seq<Turn>) {
    forall k | 0 <= k < |script| :: !script[k].stop && script[k].reply.Ok?
  }

  datatype MediaState = Ready | Processing | Unknown | MediaFailed | Error

  datatype Outcome = Published(id: nat) | Failed

  /* ---- The state an attempt works on ---- */

  /** `owners` records what each upload was made for, `settled` which media the server has
      reported as no longer processing. Neither is known to the code. */
  datatype World = World(
    server: Server, cache: map<CacheKey, nat>, owners: seq<Option<CacheKey>>, settled: set<nat>, now: int)

  predicate SoundCache(w: World) {
    && |w.owners| == w.server.uploads
    && forall key | key in w.cache :: w.cache[key] < |w.owners| && w.owners[w.cache[key]] == Some(key)
  }

  /** A status holds one upload per file, made for that very position of that very post. */
  predicate SoundStatus(account: string, w: World, status: Status) {
    && (forall p | 0 <= p < |status.Media()| :: status.Media()[p] < |w.owners| && status.Media()[p] in w.settled)
    && (status.key.Some? ==>
        && status.params - {MEDIA_PARAM} == status.key.value.authored
        && |status.Media()| == |status.key.value.digests|
        && forall p | 0 <= p < |status.Media()| ::
             w.owners[status.Media()[p]]
             == UploadCacheKey(account, status.key.value.baseKey, p, status.key.value.digests[p]))
  }

  predicate Sound(account: string, w: World) {
    && SoundCache(w)
    && forall i | 0 <= i < |w.server.statuses| :: SoundStatus(account, w, w.server.statuses[i])
  }

  predicate Grows(before: World, after: World) {
    && before.owners <= after.owners && before.settled <= after.settled && before.now <= after.now
  }

  /** The media an attempt has in hand for the first files of its post. */
  predicate Holds(account: string, w: World, content: Content, media: seq<nat>) {
    && |media| <= |content.digests|
    && forall p | 0 <= p < |media| ::
         && media[p] < |w.owners|
         && w.owners[media[p]] == UploadCacheKey(account, content.publishKey, p, content.digests[p])
  }

  /** What one attempt may do to the world, and what its answer means. */
  ghost predicate AttemptContract(account: string, before: World, content: Content, after: World, outcome: Outcome) {
    && Grows(before, after)
    && (Sound(account, before) ==> Sound(account, after))
    && Posted(before.server.statuses, KeyOf(content), before.now, after.now, after.server.statuses, outcome)
  }

  /** An attempt that ran in [from, until] posted its status at most once: it never reached the
      server, or it did at one moment. */
  ghost predicate Posted(before: seq<Status>, key: Option<IdempotencyKey>, from: int, until: int,
                         after: seq<Status>, outcome: Outcome) {
    || (after == before && outcome == Failed)
    || exists params, at :: from <= at <= until && Reached(before, key, params, at, after, outcome)
  }

  /** A status POST that reached the server at `at`, its response seen or lost. */
  predicate Reached(before: seq<Status>, key: Option<IdempotencyKey>, params: Params, at: int,
                    after: seq<Status>, outcome: Outcome) {
    match Find(before, key, at)
    case Some(id) => after == before && (outcome == Failed || outcome == Published(id))
    case None =>
      after == before + [Status(key, params, at)] && (outcome == Failed || outcome == Published(|before|))
  }

  class MastodonPublisher {
    const account: string
    var server: Server
    var cache: map<CacheKey, nat>
    var now: int
    var script: seq<Turn>
    ghost var owners: seq<Option<CacheKey>>
    ghost var settled: set<nat>

    ghost function State(): World
      reads this
    {
      World(server, cache, owners, settled, now)
    }

    constructor (account: string, start: World, script: seq<Turn>)
      ensures this.account == account && State() == start && this.script == script
    {
      this.account := account;
      server, cache, now, owners, settled := start.server, start.cache, start.now, start.owners, start.settled;
      this.script := script;
    }

    /** One request goes out and meets the next turn of the script. */
    method Request(ghost purpose: Purpose) returns (turn: Turn)
      modifies this`script, this`now, this`settled
      ensures turn == NextTurn(old(script)) && script == Rest(old(script)) && now == old(now) + turn.took
      ensures settled == old(settled) + NowSettled(purpose, turn.reply)
    {
      turn := Turn(false, LostBefore, 0);
      if script != [] {
        turn, script := script[0], script[1..];
      }
      now := now + turn.took;
      settled := settled + NowSettled(purpose, turn.reply);
    }

    /** `_upload_media`, then remembering the upload under its cache key: 200 means processed. */
    method Upload(key: Option<CacheKey>) returns (r: Option<(nat, bool)>)
      requires SoundCache(State())
      modifies this
      ensures SoundCache(State()) && Grows(old(State()), State()) && server.statuses == old(server.statuses)
      ensures var reply := NextTurn(old(script)).reply;
        && r == (if reply.Ok? then Some((old(server.uploads), reply.ready)) else None)
        && server.uploads == old(server.uploads) + (if reply.Ok? || reply.LostAfter? then 1 else 0)
        && cache == (if reply.Ok? && key.Some? then old(cache)[key.value := old(server.uploads)] else old(cache))
      ensures r.Some? ==> r.value.0 < |owners| && owners[r.value.0] == key && (r.value.1 ==> r.value.0 in settled)
      ensures script == Rest(old(script))
    {
      var turn := Request(Uploading(server.uploads));
      if turn.reply.ReachedServer() {
        server := server.(uploads := server.uploads + 1);
        owners := owners + [key];
      }
      if !turn.reply.Ok? {
        return None;
      }
      var id := server.uploads - 1;
      if key.Some? {
        cache := cache[key.value := id];
      }
      return Some((id, turn.reply.ready));
    }

    /** `_media_state`: what each answer of the media endpoint means. */
    method AskMediaState(id: nat) returns (state: MediaState)
      modifies this`script, this`now, this`settled
      ensures script == Rest(old(script)) && now >= old(now)
      ensures settled == old(settled) + NowSettled(Asking(id), NextTurn(old(script)).reply)
      ensures var reply := NextTurn(old(script)).reply;
        && (state.Ready? <==> reply == Ok(true))
        && (state.Processing? <==> reply == Ok(false))
        && (state.MediaFailed? <==> reply == Refused(422))
        && (state.Unknown? <==>
            reply == Refused(404) || reply == Refused(405) || reply == Refused(410) || reply == Refused(501))
    {
      var turn := Request(Asking(id));
      match turn.reply {
        case Ok(ready) => state := if ready then Ready else Processing;
        case Refused(code) =>
          state := if code == 422 then MediaFailed else if code in {404, 405, 410, 501} then Unknown else Error;
        case _ => state := Error;
      }
    }

    /** `_reuse_or_upload`: a media id for one file and whether it is ready. A remembered upload is
        asked about first, and made again only when the server does not know it. */
    method ReuseOrUpload(key: Option<CacheKey>) returns (r: Option<(nat, bool)>)
      requires SoundCache(State())
      modifies this
      ensures SoundCache(State()) && Grows(old(State()), State()) && server.statuses == old(server.statuses)
      ensures r.Some? ==> r.value.0 < |owners| && owners[r.value.0] == key && (r.value.1 ==> r.value.0 in settled)
      ensures key.Some? && key.value in old(cache) ==>
        var reply, cached := NextTurn(old(script)).reply, old(cache)[key.value];
        && (reply.Ok? ==> r == Some((cached, reply.ready)) && script == Rest(old(script)))
        && (reply.Ok? || !Settles(reply) ==> server == old(server) && cache == old(cache))
        && (!reply.Ok? && !Settles(reply) ==> r == None)
        && (!reply.Ok? && Settles(reply) ==>
            var again := NextTurn(Rest(old(script))).reply;
            r == if again.Ok? then Some((old(server.uploads), again.ready)) else None)
      ensures key.None? || key.value !in old(cache) ==>
        var reply := NextTurn(old(script)).reply;
        && r == (if reply.Ok? then Some((old(server.uploads), reply.ready)) else None)
        && script == Rest(old(script))
      ensures Undisturbed(old(script)) ==> Undisturbed(script) && (r.Some? || script == [])
    {
      if key.Some? && key.value in cache {
        var cached := cache[key.value];
        var state := AskMediaState(cached);
        if state.MediaFailed? || state.Error? {
          return None;
        }
        if !state.Unknown? {
          return Some((cached, state.Ready?));
        }
      }
      r := Upload(key);
    }

    /** `_poll_until` over `_media_settled`: it asks as long as the answer is "processing", and ends
        well exactly when a settling answer comes before the stop, the deadline, and any other. */
    method WaitForMedia(id: nat, deadline: int) returns (ok: bool, ghost asked: nat)
      modifies this`script, this`now, this`settled
      ensures now >= old(now) && settled >= old(settled) && asked <= |old(script)|
      ensures forall k | 0 <= k < asked && (k + 1 < asked || !ok) ::
        !old(script)[k].stop && old(script)[k].reply == Ok(false)
      ensures ok ==>
        && 0 < asked && !old(script)[asked - 1].stop && Settles(old(script)[asked - 1].reply)
        && script == old(script)[asked..] && id in settled
      ensures !ok ==>
        || asked == |old(script)| || old(script)[asked].stop || (0 < asked && deadline <= now)
        || (old(script)[asked].reply != Ok(false) && !Settles(old(script)[asked].reply))
      ensures Undisturbed(old(script)) ==> Undisturbed(script) && (ok || script == [] || deadline <= now)
    {
      asked := 0;
      while true
        invariant now >= old(now) && settled >= old(settled)
        invariant asked <= |old(script)| && script == old(script)[asked..]
        invariant forall k | 0 <= k < asked :: !old(script)[k].stop && old(script)[k].reply == Ok(false)
        decreases deadline - now
      {
        if script != [] && script[0].stop {
          return false, asked;
        }
        var state := AskMediaState(id);
        if state.MediaFailed? || state.Error? {
          return false, asked;
        }
        asked := asked + 1;
        if !state.Processing? {
          return true, asked;
        }
        if now >= deadline {
          return false, asked;
        }
        now := now + MEDIA_POLL_INTERVAL;
      }
    }

    /** `_create_status`: repeats only on the 422 that is raised before anything is written. */
    method CreateStatus(key: Option<IdempotencyKey>, params: Params, deadline: int)
      returns (outcome: Outcome, ghost posted: nat)
      modifies this`server, this`script, this`now, this`settled
      ensures now >= old(now) && server.uploads == old(server.uploads) && settled == old(settled)
      ensures (server.statuses == old(server.statuses) && outcome == Failed)
        || exists at | old(now) <= at <= now :: Reached(old(server.statuses), key, params, at, server.statuses, outcome)
      ensures posted <= |old(script)|
      ensures forall k | 0 <= k < posted && (k + 1 < posted || outcome.Failed?) ::
        !old(script)[k].stop && old(script)[k].reply.NotReady?
      ensures outcome.Published? ==>
        0 < posted && !old(script)[posted - 1].stop && old(script)[posted - 1].reply.Ok?
      ensures outcome.Failed? ==>
        || posted == |old(script)| || old(script)[posted].stop || (0 < posted && deadline <= now)
        || !(old(script)[posted].reply.NotReady? || old(script)[posted].reply.Ok?)
      ensures Undisturbed(old(script)) ==> outcome.Published? || script == []
    {
      posted := 0;
      while true
        invariant now >= old(now) && server == old(server) && settled == old(settled)
        invariant posted <= |old(script)| && script == old(script)[posted..]
        invariant forall k | 0 <= k < posted :: !old(script)[k].stop && old(script)[k].reply.NotReady?
        decreases deadline - now
      {
        if script != [] && script[0].stop {
          return Failed, posted;
        }
        var turn := Request(Posting);
        if turn.reply.ReachedServer() {
          var (after, id) := PostStatus(server, key, params, now);
          outcome := if turn.reply.Ok? then Published(id) else Failed;
          assert Reached(server.statuses, key, params, now, after.statuses, outcome);
          server := after;
          posted := if turn.reply.Ok? then posted + 1 else posted;
          return;
        }
        if !turn.reply.NotReady? {
          return Failed, posted;
        }
        posted := posted + 1;
        if now >= deadline {
          return Failed, posted;
        }
        now := now + MEDIA_POLL_INTERVAL;
      }
    }

    ghost predicate Smooth(script: seq<Turn>, requests: nat) {
      |script| >= requests && forall k | 0 <= k < requests :: script[k] == Turn(false, Ok(true), 0)
    }

    /** The first loop of `publish_post`: a media id per file, and those still processing. */
    method UploadAll(content: Content) returns (ok: bool, mediaIds: seq<nat>, processing: seq<nat>)
      requires SoundCache(State())
      modifies this
      ensures SoundCache(State()) && Grows(old(State()), State()) && server.statuses == old(server.statuses)
      ensures ok ==> |mediaIds| == |content.digests| && Holds(account, State(), content, mediaIds)
      ensures forall k | 0 <= k < |mediaIds| :: mediaIds[k] in settled || mediaIds[k] in processing
      ensures ok ==> forall id | id in processing :: id in mediaIds
      ensures Smooth(old(script), |content.digests|) ==>
        ok && processing == [] && script == old(script)[|content.digests|..]
      ensures Undisturbed(old(script)) ==> Undisturbed(script) && (ok || script == [])
    {
      ok, mediaIds, processing := true, [], [];
      for p := 0 to |content.digests|
        invariant ok && SoundCache(State()) && Grows(old(State()), State()) && server.statuses == old(server.statuses)
        invariant |mediaIds| == p && Holds(account, State(), content, mediaIds)
        invariant forall k | 0 <= k < p :: mediaIds[k] in settled || mediaIds[k] in processing
        invariant forall id | id in processing :: id in mediaIds
        invariant Smooth(old(script), |content.digests|) ==> processing == [] && script == old(script)[p..]
        invariant Undisturbed(old(script)) ==> Undisturbed(script)
      {
        var r := ReuseOrUpload(UploadCacheKey(account, content.publishKey, p, content.digests[p]));
        if r.None? {
          ok := false;
          return;
        }
        mediaIds := mediaIds + [r.value.0];
        if !r.value.1 {
          processing := processing + [r.value.0];
        }
      }
    }

    /** The second loop: wait for each of them, on one shared deadline. */
    method WaitForAll(processing: seq<nat>, deadline: int) returns (ok: bool)
      modifies this`script, this`now, this`settled
      ensures now >= old(now) && settled >= old(settled)
      ensures ok ==> forall id | id in processing :: id in settled
      ensures processing == [] ==> ok && script == old(script)
      ensures Undisturbed(old(script)) ==> Undisturbed(script) && (ok || script == [] || deadline <= now)
    {
      ok := true;
      for i := 0 to |processing|
        invariant ok && now >= old(now) && settled >= old(settled)
        invariant forall k | 0 <= k < i :: processing[k] in settled
        invariant i == 0 ==> script == old(script)
        invariant Undisturbed(old(script)) ==> Undisturbed(script)
      {
        ghost var asked;
        ok, asked := WaitForMedia(processing[i], deadline);
        if !ok {
          return;
        }
      }
    }

    /** `publish_post`. */
    method PublishPost(content: Content) returns (outcome: Outcome)
      requires SoundCache(State())
      modifies this
      ensures SoundCache(State())
      ensures AttemptContract(account, old(State()), content, State(), outcome)
      ensures Smooth(old(script), |content.digests| + 1) ==> outcome.Published?
      ensures Undisturbed(old(script)) ==> outcome.Published? || script == [] || old(now) + 120 <= now
    {
      var ok, mediaIds, processing := UploadAll(content);
      var deadline := now + MEDIA_PROCESSING_TIMEOUT;
      if ok {
        ok := WaitForAll(processing, deadline);
      }
      if !ok {
        SoundnessIsKept(account, old(State()), State());
        return Failed;
      }
      var params := StatusParams(content, mediaIds);
      KeyIgnoresMediaIds(content, mediaIds);
      ghost var ready := State();
      assert Smooth(old(script), |content.digests| + 1) ==> script[0] == Turn(false, Ok(true), 0) by {
        assert Smooth(old(script), |content.digests| + 1) ==> script[0] == old(script)[|content.digests|];
      }
      ghost var posted;
      var key := IdempotencyHeader(content.publishKey, params, content.digests);
      outcome, posted := CreateStatus(key, params, deadline);
      AttemptKeepsSound(account, old(State()), ready, content, mediaIds, State(), outcome);
    }
  }

  /* ---- What every attempt keeps ---- */

  lemma SoundnessIsKept(account: string, before: World, after: World)
    requires Grows(before, after) && SoundCache(after) && after.server.statuses == before.server.statuses
    ensures Sound(account, before) ==> Sound(account, after)
  {
    if Sound(account, before) {
      forall i | 0 <= i < |after.server.statuses|
        ensures SoundStatus(account, after, after.server.statuses[i])
      {
        assert SoundStatus(account, before, before.server.statuses[i]);
      }
    }
  }

  lemma AttemptKeepsSound(account: string, before: World, ready: World, content: Content, media: seq<nat>, after: World,
                          outcome: Outcome)
    requires Grows(before, ready) && SoundCache(ready) && ready.server.statuses == before.server.statuses
    requires after == ready.(server := after.server, now := after.now) && after.server.uploads == ready.server.uploads
    requires (after.server.statuses == before.server.statuses && outcome == Failed)
      || exists at ::
           Reached(before.server.statuses, KeyOf(content), StatusParams(content, media), at, after.server.statuses,
                   outcome)
    requires |media| == |content.digests| && Holds(account, ready, content, media)
    requires forall k | 0 <= k < |media| :: media[k] in ready.settled
    ensures Sound(account, before) ==> Sound(account, after)
  {
    if Sound(account, before) {
      SoundnessIsKept(account, before, ready);
      forall i | 0 <= i < |after.server.statuses|
        ensures SoundStatus(account, after, after.server.statuses[i])
      {
        if i < |before.server.statuses| {
          assert SoundStatus(account, ready, ready.server.statuses[i]);
        }
      }
    }
  }

  /* ---- Runs: any attempts, at any posts, one after the other ---- */

  datatype Attempt = Attempt(before: World, content: Content, after: World, outcome: Outcome)

  /** Between two attempts time passes, and the cache may forget anything. */
  predicate Follows(w: World, next: World) {
    && next.server == w.server && next.owners == w.owners && next.settled == w.settled && w.now <= next.now
    && forall key | key in next.cache :: key in w.cache && next.cache[key] == w.cache[key]
  }

  ghost predicate IsRun(account: string, run: seq<Attempt>) {
    && (forall i | 0 <= i < |run| ::
          AttemptContract(account, run[i].before, run[i].content, run[i].after, run[i].outcome))
    && (forall i | 0 < i < |run| :: Follows(run[i - 1].after, run[i].before))
  }

  lemma {:induction false} RunMovesOn(account: string, run: seq<Attempt>, n: nat, m: nat)
    requires IsRun(account, run) && n <= m < |run|
    ensures run[n].before.server.statuses <= run[m].before.server.statuses <= run[m].after.server.statuses
    ensures n < m ==> run[n].after.server.statuses <= run[m].before.server.statuses
    ensures run[n].before.now <= run[m].before.now && run[n].after.now <= run[m].after.now
    ensures run[m].before.now <= run[m].after.now
  {
    assert AttemptContract(account, run[m].before, run[m].content, run[m].after, run[m].outcome);
    if n < m {
      RunMovesOn(account, run, n, m - 1);
      assert Follows(run[m - 1].after, run[m].before);
    }
  }

  lemma {:induction false} RunKeepsSound(account: string, run: seq<Attempt>, n: nat)
    requires IsRun(account, run) && n < |run| && Sound(account, run[0].before)
    ensures Sound(account, run[n].before) && Sound(account, run[n].after)
  {
    assert AttemptContract(account, run[n].before, run[n].content, run[n].after, run[n].outcome);
    if n > 0 {
      RunKeepsSound(account, run, n - 1);
      var w, next := run[n - 1].after, run[n].before;
      assert Follows(w, next);
      forall i | 0 <= i < |next.server.statuses|
        ensures SoundStatus(account, next, next.server.statuses[i])
      {
        assert SoundStatus(account, w, w.server.statuses[i]);
      }
    }
  }

  /* ---- One status within the hour ---- */

  /** Among the statuses from number `first` on, at most one has this key, and it is no older
      than `since`. */
  predicate OneSince(statuses: seq<Status>, first: nat, key: Option<IdempotencyKey>, since: int) {
    && (forall i | first <= i < |statuses| && statuses[i].key == key :: since <= statuses[i].at)
    && forall i, j | first <= i < j < |statuses| && statuses[i].key == key :: statuses[j].key != key
  }

  lemma {:induction false} WindowKeepsOne(account: string, run: seq<Attempt>, n: nat, m: nat)
    requires IsRun(account, run) && n <= m < |run| && KeyOf(run[n].content).Some?
    requires Find(run[n].before.server.statuses, KeyOf(run[n].content), run[n].before.now).None?
    requires run[m].after.now < run[n].before.now + IDEMPOTENCY_TTL
    ensures OneSince(run[m].after.server.statuses, |run[n].before.server.statuses|, KeyOf(run[n].content),
                     run[n].before.now)
    ensures run[m].outcome.Published? && KeyOf(run[m].content) == KeyOf(run[n].content) ==>
      && |run[n].before.server.statuses| <= run[m].outcome.id < |run[m].after.server.statuses|
      && run[m].after.server.statuses[run[m].outcome.id].key == KeyOf(run[n].content)
  {
    var base, key, since := run[n].before.server.statuses, KeyOf(run[n].content), run[n].before.now;
    RunMovesOn(account, run, n, m);
    assert AttemptContract(account, run[m].before, run[m].content, run[m].after, run[m].outcome);
    if n < m {
      RunMovesOn(account, run, m - 1, m);
      WindowKeepsOne(account, run, n, m - 1);
      assert Follows(run[m - 1].after, run[m].before);
    }
    OneMoreAttempt(base, run[m].before.server.statuses, key, since, run[m].content, run[m].before.now, run[m].after.now,
                   run[m].after.server.statuses, run[m].outcome);
  }

  lemma OneMoreAttempt(base: seq<Status>, before: seq<Status>, key: Option<IdempotencyKey>, since: int,
                       content: Content, from: int, until: int, after: seq<Status>, outcome: Outcome)
    requires base <= before && key.Some? && Find(base, key, since).None?
    requires OneSince(before, |base|, key, since)
    requires since <= from <= until < since + IDEMPOTENCY_TTL
    requires Posted(before, KeyOf(content), from, until, after, outcome)
    ensures OneSince(after, |base|, key, since)
    ensures outcome.Published? && KeyOf(content) == key ==>
      |base| <= outcome.id < |after| && after[outcome.id].key == key
  {
    if KeyOf(content) == key && !(after == before && outcome == Failed) {
      var params, at :| from <= at <= until && Reached(before, key, params, at, after, outcome);
      var found := Find(before, key, at);
      forall i | 0 <= i < |base|
        ensures !Remembers(before[i], key, at)
      {
        assert !Remembers(base[i], key, since);
      }
      if found.None? {
        forall i | |base| <= i < |before|
          ensures before[i].key != key
        {
          assert !Remembers(before[i], key, at);
        }
      }
    }
  }

  /** Main result 1. Take any attempt at a post whose key the server does not remember, in any run,
      and everything that happens within an hour of its start. All attempts at that unchanged
      post, whatever responses they lose and whatever media ids they hold, create at most one
      status, and every one that succeeds returns that status's id. */
  lemma ExactlyOnce(account: string, run: seq<Attempt>, n: nat, m: nat)
    requires IsRun(account, run) && n <= m < |run| && KeyOf(run[n].content).Some?
    requires Find(run[n].before.server.statuses, KeyOf(run[n].content), run[n].before.now).None?
    requires run[m].after.now < run[n].before.now + IDEMPOTENCY_TTL
    ensures var key, last := KeyOf(run[n].content), run[m].after.server.statuses;
      var first := |run[n].before.server.statuses|;
      && (forall i, j | first <= i < j < |last| && last[i].key == key :: last[j].key != key)
      && (forall k | n <= k <= m && KeyOf(run[k].content) == key && run[k].outcome.Published? ::
            first <= run[k].outcome.id < |last| && last[run[k].outcome.id].key == key)
      && (forall k, l | n <= k <= l <= m && KeyOf(run[k].content) == key && KeyOf(run[l].content) == key
                        && run[k].outcome.Published? && run[l].outcome.Published? ::
            run[k].outcome == run[l].outcome)
  {
    var key, first, last := KeyOf(run[n].content), |run[n].before.server.statuses|, run[m].after.server.statuses;
    WindowKeepsOne(account, run, n, m);
    forall k | n <= k <= m && KeyOf(run[k].content) == key && run[k].outcome.Published?
      ensures first <= run[k].outcome.id < |last| && last[run[k].outcome.id].key == key
    {
      RunMovesOn(account, run, k, m);
      WindowKeepsOne(account, run, n, k);
    }
  }

  /* ---- Without a window ---- */

  /** No status lies in the future, and two under one key are an hour apart. */
  predicate Spaced(w: World) {
    && (forall i | 0 <= i < |w.server.statuses| :: w.server.statuses[i].at <= w.now)
    && forall i, j | 0 <= i < j < |w.server.statuses| && w.server.statuses[i].key.Some?
                     && w.server.statuses[i].key == w.server.statuses[j].key ::
         w.server.statuses[i].at + IDEMPOTENCY_TTL <= w.server.statuses[j].at
  }

  /** Main result 2. Over any run, however long, statuses under one key stay an hour apart. */
  lemma {:induction false} RunKeepsSpaced(account: string, run: seq<Attempt>, n: nat)
    requires IsRun(account, run) && n < |run| && Spaced(run[0].before)
    ensures Spaced(run[n].before) && Spaced(run[n].after)
  {
    assert AttemptContract(account, run[n].before, run[n].content, run[n].after, run[n].outcome);
    if n > 0 {
      RunKeepsSpaced(account, run, n - 1);
      assert Follows(run[n - 1].after, run[n].before);
    }
    var earlier, later, key := run[n].before.server.statuses, run[n].after.server.statuses, KeyOf(run[n].content);
    if later != earlier {
      var params, at :| run[n].before.now <= at <= run[n].after.now
        && Reached(earlier, key, params, at, later, run[n].outcome);
      forall i | 0 <= i < |earlier| && key.Some? && earlier[i].key == key
        ensures earlier[i].at + IDEMPOTENCY_TTL <= at
      {
        assert !Remembers(earlier[i], key, at);
      }
    }
  }

  /** Main result 3. The hour decides. An attempt started when the last status under its key is an
      hour old or more creates another one, even if its response is lost, or creates nothing and
      fails; one that ended while that status is younger creates none, and returns that status if
      it succeeds. */
  lemma TheHourDecides(account: string, run: seq<Attempt>, n: nat, i: nat)
    requires IsRun(account, run) && n < |run| && Spaced(run[0].before)
    requires KeyOf(run[n].content).Some?
    requires var statuses := run[n].before.server.statuses;
      && i < |statuses| && statuses[i].key == KeyOf(run[n].content)
      && forall j | i < j < |statuses| :: statuses[j].key != KeyOf(run[n].content)
    ensures var earlier, later, outcome := run[n].before.server.statuses, run[n].after.server.statuses, run[n].outcome;
      && (earlier[i].at + IDEMPOTENCY_TTL <= run[n].before.now ==>
          || (later == earlier && outcome == Failed)
          || (&& |later| == |earlier| + 1 && earlier <= later && later[|earlier|].key == earlier[i].key
              && (outcome == Failed || outcome == Published(|earlier|))))
      && (run[n].after.now < earlier[i].at + IDEMPOTENCY_TTL ==>
          later == earlier && (outcome == Failed || outcome == Published(i)))
  {
    RunKeepsSpaced(account, run, n);
    var statuses, key := run[n].before.server.statuses, KeyOf(run[n].content);
    assert AttemptContract(account, run[n].before, run[n].content, run[n].after, run[n].outcome);
    if !(run[n].after.server.statuses == statuses && run[n].outcome == Failed) {
      var params, at :| run[n].before.now <= at <= run[n].after.now
        && Reached(statuses, key, params, at, run[n].after.server.statuses, run[n].outcome);
      var found := Find(statuses, key, at);
      assert found.None? ==> !Remembers(statuses[i], key, at);
    }
  }

  /** A success whose key the server did not remember when the attempt began created its status. */
  lemma SuccessCreates(before: seq<Status>, key: Option<IdempotencyKey>, from: int, until: int,
                       after: seq<Status>, outcome: Outcome)
    requires Posted(before, key, from, until, after, outcome) && outcome.Published?
    requires forall i | 0 <= i < |before| :: !Remembers(before[i], key, from)
    ensures outcome.id == |before| && |after| == |before| + 1 && before <= after
    ensures after[|before|].key == key && from <= after[|before|].at <= until
  {
    var params, at :| from <= at <= until && Reached(before, key, params, at, after, outcome);
    forall i | 0 <= i < |before|
      ensures !Remembers(before[i], key, at)
    {
      assert !Remembers(before[i], key, from);
    }
  }

  /** The hour is necessary for the code: one post published undisturbed, and again an hour later,
      ends up twice on the account. */
  method LateRetryRepeats(account: string, content: Content, start: World)
    returns (statuses: seq<Status>, first: Outcome, second: Outcome)
    requires SoundCache(start) && start.server.statuses == [] && content.publishKey != ""
    ensures first == Published(0) && second == Published(1)
    ensures |statuses| == 2 && statuses[0].key == statuses[1].key == KeyOf(content)
  {
    var calm := seq(|content.digests| + 1, i => Turn(false, Ok(true), 0));
    var p := new MastodonPublisher(account, start, calm);
    first := p.PublishPost(content);
    ghost var once := p.State();
    AttemptCreates(account, start, content, once, first);
    p.now := p.now + IDEMPOTENCY_TTL;
    p.script := calm;
    ghost var later := p.State();
    second := p.PublishPost(content);
    AttemptCreates(account, later, content, p.State(), second);
    statuses := p.server.statuses;
  }

  lemma AttemptCreates(account: string, before: World, content: Content, after: World, outcome: Outcome)
    requires AttemptContract(account, before, content, after, outcome) && outcome.Published?
    requires forall i | 0 <= i < |before.server.statuses| ::
      before.server.statuses[i].at + IDEMPOTENCY_TTL <= before.now
    ensures var statuses, id := after.server.statuses, |before.server.statuses|;
      && outcome == Published(id) && |statuses| == id + 1 && before.server.statuses <= statuses
      && statuses[id].key == KeyOf(content) && statuses[id].at <= after.now
  {
    SuccessCreates(before.server.statuses, KeyOf(content), before.now, after.now, after.server.statuses, outcome);
  }

  /* ---- What the statuses carry ---- */

  /** Main result 4. Posts with different publish keys never share a media id, and no status
      holds one upload twice, with no bound on time. */
  lemma MediaIsNeverShared(account: string, run: seq<Attempt>, n: nat, i: nat, j: nat, p: nat, q: nat)
    requires IsRun(account, run) && n < |run| && Sound(account, run[0].before)
    requires var statuses := run[n].after.server.statuses;
      && i < |statuses| && j < |statuses| && statuses[i].key.Some? && statuses[j].key.Some?
      && p < |statuses[i].Media()| && q < |statuses[j].Media()| && statuses[i].Media()[p] == statuses[j].Media()[q]
    ensures var statuses := run[n].after.server.statuses;
      var a, b := statuses[i].key.value, statuses[j].key.value;
      a.baseKey != "" ==>
        && a.baseKey == b.baseKey && p == q
        && p < |a.digests| && p < |b.digests| && a.digests[p] == b.digests[p]
  {
    RunKeepsSound(account, run, n);
    var w := run[n].after;
    assert SoundStatus(account, w, w.server.statuses[i]) && SoundStatus(account, w, w.server.statuses[j]);
  }

  /** A key stands for the whole content, because hashes are injective. */
  lemma EditChangesKey(a: Content, b: Content)
    requires a.publishKey != ""
    ensures KeyOf(a) == KeyOf(b) <==> a == b
  {
    assert a.authored - {MEDIA_PARAM} == a.authored;
    assert b.authored - {MEDIA_PARAM} == b.authored;
  }

  /** Main result 5. After an edit, inside the hour or not, an attempt that succeeds returns a
      status with the edited fields and the edited files' uploads in order, not one of the
      statuses the stale content was published as; and unless the server remembers the edit
      already, the attempt itself created it. */
  lemma EditIsPublished(account: string, run: seq<Attempt>, n: nat, stale: Content)
    requires IsRun(account, run) && n < |run| && Sound(account, run[0].before) && run[n].outcome.Published?
    requires run[n].content != stale && stale.publishKey != ""
    requires run[n].content.publishKey == stale.publishKey
    ensures var edited, statuses, id := run[n].content, run[n].after.server.statuses, run[n].outcome.id;
      && id < |statuses|
      && statuses[id].key == Some(IdempotencyKey(edited.publishKey, edited.authored, edited.digests))
      && statuses[id].params - {MEDIA_PARAM} == edited.authored
      && |statuses[id].Media()| == |edited.digests|
      && (forall p | 0 <= p < |statuses[id].Media()| ::
            && statuses[id].Media()[p] < |run[n].after.owners|
            && run[n].after.owners[statuses[id].Media()[p]]
               == Some(CacheKey(account, edited.publishKey, p, edited.digests[p])))
      && (forall i | 0 <= i < |statuses| && statuses[i].key == KeyOf(stale) :: i != id)
      && (Find(run[n].before.server.statuses, KeyOf(edited), run[n].before.now).None? ==>
          id == |run[n].before.server.statuses| && |statuses| == id + 1)
  {
    var edited, earlier, statuses := run[n].content, run[n].before.server.statuses, run[n].after.server.statuses;
    RunKeepsSound(account, run, n);
    EditChangesKey(stale, edited);
    assert edited.authored - {MEDIA_PARAM} == edited.authored;
    assert AttemptContract(account, run[n].before, edited, run[n].after, run[n].outcome);
    if Find(earlier, KeyOf(edited), run[n].before.now).None? {
      SuccessCreates(earlier, KeyOf(edited), run[n].before.now, run[n].after.now, statuses, run[n].outcome);
    }
    assert SoundStatus(account, run[n].after, statuses[run[n].outcome.id]);
  }
}
