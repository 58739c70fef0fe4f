/** Crash-safe native video publishing (providers/meta_video.py).

    One publish makes three platform writes that must never be repeated: create an upload
    session, upload the file, publish. Before each write the attempt stores a checkpoint; an
    attempt that finds anything but `uploaded` or `complete` refuses to continue. This module
    models one session key: the durable checkpoint, the log of writes the platform was sent,
    and attempts whose every durable step and request may fail.

    A process crash is covered by the fault model: nothing runs after an exception, so dying
    before a checkpoint has the same effect as that checkpoint raising before it is stored,
    and dying after it the same effect as its raising once stored. */
module NativeVideo {
  import opened Wrappers

  datatype Phase = Creating | Created | Uploading | Uploaded | Publishing | Complete

  datatype Checkpoint = Checkpoint(phase: Phase, expiresAt: int, uploadId: string, mediaId: string)

  type Store = Option<Checkpoint>

  /** A write the platform was sent, with the reply the attempt saw (if it saw one). */
  datatype Write =
    | Create(session: Option<string>)
    | Upload(uploadId: string, acknowledged: bool)
    | Publish(uploadId: string, mediaId: Option<string>)

  /** What one durable `set` did. */
  datatype SetResult = Stored | RaisedBefore | RaisedAfter {
    predicate TookEffect() { !RaisedBefore? }
  }

  datatype CreateReply = NoSession | Session(uploadId: string, uriSafe: bool) {
    predicate Usable() { Session? && ValidId(uploadId) }
  }

  datatype UploadReply = NoUploadReply | UploadStatus(code: int, success: bool) {
    predicate Acknowledged() { UploadStatus? && 200 <= code < 300 && success }
  }

  datatype PublishReply = NoPublishReply | Media(mediaId: string) {
    predicate Acknowledged() { Media? && mediaId != "" }
  }

  /** Everything outside the code that one attempt meets, in the order it meets it. */
  datatype Script = Script(
    authorized: bool, startedAt: int, checkedAt: int,
    mayCreate: bool, setCreating: SetResult, create: CreateReply, setCreated: SetResult,
    mayUpload: bool, setUploading: SetResult, upload: UploadReply, setUploaded: SetResult,
    settled: bool, mayPublish: bool, setPublishing: SetResult, publish: PublishReply, setComplete: SetResult)

  datatype Reason =
    | InvalidReceipt | Unauthorized | Expired | Unconfirmed | Interrupted | CheckpointFailed | WaitFailed

  datatype Outcome = Published(mediaId: string) | Replayed(mediaId: string) | Refused(reason: Reason)

  const SESSION_SECONDS := 3600

  predicate IdChar(c: char) {
    'A' <= c <= 'Z' || 'a' <= c <= 'z' || '0' <= c <= '9' || c == '_' || c == '-'
  }

  predicate ValidId(id: string) {
    id != "" && forall c | c in id :: IdChar(c)
  }

  /* ---- What an attempt must do: which writes it sends, and which checkpoint it leaves. ---- */

  predicate InPhase(store: Store, phase: Phase) {
    store.Some? && store.value.phase == phase
  }

  /** Creating, created, uploading or publishing: a write may be out there unconfirmed. */
  predicate Stuck(store: Store) {
    store.Some? && !InPhase(store, Uploaded) && !InPhase(store, Complete)
  }

  function Expiry(store: Store, s: Script): int {
    if store.Some? then store.value.expiresAt else s.startedAt + SESSION_SECONDS
  }

  predicate Admitted(store: Store, s: Script) {
    !InPhase(store, Complete) && s.authorized && s.checkedAt < Expiry(store, s)
  }

  function SessionId(store: Store, s: Script): string {
    if store.Some? then store.value.uploadId else if s.create.Session? then s.create.uploadId else ""
  }

  predicate ReachesCreating(store: Store, s: Script) {
    Admitted(store, s) && store.None? && s.mayCreate
  }

  predicate SendsCreate(store: Store, s: Script) {
    ReachesCreating(store, s) && s.setCreating.Stored?
  }

  predicate ReachesCreated(store: Store, s: Script) {
    SendsCreate(store, s) && s.create.Usable()
  }

  predicate ReachesUploading(store: Store, s: Script) {
    ReachesCreated(store, s) && s.setCreated.Stored? && s.create.uriSafe && s.mayUpload
  }

  predicate SendsUpload(store: Store, s: Script) {
    ReachesUploading(store, s) && s.setUploading.Stored?
  }

  predicate ReachesUploaded(store: Store, s: Script) {
    SendsUpload(store, s) && s.upload.Acknowledged()
  }

  predicate ReachesWait(store: Store, s: Script) {
    || (ReachesUploaded(store, s) && s.setUploaded.Stored?)
    || (Admitted(store, s) && InPhase(store, Uploaded))
  }

  predicate ReachesPublishing(store: Store, s: Script) {
    ReachesWait(store, s) && s.settled && s.mayPublish
  }

  predicate SendsPublish(store: Store, s: Script) {
    ReachesPublishing(store, s) && s.setPublishing.Stored?
  }

  predicate ReachesComplete(store: Store, s: Script) {
    SendsPublish(store, s) && s.publish.Acknowledged()
  }

  function CreateWrite(s: Script): Write {
    Create(if s.create.Session? then Some(s.create.uploadId) else None)
  }

  function UploadWrite(store: Store, s: Script): Write {
    Upload(SessionId(store, s), s.upload.Acknowledged())
  }

  function PublishWrite(store: Store, s: Script): Write {
    Publish(SessionId(store, s), if s.publish.Media? then Some(s.publish.mediaId) else None)
  }

  /** The writes an attempt sends, in order. */
  function Sent(store: Store, s: Script): seq<Write> {
    (if SendsCreate(store, s) then [CreateWrite(s)] else [])
    + (if SendsUpload(store, s) then [UploadWrite(store, s)] else [])
    + (if SendsPublish(store, s) then [PublishWrite(store, s)] else [])
  }

  /** The checkpoint an attempt leaves: the furthest one it reached that took effect. */
  function Left(store: Store, s: Script): Store {
    var id := SessionId(store, s);
    var at := Expiry(store, s);
    if ReachesComplete(store, s) && s.setComplete.TookEffect() then
      Some(Checkpoint(Complete, at, id, s.publish.mediaId))
    else if ReachesPublishing(store, s) && s.setPublishing.TookEffect() then Some(Checkpoint(Publishing, at, id, ""))
    else if ReachesUploaded(store, s) && s.setUploaded.TookEffect() then Some(Checkpoint(Uploaded, at, id, ""))
    else if ReachesUploading(store, s) && s.setUploading.TookEffect() then Some(Checkpoint(Uploading, at, id, ""))
    else if ReachesCreated(store, s) && s.setCreated.TookEffect() then Some(Checkpoint(Created, at, id, ""))
    else if ReachesCreating(store, s) && s.setCreating.TookEffect() then Some(Checkpoint(Creating, at, "", ""))
    else store
  }

  /** Some write of this attempt, or of an earlier one, has no confirmed outcome. */
  predicate LeavesDoubt(store: Store, s: Script) {
    || (Admitted(store, s) && Stuck(store))
    || (SendsCreate(store, s) && !(s.create.Usable() && s.setCreated.Stored? && s.create.uriSafe))
    || (SendsUpload(store, s) && !s.upload.Acknowledged())
    || (SendsPublish(store, s) && !s.publish.Acknowledged())
  }

  ghost predicate RightOutcome(store: Store, s: Script, outcome: Outcome) {
    && (outcome.Published? <==> ReachesComplete(store, s) && s.setComplete.Stored?)
    && (outcome.Published? ==> outcome.mediaId == s.publish.mediaId)
    && (outcome.Replayed? <==> InPhase(store, Complete) && ValidId(store.value.mediaId))
    && (outcome.Replayed? ==> outcome.mediaId == store.value.mediaId)
    && (outcome == Refused(InvalidReceipt) <==> InPhase(store, Complete) && !ValidId(store.value.mediaId))
    && (outcome == Refused(Unauthorized) <==> !InPhase(store, Complete) && !s.authorized)
    && (outcome == Refused(Expired) <==>
        !InPhase(store, Complete) && s.authorized && Expiry(store, s) <= s.checkedAt)
    && (outcome == Refused(Unconfirmed) <==> LeavesDoubt(store, s))
    && (outcome == Refused(Interrupted) <==>
        || (Admitted(store, s) && store.None? && !s.mayCreate)
        || (ReachesCreated(store, s) && s.setCreated.Stored? && s.create.uriSafe && !s.mayUpload)
        || (ReachesWait(store, s) && s.settled && !s.mayPublish))
    && (outcome == Refused(WaitFailed) <==> ReachesWait(store, s) && !s.settled)
  }

  /** One session key: the durable checkpoint, and the writes its platform was sent. */
  class NativeVideoSession {
    var store: Store
    ghost var log: seq<Write>

    constructor ()
      ensures store == None && log == []
    {
      store, log := None, [];
    }

    /** `checkpoint`: true when the caller may go on. */
    method SetCheckpoint(phase: Phase, expiresAt: int, uploadId: string, mediaId: string, result: SetResult)
      returns (ok: bool)
      modifies this`store
      ensures ok == result.Stored?
      ensures store == if result.TookEffect() then Some(Checkpoint(phase, expiresAt, uploadId, mediaId)) else old(store)
    {
      if result.TookEffect() {
        store := Some(Checkpoint(phase, expiresAt, uploadId, mediaId));
      }
      ok := result.Stored?;
    }

    /** `publish_native_video`. */
    method Attempt(s: Script) returns (outcome: Outcome)
      modifies this
      ensures log == old(log) + Sent(old(store), s)
      ensures store == Left(old(store), s)
      ensures RightOutcome(old(store), s, outcome)
    {
      if store.Some? && store.value.phase == Complete {
        var mediaId := store.value.mediaId;
        if !ValidId(mediaId) {
          return Refused(InvalidReceipt);
        }
        return Replayed(mediaId);
      }
      if !s.authorized {
        return Refused(Unauthorized);
      }
      var expiresAt := if store.Some? then store.value.expiresAt else s.startedAt + SESSION_SECONDS;
      if expiresAt <= s.checkedAt {
        return Refused(Expired);
      }
      if store.Some? && store.value.phase != Uploaded {
        return Refused(Unconfirmed);
      }
      var uploadId := if store.Some? then store.value.uploadId else "";
      if store.None? {
        if !s.mayCreate {
          return Refused(Interrupted);
        }
        var ok := SetCheckpoint(Creating, expiresAt, "", "", s.setCreating);
        if !ok {
          return Refused(CheckpointFailed);
        }
        log := log + [CreateWrite(s)];
        if !s.create.Session? || !ValidId(s.create.uploadId) {
          return Refused(Unconfirmed);
        }
        uploadId := s.create.uploadId;
        ok := SetCheckpoint(Created, expiresAt, uploadId, "", s.setCreated);
        if !ok || !s.create.uriSafe {
          return Refused(Unconfirmed);
        }
        if !s.mayUpload {
          return Refused(Interrupted);
        }
        ok := SetCheckpoint(Uploading, expiresAt, uploadId, "", s.setUploading);
        if !ok {
          return Refused(CheckpointFailed);
        }
        log := log + [Upload(uploadId, s.upload.Acknowledged())];
        if !s.upload.Acknowledged() {
          return Refused(Unconfirmed);
        }
        ok := SetCheckpoint(Uploaded, expiresAt, uploadId, "", s.setUploaded);
        if !ok {
          return Refused(CheckpointFailed);
        }
      }
      if !s.settled {
        return Refused(WaitFailed);
      }
      if !s.mayPublish {
        return Refused(Interrupted);
      }
      var ok := SetCheckpoint(Publishing, expiresAt, uploadId, "", s.setPublishing);
      if !ok {
        return Refused(CheckpointFailed);
      }
      log := log + [Publish(uploadId, if s.publish.Media? then Some(s.publish.mediaId) else None)];
      if !s.publish.Acknowledged() {
        return Refused(Unconfirmed);
      }
      ok := SetCheckpoint(Complete, expiresAt, uploadId, s.publish.mediaId, s.setComplete);
      if !ok {
        return Refused(CheckpointFailed);
      }
      return Published(s.publish.mediaId);
    }
  }

  /* ---- Runs: any number of attempts, one after the other, on one key. ---- */

  datatype World = World(store: Store, log: seq<Write>)

  const START := World(None, [])

  function After(w: World, s: Script): World {
    World(Left(w.store, s), w.log + Sent(w.store, s))
  }

  function Run(scripts: seq<Script>): World {
    if scripts == [] then START
    else After(Run(scripts[..|scripts| - 1]), scripts[|scripts| - 1])
  }

  /** The write-ahead invariant: what each durable phase says about the writes sent so far. */
  predicate WriteAhead(w: World) {
    match w.store
    case None => w.log == []
    case Some(Checkpoint(phase, _, id, mediaId)) =>
      var created := [Create(Some(id))];
      var uploaded := created + [Upload(id, true)];
      match phase
      case Creating => w.log == [] || (|w.log| == 1 && w.log[0].Create?)
      case Created => ValidId(id) && w.log == created
      case Uploading =>
        && ValidId(id)
        && (w.log == created
            || (|w.log| == 2 && w.log[0] == created[0] && w.log[1].Upload? && w.log[1].uploadId == id))
      case Uploaded => ValidId(id) && w.log == uploaded
      case Publishing =>
        && ValidId(id)
        && (w.log == uploaded
            || (|w.log| == 3 && w.log[..2] == uploaded && w.log[2].Publish? && w.log[2].uploadId == id))
      case Complete => ValidId(id) && mediaId != "" && w.log == uploaded + [Publish(id, Some(mediaId))]
  }

  function Rank(store: Store): nat {
    match store
    case None => 0
    case Some(c) =>
      match c.phase
      case Creating => 1 case Created => 2 case Uploading => 3
      case Uploaded => 4 case Publishing => 5 case Complete => 6
  }

  /** Every attempt, whatever fails in it, keeps the invariant and never moves a phase back. */
  lemma AttemptKeepsWriteAhead(w: World, s: Script)
    requires WriteAhead(w)
    ensures WriteAhead(After(w, s))
    ensures Rank(w.store) <= Rank(After(w, s).store)
    ensures w.store.Some? ==>
      After(w, s).store.Some? && After(w, s).store.value.expiresAt == w.store.value.expiresAt
  {
    var w' := After(w, s);
    if InPhase(w.store, Uploaded) {
      var id := w.store.value.uploadId;
      if SendsPublish(w.store, s) {
        assert w'.log == w.log + [PublishWrite(w.store, s)];
      } else {
        assert w'.log == w.log;
      }
    } else if w.store.None? {
      FirstAttemptKeepsWriteAhead(w, s);
    } else {
      assert Sent(w.store, s) == [];
      assert w'.log == w.log;
    }
  }

  lemma FirstAttemptKeepsWriteAhead(w: World, s: Script)
    requires w == START
    ensures WriteAhead(After(w, s))
  {
    var w' := After(w, s);
    if SendsPublish(None, s) {
      assert w'.log == [CreateWrite(s), UploadWrite(None, s), PublishWrite(None, s)];
    } else if SendsUpload(None, s) {
      assert w'.log == [CreateWrite(s), UploadWrite(None, s)];
    } else if SendsCreate(None, s) {
      assert w'.log == [CreateWrite(s)];
    } else {
      assert w'.log == [];
    }
  }

  lemma {:induction false} RunKeepsWriteAhead(scripts: seq<Script>)
    ensures WriteAhead(Run(scripts))
  {
    if scripts != [] {
      RunKeepsWriteAhead(scripts[..|scripts| - 1]);
      AttemptKeepsWriteAhead(Run(scripts[..|scripts| - 1]), scripts[|scripts| - 1]);
    }
  }

  function Count(log: seq<Write>, kind: Write -> bool): nat {
    if log == [] then 0 else (if kind(log[0]) then 1 else 0) + Count(log[1..], kind)
  }

  /** Main result 1. Over any attempts, failing anywhere, each write is sent at most once; a
      publish comes third, after an acknowledged upload, and both carry the id of the one create. */
  lemma AtMostOnceEach(scripts: seq<Script>)
    ensures var log := Run(scripts).log;
      && Count(log, (x: Write) => x.Create?) <= 1
      && Count(log, (x: Write) => x.Upload?) <= 1
      && Count(log, (x: Write) => x.Publish?) <= 1
      && forall i | 0 <= i < |log| && log[i].Publish? ::
           i == 2 && log[0] == Create(Some(log[2].uploadId)) && log[1] == Upload(log[2].uploadId, true)
  {
    RunKeepsWriteAhead(scripts);
    var log := Run(scripts).log;
    LogShape(Run(scripts));
    CountShort(log, (x: Write) => x.Create?);
    CountShort(log, (x: Write) => x.Upload?);
    CountShort(log, (x: Write) => x.Publish?);
  }

  lemma LogShape(w: World)
    requires WriteAhead(w)
    ensures |w.log| <= 3
    ensures |w.log| > 0 ==> w.log[0].Create?
    ensures |w.log| > 1 ==> w.log[1].Upload?
    ensures |w.log| > 2 ==>
      w.log[2].Publish? && w.log[0] == Create(Some(w.log[2].uploadId)) && w.log[1] == Upload(w.log[2].uploadId, true)
  {
    if |w.log| > 2 {
      assert w.log[..2][0] == w.log[0] && w.log[..2][1] == w.log[1];
    }
  }

  lemma CountShort(log: seq<Write>, kind: Write -> bool)
    requires |log| <= 3
    ensures Count(log, kind) ==
      (if |log| > 0 && kind(log[0]) then 1 else 0) + (if |log| > 1 && kind(log[1]) then 1 else 0)
      + (if |log| > 2 && kind(log[2]) then 1 else 0)
  {
    if |log| == 2 {
      assert log == [log[0], log[1]] && log[1..] == [log[1]];
    } else if |log| == 3 {
      assert log[1..] == [log[1], log[2]] && log[1..][1..] == [log[2]];
    }
  }

  /** Later attempts only ever extend what an earlier point of the run left. */
  lemma {:induction false} RunOnlyGrows(scripts: seq<Script>, n: nat)
    requires n <= |scripts|
    ensures Run(scripts[..n]).log <= Run(scripts).log
    ensures Rank(Run(scripts[..n]).store) <= Rank(Run(scripts).store)
    ensures var earlier := Run(scripts[..n]).store;
      earlier.Some? ==>
        Run(scripts).store.Some? && Run(scripts).store.value.expiresAt == earlier.value.expiresAt
  {
    if n < |scripts| {
      var init := scripts[..|scripts| - 1];
      assert init[..n] == scripts[..n];
      RunOnlyGrows(init, n);
      RunKeepsWriteAhead(init);
      AttemptKeepsWriteAhead(Run(init), scripts[|scripts| - 1]);
    } else {
      assert scripts[..n] == scripts;
    }
  }

  /** Main result 2. The first checkpoint fixes the deadline, one hour after the attempt that
      stored it began; every attempt that sends a write checked its clock before that deadline. */
  lemma WritersBeginBeforeTheDeadline(scripts: seq<Script>, n: nat)
    requires n < |scripts| && Sent(Run(scripts[..n]).store, scripts[n]) != []
    ensures Run(scripts).store.Some? && scripts[n].checkedAt < Run(scripts).store.value.expiresAt
    ensures exists first: nat | first <= n ::
      && Run(scripts[..first]).store.None?
      && Run(scripts).store.value.expiresAt == scripts[first].startedAt + 3600
  {
    RunKeepsWriteAhead(scripts[..n]);
    WriterLeavesCheckpoint(Run(scripts[..n]), scripts[n]);
    RunStep(scripts, n);
    RunOnlyGrows(scripts, n + 1);
    var first := FirstCheckpoint(scripts, n);
  }

  lemma RunStep(scripts: seq<Script>, n: nat)
    requires n < |scripts|
    ensures Run(scripts[..n + 1]) == After(Run(scripts[..n]), scripts[n])
  {
    assert scripts[..n + 1][..n] == scripts[..n];
  }

  lemma RunLast(scripts: seq<Script>, m: nat)
    requires 0 < m <= |scripts|
    ensures Run(scripts[..m]) == After(Run(scripts[..m - 1]), scripts[m - 1])
  {
    assert scripts[..m][..m - 1] == scripts[..m - 1];
  }

  lemma WriterLeavesCheckpoint(w: World, s: Script)
    requires WriteAhead(w) && Sent(w.store, s) != []
    ensures After(w, s).store.Some? && After(w, s).store.value.expiresAt == Expiry(w.store, s)
    ensures s.checkedAt < Expiry(w.store, s)
  {
  }

  lemma {:induction false} FirstCheckpoint(scripts: seq<Script>, n: nat) returns (first: nat)
    requires n < |scripts| && Run(scripts[..n + 1]).store.Some?
    ensures first <= n && Run(scripts[..first]).store.None?
    ensures Run(scripts[..n + 1]).store.value.expiresAt == scripts[first].startedAt + SESSION_SECONDS
  {
    var before := Run(scripts[..n]);
    RunStep(scripts, n);
    if before.store.None? {
      first := n;
    } else {
      assert n > 0;
      first := FirstCheckpoint(scripts, n - 1);
      RunKeepsWriteAhead(scripts[..n]);
      AttemptKeepsWriteAhead(before, scripts[n]);
    }
  }

  /** Main result 3. Once an attempt has published, the log is closed, and every later attempt
      answers with that publish's media id, or refuses exactly when the id is malformed. */
  lemma CompleteIsFinal(scripts: seq<Script>, n: nat, m: nat, outcome: Outcome)
    requires n <= m < |scripts| && InPhase(Run(scripts[..n]).store, Complete)
    requires RightOutcome(Run(scripts[..m]).store, scripts[m], outcome)
    ensures Run(scripts[..m + 1]) == Run(scripts[..n]) && |Run(scripts[..n]).log| == 3
    ensures var mediaId := Run(scripts[..n]).store.value.mediaId;
      && Run(scripts[..n]).log[2..] == [Publish(Run(scripts[..n]).store.value.uploadId, Some(mediaId))]
      && outcome == if ValidId(mediaId) then Replayed(mediaId) else Refused(InvalidReceipt)
  {
    RunKeepsWriteAhead(scripts[..n]);
    CompleteIsFixed(scripts, n, m);
    RunStep(scripts, m);
    CompleteIsKept(Run(scripts[..m]), scripts[m]);
  }

  lemma CompleteIsKept(w: World, s: Script)
    requires InPhase(w.store, Complete)
    ensures After(w, s) == w
  {
    assert Sent(w.store, s) == [];
    assert w.log + [] == w.log;
  }

  lemma {:induction false} CompleteIsFixed(scripts: seq<Script>, n: nat, m: nat)
    requires n <= m <= |scripts| && InPhase(Run(scripts[..n]).store, Complete)
    ensures Run(scripts[..m]) == Run(scripts[..n])
  {
    if n < m {
      CompleteIsFixed(scripts, n, m - 1);
      RunLast(scripts, m);
      CompleteIsKept(Run(scripts[..m - 1]), scripts[m - 1]);
    }
  }

  /** Main result 4. All successes of one key, replayed or not, name the same media id. */
  lemma SuccessesAgree(scripts: seq<Script>, i: nat, j: nat, first: Outcome, second: Outcome)
    requires i < j < |scripts|
    requires RightOutcome(Run(scripts[..i]).store, scripts[i], first) && !first.Refused?
    requires RightOutcome(Run(scripts[..j]).store, scripts[j], second) && !second.Refused?
    ensures second == Replayed(first.mediaId)
  {
    RunStep(scripts, i);
    assert InPhase(Run(scripts[..i + 1]).store, Complete);
    CompleteIsFinal(scripts, i + 1, j, second);
  }

  /** Main result 5. A wait that times out, or an interrupt before the publish, loses nothing:
      the container stays `uploaded`, and an undisturbed attempt before the deadline resumes it
      with one publish and no second create or upload. */
  lemma InterruptedWaitResumes(w: World, first: Script, retry: Script)
    requires WriteAhead(w) && ReachesWait(w.store, first) && !(first.settled && first.mayPublish)
    requires retry.authorized && retry.checkedAt < Expiry(w.store, first)
    requires retry.settled && retry.mayPublish && retry.setPublishing.Stored? && retry.publish.Acknowledged()
    ensures var mid := After(w, first);
      && InPhase(mid.store, Uploaded) && mid.store.value.uploadId == SessionId(w.store, first)
      && Sent(mid.store, retry) == [Publish(SessionId(w.store, first), Some(retry.publish.mediaId))]
      && ReachesComplete(mid.store, retry)
  {
  }

  /* ---- Which replies lead to a publish ---- */

  predicate IsSessionId(id: string) {
    id != ""
    && forall c | c in id :: 'a' <= c <= 'z' || 'A' <= c <= 'Z' || '0' <= c <= '9' || c == '_' || c == '-'
  }

  /** A first attempt publishes if and only if nothing at all stands in its way: it is authorized and
      in time, may go on before each write, every checkpoint is stored, the session has a
      well-formed id and a safe address, the upload is answered with a success status and
      `success`, and the container settles. */
  lemma FirstAttemptPublishesIff(s: Script)
    ensures SendsPublish(None, s) <==>
      && s.authorized && s.checkedAt < s.startedAt + 3600
      && s.mayCreate && s.setCreating.Stored? && s.create.Session? && IsSessionId(s.create.uploadId)
      && s.setCreated.Stored? && s.create.uriSafe
      && s.mayUpload && s.setUploading.Stored?
      && s.upload.UploadStatus? && 200 <= s.upload.code <= 299 && s.upload.success
      && s.setUploaded.Stored? && s.settled && s.mayPublish && s.setPublishing.Stored?
    ensures ReachesComplete(None, s) <==> SendsPublish(None, s) && s.publish.Media? && s.publish.mediaId != ""
  {
  }

  /** A later attempt publishes if and only if it finds the container uploaded, is authorized and in
      time, sees it settle, and stores its checkpoint. */
  lemma LaterAttemptPublishesIff(c: Checkpoint, s: Script)
    ensures SendsPublish(Some(c), s) <==>
      && c.phase == Uploaded && s.authorized && s.checkedAt < c.expiresAt
      && s.settled && s.mayPublish && s.setPublishing.Stored?
    ensures !SendsCreate(Some(c), s) && !SendsUpload(Some(c), s)
  {
  }

  /** The attempt behind an uploaded container: the first, with a session of that id and an upload
      answered well. */
  lemma {:induction false} UploadWasAnswered(scripts: seq<Script>) returns (n: nat)
    requires Rank(Run(scripts).store) >= 4
    ensures n < |scripts| && Run(scripts[..n]).store.None?
    ensures scripts[n].create == Session(Run(scripts).store.value.uploadId, true)
    ensures scripts[n].upload.UploadStatus? && 200 <= scripts[n].upload.code <= 299 && scripts[n].upload.success
  {
    var init, last := scripts[..|scripts| - 1], scripts[|scripts| - 1];
    if Rank(Run(init).store) >= 4 {
      n := UploadWasAnswered(init);
      assert init[..n] == scripts[..n];
    } else {
      n := |scripts| - 1;
    }
  }

  /** Main result 6. Whatever was published in a run was uploaded in it, under the id of its own
      session, and the upload was answered with a success status and `success`. */
  lemma PublishedWasUploaded(scripts: seq<Script>, i: nat) returns (n: nat)
    requires i < |Run(scripts).log| && Run(scripts).log[i].Publish?
    ensures n < |scripts| && Run(scripts[..n]).store.None?
    ensures scripts[n].create == Session(Run(scripts).log[i].uploadId, true)
    ensures scripts[n].upload.UploadStatus? && 200 <= scripts[n].upload.code <= 299 && scripts[n].upload.success
  {
    RunKeepsWriteAhead(scripts);
    PublishIsOfSession(Run(scripts), i);
    n := UploadWasAnswered(scripts);
  }

  lemma PublishIsOfSession(w: World, i: nat)
    requires WriteAhead(w) && i < |w.log| && w.log[i].Publish?
    ensures Rank(w.store) >= 5 && w.log[i].uploadId == w.store.value.uploadId
  {
  }

  /** An attempt refused as unconfirmed leaves a session that no later attempt writes for or answers
      well: it is the same from then on, whatever else is tried. */
  lemma UnconfirmedIsFinal(w: World, s: Script, outcome: Outcome, later: Script, answer: Outcome)
    requires RightOutcome(w.store, s, outcome) && outcome == Refused(Unconfirmed)
    requires RightOutcome(After(w, s).store, later, answer)
    ensures After(After(w, s), later) == After(w, s) && answer.Refused?
    ensures later.authorized && later.checkedAt < After(w, s).store.value.expiresAt ==> answer == Refused(Unconfirmed)
  {
    var mid := After(w, s);
    assert Sent(mid.store, later) == [];
    assert mid.log + [] == mid.log;
  }
}
