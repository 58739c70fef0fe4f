/** Idempotency slots of the agent API (apps/api/middleware.py, apps/api/tasks.py).

    A worker claims a slot by inserting a pending row under a unique constraint, does its work,
    and finalizes or releases the row; an hourly sweep deletes rows older than 24 hours. The
    store is a class whose methods are the single database statements; the protocol interleaves
    the statements of any number of workers, any of which may die between two of them. */
module Idempotency {
  import opened Wrappers

  const PENDING := 0
  const TTL := 24 * 3600

  datatype Slot = Slot(apiKey: nat, key: string)

  datatype Row = Row(fingerprint: string, status: nat, body: string, createdAt: int)

  type Table = map<Slot, Row>

  datatype Disposition =
    | Passthrough | Claimed | InFlight | Mismatch | Missing
    | Replay(status: nat, body: string)

  /* ---- What each statement does to the table ---- */

  function Inserted(rows: Table, slot: Slot, fingerprint: string, now: int): Table {
    if slot in rows then rows else rows[slot := Row(fingerprint, PENDING, "{}", now)]
  }

  function Finalized(rows: Table, slot: Slot, status: nat, body: string): Table {
    if slot in rows then rows[slot := rows[slot].(status := status, body := body)] else rows
  }

  function Released(rows: Table, slot: Slot): Table {
    if slot in rows && rows[slot].status == PENDING then rows - {slot} else rows
  }

  function Swept(rows: Table, now: int): Table {
    map slot | slot in rows && !(rows[slot].createdAt < now - TTL) :: rows[slot]
  }

  /** What the row found after a lost insert says to the caller. */
  function Answer(rows: Table, slot: Slot, fingerprint: string): Disposition {
    if slot !in rows then Missing
    else if rows[slot].fingerprint != fingerprint then Mismatch
    else if rows[slot].status == PENDING then InFlight
    else Replay(rows[slot].status, rows[slot].body)
  }

  class IdempotencyStore {
    var rows: Table

    constructor ()
      ensures rows == map[]
    {
      rows := map[];
    }

    /** `claim_idempotency_slot`, run with no other worker in between. */
    method Claim(apiKey: nat, key: string, fingerprint: string, now: int) returns (d: Disposition)
      modifies this
      ensures key == "" ==> d == Passthrough && rows == old(rows)
      ensures key != "" ==> rows == Inserted(old(rows), Slot(apiKey, key), fingerprint, now)
      ensures key != "" ==>
        d == if Slot(apiKey, key) !in old(rows) then Claimed
             else Answer(old(rows), Slot(apiKey, key), fingerprint)
      ensures d != Missing
    {
      if key == "" {
        return Passthrough;
      }
      var slot := Slot(apiKey, key);
      if slot !in rows {
        rows := rows[slot := Row(fingerprint, PENDING, "{}", now)];
        return Claimed;
      }
      var existing := rows[slot];
      if existing.fingerprint != fingerprint {
        return Mismatch;
      }
      if existing.status == PENDING {
        return InFlight;
      }
      return Replay(existing.status, existing.body);
    }

    method Finalize(apiKey: nat, key: string, status: nat, body: string)
      modifies this
      ensures rows == if key == "" then old(rows) else Finalized(old(rows), Slot(apiKey, key), status, body)
    {
      if key == "" {
        return;
      }
      var slot := Slot(apiKey, key);
      if slot in rows {
        rows := rows[slot := rows[slot].(status := status, body := body)];
      }
    }

    method Release(apiKey: nat, key: string)
      modifies this
      ensures rows == if key == "" then old(rows) else Released(old(rows), Slot(apiKey, key))
    {
      if key == "" {
        return;
      }
      var slot := Slot(apiKey, key);
      if slot in rows && rows[slot].status == PENDING {
        rows := rows - {slot};
      }
    }

    method Sweep(now: int)
      modifies this
      ensures rows == Swept(old(rows), now)
    {
      var cutoff := now - TTL;
      var stale := set slot | slot in rows && rows[slot].createdAt < cutoff;
      rows := rows - stale;
    }
  }

  /* ---- The protocol: any number of workers, one statement at a time ---- */

  /** Where one worker is. Only a holder or a worker that just answered still writes the row. */
  datatype Worker =
    | Idle
    | Looking(slot: Slot, fingerprint: string)
    | Holding(slot: Slot, fingerprint: string, since: int)
    | Answered(slot: Slot, fingerprint: string, since: int)

  datatype World = World(rows: Table, workers: map<nat, Worker>, now: int)

  datatype Event =
    | Insert(worker: nat, slot: Slot, fingerprint: string)
    | Lookup(worker: nat)
    | Finalize(worker: nat, status: nat, body: string)
    | Release(worker: nat)
    | Forget(worker: nat)     // the request ends, or its process dies
    | Sweep
    | Tick(seconds: nat)

  function At(w: World, id: nat): Worker {
    if id in w.workers then w.workers[id] else Idle
  }

  predicate Writes(worker: Worker) {
    worker.Holding? || worker.Answered?
  }

  predicate Enabled(w: World, e: Event) {
    match e
    case Insert(id, _, _) => At(w, id).Idle?
    case Lookup(id) => At(w, id).Looking?
    case Finalize(id, status, _) => At(w, id).Holding? && status != PENDING
    case Release(id) => Writes(At(w, id))
    case Forget(_) => true
    case Sweep => true
    case Tick(_) => true
  }

  function Next(w: World, e: Event): World
    requires Enabled(w, e)
  {
    match e
    case Insert(id, slot, fingerprint) =>
      w.(rows := Inserted(w.rows, slot, fingerprint, w.now),
         workers := w.workers[id := if slot in w.rows then Looking(slot, fingerprint)
                                    else Holding(slot, fingerprint, w.now)])
    case Lookup(id) => w.(workers := w.workers[id := Idle])
    case Finalize(id, status, body) =>
      var me := At(w, id);
      w.(rows := Finalized(w.rows, me.slot, status, body),
         workers := w.workers[id := Answered(me.slot, me.fingerprint, me.since)])
    case Release(id) =>
      w.(rows := Released(w.rows, At(w, id).slot), workers := w.workers[id := Idle])
    case Forget(id) => w.(workers := w.workers[id := Idle])
    case Sweep => w.(rows := Swept(w.rows, w.now))
    case Tick(seconds) => w.(now := w.now + seconds)
  }

  const START := World(map[], map[], 0)

  /** A run: the worlds between the events, starting from an empty table. */
  ghost predicate IsRun(worlds: seq<World>, events: seq<Event>) {
    IsRunFrom(START, worlds, events)
  }

  ghost predicate IsRunFrom(start: World, worlds: seq<World>, events: seq<Event>) {
    && |worlds| == |events| + 1
    && worlds[0] == start
    && forall i | 0 <= i < |events| :: Enabled(worlds[i], events[i]) && worlds[i + 1] == Next(worlds[i], events[i])
  }

  /** No worker that may still write its row has held it for longer than the time to live. */
  ghost predicate Timely(w: World) {
    forall id | id in w.workers && Writes(w.workers[id]) :: w.now - w.workers[id].since <= TTL
  }

  /** The one assumption: no claim outlives the 24-hour window at the moment a sweep runs. */
  ghost predicate TimelySweeps(worlds: seq<World>, events: seq<Event>)
    requires |worlds| == |events| + 1
  {
    forall i | 0 <= i < |events| && events[i].Sweep? :: Timely(worlds[i])
  }

  /* ---- The invariant ---- */

  /** Every worker that may still write a row owns it: the row is the one it inserted. */
  ghost predicate OwnsRow(w: World, id: nat)
    requires id in w.workers && Writes(w.workers[id])
  {
    var me := w.workers[id];
    && me.slot in w.rows
    && w.rows[me.slot].fingerprint == me.fingerprint
    && w.rows[me.slot].createdAt == me.since <= w.now
    && (me.Holding? <==> w.rows[me.slot].status == PENDING)
  }

  ghost predicate Safe(w: World) {
    && (forall id | id in w.workers && Writes(w.workers[id]) :: OwnsRow(w, id))
    && (forall i, j | i in w.workers && j in w.workers && w.workers[i].Holding? && w.workers[j].Holding? && i != j ::
          w.workers[i].slot != w.workers[j].slot)
  }

  lemma StepKeepsSafe(w: World, e: Event)
    requires Safe(w) && Enabled(w, e)
    requires e.Sweep? ==> Timely(w)
    ensures Safe(Next(w, e))
  {
    var w' := Next(w, e);
    forall id | id in w'.workers && Writes(w'.workers[id])
      ensures OwnsRow(w', id)
    {
      if id in w.workers && w'.workers[id] == w.workers[id] {
        assert OwnsRow(w, id);
      }
    }
  }

  /** A sweep is exactly as safe as the claims are young. */
  lemma SweepIsSafeIffTimely(w: World)
    requires Safe(w)
    ensures Safe(Next(w, Sweep)) <==> Timely(w)
  {
    if Timely(w) {
      StepKeepsSafe(w, Sweep);
    } else {
      var id :| id in w.workers && Writes(w.workers[id]) && w.now - w.workers[id].since > TTL;
      assert OwnsRow(w, id);
      assert !OwnsRow(Next(w, Sweep), id);
    }
  }

  lemma {:induction false} RunFromKeepsSafe(start: World, worlds: seq<World>, events: seq<Event>, n: nat)
    requires Safe(start) && IsRunFrom(start, worlds, events) && TimelySweeps(worlds, events) && n <= |events|
    ensures Safe(worlds[n])
  {
    if n > 0 {
      RunFromKeepsSafe(start, worlds, events, n - 1);
      StepKeepsSafe(worlds[n - 1], events[n - 1]);
    }
  }

  lemma RunKeepsSafe(worlds: seq<World>, events: seq<Event>, n: nat)
    requires IsRun(worlds, events) && TimelySweeps(worlds, events) && n <= |events|
    ensures Safe(worlds[n])
  {
    RunFromKeepsSafe(START, worlds, events, n);
  }

  /** Main result 1. In every reachable state each slot has at most one claimant, and its row is
      pending under the claimant's fingerprint. */
  lemma OneClaimantPerSlot(worlds: seq<World>, events: seq<Event>, n: nat, i: nat, j: nat)
    requires IsRun(worlds, events) && TimelySweeps(worlds, events) && n <= |events|
    requires At(worlds[n], i).Holding? && At(worlds[n], j).Holding? && At(worlds[n], i).slot == At(worlds[n], j).slot
    ensures i == j
    ensures var me := At(worlds[n], i);
      && me.slot in worlds[n].rows && worlds[n].rows[me.slot].status == PENDING
      && worlds[n].rows[me.slot].fingerprint == me.fingerprint
  {
    RunKeepsSafe(worlds, events, n);
    assert OwnsRow(worlds[n], i);
  }

  /** Main result 2. A finalized response stays as it is until a sweep deletes it, past its
      time to live: no statement of any worker reverts or changes it. */
  lemma FinalizedNeverChanges(worlds: seq<World>, events: seq<Event>, n: nat, slot: Slot)
    requires IsRun(worlds, events) && TimelySweeps(worlds, events) && n < |events|
    requires slot in worlds[n].rows && worlds[n].rows[slot].status != PENDING
    ensures if slot in worlds[n + 1].rows then worlds[n + 1].rows[slot] == worlds[n].rows[slot]
      else events[n].Sweep? && worlds[n].rows[slot].createdAt < worlds[n].now - 24 * 3600
  {
    RunKeepsSafe(worlds, events, n);
    if events[n].Finalize? {
      assert OwnsRow(worlds[n], events[n].worker);
    }
  }

  /* ---- Histories ---- */

  predicate ClaimsSlot(w: World, e: Event, slot: Slot) {
    e.Insert? && e.slot == slot && slot !in w.rows
  }

  /** A row that is gone was deleted, and only a release or a sweep deletes a row. */
  lemma {:induction false} RowsGoByDeletion(worlds: seq<World>, events: seq<Event>, i: nat, j: nat, slot: Slot)
    returns (m: nat)
    requires IsRun(worlds, events) && i < j <= |events|
    requires slot in worlds[i].rows && slot !in worlds[j].rows
    ensures i <= m < j && slot in worlds[m].rows
    ensures forall k | m < k <= j :: slot !in worlds[k].rows
    ensures events[m].Sweep? || events[m].Release?
  {
    m := j - 1;
    if slot !in worlds[j - 1].rows {
      m := RowsGoByDeletion(worlds, events, i, j - 1, slot);
    }
  }

  /** Main result 3, with no assumption on time. Two executions under one key are separated by a
      release or a sweep that deletes the row. */
  lemma ExecutionsAreSeparated(worlds: seq<World>, events: seq<Event>, i: nat, j: nat, slot: Slot)
    returns (m: nat)
    requires IsRun(worlds, events) && i < j < |events|
    requires ClaimsSlot(worlds[i], events[i], slot) && ClaimsSlot(worlds[j], events[j], slot)
    ensures i < m < j && slot in worlds[m].rows && slot !in worlds[m + 1].rows
    ensures events[m].Sweep? || events[m].Release?
  {
    assert slot in worlds[i + 1].rows;
    m := RowsGoByDeletion(worlds, events, i + 1, j, slot);
  }

  /** The claim behind the row that `slot` has in world n: the row has lived since, and only its
      claimer can be holding the slot. */
  ghost predicate ClaimOf(worlds: seq<World>, events: seq<Event>, n: nat, slot: Slot, claim: nat)
    requires IsRun(worlds, events) && n <= |events|
  {
    && claim < n && ClaimsSlot(worlds[claim], events[claim], slot)
    && (forall k | claim < k <= n :: slot in worlds[k].rows)
    && worlds[n].rows[slot].fingerprint == events[claim].fingerprint
    && forall id | id in worlds[n].workers :: worlds[n].workers[id].Holding? && worlds[n].workers[id].slot == slot ==>
         id == events[claim].worker
  }

  lemma OnlyTheClaimerHolds(w: World, e: Event, slot: Slot)
    requires Safe(w) && Enabled(w, e) && slot !in w.rows && slot in Next(w, e).rows
    ensures ClaimsSlot(w, e, slot) && Next(w, e).rows[slot].fingerprint == e.fingerprint
    ensures var workers := Next(w, e).workers;
      forall id | id in workers :: workers[id].Holding? && workers[id].slot == slot ==> id == e.worker
  {
    forall id | id in w.workers && w.workers[id].Holding?
      ensures w.workers[id].slot != slot
    {
      assert OwnsRow(w, id);
    }
  }

  lemma {:induction false} RowHasClaim(worlds: seq<World>, events: seq<Event>, n: nat, slot: Slot) returns (claim: nat)
    requires IsRun(worlds, events) && TimelySweeps(worlds, events) && n <= |events|
    requires slot in worlds[n].rows
    ensures ClaimOf(worlds, events, n, slot, claim)
  {
    RunKeepsSafe(worlds, events, n - 1);
    if slot in worlds[n - 1].rows {
      claim := RowHasClaim(worlds, events, n - 1, slot);
    } else {
      claim := n - 1;
      OnlyTheClaimerHolds(worlds[n - 1], events[n - 1], slot);
    }
  }

  /** The finalize behind a row's response: one statement of its claimer, after the claim. */
  lemma {:induction false} ResponseHasAuthor(worlds: seq<World>, events: seq<Event>, n: nat, slot: Slot)
    returns (claim: nat, answer: nat)
    requires IsRun(worlds, events) && TimelySweeps(worlds, events) && n <= |events|
    requires slot in worlds[n].rows && worlds[n].rows[slot].status != PENDING
    ensures ClaimOf(worlds, events, n, slot, claim) && claim < answer < n
    ensures events[answer]
      == Finalize(events[claim].worker, worlds[n].rows[slot].status, worlds[n].rows[slot].body)
  {
    RunKeepsSafe(worlds, events, n - 1);
    assert slot in worlds[n - 1].rows;
    if worlds[n - 1].rows[slot].status != PENDING {
      FinalizedNeverChanges(worlds, events, n - 1, slot);
      claim, answer := ResponseHasAuthor(worlds, events, n - 1, slot);
      SameClaim(worlds, events, n, slot, claim);
    } else {
      claim := RowHasClaim(worlds, events, n - 1, slot);
      answer := n - 1;
      SameClaim(worlds, events, n, slot, claim);
    }
  }

  lemma SameClaim(worlds: seq<World>, events: seq<Event>, n: nat, slot: Slot, claim: nat)
    requires IsRun(worlds, events) && 0 < n <= |events|
    requires ClaimOf(worlds, events, n - 1, slot, claim) && slot in worlds[n].rows
    ensures ClaimOf(worlds, events, n, slot, claim)
  {
  }

  /** Main result 4. A replay hands out exactly the response the slot's claimer finalized, with
      the row alive ever since that claim, and only for the claimer's fingerprint. */
  lemma ReplayIsTheFirstResponse(worlds: seq<World>, events: seq<Event>, n: nat, d: Disposition)
    returns (claim: nat, answer: nat)
    requires IsRun(worlds, events) && TimelySweeps(worlds, events) && n < |events| && events[n].Lookup?
    requires var me := At(worlds[n], events[n].worker); d == Answer(worlds[n].rows, me.slot, me.fingerprint)
    requires d.Replay?
    ensures var me := At(worlds[n], events[n].worker);
      && ClaimOf(worlds, events, n, me.slot, claim) && claim < answer < n
      && events[claim].fingerprint == me.fingerprint
      && events[answer] == Finalize(events[claim].worker, d.status, d.body)
  {
    var me := At(worlds[n], events[n].worker);
    claim, answer := ResponseHasAuthor(worlds, events, n, me.slot);
  }

  /** A worker that lost the insert can find no row at all: the holder released it in between,
      before the re-fetch. The code then raises instead of answering. */
  lemma LostInsertMayFindNothing() returns (worlds: seq<World>, events: seq<Event>)
    ensures IsRun(worlds, events) && TimelySweeps(worlds, events) && |events| == 3
    ensures At(worlds[3], 2).Looking? && Answer(worlds[3].rows, At(worlds[3], 2).slot, "f") == Missing
  {
    var slot := Slot(0, "k");
    events := [Insert(1, slot, "f"), Insert(2, slot, "f"), Release(1)];
    var w1 := Next(START, events[0]);
    var w2 := Next(w1, events[1]);
    worlds := [START, w1, w2, Next(w2, events[2])];
  }

  /** Event m deletes the row of `slot`, and nobody claims the slot again before event n. */
  ghost predicate DeletedUntil(worlds: seq<World>, events: seq<Event>, m: nat, n: nat, slot: Slot)
    requires m < n < |events| < |worlds|
  {
    && slot in worlds[m].rows && slot !in worlds[m + 1].rows
    && (events[m].Sweep? || events[m].Release?)
    && forall k | m < k < n :: !ClaimsSlot(worlds[k], events[k], slot)
  }

  lemma {:induction false} GoneUntilClaimed(worlds: seq<World>, events: seq<Event>, m: nat, n: nat, slot: Slot)
    requires IsRun(worlds, events) && m < n < |events| && DeletedUntil(worlds, events, m, n, slot)
    ensures slot !in worlds[n].rows
  {
    if m + 1 < n {
      GoneUntilClaimed(worlds, events, m, n - 1, slot);
      assert !ClaimsSlot(worlds[n - 1], events[n - 1], slot);
    }
  }

  /** Exactly when: the lookup after a lost insert finds nothing if and only if a release or a
      sweep deleted the row in between and nobody claimed the slot again before the lookup. */
  lemma MissingIffDeleted(worlds: seq<World>, events: seq<Event>, i: nat, n: nat)
    requires IsRun(worlds, events) && i < n < |events|
    requires events[i].Insert? && events[i].slot in worlds[i].rows && events[n] == Lookup(events[i].worker)
    ensures Answer(worlds[n].rows, events[i].slot, events[i].fingerprint).Missing?
      <==> exists m | i < m < n :: DeletedUntil(worlds, events, m, n, events[i].slot)
  {
    var slot := events[i].slot;
    if Answer(worlds[n].rows, slot, events[i].fingerprint).Missing? {
      assert slot in worlds[i + 1].rows;
      var m := RowsGoByDeletion(worlds, events, i + 1, n, slot);
      forall k | m < k < n
        ensures !ClaimsSlot(worlds[k], events[k], slot)
      {
        assert slot !in worlds[k + 1].rows;
      }
      assert DeletedUntil(worlds, events, m, n, slot);
    }
    forall m | i < m < n && DeletedUntil(worlds, events, m, n, slot)
      ensures slot !in worlds[n].rows
    {
      GoneUntilClaimed(worlds, events, m, n, slot);
    }
  }

  /** Why the assumption is needed: a claim older than a sweep lets its worker overwrite the
      response another worker gave to a different request. */
  lemma LateFinalizeOverwrites() returns (worlds: seq<World>, events: seq<Event>)
    ensures IsRun(worlds, events) && |events| == 6
    ensures var slot := Slot(0, "k");
      && slot in worlds[5].rows && worlds[5].rows[slot] == Row("second", 201, "second", TTL + 1)
      && slot in worlds[6].rows && worlds[6].rows[slot] == Row("second", 201, "first", TTL + 1)
  {
    var slot := Slot(0, "k");
    events := [Insert(1, slot, "first"), Tick(TTL + 1), Sweep, Insert(2, slot, "second"),
               Finalize(2, 201, "second"), Finalize(1, 201, "first")];
    var w1 := Next(START, events[0]);
    var w2 := Next(w1, events[1]);
    var w3 := Next(w2, events[2]);
    assert w3.rows == map[];
    var w4 := Next(w3, events[3]);
    var w5 := Next(w4, events[4]);
    worlds := [START, w1, w2, w3, w4, w5, Next(w5, events[5])];
  }

  /* ---- The assumption is exact ---- */

  ghost predicate NoRivals(w: World) {
    forall i, j | i in w.workers && j in w.workers && w.workers[i].Holding? && w.workers[j].Holding?
                  && w.workers[i].slot == w.workers[j].slot :: i == j
  }

  ghost predicate KeepsResponses(w: World, next: World) {
    forall slot | slot in w.rows && w.rows[slot].status != PENDING && slot in next.rows ::
      next.rows[slot] == w.rows[slot]
  }

  /** What is promised to callers: no slot ever has two claimants, and no response changes. */
  ghost predicate Harmless(worlds: seq<World>) {
    && (forall n | 0 <= n < |worlds| :: NoRivals(worlds[n]))
    && forall n | 0 <= n < |worlds| - 1 :: KeepsResponses(worlds[n], worlds[n + 1])
  }

  lemma StepKeepsResponses(w: World, e: Event)
    requires Safe(w) && Enabled(w, e)
    ensures KeepsResponses(w, Next(w, e))
  {
    if e.Finalize? {
      assert OwnsRow(w, e.worker);
    }
  }

  lemma {:induction false} SomeWorkerIsNew(ids: set<nat>) returns (newcomer: nat)
    ensures forall id | id in ids :: id < newcomer
  {
    newcomer := 0;
    if ids != {} {
      var one :| one in ids;
      var rest := SomeWorkerIsNew(ids - {one});
      newcomer := if one < rest then rest else one + 1;
      assert ids == (ids - {one}) + {one};
    }
  }

  /** A worker that held its claim too long and is swept can still finalize: another worker's
      response is overwritten. */
  lemma LateHolderOverwrites(w: World, id: nat, other: nat) returns (worlds: seq<World>, events: seq<Event>)
    requires Safe(w) && At(w, id).Holding? && w.now - At(w, id).since > TTL && other != id && At(w, other).Idle?
    ensures IsRunFrom(Next(w, Sweep), worlds, events) && |events| == 3
    ensures forall e | e in events :: !e.Sweep?
    ensures !KeepsResponses(worlds[2], worlds[3])
  {
    var slot := At(w, id).slot;
    assert OwnsRow(w, id);
    var w0 := Next(w, Sweep);
    events := [Insert(other, slot, "f"), Finalize(other, 201, "other"), Finalize(id, 201, "late")];
    var w1 := Next(w0, events[0]);
    var w2 := Next(w1, events[1]);
    worlds := [w0, w1, w2, Next(w2, events[2])];
    assert worlds[2].rows[slot].body == "other" && worlds[3].rows[slot].body == "late";
  }

  /** One that has answered can still release: it deletes another worker's claim, and the slot has
      two claimants. */
  lemma LateAnswererMakesRivals(w: World, id: nat, other: nat) returns (worlds: seq<World>, events: seq<Event>)
    requires Safe(w) && At(w, id).Answered? && w.now - At(w, id).since > TTL && other != id && At(w, other).Idle?
    ensures IsRunFrom(Next(w, Sweep), worlds, events) && |events| == 3
    ensures forall e | e in events :: !e.Sweep?
    ensures !NoRivals(worlds[3])
  {
    var slot := At(w, id).slot;
    assert OwnsRow(w, id);
    var w0 := Next(w, Sweep);
    events := [Insert(other, slot, "f"), Release(id), Insert(id, slot, "f")];
    var w1 := Next(w0, events[0]);
    var w2 := Next(w1, events[1]);
    worlds := [w0, w1, w2, Next(w2, events[2])];
    assert worlds[3].workers[id].Holding? && worlds[3].workers[other].Holding?;
  }

  /** Main result 5. The 24 hours are exactly what is needed: a sweep leaves every continuation
      harmless if and only if no claim is older than the time to live when it runs. */
  lemma SweepIsHarmlessIffTimely(w: World)
    requires Safe(w)
    ensures Timely(w) <==>
      forall worlds, events | IsRunFrom(Next(w, Sweep), worlds, events) && TimelySweeps(worlds, events) ::
        Harmless(worlds)
  {
    var start := Next(w, Sweep);
    if Timely(w) {
      StepKeepsSafe(w, Sweep);
      forall worlds, events | IsRunFrom(start, worlds, events) && TimelySweeps(worlds, events)
        ensures Harmless(worlds)
      {
        SafeRunIsHarmless(start, worlds, events);
      }
    } else {
      var id :| id in w.workers && Writes(w.workers[id]) && w.now - w.workers[id].since > TTL;
      var other := SomeWorkerIsNew(w.workers.Keys);
      var worlds, events;
      if w.workers[id].Holding? {
        worlds, events := LateHolderOverwrites(w, id, other);
      } else {
        worlds, events := LateAnswererMakesRivals(w, id, other);
      }
      assert TimelySweeps(worlds, events);
      assert !Harmless(worlds);
    }
  }

  lemma SafeRunIsHarmless(start: World, worlds: seq<World>, events: seq<Event>)
    requires Safe(start) && IsRunFrom(start, worlds, events) && TimelySweeps(worlds, events)
    ensures Harmless(worlds)
  {
    forall n | 0 <= n < |worlds|
      ensures NoRivals(worlds[n]) && (n < |events| ==> KeepsResponses(worlds[n], worlds[n + 1]))
    {
      RunFromKeepsSafe(start, worlds, events, n);
      if n < |events| {
        StepKeepsResponses(worlds[n], events[n]);
      }
    }
  }

  /* ---- What a lookup answers ---- */

  /** Event a finalizes the row of this slot. */
  predicate Finalizes(worlds: seq<World>, events: seq<Event>, a: nat, slot: Slot)
    requires a < |events| < |worlds|
  {
    events[a].Finalize? && Writes(At(worlds[a], events[a].worker)) && At(worlds[a], events[a].worker).slot == slot
  }

  /** A row that has lived since its claim is pending exactly until it is finalized. */
  lemma {:induction false} PendingUntilFinalized(worlds: seq<World>, events: seq<Event>, claim: nat, n: nat, slot: Slot)
    requires IsRun(worlds, events) && claim < n <= |events| && ClaimsSlot(worlds[claim], events[claim], slot)
    requires forall k | claim < k <= n :: slot in worlds[k].rows
    ensures worlds[n].rows[slot].status != PENDING <==> exists a | claim < a < n :: Finalizes(worlds, events, a, slot)
  {
    if claim + 1 < n {
      PendingUntilFinalized(worlds, events, claim, n - 1, slot);
      assert worlds[n].rows[slot].status != PENDING
        <==> worlds[n - 1].rows[slot].status != PENDING || Finalizes(worlds, events, n - 1, slot);
    }
  }

  /** Main result 6. A lookup that finds a row answers for the claim behind it: a mismatch exactly
      when the claim came with another fingerprint; otherwise in flight until the slot is
      finalized, and a replay from then on. */
  lemma LookupAnswersForTheClaim(worlds: seq<World>, events: seq<Event>, n: nat, d: Disposition) returns (claim: nat)
    requires IsRun(worlds, events) && TimelySweeps(worlds, events) && n < |events| && events[n].Lookup?
    requires At(worlds[n], events[n].worker).slot in worlds[n].rows
    requires var me := At(worlds[n], events[n].worker); d == Answer(worlds[n].rows, me.slot, me.fingerprint)
    ensures var me := At(worlds[n], events[n].worker);
      && ClaimOf(worlds, events, n, me.slot, claim)
      && (d == Mismatch <==> events[claim].fingerprint != me.fingerprint)
      && (d == InFlight <==>
          && events[claim].fingerprint == me.fingerprint
          && !exists a | claim < a < n :: Finalizes(worlds, events, a, me.slot))
      && (d.Replay? <==>
          && events[claim].fingerprint == me.fingerprint
          && exists a | claim < a < n :: Finalizes(worlds, events, a, me.slot))
  {
    var me := At(worlds[n], events[n].worker);
    claim := RowHasClaim(worlds, events, n, me.slot);
    PendingUntilFinalized(worlds, events, claim, n, me.slot);
  }
}
