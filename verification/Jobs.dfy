/**
  The scheduled_jobs table: internal/jobs/jobs.go, the sweeps of internal/jobs/housekeeping.go and
  the retry gate of internal/admin/handlers.go.  Each statement is a function on the table; the
  class below runs the source's own code against those functions.
 */
module Jobs {
  import opened Common
  import opened Utf8

  type Id = string

  datatype Kind =
    | RoomsPrune | PresenceSweep | RatelimitSweep | DeadletterSweep | SoftdeletePurge
    | MailSend | MailBooking | BookingReminder | OtherKind(name: string)

  /** The kinds whose handlers reschedule themselves. */
  predicate Housekeeping(k: Kind) {
    k.RoomsPrune? || k.PresenceSweep? || k.RatelimitSweep? || k.DeadletterSweep? || k.SoftdeletePurge?
  }

  datatype Room = Global | Room(key: string)

  const HOUSEKEEPING_MAX_ATTEMPTS: int := 1_000_000
  const DEFAULT_MAX_ATTEMPTS: int := 5
  const LOCK_TIMEOUT: int := 5 * MINUTE
  const PAYLOAD_RETENTION: int := 24 * HOUR
  const ROW_RETENTION: int := 30 * DAY
  const MAX_LAST_ERROR: nat := 2000

  datatype Lock = Lock(holder: string, at: int)

  datatype Job = Job(
    kind: Kind,
    room: Option<Room>,
    runAt: int,
    payload: Option<string>,
    attempts: nat,
    maxAttempts: int,
    lock: Option<Lock>,
    lastError: Option<seq<Byte>>)
  {
    predicate Dead() { attempts >= maxAttempts }

    /** May be claimed at instant now: due, budget left, and not locked or locked too long ago. */
    predicate Due(now: int) {
      && runAt <= now
      && !Dead()
      && (lock.None? || lock.value.at < now - LOCK_TIMEOUT)
    }

    /** The unique index on (kind, room_key) would put this row and (k, r) in one slot. */
    predicate InSlot(k: Kind, r: Option<Room>) {
      r.Some? && kind == k && room == r
    }
  }

  type Table = map<Id, Job>

  ghost predicate UniqueSlots(t: Table) {
    forall i, j :: i in t && j in t && i != j ==> !t[i].InSlot(t[j].kind, t[j].room)
  }

  // ----- the statements -----

  datatype Input = Input(kind: Kind, room: Option<Room>, runAt: int, payload: Option<string>, maxAttempts: int)

  function NewRow(in_: Input): Job {
    Job(in_.kind, in_.room, in_.runAt, in_.payload, 0,
        if in_.maxAttempts == 0 then DEFAULT_MAX_ATTEMPTS else in_.maxAttempts, None, None)
  }

  /** Insert, or take over the slot's row under the new id. */
  function Scheduled(t: Table, newId: Id, in_: Input): Table {
    (map id | id in t && !t[id].InSlot(in_.kind, in_.room) :: t[id])[newId := NewRow(in_)]
  }

  predicate SlotTaken(t: Table, k: Kind, r: Option<Room>) {
    exists id :: id in t && t[id].InSlot(k, r)
  }

  function ScheduledIfAbsent(t: Table, newId: Id, in_: Input): Table {
    if SlotTaken(t, in_.kind, in_.room) then t else t[newId := NewRow(in_)]
  }

  function Cancelled(t: Table, k: Kind, r: Room): Table {
    map id | id in t && !t[id].InSlot(k, Some(r)) :: t[id]
  }

  function Stamp(j: Job, replica: string, now: int): Job {
    j.(lock := Some(Lock(replica, now)), attempts := j.attempts + 1)
  }

  function Stamped(t: Table, ids: seq<Id>, replica: string, now: int): Table {
    map id | id in t :: if id in ids then Stamp(t[id], replica, now) else t[id]
  }

  function Completed(t: Table, id: Id): Table {
    t - {id}
  }

  function Pow2(n: nat): nat {
    if n == 0 then 1 else 2 * Pow2(n - 1)
  }

  /** Exponential backoff capped at an hour. */
  function Backoff(attempts: nat): int {
    Min(Pow2(attempts) * MINUTE, HOUR)
  }

  function FailedRow(j: Job, message: seq<Byte>, now: int): Job {
    j.(lock := None, lastError := Some(message), runAt := if j.Dead() then j.runAt else now + Backoff(j.attempts))
  }

  function Failed(t: Table, id: Id, message: seq<Byte>, now: int): Table {
    if id in t then t[id := FailedRow(t[id], message, now)] else t
  }

  function Retried(t: Table, id: Id, now: int): Table {
    if id in t then t[id := t[id].(attempts := 0, lock := None, lastError := None, runAt := now)] else t
  }

  predicate PayloadExpired(j: Job) {
    j.kind.MailSend? && j.payload.None?
  }

  /** What the sweep deletes: dead rows whose last due time is older than the retention. */
  predicate SweptAway(j: Job, now: int) {
    j.Dead() && j.runAt < now - ROW_RETENTION
  }

  /** The dead-letter sweep: forget old dead mail payloads, then delete long-dead rows. */
  function Swept(t: Table, now: int): Table {
    map id | id in t && !SweptAway(t[id], now) ::
      if t[id].kind.MailSend? && t[id].Dead() && t[id].runAt < now - PAYLOAD_RETENTION then t[id].(payload := None) else t[id]
  }

  // ----- what the claim statement may select -----

  ghost predicate Claimable(t: Table, now: int, skipped: set<Id>, id: Id) {
    id in t && t[id].Due(now) && id !in skipped
  }

  /** A legal answer of the claim statement when skipped are the rows other transactions hold: the
      earliest rows first, as many as the limit allows, none twice. */
  ghost predicate ClaimOf(t: Table, now: int, limit: nat, skipped: set<Id>, ids: seq<Id>) {
    && NoDuplicates(ids)
    && |ids| <= limit
    && (forall i :: 0 <= i < |ids| ==> Claimable(t, now, skipped, ids[i]))
    && (forall i, j :: 0 <= i < j < |ids| ==> t[ids[i]].runAt <= t[ids[j]].runAt)
    && (forall id, i :: Claimable(t, now, skipped, id) && id !in ids && 0 <= i < |ids| ==> t[ids[i]].runAt <= t[id].runAt)
    && (|ids| < limit ==> forall id :: Claimable(t, now, skipped, id) ==> id in ids)
  }

  lemma {:induction false} EarliestExists(t: Table, candidates: set<Id>)
    requires candidates != {} && candidates <= t.Keys
    ensures exists c :: c in candidates && forall o :: o in candidates ==> t[c].runAt <= t[o].runAt
    decreases |candidates|
  {
    var x :| x in candidates;
    var rest := candidates - {x};
    assert forall o :: o in candidates ==> o == x || o in rest;
    if rest != {} {
      EarliestExists(t, rest);
      var c :| c in rest && forall o :: o in rest ==> t[c].runAt <= t[o].runAt;
      var m := if t[x].runAt <= t[c].runAt then x else c;
      assert m in candidates && forall o :: o in candidates ==> t[m].runAt <= t[o].runAt;
    }
  }

  method Earliest(t: Table, candidates: set<Id>) returns (next: Id)
    requires candidates != {} && candidates <= t.Keys
    ensures next in candidates && forall o :: o in candidates ==> t[next].runAt <= t[o].runAt
  {
    EarliestExists(t, candidates);
    next :| next in candidates && forall o :: o in candidates ==> t[next].runAt <= t[o].runAt;
  }

  /** The selection half of the claim: repeatedly the earliest row that is left. */
  method SelectDue(t: Table, now: int, limit: nat, skipped: set<Id>) returns (ids: seq<Id>)
    ensures ClaimOf(t, now, limit, skipped, ids)
  {
    ids := [];
    var candidates := set id | id in t && t[id].Due(now) && id !in skipped;
    while |ids| < limit && candidates != {}
      invariant |ids| <= limit && NoDuplicates(ids)
      invariant forall i :: 0 <= i < |ids| ==> Claimable(t, now, skipped, ids[i]) && ids[i] !in candidates
      invariant forall i, j :: 0 <= i < j < |ids| ==> t[ids[i]].runAt <= t[ids[j]].runAt
      invariant forall id :: id in candidates ==> Claimable(t, now, skipped, id)
      invariant forall id :: Claimable(t, now, skipped, id) ==> id in candidates || id in ids
      invariant forall id, i :: id in candidates && 0 <= i < |ids| ==> t[ids[i]].runAt <= t[id].runAt
      decreases candidates
    {
      var next := Earliest(t, candidates);
      ids := ids + [next];
      candidates := candidates - {next};
    }
  }

  /** What a claim does to each row.  The rows it takes were due, had budget left and were unlocked or locked over five minutes
      ago; each is now locked by the replica and has one attempt more, and is otherwise as it was.  A row like that which it
      leaves was passed over only for rows no later than it, as many as were asked for.  No other row changes. */
  lemma ClaimSpelledOut(t: Table, now: int, limit: nat, skipped: set<Id>, ids: seq<Id>, replica: string, id: Id)
    requires ClaimOf(t, now, limit, skipped, ids) && id in t
    ensures var j, t' := t[id], Stamped(t, ids, replica, now);
      var free := id !in skipped && j.runAt <= now && j.attempts < j.maxAttempts && (j.lock.None? || j.lock.value.at < now - 5 * MINUTE);
      && t'.Keys == t.Keys && |ids| <= limit
      && (id in ids ==> free && t'[id] == j.(lock := Some(Lock(replica, now)), attempts := j.attempts + 1))
      && (id !in ids ==> t'[id] == j)
      && (id !in ids && free ==> |ids| == limit && forall i :: 0 <= i < |ids| ==> t[ids[i]].runAt <= j.runAt)
  {
  }

  // ----- error texts -----

  /** Caps an error text without splitting a code point. */
  method TruncateLastError(s: seq<Byte>) returns (t: seq<Byte>)
    ensures |t| <= MAX_LAST_ERROR && t <= s
    ensures |s| <= MAX_LAST_ERROR ==> t == s
    ensures Valid(s) ==> Valid(t)
    ensures Valid(s) && |s| > MAX_LAST_ERROR ==> |t| > MAX_LAST_ERROR - 4
  {
    if |s| <= MAX_LAST_ERROR {
      return s;
    }
    var cut := MAX_LAST_ERROR;
    while cut > 0 && Continuation(s[cut])
      invariant 0 <= cut <= MAX_LAST_ERROR
      invariant forall i: nat :: cut < i <= MAX_LAST_ERROR ==> !Boundary(s, i)
    {
      cut := cut - 1;
    }
    if Valid(s) {
      BoundaryIsNear(s, MAX_LAST_ERROR);
      CutAtBoundary(s, cut);
    }
    t := s[..cut];
  }

  // ----- the table as the program changes it -----

  datatype RetryOutcome = RetryNotFound | RetryConflict | RetryPayloadExpired | RetryDone

  class JobTable {
    var rows: Table

    ghost predicate Valid()
      reads this
    {
      UniqueSlots(rows)
    }

    constructor ()
      ensures Valid() && rows == map[]
    {
      rows := map[];
    }

    method Schedule(newId: Id, in_: Input)
      requires Valid() && newId !in rows
      modifies this
      ensures Valid()
      ensures rows == Scheduled(old(rows), newId, in_)
      ensures newId in rows && rows[newId] == Job(in_.kind, in_.room, in_.runAt, in_.payload, 0,
                                                  if in_.maxAttempts == 0 then 5 else in_.maxAttempts, None, None)
      ensures forall id :: id != newId ==>
        (id in rows <==> id in old(rows) && !(in_.room.Some? && old(rows)[id].kind == in_.kind && old(rows)[id].room == in_.room))
      ensures forall id :: id in rows && id != newId ==> rows[id] == old(rows)[id]
    {
      ScheduledKeepsSlots(rows, newId, in_);
      var row := NewRow(in_);
      if in_.room.Some? && SlotTaken(rows, in_.kind, in_.room) {
        var id :| id in rows && rows[id].InSlot(in_.kind, in_.room);
        rows := rows - {id};
      }
      rows := rows[newId := row];
    }

    /** False when the input names no room: there is no slot to be absent or present. */
    method ScheduleIfAbsent(newId: Id, in_: Input) returns (ok: bool)
      requires Valid() && newId !in rows
      modifies this
      ensures Valid()
      ensures ok <==> in_.room.Some?
      ensures rows == if ok then ScheduledIfAbsent(old(rows), newId, in_) else old(rows)
      ensures (exists id :: id in old(rows) && old(rows)[id].kind == in_.kind && old(rows)[id].room == in_.room) ==> rows == old(rows)
      ensures ok && !(exists id :: id in old(rows) && old(rows)[id].kind == in_.kind && old(rows)[id].room == in_.room) ==>
        rows == old(rows)[newId := Job(in_.kind, in_.room, in_.runAt, in_.payload, 0,
                                       if in_.maxAttempts == 0 then 5 else in_.maxAttempts, None, None)]
    {
      if in_.room.None? {
        return false;
      }
      if !SlotTaken(rows, in_.kind, in_.room) {
        rows := rows[newId := NewRow(in_)];
      }
      ok := true;
    }

    method Cancel(k: Kind, r: Room)
      requires Valid()
      modifies this
      ensures Valid()
      ensures rows == Cancelled(old(rows), k, r)
      ensures forall id :: id in rows <==> id in old(rows) && !(old(rows)[id].kind == k && old(rows)[id].room == Some(r))
      ensures forall id :: id in rows ==> rows[id] == old(rows)[id]
    {
      rows := map id | id in rows && !rows[id].InSlot(k, Some(r)) :: rows[id];
    }

    method ClaimDue(replica: string, now: int, limit: nat, skipped: set<Id>) returns (ids: seq<Id>, claimed: seq<Job>)
      requires Valid()
      modifies this
      ensures Valid()
      ensures ClaimOf(old(rows), now, limit, skipped, ids)
      ensures rows == Stamped(old(rows), ids, replica, now)
      ensures |claimed| == |ids| && forall i :: 0 <= i < |ids| ==> ids[i] in rows && claimed[i] == rows[ids[i]]
    {
      ids := SelectDue(rows, now, limit, skipped);
      rows := map id | id in rows :: if id in ids then Stamp(rows[id], replica, now) else rows[id];
      claimed := [];
      for i := 0 to |ids|
        invariant |claimed| == i
        invariant forall j :: 0 <= j < i ==> claimed[j] == rows[ids[j]]
      {
        claimed := claimed + [rows[ids[i]]];
      }
    }

    method Complete(id: Id)
      requires Valid()
      modifies this
      ensures Valid()
      ensures rows == Completed(old(rows), id)
      ensures forall other :: other in rows <==> other in old(rows) && other != id
      ensures forall other :: other in rows ==> rows[other] == old(rows)[other]
    {
      rows := rows - {id};
    }

    /** willRetry is false both for an exhausted budget and for a row that is already gone; rowFound tells them apart. */
    method Fail(id: Id, message: seq<Byte>, now: int) returns (willRetry: bool, rowFound: bool, stored: seq<Byte>)
      requires Valid()
      modifies this
      ensures Valid()
      ensures rowFound <==> id in old(rows)
      ensures willRetry <==> id in old(rows) && old(rows)[id].attempts < old(rows)[id].maxAttempts
      ensures rows == Failed(old(rows), id, stored, now)
      ensures rows.Keys == old(rows).Keys
      ensures forall other :: other in rows && other != id ==> rows[other] == old(rows)[other]
      ensures rowFound ==> rows[id] == old(rows)[id].(lock := None, lastError := Some(stored), runAt := rows[id].runAt)
      ensures rowFound && !willRetry ==> rows[id].runAt == old(rows)[id].runAt
      ensures willRetry ==> forall t :: rows[id].Due(t) <==> now + Backoff(old(rows)[id].attempts) <= t
      ensures willRetry ==> forall t :: rows[id].Due(t) ==> now + MINUTE <= t
      ensures stored <= message && |stored| <= MAX_LAST_ERROR && (Utf8.Valid(message) ==> Utf8.Valid(stored))
      ensures |message| <= MAX_LAST_ERROR ==> stored == message
      ensures Utf8.Valid(message) && |message| > MAX_LAST_ERROR ==> |stored| > MAX_LAST_ERROR - 4
    {
      stored := TruncateLastError(message);
      if id !in rows {
        return false, false, stored;
      }
      var j := rows[id];
      BackoffIsBounded(j.attempts);
      var runAt := j.runAt;
      if j.attempts < j.maxAttempts {
        runAt := now + Backoff(j.attempts);
      }
      rows := rows[id := j.(lock := None, lastError := Some(stored), runAt := runAt)];
      return j.attempts < j.maxAttempts, true, stored;
    }

    /** The console's retry: only a dead row that still has what its handler needs. */
    method RetryFromConsole(id: Id, now: int) returns (outcome: RetryOutcome)
      requires Valid()
      modifies this
      ensures Valid()
      ensures outcome.RetryNotFound? <==> id !in old(rows)
      ensures outcome.RetryConflict? <==> id in old(rows) && old(rows)[id].attempts < old(rows)[id].maxAttempts
      ensures outcome.RetryPayloadExpired? <==> id in old(rows) && old(rows)[id].Dead() && PayloadExpired(old(rows)[id])
      ensures rows == if outcome.RetryDone? then Retried(old(rows), id, now) else old(rows)
      ensures outcome.RetryPayloadExpired? ==> old(rows)[id].kind.MailSend? && old(rows)[id].payload.None?
      ensures outcome.RetryDone? ==>
        && rows == old(rows)[id := old(rows)[id].(attempts := 0, lock := None, lastError := None, runAt := now)]
        && (rows[id].maxAttempts > 0 ==> forall t :: rows[id].Due(t) <==> now <= t)
    {
      if id !in rows {
        return RetryNotFound;
      }
      if rows[id].attempts < rows[id].maxAttempts {
        return RetryConflict;
      }
      if PayloadExpired(rows[id]) {
        return RetryPayloadExpired;
      }
      rows := rows[id := rows[id].(attempts := 0, lock := None, lastError := None, runAt := now)];
      return RetryDone;
    }

    /** The sweep's first statement. */
    method ForgetPayloads(now: int)
      requires Valid()
      modifies this
      ensures Valid() && rows.Keys == old(rows).Keys
      ensures forall id :: id in rows ==>
        rows[id] == if old(rows)[id].kind.MailSend? && old(rows)[id].attempts >= old(rows)[id].maxAttempts && old(rows)[id].runAt < now - DAY
                    then old(rows)[id].(payload := None) else old(rows)[id]
    {
      ghost var was := rows;
      rows := map id | id in rows ::
        if rows[id].kind.MailSend? && rows[id].Dead() && rows[id].payload.Some? && rows[id].runAt < now - PAYLOAD_RETENTION
        then rows[id].(payload := None) else rows[id];
      SameSlotsStayUnique(was, rows);
    }

    /** Its second. */
    method DeleteLongDead(now: int)
      requires Valid()
      modifies this
      ensures Valid()
      ensures forall id :: id in rows <==>
        id in old(rows) && !(old(rows)[id].attempts >= old(rows)[id].maxAttempts && old(rows)[id].runAt < now - 30 * DAY)
      ensures forall id :: id in rows ==> rows[id] == old(rows)[id]
    {
      ghost var was := rows;
      rows := map id | id in rows && !(rows[id].Dead() && rows[id].runAt < now - ROW_RETENTION) :: rows[id];
      SameSlotsStayUnique(was, rows);
    }

    method SweepDeadLetters(now: int)
      requires Valid()
      modifies this
      ensures Valid()
      ensures rows == Swept(old(rows), now)
      ensures forall id :: id in rows <==>
        id in old(rows) && !(old(rows)[id].attempts >= old(rows)[id].maxAttempts && old(rows)[id].runAt < now - 30 * DAY)
      ensures forall id :: id in rows ==>
        rows[id] == if old(rows)[id].kind.MailSend? && old(rows)[id].attempts >= old(rows)[id].maxAttempts && old(rows)[id].runAt < now - DAY
                    then old(rows)[id].(payload := None) else old(rows)[id]
    {
      ForgetPayloads(now);
      DeleteLongDead(now);
    }
  }

  // ----- what the statements keep -----

  /** Rows may be gone or changed, but those that are left keep their kind and room. */
  predicate SameSlots(t: Table, t': Table) {
    forall id :: id in t' ==> id in t && t'[id].kind == t[id].kind && t'[id].room == t[id].room
  }

  lemma SameSlotsStayUnique(t: Table, t': Table)
    requires UniqueSlots(t) && SameSlots(t, t')
    ensures UniqueSlots(t')
  {
    forall i, j | i in t' && j in t' && i != j ensures !t'[i].InSlot(t'[j].kind, t'[j].room) {
      assert !t[i].InSlot(t[j].kind, t[j].room);
    }
  }

  lemma ScheduledKeepsSlots(t: Table, newId: Id, in_: Input)
    requires UniqueSlots(t) && newId !in t
    ensures UniqueSlots(Scheduled(t, newId, in_))
  {
  }

  /** Scheduling leaves exactly one row in a room's slot: the new one, under the new id. */
  lemma ScheduledOwnsItsSlot(t: Table, newId: Id, in_: Input, id: Id)
    requires UniqueSlots(t) && newId !in t && in_.room.Some?
    ensures id in Scheduled(t, newId, in_) && Scheduled(t, newId, in_)[id].InSlot(in_.kind, in_.room) <==> id == newId
    ensures id != newId && !(id in t && t[id].InSlot(in_.kind, in_.room)) ==>
      (id in Scheduled(t, newId, in_) <==> id in t) && (id in t ==> Scheduled(t, newId, in_)[id] == t[id])
  {
  }

  /** The retry budget and the lock are the only way a row becomes unclaimable before its time. */
  lemma {:induction false} BackoffIsBounded(attempts: nat)
    ensures MINUTE <= Backoff(attempts) <= HOUR
    ensures Backoff(0) == MINUTE
    ensures attempts >= 6 ==> Backoff(attempts) == HOUR
    ensures attempts < 6 ==> Backoff(attempts + 1) == Min(2 * Backoff(attempts), HOUR)
  {
    Pow2AtLeast(attempts);
  }

  lemma {:induction false} Pow2AtLeast(n: nat)
    ensures Pow2(n) >= 1
    ensures n >= 6 ==> Pow2(n) >= 64
    ensures n < 6 ==> Pow2(n) <= 32
  {
    if n > 0 {
      Pow2AtLeast(n - 1);
    }
    if n == 6 {
      assert Pow2(6) == 2 * Pow2(5) == 4 * Pow2(4) == 8 * Pow2(3) == 16 * Pow2(2) == 32 * Pow2(1) == 64 * Pow2(0);
    } else if n < 6 {
      assert Pow2(5) == 2 * Pow2(4) == 4 * Pow2(3) == 8 * Pow2(2) == 16 * Pow2(1) == 32 * Pow2(0);
    }
  }
}
