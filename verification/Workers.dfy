/** One worker: internal/jobs/worker.go.  What a handler did and replied is an input. */
module Workers {
  import opened Common
  import opened Utf8
  import opened Jobs
  import JobRuns

  const CLAIM_BATCH_SIZE: nat := 20

  datatype Reply = Nil | Error(message: seq<Byte>)

  /** What one handler run does to the table before it replies: housekeeping handlers reschedule
      themselves at the given instant, all others leave the table alone. */
  datatype HandlerRun = HandlerRun(rearmAt: Option<int>, reply: Reply)

  function AfterHandler(t: Table, kind: Kind, run: HandlerRun, newId: Id): Table {
    if run.rearmAt.Some? then Scheduled(t, newId, JobRuns.ChainInput(kind, run.rearmAt.value)) else t
  }

  /** The row of a claimed job is deleted when its handler replied nil, and failed otherwise; a kind
      nobody registered fails without running anything.  stored is the error text that was kept. */
  function Processed(t: Table, id: Id, kind: Kind, registered: bool, run: HandlerRun, newId: Id, stored: seq<Byte>, now: int): Table {
    if !registered then Failed(t, id, stored, now)
    else if run.reply.Nil? then Completed(AfterHandler(t, kind, run, newId), id)
    else Failed(AfterHandler(t, kind, run, newId), id, stored, now)
  }

  /** What processing a job does, row by row.  After a nil reply of a registered handler its row is gone.  Otherwise the row,
      if it is still there, is unlocked with its error, put off by the backoff while it has budget left and not at all once it
      has none.  A run that did not reschedule itself touches no other row. */
  lemma ProcessedSpelledOut(t: Table, id: Id, kind: Kind, registered: bool, run: HandlerRun, newId: Id, stored: seq<Byte>, now: int)
    requires id != newId
    ensures var t' := Processed(t, id, kind, registered, run, newId, stored, now);
      && (registered && run.reply.Nil? ==> id !in t')
      && (!(registered && run.reply.Nil?) && id in t' ==>
            && id in t && t'[id] == t[id].(lock := None, lastError := Some(stored), runAt := t'[id].runAt)
            && t'[id].runAt == if t[id].attempts < t[id].maxAttempts then now + Backoff(t[id].attempts) else t[id].runAt)
      && (!(registered && run.rearmAt.Some?) ==>
            forall other :: other != id ==> (other in t' <==> other in t) && (other in t' ==> t'[other] == t[other]))
      && (registered && run.rearmAt.Some? ==>
            newId in t' && t'[newId] == Job(kind, Some(Global), run.rearmAt.value, None, 0, 1_000_000, None, None))
  {
  }

  class Worker {
    const jobs: JobTable
    const replica: string
    var handlers: set<Kind>

    constructor (jobs: JobTable, replica: string)
      ensures this.jobs == jobs && this.replica == replica && handlers == {}
    {
      this.jobs := jobs;
      this.replica := replica;
      handlers := {};
    }

    /** Later registrations replace earlier ones, so the registered kinds are a set. */
    method Register(kind: Kind)
      modifies this`handlers
      ensures forall k :: k in handlers <==> k in old(handlers) || k == kind
    {
      handlers := handlers + {kind};
    }

    method Invoke(kind: Kind, run: HandlerRun, newId: Id) returns (reply: Reply)
      requires jobs.Valid() && newId !in jobs.rows
      modifies jobs
      ensures jobs.Valid()
      ensures kind !in handlers ==> jobs.rows == old(jobs.rows) && reply.Error?
      ensures kind in handlers ==> jobs.rows == AfterHandler(old(jobs.rows), kind, run, newId) && reply == run.reply
      ensures kind in handlers && run.rearmAt.None? ==> jobs.rows == old(jobs.rows)
      ensures kind in handlers && run.rearmAt.Some? ==>
        && newId in jobs.rows
        && jobs.rows[newId] == Job(kind, Some(Global), run.rearmAt.value, None, 0, 1_000_000, None, None)
        && forall id :: id != newId && !(id in old(jobs.rows) && old(jobs.rows)[id].InSlot(kind, Some(Global))) ==>
             (id in jobs.rows <==> id in old(jobs.rows)) && (id in jobs.rows ==> jobs.rows[id] == old(jobs.rows)[id])
    {
      if kind !in handlers {
        return Error([]);
      }
      if run.rearmAt.Some? {
        jobs.Schedule(newId, JobRuns.ChainInput(kind, run.rearmAt.value));
      }
      return run.reply;
    }

    method Process(id: Id, kind: Kind, run: HandlerRun, newId: Id, now: int) returns (ghost stored: seq<Byte>)
      requires jobs.Valid() && newId !in jobs.rows
      modifies jobs
      ensures jobs.Valid()
      ensures jobs.rows == Processed(old(jobs.rows), id, kind, kind in handlers, run, newId, stored, now)
    {
      var reply := Invoke(kind, run, newId);
      stored := [];
      if reply.Error? {
        var willRetry, rowFound, kept := jobs.Fail(id, reply.message, now);
        stored := kept;
      } else {
        jobs.Complete(id);
      }
    }

    /** Runs a claimed batch serially.  newIds are the ids drawn for rescheduling. */
    method ProcessAll(batch: seq<Id>, rows: seq<Job>, behaviour: Id -> HandlerRun, newIds: seq<Id>, now: int)
      returns (ghost kept: seq<seq<Byte>>)
      requires jobs.Valid() && |rows| == |batch| <= |newIds|
      requires forall i :: 0 <= i < |batch| ==> batch[i] in jobs.rows && rows[i] == jobs.rows[batch[i]]
      requires NoDuplicates(newIds) && forall id :: id in newIds ==> id !in jobs.rows
      modifies jobs
      ensures jobs.Valid() && |kept| == |batch|
      ensures jobs.rows == ProcessedFirst(old(jobs.rows), batch, handlers, behaviour, newIds, kept, now, |batch|)
    {
      kept := [];
      ghost var claimed := jobs.rows;
      for i := 0 to |batch|
        invariant jobs.Valid() && |kept| == i
        invariant jobs.rows == ProcessedFirst(claimed, batch, handlers, behaviour, newIds, kept, now, i)
      {
        NextIdIsUnused(claimed, batch, handlers, behaviour, newIds, kept, now, i);
        ghost var stored := Process(batch[i], rows[i].kind, behaviour(batch[i]), newIds[i], now);
        OneMoreProcessed(claimed, batch, handlers, behaviour, newIds, kept, stored, now, i);
        kept := kept + [stored];
      }
    }

    /** One poll: claims a batch and runs it. */
    method RunOnce(now: int, skipped: set<Id>, behaviour: Id -> HandlerRun, newIds: seq<Id>)
      returns (count: nat, ghost ids: seq<Id>, ghost kept: seq<seq<Byte>>)
      requires jobs.Valid()
      requires |newIds| == CLAIM_BATCH_SIZE && NoDuplicates(newIds) && forall id :: id in newIds ==> id !in jobs.rows
      modifies jobs
      ensures jobs.Valid()
      ensures ClaimOf(old(jobs.rows), now, CLAIM_BATCH_SIZE, skipped, ids) && count == |ids| == |kept|
      ensures jobs.rows ==
        ProcessedFirst(Stamped(old(jobs.rows), ids, replica, now), ids, handlers, behaviour, newIds, kept, now, |ids|)
    {
      var batch, rows := jobs.ClaimDue(replica, now, CLAIM_BATCH_SIZE, skipped);
      ids := batch;
      kept := ProcessAll(batch, rows, behaviour, newIds, now);
      count := |batch|;
    }
  }

  /** The table after the first n claimed jobs of a batch have been processed. */
  function ProcessedFirst(claimed: Table, ids: seq<Id>, handlers: set<Kind>, behaviour: Id -> HandlerRun,
                          newIds: seq<Id>, kept: seq<seq<Byte>>, now: int, n: nat): Table
    requires n <= |ids| <= |newIds| && n <= |kept|
    requires forall i :: 0 <= i < |ids| ==> ids[i] in claimed
  {
    if n == 0 then claimed
    else
      var kind := claimed[ids[n - 1]].kind;
      Processed(ProcessedFirst(claimed, ids, handlers, behaviour, newIds, kept, now, n - 1),
                ids[n - 1], kind, kind in handlers, behaviour(ids[n - 1]), newIds[n - 1], kept[n - 1], now)
  }

  lemma {:induction false} SameErrorsSameTable(claimed: Table, ids: seq<Id>, handlers: set<Kind>, behaviour: Id -> HandlerRun,
      newIds: seq<Id>, kept: seq<seq<Byte>>, more: seq<seq<Byte>>, now: int, n: nat)
    requires n <= |ids| <= |newIds| && n <= |kept| && kept <= more
    requires forall i :: 0 <= i < |ids| ==> ids[i] in claimed
    ensures ProcessedFirst(claimed, ids, handlers, behaviour, newIds, kept, now, n)
         == ProcessedFirst(claimed, ids, handlers, behaviour, newIds, more, now, n)
  {
    if n > 0 {
      SameErrorsSameTable(claimed, ids, handlers, behaviour, newIds, kept, more, now, n - 1);
    }
  }

  lemma OneMoreProcessed(claimed: Table, ids: seq<Id>, handlers: set<Kind>, behaviour: Id -> HandlerRun,
      newIds: seq<Id>, kept: seq<seq<Byte>>, stored: seq<Byte>, now: int, n: nat)
    requires n < |ids| <= |newIds| && |kept| == n
    requires forall i :: 0 <= i < |ids| ==> ids[i] in claimed
    ensures ProcessedFirst(claimed, ids, handlers, behaviour, newIds, kept + [stored], now, n + 1)
         == Processed(ProcessedFirst(claimed, ids, handlers, behaviour, newIds, kept, now, n), ids[n], claimed[ids[n]].kind,
                      claimed[ids[n]].kind in handlers, behaviour(ids[n]), newIds[n], stored, now)
  {
    SameErrorsSameTable(claimed, ids, handlers, behaviour, newIds, kept, kept + [stored], now, n);
  }

  lemma {:induction false} ProcessedKeys(claimed: Table, ids: seq<Id>, handlers: set<Kind>, behaviour: Id -> HandlerRun,
      newIds: seq<Id>, kept: seq<seq<Byte>>, now: int, n: nat)
    requires n <= |ids| <= |newIds| && n <= |kept|
    requires forall i :: 0 <= i < |ids| ==> ids[i] in claimed
    ensures ProcessedFirst(claimed, ids, handlers, behaviour, newIds, kept, now, n).Keys
         <= claimed.Keys + set i | 0 <= i < n :: newIds[i]
  {
    if n > 0 {
      ProcessedKeys(claimed, ids, handlers, behaviour, newIds, kept, now, n - 1);
    }
  }

  lemma NextIdIsUnused(claimed: Table, ids: seq<Id>, handlers: set<Kind>, behaviour: Id -> HandlerRun,
      newIds: seq<Id>, kept: seq<seq<Byte>>, now: int, n: nat)
    requires n < |ids| <= |newIds| && n <= |kept|
    requires forall i :: 0 <= i < |ids| ==> ids[i] in claimed
    requires NoDuplicates(newIds) && forall id :: id in newIds ==> id !in claimed
    ensures newIds[n] !in ProcessedFirst(claimed, ids, handlers, behaviour, newIds, kept, now, n)
  {
    ProcessedKeys(claimed, ids, handlers, behaviour, newIds, kept, now, n);
  }

  /** What a claimed row can look like when its run is over and it is still there. */
  predicate FailedLeftover(j: Job, registered: bool, run: HandlerRun) {
    j.lock.None? && j.lastError.Some? && (registered ==> run.reply.Error?)
  }

  /** After a batch, every claimed id either is gone or carries an error and is unlocked; an id whose
      registered handler replied nil is gone; and rows outside rooms that were not claimed are untouched. */
  lemma {:induction false} BatchOutcome(claimed: Table, ids: seq<Id>, handlers: set<Kind>, behaviour: Id -> HandlerRun,
      newIds: seq<Id>, kept: seq<seq<Byte>>, now: int, n: nat, id: Id)
    requires n <= |ids| <= |newIds| && n <= |kept|
    requires NoDuplicates(ids) && forall i :: 0 <= i < |ids| ==> ids[i] in claimed
    requires id in claimed && forall i :: 0 <= i < |newIds| ==> newIds[i] !in claimed
    ensures var t := ProcessedFirst(claimed, ids, handlers, behaviour, newIds, kept, now, n);
      if id in ids[..n] then
        id in t ==> FailedLeftover(t[id], claimed[id].kind in handlers, behaviour(id))
      else
        (id in t ==> t[id] == claimed[id]) && (claimed[id].room.None? ==> id in t)
  {
    if n > 0 {
      BatchOutcome(claimed, ids, handlers, behaviour, newIds, kept, now, n - 1, id);
      assert ids[..n] == ids[..n - 1] + [ids[n - 1]];
    }
  }

  // ----- a worker is a run of the machine -----

  /** What the source's handlers do: only housekeeping kinds reschedule themselves, and they reply nil only
      after they have. */
  predicate PlausibleRun(kind: Kind, run: HandlerRun) {
    && (run.rearmAt.Some? ==> Housekeeping(kind))
    && (run.reply.Nil? && Housekeeping(kind) ==> run.rearmAt.Some?)
  }

  /** s leads to s' by one enabled step, or no step at all is taken. */
  ghost predicate StepOrStay(s: JobRuns.State, s': JobRuns.State) {
    s' == s || JobRuns.Next(s, s')
  }

  lemma Takes(s: JobRuns.State, step: JobRuns.Step)
    requires JobRuns.Enabled(s, step)
    ensures StepOrStay(s, JobRuns.Apply(s, step))
  {
  }

  /** Processing one claimed job, undisturbed, is a path of the machine: the handler reschedules itself or not,
      replies, and the row is completed or its failure recorded. */
  lemma ProcessIsAPath(s: JobRuns.State, r: nat, registered: bool, run: HandlerRun, newId: Id, stored: seq<Byte>)
    returns (s1: JobRuns.State, s2: JobRuns.State, s3: JobRuns.State)
    requires r in s.runs && s.runs[r].outcome.Running? && newId !in s.used
    requires PlausibleRun(s.runs[r].kind, run)
    ensures StepOrStay(s, s1) && JobRuns.Next(s1, s2) && JobRuns.Next(s2, s3)
    ensures s3.table == Processed(s.table, s.runs[r].id, s.runs[r].kind, registered, run, newId, stored, s.now)
    ensures s3.runs == s.runs - {r}
  {
    s1 := s;
    if registered && run.rearmAt.Some? {
      var rearm := JobRuns.Rearm(r, newId, run.rearmAt.value);
      Takes(s, rearm);
      s1 := JobRuns.Apply(s, rearm);
    }
    var ok := registered && run.reply.Nil?;
    assert JobRuns.Enabled(s1, JobRuns.Return(r, ok));
    s2 := JobRuns.Apply(s1, JobRuns.Return(r, ok));
    var last := if ok then JobRuns.Finish(r) else JobRuns.RecordFailure(r, stored);
    assert JobRuns.Enabled(s2, last);
    s3 := JobRuns.Apply(s2, last);
  }
}
