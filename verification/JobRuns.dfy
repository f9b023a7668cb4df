/**
  Any number of workers on one scheduled_jobs table: internal/jobs/worker.go and the housekeeping
  chains of internal/jobs/housekeeping.go as a state machine.

  A worker claims rows, runs a handler for each and then completes or fails the row it claimed;
  between any two of these steps anything else may happen, including the same row being claimed
  again once its lock is five minutes old.  A batch claim is a sequence of single claims at one
  instant.  Crashes, lost replies and failures to record a failure are runs that simply end.
 */
module JobRuns {
  import opened Common
  import opened Utf8
  import opened Jobs

  /** One handler run of a claimed row.  claim is the place of its claim in the log; rearmed: this run has
      rescheduled its own kind.  A run is over once its row is completed or its failure recorded. */
  datatype Run = Run(id: Id, kind: Kind, claim: nat, rearmed: bool, outcome: Outcome)

  datatype Outcome = Running | ReturnedNil | ReturnedError

  datatype Event = Claimed(id: Id, at: int) | HandlerOk(id: Id) | FailRecorded(id: Id) | RetryRecorded(id: Id)

  /** used are the ids ever drawn; log is what happened so far, oldest first. */
  datatype State = State(table: Table, now: int, used: set<Id>, runs: map<nat, Run>, log: seq<Event>)

  datatype Step =
    | Tick(by_: nat)
    | Enqueue(newId: Id, in_: Input)
    | CancelRoom(kind: Kind, room: Room)
    | Seed(newId: Id, kind: Kind, runAt: int)
    | Claim(id: Id, replica: string, run: nat)
    | Rearm(run: nat, newId: Id, runAt: int)
    | Return(run: nat, ok: bool)
    | Finish(run: nat)
    | RecordFailure(run: nat, message: seq<Byte>)
    | Crash(run: nat)
    | Retry(id: Id)
    | Sweep

  function ChainInput(kind: Kind, runAt: int): Input {
    Input(kind, Some(Global), runAt, None, HOUSEKEEPING_MAX_ATTEMPTS)
  }

  predicate Enabled(s: State, step: Step) {
    match step
    case Tick(_) => true
    case Enqueue(newId, in_) => newId !in s.used && !Housekeeping(in_.kind)
    case CancelRoom(kind, _) => !Housekeeping(kind)
    case Seed(newId, kind, _) => newId !in s.used && Housekeeping(kind)
    case Claim(id, _, run) => id in s.table && s.table[id].Due(s.now) && run !in s.runs
    case Rearm(run, newId, _) =>
      newId !in s.used && run in s.runs && s.runs[run].outcome.Running? && Housekeeping(s.runs[run].kind)
    // A housekeeping handler returns nil only after it has rescheduled itself.
    case Return(run, ok) =>
      run in s.runs && s.runs[run].outcome.Running? && (ok && Housekeeping(s.runs[run].kind) ==> s.runs[run].rearmed)
    case Finish(run) => run in s.runs && s.runs[run].outcome.ReturnedNil?
    case RecordFailure(run, _) => run in s.runs && s.runs[run].outcome.ReturnedError?
    case Crash(run) => run in s.runs
    case Retry(id) => id in s.table && s.table[id].Dead() && !PayloadExpired(s.table[id])
    case Sweep => true
  }

  function Apply(s: State, step: Step): State
    requires Enabled(s, step)
  {
    match step
    case Tick(d) => s.(now := s.now + d)
    case Enqueue(newId, in_) => s.(table := Scheduled(s.table, newId, in_), used := s.used + {newId})
    case CancelRoom(kind, room) => s.(table := Cancelled(s.table, kind, room))
    case Seed(newId, kind, runAt) =>
      s.(table := ScheduledIfAbsent(s.table, newId, ChainInput(kind, runAt)), used := s.used + {newId})
    case Claim(id, replica, run) =>
      s.(table := Stamped(s.table, [id], replica, s.now),
         runs := s.runs[run := Run(id, s.table[id].kind, |s.log|, false, Running)],
         log := s.log + [Claimed(id, s.now)])
    case Rearm(run, newId, runAt) =>
      s.(table := Scheduled(s.table, newId, ChainInput(s.runs[run].kind, runAt)),
         used := s.used + {newId},
         runs := s.runs[run := s.runs[run].(rearmed := true)])
    case Return(run, ok) =>
      s.(runs := s.runs[run := s.runs[run].(outcome := if ok then ReturnedNil else ReturnedError)],
         log := if ok then s.log + [HandlerOk(s.runs[run].id)] else s.log)
    case Finish(run) => s.(table := Completed(s.table, s.runs[run].id), runs := s.runs - {run})
    case RecordFailure(run, message) =>
      s.(table := Failed(s.table, s.runs[run].id, message, s.now),
         runs := s.runs - {run},
         log := s.log + [FailRecorded(s.runs[run].id)])
    case Crash(run) => s.(runs := s.runs - {run})
    case Retry(id) => s.(table := Retried(s.table, id, s.now), log := s.log + [RetryRecorded(id)])
    case Sweep => s.(table := Swept(s.table, s.now))
  }

  predicate Init(s: State) {
    s.table == map[] && s.used == {} && s.runs == map[] && s.log == []
  }

  ghost predicate Next(s: State, s': State) {
    exists step :: Enabled(s, step) && s' == Apply(s, step)
  }

  /** Every state of a run of the system, in order. */
  ghost predicate Behavior(states: seq<State>) {
    && states != []
    && Init(states[0])
    && forall i :: 0 <= i < |states| - 1 ==> Next(states[i], states[i + 1])
  }

  // ----- the history of one row, read off the log -----

  /** Claims of id since its last retry. */
  function ClaimsSinceRetry(log: seq<Event>, id: Id): nat {
    if log == [] then 0
    else
      var e, before := log[|log| - 1], ClaimsSinceRetry(log[..|log| - 1], id);
      if e == RetryRecorded(id) then 0
      else if e.Claimed? && e.id == id then before + 1
      else before
  }

  /** The instant of the claim of id that no failure or retry has released yet. */
  function OpenClaim(log: seq<Event>, id: Id): Option<int> {
    if log == [] then None
    else
      var e := log[|log| - 1];
      if Releases(e, id) then None
      else if e.Claimed? && e.id == id then Some(e.at)
      else OpenClaim(log[..|log| - 1], id)
  }

  predicate Releases(e: Event, id: Id) {
    e == FailRecorded(id) || e == RetryRecorded(id)
  }

  /** Two claims of one id, the second at most five minutes after the first. */
  predicate CloseClaims(log: seq<Event>, i: int, j: int)
    requires 0 <= i < |log| && 0 <= j < |log|
  {
    && log[i].Claimed? && log[j].Claimed? && log[i].id == log[j].id
    && log[j].at <= log[i].at + LOCK_TIMEOUT
  }

  /** Between two close claims of one id lies a recorded failure or retry of it. */
  ghost predicate ClaimsAreSpaced(log: seq<Event>) {
    forall i, j :: 0 <= i < j < |log| && CloseClaims(log, i, j) ==> exists k :: i < k < j && Releases(log[k], log[i].id)
  }

  ghost predicate ClaimTimesAscend(log: seq<Event>, now: int) {
    && (forall i, j :: 0 <= i < j < |log| && log[i].Claimed? && log[j].Claimed? ==> log[i].at <= log[j].at)
    && (forall i :: 0 <= i < |log| && log[i].Claimed? ==> log[i].at <= now)
  }

  // ----- the invariant -----

  ghost predicate IdsAreDrawn(s: State) {
    && s.table.Keys <= s.used
    && (forall r :: r in s.runs ==> s.runs[r].id in s.used)
    && (forall e :: e in s.log ==> e.id in s.used)
  }

  /** Rows of a housekeeping kind sit in that kind's one slot and have the enormous budget. */
  ghost predicate ChainsAreSingletons(s: State) {
    forall id :: id in s.table && Housekeeping(s.table[id].kind) ==>
      s.table[id].room == Some(Global) && s.table[id].maxAttempts == HOUSEKEEPING_MAX_ATTEMPTS
  }

  ghost predicate RunsMatchRows(s: State) {
    forall r :: r in s.runs ==> RunMatchesRow(s, s.runs[r])
  }

  ghost predicate RunMatchesRow(s: State, run: Run) {
    && (run.id in s.table ==> s.table[run.id].kind == run.kind)
    && (run.rearmed ==> run.id !in s.table)
    && (run.outcome.ReturnedNil? ==> HandlerOk(run.id) in s.log)
    && (run.outcome.ReturnedNil? && Housekeeping(run.kind) ==> run.rearmed)
  }

  /** Every run stems from a claim of its row, and no two runs from the same. */
  ghost predicate RunsMatchClaims(s: State) {
    && (forall r :: r in s.runs ==> IsClaim(s.log, s.runs[r].claim, s.runs[r].id))
    && forall a, b :: a in s.runs && b in s.runs && s.runs[a].claim == s.runs[b].claim ==> a == b
  }

  predicate IsClaim(log: seq<Event>, c: nat, id: Id) {
    c < |log| && log[c].Claimed? && log[c].id == id
  }

  ghost predicate AttemptsMatchLog(s: State) {
    forall id :: id in s.table ==> AttemptsOf(s.table[id], s.log, id)
  }

  ghost predicate AttemptsOf(j: Job, log: seq<Event>, id: Id) {
    j.attempts == ClaimsSinceRetry(log, id) && (j.attempts <= j.maxAttempts || j.attempts == 0)
  }

  ghost predicate LocksMatchLog(s: State) {
    forall id :: id in s.table ==> LockOf(s.table[id], s.log, id)
  }

  ghost predicate LockOf(j: Job, log: seq<Event>, id: Id) {
    && j.lock.Some? == OpenClaim(log, id).Some?
    && (j.lock.Some? ==> j.lock.value.at == OpenClaim(log, id).value)
  }

  ghost predicate Inv(s: State) {
    && UniqueSlots(s.table)
    && IdsAreDrawn(s)
    && ChainsAreSingletons(s)
    && RunsMatchRows(s)
    && RunsMatchClaims(s)
    && AttemptsMatchLog(s)
    && LocksMatchLog(s)
    && ClaimTimesAscend(s.log, s.now)
    && ClaimsAreSpaced(s.log)
  }

  lemma {:induction false} UnusedIdHasNoHistory(log: seq<Event>, id: Id)
    requires forall e :: e in log ==> e.id != id
    ensures ClaimsSinceRetry(log, id) == 0 && OpenClaim(log, id) == None
  {
    if log != [] {
      assert log[|log| - 1] in log;
      UnusedIdHasNoHistory(log[..|log| - 1], id);
    }
  }

  lemma LogStep(log: seq<Event>, e: Event, id: Id)
    ensures ClaimsSinceRetry(log + [e], id) ==
      if e == RetryRecorded(id) then 0 else ClaimsSinceRetry(log, id) + (if e.Claimed? && e.id == id then 1 else 0)
    ensures OpenClaim(log + [e], id) ==
      if Releases(e, id) then None
      else if e.Claimed? && e.id == id then Some(e.at) else OpenClaim(log, id)
  {
    assert (log + [e])[..|log|] == log;
  }

  // ----- every step keeps the invariant -----

  /** The one event that a step may log. */
  function Logged(s: State, step: Step): Option<Event>
    requires Enabled(s, step)
  {
    match step
    case Claim(id, _, _) => Some(Claimed(id, s.now))
    case Return(run, ok) => if ok then Some(HandlerOk(s.runs[run].id)) else None
    case RecordFailure(run, _) => Some(FailRecorded(s.runs[run].id))
    case Retry(id) => Some(RetryRecorded(id))
    case _ => None
  }

  lemma LogGrows(s: State, step: Step)
    requires Enabled(s, step)
    ensures Apply(s, step).log == if Logged(s, step).Some? then s.log + [Logged(s, step).value] else s.log
  {
  }

  lemma SeedKeepsSlots(t: Table, newId: Id, in_: Input)
    requires UniqueSlots(t) && newId !in t
    ensures UniqueSlots(ScheduledIfAbsent(t, newId, in_))
  {
  }

  lemma StepKeepsSlots(s: State, step: Step)
    requires UniqueSlots(s.table) && IdsAreDrawn(s) && Enabled(s, step)
    ensures UniqueSlots(Apply(s, step).table)
  {
    match step
    case Enqueue(newId, in_) => ScheduledKeepsSlots(s.table, newId, in_);
    case Rearm(run, newId, runAt) => ScheduledKeepsSlots(s.table, newId, ChainInput(s.runs[run].kind, runAt));
    case Seed(newId, kind, runAt) => SeedKeepsSlots(s.table, newId, ChainInput(kind, runAt));
    case _ => SameSlotsStayUnique(s.table, Apply(s, step).table);
  }

  lemma StepKeepsIds(s: State, step: Step)
    requires IdsAreDrawn(s) && Enabled(s, step)
    ensures IdsAreDrawn(Apply(s, step))
  {
  }

  lemma StepKeepsChains(s: State, step: Step)
    requires ChainsAreSingletons(s) && Enabled(s, step)
    ensures ChainsAreSingletons(Apply(s, step))
  {
  }

  /** A run that has rescheduled its kind has removed the very row it was claimed on. */
  lemma RearmingLosesTheClaimedId(s: State, step: Step)
    requires Inv(s) && Enabled(s, step) && step.Rearm?
    ensures s.runs[step.run].id !in Apply(s, step).table
  {
    var id := s.runs[step.run].id;
    if id in s.table {
      assert s.table[id].InSlot(s.runs[step.run].kind, Some(Global));
    }
  }

  /** A row under an id that was drawn before was there before, with its kind. */
  lemma OldRowsKeepTheirKind(s: State, step: Step, id: Id)
    requires IdsAreDrawn(s) && Enabled(s, step) && id in s.used && id in Apply(s, step).table
    ensures id in s.table && Apply(s, step).table[id].kind == s.table[id].kind
  {
  }

  lemma RunMoves(s: State, step: Step, r: nat)
    requires Enabled(s, step) && r in s.runs && r in Apply(s, step).runs
    ensures var run, run' := s.runs[r], Apply(s, step).runs[r];
      && run'.id == run.id && run'.kind == run.kind && (run.rearmed ==> run'.rearmed)
      && (run'.rearmed ==> run.rearmed || (step.Rearm? && step.run == r))
      && (run'.outcome.ReturnedNil? ==> run.outcome.ReturnedNil? || (step.Return? && step.run == r && step.ok))
  {
  }

  lemma RunStaysMatched(s: State, step: Step, r: nat)
    requires Inv(s) && Enabled(s, step) && r in s.runs && r in Apply(s, step).runs
    ensures RunMatchesRow(Apply(s, step), Apply(s, step).runs[r])
  {
    assert RunMatchesRow(s, s.runs[r]);
    RunMoves(s, step, r);
    if step.Rearm? {
      RearmingLosesTheClaimedId(s, step);
    }
    if s.runs[r].id in Apply(s, step).table {
      OldRowsKeepTheirKind(s, step, s.runs[r].id);
    }
    LogGrows(s, step);
  }

  lemma StepKeepsRuns(s: State, step: Step)
    requires Inv(s) && Enabled(s, step)
    ensures RunsMatchRows(Apply(s, step))
  {
    var s' := Apply(s, step);
    forall r | r in s'.runs ensures RunMatchesRow(s', s'.runs[r]) {
      if r in s.runs {
        RunStaysMatched(s, step, r);
      }
    }
  }

  lemma StepKeepsClaims(s: State, step: Step)
    requires RunsMatchClaims(s) && Enabled(s, step)
    ensures RunsMatchClaims(Apply(s, step))
  {
    var log' := Apply(s, step).log;
    forall c: nat, id | IsClaim(s.log, c, id) ensures IsClaim(log', c, id) {}
  }

  /** A row that the step inserts has no history yet. */
  lemma NewRowHasNoHistory(s: State, step: Step, id: Id)
    requires IdsAreDrawn(s) && Enabled(s, step) && id in Apply(s, step).table && id !in s.table
    ensures AttemptsOf(Apply(s, step).table[id], Apply(s, step).log, id)
    ensures LockOf(Apply(s, step).table[id], Apply(s, step).log, id)
  {
    assert id !in s.used && Apply(s, step).log == s.log;
    UnusedIdHasNoHistory(s.log, id);
  }

  /** The attempts and the lock of a row move as the entry that was logged says. */
  predicate Follows(j: Job, j': Job, logged: Option<Event>, id: Id) {
    && (j'.attempts <= j'.maxAttempts || j'.attempts == 0)
    && j'.attempts == (if logged == Some(RetryRecorded(id)) then 0 else j.attempts + (if LogsClaim(logged, id) then 1 else 0))
    && (if logged.Some? && Releases(logged.value, id) then j'.lock.None?
        else if LogsClaim(logged, id) then j'.lock.Some? && j'.lock.value.at == logged.value.at
        else j'.lock == j.lock)
  }

  predicate LogsClaim(logged: Option<Event>, id: Id) {
    logged.Some? && logged.value.Claimed? && logged.value.id == id
  }

  lemma StepFollowsLog(s: State, step: Step, id: Id)
    requires IdsAreDrawn(s) && Enabled(s, step) && id in s.table && id in Apply(s, step).table
    requires s.table[id].attempts <= s.table[id].maxAttempts || s.table[id].attempts == 0
    ensures Follows(s.table[id], Apply(s, step).table[id], Logged(s, step), id)
  {
  }

  lemma FollowingStaysMatched(j: Job, j': Job, log: seq<Event>, logged: Option<Event>, id: Id)
    requires AttemptsOf(j, log, id) && LockOf(j, log, id) && Follows(j, j', logged, id)
    ensures var log' := if logged.Some? then log + [logged.value] else log; AttemptsOf(j', log', id) && LockOf(j', log', id)
  {
    if logged.Some? {
      LogStep(log, logged.value, id);
    }
  }

  lemma StepKeepsAttempts(s: State, step: Step)
    requires Inv(s) && Enabled(s, step)
    ensures AttemptsMatchLog(Apply(s, step)) && LocksMatchLog(Apply(s, step))
  {
    forall id | id in Apply(s, step).table
      ensures AttemptsOf(Apply(s, step).table[id], Apply(s, step).log, id)
      ensures LockOf(Apply(s, step).table[id], Apply(s, step).log, id)
    {
      if id in s.table {
        assert AttemptsOf(s.table[id], s.log, id) && LockOf(s.table[id], s.log, id);
        StepFollowsLog(s, step, id);
        FollowingStaysMatched(s.table[id], Apply(s, step).table[id], s.log, Logged(s, step), id);
        LogGrows(s, step);
      } else {
        NewRowHasNoHistory(s, step, id);
      }
    }
  }

  /** Nothing released the claim at i, so a claim at least as recent is still open. */
  lemma {:induction false} UnreleasedClaimIsOpen(log: seq<Event>, now: int, i: nat)
    requires ClaimTimesAscend(log, now) && i < |log| && log[i].Claimed?
    requires forall k :: i < k < |log| ==> !Releases(log[k], log[i].id)
    ensures OpenClaim(log, log[i].id).Some? && log[i].at <= OpenClaim(log, log[i].id).value
  {
    if i < |log| - 1 {
      UnreleasedClaimIsOpen(log[..|log| - 1], now, i);
    }
  }

  lemma StepKeepsSpacing(s: State, step: Step)
    requires Inv(s) && Enabled(s, step)
    ensures ClaimTimesAscend(Apply(s, step).log, Apply(s, step).now) && ClaimsAreSpaced(Apply(s, step).log)
  {
    var log, log' := s.log, Apply(s, step).log;
    forall i, j | 0 <= i < j < |log'| && CloseClaims(log', i, j)
      ensures exists k :: i < k < j && Releases(log'[k], log'[i].id)
    {
      if j < |log| {
        assert CloseClaims(log, i, j);
        var k :| i < k < j && Releases(log[k], log[i].id);
        assert Releases(log'[k], log'[i].id);
      } else if forall k :: i < k < |log| ==> !Releases(log[k], log[i].id) {
        UnreleasedClaimIsOpen(log, s.now, i);
        assert false;
      } else {
        var k :| i < k < |log| && Releases(log[k], log[i].id);
        assert Releases(log'[k], log'[i].id);
      }
    }
  }

  lemma StepKeepsInvariant(s: State, step: Step)
    requires Inv(s) && Enabled(s, step)
    ensures Inv(Apply(s, step))
  {
    StepKeepsSlots(s, step);
    StepKeepsIds(s, step);
    StepKeepsChains(s, step);
    StepKeepsRuns(s, step);
    StepKeepsClaims(s, step);
    StepKeepsAttempts(s, step);
    StepKeepsSpacing(s, step);
  }

  lemma {:induction false} InvariantHolds(states: seq<State>, i: nat)
    requires Behavior(states) && i < |states|
    ensures Inv(states[i])
  {
    if i > 0 {
      InvariantHolds(states, i - 1);
      assert Next(states[i - 1], states[i]);
      var step :| Enabled(states[i - 1], step) && states[i] == Apply(states[i - 1], step);
      StepKeepsInvariant(states[i - 1], step);
    }
  }

  // ----- housekeeping chains -----

  predicate HasChain(t: Table, kind: Kind) {
    exists id :: id in t && t[id].kind == kind
  }

  /** No row of this kind has used up its million claims. */
  predicate BudgetLeft(t: Table, kind: Kind) {
    forall id :: id in t && t[id].kind == kind ==> !t[id].Dead()
  }

  ghost predicate ExactlyOneRow(t: Table, kind: Kind) {
    exists id :: id in t && t[id].kind == kind && forall other :: other in t && t[other].kind == kind ==> other == id
  }

  lemma ChainIsUnique(s: State, kind: Kind)
    requires Inv(s) && Housekeeping(kind) && HasChain(s.table, kind)
    ensures ExactlyOneRow(s.table, kind)
  {
    var id :| id in s.table && s.table[id].kind == kind;
    forall other | other in s.table && s.table[other].kind == kind ensures other == id {
      assert s.table[other].InSlot(kind, Some(Global)) && s.table[id].InSlot(kind, Some(Global));
    }
  }

  lemma StepKeepsChain(s: State, step: Step, kind: Kind)
    requires Inv(s) && Enabled(s, step) && Housekeeping(kind) && HasChain(s.table, kind)
    requires step.Sweep? ==> exists id :: id in s.table && s.table[id].kind == kind && !SweptAway(s.table[id], s.now)
    ensures HasChain(Apply(s, step).table, kind)
  {
    var s' := Apply(s, step);
    if step.Sweep? {
      var id :| id in s.table && s.table[id].kind == kind && !SweptAway(s.table[id], s.now);
      assert s'.table[id].kind == kind;
    } else {
      var id :| id in s.table && s.table[id].kind == kind;
      if step.Rearm? && s.runs[step.run].kind == kind {
        assert s'.table[step.newId].kind == kind;
      } else {
        assert s'.table[id].kind == kind;
      }
    }
  }

  /** The only step that can remove a kind's last row is the sweep, and only a row that was claimed a
      million times since it was last scheduled, whose last due time is thirty days past. */
  lemma ChainBreaksOnlyWhenExhausted(s: State, step: Step, kind: Kind) returns (id: Id)
    requires Inv(s) && Enabled(s, step) && Housekeeping(kind)
    requires HasChain(s.table, kind) && !HasChain(Apply(s, step).table, kind)
    ensures step.Sweep? && id in s.table && s.table[id].kind == kind
    ensures ClaimsSinceRetry(s.log, id) == HOUSEKEEPING_MAX_ATTEMPTS
    ensures s.table[id].runAt < s.now - ROW_RETENTION
  {
    id :| id in s.table && s.table[id].kind == kind;
    if !step.Sweep? || !SweptAway(s.table[id], s.now) {
      StepKeepsChain(s, step, kind);
      assert false;
    }
  }

  /** Seeding at boot creates a missing chain and leaves an existing one untouched. */
  lemma SeedingIsIdempotent(s: State, step: Step)
    requires Inv(s) && Enabled(s, step) && step.Seed?
    ensures HasChain(Apply(s, step).table, step.kind)
    ensures HasChain(s.table, step.kind) ==> Apply(s, step).table == s.table
    ensures !HasChain(s.table, step.kind) ==>
      Apply(s, step).table == s.table[step.newId := NewRow(ChainInput(step.kind, step.runAt))]
  {
    var t := s.table;
    if HasChain(t, step.kind) {
      var id :| id in t && t[id].kind == step.kind;
      assert t[id].InSlot(step.kind, Some(Global));
      assert Apply(s, step).table[id].kind == step.kind;
    } else {
      assert Apply(s, step).table[step.newId].kind == step.kind;
    }
  }

  /** Once seeded, a housekeeping kind has exactly one row in every later state of every run, with any
      number of workers, crashes, stale claims and restarts, as long as no row of the kind has been
      claimed a million times. */
  lemma {:induction false} ChainIsNeverLost(states: seq<State>, i: nat, j: nat, kind: Kind)
    requires Behavior(states) && i <= j < |states| && Housekeeping(kind)
    requires HasChain(states[i].table, kind)
    requires forall m :: i <= m < j ==> BudgetLeft(states[m].table, kind)
    ensures ExactlyOneRow(states[j].table, kind)
  {
    InvariantHolds(states, j);
    if i < j {
      ChainIsNeverLost(states, i, j - 1, kind);
      InvariantHolds(states, j - 1);
      var s := states[j - 1];
      assert Next(s, states[j]);
      var step :| Enabled(s, step) && states[j] == Apply(s, step);
      if !HasChain(states[j].table, kind) {
        var id := ChainBreaksOnlyWhenExhausted(s, step, kind);
        assert false;
      }
    }
    ChainIsUnique(states[j], kind);
  }

  /** A late completion or a late failure of any run whose id has left the table touches no row: not the one
      that took over its room's slot, and no other. */
  lemma LateReplyIsHarmless(s: State, step: Step)
    requires Inv(s) && Enabled(s, step)
    requires step.Finish? || step.RecordFailure?
    requires s.runs[step.run].id !in s.table
    ensures Apply(s, step).table == s.table
  {
  }

  /** A run that has rescheduled its own kind is such a run, and so is every other run of that row. */
  lemma ReschedulingRetiresTheId(s: State, r: nat, other: nat)
    requires Inv(s) && r in s.runs && s.runs[r].rearmed
    requires other in s.runs && s.runs[other].id == s.runs[r].id
    ensures s.runs[other].id !in s.table
  {
  }

  /** A recorded failure puts off exactly its own row, by the backoff of its attempts and so never by less than a
      minute, as long as there is budget left; a row without budget keeps its last due time and is never due again. */
  lemma FailurePutsTheRowOff(s: State, step: Step, at: int)
    requires Enabled(s, step) && step.RecordFailure?
    ensures var id, t' := s.runs[step.run].id, Apply(s, step).table;
      && t'.Keys == s.table.Keys
      && (forall other :: other in t' && other != id ==> t'[other] == s.table[other])
      && (id in s.table ==>
            && t'[id] == s.table[id].(lock := None, lastError := Some(step.message), runAt := t'[id].runAt)
            && (if s.table[id].attempts < s.table[id].maxAttempts
                then (t'[id].Due(at) <==> s.now + Backoff(s.table[id].attempts) <= at) && (t'[id].Due(at) ==> s.now + MINUTE <= at)
                else t'[id].runAt == s.table[id].runAt && !t'[id].Due(at)))
  {
    var id := s.runs[step.run].id;
    if id in s.table {
      BackoffIsBounded(s.table[id].attempts);
    }
  }

  /** A handler that reschedules its kind, and the boot that seeds it, leave a row that is due at the instant asked
      for and has the whole budget of a million claims. */
  lemma ChainStartsAfresh(s: State, step: Step, at: int)
    requires Inv(s) && Enabled(s, step)
    requires step.Rearm? || (step.Seed? && !HasChain(s.table, step.kind))
    ensures var kind := if step.Rearm? then s.runs[step.run].kind else step.kind;
      && step.newId in Apply(s, step).table
      && Apply(s, step).table[step.newId] == Job(kind, Some(Global), step.runAt, None, 0, 1_000_000, None, None)
      && (Apply(s, step).table[step.newId].Due(at) <==> step.runAt <= at)
  {
    if step.Seed? {
      SeedingIsIdempotent(s, step);
    }
  }

  // ----- rows outside rooms -----

  /** A row without a room leaves the table only after one of its handler runs returned nil, or when
      it is swept having been claimed max_attempts times since its last retry. */
  lemma RowLeavesOnlyWhenDone(s: State, step: Step, id: Id)
    requires Inv(s) && Enabled(s, step)
    requires id in s.table && s.table[id].room.None? && id !in Apply(s, step).table
    ensures HandlerOk(id) in s.log
         || (step.Sweep? && (s.table[id].maxAttempts < 0 || ClaimsSinceRetry(s.log, id) == s.table[id].maxAttempts))
  {
  }

  lemma AttemptsStayWithinBudget(states: seq<State>, i: nat, id: Id)
    requires Behavior(states) && i < |states| && id in states[i].table
    ensures states[i].table[id].attempts == ClaimsSinceRetry(states[i].log, id)
    ensures 0 <= states[i].table[id].maxAttempts ==> states[i].table[id].attempts <= states[i].table[id].maxAttempts
  {
    InvariantHolds(states, i);
  }

  lemma CloseClaimsNeedARelease(states: seq<State>, m: nat)
    requires Behavior(states) && m < |states|
    ensures ClaimsAreSpaced(states[m].log)
  {
    InvariantHolds(states, m);
  }

  lemma OneMoreStep(states: seq<State>, step: Step)
    requires Behavior(states) && Enabled(states[|states| - 1], step)
    ensures Behavior(states + [Apply(states[|states| - 1], step)])
  {
    var more := states + [Apply(states[|states| - 1], step)];
    forall i | 0 <= i < |more| - 1 ensures Next(more[i], more[i + 1]) {
      if i < |states| - 1 {
        assert Next(states[i], states[i + 1]);
      }
    }
  }

  ghost predicate TwoLiveRuns(s: State) {
    exists a, b :: a != b && a in s.runs && b in s.runs && s.runs[a].id == s.runs[b].id
      && s.runs[a].outcome.Running? && s.runs[b].outcome.Running?
  }

  /** Exclusivity is not part of the promise: a run whose lock has aged past five minutes can still be
      under way when another worker claims the same row. */
  lemma TwoWorkersCanRunOneJob(start: int) returns (states: seq<State>)
    ensures Behavior(states) && TwoLiveRuns(states[|states| - 1])
  {
    var s := State(map[], start, {}, map[], []);
    states := [s];
    var steps := [Enqueue("m", Input(MailSend, None, start, None, 0)), Claim("m", "replica-1", 0),
                  Tick(LOCK_TIMEOUT + 1), Claim("m", "replica-2", 1)];
    OneMoreStep(states, steps[0]);
    s := Apply(s, steps[0]);
    states := states + [s];
    assert s.table["m"].Due(start);
    OneMoreStep(states, steps[1]);
    s := Apply(s, steps[1]);
    states := states + [s];
    OneMoreStep(states, steps[2]);
    s := Apply(s, steps[2]);
    states := states + [s];
    assert s.table["m"].Due(s.now);
    OneMoreStep(states, steps[3]);
    s := Apply(s, steps[3]);
    states := states + [s];
    assert s.runs[0].id == s.runs[1].id;
  }

  // ----- exactly when a row can be claimed while a run of it is under way -----

  /** The place of the last claim of id. */
  function LastClaim(log: seq<Event>, id: Id): Option<nat> {
    if log == [] then None
    else if IsClaim(log, |log| - 1, id) then Some(|log| - 1)
    else LastClaim(log[..|log| - 1], id)
  }

  ghost predicate ReleasedSince(log: seq<Event>, c: nat, id: Id) {
    exists k :: c < k < |log| && Releases(log[k], id)
  }

  lemma {:induction false} LastClaimIsLast(log: seq<Event>, id: Id)
    ensures LastClaim(log, id).Some? ==> IsClaim(log, LastClaim(log, id).value, id)
    ensures forall c: nat :: IsClaim(log, c, id) ==> LastClaim(log, id).Some? && c <= LastClaim(log, id).value
  {
    if log != [] {
      var before := log[..|log| - 1];
      LastClaimIsLast(before, id);
      forall c: nat | IsClaim(log, c, id) && c < |log| - 1 ensures IsClaim(before, c, id) {}
    }
  }

  ghost function UnreleasedLastClaim(log: seq<Event>, id: Id): Option<int> {
    var last := LastClaim(log, id);
    if last.Some? && IsClaim(log, last.value, id) && !ReleasedSince(log, last.value, id) then Some(log[last.value].at) else None
  }

  /** The open claim is the last one, unless it has been released since. */
  lemma {:induction false} OpenClaimIsLast(log: seq<Event>, id: Id)
    ensures OpenClaim(log, id) == UnreleasedLastClaim(log, id)
  {
    if log != [] {
      var before, e := log[..|log| - 1], log[|log| - 1];
      OpenClaimIsLast(before, id);
      LastClaimIsLast(before, id);
      if LastClaim(before, id).Some? && !IsClaim(log, |log| - 1, id) {
        var c := LastClaim(before, id).value;
        if Releases(e, id) {
          assert Releases(log[|log| - 1], id);
        } else if ReleasedSince(log, c, id) {
          var k :| c < k < |log| && Releases(log[k], id);
          assert Releases(before[k], id);
        } else {
          forall k | c < k < |before| ensures !Releases(before[k], id) { assert !Releases(log[k], id); }
        }
      }
    }
  }

  /** With a run of id under way, id can be claimed again just when its row is due with budget left, and its
      last claim was released by a recorded failure or a retry or is more than five minutes old. */
  lemma SecondClaimIffReleasedOrStale(s: State, r: nat, replica: string, another: nat)
    requires Inv(s) && r in s.runs && another !in s.runs
    ensures LastClaim(s.log, s.runs[r].id).Some?
    ensures var id, c := s.runs[r].id, LastClaim(s.log, s.runs[r].id).value;
      IsClaim(s.log, c, id) &&
      (Enabled(s, Claim(id, replica, another)) <==>
        && id in s.table && s.table[id].runAt <= s.now && !s.table[id].Dead()
        && (ReleasedSince(s.log, c, id) || s.log[c].at < s.now - LOCK_TIMEOUT))
  {
    LastClaimIsLast(s.log, s.runs[r].id);
    OpenClaimIsLast(s.log, s.runs[r].id);
  }

  // ----- runs that end in time are exclusive -----

  /** No run is more than five minutes past its claim: neither its handler nor the recording of its outcome. */
  ghost predicate RunsAreTimely(s: State) {
    forall r :: r in s.runs && s.runs[r].claim < |s.log| && s.log[s.runs[r].claim].Claimed? ==>
      s.now <= s.log[s.runs[r].claim].at + LOCK_TIMEOUT
  }

  /** From s to s' no row is retried while a run of it is under way. */
  ghost predicate NoRetryUnderWay(s: State, s': State) {
    forall r :: r in s.runs ==> s'.log != s.log + [RetryRecorded(s.runs[r].id)]
  }

  /** The last claim of every run's row is that run's own and has not been released. */
  ghost predicate RunsHoldTheirClaims(s: State) {
    forall r :: r in s.runs ==> HoldsItsClaim(s, r)
  }

  ghost predicate HoldsItsClaim(s: State, r: nat)
    requires r in s.runs
  {
    var run := s.runs[r];
    && run.claim < |s.log| && s.log[run.claim].Claimed?
    && OpenClaim(s.log, run.id) == Some(s.log[run.claim].at)
    && LastClaim(s.log, run.id) == Some(run.claim)
  }

  ghost predicate OneRunPerRow(s: State) {
    forall a, b :: a in s.runs && b in s.runs && s.runs[a].id == s.runs[b].id ==> a == b
  }

  lemma HeldClaimsAreExclusive(s: State)
    requires RunsHoldTheirClaims(s) && RunsMatchClaims(s)
    ensures OneRunPerRow(s)
  {
    forall a, b | a in s.runs && b in s.runs && s.runs[a].id == s.runs[b].id ensures a == b {
      assert HoldsItsClaim(s, a) && HoldsItsClaim(s, b);
    }
  }

  /** Only a claim can give a row a second run. */
  lemma ExclusivityEndsIff(s: State, step: Step)
    requires Inv(s) && Enabled(s, step) && OneRunPerRow(s)
    ensures !OneRunPerRow(Apply(s, step)) <==> step.Claim? && exists r :: r in s.runs && s.runs[r].id == step.id
  {
    var s' := Apply(s, step);
    if r :| step.Claim? && r in s.runs && s.runs[r].id == step.id {
      assert s'.runs[r].id == s'.runs[step.run].id;
    }
  }

  lemma LastClaimStep(log: seq<Event>, e: Event, id: Id)
    ensures LastClaim(log + [e], id) == if e.Claimed? && e.id == id then Some(|log|) else LastClaim(log, id)
  {
    assert (log + [e])[..|log|] == log;
  }

  /** A claim that is at most five minutes old and not released keeps its row from being claimed again. */
  lemma FreshClaimKeepsRow(s: State, step: Step, r: nat)
    requires Inv(s) && Enabled(s, step) && step.Claim? && RunsAreTimely(s)
    requires r in s.runs && HoldsItsClaim(s, r)
    ensures step.id != s.runs[r].id
  {
    assert LockOf(s.table[step.id], s.log, step.id);
  }

  lemma UnrelatedEventKeepsClaim(log: seq<Event>, e: Event, id: Id)
    requires !Releases(e, id) && !(e.Claimed? && e.id == id)
    ensures OpenClaim(log + [e], id) == OpenClaim(log, id) && LastClaim(log + [e], id) == LastClaim(log, id)
  {
    LogStep(log, e, id);
    LastClaimStep(log, e, id);
  }

  /** What a step logs neither releases nor repeats the claim of a run it leaves under way. */
  lemma LoggedSparesRun(s: State, step: Step, r: nat)
    requires Inv(s) && Enabled(s, step) && RunsAreTimely(s) && NoRetryUnderWay(s, Apply(s, step))
    requires r in s.runs && r in Apply(s, step).runs && HoldsItsClaim(s, r) && OneRunPerRow(s)
    requires Logged(s, step).Some?
    ensures var e, id := Logged(s, step).value, s.runs[r].id; !Releases(e, id) && !(e.Claimed? && e.id == id)
  {
    if step.Claim? {
      FreshClaimKeepsRow(s, step, r);
    }
  }

  lemma ClaimStaysHeld(s: State, step: Step, r: nat)
    requires Inv(s) && Enabled(s, step) && RunsAreTimely(s) && NoRetryUnderWay(s, Apply(s, step))
    requires r in s.runs && r in Apply(s, step).runs && HoldsItsClaim(s, r) && OneRunPerRow(s)
    ensures HoldsItsClaim(Apply(s, step), r)
  {
    LogGrows(s, step);
    assert Apply(s, step).runs[r].id == s.runs[r].id && Apply(s, step).runs[r].claim == s.runs[r].claim;
    if Logged(s, step).Some? {
      LoggedSparesRun(s, step, r);
      UnrelatedEventKeepsClaim(s.log, Logged(s, step).value, s.runs[r].id);
    }
  }

  lemma StepKeepsClaimsHeld(s: State, step: Step)
    requires Inv(s) && Enabled(s, step) && RunsAreTimely(s) && NoRetryUnderWay(s, Apply(s, step))
    requires RunsHoldTheirClaims(s)
    ensures RunsHoldTheirClaims(Apply(s, step))
  {
    var s' := Apply(s, step);
    HeldClaimsAreExclusive(s);
    forall r | r in s'.runs ensures HoldsItsClaim(s', r) {
      if r in s.runs {
        ClaimStaysHeld(s, step, r);
      } else {
        LogStep(s.log, Claimed(step.id, s.now), step.id);
        LastClaimStep(s.log, Claimed(step.id, s.now), step.id);
      }
    }
  }

  /** Exclusivity is earned: if in a run of the system no handler run outlives its claim by more than five
      minutes, the recording of its outcome included, and no row is retried under a run, then no row ever
      has two runs. */
  lemma {:induction false} TimelyRunsAreExclusive(states: seq<State>, i: nat)
    requires Behavior(states) && i < |states|
    requires forall m :: 0 <= m < i ==> RunsAreTimely(states[m]) && NoRetryUnderWay(states[m], states[m + 1])
    ensures OneRunPerRow(states[i]) && RunsHoldTheirClaims(states[i])
  {
    InvariantHolds(states, i);
    if i > 0 {
      TimelyRunsAreExclusive(states, i - 1);
      InvariantHolds(states, i - 1);
      assert Next(states[i - 1], states[i]);
      var step :| Enabled(states[i - 1], step) && states[i] == Apply(states[i - 1], step);
      StepKeepsClaimsHeld(states[i - 1], step);
    }
    HeldClaimsAreExclusive(states[i]);
  }

  // ----- a batch claim is a sequence of single claims -----

  /** Claiming ids one after the other at one instant. */
  function ClaimedInTurn(t: Table, ids: seq<Id>, replica: string, now: int): Table {
    if ids == [] then t
    else Stamped(ClaimedInTurn(t, ids[..|ids| - 1], replica, now), [ids[|ids| - 1]], replica, now)
  }

  predicate DueIn(t: Table, id: Id, now: int) {
    id in t && t[id].Due(now)
  }

  lemma {:induction false} BatchIsSingleClaims(t: Table, now: int, limit: nat, skipped: set<Id>, ids: seq<Id>, replica: string)
    requires ClaimOf(t, now, limit, skipped, ids)
    ensures Stamped(t, ids, replica, now) == ClaimedInTurn(t, ids, replica, now)
    ensures forall n :: 0 <= n < |ids| ==> DueIn(ClaimedInTurn(t, ids[..n], replica, now), ids[n], now)
  {
    StampInTurn(t, ids, replica, now);
    forall n | 0 <= n < |ids|
      ensures DueIn(ClaimedInTurn(t, ids[..n], replica, now), ids[n], now)
    {
      StampInTurn(t, ids[..n], replica, now);
      assert Claimable(t, now, skipped, ids[n]);
      assert ids[n] !in ids[..n];
    }
  }

  lemma {:induction false} StampInTurn(t: Table, ids: seq<Id>, replica: string, now: int)
    requires NoDuplicates(ids)
    ensures Stamped(t, ids, replica, now) == ClaimedInTurn(t, ids, replica, now)
  {
    if ids != [] {
      var init, last := ids[..|ids| - 1], ids[|ids| - 1];
      StampInTurn(t, init, replica, now);
      assert ids == init + [last];
      assert last !in init;
    }
  }
}
