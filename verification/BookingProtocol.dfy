/**
  Concurrent bookings: the transactions of internal/bookings/bookings.go and pages.go as a state
  machine over READ COMMITTED row locks.

  A transaction's statements are separate steps, its writes stay invisible until it commits, and any
  transaction may end without effect at any point (an error path, a lost connection, a crash).  Book
  takes the page's row lock; Reschedule takes the page's and then the booking's; Cancel takes only the
  booking's; UpdatePage and DeletePage write the page row, which takes its lock.
 */
module BookingProtocol {
  import opened Common
  import opened Availability
  import opened Bookings
  import J = Jobs

  type TxId = nat

  datatype Request =
    | BookRequest(org: int, slug: string, start: int)
    | RescheduleRequest(booking: BookingId, newStart: int)
    | CancelRequest(target: BookingId, byOrganiser: bool)
    | PageRequest(page: PageId, change: PageChange)

  datatype PageChange = Edit(slug: string, rules: Rules, paused: bool, reminders: bool) | Remove

  /** An edit replaces the editable fields only: it never brings a deleted page back. */
  function Changed(row: Page, change: PageChange): Page {
    match change
    case Edit(slug, rules, paused, reminders) => row.(slug := slug, rules := rules, paused := paused, reminders := reminders)
    case Remove => row.(live := false)
  }

  ghost predicate ValidChange(r: Request) {
    r.PageRequest? && r.change.Edit? ==> StoredRules(r.change.rules)
  }

  /** How far a transaction has come, with what it has read under its locks.  Refused: a row it locked is
      not in a state it can go on with; it still holds its locks until it ends. */
  datatype Stage =
    | Begun
    | PageRead(page: PageId, row: Page)
    | BookingRead(page: PageId, row: Page, booking: Booking)
    | BusyRead(page: PageId, row: Page, busy: seq<Interval>)
    | Staged(effect: Effect)
    | Refused

  datatype Tx = Tx(request: Request, pageLock: Option<PageId>, bookingLock: Option<BookingId>, stage: Stage)
  {
    /** The start a Book or Reschedule asks for. */
    function Start(): int
      requires request.BookRequest? || request.RescheduleRequest?
    {
      if request.BookRequest? then request.start else request.newStart
    }

    /** The booking whose own interval does not count against it. */
    function Exclude(): Option<BookingId> {
      if request.RescheduleRequest? then Some(request.booking) else None
    }
  }

  /** usedBookings and usedJobs are the ids ever drawn for bookings and timers. */
  datatype State = State(db: Db, txs: map<TxId, Tx>, usedBookings: set<BookingId>, usedJobs: set<J.Id>)

  predicate PageFree(s: State, p: PageId) {
    forall t :: t in s.txs ==> s.txs[t].pageLock != Some(p)
  }

  predicate BookingFree(s: State, b: BookingId) {
    forall t :: t in s.txs ==> s.txs[t].bookingLock != Some(b)
  }

  // ----- what workers may do to the timers meanwhile -----

  /** Claims, completions, failures, retries and sweeps, and scheduling of anything but booking timers:
      rows may vanish or change, but no booking reminder appears or changes its slot. */
  ghost predicate WorkersMay(t: J.Table, t': J.Table, used: set<J.Id>, used': set<J.Id>) {
    && J.UniqueSlots(t')
    && used <= used' && t'.Keys <= used' && t'.Keys * used <= t.Keys
    && forall id :: id in t' && t'[id].kind.BookingReminder? ==> id in t && t[id].kind.BookingReminder? && t[id].room == t'[id].room
  }

  // ----- steps -----

  datatype Step =
    | Begin(tx: TxId, request: Request)
    | LockPage(tx: TxId, page: PageId)
    | LockBooking(tx: TxId)
    | ReadBusy(tx: TxId, busy: seq<Interval>)
    | Decide(tx: TxId, extraBusy: seq<Interval>, now: int, newId: BookingId, jobId: J.Id)
    | Commit(tx: TxId)
    | Abort(tx: TxId)
    | Work(jobs: J.Table, used: set<J.Id>)
    | RemindByMail(booking: BookingId, recipient: Recipient)

  /** The page row that t's next statement locks, by what the statement selects: live pages, paused or not. */
  predicate SelectsPage(db: Db, t: Tx, p: PageId) {
    && t.stage.Begun?
    && p in db.pages
    && match t.request
       case BookRequest(org, slug, _) => LiveAt(db, org, slug, p)
       case RescheduleRequest(b, _) => b in db.bookings && db.bookings[b].page == p && db.pages[p].live
       case PageRequest(q, _) => p == q
       case CancelRequest(_, _) => false
  }

  /** The booking row that t's next statement locks: by its id, whatever its status. */
  predicate SelectsBooking(db: Db, t: Tx, b: BookingId) {
    && b in db.bookings
    && match t.request
       case RescheduleRequest(id, _) => t.stage.PageRead? && b == id
       case CancelRequest(id, _) => t.stage.Begun? && b == id
       case _ => false
  }

  function BookingOf(t: Tx): BookingId
    requires t.request.RescheduleRequest? || t.request.CancelRequest?
  {
    if t.request.RescheduleRequest? then t.request.booking else t.request.target
  }

  predicate MayReadBusy(t: Tx) {
    (t.request.BookRequest? && t.stage.PageRead?) || (t.request.RescheduleRequest? && t.stage.BookingRead?)
  }

  ghost predicate Enabled(s: State, step: Step) {
    match step
    case Begin(tx, request) =>
      tx !in s.txs && ValidChange(request)
    case LockPage(tx, p) => tx in s.txs && SelectsPage(s.db, s.txs[tx], p) && PageFree(s, p)
    case LockBooking(tx) =>
      && tx in s.txs && (s.txs[tx].request.RescheduleRequest? || s.txs[tx].request.CancelRequest?)
      && SelectsBooking(s.db, s.txs[tx], BookingOf(s.txs[tx]))
      && BookingFree(s, BookingOf(s.txs[tx]))
    case ReadBusy(tx, busy) =>
      && tx in s.txs && MayReadBusy(s.txs[tx])
      && var t := s.txs[tx];
         Lists(s.db, t.stage.page, t.Start() - DAY, t.Start() + DAY, t.Exclude(), busy)
    case Decide(tx, extraBusy, now, newId, jobId) =>
      && tx in s.txs && s.txs[tx].stage.BusyRead?
      && (s.txs[tx].request.BookRequest? || s.txs[tx].request.RescheduleRequest?)
      && newId !in s.usedBookings && jobId !in s.usedJobs
      && Admitted(s.txs[tx].stage.row.rules, s.txs[tx].stage.busy + extraBusy, now, s.txs[tx].Start())
    case Commit(tx) => tx in s.txs && s.txs[tx].stage.Staged?
    case Abort(tx) => tx in s.txs
    case Work(jobs, used) => WorkersMay(s.db.jobs, jobs, s.usedJobs, used)
    case RemindByMail(_, _) => true
  }

  function WithTx(s: State, tx: TxId, t: Tx): State {
    s.(txs := s.txs[tx := t])
  }

  /** What a transaction makes of the page row it has just locked. */
  function AfterPageLock(db: Db, t: Tx, p: PageId): Stage
    requires p in db.pages
  {
    if t.request.PageRequest? then Staged(Replace(p, Changed(db.pages[p], t.request.change)))
    else if db.pages[p].paused then Refused
    else PageRead(p, db.pages[p])
  }

  /** What it makes of the booking row. */
  function AfterBookingLock(db: Db, t: Tx, b: BookingId): Stage
    requires b in db.bookings && (t.request.CancelRequest? || t.stage.PageRead?)
  {
    var cancelled := db.bookings[b].status.Cancelled?;
    if t.request.CancelRequest? then Staged(if cancelled then Nothing else Revoke(b, t.request.byOrganiser))
    else if cancelled then Refused
    else BookingRead(t.stage.page, t.stage.row, db.bookings[b])
  }

  /** The write a Book or Reschedule stages once its start is admitted. */
  function Decision(t: Tx, newId: BookingId, jobId: J.Id): Effect
    requires t.stage.BusyRead? && (t.request.BookRequest? || t.request.RescheduleRequest?)
  {
    var end := t.Start() + t.stage.row.rules.Slot();
    if t.request.BookRequest? then Insert(newId, t.stage.page, t.Start(), end, t.stage.row.reminders, jobId)
    else Move(t.request.booking, t.Start(), end, t.stage.row.reminders, jobId)
  }

  ghost function Apply(s: State, step: Step): State
    requires Enabled(s, step)
  {
    match step
    case Begin(tx, request) => WithTx(s, tx, Tx(request, None, None, Begun))
    case LockPage(tx, p) =>
      var t := s.txs[tx];
      WithTx(s, tx, t.(pageLock := Some(p), stage := AfterPageLock(s.db, t, p)))
    case LockBooking(tx) =>
      var t := s.txs[tx];
      var b := BookingOf(t);
      WithTx(s, tx, t.(bookingLock := Some(b), stage := AfterBookingLock(s.db, t, b)))
    case ReadBusy(tx, busy) =>
      var t := s.txs[tx];
      WithTx(s, tx, t.(stage := BusyRead(t.stage.page, t.stage.row, busy)))
    case Decide(tx, _, _, newId, jobId) =>
      var t := s.txs[tx];
      WithTx(s, tx, t.(stage := Staged(Decision(t, newId, jobId))))
        .(usedBookings := s.usedBookings + {newId}, usedJobs := s.usedJobs + {jobId})
    case Commit(tx) => s.(db := Committed(s.db, s.txs[tx].stage.effect), txs := s.txs - {tx})
    case Abort(tx) => s.(txs := s.txs - {tx})
    case Work(jobs, used) => s.(db := s.db.(jobs := jobs), usedJobs := used)
    case RemindByMail(b, r) => s.(db := s.db.(mails := s.db.mails + [Mail(ReminderMail, b, r)]))
  }

  ghost predicate Next(s: State, s': State) {
    exists step :: Enabled(s, step) && s' == Apply(s, step)
  }

  ghost predicate Init(s: State) {
    && s.txs == map[] && s.db.bookings == map[] && s.db.jobs == map[] && s.db.mails == []
    && forall p :: p in s.db.pages ==> StoredRules(s.db.pages[p].rules)
  }

  /** Every state of a run of the system, in order. */
  ghost predicate Behavior(states: seq<State>) {
    && states != []
    && Init(states[0])
    && forall i :: 0 <= i < |states| - 1 ==> Next(states[i], states[i + 1])
  }

  // ----- the invariant -----

  ghost predicate LocksExclusive(s: State) {
    forall a, b :: a in s.txs && b in s.txs && a != b ==>
      && (s.txs[a].pageLock.Some? ==> s.txs[a].pageLock != s.txs[b].pageLock)
      && (s.txs[a].bookingLock.Some? ==> s.txs[a].bookingLock != s.txs[b].bookingLock)
  }

  /** Page p is locked by t, whose snapshot row is still the stored row: live and not paused. */
  ghost predicate HoldsPage(db: Db, t: Tx, p: PageId, row: Page) {
    t.pageLock == Some(p) && p in db.pages && db.pages[p] == row && Bookable(row)
  }

  predicate Bookable(row: Page) {
    row.live && !row.paused
  }

  /** A Reschedule locks the page of its booking; a booking never changes pages. */
  ghost predicate NamesPage(db: Db, t: Tx, p: PageId) {
    t.request.RescheduleRequest? ==> t.request.booking in db.bookings && db.bookings[t.request.booking].page == p
  }

  /** A Reschedule that has read its booking holds its lock, and it is still confirmed on page p. */
  ghost predicate HoldsBooking(db: Db, t: Tx, p: PageId) {
    t.request.RescheduleRequest? ==> t.bookingLock == Some(t.request.booking) && ConfirmedOn(db, p, t.request.booking)
  }

  /** busy covers every confirmed booking of page p near the start, except the excluded one. */
  ghost predicate Covers(db: Db, t: Tx, p: PageId, busy: seq<Interval>)
    requires t.request.BookRequest? || t.request.RescheduleRequest?
  {
    forall id :: InWindow(db, p, t.Start() - DAY, t.Start() + DAY, t.Exclude(), id) ==> db.bookings[id].Interval() in busy
  }

  ghost predicate EffectIsSafe(s: State, t: Tx) {
    t.stage.Staged? ==>
      match t.stage.effect
      case Insert(id, p, start, end, remind, jobId) =>
        && t.pageLock == Some(p) && p in s.db.pages && Bookable(s.db.pages[p])
        && id !in s.db.bookings && id in s.usedBookings && jobId in s.usedJobs && jobId !in s.db.jobs
        && end == start + s.db.pages[p].rules.Slot() && remind == s.db.pages[p].reminders
        && Misses(s.db, p, s.db.pages[p].rules, start, None)
      case Move(id, start, end, remind, jobId) =>
        && t.bookingLock == Some(id) && id in s.db.bookings && s.db.bookings[id].status.Confirmed?
        && jobId in s.usedJobs && jobId !in s.db.jobs
        && var p := s.db.bookings[id].page;
           && t.pageLock == Some(p) && p in s.db.pages && Bookable(s.db.pages[p])
           && end == start + s.db.pages[p].rules.Slot() && remind == s.db.pages[p].reminders
           && Misses(s.db, p, s.db.pages[p].rules, start, Some(id))
      case Revoke(id, _) => t.bookingLock == Some(id) && id in s.db.bookings && s.db.bookings[id].status.Confirmed?
      case Replace(p, row) =>
        t.pageLock == Some(p) && p in s.db.pages && StoredRules(row.rules) && (row.live ==> s.db.pages[p].live)
      case Nothing => true
  }

  ghost predicate StageIsSound(s: State, t: Tx) {
    && ValidChange(t.request)
    && match t.stage
       case Begun => t.pageLock.None? && t.bookingLock.None?
       case PageRead(p, row) => HoldsPage(s.db, t, p, row) && t.bookingLock.None? && NamesPage(s.db, t, p)
       case BookingRead(p, row, b) => t.request.RescheduleRequest? && HoldsPage(s.db, t, p, row) && HoldsBooking(s.db, t, p)
       case BusyRead(p, row, busy) =>
         && (t.request.BookRequest? || t.request.RescheduleRequest?)
         && HoldsPage(s.db, t, p, row) && HoldsBooking(s.db, t, p) && Covers(s.db, t, p, busy)
       case Staged(_) => EffectIsSafe(s, t)
       case Refused => true
  }

  /** No two staged writes were given the same new booking or timer id. */
  ghost predicate NewIdsDiffer(s: State) {
    forall a, b :: a in s.txs && b in s.txs && a != b && s.txs[a].stage.Staged? && s.txs[b].stage.Staged? ==>
      && (s.txs[a].stage.effect.Insert? && s.txs[b].stage.effect.Insert? ==> s.txs[a].stage.effect.id != s.txs[b].stage.effect.id)
      && (Arms(s.txs[a].stage.effect) && Arms(s.txs[b].stage.effect) ==> s.txs[a].stage.effect.jobId != s.txs[b].stage.effect.jobId)
  }

  predicate Arms(e: Effect) {
    e.Insert? || e.Move?
  }

  /** No two confirmed bookings of one page overlap. */
  ghost predicate NoDoubleBooking(db: Db) {
    forall p, a, b :: ConfirmedOn(db, p, a) && ConfirmedOn(db, p, b) && a != b ==>
      !Overlaps(db.bookings[a].Interval(), db.bookings[b].Interval())
  }

  /** Every booking timer belongs to a confirmed booking; slots being unique, it is its only one. */
  ghost predicate TimersMatch(db: Db) {
    && J.UniqueSlots(db.jobs)
    && forall j :: j in db.jobs && db.jobs[j].kind.BookingReminder? ==> TimerOfConfirmed(db, db.jobs[j].room)
  }

  ghost predicate TimerOfConfirmed(db: Db, room: Option<J.Room>) {
    exists b :: b in db.bookings && db.bookings[b].status.Confirmed? && room == Some(ReminderRoom(b))
  }

  function CancellationMails(mails: seq<Mail>, b: BookingId, r: Recipient): nat {
    if mails == [] then 0
    else CancellationMails(mails[..|mails| - 1], b, r) + (if mails[|mails| - 1] == Mail(CancelledMail, b, r) then 1 else 0)
  }

  /** One cancellation mail per party for every cancelled booking, and none for any other. */
  ghost predicate MailsMatch(db: Db) {
    forall b, r :: CancellationMails(db.mails, b, r) == if CancelledIn(db, b) then 1 else 0
  }

  predicate CancelledIn(db: Db, b: BookingId) {
    b in db.bookings && db.bookings[b].status.Cancelled?
  }

  ghost predicate DataIsSound(s: State) {
    && (forall p :: p in s.db.pages ==> StoredRules(s.db.pages[p].rules))
    && s.db.bookings.Keys <= s.usedBookings
    && s.db.jobs.Keys <= s.usedJobs
  }

  ghost predicate Inv(s: State) {
    && LocksExclusive(s)
    && DataIsSound(s)
    && NewIdsDiffer(s)
    && (forall t :: t in s.txs ==> StageIsSound(s, s.txs[t]))
    && NoDoubleBooking(s.db)
    && TimersMatch(s.db)
    && MailsMatch(s.db)
  }

  // ----- stability: what other transactions cannot disturb -----

  /** From db to db', page p keeps its row and gains no confirmed booking. */
  ghost predicate PageQuiet(db: Db, db': Db, p: PageId) {
    && (p in db.pages ==> p in db'.pages && db'.pages[p] == db.pages[p])
    && forall id :: ConfirmedOn(db', p, id) ==> ConfirmedOn(db, p, id) && db'.bookings[id].Interval() == db.bookings[id].Interval()
  }

  ghost predicate BookingQuiet(db: Db, db': Db, b: BookingId) {
    b in db.bookings ==> b in db'.bookings && db'.bookings[b] == db.bookings[b]
  }

  ghost predicate Quiet(s: State, s': State, t: Tx) {
    && (t.pageLock.Some? ==> PageQuiet(s.db, s'.db, t.pageLock.value))
    && (t.bookingLock.Some? ==> BookingQuiet(s.db, s'.db, t.bookingLock.value))
    && (forall b :: b in s.db.bookings ==> b in s'.db.bookings && s'.db.bookings[b].page == s.db.bookings[b].page)
    && s.usedBookings <= s'.usedBookings && s.usedJobs <= s'.usedJobs
    && (t.stage.Staged? && t.stage.effect.Insert? ==> t.stage.effect.id !in s'.db.bookings)
    && (t.stage.Staged? && Arms(t.stage.effect) ==> t.stage.effect.jobId !in s'.db.jobs)
  }

  lemma MissesIsStable(db: Db, db': Db, p: PageId, rules: Rules, start: int, exclude: Option<BookingId>)
    requires Misses(db, p, rules, start, exclude) && PageQuiet(db, db', p)
    ensures Misses(db', p, rules, start, exclude)
  {
  }

  lemma CoversIsStable(db: Db, db': Db, t: Tx, p: PageId, busy: seq<Interval>)
    requires t.request.BookRequest? || t.request.RescheduleRequest?
    requires Covers(db, t, p, busy) && PageQuiet(db, db', p)
    ensures Covers(db', t, p, busy)
  {
    forall id | InWindow(db', p, t.Start() - DAY, t.Start() + DAY, t.Exclude(), id) ensures db'.bookings[id].Interval() in busy {
      assert InWindow(db, p, t.Start() - DAY, t.Start() + DAY, t.Exclude(), id) by {
        assert ConfirmedOn(db', p, id);
        assert db'.bookings[id].Interval() == db.bookings[id].Interval();
      }
    }
  }

  lemma SoundnessIsStable(s: State, s': State, t: Tx)
    requires StageIsSound(s, t) && Quiet(s, s', t)
    ensures StageIsSound(s', t)
  {
    match t.stage
    case BusyRead(p, _, busy) => CoversIsStable(s.db, s'.db, t, p, busy);
    case Staged(Insert(_, p, start, _, _, _)) => MissesIsStable(s.db, s'.db, p, s.db.pages[p].rules, start, None);
    case Staged(Move(id, start, _, _, _)) =>
      var p := s.db.bookings[id].page;
      MissesIsStable(s.db, s'.db, p, s.db.pages[p].rules, start, Some(id));
    case _ =>
  }

  // ----- steps that leave the database alone -----

  lemma OthersStaySound(s: State, s': State, tx: TxId)
    requires Inv(s) && s'.db == s.db && s.usedBookings <= s'.usedBookings && s.usedJobs <= s'.usedJobs
    requires forall t :: t in s'.txs && t != tx ==> t in s.txs && s'.txs[t] == s.txs[t]
    ensures forall t :: t in s'.txs && t != tx ==> StageIsSound(s', s'.txs[t])
  {
    forall t | t in s'.txs && t != tx ensures StageIsSound(s', s'.txs[t]) {
      SoundnessIsStable(s, s', s.txs[t]);
    }
  }

  /** A read, a lock or a decision keeps the acting transaction's own claims true. */
  lemma OwnStageIsSound(s: State, step: Step)
    requires Inv(s) && Enabled(s, step)
    requires step.Begin? || step.LockPage? || step.LockBooking? || step.ReadBusy?
    ensures StageIsSound(Apply(s, step), Apply(s, step).txs[step.tx])
  {
  }

  lemma DecisionIsSound(s: State, step: Step)
    requires Inv(s) && Enabled(s, step) && step.Decide?
    ensures StageIsSound(Apply(s, step), Apply(s, step).txs[step.tx])
  {
    var t := s.txs[step.tx];
    var p, row := t.stage.page, t.stage.row;
    assert forall id :: InWindow(s.db, p, t.Start() - DAY, t.Start() + DAY, t.Exclude(), id) ==>
      s.db.bookings[id].Interval() in t.stage.busy + step.extraBusy;
    WindowSuffices(s.db, p, row.rules, t.Start(), t.Exclude(), t.stage.busy + step.extraBusy, step.now);
  }

  lemma LocalStepKeepsInvariant(s: State, step: Step)
    requires Inv(s) && Enabled(s, step)
    requires step.Begin? || step.LockPage? || step.LockBooking? || step.ReadBusy? || step.Decide? || step.Abort?
    ensures Inv(Apply(s, step))
  {
    var s' := Apply(s, step);
    OthersStaySound(s, s', step.tx);
    if step.Decide? {
      DecisionIsSound(s, step);
    } else if !step.Abort? {
      OwnStageIsSound(s, step);
    }
    if step.Decide? {
      DecisionDrawsNewIds(s, step);
    } else {
      OtherStepsDrawNoIds(s, step);
    }
    LocksStayExclusive(s, step);
  }

  lemma StagedIdsAreDrawn(s: State, t: TxId)
    requires Inv(s) && t in s.txs && s.txs[t].stage.Staged? && Arms(s.txs[t].stage.effect)
    ensures s.txs[t].stage.effect.Insert? ==> s.txs[t].stage.effect.id in s.usedBookings
    ensures s.txs[t].stage.effect.jobId in s.usedJobs
  {
    assert StageIsSound(s, s.txs[t]);
  }

  lemma DecisionDrawsNewIds(s: State, step: Step)
    requires Inv(s) && Enabled(s, step) && step.Decide?
    ensures NewIdsDiffer(Apply(s, step))
  {
    forall t | t in s.txs && s.txs[t].stage.Staged? && Arms(s.txs[t].stage.effect)
      ensures s.txs[t].stage.effect.Insert? ==> s.txs[t].stage.effect.id != step.newId
      ensures s.txs[t].stage.effect.jobId != step.jobId
    {
      StagedIdsAreDrawn(s, t);
    }
  }

  lemma OtherStepsDrawNoIds(s: State, step: Step)
    requires Inv(s) && Enabled(s, step)
    requires step.Begin? || step.LockPage? || step.LockBooking? || step.ReadBusy? || step.Abort?
    ensures NewIdsDiffer(Apply(s, step))
  {
    forall t | t in Apply(s, step).txs && Apply(s, step).txs[t].stage.Staged? && Arms(Apply(s, step).txs[t].stage.effect)
      ensures t in s.txs && Apply(s, step).txs[t] == s.txs[t]
    {
    }
  }

  lemma LocksStayExclusive(s: State, step: Step)
    requires Inv(s) && Enabled(s, step)
    requires step.Begin? || step.LockPage? || step.LockBooking? || step.ReadBusy? || step.Decide? || step.Abort?
    ensures LocksExclusive(Apply(s, step))
  {
  }

  // ----- commits -----

  lemma CommitLeavesOtherPagesAlone(s: State, step: Step, t: TxId, p: PageId)
    requires Inv(s) && Enabled(s, step) && step.Commit? && t in s.txs && t != step.tx && s.txs[t].pageLock == Some(p)
    ensures PageQuiet(s.db, Apply(s, step).db, p)
  {
    assert StageIsSound(s, s.txs[step.tx]);
    assert s.txs[step.tx].pageLock != Some(p);
  }

  lemma CommitLeavesOtherBookingsAlone(s: State, step: Step, t: TxId, b: BookingId)
    requires Inv(s) && Enabled(s, step) && step.Commit? && t in s.txs && t != step.tx && s.txs[t].bookingLock == Some(b)
    ensures BookingQuiet(s.db, Apply(s, step).db, b)
  {
    assert StageIsSound(s, s.txs[step.tx]);
    assert s.txs[step.tx].bookingLock != Some(b);
  }

  lemma CommitLeavesOtherIdsAlone(s: State, step: Step, t: TxId)
    requires Inv(s) && Enabled(s, step) && step.Commit? && t in s.txs && t != step.tx && s.txs[t].stage.Staged?
    ensures s.txs[t].stage.effect.Insert? ==> s.txs[t].stage.effect.id !in Apply(s, step).db.bookings
    ensures Arms(s.txs[t].stage.effect) ==> s.txs[t].stage.effect.jobId !in Apply(s, step).db.jobs
  {
    assert StageIsSound(s, s.txs[step.tx]) && StageIsSound(s, s.txs[t]);
  }

  lemma CommitIsQuietForOthers(s: State, step: Step, t: TxId)
    requires Inv(s) && Enabled(s, step) && step.Commit? && t in s.txs && t != step.tx
    ensures Quiet(s, Apply(s, step), s.txs[t])
  {
    var other := s.txs[t];
    if other.pageLock.Some? {
      CommitLeavesOtherPagesAlone(s, step, t, other.pageLock.value);
    }
    if other.bookingLock.Some? {
      CommitLeavesOtherBookingsAlone(s, step, t, other.bookingLock.value);
    }
    if other.stage.Staged? {
      CommitLeavesOtherIdsAlone(s, step, t);
    }
    assert StageIsSound(s, s.txs[step.tx]);
  }

  lemma PaddingContainsSlot(rules: Rules, start: int, b: Interval)
    requires StoredRules(rules) && !Overlaps(rules.Padded(start), b)
    ensures !Overlaps(Interval.Interval(start, start + rules.Slot()), b)
  {
  }

  /** Writing one admitted interval leaves the page's confirmed bookings disjoint. */
  lemma AdmittedWriteKeepsDisjoint(db: Db, db': Db, p: PageId, rules: Rules, id: BookingId, start: int)
    requires NoDoubleBooking(db) && StoredRules(rules) && Misses(db, p, rules, start, Some(id))
    requires ConfirmedOn(db', p, id) && db'.bookings[id].Interval() == Interval.Interval(start, start + rules.Slot())
    requires forall q, x :: x != id && ConfirmedOn(db', q, x) ==> ConfirmedOn(db, q, x) && db'.bookings[x] == db.bookings[x]
    ensures NoDoubleBooking(db')
  {
    forall q, a, b | ConfirmedOn(db', q, a) && ConfirmedOn(db', q, b) && a != b
      ensures !Overlaps(db'.bookings[a].Interval(), db'.bookings[b].Interval())
    {
      if a == id || b == id {
        var other := if a == id then b else a;
        assert ConfirmedOn(db, p, other);
        PaddingContainsSlot(rules, start, db.bookings[other].Interval());
      } else {
        assert ConfirmedOn(db, q, a) && ConfirmedOn(db, q, b);
      }
    }
  }

  lemma CommitKeepsDisjoint(s: State, step: Step)
    requires Inv(s) && Enabled(s, step) && step.Commit?
    ensures NoDoubleBooking(Apply(s, step).db)
  {
    var t := s.txs[step.tx];
    assert StageIsSound(s, t);
    var db, db' := s.db, Apply(s, step).db;
    match t.stage.effect
    case Insert(id, p, start, _, _, _) =>
      AdmittedWriteKeepsDisjoint(db, db', p, db.pages[p].rules, id, start);
    case Move(id, start, _, _, _) =>
      var p := db.bookings[id].page;
      AdmittedWriteKeepsDisjoint(db, db', p, db.pages[p].rules, id, start);
    case Revoke(id, _) =>
      FewerBookingsStayDisjoint(db, db');
    case _ =>
      FewerBookingsStayDisjoint(db, db');
  }

  lemma FewerBookingsStayDisjoint(db: Db, db': Db)
    requires NoDoubleBooking(db)
    requires forall p, x :: ConfirmedOn(db', p, x) ==> ConfirmedOn(db, p, x) && db'.bookings[x] == db.bookings[x]
    ensures NoDoubleBooking(db')
  {
  }

  lemma TimersStayMatched(db: Db, db': Db)
    requires TimersMatch(db) && J.UniqueSlots(db'.jobs)
    requires forall j :: j in db'.jobs && db'.jobs[j].kind.BookingReminder? && !TimerOfConfirmed(db', db'.jobs[j].room) ==>
      j in db.jobs && db.jobs[j].kind.BookingReminder? && db.jobs[j].room == db'.jobs[j].room
    requires forall b :: b in db.bookings && db.bookings[b].status.Confirmed? ==>
      (b in db'.bookings && db'.bookings[b].status.Confirmed?)
      || forall j :: j in db'.jobs && db'.jobs[j].kind.BookingReminder? ==> db'.jobs[j].room != Some(ReminderRoom(b))
    ensures TimersMatch(db')
  {
    forall j | j in db'.jobs && db'.jobs[j].kind.BookingReminder? ensures TimerOfConfirmed(db', db'.jobs[j].room) {
      if j in db.jobs && db.jobs[j].kind.BookingReminder? && db.jobs[j].room == db'.jobs[j].room {
        var b :| b in db.bookings && db.bookings[b].status.Confirmed? && db.jobs[j].room == Some(ReminderRoom(b));
      }
    }
  }

  /** An effect cancels nothing but a booking that was confirmed, and creates only bookings that were not there. */
  predicate FitsBookings(db: Db, e: Effect) {
    match e
    case Insert(id, _, _, _, _, _) => id !in db.bookings
    case Move(id, _, _, _, _) => id in db.bookings && db.bookings[id].status.Confirmed?
    case Revoke(id, _) => id in db.bookings && db.bookings[id].status.Confirmed?
    case _ => true
  }

  lemma BookingKeepsTimers(db: Db, e: Effect)
    requires Arms(e) && FitsBookings(db, e) && TimersMatch(db) && e.jobId !in db.jobs
    ensures TimersMatch(Committed(db, e))
  {
    var db' := Committed(db, e);
    if e.remind {
      J.ScheduledKeepsSlots(db.jobs, e.jobId, ReminderInput(e.id, e.start));
      assert TimerOfConfirmed(db', Some(ReminderRoom(e.id)));
    }
    TimersStayMatched(db, db');
  }

  lemma RevokingKeepsTimers(db: Db, e: Effect)
    requires e.Revoke? && FitsBookings(db, e) && TimersMatch(db)
    ensures TimersMatch(Committed(db, e))
  {
    TimersStayMatched(db, Committed(db, e));
  }

  lemma CommitKeepsTimers(s: State, step: Step)
    requires Inv(s) && Enabled(s, step) && step.Commit?
    ensures TimersMatch(Apply(s, step).db)
  {
    var e := s.txs[step.tx].stage.effect;
    assert FitsBookings(s.db, e) && (Arms(e) ==> e.jobId !in s.db.jobs) by { assert StageIsSound(s, s.txs[step.tx]); }
    if Arms(e) {
      BookingKeepsTimers(s.db, e);
    } else if e.Revoke? {
      RevokingKeepsTimers(s.db, e);
    }
  }

  lemma CountOne(mails: seq<Mail>, m: Mail, b: BookingId, r: Recipient)
    ensures CancellationMails(mails + [m], b, r) == CancellationMails(mails, b, r) + (if m == Mail(CancelledMail, b, r) then 1 else 0)
  {
    assert (mails + [m])[..|mails|] == mails;
  }

  lemma CountPair(mails: seq<Mail>, kind: MailKind, id: BookingId, b: BookingId, r: Recipient)
    ensures CancellationMails(mails + MailPair(kind, id), b, r)
         == CancellationMails(mails, b, r) + (if kind == CancelledMail && b == id then 1 else 0)
  {
    var one := mails + [Mail(kind, id, Visitor)];
    CountOne(mails, Mail(kind, id, Visitor), b, r);
    CountOne(one, Mail(kind, id, Organiser), b, r);
    assert mails + MailPair(kind, id) == one + [Mail(kind, id, Organiser)];
  }

  /** The mails an effect queues. */
  function MailsOf(db: Db, e: Effect): seq<Mail> {
    match e
    case Insert(id, _, _, _, _, _) => MailPair(ConfirmedMail, id)
    case Move(id, _, _, _, _) => if id in db.bookings then MailPair(RescheduledMail(db.bookings[id].start), id) else []
    case Revoke(id, _) => if id in db.bookings then MailPair(CancelledMail, id) else []
    case _ => []
  }

  lemma EffectQueuesItsMails(db: Db, e: Effect)
    ensures Committed(db, e).mails == db.mails + MailsOf(db, e)
  {
  }

  lemma EffectCancels(db: Db, e: Effect, b: BookingId)
    requires FitsBookings(db, e)
    ensures CancelledIn(Committed(db, e), b) <==> CancelledIn(db, b) || (e.Revoke? && e.id == b)
    ensures e.Revoke? && e.id == b ==> !CancelledIn(db, b)
  {
  }

  lemma CountMailsOf(db: Db, e: Effect, b: BookingId, r: Recipient)
    requires FitsBookings(db, e)
    ensures CancellationMails(db.mails + MailsOf(db, e), b, r)
         == CancellationMails(db.mails, b, r) + (if e.Revoke? && e.id == b then 1 else 0)
  {
    match e
    case Insert(id, _, _, _, _, _) => CountPair(db.mails, ConfirmedMail, id, b, r);
    case Move(id, _, _, _, _) => CountPair(db.mails, RescheduledMail(db.bookings[id].start), id, b, r);
    case Revoke(id, _) => CountPair(db.mails, CancelledMail, id, b, r);
    case _ => assert db.mails + [] == db.mails;
  }

  lemma CommitKeepsMails(s: State, step: Step)
    requires Inv(s) && Enabled(s, step) && step.Commit?
    ensures MailsMatch(Apply(s, step).db)
  {
    var e := s.txs[step.tx].stage.effect;
    assert FitsBookings(s.db, e) by { assert StageIsSound(s, s.txs[step.tx]); }
    forall b, r
      ensures CancellationMails(Apply(s, step).db.mails, b, r) == if CancelledIn(Apply(s, step).db, b) then 1 else 0
    {
      EffectQueuesItsMails(s.db, e);
      EffectCancels(s.db, e, b);
      CountMailsOf(s.db, e, b, r);
    }
  }

  lemma CommitKeepsData(s: State, step: Step)
    requires Inv(s) && Enabled(s, step) && step.Commit?
    ensures DataIsSound(Apply(s, step))
  {
    assert StageIsSound(s, s.txs[step.tx]);
  }

  lemma CommitKeepsInvariant(s: State, step: Step)
    requires Inv(s) && Enabled(s, step) && step.Commit?
    ensures Inv(Apply(s, step))
  {
    var s' := Apply(s, step);
    forall t | t in s'.txs ensures StageIsSound(s', s'.txs[t]) {
      CommitIsQuietForOthers(s, step, t);
      SoundnessIsStable(s, s', s.txs[t]);
    }
    CommitKeepsData(s, step);
    CommitKeepsDisjoint(s, step);
    CommitKeepsTimers(s, step);
    CommitKeepsMails(s, step);
  }

  // ----- the rest of the program -----

  lemma WorkKeepsStages(s: State, step: Step, t: TxId)
    requires Inv(s) && Enabled(s, step) && (step.Work? || step.RemindByMail?) && t in s.txs
    ensures StageIsSound(Apply(s, step), s.txs[t])
  {
    assert StageIsSound(s, s.txs[t]);
    SoundnessIsStable(s, Apply(s, step), s.txs[t]);
  }

  lemma WorkKeepsInvariant(s: State, step: Step)
    requires Inv(s) && Enabled(s, step) && step.Work?
    ensures Inv(Apply(s, step))
  {
    forall t | t in Apply(s, step).txs ensures StageIsSound(Apply(s, step), Apply(s, step).txs[t]) {
      WorkKeepsStages(s, step, t);
    }
    TimersStayMatched(s.db, Apply(s, step).db);
    FewerBookingsStayDisjoint(s.db, Apply(s, step).db);
  }

  lemma ReminderKeepsInvariant(s: State, step: Step)
    requires Inv(s) && Enabled(s, step) && step.RemindByMail?
    ensures Inv(Apply(s, step))
  {
    forall t | t in Apply(s, step).txs ensures StageIsSound(Apply(s, step), Apply(s, step).txs[t]) {
      WorkKeepsStages(s, step, t);
    }
    forall b, r ensures CancellationMails(Apply(s, step).db.mails, b, r) == CancellationMails(s.db.mails, b, r) {
      CountOne(s.db.mails, Mail(ReminderMail, step.booking, step.recipient), b, r);
    }
    TimersStayMatched(s.db, Apply(s, step).db);
    FewerBookingsStayDisjoint(s.db, Apply(s, step).db);
  }

  lemma StepKeepsInvariant(s: State, step: Step)
    requires Inv(s) && Enabled(s, step)
    ensures Inv(Apply(s, step))
  {
    match step
    case Commit(_) => CommitKeepsInvariant(s, step);
    case Work(_, _) => WorkKeepsInvariant(s, step);
    case RemindByMail(_, _) => ReminderKeepsInvariant(s, step);
    case _ => LocalStepKeepsInvariant(s, step);
  }

  lemma {:induction false} InvariantHolds(states: seq<State>, i: nat)
    requires Behavior(states) && i < |states|
    ensures Inv(states[i])
  {
    if i > 0 {
      InvariantHolds(states, i - 1);
      assert Next(states[i - 1], states[i]);
      var step :| Enabled(states[i - 1], step) && states[i] == Apply(states[i - 1], step);
      StepKeepsInvariant(states[i - 1], step);
    }
  }

  // ----- what holds in every run -----

  /** In every interleaving, no two confirmed bookings of one page ever overlap. */
  lemma NeverDoubleBooked(states: seq<State>, i: nat)
    requires Behavior(states) && i < |states|
    ensures NoDoubleBooking(states[i].db)
  {
    InvariantHolds(states, i);
  }

  /** At the moment a booking is written or moved, its page is live and not paused, and its interval
      padded by the page's current buffers misses every other confirmed booking of the page. */
  lemma CommittedIntervalKeepsItsBuffers(s: State, step: Step, other: BookingId)
    requires Inv(s) && Enabled(s, step) && step.Commit? && Arms(s.txs[step.tx].stage.effect)
    ensures var id, db' := s.txs[step.tx].stage.effect.id, Apply(s, step).db;
      && id in db'.bookings && db'.bookings[id].status.Confirmed?
      && var p := db'.bookings[id].page;
         && p in db'.pages && Bookable(db'.pages[p])
         && db'.bookings[id].end == db'.bookings[id].start + db'.pages[p].rules.Slot()
         && (other != id && ConfirmedOn(db', p, other) ==>
               !Overlaps(db'.pages[p].rules.Padded(db'.bookings[id].start), db'.bookings[other].Interval()))
  {
    var t := s.txs[step.tx];
    assert StageIsSound(s, t);
    var p := if t.stage.effect.Insert? then t.stage.effect.page else s.db.bookings[t.stage.effect.id].page;
    assert ConfirmedOn(Apply(s, step).db, p, other) && other != t.stage.effect.id ==> ConfirmedOn(s.db, p, other);
  }

  predicate SameBooking(db: Db, db': Db, b: BookingId) {
    b in db.bookings && b in db'.bookings && db'.bookings[b] == db.bookings[b]
  }

  lemma StepFreezesCancelled(s: State, s': State, b: BookingId)
    requires Inv(s) && Next(s, s') && CancelledIn(s.db, b)
    ensures SameBooking(s.db, s'.db, b)
  {
    var step :| Enabled(s, step) && s' == Apply(s, step);
    if step.Commit? {
      assert StageIsSound(s, s.txs[step.tx]);
      assert FitsBookings(s.db, s.txs[step.tx].stage.effect);
    }
  }

  lemma RunFreezesCancelled(states: seq<State>, j: nat, b: BookingId)
    requires Behavior(states) && 0 < j < |states| && CancelledIn(states[j - 1].db, b)
    ensures SameBooking(states[j - 1].db, states[j].db, b)
  {
    InvariantHolds(states, j - 1);
    assert Next(states[j - 1], states[j]);
    StepFreezesCancelled(states[j - 1], states[j], b);
  }

  /** A cancelled booking never moves and never becomes confirmed again. */
  lemma {:induction false} CancelledForever(states: seq<State>, i: nat, j: nat, b: BookingId)
    requires Behavior(states) && i <= j < |states| && CancelledIn(states[i].db, b)
    ensures SameBooking(states[i].db, states[j].db, b)
  {
    if i < j {
      CancelledForever(states, i, j - 1, b);
      RunFreezesCancelled(states, j, b);
    }
  }

  /** Each party of a booking is mailed about its cancellation exactly once, however many Cancel and
      Reschedule calls race; the parties of a booking that is not cancelled are not mailed at all. */
  lemma CancellationIsMailedOnce(states: seq<State>, i: nat, b: BookingId, r: Recipient)
    requires Behavior(states) && i < |states|
    ensures CancellationMails(states[i].db.mails, b, r) == if CancelledIn(states[i].db, b) then 1 else 0
  {
    InvariantHolds(states, i);
  }

  predicate ReminderOf(t: J.Table, j: J.Id, b: BookingId) {
    j in t && t[j].InSlot(J.BookingReminder, Some(ReminderRoom(b)))
  }

  /** A booking has at most one reminder timer, and none once it is cancelled. */
  lemma OneReminderAtMost(states: seq<State>, i: nat, b: BookingId, j: J.Id, k: J.Id)
    requires Behavior(states) && i < |states| && ReminderOf(states[i].db.jobs, j, b)
    ensures ReminderOf(states[i].db.jobs, k, b) ==> j == k
    ensures b in states[i].db.bookings && states[i].db.bookings[b].status.Confirmed?
  {
    InvariantHolds(states, i);
    var db := states[i].db;
    assert TimerOfConfirmed(db, db.jobs[j].room);
    var owner :| owner in db.bookings && db.bookings[owner].status.Confirmed? && db.jobs[j].room == Some(ReminderRoom(owner));
    ReminderRoomsDiffer(owner, b);
  }

  /** A booking that is not there has no timer, and a confirmed one that moves loses the one it had. */
  lemma NewBookingHasNoTimer(db: Db, b: BookingId, j: J.Id)
    requires TimersMatch(db) && b !in db.bookings && j in db.jobs
    ensures !(db.jobs[j].kind.BookingReminder? && db.jobs[j].room == Some(J.Room("booking:" + b)))
  {
    if db.jobs[j].kind.BookingReminder? {
      assert TimerOfConfirmed(db, db.jobs[j].room);
      var owner :| owner in db.bookings && db.jobs[j].room == Some(ReminderRoom(owner));
      ReminderRoomsDiffer(owner, b);
    }
  }

  /** In any interleaving, the commit of a booking or a move leaves that booking as it was staged, with exactly one timer,
      a day before its start as it now is and never tried, if its page asks for reminders, and with none otherwise. */
  lemma CommitArmsTheReminder(s: State, step: Step, j: J.Id)
    requires Inv(s) && Enabled(s, step) && step.Commit? && Arms(s.txs[step.tx].stage.effect)
    ensures var e, db' := s.txs[step.tx].stage.effect, Apply(s, step).db;
      && e.id in db'.bookings && db'.bookings[e.id].page in db'.pages
      && var page := db'.pages[db'.bookings[e.id].page];
         && (page.reminders ==>
               && e.jobId in db'.jobs
               && db'.jobs[e.jobId] == J.Job(J.BookingReminder, Some(J.Room("booking:" + e.id)), db'.bookings[e.id].start - DAY, Some(e.id), 0, 5, None, None))
         && (j in db'.jobs && !(page.reminders && j == e.jobId) ==>
               !(db'.jobs[j].kind.BookingReminder? && db'.jobs[j].room == Some(J.Room("booking:" + e.id))))
  {
    assert StageIsSound(s, s.txs[step.tx]);
    var e := s.txs[step.tx].stage.effect;
    if e.Insert? && j in s.db.jobs {
      NewBookingHasNoTimer(s.db, e.id, j);
    }
  }

  /** The rows and mails that a commit writes, transaction by transaction, and that it writes no others. */
  lemma CommitWritesWhatWasStaged(s: State, step: Step)
    requires Inv(s) && Enabled(s, step) && step.Commit?
    ensures var db, db' := s.db, Apply(s, step).db;
      match s.txs[step.tx].stage.effect
      case Insert(id, p, start, end, _, _) =>
        && db'.bookings == db.bookings[id := Booking(p, start, end, Confirmed)] && db'.pages == db.pages
        && db'.mails == db.mails + [Mail(ConfirmedMail, id, Visitor), Mail(ConfirmedMail, id, Organiser)]
      case Move(id, start, end, _, _) =>
        && id in db.bookings && db'.pages == db.pages
        && db'.bookings == db.bookings[id := Booking(db.bookings[id].page, start, end, Confirmed)]
        && var was := RescheduledMail(db.bookings[id].start);
           db'.mails == db.mails + [Mail(was, id, Visitor), Mail(was, id, Organiser)]
      case Revoke(id, byOrganiser) =>
        && id in db.bookings && db'.pages == db.pages
        && db'.bookings == db.bookings[id := db.bookings[id].(status := Cancelled(byOrganiser))]
        && db'.mails == db.mails + [Mail(CancelledMail, id, Visitor), Mail(CancelledMail, id, Organiser)]
      case Replace(p, row) => db' == db.(pages := db.pages[p := row])
      case Nothing => db' == db
  {
    assert StageIsSound(s, s.txs[step.tx]);
  }

  lemma DeletedPageStaysDeleted(s: State, step: Step, p: PageId)
    requires Inv(s) && Enabled(s, step) && p in s.db.pages && !s.db.pages[p].live
    ensures p in Apply(s, step).db.pages && !Apply(s, step).db.pages[p].live
  {
    if step.Commit? {
      assert StageIsSound(s, s.txs[step.tx]);
    }
  }

  // ----- no deadlock -----

  /** t's next statement selects page row p, and another transaction holds it. */
  ghost predicate WaitsForPage(s: State, t: Tx, p: PageId) {
    SelectsPage(s.db, t, p) && !PageFree(s, p)
  }

  ghost predicate WaitsForBooking(s: State, t: Tx, b: BookingId) {
    SelectsBooking(s.db, t, b) && !BookingFree(s, b)
  }

  /** Some row lock that t's next statement needs is held by another transaction. */
  ghost predicate Waits(s: State, t: Tx) {
    (exists p :: WaitsForPage(s, t, p)) || (exists b :: WaitsForBooking(s, t, b))
  }

  lemma BookingHolderDoesNotWait(s: State, t: TxId)
    requires Inv(s) && t in s.txs && s.txs[t].bookingLock.Some?
    ensures !Waits(s, s.txs[t])
  {
    assert StageIsSound(s, s.txs[t]);
  }

  /** Locks are always taken page first, booking second: among any transactions under way, at least one
      is not waiting for a lock. */
  lemma NoDeadlock(s: State, t: TxId) returns (runner: TxId)
    requires Inv(s) && t in s.txs
    ensures runner in s.txs && !Waits(s, s.txs[runner])
  {
    runner := t;
    if exists p :: WaitsForPage(s, s.txs[runner], p) {
      var p :| WaitsForPage(s, s.txs[runner], p);
      runner :| runner in s.txs && s.txs[runner].pageLock == Some(p);
      assert StageIsSound(s, s.txs[runner]);
    }
    if exists b :: WaitsForBooking(s, s.txs[runner], b) {
      var b :| WaitsForBooking(s, s.txs[runner], b);
      runner :| runner in s.txs && s.txs[runner].bookingLock == Some(b);
      BookingHolderDoesNotWait(s, runner);
    }
  }

  // ----- the machine and the rest of the model -----

  /** Every statement of the job table is work that the protocol tolerates, scheduling anything but booking
      timers included. */
  lemma JobStatementsAreWork(t: J.Table, used: set<J.Id>, id: J.Id, ids: seq<J.Id>, replica: string, now: int,
                             message: seq<J.Utf8.Byte>, newId: J.Id, in_: J.Input)
    requires J.UniqueSlots(t) && t.Keys <= used && newId !in used && !in_.kind.BookingReminder?
    ensures WorkersMay(t, J.Stamped(t, ids, replica, now), used, used)
    ensures WorkersMay(t, J.Completed(t, id), used, used)
    ensures WorkersMay(t, J.Failed(t, id, message, now), used, used)
    ensures WorkersMay(t, J.Retried(t, id, now), used, used)
    ensures WorkersMay(t, J.Swept(t, now), used, used)
    ensures WorkersMay(t, J.Scheduled(t, newId, in_), used, used + {newId})
  {
    SameSlotsAreWork(t, J.Stamped(t, ids, replica, now), used);
    SameSlotsAreWork(t, J.Completed(t, id), used);
    SameSlotsAreWork(t, J.Failed(t, id, message, now), used);
    SameSlotsAreWork(t, J.Retried(t, id, now), used);
    SameSlotsAreWork(t, J.Swept(t, now), used);
    SchedulingIsWork(t, used, newId, in_);
  }

  lemma SameSlotsAreWork(t: J.Table, t': J.Table, used: set<J.Id>)
    requires J.UniqueSlots(t) && t.Keys <= used && J.SameSlots(t, t')
    ensures WorkersMay(t, t', used, used)
  {
    J.SameSlotsStayUnique(t, t');
  }

  lemma SchedulingIsWork(t: J.Table, used: set<J.Id>, newId: J.Id, in_: J.Input)
    requires J.UniqueSlots(t) && t.Keys <= used && newId !in used && !in_.kind.BookingReminder?
    ensures WorkersMay(t, J.Scheduled(t, newId, in_), used, used + {newId})
  {
    J.ScheduledKeepsSlots(t, newId, in_);
  }

  /** One step of the machine, its outcome named. */
  ghost predicate Moves(s: State, step: Step, s': State) {
    Enabled(s, step) && s' == Apply(s, step)
  }

  lemma BookTakesItsLock(s: State, tx: TxId, org: int, slug: string, start: int, p: PageId)
    returns (s1: State, s2: State)
    requires tx !in s.txs && PageFree(s, p) && LiveAt(s.db, org, slug, p) && !s.db.pages[p].paused
    ensures Moves(s, Begin(tx, BookRequest(org, slug, start)), s1) && Moves(s1, LockPage(tx, p), s2)
    ensures s2 == WithTx(s, tx, Tx(BookRequest(org, slug, start), Some(p), None, PageRead(p, s.db.pages[p])))
  {
    s1 := Apply(s, Begin(tx, BookRequest(org, slug, start)));
    s2 := Apply(s1, LockPage(tx, p));
  }

  lemma BookingDecides(s: State, tx: TxId, busy: seq<Interval>, extraBusy: seq<Interval>, now: int, newId: BookingId, jobId: J.Id)
    returns (s1: State, s2: State)
    requires tx in s.txs && MayReadBusy(s.txs[tx])
    requires newId !in s.usedBookings && jobId !in s.usedJobs
    requires var t := s.txs[tx];
      && Lists(s.db, t.stage.page, t.Start() - DAY, t.Start() + DAY, t.Exclude(), busy)
      && Admitted(t.stage.row.rules, busy + extraBusy, now, t.Start())
    ensures Moves(s, ReadBusy(tx, busy), s1) && Moves(s1, Decide(tx, extraBusy, now, newId, jobId), s2)
    ensures s2.db == s.db && tx in s2.txs
    ensures var t := s.txs[tx];
      s2.txs[tx].stage == Staged(Decision(t.(stage := BusyRead(t.stage.page, t.stage.row, busy)), newId, jobId))
  {
    s1 := Apply(s, ReadBusy(tx, busy));
    s2 := Apply(s1, Decide(tx, extraBusy, now, newId, jobId));
  }

  lemma StagedCommits(s: State, tx: TxId, e: Effect) returns (s1: State)
    requires tx in s.txs && s.txs[tx].stage == Staged(e)
    ensures Moves(s, Commit(tx), s1) && s1.db == Committed(s.db, e)
  {
    s1 := Apply(s, Commit(tx));
  }

  /** The service's own Book, run without interference, is a path of the machine. */
  lemma BookIsAPath(s: State, tx: TxId, org: int, slug: string, p: PageId, start: int, extraBusy: seq<Interval>, now: int,
                    newId: BookingId, jobId: J.Id, r: Result<Effect, Error>, busy: seq<Interval>)
    returns (s1: State, s2: State, s3: State, s4: State, s5: State)
    requires tx !in s.txs && PageFree(s, p) && newId !in s.usedBookings && jobId !in s.usedJobs
    requires LiveAt(s.db, org, slug, p)
    requires BookOutcome(s.db, p, start, extraBusy, now, newId, jobId, r, busy) && r.Ok?
    ensures Moves(s, Begin(tx, BookRequest(org, slug, start)), s1) && Moves(s1, LockPage(tx, p), s2)
    ensures Moves(s2, ReadBusy(tx, busy), s3) && Moves(s3, Decide(tx, extraBusy, now, newId, jobId), s4)
    ensures Moves(s4, Commit(tx), s5) && s5.db == Committed(s.db, r.value)
  {
    s1, s2 := BookTakesItsLock(s, tx, org, slug, start, p);
    s3, s4 := BookingDecides(s2, tx, busy, extraBusy, now, newId, jobId);
    s5 := StagedCommits(s4, tx, r.value);
  }

  lemma RescheduleTakesItsLocks(s: State, tx: TxId, b: BookingId, newStart: int, p: PageId)
    returns (s1: State, s2: State, s3: State)
    requires tx !in s.txs && PageFree(s, p) && BookingFree(s, b)
    requires ConfirmedOn(s.db, p, b) && p in s.db.pages && Bookable(s.db.pages[p])
    ensures Moves(s, Begin(tx, RescheduleRequest(b, newStart)), s1) && Moves(s1, LockPage(tx, p), s2) && Moves(s2, LockBooking(tx), s3)
    ensures s3.db == s.db && s3.usedBookings == s.usedBookings && s3.usedJobs == s.usedJobs && tx in s3.txs
    ensures s3.txs[tx] == Tx(RescheduleRequest(b, newStart), Some(p), Some(b), BookingRead(p, s.db.pages[p], s.db.bookings[b]))
  {
    s1 := Apply(s, Begin(tx, RescheduleRequest(b, newStart)));
    s2 := Apply(s1, LockPage(tx, p));
    assert s2 == WithTx(s, tx, Tx(RescheduleRequest(b, newStart), Some(p), None, PageRead(p, s.db.pages[p])));
    s3 := Apply(s2, LockBooking(tx));
  }

  /** What stands behind a successful outcome. */
  lemma RescheduleSucceeds(db: Db, b: BookingId, authorised: bool, newStart: int, extraBusy: seq<Interval>, now: int,
                           jobId: J.Id, r: Result<Effect, Error>, busy: seq<Interval>)
    requires RescheduleOutcome(db, b, authorised, newStart, extraBusy, now, jobId, r, busy) && r.Ok?
    ensures b in db.bookings && db.bookings[b].page in db.pages && Bookable(db.pages[db.bookings[b].page])
    ensures db.bookings[b].status.Confirmed?
    ensures var row := db.pages[db.bookings[b].page];
      && Lists(db, db.bookings[b].page, newStart - DAY, newStart + DAY, Some(b), busy)
      && Admitted(row.rules, busy + extraBusy, now, newStart)
      && r.value == Move(b, newStart, newStart + row.rules.Slot(), row.reminders, jobId)
  {
  }

  lemma RescheduleDecides(s: State, tx: TxId, b: BookingId, p: PageId, row: Page, newStart: int, extraBusy: seq<Interval>,
                          now: int, newId: BookingId, jobId: J.Id, busy: seq<Interval>)
    returns (s1: State, s2: State)
    requires newId !in s.usedBookings && jobId !in s.usedJobs && b in s.db.bookings
    requires tx in s.txs
      && s.txs[tx] == Tx(RescheduleRequest(b, newStart), Some(p), Some(b), BookingRead(p, row, s.db.bookings[b]))
    requires Lists(s.db, p, newStart - DAY, newStart + DAY, Some(b), busy)
    requires Admitted(row.rules, busy + extraBusy, now, newStart)
    ensures Moves(s, ReadBusy(tx, busy), s1) && Moves(s1, Decide(tx, extraBusy, now, newId, jobId), s2)
    ensures s2.db == s.db && tx in s2.txs
    ensures s2.txs[tx].stage == Staged(Move(b, newStart, newStart + row.rules.Slot(), row.reminders, jobId))
  {
    assert s.txs[tx].Start() == newStart && s.txs[tx].Exclude() == Some(b);
    s1, s2 := BookingDecides(s, tx, busy, extraBusy, now, newId, jobId);
  }

  lemma AdmittedMoveIsAPath(s: State, tx: TxId, b: BookingId, p: PageId, newStart: int, extraBusy: seq<Interval>, now: int,
                            newId: BookingId, jobId: J.Id, busy: seq<Interval>)
    returns (s1: State, s2: State, s3: State, s4: State, s5: State, s6: State)
    requires tx !in s.txs && newId !in s.usedBookings && jobId !in s.usedJobs && PageFree(s, p) && BookingFree(s, b)
    requires ConfirmedOn(s.db, p, b) && p in s.db.pages && Bookable(s.db.pages[p])
    requires Lists(s.db, p, newStart - DAY, newStart + DAY, Some(b), busy)
    requires Admitted(s.db.pages[p].rules, busy + extraBusy, now, newStart)
    ensures Moves(s, Begin(tx, RescheduleRequest(b, newStart)), s1) && Moves(s1, LockPage(tx, p), s2)
    ensures Moves(s2, LockBooking(tx), s3) && Moves(s3, ReadBusy(tx, busy), s4)
    ensures Moves(s4, Decide(tx, extraBusy, now, newId, jobId), s5) && Moves(s5, Commit(tx), s6)
    ensures var row := s.db.pages[p];
      s6.db == Committed(s.db, Move(b, newStart, newStart + row.rules.Slot(), row.reminders, jobId))
  {
    var row := s.db.pages[p];
    s1, s2, s3 := RescheduleTakesItsLocks(s, tx, b, newStart, p);
    s4, s5 := RescheduleDecides(s3, tx, b, p, row, newStart, extraBusy, now, newId, jobId, busy);
    s6 := StagedCommits(s5, tx, Move(b, newStart, newStart + row.rules.Slot(), row.reminders, jobId));
  }

  /** So is the service's own Reschedule. */
  lemma RescheduleIsAPath(s: State, tx: TxId, b: BookingId, authorised: bool, newStart: int, extraBusy: seq<Interval>, now: int,
                          newId: BookingId, jobId: J.Id, r: Result<Effect, Error>, busy: seq<Interval>)
    returns (s1: State, s2: State, s3: State, s4: State, s5: State, s6: State)
    requires tx !in s.txs && newId !in s.usedBookings && jobId !in s.usedJobs
    requires b in s.db.bookings ==> PageFree(s, s.db.bookings[b].page) && BookingFree(s, b)
    requires RescheduleOutcome(s.db, b, authorised, newStart, extraBusy, now, jobId, r, busy) && r.Ok?
    ensures b in s.db.bookings
    ensures Moves(s, Begin(tx, RescheduleRequest(b, newStart)), s1) && Moves(s1, LockPage(tx, s.db.bookings[b].page), s2)
    ensures Moves(s2, LockBooking(tx), s3) && Moves(s3, ReadBusy(tx, busy), s4)
    ensures Moves(s4, Decide(tx, extraBusy, now, newId, jobId), s5)
    ensures Moves(s5, Commit(tx), s6) && s6.db == Committed(s.db, r.value)
  {
    RescheduleSucceeds(s.db, b, authorised, newStart, extraBusy, now, jobId, r, busy);
    s1, s2, s3, s4, s5, s6 :=
      AdmittedMoveIsAPath(s, tx, b, s.db.bookings[b].page, newStart, extraBusy, now, newId, jobId, busy);
  }

  /** UpdatePage and DeletePage are paths too: an edit replaces every editable field and keeps the page's organization and
      whether it is live, a deletion ends that and nothing else. */
  lemma PageChangeIsAPath(s: State, tx: TxId, p: PageId, change: PageChange) returns (s1: State, s2: State, s3: State)
    requires tx !in s.txs && p in s.db.pages && PageFree(s, p) && ValidChange(PageRequest(p, change))
    ensures Moves(s, Begin(tx, PageRequest(p, change)), s1) && Moves(s1, LockPage(tx, p), s2) && Moves(s2, Commit(tx), s3)
    ensures var row := s.db.pages[p];
      s3.db == s.db.(pages := s.db.pages[p := match change
        case Edit(slug, rules, paused, reminders) => Page(row.org, slug, rules, paused, row.live, reminders)
        case Remove => Page(row.org, row.slug, row.rules, row.paused, false, row.reminders)])
  {
    s1 := Apply(s, Begin(tx, PageRequest(p, change)));
    s2 := Apply(s1, LockPage(tx, p));
    s3 := Apply(s2, Commit(tx));
  }

  /** And so is Cancel, which does nothing to a booking that is cancelled already. */
  lemma CancelIsAPath(s: State, tx: TxId, b: BookingId, byOrganiser: bool) returns (s1: State, s2: State, s3: State)
    requires tx !in s.txs && b in s.db.bookings && BookingFree(s, b)
    ensures Moves(s, Begin(tx, CancelRequest(b, byOrganiser)), s1) && Moves(s1, LockBooking(tx), s2) && Moves(s2, Commit(tx), s3)
    ensures s3.db == if CancelledIn(s.db, b) then s.db else Committed(s.db, Revoke(b, byOrganiser))
  {
    s1 := Apply(s, Begin(tx, CancelRequest(b, byOrganiser)));
    s2 := Apply(s1, LockBooking(tx));
    s3 := Apply(s2, Commit(tx));
  }
}
