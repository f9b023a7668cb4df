/**
  Booking creation, cancellation and rescheduling: internal/bookings/bookings.go, with the reminder
  and mail jobs of internal/bookings/emails.go and the page changes of internal/bookings/pages.go.

  This module holds the stored data, the effect of every committed transaction on it, and the
  service's own methods.  How transactions interleave is the subject of module BookingProtocol.
 */
module Bookings {
  import opened Common
  import opened Availability
  import J = Jobs

  type PageId = string
  type BookingId = string

  /** live: neither deleted nor suspended. */
  datatype Page = Page(org: int, slug: string, rules: Rules, paused: bool, live: bool, reminders: bool)

  datatype Status = Confirmed | Cancelled(byOrganiser: bool)

  datatype Booking = Booking(page: PageId, start: int, end: int, status: Status)
  {
    function Interval(): Interval { Availability.Interval.Interval(start, end) }
  }

  datatype MailKind = ConfirmedMail | CancelledMail | RescheduledMail(previousStart: int) | ReminderMail

  datatype Recipient = Visitor | Organiser

  datatype Mail = Mail(kind: MailKind, booking: BookingId, recipient: Recipient)

  /** jobs holds the reminder timers; mails lists every mail job ever queued, oldest first. */
  datatype Db = Db(pages: map<PageId, Page>, bookings: map<BookingId, Booking>, jobs: J.Table, mails: seq<Mail>)

  datatype Error = NotFound | InvalidToken | PagePaused | BookingPast | SlotTaken | Conflict | SlugTaken

  // ----- queries -----

  predicate ConfirmedOn(db: Db, page: PageId, id: BookingId) {
    id in db.bookings && db.bookings[id].page == page && db.bookings[id].status.Confirmed?
  }

  /** A row of the "confirmed bookings overlapping [from, to)" query, one booking left out. */
  predicate InWindow(db: Db, page: PageId, from: int, to: int, exclude: Option<BookingId>, id: BookingId) {
    && ConfirmedOn(db, page, id)
    && exclude != Some(id)
    && db.bookings[id].start < to
    && from < db.bookings[id].end
  }

  /** busy is an answer of that query: those rows' raw intervals and nothing else, in any order. */
  ghost predicate Lists(db: Db, page: PageId, from: int, to: int, exclude: Option<BookingId>, busy: seq<Interval>) {
    && (forall id :: InWindow(db, page, from, to, exclude, id) ==> db.bookings[id].Interval() in busy)
    && (forall b :: b in busy ==> exists id :: InWindow(db, page, from, to, exclude, id) && db.bookings[id].Interval() == b)
  }

  predicate LiveAt(db: Db, org: int, slug: string, p: PageId) {
    p in db.pages && db.pages[p].live && db.pages[p].org == org && db.pages[p].slug == slug
  }

  /** The unique index on the slugs of live pages. */
  ghost predicate UniqueSlugs(db: Db) {
    forall p, q :: p in db.pages && q in db.pages && p != q ==> !SameAddress(db.pages[p], db.pages[q])
  }

  predicate SameAddress(a: Page, b: Page) {
    a.live && b.live && a.org == b.org && a.slug == b.slug
  }

  // ----- timers and mails -----

  function ReminderRoom(id: BookingId): J.Room {
    J.Room("booking:" + id)
  }

  lemma ReminderRoomsDiffer(a: BookingId, b: BookingId)
    ensures ReminderRoom(a) == ReminderRoom(b) <==> a == b
  {
    assert ("booking:" + a)[|"booking:"|..] == a;
    assert ("booking:" + b)[|"booking:"|..] == b;
  }

  function ReminderInput(id: BookingId, start: int): J.Input {
    J.Input(J.BookingReminder, Some(ReminderRoom(id)), start - DAY, Some(id), 0)
  }

  function Armed(t: J.Table, jobId: J.Id, id: BookingId, start: int): J.Table {
    J.Scheduled(t, jobId, ReminderInput(id, start))
  }

  function Disarmed(t: J.Table, id: BookingId): J.Table {
    J.Cancelled(t, J.BookingReminder, ReminderRoom(id))
  }

  function MailPair(kind: MailKind, id: BookingId): seq<Mail> {
    [Mail(kind, id, Visitor), Mail(kind, id, Organiser)]
  }

  // ----- effects of committed transactions -----

  datatype Effect =
    | Insert(id: BookingId, page: PageId, start: int, end: int, remind: bool, jobId: J.Id)
    | Move(id: BookingId, start: int, end: int, remind: bool, jobId: J.Id)
    | Revoke(id: BookingId, byOrganiser: bool)
    | Replace(page: PageId, row: Page)
    | Nothing

  function Committed(db: Db, e: Effect): Db {
    match e
    case Insert(id, page, start, end, remind, jobId) =>
      db.(bookings := db.bookings[id := Booking(page, start, end, Confirmed)],
          jobs := if remind then Armed(db.jobs, jobId, id, start) else db.jobs,
          mails := db.mails + MailPair(ConfirmedMail, id))
    case Move(id, start, end, remind, jobId) =>
      if id !in db.bookings then db
      else db.(bookings := db.bookings[id := db.bookings[id].(start := start, end := end)],
               jobs := if remind then Armed(db.jobs, jobId, id, start) else Disarmed(db.jobs, id),
               mails := db.mails + MailPair(RescheduledMail(db.bookings[id].start), id))
    case Revoke(id, byOrganiser) =>
      if id !in db.bookings then db
      else db.(bookings := db.bookings[id := db.bookings[id].(status := Cancelled(byOrganiser))],
               jobs := Disarmed(db.jobs, id),
               mails := db.mails + MailPair(CancelledMail, id))
    case Replace(page, row) => db.(pages := db.pages[page := row])
    case Nothing => db
  }

  // ----- the decision taken while the page is locked -----

  /** The candidate start passes the in-lock check against busy: not past, and an available slot. */
  ghost predicate Admitted(rules: Rules, busy: seq<Interval>, now: int, start: int) {
    now <= start && Emitted(rules, busy, now, start - DAY, start + DAY, start)
  }

  /** The candidate, padded by the buffers, misses every confirmed booking of the page but one. */
  ghost predicate Misses(db: Db, page: PageId, rules: Rules, start: int, exclude: Option<BookingId>) {
    forall id :: ConfirmedOn(db, page, id) && exclude != Some(id) ==>
      !Overlaps(rules.Padded(start), db.bookings[id].Interval())
  }

  /** The lookup of a day either side is wide enough: no stored duration and buffers reach past it. */
  lemma WindowSuffices(db: Db, page: PageId, rules: Rules, start: int, exclude: Option<BookingId>, busy: seq<Interval>, now: int)
    requires StoredRules(rules)
    requires forall id :: InWindow(db, page, start - DAY, start + DAY, exclude, id) ==> db.bookings[id].Interval() in busy
    requires Admitted(rules, busy, now, start)
    ensures Misses(db, page, rules, start, exclude)
  {
    forall id | ConfirmedOn(db, page, id) && exclude != Some(id)
      ensures !Overlaps(rules.Padded(start), db.bookings[id].Interval())
    {
      var b := db.bookings[id].Interval();
      if Overlaps(rules.Padded(start), b) {
        assert InWindow(db, page, start - DAY, start + DAY, exclude, id);
      }
    }
  }

  /** The in-lock check, in the page's own terms: notice, horizon, grid and the busy intervals from elsewhere admit the
      start, and its padding misses every confirmed booking of the page but the one left out. */
  lemma AdmittedIff(db: Db, page: PageId, rules: Rules, start: int, exclude: Option<BookingId>, busy: seq<Interval>,
                    extraBusy: seq<Interval>, now: int)
    requires StoredRules(rules) && Lists(db, page, start - DAY, start + DAY, exclude, busy)
    ensures Admitted(rules, busy + extraBusy, now, start) <==>
      IsSlot(rules, extraBusy, now, start) && Misses(db, page, rules, start, exclude)
  {
    var all := busy + extraBusy;
    SingleSlotCheckIsExact(rules, all, now, start);
    if Admitted(rules, all, now, start) {
      WindowSuffices(db, page, rules, start, exclude, all, now);
      forall j | 0 <= j < |extraBusy| ensures !Overlaps(rules.Padded(start), extraBusy[j]) {
        assert all[|busy| + j] == extraBusy[j];
      }
      assert Free(rules, extraBusy, start);
    } else if IsSlot(rules, extraBusy, now, start) {
      OnlyOverlappingBookingsMatter(rules, extraBusy, all, now, start);
      var b :| b in all && b !in extraBusy && Overlaps(rules.Padded(start), b);
      var id :| InWindow(db, page, start - DAY, start + DAY, exclude, id) && db.bookings[id].Interval() == b;
      assert !Misses(db, page, rules, start, exclude);
    }
  }

  /** What booking start on page p comes to. */
  ghost predicate BookOutcome(db: Db, p: PageId, start: int, extraBusy: seq<Interval>, now: int,
                              newId: BookingId, jobId: J.Id, r: Result<Effect, Error>, busy: seq<Interval>)
    requires p in db.pages
  {
    var page := db.pages[p];
    if page.paused then r == Err(PagePaused)
    else if start < now then r == Err(BookingPast)
    else
      && Lists(db, p, start - DAY, start + DAY, None, busy)
      && r == if Admitted(page.rules, busy + extraBusy, now, start)
              then Ok(Insert(newId, p, start, start + page.rules.Slot(), page.reminders, jobId))
              else Err(SlotTaken)
  }

  /** Book in the caller's terms: when it succeeds, and what every refusal means. */
  lemma BookSucceedsIff(db: Db, p: PageId, start: int, extraBusy: seq<Interval>, now: int, newId: BookingId, jobId: J.Id,
                        r: Result<Effect, Error>, busy: seq<Interval>)
    requires p in db.pages && StoredRules(db.pages[p].rules)
    requires BookOutcome(db, p, start, extraBusy, now, newId, jobId, r, busy)
    ensures var page := db.pages[p];
      && (r == Err(PagePaused) <==> page.paused)
      && (r == Err(BookingPast) <==> !page.paused && start < now)
      && (r.Ok? <==> !page.paused && IsSlot(page.rules, extraBusy, now, start) && Misses(db, p, page.rules, start, None))
      && (r.Err? ==> r.error.PagePaused? || r.error.BookingPast? || r.error.SlotTaken?)
  {
    if !db.pages[p].paused && now <= start {
      AdmittedIff(db, p, db.pages[p].rules, start, None, busy, extraBusy, now);
    }
  }

  /** What moving booking id to newStart comes to. */
  ghost predicate RescheduleOutcome(db: Db, id: BookingId, authorised: bool, newStart: int, extraBusy: seq<Interval>,
                                    now: int, jobId: J.Id, r: Result<Effect, Error>, busy: seq<Interval>) {
    if id !in db.bookings then r == Err(NotFound)
    else if !authorised then r == Err(InvalidToken)
    else
      var p := db.bookings[id].page;
      if p !in db.pages || !db.pages[p].live then r == Err(NotFound)
      else
        var page := db.pages[p];
        if page.paused then r == Err(PagePaused)
        else if db.bookings[id].status.Cancelled? then r == Err(Conflict)
        else if newStart < now then r == Err(BookingPast)
        else
          && Lists(db, p, newStart - DAY, newStart + DAY, Some(id), busy)
          && r == if Admitted(page.rules, busy + extraBusy, now, newStart)
                  then Ok(Move(id, newStart, newStart + page.rules.Slot(), page.reminders, jobId))
                  else Err(SlotTaken)
  }

  predicate OnLivePage(db: Db, id: BookingId) {
    id in db.bookings && db.bookings[id].page in db.pages && db.pages[db.bookings[id].page].live
  }

  /** Reschedule in the caller's terms. */
  lemma RescheduleSucceedsIff(db: Db, id: BookingId, authorised: bool, newStart: int, extraBusy: seq<Interval>, now: int,
                              jobId: J.Id, r: Result<Effect, Error>, busy: seq<Interval>)
    requires forall p :: p in db.pages ==> StoredRules(db.pages[p].rules)
    requires RescheduleOutcome(db, id, authorised, newStart, extraBusy, now, jobId, r, busy)
    ensures r == Err(InvalidToken) <==> id in db.bookings && !authorised
    ensures r == Err(NotFound) <==> id !in db.bookings || (authorised && !OnLivePage(db, id))
    ensures r == Err(PagePaused) <==> OnLivePage(db, id) && authorised && db.pages[db.bookings[id].page].paused
    ensures r == Err(Conflict) <==>
      OnLivePage(db, id) && authorised && !db.pages[db.bookings[id].page].paused && db.bookings[id].status.Cancelled?
    ensures OnLivePage(db, id) && authorised && !db.pages[db.bookings[id].page].paused && db.bookings[id].status.Confirmed? ==>
      var p := db.bookings[id].page;
      && (r == Err(BookingPast) <==> newStart < now)
      && (r.Ok? <==> IsSlot(db.pages[p].rules, extraBusy, now, newStart) && Misses(db, p, db.pages[p].rules, newStart, Some(id)))
      && (r.Err? ==> r.error.BookingPast? || r.error.SlotTaken?)
  {
    if OnLivePage(db, id) && authorised && now <= newStart
      && !db.pages[db.bookings[id].page].paused && db.bookings[id].status.Confirmed? {
      var p := db.bookings[id].page;
      AdmittedIff(db, p, db.pages[p].rules, newStart, Some(id), busy, extraBusy, now);
    }
  }

  // ----- the service -----

  class Service {
    var db: Db

    ghost predicate Valid()
      reads this
    {
      && UniqueSlugs(db)
      && J.UniqueSlots(db.jobs)
      && forall p :: p in db.pages ==> StoredRules(db.pages[p].rules)
    }

    constructor (pages: map<PageId, Page>)
      requires UniqueSlugs(Db(pages, map[], map[], [])) && forall p :: p in pages ==> StoredRules(pages[p].rules)
      ensures Valid() && db == Db(pages, map[], map[], [])
    {
      db := Db(pages, map[], map[], []);
    }

    method BookedIntervalsForPage(page: PageId, from: int, to: int, exclude: Option<BookingId>) returns (busy: seq<Interval>)
      ensures Lists(db, page, from, to, exclude, busy)
      ensures forall b :: b in busy <==>
        exists id :: id in db.bookings && exclude != Some(id)
          && db.bookings[id] == Booking(page, b.start, b.end, Confirmed) && b.start < to && from < b.end
    {
      busy := [];
      var todo := db.bookings.Keys;
      while todo != {}
        invariant todo <= db.bookings.Keys
        invariant forall id :: InWindow(db, page, from, to, exclude, id) ==> id in todo || db.bookings[id].Interval() in busy
        invariant forall b :: b in busy ==> exists id :: InWindow(db, page, from, to, exclude, id) && db.bookings[id].Interval() == b
        decreases todo
      {
        var id :| id in todo;
        if InWindow(db, page, from, to, exclude, id) {
          busy := busy + [db.bookings[id].Interval()];
        }
        todo := todo - {id};
      }
    }

    /** The check under the page lock: fresh confirmed bookings plus the busy intervals from elsewhere. */
    method CheckSlot(page: PageId, start: int, exclude: Option<BookingId>, extraBusy: seq<Interval>, now: int)
      returns (available: bool, ghost busy: seq<Interval>)
      requires Valid() && page in db.pages
      ensures Lists(db, page, start - DAY, start + DAY, exclude, busy)
      ensures now <= start ==> (available <==> Admitted(db.pages[page].rules, busy + extraBusy, now, start))
      ensures available && now <= start ==> Misses(db, page, db.pages[page].rules, start, exclude)
    {
      var existing := BookedIntervalsForPage(page, start - DAY, start + DAY, exclude);
      busy := existing;
      available := IsSlotAvailable(db.pages[page].rules, start, now, existing + extraBusy);
      if available && now <= start {
        WindowSuffices(db, page, db.pages[page].rules, start, exclude, existing + extraBusy, now);
      }
    }

    method WriteBooking(id: BookingId, page: PageId, start: int, end: int, remind: bool, jobId: J.Id)
      requires Valid() && jobId !in db.jobs
      modifies this
      ensures Valid()
      ensures db == Committed(old(db), Insert(id, page, start, end, remind, jobId))
      ensures db.bookings == old(db).bookings[id := Booking(page, start, end, Confirmed)]
      ensures db.mails == old(db).mails + [Mail(ConfirmedMail, id, Visitor), Mail(ConfirmedMail, id, Organiser)]
      ensures if remind
        then jobId in db.jobs && db.jobs[jobId] == J.Job(J.BookingReminder, Some(J.Room("booking:" + id)), start - DAY, Some(id), 0, 5, None, None)
        else db.jobs == old(db).jobs
    {
      db := db.(bookings := db.bookings[id := Booking(page, start, end, Confirmed)]);
      db := db.(mails := db.mails + MailPair(ConfirmedMail, id));
      if remind {
        J.ScheduledKeepsSlots(db.jobs, jobId, ReminderInput(id, start));
        db := db.(jobs := Armed(db.jobs, jobId, id, start));
      }
    }

    method MoveBooking(id: BookingId, start: int, end: int, remind: bool, jobId: J.Id)
      requires Valid() && jobId !in db.jobs && id in db.bookings
      modifies this
      ensures Valid()
      ensures db == Committed(old(db), Move(id, start, end, remind, jobId))
      ensures db.bookings == old(db).bookings[id := old(db).bookings[id].(start := start, end := end)]
      ensures var was := RescheduledMail(old(db).bookings[id].start);
        db.mails == old(db).mails + [Mail(was, id, Visitor), Mail(was, id, Organiser)]
      ensures remind ==>
           && jobId in db.jobs
           && db.jobs[jobId] == J.Job(J.BookingReminder, Some(J.Room("booking:" + id)), start - DAY, Some(id), 0, 5, None, None)
      ensures forall j :: j in db.jobs && !(remind && j == jobId) ==>
        !(db.jobs[j].kind.BookingReminder? && db.jobs[j].room == Some(J.Room("booking:" + id)))
      ensures forall j :: j in old(db).jobs && j != jobId ==>
        if old(db).jobs[j].kind.BookingReminder? && old(db).jobs[j].room == Some(J.Room("booking:" + id))
        then j !in db.jobs else j in db.jobs && db.jobs[j] == old(db).jobs[j]
    {
      var previousStart := db.bookings[id].start;
      db := db.(bookings := db.bookings[id := db.bookings[id].(start := start, end := end)]);
      db := db.(mails := db.mails + MailPair(RescheduledMail(previousStart), id));
      if remind {
        J.ScheduledKeepsSlots(db.jobs, jobId, ReminderInput(id, start));
        db := db.(jobs := Armed(db.jobs, jobId, id, start));
      } else {
        db := db.(jobs := Disarmed(db.jobs, id));
      }
    }

    method FindLive(org: int, slug: string) returns (p: Option<PageId>)
      requires Valid()
      ensures p.None? ==> forall q :: !LiveAt(db, org, slug, q)
      ensures p.Some? ==> LiveAt(db, org, slug, p.value) && forall q :: LiveAt(db, org, slug, q) ==> q == p.value
      ensures forall q :: p == Some(q) <==> q in db.pages && db.pages[q].live && db.pages[q].org == org && db.pages[q].slug == slug
    {
      if !exists q :: q in db.pages && LiveAt(db, org, slug, q) {
        return None;
      }
      var q :| q in db.pages && LiveAt(db, org, slug, q);
      p := Some(q);
    }

    /** Books start on the live page at (org, slug).  extraBusy are busy intervals from elsewhere. */
    method Book(org: int, slug: string, start: int, extraBusy: seq<Interval>, now: int, newId: BookingId, jobId: J.Id)
      returns (r: Result<Effect, Error>, ghost busy: seq<Interval>)
      requires Valid() && newId !in db.bookings && jobId !in db.jobs
      modifies this
      ensures Valid()
      ensures db == if r.Ok? then Committed(old(db), r.value) else old(db)
      ensures r == Err(NotFound) <==> forall p :: !LiveAt(old(db), org, slug, p)
      ensures forall p :: LiveAt(old(db), org, slug, p) ==> BookOutcome(old(db), p, start, extraBusy, now, newId, jobId, r, busy)
      ensures r.Ok? ==> newId in db.bookings && LiveAt(db, org, slug, db.bookings[newId].page) && db.pages == old(db).pages
      ensures r.Ok? ==>
        var b := db.bookings[newId];
        && b == Booking(b.page, start, start + db.pages[b.page].rules.slotMin * MINUTE, Confirmed)
        && db.bookings == old(db).bookings[newId := b]
        && db.mails == old(db).mails + [Mail(ConfirmedMail, newId, Visitor), Mail(ConfirmedMail, newId, Organiser)]
        && if db.pages[b.page].reminders
           then
                && jobId in db.jobs
                && db.jobs[jobId] == J.Job(J.BookingReminder, Some(J.Room("booking:" + newId)), b.start - DAY, Some(newId), 0, 5, None, None)
           else db.jobs == old(db).jobs
    {
      busy := [];
      var found := FindLive(org, slug);
      if found.None? {
        return Err(NotFound), busy;
      }
      var p := found.value;
      var page := db.pages[p];
      if page.paused {
        return Err(PagePaused), busy;
      }
      if start < now {
        return Err(BookingPast), busy;
      }
      var available;
      available, busy := CheckSlot(p, start, None, extraBusy, now);
      if !available {
        return Err(SlotTaken), busy;
      }
      var end := start + page.rules.Slot();
      WriteBooking(newId, p, start, end, page.reminders, jobId);
      return Ok(Insert(newId, p, start, end, page.reminders, jobId)), busy;
    }

    /** Cancelling a cancelled booking succeeds and changes nothing. */
    method Cancel(id: BookingId, tokenMatches: bool, byOrganiser: bool) returns (r: Result<Effect, Error>)
      requires Valid()
      modifies this
      ensures Valid()
      ensures r == Err(NotFound) <==> id !in old(db).bookings
      ensures r == Err(InvalidToken) <==> id in old(db).bookings && !byOrganiser && !tokenMatches
      ensures r.Err? ==> r.error.NotFound? || r.error.InvalidToken?
      ensures r.Ok? ==> r.value == if old(db).bookings[id].status.Cancelled? then Nothing else Revoke(id, byOrganiser)
      ensures db == if r.Ok? then Committed(old(db), r.value) else old(db)
      ensures r.Ok? && old(db).bookings[id].status.Cancelled? ==> db == old(db)
      ensures r.Ok? && old(db).bookings[id].status.Confirmed? ==>
        && db.bookings == old(db).bookings[id := old(db).bookings[id].(status := Cancelled(byOrganiser))]
        && db.mails == old(db).mails + [Mail(CancelledMail, id, Visitor), Mail(CancelledMail, id, Organiser)]
        && db.pages == old(db).pages
      ensures r.Ok? && old(db).bookings[id].status.Confirmed? ==>
        && (forall j :: j in db.jobs <==>
              j in old(db).jobs && !(old(db).jobs[j].kind.BookingReminder? && old(db).jobs[j].room == Some(J.Room("booking:" + id))))
        && forall j :: j in db.jobs ==> db.jobs[j] == old(db).jobs[j]
    {
      if id !in db.bookings {
        return Err(NotFound);
      }
      if !byOrganiser && !tokenMatches {
        return Err(InvalidToken);
      }
      var booking := db.bookings[id];
      if booking.status.Cancelled? {
        return Ok(Nothing);
      }
      db := db.(bookings := db.bookings[id := booking.(status := Cancelled(byOrganiser))]);
      db := db.(mails := db.mails + MailPair(CancelledMail, id));
      db := db.(jobs := Disarmed(db.jobs, id));
      return Ok(Revoke(id, byOrganiser));
    }

    /** The second half of a reschedule: the check under the locks and the writes. */
    method MoveIfAvailable(id: BookingId, page: Page, newStart: int, extraBusy: seq<Interval>, now: int, jobId: J.Id)
      returns (r: Result<Effect, Error>, ghost busy: seq<Interval>)
      requires Valid() && jobId !in db.jobs && now <= newStart
      requires id in db.bookings && db.bookings[id].page in db.pages && db.pages[db.bookings[id].page] == page
      modifies this
      ensures Valid()
      ensures Lists(old(db), old(db).bookings[id].page, newStart - DAY, newStart + DAY, Some(id), busy)
      ensures r == if Admitted(page.rules, busy + extraBusy, now, newStart)
                   then Ok(Move(id, newStart, newStart + page.rules.Slot(), page.reminders, jobId)) else Err(SlotTaken)
      ensures db == if r.Ok? then Committed(old(db), r.value) else old(db)
      ensures r.Ok? ==>
        var was := old(db).bookings[id];
        && db.pages == old(db).pages
        && db.bookings == old(db).bookings[id := was.(start := newStart, end := newStart + page.rules.slotMin * MINUTE)]
        && db.mails == old(db).mails + [Mail(RescheduledMail(was.start), id, Visitor), Mail(RescheduledMail(was.start), id, Organiser)]
        && (page.reminders ==>
             && jobId in db.jobs
             && db.jobs[jobId] == J.Job(J.BookingReminder, Some(J.Room("booking:" + id)), db.bookings[id].start - DAY, Some(id), 0, 5, None, None))
        && forall j :: j in db.jobs && !(page.reminders && j == jobId) ==>
             !(db.jobs[j].kind.BookingReminder? && db.jobs[j].room == Some(J.Room("booking:" + id)))
    {
      var available;
      available, busy := CheckSlot(db.bookings[id].page, newStart, Some(id), extraBusy, now);
      if !available {
        return Err(SlotTaken), busy;
      }
      var end := newStart + page.rules.Slot();
      MoveBooking(id, newStart, end, page.reminders, jobId);
      return Ok(Move(id, newStart, end, page.reminders, jobId)), busy;
    }

    method Reschedule(id: BookingId, authorised: bool, newStart: int, extraBusy: seq<Interval>, now: int, jobId: J.Id)
      returns (r: Result<Effect, Error>, ghost busy: seq<Interval>)
      requires Valid() && jobId !in db.jobs
      modifies this
      ensures Valid()
      ensures db == if r.Ok? then Committed(old(db), r.value) else old(db)
      ensures RescheduleOutcome(old(db), id, authorised, newStart, extraBusy, now, jobId, r, busy)
      ensures r.Ok? ==> id in old(db).bookings && old(db).bookings[id].page in db.pages && db.pages == old(db).pages
      ensures r.Ok? ==>
        var was, page := old(db).bookings[id], db.pages[old(db).bookings[id].page];
        && db.bookings == old(db).bookings[id := Booking(was.page, newStart, newStart + page.rules.slotMin * MINUTE, Confirmed)]
        && db.mails == old(db).mails + [Mail(RescheduledMail(was.start), id, Visitor), Mail(RescheduledMail(was.start), id, Organiser)]
        && (page.reminders ==>
             && jobId in db.jobs
             && db.jobs[jobId] == J.Job(J.BookingReminder, Some(J.Room("booking:" + id)), db.bookings[id].start - DAY, Some(id), 0, 5, None, None))
        && forall j :: j in db.jobs && !(page.reminders && j == jobId) ==>
             !(db.jobs[j].kind.BookingReminder? && db.jobs[j].room == Some(J.Room("booking:" + id)))
    {
      busy := [];
      if id !in db.bookings {
        return Err(NotFound), busy;
      }
      if !authorised {
        return Err(InvalidToken), busy;
      }
      var p := db.bookings[id].page;
      if p !in db.pages || !db.pages[p].live {
        return Err(NotFound), busy;
      }
      var page := db.pages[p];
      if page.paused {
        return Err(PagePaused), busy;
      }
      if db.bookings[id].status.Cancelled? {
        return Err(Conflict), busy;
      }
      if newStart < now {
        return Err(BookingPast), busy;
      }
      r, busy := MoveIfAvailable(id, page, newStart, extraBusy, now, jobId);
    }

    /** Replaces every editable field of a live page of org; the rules have passed validation. */
    method UpdatePage(p: PageId, org: int, slug: string, rules: Rules, paused: bool, reminders: bool)
      returns (r: Result<Effect, Error>)
      requires Valid() && StoredRules(rules)
      modifies this
      ensures Valid()
      ensures db == if r.Ok? then Committed(old(db), r.value) else old(db)
      ensures r == Err(NotFound) <==> !(p in old(db).pages && old(db).pages[p].live && old(db).pages[p].org == org)
      ensures r == Err(SlugTaken) ==> exists q :: q != p && LiveAt(old(db), org, slug, q)
      ensures r.Err? ==> r.error.NotFound? || r.error.SlugTaken?
      ensures r.Ok? ==> r.value == Replace(p, Page(org, slug, rules, paused, true, reminders))
      ensures r.Ok? ==> db == old(db).(pages := old(db).pages[p := Page(org, slug, rules, paused, true, reminders)])
      ensures r.Ok? ==> forall q :: LiveAt(db, org, slug, q) ==> q == p
    {
      if !(p in db.pages && db.pages[p].live && db.pages[p].org == org) {
        return Err(NotFound);
      }
      var row := Page(org, slug, rules, paused, true, reminders);
      if exists q :: q in db.pages && q != p && SameAddress(row, db.pages[q]) {
        var q :| q in db.pages && q != p && SameAddress(row, db.pages[q]);
        assert LiveAt(db, org, slug, q);
        return Err(SlugTaken);
      }
      db := db.(pages := db.pages[p := row]);
      return Ok(Replace(p, row));
    }

    /** A soft delete: the row and its bookings stay, and its slug becomes free. */
    method DeletePage(p: PageId, org: int) returns (r: Result<Effect, Error>)
      requires Valid()
      modifies this
      ensures Valid()
      ensures db == if r.Ok? then Committed(old(db), r.value) else old(db)
      ensures r.Err? <==> !(p in old(db).pages && old(db).pages[p].live && old(db).pages[p].org == org)
      ensures r.Err? ==> r == Err(NotFound)
      ensures r.Ok? ==> r.value == Replace(p, old(db).pages[p].(live := false))
      ensures r.Ok? ==> db == old(db).(pages := old(db).pages[p := old(db).pages[p].(live := false)])
    {
      if !(p in db.pages && db.pages[p].live && db.pages[p].org == org) {
        return Err(NotFound);
      }
      var row := db.pages[p].(live := false);
      db := db.(pages := db.pages[p := row]);
      return Ok(Replace(p, row));
    }

    /** The bookable starts of the live page at (org, slug), or None when there is none. */
    method PublicAvailability(org: int, slug: string, now: int, from: int, to: int)
      returns (slots: Option<seq<int>>, ghost busy: seq<Interval>)
      requires Valid()
      ensures slots.None? <==> forall p :: !LiveAt(db, org, slug, p)
      ensures forall p :: LiveAt(db, org, slug, p) ==>
        && Lists(db, p, from, to, None, busy)
        && StrictlyIncreasing(slots.value)
        && forall s :: s in slots.value <==> Emitted(db.pages[p].rules, busy, now, from, to, s)
    {
      busy := [];
      if !exists p :: p in db.pages && LiveAt(db, org, slug, p) {
        return None, busy;
      }
      var p :| p in db.pages && LiveAt(db, org, slug, p);
      var existing := BookedIntervalsForPage(p, from, to, None);
      busy := existing;
      var listed := Slots(db.pages[p].rules, existing, now, from, to);
      slots := Some(listed);
    }
  }

  // ----- what the public list promises -----

  /** Padded interval of s inside the queried window. */
  predicate Inside(rules: Rules, s: int, from: int, to: int) {
    from <= rules.Padded(s).start && rules.Padded(s).end <= to
  }

  /** A listed start is bookable, at the same instant and database state, exactly when no confirmed
      booking that the list's own window missed overlaps it. */
  lemma ListedSlotIsBookableIff(db: Db, page: PageId, rules: Rules, now: int, from: int, to: int, s: int,
                                listBusy: seq<Interval>, bookBusy: seq<Interval>)
    requires StoredRules(rules)
    requires Lists(db, page, from, to, None, listBusy)
    requires Lists(db, page, s - DAY, s + DAY, None, bookBusy)
    requires Emitted(rules, listBusy, now, from, to, s)
    ensures Admitted(rules, bookBusy, now, s) <==>
      forall id :: ConfirmedOn(db, page, id) && !InWindow(db, page, from, to, None, id) ==>
        !Overlaps(rules.Padded(s), db.bookings[id].Interval())
  {
    SingleSlotCheckIsExact(rules, bookBusy, now, s);
    GeneratorAndCheckAgree(rules, listBusy, now, from, to, s);
    SingleSlotCheckIsExact(rules, listBusy, now, s);
    OnlyOverlappingBookingsMatter(rules, listBusy, bookBusy, now, s);
    if Admitted(rules, bookBusy, now, s) {
      WindowSuffices(db, page, rules, s, None, bookBusy, now);
    } else {
      var b :| b in bookBusy && b !in listBusy && Overlaps(rules.Padded(s), b);
      var id :| InWindow(db, page, s - DAY, s + DAY, None, id) && db.bookings[id].Interval() == b;
      assert !InWindow(db, page, from, to, None, id);
    }
  }

  /** In particular every listed start whose padded interval lies inside the window is bookable. */
  lemma ListedSlotInsideWindowIsBookable(db: Db, page: PageId, rules: Rules, now: int, from: int, to: int, s: int,
                                         listBusy: seq<Interval>, bookBusy: seq<Interval>)
    requires StoredRules(rules) && Inside(rules, s, from, to)
    requires Lists(db, page, from, to, None, listBusy)
    requires Lists(db, page, s - DAY, s + DAY, None, bookBusy)
    requires Emitted(rules, listBusy, now, from, to, s)
    ensures Admitted(rules, bookBusy, now, s)
  {
    ListedSlotIsBookableIff(db, page, rules, now, from, to, s, listBusy, bookBusy);
  }
}
