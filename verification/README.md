# Whenweall: a verified model of its scheduling core

Whenweall is a Go application for booking pages, sign-up sheets and polls in which Postgres row locks do the
work of a protocol. This project models the parts whose correctness does not show in any one function, and
proves what they promise.

| file | what it models |
|---|---|
| `Availability.dfy` | the slot generator: time zones, per-range grids, buffers, notice, horizon |
| `Schemas.dfy` | validation of a booking page, and that it establishes what the generator relies on |
| `Bookings.dfy`, `BookingProtocol.dfy` | Book, Reschedule, Cancel, UpdatePage, DeletePage: the service, and the same calls interleaved in any way |
| `Jobs.dfy`, `JobRuns.dfy`, `Workers.dfy` | the `scheduled_jobs` table, any number of workers on it, and one worker's loop |
| `Claims.dfy`, `ClaimProtocol.dfy`, `Announcements.dfy` | sign-up claims: the service, the two-lock protocol, the announcement of a full sheet |
| `Utf8.dfy`, `Ics.dfy`, `IcsReader.dfy` | iCalendar printing (sections 3.1 and 3.3.11 of RFC 5545) with a reader of lines and one of events, on octets |
| `Digits.dfy`, `Roster.dfy` | the roster CSV with a reader (section 2 of RFC 4180) |
| `RateLimit.dfy` | the fixed-window limiter and the sweep of its table |
| `Keyset.dfy` | walking a growing table by a (created_at, id) keyset |
| `Cascade.dfy`, `CascadeRaces.dfy` | what deleting a user does to organizations, and what deletions at the same time do |
| `Slug.dfy` | the personal organization slug |
| `Common.dfy` | Option, Result, durations, facts about sequences and sets |

How it is built:

- Instants and durations are integer nanoseconds; dates are day numbers. A zone is a function from instants to
  offsets together with the offset `time.Date` picks for a wall clock. What is taken from the zone database is
  stated in `ValidZone`: offsets are whole seconds and less than a day, offsets in force within four days of each
  other differ by at most a day (a zone that once moved across the date line, such as Asia/Manila, included), and the
  offset picked is one in force within a day of the wall clock.
- A concurrent protocol is a state machine. Every SQL statement that reads under READ COMMITTED, takes a row lock
  or decides something is a step of its own; staged writes become visible at the commit step; any transaction may
  end without effect at any moment. An invariant is proved of every step and so of every state of every run.
- Each service is also a class whose methods follow the Go code statement by statement and are proved against the
  same effects; the `...IsAPath` lemmas show that an undisturbed call is a path of the machine.
- A function that several contracts lean on (`Committed`, `Scheduled`, `FailedRow`, `OfferedOn`, `Stem`, ...) is also
  stated row by row or in the caller's terms, without its name: see `SlotSpelledOut`, `BookSucceedsIff`,
  `CommitWritesWhatWasStaged`, `ClaimSpelledOut`, `ClaimSucceedsIff`, `PageSpelledOut` and the contracts of the services.
- Texts of the calendar printer are octet sequences, because lines are measured in octets and must not cut a code
  point; texts of the other printers are character sequences.

Where the code and its comments or the expectations around it part, the model follows the code:

- The comment of `FoldLine` (internal/ics/ics.go:41-46) gives the 74-octet budget to the first continuation line;
  the code gives it to every continuation line, which is what keeps each of them within 75 octets.
- The comment of `PublicAvailability` (internal/bookings/bookings.go:199-202) says that a paused page gives no list;
  the code lists its slots all the same, and only Book refuses them.
- A long line that is not valid UTF-8 comes back with U+FFFD in place of the bad octets; a short one comes back as
  it is (`Ics.ReadableIsIdentityIff`).
- Exclusive runs of a job are not a promise: `JobRuns.TwoWorkersCanRunOneJob` gives a run with two workers on one
  row. `JobRuns.SecondClaimIffReleasedOrStale` says exactly when a row with a run under way can be claimed again, and
  `JobRuns.TimelyRunsAreExclusive` what buys exclusivity: runs that are over, recording included, within five minutes.
- The claim budget is one of participant rows: `ClaimProtocol.RacingUserGetsTwoRows` gives a run in which one
  signed-in user holds two claims on a sheet that allows one. `ClaimProtocol.SecondRowIffCommittedBetween` says
  exactly when a commit gives a user a second row, and without such races a user keeps to one budget.
- The stored flag that internal/polls/claims.go:462-473 describes and the recomputation that replaced it agree over
  claims and unclaims; a removed participant can part them, and `Announcements.RulesPartIff` says exactly when.
- Two co-owners who delete their accounts at once can leave their organization without an owner, since the cascade
  reads without locks: `CascadeRaces.OrphanedIff` says exactly when, and deletions that do not overlap never do.
- The rate limit is tighter than twice the limit: `2 * limit - 1`, and no bound below that holds.
- The public list is exact for a slot whose padded interval lies inside the queried window; for any other listed
  slot `Bookings.ListedSlotIsBookableIff` says exactly when it can be booked.

## Model

| member | source | states |
|---|---|---|
| Availability.Slots | internal/bookings/availability.go:116-206 | the starts returned are strictly increasing and are exactly those of the declarative set, cut off at the horizon date; an unknown zone or an inverted window gives none |
| Availability.IsSlotAvailable | internal/bookings/availability.go:211-220 | true exactly when the start is in the set for the window of a day either side of it |
| Availability.AddRange | internal/bookings/availability.go:161-199 | the grid loop over one range adds exactly its admissible grid starts, each once, keyed by milliseconds |
| Availability.Consider | internal/bookings/availability.go:173-198 | one candidate is added just when notice, horizon and padded bookings admit it and it is new |
| Availability.Conflicts | internal/bookings/availability.go:183-192 | true exactly when some booking overlaps the padded candidate |
| Availability.AddDate | internal/bookings/availability.go:152-200 | a date adds exactly the admissible starts of the ranges that count on it; which those are is said by `OfferedIff` |
| Availability.SortStarts | internal/bookings/availability.go:203-205 | the in-place sort yields the same starts in increasing order |
| Availability.MillisecondKeyIsFaithful | internal/bookings/availability.go:193-198 | two whole-second starts with equal millisecond keys are the same start, so the duplicate filter drops no slot |
| Availability.SeenIffCollected | internal/bookings/availability.go:193-198 | the filter has seen a start's key exactly when the start was collected |
| Availability.GridStartIsWholeSeconds | internal/bookings/availability.go:96-106 | every grid start of every range in every zone is a whole second |
| Availability.HorizonDropsNoSlot | internal/bookings/availability.go:130-155 | no date beyond the horizon offers an admissible start, so the break of the day loop loses nothing |
| Availability.HorizonIsInvisible | internal/bookings/availability.go:130-155 | for stored rules the generator yields the declarative set of the whole window, with no mention of the horizon |
| Availability.DateIsNotAhead | internal/bookings/availability.go:130-155 | by the clock of any instant a day or more after a start, its date is not in the future |
| Availability.WindowContainsItsDate | internal/bookings/availability.go:208-220 | the window of a day either side of a start contains the local date whose range produced it |
| Availability.SingleSlotCheckIsExact | internal/bookings/availability.go:211-220 | the single-slot check decides membership in the set of all slots |
| Availability.GeneratorAndCheckAgree | internal/bookings/availability.go:116-220 | a start emitted for any window passes the single-slot check, and a start that passes is emitted for every window that contains its date |
| Availability.LibraryZonesAreValid | internal/bookings/availability.go:91-106 | the offset the Go library picks, the one in force once the wall clock is moved by its own offset, meets what is asked of a zone |
| Availability.OnlyOverlappingBookingsMatter | internal/bookings/bookings.go:157-182 | bookings that miss the padded interval change nothing about a start |
| Availability.OfferedIff | internal/bookings/availability.go:152-160 | on a date with an override the starts offered are those of the override's ranges, on any other those of the weekday's, and none if neither has ranges |
| Availability.OverrideReplacesTheWeek | internal/bookings/availability.go:156-159 | changing the weekly ranges in any way changes nothing on a date with an override, and a day off offers nothing |
| Availability.OverridesDecideTheWindow | internal/bookings/availability.go:145-160 | so the generator lists the same starts in a window whose dates of a changed weekday all have overrides, and none in a window of days off |
| Availability.WeekdaysTurn | internal/bookings/availability.go:79-85 | 1970-01-01 was a Thursday, and each date is one weekday on from the one before |
| Availability.GridSpelledOut | internal/bookings/availability.go:161-174 | a start is on a range's grid exactly when it is some number of whole slots after the range's start and its slot ends by the range's end |
| Availability.FreeIff | internal/bookings/availability.go:181-192 | a start is clear of the bookings exactly when each ends at least bufferBefore minutes earlier or begins at least bufferAfter minutes after the slot |
| Availability.WallClockRoundTrip | internal/bookings/availability.go:91-106 | unless a wall clock falls into a gap of the zone, the instant it is taken for shows that wall clock, on that date |
| Availability.SlotSpelledOut | internal/bookings/availability.go:116-206 | the declarative set from the stored page alone: notice, horizon, breaks, the ranges of the date and the grid |
| Schemas.ValidateDayRanges | internal/bookings/schemas.go:189-214 | no message exactly for at most 20 quarter-hour ranges that end after they start and are pairwise in order; which message stays at each range |
| Schemas.CleanIsGood | internal/bookings/schemas.go:203-213 | comparing each range with its predecessor only finds every overlap of any two |
| Schemas.CheckForms | internal/bookings/schemas.go:193-202 | every malformed or backwards range gets its message, and no message appears otherwise |
| Schemas.CheckOrder | internal/bookings/schemas.go:203-213 | a complaint about a range's place replaces the one about its form |
| Schemas.ValidateDayRangesMap | internal/bookings/schemas.go:169-185 | no message exactly when every key has its form, every day is good and there are not too many |
| Schemas.Validate | internal/bookings/schemas.go:103-164 | no message exactly for pages whose texts, numbers, zone and days are all within their bounds |
| Schemas.AcceptedPagesSuitTheEngine | internal/bookings/schemas.go:124-154 | a page that passes gives the slot generator rules with every bound it relies on, whatever zone of the database it names |
| Schemas.QuartersOfTheDay | internal/bookings/schemas.go:49-50 | each of the 96 quarters of a day is let through and read as the minutes it shows |
| Schemas.QuarterIsShown | internal/bookings/schemas.go:49-50 | and no other text is |
| Bookings.WindowSuffices | internal/bookings/bookings.go:157-182 | the lookup of a day either side misses no booking that the padded interval could overlap |
| Bookings.ReminderRoomsDiffer | internal/bookings/emails.go:128-130 | two bookings share a reminder room only if they are the same |
| Bookings.AdmittedIff | internal/bookings/bookings.go:304-324 | the in-lock check passes if and only if the page's rules and the busy list from elsewhere admit the start and its padding misses every confirmed booking of the page |
| Bookings.BookSucceedsIff | internal/bookings/bookings.go:292-329 | paused, past or taken: what every refusal of a Book means, and exactly when it succeeds, in terms of the page and the stored bookings |
| Bookings.RescheduleSucceedsIff | internal/bookings/bookings.go:508-566 | the same for a Reschedule, whose own booking does not count |
| Bookings.Service.BookedIntervalsForPage | internal/bookings/bookings.go:167-182 | exactly the raw intervals of the page's confirmed bookings overlapping the window, one booking left out |
| Bookings.Service.CheckSlot | internal/bookings/bookings.go:304-324 | the in-lock check against fresh bookings and the busy list passes exactly for admitted starts, and then the padded interval misses every other confirmed booking of the page |
| Bookings.Service.FindLive | internal/bookings/bookings.go:259-291 | the one live page at the address, or that there is none |
| Bookings.Service.Book | internal/bookings/bookings.go:240-379 | outcome by outcome in the order of the code; a success writes the booking and two mails and, if the page asks for reminders, a timer a day before the start that carries the booking and was never tried; a failure writes nothing |
| Bookings.Service.Cancel | internal/bookings/bookings.go:395-466 | missing, unauthorised, already cancelled (success without effect), or cancelled by whom it was, every timer of it and no other row removed, and two mails queued |
| Bookings.Service.Reschedule | internal/bookings/bookings.go:480-625 | outcome by outcome in the order of the code; a success moves the booking, mails its previous start, and leaves exactly one timer, a day before the new start, if the page asks for reminders and none otherwise |
| Bookings.Service.WriteBooking | internal/bookings/bookings.go:331-366 | the row, the mails and, if the page asks for it, the reminder of a new booking |
| Bookings.Service.MoveIfAvailable | internal/bookings/bookings.go:556-606 | under both locks: moved with its mails and its only timer exactly when the start is admitted, taken and untouched otherwise |
| Bookings.Service.MoveBooking | internal/bookings/bookings.go:568-606 | the moved row, the mails with the previous start, and the booking's only timer, a day before the new start, or none |
| Bookings.Service.UpdatePage | internal/bookings/pages.go:248-332 | every editable field replaced or an error; a taken slug is refused |
| Bookings.Service.DeletePage | internal/bookings/pages.go:337-359 | the page is no longer live, or nothing changes |
| Bookings.Service.PublicAvailability | internal/bookings/bookings.go:203-233 | the generator's starts for a live page, paused or not, against the bookings in the queried window; no list for a page that is missing |
| Bookings.ListedSlotInsideWindowIsBookable | internal/bookings/bookings.go:203-233 | a listed slot whose padded interval lies in the queried window passes the in-lock check at the same instant and state |
| Bookings.ListedSlotIsBookableIff | internal/bookings/bookings.go:203-233 | any listed slot passes that check if and only if its padding misses every confirmed booking outside the queried window |
| BookingProtocol.StepKeepsInvariant | internal/bookings/bookings.go:285-366 | every statement of every transaction keeps the invariant of locks, reads and staged writes |
| BookingProtocol.InvariantHolds | internal/bookings/bookings.go:240-625 | the invariant holds in every state of every run |
| BookingProtocol.DecisionIsSound | internal/bookings/bookings.go:304-329 | what the in-lock check admits still misses every confirmed booking when it is staged |
| BookingProtocol.CommitKeepsDisjoint | internal/bookings/bookings.go:331-366 | committing a staged booking or move leaves the page's confirmed bookings disjoint |
| BookingProtocol.NeverDoubleBooked | internal/bookings/bookings.go:285-329 | in every interleaving no two confirmed bookings of one page overlap |
| BookingProtocol.CommittedIntervalKeepsItsBuffers | internal/bookings/bookings.go:508-585 | at commit the page is live and unpaused and the padded interval misses every other confirmed booking |
| BookingProtocol.CommitArmsTheReminder | internal/bookings/bookings.go:587-606 | in any interleaving the commit of a booking or move leaves it with exactly one timer, a day before its start as it now is and never tried, if its page asks for reminders, and with none otherwise |
| BookingProtocol.CommitWritesWhatWasStaged | internal/bookings/bookings.go:331-366 | the rows and mails that each kind of commit writes, and that it writes no others |
| BookingProtocol.CancelledForever | internal/bookings/bookings.go:508-555 | a cancelled booking never moves and never becomes confirmed again |
| BookingProtocol.CancellationIsMailedOnce | internal/bookings/bookings.go:420-455 | each party gets exactly one cancellation mail for a cancelled booking and none otherwise, however many calls race |
| BookingProtocol.OneReminderAtMost | internal/bookings/emails.go:138-153 | a booking has at most one reminder row, and only while it is confirmed |
| BookingProtocol.DeletedPageStaysDeleted | internal/bookings/pages.go:248-359 | no step brings a deleted page back |
| BookingProtocol.NoDeadlock | internal/bookings/bookings.go:508-555 | page before booking: some transaction under way does not wait for a row that its next statement selects, whatever state that row is in |
| BookingProtocol.JobStatementsAreWork | internal/jobs/jobs.go:84-312 | claims, completions, failures, retries, sweeps and the scheduling of other kinds disturb no booking timer's slot |
| BookingProtocol.BookIsAPath | internal/bookings/bookings.go:240-379 | the service's undisturbed Book is a path of the machine with the same effect |
| BookingProtocol.RescheduleIsAPath | internal/bookings/bookings.go:480-625 | so is its Reschedule |
| BookingProtocol.CancelIsAPath | internal/bookings/bookings.go:395-466 | so is its Cancel |
| BookingProtocol.PageChangeIsAPath | internal/bookings/pages.go:248-359 | and so are UpdatePage and DeletePage, with the row they leave |
| Jobs.SelectDue | internal/jobs/jobs.go:194-225 | the due, unlocked or stale-locked rows with budget left, earliest first, as many as asked for |
| Jobs.ClaimSpelledOut | internal/jobs/jobs.go:194-225 | row by row: what a claimed row was and is, that it was passed over only for as many rows no later than it as were asked for, and that no other row changes |
| Jobs.TruncateLastError | internal/jobs/jobs.go:320-329 | a prefix of at most 2000 octets that cuts no code point and is as long as that allows |
| Jobs.JobTable.Schedule | internal/jobs/jobs.go:84-129 | the new row, taking over its room's slot under a new id |
| Jobs.JobTable.ScheduleIfAbsent | internal/jobs/jobs.go:148-179 | the new row if the slot is empty, nothing otherwise, an error without a room |
| Jobs.JobTable.Cancel | internal/jobs/jobs.go:184-187 | exactly the rows of that kind and room are gone |
| Jobs.JobTable.ClaimDue | internal/jobs/jobs.go:194-225 | the selected rows are stamped and counted, all others untouched |
| Jobs.JobTable.Complete | internal/jobs/jobs.go:228-231 | the row of that id is gone, whoever scheduled it |
| Jobs.JobTable.Fail | internal/jobs/jobs.go:251-276 | exactly that row changes: unlocked, with its error, and with budget left due from now plus its backoff on, so not for a minute; without budget its due time stays; whether a retry will come and whether the row was there |
| Jobs.JobTable.RetryFromConsole | internal/admin/handlers.go:385-440 | missing, live, payload expired or revived, and the table in each case |
| Jobs.JobTable.SweepDeadLetters | internal/jobs/housekeeping.go:234-248 | payloads of day-old dead mails forgotten, month-old dead rows deleted, all else untouched |
| Jobs.JobTable.ForgetPayloads | internal/jobs/housekeeping.go:235-242 | its first statement |
| Jobs.JobTable.DeleteLongDead | internal/jobs/housekeeping.go:243-247 | its second statement |
| Jobs.ScheduledOwnsItsSlot | internal/jobs/jobs.go:107-121 | after scheduling the new id alone holds the slot and every other row is as before |
| Jobs.BackoffIsBounded | internal/jobs/jobs.go:251-276 | the backoff starts at a minute and doubles up to an hour |
| JobRuns.StepKeepsInvariant | internal/jobs/jobs.go:84-312 | every claim, reply, reschedule, crash, retry and sweep keeps the invariant |
| JobRuns.InvariantHolds | internal/jobs/worker.go:78-152 | the invariant holds in every state of every run of any number of workers |
| JobRuns.ChainIsNeverLost | internal/jobs/housekeeping.go:285-323 | once seeded, a housekeeping kind has exactly one row in every later state while no row of it has used up its budget |
| JobRuns.ChainBreaksOnlyWhenExhausted | internal/jobs/housekeeping.go:234-248 | only the sweep can remove a kind's last row, and only after a million claims and thirty days |
| JobRuns.SeedingIsIdempotent | internal/jobs/housekeeping.go:285-306 | seeding creates a missing chain and leaves an existing one untouched |
| JobRuns.LateReplyIsHarmless | internal/jobs/jobs.go:78-83 | a late completion or failure of any run whose id has left the table touches no row |
| JobRuns.ReschedulingRetiresTheId | internal/jobs/jobs.go:78-83 | once a run has rescheduled its kind, its id and so that of every other run of the row has left the table |
| JobRuns.FailurePutsTheRowOff | internal/jobs/jobs.go:251-276 | a recorded failure puts off exactly its own row, by the backoff of its attempts while it has budget left; a row without budget keeps its due time and is not due |
| JobRuns.ChainStartsAfresh | internal/jobs/housekeeping.go:285-323 | a reschedule or the boot leaves a row due at the instant asked for with a million claims ahead of it |
| JobRuns.RowLeavesOnlyWhenDone | internal/jobs/jobs.go:194-276 | a row without a room leaves only after one of its runs returned nil, or swept after its whole budget of claims |
| JobRuns.AttemptsStayWithinBudget | internal/jobs/jobs.go:194-225 | attempts count the claims since the last retry and never exceed the budget |
| JobRuns.CloseClaimsNeedARelease | internal/jobs/jobs.go:194-225 | two claims of one id within five minutes have a recorded failure or retry between them |
| JobRuns.TwoWorkersCanRunOneJob | internal/jobs/worker.go:78-88 | a run in which two workers run one job at once |
| JobRuns.SecondClaimIffReleasedOrStale | internal/jobs/jobs.go:194-225 | a row with a run under way can be claimed again if and only if it is due with budget left and its last claim was released by a failure or retry or is over five minutes old |
| JobRuns.ExclusivityEndsIff | internal/jobs/worker.go:78-88 | only such a claim gives a row a second run |
| JobRuns.TimelyRunsAreExclusive | internal/jobs/worker.go:78-136 | if every run is over within five minutes of its claim, its recording included, and no row is retried under a run, no row ever has two |
| JobRuns.BatchIsSingleClaims | internal/jobs/jobs.go:194-225 | claiming a batch equals claiming its rows one after the other, each due in its turn |
| Workers.Worker.Register | internal/jobs/worker.go:71-73 | the kind is registered, the others stay |
| Workers.Worker.Invoke | internal/jobs/worker.go:140-152 | an unregistered kind errs without running anything |
| Workers.Worker.Process | internal/jobs/worker.go:105-136 | nil deletes the claimed row, an error fails it, after whatever the handler did |
| Workers.ProcessedSpelledOut | internal/jobs/worker.go:105-136 | row by row: gone after a nil reply; otherwise unlocked with its error and put off while it has budget left; the reschedule; nothing else |
| Workers.Worker.ProcessAll | internal/jobs/worker.go:78-88 | the batch in order, each job once |
| Workers.Worker.RunOnce | internal/jobs/worker.go:78-88 | a batch of at most 20 claimed rows, each processed once, in order |
| Workers.BatchOutcome | internal/jobs/worker.go:78-136 | after a batch each claimed row is gone or unlocked with an error, and unclaimed rows outside rooms are untouched |
| Workers.ProcessIsAPath | internal/jobs/worker.go:105-152 | processing one job is a path of the machine of workers |
| Claims.GrantKeepsLimits | internal/polls/claims.go:257-302 | a grant that passed both checks keeps every capacity and every budget |
| Claims.ShrinkingKeepsLimits | internal/polls/claims.go:434-436 | an unclaim or a removal keeps them too |
| Claims.OutcomeMayGrant | internal/polls/claims.go:257-268 | a claim that changes something found room, budget and no earlier vote |
| Claims.ClaimSucceedsIff | internal/polls/claims.go:244-268 | already held, limit reached or slot taken: each by counting the votes of the participant or the yes votes of the slot |
| Claims.ReleasingMakesRoom | internal/polls/claims.go:434-436 | taking a yes from a slot, by an unclaim or a removal, leaves it room and its sheet not full |
| Claims.FullIff | internal/polls/claims.go:474-504 | full means a slot, and a capacity reached by the yes votes of every slot |
| Claims.Prepared | internal/polls/claims.go:165-192 | a newcomer needs a name, an e-mail address just where the sheet asks for one, and fewer than 500 participants, checked in this order |
| Claims.Service.ResolveClaimant | internal/polls/claims.go:139-192 | the named row, the user's own row, or a new one, with the errors in the order of the code |
| Claims.Service.Claim | internal/polls/claims.go:196-327 | outcome by outcome in the order of the code; what is returned and what is written; limits kept |
| Claims.Service.ClaimAs | internal/polls/claims.go:244-327 | no change for a slot held already, then the budget, then the capacity, and what is returned and written |
| Claims.Service.HeldBy | internal/polls/claims.go:244-255 | the slots held, how many, and whether this is one of them |
| Claims.Service.Accept | internal/polls/claims.go:286-302 | exactly the participant row, if new, and the vote are written |
| Claims.Service.Unclaim | internal/polls/claims.go:368-453 | whose claim is released, the errors in the order of the code; on success exactly that vote is gone, and if it was a yes its slot has room and its sheet is not full |
| Claims.Service.RemoveParticipant | internal/polls/participants.go:362-401 | the row and exactly its votes are gone and every slot it held has room, or the error in the order of the code and no change |
| Claims.Service.CountYes | internal/polls/claims.go:492-497 | one pass over the votes counts the yes votes of every slot |
| Claims.Service.SignupFull | internal/polls/claims.go:474-504 | true exactly when there is a slot and every slot has a capacity that is reached |
| ClaimProtocol.StepKeepsInvariant | internal/polls/claims.go:209-314 | every statement of every claim, unclaim and removal keeps the invariant |
| ClaimProtocol.InvariantHolds | internal/polls/claims.go:196-453 | the invariant holds in every state of every run |
| ClaimProtocol.DecisionIsSound | internal/polls/claims.go:244-268 | what was read under the two locks still holds when the vote is staged |
| ClaimProtocol.CommitWritesWhatWasStaged | internal/polls/claims.go:286-302 | the rows that each kind of commit writes or takes away, and that nothing else changes |
| ClaimProtocol.CommitOfReleaseMakesRoom | internal/polls/claims.go:434-436 | in any interleaving, a commit that takes a yes away leaves its slot room and its sheet not full |
| ClaimProtocol.CapacityNeverExceeded | internal/polls/claims.go:8-18 | in every interleaving no slot has more yes votes than its capacity |
| ClaimProtocol.BudgetNeverExceeded | internal/polls/claims.go:18-22 | in every interleaving no participant row holds more slots than its sheet allows |
| ClaimProtocol.LastPlaceHasOneWinner | internal/polls/claims.go:260-268 | a vote waiting for its commit always still has room, and no two wait for one slot |
| ClaimProtocol.NoDeadlock | internal/polls/claims.go:227-242 | slot before participant: some transaction under way never waits for a lock |
| ClaimProtocol.ClaimIsAPath | internal/polls/claims.go:196-327 | the service's undisturbed Claim is a path of the machine with the same effect |
| ClaimProtocol.UnclaimIsAPath | internal/polls/claims.go:368-453 | so is an unclaim, which leaves nothing of its vote |
| ClaimProtocol.RemovalIsAPath | internal/polls/participants.go:362-401 | and a removal, which leaves nothing of the row or its votes |
| ClaimProtocol.RacingUserGetsTwoRows | internal/polls/claims.go:163-184 | a run in which one user's racing claims get two rows and exceed the budget together |
| ClaimProtocol.SecondRowIffCommittedBetween | internal/polls/claims.go:163-184 | committing a newcomer's row leaves the user with two rows if and only if another was committed since the claim looked and is still there |
| ClaimProtocol.UsersWithoutRacesHaveOneRow | internal/polls/claims.go:163-184 | if no two claims of one user create a row on one sheet at the same time, every user has at most one row on every sheet |
| ClaimProtocol.UsersWithoutRacesKeepOneBudget | internal/polls/claims.go:163-184 | and holds no more slots on a sheet than it allows |
| Announcements.ClaimHappens | internal/polls/claims.go:196-327 | what the service's claim does is a call of the runs below |
| Announcements.RecomputingEqualsFlag | internal/polls/claims.go:462-473 | over claims and unclaims, recomputing announces at exactly the calls at which the stored flag would |
| Announcements.FlagMeansFull | internal/polls/claims.go:462-473 | while the flag is up the sheet is full |
| Announcements.OneAnnouncementPerFill | internal/polls/handlers.go:862-872 | the announcements are exactly the moments at which the sheet becomes full, removals included |
| Announcements.RemovalSplitsTheRules | internal/polls/participants.go:394-400 | a run with a removal in which the flag would stay silent and the recomputation announces |
| Announcements.RulesPartIff | internal/polls/claims.go:462-473 | the two rules part at a call if and only if it announces and an earlier announcement has had no unclaim since |
| Announcements.FlagIffAnnouncementStands | internal/polls/claims.go:462-473 | the flag is up exactly when some announcement has had no unclaim after it |
| Announcements.RulesPartOnlyAfterRemoval | internal/polls/participants.go:394-400 | where they part, a removal lies between the two announcements |
| Ics.SinglePassIsFourPasses | internal/ics/ics.go:23-39 | the single-pass escape equals the four replacements, backslash first, on every text |
| Ics.UnescapeUndoesEscape | internal/ics/ics.go:23-39 | reading an escaped text gives back the original |
| Ics.FoldLine | internal/ics/ics.go:47-76 | the loop prints exactly the chunks of the line joined by a break and a space |
| Ics.ChunksOfLine | internal/ics/ics.go:47-76 | the chunks hold 75 and then 74 octets at most, lose nothing a reader sees and cut no code point |
| Ics.ChunksAreGreedy | internal/ics/ics.go:47-76 | a line of up to 75 octets is not folded; a longer one is cut only where the next code point would not have fitted |
| Utf8.EncodedRuneDecodes | internal/ics/ics.go:47-76 | every code point but the surrogates has a well-formed encoding of one to four octets, which decodes to it |
| Ics.ReadableIsIdentityIff | internal/ics/ics.go:47-76 | folding alters a line if and only if it is long and not valid UTF-8 |
| Ics.PrintedStreamReadsBack | internal/ics/ics.go:101-117 | splitting at line breaks and unfolding gives back the printed lines |
| Ics.BuildCalendar | internal/ics/ics.go:101-117 | header, event lines and footer, each folded, each ended by a line break |
| Ics.CalendarReadsBack | internal/ics/ics.go:101-117 | a reader of the stream sees header, event lines and footer, every physical line within 75 octets |
| Ics.GoodCalendarReadsBack | internal/ics/ics.go:101-117 | for valid UTF-8 lines it sees them unchanged, and no physical line cuts a code point |
| Ics.BuildVeventLines | internal/polls/ics.go:77-107 | the lines of one event in order, the optional ones only when present |
| Ics.LabelTexts | internal/polls/ics.go:77-107 | the property names are those of section 3.8 of RFC 5545 |
| Ics.FrameTexts | internal/ics/ics.go:101-117 | the header and footer lines |
| Ics.VeventLinesAreGood | internal/polls/ics.go:77-107 | whatever the title, description and link say, each line is valid and holds no line feed |
| Ics.BuildClaimICS | internal/polls/ics.go:170-195 | one event for each claimed option that has a time, nothing if there is none |
| Ics.OneEventPerTimedOption | internal/polls/ics.go:170-195 | each claimed option with a time adds one event with the poll's texts, an identifier of both ids, and its date or its start and end; no other option adds any |
| Ics.CalendarOfEventsReadsBack | internal/polls/ics.go:170-195 | a reader sees exactly the lines of the given events between header and footer |
| Ics.OneOpeningPerEvent | internal/polls/ics.go:77-107 | no title, description or link can forge or hide an event |
| IcsReader.TextsReadBack | internal/polls/ics.go:77-107 | identifier, title, description, location and link of an event read back octet for octet, absent ones as absent |
| IcsReader.TimesReadBack | internal/polls/ics.go:77-107 | a timed event's start and end, or an hour later, and an all-day event's date and the next one, read back under DTSTART and DTEND, and now under DTSTAMP |
| IcsReader.CalendarTextsReadBack | internal/polls/ics.go:170-195 | from the printed octets a reader recovers the texts and times of every event, in order, each under the property that is its own |
| Roster.FieldReadsBack | internal/polls/roster.go:33-42 | a printed field reads back as the guarded text, whatever follows it |
| Roster.RowReadsBack | internal/polls/roster.go:44-50 | a printed row reads back as its guarded fields |
| Roster.LinesReadBack | internal/polls/roster.go:119-119 | a printed table reads back as its guarded rows |
| Roster.RosterReadsBack | internal/polls/roster.go:57-120 | the roster reads back as rows of five columns, none starting with a formula character |
| Roster.GuardCollisions | internal/polls/roster.go:23-37 | exactly which pairs of texts the guard makes equal |
| Roster.RosterCSVRow | internal/polls/roster.go:44-50 | the loop prints the fields separated by commas |
| Roster.GroupYes | internal/polls/roster.go:82-87 | one pass over the votes groups the yes votes by slot, in their order |
| Roster.AppendSlot | internal/polls/roster.go:102-116 | one row for each claim of a slot, or one row without a participant |
| Roster.BuildRosterCSV | internal/polls/roster.go:57-120 | the two errors, or the mark and every row ended by a line break |
| Roster.EverySlotHasItsRows | internal/polls/roster.go:95-117 | each slot contributes as many rows as it has claims, and one if it has none |
| Roster.EveryClaimIsListed | internal/polls/roster.go:82-117 | every yes vote for a listed slot has its row with slot, number of claims and claimant |
| Roster.EveryRowIsAClaim | internal/polls/roster.go:92-117 | and every row under the header shows a listed slot, its number of claims, and someone who said yes to it, or nobody where nobody did |
| Roster.ColumnsMatchTheHeader | internal/polls/roster.go:93-115 | what stands under each heading |
| Digits.NaturalReadsBack | internal/polls/roster.go:97-103 | a printed number reads back as itself, without a leading zero |
| RateLimit.SweepIsInvisible | internal/jobs/housekeeping.go:115-120 | running the sweep at any moments changes no answer of a run, even with its clock up to an hour ahead |
| RateLimit.AtMostTwiceTheLimit | internal/httpserver/ratelimit.go:19-26 | with a monotone clock an interval of one window length lets at most twice the limit less one through for each key, sweeps included |
| RateLimit.BoundIsReached | internal/httpserver/ratelimit.go:19-26 | a run that reaches that bound, for every limit and window |
| RateLimit.OneWindow | internal/httpserver/ratelimit.go:19-26 | within one window only what is left of the limit gets through |
| RateLimit.Limiter.Allow | internal/httpserver/ratelimit.go:39-72 | no identity or no table lets the request through uncounted; otherwise it counts one more in the running window or one in a new one and is let through within the limit; the least whole number of seconds, at least one, until the window ends |
| RateLimit.Limiter.RunSweep | internal/jobs/housekeeping.go:115-120 | exactly the rows whose window ended more than an hour ago are gone |
| Keyset.Select | internal/admin/audit.go:203-203 | the first rows in descending (created_at, id) order, as many as asked for |
| Keyset.List | internal/admin/audit.go:174-253 | the first rows after the cursor, and a cursor at their end exactly when rows remain |
| Keyset.PageSpelledOut | internal/admin/audit.go:163-173 | a page in the reader's terms: matching rows beyond the cursor, newest first, none left out between, and a cursor exactly if matching rows are left, all of which it leads to |
| Keyset.NewestFirst | internal/admin/audit.go:203-203 | the order: the newer row first, of two as new the one with the greater id |
| Keyset.ListAudit | internal/admin/audit.go:143-253 | the same for the audit log's filter and limits |
| Keyset.SearchUsers | internal/admin/users.go:165-220 | the same for users, with their limits |
| Keyset.NothingIsRepeated | internal/admin/audit.go:163-173 | while rows are inserted, the pages of a walk one after the other are strictly descending |
| Keyset.EveryRowIsReturned | internal/admin/audit.go:163-173 | a complete walk returns every matching row that was there from the start |
| Keyset.NoEmptyTrailingPage | internal/admin/audit.go:167-173 | no page but the first can be empty and only the last can be short |
| Keyset.WalkIsBounded | internal/admin/audit.go:163-173 | a walk has no more pages than the table needs, so it ends |
| Keyset.WalkIsASnapshot | internal/admin/audit.go:163-173 | if arrivals are newer than what was returned, the walk returns exactly the rows present at its start |
| Keyset.CursorRoundTrip | internal/admin/audit.go:276-295 | the split at the first bar restores time and id exactly when the time has no bar |
| Cascade.Service.CascadeDeleteUser | internal/auth/cascade.go:24-55 | the whole outcome, or no such user and no change at all |
| Cascade.Service.CascadeOrphanedOwnerOrganizations | internal/auth/cascade.go:60-126 | what becomes of each organization, the loop touching only those the user owns |
| Cascade.Service.SettleOrganization | internal/auth/cascade.go:85-124 | one organization kept, handed to its longest-standing other member, or deleted; all others untouched |
| Cascade.Service.OtherOwnerExists | internal/auth/cascade.go:86-95 | true exactly when a member other than the user owns the organization |
| Cascade.Service.OldestOtherMember | internal/auth/cascade.go:100-108 | a longest-standing other member, or none if the user is alone |
| Cascade.Service.OwnedOrganizations | internal/auth/cascade.go:61-83 | the organizations the user owns, and that nothing is owed to any other |
| Cascade.Service.DeleteUserRow | internal/auth/cascade.go:47-53 | the user's row and memberships go, which the foreign keys allow only without sessions and accounts |
| Cascade.Service.ClearSessionsAndAccounts | internal/auth/cascade.go:34-45 | exactly the user's sessions and accounts go |
| Cascade.NoOrganizationIsOrphaned | internal/auth/cascade.go:11-19 | every organization that had an owner has one afterwards, or is gone because the user was its only member |
| Cascade.OtherOwnersChangeNothing | internal/auth/cascade.go:18-20 | an organization with another owner keeps its content, every other member and exactly their roles |
| Cascade.OnlyHeirsGainRoles | internal/auth/cascade.go:110-119 | nobody but an heir of an organization the user solely owned is given a role |
| Cascade.UsersRowsGo | internal/auth/cascade.go:34-53 | the user's row, seats, sessions and accounts go, and nobody else's |
| Cascade.OrganizationGoesIff | internal/auth/cascade.go:85-124 | an organization goes if and only if the user owned it and was its only member; any other keeps its content, all other seats and all their roles |
| Cascade.HeirIsPromoted | internal/auth/cascade.go:97-119 | where the user was the only owner among several members, an oldest other seat is made owner, and no other role is given |
| Cascade.SeatsSpelledOut | internal/auth/cascade.go:85-108 | what owner, only owner and other member mean in terms of the rows |
| CascadeRaces.OrphanedIff | internal/auth/cascade.go:60-126 | a deletion leaves an organization without an owner at its commit if and only if its user is the sole owner by then and it saw another owner or did not see the user as one |
| CascadeRaces.SerialDeletionsOrphanNothing | internal/auth/cascade.go:60-126 | as long as deletions do not overlap, no organization that has an owner is left without one |
| CascadeRaces.OnlyCommitsOutdate | internal/auth/cascade.go:85-108 | what a deletion saw stays so until another one commits |
| CascadeRaces.UndisturbedDeletionIsTheCascade | internal/auth/cascade.go:24-126 | committed while all it saw is still so, a deletion under way among others does exactly what the service does alone |
| CascadeRaces.CoOwnersCanOrphan | internal/auth/cascade.go:85-98 | any two users who are the owners of one organization have a run in which both deletions leave it to the other |
| Slug.PersonalOrgSlug | internal/auth/auth.go:564-594 | the loop with its hyphen flag collapses runs, and the cuts and the fallback follow |
| Slug.CollapsingKeepsLetters | internal/auth/auth.go:566-577 | the letters and digits stay, in order, and no two hyphens stand together |
| Slug.CollapsingFollowsTheText | internal/auth/auth.go:566-577 | beginnings collapse to beginnings, and end in a hyphen exactly where the text ends in another character |
| Slug.StemSpelledOut | internal/auth/auth.go:579-592 | the stem is what the cut leaves of the collapsed name without hyphens at either end, and org just where only hyphens are left |
| Slug.SlugIsValidIff | internal/auth/auth.go:579-593 | the slug meets the handle rule if and only if the id has at most 28 characters |
| Slug.PersonalSlugIsValid | internal/auth/orgslug.go:17-28 | every e-mail and every decimal 64-bit id give a slug of 3 to 30 characters that meets the rule |
| Slug.DistinctUsersGetDistinctSlugs | internal/auth/auth.go:557-563 | distinct user ids give distinct slugs, whatever the e-mails |

## Left out

- Availability.Slots: requires a positive slot length, which validation guarantees; with any other the loop in the source never ends.
- BookingProtocol.NoDeadlock: speaks of row locks; the waits of concurrent slug changes on the unique index, and of an upsert on a reminder's slot, are not modelled.
- BookingProtocol.DeletedPageStaysDeleted: suspension of pages by an operator and the purge of deleted pages are not steps of the machine.
- JobRuns.ChainIsNeverLost: the budget is the million claims that the code grants, counted since the row was last scheduled.
- Claims.Service.Unclaim: a verified guest's id is used as it is, as the code does; the mail and the broadcast that follow are not modelled.
- ClaimProtocol.BudgetNeverExceeded: stated for participant rows; capacities and claim limits are fixed during a run (an edit of the options counts the claims without the slots' locks), and the cap of 500 participants, which is counted without a lock, is checked in the service but not claimed of runs.
- ClaimProtocol.NoDeadlock: waits for vote rows are not modelled; only an unclaim holds one, and it waits for nothing afterwards.
- Workers.Worker.Invoke: a panic in a handler and a run out of time are error replies; what a handler does besides rescheduling itself is not modelled.
- Bookings.Service.PublicAvailability: the clock is an input and the Google busy list is taken as empty.
- Ics.BuildVeventLines: the formatting of instants and dates is a parameter that must print plain ASCII.
- RateLimit.AtMostTwiceTheLimit: speaks of requests that reached the table; when it cannot be reached every request is let through.
- CascadeRaces.OrphanedIff: account deletions are the only changes to memberships and roles in a run.
- Keyset.CursorRoundTrip: base64 and the printing of times belong to the Go library; ids are ordered by rank, not by collation.
- Google Calendar: its busy list is the parameter `extraBusy`; nothing else of it is modelled.
- Mail: queued mails are a log beside the job table; templates, recipients' languages, sending and the re-read at send time are not modelled.
- Rooms and the realtime hub: broadcasts are not modelled.
- Integer widths: durations and counters are unbounded integers; years beyond 9999, interval overflow in the backoff of very large attempt counts and 32-bit columns are not modelled.
- The zone database, "HH:mm" scanning of texts that validation refuses, and the calendar of dates (day numbers stand for them).
- Tokens, sessions, roles and captchas: they are boolean inputs.
- Names, e-mails, notes and handles of bookings: their validation is a matter of single fields.
- AddParticipant and UpdateParticipant: the handlers refuse them for sign-up sheets, so they are no steps of a sheet.
- Option edits and deletion of polls during a run of claims.
- The batch loop that purges soft-deleted rows, presence sweeps, poll timers, digests, statistics, data export, and everything that only formats or serves.
