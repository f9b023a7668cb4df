/**
  The slot generator every booking check runs through: internal/bookings/availability.go.

  Instants and durations are integer nanoseconds, calendar dates are day numbers counted from
  1970-01-01, and wall-clock times are minutes after midnight.  A zone is a function from instants
  to offsets together with the offset that the Go library picks for a wall-clock reading.
 */
module Availability {
  import opened Common

  // ----- zones -----

  /** offset(t) is in force at instant t; resolve(w) is the offset chosen for the wall clock w. */
  datatype Zone = Zone(offset: int -> int, resolve: int -> int)

  /** What the model takes from the zone database: offsets are whole seconds and less than a day;
      offsets in force within four days of each other differ by at most a day; and resolving a wall
      clock picks an offset in force within a day of it. */
  ghost predicate ValidZone(z: Zone) {
    Bounded(z.offset) && Steady(z.offset) && forall w :: ResolvesNear(z, w)
  }

  ghost predicate Bounded(offset: int -> int) {
    forall i :: -DAY < offset(i) < DAY && offset(i) % SECOND == 0
  }

  ghost predicate Steady(offset: int -> int) {
    forall i, j :: -4 * DAY <= i - j <= 4 * DAY ==> offset(i) - offset(j) <= DAY
  }

  ghost predicate ResolvesNear(z: Zone, w: int) {
    exists i :: w - DAY <= i <= w + DAY && z.resolve(w) == z.offset(i)
  }

  lemma ResolveIsBounded(z: Zone, w: int)
    requires ValidZone(z)
    ensures -DAY < z.resolve(w) < DAY && z.resolve(w) % SECOND == 0
  {
    assert ResolvesNear(z, w);
  }

  lemma ResolveIsClose(z: Zone, w: int, t: int)
    requires ValidZone(z) && -3 * DAY <= w - t <= 3 * DAY
    ensures -DAY <= z.resolve(w) - z.offset(t) <= DAY
  {
    assert ResolvesNear(z, w);
    var i :| w - DAY <= i <= w + DAY && z.resolve(w) == z.offset(i);
    assert z.offset(i) - z.offset(t) <= DAY;
    assert z.offset(t) - z.offset(i) <= DAY;
  }

  /** The Go library's own choice: the offset at the wall clock, read as an instant, moves that instant, and
      the offset in force there is taken. */
  ghost predicate ResolvesLikeTheLibrary(z: Zone, w: int) {
    z.resolve(w) == z.offset(w - z.offset(w))
  }

  lemma LibraryZonesAreValid(z: Zone)
    requires Bounded(z.offset) && Steady(z.offset) && forall w :: ResolvesLikeTheLibrary(z, w)
    ensures ValidZone(z)
  {
    forall w ensures ResolvesNear(z, w) {
      assert ResolvesLikeTheLibrary(z, w);
      var i := w - z.offset(w);
      assert -DAY < z.offset(w) < DAY;
      assert z.resolve(w) == z.offset(i);
    }
  }

  function LocalDate(t: int, z: Zone): int {
    (t + z.offset(t)) / DAY
  }

  function LocalToUtc(date: int, minute: int, z: Zone): int {
    var w := date * DAY + minute * MINUTE;
    w - z.resolve(w)
  }

  // ----- rules -----

  datatype Interval = Interval(start: int, end: int)

  /** One "HH:mm"-"HH:mm" window; None stands for a text that does not parse. */
  datatype TimeRange = TimeRange(start: Option<int>, end: Option<int>)

  /** zone is None when the zone name is unknown; weekly is keyed by weekday (Sunday = 0). */
  datatype Rules = Rules(
    zone: Option<Zone>,
    slotMin: int,
    bufferBefore: int,
    bufferAfter: int,
    minNotice: int,
    maxDaysAhead: int,
    weekly: map<int, seq<TimeRange>>,
    overrides: map<int, seq<TimeRange>>)
  {
    function Slot(): int { slotMin * MINUTE }

    /** The window the page's buffers reserve around a candidate that starts at s. */
    function Padded(s: int): Interval {
      Interval(s - bufferBefore * MINUTE, s + Slot() + bufferAfter * MINUTE)
    }
  }

  /** Day 0 was a Thursday. */
  function Weekday(date: int): int {
    (date + 4) % 7
  }

  function RangesOn(rules: Rules, date: int): seq<TimeRange> {
    if date in rules.overrides then rules.overrides[date]
    else if Weekday(date) in rules.weekly then rules.weekly[Weekday(date)]
    else []
  }

  predicate Overlaps(a: Interval, b: Interval) {
    a.start < b.end && b.start < a.end
  }

  // ----- the declarative set of slots -----

  /** s is a grid start that range r lays out on date: a number of whole slots after the range's own start,
      with room for a slot before its end. */
  ghost predicate OnGrid(z: Zone, step: int, date: int, r: TimeRange, s: int) {
    && r.start.Some? && r.end.Some? && 0 < step
    && var lo := LocalToUtc(date, r.start.value, z);
       var hi := LocalToUtc(date, r.end.value, z);
       && lo < hi
       && lo <= s && s + step <= hi
       && (s - lo) % step == 0
  }

  /** One of the first n ranges of date puts s on its grid. */
  ghost predicate OfferedByFirst(rules: Rules, z: Zone, date: int, n: int, s: int)
    requires n <= |RangesOn(rules, date)|
  {
    exists j :: 0 <= j < n && OnGrid(z, rules.Slot(), date, RangesOn(rules, date)[j], s)
  }

  ghost predicate OfferedOn(rules: Rules, z: Zone, date: int, s: int) {
    OfferedByFirst(rules, z, date, |RangesOn(rules, date)|, s)
  }

  predicate Free(rules: Rules, booked: seq<Interval>, s: int) {
    forall j :: 0 <= j < |booked| ==> !Overlaps(rules.Padded(s), booked[j])
  }

  /** Notice, horizon and buffers: everything about s that does not depend on the date it came from. */
  predicate Admissible(rules: Rules, booked: seq<Interval>, now: int, s: int) {
    && now + rules.minNotice * MINUTE <= s
    && s + rules.Slot() <= now + rules.maxDaysAhead * DAY
    && Free(rules, booked, s)
  }

  /** s is a bookable start whose date lies in [first, last]. */
  ghost predicate SlotBetween(rules: Rules, booked: seq<Interval>, now: int, first: int, last: int, s: int) {
    && rules.zone.Some?
    && Admissible(rules, booked, now, s)
    && exists date :: first <= date <= last && OfferedOn(rules, rules.zone.value, date, s)
  }

  /** s is a bookable start on some date, whatever window it was asked for. */
  ghost predicate IsSlot(rules: Rules, booked: seq<Interval>, now: int, s: int) {
    && rules.zone.Some?
    && Admissible(rules, booked, now, s)
    && exists date :: OfferedOn(rules, rules.zone.value, date, s)
  }

  /** The last date the generator's day loop visits. */
  function HorizonDate(rules: Rules, now: int): int
    requires rules.zone.Some?
  {
    LocalDate(now + (rules.maxDaysAhead + 1) * DAY, rules.zone.value)
  }

  ghost predicate StrictlyIncreasing(s: seq<int>) {
    forall i, j :: 0 <= i < j < |s| ==> s[i] < s[j]
  }

  // ----- the same set in the page's own terms -----

  /** Day 0 was a Thursday, and the days of the week follow one another. */
  lemma WeekdaysTurn(date: int)
    ensures Weekday(0) == 4 && 0 <= Weekday(date) < 7 && Weekday(date + 1) == (Weekday(date) + 1) % 7
  {
  }

  /** A start is on the grid exactly when it is some number of whole slots after the range's start, and its slot ends
      by the range's end. */
  lemma GridSpelledOut(z: Zone, step: int, date: int, r: TimeRange, s: int)
    requires 0 < step
    ensures OnGrid(z, step, date, r, s) <==>
      && r.start.Some? && r.end.Some?
      && exists k: nat :: s == LocalToUtc(date, r.start.value, z) + k * step && s + step <= LocalToUtc(date, r.end.value, z)
  {
    if r.start.Some? && r.end.Some? {
      var lo := LocalToUtc(date, r.start.value, z);
      if OnGrid(z, step, date, r, s) {
        var k: nat := (s - lo) / step;
        assert s == lo + k * step;
      }
      forall k: nat | s == lo + k * step && s + step <= LocalToUtc(date, r.end.value, z) ensures OnGrid(z, step, date, r, s) {
        MultipleHasNoRemainder(step, k);
        assert k * step == step * k >= 0;
      }
    }
  }

  /** On a date with an override only the override's ranges count, on any other those of its weekday. */
  lemma OfferedIff(rules: Rules, z: Zone, date: int, s: int)
    ensures date in rules.overrides ==>
      (OfferedOn(rules, z, date, s) <==> exists r :: r in rules.overrides[date] && OnGrid(z, rules.slotMin * MINUTE, date, r, s))
    ensures date !in rules.overrides && Weekday(date) in rules.weekly ==>
      (OfferedOn(rules, z, date, s) <==> exists r :: r in rules.weekly[Weekday(date)] && OnGrid(z, rules.slotMin * MINUTE, date, r, s))
    ensures date !in rules.overrides && Weekday(date) !in rules.weekly ==> !OfferedOn(rules, z, date, s)
  {
    var ranges := RangesOn(rules, date);
    forall r | r in ranges && OnGrid(z, rules.slotMin * MINUTE, date, r, s) ensures OfferedOn(rules, z, date, s) {
      var j :| 0 <= j < |ranges| && ranges[j] == r;
    }
  }

  /** An override takes the place of the weekly hours of its date, whatever they are, and a day off offers nothing. */
  lemma OverrideReplacesTheWeek(rules: Rules, weekly: map<int, seq<TimeRange>>, z: Zone, date: int, s: int)
    requires date in rules.overrides
    ensures OfferedOn(rules, z, date, s) <==> OfferedOn(rules.(weekly := weekly), z, date, s)
    ensures rules.overrides[date] == [] ==> !OfferedOn(rules, z, date, s)
  {
    OfferedIff(rules, z, date, s);
    OfferedIff(rules.(weekly := weekly), z, date, s);
  }

  /** The padding keeps the page's own breaks: a start is free exactly when every booking ends bufferBefore minutes
      before it or earlier, or begins bufferAfter minutes after its slot or later. */
  lemma FreeIff(rules: Rules, booked: seq<Interval>, s: int)
    ensures Free(rules, booked, s) <==>
      forall b :: b in booked ==>
        b.end + rules.bufferBefore * MINUTE <= s || s + (rules.slotMin + rules.bufferAfter) * MINUTE <= b.start
  {
    forall b ensures Overlaps(rules.Padded(s), b) <==>
      !(b.end + rules.bufferBefore * MINUTE <= s || s + (rules.slotMin + rules.bufferAfter) * MINUTE <= b.start)
    {
    }
    if Free(rules, booked, s) {
      forall b | b in booked ensures !Overlaps(rules.Padded(s), b) {
        var j :| 0 <= j < |booked| && booked[j] == b;
      }
    }
  }

  /** Unless its reading falls into a gap of the zone, a wall clock is shown at the instant it is taken for, and that
      instant's date is the date it was read on. */
  lemma WallClockRoundTrip(z: Zone, date: int, minute: int)
    requires 0 <= minute < 1440 && z.offset(LocalToUtc(date, minute, z)) == z.resolve(date * DAY + minute * MINUTE)
    ensures LocalToUtc(date, minute, z) + z.offset(LocalToUtc(date, minute, z)) == date * DAY + minute * MINUTE
    ensures LocalDate(LocalToUtc(date, minute, z), z) == date
  {
  }

  // ----- the generator -----

  ghost predicate KnownZone(rules: Rules) {
    rules.zone.Some? ==> ValidZone(rules.zone.value)
  }

  /** What the duplicate filter remembers of a start: its slot's ends in milliseconds. */
  function KeyOf(s: int, step: int): (int, int) {
    (s / MILLISECOND, (s + step) / MILLISECOND)
  }

  function Keys(results: seq<int>, step: int): set<(int, int)> {
    if results == [] then {} else Keys(results[..|results| - 1], step) + {KeyOf(results[|results| - 1], step)}
  }

  ghost predicate AllWhole(results: seq<int>) {
    forall i :: 0 <= i < |results| ==> results[i] % SECOND == 0
  }

  /** The generator's duplicate filter: starts collected so far and the millisecond keys seen. */
  ghost predicate Collected(results: seq<int>, seen: set<(int, int)>, step: int) {
    NoDuplicates(results) && AllWhole(results) && seen == Keys(results, step)
  }

  lemma MillisecondKeyIsFaithful(s: int, t: int)
    requires s % SECOND == 0 && t % SECOND == 0 && s / MILLISECOND == t / MILLISECOND
    ensures s == t
  {
  }

  /** Among whole-second starts the filter knows a start exactly when it is there already. */
  lemma {:induction false} SeenIffCollected(results: seq<int>, step: int, start: int)
    requires AllWhole(results) && start % SECOND == 0
    ensures KeyOf(start, step) in Keys(results, step) <==> start in results
  {
    if results != [] {
      var last := results[|results| - 1];
      assert results == results[..|results| - 1] + [last];
      SeenIffCollected(results[..|results| - 1], step, start);
      if KeyOf(start, step) == KeyOf(last, step) {
        MillisecondKeyIsFaithful(start, last);
      }
    }
  }

  lemma WholeSecondsAdd(a: int, b: int)
    requires a % SECOND == 0 && b % SECOND == 0
    ensures (a + b) % SECOND == 0
  {
    assert a + b == (a / SECOND + b / SECOND) * SECOND;
  }

  lemma WholeSecondsSubtract(a: int, b: int)
    requires a % SECOND == 0 && b % SECOND == 0
    ensures (a - b) % SECOND == 0
  {
    assert a - b == (a / SECOND - b / SECOND) * SECOND;
  }

  lemma WholeSecondsMultiply(a: int, m: int)
    requires a % SECOND == 0
    ensures (a * m) % SECOND == 0
  {
    var q := a / SECOND;
    assert a * m == (q * SECOND) * m == (q * m) * SECOND;
  }

  lemma LocalToUtcIsWholeSeconds(z: Zone, date: int, minute: int)
    requires ValidZone(z)
    ensures LocalToUtc(date, minute, z) % SECOND == 0
  {
    var w := date * DAY + minute * MINUTE;
    ResolveIsBounded(z, w);
    assert w == (date * 86_400 + minute * 60) * SECOND;
    WholeSecondsSubtract(w, z.resolve(w));
  }

  /** Every grid start of every range is a whole second. */
  lemma GridStartIsWholeSeconds(z: Zone, slotMin: int, date: int, r: TimeRange, s: int)
    requires ValidZone(z) && OnGrid(z, slotMin * MINUTE, date, r, s)
    ensures s % SECOND == 0
  {
    var lo, step := LocalToUtc(date, r.start.value, z), slotMin * MINUTE;
    var k := (s - lo) / step;
    LocalToUtcIsWholeSeconds(z, date, r.start.value);
    assert step == slotMin * 60 * SECOND;
    WholeSecondsMultiply(step, k);
    WholeSecondsAdd(lo, step * k);
    assert s == lo + step * k;
  }

  method Conflicts(booked: seq<Interval>, padded: Interval) returns (conflict: bool)
    ensures conflict <==> exists j :: 0 <= j < |booked| && Overlaps(padded, booked[j])
  {
    conflict := false;
    for i := 0 to |booked|
      invariant !conflict
      invariant forall j :: 0 <= j < i ==> !Overlaps(padded, booked[j])
    {
      if Overlaps(padded, booked[i]) {
        conflict := true;
        break;
      }
    }
  }

  lemma CollectOne(results: seq<int>, seen: set<(int, int)>, step: int, start: int)
    requires Collected(results, seen, step) && start % SECOND == 0
    ensures KeyOf(start, step) in seen <==> start in results
    ensures start !in results ==> Collected(results + [start], seen + {KeyOf(start, step)}, step)
  {
    SeenIffCollected(results, step, start);
    assert (results + [start])[..|results|] == results;
  }

  /** The body of the grid loop: filters one candidate start and keeps it unless its key was seen. */
  method Consider(rules: Rules, booked: seq<Interval>, now: int, start: int,
                  results: seq<int>, seen: set<(int, int)>)
    returns (results': seq<int>, seen': set<(int, int)>)
    requires Collected(results, seen, rules.Slot()) && start % SECOND == 0
    ensures Collected(results', seen', rules.Slot())
    ensures forall s :: s in results' <==> s in results || (s == start && Admissible(rules, booked, now, start))
  {
    results', seen' := results, seen;
    var end := start + rules.Slot();
    if start < now + rules.minNotice * MINUTE {
      return;
    }
    if now + rules.maxDaysAhead * DAY < end {
      return;
    }
    var conflict := Conflicts(booked, rules.Padded(start));
    if conflict {
      return;
    }
    assert Admissible(rules, booked, now, start);
    var key := (start / MILLISECOND, end / MILLISECOND);
    CollectOne(results, seen, rules.Slot(), start);
    if key in seen {
      return;
    }
    seen' := seen + {key};
    results' := results + [start];
  }

  /** s is a grid start after lo that comes before end. */
  predicate GridBefore(lo: int, step: int, end: int, s: int)
    requires 0 < step
  {
    lo <= s < end && (s - lo) % step == 0
  }

  lemma MultiplesGrow(n: int, d: int)
    requires 0 < n
    ensures d >= 1 ==> n * d >= n
    ensures d <= -1 ==> n * d <= -n
  {
  }

  lemma MultiplesAreApart(a: int, b: int, n: int)
    requires 0 < n && a % n == 0 && b % n == 0 && a <= b < a + n
    ensures a == b
  {
    var d := b / n - a / n;
    assert b - a == n * d;
    MultiplesGrow(n, d);
  }

  lemma NextMultiple(a: int, n: int)
    requires 0 < n && a % n == 0
    ensures (a + n) % n == 0
  {
    assert a + n == n * (a / n + 1);
    MultipleHasNoRemainder(n, a / n + 1);
  }

  lemma MultipleHasNoRemainder(n: int, k: int)
    requires 0 < n
    ensures (n * k) % n == 0
  {
    var r, q := (n * k) % n, (n * k) / n;
    assert n * (k - q) == r;
    MultiplesGrow(n, k - q);
  }

  lemma GridGrows(lo: int, step: int, start: int)
    requires 0 < step && lo <= start && (start - lo) % step == 0
    ensures (start + step - lo) % step == 0
    ensures forall s :: GridBefore(lo, step, start + step, s) <==> GridBefore(lo, step, start, s) || s == start
  {
    NextMultiple(start - lo, step);
    forall s | GridBefore(lo, step, start + step, s) ensures GridBefore(lo, step, start, s) || s == start {
      if start <= s {
        MultiplesAreApart(start - lo, s - lo, step);
      }
    }
  }

  /** When the grid loop stops at start, it has visited exactly the starts whose slot still fits the range. */
  lemma GridIsExhausted(z: Zone, step: int, date: int, r: TimeRange, start: int)
    requires 0 < step && r.start.Some? && r.end.Some?
    requires LocalToUtc(date, r.start.value, z) < LocalToUtc(date, r.end.value, z)
    requires LocalToUtc(date, r.start.value, z) <= start && (start - LocalToUtc(date, r.start.value, z)) % step == 0
    requires LocalToUtc(date, r.end.value, z) < start + step
    requires start <= LocalToUtc(date, r.end.value, z)
    ensures forall s :: GridBefore(LocalToUtc(date, r.start.value, z), step, start, s) <==> OnGrid(z, step, date, r, s)
  {
    var lo, hi := LocalToUtc(date, r.start.value, z), LocalToUtc(date, r.end.value, z);
    forall s | GridBefore(lo, step, start, s) ensures s + step <= hi {
      if start < s + step {
        NextMultiple(s - lo, step);
        MultiplesAreApart(start - lo, s + step - lo, step);
      }
    }
  }

  /** One range of one date: the innermost grid loop. */
  method AddRange(rules: Rules, z: Zone, booked: seq<Interval>, now: int, date: int, r: TimeRange,
                  results: seq<int>, seen: set<(int, int)>)
    returns (results': seq<int>, seen': set<(int, int)>)
    requires 0 < rules.slotMin && ValidZone(z)
    requires Collected(results, seen, rules.Slot())
    ensures Collected(results', seen', rules.Slot())
    ensures forall s :: s in results' <==>
      s in results || (OnGrid(z, rules.Slot(), date, r, s) && Admissible(rules, booked, now, s))
  {
    results', seen' := results, seen;
    if r.start.None? || r.end.None? {
      return;
    }
    var lo := LocalToUtc(date, r.start.value, z);
    var hi := LocalToUtc(date, r.end.value, z);
    if lo >= hi {
      return;
    }
    var step := rules.Slot();
    var start := lo;
    while start + step <= hi
      invariant lo <= start <= hi && (start - lo) % step == 0
      invariant Collected(results', seen', step)
      invariant forall s :: s in results' <==>
        s in results || (GridBefore(lo, step, start, s) && Admissible(rules, booked, now, s))
      decreases hi - start
    {
      GridStartIsWholeSeconds(z, rules.slotMin, date, r, start);
      GridGrows(lo, step, start);
      results', seen' := Consider(rules, booked, now, start, results', seen');
      start := start + step;
    }
    GridIsExhausted(z, step, date, r, start);
  }

  /** Insertion sort standing in for the library sort: only its contract matters. */
  method SortStarts(starts: seq<int>) returns (sorted: seq<int>)
    requires NoDuplicates(starts)
    ensures StrictlyIncreasing(sorted)
    ensures forall s :: s in sorted <==> s in starts
  {
    sorted := [];
    for i := 0 to |starts|
      invariant StrictlyIncreasing(sorted)
      invariant forall s :: s in sorted <==> s in starts[..i]
    {
      var x := starts[i];
      assert starts[..i + 1] == starts[..i] + [x];
      assert x !in starts[..i];
      var at := 0;
      while at < |sorted| && sorted[at] < x
        invariant 0 <= at <= |sorted|
        invariant forall j :: 0 <= j < at ==> sorted[j] < x
      {
        at := at + 1;
      }
      assert at < |sorted| ==> x < sorted[at];
      InsertKeepsOrder(sorted, at, x);
      sorted := sorted[..at] + [x] + sorted[at..];
    }
    assert starts[..|starts|] == starts;
  }

  lemma InsertKeepsOrder(sorted: seq<int>, at: nat, x: int)
    requires StrictlyIncreasing(sorted) && at <= |sorted|
    requires forall j :: 0 <= j < at ==> sorted[j] < x
    requires at < |sorted| ==> x < sorted[at]
    ensures StrictlyIncreasing(sorted[..at] + [x] + sorted[at..])
    ensures forall s :: s in sorted[..at] + [x] + sorted[at..] <==> s in sorted || s == x
  {
    var r := sorted[..at] + [x] + sorted[at..];
    forall i, j | 0 <= i < j < |r| ensures r[i] < r[j] {
      var a := if i < at then sorted[i] else if i == at then x else sorted[i - 1];
      var b := if j < at then sorted[j] else if j == at then x else sorted[j - 1];
      assert r[i] == a && r[j] == b;
    }
    forall s | s in sorted ensures s in r {
      assert sorted == sorted[..at] + sorted[at..];
      assert s in sorted[..at] || s in sorted[at..];
    }
  }

  /** s was offered on one of the dates first, ..., end - 1. */
  ghost predicate OfferedBefore(rules: Rules, z: Zone, first: int, end: int, s: int) {
    exists date :: first <= date < end && OfferedOn(rules, z, date, s)
  }

  /** All ranges of one date. */
  method AddDate(rules: Rules, z: Zone, booked: seq<Interval>, now: int, date: int,
                 results: seq<int>, seen: set<(int, int)>)
    returns (results': seq<int>, seen': set<(int, int)>)
    requires 0 < rules.slotMin && ValidZone(z)
    requires Collected(results, seen, rules.Slot())
    ensures Collected(results', seen', rules.Slot())
    ensures forall s :: s in results' <==>
      s in results || (OfferedOn(rules, z, date, s) && Admissible(rules, booked, now, s))
  {
    results', seen' := results, seen;
    var ranges := RangesOn(rules, date);
    for j := 0 to |ranges|
      invariant Collected(results', seen', rules.Slot())
      invariant forall s :: s in results' <==>
        s in results || (OfferedByFirst(rules, z, date, j, s) && Admissible(rules, booked, now, s))
    {
      results', seen' := AddRange(rules, z, booked, now, date, ranges[j], results', seen');
      assert forall s :: OfferedByFirst(rules, z, date, j + 1, s) <==>
        OfferedByFirst(rules, z, date, j, s) || OnGrid(z, rules.Slot(), date, ranges[j], s);
    }
  }

  /** What the day loop visits: the dates of the window, cut off at the horizon. */
  ghost predicate Emitted(rules: Rules, booked: seq<Interval>, now: int, from: int, to: int, s: int) {
    && rules.zone.Some?
    && var z := rules.zone.value;
       SlotBetween(rules, booked, now, LocalDate(from, z), Min(LocalDate(to, z), HorizonDate(rules, now)), s)
  }

  /** The generator.  A slot length of zero would keep the source's grid loop from ever ending. */
  method Slots(rules: Rules, booked: seq<Interval>, now: int, from: int, to: int) returns (results: seq<int>)
    requires 0 < rules.slotMin && KnownZone(rules)
    ensures StrictlyIncreasing(results)
    ensures forall s :: s in results <==> Emitted(rules, booked, now, from, to, s)
  {
    if rules.zone.None? {
      return [];
    }
    var z := rules.zone.value;
    var first := LocalDate(from, z);
    var spanDays := LocalDate(to, z) - first;
    if spanDays < 0 {
      return [];
    }
    var horizon := HorizonDate(rules, now);
    var seen: set<(int, int)> := {};
    results := [];
    var i := 0;
    while i <= spanDays
      invariant 0 <= i <= spanDays + 1
      invariant i > 0 ==> first + i - 1 <= horizon
      invariant Collected(results, seen, rules.Slot())
      invariant forall s :: s in results <==>
        OfferedBefore(rules, z, first, first + i, s) && Admissible(rules, booked, now, s)
    {
      var date := first + i;
      if date > horizon {
        break;
      }
      results, seen := AddDate(rules, z, booked, now, date, results, seen);
      i := i + 1;
    }
    assert first + i - 1 == Min(first + spanDays, horizon) || (i == 0 && horizon < first);
    results := SortStarts(results);
  }

  /** The single-slot check: generate a day either side of start and look for an exact match. */
  method IsSlotAvailable(rules: Rules, start: int, now: int, booked: seq<Interval>) returns (available: bool)
    requires 0 < rules.slotMin && KnownZone(rules)
    ensures available <==> Emitted(rules, booked, now, start - DAY, start + DAY, start)
  {
    var slots := Slots(rules, booked, now, start - DAY, start + DAY);
    available := false;
    for i := 0 to |slots|
      invariant !available && start !in slots[..i]
    {
      if slots[i] == start {
        return true;
      }
      assert slots[..i + 1] == slots[..i] + [slots[i]];
    }
    assert slots[..|slots|] == slots;
  }

  // ----- what the rules of a stored page guarantee -----

  /** "HH:mm" between 00:00 and 23:59. */
  ghost predicate TimeOfDay(t: Option<int>) {
    t.Some? && 0 <= t.value < 1440
  }

  ghost predicate RangesInDay(ranges: seq<TimeRange>) {
    forall r :: r in ranges ==> TimeOfDay(r.start) && TimeOfDay(r.end)
  }

  /** The bounds that page validation puts on stored rules, as far as the engine relies on them. */
  ghost predicate StoredRules(rules: Rules) {
    && KnownZone(rules)
    && 15 <= rules.slotMin <= 480
    && 0 <= rules.bufferBefore <= 120
    && 0 <= rules.bufferAfter <= 120
    && 0 <= rules.minNotice <= 10080
    && 1 <= rules.maxDaysAhead <= 365
    && (forall d :: d in rules.weekly ==> RangesInDay(rules.weekly[d]))
    && (forall d :: d in rules.overrides ==> RangesInDay(rules.overrides[d]))
  }

  lemma FloorOfInstant(x: int, date: int)
    ensures date * DAY <= x <==> date <= x / DAY
    ensures x < (date + 1) * DAY <==> x / DAY <= date
  {
  }

  /** On its grid, a start lies between the UTC images of its range's own ends. */
  lemma OfferedStartIsInRange(rules: Rules, z: Zone, date: int, s: int) returns (r: TimeRange)
    requires StoredRules(rules) && OfferedOn(rules, z, date, s)
    ensures TimeOfDay(r.start) && TimeOfDay(r.end)
    ensures LocalToUtc(date, r.start.value, z) <= s <= s + rules.Slot() <= LocalToUtc(date, r.end.value, z)
  {
    var j :| 0 <= j < |RangesOn(rules, date)| && OnGrid(z, rules.Slot(), date, RangesOn(rules, date)[j], s);
    r := RangesOn(rules, date)[j];
    assert TimeOfDay(r.start) && TimeOfDay(r.end);
  }

  lemma WallClockIsNearItsDate(z: Zone, date: int, minute: int)
    requires ValidZone(z) && 0 <= minute < 1440
    ensures date * DAY - DAY < LocalToUtc(date, minute, z) < (date + 1) * DAY + DAY
  {
    ResolveIsBounded(z, date * DAY + minute * MINUTE);
  }

  lemma WallClockStaysNear(z: Zone, date: int, minute: int, t: int)
    requires ValidZone(z) && 0 <= minute < 1440 && date * DAY - 2 * DAY < t < (date + 1) * DAY + 2 * DAY
    ensures date * DAY - DAY <= LocalToUtc(date, minute, z) + z.offset(t) < (date + 1) * DAY + DAY
  {
    ResolveIsClose(z, date * DAY + minute * MINUTE, t);
  }

  /** A start laid out for a date lies within that date's wall-clock day, up to a day, by the clock of any
      instant at most a day away. */
  lemma OfferedStartIsNearItsDate(rules: Rules, z: Zone, date: int, s: int, t: int)
    requires StoredRules(rules) && ValidZone(z) && OfferedOn(rules, z, date, s) && s - DAY <= t <= s + DAY
    ensures date * DAY - DAY <= s + z.offset(t) < (date + 1) * DAY + DAY
  {
    var r := OfferedStartIsInRange(rules, z, date, s);
    WallClockIsNearItsDate(z, date, r.start.value);
    WallClockIsNearItsDate(z, date, r.end.value);
    WallClockStaysNear(z, date, r.start.value, t);
    WallClockStaysNear(z, date, r.end.value, t);
  }

  /** By the clock of an instant more than a day later, a start's date is not ahead. */
  lemma DateIsNotAhead(rules: Rules, z: Zone, date: int, s: int, t: int)
    requires StoredRules(rules) && ValidZone(z) && OfferedOn(rules, z, date, s) && s + DAY <= t
    ensures date <= LocalDate(t, z)
  {
    var r := OfferedStartIsInRange(rules, z, date, s);
    var w := date * DAY + r.start.value * MINUTE;
    ResolveIsBounded(z, w);
    FloorOfInstant(t + z.offset(t), date);
    if t + z.offset(t) < date * DAY {
      assert -DAY < w - t < DAY;
      ResolveIsClose(z, w, t);
    }
  }

  /** The horizon break loses nothing: every date past it only offers starts that end too late. */
  lemma HorizonDropsNoSlot(rules: Rules, booked: seq<Interval>, now: int, date: int, s: int)
    requires StoredRules(rules) && rules.zone.Some?
    requires OfferedOn(rules, rules.zone.value, date, s) && Admissible(rules, booked, now, s)
    ensures date <= HorizonDate(rules, now)
  {
    DateIsNotAhead(rules, rules.zone.value, date, s, now + (rules.maxDaysAhead + 1) * DAY);
  }

  /** The window of a day either side of s always contains the date whose range produced s. */
  lemma WindowContainsItsDate(rules: Rules, z: Zone, date: int, s: int)
    requires StoredRules(rules) && ValidZone(z) && OfferedOn(rules, z, date, s)
    ensures LocalDate(s - DAY, z) <= date <= LocalDate(s + DAY, z)
  {
    OfferedStartIsNearItsDate(rules, z, date, s, s - DAY);
    FloorOfInstant(s - DAY + z.offset(s - DAY), date);
    OfferedStartIsNearItsDate(rules, z, date, s, s + DAY);
    FloorOfInstant(s + DAY + z.offset(s + DAY), date);
  }

  /** Under stored rules the generator yields exactly the declarative set, restricted to the window. */
  lemma HorizonIsInvisible(rules: Rules, booked: seq<Interval>, now: int, from: int, to: int, s: int)
    requires StoredRules(rules) && rules.zone.Some?
    ensures Emitted(rules, booked, now, from, to, s) <==>
      SlotBetween(rules, booked, now, LocalDate(from, rules.zone.value), LocalDate(to, rules.zone.value), s)
  {
    var z := rules.zone.value;
    if SlotBetween(rules, booked, now, LocalDate(from, z), LocalDate(to, z), s) {
      var date :| LocalDate(from, z) <= date <= LocalDate(to, z) && OfferedOn(rules, z, date, s);
      HorizonDropsNoSlot(rules, booked, now, date, s);
    }
  }

  /** The single-slot check decides membership in the declarative set, with no window at all. */
  lemma SingleSlotCheckIsExact(rules: Rules, booked: seq<Interval>, now: int, s: int)
    requires StoredRules(rules)
    ensures Emitted(rules, booked, now, s - DAY, s + DAY, s) <==> IsSlot(rules, booked, now, s)
  {
    if rules.zone.Some? {
      var z := rules.zone.value;
      HorizonIsInvisible(rules, booked, now, s - DAY, s + DAY, s);
      if IsSlot(rules, booked, now, s) {
        var date :| OfferedOn(rules, z, date, s);
        WindowContainsItsDate(rules, z, date, s);
      }
    }
  }

  /** What a slot is, from the stored page alone: within notice and horizon, clear of every booking by the page's breaks,
      and a whole number of slots into one of the ranges that its date has. */
  lemma SlotSpelledOut(rules: Rules, z: Zone, booked: seq<Interval>, now: int, s: int)
    requires rules.zone == Some(z)
    ensures IsSlot(rules, booked, now, s) <==>
      && now + rules.minNotice * MINUTE <= s && s + rules.slotMin * MINUTE <= now + rules.maxDaysAhead * DAY
      && (forall b :: b in booked ==>
            b.end + rules.bufferBefore * MINUTE <= s || s + (rules.slotMin + rules.bufferAfter) * MINUTE <= b.start)
      && exists date, r ::
           && (if date in rules.overrides then r in rules.overrides[date]
               else Weekday(date) in rules.weekly && r in rules.weekly[Weekday(date)])
           && OnGrid(z, rules.slotMin * MINUTE, date, r, s)
  {
    FreeIff(rules, booked, s);
    forall date ensures OfferedOn(rules, z, date, s) <==>
      exists r ::
        && (if date in rules.overrides then r in rules.overrides[date]
            else Weekday(date) in rules.weekly && r in rules.weekly[Weekday(date)])
        && OnGrid(z, rules.slotMin * MINUTE, date, r, s)
    {
      OfferedIff(rules, z, date, s);
    }
  }

  /** Changing the weekly hours of a weekday changes nothing in a window whose dates on that weekday all have overrides;
      in a window of days off the generator lists nothing. */
  lemma OverridesDecideTheWindow(rules: Rules, weekly: map<int, seq<TimeRange>>, booked: seq<Interval>, now: int,
                                 from: int, to: int, s: int)
    requires rules.zone.Some?
    requires forall date :: LocalDate(from, rules.zone.value) <= date <= LocalDate(to, rules.zone.value) && date !in rules.overrides ==>
      SameDay(rules.weekly, weekly, Weekday(date))
    ensures Emitted(rules, booked, now, from, to, s) <==> Emitted(rules.(weekly := weekly), booked, now, from, to, s)
    ensures Emitted(rules, booked, now, from, to, s) ==>
      exists date :: LocalDate(from, rules.zone.value) <= date <= LocalDate(to, rules.zone.value)
                  && !(date in rules.overrides && rules.overrides[date] == [])
  {
    var z := rules.zone.value;
    var other := rules.(weekly := weekly);
    forall date | LocalDate(from, z) <= date <= LocalDate(to, z)
      ensures OfferedOn(rules, z, date, s) <==> OfferedOn(other, z, date, s)
      ensures date in rules.overrides && rules.overrides[date] == [] ==> !OfferedOn(rules, z, date, s)
    {
      if date in rules.overrides {
        OverrideReplacesTheWeek(rules, weekly, z, date, s);
      } else {
        OfferedIff(rules, z, date, s);
        OfferedIff(other, z, date, s);
      }
    }
    assert Admissible(rules, booked, now, s) <==> Admissible(other, booked, now, s) by {
      FreeIff(rules, booked, s);
      FreeIff(other, booked, s);
    }
  }

  predicate SameDay(weekly: map<int, seq<TimeRange>>, other: map<int, seq<TimeRange>>, day: int) {
    (day in weekly <==> day in other) && (day in weekly ==> weekly[day] == other[day])
  }

  /** Whatever window a start was listed for, the single-slot check accepts it; whatever the check
      accepts is listed for every window that reaches the date a range offers it on. */
  lemma GeneratorAndCheckAgree(rules: Rules, booked: seq<Interval>, now: int, from: int, to: int, s: int)
    requires StoredRules(rules) && rules.zone.Some?
    ensures Emitted(rules, booked, now, from, to, s) <==>
      Emitted(rules, booked, now, s - DAY, s + DAY, s) &&
      exists date :: LocalDate(from, rules.zone.value) <= date <= LocalDate(to, rules.zone.value)
                  && OfferedOn(rules, rules.zone.value, date, s)
  {
    HorizonIsInvisible(rules, booked, now, from, to, s);
    SingleSlotCheckIsExact(rules, booked, now, s);
  }

  /** A start stays a slot when bookings that its padded window misses are ignored, and only then. */
  lemma OnlyOverlappingBookingsMatter(rules: Rules, fewer: seq<Interval>, all: seq<Interval>, now: int, s: int)
    requires IsSlot(rules, fewer, now, s)
    ensures IsSlot(rules, all, now, s) <==> forall b :: b in all && b !in fewer ==> !Overlaps(rules.Padded(s), b)
  {
    if forall b :: b in all && b !in fewer ==> !Overlaps(rules.Padded(s), b) {
      forall j | 0 <= j < |all| ensures !Overlaps(rules.Padded(s), all[j]) {
        if all[j] in fewer {
          var i :| 0 <= i < |fewer| && fewer[i] == all[j];
        }
      }
      assert Free(rules, all, s);
    }
  }
}
