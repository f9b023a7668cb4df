/**
  What a booking page must look like before it is stored: PageInput.Validate of
  internal/bookings/schemas.go, and that this is all the slot engine asks of stored rules.
 */
module Schemas {
  import opened Common
  import A = Availability
  import Digits
  import Slug

  // ----- times of day -----

  predicate IsDigit(c: char) {
    '0' <= c <= '9'
  }

  function Value(c: char): nat
    requires IsDigit(c)
  {
    c as int - '0' as int
  }

  /** "HH:mm" from 00:00 to 23:45, on a quarter of an hour. */
  predicate OnQuarter(s: string) {
    && |s| == 5 && s[2] == ':'
    && (((s[0] == '0' || s[0] == '1') && IsDigit(s[1])) || (s[0] == '2' && '0' <= s[1] <= '3'))
    && (((s[3] == '0' || s[3] == '3') && s[4] == '0') || ((s[3] == '1' || s[3] == '4') && s[4] == '5'))
  }

  /** loose is what scanning makes of any other text; it never decides whether a page is accepted. */
  function ToMinutes(s: string, loose: string -> int): (m: int)
    ensures OnQuarter(s) ==> 0 <= m <= 1425 && m % 15 == 0
  {
    if OnQuarter(s) then (Value(s[0]) * 10 + Value(s[1])) * 60 + Value(s[3]) * 10 + Value(s[4]) else loose(s)
  }

  /** The text of hour h and quarter q. */
  function Clock(h: nat, q: nat): string
    requires h < 24 && q < 4
  {
    [Digits.Digit(h / 10), Digits.Digit(h % 10), ':', Digits.Digit(15 * q / 10), Digits.Digit(15 * q % 10)]
  }

  /** The texts that validation lets through are the 96 quarters of a day, and each is read as the minutes it shows. */
  lemma QuartersOfTheDay(h: nat, q: nat, loose: string -> int)
    requires h < 24 && q < 4
    ensures OnQuarter(Clock(h, q)) && ToMinutes(Clock(h, q), loose) == h * 60 + q * 15
  {
    assert 0 <= h / 10 <= 2 && (h / 10 == 2 ==> h % 10 <= 3);
    assert q == 0 || q == 1 || q == 2 || q == 3;
    assert h == h / 10 * 10 + h % 10;
  }

  lemma QuarterIsShown(s: string) returns (h: nat, q: nat)
    requires OnQuarter(s)
    ensures h < 24 && q < 4 && s == Clock(h, q)
  {
    h := Value(s[0]) * 10 + Value(s[1]);
    q := (Value(s[3]) * 10 + Value(s[4])) / 15;
    assert h / 10 == Value(s[0]) && h % 10 == Value(s[1]);
    assert 15 * q == Value(s[3]) * 10 + Value(s[4]);
    assert s == [s[0], s[1], s[2], s[3], s[4]];
  }

  // ----- the ranges of one day -----

  datatype TextRange = TextRange(start: string, end: string)

  type Days = map<string, seq<TextRange>>

  const LIMIT_RANGES_PER_DAY: nat := 20
  const LIMIT_OVERRIDE_DAYS: nat := 366

  predicate OnGrid(r: TextRange) {
    OnQuarter(r.start) && OnQuarter(r.end)
  }

  /** Ranges of whole quarters, each ending after it starts and before any later one starts. */
  ghost predicate GoodDay(ranges: seq<TextRange>, loose: string -> int) {
    && |ranges| <= LIMIT_RANGES_PER_DAY
    && (forall r :: r in ranges ==> OnGrid(r) && ToMinutes(r.start, loose) < ToMinutes(r.end, loose))
    && forall i, j :: 0 <= i < j < |ranges| ==> ToMinutes(ranges[i].end, loose) <= ToMinutes(ranges[j].start, loose)
  }

  datatype Message =
    | TooManyRanges | OffGrid | Backwards | Unsorted | Overlapping | BadKey
    | TooManyDays | Missing | OutOfBounds | TooLong | BadSlug | BadZone | BadStatus

  /** The place a message is about: a field, a day's list, one of its ranges, or the end of one. */
  datatype Field = Named(name: string) | Day(field: string, day: string)
    | Item(list: string, key: string, i: nat) | ItemEnd(list: string, key: string, i: nat)

  type Fields = map<Field, Message>

  /** The message that stays at the i-th range: a complaint about its place overwrites one about its form. */
  function ItemMessage(ranges: seq<TextRange>, i: nat, loose: string -> int): (m: Option<Message>)
    requires i < |ranges|
    ensures m == Some(Unsorted) <==> i > 0 && ToMinutes(ranges[i].start, loose) < ToMinutes(ranges[i - 1].start, loose)
    ensures m == Some(Overlapping) <==>
      i > 0 && ToMinutes(ranges[i - 1].start, loose) <= ToMinutes(ranges[i].start, loose) < ToMinutes(ranges[i - 1].end, loose)
    ensures m == None ==> OnQuarter(ranges[i].start) && OnQuarter(ranges[i].end)
    ensures m == Some(OffGrid) ==> !OnQuarter(ranges[i].start) || !OnQuarter(ranges[i].end)
  {
    if i > 0 && ToMinutes(ranges[i].start, loose) < ToMinutes(ranges[i - 1].start, loose) then Some(Unsorted)
    else if i > 0 && ToMinutes(ranges[i].start, loose) < ToMinutes(ranges[i - 1].end, loose) then Some(Overlapping)
    else if !OnGrid(ranges[i]) then Some(OffGrid)
    else None
  }

  predicate RunsBackwards(r: TextRange, loose: string -> int) {
    OnGrid(r) && ToMinutes(r.start, loose) >= ToMinutes(r.end, loose)
  }

  /** Nothing about the i-th range is wrong. */
  predicate Clean(ranges: seq<TextRange>, i: nat, loose: string -> int)
    requires i < |ranges|
  {
    ItemMessage(ranges, i, loose).None? && !RunsBackwards(ranges[i], loose)
  }

  lemma {:induction false} NeighboursAreEnough(ranges: seq<TextRange>, i: nat, j: nat, loose: string -> int)
    requires i < j < |ranges| && forall k :: 0 <= k < |ranges| ==> Clean(ranges, k, loose)
    ensures ToMinutes(ranges[i].end, loose) <= ToMinutes(ranges[j].start, loose)
  {
    assert Clean(ranges, j, loose) && Clean(ranges, j - 1, loose);
    if i < j - 1 {
      NeighboursAreEnough(ranges, i, j - 1, loose);
    }
  }

  /** Comparing each range with its predecessor finds every overlap. */
  lemma CleanIsGood(ranges: seq<TextRange>, loose: string -> int)
    requires |ranges| <= LIMIT_RANGES_PER_DAY
    ensures (forall k :: 0 <= k < |ranges| ==> Clean(ranges, k, loose)) <==> GoodDay(ranges, loose)
  {
    if forall k :: 0 <= k < |ranges| ==> Clean(ranges, k, loose) {
      forall r | r in ranges ensures OnGrid(r) && !RunsBackwards(r, loose) {
        var k :| 0 <= k < |ranges| && ranges[k] == r;
        assert Clean(ranges, k, loose);
      }
      forall i, j | 0 <= i < j < |ranges| ensures ToMinutes(ranges[i].end, loose) <= ToMinutes(ranges[j].start, loose) {
        NeighboursAreEnough(ranges, i, j, loose);
      }
    }
    if GoodDay(ranges, loose) {
      forall k | 0 <= k < |ranges| ensures Clean(ranges, k, loose) {
        assert ranges[k] in ranges && (k > 0 ==> ranges[k - 1] in ranges);
      }
    }
  }

  /** Whether later messages only ever add to earlier ones. */
  predicate Extends(before: Fields, after: Fields) {
    before.Keys <= after.Keys
  }

  method CheckForms(list: string, key: string, ranges: seq<TextRange>, loose: string -> int, before: Fields) returns (fields: Fields)
    ensures Extends(before, fields)
    ensures forall f :: f in fields && f !in before ==> f.Item? || f.ItemEnd?
    ensures forall i :: 0 <= i < |ranges| ==> Reports(fields, list, key, i, FormMessage(ranges[i]))
    ensures forall i :: 0 <= i < |ranges| && RunsBackwards(ranges[i], loose) ==> ItemEnd(list, key, i) in fields
    ensures (forall i :: 0 <= i < |ranges| ==> OnGrid(ranges[i]) && !RunsBackwards(ranges[i], loose)) ==> fields == before
  {
    fields := before;
    for n := 0 to |ranges|
      invariant Extends(before, fields)
      invariant forall f :: f in fields && f !in before ==> f.Item? || f.ItemEnd?
      invariant forall i :: 0 <= i < n ==> Reports(fields, list, key, i, FormMessage(ranges[i]))
      invariant forall i :: 0 <= i < n && RunsBackwards(ranges[i], loose) ==> ItemEnd(list, key, i) in fields
      invariant (forall i :: 0 <= i < n ==> OnGrid(ranges[i]) && !RunsBackwards(ranges[i], loose)) ==> fields == before
    {
      var r := ranges[n];
      if !OnQuarter(r.start) || !OnQuarter(r.end) {
        fields := fields[Item(list, key, n) := OffGrid];
        continue;
      }
      if ToMinutes(r.start, loose) >= ToMinutes(r.end, loose) {
        fields := fields[ItemEnd(list, key, n) := Backwards];
      }
    }
  }

  predicate SameAt(before: Fields, after: Fields, f: Field) {
    if f in before then f in after && after[f] == before[f] else f !in after
  }

  /** The message m stands at the i-th range. */
  predicate Reports(fields: Fields, list: string, key: string, i: nat, m: Option<Message>) {
    m.Some? ==> Item(list, key, i) in fields && fields[Item(list, key, i)] == m.value
  }

  function FormMessage(r: TextRange): Option<Message> {
    if OnGrid(r) then None else Some(OffGrid)
  }

  /** The comparison of the n-th range with its predecessor. */
  method CheckNeighbour(list: string, key: string, ranges: seq<TextRange>, n: nat, loose: string -> int, before: Fields) returns (fields: Fields)
    requires 0 < n < |ranges| && Reports(before, list, key, n, FormMessage(ranges[n]))
    ensures Reports(fields, list, key, n, ItemMessage(ranges, n, loose))
    ensures ItemMessage(ranges, n, loose).None? ==> fields == before
    ensures forall f :: f != Item(list, key, n) ==> SameAt(before, fields, f)
    ensures Extends(before, fields)
  {
    fields := before;
    var prev, cur := ranges[n - 1], ranges[n];
    if ToMinutes(cur.start, loose) < ToMinutes(prev.start, loose) {
      fields := fields[Item(list, key, n) := Unsorted];
    } else if ToMinutes(cur.start, loose) < ToMinutes(prev.end, loose) {
      fields := fields[Item(list, key, n) := Overlapping];
    }
  }

  method CheckOrder(list: string, key: string, ranges: seq<TextRange>, loose: string -> int, before: Fields) returns (fields: Fields)
    requires forall i :: 0 <= i < |ranges| ==> Reports(before, list, key, i, FormMessage(ranges[i]))
    ensures Extends(before, fields)
    ensures forall i :: 0 <= i < |ranges| ==> Reports(fields, list, key, i, ItemMessage(ranges, i, loose))
    ensures (forall i :: 0 <= i < |ranges| ==> ItemMessage(ranges, i, loose).None?) ==> fields == before
  {
    fields := before;
    var n := 1;
    while n < |ranges|
      invariant 1 <= n
      invariant Extends(before, fields)
      invariant forall i :: n <= i < |ranges| ==> Reports(fields, list, key, i, FormMessage(ranges[i]))
      invariant forall i :: 0 <= i < n && i < |ranges| ==> Reports(fields, list, key, i, ItemMessage(ranges, i, loose))
      invariant (forall i :: 0 <= i < n && i < |ranges| ==> ItemMessage(ranges, i, loose).None?) ==> fields == before
    {
      ghost var prior := fields;
      fields := CheckNeighbour(list, key, ranges, n, loose, fields);
      forall i | 0 <= i < |ranges| && i != n ensures SameAt(prior, fields, Item(list, key, i)) {}
      n := n + 1;
    }
  }

  method ValidateDayRanges(list: string, key: string, ranges: seq<TextRange>, loose: string -> int, before: Fields) returns (fields: Fields)
    ensures Extends(before, fields)
    ensures if GoodDay(ranges, loose) then fields == before else fields != map[]
    ensures forall i :: 0 <= i < |ranges| ==> Reports(fields, list, key, i, ItemMessage(ranges, i, loose))
    ensures fields == map[] ==>
      && |ranges| <= 20
      && (forall i :: 0 <= i < |ranges| ==>
            && OnQuarter(ranges[i].start) && OnQuarter(ranges[i].end)
            && ToMinutes(ranges[i].start, loose) < ToMinutes(ranges[i].end, loose))
      && forall i, j :: 0 <= i < j < |ranges| ==> ToMinutes(ranges[i].end, loose) <= ToMinutes(ranges[j].start, loose)
  {
    fields := before;
    if |ranges| > LIMIT_RANGES_PER_DAY {
      fields := fields[Day(list, key) := TooManyRanges];
    } else {
      CleanIsGood(ranges, loose);
    }
    ghost var start := fields;
    fields := CheckForms(list, key, ranges, loose, fields);
    ghost var formed := fields;
    fields := CheckOrder(list, key, ranges, loose, fields);
    if |ranges| > LIMIT_RANGES_PER_DAY {
      assert Day(list, key) in start && Extends(start, formed) && Extends(formed, fields);
    } else if !forall k :: 0 <= k < |ranges| ==> Clean(ranges, k, loose) {
      var k :| 0 <= k < |ranges| && !Clean(ranges, k, loose);
      assert Item(list, key, k) in fields || ItemEnd(list, key, k) in fields;
    } else {
      assert forall k :: 0 <= k < |ranges| ==> Clean(ranges, k, loose) ==> OnGrid(ranges[k]) && !RunsBackwards(ranges[k], loose);
    }
  }

  // ----- a whole map of days -----

  predicate WeekdayKey(k: string) {
    |k| == 1 && '0' <= k[0] <= '6'
  }

  predicate DateKey(k: string) {
    && |k| == 10 && k[4] == '-' && k[7] == '-'
    && forall i :: 0 <= i < 10 && i != 4 && i != 7 ==> IsDigit(k[i])
  }

  ghost predicate GoodEntry(days: Days, isKey: string -> bool, loose: string -> int, k: string)
    requires k in days
  {
    isKey(k) && GoodDay(days[k], loose)
  }

  ghost predicate GoodDays(days: Days, isKey: string -> bool, maxKeys: nat, loose: string -> int) {
    && (maxKeys > 0 ==> |days| <= maxKeys)
    && forall k :: k in days ==> GoodEntry(days, isKey, loose, k)
  }

  method ValidateEntry(field: string, k: string, days: Days, isKey: string -> bool, loose: string -> int, before: Fields) returns (fields: Fields)
    requires k in days
    ensures Extends(before, fields)
    ensures if GoodEntry(days, isKey, loose, k) then fields == before else fields != map[]
  {
    if isKey(k) {
      fields := ValidateDayRanges(field, k, days[k], loose, before);
    } else {
      fields := before[Named(field) := BadKey];
      assert Named(field) in fields;
    }
  }

  /** The source visits the keys in sorted order; no two keys share a place for messages but the field's own,
      where they write the same one. */
  method ValidateDayRangesMap(field: string, isKey: string -> bool, days: Days, maxKeys: nat, loose: string -> int, before: Fields)
    returns (fields: Fields)
    ensures Extends(before, fields)
    ensures if GoodDays(days, isKey, maxKeys, loose) then fields == before else fields != map[]
  {
    fields := before;
    if maxKeys > 0 && |days| > maxKeys {
      fields := fields[Named(field) := TooManyDays];
    }
    ghost var counted := fields;
    var todo := days.Keys;
    while todo != {}
      invariant todo <= days.Keys && Extends(counted, fields)
      invariant (forall k :: k in days && k !in todo ==> GoodEntry(days, isKey, loose, k)) ==> fields == counted
      invariant (exists k :: k in days && k !in todo && !GoodEntry(days, isKey, loose, k)) ==> fields != map[]
      decreases todo
    {
      var k :| k in todo;
      fields := ValidateEntry(field, k, days, isKey, loose, fields);
      todo := todo - {k};
    }
    assert maxKeys > 0 && |days| > maxKeys ==> Named(field) in fields;
  }

  // ----- a page -----

  /** title, description and location without the blanks around them, one character per octet. */
  datatype PageInput = PageInput(
    slug: string, title: string, description: Option<string>, location: Option<string>, timezone: string,
    slotDurationMin: int, bufferBeforeMin: int, bufferAfterMin: int, minNoticeMin: int, maxDaysAhead: int,
    availability: Option<Days>, dateOverrides: Option<Days>, status: string)

  predicate TextsFit(in_: PageInput) {
    && Slug.ValidSlug(in_.slug)
    && 1 <= |in_.title| <= 200
    && (in_.description.Some? ==> |in_.description.value| <= 2000)
    && (in_.location.Some? ==> |in_.location.value| <= 500)
    && (in_.status == "" || in_.status == "active" || in_.status == "paused")
  }

  predicate NumbersFit(in_: PageInput) {
    && 15 <= in_.slotDurationMin <= 480
    && 0 <= in_.bufferBeforeMin <= 120
    && 0 <= in_.bufferAfterMin <= 120
    && 0 <= in_.minNoticeMin <= 10080
    && 1 <= in_.maxDaysAhead <= 365
  }

  /** loads is the zone database. */
  predicate ZoneFits(timezone: string, loads: string -> Option<A.Zone>) {
    1 <= |timezone| <= 64 && loads(timezone).Some?
  }

  ghost predicate DaysFit(in_: PageInput, loose: string -> int) {
    && in_.availability.Some? && GoodDays(in_.availability.value, WeekdayKey, 0, loose)
    && (in_.dateOverrides.Some? ==> GoodDays(in_.dateOverrides.value, DateKey, LIMIT_OVERRIDE_DAYS, loose))
  }

  method Complain(fields: Fields, name: string, wrong: bool, m: Message) returns (fields': Fields)
    ensures fields' == if wrong then fields[Named(name) := m] else fields
    ensures wrong ==> fields' != map[]
  {
    fields' := if wrong then fields[Named(name) := m] else fields;
    assert wrong ==> Named(name) in fields';
  }

  method ValidateTexts(in_: PageInput) returns (fields: Fields)
    ensures fields == map[] <==> TextsFit(in_)
  {
    fields := Complain(map[], "slug", !Slug.ValidSlug(in_.slug), BadSlug);
    fields := Complain(fields, "title", in_.title == "", Missing);
    fields := Complain(fields, "title", |in_.title| > 200, TooLong);
    fields := Complain(fields, "description", in_.description.Some? && |in_.description.value| > 2000, TooLong);
    fields := Complain(fields, "location", in_.location.Some? && |in_.location.value| > 500, TooLong);
    fields := Complain(fields, "status", in_.status != "" && in_.status != "active" && in_.status != "paused", BadStatus);
  }

  method ValidateNumbers(in_: PageInput, before: Fields) returns (fields: Fields)
    ensures if NumbersFit(in_) then fields == before else fields != map[]
  {
    fields := Complain(before, "slotDurationMin", in_.slotDurationMin < 15 || in_.slotDurationMin > 480, OutOfBounds);
    fields := Complain(fields, "bufferBeforeMin", in_.bufferBeforeMin < 0 || in_.bufferBeforeMin > 120, OutOfBounds);
    fields := Complain(fields, "bufferAfterMin", in_.bufferAfterMin < 0 || in_.bufferAfterMin > 120, OutOfBounds);
    fields := Complain(fields, "minNoticeMin", in_.minNoticeMin < 0 || in_.minNoticeMin > 10080, OutOfBounds);
    fields := Complain(fields, "maxDaysAhead", in_.maxDaysAhead < 1 || in_.maxDaysAhead > 365, OutOfBounds);
  }

  method Validate(in_: PageInput, loads: string -> Option<A.Zone>, loose: string -> int) returns (fields: Fields)
    ensures fields == map[] <==> TextsFit(in_) && NumbersFit(in_) && ZoneFits(in_.timezone, loads) && DaysFit(in_, loose)
    ensures fields == map[] <==>
      && Slug.ValidSlug(in_.slug) && 1 <= |in_.title| <= 200
      && (in_.description == None || |in_.description.value| <= 2000) && (in_.location == None || |in_.location.value| <= 500)
      && in_.status in ["", "active", "paused"]
      && 1 <= |in_.timezone| <= 64 && loads(in_.timezone) != None
      && 15 <= in_.slotDurationMin <= 480 && 0 <= in_.bufferBeforeMin <= 120 && 0 <= in_.bufferAfterMin <= 120
      && 0 <= in_.minNoticeMin <= 10080 && 1 <= in_.maxDaysAhead <= 365
      && DaysFit(in_, loose)
    ensures fields == map[] ==>
      && in_.availability.Some? && (forall k :: k in in_.availability.value ==> |k| == 1 && '0' <= k[0] <= '6')
      && (in_.dateOverrides.Some? ==> |in_.dateOverrides.value| <= 366)
  {
    fields := ValidateTexts(in_);
    fields := Complain(fields, "timezone", !ZoneFits(in_.timezone, loads), BadZone);
    fields := ValidateNumbers(in_, fields);
    if in_.availability.None? {
      fields := Complain(fields, "availability", true, Missing);
    } else {
      fields := ValidateDayRangesMap("availability", WeekdayKey, in_.availability.value, 0, loose, fields);
    }
    if in_.dateOverrides.Some? {
      fields := ValidateDayRangesMap("dateOverrides", DateKey, in_.dateOverrides.value, LIMIT_OVERRIDE_DAYS, loose, fields);
    }
  }

  // ----- what the engine makes of it -----

  /** How the engine reads a stored time: scan is its reading of texts that validation never lets through. */
  function EngineTime(s: string, loose: string -> int, scan: string -> Option<int>): (t: Option<int>)
    ensures OnQuarter(s) ==> t == Some(ToMinutes(s, loose))
  {
    if OnQuarter(s) then Some(ToMinutes(s, loose)) else scan(s)
  }

  function EngineRanges(ranges: seq<TextRange>, loose: string -> int, scan: string -> Option<int>): (r: seq<A.TimeRange>)
    ensures |r| == |ranges|
  {
    seq(|ranges|, i requires 0 <= i < |ranges| =>
          A.TimeRange(EngineTime(ranges[i].start, loose, scan), EngineTime(ranges[i].end, loose, scan)))
  }

  ghost predicate ReadsDays(read: map<int, seq<A.TimeRange>>, days: Days, loose: string -> int, scan: string -> Option<int>) {
    forall d :: d in read ==> exists k :: k in days && read[d] == EngineRanges(days[k], loose, scan)
  }

  /** rules are the stored page as the engine sees it. */
  ghost predicate Reads(rules: A.Rules, in_: PageInput, loads: string -> Option<A.Zone>, loose: string -> int, scan: string -> Option<int>)
    requires in_.availability.Some?
  {
    && rules.zone == loads(in_.timezone)
    && rules.slotMin == in_.slotDurationMin && rules.maxDaysAhead == in_.maxDaysAhead && rules.minNotice == in_.minNoticeMin
    && rules.bufferBefore == in_.bufferBeforeMin && rules.bufferAfter == in_.bufferAfterMin
    && ReadsDays(rules.weekly, in_.availability.value, loose, scan)
    && ReadsDays(rules.overrides, if in_.dateOverrides.Some? then in_.dateOverrides.value else map[], loose, scan)
  }

  lemma GoodDaysAreInDay(read: map<int, seq<A.TimeRange>>, days: Days, isKey: string -> bool, maxKeys: nat, loose: string -> int,
                         scan: string -> Option<int>)
    requires ReadsDays(read, days, loose, scan) && GoodDays(days, isKey, maxKeys, loose)
    ensures forall d :: d in read ==> A.RangesInDay(read[d])
  {
    forall d, r | d in read && r in read[d] ensures A.TimeOfDay(r.start) && A.TimeOfDay(r.end) {
      var k :| k in days && read[d] == EngineRanges(days[k], loose, scan);
      assert GoodEntry(days, isKey, loose, k);
      var i :| 0 <= i < |read[d]| && read[d][i] == r;
      assert days[k][i] in days[k];
    }
  }

  /** A page that passes validation gives the engine rules with every bound it relies on. */
  lemma AcceptedPagesSuitTheEngine(rules: A.Rules, in_: PageInput, loads: string -> Option<A.Zone>, loose: string -> int,
                                   scan: string -> Option<int>)
    requires NumbersFit(in_) && ZoneFits(in_.timezone, loads) && DaysFit(in_, loose)
    requires Reads(rules, in_, loads, loose, scan)
    requires A.ValidZone(loads(in_.timezone).value)
    ensures A.StoredRules(rules)
  {
    GoodDaysAreInDay(rules.weekly, in_.availability.value, WeekdayKey, 0, loose, scan);
    if in_.dateOverrides.Some? {
      GoodDaysAreInDay(rules.overrides, in_.dateOverrides.value, DateKey, LIMIT_OVERRIDE_DAYS, loose, scan);
    } else {
      assert GoodDays(map[], DateKey, LIMIT_OVERRIDE_DAYS, loose);
      GoodDaysAreInDay(rules.overrides, map[], DateKey, LIMIT_OVERRIDE_DAYS, loose, scan);
    }
    assert A.KnownZone(rules);
  }
}
