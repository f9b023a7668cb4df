/**
  Reading the events of a printed calendar: the texts and times that internal/polls/ics.go puts into each event,
  recovered from the stream that internal/ics/ics.go prints.
 */
module IcsReader {
  import opened Common
  import opened Ics

  /** What a reader makes of one event: its texts, unescaped, an absent one as the empty text, and its times, each under
      the property that gave it. */
  datatype Reading = Reading(uid: Text, title: Text, description: Text, location: Text, url: Text, times: Times)

  datatype Times = Times(stamp: Option<Text>, start: Option<Text>, startDate: Option<Text>, end: Option<Text>, endDate: Option<Text>)

  function TimesOf(f: Formats, start: Start, now: int): Times {
    match start
    case AllDay(d) => Times(Some(f.utcBasic(now)), None, Some(f.dateBasic(d)), None, Some(f.dateBasic(d + DAY)))
    case Timed(at, end) =>
      Times(Some(f.utcBasic(now)), Some(f.utcBasic(at)), None, Some(f.utcBasic(if end.Some? then end.value else at + HOUR)), None)
  }

  function ReadingOf(f: Formats, e: Event, now: int): Reading {
    Reading(e.uid, e.title, e.description, e.location, e.url, TimesOf(f, e.start, now))
  }

  function AllReadings(f: Formats, events: seq<Event>, now: int): (r: seq<Reading>)
    ensures |r| == |events| && forall i :: 0 <= i < |r| ==> r[i] == ReadingOf(f, events[i], now)
  {
    if events == [] then [] else AllReadings(f, events[..|events| - 1], now) + [ReadingOf(f, events[|events| - 1], now)]
  }

  // ----- the reader -----

  predicate HasName(line: Text, name: Name) {
    |Label(name)| <= |line| && line[..|Label(name)|] == Label(name)
  }

  /** The value of the first property of that name, as it stands. */
  function RawOf(lines: seq<Text>, name: Name): Option<Text> {
    if lines == [] then None
    else if HasName(lines[0], name) then Some(lines[0][|Label(name)|..])
    else RawOf(lines[1..], name)
  }

  /** The same, unescaped. */
  function ValueOf(lines: seq<Text>, name: Name): Text {
    if RawOf(lines, name).Some? then UnescapeText(RawOf(lines, name).value) else []
  }

  function ReadTimes(body: seq<Text>): Times {
    Times(RawOf(body, DtStamp), RawOf(body, DtStart), RawOf(body, DtStartDate), RawOf(body, DtEnd), RawOf(body, DtEndDate))
  }

  function ReadEvent(body: seq<Text>): Reading {
    Reading(ValueOf(body, Uid), ValueOf(body, Summary), ValueOf(body, Description), ValueOf(body, Location), ValueOf(body, Url),
            ReadTimes(body))
  }

  /** body holds the lines of the event that is being read, if one is. */
  function ReadFrom(body: Option<seq<Text>>, lines: seq<Text>): seq<Reading>
    decreases |lines|
  {
    if lines == [] then []
    else if lines[0] == Label(BeginEvent) then ReadFrom(Some([]), lines[1..])
    else if body.None? then ReadFrom(None, lines[1..])
    else if lines[0] == Label(EndEvent) then [ReadEvent(body.value)] + ReadFrom(None, lines[1..])
    else ReadFrom(Some(body.value + [lines[0]]), lines[1..])
  }

  function ReadCalendar(stream: Text): seq<Reading> {
    ReadFrom(None, ContentLines(stream))
  }

  // ----- names are told apart by a few of their letters -----

  /** The first, second, third, sixth and eighth octet; the last two only where they are needed, and 0 elsewhere. */
  datatype Mark = Mark(first: int, second: int, third: int, sixth: int, eighth: int)

  function MarkOf(name: Name): Mark {
    match name
    case BeginEvent => Mark(66, 69, 71, 0, 0)
    case EndEvent => Mark(69, 78, 68, 0, 0)
    case Uid => Mark(85, 73, 68, 0, 0)
    case DtStamp => Mark(68, 84, 83, 77, 58)
    case DtStart => Mark(68, 84, 83, 82, 58)
    case DtStartDate => Mark(68, 84, 83, 82, 59)
    case DtEnd => Mark(68, 84, 69, 58, 0)
    case DtEndDate => Mark(68, 84, 69, 59, 0)
    case Summary => Mark(83, 85, 77, 0, 0)
    case Description => Mark(68, 69, 83, 0, 0)
    case Location => Mark(76, 79, 67, 0, 0)
    case Url => Mark(85, 82, 76, 0, 0)
  }

  /** The text shows the mark wherever the mark says something. */
  predicate Shows(text: Text, m: Mark) {
    && |text| >= 3 && text[0] == m.first && text[1] == m.second && text[2] == m.third
    && (m.sixth != 0 ==> |text| >= 6 && text[5] == m.sixth)
    && (m.eighth != 0 ==> |text| >= 8 && text[7] == m.eighth)
  }

  lemma LabelsShowTheirMark(name: Name)
    ensures Shows(Label(name), MarkOf(name))
  {
  }

  lemma MarkedAhead(text: Text, more: Text, m: Mark)
    requires Shows(text, m)
    ensures Shows(text + more, m)
  {
  }

  lemma NameShowsItsMark(line: Text, name: Name)
    ensures HasName(line, name) ==> Shows(line, MarkOf(name))
  {
    LabelsShowTheirMark(name);
    if HasName(line, name) {
      MarkedAhead(Label(name), line[|Label(name)|..], MarkOf(name));
      assert line == Label(name) + line[|Label(name)|..];
    }
  }

  /** No text shows the marks of two names. */
  lemma MarksTellNamesApart(text: Text, n: Name, m: Name)
    requires Shows(text, MarkOf(n)) && Shows(text, MarkOf(m))
    ensures n == m
  {
  }

  lemma SkipLine(n: Name, v: Text, rest: seq<Text>, name: Name)
    requires n != name
    ensures RawOf([Label(n) + v] + rest, name) == RawOf(rest, name)
  {
    var line := Label(n) + v;
    LabelsShowTheirMark(n);
    MarkedAhead(Label(n), v, MarkOf(n));
    NameShowsItsMark(line, name);
    if HasName(line, name) {
      MarksTellNamesApart(line, n, name);
    }
    FirstAndRest(line, rest);
  }

  lemma TakeLine(name: Name, v: Text, rest: seq<Text>)
    ensures RawOf([Label(name) + v] + rest, name) == Some(v)
  {
    var line := Label(name) + v;
    assert line[..|Label(name)|] == Label(name) && line[|Label(name)|..] == v;
    FirstAndRest(line, rest);
  }

  lemma SkipProperty(n: Name, v: Text, rest: seq<Text>, name: Name)
    requires n != name
    ensures RawOf(Property(n, v) + rest, name) == RawOf(rest, name)
  {
    if v == [] {
      assert Property(n, v) + rest == rest;
    } else {
      SkipLine(n, EscapeText(v), rest, name);
    }
  }

  lemma TakeProperty(name: Name, value: Text, rest: seq<Text>)
    requires RawOf(rest, name) == None
    ensures ValueOf(Property(name, value) + rest, name) == value
  {
    if value == [] {
      assert Property(name, value) + rest == rest;
    } else {
      TakeLine(name, EscapeText(value), rest);
      UnescapeUndoesEscape(value);
    }
  }

  // ----- one event -----

  function LinkLine(e: Event): seq<Text> {
    [Label(Url) + EscapeText(e.url)]
  }

  function OptionalLines(e: Event): seq<Text> {
    Property(Description, e.description) + (Property(Location, e.location) + LinkLine(e))
  }

  function StartName(start: Start): Name {
    if start.AllDay? then DtStartDate else DtStart
  }

  function EndName(start: Start): Name {
    if start.AllDay? then DtEndDate else DtEnd
  }

  function StartText(f: Formats, start: Start): Text {
    if start.AllDay? then f.dateBasic(start.date) else f.utcBasic(start.at)
  }

  function EndText(f: Formats, start: Start): Text {
    match start
    case AllDay(d) => f.dateBasic(d + DAY)
    case Timed(at, end) => f.utcBasic(if end.Some? then end.value else at + HOUR)
  }

  lemma TimesHaveTheirNames(f: Formats, start: Start)
    ensures StartLine(f, start) == Label(StartName(start)) + StartText(f, start)
    ensures EndLine(f, start) == Label(EndName(start)) + EndText(f, start)
  {
  }

  /** The lines between an event's opening and its end. */
  function Body(f: Formats, e: Event, now: int): seq<Text> {
    [Label(Uid) + EscapeText(e.uid)] + ([Label(DtStamp) + f.utcBasic(now)] + ([StartLine(f, e.start)]
      + ([EndLine(f, e.start)] + ([Label(Summary) + EscapeText(e.title)] + OptionalLines(e)))))
  }

  lemma BodyIsInside(f: Formats, e: Event, now: int)
    ensures VeventLines(f, e, now) == [Label(BeginEvent)] + (Body(f, e, now) + [Label(EndEvent)])
  {
  }

  /** The lines after the stamp, after the start and after the end. */
  function Ended(e: Event): seq<Text> {
    [Label(Summary) + EscapeText(e.title)] + OptionalLines(e)
  }

  function Started(f: Formats, e: Event): seq<Text> {
    [EndLine(f, e.start)] + Ended(e)
  }

  function Stamped(f: Formats, e: Event): seq<Text> {
    [StartLine(f, e.start)] + Started(f, e)
  }

  lemma BodyInParts(f: Formats, e: Event, now: int)
    ensures Body(f, e, now) == [Label(Uid) + EscapeText(e.uid)] + ([Label(DtStamp) + f.utcBasic(now)] + Stamped(f, e))
  {
  }

  lemma SkipToStamped(f: Formats, e: Event, now: int, name: Name)
    requires name != Uid && name != DtStamp
    ensures RawOf(Body(f, e, now), name) == RawOf(Stamped(f, e), name)
  {
    BodyInParts(f, e, now);
    SkipLine(DtStamp, f.utcBasic(now), Stamped(f, e), name);
    SkipLine(Uid, EscapeText(e.uid), [Label(DtStamp) + f.utcBasic(now)] + Stamped(f, e), name);
  }

  lemma SkipToStarted(f: Formats, e: Event, name: Name)
    requires name != StartName(e.start)
    ensures RawOf(Stamped(f, e), name) == RawOf(Started(f, e), name)
  {
    TimesHaveTheirNames(f, e.start);
    SkipLine(StartName(e.start), StartText(f, e.start), Started(f, e), name);
  }

  lemma SkipToEnded(f: Formats, e: Event, name: Name)
    requires name != EndName(e.start)
    ensures RawOf(Started(f, e), name) == RawOf(Ended(e), name)
  {
    TimesHaveTheirNames(f, e.start);
    SkipLine(EndName(e.start), EndText(f, e.start), Ended(e), name);
  }

  predicate IsTime(name: Name) {
    name == DtStamp || name == DtStart || name == DtStartDate || name == DtEnd || name == DtEndDate
  }

  /** Past the times, only the title and the optional lines are left. */
  lemma SkipTimes(f: Formats, e: Event, now: int, name: Name)
    requires !IsTime(name) && name != Uid
    ensures RawOf(Body(f, e, now), name) == RawOf(Ended(e), name)
  {
    SkipToStamped(f, e, now, name);
    SkipToStarted(f, e, name);
    SkipToEnded(f, e, name);
  }

  lemma OptionalLinesReadBack(e: Event)
    ensures ValueOf(OptionalLines(e), Description) == e.description
    ensures ValueOf(OptionalLines(e), Location) == e.location
    ensures ValueOf(OptionalLines(e), Url) == e.url
  {
    var link := LinkLine(e);
    assert link + [] == link;
    SkipLine(Url, EscapeText(e.url), [], Description);
    SkipLine(Url, EscapeText(e.url), [], Location);
    TakeLine(Url, EscapeText(e.url), []);
    UnescapeUndoesEscape(e.url);
    SkipProperty(Location, e.location, link, Description);
    TakeProperty(Location, e.location, link);
    SkipProperty(Location, e.location, link, Url);
    var placed := Property(Location, e.location) + link;
    TakeProperty(Description, e.description, placed);
    SkipProperty(Description, e.description, placed, Location);
    SkipProperty(Description, e.description, placed, Url);
  }

  lemma OptionalValue(f: Formats, e: Event, now: int, name: Name)
    requires name == Description || name == Location || name == Url
    ensures ValueOf(Body(f, e, now), name) == ValueOf(OptionalLines(e), name)
  {
    SkipTimes(f, e, now, name);
    SkipLine(Summary, EscapeText(e.title), OptionalLines(e), name);
  }

  lemma HeadReadsBack(f: Formats, e: Event, now: int)
    ensures ValueOf(Body(f, e, now), Uid) == e.uid && ValueOf(Body(f, e, now), Summary) == e.title
  {
    BodyInParts(f, e, now);
    TakeLine(Uid, EscapeText(e.uid), [Label(DtStamp) + f.utcBasic(now)] + Stamped(f, e));
    UnescapeUndoesEscape(e.uid);
    SkipTimes(f, e, now, Summary);
    TakeLine(Summary, EscapeText(e.title), OptionalLines(e));
    UnescapeUndoesEscape(e.title);
  }

  /** Every text of an event reads back octet for octet, and a missing one as missing. */
  lemma TextsReadBack(f: Formats, e: Event, now: int)
    ensures var body := Body(f, e, now);
      && ValueOf(body, Uid) == e.uid && ValueOf(body, Summary) == e.title && ValueOf(body, Description) == e.description
      && ValueOf(body, Location) == e.location && ValueOf(body, Url) == e.url
  {
    HeadReadsBack(f, e, now);
    OptionalLinesReadBack(e);
    OptionalValue(f, e, now, Description);
    OptionalValue(f, e, now, Location);
    OptionalValue(f, e, now, Url);
  }

  lemma NoTimeAfterTheEnd(e: Event, name: Name)
    requires IsTime(name)
    ensures RawOf(Ended(e), name) == None
  {
    var link := LinkLine(e);
    assert link + [] == link;
    SkipLine(Url, EscapeText(e.url), [], name);
    SkipProperty(Location, e.location, link, name);
    SkipProperty(Description, e.description, Property(Location, e.location) + link, name);
    SkipLine(Summary, EscapeText(e.title), OptionalLines(e), name);
  }

  lemma StampReadsBack(f: Formats, e: Event, now: int)
    ensures RawOf(Body(f, e, now), DtStamp) == Some(f.utcBasic(now))
  {
    BodyInParts(f, e, now);
    SkipLine(Uid, EscapeText(e.uid), [Label(DtStamp) + f.utcBasic(now)] + Stamped(f, e), DtStamp);
    TakeLine(DtStamp, f.utcBasic(now), Stamped(f, e));
  }

  lemma StartAndEndReadBack(f: Formats, e: Event, now: int, name: Name)
    requires IsTime(name) && name != DtStamp
    ensures RawOf(Body(f, e, now), name) ==
      if name == StartName(e.start) then Some(StartText(f, e.start))
      else if name == EndName(e.start) then Some(EndText(f, e.start)) else None
  {
    TimesHaveTheirNames(f, e.start);
    SkipToStamped(f, e, now, name);
    if name == StartName(e.start) {
      TakeLine(name, StartText(f, e.start), Started(f, e));
    } else {
      SkipToStarted(f, e, name);
      if name == EndName(e.start) {
        TakeLine(name, EndText(f, e.start), Ended(e));
      } else {
        SkipToEnded(f, e, name);
        NoTimeAfterTheEnd(e, name);
      }
    }
  }

  /** The times of an event read back under their own properties: a timed event's start and its end, or an hour later;
      an all-day event's date and the next one; and when the calendar was made. */
  lemma TimesReadBack(f: Formats, e: Event, now: int)
    ensures var t := ReadTimes(Body(f, e, now));
      && t.stamp == Some(f.utcBasic(now))
      && match e.start
         case AllDay(d) => t.startDate == Some(f.dateBasic(d)) && t.endDate == Some(f.dateBasic(d + DAY)) && t.start == t.end == None
         case Timed(at, end) =>
           && t.start == Some(f.utcBasic(at)) && t.startDate == t.endDate == None
           && t.end == Some(f.utcBasic(if end.Some? then end.value else at + HOUR))
  {
    StampReadsBack(f, e, now);
    StartAndEndReadBack(f, e, now, DtStart);
    StartAndEndReadBack(f, e, now, DtStartDate);
    StartAndEndReadBack(f, e, now, DtEnd);
    StartAndEndReadBack(f, e, now, DtEndDate);
  }

  // ----- a whole calendar -----

  /** Lines that neither open nor end an event. */
  predicate Inner(lines: seq<Text>) {
    forall i :: 0 <= i < |lines| ==> |lines[i]| >= 1 && lines[i][0] != 66 && lines[i][0] != 69
  }

  lemma NamedLineIsInner(name: Name, value: Text)
    requires name != BeginEvent && name != EndEvent
    ensures Inner([Label(name) + value])
  {
    LabelsShowTheirMark(name);
    assert (Label(name) + value)[0] == Label(name)[0];
  }

  lemma InnerConcat(a: seq<Text>, b: seq<Text>)
    requires Inner(a) && Inner(b)
    ensures Inner(a + b)
  {
  }

  lemma OptionalLinesAreInner(e: Event)
    ensures Inner(OptionalLines(e))
  {
    NamedLineIsInner(Description, EscapeText(e.description));
    NamedLineIsInner(Location, EscapeText(e.location));
    NamedLineIsInner(Url, EscapeText(e.url));
    InnerConcat(Property(Location, e.location), LinkLine(e));
    InnerConcat(Property(Description, e.description), Property(Location, e.location) + LinkLine(e));
  }

  lemma OneMoreInner(name: Name, value: Text, rest: seq<Text>)
    requires name != BeginEvent && name != EndEvent && Inner(rest)
    ensures Inner([Label(name) + value] + rest)
  {
    NamedLineIsInner(name, value);
    InnerConcat([Label(name) + value], rest);
  }

  lemma BodyIsInner(f: Formats, e: Event, now: int)
    ensures Inner(Body(f, e, now))
  {
    TimesHaveTheirNames(f, e.start);
    var titled := [Label(Summary) + EscapeText(e.title)] + OptionalLines(e);
    var ended := [EndLine(f, e.start)] + titled;
    var started := [StartLine(f, e.start)] + ended;
    OptionalLinesAreInner(e);
    OneMoreInner(Summary, EscapeText(e.title), OptionalLines(e));
    OneMoreInner(EndName(e.start), EndText(f, e.start), titled);
    OneMoreInner(StartName(e.start), StartText(f, e.start), ended);
    OneMoreInner(DtStamp, f.utcBasic(now), started);
    OneMoreInner(Uid, EscapeText(e.uid), [Label(DtStamp) + f.utcBasic(now)] + started);
  }

  lemma {:induction false} InnerIsCollected(body: seq<Text>, lines: seq<Text>, rest: seq<Text>)
    requires Inner(lines)
    ensures ReadFrom(Some(body), lines + rest) == ReadFrom(Some(body + lines), rest)
    decreases |lines|
  {
    if lines == [] {
      assert lines + rest == rest && body + lines == body;
    } else {
      LabelsShowTheirMark(BeginEvent);
      LabelsShowTheirMark(EndEvent);
      assert (lines + rest)[0] == lines[0] && (lines + rest)[1..] == lines[1..] + rest;
      InnerIsCollected(body + [lines[0]], lines[1..], rest);
      assert body + [lines[0]] + lines[1..] == body + lines;
    }
  }

  lemma ReadsAs(body: seq<Text>, f: Formats, e: Event, now: int)
    requires ValueOf(body, Uid) == e.uid && ValueOf(body, Summary) == e.title && ValueOf(body, Description) == e.description
    requires ValueOf(body, Location) == e.location && ValueOf(body, Url) == e.url && ReadTimes(body) == TimesOf(f, e.start, now)
    ensures ReadEvent(body) == ReadingOf(f, e, now)
  {
  }

  lemma TimesReadAs(f: Formats, e: Event, now: int)
    ensures ReadTimes(Body(f, e, now)) == TimesOf(f, e.start, now)
  {
    TimesReadBack(f, e, now);
  }

  lemma BodyReadsBack(f: Formats, e: Event, now: int)
    ensures ReadEvent(Body(f, e, now)) == ReadingOf(f, e, now)
  {
    TextsReadBack(f, e, now);
    TimesReadAs(f, e, now);
    ReadsAs(Body(f, e, now), f, e, now);
  }

  lemma BeginIsNotEnd()
    ensures Label(BeginEvent) != Label(EndEvent)
  {
    LabelsShowTheirMark(BeginEvent);
    LabelsShowTheirMark(EndEvent);
  }

  lemma EventReadsBack(f: Formats, e: Event, now: int, rest: seq<Text>)
    ensures ReadFrom(None, VeventLines(f, e, now) + rest) == [ReadingOf(f, e, now)] + ReadFrom(None, rest)
  {
    var body, end := Body(f, e, now), [Label(EndEvent)];
    BodyIsInside(f, e, now);
    ConcatIsAssociative([Label(BeginEvent)], body + end, rest);
    ConcatIsAssociative(body, end, rest);
    FirstAndRest(Label(BeginEvent), body + (end + rest));
    BodyIsInner(f, e, now);
    InnerIsCollected([], body, end + rest);
    assert [] + body == body;
    BodyReadsBack(f, e, now);
    BeginIsNotEnd();
    FirstAndRest(Label(EndEvent), rest);
  }

  lemma {:induction false} EventsReadBack(f: Formats, events: seq<Event>, now: int, rest: seq<Text>)
    ensures ReadFrom(None, EventLines(f, events, now) + rest) == AllReadings(f, events, now) + ReadFrom(None, rest)
  {
    if events == [] {
      assert EventLines(f, events, now) + rest == rest;
    } else {
      var init, last := events[..|events| - 1], events[|events| - 1];
      var lines := VeventLines(f, last, now);
      ConcatIsAssociative(EventLines(f, init, now), lines, rest);
      EventsReadBack(f, init, now, lines + rest);
      EventReadsBack(f, last, now, rest);
      ConcatIsAssociative(AllReadings(f, init, now), [ReadingOf(f, last, now)], ReadFrom(None, rest));
    }
  }

  lemma {:induction false} NothingOpens(lines: seq<Text>, rest: seq<Text>)
    requires forall i :: 0 <= i < |lines| ==> lines[i] != Label(BeginEvent)
    ensures ReadFrom(None, lines + rest) == ReadFrom(None, rest)
  {
    if lines == [] {
      assert lines + rest == rest;
    } else {
      assert (lines + rest)[0] == lines[0] && (lines + rest)[1..] == lines[1..] + rest;
      NothingOpens(lines[1..], rest);
    }
  }

  lemma FrameDoesNotOpen(line: FrameLine)
    ensures Frame(line) != Label(BeginEvent)
  {
    assert |Label(BeginEvent)| == 12;
  }

  lemma HeaderDoesNotOpen(rest: seq<Text>)
    ensures ReadFrom(None, HEADER + rest) == ReadFrom(None, rest)
  {
    FrameDoesNotOpen(BeginCalendar);
    FrameDoesNotOpen(Version);
    FrameDoesNotOpen(ProdId);
    FrameDoesNotOpen(CalScale);
    FrameDoesNotOpen(PublishMethod);
    NothingOpens(HEADER, rest);
  }

  lemma FooterDoesNotOpen()
    ensures ReadFrom(None, FOOTER) == []
  {
    FrameDoesNotOpen(EndCalendar);
    NothingOpens(FOOTER, []);
    assert FOOTER + [] == FOOTER;
  }

  lemma EventsAreRead(f: Formats, events: seq<Event>, now: int)
    requires ValidFormats(f) && forall e :: e in events ==> ValidEvent(e)
    ensures ReadCalendar(Printed(EventLines(f, events, now))) == AllReadings(f, events, now)
  {
    var lines := EventLines(f, events, now);
    CalendarOfEventsReadsBack(f, events, now);
    ConcatIsAssociative(HEADER, lines, FOOTER);
    HeaderDoesNotOpen(lines + FOOTER);
    EventsReadBack(f, events, now, FOOTER);
    FooterDoesNotOpen();
  }
  /** From the printed octets to the events: a reader of the calendar gets, event by event and in order, the identifier,
      title, description, location and link that went in, and the times under the properties that are theirs. */
  lemma CalendarTextsReadBack(f: Formats, events: seq<Event>, now: int)
    requires ValidFormats(f) && forall e :: e in events ==> ValidEvent(e)
    ensures var read := ReadCalendar(Printed(EventLines(f, events, now)));
      && |read| == |events|
      && forall i :: 0 <= i < |events| ==>
           && read[i].uid == events[i].uid && read[i].title == events[i].title && read[i].description == events[i].description
           && read[i].location == events[i].location && read[i].url == events[i].url
           && read[i].times.stamp == Some(f.utcBasic(now))
           && match events[i].start
              case AllDay(d) =>
                && read[i].times.startDate == Some(f.dateBasic(d)) && read[i].times.endDate == Some(f.dateBasic(d + DAY))
                && read[i].times.start == read[i].times.end == None
              case Timed(at, end) =>
                && read[i].times.start == Some(f.utcBasic(at)) && read[i].times.startDate == read[i].times.endDate == None
                && read[i].times.end == Some(f.utcBasic(if end.Some? then end.value else at + HOUR))
  {
    EventsAreRead(f, events, now);
  }
}
