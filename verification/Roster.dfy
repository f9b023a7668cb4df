/**
  The roster export of a sign-up sheet: internal/polls/roster.go, and a reader for the format of
  section 2 of RFC 4180 with which its output is compared.
 */
module Roster {
  import opened Common
  import Digits

  const BOM: char := '\U{FEFF}'
  const CRLF: string := "\r\n"

  // ----- printing fields and rows -----

  predicate StartsFormula(s: string) {
    s != "" && (s[0] == '=' || s[0] == '+' || s[0] == '-' || s[0] == '@' || s[0] == '\t' || s[0] == '\r')
  }

  predicate Special(c: char) {
    c == '"' || c == ',' || c == '\r' || c == '\n'
  }

  predicate NeedsQuotes(s: string) {
    exists i :: 0 <= i < |s| && Special(s[i])
  }

  /** The text as a spreadsheet will show it: a leading formula character is disarmed by an apostrophe. */
  function Guard(s: string): (g: string)
    ensures !StartsFormula(g)
  {
    if StartsFormula(s) then "'" + s else s
  }

  /** Every double quote twice. */
  function Doubled(s: string): string {
    if s == "" then "" else Twice(s[0]) + Doubled(s[1..])
  }

  function Field(raw: string): string {
    if NeedsQuotes(Guard(raw)) then "\"" + (Doubled(Guard(raw)) + "\"") else Guard(raw)
  }

  function Row(fields: seq<string>): string {
    if fields == [] then "" else if |fields| == 1 then Field(fields[0]) else Field(fields[0]) + ("," + Row(fields[1..]))
  }

  /** Every row ends its line, the last one included. */
  function Lines(rows: seq<seq<string>>): string {
    if rows == [] then "" else Row(rows[0]) + (CRLF + Lines(rows[1..]))
  }

  // ----- reading, by section 2 of RFC 4180 -----

  /** The longest run of ordinary characters, and what follows it. */
  function ReadPlain(s: string): (r: (string, string))
    ensures |r.1| <= |s|
  {
    if s == "" || Special(s[0]) then ("", s) else var (field, rest) := ReadPlain(s[1..]); ([s[0]] + field, rest)
  }

  /** The inside of a quoted field, from after its opening quote, and what follows its closing quote. */
  function ReadQuoted(s: string): (r: Option<(string, string)>)
    ensures r.Some? ==> |r.value.1| < |s|
  {
    if s == "" then None
    else if s[0] == '"' && !(|s| >= 2 && s[1] == '"') then Some(("", s[1..]))
    else
      match ReadQuoted(if s[0] == '"' then s[2..] else s[1..])
      case None => None
      case Some((field, rest)) => Some(([s[0]] + field, rest))
  }

  function ReadField(s: string): (r: Option<(string, string)>)
    ensures r.Some? ==> |r.value.1| <= |s|
  {
    if s != "" && s[0] == '"' then ReadQuoted(s[1..]) else Some(ReadPlain(s))
  }

  function ReadRecord(s: string): (r: Option<(seq<string>, string)>)
    ensures r.Some? ==> |r.value.1| <= |s|
    decreases |s|
  {
    match ReadField(s)
    case None => None
    case Some((field, rest)) =>
      if rest == "" || rest[0] != ',' then Some(([field], rest))
      else
        match ReadRecord(rest[1..])
        case None => None
        case Some((fields, end)) => Some(([field] + fields, end))
  }

  /** Records separated by line breaks, with or without a break after the last one. */
  function ReadFile(s: string): Option<seq<seq<string>>>
    decreases |s|
  {
    match ReadRecord(s)
    case None => None
    case Some((record, rest)) =>
      if rest == "" || rest == CRLF then Some([record])
      else if |rest| < 2 || rest[..2] != CRLF then None
      else
        match ReadFile(rest[2..])
        case None => None
        case Some(records) => Some([record] + records)
  }

  // ----- what is printed is read back -----

  /** A field ends at a comma, a line break or the end of the file. */
  predicate EndsField(rest: string) {
    rest == "" || rest[0] == ',' || rest[0] == '\r'
  }

  lemma {:induction false} PlainReadsBack(s: string, rest: string)
    requires !NeedsQuotes(s) && EndsField(rest)
    ensures ReadPlain(s + rest) == (s, rest)
  {
    if s == "" {
      assert s + rest == rest;
    } else {
      assert !Special(s[0]);
      assert forall i :: 0 <= i < |s[1..]| ==> s[1..][i] == s[i + 1];
      PlainReadsBack(s[1..], rest);
      assert (s + rest)[0] == s[0] && (s + rest)[1..] == s[1..] + rest;
      assert [s[0]] + s[1..] == s;
    }
  }

  function Twice(c: char): string {
    if c == '"' then "\"\"" else [c]
  }

  lemma QuotedContinues(c: char, tail: string, field: string, rest: string)
    requires ReadQuoted(tail) == Some((field, rest))
    ensures ReadQuoted(Twice(c) + tail) == Some(([c] + field, rest))
  {
    var text := Twice(c) + tail;
    assert text[0] == c && (if c == '"' then text[2..] else text[1..]) == tail;
  }

  lemma QuotedEnds(rest: string)
    requires EndsField(rest)
    ensures ReadQuoted("\"" + rest) == Some(("", rest))
  {
    FirstAndRest('"', rest);
  }

  lemma {:induction false} QuotedReadsBack(s: string, rest: string)
    requires EndsField(rest)
    ensures ReadQuoted(Doubled(s) + ("\"" + rest)) == Some((s, rest))
  {
    if s == "" {
      QuotedEnds(rest);
      assert Doubled(s) + ("\"" + rest) == "\"" + rest;
    } else {
      var end := "\"" + rest;
      QuotedReadsBack(s[1..], rest);
      QuotedContinues(s[0], Doubled(s[1..]) + end, s[1..], rest);
      ConcatIsAssociative(Twice(s[0]), Doubled(s[1..]), end);
      assert [s[0]] + s[1..] == s;
    }
  }

  lemma QuotedFieldReadsBack(g: string, rest: string)
    requires EndsField(rest)
    ensures ReadField("\"" + (Doubled(g) + "\"") + rest) == Some((g, rest))
  {
    var inside := Doubled(g) + ("\"" + rest);
    QuotedReadsBack(g, rest);
    ConcatIsAssociative("\"", Doubled(g) + "\"", rest);
    ConcatIsAssociative(Doubled(g), "\"", rest);
    FirstAndRest('"', inside);
  }

  lemma PlainFieldReadsBack(g: string, rest: string)
    requires EndsField(rest) && !NeedsQuotes(g)
    ensures ReadField(g + rest) == Some((g, rest))
  {
    PlainReadsBack(g, rest);
    if g == "" {
      assert g + rest == rest;
    } else {
      assert (g + rest)[0] == g[0] && !Special(g[0]);
    }
  }

  lemma FieldReadsBack(raw: string, rest: string)
    requires EndsField(rest)
    ensures ReadField(Field(raw) + rest) == Some((Guard(raw), rest))
  {
    if NeedsQuotes(Guard(raw)) {
      QuotedFieldReadsBack(Guard(raw), rest);
    } else {
      PlainFieldReadsBack(Guard(raw), rest);
    }
  }

  function Guarded(fields: seq<string>): (r: seq<string>)
    ensures |r| == |fields| && forall i :: 0 <= i < |r| ==> r[i] == Guard(fields[i])
  {
    seq(|fields|, i requires 0 <= i < |fields| => Guard(fields[i]))
  }

  function GuardedRows(rows: seq<seq<string>>): (r: seq<seq<string>>)
    ensures |r| == |rows| && forall i :: 0 <= i < |r| ==> r[i] == Guarded(rows[i])
  {
    seq(|rows|, i requires 0 <= i < |rows| => Guarded(rows[i]))
  }

  lemma RecordEnds(s: string, field: string, rest: string)
    requires ReadField(s) == Some((field, rest)) && (rest == "" || rest[0] != ',')
    ensures ReadRecord(s) == Some(([field], rest))
  {
  }

  lemma FileContinues(s: string, record: seq<string>, tail: string, records: seq<seq<string>>)
    requires ReadRecord(s) == Some((record, CRLF + tail)) && tail != "" && ReadFile(tail) == Some(records)
    ensures ReadFile(s) == Some([record] + records)
  {
    assert (CRLF + tail)[2..] == tail && (CRLF + tail)[..2] == CRLF;
  }

  lemma RecordContinues(s: string, field: string, tail: string, fields: seq<string>, end: string)
    requires ReadField(s) == Some((field, "," + tail)) && ReadRecord(tail) == Some((fields, end))
    ensures ReadRecord(s) == Some(([field] + fields, end))
  {
    assert ("," + tail)[1..] == tail;
  }

  lemma GuardedGrows(fields: seq<string>)
    requires fields != []
    ensures Guarded(fields) == [Guard(fields[0])] + Guarded(fields[1..])
  {
  }

  lemma GuardedRowsGrow(rows: seq<seq<string>>)
    requires rows != []
    ensures GuardedRows(rows) == [Guarded(rows[0])] + GuardedRows(rows[1..])
  {
  }

  lemma {:induction false} RowReadsBack(fields: seq<string>, rest: string)
    requires fields != [] && (rest == "" || rest[0] == '\r')
    ensures ReadRecord(Row(fields) + rest) == Some((Guarded(fields), rest))
  {
    if |fields| == 1 {
      FieldReadsBack(fields[0], rest);
      RecordEnds(Field(fields[0]) + rest, Guard(fields[0]), rest);
      assert Guarded(fields) == [Guard(fields[0])];
    } else {
      var tail := Row(fields[1..]) + rest;
      ConcatIsAssociative(Field(fields[0]), "," + Row(fields[1..]), rest);
      ConcatIsAssociative(",", Row(fields[1..]), rest);
      FieldReadsBack(fields[0], "," + tail);
      RowReadsBack(fields[1..], rest);
      GuardedGrows(fields);
      RecordContinues(Row(fields) + rest, Guard(fields[0]), tail, Guarded(fields[1..]), rest);
    }
  }

  lemma FileEnds(s: string, record: seq<string>)
    requires ReadRecord(s) == Some((record, CRLF))
    ensures ReadFile(s) == Some([record])
  {
  }

  /** Reading what is printed returns the rows as they were, up to the apostrophes. */
  lemma {:induction false} LinesReadBack(rows: seq<seq<string>>)
    requires rows != [] && forall i :: 0 <= i < |rows| ==> rows[i] != []
    ensures ReadFile(Lines(rows)) == Some(GuardedRows(rows)) && Lines(rows) != ""
  {
    var tail := Lines(rows[1..]);
    RowReadsBack(rows[0], CRLF + tail);
    if |rows| == 1 {
      assert CRLF + tail == CRLF;
      FileEnds(Lines(rows), Guarded(rows[0]));
      assert GuardedRows(rows) == [Guarded(rows[0])];
    } else {
      LinesReadBack(rows[1..]);
      GuardedRowsGrow(rows);
      FileContinues(Lines(rows), Guarded(rows[0]), tail, GuardedRows(rows[1..]));
    }
  }

  /** The guard loses a little: exactly the texts that differ by an apostrophe before a formula become one. */
  lemma GuardCollisions(a: string, b: string)
    ensures Guard(a) == Guard(b) <==> a == b || (StartsFormula(a) && b == "'" + a) || (StartsFormula(b) && a == "'" + b)
  {
    if StartsFormula(a) && StartsFormula(b) && Guard(a) == Guard(b) {
      assert Guard(a)[1..] == a && Guard(b)[1..] == b;
    }
  }

  // ----- the roster -----

  datatype Slot = Slot(id: string, caption: string, capacity: Option<int>)

  datatype Person = Person(name: string, email: Option<string>)

  datatype Vote = Vote(participant: string, option: string, answer: string)

  /** The participants with a yes for o, in the order of the votes. */
  function Claimants(votes: seq<Vote>, o: string): seq<string> {
    if votes == [] then []
    else
      var last := votes[|votes| - 1];
      Claimants(votes[..|votes| - 1], o) + if last.answer == "yes" && last.option == o then [last.participant] else []
  }

  function PersonOf(people: map<string, Person>, id: string): Person {
    if id in people then people[id] else Person("", None)
  }

  function TextOr(text: Option<string>, otherwise: string): string {
    if text.Some? then text.value else otherwise
  }

  function SlotRow(slot: Slot, claimed: nat, name: string, email: string): seq<string> {
    [slot.caption, if slot.capacity.Some? then Digits.Decimal(slot.capacity.value) else "", Digits.Decimal(claimed), name, email]
  }

  /** One row for each claim, or one row without a participant for a slot that nobody has taken. */
  function SlotRows(slot: Slot, claimants: seq<string>, people: map<string, Person>): (rows: seq<seq<string>>)
    ensures |rows| == if claimants == [] then 1 else |claimants|
    ensures forall i :: 0 <= i < |rows| ==> |rows[i]| == 5
  {
    if claimants == [] then [SlotRow(slot, 0, "", "")]
    else seq(|claimants|, i requires 0 <= i < |claimants| =>
               SlotRow(slot, |claimants|, PersonOf(people, claimants[i]).name, TextOr(PersonOf(people, claimants[i]).email, "")))
  }

  const HEADER: seq<string> := ["slot", "capacity", "claimed", "participant", "email"]

  /** The rows of the first slots. */
  function Table(slots: seq<Slot>, votes: seq<Vote>, people: map<string, Person>): (rows: seq<seq<string>>)
    ensures |rows| >= 1 && forall i :: 0 <= i < |rows| ==> |rows[i]| == 5
  {
    if slots == [] then [HEADER]
    else
      var last := slots[|slots| - 1];
      Table(slots[..|slots| - 1], votes, people) + SlotRows(last, Claimants(votes, last.id), people)
  }

  /** A spreadsheet that reads the roster gets the mark, then rows of five columns without a formula. */
  lemma RosterReadsBack(slots: seq<Slot>, votes: seq<Vote>, people: map<string, Person>)
    ensures var table := Table(slots, votes, people);
      && ReadFile(Lines(table)) == Some(GuardedRows(table))
      && forall i, j :: 0 <= i < |table| && 0 <= j < 5 ==> |GuardedRows(table)[i]| == 5 && !StartsFormula(GuardedRows(table)[i][j])
  {
    var table := Table(slots, votes, people);
    assert forall i :: 0 <= i < |table| ==> table[i] != [];
    LinesReadBack(table);
  }

  /** How many rows a roster of these slots has, the header apart. */
  function RowCount(slots: seq<Slot>, votes: seq<Vote>): nat {
    if slots == [] then 0
    else
      var claims := |Claimants(votes, slots[|slots| - 1].id)|;
      RowCount(slots[..|slots| - 1], votes) + if claims == 0 then 1 else claims
  }

  lemma {:induction false} EverySlotHasItsRows(slots: seq<Slot>, votes: seq<Vote>, people: map<string, Person>)
    ensures |Table(slots, votes, people)| == 1 + RowCount(slots, votes)
  {
    if slots != [] {
      EverySlotHasItsRows(slots[..|slots| - 1], votes, people);
    }
  }

  /** What stands under each heading: the slot's caption, its capacity if it has one, how many claims it has, and the name and
      e-mail address of the claimant. */
  lemma ColumnsMatchTheHeader(slot: Slot, claimed: nat, name: string, email: string, j: nat)
    requires j < |HEADER|
    ensures |HEADER| == 5
    ensures var row := SlotRow(slot, claimed, name, email);
      |row| == 5 && match HEADER[j]
        case "slot" => row[j] == slot.caption
        case "capacity" => (slot.capacity.None? ==> row[j] == "") && (slot.capacity.Some? ==> row[j] == Digits.Decimal(slot.capacity.value))
        case "claimed" => row[j] == Digits.Decimal(claimed)
        case "participant" => row[j] == name
        case "email" => row[j] == email
        case _ => false
  {
  }

  lemma {:induction false} YesIsAClaimant(votes: seq<Vote>, v: nat)
    requires v < |votes| && votes[v].answer == "yes"
    ensures votes[v].participant in Claimants(votes, votes[v].option)
  {
    if v < |votes| - 1 {
      YesIsAClaimant(votes[..|votes| - 1], v);
    }
  }

  /** Every yes vote for a listed slot has its row, with that slot, its number of claims and the claimant. */
  lemma {:induction false} EveryClaimIsListed(slots: seq<Slot>, i: nat, votes: seq<Vote>, v: nat, people: map<string, Person>)
    requires i < |slots| && v < |votes| && votes[v].answer == "yes" && votes[v].option == slots[i].id
    ensures var p := PersonOf(people, votes[v].participant);
      SlotRow(slots[i], |Claimants(votes, slots[i].id)|, p.name, TextOr(p.email, "")) in Table(slots, votes, people)
  {
    if i < |slots| - 1 {
      EveryClaimIsListed(slots[..|slots| - 1], i, votes, v, people);
    } else {
      YesIsAClaimant(votes, v);
      var claimants := Claimants(votes, slots[i].id);
      var k :| 0 <= k < |claimants| && claimants[k] == votes[v].participant;
      assert SlotRows(slots[i], claimants, people)[k] in SlotRows(slots[i], claimants, people);
    }
  }

  lemma {:induction false} ClaimantsSaidYes(votes: seq<Vote>, o: string, k: nat) returns (v: nat)
    requires k < |Claimants(votes, o)|
    ensures v < |votes| && votes[v] == Vote(Claimants(votes, o)[k], o, "yes")
  {
    var n := |votes| - 1;
    if k < |Claimants(votes[..n], o)| {
      v := ClaimantsSaidYes(votes[..n], o, k);
    } else {
      v := n;
    }
  }

  /** And no row is made up: each one under the header shows a listed slot with the number of its claims, and either the
      name and address of someone who said yes to it, or nobody where nobody did. */
  lemma {:induction false} EveryRowIsAClaim(slots: seq<Slot>, votes: seq<Vote>, people: map<string, Person>, r: nat) returns (i: nat, v: nat)
    requires 0 < r < |Table(slots, votes, people)|
    ensures Table(slots, votes, people)[0] == ["slot", "capacity", "claimed", "participant", "email"]
    ensures i < |slots|
    ensures var row, claims := Table(slots, votes, people)[r], |Claimants(votes, slots[i].id)|;
      if claims == 0 then row == SlotRow(slots[i], 0, "", "")
      else
        && v < |votes| && votes[v].answer == "yes" && votes[v].option == slots[i].id
        && (votes[v].participant !in people ==> row == SlotRow(slots[i], claims, "", ""))
        && (votes[v].participant in people ==>
              var p := people[votes[v].participant];
              row == SlotRow(slots[i], claims, p.name, if p.email.Some? then p.email.value else ""))
  {
    var n := |slots| - 1;
    var before := Table(slots[..n], votes, people);
    TableStartsWithHeader(slots, votes, people);
    if r < |before| {
      i, v := EveryRowIsAClaim(slots[..n], votes, people, r);
    } else {
      i, v := n, 0;
      if Claimants(votes, slots[n].id) != [] {
        v := ClaimantsSaidYes(votes, slots[n].id, r - |before|);
      }
    }
  }

  lemma {:induction false} TableStartsWithHeader(slots: seq<Slot>, votes: seq<Vote>, people: map<string, Person>)
    ensures Table(slots, votes, people)[0] == ["slot", "capacity", "claimed", "participant", "email"]
  {
    if slots != [] {
      TableStartsWithHeader(slots[..|slots| - 1], votes, people);
    }
  }

  // ----- the export itself -----

  datatype Error = NotFound | NotSignup

  function Joined(rows: seq<string>, separator: string): string {
    if rows == [] then "" else if |rows| == 1 then rows[0] else Joined(rows[..|rows| - 1], separator) + (separator + rows[|rows| - 1])
  }

  lemma {:induction false} RowJoins(fields: seq<string>, printed: seq<string>)
    requires |printed| == |fields| && forall i :: 0 <= i < |fields| ==> printed[i] == Field(fields[i])
    ensures Row(fields) == Joined(printed, ",")
    decreases |fields|
  {
    if |fields| >= 2 {
      var n := |fields| - 1;
      RowJoins(fields[..n], printed[..n]);
      RowGrowsTo(fields);
    }
  }

  lemma {:induction false} RowGrows(fields: seq<string>, last: string)
    requires fields != []
    ensures Row(fields + [last]) == Row(fields) + ("," + Field(last))
  {
    if |fields| == 1 {
      assert (fields + [last])[1..] == [last];
    } else {
      var end := "," + Field(last);
      assert (fields + [last])[1..] == fields[1..] + [last];
      RowGrows(fields[1..], last);
      ConcatIsAssociative(",", Row(fields[1..]), end);
      ConcatIsAssociative(Field(fields[0]), "," + Row(fields[1..]), end);
    }
  }

  lemma RowGrowsTo(fields: seq<string>)
    requires |fields| >= 2
    ensures Row(fields) == Row(fields[..|fields| - 1]) + ("," + Field(fields[|fields| - 1]))
  {
    RowGrows(fields[..|fields| - 1], fields[|fields| - 1]);
    assert fields[..|fields| - 1] + [fields[|fields| - 1]] == fields;
  }

  lemma {:induction false} LinesGrow(rows: seq<seq<string>>, last: seq<string>)
    ensures Lines(rows + [last]) == Lines(rows) + (Row(last) + CRLF)
  {
    if rows == [] {
      assert rows + [last] == [last] && Lines([last][1..]) == "";
    } else {
      var end := Row(last) + CRLF;
      assert (rows + [last])[1..] == rows[1..] + [last];
      LinesGrow(rows[1..], last);
      ConcatIsAssociative(CRLF, Lines(rows[1..]), end);
      ConcatIsAssociative(Row(rows[0]), CRLF + Lines(rows[1..]), end);
    }
  }

  lemma {:induction false} LinesJoin(rows: seq<seq<string>>, printed: seq<string>)
    requires rows != [] && |printed| == |rows| && forall i :: 0 <= i < |rows| ==> printed[i] == Row(rows[i])
    ensures Lines(rows) == Joined(printed, CRLF) + CRLF
  {
    var n := |rows| - 1;
    assert rows[..n] + [rows[n]] == rows;
    LinesGrow(rows[..n], rows[n]);
    if n > 0 {
      LinesJoin(rows[..n], printed[..n]);
      var before, line := Joined(printed[..n], CRLF), printed[n];
      ConcatIsAssociative(before, CRLF, line + CRLF);
      ConcatIsAssociative(CRLF, line, CRLF);
      ConcatIsAssociative(before, CRLF + line, CRLF);
    }
  }

  method RosterCSVRow(fields: seq<string>) returns (line: string)
    ensures line == Row(fields)
  {
    var printed: seq<string> := [];
    for i := 0 to |fields|
      invariant |printed| == i && forall j :: 0 <= j < i ==> printed[j] == Field(fields[j])
    {
      printed := printed + [Field(fields[i])];
    }
    RowJoins(fields, printed);
    line := Joined(printed, ",");
  }

  /** The claims of every slot, gathered in one pass over the votes. */
  method GroupYes(votes: seq<Vote>) returns (yesByOption: map<string, seq<string>>)
    ensures forall o :: Claimants(votes, o) == if o in yesByOption then yesByOption[o] else []
    ensures forall o :: o in yesByOption ==> yesByOption[o] != []
  {
    yesByOption := map[];
    for i := 0 to |votes|
      invariant forall o :: Claimants(votes[..i], o) == if o in yesByOption then yesByOption[o] else []
      invariant forall o :: o in yesByOption ==> yesByOption[o] != []
    {
      var v := votes[i];
      assert votes[..i + 1][..i] == votes[..i];
      if v.answer == "yes" {
        yesByOption := yesByOption[v.option := (if v.option in yesByOption then yesByOption[v.option] else []) + [v.participant]];
      }
    }
    assert votes[..|votes|] == votes;
  }

  /** The rows of one slot appended to those already printed. */
  method AppendSlot(printed: seq<string>, ghost before: seq<seq<string>>, slot: Slot, claimants: seq<string>, people: map<string, Person>)
    returns (rows: seq<string>)
    requires Prints(printed, before)
    ensures Prints(rows, before + SlotRows(slot, claimants, people))
  {
    ghost var all := SlotRows(slot, claimants, people);
    rows := printed;
    if claimants == [] {
      var line := RosterCSVRow(SlotRow(slot, 0, "", ""));
      rows := rows + [line];
      return;
    }
    for i := 0 to |claimants|
      invariant Prints(rows, before + all[..i])
    {
      var p := PersonOf(people, claimants[i]);
      var line := RosterCSVRow(SlotRow(slot, |claimants|, p.name, TextOr(p.email, "")));
      assert all[..i + 1] == all[..i] + [all[i]];
      rows := rows + [line];
    }
    assert all[..|claimants|] == all;
  }

  lemma TableGrows(slots: seq<Slot>, i: nat, votes: seq<Vote>, people: map<string, Person>)
    requires i < |slots|
    ensures Table(slots[..i + 1], votes, people)
         == Table(slots[..i], votes, people) + SlotRows(slots[i], Claimants(votes, slots[i].id), people)
  {
    assert slots[..i + 1][..i] == slots[..i];
  }

  ghost predicate Prints(printed: seq<string>, rows: seq<seq<string>>) {
    |printed| == |rows| && forall i :: 0 <= i < |rows| ==> printed[i] == Row(rows[i])
  }

  method PrintTable(slots: seq<Slot>, votes: seq<Vote>, people: map<string, Person>) returns (rows: seq<string>)
    ensures Prints(rows, Table(slots, votes, people))
  {
    var yesByOption := GroupYes(votes);
    var header := RosterCSVRow(HEADER);
    rows := [header];
    for i := 0 to |slots|
      invariant Prints(rows, Table(slots[..i], votes, people))
    {
      TableGrows(slots, i, votes, people);
      var claimants := if slots[i].id in yesByOption then yesByOption[slots[i].id] else [];
      rows := AppendSlot(rows, Table(slots[..i], votes, people), slots[i], claimants, people);
    }
    assert slots[..|slots|] == slots;
  }

  /** signup is None for a poll that is missing or deleted, and tells whether it is a sign-up sheet otherwise. */
  method BuildRosterCSV(signup: Option<bool>, slots: seq<Slot>, votes: seq<Vote>, people: map<string, Person>)
    returns (r: Result<string, Error>)
    ensures r == if signup.None? then Err(NotFound) else if !signup.value then Err(NotSignup)
                 else Ok([BOM] + Lines(Table(slots, votes, people)))
  {
    if signup.None? { return Err(NotFound); }
    if !signup.value { return Err(NotSignup); }
    var rows := PrintTable(slots, votes, people);
    LinesJoin(Table(slots, votes, people), rows);
    r := Ok([BOM] + (Joined(rows, CRLF) + CRLF));
  }
}
