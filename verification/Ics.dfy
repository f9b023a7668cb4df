/**
  The iCalendar core (internal/ics/ics.go) and the event lines its callers feed it
  (internal/polls/ics.go, internal/bookings/ics.go), with the reader of sections 3.1 and 3.3.11 of
  RFC 5545 as the partner every claim is stated against.  Texts are byte sequences, as in Go.
 */
module Ics {
  import opened Common
  import opened Utf8

  type Text = seq<Byte>

  const LINE_LIMIT: nat := 75

  const LF: Byte := 10
  const CR: Byte := 13
  const SPACE: Byte := 32
  const TAB: Byte := 9
  const COMMA: Byte := 44
  const SEMICOLON: Byte := 59
  const BACKSLASH: Byte := 92
  const LOWER_N: Byte := 110
  const UPPER_N: Byte := 78

  const CRLF: Text := [CR, LF]

  /** The bytes of an ASCII literal. */
  function Ascii(s: string): (bytes: Text)
    requires forall i :: 0 <= i < |s| ==> s[i] < 128 as char
    ensures |bytes| == |s|
    ensures forall i :: 0 <= i < |s| ==> bytes[i] == s[i] as int
  {
    seq(|s|, i requires 0 <= i < |s| => s[i] as int)
  }

  // ----- TEXT escaping -----

  predicate Special(b: Byte) {
    b == BACKSLASH || b == SEMICOLON || b == COMMA || b == LF
  }

  function EscapeByte(b: Byte): Text {
    if b == LF then [BACKSLASH, LOWER_N]
    else if Special(b) then [BACKSLASH, b]
    else [b]
  }

  /** One left-to-right pass over the original text. */
  function EscapeText(s: Text): Text {
    if s == [] then [] else EscapeByte(s[0]) + EscapeText(s[1..])
  }

  /** Reads an escaped TEXT value: section 3.3.11 also allows \N for a line break. */
  function UnescapeText(s: Text): Text {
    if s == [] then []
    else if s[0] == BACKSLASH && |s| >= 2 then
      [if s[1] == LOWER_N || s[1] == UPPER_N then LF else s[1]] + UnescapeText(s[2..])
    else [s[0]] + UnescapeText(s[1..])
  }

  lemma {:induction false} UnescapeUndoesEscape(s: Text)
    ensures UnescapeText(EscapeText(s)) == s
  {
    if s != [] {
      UnescapeUndoesEscape(s[1..]);
      var e, rest := EscapeByte(s[0]), EscapeText(s[1..]);
      assert (e + rest)[|e|..] == rest;
      assert s == [s[0]] + s[1..];
    }
  }

  /** Replaces every occurrence of the single byte target, in one pass of its own. */
  function ReplaceAll(s: Text, target: Byte, replacement: Text): Text {
    if s == [] then [] else (if s[0] == target then replacement else [s[0]]) + ReplaceAll(s[1..], target, replacement)
  }

  /** The chain of four replacements that the single pass stands in for, backslash first. */
  function EscapeInFourPasses(s: Text): Text {
    ReplaceAll(
      ReplaceAll(
        ReplaceAll(
          ReplaceAll(s, BACKSLASH, [BACKSLASH, BACKSLASH]),
          SEMICOLON, [BACKSLASH, SEMICOLON]),
        COMMA, [BACKSLASH, COMMA]),
      LF, [BACKSLASH, LOWER_N])
  }

  lemma {:induction false} ReplaceAllConcat(a: Text, b: Text, target: Byte, replacement: Text)
    ensures ReplaceAll(a + b, target, replacement) == ReplaceAll(a, target, replacement) + ReplaceAll(b, target, replacement)
  {
    if a == [] {
      assert a + b == b;
    } else {
      assert (a + b)[1..] == a[1..] + b;
      ReplaceAllConcat(a[1..], b, target, replacement);
    }
  }

  lemma ReplaceInOneByte(b: Byte, target: Byte, replacement: Text)
    ensures ReplaceAll([b], target, replacement) == if b == target then replacement else [b]
  {
    assert [b][1..] == [];
  }

  lemma ReplaceInTwoBytes(a: Byte, b: Byte, target: Byte, replacement: Text)
    requires a != target && b != target
    ensures ReplaceAll([a, b], target, replacement) == [a, b]
  {
    assert [a, b][1..] == [b];
    ReplaceInOneByte(b, target, replacement);
  }

  lemma FourPassesOnOneByte(b: Byte)
    ensures EscapeInFourPasses([b]) == EscapeByte(b)
  {
    var bs, sc, cm, nl := [BACKSLASH, BACKSLASH], [BACKSLASH, SEMICOLON], [BACKSLASH, COMMA], [BACKSLASH, LOWER_N];
    ReplaceInOneByte(b, BACKSLASH, bs);
    ReplaceInOneByte(b, SEMICOLON, sc);
    ReplaceInOneByte(b, COMMA, cm);
    ReplaceInOneByte(b, LF, nl);
    if b == BACKSLASH || b == SEMICOLON || b == COMMA {
      if b == BACKSLASH {
        ReplaceInTwoBytes(BACKSLASH, b, SEMICOLON, sc);
      }
      if b != COMMA {
        ReplaceInTwoBytes(BACKSLASH, b, COMMA, cm);
      }
      ReplaceInTwoBytes(BACKSLASH, b, LF, nl);
    }
  }

  lemma {:induction false} SinglePassIsFourPasses(s: Text)
    ensures EscapeText(s) == EscapeInFourPasses(s)
  {
    if s != [] {
      var head, tail := [s[0]], s[1..];
      assert s == head + tail;
      var bs, sc, cm := [BACKSLASH, BACKSLASH], [BACKSLASH, SEMICOLON], [BACKSLASH, COMMA];
      ReplaceAllConcat(head, tail, BACKSLASH, bs);
      var h1, t1 := ReplaceAll(head, BACKSLASH, bs), ReplaceAll(tail, BACKSLASH, bs);
      ReplaceAllConcat(h1, t1, SEMICOLON, sc);
      var h2, t2 := ReplaceAll(h1, SEMICOLON, sc), ReplaceAll(t1, SEMICOLON, sc);
      ReplaceAllConcat(h2, t2, COMMA, cm);
      ReplaceAllConcat(ReplaceAll(h2, COMMA, cm), ReplaceAll(t2, COMMA, cm), LF, [BACKSLASH, LOWER_N]);
      FourPassesOnOneByte(s[0]);
      SinglePassIsFourPasses(tail);
    }
  }

  lemma {:induction false} EscapedTextHasNoLineFeed(s: Text)
    ensures LF !in EscapeText(s)
  {
    if s != [] {
      EscapedTextHasNoLineFeed(s[1..]);
    }
  }

  // ----- folding -----

  function Flatten(chunks: seq<Text>): Text {
    if chunks == [] then [] else chunks[0] + Flatten(chunks[1..])
  }

  /** Greedy chunks of rest: whole code points while they fit limit, then 74 octets for every later line. */
  function FoldFrom(rest: Text, current: Text, limit: nat): (chunks: seq<Text>)
    decreases |rest|
  {
    if rest == [] then (if current == [] then [] else [current])
    else
      var piece := Front(rest);
      if |current| + |piece| > limit
      then [current] + FoldFrom(rest[Width(rest)..], piece, LINE_LIMIT - 1)
      else FoldFrom(rest[Width(rest)..], current + piece, limit)
  }

  /** The chunks of one content line, in order. */
  function Chunks(line: Text): (chunks: seq<Text>) {
    if |line| <= LINE_LIMIT then [line] else FoldFrom(line, [], LINE_LIMIT)
  }

  /** What a reader gets back: only a long ill-formed line is altered, by the decoder's U+FFFD. */
  function Readable(line: Text): Text {
    if |line| <= LINE_LIMIT then line else Sanitize(line)
  }

  lemma ReadableIsIdentityIff(line: Text)
    ensures Readable(line) == line <==> |line| <= LINE_LIMIT || Valid(line)
  {
    SanitizeIsIdentityIffValid(line);
  }

  /** Chunk sizes leave room for the leading space of a continuation line, and no code point is cut. */
  ghost predicate GoodChunks(chunks: seq<Text>, limit: nat) {
    forall i :: 0 <= i < |chunks| ==>
      chunks[i] != [] && Valid(chunks[i]) && |chunks[i]| <= (if i == 0 then limit else LINE_LIMIT - 1)
  }

  lemma {:induction false} FoldFromKeepsText(rest: Text, current: Text, limit: nat)
    ensures Flatten(FoldFrom(rest, current, limit)) == current + Sanitize(rest)
    decreases |rest|
  {
    if rest == [] {
      assert Flatten([current]) == current + Flatten([current][1..]);
      assert current + Sanitize(rest) == current;
    } else {
      var piece, tail := Front(rest), rest[Width(rest)..];
      if |current| + |piece| > limit {
        FoldFromKeepsText(tail, piece, LINE_LIMIT - 1);
        var more := FoldFrom(tail, piece, LINE_LIMIT - 1);
        assert ([current] + more)[1..] == more;
        assert current + (piece + Sanitize(tail)) == current + Sanitize(rest);
      } else {
        FoldFromKeepsText(tail, current + piece, limit);
        assert (current + piece) + Sanitize(tail) == current + (piece + Sanitize(tail));
      }
    }
  }

  lemma GoodChunksCons(current: Text, more: seq<Text>, limit: nat)
    requires current != [] && Valid(current) && |current| <= limit
    requires GoodChunks(more, LINE_LIMIT - 1)
    ensures GoodChunks([current] + more, limit)
  {
    var all := [current] + more;
    forall i | 0 <= i < |all|
      ensures all[i] != [] && Valid(all[i]) && |all[i]| <= (if i == 0 then limit else LINE_LIMIT - 1)
    {
      if i > 0 {
        assert all[i] == more[i - 1];
      }
    }
  }

  lemma {:induction false} FoldFromIsGood(rest: Text, current: Text, limit: nat)
    requires LINE_LIMIT - 1 <= limit && |current| <= limit
    requires Valid(current)
    ensures GoodChunks(FoldFrom(rest, current, limit), limit)
    ensures FoldFrom(rest, current, limit) == [] <==> rest == current == []
    decreases |rest|
  {
    if rest != [] {
      var piece, tail := Front(rest), rest[Width(rest)..];
      if |current| + |piece| > limit {
        assert Valid(piece) by {
          FrontExtendsValid([], rest);
          assert [] + Front(rest) == Front(rest);
        }
        FoldFromIsGood(tail, piece, LINE_LIMIT - 1);
        GoodChunksCons(current, FoldFrom(tail, piece, LINE_LIMIT - 1), limit);
      } else {
        FrontExtendsValid(current, rest);
        FoldFromIsGood(tail, current + piece, limit);
      }
    }
  }

  /** Folding loses nothing a reader would see, and folds of well-formed text are well-formed. */
  lemma ChunksOfLine(line: Text)
    ensures |Chunks(line)| >= 1
    ensures Flatten(Chunks(line)) == Readable(line)
    ensures forall i :: 0 <= i < |Chunks(line)| ==>
      |Chunks(line)[i]| <= (if i == 0 then LINE_LIMIT else LINE_LIMIT - 1)
    ensures Valid(line) ==> forall i :: 0 <= i < |Chunks(line)| ==> Valid(Chunks(line)[i])
  {
    if |line| <= LINE_LIMIT {
      assert [line][1..] == [];
    } else {
      FoldFromIsGood(line, [], LINE_LIMIT);
      FoldFromKeepsText(line, [], LINE_LIMIT);
      assert [] + Sanitize(line) == Sanitize(line);
    }
  }

  lemma {:induction false} FoldFromKeepsCurrent(rest: Text, current: Text, limit: nat)
    requires current != []
    ensures FoldFrom(rest, current, limit) != [] && current <= FoldFrom(rest, current, limit)[0]
    decreases |rest|
  {
    if rest != [] && |current| + |Front(rest)| <= limit {
      FoldFromKeepsCurrent(rest[Width(rest)..], current + Front(rest), limit);
    }
  }

  /** The code point at the front of the next chunk would not have fitted the i-th. */
  predicate IsLate(chunks: seq<Text>, limit: nat, i: nat)
    requires i < |chunks| - 1
  {
    chunks[i + 1] != [] && |chunks[i]| + Width(chunks[i + 1]) > (if i == 0 then limit else LINE_LIMIT - 1)
  }

  ghost predicate Greedy(chunks: seq<Text>, limit: nat) {
    forall i :: 0 <= i < |chunks| - 1 ==> IsLate(chunks, limit, i)
  }

  lemma GreedyCons(current: Text, more: seq<Text>, limit: nat)
    requires more != [] && more[0] != [] && |current| + Width(more[0]) > limit && Greedy(more, LINE_LIMIT - 1)
    ensures Greedy([current] + more, limit)
  {
    var all := [current] + more;
    forall i | 0 <= i < |all| - 1 ensures IsLate(all, limit, i) {
      assert all[i + 1] == more[i];
      if i > 0 {
        assert all[i] == more[i - 1] && IsLate(more, LINE_LIMIT - 1, i - 1);
      }
    }
  }

  lemma {:induction false} FoldFromIsGreedy(rest: Text, current: Text, limit: nat)
    ensures Greedy(FoldFrom(rest, current, limit), limit)
    decreases |rest|
  {
    if rest != [] {
      var piece, tail := Front(rest), rest[Width(rest)..];
      if |current| + |piece| > limit {
        var more := FoldFrom(tail, piece, LINE_LIMIT - 1);
        FoldFromIsGreedy(tail, piece, LINE_LIMIT - 1);
        FoldFromKeepsCurrent(tail, piece, LINE_LIMIT - 1);
        FrontIsValid(rest);
        RuneLengthOfPrefix(piece, more[0][|piece|..]);
        assert more[0] == piece + more[0][|piece|..];
        GreedyCons(current, more, limit);
      } else {
        FoldFromIsGreedy(tail, current + piece, limit);
      }
    }
  }

  /** A line of up to 75 octets is one chunk.  A longer one is cut as late as it can be: the next code point would have taken
      the first chunk past 75 octets, or a later one, with its leading space, past 75 as well. */
  lemma ChunksAreGreedy(line: Text, i: nat)
    ensures |line| <= 75 ==> Chunks(line) == [line]
    ensures |line| > 75 && i < |Chunks(line)| - 1 ==>
      Chunks(line)[i + 1] != [] && |Chunks(line)[i]| + Width(Chunks(line)[i + 1]) > if i == 0 then 75 else 74
  {
    if |line| > 75 {
      FoldFromIsGreedy(line, [], LINE_LIMIT);
      if i < |Chunks(line)| - 1 {
        assert IsLate(Chunks(line), LINE_LIMIT, i);
      }
    }
  }

  function Join(parts: seq<Text>, sep: Text): Text {
    if parts == [] then []
    else if |parts| == 1 then parts[0]
    else parts[0] + sep + Join(parts[1..], sep)
  }

  function LimitAfter(chunks: seq<Text>): nat {
    if |chunks| > 0 then LINE_LIMIT - 1 else LINE_LIMIT
  }

  /** With chunks emitted and current pending, what is left of line from i on completes its folding. */
  predicate Folding(line: Text, i: nat, chunks: seq<Text>, current: Text) {
    i <= |line| && chunks + FoldFrom(line[i..], current, LimitAfter(chunks)) == FoldFrom(line, [], LINE_LIMIT)
  }

  lemma FoldingStarts(line: Text)
    ensures Folding(line, 0, [], [])
  {
    assert line[0..] == line;
  }

  lemma FoldingBreaks(line: Text, i: nat, chunks: seq<Text>, current: Text)
    requires Folding(line, i, chunks, current) && i < |line|
    requires |current| + |Front(line[i..])| > LimitAfter(chunks)
    ensures Folding(line, i + Width(line[i..]), chunks + [current], [] + Front(line[i..]))
  {
    var rest, n := line[i..], Width(line[i..]);
    assert rest[n..] == line[i + n..];
    assert [] + Front(rest) == Front(rest);
    ConcatIsAssociative(chunks, [current], FoldFrom(rest[n..], Front(rest), LINE_LIMIT - 1));
  }

  lemma FoldingFits(line: Text, i: nat, chunks: seq<Text>, current: Text)
    requires Folding(line, i, chunks, current) && i < |line|
    requires |current| + |Front(line[i..])| <= LimitAfter(chunks)
    ensures Folding(line, i + Width(line[i..]), chunks, current + Front(line[i..]))
  {
    var rest, n := line[i..], Width(line[i..]);
    assert rest[n..] == line[i + n..];
  }

  lemma FoldingEnds(line: Text, chunks: seq<Text>, current: Text)
    requires Folding(line, |line|, chunks, current) && |line| > LINE_LIMIT
    ensures Chunks(line) == if |current| > 0 then chunks + [current] else chunks
  {
    assert line[|line|..] == [];
  }

  /** Emits one content line, folded. */
  method FoldLine(line: Text) returns (folded: Text)
    ensures folded == Join(Chunks(line), CRLF + [SPACE])
  {
    if |line| <= LINE_LIMIT {
      return line;
    }
    var chunks: seq<Text> := [];
    var current: Text := [];
    var currentBytes := 0;
    var i := 0;
    FoldingStarts(line);
    while i < |line|
      invariant 0 <= i <= |line|
      invariant currentBytes == |current|
      invariant Folding(line, i, chunks, current)
    {
      var rest := line[i..];
      var piece := Front(rest);
      var limit := LINE_LIMIT;
      if |chunks| > 0 {
        limit := LINE_LIMIT - 1;
      }
      if currentBytes + |piece| > limit {
        FoldingBreaks(line, i, chunks, current);
        chunks := chunks + [current];
        current := [];
        currentBytes := 0;
      } else {
        FoldingFits(line, i, chunks, current);
      }
      current := current + piece;
      currentBytes := currentBytes + |piece|;
      i := i + Width(rest);
    }
    FoldingEnds(line, chunks, current);
    if |current| > 0 {
      chunks := chunks + [current];
    }
    folded := Join(chunks, CRLF + [SPACE]);
  }

  // ----- the reader -----

  /** Splits s at every CRLF; acc is the line read so far.  An unterminated last line is kept. */
  function SplitFrom(acc: Text, s: Text): seq<Text>
    decreases |s|
  {
    if s == [] then (if acc == [] then [] else [acc])
    else if |s| >= 2 && s[0] == CR && s[1] == LF then [acc] + SplitFrom([], s[2..])
    else SplitFrom(acc + [s[0]], s[1..])
  }

  function SplitLines(s: Text): seq<Text> {
    SplitFrom([], s)
  }

  predicate StartsWithBlank(line: Text) {
    line != [] && (line[0] == SPACE || line[0] == TAB)
  }

  /** Section 3.1: a physical line that starts with a blank continues the line before it. */
  function UnfoldFrom(current: Text, lines: seq<Text>): seq<Text>
    decreases |lines|
  {
    if lines == [] then [current]
    else if StartsWithBlank(lines[0]) then UnfoldFrom(current + lines[0][1..], lines[1..])
    else [current] + UnfoldFrom(lines[0], lines[1..])
  }

  function Unfold(lines: seq<Text>): seq<Text> {
    if lines == [] then [] else UnfoldFrom(lines[0], lines[1..])
  }

  /** The content lines of an iCalendar stream. */
  function ContentLines(s: Text): seq<Text> {
    Unfold(SplitLines(s))
  }

  // ----- the printed stream, physical line by physical line -----

  function Terminated(lines: seq<Text>): Text {
    if lines == [] then [] else lines[0] + CRLF + Terminated(lines[1..])
  }

  function Continued(chunks: seq<Text>): seq<Text> {
    if chunks == [] then [] else [[SPACE] + chunks[0]] + Continued(chunks[1..])
  }

  function PhysicalLines(line: Text): seq<Text> {
    if Chunks(line) == [] then [] else [Chunks(line)[0]] + Continued(Chunks(line)[1..])
  }

  function AllPhysicalLines(lines: seq<Text>): seq<Text> {
    if lines == [] then [] else PhysicalLines(lines[0]) + AllPhysicalLines(lines[1..])
  }

  function FoldedLines(lines: seq<Text>): (folded: seq<Text>)
    ensures |folded| == |lines|
  {
    seq(|lines|, i requires 0 <= i < |lines| => Join(Chunks(lines[i]), CRLF + [SPACE]))
  }

  function ReadableLines(lines: seq<Text>): (readable: seq<Text>)
    ensures |readable| == |lines|
  {
    seq(|lines|, i requires 0 <= i < |lines| => Readable(lines[i]))
  }

  lemma {:induction false} TerminatedConcat(a: seq<Text>, b: seq<Text>)
    ensures Terminated(a + b) == Terminated(a) + Terminated(b)
  {
    if a == [] {
      assert a + b == b;
    } else {
      assert (a + b)[1..] == a[1..] + b;
      TerminatedConcat(a[1..], b);
    }
  }

  lemma {:induction false} JoinIsTerminated(lines: seq<Text>)
    requires lines != []
    ensures Join(lines, CRLF) + CRLF == Terminated(lines)
  {
    if |lines| == 1 {
      assert lines[1..] == [];
    } else {
      JoinIsTerminated(lines[1..]);
      assert Join(lines, CRLF) + CRLF == lines[0] + CRLF + (Join(lines[1..], CRLF) + CRLF);
    }
  }

  lemma {:induction false} FoldIsTerminated(chunks: seq<Text>)
    requires chunks != []
    ensures Join(chunks, CRLF + [SPACE]) + CRLF == Terminated([chunks[0]] + Continued(chunks[1..]))
  {
    var physical := [chunks[0]] + Continued(chunks[1..]);
    assert physical[1..] == Continued(chunks[1..]);
    if |chunks| > 1 {
      var tail := chunks[1..];
      FoldIsTerminated(tail);
      var inner := [tail[0]] + Continued(tail[1..]);
      assert inner[1..] == Continued(tail[1..]);
      var spaced := [[SPACE] + tail[0]] + Continued(tail[1..]);
      assert spaced[1..] == Continued(tail[1..]);
      assert Terminated(spaced) == [SPACE] + Terminated(inner);
      assert Join(chunks, CRLF + [SPACE]) + CRLF
          == chunks[0] + CRLF + ([SPACE] + (Join(tail, CRLF + [SPACE]) + CRLF));
    }
  }

  /** The stream is the physical lines, each one terminated. */
  lemma {:induction false} FoldedStream(lines: seq<Text>)
    ensures Terminated(FoldedLines(lines)) == Terminated(AllPhysicalLines(lines))
  {
    if lines != [] {
      ChunksOfLine(lines[0]);
      assert FoldedLines(lines)[1..] == FoldedLines(lines[1..]);
      FoldedStream(lines[1..]);
      FoldIsTerminated(Chunks(lines[0]));
      TerminatedConcat(PhysicalLines(lines[0]), AllPhysicalLines(lines[1..]));
    }
  }

  /** Splitting finds the end of a line that holds no line feed of its own, even after a bare CR. */
  lemma {:induction false} SplitOneLine(acc: Text, line: Text, rest: Text)
    requires LF !in line
    ensures SplitFrom(acc, line + CRLF + rest) == [acc + line] + SplitFrom([], rest)
    decreases |line|
  {
    var s := line + CRLF + rest;
    if line == [] {
      assert s[2..] == rest;
      assert acc + line == acc;
    } else {
      assert s[1..] == line[1..] + CRLF + rest;
      assert s[1] == if |line| > 1 then line[1] else CR;
      SplitOneLine(acc + [line[0]], line[1..], rest);
      assert acc + [line[0]] + line[1..] == acc + line;
    }
  }

  lemma {:induction false} SplitUndoesTerminated(lines: seq<Text>)
    requires forall l :: l in lines ==> LF !in l
    ensures SplitLines(Terminated(lines)) == lines
  {
    if lines != [] {
      assert lines[0] in lines;
      SplitUndoesTerminated(lines[1..]);
      SplitOneLine([], lines[0], Terminated(lines[1..]));
      assert [] + lines[0] == lines[0];
      assert lines == [lines[0]] + lines[1..];
    }
  }

  /** A content line an event may hold: no raw line feed, and no blank that reads as a continuation. */
  predicate Clean(line: Text) {
    LF !in line && !StartsWithBlank(line)
  }

  lemma {:induction false} ByteOfFlatten(chunks: seq<Text>, i: nat, b: Byte)
    requires i < |chunks| && b in chunks[i]
    ensures b in Flatten(chunks)
  {
    if i > 0 {
      ByteOfFlatten(chunks[1..], i - 1, b);
    }
  }

  lemma {:induction false} SanitizeKeepsClean(line: Text)
    requires LF !in line
    ensures LF !in Sanitize(line)
  {
    if line != [] {
      FrontIsFaithful(line);
      assert LF !in line[Width(line)..];
      SanitizeKeepsClean(line[Width(line)..]);
      assert LF !in Front(line);
    }
  }

  lemma ChunksAreClean(line: Text)
    requires Clean(line)
    ensures forall c :: c in Chunks(line) ==> LF !in c
    ensures Chunks(line) != [] && !StartsWithBlank(Chunks(line)[0])
  {
    ChunksOfLine(line);
    var chunks := Chunks(line);
    if |line| > LINE_LIMIT {
      SanitizeKeepsClean(line);
      forall c | c in chunks ensures LF !in c {
        var i :| 0 <= i < |chunks| && chunks[i] == c;
        if LF in c {
          ByteOfFlatten(chunks, i, LF);
        }
      }
      FoldFromIsGood(line, [], LINE_LIMIT);
      FrontIsFaithful(line);
      assert chunks[0][0] == Flatten(chunks)[0] == Sanitize(line)[0] == Front(line)[0];
    }
  }

  lemma {:induction false} ContinuedAt(chunks: seq<Text>)
    ensures |Continued(chunks)| == |chunks|
    ensures forall i :: 0 <= i < |chunks| ==> Continued(chunks)[i] == [SPACE] + chunks[i]
  {
    if chunks != [] {
      ContinuedAt(chunks[1..]);
    }
  }

  /** Every physical line is at most 75 octets, holds no line feed, and cuts no code point. */
  ghost predicate GoodPhysicalLine(p: Text) {
    |p| <= LINE_LIMIT && LF !in p
  }

  lemma PhysicalLinesAreGood(line: Text)
    requires Clean(line)
    ensures forall p :: p in PhysicalLines(line) ==> GoodPhysicalLine(p)
    ensures Valid(line) ==> forall p :: p in PhysicalLines(line) ==> Valid(p)
  {
    ChunksOfLine(line);
    ChunksAreClean(line);
    var chunks := Chunks(line);
    var tail := chunks[1..];
    ContinuedAt(tail);
    forall p | p in PhysicalLines(line) && p != chunks[0]
      ensures GoodPhysicalLine(p) && (Valid(line) ==> Valid(p))
    {
      var i :| 0 <= i < |tail| && p == [SPACE] + tail[i];
      assert tail[i] == chunks[i + 1] && tail[i] in chunks;
      if Valid(line) {
        assert [SPACE][Width([SPACE])..] == [];
        ValidConcat([SPACE], tail[i]);
      }
    }
  }

  lemma {:induction false} AllPhysicalLinesAreGood(lines: seq<Text>)
    requires forall l :: l in lines ==> Clean(l)
    ensures forall p :: p in AllPhysicalLines(lines) ==> GoodPhysicalLine(p)
    ensures (forall l :: l in lines ==> Valid(l)) ==> forall p :: p in AllPhysicalLines(lines) ==> Valid(p)
  {
    if lines != [] {
      assert lines[0] in lines;
      PhysicalLinesAreGood(lines[0]);
      AllPhysicalLinesAreGood(lines[1..]);
    }
  }

  lemma {:induction false} UnfoldOneLine(current: Text, chunks: seq<Text>, rest: seq<Text>)
    requires rest != [] ==> !StartsWithBlank(rest[0])
    ensures UnfoldFrom(current, Continued(chunks) + rest) == [current + Flatten(chunks)] + Unfold(rest)
    decreases |chunks|
  {
    var lines := Continued(chunks) + rest;
    if chunks == [] {
      assert lines == rest;
      assert current + Flatten(chunks) == current;
    } else {
      assert lines[0] == [SPACE] + chunks[0];
      assert lines[0][1..] == chunks[0];
      assert lines[1..] == Continued(chunks[1..]) + rest;
      UnfoldOneLine(current + chunks[0], chunks[1..], rest);
      assert current + chunks[0] + Flatten(chunks[1..]) == current + Flatten(chunks);
    }
  }

  lemma UnfoldChunks(chunks: seq<Text>, rest: seq<Text>)
    requires chunks != [] && !StartsWithBlank(chunks[0])
    requires rest != [] ==> !StartsWithBlank(rest[0])
    ensures Unfold([chunks[0]] + Continued(chunks[1..]) + rest) == [Flatten(chunks)] + Unfold(rest)
  {
    UnfoldOneLine(chunks[0], chunks[1..], rest);
    ConcatIsAssociative([chunks[0]], Continued(chunks[1..]), rest);
    FirstAndRest(chunks[0], Continued(chunks[1..]) + rest);
  }

  lemma UnfoldNext(line: Text, rest: seq<Text>)
    requires Clean(line)
    requires rest != [] ==> !StartsWithBlank(rest[0])
    ensures Unfold(PhysicalLines(line) + rest) == [Readable(line)] + Unfold(rest)
    ensures PhysicalLines(line) != [] && !StartsWithBlank(PhysicalLines(line)[0])
  {
    ChunksAreClean(line);
    ChunksOfLine(line);
    UnfoldChunks(Chunks(line), rest);
  }

  lemma {:induction false} UnfoldAll(lines: seq<Text>)
    requires forall l :: l in lines ==> Clean(l)
    ensures Unfold(AllPhysicalLines(lines)) == ReadableLines(lines)
    ensures AllPhysicalLines(lines) != [] ==> !StartsWithBlank(AllPhysicalLines(lines)[0])
  {
    if lines != [] {
      assert lines[0] in lines;
      UnfoldAll(lines[1..]);
      UnfoldNext(lines[0], AllPhysicalLines(lines[1..]));
      assert ReadableLines(lines) == [Readable(lines[0])] + ReadableLines(lines[1..]);
    }
  }

  /** Reading a printed stream gives back exactly the lines that were printed. */
  lemma PrintedStreamReadsBack(lines: seq<Text>)
    requires lines != [] && forall l :: l in lines ==> Clean(l)
    ensures var stream := Join(FoldedLines(lines), CRLF) + CRLF;
      && SplitLines(stream) == AllPhysicalLines(lines)
      && ContentLines(stream) == ReadableLines(lines)
  {
    JoinIsTerminated(FoldedLines(lines));
    FoldedStream(lines);
    AllPhysicalLinesAreGood(lines);
    SplitUndoesTerminated(AllPhysicalLines(lines));
    UnfoldAll(lines);
  }

  // ----- the calendar -----

  /** The fixed texts of an event: whole lines, or property names with their colon. */
  datatype Name =
    | BeginEvent | EndEvent | Uid | DtStamp | DtStart | DtStartDate | DtEnd | DtEndDate
    | Summary | Description | Location | Url

  function Label(name: Name): Text {
    match name
    case BeginEvent => Ascii("BEGIN:VEVENT")
    case EndEvent => Ascii("END:VEVENT")
    case Uid => Ascii("UID:")
    case DtStamp => Ascii("DTSTAMP:")
    case DtStart => Ascii("DTSTART:")
    case DtStartDate => Ascii("DTSTART;VALUE=DATE:")
    case DtEnd => Ascii("DTEND:")
    case DtEndDate => Ascii("DTEND;VALUE=DATE:")
    case Summary => Ascii("SUMMARY:")
    case Description => Ascii("DESCRIPTION:")
    case Location => Ascii("LOCATION:")
    case Url => Ascii("URL:")
  }

  /** The names, and so the properties that a reader looks for, are those of section 3.8 of RFC 5545. */
  lemma LabelTexts()
    ensures Label(BeginEvent) == Ascii("BEGIN:VEVENT") && Label(EndEvent) == Ascii("END:VEVENT")
    ensures Label(Uid) == Ascii("UID:") && Label(DtStamp) == Ascii("DTSTAMP:")
    ensures Label(DtStart) == Ascii("DTSTART:") && Label(DtStartDate) == Ascii("DTSTART;VALUE=DATE:")
    ensures Label(DtEnd) == Ascii("DTEND:") && Label(DtEndDate) == Ascii("DTEND;VALUE=DATE:")
    ensures Label(Summary) == Ascii("SUMMARY:") && Label(Description) == Ascii("DESCRIPTION:")
    ensures Label(Location) == Ascii("LOCATION:") && Label(Url) == Ascii("URL:")
  {
  }

  lemma AsciiName(s: string)
    requires s != [] && forall i :: 0 <= i < |s| ==> ' ' < s[i] < 128 as char
    ensures Ascii(s) != [] && Clean(Ascii(s)) && Ascii(s)[0] == s[0] as int
    ensures forall i :: 0 <= i < |s| ==> Ascii(s)[i] < 128
  {
  }

  lemma LabelsAreAscii(name: Name)
    ensures Label(name) != [] && Clean(Label(name))
    ensures forall i :: 0 <= i < |Label(name)| ==> Label(name)[i] < 128
    ensures Label(name)[0] == 66 <==> name == BeginEvent
  {
    match name
    case BeginEvent => AsciiName("BEGIN:VEVENT");
    case EndEvent => AsciiName("END:VEVENT");
    case Uid => AsciiName("UID:");
    case DtStamp => AsciiName("DTSTAMP:");
    case DtStart => AsciiName("DTSTART:");
    case DtStartDate => AsciiName("DTSTART;VALUE=DATE:");
    case DtEnd => AsciiName("DTEND:");
    case DtEndDate => AsciiName("DTEND;VALUE=DATE:");
    case Summary => AsciiName("SUMMARY:");
    case Description => AsciiName("DESCRIPTION:");
    case Location => AsciiName("LOCATION:");
    case Url => AsciiName("URL:");
  }

  datatype FrameLine = BeginCalendar | Version | ProdId | CalScale | PublishMethod | EndCalendar

  function Frame(line: FrameLine): Text {
    match line
    case BeginCalendar => Ascii("BEGIN:VCALENDAR")
    case Version => Ascii("VERSION:2.0")
    case ProdId => Ascii("PRODID:-//whenweall//EN")
    case CalScale => Ascii("CALSCALE:GREGORIAN")
    case PublishMethod => Ascii("METHOD:PUBLISH")
    case EndCalendar => Ascii("END:VCALENDAR")
  }

  lemma FrameIsAscii(line: FrameLine)
    ensures GoodLine(Frame(line))
  {
    match line {
      case BeginCalendar => AsciiName("BEGIN:VCALENDAR");
      case Version => AsciiName("VERSION:2.0");
      case ProdId => AsciiName("PRODID:-//whenweall//EN");
      case CalScale => AsciiName("CALSCALE:GREGORIAN");
      case PublishMethod => AsciiName("METHOD:PUBLISH");
      case EndCalendar => AsciiName("END:VCALENDAR");
    }
    AsciiIsValid(Frame(line));
  }

  const HEADER: seq<Text> :=
    [Frame(BeginCalendar), Frame(Version), Frame(ProdId), Frame(CalScale), Frame(PublishMethod)]

  const FOOTER: seq<Text> := [Frame(EndCalendar)]

  function Calendar(veventLines: seq<Text>): seq<Text> {
    HEADER + veventLines + FOOTER
  }

  function Printed(veventLines: seq<Text>): Text {
    Join(FoldedLines(Calendar(veventLines)), CRLF) + CRLF
  }

  lemma FrameTexts()
    ensures HEADER == [Ascii("BEGIN:VCALENDAR"), Ascii("VERSION:2.0"), Ascii("PRODID:-//whenweall//EN"),
                       Ascii("CALSCALE:GREGORIAN"), Ascii("METHOD:PUBLISH")]
    ensures FOOTER == [Ascii("END:VCALENDAR")]
  {
  }

  lemma {:induction false} AsciiIsValid(s: Text)
    requires forall i :: 0 <= i < |s| ==> s[i] < 128
    ensures Valid(s)
  {
    if s != [] {
      AsciiIsValid(s[1..]);
    }
  }

  predicate GoodLine(l: Text) {
    Clean(l) && Valid(l)
  }

  /** Lines a calendar may hold as they are: clean, and well-formed UTF-8. */
  ghost predicate GoodLines(lines: seq<Text>) {
    forall l :: l in lines ==> GoodLine(l)
  }

  lemma LabelIsGood(name: Name)
    ensures GoodLine(Label(name))
  {
    LabelsAreAscii(name);
    AsciiIsValid(Label(name));
  }

  lemma GoodLinesAreReadable(lines: seq<Text>)
    requires GoodLines(lines)
    ensures ReadableLines(lines) == lines
  {
    forall i | 0 <= i < |lines| ensures Readable(lines[i]) == lines[i] {
      assert lines[i] in lines;
      ReadableIsIdentityIff(lines[i]);
    }
  }

  lemma FrameIsClean()
    ensures GoodLines(HEADER) && GoodLines(FOOTER)
    ensures ReadableLines(HEADER) == HEADER && ReadableLines(FOOTER) == FOOTER
  {
    FrameIsAscii(BeginCalendar);
    FrameIsAscii(Version);
    FrameIsAscii(ProdId);
    FrameIsAscii(CalScale);
    FrameIsAscii(PublishMethod);
    FrameIsAscii(EndCalendar);
    GoodLinesAreReadable(HEADER);
    GoodLinesAreReadable(FOOTER);
  }

  lemma ReadableConcat(a: seq<Text>, b: seq<Text>)
    ensures ReadableLines(a + b) == ReadableLines(a) + ReadableLines(b)
  {
  }

  /** What the printed calendar says, for any event lines whatsoever that are clean. */
  lemma CalendarReadsBack(veventLines: seq<Text>)
    requires forall l :: l in veventLines ==> Clean(l)
    ensures var stream := Printed(veventLines);
      && ContentLines(stream) == HEADER + ReadableLines(veventLines) + FOOTER
      && SplitLines(stream) == AllPhysicalLines(Calendar(veventLines))
      && (forall p :: p in SplitLines(stream) ==> |p| <= LINE_LIMIT)
  {
    FrameIsClean();
    var lines := Calendar(veventLines);
    ReadableConcat(HEADER + veventLines, FOOTER);
    ReadableConcat(HEADER, veventLines);
    PrintedStreamReadsBack(lines);
    AllPhysicalLinesAreGood(lines);
  }

  lemma GoodConcat(a: seq<Text>, b: seq<Text>)
    requires GoodLines(a) && GoodLines(b)
    ensures GoodLines(a + b)
  {
  }

  /** Well-formed event lines come back unchanged, and no physical line cuts a code point. */
  lemma GoodCalendarReadsBack(veventLines: seq<Text>)
    requires GoodLines(veventLines)
    ensures ContentLines(Printed(veventLines)) == HEADER + veventLines + FOOTER
    ensures forall p :: p in SplitLines(Printed(veventLines)) ==> |p| <= LINE_LIMIT && Valid(p)
  {
    GoodLinesAreReadable(veventLines);
    CalendarReadsBack(veventLines);
    FrameIsClean();
    GoodConcat(HEADER, veventLines);
    GoodConcat(HEADER + veventLines, FOOTER);
    AllPhysicalLinesAreGood(Calendar(veventLines));
  }

  method FoldAll(lines: seq<Text>) returns (folded: seq<Text>)
    ensures folded == FoldedLines(lines)
  {
    folded := [];
    for i := 0 to |lines|
      invariant folded == FoldedLines(lines)[..i]
    {
      var f := FoldLine(lines[i]);
      folded := folded + [f];
    }
  }

  /** Wraps an event's lines, folds every line, and joins them with CRLF. */
  method BuildCalendar(veventLines: seq<Text>) returns (stream: Text)
    ensures stream == Printed(veventLines)
  {
    var lines := HEADER;
    lines := lines + veventLines;
    lines := lines + FOOTER;
    var folded := FoldAll(lines);
    stream := Join(folded, CRLF) + CRLF;
  }

  // ----- the event lines -----

  /** The two basic renderings of an instant: date-time with a trailing Z, and bare UTC date. */
  datatype Formats = Formats(utcBasic: int -> Text, dateBasic: int -> Text)

  /** Basic date forms consist of digits, T and Z. */
  predicate BasicStamp(s: Text) {
    forall i :: 0 <= i < |s| ==> 48 <= s[i] <= 57 || s[i] == 84 || s[i] == 90
  }

  ghost predicate ValidFormats(f: Formats) {
    forall t :: BasicStamp(f.utcBasic(t)) && BasicStamp(f.dateBasic(t))
  }

  datatype Start = AllDay(date: int) | Timed(at: int, end: Option<int>)

  /** description and location are empty when absent. */
  datatype Event = Event(uid: Text, title: Text, description: Text, location: Text, url: Text, start: Start)

  function StartLine(f: Formats, start: Start): Text {
    match start
    case AllDay(d) => Label(DtStartDate) + f.dateBasic(d)
    case Timed(at, _) => Label(DtStart) + f.utcBasic(at)
  }

  /** An all-day event ends, exclusively, on the next date; a timed one lasts an hour unless told otherwise. */
  function EndLine(f: Formats, start: Start): Text {
    match start
    case AllDay(d) => Label(DtEndDate) + f.dateBasic(d + DAY)
    case Timed(at, end) => Label(DtEnd) + f.utcBasic(if end.Some? then end.value else at + HOUR)
  }

  function Property(name: Name, value: Text): seq<Text>
  {
    if value == [] then [] else [Label(name) + EscapeText(value)]
  }

  function HeadLines(f: Formats, e: Event, now: int): seq<Text> {
    [Label(BeginEvent), Label(Uid) + EscapeText(e.uid), Label(DtStamp) + f.utcBasic(now),
     StartLine(f, e.start), EndLine(f, e.start), Label(Summary) + EscapeText(e.title)]
  }

  function TailLines(e: Event): seq<Text> {
    [Label(Url) + EscapeText(e.url), Label(EndEvent)]
  }

  function VeventLines(f: Formats, e: Event, now: int): seq<Text> {
    HeadLines(f, e, now) + Property(Description, e.description) + Property(Location, e.location) + TailLines(e)
  }

  method BuildVeventLines(f: Formats, e: Event, now: int) returns (lines: seq<Text>)
    ensures lines == VeventLines(f, e, now)
  {
    var dtstart, dtend;
    match e.start {
      case AllDay(d) =>
        dtstart := Label(DtStartDate) + f.dateBasic(d);
        dtend := Label(DtEndDate) + f.dateBasic(d + DAY);
      case Timed(at, end) =>
        var until := at + HOUR;
        if end.Some? {
          until := end.value;
        }
        dtstart := Label(DtStart) + f.utcBasic(at);
        dtend := Label(DtEnd) + f.utcBasic(until);
    }
    assert dtstart == StartLine(f, e.start) && dtend == EndLine(f, e.start);
    lines := [Label(BeginEvent), Label(Uid) + EscapeText(e.uid), Label(DtStamp) + f.utcBasic(now),
              dtstart, dtend, Label(Summary) + EscapeText(e.title)];
    if e.description != [] {
      lines := lines + [Label(Description) + EscapeText(e.description)];
    }
    if e.location != [] {
      lines := lines + [Label(Location) + EscapeText(e.location)];
    }
    lines := lines + [Label(Url) + EscapeText(e.url), Label(EndEvent)];
  }

  /** A property line: an upper-case name and a value without line feeds. */
  lemma PropertyLineIsClean(name: Name, value: Text)
    requires LF !in value
    ensures Clean(Label(name) + value)
    ensures Valid(value) ==> Valid(Label(name) + value)
  {
    LabelsAreAscii(name);
    if Valid(value) {
      AsciiIsValid(Label(name));
      ValidConcat(Label(name), value);
    }
  }

  lemma EscapeByteIsValid(s: Text)
    requires s != [] && s[0] < 128
    ensures Valid(EscapeByte(s[0]))
  {
    AsciiIsValid(EscapeByte(s[0]));
  }

  lemma {:induction false} EscapeConcat(a: Text, b: Text)
    ensures EscapeText(a + b) == EscapeText(a) + EscapeText(b)
  {
    if a == [] {
      assert a + b == b;
    } else {
      assert (a + b)[1..] == a[1..] + b;
      EscapeConcat(a[1..], b);
    }
  }

  lemma {:induction false} EscapeOfHighBytes(s: Text)
    requires forall i :: 0 <= i < |s| ==> s[i] >= 128
    ensures EscapeText(s) == s
  {
    if s != [] {
      EscapeOfHighBytes(s[1..]);
    }
  }

  lemma {:induction false} EscapeKeepsValid(s: Text)
    requires Valid(s)
    ensures Valid(EscapeText(s))
    decreases |s|
  {
    if s != [] {
      var n := RuneLength(s);
      var head, tail := s[..n], s[n..];
      assert s == head + tail;
      EscapeConcat(head, tail);
      EscapeKeepsValid(tail);
      if n == 1 {
        EscapeByteIsValid(s);
        assert EscapeText(head) == EscapeByte(s[0]) + EscapeText(head[1..]);
        assert EscapeText(head) == EscapeByte(s[0]);
      } else {
        EscapeOfHighBytes(head);
        assert Valid(head) by {
          RuneLengthIsLocal(s, n);
          assert head[n..] == [];
        }
      }
      ValidConcat(EscapeText(head), EscapeText(tail));
    }
  }

  /** The texts of an event are well-formed UTF-8, as the database guarantees. */
  predicate ValidEvent(e: Event) {
    Valid(e.uid) && Valid(e.title) && Valid(e.description) && Valid(e.location) && Valid(e.url)
  }

  lemma EscapedPropertyIsGood(name: Name, value: Text)
    requires Valid(value)
    ensures GoodLine(Label(name) + EscapeText(value))
  {
    EscapedTextHasNoLineFeed(value);
    EscapeKeepsValid(value);
    PropertyLineIsClean(name, EscapeText(value));
  }

  lemma StampLineIsGood(name: Name, stamp: Text)
    requires BasicStamp(stamp)
    ensures GoodLine(Label(name) + stamp)
  {
    AsciiIsValid(stamp);
    PropertyLineIsClean(name, stamp);
  }

  lemma StartLinesAreGood(f: Formats, start: Start)
    requires ValidFormats(f)
    ensures GoodLine(StartLine(f, start)) && GoodLine(EndLine(f, start))
  {
    match start
    case AllDay(d) =>
      StampLineIsGood(DtStartDate, f.dateBasic(d));
      StampLineIsGood(DtEndDate, f.dateBasic(d + DAY));
    case Timed(at, end) =>
      StampLineIsGood(DtStart, f.utcBasic(at));
      StampLineIsGood(DtEnd, f.utcBasic(if end.Some? then end.value else at + HOUR));
  }

  lemma PropertyIsGood(name: Name, value: Text)
    requires Valid(value)
    ensures GoodLines(Property(name, value)) && GoodLines([Label(name) + EscapeText(value)])
  {
    EscapedPropertyIsGood(name, value);
  }

  lemma SixGoodLines(a: Text, b: Text, c: Text, d: Text, e: Text, f: Text)
    requires GoodLine(a) && GoodLine(b) && GoodLine(c) && GoodLine(d) && GoodLine(e) && GoodLine(f)
    ensures GoodLines([a, b, c, d, e, f])
  {
  }

  lemma HeadLinesAreGood(f: Formats, e: Event, now: int)
    requires ValidFormats(f) && ValidEvent(e)
    ensures GoodLines(HeadLines(f, e, now))
  {
    LabelIsGood(BeginEvent);
    EscapedPropertyIsGood(Uid, e.uid);
    StampLineIsGood(DtStamp, f.utcBasic(now));
    StartLinesAreGood(f, e.start);
    EscapedPropertyIsGood(Summary, e.title);
    SixGoodLines(Label(BeginEvent), Label(Uid) + EscapeText(e.uid), Label(DtStamp) + f.utcBasic(now),
                 StartLine(f, e.start), EndLine(f, e.start), Label(Summary) + EscapeText(e.title));
  }

  lemma TailLinesAreGood(e: Event)
    requires ValidEvent(e)
    ensures GoodLines(TailLines(e))
  {
    LabelIsGood(EndEvent);
    EscapedPropertyIsGood(Url, e.url);
  }

  lemma VeventLinesAreGood(f: Formats, e: Event, now: int)
    requires ValidFormats(f) && ValidEvent(e)
    ensures GoodLines(VeventLines(f, e, now))
  {
    HeadLinesAreGood(f, e, now);
    PropertyIsGood(Description, e.description);
    PropertyIsGood(Location, e.location);
    TailLinesAreGood(e);
    GoodConcat(HeadLines(f, e, now), Property(Description, e.description));
    GoodConcat(HeadLines(f, e, now) + Property(Description, e.description), Property(Location, e.location));
    GoodConcat(HeadLines(f, e, now) + Property(Description, e.description) + Property(Location, e.location), TailLines(e));
  }

  // ----- one calendar for several claimed slots -----

  datatype OptionKind = PlainText | DateOnly | DateTime

  datatype PollOption = PollOption(id: Text, kind: OptionKind, startAt: Option<int>, endAt: Option<int>)

  datatype Poll = Poll(id: Text, title: Text, description: Text, location: Text)

  function StartOf(o: PollOption): Option<Start> {
    if o.kind.PlainText? || o.startAt.None? then None
    else if o.kind.DateOnly? then Some(AllDay(o.startAt.value))
    else Some(Timed(o.startAt.value, o.endAt))
  }

  function ClaimEvent(poll: Poll, o: PollOption, url: Text, start: Start): Event {
    Event(poll.id + Ascii("-") + o.id + Ascii("@whenweall"), poll.title, poll.description, poll.location, url, start)
  }

  /** One event per claimed option that has a place in a calendar, in order. */
  function ClaimEvents(poll: Poll, claimed: seq<PollOption>, url: Text): seq<Event> {
    if claimed == [] then []
    else
      var init, o := claimed[..|claimed| - 1], claimed[|claimed| - 1];
      ClaimEvents(poll, init, url) + match StartOf(o) case None => [] case Some(s) => [ClaimEvent(poll, o, url, s)]
  }

  function EventLines(f: Formats, events: seq<Event>, now: int): seq<Text> {
    if events == [] then []
    else EventLines(f, events[..|events| - 1], now) + VeventLines(f, events[|events| - 1], now)
  }

  /** Each claimed option that has a time, and no other, adds one event: on its date if it is a date, from its start to its
      end if it is a time, with the poll's texts and an identifier made of both ids. */
  lemma OneEventPerTimedOption(poll: Poll, claimed: seq<PollOption>, o: PollOption, url: Text)
    ensures ClaimEvents(poll, [], url) == []
    ensures o.kind.PlainText? || o.startAt.None? ==> ClaimEvents(poll, claimed + [o], url) == ClaimEvents(poll, claimed, url)
    ensures !o.kind.PlainText? && o.startAt.Some? ==>
      ClaimEvents(poll, claimed + [o], url) == ClaimEvents(poll, claimed, url)
        + [Event(poll.id + Ascii("-") + o.id + Ascii("@whenweall"), poll.title, poll.description, poll.location, url,
                 if o.kind.DateOnly? then AllDay(o.startAt.value) else Timed(o.startAt.value, o.endAt))]
  {
    assert (claimed + [o])[..|claimed|] == claimed;
  }

  method BuildClaimICS(f: Formats, poll: Poll, claimed: seq<PollOption>, url: Text, now: int)
    returns (stream: Option<Text>)
    ensures stream.None? <==> ClaimEvents(poll, claimed, url) == []
    ensures stream.Some? ==> stream.value == Printed(EventLines(f, ClaimEvents(poll, claimed, url), now))
  {
    var lines: seq<Text> := [];
    ghost var events: seq<Event> := [];
    for i := 0 to |claimed|
      invariant events == ClaimEvents(poll, claimed[..i], url)
      invariant lines == EventLines(f, events, now)
      invariant lines == [] <==> events == []
    {
      var o := claimed[i];
      assert claimed[..i + 1][..i] == claimed[..i];
      var start := StartOf(o);
      if start.Some? {
        var e := ClaimEvent(poll, o, url, start.value);
        var more := BuildVeventLines(f, e, now);
        assert (events + [e])[..|events|] == events;
        events := events + [e];
        lines := lines + more;
      }
    }
    assert claimed[..|claimed|] == claimed;
    if |lines| == 0 {
      return None;
    }
    var s := BuildCalendar(lines);
    stream := Some(s);
  }

  lemma {:induction false} EventLinesAreGood(f: Formats, events: seq<Event>, now: int)
    requires ValidFormats(f) && forall e :: e in events ==> ValidEvent(e)
    ensures GoodLines(EventLines(f, events, now))
  {
    if events != [] {
      EventLinesAreGood(f, events[..|events| - 1], now);
      VeventLinesAreGood(f, events[|events| - 1], now);
    }
  }

  /** End to end: whatever the titles, descriptions and links say, a reader of the printed calendar
      sees the header, exactly the lines of the given events, and the footer. */
  lemma CalendarOfEventsReadsBack(f: Formats, events: seq<Event>, now: int)
    requires ValidFormats(f) && forall e :: e in events ==> ValidEvent(e)
    ensures var stream := Printed(EventLines(f, events, now));
      && ContentLines(stream) == HEADER + EventLines(f, events, now) + FOOTER
      && (forall p :: p in SplitLines(stream) ==> |p| <= LINE_LIMIT && Valid(p))
  {
    EventLinesAreGood(f, events, now);
    GoodCalendarReadsBack(EventLines(f, events, now));
  }

  /** The number of lines that open an event. */
  function Openings(lines: seq<Text>): nat {
    if lines == [] then 0
    else Openings(lines[..|lines| - 1]) + (if lines[|lines| - 1] == Label(BeginEvent) then 1 else 0)
  }

  lemma {:induction false} OpeningsConcat(a: seq<Text>, b: seq<Text>)
    ensures Openings(a + b) == Openings(a) + Openings(b)
  {
    if b == [] {
      assert a + b == a;
    } else {
      assert (a + b)[..|a + b| - 1] == a + b[..|b| - 1];
      OpeningsConcat(a, b[..|b| - 1]);
    }
  }

  predicate NotOpening(lines: seq<Text>) {
    forall i :: 0 <= i < |lines| ==> lines[i] != [] && lines[i][0] != 66
  }

  lemma NameComesFirst(name: Name, value: Text)
    requires name != BeginEvent
    ensures NotOpening([Label(name) + value])
  {
    LabelsAreAscii(name);
    assert (Label(name) + value)[0] == Label(name)[0];
  }

  lemma PropertyDoesNotOpen(name: Name, value: Text)
    requires name != BeginEvent
    ensures NotOpening(Property(name, value))
  {
    NameComesFirst(name, EscapeText(value));
  }

  lemma StartDoesNotOpen(f: Formats, start: Start)
    ensures NotOpening([StartLine(f, start)]) && NotOpening([EndLine(f, start)])
  {
    match start
    case AllDay(d) =>
      NameComesFirst(DtStartDate, f.dateBasic(d));
      NameComesFirst(DtEndDate, f.dateBasic(d + DAY));
    case Timed(at, end) =>
      NameComesFirst(DtStart, f.utcBasic(at));
      NameComesFirst(DtEnd, f.utcBasic(if end.Some? then end.value else at + HOUR));
  }

  lemma {:induction false} NoOpenings(lines: seq<Text>)
    requires NotOpening(lines)
    ensures Openings(lines) == 0
  {
    if lines != [] {
      NoOpenings(lines[..|lines| - 1]);
      assert Label(BeginEvent)[0] == 66;
    }
  }

  lemma AppendingOpensNothing(a: seq<Text>, b: seq<Text>)
    requires NotOpening(b)
    ensures Openings(a + b) == Openings(a)
  {
    OpeningsConcat(a, b);
    NoOpenings(b);
  }

  lemma HeadOpensOnce(f: Formats, e: Event, now: int)
    ensures Openings(HeadLines(f, e, now)) == 1
  {
    var lines := HeadLines(f, e, now);
    var begin := [Label(BeginEvent)];
    assert lines == begin + lines[1..];
    NameComesFirst(Uid, EscapeText(e.uid));
    NameComesFirst(DtStamp, f.utcBasic(now));
    StartDoesNotOpen(f, e.start);
    NameComesFirst(Summary, EscapeText(e.title));
    assert forall i :: 1 <= i < 6 ==> NotOpening([lines[i]]) ==> [lines[i]][0] == lines[i];
    AppendingOpensNothing(begin, lines[1..]);
    assert begin[..0] == [];
  }

  lemma TailOpensNothing(a: seq<Text>, e: Event)
    ensures Openings(a + TailLines(e)) == Openings(a)
  {
    NameComesFirst(Url, EscapeText(e.url));
    NameComesFirst(EndEvent, []);
    assert Label(EndEvent) + [] == Label(EndEvent);
    AppendingOpensNothing(a, TailLines(e));
  }

  lemma VeventOpensOnce(f: Formats, e: Event, now: int)
    ensures Openings(VeventLines(f, e, now)) == 1
  {
    HeadOpensOnce(f, e, now);
    var head, description, location :=
      HeadLines(f, e, now), Property(Description, e.description), Property(Location, e.location);
    PropertyDoesNotOpen(Description, e.description);
    AppendingOpensNothing(head, description);
    PropertyDoesNotOpen(Location, e.location);
    AppendingOpensNothing(head + description, location);
    TailOpensNothing(head + description + location, e);
  }

  /** No title, description or link can forge or hide an event: one opening line per event. */
  lemma {:induction false} OneOpeningPerEvent(f: Formats, events: seq<Event>, now: int)
    ensures Openings(EventLines(f, events, now)) == |events|
  {
    if events != [] {
      OneOpeningPerEvent(f, events[..|events| - 1], now);
      VeventOpensOnce(f, events[|events| - 1], now);
      OpeningsConcat(EventLines(f, events[..|events| - 1], now), VeventLines(f, events[|events| - 1], now));
    }
  }
}
