/**
 Where the client's reading of server-sent events parts from section 9.2.6 of
 the WHATWG HTML standard: the byte order mark, the line that is just `data`,
 and the block that the stream ends in.
 */
module SseStandard {
  import opened Basics
  import opened SseSpec
  import opened SseStreams
  import opened SsePrinting

  const BARE: Bytes := [100, 97, 116, 97]  // "data"
  const BOM: Bytes := [0xEF, 0xBB, 0xBF]

  /** The UTF-8 decode of the standard strips one leading byte order mark; the
      client strips none. */
  function Stripped(s: Bytes): Bytes {
    if BOM <= s then s[|BOM|..] else s
  }

  /** A line's field name: all before its first colon, or all of it. */
  function FieldName(line: Bytes): (name: Bytes)
    ensures |name| <= |line| && name == line[..|name|] && COLON !in name
    ensures COLON in line <==> |name| < |line|
    ensures |name| < |line| ==> line[|name|] == COLON
  {
    if line == [] || line[0] == COLON then []
    else
      assert line == [line[0]] + line[1..];
      [line[0]] + FieldName(line[1..])
  }

  /** Its value: what follows the colon, less one leading space; empty without a
      colon. */
  function FieldValue(line: Bytes): Bytes {
    if COLON !in line then []
    else
      var value := line[|FieldName(line)| + 1..];
      if value != [] && value[0] == SPACE then value[1..] else value
  }

  /** What a line adds by the standard: the value of a field named `data`. */
  function StandardData(line: Bytes): seq<Bytes> {
    if FieldName(line) == BARE then [FieldValue(line)] else []
  }

  lemma {:induction false} NameIs(line: Bytes, k: nat)
    requires k <= |line| && COLON !in line[..k] && (k < |line| ==> line[k] == COLON)
    ensures FieldName(line) == line[..k]
  {
    if k > 0 {
      assert line[..k][0] == line[0] && line[..k] == [line[0]] + line[1..][..k - 1];
      NameIs(line[1..], k - 1);
    }
  }

  lemma BareName(line: Bytes)
    requires FieldName(line) == BARE
    ensures line == BARE || DATA <= line
  {
    if |line| == |BARE| {
      assert line == line[..|BARE|];
    } else {
      assert DATA == BARE + [COLON];
    }
  }

  /** The client's test for the prefix `data:` is the standard's for the field, but
      for the line that has no colon. */
  lemma StandardIsLine(line: Bytes)
    ensures StandardData(line) == if line == BARE then [[]] else LineData(line)
  {
    if line == BARE {
      NameIs(line, |BARE|);
    } else if DATA <= line {
      assert line[..|BARE|] == DATA[..|BARE|] == BARE && line[|BARE|] == DATA[|BARE|];
      NameIs(line, |BARE|);
    } else if FieldName(line) == BARE {
      BareName(line);
    }
  }

  /** The frames by the standard's lines, with the last block delivered. */
  function StandardFrames(s: Bytes): seq<Bytes> {
    FramesBy(StandardData, Lines(Stripped(s)), [])
  }

  /** The bytes of texts and the breaks after them. */
  function Weight(texts: seq<Bytes>): nat {
    if texts == [] then 0 else |texts[0]| + 1 + Weight(texts[1..])
  }

  lemma {:induction false} WeightConcat(a: seq<Bytes>, b: seq<Bytes>)
    ensures Weight(a + b) == Weight(a) + Weight(b)
  {
    if a == [] {
      assert a + b == b;
    } else {
      assert (a + b)[0] == a[0] && (a + b)[1..] == a[1..] + b;
      WeightConcat(a[1..], b);
    }
  }

  lemma {:induction false} JoinWeighs(data: seq<Bytes>)
    requires data != []
    ensures |Join(data)| + 1 == Weight(data)
  {
    if |data| > 1 {
      JoinWeighs(data[1..]);
    }
  }

  lemma FlushWeighs(data: seq<Bytes>)
    ensures Weight(Flush(data)) == Weight(data)
  {
    if data != [] {
      JoinWeighs(data);
    }
  }

  /** Frames weigh what their data lines do. */
  lemma {:induction false} FramesWeigh(f: Bytes -> seq<Bytes>, lines: seq<Bytes>, data: seq<Bytes>)
    requires f([]) == []
    ensures Weight(FramesBy(f, lines, data)) == Weight(data) + Weight(FlatMap(f, lines))
    decreases |lines|
  {
    FlushWeighs(data);
    if lines != [] {
      WeightConcat(f(lines[0]), FlatMap(f, lines[1..]));
      if lines[0] == [] {
        FramesWeigh(f, lines[1..], []);
        WeightConcat(Flush(data), FramesBy(f, lines[1..], []));
      } else {
        FramesWeigh(f, lines[1..], data + f(lines[0]));
        WeightConcat(data, f(lines[0]));
      }
    }
  }

  /** Bare lines are all the difference in the data lines. */
  lemma {:induction false} BareLinesWeigh(lines: seq<Bytes>)
    ensures Weight(FlatMap(LineData, lines)) <= Weight(FlatMap(StandardData, lines))
    ensures BARE in lines ==> Weight(FlatMap(LineData, lines)) < Weight(FlatMap(StandardData, lines))
  {
    if lines != [] {
      var line, rest := lines[0], lines[1..];
      BareLinesWeigh(rest);
      WeightConcat(LineData(line), FlatMap(LineData, rest));
      WeightConcat(StandardData(line), FlatMap(StandardData, rest));
      StandardIsLine(line);
      BareIsNoData();
    }
  }

  lemma BareIsNoData()
    ensures LineData(BARE) == [] && Weight([[]]) == 1 && StandardData([]) == [] && LineData([]) == []
  {
    assert |BARE| < |DATA|;
  }

  lemma {:induction false} SameWithoutBare(lines: seq<Bytes>, data: seq<Bytes>)
    requires BARE !in lines
    ensures FramesBy(StandardData, lines, data) == FramesBy(LineData, lines, data)
    decreases |lines|
  {
    if lines != [] {
      assert lines[0] in lines;
      StandardIsLine(lines[0]);
      SameWithoutBare(lines[1..], []);
      SameWithoutBare(lines[1..], data + LineData(lines[0]));
    }
  }

  // ------------------------------------------------------------ the first line

  /** A leading byte order mark becomes part of the client's first line. */
  lemma MarkJoinsFirstLine(s: Bytes)
    requires BOM <= s
    ensures Lines(s) == [BOM + Lines(Stripped(s))[0]] + Lines(Stripped(s))[1..]
  {
    assert s == BOM + Stripped(s);
    LinesOfPlain(BOM, Stripped(s));
  }

  lemma MarkedIsNoData(line: Bytes)
    ensures LineData(BOM + line) == []
  {
    assert (BOM + line)[0] != DATA[0];
  }

  /** The client reads a stream with a mark as the one without it, but for the
      data of the first line. */
  lemma MarkHidesFirst(s: Bytes)
    requires BOM <= s
    ensures Frames(s) == FramesFrom(Lines(Stripped(s))[1..], [])
  {
    var lines := Lines(Stripped(s));
    MarkJoinsFirstLine(s);
    MarkedIsNoData(lines[0]);
    FramesCons(BOM + lines[0], lines[1..], []);
  }

  /** A first line without data is as good as none. */
  lemma FirstLineDropped(lines: seq<Bytes>)
    requires lines != [] && LineData(lines[0]) == []
    ensures FramesFrom(lines, []) == FramesFrom(lines[1..], [])
  {
    assert lines == [lines[0]] + lines[1..];
    FramesCons(lines[0], lines[1..], []);
    Appended(FramesFrom(lines[1..], []), [], []);
  }

  /** No line is just `data`, and no mark hides a data line. */
  predicate SameLines(s: Bytes) {
    BARE !in Lines(Stripped(s)) && (BOM <= s ==> LineData(Lines(Stripped(s))[0]) == [])
  }

  lemma ClientWeighs(s: Bytes)
    ensures var lines := Lines(Stripped(s));
      Weight(Frames(s)) == Weight(FlatMap(LineData, lines)) - if BOM <= s then Weight(LineData(lines[0])) else 0
  {
    var lines := Lines(Stripped(s));
    if BOM <= s {
      MarkHidesFirst(s);
      FramesWeigh(LineData, lines[1..], []);
      WeightConcat(LineData(lines[0]), FlatMap(LineData, lines[1..]));
    } else {
      FramesWeigh(LineData, lines, []);
    }
  }

  /** The client and the standard collect the same frames from a stream exactly
      when no line of it is just `data` and no byte order mark stands before a
      data line. */
  lemma AgreeExactly(s: Bytes)
    ensures StandardFrames(s) == Frames(s) <==> SameLines(s)
  {
    var lines := Lines(Stripped(s));
    if SameLines(s) {
      SameWithoutBare(lines, []);
      if BOM <= s {
        MarkHidesFirst(s);
        FirstLineDropped(lines);
      }
    } else {
      BareIsNoData();
      FramesWeigh(StandardData, lines, []);
      BareLinesWeigh(lines);
      ClientWeighs(s);
    }
  }

  /** A stream of one bare line is an empty frame by the standard and none here. */
  lemma BareLineDropped()
    ensures StandardFrames(BARE + [LF, LF]) == [[]] && Frames(BARE + [LF, LF]) == []
  {
    BareIsNoData();
    OneBlock(StandardData, BARE);
    OneBlock(LineData, BARE);
  }

  lemma DataLineReads(text: Bytes, line: Bytes)
    requires Plain(text) && line == Data(text, true).Line()
    ensures LineData(line) == [text] && StandardData(line) == [text] && Plain(line) && |line| > |BARE| && line[0] != BOM[0]
  {
    ItemData(Data(text, true));
    StandardIsLine(line);
    PrintablePlain(Data(text, true));
    assert line[0] == DATA[0];
  }

  /** A data line behind a mark is a frame by the standard and none here. */
  lemma MarkHidesData(text: Bytes)
    requires Plain(text)
    ensures var s := BOM + (Data(text, true).Line() + [LF, LF]); StandardFrames(s) == [text] && Frames(s) == []
  {
    var line := Data(text, true).Line();
    DataLineReads(text, line);
    assert Stripped(BOM + (line + [LF, LF])) == line + [LF, LF];
    OneBlock(StandardData, line);
    assert BOM + (line + [LF, LF]) == BOM + line + [LF, LF];
    MarkedIsNoData(line);
    OneBlock(LineData, BOM + line);
  }

  /** One line and its blank line. */
  lemma OneBlock(f: Bytes -> seq<Bytes>, line: Bytes)
    requires Plain(line) && line != []
    ensures FramesBy(f, Lines(line + [LF, LF]), []) == Flush(f(line))
  {
    assert line + [LF, LF] == line + EndLf.Bytes() + [LF];
    LinesOfPrinted(line, EndLf, [LF]);
    assert [LF] == [] + EndLf.Bytes() + [];
    LinesOfPrinted([], EndLf, []);
    var blank: seq<Bytes> := [[]];
    assert Lines(line + [LF, LF]) == [line] + (blank + blank) && blank == [[]] + [];
    FramesByCons(f, line, blank + blank, []);
    FramesByCons(f, [], blank, [] + f(line));
    FramesByCons(f, [], [], []);
    assert [] + f(line) == f(line);
  }

  // -------------------------------------------------- the block a stream ends in

  /** The lines that a terminator has ended. */
  function Ended(s: Bytes): seq<Bytes> {
    Lines(s)[..|Lines(s)| - 1]
  }

  /** What follows the last terminator. */
  function Unended(s: Bytes): Bytes {
    Lines(s)[|Lines(s)| - 1]
  }

  /** The frames that blank lines have dispatched: the standard drops the rest
      at the end of the stream. */
  function Dispatched(f: Bytes -> seq<Bytes>, lines: seq<Bytes>, data: seq<Bytes>): seq<Bytes> {
    if lines == [] then []
    else if lines[0] == [] then Flush(data) + Dispatched(f, lines[1..], [])
    else Dispatched(f, lines[1..], data + f(lines[0]))
  }

  /** The data lines after the last blank line. */
  function Trailing(f: Bytes -> seq<Bytes>, lines: seq<Bytes>, data: seq<Bytes>): seq<Bytes> {
    if lines == [] then data
    else if lines[0] == [] then Trailing(f, lines[1..], [])
    else Trailing(f, lines[1..], data + f(lines[0]))
  }

  lemma {:induction false} TrailingIsLast(f: Bytes -> seq<Bytes>, lines: seq<Bytes>, last: Bytes, data: seq<Bytes>)
    requires f([]) == []
    ensures FramesBy(f, lines + [last], data) == Dispatched(f, lines, data) + Flush(Trailing(f, lines, data) + f(last))
    decreases |lines|
  {
    if lines == [] {
      assert lines + [last] == [last] + [];
      FramesByCons(f, last, [], data);
      Appended(Flush(data + f(last)), [], []);
      Appended(data, [], []);
    } else {
      assert lines + [last] == [lines[0]] + (lines[1..] + [last]);
      FramesByCons(f, lines[0], lines[1..] + [last], data);
      if lines[0] == [] {
        TrailingIsLast(f, lines[1..], last, []);
        Appended(Flush(data), Dispatched(f, lines[1..], []), Flush(Trailing(f, lines[1..], []) + f(last)));
      } else {
        TrailingIsLast(f, lines[1..], last, data + f(lines[0]));
      }
    }
  }

  /** No data line follows the last blank line, ended or not. */
  predicate NothingTrails(f: Bytes -> seq<Bytes>, s: Bytes) {
    Trailing(f, Ended(s), []) == [] && f(Unended(s)) == []
  }

  lemma EndHolds(f: Bytes -> seq<Bytes>, s: Bytes)
    requires f([]) == []
    ensures Dispatched(f, Ended(s), []) == FramesBy(f, Lines(s), []) <==> NothingTrails(f, s)
  {
    assert Lines(s) == Ended(s) + [Unended(s)];
    TrailingIsLast(f, Ended(s), Unended(s), []);
    var trail := Trailing(f, Ended(s), []) + f(Unended(s));
    assert trail == [] <==> NothingTrails(f, s);
    Appended(Dispatched(f, Ended(s), []), [], []);
  }

  /** Delivering the last block without its blank line differs from the standard
      exactly when a data line follows the last blank line. */
  lemma EndExactly(s: Bytes)
    ensures Dispatched(LineData, Ended(s), []) == Frames(s) <==> NothingTrails(LineData, s)
  {
    EndHolds(LineData, s);
  }

  lemma OneDispatched(f: Bytes -> seq<Bytes>, line: Bytes)
    requires line != []
    ensures Dispatched(f, [line], []) == []
  {
    var lines := [line];
    assert lines[1..] == [];
  }

  /** One line and its end. */
  lemma OneEnded(f: Bytes -> seq<Bytes>, line: Bytes)
    requires Plain(line) && line != []
    ensures Ended(line + [LF]) == [line] && FramesBy(f, Lines(line + [LF]), []) == Flush(f(line))
  {
    assert line + [LF] == line + EndLf.Bytes() + [];
    LinesOfPrinted(line, EndLf, []);
    var blank: seq<Bytes> := [[]];
    assert Lines(line + [LF]) == [line] + blank && blank == [[]] + [];
    FramesByCons(f, line, blank, []);
    FramesByCons(f, [], [], [] + f(line));
    FramesByCons(f, [], [], []);
    assert [] + f(line) == f(line);
  }

  /** A data line with its end but no blank line after it is delivered here and
      dropped by the standard. */
  lemma UnclosedDelivered(text: Bytes)
    requires Plain(text)
    ensures var s := Data(text, true).Line() + [LF]; Frames(s) == [text] && Standard(s) == []
  {
    var line := Data(text, true).Line();
    DataLineReads(text, line);
    assert (line + [LF])[0] == line[0];
    OneEnded(LineData, line);
    OneDispatched(StandardData, line);
  }

  // ------------------------------------------------------ the standard as a whole

  /** What the standard dispatches from a well-encoded stream. */
  function Standard(s: Bytes): seq<Bytes> {
    Dispatched(StandardData, Ended(Stripped(s)), [])
  }

  /** The client against the standard as a whole. From a stream that closes its
      last block the client delivers what the standard does exactly when it is
      well-encoded, the client refusing where the standard substitutes, and their
      lines read the same; from one that is and does so, exactly when it closes
      its last block. */
  lemma StandardExactly(utf8: Bytes -> bool, s: Bytes)
    ensures NothingTrails(StandardData, Stripped(s)) ==>
      (Meaning(utf8, s) == Ok(Standard(s)) <==> WellEncoded(utf8, s) && SameLines(s))
    ensures WellEncoded(utf8, s) && SameLines(s) ==>
      (Meaning(utf8, s) == Ok(Standard(s)) <==> NothingTrails(StandardData, Stripped(s)))
  {
    BareIsNoData();
    AgreeExactly(s);
    EndHolds(StandardData, Stripped(s));
  }

  lemma UnendedBare()
    ensures Lines(BARE) == [BARE] && Stripped(BARE) == BARE && Ended(BARE) == [] && Unended(BARE) == BARE
  {
    LinesOfPlain(BARE, []);
    assert BARE + [] == BARE;
    assert BARE[0] != BOM[0];
  }

  /** With neither, the differences may cancel out: a stream of one bare line and
      no end is nothing to both. */
  lemma DifferencesCancel()
    ensures !SameLines(BARE) && !NothingTrails(StandardData, Stripped(BARE)) && Standard(BARE) == Frames(BARE) == []
  {
    UnendedBare();
    BareIsNoData();
    assert Lines(BARE) == [BARE] + [];
    FramesByCons(LineData, BARE, [], []);
  }
}
