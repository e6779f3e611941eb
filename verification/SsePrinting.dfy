/**
 Streams as a server prints them, and that they read back: data lines with or
 without the optional space, comments and other fields anywhere, and any mix of
 line endings.
 */
module SsePrinting {
  import opened Basics
  import opened SseSpec
  import opened SseStreams

  datatype Ending = EndLf | EndCrLf | EndCr {
    function Bytes(): Basics.Bytes {
      match this
      case EndLf => [LF]
      case EndCrLf => [CR, LF]
      case EndCr => [CR]
    }
  }

  ghost predicate Plain(s: Bytes) {
    forall i :: 0 <= i < |s| ==> s[i] != LF && s[i] != CR
  }

  const NAME: Bytes := [100, 97, 116, 97]  // "data"

  /** A line of an event: data, or another field, with a value or without. A
      comment is a field without a name. */
  datatype Item = Data(text: Bytes, spaced: bool) | Field(name: Bytes, value: Option<Bytes>) {
    function Line(): Bytes {
      match this
      case Data(t, spaced) => DATA + (if spaced then [SPACE] else []) + t
      case Field(n, v) => n + if v.Some? then [COLON] + v.value else []
    }

    /** Text that starts with a space needs the optional one before it. */
    ghost predicate Printable() {
      match this
      case Data(t, spaced) => Plain(t) && (spaced || t == [] || t[0] != SPACE)
      case Field(n, v) =>
        && Plain(n) && COLON !in n
        && if v.Some? then Plain(v.value) && n != NAME else n != []
    }
  }

  /** A line and what ends it. */
  datatype Ended = Ended(line: Bytes, end: Ending)

  /** An event: its lines, and the end of the blank line after them. */
  datatype Event = Event(items: seq<(Item, Ending)>, blank: Ending)

  function EventLines(items: seq<(Item, Ending)>, blank: Ending): seq<Ended> {
    if items == [] then [Ended([], blank)]
    else [Ended(items[0].0.Line(), items[0].1)] + EventLines(items[1..], blank)
  }

  function AllLines(events: seq<Event>): seq<Ended> {
    if events == [] then [] else EventLines(events[0].items, events[0].blank) + AllLines(events[1..])
  }

  function PrintLines(lines: seq<Ended>): Bytes {
    if lines == [] then [] else lines[0].line + lines[0].end.Bytes() + PrintLines(lines[1..])
  }

  function Print(events: seq<Event>): Bytes {
    PrintLines(AllLines(events))
  }

  function Texts(items: seq<(Item, Ending)>): seq<Bytes> {
    if items == [] then []
    else (if items[0].0.Data? then [items[0].0.text] else []) + Texts(items[1..])
  }

  /** What was printed: one frame for each event that has data. */
  function Printed(events: seq<Event>): seq<Bytes> {
    if events == [] then [] else Flush(Texts(events[0].items)) + Printed(events[1..])
  }

  /** No CR is followed by an LF that ends a blank line: the two would be one. */
  ghost predicate Apart(lines: seq<Ended>) {
    forall i :: 0 <= i < |lines| - 1 && lines[i].end == EndCr && lines[i + 1].line == [] ==> lines[i + 1].end != EndLf
  }

  ghost predicate Printable(events: seq<Event>) {
    && Apart(AllLines(events))
    && forall i, j :: 0 <= i < |events| && 0 <= j < |events[i].items| ==> events[i].items[j].0.Printable()
  }

  // ------------------------------------------------------------------ the lines

  function Heads(lines: seq<Ended>): seq<Bytes> {
    if lines == [] then [] else [lines[0].line] + Heads(lines[1..])
  }

  lemma {:induction false} HeadsConcat(a: seq<Ended>, b: seq<Ended>)
    ensures Heads(a + b) == Heads(a) + Heads(b)
  {
    if a == [] {
      assert a + b == b;
    } else {
      assert (a + b)[0] == a[0] && (a + b)[1..] == a[1..] + b;
      HeadsConcat(a[1..], b);
    }
  }

  lemma {:induction false} LinesOfPlain(line: Bytes, s: Bytes)
    requires Plain(line)
    ensures Lines(line + s) == [line + Lines(s)[0]] + Lines(s)[1..]
  {
    if line == [] {
      assert line + s == s;
      assert [] + Lines(s)[0] == Lines(s)[0];
    } else {
      assert (line + s)[1..] == line[1..] + s;
      LinesOfPlain(line[1..], s);
      var rest := Lines(line[1..] + s);
      assert TermLen(line + s) == 0;
      assert [line[0]] + (line[1..] + Lines(s)[0]) == line + Lines(s)[0];
      assert rest[1..] == Lines(s)[1..];
    }
  }

  lemma LinesOfEnding(end: Ending, s: Bytes)
    requires end == EndCr ==> s == [] || s[0] != LF
    ensures Lines(end.Bytes() + s) == [[]] + Lines(s)
  {
    var tail := end.Bytes() + s;
    assert TermLen(tail) == |end.Bytes()|;
    assert tail[|end.Bytes()|..] == s;
  }

  lemma LinesOfPrinted(line: Bytes, end: Ending, s: Bytes)
    requires Plain(line) && (end == EndCr ==> s == [] || s[0] != LF)
    ensures Lines(line + end.Bytes() + s) == [line] + Lines(s)
  {
    Appended(line, end.Bytes(), s);
    LinesOfPlain(line, end.Bytes() + s);
    LinesOfEnding(end, s);
    Appended(line, [], []);
  }

  /** Printed lines start with an LF only if the first is blank and ends on one. */
  lemma StartsPlain(lines: seq<Ended>)
    requires lines != [] && Plain(lines[0].line) && (lines[0].line == [] ==> lines[0].end != EndLf)
    ensures PrintLines(lines) != [] && PrintLines(lines)[0] != LF
  {
    var first := lines[0];
    assert PrintLines(lines)[0] == if first.line == [] then first.end.Bytes()[0] else first.line[0];
  }

  /** Printed lines read back as the same lines, whatever ends each. */
  lemma {:induction false} PrintedLines(lines: seq<Ended>)
    requires Apart(lines) && forall i :: 0 <= i < |lines| ==> Plain(lines[i].line)
    ensures Lines(PrintLines(lines)) == Heads(lines) + [[]]
  {
    if lines != [] {
      var first, rest := lines[0], lines[1..];
      assert forall i :: 0 <= i < |rest| ==> rest[i] == lines[i + 1];
      PrintedLines(rest);
      if rest != [] && first.end == EndCr {
        StartsPlain(rest);
      }
      LinesOfPrinted(first.line, first.end, PrintLines(rest));
      Appended([first.line], Heads(rest), [[]]);
    }
  }

  // ----------------------------------------------------------------- the fields

  /** A line whose name, up to the first colon, is another one is not a data line. */
  lemma OtherFieldIsNoData(item: Item)
    requires item.Field? && item.Printable()
    ensures LineData(item.Line()) == []
  {
    var line, n := item.Line(), item.name;
    if |n| > 4 {
      assert line[4] == n[4] && n[4] in n;
    } else if item.value.Some? {
      assert line[|n|] == COLON && line[..|n|] == n;
      assert |n| == 4 ==> line[..4] != DATA[..4];
      assert |n| < 4 ==> line[|n|] != DATA[|n|];
    }
  }

  lemma ItemData(item: Item)
    requires item.Printable()
    ensures LineData(item.Line()) == if item.Data? then [item.text] else []
    ensures item.Line() != []
  {
    if item.Data? {
      var rest := (if item.spaced then [SPACE] else []) + item.text;
      assert item.Line() == DATA + rest;
      assert item.Line()[|DATA|..] == rest;
      assert item.spaced ==> rest[1..] == item.text;
      assert !item.spaced ==> rest == item.text;
    } else {
      OtherFieldIsNoData(item);
    }
  }

  lemma {:induction false} EventReadsBack(items: seq<(Item, Ending)>, blank: Ending, later: seq<Bytes>, data: seq<Bytes>)
    requires forall j :: 0 <= j < |items| ==> items[j].0.Printable()
    ensures FramesFrom(Heads(EventLines(items, blank)) + later, data)
         == Flush(data + Texts(items)) + FramesFrom(later, [])
  {
    if items == [] {
      assert Heads(EventLines(items, blank)) == [[]];
      FramesCons([], later, data);
      Appended(data, [], []);
    } else {
      ItemData(items[0].0);
      var line := items[0].0.Line();
      var rest := Heads(EventLines(items[1..], blank));
      assert Heads(EventLines(items, blank)) == [line] + rest;
      EventReadsBack(items[1..], blank, later, data + LineData(line));
      Appended([line], rest, later);
      FramesCons(line, rest + later, data);
      Appended(data, LineData(line), Texts(items[1..]));
    }
  }

  lemma {:induction false} EventsReadBack(events: seq<Event>)
    requires forall i, j :: 0 <= i < |events| && 0 <= j < |events[i].items| ==> events[i].items[j].0.Printable()
    ensures FramesFrom(Heads(AllLines(events)) + [[]], []) == Printed(events)
  {
    if events == [] {
      assert Heads(AllLines(events)) + [[]] == [[]];
      assert FramesFrom([[]], []) == Flush([]) + FramesFrom([], []);
    } else {
      var first, rest := EventLines(events[0].items, events[0].blank), AllLines(events[1..]);
      EventsReadBack(events[1..]);
      HeadsConcat(first, rest);
      Appended(Heads(first), Heads(rest), [[]]);
      EventReadsBack(events[0].items, events[0].blank, Heads(rest) + [[]], []);
      Appended(Texts(events[0].items), [], []);
    }
  }

  lemma PrintablePlain(item: Item)
    requires item.Printable()
    ensures Plain(item.Line())
  {
  }

  lemma {:induction false} EventLinesPlain(items: seq<(Item, Ending)>, blank: Ending)
    requires forall j :: 0 <= j < |items| ==> items[j].0.Printable()
    ensures forall i :: 0 <= i < |EventLines(items, blank)| ==> Plain(EventLines(items, blank)[i].line)
  {
    if items != [] {
      PrintablePlain(items[0].0);
      EventLinesPlain(items[1..], blank);
    }
  }

  lemma {:induction false} AllLinesPlain(events: seq<Event>)
    requires forall i, j :: 0 <= i < |events| && 0 <= j < |events[i].items| ==> events[i].items[j].0.Printable()
    ensures forall i :: 0 <= i < |AllLines(events)| ==> Plain(AllLines(events)[i].line)
  {
    if events != [] {
      EventLinesPlain(events[0].items, events[0].blank);
      AllLinesPlain(events[1..]);
    }
  }

  /** Printed events, with the optional space or without it, with comments and
      other fields anywhere and with any mix of line endings, read back as the
      data printed, under every chunking the cap allows. */
  lemma RoundTrip(utf8: Bytes -> bool, events: seq<Event>, chunks: Chunks)
    requires Printable(events) && Concat(chunks) == Print(events)
    requires Fits([], chunks) && WellEncoded(utf8, Print(events))
    ensures Feed(utf8, [], [], chunks) == Ok(Printed(events))
  {
    ChunkingIndependence(utf8, chunks);
    AllLinesPlain(events);
    PrintedLines(AllLines(events));
    EventsReadBack(events);
  }

  /** Any text without CR is the frame its lines print. */
  lemma {:induction false} JoinSplits(s: Bytes)
    ensures Join(SplitLf(s)) == s
  {
    if s != [] {
      JoinSplits(s[1..]);
      var rest := SplitLf(s[1..]);
      if s[0] == LF {
        assert ([[]] + rest)[1..] == rest;
        assert Join([[]] + rest) == [] + [LF] + Join(rest);
      } else if |rest| > 1 {
        assert ([[s[0]] + rest[0]] + rest[1..])[1..] == rest[1..];
        assert Join(SplitLf(s)) == [s[0]] + rest[0] + [LF] + Join(rest[1..]) == [s[0]] + Join(rest);
      }
    }
  }

  lemma {:induction false} PrintedTexts(texts: seq<Bytes>, events: seq<Event>)
    requires |events| == |texts| && forall i :: 0 <= i < |texts| ==> Texts(events[i].items) == SplitLf(texts[i])
    ensures Printed(events) == texts
  {
    if texts != [] {
      JoinSplits(texts[0]);
      PrintedTexts(texts[1..], events[1..]);
    }
  }

  /** A list of texts printed as the data lines of one event each, with anything
      else in between, comes back as that list. */
  lemma FramesComeBack(utf8: Bytes -> bool, texts: seq<Bytes>, events: seq<Event>, chunks: Chunks)
    requires |events| == |texts| && forall i :: 0 <= i < |texts| ==> Texts(events[i].items) == SplitLf(texts[i])
    requires Printable(events) && Concat(chunks) == Print(events)
    requires Fits([], chunks) && WellEncoded(utf8, Print(events))
    ensures Feed(utf8, [], [], chunks) == Ok(texts)
  {
    RoundTrip(utf8, events, chunks);
    PrintedTexts(texts, events);
  }
}
