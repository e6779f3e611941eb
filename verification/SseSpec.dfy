/**
 Server-sent events over bytes: what a stream means, and how the client's
 parser cuts it.

 `Frames(Lines(s))` is the meaning, in the style of sections 9.2.5 and 9.2.6 of
 the WHATWG HTML standard: lines end on LF, CRLF or a lone CR, a blank line
 dispatches the data lines collected so far, other fields and comments are
 dropped. As the client does, a block at the end of the stream is delivered
 without its blank line, only `data:` with its colon is a data line, and a byte
 order mark is a character like any other.

 `FindEvent`, `Segment` and `EventData` are how the client computes it.
 */
module SseSpec {
  import opened Basics

  const LF: byte := 10
  const CR: byte := 13
  const COLON: byte := 58
  const SPACE: byte := 32
  const DATA: Bytes := [100, 97, 116, 97, 58]  // "data:"

  // ------------------------------------------------------------- the meaning

  /** How long the line terminator at the start of `s` is. */
  function TermLen(s: Bytes): (n: nat)
    ensures n <= |s| && n <= 2
  {
    if s == [] then 0
    else if s[0] == LF then 1
    else if s[0] != CR then 0
    else if |s| > 1 && s[1] == LF then 2
    else 1
  }

  /** The lines of `s`; the last one is what follows the last terminator. */
  function Lines(s: Bytes): (lines: seq<Bytes>)
    ensures lines != []
    decreases |s|
  {
    if s == [] then [[]]
    else if TermLen(s) > 0 then [[]] + Lines(s[TermLen(s)..])
    else var rest := Lines(s[1..]); [[s[0]] + rest[0]] + rest[1..]
  }

  /** The data a line adds: nothing, or one line. */
  function LineData(line: Bytes): seq<Bytes> {
    if !(DATA <= line) then []
    else
      var rest := line[|DATA|..];
      [if rest != [] && rest[0] == SPACE then rest[1..] else rest]
  }

  function DataLines(lines: seq<Bytes>): seq<Bytes> {
    FlatMap(LineData, lines)
  }

  function Join(lines: seq<Bytes>): Bytes {
    if lines == [] then []
    else if |lines| == 1 then lines[0]
    else lines[0] + [LF] + Join(lines[1..])
  }

  /** The frame that collected data lines make, if any. */
  function Flush(data: seq<Bytes>): seq<Bytes> {
    if data == [] then [] else [Join(data)]
  }

  /** The frames of lines, with `data` collected before them and `f` telling what
      a line adds. */
  function FramesBy(f: Bytes -> seq<Bytes>, lines: seq<Bytes>, data: seq<Bytes>): seq<Bytes> {
    if lines == [] then Flush(data)
    else if lines[0] == [] then Flush(data) + FramesBy(f, lines[1..], [])
    else FramesBy(f, lines[1..], data + f(lines[0]))
  }

  function FramesFrom(lines: seq<Bytes>, data: seq<Bytes>): seq<Bytes> {
    FramesBy(LineData, lines, data)
  }

  /** The frames a whole stream delivers. */
  function Frames(s: Bytes): seq<Bytes> {
    FramesFrom(Lines(s), [])
  }

  // --------------------------------------------------------- the client's cut

  /** Something found: where it ends, and where what follows it starts. */
  datatype Found = Nowhere | At(end: nat, next: nat)

  /** Where the first line ends and the next one starts, once that is known: a
      CR that ends the buffer may still be half of a CRLF. */
  function NextLine(s: Bytes): (found: Found)
    ensures found.At? ==> found.end < found.next <= |s|
  {
    if s == [] then Nowhere
    else if s[0] == LF then At(0, 1)
    else if s[0] == CR then if |s| == 1 then Nowhere else At(0, TermLen(s))
    else match NextLine(s[1..])
      case Nowhere => Nowhere
      case At(end, next) => At(end + 1, next + 1)
  }

  /** The first event: its length before the blank line, and with it. */
  function FindEvent(s: Bytes): (found: Found)
    ensures found.At? ==> found.end < found.next <= |s|
    decreases |s|
  {
    match NextLine(s)
    case Nowhere => Nowhere
    case At(lineEnd, lineNext) =>
      if lineEnd == 0 then At(0, lineNext)
      else match FindEvent(s[lineNext..])
        case Nowhere => Nowhere
        case At(end, next) => At(lineNext + end, lineNext + next)
  }

  /** The complete event blocks of a buffer, and the bytes after them. */
  datatype Cut = Cut(blocks: seq<Bytes>, rest: Bytes)

  function Segment(s: Bytes): (cut: Cut)
    ensures |cut.rest| <= |s|
    decreases |s|
  {
    match FindEvent(s)
    case Nowhere => Cut([], s)
    case At(end, next) =>
      var later := Segment(s[next..]);
      Cut([s[..end]] + later.blocks, later.rest)
  }

  function ReplaceCrLf(s: Bytes): Bytes
    decreases |s|
  {
    if s == [] then []
    else if s[0] == CR && |s| > 1 && s[1] == LF then [LF] + ReplaceCrLf(s[2..])
    else [s[0]] + ReplaceCrLf(s[1..])
  }

  function ReplaceCr(s: Bytes): Bytes {
    if s == [] then [] else [if s[0] == CR then LF else s[0]] + ReplaceCr(s[1..])
  }

  function SplitLf(s: Bytes): (parts: seq<Bytes>)
    ensures parts != []
  {
    if s == [] then [[]]
    else if s[0] == LF then [[]] + SplitLf(s[1..])
    else var rest := SplitLf(s[1..]); [[s[0]] + rest[0]] + rest[1..]
  }

  /** The frame of one block: normalise terminators, split, keep data lines. */
  function EventData(block: Bytes): seq<Bytes> {
    Flush(DataLines(SplitLf(ReplaceCr(ReplaceCrLf(block)))))
  }

  function FramesOf(blocks: seq<Bytes>): seq<Bytes> {
    FlatMap(EventData, blocks)
  }

  // --------------------------------------------- the cut keeps the meaning

  /** Normalising and splitting is the standard's line splitting. */
  lemma {:induction false} SplitsLikeLines(s: Bytes)
    ensures SplitLf(ReplaceCr(ReplaceCrLf(s))) == Lines(s)
    decreases |s|
  {
    if s != [] {
      var n := TermLen(s);
      if n == 2 {
        SplitsLikeLines(s[2..]);
        assert ReplaceCrLf(s) == [LF] + ReplaceCrLf(s[2..]);
        assert ReplaceCr(ReplaceCrLf(s)) == [LF] + ReplaceCr(ReplaceCrLf(s[2..]));
      } else {
        SplitsLikeLines(s[1..]);
        assert ReplaceCrLf(s) == [s[0]] + ReplaceCrLf(s[1..]);
        assert ReplaceCr(ReplaceCrLf(s)) == [if s[0] == CR then LF else s[0]] + ReplaceCr(ReplaceCrLf(s[1..]));
      }
    }
  }

  /** A first byte that ends no line is the first of the first line. */
  lemma LinesCons(s: Bytes)
    requires s != [] && TermLen(s) == 0
    ensures Lines(s) == [[s[0]] + Lines(s[1..])[0]] + Lines(s[1..])[1..]
  {
  }

  lemma SlicesAgree(s: Bytes, cut: Bytes, end: nat, next: nat)
    requires cut <= s && end < next <= |cut| - 1
    ensures cut[1..] <= s[1..] && cut[1..][next..] == cut[next + 1..]
    ensures [s[0]] + s[1..][..end] == s[..end + 1]
  {
  }

  /** Cutting at a line start does not change the first line. */
  lemma {:induction false} PrefixLines(s: Bytes, cut: Bytes, rest: Bytes)
    requires NextLine(s).At? && NextLine(s).next <= |cut| && cut <= s && rest == cut[NextLine(s).next..]
    ensures Lines(cut) == [s[..NextLine(s).end]] + Lines(rest)
    decreases |s|
  {
    if s[0] == LF || s[0] == CR {
      assert s[..0] == [];
      assert TermLen(cut) == TermLen(s);
    } else {
      var at := NextLine(s[1..]);
      SlicesAgree(s, cut, at.end, at.next);
      PrefixLines(s[1..], cut[1..], rest);
      LinesCons(cut);
    }
  }

  lemma NextLineIsFirst(s: Bytes)
    requires NextLine(s).At?
    ensures Lines(s) == [s[..NextLine(s).end]] + Lines(s[NextLine(s).next..])
  {
    PrefixLines(s, s, s[NextLine(s).next..]);
  }

  /** Reading one more line before a block. */
  lemma BlockGrows(line: Bytes, lines: seq<Bytes>, data: seq<Bytes>)
    ensures (data + LineData(line)) + DataLines(lines) == data + DataLines([line] + lines)
  {
    FlatMapCons(LineData, line, lines);
    Appended(data, LineData(line), DataLines(lines));
  }

  /** An event that begins with a line goes on as the event after the line. */
  lemma EventAfterLine(s: Bytes)
    requires FindEvent(s).At? && NextLine(s).end > 0
    ensures var next := NextLine(s).next;
      && FindEvent(s[next..]).At?
      && FindEvent(s) == At(next + FindEvent(s[next..]).end, next + FindEvent(s[next..]).next)
  {
  }

  lemma SlicesAfter(s: Bytes, next: nat, end: nat, past: nat)
    requires next + end <= |s| && next + past <= |s|
    ensures s[next + past..] == s[next..][past..] && s[..next + end][next..] == s[next..][..end]
  {
  }

  /** A block of more than a blank line is its first line and a block. */
  lemma BlockShape(s: Bytes)
    requires FindEvent(s).At? && NextLine(s).end > 0
    ensures FindEvent(s[NextLine(s).next..]).At?
    ensures var rest := s[NextLine(s).next..];
      Lines(s[..FindEvent(s).end]) == [s[..NextLine(s).end]] + Lines(rest[..FindEvent(rest).end])
  {
    EventAfterLine(s);
    BlockShapeAt(s, NextLine(s), FindEvent(s).end, FindEvent(s[NextLine(s).next..]).end);
  }

  lemma BlockShapeAt(s: Bytes, at: Found, end: nat, m: nat)
    requires NextLine(s) == at && at.At? && end == at.next + m && end <= |s|
    ensures Lines(s[..end]) == [s[..at.end]] + Lines(s[at.next..][..m])
  {
    SlicesAfter(s, at.next, m, 0);
    PrefixLines(s, s[..end], s[at.next..][..m]);
  }

  lemma BlockRest(s: Bytes)
    requires FindEvent(s).At? && NextLine(s).end > 0
    ensures FindEvent(s[NextLine(s).next..]).At?
    ensures var rest := s[NextLine(s).next..]; s[FindEvent(s).next..] == rest[FindEvent(rest).next..]
  {
    EventAfterLine(s);
    var next := NextLine(s).next;
    SlicesAfter(s, next, 0, FindEvent(s[next..]).next);
  }

  lemma DataOfOne(line: Bytes)
    ensures DataLines([line]) == LineData(line)
  {
    assert [line] == [line] + [];
    FlatMapCons(LineData, line, []);
  }

  lemma FramesByCons(f: Bytes -> seq<Bytes>, line: Bytes, lines: seq<Bytes>, data: seq<Bytes>)
    ensures FramesBy(f, [line] + lines, data)
         == if line == [] then Flush(data) + FramesBy(f, lines, []) else FramesBy(f, lines, data + f(line))
  {
    assert ([line] + lines)[1..] == lines;
  }

  lemma FramesCons(line: Bytes, lines: seq<Bytes>, data: seq<Bytes>)
    ensures FramesFrom([line] + lines, data)
         == if line == [] then Flush(data) + FramesFrom(lines, []) else FramesFrom(lines, data + LineData(line))
  {
    FramesByCons(LineData, line, lines, data);
  }

  lemma NoLinesNoData(data: seq<Bytes>)
    ensures data + DataLines(Lines([])) == data
  {
    assert Lines([]) == [[]];
    DataOfOne([]);
  }

  /** One line more in front of lines read so far. */
  lemma BlockStep(line: Bytes, all: seq<Bytes>, block: seq<Bytes>, later: seq<Bytes>, data: seq<Bytes>)
    requires line != []
    requires FramesFrom(all, data + LineData(line)) == Flush((data + LineData(line)) + DataLines(block)) + FramesFrom(later, [])
    ensures FramesFrom([line] + all, data) == Flush(data + DataLines([line] + block)) + FramesFrom(later, [])
  {
    FramesCons(line, all, data);
    BlockGrows(line, block, data);
  }

  /** A block read line by line adds its data lines to those collected. */
  lemma {:induction false} FramesPastBlock(s: Bytes, data: seq<Bytes>)
    requires FindEvent(s).At?
    ensures var e := FindEvent(s);
      FramesFrom(Lines(s), data) == Flush(data + DataLines(Lines(s[..e.end]))) + FramesFrom(Lines(s[e.next..]), [])
    decreases |s|
  {
    var at := NextLine(s);
    var line, rest := s[..at.end], s[at.next..];
    NextLineIsFirst(s);
    if at.end == 0 {
      assert line == [];
      FramesCons(line, Lines(rest), data);
      NoLinesNoData(data);
    } else {
      BlockShape(s);
      BlockRest(s);
      FramesPastBlock(rest, data + LineData(line));
      var f := FindEvent(rest);
      BlockStep(line, Lines(rest), Lines(rest[..f.end]), Lines(rest[f.next..]), data);
    }
  }

  lemma NoEventFrames(s: Bytes)
    requires FindEvent(s).Nowhere?
    ensures EventData(s) == Frames(s)
  {
    SplitsLikeLines(s);
    NoEventNoBlank(s, []);
    Appended(DataLines(Lines(s)), [], []);
  }

  lemma FirstEventFrames(s: Bytes)
    requires FindEvent(s).At?
    ensures Frames(s) == EventData(s[..FindEvent(s).end]) + Frames(s[FindEvent(s).next..])
  {
    var block := s[..FindEvent(s).end];
    FramesPastBlock(s, []);
    SplitsLikeLines(block);
    Appended(DataLines(Lines(block)), [], []);
  }

  /** Cutting a stream into blocks and reading each keeps its meaning. */
  lemma {:induction false} SegmentKeepsFrames(s: Bytes)
    ensures FramesOf(Segment(s).blocks) + EventData(Segment(s).rest) == Frames(s)
    decreases |s|
  {
    match FindEvent(s)
    case Nowhere =>
      NoEventFrames(s);
      Appended(EventData(s), [], []);
    case At(end, next) =>
      var cut := Segment(s[next..]);
      FirstEventFrames(s);
      SegmentKeepsFrames(s[next..]);
      FlatMapCons(EventData, s[..end], cut.blocks);
      Appended(EventData(s[..end]), FramesOf(cut.blocks), EventData(cut.rest));
  }

  /** Without a complete event the rest is one block. */
  lemma {:induction false} NoEventNoBlank(s: Bytes, data: seq<Bytes>)
    requires FindEvent(s).Nowhere?
    ensures FramesFrom(Lines(s), data) == Flush(data + DataLines(Lines(s)))
    decreases |s|
  {
    if NextLine(s).At? {
      var at := NextLine(s);
      NextLineIsFirst(s);
      NoEventNoBlank(s[at.next..], data + LineData(s[..at.end]));
      BlockGrows(s[..at.end], Lines(s[at.next..]), data);
      assert Lines(s)[1..] == Lines(s[at.next..]);
    } else {
      LastLines(s);
      if |Lines(s)| == 1 {
        assert Lines(s) == [Lines(s)[0]];
        OneLine(Lines(s)[0], data);
      } else {
        TwoLines(Lines(s)[0], data);
        assert Lines(s) == [Lines(s)[0], []];
      }
    }
  }

  /** Bytes with no settled terminator are one line, or one line and a CR. */
  lemma {:induction false} LastLines(s: Bytes)
    requires NextLine(s).Nowhere?
    ensures |Lines(s)| == 1 || (|Lines(s)| == 2 && Lines(s)[1] == [])
  {
    if s != [] && s[0] != CR {
      LastLines(s[1..]);
    }
  }

  lemma OneLine(line: Bytes, data: seq<Bytes>)
    ensures FramesFrom([line], data) == Flush(data + DataLines([line]))
  {
    DataOfOne(line);
    Appended(data, [], []);
    assert [line] == [line] + [];
    FramesCons(line, [], data);
  }

  lemma TwoLines(line: Bytes, data: seq<Bytes>)
    ensures FramesFrom([line, []], data) == Flush(data + DataLines([line, []]))
  {
    assert [line, []] == [line] + [[]];
    FlatMapCons(LineData, line, [[]]);
    DataOfOne([]);
    Appended(LineData(line), [], []);
    Appended(data, [], []);
    FramesCons(line, [[]], data);
    OneLine([], data + LineData(line));
    OneLine([], []);
    Appended(data + LineData(line), [], []);
  }

  // ------------------------------------------------ appending keeps the cut

  lemma {:induction false} NextLineStable(a: Bytes, b: Bytes)
    requires NextLine(a).At?
    ensures NextLine(a + b) == NextLine(a)
  {
    if a[0] != LF && a[0] != CR {
      NextLineStable(a[1..], b);
      assert (a + b)[1..] == a[1..] + b;
    }
  }

  /** An event once found stays found: more bytes never change the answer. */
  lemma {:induction false} FindEventStable(a: Bytes, b: Bytes)
    requires FindEvent(a).At?
    ensures FindEvent(a + b) == FindEvent(a)
    decreases |a|
  {
    NextLineStable(a, b);
    var at := NextLine(a);
    if at.end > 0 {
      FindEventStable(a[at.next..], b);
      assert (a + b)[at.next..] == a[at.next..] + b;
    }
  }

  /** Put blocks before a cut. */
  function Prepend(blocks: seq<Bytes>, cut: Cut): Cut {
    Cut(blocks + cut.blocks, cut.rest)
  }

  /** The first block comes off a buffer. */
  lemma SegmentTakes(s: Bytes)
    requires FindEvent(s).At?
    ensures var e := FindEvent(s); Segment(s) == Prepend([s[..e.end]], Segment(s[e.next..]))
  {
  }

  lemma PrependTwice(done: seq<Bytes>, block: Bytes, cut: Cut)
    ensures Prepend(done, Prepend([block], cut)) == Prepend(done + [block], cut)
  {
    Appended(done, [block], cut.blocks);
  }

  lemma FramesOfSnoc(done: seq<Bytes>, block: Bytes)
    ensures FramesOf(done + [block]) == FramesOf(done) + EventData(block)
  {
    FlatMapConcat(EventData, done, [block]);
    assert [block] == [block] + [];
    FlatMapCons(EventData, block, []);
  }

  lemma FirstBlockStable(a: Bytes, b: Bytes)
    requires FindEvent(a).At?
    ensures var e := FindEvent(a); Segment(a + b) == Prepend([a[..e.end]], Segment(a[e.next..] + b))
  {
    var e := FindEvent(a);
    FindEventStable(a, b);
    assert (a + b)[e.next..] == a[e.next..] + b;
    assert (a + b)[..e.end] == a[..e.end];
  }

  /** Cutting what came so far, then the rest with what comes next, is cutting
      it all at once. */
  lemma {:induction false} SegmentAppends(a: Bytes, b: Bytes)
    ensures Segment(a + b) == Prepend(Segment(a).blocks, Segment(Segment(a).rest + b))
    decreases |a|
  {
    if FindEvent(a).Nowhere? {
      Appended(Segment(a + b).blocks, [], []);
    } else {
      var e := FindEvent(a);
      FirstBlockStable(a, b);
      SegmentAppends(a[e.next..], b);
      var later := Segment(a[e.next..]);
      assert Segment(a) == Prepend([a[..e.end]], later);
      Appended([a[..e.end]], later.blocks, Segment(later.rest + b).blocks);
    }
  }
}
