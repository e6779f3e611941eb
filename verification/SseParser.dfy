/**
 The client's incremental parser: a buffer with a moving read position, compacted
 now and then, fed one chunk at a time. However the stream is cut into chunks it
 delivers the frames the whole stream means, and compaction is never seen.
 */
module SseParsers {
  import opened Basics
  import opened SseSpec

  const MAX_SSE_EVENT_BYTES: nat := 16 * 1024 * 1024

  datatype SseError = TooLarge | NotUtf8 | Transport

  type Parsed = Result<seq<Bytes>, SseError>

  // ------------------------------------------------------ scanning the buffer

  function Shift(n: nat, found: Found): Found {
    match found
    case Nowhere => Nowhere
    case At(end, next) => At(n + end, n + next)
  }

  /** What a scan that has read the line from `start` up to `i` still has to
      find. */
  ghost predicate Scanned(whole: Found, buf: Bytes, start: nat, i: nat) {
    && start <= i <= |buf|
    && NextLine(buf[start..]) == Shift(i - start, NextLine(buf[i..]))
    && whole == Shift(start, FindEvent(buf[start..]))
  }

  lemma ScanByte(whole: Found, buf: Bytes, start: nat, i: nat)
    requires Scanned(whole, buf, start, i) && i < |buf| && buf[i] != LF && buf[i] != CR
    ensures Scanned(whole, buf, start, i + 1)
  {
    assert buf[i..][1..] == buf[i + 1..];
  }

  lemma FindEventSteps(s: Bytes, end: nat, next: nat, rest: Bytes)
    requires NextLine(s) == At(end, next) && rest == s[next..]
    ensures FindEvent(s) == if end == 0 then At(0, next) else Shift(next, FindEvent(rest))
  {
  }

  lemma ShiftTwice(m: nat, n: nat, found: Found)
    ensures Shift(m, Shift(n, found)) == Shift(m + n, found)
  {
  }

  /** The scan meets a blank line. */
  lemma ScanBlank(whole: Found, buf: Bytes, start: nat, next: nat)
    requires start < next <= |buf| && whole == Shift(start, FindEvent(buf[start..]))
    requires NextLine(buf[start..]) == At(0, next - start)
    ensures whole == At(start, next)
  {
    FindEventSteps(buf[start..], 0, next - start, buf[start..][next - start..]);
  }

  lemma ShiftOn(whole: Found, start: nat, next: nat, line: Found, later: Found)
    requires start <= next && whole == Shift(start, line) && line == Shift(next - start, later)
    ensures whole == Shift(next, later)
  {
    ShiftTwice(start, next - start, later);
  }

  /** The scan meets the end of the line from `start`. */
  lemma ScanLine(whole: Found, buf: Bytes, start: nat, i: nat, next: nat)
    requires start < i < next <= |buf| && whole == Shift(start, FindEvent(buf[start..]))
    requires NextLine(buf[start..]) == At(i - start, next - start)
    ensures whole == Shift(next, FindEvent(buf[next..]))
  {
    SlicesAfter(buf, start, 0, next - start);
    FindEventSteps(buf[start..], i - start, next - start, buf[next..]);
    ShiftOn(whole, start, next, FindEvent(buf[start..]), FindEvent(buf[next..]));
  }

  lemma ScanStarts(whole: Found, buf: Bytes, p: nat)
    requires p <= |buf| && whole == Shift(p, FindEvent(buf[p..]))
    ensures Scanned(whole, buf, p, p)
  {
  }

  lemma Terminates(buf: Bytes, i: nat, next: nat)
    requires i < next <= |buf|
    requires || (buf[i] == LF && next == i + 1)
             || (buf[i] == CR && i + 1 < |buf| && next == if buf[i + 1] == LF then i + 2 else i + 1)
    ensures NextLine(buf[i..]) == At(0, next - i)
  {
  }

  /** The scan meets a terminator that takes it to `next`. */
  lemma ScanTerminator(whole: Found, buf: Bytes, start: nat, i: nat, next: nat)
    requires Scanned(whole, buf, start, i) && i < next <= |buf| && NextLine(buf[i..]) == At(0, next - i)
    ensures if start == i then whole == At(start, next) else Scanned(whole, buf, next, next)
  {
    if start == i {
      ScanBlank(whole, buf, start, next);
    } else {
      ScanLine(whole, buf, start, i, next);
      ScanStarts(whole, buf, next);
    }
  }

  /** The line from `start` has no settled end. */
  lemma ScanStops(whole: Found, buf: Bytes, start: nat, i: nat)
    requires Scanned(whole, buf, start, i)
    requires i == |buf| || (i + 1 == |buf| && buf[i] == CR)
    ensures whole == Nowhere
  {
    assert NextLine(buf[i..]) == Nowhere;
    assert NextLine(buf[start..]) == Nowhere;
  }

  /** `(bytes of the event before the blank line, bytes to drop with it)`. */
  method ScanForEvent(buf: Bytes) returns (found: Found)
    ensures found == FindEvent(buf)
  {
    var i, start := 0, 0;
    ghost var whole := FindEvent(buf);
    assert buf[0..] == buf;
    ScanStarts(whole, buf, 0);
    while i < |buf|
      invariant Scanned(whole, buf, start, i)
    {
      var next;
      if buf[i] == LF {
        next := i + 1;
      } else if buf[i] == CR && i + 1 < |buf| && buf[i + 1] == LF {
        next := i + 2;
      } else if buf[i] == CR && i + 1 < |buf| {
        next := i + 1;
      } else if buf[i] == CR {
        ScanStops(whole, buf, start, i);
        return Nowhere;
      } else {
        ScanByte(whole, buf, start, i);
        i := i + 1;
        continue;
      }
      Terminates(buf, i, next);
      ScanTerminator(whole, buf, start, i, next);
      if start == i {
        return At(start, next);
      }
      i, start := next, next;
    }
    ScanStops(whole, buf, start, i);
    return Nowhere;
  }

  // ----------------------------------------------------------- reading a block

  lemma DataLinesSnoc(lines: seq<Bytes>, k: nat)
    requires k < |lines|
    ensures DataLines(lines[..k + 1]) == DataLines(lines[..k]) + LineData(lines[k])
  {
    assert lines[..k + 1] == lines[..k] + [lines[k]];
    FlatMapConcat(LineData, lines[..k], [lines[k]]);
    DataOfOne(lines[k]);
  }

  /** The frame of one block, if it has data; refused unless it is UTF-8. */
  method ReadBlock(utf8: Bytes -> bool, block: Bytes) returns (frame: Parsed)
    ensures frame == if utf8(block) then Ok(EventData(block)) else Err(NotUtf8)
  {
    if !utf8(block) {
      return Err(NotUtf8);
    }
    var lines := SplitLf(ReplaceCr(ReplaceCrLf(block)));
    var data: seq<Bytes> := [];
    for k := 0 to |lines|
      invariant data == DataLines(lines[..k])
    {
      DataLinesSnoc(lines, k);
      var line := lines[k];
      if line == [] || line[0] == COLON {
        continue;
      }
      if DATA <= line {
        var rest := line[|DATA|..];
        data := data + [if rest != [] && rest[0] == SPACE then rest[1..] else rest];
      }
    }
    assert lines[..|lines|] == lines;
    frame := Ok(if data == [] then [] else [Join(data)]);
  }

  // ---------------------------------------------------------------- the parser

  predicate AllUtf8(utf8: Bytes -> bool, blocks: seq<Bytes>) {
    forall i :: 0 <= i < |blocks| ==> utf8(blocks[i])
  }

  /** What reading these blocks gives. */
  function ReadBlocks(utf8: Bytes -> bool, blocks: seq<Bytes>): Parsed {
    if AllUtf8(utf8, blocks) then Ok(FramesOf(blocks)) else Err(NotUtf8)
  }

  /** One block comes off what is pending. */
  lemma DrainStep(utf8: Bytes -> bool, all: Cut, done: seq<Bytes>, pending: Bytes)
    requires FindEvent(pending).At? && all == Prepend(done, Segment(pending)) && AllUtf8(utf8, done)
    ensures var e := FindEvent(pending); var block := pending[..e.end];
      && all == Prepend(done + [block], Segment(pending[e.next..]))
      && FramesOf(done + [block]) == FramesOf(done) + EventData(block)
      && (if utf8(block) then AllUtf8(utf8, done + [block]) else !AllUtf8(utf8, all.blocks))
  {
    var e := FindEvent(pending);
    var block := pending[..e.end];
    SegmentTakes(pending);
    PrependTwice(done, block, Segment(pending[e.next..]));
    FramesOfSnoc(done, block);
    assert all.blocks[|done|] == block;
  }

  /** Nothing more comes off. */
  lemma DrainEnds(all: Cut, done: seq<Bytes>, pending: Bytes)
    requires FindEvent(pending).Nowhere? && all == Prepend(done, Segment(pending))
    ensures all == Cut(done, pending)
  {
    Appended(done, [], []);
  }

  class SseParser {
    const utf8: Bytes -> bool
    var buf: Bytes
    var pos: nat

    ghost predicate Valid()
      reads this
    {
      pos <= |buf|
    }

    /** The bytes not yet consumed. */
    function Pending(): Bytes
      requires Valid()
      reads this
    {
      buf[pos..]
    }

    constructor (utf8: Bytes -> bool)
      ensures Valid() && Pending() == [] && this.utf8 == utf8
    {
      this.utf8, buf, pos := utf8, [], 0;
    }

    /** Add a chunk and deliver the events it completes. The cap is on pending
        bytes plus the chunk, before any event in it is cut off. */
    method Push(chunk: Bytes) returns (r: Parsed)
      requires Valid()
      modifies this
      ensures Valid()
      ensures |old(Pending())| + |chunk| > MAX_SSE_EVENT_BYTES ==> r == Err(TooLarge) && Pending() == old(Pending())
      ensures |old(Pending())| + |chunk| <= MAX_SSE_EVENT_BYTES ==>
        var cut := Segment(old(Pending()) + chunk);
        && r == ReadBlocks(utf8, cut.blocks)
        && (r.Ok? ==> Pending() == cut.rest && |buf| <= 2 * MAX_SSE_EVENT_BYTES)
    {
      if |buf| - pos + |chunk| > MAX_SSE_EVENT_BYTES {
        return Err(TooLarge);
      }
      ghost var all := Pending() + chunk;
      buf := buf + chunk;
      assert Pending() == all;
      r := DrainEvents();
    }

    method DrainEvents() returns (r: Parsed)
      requires Valid() && |Pending()| <= MAX_SSE_EVENT_BYTES
      modifies this
      ensures Valid()
      ensures r == ReadBlocks(utf8, Segment(old(Pending())).blocks)
      ensures r.Ok? ==> Pending() == Segment(old(Pending())).rest && |buf| <= 2 * MAX_SSE_EVENT_BYTES
    {
      var out: seq<Bytes> := [];
      ghost var all := Segment(Pending());
      ghost var done: seq<Bytes> := [];
      Appended(all.blocks, [], []);
      while true
        invariant Valid() && |Pending()| <= MAX_SSE_EVENT_BYTES
        invariant all == Prepend(done, Segment(Pending()))
        invariant AllUtf8(utf8, done) && out == FramesOf(done)
        decreases |buf| - pos
      {
        ghost var pending := Pending();
        var found := ScanForEvent(buf[pos..]);
        if found.Nowhere? {
          DrainEnds(all, done, pending);
          break;
        }
        DrainStep(utf8, all, done, pending);
        var block := buf[pos..][..found.end];
        pos := pos + found.next;
        assert Pending() == pending[found.next..];
        var frame := ReadBlock(utf8, block);
        if frame.Err? {
          return Err(NotUtf8);
        }
        done := done + [block];
        out := out + frame.value;
      }
      if pos > 8192 && pos * 2 > |buf| {
        buf, pos := buf[pos..], 0;
      }
      r := Ok(out);
    }

    /** The stream ended: deliver the trailing block. */
    method Finish() returns (r: Parsed)
      requires Valid()
      modifies this
      ensures Valid() && Pending() == []
      ensures old(Pending()) == [] ==> r == Ok([])
      ensures old(Pending()) != [] ==>
        r == if utf8(old(Pending())) then Ok(EventData(old(Pending()))) else Err(NotUtf8)
    {
      if pos == |buf| {
        return Ok([]);
      }
      var block := buf[pos..];
      pos := |buf|;
      r := ReadBlock(utf8, block);
    }
  }
}
