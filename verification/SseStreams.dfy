/**
 Whole streams: chunking independence, the size cap, and the print/parse round
 trip.
 */
module SseStreams {
  import opened Basics
  import opened SseSpec
  import opened SseParsers

  /** The chunks of a response body; `None` is a transport failure. */
  type Chunks = seq<Option<Bytes>>

  /** The trailing block at the end of the stream. */
  function AtEnd(utf8: Bytes -> bool, pending: Bytes): Parsed {
    if pending == [] then Ok([])
    else if utf8(pending) then Ok(EventData(pending)) else Err(NotUtf8)
  }

  /** What feeding these chunks to a parser with these bytes pending gives. */
  function Feed(utf8: Bytes -> bool, pending: Bytes, out: seq<Bytes>, chunks: Chunks): Parsed
    decreases |chunks|
  {
    if chunks == [] then
      var last := AtEnd(utf8, pending);
      if last.Ok? then Ok(out + last.value) else last
    else if chunks[0].None? then Err(Transport)
    else if |pending| + |chunks[0].value| > MAX_SSE_EVENT_BYTES then Err(TooLarge)
    else
      var cut := Segment(pending + chunks[0].value);
      var read := ReadBlocks(utf8, cut.blocks);
      if read.Err? then read else Feed(utf8, cut.rest, out + read.value, chunks[1..])
  }

  /** Collect the frames of a response body. */
  method ParseStream(utf8: Bytes -> bool, chunks: Chunks) returns (r: Parsed)
    ensures r == Feed(utf8, [], [], chunks)
  {
    var parser := new SseParser(utf8);
    var out: seq<Bytes> := [];
    for k := 0 to |chunks|
      invariant parser.Valid() && fresh(parser) && parser.utf8 == utf8
      invariant Feed(utf8, [], [], chunks) == Feed(utf8, parser.Pending(), out, chunks[k..])
    {
      assert chunks[k..][1..] == chunks[k + 1..];
      match chunks[k]
      case None =>
        return Err(Transport);
      case Some(chunk) =>
        var frames := parser.Push(chunk);
        if frames.Err? {
          return frames;
        }
        out := out + frames.value;
    }
    var last := parser.Finish();
    r := if last.Ok? then Ok(out + last.value) else last;
  }

  // ----------------------------------------------------- chunking independence

  function Concat(chunks: Chunks): Bytes {
    if chunks == [] then []
    else (if chunks[0].Some? then chunks[0].value else []) + Concat(chunks[1..])
  }

  /** How the bytes before chunk `k` are cut: the events complete by then, and
      what is pending when the chunk comes. */
  function CutBefore(s: Bytes, chunks: Chunks, k: nat): Cut
    requires k <= |chunks|
  {
    Segment(s + Concat(chunks[..k]))
  }

  /** Chunk `k` and what is pending when it comes exceed the cap. */
  predicate Exceeds(s: Bytes, chunks: Chunks, k: nat) {
    k < |chunks| && chunks[k].Some? && |CutBefore(s, chunks, k).rest| + |chunks[k].value| > MAX_SSE_EVENT_BYTES
  }

  /** No chunk is lost and none exceeds the cap with what is pending. */
  ghost predicate Fits(s: Bytes, chunks: Chunks) {
    && (forall k :: 0 <= k < |chunks| ==> chunks[k].Some?)
    && forall k: nat :: k < |chunks| ==> !Exceeds(s, chunks, k)
  }

  /** Every block of the stream is UTF-8. */
  predicate WellEncoded(utf8: Bytes -> bool, s: Bytes) {
    AllUtf8(utf8, Segment(s).blocks) && (Segment(s).rest == [] || utf8(Segment(s).rest))
  }

  /** What the stream means, or its one refusal. */
  function Meaning(utf8: Bytes -> bool, s: Bytes): Parsed {
    if WellEncoded(utf8, s) then Ok(Frames(s)) else Err(NotUtf8)
  }

  /** The same, computed from the cut of the bytes still pending. */
  function OneShot(utf8: Bytes -> bool, out: seq<Bytes>, s: Bytes): Parsed {
    if WellEncoded(utf8, s) then Ok(out + (FramesOf(Segment(s).blocks) + EventData(Segment(s).rest))) else Err(NotUtf8)
  }

  lemma EmptyBlock()
    ensures EventData([]) == [] && Segment([]) == Cut([], [])
  {
    DataOfOne([]);
  }

  lemma AllUtf8Concat(utf8: Bytes -> bool, a: seq<Bytes>, b: seq<Bytes>)
    ensures AllUtf8(utf8, a + b) <==> AllUtf8(utf8, a) && AllUtf8(utf8, b)
  {
    if AllUtf8(utf8, a + b) {
      assert forall i :: 0 <= i < |a| ==> (a + b)[i] == a[i];
      assert forall i :: 0 <= i < |b| ==> (a + b)[|a| + i] == b[i];
    }
  }

  /** Taking one chunk first changes nothing about the whole. */
  lemma ChunkFirst(utf8: Bytes -> bool, out: seq<Bytes>, s: Bytes, later: Bytes)
    ensures var cut := Segment(s);
      OneShot(utf8, out, s + later)
        == if AllUtf8(utf8, cut.blocks) then OneShot(utf8, out + FramesOf(cut.blocks), cut.rest + later) else Err(NotUtf8)
  {
    var cut := Segment(s);
    var rest := Segment(cut.rest + later);
    SegmentAppends(s, later);
    AllUtf8Concat(utf8, cut.blocks, rest.blocks);
    FlatMapConcat(EventData, cut.blocks, rest.blocks);
    Appended(FramesOf(cut.blocks), FramesOf(rest.blocks), EventData(rest.rest));
    Appended(out, FramesOf(cut.blocks), FramesOf(rest.blocks) + EventData(rest.rest));
  }

  /** What is left pending never holds a complete event. */
  lemma {:induction false} RestHasNoEvent(s: Bytes)
    ensures FindEvent(Segment(s).rest).Nowhere?
    decreases |s|
  {
    if FindEvent(s).At? {
      RestHasNoEvent(s[FindEvent(s).next..]);
    }
  }

  /** Past the first chunk, the cut is that of what the first chunk left. */
  lemma CutShifts(s: Bytes, chunks: Chunks, k: nat)
    requires k < |chunks| && chunks[0].Some?
    ensures var cut := Segment(s + chunks[0].value);
      CutBefore(s, chunks, k + 1) == Prepend(cut.blocks, CutBefore(cut.rest, chunks[1..], k))
  {
    var later := chunks[1..][..k];
    assert chunks[..k + 1][0] == chunks[0] && chunks[..k + 1][1..] == later;
    Appended(s, chunks[0].value, Concat(later));
    SegmentAppends(s + chunks[0].value, Concat(later));
  }

  lemma CutAtFirst(s: Bytes, chunks: Chunks)
    requires FindEvent(s).Nowhere?
    ensures CutBefore(s, chunks, 0) == Cut([], s)
  {
    assert chunks[..0] == [];
    Appended(s, [], []);
  }

  lemma ExceedsShifts(s: Bytes, chunks: Chunks, k: nat)
    requires k + 1 < |chunks| && chunks[0].Some?
    ensures Exceeds(s, chunks, k + 1) <==> Exceeds(Segment(s + chunks[0].value).rest, chunks[1..], k)
  {
    CutShifts(s, chunks, k);
  }

  lemma ExceedsFirst(s: Bytes, chunks: Chunks)
    requires FindEvent(s).Nowhere? && chunks != [] && chunks[0].Some?
    ensures Exceeds(s, chunks, 0) <==> |s| + |chunks[0].value| > MAX_SSE_EVENT_BYTES
  {
    CutAtFirst(s, chunks);
  }

  lemma FitsOn(s: Bytes, chunks: Chunks, rest: Bytes)
    requires Fits(s, chunks) && FindEvent(s).Nowhere? && chunks != []
    requires chunks[0].Some? ==> rest == Segment(s + chunks[0].value).rest
    ensures chunks[0].Some? && |s| + |chunks[0].value| <= MAX_SSE_EVENT_BYTES && Fits(rest, chunks[1..])
  {
    ExceedsFirst(s, chunks);
    forall k: nat | k < |chunks[1..]| ensures !Exceeds(rest, chunks[1..], k) {
      ExceedsShifts(s, chunks, k);
    }
  }

  lemma {:induction false} FeedIsOneShot(utf8: Bytes -> bool, pending: Bytes, out: seq<Bytes>, chunks: Chunks)
    requires Fits(pending, chunks) && FindEvent(pending).Nowhere?
    ensures Feed(utf8, pending, out, chunks) == OneShot(utf8, out, pending + Concat(chunks))
    decreases |chunks|
  {
    if chunks == [] {
      Appended(pending, [], []);
      Appended(EventData(pending), [], []);
      EmptyBlock();
    } else {
      var chunk, later := chunks[0].value, Concat(chunks[1..]);
      var cut := Segment(pending + chunk);
      FitsOn(pending, chunks, cut.rest);
      Appended(pending, chunk, later);
      ChunkFirst(utf8, out, pending + chunk, later);
      RestHasNoEvent(pending + chunk);
      FeedIsOneShot(utf8, cut.rest, out + FramesOf(cut.blocks), chunks[1..]);
    }
  }

  /** However a stream is cut, as long as the cap is never tripped the parser
      delivers what the whole stream means, or the same refusal. */
  lemma ChunkingIndependence(utf8: Bytes -> bool, chunks: Chunks)
    requires Fits([], chunks)
    ensures Feed(utf8, [], [], chunks) == Meaning(utf8, Concat(chunks))
  {
    EmptyBlock();
    FeedIsOneShot(utf8, [], [], chunks);
    Appended(Concat(chunks), [], []);
    SegmentKeepsFrames(Concat(chunks));
    Appended(Frames(Concat(chunks)), [], []);
  }

  // -------------------------------------------------------------------- the cap

  /** Everything before chunk `k` arrived and could be read, and the chunk with
      what is then pending exceeds the cap. */
  ghost predicate Bursts(utf8: Bytes -> bool, s: Bytes, chunks: Chunks, k: nat) {
    && Exceeds(s, chunks, k) && (forall i :: 0 <= i <= k ==> chunks[i].Some?)
    && AllUtf8(utf8, CutBefore(s, chunks, k).blocks)
  }

  lemma BurstsShift(utf8: Bytes -> bool, s: Bytes, chunks: Chunks, k: nat)
    requires k + 1 < |chunks| && chunks[0].Some?
    ensures var cut := Segment(s + chunks[0].value);
      Bursts(utf8, s, chunks, k + 1) <==> AllUtf8(utf8, cut.blocks) && Bursts(utf8, cut.rest, chunks[1..], k)
  {
    var cut := Segment(s + chunks[0].value);
    CutShifts(s, chunks, k);
    AllUtf8Concat(utf8, cut.blocks, CutBefore(cut.rest, chunks[1..], k).blocks);
    assert forall i :: 0 <= i <= k ==> chunks[1..][i] == chunks[i + 1];
    assert chunks[1..][k] == chunks[k + 1];
    if forall i :: 0 <= i <= k ==> chunks[1..][i].Some? {
      forall i | 0 <= i <= k + 1 ensures chunks[i].Some? {
        assert i > 0 ==> chunks[1..][i - 1] == chunks[i];
      }
    }
  }

  lemma FirstBursts(utf8: Bytes -> bool, s: Bytes, chunks: Chunks)
    requires FindEvent(s).Nowhere? && chunks != []
    ensures Bursts(utf8, s, chunks, 0) <==> chunks[0].Some? && |s| + |chunks[0].value| > MAX_SSE_EVENT_BYTES
  {
    CutAtFirst(s, chunks);
  }

  /** Whatever the encoding check and the chunks, a stream is refused for its size
      exactly when some chunk bursts: what came before it could be read, and it
      exceeds the cap with what was pending then, complete events in it or not. */
  lemma {:induction false} CapExactly(utf8: Bytes -> bool, s: Bytes, out: seq<Bytes>, chunks: Chunks)
    requires FindEvent(s).Nowhere?
    ensures Feed(utf8, s, out, chunks) == Err(TooLarge) <==> exists k: nat :: Bursts(utf8, s, chunks, k)
    decreases |chunks|
  {
    if chunks != [] && chunks[0].Some? {
      FirstBursts(utf8, s, chunks);
      if |s| + |chunks[0].value| <= MAX_SSE_EVENT_BYTES {
        CapFirst(utf8, s, out, chunks);
      }
    }
  }

  /** A first chunk that fits leaves the question to the others. */
  lemma CapFirst(utf8: Bytes -> bool, s: Bytes, out: seq<Bytes>, chunks: Chunks)
    requires FindEvent(s).Nowhere? && chunks != [] && chunks[0].Some?
    requires |s| + |chunks[0].value| <= MAX_SSE_EVENT_BYTES
    ensures Feed(utf8, s, out, chunks) == Err(TooLarge) <==> exists k: nat :: Bursts(utf8, s, chunks, k)
    decreases |chunks|, 0
  {
    var cut := Segment(s + chunks[0].value);
    RestHasNoEvent(s + chunks[0].value);
    CapExactly(utf8, cut.rest, out + FramesOf(cut.blocks), chunks[1..]);
    LaterBursts(utf8, s, chunks, cut);
  }

  lemma LaterBursts(utf8: Bytes -> bool, s: Bytes, chunks: Chunks, cut: Cut)
    requires FindEvent(s).Nowhere? && chunks != [] && chunks[0].Some? && cut == Segment(s + chunks[0].value)
    requires |s| + |chunks[0].value| <= MAX_SSE_EVENT_BYTES
    ensures (exists k: nat :: Bursts(utf8, s, chunks, k))
       <==> AllUtf8(utf8, cut.blocks) && exists k: nat :: Bursts(utf8, cut.rest, chunks[1..], k)
  {
    if AllUtf8(utf8, cut.blocks) && exists k: nat :: Bursts(utf8, cut.rest, chunks[1..], k) {
      var k: nat :| Bursts(utf8, cut.rest, chunks[1..], k);
      BurstsShift(utf8, s, chunks, k);
      assert Bursts(utf8, s, chunks, k + 1);
    }
    if exists k: nat :: Bursts(utf8, s, chunks, k) {
      var k: nat :| Bursts(utf8, s, chunks, k);
      FirstBursts(utf8, s, chunks);
      BurstsShift(utf8, s, chunks, k - 1);
    }
  }

  function Blanks(n: nat): Bytes {
    seq(n, _ => LF)
  }

  lemma {:induction false} BlanksLeaveNothing(n: nat)
    ensures Segment(Blanks(n)).rest == []
  {
    if n > 0 {
      assert Blanks(n)[1..] == Blanks(n - 1);
      BlanksLeaveNothing(n - 1);
    }
  }

  lemma {:induction false} BlankBlocks(utf8: Bytes -> bool, n: nat)
    requires utf8([])
    ensures AllUtf8(utf8, Segment(Blanks(n)).blocks)
  {
    if n > 0 {
      assert Blanks(n)[1..] == Blanks(n - 1) && Blanks(n)[..0] == [];
      BlankBlocks(utf8, n - 1);
    }
  }

  /** One chunk of blank lines, cut before it or not. */
  lemma BlanksFit(n: nat, m: nat)
    requires n <= MAX_SSE_EVENT_BYTES && m <= MAX_SSE_EVENT_BYTES
    ensures Fits([], [Some(Blanks(n)), Some(Blanks(m))])
  {
    var chunks := [Some(Blanks(n)), Some(Blanks(m))];
    EmptyBlock();
    CutAtFirst([], chunks);
    CutShifts([], chunks, 0);
    Appended(Blanks(n), [], []);
    BlanksLeaveNothing(n);
    CutAtFirst([], chunks[1..]);
  }

  /** The cap counts complete events too: a chunk of blank lines, none of which
      leaves anything pending, is refused whole and accepted in two parts. */
  lemma CapSeesChunks(utf8: Bytes -> bool)
    requires utf8([])
    ensures Concat([Some(Blanks(MAX_SSE_EVENT_BYTES + 1))]) == Concat([Some(Blanks(MAX_SSE_EVENT_BYTES)), Some(Blanks(1))])
    ensures Feed(utf8, [], [], [Some(Blanks(MAX_SSE_EVENT_BYTES + 1))]) == Err(TooLarge)
    ensures Feed(utf8, [], [], [Some(Blanks(MAX_SSE_EVENT_BYTES)), Some(Blanks(1))]).Ok?
  {
    var whole, half, one := Blanks(MAX_SSE_EVENT_BYTES + 1), Blanks(MAX_SSE_EVENT_BYTES), Blanks(1);
    var parts := [Some(half), Some(one)];
    assert Concat([Some(whole)]) == whole + Concat([]) == whole;
    assert Concat([Some(one)]) == one + Concat([]) == one;
    assert parts[1..] == [Some(one)];
    assert Concat(parts) == half + one == whole;
    BlanksFit(MAX_SSE_EVENT_BYTES, 1);
    ChunkingIndependence(utf8, parts);
    BlanksLeaveNothing(MAX_SSE_EVENT_BYTES + 1);
    BlankBlocks(utf8, MAX_SSE_EVENT_BYTES + 1);
  }

  // --------------------------------------------------------------- the encoding

  /** An encoding in which the byte `t` is a character of its own, as LF and CR are
      in UTF-8: a text is well-formed exactly when both sides of it are. */
  ghost predicate Parts(utf8: Bytes -> bool, t: byte) {
    forall a, b :: utf8(a + [t] + b) <==> utf8(a) && utf8(b)
  }

  lemma PartsAt(utf8: Bytes -> bool, s: Bytes, i: nat)
    requires i < |s| && Parts(utf8, s[i])
    ensures utf8(s) <==> utf8(s[..i]) && utf8(s[i + 1..])
  {
    assert s == s[..i] + [s[i]] + s[i + 1..];
  }

  /** What an event ends on: one terminator, after what the block holds. */
  lemma {:induction false} EventGap(s: Bytes)
    requires FindEvent(s).At?
    ensures var e := FindEvent(s);
      && (s[e.end] == LF || s[e.end] == CR)
      && (e.next == e.end + 1 || (e.next == e.end + 2 && s[e.end + 1] == LF))
    decreases |s|
  {
    LineGap(s);
    var at := NextLine(s);
    if at.end > 0 {
      EventGap(s[at.next..]);
    }
  }

  lemma {:induction false} LineGap(s: Bytes)
    requires NextLine(s).At?
    ensures var at := NextLine(s);
      && (s[at.end] == LF || s[at.end] == CR)
      && (at.next == at.end + 1 || (at.next == at.end + 2 && s[at.end + 1] == LF))
  {
    if s[0] != LF && s[0] != CR {
      LineGap(s[1..]);
    }
  }

  lemma EventParts(utf8: Bytes -> bool, s: Bytes)
    requires utf8([]) && Parts(utf8, LF) && Parts(utf8, CR) && FindEvent(s).At?
    ensures var e := FindEvent(s); utf8(s) <==> utf8(s[..e.end]) && utf8(s[e.next..])
  {
    var e := FindEvent(s);
    EventGap(s);
    PartsAt(utf8, s, e.end);
    if e.next == e.end + 2 {
      var rest := s[e.end + 1..];
      PartsAt(utf8, rest, 0);
      assert rest[..0] == [] && rest[1..] == s[e.next..];
    }
  }

  /** Checking block by block is checking the whole stream: nothing escapes the
      check, and no cut makes it fail. */
  lemma {:induction false} EncodingIsWhole(utf8: Bytes -> bool, s: Bytes)
    requires utf8([]) && Parts(utf8, LF) && Parts(utf8, CR)
    ensures WellEncoded(utf8, s) <==> utf8(s)
    decreases |s|
  {
    if FindEvent(s).At? {
      var e := FindEvent(s);
      EventParts(utf8, s);
      EncodingIsWhole(utf8, s[e.next..]);
      SegmentTakes(s);
      var block, later := s[..e.end], Segment(s[e.next..]).blocks;
      AllUtf8Concat(utf8, [block], later);
      assert AllUtf8(utf8, [block]) <==> utf8(block) by {
        assert [block][0] == block;
      }
    }
  }
}
