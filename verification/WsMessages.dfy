/**
 The read loop of a subscription: fragments put together into messages,
 control frames answered wherever they fall, against a script of what the
 peer meant to say.
 */
module WsMessages {
  import opened Basics
  import opened WsCodec

  /** What decoding a text message finds: nothing to pass on, an event, or the
      notice that the cursor is too old, which ends the subscription. */
  datatype Verdict = Ignored | Event | CursorTooOld

  datatype Status = Open | Ended | Failed

  /** The loop's variables, the messages it has passed on and the pings it has seen. */
  datatype Reader = Reader(msg: Bytes, op: byte, events: seq<Bytes>, pings: seq<Bytes>, status: Status)

  const START := Reader([], 0, [], [], Open)

  /** The end of a message. */
  function Finish(classify: Bytes -> Verdict, r: Reader): Reader {
    var verdict := if r.op == 1 then classify(r.msg) else Ignored;
    r.(msg := [], op := 0,
       events := if verdict.Ignored? then r.events else r.events + [r.msg],
       status := if verdict.CursorTooOld? then Ended else r.status)
  }

  /** One frame, in the order of the loop's cases; an opcode it does not know
      changes nothing but can still end a message. */
  function Step(classify: Bytes -> Verdict, r: Reader, f: Frame): Reader {
    if f.opcode == 0x8 then r.(status := Ended)
    else if f.opcode == 0x9 then r.(pings := r.pings + [f.payload])
    else if f.opcode == 0xA then r
    else
      var r := if f.opcode == 1 || f.opcode == 2 then r.(msg := f.payload, op := f.opcode)
               else if f.opcode == 0 then r.(msg := r.msg + f.payload)
               else r;
      if f.fin then Finish(classify, r) else r
  }

  function Run(classify: Bytes -> Verdict, r: Reader, frames: seq<Frame>): Reader
    decreases |frames|
  {
    if frames == [] || !r.status.Open? then r
    else Run(classify, Step(classify, r, frames[0]), frames[1..])
  }

  function RunBytes(classify: Bytes -> Verdict, r: Reader, s: Bytes): Reader
    decreases |s|
  {
    if !r.status.Open? then r
    else
      match Parse(s)
      case Short => r.(status := Failed)
      case Read(f, _, rest) => RunBytes(classify, Step(classify, r, f), rest)
  }

  // --------------------------------------------------------------- the script

  datatype Control = Ping(data: Bytes) | Pong(data: Bytes) | Close(data: Bytes)

  /** A further fragment, and the control frames sent just before it. */
  datatype Piece = Piece(before: seq<Control>, data: Bytes)

  datatype Item = Bare(control: Control) | Message(text: bool, first: Bytes, rest: seq<Piece>)

  function ControlFrame(c: Control): Frame {
    Frame(true, if c.Ping? then 0x9 else if c.Pong? then 0xA else 0x8, c.data)
  }

  function ControlFrames(cs: seq<Control>): seq<Frame> {
    if cs == [] then [] else [ControlFrame(cs[0])] + ControlFrames(cs[1..])
  }

  function PieceFrames(ps: seq<Piece>): seq<Frame> {
    if ps == [] then []
    else ControlFrames(ps[0].before) + ([Frame(|ps| == 1, 0, ps[0].data)] + PieceFrames(ps[1..]))
  }

  function ItemFrames(i: Item): seq<Frame> {
    match i
    case Bare(c) => [ControlFrame(c)]
    case Message(text, first, rest) => [Frame(rest == [], if text then 1 else 2, first)] + PieceFrames(rest)
  }

  function Wire(items: seq<Item>): seq<Frame> {
    if items == [] then [] else ItemFrames(items[0]) + Wire(items[1..])
  }

  // -------------------------------------------------------------- its meaning

  function Join(ps: seq<Piece>): Bytes {
    if ps == [] then [] else ps[0].data + Join(ps[1..])
  }

  function Between(ps: seq<Piece>): seq<Control> {
    if ps == [] then [] else ps[0].before + Between(ps[1..])
  }

  datatype Heard = Heard(events: seq<Bytes>, pings: seq<Bytes>, status: Status)

  function HearControl(h: Heard, c: Control): Heard {
    match c
    case Ping(data) => h.(pings := h.pings + [data])
    case Pong(_) => h
    case Close(_) => h.(status := Ended)
  }

  function HearControls(h: Heard, cs: seq<Control>): Heard
    decreases |cs|
  {
    if cs == [] || !h.status.Open? then h else HearControls(HearControl(h, cs[0]), cs[1..])
  }

  function HearText(classify: Bytes -> Verdict, h: Heard, text: Bytes): Heard {
    match classify(text)
    case Ignored => h
    case Event => h.(events := h.events + [text])
    case CursorTooOld => h.(events := h.events + [text], status := Ended)
  }

  /** A message counts where its last fragment falls, so after the control
      frames sent inside it. */
  function HearItem(classify: Bytes -> Verdict, h: Heard, i: Item): Heard {
    match i
    case Bare(c) => HearControl(h, c)
    case Message(text, first, rest) =>
      var after := HearControls(h, Between(rest));
      if after.status.Open? && text then HearText(classify, after, first + Join(rest)) else after
  }

  function Hear(classify: Bytes -> Verdict, h: Heard, items: seq<Item>): Heard
    decreases |items|
  {
    if items == [] || !h.status.Open? then h
    else Hear(classify, HearItem(classify, h, items[0]), items[1..])
  }

  // ------------------------------------------------------------------- proofs

  function View(r: Reader): Heard {
    Heard(r.events, r.pings, r.status)
  }

  function With(r: Reader, h: Heard): Reader {
    Reader(r.msg, r.op, h.events, h.pings, h.status)
  }

  lemma {:induction false} RunConcat(classify: Bytes -> Verdict, r: Reader, a: seq<Frame>, b: seq<Frame>)
    ensures Run(classify, r, a + b) == Run(classify, Run(classify, r, a), b)
    decreases |a|
  {
    if a == [] {
      assert a + b == b;
    } else if r.status.Open? {
      assert (a + b)[0] == a[0] && (a + b)[1..] == a[1..] + b;
      RunConcat(classify, Step(classify, r, a[0]), a[1..], b);
    }
  }

  lemma RunOne(classify: Bytes -> Verdict, r: Reader, f: Frame, rest: seq<Frame>)
    requires r.status.Open?
    ensures Run(classify, r, [f] + rest) == Run(classify, Step(classify, r, f), rest)
  {
    assert ([f] + rest)[1..] == rest;
  }

  lemma {:induction false} ControlsRun(classify: Bytes -> Verdict, r: Reader, cs: seq<Control>)
    ensures Run(classify, r, ControlFrames(cs)) == With(r, HearControls(View(r), cs))
    decreases |cs|
  {
    if cs != [] && r.status.Open? {
      RunOne(classify, r, ControlFrame(cs[0]), ControlFrames(cs[1..]));
      ControlsRun(classify, Step(classify, r, ControlFrame(cs[0])), cs[1..]);
    }
  }

  lemma {:induction false} ControlsConcat(h: Heard, a: seq<Control>, b: seq<Control>)
    ensures HearControls(h, a + b) == HearControls(HearControls(h, a), b)
    decreases |a|
  {
    if a == [] {
      assert a + b == b;
    } else if h.status.Open? {
      assert (a + b)[0] == a[0] && (a + b)[1..] == a[1..] + b;
      ControlsConcat(HearControl(h, a[0]), a[1..], b);
    }
  }

  /** The further fragments of a message begun with `r.msg`. */
  lemma {:induction false} PiecesRun(classify: Bytes -> Verdict, r: Reader, ps: seq<Piece>)
    requires r.status.Open? && ps != []
    ensures var end := Run(classify, r, PieceFrames(ps));
            var h := HearControls(View(r), Between(ps));
            if h.status.Open? then end == Finish(classify, With(r, h).(msg := r.msg + Join(ps)))
            else View(end) == h
    decreases |ps|
  {
    var cs, f, more := ps[0].before, Frame(|ps| == 1, 0, ps[0].data), PieceFrames(ps[1..]);
    RunConcat(classify, r, ControlFrames(cs), [f] + more);
    ControlsRun(classify, r, cs);
    ControlsConcat(View(r), cs, Between(ps[1..]));
    var mid := With(r, HearControls(View(r), cs));
    if mid.status.Open? {
      RunOne(classify, mid, f, more);
      if |ps| == 1 {
        assert ps[1..] == [];
        assert r.msg + Join(ps) == r.msg + ps[0].data;
      } else {
        PiecesRun(classify, Step(classify, mid, f), ps[1..]);
        Appended(r.msg, ps[0].data, Join(ps[1..]));
      }
    }
  }

  predicate Idle(r: Reader) {
    r.status.Open? ==> r.msg == [] && r.op == 0
  }

  lemma ItemRuns(classify: Bytes -> Verdict, r: Reader, i: Item)
    requires r.status.Open? && Idle(r)
    ensures var end := Run(classify, r, ItemFrames(i));
            View(end) == HearItem(classify, View(r), i) && Idle(end)
  {
    match i
    case Bare(c) => {
      RunOne(classify, r, ControlFrame(c), []);
    }
    case Message(text, first, rest) => {
      var f := Frame(rest == [], if text then 1 else 2, first);
      RunOne(classify, r, f, PieceFrames(rest));
      if rest == [] {
        assert first + Join(rest) == first;
      } else {
        PiecesRun(classify, Step(classify, r, f), rest);
      }
    }
  }

  /** Whatever the peer says, in however many fragments and with control frames
      anywhere between them, the loop passes on the messages it meant, in order,
      and nothing after the end. */
  lemma {:induction false} Reassembles(classify: Bytes -> Verdict, r: Reader, items: seq<Item>)
    requires Idle(r)
    ensures var end := Run(classify, r, Wire(items));
            View(end) == Hear(classify, View(r), items) && Idle(end)
    decreases |items|
  {
    if items != [] && r.status.Open? {
      ItemRuns(classify, r, items[0]);
      RunConcat(classify, r, ItemFrames(items[0]), Wire(items[1..]));
      Reassembles(classify, Run(classify, r, ItemFrames(items[0])), items[1..]);
    }
  }

  // ------------------------------------------------ a script with no early end

  function OwnTexts(i: Item): seq<Bytes> {
    if i.Message? && i.text then [i.first + Join(i.rest)] else []
  }

  function OwnControls(i: Item): seq<Control> {
    if i.Bare? then [i.control] else Between(i.rest)
  }

  function Texts(items: seq<Item>): seq<Bytes> {
    if items == [] then [] else OwnTexts(items[0]) + Texts(items[1..])
  }

  function Controls(items: seq<Item>): seq<Control> {
    if items == [] then [] else OwnControls(items[0]) + Controls(items[1..])
  }

  function Pings(cs: seq<Control>): seq<Bytes> {
    if cs == [] then [] else (if cs[0].Ping? then [cs[0].data] else []) + Pings(cs[1..])
  }

  function Events(classify: Bytes -> Verdict, texts: seq<Bytes>): seq<Bytes> {
    if texts == [] then []
    else (if classify(texts[0]).Ignored? then [] else [texts[0]]) + Events(classify, texts[1..])
  }

  ghost predicate EndsEarly(classify: Bytes -> Verdict, items: seq<Item>) {
    || (exists c :: c in Controls(items) && c.Close?)
    || (exists t :: t in Texts(items) && classify(t).CursorTooOld?)
  }

  lemma {:induction false} PingsConcat(a: seq<Control>, b: seq<Control>)
    ensures Pings(a + b) == Pings(a) + Pings(b)
  {
    if a == [] {
      assert a + b == b;
    } else {
      assert (a + b)[0] == a[0] && (a + b)[1..] == a[1..] + b;
      PingsConcat(a[1..], b);
    }
  }

  lemma {:induction false} ControlsHeard(h: Heard, cs: seq<Control>)
    requires h.status.Open? && forall c :: c in cs ==> !c.Close?
    ensures HearControls(h, cs) == h.(pings := h.pings + Pings(cs))
    decreases |cs|
  {
    if cs == [] {
      assert h.pings + [] == h.pings;
    } else {
      assert cs[0] in cs;
      ControlsHeard(HearControl(h, cs[0]), cs[1..]);
      Appended(h.pings, if cs[0].Ping? then [cs[0].data] else [], Pings(cs[1..]));
    }
  }

  lemma ItemHeard(classify: Bytes -> Verdict, h: Heard, i: Item)
    requires h.status.Open? && forall c :: c in OwnControls(i) ==> !c.Close?
    requires forall t :: t in OwnTexts(i) ==> !classify(t).CursorTooOld?
    ensures HearItem(classify, h, i)
         == Heard(h.events + Events(classify, OwnTexts(i)), h.pings + Pings(OwnControls(i)), Open)
  {
    assert h.events + [] == h.events;
    match i
    case Bare(c) => {
      assert OwnControls(i)[0] == c;
      ControlsHeard(h, [c]);
    }
    case Message(text, first, rest) => {
      ControlsHeard(h, Between(rest));
      if text {
        assert OwnTexts(i)[0] == first + Join(rest);
      }
    }
  }

  /** A script that neither closes nor reports a stale cursor is heard whole:
      every event among its text messages and every ping, in order, once. */
  lemma {:induction false} AllHeard(classify: Bytes -> Verdict, h: Heard, items: seq<Item>)
    requires h.status.Open? && !EndsEarly(classify, items)
    ensures Hear(classify, h, items)
         == Heard(h.events + Events(classify, Texts(items)), h.pings + Pings(Controls(items)), Open)
    decreases |items|
  {
    if items == [] {
      assert h.events + [] == h.events && h.pings + [] == h.pings;
    } else {
      var i, rest := items[0], items[1..];
      assert forall c :: c in OwnControls(i) || c in Controls(rest) ==> c in Controls(items);
      assert forall t :: t in OwnTexts(i) || t in Texts(rest) ==> t in Texts(items);
      ItemHeard(classify, h, i);
      AllHeard(classify, HearItem(classify, h, i), rest);
      PingsConcat(OwnControls(i), Controls(rest));
      Appended(h.pings, Pings(OwnControls(i)), Pings(Controls(rest)));
      EventsConcat(classify, OwnTexts(i), Texts(rest));
      Appended(h.events, Events(classify, OwnTexts(i)), Events(classify, Texts(rest)));
    }
  }

  lemma {:induction false} EventsConcat(classify: Bytes -> Verdict, a: seq<Bytes>, b: seq<Bytes>)
    ensures Events(classify, a + b) == Events(classify, a) + Events(classify, b)
  {
    if a == [] {
      assert a + b == b;
    } else {
      assert (a + b)[0] == a[0] && (a + b)[1..] == a[1..] + b;
      EventsConcat(classify, a[1..], b);
    }
  }

  // -------------------------------------------------------------- any frames at all

  predicate IsControl(f: Frame) {
    f.opcode == 0x8 || f.opcode == 0x9 || f.opcode == 0xA
  }

  /** A frame that begins a message, whatever was begun before it. */
  predicate Opens(f: Frame) {
    f.opcode == 1 || f.opcode == 2
  }

  /** A frame that ends a message, if there is one to end. */
  predicate Closes(f: Frame) {
    !IsControl(f) && f.fin
  }

  /** After these frames the message begun at `i` is open: nothing has ended it
      and no other has begun. */
  ghost predicate Pending(fs: seq<Frame>, i: nat) {
    && i < |fs| && Opens(fs[i])
    && (forall k :: i <= k < |fs| ==> !Closes(fs[k]))
    && (forall k :: i < k < |fs| ==> !Opens(fs[k]))
  }

  /** The payloads of the frames that carry a message. */
  function Collected(fs: seq<Frame>): Bytes {
    if fs == [] then []
    else
      var last := fs[|fs| - 1];
      Collected(fs[..|fs| - 1]) + if last.opcode <= 2 then last.payload else []
  }

  /** What the loop holds: the open message as far as it has come, and its kind;
      no kind when none is open. */
  ghost predicate Holds(r: Reader, fs: seq<Frame>) {
    && (forall i: nat :: Pending(fs, i) ==> r.op == fs[i].opcode && r.msg == Collected(fs[i..]))
    && ((forall i: nat :: !Pending(fs, i)) ==> r.op == 0)
  }

  lemma RunSnoc(classify: Bytes -> Verdict, r: Reader, fs: seq<Frame>, f: Frame)
    requires Run(classify, r, fs).status.Open?
    ensures Run(classify, r, fs + [f]) == Step(classify, Run(classify, r, fs), f)
  {
    RunConcat(classify, r, fs, [f]);
    RunOne(classify, Run(classify, r, fs), f, []);
    assert [f] + [] == [f];
  }

  lemma CollectedSnoc(fs: seq<Frame>, f: Frame, i: nat)
    requires i <= |fs|
    ensures Collected((fs + [f])[i..]) == Collected(fs[i..]) + if f.opcode <= 2 then f.payload else []
  {
    assert (fs + [f])[i..] == fs[i..] + [f];
    assert (fs[i..] + [f])[..|fs| - i] == fs[i..];
  }

  /** One frame more, seen from the message it may leave open. */
  lemma PendingSnoc(fs: seq<Frame>, f: Frame, i: nat)
    ensures Pending(fs + [f], i) <==>
      !Closes(f) && if Opens(f) then i == |fs| else Pending(fs, i)
  {
    var more := fs + [f];
    if i < |fs| {
      assert forall k :: 0 <= k < |fs| ==> more[k] == fs[k];
      assert more[|fs|] == f;
      if Pending(more, i) {
        assert forall k :: i <= k < |fs| ==> !Closes(more[k]);
        assert forall k :: i < k < |fs| ==> !Opens(more[k]);
      }
    }
  }

  lemma HoldsSnoc(classify: Bytes -> Verdict, r: Reader, fs: seq<Frame>, f: Frame)
    requires Holds(r, fs) && Step(classify, r, f).status.Open?
    ensures Holds(Step(classify, r, f), fs + [f])
  {
    var t, more := Step(classify, r, f), fs + [f];
    forall i: nat | Pending(more, i) ensures t.op == more[i].opcode && t.msg == Collected(more[i..]) {
      PendingSnoc(fs, f, i);
      CollectedSnoc(fs, f, i);
      if i == |fs| {
        assert fs[i..] == [];
      }
    }
    if forall i: nat :: !Pending(more, i) {
      PendingSnoc(fs, f, |fs|);
      forall i: nat ensures !Closes(f) && !Opens(f) ==> !Pending(fs, i) {
        PendingSnoc(fs, f, i);
      }
    }
  }

  lemma {:induction false} AlwaysHolds(classify: Bytes -> Verdict, fs: seq<Frame>)
    requires Run(classify, START, fs).status.Open?
    ensures Holds(Run(classify, START, fs), fs)
    decreases |fs|
  {
    if fs != [] {
      var init, last := fs[..|fs| - 1], fs[|fs| - 1];
      assert fs == init + [last];
      RunConcat(classify, START, init, [last]);
      assert Run(classify, START, init).status.Open?;
      AlwaysHolds(classify, init);
      RunSnoc(classify, START, init, last);
      HoldsSnoc(classify, Run(classify, START, init), init, last);
    }
  }

  /** Frame `f`, coming after `fs`, completes a text message, and this is its text:
      the one open till then, or one that it is alone. */
  ghost predicate Completes(fs: seq<Frame>, f: Frame, text: Bytes) {
    && Closes(f)
    && if Opens(f) then f.opcode == 1 && text == f.payload
       else exists i: nat :: Pending(fs, i) && fs[i].opcode == 1 && text == Collected((fs + [f])[i..])
  }

  lemma CompletesIs(r: Reader, fs: seq<Frame>, f: Frame, text: Bytes)
    requires Holds(r, fs)
    ensures Completes(fs, f, text) <==>
      && Closes(f)
      && if Opens(f) then f.opcode == 1 && text == f.payload
         else r.op == 1 && text == r.msg + if f.opcode == 0 then f.payload else []
  {
    if !Opens(f) && exists i: nat :: Pending(fs, i) {
      var i: nat :| Pending(fs, i);
      CollectedSnoc(fs, f, i);
      assert r.op == 1 ==> fs[i].opcode == 1;
    }
    if Completes(fs, f, text) && !Opens(f) {
      var i: nat :| Pending(fs, i) && fs[i].opcode == 1 && text == Collected((fs + [f])[i..]);
      CollectedSnoc(fs, f, i);
    }
  }

  /** Whatever frames come, well-formed messages or not, and of whatever opcode:
      each passes on exactly the text message it completes, if it is not ignored;
      each ping is seen; and only a close, or a text that says the cursor is too
      old, ends the loop. */
  lemma EveryFrame(classify: Bytes -> Verdict, fs: seq<Frame>, f: Frame)
    requires Run(classify, START, fs).status.Open?
    ensures var r, t := Run(classify, START, fs), Run(classify, START, fs + [f]);
      && (forall text :: Completes(fs, f, text) && !classify(text).Ignored? ==> t.events == r.events + [text])
      && ((forall text :: Completes(fs, f, text) ==> classify(text).Ignored?) ==> t.events == r.events)
      && t.pings == r.pings + (if f.opcode == 0x9 then [f.payload] else [])
      && (t.status == if f.opcode == 0x8 || exists text :: Completes(fs, f, text) && classify(text).CursorTooOld?
                      then Ended else Open)
  {
    var r := Run(classify, START, fs);
    AlwaysHolds(classify, fs);
    RunSnoc(classify, START, fs, f);
    forall text ensures Completes(fs, f, text) <==>
      && Closes(f)
      && if Opens(f) then f.opcode == 1 && text == f.payload
         else r.op == 1 && text == r.msg + if f.opcode == 0 then f.payload else []
    {
      CompletesIs(r, fs, f, text);
    }
    var text := if Opens(f) then f.payload else r.msg + if f.opcode == 0 then f.payload else [];
    assert Completes(fs, f, text) <==> Closes(f) && (if Opens(f) then f.opcode == 1 else r.op == 1);
    Appended(r.msg, [], []);
  }

  // ------------------------------------------------------------ over the bytes

  /** A frame as sent: a client masks, a server does not. */
  datatype Sent = Sent(frame: Frame, mask: Option<Mask>)

  function PrintAll(sent: seq<Sent>): Bytes {
    if sent == [] then [] else Print(sent[0].frame, sent[0].mask) + PrintAll(sent[1..])
  }

  function Frames(sent: seq<Sent>): (frames: seq<Frame>)
    ensures |frames| == |sent| && forall i :: 0 <= i < |sent| ==> frames[i] == sent[i].frame
  {
    seq(|sent|, i requires 0 <= i < |sent| => sent[i].frame)
  }

  predicate Sendable(sent: seq<Sent>) {
    forall x :: x in sent ==> x.frame.opcode < 16 && |x.frame.payload| < Pow256(8)
  }

  /** Reading printed frames is running over them; when none ended the loop,
      the end of the stream is an error. */
  lemma {:induction false} BytesRun(classify: Bytes -> Verdict, r: Reader, sent: seq<Sent>)
    requires Sendable(sent)
    ensures var end := Run(classify, r, Frames(sent));
            RunBytes(classify, r, PrintAll(sent)) == if end.status.Open? then end.(status := Failed) else end
    decreases |sent|
  {
    if sent != [] && r.status.Open? {
      var f := sent[0].frame;
      assert sent[0] in sent;
      PrintReads(f, sent[0].mask, PrintAll(sent[1..]));
      assert Frames(sent)[1..] == Frames(sent[1..]);
      BytesRun(classify, Step(classify, r, f), sent[1..]);
    }
  }

  lemma {:induction false} RunBytesKeeps(classify: Bytes -> Verdict, r: Reader, s: Bytes)
    ensures var end := RunBytes(classify, r, s); r.events <= end.events && r.pings <= end.pings
    decreases |s|
  {
    if r.status.Open? && Parse(s).Read? {
      RunBytesKeeps(classify, Step(classify, r, Parse(s).frame), Parse(s).rest);
    }
  }

  /** A stream cut off at any byte passes on a prefix of what the whole stream
      does: never part of a message, never another one. */
  lemma {:induction false} CutOff(classify: Bytes -> Verdict, r: Reader, s: Bytes, more: Bytes)
    ensures var cut := RunBytes(classify, r, s);
            var whole := RunBytes(classify, r, s + more);
            cut.events <= whole.events && cut.pings <= whole.pings
    decreases |s|
  {
    if r.status.Open? {
      if Parse(s).Read? {
        ParseStable(s, more);
        CutOff(classify, Step(classify, r, Parse(s).frame), Parse(s).rest, more);
      } else {
        RunBytesKeeps(classify, r, s + more);
      }
    }
  }

  lemma CutAt(classify: Bytes -> Verdict, all: Bytes, cut: nat)
    requires cut <= |all|
    ensures var end := RunBytes(classify, START, all[..cut]);
            var whole := RunBytes(classify, START, all);
            && end.events <= whole.events && end.pings <= whole.pings
            && (cut == |all| ==> end == whole)
  {
    assert all[..cut] + all[cut..] == all;
    CutOff(classify, START, all[..cut], all[cut..]);
    assert cut == |all| ==> all[..cut] == all;
  }

  lemma WholeHeard(classify: Bytes -> Verdict, items: seq<Item>, sent: seq<Sent>)
    requires Frames(sent) == Wire(items) && Sendable(sent)
    ensures var heard := Hear(classify, View(START), items);
            var whole := RunBytes(classify, START, PrintAll(sent));
            whole.events == heard.events && whole.pings == heard.pings
  {
    Reassembles(classify, START, items);
    BytesRun(classify, START, sent);
  }

  /** End to end: any script, any masks, cut off anywhere. */
  lemma StreamHeard(classify: Bytes -> Verdict, items: seq<Item>, sent: seq<Sent>, cut: nat)
    requires Frames(sent) == Wire(items) && Sendable(sent) && cut <= |PrintAll(sent)|
    ensures var heard := Hear(classify, View(START), items);
            var end := RunBytes(classify, START, PrintAll(sent)[..cut]);
            && end.events <= heard.events && end.pings <= heard.pings
            && (cut == |PrintAll(sent)| ==> end.events == heard.events && end.pings == heard.pings)
  {
    WholeHeard(classify, items, sent);
    CutAt(classify, PrintAll(sent), cut);
  }

  // ----------------------------------------------------------------- the loop

  /** The pongs written: one for each ping that randomness could mask. */
  function Pongs(pings: seq<Bytes>, random: nat -> Option<Mask>): seq<Sent> {
    if pings == [] then []
    else
      var k := |pings| - 1;
      Pongs(pings[..k], random) + if random(k).Some? then [Sent(Frame(true, 0xA, pings[k]), random(k))] else []
  }

  lemma {:induction false} PrintAllAppends(sent: seq<Sent>, x: Sent)
    ensures PrintAll(sent + [x]) == PrintAll(sent) + Print(x.frame, x.mask)
  {
    if sent == [] {
      assert sent + [x] == [x] && PrintAll([x]) == Print(x.frame, x.mask) + PrintAll([]);
    } else {
      assert (sent + [x])[0] == sent[0] && (sent + [x])[1..] == sent[1..] + [x];
      PrintAllAppends(sent[1..], x);
      Appended(Print(sent[0].frame, sent[0].mask), PrintAll(sent[1..]), Print(x.frame, x.mask));
    }
  }

  lemma PongAppends(pings: seq<Bytes>, data: Bytes, random: nat -> Option<Mask>)
    ensures PrintAll(Pongs(pings + [data], random))
         == PrintAll(Pongs(pings, random))
            + if random(|pings|).Some? then Print(Frame(true, 0xA, data), random(|pings|)) else []
  {
    var k := |pings|;
    assert (pings + [data])[..k] == pings;
    if random(k).Some? {
      PrintAllAppends(Pongs(pings, random), Sent(Frame(true, 0xA, data), random(k)));
    } else {
      assert Pongs(pings, random) + [] == Pongs(pings, random);
    }
  }

  /** What the connection carries once `pings` are answered. */
  function Answered(before: Bytes, pings: seq<Bytes>, random: nat -> Option<Mask>): Bytes {
    before + PrintAll(Pongs(pings, random))
  }

  /** Answer a ping; a pong that cannot be written is dropped. */
  method Answer(conn: Connection, ghost before: Bytes, pings: seq<Bytes>, data: Bytes, random: nat -> Option<Mask>)
    requires conn.sent == Answered(before, pings, random)
    modifies conn
    ensures conn.sent == Answered(before, pings + [data], random)
  {
    PongAppends(pings, data, random);
    var _ := conn.WriteFrame(0xA, data, random(|pings|));
    Appended(before, PrintAll(Pongs(pings, random)),
             if random(|pings|).Some? then Print(Frame(true, 0xA, data), random(|pings|)) else []);
  }

  /** The body of the loop: one frame, on the loop's own variables. */
  method Handle(conn: Connection, ghost before: Bytes, classify: Bytes -> Verdict, random: nat -> Option<Mask>,
                r: Reader, f: Frame) returns (next: Reader)
    requires r.status.Open? && conn.sent == Answered(before, r.pings, random)
    modifies conn
    ensures next == Step(classify, r, f) && conn.sent == Answered(before, next.pings, random)
  {
    if f.opcode == 0x8 {
      return r.(status := Ended);
    } else if f.opcode == 0x9 {
      Answer(conn, before, r.pings, f.payload, random);
      return r.(pings := r.pings + [f.payload]);
    } else if f.opcode == 0xA {
      return r;
    }
    var msg, op := r.msg, r.op;
    if f.opcode == 0x1 || f.opcode == 0x2 {
      msg, op := f.payload, f.opcode;
    } else if f.opcode == 0x0 {
      msg := msg + f.payload;
    }
    var events, status := r.events, Open;
    if f.fin {
      if op == 0x1 {
        var verdict := classify(msg);
        if verdict.CursorTooOld? {
          events, status := events + [msg], Ended;
        } else if verdict.Event? {
          events := events + [msg];
        }
      }
      msg, op := [], 0;
    }
    next := Reader(msg, op, events, r.pings, status);
  }

  /** Read until the stream ends, answering pings on the way. */
  method ReadLoop(reader: ByteReader, conn: Connection, classify: Bytes -> Verdict, random: nat -> Option<Mask>)
    returns (r: Reader)
    modifies reader, conn
    ensures r == RunBytes(classify, START, old(reader.bytes)) && !r.status.Open?
    ensures conn.sent == Answered(old(conn.sent), r.pings, random)
  {
    r := START;
    assert old(conn.sent) + [] == old(conn.sent);
    while r.status.Open?
      invariant RunBytes(classify, r, reader.bytes) == RunBytes(classify, START, old(reader.bytes))
      invariant conn.sent == Answered(old(conn.sent), r.pings, random)
      decreases r.status.Open?, |reader.bytes|
    {
      var frame := reader.ReadFrame();
      if frame.None? {
        r := r.(status := Failed);
      } else {
        r := Handle(conn, old(conn.sent), classify, random, r, frame.value);
      }
    }
  }
}
