/**
 WebSocket frames (sections 5.2 and 5.3 of RFC 6455): the printer the client
 writes with and the reader it reads with.
 */
module WsCodec {
  import opened Basics

  datatype Frame = Frame(fin: bool, opcode: byte, payload: Bytes)

  type Mask = m: Bytes | |m| == 4 witness [0, 0, 0, 0]

  // --------------------------------------------------------------------- bits

  /** Exclusive or, from the lowest bit up. */
  function Xor(a: nat, b: nat): nat
    decreases a + b
  {
    if a == 0 && b == 0 then 0 else (a % 2 + b % 2) % 2 + 2 * Xor(a / 2, b / 2)
  }

  lemma XorSplits(a: nat, b: nat)
    ensures Xor(a, b) % 2 == (a % 2 + b % 2) % 2 && Xor(a, b) / 2 == Xor(a / 2, b / 2)
  {
  }

  lemma BitTwice(p: nat, q: nat)
    requires p < 2 && q < 2
    ensures ((p + q) % 2 + q) % 2 == p
  {
  }

  lemma {:induction false} XorTwice(a: nat, b: nat)
    ensures Xor(Xor(a, b), b) == a
    decreases a + b
  {
    if a != 0 || b != 0 {
      XorTwice(a / 2, b / 2);
      XorSplits(a, b);
      XorSplits(Xor(a, b), b);
      BitTwice(a % 2, b % 2);
    }
  }

  lemma {:induction false} XorBound(a: nat, b: nat, k: nat)
    requires a < Pow2(k) && b < Pow2(k)
    ensures Xor(a, b) < Pow2(k)
    decreases k
  {
    if k > 0 {
      XorBound(a / 2, b / 2, k - 1);
    }
  }

  function Pow2(k: nat): (p: nat)
    ensures p >= 1
  {
    if k == 0 then 1 else 2 * Pow2(k - 1)
  }

  /** Bit `i` of a number, counted from the lowest. */
  function Bit(n: nat, i: nat): nat {
    if i == 0 then n % 2 else Bit(n / 2, i - 1)
  }

  /** Each bit of the result is the exclusive or of the two bits. */
  lemma {:induction false} XorBits(a: nat, b: nat, i: nat)
    ensures Bit(Xor(a, b), i) == (Bit(a, i) + Bit(b, i)) % 2
    decreases i
  {
    XorSplits(a, b);
    if i > 0 {
      XorBits(a / 2, b / 2, i - 1);
    }
  }

  function XorBytes(a: byte, b: byte): byte {
    assert Pow2(8) == 256 by {
      assert Pow2(4) == 16;
      assert Pow2(8) == 16 * Pow2(4);
    }
    XorBound(a, b, 8);
    Xor(a, b)
  }

  /** Set the top bit of a byte. */
  function SetTop(b: byte): byte {
    if b >= 128 then b else b + 128
  }

  /** Whether the top bit of a byte is set. */
  predicate Top(b: byte) {
    b >= 128
  }

  // --------------------------------------------------------------- big endian

  function Pow256(k: nat): (p: nat)
    ensures p >= 1
  {
    if k == 0 then 1 else 256 * Pow256(k - 1)
  }

  function BigEndian(n: nat, k: nat): (s: Bytes)
    ensures |s| == k
  {
    if k == 0 then [] else BigEndian(n / 256, k - 1) + [n % 256]
  }

  function FromBigEndian(s: Bytes): nat {
    if s == [] then 0 else FromBigEndian(s[..|s| - 1]) * 256 + s[|s| - 1]
  }

  lemma FromBigEndianSnoc(s: Bytes, b: byte)
    ensures FromBigEndian(s + [b]) == FromBigEndian(s) * 256 + b
  {
    assert (s + [b])[..|s|] == s;
  }

  lemma {:induction false} BigEndianReads(n: nat, k: nat)
    requires n < Pow256(k)
    ensures FromBigEndian(BigEndian(n, k)) == n
  {
    if k > 0 {
      BigEndianReads(n / 256, k - 1);
      FromBigEndianSnoc(BigEndian(n / 256, k - 1), n % 256);
    }
  }

  /** The most significant byte comes first. */
  lemma {:induction false} HighFirst(b: byte, s: Bytes)
    ensures FromBigEndian([b] + s) == b * Pow256(|s|) + FromBigEndian(s)
  {
    if s == [] {
      assert [b] + s == [] + [b];
      FromBigEndianSnoc([], b);
    } else {
      var init, last := s[..|s| - 1], s[|s| - 1];
      HighFirst(b, init);
      assert [b] + s == ([b] + init) + [last] && s == init + [last];
      FromBigEndianSnoc([b] + init, last);
      FromBigEndianSnoc(init, last);
      Shifted(b, Pow256(|init|), FromBigEndian(init), last);
    }
  }

  lemma Shifted(b: nat, p: nat, x: nat, y: nat)
    ensures (b * p + x) * 256 + y == b * (256 * p) + (x * 256 + y)
  {
  }

  lemma DivMod(q: nat, r: byte)
    ensures (q * 256 + r) / 256 == q && (q * 256 + r) % 256 == r
  {
  }

  /** Printing and reading are inverse both ways. */
  lemma {:induction false} BigEndianPrints(s: Bytes)
    ensures BigEndian(FromBigEndian(s), |s|) == s
  {
    if s != [] {
      var init, last := s[..|s| - 1], s[|s| - 1];
      BigEndianPrints(init);
      assert s == init + [last];
      DivMod(FromBigEndian(init), last);
    }
  }

  lemma {:induction false} FromBigEndianBound(s: Bytes)
    ensures FromBigEndian(s) < Pow256(|s|)
  {
    if s != [] {
      FromBigEndianBound(s[..|s| - 1]);
    }
  }

  // ------------------------------------------------------------------ masking

  function Masked(payload: Bytes, mask: Mask): (s: Bytes)
    ensures |s| == |payload|
    ensures forall i :: 0 <= i < |payload| ==> s[i] == XorBytes(payload[i], mask[i % 4])
  {
    seq(|payload|, i requires 0 <= i < |payload| => XorBytes(payload[i], mask[i % 4]))
  }

  /** Masking twice with one mask gives the payload back. */
  lemma MaskTwice(payload: Bytes, mask: Mask)
    ensures Masked(Masked(payload, mask), mask) == payload
  {
    forall i | 0 <= i < |payload| ensures Masked(Masked(payload, mask), mask)[i] == payload[i] {
      XorTwice(payload[i], mask[i % 4]);
    }
  }

  // ----------------------------------------------------------------- printing

  function FirstByte(fin: bool, opcode: byte): byte {
    if fin then SetTop(opcode) else opcode
  }

  /** The length field, under the mask bit. */
  function FieldByte(masked: bool, field: byte): byte {
    if masked then SetTop(field) else field
  }

  /** The length in its shortest form: 7 bits, 16 or 64. */
  function LengthBytes(n: nat, masked: bool): Bytes {
    if n < 126 then [FieldByte(masked, n)]
    else if n < 65536 then [FieldByte(masked, 126)] + BigEndian(n, 2)
    else [FieldByte(masked, 127)] + BigEndian(n, 8)
  }

  function Body(payload: Bytes, mask: Option<Mask>): Bytes {
    if mask.Some? then mask.value + Masked(payload, mask.value) else payload
  }

  function Print(f: Frame, mask: Option<Mask>): Bytes {
    [FirstByte(f.fin, f.opcode)] + LengthBytes(|f.payload|, mask.Some?) + Body(f.payload, mask)
  }

  /** The masked length, in the form its size calls for. */
  method LengthHeader(length: nat) returns (s: Bytes)
    ensures s == LengthBytes(length, true)
  {
    if length < 126 {
      s := [SetTop(length)];
    } else if length < 65536 {
      s := [SetTop(126)];
      s := s + BigEndian(length, 2);
    } else {
      s := [SetTop(127)];
      s := s + BigEndian(length, 8);
    }
  }

  /** What the connection has carried. */
  class Connection {
    var sent: Bytes

    constructor ()
      ensures sent == []
    {
      sent := [];
    }

    /** Write one whole frame, masked; without randomness nothing is sent. */
    method WriteFrame(opcode: byte, payload: Bytes, random: Option<Mask>) returns (ok: bool)
      modifies this
      ensures ok == random.Some?
      ensures sent == old(sent) + if ok then Print(Frame(true, opcode, payload), random) else []
    {
      var header: Bytes := [SetTop(opcode)];
      var lengthBytes := LengthHeader(|payload|);
      header := header + lengthBytes;
      if random.None? {
        return false;
      }
      var mask := random.value;
      header := header + mask;
      var masked: Bytes := [];
      for i := 0 to |payload|
        invariant |masked| == i
        invariant forall j :: 0 <= j < i ==> masked[j] == XorBytes(payload[j], mask[j % 4])
      {
        masked := masked + [XorBytes(payload[i], mask[i % 4])];
      }
      assert masked == Masked(payload, mask);
      sent := sent + (header + masked);
      Appended([SetTop(opcode)] + lengthBytes, mask, masked);
      ok := true;
    }
  }

  // ------------------------------------------------------------------ reading

  datatype Reading = Short | Read(frame: Frame, masked: bool, rest: Bytes)

  datatype Length = NoLength | Length(n: nat, rest: Bytes)

  /** The payload length that follows the 7-bit field. */
  function ReadLength(field: byte, s: Bytes): Length {
    if field == 126 then if |s| < 2 then NoLength else Length(FromBigEndian(s[..2]), s[2..])
    else if field == 127 then if |s| < 8 then NoLength else Length(FromBigEndian(s[..8]), s[8..])
    else Length(field, s)
  }

  function ReadBody(fin: bool, opcode: byte, masked: bool, n: nat, s: Bytes): Reading {
    if !masked then
      if |s| < n then Short else Read(Frame(fin, opcode, s[..n]), false, s[n..])
    else if |s| < 4 || |s| - 4 < n then Short
    else Read(Frame(fin, opcode, Masked(s[4..4 + n], s[..4])), true, s[4 + n..])
  }

  /** What follows the first two bytes. */
  function ParseAfter(first: byte, second: byte, s: Bytes): (r: Reading)
    ensures r.Read? ==> |r.rest| <= |s|
  {
    match ReadLength(second % 128, s)
    case NoLength => Short
    case Length(n, rest) => ReadBody(Top(first), first % 16, Top(second), n, rest)
  }

  function Parse(s: Bytes): (r: Reading)
    ensures r.Read? ==> |r.rest| < |s|
  {
    if |s| < 2 then Short else ParseAfter(s[0], s[1], s[2..])
  }

  lemma ParseAfterStable(first: byte, second: byte, p: Bytes, q: Bytes)
    requires ParseAfter(first, second, p).Read?
    ensures ParseAfter(first, second, p + q)
         == ParseAfter(first, second, p).(rest := ParseAfter(first, second, p).rest + q)
  {
    var length := ReadLength(second % 128, p);
    LengthStable(second % 128, p, q);
    BodyStable(Top(first), first % 16, Top(second), length.n, length.rest, q);
  }

  /** More bytes never change a frame that was there already. */
  lemma ParseStable(p: Bytes, q: Bytes)
    requires Parse(p).Read?
    ensures Parse(p + q) == Parse(p).(rest := Parse(p).rest + q)
  {
    assert (p + q)[0] == p[0] && (p + q)[1] == p[1] && (p + q)[2..] == p[2..] + q;
    ParseAfterStable(p[0], p[1], p[2..], q);
  }

  lemma LengthStable(field: byte, p: Bytes, q: Bytes)
    requires ReadLength(field, p).Length?
    ensures ReadLength(field, p + q) == Length(ReadLength(field, p).n, ReadLength(field, p).rest + q)
  {
    var k := if field == 126 then 2 else if field == 127 then 8 else 0;
    assert (p + q)[..k] == p[..k] && (p + q)[k..] == p[k..] + q;
  }

  lemma BodyStable(fin: bool, opcode: byte, masked: bool, n: nat, p: Bytes, q: Bytes)
    requires ReadBody(fin, opcode, masked, n, p).Read?
    ensures var r := ReadBody(fin, opcode, masked, n, p);
            ReadBody(fin, opcode, masked, n, p + q) == r.(rest := r.rest + q)
  {
    var s := p + q;
    if masked {
      assert s[..4] == p[..4] && s[4..4 + n] == p[4..4 + n] && s[4 + n..] == p[4 + n..] + q;
    } else {
      assert s[..n] == p[..n] && s[n..] == p[n..] + q;
    }
  }

  /** The 7-bit field the printer chooses. */
  function Field(n: nat): byte {
    if n < 126 then n else if n < 65536 then 126 else 127
  }

  /** The length bytes of `n`, whose field says how to read what follows it. */
  ghost predicate ReadsBack(n: nat, masked: bool, s: Bytes, rest: Bytes) {
    && |s| >= 1 && Top(s[0]) == masked && s[0] % 128 == Field(n)
    && ReadLength(Field(n), s[1..]) == Length(n, rest)
  }

  lemma LongLengthReads(n: nat, k: nat, masked: bool, field: byte, rest: Bytes)
    requires n < Pow256(k) && field == Field(n) && ((field == 126 && k == 2) || (field == 127 && k == 8))
    ensures ReadsBack(n, masked, [FieldByte(masked, field)] + BigEndian(n, k) + rest, rest)
  {
    BigEndianReads(n, k);
    var s := [FieldByte(masked, field)] + BigEndian(n, k) + rest;
    assert s[1..][..k] == BigEndian(n, k) && s[1..][k..] == rest;
  }

  lemma LengthReads(n: nat, masked: bool, rest: Bytes)
    requires n < Pow256(8)
    ensures ReadsBack(n, masked, LengthBytes(n, masked) + rest, rest)
  {
    if n < 126 {
      assert (LengthBytes(n, masked) + rest)[1..] == rest;
    } else if n < 65536 {
      assert Pow256(2) == 256 * Pow256(1) == 65536;
      LongLengthReads(n, 2, masked, 126, rest);
    } else {
      LongLengthReads(n, 8, masked, 127, rest);
    }
  }

  lemma BodyReads(f: Frame, mask: Option<Mask>, rest: Bytes)
    ensures ReadBody(f.fin, f.opcode, mask.Some?, |f.payload|, Body(f.payload, mask) + rest) == Read(f, mask.Some?, rest)
  {
    var n := |f.payload|;
    if mask.Some? {
      var s := mask.value + Masked(f.payload, mask.value) + rest;
      MaskTwice(f.payload, mask.value);
      assert s[..4] == mask.value && s[4..4 + n] == Masked(f.payload, mask.value) && s[4 + n..] == rest;
    } else {
      var s := f.payload + rest;
      assert s[..n] == f.payload && s[n..] == rest;
    }
  }

  lemma ParseHeader(first: byte, tail: Bytes, n: nat, rest: Bytes)
    requires tail != [] && ReadLength(tail[0] % 128, tail[1..]) == Length(n, rest)
    ensures Parse([first] + tail) == ReadBody(Top(first), first % 16, Top(tail[0]), n, rest)
  {
    var s := [first] + tail;
    assert s[0] == first && s[1] == tail[0] && s[2..] == tail[1..];
  }

  lemma PrintSplits(f: Frame, mask: Option<Mask>, rest: Bytes)
    ensures Print(f, mask) + rest
         == [FirstByte(f.fin, f.opcode)] + (LengthBytes(|f.payload|, mask.Some?) + (Body(f.payload, mask) + rest))
  {
    var a, b, c := [FirstByte(f.fin, f.opcode)], LengthBytes(|f.payload|, mask.Some?), Body(f.payload, mask);
    Appended(a + b, c, rest);
    Appended(a, b, c + rest);
  }

  /** A printed frame reads back, consuming exactly its bytes, whatever follows,
      in all three length forms and under every mask. */
  lemma PrintReads(f: Frame, mask: Option<Mask>, rest: Bytes)
    requires f.opcode < 16 && |f.payload| < Pow256(8)
    ensures Parse(Print(f, mask) + rest) == Read(f, mask.Some?, rest)
  {
    var n, body := |f.payload|, Body(f.payload, mask) + rest;
    PrintSplits(f, mask, rest);
    LengthReads(n, mask.Some?, body);
    ParseHeader(FirstByte(f.fin, f.opcode), LengthBytes(n, mask.Some?) + body, n, body);
    BodyReads(f, mask, rest);
  }

  /** How many length bytes follow the second byte of a frame of `n` bytes. */
  function Extra(n: nat): nat {
    if n < 126 then 0 else if n < 65536 then 2 else 8
  }

  /** The head of a frame by section 5.2 of RFC 6455: FIN and opcode; the mask bit
      and the length or what announces it; the length, high byte first. */
  lemma HeadLayout(f: Frame, mask: Option<Mask>)
    requires f.opcode < 16 && |f.payload| < Pow256(8)
    ensures var n, s := |f.payload|, Print(f, mask);
      && |s| == 2 + Extra(n) + |Body(f.payload, mask)|
      && s[0] == (if f.fin then 128 else 0) + f.opcode
      && s[1] == (if mask.Some? then 128 else 0) + (if Extra(n) == 0 then n else if Extra(n) == 2 then 126 else 127)
      && (Extra(n) > 0 ==> FromBigEndian(s[2..2 + Extra(n)]) == n)
      && s[2 + Extra(n)..] == Body(f.payload, mask)
  {
    var n, s := |f.payload|, Print(f, mask);
    var lengths, body := LengthBytes(n, mask.Some?), Body(f.payload, mask);
    assert s == [FirstByte(f.fin, f.opcode)] + lengths + body;
    assert |lengths| == 1 + Extra(n) && s[1] == lengths[0];
    assert s[2..2 + Extra(n)] == lengths[1..];
    if Extra(n) > 0 {
      assert lengths[1..] == BigEndian(n, Extra(n));
      assert Pow256(2) == 256 * Pow256(1) == 65536;
      BigEndianReads(n, Extra(n));
    }
  }

  /** The rest of it: the mask, and each byte of the payload combined bit by bit
      with the mask's byte in turn; or the payload as it is. */
  lemma BodyLayout(payload: Bytes, mask: Option<Mask>, i: nat, b: nat)
    requires i < |payload|
    ensures mask.None? ==> Body(payload, mask) == payload
    ensures mask.Some? ==>
      && Body(payload, mask)[..4] == mask.value && |Body(payload, mask)| == 4 + |payload|
      && Bit(Body(payload, mask)[4 + i], b) == (Bit(payload[i], b) + Bit(mask.value[i % 4], b)) % 2
  {
    if mask.Some? {
      assert Body(payload, mask)[4 + i] == XorBytes(payload[i], mask.value[i % 4]);
      XorBits(payload[i], mask.value[i % 4], b);
    }
  }

  /** The printer uses the shortest form: whatever bytes read as this frame,
      masked or not as printed, are at least as many. */
  lemma PrintIsShortest(s: Bytes, f: Frame, mask: Option<Mask>)
    requires Parse(s) == Read(f, mask.Some?, [])
    ensures |Print(f, mask)| <= |s|
  {
    if s[1] % 128 == 126 {
      FromBigEndianBound(s[2..][..2]);
      assert Pow256(2) == 256 * Pow256(1) == 65536;
    }
  }

  /** Reading gave what `Parse` says, and left what it leaves. */
  predicate IsReading(r: Option<Frame>, left: Bytes, reading: Reading) {
    match reading
    case Short => r.None?
    case Read(f, _, rest) => r == Some(f) && left == rest
  }

  /** The buffered reader over what the peer sent. */
  class ByteReader {
    var bytes: Bytes

    constructor (bytes: Bytes)
      ensures this.bytes == bytes
    {
      this.bytes := bytes;
    }

    method ReadFull(n: nat) returns (r: Option<Bytes>)
      modifies this
      ensures r.Some? <==> n <= |old(bytes)|
      ensures r.Some? ==> r.value == old(bytes)[..n] && bytes == old(bytes)[n..]
    {
      if n > |bytes| {
        bytes := [];
        return None;
      }
      r := Some(bytes[..n]);
      bytes := bytes[n..];
    }

    /** Read the extended length, if the field says there is one. */
    method ReadLengthField(field: byte) returns (r: Option<nat>)
      modifies this
      ensures match ReadLength(field, old(bytes))
              case NoLength => r.None?
              case Length(n, rest) => r == Some(n) && bytes == rest
    {
      if field == 126 {
        var ext := ReadFull(2);
        r := if ext.None? then None else Some(FromBigEndian(ext.value));
      } else if field == 127 {
        var ext := ReadFull(8);
        r := if ext.None? then None else Some(FromBigEndian(ext.value));
      } else {
        r := Some(field);
      }
    }

    /** Read mask and payload, and unmask in place. */
    method ReadPayload(fin: bool, opcode: byte, masked: bool, n: nat) returns (r: Option<Frame>)
      modifies this
      ensures IsReading(r, bytes, ReadBody(fin, opcode, masked, n, old(bytes)))
    {
      ghost var all := bytes;
      var mask: Mask := [0, 0, 0, 0];
      if masked {
        var m := ReadFull(4);
        if m.None? {
          return None;
        }
        mask := m.value;
      }
      var body := ReadFull(n);
      if body.None? {
        return None;
      }
      var payload := body.value;
      if masked {
        assert all[4..][..n] == all[4..4 + n] && all[4..][n..] == all[4 + n..];
        for i := 0 to |payload|
          invariant |payload| == n
          invariant forall j :: 0 <= j < i ==> payload[j] == XorBytes(body.value[j], mask[j % 4])
          invariant forall j :: i <= j < n ==> payload[j] == body.value[j]
        {
          payload := payload[i := XorBytes(payload[i], mask[i % 4])];
        }
        assert payload == Masked(body.value, mask);
      }
      r := Some(Frame(fin, opcode, payload));
    }

    /** Read one frame: what `Parse` says, and exactly its bytes. */
    method ReadFrame() returns (r: Option<Frame>)
      modifies this
      ensures IsReading(r, bytes, Parse(old(bytes)))
    {
      ghost var all := bytes;
      var h := ReadFull(2);
      if h.None? {
        return None;
      }
      var first, second := h.value[0], h.value[1];
      assert all[..2][0] == all[0] && all[..2][1] == all[1];
      var n := ReadLengthField(second % 128);
      if n.None? {
        return None;
      }
      r := ReadPayload(Top(first), first % 16, Top(second), n.value);
    }
  }
}
