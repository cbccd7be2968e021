/** Agent frames over a stream, and the fields inside a frame body. */
module Framing {
  import opened Common
  import opened Fields
  import opened Stream

  const MAGIC: nat := 0x464C_554D
  const VERSION: nat := 1
  /** 128 MiB. */
  const MAX_BODY: nat := 0x800_0000
  const HEADER_BYTES := 28
  const HEADER_WIDTHS: seq<nat> := [4, 2, 2, 2, 2, 8, 4, 4]

  datatype Frame = Frame(kind: nat, requestId: nat, body: Bytes)

  predicate FrameFits(f: Frame) { f.kind < U16 && f.requestId < U64 && |f.body| <= MAX_BODY }

  // ---------------------------------------------------------------------------
  // One frame

  function HeaderFields(f: Frame): seq<nat> { [MAGIC, VERSION, f.kind, 0, 0, f.requestId, |f.body|, 0] }

  function EncodeFrame(f: Frame): Bytes { Pack(Big, HeaderFields(f), HEADER_WIDTHS) + f.body }

  lemma HeaderTotal()
    ensures Total(HEADER_WIDTHS) == HEADER_BYTES
  {
    assert HEADER_WIDTHS[1..] == [2, 2, 2, 2, 8, 4, 4];
    assert [2, 2, 2, 2, 8, 4, 4][1..] == [2, 2, 2, 8, 4, 4];
    assert [2, 2, 2, 8, 4, 4][1..] == [2, 2, 8, 4, 4];
    assert [2, 2, 8, 4, 4][1..] == [2, 8, 4, 4];
    assert [2, 8, 4, 4][1..] == [8, 4, 4];
    assert [8, 4, 4][1..] == [4, 4];
    assert [4, 4][1..] == [4];
    assert [4][1..] == [];
  }

  datatype Header = Header(kind: nat, requestId: nat, length: nat)

  /** The header checks; the reserved fields are not looked at. */
  function ParseHeader(data: Bytes): Option<Header>
    requires |data| == HEADER_BYTES
  {
    HeaderTotal();
    var f := Unpack(Big, data, HEADER_WIDTHS);
    if f[0] == MAGIC && f[1] == VERSION && f[6] <= MAX_BODY then Some(Header(f[2], f[5], f[6])) else None
  }

  /** The first frame of a stream and what follows it. */
  function ParseFrame(data: Bytes): (r: Option<(Frame, Bytes)>)
    ensures r.Some? ==> |r.value.1| + HEADER_BYTES + |r.value.0.body| == |data|
  {
    if |data| < HEADER_BYTES then None
    else
      match ParseHeader(data[..HEADER_BYTES])
      case None => None
      case Some(h) =>
        if |data| < HEADER_BYTES + h.length then None
        else Some((Frame(h.kind, h.requestId, data[HEADER_BYTES..HEADER_BYTES + h.length]),
                   data[HEADER_BYTES + h.length..]))
  }

  lemma HeaderFits(f: Frame)
    requires FrameFits(f)
    ensures Fitting(HeaderFields(f), HEADER_WIDTHS)
  {
    Powers();
  }

  lemma HeaderRoundTrip(f: Frame)
    requires FrameFits(f)
    ensures var header := Pack(Big, HeaderFields(f), HEADER_WIDTHS);
            |header| == HEADER_BYTES && ParseHeader(header) == Some(Header(f.kind, f.requestId, |f.body|))
  {
    HeaderTotal();
    HeaderFits(f);
    UnpackPack(Big, HeaderFields(f), HEADER_WIDTHS);
  }

  /** `value` is the big-endian field of `width` bytes at `at`. */
  predicate FieldAt(data: Bytes, at: nat, width: nat, value: nat) {
    at + width <= |data| && data[at..at + width] == Encode(Big, value, width)
  }

  lemma HeaderOffsets()
    ensures var w := HEADER_WIDTHS;
            && Offset(w, 0) == 0 && Offset(w, 1) == 4 && Offset(w, 2) == 6 && Offset(w, 3) == 8 && Offset(w, 4) == 10
            && Offset(w, 5) == 12 && Offset(w, 6) == 20 && Offset(w, 7) == 24
  {
    assert Offset(HEADER_WIDTHS, 2) == 6;
    assert Offset(HEADER_WIDTHS, 4) == 10;
    assert Offset(HEADER_WIDTHS, 6) == 20;
  }

  /** A frame is 28 header bytes, field by field, and then its body. */
  lemma FrameLayout(f: Frame)
    requires FrameFits(f)
    ensures var data := EncodeFrame(f);
            && FieldAt(data, 0, 4, 0x464C_554D) && FieldAt(data, 4, 2, 1) && FieldAt(data, 6, 2, f.kind)
            && FieldAt(data, 8, 2, 0) && FieldAt(data, 10, 2, 0) && FieldAt(data, 12, 8, f.requestId)
            && FieldAt(data, 20, 4, |f.body|) && FieldAt(data, 24, 4, 0)
            && |data| == 28 + |f.body| && data[28..] == f.body
  {
    HeaderRoundTrip(f);
    HeaderOffsets();
    var v, header := HeaderFields(f), Pack(Big, HeaderFields(f), HEADER_WIDTHS);
    forall i | 0 <= i < 8
      ensures FieldAt(EncodeFrame(f), Offset(HEADER_WIDTHS, i), HEADER_WIDTHS[i], v[i])
    {
      PackAt(Big, v, HEADER_WIDTHS, i);
      var at := Offset(HEADER_WIDTHS, i);
      assert (header + f.body)[at..at + HEADER_WIDTHS[i]] == header[at..at + HEADER_WIDTHS[i]];
    }
    var data := EncodeFrame(f);
    assert FieldAt(data, Offset(HEADER_WIDTHS, 0), 4, v[0]) && FieldAt(data, Offset(HEADER_WIDTHS, 1), 2, v[1]);
    assert FieldAt(data, Offset(HEADER_WIDTHS, 2), 2, v[2]) && FieldAt(data, Offset(HEADER_WIDTHS, 3), 2, v[3]);
    assert FieldAt(data, Offset(HEADER_WIDTHS, 4), 2, v[4]) && FieldAt(data, Offset(HEADER_WIDTHS, 5), 8, v[5]);
    assert FieldAt(data, Offset(HEADER_WIDTHS, 6), 4, v[6]) && FieldAt(data, Offset(HEADER_WIDTHS, 7), 4, v[7]);
  }

  /** A stream starts with a frame exactly if its first 28 bytes carry the magic number, the
      version and a size within the limit, and that many bytes follow; type and id are taken
      from their places, and the reserved fields are not looked at. */
  lemma FrameAcceptedExactly(data: Bytes)
    ensures ParseFrame(data).Some? <==>
            && |data| >= 28 && Decode(Big, data[0..4]) == 0x464C_554D && Decode(Big, data[4..6]) == 1
            && Decode(Big, data[20..24]) <= 0x800_0000 && |data| >= 28 + Decode(Big, data[20..24])
    ensures ParseFrame(data).Some? ==>
              var n := Decode(Big, data[20..24]);
              ParseFrame(data) ==
              Some((Frame(Decode(Big, data[6..8]), Decode(Big, data[12..20]), data[28..28 + n]), data[28 + n..]))
  {
    if |data| >= 28 {
      HeaderWords(data[..28]);
      HeaderSlices(data);
    }
  }

  lemma HeaderSlices(data: Bytes)
    requires |data| >= 28
    ensures var h := data[..28];
            && h[0..4] == data[0..4] && h[4..6] == data[4..6] && h[6..8] == data[6..8] && h[12..20] == data[12..20]
            && h[20..24] == data[20..24]
  {
  }

  lemma HeaderWords(h: Bytes)
    requires |h| == 28
    ensures Total(HEADER_WIDTHS) == 28
    ensures var f := Unpack(Big, h, HEADER_WIDTHS);
            && f[0] == Decode(Big, h[0..4]) && f[1] == Decode(Big, h[4..6]) && f[2] == Decode(Big, h[6..8])
            && f[5] == Decode(Big, h[12..20]) && f[6] == Decode(Big, h[20..24])
  {
    HeaderTotal();
    HeaderOffsets();
    UnpackAt(Big, h, HEADER_WIDTHS, 0);
    UnpackAt(Big, h, HEADER_WIDTHS, 1);
    UnpackAt(Big, h, HEADER_WIDTHS, 2);
    UnpackAt(Big, h, HEADER_WIDTHS, 5);
    UnpackAt(Big, h, HEADER_WIDTHS, 6);
  }

  /** A frame is read back from any stream that starts with it. */
  lemma FrameRoundTrip(f: Frame, rest: Bytes)
    requires FrameFits(f)
    ensures |EncodeFrame(f)| == HEADER_BYTES + |f.body|
    ensures ParseFrame(EncodeFrame(f) + rest) == Some((f, rest))
  {
    HeaderRoundTrip(f);
    var header := Pack(Big, HeaderFields(f), HEADER_WIDTHS);
    FrameSlices(header, f.body, rest);
  }

  lemma FrameSlices(header: Bytes, body: Bytes, rest: Bytes)
    requires |header| == HEADER_BYTES
    ensures var data := header + body + rest;
            && data[..HEADER_BYTES] == header
            && data[HEADER_BYTES..HEADER_BYTES + |body|] == body
            && data[HEADER_BYTES + |body|..] == rest
  {
  }

  /** A strict prefix of a frame is not a frame. */
  lemma TruncatedFrame(f: Frame, n: nat)
    requires FrameFits(f) && n < |EncodeFrame(f)|
    ensures ParseFrame(EncodeFrame(f)[..n]) == None
  {
    HeaderRoundTrip(f);
    var header := Pack(Big, HeaderFields(f), HEADER_WIDTHS);
    if n >= HEADER_BYTES {
      assert EncodeFrame(f)[..n][..HEADER_BYTES] == header;
    }
  }

  // ---------------------------------------------------------------------------
  // Streams of frames

  function EncodeFrames(frames: seq<Frame>): Bytes {
    if frames == [] then [] else EncodeFrame(frames[0]) + EncodeFrames(frames[1..])
  }

  function ParseFrames(data: Bytes): seq<Frame>
    decreases |data|
  {
    match ParseFrame(data)
    case None => []
    case Some((f, rest)) => [f] + ParseFrames(rest)
  }

  /** How many whole frames the first `n` bytes of a stream hold. */
  function WholeFrames(frames: seq<Frame>, n: nat): nat {
    if frames == [] || n < |EncodeFrame(frames[0])| then 0
    else 1 + WholeFrames(frames[1..], n - |EncodeFrame(frames[0])|)
  }

  lemma {:induction false} WholeFramesBound(frames: seq<Frame>, n: nat)
    ensures WholeFrames(frames, n) <= |frames|
    ensures n >= |EncodeFrames(frames)| ==> WholeFrames(frames, n) == |frames|
  {
    if frames != [] && n >= |EncodeFrame(frames[0])| {
      WholeFramesBound(frames[1..], n - |EncodeFrame(frames[0])|);
    }
  }

  /** The stream theorem: of the first `n` bytes of any written stream, exactly the frames
      that lie wholly inside are read back, unchanged and in order. */
  lemma {:induction false} FramesRoundTrip(frames: seq<Frame>, n: nat)
    requires (forall i :: 0 <= i < |frames| ==> FrameFits(frames[i])) && n <= |EncodeFrames(frames)|
    ensures WholeFrames(frames, n) <= |frames|
    ensures ParseFrames(EncodeFrames(frames)[..n]) == frames[..WholeFrames(frames, n)]
  {
    WholeFramesBound(frames, n);
    if frames != [] {
      var first, all := EncodeFrame(frames[0]), EncodeFrames(frames);
      if n < |first| {
        assert all[..n] == first[..n];
        TruncatedFrame(frames[0], n);
      } else {
        var m := n - |first|;
        assert all[..n] == first + EncodeFrames(frames[1..])[..m];
        FrameRoundTrip(frames[0], EncodeFrames(frames[1..])[..m]);
        FramesRoundTrip(frames[1..], m);
        assert frames[..1 + WholeFrames(frames[1..], m)] == [frames[0]] + frames[1..][..WholeFrames(frames[1..], m)];
      }
    }
  }

  method WriteFrame(socket: Socket, f: Frame) returns (ok: bool)
    requires f.kind < U16 && f.requestId < U64
    modifies socket
    ensures ok ==> |f.body| <= MAX_BODY && socket.outgoing == old(socket.outgoing) + EncodeFrame(f)
    ensures |f.body| > MAX_BODY ==> !ok && socket.outgoing == old(socket.outgoing)
    ensures Unbroken(old(socket.script)) ==> (ok <==> |f.body| <= MAX_BODY) && Unbroken(socket.script)
  {
    if |f.body| > MAX_BODY {
      return false;
    }
    var header := Pack(Big, HeaderFields(f), HEADER_WIDTHS);
    ok := socket.WriteAll(header);
    if ok && f.body != [] {
      ok := socket.WriteAll(f.body);
    }
  }

  lemma Concat(a: Bytes, b: Bytes, c: Bytes)
    ensures a + (b + c) == a + b + c
  {
  }

  lemma {:induction false} EncodeFramesAppend(frames: seq<Frame>, f: Frame)
    ensures EncodeFrames(frames + [f]) == EncodeFrames(frames) + EncodeFrame(f)
  {
    if frames == [] {
      assert frames + [f] == [f] && [f][1..] == [];
      assert EncodeFrames([]) == [];
    } else {
      var all := frames + [f];
      EncodeFramesAppend(frames[1..], f);
      assert all[0] == frames[0] && all[1..] == frames[1..] + [f];
      Concat(EncodeFrame(frames[0]), EncodeFrames(frames[1..]), EncodeFrame(f));
    }
  }

  lemma NextFrame(frames: seq<Frame>, i: nat)
    requires i < |frames|
    ensures EncodeFrames(frames[..i + 1]) == EncodeFrames(frames[..i]) + EncodeFrame(frames[i])
  {
    EncodeFramesAppend(frames[..i], frames[i]);
    assert frames[..i] + [frames[i]] == frames[..i + 1];
  }

  method WriteFrames(socket: Socket, frames: seq<Frame>) returns (ok: bool)
    requires forall i :: 0 <= i < |frames| ==> FrameFits(frames[i])
    modifies socket
    ensures ok ==> socket.outgoing == old(socket.outgoing) + EncodeFrames(frames)
    ensures Unbroken(old(socket.script)) ==> ok
  {
    for i := 0 to |frames|
      invariant socket.outgoing == old(socket.outgoing) + EncodeFrames(frames[..i])
      invariant Unbroken(old(socket.script)) ==> Unbroken(socket.script)
    {
      ok := WriteFrame(socket, frames[i]);
      if !ok {
        return;
      }
      NextFrame(frames, i);
    }
    assert frames[..|frames|] == frames;
    return true;
  }

  /** End to end: frames written in any chunks, of which the first `cut` bytes arrive in any
      chunks, are read back as exactly the frames that arrived whole. */
  method Transmit(frames: seq<Frame>, sending: seq<Turn>, receiving: seq<Turn>, cut: nat) returns (received: seq<Frame>)
    requires forall i :: 0 <= i < |frames| ==> FrameFits(frames[i])
    requires Unbroken(sending) && Unbroken(receiving)
    ensures WholeFrames(frames, cut) <= |frames| && received == frames[..WholeFrames(frames, cut)]
    ensures cut >= |EncodeFrames(frames)| ==> received == frames
  {
    var sender := new Socket([], sending);
    var _ := WriteFrames(sender, frames);
    assert sender.outgoing == EncodeFrames(frames);
    var arrived := if cut < |sender.outgoing| then sender.outgoing[..cut] else sender.outgoing;
    var receiver := new Socket(arrived, receiving);
    received := ReadFrames(receiver);
    WholeFramesBound(frames, cut);
    WholeFramesBound(frames, |arrived|);
    FramesRoundTrip(frames, |arrived|);
    assert EncodeFrames(frames)[..|arrived|] == arrived;
  }

  /** Reads the next frame; on an unbroken connection, exactly what `ParseFrame` finds. */
  method ReadFrame(socket: Socket) returns (frame: Option<Frame>)
    modifies socket
    ensures frame.Some? ==> ParseFrame(old(socket.incoming)) == Some((frame.value, socket.incoming))
    ensures Unbroken(old(socket.script)) ==>
              Unbroken(socket.script) && (frame == None <==> ParseFrame(old(socket.incoming)) == None)
  {
    var result, header := socket.ReadAll(HEADER_BYTES);
    if result != Success {
      return None;
    }
    assert header == old(socket.incoming)[..HEADER_BYTES];
    match ParseHeader(header) {
      case None =>
        return None;
      case Some(h) =>
        if h.length == 0 {
          assert old(socket.incoming)[HEADER_BYTES..HEADER_BYTES] == [];
          return Some(Frame(h.kind, h.requestId, []));
        }
        var bodyResult, body := socket.ReadAll(h.length);
        if bodyResult != Success {
          return None;
        }
        assert body == old(socket.incoming)[HEADER_BYTES..HEADER_BYTES + h.length];
        assert socket.incoming == old(socket.incoming)[HEADER_BYTES + h.length..];
        return Some(Frame(h.kind, h.requestId, body));
    }
  }

  /** Reads frames until there is none: exactly the frames of the stream if the connection
      holds, and a prefix of them if it breaks. */
  method ReadFrames(socket: Socket) returns (frames: seq<Frame>)
    modifies socket
    ensures frames <= ParseFrames(old(socket.incoming))
    ensures Unbroken(old(socket.script)) ==> frames == ParseFrames(old(socket.incoming))
  {
    frames := [];
    ghost var before := ParseFrames(socket.incoming);
    var next := ReadFrame(socket);
    while next.Some?
      invariant Unbroken(old(socket.script)) ==> Unbroken(socket.script)
      invariant next.Some? ==> before == frames + [next.value] + ParseFrames(socket.incoming)
      invariant next == None ==> frames <= before && (Unbroken(old(socket.script)) ==> frames == before)
      decreases next.Some?, |socket.incoming|
    {
      frames := frames + [next.value];
      ghost var data := socket.incoming;
      next := ReadFrame(socket);
      if next.Some? {
        assert ParseFrames(data) == [next.value] + ParseFrames(socket.incoming);
        assert frames + ParseFrames(data) == frames + [next.value] + ParseFrames(socket.incoming);
      }
    }
  }

  // ---------------------------------------------------------------------------
  // Fields of a body

  datatype Field = F16(value: nat) | F32(value: nat) | F64(value: nat) | Text(bytes: Bytes) | Raw(bytes: Bytes)

  /** What a reader must know to read a field. */
  datatype Shape = S16 | S32 | S64 | SText | SRaw(size: nat)

  function ShapeOf(f: Field): Shape {
    match f
    case F16(_) => S16
    case F32(_) => S32
    case F64(_) => S64
    case Text(_) => SText
    case Raw(b) => SRaw(|b|)
  }

  /** A text's size is written as 32 bits. */
  function AppendField(f: Field): Bytes {
    match f
    case F16(v) => Encode(Big, v, 2)
    case F32(v) => Encode(Big, v, 4)
    case F64(v) => Encode(Big, v, 8)
    case Text(b) => Encode(Big, |b| % U32, 4) + b
    case Raw(b) => b
  }

  /** Integers are appended most significant byte first; */
  lemma IntegerBytes(v: nat, k: nat)
    ensures k < 2 ==> AppendField(F16(v))[1 - k] as nat == ByteOf(v, k)
    ensures k < 4 ==> AppendField(F32(v))[3 - k] as nat == ByteOf(v, k)
    ensures k < 8 ==> AppendField(F64(v))[7 - k] as nat == ByteOf(v, k)
  {
    if k < 2 {
      EncodeByte(Big, v, 2, k);
    }
    if k < 4 {
      EncodeByte(Big, v, 4, k);
    }
    if k < 8 {
      EncodeByte(Big, v, 8, k);
    }
  }

  /** a text is its 32-bit size and itself. */
  lemma TextBytes(b: Bytes, k: nat)
    ensures var data := AppendField(Text(b));
            |data| == 4 + |b| && data[4..] == b && (k < 4 ==> data[3 - k] as nat == ByteOf(|b| % 0x1_0000_0000, k))
  {
    if k < 4 {
      EncodeByte(Big, |b| % U32, 4, k);
    }
  }

  /** Integers have their C type's range. */
  predicate Typed(f: Field) {
    match f
    case F16(v) => v < U16
    case F32(v) => v < U32
    case F64(v) => v < U64
    case Text(_) => true
    case Raw(_) => true
  }

  /** A text whose size the 32-bit length can hold. */
  predicate Short(f: Field) { f.Text? ==> |f.bytes| < U32 }

  function AppendFields(fields: seq<Field>): Bytes {
    if fields == [] then [] else AppendField(fields[0]) + AppendFields(fields[1..])
  }

  function TakeField(data: Bytes, shape: Shape): (r: Option<(Field, Bytes)>)
    ensures r.Some? ==> |r.value.1| <= |data|
  {
    match shape
    case S16 => if |data| < 2 then None else Some((F16(Decode(Big, data[..2])), data[2..]))
    case S32 => if |data| < 4 then None else Some((F32(Decode(Big, data[..4])), data[4..]))
    case S64 => if |data| < 8 then None else Some((F64(Decode(Big, data[..8])), data[8..]))
    case SText =>
      if |data| < 4 then None
      else
        var n := Decode(Big, data[..4]);
        if |data| < 4 + n then None else Some((Text(data[4..4 + n]), data[4 + n..]))
    case SRaw(n) => if |data| < n then None else Some((Raw(data[..n]), data[n..]))
  }

  function TakeFields(data: Bytes, shapes: seq<Shape>): Option<(seq<Field>, Bytes)> {
    if shapes == [] then Some(([], data))
    else
      match TakeField(data, shapes[0])
      case None => None
      case Some((f, rest)) =>
        match TakeFields(rest, shapes[1..])
        case None => None
        case Some((fields, end)) => Some(([f] + fields, end))
  }

  lemma FixedRoundTrip(value: nat, n: nat, rest: Bytes)
    requires value < Pow256(n)
    ensures var data := Encode(Big, value, n) + rest;
            |data| >= n && Decode(Big, data[..n]) == value && data[n..] == rest
  {
    DecodeEncode(Big, value, n);
    assert (Encode(Big, value, n) + rest)[..n] == Encode(Big, value, n);
  }

  /** A field is read back exactly when it is not a text of 4 GiB or more. */
  lemma FieldRoundTrip(f: Field, rest: Bytes)
    requires Typed(f)
    ensures TakeField(AppendField(f) + rest, ShapeOf(f)) == Some((f, rest)) <==> Short(f)
    ensures !Short(f) ==>
              var r := TakeField(AppendField(f) + rest, ShapeOf(f)); r.Some? ==> r.value.0 != f
  {
    Powers();
    match f
    case F16(v) => FixedRoundTrip(v, 2, rest);
    case F32(v) => FixedRoundTrip(v, 4, rest);
    case F64(v) => FixedRoundTrip(v, 8, rest);
    case Text(b) => TextRoundTrip(b, rest);
    case Raw(b) =>
  }

  lemma TextRoundTrip(b: Bytes, rest: Bytes)
    ensures var r := TakeField(AppendField(Text(b)) + rest, SText);
            && (|b| < U32 ==> r == Some((Text(b), rest)))
            && (|b| >= U32 ==> r.Some? ==> r.value.0 != Text(b))
  {
    var n := |b| % U32;
    assert n < Pow256(4) by {
      Powers();
    }
    FixedRoundTrip(n, 4, b + rest);
    TextSlices(Encode(Big, n, 4), b, rest);
  }

  lemma TextSlices(size: Bytes, b: Bytes, rest: Bytes)
    requires |size| == 4
    ensures var data := size + b + rest;
            data == size + (b + rest) && data[4..4 + |b|] == b && data[4 + |b|..] == rest
  {
  }

  function Shapes(fields: seq<Field>): seq<Shape> {
    seq(|fields|, i requires 0 <= i < |fields| => ShapeOf(fields[i]))
  }

  /** Any list of appended fields is read back in order, exactly when it holds no text of
      4 GiB or more. */
  lemma {:induction false} FieldsRoundTrip(fields: seq<Field>, rest: Bytes)
    requires forall i :: 0 <= i < |fields| ==> Typed(fields[i])
    ensures TakeFields(AppendFields(fields) + rest, Shapes(fields)) == Some((fields, rest)) <==>
            forall i :: 0 <= i < |fields| ==> Short(fields[i])
  {
    if fields == [] {
      assert AppendFields(fields) + rest == rest;
    } else {
      var tail := AppendFields(fields[1..]) + rest;
      Concat(AppendField(fields[0]), AppendFields(fields[1..]), rest);
      FieldRoundTrip(fields[0], tail);
      FieldsRoundTrip(fields[1..], rest);
      assert Shapes(fields)[1..] == Shapes(fields[1..]);
      FieldsSplit(AppendFields(fields) + rest, fields, tail, rest);
      assert forall i :: 1 <= i < |fields| ==> fields[i] == fields[1..][i - 1];
      if forall i :: 0 <= i < |fields| ==> Short(fields[i]) {
        assert forall i :: 0 <= i < |fields[1..]| ==> fields[1..][i] == fields[i + 1];
      }
    }
  }

  /** Reading a list is reading its head and then its tail. */
  lemma FieldsSplit(data: Bytes, fields: seq<Field>, tail: Bytes, rest: Bytes)
    requires fields != [] && Shapes(fields)[1..] == Shapes(fields[1..])
    requires var r := TakeField(data, ShapeOf(fields[0]));
             r == Some((fields[0], tail)) || r == None || r.value.0 != fields[0]
    ensures TakeFields(data, Shapes(fields)) == Some((fields, rest)) <==>
            TakeField(data, ShapeOf(fields[0])) == Some((fields[0], tail)) &&
            TakeFields(tail, Shapes(fields[1..])) == Some((fields[1..], rest))
  {
    assert fields == [fields[0]] + fields[1..];
    var r := TakeField(data, ShapeOf(fields[0]));
    if r.Some? {
      var more := TakeFields(r.value.1, Shapes(fields[1..]));
      if more.Some? {
        var whole := [r.value.0] + more.value.0;
        assert whole[0] == r.value.0 && whole[1..] == more.value.0;
      }
    }
  }

  /** The reader: a cursor that never passes the end of the data. */
  class Reader {
    const data: Bytes
    var offset: nat

    ghost predicate Valid()
      reads this
    {
      offset <= |data|
    }

    /** What has not been read yet. */
    ghost function Rest(): Bytes
      reads this
      requires Valid()
    {
      data[offset..]
    }

    constructor (data: Bytes)
      ensures Valid() && this.data == data && Rest() == data
    {
      this.data, this.offset := data, 0;
    }

    method ReadRaw(size: nat) returns (raw: Option<Bytes>)
      requires Valid()
      modifies this
      ensures Valid() && (raw.Some? <==> size <= |old(Rest())|)
      ensures if raw.Some? then raw.value == old(Rest())[..size] && Rest() == old(Rest())[size..]
              else offset == old(offset)
    {
      if size > |data| - offset {
        return None;
      }
      raw := Some(data[offset..offset + size]);
      offset := offset + size;
    }

    method ReadInt(size: nat) returns (value: Option<nat>)
      requires Valid()
      modifies this
      ensures Valid() && (value.Some? <==> size <= |old(Rest())|)
      ensures if value.Some? then value.value == Decode(Big, old(Rest())[..size]) && Rest() == old(Rest())[size..]
              else offset == old(offset)
    {
      var raw := ReadRaw(size);
      match raw {
        case None =>
          return None;
        case Some(bytes) =>
          var v := LoadInt(bytes);
          return Some(v);
      }
    }

    /** Any field, as the parsing function defines it; a field that is not there leaves the
        cursor where it was, or behind the size of a text that is cut short. */
    method ReadField(shape: Shape) returns (field: Option<Field>)
      requires Valid()
      modifies this
      ensures Valid() && old(offset) <= offset
      ensures field.Some? <==> TakeField(old(Rest()), shape).Some?
      ensures field.Some? ==> TakeField(old(Rest()), shape) == Some((field.value, Rest()))
    {
      match shape {
        case S16 =>
          var v := ReadInt(2);
          return if v.Some? then Some(F16(v.value)) else None;
        case S32 =>
          var v := ReadInt(4);
          return if v.Some? then Some(F32(v.value)) else None;
        case S64 =>
          var v := ReadInt(8);
          return if v.Some? then Some(F64(v.value)) else None;
        case SText =>
          var n := ReadInt(4);
          if n == None {
            return None;
          }
          ghost var rest := Rest();
          var raw := ReadRaw(n.value);
          assert raw.Some? ==>
              old(Rest())[4..4 + n.value] == rest[..n.value] && old(Rest())[4 + n.value..] == rest[n.value..];
          return if raw.Some? then Some(Text(raw.value)) else None;
        case SRaw(n) =>
          var raw := ReadRaw(n);
          return if raw.Some? then Some(Raw(raw.value)) else None;
      }
    }
  }

  /** Big-endian loads, byte by byte. */
  method LoadInt(data: Bytes) returns (value: nat)
    ensures value == Decode(Big, data)
  {
    value := 0;
    for i := 0 to |data|
      invariant value == Decode(Big, data[..i])
    {
      assert data[..i + 1][..i] == data[..i];
      value := value * 256 + data[i] as nat;
    }
    assert data[..|data|] == data;
  }
}
