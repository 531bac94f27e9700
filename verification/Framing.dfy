/** Frames in sequence: a file is their concatenation (event_file_reader.cpp), and a datagram is a
    counted run of them behind its own header (packet.cpp). */
module Framing {
  import opened Domain
  import opened ByteIo
  import opened Codec
  import P = Protocol

  type Frame = Result<P.Event, DecodeError>

  ghost predicate AllFit(events: seq<P.Event>) {
    forall i | 0 <= i < |events| :: Fits(events[i])
  }

  /** The frames of these messages, one after the other. */
  ghost function Frames(events: seq<P.Event>): Bytes
    requires AllFit(events)
  {
    if events == [] then [] else EncodeEvent(events[0]) + Frames(events[1..])
  }

  function Read(events: seq<P.Event>): seq<Frame> {
    seq(|events|, i requires 0 <= i < |events| => Ok(events[i]))
  }

  lemma {:induction false} FramesAppended(events: seq<P.Event>, e: P.Event)
    requires AllFit(events) && Fits(e)
    ensures AllFit(events + [e]) && Frames(events + [e]) == Frames(events) + EncodeEvent(e)
  {
    hide EncodeEvent;
    if events == [] {
      assert ([] + [e])[1..] == [];
    } else {
      FramesAppended(events[1..], e);
      assert (events + [e])[1..] == events[1..] + [e];
    }
  }

  /** No frame is longer than the longest message. */
  lemma {:induction false} FramesBounded(events: seq<P.Event>)
    requires AllFit(events)
    ensures |Frames(events)| <= 49 * |events|
  {
    if events != [] {
      EncodedHeader(events[0], []);
      FramesBounded(events[1..]);
    }
  }

  // ---------- one frame off the front ----------

  /** A frame and what follows it. */
  lemma FrameInFront(e: P.Event, rest: Bytes)
    requires Fits(e)
    ensures var data, n := EncodeEvent(e) + rest, |EncodeEvent(e)|;
            && DecodeHeader(data).Ok? && n == HEADER_SIZE + DecodeHeader(data).value.payloadSize
            && DecodeEvent(data[..n]) == Ok(e) && data[n..] == rest
            && DecodeHeader(data[..HEADER_SIZE]) == DecodeHeader(data)
  {
    EncodedHeader(e, rest);
    EncodedHeader(e, []);
    DecodeUndoesEncode(e, []);
    hide EncodeEvent, DecodeEvent;
    var data, n := EncodeEvent(e) + rest, |EncodeEvent(e)|;
    assert data[..n] == EncodeEvent(e) == EncodeEvent(e) + [];
    HeaderOfFront(data);
  }

  /** Only the header's own bytes count. */
  lemma HeaderOfFront(data: Bytes)
    requires |data| >= HEADER_SIZE
    ensures DecodeHeader(data[..HEADER_SIZE]) == DecodeHeader(data)
  {
    HeaderWidths();
    GetAllFront(data, HEADER_SIZE, HEADER_WIDTHS);
  }

  /** Bytes that decode to a message, cut to the length their header declares, are its frame. */
  lemma FrameFound(data: Bytes, n: nat, e: P.Event)
    requires HEADER_SIZE <= n <= |data| && DecodeEvent(data[..n]) == Ok(e)
    requires DecodeHeader(data).Ok? && n == HEADER_SIZE + DecodeHeader(data).value.payloadSize
    ensures Fits(e) && data[..n] == EncodeEvent(e)
  {
    hide DecodeHeader, DecodeEvent, EncodeEvent;
    var frame := data[..n];
    assert frame[..HEADER_SIZE] == data[..HEADER_SIZE];
    HeaderOfFront(data);
    HeaderOfFront(frame);
    EncodeUndoesDecode(frame);
    var after := frame[|EncodeEvent(e)|..];
    assert frame == EncodeEvent(e) + after;
    EncodedHeader(e, after);
  }

  // ---------- files ----------

  /** One frame of a file and what is left, or nothing at a clean end. */
  function NextFrame(data: Bytes): (r: Option<(Frame, Bytes)>)
    ensures r.None? <==> data == []
    ensures r.Some? ==> |r.value.1| < |data|
  {
    if data == [] then None
    else if |data| < HEADER_SIZE then Some((Err(TruncatedHeader), []))
    else
      var rest := data[HEADER_SIZE..];
      match DecodeHeader(data[..HEADER_SIZE])
      case Err(e) => Some((Err(e), rest))
      case Ok(h) =>
        if |rest| < h.payloadSize then Some((Err(TruncatedPayload), []))
        else Some((DecodeEvent(data[..HEADER_SIZE + h.payloadSize]), rest[h.payloadSize..]))
  }

  /** Everything a file reads as. */
  function ReadAll(data: Bytes): seq<Frame>
    decreases |data|
  {
    match NextFrame(data)
    case None => []
    case Some(next) => [next.0] + ReadAll(next.1)
  }

  lemma NextOfFrames(e: P.Event, rest: Bytes)
    requires Fits(e)
    ensures NextFrame(EncodeEvent(e) + rest) == Some((Ok(e), rest))
  {
    hide EncodeEvent, DecodeHeader, DecodeEvent;
    FrameInFront(e, rest);
    EncodedHeader(e, rest);
    var data, n := EncodeEvent(e) + rest, |EncodeEvent(e)|;
    assert data[HEADER_SIZE..][n - HEADER_SIZE..] == data[n..];
  }

  /** A file of frames reads back as exactly the messages written to it. */
  lemma {:induction false} FileRoundTrip(events: seq<P.Event>)
    requires AllFit(events)
    ensures ReadAll(Frames(events)) == Read(events)
  {
    hide EncodeEvent, NextFrame;
    if events == [] {
      assert NextFrame([]).None?;
    } else {
      NextOfFrames(events[0], Frames(events[1..]));
      FileRoundTrip(events[1..]);
      assert Read(events) == [Ok(events[0])] + Read(events[1..]);
    }
  }

  /** The reader of a file: a cursor over its bytes. */
  class EventFileReader {
    var left: Bytes

    constructor (data: Bytes)
      ensures left == data
    {
      left := data;
    }

    method Next() returns (frame: Option<Frame>)
      modifies this
      ensures match NextFrame(old(left))
              case None => frame == None && left == old(left)
              case Some(next) => frame == Some(next.0) && left == next.1
    {
      hide DecodeHeader, DecodeEvent;
      if |left| == 0 {
        return None;
      }
      if |left| < HEADER_SIZE {
        left := [];
        return Some(Err(TruncatedHeader));
      }
      var headerBytes := left[..HEADER_SIZE];
      var header := ReadHeader(headerBytes);
      left := left[HEADER_SIZE..];
      if header.Err? {
        return Some(Err(header.error));
      }
      var size := header.value.payloadSize;
      if |left| < size {
        left := [];
        return Some(Err(TruncatedPayload));
      }
      var bytes := headerBytes + left[..size];
      assert bytes == old(left)[..HEADER_SIZE + size];
      left := left[size..];
      var event := ReadEvent(bytes);
      return Some(event);
    }
  }

  // ---------- datagrams ----------

  const PACKET_MAGIC: nat := 0x4D444831
  const PACKET_VERSION: nat := 1
  const PACKET_HEADER_SIZE: nat := 20

  /** magic, version, frame count, packet sequence, payload length. */
  const PACKET_WIDTHS: seq<nat> := [4, 2, 2, 8, 4]

  datatype PacketError =
    | PacketTruncated
    | InvalidMagic
    | InvalidVersion
    | ZeroFrameCount
    | PayloadLengthMismatch
    | InnerFrameHeaderInvalid
    | FrameCountMismatch

  datatype Unpacked = Unpacked(packetSequence: nat, frames: seq<Frame>)

  datatype Walked = Walked(frames: seq<Frame>, left: Bytes)

  lemma PacketWidths()
    ensures Sum(PACKET_WIDTHS) == PACKET_HEADER_SIZE
  {
    assert PACKET_WIDTHS[1..] == [2, 2, 8, 4] && [2, 2, 8, 4][1..] == [2, 8, 4] && [2, 8, 4][1..] == [8, 4]
           && [8, 4][1..] == [4];
    assert [4][1..] == [];
  }

  /** The count and the length are cut to their fields. */
  function PacketFields(sequence: nat, count: nat, length: nat): seq<nat> {
    [PACKET_MAGIC, PACKET_VERSION, count % 0x1_0000, sequence, length % 0x1_0000_0000]
  }

  lemma PacketFieldsFit(sequence: nat, count: nat, length: nat)
    requires sequence < WHOLE
    ensures Fit(PacketFields(sequence, count, length), PACKET_WIDTHS)
  {
    Widths();
  }

  ghost function Pack(sequence: nat, events: seq<P.Event>): Bytes
    requires sequence < WHOLE && AllFit(events)
  {
    var payload := Frames(events);
    PacketFieldsFit(sequence, |events|, |payload|);
    PutAll(PacketFields(sequence, |events|, |payload|), PACKET_WIDTHS) + payload
  }

  /** Takes so many frames off the front. A frame whose header cannot be read ends it. */
  function Walk(data: Bytes, count: nat): Result<Walked, PacketError>
    decreases count
  {
    if count == 0 then Ok(Walked([], data))
    else
      match DecodeHeader(data)
      case Err(_) => Err(InnerFrameHeaderInvalid)
      case Ok(h) =>
        if |data| < HEADER_SIZE + h.payloadSize then Err(InnerFrameHeaderInvalid)
        else
          var n := HEADER_SIZE + h.payloadSize;
          match Walk(data[n..], count - 1)
          case Err(e) => Err(e)
          case Ok(w) => Ok(Walked([DecodeEvent(data[..n])] + w.frames, w.left))
  }

  function Unpack(data: Bytes): Result<Unpacked, PacketError> {
    if |data| < PACKET_HEADER_SIZE then Err(PacketTruncated)
    else
      PacketWidths();
      var h := GetAll(data, PACKET_WIDTHS);
      var payload := data[PACKET_HEADER_SIZE..];
      if h[0] != PACKET_MAGIC then Err(InvalidMagic)
      else if h[1] != PACKET_VERSION then Err(InvalidVersion)
      else if h[2] == 0 then Err(ZeroFrameCount)
      else if |payload| != h[4] then Err(PayloadLengthMismatch)
      else
        match Walk(payload, h[2])
        case Err(e) => Err(e)
        case Ok(w) => if w.left != [] then Err(FrameCountMismatch) else Ok(Unpacked(h[3], w.frames))
  }

  /** One frame of the walk. */
  lemma WalkNext(data: Bytes, count: nat)
    requires count > 0 && DecodeHeader(data).Ok? && |data| >= HEADER_SIZE + DecodeHeader(data).value.payloadSize
    ensures var n := HEADER_SIZE + DecodeHeader(data).value.payloadSize;
            Walk(data, count) == match Walk(data[n..], count - 1)
                                 case Err(e) => Err(e)
                                 case Ok(w) => Ok(Walked([DecodeEvent(data[..n])] + w.frames, w.left))
  {
    hide DecodeHeader, DecodeEvent;
  }

  lemma {:induction false} WalkFrames(events: seq<P.Event>)
    requires AllFit(events)
    ensures Walk(Frames(events), |events|) == Ok(Walked(Read(events), []))
  {
    hide EncodeEvent, DecodeHeader, DecodeEvent, Walk;
    if events == [] {
      assert Read(events) == [];
      NoWalk([]);
    } else {
      FrameInFront(events[0], Frames(events[1..]));
      WalkNext(Frames(events), |events|);
      WalkFrames(events[1..]);
      assert Read(events) == [Ok(events[0])] + Read(events[1..]);
    }
  }

  lemma NoWalk(data: Bytes)
    ensures Walk(data, 0) == Ok(Walked([], data))
  {
  }

  lemma {:induction false} WalkCounts(data: Bytes, count: nat)
    ensures Walk(data, count).Ok? ==> |Walk(data, count).value.frames| == count
    decreases count
  {
    hide DecodeHeader, DecodeEvent;
    if count > 0 && DecodeHeader(data).Ok? && |data| >= HEADER_SIZE + DecodeHeader(data).value.payloadSize {
      WalkCounts(data[HEADER_SIZE + DecodeHeader(data).value.payloadSize..], count - 1);
    }
  }

  lemma PackedHeader(sequence: nat, events: seq<P.Event>)
    requires sequence < WHOLE && AllFit(events)
    ensures var data := Pack(sequence, events);
            && |data| == PACKET_HEADER_SIZE + |Frames(events)| && data[PACKET_HEADER_SIZE..] == Frames(events)
            && Sum(PACKET_WIDTHS) == PACKET_HEADER_SIZE
            && GetAll(data, PACKET_WIDTHS) == PacketFields(sequence, |events|, |Frames(events)|)
  {
    PacketWidths();
    PacketFieldsFit(sequence, |events|, |Frames(events)|);
    GetPutAll(PacketFields(sequence, |events|, |Frames(events)|), PACKET_WIDTHS, Frames(events));
  }

  /** A packet unpacks to the messages packed exactly when there are between 1 and 65535 of them. */
  lemma PacketRoundTrip(sequence: nat, events: seq<P.Event>)
    requires sequence < WHOLE && AllFit(events)
    ensures Unpack(Pack(sequence, events)) == Ok(Unpacked(sequence, Read(events))) <==> 1 <= |events| <= 65535
  {
    hide Walk, Pack, GetAll, Frames, PutAll, Sum;
    PackedHeader(sequence, events);
    FramesBounded(events);
    var data := Pack(sequence, events);
    if 1 <= |events| <= 65535 {
      WalkFrames(events);
    } else {
      WalkCounts(data[PACKET_HEADER_SIZE..], |events| % 0x1_0000);
    }
  }

  /** The messages of frames that all decoded. */
  function Events(frames: seq<Frame>): seq<P.Event>
    requires forall i | 0 <= i < |frames| :: frames[i].Ok?
  {
    seq(|frames|, i requires 0 <= i < |frames| => frames[i].value)
  }

  lemma {:induction false} WalkFound(data: Bytes, count: nat)
    requires Walk(data, count).Ok?
    requires forall i | 0 <= i < |Walk(data, count).value.frames| :: Walk(data, count).value.frames[i].Ok?
    ensures var w := Walk(data, count).value;
            |w.frames| == count && AllFit(Events(w.frames)) && data == Frames(Events(w.frames)) + w.left
    decreases count
  {
    hide EncodeEvent, DecodeEvent, DecodeHeader, Fits;
    WalkCounts(data, count);
    var w := Walk(data, count).value;
    if count > 0 {
      var n := HEADER_SIZE + DecodeHeader(data).value.payloadSize;
      WalkNext(data, count);
      hide Walk;
      var rest := Walk(data[n..], count - 1).value;
      assert forall i | 0 <= i < |rest.frames| :: rest.frames[i] == w.frames[i + 1];
      assert w.frames[0].Ok?;
      FrameFound(data, n, DecodeEvent(data[..n]).value);
      WalkFound(data[n..], count - 1);
      EventsNext(DecodeEvent(data[..n]).value, rest.frames);
      assert data == data[..n] + data[n..];
    }
  }

  lemma EventsNext(e: P.Event, frames: seq<Frame>)
    requires forall i | 0 <= i < |frames| :: frames[i].Ok?
    requires Fits(e) && AllFit(Events(frames))
    ensures forall i | 0 <= i < |frames| + 1 :: ([Ok(e)] + frames)[i].Ok?
    ensures AllFit(Events([Ok(e)] + frames))
            && Frames(Events([Ok(e)] + frames)) == EncodeEvent(e) + Frames(Events(frames))
  {
    hide EncodeEvent;
    var all := Events([Ok(e)] + frames);
    assert all[0] == e && all[1..] == Events(frames);
  }

  /** A datagram that unpacks with no frame in error is the packet of what it unpacks to. */
  lemma UnpackedIsPacked(data: Bytes)
    requires Unpack(data).Ok? && forall i | 0 <= i < |Unpack(data).value.frames| :: Unpack(data).value.frames[i].Ok?
    ensures var u := Unpack(data).value;
            && u.packetSequence < WHOLE && AllFit(Events(u.frames)) && 1 <= |u.frames| <= 65535
            && data == Pack(u.packetSequence, Events(u.frames))
  {
    hide Walk, GetAll, Frames, Sum, PutAll;
    PacketWidths();
    Widths();
    var h, payload := GetAll(data, PACKET_WIDTHS), data[PACKET_HEADER_SIZE..];
    assert Fit(h, PACKET_WIDTHS) && h[2] < 0x1_0000 && h[3] < WHOLE && h[4] < 0x1_0000_0000;
    WalkFound(payload, h[2]);
    PutGetAll(data, PACKET_WIDTHS);
    var u := Unpack(data).value;
    assert Frames(Events(u.frames)) + [] == Frames(Events(u.frames));
    assert PacketFields(h[3], |u.frames|, |payload|) == h;
    assert data == data[..PACKET_HEADER_SIZE] + payload;
  }

  /** Encodes each message, then puts the header in front. */
  method PackFrames(sequence: nat, events: seq<P.Event>) returns (out: Bytes)
    requires sequence < WHOLE && AllFit(events)
    ensures out == Pack(sequence, events)
  {
    hide PutAll, Sum, EncodeEvent;
    var payload: Bytes := [];
    for i := 0 to |events|
      invariant AllFit(events[..i]) && payload == Frames(events[..i])
    {
      FramesAppended(events[..i], events[i]);
      assert events[..i + 1] == events[..i] + [events[i]];
      payload := EncodeInto(payload, events[i]);
    }
    assert events[..|events|] == events;
    PacketFieldsFit(sequence, |events|, |payload|);
    ghost var f, w := PacketFields(sequence, |events|, |payload|), PACKET_WIDTHS;
    NothingPut(f, w);
    out := PutField([], PACKET_MAGIC, 4, [], f, w, 0);
    out := PutField(out, PACKET_VERSION, 2, [], f, w, 1);
    out := PutField(out, |events| % 0x1_0000, 2, [], f, w, 2);
    out := PutField(out, sequence, 8, [], f, w, 3);
    out := PutField(out, |payload| % 0x1_0000_0000, 4, [], f, w, 4);
    assert f[..5] == f && w[..5] == w;
    out := out + payload;
  }

  /** The rest of a walk, behind the frames already taken. */
  function Behind(frames: seq<Frame>, r: Result<Walked, PacketError>): Result<Walked, PacketError> {
    match r
    case Err(e) => Err(e)
    case Ok(w) => Ok(Walked(frames + w.frames, w.left))
  }

  /** Splits a datagram, one frame after the other. */
  method UnpackFrames(datagram: Bytes) returns (r: Result<Unpacked, PacketError>)
    ensures r == Unpack(datagram)
  {
    hide GetAll, Sum, DecodeEvent, DecodeHeader, Walk;
    if |datagram| < PACKET_HEADER_SIZE {
      return Err(PacketTruncated);
    }
    PacketWidths();
    GetAllFront(datagram, PACKET_HEADER_SIZE, PACKET_WIDTHS);
    NoWidth(PACKET_WIDTHS);
    var reader := new ByteReader(datagram[..PACKET_HEADER_SIZE]);
    ghost var w := PACKET_WIDTHS;
    var magic := GetField(reader, 4, w, 0);
    var version := GetField(reader, 2, w, 1);
    var count := GetField(reader, 2, w, 2);
    var sequence := GetField(reader, 8, w, 3);
    var length := GetField(reader, 4, w, 4);
    if magic != PACKET_MAGIC {
      return Err(InvalidMagic);
    }
    if version != PACKET_VERSION {
      return Err(InvalidVersion);
    }
    if count == 0 {
      return Err(ZeroFrameCount);
    }
    var remaining := datagram[PACKET_HEADER_SIZE..];
    if |remaining| != length {
      return Err(PayloadLengthMismatch);
    }
    r := WalkFramesOf(remaining, count, sequence);
  }

  /** The loop over the frames. */
  method WalkFramesOf(remaining: Bytes, count: nat, sequence: nat) returns (r: Result<Unpacked, PacketError>)
    ensures r == match Walk(remaining, count)
                 case Err(e) => Err(e)
                 case Ok(w) => if w.left != [] then Err(FrameCountMismatch) else Ok(Unpacked(sequence, w.frames))
  {
    hide DecodeEvent, DecodeHeader, Walk;
    var frames: seq<Frame> := [];
    var offset := 0;
    NothingBehind(Walk(remaining, count));
    assert remaining[0..] == remaining;
    for i := 0 to count
      invariant offset <= |remaining|
      invariant Walk(remaining, count) == Behind(frames, Walk(remaining[offset..], count - i))
    {
      var rest := remaining[offset..];
      var header := ReadHeader(rest);
      if header.Err? || |rest| < HEADER_SIZE + header.value.payloadSize {
        WalkStuck(rest, count - i);
        return Err(InnerFrameHeaderInvalid);
      }
      var n := HEADER_SIZE + header.value.payloadSize;
      var event := ReadEvent(rest[..n]);
      WalkNext(rest, count - i);
      BehindBehind(frames, [event], Walk(rest[n..], count - i - 1));
      assert rest[n..] == remaining[offset + n..];
      frames := frames + [event];
      offset := offset + n;
    }
    NoWalk(remaining[offset..]);
    assert frames + [] == frames;
    if offset != |remaining| {
      return Err(FrameCountMismatch);
    }
    return Ok(Unpacked(sequence, frames));
  }

  lemma NothingBehind(r: Result<Walked, PacketError>)
    ensures Behind([], r) == r
  {
    if r.Ok? {
      assert [] + r.value.frames == r.value.frames;
    }
  }

  lemma BehindBehind(a: seq<Frame>, b: seq<Frame>, r: Result<Walked, PacketError>)
    ensures Behind(a, Behind(b, r)) == Behind(a + b, r)
  {
    if r.Ok? {
      assert a + (b + r.value.frames) == a + b + r.value.frames;
    }
  }

  lemma WalkStuck(data: Bytes, count: nat)
    requires count > 0 && (DecodeHeader(data).Err? || |data| < HEADER_SIZE + DecodeHeader(data).value.payloadSize)
    ensures Walk(data, count) == Err(InnerFrameHeaderInvalid)
  {
    hide DecodeHeader;
  }
}
