/** The documented wire format, by byte offset (protocol.md): what is at which place in a frame, a packet and a
    snapshot, and which bytes are refused for which reason. */
module WireFormat {
  import opened Domain
  import opened TraderSpec
  import opened BookManagers
  import opened ByteIo
  import opened Codec
  import opened Framing
  import S = Snapshot
  import P = Protocol

  /** The number in the `w` bytes from an offset. */
  function NumberAt(data: ByteIo.Bytes, offset: nat, w: nat): nat
    requires offset + w <= |data|
  {
    Get(data[offset..offset + w])
  }

  /** Most significant byte first. */
  lemma BigEndian(data: ByteIo.Bytes, k: nat)
    requires k < |data|
    ensures data[k] == Get(data) / Pow256(|data| - 1 - k) % 256
  {
    PutGet(data);
    ByteAt(Get(data), |data|, k);
  }

  /** Signed numbers are in two's complement. */
  lemma TwosComplement(p: Price)
    ensures ToUnsigned(p) < WHOLE && ToUnsigned(p) % WHOLE == p % WHOLE
    ensures p >= 0 <==> ToUnsigned(p) < HALF
  {
  }

  lemma OneByte(data: ByteIo.Bytes, offset: nat)
    requires offset < |data|
    ensures NumberAt(data, offset, 1) == data[offset]
  {
    assert data[offset..offset + 1] == [data[offset]];
    assert [data[offset]][..0] == [];
  }

  // ---------- a frame ----------

  /** The payload of each type, in bytes. */
  function PayloadBytes(kind: nat): nat {
    match kind
    case 1 => 29
    case 2 => 12
    case 3 => 28
    case 4 => 21
    case _ => 4
  }

  predicate IsSide(b: nat, side: Side) {
    b == if side == Buy then 0 else 1
  }

  /** These bytes say this message. */
  ghost predicate Says(data: ByteIo.Bytes, e: P.Event) {
    && |data| >= 20 && 1 <= data[0] <= 5 && data[1] == 0
    && NumberAt(data, 2, 2) == PayloadBytes(data[0]) && |data| >= 20 + PayloadBytes(data[0])
    && NumberAt(data, 4, 8) == e.sequenceNumber && NumberAt(data, 12, 8) == e.timestampNs
    && match e
       case AddOrder(_, _, id, i, price, quantity, side) =>
         && data[0] == 1 && NumberAt(data, 20, 8) == id && NumberAt(data, 28, 4) == i
         && NumberAt(data, 32, 8) == ToUnsigned(price) && NumberAt(data, 40, 8) == quantity && IsSide(data[48], side)
       case CancelOrder(_, _, id, i) => data[0] == 2 && NumberAt(data, 20, 8) == id && NumberAt(data, 28, 4) == i
       case ModifyOrder(_, _, id, i, price, quantity) =>
         && data[0] == 3 && NumberAt(data, 20, 8) == id && NumberAt(data, 28, 4) == i
         && NumberAt(data, 32, 8) == ToUnsigned(price) && NumberAt(data, 40, 8) == quantity
       case Trade(_, _, i, price, quantity, side) =>
         && data[0] == 4 && NumberAt(data, 20, 4) == i && NumberAt(data, 24, 8) == ToUnsigned(price)
         && NumberAt(data, 32, 8) == quantity && IsSide(data[40], side)
       case ClearBook(_, _, i) => data[0] == 5 && NumberAt(data, 20, 4) == i
  }

  /** Where each of five fields begins. */
  lemma SumsOf5(w: seq<nat>, a: nat, b: nat, c: nat, d: nat, e: nat)
    requires w == [a, b, c, d, e]
    ensures Sum(w[..0]) == 0 && Sum(w[..1]) == a && Sum(w[..2]) == a + b && Sum(w[..3]) == a + b + c
    ensures Sum(w[..4]) == a + b + c + d && Sum(w) == a + b + c + d + e
  {
    assert w[..5] == w;
    SumFront(w, 0);
    SumFront(w, 1);
    SumFront(w, 2);
    SumFront(w, 3);
    SumFront(w, 4);
  }

  lemma FieldAt(data: ByteIo.Bytes, w: seq<nat>, k: nat, offset: nat)
    requires |data| >= Sum(w) && k < |w| && Sum(w[..k]) == offset
    ensures offset + w[k] <= Sum(w) && GetAll(data, w)[k] == NumberAt(data, offset, w[k])
  {
    hide Get, GetAll, Sum;
    GetAllAt(data, w, k);
  }

  /** Five fields, one after the other. */
  lemma FiveFields(data: ByteIo.Bytes, w: seq<nat>, a: nat, b: nat, c: nat, d: nat, e: nat)
    requires w == [a, b, c, d, e] && |data| >= a + b + c + d + e
    ensures Sum(w) == a + b + c + d + e
    ensures GetAll(data, w) == [NumberAt(data, 0, a), NumberAt(data, a, b), NumberAt(data, a + b, c),
                                NumberAt(data, a + b + c, d), NumberAt(data, a + b + c + d, e)]
  {
    hide Get, GetAll, Sum, NumberAt;
    SumsOf5(w, a, b, c, d, e);
    FieldAt(data, w, 0, 0);
    FieldAt(data, w, 1, a);
    FieldAt(data, w, 2, a + b);
    FieldAt(data, w, 3, a + b + c);
    FieldAt(data, w, 4, a + b + c + d);
  }

  lemma HeaderOffsets(data: ByteIo.Bytes)
    requires |data| >= 20
    ensures Sum(HEADER_WIDTHS) == 20
    ensures GetAll(data, HEADER_WIDTHS) ==
            [data[0], data[1], NumberAt(data, 2, 2), NumberAt(data, 4, 8), NumberAt(data, 12, 8)]
  {
    hide Get, GetAll, Sum;
    FiveFields(data, HEADER_WIDTHS, 1, 1, 2, 8, 8);
    OneByte(data, 0);
    OneByte(data, 1);
  }

  /** A payload's fields, behind the header. */
  lemma PayloadOffset(data: ByteIo.Bytes, widths: seq<nat>, k: nat)
    requires |data| >= 20 + Sum(widths) && k < |widths|
    ensures Sum(widths[..k]) + widths[k] <= Sum(widths)
    ensures GetAll(data[20..], widths)[k] == NumberAt(data, 20 + Sum(widths[..k]), widths[k])
  {
    hide Get, GetAll, Sum, NumberAt;
    var at := Sum(widths[..k]);
    FieldAt(data[20..], widths, k, at);
    NumberBehind(data, 20, at, widths[k]);
  }

  lemma NumberBehind(data: ByteIo.Bytes, n: nat, offset: nat, w: nat)
    requires n + offset + w <= |data|
    ensures NumberAt(data[n..], offset, w) == NumberAt(data, n + offset, w)
  {
    hide Get;
    SliceOfRest(data, n, offset, w);
  }

  /** Where each field of a payload begins. */
  lemma PayloadSums(kind: nat)
    requires KnownType(kind)
    ensures var w := WidthsOf(kind);
            && Sum(w) == PayloadBytes(kind) == PayloadSizeFor(kind) && Sum(w[..0]) == 0
            && (|w| > 1 ==> Sum(w[..1]) == w[0])
            && (|w| > 2 ==> Sum(w[..2]) == w[0] + w[1])
            && (|w| > 3 ==> Sum(w[..3]) == w[0] + w[1] + w[2])
            && (|w| > 4 ==> Sum(w[..4]) == w[0] + w[1] + w[2] + w[3])
  {
    var w := WidthsOf(kind);
    PayloadWidths(kind);
    hide Sum;
    NoWidth(w);
    SumFront(w, 0);
    if |w| > 1 {
      SumFront(w, 1);
    }
    if |w| > 2 {
      SumFront(w, 2);
    }
    if |w| > 3 {
      SumFront(w, 3);
    }
  }

  /** A payload that is all there says what its fields, taken at their offsets, say. */
  lemma PayloadByOffset(data: ByteIo.Bytes, h: Header)
    requires |data| >= 20 && 1 <= data[0] <= 5 && data[1] == 0
    requires h == Header(data[0], PayloadBytes(data[0]), NumberAt(data, 4, 8), NumberAt(data, 12, 8))
    requires NumberAt(data, 2, 2) == h.payloadSize && |data| >= 20 + h.payloadSize
    ensures Sum(WidthsOf(h.kind)) == h.payloadSize
    ensures var r := MessageOf(h, GetAll(data[20..], WidthsOf(h.kind)));
            if (data[0] == 1 && data[48] > 1) || (data[0] == 4 && data[40] > 1) then r == Err(InvalidSide)
            else r.Ok? && Says(data, r.value)
  {
    hide Get, GetAll, Sum;
    var w := WidthsOf(h.kind);
    PayloadSums(h.kind);
    Widths();
    var v := GetAll(data[20..], w);
    forall k: nat | k < |w| ensures Sum(w[..k]) + w[k] <= Sum(w) && v[k] == NumberAt(data, 20 + Sum(w[..k]), w[k]) {
      PayloadOffset(data, w, k);
    }
    if data[0] == 1 {
      OneByte(data, 48);
    }
    if data[0] == 4 {
      OneByte(data, 40);
    }
    forall x | 0 <= x < WHOLE ensures ToUnsigned(ToSigned(x)) == x {
      SignedRoundTrip(0, x);
    }
  }

  /** Every reason a frame is refused for, in order, and what it says when it is not. */
  lemma DecodeByOffset(data: ByteIo.Bytes)
    ensures var r := DecodeEvent(data);
            if |data| < 20 then r == Err(TruncatedHeader)
            else if data[1] != 0 then r == Err(InvalidReserved)
            else if data[0] < 1 || data[0] > 5 then r == Err(InvalidMessageType)
            else if NumberAt(data, 2, 2) != PayloadBytes(data[0]) then r == Err(InvalidMessageSize)
            else if |data| < 20 + PayloadBytes(data[0]) then r == Err(TruncatedPayload)
            else if (data[0] == 1 && data[48] > 1) || (data[0] == 4 && data[40] > 1) then r == Err(InvalidSide)
            else r.Ok? && Says(data, r.value)
  {
    hide Get, GetAll, Sum, MessageOf, Says, WidthsOf;
    if |data| >= 20 {
      HeaderOffsets(data);
      if data[1] == 0 && 1 <= data[0] <= 5 {
        PayloadSums(data[0]);
        var h := Header(data[0], NumberAt(data, 2, 2), NumberAt(data, 4, 8), NumberAt(data, 12, 8));
        assert DecodeHeader(data) == Ok(h);
        if h.payloadSize == PayloadBytes(data[0]) && |data| >= 20 + h.payloadSize {
          PayloadByOffset(data, h);
        }
      }
    }
  }

  /** A message's frame says the message, and has nothing else in it. */
  lemma FrameLayout(e: P.Event)
    requires Fits(e)
    ensures Says(EncodeEvent(e), e) && |EncodeEvent(e)| == 20 + PayloadBytes(EncodeEvent(e)[0])
  {
    hide EncodeEvent, DecodeEvent, PayloadBytes;
    var data := EncodeEvent(e);
    DecodeUndoesEncode(e, []);
    assert data + [] == data;
    DecodeByOffset(data);
    EncodedHeader(e, []);
    HeaderSays(data);
  }

  lemma HeaderSays(data: ByteIo.Bytes)
    requires DecodeHeader(data).Ok?
    ensures var h := DecodeHeader(data).value;
            && |data| >= 20 && 1 <= data[0] <= 5 && data[1] == 0 && h.kind == data[0]
            && h == Header(data[0], NumberAt(data, 2, 2), NumberAt(data, 4, 8), NumberAt(data, 12, 8))
            && PayloadSizeFor(h.kind) == PayloadBytes(data[0])
  {
    hide Get, GetAll, Sum;
    HeaderOffsets(data);
  }

  /** Bytes are accepted exactly when they begin with the frame of a message. */
  lemma AcceptedExactly(data: ByteIo.Bytes)
    ensures DecodeEvent(data).Ok? <==> exists e: P.Event :: Fits(e) && EncodeEvent(e) <= data
  {
    hide EncodeEvent, DecodeEvent;
    if DecodeEvent(data).Ok? {
      EncodeUndoesDecode(data);
    }
    if e: P.Event :| Fits(e) && EncodeEvent(e) <= data {
      var n := |EncodeEvent(e)|;
      assert data == EncodeEvent(e) + data[n..];
      DecodeUndoesEncode(e, data[n..]);
    }
  }

  // ---------- a file that is not what was written ----------

  lemma {:induction false} FramesSplit(a: seq<P.Event>, b: seq<P.Event>)
    requires AllFit(a) && AllFit(b)
    ensures AllFit(a + b) && Frames(a + b) == Frames(a) + Frames(b)
  {
    hide EncodeEvent, Fits;
    if a == [] {
      assert a + b == b;
    } else {
      assert (a + b)[0] == a[0] && (a + b)[1..] == a[1..] + b;
      FramesSplit(a[1..], b);
    }
  }

  /** Whole frames read as their messages, whatever follows them. */
  lemma {:induction false} ReadsOn(events: seq<P.Event>, rest: ByteIo.Bytes)
    requires AllFit(events)
    ensures ReadAll(Frames(events) + rest) == Read(events) + ReadAll(rest)
    decreases |events|
  {
    hide EncodeEvent, NextFrame, Fits;
    if events == [] {
      assert Frames(events) + rest == rest && Read(events) + ReadAll(rest) == ReadAll(rest);
    } else {
      var tail := Frames(events[1..]) + rest;
      assert Frames(events) + rest == EncodeEvent(events[0]) + tail;
      NextOfFrames(events[0], tail);
      ReadsOn(events[1..], rest);
      assert Read(events) == [Ok(events[0])] + Read(events[1..]);
    }
  }

  /** A file cut off anywhere reads as the messages that are still whole and, unless it was cut between two
      frames, one error at the end that says whether a header or a payload is short. */
  lemma CutFile(events: seq<P.Event>, e: P.Event, n: nat)
    requires AllFit(events) && Fits(e) && n < |EncodeEvent(e)|
    ensures ReadAll(Frames(events) + EncodeEvent(e)[..n]) ==
            Read(events) + (if n == 0 then [] else if n < 20 then [Err(TruncatedHeader)] else [Err(TruncatedPayload)])
  {
    hide EncodeEvent, DecodeHeader, DecodeEvent, Fits;
    var cut := EncodeEvent(e)[..n];
    ReadsOn(events, cut);
    assert ReadAll([]) == [];
    if n >= 20 {
      EncodedHeader(e, []);
      assert EncodeEvent(e) + [] == EncodeEvent(e);
      HeaderOfFront(EncodeEvent(e));
      assert cut[..20] == EncodeEvent(e)[..20];
    }
  }

  /** One damaged frame costs itself and nothing more, as long as its length can be told: either its header is
      refused and it is no more than a header, or it is as long as its header says. */
  lemma DamagedFrame(a: seq<P.Event>, bad: ByteIo.Bytes, b: seq<P.Event>)
    requires AllFit(a) && AllFit(b) && DecodeEvent(bad).Err? && |bad| >= 20
    requires match DecodeHeader(bad) case Err(_) => |bad| == 20 case Ok(h) => |bad| == 20 + h.payloadSize
    ensures ReadAll(Frames(a) + bad + Frames(b)) == Read(a) + [Err(DecodeEvent(bad).error)] + Read(b)
  {
    hide EncodeEvent, DecodeHeader, Fits;
    var rest := bad + Frames(b);
    assert Frames(a) + bad + Frames(b) == Frames(a) + rest;
    ReadsOn(a, rest);
    FileRoundTrip(b);
    assert rest[..20] == bad[..20];
    HeaderOfFront(bad);
    HeaderOfFront(rest);
    var n := |bad|;
    assert rest[..n] == bad && rest[20..][n - 20..] == Frames(b);
    assert NextFrame(rest) == Some((Err(DecodeEvent(bad).error), Frames(b)));
  }

  // ---------- a packet ----------

  lemma PacketOffsets(data: ByteIo.Bytes)
    requires |data| >= 20
    ensures Sum(PACKET_WIDTHS) == 20
    ensures GetAll(data, PACKET_WIDTHS) ==
            [NumberAt(data, 0, 4), NumberAt(data, 4, 2), NumberAt(data, 6, 2), NumberAt(data, 8, 8),
             NumberAt(data, 16, 4)]
  {
    hide Get, GetAll, Sum;
    FiveFields(data, PACKET_WIDTHS, 4, 2, 2, 8, 4);
  }

  /** As long as its header says. */
  ghost predicate Framed(frame: ByteIo.Bytes) {
    match DecodeHeader(frame) case Err(_) => false case Ok(h) => |frame| == 20 + h.payloadSize
  }

  function Joined(frames: seq<ByteIo.Bytes>): ByteIo.Bytes {
    if frames == [] then [] else frames[0] + Joined(frames[1..])
  }

  function DecodedAll(frames: seq<ByteIo.Bytes>): seq<Frame> {
    seq(|frames|, i requires 0 <= i < |frames| => DecodeEvent(frames[i]))
  }

  ghost predicate AllFramed(frames: seq<ByteIo.Bytes>) {
    forall i | 0 <= i < |frames| :: Framed(frames[i])
  }

  /** The walk over so many frames, each as long as its header says, finds them and leaves the rest. */
  lemma {:induction false} WalkJoined(frames: seq<ByteIo.Bytes>, left: ByteIo.Bytes)
    requires AllFramed(frames)
    ensures Walk(Joined(frames) + left, |frames|) == Ok(Walked(DecodedAll(frames), left))
    decreases |frames|
  {
    hide DecodeEvent, DecodeHeader, Walk;
    if frames == [] {
      assert [] + left == left && DecodedAll(frames) == [];
      NoWalk(left);
    } else {
      var tail := Joined(frames[1..]) + left;
      var data, n := Joined(frames) + left, |frames[0]|;
      assert Framed(frames[0]) && data == frames[0] + tail && data[..n] == frames[0] && data[n..] == tail;
      FramedHeader(frames[0], tail);
      WalkNext(data, |frames|);
      WalkJoined(frames[1..], left);
      assert DecodedAll(frames) == [DecodeEvent(frames[0])] + DecodedAll(frames[1..]);
    }
  }

  lemma FramedHeader(frame: ByteIo.Bytes, rest: ByteIo.Bytes)
    requires Framed(frame)
    ensures DecodeHeader(frame + rest) == DecodeHeader(frame)
  {
    HeaderSays(frame);
    hide DecodeHeader;
    assert (frame + rest)[..20] == frame[..20];
    HeaderOfFront(frame);
    HeaderOfFront(frame + rest);
  }

  /** The other way round: what the walk takes are such frames. */
  lemma {:induction false} WalkTakes(data: ByteIo.Bytes, count: nat) returns (frames: seq<ByteIo.Bytes>)
    requires Walk(data, count).Ok?
    ensures var w := Walk(data, count).value;
            |frames| == count && AllFramed(frames) && data == Joined(frames) + w.left && w.frames == DecodedAll(frames)
    decreases count
  {
    hide DecodeEvent, DecodeHeader;
    frames := [];
    if count > 0 {
      var n := HEADER_SIZE + DecodeHeader(data).value.payloadSize;
      WalkNext(data, count);
      hide Walk;
      var rest := WalkTakes(data[n..], count - 1);
      frames := [data[..n]] + rest;
      assert data[..n][..20] == data[..20];
      HeaderOfFront(data);
      HeaderOfFront(data[..n]);
      assert Framed(data[..n]);
      assert data == data[..n] + data[n..];
      assert DecodedAll(frames) == [DecodeEvent(data[..n])] + DecodedAll(rest);
    }
  }

  /** Every reason a datagram is refused for, in order; and it is accepted exactly when what follows its
      header is as many frames as the header counts, each as long as its own header says, with nothing left
      over: then it unpacks to what each of them decodes to, errors included. */
  lemma UnpackByOffset(data: ByteIo.Bytes) returns (frames: seq<ByteIo.Bytes>)
    ensures var r := Unpack(data);
            if |data| < 20 then r == Err(PacketTruncated)
            else if NumberAt(data, 0, 4) != 0x4D44_4831 then r == Err(InvalidMagic)
            else if NumberAt(data, 4, 2) != 1 then r == Err(InvalidVersion)
            else if NumberAt(data, 6, 2) == 0 then r == Err(ZeroFrameCount)
            else if |data| - 20 != NumberAt(data, 16, 4) then r == Err(PayloadLengthMismatch)
            else match r
              case Ok(u) =>
                && |frames| == NumberAt(data, 6, 2) && AllFramed(frames) && data[20..] == Joined(frames)
                && u == Unpacked(NumberAt(data, 8, 8), DecodedAll(frames))
              case Err(FrameCountMismatch) =>
                |frames| == NumberAt(data, 6, 2) && AllFramed(frames) && Joined(frames) < data[20..]
              case Err(error) =>
                && error == InnerFrameHeaderInvalid
                && forall f: seq<ByteIo.Bytes> | |f| == NumberAt(data, 6, 2) && AllFramed(f) ::
                     !(Joined(f) <= data[20..])
  {
    hide Get, GetAll, Sum, Walk, DecodeEvent, DecodeHeader;
    frames := [];
    if |data| >= 20 {
      PacketOffsets(data);
      var payload, count := data[20..], NumberAt(data, 6, 2);
      match Walk(payload, count) {
        case Ok(w) =>
          frames := WalkTakes(payload, count);
          assert Joined(frames) + [] == Joined(frames);
        case Err(error) =>
          WalkFails(payload, count);
          forall f: seq<ByteIo.Bytes> | |f| == count && AllFramed(f) ensures !(Joined(f) <= payload) {
            if Joined(f) <= payload {
              assert payload == Joined(f) + payload[|Joined(f)|..];
              WalkJoined(f, payload[|Joined(f)|..]);
            }
          }
      }
    }
  }

  lemma {:induction false} WalkFails(data: ByteIo.Bytes, count: nat)
    ensures Walk(data, count).Err? ==> Walk(data, count).error == InnerFrameHeaderInvalid
    decreases count
  {
    hide DecodeHeader, DecodeEvent;
    if count > 0 && DecodeHeader(data).Ok? && |data| >= HEADER_SIZE + DecodeHeader(data).value.payloadSize {
      WalkFails(data[HEADER_SIZE + DecodeHeader(data).value.payloadSize..], count - 1);
    }
  }

  /** What a packet carries in front of its frames. */
  lemma PacketLayout(sequence: nat, events: seq<P.Event>)
    requires sequence < WHOLE && AllFit(events)
    ensures var data := Pack(sequence, events);
            && |data| >= 20 && data[20..] == Frames(events)
            && NumberAt(data, 0, 4) == 0x4D44_4831 && NumberAt(data, 4, 2) == 1
            && NumberAt(data, 6, 2) == |events| % 0x1_0000 && NumberAt(data, 8, 8) == sequence
            && NumberAt(data, 16, 4) == |Frames(events)| % 0x1_0000_0000
  {
    hide Get, GetAll, Sum, Pack, Frames;
    PackedHeader(sequence, events);
    PacketOffsets(Pack(sequence, events));
  }

  // ---------- a snapshot ----------

  lemma SnapshotOffsets(data: ByteIo.Bytes)
    requires |data| >= 24
    ensures Sum(S.SNAPSHOT_WIDTHS) == 24
    ensures GetAll(data, S.SNAPSHOT_WIDTHS) ==
            [NumberAt(data, 0, 4), NumberAt(data, 4, 2), NumberAt(data, 6, 2), NumberAt(data, 8, 8),
             NumberAt(data, 16, 8)]
  {
    hide Get, GetAll, Sum;
    FiveFields(data, S.SNAPSHOT_WIDTHS, 4, 2, 2, 8, 8);
  }

  /** What a snapshot carries in front of its entries. */
  lemma SnapshotLayout(number: nat, entries: seq<P.Event>)
    requires number < WHOLE && |entries| < WHOLE && AllFit(entries)
    ensures var data := S.Bytes(number, entries);
            && |data| >= 24 && data[24..] == Frames(entries)
            && NumberAt(data, 0, 4) == 0x4D44_4832 && NumberAt(data, 4, 2) == 1 && NumberAt(data, 6, 2) == 0
            && NumberAt(data, 8, 8) == number && NumberAt(data, 16, 8) == |entries|
  {
    hide Get, GetAll, Sum, Frames, PutAll;
    Widths();
    S.SnapshotWidths();
    var fields := [S.SNAPSHOT_MAGIC, S.SNAPSHOT_VERSION, 0, number, |entries|];
    GetPutAll(fields, S.SNAPSHOT_WIDTHS, Frames(entries));
    SnapshotOffsets(S.Bytes(number, entries));
  }

  /** So many add messages stand in front, and each goes through on the books the ones before make. */
  ghost predicate Restocks(data: ByteIo.Bytes, count: nat, books: Books, entries: seq<P.Event>) {
    && |entries| == count && AllFit(entries) && S.AllAdds(entries) && Frames(entries) <= data
    && ApplyEvents(books, entries).errors == 0
  }

  lemma {:induction false} EntriesTaken(data: ByteIo.Bytes, count: nat, books: Books) returns (entries: seq<P.Event>)
    requires S.LoadEntries(data, count, books).Some?
    ensures Restocks(data, count, books, entries)
    ensures S.LoadEntries(data, count, books) == Some(ApplyEvents(books, entries).books)
    decreases count
  {
    hide DecodeEvent, DecodeHeader, EncodeEvent, ApplyEvent, Fits;
    entries := [];
    if count > 0 {
      var n := 20 + DecodeHeader(data[..20]).value.payloadSize;
      var e := DecodeEvent(data[..n]).value;
      HeaderOfFront(data);
      FrameFound(data, n, e);
      AddByHeader(data, n);
      var rest := EntriesTaken(data[n..], count - 1, ApplyEvent(books, e).books);
      entries := [e] + rest;
      assert entries[1..] == rest;
      assert data == data[..n] + data[n..];
    }
  }

  /** A frame whose header says it adds an order adds an order. */
  lemma AddByHeader(data: ByteIo.Bytes, n: nat)
    requires DecodeHeader(data).Ok? && DecodeHeader(data).value.kind == 1 && 20 <= n <= |data|
    requires DecodeEvent(data[..n]).Ok?
    ensures DecodeEvent(data[..n]).value.AddOrder?
  {
    HeaderSays(data);
    DecodeByOffset(data[..n]);
    hide DecodeEvent, DecodeHeader;
  }

  lemma EntriesGiven(data: ByteIo.Bytes, count: nat, books: Books, entries: seq<P.Event>)
    requires Restocks(data, count, books, entries)
    ensures S.LoadEntries(data, count, books) == Some(ApplyEvents(books, entries).books)
  {
    hide S.LoadEntries, ApplyEvents, Frames;
    S.LoadFrames(entries, data[|Frames(entries)|..], books);
    assert data == Frames(entries) + data[|Frames(entries)|..];
  }

  /** A snapshot loads exactly when its header is in order and as many add messages as it counts follow, each
      of which its book accepts; and then to the books that these messages make. */
  lemma LoadsExactly(data: ByteIo.Bytes) returns (entries: seq<P.Event>)
    ensures var r := S.Load(data);
            if |data| < 24 || NumberAt(data, 0, 4) != 0x4D44_4832 || NumberAt(data, 4, 2) != 1
               || NumberAt(data, 6, 2) != 0
            then r == None
            else
              var count := NumberAt(data, 16, 8);
              && (r.Some? <==> exists given :: Restocks(data[24..], count, NoBooks, given))
              && (r.Some? ==> Restocks(data[24..], count, NoBooks, entries)
                              && r.value == S.Loaded(NumberAt(data, 8, 8), ApplyEvents(NoBooks, entries).books))
  {
    hide Get, GetAll, Sum, S.LoadEntries, Restocks, ApplyEvents;
    entries := [];
    if |data| >= 24 {
      SnapshotOffsets(data);
      var count := NumberAt(data, 16, 8);
      if given :| Restocks(data[24..], count, NoBooks, given) {
        EntriesGiven(data[24..], count, NoBooks, given);
      }
      if S.LoadEntries(data[24..], count, NoBooks).Some? {
        entries := EntriesTaken(data[24..], count, NoBooks);
      }
    }
  }
}
