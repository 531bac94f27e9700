/** One message as one frame: a fixed header and a fixed payload for each type (encoder.cpp,
    decoder.cpp, messages.hpp). */
module Codec {
  import opened Domain
  import opened ByteIo
  import P = Protocol

  datatype Result<T, E> = Ok(value: T) | Err(error: E)

  datatype DecodeError =
    | TruncatedHeader
    | TruncatedPayload
    | InvalidReserved
    | InvalidMessageType
    | InvalidMessageSize
    | InvalidSide

  datatype Header = Header(kind: nat, payloadSize: nat, sequenceNumber: nat, timestampNs: nat)

  const HEADER_SIZE: nat := 20

  /** type, reserved, payload size, sequence number, timestamp. */
  const HEADER_WIDTHS: seq<nat> := [1, 1, 2, 8, 8]

  predicate KnownType(kind: nat) {
    1 <= kind <= 5
  }

  /** The payload's fields, in bytes. */
  function WidthsOf(kind: nat): seq<nat>
    requires KnownType(kind)
  {
    if kind == 1 then [8, 4, 8, 8, 1]
    else if kind == 2 then [8, 4]
    else if kind == 3 then [8, 4, 8, 8]
    else if kind == 4 then [4, 8, 8, 1]
    else [4]
  }

  function PayloadSizeFor(kind: nat): nat
    requires KnownType(kind)
  {
    if kind == 1 then 29 else if kind == 2 then 12 else if kind == 3 then 28 else if kind == 4 then 21 else 4
  }

  function KindOf(e: P.Event): (kind: nat)
    ensures KnownType(kind)
  {
    match e
    case AddOrder(_, _, _, _, _, _, _) => 1
    case CancelOrder(_, _, _, _) => 2
    case ModifyOrder(_, _, _, _, _, _) => 3
    case Trade(_, _, _, _, _, _) => 4
    case ClearBook(_, _, _) => 5
  }

  function SideByte(side: Side): nat {
    if side == Buy then 0 else 1
  }

  function FieldsOf(e: P.Event): seq<nat> {
    match e
    case AddOrder(_, _, id, i, price, quantity, side) => [id, i, ToUnsigned(price), quantity, SideByte(side)]
    case CancelOrder(_, _, id, i) => [id, i]
    case ModifyOrder(_, _, id, i, price, quantity) => [id, i, ToUnsigned(price), quantity]
    case Trade(_, _, i, price, quantity, side) => [i, ToUnsigned(price), quantity, SideByte(side)]
    case ClearBook(_, _, i) => [i]
  }

  /** The message fits the wire: 64-bit ids, quantities and numbers, 32-bit instruments. */
  predicate Fits(e: P.Event) {
    && e.sequenceNumber < WHOLE && e.timestampNs < WHOLE && e.instrumentId < 0x1_0000_0000
    && (e.AddOrder? || e.CancelOrder? || e.ModifyOrder? ==> e.orderId < WHOLE)
    && (e.AddOrder? || e.Trade? ==> e.quantity < WHOLE)
    && (e.ModifyOrder? ==> e.newQuantity < WHOLE)
  }

  function HeaderFields(e: P.Event): seq<nat> {
    [KindOf(e), 0, PayloadSizeFor(KindOf(e)), e.sequenceNumber, e.timestampNs]
  }

  lemma FieldsFit(e: P.Event)
    requires Fits(e)
    ensures Fit(HeaderFields(e), HEADER_WIDTHS) && Fit(FieldsOf(e), WidthsOf(KindOf(e)))
    ensures Sum(HEADER_WIDTHS) == HEADER_SIZE
  {
    Widths();
    HeaderWidths();
  }

  lemma HeaderWidths()
    ensures Sum(HEADER_WIDTHS) == HEADER_SIZE
  {
    assert HEADER_WIDTHS[1..] == [1, 2, 8, 8] && [1, 2, 8, 8][1..] == [2, 8, 8] && [2, 8, 8][1..] == [8, 8]
           && [8, 8][1..] == [8];
    assert [8][1..] == [];
  }

  /** The declared payload sizes are those of the fields. */
  lemma PayloadWidths(kind: nat)
    requires KnownType(kind)
    ensures Sum(WidthsOf(kind)) == PayloadSizeFor(kind) < 0x1_0000
  {
    assert [8, 4, 8, 8, 1][1..] == [4, 8, 8, 1] && [4, 8, 8, 1][1..] == [8, 8, 1] && [8, 8, 1][1..] == [8, 1]
           && [8, 1][1..] == [1];
    assert [8, 4][1..] == [4] && [8, 4, 8, 8][1..] == [4, 8, 8] && [4, 8, 8][1..] == [8, 8] && [8, 8][1..] == [8];
    assert [1][1..] == [] && [4][1..] == [] && [8][1..] == [];
  }

  /** A frame. */
  ghost function EncodeEvent(e: P.Event): (r: Bytes)
    requires Fits(e)
  {
    FieldsFit(e);
    PutAll(HeaderFields(e), HEADER_WIDTHS) + PutAll(FieldsOf(e), WidthsOf(KindOf(e)))
  }

  // ---------- decoding ----------

  function DecodeHeader(data: Bytes): Result<Header, DecodeError> {
    if |data| < HEADER_SIZE then Err(TruncatedHeader)
    else
      HeaderWidths();
      var h := GetAll(data, HEADER_WIDTHS);
      if h[1] != 0 then Err(InvalidReserved)
      else if !KnownType(h[0]) then Err(InvalidMessageType)
      else Ok(Header(h[0], h[2], h[3], h[4]))
  }

  /** A message from its payload's fields. */
  function MessageOf(h: Header, v: seq<nat>): Result<P.Event, DecodeError>
    requires KnownType(h.kind) && Fit(v, WidthsOf(h.kind))
  {
    Widths();
    var n, t := h.sequenceNumber, h.timestampNs;
    if h.kind == 1 then
      if v[4] > 1 then Err(InvalidSide)
      else Ok(P.AddOrder(n, t, v[0], v[1], ToSigned(v[2]), v[3], if v[4] == 0 then Buy else Sell))
    else if h.kind == 2 then Ok(P.CancelOrder(n, t, v[0], v[1]))
    else if h.kind == 3 then Ok(P.ModifyOrder(n, t, v[0], v[1], ToSigned(v[2]), v[3]))
    else if h.kind == 4 then
      if v[3] > 1 then Err(InvalidSide)
      else Ok(P.Trade(n, t, v[0], ToSigned(v[1]), v[2], if v[3] == 0 then Buy else Sell))
    else Ok(P.ClearBook(n, t, v[0]))
  }

  function DecodeEvent(data: Bytes): Result<P.Event, DecodeError> {
    match DecodeHeader(data)
    case Err(e) => Err(e)
    case Ok(h) =>
      PayloadWidths(h.kind);
      if h.payloadSize != PayloadSizeFor(h.kind) then Err(InvalidMessageSize)
      else if |data| < HEADER_SIZE + h.payloadSize then Err(TruncatedPayload)
      else MessageOf(h, GetAll(data[HEADER_SIZE..], WidthsOf(h.kind)))
  }

  // ---------- round trips ----------

  /** The fields of a message make the message. */
  lemma MessageOfFields(e: P.Event)
    requires Fits(e)
    ensures Fit(FieldsOf(e), WidthsOf(KindOf(e)))
    ensures MessageOf(Header(KindOf(e), PayloadSizeFor(KindOf(e)), e.sequenceNumber, e.timestampNs), FieldsOf(e)) ==
            Ok(e)
  {
    FieldsFit(e);
  }

  /** And nothing else does. */
  lemma FieldsOfMessage(h: Header, v: seq<nat>)
    requires KnownType(h.kind) && Fit(v, WidthsOf(h.kind)) && MessageOf(h, v).Ok? && h.sequenceNumber < WHOLE
             && h.timestampNs < WHOLE
    ensures var e := MessageOf(h, v).value;
            && Fits(e) && KindOf(e) == h.kind && FieldsOf(e) == v
            && e.sequenceNumber == h.sequenceNumber && e.timestampNs == h.timestampNs
  {
    Widths();
  }

  lemma EncodedHeader(e: P.Event, rest: Bytes)
    requires Fits(e)
    ensures |EncodeEvent(e)| == HEADER_SIZE + PayloadSizeFor(KindOf(e))
    ensures DecodeHeader(EncodeEvent(e) + rest) ==
            Ok(Header(KindOf(e), PayloadSizeFor(KindOf(e)), e.sequenceNumber, e.timestampNs))
  {
    FieldsFit(e);
    PayloadWidths(KindOf(e));
    var header, payload := PutAll(HeaderFields(e), HEADER_WIDTHS), PutAll(FieldsOf(e), WidthsOf(KindOf(e)));
    assert EncodeEvent(e) + rest == header + (payload + rest);
    GetPutAll(HeaderFields(e), HEADER_WIDTHS, payload + rest);
  }

  /** Decoding undoes encoding, whatever follows the frame. */
  lemma DecodeUndoesEncode(e: P.Event, rest: Bytes)
    requires Fits(e)
    ensures DecodeEvent(EncodeEvent(e) + rest) == Ok(e)
  {
    hide PutAll, GetAll, Sum, MessageOf, FieldsOf, WidthsOf, KindOf, PayloadSizeFor, DecodeHeader;
    EncodedHeader(e, rest);
    FieldsFit(e);
    PayloadWidths(KindOf(e));
    var header, payload := PutAll(HeaderFields(e), HEADER_WIDTHS), PutAll(FieldsOf(e), WidthsOf(KindOf(e)));
    assert (EncodeEvent(e) + rest)[HEADER_SIZE..] == payload + rest;
    GetPutAll(FieldsOf(e), WidthsOf(KindOf(e)), rest);
    MessageOfFields(e);
  }

  /** Encoding undoes decoding: bytes that decode begin with the frame of what they decode to. */
  lemma EncodeUndoesDecode(data: Bytes)
    requires DecodeEvent(data).Ok?
    ensures var e := DecodeEvent(data).value;
            Fits(e) && |data| >= |EncodeEvent(e)| && data[..|EncodeEvent(e)|] == EncodeEvent(e)
  {
    hide PutAll, GetAll, Sum, MessageOf, FieldsOf, WidthsOf, KindOf, PayloadSizeFor;
    HeaderWidths();
    Widths();
    var h := DecodeHeader(data).value;
    var fields := GetAll(data, HEADER_WIDTHS);
    assert Fit(fields, HEADER_WIDTHS) && fields[3] < WHOLE && fields[4] < WHOLE;
    PayloadWidths(h.kind);
    var v := GetAll(data[HEADER_SIZE..], WidthsOf(h.kind));
    FieldsOfMessage(h, v);
    var e := DecodeEvent(data).value;
    assert HeaderFields(e) == fields;
    PutGetAll(data, HEADER_WIDTHS);
    PutGetAll(data[HEADER_SIZE..], WidthsOf(h.kind));
    FrontAndBack(data, HEADER_SIZE, h.payloadSize);
  }

  // ---------- the appending and the cursor forms ----------

  lemma {:induction false} PutAllSnoc(values: seq<nat>, widths: seq<nat>, k: nat)
    requires Fit(values, widths) && k < |values|
    ensures Fit(values[..k], widths[..k]) && Fit(values[..k + 1], widths[..k + 1])
    ensures PutAll(values[..k + 1], widths[..k + 1]) == PutAll(values[..k], widths[..k]) + Put(values[k], widths[k])
    decreases k
  {
    if k == 0 {
      assert values[..1][1..] == [] && widths[..1][1..] == [];
    } else {
      PutAllSnoc(values[1..], widths[1..], k - 1);
      assert values[..k][1..] == values[1..][..k - 1] && widths[..k][1..] == widths[1..][..k - 1];
      assert values[..k + 1][1..] == values[1..][..k] && widths[..k + 1][1..] == widths[1..][..k];
    }
  }

  /** Appends the next of these fields. */
  method PutField(out: Bytes, v: nat, w: nat, ghost buf: Bytes, ghost values: seq<nat>, ghost widths: seq<nat>,
                  ghost k: nat)
    returns (longer: Bytes)
    requires Fit(values, widths) && k < |values| && values[k] == v && widths[k] == w
    requires Fit(values[..k], widths[..k]) && out == buf + PutAll(values[..k], widths[..k])
    ensures Fit(values[..k + 1], widths[..k + 1]) && longer == buf + PutAll(values[..k + 1], widths[..k + 1])
  {
    PutAllSnoc(values, widths, k);
    longer := PutUnsigned(out, v, w);
  }

  method PutHeader(buf: Bytes, e: P.Event) returns (out: Bytes)
    requires Fits(e)
    ensures Fit(HeaderFields(e), HEADER_WIDTHS) && out == buf + PutAll(HeaderFields(e), HEADER_WIDTHS)
  {
    hide PutAll, Sum;
    FieldsFit(e);
    ghost var f, w := HeaderFields(e), HEADER_WIDTHS;
    NothingPut(f, w);
    out := PutField(buf, KindOf(e), 1, buf, f, w, 0);
    out := PutField(out, 0, 1, buf, f, w, 1);
    out := PutField(out, PayloadSizeFor(KindOf(e)), 2, buf, f, w, 2);
    out := PutField(out, e.sequenceNumber, 8, buf, f, w, 3);
    out := PutField(out, e.timestampNs, 8, buf, f, w, 4);
    assert f[..5] == f && w[..5] == w;
  }

  lemma NothingPut(values: seq<nat>, widths: seq<nat>)
    requires |values| == |widths|
    ensures Fit(values[..0], widths[..0]) && PutAll(values[..0], widths[..0]) == []
  {
  }

  // What follows the header, for each kind of message.

  method PutAddOrder(buf: Bytes, e: P.Event) returns (out: Bytes)
    requires Fits(e) && e.AddOrder?
    ensures Fit(FieldsOf(e), WidthsOf(KindOf(e))) && out == buf + PutAll(FieldsOf(e), WidthsOf(KindOf(e)))
  {
    hide PutAll, Sum, HeaderFields, Fit;
    FieldsFit(e);
    ghost var f, w := FieldsOf(e), WidthsOf(KindOf(e));
    NothingPut(f, w);
    out := PutField(buf, e.orderId, 8, buf, f, w, 0);
    out := PutField(out, e.instrumentId, 4, buf, f, w, 1);
    out := PutField(out, ToUnsigned(e.price), 8, buf, f, w, 2);
    out := PutField(out, e.quantity, 8, buf, f, w, 3);
    out := PutField(out, SideByte(e.side), 1, buf, f, w, 4);
    assert f[..5] == f && w[..5] == w;
  }

  method PutCancelOrder(buf: Bytes, e: P.Event) returns (out: Bytes)
    requires Fits(e) && e.CancelOrder?
    ensures Fit(FieldsOf(e), WidthsOf(KindOf(e))) && out == buf + PutAll(FieldsOf(e), WidthsOf(KindOf(e)))
  {
    hide PutAll, Sum, HeaderFields, Fit;
    FieldsFit(e);
    ghost var f, w := FieldsOf(e), WidthsOf(KindOf(e));
    NothingPut(f, w);
    out := PutField(buf, e.orderId, 8, buf, f, w, 0);
    out := PutField(out, e.instrumentId, 4, buf, f, w, 1);
    assert f[..2] == f && w[..2] == w;
  }

  method PutModifyOrder(buf: Bytes, e: P.Event) returns (out: Bytes)
    requires Fits(e) && e.ModifyOrder?
    ensures Fit(FieldsOf(e), WidthsOf(KindOf(e))) && out == buf + PutAll(FieldsOf(e), WidthsOf(KindOf(e)))
  {
    hide PutAll, Sum, HeaderFields, Fit;
    FieldsFit(e);
    ghost var f, w := FieldsOf(e), WidthsOf(KindOf(e));
    NothingPut(f, w);
    out := PutField(buf, e.orderId, 8, buf, f, w, 0);
    out := PutField(out, e.instrumentId, 4, buf, f, w, 1);
    out := PutField(out, ToUnsigned(e.newPrice), 8, buf, f, w, 2);
    out := PutField(out, e.newQuantity, 8, buf, f, w, 3);
    assert f[..4] == f && w[..4] == w;
  }

  method PutTrade(buf: Bytes, e: P.Event) returns (out: Bytes)
    requires Fits(e) && e.Trade?
    ensures Fit(FieldsOf(e), WidthsOf(KindOf(e))) && out == buf + PutAll(FieldsOf(e), WidthsOf(KindOf(e)))
  {
    hide PutAll, Sum, HeaderFields, Fit;
    FieldsFit(e);
    ghost var f, w := FieldsOf(e), WidthsOf(KindOf(e));
    NothingPut(f, w);
    out := PutField(buf, e.instrumentId, 4, buf, f, w, 0);
    out := PutField(out, ToUnsigned(e.price), 8, buf, f, w, 1);
    out := PutField(out, e.quantity, 8, buf, f, w, 2);
    out := PutField(out, SideByte(e.aggressorSide), 1, buf, f, w, 3);
    assert f[..4] == f && w[..4] == w;
  }

  method PutClearBook(buf: Bytes, e: P.Event) returns (out: Bytes)
    requires Fits(e) && e.ClearBook?
    ensures Fit(FieldsOf(e), WidthsOf(KindOf(e))) && out == buf + PutAll(FieldsOf(e), WidthsOf(KindOf(e)))
  {
    hide PutAll, Sum, HeaderFields, Fit;
    FieldsFit(e);
    ghost var f, w := FieldsOf(e), WidthsOf(KindOf(e));
    NothingPut(f, w);
    out := PutField(buf, e.instrumentId, 4, buf, f, w, 0);
    assert f[..1] == f && w[..1] == w;
  }

  /** Appends a message's frame to a buffer. */
  method EncodeInto(buf: Bytes, e: P.Event) returns (out: Bytes)
    requires Fits(e)
    ensures out == buf + EncodeEvent(e)
  {
    hide PutAll, Sum, HeaderFields, FieldsOf, Fit, WidthsOf;
    out := PutHeader(buf, e);
    match e {
      case AddOrder(_, _, _, _, _, _, _) => out := PutAddOrder(out, e);
      case CancelOrder(_, _, _, _) => out := PutCancelOrder(out, e);
      case ModifyOrder(_, _, _, _, _, _) => out := PutModifyOrder(out, e);
      case Trade(_, _, _, _, _, _) => out := PutTrade(out, e);
      case ClearBook(_, _, _) => out := PutClearBook(out, e);
    }
  }

  lemma {:induction false} SumFront(widths: seq<nat>, k: nat)
    requires k < |widths|
    ensures Sum(widths[..k]) + widths[k] == Sum(widths[..k + 1]) <= Sum(widths)
    ensures k > 0 ==> Sum(widths[..k]) == widths[0] + Sum(widths[1..][..k - 1])
    decreases k
  {
    if k == 0 {
      assert widths[..1][1..] == [];
    } else {
      SumFront(widths[1..], k - 1);
      assert widths[..k][1..] == widths[1..][..k - 1] && widths[..k + 1][1..] == widths[1..][..k];
    }
  }

  /** Where a field lies. */
  lemma {:induction false} GetAllAt(data: Bytes, widths: seq<nat>, k: nat)
    requires |data| >= Sum(widths) && k < |widths|
    ensures Sum(widths[..k]) + widths[k] == Sum(widths[..k + 1]) <= Sum(widths)
    ensures GetAll(data, widths)[k] == Get(data[Sum(widths[..k])..Sum(widths[..k]) + widths[k]])
    decreases k
  {
    hide Get, GetAll, Sum;
    SumFront(widths, k);
    GetAllNext(data, widths, k);
    if k > 0 {
      var w := widths[k];
      GetAllAt(data[widths[0]..], widths[1..], k - 1);
      SumFront(widths[1..], k - 1);
      SliceOfRest(data, widths[0], Sum(widths[1..][..k - 1]), w);
    }
  }

  lemma GetAllNext(data: Bytes, widths: seq<nat>, k: nat)
    requires |data| >= Sum(widths) && k < |widths|
    ensures |data| >= widths[0] + Sum(widths[1..])
    ensures if k == 0 then GetAll(data, widths)[0] == Get(data[Sum(widths[..0])..Sum(widths[..0]) + widths[0]])
            else GetAll(data, widths)[k] == GetAll(data[widths[0]..], widths[1..])[k - 1]
  {
    hide Get;
    assert data[0..widths[0]] == data[..widths[0]];
  }

  lemma SliceOfRest(data: Bytes, n: nat, at: nat, w: nat)
    requires n + at + w <= |data|
    ensures data[n..][at..at + w] == data[n + at..n + at + w]
  {
  }

  /** Reads the next of these fields. */
  method GetField(reader: ByteReader, w: nat, ghost widths: seq<nat>, ghost k: nat) returns (v: nat)
    requires reader.Valid() && |reader.data| >= Sum(widths) && k < |widths| && widths[k] == w
    requires reader.pos == Sum(widths[..k])
    modifies reader
    ensures reader.Valid() && reader.pos == Sum(widths[..k + 1]) && v == GetAll(reader.data, widths)[k]
  {
    GetAllAt(reader.data, widths, k);
    var field := reader.GetUnsigned(w);
    v := field.value;
  }

  lemma {:induction false} GetAllFront(data: Bytes, n: nat, widths: seq<nat>)
    requires Sum(widths) <= n <= |data|
    ensures GetAll(data[..n], widths) == GetAll(data, widths)
    decreases |widths|
  {
    if widths != [] {
      var w := widths[0];
      assert data[..n][..w] == data[..w] && data[..n][w..] == data[w..][..n - w];
      GetAllFront(data[w..], n - w, widths[1..]);
    }
  }

  /** Reads a header through the cursor. */
  method ReadHeader(data: Bytes) returns (r: Result<Header, DecodeError>)
    ensures r == DecodeHeader(data)
  {
    if |data| < HEADER_SIZE {
      return Err(TruncatedHeader);
    }
    hide GetAll, Sum;
    HeaderWidths();
    GetAllFront(data, HEADER_SIZE, HEADER_WIDTHS);
    NoWidth(HEADER_WIDTHS);
    var reader := new ByteReader(data[..HEADER_SIZE]);
    ghost var w := HEADER_WIDTHS;
    var kind := GetField(reader, 1, w, 0);
    var reserved := GetField(reader, 1, w, 1);
    var payloadSize := GetField(reader, 2, w, 2);
    var number := GetField(reader, 8, w, 3);
    var timestamp := GetField(reader, 8, w, 4);
    if reserved != 0 {
      return Err(InvalidReserved);
    }
    if !KnownType(kind) {
      return Err(InvalidMessageType);
    }
    return Ok(Header(kind, payloadSize, number, timestamp));
  }

  lemma NoWidth(widths: seq<nat>)
    ensures Sum(widths[..0]) == 0
  {
  }

  /** Reads a frame through the cursor. */
  method ReadEvent(data: Bytes) returns (r: Result<P.Event, DecodeError>)
    ensures r == DecodeEvent(data)
  {
    hide GetAll, Sum, DecodeHeader;
    var header := ReadHeader(data);
    if header.Err? {
      return Err(header.error);
    }
    var h := header.value;
    KnownKind(data);
    PayloadWidths(h.kind);
    if h.payloadSize != PayloadSizeFor(h.kind) {
      return Err(InvalidMessageSize);
    }
    if |data| < HEADER_SIZE + h.payloadSize {
      return Err(TruncatedPayload);
    }
    Widths();
    ghost var w := WidthsOf(h.kind);
    GetAllFront(data[HEADER_SIZE..], h.payloadSize, w);
    NoWidth(w);
    var n, t := h.sequenceNumber, h.timestampNs;
    var reader := new ByteReader(data[HEADER_SIZE..][..h.payloadSize]);
    match h.kind {
      case 1 =>
        var id := GetField(reader, 8, w, 0);
        var i := GetField(reader, 4, w, 1);
        var price := GetField(reader, 8, w, 2);
        var quantity := GetField(reader, 8, w, 3);
        var side := GetField(reader, 1, w, 4);
        if side > 1 {
          return Err(InvalidSide);
        }
        return Ok(P.AddOrder(n, t, id, i, ToSigned(price), quantity, if side == 0 then Buy else Sell));
      case 2 =>
        var id := GetField(reader, 8, w, 0);
        var i := GetField(reader, 4, w, 1);
        return Ok(P.CancelOrder(n, t, id, i));
      case 3 =>
        var id := GetField(reader, 8, w, 0);
        var i := GetField(reader, 4, w, 1);
        var price := GetField(reader, 8, w, 2);
        var quantity := GetField(reader, 8, w, 3);
        return Ok(P.ModifyOrder(n, t, id, i, ToSigned(price), quantity));
      case 4 =>
        var i := GetField(reader, 4, w, 0);
        var price := GetField(reader, 8, w, 1);
        var quantity := GetField(reader, 8, w, 2);
        var side := GetField(reader, 1, w, 3);
        if side > 1 {
          return Err(InvalidSide);
        }
        return Ok(P.Trade(n, t, i, ToSigned(price), quantity, if side == 0 then Buy else Sell));
      case _ =>
        var i := GetField(reader, 4, w, 0);
        return Ok(P.ClearBook(n, t, i));
    }
  }

  lemma KnownKind(data: Bytes)
    requires DecodeHeader(data).Ok?
    ensures KnownType(DecodeHeader(data).value.kind) && |data| >= HEADER_SIZE
  {
  }
}
