/** The binary codec of one drawing (`Drawing`): a fixed 32-byte record with
    the native layout "diI4i" (timestamp, kind value, thickness, four
    coordinates), an 8-byte "II" header (version, body length), and the batch
    decoder that cuts a byte string into records. */
module Codec {
  import opened Common
  import opened Octets
  import opened Struct
  import opened DrawingTypes

  const HEADER_VERSION: nat := 1
  const HEADER_SIZE: nat := 8
  const MSG_SIZE: nat := 32

  /** The 8 bytes of the `d` field. The program stores a float there; the model
      keeps its bits and compares them bitwise. */
  type Timestamp = s: seq<byte> | |s| == 8 witness [0, 0, 0, 0, 0, 0, 0, 0]

  datatype Drawing = Drawing(shape: WireKind, thickness: int, coords: seq<int>, timestamp: Timestamp)

  /** The drawings `struct.pack` accepts: an unsigned 32-bit thickness and
      exactly four signed 32-bit coordinates. */
  predicate Packable(d: Drawing) {
    && IsUInt32(d.thickness)
    && |d.coords| == 4
    && (forall i :: 0 <= i < 4 ==> IsInt32(d.coords[i]))
  }

  /** `__eq__`: field by field, the timestamp compared as bits. */
  function Equals(a: Drawing, b: Drawing): (r: bool)
    ensures r <==> a == b
  {
    && a.timestamp == b.timestamp
    && a.shape == b.shape
    && a.thickness == b.thickness
    && a.coords == b.coords
  }

  /** `encode`: the 32-byte record, or the empty string where `pack` raises. */
  function Encode(d: Drawing): (r: seq<byte>)
    ensures !Packable(d) <==> r == []
    ensures Packable(d) ==> |r| == MSG_SIZE
  {
    if Packable(d) then
      d.timestamp + PackI32(Value(d.shape)) + PackU32(d.thickness)
        + PackI32(d.coords[0]) + PackI32(d.coords[1])
        + PackI32(d.coords[2]) + PackI32(d.coords[3])
    else []
  }

  /** The record's fields in order: 8-byte timestamp, 4-byte signed kind value,
      4-byte unsigned thickness, four 4-byte signed coordinates. */
  lemma EncodeLayout(d: Drawing)
    requires Packable(d)
    ensures var r := Encode(d);
      && r[..8] == d.timestamp
      && r[8..12] == PackI32(Value(d.shape))
      && r[12..16] == PackU32(d.thickness)
      && r[16..20] == PackI32(d.coords[0])
      && r[20..24] == PackI32(d.coords[1])
      && r[24..28] == PackI32(d.coords[2])
      && r[28..32] == PackI32(d.coords[3])
  {
  }

  /** `decode_drawing`: `None` unless the input is exactly one record whose kind
      value names a member of the enumeration. */
  function DecodeDrawing(b: seq<byte>): (r: Option<Drawing>)
    ensures |b| != MSG_SIZE ==> r == None
    ensures |b| == MSG_SIZE ==> (r.Some? <==> 1 <= UnpackI32(b[8..12]) <= 7)
    ensures r.Some? ==> Packable(r.value)
  {
    if |b| != MSG_SIZE then None
    else
      match FromValue(UnpackI32(b[8..12]))
      case None => None
      case Some(k) =>
        var d := Drawing(k, UnpackU32(b[12..16]),
                         [UnpackI32(b[16..20]), UnpackI32(b[20..24]),
                          UnpackI32(b[24..28]), UnpackI32(b[28..32])],
                         b[..8]);
        Some(d)
  }

  /** A record is the concatenation of its seven fields. */
  lemma Fields(b: seq<byte>)
    requires |b| == MSG_SIZE
    ensures b == b[..8] + b[8..12] + b[12..16] + b[16..20] + b[20..24] + b[24..28] + b[28..32]
  {
    assert b[..12] == b[..8] + b[8..12];
    assert b[..16] == b[..12] + b[12..16];
    assert b[..20] == b[..16] + b[16..20];
    assert b[..24] == b[..20] + b[20..24];
    assert b[..28] == b[..24] + b[24..28];
    assert b == b[..28] + b[28..32];
  }

  lemma EncodeOfDecoded(b: seq<byte>, d: Drawing)
    requires |b| == MSG_SIZE && 1 <= UnpackI32(b[8..12]) <= 7
    requires d.shape == FromValue(UnpackI32(b[8..12])).value
    requires d.thickness == UnpackU32(b[12..16])
    requires d.coords == [UnpackI32(b[16..20]), UnpackI32(b[20..24]),
                          UnpackI32(b[24..28]), UnpackI32(b[28..32])]
    requires d.timestamp == b[..8]
    ensures Packable(d) && Encode(d) == b
  {
    I32BytesRoundTrip(b[8..12]);
    U32BytesRoundTrip(b[12..16]);
    I32BytesRoundTrip(b[16..20]);
    I32BytesRoundTrip(b[20..24]);
    I32BytesRoundTrip(b[24..28]);
    I32BytesRoundTrip(b[28..32]);
    assert PackI32(Value(d.shape)) == b[8..12];
    assert Packable(d);
    Fields(b);
  }

  /** A record that decodes is the encoding of what it decodes to: the decoder
      loses no bits. */
  lemma DecodeThenEncode(b: seq<byte>)
    requires DecodeDrawing(b).Some?
    ensures Encode(DecodeDrawing(b).value) == b
  {
    EncodeOfDecoded(b, DecodeDrawing(b).value);
  }

  /** Decoding an encoded drawing gives back an equal drawing. */
  lemma RoundTrip(d: Drawing)
    requires Packable(d)
    ensures DecodeDrawing(Encode(d)) == Some(d)
    ensures Equals(DecodeDrawing(Encode(d)).value, d)
  {
    var e := Encode(d);
    EncodeLayout(d);
    I32RoundTrip(Value(d.shape));
    U32RoundTrip(d.thickness);
    I32RoundTrip(d.coords[0]);
    I32RoundTrip(d.coords[1]);
    I32RoundTrip(d.coords[2]);
    I32RoundTrip(d.coords[3]);
    FromValueOfValue(d.shape);
    assert d.coords == [d.coords[0], d.coords[1], d.coords[2], d.coords[3]];
  }

  /** A record whose kind value is not a member's value does not decode. */
  lemma UnknownKindRejected(d: Drawing, v: int)
    requires Packable(d) && IsInt32(v) && !(1 <= v <= 7)
    ensures DecodeDrawing(Encode(d)[..8] + PackI32(v) + Encode(d)[12..]) == None
  {
    var e := Encode(d);
    assert |e| == MSG_SIZE;
    var b := e[..8] + PackI32(v) + e[12..];
    assert b[8..12] == PackI32(v);
    I32RoundTrip(v);
  }

  /** One record fewer once the first one is cut off. */
  lemma CountStep(n: nat)
    requires n >= MSG_SIZE
    ensures (n - MSG_SIZE) / MSG_SIZE == n / MSG_SIZE - 1
  {
  }

  /** The i-th whole record of a byte string. */
  function Record(b: seq<byte>, i: nat): (r: seq<byte>)
    requires i < |b| / MSG_SIZE
    ensures |r| == MSG_SIZE
  {
    b[MSG_SIZE * i .. MSG_SIZE * i + MSG_SIZE]
  }

  /** `decode_drawings`: the i-th entry decodes the i-th whole record; a
      trailing partial record is ignored. */
  function DecodeDrawings(b: seq<byte>): (r: seq<Option<Drawing>>)
    ensures |r| == |b| / MSG_SIZE
  {
    seq(|b| / MSG_SIZE, i requires 0 <= i < |b| / MSG_SIZE => DecodeDrawing(Record(b, i)))
  }

  /** The records after a leading record are the records of what follows it. */
  lemma RecordAfterHead(head: seq<byte>, tail: seq<byte>, i: nat)
    requires |head| == MSG_SIZE && i < |tail| / MSG_SIZE
    ensures i + 1 < |head + tail| / MSG_SIZE
    ensures Record(head + tail, i + 1) == Record(tail, i)
  {
    assert MSG_SIZE * (i + 1) == MSG_SIZE * i + MSG_SIZE;
  }

  /** The concatenated encodings of a list of drawings. */
  function EncodeAll(ds: seq<Drawing>): (r: seq<byte>)
  {
    if |ds| == 0 then [] else Encode(ds[0]) + EncodeAll(ds[1..])
  }

  /** Each drawing of the list, wrapped as a successful decode. */
  function Decoded(ds: seq<Drawing>): (r: seq<Option<Drawing>>)
    ensures |r| == |ds| && forall i :: 0 <= i < |ds| ==> r[i] == Some(ds[i])
  {
    seq(|ds|, i requires 0 <= i < |ds| => Some(ds[i]))
  }

  lemma DecodedCons(ds: seq<Drawing>)
    requires |ds| > 0
    ensures Decoded(ds) == [Some(ds[0])] + Decoded(ds[1..])
  {
  }

  /** Batch round trip: decoding concatenated encodings of packable drawings
      yields those drawings in order. */
  lemma {:induction false} BatchRoundTrip(ds: seq<Drawing>)
    requires forall i :: 0 <= i < |ds| ==> Packable(ds[i])
    ensures DecodeDrawings(EncodeAll(ds)) == Decoded(ds)
  {
    if |ds| > 0 {
      assert Packable(ds[0]);
      BatchRoundTrip(ds[1..]);
      RoundTrip(ds[0]);
      DecodeDrawingsCons(Encode(ds[0]), EncodeAll(ds[1..]));
      DecodedCons(ds);
    }
  }

  /** Decoding a record followed by more bytes. */
  lemma DecodeDrawingsCons(head: seq<byte>, tail: seq<byte>)
    requires |head| == MSG_SIZE
    ensures DecodeDrawings(head + tail) == [DecodeDrawing(head)] + DecodeDrawings(tail)
  {
    var l := DecodeDrawings(head + tail);
    var r := [DecodeDrawing(head)] + DecodeDrawings(tail);
    CountStep(|head + tail|);
    assert (head + tail)[MSG_SIZE..] == tail;
    forall j | 0 <= j < |l|
      ensures l[j] == r[j]
    {
      if j == 0 {
        assert Record(head + tail, 0) == head;
      } else {
        RecordAfterHead(head, tail, j - 1);
      }
    }
  }

  /** Bytes after the last whole record never change the result. */
  lemma TrailingBytesDropped(b: seq<byte>, tail: seq<byte>)
    requires |b| % MSG_SIZE == 0 && |tail| < MSG_SIZE
    ensures DecodeDrawings(b + tail) == DecodeDrawings(b)
  {
    assert |b + tail| / MSG_SIZE == |b| / MSG_SIZE;
    forall i | 0 <= i < |b| / MSG_SIZE
      ensures Record(b + tail, i) == Record(b, i)
    {
      assert MSG_SIZE * i + MSG_SIZE <= |b|;
    }
  }

  /** `create_header`: version and body length, or the empty string where the
      length does not fit the unsigned field and `pack` raises. */
  function CreateHeader(body: seq<byte>): (r: seq<byte>)
    ensures IsUInt32(|body|) ==> |r| == HEADER_SIZE
    ensures !IsUInt32(|body|) ==> r == []
  {
    if IsUInt32(|body|) then PackPair(HEADER_VERSION, |body|) else []
  }

  /** `decode_header`: (version, length), or `None` unless exactly 8 bytes. */
  function DecodeHeader(b: seq<byte>): (r: Option<(nat, nat)>)
    ensures r.Some? <==> |b| == HEADER_SIZE
    ensures r.Some? ==> IsUInt32(r.value.0) && IsUInt32(r.value.1)
    ensures r.Some? ==> PackPair(r.value.0, r.value.1) == b
  {
    if |b| == HEADER_SIZE then
      PairBytesRoundTrip(b);
      Some(UnpackPair(b))
    else None
  }

  lemma HeaderRoundTrip(body: seq<byte>)
    requires IsUInt32(|body|)
    ensures DecodeHeader(CreateHeader(body)) == Some((HEADER_VERSION, |body|))
  {
    PairRoundTrip(HEADER_VERSION, |body|);
  }
}
