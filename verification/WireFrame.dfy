/**
 The length-prefixed wire frame of node/p2p/src/protocol.rs. Decoding a stream of encoded
 frames gives the frames back, and whatever decodes re-encodes to the bytes consumed.
 */
module WireFrame {
  import opened Wrappers
  import opened Bytes

  type Magic = m: seq<byte> | |m| == 4 witness [0, 0, 0, 0]

  /** The ASCII bytes of "CCP1". */
  const MAGIC_BYTES: Magic := [67, 67, 80, 49]

  const HEADER_SIZE: nat := 40

  datatype Frame = Frame(magic: Magic, length: Word32, checksum: Hash, payload: seq<byte>)

  datatype ProtocolError = InvalidMagic | InvalidLength | ChecksumMismatch | TooShort

  type Checksum = seq<byte> -> Hash

  /** The cast of the payload length to u32. */
  function LengthWord(payload: seq<byte>): Word32
  {
    |payload| % WORD32
  }

  function NewFrame(sum: Checksum, payload: seq<byte>): Frame
  {
    Frame(MAGIC_BYTES, LengthWord(payload), sum(payload), payload)
  }

  function Validate(sum: Checksum, f: Frame): Result<(), ProtocolError>
  {
    if f.magic != MAGIC_BYTES then Err(InvalidMagic)
    else if LengthWord(f.payload) != f.length then Err(InvalidLength)
    else if f.checksum != sum(f.payload) then Err(ChecksumMismatch)
    else Ok(())
  }

  function Encode(f: Frame): seq<byte>
  {
    f.magic + BigEndian(4, f.length) + f.checksum + f.payload
  }

  /** Reads one frame from the front; neither magic nor checksum is tested here. */
  function Decode(bytes: seq<byte>): Result<Frame, ProtocolError>
  {
    if |bytes| < HEADER_SIZE then Err(TooShort)
    else (
      Widths();
      var length := Value(bytes[4..8]);
      if |bytes| < HEADER_SIZE + length then Err(TooShort)
      else Ok(Frame(bytes[..4], length, bytes[8..40], bytes[40..40 + length]))
    )
  }

  // ---------------------------------------------------------------- the code's buffers

  /** Where each field is found on the wire. */
  ghost predicate LaidOut(bytes: seq<byte>, f: Frame)
  {
    && HEADER_SIZE == 40 <= |bytes|
    && bytes[..4] == f.magic && Value(bytes[4..8]) == f.length && bytes[8..40] == f.checksum
    && f.payload <= bytes[40..]
  }

  /** Magic, length, checksum and payload, at offsets 0, 4, 8 and 40, and nothing after. */
  lemma EncodeLayout(f: Frame)
    ensures LaidOut(Encode(f), f) && Encode(f)[40..] == f.payload
  {
    var bytes := Encode(f);
    Widths();
    ValueOfBigEndian(4, f.length);
    assert bytes[..4] == f.magic && bytes[4..8] == BigEndian(4, f.length);
    assert bytes[8..40] == f.checksum && bytes[40..] == f.payload;
  }

  /** What is read is found at those offsets, and as long as the length says. */
  lemma DecodeLayout(bytes: seq<byte>)
    requires Decode(bytes).Ok?
    ensures LaidOut(bytes, Decode(bytes).value) && |Decode(bytes).value.payload| == Value(bytes[4..8])
  {
    var f := Decode(bytes).value;
    assert bytes[40..][..|f.payload|] == f.payload;
  }

  /** A new frame on the wire: "CCP1", the length modulo 2^32, the checksum of the payload, the payload. */
  lemma NewFrameBytes(sum: Checksum, payload: seq<byte>)
    ensures var bytes := Encode(NewFrame(sum, payload));
      && |bytes| == 40 + |payload| && bytes[..4] == [0x43, 0x43, 0x50, 0x31]
      && Value(bytes[4..8]) == |payload| % 0x1_0000_0000 && bytes[8..40] == sum(payload) && bytes[40..] == payload
  {
    EncodeLayout(NewFrame(sum, payload));
  }

  method ToBytes(f: Frame) returns (bytes: seq<byte>)
    ensures bytes == Encode(f)
    ensures LaidOut(bytes, f) && bytes[40..] == f.payload
  {
    bytes := [];
    bytes := bytes + f.magic;
    bytes := bytes + BigEndian(4, f.length);
    bytes := bytes + f.checksum;
    bytes := bytes + f.payload;
    EncodeLayout(f);
  }

  method FromBytes(bytes: seq<byte>) returns (r: Result<Frame, ProtocolError>)
    ensures r == Decode(bytes)
    ensures r.Ok? ==> LaidOut(bytes, r.value) && |r.value.payload| == Value(bytes[4..8])
  {
    if |bytes| < HEADER_SIZE {
      return Err(TooShort);
    }
    Widths();
    var length := Value([bytes[4], bytes[5], bytes[6], bytes[7]]);
    assert [bytes[4], bytes[5], bytes[6], bytes[7]] == bytes[4..8];
    var checksum := new byte[32];
    var i := 0;
    while i < 32
      invariant 0 <= i <= 32
      invariant forall j :: 0 <= j < i ==> checksum[j] == bytes[8 + j]
    {
      checksum[i] := bytes[8 + i];
      i := i + 1;
    }
    assert checksum[..] == bytes[8..40];
    if |bytes| < HEADER_SIZE + length {
      return Err(TooShort);
    }
    assert [bytes[0], bytes[1], bytes[2], bytes[3]] == bytes[..4];
    r := Ok(Frame([bytes[0], bytes[1], bytes[2], bytes[3]], length, checksum[..], bytes[40..40 + length]));
    DecodeLayout(bytes);
  }

  // ---------------------------------------------------------------- one frame

  /** The length field is the length of the payload. */
  predicate WellFormed(f: Frame)
  {
    f.length == |f.payload|
  }

  /** A frame at the front of any bytes is read back exactly. */
  lemma DecodeEncode(f: Frame, rest: seq<byte>)
    requires WellFormed(f)
    ensures Decode(Encode(f) + rest) == Ok(f)
  {
    var bytes := Encode(f) + rest;
    Widths();
    ValueOfBigEndian(4, f.length);
    assert bytes[..4] == f.magic;
    assert bytes[4..8] == BigEndian(4, f.length);
    assert bytes[8..40] == f.checksum;
    assert bytes[40..40 + |f.payload|] == f.payload;
  }

  /** What decodes is well formed and re-encodes to exactly the bytes it was read from. */
  lemma EncodeDecode(bytes: seq<byte>)
    requires Decode(bytes).Ok?
    ensures var f := Decode(bytes).value;
      WellFormed(f) && HEADER_SIZE + |f.payload| <= |bytes| && Encode(f) == bytes[..HEADER_SIZE + |f.payload|]
  {
    var f := Decode(bytes).value;
    BigEndianOfValue(bytes[4..8]);
    assert bytes[..40 + |f.payload|] == bytes[..4] + bytes[4..8] + bytes[8..40] + bytes[40..40 + |f.payload|];
  }

  /** Decoding fails exactly when no well-formed frame is a prefix. */
  lemma DecodeFailsIff(bytes: seq<byte>)
    ensures Decode(bytes) == Err(TooShort) <==> forall f :: WellFormed(f) ==> !(Encode(f) <= bytes)
  {
    if Decode(bytes).Ok? {
      EncodeDecode(bytes);
      assert Encode(Decode(bytes).value) <= bytes;
    } else {
      forall f | WellFormed(f) ensures !(Encode(f) <= bytes) {
        if Encode(f) <= bytes {
          var rest := bytes[|Encode(f)|..];
          assert Encode(f) + rest == bytes;
          DecodeEncode(f, rest);
        }
      }
    }
  }

  /** A new frame survives the trip exactly when its payload is under 2^32 bytes. */
  lemma NewFrameRoundTripIff(sum: Checksum, payload: seq<byte>)
    ensures Decode(Encode(NewFrame(sum, payload))) == Ok(NewFrame(sum, payload)) <==> |payload| < WORD32
  {
    var f := NewFrame(sum, payload);
    if |payload| < WORD32 {
      DecodeEncode(f, []);
      assert Encode(f) + [] == Encode(f);
    } else if Decode(Encode(f)).Ok? {
      EncodeDecode(Encode(f));
    }
  }

  /**
   The receiver takes exactly what a sender makes: decoding and validating succeed just when the
   bytes begin with a new frame of some payload under 2^32 bytes, and that frame is what is read.
   */
  lemma AcceptedBytesIff(sum: Checksum, bytes: seq<byte>)
    ensures Decode(bytes).Ok? && Validate(sum, Decode(bytes).value).Ok? <==>
      exists p :: |p| < WORD32 && Encode(NewFrame(sum, p)) <= bytes
    ensures forall p :: |p| < WORD32 && Encode(NewFrame(sum, p)) <= bytes ==> Decode(bytes) == Ok(NewFrame(sum, p))
  {
    if Decode(bytes).Ok? && Validate(sum, Decode(bytes).value).Ok? {
      EncodeDecode(bytes);
      var f := Decode(bytes).value;
      assert f == NewFrame(sum, f.payload) && Encode(NewFrame(sum, f.payload)) <= bytes;
    }
    forall p | |p| < WORD32 && Encode(NewFrame(sum, p)) <= bytes
      ensures Decode(bytes) == Ok(NewFrame(sum, p))
    {
      var rest := bytes[|Encode(NewFrame(sum, p))|..];
      assert Encode(NewFrame(sum, p)) + rest == bytes;
      DecodeEncode(NewFrame(sum, p), rest);
    }
  }

  /** Which error an invalid frame gets: that of the first field in which it differs from a new frame. */
  lemma ValidationReason(sum: Checksum, f: Frame)
    requires Validate(sum, f).Err?
    ensures var e, g := Validate(sum, f).error, NewFrame(sum, f.payload);
      && (f.magic != g.magic <==> e == InvalidMagic)
      && (f.magic == g.magic && f.length != g.length <==> e == InvalidLength)
      && (f.magic == g.magic && f.length == g.length && f.checksum != g.checksum <==> e == ChecksumMismatch)
  {
  }

  // ---------------------------------------------------------------- streams

  function EncodeAll(fs: seq<Frame>): seq<byte>
  {
    if fs == [] then [] else Encode(fs[0]) + EncodeAll(fs[1..])
  }

  /** Decodes frame after frame until the bytes are used up. */
  function DecodeAll(bytes: seq<byte>): Result<seq<Frame>, ProtocolError>
    decreases |bytes|
  {
    if bytes == [] then Ok([])
    else match Decode(bytes)
      case Err(e) => Err(e)
      case Ok(f) =>
        match DecodeAll(bytes[HEADER_SIZE + f.length..])
        case Err(e) => Err(e)
        case Ok(fs) => Ok([f] + fs)
  }

  /** Every sequence of well-formed frames is recovered from the concatenation of its encodings. */
  lemma {:induction false} StreamRoundTrip(fs: seq<Frame>)
    requires forall f :: f in fs ==> WellFormed(f)
    ensures DecodeAll(EncodeAll(fs)) == Ok(fs)
  {
    if fs != [] {
      var f, rest := fs[0], EncodeAll(fs[1..]);
      assert f in fs;
      DecodeEncode(f, rest);
      assert (Encode(f) + rest)[HEADER_SIZE + f.length..] == rest;
      StreamRoundTrip(fs[1..]);
      assert Encode(f) + rest != [];
      assert fs == [f] + fs[1..];
    }
  }

  /** Bytes that decode as a stream are the encoding of the frames found, and of no others. */
  lemma {:induction false} StreamReencodes(bytes: seq<byte>)
    requires DecodeAll(bytes).Ok?
    ensures var fs := DecodeAll(bytes).value; EncodeAll(fs) == bytes && forall f :: f in fs ==> WellFormed(f)
    decreases |bytes|
  {
    if bytes != [] {
      var f := Decode(bytes).value;
      var tail := bytes[HEADER_SIZE + f.length..];
      var fs := DecodeAll(tail).value;
      assert bytes == Encode(f) + tail by {
        EncodeDecode(bytes);
        assert bytes == bytes[..HEADER_SIZE + f.length] + tail;
      }
      StreamReencodes(tail);
      assert DecodeAll(bytes).value == [f] + fs;
      assert ([f] + fs)[1..] == fs;
      assert WellFormed(f) by { EncodeDecode(bytes); }
    }
  }

  function NewFrames(sum: Checksum, payloads: seq<seq<byte>>): seq<Frame>
  {
    if payloads == [] then [] else [NewFrame(sum, payloads[0])] + NewFrames(sum, payloads[1..])
  }

  /** Sending payloads under 2^32 bytes: the receiver decodes the very frames sent, all valid. */
  lemma {:induction false} PayloadsArrive(sum: Checksum, payloads: seq<seq<byte>>)
    requires forall p :: p in payloads ==> |p| < WORD32
    ensures var fs := NewFrames(sum, payloads);
      && DecodeAll(EncodeAll(fs)) == Ok(fs) && |fs| == |payloads|
      && forall i :: 0 <= i < |fs| ==> fs[i].payload == payloads[i] && Validate(sum, fs[i]).Ok?
  {
    FramesOf(sum, payloads);
    StreamRoundTrip(NewFrames(sum, payloads));
  }

  lemma {:induction false} FramesOf(sum: Checksum, payloads: seq<seq<byte>>)
    requires forall p :: p in payloads ==> |p| < WORD32
    ensures var fs := NewFrames(sum, payloads);
      && |fs| == |payloads|
      && (forall f :: f in fs ==> WellFormed(f))
      && forall i :: 0 <= i < |fs| ==> fs[i].payload == payloads[i] && Validate(sum, fs[i]).Ok?
  {
    if payloads != [] {
      FramesOf(sum, payloads[1..]);
      assert payloads[0] in payloads;
    }
  }
}
