/**
 The SignalG binary frame (protocol.go and the framing half of connection.go): an eight byte
 header with packed nibbles and a big-endian body length, then method, invocation id and body.
 Shifts and masks of Go bytes are written as division and remainder by 16 and 256.
 */
module Protocol {
  import opened Utf8

  const HEADER_SIZE := 8
  const MAX_METHOD_NAME_LEN := 255
  const MAX_INVOCATION_ID_LEN := 255
  const DEFAULT_MAX_PAYLOAD_SIZE := 0x10_0000
  const PROTOCOL_MAGIC: byte := 5
  const PROTOCOL_VERSION: byte := 1
  const MAX_UINT32 := 0xFFFF_FFFF

  /** The three body codecs that `newBodyCodec` knows; their numbers fit the codec nibble. */
  type Serialization = x: byte | x <= 2

  /** A frame kind is an arbitrary byte until it has been validated. */
  type FrameKind = byte
  const KIND_MESSAGE: FrameKind := 0
  const KIND_INVOKE: FrameKind := 1
  const KIND_COMPLETION: FrameKind := 2
  const KIND_ERROR: FrameKind := 3
  const KIND_PING: FrameKind := 4
  const KIND_PONG: FrameKind := 5

  datatype Error =
    | InvalidFrame
    | UnsupportedCodec
    | UnexpectedCodec
    | PayloadTooLarge
    | InvalidMethodName
    | InvalidInvocationID
    | InvalidFrameKind

  datatype Result<+T> = Ok(value: T) | Err(error: Error)
  datatype Check = Pass | Fail(error: Error)
  datatype Codec = NoCodec | Body(serialization: Serialization)

  datatype Message = Message(kind: FrameKind, name: seq<byte>, invocationID: seq<byte>, payload: seq<byte>)

  // ---- validation shared by both directions -------------------------------------------

  function NormalizeMaxPayloadSize(n: int): int
  {
    if n <= 0 then DEFAULT_MAX_PAYLOAD_SIZE else n
  }

  predicate IsControl(kind: FrameKind)
  {
    kind == KIND_PING || kind == KIND_PONG
  }

  function ValidateFrameKind(kind: FrameKind): Check
  {
    if kind == KIND_MESSAGE || kind == KIND_INVOKE || kind == KIND_COMPLETION
       || kind == KIND_ERROR || kind == KIND_PING || kind == KIND_PONG
    then Pass
    else Fail(InvalidFrameKind)
  }

  function ValidateMethodName(name: seq<byte>): Check
  {
    if name == [] then Fail(InvalidMethodName)
    else if |name| > MAX_METHOD_NAME_LEN then Fail(InvalidMethodName)
    else if !Valid(name) then Fail(InvalidMethodName)
    else Pass
  }

  function ValidateInvocationID(id: seq<byte>): Check
  {
    if id == [] then Fail(InvalidInvocationID)
    else if |id| > MAX_INVOCATION_ID_LEN then Fail(InvalidInvocationID)
    else if !Valid(id) then Fail(InvalidInvocationID)
    else Pass
  }

  function EnsurePayloadSize(n: int, maxPayloadSize: int): Check
  {
    if n < 0 || n > maxPayloadSize || n > MAX_UINT32 then Fail(PayloadTooLarge) else Pass
  }

  /** The sender's check of the three prefix fields. */
  function ValidateProtocolFrame(kind: FrameKind, name: seq<byte>, id: seq<byte>): Check
  {
    if ValidateFrameKind(kind).Fail? then ValidateFrameKind(kind)
    else if IsControl(kind) then
      if name != [] then Fail(InvalidMethodName)
      else if id != [] then Fail(InvalidInvocationID)
      else Pass
    else
      var methodCheck :=
        if kind == KIND_MESSAGE || kind == KIND_INVOKE then ValidateMethodName(name)
        else if name != [] then ValidateMethodName(name)
        else Pass;
      if methodCheck.Fail? then methodCheck
      else if kind != KIND_MESSAGE then ValidateInvocationID(id)
      else if id != [] then ValidateInvocationID(id)
      else Pass
  }

  // ---- encoding -----------------------------------------------------------------------

  function BigEndian(n: nat): (b: seq<byte>)
    ensures |b| == 4
  {
    [n / 0x100_0000 % 0x100, n / 0x1_0000 % 0x100, n / 0x100 % 0x100, n % 0x100]
  }

  function FromBigEndian(b: seq<byte>): (n: nat)
    requires |b| == 4
    ensures n <= MAX_UINT32
  {
    (b[0] as int) * 0x100_0000 + (b[1] as int) * 0x1_0000 + (b[2] as int) * 0x100 + b[3] as int
  }

  /** The fields of the fixed header behind its magic and version nibbles. */
  datatype FrameHeader = FrameHeader(codec: byte, kind: FrameKind, methodLen: byte, idLen: byte, bodyLen: nat)

  /** The eight header bytes; a codec or kind that does not fit its nibble is truncated, as in Go. */
  function HeaderBytes(h: FrameHeader): (b: seq<byte>)
    ensures |b| == HEADER_SIZE
  {
    [PROTOCOL_MAGIC * 16 + PROTOCOL_VERSION, h.codec % 16 * 16 + h.kind % 16, h.methodLen, h.idLen]
    + BigEndian(h.bodyLen)
  }

  function ParseHeader(frame: seq<byte>): (h: FrameHeader)
    requires |frame| >= HEADER_SIZE
    ensures h.codec < 16 && h.kind < 16 && h.bodyLen <= MAX_UINT32
  {
    FrameHeader(frame[1] / 16, frame[1] % 16, frame[2], frame[3], FromBigEndian(frame[4..8]))
  }

  /** The header of the frame for `m`, with the truncating length conversions of the Go code. */
  function HeaderFor(codec: Serialization, m: Message): FrameHeader
  {
    FrameHeader(codec, m.kind, |m.name| % 0x100, |m.invocationID| % 0x100, |m.payload| % 0x1_0000_0000)
  }

  function Encode(codec: Serialization, m: Message): (frame: seq<byte>)
  {
    HeaderBytes(HeaderFor(codec, m)) + m.name + m.invocationID + m.payload
  }

  /** What the sender puts on its queue for `m`, or why it refuses to. */
  function Emit(codec: Serialization, maxPayloadSize: int, m: Message): Result<seq<byte>>
  {
    var prefix := ValidateProtocolFrame(m.kind, m.name, m.invocationID);
    if prefix.Fail? then Err(prefix.error)
    else
      var size := EnsurePayloadSize(|m.payload|, maxPayloadSize);
      if size.Fail? then Err(size.error) else Ok(Encode(codec, m))
  }

  // ---- decoding -----------------------------------------------------------------------

  /** The receiver's header checks, in the order of the code. */
  function CheckHeader(h: FrameHeader, codec: Serialization, maxPayloadSize: int, frameLen: nat): Check
  {
    if h.codec != codec then Fail(UnexpectedCodec)
    else if ValidateFrameKind(h.kind).Fail? then Fail(InvalidFrameKind)
    else if IsControl(h.kind) && h.methodLen != 0 then Fail(InvalidMethodName)
    else if IsControl(h.kind) && h.idLen != 0 then Fail(InvalidInvocationID)
    else if IsControl(h.kind) && h.bodyLen != 0 then Fail(InvalidFrame)
    else if (h.kind == KIND_MESSAGE || h.kind == KIND_INVOKE) && h.methodLen == 0 then Fail(InvalidMethodName)
    else if !IsControl(h.kind) && h.kind != KIND_MESSAGE && h.idLen == 0 then Fail(InvalidInvocationID)
    else if h.bodyLen > maxPayloadSize then Fail(PayloadTooLarge)
    else if frameLen != HEADER_SIZE + h.methodLen + h.idLen + h.bodyLen then Fail(InvalidFrame)
    else Pass
  }

  function Decode(frame: seq<byte>, codec: Codec, maxPayload: int): Result<Message>
  {
    if |frame| < HEADER_SIZE then Err(InvalidFrame)
    else if frame[0] / 16 != PROTOCOL_MAGIC then Err(InvalidFrame)
    else if frame[0] % 16 != PROTOCOL_VERSION then Err(InvalidFrame)
    else if codec.NoCodec? then Err(UnsupportedCodec)
    else
      var h := ParseHeader(frame);
      var check := CheckHeader(h, codec.serialization, NormalizeMaxPayloadSize(maxPayload), |frame|);
      if check.Fail? then Err(check.error)
      else
        var nameEnd := HEADER_SIZE + h.methodLen;
        var idEnd := nameEnd + h.idLen;
        if !Valid(frame[HEADER_SIZE..nameEnd]) then Err(InvalidMethodName)
        else if !Valid(frame[nameEnd..idEnd]) then Err(InvalidInvocationID)
        else Ok(Message(h.kind, frame[HEADER_SIZE..nameEnd], frame[nameEnd..idEnd], frame[idEnd..]))
  }

  // ---- round trips --------------------------------------------------------------------

  lemma BigEndianRoundTrip(n: nat)
    requires n <= MAX_UINT32
    ensures FromBigEndian(BigEndian(n)) == n
  {
    var b := BigEndian(n);
    assert n / 0x1_0000 == (n / 0x100_0000) * 0x100 + b[1];
    assert n / 0x100 == (n / 0x1_0000) * 0x100 + b[2];
  }

  lemma FromBigEndianRoundTrip(b: seq<byte>)
    requires |b| == 4
    ensures BigEndian(FromBigEndian(b)) == b
  {
    var n := FromBigEndian(b);
    assert n / 0x100 == (b[0] as int) * 0x1_0000 + (b[1] as int) * 0x100 + b[2] as int;
    assert n / 0x1_0000 == (b[0] as int) * 0x100 + b[1] as int;
    assert n / 0x100_0000 == b[0];
  }

  /** Writing a header and reading it back, whatever follows it. */
  lemma HeaderThenParse(h: FrameHeader, rest: seq<byte>)
    requires h.codec < 16 && h.kind < 16 && h.bodyLen <= MAX_UINT32
    ensures ParseHeader(HeaderBytes(h) + rest) == h
  {
    var frame := HeaderBytes(h) + rest;
    assert frame[4..8] == BigEndian(h.bodyLen);
    BigEndianRoundTrip(h.bodyLen);
  }

  /** Reading a header and writing it back. */
  lemma ParseThenHeader(frame: seq<byte>)
    requires |frame| >= HEADER_SIZE && frame[0] / 16 == PROTOCOL_MAGIC && frame[0] % 16 == PROTOCOL_VERSION
    ensures HeaderBytes(ParseHeader(frame)) == frame[..HEADER_SIZE]
  {
    FromBigEndianRoundTrip(frame[4..8]);
    assert frame[..HEADER_SIZE] == frame[..4] + frame[4..8];
    assert frame[..4] == [frame[0], frame[1], frame[2], frame[3]];
  }

  /** The sender's check bounds every prefix field to what its length byte can hold. */
  lemma ValidPrefixFits(kind: FrameKind, name: seq<byte>, id: seq<byte>)
    requires ValidateProtocolFrame(kind, name, id).Pass?
    ensures kind <= KIND_PONG && |name| <= 255 && |id| <= 255 && Valid(name) && Valid(id)
  {
  }

  /** Sender and receiver, whose checks are written separately, judge the fields alike. */
  lemma ChecksAgree(codec: Serialization, maxPayloadSize: int, m: Message)
    requires |m.name| <= 255 && |m.invocationID| <= 255 && |m.payload| <= MAX_UINT32
    ensures var frameLen := HEADER_SIZE + |m.name| + |m.invocationID| + |m.payload|;
            (CheckHeader(HeaderFor(codec, m), codec, maxPayloadSize, frameLen).Pass?
             && Valid(m.name) && Valid(m.invocationID))
            <==>
            (ValidateProtocolFrame(m.kind, m.name, m.invocationID).Pass?
             && EnsurePayloadSize(|m.payload|, maxPayloadSize).Pass?
             && (IsControl(m.kind) ==> m.payload == []))
  {
  }

  /** Where the fields of an encoding lie. */
  lemma EncodeLayout(codec: Serialization, m: Message)
    ensures var f := Encode(codec, m);
            var nameEnd := HEADER_SIZE + |m.name|;
            var idEnd := nameEnd + |m.invocationID|;
            && |f| == idEnd + |m.payload|
            && f[0] == PROTOCOL_MAGIC * 16 + PROTOCOL_VERSION
            && f == HeaderBytes(HeaderFor(codec, m)) + (m.name + m.invocationID + m.payload)
            && f[HEADER_SIZE..nameEnd] == m.name && f[nameEnd..idEnd] == m.invocationID && f[idEnd..] == m.payload
  {
    var h := HeaderBytes(HeaderFor(codec, m));
    assert h[0] == PROTOCOL_MAGIC * 16 + PROTOCOL_VERSION;
    SplitFour(h, m.name, m.invocationID, m.payload);
  }

  lemma SplitFour(h: seq<byte>, a: seq<byte>, b: seq<byte>, c: seq<byte>)
    ensures var f := h + a + b + c;
            && f == h + (a + b + c)
            && f[|h|..|h| + |a|] == a && f[|h| + |a|..|h| + |a| + |b|] == b && f[|h| + |a| + |b|..] == c
  {
  }

  lemma HeaderForFits(codec: Serialization, m: Message)
    requires |m.name| <= 255 && |m.invocationID| <= 255 && |m.payload| <= MAX_UINT32
    ensures HeaderFor(codec, m) == FrameHeader(codec, m.kind, |m.name|, |m.invocationID|, |m.payload|)
  {
  }

  lemma DecodeByLayout(f: seq<byte>, codec: Serialization, maxPayload: int, m: Message)
    requires Valid(m.name) && Valid(m.invocationID)
    requires |f| == HEADER_SIZE + |m.name| + |m.invocationID| + |m.payload|
    requires f[0] == PROTOCOL_MAGIC * 16 + PROTOCOL_VERSION
    requires |m.name| <= 255 && |m.invocationID| <= 255 && |m.payload| <= MAX_UINT32
    requires ParseHeader(f) == FrameHeader(codec, m.kind, |m.name|, |m.invocationID|, |m.payload|)
    requires var nameEnd := HEADER_SIZE + |m.name|;
             var idEnd := nameEnd + |m.invocationID|;
             f[HEADER_SIZE..nameEnd] == m.name && f[nameEnd..idEnd] == m.invocationID && f[idEnd..] == m.payload
    ensures var check := CheckHeader(ParseHeader(f), codec, NormalizeMaxPayloadSize(maxPayload), |f|);
            Decode(f, Body(codec), maxPayload) == if check.Pass? then Ok(m) else Err(check.error)
  {
  }

  /** The receiver reads back from an encoding exactly what was put into it. */
  lemma DecodeOfEncoding(codec: Serialization, maxPayload: int, m: Message)
    requires m.kind < 16 && |m.name| <= 255 && |m.invocationID| <= 255 && |m.payload| <= MAX_UINT32
    requires Valid(m.name) && Valid(m.invocationID)
    ensures var frameLen := HEADER_SIZE + |m.name| + |m.invocationID| + |m.payload|;
            var check := CheckHeader(HeaderFor(codec, m), codec, NormalizeMaxPayloadSize(maxPayload), frameLen);
            Decode(Encode(codec, m), Body(codec), maxPayload) == if check.Pass? then Ok(m) else Err(check.error)
  {
    EncodeLayout(codec, m);
    HeaderForFits(codec, m);
    HeaderThenParse(HeaderFor(codec, m), m.name + m.invocationID + m.payload);
    DecodeByLayout(Encode(codec, m), codec, maxPayload, m);
  }

  /** Decoding an emitted frame returns the same fields, unless it is a control frame with a body. */
  lemma EmitThenDecode(codec: Serialization, maxPayload: int, m: Message)
    requires Emit(codec, NormalizeMaxPayloadSize(maxPayload), m).Ok?
    ensures var r := Decode(Emit(codec, NormalizeMaxPayloadSize(maxPayload), m).value, Body(codec), maxPayload);
            r == if IsControl(m.kind) && m.payload != [] then Err(InvalidFrame) else Ok(m)
  {
    ValidPrefixFits(m.kind, m.name, m.invocationID);
    DecodeOfEncoding(codec, maxPayload, m);
    HeaderForFits(codec, m);
    ChecksAgree(codec, NormalizeMaxPayloadSize(maxPayload), m);
  }

  /** What an accepted frame consists of. */
  lemma DecodedFields(frame: seq<byte>, codec: Serialization, maxPayload: int)
    requires Decode(frame, Body(codec), maxPayload).Ok?
    ensures var m := Decode(frame, Body(codec), maxPayload).value;
            && |m.name| <= 255 && |m.invocationID| <= 255 && |m.payload| <= MAX_UINT32
            && Valid(m.name) && Valid(m.invocationID)
            && HeaderFor(codec, m) == ParseHeader(frame)
            && frame == frame[..HEADER_SIZE] + m.name + m.invocationID + m.payload
            && CheckHeader(ParseHeader(frame), codec, NormalizeMaxPayloadSize(maxPayload), |frame|).Pass?
  {
    var h := ParseHeader(frame);
    CutInFour(frame, HEADER_SIZE + h.methodLen, HEADER_SIZE + h.methodLen + h.idLen);
  }

  lemma CutInFour(f: seq<byte>, i: nat, j: nat)
    requires HEADER_SIZE <= i <= j <= |f|
    ensures f == f[..HEADER_SIZE] + f[HEADER_SIZE..i] + f[i..j] + f[j..]
  {
  }

  /** Re-encoding an accepted frame gives back the identical bytes, and the sender would emit it. */
  lemma DecodeThenEmit(frame: seq<byte>, codec: Serialization, maxPayload: int)
    requires Decode(frame, Body(codec), maxPayload).Ok?
    ensures var m := Decode(frame, Body(codec), maxPayload).value;
            && Emit(codec, NormalizeMaxPayloadSize(maxPayload), m) == Ok(frame)
            && (IsControl(m.kind) ==> m.payload == [])
  {
    var m := Decode(frame, Body(codec), maxPayload).value;
    DecodedFields(frame, codec, maxPayload);
    ParseThenHeader(frame);
    ChecksAgree(codec, NormalizeMaxPayloadSize(maxPayload), m);
  }

  /** The receiver accepts exactly the frames the sender emits for messages whose control kinds are empty. */
  lemma AcceptanceIsEmission(frame: seq<byte>, codec: Serialization, maxPayload: int)
    ensures Decode(frame, Body(codec), maxPayload).Ok? <==>
            exists m :: Emit(codec, NormalizeMaxPayloadSize(maxPayload), m) == Ok(frame)
                        && (IsControl(m.kind) ==> m.payload == [])
  {
    if Decode(frame, Body(codec), maxPayload).Ok? {
      DecodeThenEmit(frame, codec, maxPayload);
    }
    if m :|
      && Emit(codec, NormalizeMaxPayloadSize(maxPayload), m) == Ok(frame)
      && (IsControl(m.kind) ==> m.payload == [])
    {
      EmitThenDecode(codec, maxPayload, m);
    }
  }

  /** Every emitted frame fits the read limit that a handler sets by default. */
  lemma EmittedFitsReadLimit(codec: Serialization, maxPayload: int, m: Message)
    requires Emit(codec, NormalizeMaxPayloadSize(maxPayload), m).Ok?
    ensures |Emit(codec, NormalizeMaxPayloadSize(maxPayload), m).value|
            <= HEADER_SIZE + MAX_METHOD_NAME_LEN + MAX_INVOCATION_ID_LEN + NormalizeMaxPayloadSize(maxPayload)
  {
    ValidPrefixFits(m.kind, m.name, m.invocationID);
  }

  /** The invocation id of an accepted Invoke always passes the sender's check of either reply kind. */
  lemma DecodedIdPassesReplyCheck(frame: seq<byte>, codec: Codec, maxPayload: int)
    requires Decode(frame, codec, maxPayload).Ok?
    requires Decode(frame, codec, maxPayload).value.kind == KIND_INVOKE
    ensures var id := Decode(frame, codec, maxPayload).value.invocationID;
            && ValidateProtocolFrame(KIND_COMPLETION, [], id).Pass?
            && ValidateProtocolFrame(KIND_ERROR, [], id).Pass?
  {
    var id := Decode(frame, codec, maxPayload).value.invocationID;
    assert 0 < |id| <= 255;
  }

  // ---- the wire format in plain numbers -----------------------------------------------

  /** Control frames have no method; Message and Invoke need one; it is at most 255 bytes of UTF-8. */
  predicate NameAllowed(kind: FrameKind, name: seq<byte>)
  {
    && (kind == 4 || kind == 5 ==> name == [])
    && (kind == 0 || kind == 1 ==> 1 <= |name|)
    && |name| <= 255 && Valid(name)
  }

  /** Control frames have no id; Invoke, Completion and Error need one; it is at most 255 bytes of UTF-8. */
  predicate IdAllowed(kind: FrameKind, id: seq<byte>)
  {
    && (kind == 4 || kind == 5 ==> id == [])
    && (kind == 1 || kind == 2 || kind == 3 ==> 1 <= |id|)
    && |id| <= 255 && Valid(id)
  }

  /** Exactly these messages are sent, and the first thing wrong with another is the reason it is refused. */
  lemma EmitsExactly(codec: Serialization, maxPayloadSize: int, m: Message)
    ensures Emit(codec, maxPayloadSize, m).Ok? <==>
              && m.kind <= 5 && NameAllowed(m.kind, m.name) && IdAllowed(m.kind, m.invocationID)
              && |m.payload| <= maxPayloadSize && |m.payload| <= 0xFFFF_FFFF
    ensures Emit(codec, maxPayloadSize, m).Err? ==>
              Emit(codec, maxPayloadSize, m).error ==
              if m.kind > 5 then InvalidFrameKind
              else if !NameAllowed(m.kind, m.name) then InvalidMethodName
              else if !IdAllowed(m.kind, m.invocationID) then InvalidInvocationID
              else PayloadTooLarge
  {
    assert Valid([]);
  }

  function Length32(f: seq<byte>): nat
    requires |f| >= 8
  {
    f[4] as nat * 0x100_0000 + f[5] as nat * 0x1_0000 + f[6] as nat * 0x100 + f[7] as nat
  }

  /** Every byte of an emitted frame: magic and version, codec and kind, three lengths, method, id, body. */
  lemma EmittedBytes(codec: Serialization, maxPayloadSize: int, m: Message)
    requires Emit(codec, maxPayloadSize, m).Ok?
    ensures var f := Emit(codec, maxPayloadSize, m).value;
            var n, i := |m.name|, |m.invocationID|;
            && |f| == 8 + n + i + |m.payload|
            && f[0] == 0x51 && f[1] == codec * 16 + m.kind && f[2] == n && f[3] == i
            && Length32(f) == |m.payload|
            && f[8..8 + n] == m.name && f[8 + n..8 + n + i] == m.invocationID && f[8 + n + i..] == m.payload
  {
    ValidPrefixFits(m.kind, m.name, m.invocationID);
    HeaderForFits(codec, m);
    EncodeLayout(codec, m);
    var f := Encode(codec, m);
    assert f[1] == HeaderBytes(HeaderFor(codec, m))[1];
    HeaderThenParse(HeaderFor(codec, m), m.name + m.invocationID + m.payload);
    assert FromBigEndian(f[4..8]) == Length32(f);
  }

  /** The frame's kind nibble and its fields where the three lengths put them. */
  function FieldsOf(f: seq<byte>): Message
    requires |f| >= 8 && |f| >= 8 + f[2] as nat + f[3] as nat
  {
    var nameEnd := 8 + f[2] as nat;
    var idEnd := nameEnd + f[3] as nat;
    Message(f[1] % 16, f[8..nameEnd], f[nameEnd..idEnd], f[idEnd..])
  }

  /** The receiver's header checks, all passed. */
  lemma HeaderAllowed(h: FrameHeader, codec: Serialization, maxPayloadSize: int, frameLen: nat)
    ensures CheckHeader(h, codec, maxPayloadSize, frameLen).Pass? <==>
              && h.codec == codec && h.kind <= 5
              && (h.kind >= 4 ==> h.methodLen == 0 && h.idLen == 0 && h.bodyLen == 0)
              && (h.kind <= 1 ==> h.methodLen >= 1)
              && (1 <= h.kind <= 3 ==> h.idLen >= 1)
              && h.bodyLen <= maxPayloadSize
              && frameLen == 8 + h.methodLen + h.idLen + h.bodyLen
  {
  }

  lemma MagicByte(b: byte)
    ensures b / 16 == PROTOCOL_MAGIC && b % 16 == PROTOCOL_VERSION <==> b == 0x51
  {
  }

  /** Behind a header that passed, only the two texts can still be wrong. */
  lemma DecodeBehindHeader(f: seq<byte>, codec: Serialization, maxPayload: int)
    requires |f| >= 8 && f[0] == 0x51
    ensures var check := CheckHeader(ParseHeader(f), codec, NormalizeMaxPayloadSize(maxPayload), |f|);
            && (check.Pass? ==> |f| == 8 + f[2] as nat + f[3] as nat + ParseHeader(f).bodyLen)
            && (Decode(f, Body(codec), maxPayload).Ok? <==>
                  check.Pass? && Valid(FieldsOf(f).name) && Valid(FieldsOf(f).invocationID))
            && (Decode(f, Body(codec), maxPayload).Ok? ==> Decode(f, Body(codec), maxPayload).value == FieldsOf(f))
  {
    MagicByte(f[0]);
    var h := ParseHeader(f);
    assert h.methodLen == f[2] && h.idLen == f[3];
    if CheckHeader(h, codec, NormalizeMaxPayloadSize(maxPayload), |f|).Pass? {
      var nameEnd := HEADER_SIZE + h.methodLen;
      var idEnd := nameEnd + h.idLen;
      assert FieldsOf(f) == Message(h.kind, f[HEADER_SIZE..nameEnd], f[nameEnd..idEnd], f[idEnd..]);
    }
  }

  /** Exactly these frames are accepted, as the message that their bytes spell. */
  lemma DecodesExactly(f: seq<byte>, codec: Serialization, maxPayload: int)
    ensures Decode(f, Body(codec), maxPayload).Ok? <==>
              && |f| >= 8 && |f| == 8 + f[2] as nat + f[3] as nat + Length32(f)
              && f[0] == 0x51 && f[1] / 16 == codec
              && f[1] % 16 <= 5
              && NameAllowed(f[1] % 16, FieldsOf(f).name) && IdAllowed(f[1] % 16, FieldsOf(f).invocationID)
              && (f[1] % 16 >= 4 ==> Length32(f) == 0)
              && Length32(f) <= if maxPayload <= 0 then 0x10_0000 else maxPayload
    ensures Decode(f, Body(codec), maxPayload).Ok? ==> Decode(f, Body(codec), maxPayload).value == FieldsOf(f)
  {
    if |f| >= 8 {
      MagicByte(f[0]);
      if f[0] == 0x51 {
        assert FromBigEndian(f[4..8]) == Length32(f);
        DecodeBehindHeader(f, codec, maxPayload);
        HeaderAllowed(ParseHeader(f), codec, NormalizeMaxPayloadSize(maxPayload), |f|);
      }
    }
  }

  /** The first thing wrong with a refused frame, in the order it is looked for. */
  lemma RefusalOrder(f: seq<byte>, codec: Codec, maxPayload: int)
    requires Decode(f, codec, maxPayload).Err?
    ensures Decode(f, codec, maxPayload).error ==
            if |f| < 8 || f[0] != 0x51 then InvalidFrame
            else if codec.NoCodec? then UnsupportedCodec
            else
              var kind, n, i, b := f[1] % 16, f[2], f[3], Length32(f);
              if f[1] / 16 != codec.serialization then UnexpectedCodec
              else if kind > 5 then InvalidFrameKind
              else if kind >= 4 && n > 0 then InvalidMethodName
              else if kind >= 4 && i > 0 then InvalidInvocationID
              else if kind >= 4 && b > 0 then InvalidFrame
              else if kind <= 1 && n == 0 then InvalidMethodName
              else if 1 <= kind <= 3 && i == 0 then InvalidInvocationID
              else if b > (if maxPayload <= 0 then 0x10_0000 else maxPayload) then PayloadTooLarge
              else if |f| != 8 + n + i + b then InvalidFrame
              else if !Valid(f[8..8 + n]) then InvalidMethodName
              else InvalidInvocationID
  {
    if |f| >= 8 {
      assert FromBigEndian(f[4..8]) == Length32(f);
    }
  }

  // ---- the in-place code --------------------------------------------------------------

  /** `encodeFrameHeader`: overwrites the first eight bytes of the buffer and nothing else. */
  method EncodeFrameHeader(dst: array<byte>, h: FrameHeader)
    requires dst.Length >= HEADER_SIZE && h.bodyLen <= MAX_UINT32
    modifies dst
    ensures dst[..] == HeaderBytes(h) + old(dst[HEADER_SIZE..])
  {
    dst[0] := PROTOCOL_MAGIC * 16 + PROTOCOL_VERSION % 16;
    dst[1] := h.codec % 16 * 16 + h.kind % 16;
    dst[2] := h.methodLen;
    dst[3] := h.idLen;
    dst[4] := h.bodyLen / 0x100_0000;
    dst[5] := h.bodyLen / 0x1_0000 % 0x100;
    dst[6] := h.bodyLen / 0x100 % 0x100;
    dst[7] := h.bodyLen % 0x100;
    assert dst[HEADER_SIZE..] == old(dst[HEADER_SIZE..]);
    assert dst[..] == dst[..HEADER_SIZE] + dst[HEADER_SIZE..];
    assert dst[..HEADER_SIZE] == HeaderBytes(h);
  }

  /** Copies `src` into `dst` at `at`, as `append` within capacity does. */
  method CopyInto(dst: array<byte>, at: nat, src: seq<byte>)
    requires at + |src| <= dst.Length
    modifies dst
    ensures dst[..] == old(dst[..at]) + src + old(dst[at + |src|..])
  {
    for i := 0 to |src|
      invariant forall k :: 0 <= k < at || at + i <= k < dst.Length ==> dst[k] == old(dst[k])
      invariant forall k :: at <= k < at + i ==> dst[k] == src[k - at]
    {
      dst[at + i] := src[i];
    }
  }

  /** Appends the three variable fields behind a reserved header. */
  method FillFrame(m: Message) returns (frame: array<byte>)
    ensures fresh(frame) && frame.Length >= HEADER_SIZE
    ensures frame[HEADER_SIZE..] == m.name + m.invocationID + m.payload
  {
    var nameEnd := HEADER_SIZE + |m.name|;
    var idEnd := nameEnd + |m.invocationID|;
    frame := new byte[idEnd + |m.payload|](_ => 0);
    ghost var header := frame[..HEADER_SIZE];
    CopyInto(frame, HEADER_SIZE, m.name);
    assert frame[..nameEnd] == header + m.name;
    CopyInto(frame, nameEnd, m.invocationID);
    assert frame[..idEnd] == header + m.name + m.invocationID;
    CopyInto(frame, idEnd, m.payload);
    assert frame[..] == header + m.name + m.invocationID + m.payload;
    SplitFour(header, m.name, m.invocationID, m.payload);
    assert frame[HEADER_SIZE..] == frame[..][HEADER_SIZE..];
  }

  /** Lays out the frame of a message that passed both checks, and fills its header in last. */
  method SealFrame(codec: Serialization, m: Message) returns (frame: array<byte>)
    requires |m.name| <= 255 && |m.invocationID| <= 255 && |m.payload| <= MAX_UINT32
    ensures fresh(frame) && frame[..] == Encode(codec, m)
  {
    frame := FillFrame(m);
    HeaderForFits(codec, m);
    EncodeFrameHeader(frame, HeaderFor(codec, m));
    EncodeLayout(codec, m);
  }

  /** `writeRawProtocolFrame` up to the queue. */
  method BuildRawFrame(codec: Serialization, maxPayloadSize: int, m: Message) returns (check: Check, frame: array<byte>)
    ensures fresh(frame)
    ensures Emit(codec, maxPayloadSize, m) == if check.Pass? then Ok(frame[..]) else Err(check.error)
  {
    frame := new byte[0];
    check := ValidateProtocolFrame(m.kind, m.name, m.invocationID);
    if check.Fail? { return; }
    check := EnsurePayloadSize(|m.payload|, maxPayloadSize);
    if check.Fail? { return; }
    ValidPrefixFits(m.kind, m.name, m.invocationID);
    frame := SealFrame(codec, m);
  }

  /** Reads the header fields out of the buffer; the body length is big-endian. */
  method ReadHeader(frame: array<byte>) returns (h: FrameHeader)
    requires frame.Length >= HEADER_SIZE
    ensures h == ParseHeader(frame[..])
  {
    var high := frame[4] as int * 0x100_0000 + frame[5] as int * 0x1_0000;
    var bodyLen := high + frame[6] as int * 0x100 + frame[7] as int;
    h := FrameHeader(frame[1] / 16, frame[1] % 16, frame[2], frame[3], bodyLen);
  }

  /** The header checks of `decodeFrame`, nested as there; `CheckHeader` is the flat list. */
  method CheckFrameHeader(h: FrameHeader, codec: Serialization, maxPayloadSize: int, frameLen: nat)
    returns (check: Check)
    ensures check == CheckHeader(h, codec, maxPayloadSize, frameLen)
  {
    if h.codec != codec { return Fail(UnexpectedCodec); }
    check := ValidateFrameKind(h.kind);
    if check.Fail? { return; }
    if IsControl(h.kind) {
      if h.methodLen != 0 { return Fail(InvalidMethodName); }
      if h.idLen != 0 { return Fail(InvalidInvocationID); }
      if h.bodyLen != 0 { return Fail(InvalidFrame); }
    } else if (h.kind == KIND_MESSAGE || h.kind == KIND_INVOKE) && h.methodLen == 0 {
      return Fail(InvalidMethodName);
    }
    if !IsControl(h.kind) && h.kind != KIND_MESSAGE && h.idLen == 0 { return Fail(InvalidInvocationID); }
    if h.bodyLen > maxPayloadSize { return Fail(PayloadTooLarge); }
    var wantLen := HEADER_SIZE + h.methodLen + h.idLen + h.bodyLen;
    return if frameLen != wantLen then Fail(InvalidFrame) else Pass;
  }

  /** The rest of `decodeFrame` behind a header that passed. */
  method CopyFields(frame: array<byte>, h: FrameHeader, codec: Codec, maxPayload: int)
    returns (r: Result<Message>, payload: array<byte>)
    requires frame.Length >= HEADER_SIZE && h == ParseHeader(frame[..]) && codec.Body?
    requires frame[0] / 16 == PROTOCOL_MAGIC && frame[0] % 16 == PROTOCOL_VERSION
    requires CheckHeader(h, codec.serialization, NormalizeMaxPayloadSize(maxPayload), frame.Length).Pass?
    ensures r == Decode(frame[..], codec, maxPayload)
    ensures fresh(payload) && payload[..] == if r.Ok? then r.value.payload else []
  {
    payload := new byte[0];
    var nameEnd := HEADER_SIZE + h.methodLen;
    var idEnd := nameEnd + h.idLen;
    var name, id := frame[HEADER_SIZE..nameEnd], frame[nameEnd..idEnd];
    assert name == frame[..][HEADER_SIZE..nameEnd] && id == frame[..][nameEnd..idEnd];
    if !Valid(name) { return Err(InvalidMethodName), payload; }
    if !Valid(id) { return Err(InvalidInvocationID), payload; }
    payload := new byte[h.bodyLen](_ => 0);
    CopyInto(payload, 0, frame[idEnd..]);
    assert payload[..] == frame[..][idEnd..];
    r := Ok(Message(h.kind, name, id, payload[..]));
  }

  /** `decodeFrame`: the payload is a new array, so the pooled read buffer may be reused afterwards. */
  method DecodeFrame(frame: array<byte>, codec: Codec, maxPayload: int)
    returns (r: Result<Message>, payload: array<byte>)
    ensures r == Decode(frame[..], codec, maxPayload)
    ensures fresh(payload) && payload[..] == if r.Ok? then r.value.payload else []
  {
    payload := new byte[0];
    if frame.Length < HEADER_SIZE { return Err(InvalidFrame), payload; }
    var magic, version := frame[0] / 16, frame[0] % 16;
    if magic != PROTOCOL_MAGIC { return Err(InvalidFrame), payload; }
    if version != PROTOCOL_VERSION { return Err(InvalidFrame), payload; }
    if codec.NoCodec? { return Err(UnsupportedCodec), payload; }
    var h := ReadHeader(frame);
    var check := CheckFrameHeader(h, codec.serialization, NormalizeMaxPayloadSize(maxPayload), frame.Length);
    if check.Fail? { return Err(check.error), payload; }
    r, payload := CopyFields(frame, h, codec, maxPayload);
  }
}
