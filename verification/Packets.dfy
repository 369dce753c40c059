/**
 The UDP packet formats: voice, video fragments and screen-share audio.
 Decoders reject exactly what the receivers reject; each format is a two-sided inverse.
 */
module Packets {
  import opened Wrappers
  import opened Bytes

  datatype ProtocolError =
    | PacketTooShort(expected: nat, got: nat)
    | UnknownPacketType(code: byte)
    | InvalidFragmentIndex(index: byte, count: byte)

  const VOICE_HEADER_SIZE := 17
  const ENCRYPTED_VOICE_HEADER_SIZE := 19
  const VIDEO_HEADER_SIZE := 23
  const ENCRYPTED_VIDEO_HEADER_SIZE := 25
  const SCREEN_AUDIO_HEADER_SIZE := 21
  const ENCRYPTED_SCREEN_AUDIO_HEADER_SIZE := 23

  const MAX_VIDEO_PACKET_SIZE := 1280
  const MAX_VIDEO_PAYLOAD_SIZE := MAX_VIDEO_PACKET_SIZE - VIDEO_HEADER_SIZE
  const GCM_TAG_SIZE := 16
  const MAX_ENCRYPTED_VIDEO_PAYLOAD_SIZE := MAX_VIDEO_PACKET_SIZE - ENCRYPTED_VIDEO_HEADER_SIZE - GCM_TAG_SIZE

  /** The fields every packet starts with, in their wire order. */
  function CommonHeader(code: byte, sessionId: u32, token: u64, number: u32): (s: seq<byte>) {
    [code] + BeBytes(sessionId, 4) + BeBytes(token, 8) + BeBytes(number, 4)
  }

  /** What the server reads of any packet before forwarding it: session id and token. */
  function ServerPeek(data: seq<byte>): (u32, u64)
    requires |data| >= VOICE_HEADER_SIZE
  {
    Spans();
    (BeValue(data[1..5]), BeValue(data[5..13]))
  }

  lemma ServerPeekIs(data: seq<byte>)
    requires |data| >= 17
    ensures ServerPeek(data) == (Word32(data, 1), Word64(data, 5))
  {
    hide BeValue, Word32, Word64;
    Spans();
    Words(data, 1);
    Words(data, 5);
  }

  lemma Cut(d: seq<byte>, i: nat, j: nat)
    requires i <= j <= |d|
    ensures d[i..] == d[i..j] + d[j..]
  {
  }

  lemma CommonHeaderFields(code: byte, sessionId: u32, token: u64, number: u32, tail: seq<byte>)
    ensures var d := CommonHeader(code, sessionId, token, number) + tail;
            && |d| == 17 + |tail|
            && d[0] == code
            && BeValue(d[1..5]) == sessionId
            && BeValue(d[5..13]) == token
            && BeValue(d[13..17]) == number
            && d[17..] == tail
  {
    hide BeBytes, BeValue, Span;
    var d := CommonHeader(code, sessionId, token, number) + tail;
    Spans();
    ValueOfBytes(sessionId, 4);
    ValueOfBytes(token, 8);
    ValueOfBytes(number, 4);
    assert d[1..5] == BeBytes(sessionId, 4);
    assert d[5..13] == BeBytes(token, 8);
    assert d[13..17] == BeBytes(number, 4);
  }

  lemma CommonHeaderRestores(d: seq<byte>)
    requires |d| >= 17
    ensures BeValue(d[1..5]) < U32 && BeValue(d[5..13]) < U64 && BeValue(d[13..17]) < U32
    ensures CommonHeader(d[0], BeValue(d[1..5]), BeValue(d[5..13]), BeValue(d[13..17])) + d[17..] == d
  {
    hide BeBytes, BeValue, Span;
    Spans();
    BytesOfValue(d[1..5]);
    BytesOfValue(d[5..13]);
    BytesOfValue(d[13..17]);
    assert d[..17] == [d[0]] + d[1..5] + d[5..13] + d[13..17];
  }

  /** The end of every packet: a key id if the payload is sealed, then the payload. */
  function KeyAndPayload(encrypted: bool, keyId: u16, payload: seq<byte>): (s: seq<byte>)
    ensures |s| == (if encrypted then 2 else 0) + |payload|
  {
    if encrypted then BeBytes(keyId, 2) + payload else payload
  }

  lemma KeyAndPayloadFields(encrypted: bool, keyId: u16, payload: seq<byte>)
    ensures var s := KeyAndPayload(encrypted, keyId, payload);
            if encrypted then BeValue(s[..2]) == keyId && s[2..] == payload else s == payload
  {
    hide BeBytes, BeValue, Span;
    Spans();
    ValueOfBytes(keyId, 2);
    if encrypted {
      assert KeyAndPayload(encrypted, keyId, payload)[..2] == BeBytes(keyId, 2);
    }
  }

  lemma KeyAndPayloadRestores(s: seq<byte>)
    requires |s| >= 2
    ensures BeValue(s[..2]) < U16 && KeyAndPayload(true, BeValue(s[..2]), s[2..]) == s
  {
    hide BeBytes, BeValue, Span;
    Spans();
    BytesOfValue(s[..2]);
  }

  // ---------------------------------------------------------------- voice

  datatype VoiceType = OpusVoice | EndOfTransmission | Ping | Pong | EncryptedOpusVoice

  function VoiceTypeByte(t: VoiceType): byte {
    match t
    case OpusVoice => 1
    case EndOfTransmission => 2
    case Ping => 3
    case Pong => 4
    case EncryptedOpusVoice => 5
  }

  function VoiceTypeFromByte(b: byte): Result<VoiceType, ProtocolError> {
    match b
    case 1 => Ok(OpusVoice)
    case 2 => Ok(EndOfTransmission)
    case 3 => Ok(Ping)
    case 4 => Ok(Pong)
    case 5 => Ok(EncryptedOpusVoice)
    case _ => Err(UnknownPacketType(b))
  }

  datatype VoicePacket = VoicePacket(
    packetType: VoiceType, sessionId: u32, token: u64, sequence: u32, opusData: seq<byte>, keyId: u16)

  function VoiceEncode(p: VoicePacket): (s: seq<byte>) {
    CommonHeader(VoiceTypeByte(p.packetType), p.sessionId, p.token, p.sequence)
    + KeyAndPayload(p.packetType.EncryptedOpusVoice?, p.keyId, p.opusData)
  }

  method VoiceToBytes(p: VoicePacket) returns (buf: seq<byte>)
    ensures buf == VoiceEncode(p)
  {
    buf := [VoiceTypeByte(p.packetType)];
    buf := buf + BeBytes(p.sessionId, 4);
    buf := buf + BeBytes(p.token, 8);
    buf := buf + BeBytes(p.sequence, 4);
    if p.packetType.EncryptedOpusVoice? {
      buf := buf + BeBytes(p.keyId, 2);
    }
    buf := buf + p.opusData;
  }

  function VoiceDecode(data: seq<byte>): (r: Result<VoicePacket, ProtocolError>) {
    if |data| < VOICE_HEADER_SIZE then Err(PacketTooShort(VOICE_HEADER_SIZE, |data|)) else
    Spans();
    match VoiceTypeFromByte(data[0])
    case Err(e) => Err(e)
    case Ok(t) =>
      var sessionId := BeValue(data[1..5]);
      var token := BeValue(data[5..13]);
      var sequence := BeValue(data[13..17]);
      if t.EncryptedOpusVoice? then
        if |data| < ENCRYPTED_VOICE_HEADER_SIZE
        then Err(PacketTooShort(ENCRYPTED_VOICE_HEADER_SIZE, |data|))
        else Ok(VoicePacket(t, sessionId, token, sequence, data[19..], BeValue(data[17..19])))
      else Ok(VoicePacket(t, sessionId, token, sequence, data[17..], 0))
  }

  lemma VoiceFields(p: VoicePacket)
    ensures var d := VoiceEncode(p);
            && |d| == (if p.packetType.EncryptedOpusVoice? then 19 else 17) + |p.opusData|
            && d[0] == VoiceTypeByte(p.packetType)
            && BeValue(d[1..5]) == p.sessionId
            && BeValue(d[5..13]) == p.token
            && BeValue(d[13..17]) == p.sequence
            && (p.packetType.EncryptedOpusVoice? ==> BeValue(d[17..19]) == p.keyId && d[19..] == p.opusData)
            && (!p.packetType.EncryptedOpusVoice? ==> d[17..] == p.opusData)
  {
    hide BeBytes, BeValue, Span, CommonHeader, VoiceTypeByte, KeyAndPayload;
    var sealed := p.packetType.EncryptedOpusVoice?;
    var tail := KeyAndPayload(sealed, p.keyId, p.opusData);
    CommonHeaderFields(VoiceTypeByte(p.packetType), p.sessionId, p.token, p.sequence, tail);
    KeyAndPayloadFields(sealed, p.keyId, p.opusData);
    var d := VoiceEncode(p);
    if sealed {
      assert d[17..19] == d[17..][..2] && d[19..] == d[17..][2..];
    }
  }

  /** Every field of a voice packet on the wire, and the type codes, written out. */
  lemma VoiceLayout(p: VoicePacket)
    ensures var d := VoiceEncode(p);
            && |d| == (if p.packetType.EncryptedOpusVoice? then 19 else 17) + |p.opusData|
            && (d[0] as int == match p.packetType
                  case OpusVoice => 0x01 case EndOfTransmission => 0x02 case Ping => 0x03 case Pong => 0x04
                  case EncryptedOpusVoice => 0x05)
            && Word32(d, 1) == p.sessionId && Word64(d, 5) == p.token && Word32(d, 13) == p.sequence
            && (p.packetType.EncryptedOpusVoice? ==> Word16(d, 17) == p.keyId && d[19..] == p.opusData)
            && (!p.packetType.EncryptedOpusVoice? ==> d[17..] == p.opusData)
  {
    hide BeBytes, BeValue, VoiceEncode, Word16, Word32, Word64;
    var d := VoiceEncode(p);
    VoiceFields(p);
    Words(d, 1);
    Words(d, 5);
    Words(d, 13);
    Words(d, 17);
  }

  /** A voice packet survives the wire exactly when only encrypted packets carry a key id. */
  lemma VoiceRoundTrip(p: VoicePacket)
    ensures VoiceDecode(VoiceEncode(p)) == Ok(p) <==> (p.packetType.EncryptedOpusVoice? || p.keyId == 0)
    ensures ServerPeek(VoiceEncode(p)) == (p.sessionId, p.token)
  {
    hide BeBytes, BeValue, Span, VoiceEncode;
    VoiceFields(p);
  }

  /** Every accepted datagram is the encoding of what it was decoded to. */
  lemma VoiceRoundTripBytes(d: seq<byte>)
    requires VoiceDecode(d).Ok?
    ensures VoiceEncode(VoiceDecode(d).value) == d
    ensures ServerPeek(d) == (VoiceDecode(d).value.sessionId, VoiceDecode(d).value.token)
  {
    hide BeBytes, BeValue, Span, CommonHeader, KeyAndPayload;
    CommonHeaderRestores(d);
    if VoiceDecode(d).value.packetType.EncryptedOpusVoice? {
      KeyAndPayloadRestores(d[17..]);
      assert d[17..19] == d[17..][..2] && d[19..] == d[17..][2..];
    } else {
      KeyAndPayloadFields(false, 0, d[17..]);
    }
  }

  // ---------------------------------------------------------------- video

  datatype VideoType =
    | VideoFragment | VideoKeyframeFragment | ScreenShareAudio
    | EncryptedVideoFragment | EncryptedVideoKeyframeFragment | EncryptedScreenShareAudio
  {
    predicate IsKeyframe() {
      VideoKeyframeFragment? || EncryptedVideoKeyframeFragment?
    }

    predicate IsEncrypted() {
      EncryptedVideoFragment? || EncryptedVideoKeyframeFragment? || EncryptedScreenShareAudio?
    }

    function ToEncrypted(): (t: VideoType)
      ensures t.IsEncrypted() && t.IsKeyframe() == IsKeyframe()
      ensures IsEncrypted() ==> t == this
    {
      match this
      case VideoFragment => EncryptedVideoFragment
      case VideoKeyframeFragment => EncryptedVideoKeyframeFragment
      case ScreenShareAudio => EncryptedScreenShareAudio
      case other => other
    }
  }

  function VideoTypeByte(t: VideoType): byte {
    match t
    case VideoFragment => 0x10
    case VideoKeyframeFragment => 0x11
    case ScreenShareAudio => 0x12
    case EncryptedVideoFragment => 0x13
    case EncryptedVideoKeyframeFragment => 0x14
    case EncryptedScreenShareAudio => 0x15
  }

  function VideoTypeFromByte(b: byte): Result<VideoType, ProtocolError> {
    match b
    case 0x10 => Ok(VideoFragment)
    case 0x11 => Ok(VideoKeyframeFragment)
    case 0x12 => Ok(ScreenShareAudio)
    case 0x13 => Ok(EncryptedVideoFragment)
    case 0x14 => Ok(EncryptedVideoKeyframeFragment)
    case 0x15 => Ok(EncryptedScreenShareAudio)
    case _ => Err(UnknownPacketType(b))
  }

  datatype VideoPacket = VideoPacket(
    packetType: VideoType, sessionId: u32, token: u64, frameId: u32,
    fragmentIndex: byte, fragmentCount: byte, timestamp: u32, payload: seq<byte>, keyId: u16)

  function VideoEncode(p: VideoPacket): (s: seq<byte>) {
    CommonHeader(VideoTypeByte(p.packetType), p.sessionId, p.token, p.frameId)
    + ([p.fragmentIndex, p.fragmentCount]
       + (BeBytes(p.timestamp, 4) + KeyAndPayload(p.packetType.IsEncrypted(), p.keyId, p.payload)))
  }

  method VideoToBytes(p: VideoPacket) returns (buf: seq<byte>)
    ensures buf == VideoEncode(p)
  {
    buf := [VideoTypeByte(p.packetType)];
    buf := buf + BeBytes(p.sessionId, 4);
    buf := buf + BeBytes(p.token, 8);
    buf := buf + BeBytes(p.frameId, 4);
    buf := buf + [p.fragmentIndex];
    buf := buf + [p.fragmentCount];
    buf := buf + BeBytes(p.timestamp, 4);
    if p.packetType.IsEncrypted() {
      buf := buf + BeBytes(p.keyId, 2);
    }
    buf := buf + p.payload;
  }

  function VideoDecode(data: seq<byte>): (r: Result<VideoPacket, ProtocolError>) {
    if |data| < VIDEO_HEADER_SIZE then Err(PacketTooShort(VIDEO_HEADER_SIZE, |data|)) else
    Spans();
    match VideoTypeFromByte(data[0])
    case Err(e) => Err(e)
    case Ok(t) =>
      var sessionId := BeValue(data[1..5]);
      var token := BeValue(data[5..13]);
      var frameId := BeValue(data[13..17]);
      var index := data[17];
      var count := data[18];
      var timestamp := BeValue(data[19..23]);
      if count > 0 && index >= count then Err(InvalidFragmentIndex(index, count))
      else if t.IsEncrypted() then
        if |data| < ENCRYPTED_VIDEO_HEADER_SIZE
        then Err(PacketTooShort(ENCRYPTED_VIDEO_HEADER_SIZE, |data|))
        else Ok(VideoPacket(t, sessionId, token, frameId, index, count, timestamp, data[25..], BeValue(data[23..25])))
      else Ok(VideoPacket(t, sessionId, token, frameId, index, count, timestamp, data[23..], 0))
  }

  predicate VideoWellFormed(p: VideoPacket) {
    && (p.packetType.IsEncrypted() || p.keyId == 0)
    && (p.fragmentCount == 0 || p.fragmentIndex < p.fragmentCount)
  }

  lemma VideoFields(p: VideoPacket)
    ensures var d := VideoEncode(p);
            && |d| == (if p.packetType.IsEncrypted() then 25 else 23) + |p.payload|
            && d[0] == VideoTypeByte(p.packetType)
            && BeValue(d[1..5]) == p.sessionId
            && BeValue(d[5..13]) == p.token
            && BeValue(d[13..17]) == p.frameId
            && d[17] == p.fragmentIndex && d[18] == p.fragmentCount
            && BeValue(d[19..23]) == p.timestamp
            && (p.packetType.IsEncrypted() ==> BeValue(d[23..25]) == p.keyId && d[25..] == p.payload)
            && (!p.packetType.IsEncrypted() ==> d[23..] == p.payload)
  {
    hide BeBytes, BeValue, Span, CommonHeader, VideoTypeByte, KeyAndPayload;
    Spans();
    var sealed := p.packetType.IsEncrypted();
    var end := KeyAndPayload(sealed, p.keyId, p.payload);
    var counts, time := [p.fragmentIndex, p.fragmentCount], BeBytes(p.timestamp, 4);
    CommonHeaderFields(VideoTypeByte(p.packetType), p.sessionId, p.token, p.frameId, counts + (time + end));
    ValueOfBytes(p.timestamp, 4);
    KeyAndPayloadFields(sealed, p.keyId, p.payload);
    var d := VideoEncode(p);
    TailFields(d, counts, time, end);
    if sealed {
      assert d[23..25] == d[23..][..2] && d[25..] == d[23..][2..];
    }
  }

  /** Every field of a video packet on the wire, and the type codes, written out. */
  lemma VideoLayout(p: VideoPacket)
    ensures var d := VideoEncode(p);
            && |d| == (if p.packetType.IsEncrypted() then 25 else 23) + |p.payload|
            && (d[0] as int == match p.packetType
                  case VideoFragment => 0x10 case VideoKeyframeFragment => 0x11 case ScreenShareAudio => 0x12
                  case EncryptedVideoFragment => 0x13 case EncryptedVideoKeyframeFragment => 0x14
                  case EncryptedScreenShareAudio => 0x15)
            && Word32(d, 1) == p.sessionId && Word64(d, 5) == p.token && Word32(d, 13) == p.frameId
            && d[17] == p.fragmentIndex && d[18] == p.fragmentCount && Word32(d, 19) == p.timestamp
            && (d[0] >= 0x13 ==> Word16(d, 23) == p.keyId && d[25..] == p.payload)
            && (d[0] < 0x13 ==> d[23..] == p.payload)
  {
    hide BeBytes, BeValue, VideoEncode, Word16, Word32, Word64;
    var d := VideoEncode(p);
    VideoFields(p);
    Words(d, 1);
    Words(d, 5);
    Words(d, 13);
    Words(d, 19);
    Words(d, 23);
  }

  lemma TailFields(d: seq<byte>, counts: seq<byte>, time: seq<byte>, end: seq<byte>)
    requires |d| >= 17 && d[17..] == counts + (time + end)
    requires |counts| == 2 && |time| == 4
    ensures d[17] == counts[0] && d[18] == counts[1] && d[19..23] == time && d[23..] == end
  {
    assert d[17] == d[17..][0] && d[18] == d[17..][1];
    assert d[19..] == d[17..][2..] == time + end;
    assert d[19..23] == d[19..][..4] && d[23..] == d[19..][4..];
  }

  /** A video packet survives the wire exactly when it is well formed. */
  lemma VideoRoundTrip(p: VideoPacket)
    ensures VideoDecode(VideoEncode(p)) == Ok(p) <==> VideoWellFormed(p)
    ensures ServerPeek(VideoEncode(p)) == (p.sessionId, p.token)
  {
    hide BeBytes, BeValue, Span, VideoEncode;
    VideoFields(p);
  }

  /** Every accepted datagram is the encoding of what it was decoded to, which is well formed. */
  lemma VideoRoundTripBytes(d: seq<byte>)
    requires VideoDecode(d).Ok?
    ensures VideoEncode(VideoDecode(d).value) == d
    ensures VideoWellFormed(VideoDecode(d).value)
    ensures ServerPeek(d) == (VideoDecode(d).value.sessionId, VideoDecode(d).value.token)
  {
    hide BeBytes, BeValue, Span, CommonHeader, KeyAndPayload;
    CommonHeaderRestores(d);
    var p := VideoDecode(d).value;
    BytesOfValue(d[19..23]);
    Cut(d, 17, 19);
    Cut(d, 19, 23);
    assert d[17..19] == [d[17], d[18]];
    if p.packetType.IsEncrypted() {
      KeyAndPayloadRestores(d[23..]);
      assert d[23..25] == d[23..][..2] && d[25..] == d[23..][2..];
    } else {
      KeyAndPayloadFields(false, 0, d[23..]);
    }
  }

  // ---------------------------------------------------------------- screen-share audio

  datatype AudioPacket = AudioPacket(
    sessionId: u32, token: u64, sequence: u32, timestamp: u32, opusData: seq<byte>, encrypted: bool, keyId: u16)

  function AudioEncode(p: AudioPacket): (s: seq<byte>) {
    CommonHeader(if p.encrypted then 0x15 else 0x12, p.sessionId, p.token, p.sequence)
    + (BeBytes(p.timestamp, 4) + KeyAndPayload(p.encrypted, p.keyId, p.opusData))
  }

  method AudioToBytes(p: AudioPacket) returns (buf: seq<byte>)
    ensures buf == AudioEncode(p)
  {
    buf := [VideoTypeByte(if p.encrypted then EncryptedScreenShareAudio else ScreenShareAudio)];
    buf := buf + BeBytes(p.sessionId, 4);
    buf := buf + BeBytes(p.token, 8);
    buf := buf + BeBytes(p.sequence, 4);
    buf := buf + BeBytes(p.timestamp, 4);
    if p.encrypted {
      buf := buf + BeBytes(p.keyId, 2);
    }
    buf := buf + p.opusData;
  }

  function AudioDecode(data: seq<byte>): (r: Result<AudioPacket, ProtocolError>) {
    if |data| < SCREEN_AUDIO_HEADER_SIZE then Err(PacketTooShort(SCREEN_AUDIO_HEADER_SIZE, |data|))
    else if data[0] != 0x12 && data[0] != 0x15 then Err(UnknownPacketType(data[0]))
    else
      Spans();
      var sessionId := BeValue(data[1..5]);
      var token := BeValue(data[5..13]);
      var sequence := BeValue(data[13..17]);
      var timestamp := BeValue(data[17..21]);
      if data[0] == 0x15 then
        if |data| < ENCRYPTED_SCREEN_AUDIO_HEADER_SIZE
        then Err(PacketTooShort(ENCRYPTED_SCREEN_AUDIO_HEADER_SIZE, |data|))
        else Ok(AudioPacket(sessionId, token, sequence, timestamp, data[23..], true, BeValue(data[21..23])))
      else Ok(AudioPacket(sessionId, token, sequence, timestamp, data[21..], false, 0))
  }

  lemma AudioFields(p: AudioPacket)
    ensures var d := AudioEncode(p);
            && |d| == (if p.encrypted then 23 else 21) + |p.opusData|
            && d[0] == (if p.encrypted then 0x15 else 0x12)
            && BeValue(d[1..5]) == p.sessionId
            && BeValue(d[5..13]) == p.token
            && BeValue(d[13..17]) == p.sequence
            && BeValue(d[17..21]) == p.timestamp
            && (p.encrypted ==> BeValue(d[21..23]) == p.keyId && d[23..] == p.opusData)
            && (!p.encrypted ==> d[21..] == p.opusData)
  {
    hide BeBytes, BeValue, Span, CommonHeader, KeyAndPayload;
    Spans();
    var time, end := BeBytes(p.timestamp, 4), KeyAndPayload(p.encrypted, p.keyId, p.opusData);
    CommonHeaderFields(if p.encrypted then 0x15 else 0x12, p.sessionId, p.token, p.sequence, time + end);
    ValueOfBytes(p.timestamp, 4);
    KeyAndPayloadFields(p.encrypted, p.keyId, p.opusData);
    var d := AudioEncode(p);
    assert d[17..21] == d[17..][..4] && d[21..] == d[17..][4..];
    if p.encrypted {
      assert d[21..23] == d[21..][..2] && d[23..] == d[21..][2..];
    }
  }

  /** Every field of a screen-audio packet on the wire, written out. */
  lemma AudioLayout(p: AudioPacket)
    ensures var d := AudioEncode(p);
            && |d| == (if p.encrypted then 23 else 21) + |p.opusData|
            && d[0] == (if p.encrypted then 0x15 else 0x12)
            && Word32(d, 1) == p.sessionId && Word64(d, 5) == p.token && Word32(d, 13) == p.sequence
            && Word32(d, 17) == p.timestamp
            && (p.encrypted ==> Word16(d, 21) == p.keyId && d[23..] == p.opusData)
            && (!p.encrypted ==> d[21..] == p.opusData)
  {
    hide BeBytes, BeValue, AudioEncode, Word16, Word32, Word64;
    var d := AudioEncode(p);
    AudioFields(p);
    Words(d, 1);
    Words(d, 5);
    Words(d, 13);
    Words(d, 17);
    Words(d, 21);
  }

  /** An audio packet survives the wire exactly when only encrypted packets carry a key id. */
  lemma AudioRoundTrip(p: AudioPacket)
    ensures AudioDecode(AudioEncode(p)) == Ok(p) <==> (p.encrypted || p.keyId == 0)
    ensures ServerPeek(AudioEncode(p)) == (p.sessionId, p.token)
  {
    hide BeBytes, BeValue, Span, AudioEncode;
    AudioFields(p);
  }

  /** Every accepted datagram is the encoding of what it was decoded to. */
  lemma AudioRoundTripBytes(d: seq<byte>)
    requires AudioDecode(d).Ok?
    ensures AudioEncode(AudioDecode(d).value) == d
    ensures ServerPeek(d) == (AudioDecode(d).value.sessionId, AudioDecode(d).value.token)
  {
    hide BeBytes, BeValue, Span, CommonHeader, KeyAndPayload;
    CommonHeaderRestores(d);
    BytesOfValue(d[17..21]);
    Cut(d, 17, 21);
    if d[0] == 0x15 {
      KeyAndPayloadRestores(d[21..]);
      assert d[21..23] == d[21..][..2] && d[23..] == d[21..][2..];
    } else {
      KeyAndPayloadFields(false, 0, d[21..]);
    }
  }
}
