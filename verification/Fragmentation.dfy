/** Cutting an encoded frame into UDP-sized video packets. */
module Fragmentation {
  import opened Bytes
  import opened Packets

  const MAX_FRAGMENTS_PER_FRAME := 255

  /** An encoded frame together with the header fields its packets share. */
  datatype Frame = Frame(data: seq<byte>, isKeyframe: bool, sessionId: u32, token: u64, frameId: u32, timestamp: u32)

  function Min(a: int, b: int): int {
    if a < b then a else b
  }

  /** Successive pieces of m bytes, the last one possibly shorter (`slice::chunks`). */
  function Chunks(data: seq<byte>, m: nat): (cs: seq<seq<byte>>)
    requires m > 0
    ensures forall i :: 0 <= i < |cs| ==> 0 < |cs[i]| <= m
    ensures data == [] <==> cs == []
  {
    if data == [] then []
    else if |data| <= m then [data]
    else [data[..m]] + Chunks(data[m..], m)
  }

  function Fragment(f: Frame, index: byte, count: byte, payload: seq<byte>): VideoPacket {
    VideoPacket(if f.isKeyframe then VideoKeyframeFragment else VideoFragment,
                f.sessionId, f.token, f.frameId, index, count, f.timestamp, payload, 0)
  }

  function FragmentFrame(f: Frame, maxPayload: nat): (ps: seq<VideoPacket>)
    requires maxPayload > 0
    ensures |ps| == Min(|Chunks(f.data, maxPayload)|, 255)
    ensures forall i :: 0 <= i < |ps| ==>
                          && VideoWellFormed(ps[i])
                          && ps[i].fragmentIndex == i
                          && ps[i].fragmentCount == |ps|
                          && ps[i].frameId == f.frameId
                          && ps[i].packetType.IsKeyframe() == f.isKeyframe
                          && !ps[i].packetType.IsEncrypted()
                          && 0 < |ps[i].payload| <= maxPayload
  {
    var chunks := Chunks(f.data, maxPayload);
    var count := Min(|chunks|, MAX_FRAGMENTS_PER_FRAME);
    seq(count, i requires 0 <= i < count => Fragment(f, i, count, chunks[i]))
  }

  /** The first n chunks, put back together, are a prefix of the data: n full chunks or all of it. */
  lemma {:induction false} ConcatOfChunks(data: seq<byte>, m: nat, n: nat)
    requires m > 0
    requires n <= |Chunks(data, m)|
    ensures Concat(Chunks(data, m)[..n]) == data[..Min(|data|, n * m)]
    ensures n < |Chunks(data, m)| ==> n * m < |data|
    ensures n == |Chunks(data, m)| ==> |data| <= n * m
  {
    var cs := Chunks(data, m);
    if data == [] {
      assert n * m == 0;
    } else if |data| <= m {
      if n == 1 {
        assert cs[..1] == [data];
        assert Concat([data]) == data + Concat([data][1..]);
      }
    } else if n > 0 {
      var rest := Chunks(data[m..], m);
      ConcatOfChunks(data[m..], m, n - 1);
      OneLess(n, m);
      ConcatOfFirst(data[..m], rest, n);
      PrefixSplit(data, m, Min(|data| - m, (n - 1) * m));
    }
  }

  lemma ConcatOfFirst(first: seq<byte>, rest: seq<seq<byte>>, n: nat)
    requires 0 < n <= 1 + |rest|
    ensures Concat(([first] + rest)[..n]) == first + Concat(rest[..n - 1])
  {
    var cs := ([first] + rest)[..n];
    assert cs[0] == first && cs[1..] == rest[..n - 1];
  }

  lemma OneLess(n: nat, m: nat)
    requires n >= 1
    ensures (n - 1) * m == n * m - m && n * m >= m
  {
    MulAtLeast(n, m);
  }

  lemma PrefixSplit(data: seq<byte>, m: nat, k: nat)
    requires m + k <= |data|
    ensures data[..m] + data[m..][..k] == data[..m + k]
  {
  }

  lemma MulAtLeast(n: nat, m: nat)
    requires n >= 1
    ensures n * m >= m
  {
    assert n * m == m + (n - 1) * m;
  }

  /** The payloads of a frame's packets are the frame, cut off after 255 full packets. */
  lemma FragmentsCarryTheFrame(f: Frame, maxPayload: nat)
    requires maxPayload > 0
    ensures var ps := FragmentFrame(f, maxPayload);
            Concat(seq(|ps|, i requires 0 <= i < |ps| => ps[i].payload))
            == f.data[..Min(|f.data|, 255 * maxPayload)]
  {
    var ps := FragmentFrame(f, maxPayload);
    var cs := Chunks(f.data, maxPayload);
    assert seq(|ps|, i requires 0 <= i < |ps| => ps[i].payload) == cs[..|ps|];
    ConcatOfChunks(f.data, maxPayload, |ps|);
    if |ps| < MAX_FRAGMENTS_PER_FRAME {
      assert |ps| * maxPayload <= MAX_FRAGMENTS_PER_FRAME * maxPayload by {
        MulMonotone(|ps|, MAX_FRAGMENTS_PER_FRAME, maxPayload);
      }
    }
  }

  /** The header of fragment i of a frame, as it goes out unsealed. */
  lemma FragmentHeader(f: Frame, maxPayload: nat, i: nat)
    requires maxPayload > 0 && i < |FragmentFrame(f, maxPayload)|
    ensures var n, p := |FragmentFrame(f, maxPayload)|, FragmentFrame(f, maxPayload)[i];
            var d := VideoEncode(p);
            && |d| == 23 + |p.payload| && d[0] == (if f.isKeyframe then 0x11 else 0x10)
            && Word32(d, 1) == f.sessionId && Word64(d, 5) == f.token && Word32(d, 13) == f.frameId
            && d[17] as int == i && d[18] as int == n && Word32(d, 19) == f.timestamp && d[23..] == p.payload
  {
    hide VideoEncode, Word16, Word32, Word64;
    VideoLayout(FragmentFrame(f, maxPayload)[i]);
  }

  lemma MulMonotone(a: nat, b: nat, m: nat)
    requires a <= b
    ensures a * m <= b * m
  {
    assert b * m == a * m + (b - a) * m;
  }

  /** Every packet but the last one carries as much as it may. */
  lemma FullButLast(f: Frame, maxPayload: nat, i: nat)
    requires maxPayload > 0 && i + 1 < |FragmentFrame(f, maxPayload)|
    ensures |FragmentFrame(f, maxPayload)[i].payload| == maxPayload
  {
    ChunksAreFull(f.data, maxPayload, i);
  }

  lemma {:induction false} ChunksAreFull(data: seq<byte>, m: nat, i: nat)
    requires m > 0 && i + 1 < |Chunks(data, m)|
    ensures |Chunks(data, m)[i]| == m
  {
    if i > 0 {
      ChunksAreFull(data[m..], m, i - 1);
    }
  }

  /** A plain packet on the wire fits the 1280-byte limit, and all but the last one of a frame fill it. */
  lemma PlainPacketsFit(f: Frame, i: nat)
    requires i < |FragmentFrame(f, MAX_VIDEO_PAYLOAD_SIZE)|
    ensures var ps := FragmentFrame(f, MAX_VIDEO_PAYLOAD_SIZE);
            |VideoEncode(ps[i])| <= 1280 && (i + 1 < |ps| ==> |VideoEncode(ps[i])| == 1280)
  {
    VideoFields(FragmentFrame(f, MAX_VIDEO_PAYLOAD_SIZE)[i]);
    if i + 1 < |FragmentFrame(f, MAX_VIDEO_PAYLOAD_SIZE)| {
      FullButLast(f, MAX_VIDEO_PAYLOAD_SIZE, i);
    }
  }

  /** The packet that carries p's payload sealed under a media key. */
  function Sealed(p: VideoPacket, keyId: u16, ciphertext: seq<byte>): VideoPacket {
    p.(packetType := p.packetType.ToEncrypted(), keyId := keyId, payload := ciphertext)
  }

  /** And as it goes out sealed: the same header under its own type codes, then the key id and the sealed payload. */
  lemma SealedHeader(f: Frame, maxPayload: nat, i: nat, keyId: u16, ciphertext: seq<byte>)
    requires maxPayload > 0 && i < |FragmentFrame(f, maxPayload)|
    ensures var n, d := |FragmentFrame(f, maxPayload)|, VideoEncode(Sealed(FragmentFrame(f, maxPayload)[i], keyId, ciphertext));
            && |d| == 25 + |ciphertext| && d[0] == (if f.isKeyframe then 0x14 else 0x13)
            && Word32(d, 1) == f.sessionId && Word64(d, 5) == f.token && Word32(d, 13) == f.frameId
            && d[17] as int == i && d[18] as int == n && Word32(d, 19) == f.timestamp
            && Word16(d, 23) == keyId && d[25..] == ciphertext
  {
    hide VideoEncode, Word16, Word32, Word64;
    VideoLayout(Sealed(FragmentFrame(f, maxPayload)[i], keyId, ciphertext));
  }

  /** So does a packet whose payload was sealed, which adds a 16-byte tag and a key id. */
  lemma SealedPacketsFit(f: Frame, i: nat, keyId: u16, ciphertext: seq<byte>)
    requires i < |FragmentFrame(f, MAX_ENCRYPTED_VIDEO_PAYLOAD_SIZE)|
    requires |ciphertext| == |FragmentFrame(f, MAX_ENCRYPTED_VIDEO_PAYLOAD_SIZE)[i].payload| + 16
    ensures var ps := FragmentFrame(f, MAX_ENCRYPTED_VIDEO_PAYLOAD_SIZE);
            var size := |VideoEncode(Sealed(ps[i], keyId, ciphertext))|;
            size <= 1280 && (i + 1 < |ps| ==> size == 1280)
  {
    VideoFields(Sealed(FragmentFrame(f, MAX_ENCRYPTED_VIDEO_PAYLOAD_SIZE)[i], keyId, ciphertext));
    if i + 1 < |FragmentFrame(f, MAX_ENCRYPTED_VIDEO_PAYLOAD_SIZE)| {
      FullButLast(f, MAX_ENCRYPTED_VIDEO_PAYLOAD_SIZE, i);
    }
  }
}
