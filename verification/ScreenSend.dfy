/**
 Sending encoded frames through the bounded video queue while the network task empties it.
 `FrameProcessor.OthersRun` stands for whatever the other threads do between two steps here: the
 network task takes packets off the front, may close the queue, and may ask for a keyframe.
 */
module ScreenSend {
  import opened Wrappers
  import opened Bytes
  import opened Packets
  import opened Fragmentation

  /** Sequence numbers from here on are refused by the media cipher. */
  const MAX_SEQUENCE_BEFORE_ROTATION: u32 := 0xFFFF_FFFF - 1000

  datatype EncodedFrame = EncodedFrame(data: seq<byte>, isKeyframe: bool)

  /** A media key: its id and the sealing of a fragment's payload under it. */
  datatype MediaKey = MediaKey(keyId: u16, seal: VideoPacket -> seq<byte>)

  function MaxPayload(key: Option<MediaKey>): (n: nat)
    ensures n > 0
  {
    if key.Some? then MAX_ENCRYPTED_VIDEO_PAYLOAD_SIZE else MAX_VIDEO_PAYLOAD_SIZE
  }

  /** The datagram for one fragment, or nothing if the cipher refuses the frame id. */
  function Wire(key: Option<MediaKey>, p: VideoPacket): Option<seq<byte>> {
    match key
    case None => Some(VideoEncode(p))
    case Some(k) =>
      if p.frameId >= MAX_SEQUENCE_BEFORE_ROTATION then None
      else Some(VideoEncode(Sealed(p, k.keyId, k.seal(p))))
  }

  /** The datagrams for a list of fragments, in order. */
  function WireAll(key: Option<MediaKey>, ps: seq<VideoPacket>): seq<seq<byte>> {
    if ps == [] then []
    else WireAll(key, ps[..|ps| - 1]) + (match Wire(key, ps[|ps| - 1]) case Some(d) => [d] case None => [])
  }

  /** What one frame becomes on the wire. */
  function FrameWire(key: Option<MediaKey>, f: Frame): seq<seq<byte>> {
    WireAll(key, FragmentFrame(f, MaxPayload(key)))
  }

  function TotalBytes(ds: seq<seq<byte>>): nat {
    if ds == [] then 0 else TotalBytes(ds[..|ds| - 1]) + |ds[|ds| - 1]|
  }

  lemma {:induction false} TotalBytesOfSum(a: seq<seq<byte>>, b: seq<seq<byte>>)
    ensures TotalBytes(a + b) == TotalBytes(a) + TotalBytes(b)
  {
    if b == [] {
      assert a + b == a;
    } else {
      var n := |b| - 1;
      TotalBytesOfSum(a, b[..n]);
      assert (a + b)[..|a + b| - 1] == a + b[..n];
    }
  }

  /** Sealing adds the 16-byte tag. */
  ghost predicate AddsTag(key: Option<MediaKey>) {
    key.Some? ==> forall p: VideoPacket :: |key.value.seal(p)| == |p.payload| + 16
  }

  /** The cipher refuses either every fragment of a frame or none. */
  lemma {:induction false} WireIsWholeOrEmpty(key: Option<MediaKey>, ps: seq<VideoPacket>, frameId: u32)
    requires forall i :: 0 <= i < |ps| ==> ps[i].frameId == frameId
    ensures if key.Some? && frameId >= 0xFFFF_FFFF - 1000 then WireAll(key, ps) == []
            else |WireAll(key, ps)| == |ps|
                 && forall i :: 0 <= i < |ps| ==> Some(WireAll(key, ps)[i]) == Wire(key, ps[i])
  {
    hide VideoEncode, Sealed;
    if ps != [] {
      WireIsWholeOrEmpty(key, ps[..|ps| - 1], frameId);
    }
  }

  /** No datagram of a frame, sealed or plain, is longer than 1280 bytes. */
  lemma FrameWireFits(key: Option<MediaKey>, f: Frame, d: seq<byte>)
    requires AddsTag(key)
    requires d in FrameWire(key, f)
    ensures |d| <= 1280
  {
    var ps := FragmentFrame(f, MaxPayload(key));
    WireIsWholeOrEmpty(key, ps, f.frameId);
    var i :| 0 <= i < |FrameWire(key, f)| && FrameWire(key, f)[i] == d;
    if key.None? {
      PlainPacketsFit(f, i);
    } else {
      SealedPacketsFit(f, i, key.value.keyId, key.value.seal(ps[i]));
    }
  }

  /** The datagrams of those frames that were queued, each under the key that was set at its turn. */
  function QueuedWire(keys: seq<Option<MediaKey>>, frames: seq<Frame>, queued: seq<bool>): seq<seq<byte>>
    requires |queued| <= |frames| == |keys|
  {
    if queued == [] then []
    else
      var n := |queued| - 1;
      QueuedWire(keys, frames, queued[..n]) + (if queued[n] then FrameWire(keys[n], frames[n]) else [])
  }

  /** What the first n fragments add to the queue; blocking without an async runtime adds nothing. */
  function Progress(key: Option<MediaKey>, ps: seq<VideoPacket>, n: nat, skip: bool): seq<seq<byte>>
    requires n <= |ps|
  {
    if skip then [] else WireAll(key, ps[..n])
  }

  lemma ProgressStep(key: Option<MediaKey>, ps: seq<VideoPacket>, n: nat, skip: bool)
    requires n < |ps|
    ensures var before, after := Progress(key, ps, n, skip), Progress(key, ps, n + 1, skip);
            && after == before + (if !skip && Wire(key, ps[n]).Some? then [Wire(key, ps[n]).value] else [])
            && (TotalBytes(after)
                == TotalBytes(before) + if !skip && Wire(key, ps[n]).Some? then |Wire(key, ps[n]).value| else 0)
  {
    hide Wire;
    assert ps[..n + 1][..n] == ps[..n] && ps[..n + 1][n] == ps[n];
    var before, after := Progress(key, ps, n, skip), Progress(key, ps, n + 1, skip);
    if !skip && Wire(key, ps[n]).Some? {
      var d := Wire(key, ps[n]).value;
      assert after == before + [d];
      assert after[..|after| - 1] == before && after[|after| - 1] == d;
    } else {
      assert after == before;
    }
  }

  /** The frames that one call sends, which all get the same frame id. */
  function FramesOf(efs: seq<EncodedFrame>, sessionId: u32, token: u64, frameId: u32, timestamp: u32): (fs: seq<Frame>)
    ensures |fs| == |efs|
  {
    seq(|efs|, i requires 0 <= i < |efs| =>
      Frame(efs[i].data, efs[i].isKeyframe, sessionId, token, frameId, timestamp))
  }

  lemma FrameOf(efs: seq<EncodedFrame>, sessionId: u32, token: u64, frameId: u32, timestamp: u32, i: nat)
    requires i < |efs|
    ensures FramesOf(efs, sessionId, token, frameId, timestamp)[i]
            == Frame(efs[i].data, efs[i].isKeyframe, sessionId, token, frameId, timestamp)
  {
  }

  /**
   Which frames entered the queue, given the room found for each: those that fitted, and keyframes
   where there was an async runtime to wait in. A delta that did not fit is the last frame looked at.
   */
  ghost predicate Explained(fs: seq<Frame>, keys: seq<Option<MediaKey>>, queued: seq<bool>, room: seq<nat>, hasRuntime: bool)
    requires |queued| == |room| <= |fs| == |keys|
  {
    && (forall i :: 0 <= i < |queued| ==>
          (queued[i] <==>
           room[i] >= |FragmentFrame(fs[i], MaxPayload(keys[i]))| || (fs[i].isKeyframe && hasRuntime)))
    && (forall i :: 0 <= i < |queued| - 1 ==> queued[i] || fs[i].isKeyframe)
  }

  /** The last frame looked at is a delta that was left out. */
  predicate DeltaDropped(fs: seq<Frame>, queued: seq<bool>)
    requires |queued| <= |fs|
  {
    queued != [] && !queued[|queued| - 1] && !fs[|queued| - 1].isKeyframe
  }

  /**
   How much room can have been found: at most the capacity of the queue, and at least what was free
   when the call began, less the fragments put in since.
   */
  ghost predicate Roomy(fs: seq<Frame>, keys: seq<Option<MediaKey>>, queued: seq<bool>, room: seq<nat>, limit: nat, waiting: nat)
    requires |queued| == |room| <= |fs| == |keys|
  {
    forall i :: 0 <= i < |room| ==>
      limit - waiting - |QueuedWire(keys, fs, queued[..i])| <= room[i] <= limit
  }

  datatype SendResult = Sent | Full | Closed

  class FrameProcessor {
    const sessionId: u32
    const token: u64
    const limit: nat
    var frameId: u32
    var keyframeRequested: bool
    var active: bool
    var framesSent: u32
    var bytesSent: u64
    var queue: seq<seq<byte>>
    var open: bool
    ghost var delivered: seq<seq<byte>>
    /** How often other threads have asked for a keyframe. */
    ghost var requests: nat

    ghost predicate Valid()
      reads this
    {
      0 < limit && |queue| <= limit
    }

    /** Every packet that was ever put into the queue. */
    ghost function Stream(): seq<seq<byte>>
      reads this
    {
      delivered + queue
    }

    /**
     What other threads may have done: a closed queue stays closed, an inactive share inactive, and the
     keyframe flag is up exactly if it was before or they raised it.
     */
    twostate predicate Later()
      reads this
    {
      && old(requests) <= requests
      && (keyframeRequested <==> old(keyframeRequested) || old(requests) < requests)
      && (active ==> old(active))
      && (open ==> old(open))
      && frameId == old(frameId) && framesSent == old(framesSent) && bytesSent == old(bytesSent)
    }

    method OthersRun()
      requires Valid()
      modifies this
      ensures Valid() && Later()
      ensures Stream() == old(Stream()) && |queue| <= old(|queue|)
    {
      var taken: nat :| taken <= |queue|;
      delivered := delivered + queue[..taken];
      queue := queue[taken..];
      if * {
        keyframeRequested := true;
        requests := requests + 1;
      }
      if * {
        active := false;
      }
      if * {
        open := false;
      }
    }

    method TrySend(bytes: seq<byte>) returns (r: SendResult)
      requires Valid()
      modifies this
      ensures Valid() && Later()
      ensures Stream() == old(Stream()) + (if r.Sent? then [bytes] else [])
      ensures r.Sent? ==> |queue| <= old(|queue|) + 1
      ensures r.Full? ==> old(|queue|) == limit
      ensures r.Closed? ==> !open
    {
      OthersRun();
      if !open {
        return Closed;
      }
      if |queue| == limit {
        return Full;
      }
      queue := queue + [bytes];
      return Sent;
    }

    /** Waits until the network task has made room or has closed the queue. */
    method BlockingSend(bytes: seq<byte>) returns (ok: bool)
      requires Valid()
      modifies this
      ensures Valid() && Later()
      ensures Stream() == old(Stream()) + (if ok then [bytes] else [])
      ensures |queue| <= old(|queue|) + 1
      ensures !ok ==> !open
    {
      OthersRun();
      if open && |queue| == limit {
        if * {
          open := false;
        } else {
          delivered := delivered + [queue[0]];
          queue := queue[1..];
        }
      }
      if !open {
        return false;
      }
      queue := queue + [bytes];
      return true;
    }

    method Capacity() returns (free: nat)
      requires Valid()
      modifies this
      ensures Valid() && Later()
      ensures Stream() == old(Stream()) && |queue| <= old(|queue|)
      ensures free == limit - |queue|
    {
      OthersRun();
      free := limit - |queue|;
    }

    /** Queues the fragments of one frame; `closed` tells that the queue was found closed on the way. */
    method SendFragments(ps: seq<VideoPacket>, key: Option<MediaKey>, mustBlock: bool, hasRuntime: bool)
      returns (closed: bool, added: nat)
      requires Valid()
      requires !mustBlock ==> |queue| + |ps| <= limit
      modifies this
      ensures Valid() && Later()
      ensures !closed ==> Stream() == old(Stream()) + Progress(key, ps, |ps|, mustBlock && !hasRuntime)
      ensures !closed ==> added == TotalBytes(Progress(key, ps, |ps|, mustBlock && !hasRuntime))
      ensures !closed ==> |queue| <= old(|queue|) + |Progress(key, ps, |ps|, mustBlock && !hasRuntime)|
      ensures closed ==> !open && !active && old(Stream()) <= Stream()
    {
      hide Wire, Progress, TotalBytes;
      closed, added := false, 0;
      ghost var skip := mustBlock && !hasRuntime;
      NoProgress(key, ps, skip);
      var i := 0;
      while i < |ps|
        invariant i <= |ps|
        invariant Valid() && Later()
        invariant !mustBlock ==> |queue| + |ps| - i <= limit
        invariant Stream() == old(Stream()) + Progress(key, ps, i, skip)
        invariant added == TotalBytes(Progress(key, ps, i, skip))
        invariant |queue| <= old(|queue|) + |Progress(key, ps, i, skip)|
      {
        ProgressStep(key, ps, i, skip);
        var wire := Wire(key, ps[i]);
        if wire.Some? {
          var bytes := wire.value;
          if mustBlock {
            if hasRuntime {
              var ok := BlockingSend(bytes);
              if !ok {
                active := false;
                return true, added;
              }
              added := added + |bytes|;
            }
          } else {
            var r := TrySend(bytes);
            match r
            case Sent =>
              added := added + |bytes|;
            case Full =>
              assert false;
            case Closed =>
              active := false;
              return true, added;
          }
        }
        i := i + 1;
      }
    }

    /**
     `queued[i]` tells whether frame i entered the queue, `room[i]` how much room was found for it, and
     `asked` whether this call itself asked for a keyframe. Unless the queue was found closed, every
     frame enters whole or not at all: a delta that does not fit is dropped together with everything
     after it, and this is the only case in which the call asks for a keyframe; a keyframe that does
     not fit waits for room, except that without an async runtime at hand it is dropped, and the call
     goes on without asking for another one.
     */
    method SendEncodedFrames(frames: seq<EncodedFrame>, timestamp: u32, keys: seq<Option<MediaKey>>, hasRuntime: bool)
      returns (closed: bool, ghost queued: seq<bool>, ghost room: seq<nat>, ghost asked: bool)
      requires Valid() && |keys| == |frames|
      modifies this
      ensures Valid()
      ensures |queued| == |room| <= |frames|
      ensures var fs := FramesOf(frames, sessionId, token, old(frameId), timestamp);
              && Explained(fs, keys, queued, room, hasRuntime)
              && Roomy(fs, keys, queued, room, limit, old(|queue|))
              && (asked <==> DeltaDropped(fs, queued))
              && (!closed && |queued| < |frames| ==> asked)
      ensures old(requests) <= requests
      ensures keyframeRequested <==> old(keyframeRequested) || asked || old(requests) < requests
      ensures var fs := FramesOf(frames, sessionId, token, old(frameId), timestamp);
              !closed ==>
                && Stream() == old(Stream()) + QueuedWire(keys, fs, queued)
                && bytesSent == (old(bytesSent) + TotalBytes(QueuedWire(keys, fs, queued))) % 0x1_0000_0000_0000_0000
      ensures !closed ==>
                && framesSent == Wrap32(old(framesSent) + 1)
                && frameId == (if old(frameId) == U32 - 1 then old(frameId) else old(frameId) + 1)
      ensures closed ==>
                && !open && !active && !asked
                && old(Stream()) <= Stream()
                && frameId == old(frameId) && framesSent == old(framesSent) && bytesSent == old(bytesSent)
    {
      hide FrameWire, TotalBytes, Progress, QueuedWire, FragmentFrame, Explained, DeltaDropped, Roomy, FramesOf, MaxPayload;
      closed, queued, room, asked := false, [], [], false;
      ghost var fs := FramesOf(frames, sessionId, token, frameId, timestamp);
      var totalBytes: nat := 0;
      var sendFailed := false;
      NothingQueued(keys, fs, hasRuntime, limit, |queue|);
      var i := 0;
      while i < |frames| && !sendFailed
        invariant i <= |frames| && |queued| == |room| == i
        invariant Valid() && frameId == old(frameId) && framesSent == old(framesSent) && bytesSent == old(bytesSent)
        invariant old(requests) <= requests
        invariant keyframeRequested <==> old(keyframeRequested) || asked || old(requests) < requests
        invariant Stream() == old(Stream()) + QueuedWire(keys, fs, queued)
        invariant totalBytes == TotalBytes(QueuedWire(keys, fs, queued))
        invariant Explained(fs, keys, queued, room, hasRuntime)
        invariant Roomy(fs, keys, queued, room, limit, old(|queue|))
        invariant |queue| <= old(|queue|) + |QueuedWire(keys, fs, queued)|
        invariant asked == sendFailed == DeltaDropped(fs, queued)
      {
        var ef, key := frames[i], keys[i];
        var f := Frame(ef.data, ef.isKeyframe, sessionId, token, frameId, timestamp);
        FrameOf(frames, sessionId, token, frameId, timestamp, i);
        var packets := FragmentFrame(f, MaxPayload(key));
        var free := Capacity();
        var mustBlock := false;
        if free < |packets| {
          if ef.isKeyframe {
            mustBlock := true;
          } else {
            keyframeRequested := true;
            asked := true;
            sendFailed := true;
          }
        }
        ghost var fate := !sendFailed && !(mustBlock && !hasRuntime);
        QueuedStep(keys, fs, queued, fate);
        ExplainedStep(fs, keys, queued, room, fate, free, hasRuntime);
        RoomyStep(fs, keys, queued, room, fate, free, limit, old(|queue|));
        if !sendFailed {
          var added;
          closed, added := SendFragments(packets, key, mustBlock, hasRuntime);
          if closed {
            return;
          }
          ProgressOfAll(key, f, packets, mustBlock && !hasRuntime);
          Associative(old(Stream()), QueuedWire(keys, fs, queued), Progress(key, packets, |packets|, mustBlock && !hasRuntime));
          totalBytes := totalBytes + added;
        }
        queued, room := queued + [fate], room + [free];
        i := i + 1;
      }
      framesSent := Wrap32(framesSent + 1);
      bytesSent := (bytesSent + totalBytes) % 0x1_0000_0000_0000_0000;
      frameId := if frameId == U32 - 1 then frameId else frameId + 1;
    }
  }

  lemma Associative(a: seq<seq<byte>>, b: seq<seq<byte>>, c: seq<seq<byte>>)
    ensures (a + b) + c == a + (b + c)
  {
  }

  lemma NoProgress(key: Option<MediaKey>, ps: seq<VideoPacket>, skip: bool)
    ensures Progress(key, ps, 0, skip) == [] && TotalBytes(Progress(key, ps, 0, skip)) == 0
  {
  }

  lemma NothingQueued(keys: seq<Option<MediaKey>>, fs: seq<Frame>, hasRuntime: bool, limit: nat, waiting: nat)
    requires |keys| == |fs|
    ensures QueuedWire(keys, fs, []) == [] && TotalBytes(QueuedWire(keys, fs, [])) == 0
    ensures Explained(fs, keys, [], [], hasRuntime) && !DeltaDropped(fs, []) && Roomy(fs, keys, [], [], limit, waiting)
  {
  }

  lemma ExplainedStep(fs: seq<Frame>, keys: seq<Option<MediaKey>>, queued: seq<bool>, room: seq<nat>,
                      fate: bool, free: nat, hasRuntime: bool)
    requires |queued| == |room| < |fs| == |keys|
    requires Explained(fs, keys, queued, room, hasRuntime) && !DeltaDropped(fs, queued)
    requires var f := fs[|queued|];
             fate <==> free >= |FragmentFrame(f, MaxPayload(keys[|queued|]))| || (f.isKeyframe && hasRuntime)
    ensures Explained(fs, keys, queued + [fate], room + [free], hasRuntime)
    ensures DeltaDropped(fs, queued + [fate]) <==> !fate && !fs[|queued|].isKeyframe
  {
    hide FragmentFrame;
  }

  lemma RoomyStep(fs: seq<Frame>, keys: seq<Option<MediaKey>>, queued: seq<bool>, room: seq<nat>,
                  fate: bool, free: nat, limit: nat, waiting: nat)
    requires |queued| == |room| < |fs| == |keys|
    requires Roomy(fs, keys, queued, room, limit, waiting)
    requires limit - waiting - |QueuedWire(keys, fs, queued)| <= free <= limit
    ensures Roomy(fs, keys, queued + [fate], room + [free], limit, waiting)
  {
    forall i | 0 <= i < |room| + 1
      ensures limit - waiting - |QueuedWire(keys, fs, (queued + [fate])[..i])| <= (room + [free])[i] <= limit
    {
      assert (queued + [fate])[..i] == queued[..i];
      assert i == |room| ==> queued[..i] == queued;
    }
  }

  lemma QueuedStep(keys: seq<Option<MediaKey>>, frames: seq<Frame>, queued: seq<bool>, fate: bool)
    requires |queued| < |frames| == |keys|
    ensures var n := |queued|;
            var before, more := QueuedWire(keys, frames, queued), if fate then FrameWire(keys[n], frames[n]) else [];
            && QueuedWire(keys, frames, queued + [fate]) == before + more
            && TotalBytes(before + more) == TotalBytes(before) + TotalBytes(more)
  {
    var n := |queued|;
    assert (queued + [fate])[..n] == queued;
    TotalBytesOfSum(QueuedWire(keys, frames, queued), if fate then FrameWire(keys[n], frames[n]) else []);
  }

  lemma ProgressOfAll(key: Option<MediaKey>, f: Frame, ps: seq<VideoPacket>, skip: bool)
    requires ps == FragmentFrame(f, MaxPayload(key))
    ensures Progress(key, ps, |ps|, skip) == if skip then [] else FrameWire(key, f)
  {
    assert ps[..|ps|] == ps;
  }
}
