/**
 The receiving end of a screen share: opening datagrams, noticing a change of sharer, and feeding
 the assembler. The sender's whole queued frames come out again exactly.
 */
module ScreenReceiver {
  import opened Wrappers
  import opened Bytes
  import opened Packets
  import opened Fragmentation
  import opened Assembler
  import opened Reassembly
  import opened ScreenSend

  /** The receiver's side of a media key; both fail on a datagram that was not sealed under the key. */
  datatype Opener = Opener(video: VideoPacket -> Option<seq<byte>>, audio: AudioPacket -> Option<seq<byte>>)

  datatype Arrival = Video(packet: VideoPacket) | Audio(sessionId: u32) | Ignored

  function OpenVideo(key: Option<Opener>, d: seq<byte>): Arrival {
    match VideoDecode(d)
    case Err(_) => Ignored
    case Ok(p) =>
      if !p.packetType.IsEncrypted() then Video(p)
      else if key.None? then Ignored
      else
        match key.value.video(p)
        case None => Ignored
        case Some(payload) => Video(p.(payload := payload))
  }

  function OpenAudio(key: Option<Opener>, d: seq<byte>): Arrival {
    match AudioDecode(d)
    case Err(_) => Ignored
    case Ok(p) =>
      if p.encrypted && (key.None? || key.value.audio(p).None?) then Ignored else Audio(p.sessionId)
  }

  /** What a datagram is, once it is parsed and opened. */
  function Classify(key: Option<Opener>, d: seq<byte>): Arrival {
    if d == [] then Ignored
    else if d[0] in {0x10, 0x11, 0x13, 0x14} then OpenVideo(key, d)
    else if d[0] in {0x12, 0x15} then OpenAudio(key, d)
    else Ignored
  }

  /** The assembler and the session whose packets it was last fed, or heard. */
  datatype Viewer = Viewer(st: State, session: Option<u32>)

  /** Only a video packet of another session empties the assembler; an audio packet just takes over. */
  function Arrive(v: Viewer, a: Arrival): (Viewer, Outcome)
    requires Valid(v.st)
  {
    match a
    case Video(p) =>
      var st := if v.session == Some(p.sessionId) then v.st else INITIAL;
      var (st1, out) := Step(st, p);
      (Viewer(st1, Some(p.sessionId)), out)
    case Audio(sessionId) => (v.(session := Some(sessionId)), NOTHING)
    case Ignored => (v, NOTHING)
  }

  lemma ArriveKeepsValid(v: Viewer, a: Arrival)
    requires Valid(v.st)
    ensures Valid(Arrive(v, a).0.st)
  {
    if a.Video? {
      StepKeepsValid(if v.session == Some(a.packet.sessionId) then v.st else INITIAL, a.packet);
    }
  }

  /** The receiving task's screen-share state, updated datagram by datagram. */
  class ScreenTask {
    const assembler: FrameAssembler
    var session: Option<u32>

    ghost function View(): Viewer
      reads this, assembler
    {
      Viewer(assembler.St(), session)
    }

    constructor ()
      ensures fresh(assembler) && View() == Viewer(INITIAL, None) && Valid(View().st)
    {
      assembler := new FrameAssembler();
      session := None;
    }

    method OnDatagram(key: Option<Opener>, d: seq<byte>) returns (frame: Option<(seq<byte>, bool)>, dropped: bool)
      requires Valid(View().st)
      modifies this, assembler
      ensures Valid(View().st)
      ensures (View(), Outcome(frame, dropped)) == Arrive(old(View()), Classify(key, d))
    {
      frame, dropped := None, false;
      if d == [] {
        return;
      }
      if d[0] in {0x10, 0x11, 0x13, 0x14} {
        var decoded := VideoDecode(d);
        if decoded.Err? {
          return;
        }
        var packet := decoded.value;
        if packet.packetType.IsEncrypted() {
          if key.None? {
            return;
          }
          var payload := key.value.video(packet);
          if payload.None? {
            return;
          }
          packet := packet.(payload := payload.value);
        }
        if session != Some(packet.sessionId) {
          assembler.Reset();
          session := Some(packet.sessionId);
        }
        frame, dropped := assembler.AddFragment(packet);
      } else if d[0] in {0x12, 0x15} {
        var decoded := AudioDecode(d);
        if decoded.Err? {
          return;
        }
        var packet := decoded.value;
        if packet.encrypted && (key.None? || key.value.audio(packet).None?) {
          return;
        }
        if session != Some(packet.sessionId) {
          session := Some(packet.sessionId);
        }
      }
    }
  }

  // ----- what is shown -----

  datatype Shown = Shown(data: seq<byte>, isKeyframe: bool, dropped: bool)

  function ShownBy(out: Outcome): seq<Shown> {
    if out.frame.Some? then [Shown(out.frame.value.0, out.frame.value.1, out.dropped)] else []
  }

  /** The frames handed to the decoder while the arrivals come in. */
  function Shows(v: Viewer, xs: seq<Arrival>): seq<Shown>
    requires Valid(v.st)
    decreases |xs|
  {
    if xs == [] then [] else
    ArriveKeepsValid(v, xs[0]);
    ShownBy(Arrive(v, xs[0]).1) + Shows(Arrive(v, xs[0]).0, xs[1..])
  }

  function Finally(v: Viewer, xs: seq<Arrival>): (r: Viewer)
    requires Valid(v.st)
    ensures Valid(r.st)
    decreases |xs|
  {
    if xs == [] then v else
    ArriveKeepsValid(v, xs[0]);
    Finally(Arrive(v, xs[0]).0, xs[1..])
  }

  lemma {:induction false} ShowsAppend(v: Viewer, xs: seq<Arrival>, ys: seq<Arrival>)
    requires Valid(v.st)
    ensures Shows(v, xs + ys) == Shows(v, xs) + Shows(Finally(v, xs), ys)
    ensures Finally(v, xs + ys) == Finally(Finally(v, xs), ys)
    decreases |xs|
  {
    hide Arrive, Valid, ShownBy;
    if xs == [] {
      assert xs + ys == ys;
    } else {
      ArriveKeepsValid(v, xs[0]);
      ShowsAppend(Arrive(v, xs[0]).0, xs[1..], ys);
      assert (xs + ys)[1..] == xs[1..] + ys;
    }
  }

  // ----- a change of sharer -----

  ghost predicate OfSession(a: Arrival, s: u32) {
    match a
    case Video(p) => p.sessionId == s
    case Audio(sessionId) => sessionId == s
    case Ignored => false
  }

  ghost predicate AllOfSession(xs: seq<Arrival>, s: u32) {
    forall i :: 0 <= i < |xs| ==> OfSession(xs[i], s)
  }

  /** Whatever follows from session s, the first frame shown is a keyframe. */
  ghost predicate StartsWithKeyframe(v: Viewer, first: Arrival, s: u32)
    requires Valid(v.st)
  {
    forall xs: seq<Arrival> :: AllOfSession(xs, s) && Shows(v, [first] + xs) != [] ==>
      Shows(v, [first] + xs)[0].isKeyframe
  }

  /** While the gate is closed it is a keyframe that opens it. */
  lemma {:induction false} ClosedGateShowsKeyframeFirst(v: Viewer, xs: seq<Arrival>, s: u32)
    requires Valid(v.st) && !v.st.hasKeyframe && v.session == Some(s)
    requires AllOfSession(xs, s)
    ensures Shows(v, xs) != [] ==> Shows(v, xs)[0].isKeyframe
    decreases |xs|
  {
    hide Step, Valid;
    if xs != [] {
      ArriveKeepsValid(v, xs[0]);
      assert OfSession(xs[0], s);
      if xs[0].Video? {
        StepTracksReleases(v.st, xs[0].packet);
      }
      assert AllOfSession(xs[1..], s);
      if Arrive(v, xs[0]).1.frame.None? {
        ClosedGateShowsKeyframeFirst(Arrive(v, xs[0]).0, xs[1..], s);
        assert Shows(v, xs) == Shows(Arrive(v, xs[0]).0, xs[1..]);
      }
    }
  }

  /** A delta frame in a single packet, of an id that is not stale. */
  function LoneDelta(st: State, s: u32): VideoPacket {
    Fragment(Frame([0], false, s, 0, if st.current.Some? then WrapAdd(st.current.value, 1) else 0, 0), 0, 1, [0])
  }

  lemma LoneDeltaPassesOpenGate(st: State, s: u32)
    requires Valid(st) && st.hasKeyframe
    ensures var out := Step(st, LoneDelta(st, s)).1; out.frame == Some(([0], false))
  {
    var p := LoneDelta(st, s);
    EmptyHasNone(1);
    PresentUpdate(Empty(1), 0, [0]);
    var fs: seq<Option<seq<byte>>> := [Some([0])];
    assert Empty(1)[0 := Some([0])] == fs;
    assert fs[1..] == [];
    assert Payloads(fs) == [0] + Payloads([]) == [0];
  }

  /**
   When the packets of a new sharer begin to arrive, the first frame shown of it is sure to be a
   keyframe exactly if its first packet is video, or no keyframe of the previous sharer was shown.
   An audio packet that comes first takes the session over without emptying the assembler.
   */
  lemma NewSharerStartsWithKeyframeIff(v: Viewer, first: Arrival, s: u32)
    requires Valid(v.st) && v.session != Some(s) && OfSession(first, s)
    ensures StartsWithKeyframe(v, first, s) <==> first.Video? || !v.st.hasKeyframe
  {
    hide Step, Valid;
    ArriveKeepsValid(v, first);
    var v1 := Arrive(v, first).0;
    if first.Video? || !v.st.hasKeyframe {
      forall xs: seq<Arrival> | AllOfSession(xs, s) && Shows(v, [first] + xs) != []
        ensures Shows(v, [first] + xs)[0].isKeyframe
      {
        assert ([first] + xs)[1..] == xs;
        FirstArrival(v, first, s);
        if Arrive(v, first).1.frame.None? {
          ClosedGateShowsKeyframeFirst(v1, xs, s);
          assert Shows(v, [first] + xs) == Shows(v1, xs);
        }
      }
    } else {
      var p := LoneDelta(v.st, s);
      var xs := [Video(p)];
      LoneDeltaPassesOpenGate(v.st, s);
      ArriveKeepsValid(v1, xs[0]);
      assert ([first] + xs)[1..] == xs;
      assert Shows(v, [first] + xs) == [] + Shows(v1, xs);
      assert !Shows(v, [first] + xs)[0].isKeyframe;
      assert AllOfSession(xs, s);
    }
  }

  lemma FirstArrival(v: Viewer, first: Arrival, s: u32)
    requires Valid(v.st) && v.session != Some(s) && OfSession(first, s)
    requires first.Video? || !v.st.hasKeyframe
    ensures var (v1, out) := Arrive(v, first);
            && v1.session == Some(s)
            && if out.frame.Some? then out.frame.value.1 else !v1.st.hasKeyframe
  {
    hide Step;
    if first.Video? {
      StepTracksReleases(INITIAL, first.packet);
    }
  }

  // ----- from the sender's queue to the decoder -----

  /** Opening undoes sealing. */
  ghost predicate Opens(key: Option<MediaKey>, opener: Option<Opener>) {
    key.Some? ==>
      && opener.Some?
      && forall p: VideoPacket ::
          opener.value.video(Sealed(p, key.value.keyId, key.value.seal(p))) == Some(p.payload)
  }

  /** The arrival carries fragment p, sealed on the way or not. */
  ghost predicate Carries(a: Arrival, p: VideoPacket) {
    && a.Video?
    && a.packet.sessionId == p.sessionId
    && a.packet.frameId == p.frameId
    && a.packet.fragmentIndex == p.fragmentIndex
    && a.packet.fragmentCount == p.fragmentCount
    && a.packet.payload == p.payload
    && a.packet.packetType.IsKeyframe() == p.packetType.IsKeyframe()
  }

  /** Sealing, writing, reading and opening a fragment carries it across. */
  lemma FragmentTravels(key: Option<MediaKey>, opener: Option<Opener>, p: VideoPacket)
    requires Opens(key, opener) && Wire(key, p).Some?
    requires VideoWellFormed(p) && (p.packetType.VideoFragment? || p.packetType.VideoKeyframeFragment?)
    ensures Carries(Classify(opener, Wire(key, p).value), p)
    ensures PlainOf(Classify(opener, Wire(key, p).value).packet) == p
  {
    hide VideoEncode, VideoDecode;
    var q := if key.Some? then Sealed(p, key.value.keyId, key.value.seal(p)) else p;
    VideoRoundTrip(q);
    VideoFields(q);
  }

  /** What arrives of a video packet, whoever sent it: an encrypted one counts if it can be opened, a plain one always. */
  lemma VideoArrives(opener: Option<Opener>, p: VideoPacket)
    requires VideoWellFormed(p) && !p.packetType.ScreenShareAudio? && !p.packetType.EncryptedScreenShareAudio?
    ensures Classify(opener, VideoEncode(p)) ==
            if p.packetType.VideoFragment? || p.packetType.VideoKeyframeFragment? then Video(p)
            else if opener.None? || opener.value.video(p).None? then Ignored
            else Video(p.(payload := opener.value.video(p).value))
  {
    hide VideoEncode, VideoDecode;
    VideoRoundTrip(p);
    VideoFields(p);
  }

  /** The same for screen audio, of which only the session matters here. */
  lemma AudioArrives(opener: Option<Opener>, p: AudioPacket)
    requires p.encrypted || p.keyId == 0
    ensures Classify(opener, AudioEncode(p)) ==
            if p.encrypted && (opener.None? || opener.value.audio(p).None?) then Ignored else Audio(p.sessionId)
  {
    hide AudioEncode, AudioDecode;
    AudioRoundTrip(p);
    AudioFields(p);
  }

  /** Nothing else counts: whatever does is such a packet on the wire. */
  lemma OnlyPacketsArrive(opener: Option<Opener>, d: seq<byte>)
    requires !Classify(opener, d).Ignored?
    ensures || (VideoDecode(d).Ok? && VideoWellFormed(VideoDecode(d).value) && VideoEncode(VideoDecode(d).value) == d)
            || (AudioDecode(d).Ok? && AudioEncode(AudioDecode(d).value) == d)
  {
    hide VideoEncode, VideoDecode, AudioEncode, AudioDecode;
    if VideoDecode(d).Ok? {
      VideoRoundTripBytes(d);
    }
    if AudioDecode(d).Ok? {
      AudioRoundTripBytes(d);
    }
  }

  function Arrivals(opener: Option<Opener>, ds: seq<seq<byte>>): (xs: seq<Arrival>)
    ensures |xs| == |ds|
  {
    seq(|ds|, i requires 0 <= i < |ds| => Classify(opener, ds[i]))
  }

  ghost predicate CarriesAll(xs: seq<Arrival>, ps: seq<VideoPacket>) {
    |xs| == |ps| && forall i :: 0 <= i < |ps| ==> Carries(xs[i], ps[i])
  }

  /** A frame the cipher accepts and that is not cut: non-empty and at most 255 full fragments. */
  ghost predicate Sendable(key: Option<MediaKey>, f: Frame) {
    && f.data != []
    && |f.data| <= 255 * MaxPayload(key)
    && (key.Some? ==> f.frameId < 0xFFFF_FFFF - 1000)
  }

  lemma FrameTravels(key: Option<MediaKey>, opener: Option<Opener>, f: Frame)
    requires Opens(key, opener) && Sendable(key, f)
    ensures CarriesAll(Arrivals(opener, FrameWire(key, f)), FragmentFrame(f, MaxPayload(key)))
  {
    hide Classify, Opens, Carries, Wire;
    var ps := FragmentFrame(f, MaxPayload(key));
    WireIsWholeOrEmpty(key, ps, f.frameId);
    var xs := Arrivals(opener, FrameWire(key, f));
    forall i | 0 <= i < |ps|
      ensures Carries(xs[i], ps[i])
    {
      FragmentHasPlainType(f, MaxPayload(key), i);
      FragmentTravels(key, opener, ps[i]);
    }
  }

  lemma FragmentHasPlainType(f: Frame, m: nat, i: nat)
    requires m > 0 && i < |FragmentFrame(f, m)|
    ensures var p := FragmentFrame(f, m)[i];
            p.packetType.VideoFragment? || p.packetType.VideoKeyframeFragment?
  {
  }

  /** The assembler holding the first i fragments of f. */
  function Filling(st0: State, f: Frame, ps: seq<VideoPacket>, i: nat): State
    requires i <= |ps| <= 255
  {
    State(Some(f.frameId), Prefix(ps, i), |ps|, i, f.isKeyframe, st0.hasKeyframe, st0.lastCompleted)
  }

  function Prefix(ps: seq<VideoPacket>, i: nat): (fs: seq<Option<seq<byte>>>)
    requires i <= |ps|
    ensures |fs| == |ps|
  {
    seq(|ps|, j requires 0 <= j < |ps| => if j < i then Some(ps[j].payload) else None)
  }

  lemma {:induction false} PresentOfPrefix(ps: seq<VideoPacket>, i: nat)
    requires i <= |ps|
    ensures Present(Prefix(ps, i)) == i
  {
    if i == 0 {
      EmptyHasNone(|ps|);
      assert Prefix(ps, 0) == Empty(|ps|);
    } else {
      PresentOfPrefix(ps, i - 1);
      PresentUpdate(Prefix(ps, i - 1), i - 1, ps[i - 1].payload);
      assert Prefix(ps, i - 1)[i - 1 := Some(ps[i - 1].payload)] == Prefix(ps, i);
    }
  }

  /** What is left in the assembler once frame f was released. */
  ghost predicate Released(st: State, f: Frame) {
    st.current.None? && st.hasKeyframe && st.lastCompleted == Some(f.frameId)
  }

  function Gap(last: Option<u32>, f: Frame): bool {
    last.Some? && WrapSub(f.frameId, last.value) > 1
  }

  lemma NextFragment(st: State, f: Frame, m: nat, i: nat, st0: State, p: VideoPacket)
    requires m > 0
    requires var ps := FragmentFrame(f, m);
             && i < |ps| && |ps| <= 255
             && Carries(Video(p), ps[i])
             && (if i == 0 then st == st0 && Valid(st0) && st0.current.None? else st == Filling(st0, f, ps, i))
    requires st0.hasKeyframe || f.isKeyframe
    requires |f.data| <= 255 * m
    requires Valid(st)
    ensures var ps := FragmentFrame(f, m);
            var (st1, out) := Step(st, p);
            if i + 1 < |ps| then st1 == Filling(st0, f, ps, i + 1) && out == NOTHING
            else Released(st1, f) && out == Outcome(Some((f.data, f.isKeyframe)), Gap(st0.lastCompleted, f))
  {
    hide FragmentFrame;
    var ps := FragmentFrame(f, m);
    PresentOfPrefix(ps, i);
    PresentOfPrefix(ps, i + 1);
    var fs := Prefix(ps, i)[i := Some(ps[i].payload)];
    assert fs == Prefix(ps, i + 1);
    EmptyHasNone(|ps|);
    assert Prefix(ps, 0) == Empty(|ps|);
    if i + 1 == |ps| {
      var cs := seq(|ps|, j requires 0 <= j < |ps| => ps[j].payload);
      PayloadsAreConcat(fs, cs);
      FragmentsCarryTheFrame(f, m);
      assert f.data[..|f.data|] == f.data;
    }
  }

  /** The viewer before fragment i of f; before the first, whatever another session left is discarded. */
  ghost predicate Before(v: Viewer, f: Frame, ps: seq<VideoPacket>, i: nat, st0: State)
    requires i < |ps| <= 255
  {
    if i == 0 then st0 == Effective(v, f.sessionId)
    else v == Viewer(Filling(st0, f, ps, i), Some(f.sessionId))
  }

  /** The assembler state that a video packet of session s will meet. */
  function Effective(v: Viewer, s: u32): (st: State)
    ensures Valid(v.st) ==> Valid(st)
  {
    if v.session == Some(s) then v.st else INITIAL
  }

  lemma {:induction false} RestOfFrameShows(v: Viewer, f: Frame, m: nat, i: nat, st0: State, xs: seq<Arrival>)
    requires m > 0 && Valid(v.st) && Valid(st0)
    requires var ps := FragmentFrame(f, m);
             && i < |ps| <= 255
             && CarriesAll(xs, ps[i..])
             && Before(v, f, ps, i, st0)
             && forall k :: 0 <= k < |ps| ==> ps[k].sessionId == f.sessionId
    requires st0.current.None? && (st0.hasKeyframe || f.isKeyframe)
    requires |f.data| <= 255 * m
    ensures Shows(v, xs) == [Shown(f.data, f.isKeyframe, Gap(st0.lastCompleted, f))]
    ensures Released(Finally(v, xs).st, f) && Finally(v, xs).session == Some(f.sessionId)
    decreases |xs|
  {
    hide FragmentFrame, Step, Valid, Released;
    var ps := FragmentFrame(f, m);
    var p := xs[0].packet;
    assert Carries(xs[0], ps[i..][0]) && ps[i..][0] == ps[i];
    ArriveKeepsValid(v, xs[0]);
    var v1 := Arrive(v, xs[0]).0;
    NextFragment(Effective(v, f.sessionId), f, m, i, st0, p);
    if i + 1 < |ps| {
      assert ps[i..][1..] == ps[i + 1..];
      RestOfFrameShows(v1, f, m, i + 1, st0, xs[1..]);
      assert Shows(v, xs) == [] + Shows(v1, xs[1..]);
    } else {
      assert xs[1..] == [];
      assert Shows(v, xs) == [Shown(f.data, f.isKeyframe, Gap(st0.lastCompleted, f))] + [];
    }
  }

  /** What a viewer shows who last completed frame `last`: every frame once, with a mark at a gap in the ids. */
  function Expected(last: Option<u32>, frames: seq<Frame>): seq<Shown>
    decreases |frames|
  {
    if frames == [] then []
    else [Shown(frames[0].data, frames[0].isKeyframe, Gap(last, frames[0]))]
         + Expected(Some(frames[0].frameId), frames[1..])
  }

  /** The datagrams of whole frames, each sealed under the key of its turn, if any. */
  function StreamOf(keys: seq<Option<MediaKey>>, frames: seq<Frame>): seq<seq<byte>>
    requires |keys| == |frames|
  {
    if frames == [] then [] else FrameWire(keys[0], frames[0]) + StreamOf(keys[1..], frames[1..])
  }

  ghost predicate AllSendable(keys: seq<Option<MediaKey>>, frames: seq<Frame>, s: u32)
    requires |keys| == |frames|
  {
    forall i :: 0 <= i < |frames| ==> Sendable(keys[i], frames[i]) && frames[i].sessionId == s
  }

  /** The receiver has the keys that were used, however often they changed on the way. */
  ghost predicate OpensAll(keys: seq<Option<MediaKey>>, opener: Option<Opener>) {
    forall i :: 0 <= i < |keys| ==> Opens(keys[i], opener)
  }

  /**
   The sender's frames come out again: if frames were queued whole and their datagrams arrive in
   order, the viewer shows exactly these frames with their data, one for one, and a loss is reported
   exactly where the frame ids jump, which is where the sender dropped something. The viewer may
   have been watching someone else before; the first frame must be a keyframe unless one was shown.
   */
  lemma {:induction false} QueuedFramesAreShown(keys: seq<Option<MediaKey>>, opener: Option<Opener>, v: Viewer,
                                                frames: seq<Frame>, s: u32)
    requires |keys| == |frames| && OpensAll(keys, opener) && AllSendable(keys, frames, s)
    requires Valid(v.st) && Effective(v, s).current.None?
    requires frames != [] ==> Effective(v, s).hasKeyframe || frames[0].isKeyframe
    ensures Shows(v, Arrivals(opener, StreamOf(keys, frames))) == Expected(Effective(v, s).lastCompleted, frames)
    decreases |frames|
  {
    hide FragmentFrame, Step, Valid, FrameWire, Opens, Classify, Sendable;
    if frames != [] {
      var f, key := frames[0], keys[0];
      var m := MaxPayload(key);
      var ds, rest := FrameWire(key, f), StreamOf(keys[1..], frames[1..]);
      var st0 := Effective(v, s);
      assert Sendable(key, f) && Opens(key, opener);
      FrameTravels(key, opener, f);
      SendableHasFragments(key, f);
      var ps, xs := FragmentFrame(f, m), Arrivals(opener, ds);
      assert ps[0..] == ps;
      RestOfFrameShows(v, f, m, 0, st0, xs);
      var v1 := Finally(v, xs);
      assert Arrivals(opener, ds + rest) == xs + Arrivals(opener, rest);
      ShowsAppend(v, xs, Arrivals(opener, rest));
      QueuedFramesAreShown(keys[1..], opener, v1, frames[1..], s);
    }
  }

  lemma SendableHasFragments(key: Option<MediaKey>, f: Frame)
    requires Sendable(key, f)
    ensures 0 < |FragmentFrame(f, MaxPayload(key))| <= 255
    ensures forall k :: 0 <= k < |FragmentFrame(f, MaxPayload(key))| ==>
                          FragmentFrame(f, MaxPayload(key))[k].sessionId == f.sessionId
    ensures |f.data| <= 255 * MaxPayload(key)
  {
  }

  /** What belongs to the frames that were queued, in order. */
  function Kept<T>(xs: seq<T>, queued: seq<bool>): (kept: seq<T>)
    requires |queued| <= |xs|
  {
    if queued == [] then []
    else
      var n := |queued| - 1;
      Kept(xs, queued[..n]) + (if queued[n] then [xs[n]] else [])
  }

  lemma {:induction false} KeptLength<S, T>(xs: seq<S>, ys: seq<T>, queued: seq<bool>)
    requires |queued| <= |xs| == |ys|
    ensures |Kept(xs, queued)| == |Kept(ys, queued)|
    decreases |queued|
  {
    if queued != [] {
      KeptLength(xs, ys, queued[..|queued| - 1]);
    }
  }

  lemma {:induction false} StreamAppend(keys: seq<Option<MediaKey>>, frames: seq<Frame>, key: Option<MediaKey>, f: Frame)
    requires |keys| == |frames|
    ensures StreamOf(keys + [key], frames + [f]) == StreamOf(keys, frames) + FrameWire(key, f)
    decreases |frames|
  {
    hide FrameWire;
    if frames == [] {
      assert [f][1..] == [] && [] + [f] == [f] && [key][1..] == [] && keys + [key] == [key];
    } else {
      StreamAppend(keys[1..], frames[1..], key, f);
      assert (frames + [f])[1..] == frames[1..] + [f] && (keys + [key])[1..] == keys[1..] + [key];
    }
  }

  /** What a call of the sender adds to its queue is the stream of the frames it kept. */
  lemma {:induction false} QueueHoldsKeptFrames(keys: seq<Option<MediaKey>>, frames: seq<Frame>, queued: seq<bool>)
    requires |queued| <= |frames| == |keys|
    ensures |Kept(keys, queued)| == |Kept(frames, queued)|
    ensures QueuedWire(keys, frames, queued) == StreamOf(Kept(keys, queued), Kept(frames, queued))
    decreases |queued|
  {
    hide FrameWire;
    KeptLength(keys, frames, queued);
    if queued != [] {
      var n := |queued| - 1;
      QueueHoldsKeptFrames(keys, frames, queued[..n]);
      if queued[n] {
        StreamAppend(Kept(keys, queued[..n]), Kept(frames, queued[..n]), keys[n], frames[n]);
      } else {
        assert Kept(frames, queued) == Kept(frames, queued[..n]) && Kept(keys, queued) == Kept(keys, queued[..n]);
      }
    }
  }

  // ----- sealed fragments in any order -----

  /** The packet as it would have been sent without a media key. */
  function PlainOf(p: VideoPacket): VideoPacket {
    p.(packetType := if p.packetType.IsKeyframe() then VideoKeyframeFragment else VideoFragment, keyId := 0)
  }

  /** The plain datagram with the same effect on the assembler; none for what never reaches it. */
  function Mirror(a: Arrival): seq<byte> {
    if a.Video? then VideoEncode(PlainOf(a.packet)) else []
  }

  function MirrorAll(xs: seq<Arrival>): (ds: seq<seq<byte>>)
    ensures |ds| == |xs|
  {
    seq(|xs|, i requires 0 <= i < |xs| => Mirror(xs[i]))
  }

  /** An arrival as `Classify` makes it: with a video packet that was well formed on the wire. */
  ghost predicate Parsed(a: Arrival) {
    a.Video? ==> VideoWellFormed(PlainOf(a.packet))
  }

  lemma ClassifiedIsParsed(opener: Option<Opener>, d: seq<byte>)
    ensures Parsed(Classify(opener, d))
  {
    hide VideoEncode, VideoDecode, ServerPeek;
    if VideoDecode(d).Ok? {
      VideoRoundTripBytes(d);
    }
  }

  /** The assembler takes no notice of how a fragment was sealed. */
  lemma MirrorHasSameEffect(st: State, a: Arrival)
    requires Valid(st) && Parsed(a)
    ensures Receive(st, Mirror(a)) == if a.Video? then Step(st, a.packet) else (st, NOTHING)
  {
    hide VideoEncode;
    if a.Video? {
      VideoRoundTrip(PlainOf(a.packet));
    }
  }

  ghost predicate InSession(a: Arrival, s: u32) {
    a == Ignored || OfSession(a, s)
  }

  /** One more arrival does to the viewer what its mirror image does to the bare assembler. */
  lemma MirrorStep(v: Viewer, a: Arrival, s: u32)
    requires Valid(v.st) && Parsed(a) && InSession(a, s)
    requires v.session == Some(s) || a.Video?
    ensures var (st1, out) := Receive(Effective(v, s), Mirror(a));
            Arrive(v, a) == (Viewer(st1, Some(s)), out)
  {
    hide Step, VideoEncode, Receive;
    MirrorHasSameEffect(Effective(v, s), a);
  }

  lemma {:induction false} MirrorRun(v: Viewer, xs: seq<Arrival>, s: u32)
    requires Valid(v.st) && xs != [] && xs[0].Video?
    requires forall i :: 0 <= i < |xs| ==> Parsed(xs[i]) && InSession(xs[i], s)
    ensures Finally(v, xs) == Viewer(ReceiveAll(Effective(v, s), MirrorAll(xs)), Some(s))
    decreases |xs|
  {
    hide Receive, Valid, Arrive, Parsed, InSession, Mirror;
    var n := |xs| - 1;
    var prior, x := xs[..n], xs[n];
    assert xs == prior + [x] && MirrorAll(xs)[..n] == MirrorAll(prior) && MirrorAll(xs)[n] == Mirror(x);
    ShowsAppend(v, prior, [x]);
    if n > 0 {
      MirrorRun(v, prior, s);
    } else {
      assert prior == [] && MirrorAll(prior) == [];
    }
    var before := Finally(v, prior);
    MirrorStep(before, x, s);
    assert [x][1..] == [];
    assert Finally(before, [x]) == Arrive(before, x).0;
  }

  /** What the k-th arrival brings about. */
  function OutcomeAt(v: Viewer, xs: seq<Arrival>, k: nat): Outcome
    requires Valid(v.st) && k < |xs|
  {
    Arrive(Finally(v, xs[..k]), xs[k]).1
  }

  lemma MirrorOutcome(v: Viewer, xs: seq<Arrival>, s: u32, k: nat)
    requires Valid(v.st) && k < |xs| && xs[0].Video?
    requires forall i :: 0 <= i < |xs| ==> Parsed(xs[i]) && InSession(xs[i], s)
    ensures OutcomeAt(v, xs, k) == LastOutcome(Effective(v, s), MirrorAll(xs)[..k + 1])
  {
    hide Receive, Valid, Arrive, Parsed, InSession, Mirror;
    var before := Finally(v, xs[..k]);
    assert MirrorAll(xs)[..k + 1][..k] == MirrorAll(xs[..k]);
    if k > 0 {
      MirrorRun(v, xs[..k], s);
    }
    MirrorStep(before, xs[k], s);
  }

  /** d is the i-th datagram of f, sealed if there is a key. */
  ghost predicate IsWire(key: Option<MediaKey>, f: Frame, i: nat, d: seq<byte>) {
    i < |FragmentFrame(f, MaxPayload(key))| && Wire(key, FragmentFrame(f, MaxPayload(key))[i]) == Some(d)
  }

  ghost predicate OnWire(key: Option<MediaKey>, f: Frame, d: seq<byte>) {
    exists i: nat :: IsWire(key, f, i, d)
  }

  /** Unusable, or audio of the same sharer, or video of its session without fragments or 1 to 999 ids behind. */
  ghost predicate Disregarded(opener: Option<Opener>, f: Frame, d: seq<byte>) {
    match Classify(opener, d)
    case Ignored => true
    case Audio(s) => s == f.sessionId
    case Video(p) =>
      p.sessionId == f.sessionId && (p.fragmentCount == 0 || 1 <= WrapSub(f.frameId, p.frameId) <= 999)
  }

  ghost predicate Arrived(key: Option<MediaKey>, f: Frame, i: nat, ds: seq<seq<byte>>) {
    exists j :: 0 <= j < |ds| && IsWire(key, f, i, ds[j])
  }

  /** Every fragment of f has arrived at least once. */
  ghost predicate AllOnWire(key: Option<MediaKey>, f: Frame, ds: seq<seq<byte>>) {
    forall i: nat :: i < |FragmentFrame(f, MaxPayload(key))| ==> Arrived(key, f, i, ds)
  }

  /** A datagram of the frame mirrors the plain datagram of the same fragment. */
  lemma WireMirrorsDatagram(key: Option<MediaKey>, opener: Option<Opener>, f: Frame, i: nat, d: seq<byte>)
    requires Opens(key, opener) && IsWire(key, f, i, d)
    ensures var a := Classify(opener, d);
            && a.Video? && Parsed(a) && InSession(a, f.sessionId)
            && Mirror(a) == Datagram(f, MaxPayload(key), i)
  {
    hide VideoEncode, VideoDecode, Opens, Classify, Wire;
    FragmentHasPlainType(f, MaxPayload(key), i);
    FragmentTravels(key, opener, FragmentFrame(f, MaxPayload(key))[i]);
    FragmentSession(f, MaxPayload(key), i);
    ClassifiedIsParsed(opener, d);
  }

  lemma FragmentSession(f: Frame, m: nat, i: nat)
    requires m > 0 && i < |FragmentFrame(f, m)|
    ensures FragmentFrame(f, m)[i].sessionId == f.sessionId
  {
  }

  /** Anything else mirrors noise. */
  lemma DisregardedMirrorsNoise(opener: Option<Opener>, f: Frame, m: nat, d: seq<byte>)
    requires m > 0 && Disregarded(opener, f, d)
    ensures var a := Classify(opener, d);
            && Parsed(a) && InSession(a, f.sessionId)
            && Noise(f, Mirror(a)) && !OfFrame(f, m, Mirror(a))
  {
    hide VideoEncode, Classify;
    var a := Classify(opener, d);
    ClassifiedIsParsed(opener, d);
    if a.Video? {
      VideoRoundTrip(PlainOf(a.packet));
    }
    forall i | 0 <= i < |FragmentFrame(f, m)|
      ensures Mirror(a) != Datagram(f, m, i)
    {
      DatagramDecodes(f, m, i);
    }
  }

  ghost predicate WireTraffic(key: Option<MediaKey>, opener: Option<Opener>, f: Frame, ds: seq<seq<byte>>) {
    && (ds != [] ==> OnWire(key, f, ds[0]))
    && forall j :: 0 <= j < |ds| ==> OnWire(key, f, ds[j]) || Disregarded(opener, f, ds[j])
  }

  lemma TrafficIsMirrored(key: Option<MediaKey>, opener: Option<Opener>, f: Frame, ds: seq<seq<byte>>, j: nat)
    requires Opens(key, opener) && WireTraffic(key, opener, f, ds) && j < |ds|
    ensures var a, m := Classify(opener, ds[j]), MaxPayload(key);
            && Parsed(a) && InSession(a, f.sessionId) && (OfFrame(f, m, Mirror(a)) || Noise(f, Mirror(a)))
            && (j == 0 ==> a.Video? && OfFrame(f, m, Mirror(a)))
            && forall i: nat :: i < |FragmentFrame(f, m)| && Mirror(a) == Datagram(f, m, i) ==> IsWire(key, f, i, ds[j])
  {
    hide Opens, Classify, Parsed, InSession, Mirror, Noise, Disregarded, IsWire, Datagram, FragmentFrame;
    var m := MaxPayload(key);
    if OnWire(key, f, ds[j]) {
      var i: nat :| IsWire(key, f, i, ds[j]);
      WireIndexInRange(key, f, i, ds[j]);
      WireMirrorsDatagram(key, opener, f, i, ds[j]);
      DatagramDecodes(f, m, i);
    } else {
      DisregardedMirrorsNoise(opener, f, m, ds[j]);
    }
  }

  lemma WireIndexInRange(key: Option<MediaKey>, f: Frame, i: nat, d: seq<byte>)
    requires IsWire(key, f, i, d)
    ensures i < |FragmentFrame(f, MaxPayload(key))|
  {
  }

  /** Exactly the fragments that arrived have arrived in the mirror. */
  lemma ArrivalsAreMirrored(key: Option<MediaKey>, opener: Option<Opener>, f: Frame, ds: seq<seq<byte>>, n: nat)
    requires Opens(key, opener) && WireTraffic(key, opener, f, ds) && n <= |ds|
    ensures AllOnWire(key, f, ds[..n]) <==> AllArrived(f, MaxPayload(key), MirrorAll(Arrivals(opener, ds))[..n])
  {
    hide Opens, Classify, Mirror, IsWire, Datagram, FragmentFrame, WireTraffic;
    var m, mirrored := MaxPayload(key), MirrorAll(Arrivals(opener, ds))[..n];
    forall i: nat | i < |FragmentFrame(f, m)|
      ensures Arrived(key, f, i, ds[..n]) <==> Datagram(f, m, i) in mirrored
    {
      if Arrived(key, f, i, ds[..n]) {
        var j :| 0 <= j < n && IsWire(key, f, i, ds[..n][j]);
        WireMirrorsDatagram(key, opener, f, i, ds[j]);
        assert mirrored[j] == Datagram(f, m, i);
      }
      if Datagram(f, m, i) in mirrored {
        var j: nat :| j < n && mirrored[j] == Datagram(f, m, i);
        TrafficIsMirrored(key, opener, f, ds, j);
        assert IsWire(key, f, i, ds[..n][j]);
      }
    }
  }

  /**
   Reassembly of sealed frames: let the datagrams of a frame, sealed or plain, first one of them,
   arrive in any order, repeated, and mixed with unusable, stale and audio datagrams. Nothing is
   shown before the last missing fragment arrives; then exactly the frame is (cut after 255 full
   packets), with its keyframe flag, if it is a keyframe or one was shown before.
   */
  lemma OpenedFrameIsReassembled(key: Option<MediaKey>, opener: Option<Opener>, v: Viewer, f: Frame,
                                 ds: seq<seq<byte>>)
    requires Opens(key, opener) && ds != [] && WireTraffic(key, opener, f, ds)
    requires Valid(v.st) && AcceptsAsNew(Effective(v, f.sessionId), f.frameId)
    requires AllOnWire(key, f, ds) && !AllOnWire(key, f, ds[..|ds| - 1])
    ensures OutcomeAt(v, Arrivals(opener, ds), |ds| - 1).frame ==
            if Effective(v, f.sessionId).hasKeyframe || f.isKeyframe
            then Some((f.data[..Min(|f.data|, 255 * MaxPayload(key))], f.isKeyframe))
            else None
    ensures forall k :: 0 <= k < |ds| - 1 ==> OutcomeAt(v, Arrivals(opener, ds), k).frame.None?
  {
    hide Opens, Classify, Mirror, Valid, Parsed, InSession, Noise, IsWire, Datagram, FragmentFrame, OfFrame, OnWire,
         Disregarded, AllOnWire, AllArrived, AcceptsAsNew, OutcomeAt, LastOutcome, WireTraffic;
    var s, m, n := f.sessionId, MaxPayload(key), |ds|;
    var xs := Arrivals(opener, ds);
    var mirrored := MirrorAll(xs);
    forall j: nat | j < n
      ensures Parsed(xs[j]) && InSession(xs[j], s) && (OfFrame(f, m, mirrored[j]) || Noise(f, mirrored[j]))
      ensures j == 0 ==> xs[j].Video? && OfFrame(f, m, mirrored[j])
    {
      TrafficIsMirrored(key, opener, f, ds, j);
    }
    ArrivalsAreMirrored(key, opener, f, ds, n);
    ArrivalsAreMirrored(key, opener, f, ds, n - 1);
    assert ds[..n] == ds && mirrored[..n] == mirrored;
    FrameIsReassembled(Effective(v, s), f, m, mirrored);
    MirrorOutcome(v, xs, s, n - 1);
    forall k: nat | k < n - 1
      ensures OutcomeAt(v, xs, k).frame.None?
    {
      MirrorOutcome(v, xs, s, k);
    }
  }
}
