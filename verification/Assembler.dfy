/**
 Reassembly of video frames from fragments that may be reordered, duplicated, stale or lost.
 `Step` is what one packet does to an assembler; `FrameAssembler.AddFragment` implements it.
 */
module Assembler {
  import opened Wrappers
  import opened Bytes
  import opened Packets
  import opened Fragmentation

  const STALE_WINDOW: nat := 1000

  datatype State = State(
    current: Option<u32>,
    fragments: seq<Option<seq<byte>>>,
    fragmentCount: byte,
    received: byte,
    isKeyframe: bool,
    hasKeyframe: bool,
    lastCompleted: Option<u32>)

  datatype Outcome = Outcome(frame: Option<(seq<byte>, bool)>, dropped: bool)

  const NOTHING := Outcome(None, false)

  const INITIAL := State(None, [], 0, 0, false, false, None)

  function Present(fs: seq<Option<seq<byte>>>): (n: nat)
    ensures n <= |fs|
  {
    if fs == [] then 0 else (if fs[0].Some? then 1 else 0) + Present(fs[1..])
  }

  /** Either a frame is being collected and is incomplete, or there is nothing to collect. */
  ghost predicate Valid(st: State) {
    && (st.lastCompleted.Some? <==> st.hasKeyframe)
    && (|| (st.current.Some? && |st.fragments| == st.fragmentCount && st.received == Present(st.fragments) < st.fragmentCount)
        || (st.fragments == [] && st.received == st.fragmentCount))
  }

  /** A different frame at most 999 ids behind the one being collected. */
  predicate Stale(st: State, frameId: u32) {
    && st.current.Some?
    && 0 < WrapSub(st.current.value, frameId) < STALE_WINDOW
  }

  predicate PartlyReceived(st: State) {
    st.current.Some? && 0 < st.received < st.fragmentCount
  }

  function Payloads(fs: seq<Option<seq<byte>>>): seq<byte> {
    if fs == [] then [] else (if fs[0].Some? then fs[0].value else []) + Payloads(fs[1..])
  }

  function Empty(n: nat): (fs: seq<Option<seq<byte>>>)
    ensures |fs| == n && forall i :: 0 <= i < n ==> fs[i].None?
  {
    seq(n, _ => None)
  }

  /** Start collecting the frame that p belongs to. */
  function Begin(st: State, p: VideoPacket): State {
    State(Some(p.frameId), Empty(p.fragmentCount), p.fragmentCount, 0, p.packetType.IsKeyframe(),
          st.hasKeyframe, st.lastCompleted)
  }

  /** Store p's payload; when that completes the frame, release it if the keyframe gate is open. */
  function Store(st: State, p: VideoPacket, dropped: bool): (State, Outcome)
    requires p.fragmentIndex < |st.fragments| == st.fragmentCount
    requires st.received == Present(st.fragments) < st.fragmentCount
  {
    var fragments := st.fragments[p.fragmentIndex := Some(p.payload)];
    var received: byte := if st.fragments[p.fragmentIndex].None? then st.received + 1 else st.received;
    var isKeyframe := st.isKeyframe || p.packetType.IsKeyframe();
    var st1 := st.(fragments := fragments, received := received, isKeyframe := isKeyframe);
    if received != st.fragmentCount then (st1, Outcome(None, dropped))
    else if !(st.hasKeyframe || isKeyframe) then (st1.(fragments := []), Outcome(None, dropped))
    else
      var gap := st.lastCompleted.Some? && WrapSub(p.frameId, st.lastCompleted.value) > 1;
      (st1.(fragments := [], hasKeyframe := true, lastCompleted := Some(p.frameId), current := None),
       Outcome(Some((Payloads(fragments), isKeyframe)), dropped || gap))
  }

  function Step(st: State, p: VideoPacket): (State, Outcome)
    requires Valid(st)
  {
    if p.fragmentCount == 0 then (st, NOTHING)
    else if st.current != Some(p.frameId) && Stale(st, p.frameId) then (st, NOTHING)
    else
      var starts := st.current != Some(p.frameId);
      var st0 := if starts then Begin(st, p) else st;
      var dropped := starts && PartlyReceived(st);
      EmptyHasNone(p.fragmentCount);
      if p.fragmentIndex >= |st0.fragments| then (st0, Outcome(None, dropped))
      else Store(st0, p, dropped)
  }

  lemma {:induction false} EmptyHasNone(n: nat)
    ensures Present(Empty(n)) == 0
  {
    if n > 0 {
      EmptyHasNone(n - 1);
      assert Empty(n)[1..] == Empty(n - 1);
    }
  }

  lemma {:induction false} PresentUpdate(fs: seq<Option<seq<byte>>>, i: nat, d: seq<byte>)
    requires i < |fs|
    ensures Present(fs[i := Some(d)]) == Present(fs) + (if fs[i].None? then 1 else 0)
  {
    if i > 0 {
      PresentUpdate(fs[1..], i - 1, d);
      assert fs[i := Some(d)][1..] == fs[1..][i - 1 := Some(d)];
    } else {
      assert fs[i := Some(d)][1..] == fs[1..];
    }
  }

  lemma {:induction false} AllPresent(fs: seq<Option<seq<byte>>>)
    ensures Present(fs) == |fs| <==> forall i :: 0 <= i < |fs| ==> fs[i].Some?
  {
    if fs != [] {
      AllPresent(fs[1..]);
      assert forall i :: 0 <= i < |fs[1..]| ==> fs[1..][i] == fs[i + 1];
      if forall i :: 0 <= i < |fs| ==> fs[i].Some? {
        assert fs[0].Some?;
      }
      if fs[0].Some? && forall i :: 0 <= i < |fs[1..]| ==> fs[1..][i].Some? {
        forall i | 0 <= i < |fs| ensures fs[i].Some? {
          assert i > 0 ==> fs[1..][i - 1] == fs[i];
        }
      }
    }
  }

  /** One packet keeps the counters consistent, so the 8-bit `received` counter never overflows. */
  lemma StepKeepsValid(st: State, p: VideoPacket)
    requires Valid(st)
    ensures Valid(Step(st, p).0)
  {
    if p.fragmentCount != 0 && !(st.current != Some(p.frameId) && Stale(st, p.frameId)) {
      EmptyHasNone(p.fragmentCount);
      var st0 := if st.current != Some(p.frameId) then Begin(st, p) else st;
      if p.fragmentIndex < |st0.fragments| {
        PresentUpdate(st0.fragments, p.fragmentIndex, p.payload);
      }
    }
  }

  /** The payloads that are present, in fragment order. */
  method JoinPayloads(fragments: seq<Option<seq<byte>>>) returns (frameData: seq<byte>)
    ensures frameData == Payloads(fragments)
  {
    frameData := [];
    for i := 0 to |fragments|
      invariant frameData + Payloads(fragments[i..]) == Payloads(fragments)
    {
      assert fragments[i..][1..] == fragments[i + 1..];
      if fragments[i].Some? {
        frameData := frameData + fragments[i].value;
      }
    }
    assert fragments[|fragments|..] == [];
  }

  /** The assembler as the client keeps it: fields updated in place. */
  class FrameAssembler {
    var current: Option<u32>
    var fragments: seq<Option<seq<byte>>>
    var fragmentCount: byte
    var received: byte
    var isKeyframe: bool
    var hasKeyframe: bool
    var lastCompleted: Option<u32>

    ghost function St(): State
      reads this
    {
      State(current, fragments, fragmentCount, received, isKeyframe, hasKeyframe, lastCompleted)
    }

    constructor ()
      ensures St() == INITIAL && Valid(St())
    {
      current, fragments, fragmentCount, received := None, [], 0, 0;
      isKeyframe, hasKeyframe, lastCompleted := false, false, None;
    }

    method Reset()
      modifies this
      ensures St() == INITIAL && Valid(St())
    {
      current := None;
      fragments := [];
      fragmentCount := 0;
      received := 0;
      isKeyframe := false;
      hasKeyframe := false;
      lastCompleted := None;
    }

    method AddFragment(packet: VideoPacket) returns (frame: Option<(seq<byte>, bool)>, dropped: bool)
      requires Valid(St())
      modifies this
      ensures Valid(St())
      ensures (St(), Outcome(frame, dropped)) == Step(old(St()), packet)
    {
      StepKeepsValid(St(), packet);
      var frameId := packet.frameId;
      frame, dropped := None, false;
      if packet.fragmentCount == 0 {
        return;
      }
      if current != Some(frameId) {
        if current.Some? {
          var behind := WrapSub(current.value, frameId);
          if behind > 0 && behind < STALE_WINDOW {
            return;
          }
          if received > 0 && received < fragmentCount {
            dropped := true;
          }
        }
        current := Some(frameId);
        fragmentCount := packet.fragmentCount;
        received := 0;
        isKeyframe := packet.packetType.IsKeyframe();
        fragments := Empty(packet.fragmentCount);
        EmptyHasNone(packet.fragmentCount);
      }
      var idx := packet.fragmentIndex;
      if idx >= |fragments| {
        return;
      }
      frame, dropped := StoreFragment(packet, dropped);
    }

    /** The second half of AddFragment: store the payload and release the frame if it is complete. */
    method StoreFragment(packet: VideoPacket, dropped0: bool)
      returns (frame: Option<(seq<byte>, bool)>, dropped: bool)
      requires packet.fragmentIndex < |fragments| == fragmentCount
      requires received == Present(fragments) < fragmentCount
      modifies this
      ensures (St(), Outcome(frame, dropped)) == Store(old(St()), packet, dropped0)
    {
      frame, dropped := None, dropped0;
      var frameId, idx := packet.frameId, packet.fragmentIndex;
      if fragments[idx].None? {
        received := received + 1;
      }
      fragments := fragments[idx := Some(packet.payload)];
      if packet.packetType.IsKeyframe() {
        isKeyframe := true;
      }
      if received == fragmentCount {
        var frameData := JoinPayloads(fragments);
        if isKeyframe {
          hasKeyframe := true;
        }
        fragments := [];
        if hasKeyframe {
          if lastCompleted.Some? {
            if WrapSub(frameId, lastCompleted.value) > 1 {
              dropped := true;
            }
          }
          lastCompleted := Some(frameId);
          current := None;
          return Some((frameData, isKeyframe)), dropped;
        }
      }
    }
  }

  // ---------------------------------------------------------------- loss reporting over runs

  /** The state after a whole sequence of packets. */
  function After(st: State, ps: seq<VideoPacket>): (r: State)
    requires Valid(st)
    ensures Valid(r)
    decreases |ps|
  {
    if ps == [] then st else
    StepKeepsValid(st, ps[0]);
    After(Step(st, ps[0]).0, ps[1..])
  }

  datatype Emission = Emission(frameId: u32, isKeyframe: bool, dropped: bool)

  /** The frames released while a sequence of packets is fed in, oldest first. */
  function Emissions(st: State, ps: seq<VideoPacket>): (es: seq<Emission>)
    requires Valid(st)
    decreases |ps|
  {
    if ps == [] then [] else
    StepKeepsValid(st, ps[0]);
    var (st1, out) := Step(st, ps[0]);
    (if out.frame.Some? then [Emission(ps[0].frameId, out.frame.value.1, out.dropped)] else [])
    + Emissions(st1, ps[1..])
  }

  /** Emission b directly after a frame `last`: the same or the next id, or its loss is reported. */
  predicate LossReported(last: u32, b: Emission) {
    b.frameId == last || b.frameId == WrapAdd(last, 1) || b.dropped
  }

  /** What a step does to the two loss-tracking fields. */
  lemma StepTracksReleases(st: State, p: VideoPacket)
    requires Valid(st)
    ensures var (st1, out) := Step(st, p);
            if out.frame.Some? then
              && st1.lastCompleted == Some(p.frameId) && st1.hasKeyframe
              && (st.hasKeyframe || out.frame.value.1)
              && (st.lastCompleted.Some? ==>
                    LossReported(st.lastCompleted.value, Emission(p.frameId, out.frame.value.1, out.dropped)))
            else st1.lastCompleted == st.lastCompleted && st1.hasKeyframe == st.hasKeyframe
  {
  }

  lemma {:induction false} EmissionsReportLoss(st: State, ps: seq<VideoPacket>)
    requires Valid(st)
    ensures var es := Emissions(st, ps);
            && (es != [] && !st.hasKeyframe ==> es[0].isKeyframe)
            && (es != [] && st.lastCompleted.Some? ==> LossReported(st.lastCompleted.value, es[0]))
            && (forall k :: 0 <= k < |es| - 1 ==> LossReported(es[k].frameId, es[k + 1]))
    decreases |ps|
  {
    if ps != [] {
      StepKeepsValid(st, ps[0]);
      StepTracksReleases(st, ps[0]);
      var (st1, out) := Step(st, ps[0]);
      var rest := Emissions(st1, ps[1..]);
      EmissionsReportLoss(st1, ps[1..]);
      if out.frame.Some? {
        PrependKeepsReports(Emission(ps[0].frameId, out.frame.value.1, out.dropped), rest);
      } else {
        assert Emissions(st, ps) == rest;
      }
    }
  }

  lemma PrependKeepsReports(e: Emission, rest: seq<Emission>)
    requires rest != [] ==> LossReported(e.frameId, rest[0])
    requires forall k :: 0 <= k < |rest| - 1 ==> LossReported(rest[k].frameId, rest[k + 1])
    ensures var es := [e] + rest; forall k :: 0 <= k < |es| - 1 ==> LossReported(es[k].frameId, es[k + 1])
  {
    var es := [e] + rest;
    forall k | 0 <= k < |es| - 1
      ensures LossReported(es[k].frameId, es[k + 1])
    {
      if k > 0 {
        assert es[k] == rest[k - 1];
      }
    }
  }

  /**
   Since creation or reset: the first released frame is a keyframe, and whenever a released frame is
   neither the previous one again nor its successor, the receiver is told that frames were lost.
   */
  lemma LossIsAlwaysReported(ps: seq<VideoPacket>)
    ensures var es := Emissions(INITIAL, ps);
            && (es != [] ==> es[0].isKeyframe)
            && (forall k :: 0 <= k < |es| - 1 ==> LossReported(es[k].frameId, es[k + 1]))
  {
    EmissionsReportLoss(INITIAL, ps);
  }

  /** The packet makes the assembler give up a frame of which it holds some fragments. */
  predicate Abandons(st: State, p: VideoPacket) {
    PartlyReceived(st) && p.fragmentCount != 0 && st.current != Some(p.frameId) && !Stale(st, p.frameId)
  }

  /**
   A loss is reported exactly when a partly received frame is given up, whatever becomes of the packet
   that replaces it, or when the frame released does not follow the one completed last. Stale packets
   and those without fragments change nothing.
   */
  lemma AbandonedFrameIsReported(st: State, p: VideoPacket)
    requires Valid(st)
    ensures var (st1, out) := Step(st, p);
            && (out.dropped <==> || Abandons(st, p)
                                 || (out.frame.Some? && st.lastCompleted.Some?
                                     && WrapSub(p.frameId, st.lastCompleted.value) > 1))
            && (p.fragmentCount == 0 || (st.current != Some(p.frameId) && Stale(st, p.frameId))
                ==> st1 == st && out == NOTHING)
  {
  }

  // ----- which frame is collected -----

  /** The packet is of a frame 1 to 999 ids behind the one that is being collected, or has no fragments. */
  predicate Ignorable(st: State, p: VideoPacket) {
    p.fragmentCount == 0 || (st.current.Some? && 1 <= WrapSub(st.current.value, p.frameId) <= 999)
  }

  /** What came of the frame before counts as lost: it was begun and not finished. */
  predicate Unfinished(st: State) {
    st.current.Some? && 1 <= st.received < st.fragmentCount
  }

  /**
   A packet of another frame than the one being collected. It changes nothing if it is ignorable; any
   other replaces what was being collected, finished or not, and reports an unfinished one as lost. A
   frame of one fragment is released at once, provided a keyframe was seen before or this is one.
   */
  lemma OtherFrameTakesOver(st: State, p: VideoPacket)
    requires Valid(st) && st.current != Some(p.frameId)
    ensures var (st1, out) := Step(st, p);
            if Ignorable(st, p) then st1 == st && out == Outcome(None, false)
            else if p.fragmentIndex >= p.fragmentCount then
              st1.current == Some(p.frameId) && st1.received == 0 && out == Outcome(None, Unfinished(st))
            else if p.fragmentCount > 1 then
              && st1.current == Some(p.frameId) && st1.fragmentCount == p.fragmentCount == |st1.fragments| && st1.received == 1
              && (forall i :: 0 <= i < |st1.fragments| ==>
                    st1.fragments[i] == if i == p.fragmentIndex then Some(p.payload) else None)
              && st1.hasKeyframe == st.hasKeyframe && st1.lastCompleted == st.lastCompleted
              && st1.isKeyframe == p.packetType.IsKeyframe()
              && out == Outcome(None, Unfinished(st))
            else if st.hasKeyframe || p.packetType.IsKeyframe() then
              && st1.current == None && st1.hasKeyframe && st1.lastCompleted == Some(p.frameId)
              && out.frame == Some((p.payload, p.packetType.IsKeyframe()))
              && (out.dropped <==> Unfinished(st) || (st.lastCompleted.Some? && WrapSub(p.frameId, st.lastCompleted.value) > 1))
            else st1.current == Some(p.frameId) && !st1.hasKeyframe && out == Outcome(None, Unfinished(st))
  {
    if !Ignorable(st, p) && p.fragmentIndex < p.fragmentCount {
      OneStored(p.fragmentCount, p.fragmentIndex, p.payload);
    }
    hide Payloads, Present, Empty;
  }

  /** All fragments but number i are there. */
  ghost predicate OnlyMissing(st: State, i: nat) {
    forall j :: 0 <= j < |st.fragments| && j != i ==> st.fragments[j].Some?
  }

  /**
   A packet of the frame that is being collected: the last one received for a place counts, and the
   frame is released exactly when no other fragment is missing, provided a keyframe was seen before or
   any packet of this frame is one.
   */
  lemma SameFrameCollects(st: State, p: VideoPacket)
    requires Valid(st) && st.current == Some(p.frameId)
    ensures var (st1, out) := Step(st, p);
            if p.fragmentCount == 0 || p.fragmentIndex >= |st.fragments| then st1 == st && out == Outcome(None, false)
            else
              var i, isKeyframe := p.fragmentIndex, st.isKeyframe || p.packetType.IsKeyframe();
              if !OnlyMissing(st, i) then
                && st1.current == st.current && st1.fragments == st.fragments[i := Some(p.payload)]
                && st1.isKeyframe == isKeyframe && st1.hasKeyframe == st.hasKeyframe && st1.lastCompleted == st.lastCompleted
                && out == Outcome(None, false)
              else if st.hasKeyframe || isKeyframe then
                && st1.current == None && st1.hasKeyframe && st1.lastCompleted == Some(p.frameId)
                && out.frame == Some((Payloads(st.fragments[i := Some(p.payload)]), isKeyframe))
                && (out.dropped <==> st.lastCompleted.Some? && WrapSub(p.frameId, st.lastCompleted.value) > 1)
              else st1.current == st.current && st1.fragments == [] && !st1.hasKeyframe && out == Outcome(None, false)
  {
    if p.fragmentIndex < |st.fragments| {
      CompleteWith(st.fragments, p.fragmentIndex, p.payload);
    }
    hide Payloads, Present, Empty;
  }

  lemma CompleteWith(fs: seq<Option<seq<byte>>>, i: nat, data: seq<byte>)
    requires i < |fs|
    ensures Present(fs) + (if fs[i].None? then 1 else 0) == |fs| <==>
            forall j :: 0 <= j < |fs| && j != i ==> fs[j].Some?
  {
    var after := fs[i := Some(data)];
    PresentUpdate(fs, i, data);
    AllPresent(after);
    hide Present;
    assert forall j :: 0 <= j < |fs| && j != i ==> after[j] == fs[j];
  }

  /** The first fragment of a frame alone. */
  lemma OneStored(n: nat, i: nat, data: seq<byte>)
    requires i < n
    ensures var fs := Empty(n)[i := Some(data)];
            && Present(Empty(n)) == 0 && Present(fs) == 1
            && (forall j :: 0 <= j < n ==> fs[j] == if j == i then Some(data) else None)
            && (n == 1 ==> Payloads(fs) == data)
  {
    EmptyHasNone(n);
    PresentUpdate(Empty(n), i, data);
    if n == 1 {
      assert Empty(1)[0 := Some(data)] == [Some(data)];
      assert [Some(data)][1..] == [];
      assert Payloads([Some(data)]) == data + Payloads([]);
    }
  }

  /** The smallest case of a second release: the only packet of a frame, received twice. */
  lemma ReleasedFrameCanBeReleasedAgain(id: u32, data: seq<byte>)
    ensures var p := Fragment(Frame(data, true, 0, 0, id, 0), 0, 1, data);
            Emissions(INITIAL, [p, p]) == [Emission(id, true, false), Emission(id, true, false)]
  {
    var p := Fragment(Frame(data, true, 0, 0, id, 0), 0, 1, data);
    StepKeepsValid(INITIAL, p);
    EmptyHasNone(1);
    var st1 := Step(INITIAL, p).0;
    PresentUpdate(Empty(1), 0, data);
    StepKeepsValid(st1, p);
    var st2 := Step(st1, p).0;
    assert [p, p][1..] == [p];
    assert [p][1..] == [];
    assert Emissions(st2, []) == [];
    assert Emissions(st1, [p]) == [Emission(id, true, false)] + [];
  }
}
