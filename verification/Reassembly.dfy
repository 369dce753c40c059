/**
 End to end: the datagrams of one frame, delivered in any order with duplicates and noise, are put
 back together exactly when the last missing one arrives.
 */
module Reassembly {
  import opened Wrappers
  import opened Bytes
  import opened Packets
  import opened Fragmentation
  import opened Assembler

  /** One received datagram: undecodable ones are skipped, the others go to the assembler. */
  function Receive(st: State, d: seq<byte>): (State, Outcome)
    requires Valid(st)
  {
    match VideoDecode(d)
    case Err(_) => (st, NOTHING)
    case Ok(p) => Step(st, p)
  }

  lemma ReceiveKeepsValid(st: State, d: seq<byte>)
    requires Valid(st)
    ensures Valid(Receive(st, d).0)
  {
    if VideoDecode(d).Ok? {
      StepKeepsValid(st, VideoDecode(d).value);
    }
  }

  function ReceiveAll(st: State, ds: seq<seq<byte>>): (r: State)
    requires Valid(st)
    ensures Valid(r)
    decreases |ds|
  {
    if ds == [] then st else
    var n := |ds| - 1;
    var before := ReceiveAll(st, ds[..n]);
    ReceiveKeepsValid(before, ds[n]);
    Receive(before, ds[n]).0
  }

  /** What the receiver hands on when the last of ds arrives. */
  function LastOutcome(st: State, ds: seq<seq<byte>>): Outcome
    requires Valid(st) && ds != []
  {
    Receive(ReceiveAll(st, ds[..|ds| - 1]), ds[|ds| - 1]).1
  }

  /** The i-th datagram of a frame. */
  function Datagram(f: Frame, m: nat, i: nat): seq<byte>
    requires m > 0 && i < |FragmentFrame(f, m)|
  {
    VideoEncode(FragmentFrame(f, m)[i])
  }

  ghost predicate OfFrame(f: Frame, m: nat, d: seq<byte>)
    requires m > 0
  {
    exists i :: 0 <= i < |FragmentFrame(f, m)| && d == Datagram(f, m, i)
  }

  /** Undecodable, without fragments, or of a frame 1 to 999 ids behind f. */
  predicate Noise(f: Frame, d: seq<byte>) {
    match VideoDecode(d)
    case Err(_) => true
    case Ok(p) => p.fragmentCount == 0 || 1 <= WrapSub(f.frameId, p.frameId) <= 999
  }

  ghost predicate Traffic(f: Frame, m: nat, ds: seq<seq<byte>>)
    requires m > 0
  {
    && (ds != [] ==> OfFrame(f, m, ds[0]))
    && forall j :: 0 <= j < |ds| ==> OfFrame(f, m, ds[j]) || Noise(f, ds[j])
  }

  ghost predicate AllArrived(f: Frame, m: nat, ds: seq<seq<byte>>)
    requires m > 0
  {
    forall i :: 0 <= i < |FragmentFrame(f, m)| ==> Datagram(f, m, i) in ds
  }

  predicate AcceptsAsNew(st: State, frameId: u32) {
    st.current.None? || (st.current.value != frameId && WrapSub(st.current.value, frameId) >= 1000)
  }

  /** The fragments held after ds arrived: exactly those whose datagram is in ds. */
  ghost predicate Collecting(st0: State, f: Frame, m: nat, ds: seq<seq<byte>>, st: State)
    requires m > 0
  {
    var ps := FragmentFrame(f, m);
    && Valid(st)
    && st.current == Some(f.frameId)
    && st.fragmentCount == |ps| == |st.fragments|
    && st.isKeyframe == f.isKeyframe
    && st.hasKeyframe == st0.hasKeyframe
    && forall i :: 0 <= i < |ps| ==>
        st.fragments[i] == if Datagram(f, m, i) in ds then Some(ps[i].payload) else None
  }

  /** Different fragments have different datagrams, and each decodes to its packet. */
  lemma DatagramDecodes(f: Frame, m: nat, i: nat)
    requires m > 0 && i < |FragmentFrame(f, m)|
    ensures VideoDecode(Datagram(f, m, i)) == Ok(FragmentFrame(f, m)[i])
    ensures forall j :: 0 <= j < |FragmentFrame(f, m)| && j != i ==> Datagram(f, m, j) != Datagram(f, m, i)
  {
    var ps := FragmentFrame(f, m);
    VideoRoundTrip(ps[i]);
    forall j | 0 <= j < |ps| && j != i
      ensures Datagram(f, m, j) != Datagram(f, m, i)
    {
      VideoFields(ps[i]);
      VideoFields(ps[j]);
    }
  }

  lemma PayloadsAreConcat(fs: seq<Option<seq<byte>>>, cs: seq<seq<byte>>)
    requires |fs| == |cs| && forall i :: 0 <= i < |fs| ==> fs[i] == Some(cs[i])
    ensures Payloads(fs) == Concat(cs)
  {
    if fs != [] {
      PayloadsAreConcat(fs[1..], cs[1..]);
    }
  }

  /** A fragment that does not complete the frame is stored; one that does releases the whole frame. */
  lemma StoreFragment(st0: State, f: Frame, m: nat, ds: seq<seq<byte>>, st: State, i: nat)
    requires m > 0 && i < |FragmentFrame(f, m)|
    requires Collecting(st0, f, m, ds, st)
    ensures var ds' := ds + [Datagram(f, m, i)];
            var (st', out) := Step(st, FragmentFrame(f, m)[i]);
            if AllArrived(f, m, ds') then
              out.frame == if st0.hasKeyframe || f.isKeyframe
                           then Some((f.data[..Min(|f.data|, 255 * m)], f.isKeyframe))
                           else None
            else Collecting(st0, f, m, ds', st') && out.frame.None?
  {
    hide VideoEncode, VideoDecode, FragmentFrame, Concat, Payloads;
    var ps := FragmentFrame(f, m);
    var p := ps[i];
    var ds' := ds + [Datagram(f, m, i)];
    DatagramDecodes(f, m, i);
    hide Datagram;
    StepKeepsValid(st, p);
    PresentUpdate(st.fragments, i, p.payload);
    var fs := st.fragments[i := Some(p.payload)];
    assert forall j :: 0 <= j < |ps| ==> fs[j] == if Datagram(f, m, j) in ds' then Some(ps[j].payload) else None;
    AllPresent(fs);
    if AllArrived(f, m, ds') {
      assert Present(fs) == |fs|;
      var cs := seq(|ps|, j requires 0 <= j < |ps| => ps[j].payload);
      PayloadsAreConcat(fs, cs);
      FragmentsCarryTheFrame(f, m);
    } else {
      assert Present(fs) < |fs|;
    }
  }

  /** The first fragment starts a new, empty collection. */
  lemma FirstFragment(st0: State, f: Frame, m: nat, i: nat)
    requires m > 0 && i < |FragmentFrame(f, m)|
    requires Valid(st0) && AcceptsAsNew(st0, f.frameId)
    ensures var st := Begin(st0, FragmentFrame(f, m)[i]);
            && Collecting(st0, f, m, [], st)
            && Step(st0, FragmentFrame(f, m)[i]).0 == Step(st, FragmentFrame(f, m)[i]).0
            && Step(st0, FragmentFrame(f, m)[i]).1.frame == Step(st, FragmentFrame(f, m)[i]).1.frame
  {
    EmptyHasNone(|FragmentFrame(f, m)|);
  }

  /** Noise changes nothing while the frame is being collected. */
  lemma NoiseIsIgnored(st0: State, f: Frame, m: nat, ds: seq<seq<byte>>, st: State, d: seq<byte>)
    requires m > 0
    requires Collecting(st0, f, m, ds, st) && Noise(f, d)
    ensures Receive(st, d) == (st, NOTHING)
  {
  }

  /** As long as a fragment is missing, exactly the arrived fragments are held and nothing was released. */
  lemma {:induction false} CollectsUntilComplete(st0: State, f: Frame, m: nat, ds: seq<seq<byte>>)
    requires m > 0 && ds != []
    requires Valid(st0) && AcceptsAsNew(st0, f.frameId)
    requires Traffic(f, m, ds)
    requires !AllArrived(f, m, ds)
    ensures Collecting(st0, f, m, ds, ReceiveAll(st0, ds))
    ensures LastOutcome(st0, ds).frame.None?
    decreases |ds|
  {
    var n := |ds| - 1;
    var d, prior := ds[n], ds[..n];
    assert ds == prior + [d];
    var before := ReceiveAll(st0, prior);
    if n == 0 {
      var i :| 0 <= i < |FragmentFrame(f, m)| && d == Datagram(f, m, i);
      DatagramDecodes(f, m, i);
      FirstFragment(st0, f, m, i);
      StoreFragment(st0, f, m, [], Begin(st0, FragmentFrame(f, m)[i]), i);
      assert [] + [d] == ds;
    } else {
      assert prior[0] == ds[0];
      assert forall j :: 0 <= j < |prior| ==> prior[j] == ds[j];
      CollectsUntilComplete(st0, f, m, prior);
      if OfFrame(f, m, d) {
        var i :| 0 <= i < |FragmentFrame(f, m)| && d == Datagram(f, m, i);
        DatagramDecodes(f, m, i);
        StoreFragment(st0, f, m, prior, before, i);
      } else {
        NoiseIsIgnored(st0, f, m, prior, before, d);
        NoiseIsNoFragment(f, m, prior, d);
      }
    }
  }

  lemma NoiseIsNoFragment(f: Frame, m: nat, prior: seq<seq<byte>>, d: seq<byte>)
    requires m > 0 && !OfFrame(f, m, d)
    ensures forall i :: 0 <= i < |FragmentFrame(f, m)| ==>
                          (Datagram(f, m, i) in prior + [d] <==> Datagram(f, m, i) in prior)
  {
  }

  /**
   The frame comes out complete: let the datagrams of a frame, first one of them, arrive in any
   order, with repetitions and with noise in between. When the last missing one arrives, and not
   before, the assembler releases the frame (cut after 255 full packets) with its keyframe flag,
   provided a keyframe was seen before or this is one.
   */
  lemma FrameIsReassembled(st0: State, f: Frame, m: nat, ds: seq<seq<byte>>)
    requires m > 0 && ds != []
    requires Valid(st0) && AcceptsAsNew(st0, f.frameId)
    requires Traffic(f, m, ds)
    requires AllArrived(f, m, ds) && !AllArrived(f, m, ds[..|ds| - 1])
    ensures LastOutcome(st0, ds).frame ==
            if st0.hasKeyframe || f.isKeyframe
            then Some((f.data[..Min(|f.data|, 255 * m)], f.isKeyframe))
            else None
    ensures forall k :: 0 < k < |ds| ==> LastOutcome(st0, ds[..k]).frame.None?
  {
    hide FragmentFrame, Datagram, Step, Valid;
    var n := |ds| - 1;
    var d, prior := ds[n], ds[..n];
    assert ds == prior + [d];
    NothingBefore(st0, f, m, ds);
    if !OfFrame(f, m, d) {
      NoiseIsNoFragment(f, m, prior, d);
      assert false;
    }
    var i :| 0 <= i < |FragmentFrame(f, m)| && d == Datagram(f, m, i);
    DatagramDecodes(f, m, i);
    if n == 0 {
      FirstFragment(st0, f, m, i);
      StoreFragment(st0, f, m, [], Begin(st0, FragmentFrame(f, m)[i]), i);
      assert [] + [d] == ds;
    } else {
      assert prior[0] == ds[0];
      assert forall j :: 0 <= j < |prior| ==> prior[j] == ds[j];
      CollectsUntilComplete(st0, f, m, prior);
      StoreFragment(st0, f, m, prior, ReceiveAll(st0, prior), i);
    }
  }

  lemma NothingBefore(st0: State, f: Frame, m: nat, ds: seq<seq<byte>>)
    requires m > 0 && ds != []
    requires Valid(st0) && AcceptsAsNew(st0, f.frameId)
    requires Traffic(f, m, ds)
    requires !AllArrived(f, m, ds[..|ds| - 1])
    ensures forall k :: 0 < k < |ds| ==> LastOutcome(st0, ds[..k]).frame.None?
  {
    forall k | 0 < k < |ds|
      ensures LastOutcome(st0, ds[..k]).frame.None?
    {
      var prior := ds[..k];
      assert prior[0] == ds[0];
      assert forall j :: 0 <= j < |prior| ==> prior[j] == ds[j];
      assert forall x :: x in prior ==> x in ds[..|ds| - 1] by {
        assert prior == ds[..|ds| - 1][..k];
      }
      CollectsUntilComplete(st0, f, m, prior);
    }
  }

  // ----- releasing a frame again -----

  lemma PrefixTraffic(f: Frame, m: nat, ds: seq<seq<byte>>, k: nat)
    requires m > 0 && 0 < k <= |ds| && Traffic(f, m, ds)
    ensures Traffic(f, m, ds[..k])
    ensures AllArrived(f, m, ds[..k]) ==> AllArrived(f, m, ds)
  {
    hide OfFrame, Noise, Datagram, FragmentFrame;
    assert ds[..k][0] == ds[0];
    assert forall j :: 0 <= j < k ==> ds[..k][j] == ds[j];
  }

  /** The shortest prefix with all fragments. */
  lemma {:induction false} FirstComplete(f: Frame, m: nat, ds: seq<seq<byte>>) returns (k: nat)
    requires m > 0 && FragmentFrame(f, m) != [] && AllArrived(f, m, ds)
    ensures 0 < k <= |ds| && AllArrived(f, m, ds[..k]) && !AllArrived(f, m, ds[..k - 1])
    decreases |ds|
  {
    hide Datagram, FragmentFrame;
    var n := |ds|;
    assert Datagram(f, m, 0) in ds;
    if AllArrived(f, m, ds[..n - 1]) {
      k := FirstComplete(f, m, ds[..n - 1]);
      assert ds[..n - 1][..k] == ds[..k] && ds[..n - 1][..k - 1] == ds[..k - 1];
    } else {
      k := n;
      assert ds[..n] == ds;
    }
  }

  /** f comes out while the datagrams arrive. */
  ghost predicate IsReleased(st0: State, f: Frame, m: nat, ds: seq<seq<byte>>)
    requires m > 0 && Valid(st0)
  {
    exists k :: 0 < k <= |ds| && LastOutcome(st0, ds[..k]).frame
                                 == Some((f.data[..Min(|f.data|, 255 * m)], f.isKeyframe))
  }

  /**
   Once a frame was released nothing keeps it, or an older one, from being released again: among
   further datagrams of a frame f, starting with one of them, it comes out if and only if all its
   fragments are there, whichever frame was completed last.
   */
  lemma FrameIsReleasedAgainIff(st0: State, f: Frame, m: nat, ds: seq<seq<byte>>)
    requires m > 0 && Valid(st0) && st0.current.None? && st0.hasKeyframe
    requires f.data != [] && Traffic(f, m, ds)
    ensures IsReleased(st0, f, m, ds) <==> AllArrived(f, m, ds)
  {
    hide OfFrame, Noise, Datagram, FragmentFrame, Traffic, AllArrived, LastOutcome, Valid;
    if AllArrived(f, m, ds) {
      var k := FirstComplete(f, m, ds);
      PrefixTraffic(f, m, ds, k);
      assert ds[..k][..k - 1] == ds[..k - 1];
      FrameIsReassembled(st0, f, m, ds[..k]);
    } else {
      forall k | 0 < k <= |ds|
        ensures LastOutcome(st0, ds[..k]).frame.None?
      {
        PrefixTraffic(f, m, ds, k);
        CollectsUntilComplete(st0, f, m, ds[..k]);
      }
    }
  }
}
