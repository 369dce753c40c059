/**
 The per-user jitter buffer and the loop that drains it: reordering by 32-bit wrapping sequence
 numbers, with lost packets reported in place.
 */
module Jitter {
  import opened Wrappers
  import opened Bytes

  const LATE_WINDOW := 1000

  type Buffer = map<u32, seq<byte>>

  datatype Frame = Ready(data: seq<byte>) | Lost

  datatype State = State(buffer: Buffer, next: Option<u32>, buffering: bool)

  // ---------------------------------------------------------------- smallest key, largest offset

  ghost predicate IsLeast(s: set<u32>, m: u32) {
    m in s && forall k :: k in s ==> m <= k
  }

  lemma {:induction false} LeastExists(s: set<u32>)
    requires s != {}
    ensures exists m :: IsLeast(s, m)
  {
    var x :| x in s;
    if s == {x} {
      assert IsLeast(s, x);
    } else {
      LeastExists(s - {x});
      var m :| IsLeast(s - {x}, m);
      assert s == s - {x} + {x};
      assert IsLeast(s, if x < m then x else m);
    }
  }

  /** The first key of an ordered map. */
  function Least(s: set<u32>): (m: u32)
    requires s != {}
    ensures m in s && forall k :: k in s ==> m <= k
  {
    assert exists m :: m in s && forall k :: k in s ==> m <= k by {
      LeastExists(s);
      var m :| IsLeast(s, m);
    }
    var m :| m in s && forall k :: k in s ==> m <= k;
    m
  }

  ghost predicate IsFarthest(s: set<u32>, next: u32, m: u32) {
    m in s && forall k :: k in s ==> WrapSub(k, next) <= WrapSub(m, next)
  }

  lemma {:induction false} FarthestExists(s: set<u32>, next: u32)
    requires s != {}
    ensures exists m :: IsFarthest(s, next, m)
  {
    var x :| x in s;
    if s == {x} {
      assert IsFarthest(s, next, x);
    } else {
      FarthestExists(s - {x}, next);
      var m :| IsFarthest(s - {x}, next, m);
      assert s == s - {x} + {x};
      assert IsFarthest(s, next, if WrapSub(m, next) < WrapSub(x, next) then x else m);
    }
  }

  /** How many frames a drain from `next` will deliver: up to and including the farthest packet. */
  ghost function Distance(s: set<u32>, next: u32): (d: nat)
    ensures s == {} <==> d == 0
    ensures forall k :: k in s ==> WrapSub(k, next) < d
    ensures s != {} ==> exists k :: k in s && d == 1 + WrapSub(k, next)
  {
    if s == {} then 0 else
    FarthestExists(s, next);
    var m :| IsFarthest(s, next, m);
    1 + WrapSub(m, next)
  }

  /** Delivering one frame brings the end of the drain nearer by exactly one. */
  lemma DistanceShrinks(s: set<u32>, next: u32)
    requires s != {}
    ensures Distance(s - {next}, WrapAdd(next, 1)) == Distance(s, next) - 1
  {
    var t, n := s - {next}, WrapAdd(next, 1);
    assert forall k :: k in t ==> WrapSub(k, n) == WrapSub(k, next) - 1;
    var far :| far in s && Distance(s, next) == 1 + WrapSub(far, next);
    if t == {} {
      assert far == next;
    } else {
      var near :| near in t;
      assert WrapSub(near, next) < Distance(s, next);
      assert far in t;
      var m :| m in t && Distance(t, n) == 1 + WrapSub(m, n);
    }
  }

  // ---------------------------------------------------------------- single operations

  /** Drop the smallest keys until at most `max` packets remain. */
  function Trim(b: Buffer, max: nat): (r: Buffer)
    ensures |r| <= max && r.Keys <= b.Keys && forall k :: k in r ==> r[k] == b[k]
    ensures |b| <= max ==> r == b
    decreases |b|
  {
    if |b| <= max then b else
    var k := Least(b.Keys);
    var b' := b - {k};
    assert b'.Keys == b.Keys - {k};
    Trim(b', max)
  }

  predicate Late(st: State, sequence: u32) {
    !st.buffering && st.next.Some? && 0 < WrapSub(st.next.value, sequence) < LATE_WINDOW
  }

  function Push(st: State, targetDelay: nat, sequence: u32, data: seq<byte>): State {
    if Late(st, sequence) then st
    else st.(buffer := Trim(st.buffer[sequence := data], 4 * targetDelay))
  }

  /** Playback begins once enough packets are there, with the smallest sequence number among them. */
  function Start(st: State, targetDelay: nat): State {
    if !st.buffering || |st.buffer| < targetDelay then st
    else if st.buffer == map[] then st.(buffering := false)
    else st.(buffering := false, next := Some(Least(st.buffer.Keys)))
  }

  function PopStarted(st: State): (State, Option<Frame>) {
    if st.next.None? || st.buffer == map[] then (st, None)
    else
      var n := st.next.value;
      (State(st.buffer - {n}, Some(WrapAdd(n, 1)), st.buffering),
       Some(if n in st.buffer then Ready(st.buffer[n]) else Lost))
  }

  function Pop(st: State, targetDelay: nat): (State, Option<Frame>) {
    var st1 := Start(st, targetDelay);
    if st1.buffering then (st1, None) else PopStarted(st1)
  }

  const EMPTY := State(map[], None, true)

  /** At most four times the target delay is buffered; playback position and phase go together. */
  ghost predicate Valid(st: State, targetDelay: nat) {
    |st.buffer| <= 4 * targetDelay && (st.buffering <==> st.next.None?)
  }

  // ---------------------------------------------------------------- draining

  /** The frame a started buffer delivers d steps after its playback position. */
  function FrameAt(b: Buffer, next: u32, d: nat): Frame {
    var s := WrapAdd(next, d);
    if s in b then Ready(b[s]) else Lost
  }

  datatype Item = Item(sequence: u32, frame: Frame)

  /** Consecutive sequence numbers from `next` up to the farthest packet held. */
  ghost function Items(b: Buffer, next: u32): (items: seq<Item>)
    ensures |items| == Distance(b.Keys, next)
  {
    seq(Distance(b.Keys, next), d requires 0 <= d < Distance(b.Keys, next) => Item(WrapAdd(next, d), FrameAt(b, next, d)))
  }

  /** Everything a drain delivers. */
  ghost function Drained(st: State, targetDelay: nat): (items: seq<Item>) {
    var st1 := Start(st, targetDelay);
    if st1.buffering || st1.next.None? then [] else Items(st1.buffer, st1.next.value)
  }

  ghost function AfterDrain(st: State, targetDelay: nat): State {
    var st1 := Start(st, targetDelay);
    if st1.buffering || st1.next.None? then st1
    else
      var n := st1.next.value;
      State(map[], Some(WrapAdd(n, Distance(st1.buffer.Keys, n))), false)
  }

  /** The buffer as the client keeps it. */
  class JitterBuffer {
    var buffer: Buffer
    var next: Option<u32>
    var buffering: bool
    const targetDelay: nat
    const maxBuffer: nat

    ghost function St(): State
      reads this
    {
      State(buffer, next, buffering)
    }

    ghost predicate Sized() {
      maxBuffer == 4 * targetDelay
    }

    constructor (targetDelay: nat)
      ensures Sized() && this.targetDelay == targetDelay
      ensures St() == EMPTY
    {
      buffer, next, buffering := map[], None, true;
      this.targetDelay := targetDelay;
      maxBuffer := targetDelay * 4;
    }

    method PushPacket(sequence: u32, opusData: seq<byte>)
      requires Sized()
      modifies this
      ensures St() == Push(old(St()), targetDelay, sequence, opusData)
    {
      if !buffering {
        if next.Some? {
          var distance := WrapSub(next.value, sequence);
          if distance > 0 && distance < LATE_WINDOW {
            return;
          }
        }
      }
      buffer := buffer[sequence := opusData];
      ghost var full := buffer;
      while |buffer| > maxBuffer
        invariant Trim(buffer, maxBuffer) == Trim(full, maxBuffer)
        invariant next == old(next) && buffering == old(buffering)
        decreases |buffer|
      {
        var first := Least(buffer.Keys);
        ghost var before := buffer;
        buffer := buffer - {first};
        assert buffer.Keys == before.Keys - {first};
      }
    }

    method PopFrame() returns (frame: Option<Frame>)
      modifies this
      ensures (St(), frame) == Pop(old(St()), targetDelay)
    {
      if buffering {
        if |buffer| >= targetDelay {
          buffering := false;
          if buffer != map[] {
            next := Some(Least(buffer.Keys));
          } else {
            return None;
          }
        } else {
          return None;
        }
      }
      if next.None? {
        return None;
      }
      var n := next.value;
      if n in buffer {
        var data := buffer[n];
        buffer := buffer - {n};
        next := Some(WrapAdd(n, 1));
        return Some(Ready(data));
      } else if buffer != map[] {
        assert buffer - {n} == buffer;
        next := Some(WrapAdd(n, 1));
        return Some(Lost);
      } else {
        return None;
      }
    }

    method Reset()
      modifies this
      ensures St() == EMPTY
    {
      buffer := map[];
      next := None;
      buffering := true;
    }

    /**
     Pop until nothing is left. The loop ends although each round may only report a loss: the
     farthest packet comes nearer with every round.
     */
    method Drain() returns (frames: seq<Frame>)
      modifies this
      ensures St() == AfterDrain(old(St()), targetDelay)
      ensures frames == Frames(Drained(old(St()), targetDelay))
    {
      frames := [];
      while true
        invariant frames + Frames(Drained(St(), targetDelay)) == Frames(Drained(old(St()), targetDelay))
        invariant AfterDrain(St(), targetDelay) == AfterDrain(old(St()), targetDelay)
        decreases |Drained(St(), targetDelay)|
      {
        DrainStep(St(), targetDelay);
        var frame := PopFrame();
        if frame.None? {
          break;
        }
        frames := frames + [frame.value];
      }
    }
  }

  /** Only what a listener hears of the delivered items. */
  function Frames(items: seq<Item>): (fs: seq<Frame>)
    ensures |fs| == |items|
  {
    seq(|items|, i requires 0 <= i < |items| => items[i].frame)
  }

  /** One pop is the first step of a drain. */
  lemma DrainStep(st: State, targetDelay: nat)
    ensures var (st', frame) := Pop(st, targetDelay);
            if frame.None? then Drained(st, targetDelay) == [] && AfterDrain(st, targetDelay) == st'
            else
              && AfterDrain(st', targetDelay) == AfterDrain(st, targetDelay)
              && Drained(st, targetDelay) != [] && Drained(st, targetDelay)[0].frame == frame.value
              && Drained(st, targetDelay)[1..] == Drained(st', targetDelay)
              && Frames(Drained(st, targetDelay)) == [frame.value] + Frames(Drained(st', targetDelay))
  {
    var st1 := Start(st, targetDelay);
    var (st', frame) := Pop(st, targetDelay);
    if frame.Some? {
      ItemsStep(st1.buffer, st1.next.value);
    }
  }

  lemma ItemsStep(b: Buffer, n: u32)
    requires b != map[]
    ensures Items(b, n) == [Item(n, FrameAt(b, n, 0))] + Items(b - {n}, WrapAdd(n, 1))
    ensures WrapAdd(WrapAdd(n, 1), Distance((b - {n}).Keys, WrapAdd(n, 1))) == WrapAdd(n, Distance(b.Keys, n))
  {
    hide WrapAdd, Distance;
    var b', n' := b - {n}, WrapAdd(n, 1);
    assert b'.Keys == b.Keys - {n};
    assert b.Keys != {} by {
      var k :| k in b;
    }
    DistanceShrinks(b.Keys, n);
    AddNothing(n);
    var all, rest := Items(b, n), Items(b', n');
    forall d | 0 <= d < |rest|
      ensures all[d + 1] == rest[d]
    {
      AddAdd(n, d);
      NoWrapAround(n, d + 1, b.Keys);
    }
    AddAdd(n, |rest|);
  }

  lemma AddNothing(n: u32)
    ensures WrapAdd(n, 0) == n
  {
  }

  lemma AddAdd(n: u32, d: nat)
    ensures WrapAdd(WrapAdd(n, 1), d) == WrapAdd(n, d + 1)
  {
    AddAssociates(n, 1, d);
  }

  /** A drain never comes round to where it began: no distance exceeds 2^32. */
  lemma NoWrapAround(n: u32, d: nat, s: set<u32>)
    requires 0 < d < Distance(s, n)
    ensures WrapAdd(n, d) != n
  {
  }

  /** Playback has begun, or begins with the next pop. */
  predicate Plays(st: State, targetDelay: nat) {
    !st.buffering || |st.buffer| >= targetDelay
  }

  /** Every packet held when a drain of a buffer that plays begins is delivered, once and in its place. */
  lemma EveryHeldPacketIsDelivered(st: State, targetDelay: nat, sequence: u32)
    requires Valid(st, targetDelay) && Plays(st, targetDelay) && sequence in st.buffer
    ensures var st1, items := Start(st, targetDelay), Drained(st, targetDelay);
            && st1.next.Some?
            && var d := WrapSub(sequence, st1.next.value);
               && d < |items| && items[d] == Item(sequence, Ready(st.buffer[sequence]))
               && forall k :: 0 <= k < |items| && items[k].sequence == sequence ==> k == d
  {
    var n := Start(st, targetDelay).next.value;
    var d := WrapSub(sequence, n);
    assert WrapAdd(n, d) == sequence;
    forall k | 0 <= k < |Drained(st, targetDelay)| && k != d
      ensures WrapAdd(n, k) != sequence
    {
    }
  }

  // ---------------------------------------------------------------- the first drain

  /** Until as many packets as the target delay have come in, a drain delivers nothing and changes nothing. */
  lemma NothingBeforeTheDelay(st: State, targetDelay: nat)
    requires st.buffering && |st.buffer| < targetDelay
    ensures Drained(st, targetDelay) == [] && AfterDrain(st, targetDelay) == st
  {
  }

  ghost predicate IsGreatest(s: set<u32>, m: u32) {
    m in s && forall k :: k in s ==> k <= m
  }

  /**
   The first drain goes from the numerically smallest sequence number held to the largest, whichever
   was sent first: as many frames as there are numbers between them.
   */
  lemma FirstDrainSpans(st: State, targetDelay: nat, lo: u32, hi: u32)
    requires st.buffering && |st.buffer| >= targetDelay && IsLeast(st.buffer.Keys, lo) && IsGreatest(st.buffer.Keys, hi)
    ensures var items := Drained(st, targetDelay);
            && |items| == hi - lo + 1
            && forall d :: 0 <= d < |items| ==>
                 items[d] == Item(lo + d, if lo + d in st.buffer then Ready(st.buffer[lo + d]) else Lost)
  {
    var s := st.buffer.Keys;
    assert lo in st.buffer && Least(s) == lo;
    assert Start(st, targetDelay).next == Some(lo);
    var far :| far in s && Distance(s, lo) == 1 + WrapSub(far, lo);
    assert WrapSub(hi, lo) < Distance(s, lo);
    forall d | 0 <= d < hi - lo + 1
      ensures WrapAdd(lo, d) == lo + d
    {
    }
  }

  /** Exactly the m packets from sequence number f on are held, none missing, as after a talk spurt begins. */
  ghost predicate HoldsBurst(b: Buffer, f: u32, m: nat) {
    forall k: u32 :: k in b <==> WrapSub(k, f) < m
  }

  /**
   A first burst that does not straddle the wrap of the sequence numbers is played in order and alone.
   One that does floods the first drain: 2^32 frames, the packets after the wrap first, those before
   it last, and nothing but losses between them.
   */
  lemma FirstBurst(st: State, targetDelay: nat, f: u32, m: nat)
    requires st.buffering && |st.buffer| >= targetDelay && 0 < m <= U32 && HoldsBurst(st.buffer, f, m)
    ensures var items := Drained(st, targetDelay);
            if f + m <= U32 then
              |items| == m && forall i: u32 :: i < m ==> f + i in st.buffer && items[i] == Item(f + i, Ready(st.buffer[f + i]))
            else
              && |items| == U32
              && (forall k: u32 :: k in st.buffer <==> k < f + m - U32 || f <= k)
              && forall k: u32 :: k < U32 ==> items[k] == Item(k, if k in st.buffer then Ready(st.buffer[k]) else Lost)
  {
    hide Drained;
    BurstKeys(st.buffer, f, m);
    if f + m <= U32 {
      FirstDrainSpans(st, targetDelay, f, f + m - 1);
    } else {
      FirstDrainSpans(st, targetDelay, 0, U32 - 1);
    }
  }

  lemma BurstKeys(b: Buffer, f: u32, m: nat)
    requires 0 < m <= U32 && HoldsBurst(b, f, m)
    ensures if f + m <= U32 then
              && (forall k: u32 :: k in b <==> f <= k < f + m)
              && IsLeast(b.Keys, f) && IsGreatest(b.Keys, f + m - 1)
            else
              && (forall k: u32 :: k in b <==> k < f + m - U32 || f <= k)
              && IsLeast(b.Keys, 0) && IsGreatest(b.Keys, U32 - 1)
  {
    forall k: u32
      ensures k in b <==> if f + m <= U32 then f <= k < f + m else k < f + m - U32 || f <= k
    {
      assert WrapSub(k, f) == if f <= k then k - f else k - f + U32;
    }
  }

  /** The packet is among those held, or there is room for it. */
  predicate HasRoom(st: State, targetDelay: nat, sequence: u32) {
    sequence in st.buffer || |st.buffer| < 4 * targetDelay
  }

  /**
   When a push to a started buffer changes nothing: the packet is late, which is 1 to 999 behind the
   playback position, neither at it nor further behind; or it is already held; or the buffer is full
   and the packet would be the first to be dropped.
   */
  lemma PushIsIgnoredIff(st: State, targetDelay: nat, k: nat, data: seq<byte>)
    requires Valid(st, targetDelay) && !st.buffering && k < U32
    ensures var sequence := WrapSub(st.next.value, k);
            Push(st, targetDelay, sequence, data) == st <==>
            || 1 <= k <= 999
            || (sequence in st.buffer && st.buffer[sequence] == data)
            || (sequence !in st.buffer && |st.buffer| >= 4 * targetDelay && forall o :: o in st.buffer ==> sequence < o)
  {
    var sequence := WrapSub(st.next.value, k);
    assert WrapSub(st.next.value, sequence) == k;
    var b := st.buffer[sequence := data];
    if k == 0 || k >= LATE_WINDOW {
      if HasRoom(st, targetDelay, sequence) {
        SizeWith(st.buffer, sequence, data);
        assert b[sequence] == data;
        assert sequence in st.buffer && st.buffer[sequence] == data ==> b == st.buffer;
      } else {
        TrimOfOneMore(st.buffer, sequence, data, 4 * targetDelay);
      }
    }
  }

  lemma SizeWith(b: Buffer, sequence: u32, data: seq<byte>)
    ensures |b[sequence := data]| == if sequence in b then |b| else |b| + 1
  {
    assert b[sequence := data].Keys == b.Keys + {sequence};
  }

  lemma TrimDropsLeast(b: Buffer, max: nat)
    requires |b| == max + 1
    ensures Trim(b, max) == b - {Least(b.Keys)}
  {
    var b' := b - {Least(b.Keys)};
    assert b'.Keys == b.Keys - {Least(b.Keys)};
    assert Trim(b', max) == b';
  }

  /** A full buffer gives up its smallest key for a new one, which may be the new one itself. */
  lemma TrimOfOneMore(b: Buffer, sequence: u32, data: seq<byte>, max: nat)
    requires |b| == max && sequence !in b
    ensures Trim(b[sequence := data], max) == b <==> forall o :: o in b ==> sequence < o
  {
    var b1 := b[sequence := data];
    SizeWith(b, sequence, data);
    TrimDropsLeast(b1, max);
    hide Trim;
    var least := Least(b1.Keys);
    assert least in b1 && forall o :: o in b1 ==> least <= o;
    hide Least;
    if forall o :: o in b ==> sequence < o {
      assert sequence in b1 && least == sequence;
      assert b1 - {sequence} == b;
    } else {
      var o :| o in b && o <= sequence;
      assert o != sequence && o in b1 && least != sequence;
      assert sequence in b1 - {least};
    }
  }

  function Max(a: nat, b: nat): nat {
    if a < b then b else a
  }

  lemma DistanceWith(s: set<u32>, next: u32, k: u32)
    ensures Distance(s + {k}, next) == Max(Distance(s, next), 1 + WrapSub(k, next))
  {
    var t := s + {k};
    var far :| far in t && Distance(t, next) == 1 + WrapSub(far, next);
    assert WrapSub(k, next) < Distance(t, next);
    if s != {} {
      var m :| m in s && Distance(s, next) == 1 + WrapSub(m, next);
      assert m in t && WrapSub(m, next) < Distance(t, next);
      if far in s {
        assert WrapSub(far, next) < Distance(s, next);
      }
    }
  }

  lemma AheadAndBehind(n: u32, k: nat, d: nat)
    requires 0 < k < U32 && d < U32
    ensures WrapSub(WrapSub(n, k), n) == U32 - k
    ensures WrapAdd(n, d) == WrapSub(n, k) <==> d == U32 - k
  {
  }

  /** What a started buffer delivers that holds a packet k behind its playback position. */
  lemma ItemsWithOldPacket(b: Buffer, n: u32, k: nat)
    requires 0 < k < U32 && WrapSub(n, k) in b
    ensures var sequence := WrapSub(n, k);
            var kept, items := b - {sequence}, Items(b, n);
            && |items| == Max(Distance(kept.Keys, n), U32 - k + 1)
            && items[U32 - k] == Item(sequence, Ready(b[sequence]))
            && forall d :: 0 <= d < |items| && d != U32 - k ==> items[d] == Item(WrapAdd(n, d), FrameAt(kept, n, d))
  {
    var sequence := WrapSub(n, k);
    var kept, items := b - {sequence}, Items(b, n);
    AheadAndBehind(n, k, U32 - k);
    assert b.Keys == kept.Keys + {sequence};
    DistanceWith(kept.Keys, n, sequence);
    DistanceFits(kept.Keys, n);
    hide Distance;
    forall d | 0 <= d < |items| && d != U32 - k
      ensures items[d] == Item(WrapAdd(n, d), FrameAt(kept, n, d))
    {
      AheadAndBehind(n, k, d);
    }
  }

  /** What is held besides the packet just pushed; a full buffer has given up its smallest key. */
  function HeldBesides(st: State, targetDelay: nat, sequence: u32, data: seq<byte>): Buffer {
    Push(st, targetDelay, sequence, data).buffer - {sequence}
  }

  /**
   A packet k >= 1000 behind the playback position that is not dropped at once is taken to be 2^32 - k
   ahead. The next drain goes on until it is reached, which takes 2^32 - k + 1 frames, or as many as
   are due anyway if those are more; every frame that is not held is lost, but for this one.
   */
  lemma OldPacketFloodsDrain(st: State, targetDelay: nat, k: nat, data: seq<byte>)
    requires Valid(st, targetDelay) && !st.buffering && 1000 <= k < U32
    requires var sequence := WrapSub(st.next.value, k); sequence in Push(st, targetDelay, sequence, data).buffer
    ensures var n, sequence := st.next.value, WrapSub(st.next.value, k);
            var kept := HeldBesides(st, targetDelay, sequence, data);
            var items := Drained(Push(st, targetDelay, sequence, data), targetDelay);
            && |items| == Max(Distance(kept.Keys, n), U32 - k + 1)
            && items[U32 - k] == Item(sequence, Ready(data))
            && (forall d :: 0 <= d < |items| && d != U32 - k ==> items[d] == Item(WrapAdd(n, d), FrameAt(kept, n, d)))
            && (HasRoom(st, targetDelay, sequence) ==> kept == st.buffer - {sequence})
            && (st.buffer == map[] ==>
                  |items| == U32 - k + 1 && forall d :: 0 <= d < U32 - k ==> items[d].frame == Lost)
  {
    hide Items, FrameAt;
    var n, sequence := st.next.value, WrapSub(st.next.value, k);
    var b, kept := Push(st, targetDelay, sequence, data).buffer, HeldBesides(st, targetDelay, sequence, data);
    SizeWith(st.buffer, sequence, data);
    LateAgain(n, k);
    assert b[sequence] == data;
    ItemsWithOldPacket(b, n, k);
    if st.buffer == map[] {
      assert kept == map[];
      forall d | 0 <= d < U32 - k
        ensures FrameAt(kept, n, d) == Lost
      {
        NothingHeld(n, d);
      }
    }
  }

  lemma LateAgain(n: u32, k: nat)
    requires 0 < k < U32
    ensures WrapSub(n, WrapSub(n, k)) == k
  {
  }

  lemma NothingHeld(n: u32, d: nat)
    ensures FrameAt(map[], n, d) == Lost
  {
  }

  lemma DistanceFits(s: set<u32>, next: u32)
    ensures Distance(s, next) <= U32
  {
  }

  // ---------------------------------------------------------------- runs

  datatype Op = PushOp(sequence: u32, data: seq<byte>) | DrainOp | ResetOp

  ghost function Step(st: State, targetDelay: nat, op: Op): (State, seq<Item>) {
    match op
    case PushOp(s, d) => (Push(st, targetDelay, s, d), [])
    case DrainOp => (AfterDrain(st, targetDelay), Drained(st, targetDelay))
    case ResetOp => (EMPTY, [])
  }

  ghost function Run(st: State, targetDelay: nat, ops: seq<Op>): (State, seq<Item>)
    decreases |ops|
  {
    if ops == [] then (st, []) else
    var (st1, items) := Step(st, targetDelay, ops[0]);
    var (st2, rest) := Run(st1, targetDelay, ops[1..]);
    (st2, items + rest)
  }

  lemma StepKeepsValid(st: State, targetDelay: nat, op: Op)
    requires targetDelay >= 1 && Valid(st, targetDelay)
    ensures Valid(Step(st, targetDelay, op).0, targetDelay)
  {
  }

  /** Sequence numbers counting up from `first`, modulo 2^32. */
  ghost predicate CountsUp(items: seq<Item>, first: u32) {
    forall k :: 0 <= k < |items| ==> items[k].sequence == WrapAdd(first, k)
  }

  lemma CountsFromFirst(items: seq<Item>, first: u32)
    requires CountsUp(items, first)
    ensures items != [] ==> CountsUp(items, items[0].sequence)
  {
    if items != [] {
      assert items[0].sequence == WrapAdd(first, 0) == first;
    }
  }

  /** Items counting up to the new playback position. */
  ghost predicate LeadsTo(items: seq<Item>, first: u32, st: State) {
    CountsUp(items, first) && st.next == Some(WrapAdd(first, |items|))
  }

  /** A started step continues at the playback position and moves it past what it delivers. */
  lemma StartedStep(st: State, targetDelay: nat, op: Op)
    requires Valid(st, targetDelay) && st.next.Some? && op != ResetOp
    ensures LeadsTo(Step(st, targetDelay, op).1, st.next.value, Step(st, targetDelay, op).0)
  {
    hide LeadsTo, Push, AfterDrain, Drained;
    match op
    case PushOp(s, d) => PushLeadsNowhere(st, targetDelay, s, d);
    case DrainOp => StartedDrain(st, targetDelay);
  }

  lemma PushLeadsNowhere(st: State, targetDelay: nat, sequence: u32, data: seq<byte>)
    requires st.next.Some?
    ensures LeadsTo([], st.next.value, Push(st, targetDelay, sequence, data))
  {
    hide WrapAdd, Late, Trim;
    AddNothing(st.next.value);
  }

  lemma StartedDrain(st: State, targetDelay: nat)
    requires !st.buffering && st.next.Some?
    ensures LeadsTo(Drained(st, targetDelay), st.next.value, AfterDrain(st, targetDelay))
  {
    hide WrapAdd, FrameAt, Distance;
  }

  lemma LeadsOn(a: seq<Item>, b: seq<Item>, first: u32, st1: State, st2: State)
    requires LeadsTo(a, first, st1) && LeadsTo(b, st1.next.value, st2)
    ensures LeadsTo(a + b, first, st2)
  {
    forall k | 0 <= k < |a + b|
      ensures (a + b)[k].sequence == WrapAdd(first, k)
    {
      if k >= |a| {
        AddAssociates(first, |a|, k - |a|);
      }
    }
    AddAssociates(first, |a|, |b|);
  }

  lemma AddAssociates(n: u32, a: nat, b: nat)
    ensures WrapAdd(WrapAdd(n, a), b) == WrapAdd(n, a + b)
  {
    var k, r: u32 := (n + a) / 0x1_0000_0000, Wrap32(n + a);
    var j, t: u32 := (r + b) / 0x1_0000_0000, Wrap32(r + b);
    hide Wrap32;
    WrapIs(n + (a + b), k + j, t);
  }

  /**
   From a started buffer on, the delivered sequence numbers are consecutive modulo 2^32 until the
   next reset, whatever is pushed: nothing is delivered twice, out of order, or silently skipped.
   */
  lemma {:induction false} StartedDelivery(st: State, targetDelay: nat, ops: seq<Op>)
    requires targetDelay >= 1 && Valid(st, targetDelay) && st.next.Some?
    requires ResetOp !in ops
    ensures LeadsTo(Run(st, targetDelay, ops).1, st.next.value, Run(st, targetDelay, ops).0)
    decreases |ops|
  {
    if ops != [] {
      var (st1, now) := Step(st, targetDelay, ops[0]);
      StepKeepsValid(st, targetDelay, ops[0]);
      StartedStep(st, targetDelay, ops[0]);
      StartedDelivery(st1, targetDelay, ops[1..]);
      var (st2, later) := Run(st1, targetDelay, ops[1..]);
      LeadsOn(now, later, st.next.value, st1, st2);
    }
  }

  /** The step that starts playback delivers from the smallest sequence number buffered on. */
  lemma StartingStep(st: State, targetDelay: nat, op: Op)
    requires targetDelay >= 1 && Valid(st, targetDelay) && st.next.None? && op != ResetOp
    ensures var (st1, items) := Step(st, targetDelay, op);
            if st1.next.None? then items == []
            else st.buffer != map[] && |st.buffer| >= targetDelay && LeadsTo(items, Least(st.buffer.Keys), st1)
  {
  }

  /** The same for a buffer that has not started: everything delivered up to the next reset counts up. */
  lemma {:induction false} DeliveryIsConsecutive(st: State, targetDelay: nat, ops: seq<Op>)
    requires targetDelay >= 1 && Valid(st, targetDelay)
    requires ResetOp !in ops
    ensures var items := Run(st, targetDelay, ops).1;
            items != [] ==> CountsUp(items, items[0].sequence)
    decreases |ops|
  {
    if st.next.Some? {
      StartedDelivery(st, targetDelay, ops);
      CountsFromFirst(Run(st, targetDelay, ops).1, st.next.value);
    } else if ops != [] {
      var (st1, now) := Step(st, targetDelay, ops[0]);
      StepKeepsValid(st, targetDelay, ops[0]);
      StartingStep(st, targetDelay, ops[0]);
      if st1.next.None? {
        DeliveryIsConsecutive(st1, targetDelay, ops[1..]);
        assert now + Run(st1, targetDelay, ops[1..]).1 == Run(st1, targetDelay, ops[1..]).1;
      } else {
        StartedDelivery(st1, targetDelay, ops[1..]);
        var (st2, later) := Run(st1, targetDelay, ops[1..]);
        LeadsOn(now, later, Least(st.buffer.Keys), st1, st2);
        CountsFromFirst(now + later, Least(st.buffer.Keys));
      }
    }
  }

  /** At most 4 * targetDelay packets are ever held, resets included. */
  lemma {:induction false} BufferStaysBounded(st: State, targetDelay: nat, ops: seq<Op>)
    requires targetDelay >= 1 && Valid(st, targetDelay)
    ensures |Run(st, targetDelay, ops).0.buffer| <= 4 * targetDelay
    ensures Valid(Run(st, targetDelay, ops).0, targetDelay)
    decreases |ops|
  {
    if ops != [] {
      StepKeepsValid(st, targetDelay, ops[0]);
      BufferStaysBounded(Step(st, targetDelay, ops[0]).0, targetDelay, ops[1..]);
    }
  }

  /** Sound is never invented: what is delivered as ready was pushed under that sequence number. */
  ghost predicate WasPushed(st: State, ops: seq<Op>, item: Item) {
    item.frame.Ready? ==>
      || PushOp(item.sequence, item.frame.data) in ops
      || (item.sequence in st.buffer && st.buffer[item.sequence] == item.frame.data)
  }

  lemma StepDeliversPushed(st: State, targetDelay: nat, op: Op)
    ensures forall item :: item in Step(st, targetDelay, op).1 ==> WasPushed(st, [], item)
    ensures forall item :: WasPushed(Step(st, targetDelay, op).0, [], item) ==> WasPushed(st, [op], item)
  {
  }

  lemma {:induction false} DeliveredDataWasPushed(st: State, targetDelay: nat, ops: seq<Op>)
    ensures forall item :: item in Run(st, targetDelay, ops).1 ==> WasPushed(st, ops, item)
    decreases |ops|
  {
    if ops != [] {
      var (st1, now) := Step(st, targetDelay, ops[0]);
      var (st2, later) := Run(st1, targetDelay, ops[1..]);
      StepDeliversPushed(st, targetDelay, ops[0]);
      DeliveredDataWasPushed(st1, targetDelay, ops[1..]);
      forall item | item in now + later
        ensures WasPushed(st, ops, item)
      {
        if item in now {
          assert WasPushed(st, [], item);
        } else {
          assert WasPushed(st1, ops[1..], item);
          assert WasPushed(st1, [], item) ==> WasPushed(st, [ops[0]], item);
        }
      }
    }
  }

  // ---------------------------------------------------------------- a stream without loss

  /** The operations push the packets numbered n, n + 1, ... in this order, with drains anywhere between. */
  predicate Feeds(ops: seq<Op>, n: u32)
    decreases |ops|
  {
    ops == [] ||
    match ops[0]
    case PushOp(s, _) => s == n && Feeds(ops[1..], WrapAdd(n, 1))
    case DrainOp => Feeds(ops[1..], n)
    case ResetOp => false
  }

  /** The packets pushed, as they are to be played. */
  function Played(ops: seq<Op>): seq<Item>
    decreases |ops|
  {
    if ops == [] then []
    else (if ops[0].PushOp? then [Item(ops[0].sequence, Ready(ops[0].data))] else []) + Played(ops[1..])
  }

  /**
   With `held` packets waiting, no more than the buffer takes ever wait for the next drain: four times
   the target delay, and never so many that the newest would look late.
   */
  predicate KeepsUp(ops: seq<Op>, held: nat, targetDelay: nat)
    decreases |ops|
  {
    ops == [] ||
    match ops[0]
    case PushOp(_, _) => held < 4 * targetDelay && held <= U32 - 1000 && KeepsUp(ops[1..], held + 1, targetDelay)
    case DrainOp => KeepsUp(ops[1..], 0, targetDelay)
    case ResetOp => true
  }

  /** The buffer is playing and holds exactly these packets, from the playback position on. */
  ghost predicate Holds(st: State, n: u32, items: seq<Item>) {
    && !st.buffering && st.next == Some(n) && |items| <= U32 - 999
    && (forall i :: 0 <= i < |items| ==> items[i].sequence == WrapAdd(n, i) && items[i].frame.Ready?)
    && (forall k: u32 :: k in st.buffer <==> WrapSub(k, n) < |items|)
    && (forall i :: 0 <= i < |items| ==> st.buffer[items[i].sequence] == items[i].frame.data)
    && |st.buffer| == |items|
  }

  lemma OffsetOf(n: u32, d: nat)
    requires d < U32
    ensures WrapSub(WrapAdd(n, d), n) == d
  {
  }

  lemma OffsetIs(n: u32, k: u32)
    ensures WrapAdd(n, WrapSub(k, n)) == k
  {
  }

  /** The next packet in order is taken as long as there is room. */
  lemma NextIsHeld(st: State, targetDelay: nat, n: u32, items: seq<Item>, data: seq<byte>)
    requires Holds(st, n, items) && |items| < 4 * targetDelay && |items| <= U32 - 1000
    ensures var s := WrapAdd(n, |items|);
            Holds(Push(st, targetDelay, s, data), n, items + [Item(s, Ready(data))])
  {
    var s := WrapAdd(n, |items|);
    var st', items' := Push(st, targetDelay, s, data), items + [Item(s, Ready(data))];
    OffsetOf(n, |items|);
    SizeWith(st.buffer, s, data);
    NotLate(n, |items|);
    assert st'.buffer == st.buffer[s := data];
    hide Trim;
    forall k: u32
      ensures k in st'.buffer <==> WrapSub(k, n) < |items'|
    {
      OffsetIs(n, k);
    }
    forall i | 0 <= i < |items|
      ensures items[i].sequence != s
    {
      OffsetOf(n, i);
    }
  }

  lemma NotLate(n: u32, d: nat)
    requires d <= U32 - 1000
    ensures !(0 < WrapSub(n, WrapAdd(n, d)) < 1000)
  {
  }

  /** A drain plays exactly what is held and leaves the buffer playing, empty, behind it. */
  lemma HeldIsPlayed(st: State, targetDelay: nat, n: u32, items: seq<Item>)
    requires Holds(st, n, items)
    ensures Drained(st, targetDelay) == items
    ensures Holds(AfterDrain(st, targetDelay), WrapAdd(n, |items|), [])
  {
    var s := st.buffer.Keys;
    HeldDistance(st, n, items);
    hide Distance;
    var all := Drained(st, targetDelay);
    assert |all| == |items|;
    forall d | 0 <= d < |items|
      ensures all[d] == items[d]
    {
      OffsetOf(n, d);
    }
  }

  lemma HeldDistance(st: State, n: u32, items: seq<Item>)
    requires Holds(st, n, items)
    ensures Distance(st.buffer.Keys, n) == |items|
  {
    var s := st.buffer.Keys;
    if items != [] {
      var last := WrapAdd(n, |items| - 1);
      OffsetOf(n, |items| - 1);
      assert last in s;
      assert WrapSub(last, n) < Distance(s, n);
      var far :| far in s && Distance(s, n) == 1 + WrapSub(far, n);
      assert far in st.buffer;
    } else {
      assert s == {} by {
        assert forall k: u32 :: k in s ==> k in st.buffer && WrapSub(k, n) < 0;
      }
    }
  }

  lemma LastDrain(st: State, targetDelay: nat)
    ensures Run(st, targetDelay, [] + [DrainOp]).1 == Drained(st, targetDelay)
  {
    hide AfterDrain, Drained;
    var ops: seq<Op> := [] + [DrainOp];
    assert ops[1..] == [];
  }

  lemma DrainedThen(st: State, targetDelay: nat, ops: seq<Op>, n: u32)
    requires ops != [] && ops[0] == DrainOp && Feeds(ops, n)
    ensures Feeds(ops[1..], n) && Played(ops) == Played(ops[1..])
    ensures Run(st, targetDelay, ops + [DrainOp]).1
            == Drained(st, targetDelay) + Run(AfterDrain(st, targetDelay), targetDelay, ops[1..] + [DrainOp]).1
  {
    hide AfterDrain, Drained, WrapAdd;
    assert (ops + [DrainOp])[1..] == ops[1..] + [DrainOp];
  }

  lemma {:induction false} StreamPlays(st: State, targetDelay: nat, ops: seq<Op>, n: u32, items: seq<Item>)
    requires Holds(st, n, items) && Feeds(ops, WrapAdd(n, |items|)) && KeepsUp(ops, |items|, targetDelay)
    ensures Run(st, targetDelay, ops + [DrainOp]).1 == items + Played(ops)
    decreases |ops|
  {
    hide Holds, Push, AfterDrain, Drained, WrapAdd, Run;
    if ops == [] {
      HeldIsPlayed(st, targetDelay, n, items);
      LastDrain(st, targetDelay);
    } else if ops[0].PushOp? {
      var data := ops[0].data;
      var items' := items + [Item(WrapAdd(n, |items|), Ready(data))];
      FirstFed(ops, WrapAdd(n, |items|));
      NextIsHeld(st, targetDelay, n, items, data);
      AddAssociates(n, |items|, 1);
      PushedThen(st, targetDelay, ops);
      hide Feeds, Played;
      StreamPlays(Push(st, targetDelay, ops[0].sequence, data), targetDelay, ops[1..], n, items');
      assert items' + Played(ops[1..]) == items + Played(ops);
    } else {
      var n' := WrapAdd(n, |items|);
      HeldIsPlayed(st, targetDelay, n, items);
      DrainedThen(st, targetDelay, ops, n');
      AddNothing(n');
      hide Feeds, Played;
      StreamPlays(AfterDrain(st, targetDelay), targetDelay, ops[1..], n', []);
    }
  }

  // ----- and with loss, where the drains do not keep up -----

  /** Packets pushed later carry later numbers, as long as the numbers do not come round. */
  lemma {:induction false} LaterNumbers(ops: seq<Op>, n: u32, k: nat, op: Op)
    requires Feeds(ops, WrapAdd(n, k)) && k + |Played(ops)| <= U32 && op in ops && op.PushOp?
    ensures k <= WrapSub(op.sequence, n)
    decreases |ops|
  {
    if ops[0].PushOp? {
      if op == ops[0] {
        OffsetOf(n, k);
      } else {
        AddAssociates(n, k, 1);
        LaterNumbers(ops[1..], n, k + 1, op);
      }
    } else {
      LaterNumbers(ops[1..], n, k, op);
    }
  }

  /** A push for which there is no room costs one of the packets that are due. */
  lemma NoRoomCostsOne(st: State, targetDelay: nat, n: u32, items: seq<Item>, data: seq<byte>) returns (p: nat)
    requires Holds(st, n, items) && |items| <= 4 * targetDelay
    requires |items| == 4 * targetDelay || |items| > U32 - 1000
    ensures p <= |items| && WrapAdd(n, p) !in Push(st, targetDelay, WrapAdd(n, |items|), data).buffer
    ensures var due := items + [Item(WrapAdd(n, |items|), Ready(data))];
            due[p].sequence == WrapAdd(n, p) && due[p].frame.Ready?
  {
    var s := WrapAdd(n, |items|);
    OffsetOf(n, |items|);
    if |items| > U32 - 1000 {
      assert Late(st, s);
      p := |items|;
    } else {
      NotLate(n, |items|);
      var b := st.buffer[s := data];
      SizeWith(st.buffer, s, data);
      TrimDropsLeast(b, 4 * targetDelay);
      hide Trim;
      var least := Least(b.Keys);
      assert least in b;
      p := WrapSub(least, n);
      OffsetIs(n, least);
    }
  }

  /** A number that is neither held nor pushed any more is not played. */
  lemma NotHeldNotPlayed(st: State, targetDelay: nat, ops: seq<Op>, item: Item)
    requires item.sequence !in st.buffer && item.frame.Ready?
    requires forall op :: op in ops && op.PushOp? ==> op.sequence != item.sequence
    ensures item !in Run(st, targetDelay, ops).1
  {
    DeliveredDataWasPushed(st, targetDelay, ops);
    hide Run;
    assert item in Run(st, targetDelay, ops).1 ==> WasPushed(st, ops, item);
  }

  lemma NoRoomShows(st: State, targetDelay: nat, ops: seq<Op>, n: u32, items: seq<Item>)
    requires Holds(st, n, items) && |items| <= 4 * targetDelay && |items| + |Played(ops)| <= U32
    requires |items| == 4 * targetDelay || |items| > U32 - 1000
    requires ops != [] && ops[0].PushOp? && Feeds(ops, WrapAdd(n, |items|))
    ensures Run(st, targetDelay, ops + [DrainOp]).1 != items + Played(ops)
  {
    hide Push, WrapAdd, Holds, Feeds, Played, Run;
    FirstFed(ops, WrapAdd(n, |items|));
    var s, data, rest := ops[0].sequence, ops[0].data, ops[1..] + [DrainOp];
    var p := NoRoomCostsOne(st, targetDelay, n, items, data);
    var due := items + [Item(s, Ready(data))];
    AddAssociates(n, |items|, 1);
    LaterAreOthers(ops[1..], n, |items| + 1, p, rest);
    NotHeldNotPlayed(Push(st, targetDelay, s, data), targetDelay, rest, due[p]);
    PushedThen(st, targetDelay, ops);
    assert items + Played(ops) == due + Played(ops[1..]);
    assert due[p] == (due + Played(ops[1..]))[p];
  }

  lemma FirstFed(ops: seq<Op>, n: u32)
    requires ops != [] && ops[0].PushOp? && Feeds(ops, n)
    ensures ops[0].sequence == n && Feeds(ops[1..], WrapAdd(n, 1))
    ensures Played(ops) == [Item(n, Ready(ops[0].data))] + Played(ops[1..])
  {
    hide WrapAdd;
  }

  lemma PushedThen(st: State, targetDelay: nat, ops: seq<Op>)
    requires ops != [] && ops[0].PushOp?
    ensures Run(st, targetDelay, ops + [DrainOp]).1
            == Run(Push(st, targetDelay, ops[0].sequence, ops[0].data), targetDelay, ops[1..] + [DrainOp]).1
  {
    hide Push, AfterDrain, Drained;
    assert (ops + [DrainOp])[1..] == ops[1..] + [DrainOp];
  }

  lemma LaterAreOthers(ops: seq<Op>, n: u32, k: nat, p: nat, rest: seq<Op>)
    requires Feeds(ops, WrapAdd(n, k)) && k + |Played(ops)| <= U32 && p < k && rest == ops + [DrainOp]
    ensures forall op :: op in rest && op.PushOp? ==> op.sequence != WrapAdd(n, p)
  {
    hide WrapAdd, WrapSub, Feeds, Played;
    forall op | op in rest && op.PushOp?
      ensures op.sequence != WrapAdd(n, p)
    {
      LaterNumbers(ops, n, k, op);
      OffsetOf(n, p);
    }
  }

  lemma {:induction false} StreamStalls(st: State, targetDelay: nat, ops: seq<Op>, n: u32, items: seq<Item>)
    requires Holds(st, n, items) && |items| <= 4 * targetDelay && |items| + |Played(ops)| <= U32
    requires Feeds(ops, WrapAdd(n, |items|)) && !KeepsUp(ops, |items|, targetDelay)
    ensures Run(st, targetDelay, ops + [DrainOp]).1 != items + Played(ops)
    decreases |ops|
  {
    hide Holds, Push, AfterDrain, Drained, WrapAdd, Run;
    if ops[0].PushOp? {
      if |items| < 4 * targetDelay && |items| <= U32 - 1000 {
        var data := ops[0].data;
        var items' := items + [Item(WrapAdd(n, |items|), Ready(data))];
        FirstFed(ops, WrapAdd(n, |items|));
        NextIsHeld(st, targetDelay, n, items, data);
        AddAssociates(n, |items|, 1);
        PushedThen(st, targetDelay, ops);
        hide Feeds, Played;
        StreamStalls(Push(st, targetDelay, ops[0].sequence, data), targetDelay, ops[1..], n, items');
        assert items' + Played(ops[1..]) == items + Played(ops);
      } else {
        NoRoomShows(st, targetDelay, ops, n, items);
      }
    } else {
      var n' := WrapAdd(n, |items|);
      HeldIsPlayed(st, targetDelay, n, items);
      DrainedThen(st, targetDelay, ops, n');
      AddNothing(n');
      hide Feeds, Played;
      StreamStalls(AfterDrain(st, targetDelay), targetDelay, ops[1..], n', []);
      var now, due := Run(AfterDrain(st, targetDelay), targetDelay, ops[1..] + [DrainOp]).1, Played(ops[1..]);
      assert (items + now)[|items|..] == now && (items + due)[|items|..] == due;
    }
  }

  /**
   Packets that arrive in order at a buffer that is playing, with drains anywhere between them, are
   played in order, all of them and nothing else, as long as the drains keep up.
   */
  lemma StreamIsPlayed(st: State, targetDelay: nat, ops: seq<Op>, n: u32)
    requires !st.buffering && st.next == Some(n) && st.buffer == map[]
    requires Feeds(ops, n) && KeepsUp(ops, 0, targetDelay)
    ensures Run(st, targetDelay, ops + [DrainOp]).1 == Played(ops)
  {
    AddNothing(n);
    StreamPlays(st, targetDelay, ops, n, []);
  }

  /** And within one round of the sequence numbers, only then. */
  lemma StreamIsPlayedIff(st: State, targetDelay: nat, ops: seq<Op>, n: u32)
    requires !st.buffering && st.next == Some(n) && st.buffer == map[]
    requires Feeds(ops, n) && |Played(ops)| <= U32
    ensures Run(st, targetDelay, ops + [DrainOp]).1 == Played(ops) <==> KeepsUp(ops, 0, targetDelay)
  {
    AddNothing(n);
    if KeepsUp(ops, 0, targetDelay) {
      StreamIsPlayed(st, targetDelay, ops, n);
    } else {
      StreamStalls(st, targetDelay, ops, n, []);
    }
  }
}
