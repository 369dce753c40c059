/**
 Byte streams of NAL units (Annex B of ITU-T H.265): finding start codes, cutting out the parameter
 sets for the decoder, and reading the picture size.
 */
module AnnexB {
  import opened Wrappers
  import opened Bytes
  import opened Bitstream
  import opened Sps

  predicate Code3(data: seq<byte>, p: nat) {
    p + 2 < |data| && data[p] == 0 && data[p + 1] == 0 && data[p + 2] == 1
  }

  predicate Code4(data: seq<byte>, p: nat) {
    p + 3 < |data| && data[p] == 0 && data[p + 1] == 0 && data[p + 2] == 0 && data[p + 3] == 1
  }

  /** A start code begins at p: four bytes, or three bytes that are not the tail of a four-byte one. */
  predicate StartsAt(data: seq<byte>, p: nat) {
    Code4(data, p) || (Code3(data, p) && (p == 0 || data[p - 1] != 0))
  }

  /** All start codes at or after p, in order. */
  function StartCodes(data: seq<byte>, p: nat): (ps: seq<nat>)
    requires p <= |data|
    decreases |data| - p
  {
    if p == |data| then []
    else if StartsAt(data, p) then [p] + StartCodes(data, p + 1)
    else StartCodes(data, p + 1)
  }

  ghost predicate Sorted(data: seq<byte>, ps: seq<nat>) {
    && (forall i :: 0 <= i < |ps| ==> StartsAt(data, ps[i]))
    && (forall i, j :: 0 <= i < j < |ps| ==> ps[i] < ps[j])
  }

  lemma {:induction false} StartCodesAreSorted(data: seq<byte>, p: nat)
    requires p <= |data|
    ensures Sorted(data, StartCodes(data, p))
    ensures forall i :: 0 <= i < |StartCodes(data, p)| ==> p <= StartCodes(data, p)[i]
    decreases |data| - p
  {
    if p < |data| {
      StartCodesAreSorted(data, p + 1);
    }
  }

  /** The listing is complete: every start code from p on is in it. */
  lemma {:induction false} StartCodesAreComplete(data: seq<byte>, p: nat, q: nat)
    requires p <= q && StartsAt(data, q)
    ensures q in StartCodes(data, p)
    decreases q - p
  {
    if p < q {
      StartCodesAreComplete(data, p + 1, q);
    }
  }

  /** Positions without a start code can be skipped. */
  lemma {:induction false} SkipTo(data: seq<byte>, p: nat, q: nat)
    requires p <= q <= |data|
    requires forall k :: p <= k < q ==> !StartsAt(data, k)
    ensures StartCodes(data, p) == StartCodes(data, q)
    decreases q - p
  {
    if p < q {
      SkipTo(data, p + 1, q);
    }
  }

  /** After a start code of n bytes the scan may jump n bytes ahead. */
  lemma JumpOver(data: seq<byte>, i: nat, n: nat)
    requires (n == 4 && Code4(data, i)) || (n == 3 && Code3(data, i) && StartsAt(data, i))
    ensures StartCodes(data, i) == [i] + StartCodes(data, i + n)
  {
    assert forall k :: i + 1 <= k < i + n ==> !StartsAt(data, k);
    SkipTo(data, i + 1, i + n);
  }

  /** The scan that jumps over each code it finds lists exactly the start codes. */
  method FindStartCodes(data: seq<byte>) returns (positions: seq<nat>)
    ensures positions == StartCodes(data, 0)
  {
    positions := [];
    var i := 0;
    while i + 2 < |data|
      invariant i <= |data|
      invariant positions + StartCodes(data, i) == StartCodes(data, 0)
      invariant 0 < i < |data| && data[i - 1] == 0 ==> !Code4(data, i - 1)
    {
      if data[i] == 0 && data[i + 1] == 0 {
        if data[i + 2] == 1 {
          JumpOver(data, i, 3);
          positions := positions + [i];
          i := i + 3;
          continue;
        } else if i + 3 < |data| && data[i + 2] == 0 && data[i + 3] == 1 {
          JumpOver(data, i, 4);
          positions := positions + [i];
          i := i + 4;
          continue;
        }
      }
      SkipTo(data, i, i + 1);
      i := i + 1;
    }
    SkipTo(data, i, |data|);
  }

  /** Where the NAL header behind the start code at p is. */
  function HeaderOffset(data: seq<byte>, p: nat): Option<nat> {
    if p + 2 < |data| && data[p + 2] == 1 then Some(p + 3)
    else if p + 3 < |data| && data[p + 3] == 1 then Some(p + 4)
    else None
  }

  function TypeOf(header: byte): nat {
    (header / 2) % 64
  }

  function HevcNalType(data: seq<byte>, p: nat): Option<nat> {
    var h :- HeaderOffset(data, p);
    if h < |data| then Some(TypeOf(data[h])) else None
  }

  /** VPS, SPS or PPS. */
  predicate ParameterSetType(t: nat) {
    32 <= t <= 34
  }

  predicate IsParameterSet(data: seq<byte>, p: nat) {
    var t := HevcNalType(data, p);
    t.Some? && ParameterSetType(t.value)
  }

  /** The end of the i-th unit: the next start code or the end of the data. */
  function UnitEnd(data: seq<byte>, ps: seq<nat>, i: nat): nat
    requires i < |ps|
  {
    if i + 1 < |ps| then ps[i + 1] else |data|
  }

  /** The first parameter set among the units from i on, if any. */
  function FirstSet(data: seq<byte>, ps: seq<nat>, i: nat): (r: Option<nat>)
    requires i <= |ps|
    ensures r.Some? ==> i <= r.value < |ps| && IsParameterSet(data, ps[r.value])
    decreases |ps| - i
  {
    if i == |ps| then None else if IsParameterSet(data, ps[i]) then Some(i) else FirstSet(data, ps, i + 1)
  }

  /** The last parameter set among the first n units, if any. */
  function LastSet(data: seq<byte>, ps: seq<nat>, n: nat): (r: Option<nat>)
    requires n <= |ps|
    ensures r.Some? ==> r.value < n && IsParameterSet(data, ps[r.value])
  {
    if n == 0 then None else if IsParameterSet(data, ps[n - 1]) then Some(n - 1) else LastSet(data, ps, n - 1)
  }

  lemma {:induction false} FirstBeforeLast(data: seq<byte>, ps: seq<nat>, i: nat, n: nat)
    requires i <= n <= |ps| && FirstSet(data, ps, i).Some? && FirstSet(data, ps, i).value < n
    ensures LastSet(data, ps, n).Some? && FirstSet(data, ps, i).value <= LastSet(data, ps, n).value
    decreases n
  {
    if !IsParameterSet(data, ps[n - 1]) {
      FirstBeforeLast(data, ps, i, n - 1);
    }
  }

  /** From the first parameter set to the end of the last one. */
  function CsdAt(data: seq<byte>, ps: seq<nat>): seq<byte>
    requires Sorted(data, ps)
  {
    var first := FirstSet(data, ps, 0);
    if first.None? then []
    else
      FirstBeforeLast(data, ps, 0, |ps|);
      data[ps[first.value]..UnitEnd(data, ps, LastSet(data, ps, |ps|).value)]
  }

  function Csd(data: seq<byte>): seq<byte> {
    StartCodesAreSorted(data, 0);
    CsdAt(data, StartCodes(data, 0))
  }

  method ExtractCsd(data: seq<byte>) returns (csd: seq<byte>)
    ensures csd == Csd(data)
  {
    var positions := FindStartCodes(data);
    StartCodesAreSorted(data, 0);
    csd := CutParameterSets(data, positions);
  }

  /** The loop of ExtractCsd over the start codes found. */
  method CutParameterSets(data: seq<byte>, positions: seq<nat>) returns (csd: seq<byte>)
    requires Sorted(data, positions)
    ensures csd == CsdAt(data, positions)
  {
    if positions == [] {
      return [];
    }
    var csdStart: Option<nat> := None;
    var csdEnd: nat := 0;
    hide FirstSet, LastSet, CutSoFar, CsdAt;
    NothingCut(data, positions);
    for i := 0 to |positions|
      invariant CutSoFar(data, positions, i, csdStart, csdEnd)
    {
      var nalType := HevcNalType(data, positions[i]);
      ghost var start, end := csdStart, csdEnd;
      if nalType.Some? {
        if 32 <= nalType.value <= 34 {
          if csdStart.None? {
            csdStart := Some(positions[i]);
          }
          csdEnd := if i + 1 < |positions| then positions[i + 1] else |data|;
        }
      }
      CutOneMore(data, positions, i, start, end);
    }
    CutAtTheEnd(data, positions, csdStart, csdEnd);
    if csdStart.Some? {
      csd := data[csdStart.value..csdEnd];
    } else {
      csd := [];
    }
  }

  /** After i units: no parameter set yet, or where the first began and the last so far ended. */
  ghost predicate CutSoFar(data: seq<byte>, ps: seq<nat>, i: nat, start: Option<nat>, end: nat)
    requires i <= |ps|
  {
    var first, last := FirstSet(data, ps, 0), LastSet(data, ps, i);
    if start.None? then first == FirstSet(data, ps, i)
    else first.Some? && start.value == ps[first.value] && last.Some? && end == UnitEnd(data, ps, last.value)
  }

  lemma NothingCut(data: seq<byte>, ps: seq<nat>)
    ensures CutSoFar(data, ps, 0, None, 0)
  {
  }

  lemma CutAtTheEnd(data: seq<byte>, ps: seq<nat>, start: Option<nat>, end: nat)
    requires Sorted(data, ps) && CutSoFar(data, ps, |ps|, start, end)
    ensures start.Some? ==> start.value <= end <= |data|
    ensures CsdAt(data, ps) == if start.Some? then data[start.value..end] else []
  {
    if start.Some? {
      FirstBeforeLast(data, ps, 0, |ps|);
    }
  }

  lemma CutOneMore(data: seq<byte>, ps: seq<nat>, i: nat, start: Option<nat>, end: nat)
    requires i < |ps| && CutSoFar(data, ps, i, start, end)
    ensures if IsParameterSet(data, ps[i])
            then CutSoFar(data, ps, i + 1, if start.None? then Some(ps[i]) else start, UnitEnd(data, ps, i))
            else CutSoFar(data, ps, i + 1, start, end)
  {
    hide IsParameterSet, UnitEnd;
  }

  /** Two start codes never overlap: a unit's header lies before the next start code. */
  lemma CodesDoNotOverlap(data: seq<byte>, p: nat, q: nat)
    requires StartsAt(data, p) && StartsAt(data, q) && p < q
    ensures HeaderOffset(data, p).Some? && HeaderOffset(data, p).value <= q
  {
  }

  /** The first SPS unit from the i-th on; a start code with no header behind it ends the search. */
  function FirstSps(data: seq<byte>, ps: seq<nat>, i: nat): (r: Option<nat>)
    requires i <= |ps|
    ensures r.Some? ==> r.value < |ps| && HevcNalType(data, ps[r.value]) == Some(33)
    decreases |ps| - i
  {
    if i == |ps| then None else
    var t :- HevcNalType(data, ps[i]);
    if t == 33 then Some(i) else FirstSps(data, ps, i + 1)
  }

  /** The bytes of the i-th unit, behind its start code. */
  function UnitAt(data: seq<byte>, ps: seq<nat>, i: nat): seq<byte>
    requires Sorted(data, ps) && i < |ps| && HevcNalType(data, ps[i]).Some?
  {
    if i + 1 < |ps| then CodesDoNotOverlap(data, ps[i], ps[i + 1]); data[HeaderOffset(data, ps[i]).value..ps[i + 1]]
    else data[HeaderOffset(data, ps[i]).value..]
  }

  function DimensionsAt(data: seq<byte>, ps: seq<nat>): Option<(nat, nat)>
    requires Sorted(data, ps)
  {
    var i :- FirstSps(data, ps, 0);
    ParseSps(Bits(Unescape(UnitAt(data, ps, i), 0)))
  }

  /** The picture size announced by the first SPS of a stream. */
  function Dimensions(data: seq<byte>): Option<(nat, nat)> {
    StartCodesAreSorted(data, 0);
    DimensionsAt(data, StartCodes(data, 0))
  }

  method ParseSpsDimensions(data: seq<byte>) returns (r: Option<(nat, nat)>)
    ensures r == Dimensions(data)
  {
    var positions := FindStartCodes(data);
    StartCodesAreSorted(data, 0);
    var nal := FirstSpsNal(data, positions);
    if nal.None? {
      return None;
    }
    r := ParseSpsNal(nal.value);
  }

  /** The loop of ParseSpsDimensions: the bytes of the first SPS unit. */
  method FirstSpsNal(data: seq<byte>, positions: seq<nat>) returns (r: Option<seq<byte>>)
    requires Sorted(data, positions)
    ensures var i := FirstSps(data, positions, 0);
            r == if i.None? then None else Some(UnitAt(data, positions, i.value))
  {
    for i := 0 to |positions|
      invariant FirstSps(data, positions, 0) == FirstSps(data, positions, i)
    {
      var nalType := HevcNalType(data, positions[i]);
      if nalType.None? {
        return None;
      }
      if nalType.value == 33 {
        var hdrOffset := if data[positions[i] + 2] == 1 then positions[i] + 3 else positions[i] + 4;
        var nalEnd := if i + 1 < |positions| then positions[i + 1] else |data|;
        if i + 1 < |positions| {
          CodesDoNotOverlap(data, positions[i], positions[i + 1]);
        }
        assert StartsAt(data, positions[i]) && HeaderOffset(data, positions[i]) == Some(hdrOffset);
        assert FirstSps(data, positions, i) == Some(i);
        assert data[hdrOffset..nalEnd] == UnitAt(data, positions, i);
        return Some(data[hdrOffset..nalEnd]);
      }
    }
    return None;
  }

  // ---------------------------------------------------------------- splitting undoes joining

  /** A NAL unit and the start code before it: four bytes or three. */
  datatype NalUnit = NalUnit(long: bool, nal: seq<byte>)

  function StartCode(u: NalUnit): seq<byte> {
    if u.long then [0, 0, 0, 1] else [0, 0, 1]
  }

  function UnitBytes(u: NalUnit): seq<byte> {
    StartCode(u) + u.nal
  }

  function Join(us: seq<NalUnit>): seq<byte> {
    if us == [] then [] else UnitBytes(us[0]) + Join(us[1..])
  }

  /** Non-empty, no start-code pattern inside, no trailing zero byte. */
  ghost predicate Clean(nal: seq<byte>) {
    && nal != [] && nal[|nal| - 1] != 0
    && forall p: nat :: !Code3(nal, p)
  }

  ghost predicate AllClean(us: seq<NalUnit>) {
    forall i :: 0 <= i < |us| ==> Clean(us[i].nal)
  }

  /** Where the start codes of a joined stream are. */
  function JoinPositions(us: seq<NalUnit>, offset: nat): (ps: seq<nat>)
    ensures |ps| == |us|
  {
    if us == [] then [] else [offset] + JoinPositions(us[1..], offset + |UnitBytes(us[0])|)
  }

  /** Behind a non-zero byte, start codes are where they are in the remaining stream alone. */
  lemma ShiftStart(pre: seq<byte>, s: seq<byte>, q: nat)
    requires pre != [] && pre[|pre| - 1] != 0
    ensures StartsAt(pre + s, |pre| + q) <==> StartsAt(s, q)
  {
    var d := pre + s;
    assert forall i :: 0 <= i < |s| ==> d[|pre| + i] == s[i];
    assert q == 0 ==> d[|pre| + q - 1] == pre[|pre| - 1];
  }

  lemma {:induction false} ShiftStarts(pre: seq<byte>, s: seq<byte>, q: nat)
    requires pre != [] && pre[|pre| - 1] != 0 && q <= |s|
    ensures |StartCodes(pre + s, |pre| + q)| == |StartCodes(s, q)|
    ensures forall i :: 0 <= i < |StartCodes(s, q)| ==> StartCodes(pre + s, |pre| + q)[i] == |pre| + StartCodes(s, q)[i]
    decreases |s| - q
  {
    if q < |s| {
      ShiftStart(pre, s, q);
      ShiftStarts(pre, s, q + 1);
    }
  }

  /** Inside one unit only its own start code is found. */
  lemma OneUnitOneCode(u: NalUnit, s: seq<byte>, p: nat)
    requires Clean(u.nal)
    requires s != [] ==> |s| >= 2 && s[0] == 0 && s[1] == 0
    requires p < |UnitBytes(u)|
    ensures StartsAt(UnitBytes(u) + s, p) <==> p == 0
  {
    var c := |StartCode(u)|;
    var d := UnitBytes(u) + s;
    if p >= c {
      NoCodeInNal(StartCode(u), u.nal, s, p);
    } else {
      assert d[..c] == StartCode(u);
      assert d[c] == u.nal[0];
      assert forall i :: 0 <= i < c ==> d[i] == StartCode(u)[i];
    }
  }

  lemma NoCodeInNal(code: seq<byte>, nal: seq<byte>, s: seq<byte>, p: nat)
    requires Clean(nal)
    requires |code| <= p < |code + nal|
    ensures !Code3(code + nal + s, p) && !Code4(code + nal + s, p)
  {
    var c := |code|;
    var d := code + nal + s;
    assert forall i :: c <= i < c + |nal| ==> d[i] == nal[i - c];
    assert !Code3(nal, p - c);
    assert !Code3(nal, p + 1 - c);
    assert d[c + |nal| - 1] != 0;
  }

  lemma {:induction false} JoinPositionsShift(us: seq<NalUnit>, a: nat, b: nat)
    ensures forall i :: 0 <= i < |us| ==> JoinPositions(us, a + b)[i] == a + JoinPositions(us, b)[i]
  {
    if us != [] {
      JoinPositionsShift(us[1..], a, b + |UnitBytes(us[0])|);
    }
  }

  /** The start codes of a unit followed by a stream: its own, then those of the stream. */
  lemma StartCodesOfUnit(u: NalUnit, s: seq<byte>)
    requires Clean(u.nal)
    requires s != [] ==> |s| >= 2 && s[0] == 0 && s[1] == 0
    ensures var n := |UnitBytes(u)|;
            var qs := StartCodes(s, 0);
            StartCodes(UnitBytes(u) + s, 0) == [0] + seq(|qs|, i requires 0 <= i < |qs| => n + qs[i])
  {
    var pre := UnitBytes(u);
    var d := pre + s;
    assert pre[|pre| - 1] == u.nal[|u.nal| - 1];
    forall k | 0 <= k < |pre|
      ensures StartsAt(d, k) <==> k == 0
    {
      OneUnitOneCode(u, s, k);
    }
    SkipTo(d, 1, |pre|);
    ShiftStarts(pre, s, 0);
  }

  lemma JoinStartsWithZeros(us: seq<NalUnit>)
    ensures Join(us) != [] ==> |Join(us)| >= 2 && Join(us)[0] == 0 && Join(us)[1] == 0
  {
  }

  /** Splitting undoes joining: the start codes found are exactly those that were put in. */
  lemma {:induction false} SplitUndoesJoin(us: seq<NalUnit>)
    requires AllClean(us)
    ensures StartCodes(Join(us), 0) == JoinPositions(us, 0)
  {
    if us != [] {
      hide StartCodes, UnitBytes, Clean, Join, JoinPositions;
      var n := |UnitBytes(us[0])|;
      var qs := StartCodes(Join(us[1..]), 0);
      FirstOfJoin(us);
      JoinStartsWithZeros(us[1..]);
      StartCodesOfUnit(us[0], Join(us[1..]));
      SplitUndoesJoin(us[1..]);
      JoinPositionsShift(us[1..], n, 0);
      assert seq(|qs|, i requires 0 <= i < |qs| => n + qs[i]) == JoinPositions(us[1..], n);
    }
  }

  lemma FirstOfJoin(us: seq<NalUnit>)
    requires us != []
    ensures Join(us) == UnitBytes(us[0]) + Join(us[1..])
    ensures JoinPositions(us, 0) == [0] + JoinPositions(us[1..], |UnitBytes(us[0])|)
  {
    hide UnitBytes;
  }

  lemma {:induction false} JoinAppend(us: seq<NalUnit>, vs: seq<NalUnit>)
    ensures Join(us + vs) == Join(us) + Join(vs)
  {
    if us == [] {
      assert us + vs == vs;
    } else {
      JoinAppend(us[1..], vs);
      assert (us + vs)[1..] == us[1..] + vs;
      Associative(UnitBytes(us[0]), Join(us[1..]), Join(vs));
    }
  }

  lemma Associative(a: seq<byte>, b: seq<byte>, c: seq<byte>)
    ensures (a + b) + c == a + (b + c)
  {
  }

  /** Consecutive units are a consecutive part of the stream. */
  lemma PartOfJoin(us: seq<NalUnit>, i: nat, j: nat)
    requires i <= j <= |us|
    ensures |Join(us[..i])| <= |Join(us[..j])| <= |Join(us)|
    ensures Join(us)[|Join(us[..i])|..|Join(us[..j])|] == Join(us[i..j])
  {
    JoinAppend(us[..i], us[i..j]);
    JoinAppend(us[..j], us[j..]);
    assert us[..i] + us[i..j] == us[..j] && us[..j] + us[j..] == us;
    var a, b, c := Join(us[..i]), Join(us[i..j]), Join(us[j..]);
    assert (a + b + c)[|a|..|a + b|] == b;
  }

  lemma {:induction false} PositionOfUnit(us: seq<NalUnit>, k: nat)
    requires k < |us|
    ensures JoinPositions(us, 0)[k] == |Join(us[..k])|
  {
    if k > 0 {
      var n := |UnitBytes(us[0])|;
      PositionOfUnit(us[1..], k - 1);
      JoinPositionsShift(us[1..], n, 0);
      assert us[..k][1..] == us[1..][..k - 1];
    }
  }

  /** The k-th unit of a joined stream: where it starts, ends and what type it has. */
  lemma UnitOfJoin(us: seq<NalUnit>, k: nat)
    requires AllClean(us) && k < |us|
    ensures var d, ps := Join(us), StartCodes(Join(us), 0);
            && |ps| == |us|
            && ps[k] == |Join(us[..k])|
            && UnitEnd(d, ps, k) == |Join(us[..k + 1])| == ps[k] + |UnitBytes(us[k])| <= |d|
            && d[ps[k]..UnitEnd(d, ps, k)] == UnitBytes(us[k])
            && HeaderOffset(d, ps[k]) == Some(ps[k] + |StartCode(us[k])|)
            && HevcNalType(d, ps[k]) == Some(TypeOf(us[k].nal[0]))
  {
    SpanOfUnit(us, k);
    HeaderBehindCode(Join(us), |Join(us[..k])|, us[k]);
  }

  lemma SpanOfUnit(us: seq<NalUnit>, k: nat)
    requires AllClean(us) && k < |us|
    ensures var d, ps := Join(us), StartCodes(Join(us), 0);
            && |ps| == |us|
            && ps[k] == |Join(us[..k])|
            && UnitEnd(d, ps, k) == |Join(us[..k + 1])| == ps[k] + |UnitBytes(us[k])| <= |d|
            && d[ps[k]..UnitEnd(d, ps, k)] == UnitBytes(us[k])
  {
    SplitUndoesJoin(us);
    PositionOfUnit(us, k);
    if k + 1 < |us| {
      PositionOfUnit(us, k + 1);
    } else {
      assert us[..k + 1] == us;
    }
    PartOfJoin(us, k, k + 1);
    assert us[k..k + 1] == [us[k]];
    JoinOfOne(us[k]);
  }

  lemma JoinOfOne(u: NalUnit)
    ensures Join([u]) == UnitBytes(u)
  {
    assert [u][1..] == [];
    assert Join([u]) == UnitBytes(u) + [];
  }

  lemma HeaderBehindCode(d: seq<byte>, n: nat, u: NalUnit)
    requires u.nal != [] && n + |UnitBytes(u)| <= |d| && d[n..n + |UnitBytes(u)|] == UnitBytes(u)
    ensures HeaderOffset(d, n) == Some(n + |StartCode(u)|)
    ensures HevcNalType(d, n) == Some(TypeOf(u.nal[0]))
    ensures d[n + |StartCode(u)|..n + |UnitBytes(u)|] == u.nal
  {
    var s := UnitBytes(u);
    assert forall i :: 0 <= i < |s| ==> d[n + i] == d[n..n + |s|][i] == s[i];
    assert s[|StartCode(u)|] == u.nal[0];
    SliceOfSlice(d, n, n + |s|, |StartCode(u)|);
    assert s[|StartCode(u)|..] == u.nal;
  }

  lemma SliceOfSlice(d: seq<byte>, a: nat, b: nat, k: nat)
    requires a <= b <= |d| && k <= b - a
    ensures d[a..b][k..] == d[a + k..b]
  {
  }

  lemma {:induction false} FirstSetIs(data: seq<byte>, ps: seq<nat>, a: nat, i: nat)
    requires a <= i < |ps| && IsParameterSet(data, ps[i])
    requires forall k :: a <= k < i ==> !IsParameterSet(data, ps[k])
    ensures FirstSet(data, ps, a) == Some(i)
    decreases i - a
  {
    if a < i {
      FirstSetIs(data, ps, a + 1, i);
    }
  }

  lemma {:induction false} LastSetIs(data: seq<byte>, ps: seq<nat>, j: nat, n: nat)
    requires j < n <= |ps| && IsParameterSet(data, ps[j])
    requires forall k :: j < k < n ==> !IsParameterSet(data, ps[k])
    ensures LastSet(data, ps, n) == Some(j)
    decreases n
  {
    if j < n - 1 {
      LastSetIs(data, ps, j, n - 1);
    }
  }

  lemma {:induction false} NoSets(data: seq<byte>, ps: seq<nat>, a: nat)
    requires a <= |ps| && forall k :: a <= k < |ps| ==> !IsParameterSet(data, ps[k])
    ensures FirstSet(data, ps, a) == None
    decreases |ps| - a
  {
    if a < |ps| {
      NoSets(data, ps, a + 1);
    }
  }

  /** The header of an SPS: type 33 in the six bits below the highest one. */
  predicate IsSpsHeader(header: byte) {
    66 <= header % 128 <= 67
  }

  predicate CarriesParameterSet(u: NalUnit) {
    u.nal != [] && 64 <= u.nal[0] % 128 <= 69
  }

  lemma HeadersAre(header: byte)
    ensures ParameterSetType(TypeOf(header)) <==> 64 <= header % 128 <= 69
    ensures TypeOf(header) == 33 <==> IsSpsHeader(header)
  {
    var low := header % 128;
    if header < 128 {
      assert low == header;
    } else {
      assert low == header - 128 && header / 2 == 64 + low / 2;
    }
    assert TypeOf(header) == low / 2;
  }

  lemma UnitHeadersAre(us: seq<NalUnit>)
    ensures forall k :: 0 <= k < |us| && us[k].nal != [] ==>
              && (CarriesParameterSet(us[k]) <==> ParameterSetType(TypeOf(us[k].nal[0])))
              && (IsSpsHeader(us[k].nal[0]) <==> TypeOf(us[k].nal[0]) == 33)
  {
    forall k | 0 <= k < |us| && us[k].nal != []
      ensures CarriesParameterSet(us[k]) <==> ParameterSetType(TypeOf(us[k].nal[0]))
      ensures IsSpsHeader(us[k].nal[0]) <==> TypeOf(us[k].nal[0]) == 33
    {
      HeadersAre(us[k].nal[0]);
    }
  }

  /** The decoder configuration is the joined stream of the units from the first to the last parameter set. */
  lemma CsdOfJoin(us: seq<NalUnit>, i: nat, j: nat)
    requires AllClean(us) && i <= j < |us|
    requires CarriesParameterSet(us[i]) && forall k :: 0 <= k < i ==> !CarriesParameterSet(us[k])
    requires CarriesParameterSet(us[j]) && forall k :: j < k < |us| ==> !CarriesParameterSet(us[k])
    ensures Csd(Join(us)) == Join(us[i..j + 1])
  {
    UnitHeadersAre(us);
    hide CarriesParameterSet, ParameterSetType, TypeOf, IsSpsHeader;
    var d, ps := Join(us), StartCodes(Join(us), 0);
    forall k | 0 <= k < |us|
      ensures |ps| == |us| && (IsParameterSet(d, ps[k]) <==> CarriesParameterSet(us[k]))
    {
      UnitOfJoin(us, k);
    }
    FirstSetIs(d, ps, 0, i);
    LastSetIs(d, ps, j, |ps|);
    UnitOfJoin(us, i);
    UnitOfJoin(us, j);
    PartOfJoin(us, i, j + 1);
    CsdIs(d, i, j);
  }

  lemma CsdIs(d: seq<byte>, i: nat, j: nat)
    requires var ps := StartCodes(d, 0);
             i <= j < |ps| && FirstSet(d, ps, 0) == Some(i) && LastSet(d, ps, |ps|) == Some(j)
    ensures var ps := StartCodes(d, 0); ps[i] <= UnitEnd(d, ps, j) <= |d| && Csd(d) == d[ps[i]..UnitEnd(d, ps, j)]
  {
    StartCodesAreSorted(d, 0);
  }

  lemma CsdOfJoinWithoutSets(us: seq<NalUnit>)
    requires AllClean(us) && forall k :: 0 <= k < |us| ==> !CarriesParameterSet(us[k])
    ensures Csd(Join(us)) == []
  {
    UnitHeadersAre(us);
    hide CarriesParameterSet, ParameterSetType, TypeOf, IsSpsHeader;
    var d, ps := Join(us), StartCodes(Join(us), 0);
    SplitUndoesJoin(us);
    forall k | 0 <= k < |us|
      ensures !IsParameterSet(d, ps[k])
    {
      UnitOfJoin(us, k);
    }
    NoSets(d, ps, 0);
  }

  lemma {:induction false} FirstSpsIs(data: seq<byte>, ps: seq<nat>, a: nat, k: nat)
    requires a <= k < |ps| && HevcNalType(data, ps[k]) == Some(33)
    requires forall i :: a <= i < k ==> HevcNalType(data, ps[i]).Some? && HevcNalType(data, ps[i]) != Some(33)
    ensures FirstSps(data, ps, a) == Some(k)
    decreases k - a
  {
    if a < k {
      FirstSpsIs(data, ps, a + 1, k);
    }
  }

  lemma UnitAtIs(d: seq<byte>, ps: seq<nat>, k: nat, u: NalUnit)
    requires Sorted(d, ps) && k < |ps| && u.nal != []
    requires UnitEnd(d, ps, k) == ps[k] + |UnitBytes(u)| <= |d|
    requires d[ps[k]..UnitEnd(d, ps, k)] == UnitBytes(u)
    ensures HevcNalType(d, ps[k]).Some? && UnitAt(d, ps, k) == u.nal
  {
    HeaderBehindCode(d, ps[k], u);
  }

  lemma FirstSpsOfJoin(us: seq<NalUnit>, k: nat)
    requires AllClean(us) && k < |us| && IsSpsHeader(us[k].nal[0])
    requires forall i :: 0 <= i < k ==> !IsSpsHeader(us[i].nal[0])
    ensures FirstSps(Join(us), StartCodes(Join(us), 0), 0) == Some(k)
  {
    UnitHeadersAre(us);
    hide CarriesParameterSet, ParameterSetType, TypeOf, IsSpsHeader;
    var d, ps := Join(us), StartCodes(Join(us), 0);
    UnitOfJoin(us, k);
    forall i | 0 <= i < k
      ensures HevcNalType(d, ps[i]).Some? && HevcNalType(d, ps[i]) != Some(33)
    {
      UnitOfJoin(us, i);
    }
    FirstSpsIs(d, ps, 0, k);
  }

  /** In a joined stream the picture size is read from exactly the bytes of the first SPS unit. */
  lemma DimensionsOfJoin(us: seq<NalUnit>, k: nat)
    requires AllClean(us) && k < |us| && IsSpsHeader(us[k].nal[0])
    requires forall i :: 0 <= i < k ==> !IsSpsHeader(us[i].nal[0])
    ensures Dimensions(Join(us)) == ParseSps(Bits(Unescape(us[k].nal, 0)))
  {
    StartCodesAreSorted(Join(us), 0);
    FirstSpsOfJoin(us, k);
    UnitOfJoin(us, k);
    UnitAtIs(Join(us), StartCodes(Join(us), 0), k, us[k]);
  }

  /** A NAL unit as the standard builds it: two header bytes, then the payload with emulation prevention. */
  function NalOf(header0: byte, header1: byte, payload: seq<byte>): seq<byte> {
    [header0, header1] + Escape(payload, 0)
  }

  /** The second header byte is not zero, so emulation prevention starts afresh behind the header. */
  lemma HeaderIsNotEscaped(header0: byte, header1: byte, payload: seq<byte>)
    requires header1 != 0
    ensures NalOf(header0, header1, payload) == Escape([header0, header1] + payload, 0)
  {
    var raw := [header0, header1] + payload;
    assert raw[1..] == [header1] + payload;
    assert raw[1..][1..] == payload;
    var z := NextZeros(0, header0);
    assert Escape(raw, 0) == [header0] + Escape(raw[1..], z);
    assert Escape(raw[1..], z) == [header1] + Escape(payload, 0);
  }

  /** Such a unit is clean. */
  lemma NalOfIsClean(header0: byte, header1: byte, payload: seq<byte>)
    requires header1 != 0 && payload != [] && payload[|payload| - 1] != 0
    ensures Clean(NalOf(header0, header1, payload))
  {
    var nal := NalOf(header0, header1, payload);
    HeaderIsNotEscaped(header0, header1, payload);
    EscapeHidesStartCodes([header0, header1] + payload, 0);
    assert Zeros(0) + nal == nal;
    forall p: nat
      ensures !Code3(nal, p)
    {
      assert !Forbidden(nal, p);
    }
    EscapeKeepsLast(payload, 0);
  }

  /** Removing emulation prevention gives header and payload back. */
  lemma NalOfIsInvertible(header0: byte, header1: byte, payload: seq<byte>)
    requires header1 != 0
    ensures Unescape(NalOf(header0, header1, payload), 0) == [header0, header1] + payload
  {
    HeaderIsNotEscaped(header0, header1, payload);
    UnescapeUndoesEscape([header0, header1] + payload, 0);
  }

  lemma {:induction false} EscapeKeepsLast(s: seq<byte>, zeros: nat)
    requires zeros <= 2 && s != []
    ensures var e := Escape(s, zeros); e != [] && e[|e| - 1] == s[|s| - 1]
  {
    if |s| > 1 {
      EscapeKeepsLast(s[1..], if zeros == 2 && s[0] <= 3 then NextZeros(0, s[0]) else NextZeros(zeros, s[0]));
    } else {
      assert s[1..] == [];
    }
  }

  /**
   From syntax to picture size: print an SPS, padded to bytes, apply emulation prevention, put it
   behind any start code into any stream of clean units that has no earlier SPS: reading the stream
   gives back exactly width and height, or nothing when one of them is outside 1..8192.
   */
  lemma StreamDimensions(us: seq<NalUnit>, k: nat, x: SpsSyntax, header0: byte, header1: byte, payload: seq<byte>)
    requires k < |us| && (forall i :: 0 <= i < |us| && i != k ==> Clean(us[i].nal))
    requires us[k].nal == NalOf(header0, header1, payload)
    requires IsSpsHeader(header0) && header1 != 0
    requires forall i :: 0 <= i < k ==> us[i].nal != [] && !IsSpsHeader(us[i].nal[0])
    requires WellFormed(x) && |PrintSps(x)| % 8 == 0 && payload == Packed(PrintSps(x))
    requires payload != [] && payload[|payload| - 1] != 0
    ensures Dimensions(Join(us)) ==
            if 0 < x.width <= 8192 && 0 < x.height <= 8192 then Some((x.width, x.height)) else None
  {
    NalOfIsClean(header0, header1, payload);
    NalOfIsInvertible(header0, header1, payload);
    DimensionsOfJoin(us, k);
    BitsBehindHeader(header0, header1, payload);
    BitsOfPacked(PrintSps(x));
    SpsRoundTrip(ByteBits(header0) + ByteBits(header1), x);
  }

  lemma BitsBehindHeader(header0: byte, header1: byte, payload: seq<byte>)
    ensures Bits([header0, header1] + payload) == ByteBits(header0) + ByteBits(header1) + Bits(payload)
  {
    var raw := [header0, header1] + payload;
    assert raw[1..] == [header1] + payload && raw[1..][1..] == payload;
  }
}
