/**
 Picture dimensions from an H.265 sequence parameter set: the client's parser, a printer written
 from sections 7.3.2.2 and 7.3.3 of ITU-T H.265, and the proof that the first inverts the second.
 */
module Sps {
  import opened Wrappers
  import opened Bytes
  import opened Bitstream

  const MAX_DIMENSION: nat := 8192

  function SkipBits(s: seq<bit>, n: nat): (r: Option<seq<bit>>) {
    if |s| < n then None else Some(s[n..])
  }

  /** The two flags of a sub-layer: is profile data present, is level data present. */
  datatype Presence = Presence(profile: bool, level: bool)

  /** Skip the data of the sub-layers whose flags are given. */
  function SkipSubLayers(flags: seq<Presence>, s: seq<bit>): Option<seq<bit>> {
    if flags == [] then Some(s) else
    var s1 :- SkipBits(s, if flags[0].profile then 88 else 0);
    var s2 :- SkipBits(s1, if flags[0].level then 8 else 0);
    SkipSubLayers(flags[1..], s2)
  }

  function FlagPairs(s: seq<bit>, n: nat): (flags: seq<Presence>)
    requires |s| >= 2 * n
  {
    if n == 0 then [] else FlagPairs(s, n - 1) + [Presence(s[2 * n - 2] != 0, s[2 * n - 1] != 0)]
  }

  function SkipSubLayerInfoSpec(s: seq<bit>, subLayers: nat): Option<seq<bit>>
    requires subLayers < 8
  {
    var s1 :- SkipBits(s, 2 * subLayers);
    var s2 :- SkipBits(s1, 2 * (8 - subLayers));
    SkipSubLayers(FlagPairs(s, subLayers), s2)
  }

  function SkipProfileTierLevelSpec(s: seq<bit>, subLayers: nat): Option<seq<bit>>
    requires subLayers < 8
  {
    var s1 :- SkipBits(s, 96);
    if subLayers == 0 then Some(s1) else SkipSubLayerInfoSpec(s1, subLayers)
  }

  /** Skip sps_seq_parameter_set_id, chroma_format_idc and, for 4:4:4, separate_colour_plane_flag. */
  function SkipFormat(s: seq<bit>): Option<seq<bit>> {
    match UeDecode(s)
    case Malformed => None
    case Number(_, s1) =>
      match UeDecode(s1)
      case Malformed => None
      case Number(chroma, s2) => SkipBits(s2, if chroma == 3 then 1 else 0)
  }

  /** The two picture dimensions, each of which must be in 1..8192. */
  function ParseSize(s: seq<bit>): Option<(nat, nat)> {
    match UeDecode(s)
    case Malformed => None
    case Number(width, s1) =>
      match UeDecode(s1)
      case Malformed => None
      case Number(height, _) =>
        if 0 < width <= MAX_DIMENSION && 0 < height <= MAX_DIMENSION then Some((width, height)) else None
  }

  /** From sps_seq_parameter_set_id to the picture height. */
  function ParseDimensionsSpec(s: seq<bit>): Option<(nat, nat)> {
    var s1 :- SkipFormat(s);
    ParseSize(s1)
  }

  /** What the parser makes of the bits of an SPS NAL unit, header included. */
  function ParseSps(s: seq<bit>): Option<(nat, nat)> {
    var s1 :- SkipBits(s, 20);
    var s2 :- SkipBits(s1, 3);
    var subLayers := BitsValue(s1[..3]);
    assert BitsValue(s1[..3]) < Pow2(3) == 8;
    var s3 :- SkipBits(s2, 1);
    var s4 :- SkipProfileTierLevelSpec(s3, subLayers);
    ParseDimensionsSpec(s4)
  }

  method SkipProfileTierLevel(reader: BitReader, maxSubLayers: nat) returns (r: Option<()>)
    requires reader.Valid() && maxSubLayers < 8
    modifies reader
    ensures reader.Valid()
    ensures var spec := SkipProfileTierLevelSpec(old(reader.rest), maxSubLayers);
            if spec.Some? then r == Some(()) && reader.rest == spec.value else r == None
  {
    ghost var s := reader.rest;
    r := reader.Skip(8);
    if r.None? { return; }
    r := reader.Skip(32);
    if r.None? { return; }
    r := reader.Skip(48);
    if r.None? { return; }
    r := reader.Skip(8);
    if r.None? { return; }
    assert reader.rest == s[96..];
    if maxSubLayers > 0 {
      r := SkipSubLayerInfo(reader, maxSubLayers);
    }
  }

  /** The part of profile_tier_level() that is there only for more than one sub-layer. */
  method SkipSubLayerInfo(reader: BitReader, maxSubLayers: nat) returns (r: Option<()>)
    requires reader.Valid() && 0 < maxSubLayers < 8
    modifies reader
    ensures reader.Valid()
    ensures var spec := SkipSubLayerInfoSpec(old(reader.rest), maxSubLayers);
            if spec.Some? then r == Some(()) && reader.rest == spec.value else r == None
  {
    var flags := ReadFlags(reader, maxSubLayers);
    if flags.None? { return None; }
    r := reader.Skip(2 * (8 - maxSubLayers));
    if r.None? { return; }
    r := SkipSubLayerData(reader, flags.value);
  }

  /** The flag loop: one (profile, level) pair for each sub-layer. */
  method ReadFlags(reader: BitReader, n: nat) returns (r: Option<seq<Presence>>)
    requires reader.Valid()
    modifies reader
    ensures reader.Valid()
    ensures |old(reader.rest)| < 2 * n ==> r == None
    ensures |old(reader.rest)| >= 2 * n ==>
              r == Some(FlagPairs(old(reader.rest), n)) && reader.rest == old(reader.rest)[2 * n..]
  {
    ghost var s := reader.rest;
    var flags := [];
    NoPairs(s);
    hide FlagPairs;
    for i := 0 to n
      invariant reader.Valid()
      invariant |s| >= 2 * i && reader.rest == s[2 * i..]
      invariant flags == FlagPairs(s, i)
    {
      var pair := ReadPresence(reader);
      if pair.None? { return None; }
      DropTwo(s, 2 * i);
      NextPair(s, i, pair.value);
      flags := flags + [pair.value];
    }
    return Some(flags);
  }

  lemma NoPairs(s: seq<bit>)
    ensures FlagPairs(s, 0) == []
  {
  }

  lemma NextPair(s: seq<bit>, i: nat, pair: Presence)
    requires |s| >= 2 * i + 2 && pair == Presence(s[2 * i..][0] != 0, s[2 * i..][1] != 0)
    ensures FlagPairs(s, i + 1) == FlagPairs(s, i) + [pair]
  {
  }

  lemma DropTwo(s: seq<bit>, i: nat)
    requires i + 2 <= |s|
    ensures s[i..][2..] == s[i + 2..]
  {
  }

  method ReadPresence(reader: BitReader) returns (r: Option<Presence>)
    requires reader.Valid()
    modifies reader
    ensures reader.Valid()
    ensures if |old(reader.rest)| < 2 then r == None
            else r == Some(Presence(old(reader.rest)[0] != 0, old(reader.rest)[1] != 0)) && reader.rest == old(reader.rest)[2..]
  {
    var profile := ReadFlag(reader);
    if profile.None? { return None; }
    var level := ReadFlag(reader);
    if level.None? { return None; }
    return Some(Presence(profile.value, level.value));
  }

  method ReadFlag(reader: BitReader) returns (r: Option<bool>)
    requires reader.Valid()
    modifies reader
    ensures reader.Valid()
    ensures if old(reader.rest) == [] then r == None
            else r == Some(old(reader.rest)[0] != 0) && reader.rest == old(reader.rest)[1..]
  {
    ghost var s := reader.rest;
    var b := reader.ReadBits(1);
    if b.None? { return None; }
    OneBit(s[..1]);
    return Some(b.value != 0);
  }

  lemma OneBit(s: seq<bit>)
    requires |s| == 1
    ensures Wrap32(BitsValue(s)) == s[0]
  {
    assert BitsValue(s[..0]) == 0;
  }

  method SkipSubLayerData(reader: BitReader, flags: seq<Presence>) returns (r: Option<()>)
    requires reader.Valid()
    modifies reader
    ensures reader.Valid()
    ensures var spec := SkipSubLayers(flags, old(reader.rest));
            if spec.Some? then r == Some(()) && reader.rest == spec.value else r == None
  {
    ghost var spec := SkipSubLayers(flags, reader.rest);
    r := Some(());
    assert flags[0..] == flags;
    for i := 0 to |flags|
      invariant reader.Valid()
      invariant r == Some(())
      invariant SkipSubLayers(flags[i..], reader.rest) == spec
    {
      assert flags[i..][1..] == flags[i + 1..];
      if flags[i].profile {
        r := reader.Skip(88);
        if r.None? { return; }
      }
      if flags[i].level {
        r := reader.Skip(8);
        if r.None? { return; }
      }
    }
    assert flags[|flags|..] == [];
  }

  method ParseSpsNal(nal: seq<byte>) returns (r: Option<(nat, nat)>)
    ensures r == ParseSps(Bits(Unescape(nal, 0)))
  {
    var reader := new BitReader(nal);
    ghost var s := reader.rest;
    var ok := reader.Skip(16);
    if ok.None? { return None; }
    ok := reader.Skip(4);
    if ok.None? { return None; }
    ghost var s1 := s[20..];
    assert reader.rest == s1;
    var sub := reader.ReadBits(3);
    if sub.None? { return None; }
    SmallMod(BitsValue(s1[..3])) by {
      assert BitsValue(s1[..3]) < Pow2(3) == 8;
    }
    ok := reader.Skip(1);
    if ok.None? { return None; }
    ok := SkipProfileTierLevel(reader, sub.value);
    if ok.None? { return None; }
    r := ParseDimensions(reader);
  }

  /** The tail of ParseSpsNal, from sps_seq_parameter_set_id on. */
  method ParseDimensions(reader: BitReader) returns (r: Option<(nat, nat)>)
    requires reader.Valid()
    modifies reader
    ensures r == ParseDimensionsSpec(old(reader.rest))
  {
    var ok := ReadFormat(reader);
    if ok.None? { return None; }
    r := ReadSize(reader);
  }

  method ReadSize(reader: BitReader) returns (r: Option<(nat, nat)>)
    requires reader.Valid()
    modifies reader
    ensures r == ParseSize(old(reader.rest))
  {
    var width := reader.ReadUe();
    if width.None? { return None; }
    var height := reader.ReadUe();
    if height.None? { return None; }
    if width.value > 0 && height.value > 0 && width.value <= MAX_DIMENSION && height.value <= MAX_DIMENSION {
      return Some((width.value, height.value));
    }
    return None;
  }

  method ReadFormat(reader: BitReader) returns (r: Option<()>)
    requires reader.Valid()
    modifies reader
    ensures reader.Valid()
    ensures var spec := SkipFormat(old(reader.rest));
            if spec.Some? then r == Some(()) && reader.rest == spec.value else r == None
  {
    var spsId := reader.ReadUe();
    if spsId.None? { return None; }
    var chroma := reader.ReadUe();
    if chroma.None? { return None; }
    if chroma.value == 3 {
      var ok := reader.Skip(1);
      if ok.None? { return None; }
    }
    return Some(());
  }

  // ---------------------------------------------------------------- the printer

  datatype SubLayer = SubLayer(profile: Option<seq<bit>>, level: Option<seq<bit>>)

  /** An SPS up to the picture height; what follows is `tail`. */
  datatype SpsSyntax = SpsSyntax(
    vpsId: seq<bit>, subLayers: seq<SubLayer>, nesting: bit,
    general: seq<bit>, reserved: seq<bit>,
    spsId: nat, chromaFormat: nat, separatePlanes: bit,
    width: nat, height: nat,
    tail: seq<bit>)

  predicate WellFormed(x: SpsSyntax) {
    && |x.vpsId| == 4
    && |x.subLayers| < 8
    && |x.general| == 96
    && |x.reserved| == 2 * (8 - |x.subLayers|)
    && x.spsId < U32 - 1 && x.chromaFormat < U32 - 1 && x.width < U32 - 1 && x.height < U32 - 1
    && forall i :: 0 <= i < |x.subLayers| ==>
        && (x.subLayers[i].profile.Some? ==> |x.subLayers[i].profile.value| == 88)
        && (x.subLayers[i].level.Some? ==> |x.subLayers[i].level.value| == 8)
  }

  function Flag(b: bool): bit {
    if b then 1 else 0
  }

  function PrintFlags(ls: seq<SubLayer>): (s: seq<bit>)
    ensures |s| == 2 * |ls|
  {
    if ls == [] then [] else
    var n := |ls| - 1;
    PrintFlags(ls[..n]) + [Flag(ls[n].profile.Some?), Flag(ls[n].level.Some?)]
  }

  function PrintSubLayers(ls: seq<SubLayer>): seq<bit> {
    if ls == [] then [] else
    (if ls[0].profile.Some? then ls[0].profile.value else [])
    + (if ls[0].level.Some? then ls[0].level.value else [])
    + PrintSubLayers(ls[1..])
  }

  function PrintProfileTierLevel(x: SpsSyntax): seq<bit> {
    x.general + (if x.subLayers == [] then [] else PrintFlags(x.subLayers) + x.reserved + PrintSubLayers(x.subLayers))
  }

  function PrintFormat(x: SpsSyntax): seq<bit> {
    UeEncode(x.spsId) + UeEncode(x.chromaFormat) + (if x.chromaFormat == 3 then [x.separatePlanes] else [])
  }

  function PrintDimensions(x: SpsSyntax): seq<bit> {
    PrintFormat(x) + UeEncode(x.width) + UeEncode(x.height)
  }

  /** seq_parameter_set_rbsp(), without the two header bytes of the NAL unit. */
  function PrintSps(x: SpsSyntax): seq<bit> {
    x.vpsId + BitsOf(|x.subLayers|, 3) + [x.nesting] + PrintProfileTierLevel(x) + PrintDimensions(x) + x.tail
  }

  // ---------------------------------------------------------------- the parser inverts the printer

  function Flags(ls: seq<SubLayer>): seq<Presence> {
    seq(|ls|, i requires 0 <= i < |ls| => Presence(ls[i].profile.Some?, ls[i].level.Some?))
  }

  lemma {:induction false} FlagsArePrinted(ls: seq<SubLayer>, rest: seq<bit>)
    ensures FlagPairs(PrintFlags(ls) + rest, |ls|) == Flags(ls)
  {
    if ls != [] {
      var n := |ls| - 1;
      var last := [Flag(ls[n].profile.Some?), Flag(ls[n].level.Some?)];
      FlagsArePrinted(ls[..n], last + rest);
      assert PrintFlags(ls) + rest == PrintFlags(ls[..n]) + (last + rest);
      assert Flags(ls) == Flags(ls[..n]) + [Presence(ls[n].profile.Some?, ls[n].level.Some?)];
    }
  }

  lemma SkipPrinted(p: seq<bit>, rest: seq<bit>)
    ensures SkipBits(p + rest, |p|) == Some(rest)
  {
    assert (p + rest)[|p|..] == rest;
  }

  lemma {:induction false} SubLayersArePrinted(ls: seq<SubLayer>, rest: seq<bit>)
    requires forall i :: 0 <= i < |ls| ==>
               && (ls[i].profile.Some? ==> |ls[i].profile.value| == 88)
               && (ls[i].level.Some? ==> |ls[i].level.value| == 8)
    ensures SkipSubLayers(Flags(ls), PrintSubLayers(ls) + rest) == Some(rest)
  {
    if ls == [] {
      assert Flags(ls) == [];
      assert [] + rest == rest;
    } else {
      SubLayersArePrinted(ls[1..], rest);
      assert Flags(ls)[1..] == Flags(ls[1..]);
      var profile := if ls[0].profile.Some? then ls[0].profile.value else [];
      var level := if ls[0].level.Some? then ls[0].level.value else [];
      var tail := PrintSubLayers(ls[1..]) + rest;
      assert PrintSubLayers(ls) + rest == profile + (level + tail);
      SkipPrinted(profile, level + tail);
      SkipPrinted(level, tail);
    }
  }

  lemma ProfileTierLevelIsPrinted(x: SpsSyntax, rest: seq<bit>)
    requires WellFormed(x)
    ensures SkipProfileTierLevelSpec(PrintProfileTierLevel(x) + rest, |x.subLayers|) == Some(rest)
  {
    var ls := x.subLayers;
    if ls == [] {
      assert PrintProfileTierLevel(x) + rest == x.general + rest;
      SkipPrinted(x.general, rest);
    } else {
      var s3 := PrintSubLayers(ls) + rest;
      var s2 := x.reserved + s3;
      var s1 := PrintFlags(ls) + s2;
      assert PrintProfileTierLevel(x) + rest == x.general + s1;
      SkipPrinted(x.general, s1);
      SkipPrinted(PrintFlags(ls), s2);
      SkipPrinted(x.reserved, s3);
      FlagsArePrinted(ls, s2);
      SubLayersArePrinted(ls, rest);
    }
  }

  lemma FormatIsPrinted(x: SpsSyntax, rest: seq<bit>)
    requires WellFormed(x)
    ensures SkipFormat(PrintFormat(x) + rest) == Some(rest)
  {
    var plane := if x.chromaFormat == 3 then [x.separatePlanes] else [];
    var s2 := plane + rest;
    var s1 := UeEncode(x.chromaFormat) + s2;
    Regroup3(UeEncode(x.spsId), UeEncode(x.chromaFormat), plane, rest);
    UeRoundTrip(x.spsId, s1);
    UeRoundTrip(x.chromaFormat, s2);
    SkipPrinted(plane, rest);
  }

  lemma Regroup3(a: seq<bit>, b: seq<bit>, c: seq<bit>, rest: seq<bit>)
    ensures (a + b + c) + rest == a + (b + (c + rest))
  {
  }

  lemma DimensionsArePrinted(x: SpsSyntax, rest: seq<bit>)
    requires WellFormed(x)
    ensures ParseDimensionsSpec(PrintDimensions(x) + rest) ==
            if 0 < x.width <= 8192 && 0 < x.height <= 8192 then Some((x.width, x.height)) else None
  {
    var s2 := UeEncode(x.height) + rest;
    var s1 := UeEncode(x.width) + s2;
    Regroup3(PrintFormat(x), UeEncode(x.width), UeEncode(x.height), rest);
    FormatIsPrinted(x, s1);
    UeRoundTrip(x.width, s2);
    UeRoundTrip(x.height, rest);
  }

  /** Parsing a printed SPS yields its width and height if both are in 1..8192, and nothing otherwise. */
  lemma SpsRoundTrip(header: seq<bit>, x: SpsSyntax)
    requires |header| == 16 && WellFormed(x)
    ensures ParseSps(header + PrintSps(x)) ==
            if 0 < x.width <= 8192 && 0 < x.height <= 8192 then Some((x.width, x.height)) else None
  {
    var n := |x.subLayers|;
    var s4 := PrintDimensions(x) + x.tail;
    var s3 := PrintProfileTierLevel(x) + s4;
    Regroup(header, x.vpsId, BitsOf(n, 3), [x.nesting], PrintProfileTierLevel(x), PrintDimensions(x), x.tail);
    SmallFieldBits(n);
    FixedFields(header + x.vpsId, BitsOf(n, 3), [x.nesting], s3);
    ProfileTierLevelIsPrinted(x, s4);
    DimensionsArePrinted(x, x.tail);
  }

  lemma Regroup(h: seq<bit>, a: seq<bit>, b: seq<bit>, c: seq<bit>, p: seq<bit>, d: seq<bit>, t: seq<bit>)
    ensures h + (a + b + c + p + d + t) == (h + a) + (b + (c + (p + (d + t))))
  {
  }

  lemma SmallFieldBits(n: nat)
    requires n < 8
    ensures BitsValue(BitsOf(n, 3)) == n
  {
    assert Pow2(3) == 8;
    ValueOfBits(n, 3);
  }

  /** The fixed-width fields at the head of an SPS. */
  lemma FixedFields(a: seq<bit>, b: seq<bit>, c: seq<bit>, rest: seq<bit>)
    requires |a| == 20 && |b| == 3 && |c| == 1 && BitsValue(b) < 8
    ensures var ptl := SkipProfileTierLevelSpec(rest, BitsValue(b));
            ParseSps(a + (b + (c + rest))) == if ptl.None? then None else ParseDimensionsSpec(ptl.value)
  {
    SkipPrinted(a, b + (c + rest));
    SkipPrinted(b, c + rest);
    SkipPrinted(c, rest);
    assert (b + (c + rest))[..3] == b;
  }
}
