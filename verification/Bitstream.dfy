/**
 Emulation prevention and bit-level reading of H.265 NAL units.

 `Unescape` is the byte-level rule of section 7.3.1.1 of ITU-T H.265; `BitReader` applies the same
 rule on the fly, one bit at a time, by looking back at raw bytes.
 */
module Bitstream {
  import opened Wrappers
  import opened Bytes

  /** How many zero bytes end the output, counting at most two. */
  function NextZeros(zeros: nat, b: byte): nat
    requires zeros <= 2
    ensures NextZeros(zeros, b) <= 2
  {
    if b != 0 then 0 else if zeros < 2 then zeros + 1 else 2
  }

  /** Remove each 0x03 that follows two zero bytes; `zeros` counts the zeros already seen. */
  function Unescape(nal: seq<byte>, zeros: nat): (rbsp: seq<byte>)
    requires zeros <= 2
  {
    if nal == [] then []
    else if zeros == 2 && nal[0] == 3 then Unescape(nal[1..], 0)
    else [nal[0]] + Unescape(nal[1..], NextZeros(zeros, nal[0]))
  }

  /** Insert 0x03 before each byte of at most 3 that follows two zero bytes. */
  function Escape(rbsp: seq<byte>, zeros: nat): (nal: seq<byte>)
    requires zeros <= 2
  {
    if rbsp == [] then []
    else if zeros == 2 && rbsp[0] <= 3 then [3, rbsp[0]] + Escape(rbsp[1..], NextZeros(0, rbsp[0]))
    else [rbsp[0]] + Escape(rbsp[1..], NextZeros(zeros, rbsp[0]))
  }

  /** Removal undoes insertion. */
  lemma {:induction false} UnescapeUndoesEscape(rbsp: seq<byte>, zeros: nat)
    requires zeros <= 2
    ensures Unescape(Escape(rbsp, zeros), zeros) == rbsp
  {
    if rbsp != [] {
      var nal := Escape(rbsp, zeros);
      if zeros == 2 && rbsp[0] <= 3 {
        var z := NextZeros(0, rbsp[0]);
        UnescapeUndoesEscape(rbsp[1..], z);
        assert nal[1..] == [rbsp[0]] + Escape(rbsp[1..], z);
        assert nal[1..][1..] == Escape(rbsp[1..], z);
      } else {
        UnescapeUndoesEscape(rbsp[1..], NextZeros(zeros, rbsp[0]));
        assert nal[1..] == Escape(rbsp[1..], NextZeros(zeros, rbsp[0]));
      }
      assert rbsp == [rbsp[0]] + rbsp[1..];
    }
  }

  /** The removal rule as section 7.3.1.1 of ITU-T H.265 writes it, with a three-byte look-ahead. */
  function StandardRemoval(nal: seq<byte>): seq<byte> {
    if nal == [] then []
    else if |nal| >= 3 && nal[0] == 0 && nal[1] == 0 && nal[2] == 3 then [0, 0] + StandardRemoval(nal[3..])
    else [nal[0]] + StandardRemoval(nal[1..])
  }

  /** Counting zeros on the way and looking ahead three bytes remove the same bytes. */
  lemma {:induction false} UnescapeIsTheStandardRule(nal: seq<byte>, zeros: nat)
    requires zeros <= 2
    ensures StandardRemoval(Zeros(zeros) + nal) == Zeros(zeros) + Unescape(nal, zeros)
    decreases |nal|
  {
    if nal == [] {
      OnlyZeros(zeros);
    } else if zeros == 2 && nal[0] == 3 {
      UnescapeIsTheStandardRule(nal[1..], 0);
      var s := Zeros(2) + nal;
      assert Zeros(0) + nal[1..] == nal[1..] == s[3..];
      assert StandardRemoval(s) == [0, 0] + StandardRemoval(s[3..]);
    } else if nal[0] != 0 {
      UnescapeIsTheStandardRule(nal[1..], 0);
      assert Zeros(0) + nal[1..] == nal[1..];
      LeadingBytes(zeros, nal);
    } else {
      UnescapeIsTheStandardRule(nal[1..], NextZeros(zeros, 0));
      AnotherZero(zeros, nal);
    }
  }

  lemma OnlyZeros(zeros: nat)
    requires zeros <= 2
    ensures StandardRemoval(Zeros(zeros) + []) == Zeros(zeros)
  {
    var s := Zeros(zeros) + [];
    if zeros > 0 {
      OnlyZeros(zeros - 1);
      assert s[1..] == Zeros(zeros - 1) + [];
    }
  }

  lemma AnotherZero(zeros: nat, nal: seq<byte>)
    requires zeros <= 2 && nal != [] && nal[0] == 0
    ensures StandardRemoval(Zeros(zeros) + nal) ==
            Zeros(if zeros == 2 then 1 else 0) + StandardRemoval(Zeros(NextZeros(zeros, 0)) + nal[1..])
  {
    var s := Zeros(zeros) + nal;
    if zeros == 2 {
      assert s[1..] == Zeros(2) + nal[1..];
      assert StandardRemoval(s) == [0] + StandardRemoval(s[1..]);
    } else {
      assert s == Zeros(zeros + 1) + nal[1..];
    }
  }

  /** Zeros before a byte that is neither zero nor removed pass through. */
  lemma LeadingBytes(zeros: nat, nal: seq<byte>)
    requires zeros <= 2 && nal != [] && nal[0] != 0 && !(zeros == 2 && nal[0] == 3)
    ensures StandardRemoval(Zeros(zeros) + nal) == Zeros(zeros) + [nal[0]] + StandardRemoval(nal[1..])
  {
    hide StandardRemoval;
    var s := Zeros(zeros) + nal;
    FirstByteStays(s);
    if zeros > 0 {
      LeadingBytes(zeros - 1, nal);
      assert s[1..] == Zeros(zeros - 1) + nal;
      assert [0] + Zeros(zeros - 1) == Zeros(zeros);
    } else {
      assert s == nal;
    }
  }

  lemma FirstByteStays(nal: seq<byte>)
    requires nal != [] && !(|nal| >= 3 && nal[0] == 0 && nal[1] == 0 && nal[2] == 3)
    ensures StandardRemoval(nal) == [nal[0]] + StandardRemoval(nal[1..])
  {
  }

  /** Three bytes that may not occur in an escaped NAL unit. */
  predicate Forbidden(s: seq<byte>, i: nat) {
    i + 2 < |s| && s[i] == 0 && s[i + 1] == 0 && s[i + 2] <= 2
  }

  function Zeros(n: nat): seq<byte> {
    seq(n, _ => 0)
  }

  /** An escaped NAL unit contains none of 000000, 000001 and 000002, so no start code. */
  lemma {:induction false} EscapeHidesStartCodes(rbsp: seq<byte>, zeros: nat)
    requires zeros <= 2
    ensures forall i: nat :: !Forbidden(Zeros(zeros) + Escape(rbsp, zeros), i)
  {
    if rbsp != [] {
      var b := rbsp[0];
      var s := Zeros(zeros) + Escape(rbsp, zeros);
      var z := if zeros == 2 && b <= 3 then NextZeros(0, b) else NextZeros(zeros, b);
      EscapeHidesStartCodes(rbsp[1..], z);
      var t := Zeros(z) + Escape(rbsp[1..], z);
      var shift := |s| - |t|;
      assert forall j :: z <= j < |t| ==> t[j] == s[j + shift];
      assert forall j :: shift <= j < shift + z ==> s[j] == 0;
      forall i: nat | Forbidden(s, i)
        ensures false
      {
        if i >= shift {
          assert Forbidden(t, i - shift);
        }
      }
    }
  }

  // ---------------------------------------------------------------- bits

  type bit = b: int | 0 <= b < 2

  function Pow2(k: nat): (p: nat)
    ensures p >= 1
  {
    if k == 0 then 1 else 2 * Pow2(k - 1)
  }

  /** Bit i of a byte, counted from the most significant one. */
  function BitAt(b: byte, i: nat): bit
    requires i < 8
  {
    (b / Pow2(7 - i)) % 2
  }

  function ByteBits(b: byte): (s: seq<bit>)
    ensures |s| == 8
  {
    seq(8, i requires 0 <= i < 8 => BitAt(b, i))
  }

  function Bits(bs: seq<byte>): (s: seq<bit>)
    ensures |s| == 8 * |bs|
  {
    if bs == [] then [] else ByteBits(bs[0]) + Bits(bs[1..])
  }

  /** The number whose binary digits are s. */
  function BitsValue(s: seq<bit>): (n: nat)
    ensures n < Pow2(|s|)
  {
    if s == [] then 0 else 2 * BitsValue(s[..|s| - 1]) + s[|s| - 1]
  }

  /** The k low-order binary digits of n. */
  function BitsOf(n: nat, k: nat): (s: seq<bit>)
    ensures |s| == k
  {
    if k == 0 then [] else BitsOf(n / 2, k - 1) + [n % 2]
  }

  lemma {:induction false} ValueOfBits(n: nat, k: nat)
    requires n < Pow2(k)
    ensures BitsValue(BitsOf(n, k)) == n
  {
    if k > 0 {
      ValueOfBits(n / 2, k - 1);
      assert BitsOf(n, k)[..k - 1] == BitsOf(n / 2, k - 1);
    }
  }

  lemma {:induction false} DigitsOfValue(s: seq<bit>)
    ensures BitsOf(BitsValue(s), |s|) == s
  {
    if s != [] {
      DigitsOfValue(s[..|s| - 1]);
      assert s == s[..|s| - 1] + [s[|s| - 1]];
    }
  }

  lemma {:induction false} DigitAt(n: nat, k: nat, i: nat)
    requires i < k
    ensures BitsOf(n, k)[i] == (n / Pow2(k - 1 - i)) % 2
  {
    if i < k - 1 {
      DigitAt(n / 2, k - 1, i);
      HalfFirst(n, Pow2(k - 2 - i));
    }
  }

  lemma HalfFirst(n: nat, p: nat)
    requires p >= 1
    ensures n / 2 / p == n / (2 * p)
  {
    var q, r := n / 2 / p, n / 2 % p;
    assert n == (q * p + r) * 2 + n % 2 == q * (2 * p) + (2 * r + n % 2);
    DivisionIsUnique(n, 2 * p, q, 2 * r + n % 2);
  }

  lemma ByteBitsAreDigits(b: byte)
    ensures ByteBits(b) == BitsOf(b, 8)
  {
    hide BitsOf;
    forall i | 0 <= i < 8 ensures BitsOf(b, 8)[i] == ByteBits(b)[i] {
      DigitAt(b, 8, i);
    }
  }

  /** The bits of a byte are its binary digits, the most significant one first. */
  lemma ByteIsItsBits(b: byte)
    ensures BitsValue(ByteBits(b)) == b
  {
    ByteBitsAreDigits(b);
    assert Pow2(8) == 256;
    ValueOfBits(b, 8);
  }

  /** Bits written out as bytes. */
  function Packed(s: seq<bit>): seq<byte>
    requires |s| % 8 == 0
  {
    if s == [] then [] else
    assert Pow2(8) == 256;
    [BitsValue(s[..8])] + Packed(s[8..])
  }

  /** Reading the bytes gives the bits back. */
  lemma {:induction false} BitsOfPacked(s: seq<bit>)
    requires |s| % 8 == 0
    ensures Bits(Packed(s)) == s
  {
    if s != [] {
      assert Pow2(8) == 256;
      BitsOfPacked(s[8..]);
      DigitsOfValue(s[..8]);
      ByteBitsAreDigits(BitsValue(s[..8]));
      assert Packed(s)[1..] == Packed(s[8..]);
      assert s == s[..8] + s[8..];
    }
  }

  // ---------------------------------------------------------------- the reader

  /** An emulation-prevention byte, recognised by looking back at the raw bytes. */
  predicate IsEscapeByte(data: seq<byte>, p: nat) {
    2 <= p < |data| && data[p] == 3 && data[p - 1] == 0 && data[p - 2] == 0
  }

  /** Zeros before position p: what the byte-level rule would have counted there. */
  function ZerosBefore(data: seq<byte>, p: nat): (z: nat)
    requires p <= |data|
    ensures z <= 2
  {
    if p >= 1 && data[p - 1] == 0 then (if p >= 2 && data[p - 2] == 0 then 2 else 1) else 0
  }

  /** Everything the reader will still yield from raw position p on. */
  function RestFrom(data: seq<byte>, p: nat): seq<byte>
    requires p <= |data|
  {
    Unescape(data[p..], ZerosBefore(data, p))
  }

  /** One byte further on: either the next byte is payload, or it is dropped. */
  lemma RestStep(data: seq<byte>, p: nat)
    requires p < |data|
    ensures RestFrom(data, p) ==
            if IsEscapeByte(data, p) then RestFrom(data, p + 1) else [data[p]] + RestFrom(data, p + 1)
  {
    assert data[p..][1..] == data[p + 1..];
  }

  /** The next bit from position p, bit k, and what remains behind it. */
  lemma BitStep(data: seq<byte>, p: nat, k: nat)
    requires p < |data| && k < 8 && !IsEscapeByte(data, p)
    ensures var r := Bits(RestFrom(data, p));
            && k < |r| && r[k..][0] == BitAt(data[p], k)
            && r[k..][1..] == r[k + 1..]
            && (k == 7 ==> r[k + 1..] == Bits(RestFrom(data, p + 1))[0..])
  {
    RestStep(data, p);
    var tail := RestFrom(data, p + 1);
    var whole := [data[p]] + tail;
    assert whole[1..] == tail;
    assert Bits(whole) == ByteBits(data[p]) + Bits(tail);
  }

  /** Stepping over an emulation-prevention byte leaves the remaining bits as they are. */
  lemma AfterByte(data: seq<byte>, p: nat)
    requires p <= |data|
    ensures IsEscapeByte(data, p) ==> RestFrom(data, p) == RestFrom(data, p + 1) && !IsEscapeByte(data, p + 1)
  {
    if IsEscapeByte(data, p) {
      RestStep(data, p);
    }
  }

  class BitReader {
    const data: seq<byte>
    var bytePos: nat
    var bitPos: nat
    ghost var rest: seq<bit>  // the bits not yet read

    ghost predicate Valid()
      reads this
    {
      && bytePos <= |data|
      && bitPos < 8
      && (bytePos == |data| ==> bitPos == 0)
      && !IsEscapeByte(data, bytePos)
      && rest == Bits(RestFrom(data, bytePos))[bitPos..]
    }

    constructor (data: seq<byte>)
      ensures Valid() && this.data == data
      ensures rest == Bits(Unescape(data, 0))
    {
      this.data := data;
      bytePos, bitPos := 0, 0;
      rest := Bits(Unescape(data, 0));
      new;
      assert data[0..] == data;
    }

    method ReadBit() returns (r: Option<bit>)
      requires Valid()
      modifies this
      ensures Valid()
      ensures old(rest) == [] ==> r == None && rest == []
      ensures old(rest) != [] ==> r == Some(old(rest)[0]) && rest == old(rest)[1..]
    {
      if bytePos >= |data| {
        assert data[bytePos..] == [];
        return None;
      }
      BitStep(data, bytePos, bitPos);
      rest := rest[1..];
      var b := BitAt(data[bytePos], bitPos);
      bitPos := bitPos + 1;
      if bitPos >= 8 {
        bitPos := 0;
        bytePos := bytePos + 1;
        AfterByte(data, bytePos);
        if bytePos >= 2 && bytePos < |data| && data[bytePos] == 3 && data[bytePos - 1] == 0 && data[bytePos - 2] == 0 {
          bytePos := bytePos + 1;
        }
      }
      r := Some(b);
    }

    /** Reads n bits as a number; the accumulator is a 32-bit word. */
    method ReadBits(n: nat) returns (r: Option<nat>)
      requires Valid()
      modifies this
      ensures Valid()
      ensures |old(rest)| < n ==> r == None && rest == []
      ensures |old(rest)| >= n ==>
                && r == Some(Wrap32(BitsValue(old(rest)[..n])))
                && rest == old(rest)[n..]
    {
      ghost var all := rest;
      var val := 0;
      for i := 0 to n
        invariant Valid()
        invariant i <= |all| && rest == all[i..]
        invariant val == Wrap32(BitsValue(all[..i]))
      {
        var b := ReadBit();
        if b.None? {
          return None;
        }
        AppendBit(all, i);
        val := Wrap32(val * 2) + b.value;
      }
      return Some(val);
    }

    method Skip(n: nat) returns (r: Option<()>)
      requires Valid()
      modifies this
      ensures Valid()
      ensures |old(rest)| < n ==> r == None && rest == []
      ensures |old(rest)| >= n ==> r == Some(()) && rest == old(rest)[n..]
    {
      ghost var all := rest;
      for i := 0 to n
        invariant Valid()
        invariant i <= |all| && rest == all[i..]
      {
        var b := ReadBit();
        if b.None? {
          return None;
        }
      }
      return Some(());
    }

    /** The loop at the head of ReadUe: count zeros up to the first one, giving up after 31. */
    method ReadLeadingZeros() returns (r: Option<nat>)
      requires Valid()
      modifies this
      ensures Valid()
      ensures var k := LeadingZeros(old(rest));
              if k <= 31 && k < |old(rest)| then r == Some(k) && rest == old(rest)[k + 1..] else r == None
    {
      ghost var all := rest;
      var leadingZeros := 0;
      while true
        invariant Valid()
        invariant leadingZeros <= 31 && leadingZeros <= |all|
        invariant forall i :: 0 <= i < leadingZeros ==> all[i] == 0
        invariant rest == all[leadingZeros..]
        decreases 32 - leadingZeros
      {
        var b := ReadBit();
        if b.None? {
          LeadingZerosAre(all, |all|);
          return None;
        }
        if b.value != 0 {
          LeadingZerosAre(all, leadingZeros);
          return Some(leadingZeros);
        }
        leadingZeros := leadingZeros + 1;
        if leadingZeros > 31 {
          LeadingZerosAtLeast(all, 32);
          return None;
        }
      }
    }

    /** Reads an Exp-Golomb number; every intermediate value fits a 32-bit word. */
    method ReadUe() returns (r: Option<nat>)
      requires Valid()
      modifies this
      ensures Valid()
      ensures match UeDecode(old(rest))
              case Malformed => r == None
              case Number(v, behind) => r == Some(v) && v < U32 - 1 && rest == behind
    {
      UeShape(rest);
      hide UeDecode, BitsValue, Pow2, Wrap32;
      var leadingZeros := ReadLeadingZeros();
      if leadingZeros.None? {
        return None;
      }
      var k := leadingZeros.value;
      if k == 0 {
        return Some(0);
      }
      var suffix := ReadBits(k);
      if suffix.None? {
        return None;
      }
      return Some(Pow2(k) - 1 + suffix.value);
    }
  }

  /** How decoding proceeds: the zeros, the one, and as many digits again. */
  lemma UeShape(s: seq<bit>)
    ensures var k := LeadingZeros(s);
            if k > 31 || k >= |s| || |s[k + 1..]| < k then UeDecode(s) == Malformed
            else
              && UeDecode(s) == Number(Pow2(k) - 1 + Wrap32(BitsValue(s[k + 1..][..k])), s[k + 1..][k..])
              && UeDecode(s).value < U32 - 1
              && (k == 0 ==> UeDecode(s) == Number(0, s[1..]))
  {
    var k := LeadingZeros(s);
    if k <= 31 && k < |s| && |s[k + 1..]| >= k {
      var digits := s[k + 1..2 * k + 1];
      assert s[k + 1..][..k] == digits;
      assert s[k + 1..][k..] == s[2 * k + 1..];
      assert Pow2(k) <= 0x8000_0000 by {
        Pow2Of31();
        Pow2Monotone(k, 31);
      }
      SmallMod(BitsValue(digits));
      if k == 0 {
        assert digits == [];
      }
    }
  }

  lemma SmallMod(v: nat)
    requires v < U32
    ensures Wrap32(v) == v
  {
  }

  /** Shifting one more bit into a 32-bit accumulator. */
  lemma AppendBit(s: seq<bit>, i: nat)
    requires i < |s|
    ensures Wrap32(BitsValue(s[..i + 1])) == Wrap32(Wrap32(BitsValue(s[..i])) * 2) + s[i]
  {
    assert s[..i + 1][..i] == s[..i];
    DoubleMod(BitsValue(s[..i]), s[i]);
  }

  lemma DoubleMod(n: nat, b: bit)
    ensures Wrap32(Wrap32(n) * 2) + b == Wrap32(2 * n + b)
  {
    var k: nat, r: u32 := n / 0x1_0000_0000, Wrap32(n);
    hide Wrap32;
    if 2 * r < U32 {
      WrapIs(2 * r, 0, 2 * r);
      WrapIs(2 * n + b, 2 * k, 2 * r + b);
    } else {
      WrapIs(2 * r, 1, 2 * r - U32);
      WrapIs(2 * n + b, 2 * k + 1, 2 * r - U32 + b);
    }
  }

  // ---------------------------------------------------------------- Exp-Golomb

  function LeadingZeros(s: seq<bit>): (n: nat)
    ensures n <= |s|
  {
    if s == [] || s[0] == 1 then 0 else 1 + LeadingZeros(s[1..])
  }

  lemma {:induction false} LeadingZerosAre(s: seq<bit>, n: nat)
    requires n <= |s| && (forall i :: 0 <= i < n ==> s[i] == 0) && (n < |s| ==> s[n] == 1)
    ensures LeadingZeros(s) == n
  {
    if n > 0 {
      LeadingZerosAre(s[1..], n - 1);
    }
  }

  lemma {:induction false} LeadingZerosAtLeast(s: seq<bit>, n: nat)
    requires n <= |s| && (forall i :: 0 <= i < n ==> s[i] == 0)
    ensures LeadingZeros(s) >= n
  {
    if n > 0 {
      LeadingZerosAtLeast(s[1..], n - 1);
    }
  }

  /** A decoded number with the bits behind its code. */
  datatype Ue = Malformed | Number(value: nat, rest: seq<bit>)

  /** The ue(v) descriptor: k zeros, a one, k more digits; at most 31 zeros are accepted. */
  function UeDecode(s: seq<bit>): Ue {
    var k := LeadingZeros(s);
    if k > 31 || |s| < 2 * k + 1 then Malformed
    else Number(Pow2(k) - 1 + BitsValue(s[k + 1..2 * k + 1]), s[2 * k + 1..])
  }

  /** Digits of n + 1 after its leading one. */
  function Log2(n: nat): (k: nat)
    requires n >= 1
    ensures Pow2(k) <= n < Pow2(k + 1)
  {
    if n == 1 then 0 else 1 + Log2(n / 2)
  }

  /** The ue(v) code of section 9.2 of ITU-T H.265. */
  function UeEncode(v: nat): (s: seq<bit>) {
    var k := Log2(v + 1);
    Zeros(k) + [1] + BitsOf(v + 1 - Pow2(k), k)
  }

  lemma {:induction false} Pow2Monotone(a: nat, b: nat)
    requires a <= b
    ensures Pow2(a) <= Pow2(b)
    decreases b
  {
    if a < b {
      Pow2Monotone(a, b - 1);
    }
  }

  lemma Pow2Of31()
    ensures Pow2(31) == 0x8000_0000
  {
    assert Pow2(8) == 256;
    assert Pow2(16) == 0x1_0000;
    assert Pow2(24) == 0x100_0000;
  }

  lemma Log2AtMost31(n: nat)
    requires 1 <= n < U32
    ensures Log2(n) <= 31
  {
    if Log2(n) > 31 {
      Pow2Of31();
      Pow2Monotone(32, Log2(n));
      assert false;
    }
  }

  /** The shape of a code word: k zeros, a one, k digits. */
  lemma UePattern(k: nat, digits: seq<bit>, rest: seq<bit>)
    requires |digits| == k
    ensures var s := Zeros(k) + [1] + digits + rest;
            && LeadingZeros(s) == k && |s| == 2 * k + 1 + |rest|
            && s[k + 1..2 * k + 1] == digits && s[2 * k + 1..] == rest
  {
    LeadingZerosAre(Zeros(k) + [1] + digits + rest, k);
  }

  lemma UeDecodeOfPattern(k: nat, digits: seq<bit>, rest: seq<bit>)
    requires |digits| == k <= 31
    ensures UeDecode(Zeros(k) + [1] + digits + rest) == Number(Pow2(k) - 1 + BitsValue(digits), rest)
  {
    hide LeadingZeros, BitsValue, Pow2;
    UePattern(k, digits, rest);
  }

  /** Reading inverts writing for every value below 2^32 - 1 and consumes exactly the code's bits. */
  lemma UeRoundTrip(v: nat, rest: seq<bit>)
    requires v < U32 - 1
    ensures UeDecode(UeEncode(v) + rest) == Number(v, rest)
  {
    hide UeDecode, Log2, BitsOf, BitsValue, Zeros;
    var k := Log2(v + 1);
    Log2AtMost31(v + 1);
    UeDecodeOfPattern(k, BitsOf(v + 1 - Pow2(k), k), rest);
    ValueOfBits(v + 1 - Pow2(k), k);
  }
}
