/** Bytes and big-endian integers, as written and read by every packet codec. */
module Bytes {
  type byte = n: int | 0 <= n < 256

  const U16 := 0x1_0000
  const U32 := 0x1_0000_0000
  const U64 := 0x1_0000_0000_0000_0000

  type u16 = n: int | 0 <= n < 0x1_0000
  type u32 = n: int | 0 <= n < 0x1_0000_0000
  type u64 = n: int | 0 <= n < 0x1_0000_0000_0000_0000

  /** 256 to the power k: the number of values k bytes can hold. */
  function Span(k: nat): (r: nat)
    ensures r >= 1
  {
    if k == 0 then 1 else 256 * Span(k - 1)
  }

  /** The k low-order bytes of n, most significant first (`to_be_bytes`). */
  function BeBytes(n: nat, k: nat): (s: seq<byte>)
    ensures |s| == k
  {
    if k == 0 then [] else BeBytes(n / 256, k - 1) + [n % 256]
  }

  /** The number that a big-endian byte string denotes (`from_be_bytes`). */
  function BeValue(s: seq<byte>): (n: nat)
    ensures n < Span(|s|)
  {
    if s == [] then 0 else 256 * BeValue(s[..|s| - 1]) + s[|s| - 1]
  }

  /** Reading back the k low-order bytes of n gives n, reduced to k bytes. */
  lemma {:induction false} ValueOfBytes(n: nat, k: nat)
    requires n < Span(k)
    ensures BeValue(BeBytes(n, k)) == n
  {
    if k > 0 {
      ValueOfBytes(n / 256, k - 1);
      var s := BeBytes(n, k);
      assert s[..k - 1] == BeBytes(n / 256, k - 1);
    }
  }

  /** Writing what was read gives the bytes that were read. */
  lemma {:induction false} BytesOfValue(s: seq<byte>)
    ensures BeBytes(BeValue(s), |s|) == s
  {
    if s != [] {
      var n, high, low := |s| - 1, BeValue(s[..|s| - 1]), s[|s| - 1];
      BytesOfValue(s[..n]);
      assert BeValue(s) == 256 * high + low;
      LastByte(high, low);
      assert BeBytes(256 * high + low, n + 1) == BeBytes(high, n) + [low];
      assert s == s[..n] + [low];
    }
  }

  lemma LastByte(high: nat, low: byte)
    ensures (256 * high + low) / 256 == high && (256 * high + low) % 256 == low
  {
  }

  lemma Spans()
    ensures Span(2) == U16 && Span(4) == U32 && Span(8) == U64
  {
    assert Span(2) == 256 * Span(1) && Span(1) == 256;
    assert Span(4) == 256 * Span(3) && Span(3) == 256 * Span(2);
    assert Span(6) == 256 * Span(5) && Span(5) == 256 * Span(4);
    assert Span(8) == 256 * Span(7) && Span(7) == 256 * Span(6);
  }

  // The numbers in 2, 4 and 8 bytes of a string from i on, most significant byte first, written out.

  function Word16(d: seq<byte>, i: nat): nat
    requires i + 2 <= |d|
  {
    d[i] as nat * 0x100 + d[i + 1]
  }

  function Word32(d: seq<byte>, i: nat): nat
    requires i + 4 <= |d|
  {
    Word16(d, i) * 0x1_0000 + Word16(d, i + 2)
  }

  function Word64(d: seq<byte>, i: nat): nat
    requires i + 8 <= |d|
  {
    Word32(d, i) * 0x1_0000_0000 + Word32(d, i + 4)
  }

  lemma Words(d: seq<byte>, i: nat)
    ensures i + 2 <= |d| ==> BeValue(d[i..i + 2]) == Word16(d, i)
    ensures i + 4 <= |d| ==> BeValue(d[i..i + 4]) == Word32(d, i)
    ensures i + 8 <= |d| ==> BeValue(d[i..i + 8]) == Word64(d, i)
  {
    if i + 2 <= |d| {
      TwoBytes(d[i..i + 2]);
    }
    if i + 4 <= |d| {
      FourBytes(d[i..i + 4]);
    }
    if i + 8 <= |d| {
      EightBytes(d[i..i + 8]);
    }
  }

  lemma TwoBytes(s: seq<byte>)
    requires |s| == 2
    ensures BeValue(s) == Word16(s, 0)
  {
    assert s[..1][..0] == [];
  }

  lemma FourBytes(s: seq<byte>)
    requires |s| == 4
    ensures BeValue(s) == Word32(s, 0)
  {
    TwoBytes(s[..2]);
    assert s[..3][..2] == s[..2];
    assert BeValue(s[..3]) == 256 * BeValue(s[..2]) + s[2];
  }

  lemma EightBytes(s: seq<byte>)
    requires |s| == 8
    ensures BeValue(s) == Word64(s, 0)
  {
    FourBytes(s[..4]);
    assert s[..5][..4] == s[..4] && s[..6][..5] == s[..5] && s[..7][..6] == s[..6];
    assert BeValue(s[..5]) == 256 * BeValue(s[..4]) + s[4];
    assert BeValue(s[..6]) == 256 * BeValue(s[..5]) + s[5];
    assert BeValue(s[..7]) == 256 * BeValue(s[..6]) + s[6];
  }

  /** Byte strings put end to end. */
  function Concat(chunks: seq<seq<byte>>): seq<byte> {
    if chunks == [] then [] else chunks[0] + Concat(chunks[1..])
  }

  /** Wrapping 32-bit subtraction (`wrapping_sub`). */
  function WrapSub(a: u32, b: u32): (r: u32) {
    if a >= b then a - b else a - b + U32
  }

  /** Wrapping 32-bit addition (`wrapping_add`). */
  function WrapAdd(a: u32, n: nat): (r: u32) {
    Wrap32(a + n)
  }

  /** What is left of a number in a 32-bit word. */
  function Wrap32(n: nat): (r: u32) {
    n % 0x1_0000_0000
  }

  /** Whole multiples of 2^32 do not count. */
  lemma WrapIs(n: nat, k: nat, r: u32)
    requires n == k * 0x1_0000_0000 + r
    ensures Wrap32(n) == r
  {
  }

  lemma DivisionIsUnique(k: nat, w: nat, q: nat, r: nat)
    requires r < w && k == q * w + r
    ensures k / w == q && k % w == r
  {
    var d, side: int := k / w - q, w;
    assert k == (k / w) * w + k % w;
    assert d * side == r - k % w;
    assert d >= 1 ==> d * side >= side;
    assert d <= -1 ==> d * side <= 0 - side;
  }
}
