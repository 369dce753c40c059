/** Fixed-point BT.601 conversion between 32-bit pixels and planar YUV 4:2:0. */
module Colour {
  import opened Bytes
  import opened I420

  /** The order of the colour bytes in a 32-bit pixel. */
  datatype Layout = Bgra | Rgba

  datatype Pixel = Pixel(r: byte, g: byte, b: byte)

  function ClampU8(v: int): (r: byte)
    ensures 0 <= v <= 255 ==> r == v
    ensures r <= v || r == 0
    ensures v <= r || r == 255
  {
    if v < 0 then 0 else if v > 255 then 255 else v
  }

  // ----- the arithmetic of one pixel; v / 256 rounds down, as `>> 8` does on a signed word -----

  function Luma(r: int, g: int, b: int): int {
    (66 * r + 129 * g + 25 * b + 128) / 256 + 16
  }

  function BlueChroma(r: int, g: int, b: int): int {
    (-38 * r - 74 * g + 112 * b + 128) / 256 + 128
  }

  function RedChroma(r: int, g: int, b: int): int {
    (112 * r - 94 * g - 18 * b + 128) / 256 + 128
  }

  function LumaByte(p: Pixel): byte {
    ClampU8(Luma(p.r, p.g, p.b))
  }

  function BlueByte(p: Pixel): byte {
    ClampU8(BlueChroma(p.r, p.g, p.b))
  }

  function RedByte(p: Pixel): byte {
    ClampU8(RedChroma(p.r, p.g, p.b))
  }

  function Red(y: int, v: int): int {
    (298 * (y - 16) + 409 * (v - 128) + 128) / 256
  }

  function Green(y: int, u: int, v: int): int {
    (298 * (y - 16) - 100 * (u - 128) - 208 * (v - 128) + 128) / 256
  }

  function Blue(y: int, u: int): int {
    (298 * (y - 16) + 516 * (u - 128) + 128) / 256
  }

  /** The inverse transform of one pixel, from its luma byte and the chroma bytes of its block. */
  function PixelOf(y: byte, u: byte, v: byte): Pixel {
    Pixel(ClampU8(Red(y, v)), ClampU8(Green(y, u, v)), ClampU8(Blue(y, u)))
  }

  /** Luma lands in 16..235 and chroma in 16..240: the forward clamp never changes a value. */
  lemma ForwardStaysInStudioRange(p: Pixel)
    ensures 16 <= Luma(p.r, p.g, p.b) <= 235
    ensures 16 <= BlueChroma(p.r, p.g, p.b) <= 240
    ensures 16 <= RedChroma(p.r, p.g, p.b) <= 240
  {
  }

  // ----- against the exact transform of ITU-R BT.601, in millionths -----

  function Limited(v: int): int {
    if v < 0 then 0 else if v > 255_000_000 then 255_000_000 else v
  }

  /** Less than one off. */
  predicate Close(b: byte, exact: int) {
    -1_000_000 < 1_000_000 * b - exact < 1_000_000
  }

  /** Luma and chroma are less than one off the exact values, for every colour. */
  lemma FollowsBt601(p: Pixel)
    ensures var r: int, g: int, b: int := p.r, p.g, p.b;
            && Close(LumaByte(p), 16_000_000 + 256_788 * r + 504_129 * g + 97_906 * b)
            && Close(BlueByte(p), 128_000_000 - 148_223 * r - 290_993 * g + 439_216 * b)
            && Close(RedByte(p), 128_000_000 + 439_216 * r - 367_788 * g - 71_427 * b)
  {
    ForwardStaysInStudioRange(p);
  }

  /** So are the colours of every triple of luma and chroma bytes, limited to what a byte can hold. */
  lemma InvertsBt601(y: byte, u: byte, v: byte)
    ensures var p := PixelOf(y, u, v);
            var light: int, blue: int, red: int := 1_164_384 * (y as int - 16), u as int - 128, v as int - 128;
            && Close(p.r, Limited(light + 1_596_027 * red))
            && Close(p.g, Limited(light - 391_762 * blue - 812_968 * red))
            && Close(p.b, Limited(light + 2_017_232 * blue))
  {
    var light: int, blue: int, red: int := 1_164_384 * (y as int - 16), u as int - 128, v as int - 128;
    ClampedIsClose(Red(y, v), light + 1_596_027 * red);
    ClampedIsClose(Green(y, u, v), light - 391_762 * blue - 812_968 * red);
    ClampedIsClose(Blue(y, u), light + 2_017_232 * blue);
    hide Red, Green, Blue, ClampU8, Limited, Close;
  }

  lemma ClampedIsClose(v: int, exact: int)
    requires -1_000_000 < 1_000_000 * v - exact < 1_000_000
    ensures Close(ClampU8(v), Limited(exact))
  {
  }

  /** What becomes of a one-colour block. */
  function RoundTripped(p: Pixel): Pixel {
    PixelOf(LumaByte(p), BlueByte(p), RedByte(p))
  }

  ghost predicate Near(p: Pixel, q: Pixel) {
    && -2 <= p.r - q.r <= 2
    && -2 <= p.g - q.g <= 2
    && -3 <= p.b - q.b <= 3
  }

  /** Clamping a value near a byte leaves it as near. */
  lemma ClampStaysNear(v: int, b: byte, bound: nat)
    requires b - bound <= v <= b + bound
    ensures b - bound <= ClampU8(v) <= b + bound
  {
  }

  /** The three channels, before they are clamped. */
  lemma RedError(p: Pixel)
    ensures -2 <= Red(Luma(p.r, p.g, p.b), RedChroma(p.r, p.g, p.b)) - p.r <= 2
  {
  }

  lemma GreenError(p: Pixel)
    ensures -2 <= Green(Luma(p.r, p.g, p.b), BlueChroma(p.r, p.g, p.b), RedChroma(p.r, p.g, p.b)) - p.g <= 2
  {
  }

  lemma BlueError(p: Pixel)
    ensures -3 <= Blue(Luma(p.r, p.g, p.b), BlueChroma(p.r, p.g, p.b)) - p.b <= 3
  {
  }

  /** One-colour blocks come back within 2 in red and green and 3 in blue. */
  lemma PixelRoundTrip(p: Pixel)
    ensures Near(RoundTripped(p), p)
  {
    hide Luma, BlueChroma, RedChroma, ClampU8, Red, Green, Blue;
    ForwardStaysInStudioRange(p);
    var y, u, v := Luma(p.r, p.g, p.b), BlueChroma(p.r, p.g, p.b), RedChroma(p.r, p.g, p.b);
    RedError(p);
    GreenError(p);
    BlueError(p);
    ClampStaysNear(Red(y, v), p.r, 2);
    ClampStaysNear(Green(y, u, v), p.g, 2);
    ClampStaysNear(Blue(y, u), p.b, 3);
  }

  lemma RoundTripOf(p: Pixel, y: byte, u: byte, v: byte)
    requires Luma(p.r, p.g, p.b) == y && BlueChroma(p.r, p.g, p.b) == u && RedChroma(p.r, p.g, p.b) == v
    ensures RoundTripped(p) == PixelOf(y, u, v)
  {
    hide Luma, BlueChroma, RedChroma, PixelOf;
  }

  /** No smaller bound holds: each of the six extremes is reached by some colour. */
  lemma BoundsAreReached()
    ensures RoundTripped(Pixel(152, 207, 0)).r == 152 - 2 && RoundTripped(Pixel(0, 3, 246)).r == 0 + 2
    ensures RoundTripped(Pixel(0, 216, 201)).g == 216 - 2 && RoundTripped(Pixel(171, 21, 9)).g == 21 + 2
    ensures RoundTripped(Pixel(0, 21, 255)).b == 255 - 3 && RoundTripped(Pixel(27, 246, 6)).b == 6 + 3
  {
    hide RoundTripped;
    RoundTripOf(Pixel(152, 207, 0), 159, 46, 118);
    RoundTripOf(Pixel(0, 3, 246), 42, 235, 110);
    RoundTripOf(Pixel(0, 216, 201), 144, 154, 35);
    RoundTripOf(Pixel(171, 21, 9), 72, 100, 194);
    RoundTripOf(Pixel(0, 21, 255), 51, 233, 102);
    RoundTripOf(Pixel(27, 246, 6), 148, 56, 49);
  }

  // ----- whole images -----

  /** A buffer of 32-bit pixels, with the width and height it is taken to have. */
  datatype Image = Image(data: seq<byte>, layout: Layout, w: nat, h: nat) {

    /** The buffer reaches the last colour byte of the last pixel, which is all that is read. */
    ghost predicate Whole() {
      4 * Area(w, h) <= |data| + 1
    }

    function At(row: nat, col: nat): Pixel
      requires Whole()
      requires row < h && col < w
    {
      CellInRange(row, col, w, h);
      PixelAt(data, layout, Cell(row, col, w))
    }
  }

  /** Pixel number k of a buffer in row-major order. */
  function PixelAt(data: seq<byte>, layout: Layout, k: nat): Pixel
    requires 4 * k + 2 < |data|
  {
    var first, second, third := data[4 * k], data[4 * k + 1], data[4 * k + 2];
    match layout
    case Bgra => Pixel(third, second, first)
    case Rgba => Pixel(first, second, third)
  }

  /** Sums of colour values over some pixels, and how many pixels that was. */
  datatype Sum = Sum(r: nat, g: nat, b: nat, count: nat)

  const NOTHING := Sum(0, 0, 0, 0)

  /** The sum is of colour bytes. */
  predicate InRange(s: Sum) {
    s.r <= 255 * s.count && s.g <= 255 * s.count && s.b <= 255 * s.count
  }

  function Plus(s: Sum, t: Sum): (sum: Sum)
    ensures InRange(s) && InRange(t) ==> InRange(sum)
  {
    Sum(s.r + t.r, s.g + t.g, s.b + t.b, s.count + t.count)
  }

  /** One pixel of a block, which counts for nothing if it lies outside the image. */
  function Corner(img: Image, row: nat, col: nat): (s: Sum)
    requires img.Whole()
    ensures s.count == if row < img.h && col < img.w then 1 else 0
    ensures InRange(s)
  {
    hide PixelAt, RowStart;
    if row < img.h && col < img.w then
      var p := img.At(row, col);
      Sum(p.r, p.g, p.b, 1)
    else
      NOTHING
  }

  /** The first n pixels of a row of a block. */
  function RowSum(img: Image, row: nat, col: nat, n: nat): (s: Sum)
    requires img.Whole()
    requires n <= 2
    ensures InRange(s)
    ensures n > 0 && row < img.h && col < img.w ==> s.count > 0
  {
    hide Corner;
    if n == 0 then NOTHING
    else if n == 1 then Corner(img, row, col)
    else Plus(Corner(img, row, col), Corner(img, row, col + 1))
  }

  /** The pixels of the 2x2 block with top left corner (row, col) that lie in the image. */
  function BlockSum(img: Image, row: nat, col: nat): (s: Sum)
    requires img.Whole()
    ensures InRange(s)
    ensures row < img.h && col < img.w ==> s.count > 0
  {
    hide RowSum, InRange;
    Plus(RowSum(img, row, col, 2), RowSum(img, row + 1, col, 2))
  }

  function Mean(s: Sum): Pixel
    requires s.count > 0 && InRange(s)
  {
    MeanInRange(s.r, s.count);
    MeanInRange(s.g, s.count);
    MeanInRange(s.b, s.count);
    Pixel(s.r / s.count, s.g / s.count, s.b / s.count)
  }

  lemma MeanInRange(sum: nat, count: nat)
    requires 0 < count && sum <= 255 * count
    ensures 0 <= sum / count <= 255
  {
    var q := sum / count;
    assert q >= 256 ==> q * count >= 256 * count;
  }

  /** The mean colour of the block in a given row and column of blocks. */
  function BlockColour(img: Image, row: nat, col: nat): Pixel
    requires img.Whole()
    requires row < Half(img.h) && col < Half(img.w)
  {
    hide BlockSum, InRange;
    Mean(BlockSum(img, 2 * row, 2 * col))
  }

  /** The mean colour of the block that chroma cell k stands for. */
  function CellColour(img: Image, k: nat): Pixel
    requires img.Whole()
    requires k < ChromaSize(img.w, img.h)
  {
    CellOfIndex(k, Half(img.w), Half(img.h));
    BlockColour(img, k / Half(img.w), k % Half(img.w))
  }

  /** The planar image: the luma of every pixel, then both chroma values of every block. */
  function Encoded(img: Image): (planes: seq<byte>)
    requires img.Whole()
    ensures |planes| == Size(img.w, img.h)
  {
    var pixels, cells := Area(img.w, img.h), ChromaSize(img.w, img.h);
    seq(pixels, k requires 0 <= k < pixels => LumaByte(PixelAt(img.data, img.layout, k)))
    + seq(cells, k requires 0 <= k < cells => BlueByte(CellColour(img, k)))
    + seq(cells, k requires 0 <= k < cells => RedByte(CellColour(img, k)))
  }

  /** Pixel k of the image that the planes denote. */
  function Decoded(planes: seq<byte>, w: nat, h: nat, k: nat): Pixel
    requires Size(w, h) <= |planes|
    requires k < Area(w, h)
  {
    var cell := CellOfPixel(w, h, k);
    PixelOf(planes[k], planes[Area(w, h) + cell], planes[Area(w, h) + ChromaSize(w, h) + cell])
  }

  /** The chroma cell that pixel k shares with the rest of its block. */
  function CellOfPixel(w: nat, h: nat, k: nat): (cell: nat)
    requires k < Area(w, h)
    ensures cell < ChromaSize(w, h)
  {
    CellOfIndex(k, w, h);
    CellInRange(k / w / 2, k % w / 2, Half(w), Half(h));
    Cell(k / w / 2, k % w / 2, Half(w))
  }

  // ----- the round trip -----

  /** Every 2x2 block of the image, cut short at an odd edge or not, is one colour. */
  ghost predicate UniformBlocks(img: Image)
    requires img.Whole()
  {
    forall row: nat, col: nat :: row < img.h && col < img.w ==>
      img.At(row, col) == img.At(row / 2 * 2, col / 2 * 2)
  }

  /** A sum over pixels that all have colour p. */
  ghost predicate AllOf(s: Sum, p: Pixel) {
    s.r == s.count * p.r && s.g == s.count * p.g && s.b == s.count * p.b
  }

  lemma SumOfEqualColours(s: Sum, t: Sum, p: Pixel)
    requires AllOf(s, p) && AllOf(t, p)
    ensures AllOf(Plus(s, t), p)
  {
  }

  lemma MeanOfEqualValues(sum: nat, count: nat, value: byte)
    requires 0 < count && sum == count * value
    ensures sum / count == value
  {
    DivisionIsUnique(sum, count, value, 0);
  }

  lemma MeanOfEqualColours(s: Sum, p: Pixel)
    requires 0 < s.count && InRange(s) && AllOf(s, p)
    ensures Mean(s) == p
  {
    MeanOfEqualValues(s.r, s.count, p.r);
    MeanOfEqualValues(s.g, s.count, p.g);
    MeanOfEqualValues(s.b, s.count, p.b);
  }

  lemma CornerOfUniform(img: Image, row: nat, col: nat, dy: nat, dx: nat)
    requires img.Whole() && UniformBlocks(img)
    requires row < img.h && col < img.w && row % 2 == 0 && col % 2 == 0 && dy < 2 && dx < 2
    ensures AllOf(Corner(img, row + dy, col + dx), img.At(row, col))
  {
    hide PixelAt, RowStart;
    if row + dy < img.h && col + dx < img.w {
      assert (row + dy) / 2 * 2 == row && (col + dx) / 2 * 2 == col;
      assert img.At(row + dy, col + dx) == img.At(row, col);
    }
  }

  lemma RowSumOfUniform(img: Image, row: nat, col: nat, dy: nat)
    requires img.Whole() && UniformBlocks(img)
    requires row < img.h && col < img.w && row % 2 == 0 && col % 2 == 0 && dy < 2
    ensures AllOf(RowSum(img, row + dy, col, 2), img.At(row, col))
  {
    hide PixelAt, RowStart, Corner, AllOf, Plus, UniformBlocks;
    CornerOfUniform(img, row, col, dy, 0);
    CornerOfUniform(img, row, col, dy, 1);
    SumOfEqualColours(Corner(img, row + dy, col), Corner(img, row + dy, col + 1), img.At(row, col));
  }

  lemma BlockColourOfUniform(img: Image, row: nat, col: nat)
    requires img.Whole() && UniformBlocks(img)
    requires row < img.h && col < img.w && row % 2 == 0 && col % 2 == 0
    ensures BlockColour(img, row / 2, col / 2) == img.At(row, col)
  {
    hide PixelAt, RowStart, RowSum, AllOf, Plus, UniformBlocks;
    var p := img.At(row, col);
    RowSumOfUniform(img, row, col, 0);
    RowSumOfUniform(img, row, col, 1);
    SumOfEqualColours(RowSum(img, row, col, 2), RowSum(img, row + 1, col, 2), p);
    MeanOfEqualColours(BlockSum(img, row, col), p);
  }

  lemma HalfOfIndex(i: nat, n: nat)
    requires i < n
    ensures i / 2 < Half(n)
  {
  }

  lemma CellOfPixelAt(w: nat, h: nat, row: nat, col: nat)
    requires row < h && col < w
    ensures Cell(row, col, w) < Area(w, h)
    ensures CellOfPixel(w, h, Cell(row, col, w)) == Cell(row / 2, col / 2, Half(w)) < ChromaSize(w, h)
  {
    hide RowStart, Cell, Half;
    CellInRange(row, col, w, h);
    CellInRange(row / 2, col / 2, Half(w), Half(h)) by {
      HalfOfIndex(row, h);
      HalfOfIndex(col, w);
    }
  }

  /** The cell numbering used by the encoder and the one used by the specification agree. */
  lemma CellColourOfBlock(img: Image, row: nat, col: nat)
    requires img.Whole()
    requires row < Half(img.h) && col < Half(img.w)
    ensures Cell(row, col, Half(img.w)) < ChromaSize(img.w, img.h)
    ensures CellColour(img, Cell(row, col, Half(img.w))) == BlockColour(img, row, col)
  {
    hide RowStart, BlockSum;
    CellInRange(row, col, Half(img.w), Half(img.h));
  }

  /** In a uniform block the mean is the colour of each of its pixels, however the block is cut. */
  lemma CellColourOfUniform(img: Image, k: nat)
    requires img.Whole() && UniformBlocks(img)
    requires k < Area(img.w, img.h)
    ensures CellColour(img, CellOfPixel(img.w, img.h, k)) == PixelAt(img.data, img.layout, k)
  {
    hide BlockColour, PixelAt, RowStart, Cell, Half, CellOfPixel, CellColour;
    CellOfIndex(k, img.w, img.h);
    var row, col := k / img.w, k % img.w;
    CellOfPixelAt(img.w, img.h, row, col);
    HalfOfIndex(row, img.h);
    HalfOfIndex(col, img.w);
    CellColourOfBlock(img, row / 2, col / 2);
    assert row / 2 * 2 / 2 == row / 2 && col / 2 * 2 / 2 == col / 2;
    BlockColourOfUniform(img, row / 2 * 2, col / 2 * 2);
    assert img.At(row, col) == img.At(row / 2 * 2, col / 2 * 2);
  }

  /** Where the encoder puts the three bytes that the decoder reads for pixel k. */
  lemma EncodedBytesOf(img: Image, k: nat)
    requires img.Whole()
    requires k < Area(img.w, img.h)
    ensures var planes, cell := Encoded(img), CellOfPixel(img.w, img.h, k);
            && planes[k] == LumaByte(PixelAt(img.data, img.layout, k))
            && planes[Area(img.w, img.h) + cell] == BlueByte(CellColour(img, cell))
            && planes[Area(img.w, img.h) + ChromaSize(img.w, img.h) + cell] == RedByte(CellColour(img, cell))
  {
    hide LumaByte, BlueByte, RedByte, CellColour, PixelAt, CellOfPixel, RowStart;
  }

  /** Any image of one-colour blocks, of any size, comes back within 2 in red and green and 3 in blue. */
  lemma ImageRoundTrip(img: Image, k: nat)
    requires img.Whole() && UniformBlocks(img)
    requires k < Area(img.w, img.h)
    ensures Near(Decoded(Encoded(img), img.w, img.h, k), PixelAt(img.data, img.layout, k))
  {
    hide LumaByte, BlueByte, RedByte, CellColour, PixelAt, CellOfPixel, Near, Encoded, PixelOf, UniformBlocks, RowStart;
    EncodedBytesOf(img, k);
    CellColourOfUniform(img, k);
    PixelRoundTrip(PixelAt(img.data, img.layout, k));
  }

  // ----- in bytes -----

  /** Where red, green and blue stand in the four bytes of a pixel. */
  function RedOffset(layout: Layout): nat {
    match layout case Bgra => 2 case Rgba => 0
  }

  function BlueOffset(layout: Layout): nat {
    match layout case Bgra => 0 case Rgba => 2
  }

  /** The luma of pixel k from its bytes, written out for both orders. */
  function LumaOf(data: seq<byte>, layout: Layout, k: nat): int
    requires 4 * k + 2 < |data|
  {
    var a: int, b: int, c: int := data[4 * k], data[4 * k + 1], data[4 * k + 2];
    match layout
    case Bgra => (25 * a + 129 * b + 66 * c + 128) / 256 + 16
    case Rgba => (66 * a + 129 * b + 25 * c + 128) / 256 + 16
  }

  lemma LumaOfBytes(img: Image, k: nat)
    requires img.Whole() && k < Area(img.w, img.h)
    ensures Encoded(img)[k] == LumaOf(img.data, img.layout, k)
  {
    hide RowStart, CellColour;
    ForwardStaysInStudioRange(PixelAt(img.data, img.layout, k));
  }

  /** The byte of one colour of the pixel in a given place, or 0 if that is outside the image. */
  function ByteAt(img: Image, offset: nat, row: nat, col: nat): nat
    requires img.Whole() && offset <= 2
  {
    if row < img.h && col < img.w then
      CellInRange(row, col, img.w, img.h);
      img.data[4 * (row * img.w + col) + offset]
    else 0
  }

  /** One colour summed over a block, and the number of its pixels that lie in the image. */
  function BlockBytes(img: Image, offset: nat, row: nat, col: nat): nat
    requires img.Whole() && offset <= 2
  {
    ByteAt(img, offset, 2 * row, 2 * col) + ByteAt(img, offset, 2 * row, 2 * col + 1)
    + ByteAt(img, offset, 2 * row + 1, 2 * col) + ByteAt(img, offset, 2 * row + 1, 2 * col + 1)
  }

  function BlockPixels(img: Image, row: nat, col: nat): (n: nat)
    ensures n in {1, 2, 4}
  {
    (if 2 * row + 1 < img.h then 2 else 1) * (if 2 * col + 1 < img.w then 2 else 1)
  }

  lemma CornerBytes(img: Image, row: nat, col: nat)
    requires img.Whole()
    ensures var s := Corner(img, row, col);
            && s.r == ByteAt(img, RedOffset(img.layout), row, col)
            && s.g == ByteAt(img, 1, row, col)
            && s.b == ByteAt(img, BlueOffset(img.layout), row, col)
  {
    if row < img.h && col < img.w {
      CellInRange(row, col, img.w, img.h);
    }
  }

  lemma BlockSumBytes(img: Image, row: nat, col: nat)
    requires img.Whole() && row < Half(img.h) && col < Half(img.w)
    ensures var s := BlockSum(img, 2 * row, 2 * col);
            && s.r == BlockBytes(img, RedOffset(img.layout), row, col)
            && s.g == BlockBytes(img, 1, row, col)
            && s.b == BlockBytes(img, BlueOffset(img.layout), row, col)
            && s.count == BlockPixels(img, row, col)
  {
    hide Corner, ByteAt;
    CornerBytes(img, 2 * row, 2 * col);
    CornerBytes(img, 2 * row, 2 * col + 1);
    CornerBytes(img, 2 * row + 1, 2 * col);
    CornerBytes(img, 2 * row + 1, 2 * col + 1);
  }

  lemma BlockColourBytes(img: Image, row: nat, col: nat)
    requires img.Whole() && row < Half(img.h) && col < Half(img.w)
    ensures var n, p := BlockPixels(img, row, col), BlockColour(img, row, col);
            && p.r == BlockBytes(img, RedOffset(img.layout), row, col) / n
            && p.g == BlockBytes(img, 1, row, col) / n
            && p.b == BlockBytes(img, BlueOffset(img.layout), row, col) / n
  {
    hide BlockSum, BlockBytes, RowStart;
    BlockSumBytes(img, row, col);
  }

  lemma EncodedCell(img: Image, k: nat)
    requires img.Whole() && k < ChromaSize(img.w, img.h)
    ensures var planes := Encoded(img);
            && planes[Area(img.w, img.h) + k] == BlueByte(CellColour(img, k))
            && planes[Area(img.w, img.h) + ChromaSize(img.w, img.h) + k] == RedByte(CellColour(img, k))
  {
    hide RowStart, CellColour, PixelAt, LumaByte, BlueByte, RedByte;
  }

  /** Where the chroma of a block stands in each of the two planes. */
  function BlockCell(img: Image, row: nat, col: nat): (cell: nat)
    requires row < Half(img.h) && col < Half(img.w)
    ensures cell < ChromaSize(img.w, img.h)
  {
    CellInRange(row, col, Half(img.w), Half(img.h));
    Cell(row, col, Half(img.w))
  }

  /** Both chroma bytes of a block, from the mean of each colour over the pixels that it has, written out. */
  ghost predicate ChromaIs(u: byte, v: byte, red: nat, green: nat, blue: nat, pixels: nat)
    requires pixels > 0
  {
    var r, g, b := red / pixels, green / pixels, blue / pixels;
    && u as int == (112 * b - 74 * g - 38 * r + 128) / 256 + 128
    && v as int == (112 * r - 94 * g - 18 * b + 128) / 256 + 128
  }

  lemma ChromaOfBytes(img: Image, row: nat, col: nat)
    requires img.Whole() && row < Half(img.h) && col < Half(img.w)
    ensures var cell, planes := BlockCell(img, row, col), Encoded(img);
            ChromaIs(planes[Area(img.w, img.h) + cell], planes[Area(img.w, img.h) + ChromaSize(img.w, img.h) + cell],
                     BlockBytes(img, RedOffset(img.layout), row, col),
                     BlockBytes(img, 1, row, col),
                     BlockBytes(img, BlueOffset(img.layout), row, col),
                     BlockPixels(img, row, col))
  {
    hide RowStart, BlockColour, PixelAt, LumaByte, BlockBytes, BlockPixels, Cell, CellColour, Encoded, Half;
    CellColourOfBlock(img, row, col);
    EncodedCell(img, Cell(row, col, Half(img.w)));
    BlockColourBytes(img, row, col);
    ForwardStaysInStudioRange(BlockColour(img, row, col));
  }

  /** The colour that a luma and two chroma bytes stand for, written out. */
  predicate DecodesTo(y: int, u: int, v: int, p: Pixel) {
    var c, d, e := y - 16, u - 128, v - 128;
    && p.r == ClampU8((298 * c + 409 * e + 128) / 256)
    && p.g == ClampU8((298 * c - 100 * d - 208 * e + 128) / 256)
    && p.b == ClampU8((298 * c + 516 * d + 128) / 256)
  }

  /** Which bytes the colour of a pixel comes from: its luma byte and the two chroma bytes of its block. */
  lemma DecodedOfBytes(planes: seq<byte>, w: nat, h: nat, row: nat, col: nat, luma: nat, cell: nat, area: nat, chroma: nat)
    requires Size(w, h) <= |planes| && row < h && col < w
    requires luma == row * w + col && cell == row / 2 * ((w + 1) / 2) + col / 2
    requires area == h * w && chroma == (h + 1) / 2 * ((w + 1) / 2)
    ensures luma < area <= area + cell < area + chroma && area + chroma + chroma <= |planes|
    ensures DecodesTo(planes[luma], planes[area + cell], planes[area + chroma + cell], Decoded(planes, w, h, luma))
  {
    DecodedAt(planes, w, h, row, col);
    assert luma == Cell(row, col, w) && cell == Cell(row / 2, col / 2, Half(w));
    assert area == Area(w, h) && chroma == ChromaSize(w, h);
    hide Decoded, Cell, Area, ChromaSize, Half, ClampU8;
  }

  /** Every block of the picture has one colour, as its bytes tell. */
  ghost predicate UniformBytes(img: Image)
    requires img.Whole()
  {
    forall row: nat, col: nat, offset: nat :: row < img.h && col < img.w && offset <= 2 ==>
      ByteAt(img, offset, row, col) == ByteAt(img, offset, row / 2 * 2, col / 2 * 2)
  }

  lemma UniformIs(img: Image)
    requires img.Whole() && UniformBytes(img)
    ensures UniformBlocks(img)
  {
    hide UniformBytes, RowStart, PixelAt;
    forall row: nat, col: nat | row < img.h && col < img.w
      ensures img.At(row, col) == img.At(row / 2 * 2, col / 2 * 2)
    {
      UniformAt(img, row, col);
    }
  }

  lemma UniformAt(img: Image, row: nat, col: nat)
    requires img.Whole() && UniformBytes(img) && row < img.h && col < img.w
    ensures img.At(row, col) == img.At(row / 2 * 2, col / 2 * 2)
  {
    hide ByteAt, RowStart, PixelAt;
    AtBytes(img, row, col);
    AtBytes(img, row / 2 * 2, col / 2 * 2);
    assert ByteAt(img, 0, row, col) == ByteAt(img, 0, row / 2 * 2, col / 2 * 2);
    assert ByteAt(img, 1, row, col) == ByteAt(img, 1, row / 2 * 2, col / 2 * 2);
    assert ByteAt(img, 2, row, col) == ByteAt(img, 2, row / 2 * 2, col / 2 * 2);
  }

  lemma AtBytes(img: Image, row: nat, col: nat)
    requires img.Whole() && row < img.h && col < img.w
    ensures var p := img.At(row, col);
            && p.r == ByteAt(img, RedOffset(img.layout), row, col)
            && p.g == ByteAt(img, 1, row, col)
            && p.b == ByteAt(img, BlueOffset(img.layout), row, col)
  {
    CellInRange(row, col, img.w, img.h);
  }

  /** Output pixel k is red, green, blue, opaque, within 2, 2 and 3 of input pixel k, whose bytes are in either order. */
  predicate ComesBack(data: seq<byte>, layout: Layout, rgba: seq<byte>, k: nat)
    requires 4 * k + 2 < |data| && 4 * k + 3 < |rgba|
  {
    var a: int, b: int, c: int := data[4 * k], data[4 * k + 1], data[4 * k + 2];
    && -2 <= rgba[4 * k] as int - (match layout case Bgra => c case Rgba => a) <= 2
    && -2 <= rgba[4 * k + 1] as int - b <= 2
    && -3 <= rgba[4 * k + 2] as int - (match layout case Bgra => a case Rgba => c) <= 3
    && rgba[4 * k + 3] == 255
  }

  /** A picture of one-colour blocks comes back from encoding and decoding. */
  lemma CaptureComesBack(img: Image, rgba: seq<byte>, k: nat)
    requires img.Whole() && UniformBytes(img) && k < Area(img.w, img.h)
    requires 4 * Area(img.w, img.h) <= |rgba| && RgbaWritten(Encoded(img), img.w, img.h, rgba, Area(img.w, img.h))
    ensures ComesBack(img.data, img.layout, rgba, k)
  {
    hide UniformBytes, UniformBlocks, Encoded, Decoded, RowStart;
    UniformIs(img);
    ImageRoundTrip(img, k);
  }

  // ----- the loops -----

  ghost predicate LumaWritten(img: Image, planes: seq<byte>, n: nat)
    requires img.Whole()
    requires n <= Area(img.w, img.h) <= |planes|
  {
    forall k: nat :: k < n ==> planes[k] == LumaByte(PixelAt(img.data, img.layout, k))
  }

  /** The pass over the pixels that writes the luma plane. */
  method WriteLuma(img: Image, planes: array<byte>)
    requires img.Whole()
    requires planes.Length == Size(img.w, img.h)
    modifies planes
    ensures LumaWritten(img, planes[..], Area(img.w, img.h))
  {
    hide RowStart, ChromaSize, PixelAt;
    var w, h := img.w, img.h;
    assert RowStart(0, w) == 0 by { RowStarts(0, w, 1); }
    var row := 0;
    while row < h
      invariant row <= h && RowStart(row, w) <= Area(w, h)
      invariant LumaWritten(img, planes[..], RowStart(row, w))
    {
      var rowOff := RowStart(row, w);
      RowStarts(row, w, h);
      var col := 0;
      while col < w
        invariant col <= w
        invariant LumaWritten(img, planes[..], rowOff + col)
      {
        var p := PixelAt(img.data, img.layout, rowOff + col);
        planes[rowOff + col] := ClampU8(Luma(p.r, p.g, p.b));
        col := col + 1;
      }
      row := row + 1;
    }
  }

  lemma PlusNothing(s: Sum)
    ensures Plus(s, NOTHING) == s == Plus(NOTHING, s)
  {
  }

  /** Pixels beyond the right edge add nothing. */
  lemma RowEnds(img: Image, row: nat, col: nat, dx: nat)
    requires img.Whole()
    requires dx <= 2 && (dx < 2 ==> col + dx >= img.w)
    ensures RowSum(img, row, col, dx) == RowSum(img, row, col, 2)
  {
    hide Corner;
  }

  lemma RowBelowImage(img: Image, row: nat, col: nat)
    requires img.Whole()
    requires row >= img.h
    ensures RowSum(img, row, col, 2) == NOTHING
  {
    hide Corner;
  }

  lemma OneMorePixel(img: Image, row: nat, col: nat, dx: nat, above: Sum)
    requires img.Whole()
    requires row < img.h && dx < 2 && col + dx < img.w
    ensures var s, p := Plus(above, RowSum(img, row, col, dx)), img.At(row, col + dx);
            Sum(s.r + p.r, s.g + p.g, s.b + p.b, s.count + 1) == Plus(above, RowSum(img, row, col, dx + 1))
  {
    hide PixelAt, RowStart, InRange;
  }

  /** Adds up the pixels of one row of a block, stopping early at the right edge of the image. */
  method AddRow(img: Image, row: nat, col: nat, above: Sum) returns (s: Sum)
    requires img.Whole()
    requires row < img.h
    ensures s == Plus(above, RowSum(img, row, col, 2))
  {
    hide PixelAt, RowStart, RowSum, InRange, Plus;
    s := above;
    var dx := 0;
    assert s == Plus(above, RowSum(img, row, col, dx)) by { RowStartsEmpty(img, row, col, above); }
    while dx < 2
      invariant dx <= 2
      invariant s == Plus(above, RowSum(img, row, col, dx))
    {
      var px := col + dx;
      if px >= img.w {
        break;
      }
      var p := img.At(row, px);
      OneMorePixel(img, row, col, dx, above);
      s := Sum(s.r + p.r, s.g + p.g, s.b + p.b, s.count + 1);
      dx := dx + 1;
    }
    RowEnds(img, row, col, dx);
  }

  lemma RowStartsEmpty(img: Image, row: nat, col: nat, above: Sum)
    requires img.Whole()
    ensures Plus(above, RowSum(img, row, col, 0)) == above
  {
  }

  /** Adds up the pixels of one block, stopping early at the bottom edge of the image. */
  method SumBlock(img: Image, row: nat, col: nat) returns (s: Sum)
    requires img.Whole()
    ensures s == BlockSum(img, row, col)
  {
    hide RowSum, InRange, Plus;
    s := NOTHING;
    var dy := 0;
    while dy < 2
      invariant dy <= 2
      invariant s == (if dy == 0 then NOTHING
                      else if dy == 1 then RowSum(img, row, col, 2)
                      else BlockSum(img, row, col))
    {
      var py := row + dy;
      if py >= img.h {
        break;
      }
      s := AddRow(img, py, col, s);
      PlusNothing(RowSum(img, row, col, 2));
      dy := dy + 1;
    }
    if dy < 2 {
      RowBelowImage(img, row + 1, col);
      PlusNothing(RowSum(img, row, col, 2));
    }
    if dy == 0 {
      RowBelowImage(img, row, col);
    }
  }

  ghost predicate ChromaWritten(img: Image, planes: seq<byte>, n: nat)
    requires img.Whole()
    requires |planes| == Size(img.w, img.h)
    requires n <= ChromaSize(img.w, img.h)
  {
    forall k: nat :: k < n ==>
      && planes[Area(img.w, img.h) + k] == BlueByte(CellColour(img, k))
      && planes[Area(img.w, img.h) + ChromaSize(img.w, img.h) + k] == RedByte(CellColour(img, k))
  }

  lemma NoChromaWritten(img: Image, planes: seq<byte>)
    requires img.Whole() && |planes| == Size(img.w, img.h)
    ensures ChromaWritten(img, planes, 0)
  {
  }

  /** Writing the two bytes of one more cell, and nothing else. */
  lemma ChromaGrows(img: Image, before: seq<byte>, after: seq<byte>, n: nat)
    requires img.Whole() && |before| == |after| == Size(img.w, img.h)
    requires n < ChromaSize(img.w, img.h) && ChromaWritten(img, before, n)
    requires after[Area(img.w, img.h) + n] == BlueByte(CellColour(img, n))
    requires after[Area(img.w, img.h) + ChromaSize(img.w, img.h) + n] == RedByte(CellColour(img, n))
    requires forall i :: 0 <= i < |before| ==>
               i in {Area(img.w, img.h) + n, Area(img.w, img.h) + ChromaSize(img.w, img.h) + n} || after[i] == before[i]
    ensures ChromaWritten(img, after, n + 1)
  {
    hide RowStart, CellColour, BlueByte, RedByte;
  }

  /** The pass over the blocks that writes both chroma planes, one cell after another. */
  method WriteChroma(img: Image, planes: array<byte>)
    requires img.Whole()
    requires planes.Length == Size(img.w, img.h)
    modifies planes
    ensures forall k :: 0 <= k < Area(img.w, img.h) ==> planes[k] == old(planes[k])
    ensures ChromaWritten(img, planes[..], ChromaSize(img.w, img.h))
  {
    hide RowStart, BlockSum, Mean, CellColour, BlueChroma, RedChroma, ClampU8, ChromaWritten;
    var w, h := img.w, img.h;
    var uvWidth := Half(w);
    var uOff := Area(w, h);
    var vOff := uOff + ChromaSize(w, h);
    assert RowStart(0, uvWidth) == 0 by { RowStarts(0, uvWidth, 1); }
    NoChromaWritten(img, planes[..]);
    var row := 0;
    while row < h
      invariant row % 2 == 0 && row <= h + 1
      invariant RowStart(row / 2, uvWidth) <= ChromaSize(w, h)
      invariant forall k :: 0 <= k < uOff ==> planes[k] == old(planes[k])
      invariant ChromaWritten(img, planes[..], RowStart(row / 2, uvWidth))
    {
      RowStarts(row / 2, uvWidth, Half(h));
      ghost var start := RowStart(row / 2, uvWidth);
      var col := 0;
      while col < w
        invariant col % 2 == 0 && col <= w + 1
        invariant forall k :: 0 <= k < uOff ==> planes[k] == old(planes[k])
        invariant ChromaWritten(img, planes[..], start + col / 2)
      {
        var s := SumBlock(img, row, col);
        var p := Mean(s);
        var uvIdx := RowStart(row / 2, uvWidth) + col / 2;
        CellColourOfBlock(img, row / 2, col / 2);
        ghost var before := planes[..];
        planes[uOff + uvIdx] := ClampU8(BlueChroma(p.r, p.g, p.b));
        planes[vOff + uvIdx] := ClampU8(RedChroma(p.r, p.g, p.b));
        ChromaGrows(img, before, planes[..], uvIdx);
        col := col + 2;
      }
      row := row + 2;
    }
  }

  lemma WrittenIsEncoded(img: Image, planes: seq<byte>)
    requires img.Whole()
    requires |planes| == Size(img.w, img.h)
    requires LumaWritten(img, planes, Area(img.w, img.h))
    requires ChromaWritten(img, planes, ChromaSize(img.w, img.h))
    ensures planes == Encoded(img)
  {
    hide RowStart, CellColour, PixelAt, LumaByte, BlueByte, RedByte;
    var pixels, cells, encoded := Area(img.w, img.h), ChromaSize(img.w, img.h), Encoded(img);
    forall i | 0 <= i < |planes|
      ensures planes[i] == encoded[i]
    {
      if pixels + cells <= i {
        assert planes[pixels + cells + (i - pixels - cells)] == encoded[i];
      } else if pixels <= i {
        assert planes[pixels + (i - pixels)] == encoded[i];
      }
    }
  }

  /** The buffer is sized anew and every byte of it is written. */
  method ToI420(img: Image) returns (planes: array<byte>)
    requires img.Whole()
    ensures fresh(planes)
    ensures planes[..] == Encoded(img)
  {
    hide RowStart, PixelAt, LumaByte, CellColour;
    planes := new byte[Size(img.w, img.h)](_ => 0);
    WriteLuma(img, planes);
    WriteChroma(img, planes);
    WrittenIsEncoded(img, planes[..]);
  }

  /** The first n pixels of the buffer hold the decoded image, opaque. */
  ghost predicate RgbaWritten(planes: seq<byte>, w: nat, h: nat, rgba: seq<byte>, n: nat)
    requires Size(w, h) <= |planes|
    requires n <= Area(w, h) && 4 * n <= |rgba|
  {
    forall k: nat :: k < n ==>
      var p := Decoded(planes, w, h, k);
      rgba[4 * k] == p.r && rgba[4 * k + 1] == p.g && rgba[4 * k + 2] == p.b && rgba[4 * k + 3] == 255
  }

  lemma NoRgbaWritten(planes: seq<byte>, w: nat, h: nat, rgba: seq<byte>)
    requires Size(w, h) <= |planes|
    ensures RgbaWritten(planes, w, h, rgba, 0)
  {
  }

  lemma RgbaGrows(planes: seq<byte>, w: nat, h: nat, before: seq<byte>, after: seq<byte>, n: nat)
    requires Size(w, h) <= |planes|
    requires n < Area(w, h) && 4 * n + 4 <= |after| && |before| == |after|
    requires RgbaWritten(planes, w, h, before, n)
    requires forall i :: 0 <= i < 4 * n ==> after[i] == before[i]
    requires var p := Decoded(planes, w, h, n);
             after[4 * n] == p.r && after[4 * n + 1] == p.g && after[4 * n + 2] == p.b && after[4 * n + 3] == 255
    ensures RgbaWritten(planes, w, h, after, n + 1)
  {
    hide Decoded, RowStart;
    forall k: nat | k < n + 1
      ensures var p := Decoded(planes, w, h, k);
              after[4 * k] == p.r && after[4 * k + 1] == p.g && after[4 * k + 2] == p.b && after[4 * k + 3] == 255
    {
      if k < n {
        assert before[4 * k] == Decoded(planes, w, h, k).r;
      }
    }
  }

  lemma DecodedAt(planes: seq<byte>, w: nat, h: nat, row: nat, col: nat)
    requires Size(w, h) <= |planes|
    requires row < h && col < w
    ensures var k, cell := Cell(row, col, w), Cell(row / 2, col / 2, Half(w));
            && k < Area(w, h) && cell < ChromaSize(w, h)
            && k < |planes| && Area(w, h) + ChromaSize(w, h) + cell < |planes|
            && (Decoded(planes, w, h, k)
                == PixelOf(planes[k], planes[Area(w, h) + cell], planes[Area(w, h) + ChromaSize(w, h) + cell]))
  {
    hide RowStart, Cell, Half, CellOfPixel, PixelOf;
    CellOfPixelAt(w, h, row, col);
  }

  /** Decodes one pixel into the four bytes from `out` on. */
  method WritePixel(y: byte, u: byte, v: byte, rgba: array<byte>, out: nat)
    requires out + 4 <= rgba.Length
    modifies rgba
    ensures var p := PixelOf(y, u, v);
            rgba[out] == p.r && rgba[out + 1] == p.g && rgba[out + 2] == p.b && rgba[out + 3] == 255
    ensures forall i :: 0 <= i < out || out + 4 <= i < rgba.Length ==> rgba[i] == old(rgba[i])
  {
    var c, d, e := y as int - 16, u as int - 128, v as int - 128;
    rgba[out] := ClampU8((298 * c + 409 * e + 128) / 256);
    rgba[out + 1] := ClampU8((298 * c - 100 * d - 208 * e + 128) / 256);
    rgba[out + 2] := ClampU8((298 * c + 516 * d + 128) / 256);
    rgba[out + 3] := 255;
  }

  /** Decodes into a buffer the caller provides, which may be longer than the image. */
  method I420ToRgbaInto(planes: seq<byte>, w: nat, h: nat, rgba: array<byte>)
    requires Size(w, h) <= |planes|
    requires 4 * Area(w, h) <= rgba.Length
    modifies rgba
    ensures RgbaWritten(planes, w, h, rgba[..], Area(w, h))
    ensures forall i :: 4 * Area(w, h) <= i < rgba.Length ==> rgba[i] == old(rgba[i])
  {
    hide RowStart, Decoded, RgbaWritten, PixelOf, Half, Size, ChromaSize;
    var uvWidth := Half(w);
    var uOff := Area(w, h);
    var vOff := uOff + ChromaSize(w, h);
    assert RowStart(0, w) == 0 by { RowStarts(0, w, 1); }
    assert RgbaWritten(planes, w, h, rgba[..], 0) by { NoRgbaWritten(planes, w, h, rgba[..]); }
    var row := 0;
    while row < h
      invariant row <= h && RowStart(row, w) <= Area(w, h)
      invariant RgbaWritten(planes, w, h, rgba[..], RowStart(row, w))
      invariant forall i :: 4 * uOff <= i < rgba.Length ==> rgba[i] == old(rgba[i])
    {
      var rowOff := RowStart(row, w);
      var uvRow := RowStart(row / 2, uvWidth);
      RowStarts(row, w, h);
      var col := 0;
      while col < w
        invariant col <= w
        invariant RgbaWritten(planes, w, h, rgba[..], rowOff + col)
        invariant forall i :: 4 * uOff <= i < rgba.Length ==> rgba[i] == old(rgba[i])
      {
        DecodedAt(planes, w, h, row, col);
        var y, u, v := planes[rowOff + col], planes[uOff + uvRow + col / 2], planes[vOff + uvRow + col / 2];
        ghost var before := rgba[..];
        WritePixel(y, u, v, rgba, (rowOff + col) * 4);
        RgbaGrows(planes, w, h, before, rgba[..], rowOff + col);
        col := col + 1;
      }
      row := row + 1;
    }
  }
}
