/** The planar YUV 4:2:0 buffer: a luma plane of one byte per pixel, then two chroma planes of one
    byte for every 2x2 block of pixels, the last row and column of blocks being cut short when a
    dimension is odd. */
module I420 {
  import opened Bytes

  /** The number of chroma cells along a side of n pixels. */
  function Half(n: nat): nat {
    (n + 1) / 2
  }

  function RowStart(row: nat, w: nat): nat {
    row * w
  }

  function Area(w: nat, h: nat): nat {
    RowStart(h, w)
  }

  function ChromaSize(w: nat, h: nat): nat {
    Area(Half(w), Half(h))
  }

  function Size(w: nat, h: nat): nat {
    Area(w, h) + 2 * ChromaSize(w, h)
  }

  function Cell(row: nat, col: nat, w: nat): nat {
    RowStart(row, w) + col
  }

  lemma RowStarts(row: nat, w: nat, h: nat)
    requires row < h
    ensures RowStart(0, w) == 0
    ensures RowStart(row, w) + w == RowStart(row + 1, w) <= Area(w, h)
  {
    assert (row + 1) * w <= h * w;
  }

  /** Row-major numbering is a bijection between the cells of a plane and the bytes of the plane. */
  lemma CellInRange(row: nat, col: nat, w: nat, h: nat)
    requires row < h && col < w
    ensures Cell(row, col, w) < Area(w, h)
    ensures Cell(row, col, w) / w == row && Cell(row, col, w) % w == col
  {
    RowStarts(row, w, h);
    DivisionIsUnique(Cell(row, col, w), w, row, col);
  }

  lemma CellOfIndex(k: nat, w: nat, h: nat)
    requires k < Area(w, h)
    ensures w > 0 && h > 0 && k / w < h && k % w < w && Cell(k / w, k % w, w) == k
  {
    assert w == 0 || h == 0 ==> w * h == 0;
    var row := k / w;
    assert k == row * w + k % w;
    assert row >= h ==> row * w >= h * w;
  }
}
