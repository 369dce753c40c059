/** Nearest-neighbour scaling of a planar YUV 4:2:0 buffer. */
module Scale {
  import opened Bytes
  import opened I420

  /** The row (or column) of n source rows that row i of m destination rows is taken from. */
  function Source(i: nat, n: nat, m: nat): nat
    requires m > 0
  {
    i * n / m
  }

  /** Every destination index reads a source index that exists. */
  lemma SourceInRange(i: nat, n: nat, m: nat)
    requires i < m && n > 0
    ensures Source(i, n, m) < n
  {
    var q, r := i * n / m, i * n % m;
    assert i * n == q * m + r;
    assert i * n < m * n;
    assert q >= n ==> q * m >= n * m;
  }

  lemma SourceOfSameSize(i: nat, n: nat)
    requires i < n
    ensures Source(i, n, n) == i
  {
    DivisionIsUnique(i * n, n, i, 0);
  }

  /** Scaling n rows to m and back brings row i back exactly if n divides i * m. */
  lemma RowReturns(i: nat, n: nat, m: nat)
    requires i < n && m > 0
    ensures Source(i, m, n) < m
    ensures Source(Source(i, m, n), n, m) == i <==> i * m % n == 0
  {
    SourceInRange(i, m, n);
    var there, rest := i * m / n, i * m % n;
    assert i * m == there * n + rest;
    if rest == 0 {
      DivisionIsUnique(there * n, m, i, 0);
    } else {
      var back := there * n / m;
      assert back * m <= there * n < i * m;
    }
  }

  /** If n divides m every row comes back; if not, row 1 does not. */
  lemma RowsReturn(n: nat, m: nat)
    requires n > 0 && m > 0
    ensures m % n == 0 ==> forall i: nat :: i < n ==> Source(i, m, n) < m && Source(Source(i, m, n), n, m) == i
    ensures m % n != 0 ==> n > 1 && Source(1, m, n) < m && Source(Source(1, m, n), n, m) == 0
  {
    hide Source;
    if m % n == 0 {
      forall i: nat | i < n
        ensures Source(i, m, n) < m && Source(Source(i, m, n), n, m) == i
      {
        MultipleRemains(i, n, m);
        RowReturns(i, n, m);
      }
    } else {
      assert n > 1;
      assert 1 * m == m;
      RowReturns(1, n, m);
      BackAtMost(1, n, m);
    }
  }

  lemma MultipleRemains(i: nat, n: nat, m: nat)
    requires n > 0 && m % n == 0
    ensures i * m % n == 0
  {
    var q := m / n;
    assert i * m == i * (q * n) == (i * q) * n + 0;
    DivisionIsUnique(i * m, n, i * q, 0);
  }

  /** No row comes back further down. */
  lemma BackAtMost(i: nat, n: nat, m: nat)
    requires n > 0 && m > 0
    ensures Source(Source(i, m, n), n, m) <= i
  {
    var there := i * m / n;
    assert there * n <= i * m;
    var back := there * n / m;
    assert back * m <= there * n;
    assert back > i ==> back * m > i * m;
  }

  /** An image with pixels cannot be made from one without. */
  predicate Scalable(sw: nat, sh: nat, dw: nat, dh: nat) {
    dw > 0 && dh > 0 ==> sw > 0 && sh > 0
  }

  /** Cell k of a plane scaled from sw by sh to dw by dh. */
  function SourceCell(sw: nat, sh: nat, dw: nat, dh: nat, k: nat): (cell: nat)
    requires Scalable(sw, sh, dw, dh)
    requires k < Area(dw, dh)
    ensures cell < Area(sw, sh)
  {
    CellOfIndex(k, dw, dh);
    var row, col := Source(k / dw, sh, dh), Source(k % dw, sw, dw);
    SourceInRange(k / dw, sh, dh);
    SourceInRange(k % dw, sw, dw);
    CellInRange(row, col, sw, sh);
    Cell(row, col, sw)
  }

  /** One plane, scaled. */
  function ScaledPlane(src: seq<byte>, sw: nat, sh: nat, dw: nat, dh: nat): (dst: seq<byte>)
    requires Scalable(sw, sh, dw, dh)
    requires Area(sw, sh) <= |src|
    ensures |dst| == Area(dw, dh)
  {
    seq(Area(dw, dh), k requires 0 <= k < Area(dw, dh) => src[SourceCell(sw, sh, dw, dh, k)])
  }

  /** Row y and column x of the scaled plane is row y * sh / dh and column x * sw / dw of the source. */
  lemma ScaledPlaneAt(src: seq<byte>, sw: nat, sh: nat, dw: nat, dh: nat, y: nat, x: nat)
    requires Scalable(sw, sh, dw, dh)
    requires Area(sw, sh) <= |src|
    requires y < dh && x < dw
    ensures Source(y, sh, dh) < sh && Source(x, sw, dw) < sw
    ensures Cell(Source(y, sh, dh), Source(x, sw, dw), sw) < Area(sw, sh)
    ensures Cell(y, x, dw) < Area(dw, dh)
    ensures ScaledPlane(src, sw, sh, dw, dh)[Cell(y, x, dw)] == src[Cell(Source(y, sh, dh), Source(x, sw, dw), sw)]
  {
    hide RowStart, Source;
    CellInRange(y, x, dw, dh);
    SourceInRange(y, sh, dh);
    SourceInRange(x, sw, dw);
    CellInRange(Source(y, sh, dh), Source(x, sw, dw), sw, sh);
  }

  lemma CellOfSameSize(w: nat, h: nat, k: nat)
    requires k < Area(w, h)
    ensures w > 0 && h > 0 && SourceCell(w, h, w, h, k) == k
  {
    hide RowStart, Source;
    CellOfIndex(k, w, h);
    SourceOfSameSize(k / w, h);
    SourceOfSameSize(k % w, w);
  }

  lemma PlaneToSameSize(src: seq<byte>, w: nat, h: nat)
    requires |src| == Area(w, h)
    ensures ScaledPlane(src, w, h, w, h) == src
  {
    hide RowStart, Source, SourceCell;
    forall k | 0 <= k < |src|
      ensures SourceCell(w, h, w, h, k) == k
    {
      CellOfSameSize(w, h, k);
    }
  }

  /** What a plane is after it was scaled to dw by dh and back. */
  function ThereAndBack(src: seq<byte>, w: nat, h: nat, dw: nat, dh: nat): (back: seq<byte>)
    requires w > 0 && h > 0 && dw > 0 && dh > 0
    requires |src| == Area(w, h)
    ensures |back| == |src|
  {
    ScaledPlane(ScaledPlane(src, w, h, dw, dh), dw, dh, w, h)
  }

  lemma ThereAndBackAt(src: seq<byte>, w: nat, h: nat, dw: nat, dh: nat, y: nat, x: nat)
    requires w > 0 && h > 0 && dw > 0 && dh > 0
    requires |src| == Area(w, h)
    requires y < h && x < w
    ensures Source(y, dh, h) < dh && Source(x, dw, w) < dw
    ensures Source(Source(y, dh, h), h, dh) < h && Source(Source(x, dw, w), w, dw) < w
    ensures Cell(y, x, w) < |src|
    ensures var from := Cell(Source(Source(y, dh, h), h, dh), Source(Source(x, dw, w), w, dw), w);
            from < |src| && ThereAndBack(src, w, h, dw, dh)[Cell(y, x, w)] == src[from]
  {
    hide RowStart, Source, ScaledPlane;
    ScaledPlaneAt(ScaledPlane(src, w, h, dw, dh), dw, dh, w, h, y, x);
    ScaledPlaneAt(src, w, h, dw, dh, Source(y, dh, h), Source(x, dw, w));
  }

  /** Scaling to a multiple of both sides and back loses nothing. */
  lemma PlaneReturns(src: seq<byte>, w: nat, h: nat, dw: nat, dh: nat)
    requires w > 0 && h > 0 && dw > 0 && dh > 0
    requires |src| == Area(w, h)
    requires dw % w == 0 && dh % h == 0
    ensures ThereAndBack(src, w, h, dw, dh) == src
  {
    hide RowStart, Source, ThereAndBack;
    RowsReturn(w, dw);
    RowsReturn(h, dh);
    forall k | 0 <= k < |src|
      ensures ThereAndBack(src, w, h, dw, dh)[k] == src[k]
    {
      CellOfIndex(k, w, h);
      ThereAndBackAt(src, w, h, dw, dh, k / w, k % w);
    }
  }

  /** A plane that is 1 in one cell and 0 elsewhere. */
  function Dot(size: nat, k: nat): (p: seq<byte>)
    ensures |p| == size
  {
    seq(size, i => if i == k then 1 else 0)
  }

  /** Otherwise a single dot in row or column 1 can get lost. */
  lemma DotIsLost(w: nat, h: nat, dw: nat, dh: nat) returns (src: seq<byte>)
    requires w > 0 && h > 0 && dw > 0 && dh > 0
    requires dw % w != 0 || dh % h != 0
    ensures |src| == Area(w, h)
    ensures ThereAndBack(src, w, h, dw, dh) != src
  {
    hide RowStart, Source, ThereAndBack;
    RowsReturn(w, dw);
    RowsReturn(h, dh);
    var y, x := if dw % w != 0 then 0 else 1, if dw % w != 0 then 1 else 0;
    CellInRange(y, x, w, h);
    src := Dot(Area(w, h), Cell(y, x, w));
    ThereAndBackAt(src, w, h, dw, dh, y, x);
    CellInRange(Source(Source(y, dh, h), h, dh), Source(Source(x, dw, w), w, dw), w, h);
  }

  // ----- the whole buffer -----

  function LumaOf(planes: seq<byte>, w: nat, h: nat): (p: seq<byte>)
    requires Size(w, h) <= |planes|
    ensures |p| == Area(w, h)
  {
    planes[..Area(w, h)]
  }

  function BlueOf(planes: seq<byte>, w: nat, h: nat): (p: seq<byte>)
    requires Size(w, h) <= |planes|
    ensures |p| == ChromaSize(w, h)
  {
    planes[Area(w, h)..Area(w, h) + ChromaSize(w, h)]
  }

  function RedOf(planes: seq<byte>, w: nat, h: nat): (p: seq<byte>)
    requires Size(w, h) <= |planes|
    ensures |p| == ChromaSize(w, h)
  {
    planes[Area(w, h) + ChromaSize(w, h)..Size(w, h)]
  }

  /** Each of the three planes, scaled on its own. */
  function Scaled(src: seq<byte>, sw: nat, sh: nat, dw: nat, dh: nat): (dst: seq<byte>)
    requires Scalable(sw, sh, dw, dh)
    requires Size(sw, sh) <= |src|
    ensures |dst| == Size(dw, dh)
  {
    ScaledPlane(LumaOf(src, sw, sh), sw, sh, dw, dh)
    + ScaledPlane(BlueOf(src, sw, sh), Half(sw), Half(sh), Half(dw), Half(dh))
    + ScaledPlane(RedOf(src, sw, sh), Half(sw), Half(sh), Half(dw), Half(dh))
  }

  lemma PlanesOfSum(y: seq<byte>, u: seq<byte>, v: seq<byte>, w: nat, h: nat)
    requires |y| == Area(w, h) && |u| == |v| == ChromaSize(w, h)
    ensures LumaOf(y + u + v, w, h) == y && BlueOf(y + u + v, w, h) == u && RedOf(y + u + v, w, h) == v
  {
  }

  lemma SumOfPlanes(planes: seq<byte>, w: nat, h: nat)
    requires |planes| == Size(w, h)
    ensures LumaOf(planes, w, h) + BlueOf(planes, w, h) + RedOf(planes, w, h) == planes
  {
  }

  /** Scaling to the same size copies the buffer. */
  lemma SameSizeIsIdentity(src: seq<byte>, w: nat, h: nat)
    requires |src| == Size(w, h)
    ensures Scaled(src, w, h, w, h) == src
  {
    hide RowStart, ScaledPlane, LumaOf, BlueOf, RedOf;
    PlaneToSameSize(LumaOf(src, w, h), w, h);
    PlaneToSameSize(BlueOf(src, w, h), Half(w), Half(h));
    PlaneToSameSize(RedOf(src, w, h), Half(w), Half(h));
    SumOfPlanes(src, w, h);
  }

  /** The sizes to which a w by h image can be scaled and brought back: multiples in every plane. */
  predicate Lossless(w: nat, h: nat, dw: nat, dh: nat)
    requires w > 0 && h > 0
  {
    && dw % w == 0
    && dh % h == 0
    && Half(dw) % Half(w) == 0
    && Half(dh) % Half(h) == 0
  }

  lemma BackInPlanes(src: seq<byte>, w: nat, h: nat, dw: nat, dh: nat)
    requires w > 0 && h > 0 && dw > 0 && dh > 0
    requires |src| == Size(w, h)
    ensures var back := Scaled(Scaled(src, w, h, dw, dh), dw, dh, w, h);
            && LumaOf(back, w, h) == ThereAndBack(LumaOf(src, w, h), w, h, dw, dh)
            && BlueOf(back, w, h) == ThereAndBack(BlueOf(src, w, h), Half(w), Half(h), Half(dw), Half(dh))
            && RedOf(back, w, h) == ThereAndBack(RedOf(src, w, h), Half(w), Half(h), Half(dw), Half(dh))
  {
    hide RowStart, ScaledPlane, LumaOf, BlueOf, RedOf;
    var cw, ch, cdw, cdh := Half(w), Half(h), Half(dw), Half(dh);
    var y, u, v := LumaOf(src, w, h), BlueOf(src, w, h), RedOf(src, w, h);
    var y', u', v' := ScaledPlane(y, w, h, dw, dh), ScaledPlane(u, cw, ch, cdw, cdh), ScaledPlane(v, cw, ch, cdw, cdh);
    PlanesOfSum(y', u', v', dw, dh);
    PlanesOfSum(ScaledPlane(y', dw, dh, w, h), ScaledPlane(u', cdw, cdh, cw, ch), ScaledPlane(v', cdw, cdh, cw, ch), w, h);
  }

  /** Scaling there and back gives the image again when both sizes are multiples in every plane ... */
  lemma LosslessReturns(src: seq<byte>, w: nat, h: nat, dw: nat, dh: nat)
    requires w > 0 && h > 0 && dw > 0 && dh > 0
    requires |src| == Size(w, h)
    requires Lossless(w, h, dw, dh)
    ensures Scaled(Scaled(src, w, h, dw, dh), dw, dh, w, h) == src
  {
    hide RowStart, Scaled, LumaOf, BlueOf, RedOf, ThereAndBack;
    var back := Scaled(Scaled(src, w, h, dw, dh), dw, dh, w, h);
    BackInPlanes(src, w, h, dw, dh);
    PlaneReturns(LumaOf(src, w, h), w, h, dw, dh);
    PlaneReturns(BlueOf(src, w, h), Half(w), Half(h), Half(dw), Half(dh));
    PlaneReturns(RedOf(src, w, h), Half(w), Half(h), Half(dw), Half(dh));
    SumOfPlanes(src, w, h);
    SumOfPlanes(back, w, h);
  }

  /** ... and if they are not, some image is changed. */
  lemma OtherwiseSomethingIsLost(w: nat, h: nat, dw: nat, dh: nat) returns (src: seq<byte>)
    requires w > 0 && h > 0 && dw > 0 && dh > 0
    requires !Lossless(w, h, dw, dh)
    ensures |src| == Size(w, h)
    ensures Scaled(Scaled(src, w, h, dw, dh), dw, dh, w, h) != src
  {
    hide RowStart, Scaled, LumaOf, BlueOf, RedOf, ThereAndBack, Dot;
    var y, u := Dot(Area(w, h), 0), Dot(ChromaSize(w, h), 0);
    if dw % w != 0 || dh % h != 0 {
      y := DotIsLost(w, h, dw, dh);
    } else {
      u := DotIsLost(Half(w), Half(h), Half(dw), Half(dh));
    }
    src := y + u + u;
    PlanesOfSum(y, u, u, w, h);
    BackInPlanes(src, w, h, dw, dh);
  }

  lemma ThereAndBackIff(w: nat, h: nat, dw: nat, dh: nat)
    requires w > 0 && h > 0 && dw > 0 && dh > 0
    ensures Lossless(w, h, dw, dh) <==>
            (forall src: seq<byte> :: |src| == Size(w, h) ==> Scaled(Scaled(src, w, h, dw, dh), dw, dh, w, h) == src)
  {
    hide RowStart, Scaled;
    if Lossless(w, h, dw, dh) {
      forall src: seq<byte> | |src| == Size(w, h)
        ensures Scaled(Scaled(src, w, h, dw, dh), dw, dh, w, h) == src
      {
        LosslessReturns(src, w, h, dw, dh);
      }
    } else {
      var src := OtherwiseSomethingIsLost(w, h, dw, dh);
    }
  }

  /** For even sizes every integer enlargement is lossless; for an odd one it need not be. */
  lemma EvenSizesEnlarge(w: nat, h: nat, f: nat, g: nat)
    requires w > 0 && h > 0 && f > 0 && g > 0
    requires w % 2 == 0 && h % 2 == 0
    ensures Lossless(w, h, w * f, h * g)
    ensures !Lossless(3, 3, 6, 6)
  {
    EvenSideEnlarges(w, f);
    EvenSideEnlarges(h, g);
  }

  lemma EvenSideEnlarges(w: nat, f: nat)
    requires w > 0 && f > 0 && w % 2 == 0
    ensures w * f % w == 0 && Half(w * f) % Half(w) == 0
  {
    var half := w / 2;
    assert w * f == f * w + 0 == 2 * (f * half);
    DivisionIsUnique(w * f, w, f, 0);
    DivisionIsUnique(f * half, half, f, 0);
  }

  // ----- the loops -----

  ghost predicate PlaneWritten(src: seq<byte>, sw: nat, sh: nat, dw: nat, dh: nat, dst: seq<byte>, at: nat, n: nat)
    requires Scalable(sw, sh, dw, dh)
    requires Area(sw, sh) <= |src|
    requires n <= Area(dw, dh) && at + n <= |dst|
  {
    forall k: nat :: k < n ==> dst[at + k] == ScaledPlane(src, sw, sh, dw, dh)[k]
  }

  /** Scales one plane into the bytes of the destination from `at` on. */
  method ScalePlane(src: seq<byte>, sw: nat, sh: nat, dst: array<byte>, at: nat, dw: nat, dh: nat)
    requires Scalable(sw, sh, dw, dh)
    requires Area(sw, sh) <= |src|
    requires at + Area(dw, dh) <= dst.Length
    modifies dst
    ensures dst[..at] == old(dst[..at])
    ensures dst[at..at + Area(dw, dh)] == ScaledPlane(src, sw, sh, dw, dh)
    ensures dst[at + Area(dw, dh)..] == old(dst[at + Area(dw, dh)..])
  {
    hide RowStart, Source, ScaledPlane;
    assert RowStart(0, dw) == 0 by { RowStarts(0, dw, 1); }
    var dy := 0;
    while dy < dh
      invariant dy <= dh && RowStart(dy, dw) <= Area(dw, dh)
      invariant PlaneWritten(src, sw, sh, dw, dh, dst[..], at, RowStart(dy, dw))
      invariant forall i :: 0 <= i < dst.Length && !(at <= i < at + Area(dw, dh)) ==> dst[i] == old(dst[i])
    {
      var sy := Source(dy, sh, dh);
      var srcRow := RowStart(sy, sw);
      var dstRow := RowStart(dy, dw);
      RowStarts(dy, dw, dh);
      var dx := 0;
      while dx < dw
        invariant dx <= dw
        invariant PlaneWritten(src, sw, sh, dw, dh, dst[..], at, dstRow + dx)
        invariant forall i :: 0 <= i < dst.Length && !(at <= i < at + Area(dw, dh)) ==> dst[i] == old(dst[i])
      {
        var sx := Source(dx, sw, dw);
        ScaledPlaneAt(src, sw, sh, dw, dh, dy, dx);
        dst[at + dstRow + dx] := src[srcRow + sx];
        dx := dx + 1;
      }
      dy := dy + 1;
    }
  }

  /** Scales a whole buffer; what the destination held before is thrown away. */
  method ScaleI420Nearest(src: seq<byte>, sw: nat, sh: nat, dw: nat, dh: nat) returns (dst: array<byte>)
    requires Scalable(sw, sh, dw, dh)
    requires Size(sw, sh) <= |src|
    ensures fresh(dst)
    ensures dst[..] == Scaled(src, sw, sh, dw, dh)
  {
    hide RowStart, ScaledPlane, LumaOf, BlueOf, RedOf;
    var pixels, cells := Area(dw, dh), ChromaSize(dw, dh);
    dst := new byte[Size(dw, dh)](_ => 0);
    ScalePlane(LumaOf(src, sw, sh), sw, sh, dst, 0, dw, dh);
    ScalePlane(BlueOf(src, sw, sh), Half(sw), Half(sh), dst, pixels, Half(dw), Half(dh));
    ghost var before := dst[..];
    ScalePlane(RedOf(src, sw, sh), Half(sw), Half(sh), dst, pixels + cells, Half(dw), Half(dh));
    ThreePlanes(before, dst[..], pixels, cells);
  }

  /** The third plane comes behind the first two, which stay as they were. */
  lemma ThreePlanes(before: seq<byte>, after: seq<byte>, pixels: nat, cells: nat)
    requires |before| == |after| == pixels + 2 * cells
    requires after[..pixels + cells] == before[..pixels + cells]
    ensures after == before[..pixels] + before[pixels..pixels + cells] + after[pixels + cells..pixels + cells + cells]
  {
    assert before[..pixels + cells] == before[..pixels] + before[pixels..pixels + cells];
  }
}
