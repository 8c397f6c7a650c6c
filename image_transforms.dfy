/**
 * The pixel loops of internal/handlers/profile.go on arrays: each transform
 * allocates a fresh transparent destination (image.NewRGBA), walks the source
 * row by row and column by column, and writes every source pixel to its new
 * position. Each method is proved to produce the grid the matching function of
 * ImageGeometry describes. An array a holds pixel (x, y) at a[y, x], so
 * a.Length0 is the height and a.Length1 the width.
 */
module ImageTransforms {
  import opened Wrappers
  import opened ImageGeometry

  /** The grid an array currently holds. */
  function GridOf(a: array2<Pixel>): (g: Grid)
    reads a
    ensures WellFormed(g) && g.width == a.Length1 && g.height == a.Length0
    ensures forall x, y | 0 <= x < a.Length1 && 0 <= y < a.Length0 :: At(g, x, y) == a[y, x]
  {
    Grid(a.Length1, a.Length0,
      seq(a.Length0, y requires 0 <= y < a.Length0 reads a =>
        seq(a.Length1, x requires 0 <= x < a.Length1 reads a => a[y, x])))
  }

  lemma GridOfIs(a: array2<Pixel>, g: Grid)
    requires WellFormed(g) && g.width == a.Length1 && g.height == a.Length0
    requires forall x, y | 0 <= x < a.Length1 && 0 <= y < a.Length0 :: a[y, x] == At(g, x, y)
    ensures GridOf(a) == g
  {
    GridExt(GridOf(a), g);
  }

  /** flipHorizontal. */
  method FlipHorizontal(src: array2<Pixel>) returns (dst: array2<Pixel>)
    ensures fresh(dst)
    ensures GridOf(dst) == FlipH(GridOf(src))
  {
    var w, h := src.Length1, src.Length0;
    dst := new Pixel[h, w]((_, _) => Transparent);
    var y := 0;
    while y < h
      invariant 0 <= y <= h
      invariant forall j, i | 0 <= j < h && 0 <= i < w ::
        dst[j, i] == if j < y then src[j, w - 1 - i] else Transparent
    {
      var x := 0;
      while x < w
        invariant 0 <= x <= w
        invariant forall j, i | 0 <= j < h && 0 <= i < w ::
          dst[j, i] == if j < y || (j == y && w - 1 - i < x) then src[j, w - 1 - i] else Transparent
      {
        dst[y, w - 1 - x] := src[y, x];
        x := x + 1;
      }
      y := y + 1;
    }
    ghost var g := GridOf(src);
    forall x, y | 0 <= x < w && 0 <= y < h
      ensures dst[y, x] == At(FlipH(g), x, y)
    {
      FlipHAt(g, x, y);
      assert At(g, w - 1 - x, y) == src[y, w - 1 - x];
    }
    GridOfIs(dst, FlipH(g));
  }

  /** flipVertical. */
  method FlipVertical(src: array2<Pixel>) returns (dst: array2<Pixel>)
    ensures fresh(dst)
    ensures GridOf(dst) == FlipV(GridOf(src))
  {
    var w, h := src.Length1, src.Length0;
    dst := new Pixel[h, w]((_, _) => Transparent);
    var y := 0;
    while y < h
      invariant 0 <= y <= h
      invariant forall j, i | 0 <= j < h && 0 <= i < w ::
        dst[j, i] == if h - 1 - j < y then src[h - 1 - j, i] else Transparent
    {
      var x := 0;
      while x < w
        invariant 0 <= x <= w
        invariant forall j, i | 0 <= j < h && 0 <= i < w ::
          dst[j, i] == if h - 1 - j < y || (h - 1 - j == y && i < x) then src[h - 1 - j, i] else Transparent
      {
        dst[h - 1 - y, x] := src[y, x];
        x := x + 1;
      }
      y := y + 1;
    }
    ghost var g := GridOf(src);
    forall x, y | 0 <= x < w && 0 <= y < h
      ensures dst[y, x] == At(FlipV(g), x, y)
    {
      FlipVAt(g, x, y);
      assert At(g, x, h - 1 - y) == src[h - 1 - y, x];
    }
    GridOfIs(dst, FlipV(g));
  }

  /** rotate180. */
  method Rotate180(src: array2<Pixel>) returns (dst: array2<Pixel>)
    ensures fresh(dst)
    ensures GridOf(dst) == Rot180(GridOf(src))
  {
    var w, h := src.Length1, src.Length0;
    dst := new Pixel[h, w]((_, _) => Transparent);
    var y := 0;
    while y < h
      invariant 0 <= y <= h
      invariant forall j, i | 0 <= j < h && 0 <= i < w ::
        dst[j, i] == if h - 1 - j < y then src[h - 1 - j, w - 1 - i] else Transparent
    {
      var x := 0;
      while x < w
        invariant 0 <= x <= w
        invariant forall j, i | 0 <= j < h && 0 <= i < w ::
          dst[j, i] == if h - 1 - j < y || (h - 1 - j == y && w - 1 - i < x) then src[h - 1 - j, w - 1 - i] else Transparent
      {
        dst[h - 1 - y, w - 1 - x] := src[y, x];
        x := x + 1;
      }
      y := y + 1;
    }
    ghost var g := GridOf(src);
    forall x, y | 0 <= x < w && 0 <= y < h
      ensures dst[y, x] == At(Rot180(g), x, y)
    {
      Rot180At(g, x, y);
      assert At(g, w - 1 - x, h - 1 - y) == src[h - 1 - y, w - 1 - x];
    }
    GridOfIs(dst, Rot180(g));
  }

  /**
   * rotate90CW(img, newW, newH): source pixel (x, y) goes to (h-1-y, x) of a
   * newW × newH destination; a position outside the destination is skipped,
   * as RGBA.Set skips it.
   */
  method Rotate90CW(src: array2<Pixel>, newW: nat, newH: nat) returns (dst: array2<Pixel>)
    ensures fresh(dst)
    ensures GridOf(dst) == Rot90CWInto(GridOf(src), newW, newH)
  {
    var w, h := src.Length1, src.Length0;
    dst := new Pixel[newH, newW]((_, _) => Transparent);
    var y := 0;
    while y < h
      invariant 0 <= y <= h
      invariant forall j, i | 0 <= j < newH && 0 <= i < newW ::
        dst[j, i] == if i < h && j < w && h - 1 - i < y then src[h - 1 - i, j] else Transparent
    {
      var x := 0;
      while x < w
        invariant 0 <= x <= w
        invariant forall j, i | 0 <= j < newH && 0 <= i < newW ::
          dst[j, i] == if i < h && j < w && (h - 1 - i < y || (h - 1 - i == y && j < x)) then src[h - 1 - i, j] else Transparent
      {
        if h - 1 - y < newW && x < newH {
          dst[x, h - 1 - y] := src[y, x];
        }
        x := x + 1;
      }
      y := y + 1;
    }
    ghost var g := GridOf(src);
    ghost var r := Rot90CWInto(g, newW, newH);
    forall x, y | 0 <= x < newW && 0 <= y < newH
      ensures dst[y, x] == At(r, x, y)
    {
      Rot90CWIntoAt(g, newW, newH, x, y);
      if x < h && y < w {
        assert At(g, y, h - 1 - x) == src[h - 1 - x, y];
      }
    }
    GridOfIs(dst, r);
  }

  /**
   * rotate90CCW(img, newW, newH): source pixel (x, y) goes to (y, w-1-x) of a
   * newW × newH destination, skipping positions outside it.
   */
  method Rotate90CCW(src: array2<Pixel>, newW: nat, newH: nat) returns (dst: array2<Pixel>)
    ensures fresh(dst)
    ensures GridOf(dst) == Rot90CCWInto(GridOf(src), newW, newH)
  {
    var w, h := src.Length1, src.Length0;
    dst := new Pixel[newH, newW]((_, _) => Transparent);
    var y := 0;
    while y < h
      invariant 0 <= y <= h
      invariant forall j, i | 0 <= j < newH && 0 <= i < newW ::
        dst[j, i] == if i < h && j < w && i < y then src[i, w - 1 - j] else Transparent
    {
      var x := 0;
      while x < w
        invariant 0 <= x <= w
        invariant forall j, i | 0 <= j < newH && 0 <= i < newW ::
          dst[j, i] == if i < h && j < w && (i < y || (i == y && w - 1 - j < x)) then src[i, w - 1 - j] else Transparent
      {
        if y < newW && w - 1 - x < newH {
          dst[w - 1 - x, y] := src[y, x];
        }
        x := x + 1;
      }
      y := y + 1;
    }
    ghost var g := GridOf(src);
    ghost var r := Rot90CCWInto(g, newW, newH);
    forall x, y | 0 <= x < newW && 0 <= y < newH
      ensures dst[y, x] == At(r, x, y)
    {
      Rot90CCWIntoAt(g, newW, newH, x, y);
      if x < h && y < w {
        assert At(g, w - 1 - y, x) == src[x, w - 1 - y];
      }
    }
    GridOfIs(dst, r);
  }

  /**
   * applyExifOrientation: returns the source itself when the orientation needs
   * no correction, and otherwise a fresh image holding the corrected grid.
   */
  method ApplyExifOrientation(src: array2<Pixel>, orientation: Option<int>) returns (dst: array2<Pixel>)
    ensures GridOf(dst) == Oriented(orientation, GridOf(src))
    ensures !Corrects(orientation) ==> dst == src
    ensures Corrects(orientation) ==> fresh(dst)
  {
    if orientation.None? {
      return src;
    }
    var w, h := src.Length1, src.Length0;
    match orientation.value
    case 2 =>
      dst := FlipHorizontal(src);
    case 3 =>
      dst := Rotate180(src);
    case 4 =>
      dst := FlipVertical(src);
    case 5 =>
      var flipped := FlipHorizontal(src);
      dst := Rotate90CCW(flipped, h, w);
    case 6 =>
      dst := Rotate90CW(src, h, w);
    case 7 =>
      var flipped := FlipHorizontal(src);
      dst := Rotate90CW(flipped, h, w);
    case 8 =>
      dst := Rotate90CCW(src, h, w);
    case _ =>
      dst := src;
  }
}
