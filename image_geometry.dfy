/**
 * The pixel-grid transforms of the avatar upload as values: the five index
 * remappings of internal/handlers/profile.go and the orientation dispatch that
 * combines them. Everything here is a function on immutable grids; the array
 * methods that perform the same remappings in place of Go's nested loops sit in
 * module ImageTransforms and are proved equal to these functions.
 *
 * A pixel (x, y) is column x and row y, both counted from the top-left corner,
 * as in image.Image with its bounds starting at (0, 0).
 */
module ImageGeometry {
  import opened Wrappers

  /** A colour as image.RGBA stores it. */
  datatype Pixel = Pixel(r: int, g: int, b: int, a: int)

  /** The colour every pixel of image.NewRGBA starts with. */
  const Transparent: Pixel := Pixel(0, 0, 0, 0)

  /** A width × height image; rows[y][x] is the pixel in column x of row y. */
  datatype Grid = Grid(width: nat, height: nat, rows: seq<seq<Pixel>>)

  predicate WellFormed(g: Grid) {
    |g.rows| == g.height && forall y | 0 <= y < g.height :: |g.rows[y]| == g.width
  }

  function At(g: Grid, x: nat, y: nat): Pixel
    requires WellFormed(g)
    requires x < g.width && y < g.height
  {
    g.rows[y][x]
  }

  /** A grid of the given size whose pixel (x, y) is f(x, y). */
  function Tabulate(width: nat, height: nat, f: (nat, nat) -> Pixel): (r: Grid)
    ensures WellFormed(r) && r.width == width && r.height == height
    ensures forall x, y | 0 <= x < width && 0 <= y < height :: At(r, x, y) == f(x, y)
  {
    Grid(width, height, seq(height, y requires 0 <= y < height => seq(width, x requires 0 <= x < width => f(x, y))))
  }

  /** Two grids of the same size with the same pixels are the same grid. */
  lemma GridExt(a: Grid, b: Grid)
    requires WellFormed(a) && WellFormed(b)
    requires a.width == b.width && a.height == b.height
    requires forall x, y | 0 <= x < a.width && 0 <= y < a.height :: At(a, x, y) == At(b, x, y)
    ensures a == b
  {
    forall y | 0 <= y < a.height
      ensures a.rows[y] == b.rows[y]
    {
      assert forall x | 0 <= x < a.width :: a.rows[y][x] == At(a, x, y) == At(b, x, y) == b.rows[y][x];
    }
  }

  /** flipHorizontal: the same size, with source pixel (x, y) written to (w-1-x, y). */
  function FlipH(g: Grid): (r: Grid)
    requires WellFormed(g)
    ensures WellFormed(r) && r.width == g.width && r.height == g.height
  {
    Tabulate(g.width, g.height, (x: nat, y: nat) => if x < g.width && y < g.height then At(g, g.width - 1 - x, y) else Transparent)
  }

  /** flipVertical: the same size, with source pixel (x, y) written to (x, h-1-y). */
  function FlipV(g: Grid): (r: Grid)
    requires WellFormed(g)
    ensures WellFormed(r) && r.width == g.width && r.height == g.height
  {
    Tabulate(g.width, g.height, (x: nat, y: nat) => if x < g.width && y < g.height then At(g, x, g.height - 1 - y) else Transparent)
  }

  /** rotate180: the same size, with source pixel (x, y) written to (w-1-x, h-1-y). */
  function Rot180(g: Grid): (r: Grid)
    requires WellFormed(g)
    ensures WellFormed(r) && r.width == g.width && r.height == g.height
  {
    Tabulate(g.width, g.height,
      (x: nat, y: nat) => if x < g.width && y < g.height then At(g, g.width - 1 - x, g.height - 1 - y) else Transparent)
  }

  /**
   * rotate90CW(img, newW, newH): a newW × newH grid in which source pixel (x, y)
   * is written to (h-1-y, x) when that position lies inside it; a write outside
   * the grid is dropped, as RGBA.Set drops it, and unwritten pixels stay transparent.
   */
  function Rot90CWInto(g: Grid, newW: nat, newH: nat): (r: Grid)
    requires WellFormed(g)
    ensures WellFormed(r) && r.width == newW && r.height == newH
  {
    Tabulate(newW, newH,
      (x: nat, y: nat) => if x < g.height && y < g.width then At(g, y, g.height - 1 - x) else Transparent)
  }

  /**
   * rotate90CCW(img, newW, newH): a newW × newH grid in which source pixel (x, y)
   * is written to (y, w-1-x) when that position lies inside it.
   */
  function Rot90CCWInto(g: Grid, newW: nat, newH: nat): (r: Grid)
    requires WellFormed(g)
    ensures WellFormed(r) && r.width == newW && r.height == newH
  {
    Tabulate(newW, newH,
      (x: nat, y: nat) => if x < g.height && y < g.width then At(g, g.width - 1 - y, x) else Transparent)
  }

  /** rotate90CW as every call site uses it: with the dimensions swapped. */
  function Rot90CW(g: Grid): (r: Grid)
    requires WellFormed(g)
    ensures WellFormed(r) && r.width == g.height && r.height == g.width
  {
    Rot90CWInto(g, g.height, g.width)
  }

  /** rotate90CCW as every call site uses it: with the dimensions swapped. */
  function Rot90CCW(g: Grid): (r: Grid)
    requires WellFormed(g)
    ensures WellFormed(r) && r.width == g.height && r.height == g.width
  {
    Rot90CCWInto(g, g.height, g.width)
  }

  /** The correction for tag 5: flipHorizontal, then rotate90CCW with the dimensions swapped. */
  function Transpose(g: Grid): (r: Grid)
    requires WellFormed(g)
    ensures WellFormed(r) && r.width == g.height && r.height == g.width
  {
    Rot90CCW(FlipH(g))
  }

  /** The correction for tag 7: flipHorizontal, then rotate90CW with the dimensions swapped. */
  function Transverse(g: Grid): (r: Grid)
    requires WellFormed(g)
    ensures WellFormed(r) && r.width == g.height && r.height == g.width
  {
    Rot90CW(FlipH(g))
  }

  /**
   * applyExifOrientation: the correction for the Orientation tag (0x0112) of
   * TIFF 6.0 section 8, as Exif adopts it. None stands for an image whose Exif
   * block does not decode, has no Orientation tag, or holds a tag that is not an
   * integer; those, tag 1 and any tag outside 1..8 give the image back unchanged.
   */
  function Oriented(orientation: Option<int>, g: Grid): (r: Grid)
    requires WellFormed(g)
    ensures WellFormed(r)
    ensures SwapsAxes(orientation) ==> r.width == g.height && r.height == g.width
    ensures !SwapsAxes(orientation) ==> r.width == g.width && r.height == g.height
    ensures !Corrects(orientation) ==> r == g
  {
    if orientation.None? then g
    else
      match orientation.value
      case 2 => FlipH(g)
      case 3 => Rot180(g)
      case 4 => FlipV(g)
      case 5 => Transpose(g)
      case 6 => Rot90CW(g)
      case 7 => Transverse(g)
      case 8 => Rot90CCW(g)
      case _ => g
  }

  /** The tags whose correction changes the image. */
  predicate Corrects(orientation: Option<int>) {
    orientation.Some? && 2 <= orientation.value <= 8
  }

  /** The tags whose correction turns the image a quarter turn. */
  predicate SwapsAxes(orientation: Option<int>) {
    orientation.Some? && 5 <= orientation.value <= 8
  }

  /**
   * Where the correction for tag t puts the source pixel (x, y) of a w × h image:
   * the eight symmetries of a rectangle, one per tag, each written out directly.
   */
  function Landing(t: int, w: nat, h: nat, x: nat, y: nat): (p: (nat, nat))
    requires x < w && y < h
    ensures 5 <= t <= 8 ==> p.0 < h && p.1 < w
    ensures !(5 <= t <= 8) ==> p.0 < w && p.1 < h
  {
    match t
    case 2 => (w - 1 - x, y)
    case 3 => (w - 1 - x, h - 1 - y)
    case 4 => (x, h - 1 - y)
    case 5 => (y, x)
    case 6 => (h - 1 - y, x)
    case 7 => (h - 1 - y, w - 1 - x)
    case 8 => (y, w - 1 - x)
    case _ => (x, y)
  }

  // Pixel lookups in the results, read backwards from the target position.

  lemma FlipHAt(g: Grid, x: nat, y: nat)
    requires WellFormed(g) && x < g.width && y < g.height
    ensures At(FlipH(g), x, y) == At(g, g.width - 1 - x, y)
  {
  }

  lemma FlipVAt(g: Grid, x: nat, y: nat)
    requires WellFormed(g) && x < g.width && y < g.height
    ensures At(FlipV(g), x, y) == At(g, x, g.height - 1 - y)
  {
  }

  lemma Rot180At(g: Grid, x: nat, y: nat)
    requires WellFormed(g) && x < g.width && y < g.height
    ensures At(Rot180(g), x, y) == At(g, g.width - 1 - x, g.height - 1 - y)
  {
  }

  lemma Rot90CWAt(g: Grid, x: nat, y: nat)
    requires WellFormed(g) && x < g.height && y < g.width
    ensures At(Rot90CW(g), x, y) == At(g, y, g.height - 1 - x)
  {
  }

  lemma Rot90CCWAt(g: Grid, x: nat, y: nat)
    requires WellFormed(g) && x < g.height && y < g.width
    ensures At(Rot90CCW(g), x, y) == At(g, g.width - 1 - y, x)
  {
  }

  lemma Rot90CWIntoAt(g: Grid, newW: nat, newH: nat, x: nat, y: nat)
    requires WellFormed(g) && x < newW && y < newH
    ensures At(Rot90CWInto(g, newW, newH), x, y) ==
      if x < g.height && y < g.width then At(g, y, g.height - 1 - x) else Transparent
  {
  }

  lemma Rot90CCWIntoAt(g: Grid, newW: nat, newH: nat, x: nat, y: nat)
    requires WellFormed(g) && x < newW && y < newH
    ensures At(Rot90CCWInto(g, newW, newH), x, y) ==
      if x < g.height && y < g.width then At(g, g.width - 1 - y, x) else Transparent
  {
  }

  // Where each transform writes every source pixel (the loops of profile.go read forwards).

  /** flipHorizontal keeps the size and writes source pixel (x, y) to (w-1-x, y). */
  lemma FlipHSends(g: Grid)
    requires WellFormed(g)
    ensures var r := FlipH(g);
      r.width == g.width && r.height == g.height &&
      forall x, y | 0 <= x < g.width && 0 <= y < g.height :: At(r, g.width - 1 - x, y) == At(g, x, y)
  {
    forall x, y | 0 <= x < g.width && 0 <= y < g.height
      ensures At(FlipH(g), g.width - 1 - x, y) == At(g, x, y)
    {
      FlipHAt(g, g.width - 1 - x, y);
    }
  }

  /** flipVertical keeps the size and writes source pixel (x, y) to (x, h-1-y). */
  lemma FlipVSends(g: Grid)
    requires WellFormed(g)
    ensures var r := FlipV(g);
      r.width == g.width && r.height == g.height &&
      forall x, y | 0 <= x < g.width && 0 <= y < g.height :: At(r, x, g.height - 1 - y) == At(g, x, y)
  {
    forall x, y | 0 <= x < g.width && 0 <= y < g.height
      ensures At(FlipV(g), x, g.height - 1 - y) == At(g, x, y)
    {
      FlipVAt(g, x, g.height - 1 - y);
    }
  }

  /** rotate180 keeps the size and writes source pixel (x, y) to (w-1-x, h-1-y). */
  lemma Rot180Sends(g: Grid)
    requires WellFormed(g)
    ensures var r := Rot180(g);
      r.width == g.width && r.height == g.height &&
      forall x, y | 0 <= x < g.width && 0 <= y < g.height ::
        At(r, g.width - 1 - x, g.height - 1 - y) == At(g, x, y)
  {
    forall x, y | 0 <= x < g.width && 0 <= y < g.height
      ensures At(Rot180(g), g.width - 1 - x, g.height - 1 - y) == At(g, x, y)
    {
      Rot180At(g, g.width - 1 - x, g.height - 1 - y);
    }
  }

  /**
   * rotate90CW(img, newW, newH) makes a newW × newH image, writes source pixel
   * (x, y) to (h-1-y, x) wherever that lies inside it, and leaves every other
   * pixel transparent.
   */
  lemma Rot90CWIntoSends(g: Grid, newW: nat, newH: nat)
    requires WellFormed(g)
    ensures var r := Rot90CWInto(g, newW, newH);
      && r.width == newW && r.height == newH
      && (forall x, y | 0 <= x < g.width && 0 <= y < g.height && g.height - 1 - y < newW && x < newH ::
            At(r, g.height - 1 - y, x) == At(g, x, y))
      && (forall x, y | 0 <= x < newW && 0 <= y < newH && !(x < g.height && y < g.width) ::
            At(r, x, y) == Transparent)
  {
    var r := Rot90CWInto(g, newW, newH);
    forall x, y | 0 <= x < g.width && 0 <= y < g.height && g.height - 1 - y < newW && x < newH
      ensures At(r, g.height - 1 - y, x) == At(g, x, y)
    {
      Rot90CWIntoAt(g, newW, newH, g.height - 1 - y, x);
    }
    forall x, y | 0 <= x < newW && 0 <= y < newH && !(x < g.height && y < g.width)
      ensures At(r, x, y) == Transparent
    {
      Rot90CWIntoAt(g, newW, newH, x, y);
    }
  }

  /**
   * rotate90CCW(img, newW, newH) makes a newW × newH image, writes source pixel
   * (x, y) to (y, w-1-x) wherever that lies inside it, and leaves every other
   * pixel transparent.
   */
  lemma Rot90CCWIntoSends(g: Grid, newW: nat, newH: nat)
    requires WellFormed(g)
    ensures var r := Rot90CCWInto(g, newW, newH);
      && r.width == newW && r.height == newH
      && (forall x, y | 0 <= x < g.width && 0 <= y < g.height && y < newW && g.width - 1 - x < newH ::
            At(r, y, g.width - 1 - x) == At(g, x, y))
      && (forall x, y | 0 <= x < newW && 0 <= y < newH && !(x < g.height && y < g.width) ::
            At(r, x, y) == Transparent)
  {
    var r := Rot90CCWInto(g, newW, newH);
    forall x, y | 0 <= x < g.width && 0 <= y < g.height && y < newW && g.width - 1 - x < newH
      ensures At(r, y, g.width - 1 - x) == At(g, x, y)
    {
      Rot90CCWIntoAt(g, newW, newH, y, g.width - 1 - x);
    }
    forall x, y | 0 <= x < newW && 0 <= y < newH && !(x < g.height && y < g.width)
      ensures At(r, x, y) == Transparent
    {
      Rot90CCWIntoAt(g, newW, newH, x, y);
    }
  }

  /** With the dimensions swapped, as at every call site, rotate90CW turns the whole image. */
  lemma Rot90CWSends(g: Grid)
    requires WellFormed(g)
    ensures var r := Rot90CW(g);
      r.width == g.height && r.height == g.width &&
      forall x, y | 0 <= x < g.width && 0 <= y < g.height :: At(r, g.height - 1 - y, x) == At(g, x, y)
  {
    forall x, y | 0 <= x < g.width && 0 <= y < g.height
      ensures At(Rot90CW(g), g.height - 1 - y, x) == At(g, x, y)
    {
      Rot90CWAt(g, g.height - 1 - y, x);
    }
  }

  /** With the dimensions swapped, rotate90CCW turns the whole image. */
  lemma Rot90CCWSends(g: Grid)
    requires WellFormed(g)
    ensures var r := Rot90CCW(g);
      r.width == g.height && r.height == g.width &&
      forall x, y | 0 <= x < g.width && 0 <= y < g.height :: At(r, y, g.width - 1 - x) == At(g, x, y)
  {
    forall x, y | 0 <= x < g.width && 0 <= y < g.height
      ensures At(Rot90CCW(g), y, g.width - 1 - x) == At(g, x, y)
    {
      Rot90CCWAt(g, y, g.width - 1 - x);
    }
  }

  lemma TransposeAt(g: Grid, x: nat, y: nat)
    requires WellFormed(g) && x < g.height && y < g.width
    ensures At(Transpose(g), x, y) == At(g, y, x)
  {
    Rot90CCWAt(FlipH(g), x, y);
    FlipHAt(g, g.width - 1 - y, x);
  }

  lemma TransverseAt(g: Grid, x: nat, y: nat)
    requires WellFormed(g) && x < g.width && y < g.height
    ensures At(Transverse(g), g.height - 1 - y, g.width - 1 - x) == At(g, x, y)
  {
    var f := FlipH(g);
    Rot90CWAt(f, g.height - 1 - y, g.width - 1 - x);
    assert At(Transverse(g), g.height - 1 - y, g.width - 1 - x) == At(f, g.width - 1 - x, y);
    FlipHAt(g, g.width - 1 - x, y);
  }

  /**
   * The dispatch agrees with the table of symmetries: the corrected image holds
   * source pixel (x, y) at Landing(t, ...).
   */
  lemma OrientedLanding(t: int, g: Grid, x: nat, y: nat)
    requires WellFormed(g)
    requires x < g.width && y < g.height
    ensures var p := Landing(t, g.width, g.height, x, y);
      var r := Oriented(Some(t), g);
      p.0 < r.width && p.1 < r.height && At(r, p.0, p.1) == At(g, x, y)
  {
    if 5 <= t <= 8 {
      QuarterTurnLanding(t, g, x, y);
    } else {
      MirrorLanding(t, g, x, y);
    }
  }

  lemma {:induction false} MirrorLanding(t: int, g: Grid, x: nat, y: nat)
    requires WellFormed(g)
    requires x < g.width && y < g.height
    requires !(5 <= t <= 8)
    ensures var p := Landing(t, g.width, g.height, x, y);
      var r := Oriented(Some(t), g);
      p.0 < r.width && p.1 < r.height && At(r, p.0, p.1) == At(g, x, y)
  {
    var w, h := g.width, g.height;
    if t == 2 {
      FlipHAt(g, w - 1 - x, y);
    } else if t == 3 {
      Rot180At(g, w - 1 - x, h - 1 - y);
    } else if t == 4 {
      FlipVAt(g, x, h - 1 - y);
    }
  }

  lemma {:induction false} QuarterTurnLanding(t: int, g: Grid, x: nat, y: nat)
    requires WellFormed(g)
    requires x < g.width && y < g.height
    requires 5 <= t <= 8
    ensures var p := Landing(t, g.width, g.height, x, y);
      var r := Oriented(Some(t), g);
      p.0 < r.width && p.1 < r.height && At(r, p.0, p.1) == At(g, x, y)
  {
    if t == 5 {
      TransposeLanding(g, x, y);
    } else if t == 6 {
      TurnLanding(g, x, y);
    } else if t == 7 {
      TransverseLanding(g, x, y);
    } else {
      CounterTurnLanding(g, x, y);
    }
  }

  lemma TransposeLanding(g: Grid, x: nat, y: nat)
    requires WellFormed(g) && x < g.width && y < g.height
    ensures var r := Oriented(Some(5), g);
      y < r.width && x < r.height && At(r, y, x) == At(g, x, y)
  {
    TransposeAt(g, y, x);
    assert Oriented(Some(5), g) == Transpose(g);
  }

  lemma TransverseLanding(g: Grid, x: nat, y: nat)
    requires WellFormed(g) && x < g.width && y < g.height
    ensures var r := Oriented(Some(7), g);
      g.height - 1 - y < r.width && g.width - 1 - x < r.height &&
      At(r, g.height - 1 - y, g.width - 1 - x) == At(g, x, y)
  {
    TransverseAt(g, x, y);
    assert Oriented(Some(7), g) == Transverse(g);
  }

  lemma TurnLanding(g: Grid, x: nat, y: nat)
    requires WellFormed(g) && x < g.width && y < g.height
    ensures var r := Oriented(Some(6), g);
      g.height - 1 - y < r.width && x < r.height && At(r, g.height - 1 - y, x) == At(g, x, y)
  {
    Rot90CWAt(g, g.height - 1 - y, x);
  }

  lemma CounterTurnLanding(g: Grid, x: nat, y: nat)
    requires WellFormed(g) && x < g.width && y < g.height
    ensures var r := Oriented(Some(8), g);
      y < r.width && g.width - 1 - x < r.height && At(r, y, g.width - 1 - x) == At(g, x, y)
  {
    Rot90CCWAt(g, y, g.width - 1 - x);
  }

  /** Tag 5 is a transpose: source pixel (x, y) lands at (y, x). */
  lemma TransposeTag(g: Grid)
    requires WellFormed(g)
    ensures var r := Oriented(Some(5), g);
      r.width == g.height && r.height == g.width &&
      forall x, y | 0 <= x < g.width && 0 <= y < g.height :: At(r, y, x) == At(g, x, y)
  {
    var r := Transpose(g);
    assert Oriented(Some(5), g) == r;
    forall x, y | 0 <= x < g.width && 0 <= y < g.height
      ensures At(r, y, x) == At(g, x, y)
    {
      TransposeAt(g, y, x);
    }
  }

  /** Tag 7 is the transverse: source pixel (x, y) lands at (h-1-y, w-1-x). */
  lemma TransverseTag(g: Grid)
    requires WellFormed(g)
    ensures var r := Oriented(Some(7), g);
      r.width == g.height && r.height == g.width &&
      forall x, y | 0 <= x < g.width && 0 <= y < g.height :: At(r, g.height - 1 - y, g.width - 1 - x) == At(g, x, y)
  {
    var r := Transverse(g);
    assert Oriented(Some(7), g) == r;
    forall x, y | 0 <= x < g.width && 0 <= y < g.height
      ensures At(r, g.height - 1 - y, g.width - 1 - x) == At(g, x, y)
    {
      TransverseAt(g, x, y);
    }
  }

  lemma {:induction false} FlipHInvolution(g: Grid)
    requires WellFormed(g)
    ensures FlipH(FlipH(g)) == g
  {
    var r := FlipH(FlipH(g));
    forall x, y | 0 <= x < g.width && 0 <= y < g.height
      ensures At(r, x, y) == At(g, x, y)
    {
      FlipHAt(FlipH(g), x, y);
      FlipHAt(g, g.width - 1 - x, y);
    }
    GridExt(r, g);
  }

  lemma {:induction false} FlipVInvolution(g: Grid)
    requires WellFormed(g)
    ensures FlipV(FlipV(g)) == g
  {
    var r := FlipV(FlipV(g));
    forall x, y | 0 <= x < g.width && 0 <= y < g.height
      ensures At(r, x, y) == At(g, x, y)
    {
      FlipVAt(FlipV(g), x, y);
      FlipVAt(g, x, g.height - 1 - y);
    }
    GridExt(r, g);
  }

  lemma {:induction false} Rot180Involution(g: Grid)
    requires WellFormed(g)
    ensures Rot180(Rot180(g)) == g
  {
    var r := Rot180(Rot180(g));
    forall x, y | 0 <= x < g.width && 0 <= y < g.height
      ensures At(r, x, y) == At(g, x, y)
    {
      Rot180At(Rot180(g), x, y);
      Rot180At(g, g.width - 1 - x, g.height - 1 - y);
    }
    GridExt(r, g);
  }

  /** A half turn is a horizontal flip followed by a vertical one. */
  lemma {:induction false} Rot180IsFlips(g: Grid)
    requires WellFormed(g)
    ensures Rot180(g) == FlipV(FlipH(g))
  {
    var r := FlipV(FlipH(g));
    forall x, y | 0 <= x < g.width && 0 <= y < g.height
      ensures At(Rot180(g), x, y) == At(r, x, y)
    {
      var f := FlipH(g);
      Rot180At(g, x, y);
      FlipVAt(f, x, y);
      FlipHAt(g, x, g.height - 1 - y);
      assert At(r, x, y) == At(f, x, g.height - 1 - y);
    }
    GridExt(Rot180(g), r);
  }

  /** A quarter turn anticlockwise undoes a quarter turn clockwise. */
  lemma {:induction false} Rot90CCWUndoesCW(g: Grid)
    requires WellFormed(g)
    ensures Rot90CCW(Rot90CW(g)) == g
  {
    var r := Rot90CCW(Rot90CW(g));
    forall x, y | 0 <= x < g.width && 0 <= y < g.height
      ensures At(r, x, y) == At(g, x, y)
    {
      Rot90CCWAt(Rot90CW(g), x, y);
      Rot90CWAt(g, g.height - 1 - y, x);
    }
    GridExt(r, g);
  }

  /** A quarter turn clockwise undoes a quarter turn anticlockwise. */
  lemma {:induction false} Rot90CWUndoesCCW(g: Grid)
    requires WellFormed(g)
    ensures Rot90CW(Rot90CCW(g)) == g
  {
    var r := Rot90CW(Rot90CCW(g));
    forall x, y | 0 <= x < g.width && 0 <= y < g.height
      ensures At(r, x, y) == At(g, x, y)
    {
      Rot90CWAt(Rot90CCW(g), x, y);
      Rot90CCWAt(g, y, g.width - 1 - x);
    }
    GridExt(r, g);
  }

  /** Two quarter turns clockwise make a half turn. */
  lemma {:induction false} Rot90CWTwice(g: Grid)
    requires WellFormed(g)
    ensures Rot90CW(Rot90CW(g)) == Rot180(g)
  {
    var r := Rot90CW(Rot90CW(g));
    forall x, y | 0 <= x < g.width && 0 <= y < g.height
      ensures At(r, x, y) == At(Rot180(g), x, y)
    {
      Rot90CWAt(Rot90CW(g), x, y);
      Rot90CWAt(g, g.height - 1 - y, x);
      Rot180At(g, x, y);
    }
    GridExt(r, Rot180(g));
  }

  lemma {:induction false} TransposeInvolution(g: Grid)
    requires WellFormed(g)
    ensures Transpose(Transpose(g)) == g
  {
    var f := Transpose(g);
    var r := Transpose(f);
    forall x, y | 0 <= x < g.width && 0 <= y < g.height
      ensures At(r, x, y) == At(g, x, y)
    {
      TransposeAt(f, x, y);
      TransposeAt(g, y, x);
    }
    GridExt(r, g);
  }

  lemma TransverseTwiceAt(g: Grid, x: nat, y: nat)
    requires WellFormed(g) && x < g.width && y < g.height
    ensures At(Transverse(Transverse(g)), x, y) == At(g, x, y)
  {
    TransverseAt(Transverse(g), g.height - 1 - y, g.width - 1 - x);
    TransverseAt(g, x, y);
  }

  lemma {:induction false} TransverseInvolution(g: Grid)
    requires WellFormed(g)
    ensures Transverse(Transverse(g)) == g
  {
    forall x, y | 0 <= x < g.width && 0 <= y < g.height
      ensures At(Transverse(Transverse(g)), x, y) == At(g, x, y)
    {
      TransverseTwiceAt(g, x, y);
    }
    GridExt(Transverse(Transverse(g)), g);
  }

  /** The tag whose correction undoes the correction for tag t. */
  function InverseTag(t: int): (u: int)
    ensures SwapsAxes(Some(u)) <==> SwapsAxes(Some(t))
    ensures Corrects(Some(u)) <==> Corrects(Some(t))
  {
    if t == 6 then 8 else if t == 8 then 6 else t
  }

  /** Every correction is undone by the correction for its inverse tag. */
  lemma {:induction false} OrientedInverse(t: int, g: Grid)
    requires WellFormed(g)
    ensures Oriented(Some(InverseTag(t)), Oriented(Some(t), g)) == g
  {
    if t == 2 {
      FlipHInvolution(g);
    } else if t == 3 {
      Rot180Involution(g);
    } else if t == 4 {
      FlipVInvolution(g);
    } else if t == 5 {
      TransposeInvolution(g);
      assert Oriented(Some(5), g) == Transpose(g);
    } else if t == 6 {
      Rot90CCWUndoesCW(g);
    } else if t == 7 {
      TransverseInvolution(g);
      assert Oriented(Some(7), g) == Transverse(g);
    } else if t == 8 {
      Rot90CWUndoesCCW(g);
    }
  }
}
