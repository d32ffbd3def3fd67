/** Cropping a rasterized logo to its ink (og-image.tsx). */
module CropLogo {
  /** Pixels row by row. */
  datatype Image<P> = Image(width: nat, height: nat, pixels: seq<P>) {
    predicate Valid() {
      |pixels| == width * height
    }
  }

  /** How much ink a pixel carries; the source's luminance formula is one such measure. */
  type Measure<!P> = P -> real

  function Max(a: int, b: int): int {
    if a > b then a else b
  }

  function Min(a: int, b: int): int {
    if a < b then a else b
  }

  predicate Inside<P>(image: Image<P>, x: int, y: int) {
    0 <= x < image.width && 0 <= y < image.height
  }

  lemma OffsetInRange(width: int, height: int, x: int, y: int)
    requires 0 <= x < width && 0 <= y < height
    ensures 0 <= y * width + x < width * height
  {
    assert (y + 1) * width <= height * width;
    assert 0 <= y * width;
  }

  function Pixel<P>(image: Image<P>, x: int, y: int): P
    requires image.Valid() && Inside(image, x, y)
  {
    OffsetInRange(image.width, image.height, x, y);
    image.pixels[y * image.width + x]
  }

  predicate Inked<P>(ink: Measure<P>, image: Image<P>, x: int, y: int)
    requires image.Valid() && Inside(image, x, y)
  {
    ink(Pixel(image, x, y)) > 8.0
  }

  datatype Box = Box(minX: int, minY: int, maxX: int, maxY: int)

  /** The pixel comes before row `y`, or in it before column `x`, in reading order. */
  predicate Visited(px: int, py: int, x: int, y: int) {
    py < y || (py == y && px < x)
  }

  /** The box is the least one around the inked pixels visited so far. */
  ghost predicate Bounds<P>(ink: Measure<P>, image: Image<P>, box: Box, x: int, y: int)
    requires image.Valid()
  {
    && (forall px, py :: Inside(image, px, py) && Visited(px, py, x, y) && Inked(ink, image, px, py) ==>
          box.minX <= px <= box.maxX && box.minY <= py <= box.maxY)
    && (box == Box(image.width, image.height, -1, -1) || Touched(ink, image, box, x, y))
  }

  ghost predicate InkAt<P>(ink: Measure<P>, image: Image<P>, px: int, py: int, x: int, y: int)
    requires image.Valid()
  {
    Inside(image, px, py) && Visited(px, py, x, y) && Inked(ink, image, px, py)
  }

  /** Each of the box's edges runs through an inked pixel. */
  ghost predicate Touched<P>(ink: Measure<P>, image: Image<P>, box: Box, x: int, y: int)
    requires image.Valid()
  {
    && (exists py :: InkAt(ink, image, box.minX, py, x, y))
    && (exists py :: InkAt(ink, image, box.maxX, py, x, y))
    && (exists px :: InkAt(ink, image, px, box.minY, x, y))
    && (exists px :: InkAt(ink, image, px, box.maxY, x, y))
  }

  function Grown(box: Box, x: int, y: int): Box {
    Box(Min(box.minX, x), Min(box.minY, y), Max(box.maxX, x), Max(box.maxY, y))
  }

  lemma GrowBox<P>(ink: Measure<P>, image: Image<P>, box: Box, x: int, y: int)
    requires image.Valid() && Inside(image, x, y) && Bounds(ink, image, box, x, y)
    ensures Bounds(ink, image, if Inked(ink, image, x, y) then Grown(box, x, y) else box, x + 1, y)
  {
    if Inked(ink, image, x, y) {
      assert InkAt(ink, image, x, y, x + 1, y);
    }
    forall px, py | InkAt(ink, image, px, py, x, y)
      ensures InkAt(ink, image, px, py, x + 1, y)
    {
    }
  }

  /** Visiting a whole row leads to the start of the next. */
  lemma NextRow<P>(ink: Measure<P>, image: Image<P>, box: Box, y: int)
    requires image.Valid() && Bounds(ink, image, box, image.width, y)
    ensures Bounds(ink, image, box, 0, y + 1)
  {
    forall px, py | InkAt(ink, image, px, py, image.width, y)
      ensures InkAt(ink, image, px, py, 0, y + 1)
    {
    }
  }

  /** Contains every inked pixel, and has one on each of its four edges. */
  ghost predicate TightBox<P>(ink: Measure<P>, image: Image<P>, box: Box)
    requires image.Valid()
  {
    && 0 <= box.minX <= box.maxX < image.width && 0 <= box.minY <= box.maxY < image.height
    && (forall x, y :: Inside(image, x, y) && Inked(ink, image, x, y) ==>
          box.minX <= x <= box.maxX && box.minY <= y <= box.maxY)
    && (exists y :: Inside(image, box.minX, y) && Inked(ink, image, box.minX, y))
    && (exists y :: Inside(image, box.maxX, y) && Inked(ink, image, box.maxX, y))
    && (exists x :: Inside(image, x, box.minY) && Inked(ink, image, x, box.minY))
    && (exists x :: Inside(image, x, box.maxY) && Inked(ink, image, x, box.maxY))
  }

  ghost predicate Blank<P>(ink: Measure<P>, image: Image<P>)
    requires image.Valid()
  {
    forall x, y :: Inside(image, x, y) ==> !Inked(ink, image, x, y)
  }

  /** The nested loops of `cropLogo`. */
  method FindBox<P>(ink: Measure<P>, image: Image<P>) returns (box: Box)
    requires image.Valid()
    ensures if box.maxX < box.minX || box.maxY < box.minY then Blank(ink, image) else TightBox(ink, image, box)
  {
    var minX, minY, maxX, maxY := image.width, image.height, -1, -1;
    for y := 0 to image.height
      invariant Bounds(ink, image, Box(minX, minY, maxX, maxY), 0, y)
    {
      for x := 0 to image.width
        invariant Bounds(ink, image, Box(minX, minY, maxX, maxY), x, y)
      {
        GrowBox(ink, image, Box(minX, minY, maxX, maxY), x, y);
        if ink(Pixel(image, x, y)) <= 8.0 {
          continue;
        }
        minX := Min(minX, x);
        minY := Min(minY, y);
        maxX := Max(maxX, x);
        maxY := Max(maxY, y);
      }
      NextRow(ink, image, Box(minX, minY, maxX, maxY), y);
    }
    box := Box(minX, minY, maxX, maxY);
    FinalBox(ink, image, box);
  }

  lemma FinalBox<P>(ink: Measure<P>, image: Image<P>, box: Box)
    requires image.Valid() && Bounds(ink, image, box, 0, image.height)
    ensures if box.maxX < box.minX || box.maxY < box.minY then Blank(ink, image) else TightBox(ink, image, box)
  {
    if box == Box(image.width, image.height, -1, -1) {
      forall x, y | Inside(image, x, y)
        ensures !Inked(ink, image, x, y)
      {
        assert Visited(x, y, 0, image.height);
      }
    } else {
      var left :| InkAt(ink, image, box.minX, left, 0, image.height);
      var top :| InkAt(ink, image, top, box.minY, 0, image.height);
      assert box.minX <= box.maxX && box.minY <= box.maxY;
      assert forall x, y :: Inside(image, x, y) ==> Visited(x, y, 0, image.height);
    }
  }

  /** `target` is the part of `image` inside the box. */
  ghost predicate IsPart<P>(image: Image<P>, box: Box, target: Image<P>)
    requires image.Valid() && target.Valid()
  {
    && target.width == box.maxX - box.minX + 1 && target.height == box.maxY - box.minY + 1
    && forall x, y :: Inside(target, x, y) ==>
         Inside(image, box.minX + x, box.minY + y)
         && Pixel(target, x, y) == Pixel(image, box.minX + x, box.minY + y)
  }

  /** Appending a row keeps the pixels above it. */
  lemma AppendRow<P>(above: Image<P>, row: seq<P>, x: int, y: int)
    requires above.Valid() && |row| == above.width
    requires 0 <= x < above.width && 0 <= y <= above.height
    ensures Image(above.width, above.height + 1, above.pixels + row).Valid()
    ensures Pixel(Image(above.width, above.height + 1, above.pixels + row), x, y)
      == if y < above.height then Pixel(above, x, y) else row[x]
  {
    AppendedValid(above, row);
    if y < above.height {
      OffsetInRange(above.width, above.height, x, y);
    }
  }

  lemma AppendedValid<P>(above: Image<P>, row: seq<P>)
    requires above.Valid() && |row| == above.width
    ensures Image(above.width, above.height + 1, above.pixels + row).Valid()
  {
    assert above.width * (above.height + 1) == above.width * above.height + above.width;
  }

  /** Rows of the box copied one below the other, as `PNG.bitblt` does. */
  method CopyBox<P>(image: Image<P>, box: Box) returns (target: Image<P>)
    requires image.Valid()
    requires 0 <= box.minX <= box.maxX < image.width && 0 <= box.minY <= box.maxY < image.height
    ensures target.Valid() && IsPart(image, box, target)
  {
    var width, height := box.maxX - box.minX + 1, box.maxY - box.minY + 1;
    target := Image(width, 0, []);
    for y := 0 to height
      invariant target.width == width && target.height == y && target.Valid()
      invariant forall px, py :: Inside(target, px, py) ==>
        Pixel(target, px, py) == Pixel(image, box.minX + px, box.minY + py)
    {
      var row := RowOf(image, box, box.minY + y);
      var longer := Image(width, y + 1, target.pixels + row);
      AppendedValid(target, row);
      forall px, py | Inside(longer, px, py)
        ensures Pixel(longer, px, py) == Pixel(image, box.minX + px, box.minY + py)
      {
        AppendRow(target, row, px, py);
        assert py < y ==> Inside(target, px, py);
      }
      target := longer;
    }
  }

  method RowOf<P>(image: Image<P>, box: Box, y: int) returns (row: seq<P>)
    requires image.Valid() && 0 <= y < image.height && 0 <= box.minX <= box.maxX < image.width
    ensures |row| == box.maxX - box.minX + 1
    ensures forall px :: 0 <= px < |row| ==> row[px] == Pixel(image, box.minX + px, y)
  {
    row := [];
    for px := 0 to box.maxX - box.minX + 1
      invariant |row| == px
      invariant forall i :: 0 <= i < px ==> row[i] == Pixel(image, box.minX + i, y)
    {
      row := row + [Pixel(image, box.minX + px, y)];
    }
  }

  /** The part of the image inside its tight box, or the image itself when it has no ink. */
  ghost predicate IsCrop<P>(ink: Measure<P>, image: Image<P>, box: Box, cropped: Image<P>)
    requires image.Valid() && cropped.Valid()
  {
    if Blank(ink, image) then cropped == image else TightBox(ink, image, box) && IsPart(image, box, cropped)
  }

  /** `cropLogo`, with the box it found. */
  method Crop<P>(ink: Measure<P>, image: Image<P>) returns (cropped: Image<P>, ghost box: Box)
    requires image.Valid()
    ensures cropped.Valid()
    ensures IsCrop(ink, image, box, cropped)
  {
    var found := FindBox(ink, image);
    box := found;
    if found.maxX < found.minX || found.maxY < found.minY {
      return image, found;
    }
    cropped := CopyBox(image, found);
    assert !Blank(ink, image);
  }

  /** The tight box is unique. */
  lemma TightBoxIsUnique<P>(ink: Measure<P>, image: Image<P>, a: Box, b: Box)
    requires image.Valid() && TightBox(ink, image, a) && TightBox(ink, image, b)
    ensures a == b
  {
  }

  lemma IndexSplits(i: int, width: int, height: int)
    requires width > 0 && 0 <= i < width * height
    ensures 0 <= i % width < width && 0 <= i / width < height && i == i / width * width + i % width
  {
    assert i == width * (i / width) + i % width;
    if i / width >= height {
      Scale(height, i / width, width);
    }
  }

  lemma Scale(a: int, b: int, n: int)
    requires a <= b && n >= 0
    ensures n * a <= n * b
  {
  }

  /** A box has one part of the image in it. */
  lemma PartIsUnique<P>(image: Image<P>, box: Box, a: Image<P>, b: Image<P>)
    requires image.Valid() && a.Valid() && b.Valid()
    requires IsPart(image, box, a) && IsPart(image, box, b)
    ensures a == b
  {
    forall i | 0 <= i < |a.pixels|
      ensures a.pixels[i] == b.pixels[i]
    {
      if a.width > 0 {
        IndexSplits(i, a.width, a.height);
        assert Pixel(a, i % a.width, i / a.width) == Pixel(b, i % a.width, i / a.width);
      }
    }
  }

  /** The crop depends on nothing but the image: whatever meets the description is the same image. */
  lemma CropIsDetermined<P>(ink: Measure<P>, image: Image<P>, boxA: Box, a: Image<P>, boxB: Box, b: Image<P>)
    requires image.Valid() && a.Valid() && b.Valid()
    requires IsCrop(ink, image, boxA, a) && IsCrop(ink, image, boxB, b)
    ensures a == b
  {
    if !Blank(ink, image) {
      TightBoxIsUnique(ink, image, boxA, boxB);
      PartIsUnique(image, boxA, a, b);
    }
  }

  /** The whole of an image, as a box. */
  function WholeBox<P>(image: Image<P>): Box {
    Box(0, 0, image.width - 1, image.height - 1)
  }

  lemma InkCarriesOver<P>(ink: Measure<P>, image: Image<P>, box: Box, cropped: Image<P>, x: int, y: int)
    requires image.Valid() && TightBox(ink, image, box) && cropped.Valid() && IsPart(image, box, cropped)
    requires Inside(image, x, y) && Inked(ink, image, x, y)
    ensures Inside(cropped, x - box.minX, y - box.minY) && Inked(ink, cropped, x - box.minX, y - box.minY)
  {
    assert Inside(cropped, x - box.minX, y - box.minY);
  }

  /** The tight box of the cropped part is all of it. */
  lemma CroppedIsTight<P>(ink: Measure<P>, image: Image<P>, box: Box, cropped: Image<P>)
    requires image.Valid() && TightBox(ink, image, box)
    requires cropped.Valid() && IsPart(image, box, cropped)
    ensures TightBox(ink, cropped, WholeBox(cropped))
    ensures IsPart(cropped, WholeBox(cropped), cropped)
  {
    var left :| Inside(image, box.minX, left) && Inked(ink, image, box.minX, left);
    InkCarriesOver(ink, image, box, cropped, box.minX, left);
    var right :| Inside(image, box.maxX, right) && Inked(ink, image, box.maxX, right);
    InkCarriesOver(ink, image, box, cropped, box.maxX, right);
    var top :| Inside(image, top, box.minY) && Inked(ink, image, top, box.minY);
    InkCarriesOver(ink, image, box, cropped, top, box.minY);
    var bottom :| Inside(image, bottom, box.maxY) && Inked(ink, image, bottom, box.maxY);
    InkCarriesOver(ink, image, box, cropped, bottom, box.maxY);
  }

  /** Cropping again changes nothing. */
  lemma CropIsIdempotent<P>(
    ink: Measure<P>, image: Image<P>, box: Box, cropped: Image<P>, nextBox: Box, again: Image<P>)
    requires image.Valid() && cropped.Valid() && again.Valid()
    requires IsCrop(ink, image, box, cropped) && IsCrop(ink, cropped, nextBox, again)
    ensures again == cropped
  {
    if !Blank(ink, image) {
      CroppedIsTight(ink, image, box, cropped);
      CropIsDetermined(ink, cropped, WholeBox(cropped), cropped, nextBox, again);
    }
  }
}
