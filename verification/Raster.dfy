/** A recording's frames at the recording's size: `frame_pixels` and `fitted_pixels` of recording.rs.
    A pixel is its four bytes, so an offset here is the source's divided by four. */
module Raster {
  import opened Wrappers

  datatype Pixel = Pixel(c0: bv8, c1: bv8, c2: bv8, c3: bv8)

  const BLACK := Pixel(0, 0, 0, 255)

  /** Rows of `width` pixels, one after the other. */
  predicate IsImage(pixels: seq<Pixel>, width: nat, height: nat) {
    |pixels| == height * width
  }

  lemma {:induction false} MoreRows(a: nat, b: nat, width: nat)
    requires a <= b
    ensures 0 <= a * width <= b * width
    decreases b
  {
    if a < b {
      MoreRows(a, b - 1, width);
      assert b * width == (b - 1) * width + width;
    }
  }

  lemma InRow(width: nat, row: nat, height: nat)
    requires row < height
    ensures 0 <= row * width && row * width + width <= height * width
  {
    MoreRows(row + 1, height, width);
    assert (row + 1) * width == row * width + width;
  }

  lemma InImage(x: nat, y: nat, width: nat, height: nat)
    requires x < width && y < height
    ensures 0 <= y * width + x < height * width
    ensures y * width + width <= height * width
  {
    InRow(width, y, height);
  }

  /** Pixels of different rows are apart by where the rows lie. */
  lemma RowsApart(x: nat, y: nat, row: nat, width: nat)
    requires x < width && y != row
    ensures y < row ==> y * width + x < row * width
    ensures row < y ==> row * width + width <= y * width + x
  {
    if y < row {
      InImage(x, y, width, row);
    } else {
      InImage(0, row, width, y);
    }
  }

  function At(pixels: seq<Pixel>, width: nat, height: nat, x: nat, y: nat): Pixel
    requires IsImage(pixels, width, height) && x < width && y < height
  {
    InImage(x, y, width, height);
    pixels[y * width + x]
  }

  // ---- Channel order ----

  function Swap(p: Pixel): Pixel {
    Pixel(p.c2, p.c1, p.c0, p.c3)
  }

  function Swapped(pixels: seq<Pixel>): (r: seq<Pixel>)
    ensures |r| == |pixels| && forall i :: 0 <= i < |r| ==> r[i] == Swap(pixels[i])
  {
    seq(|pixels|, i requires 0 <= i < |pixels| => Swap(pixels[i]))
  }

  /** The swap is its own inverse and leaves the middle channel and alpha alone. */
  lemma SwapTwice(pixels: seq<Pixel>)
    ensures Swapped(Swapped(pixels)) == pixels
    ensures forall i :: 0 <= i < |pixels| ==>
      Swapped(pixels)[i].c1 == pixels[i].c1 && Swapped(pixels)[i].c3 == pixels[i].c3
  {
  }

  method SwapInPlace(a: array<Pixel>)
    modifies a
    ensures a[..] == Swapped(old(a[..]))
  {
    for i := 0 to a.Length
      invariant forall k :: 0 <= k < i ==> a[k] == Swap(old(a[k]))
      invariant forall k :: i <= k < a.Length ==> a[k] == old(a[k])
    {
      a[i] := Pixel(a[i].c2, a[i].c1, a[i].c0, a[i].c3);
    }
  }

  // ---- Trimming to even sides ----

  predicate OnlyTrimmed(fromWidth: nat, fromHeight: nat, width: nat, height: nat) {
    width <= fromWidth <= width + 1 && height <= fromHeight <= height + 1
  }

  /** Drops the last column or row and keeps every other pixel where it was. */
  method Trim(pixels: seq<Pixel>, fromWidth: nat, fromHeight: nat, width: nat, height: nat)
    returns (trimmed: seq<Pixel>)
    requires IsImage(pixels, fromWidth, fromHeight) && OnlyTrimmed(fromWidth, fromHeight, width, height)
    ensures IsImage(trimmed, width, height)
    ensures forall x: nat, y: nat :: x < width && y < height ==>
      At(trimmed, width, height, x, y) == At(pixels, fromWidth, fromHeight, x, y)
  {
    trimmed := [];
    if width == 0 {
      return;
    }
    for y := 0 to height
      invariant IsImage(trimmed, width, y)
      invariant forall v: nat, u: nat :: u < width && v < y ==>
        At(trimmed, width, y, u, v) == At(pixels, fromWidth, fromHeight, u, v)
    {
      InImage(fromWidth - 1, y, fromWidth, fromHeight);
      ghost var before := trimmed;
      trimmed := trimmed + pixels[y * fromWidth..y * fromWidth + width];
      OneMoreRow(before, trimmed, pixels, fromWidth, fromHeight, width, y);
    }
  }

  lemma OneMoreRow(
    before: seq<Pixel>, after: seq<Pixel>, pixels: seq<Pixel>, fromWidth: nat, fromHeight: nat, width: nat, row: nat)
    requires 0 < width <= fromWidth && row < fromHeight && IsImage(pixels, fromWidth, fromHeight)
    requires row * fromWidth + width <= |pixels|
    requires IsImage(before, width, row) && after == before + pixels[row * fromWidth..row * fromWidth + width]
    requires forall v: nat, u: nat :: u < width && v < row ==>
      At(before, width, row, u, v) == At(pixels, fromWidth, fromHeight, u, v)
    ensures IsImage(after, width, row + 1)
    ensures forall v: nat, u: nat :: u < width && v < row + 1 ==>
      At(after, width, row + 1, u, v) == At(pixels, fromWidth, fromHeight, u, v)
  {
    assert (row + 1) * width == row * width + width;
    forall v: nat, u: nat | u < width && v < row + 1
      ensures At(after, width, row + 1, u, v) == At(pixels, fromWidth, fromHeight, u, v)
    {
      if v < row {
        InImage(u, v, width, row);
        assert At(before, width, row, u, v) == At(pixels, fromWidth, fromHeight, u, v);
      }
    }
  }

  // ---- Fitting a resized window onto the recording's canvas ----

  function RoundedQuotient(a: nat, b: nat): (r: nat)
    requires 0 < b
  {
    (2 * a + b) / (2 * b)
  }

  /** Rounds to the nearest, halves up. */
  lemma RoundsToNearest(a: nat, b: nat)
    requires 0 < b
    ensures var r := RoundedQuotient(a, b); 2 * r * b <= 2 * a + b < 2 * r * b + 2 * b
  {
    var r, d := RoundedQuotient(a, b), 2 * b;
    assert 2 * a + b == r * d + (2 * a + b) % d;
    assert r * d == 2 * r * b;
  }

  function Clamp(n: nat, high: nat): nat
    requires 0 < high
  {
    if n < 1 then 1 else if n > high then high else n
  }

  function AtLeastOne(n: nat): nat {
    if n == 0 then 1 else n
  }

  /** The scale that fits a frame inside the canvas, as a fraction. */
  function Scale(fromWidth: nat, fromHeight: nat, width: nat, height: nat): (scale: (nat, nat))
    ensures 0 < scale.1
  {
    var w, h := AtLeastOne(fromWidth), AtLeastOne(fromHeight);
    if width * h <= height * w then (width, w) else (height, h)
  }

  function FittedSize(fromWidth: nat, fromHeight: nat, width: nat, height: nat): (size: (nat, nat))
    requires 0 < width && 0 < height
    ensures 0 < size.0 <= width && 0 < size.1 <= height
  {
    var (num, den) := Scale(fromWidth, fromHeight, width, height);
    (Clamp(RoundedQuotient(fromWidth * num, den), width), Clamp(RoundedQuotient(fromHeight * num, den), height))
  }

  /** Of a frame that is not empty, one side fills the canvas and the other keeps the proportions to
      half a pixel, or is one pixel. */
  lemma FittedKeepsProportions(fromWidth: nat, fromHeight: nat, width: nat, height: nat)
    requires 0 < fromWidth && 0 < fromHeight && 0 < width && 0 < height
    ensures var (w, h) := FittedSize(fromWidth, fromHeight, width, height);
      || (w == width && NearlyOrOne(h, fromHeight * width, fromWidth))
      || (h == height && NearlyOrOne(w, fromWidth * height, fromHeight))
  {
    if width * fromHeight <= height * fromWidth {
      RoundsExactly(width, fromWidth);
      FitsUnder(fromHeight * width, fromWidth, height);
      RoundsToNearest(fromHeight * width, fromWidth);
    } else {
      RoundsExactly(height, fromHeight);
      FitsUnder(fromWidth * height, fromHeight, width);
      RoundsToNearest(fromWidth * height, fromHeight);
    }
  }

  /** `n` is `a / b` to half a unit, or one where that is less than half. */
  predicate NearlyOrOne(n: nat, a: nat, b: nat) {
    (2 * n * b <= 2 * a + b && 2 * a < 2 * n * b + b) || (n == 1 && 2 * a < b)
  }

  lemma RoundsExactly(n: nat, b: nat)
    requires 0 < b
    ensures RoundedQuotient(b * n, b) == n
  {
    RoundsToNearest(b * n, b);
    var r := RoundedQuotient(b * n, b);
    Compare(r, n, b);
    Compare(n, r, b);
  }

  lemma Compare(r: nat, n: nat, b: nat)
    requires 0 < b
    ensures n < r ==> 2 * n * b + 2 * b <= 2 * r * b
  {
    if n < r {
      assert 2 * r * b == 2 * n * b + 2 * (r - n) * b;
      assert (r - n) * b == b + (r - n - 1) * b;
    }
  }

  lemma FitsUnder(a: nat, b: nat, limit: nat)
    requires 0 < b && a <= limit * b
    ensures RoundedQuotient(a, b) <= limit
  {
    RoundsToNearest(a, b);
    Compare(RoundedQuotient(a, b), limit, b);
  }

  /** A fitted frame at (`left`, `top`) of a black canvas: what pixel (`x`, `y`) shows. */
  function Shown(fitted: seq<Pixel>, w: nat, h: nat, left: nat, top: nat, x: nat, y: nat): Pixel
    requires IsImage(fitted, w, h)
  {
    if left <= x < left + w && top <= y < top + h then At(fitted, w, h, x - left, y - top) else BLACK
  }

  /** Copies one row onto the canvas; every other pixel keeps its place. */
  method CopyRow(canvas: array<Pixel>, at: nat, fitted: seq<Pixel>, from: nat, count: nat)
    requires at + count <= canvas.Length && from + count <= |fitted|
    modifies canvas
    ensures forall i :: 0 <= i < canvas.Length ==>
      canvas[i] == if at <= i < at + count then fitted[from + i - at] else old(canvas[i])
  {
    forall i | at <= i < at + count {
      canvas[i] := fitted[from + i - at];
    }
  }

  lemma RowPlaced(
    before: seq<Pixel>, after: seq<Pixel>, width: nat, height: nat, fitted: seq<Pixel>, w: nat, h: nat, left: nat,
    top: nat, row: nat, x: nat, y: nat)
    requires IsImage(before, width, height) && IsImage(after, width, height) && IsImage(fitted, w, h)
    requires row < h && left + w <= width && top + h <= height && x < width && y < height
    requires row * w + w <= |fitted|
    requires forall i :: 0 <= i < |after| ==>
      after[i] == if (top + row) * width + left <= i < (top + row) * width + left + w
                  then fitted[row * w + i - ((top + row) * width + left)] else before[i]
    requires At(before, width, height, x, y) ==
      if y < top + row then Shown(fitted, w, h, left, top, x, y) else BLACK
    ensures At(after, width, height, x, y) ==
      if y < top + row + 1 then Shown(fitted, w, h, left, top, x, y) else BLACK
  {
    InImage(x, y, width, height);
    if y != top + row {
      RowsApart(x, y, top + row, width);
    }
  }

  /** The canvas so far: the rows above `top + row` done, the rest black. */
  ghost predicate PlacedTo(
    canvas: seq<Pixel>, width: nat, height: nat, fitted: seq<Pixel>, w: nat, h: nat, left: nat, top: nat, row: nat)
  {
    && IsImage(canvas, width, height) && IsImage(fitted, w, h)
    && forall x: nat, y: nat :: x < width && y < height ==>
      At(canvas, width, height, x, y) == if y < top + row then Shown(fitted, w, h, left, top, x, y) else BLACK
  }

  lemma RowOnCanvas(width: nat, height: nat, w: nat, h: nat, left: nat, top: nat, row: nat)
    requires row < h && left + w <= width && top + h <= height
    ensures 0 <= row * w && row * w + w <= h * w
    ensures 0 <= (top + row) * width && (top + row) * width + left + w <= height * width
  {
    InRow(w, row, h);
    InRow(width, top + row, height);
  }

  method PlaceRow(
    canvas: array<Pixel>, width: nat, height: nat, fitted: seq<Pixel>, w: nat, h: nat, left: nat, top: nat, row: nat)
    requires PlacedTo(canvas[..], width, height, fitted, w, h, left, top, row)
    requires row < h && left + w <= width && top + h <= height
    modifies canvas
    ensures PlacedTo(canvas[..], width, height, fitted, w, h, left, top, row + 1)
  {
    RowOnCanvas(width, height, w, h, left, top, row);
    ghost var before := canvas[..];
    CopyRow(canvas, (top + row) * width + left, fitted, row * w, w);
    ghost var after := canvas[..];
    forall x: nat, y: nat | x < width && y < height
      ensures At(after, width, height, x, y) ==
        if y < top + (row + 1) then Shown(fitted, w, h, left, top, x, y) else BLACK
    {
      assert At(before, width, height, x, y) == if y < top + row then Shown(fitted, w, h, left, top, x, y) else BLACK;
      RowPlaced(before, after, width, height, fitted, w, h, left, top, row, x, y);
    }
  }

  /** Puts a fitted frame in the middle of a black canvas. */
  method Place(fitted: seq<Pixel>, w: nat, h: nat, width: nat, height: nat) returns (canvas: array<Pixel>)
    requires IsImage(fitted, w, h) && w <= width && h <= height
    ensures fresh(canvas) && IsImage(canvas[..], width, height)
    ensures forall x: nat, y: nat :: x < width && y < height ==>
      At(canvas[..], width, height, x, y) == Shown(fitted, w, h, (width - w) / 2, (height - h) / 2, x, y)
  {
    canvas := Black(width, height);
    var left, top := (width - w) / 2, (height - h) / 2;
    AllBlack(canvas[..], width, height, fitted, w, h, left, top);
    for row := 0 to h
      invariant PlacedTo(canvas[..], width, height, fitted, w, h, left, top, row)
    {
      PlaceRow(canvas, width, height, fitted, w, h, left, top, row);
    }
  }

  method Black(width: nat, height: nat) returns (canvas: array<Pixel>)
    ensures fresh(canvas) && canvas.Length == height * width
    ensures forall i :: 0 <= i < canvas.Length ==> canvas[i] == BLACK
  {
    assert 0 <= height * width;
    canvas := new Pixel[height * width](_ => BLACK);
  }

  lemma AllBlack(
    canvas: seq<Pixel>, width: nat, height: nat, fitted: seq<Pixel>, w: nat, h: nat, left: nat, top: nat)
    requires IsImage(canvas, width, height) && IsImage(fitted, w, h)
    requires forall i :: 0 <= i < |canvas| ==> canvas[i] == BLACK
    ensures PlacedTo(canvas, width, height, fitted, w, h, left, top, 0)
  {
    forall x: nat, y: nat | x < width && y < height
      ensures At(canvas, width, height, x, y) == BLACK
    {
      InImage(x, y, width, height);
    }
  }

  // ---- The two together ----

  /** A captured pixel in the order a recording keeps its channels. */
  function BlueFirst(p: Pixel, blueFirst: bool): Pixel {
    if blueFirst then p else Swap(p)
  }

  /** Resampling from one size to another. */
  type Resampler = (seq<Pixel>, nat, nat, nat, nat) -> seq<Pixel>

  ghost predicate GivesImages(shrink: Resampler) {
    forall pixels, fromWidth, fromHeight, width, height ::
      IsImage(shrink(pixels, fromWidth, fromHeight, width, height), width, height)
  }

  /** A frame at a recording's size: where that is the frame's, but for a last row or column, every
      captured pixel in its place; elsewhere the captured image resampled. */
  ghost predicate IsFrameAt(
    pixels: seq<Pixel>, frame: seq<Pixel>, fromWidth: nat, fromHeight: nat, blueFirst: bool, width: nat, height: nat,
    shrink: Resampler)
    requires IsImage(frame, fromWidth, fromHeight)
  {
    && IsImage(pixels, width, height)
    && if OnlyTrimmed(fromWidth, fromHeight, width, height) then
         forall x: nat, y: nat :: x < width && y < height ==>
           At(pixels, width, height, x, y) == BlueFirst(At(frame, fromWidth, fromHeight, x, y), blueFirst)
       else pixels == shrink(InBlueFirst(frame, blueFirst), fromWidth, fromHeight, width, height)
  }

  function InBlueFirst(pixels: seq<Pixel>, blueFirst: bool): (r: seq<Pixel>)
    ensures |r| == |pixels| && forall i :: 0 <= i < |r| ==> r[i] == BlueFirst(pixels[i], blueFirst)
  {
    if blueFirst then pixels else Swapped(pixels)
  }

  lemma InBlueFirstAt(pixels: seq<Pixel>, blueFirst: bool, width: nat, height: nat, x: nat, y: nat)
    requires IsImage(pixels, width, height) && x < width && y < height
    ensures At(InBlueFirst(pixels, blueFirst), width, height, x, y)
      == BlueFirst(At(pixels, width, height, x, y), blueFirst)
  {
    InImage(x, y, width, height);
  }

  /** The captured bytes, with red and blue exchanged where red came first. */
  method Reorder(cropped: seq<Pixel>, blueFirst: bool) returns (pixels: seq<Pixel>)
    ensures pixels == InBlueFirst(cropped, blueFirst)
  {
    if blueFirst {
      return cropped;
    }
    var a := new Pixel[|cropped|](i requires 0 <= i < |cropped| => cropped[i]);
    assert a[..] == cropped;
    SwapInPlace(a);
    pixels := a[..];
  }

  /** `frame_pixels` once the area is cropped. */
  method FramePixels(
    cropped: seq<Pixel>, fromWidth: nat, fromHeight: nat, blueFirst: bool, width: nat, height: nat, shrink: Resampler)
    returns (pixels: seq<Pixel>)
    requires IsImage(cropped, fromWidth, fromHeight) && GivesImages(shrink)
    ensures IsFrameAt(pixels, cropped, fromWidth, fromHeight, blueFirst, width, height, shrink)
  {
    ghost var all := InBlueFirst(cropped, blueFirst);
    var whole := Reorder(cropped, blueFirst);
    if width == fromWidth && height == fromHeight {
      pixels := whole;
    } else if width <= fromWidth <= width + 1 && height <= fromHeight <= height + 1 {
      pixels := Trim(whole, fromWidth, fromHeight, width, height);
    } else {
      pixels := shrink(whole, fromWidth, fromHeight, width, height);
      return;
    }
    forall x: nat, y: nat | x < width && y < height
      ensures At(pixels, width, height, x, y) == BlueFirst(At(cropped, fromWidth, fromHeight, x, y), blueFirst)
    {
      assert At(pixels, width, height, x, y) == At(all, fromWidth, fromHeight, x, y);
      InBlueFirstAt(cropped, blueFirst, fromWidth, fromHeight, x, y);
    }
  }

  /** `fitted_pixels`: the frame at the size that fits, in the middle of black. */
  method FittedPixels(
    frame: seq<Pixel>, fromWidth: nat, fromHeight: nat, blueFirst: bool, width: nat, height: nat, shrink: Resampler)
    returns (canvas: array<Pixel>, ghost fitted: seq<Pixel>)
    requires IsImage(frame, fromWidth, fromHeight) && 0 < width && 0 < height && GivesImages(shrink)
    ensures fresh(canvas) && IsImage(canvas[..], width, height)
    ensures var (w, h) := FittedSize(fromWidth, fromHeight, width, height);
      && IsFrameAt(fitted, frame, fromWidth, fromHeight, blueFirst, w, h, shrink)
      && forall x: nat, y: nat :: x < width && y < height ==>
        At(canvas[..], width, height, x, y) == Shown(fitted, w, h, (width - w) / 2, (height - h) / 2, x, y)
  {
    var (w, h) := FittedSize(fromWidth, fromHeight, width, height);
    var pixels := FramePixels(frame, fromWidth, fromHeight, blueFirst, w, h, shrink);
    canvas := Place(pixels, w, h, width, height);
    fitted := pixels;
  }
}
