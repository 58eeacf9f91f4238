/** The resize-and-crop arithmetic of LoRA training (lora_train.py): a reference image is scaled so its
    short side is the training resolution, center-cropped to a square, and its horizontally flipped copy
    is described by the crop offset it would have had. */
module Crop {

  // --- rounding -----------------------------------------------------------------------------------

  /** Python's round of a float: to nearest, ties to even. */
  function RoundHalfEven(x: real): int {
    var floor := x.Floor;
    var rest := x - floor as real;
    if rest < 0.5 then floor
    else if rest > 0.5 then floor + 1
    else if floor % 2 == 0 then floor else floor + 1
  }

  /** Within one half, and even when exactly one half away. */
  predicate IsRounding(r: int, x: real) {
    && -0.5 <= r as real - x <= 0.5
    && (r as real - x == 0.5 || x - r as real == 0.5 ==> r % 2 == 0)
  }

  /** round is pinned down by what it promises. */
  lemma RoundHalfEvenIff(r: int, x: real)
    ensures r == RoundHalfEven(x) <==> IsRounding(r, x)
  {
    var floor := x.Floor;
    assert floor as real <= x < floor as real + 1.0;
    if IsRounding(r, x) {
      assert floor <= r <= floor + 1;
    }
  }

  lemma RoundAtLeast(x: real, n: int)
    requires n as real - 0.5 < x
    ensures n <= RoundHalfEven(x)
  {
    RoundHalfEvenIff(RoundHalfEven(x), x);
  }

  lemma RoundAtMost(x: real, n: int)
    requires x < n as real + 0.5
    ensures RoundHalfEven(x) <= n
  {
    RoundHalfEvenIff(RoundHalfEven(x), x);
  }

  // --- floating point -----------------------------------------------------------------------------

  /** 2^-53, the unit roundoff of a binary64 float. */
  const UNIT: real := 1.0 / 9007199254740992.0

  /** `fl` rounds the result of one float operation: some value within the unit roundoff of the exact one.
      This holds of binary64 with rounding to nearest, away from overflow and underflow. */
  ghost predicate IsFloat(fl: real -> real) {
    forall x :: 0.0 <= x ==> (1.0 - UNIT) * x <= fl(x) <= (1.0 + UNIT) * x
  }

  lemma Scale(c: real, a: real, b: real)
    requires 0.0 <= c && a <= b
    ensures c * a <= c * b
  {
    assert 0.0 <= c * (b - a);
  }

  function Times(a: real, b: real): real { a * b }

  /** The float product of `a` and the float nearest to `b`. */
  function FloatTimes(fl: real -> real, a: real, b: real): real { fl(a * fl(b)) }

  lemma TwoRoundings(fl: real -> real, side: real, q: real)
    requires IsFloat(fl) && 0.0 <= side && 0.0 <= q
    ensures var e := Times(side, q);
      0.0 <= e && (1.0 - 2.0 * UNIT) * e <= FloatTimes(fl, side, q) <= (1.0 + 3.0 * UNIT) * e
  {
    var e, s := side * q, fl(q);
    Scale(side, (1.0 - UNIT) * q, s);
    Scale(side, s, (1.0 + UNIT) * q);
    assert side * ((1.0 - UNIT) * q) == (1.0 - UNIT) * e;
    assert side * ((1.0 + UNIT) * q) == (1.0 + UNIT) * e;
    Scale(side, 0.0, q);
    var p := side * s;
    assert 0.0 <= (1.0 - UNIT) * e <= p <= (1.0 + UNIT) * e;
    Scale(1.0 - UNIT, (1.0 - UNIT) * e, p);
    Scale(1.0 + UNIT, p, (1.0 + UNIT) * e);
  }

  // --- resizing -----------------------------------------------------------------------------------

  function Min(a: nat, b: nat): nat { if a < b then a else b }

  function Ratio(resolution: nat, short: nat): (q: real)
    requires short > 0
    ensures 0.0 <= q && short as real * q == resolution as real
  {
    resolution as real / short as real
  }

  /** side * (resolution / short), both operations in floats. */
  function FloatSide(fl: real -> real, side: nat, short: nat, resolution: nat): real
    requires short > 0
  {
    FloatTimes(fl, side as real, Ratio(resolution, short))
  }

  /** The same, exactly. */
  function ExactSide(side: nat, short: nat, resolution: nat): real
    requires short > 0
  {
    Times(side as real, Ratio(resolution, short))
  }

  /** round(side * (resolution / min(width, height))) */
  function Scaled(fl: real -> real, side: nat, width: nat, height: nat, resolution: nat): int
    requires width > 0 && height > 0
  {
    RoundHalfEven(FloatSide(fl, side, Min(width, height), resolution))
  }

  /** (new - resolution) // 2, the center offset on one axis. */
  function CenterOffset(fl: real -> real, side: nat, width: nat, height: nat, resolution: nat): int
    requires width > 0 && height > 0
  {
    (Scaled(fl, side, width, height, resolution) - resolution) / 2
  }

  /** The left offset recorded for the flipped copy. */
  function FlippedLeft(fl: real -> real, width: nat, height: nat, resolution: nat): int
    requires width > 0 && height > 0
  {
    Scaled(fl, width, width, height, resolution) - CenterOffset(fl, width, width, height, resolution) - resolution
  }

  /** 2^50. A request's resolution is clamped to 1536 at most. */
  const MAX_RESOLUTION := 1125899906842624

  lemma ExactCovers(side: nat, short: nat, resolution: nat)
    requires 0 < short <= side
    ensures resolution as real <= ExactSide(side, short, resolution)
    ensures side == short ==> ExactSide(side, short, resolution) == resolution as real
  {
    Scale(Ratio(resolution, short), short as real, side as real);
  }

  lemma FloatSideIsNear(fl: real -> real, side: nat, short: nat, resolution: nat)
    requires IsFloat(fl) && short > 0
    ensures var e := ExactSide(side, short, resolution);
      0.0 <= e && (1.0 - 2.0 * UNIT) * e <= FloatSide(fl, side, short, resolution) <= (1.0 + 3.0 * UNIT) * e
  {
    TwoRoundings(fl, side as real, Ratio(resolution, short));
  }

  /** The float error stays below one half as long as the resolution fits in 50 bits. */
  lemma SmallError(x: real, e: real, r: nat)
    requires (1.0 - 2.0 * UNIT) * e <= x <= (1.0 + 3.0 * UNIT) * e
    requires r <= MAX_RESOLUTION && r as real <= e
    ensures r as real - 0.5 < x
    ensures e == r as real ==> x < r as real + 0.5
  {
    Scale(1.0 - 2.0 * UNIT, r as real, e);
    Scale(3.0 * UNIT, r as real, MAX_RESOLUTION as real);
  }

  /** The short side becomes exactly the resolution and no side falls below it, whatever the float
      operations lose. */
  lemma ResizeCovers(fl: real -> real, side: nat, width: nat, height: nat, resolution: nat)
    requires IsFloat(fl) && resolution <= MAX_RESOLUTION
    requires width > 0 && height > 0 && (side == width || side == height)
    ensures resolution <= Scaled(fl, side, width, height, resolution)
    ensures side == Min(width, height) ==> Scaled(fl, side, width, height, resolution) == resolution
  {
    var short := Min(width, height);
    var x, e := FloatSide(fl, side, short, resolution), ExactSide(side, short, resolution);
    ExactCovers(side, short, resolution);
    FloatSideIsNear(fl, side, short, resolution);
    SmallError(x, e, resolution);
    RoundAtLeast(x, resolution);
    if side == short {
      RoundAtMost(x, resolution);
    }
  }

  /** A scaled side is the nearest integer to the exact one, give or take the float error. */
  lemma ScaledIsNear(fl: real -> real, side: nat, width: nat, height: nat, resolution: nat)
    requires IsFloat(fl) && width > 0 && height > 0
    ensures var e := ExactSide(side, Min(width, height), resolution);
      -0.5 - 3.0 * UNIT * e <= Scaled(fl, side, width, height, resolution) as real - e <= 0.5 + 3.0 * UNIT * e
  {
    var short := Min(width, height);
    FloatSideIsNear(fl, side, short, resolution);
    RoundingIsNear(FloatSide(fl, side, short, resolution), ExactSide(side, short, resolution));
  }

  lemma RoundingIsNear(x: real, e: real)
    requires 0.0 <= e && (1.0 - 2.0 * UNIT) * e <= x <= (1.0 + 3.0 * UNIT) * e
    ensures -0.5 - 3.0 * UNIT * e <= RoundHalfEven(x) as real - e <= 0.5 + 3.0 * UNIT * e
  {
    RoundHalfEvenIff(RoundHalfEven(x), x);
  }

  /** Both crops lie inside the resized image, the flipped one leaves on its right what the center one
      leaves on its left, the two offsets differ by at most one column, and a crop is never offset along
      the short side. */
  lemma CropsFit(fl: real -> real, width: nat, height: nat, resolution: nat)
    requires IsFloat(fl) && resolution <= MAX_RESOLUTION && width > 0 && height > 0
    ensures var newW := Scaled(fl, width, width, height, resolution);
            var newH := Scaled(fl, height, width, height, resolution);
            var left := CenterOffset(fl, width, width, height, resolution);
            var top := CenterOffset(fl, height, width, height, resolution);
            var flipped := FlippedLeft(fl, width, height, resolution);
            && 0 <= left && left + resolution <= newW
            && 0 <= top && top + resolution <= newH
            && 0 <= flipped && flipped + resolution <= newW
            && left + resolution + flipped == newW
            && left <= flipped <= left + 1
            && (flipped == left <==> (newW - resolution) % 2 == 0)
            && (width <= height ==> left == flipped == 0)
            && (height <= width ==> top == 0)
  {
    ResizeCovers(fl, width, width, height, resolution);
    ResizeCovers(fl, height, width, height, resolution);
  }

  // --- the micro-conditions of a training slot -----------------------------------------------------

  datatype Size = Size(height: nat, width: nat)

  /** One row of SDXL micro-conditioning: original size, crop offset, target size. */
  datatype TimeIds = TimeIds(original: Size, cropTop: int, cropLeft: int, target: nat)

  /** `ids` describes the square in the middle of the resized image, the odd row or column (if any) left over
      below it and to its right; `flipped` leaves on its left what `ids` leaves on its right. */
  predicate IsCropPair(fl: real -> real, ids: TimeIds, flipped: TimeIds, size: Size, resolution: nat)
    requires size.width > 0 && size.height > 0
  {
    var newH := Scaled(fl, size.height, size.width, size.height, resolution);
    var newW := Scaled(fl, size.width, size.width, size.height, resolution);
    var below := newH - ids.cropTop - resolution;
    var right := newW - ids.cropLeft - resolution;
    && ids.original == size && ids.target == resolution
    && 0 <= ids.cropTop <= below <= ids.cropTop + 1
    && 0 <= ids.cropLeft <= right <= ids.cropLeft + 1
    && (if size.width <= size.height then ids.cropLeft == right == 0 else ids.cropTop == below == 0)
    && flipped == ids.(cropLeft := right)
  }

  lemma PairIsRight(fl: real -> real, size: Size, resolution: nat)
    requires IsFloat(fl) && resolution <= MAX_RESOLUTION && size.width > 0 && size.height > 0
    ensures
      var top := CenterOffset(fl, size.height, size.width, size.height, resolution);
      var left := CenterOffset(fl, size.width, size.width, size.height, resolution);
      var newW := Scaled(fl, size.width, size.width, size.height, resolution);
      IsCropPair(fl, TimeIds(size, top, left, resolution),
                 TimeIds(size, top, newW - left - resolution, resolution), size, resolution)
  {
    CropsFit(fl, size.width, size.height, resolution);
    ResizeCovers(fl, size.width, size.width, size.height, resolution);
    ResizeCovers(fl, size.height, size.width, size.height, resolution);
  }

  /** The reference loop of train_slot: one pair of conditions per image, in order. */
  method DescribeReferences(fl: real -> real, refs: seq<Size>, resolution: nat)
    returns (timeIds: seq<TimeIds>, flippedTimeIds: seq<TimeIds>)
    requires IsFloat(fl) && resolution <= MAX_RESOLUTION
    requires forall s :: s in refs ==> s.width > 0 && s.height > 0
    ensures |timeIds| == |flippedTimeIds| == |refs|
    ensures forall i :: 0 <= i < |refs| ==> IsCropPair(fl, timeIds[i], flippedTimeIds[i], refs[i], resolution)
  {
    timeIds, flippedTimeIds := [], [];
    for n := 0 to |refs|
      invariant |timeIds| == |flippedTimeIds| == n
      invariant forall i :: 0 <= i < n ==> IsCropPair(fl, timeIds[i], flippedTimeIds[i], refs[i], resolution)
    {
      var size := refs[n];
      PairIsRight(fl, size, resolution);
      var top := CenterOffset(fl, size.height, size.width, size.height, resolution);
      var left := CenterOffset(fl, size.width, size.width, size.height, resolution);
      timeIds := timeIds + [TimeIds(size, top, left, resolution)];
      var newW := Scaled(fl, size.width, size.width, size.height, resolution);
      flippedTimeIds := flippedTimeIds + [TimeIds(size, top, newW - left - resolution, resolution)];
    }
  }

  // --- cropping and mirroring ---------------------------------------------------------------------

  /** An image is its rows, top to bottom, each of one width. */
  predicate IsImage<T>(img: seq<seq<T>>, width: nat, height: nat) {
    |img| == height && forall y :: 0 <= y < |img| ==> |img[y]| == width
  }

  function CropImage<T>(img: seq<seq<T>>, left: nat, top: nat, size: nat): (r: seq<seq<T>>)
    requires top + size <= |img|
    requires forall y :: 0 <= y < |img| ==> left + size <= |img[y]|
    ensures IsImage(r, size, size)
    ensures forall y :: 0 <= y < size ==> r[y] == img[top + y][left..left + size]
  {
    seq(size, y requires 0 <= y < size => img[top + y][left..left + size])
  }

  function MirrorRow<T>(row: seq<T>): (r: seq<T>)
    ensures |r| == |row|
    ensures forall x :: 0 <= x < |row| ==> r[x] == row[|row| - 1 - x]
  {
    seq(|row|, x requires 0 <= x < |row| => row[|row| - 1 - x])
  }

  function Mirror<T>(img: seq<seq<T>>): (r: seq<seq<T>>)
    ensures |r| == |img|
    ensures forall y :: 0 <= y < |img| ==> r[y] == MirrorRow(img[y])
  {
    seq(|img|, y requires 0 <= y < |img| => MirrorRow(img[y]))
  }

  lemma MirrorTwice<T>(img: seq<seq<T>>)
    ensures Mirror(Mirror(img)) == img
  {
    forall y | 0 <= y < |img| ensures Mirror(Mirror(img))[y] == img[y] {
      assert MirrorRow(MirrorRow(img[y])) == img[y];
    }
  }

  lemma MirrorOfCrop<T>(img: seq<seq<T>>, width: nat, height: nat, left: nat, top: nat, size: nat, flipped: nat)
    requires IsImage(img, width, height)
    requires top + size <= height && left + size + flipped == width
    ensures CropImage(Mirror(img), flipped, top, size) == Mirror(CropImage(img, left, top, size))
  {
    var lhs := CropImage(Mirror(img), flipped, top, size);
    var rhs := Mirror(CropImage(img, left, top, size));
    forall y | 0 <= y < size ensures lhs[y] == rhs[y] {
      MirrorOfRow(img[top + y], left, size, flipped);
    }
  }

  lemma MirrorOfRow<T>(row: seq<T>, left: nat, size: nat, flipped: nat)
    requires left + size + flipped == |row|
    ensures MirrorRow(row)[flipped..flipped + size] == MirrorRow(row[left..left + size])
  {
    var part := row[left..left + size];
    var lhs, rhs := MirrorRow(row)[flipped..flipped + size], MirrorRow(part);
    forall x | 0 <= x < size ensures lhs[x] == rhs[x] {
      assert lhs[x] == MirrorRow(row)[flipped + x] == row[|row| - 1 - (flipped + x)];
      assert rhs[x] == part[size - 1 - x] == row[left + (size - 1 - x)];
    }
  }

  /** The flipped training sample (the mirrored crop) is what center-cropping at
      the recorded offset would have taken from the mirrored image, for every
      image size, resolution and pixel content. */
  lemma FlippedOffsetIsRight<T>(fl: real -> real, img: seq<seq<T>>, width: nat, height: nat, resolution: nat)
    requires IsFloat(fl) && resolution <= MAX_RESOLUTION && width > 0 && height > 0
    requires 0 <= Scaled(fl, width, width, height, resolution) && 0 <= Scaled(fl, height, width, height, resolution)
    requires IsImage(img, Scaled(fl, width, width, height, resolution), Scaled(fl, height, width, height, resolution))
    ensures var left := CenterOffset(fl, width, width, height, resolution);
            var top := CenterOffset(fl, height, width, height, resolution);
            var flipped := FlippedLeft(fl, width, height, resolution);
            && 0 <= left && 0 <= top && 0 <= flipped
            && top + resolution <= |img|
            && (forall y :: 0 <= y < |img| ==> left + resolution <= |img[y]|)
            && (forall y :: 0 <= y < |img| ==> flipped + resolution <= |Mirror(img)[y]|)
            && CropImage(Mirror(img), flipped, top, resolution) == Mirror(CropImage(img, left, top, resolution))
  {
    CropsFit(fl, width, height, resolution);
    MirrorOfCrop(img, Scaled(fl, width, width, height, resolution), Scaled(fl, height, width, height, resolution),
                 CenterOffset(fl, width, width, height, resolution),
                 CenterOffset(fl, height, width, height, resolution),
                 resolution,
                 FlippedLeft(fl, width, height, resolution));
  }

  /** No other offset would do: on any image whose first cropped row has no two
      equal pixels, a crop of the mirrored image equals the mirrored crop at the
      recorded offset only. */
  lemma FlippedOffsetIsTheOnlyOne<T>(img: seq<seq<T>>, width: nat, height: nat,
                                     left: nat, top: nat, size: nat, offset: nat)
    requires IsImage(img, width, height) && size > 0
    requires top + size <= height && left + size <= width && offset + size <= width
    requires forall i, j :: 0 <= i < j < width ==> img[top][i] != img[top][j]
    ensures CropImage(Mirror(img), offset, top, size) == Mirror(CropImage(img, left, top, size))
            <==> offset == width - left - size
  {
    if offset == width - left - size {
      MirrorOfCrop(img, width, height, left, top, size, offset);
    } else {
      var lhs := CropImage(Mirror(img), offset, top, size);
      var rhs := Mirror(CropImage(img, left, top, size));
      assert lhs[0] == Mirror(img)[top][offset..offset + size] && Mirror(img)[top] == MirrorRow(img[top]);
      assert lhs[0][0] == MirrorRow(img[top])[offset] == img[top][width - 1 - offset];
      var part := img[top][left..left + size];
      assert rhs[0] == MirrorRow(part);
      assert rhs[0][0] == part[size - 1] == img[top][left + (size - 1)];
    }
  }
}
