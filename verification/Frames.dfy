/** The frame and size arithmetic between an i2v request and the pipeline call
    (i2v_ltx.py, config.py): a request is coerced, clamped to its tier's ceiling
    and snapped to what the video model accepts. */
module Frames {
  import opened Common

  const MAX_FRAMES := 257
  const TEMPORAL_STRIDE := 8
  const SPATIAL_MULTIPLE := 32

  function Max(a: int, b: int): int { if a < b then b else a }

  function Min(a: int, b: int): int { if a < b then a else b }

  // --- snapping -----------------------------------------------------------------------------------

  /** A frame count of the form 8k + 1, k >= 0. */
  predicate OnStride(n: int) { n >= 1 && (n - 1) % 8 == 0 }

  /** A positive multiple of 32. */
  predicate OnGrid(px: int) { px >= 32 && px % 32 == 0 }

  /** snap_frames; Dafny's % agrees with Python's for the positive stride. */
  function SnapFrames(n: int, maxFrames: int): int {
    var wanted := Max(1, n);
    var rem := (wanted - 1) % TEMPORAL_STRIDE;
    var snapped := if rem == 0 then wanted else wanted + (TEMPORAL_STRIDE - rem);
    if snapped <= maxFrames then snapped
    else Max(1, maxFrames - (maxFrames - 1) % TEMPORAL_STRIDE)
  }

  /** snap_dim; Dafny's / agrees with Python's // for the positive divisor. */
  function SnapDim(px: int): int {
    Max(SPATIAL_MULTIPLE, px / SPATIAL_MULTIPLE * SPATIAL_MULTIPLE)
  }

  /** What a snapped frame count is, without the arithmetic that finds it: a
      count on the stride, under the ceiling (1 is always allowed), that is either
      enough for the request or as much as the ceiling leaves, and never a whole
      stride more than was asked. */
  predicate IsSnap(r: int, n: int, maxFrames: int) {
    && OnStride(r)
    && r <= Max(1, maxFrames)
    && (n <= r || Max(1, maxFrames) < r + 8)
    && (r == 1 || r - 8 < n)
  }

  /** Counts on the stride are at least a whole stride apart. */
  lemma StrideGap(a: int, b: int)
    requires OnStride(a) && OnStride(b) && a < b
    ensures a + 8 <= b
  {
  }

  lemma RoundUp(n: int)
    requires n >= 1
    ensures var rem := (n - 1) % 8;
      var up := if rem == 0 then n else n + (8 - rem);
      OnStride(up) && n <= up < n + 8
  {
  }

  lemma RoundDown(n: int)
    ensures var down := n - (n - 1) % 8;
      down <= n < down + 8 && (n >= 1 ==> OnStride(down))
  {
  }

  lemma SnapIsSnap(n: int, maxFrames: int)
    ensures IsSnap(SnapFrames(n, maxFrames), n, maxFrames)
  {
    RoundUp(Max(1, n));
    RoundDown(maxFrames);
  }

  lemma SnapIsUnique(r: int, s: int, n: int, maxFrames: int)
    requires IsSnap(r, n, maxFrames) && IsSnap(s, n, maxFrames)
    ensures r == s
  {
    if r < s {
      StrideGap(r, s);
    } else if s < r {
      StrideGap(s, r);
    }
  }

  /** Only one count fits that description, and snap_frames finds it, for every
      request and every ceiling, negative ones included. */
  lemma SnapFramesIff(r: int, n: int, maxFrames: int)
    ensures r == SnapFrames(n, maxFrames) <==> IsSnap(r, n, maxFrames)
  {
    SnapIsSnap(n, maxFrames);
    if IsSnap(r, n, maxFrames) {
      SnapIsUnique(r, SnapFrames(n, maxFrames), n, maxFrames);
    }
  }

  /** Rounding up whenever the ceiling has room: any acceptable count that covers
      the request is at least the snapped one. With no such count, the snapped one
      is the greatest acceptable count. */
  lemma SnapFramesIsLeastElseGreatest(n: int, maxFrames: int, v: int)
    requires OnStride(v) && v <= Max(1, maxFrames)
    ensures n <= v ==> n <= SnapFrames(n, maxFrames) <= v
    ensures SnapFrames(n, maxFrames) < n ==> v <= SnapFrames(n, maxFrames)
  {
  }

  lemma SnapIsMonotone(s: int, n: int, maxFrames: int, t: int, more: int, higher: int)
    requires IsSnap(s, n, maxFrames) && IsSnap(t, more, higher)
    requires n <= more && maxFrames <= higher
    ensures s <= t
  {
    if t < s {
      StrideGap(t, s);
    }
  }

  lemma SnapFramesIsMonotone(n: int, more: int, maxFrames: int, higher: int)
    requires n <= more && maxFrames <= higher
    ensures SnapFrames(n, maxFrames) <= SnapFrames(more, higher)
  {
    var s, t := SnapFrames(n, maxFrames), SnapFrames(more, higher);
    SnapFramesIff(s, n, maxFrames);
    SnapFramesIff(t, more, higher);
    SnapIsMonotone(s, n, maxFrames, t, more, higher);
  }

  /** Snapping a snapped count, under the same or any higher ceiling, keeps it. */
  lemma SnapFramesIsIdempotent(n: int, maxFrames: int, higher: int)
    requires maxFrames <= higher
    ensures SnapFrames(SnapFrames(n, maxFrames), higher) == SnapFrames(n, maxFrames)
  {
    var s := SnapFrames(n, maxFrames);
    SnapFramesIff(s, n, maxFrames);
    SnapFramesIff(s, s, higher);
  }

  /** snap_dim is the greatest grid size not above the request, or 32 when the
      request is under the grid altogether. */
  lemma SnapDimIff(r: int, px: int)
    ensures r == SnapDim(px)
            <==> (OnGrid(r) && px < r + 32 && (r <= px || r == 32))
  {
  }

  // --- the request --------------------------------------------------------------------------------

  datatype Ceiling = Ceiling(width: int, height: int, frames: int)

  /** The three rows of the tier table, as far as shape goes. */
  function TierCeiling(tier: Tier): Ceiling {
    match tier
    case Draft => Ceiling(512, 320, 97)
    case Standard => Ceiling(704, 512, 121)
    case Final => Ceiling(768, 512, 121)
  }

  /** The shape part of a request; None is a missing (or non-numeric) field. */
  datatype Request = Request(width: Option<int>, height: Option<int>, frames: Option<int>)

  datatype Shape = Shape(width: int, height: int, frames: int)

  function CoerceInt(v: Option<int>, default: int): int {
    match v
    case None => default
    case Some(n) => n
  }

  /** min(base, _coerce_int(v, base) or base): zero counts as missing. */
  function ClampSide(v: Option<int>, base: int): int {
    var asked := CoerceInt(v, base);
    Min(base, if asked == 0 then base else asked)
  }

  /** min(max(1, _coerce_int(v, base)), base): zero does not. */
  function ClampFrames(v: Option<int>, base: int): int {
    Min(Max(1, CoerceInt(v, base)), base)
  }

  /** I2VConfig.from_request, its three shape fields. */
  function FromRequest(tier: Tier, request: Request): Shape {
    var base := TierCeiling(tier);
    Shape(ClampSide(request.width, base.width),
          ClampSide(request.height, base.height),
          ClampFrames(request.frames, base.frames))
  }

  /** resolve_engine_dims: the frame snap uses the global ceiling, not the tier's. */
  function ResolveEngineDims(cfg: Shape): Shape {
    Shape(SnapDim(cfg.width), SnapDim(cfg.height), SnapFrames(cfg.frames, MAX_FRAMES))
  }

  function Realized(tier: Tier, request: Request): Shape {
    ResolveEngineDims(FromRequest(tier, request))
  }

  /** Clamping to a tier's ceiling and then snapping under the global one equals
      snapping under the tier's own ceiling, for every request, exactly when the
      tier's ceiling is itself an acceptable count. For any other ceiling the
      request that asks for the ceiling comes out above it. */
  lemma GlobalSnapRespectsCeilingIff(ceiling: int)
    requires 1 <= ceiling <= 257
    ensures (forall n :: SnapFrames(Min(Max(1, n), ceiling), MAX_FRAMES) == SnapFrames(n, ceiling))
            <==> OnStride(ceiling)
  {
    if OnStride(ceiling) {
      forall n ensures SnapFrames(Min(Max(1, n), ceiling), MAX_FRAMES) == SnapFrames(n, ceiling) {
        var s := SnapFrames(Min(Max(1, n), ceiling), MAX_FRAMES);
        SnapFramesIff(s, Min(Max(1, n), ceiling), MAX_FRAMES);
        SnapFramesIsLeastElseGreatest(Min(Max(1, n), ceiling), MAX_FRAMES, ceiling);
        SnapFramesIff(s, n, ceiling);
      }
    } else {
      var s := SnapFrames(Min(Max(1, ceiling), ceiling), MAX_FRAMES);
      SnapFramesIff(s, ceiling, MAX_FRAMES);
      SnapFramesIff(SnapFrames(ceiling, ceiling), ceiling, ceiling);
      assert ceiling < s;
    }
  }

  /** A request can only narrow its tier: whatever it asks for within the tier it gets, more than the tier it does
      not get, no wish is the tier's own value, and fewer than one frame is one. A side of 0 is no wish. */
  lemma RequestsNarrow(tier: Tier, request: Request)
    ensures var c, s := TierCeiling(tier), FromRequest(tier, request);
      && s.width <= c.width && s.height <= c.height && 1 <= s.frames <= c.frames
      && (request.width.Some? && request.width != Some(0) && request.width.value <= c.width ==>
            s.width == request.width.value)
      && (request.height.Some? && request.height != Some(0) && request.height.value <= c.height ==>
            s.height == request.height.value)
      && (request.frames.Some? && 1 <= request.frames.value <= c.frames ==> s.frames == request.frames.value)
      && (request.frames.Some? && request.frames.value < 1 ==> s.frames == 1)
      && (request.width.None? || request.width == Some(0) || c.width < request.width.value ==> s.width == c.width)
      && (request.height.None? || request.height == Some(0) || c.height < request.height.value ==>
            s.height == c.height)
      && (request.frames.None? || c.frames < request.frames.value ==> s.frames == c.frames)
  {
  }

  /** What a request for one side comes to: the tier's own side if there is none (zero counts as none), the
      smallest size if it is under the grid (negative ones included), and otherwise the greatest size on the
      grid that neither the request nor the tier forbids. */
  ghost predicate IsRealizedSide(side: int, v: Option<int>, base: int) {
    && OnGrid(side) && side <= base
    && (v.None? || v == Some(0) ==> side == base)
    && (v.Some? && v.value != 0 && v.value < 32 ==> side == 32)
    && (v.Some? && 32 <= v.value ==>
          side <= v.value && forall g :: OnGrid(g) && g <= base && g <= v.value ==> g <= side)
  }

  lemma RealizedSide(v: Option<int>, base: int)
    requires OnGrid(base)
    ensures IsRealizedSide(SnapDim(ClampSide(v, base)), v, base)
  {
  }

  /** What a request for frames comes to: the tier's own count if there is none, and otherwise the least count on
      the stride that covers the request as far as the tier allows. */
  ghost predicate IsRealizedCount(frames: int, v: Option<int>, ceiling: int) {
    && OnStride(frames) && frames <= ceiling
    && (v.None? ==> frames == ceiling)
    && (v.Some? && v.value <= ceiling ==> v.value <= frames)
    && (v.Some? && ceiling < v.value ==> frames == ceiling)
    && (v.Some? ==> forall n :: OnStride(n) && v.value <= n ==> frames <= n)
  }

  lemma RealizedCount(v: Option<int>, ceiling: int)
    requires OnStride(ceiling) && ceiling <= MAX_FRAMES
    ensures IsRealizedCount(SnapFrames(ClampFrames(v, ceiling), MAX_FRAMES), v, ceiling)
  {
    var clamped := ClampFrames(v, ceiling);
    var s := SnapFrames(clamped, MAX_FRAMES);
    SnapFramesIff(s, clamped, MAX_FRAMES);
    SnapFramesIsLeastElseGreatest(clamped, MAX_FRAMES, ceiling);
    if v.Some? {
      forall n | OnStride(n) && v.value <= n
        ensures s <= n
      {
        if n <= ceiling {
          SnapFramesIsLeastElseGreatest(clamped, MAX_FRAMES, n);
        }
      }
    }
  }

  lemma TiersAreAcceptable(tier: Tier)
    ensures var c := TierCeiling(tier);
            OnGrid(c.width) && OnGrid(c.height) && OnStride(c.frames) && c.frames <= MAX_FRAMES
  {
  }

  /** Every request, with any integers or none, is realized as a shape the model accepts and the tier allows: each
      side and the frame count are what that field of the request comes to. The count is the one snap_frames would
      give under the tier's own ceiling. */
  lemma RealizedShapeFits(tier: Tier, request: Request)
    ensures var c := TierCeiling(tier);
            var s := Realized(tier, request);
            && IsRealizedSide(s.width, request.width, c.width)
            && IsRealizedSide(s.height, request.height, c.height)
            && IsRealizedCount(s.frames, request.frames, c.frames)
            && s.frames == SnapFrames(if request.frames.Some? then request.frames.value else c.frames, c.frames)
  {
    var c := TierCeiling(tier);
    TiersAreAcceptable(tier);
    RealizedSide(request.width, c.width);
    RealizedSide(request.height, c.height);
    RealizedCount(request.frames, c.frames);
    GlobalSnapRespectsCeilingIff(c.frames);
    var asked := CoerceInt(request.frames, c.frames);
    assert SnapFrames(Min(Max(1, asked), c.frames), MAX_FRAMES) == SnapFrames(asked, c.frames);
  }

  /** Without any wishes each tier gives its own shape. */
  lemma TierShapes()
    ensures Realized(Draft, Request(None, None, None)) == Shape(512, 320, 97)
    ensures Realized(Standard, Request(None, None, None)) == Shape(704, 512, 121)
    ensures Realized(Final, Request(None, None, None)) == Shape(768, 512, 121)
  {
  }

  /** Asking for exactly what was realized realizes it again. */
  lemma RealizedShapeIsAFixedPoint(tier: Tier, request: Request)
    ensures var s := Realized(tier, request);
            Realized(tier, Request(Some(s.width), Some(s.height), Some(s.frames))) == s
  {
    var s := Realized(tier, request);
    RealizedShapeFits(tier, request);
    SnapDimIff(s.width, s.width);
    SnapDimIff(s.height, s.height);
    SnapFramesIff(s.frames, s.frames, MAX_FRAMES);
  }
}
