/** From the size of an image to its block (scripts/gen_vision_layout_vectors.py, `plan`). */
module VisionPlan {
  import opened Prelude
  import opened VisionLayout

  const PATCH := 14
  const DOWNSAMPLE := 3
  const MAX_WH_RATIO := 8
  const MIN_PIXELS := 147456

  // ---- the sides that are fitted ----

  /** Wider than eight times its height, an image counts as eight times as wide. */
  predicate Capped(height: nat, width: nat, cap: nat) {
    cap == if width > 8 * height then 8 * height else width
  }

  /** `side` scaled by `ratio`, rounded down. */
  predicate ScaledDown(side: nat, ratio: real, scaled: nat) {
    scaled as real <= side as real * ratio < (scaled + 1) as real
  }

  /** An image of `h` by `w` pixels, capped, is fitted as `h'` by `w'`: enlarged to 147456 pixels when it has
      fewer, as it is otherwise. */
  ghost predicate Sides(h: nat, w: nat, ratio: real, h': nat, w': nat) {
    if 0 < w * h < 147456
    then
      && ratio >= 1.0 && ratio * ratio * (w * h) as real == 147456.0
      && ScaledDown(h, ratio, h') && ScaledDown(w, ratio, w')
    else ratio == 1.0 && h' == h && w' == w
  }

  /** Enlarging ends at the least size, up to the rounding, in the image's proportions up to a pixel. */
  lemma EnlargedArea(h: nat, w: nat, ratio: real, h': nat, w': nat)
    requires Sides(h, w, ratio, h', w') && 0 < w * h < 147456
    ensures h <= h' && w <= w'
    ensures h' * w' <= 147456 < (h' + 1) * (w' + 1)
    ensures h' * w < (w' + 1) * h && w' * h < (h' + 1) * w
  {
    BothSides(h, w);
    Grows(h, ratio, h');
    Grows(w, ratio, w');
    ExactArea(h, w, ratio);
    AreaAround(h as real * ratio, w as real * ratio, h', w');
    Proportions(h, w, ratio, h', w');
    Proportions(w, h, ratio, w', h');
  }

  lemma BothSides(h: nat, w: nat)
    requires w * h > 0
    ensures h >= 1 && w >= 1
  {
  }

  lemma Grows(side: nat, ratio: real, scaled: nat)
    requires ratio >= 1.0 && ScaledDown(side, ratio, scaled) && side >= 1
    ensures side as real * ratio > 0.0 && side <= scaled
  {
    MulLe(side as real, side as real, 1.0, ratio);
  }

  lemma ExactArea(h: nat, w: nat, ratio: real)
    requires ratio * ratio * (w * h) as real == 147456.0
    ensures (h as real * ratio) * (w as real * ratio) == 147456.0
  {
    RealProduct(w, h);
    assert (h as real * ratio) * (w as real * ratio) == ratio * ratio * (w as real * h as real);
  }

  lemma AreaAround(x: real, y: real, h': nat, w': nat)
    requires 0.0 < x && 0.0 < y && x * y == 147456.0
    requires h' as real <= x < (h' + 1) as real && w' as real <= y < (w' + 1) as real
    ensures h' * w' <= 147456 < (h' + 1) * (w' + 1)
  {
    MulLe(h' as real, x, w' as real, y);
    RealProduct(h', w');
    Above(x, (h' + 1) as real, y, (w' + 1) as real);
    RealProduct(h' + 1, w' + 1);
  }

  lemma Above(x: real, a: real, y: real, b: real)
    requires 0.0 < x < a && 0.0 < y < b
    ensures x * y < a * b
  {
    MulLt(x, a, y);
    MulLt(y, b, a);
  }

  lemma Proportions(h: nat, w: nat, ratio: real, h': nat, w': nat)
    requires h >= 1 && w >= 1 && ScaledDown(h, ratio, h') && ScaledDown(w, ratio, w')
    ensures h' * w < (w' + 1) * h
  {
    ScaleLe(h' as real, h as real * ratio, w as real);
    MulLt(w as real * ratio, (w' + 1) as real, h as real);
    assert h as real * ratio * w as real == w as real * ratio * h as real;
    RealProduct(h', w);
    RealProduct(w' + 1, h);
  }

  // ---- the plan ----

  ghost predicate RoundedUp(side: nat, best: int) {
    best % 14 == 0 && side <= best < side + 14
  }

  /** The image's own sides in whole patches, and their grid. */
  ghost predicate OwnGrid(h: nat, w: nat, own: Fit) {
    RoundedUp(h, own.bestH) && RoundedUp(w, own.bestW) && GridIs(own, 14, 3)
  }

  /** Sides of `h` by `w` pixels keep their own grid if it costs at most 381 tokens, and otherwise get the
      first solve, from a budget of 381 down, that does. */
  ghost predicate Planned(h: nat, w: nat, fit: Fit) {
    forall own :: OwnGrid(h, w, own) ==>
      if own.grid.tokens <= 381 then fit == own else FirstWithin(h, w, 14, 3, 381, 381, fit)
  }

  lemma RoundUpIs(side: nat, best: int)
    requires RoundedUp(side, best)
    ensures best == WholePatches(side, 14)
  {
    QuotientIs(side + 13, best / 14, 14);
  }

  lemma CeilIs(x: int, q: int, down: int)
    requires down >= 1 && (q - 1) * down < x <= q * down
    ensures CeilDiv(x, down) == q
  {
    assert (q - 1) * down == q * down - down;
    QuotientIs(x + down - 1, q, down);
  }

  /** A grid is determined by its sides. */
  lemma GridOfSides(fit: Fit)
    requires GridIs(fit, 14, 3) && fit.bestH % 14 == 0 && fit.bestW % 14 == 0
    ensures fit.grid == GridTokens(fit.bestH, fit.bestW, 14, 3)
  {
    CeilIs(fit.bestH / 14, fit.grid.h, 3);
    CeilIs(fit.bestW / 14, fit.grid.w, 3);
  }

  lemma SafeFitPlans(sqrt: real -> real, h: nat, w: nat)
    requires IsSqrt(sqrt)
    ensures var fit := SafeFit(sqrt, h, w, WholePatches(h, 14), WholePatches(w, 14), 14, 3, 384);
            fit.Some? ==> Planned(h, w, fit.value)
  {
    var fit := SafeFit(sqrt, h, w, WholePatches(h, 14), WholePatches(w, 14), 14, 3, 384);
    if fit.Some? {
      forall own | OwnGrid(h, w, own)
        ensures if own.grid.tokens <= 381 then fit.value == own else FirstWithin(h, w, 14, 3, 381, 381, fit.value)
      {
        RoundUpIs(h, own.bestH);
        RoundUpIs(w, own.bestW);
        GridOfSides(own);
        if own.grid.tokens > 381 {
          RetryIs(sqrt, h, w, 14, 3, 381, 381);
        }
      }
    }
  }

  /** There is an own grid. */
  lemma OwnGridExists(h: nat, w: nat) returns (own: Fit)
    ensures OwnGrid(h, w, own)
  {
    var (ph, pw) := (CeilDiv(h, 14), CeilDiv(w, 14));
    own := FitOf(ph, pw, 14, 3);
    RoundsUp(h, ph);
    RoundsUp(w, pw);
    FitIs(ph, pw, 14, 3);
  }

  lemma RoundsUp(side: nat, q: int)
    requires q == CeilDiv(side, 14)
    ensures RoundedUp(side, q * 14)
  {
  }

  method Enlarge(sqrt: real -> real, height: nat, width: nat) returns (height': nat, width': nat, ghost r: real)
    requires IsSqrt(sqrt) && 0 < width * height < MIN_PIXELS
    ensures Sides(height, width, r, height', width') && height' >= height && width' >= width
  {
    var ratio := sqrt(MIN_PIXELS as real / (width * height) as real);
    RatioIs(sqrt, width * height);
    EnlargedSide(width, ratio);
    EnlargedSide(height, ratio);
    width', height' := (width as real * ratio).Floor, (height as real * ratio).Floor;
    r := ratio;
  }

  /** `plan`: cap the aspect ratio, enlarge small images, round up to patches, fit; and whether the image is
      stretched rather than padded. */
  method Plan(sqrt: real -> real, height0: nat, width0: nat)
    returns (fit: Option<Fit>, plain: bool, ghost cap: nat, ghost ratio: real, ghost height': nat, ghost width': nat)
    requires IsSqrt(sqrt)
    ensures height0 >= 1 && width0 >= 1 ==> fit.Some? && NonEmpty(fit.value.grid)
    ensures Capped(height0, width0, cap) && Sides(height0, cap, ratio, height', width')
    ensures fit.Some? ==> Planned(height', width', fit.value)
    ensures fit.Some? ==> fit.value.grid == GridTokens(fit.value.bestH, fit.value.bestW, PATCH, DOWNSAMPLE)
    ensures fit.Some? ==> fit.value.grid.tokens <= 381
    ensures plain <==> width0 >= 8 * height0
  {
    var height, width := height0, width0;
    if width > height * MAX_WH_RATIO {
      width := height * MAX_WH_RATIO;
    }
    cap := width;
    ratio := 1.0;
    if 0 < width * height < MIN_PIXELS {
      height, width, ratio := Enlarge(sqrt, height, width);
    }
    height', width' := height, width;
    var bestW := WholePatches(width, PATCH);
    var bestH := WholePatches(height, PATCH);
    if height >= 1 && width >= 1 {
      OwnCells(height, PATCH, DOWNSAMPLE);
      OwnCells(width, PATCH, DOWNSAMPLE);
    }
    ghost var solves;
    fit, solves := SafeResize(sqrt, height, width, bestH, bestW, PATCH, DOWNSAMPLE, MAX_N_TOKEN);
    SafeFitPlans(sqrt, height, width);
    plain := width0 >= MAX_WH_RATIO * height0;
  }

  lemma SqrtAboveOne(sqrt: real -> real, x: real)
    requires IsSqrt(sqrt) && x >= 1.0
    ensures sqrt(x) >= 1.0
  {
    var s := sqrt(x);
    assert s >= 0.0 && s * s == x;
    if s < 1.0 {
      SquareLess(s, 1.0);
    }
  }

  lemma RatioIs(sqrt: real -> real, pixels: nat)
    requires IsSqrt(sqrt) && 0 < pixels < MIN_PIXELS
    ensures var ratio := sqrt(MIN_PIXELS as real / pixels as real);
            ratio >= 1.0 && ratio * ratio * pixels as real == MIN_PIXELS as real
  {
    var x := MIN_PIXELS as real / pixels as real;
    assert x * pixels as real == MIN_PIXELS as real;
    if x < 1.0 {
      MulLt(x, 1.0, pixels as real);
    }
    SqrtAboveOne(sqrt, x);
  }

  lemma EnlargedSide(side: nat, ratio: real)
    requires ratio >= 1.0
    ensures (side as real * ratio).Floor >= side
  {
    MulLe(side as real, side as real, 1.0, ratio);
  }

  /** An image within the aspect cap and of at least 147456 pixels keeps its own sides, rounded up to whole
      patches, when their grid costs at most 381 tokens. */
  lemma KeepsItsSides(height: nat, width: nat, cap: nat, ratio: real, height': nat, width': nat, fit: Fit, own: Fit)
    requires Capped(height, width, cap) && Sides(height, cap, ratio, height', width') && Planned(height', width', fit)
    requires width <= 8 * height && height * width >= 147456 && OwnGrid(height, width, own) && own.grid.tokens <= 381
    ensures fit == own
  {
  }

  /** An image that is not empty always gets a block, that of its planned grid, and wherever it starts the
      block with its compress pads stays within the limit. */
  method PlanBlock(sqrt: real -> real, height: nat, width: nat, startPos: nat)
    returns (out: seq<TokenType>, perm: seq<nat>, ghost fit: Fit, ghost cap: nat, ghost ratio: real,
             ghost height': nat, ghost width': nat)
    requires IsSqrt(sqrt) && height >= 1 && width >= 1
    ensures Capped(height, width, cap) && Sides(height, cap, ratio, height', width') && Planned(height', width', fit)
    ensures fit.grid.h >= 1 && fit.grid.w >= 1 && IsBlock(out, perm, fit.grid.h, fit.grid.w, startPos)
    ensures |out| <= MAX_N_TOKEN
    ensures Distinct(perm) && |perm| >= 1
  {
    var planned, plain;
    planned, plain, cap, ratio, height', width' := Plan(sqrt, height, width);
    fit := planned.value;
    var grid := planned.value.grid;
    IntMulLe(1, grid.h, 1, grid.w);
    out, perm := BuildImageBlock(grid.h, grid.w, startPos);
  }
}
