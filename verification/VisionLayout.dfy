/** Token layout of one image (scripts/gen_vision_layout_vectors.py): fitting the grid into a token
    budget, and the column-interleaved block of token types. */
module VisionLayout {
  import opened Prelude

  datatype TokenType = ImageStart | ImagePad | Image | ImageNewLine | ImageEnd

  const COMPRESS_PAD_TO := 4
  const MAX_N_TOKEN := 384

  /** `math.ceil(a / b)`. */
  function CeilDiv(a: int, b: int): (q: int)
    requires b >= 1
  {
    (a + b - 1) / b
  }

  datatype Grid = Grid(h: int, w: int, tokens: int)

  function GridTokens(bestH: int, bestW: int, patch: int, down: int): Grid
    requires patch >= 1 && down >= 1
  {
    var h := CeilDiv(bestH / patch, down);
    var w := CeilDiv(bestW / patch, down);
    Grid(h, w, CountTokens(h, w))
  }

  /** Rows of `w` images and a newline, a pad row when the rows are odd, two pads when the pairs
      of rows do not fill a multiple of four, start and end. */
  function CountTokens(h: int, w: int): int {
    h * (w + 1) + 2 + (if h % 2 == 1 then w + 1 else 0) + (h + 1) / 2 * (w + 1) % 2 * 2
  }

  datatype Fit = Fit(grid: Grid, bestH: int, bestW: int)

  ghost predicate IsSqrt(sqrt: real -> real) {
    forall x: real :: x >= 0.0 ==> sqrt(x) >= 0.0 && sqrt(x) * sqrt(x) == x
  }

  function EvenBelow(x: int): int {
    if x % 2 == 1 then x - 1 else x
  }

  /** Cells of the fitted grid: exactly so many, or the image scaled to stay within them. */
  datatype Choice = Exactly(h: int, w: int) | Within(h: int, w: int)

  /** The branches of `solve_resize_ratio`. `None` is an exception of the source: an empty image, a
      negative square root, or the failed `assert max_w > 1`. */
  function Choose(sqrt: real -> real, height: nat, width: nat, budget: int): Option<Choice> {
    if height == 0 || width == 0 then None else
      var r := height as real / width as real;
      var square := (budget - 2) as real / r + 0.25;
      if square < 0.0 then None else
        var maxW := sqrt(square) - 0.5;
        ChooseFrom(maxW, HeightOf(maxW, r), budget)
  }

  function HeightOf(maxW: real, r: real): real {
    maxW * r
  }

  function ChooseFrom(maxW: real, maxH: real, budget: int): Option<Choice> {
    if maxW < 1.0 then
      Some(Exactly(EvenBelow((budget - 2) / 2), 1))
    else if maxH < 2.0 then
      var w := (budget - 2) / 2 - 1;
      if w > 1 then Some(Exactly(2, w)) else None
    else
      Some(Within(EvenBelow(maxH.Floor), maxW.Floor))
  }

  /** Height and width in whole patches: both sides scaled by the smaller of the two ratios. */
  function Scale(height: nat, width: nat, patch: nat, down: nat, h: int, w: int): (int, int)
    requires patch >= 1 && height >= 1 && width >= 1
  {
    var a := Ratio(w, patch, down, width);
    var b := Ratio(h, patch, down, height);
    var beta := if a <= b then a else b;
    (ScaledPatches(height, beta, patch), ScaledPatches(width, beta, patch))
  }

  function Ratio(cells: int, patch: nat, down: nat, side: nat): real
    requires side >= 1
  {
    (cells * patch * down) as real / side as real
  }

  function ScaledPatches(side: nat, beta: real, patch: nat): int
    requires patch >= 1
  {
    PatchesReal(side as real, beta, patch as real).Floor
  }

  function PatchesReal(side: real, beta: real, patch: real): real
    requires patch > 0.0
  {
    side * beta / patch
  }

  function SolveResizeRatio(sqrt: real -> real, height: nat, width: nat, patch: nat, down: nat,
                            budget: int): Option<Fit>
    requires patch >= 1 && down >= 1
  {
    match Choose(sqrt, height, width, budget)
    case None => None
    case Some(c) => Some(Realize(c, height, width, patch, down))
  }

  function Realize(c: Choice, height: nat, width: nat, patch: nat, down: nat): Fit
    requires patch >= 1 && down >= 1 && height >= 1 && width >= 1
  {
    match c
    case Exactly(h, w) => FitOf(h * down, w * down, patch, down)
    case Within(h, w) =>
      var (ph, pw) := Scale(height, width, patch, down, h, w);
      FitOf(ph, pw, patch, down)
  }

  function FitOf(ph: int, pw: int, patch: nat, down: nat): Fit
    requires patch >= 1 && down >= 1
  {
    Fit(GridTokens(ph * patch, pw * patch, patch, down), ph * patch, pw * patch)
  }

  // ---- arithmetic of one fit ----

  lemma MulLe(a: real, b: real, c: real, d: real)
    requires 0.0 <= a <= b && 0.0 <= c <= d
    ensures a * c <= b * d
  {
    assert a * c <= b * c;
    assert b * c <= b * d;
  }

  lemma IntMulLe(a: int, b: int, c: int, d: int)
    requires 0 <= a <= b && 0 <= c <= d
    ensures a * c <= b * d
  {
    assert a * c <= b * c;
    assert b * c <= b * d;
  }

  /** The multiple of `down` found by a division is the only one that close. */
  lemma QuotientIs(x: int, q: int, down: int)
    requires down >= 1 && q * down <= x < q * down + down
    ensures x / down == q
  {
    var d := x / down - q;
    assert d * down == x / down * down - q * down;
    assert -d * down == -(d * down);
    if d >= 1 {
      IntMulLe(1, d, down, down);
    } else if d <= -1 {
      IntMulLe(1, -d, down, down);
    }
  }

  lemma PatchesBack(k: int, patch: int)
    requires patch >= 1
    ensures k * patch / patch == k
  {
    QuotientIs(k * patch, k, patch);
  }

  lemma CeilDivExact(k: int, down: int)
    requires down >= 1
    ensures CeilDiv(k * down, down) == k
  {
    QuotientIs(k * down + down - 1, k, down);
  }

  lemma CeilDivGrows(a: int, b: int, down: int)
    requires down >= 1 && a <= b
    ensures CeilDiv(a, down) <= CeilDiv(b, down)
  {
    var d := CeilDiv(a, down) - CeilDiv(b, down);
    assert d * down == CeilDiv(a, down) * down - CeilDiv(b, down) * down;
    if d >= 1 {
      IntMulLe(1, d, down, down);
    }
  }

  /** Whole cells: at most `k * down` patches make at most `k` cells. */
  lemma CeilDivBound(x: int, k: int, down: int)
    requires down >= 1 && x <= k * down
    ensures CeilDiv(x, down) <= k
  {
    CeilDivGrows(x, k * down, down);
    CeilDivExact(k, down);
  }

  /** Cells up to an even `h` and `w` cost at most `h * (w + 1) + 4` tokens. */
  lemma TokensBound(x: int, y: int, h: int, w: int)
    requires 0 <= x <= h && 0 <= y <= w && h % 2 == 0
    ensures CountTokens(x, y) <= h * (w + 1) + 4
  {
    var e := if x % 2 == 1 then x + 1 else x;
    assert e <= h;
    assert (x + 1) * (y + 1) == x * (y + 1) + (y + 1);
    IntMulLe(e, h, y + 1, w + 1);
  }

  // ---- each branch stays within the budget, plus two ----

  lemma ExactFit(h: int, w: int, patch: nat, down: nat)
    requires patch >= 1 && down >= 1
    ensures FitOf(h * down, w * down, patch, down).grid == Grid(h, w, CountTokens(h, w))
  {
    PatchesBack(h * down, patch);
    PatchesBack(w * down, patch);
    CeilDivExact(h, down);
    CeilDivExact(w, down);
  }

  /** `beta` makes neither side longer than its own bound. */
  lemma ScaledSide(side: nat, cells: int, patch: nat, down: nat, beta: real)
    requires side >= 1 && patch >= 1 && down >= 1 && cells >= 0
    requires 0.0 <= beta <= Ratio(cells, patch, down, side)
    ensures 0 <= ScaledPatches(side, beta, patch) <= cells * down
  {
    var (s, p) := (side as real, patch as real);
    var total := (cells * patch * down) as real;
    assert s * beta <= total by {
      MulLe(s, s, beta, total / s);
      DivTimes(total, s);
    }
    assert total == (cells * down) as real * p by {
      assert cells * patch * down == cells * down * patch;
    }
    DivLe(s * beta, (cells * down) as real, p);
  }

  lemma MulLt(a: real, b: real, p: real)
    requires a < b && p > 0.0
    ensures a * p < b * p
  {
  }

  lemma DivLe(x: real, y: real, p: real)
    requires p > 0.0 && 0.0 <= x <= y * p
    ensures 0.0 <= x / p <= y
  {
    assert (x / p) * p == x;
    if x / p > y {
      MulLt(y, x / p, p);
    }
  }

  lemma ScaleBound(height: nat, width: nat, patch: nat, down: nat, h: int, w: int)
    requires height >= 1 && width >= 1 && patch >= 1 && down >= 1 && h >= 0 && w >= 0
    ensures var (ph, pw) := Scale(height, width, patch, down, h, w);
            0 <= ph <= h * down && 0 <= pw <= w * down
  {
    var a := Ratio(w, patch, down, width);
    var b := Ratio(h, patch, down, height);
    var beta := if a <= b then a else b;
    assert w * patch * down >= 0 && h * patch * down >= 0;
    ScaledSide(height, h, patch, down, beta);
    ScaledSide(width, w, patch, down, beta);
  }

  /** `w^2 + w = (budget - 2) / r` makes `r w (w + 1) = budget - 2`. */
  lemma Area(root: real, r: real, budget: int)
    requires r > 0.0 && root * root == (budget - 2) as real / r + 0.25
    ensures (root - 0.5) * r * (root - 0.5 + 1.0) == (budget - 2) as real
  {
    var maxW := root - 0.5;
    assert maxW * (maxW + 1.0) == root * root - 0.25;
    assert maxW * r * (maxW + 1.0) == r * (maxW * (maxW + 1.0));
    assert r * ((budget - 2) as real / r) == (budget - 2) as real;
  }

  lemma CellsBound(x: int, k: int, down: int)
    requires down >= 1 && 0 <= x <= k * down
    ensures 0 <= CeilDiv(x, down) <= k
  {
    CeilDivBound(x, k, down);
  }

  lemma ScaledFit(ph: int, pw: int, h: int, w: int, patch: nat, down: nat)
    requires patch >= 1 && down >= 1 && 0 <= ph <= h * down && 0 <= pw <= w * down && h % 2 == 0
    ensures FitOf(ph, pw, patch, down).grid.tokens <= h * (w + 1) + 4
  {
    PatchesBack(ph, patch);
    PatchesBack(pw, patch);
    CellsBound(ph, h, down);
    CellsBound(pw, w, down);
    TokensBound(CeilDiv(ph, down), CeilDiv(pw, down), h, w);
  }

  /** What a choice costs. */
  ghost predicate Affordable(c: Choice, budget: int) {
    match c
    case Exactly(h, w) => CountTokens(h, w) <= budget + 2
    case Within(h, w) => 0 <= h && 0 <= w && h % 2 == 0 && h * (w + 1) <= budget - 2
  }

  lemma ColumnAffordable(budget: int)
    ensures Affordable(Exactly(EvenBelow((budget - 2) / 2), 1), budget)
  {
  }

  lemma PairAffordable(budget: int)
    ensures Affordable(Exactly(2, (budget - 2) / 2 - 1), budget)
  {
  }

  lemma RealProduct(a: int, b: int)
    ensures a as real * b as real == (a * b) as real
  {
  }

  lemma CellsAffordable(h: int, w: int, maxW: real, maxH: real, bound: real)
    requires 0 <= h && 0 <= w && h as real <= maxH && (w + 1) as real <= maxW + 1.0 && maxH * (maxW + 1.0) <= bound
    ensures (h * (w + 1)) as real <= bound
  {
    MulLe(h as real, maxH, (w + 1) as real, maxW + 1.0);
    RealProduct(h, w + 1);
  }

  lemma ChoiceAffordable(maxW: real, maxH: real, budget: int)
    requires maxW >= 1.0 && maxH >= 2.0 ==> maxH * (maxW + 1.0) <= (budget - 2) as real
    ensures var c := ChooseFrom(maxW, maxH, budget); c.Some? ==> Affordable(c.value, budget)
  {
    if maxW < 1.0 {
      ColumnAffordable(budget);
    } else if maxH < 2.0 {
      PairAffordable(budget);
    } else {
      CellsAffordable(EvenBelow(maxH.Floor), maxW.Floor, maxW, maxH, (budget - 2) as real);
    }
  }

  lemma ChooseBySides(sqrt: real -> real, height: nat, width: nat, budget: int) returns (maxW: real, maxH: real)
    requires IsSqrt(sqrt) && Choose(sqrt, height, width, budget).Some?
    ensures Choose(sqrt, height, width, budget) == ChooseFrom(maxW, maxH, budget)
    ensures maxH * (maxW + 1.0) == (budget - 2) as real
    ensures maxH * width as real == maxW * height as real && 2.0 * maxW >= -1.0
  {
    var r := height as real / width as real;
    assert r * width as real == height as real;
    var root := sqrt((budget - 2) as real / r + 0.25);
    maxW := root - 0.5;
    maxH := HeightOf(maxW, r);
    assert maxH * width as real == maxW * (r * width as real);
    Area(root, r, budget);
  }

  lemma ChooseAffordable(sqrt: real -> real, height: nat, width: nat, budget: int, c: Choice)
    requires IsSqrt(sqrt) && Choose(sqrt, height, width, budget) == Some(c)
    ensures Affordable(c, budget)
  {
    var maxW, maxH := ChooseBySides(sqrt, height, width, budget);
    ChoiceAffordable(maxW, maxH, budget);
  }

  lemma RealizeWithinTwo(c: Choice, height: nat, width: nat, patch: nat, down: nat, budget: int)
    requires patch >= 1 && down >= 1 && height >= 1 && width >= 1 && Affordable(c, budget)
    ensures Realize(c, height, width, patch, down).grid.tokens <= budget + 2
  {
    match c
    case Exactly(h, w) => ExactFit(h, w, patch, down);
    case Within(h, w) =>
      var (ph, pw) := Scale(height, width, patch, down, h, w);
      ScaleBound(height, width, patch, down, h, w);
      ScaledFit(ph, pw, h, w, patch, down);
  }

  /** In all three branches the fitted grid costs at most two tokens more than asked for. */
  lemma SolveWithinTwo(sqrt: real -> real, height: nat, width: nat, patch: nat, down: nat, budget: int)
    requires IsSqrt(sqrt) && patch >= 1 && down >= 1
    ensures var fit := SolveResizeRatio(sqrt, height, width, patch, down, budget);
            fit.Some? ==> fit.value.grid.tokens <= budget + 2
  {
    var c := Choose(sqrt, height, width, budget);
    if c.Some? {
      ChooseAffordable(sqrt, height, width, budget, c.value);
      RealizeWithinTwo(c.value, height, width, patch, down, budget);
    }
  }

  // ---- what a solve is, in terms of the image ----

  /** `maxW` by `maxH` cells, newlines included, fill the budget in the image's own proportions. */
  ghost predicate Inscribed(height: nat, width: nat, budget: int, maxW: real, maxH: real) {
    && 2.0 * maxW >= -1.0 && maxH * width as real == maxW * height as real
    && maxH * (maxW + 1.0) == (budget - 2) as real
  }

  /** `best` is the longest multiple of `patch` within the side scaled by `beta`. */
  ghost predicate SideIs(best: int, side: nat, beta: real, patch: nat)
    requires patch >= 1
  {
    best % patch == 0 && best as real <= side as real * beta < (best + patch) as real
  }

  /** `beta` is the largest factor that keeps both sides within `rows` by `cols` cells. */
  ghost predicate LargestFactor(height: nat, width: nat, patch: nat, down: nat, rows: int, cols: int, beta: real) {
    var (h, w) := ((rows * patch * down) as real, (cols * patch * down) as real);
    && height as real * beta <= h && width as real * beta <= w
    && (height as real * beta == h || width as real * beta == w)
  }

  ghost predicate ColumnOf(rows: int, patch: nat, down: nat, budget: int, fit: Fit) {
    && rows % 2 == 0 && 2 * rows <= budget - 2 < 2 * rows + 4
    && fit.bestH == rows * down * patch && fit.bestW == down * patch
  }

  ghost predicate PairOf(cols: int, patch: nat, down: nat, budget: int, fit: Fit) {
    && cols > 1 && 2 * cols + 2 <= budget - 2 < 2 * cols + 4
    && fit.bestH == 2 * down * patch && fit.bestW == cols * down * patch
  }

  ghost predicate ScaledTo(height: nat, width: nat, patch: nat, down: nat, maxW: real, maxH: real, rows: int, cols: int,
                           beta: real, fit: Fit)
    requires patch >= 1
  {
    && rows % 2 == 0 && rows as real <= maxH < (rows + 2) as real && cols as real <= maxW < (cols + 1) as real
    && LargestFactor(height, width, patch, down, rows, cols, beta)
    && SideIs(fit.bestH, height, beta, patch) && SideIs(fit.bestW, width, beta, patch)
  }

  /** The grid covers the sides cell by cell. */
  ghost predicate GridIs(fit: Fit, patch: nat, down: nat) {
    && (fit.grid.h - 1) * (down * patch) < fit.bestH <= fit.grid.h * (down * patch)
    && (fit.grid.w - 1) * (down * patch) < fit.bestW <= fit.grid.w * (down * patch)
    && fit.grid.tokens == CountTokens(fit.grid.h, fit.grid.w)
  }

  /** A solve for a budget: one column, two rows, or the image scaled into an even number of rows. */
  ghost predicate SolvedBy(height: nat, width: nat, patch: nat, down: nat, budget: int, maxW: real, maxH: real,
                           fit: Fit)
    requires patch >= 1
  {
    && Inscribed(height, width, budget, maxW, maxH) && GridIs(fit, patch, down)
    && if maxW < 1.0 then exists rows :: ColumnOf(rows, patch, down, budget, fit)
       else if maxH < 2.0 then exists cols :: PairOf(cols, patch, down, budget, fit)
       else exists rows, cols, beta :: ScaledTo(height, width, patch, down, maxW, maxH, rows, cols, beta, fit)
  }

  ghost predicate IsSolve(height: nat, width: nat, patch: nat, down: nat, budget: int, fit: Fit)
    requires patch >= 1
  {
    exists maxW, maxH :: SolvedBy(height, width, patch, down, budget, maxW, maxH, fit)
  }

  lemma CellsAround(x: int, down: int)
    requires down >= 1
    ensures (CeilDiv(x, down) - 1) * down < x <= CeilDiv(x, down) * down
  {
    var q := CeilDiv(x, down);
    assert (q - 1) * down == q * down - down;
  }

  lemma TimesPatch(a: int, b: int, patch: nat)
    requires patch >= 1
    ensures a < b ==> a * patch < b * patch
    ensures a <= b ==> a * patch <= b * patch
  {
    if a < b {
      MulStrict(a, b, patch);
    }
  }

  lemma FitIs(ph: int, pw: int, patch: nat, down: nat)
    requires patch >= 1 && down >= 1
    ensures GridIs(FitOf(ph, pw, patch, down), patch, down)
  {
    CellsTimes(ph, patch, down);
    CellsTimes(pw, patch, down);
  }

  lemma CellsTimes(x: int, patch: nat, down: nat)
    requires patch >= 1 && down >= 1
    ensures var q := CeilDiv(x * patch / patch, down); (q - 1) * (down * patch) < x * patch <= q * (down * patch)
  {
    var q := CeilDiv(x, down);
    PatchesBack(x, patch);
    CellsAround(x, down);
    TimesPatch((q - 1) * down, x, patch);
    TimesPatch(x, q * down, patch);
    assert (q - 1) * down * patch == (q - 1) * (down * patch) && q * down * patch == q * (down * patch);
  }

  lemma FactorIs(height: nat, width: nat, patch: nat, down: nat, rows: int, cols: int)
    requires height >= 1 && width >= 1
    ensures var a, b := Ratio(cols, patch, down, width), Ratio(rows, patch, down, height);
            LargestFactor(height, width, patch, down, rows, cols, if a <= b then a else b)
  {
    var a, b := Ratio(cols, patch, down, width), Ratio(rows, patch, down, height);
    DivTimes((cols * patch * down) as real, width as real);
    DivTimes((rows * patch * down) as real, height as real);
    if a <= b {
      ScaleLe(a, b, height as real);
    } else {
      ScaleLe(b, a, width as real);
    }
  }

  lemma SideScaled(side: nat, beta: real, patch: nat)
    requires patch >= 1
    ensures SideIs(ScaledPatches(side, beta, patch) * patch, side, beta, patch)
  {
    var n, x := ScaledPatches(side, beta, patch), PatchesReal(side as real, beta, patch as real);
    DivTimes(side as real * beta, patch as real);
    ScaleLe(n as real, x, patch as real);
    MulLt(x, (n + 1) as real, patch as real);
    RealProduct(n, patch);
    RealProduct(n + 1, patch);
    assert (n + 1) * patch == n * patch + patch;
    QuotientIs(n * patch, n, patch);
  }

  lemma EvenRows(budget: int, rows: int)
    requires rows == EvenBelow((budget - 2) / 2)
    ensures rows % 2 == 0 && 2 * rows <= budget - 2 < 2 * rows + 4
  {
  }

  lemma ColumnIs(height: nat, width: nat, patch: nat, down: nat, budget: int, maxW: real, maxH: real)
    requires patch >= 1 && down >= 1 && Inscribed(height, width, budget, maxW, maxH) && maxW < 1.0
    ensures var rows := EvenBelow((budget - 2) / 2);
            SolvedBy(height, width, patch, down, budget, maxW, maxH, FitOf(rows * down, 1 * down, patch, down))
  {
    var rows := EvenBelow((budget - 2) / 2);
    EvenRows(budget, rows);
    FitIs(rows * down, 1 * down, patch, down);
    assert ColumnOf(rows, patch, down, budget, FitOf(rows * down, 1 * down, patch, down));
  }

  lemma PairIs(height: nat, width: nat, patch: nat, down: nat, budget: int, maxW: real, maxH: real)
    requires patch >= 1 && down >= 1 && Inscribed(height, width, budget, maxW, maxH) && maxW >= 1.0 && maxH < 2.0
    requires (budget - 2) / 2 - 1 > 1
    ensures var cols := (budget - 2) / 2 - 1;
            SolvedBy(height, width, patch, down, budget, maxW, maxH, FitOf(2 * down, cols * down, patch, down))
  {
    var cols := (budget - 2) / 2 - 1;
    FitIs(2 * down, cols * down, patch, down);
    assert PairOf(cols, patch, down, budget, FitOf(2 * down, cols * down, patch, down));
  }

  lemma FloorsAround(maxH: real, maxW: real)
    ensures var h, w := EvenBelow(maxH.Floor), maxW.Floor;
            && h % 2 == 0 && h as real <= maxH < (h + 2) as real
            && w as real <= maxW < (w + 1) as real
  {
  }

  lemma WithinIs(height: nat, width: nat, patch: nat, down: nat, budget: int, maxW: real, maxH: real)
    requires patch >= 1 && down >= 1 && height >= 1 && width >= 1
    requires Inscribed(height, width, budget, maxW, maxH) && maxW >= 1.0 && maxH >= 2.0
    ensures var fit := Realize(Within(EvenBelow(maxH.Floor), maxW.Floor), height, width, patch, down);
            SolvedBy(height, width, patch, down, budget, maxW, maxH, fit)
  {
    var h, w := EvenBelow(maxH.Floor), maxW.Floor;
    var (ph, pw) := Scale(height, width, patch, down, h, w);
    FitIs(ph, pw, patch, down);
    FactorIs(height, width, patch, down, h, w);
    FloorsAround(maxH, maxW);
    var a, b := Ratio(w, patch, down, width), Ratio(h, patch, down, height);
    var beta := if a <= b then a else b;
    SideScaled(height, beta, patch);
    SideScaled(width, beta, patch);
    assert ScaledTo(height, width, patch, down, maxW, maxH, h, w, beta, FitOf(ph, pw, patch, down));
  }

  lemma SolveIs(sqrt: real -> real, height: nat, width: nat, patch: nat, down: nat, budget: int)
    requires IsSqrt(sqrt) && patch >= 1 && down >= 1
    ensures var fit := SolveResizeRatio(sqrt, height, width, patch, down, budget);
            fit.Some? ==> IsSolve(height, width, patch, down, budget, fit.value)
  {
    if Choose(sqrt, height, width, budget).Some? {
      var maxW, maxH := ChooseBySides(sqrt, height, width, budget);
      if maxW < 1.0 {
        ColumnIs(height, width, patch, down, budget, maxW, maxH);
      } else if maxH < 2.0 {
        PairIs(height, width, patch, down, budget, maxW, maxH);
      } else {
        WithinIs(height, width, patch, down, budget, maxW, maxH);
      }
    }
  }

  // ---- the fitted grid is not empty ----

  lemma DivTimes(a: real, b: real)
    requires b > 0.0
    ensures a / b * b == a
  {
  }

  lemma Chain(a: real, b: real, c: real, d: real)
    requires a == b && b >= c && c >= d
    ensures a >= d
  {
  }

  /** The scaled side in terms of the products that define it. */
  lemma ScaledSideBound(x: real, q: real, s: real, o: real, p: real, kept: real, want: real, wantOther: real)
    requires s > 0.0 && o > 0.0 && p > 0.0 && kept >= want && q * s == kept * p && x * p == o * q
    requires wantOther * s == want * o && wantOther >= 1.0
    ensures x >= 1.0
  {
    calc {
      (x * s) * p;
      (x * p) * s;
      (o * q) * s;
      o * (q * s);
      (o * kept) * p;
    }
    CancelFactor(x * s, o * kept, p);
    ScaleLe(want, kept, o);
    ScaleLe(1.0, wantOther, s);
    Chain(x * s, o * kept, want * o, s);
    AtLeastOne(x, s);
  }

  lemma ScaledSideReal(s: real, o: real, p: real, kept: real, want: real, wantOther: real)
    requires s > 0.0 && o > 0.0 && p > 0.0 && kept >= want
    requires wantOther * s == want * o && wantOther >= 1.0
    ensures PatchesReal(o, kept * p / s, p) >= 1.0
  {
    var q := kept * p / s;
    DivTimes(kept * p, s);
    DivTimes(o * q, p);
    ScaledSideBound(o * q / p, q, s, o, p, kept, want, wantOther);
  }

  lemma AtLeastOne(x: real, s: real)
    requires s > 0.0 && x * s >= s
    ensures x >= 1.0
  {
    if x < 1.0 {
      MulLt(x, 1.0, s);
    }
  }

  /** A side scaled by the ratio of the other one keeps a whole patch: rounding down leaves at least
      half of the wanted cells, and a cell is two patches or more. */
  lemma ScaledSideLeft(side: nat, other: nat, cells: int, patch: nat, down: nat, want: real, wantOther: real)
    requires side >= 1 && other >= 1 && patch >= 1 && down >= 2 && cells >= 0
    requires wantOther * side as real == want * other as real && wantOther >= 1.0 && cells as real * 2.0 >= want
    ensures ScaledPatches(other, Ratio(cells, patch, down, side), patch) >= 1
  {
    KeptEnough(cells, down, want);
    RatioIs(cells, patch, down, side, cells * down);
    ScaledFrom(side, other, patch, cells * down, Ratio(cells, patch, down, side), want, wantOther);
  }

  lemma ScaledFrom(side: nat, other: nat, patch: nat, kept: int, beta: real, want: real, wantOther: real)
    requires side >= 1 && other >= 1 && patch >= 1 && kept as real >= want
    requires wantOther * side as real == want * other as real && wantOther >= 1.0
    requires beta == kept as real * patch as real / side as real
    ensures ScaledPatches(other, beta, patch) >= 1
  {
    ScaledSideReal(side as real, other as real, patch as real, kept as real, want, wantOther);
    FloorAtLeastOne(PatchesReal(other as real, beta, patch as real));
  }

  lemma KeptEnough(cells: int, down: nat, want: real)
    requires down >= 2 && cells >= 0 && cells as real * 2.0 >= want
    ensures (cells * down) as real >= want
  {
    IntMulLe(cells, cells, 2, down);
    assert cells * 2 <= cells * down;
  }

  lemma RatioIs(cells: int, patch: nat, down: nat, side: nat, kept: int)
    requires side >= 1 && kept == cells * down
    ensures Ratio(cells, patch, down, side) == kept as real * patch as real / side as real
  {
    assert cells * patch * down == kept * patch;
    assert (kept * patch) as real == kept as real * patch as real;
  }

  lemma FloorAtLeastOne(x: real)
    requires x >= 1.0
    ensures x.Floor >= 1
  {
  }

  lemma CancelFactor(a: real, b: real, p: real)
    requires p > 0.0 && a * p == b * p
    ensures a == b
  {
  }

  lemma ScaleLe(a: real, b: real, k: real)
    requires a <= b && k >= 0.0
    ensures a * k <= b * k
  {
  }

  lemma ScaleNonEmpty(height: nat, width: nat, patch: nat, down: nat, h: int, w: int, maxH: real, maxW: real)
    requires height >= 1 && width >= 1 && patch >= 1 && down >= 2
    requires maxW >= 1.0 && maxH >= 2.0 && h == EvenBelow(maxH.Floor) && w == maxW.Floor
    requires maxH * width as real == maxW * height as real
    ensures var (ph, pw) := Scale(height, width, patch, down, h, w); ph >= 1 && pw >= 1
  {
    HalfLeft(maxH, maxW);
    ScaledSideLeft(width, height, w, patch, down, maxW, maxH);
    ScaledSideLeft(width, width, w, patch, down, 1.0, 1.0);
    ScaledSideLeft(height, width, h, patch, down, maxH, maxW);
    ScaledSideLeft(height, height, h, patch, down, 1.0, 1.0);
  }

  lemma HalfLeft(maxH: real, maxW: real)
    requires maxW >= 1.0 && maxH >= 2.0
    ensures EvenBelow(maxH.Floor) as real * 2.0 >= maxH && EvenBelow(maxH.Floor) >= 2
    ensures maxW.Floor as real * 2.0 >= maxW && maxW.Floor >= 1
  {
  }

  ghost predicate NonEmpty(g: Grid) {
    g.h >= 1 && g.w >= 1
  }

  lemma CellsLeft(ph: int, pw: int, patch: nat, down: nat)
    requires ph >= 1 && pw >= 1 && patch >= 1 && down >= 1
    ensures NonEmpty(FitOf(ph, pw, patch, down).grid)
  {
    PatchesBack(ph, patch);
    PatchesBack(pw, patch);
    CeilDivGrows(1, ph, down);
    CeilDivGrows(1, pw, down);
    QuotientIs(down, 1, down);
  }

  // ---- without downsampling a narrow image can lose its only column ----

  /** Rows and columns kept by a side's own ratio. */
  lemma OwnSideLeft(side: nat, cells: int, patch: nat)
    requires side >= 1 && patch >= 1 && cells >= 1
    ensures ScaledPatches(side, Ratio(cells, patch, 1, side), patch) >= 1
  {
    RatioIs(cells, patch, 1, side, cells);
    ScaledFrom(side, side, patch, cells, Ratio(cells, patch, 1, side), 1.0, 1.0);
  }

  /** The other side's ratio keeps a cell exactly when `side <= cells * other`. */
  lemma OtherSideLeft(side: nat, other: nat, cells: int, patch: nat)
    requires side >= 1 && other >= 1 && patch >= 1 && side <= cells * other
    ensures ScaledPatches(other, Ratio(cells, patch, 1, side), patch) >= 1
  {
    var want, wantOther := cells as real, cells as real * other as real / side as real;
    assert wantOther * side as real == want * other as real;
    RealProduct(cells, other);
    if wantOther < 1.0 {
      MulLt(wantOther, 1.0, side as real);
    }
    RatioIs(cells, patch, 1, side, cells);
    ScaledFrom(side, other, patch, cells, Ratio(cells, patch, 1, side), want, wantOther);
  }

  lemma OtherSideLost(side: nat, other: nat, cells: int, patch: nat, beta: real)
    requires side >= 1 && other >= 1 && patch >= 1 && 0 <= cells * other < side
    requires beta <= Ratio(cells, patch, 1, side)
    ensures ScaledPatches(other, beta, patch) < 1
  {
    var (s, o, p, c) := (side as real, other as real, patch as real, cells as real);
    RatioIs(cells, patch, 1, side, cells);
    RealProduct(cells, other);
    var ratio := c * p / s;
    ScaleLe(beta, ratio, o);
    assert o * ratio * s == c * o * p by {
      DivTimes(c * p, s);
    }
    MulLt(c * o, s, p);
    BelowOne(o, beta, ratio, p, s);
  }

  lemma BelowOne(o: real, beta: real, ratio: real, p: real, s: real)
    requires p > 0.0 && s > 0.0 && beta * o <= ratio * o && o * ratio * s < s * p
    ensures PatchesReal(o, beta, p) < 1.0
  {
    if PatchesReal(o, beta, p) >= 1.0 {
      DivTimes(o * beta, p);
      ScaleLe(1.0, PatchesReal(o, beta, p), p);
      ScaleLe(p, o * ratio, s);
      assert false;
    }
  }

  /** One row of cells per `h`, one column per `w`: the rows always survive, the columns exactly when the
      image is no taller than `h` times its width. */
  lemma ScaleOneIff(height: nat, width: nat, patch: nat, h: int, w: int, maxH: real, maxW: real)
    requires height >= 1 && width >= 1 && patch >= 1
    requires maxW >= 1.0 && maxH >= 2.0 && h == EvenBelow(maxH.Floor) && w == maxW.Floor
    requires maxH * width as real == maxW * height as real
    ensures var (ph, pw) := Scale(height, width, patch, 1, h, w); ph >= 1 && (pw >= 1 <==> height <= h * width)
  {
    HalfLeft(maxH, maxW);
    OwnSideLeft(height, h, patch);
    OwnSideLeft(width, w, patch);
    WideEnough(height, width, w, maxH, maxW);
    OtherSideLeft(width, height, w, patch);
    if height <= h * width {
      OtherSideLeft(height, width, h, patch);
    } else {
      assert h * width >= 0;
      var a, b := Ratio(w, patch, 1, width), Ratio(h, patch, 1, height);
      OtherSideLost(height, width, h, patch, if a <= b then a else b);
    }
  }

  lemma WideEnough(height: nat, width: nat, w: int, maxH: real, maxW: real)
    requires height >= 1 && width >= 1 && maxW >= 1.0 && maxH >= 2.0 && w as real * 2.0 >= maxW
    requires maxH * width as real == maxW * height as real
    ensures width <= w * height
  {
    RealProduct(w, height);
    ScaleLe(2.0, maxH, width as real);
    ScaleLe(maxW, w as real * 2.0, height as real);
    assert w as real * 2.0 * height as real == 2.0 * (w as real * height as real);
  }

  // ---- retrying until the grid fits ----

  /** The fitted grid keeps a cell: always with downsampling, without it exactly when the image is no
      taller than the rows it is given times its width. */
  predicate KeepsCell(c: Choice, height: nat, width: nat, down: nat) {
    down >= 2 || c.Exactly? || height <= c.h * width
  }

  /** From eight tokens up no branch of the fit raises, and exactly the grids that keep a cell are not
      empty. */
  lemma SolveTotal(sqrt: real -> real, height: nat, width: nat, patch: nat, down: nat, budget: int)
    requires IsSqrt(sqrt) && height >= 1 && width >= 1 && patch >= 1 && down >= 1 && budget >= 8
    ensures Choose(sqrt, height, width, budget).Some?
    ensures var fit := SolveResizeRatio(sqrt, height, width, patch, down, budget);
            && fit.Some?
            && (NonEmpty(fit.value.grid) <==> KeepsCell(Choose(sqrt, height, width, budget).value, height, width, down))
  {
    ChooseTotal(sqrt, height, width, budget);
    var maxW, maxH := ChooseBySides(sqrt, height, width, budget);
    var c := ChooseFrom(maxW, maxH, budget).value;
    match c
    case Exactly(h, w) => ExactFit(h, w, patch, down);
    case Within(h, w) =>
      var (ph, pw) := Scale(height, width, patch, down, h, w);
      if down >= 2 {
        ScaleNonEmpty(height, width, patch, down, h, w, maxH, maxW);
      } else {
        ScaleOneIff(height, width, patch, h, w, maxH, maxW);
      }
      if pw >= 1 {
        CellsLeft(ph, pw, patch, down);
      } else {
        NoCellsLeft(ph, pw, patch);
      }
  }

  lemma NoCellsLeft(ph: int, pw: int, patch: nat)
    requires pw < 1 && patch >= 1
    ensures !NonEmpty(FitOf(ph, pw, patch, 1).grid)
  {
    PatchesBack(pw, patch);
  }

  lemma ChooseTotal(sqrt: real -> real, height: nat, width: nat, budget: int)
    requires height >= 1 && width >= 1 && budget >= 8
    ensures Choose(sqrt, height, width, budget).Some?
  {
    var r := height as real / width as real;
    assert r > 0.0;
    assert (budget - 2) as real / r >= 0.0;
  }

  lemma PositiveProduct(x: real, y: real)
    requires x > 0.0 && y > 0.0
    ensures x * y > 0.0
  {
  }

  lemma SquareLess(s: real, t: real)
    requires 0.0 <= s < t
    ensures s * s < t * t
  {
    PositiveProduct(t - s, t + s);
    assert (t - s) * (t + s) == t * t - s * s;
  }

  lemma SqrtBetween(sqrt: real -> real, x: real, lo: real, hi: real)
    requires IsSqrt(sqrt) && 0.0 <= lo && 0.0 <= hi && 0.0 <= x && lo * lo <= x < hi * hi
    ensures lo <= sqrt(x) < hi
  {
    var s := sqrt(x);
    assert s >= 0.0 && s * s == x;
    if s < lo {
      SquareLess(s, lo);
    } else if s > hi {
      SquareLess(hi, s);
    }
    assert s != hi;
  }

  /** A wide image asks for two rows. */
  lemma WideImage(sqrt: real -> real, width: nat, budget: int)
    requires IsSqrt(sqrt) && width >= 100 && 3 <= budget <= 9
    ensures Choose(sqrt, 1, width, budget) == ChooseFrom(1.0, 0.0, budget)
  {
    var w, r := width as real, 1.0 / width as real;
    assert w * r == 1.0;
    var square := (budget - 2) as real / r + 0.25;
    assert (budget - 2) as real / r == (budget - 2) as real * w by {
      DivIs((budget - 2) as real, r, (budget - 2) as real * w);
    }
    ScaleLe(1.0, (budget - 2) as real, w);
    ScaleLe((budget - 2) as real, 7.0, w);
    ScaleLe(100.0, w, w);
    assert (2.0 * w) * (2.0 * w) == 4.0 * (w * w) && 100.0 * w <= w * w;
    SqrtBetween(sqrt, square, 1.5, 2.0 * w);
    var maxW := sqrt(square) - 0.5;
    MulLt(maxW, 2.0 * w, r);
    assert HeightOf(maxW, r) < 2.0 by {
      assert 2.0 * w * r == 2.0;
    }
  }

  /** Below eight tokens two rows cannot hold more than one cell each. */
  lemma WideImageRaises(sqrt: real -> real, width: nat, budget: int)
    requires IsSqrt(sqrt) && width >= 100 && 3 <= budget < 8
    ensures Choose(sqrt, 1, width, budget).None?
  {
    WideImage(sqrt, width, budget);
  }

  ghost predicate AlwaysFits(sqrt: real -> real, patch: nat, down: nat, budget: int)
    requires patch >= 1 && down >= 1
  {
    forall height: nat, width: nat :: height >= 1 && width >= 1 ==>
      var fit := SolveResizeRatio(sqrt, height, width, patch, down, budget); fit.Some? && NonEmpty(fit.value.grid)
  }

  /** Two tokens leave no row at all. */
  lemma TwoTokensFitNothing(sqrt: real -> real, patch: nat, down: nat)
    requires IsSqrt(sqrt) && patch >= 1 && down >= 1
    ensures var fit := SolveResizeRatio(sqrt, 1, 1, patch, down, 2); fit.Some? && !NonEmpty(fit.value.grid)
  {
    SqrtBetween(sqrt, 0.25, 0.5, 1.0);
    assert Choose(sqrt, 1, 1, 2) == Some(Exactly(0, 1));
    EmptyColumn(patch, down);
  }

  lemma EmptyColumn(patch: nat, down: nat)
    requires patch >= 1 && down >= 1
    ensures FitOf(0 * down, 1 * down, patch, down).grid.h == 0
  {
    assert 0 * down == 0 && 0 * patch == 0 && 0 / patch == 0;
    assert CeilDiv(0, down) == 0;
  }

  lemma SqrtIs(sqrt: real -> real, x: real, root: real)
    requires IsSqrt(sqrt) && root >= 0.0 && root * root == x
    ensures sqrt(x) == root
  {
    assert x >= 0.0;
    if sqrt(x) < root {
      SquareLess(sqrt(x), root);
    } else if sqrt(x) > root {
      SquareLess(root, sqrt(x));
    }
  }

  /** Two pixels wide and as tall as the odd budget less two: `maxW` is one, `maxH` is no whole number. */
  lemma NarrowOdd(sqrt: real -> real, k: nat)
    requires IsSqrt(sqrt) && k >= 3
    ensures Choose(sqrt, 2 * k + 1, 2, 2 * k + 3) == Some(Within(EvenBelow(k), 1))
  {
    var r := (2 * k + 1) as real / 2.0;
    assert (2 * k + 1) as real / r == 2.0;
    SqrtIs(sqrt, 2.25, 1.5);
    assert HeightOf(1.0, r) == k as real + 0.5;
  }

  /** A pixel less tall for an even budget: `maxW` is a little over one, and `maxH` a little less than
      half the budget less one. */
  lemma NarrowEven(sqrt: real -> real, k: nat)
    requires IsSqrt(sqrt) && k >= 3
    ensures Choose(sqrt, 2 * k - 1, 2, 2 * k + 2) == Some(Within(EvenBelow(k - 1), 1))
  {
    var n := (2 * k - 1) as real;
    var r := n / 2.0;
    var over := 1.0 / n;
    assert n * over == 1.0;
    var square := (2 * k) as real / r + 0.25;
    assert (2 * k) as real / r == 2.0 + 2.0 * over by {
      assert r * (2.0 + 2.0 * over) == n + 1.0;
      DivIs((2 * k) as real, r, 2.0 + 2.0 * over);
    }
    assert (1.5 + over) * (1.5 + over) == 2.25 + 3.0 * over + over * over;
    assert over * over > 0.0 by {
      PositiveProduct(over, over);
    }
    SqrtBetween(sqrt, square, 1.5, 1.5 + over);
    var maxW := sqrt(square) - 0.5;
    ScaleLe(1.0, maxW, r);
    MulLt(maxW, 1.0 + over, r);
    assert HeightOf(maxW, r) < (k as real) by {
      assert (1.0 + over) * r == r + 0.5;
    }
    assert over < 1.0 by {
      MulLt(1.0, n, over);
    }
    assert maxW.Floor == 1 && HeightOf(maxW, r).Floor == k - 1;
  }

  lemma DivIs(a: real, b: real, q: real)
    requires b > 0.0 && b * q == a
    ensures a / b == q
  {
    DivTimes(a, b);
    CancelFactor(a / b, q, b);
  }

  /** Without downsampling some image loses its only column, whatever the budget. */
  lemma NarrowImageLost(sqrt: real -> real, patch: nat, budget: int)
    requires IsSqrt(sqrt) && patch >= 1 && budget >= 8
    ensures !AlwaysFits(sqrt, patch, 1, budget)
  {
    var k := if budget % 2 == 1 then (budget - 3) / 2 else (budget - 2) / 2;
    var height := if budget % 2 == 1 then 2 * k + 1 else 2 * k - 1;
    if budget % 2 == 1 {
      NarrowOdd(sqrt, k);
    } else {
      NarrowEven(sqrt, k);
    }
    SolveTotal(sqrt, height, 2, patch, 1, budget);
    var fit := SolveResizeRatio(sqrt, height, 2, patch, 1, budget);
    assert !NonEmpty(fit.value.grid);
  }

  /** Downsampling and eight tokens are exactly what it takes for the fit to work for every image. */
  lemma AlwaysFitsIff(sqrt: real -> real, patch: nat, down: nat, budget: int)
    requires IsSqrt(sqrt) && patch >= 1 && down >= 1
    ensures AlwaysFits(sqrt, patch, down, budget) <==> down >= 2 && budget >= 8
  {
    if budget >= 8 && down >= 2 {
      forall height: nat, width: nat | height >= 1 && width >= 1
        ensures var fit := SolveResizeRatio(sqrt, height, width, patch, down, budget);
                fit.Some? && NonEmpty(fit.value.grid)
      {
        SolveTotal(sqrt, height, width, patch, down, budget);
      }
    } else if budget >= 8 {
      NarrowImageLost(sqrt, patch, budget);
    } else if budget >= 3 {
      WideImageRaises(sqrt, 100, budget);
      assert SolveResizeRatio(sqrt, 1, 100, patch, down, budget).None?;
    } else if budget == 2 {
      TwoTokensFitNothing(sqrt, patch, down);
    } else {
      assert SolveResizeRatio(sqrt, 1, 1, patch, down, budget).None?;
    }
  }

  // ---- `safe_resize` ----

  /** The solves of the loop, from `budget` on, until one costs at most `limit`; two tokens less than the
      limit always do. */
  function Retry(sqrt: real -> real, height: nat, width: nat, patch: nat, down: nat, limit: int, budget: int)
    : (fit: Option<Fit>)
    requires IsSqrt(sqrt) && patch >= 1 && down >= 1 && limit - 2 <= budget <= limit
    decreases budget - limit + 2
  {
    SolveWithinTwo(sqrt, height, width, patch, down, budget);
    match SolveResizeRatio(sqrt, height, width, patch, down, budget)
    case None => None
    case Some(fit) =>
      if fit.grid.tokens <= limit then Some(fit)
      else Retry(sqrt, height, width, patch, down, limit, budget - 1)
  }

  /** The image's own grid if it costs at most the limit less three, and otherwise the first solve that does. */
  function SafeFit(sqrt: real -> real, height: nat, width: nat, bestH: int, bestW: int, patch: nat, down: nat,
                   maxNToken: int): Option<Fit>
    requires IsSqrt(sqrt) && patch >= 1 && down >= 1
  {
    var limit := maxNToken - (COMPRESS_PAD_TO - 1);
    var grid := GridTokens(bestH, bestW, patch, down);
    if grid.tokens <= limit then Some(Fit(grid, bestH, bestW))
    else Retry(sqrt, height, width, patch, down, limit, limit)
  }

  function WholePatches(side: nat, patch: nat): int
    requires patch >= 1
  {
    CeilDiv(side, patch) * patch
  }

  ghost predicate SafeFor(sqrt: real -> real, height: nat, width: nat, patch: nat, down: nat, maxNToken: int)
    requires IsSqrt(sqrt) && patch >= 1 && down >= 1
  {
    var fit := SafeFit(sqrt, height, width, WholePatches(height, patch), WholePatches(width, patch), patch, down,
                       maxNToken);
    fit.Some? && NonEmpty(fit.value.grid)
  }

  /** Every image, rounded up to whole patches, gets a grid. */
  ghost predicate AlwaysSafe(sqrt: real -> real, patch: nat, down: nat, maxNToken: int)
    requires IsSqrt(sqrt) && patch >= 1 && down >= 1
  {
    forall height: nat, width: nat | height >= 1 && width >= 1 ::
      SafeFor(sqrt, height, width, patch, down, maxNToken)
  }

  lemma WholeCells(k: int, patch: nat, down: nat)
    requires patch >= 1 && down >= 1 && k >= 0
    ensures CeilDiv(WholePatches(k * down * patch, patch) / patch, down) == k
  {
    CeilDivExact(k * down, patch);
    PatchesBack(k * down, patch);
    CeilDivExact(k, down);
  }

  lemma OnePixel(patch: nat, down: nat)
    requires patch >= 1 && down >= 1
    ensures CeilDiv(WholePatches(1, patch) / patch, down) == 1
  {
    QuotientIs(patch, 1, patch);
    PatchesBack(1, patch);
    QuotientIs(down, 1, down);
  }

  lemma OwnCells(side: nat, patch: nat, down: nat)
    requires side >= 1 && patch >= 1 && down >= 1
    ensures CeilDiv(WholePatches(side, patch) / patch, down) >= 1
  {
    QuotientIs(patch, 1, patch);
    CeilDivGrows(1, side, patch);
    PatchesBack(CeilDiv(side, patch), patch);
    QuotientIs(down, 1, down);
    CeilDivGrows(1, CeilDiv(side, patch), down);
  }

  /** A pixel high and a hundred cells wide. */
  lemma WideImageUnsafe(sqrt: real -> real, patch: nat, down: nat, maxNToken: int)
    requires IsSqrt(sqrt) && patch >= 1 && down >= 1 && maxNToken < 13
    ensures !AlwaysSafe(sqrt, patch, down, maxNToken)
  {
    var width: nat, limit := 100 * down * patch, maxNToken - 3;
    assert width >= 100 by {
      IntMulLe(1, down, 1, patch);
      assert width == 100 * (down * patch);
    }
    assert !SafeFor(sqrt, 1, width, patch, down, maxNToken) by {
      WideImageLost(sqrt, width, patch, down, limit);
    }
  }

  lemma WideImageLost(sqrt: real -> real, width: nat, patch: nat, down: nat, limit: int)
    requires IsSqrt(sqrt) && patch >= 1 && down >= 1 && limit < 10 && width >= 100 && width == 100 * down * patch
    ensures GridTokens(WholePatches(1, patch), WholePatches(width, patch), patch, down).tokens > limit
    ensures var fit := Retry(sqrt, 1, width, patch, down, limit, limit); fit.None? || !NonEmpty(fit.value.grid)
  {
    WholeCells(100, patch, down);
    OnePixel(patch, down);
    assert GridTokens(WholePatches(1, patch), WholePatches(width, patch), patch, down) == Grid(1, 100, 206);
    if limit >= 8 {
      WideTwoByTwo(sqrt, width, patch, down, limit);
      if limit == 9 {
        WideTwoByTwo(sqrt, width, patch, down, 8);
      }
      WideImageRaises(sqrt, width, 7);
    } else if limit >= 3 {
      WideImageRaises(sqrt, width, limit);
    } else {
      WideNoRoom(sqrt, width, patch, down, limit);
    }
  }

  lemma WideTwoByTwo(sqrt: real -> real, width: nat, patch: nat, down: nat, budget: int)
    requires IsSqrt(sqrt) && patch >= 1 && down >= 1 && width >= 100 && 8 <= budget <= 9
    ensures var fit := SolveResizeRatio(sqrt, 1, width, patch, down, budget); fit.Some? && fit.value.grid.tokens == 10
  {
    WideImage(sqrt, width, budget);
    ExactFit(2, 2, patch, down);
  }

  /** Two tokens leave no row at all, and fewer no grid. */
  lemma WideNoRoom(sqrt: real -> real, width: nat, patch: nat, down: nat, budget: int)
    requires IsSqrt(sqrt) && patch >= 1 && down >= 1 && width >= 100 && budget <= 2
    ensures var fit := SolveResizeRatio(sqrt, 1, width, patch, down, budget);
            fit.None? || (fit.value.grid.tokens <= budget && !NonEmpty(fit.value.grid))
  {
    var r := 1.0 / width as real;
    assert width as real * r == 1.0;
    if budget == 2 {
      SqrtBetween(sqrt, 0.25, 0.5, 1.0);
      assert Choose(sqrt, 1, width, 2) == Some(Exactly(0, 1));
      ExactFit(0, 1, patch, down);
    } else {
      DivIs((budget - 2) as real, r, (budget - 2) as real * width as real);
      ScaleLe((budget - 2) as real, -1.0, width as real);
    }
  }

  lemma ChooseScaled(sqrt: real -> real, height: nat, width: nat, patch: nat, budget: int)
    requires height >= 1 && width >= 1 && patch >= 1
    ensures Choose(sqrt, height * patch, width * patch, budget) == Choose(sqrt, height, width, budget)
  {
    RealProduct(height, patch);
    RealProduct(width, patch);
    var r := height as real / width as real;
    assert (height * patch) as real / (width * patch) as real == r by {
      PositiveProduct(width as real, patch as real);
      assert r * width as real == height as real;
      assert (width * patch) as real * r == r * width as real * patch as real;
      DivIs((height * patch) as real, (width * patch) as real, r);
    }
    assert height * patch >= 1 && width * patch >= 1 by {
      IntMulLe(1, height, 1, patch);
      IntMulLe(1, width, 1, patch);
    }
  }

  /** The narrow image of `NarrowImageLost`, in whole patches: its own grid is too long, and the first
      solve has rows but no column. */
  lemma NarrowImageUnsafe(sqrt: real -> real, patch: nat, maxNToken: int)
    requires IsSqrt(sqrt) && patch >= 1 && maxNToken >= 13
    ensures !AlwaysSafe(sqrt, patch, 1, maxNToken)
  {
    if maxNToken % 2 == 0 {
      NarrowOddUnsafe(sqrt, patch, (maxNToken - 6) / 2, maxNToken);
    } else {
      NarrowEvenUnsafe(sqrt, patch, (maxNToken - 5) / 2, maxNToken);
    }
  }

  lemma NarrowOddUnsafe(sqrt: real -> real, patch: nat, k: nat, maxNToken: int)
    requires IsSqrt(sqrt) && patch >= 1 && k >= 3 && maxNToken == 2 * k + 6
    ensures !AlwaysSafe(sqrt, patch, 1, maxNToken)
  {
    NarrowOdd(sqrt, k);
    NarrowUnsafe(sqrt, 2 * k + 1, patch, 2 * k + 3, EvenBelow(k), maxNToken);
  }

  lemma NarrowEvenUnsafe(sqrt: real -> real, patch: nat, k: nat, maxNToken: int)
    requires IsSqrt(sqrt) && patch >= 1 && k >= 3 && maxNToken == 2 * k + 5
    ensures !AlwaysSafe(sqrt, patch, 1, maxNToken)
  {
    NarrowEven(sqrt, k);
    NarrowUnsafe(sqrt, 2 * k - 1, patch, 2 * k + 2, EvenBelow(k - 1), maxNToken);
  }

  lemma NarrowUnsafe(sqrt: real -> real, tall: nat, patch: nat, limit: int, h: int, maxNToken: int)
    requires IsSqrt(sqrt) && patch >= 1 && limit >= 8 && 0 <= 2 * h < tall && h + 4 <= limit < 3 * tall && h % 2 == 0
    requires Choose(sqrt, tall, 2, limit) == Some(Within(h, 1)) && maxNToken == limit + 3
    ensures !AlwaysSafe(sqrt, patch, 1, maxNToken)
  {
    ChooseScaled(sqrt, tall, 2, patch, limit);
    NarrowLosesColumn(sqrt, tall, patch, limit, h);
    NarrowOwn(tall, patch, limit);
    IntMulLe(1, tall, 1, patch);
    assert !SafeFor(sqrt, tall * patch, 2 * patch, patch, 1, maxNToken);
  }

  lemma NarrowOwn(tall: nat, patch: nat, limit: int)
    requires patch >= 1 && limit < 3 * tall
    ensures GridTokens(WholePatches(tall * patch, patch), WholePatches(2 * patch, patch), patch, 1).tokens > limit
  {
    WholeCells(tall, patch, 1);
    WholeCells(2, patch, 1);
    assert tall * 1 * patch == tall * patch && 2 * 1 * patch == 2 * patch;
  }

  lemma NarrowLosesColumn(sqrt: real -> real, tall: nat, patch: nat, budget: int, h: int)
    requires IsSqrt(sqrt) && patch >= 1 && budget >= 8 && 0 <= 2 * h < tall && h + 4 <= budget && h % 2 == 0
    requires Choose(sqrt, tall * patch, 2 * patch, budget) == Some(Within(h, 1))
    ensures var fit := SolveResizeRatio(sqrt, tall * patch, 2 * patch, patch, 1, budget);
            fit.Some? && fit.value.grid.tokens <= budget && !NonEmpty(fit.value.grid)
  {
    var (height, width) := (tall * patch, 2 * patch);
    IntMulLe(1, tall, 1, patch);
    MulStrict(2 * h, tall, patch);
    assert h * width == 2 * h * patch;
    var (ph, pw) := Scale(height, width, patch, 1, h, 1);
    ScaleBound(height, width, patch, 1, h, 1);
    var a, b := Ratio(1, patch, 1, width), Ratio(h, patch, 1, height);
    OtherSideLost(height, width, h, patch, if a <= b then a else b);
    ScaledFit(ph, pw, h, 0, patch, 1);
    NoCellsLeft(ph, pw, patch);
  }

  lemma MulStrict(a: int, b: int, k: nat)
    requires a < b && k >= 1
    ensures a * k < b * k
  {
    assert (b - a) * k == b * k - a * k;
    IntMulLe(1, b - a, 1, k);
  }

  lemma RetrySafe(sqrt: real -> real, height: nat, width: nat, patch: nat, down: nat, limit: int, budget: int)
    requires IsSqrt(sqrt) && patch >= 1 && down >= 2 && limit >= 10 && limit - 2 <= budget <= limit
    requires height >= 1 && width >= 1
    ensures var fit := Retry(sqrt, height, width, patch, down, limit, budget); fit.Some? && NonEmpty(fit.value.grid)
    decreases budget - limit + 2
  {
    SolveTotal(sqrt, height, width, patch, down, budget);
    SolveWithinTwo(sqrt, height, width, patch, down, budget);
    if SolveResizeRatio(sqrt, height, width, patch, down, budget).value.grid.tokens > limit {
      RetrySafe(sqrt, height, width, patch, down, limit, budget - 1);
    }
  }

  /** A returned fit is that of its own sides and keeps the limit. */
  ghost predicate Keeps(fit: Option<Fit>, patch: nat, down: nat, limit: int)
    requires patch >= 1 && down >= 1
  {
    match fit
    case None => true
    case Some(f) => f.grid == GridTokens(f.bestH, f.bestW, patch, down) && f.grid.tokens <= limit
  }

  lemma RetryFits(sqrt: real -> real, height: nat, width: nat, patch: nat, down: nat, limit: int, budget: int)
    requires IsSqrt(sqrt) && patch >= 1 && down >= 1 && limit - 2 <= budget <= limit
    ensures Keeps(Retry(sqrt, height, width, patch, down, limit, budget), patch, down, limit)
    decreases budget - limit + 2
  {
    SolveWithinTwo(sqrt, height, width, patch, down, budget);
    var solved := SolveResizeRatio(sqrt, height, width, patch, down, budget);
    if solved.Some? && solved.value.grid.tokens > limit {
      RetryFits(sqrt, height, width, patch, down, limit, budget - 1);
    }
  }

  ghost predicate Tried(height: nat, width: nat, patch: nat, down: nat, limit: int, budget: int, fit: Fit)
    requires patch >= 1
  {
    IsSolve(height, width, patch, down, budget, fit) && fit.grid.tokens <= limit
  }

  ghost predicate Overruns(height: nat, width: nat, patch: nat, down: nat, limit: int, budget: int)
    requires patch >= 1
  {
    exists fit :: IsSolve(height, width, patch, down, budget, fit) && fit.grid.tokens > limit
  }

  /** The first solve, from a budget of `from` down, that costs at most `limit`. */
  ghost predicate FirstWithin(height: nat, width: nat, patch: nat, down: nat, limit: int, from: int, fit: Fit)
    requires patch >= 1
  {
    exists b :: limit - 2 <= b <= from && Tried(height, width, patch, down, limit, b, fit) &&
      forall c :: b < c <= from ==> Overruns(height, width, patch, down, limit, c)
  }

  lemma RetryIs(sqrt: real -> real, height: nat, width: nat, patch: nat, down: nat, limit: int, budget: int)
    requires IsSqrt(sqrt) && patch >= 1 && down >= 1 && limit - 2 <= budget <= limit
    ensures var fit := Retry(sqrt, height, width, patch, down, limit, budget);
            fit.Some? ==> FirstWithin(height, width, patch, down, limit, budget, fit.value)
    decreases budget - limit + 2
  {
    SolveIs(sqrt, height, width, patch, down, budget);
    SolveWithinTwo(sqrt, height, width, patch, down, budget);
    var solved := SolveResizeRatio(sqrt, height, width, patch, down, budget);
    if solved.Some? {
      if solved.value.grid.tokens <= limit {
        assert Tried(height, width, patch, down, limit, budget, solved.value);
      } else {
        RetryIs(sqrt, height, width, patch, down, limit, budget - 1);
        assert Overruns(height, width, patch, down, limit, budget);
      }
    }
  }

  lemma SafeFitIs(sqrt: real -> real, height: nat, width: nat, bestH: int, bestW: int, patch: nat, down: nat,
                  maxNToken: int)
    requires IsSqrt(sqrt) && patch >= 1 && down >= 1
    ensures var fit := SafeFit(sqrt, height, width, bestH, bestW, patch, down, maxNToken);
            && Keeps(fit, patch, down, maxNToken - (COMPRESS_PAD_TO - 1))
            && (height >= 1 && width >= 1 && down >= 2 && maxNToken >= 13 ==>
                  fit.Some? && (NonEmpty(GridTokens(bestH, bestW, patch, down)) ==> NonEmpty(fit.value.grid)))
  {
    var limit := maxNToken - (COMPRESS_PAD_TO - 1);
    RetryFits(sqrt, height, width, patch, down, limit, limit);
    if height >= 1 && width >= 1 && down >= 2 && maxNToken >= 13 {
      RetrySafe(sqrt, height, width, patch, down, limit, limit);
    }
  }

  /** Downsampling and a limit of thirteen are exactly what it takes for every image to get a grid. */
  lemma AlwaysSafeIff(sqrt: real -> real, patch: nat, down: nat, maxNToken: int)
    requires IsSqrt(sqrt) && patch >= 1 && down >= 1
    ensures AlwaysSafe(sqrt, patch, down, maxNToken) <==> down >= 2 && maxNToken >= 13
  {
    if maxNToken < 13 {
      WideImageUnsafe(sqrt, patch, down, maxNToken);
    } else if down == 1 {
      NarrowImageUnsafe(sqrt, patch, maxNToken);
    } else {
      forall height: nat, width: nat | height >= 1 && width >= 1
        ensures SafeFor(sqrt, height, width, patch, down, maxNToken)
      {
        OwnCells(height, patch, down);
        OwnCells(width, patch, down);
        RetrySafe(sqrt, height, width, patch, down, maxNToken - 3, maxNToken - 3);
      }
    }
  }

  /** `safe_resize`: three tokens are set aside for the compress pads. */
  method SafeResize(sqrt: real -> real, height: nat, width: nat, bestH: int, bestW: int, patch: nat, down: nat,
                    maxNToken: int)
    returns (fit: Option<Fit>, ghost solves: nat)
    requires IsSqrt(sqrt) && patch >= 1 && down >= 1
    ensures fit == SafeFit(sqrt, height, width, bestH, bestW, patch, down, maxNToken)
    ensures fit.Some? ==> fit.value.grid == GridTokens(fit.value.bestH, fit.value.bestW, patch, down)
    ensures fit.Some? ==> fit.value.grid.tokens <= maxNToken - (COMPRESS_PAD_TO - 1)
    ensures solves <= 3
    ensures height >= 1 && width >= 1 && down >= 2 && maxNToken >= 13 ==> fit.Some?
    ensures height >= 1 && width >= 1 && down >= 2 && maxNToken >= 13 &&
            NonEmpty(GridTokens(bestH, bestW, patch, down)) ==>
              NonEmpty(fit.value.grid)
    ensures solves == 0 ==> fit == Some(Fit(GridTokens(bestH, bestW, patch, down), bestH, bestW))
  {
    var limit := maxNToken - (COMPRESS_PAD_TO - 1);
    var best := Fit(GridTokens(bestH, bestW, patch, down), bestH, bestW);
    var budget := limit;
    solves := 0;
    ghost var result := SafeFit(sqrt, height, width, bestH, bestW, patch, down, maxNToken);
    SafeFitIs(sqrt, height, width, bestH, bestW, patch, down, maxNToken);
    while best.grid.tokens > limit
      invariant budget == limit - solves && solves <= 3
      invariant solves == 0 ==> best == Fit(GridTokens(bestH, bestW, patch, down), bestH, bestW)
      invariant best.grid.tokens <= limit ==> result == Some(best)
      invariant best.grid.tokens > limit ==>
                  solves <= 2 && result == Retry(sqrt, height, width, patch, down, limit, budget)
      decreases budget - (limit - 3)
    {
      SolveWithinTwo(sqrt, height, width, patch, down, budget);
      var solved := SolveResizeRatio(sqrt, height, width, patch, down, budget);
      solves := solves + 1;
      if solved.None? {
        return None, solves;
      }
      best := solved.value;
      budget := budget - 1;
    }
    fit := Some(best);
  }

  // ---- the block ----

  datatype Cell = Cell(r: nat, c: nat)

  /** Position of a cell in row-major order. */
  function Index(r: nat, c: nat, rowLen: nat): nat {
    r * rowLen + c
  }

  function RowsOf(h: nat): nat {
    h + h % 2
  }

  predicate IsImage(cell: Cell, h: nat, w: nat) {
    cell.r < h && cell.c < w
  }

  function TypeOf(cell: Cell, h: nat, w: nat): TokenType {
    if cell.r >= h then ImagePad else if cell.c < w then Image else ImageNewLine
  }

  /** The first `n` columns of the pair of rows `p`, column by column. */
  function PairCells(p: nat, n: nat): seq<Cell> {
    if n == 0 then [] else PairCells(p, n - 1) + [Cell(2 * p, n - 1), Cell(2 * p + 1, n - 1)]
  }

  /** The transposed order of the first `pairs` pairs of rows. */
  function CellOrder(pairs: nat, rowLen: nat): seq<Cell> {
    if pairs == 0 then [] else CellOrder(pairs - 1, rowLen) + PairCells(pairs - 1, rowLen)
  }

  function Indices(cells: seq<Cell>, rowLen: nat): seq<nat> {
    seq(|cells|, k requires 0 <= k < |cells| => Index(cells[k].r, cells[k].c, rowLen))
  }

  function Body(cells: seq<Cell>, h: nat, w: nat): seq<TokenType> {
    seq(|cells|, k requires 0 <= k < |cells| => TypeOf(cells[k], h, w))
  }

  /** The aligner row of every image cell, in order. */
  function Perm(cells: seq<Cell>, h: nat, w: nat): seq<nat> {
    if cells == [] then [] else
      var front, last := Perm(cells[..|cells| - 1], h, w), cells[|cells| - 1];
      if IsImage(last, h, w) then front + [Index(last.r, last.c, w)] else front
  }

  function Repeat<T>(x: T, n: nat): (s: seq<T>)
    ensures |s| == n && forall i :: 0 <= i < n ==> s[i] == x
  {
    seq(n, _ => x)
  }

  lemma IndexInjective(a: Cell, b: Cell, rowLen: nat)
    requires a.c < rowLen && b.c < rowLen && Index(a.r, a.c, rowLen) == Index(b.r, b.c, rowLen)
    ensures a == b
  {
    QuotientIs(Index(a.r, a.c, rowLen), a.r, rowLen);
    QuotientIs(Index(b.r, b.c, rowLen), b.r, rowLen);
  }

  lemma IndexBound(r: nat, c: nat, rows: nat, rowLen: nat)
    requires r < rows && c < rowLen
    ensures Index(r, c, rowLen) < rows * rowLen
  {
    IntMulLe(r + 1, rows, rowLen, rowLen);
    assert (r + 1) * rowLen == r * rowLen + rowLen;
  }

  lemma {:induction false} PairCellsShape(p: nat, n: nat)
    ensures |PairCells(p, n)| == 2 * n
    ensures forall x :: x in PairCells(p, n) <==> (x.r == 2 * p || x.r == 2 * p + 1) && x.c < n
    ensures Distinct(PairCells(p, n))
  {
    if n > 0 {
      PairCellsShape(p, n - 1);
      var both := [Cell(2 * p, n - 1), Cell(2 * p + 1, n - 1)];
      DistinctConcat(PairCells(p, n - 1), both);
      forall x: Cell
        ensures x in PairCells(p, n) <==> (x.r == 2 * p || x.r == 2 * p + 1) && x.c < n
      {
        InConcat(x, PairCells(p, n - 1), both);
        assert x in both <==> (x.r == 2 * p || x.r == 2 * p + 1) && x.c == n - 1;
      }
    }
  }

  lemma {:induction false} CellOrderLength(pairs: nat, rowLen: nat)
    ensures |CellOrder(pairs, rowLen)| == 2 * (pairs * rowLen)
  {
    if pairs > 0 {
      CellOrderLength(pairs - 1, rowLen);
      PairCellsShape(pairs - 1, rowLen);
      assert pairs * rowLen == (pairs - 1) * rowLen + rowLen;
    }
  }

  lemma {:induction false} CellInPair(p: nat, n: nat, x: Cell)
    ensures x in PairCells(p, n) <==> (x.r == 2 * p || x.r == 2 * p + 1) && x.c < n
  {
    if n > 0 {
      CellInPair(p, n - 1, x);
      InConcat(x, PairCells(p, n - 1), [Cell(2 * p, n - 1), Cell(2 * p + 1, n - 1)]);
    }
  }

  lemma CellInNextPair(pairs: nat, rowLen: nat, x: Cell)
    ensures x in CellOrder(pairs + 1, rowLen) <==> x in CellOrder(pairs, rowLen) || x in PairCells(pairs, rowLen)
  {
    InConcat(x, CellOrder(pairs, rowLen), PairCells(pairs, rowLen));
  }

  lemma {:induction false} CellInOrder(pairs: nat, rowLen: nat, x: Cell)
    ensures x in CellOrder(pairs, rowLen) <==> x.r < 2 * pairs && x.c < rowLen
  {
    if pairs > 0 {
      var p := pairs - 1;
      CellInOrder(p, rowLen, x);
      CellInPair(p, rowLen, x);
      CellInNextPair(p, rowLen, x);
    }
  }

  lemma CellOrderMembers(pairs: nat, rowLen: nat)
    ensures forall x :: x in CellOrder(pairs, rowLen) <==> x.r < 2 * pairs && x.c < rowLen
  {
    forall x: Cell
      ensures x in CellOrder(pairs, rowLen) <==> x.r < 2 * pairs && x.c < rowLen
    {
      CellInOrder(pairs, rowLen, x);
    }
  }

  lemma {:induction false} CellOrderDistinct(pairs: nat, rowLen: nat)
    ensures Distinct(CellOrder(pairs, rowLen))
  {
    if pairs > 0 {
      CellOrderDistinct(pairs - 1, rowLen);
      PairDistinct(pairs - 1, rowLen);
      LaterPair(pairs - 1, rowLen);
      DistinctConcat(CellOrder(pairs - 1, rowLen), PairCells(pairs - 1, rowLen));
    }
  }

  lemma PairDistinct(p: nat, rowLen: nat)
    ensures Distinct(PairCells(p, rowLen))
  {
    PairCellsShape(p, rowLen);
  }

  lemma LaterPair(p: nat, rowLen: nat)
    ensures forall x :: x in CellOrder(p, rowLen) ==> x !in PairCells(p, rowLen)
  {
    PairCellsShape(p, rowLen);
    CellOrderMembers(p, rowLen);
  }

  // ---- the aligner rows ----

  /** The image slots of a block body, in order. */
  function ImageSlots(body: seq<TokenType>): seq<nat> {
    if body == [] then [] else
      var front := ImageSlots(body[..|body| - 1]);
      if body[|body| - 1] == Image then front + [|body| - 1] else front
  }

  /** `perm` runs parallel to the image slots: slot `i` carries the aligner row of its own cell. */
  lemma {:induction false} PermFollowsSlots(cells: seq<Cell>, h: nat, w: nat)
    ensures var slots, perm := ImageSlots(Body(cells, h, w)), Perm(cells, h, w);
            && |perm| == |slots|
            && forall i :: 0 <= i < |slots| ==>
                 slots[i] < |cells| && IsImage(cells[slots[i]], h, w) &&
                 perm[i] == Index(cells[slots[i]].r, cells[slots[i]].c, w)
  {
    if cells != [] {
      var front := cells[..|cells| - 1];
      PermFollowsSlots(front, h, w);
      assert Body(cells, h, w)[..|cells| - 1] == Body(front, h, w);
    }
  }

  lemma {:induction false} PermMembers(cells: seq<Cell>, h: nat, w: nat)
    ensures forall v :: v in Perm(cells, h, w) <==>
            exists x :: x in cells && IsImage(x, h, w) && v == Index(x.r, x.c, w)
  {
    if cells != [] {
      var front, last := cells[..|cells| - 1], cells[|cells| - 1];
      PermMembers(front, h, w);
      assert forall x :: x in cells <==> x in front || x == last;
    }
  }

  lemma {:induction false} PermDistinct(cells: seq<Cell>, h: nat, w: nat)
    requires Distinct(cells)
    ensures Distinct(Perm(cells, h, w))
  {
    if cells != [] {
      var front, last := cells[..|cells| - 1], cells[|cells| - 1];
      PermDistinct(front, h, w);
      PermMembers(front, h, w);
      if IsImage(last, h, w) {
        var v := Index(last.r, last.c, w);
        forall x | x in front && IsImage(x, h, w)
          ensures Index(x.r, x.c, w) != Index(last.r, last.c, w)
        {
          if Index(x.r, x.c, w) == Index(last.r, last.c, w) {
            IndexInjective(x, last, w);
          }
        }
        assert v !in Perm(front, h, w);
        DistinctConcat(Perm(front, h, w), [v]);
      }
    }
  }

  /** Each of the `n` aligner rows once. */
  ghost predicate RowsOnce(perm: seq<nat>, n: nat) {
    Distinct(perm) && forall v: nat :: v in perm <==> v < n
  }

  /** `perm` is a permutation of the `h * w` aligner rows. */
  lemma PermIsPermutation(h: nat, w: nat)
    ensures RowsOnce(Perm(CellOrder(RowsOf(h) / 2, w + 1), h, w), h * w)
  {
    var cells := CellOrder(RowsOf(h) / 2, w + 1);
    CellOrderDistinct(RowsOf(h) / 2, w + 1);
    CellOrderMembers(RowsOf(h) / 2, w + 1);
    PermDistinct(cells, h, w);
    PermMembers(cells, h, w);
    forall v | v in Perm(cells, h, w)
      ensures v < h * w
    {
      var x :| x in cells && IsImage(x, h, w) && v == Index(x.r, x.c, w);
      IndexBound(x.r, x.c, h, w);
    }
    forall v: nat | v < h * w
      ensures v in Perm(cells, h, w)
    {
      var x := RowColumn(v, h, w);
      assert x in cells;
    }
  }

  lemma RowColumn(v: nat, h: nat, w: nat) returns (x: Cell)
    requires v < h * w
    ensures IsImage(x, h, w) && Index(x.r, x.c, w) == v
  {
    assert w == 0 ==> h * w == 0;
    var (r, c) := (v / w, v % w);
    assert r * w + c == v;
    if r >= h {
      IntMulLe(h, r, w, w);
    }
    x := Cell(r, c);
  }

  // ---- where each cell is ----

  /** The pairs of rows one after the other, each column by column, upper cell first. */
  function PlaceOf(r: nat, c: nat, rowLen: nat): nat {
    2 * (r / 2 * rowLen + c) + r % 2
  }

  lemma {:induction false} PairCellAt(p: nat, n: nat, c: nat, low: nat)
    requires c < n && low < 2
    ensures |PairCells(p, n)| == 2 * n && PairCells(p, n)[2 * c + low] == Cell(2 * p + low, c)
  {
    PairCellsShape(p, n - 1);
    if c < n - 1 {
      PairCellAt(p, n - 1, c, low);
    }
  }

  lemma {:induction false} CellAt(pairs: nat, rowLen: nat, p: nat, c: nat, low: nat)
    requires p < pairs && c < rowLen && low < 2
    ensures var k := 2 * (p * rowLen + c) + low;
            k < |CellOrder(pairs, rowLen)| && CellOrder(pairs, rowLen)[k] == Cell(2 * p + low, c)
  {
    var q := pairs - 1;
    CellOrderLength(q, rowLen);
    if p < q {
      CellAt(q, rowLen, p, c, low);
    } else {
      PairCellAt(q, rowLen, c, low);
    }
  }

  lemma CellPlaced(h: nat, w: nat, r: nat, c: nat)
    requires r < RowsOf(h) && c <= w
    ensures var cells, k := CellOrder(RowsOf(h) / 2, w + 1), PlaceOf(r, c, w + 1);
            k < |cells| && cells[k] == Cell(r, c)
  {
    CellAt(RowsOf(h) / 2, w + 1, r / 2, c, r % 2);
  }

  /** As many rows as images among the first `k` cells come before the row of image cell `k`. */
  lemma {:induction false} PermAt(cells: seq<Cell>, h: nat, w: nat, k: nat)
    requires k < |cells| && IsImage(cells[k], h, w)
    ensures var i := multiset(Body(cells[..k], h, w))[Image];
            i < |Perm(cells, h, w)| && Perm(cells, h, w)[i] == Index(cells[k].r, cells[k].c, w)
  {
    var n := |cells| - 1;
    if k < n {
      PermAt(cells[..n], h, w, k);
      assert cells[..n][..k] == cells[..k];
    } else {
      PermSize(cells[..n], h, w);
    }
  }

  lemma {:induction false} PermSize(cells: seq<Cell>, h: nat, w: nat)
    ensures |Perm(cells, h, w)| == multiset(Body(cells, h, w))[Image]
  {
    if cells != [] {
      var front, last := cells[..|cells| - 1], cells[|cells| - 1];
      PermSize(front, h, w);
      assert Body(cells, h, w) == Body(front, h, w) + [TypeOf(last, h, w)];
    }
  }

  /** One newline for every row. */
  lemma {:induction false} NewLines(pairs: nat, h: nat, w: nat)
    ensures multiset(Body(CellOrder(pairs, w + 1), h, w))[ImageNewLine] == if 2 * pairs <= h then 2 * pairs else h
    requires 2 * pairs <= h + 1
  {
    if pairs > 0 {
      var p := pairs - 1;
      NewLines(p, h, w);
      PairNewLines(p, w + 1, h, w);
      assert Body(CellOrder(pairs, w + 1), h, w) ==
             Body(CellOrder(p, w + 1), h, w) + Body(PairCells(p, w + 1), h, w);
    }
  }

  lemma {:induction false} PairNewLines(p: nat, n: nat, h: nat, w: nat)
    requires n <= w + 1 && 2 * p < h
    ensures multiset(Body(PairCells(p, n), h, w))[ImageNewLine] ==
            if n <= w then 0 else if 2 * p + 1 < h then 2 else 1
  {
    if n > 0 {
      PairNewLines(p, n - 1, h, w);
      var both := [Cell(2 * p, n - 1), Cell(2 * p + 1, n - 1)];
      assert Body(PairCells(p, n), h, w) == Body(PairCells(p, n - 1), h, w) + Body(both, h, w);
      assert Body(both, h, w) == [TypeOf(both[0], h, w), TypeOf(both[1], h, w)];
    }
  }

  lemma {:induction false} DistinctFits(a: seq<nat>, b: seq<nat>)
    requires Distinct(a) && forall v :: v in a ==> v in b
    ensures |a| <= |b|
  {
    if a != [] {
      var front, last := a[..|a| - 1], a[|a| - 1];
      assert last in a;
      var i :| 0 <= i < |b| && b[i] == last;
      var rest := b[..i] + b[i + 1..];
      forall v | v in front
        ensures v in rest
      {
        assert v in a && v != last;
        var j :| 0 <= j < |b| && b[j] == v;
        assert rest[if j < i then j else j - 1] == v;
      }
      DistinctFits(front, rest);
    }
  }

  lemma AllRows(perm: seq<nat>, n: nat)
    requires RowsOnce(perm, n)
    ensures |perm| == n
  {
    var rows: seq<nat> := seq(n, i requires 0 <= i => i);
    forall v: nat
      ensures v in rows <==> v < n
    {
      assert v < n ==> rows[v] == v;
    }
    DistinctFits(perm, rows);
    DistinctFits(rows, perm);
  }

  // ---- sizes and alignment ----

  /** The two extra pads bring pairs of columns to a multiple of four. */
  function PadLast(h: nat, w: nat): nat {
    RowsOf(h) / 2 * (w + 1) % 2 * 2
  }

  function CompressPad(startPos: nat): nat {
    COMPRESS_PAD_TO - 1 - startPos % COMPRESS_PAD_TO
  }

  lemma AlignedStart(startPos: nat)
    ensures (startPos + CompressPad(startPos) + 1) % 4 == 0
  {
  }

  lemma TwiceTimes(q: nat, row: nat)
    ensures 2 * (q * row) == (2 * q) * row
  {
  }

  lemma OneMoreRow(h: nat, row: nat)
    ensures (h + 1) * row == h * row + row
  {
  }

  /** Rows rounded up to pairs, in full. */
  lemma PairedRows(h: nat, row: nat)
    ensures 2 * (RowsOf(h) / 2 * row) == h * row + if h % 2 == 1 then row else 0
  {
    var q := RowsOf(h) / 2;
    TwiceTimes(q, row);
    if h % 2 == 1 {
      assert 2 * q == h + 1;
      OneMoreRow(h, row);
    } else {
      assert 2 * q == h;
    }
  }

  /** Two pads make an odd number of pairs a multiple of four. */
  lemma PadToFour(cells: nat)
    ensures (2 * cells + cells % 2 * 2) % 4 == 0
  {
  }

  /** Body and trailing pads together make whole groups of four, between start and end. */
  lemma BlockArithmetic(h: nat, w: nat)
    ensures CountTokens(h, w) == 1 + 2 * (RowsOf(h) / 2 * (w + 1)) + PadLast(h, w) + 1
    ensures (2 * (RowsOf(h) / 2 * (w + 1)) + PadLast(h, w)) % 4 == 0
  {
    assert (h + 1) / 2 == RowsOf(h) / 2;
    PairedRows(h, w + 1);
    PadToFour(RowsOf(h) / 2 * (w + 1));
  }

  // ---- building the block ----

  function SourceRow(w: nat): seq<TokenType> {
    Repeat(Image, w) + [ImageNewLine]
  }

  /** `([IMAGE] * w + [IMAGE_NEW_LINE]) * h`. */
  function SourceRows(h: nat, w: nat): seq<TokenType> {
    if h == 0 then [] else SourceRows(h - 1, w) + SourceRow(w)
  }

  lemma {:induction false} SourceRowsAt(h: nat, w: nat, r: nat, c: nat)
    requires r < h && c <= w
    ensures |SourceRows(h, w)| == Index(h, 0, w + 1) && Index(r, c, w + 1) < |SourceRows(h, w)|
    ensures SourceRows(h, w)[Index(r, c, w + 1)] == TypeOf(Cell(r, c), h, w)
  {
    SourceRowsLength(h - 1, w);
    assert Index(h, 0, w + 1) == Index(h - 1, 0, w + 1) + (w + 1);
    if r < h - 1 {
      SourceRowsAt(h - 1, w, r, c);
    }
  }

  lemma {:induction false} SourceRowsLength(h: nat, w: nat)
    ensures |SourceRows(h, w)| == Index(h, 0, w + 1)
  {
    if h > 0 {
      SourceRowsLength(h - 1, w);
      assert Index(h, 0, w + 1) == Index(h - 1, 0, w + 1) + (w + 1);
    }
  }

  /** `types`, padded to an even number of rows. */
  function SourceTypes(h: nat, w: nat): seq<TokenType> {
    SourceRows(h, w) + Repeat(ImagePad, (w + 1) * (h % 2))
  }

  lemma SourceTypesAt(h: nat, w: nat, r: nat, c: nat)
    requires r < RowsOf(h) && c <= w
    ensures Index(r, c, w + 1) < |SourceTypes(h, w)|
    ensures SourceTypes(h, w)[Index(r, c, w + 1)] == TypeOf(Cell(r, c), h, w)
  {
    SourceRowsLength(h, w);
    if r < h {
      SourceRowsAt(h, w, r, c);
    } else {
      assert r == h && h % 2 == 1;
      assert Index(r, c, w + 1) == Index(h, 0, w + 1) + c;
      assert (w + 1) * (h % 2) == w + 1;
    }
  }

  /** `order`: pairs of rows, column by column, upper cell first. */
  method TransposedOrder(h: nat, w: nat) returns (order: seq<nat>)
    ensures order == Indices(CellOrder(RowsOf(h) / 2, w + 1), w + 1)
  {
    var rowLen := w + 1;
    order := [];
    for p := 0 to RowsOf(h) / 2
      invariant order == Indices(CellOrder(p, rowLen), rowLen)
    {
      ghost var before := CellOrder(p, rowLen);
      for c := 0 to rowLen
        invariant order == Indices(before + PairCells(p, c), rowLen)
      {
        ghost var cells := before + PairCells(p, c);
        for r := 0 to 2
          invariant order == Indices(cells + [Cell(2 * p, c), Cell(2 * p + 1, c)][..r], rowLen)
        {
          order := order + [(p * 2 + r) * rowLen + c];
          assert Index(2 * p + r, c, rowLen) == (p * 2 + r) * rowLen + c;
        }
        assert cells + [Cell(2 * p, c), Cell(2 * p + 1, c)][..2] == before + PairCells(p, c + 1);
      }
    }
  }

  const NO_ROW: int := -1

  /** The aligner row of a cell, `-1` if it is no image cell. */
  function RowOfCell(x: Cell, h: nat, w: nat): int {
    if IsImage(x, h, w) then Index(x.r, x.c, w) else NO_ROW
  }

  /** `image_idx`: the image cells numbered in row-major order, everything else `-1`. */
  method ImageIndex(h: nat, w: nat) returns (idx: seq<int>)
    ensures |idx| == RowsOf(h) * (w + 1)
    ensures forall x: Cell :: x.r < RowsOf(h) && x.c <= w ==>
              Index(x.r, x.c, w + 1) < |idx| && idx[Index(x.r, x.c, w + 1)] == RowOfCell(x, h, w)
  {
    var rows, rowLen := RowsOf(h), w + 1;
    idx := seq(rows * rowLen, _ => NO_ROW);
    forall x: Cell | x.r < rows && x.c < rowLen
      ensures Index(x.r, x.c, rowLen) < |idx|
    {
      IndexBound(x.r, x.c, rows, rowLen);
    }
    for r := 0 to h
      invariant |idx| == rows * rowLen
      invariant forall x: Cell :: x.r < rows && x.c < rowLen ==>
                  Index(x.r, x.c, rowLen) < |idx| && idx[Index(x.r, x.c, rowLen)] == RowOfCell(x, r, w)
    {
      idx := NumberRow(idx, r, rows, w);
    }
  }

  /** The inner loop: row `r` is numbered. */
  method NumberRow(idx0: seq<int>, r: nat, rows: nat, w: nat) returns (idx: seq<int>)
    requires r < rows && |idx0| == rows * (w + 1)
    requires forall x: Cell :: x.r < rows && x.c < w + 1 ==>
               Index(x.r, x.c, w + 1) < |idx0| && idx0[Index(x.r, x.c, w + 1)] == RowOfCell(x, r, w)
    ensures |idx| == rows * (w + 1)
    ensures forall x: Cell :: x.r < rows && x.c < w + 1 ==>
              Index(x.r, x.c, w + 1) < |idx| && idx[Index(x.r, x.c, w + 1)] == RowOfCell(x, r + 1, w)
  {
    idx := idx0;
    for c := 0 to w
      invariant |idx| == rows * (w + 1)
      invariant forall x: Cell :: x.r < rows && x.c < w + 1 ==>
                  Index(x.r, x.c, w + 1) < |idx| &&
                  idx[Index(x.r, x.c, w + 1)] == if x.r == r && x.c < c then Index(r, x.c, w) else RowOfCell(x, r, w)
    {
      idx := SetCell(idx, Cell(r, c), rows, w + 1, r * w + c);
    }
  }

  /** Assigning one cell changes no other. */
  method SetCell(idx: seq<int>, x: Cell, rows: nat, rowLen: nat, v: int) returns (idx': seq<int>)
    requires |idx| == rows * rowLen && x.r < rows && x.c < rowLen
    ensures |idx'| == |idx| && Index(x.r, x.c, rowLen) < |idx| && idx' == idx[Index(x.r, x.c, rowLen) := v]
    ensures forall y: Cell :: y.r < rows && y.c < rowLen ==>
              Index(y.r, y.c, rowLen) < |idx'| &&
              idx'[Index(y.r, y.c, rowLen)] == if y == x then v else idx[Index(y.r, y.c, rowLen)]
  {
    IndexBound(x.r, x.c, rows, rowLen);
    idx' := idx[x.r * rowLen + x.c := v];
    forall y: Cell | y.r < rows && y.c < rowLen
      ensures Index(y.r, y.c, rowLen) < |idx'|
      ensures idx'[Index(y.r, y.c, rowLen)] == if y == x then v else idx[Index(y.r, y.c, rowLen)]
    {
      IndexBound(y.r, y.c, rows, rowLen);
      if Index(y.r, y.c, rowLen) == Index(x.r, x.c, rowLen) {
        IndexInjective(x, y, rowLen);
      }
    }
  }

  /** Token `k` is cell (`r`, `c`): its type, and for an image the aligner row that the entry of `perm` with
      as many images before it names. */
  ghost predicate IsCell(out: seq<TokenType>, perm: seq<nat>, h: nat, w: nat, r: nat, c: nat, k: nat) {
    && k < |out|
    && out[k] == (if r >= h then ImagePad else if c < w then Image else ImageNewLine)
    && (r < h && c < w ==>
          var i := multiset(out[..k])[Image]; i < |perm| && perm[i] == r * w + c)
  }

  /** The rows come in pairs, after `lead` tokens, each pair column by column, upper cell first. */
  ghost predicate CellRight(out: seq<TokenType>, perm: seq<nat>, h: nat, w: nat, lead: nat, r: nat, c: nat) {
    IsCell(out, perm, h, w, r, c, lead + 2 * (r / 2 * (w + 1) + c) + r % 2)
  }

  /** Pads up to a group of four and a start before the rows, pads and an end after them. */
  ghost predicate Framed(out: seq<TokenType>, h: nat, w: nat, startPos: nat) {
    var lead, rows := 4 - startPos % 4, h + h % 2;
    var tail := if rows / 2 * (w + 1) % 2 == 1 then 2 else 0;
    && |out| == lead + rows * (w + 1) + tail + 1
    && (forall i :: 0 <= i < lead - 1 ==> out[i] == ImagePad) && out[lead - 1] == ImageStart
    && (forall i :: |out| - 1 - tail <= i < |out| - 1 ==> out[i] == ImagePad) && out[|out| - 1] == ImageEnd
  }

  ghost predicate CellsRight(out: seq<TokenType>, perm: seq<nat>, h: nat, w: nat, lead: nat) {
    forall r: nat, c: nat :: r < h + h % 2 && c <= w ==> CellRight(out, perm, h, w, lead, r, c)
  }

  /** The whole block of a grid: the rows in pairs, column by column, framed; each row has its newline and
      each image its aligner row. */
  ghost predicate IsBlock(out: seq<TokenType>, perm: seq<nat>, h: nat, w: nat, startPos: nat) {
    && Framed(out, h, w, startPos) && CellsRight(out, perm, h, w, 4 - startPos % 4)
    && |perm| == h * w && multiset(out)[ImageNewLine] == h && multiset(out)[Image] == h * w
  }

  function BlockOf(h: nat, w: nat, startPos: nat): seq<TokenType> {
    Repeat(ImagePad, CompressPad(startPos)) + [ImageStart] + Body(CellOrder(RowsOf(h) / 2, w + 1), h, w)
    + Repeat(ImagePad, PadLast(h, w)) + [ImageEnd]
  }

  lemma NoneIn(s: seq<TokenType>, x: TokenType, y: TokenType)
    requires x != y && forall i :: 0 <= i < |s| ==> s[i] == x
    ensures multiset(s)[y] == 0
  {
    assert y !in s;
  }

  lemma BlockType(h: nat, w: nat, startPos: nat, r: nat, c: nat, k: nat)
    requires r < RowsOf(h) && c <= w && k == CompressPad(startPos) + 1 + PlaceOf(r, c, w + 1)
    ensures k < |BlockOf(h, w, startPos)| && BlockOf(h, w, startPos)[k] == TypeOf(Cell(r, c), h, w)
  {
    CellPlaced(h, w, r, c);
  }

  lemma ImagesBefore(h: nat, w: nat, startPos: nat, place: nat)
    requires place <= |CellOrder(RowsOf(h) / 2, w + 1)|
    ensures multiset(BlockOf(h, w, startPos)[..CompressPad(startPos) + 1 + place])[Image] ==
            multiset(Body(CellOrder(RowsOf(h) / 2, w + 1)[..place], h, w))[Image]
  {
    var cells, pads := CellOrder(RowsOf(h) / 2, w + 1), Repeat(ImagePad, CompressPad(startPos));
    assert BlockOf(h, w, startPos)[..CompressPad(startPos) + 1 + place] ==
           pads + [ImageStart] + Body(cells[..place], h, w);
    NoneIn(pads, ImagePad, Image);
  }

  lemma BlockCell(h: nat, w: nat, startPos: nat, r: nat, c: nat)
    requires r < RowsOf(h) && c <= w
    ensures CellRight(BlockOf(h, w, startPos), Perm(CellOrder(RowsOf(h) / 2, w + 1), h, w), h, w,
                      CompressPad(startPos) + 1, r, c)
  {
    var lead := CompressPad(startPos) + 1;
    var k := lead + 2 * (r / 2 * (w + 1) + c) + r % 2;
    assert k == lead + PlaceOf(r, c, w + 1);
    PlacedCell(h, w, startPos, r, c, PlaceOf(r, c, w + 1), k);
  }

  lemma PlacedCell(h: nat, w: nat, startPos: nat, r: nat, c: nat, place: nat, k: nat)
    requires r < RowsOf(h) && c <= w && place == PlaceOf(r, c, w + 1) && k == CompressPad(startPos) + 1 + place
    ensures IsCell(BlockOf(h, w, startPos), Perm(CellOrder(RowsOf(h) / 2, w + 1), h, w), h, w, r, c, k)
  {
    CellPlaced(h, w, r, c);
    BlockType(h, w, startPos, r, c, k);
    if r < h && c < w {
      PermAt(CellOrder(RowsOf(h) / 2, w + 1), h, w, place);
      ImagesBefore(h, w, startPos, place);
    }
  }

  lemma CountParts(a: seq<TokenType>, b: seq<TokenType>, c: seq<TokenType>, d: seq<TokenType>, e: seq<TokenType>,
                   x: TokenType)
    ensures multiset(a + b + c + d + e)[x] ==
            multiset(a)[x] + multiset(b)[x] + multiset(c)[x] + multiset(d)[x] + multiset(e)[x]
  {
  }

  lemma BlockCount(h: nat, w: nat, startPos: nat, x: TokenType)
    requires x == ImageNewLine || x == Image
    ensures multiset(BlockOf(h, w, startPos))[x] == multiset(Body(CellOrder(RowsOf(h) / 2, w + 1), h, w))[x]
  {
    var lead, tail := Repeat(ImagePad, CompressPad(startPos)), Repeat(ImagePad, PadLast(h, w));
    CountParts(lead, [ImageStart], Body(CellOrder(RowsOf(h) / 2, w + 1), h, w), tail, [ImageEnd], x);
    NoneIn(lead, ImagePad, x);
    NoneIn(tail, ImagePad, x);
  }

  lemma RowsCount(h: nat, w: nat)
    ensures var cells := CellOrder(RowsOf(h) / 2, w + 1);
            multiset(Body(cells, h, w))[Image] == |Perm(cells, h, w)| == h * w
  {
    PermSize(CellOrder(RowsOf(h) / 2, w + 1), h, w);
    PermIsPermutation(h, w);
    AllRows(Perm(CellOrder(RowsOf(h) / 2, w + 1), h, w), h * w);
  }

  lemma AllNewLines(h: nat, w: nat)
    ensures multiset(Body(CellOrder(RowsOf(h) / 2, w + 1), h, w))[ImageNewLine] == h
  {
    var pairs := RowsOf(h) / 2;
    assert 2 * pairs == h + h % 2;
    NewLines(pairs, h, w);
  }

  lemma BlockCounts(h: nat, w: nat, startPos: nat)
    ensures multiset(BlockOf(h, w, startPos))[ImageNewLine] == h
    ensures multiset(BlockOf(h, w, startPos))[Image] == h * w == |Perm(CellOrder(RowsOf(h) / 2, w + 1), h, w)|
  {
    BlockCount(h, w, startPos, ImageNewLine);
    BlockCount(h, w, startPos, Image);
    AllNewLines(h, w);
    RowsCount(h, w);
  }

  lemma BlockEnds(h: nat, w: nat, startPos: nat)
    ensures Framed(BlockOf(h, w, startPos), h, w, startPos)
  {
    CellOrderLength(RowsOf(h) / 2, w + 1);
    TwiceTimes(RowsOf(h) / 2, w + 1);
  }

  lemma BlockCells(h: nat, w: nat, startPos: nat)
    ensures CellsRight(BlockOf(h, w, startPos), Perm(CellOrder(RowsOf(h) / 2, w + 1), h, w), h, w, 4 - startPos % 4)
  {
    var out, perm, lead := BlockOf(h, w, startPos), Perm(CellOrder(RowsOf(h) / 2, w + 1), h, w), 4 - startPos % 4;
    forall r: nat, c: nat | r < h + h % 2 && c <= w
      ensures CellRight(out, perm, h, w, lead, r, c)
    {
      BlockCell(h, w, startPos, r, c);
    }
  }

  lemma BlockIs(h: nat, w: nat, startPos: nat)
    ensures IsBlock(BlockOf(h, w, startPos), Perm(CellOrder(RowsOf(h) / 2, w + 1), h, w), h, w, startPos)
  {
    BlockEnds(h, w, startPos);
    BlockCells(h, w, startPos);
    BlockCounts(h, w, startPos);
  }

  /** The rows start at and span a multiple of four positions. */
  predicate Aligned(n: nat, startPos: nat) {
    (startPos + CompressPad(startPos) + 1) % 4 == 0 && (n - CompressPad(startPos) - 2) % 4 == 0
  }

  lemma BlockLength(h: nat, w: nat, startPos: nat)
    ensures var out := BlockOf(h, w, startPos);
            && |out| == CompressPad(startPos) + CountTokens(h, w)
            && Aligned(|out|, startPos)
  {
    BodyLength(h, w);
    AlignedStart(startPos);
  }

  /** `build_image_block`: leading pads up to the last position of a group of four, start, the
      interleaved rows, trailing pads, end. */
  method BuildImageBlock(h: nat, w: nat, startPos: nat) returns (out: seq<TokenType>, perm: seq<nat>)
    ensures out == BlockOf(h, w, startPos) && perm == Perm(CellOrder(RowsOf(h) / 2, w + 1), h, w)
    ensures IsBlock(out, perm, h, w, startPos)
    ensures |out| == CompressPad(startPos) + CountTokens(h, w)
    ensures Aligned(|out|, startPos)
    ensures RowsOnce(perm, h * w)
  {
    var body: seq<TokenType>;
    body, perm := GatherBody(h, w);
    out := Repeat(ImagePad, CompressPad(startPos)) + [ImageStart] + body + Repeat(ImagePad, PadLast(h, w)) + [ImageEnd];
    assert out == BlockOf(h, w, startPos);
    BlockIs(h, w, startPos);
    BlockLength(h, w, startPos);
    PermIsPermutation(h, w);
  }

  lemma BodyLength(h: nat, w: nat)
    ensures var body := Body(CellOrder(RowsOf(h) / 2, w + 1), h, w);
            CountTokens(h, w) == 1 + |body| + PadLast(h, w) + 1 && (|body| + PadLast(h, w)) % 4 == 0
  {
    CellOrderLength(RowsOf(h) / 2, w + 1);
    BlockArithmetic(h, w);
  }

  /** `[types[o] for o in order]` and `[image_idx[o] for o in order if image_idx[o] >= 0]`. */
  method GatherBody(h: nat, w: nat) returns (body: seq<TokenType>, perm: seq<nat>)
    ensures var cells := CellOrder(RowsOf(h) / 2, w + 1); body == Body(cells, h, w) && perm == Perm(cells, h, w)
  {
    ghost var cells := CellOrder(RowsOf(h) / 2, w + 1);
    var types := SourceTypes(h, w);
    var order := TransposedOrder(h, w);
    var idx := ImageIndex(h, w);
    CellOrderMembers(RowsOf(h) / 2, w + 1);
    body, perm := [], [];
    for k := 0 to |order|
      invariant perm == Perm(cells[..k], h, w) && body == Body(cells[..k], h, w)
    {
      var o := order[k];
      assert cells[k] in cells;
      SourceTypesAt(h, w, cells[k].r, cells[k].c);
      GatherStep(cells, k, h, w);
      body, perm := GatherCell(types, idx, o, body, perm, cells[k], h, w);
    }
    assert cells[..|order|] == cells;
  }

  method GatherCell(types: seq<TokenType>, idx: seq<int>, o: nat, body: seq<TokenType>, perm: seq<nat>, ghost x: Cell,
                    ghost h: nat, ghost w: nat)
    returns (body': seq<TokenType>, perm': seq<nat>)
    requires o < |types| && o < |idx| && types[o] == TypeOf(x, h, w) && idx[o] == RowOfCell(x, h, w)
    ensures body' == body + [TypeOf(x, h, w)]
    ensures perm' == if IsImage(x, h, w) then perm + [Index(x.r, x.c, w)] else perm
  {
    body', perm' := body + [types[o]], perm;
    if idx[o] >= 0 {
      perm' := perm' + [idx[o]];
    }
  }

  lemma GatherStep(cells: seq<Cell>, k: nat, h: nat, w: nat)
    requires k < |cells|
    ensures Body(cells[..k + 1], h, w) == Body(cells[..k], h, w) + [TypeOf(cells[k], h, w)]
    ensures Perm(cells[..k + 1], h, w) ==
            if IsImage(cells[k], h, w) then Perm(cells[..k], h, w)
                + [Index(cells[k].r, cells[k].c, w)] else Perm(cells[..k], h, w)
  {
    assert cells[..k + 1][..k] == cells[..k];
  }
}
