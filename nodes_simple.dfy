/**
 * The three simple nodes of `nodes_simple.py`: each works out an approximate
 * (unrounded) width and height and hands them to the rounding step
 * `Funcs.SimpleResultFromApproxWh`. Widget inputs for sizes are at least 1.
 */
module NodesSimple {
  import opened Funcs

  /** `BestResolutionSimple.main`: the requested width and height are the approximate size as they are. */
  function BestResolutionSimple(width: int, height: int, step: int): (r: (int, int))
    requires width >= 1 && height >= 1
    ensures var s := NumberToInt(Int(step), 1);
      r.0 >= s && r.1 >= s && r.0 % s == 0 && r.1 % s == 0
    ensures var c := ClosestToRatio(width as real, height as real, NumberToInt(Int(step), 1));
      r == (c.width, c.height)
  {
    SimpleResultFromApproxWh(width as real, height as real, Int(step))
  }

  /** A width and height already on the step grid pass through the simple node unchanged. */
  lemma BestResolutionSimpleKeepsGrid(a: int, b: int, step: int)
    requires a >= 1 && b >= 1 && step >= 1
    ensures step * a >= 1 && step * b >= 1
    ensures BestResolutionSimple(step * a, step * b, step) == (step * a, step * b)
  {
    SimpleResultKeepsGridInput(a, b, step);
  }

  /** The side derived from `size`: scaled down by small/big when `size` is the big side, else up by big/small. */
  function OtherSide(size: real, sizeIsBig: bool, big: real, small: real): (other: real)
    requires big >= small >= 1.0
    ensures sizeIsBig ==> other * big == size * small
    ensures !sizeIsBig ==> other * small == size * big
  {
    size * (if sizeIsBig then small / big else big / small)
  }

  /** For a non-negative size, the derived side is at most `size` when `size` is big and at least it otherwise. */
  lemma OtherSideBound(size: real, sizeIsBig: bool, big: real, small: real)
    requires big >= small >= 1.0 && size >= 0.0
    ensures sizeIsBig ==> OtherSide(size, sizeIsBig, big, small) <= size
    ensures !sizeIsBig ==> OtherSide(size, sizeIsBig, big, small) >= size
  {
    var other := OtherSide(size, sizeIsBig, big, small);
    if sizeIsBig {
      assert other * big <= size * big;
    } else {
      assert other * small >= size * small;
    }
  }

  /**
   * The approximate width and height of `BestResolutionFromAspectRatio.main`:
   * `size` and the derived side, the larger as width for landscape and as
   * height for portrait.
   */
  function ApproxSizeFromAspect(size: int, sizeIsBig: bool, landscape: bool, aspectA: real, aspectB: real): (r: (real, real))
    ensures landscape ==> r.0 >= r.1
    ensures !landscape ==> r.0 <= r.1
    ensures var sorted := AspectRatiosSorted(aspectA, aspectB);
      var main, other := size as real, OtherSide(size as real, sizeIsBig, sorted.0, sorted.1);
      (r.0 == main && r.1 == other) || (r.0 == other && r.1 == main)
  {
    var sorted := AspectRatiosSorted(aspectA, aspectB);
    OrientedSides(size as real, sizeIsBig, landscape, sorted.0, sorted.1)
  }

  /** The given and the derived side, the larger first for landscape and second for portrait. */
  function OrientedSides(sideMain: real, sizeIsBig: bool, landscape: bool, big: real, small: real): (r: (real, real))
    requires big >= small >= 1.0
    ensures landscape ==> r.0 >= r.1
    ensures !landscape ==> r.0 <= r.1
    ensures var other := OtherSide(sideMain, sizeIsBig, big, small);
      (r.0 == sideMain && r.1 == other) || (r.0 == other && r.1 == sideMain)
  {
    var sideOther := OtherSide(sideMain, sizeIsBig, big, small);
    var wh := if sideOther > sideMain then (sideOther, sideMain) else (sideMain, sideOther);
    if landscape then wh else (wh.1, wh.0)
  }

  /** The larger side of `r` over the smaller is `big / small`. */
  predicate InRatio(r: (real, real), big: real, small: real)
  {
    MaxR(r.0, r.1) * small == MinR(r.0, r.1) * big
  }

  /** The larger approximate side over the smaller is the sorted aspect ratio big/small. */
  lemma ApproxSizeKeepsRatio(size: int, sizeIsBig: bool, landscape: bool, aspectA: real, aspectB: real)
    requires size >= 0
    ensures var sorted := AspectRatiosSorted(aspectA, aspectB);
      InRatio(ApproxSizeFromAspect(size, sizeIsBig, landscape, aspectA, aspectB), sorted.0, sorted.1)
  {
    var sorted := AspectRatiosSorted(aspectA, aspectB);
    OrientedSidesRatio(size as real, sizeIsBig, landscape, sorted.0, sorted.1);
  }

  lemma OrientedSidesRatio(sideMain: real, sizeIsBig: bool, landscape: bool, big: real, small: real)
    requires big >= small >= 1.0 && sideMain >= 0.0
    ensures InRatio(OrientedSides(sideMain, sizeIsBig, landscape, big, small), big, small)
  {
    var other := OtherSide(sideMain, sizeIsBig, big, small);
    OtherSideBound(sideMain, sizeIsBig, big, small);
    PairRatio(OrientedSides(sideMain, sizeIsBig, landscape, big, small), sideMain, other, big, small, sizeIsBig);
  }

  lemma PairRatio(r: (real, real), main: real, other: real, big: real, small: real, sizeIsBig: bool)
    requires (r.0 == main && r.1 == other) || (r.0 == other && r.1 == main)
    requires big >= small >= 1.0
    requires sizeIsBig ==> other * big == main * small && other <= main
    requires !sizeIsBig ==> other * small == main * big && other >= main
    ensures InRatio(r, big, small)
  {
    assert MaxR(r.0, r.1) == MaxR(main, other) && MinR(r.0, r.1) == MinR(main, other);
    SortedPairRatio(main, other, big, small, sizeIsBig);
  }

  lemma SortedPairRatio(main: real, other: real, big: real, small: real, sizeIsBig: bool)
    requires big >= small >= 1.0
    requires sizeIsBig ==> other * big == main * small && other <= main
    requires !sizeIsBig ==> other * small == main * big && other >= main
    ensures MaxR(main, other) * small == MinR(main, other) * big
  {
    if !sizeIsBig && other == main {
      assert main * small == other * small;
    }
  }

  /** For a positive size both approximate sides are positive. */
  lemma ApproxSizePositive(size: int, sizeIsBig: bool, landscape: bool, aspectA: real, aspectB: real)
    requires size >= 1
    ensures var r := ApproxSizeFromAspect(size, sizeIsBig, landscape, aspectA, aspectB);
      r.0 > 0.0 && r.1 > 0.0
  {
    var sorted := AspectRatiosSorted(aspectA, aspectB);
    var main := size as real;
    var other := OtherSide(main, sizeIsBig, sorted.0, sorted.1);
    if sizeIsBig {
      assert other * sorted.0 > 0.0;
    } else {
      assert other * sorted.1 > 0.0;
    }
  }

  /** `BestResolutionFromAspectRatio.main`: the approximate size, rounded to the step grid. */
  function BestResolutionFromAspectRatio(size: int, step: int, sizeIsBig: bool, landscape: bool, aspectA: real, aspectB: real)
    : (r: (int, int))
    requires size >= 1
    ensures var s := NumberToInt(Int(step), 1);
      r.0 >= s && r.1 >= s && r.0 % s == 0 && r.1 % s == 0
    ensures var wh := ApproxSizeFromAspect(size, sizeIsBig, landscape, aspectA, aspectB);
      wh.0 > 0.0 && wh.1 > 0.0 &&
      var c := ClosestToRatio(wh.0, wh.1, NumberToInt(Int(step), 1));
      r == (c.width, c.height)
  {
    ApproxSizePositive(size, sizeIsBig, landscape, aspectA, aspectB);
    var wh := ApproxSizeFromAspect(size, sizeIsBig, landscape, aspectA, aspectB);
    SimpleResultFromApproxWh(wh.0, wh.1, Int(step))
  }

  /**
   * The approximate width and height of `BestResolutionFromArea.main`: the
   * square size is first made an int of at least 1, then expanded to a
   * rectangle of the same area with the requested aspect ratio. `root` is the
   * square root of the sorted aspect values' product.
   */
  function ApproxSizeFromArea(squareSize: Number, landscape: bool, aspectA: real, aspectB: real, root: real): (r: (real, real))
    requires root > 0.0 && root * root == AspectArea(aspectA, aspectB)
    ensures var side := NumberToInt(squareSize, 1);
      side >= 1 && r.0 > 0.0 && r.1 > 0.0 && r.0 * r.1 == (side * side) as real
    ensures r == FloatWidthHeightFromArea(NumberToInt(squareSize, 1) as real, landscape, aspectA, aspectB, root)
  {
    var side := NumberToInt(squareSize, 1);
    FloatWidthHeightPositive(side as real, landscape, aspectA, aspectB, root);
    IntMulReal(side, side);
    FloatWidthHeightFromArea(side as real, landscape, aspectA, aspectB, root)
  }

  /** `BestResolutionFromArea.main`: the approximate size, rounded to the step grid. */
  function BestResolutionFromArea(squareSize: Number, step: int, landscape: bool, aspectA: real, aspectB: real, root: real)
    : (r: (int, int))
    requires root > 0.0 && root * root == AspectArea(aspectA, aspectB)
    ensures var s := NumberToInt(Int(step), 1);
      r.0 >= s && r.1 >= s && r.0 % s == 0 && r.1 % s == 0
    ensures var wh := ApproxSizeFromArea(squareSize, landscape, aspectA, aspectB, root);
      var c := ClosestToRatio(wh.0, wh.1, NumberToInt(Int(step), 1));
      r == (c.width, c.height)
  {
    var wh := ApproxSizeFromArea(squareSize, landscape, aspectA, aspectB, root);
    SimpleResultFromApproxWh(wh.0, wh.1, Int(step))
  }
}
