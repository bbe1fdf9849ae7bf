/**
 * Step rounding, the ratio-preserving resolution solver and the
 * area/aspect expansion of `_funcs.py`.
 *
 * Python floats are modelled as `real`; Python's `int(x)` on a float
 * truncates toward zero and is written out as `Trunc`.
 */
module Funcs {

  /** A number as the nodes receive it: a Python `int` or a Python `float`. */
  datatype Number = Int(i: int) | Float(f: real)

  function Max(a: int, b: int): int { if a >= b then a else b }
  function Min(a: int, b: int): int { if a <= b then a else b }
  function MaxR(a: real, b: real): real { if a >= b then a else b }
  function MinR(a: real, b: real): real { if a <= b then a else b }
  function Abs(x: real): real { if x < 0.0 then -x else x }

  /** Python's `int(x)` for a float `x`: rounds toward zero. */
  function Trunc(x: real): (n: int)
    ensures 0.0 <= x ==> n as real <= x < n as real + 1.0
    ensures x < 0.0 ==> n as real - 1.0 < x <= n as real
  {
    if x >= 0.0 then x.Floor else -((-x).Floor)
  }

  // ---------------------------------------------------------------------
  // aspect_ratios_sorted

  /** Both aspect values, made non-negative and clamped to `minClamp`, in descending order. */
  function AspectRatiosSorted(aspectA: real, aspectB: real, minClamp: real := 1.0): (r: (real, real))
    ensures r.0 >= r.1 >= minClamp
    ensures var a, b := MaxR(Abs(aspectA), minClamp), MaxR(Abs(aspectB), minClamp);
      (r.0 == a && r.1 == b) || (r.0 == b && r.1 == a)
  {
    var a := MaxR(Abs(aspectA), minClamp);
    var b := MaxR(Abs(aspectB), minClamp);
    if b > a then (b, a) else (a, b)
  }

  /** Sorting an already sorted pair changes nothing. */
  lemma AspectRatiosSortedIdempotent(aspectA: real, aspectB: real, minClamp: real)
    ensures var r := AspectRatiosSorted(aspectA, aspectB, minClamp);
      AspectRatiosSorted(r.0, r.1, minClamp) == r
  {
  }

  // ---------------------------------------------------------------------
  // number_to_int

  /** `int(|v| + 0.5)` with the sign of `v` put back: the integer nearest to `v`, halves away from zero. */
  function RoundHalfAwayFromZero(v: real): (k: int)
    ensures v >= 0.0 ==> k as real - 0.5 <= v < k as real + 0.5
    ensures v < 0.0 ==> k as real - 0.5 < v <= k as real + 0.5
  {
    var sign := if v < 0.0 then -1 else 1;
    Trunc(v * sign as real + 0.5) * sign
  }

  /** An int passes through; a float is rounded half away from zero; then both are clamped to `min`. */
  function NumberToInt(value: Number, min: int := 1): (r: int)
    ensures r >= min
    ensures value.Int? && value.i >= min ==> r == value.i
    ensures value.Float? && RoundHalfAwayFromZero(value.f) >= min ==> r == RoundHalfAwayFromZero(value.f)
    ensures r != min ==> r == (if value.Int? then value.i else RoundHalfAwayFromZero(value.f))
  {
    match value
    case Int(i) => Max(i, min)
    case Float(f) => Max(RoundHalfAwayFromZero(f), min)
  }

  /** Converting an already converted value again gives it back. */
  lemma NumberToIntIdempotent(value: Number, min: int)
    ensures NumberToInt(Int(NumberToInt(value, min)), min) == NumberToInt(value, min)
  {
  }

  // ---------------------------------------------------------------------
  // round_abs

  /**
   * The positive multiple of `step` closest to `absValue`, halves rounded up,
   * and never less than one step: returns (rounded value, number of steps).
   */
  function RoundAbs(absValue: real, step: int): (r: (int, int))
    requires step >= 1
    ensures r.0 == step * r.1 && r.1 >= 1
  {
    var n := Max(Trunc(absValue / step as real + 0.5), 1);
    (step * n, n)
  }

  /**
   * The step count of `RoundAbs` is `value / step` rounded half up, or 1 when
   * that quotient is below one half.
   */
  lemma RoundAbsHalfUp(absValue: real, step: int)
    requires step >= 1
    ensures var q, n := absValue / step as real, RoundAbs(absValue, step).1;
      (q >= 0.5 ==> n as real - 0.5 <= q < n as real + 0.5) && (q < 0.5 ==> n == 1)
  {
    var q := absValue / step as real;
    var t := Trunc(q + 0.5);
    if q >= 0.5 {
      assert t as real <= q + 0.5 < t as real + 1.0;
      assert t >= 1;
    } else if q >= -0.5 {
      assert t == 0;
    } else {
      assert t <= 0;
    }
  }

  /** No positive multiple of `step` is closer to `v` than the one `RoundAbs` picks. */
  lemma RoundAbsIsNearest(v: real, step: int, m: int)
    requires step >= 1 && m >= 1
    ensures Abs((RoundAbs(v, step).0) as real - v) <= Abs((step * m) as real - v)
  {
    var q := v / step as real;
    var n := RoundAbs(v, step).1;
    RoundAbsHalfUp(v, step);
    NearestMultiple(step, q, n, m);
    assert step as real * q == v;
  }

  /** The multiple `step * n`, `n` being `q` rounded half up (at least 1), is the positive multiple closest to `step * q`. */
  lemma NearestMultiple(step: int, q: real, n: int, m: int)
    requires step >= 1 && m >= 1
    requires q >= 0.5 ==> n as real - 0.5 <= q < n as real + 0.5
    requires q < 0.5 ==> n == 1
    ensures Abs((step * n) as real - step as real * q) <= Abs((step * m) as real - step as real * q)
  {
    NearestCount(q, n, m);
    MultipleDistance(step, n, m, q);
  }

  /** Scaling by a positive `step` keeps which of two counts is closer to `q`. */
  lemma MultipleDistance(step: int, n: int, m: int, q: real)
    requires step >= 1 && Abs(n as real - q) <= Abs(m as real - q)
    ensures Abs((step * n) as real - step as real * q) <= Abs((step * m) as real - step as real * q)
  {
    IntMulReal(step, n);
    IntMulReal(step, m);
    ScaledDistance(n as real, m as real, q, step as real);
  }

  /** For `s > 0`: if `a` is closer to `q` than `b`, then `s * a` is closer to `s * q` than `s * b`. */
  lemma ScaledDistance(a: real, b: real, q: real, s: real)
    requires s > 0.0 && Abs(a - q) <= Abs(b - q)
    ensures Abs(s * a - s * q) <= Abs(s * b - s * q)
  {
    ScaledAbs(s, a, q);
    ScaledAbs(s, b, q);
    MulMono(s, Abs(a - q), Abs(b - q));
  }

  lemma ScaledAbs(s: real, a: real, q: real)
    requires s > 0.0
    ensures Abs(s * a - s * q) == s * Abs(a - q)
  {
    assert s * a - s * q == s * (a - q);
    AbsScale(s, a - q, s * a - s * q);
  }

  lemma AbsScale(s: real, d: real, e: real)
    requires s > 0.0 && e == s * d
    ensures Abs(e) == s * Abs(d)
  {
  }

  lemma MulMono(s: real, u: real, v: real)
    requires s > 0.0 && u <= v
    ensures s * u <= s * v
  {
  }

  lemma IntMulReal(a: int, b: int)
    ensures (a * b) as real == a as real * b as real
  {
  }

  /** The step count `RoundAbs` picks is at least as close to `q` as any other positive count. */
  lemma NearestCount(q: real, n: int, m: int)
    requires m >= 1
    requires q >= 0.5 ==> n as real - 0.5 <= q < n as real + 0.5
    requires q < 0.5 ==> n == 1
    ensures Abs(n as real - q) <= Abs(m as real - q)
  {
    if q < 0.5 {
      assert m as real >= 1.0;
    } else if m > n {
      assert m as real >= n as real + 1.0;
    } else if m < n {
      assert m as real <= n as real - 1.0;
    }
  }

  /** A product with `step` leaves no remainder after division by `step`. */
  lemma MultipleHasNoRemainder(step: int, n: int)
    requires step >= 1
    ensures (step * n) % step == 0
  {
    var a := step * n;
    var q, r := a / step, a % step;
    assert a == step * q + r && 0 <= r < step;
    var d := n - q;
    assert step * d == r;
    if d > 0 {
      assert false;
    } else if d < 0 {
      assert false;
    }
  }

  // ---------------------------------------------------------------------
  // round_width_and_height_closest_to_the_ratio

  /** A rounded resolution: width, its number of steps, height, its number of steps. */
  datatype Resolution = Resolution(width: int, nStepsX: int, height: int, nStepsY: int)

  /** Both sides are positive multiples of `step`, and the step counts agree with the sides. */
  predicate OnGrid(c: Resolution, step: int)
  {
    c.nStepsX >= 1 && c.nStepsY >= 1 && c.width == step * c.nStepsX && c.height == step * c.nStepsY
  }

  /** How far the ratio of `c` is from the desired width-to-height ratio. */
  function Deviation(c: Resolution, desired: real): real
    requires c.height != 0
  {
    Abs(c.width as real / c.height as real - desired)
  }

  /**
   * The three candidates in the order the solver considers them: both sides
   * rounded on their own, then the height recomputed from the rounded width,
   * then the width recomputed from the rounded height.
   */
  function Candidates(widthF: real, heightF: real, step: int): (cs: seq<Resolution>)
    requires widthF > 0.0 && heightF > 0.0 && step >= 1
    ensures |cs| == 3
    ensures forall k :: 0 <= k < 3 ==> OnGrid(cs[k], step) && cs[k].height >= step
  {
    var desired := widthF / heightF;
    var w := RoundAbs(widthF, step);
    var h := RoundAbs(heightF, step);
    var hFromW := RoundAbs(w.0 as real / desired, step);
    var wFromH := RoundAbs(h.0 as real * desired, step);
    StepMultipleAtLeast(step, h.1);
    StepMultipleAtLeast(step, hFromW.1);
    [ Resolution(w.0, w.1, h.0, h.1),
      Resolution(w.0, w.1, hFromW.0, hFromW.1),
      Resolution(wFromH.0, wFromH.1, h.0, h.1) ]
  }

  /** Every candidate has a positive height, so its deviation is defined. */
  predicate PositiveHeights(cs: seq<Resolution>)
  {
    forall k :: 0 <= k < |cs| ==> cs[k].height > 0
  }

  /**
   * The index of the first candidate whose deviation is smallest: a later
   * candidate is chosen only when it is strictly closer.
   */
  function FirstClosest(cs: seq<Resolution>, desired: real): (k: nat)
    requires |cs| >= 1 && PositiveHeights(cs)
    ensures k < |cs|
    ensures forall j :: 0 <= j < |cs| ==> Deviation(cs[k], desired) <= Deviation(cs[j], desired)
    ensures forall j :: 0 <= j < k ==> Deviation(cs[j], desired) > Deviation(cs[k], desired)
    decreases |cs|
  {
    if |cs| == 1 then 0
    else
      var k := FirstClosest(cs[..|cs| - 1], desired);
      if Deviation(cs[|cs| - 1], desired) < Deviation(cs[k], desired) then |cs| - 1 else k
  }

  /** Extending the candidates by one: the new one is chosen only when strictly closer than the current choice. */
  lemma FirstClosestSnoc(cs: seq<Resolution>, i: nat, desired: real)
    requires 1 <= i < |cs| && PositiveHeights(cs)
    ensures var k := FirstClosest(cs[..i], desired);
      FirstClosest(cs[..i + 1], desired) ==
        if Deviation(cs[i], desired) < Deviation(cs[k], desired) then i else k
  {
    assert cs[..i + 1][..i] == cs[..i];
  }

  /**
   * The solver's answer: the first of the three candidates whose ratio is
   * closest to the desired one. It is always on the step grid.
   */
  function ClosestToRatio(widthF: real, heightF: real, step: int): (r: Resolution)
    requires widthF > 0.0 && heightF > 0.0 && step >= 1
    ensures OnGrid(r, step) && r.width >= step && r.height >= step
  {
    var cs := Candidates(widthF, heightF, step);
    assert PositiveHeights(cs);
    var k := FirstClosest(cs, widthF / heightF);
    assert OnGrid(cs[k], step);
    StepMultipleAtLeast(step, cs[k].nStepsX);
    cs[k]
  }

  lemma StepMultipleAtLeast(step: int, n: int)
    requires step >= 1 && n >= 1
    ensures step * n >= step
  {
    assert step * n == step + step * (n - 1);
  }

  /** No candidate, in particular not the independently rounded pair, is closer to the desired ratio. */
  lemma ClosestToRatioIsClosest(widthF: real, heightF: real, step: int, k: nat)
    requires widthF > 0.0 && heightF > 0.0 && step >= 1 && k < 3
    ensures var d := widthF / heightF;
      Deviation(ClosestToRatio(widthF, heightF, step), d) <= Deviation(Candidates(widthF, heightF, step)[k], d)
  {
    var cs := Candidates(widthF, heightF, step);
    var i := FirstClosest(cs, widthF / heightF);
    assert ClosestToRatio(widthF, heightF, step) == cs[i];
  }

  /** A later candidate replaces an earlier one only when strictly closer: the first pass wins all ties. */
  lemma ClosestToRatioPrefersFirstPass(widthF: real, heightF: real, step: int)
    requires widthF > 0.0 && heightF > 0.0 && step >= 1
    ensures var cs, d := Candidates(widthF, heightF, step), widthF / heightF;
      Deviation(cs[0], d) <= Deviation(cs[1], d) && Deviation(cs[0], d) <= Deviation(cs[2], d) ==>
      ClosestToRatio(widthF, heightF, step) == cs[0]
  {
    var cs := Candidates(widthF, heightF, step);
    var i := FirstClosest(cs, widthF / heightF);
    assert ClosestToRatio(widthF, heightF, step) == cs[i];
  }

  /** The width-kept candidate beats the height-kept one on a tie. */
  lemma ClosestToRatioPrefersWidthKept(widthF: real, heightF: real, step: int)
    requires widthF > 0.0 && heightF > 0.0 && step >= 1
    ensures var cs, d := Candidates(widthF, heightF, step), widthF / heightF;
      Deviation(cs[1], d) < Deviation(cs[0], d) && Deviation(cs[1], d) <= Deviation(cs[2], d) ==>
      ClosestToRatio(widthF, heightF, step) == cs[1]
  {
    var cs := Candidates(widthF, heightF, step);
    var i := FirstClosest(cs, widthF / heightF);
    assert ClosestToRatio(widthF, heightF, step) == cs[i];
  }

  /**
   * The solver as written in the source: round both sides, derive the two
   * alternatives, then walk the alternatives and keep one only when it is
   * strictly closer to the desired ratio.
   */
  method RoundClosestToRatio(widthF: real, heightF: real, step: int)
    returns (width: int, nStepsX: int, height: int, nStepsY: int)
    requires widthF > 0.0 && heightF > 0.0 && step >= 1
    ensures Resolution(width, nStepsX, height, nStepsY) == ClosestToRatio(widthF, heightF, step)
  {
    var desired := widthF / heightF;
    var cs := Candidates(widthF, heightF, step);
    width, nStepsX, height, nStepsY := cs[0].width, cs[0].nStepsX, cs[0].height, cs[0].nStepsY;
    assert cs[..1] == [cs[0]];
    assert PositiveHeights(cs);

    var closestDelta := Deviation(cs[0], desired);
    ghost var k := 0;
    for i := 1 to |cs|
      invariant k == FirstClosest(cs[..i], desired)
      invariant Resolution(width, nStepsX, height, nStepsY) == cs[k]
      invariant closestDelta == Deviation(cs[k], desired)
    {
      var c := cs[i];
      FirstClosestSnoc(cs, i, desired);
      var curDelta := Deviation(c, desired);
      if curDelta < closestDelta {
        closestDelta := curDelta;
        width, nStepsX := c.width, c.nStepsX;
        height, nStepsY := c.height, c.nStepsY;
        k := i;
      }
    }
    assert cs[..3] == cs;
  }

  /** A side that is already a positive multiple of `step` is kept exactly by `RoundAbs`. */
  lemma RoundAbsOnGrid(n: int, step: int)
    requires n >= 1 && step >= 1
    ensures RoundAbs((step * n) as real, step) == (step * n, n)
  {
    assert (step * n) as real / step as real == n as real;
    assert Trunc(n as real + 0.5) == n;
  }

  /** A resolution already on the step grid is returned unchanged by the solver. */
  lemma ClosestToRatioKeepsGridInput(a: int, b: int, step: int)
    requires a >= 1 && b >= 1 && step >= 1
    ensures ClosestToRatio((step * a) as real, (step * b) as real, step) == Resolution(step * a, a, step * b, b)
  {
    var wf, hf := (step * a) as real, (step * b) as real;
    RoundAbsOnGrid(a, step);
    RoundAbsOnGrid(b, step);
    var cs := Candidates(wf, hf, step);
    assert cs[0] == Resolution(step * a, a, step * b, b);
    assert Deviation(cs[0], wf / hf) == 0.0;
  }

  // ---------------------------------------------------------------------
  // float_width_height_from_area

  /** The area of the rectangle spanned by the two sorted aspect values. */
  function AspectArea(aspectA: real, aspectB: real): (area: real)
    ensures area >= 1.0
  {
    var sorted := AspectRatiosSorted(aspectA, aspectB);
    assert sorted.0 >= 1.0 && sorted.1 >= 1.0;
    sorted.0 * sorted.1
  }

  /**
   * The unrounded rectangle with the area of a `squareSize`-sided square and
   * the requested aspect ratio and orientation. `root` is the positive square
   * root of `AspectArea(aspectA, aspectB)`, which the source takes from
   * `math.sqrt`.
   */
  function FloatWidthHeightFromArea(squareSize: real, landscape: bool, aspectA: real, aspectB: real, root: real)
    : (r: (real, real))
    requires root > 0.0 && root * root == AspectArea(aspectA, aspectB)
    ensures r.0 * r.1 == squareSize * squareSize
  {
    var sorted := AspectRatiosSorted(aspectA, aspectB);
    var aspectX := if landscape then sorted.0 else sorted.1;
    var aspectY := if landscape then sorted.1 else sorted.0;
    var normScale := 1.0 / root;
    var x := aspectX * normScale;
    var y := aspectY * normScale;
    var widthF := x * squareSize;
    var heightF := y * squareSize;
    assert normScale * root == 1.0;
    UnitArea(aspectX, aspectY, root, normScale);
    Ring(x, y, squareSize);
    (widthF, heightF)
  }

  /** The expanded rectangle keeps the requested aspect ratio, oriented as requested. */
  lemma FloatWidthHeightKeepsRatio(squareSize: real, landscape: bool, aspectA: real, aspectB: real, root: real)
    requires root > 0.0 && root * root == AspectArea(aspectA, aspectB)
    ensures var r, sorted := FloatWidthHeightFromArea(squareSize, landscape, aspectA, aspectB, root),
                             AspectRatiosSorted(aspectA, aspectB);
      if landscape then r.0 * sorted.1 == r.1 * sorted.0 else r.0 * sorted.0 == r.1 * sorted.1
  {
    var sorted := AspectRatiosSorted(aspectA, aspectB);
    RatioKept(sorted.0, sorted.1, (1.0 / root) * squareSize);
    RatioKept(sorted.1, sorted.0, (1.0 / root) * squareSize);
  }

  /** For a non-negative square side, a landscape rectangle is at least as wide as tall, a portrait one at most. */
  lemma FloatWidthHeightOrientation(squareSize: real, landscape: bool, aspectA: real, aspectB: real, root: real)
    requires root > 0.0 && root * root == AspectArea(aspectA, aspectB) && squareSize >= 0.0
    ensures var r := FloatWidthHeightFromArea(squareSize, landscape, aspectA, aspectB, root);
      if landscape then r.0 >= r.1 else r.0 <= r.1
  {
    var sorted := AspectRatiosSorted(aspectA, aspectB);
    OrientationKept(sorted.0, sorted.1, 1.0 / root, squareSize);
    OrientationKept(sorted.1, sorted.0, 1.0 / root, squareSize);
  }

  /** A positive square size expands to a positive width and height. */
  lemma FloatWidthHeightPositive(squareSize: real, landscape: bool, aspectA: real, aspectB: real, root: real)
    requires root > 0.0 && root * root == AspectArea(aspectA, aspectB) && squareSize > 0.0
    ensures var r := FloatWidthHeightFromArea(squareSize, landscape, aspectA, aspectB, root);
      r.0 > 0.0 && r.1 > 0.0
  {
    var sorted := AspectRatiosSorted(aspectA, aspectB);
    var k := 1.0 / root;
    assert k > 0.0;
    PositiveProduct(sorted.0, k, squareSize);
    PositiveProduct(sorted.1, k, squareSize);
  }

  lemma PositiveProduct(x: real, k: real, s: real)
    requires x > 0.0 && k > 0.0 && s > 0.0
    ensures x * k * s > 0.0
  {
    assert x * k > 0.0;
  }

  /** Scaling both aspect values by the inverse square root of their product gives a unit area. */
  lemma UnitArea(x: real, y: real, root: real, k: real)
    requires root * root == x * y && k * root == 1.0
    ensures (x * k) * (y * k) == 1.0
  {
    assert (x * k) * (y * k) == (x * y) * (k * k);
    assert (root * root) * (k * k) == (k * root) * (k * root);
  }

  lemma Ring(a: real, b: real, s: real)
    ensures (a * s) * (b * s) == (a * b) * (s * s)
  {
  }

  lemma RatioKept(x: real, y: real, c: real)
    ensures x * c * y == y * c * x
  {
  }

  lemma OrientationKept(x: real, y: real, k: real, s: real)
    requires k > 0.0
    ensures s >= 0.0 && x >= y ==> x * k * s >= y * k * s
    ensures s >= 0.0 && x <= y ==> x * k * s <= y * k * s
  {
    assert x * k * s - y * k * s == (x - y) * (k * s);
    if s >= 0.0 {
      assert k * s >= 0.0;
    }
  }

  // ---------------------------------------------------------------------
  // simple_result_from_approx_wh

  /**
   * The rounding step of the simple nodes: the step input is turned into an
   * int of at least 1, then the solver runs; the report text is not modelled.
   */
  function SimpleResultFromApproxWh(widthF: real, heightF: real, step: Number): (r: (int, int))
    requires widthF > 0.0 && heightF > 0.0
    ensures var s := NumberToInt(step, 1);
      s >= 1 && r.0 >= s && r.1 >= s && r.0 % s == 0 && r.1 % s == 0
    ensures var c := ClosestToRatio(widthF, heightF, NumberToInt(step, 1)); r == (c.width, c.height)
  {
    var s := NumberToInt(step, 1);
    var res := ClosestToRatio(widthF, heightF, s);
    MultipleHasNoRemainder(s, res.nStepsX);
    MultipleHasNoRemainder(s, res.nStepsY);
    (res.width, res.height)
  }

  /** Sizes already on the step grid come back unchanged. */
  lemma SimpleResultKeepsGridInput(a: int, b: int, step: int)
    requires a >= 1 && b >= 1 && step >= 1
    ensures (step * a) as real > 0.0 && (step * b) as real > 0.0
    ensures SimpleResultFromApproxWh((step * a) as real, (step * b) as real, Int(step)) == (step * a, step * b)
  {
    MulAtLeastOne(step, a);
    MulAtLeastOne(step, b);
    ClosestToRatioKeepsGridInput(a, b, step);
  }

  lemma MulAtLeastOne(a: int, b: int)
    requires a >= 1 && b >= 1
    ensures a * b >= 1
  {
  }
}
