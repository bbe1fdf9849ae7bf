/**
 * The "Upscaled Crop/Pad" reconciler of `_funcs_crop_pad.py`: given an
 * initial resolution, a target ("HD") resolution and a strategy, decide the
 * uniform upscale factor and the crop window and padding amounts.
 *
 * Two helpers the source imports are not part of this model:
 *  - `_round_pos_int` is modelled by `RoundPosInt`, half-up rounding clamped
 *    from below by `lo`; `lo` is left as a parameter, since the clamp the
 *    source uses is not known;
 *  - the result of `_need_post_resize` is passed in as a `PostResize` value.
 */
module CropPad {
  import opened Funcs

  /** `UpscaledCropPadStrategy`. */
  datatype Strategy = Crop | Pad | Nearest | ExactUpscale

  /** The flag and the average, x and y scales `_need_post_resize` reports. */
  datatype PostResize = PostResize(needsResize: bool, avgScale: real, scaleX: real, scaleY: real)

  /** The node's inputs, as the pure helpers read them. */
  datatype CropPadArgs = CropPadArgs(
    upscale: real,
    initW: int, initH: int, hdW: int, hdH: int,
    strategy: Strategy,
    alignX: real, alignY: real)

  /** `ResultUpscaledCropPad`. */
  datatype CropPadResult = CropPadResult(
    upscale: real,
    doCrop: bool, cropWidth: int, cropHeight: int, cropX: int, cropY: int,
    doPadding: bool, padLeft: int, padTop: int, padRight: int, padBottom: int)

  /** `_round_pos_int`: `x` rounded half up, and never below the clamp `lo`. */
  function RoundPosInt(x: real, lo: int): (r: int)
    ensures r >= lo
    ensures x >= lo as real - 0.5 ==> r as real - 0.5 <= x < r as real + 0.5
    ensures x < lo as real - 0.5 ==> r == lo
  {
    Max((x + 0.5).Floor, lo)
  }

  /** Rounding keeps a real that is at least (at most) an integer at least (at most) that integer. */
  lemma RoundPosIntBounds(x: real, lo: int, n: int)
    ensures n as real <= x ==> RoundPosInt(x, lo) >= n
    ensures x <= n as real && lo <= n ==> RoundPosInt(x, lo) <= n
  {
  }

  /** The x and y scales are those that map the initial resolution exactly onto the target one. */
  predicate ScalesMatch(args: CropPadArgs, pr: PostResize)
  {
    args.initW > 0 && args.initH > 0 &&
    pr.scaleX == args.hdW as real / args.initW as real &&
    pr.scaleY == args.hdH as real / args.initH as real
  }

  /** `min(max(a, 0.0), 1.0)`: the nearest point of [0, 1]. */
  function Clamp01(a: real): (r: real)
    ensures 0.0 <= r <= 1.0
    ensures 0.0 <= a <= 1.0 ==> r == a
    ensures a < 0.0 ==> r == 0.0
    ensures a > 1.0 ==> r == 1.0
  {
    MinR(MaxR(a, 0.0), 1.0)
  }

  // ---------------------------------------------------------------------
  // _upscaled_crop_xy_offset

  /** Crop offsets: x from the left edge by `alignX`, y from the top edge by `1 - alignY`. */
  function CropXYOffset(extraW: int, extraH: int, alignX: real, alignY: real, lo: int): (r: (int, int))
    ensures r.0 >= lo && r.1 >= lo
    ensures var x := alignX * extraW as real;
      x >= lo as real - 0.5 ==> r.0 as real - 0.5 <= x < r.0 as real + 0.5
    ensures var y := (1.0 - alignY) * extraH as real;
      y >= lo as real - 0.5 ==> r.1 as real - 0.5 <= y < r.1 as real + 0.5
  {
    (RoundPosInt(alignX * extraW as real, lo), RoundPosInt((1.0 - alignY) * extraH as real, lo))
  }

  /** An aligned share of a non-negative extra, rounded, stays within that extra when the clamp is not positive. */
  lemma AlignedShareWithin(align: real, extra: int, lo: int)
    requires 0.0 <= align <= 1.0 && extra >= 0 && lo <= 0
    ensures 0 <= RoundPosInt(align * extra as real, lo) <= extra
  {
    var x := align * extra as real;
    ShareWithin(align, extra as real, x);
    RoundedWithin(x, extra, lo);
  }

  lemma RoundedWithin(x: real, extra: int, lo: int)
    requires 0.0 <= x <= extra as real && lo <= 0
    ensures 0 <= RoundPosInt(x, lo) <= extra
  {
    RoundPosIntBounds(x, lo, 0);
    RoundPosIntBounds(x, lo, extra);
  }

  /** A share `p` = `a * b`, `a` in [0, 1], of a non-negative `b` lies between 0 and `b`. */
  lemma ShareWithin(a: real, b: real, p: real)
    requires 0.0 <= a <= 1.0 && b >= 0.0 && p == a * b
    ensures 0.0 <= p <= b
  {
    MulNonNeg(a, b);
    MulNonNeg(1.0 - a, b);
    assert b - a * b == (1.0 - a) * b;
  }

  lemma MulNonNeg(a: real, b: real)
    requires a >= 0.0 && b >= 0.0
    ensures a * b >= 0.0
  {
  }

  /**
   * The crop window stays inside the scaled image, and the alignment picks the
   * edge that stays in place: 0 is the left (bottom) edge, 1 the right (top) one.
   */
  lemma CropOffsetsAligned(extraW: int, extraH: int, alignX: real, alignY: real, lo: int)
    requires extraW >= 0 && extraH >= 0 && lo <= 0
    requires 0.0 <= alignX <= 1.0 && 0.0 <= alignY <= 1.0
    ensures var r := CropXYOffset(extraW, extraH, alignX, alignY, lo);
      0 <= r.0 <= extraW && 0 <= r.1 <= extraH &&
      (alignX == 0.0 ==> r.0 == 0) && (alignX == 1.0 ==> r.0 == extraW) &&
      (alignY == 0.0 ==> r.1 == extraH) && (alignY == 1.0 ==> r.1 == 0)
  {
    AlignedShareWithin(alignX, extraW, lo);
    AlignedShareWithin(1.0 - alignY, extraH, lo);
  }

  // ---------------------------------------------------------------------
  // _upscaled_pad_side_values

  /** Padding per side, as (left, top, right, bottom); the splits add back up to the extras. */
  function PadSideValues(extraW: int, extraH: int, alignX: real, alignY: real, lo: int): (r: (int, int, int, int))
    ensures r.0 + r.2 == extraW
    ensures r.3 + r.1 == extraH
    ensures r.0 >= lo && r.3 >= lo
    ensures var x := alignX * extraW as real;
      x >= lo as real - 0.5 ==> r.0 as real - 0.5 <= x < r.0 as real + 0.5
    ensures var y := alignY * extraH as real;
      y >= lo as real - 0.5 ==> r.3 as real - 0.5 <= y < r.3 as real + 0.5
  {
    var padLeft := RoundPosInt(alignX * extraW as real, lo);
    var padRight := extraW - padLeft;
    var padBottom := RoundPosInt(alignY * extraH as real, lo);
    var padTop := extraH - padBottom;
    (padLeft, padTop, padRight, padBottom)
  }

  /**
   * With a clamp that is not positive, no side gets negative padding, and the
   * alignment picks the edge that stays in place (0: left / bottom).
   */
  lemma PadSidesAligned(extraW: int, extraH: int, alignX: real, alignY: real, lo: int)
    requires extraW >= 0 && extraH >= 0 && lo <= 0
    requires 0.0 <= alignX <= 1.0 && 0.0 <= alignY <= 1.0
    ensures var r := PadSideValues(extraW, extraH, alignX, alignY, lo);
      r.0 >= 0 && r.1 >= 0 && r.2 >= 0 && r.3 >= 0 &&
      (alignX == 0.0 ==> r.0 == 0) && (alignX == 1.0 ==> r.2 == 0) &&
      (alignY == 0.0 ==> r.3 == 0) && (alignY == 1.0 ==> r.1 == 0)
  {
    AlignedShareWithin(alignX, extraW, lo);
    AlignedShareWithin(alignY, extraH, lo);
  }

  // ---------------------------------------------------------------------
  // _upscaled_crop and _upscaled_pad

  /** The initial resolution scaled by `s` and rounded. */
  function RawUpscaled(s: real, initW: int, initH: int, lo: int): (r: (int, int))
    ensures r.0 >= lo && r.1 >= lo
    ensures var w := s * initW as real; w >= lo as real - 0.5 ==> r.0 as real - 0.5 <= w < r.0 as real + 0.5
    ensures var h := s * initH as real; h >= lo as real - 0.5 ==> r.1 as real - 0.5 <= h < r.1 as real + 0.5
  {
    (RoundPosInt(s * initW as real, lo), RoundPosInt(s * initH as real, lo))
  }

  /** Crop-only result: crop the scaled image down to the target size, no padding. */
  function UpscaledCrop(args: CropPadArgs, realUpscale: real, lo: int): (r: CropPadResult)
    ensures r.upscale == realUpscale
    ensures r.doCrop && r.cropWidth == args.hdW && r.cropHeight == args.hdH
    ensures !r.doPadding && r.padLeft == 0 && r.padTop == 0 && r.padRight == 0 && r.padBottom == 0
    ensures var raw := RawUpscaled(realUpscale, args.initW, args.initH, lo);
      (r.cropX, r.cropY) == CropXYOffset(Max(raw.0 - args.hdW, 0), Max(raw.1 - args.hdH, 0), args.alignX, args.alignY, lo)
  {
    var raw := RawUpscaled(realUpscale, args.initW, args.initH, lo);
    var extraW := Max(raw.0 - args.hdW, 0);
    var extraH := Max(raw.1 - args.hdH, 0);
    var offset := CropXYOffset(extraW, extraH, args.alignX, args.alignY, lo);
    CropPadResult(
      realUpscale,
      true, args.hdW, args.hdH, offset.0, offset.1,
      false, 0, 0, 0, 0)
  }

  /** Pad-only result: keep the whole scaled image and pad it up to the target size. */
  function UpscaledPad(args: CropPadArgs, realUpscale: real, lo: int): (r: CropPadResult)
    ensures r.upscale == realUpscale
    ensures var raw := RawUpscaled(realUpscale, args.initW, args.initH, lo);
      !r.doCrop && r.cropX == 0 && r.cropY == 0 && r.cropWidth == raw.0 && r.cropHeight == raw.1
    ensures var raw := RawUpscaled(realUpscale, args.initW, args.initH, lo);
      r.doPadding &&
      raw.0 + r.padLeft + r.padRight == Max(args.hdW, raw.0) &&
      raw.1 + r.padTop + r.padBottom == Max(args.hdH, raw.1)
    ensures var raw := RawUpscaled(realUpscale, args.initW, args.initH, lo);
      (r.padLeft, r.padTop, r.padRight, r.padBottom) ==
      PadSideValues(Max(args.hdW - raw.0, 0), Max(args.hdH - raw.1, 0), args.alignX, args.alignY, lo)
  {
    var raw := RawUpscaled(realUpscale, args.initW, args.initH, lo);
    var padW := Max(args.hdW - raw.0, 0);
    var padH := Max(args.hdH - raw.1, 0);
    var sides := PadSideValues(padW, padH, args.alignX, args.alignY, lo);
    CropPadResult(
      realUpscale,
      false, raw.0, raw.1, 0, 0,
      true, sides.0, sides.1, sides.2, sides.3)
  }

  /** `hd / init * init == hd`, and a larger factor gives at least as much. */
  lemma ScaledSide(hd: int, init: int, s: real)
    requires init > 0
    ensures s >= hd as real / init as real ==> s * init as real >= hd as real
    ensures s <= hd as real / init as real ==> s * init as real <= hd as real
  {
    var q := hd as real / init as real;
    assert q * init as real == hd as real;
    assert s * init as real - q * init as real == (s - q) * init as real;
  }

  /** A factor at least (at most) the exact scale on both axes makes the rounded image at least (at most) the target. */
  lemma RawAgainstTarget(args: CropPadArgs, s: real, lo: int)
    requires args.initW > 0 && args.initH > 0
    ensures s >= args.hdW as real / args.initW as real && s >= args.hdH as real / args.initH as real ==>
      RawUpscaled(s, args.initW, args.initH, lo).0 >= args.hdW && RawUpscaled(s, args.initW, args.initH, lo).1 >= args.hdH
    ensures s <= args.hdW as real / args.initW as real && s <= args.hdH as real / args.initH as real && lo <= args.hdW && lo <= args.hdH ==>
      RawUpscaled(s, args.initW, args.initH, lo).0 <= args.hdW && RawUpscaled(s, args.initW, args.initH, lo).1 <= args.hdH
  {
    if s >= args.hdW as real / args.initW as real && s >= args.hdH as real / args.initH as real {
      RawAbove(args.hdW, args.hdH, args.initW, args.initH, s, lo);
    }
    if s <= args.hdW as real / args.initW as real && s <= args.hdH as real / args.initH as real && lo <= args.hdW && lo <= args.hdH {
      RawBelow(args.hdW, args.hdH, args.initW, args.initH, s, lo);
    }
  }

  lemma RawAbove(hdW: int, hdH: int, initW: int, initH: int, s: real, lo: int)
    requires initW > 0 && initH > 0 && s >= hdW as real / initW as real && s >= hdH as real / initH as real
    ensures RawUpscaled(s, initW, initH, lo).0 >= hdW && RawUpscaled(s, initW, initH, lo).1 >= hdH
  {
    RawSideAbove(hdW, initW, s, lo);
    RawSideAbove(hdH, initH, s, lo);
  }

  lemma RawBelow(hdW: int, hdH: int, initW: int, initH: int, s: real, lo: int)
    requires initW > 0 && initH > 0 && s <= hdW as real / initW as real && s <= hdH as real / initH as real
    requires lo <= hdW && lo <= hdH
    ensures RawUpscaled(s, initW, initH, lo).0 <= hdW && RawUpscaled(s, initW, initH, lo).1 <= hdH
  {
    RawSideBelow(hdW, initW, s, lo);
    RawSideBelow(hdH, initH, s, lo);
  }

  lemma RawSideAbove(hd: int, init: int, s: real, lo: int)
    requires init > 0 && s >= hd as real / init as real
    ensures RoundPosInt(s * init as real, lo) >= hd
  {
    ScaledSide(hd, init, s);
    RoundPosIntBounds(s * init as real, lo, hd);
  }

  lemma RawSideBelow(hd: int, init: int, s: real, lo: int)
    requires init > 0 && s <= hd as real / init as real && lo <= hd
    ensures RoundPosInt(s * init as real, lo) <= hd
  {
    ScaledSide(hd, init, s);
    RoundPosIntBounds(s * init as real, lo, hd);
  }

  /**
   * Under CROP the larger of the two exact scales makes the scaled image at
   * least as large as the target, so the crop window lies inside it.
   */
  lemma CropWindowInside(args: CropPadArgs, pr: PostResize, lo: int)
    requires ScalesMatch(args, pr) && lo <= 0
    requires 0.0 <= args.alignX <= 1.0 && 0.0 <= args.alignY <= 1.0
    ensures var s := MaxR(pr.scaleX, pr.scaleY);
      var r, raw := UpscaledCrop(args, s, lo), RawUpscaled(s, args.initW, args.initH, lo);
      raw.0 >= args.hdW && raw.1 >= args.hdH &&
      0 <= r.cropX && r.cropX + r.cropWidth <= raw.0 &&
      0 <= r.cropY && r.cropY + r.cropHeight <= raw.1
  {
    var s := MaxR(pr.scaleX, pr.scaleY);
    RawAgainstTarget(args, s, lo);
    var raw := RawUpscaled(s, args.initW, args.initH, lo);
    CropOffsetsAligned(raw.0 - args.hdW, raw.1 - args.hdH, args.alignX, args.alignY, lo);
  }

  /**
   * The premise `lo <= 0` of CropWindowInside is needed: with a clamp of 1,
   * under CROP the axis whose exact scale is the larger one fits exactly, so
   * its extra is 0, yet its offset is clamped up to 1 and the window overhangs
   * the scaled image by one pixel.
   */
  lemma CropOverhangsWithUnitClamp(args: CropPadArgs, pr: PostResize)
    requires ScalesMatch(args, pr) && pr.scaleX >= pr.scaleY && args.hdW >= 1
    ensures var s := MaxR(pr.scaleX, pr.scaleY);
      var r, raw := UpscaledCrop(args, s, 1), RawUpscaled(s, args.initW, args.initH, 1);
      raw.0 == args.hdW && r.cropX == 1 && r.cropX + r.cropWidth == raw.0 + 1
  {
    var s := MaxR(pr.scaleX, pr.scaleY);
    assert s == args.hdW as real / args.initW as real;
    ScaledSide(args.hdW, args.initW, s);
    var raw := RawUpscaled(s, args.initW, args.initH, 1);
    RoundPosIntBounds(s * args.initW as real, 1, args.hdW);
    assert raw.0 == args.hdW;
    assert args.alignX * 0 as real == 0.0;
  }

  /**
   * Under PAD the smaller of the two exact scales keeps the scaled image within
   * the target, so image plus padding is exactly the target size.
   */
  lemma PadReachesTarget(args: CropPadArgs, pr: PostResize, lo: int)
    requires ScalesMatch(args, pr) && lo <= 1 && args.hdW >= 1 && args.hdH >= 1
    ensures var s := MinR(pr.scaleX, pr.scaleY);
      var r, raw := UpscaledPad(args, s, lo), RawUpscaled(s, args.initW, args.initH, lo);
      raw.0 <= args.hdW && raw.1 <= args.hdH &&
      raw.0 + r.padLeft + r.padRight == args.hdW &&
      raw.1 + r.padTop + r.padBottom == args.hdH
  {
    RawAgainstTarget(args, MinR(pr.scaleX, pr.scaleY), lo);
  }

  // ---------------------------------------------------------------------
  // _upscaled_crop_delta_pixels and _upscaled_pad_delta_pixels

  function AbsInt(x: int): int { if x < 0 then -x else x }

  /** The number of pixels a crop-only result cuts away from the scaled image. */
  function CropDeltaPixels(args: CropPadArgs, result: CropPadResult, lo: int): (d: int)
    ensures d >= 0
  {
    var raw := RawUpscaled(result.upscale, args.initW, args.initH, lo);
    var croppedW := Min(result.cropWidth, raw.0);
    var croppedH := Min(result.cropHeight, raw.1);
    AbsInt(raw.0 * raw.1 - croppedW * croppedH)
  }

  /** The number of pixels a pad-only result adds around the scaled image. */
  function PadDeltaPixels(args: CropPadArgs, result: CropPadResult, lo: int): (d: int)
    ensures d >= 0
  {
    var raw := RawUpscaled(result.upscale, args.initW, args.initH, lo);
    var paddedW := raw.0 + Max(result.padLeft, 0) + Max(result.padRight, 0);
    var paddedH := raw.1 + Max(result.padTop, 0) + Max(result.padBottom, 0);
    AbsInt(paddedW * paddedH - raw.0 * raw.1)
  }

  /**
   * For the CROP result at the larger exact scale, the delta is the area cut
   * away: the scaled image's area minus the target's.
   */
  lemma CropDeltaIsCutArea(args: CropPadArgs, pr: PostResize, lo: int)
    requires ScalesMatch(args, pr) && args.hdW >= 0 && args.hdH >= 0
    ensures var s := MaxR(pr.scaleX, pr.scaleY);
      var raw := RawUpscaled(s, args.initW, args.initH, lo);
      CropDeltaPixels(args, UpscaledCrop(args, s, lo), lo) == raw.0 * raw.1 - args.hdW * args.hdH
  {
    var s := MaxR(pr.scaleX, pr.scaleY);
    RawAgainstTarget(args, s, lo);
    var raw := RawUpscaled(s, args.initW, args.initH, lo);
    MulLe(args.hdW, args.hdH, raw.0, raw.1);
  }

  /**
   * For the PAD result at the smaller exact scale, with a clamp that is not
   * positive, the delta is the area padded in: the target's area minus the
   * scaled image's.
   */
  lemma PadDeltaIsAddedArea(args: CropPadArgs, pr: PostResize, lo: int)
    requires ScalesMatch(args, pr) && lo <= 0 && args.hdW >= 0 && args.hdH >= 0
    requires 0.0 <= args.alignX <= 1.0 && 0.0 <= args.alignY <= 1.0
    ensures var s := MinR(pr.scaleX, pr.scaleY);
      var raw := RawUpscaled(s, args.initW, args.initH, lo);
      PadDeltaPixels(args, UpscaledPad(args, s, lo), lo) == args.hdW * args.hdH - raw.0 * raw.1
  {
    var s := MinR(pr.scaleX, pr.scaleY);
    var raw := RawUpscaled(s, args.initW, args.initH, lo);
    assert raw.0 <= args.hdW && raw.1 <= args.hdH by {
      RawAgainstTarget(args, s, lo);
    }
    assert 0 <= raw.0 && 0 <= raw.1 by {
      assert s >= 0.0 by {
        DivNonNeg(args.hdW, args.initW);
        DivNonNeg(args.hdH, args.initH);
      }
      RawNonNegative(args.initW, s, lo);
      RawNonNegative(args.initH, s, lo);
    }
    PadDeltaWithinTarget(args, s, lo);
  }

  lemma DivNonNeg(a: int, b: int)
    requires a >= 0 && b > 0
    ensures a as real / b as real >= 0.0
  {
  }

  /** A scale that is not negative gives a rounded side that is not negative, for a clamp that is not positive. */
  lemma RawNonNegative(init: int, s: real, lo: int)
    requires init >= 0 && s >= 0.0 && lo <= 0
    ensures RoundPosInt(s * init as real, lo) >= 0
  {
    MulNonNeg(s, init as real);
    RoundPosIntBounds(s * init as real, lo, 0);
  }

  lemma PadDeltaWithinTarget(args: CropPadArgs, s: real, lo: int)
    requires lo <= 0 && 0.0 <= args.alignX <= 1.0 && 0.0 <= args.alignY <= 1.0
    requires var raw := RawUpscaled(s, args.initW, args.initH, lo);
      0 <= raw.0 <= args.hdW && 0 <= raw.1 <= args.hdH
    ensures var raw := RawUpscaled(s, args.initW, args.initH, lo);
      PadDeltaPixels(args, UpscaledPad(args, s, lo), lo) == args.hdW * args.hdH - raw.0 * raw.1
  {
    PadSidesNonNegative(args, s, lo);
    PaddedArea(args, UpscaledPad(args, s, lo), lo);
  }

  /** With a clamp that is not positive and alignments in [0, 1], PAD never pads a side by a negative amount. */
  lemma PadSidesNonNegative(args: CropPadArgs, s: real, lo: int)
    requires lo <= 0 && 0.0 <= args.alignX <= 1.0 && 0.0 <= args.alignY <= 1.0
    ensures var r := UpscaledPad(args, s, lo);
      r.upscale == s && r.padLeft >= 0 && r.padTop >= 0 && r.padRight >= 0 && r.padBottom >= 0
  {
    var raw := RawUpscaled(s, args.initW, args.initH, lo);
    PadSidesAligned(Max(args.hdW - raw.0, 0), Max(args.hdH - raw.1, 0), args.alignX, args.alignY, lo);
  }

  /** Padding that is not negative and brings the scaled image to the target adds the difference of the areas. */
  lemma PaddedArea(args: CropPadArgs, r: CropPadResult, lo: int)
    requires r.padLeft >= 0 && r.padTop >= 0 && r.padRight >= 0 && r.padBottom >= 0
    requires var raw := RawUpscaled(r.upscale, args.initW, args.initH, lo);
      raw.0 >= 0 && raw.1 >= 0 &&
      raw.0 + r.padLeft + r.padRight == args.hdW && raw.1 + r.padTop + r.padBottom == args.hdH
    ensures var raw := RawUpscaled(r.upscale, args.initW, args.initH, lo);
      PadDeltaPixels(args, r, lo) == args.hdW * args.hdH - raw.0 * raw.1
  {
    var raw := RawUpscaled(r.upscale, args.initW, args.initH, lo);
    MulLe(raw.0, raw.1, args.hdW, args.hdH);
  }

  lemma MulLe(a: int, b: int, c: int, d: int)
    requires 0 <= a <= c && 0 <= b <= d
    ensures a * b <= c * d
  {
    assert (c - a) * b >= 0;
    assert c * (d - b) >= 0;
  }

  /** A crop that leaves nothing to cut, or padding that adds nothing, changes no pixel. */
  lemma DeltaPixelsZero(args: CropPadArgs, result: CropPadResult, lo: int)
    ensures var raw := RawUpscaled(result.upscale, args.initW, args.initH, lo);
      result.cropWidth >= raw.0 && result.cropHeight >= raw.1 ==> CropDeltaPixels(args, result, lo) == 0
    ensures result.padLeft <= 0 && result.padTop <= 0 && result.padRight <= 0 && result.padBottom <= 0 ==>
      PadDeltaPixels(args, result, lo) == 0
  {
  }

  // ---------------------------------------------------------------------
  // _upscaled_crop_pad

  /** EXACT_UPSCALE: scale by the requested factor, crop what overhangs, pad what is missing. */
  function ExactUpscaleResult(args: CropPadArgs, lo: int): (r: CropPadResult)
    ensures r.upscale == args.upscale
    ensures var raw := RawUpscaled(args.upscale, args.initW, args.initH, lo);
      r.cropWidth == Min(args.hdW, raw.0) && r.cropHeight == Min(args.hdH, raw.1) &&
      r.cropWidth + r.padLeft + r.padRight == args.hdW &&
      r.cropHeight + r.padTop + r.padBottom == args.hdH
    ensures var raw := RawUpscaled(args.upscale, args.initW, args.initH, lo);
      (r.doCrop <==> raw.0 > args.hdW || raw.1 > args.hdH) &&
      (r.doPadding <==> raw.0 < args.hdW || raw.1 < args.hdH)
    ensures var raw := RawUpscaled(args.upscale, args.initW, args.initH, lo);
      (r.cropX, r.cropY) == CropXYOffset(raw.0 - r.cropWidth, raw.1 - r.cropHeight, args.alignX, args.alignY, lo) &&
      (r.padLeft, r.padTop, r.padRight, r.padBottom) ==
      PadSideValues(args.hdW - r.cropWidth, args.hdH - r.cropHeight, args.alignX, args.alignY, lo)
  {
    var raw := RawUpscaled(args.upscale, args.initW, args.initH, lo);
    var croppedW := Min(args.hdW, raw.0);
    var croppedH := Min(args.hdH, raw.1);
    var cropExtraW := raw.0 - croppedW;
    var cropExtraH := raw.1 - croppedH;
    var offset := CropXYOffset(cropExtraW, cropExtraH, args.alignX, args.alignY, lo);
    var padExtraW := args.hdW - croppedW;
    var padExtraH := args.hdH - croppedH;
    var sides := PadSideValues(padExtraW, padExtraH, args.alignX, args.alignY, lo);
    CropPadResult(
      args.upscale,
      cropExtraW > 0 || cropExtraH > 0, croppedW, croppedH, offset.0, offset.1,
      padExtraW > 0 || padExtraH > 0, sides.0, sides.1, sides.2, sides.3)
  }

  /** The alignment of `args`, clamped into [0, 1]. */
  function ClampAlign(args: CropPadArgs): (a: CropPadArgs)
    ensures 0.0 <= a.alignX <= 1.0 && 0.0 <= a.alignY <= 1.0
    ensures a.alignX == Clamp01(args.alignX) && a.alignY == Clamp01(args.alignY)
    ensures a.(alignX := args.alignX, alignY := args.alignY) == args
  {
    args.(alignX := Clamp01(args.alignX), alignY := Clamp01(args.alignY))
  }

  /**
   * What `_upscaled_crop_pad` returns for the given inputs and post-resize
   * report. With no resize the target is kept as it is; otherwise CROP, PAD
   * and NEAREST each do exactly one of cropping and padding.
   */
  function Reconcile(args: CropPadArgs, pr: PostResize, lo: int): (r: CropPadResult)
    ensures !pr.needsResize ==> !r.doCrop && !r.doPadding && r.cropWidth == args.hdW && r.cropHeight == args.hdH
    ensures pr.needsResize && args.strategy != ExactUpscale ==> r.doCrop != r.doPadding
    ensures pr.needsResize ==> r.upscale == match args.strategy
      case Crop => MaxR(pr.scaleX, pr.scaleY)
      case Pad => MinR(pr.scaleX, pr.scaleY)
      case Nearest => (if r.doCrop then MaxR(pr.scaleX, pr.scaleY) else MinR(pr.scaleX, pr.scaleY))
      case ExactUpscale => args.upscale
  {
    if !pr.needsResize then CropPadResult(pr.avgScale, false, args.hdW, args.hdH, 0, 0, false, 0, 0, 0, 0)
    else
      var a := ClampAlign(args);
      match a.strategy
      case Crop => UpscaledCrop(a, MaxR(pr.scaleX, pr.scaleY), lo)
      case Pad => UpscaledPad(a, MinR(pr.scaleX, pr.scaleY), lo)
      case Nearest =>
        var cropResult := UpscaledCrop(a, MaxR(pr.scaleX, pr.scaleY), lo);
        var padResult := UpscaledPad(a, MinR(pr.scaleX, pr.scaleY), lo);
        if PadDeltaPixels(a, padResult, lo) < CropDeltaPixels(a, cropResult, lo) then padResult else cropResult
      case ExactUpscale => ExactUpscaleResult(a, lo)
  }

  /** `_CropPadInput`: the node's inputs, bundled in a mutable record. */
  class CropPadInput {
    var upscale: real
    var initW: int
    var initH: int
    var hdW: int
    var hdH: int
    var strategy: Strategy
    var alignX: real
    var alignY: real

    constructor (args: CropPadArgs)
      ensures Values() == args
    {
      upscale, initW, initH, hdW, hdH := args.upscale, args.initW, args.initH, args.hdW, args.hdH;
      strategy, alignX, alignY := args.strategy, args.alignX, args.alignY;
    }

    function Values(): CropPadArgs
      reads this
    {
      CropPadArgs(upscale, initW, initH, hdW, hdH, strategy, alignX, alignY)
    }
  }

  /**
   * `_upscaled_crop_pad`: when a resize is needed it first clamps the input's
   * alignment into [0, 1] in place, then dispatches on the strategy.
   */
  method UpscaledCropPadInPlace(inp: CropPadInput, pr: PostResize, lo: int) returns (r: CropPadResult)
    modifies inp
    ensures r == Reconcile(old(inp.Values()), pr, lo)
    ensures inp.Values() == if pr.needsResize then ClampAlign(old(inp.Values())) else old(inp.Values())
  {
    if !pr.needsResize {
      return CropPadResult(pr.avgScale, false, inp.hdW, inp.hdH, 0, 0, false, 0, 0, 0, 0);
    }

    inp.alignX := MinR(MaxR(inp.alignX, 0.0), 1.0);
    inp.alignY := MinR(MaxR(inp.alignY, 0.0), 1.0);
    var a := inp.Values();

    if inp.strategy == Crop {
      return UpscaledCrop(a, MaxR(pr.scaleX, pr.scaleY), lo);
    }
    if inp.strategy == Pad {
      return UpscaledPad(a, MinR(pr.scaleX, pr.scaleY), lo);
    }
    if inp.strategy == Nearest {
      var cropResult := UpscaledCrop(a, MaxR(pr.scaleX, pr.scaleY), lo);
      var padResult := UpscaledPad(a, MinR(pr.scaleX, pr.scaleY), lo);
      return if PadDeltaPixels(a, padResult, lo) < CropDeltaPixels(a, cropResult, lo) then padResult else cropResult;
    }
    return ExactUpscaleResult(a, lo);
  }

  /** `upscaled_crop_pad` without its status text: bundle the inputs and reconcile. */
  method UpscaledCropPad(args: CropPadArgs, pr: PostResize, lo: int) returns (r: CropPadResult)
    ensures r == Reconcile(args, pr, lo)
  {
    var inp := new CropPadInput(args);
    r := UpscaledCropPadInPlace(inp, pr, lo);
  }

  // ---------------------------------------------------------------------
  // Properties of the reconciler

  /** No resize needed: the average scale, no crop, no padding, the target size, zero offsets and pads. */
  lemma ReconcileWithoutResize(args: CropPadArgs, pr: PostResize, lo: int)
    requires !pr.needsResize
    ensures var r := Reconcile(args, pr, lo);
      r.upscale == pr.avgScale && !r.doCrop && !r.doPadding &&
      r.cropWidth == args.hdW && r.cropHeight == args.hdH && r.cropX == 0 && r.cropY == 0 &&
      r.padLeft == 0 && r.padTop == 0 && r.padRight == 0 && r.padBottom == 0
  {
  }

  /** CROP scales by the larger factor and only crops; PAD scales by the smaller one and only pads. */
  lemma ReconcileCropAndPad(args: CropPadArgs, pr: PostResize, lo: int)
    requires pr.needsResize
    ensures var r := Reconcile(args, pr, lo);
      args.strategy == Crop ==>
        r.upscale == MaxR(pr.scaleX, pr.scaleY) && r.upscale >= pr.scaleX && r.upscale >= pr.scaleY &&
        r.doCrop && !r.doPadding && r.cropWidth == args.hdW && r.cropHeight == args.hdH
    ensures var r := Reconcile(args, pr, lo);
      args.strategy == Pad ==>
        r.upscale == MinR(pr.scaleX, pr.scaleY) && r.upscale <= pr.scaleX && r.upscale <= pr.scaleY &&
        !r.doCrop && r.doPadding && r.cropX == 0 && r.cropY == 0
  {
  }

  /**
   * With exact scales and a clamp that is not positive, CROP crops a window
   * inside the scaled image and PAD pads the scaled image to the target size,
   * whatever the alignment inputs were.
   */
  lemma ReconcileFitsTarget(args: CropPadArgs, pr: PostResize, lo: int)
    requires pr.needsResize && ScalesMatch(args, pr) && lo <= 0 && args.hdW >= 1 && args.hdH >= 1
    ensures var r, a := Reconcile(args, pr, lo), ClampAlign(args);
      var raw := RawUpscaled(r.upscale, a.initW, a.initH, lo);
      args.strategy == Crop ==>
        0 <= r.cropX && r.cropX + r.cropWidth <= raw.0 && 0 <= r.cropY && r.cropY + r.cropHeight <= raw.1
    ensures var r, a := Reconcile(args, pr, lo), ClampAlign(args);
      var raw := RawUpscaled(r.upscale, a.initW, a.initH, lo);
      args.strategy == Pad ==>
        raw.0 + r.padLeft + r.padRight == args.hdW && raw.1 + r.padTop + r.padBottom == args.hdH
  {
    var a := ClampAlign(args);
    assert ScalesMatch(a, pr);
    if args.strategy == Crop {
      CropWindowInside(a, pr, lo);
    } else if args.strategy == Pad {
      PadReachesTarget(a, pr, lo);
    }
  }

  /** NEAREST returns the pad result only when it changes strictly fewer pixels; a tie goes to the crop result. */
  lemma ReconcileNearest(args: CropPadArgs, pr: PostResize, lo: int)
    requires pr.needsResize && args.strategy == Nearest
    ensures var a := ClampAlign(args);
      var cropResult := UpscaledCrop(a, MaxR(pr.scaleX, pr.scaleY), lo);
      var padResult := UpscaledPad(a, MinR(pr.scaleX, pr.scaleY), lo);
      var padDelta, cropDelta := PadDeltaPixels(a, padResult, lo), CropDeltaPixels(a, cropResult, lo);
      0 <= padDelta && 0 <= cropDelta &&
      (Reconcile(args, pr, lo) == padResult <==> padDelta < cropDelta) &&
      (padDelta >= cropDelta ==> Reconcile(args, pr, lo) == cropResult)
  {
    var a := ClampAlign(args);
    var cropResult := UpscaledCrop(a, MaxR(pr.scaleX, pr.scaleY), lo);
    var padResult := UpscaledPad(a, MinR(pr.scaleX, pr.scaleY), lo);
    assert cropResult != padResult by {
      assert cropResult.doCrop && !padResult.doCrop;
    }
  }

  /**
   * EXACT_UPSCALE keeps the requested factor; per axis it keeps min(target,
   * scaled) pixels and pads the rest, so kept plus padding is the target; it
   * crops exactly when the scaled image overhangs on some axis and pads exactly
   * when it falls short on some axis.
   */
  lemma ReconcileExactUpscale(args: CropPadArgs, pr: PostResize, lo: int)
    requires pr.needsResize && args.strategy == ExactUpscale
    ensures var r, raw := Reconcile(args, pr, lo), RawUpscaled(args.upscale, args.initW, args.initH, lo);
      r.upscale == args.upscale &&
      r.cropWidth == Min(args.hdW, raw.0) && r.cropHeight == Min(args.hdH, raw.1) &&
      r.cropWidth + r.padLeft + r.padRight == args.hdW &&
      r.cropHeight + r.padTop + r.padBottom == args.hdH &&
      (r.doCrop <==> raw.0 > args.hdW || raw.1 > args.hdH) &&
      (r.doPadding <==> raw.0 < args.hdW || raw.1 < args.hdH)
  {
    assert Reconcile(args, pr, lo) == ExactUpscaleResult(ClampAlign(args), lo);
  }

  /** EXACT_UPSCALE never both crops and pads the same axis. */
  lemma ExactUpscaleAxesExclusive(args: CropPadArgs, pr: PostResize, lo: int)
    requires pr.needsResize && args.strategy == ExactUpscale
    ensures var r, raw := Reconcile(args, pr, lo), RawUpscaled(args.upscale, args.initW, args.initH, lo);
      !(raw.0 - r.cropWidth > 0 && args.hdW - r.cropWidth > 0) &&
      !(raw.1 - r.cropHeight > 0 && args.hdH - r.cropHeight > 0)
  {
    ReconcileExactUpscale(args, pr, lo);
  }
}
