# BestResolution, modelled in Dafny

This project models the computing core of the ComfyUI-BestResolution custom
nodes and proves properties about it. The nodes pick an image resolution whose
sides are multiples of a step and whose ratio is as close as possible to the
requested one. The model covers five parts:

- `funcs.dfy` (module `Funcs`) covers step rounding (`round_abs`), the
  three-candidate closest-to-ratio solver, the aspect-ratio helpers, the
  area-to-rectangle expansion and the final rounding step shared by the
  simple nodes. The solver, a loop in the source, is a `method` proved equal
  to a specification function. Its tie-breaking and its nearest-candidate
  property are proved about that function.
- `crop_pad.dfy` (module `CropPad`) is the "Upscaled Crop/Pad" reconciler.
  Given an initial and a target resolution and a strategy, it chooses one
  upscale factor and a crop window and/or padding. The input record is a
  `class`, because the source clamps its alignment fields in place. The
  method that does so is proved equal to a pure `Reconcile` function. Window
  containment, exact padding, the NEAREST choice and the EXACT_UPSCALE shape
  are lemmas about `Reconcile`.
- `docstring.dfy` (module `DocString`) is the `DocStringFormatter`. It turns
  a cleaned-up docstring back into printable text: indenting spaces become
  tabs again, consecutive lines are joined into paragraphs, and runs of blank
  lines lose one line. It is a `class` with the same two fields. Each of its
  three loops is a method proved equal to a specification function. The
  round-trip, rounding and paragraph properties are lemmas about those
  functions.
- `prims.dfy` (module `Prims`) holds the two selector validators. Each
  returns the value itself or a `ValueError` naming the value and the allowed
  tuple.
- `nodes_simple.py`'s three nodes are in `nodes_simple.dfy` (module
  `NodesSimple`). Each computes an approximate width and height and rounds
  them with the shared step.

Python floats are modelled as exact `real`s. Python's `int()` on a float
truncates toward zero and is written out as `Funcs.Trunc`. `math.sqrt` is
replaced by a parameter `root` together with the premise
`root * root == AspectArea(a, b)`.

Two helpers that `_funcs_crop_pad.py` imports have no body in this model:

- `_round_pos_int` is modelled as half-up rounding, clamped from below by an
  explicit bound `lo` (`CropPad.RoundPosInt`). The lemmas that need bounds
  state which `lo` they require.
- `_need_post_resize` is not computed. Its four results enter as a
  `CropPad.PostResize` value. Where a lemma needs the x and y scales to be
  the exact target/initial ratios, it says so with `CropPad.ScalesMatch`.

A NEAREST tie goes to cropping: `_funcs_crop_pad.py:111-115` returns the pad
result only when it changes strictly fewer pixels (`CropPad.ReconcileNearest`).
The pixels changed are the area the crop cuts away and the area the padding
adds (`CropPad.CropDeltaIsCutArea`, `CropPad.PadDeltaIsAddedArea`).

Two details of the code are kept as written. When the recovered indent is
under half a tab, `docstring_formatter.py:46-47` returns the line with its
indent already consumed by the regex loop, not the original line, and
`RecoverTabs` does the same. Empty lines at the very start of a docstring
each yield an empty output line (`docstring_formatter.py:124-125`), since no
paragraph precedes them.

## Model

| member | source | states |
|---|---|---|
| Funcs.Trunc | _funcs.py:28 | Python `int(x)` on a float: the integer next to `x` toward zero, within one of it |
| Funcs.AspectRatiosSorted | _funcs.py:17-21 | both values made non-negative and at least `minClamp`; the result is exactly those two values, larger first |
| Funcs.AspectRatiosSortedIdempotent | _funcs.py:17-21 | sorting an already sorted pair returns it unchanged |
| Funcs.RoundHalfAwayFromZero | _funcs.py:26-28 | a float becomes the nearest integer, with halves rounded away from zero |
| Funcs.NumberToInt | _funcs.py:24-31 | the result is at least `min`; an int at least `min` passes unchanged; a float is its rounding when that is at least `min`; any result other than `min` is the converted value |
| Funcs.NumberToIntIdempotent | _funcs.py:24-31 | converting an already converted value again gives it back |
| Funcs.RoundAbs | _funcs.py:34-41 | the result is `step * n`, with a step count `n` of at least 1 |
| Funcs.RoundAbsHalfUp | _funcs.py:39-40 | the step count is `value / step` rounded half up, or 1 when that quotient is below one half |
| Funcs.RoundAbsIsNearest | _funcs.py:34-41 | no positive multiple of `step` is closer to the value than the chosen one |
| Funcs.RoundAbsOnGrid | _funcs.py:39-41 | a value that is already a positive multiple of `step` is kept exactly, with its own step count |
| Funcs.Candidates | _funcs.py:48-54 | the three candidates in the solver's order; all are on the step grid with heights of at least one step |
| Funcs.FirstClosest | _funcs.py:57-66 | the chosen candidate has minimal ratio deviation, and every earlier candidate deviates strictly more (the first minimum wins) |
| Funcs.ClosestToRatio | _funcs.py:44-68 | the solver's answer is on the step grid, with both sides at least one step |
| Funcs.ClosestToRatioIsClosest | _funcs.py:57-66 | the answer is no further from the desired ratio than any of the three candidates |
| Funcs.ClosestToRatioPrefersFirstPass | _funcs.py:57-66 | when the independently rounded pair is at least as close as both alternatives, it is the answer |
| Funcs.ClosestToRatioPrefersWidthKept | _funcs.py:58-66 | when the width-kept alternative is strictly closer than the first pass and no further than the height-kept one, it is the answer |
| Funcs.RoundClosestToRatio | _funcs.py:44-68 | the loop returns exactly the specification's answer (`ClosestToRatio`) |
| Funcs.ClosestToRatioKeepsGridInput | _funcs.py:44-68 | a width and height already on the step grid are returned unchanged |
| Funcs.AspectArea | _funcs.py:74-77 | the product of the sorted aspect values is at least 1, so its square root is positive |
| Funcs.FloatWidthHeightFromArea | _funcs.py:71-85 | the rectangle has the area of the `squareSize` square |
| Funcs.FloatWidthHeightKeepsRatio | _funcs.py:74-85 | width and height stand in the sorted aspect ratio, big over small for landscape and small over big for portrait |
| Funcs.FloatWidthHeightOrientation | _funcs.py:75 | a landscape rectangle is at least as wide as tall; a portrait one at most |
| Funcs.FloatWidthHeightPositive | _funcs.py:71-85 | a positive square size gives a positive width and height |
| Funcs.SimpleResultFromApproxWh | _funcs.py:140-159 | the step is made an int of at least 1, both returned sides are positive multiples of it, and they are the closest-ratio solver's answer for the given size (so `ClosestToRatioIsClosest` applies) |
| Funcs.SimpleResultKeepsGridInput | _funcs.py:145-146 | sizes already on the step grid come back unchanged |
| CropPad.RoundPosInt | _funcs_crop_pad.py:9 | the result is never below `lo`; a value of at least `lo - 1/2` is rounded half up, and a smaller one gives `lo` |
| CropPad.RoundPosIntBounds | _funcs_crop_pad.py:9 | rounding keeps a value that is at least (at most) an integer at least (at most) that integer |
| CropPad.Clamp01 | _funcs_crop_pad.py:99-100 | the alignment is clamped into [0, 1]: values inside are kept, values below 0 become 0 and values above 1 become 1 |
| CropPad.AlignedShareWithin | _funcs_crop_pad.py:33-34 | with a clamp `lo <= 0`, a rounded aligned share of a non-negative extra lies between 0 and that extra |
| CropPad.CropXYOffset | _funcs_crop_pad.py:32-35 | both offsets are at least `lo`; the x offset is `alignX * extraW` and the y offset `(1 - alignY) * extraH`, each rounded half up whenever it is not below the clamp |
| CropPad.CropOffsetsAligned | _funcs_crop_pad.py:32-35 | the offsets lie within the extras; alignment 0 keeps the left/bottom edge and 1 the right/top edge |
| CropPad.PadSideValues | _funcs_crop_pad.py:51-56 | left + right padding is the horizontal extra, and top + bottom the vertical one; left and bottom are at least the clamp and are the aligned shares (alignX of the width extra, alignY of the height extra) rounded half up whenever the share is not below the clamp |
| CropPad.PadSidesAligned | _funcs_crop_pad.py:51-56 | no side is negative; alignment 0 puts no padding on the left/bottom and 1 none on the right/top |
| CropPad.UpscaledCrop | _funcs_crop_pad.py:38-48 | a crop-only result at the given factor, with a window of exactly the target size and no padding; its offsets are `CropXYOffset` of how far the scaled size overhangs the target, clamped at 0 |
| CropPad.UpscaledPad | _funcs_crop_pad.py:59-68 | a pad-only result that keeps the whole scaled image at the origin and pads each axis up to max(target, scaled); its sides are `PadSideValues` of how far the scaled size falls short of the target, clamped at 0 |
| CropPad.RawUpscaled | _funcs_crop_pad.py:39-40 | each scaled side is at least `lo`, and is the initial side times the factor rounded half up whenever that product is not below the clamp |
| CropPad.RawAgainstTarget | _funcs_crop_pad.py:39-40 | a factor at least (at most) the exact scale on both axes makes the rounded image at least (at most) the target |
| CropPad.CropWindowInside | _funcs_crop_pad.py:38-48 | with the larger exact scale the scaled image covers the target, and the crop window lies inside it |
| CropPad.PadReachesTarget | _funcs_crop_pad.py:59-68 | with the smaller exact scale the scaled image fits the target, and image plus padding is exactly the target size |
| CropPad.CropDeltaPixels | _funcs_crop_pad.py:71-77 | the number of pixels cut away is non-negative; its value for a CROP result is given by `CropPad.CropDeltaIsCutArea` |
| CropPad.PadDeltaPixels | _funcs_crop_pad.py:80-86 | the number of pixels added is non-negative; its value for a PAD result is given by `CropPad.PadDeltaIsAddedArea` |
| CropPad.CropDeltaIsCutArea | _funcs_crop_pad.py:71-77 | for CROP at the larger exact scale, the delta is the area cut away: the scaled image's area minus the target's, for any clamp and alignment |
| CropPad.PadDeltaIsAddedArea | _funcs_crop_pad.py:80-86 | for PAD at the smaller exact scale, with a clamp `lo <= 0`, the delta is the area padded in: the target's area minus the scaled image's |
| CropPad.PadSidesNonNegative | _funcs_crop_pad.py:59-68 | with a clamp `lo <= 0` and alignments in [0, 1], PAD pads no side by a negative amount |
| CropPad.CropOverhangsWithUnitClamp | _funcs_crop_pad.py:32-48 | with a clamp of 1, CROP's exactly fitting axis gets offset 1 and the window overhangs the scaled image by one pixel, so `lo <= 0` is needed for CropWindowInside |
| CropPad.DeltaPixelsZero | _funcs_crop_pad.py:71-86 | a crop that cuts nothing, or padding that adds nothing, changes zero pixels |
| CropPad.ExactUpscaleResult | _funcs_crop_pad.py:117-138 | keeps the requested factor; kept pixels are min(target, scaled) per axis; kept plus padding is the target; it crops iff some axis overhangs and pads iff some axis falls short; the offsets are `CropXYOffset` of scaled minus kept, and the sides `PadSideValues` of target minus kept |
| CropPad.ClampAlign | _funcs_crop_pad.py:99-100 | both alignments end up in [0, 1], each is `Clamp01` of the input alignment, and every other field is unchanged |
| CropPad.CropPadInput.constructor | _funcs_crop_pad.py:14-29 | the new record holds exactly the given inputs |
| CropPad.UpscaledCropPadInPlace | _funcs_crop_pad.py:89-138 | the result is `Reconcile` of the inputs as they were; the record's alignment is clamped in place exactly when a resize is needed, and nothing else changes |
| CropPad.UpscaledCropPad | _funcs_crop_pad.py:141-159 | bundling the inputs into a record and reconciling gives `Reconcile` of the inputs |
| CropPad.Reconcile | _funcs_crop_pad.py:89-138 | with no resize needed, no crop and no padding at the target size; otherwise every strategy but EXACT_UPSCALE does exactly one of crop and pad, with the larger scale for CROP, the smaller for PAD, the one that matches its choice for NEAREST, and the requested factor for EXACT_UPSCALE |
| CropPad.ReconcileWithoutResize | _funcs_crop_pad.py:91-97 | when no resize is needed: the average scale, the target size, no crop, no padding and all offsets zero |
| CropPad.ReconcileCropAndPad | _funcs_crop_pad.py:102-106 | CROP uses the larger scale and only crops, to the target size; PAD uses the smaller scale and only pads |
| CropPad.ReconcileFitsTarget | _funcs_crop_pad.py:99-106 | for any alignment input, CROP's window lies inside the scaled image, and PAD's image plus padding equals the target |
| CropPad.ReconcileNearest | _funcs_crop_pad.py:108-115 | NEAREST returns the pad result iff it changes strictly fewer pixels than the crop result, so a tie goes to the crop result |
| CropPad.ReconcileExactUpscale | _funcs_crop_pad.py:117-138 | EXACT_UPSCALE keeps the requested factor; kept is min(target, scaled); kept plus padding is the target; it crops iff it overhangs and pads iff it falls short |
| CropPad.ExactUpscaleAxesExclusive | _funcs_crop_pad.py:125-133 | EXACT_UPSCALE never both crops and pads the same axis |
| DocString.LeadingRun | docstring_formatter.py:13-14 | the length of the longest prefix made of one character, as the regexes' `\t*` and ` +` groups measure it |
| DocString.RStrip | docstring_formatter.py:111 | `rstrip()`: a prefix of the line, with only whitespace removed and no whitespace left at its end |
| DocString.SplitLines | docstring_formatter.py:110 | `splitlines()`: the empty string, and only it, has no lines; a string without breaks is its own single line; no line contains a line break |
| DocString.SplitLinesJoin | docstring_formatter.py:110 | for a string whose only breaks are `\n` and which does not end in one, joining its lines with `\n` gives it back |
| DocString.JoinWith | docstring_formatter.py:133 | `sep.join(parts)`: no parts give `''` and a single part gives that part |
| DocString.JoinWithCons | docstring_formatter.py:133 | joining splits at the front too: the first part, the separator, then the other parts joined |
| DocString.JoinWithLength | docstring_formatter.py:64 | the joined length is the parts' total length plus one separator between each two parts |
| DocString.IndentMatch | docstring_formatter.py:13 | a match consumes at least one space, so the rest is strictly shorter than the line |
| DocString.IndentMatchWhen | docstring_formatter.py:13 | the indent regex matches iff a space follows the leading tabs |
| DocString.IndentMatchSplits | docstring_formatter.py:13 | a match splits the line into leading tabs, spaces, following tabs and the rest; with no following tabs, the rest starts with neither a space nor a tab |
| DocString.TabsFromSpaces | docstring_formatter.py:38-42 | a run of spaces counts for a non-negative number of tabs |
| DocString.TabsFromSpacesWhole | docstring_formatter.py:38-42 | for tab sizes below 100000, spaces followed by tabs count exactly `spaces // tabSize` whole tabs, and spaces with no tabs after them count for more than `spaces / tabSize` |
| DocString.IndentScan | docstring_formatter.py:33-44 | the indent the loop sums is non-negative, and the text it leaves is no longer than the line |
| DocString.IndentScanRest | docstring_formatter.py:35-44 | the loop stops at a suffix of the line that the indent regex does not match |
| DocString.RecoverTabsShape | docstring_formatter.py:46-50 | the result is a run of tabs followed by the text the loop leaves, with no tab exactly when the indent is under half a tab |
| DocString.RecoverTabsKeepsTabIndent | docstring_formatter.py:35-47 | a line with no space in its leading whitespace is returned unchanged |
| DocString.RecoverTabsRoundTrip | docstring_formatter.py:28-50 | `m` tabs' worth of spaces before the text become exactly `m` tabs, which undoes tab expansion |
| DocString.RecoverTabsHalfUp | docstring_formatter.py:38-49 | half a tab of spaces or more, after whole tabs' worth, rounds up to one more tab |
| DocString.RecoverTabsRoundsDown | docstring_formatter.py:38-49 | for tab sizes below 25000, fewer than half a tab of spaces after `m` whole tabs' worth become exactly `m` tabs before the text, `m = 0` included |
| DocString.RecoverTabsUnderHalf | docstring_formatter.py:46-47 | for tab sizes below 50000, fewer than half a tab of spaces before a text are dropped, and the text comes back alone |
| DocString.UnderHalfRoundsUpAtLargeTabSize | docstring_formatter.py:38-49 | at tab size 100001, 50000 spaces before a text (under half a tab) come back as one tab, because of the `+ 0.00001` |
| DocString.RecoverTabsDropsPartialTab | docstring_formatter.py:40-43 | less than a tab of spaces before tabs is dropped, and only the tabs remain |
| DocString.DocStringFormatter.constructor | docstring_formatter.py:25-26 | the formatter holds the given docstring and tab size |
| DocString.DocStringFormatter.RecoverTabIndents | docstring_formatter.py:28-50 | the regex loop returns exactly `RecoverTabs` of the line |
| DocString.SplitIndent | docstring_formatter.py:70-73 | a chunk is its leading tabs followed by a text that does not start with a tab |
| DocString.Chunks | docstring_formatter.py:66-73 | one (indent, text) item per paragraph line |
| DocString.JoinStep | docstring_formatter.py:75-86 | one more item either joins the pending block (same indent) or closes it and opens a new block |
| DocString.GroupPartitions | docstring_formatter.py:66-89 | the blocks' texts, concatenated, are the chunks' texts in order; no block is empty; neighbouring blocks differ in indent; the last block has the last chunk's indent |
| DocString.JoinedParagraphLength | docstring_formatter.py:66-89 | a paragraph yields no lines only when it is empty, and never more lines than it has |
| DocString.GroupSameIndent | docstring_formatter.py:75-77 | chunks that all share one indent form a single block |
| DocString.RenderAll | docstring_formatter.py:63-64 | one line per block: its indent as tabs, then its texts joined by single spaces |
| DocString.DocStringFormatter.JoinParagraph | docstring_formatter.py:52-89 | the generator's lines are exactly `JoinedParagraph` of the paragraph |
| DocString.StrippedLinesShape | docstring_formatter.py:110-111 | one stripped line per line of the docstring: a prefix of it, with only whitespace removed and none left at its end |
| DocString.EmitStep | docstring_formatter.py:110-125 | a non-empty line extends the paragraph; the first empty line flushes it; any further empty line yields `''` |
| DocString.EmitBlanks | docstring_formatter.py:124-125 | a run of empty lines with no paragraph open gives as many empty output lines |
| DocString.ParagraphThenBlanks | docstring_formatter.py:110-125 | a paragraph followed by `k >= 1` empty lines gives the paragraph's lines, then `k - 1` empty lines, then the rest |
| DocString.OneParagraph | docstring_formatter.py:110-130 | a document that is one continuous paragraph formats to that paragraph's joined lines |
| DocString.EmitLength | docstring_formatter.py:110-130 | the output has at most as many lines as the open paragraph and the lines still to read together |
| DocString.FormattedLength | docstring_formatter.py:91-130 | formatting never yields more lines than the docstring has |
| DocString.BlankDocFormatsEmpty | docstring_formatter.py:98-103 | an empty or whitespace-only docstring yields no lines, so the empty string |
| DocString.EmitAdvance | docstring_formatter.py:110-124 | one line of the loop keeps "lines yielded so far, then what the remaining lines yield" equal to the whole output: a non-empty line joins the open paragraph, the first empty line after a paragraph yields that paragraph, any other empty line yields `''` |
| DocString.DocStringFormatter.FormattedParagraphs | docstring_formatter.py:91-130 | yields exactly `Formatted(doc, tabSize)`; the docstring is unchanged; the tab size is clamped to at least 1 unless the docstring is blank |
| DocString.DocStringFormatter.Call | docstring_formatter.py:132-133 | the formatted lines joined with newlines; the docstring is unchanged and, as a side effect of `docstring_formatter.py:105`, the tab size is clamped to at least 1 unless the docstring is blank |
| DocString.FromObject | docstring_formatter.py:135-141 | no docstring, or an empty one, gives `''`; otherwise the formatter's output for it |
| Prims.VerifyMember | nodes_prims.py:41-44 | Ok iff the value is in the allowed tuple, and then Ok is the value itself; an error names the value and the tuple |
| Prims.ResPriorityVerify | nodes_prims.py:41-44 | accepts exactly the `RoundingPriority` values and returns them unchanged; an error names the value and the full tuple |
| Prims.UpStrategyVerify | nodes_prims.py:95-98 | accepts exactly the `UpscaledCropPadStrategy` values and returns them unchanged; an error names the value and the full tuple |
| Prims.PriorityValuesAreTheEnum | nodes_prims.py:21-22 | the priority tuple (`Prims.PriorityValues`, `RoundingPriority.all_values()`) lists every member's value, only those, and each once |
| Prims.StrategyValuesAreTheEnum | nodes_prims.py:75-76 | the strategy tuple (`Prims.StrategyValues`, `UpscaledCropPadStrategy.all_values()`) lists every member's value, only those, and each once |
| Prims.ValuesIdentifyMembers | enums.py:11-18 | distinct members have distinct values |
| Prims.VerifyIdempotent | nodes_prims.py:41-44 | validating an accepted value again gives the same result |
| Prims.DefaultsAreAllowed | nodes_prims.py:26 | the widget defaults DESIRED and EXACT_UPSCALE pass their validators |
| NodesSimple.BestResolutionSimple | nodes_simple.py:83-92 | both sides are positive multiples of the step, the step made an int of at least 1, and they are the closest-ratio solver's answer for the requested width and height |
| NodesSimple.BestResolutionSimpleKeepsGrid | nodes_simple.py:88-92 | a width and height already on the step grid are returned unchanged |
| NodesSimple.OtherSide | nodes_simple.py:164-167 | the derived side stands to the given side as small/big when the given side is the big one, else as big/small |
| NodesSimple.OtherSideBound | nodes_simple.py:164-167 | the derived side is at most the given side when that side is the big one, else at least it |
| NodesSimple.ApproxSizeFromAspect | nodes_simple.py:162-172 | the two sides are the given size and the derived side; the larger is the width for landscape and the height for portrait |
| NodesSimple.ApproxSizeKeepsRatio | nodes_simple.py:162-172 | the larger approximate side over the smaller is the sorted aspect ratio |
| NodesSimple.ApproxSizePositive | nodes_simple.py:164-172 | a positive size gives positive approximate sides |
| NodesSimple.BestResolutionFromAspectRatio | nodes_simple.py:156-178 | both sides are positive multiples of the step, and they are the closest-ratio solver's answer for the positive approximate size `ApproxSizeFromAspect` |
| NodesSimple.ApproxSizeFromArea | nodes_simple.py:238-239 | the square side is made an int of at least 1, and the rectangle is positive with that square's area; it is `FloatWidthHeightFromArea` of that side, so `FloatWidthHeightKeepsRatio` applies |
| NodesSimple.BestResolutionFromArea | nodes_simple.py:232-244 | both sides are positive multiples of the step, and they are the closest-ratio solver's answer for the approximate size `ApproxSizeFromArea` |

## Left out

- Floating-point rounding error. All arithmetic is on exact reals. Results
  that depend on the last bit of a float, such as an exact tie in the
  solver or a value sitting at .5, can differ from the Python program.
- `math.sqrt` in `_funcs.py:78`: the square root enters as the parameter
  `root`, with its defining equation as a premise.
- CropPad.RoundPosInt: the body of `_round_pos_int` is not part of this
  model. It is half-up rounding with a lower clamp `lo` given as a
  parameter, not the exact source function.
- `_need_post_resize` is not part of this model. Its flag and scales are a
  `PostResize` input, so no lemma states how the flag is decided.
- CropPad.CropWindowInside, CropPad.ReconcileFitsTarget,
  CropPad.CropOffsetsAligned, CropPad.PadSidesAligned,
  CropPad.PadSidesNonNegative, CropPad.PadDeltaIsAddedArea and
  CropPad.AlignedShareWithin require the clamp `lo <= 0`, and CropPad.PadReachesTarget requires `lo <= 1`. With a larger
  clamp, small extras round up past the space available: with `lo = 1`,
  CROP's exactly fitting axis has an extra of 0 but an offset of 1, so the
  window overhangs the scaled image by one pixel
  (CropPad.CropOverhangsWithUnitClamp).
- The status text of `upscaled_crop_pad` (`_funcs_crop_pad.py:161-183`) and
  the report of `simple_result_from_approx_wh` (`_funcs.py:148-157`,
  `format_report`) are left out. They only send text to the user interface.
  The `show` and `unique_id` inputs go with them, and so does
  `target_square_size`, which only feeds that report.
- A strategy string outside the four members would reach the `assert` at
  `_funcs_crop_pad.py:117`. The model types the strategy as the enum, so
  that failure is not modelled. The crop/pad node passes the strategy
  through `_up_strategy_validate` first (`node_crop_pad.py:93`); that
  function is not part of this model.
- `UpscaledCropPadStrategy` is not in `enums.py`. Its string values are
  taken to be the lower-case member names (`Prims.StrategyValues`).
- Funcs.NumberToInt: the branch for a value that is neither `int` nor
  `float` (`_funcs.py:29-30`, generic `int(value)`) is left out, because
  the nodes only pass ints and floats.
- DocString.RecoverTabsDropsPartialTab is stated only for tab sizes below
  100000. Beyond that the source's `+ 0.00001` can push a partial tab over a
  whole one. DocString.TabsFromSpacesWhole has the same bound for the same
  reason.
- DocString.RecoverTabsRoundsDown is stated only for tab sizes below 25000.
  Beyond that the source's `+ 0.00001` and `+ 0.50001` can round just under
  half a tab up to a whole one: with a tab size of 30001, one tab's worth of
  spaces plus 15000 more becomes two tabs.
- DocString.RecoverTabsUnderHalf is stated only for tab sizes below 50000.
  With a tab size of 100001, 50000 spaces come to 0.500005 tabs after the
  `+ 0.00001`, and round up to one tab (DocString.UnderHalfRoundsUpAtLargeTabSize).
- DocString.FromObject takes the docstring `_getdoc` would return, or None.
  Looking up an object's docstring is not modelled.
- `assert` statements in the formatter (`docstring_formatter.py:30`) are
  preconditions of `RecoverTabIndents` (a non-empty line).
- The node classes' ComfyUI plumbing (`INPUT_TYPES`, `RETURN_TYPES`,
  tooltips, categories) is left out; only their `main` computations are
  modelled. The upscale nodes and their solver are not part of this model.
