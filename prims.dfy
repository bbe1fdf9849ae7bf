/**
 * The selector nodes of `nodes_prims.py`: a priority or strategy string is
 * checked against the fixed tuple of allowed values and either returned as
 * it is or rejected with an error naming the value and the allowed tuple.
 */
module Prims {
  import CropPad

  /** `RoundingPriority`. */
  datatype RoundingPriority = Desired | Original | Upscaled

  /** The string value of each `RoundingPriority` member. */
  function PriorityValue(p: RoundingPriority): string
  {
    match p
    case Desired => "desired"
    case Original => "original"
    case Upscaled => "upscaled"
  }

  /** `RoundingPriority.all_values()`, in declaration order. */
  const PriorityValues: seq<string> := ["desired", "original", "upscaled"]

  /** The string value of each `UpscaledCropPadStrategy` member (the lower-case member name). */
  function StrategyValue(s: CropPad.Strategy): string
  {
    match s
    case Pad => "pad"
    case Crop => "crop"
    case Nearest => "nearest"
    case ExactUpscale => "exact_upscale"
  }

  /** `UpscaledCropPadStrategy.all_values()`. */
  const StrategyValues: seq<string> := ["pad", "crop", "nearest", "exact_upscale"]

  /** The `ValueError` raised for a value outside the allowed tuple. */
  datatype ValueError = InvalidValue(what: string, value: string, expected: seq<string>)

  datatype Result<T> = Ok(value: T) | Err(error: ValueError)

  /** Membership check shared by both validators: the value itself, or an error naming it and the allowed tuple. */
  function VerifyMember(what: string, value: string, allowed: seq<string>): (r: Result<string>)
    ensures r.Ok? <==> value in allowed
    ensures r.Ok? ==> r.value == value
    ensures r.Err? ==> r.error.value == value && r.error.expected == allowed
  {
    if value !in allowed then Err(InvalidValue(what, value, allowed)) else Ok(value)
  }

  /** `_res_priority_verify`. */
  function ResPriorityVerify(priority: string): (r: Result<string>)
    ensures r.Ok? <==> exists p :: PriorityValue(p) == priority
    ensures r.Ok? ==> r.value == priority
    ensures r.Err? ==> r.error.value == priority && r.error.expected == PriorityValues
  {
    assert forall v :: v in PriorityValues <==> exists p :: PriorityValue(p) == v by {
      PriorityValuesAreTheEnum();
    }
    VerifyMember("resolution priority", priority, PriorityValues)
  }

  /** `_up_strategy_verify`. */
  function UpStrategyVerify(strategy: string): (r: Result<string>)
    ensures r.Ok? <==> exists s :: StrategyValue(s) == strategy
    ensures r.Ok? ==> r.value == strategy
    ensures r.Err? ==> r.error.value == strategy && r.error.expected == StrategyValues
  {
    assert forall v :: v in StrategyValues <==> exists s :: StrategyValue(s) == v by {
      StrategyValuesAreTheEnum();
    }
    VerifyMember("upscale strategy", strategy, StrategyValues)
  }

  /** The priority tuple lists each member's value exactly once, and nothing else. */
  lemma PriorityValuesAreTheEnum()
    ensures forall p :: PriorityValue(p) in PriorityValues
    ensures forall v :: v in PriorityValues ==> exists p :: PriorityValue(p) == v
    ensures forall i, j :: 0 <= i < j < |PriorityValues| ==> PriorityValues[i] != PriorityValues[j]
  {
    assert PriorityValues[0] == PriorityValue(Desired);
    assert PriorityValues[1] == PriorityValue(Original);
    assert PriorityValues[2] == PriorityValue(Upscaled);
  }

  /** The strategy tuple lists each member's value exactly once, and nothing else. */
  lemma StrategyValuesAreTheEnum()
    ensures forall s :: StrategyValue(s) in StrategyValues
    ensures forall v :: v in StrategyValues ==> exists s :: StrategyValue(s) == v
    ensures forall i, j :: 0 <= i < j < |StrategyValues| ==> StrategyValues[i] != StrategyValues[j]
  {
    assert StrategyValues[0] == StrategyValue(CropPad.Pad);
    assert StrategyValues[1] == StrategyValue(CropPad.Crop);
    assert StrategyValues[2] == StrategyValue(CropPad.Nearest);
    assert StrategyValues[3] == StrategyValue(CropPad.ExactUpscale);
  }

  /** The value of a member names that member only. */
  lemma ValuesIdentifyMembers(p: RoundingPriority, q: RoundingPriority, s: CropPad.Strategy, t: CropPad.Strategy)
    ensures PriorityValue(p) == PriorityValue(q) ==> p == q
    ensures StrategyValue(s) == StrategyValue(t) ==> s == t
  {
  }

  /** Verifying an accepted value again accepts it again: both validators are idempotent. */
  lemma VerifyIdempotent(value: string)
    ensures ResPriorityVerify(value).Ok? ==> ResPriorityVerify(ResPriorityVerify(value).value) == ResPriorityVerify(value)
    ensures UpStrategyVerify(value).Ok? ==> UpStrategyVerify(UpStrategyVerify(value).value) == UpStrategyVerify(value)
  {
  }

  /** The widget defaults, DESIRED and EXACT_UPSCALE, pass their own validators. */
  lemma DefaultsAreAllowed()
    ensures ResPriorityVerify(PriorityValue(Desired)) == Ok("desired")
    ensures UpStrategyVerify(StrategyValue(CropPad.ExactUpscale)) == Ok("exact_upscale")
  {
    assert PriorityValues[0] == "desired";
    assert StrategyValues[3] == "exact_upscale";
  }
}
