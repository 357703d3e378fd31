/** The threshold classifier of the compressor: the running minimum and
    maximum of the sampled values and the midpoint rule that turns a field
    value into "on" (1) or "off" (0). */
module Classification {
  import opened Errors

  datatype Option<+T> = None | Some(value: T)

  /** The classifier state: the smallest and largest sampled value, unset
      until a batch has been sampled. */
  datatype Classifier = Classifier(minValue: Option<real>, maxValue: Option<real>) {

    predicate IsSet() {
      minValue.Some? && maxValue.Some?
    }

    /** The classification threshold (min + max) / 2, computed on demand. */
    function Midpoint(): real
      requires IsSet()
    {
      (maxValue.value + minValue.value) / 2.0
    }
  }

  /** The classifier state before any sample. */
  const Unset := Classifier(None, None)

  /** `value` classifies as "on": the threshold is set and `value` is at or
      above it. */
  predicate IsOn(c: Classifier, value: real) {
    c.IsSet() && value >= c.Midpoint()
  }

  /** normalize(value): 1 for "on", 0 for "off", an error before sampling. */
  function Normalize(c: Classifier, value: real): (r: Result<int>)
    ensures r.Failure? <==> !c.IsSet()
    ensures r.Failure? ==> r.error == ThresholdUnset
    ensures r.Success? ==> r.value == 0 || r.value == 1
    ensures r == Success(1) <==> IsOn(c, value)
  {
    if c.minValue.None? || c.maxValue.None? then Failure(ThresholdUnset)
    else
      var average := (c.maxValue.value + c.minValue.value) / 2.0;
      if value < average then Success(0) else Success(1)
  }

  /** Normalisation is monotone: a larger value never classifies lower. */
  lemma NormalizeMonotone(c: Classifier, v: real, w: real)
    requires c.IsSet() && v <= w
    ensures Normalize(c, v).value <= Normalize(c, w).value
  {
  }

  /** With min <= max the threshold lies between them: the maximum is always
      "on", and the minimum is "off" unless every sample was equal. */
  lemma ExtremesClassify(c: Classifier)
    requires c.IsSet() && c.minValue.value <= c.maxValue.value
    ensures c.minValue.value <= c.Midpoint() <= c.maxValue.value
    ensures Normalize(c, c.maxValue.value) == Success(1)
    ensures Normalize(c, c.minValue.value) == Success(0) <==> c.minValue.value < c.maxValue.value
  {
  }

  /** The reference values: with min 0.0 and max 1.0, 0.4 is "off" and both
      the midpoint 0.5 and 0.6 are "on"; before sampling every value fails. */
  lemma NormalizeExamples(v: real)
    ensures Normalize(Classifier(Some(0.0), Some(1.0)), 0.4) == Success(0)
    ensures Normalize(Classifier(Some(0.0), Some(1.0)), 0.5) == Success(1)
    ensures Normalize(Classifier(Some(0.0), Some(1.0)), 0.6) == Success(1)
    ensures Normalize(Unset, v) == Failure(ThresholdUnset)
  {
  }

  /** max(values). */
  function MaxValue(values: seq<real>): (m: real)
    requires |values| > 0
    ensures m in values
    ensures forall v :: v in values ==> v <= m
  {
    if |values| == 1 then values[0]
    else
      var rest := MaxValue(values[1..]);
      assert forall v :: v in values ==> v == values[0] || v in values[1..];
      if values[0] >= rest then values[0] else rest
  }

  /** min(values). */
  function MinValue(values: seq<real>): (m: real)
    requires |values| > 0
    ensures m in values
    ensures forall v :: v in values ==> m <= v
  {
    if |values| == 1 then values[0]
    else
      var rest := MinValue(values[1..]);
      assert forall v :: v in values ==> v == values[0] || v in values[1..];
      if values[0] <= rest then values[0] else rest
  }

  /** The classifier state after sampling `values`: both bounds set, min <= max,
      every sampled value between them and both bounds attained. */
  function Fit(values: seq<real>): (c: Classifier)
    requires |values| > 0
    ensures c.IsSet()
    ensures c.minValue.value <= c.maxValue.value
    ensures c.minValue.value in values && c.maxValue.value in values
    ensures forall v :: v in values ==> c.minValue.value <= v <= c.maxValue.value
  {
    Classifier(Some(MinValue(values)), Some(MaxValue(values)))
  }
}
