/**
 * One OEE figure: the window it covers, its Availability and Performance
 * (either may be absent), and the combined value.
 */
module Oee {
  import opened Common
  import Availability
  import Performance

  datatype OeeResult = OeeResult(from: Time, to: Time,
                                 availability: Option<Availability.AvailabilityResult>,
                                 performance: Option<Performance.PerformanceResult>)

  /** Performance is only ever attached next to an Availability. */
  predicate Valid(o: OeeResult)
  {
    o.performance.Some? ==> o.availability.Some?
  }

  /**
   * The OEE value: Availability x Performance when there is a Performance,
   * the Availability alone when there is only that, and 0 with neither.
   * None stands for a non-finite value (a Performance ratio with zero
   * operating time).
   */
  function Value(o: OeeResult): (r: Option<real>)
    requires Valid(o)
    ensures o.performance.Some? ==>
              (r.Some? <==> Performance.Value(o.performance.value).Some?) &&
              (r.Some? ==> r.value == Availability.Value(o.availability.value) * Performance.Value(o.performance.value).value)
    ensures o.performance.None? && o.availability.Some? ==> r == Some(Availability.Value(o.availability.value))
    ensures o.performance.None? && o.availability.None? ==> r == Some(0.0)
  {
    if o.performance.Some? then
      var p := Performance.Value(o.performance.value);
      if p.None? then None else Some(Availability.Value(o.availability.value) * p.value)
    else if o.availability.Some? then Some(Availability.Value(o.availability.value))
    else Some(0.0)
  }

  /** When both ratios lie in [0, 1], so does the OEE value. */
  lemma ValueBounded(o: OeeResult)
    requires Valid(o)
    requires o.availability.Some? ==> 0.0 <= Availability.Value(o.availability.value) <= 1.0
    requires o.performance.Some? ==>
               Performance.Value(o.performance.value).Some? &&
               0.0 <= Performance.Value(o.performance.value).value <= 1.0
    ensures Value(o).Some? && 0.0 <= Value(o).value <= 1.0
  {
    if o.performance.Some? {
      var a := Availability.Value(o.availability.value);
      var p := Performance.Value(o.performance.value).value;
      Performance.ProductNonNegative(a, p);
      Performance.ProductNonNegative(a, 1.0 - p);
    }
  }
}
