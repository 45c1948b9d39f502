/** Per-MW base costs scaled to a plant capacity. */
module Scaling {
  import opened RealMath

  /** `base * capacity^scalingFactor`, for the integer scaling factors `Pow` can express. */
  function ScaleWithCapacity(base: real, capacity: real, scalingFactor: nat := 1): (r: real)
    ensures scalingFactor == 1 ==> r == base * capacity
    ensures scalingFactor == 0 ==> r == base
  {
    assert Pow(capacity, 1) == capacity * Pow(capacity, 0);
    base * Pow(capacity, scalingFactor)
  }

  /** Linear scaling splits over a sum of capacities: two plants cost what one plant of their joint size costs. */
  lemma LinearScalingIsAdditive(base: real, c1: real, c2: real)
    ensures ScaleWithCapacity(base, c1 + c2) == ScaleWithCapacity(base, c1) + ScaleWithCapacity(base, c2)
  {
  }
}
