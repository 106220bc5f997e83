/** How many sectors a farm of a given size can hold, in checked 64-bit arithmetic. */
module SectorSizing {
  import opened Outcomes

  const U64_LIMIT: nat := 0x1_0000_0000_0000_0000

  function CheckedSub(a: nat, b: nat): Option<nat> {
    if a >= b then Some(a - b) else None
  }

  function CheckedMul(a: nat, b: nat): Option<nat> {
    if a * b < U64_LIMIT then Some(a * b) else None
  }

  function SaturatingSub(a: nat, b: nat): nat {
    if a >= b then a - b else 0
  }

  /** The space left for sectors once the cache has its percentage; none on overflow. */
  function PlottableSpace(pledged: nat, fixedUsage: nat, percentage: nat): Option<nat> {
    match CheckedSub(100, percentage)
    case None => None
    case Some(rest) => CheckedMul(SaturatingSub(pledged, fixedUsage) / 100, rest)
  }

  /** `target_sector_count`. */
  function TargetSectorCount(pledged: nat, fixedUsage: nat, percentage: nat, perSector: nat): Option<nat>
    requires perSector > 0
  {
    match PlottableSpace(pledged, fixedUsage, percentage)
    case None => None
    case Some(space) => Some(space / perSector)
  }

  lemma ShareIsBounded(hundredth: nat, percentage: nat)
    requires percentage <= 100
    ensures hundredth * (100 - percentage) + hundredth * percentage == hundredth * 100
  {
  }

  /** The computation overflows exactly for percentages above one hundred. */
  lemma OverflowsIffAbove100(pledged: nat, fixedUsage: nat, percentage: nat, perSector: nat)
    requires pledged < U64_LIMIT && perSector > 0
    ensures TargetSectorCount(pledged, fixedUsage, percentage, perSector).Some? <==> percentage <= 100
  {
    if percentage <= 100 {
      var hundredth := SaturatingSub(pledged, fixedUsage) / 100;
      ShareIsBounded(hundredth, percentage);
      MulNonNegative(hundredth, percentage);
      MulNonNegative(hundredth, 100 - percentage);
    }
  }

  lemma MulNonNegative(a: nat, b: nat)
    ensures a * b >= 0
  {
  }

  lemma DivisionBounds(space: nat, perSector: nat)
    requires perSector > 0
    ensures space / perSector * perSector <= space < (space / perSector + 1) * perSector
  {
  }

  /** The whole number of sectors that fit, by what it means. */
  ghost predicate IsGreatestFitting(n: nat, space: nat, perSector: nat) {
    n * perSector <= space && forall m: nat :: m * perSector <= space ==> m <= n
  }

  lemma QuotientIsGreatest(space: nat, perSector: nat)
    requires perSector > 0
    ensures IsGreatestFitting(space / perSector, space, perSector)
  {
    DivisionBounds(space, perSector);
    var n := space / perSector;
    forall m: nat | m * perSector <= space ensures m <= n {
      if m > n {
        MulMonotone(n + 1, m, perSector);
      }
    }
  }

  lemma MulMonotone(a: nat, b: nat, c: nat)
    requires a <= b
    ensures a * c <= b * c
  {
  }

  /**
   * Sectors, the cache's share and the fixed usage fit the allocation together; what is left over
   * is less than one sector and a hundred bytes; no further sector fits the plottable space.
   */
  lemma SectorsFillTheAllocation(pledged: nat, fixedUsage: nat, percentage: nat, perSector: nat)
    requires pledged < U64_LIMIT && perSector > 0 && percentage <= 100
    requires pledged >= fixedUsage
    ensures var sectors := TargetSectorCount(pledged, fixedUsage, percentage, perSector);
            var cacheShare := (pledged - fixedUsage) / 100 * percentage;
            && sectors.Some?
            && sectors.value * perSector + cacheShare + fixedUsage <= pledged
            && pledged < sectors.value * perSector + cacheShare + fixedUsage + perSector + 100
            && IsGreatestFitting(sectors.value, (pledged - fixedUsage) / 100 * (100 - percentage), perSector)
  {
    OverflowsIffAbove100(pledged, fixedUsage, percentage, perSector);
    var hundredth := (pledged - fixedUsage) / 100;
    var space := hundredth * (100 - percentage);
    ShareIsBounded(hundredth, percentage);
    MulNonNegative(hundredth, 100 - percentage);
    QuotientIsGreatest(space, perSector);
    DivisionBounds(space, perSector);
    var n := space / perSector;
    assert (n + 1) * perSector == n * perSector + perSector;
  }

  lemma QuotientMonotone(a: nat, b: nat, perSector: nat)
    requires a <= b && perSector > 0
    ensures a / perSector <= b / perSector
  {
    QuotientIsGreatest(b, perSector);
    DivisionBounds(a, perSector);
    assert a / perSector * perSector <= b;
  }

  /** More space never means fewer sectors, and more cache never means more of them. */
  lemma CountIsMonotone(
      pledged: nat, pledged': nat, fixedUsage: nat, percentage: nat, percentage': nat, perSector: nat)
    requires pledged <= pledged' < U64_LIMIT && percentage' <= percentage <= 100 && perSector > 0
    ensures TargetSectorCount(pledged, fixedUsage, percentage, perSector).Some?
    ensures TargetSectorCount(pledged', fixedUsage, percentage', perSector).Some?
    ensures TargetSectorCount(pledged, fixedUsage, percentage, perSector).value
            <= TargetSectorCount(pledged', fixedUsage, percentage', perSector).value
  {
    OverflowsIffAbove100(pledged, fixedUsage, percentage, perSector);
    OverflowsIffAbove100(pledged', fixedUsage, percentage', perSector);
    var a, b := SaturatingSub(pledged, fixedUsage) / 100, SaturatingSub(pledged', fixedUsage) / 100;
    assert a <= b;
    MulMonotone(a, b, 100 - percentage);
    MulMonotone(100 - percentage, 100 - percentage', b);
    MulNonNegative(a, 100 - percentage);
    QuotientMonotone(a * (100 - percentage), b * (100 - percentage'), perSector);
  }

  /** A farm that is not larger than its fixed usage holds no sector. */
  lemma NothingFitsFixedUsage(pledged: nat, fixedUsage: nat, percentage: nat, perSector: nat)
    requires pledged <= fixedUsage && percentage <= 100 && perSector > 0
    ensures TargetSectorCount(pledged, fixedUsage, percentage, perSector) == Some(0)
  {
    assert 0 / perSector == 0;
  }
}
