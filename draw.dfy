/**
 * The draw made when the spin button is clicked: pick one of the available
 * records, find its position in the whole inventory by name, map that
 * position to one of the wheel's four quadrants, and compute the rotation
 * that leaves the pointer on the middle of that quadrant after five full
 * turns. All angles are whole degrees.
 */
module Draw {
  import opened Options
  import opened Prizes

  const NumVisualSegments := 4
  const AnglePerVisualSegment := 360 / NumVisualSegments
  const TotalSpins := 5

  /** The quadrant a record at inventory position `i` lands on; records four apart share one. */
  function VisualLandingIndex(i: nat): (v: nat)
    ensures v < NumVisualSegments
    ensures (i - v) % NumVisualSegments == 0
    ensures i < NumVisualSegments ==> v == i
  {
    i % NumVisualSegments
  }

  /** The angle of the middle of quadrant `v`, measured from the start of quadrant 0. */
  function TargetAngle(v: nat): (deg: int)
    requires v < NumVisualSegments
    ensures v * AnglePerVisualSegment < deg < (v + 1) * AnglePerVisualSegment
    ensures 2 * (deg - v * AnglePerVisualSegment) == AnglePerVisualSegment
    ensures 45 <= deg <= 315
  {
    v * AnglePerVisualSegment + AnglePerVisualSegment / 2
  }

  /**
   * The clockwise rotation applied to the wheel: more than five full turns,
   * and what is left over brings the middle of quadrant `v` under the pointer.
   */
  function FinalRotation(v: nat): (deg: int)
    requires v < NumVisualSegments
    ensures TotalSpins * 360 < deg < (TotalSpins + 1) * 360
    ensures 1845 <= deg <= 2115
    ensures (deg + TargetAngle(v)) % 360 == 0
  {
    TotalSpins * 360 + (360 - TargetAngle(v))
  }

  /** A later quadrant needs strictly less rotation. */
  lemma FinalRotationDecreasing(v: nat, w: nat)
    requires v < w < NumVisualSegments
    ensures FinalRotation(v) > FinalRotation(w)
  {
  }

  /** The outcome of a click that starts a spin: the drawn record, its inventory position, quadrant and rotation. */
  datatype SpinPlan = SpinPlan(chosen: Prize, index: nat, visual: nat, rotation: int)

  /**
   * The draw for random index `k` into the available records. `None` is the
   * source's "selected record not found" branch, which this contract shows
   * can never be taken.
   */
  function PlanSpin(ps: seq<Prize>, k: nat): (plan: Option<SpinPlan>)
    requires k < |Available(ps)|
    ensures plan.Some?
    ensures plan.value.chosen == Available(ps)[k] && plan.value.chosen.currentQuantity > 0
    ensures plan.value.index < |ps| && ps[plan.value.index].name == plan.value.chosen.name
    ensures forall j :: 0 <= j < plan.value.index ==> ps[j].name != plan.value.chosen.name
    ensures UniqueNames(ps) ==> plan.value.index == AvailableIndex(ps, k) && ps[plan.value.index] == plan.value.chosen
    ensures plan.value.visual < NumVisualSegments
    ensures plan.value.visual == VisualLandingIndex(plan.value.index)
    ensures plan.value.rotation == FinalRotation(plan.value.visual)
  {
    var chosen := Available(ps)[k];
    var index := FindIndexByName(ps, chosen.name);
    LookupFindsChosen(ps, k);
    if index == -1 then None
    else
      var visual := VisualLandingIndex(index);
      Some(SpinPlan(chosen, index, visual, FinalRotation(visual)))
  }

  /**
   * Names are the only link between the drawn record and its position. With
   * two records called "A", the first out of stock and the second in stock,
   * the draw picks the second but the look-up lands on the first, so the
   * finished spin takes that record below zero.
   */
  lemma DuplicateNamesCanOverdraw()
    ensures var ps := [Prize("A", 1, 0, PrizeKind), Prize("A", 1, 1, PrizeKind)];
      && Available(ps) == [ps[1]]
      && PlanSpin(ps, 0).value.index == 0
      && Decremented(ps, PlanSpin(ps, 0).value.index)[0].currentQuantity == -1
  {
    var ps := [Prize("A", 1, 0, PrizeKind), Prize("A", 1, 1, PrizeKind)];
    assert Available(ps) == [ps[1]] by {
      assert ps[1..] == [ps[1]] && ps[1..][1..] == [];
    }
  }
}
