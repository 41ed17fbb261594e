/**
 * The stored form of an amount (FoodValue) and how it is built from a value and
 * a unit, resolving abstract volume units through the user's preferences.
 * Beside the mapping stands a reference inverse that rebuilds the unit from a
 * FoodValue within its food, and the proof that the two agree.
 */
module FoodValues {
  import opened FoodTypes

  /** Which units a food may be measured in: the categories its unit picker offers. */
  predicate LegalFor(unit: Unit, food: Food)
  {
    match unit
    case Weight(_) => food.canBeMeasuredInWeight
    case Volume(_) => food.canBeMeasuredInVolume
    case Serving => food.hasServing
    case Size(s, _) => s in food.sizes
  }

  /** No two sizes of a food share an identity. */
  predicate UniqueSizeIds(sizes: seq<FormSize>)
  {
    forall i, j :: 0 <= i < j < |sizes| ==> sizes[i].id != sizes[j].id
  }

  /**
   * A FoodValue records exactly the unit parts its unit type calls for: a weight
   * unit for weights, a resolved volume unit for volumes, a size identity (and
   * possibly a resolved volume prefix) for sizes, and nothing for servings.
   */
  predicate WellFormed(fv: FoodValue)
  {
    match fv.unitType
    case WeightType =>
      fv.weightUnit.Some? && fv.volumeExplicitUnit.None? && fv.sizeUnitId.None?
      && fv.sizeUnitVolumePrefixExplicitUnit.None?
    case VolumeType =>
      fv.weightUnit.None? && fv.volumeExplicitUnit.Some? && fv.sizeUnitId.None?
      && fv.sizeUnitVolumePrefixExplicitUnit.None?
    case ServingType =>
      fv.weightUnit.None? && fv.volumeExplicitUnit.None? && fv.sizeUnitId.None?
      && fv.sizeUnitVolumePrefixExplicitUnit.None?
    case SizeType =>
      fv.weightUnit.None? && fv.volumeExplicitUnit.None? && fv.sizeUnitId.Some?
  }

  /** Every resolved volume unit in `fv` is the one this user prefers for its abstract unit. */
  predicate UsesPreferredUnits(fv: FoodValue, userUnits: UserUnits)
  {
    && (fv.volumeExplicitUnit.Some? ==>
          fv.volumeExplicitUnit.value == userUnits.VolumeExplicitUnitFor(fv.volumeExplicitUnit.value.volumeUnit))
    && (fv.sizeUnitVolumePrefixExplicitUnit.Some? ==>
          fv.sizeUnitVolumePrefixExplicitUnit.value
          == userUnits.VolumeExplicitUnitFor(fv.sizeUnitVolumePrefixExplicitUnit.value.volumeUnit))
  }

  /** An optional abstract volume unit, resolved to this user's definition. */
  function ResolveVolume(v: Option<VolumeUnit>, userUnits: UserUnits): Option<VolumeExplicitUnit>
  {
    match v
    case Some(u) => Some(userUnits.VolumeExplicitUnitFor(u))
    case None => None
  }

  /**
   * The stored form of `value` in `unit`. The mapping never fails: it does not
   * check the unit against any food.
   */
  function FoodValueOf(value: real, unit: Unit, userUnits: UserUnits): (r: FoodValue)
    ensures r.value == value && r.unitType == unit.Kind()
    ensures r.weightUnit == (if unit.Weight? then Some(unit.weight) else None)
    ensures r.volumeExplicitUnit.Some? <==> unit.Volume?
    ensures unit.Volume? ==> r.volumeExplicitUnit.value.volumeUnit == unit.volume
    ensures r.sizeUnitId == (if unit.Size? then Some(unit.size.id) else None)
    ensures r.sizeUnitVolumePrefixExplicitUnit.Some? <==> unit.Size? && unit.volumePrefix.Some?
    ensures r.sizeUnitVolumePrefixExplicitUnit.Some? ==>
              r.sizeUnitVolumePrefixExplicitUnit.value.volumeUnit == unit.volumePrefix.value
    ensures WellFormed(r) && UsesPreferredUnits(r, userUnits)
  {
    FoodValue(
      value,
      unit.Kind(),
      unit.WeightPart(),
      ResolveVolume(unit.VolumePart(), userUnits),
      if unit.SizePart().Some? then Some(unit.SizePart().value.id) else None,
      ResolveVolume(unit.SizeVolumePrefixPart(), userUnits))
  }

  /** The first size in `sizes` with identity `id`, if any. */
  function FindSize(sizes: seq<FormSize>, id: SizeId): (r: Option<FormSize>)
    ensures r.Some? ==> r.value in sizes && r.value.id == id
    ensures r.Some? ==>
              exists k :: 0 <= k < |sizes| && sizes[k] == r.value
                          && forall j :: 0 <= j < k ==> sizes[j].id != id
    ensures r.None? ==> forall k :: 0 <= k < |sizes| ==> sizes[k].id != id
  {
    if sizes == [] then None
    else if sizes[0].id == id then Some(sizes[0])
    else FindSize(sizes[1..], id)
  }

  /** The abstract volume unit an optional resolved unit stands for. */
  function AbstractVolume(e: Option<VolumeExplicitUnit>): Option<VolumeUnit>
  {
    match e
    case Some(x) => Some(x.volumeUnit)
    case None => None
  }

  /**
   * The unit a FoodValue stands for within `food`, or None when the value is
   * malformed or names a unit the food does not offer.
   */
  function UnitFromFoodValue(fv: FoodValue, food: Food): (r: Option<Unit>)
    ensures r.Some? ==> LegalFor(r.value, food) && r.value.Kind() == fv.unitType
  {
    if !WellFormed(fv) then None
    else
      var unit :=
        match fv.unitType
        case WeightType => Some(Weight(fv.weightUnit.value))
        case VolumeType => Some(Volume(fv.volumeExplicitUnit.value.volumeUnit))
        case ServingType => Some(Serving)
        case SizeType =>
          match FindSize(food.sizes, fv.sizeUnitId.value)
          case Some(s) => Some(Size(s, AbstractVolume(fv.sizeUnitVolumePrefixExplicitUnit)))
          case None => None;
      if unit.Some? && LegalFor(unit.value, food) then unit else None
  }

  /** Storing a form unit the food offers and rebuilding it within the same food gives the unit back. */
  lemma UnitRoundTrip(value: real, unit: Unit, userUnits: UserUnits, food: Food)
    requires LegalFor(unit, food) && UniqueSizeIds(food.sizes)
    ensures UnitFromFoodValue(FoodValueOf(value, unit, userUnits), food) == Some(unit)
  {
  }

  /**
   * Rebuilding a unit from a FoodValue that uses the user's preferred volume
   * units and storing it again gives back the same FoodValue.
   */
  lemma FoodValueRoundTrip(fv: FoodValue, userUnits: UserUnits, food: Food)
    requires UnitFromFoodValue(fv, food).Some? && UsesPreferredUnits(fv, userUnits)
    ensures FoodValueOf(fv.value, UnitFromFoodValue(fv, food).value, userUnits) == fv
  {
  }

  /** Among the form units a food offers, the stored form tells every two units apart. */
  lemma FoodValueDeterminesUnit(value: real, u1: Unit, u2: Unit, userUnits: UserUnits, food: Food)
    requires LegalFor(u1, food) && LegalFor(u2, food) && UniqueSizeIds(food.sizes)
    ensures FoodValueOf(value, u1, userUnits) == FoodValueOf(value, u2, userUnits) <==> u1 == u2
  {
  }
}
