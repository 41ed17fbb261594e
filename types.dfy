/**
 * The entities the meal-item form works with: foods, units, stored amounts
 * (FoodValue), meals and logged meal items. Identities are opaque values that
 * can only be compared; times are seconds since 1970.
 */
module FoodTypes {

  datatype Option<+T> = None | Some(value: T) {
    function GetOr(default: T): T
    {
      if Some? then value else default
    }
  }

  type FoodId(==)
  type MealId(==)
  type ItemId(==)
  type SizeId(==)

  /** Seconds since 1970, as the Swift code's `timeIntervalSince1970` and `Date`. */
  type Date = real

  datatype WeightUnit = Gram | Kilogram | Ounce | Pound | Milligram

  /** An abstract volume unit, as offered in the unit picker. */
  datatype VolumeUnit =
    | Gallon | Quart | Pint | Cup | FluidOunce | Tablespoon | Teaspoon | Milliliter | Liter

  /** Which national definition of a volume unit is meant (a US cup is not an imperial cup). */
  datatype VolumeStandard = USLiquid | USDry | USLegal | USCustomary | Imperial | Metric

  /** A volume unit resolved to one concrete definition: it knows the abstract unit it stands for. */
  datatype VolumeExplicitUnit = VolumeExplicitUnit(volumeUnit: VolumeUnit, standard: VolumeStandard)

  /** The user's unit preferences: which definition of each volume unit they use. */
  datatype UserUnits = UserUnits(volume: VolumeUnit -> VolumeStandard) {
    /** The concrete unit this user means by the abstract volume unit `v`. */
    function VolumeExplicitUnitFor(v: VolumeUnit): (e: VolumeExplicitUnit)
      ensures e.volumeUnit == v
    {
      VolumeExplicitUnit(v, volume(v))
    }
  }

  /** A named size a food declares ("scoop", "slice"). */
  datatype FormSize = FormSize(id: SizeId, name: string)

  datatype UnitType = ServingType | WeightType | VolumeType | SizeType

  /**
   * The unit of a quantity, at the level of detail of its form unit: a weight,
   * an abstract volume, a serving, or one of the food's sizes, possibly
   * prefixed by a volume ("cup, chopped").
   */
  datatype Unit =
    | Weight(weight: WeightUnit)
    | Volume(volume: VolumeUnit)
    | Serving
    | Size(size: FormSize, volumePrefix: Option<VolumeUnit>)
  {
    /** The category of this unit (the Swift code's `unitType`). */
    function Kind(): UnitType
    {
      match this
      case Weight(_) => WeightType
      case Volume(_) => VolumeType
      case Serving => ServingType
      case Size(_, _) => SizeType
    }

    /** The parts of the form unit that a FoodValue records. */
    function WeightPart(): Option<WeightUnit>
    {
      if Weight? then Some(weight) else None
    }

    function VolumePart(): Option<VolumeUnit>
    {
      if Volume? then Some(volume) else None
    }

    function SizePart(): Option<FormSize>
    {
      if Size? then Some(size) else None
    }

    function SizeVolumePrefixPart(): Option<VolumeUnit>
    {
      if Size? then volumePrefix else None
    }
  }

  /** A value in a unit, scoped to the food that owns it. */
  datatype Quantity = Quantity(value: real, unit: Unit)

  datatype Food = Food(
    id: FoodId,
    defaultQuantity: Option<Quantity>,
    sizes: seq<FormSize>,
    hasServing: bool,
    canBeMeasuredInWeight: bool,
    canBeMeasuredInVolume: bool)

  /** A quantity paired with the food it measures (the Swift code's FoodQuantity). */
  datatype FoodQuantity = FoodQuantity(value: real, unit: Unit, food: Food)

  /** The stored form of an amount: a number and enough unit information to rebuild its unit. */
  datatype FoodValue = FoodValue(
    value: real,
    unitType: UnitType,
    weightUnit: Option<WeightUnit>,
    volumeExplicitUnit: Option<VolumeExplicitUnit>,
    sizeUnitId: Option<SizeId>,
    sizeUnitVolumePrefixExplicitUnit: Option<VolumeExplicitUnit>)

  datatype DayMeal = DayMeal(id: MealId, name: string, time: Date)

  datatype MealFoodItem = MealFoodItem(
    id: ItemId,
    food: Food,
    amount: FoodValue,
    markedAsEatenAt: Option<Date>,
    sortPosition: int,
    isSoftDeleted: bool)
}
