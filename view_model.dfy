/**
 * The editing state of one meal-log entry: the chosen food, the amount as a
 * number and as the text the user typed, its unit, the meal it goes in, and
 * the MealFoodItem assembled from them. The text field and the numeric amount
 * are kept in step, and the item is rebuilt whenever the amount or the unit
 * changes.
 */
module MealItem {
  import opened FoodTypes
  import opened FoodValues

  /** Renders an amount for the text field; a number always renders as some text. */
  type Formatter = f: real -> string | forall v :: f(v) != [] witness (v: real) => "0"

  /**
   * What the view-model asks of code outside it: number parsing and rendering,
   * the user's stored preferences and last-used quantities, and the unit
   * library's resolvers and equivalence engine.
   */
  datatype Collaborators = Collaborators(
    parse: string -> Option<real>,
    format: Formatter,
    userUnits: UserUnits,
    lastUsedQuantity: Food -> Option<Quantity>,
    unitFromFoodValue: (FoodValue, Food) -> Option<Unit>,
    unitFromFormUnit: (Unit, Food) -> Option<Unit>,
    equivalents: FoodQuantity -> seq<FoodQuantity>)

  /** The quantity a newly chosen food starts with: the user's last-used one, else the food's default. */
  function DefaultQuantity(food: Food, lastUsed: Option<Quantity>): (r: Option<Quantity>)
    ensures lastUsed.Some? ==> r == lastUsed
    ensures lastUsed.None? ==> r == food.defaultQuantity
    ensures r.None? <==> lastUsed.None? && food.defaultQuantity.None?
  {
    if lastUsed.Some? then lastUsed else food.defaultQuantity
  }

  /**
   * The entry for `food` at `amount`. Editing an existing entry keeps its
   * identity, eaten-at time, sort position and soft-delete flag; a new entry
   * gets `freshId`, is not marked eaten, sorts first and is not deleted.
   */
  function ItemFor(existing: Option<MealFoodItem>, freshId: ItemId, food: Food, amount: FoodValue)
    : (r: MealFoodItem)
    ensures r.food == food && r.amount == amount
    ensures existing.Some? ==>
              && r.id == existing.value.id
              && r.markedAsEatenAt == existing.value.markedAsEatenAt
              && r.sortPosition == existing.value.sortPosition
              && r.isSoftDeleted == existing.value.isSoftDeleted
    ensures existing.None? ==>
              r.id == freshId && r.markedAsEatenAt.None? && r.sortPosition == 1 && !r.isSoftDeleted
  {
    match existing
    case Some(e) => MealFoodItem(e.id, food, amount, e.markedAsEatenAt, e.sortPosition, e.isSoftDeleted)
    case None => MealFoodItem(freshId, food, amount, None, 1, false)
  }

  class MealItemViewModel {
    var food: Option<Food>
    var unit: Unit
    var internalAmountDouble: Option<real>
    var internalAmountString: string
    var dayMeal: DayMeal
    var mealFoodItem: MealFoodItem
    const existingMealFoodItem: Option<MealFoodItem>
    const initialDayMeal: Option<DayMeal>

    /** The text field is empty exactly when no amount is set. */
    ghost predicate Valid()
      reads this
    {
      internalAmountDouble.None? <==> internalAmountString == []
    }

    /** When a food is chosen, the item reflects the current food, amount and unit. */
    ghost predicate ItemIsCurrent(userUnits: UserUnits)
      reads this
    {
      food.Some? ==>
        mealFoodItem == ItemFor(existingMealFoodItem, mealFoodItem.id, food.value, AmountValue(userUnits))
    }

    /**
     * A new form. An amount passed in is used when the library can rebuild its
     * unit within the food; otherwise the food's default quantity applies, and
     * failing that the amount stays at 1 serving. `newMeal` is the meal used
     * when none is given; `placeholder` is the item shown until a food is chosen.
     */
    constructor (
      existing: Option<MealFoodItem>, dayMeal: Option<DayMeal>, food: Option<Food>,
      amount: Option<FoodValue>, newMeal: DayMeal, placeholder: MealFoodItem,
      env: Collaborators, freshId: ItemId)
      ensures Valid() && ItemIsCurrent(env.userUnits)
      ensures existingMealFoodItem == existing && initialDayMeal == dayMeal
      ensures this.food == food && this.dayMeal == dayMeal.GetOr(newMeal)
      ensures food.None? ==> mealFoodItem == placeholder
      ensures food.Some? ==> mealFoodItem == ItemFor(existing, freshId, food.value, AmountValue(env.userUnits))
      ensures amount.Some? && food.Some? && env.unitFromFoodValue(amount.value, food.value).Some? ==>
                && internalAmountDouble == Some(amount.value.value)
                && internalAmountString == env.format(amount.value.value)
                && unit == env.unitFromFoodValue(amount.value, food.value).value
      ensures !(amount.Some? && food.Some? && env.unitFromFoodValue(amount.value, food.value).Some?) ==>
                var q := if food.Some? then DefaultQuantity(food.value, env.lastUsedQuantity(food.value)) else None;
                if q.Some? then
                  && internalAmountDouble == Some(q.value.value) && unit == q.value.unit
                  && internalAmountString == env.format(q.value.value)
                else internalAmountDouble == Some(1.0) && internalAmountString == "1" && unit == Serving
    {
      this.food := food;
      this.dayMeal := dayMeal.GetOr(newMeal);
      this.initialDayMeal := dayMeal;
      this.mealFoodItem := placeholder;
      this.existingMealFoodItem := existing;
      this.unit := Serving;
      this.internalAmountDouble := Some(1.0);
      this.internalAmountString := "1";
      new;
      if amount.Some? && food.Some? && env.unitFromFoodValue(amount.value, food.value).Some? {
        SetAmount(Some(amount.value.value), env, freshId);
        this.unit := env.unitFromFoodValue(amount.value, food.value).value;
      } else {
        SetDefaultUnit(env, freshId);
      }
      SetFoodItem(env.userUnits, freshId);
    }

    /** The item after a rebuild: assembled afresh when a food is chosen, otherwise `previous`. */
    function Rebuilt(previous: MealFoodItem, userUnits: UserUnits, freshId: ItemId): (r: MealFoodItem)
      reads this
    {
      if food.Some? then ItemFor(existingMealFoodItem, freshId, food.value, AmountValue(userUnits))
      else previous
    }

    /** Chooses a food: applies its default quantity and rebuilds the item. */
    method SetFood(newFood: Food, env: Collaborators, freshId: ItemId)
      requires Valid()
      modifies this
      ensures Valid() && ItemIsCurrent(env.userUnits)
      ensures food == Some(newFood) && dayMeal == old(dayMeal)
      ensures var q := DefaultQuantity(newFood, env.lastUsedQuantity(newFood));
              if q.Some? then
                internalAmountDouble == Some(q.value.value) && unit == q.value.unit
                && internalAmountString == env.format(q.value.value)
              else
                internalAmountDouble == old(internalAmountDouble) && unit == old(unit)
                && internalAmountString == old(internalAmountString)
      ensures mealFoodItem == ItemFor(existingMealFoodItem, freshId, newFood, AmountValue(env.userUnits))
    {
      food := Some(newFood);
      SetDefaultUnit(env, freshId);
      SetFoodItem(env.userUnits, freshId);
    }

    /**
     * Applies the chosen food's default quantity, the user's last-used one
     * taking precedence. The item is rebuilt while the amount changes, before
     * the unit does.
     */
    method SetDefaultUnit(env: Collaborators, freshId: ItemId)
      requires Valid()
      modifies this
      ensures Valid()
      ensures food == old(food) && dayMeal == old(dayMeal)
      ensures old(food).None? ==> unchanged(this)
      ensures old(food).Some? ==>
                var q := DefaultQuantity(old(food).value, env.lastUsedQuantity(old(food).value));
                if q.None? then unchanged(this)
                else
                  && internalAmountDouble == Some(q.value.value) && unit == q.value.unit
                  && internalAmountString == env.format(q.value.value)
                  && mealFoodItem == ItemFor(existingMealFoodItem, freshId, food.value,
                                             FoodValueOf(q.value.value, old(unit), env.userUnits))
    {
      if food.None? {
        return;
      }
      var amountQuantity := DefaultQuantity(food.value, env.lastUsedQuantity(food.value));
      if amountQuantity.None? {
        return;
      }
      SetAmount(Some(amountQuantity.value.value), env, freshId);
      unit := amountQuantity.value.unit;
    }

    /** The amount is set and positive. */
    function AmountIsValid(): (r: bool)
      reads this
      ensures r ==> internalAmountDouble.Some?
      ensures r <==> internalAmountDouble.GetOr(0.0) > 0.0
    {
      match internalAmountDouble
      case None => false
      case Some(a) => a > 0.0
    }

    /**
     * Whether saving would change anything: for a new entry, whether the amount
     * is valid; when editing, whether the food, the valid amount or the meal
     * differs from the entry being edited.
     */
    function IsDirty(userUnits: UserUnits): (r: bool)
      reads this
      ensures existingMealFoodItem.None? ==> (r <==> AmountIsValid())
      ensures existingMealFoodItem.Some? ==>
                (r <==> || food.None?
                        || food.value.id != existingMealFoodItem.value.food.id
                        || (existingMealFoodItem.value.amount != AmountValue(userUnits) && AmountIsValid())
                        || initialDayMeal.None?
                        || initialDayMeal.value.id != dayMeal.id)
    {
      match existingMealFoodItem
      case None => AmountIsValid()
      case Some(existing) =>
        || Some(existing.food.id) != (if food.Some? then Some(food.value.id) else None)
        || (existing.amount != AmountValue(userUnits) && AmountIsValid())
        || (if initialDayMeal.Some? then Some(initialDayMeal.value.id) else None) != Some(dayMeal.id)
    }

    /** Sets the amount; the text field shows it rendered, or is cleared when it is unset. */
    method SetAmount(newValue: Option<real>, env: Collaborators, freshId: ItemId)
      requires Valid()
      modifies this
      ensures Valid() && ItemIsCurrent(env.userUnits)
      ensures internalAmountDouble == newValue
      ensures internalAmountString == if newValue.Some? then env.format(newValue.value) else []
      ensures food == old(food) && unit == old(unit) && dayMeal == old(dayMeal)
      ensures mealFoodItem == Rebuilt(old(mealFoodItem), env.userUnits, freshId)
    {
      internalAmountDouble := newValue;
      internalAmountString := if newValue.Some? then env.format(newValue.value) else [];
      SetFoodItem(env.userUnits, freshId);
    }

    /** Rebuilds the item from the current food, amount and unit; does nothing before a food is chosen. */
    method SetFoodItem(userUnits: UserUnits, freshId: ItemId)
      modifies this`mealFoodItem
      ensures ItemIsCurrent(userUnits)
      ensures mealFoodItem == Rebuilt(old(mealFoodItem), userUnits, freshId)
    {
      if food.None? {
        return;
      }
      mealFoodItem := ItemFor(existingMealFoodItem, freshId, food.value, AmountValue(userUnits));
    }

    /**
     * Takes text from the amount field. Empty text unsets the amount (it does
     * not become zero); text that is not a number is ignored; a number is kept
     * together with the exact text typed.
     */
    method SetAmountString(text: string, env: Collaborators, freshId: ItemId)
      requires Valid()
      modifies this
      ensures Valid()
      ensures text == [] ==>
                && internalAmountDouble.None? && internalAmountString == [] && !AmountIsValid()
                && mealFoodItem == Rebuilt(old(mealFoodItem), env.userUnits, freshId)
      ensures text != [] && env.parse(text).None? ==> unchanged(this)
      ensures text != [] && env.parse(text).Some? ==>
                && internalAmountDouble == env.parse(text) && internalAmountString == text
                && (AmountIsValid() <==> env.parse(text).value > 0.0)
                && mealFoodItem == Rebuilt(old(mealFoodItem), env.userUnits, freshId)
      ensures text == [] || env.parse(text).Some? ==> ItemIsCurrent(env.userUnits)
      ensures food == old(food) && unit == old(unit) && dayMeal == old(dayMeal)
    {
      if text == [] {
        internalAmountDouble := None;
        internalAmountString := text;
        SetFoodItem(env.userUnits, freshId);
        return;
      }
      var parsed := env.parse(text);
      if parsed.None? {
        return;
      }
      internalAmountDouble := parsed;
      internalAmountString := text;
      SetFoodItem(env.userUnits, freshId);
    }

    /** Steps the amount by `step`, an unset amount counting as zero. */
    method StepAmount(step: int, env: Collaborators, freshId: ItemId)
      requires Valid()
      modifies this
      ensures Valid() && ItemIsCurrent(env.userUnits)
      ensures internalAmountDouble == Some(old(internalAmountDouble).GetOr(0.0) + step as real)
      ensures internalAmountString == env.format(old(internalAmountDouble).GetOr(0.0) + step as real)
      ensures AmountIsValid() == old(AmountCanBeStepped(step))
      ensures food == old(food) && unit == old(unit) && dayMeal == old(dayMeal)
      ensures mealFoodItem == Rebuilt(old(mealFoodItem), env.userUnits, freshId)
    {
      SetAmount(Some(internalAmountDouble.GetOr(0.0) + step as real), env, freshId);
    }

    /** Stepping by `step` keeps the amount positive. */
    function AmountCanBeStepped(step: int): (r: bool)
      reads this
      ensures r <==> internalAmountDouble.GetOr(0.0) + step as real > 0.0
    {
      var amount := internalAmountDouble.GetOr(0.0);
      amount + step as real > 0.0
    }

    function ShouldShowServingInUnitPicker(): (r: bool)
      reads this
      ensures r <==> food.Some? && LegalFor(Serving, food.value)
    {
      food.Some? && food.value.hasServing
    }

    function ShouldShowWeightUnits(): (r: bool)
      reads this
      ensures r <==> food.Some? && LegalFor(Weight(Gram), food.value)
      ensures r ==> forall w :: LegalFor(Weight(w), food.value)
    {
      food.Some? && food.value.canBeMeasuredInWeight
    }

    function ShouldShowVolumeUnits(): (r: bool)
      reads this
      ensures r <==> food.Some? && LegalFor(Volume(Milliliter), food.value)
      ensures r ==> forall v :: LegalFor(Volume(v), food.value)
    {
      food.Some? && food.value.canBeMeasuredInVolume
    }

    /** Applies a unit picked in the unit picker, when the library resolves it for the food. */
    method DidPickUnit(picked: Unit, env: Collaborators, freshId: ItemId)
      requires Valid()
      modifies this
      ensures Valid()
      ensures old(food).None? || env.unitFromFormUnit(picked, old(food).value).None? ==> unchanged(this)
      ensures old(food).Some? && env.unitFromFormUnit(picked, old(food).value).Some? ==>
                && unit == env.unitFromFormUnit(picked, old(food).value).value
                && ItemIsCurrent(env.userUnits)
                && mealFoodItem == ItemFor(existingMealFoodItem, freshId, old(food).value, AmountValue(env.userUnits))
      ensures food == old(food) && dayMeal == old(dayMeal)
      ensures internalAmountDouble == old(internalAmountDouble)
      ensures internalAmountString == old(internalAmountString)
    {
      if food.None? {
        return;
      }
      var resolved := env.unitFromFormUnit(picked, food.value);
      if resolved.None? {
        return;
      }
      unit := resolved.value;
      SetFoodItem(env.userUnits, freshId);
    }

    /** Applies a quantity picked from the list of equivalents: its value and its unit. */
    method DidPickQuantity(quantity: FoodQuantity, env: Collaborators, freshId: ItemId)
      requires Valid()
      modifies this
      ensures Valid() && ItemIsCurrent(env.userUnits)
      ensures internalAmountDouble == Some(quantity.value) && unit == quantity.unit
      ensures internalAmountString == env.format(quantity.value)
      ensures food == old(food) && dayMeal == old(dayMeal)
      ensures mealFoodItem == Rebuilt(old(mealFoodItem), env.userUnits, freshId)
      ensures CurrentQuantity() == if food.Some? then Some(FoodQuantity(quantity.value, quantity.unit, food.value)) else None
    {
      SetAmount(Some(quantity.value), env, freshId);
      unit := quantity.unit;
      SetFoodItem(env.userUnits, freshId);
    }

    /** Moves the entry to another meal. */
    method SetDayMeal(meal: DayMeal)
      modifies this`dayMeal
      ensures dayMeal == meal
    {
      dayMeal := meal;
    }

    /** The stored form of the current amount in the current unit; an unset amount is stored as 0. */
    function AmountValue(userUnits: UserUnits): (r: FoodValue)
      reads this
      ensures r == FoodValueOf(internalAmountDouble.GetOr(0.0), unit, userUnits)
      ensures internalAmountDouble.None? ==> r.value == 0.0
      ensures internalAmountDouble.Some? ==> r.value == internalAmountDouble.value
    {
      FoodValueOf(internalAmountDouble.GetOr(0.0), unit, userUnits)
    }

    /** The amount as a quantity of the chosen food, when both a food and an amount are set. */
    function CurrentQuantity(): (r: Option<FoodQuantity>)
      reads this
      ensures r.Some? <==> food.Some? && internalAmountDouble.Some?
      ensures r.Some? ==> r.value == FoodQuantity(internalAmountDouble.value, unit, food.value)
    {
      if food.None? || internalAmountDouble.None? then None
      else Some(FoodQuantity(internalAmountDouble.value, unit, food.value))
    }

    /** The current quantity in the other units the library can express it in; none without a quantity. */
    function EquivalentQuantities(env: Collaborators): (r: seq<FoodQuantity>)
      reads this
      ensures CurrentQuantity().None? ==> r == []
      ensures CurrentQuantity().Some? ==> r == env.equivalents(CurrentQuantity().value)
    {
      match CurrentQuantity()
      case None => []
      case Some(q) => env.equivalents(q)
    }
  }

  /** Editing only the meal of an entry (same food, same stored amount) is a change exactly when the meal differs. */
  lemma MealOnlyEditIsDirtyIffMealDiffers(vm: MealItemViewModel, userUnits: UserUnits)
    requires vm.existingMealFoodItem.Some? && vm.initialDayMeal.Some? && vm.food.Some?
    requires vm.food.value.id == vm.existingMealFoodItem.value.food.id
    requires vm.AmountValue(userUnits) == vm.existingMealFoodItem.value.amount
    ensures vm.IsDirty(userUnits) <==> vm.initialDayMeal.value.id != vm.dayMeal.id
  {
  }

  /** When editing an entry opened without a meal, the form always counts as changed. */
  lemma EditWithoutInitialMealIsDirty(vm: MealItemViewModel, userUnits: UserUnits)
    requires vm.existingMealFoodItem.Some? && vm.initialDayMeal.None?
    ensures vm.IsDirty(userUnits)
  {
  }

  /**
   * When editing, switching to another unit the food offers while the amount
   * is valid makes the form changed, even if the number stays the same.
   */
  lemma UnitChangeIsDirty(vm: MealItemViewModel, userUnits: UserUnits, previous: Unit)
    requires vm.existingMealFoodItem.Some? && vm.food.Some? && vm.AmountIsValid()
    requires UniqueSizeIds(vm.food.value.sizes)
    requires LegalFor(previous, vm.food.value) && LegalFor(vm.unit, vm.food.value)
    requires vm.existingMealFoodItem.value.amount == FoodValueOf(vm.internalAmountDouble.value, previous, userUnits)
    requires vm.unit != previous
    ensures vm.IsDirty(userUnits)
  {
  }

  /**
   * Opening an existing entry with its own food, meal and stored amount leaves
   * the form unchanged, provided the amount's unit is rebuilt as
   * `UnitFromFoodValue` does and the entry uses the user's preferred volume units.
   */
  lemma ReopenedEntryIsNotDirty(vm: MealItemViewModel, userUnits: UserUnits)
    requires vm.existingMealFoodItem.Some? && vm.food.Some?
    requires vm.food.value.id == vm.existingMealFoodItem.value.food.id
    requires vm.initialDayMeal == Some(vm.dayMeal)
    requires UnitFromFoodValue(vm.existingMealFoodItem.value.amount, vm.food.value) == Some(vm.unit)
    requires vm.internalAmountDouble == Some(vm.existingMealFoodItem.value.amount.value)
    requires UsesPreferredUnits(vm.existingMealFoodItem.value.amount, userUnits)
    ensures !vm.IsDirty(userUnits)
  {
  }
}
