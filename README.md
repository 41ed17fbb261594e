# Meal item form: amount and unit editing, in Dafny

This project models the logic inside the meal-item form's view-model
(`MealItemViewModel`). The view-model edits one meal-log entry. It holds the
chosen food, the amount as a number and as the text the user typed, the unit,
the meal the entry goes in, and the `MealFoodItem` assembled from them. It
also models the mapping from a value and a unit to the stored form of an
amount, `FoodValue`.

- `types.dfy` (module `FoodTypes`): foods, units, `FoodValue`, meals, meal
  items, user unit preferences. Identities are opaque values that can only be
  compared.
- `food_value.dfy` (module `FoodValues`): the `FoodValue` initializer
  extension (`FoodValueOf`). It resolves each abstract volume unit to the
  user's preferred definition. Beside it stands a reference inverse,
  `UnitFromFoodValue`, which rebuilds the unit within its food. Round trips
  are proved in both directions. So is the fact that the stored form tells
  apart every two form units a food offers.
- `view_model.dfy` (module `MealItem`): the class `MealItemViewModel`. It
  holds the published fields the Swift class updates in place that bear on
  the amount and unit (`path`, `dayMeals`, `day` and
  `isAnimatingAmountChange` are left out), plus two constants the Swift class
  declares with `let` and does not publish: the entry being edited
  (`existingMealFoodItem`) and the meal it started in (`initialDayMeal`). Its methods
  are the amount and text setters, `setFoodItem`, `setDefaultUnit`,
  `setFood`, `stepAmount`, `didPickUnit`, `didPickQuantity` and the meal
  change. Its functions are the derived values `amountIsValid`, `isDirty`,
  `amountCanBeStepped`, `amountValue`, `currentQuantity`,
  `equivalentQuantities` and the three unit-picker flags
  (`shouldShowServingInUnitPicker`, `shouldShowWeightUnits`,
  `shouldShowVolumeUnits`). Every transition keeps the text field empty
  exactly when the amount is unset. Once a food is chosen, the item reflects
  the current food, amount and unit after every transition except
  `setDefaultUnit`. That one rebuilds the item while the amount changes and
  before the unit does. Its callers, `setFood` and the initializer, rebuild
  the item afterwards.

Code outside the view-model is passed in as a `Collaborators` value:

- number parsing (`Double(String)`) becomes `parse`;
- number rendering (`cleanAmount`) becomes `format`;
- the user's unit preferences, already resolved to the standard set when the
  user has none, become `userUnits`;
- the last-used-quantity lookup becomes `lastUsedQuantity`;
- the unit library's two unit initializers become `unitFromFoodValue` and
  `unitFromFormUnit`;
- the equivalence engine becomes `equivalents`.

A fresh `UUID()` is a `freshId` parameter.

Two facts about the `FoodValue` initializer
(`Sources/PrepMealItemForm/MealItemViewModel.swift:293-323`):

- It takes no food and never fails, so `FoodValueOf` is total. It does not
  check the unit against any food.
- Under the reading of the unit library stated under "## Left out", a
  weight, volume or size sets exactly one of `weightUnit`,
  `volumeExplicitUnit` and `sizeUnitId`, and a serving sets none of them.
  `WellFormed` records this.

## Model

| member | source | states |
|---|---|---|
| `FoodValues.FoodValueOf` | Sources/PrepMealItemForm/MealItemViewModel.swift:293-323 | the stored value is the given value and the unit type is the unit's own. A weight unit is copied only for weights. A resolved volume unit is present exactly for volume units, resolved through the user's preferences. A size identity is present exactly for sizes. A resolved volume prefix is present exactly for sizes that carry one. The result is well formed and uses only the user's preferred units |
| `FoodValues.UnitFromFoodValue` | Sources/PrepMealItemForm/MealItemViewModel.swift:69-70 | a unit rebuilt from a stored amount within a food is one the food offers, and it has the stored unit type |
| `FoodValues.FindSize` | Sources/PrepMealItemForm/MealItemViewModel.swift:69-70 | it inverts the size identity that line 319 stores. A size found by identity belongs to the food, has that identity and is the first such size. When none is found, no size of the food has that identity |
| `FoodValues.UnitRoundTrip` | Sources/PrepMealItemForm/MealItemViewModel.swift:293-323 | storing any form unit the food offers and rebuilding it within the same food gives the unit back (size identities unique) |
| `FoodValues.FoodValueRoundTrip` | Sources/PrepMealItemForm/MealItemViewModel.swift:293-323 | rebuilding a unit from a stored amount that uses the user's preferred volume units, and storing it again, gives the same stored amount |
| `FoodValues.FoodValueDeterminesUnit` | Sources/PrepMealItemForm/MealItemViewModel.swift:293-323 | for form units a food offers, two form units give equal stored amounts exactly when they are the same form unit |
| `MealItem.DefaultQuantity` | Sources/PrepMealItemForm/MealItemViewModel.swift:102-103 | the last-used quantity takes precedence over the food's default. The result is absent exactly when both are absent |
| `MealItem.ItemFor` | Sources/PrepMealItemForm/MealItemViewModel.swift:137-144 | the item carries the given food and amount. An edit carries forward the existing entry's identity, eaten-at time, sort position and soft-delete flag. A new entry gets the fresh identity, no eaten-at time, sort position 1 and is not deleted |
| `MealItem.MealItemViewModel.constructor` | Sources/PrepMealItemForm/MealItemViewModel.swift:39-84 | a given amount is used when its unit can be rebuilt within the given food. Otherwise the default quantity applies, and failing that the amount stays 1 serving with text "1". The meal falls back to the new meal, and the initial meal is the one given. The item is current once a food is set and is the placeholder otherwise |
| `MealItem.MealItemViewModel.SetFood` | Sources/PrepMealItemForm/MealItemViewModel.swift:94-98 | the food becomes the chosen one. Its default quantity (last-used first) sets amount, text and unit when there is one. The item is rebuilt for the new food with the current amount and unit |
| `MealItem.MealItemViewModel.SetDefaultUnit` | Sources/PrepMealItemForm/MealItemViewModel.swift:100-107 | with no food, or neither a last-used nor a default quantity, nothing changes. Otherwise amount, text and unit come from that quantity, with last-used first. The item is rebuilt while the old unit is still in place |
| `MealItem.MealItemViewModel.AmountIsValid` | Sources/PrepMealItemForm/MealItemViewModel.swift:109-112 | valid exactly when the amount is set and strictly positive |
| `MealItem.MealItemViewModel.IsDirty` | Sources/PrepMealItemForm/MealItemViewModel.swift:114-122 | a new entry is dirty exactly when the amount is valid. An edited entry is dirty exactly when one of these holds: no food, a different food, a different stored amount while the amount is valid, no initial meal, or a different meal |
| `MealItem.MealItemViewModel.SetAmount` | Sources/PrepMealItemForm/MealItemViewModel.swift:124-133 | the amount becomes the new value. The text shows it rendered, or becomes empty when the amount is unset. Food, unit and meal do not change, and the item is rebuilt |
| `MealItem.MealItemViewModel.SetFoodItem` | Sources/PrepMealItemForm/MealItemViewModel.swift:135-145 | with no food, nothing changes. Otherwise the item is built from the food, the current stored amount and the carried-forward fields. Only the item may change |
| `MealItem.MealItemViewModel.SetAmountString` | Sources/PrepMealItemForm/MealItemViewModel.swift:147-163 | empty text unsets the amount (not zero), stores the empty text, makes the amount invalid and rebuilds the item. Non-empty text that does not parse changes nothing at all. Parseable text stores the parsed number and exactly that text, and rebuilds the item. Food, unit and meal never change |
| `MealItem.MealItemViewModel.StepAmount` | Sources/PrepMealItemForm/MealItemViewModel.swift:197-210 | the amount becomes the old amount (unset counting as 0) plus the step, and the text shows it rendered. The amount is then valid exactly when the step was allowed beforehand |
| `MealItem.MealItemViewModel.AmountCanBeStepped` | Sources/PrepMealItemForm/MealItemViewModel.swift:212-215 | true exactly when the amount (unset counting as 0) plus the step is positive |
| `MealItem.MealItemViewModel.ShouldShowServingInUnitPicker` | Sources/PrepMealItemForm/MealItemViewModel.swift:221-224 | shown exactly when a food is chosen and serving is a legal unit for it |
| `MealItem.MealItemViewModel.ShouldShowWeightUnits` | Sources/PrepMealItemForm/MealItemViewModel.swift:258-260 | shown exactly when a food is chosen that offers weights, and then every weight unit is legal for it |
| `MealItem.MealItemViewModel.ShouldShowVolumeUnits` | Sources/PrepMealItemForm/MealItemViewModel.swift:262-264 | shown exactly when a food is chosen that offers volumes, and then every volume unit is legal for it |
| `MealItem.MealItemViewModel.DidPickUnit` | Sources/PrepMealItemForm/MealItemViewModel.swift:234-246 | with no food, or a picked unit the library does not resolve, nothing changes. Otherwise the unit becomes the resolved one and the item is rebuilt. The amount, its text, the food and the meal stay |
| `MealItem.MealItemViewModel.DidPickQuantity` | Sources/PrepMealItemForm/MealItemViewModel.swift:248-253 | amount, text and unit come from the picked quantity and the item is rebuilt. The current quantity is then the picked value and unit for the chosen food |
| `MealItem.MealItemViewModel.SetDayMeal` | Sources/PrepMealItemForm/MealItemViewModel.swift:86-92 | the meal becomes the picked one, and nothing else changes |
| `MealItem.MealItemViewModel.AmountValue` | Sources/PrepMealItemForm/MealItemViewModel.swift:266-272 | the stored form of the current amount in the current unit. An unset amount is stored as 0 |
| `MealItem.MealItemViewModel.CurrentQuantity` | Sources/PrepMealItemForm/MealItemViewModel.swift:332-343 | present exactly when both a food and an amount are set. It is then that amount in the current unit of that food |
| `MealItem.MealItemViewModel.EquivalentQuantities` | Sources/PrepMealItemForm/MealItemViewModel.swift:326-330 | empty when there is no current quantity. Otherwise it is the engine's expansion of the current quantity |
| `MealItem.MealOnlyEditIsDirtyIffMealDiffers` | Sources/PrepMealItemForm/MealItemViewModel.swift:114-122 | when editing an entry with the same food and the same stored amount, the form is dirty exactly when the meal's identity differs from the initial one |
| `MealItem.EditWithoutInitialMealIsDirty` | Sources/PrepMealItemForm/MealItemViewModel.swift:121 | when editing an entry that was opened without a meal, the form is always dirty |
| `MealItem.ReopenedEntryIsNotDirty` | Sources/PrepMealItemForm/MealItemViewModel.swift:114-122 | an existing entry opened with its own food, meal and stored amount is not dirty. This assumes its unit is rebuilt as `UnitFromFoodValue` does and it uses the user's preferred volume units |
| `MealItem.UnitChangeIsDirty` | Sources/PrepMealItemForm/MealItemViewModel.swift:119-120 | when editing, switching to another unit the food offers while the amount is valid makes the form dirty, even with the same number |

## Left out

- `MealItemFormPreview.swift` is SwiftUI layout (cells, fonts, sheets, focus, text selection). It has no logic beyond reading view-model values and pushing navigation routes.
- The notification-centre registration is broadcast plumbing and is left out. Its handler `didPickDayMeal` is modelled as the plain method `SetDayMeal`.
- `programmaticallyChangeAmount` sets the amount after two delayed main-queue callbacks and toggles `isAnimatingAmountChange`. This is presentation timing. `StepAmount` applies the new amount at once.
- Navigation state and stored context are left out. `path` is the navigation stack the view pushes routes onto. `date`, `day` and `dayMeals` are inputs the initializer stores and nothing in the amount or unit logic reads.
- `isEditing` is the test `existingMealFoodItem != nil`. It is not a separate member here: it is the `existingMealFoodItem.Some?` test that `IsDirty` already branches on. `saveButtonTitle` picks a label from it and is left out.
- `amountDetail` is the constant empty string and is left out.
- Display values built from library formatting or the clock are left out: `timelineItems`, `navigationTitle` (it reads the clock), `amountTitle`, `unitDescription`, `amountHeaderString`, `foodSizes` and `servingDescription`.
- The nutrition totals (`energyAmount`, `carbAmount`, `fatAmount`, `proteinAmount`) call the library's `scaledValue`, which is not part of this model.
- Amounts are exact reals. NaN, infinities and binary rounding of `Double` are not modelled. The parser is abstract, so text such as "nan" is whatever `parse` says.
- `Unit` is modelled at the level of its form unit, which has abstract volume units. The library's conversion between explicit and abstract volume units is not part of this model. The weight and volume unit lists are the usual ones, not copied from the library.
- `FoodQuantity.Unit(foodValue:in:)`, `FoodQuantity.Unit(formUnit:food:userVolumeUnits:)` and `equivalentQuantities(using:)` belong to the unit library, which is not part of this model. They are parameters. `UnitFromFoodValue` is this model's own reference inverse of `FoodValueOf` and is not claimed to be the library's.
- The placeholder item built from a mock food in the initializer is a parameter (`placeholder`). So is the fallback meal "New Meal" stamped with the current time (`newMeal`).
- `UUID()` is a `freshId` parameter. Within one call, every rebuild of a new entry uses the same fresh identity. In the Swift code, the intermediate items built by the amount setter inside `setFood`, `didPickQuantity` and the initializer get their own identities. They are overwritten before the call returns.
- `MealItem.MealItemViewModel.Valid`: the invariant that the text is empty exactly when the amount is unset assumes that `cleanAmount` never renders a number as empty text. The `Formatter` type states this assumption.
- `MealItem.MealItemViewModel.IsDirty` compares stored amounts with structural equality on every field. The library's `Equatable` conformance for `FoodValue` is not part of this model.
- `FoodValues.UnitRoundTrip` is about form units only. A unit in the Swift code can carry an explicit volume definition: building it from a form unit uses `userVolumeUnits` (lines 237-241). The `FoodValue` initializer reads only `unit.formUnit` and `unitType` (lines 301, 308, 316-319), so it drops that definition. It then re-resolves volumes through the user's `units` (lines 270, 302, 309), a different preference source. A unit whose explicit volume definition differs from that one does not come back from the round trip.
- `FoodValues.FoodValueOf` reads the unit library in one particular way, taken here as an assumption because that library is not part of this model. `unit.formUnit.weightUnit`, `.volumeUnit`, `.size` and `.sizeUnitVolumePrefixUnit` each give a value only for their own kind of unit (a size with a volume prefix has no `volumeUnit`). `volumeExplicitUnit(for:)` always gives a unit, and that unit stands for the abstract unit it was given. `UserUnits.VolumeExplicitUnitFor` builds the second reading into its type. The claim that a weight, volume or size sets exactly one of `weightUnit`, `volumeExplicitUnit` and `sizeUnitId`, and a serving none, rests on both readings.
- `FoodValues.FoodValueDeterminesUnit` tells form units apart, not full units. Two units that differ only in their explicit volume definition have the same form unit and are stored the same.
