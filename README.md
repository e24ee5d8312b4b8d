# Prize wheel: inventory and spin state machine

A Dafny model of the prize wheel in `script.js`. The wheel keeps an inventory
of prize records (`name`, `maxQuantity`, `currentQuantity`, `type`) and
persists it under the key `roulettePrizes` of a key-value store. On start-up
the inventory is loaded from the store. When the store holds nothing usable,
the wheel uses a fresh copy of five built-in records and saves it. A click on
the spin button draws one record that still has stock and turns the wheel to
one of four quadrants. When the wheel's animation ends, the drawn record loses
one unit, the inventory is saved, and a dialog is shown. The button is
re-enabled unless no stock is left.

Layout:

- `options.dfy`: `Option`.
- `prizes.dfy` (module `Prizes`): the prize record and the default inventory.
  The in-stock filter and where its records come from. The look-up by name.
  Total stock and the one-unit decrement. The per-record status word of the
  stock report.
- `draw.dfy` (module `Draw`): the quadrant and rotation arithmetic, and
  `PlanSpin`, the pure part of the click handler.
- `roulette.dfy` (module `Roulette`): class `Wheel` with the session state.
  The fields are the inventory `prizes`, the button flag `disabled`, the spin
  in flight `pending`, and the key-value `store`. Its methods are start-up,
  load, save, spin start and spin completion. The module also holds the
  end-of-spin dialog text.

`Wheel.Valid()` is the class invariant, established by the constructor and kept by `StartSpin` and `CompleteSpin`:

- the store always holds the in-memory inventory;
- during a spin the button is disabled;
- outside a spin the button is disabled only when nothing is in stock.

With unique names, the pending draw points at exactly the drawn record.

Behaviour worth knowing:

- The draw is uniform over the records that still have stock (script.js:148).
  It is not weighted by remaining stock.
- There is no reset operation.
- The record to decrement is found by name (script.js:152). With duplicate
  names the look-up can land on an earlier record that is out of stock, and
  the spin then takes that record to -1 (`Draw.DuplicateNamesCanOverdraw`).
  The built-in records have unique names, and no operation changes a name.
  So starting from the defaults, stock stays within `0..maxQuantity`
  (`Prizes.DecrementedKeepsInvariants`, `Roulette.Wheel.CompleteSpin`).
- The "selected record not found" branch (script.js:154-158) can never run,
  whether or not names are unique. The drawn record comes from the
  inventory itself, so the look-up always finds some record of that name
  (`Draw.PlanSpin` ensures `plan.Some?`).

## Model

| member | source | states |
|---|---|---|
| `Prizes.DefaultPrizes` | script.js:5-11 | five records, all full (`currentQuantity == maxQuantity > 0`), names unique, four of kind "prize" and the last of kind "empty" |
| `Prizes.Available` | script.js:135 | every record returned has positive stock, and the list is never longer than the inventory |
| `Prizes.AvailableIndex` | script.js:135 | the k-th available record is the inventory record at a position at or after k |
| `Prizes.AvailableKeepsOrder` | script.js:135 | the filter preserves inventory order |
| `Prizes.AvailableIsComplete` | script.js:135 | every record with positive stock appears among the available records |
| `Prizes.NothingAvailableIffNoStock` | script.js:137-142 | the available list is empty if and only if no record has positive stock |
| `Prizes.NothingAvailableIffZeroTotal` | script.js:233-236 | when no stock is negative, the available list is empty if and only if the total stock is zero |
| `Prizes.FindIndexByName` | script.js:152 | returns the first position holding the name, or -1 exactly when no record has it |
| `Prizes.LookupFindsChosen` | script.js:148-158 | looking up an available record by name always succeeds, at or before its own position; with unique names it is exactly its position |
| `Prizes.Decremented` | script.js:179 | exactly the record at the given position loses one unit; its name, maximum and type and every other record are unchanged |
| `Prizes.DecrementedLowersTotal` | script.js:179 | a finished spin lowers the total stock by exactly one |
| `Prizes.DecrementedKeepsInvariants` | script.js:179 | decrementing a record that has stock keeps every record within `0..maxQuantity` and keeps names unique |
| `Prizes.Status` | script.js:110 | "DISPONIBLE" if and only if the record has positive stock, "AGOTADO" otherwise |
| `Prizes.StatusReport` | script.js:107-120 | one status word per record, in inventory order |
| `Prizes.ReportCountsAvailable` | script.js:109-110 | the report shows "DISPONIBLE" exactly as many times as a spin has records to draw from |
| `Draw.VisualLandingIndex` | script.js:161-163 | the quadrant lies in 0..3, records four positions apart share a quadrant, and the first four records get their own |
| `Draw.TargetAngle` | script.js:161-166 | the target lies strictly inside quadrant v, at its middle, and within 45..315 degrees |
| `Draw.FinalRotation` | script.js:166-168 | the rotation is more than five and less than six full turns (1845..2115 degrees), and it brings the middle of quadrant v under the pointer |
| `Draw.FinalRotationDecreasing` | script.js:166-168 | a later quadrant needs strictly less rotation |
| `Draw.PlanSpin` | script.js:147-168 | the drawn record is the r-th available record, so it has stock. The look-up always finds a record of its name, the first one. With unique names that is the drawn record itself. The quadrant and rotation follow from that position |
| `Draw.DuplicateNamesCanOverdraw` | script.js:148-179 | with two records of one name, the first out of stock, a spin decrements the first one to -1 |
| `Roulette.Quoted` | script.js:188 | the name framed in double quotes: a quote, the name, a quote |
| `Roulette.ResultMessage` | script.js:183-194 | the title is "¡Felicidades!" if and only if the type is "prize", otherwise "¡Suerte para la próxima!"; the body names the record |
| `Roulette.Wheel.constructor` | script.js:14-20 | a non-empty stored inventory is used as loaded and the store is left alone. Otherwise the inventory is the defaults and the store holds them. The button starts enabled with no spin pending |
| `Roulette.Wheel.LoadPrizes` | script.js:35-47 | a missing key or an empty string gives nothing. Unparsable text gives nothing and removes the key. A stored inventory is returned unchanged |
| `Roulette.Wheel.SavePrizes` | script.js:52-59 | the store maps the key to the current inventory and nothing else changes; the report is the status of every record |
| `Roulette.Wheel.StartSpin` | script.js:131-172 | while disabled, a click changes nothing. With no stock, the button becomes disabled and no spin starts. Otherwise the click commits to `PlanSpin`'s draw and disables the button. The inventory and the store are untouched |
| `Roulette.Wheel.CompleteSpin` | script.js:175-237 | with a spin pending, exactly the drawn position loses one unit and the total drops by one. The store then holds the new inventory and the dialog follows the drawn record's type. The button is disabled if and only if no stock is left, and nothing stays pending. A second completion signal changes nothing. Stock bounds and unique names are preserved |

## Left out

- The random number: the click's `Math.random()` draw is the parameter `r` of `StartSpin`, required to be below the number of available records.
- The store is abstract: an entry is an empty string, unparsable text, or a serialised inventory. Other JSON values (a number, an object, a `null` literal) are not modelled, and the serialisation is taken to round-trip exactly.
- `SavePrizes` does not model a write that the store refuses (quota exceeded), which the source catches and logs; every save succeeds.
- Console output: only the status word per record is modelled, not the line text with the name and the remaining quantity. The initial report at page load (script.js:241-244) is not modelled.
- DOM and presentation: `initializeWheel`, `showMessage`, the dialog's close button, the `resultDisplay` text and the CSS transition strings.
- The angle normalisation after a spin (script.js:198-222), which reads the browser's computed transform with floating-point trigonometry and animation frames.
- The animation's asynchrony: the end of the animation is the separate step `CompleteSpin`. The handler removes itself, so a second signal finds nothing pending and does nothing.
- Quantities are unbounded integers rather than JavaScript numbers.
- The button's state before the first click comes from the page markup, which is not part of this model; it is taken to start enabled.
