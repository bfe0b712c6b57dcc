# Pizza inventory: a verified model

A model of the logic of the pizza restaurant inventory screen (`src/App.js`).
The screen keeps a list of items, each with an id, a name, a stock, a unit, a
reorder threshold and a unit cost. It offers:

- a dashboard with the number of items, how many are low on stock, and the
  total value of the stock;
- per-item `+`/`-` buttons, Edit and Delete;
- an add/edit form, whose submit handler normalises the typed fields;
- a free-text "AI Agent Command Center". A line such as
  `bought 5 kg of onions` is lower-cased, and every item whose lower-cased name
  occurs in it is adjusted by the first number in the line. The adjustment is
  up when the line contains `bought`, `received` or `add`. Otherwise it is
  down, clamped at zero, when the line contains `used` or `sold`. A
  confirmation or a fixed guidance message is then shown.

Modules:

- `Wrappers`: `Option`.
- `Text`: ASCII lower-casing, substring search, whitespace trimming, and the
  leftmost `\d+(\.\d+)?` numeral with its decimal value.
- `Inventory`: items, the store operations (update by id, delete by id, add,
  save edit), the stock buttons, the per-item derived values and the seed list.
- `Dashboard`: the three summary figures.
- `ItemForm`: the form's draft, its normalisation, and its initial state.
- `CommandAgent`: the command interpreter.
  - `HandleSubmit` is the imperative `forEach` loop.
  - `Run`, `LastApplied` and `FeedbackFor` are its specification.
- `CommandScenarios`: the two sample lines the command box suggests, worked
  out on the seed list.
- `Session`: the application state as one class, `PizzaInventorySystem`, whose
  methods are the event handlers. It keeps the invariant that ids are unique.

Design choices:

- Each line is parsed once into a `Command`: its direction, its numeral and
  that numeral's value. The source re-evaluates the keyword tests and the
  regular expression for every item it visits. Those depend on the line alone,
  so the outcome is the same for every item.
- Stock, threshold and cost are exact `real`s.

## Model

| member | source | states |
|---|---|---|
| `Text.Lower` | src/App.js:52 | Lower-casing keeps the length and maps every character through the ASCII lower-case map. |
| `Text.LowerProperties` | src/App.js:52 | Lower-casing is idempotent, and a lower-cased string has no upper-case letter. |
| `Text.ContainsIff` | src/App.js:56 | `includes` holds exactly when the needle occurs at some position of the text. |
| `Text.ContainsLower` | src/App.js:56 | When a text contains a needle, the lower-cased text contains the lower-cased needle. |
| `Text.TrimIsSlice` | src/App.js:50 | Trimming yields a contiguous slice of the input. Everything before and after that slice is blank. |
| `Text.TrimSpec` | src/App.js:50 | The trimmed string has no blank at either end. It is empty exactly when the input is all blanks. |
| `Text.TrimIdempotent` | src/App.js:127 | Trimming twice is trimming once. |
| `Text.TrimmedIsFixed` | src/App.js:127 | A string with no blank at either end is its own trim. |
| `Text.NumeralAt` | src/App.js:58 | The numeral read from a digit is a prefix of the rest of the text. It has the shape `\d+(\.\d+)?`. It cannot be extended by another digit or by a fraction, so it is the greedy match. |
| `Text.FirstNumberSpec` | src/App.js:58 | The first match is absent exactly when the text has no digit. Otherwise it starts at the first digit, occurs in the text, and has the numeral shape. It cannot be extended by another digit or, when it is a whole number, by a `.digit` fraction. |
| `Text.FirstNumberAfter` | src/App.js:58 | A digit-free prefix does not change which numeral is matched first. |
| `Text.ParseDecimalBounds` | src/App.js:60 | `parseFloat` of a matched numeral is non-negative, at least its integer part, and below that part plus one. |
| `Inventory.UpdateByIdSpec` | src/App.js:283-287 | An update keeps the length, the order and every id. Exactly the items carrying the target id get the merged fields. |
| `Inventory.UpdateUnknownId` | src/App.js:283-287 | Updating an id no item carries leaves the list unchanged. |
| `Inventory.UpdateKeepsUniqueIds` | src/App.js:283-287 | An update keeps the ids unique. |
| `Inventory.UpdateAt` | src/App.js:284-286 | With unique ids, updating an item's id replaces just that item with its merge. |
| `Inventory.DeleteByIdSpec` | src/App.js:291 | Delete keeps exactly the items whose id differs from the target. It removes as many items as carried the target id. |
| `Inventory.DeleteKeepsOrder` | src/App.js:291 | Delete distributes over concatenation, so survivors keep their relative order. |
| `Inventory.DeleteUnknownId` | src/App.js:291 | Deleting an id no item carries leaves the list unchanged. |
| `Inventory.DeleteIdempotent` | src/App.js:291 | Deleting the same id twice is the same as deleting it once. |
| `Inventory.DeleteKeepsUniqueIds` | src/App.js:291 | Delete keeps the ids unique. |
| `Inventory.AddItemSpec` | src/App.js:302 | Add appends exactly one item at the end, carrying the saved fields and the given id. Earlier items are unchanged. With an id not yet in the list, ids stay unique. |
| `Inventory.SaveEditSpec` | src/App.js:296-299 | Saving an edit gives the edited item every saved field and keeps its id. No other item changes. |
| `Inventory.ClampAtZero` | src/App.js:188 | `Math.max(0, x)` is non-negative, at least `x`, and either `x` or 0. |
| `Inventory.StockChangeSpec` | src/App.js:187-189 | A `+`/`-` button sets its own item's stock to `max(0, stock + amount)`, which is never negative. No other item changes. |
| `Inventory.PlusThenMinus` | src/App.js:187-189 | Pressing `+` and then `-` on a row with non-negative stock restores the list. The `-` button is enabled in between. |
| `Inventory.InitialInventoryWellFormed` | src/App.js:16-25 | The seed list has unique ids and no negative stock or cost. |
| `Dashboard.LowStockCount` | src/App.js:240 | The low-stock count is at most the item count. It is 0 exactly when no item has `stock < threshold`. |
| `Dashboard.TotalValueNonNegative` | src/App.js:241 | The total value is non-negative when no stock and no cost is negative. |
| `Dashboard.TotalValueConcat` | src/App.js:241 | The total value of two lists laid end to end is the sum of their totals. |
| `Dashboard.LowStockCountConcat` | src/App.js:240 | The low-stock count of two lists laid end to end is the sum of their counts. |
| `Dashboard.StatsAfterAdd` | src/App.js:238-241 | Adding an item raises the item count by one. It raises the low-stock count by one exactly when the new item is low. It raises the total value by `stock × cost` of the new item. |
| `Dashboard.TotalValueAfterDelete` | src/App.js:241 | Deleting an id lowers the total value by exactly the value of the items that carried it. |
| `Dashboard.InitialStats` | src/App.js:238-241 | On the seed list the dashboard shows 8 items, 0 low on stock and a total value of 463.5. |
| `ItemForm.NormalizeSpec` | src/App.js:123-133 | A submit is refused exactly when the name is blank. An accepted one carries the trimmed name, the trimmed unit (or `units` for a blank unit) and each number as typed (or 0 for NaN). |
| `ItemForm.NormalizeDraftOf` | src/App.js:123-133 | Submitting a draft that shows well-formed saved fields gives back exactly those fields. |
| `ItemForm.NormalizeIdempotent` | src/App.js:123-133 | Submitting again what a submit produced reproduces it. |
| `ItemForm.NewFormRefusedUntilNamed` | src/App.js:117-124 | A freshly opened add form cannot be saved until a name is typed. |
| `ItemForm.EditRoundTripAsWritten` | src/App.js:116-133 | As written, opening a well-formed item for editing and saving it untouched returns its own fields exactly when its threshold is not 0. |
| `ItemForm.ZeroThresholdComesBackAsFive` | src/App.js:120 | An item stored with threshold 0 comes back from an untouched edit with threshold 5. |
| `ItemForm.EditRoundTrip` | src/App.js:116-133 | With the corrected initial state, an untouched edit of a well-formed item returns its own fields. |
| `CommandAgent.ParseCommand` | src/App.js:57-58 | A line has no command exactly when it has no keyword or no digit. Otherwise the amount is non-negative, and the token is a numeral occurring in the line. |
| `CommandAgent.ParsedAs` | src/App.js:57-65 | An increase keyword gives an increase. A decrease keyword without an increase keyword gives a decrease. In both cases the amount is the first numeral. |
| `CommandAgent.LastApplied` | src/App.js:55-73 | It finds the last item adjusted among the first `k`, and it is absent exactly when none was adjusted. |
| `CommandAgent.VisitItem` | src/App.js:55-72 | One `forEach` callback: the state is updated as `Step` says. When the item is adjusted, the flag is raised and its confirmation is shown. Otherwise the flag and banner are unchanged. |
| `CommandAgent.HandleSubmit` | src/App.js:49-80 | A blank line changes nothing, not even the input box. Any other line leaves the inventory the specification `Run` gives over the whole snapshot, the banner its `FeedbackFor`, and the input box empty. |
| `CommandAgent.StepUnfold` | src/App.js:55-72 | Visiting one item either adjusts it and makes its message the latest, or changes nothing. |
| `CommandAgent.RunKeepsShape` | src/App.js:55-73 | Whatever the ids, a command keeps length, order and every field but stock. |
| `CommandAgent.RunPointwise` | src/App.js:55-73 | With unique ids, after `k` visits each visited item is adjusted from its snapshot stock and the rest are as they were. |
| `CommandAgent.AdjustOne` | src/App.js:60 | Visiting item `i` replaces just that item with its adjusted form. |
| `CommandAgent.CommandEffect` | src/App.js:53-75 | Every item the line names is adjusted by the same amount (there is no early exit), and every other item is untouched. |
| `CommandAgent.Unrecognized` | src/App.js:50-77 | When no item is named, or there is no keyword, or there is no digit, the inventory is unchanged and the guidance message is shown. |
| `CommandAgent.NothingAppliesKeepsAll` | src/App.js:55-73 | When none of the first `k` items is adjusted, the list is unchanged. |
| `CommandAgent.SuccessIffAdjusted` | src/App.js:53-77 | The banner is a success exactly when at least one item was adjusted. |
| `CommandAgent.IncreaseWins` | src/App.js:57-61 | With an increase keyword (even next to `used`/`sold`), each named item's stock becomes snapshot stock plus the first numeral's value, with no bound. |
| `CommandAgent.DecreaseClamps` | src/App.js:64-67 | A decrease sets a named item's stock to `max(0, stock − amount)`. It is never negative and never above the old stock. |
| `CommandAgent.RunKeepsUniqueIds` | src/App.js:55-73 | A command keeps the ids unique. |
| `CommandScenarios.AddressSaysIncrease` | src/App.js:57 | `add` matches inside `address`, so such a line reads as an increase. |
| `CommandScenarios.BoughtParses` | src/App.js:57-58 | `bought 5 kg of onions` parses as an increase by the numeral `5`, worth 5. |
| `CommandScenarios.BoughtNamesOnlyOnions` | src/App.js:56 | Of the seed items, `bought 5 kg of onions` names none but Onions. |
| `CommandScenarios.BoughtOnionsStock` | src/App.js:55-63 | On the seed list, that line takes Onions from 10 to 15 kg and changes no other item. |
| `CommandScenarios.BoughtOnionsFeedback` | src/App.js:61 | The banner then reads `Added 5 kg of Onions!`. |
| `CommandScenarios.UsedSauceOnSeed` | src/App.js:55-77 | `used 2 liters of sauce` on the seed list changes nothing and shows the guidance, because `sauce` alone does not contain the full name `tomato sauce`. |
| `Session.PizzaInventorySystem.constructor` | src/App.js:279-281 | A session starts from the seed list, with both forms closed, an empty command box, no banner, and unique ids. |
| `Session.PizzaInventorySystem.HandleUpdateStock` | src/App.js:283-287 | The list becomes its update by id. Ids stay unique. |
| `Session.PizzaInventorySystem.HandleDelete` | src/App.js:289-293 | The list becomes its delete by id. No item with that id remains, and ids stay unique. |
| `Session.PizzaInventorySystem.HandleStockChange` | src/App.js:187-189 | The list becomes the clamped stock change of the row's item. |
| `Session.PizzaInventorySystem.StartEdit` | src/App.js:345 | The Edit button makes the item the one being edited. |
| `Session.PizzaInventorySystem.OpenAddForm` | src/App.js:323 | The add button opens the add form. |
| `Session.PizzaInventorySystem.CloseForm` | src/App.js:356-359 | Closing the form closes both the add and the edit form. |
| `Session.PizzaInventorySystem.TypeCommand` | src/App.js:92 | Typing sets the command box's text. |
| `Session.PizzaInventorySystem.DismissFeedback` | src/App.js:107 | The banner's close button clears the feedback. |
| `Session.PizzaInventorySystem.HandleSaveItem` | src/App.js:295-305 | Edit mode merges the fields into the edited item, ends editing and leaves the add-form flag alone. Add mode appends under a fresh id, closes the add form and leaves no item being edited. Ids stay unique. |
| `Session.PizzaInventorySystem.SubmitForm` | src/App.js:123-133 | A blank name changes nothing. Any other draft is normalised and saved: in edit mode the fields are merged into the edited item and editing ends; in add mode the item is appended under a fresh id and the add form closes. Ids stay unique. |
| `Session.PizzaInventorySystem.SubmitCommand` | src/App.js:49-80 | A command submission on the session state, as `HandleSubmit`. Ids stay unique. |

## Left out

- Rendering, the modal, icons and styling are not modelled; only the state they display is.
- React's state machinery is not modelled:
  - the separate `useState` hooks of the components are merged into the fields of one class;
  - batching of updates and re-rendering are not modelled;
  - each `setInventory(prev => …)` updater is applied at once, in call order.
- `window.confirm` is browser I/O. `HandleDelete` is the confirmed path, and a cancelled confirmation changes nothing.
- New ids come from `Date.now().toString()`, which reads the clock and can repeat.
  - The model takes the id as the parameter `freshId`, required not to be in the list.
  - Unique ids are proved only under that assumption, not as a property of the source.
- Numbers are exact reals, not IEEE doubles.
  - Rounding, `toFixed` display formatting, `Infinity` and `-0` are not modelled.
  - `Number(x) || 0` is modelled with a `NotANumber` input.
  - The form's `onChange` handlers already coerce a failed `parseFloat` to 0. The model does not model them; it lets a draft field hold any number or NaN.
- `itemValue` (src/App.js:185) applies `|| 0` to stock and cost. Reals have no NaN, so `Inventory.ItemValue` is a plain product.
- `toLowerCase` and `trim` are ASCII only.
  - Lower-casing maps `A`–`Z`.
  - Trimming removes space and the control characters 9–13.
  - Unicode case mapping and Unicode white space are not modelled.
- `parseFloat` of the matched token is its exact decimal value.
- Clicking a disabled `-` button (src/App.js:210) is not modelled. `HandleStockChange` accepts any amount, and `Inventory.MinusEnabled` appears only in `Inventory.PlusThenMinus`.
- `CommandAgent.HandleSubmit` and `CommandAgent.CommandEffect`: item-by-item agreement (each named item adjusted from its snapshot stock) is proved only when ids are unique.
  - With a shared id, the model follows the source's sequence of updates by id (`Run`).
  - It proves that length, order and every field but stock are preserved (`RunKeepsShape`).
  - It does not give each item's final stock in closed form.
- The `forEach` at src/App.js:55 has no early exit: every named item is adjusted, and the last confirmation is the banner shown. The model keeps this behaviour; it does not model a first-match-only interpreter.

## Findings

| source | as written | input that shows it | evidently intended | confidence | as-written member | corrected member |
|---|---|---|---|---|---|---|
| src/App.js:120 | The edit form's threshold starts as `itemToEdit?.threshold \|\| 5`. A stored threshold of 0 is falsy, so it shows 5 and is saved as 5 by an untouched edit. | Item `Basil`, stock 1, unit `kg`, threshold 0, cost 2: opening it for editing and saving without changes stores threshold 5. | Default to 5 only when there is no item to edit (`??`), so an untouched edit returns the item's own fields. | medium, not executed | `ItemForm.EditRoundTripAsWritten`, `ItemForm.ZeroThresholdComesBackAsFive` | `ItemForm.EditRoundTrip` |
