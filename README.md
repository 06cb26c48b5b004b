# OmniSuite dashboard — a verified model of its state and handlers

OmniSuite is a single-page inventory and customer dashboard. Its one component
keeps three pieces of state:

- the inventory, a list of items with identifier, name, SKU, category,
  quantity and price;
- the customer list, with identifier, name, email, phone and company;
- one modal slot `{ type, data }` that says which form, if any, is open.

It derives integer dashboard statistics from the inventory. It saves, deletes and
adjusts records through four handlers. Before an adjustment reaches the stock
handler, the adjust-stock form checks it.

This project models that core in Dafny:

- `records.dfy` (module `Records`) holds the record types, the seed
  collections and the array transformations the handlers apply:
  - append with a fresh identifier, the identifier `Math.max(...ids) + 1`;
  - update by identifier (`map`), delete by identifier (`filter`);
  - add to one item's quantity.

  The lemmas prove that identifiers stay unique and positive, and what each
  transformation changes and what it leaves alone.
- `stats.dfy` (module `Stats`): `totalItems`, `lowStockCount` and
  `outOfStockCount` as functions of the inventory, with the counting facts,
  the effect of every handler on the total and the values for the seed data.
- `parse_int.dfy` (module `IntParsing`): `parseInt(s, 10)` as section 19.2.5
  of ECMA-262 defines it: skip StrWhiteSpaceChar, an optional sign, the
  longest run of decimal digits, NaN (`None`) when there is none. It proves a
  round trip from the decimal rendering of any integer.
- `adjustment.dfy` (module `Adjustment`): the adjust-stock form's two checks
  and their error messages. It shows that an accepted adjustment never leaves
  the item with negative stock.
- `app.dfy` (module `OmniSuite`) has the modal datatype, the modal renderer
  and the class `App`:
  - `App`'s fields are `inventory`, `customers` and `modal`.
  - Its methods are the handlers, the form submissions and the open and
    cancel actions of the buttons.
  - Each method keeps the invariant `Valid()`: identifiers are unique and
    positive, and the modal refers to records that are present.
- `wrappers.dfy` (module `Wrappers`): `Option` and `Result`.

Conventions of the model:

- A submitted record with identifier 0 is one without an identifier, since
  `if (data.id)` is false for both.
- The shallow merge `{ ...old, ...data }` of the update path is `data`. Both
  forms start from a full record and only overwrite its fields, so the
  submitted record always carries every field.

Where the code and its design differ, the model follows the code:

- The "Add New Item" button writes the modal type `add-item`, but the
  renderer shows the item form for `add-item1`. In the model the add-item
  state shows no form, so the item form only ever edits. No item can be added
  through the interface (`OmniSuite.RenderedForm`,
  `OmniSuite.App.SubmitItemForm`, `OmniSuite.ItemFormOnlyEdits`). Because
  that state also has no Cancel button, it is left only through another open
  action.
- Quantities are kept non-negative only by the adjust-stock form's check. The
  handlers do not enforce them, so the model proves non-negativity only
  where that check runs.

## Model

| member | source | states |
|---|---|---|
| Records.MaxId | components/OmniSuiteApp.jsx:59 | the largest identifier bounds every identifier and is carried by some record |
| Records.NextId | components/OmniSuiteApp.jsx:59 | the new identifier exceeds every existing one, is 1 for an empty collection, otherwise is one more than an existing identifier, and is positive when all identifiers are |
| Records.AddRecord | components/OmniSuiteApp.jsx:59-60 | appending adds exactly one record at the end with the submitted fields and the fresh identifier, keeps every earlier record in order, and no earlier record has that identifier |
| Records.UpdateById | components/OmniSuiteApp.jsx:57 | updating keeps the length and every identifier in place, replaces each record with the submitted identifier by the submitted record and keeps the others |
| Records.RemoveById | components/OmniSuiteApp.jsx:79 | every kept record was in the collection and has another identifier, and every record with another identifier is kept |
| Records.SaveRecord | components/OmniSuiteApp.jsx:56-61 | a record with a truthy identifier replaces every record carrying that identifier and keeps the others, at the same length; one without is appended after all earlier records, with its fields and the next identifier, which no earlier record carries |
| Records.Adjusted | components/OmniSuiteApp.jsx:88 | the adjusted item keeps its identifier and every field but the quantity, which moves by exactly the adjustment |
| Records.AdjustedComposes | components/OmniSuiteApp.jsx:88 | two adjustments equal one by their sum, and a zero adjustment changes nothing |
| Records.AdjustQuantity | components/OmniSuiteApp.jsx:87-89 | the records with the identifier get the adjustment added to their quantity and all other records are unchanged, at the same length |
| Records.SeedNumbering | components/OmniSuiteApp.jsx:28-40 | the seed records are numbered 1, 2, 3, … in order |
| Records.CountingIds | components/OmniSuiteApp.jsx:59 | identifiers that count up by one are unique, and the largest is the last |
| Records.SeedWellKeyed | components/OmniSuiteApp.jsx:28-40 | both seed collections have unique positive identifiers, and the next identifiers are 6 and 4 |
| Records.AddPreservesWellKeyed | components/OmniSuiteApp.jsx:59-60 | appending with the fresh identifier keeps identifiers unique and positive |
| Records.UpdatePreservesWellKeyed | components/OmniSuiteApp.jsx:57 | updating keeps identifiers unique and positive |
| Records.UpdateAt | components/OmniSuiteApp.jsx:57 | with unique identifiers, updating replaces exactly the one record with that identifier |
| Records.UpdateAbsent | components/OmniSuiteApp.jsx:57 | an update with an identifier nobody has leaves the collection unchanged |
| Records.UpdateIdempotent | components/OmniSuiteApp.jsx:57 | saving the same record twice equals saving it once |
| Records.SavePreservesWellKeyed | components/OmniSuiteApp.jsx:56-61 | a save keeps identifiers unique and positive on either path |
| Records.RemoveAppend | components/OmniSuiteApp.jsx:79 | removal distributes over concatenation, so it keeps the order of what it keeps |
| Records.RemoveAbsent | components/OmniSuiteApp.jsx:79 | removing an identifier nobody has leaves the collection unchanged |
| Records.OnlyOneWithId | components/OmniSuiteApp.jsx:79 | with unique identifiers, no record before or after a position carries that position's identifier |
| Records.RemoveAround | components/OmniSuiteApp.jsx:79 | removal splits at any position |
| Records.RemoveHead | components/OmniSuiteApp.jsx:79 | a first record with the identifier is dropped |
| Records.RemoveAt | components/OmniSuiteApp.jsx:79 | with unique identifiers, removal deletes exactly the record with that identifier, keeps the rest in order, and shortens the collection by one |
| Records.RemoveKeepsPositiveIds | components/OmniSuiteApp.jsx:79 | removal keeps identifiers positive |
| Records.RemoveKeepsAbsent | components/OmniSuiteApp.jsx:79 | removal brings in no identifier that was not there |
| Records.UniqueTail | components/OmniSuiteApp.jsx:79 | a collection with unique identifiers has a tail with unique identifiers that does not carry the head's identifier |
| Records.UniqueCons | components/OmniSuiteApp.jsx:79 | a record put in front of a collection without its identifier keeps identifiers unique |
| Records.RemoveKeepsUniqueIds | components/OmniSuiteApp.jsx:79 | removal keeps identifiers unique |
| Records.RemovePreservesWellKeyed | components/OmniSuiteApp.jsx:79-81 | removal keeps identifiers unique and positive |
| Records.AdjustAt | components/OmniSuiteApp.jsx:87-89 | with unique identifiers, adjusting changes exactly the one item with that identifier, and only its quantity |
| Records.AdjustPreservesWellKeyed | components/OmniSuiteApp.jsx:87-89 | adjusting keeps identifiers unique and positive |
| Records.AdjustAbsent | components/OmniSuiteApp.jsx:87-89 | adjusting an identifier no item has leaves the inventory unchanged |
| Stats.TotalItems | components/OmniSuiteApp.jsx:48 | without negative quantities the total is non-negative and at least every single item's quantity |
| Stats.Count | components/OmniSuiteApp.jsx:49-50 | a filtered count never exceeds the inventory's length |
| Stats.CountIsNumberOfPositions | components/OmniSuiteApp.jsx:49-50 | the count is the number of positions whose item passes the test |
| Stats.CountAppend | components/OmniSuiteApp.jsx:49-50 | counts over a concatenation add up |
| Stats.TotalAppend | components/OmniSuiteApp.jsx:48 | the sum of quantities over a concatenation is the sum of the parts |
| Stats.StockPartition | components/OmniSuiteApp.jsx:49-50 | below zero, out of stock, low stock and well stocked split the inventory, so the low-stock and out-of-stock counts are disjoint |
| Stats.NonNegativeTotal | components/OmniSuiteApp.jsx:48-50 | without negative quantities the total is zero exactly when every item is out of stock |
| Stats.ComputeStats | components/OmniSuiteApp.jsx:46-52 | the two alert counts together are at most the inventory length; without negative quantities the total is non-negative and zero exactly when everything is out of stock |
| Stats.TotalSplit | components/OmniSuiteApp.jsx:48 | the total splits around any position |
| Stats.TotalUpdateAt | components/OmniSuiteApp.jsx:48 | replacing one item changes the total by the difference of the quantities |
| Stats.AdjustChangesTotal | components/OmniSuiteApp.jsx:86-89 | a stock adjustment moves the total by exactly the adjustment when the item is present and not at all otherwise |
| Stats.AdjustKeepsStock | components/OmniSuiteApp.jsx:87-89 | adjusting one present item by an amount that keeps it non-negative changes only that item, leaves every item with its identifier non-negative, keeps a stock without negative quantities so, and moves the total by the amount |
| Stats.AddChangesTotal | components/OmniSuiteApp.jsx:59-60 | adding an item adds its quantity to the total |
| Stats.RemoveChangesTotal | components/OmniSuiteApp.jsx:79 | deleting an item takes its quantity off the total |
| Stats.SeedStats | components/OmniSuiteApp.jsx:28-34 | for the seed inventory the statistics are 403 items, one low-stock alert and one item out of stock |
| IntParsing.DigitValue | components/OmniSuiteApp.jsx:320 | a decimal digit's value is below 10, and the digit for that value is the character itself |
| IntParsing.DigitChar | components/OmniSuiteApp.jsx:320 | the digit for a value below 10 is a digit with that value |
| IntParsing.TrimStart | components/OmniSuiteApp.jsx:320 | trimming removes a prefix made only of white space and stops at the first non-white-space character |
| IntParsing.LeadingDigits | components/OmniSuiteApp.jsx:320 | the digit run is a prefix of digits only and is maximal |
| IntParsing.NatToDecimal | components/OmniSuiteApp.jsx:320 | the decimal rendering is non-empty, made of digits and has no leading zero |
| IntParsing.DecimalValue | components/OmniSuiteApp.jsx:320 | reading a rendering's digits back gives the number |
| IntParsing.LeadingDigitsOf | components/OmniSuiteApp.jsx:320 | the digit run of digits followed by a non-digit is exactly those digits |
| IntParsing.TrimStartSkips | components/OmniSuiteApp.jsx:320 | trimming removes any white-space prefix |
| IntParsing.ParseIntSkipsWhiteSpace | components/OmniSuiteApp.jsx:320 | leading white space does not change the parse |
| IntParsing.NothingToTrim | components/OmniSuiteApp.jsx:320 | a string starting with a digit or a minus sign parses as it stands, with nothing trimmed |
| IntParsing.ParseTrimmedDigits | components/OmniSuiteApp.jsx:320 | after trimming, a digit run followed by a non-digit reads as its value |
| IntParsing.ParseTrimmedNegative | components/OmniSuiteApp.jsx:320 | after trimming, a minus sign and a digit run read as the negated value |
| IntParsing.ParseIntOfDigits | components/OmniSuiteApp.jsx:320 | a digit run followed by a non-digit parses to its value |
| IntParsing.ParseIntOfNegativeDigits | components/OmniSuiteApp.jsx:320 | a minus sign and a digit run parse to the negated value |
| IntParsing.ParseIntOfNatDecimal | components/OmniSuiteApp.jsx:320 | the rendering of a natural number parses back to it |
| IntParsing.ParseIntOfNegativeDecimal | components/OmniSuiteApp.jsx:320 | the rendering of a negative number parses back to it |
| IntParsing.ParseIntOfDecimal | components/OmniSuiteApp.jsx:320 | round trip: the rendering of any integer, followed by anything that does not start with a digit, parses back to that integer |
| IntParsing.ParseIntOfZero | components/OmniSuiteApp.jsx:320 | "-0" parses to 0 |
| IntParsing.ParseIntOfNonDigit | components/OmniSuiteApp.jsx:320 | a string whose first character is neither white space, a sign nor a digit parses to NaN |
| IntParsing.ParseTrimmed | components/OmniSuiteApp.jsx:320 | after the white space, there is a number exactly when a digit follows the optional sign, and it is negative only after a minus sign |
| IntParsing.ParseInt | components/OmniSuiteApp.jsx:320-321 | `parseInt(s, 10)` is NaN exactly when no digit follows the leading white space and the sign, and a negative result needs a minus sign after the white space |
| Adjustment.ValidateAdjustment | components/OmniSuiteApp.jsx:320-329 | a NaN or zero amount is an invalid-amount error; otherwise an amount that would make the quantity negative is a negative-stock error; only then is the amount accepted, and it is non-zero and keeps the quantity non-negative |
| Adjustment.AcceptsEveryValidAmount | components/OmniSuiteApp.jsx:320-329 | every non-zero amount that keeps the stock non-negative is accepted when typed in decimal, even with a fraction or exponent after it |
| Adjustment.RefusesEveryOverdraw | components/OmniSuiteApp.jsx:320-328 | every non-zero amount that would make the stock negative is refused as negative stock, whatever non-digit text follows it |
| Adjustment.ExampleZero | components/OmniSuiteApp.jsx:321-323 | "0" is an invalid amount |
| Adjustment.ExampleNegativeZero | components/OmniSuiteApp.jsx:321-323 | "-0" is an invalid amount |
| Adjustment.ExamplesNotANumber | components/OmniSuiteApp.jsx:321-323 | "abc" and the empty string are invalid amounts |
| Adjustment.ExampleExponent | components/OmniSuiteApp.jsx:320-329 | with 8 in stock "1e3" is accepted as 1 |
| Adjustment.ExampleFraction | components/OmniSuiteApp.jsx:320-329 | with 8 in stock "2.7" is accepted as 2 |
| Adjustment.AcceptedAdjustmentKeepsStock | components/OmniSuiteApp.jsx:325-329 | an accepted adjustment of an inventory item changes only that item's quantity, leaves every item with that identifier non-negative, keeps a stock without negative quantities so, and moves the total by the amount |
| OmniSuite.App.constructor | components/OmniSuiteApp.jsx:28-43 | the initial state is the seed inventory, the seed customers and a closed modal, and it satisfies the invariant |
| OmniSuite.App.Dashboard | components/OmniSuiteApp.jsx:46-52 | the statistics of the current inventory; the alert counts together are at most its length |
| OmniSuite.App.SaveItem | components/OmniSuiteApp.jsx:55-63 | the inventory becomes the saved inventory, customers are unchanged, the modal closes and the invariant holds |
| OmniSuite.App.SaveCustomer | components/OmniSuiteApp.jsx:65-73 | the customers become the saved customers, the inventory is unchanged, the modal closes and the invariant holds |
| OmniSuite.App.ConfirmDelete | components/OmniSuiteApp.jsx:75-84 | with no payload nothing changes and the modal stays; a delete payload removes by identifier from the collection its kind names, exactly one record, and any other kind removes nothing; the modal closes |
| OmniSuite.App.ApplyStockAdjustment | components/OmniSuiteApp.jsx:86-91 | the inventory becomes the adjusted inventory, customers are unchanged and the modal closes |
| OmniSuite.App.SubmitAdjustment | components/OmniSuiteApp.jsx:318-330 | a refused adjustment reports its error and changes nothing; an accepted one adjusts the item and closes the modal, keeps a stock without negative quantities so, and leaves the adjusted item non-negative |
| OmniSuite.App.SubmitItemForm | components/OmniSuiteApp.jsx:216-226 | the item form saves the edited item with the typed fields, never changes the inventory's length, and closes the modal |
| OmniSuite.App.SubmitCustomerForm | components/OmniSuiteApp.jsx:267-274 | the add form appends one customer, the edit form saves the edited customer at the same length, and the modal closes |
| OmniSuite.App.OpenAddItem | components/OmniSuiteApp.jsx:135 | the slot holds the add-item modal, for which no form is shown |
| OmniSuite.App.OpenAdjustStock | components/OmniSuiteApp.jsx:158 | the slot holds the adjust-stock modal of the item, whose form is shown |
| OmniSuite.App.OpenEditItem | components/OmniSuiteApp.jsx:159 | the slot holds the edit-item modal of the item, whose item form is shown |
| OmniSuite.App.OpenDeleteItem | components/OmniSuiteApp.jsx:160 | the slot holds a delete payload naming the item collection, the item's identifier and its name |
| OmniSuite.App.OpenAddCustomer | components/OmniSuiteApp.jsx:178 | the slot holds the add-customer modal, whose empty customer form is shown |
| OmniSuite.App.OpenEditCustomer | components/OmniSuiteApp.jsx:193 | the slot holds the edit-customer modal, whose customer form is shown |
| OmniSuite.App.OpenDeleteCustomer | components/OmniSuiteApp.jsx:194 | the slot holds a delete payload naming the customer collection, the customer's identifier and name |
| OmniSuite.App.Cancel | components/OmniSuiteApp.jsx:381-386 | a form's Cancel closes the modal and changes no collection |
| OmniSuite.HasNoData | components/OmniSuiteApp.jsx:76 | the slot has no payload exactly when its type is null, "add-item" or "add-customer" |
| OmniSuite.RenderedForm | components/OmniSuiteApp.jsx:381-386 | exactly the closed and add-item slots show no form; the item form is shown exactly for editing, with the edited item; the customer form for adding (empty) and editing (with the edited customer) |
| OmniSuite.SubmittedItem | components/OmniSuiteApp.jsx:216 | the submitted item has the typed fields and the edited item's identifier, so it has an identifier exactly when an item with one is edited |
| OmniSuite.SubmittedCustomer | components/OmniSuiteApp.jsx:267 | the submitted customer has the typed fields and the edited customer's identifier, so it has an identifier exactly when a customer with one is edited |
| OmniSuite.ItemFormOnlyEdits | components/OmniSuiteApp.jsx:381-382 | in a reachable state an item-form submission carries an identifier and replaces the edited item in place |
| OmniSuite.AddCustomerFormAppends | components/OmniSuiteApp.jsx:383 | the add-customer form appends one customer with a fresh identifier and keeps identifiers unique and positive |

## Left out

- `totalValue` and the price formatting (`toLocaleString`, `toFixed`) are floating-point arithmetic. `price` is a `real` that is carried through unchanged.
- The item form converts numeric inputs with `parseFloat(value) || 0`, which is floating point. The model takes the typed quantity as an integer, and the form's fields as given.
- Browser form constraints (`required`, `min="0"`, `type="email"`) are not modelled, and the handlers do not check them either.
- OmniSuite.App.SubmitAdjustment: its string is the number input's value. The browser empties that value unless the text is a valid floating-point number, so text such as "5abc", " 5" or "+5" arrives as "". The model takes any string, so it also covers strings the browser never delivers.
- JavaScript numbers are doubles. Parses of digit runs beyond 2^53, and sums that large, are modelled exactly as integers, not rounded.
- The third-party traffic-agent script in the customer form is not part of this model: it is code outside the repository.
- Rendering, the sidebar, the header, the view switch and the sidebar toggle are presentation only.
- React's state updates and memoisation are modelled as assignments to the class's fields and as functions of the inventory.
- The adjust-stock form's `error` state is the return value of `SubmitAdjustment`. Its text is `Adjustment.Message`. The `adjustment` state, the number input's value, is the string parameter.
- The delete payload's `type` is a string. The invariant allows only payloads written by the delete buttons, so the "other kind" branch of `ConfirmDelete` is stated but cannot be reached.
