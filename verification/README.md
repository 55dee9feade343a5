# State-update rules of three React demos, in Dafny

The repository holds three single-page demos: a shopping cart with a contact
form, a portfolio page with a counter and a calculator, and a weather widget.
Almost all of it is rendering. This project models the pure state-update rules
that the event handlers run. It proves what those rules promise.

- `ShoppingCart` (`shopping_cart.dfy`): the cart is an ordered list of line
  items `{id, name, price, quantity}`. `addToCart` and `removeFromCart` are
  functional updates of that list, and the total is a fold over it. The model
  keeps the JavaScript list primitives: `find` returns the first match, `map`
  bumps every line with the id, and `filter` drops every line with the id. The
  invariant that makes "every line" mean "the one line" (unique ids, quantities
  of at least 1) is proved for every cart reachable from the empty one.
- `StringTrim` (`string_trim.dfy`) and `EmailPattern` (`email_pattern.dfy`): the
  two string tests the contact form relies on. These are `trim()`, and the
  e-mail regular expression under its case-insensitive flag.
- `ContactForm` (`contact_form.dfy`): the field map, the validation effect that
  derives the error map from the fields, and the change and submit handlers.
- `Counter` (`counter.dfy`) and `Calculator` (`calculator.dfy`): the
  increment/decrement/reset count and the calculator's display buffer (key,
  C, DEL).
- `Weather` (`weather.dfy`): the weather-code table, the code-to-category
  chain, the description lookup, and the two manual code-selection buttons.
- `Wrappers` (`wrappers.dfy`): an `Option` type for `undefined`/`NaN`.
- `JsMath` (`js_math.dfy`): `Math.max` and `Math.min` on integers, shared by the
  counter and the calculator.

Each handler is a total function from the current state (and the event's data)
to the next state. Event sequences are folds of those functions.

React's `useEffect` for the contact form is modelled as an explicit
`Revalidate` step. `Dispatch` runs it after every handler that replaces the
form object, which is every change and every accepted submit. So the
`setErrors({})` inside an accepted submit is overwritten at once by the errors
of the empty form. A settled state is one whose error map agrees with its form.

`addToCart` does not check the product it is given, and neither does the
model: any id, name and price is accepted. Removing the last unit filters out
every line with that id, not just the first one. For reachable carts, where ids
are unique, these are the same line.

The e-mail pattern runs in JavaScript's non-Unicode case-insensitive mode. In
that mode `[A-Z]` matches the 52 ASCII letters and nothing else, because no
non-ASCII character folds onto an ASCII letter.

## Model

| member | source | states |
|---|---|---|
| `ShoppingCart.Find` | shopping_cart/src/App.js:19 | `find` yields nothing exactly when no line has the id, and otherwise the first line of the cart carrying that id |
| `ShoppingCart.AddToCart` | shopping_cart/src/App.js:16-28 | a present id bumps the quantity of each line with that id and keeps length and all else; an absent id appends one line `{id, name, price, quantity: 1}` after the unchanged old lines |
| `ShoppingCart.RemoveFromCart` | shopping_cart/src/App.js:32-45 | absent id: cart unchanged; first match at quantity 1: the cart's `filter`, so exactly the lines with other ids remain, in order and once each (`WithoutConcat`); otherwise each line with the id loses one unit, nothing else changes |
| `ShoppingCart.Bump` | shopping_cart/src/App.js:21-25 | the `map` keeps the length, moves the quantity of every line with the id by the given step (+1 on add, -1 on remove at App.js:40-42) and leaves every other line as it was |
| `ShoppingCart.Without` | shopping_cart/src/App.js:38 | the `filter` never lengthens the cart, leaves no line with the id, and returns the cart unchanged when no line has the id |
| `ShoppingCart.WithoutConcat` | shopping_cart/src/App.js:38 | the filter works line by line: filtering a concatenation is filtering each part, so, with the one-line case `WithoutSingle`, the kept lines keep their order and appear once each |
| `ShoppingCart.WithoutSingle` | shopping_cart/src/App.js:38 | on a one-line cart the filter keeps the line exactly when its id differs from the removed id |
| `ShoppingCart.WithoutMembers` | shopping_cart/src/App.js:38 | the filter keeps exactly the lines whose id differs |
| `ShoppingCart.AddExisting` | shopping_cart/src/App.js:19-25 | with unique ids, adding a product already present increments only that line's quantity by 1; position, length and other lines are unchanged |
| `ShoppingCart.AddNew` | shopping_cart/src/App.js:27 | adding an absent product appends exactly one line with its id, name, price and quantity 1 |
| `ShoppingCart.RemoveAbsent` | shopping_cart/src/App.js:35-36 | removing an absent id returns the cart unchanged |
| `ShoppingCart.RemoveLastUnit` | shopping_cart/src/App.js:37-38 | with unique ids, a line at quantity 1 is deleted and the remaining lines keep their relative order |
| `ShoppingCart.RemoveOneUnit` | shopping_cart/src/App.js:40-42 | with unique ids, a line at any other quantity is decremented by one and nothing else changes |
| `ShoppingCart.AddPreservesValid` | shopping_cart/src/App.js:16-28 | add keeps ids unique and quantities at least 1 |
| `ShoppingCart.RemovePreservesValid` | shopping_cart/src/App.js:32-45 | remove keeps ids unique and quantities at least 1 |
| `ShoppingCart.RunPreservesValid` | shopping_cart/src/App.js:16-45 | any sequence of add/remove actions from a valid cart yields a valid cart |
| `ShoppingCart.ReachableCartsValid` | shopping_cart/src/App.js:13-45 | from the initial empty cart, every action sequence keeps ids unique and every quantity at least 1 |
| `ShoppingCart.AddThenRemove` | shopping_cart/src/App.js:16-45 | for a cart whose quantities are at least 1, adding a product and then removing its id returns exactly the original cart |
| `ShoppingCart.ComputeTotal` | shopping_cart/src/App.js:47-50 | the left-to-right `reduce` equals the sum of price times quantity over the lines, and is 0 for the empty cart |
| `ShoppingCart.TotalNonNegative` | shopping_cart/src/App.js:47-50 | with non-negative prices and positive quantities the total is never negative |
| `ShoppingCart.AddTotal` | shopping_cart/src/App.js:16-50 | with unique ids, add raises the total by the price of the affected line (the new product's price when it was absent) |
| `ShoppingCart.RemoveTotal` | shopping_cart/src/App.js:32-50 | with unique ids, remove lowers the total by the price of the line removed from, and leaves it alone for an absent id |
| `ShoppingCart.AddKeepsOrder` | shopping_cart/src/App.js:16-28 | insertion order: add leaves the id sequence as it was or appends the new id at the end |
| `ShoppingCart.RemoveKeepsOrder` | shopping_cart/src/App.js:32-45 | insertion order: remove leaves the id sequence as it was or deletes the one id in place |
| `ShoppingCart.SmartphoneWalkthrough` | shopping_cart/src/App.js:5-50 | empty, add smartphone, add again, remove, remove: quantities 1, 2, 1, then the empty cart, with totals 25999, 51998, 25999, 0 |
| `ShoppingCart.OrderWalkthrough` | shopping_cart/src/App.js:5-28 | adding the laptop, then the smartphone, then the laptop again keeps the order [2, 1] |
| `StringTrim.TrimStart` | shopping_cart/src/App.js:136 | the result is the suffix of the input after a run of whitespace, and starts with a non-whitespace character |
| `StringTrim.TrimEnd` | shopping_cart/src/App.js:136 | the result is the prefix of the input before a run of whitespace, and ends with a non-whitespace character |
| `StringTrim.TrimShape` | shopping_cart/src/App.js:136 | `trim()` is a slice of the input with only whitespace cut on either side |
| `StringTrim.BlankIff` | shopping_cart/src/App.js:136-142 | `!s.trim()` holds exactly when every character is whitespace |
| `StringTrim.TrimIdempotent` | shopping_cart/src/App.js:139 | trimming the trimmed address changes nothing |
| `EmailPattern.IsEmailCorrect` | shopping_cart/src/App.js:139 | the first-`@`/last-dot matcher accepts exactly the strings with some split `local@domain.tld` that fits the pattern's character classes, with a top-level domain of two or more letters |
| `ContactForm.Set` | shopping_cart/src/App.js:147 | the named field takes the new value and every other field keeps its value |
| `ContactForm.Validate` | shopping_cart/src/App.js:134-144 | a name or message error exactly when that field is blank; an e-mail error exactly when the address is blank ("Email is required") or fails the pattern after trimming ("Invalid email address") |
| `ContactForm.ValidateEmptyIff` | shopping_cart/src/App.js:134-142 | the error map is empty exactly when name and message are non-blank and the trimmed address matches the pattern |
| `ContactForm.BlankEmailIsRequired` | shopping_cart/src/App.js:137 | an all-whitespace address is reported as missing, not as malformed |
| `ContactForm.EmptyFormErrors` | shopping_cart/src/App.js:130-142 | the empty form carries all three "required" errors |
| `ContactForm.HandleChange` | shopping_cart/src/App.js:146-149 | only the named field changes, and the thank-you flag is cleared |
| `ContactForm.HandleSubmit` | shopping_cart/src/App.js:151-159 | with no errors, all three fields become empty and the thank-you flag is set; with errors nothing changes |
| `ContactForm.Revalidate` | shopping_cart/src/App.js:134-144 | the effect keeps the form and stores the per-field messages of `Validate` for it, so the error map is empty exactly for acceptable forms |
| `ContactForm.Initial` | shopping_cart/src/App.js:130-144 | on mount the fields are empty, the thank-you note is hidden, and the errors agree with the form |
| `ContactForm.Dispatch` | shopping_cart/src/App.js:134-159 | a change sets the named field and hides the thank-you note; a Send with no errors clears the fields and shows the note; a Send with errors changes nothing; whenever the form object was replaced, the validation effect leaves the errors of the new form |
| `ContactForm.DispatchSettles` | shopping_cart/src/App.js:134-159 | every event followed by its effect keeps the error map in agreement with the form |
| `ContactForm.RunSettles` | shopping_cart/src/App.js:134-159 | any sequence of events from a settled state ends in a settled state |
| `ContactForm.ReachableSettled` | shopping_cart/src/App.js:130-159 | after any sequence of events since mount, the errors on screen are exactly the errors of the fields on screen |
| `ContactForm.SubmitAcceptedIff` | shopping_cart/src/App.js:151-159 | after any sequence of events since mount, Send clears all three fields and shows the thank-you note when the form is acceptable, and changes nothing when it is not |
| `ContactForm.ChangeTouchesOneField` | shopping_cart/src/App.js:146-149 | after a change and its effect, the named field holds the new value and the other fields are untouched |
| `Counter.Step` | merge/src/App.js:79-85 | increment adds exactly 1; decrement gives c-1 from a positive count and 0 otherwise, never negative; reset gives 0; any other event name leaves the count unchanged |
| `Counter.RunNonNegative` | merge/src/App.js:76-84 | from a non-negative start (the initial 0), the count stays non-negative after any click sequence |
| `Counter.RunBoundedByIncrements` | merge/src/App.js:76-84 | from a non-negative start (the initial 0), the count never exceeds its start plus the number of increments |
| `Counter.ResetForgetsHistory` | merge/src/App.js:82-84 | after a reset the count depends only on the clicks that follow |
| `Counter.IncrementsCount` | merge/src/App.js:82 | n increments raise the count by exactly n |
| `Calculator.Slice` | merge/src/App.js:136 | `slice` with in-range bounds is the sub-sequence; a negative start or end counts from the end; a start before the beginning is taken as 0 and an end past the end as the length, also when both bounds are out of range; an empty or reversed range, or a start at or past the end, gives "" |
| `Calculator.PressKey` | merge/src/App.js:121-125 | the new buffer is the old buffer followed by exactly the key's text |
| `Calculator.ClearBuffer` | merge/src/App.js:127-131 | C leaves the display empty, whatever it held |
| `Calculator.DeleteLast` | merge/src/App.js:133-137 | DEL removes the last character of a non-empty buffer and leaves "" unchanged |
| `Calculator.PressThenDelete` | merge/src/App.js:121-137 | pressing a one-character key and then DEL restores the buffer |
| `Calculator.RunKeepsKeyChars` | merge/src/App.js:180-249 | using only the keypad keys, C and DEL, the buffer only ever holds digits, `+ - * /` and `.` |
| `Calculator.ClearForgetsHistory` | merge/src/App.js:127-131 | C empties the buffer from any state, whatever came before |
| `Weather.Classify` | weather_app/src/App.js:48-52 | 0 is sunny, any other code up to 3 cloudy, 4-82 rainy, 83-99 stormy, above 99 default |
| `Weather.ClassifyMonotone` | weather_app/src/App.js:48-52 | on non-negative codes the categories are consecutive bands in the order sunny, cloudy, rainy, stormy, default |
| `Weather.Describe` | weather_app/src/App.js:54 | the table label for a mapped code, `'Unknown'` for any other code, never empty |
| `Weather.TableCodesClassified` | weather_app/src/App.js:5-12 | no table code is default; codes up to 3 are sunny or cloudy, fog codes are rainy, thunderstorm codes are stormy |
| `Weather.HandleManual` | weather_app/src/App.js:31-36 | a parsed code is taken exactly when it is a key of the table; otherwise an alert |
| `Weather.HandleTime` | weather_app/src/App.js:38-43 | an hour in 0-23 sets code 0 for 6-18 and 3 otherwise; anything else is an alert |
| `Weather.NextCode` | weather_app/src/App.js:31-43 | an alert leaves the current code unchanged; an accepted press makes the code exactly the one it sets |
| `Weather.ManualKeepsTableCode` | weather_app/src/App.js:31-36 | from a table code, "By Code" always leaves a table code |
| `Weather.HourCodeIsClearOrOvercast` | weather_app/src/App.js:38-43 | an hour-derived code is a table key classified sunny or cloudy, and sunny exactly for 6-18 |

## Left out

- Rendering, CSS class selection and the `Layout`, `Card`, `ProductCard` and
  `AnimatedCounter` components are presentation only.
- Timer-driven state is cosmetic and does not affect the modelled state. This
  covers `animatingId`, the `pressed` flashes, the product card's `added` flag
  and the counter's delayed display.
- The `fetch` of the forecast API, and its loading and error states, are
  network I/O. The code the API supplies is an `int` parameter. A `null` or
  `undefined` code is not modelled.
- `handlePercent` and `handleCalculate` call a foreign expression evaluator
  with floating-point results, so they are not modelled. So the buffer never
  holds "Error" or an evaluation result in this model.
- `parseInt` is not modelled. The weather handlers take an already-parsed
  `Option<int>`, where `None` stands for `NaN`.
- `alert`, `toLocaleString` and the string-typed display prices of the
  portfolio catalog are UI side effects and formatting.
- Prices, quantities and the counter's count are unbounded integers. JavaScript numbers lose
  precision above 2^53, which no cart or click count of these pages reaches.
- `Calculator.DeleteLast`: JavaScript strings are UTF-16 code units and Dafny
  `char` is a Unicode scalar value. The two differ only for characters outside
  the Basic Multilingual Plane, and no key produces one.
- `StringTrim.TrimStart`: the whitespace set is the one in ECMA-262 (Unicode
  space separators as of current Unicode). It would need updating if Unicode
  adds a space separator.
- `ShoppingCart.AddTotal`: stated only for carts with unique ids. That covers
  every reachable cart.
- `ShoppingCart.RemoveTotal`: stated only for carts with unique ids. That
  covers every reachable cart.
