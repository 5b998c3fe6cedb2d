# Poptique shopping list — a Dafny model of the frontend logic

The Poptique shopping list is a small web app. Items live in a spreadsheet, one row per item
(`[product, platform, picked]`). The browser frontend (`main.js`) fetches the rows, shows them
as one card per marketplace platform, and lets the user act on them: add items through a
form, toggle an item's picked flag with its heart button, mark a whole card picked or
unpicked, swipe a row right to move the item to another platform, swipe it left to delete it,
clear the whole list, and refresh it.

This project models the logic of that frontend:

- **Value coercion and escaping** (`js_values.dfy`, `text.dfy`, `escape.dfy`, `api.dfy`,
  `add_form.dfy`). This covers `isPicked`, `esc`, `safeId`, `getApiUrl` and the input check at
  the start of `add`.
- **List view model** (`items.dfy`, `string_order.dfy`, `item_sort.dfy`, `list_view.dfy`). This
  is the data half of `displayGrouped`. Rows become items that carry their sheet row
  (`index + 2`). Items are grouped by platform in first-seen order, and each group is sorted
  stably: unpicked before picked, then by product name.
- **Swipe gesture controller** (`swipe.dfy`). This is the per-row drag session map, with the
  10/60/80 pixel dead zone, action threshold and visual cap.
- **Edit-sheet guard** (`sheet.dfy`, `controller.dfy`). This is the `sheetIsAnimating` state
  machine of `openSheet`/`closeSheet`. The `requestAnimationFrame` and `setTimeout` callbacks
  are explicit `Frame` and `Timer` events.

Everything is a pure function over immutable datatypes, except two methods. `CollectGroups` is
the `forEach` loop of `displayGrouped`, and `DisplayGroups` is the whole view.

These inputs become parameters of the model:
- the page origin (`window.location.origin`);
- pointer positions (`clientX` of touch and mouse events, fractional, so `real`);
- the callbacks (events).

## Model

| member | source | states |
|---|---|---|
| JsValues.IsPicked | main.js:90-94 | `true`, `"true"`, `"TRUE"` give picked; `false`, `"false"`, `"FALSE"` give unpicked; every other value gives its JavaScript truthiness |
| JsValues.IsPickedVersusTruthy | main.js:90-94 | the coercion differs from plain truthiness exactly on the strings `"false"` and `"FALSE"` |
| JsValues.IsPickedOnStrings | main.js:90-94 | any other string is picked exactly when it is non-empty |
| Text.LeadingWhitespace | main.js:233 | counts the whitespace characters a string starts with: all of them are whitespace, and the next one, if any, is not |
| Text.TrailingWhitespace | main.js:233 | the same count for the whitespace a string ends with |
| Text.TrimStart | main.js:233 | the result is the longest suffix not starting with whitespace, and all that was dropped is whitespace (JavaScript `\s`) |
| Text.TrimEnd | main.js:233 | the mirror image of TrimStart, for the end of the string |
| Text.Trim | main.js:233-235 | a value trims to the empty string exactly when it is all whitespace, and a non-empty result neither starts nor ends with whitespace |
| Text.TrimIsMiddle | main.js:233 | what trimming keeps is a contiguous middle part of the input, and both dropped ends are whitespace only |
| Text.TrimIdempotent | main.js:233 | trimming twice is trimming once |
| Escape.Esc | main.js:72-76 | a name with neither `\` nor `'` is passed unchanged (the full effect is stated by EscCons) |
| Escape.EscCons | main.js:72-76 | the two `replace` passes escape character by character: `\` becomes `\\`, `'` becomes `\'`, and every other character is unchanged |
| Escape.EscLength | main.js:72-76 | the output is longer than the input by exactly the number of `\` and `'` characters |
| Escape.EscRoundTrip | main.js:72-76 | for a name without line feed or carriage return, reading the escaped name as the body of a single-quoted JavaScript literal gives back the original name |
| Escape.EscLineBreakUnreadable | main.js:72-76 | for a name with a line feed or carriage return, the escaped name is no well-formed literal body, because `esc` leaves the line break raw |
| Escape.LineBreakInName | main.js:72-76 | the name `a`, line feed, `b` escapes to text that does not read as a literal |
| Escape.EscLiteral | main.js:72-76 | the corrected escape, which also writes line breaks as `\n` and `\r`, agrees with `esc` on every name without line breaks |
| Escape.EscLiteralRoundTrip | main.js:72-76 | every name, line breaks included, reads back from its corrected escape |
| Escape.UnescapeThenEscLiteral | main.js:72-76 | every literal body whose escapes are only `\\`, `\'`, `\n` and `\r` is the corrected escape of what it reads as, so that escape is a bijection onto such bodies |
| Escape.Hyphenate | main.js:87 | the first pass keeps the length and turns each whitespace, `'` and `"` into `-`, leaving other characters alone |
| Escape.KeepIdChars | main.js:87 | the second pass keeps only ASCII letters, digits and `-` and never lengthens the string |
| Escape.SafeId | main.js:86-88 | the id starts with `body-`, the rest contains only ASCII letters, digits and `-`, and it is at most 5 characters longer than the name |
| Escape.IdSuffixCons | main.js:86-88 | character by character, separators become `-`, id characters are kept, and everything else is dropped |
| Escape.IdSuffixOfSafe | main.js:86-88 | a name made only of letters, digits and `-` is kept unchanged after `body-` |
| Escape.IdSuffixIdempotent | main.js:86-88 | sanitising an already-sanitised suffix changes nothing |
| Api.StripTrailingSlash | main.js:25-26 | `/\/$/` removes exactly one final slash, and only when there is one |
| Api.Resolve | main.js:25-26 | an absolute or protocol-relative base is used as it is; a relative one follows the origin with exactly one joining slash, added only when the base lacks it |
| Api.GetApiUrl | main.js:24-27 | the URL is the resolved base, with one trailing slash removed if present; a relative base always stays under the page origin |
| Api.RelativeBaseJoin | main.js:26 | a relative base gets exactly one slash between the origin and the path |
| Api.DeployedUrl | main.js:8-27 | with the deployed base `/api/proxy`, requests go to `<origin>/api/proxy` |
| AddForm.ValidateAdd | main.js:232-238 | the check fails (with "Enter a product name", so no request is sent) exactly when the product is all whitespace; otherwise the product is the trimmed value and the platform is the selection, or `eBay` when the selection is empty |
| AddForm.ValidateIgnoresPadding | main.js:233-241 | re-validating the accepted product gives the same request |
| StringOrder.LocaleCompare | main.js:157 | the sign of the comparison is negative, zero or positive exactly when the first name sorts before, equals, or sorts after the second |
| StringOrder.LessTransitive | main.js:157 | the name order is transitive |
| StringOrder.LessTotal | main.js:157 | any two different names are ordered one way or the other |
| Items.PlatformOf | main.js:148 | a row's group is its platform when that is a non-empty string, and `Other` otherwise; it is never empty |
| Items.ItemOf | main.js:147-152 | the item keeps the row's product, carries the coerced picked flag and has sheet row `index + 2` |
| ItemSort.Compare | main.js:156-159 | the comparator puts unpicked before picked, orders by product name (a missing name counts as `""`) within a tier, and returns 0 exactly for the same tier and name |
| ItemSort.CompareAntisymmetric | main.js:156-159 | swapping the arguments flips the comparator's sign |
| ItemSort.CompareTransitive | main.js:156-159 | the comparator is transitive, strictly so when either step is strict, which makes it a consistent sort comparator |
| ItemSort.Insert | main.js:156-159 | one insertion adds exactly the new item to the multiset |
| ItemSort.SortItems | main.js:156-159 | sorting a card is a permutation of its items |
| ItemSort.SortStable | main.js:156-159 | sorting input-ordered items orders them by the comparator, and items that compare equal keep their input (sheet-row) order |
| ItemSort.SortedMeaning | main.js:156-159 | in the result every unpicked item precedes every picked one, names ascend within a tier, and equal names keep input order |
| ItemSort.SortedUnique | main.js:156-159 | two arrangements of the same items that are both sorted are equal |
| ItemSort.SortIsTheSortedPermutation | main.js:156-159 | the sort result is the only permutation of the card's items in comparator-then-input order |
| ListView.MembersFromRows | main.js:146-153 | each item of a platform stands for the row its sheet row names, that row has the platform, and the items come in increasing sheet-row order |
| ListView.MembersComplete | main.js:146-153 | every row of a platform contributes its item to that platform |
| ListView.IndexOf | main.js:151 | the lookup finds a card with the platform, or reports that the platform has no card |
| ListView.AddItem | main.js:151-152 | a new platform gets a card of its own at the end; with distinct platforms, a known one gets the item appended to its card and every other card is unchanged |
| ListView.CollectStep | main.js:146-153 | one iteration keeps the invariant: distinct platforms, each card holds exactly its platform's items in input order, no platform with rows lacks a card, cards in first-row order, and all rows counted |
| ListView.CollectGroups | main.js:145-153 | after the loop the cards satisfy that invariant for all rows |
| ListView.SortGroups | main.js:155-160 | every card keeps its platform, its position and its items, and a card whose items are in input order comes out in the stable comparator order |
| ListView.DisplayGroups | main.js:144-160 | the result is the list view: one card per distinct platform, a card for every row's platform, each card a sorted permutation of its platform's items, cards in the order of their platform's first row, and the total item count equal to the row count |
| ListView.EveryRowInOneGroup | main.js:146-153 | each row's item is in exactly one card, the card of its platform |
| ListView.InCardIffPlatform | main.js:146-153 | a row's item is in a card exactly when the card's platform is the row's platform |
| ListView.ItemsNameTheirRows | main.js:146-153 | every item shown has a sheet row in `2 .. rows + 1` and is the item of that row, under that row's platform |
| ListView.RankedKeysUnique | main.js:155 | two platform orders that follow the same first-row ranking and hold the same platforms are equal |
| ListView.CardPlatformHasRow | main.js:146-153 | every card's platform comes from a row, so any list view of the same rows has a card for it |
| ListView.ListViewUnique | main.js:144-160 | the list-view property fixes the result completely: cards, their order and the order of the items in each |
| ListView.AddItemAsWritten | main.js:151-152 | one step over the plain object fails exactly when the platform has no card yet and is an inherited name; otherwise it is the corrected step |
| ListView.CollectAsWritten | main.js:145-152 | the loop over the plain object fails only when some row's platform is an inherited name |
| ListView.AsWrittenIsCollected | main.js:145-152 | where the loop over the plain object does not fail, its cards satisfy the same invariant as the corrected loop |
| ListView.AsWrittenHasNoInheritedCard | main.js:145-152 | the grouping object as written never opens a card for a name inherited from `Object.prototype` |
| ListView.FailsAtInheritedName | main.js:145-152 | as written, the step at a row whose platform is an inherited name fails, whatever the rows before it were |
| ListView.FailureIsFinal | main.js:145-152 | as written, once a prefix of the rows has failed, no later row can bring the view back |
| ListView.AsWrittenFailsOnInheritedName | main.js:145-152 | as written, any row whose platform is an inherited name such as `constructor` makes the whole view fail |
| Swipe.Start | main.js:318-321 | a press starts a fresh session at the pointer, not yet swiping; nothing else changes |
| Swipe.ContentOffset | main.js:336-340 | the drawn offset lies in [-80, 80], has the sign of the displacement, equals it inside the cap and is exactly 80 or -80 beyond it |
| Swipe.Move | main.js:323-342 | a move without a session changes nothing; otherwise it records the pointer, sets `swiping` once the displacement passes 10 and never clears it, caps the offset, resizes the indicator to the displacement size capped at 80 only for `dx <= 0`, leaves other rows alone and keeps all visuals in range |
| Swipe.Classify | main.js:351-355 | more than 60 right opens the sheet, more than 60 left asks to delete, anything from -60 to 60 does nothing |
| Swipe.End | main.js:344-361 | a release without a session changes nothing; otherwise it classifies the last move's displacement (not the release position), drops the session, draws the row back in place and leaves other rows alone |
| Swipe.ThresholdBoundaries | main.js:351-355 | 61 and 60.5 open, 60 does nothing, -61 and -60.5 delete and -60 does nothing |
| Swipe.DragSession | main.js:323-330 | during a drag the start stays, the last position is the last move's, and `swiping` holds once any move left the dead zone |
| Swipe.Gesture | main.js:318-361 | a whole press-moves-release gesture's outcome depends only on the last move relative to the press, and is no action without a move |
| Swipe.GestureLeavesOthers | main.js:318-361 | a gesture on one row leaves every other row's session and look unchanged |
| Sheet.OpenSheet | main.js:268-283 | while animating, opening is a no-op, including for `editRow`; otherwise it sets the guard, records the row, shows the backdrop and waits for a frame |
| Sheet.CloseSheet | main.js:285-298 | while animating, closing is a no-op; otherwise it sets the guard, removes both `visible` classes and waits for the timer |
| Sheet.FrameFired | main.js:278-282 | the frame callback adds both `visible` classes and starts the settle timer, leaving the guard, the edited row and the backdrop's display alone |
| Sheet.TimerFired | main.js:281-297 | the settle timer clears the guard; after a close it hides the backdrop only if the backdrop is not marked visible |
| Sheet.InitialValid | main.js:67-69 | the page starts in a state that satisfies the invariant |
| Sheet.StepValid | main.js:268-298 | every call or callback keeps the invariant: the guard is set exactly while a callback is pending, the classes and display agree with the phase, and only an opened sheet displays the backdrop |
| Sheet.RunValid | main.js:268-298 | the invariant holds after any sequence of events |
| Sheet.ValidIsReachable | main.js:67-69 | conversely, every state satisfying the invariant is reached from the initial page by some sequence of calls and callbacks, so the invariant describes exactly the reachable states |
| Sheet.CloseTimerHidesBackdrop | main.js:292-297 | under the guard, the close timer always hides the backdrop |
| Sheet.CallsIgnoredWhileAnimating | main.js:268-287 | while animating, any sequence of open and close calls changes nothing |
| Sheet.DoubleOpen | main.js:268-272 | opening twice inside the settle window starts one animation, for the first row |
| Sheet.OpenThenClose | main.js:268-298 | the full open sequence shows the sheet for the row and releases the guard, and the full close sequence hides everything again |
| Sheet.SettlesWithinTwoCallbacks | main.js:278-297 | from any reachable state, one frame and one timer callback are enough to clear the guard |
| Controller.SwipeEnd | main.js:344-361 | without a session nothing happens; otherwise a last displacement beyond 60 opens the sheet for the row, beyond -60 asks to delete, and anything between does nothing; only the first touches the sheet, and the row is drawn back in place with its session dropped |
| Controller.RightSwipeEditsRow | main.js:344-352 | a right swipe past the threshold makes the swiped row the edited row, unless an animation is running, in which case the sheet is untouched |

## Findings

| source | as written | input that shows it | evidently intended | confidence | as-written member | corrected member |
|---|---|---|---|---|---|---|
| main.js:72-76 | `esc` escapes only `\` and `'`, so a line feed or carriage return in a platform name stays raw inside the single-quoted handler argument, where a JavaScript literal may not hold it. | the platform `a`, line feed, `b` | the name is escaped to a well-formed literal body that reads back as the name, for example with `\n` and `\r` | medium, not executed | Escape.EscLineBreakUnreadable | Escape.EscLiteralRoundTrip |
| main.js:145-152 | `groups` is a plain object, so `!groups[platform]` is false for a name inherited from `Object.prototype`. No array is created, and `groups[platform].push` throws. | one row `["Mug", "constructor", false]` | the row is shown under a card named `constructor`, like any other platform | high, not executed | ListView.AsWrittenFailsOnInheritedName | ListView.DisplayGroups |

`Escape.LineBreakInName` instantiates the first finding on one name. The handlers at
main.js:169-173 are the places where such a name would make the inline script fail to parse.

The as-written functions of the second finding take the names a plain object inherits as a parameter, so the
lemmas hold for any such set; `ListView.InheritedNames` lists the ones of `Object.prototype`,
and `ListView.ConstructorPlatformBreaksList` instantiates the finding on that one-row input. The
rest of the model groups with `ListView.AddItem`, which looks platforms up only among the
cards already opened.

## Left out

- HTML building, `htmlEsc` and all DOM access are left out: markup strings, `innerHTML`, style
  writes, class lists and event wiring. The model keeps only the values they carry: the
  groups, the offsets and widths, and the sheet flags.
- Network calls are left out: `fetch`, `apiGet`, `apiPost`, `loadList`, `clearAll`,
  `togglePicked`, `confirmDelete`, `changeMarketplace`, `markAllPicked` and `markAllUnpicked`.
  They are I/O against the backend. The add form is modelled up to the request it would post.
- The serverless proxies (`api/proxy.js`, `cloudflare-worker.js`) are not part of this model.
  They only forward requests.
- Timing is not modelled. `requestAnimationFrame` and the 300 ms timers are the `Frame` and
  `Timer` events, so the model says which callback comes next but not when.
- `confirm()` is left out. A left swipe ends in the `ConfirmDelete` outcome, and what follows
  depends on the user and the network.
- StringOrder.LocaleCompare: `localeCompare` is modelled as code-point lexicographic order,
  not locale collation. Locale rules are not part of the source, and only the sort's shape
  (a consistent total order) matters to the properties.
- ListView.CollectGroups and ListView.DisplayGroups: cards are listed in first-seen platform order.
  `Object.keys` actually lists integer-like keys such as `"2024"` first, in numeric order.
  The model does not reproduce that quirk.
- Items.PlatformOf: the product and platform cells are modelled as strings or missing values.
  A number or other non-string platform cell is not modelled.
- Swipe.Move: the DOM elements of the row are assumed present. The early return when
  `.swipe-content` is missing, and the skipped indicator write when `.delete-indicator` is
  missing, are not modelled.
- Escape.EscRoundTrip: holds only for names without a line feed or carriage return. For the
  others `esc` produces no well-formed literal (the first Findings row), and the corrected
  `Escape.EscLiteral` is the one with a round trip for every name.
- Escape.UnescapeThenEscLiteral: covers only literal bodies whose escapes are `\\`, `\'`, `\n`
  and `\r`. Other escapes JavaScript accepts, such as `\t`, `\x41` or a line continuation, are not
  read by `Escape.Unescape`, because neither `esc` nor the corrected escape ever writes them.
- Escape.Esc: the handler text also sits inside a double-quoted HTML attribute, which is decoded
  before the script is read. HTML attribute parsing is not modelled, so a `"` or `&` in a
  platform name is treated as plain text.
- Swipe.Move and Swipe.Classify: positions and displacements are exact reals. The rounding of
  the double-precision subtraction `x - startX` is not modelled.
- Text.Trim: JavaScript strings are UTF-16, and here they are sequences of Unicode scalar
  values. The whitespace set is the one `\s` and `trim` share.
