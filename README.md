# RestroPOS order engine and login gate, in Dafny

RestroPOS is a single-screen restaurant point-of-sale demo written as one
React Native component (`App.js`). Behind its layout sit two small pieces of
logic:

- a **login gate**: it rejects blank fields, then looks the username and
  password up, exactly as typed, in a fixed list of two demo accounts;
- an **order engine**: it holds a cart of menu lines and a discount
  percentage, and derives subtotal, 10% tax, discount amount and total. On
  completion it snapshots the cart into an order, appends the order to an
  in-memory history, and resets the cart and the discount.

This project models that logic and proves its properties. Modules follow the
parts of the component:

| file | module | what it holds |
|---|---|---|
| `Wrappers.dfy` | `Wrappers` | `Option`, for searches that may find nothing |
| `Menu.dfy` | `Menu` | the six-item catalogue (`menuItems`) |
| `Carts.dfy` | `Carts` | cart lines and the three list transforms `addToCart`, `removeFromCart`, `updateQuantity`, with their lemmas |
| `Totals.dfy` | `Totals` | `calculateSubtotal`, `calculateTax`, `calculateDiscount`, `calculateTotal`, with their lemmas |
| `Session.dfy` | `Session` | JavaScript `trim`, the credential list `users`, the look-up and the login decision |
| `Pos.dfy` | `Pos` | the order record and class `Terminal`, whose fields are the component's state variables and whose methods are its event handlers |

The list transforms and amounts are pure functions, like the `map`, `filter`
and `reduce` expressions in the source. Each handler assigns the component's
state, so it is a method of `Terminal` with a `modifies` frame that names
exactly the state variables it sets. Each handler is one atomic step. Its
postcondition gives the new state in terms of the old state, using the pure
functions. `Terminal.Valid()` is the invariant every handler keeps:

- one cart line per catalogue item;
- every cart line at quantity 1 or more;
- every line made from a catalogue entry;
- every recorded order non-empty, with amounts that agree with its lines.

Money is exact (`real`). The source (`App.js:124`) multiplies by the float
`0.1`; the model computes an exact tenth.

Three facts about `App.js` that the model keeps and proves:

- For a positive subtotal the total goes negative exactly when the discount
  exceeds 110 percent, because the 10% tax offsets the first 10 percent
  (`Totals.TotalNegative`).
- `handleLogout` (App.js:75-81) clears the username, the password, the cart
  and the discount. It does not clear `loginError` or the receipt's
  `currentOrder`, and neither does `Terminal.HandleLogout`.
- `completeOrder` (App.js:153-177) does not re-check the discount range, and
  neither does `Terminal.CompleteOrder`.

## Model

| member | source | states |
|---|---|---|
| `Menu.ItemsWellFormed` | App.js:28-35 | the catalogue has six entries, no two with the same id, none with a negative price |
| `Carts.Find` | App.js:85 | the search finds a line exactly when some line carries the id; what it finds is a line of the cart with that id |
| `Carts.FindFirst` | App.js:85 | the line found is the first one with that id |
| `Carts.AddToCart` | App.js:84-97 | defined as the map that bumps the line with the item's id when the search finds one, else the append of a fresh line; characterised by `Carts.AddExisting`, `Carts.AddAbsent`, `Carts.AddPreservesWellFormed`, `Carts.AddQuantity` |
| `Carts.AddExisting` | App.js:86-93 | in a cart with one line per item, adding an item already present yields the cart with only that line's quantity raised by 1: same length, same order, all other lines unchanged |
| `Carts.AddAbsent` | App.js:94-96 | adding an item not in the cart appends exactly one line, the item's fields with quantity 1, at the end |
| `Carts.AddPreservesWellFormed` | App.js:84-97 | adding keeps ids unique and every quantity at least 1 |
| `Carts.AddPreservesFromMenu` | App.js:84-97 | adding a catalogue item keeps every line a copy of a catalogue entry |
| `Carts.AddQuantity` | App.js:84-97 | in a cart with one line per item, one add raises the held quantity of that item by 1 and of every other item by 0 |
| `Carts.AddAllHasId` | App.js:84-97 | after a sequence of adds, an id has a line exactly when it had one before or was added at least once |
| `Carts.AddAllCounts` | App.js:84-97 | any sequence of adds keeps the cart well formed, and each item's held quantity grows by the number of times it was added |
| `Carts.AddAllFromEmpty` | App.js:84-97 | from an empty cart, each line's quantity equals the number of times its item was added, and exactly the added items have lines |
| `Carts.RemoveFromCart` | App.js:100-102 | defined as the filter keeping the lines with another id; characterised by `Carts.RemoveMembers`, `Carts.RemoveConcat`, `Carts.RemoveAt` |
| `Carts.RemoveMembers` | App.js:100-102 | a line survives removal exactly when it was in the cart and carries another id; no line with the id remains |
| `Carts.RemoveConcat` | App.js:100-102 | removal distributes over concatenation, so the lines that remain keep their relative order |
| `Carts.RemoveAbsent` | App.js:100-102 | removing an id that is not in the cart leaves the cart unchanged |
| `Carts.RemoveAt` | App.js:100-102 | in a cart with one line per item, removal cuts out exactly the line with that id and keeps everything before and after it |
| `Carts.RemovePreservesWellFormed` | App.js:100-102 | removal keeps ids unique and every quantity at least 1 |
| `Carts.RemovePreservesFromMenu` | App.js:100-102 | removal keeps every line a copy of a catalogue entry |
| `Carts.UpdateQuantity` | App.js:105-115 | defined as removal below 1, else the map setting the quantity of the line with the id; characterised by `Carts.UpdateBelowOne`, `Carts.UpdateAt`, `Carts.UpdateAbsent` |
| `Carts.UpdateBelowOne` | App.js:105-109 | a new quantity below 1 gives exactly the result of removal: no line with the id remains, and every other line is kept |
| `Carts.UpdateAt` | App.js:110-114 | a new quantity of 1 or more replaces that line's quantity at the same position, with length and every other line unchanged |
| `Carts.UpdateAbsent` | App.js:105-115 | setting the quantity of an id that is not in the cart changes nothing |
| `Carts.UpdatePreservesWellFormed` | App.js:105-115 | setting a quantity keeps ids unique and every quantity at least 1, whichever branch is taken |
| `Carts.UpdatePreservesFromMenu` | App.js:105-115 | setting a quantity keeps every line a copy of a catalogue entry |
| `Totals.Subtotal` | App.js:118-120 | defined as the fold of price × quantity over the lines; characterised by `Totals.SubtotalAppend`, `Totals.SubtotalNonNegative`, `Totals.SubtotalAfterAdd`, `Totals.SubtotalAfterRemove` |
| `Totals.Tax` | App.js:123-125 | defined as the subtotal times the 10% rate; characterised by `Totals.TotalBreakdown` |
| `Totals.DiscountAmount` | App.js:128-130 | defined as subtotal × discount / 100; characterised by `Totals.TotalBreakdown` |
| `Totals.Total` | App.js:133-135 | defined as subtotal + tax - discount amount; characterised by `Totals.TotalBreakdown`, `Totals.TotalNegative` |
| `Totals.SubtotalAppend` | App.js:118-120 | the subtotal of two carts placed end to end is the sum of their subtotals |
| `Totals.SubtotalNonNegative` | App.js:118-120 | lines with non-negative prices and positive quantities never sum below zero |
| `Totals.SubtotalUpdate` | App.js:118-120 | replacing one line changes the subtotal by the difference between the two line totals |
| `Totals.SubtotalBump` | App.js:118-120 | ordering one more of a line adds one unit price of that line to the subtotal |
| `Totals.SubtotalAfterAdd` | App.js:118-120 | one add raises the subtotal by one unit price: that of the existing line, or the item's when a line is appended |
| `Totals.SubtotalAfterAddFromMenu` | App.js:118-120 | for a cart made from the catalogue, adding a catalogue item raises the subtotal by exactly that item's price |
| `Totals.SubtotalAfterRemove` | App.js:118-120 | removing an item from a cart with one line per item lowers the subtotal by exactly that line's total |
| `Totals.TotalBreakdown` | App.js:123-135 | tax is a tenth of the subtotal; total = subtotal + tax - discount amount = subtotal × (110 - d) / 100; for 0 ≤ d ≤ 100 the discount amount lies between 0 and the subtotal, and the total is at least the tax |
| `Totals.TotalNegative` | App.js:133-135 | for a positive subtotal, the total is negative exactly when the discount is above 110 percent |
| `Totals.PizzaAndCokeExample` | App.js:118-135 | adding Pizza, Pizza, Coke to an empty cart gives [Pizza ×2, Coke ×1]; at 10 percent that is 450 subtotal, 45 tax, 45 off, 450 total |
| `Session.IsWhitespace` | App.js:51 | defined as the ECMAScript whitespace and line-terminator code points that `trim` strips; used by `Session.TrimEmptyIffBlank` and `Session.SpacesAreMissing` |
| `Session.LeadingWhitespace` | App.js:51 | the length of the whitespace run at the start of the string: all whitespace inside it, a non-whitespace character right after it |
| `Session.TrailingWhitespace` | App.js:51 | the length of the whitespace run at the end of the string, with the mirror-image guarantees |
| `Session.TrimEnd` | App.js:51 | where the trimmed part ends: not before it starts, only whitespace after it, a non-whitespace character just before it |
| `Session.Trim` | App.js:51 | the trimmed string is a slice of the input with only whitespace before and after it, and it neither starts nor ends with whitespace, which fixes it uniquely |
| `Session.TrimEmptyIffBlank` | App.js:51 | trimming leaves the empty string exactly when every character is JavaScript whitespace |
| `Session.FindUser` | App.js:56-58 | an account is found exactly when some entry matches both username and password exactly; what is found is such an entry |
| `Session.FindUserFirst` | App.js:56-58 | the account found is the first matching entry |
| `Session.Authenticate` | App.js:49-67 | defined as the blank test, then the look-up; characterised by `Session.AuthenticateSpec` |
| `Session.AuthenticateSpec` | App.js:49-67 | missing credentials exactly when either field trims to empty; sign-in exactly when both fields are filled and an account matches both exactly, with that account's role; invalid credentials exactly in the remaining case |
| `Session.AdminSignsIn` | App.js:43-46 | admin / admin123 signs in as Admin |
| `Session.StaffSignsIn` | App.js:43-46 | staff / staff123 signs in as Employee |
| `Session.LookupIsCaseSensitive` | App.js:56-58 | "Admin" / admin123 is refused as invalid credentials |
| `Session.LookupIsUntrimmed` | App.js:56-58 | " admin" / admin123 passes the blank check but is refused as invalid, because the look-up does not trim |
| `Session.SpacesAreMissing` | App.js:51-54 | a username made only of spaces counts as missing, whatever the password |
| `Pos.Snapshot` | App.js:162-170 | defined as the order literal: the given id and timestamp, a copy of the cart and its four amounts; characterised by `Pos.SnapshotRecorded` |
| `Pos.SnapshotRecorded` | App.js:162-170 | the order completed from a non-empty well-formed cart holds that cart and its amounts: total = subtotal + tax - discount amount = subtotal × (110 - d) / 100 |
| `Pos.Terminal.Valid` | App.js:84-177 | the invariant the handlers keep: a well-formed cart of catalogue lines and a history of recorded orders; established by `Pos.Terminal.constructor` and kept by every handler that touches the cart or the history |
| `Pos.Terminal.constructor` | App.js:21-40 | the initial state: signed out, empty fields and error, empty cart, discount 0, no orders, no receipt; the invariant holds |
| `Pos.Terminal.SetUsername` | App.js:239 | typing sets the username field |
| `Pos.Terminal.SetPassword` | App.js:249 | typing sets the password field |
| `Pos.Terminal.SetDiscount` | App.js:329 | typing sets the discount to the parsed number, with no range check |
| `Pos.Terminal.HandleLogin` | App.js:49-68 | blank field: the missing-credentials message, everything else kept; no matching account: the invalid-credentials message, fields kept; match: signed in, both fields and the error cleared; the cart and history are outside its frame |
| `Pos.Terminal.HandleLogout` | App.js:75-81 | signed out; username, password, cart and discount cleared; history, error and receipt untouched; the invariant kept |
| `Pos.Terminal.AddToCart` | App.js:84-97 | the new cart is the add transform of the old; for a catalogue item the invariant is kept, the item's quantity grows by 1 and the subtotal by its price |
| `Pos.Terminal.RemoveFromCart` | App.js:100-102 | the new cart is the removal transform of the old; no line with the id remains; the invariant is kept |
| `Pos.Terminal.UpdateQuantity` | App.js:105-115 | below 1 the cart is the removal of the id; otherwise the new cart is the quantity update of the old; the invariant is kept |
| `Pos.Terminal.ApplyDiscount` | App.js:138-150 | accepted exactly when the stored discount is in 0..100; no state changes either way |
| `Pos.Terminal.CompleteOrder` | App.js:153-177 | empty cart: refused and nothing changes. Otherwise the snapshot of the old cart at the old discount is appended as the last order and shown on the receipt, the earlier history is kept, the cart is emptied, the discount is reset to 0 and the invariant is kept |
| `Pos.AddPizzaPizzaCoke` | App.js:187-188 | pressing Add on Pizza, Pizza, Coke from an empty cart leaves [Pizza ×2, Coke ×1] |
| `Pos.PizzaAndCokeSession` | App.js:153-176 | a full session (staff sign-in, two Pizzas and a Coke, 10 percent applied, order completed) records an order of 450 / 45 / 45 / 450 |

## Left out

- Rendering, styles, layout, the `Modal` and its `showReceipt` flag, the `showPassword` toggle, `Alert.alert` notifications and the print button: presentation only, with no state the logic reads.
- The clock: `Date.now()` (the order id) and `new Date()` (the timestamp) are parameters of `Terminal.CompleteOrder`. The model therefore says nothing about uniqueness of order ids.
- Floating point: amounts are exact reals. IEEE rounding of `* 0.1` and of the other products is not modelled, nor is the two-decimal `toFixed(2)` display.
- Parsing of the discount text box (`parseFloat(text) || 0`, including the NaN-to-0 fallback): `Terminal.SetDiscount` takes the already-parsed number.
- React's state batching and re-rendering: each handler is one atomic step over the state it was invoked with.
- The disabled state of the "Complete Order" button when the cart is empty (App.js:363) belongs to the view. The model keeps `completeOrder`'s own empty-cart guard, so it covers the case the button prevents.
- Role use: the matched account's role is returned by `Session.Authenticate` but, as in the source, nothing in the state records it.
- Pos.Terminal.HandleLogin: its blank test is written as `IsBlank`, not as `trim(...) === ''`. The two are proved equal by `Session.TrimEmptyIffBlank`; `Trim` is kept out of the handler's proof to keep it cheap.
- Session.IsWhitespace lists the Unicode space separators as of Unicode 15; a JavaScript engine built on a later Unicode version could add more.
- Pos.Terminal.AddToCart: the invariant, quantity and subtotal guarantees are stated only for catalogue items, because the screen passes only entries of `menuItems` (App.js:188). For any other item only the new cart is stated.
