# Campus Eats: cart, menu ownership and checkout, modelled in Dafny

This project models the request handlers of the Gitam Campus Eats web server (`server.js`) that
change state:

- the **session cart**: add-to-cart merges by the (canteen, item name) pair or appends a line;
  update-cart-quantity increases, decreases or removes the line at a position; the cart page
  shows the total;
- the **owner-scoped menu mutations**: add-canteen records its creator as owner; edit-canteen
  appends the submitted items that have a name and a price; delete-item pulls an item by id.
  The last two act only on a canteen found under both the canteen id and the requester's id,
  and every owner route first passes the signed-in and owner-role guards;
- **order placement**: a form missing its payment method, items or address is refused with 400.
  Otherwise an order snapshot is stored, and only after that is the cart emptied.

Modules:

- `Base` holds the shared ids, `Option` and the outcome of a request.
- `Auth` holds the two route guards.
- `Cart`, `Menu` and `Orders` give each request's effect as a pure function and prove what it means.
- `Server` holds two classes. `Session` has the user and the cart. `Database` has the canteens,
  the orders and an id counter. Their handler methods update fields in place, and each one is
  proved equal to its pure function.

Modelling choices:

- Prices and totals are integers in cents.
- Where the handlers parse text, the request value carries both the text (where the handler tests
  whether it is empty) and the parse result (where the handler uses the number). A quantity that
  does not parse to an integer is `None`.
- Document ids are natural numbers. Fresh ids for canteens and menu items come from a counter in
  `Database`. The invariant `Menu.WellFormed` says that every id is below the counter and that the
  items of a menu have distinct ids. Every menu mutation keeps it.
- Request fields are modelled as text or absent. The body parsers also let a field arrive as an
  array (a repeated form field), or from a JSON body as an object, a number or null; those values
  are not modelled (see "## Left out").
- The canteen id of a cart line is the submitted text, encoded one-to-one as an `Id`. An absent
  canteen id gets an id that no text maps to, so for text and absent values add-to-cart's
  strict-equality lookup is kept exactly: an absent id matches only another absent id.
- A text field the handlers only test for emptiness carries the empty string when it is absent,
  since an absent field and an empty text fail that test alike. An absent session cart is the empty
  cart: every handler treats a missing cart as an empty one.
- The index field of update-cart-quantity is classified by what the handler does with it
  (`Cart.IndexText`). The guard looks the text up as a property name of the cart array. A canonical
  decimal numeral ("0", "7") names the line at that position, if there is one. Other spellings of a
  number ("01", "+1", "1.0", "-1") name no property, so the request does nothing. The name of a
  property every array has ("length" on a non-empty cart, "push", "constructor") passes the guard.
  Then "increase" and "decrease" act on that property rather than on a line, and "remove" deletes
  the first line, because the deletion converts the text to a number and a non-number becomes 0.
- The item-list field of add-canteen and edit-canteen is absent, a list, or present but not a list
  (`Menu.Items`). edit-canteen appends only from a list. In add-canteen, a value that is not a list
  makes the filter throw, and the handler sends an error text with status 200 and stores nothing.

Where the code is more permissive than its data model suggests, the model follows the code:

- Quantities: the code replaces only a zero or non-numeric quantity with 1 (`Cart.QtyToAdd`).
  A negative number is added as it is. So a line's quantity can be zero or negative, and the model
  does not claim the invariant "quantity >= 1". add-to-cart never removes a line.
- Item filter: edit-canteen and add-canteen check only that the name text and the price text are
  non-empty. They do not check that the price parses or is non-negative (`Menu.IsValid`).
- Checkout validation: place-order checks only that the items text is non-empty. An empty list
  (`[]`) is accepted and stored as an order without items.
- Edit is not atomic: edit-canteen first looks the canteen up under (id, owner), then saves it.
  It is not a single conditional write. In the sequential model the two give the same result.
  A canteen that does not exist and a canteen owned by someone else both give 403.
- Canteen name: add-canteen with an empty canteen name fails the store's required-field check.
  The handler then sends an error text with status 200 and stores nothing (`Status.ErrorPage`).

## Model

| member | source | states |
|---|---|---|
| `Auth.OwnerGate` | server.js:75-84 | an owner route passes iff the session has a user whose role is owner; no user redirects to login, a student gets 403 |
| `Cart.FirstMatch` | server.js:254-256 | the result is -1 or a position whose line has the same name and canteen, and no earlier line (no line at all when -1) matches |
| `Cart.FindLineIndex` | server.js:254-256 | the loop's linear scan returns exactly the first matching position, or -1 |
| `Cart.QtyToAdd` | server.js:258 | the quantity added is the parsed integer, except 1 when the parse gives NaN or 0; it is never 0 |
| `Cart.AddItem` | server.js:253-272 | with a first line of the same pair, that line alone gains the quantity to add and keeps its price and position, and the length is unchanged; with none, exactly one line with the submitted price and the quantity to add is appended |
| `Cart.AddItemMerges` | server.js:261-263 | when a line has the same pair, only that line's quantity grows by the added quantity; its price, the length and every other line are unchanged |
| `Cart.AddItemAppends` | server.js:264-272 | when no line has the pair, exactly one line with the submitted price and the added quantity is appended after the unchanged earlier lines |
| `Cart.AddItemKeepsUnique` | server.js:253-272 | add-to-cart preserves "no two lines share (canteenId, name)" |
| `Cart.AddTwiceMerges` | server.js:254-272 | adding a new pair twice gives one line with the sum of both quantities and the first price |
| `Cart.AddItemTotal` | server.js:254-272 | adding raises the total by unit price times added quantity, using the price already in the cart when merging and the submitted price when appending |
| `Cart.RemoveAt` | server.js:296 | splicing out one line shortens the cart by one, keeps the lines before it and shifts the lines after it down by one |
| `Cart.ChangeQuantity` | server.js:287-301 | for a numeral index, a position outside the cart or an unknown action leaves the cart unchanged; the length changes by at most one |
| `Cart.UpdateQuantity` | server.js:284-301 | a numeral addresses that position; an index text that names no property leaves the cart unchanged; an array member name leaves it unchanged except that "remove" deletes the first line; an empty cart stays empty |
| `Cart.UpdateQuantityKeepsUnique` | server.js:284-301 | update-cart-quantity preserves the distinctness of the (canteenId, name) pairs whatever the index text |
| `Cart.IncreaseOnlyThatLine` | server.js:288-290 | "increase" adds exactly 1 to the addressed line and changes nothing else |
| `Cart.DecreaseRemovesIffAtMostOne` | server.js:291-297 | "decrease" deletes the line iff its quantity was at most 1, keeping the rest in order, and otherwise subtracts 1 from that line only |
| `Cart.RemoveDeletesThatLine` | server.js:298-300 | "remove" deletes exactly the addressed line and keeps the rest in order |
| `Cart.ChangeQuantityKeepsUnique` | server.js:287-301 | update-cart-quantity preserves the distinctness of the (canteenId, name) pairs |
| `Cart.ChangeQuantityTotal` | server.js:287-301 | increase adds one unit price to the total, a decrease that keeps the line subtracts one, a deletion subtracts the whole line |
| `Cart.Total` | server.js:234 | the left fold shown as the total equals the independently defined sum of price times quantity over all lines, and is 0 for an empty cart |
| `Cart.FoldIsSum` | server.js:234 | folding the lines from any start value adds exactly their sum to it |
| `Cart.TeaScenario` | server.js:254-271 | one Tea at 2.00 plus two more Teas gives one line of quantity 3 and total 6.00 |
| `Menu.ValidItems` | server.js:144 | a submitted item is kept iff both its name and its price text are non-empty |
| `Menu.ValidItemsAppend` | server.js:196-197 | the filter keeps the submission order |
| `Menu.ValidItemsKeepsValid` | server.js:196-197 | a submission of valid items only is kept whole |
| `Menu.ToMenuItems` | server.js:198 | the stored items carry the filtered names and prices in order, each with a fresh distinct id |
| `Menu.LoadOwned` | server.js:164-167 | the lookup finds a canteen iff it exists and its ownerId is the requester's id |
| `Menu.EditCanteen` | server.js:183-208 | 403 iff the canteen is not found under (id, requester); the collection changes only on an owner match with a list of items, only at that canteen, and no ownerId changes |
| `Menu.EditAppendsValidItems` | server.js:195-201 | on an owner match the new menu is the old menu followed, in input order, by exactly the items whose name and price are non-empty; the canteen's other fields are unchanged |
| `Menu.PullItem` | server.js:218 | no item left on the menu carries the pulled id, and the menu does not grow |
| `Menu.PullItemMembers` | server.js:218 | an item stays iff it was on the menu and its id is not the pulled id |
| `Menu.PullItemAppend` | server.js:218 | the pull keeps the order of the remaining items |
| `Menu.PullAbsentIsNoOp` | server.js:216-219 | pulling an id no item has leaves the menu unchanged |
| `Menu.PullRemovesOne` | server.js:216-219 | in a menu with distinct ids, pulling item k's id deletes exactly item k and keeps the rest in order |
| `Menu.PullKeepsDistinct` | server.js:218 | pulling keeps the item ids of a menu distinct |
| `Menu.DeleteItem` | server.js:211-227 | 403 iff the canteen is not found under (id, requester); the collection changes only on an owner match, only at that canteen, and no ownerId changes |
| `Menu.DeleteRemovesThatItem` | server.js:216-221 | on an owner match the canteen's other fields are unchanged and the menu keeps exactly the items with other ids; it is unchanged when no item has the id, and loses exactly that item when one does |
| `Menu.AddCanteen` | server.js:139-159 | with a non-empty name and no item field that is not a list, a canteen under a fresh id is created, owned by the creator, under the fixed university; otherwise an error text and nothing stored |
| `Menu.AddCanteenMenu` | server.js:143-145 | the new canteen's menu is the filtered submitted items in order, and empty when none were sent |
| `Menu.EditKeepsWellFormed` | server.js:195-201 | appending items keeps every id below the counter and the menu's ids distinct |
| `Menu.DeleteKeepsWellFormed` | server.js:216-219 | pulling an item keeps the store invariant |
| `Menu.AddCanteenKeepsWellFormed` | server.js:148-153 | creating a canteen keeps the store invariant, uses an id no canteen has and leaves the existing canteens unchanged |
| `Menu.DeleteScenario` | server.js:216-221 | another user deleting the only item gets 403 and nothing changes; the owner deleting it leaves an empty menu |
| `Orders.MakeOrder` | server.js:320-327 | the order records the submitted items, total, payment method and address, the requester's id, and the canteen name or a default |
| `Orders.PlaceOrder` | server.js:309-342 | 400 iff a payment method, items text or address is missing; success iff the form is complete, decodes and the store accepts it; otherwise orders and cart are unchanged |
| `Orders.PlaceOrderRecordsSnapshot` | server.js:320-332 | on success exactly the order MakeOrder builds, with the submitted items and total, is appended after the unchanged earlier orders, and the cart is empty |
| `Orders.CartClearedOnlyWithOrder` | server.js:329-332 | the cart is emptied only when the order has been stored |
| `Orders.EmptyAddressRejected` | server.js:314-316 | any form with an empty address, whatever its other fields and the store's answer, is refused with 400 and changes neither the orders nor the cart |
| `Server.Session.AddToCart` | server.js:244-278 | a signed-in request leaves the cart as AddItem gives it, preserving distinct pairs; otherwise it redirects to login and nothing changes |
| `Server.Session.UpdateCartQuantity` | server.js:283-307 | a signed-in request leaves the cart as UpdateQuantity gives it, preserving distinct pairs; otherwise nothing changes |
| `Server.Session.ViewCart` | server.js:230-241 | the total shown to a signed-in user is the sum of price times quantity over the cart |
| `Server.Session.Clear` | server.js:331-332 | the cart becomes empty and the user is kept |
| `Server.Database.AddCanteen` | server.js:139-159 | guarded by the owner gate, the store becomes what Menu.AddCanteen gives; orders untouched; invariant kept |
| `Server.Database.ViewEditCanteen` | server.js:161-181 | the canteen is returned iff it exists and the signed-in owner owns it; otherwise 403 (or the guard's answer) |
| `Server.Database.EditCanteen` | server.js:183-208 | guarded by the owner gate, the store becomes what Menu.EditCanteen gives; orders untouched; invariant kept |
| `Server.Database.DeleteItem` | server.js:211-227 | guarded by the owner gate, the store becomes what Menu.DeleteItem gives; orders and id counter untouched; invariant kept |
| `Server.Database.PlaceOrder` | server.js:309-342 | for a signed-in user the orders and the session cart become what Orders.PlaceOrder gives, the order being appended before the cart is emptied; canteens untouched |

## Left out

- Database connection, schemas and the store's query calls: canteens and orders are an in-memory map and sequence.
- Store failures: a failed write is modelled only for place-order, as the `saved` parameter. The other handlers' 500 paths (a failed find or save, an id that is not a valid object id) are not modelled.
- Express middleware, static files, page rendering and the HTML bodies of error responses: only the outcome (`Base.Status`) is kept. Redirect targets are not modelled.
- Session persistence (saving the session, cookie expiry, logout) is not modelled. The session store's answer to a save is ignored by the handlers anyway.
- Signup and login are not modelled: they are store I/O plus an equality test of the password. A `Session` is created with the user that sign-in would have put in it.
- Floating point: prices and totals are integer cents. What parseFloat, parseInt and JSON.parse compute is not modelled; only how their results are used. A NaN price or total is not modelled.
- An `orderDate` is stamped from the clock when an order is stored. It is not modelled, and neither are order ids.
- Races between concurrent requests on one session or one canteen are not modelled. Each handler runs as one sequential step.
- The read-only routes (home page, canteen list, menu page with its 404, help, deliverers, order-success, checkout) render pages and change nothing.
- Cart.AddItem: an absent item name is stored as undefined, which differs from the empty text under strict equality; the model gives it the empty text, so such a request merges with a line whose name is the empty text, where the code appends a new line.
- Cart.AddItem: an item name or canteen id that arrives as an array or an object (a repeated form field, a JSON body) is a fresh value that never matches under strict equality, so the code appends a new line on every such request where the model, which has only text values, merges.
- Menu.AddCanteen, Menu.EditCanteen: an item list whose elements are not all objects (a null element in a JSON body) makes the filter throw reading a property of null; add-canteen then sends the error text with status 200 and stores nothing, and edit-canteen answers 500 and stores nothing, whereas a `Menu.Items.List` holds only candidates.
- Cart.UpdateQuantity: "increase" or "decrease" with an array member name as the index writes a quantity property onto a built-in object shared by the whole process (the array prototype for "__proto__", the Array constructor for "constructor", the shared method for "push" and the like); the model keeps only the effect on the cart, which is none.
- `clear_db.js` drops the users collection. It is a one-off maintenance script and is not part of this model.
