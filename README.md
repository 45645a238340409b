# Storefront state layer — a Dafny model

This project models the state layer of a chat-platform "mini app" perfume
storefront (`script.js`): the script keeps its state in module-level
variables — the catalogue `products`, the displayed view `filteredProducts`,
the user's `cart`, the `sortDirection`, and the product-detail modal's
`currentModalProduct` and pending `currentQuantity` — and updates them from
user actions and network callbacks. Here those variables are the fields of one
class, `Storefront.Shop`, whose methods are the actions. The pure pieces the
actions rely on are functions with lemmas:

- `Catalog`: the product normaliser. It turns loosely keyed catalogue rows
  (English or Russian column names) into canonical products. Each field is
  picked by a fixed, prioritised list of candidate keys.
- `Query`: the search filter (case-insensitive substring match on name or
  concentration) and the stable sort by price. The sort is specified by a
  function and carried out in place on the view array.
- `Cart`: find-or-increment adding, removal by id, and the badge count.
- `Orders`: the order composed by "copy all order": one line per cart entry
  whose product is still in the catalogue, and the grand total.
- `Text`: `toLowerCase`, `trim`, `includes`, and the two ways the script
  turns a price string into a number. `parseFloat(x) || 0` is used when
  sorting. The coercion done by `*` is used when totalling.

`None` stands for three separate things in the model:
- JavaScript's `undefined`, such as a product field that no key supplies;
- a step that throws, such as calling `toLowerCase` on a missing name;
- the number NaN, such as the result of multiplying a missing or non-numeric
  price (this does not throw).

Some behaviour of the code is easy to misread; the model follows the code
as written:
- The normaliser does not make up a positional id. When no id key is set,
  the id stays `undefined`. When no candidate key is truthy, a field takes
  the value of its last candidate key (this is how JavaScript's `||` works).
- Adding to the cart does not reject a quantity below 1. The floor of 1
  exists only in the modal's "−" handler.
- There is no set-quantity-by-delta operation.
- A cart response with `success: false` leaves the cart as it was. The cart
  is emptied when the request throws, and also when a `success: true`
  payload's `data` is not an array, because the badge count's `reduce`
  (script.js:195) then throws into the same catch.

## Model

| member | source | states |
|---|---|---|
| `Catalog.Field` | script.js:61-66 | a field is the value of the first truthy candidate key in priority order; when none is truthy, it is the last key's value (which may be missing) |
| `Catalog.NormalizeAll` | script.js:60-67 | normalising keeps the length and order: product i is the normalisation of row i, and no row is dropped |
| `Catalog.RussianColumnsNormalize` | script.js:62-65 | a row keyed "Название"/"Цена" gives that name and price, and its id stays undefined |
| `Catalog.Normalize` | script.js:60-67 | no contract of its own: each field is chosen from its candidate keys as `Catalog.Field` states, and `Catalog.NormalizeAll` and `Catalog.RussianColumnsNormalize` state what normalising gives |
| `Catalog.SortPrice` | script.js:368-369 | a product without a price sorts as 0 |
| `Catalog.SortPriceOfUnreadable` | script.js:368-369 | a price whose first character after leading whitespace is none of a digit, `+`, `-`, `.` or `I` (or that is blank) reads as NaN, which `|| 0` turns into 0 |
| `Catalog.SortPriceReadsLeadingNumber` | script.js:368-369 | a price made of whitespace, then digits, then text that starts with none of a digit, `.`, `e` or `E` sorts as the value of those digits ("1500 руб" sorts as 1500) |
| `Catalog.CurrencySuffixSorts` | script.js:368-369 | the price "1500 руб" sorts as 1500 |
| `Catalog.OrderPrice` | script.js:308 | a product without a price multiplies to NaN |
| `Catalog.PlainPriceAgrees` | script.js:368-369 | for a price written in plain digits, the sort key and the multiplied price are the same number |
| `Text.LowerChar` | script.js:351 | lower-casing maps A-Z and А-Я to the letter 32 code points above and Ё to ё; it leaves no upper-case letter and keeps every other character |
| `Text.Lower` | script.js:357-358 | lower-casing a string keeps its length, replaces each upper-case letter in place by its lower-case letter, and keeps every other character |
| `Text.LowerForgetsCase` | script.js:351 | lower-casing a character gives the same result whether or not it was first upper-cased |
| `Text.LowerUpper` | script.js:351 | lower-casing an upper-cased string gives the same string as lower-casing the original: case is forgotten |
| `Text.TrimStartSpec` | script.js:351 | dropping leading whitespace leaves a suffix that does not start with whitespace, and everything dropped is whitespace |
| `Text.TrimEndSpec` | script.js:351 | dropping trailing whitespace leaves a prefix that does not end with whitespace, and everything dropped is whitespace |
| `Text.Trim` | script.js:351 | no contract of its own: `Text.TrimStartSpec`, `Text.TrimEndSpec`, `Text.TrimCuts` and `Text.TrimSpec` state what it returns |
| `Text.TrimCuts` | script.js:351 | `trim` cuts off a prefix and a suffix made only of whitespace and returns exactly the piece in between |
| `Text.TrimSpec` | script.js:351-353 | the trimmed piece neither starts nor ends with whitespace, occurs in the input, and is empty exactly when the input is all whitespace |
| `Text.TrimStartSkips` | script.js:368 | leading whitespace followed by text that does not start with whitespace trims to that text |
| `Text.Includes` | script.js:357-358 | no contract of its own: `Text.IncludesIffOccurs` states what it means |
| `Text.IncludesIffOccurs` | script.js:357-358 | `includes` holds exactly when the needle occurs at some position of the haystack |
| `Text.LeadingDigitsSpec` | script.js:368 | the digits read at the front are the longest run of digits there |
| `Text.LeadingDigitsStop` | script.js:368 | reading digits stops at the first character that is not a digit |
| `Text.ParseLeadingNumber` | script.js:368 | no contract of its own: `Text.ParseReadsLeadingNumber`, `Text.PlainNumberReadsAlike` and `Catalog.SortPriceOfUnreadable` state what it reads |
| `Text.ParseReadsLeadingNumber` | script.js:368 | `parseFloat` of whitespace, then digits, then text that starts with none of a digit, `.`, `e` or `E` reads the value of those digits |
| `Text.ToNumber` | script.js:308 | no contract of its own: `Text.ToNumberPadded`, `Text.BlankReadsApart`, `Text.InnerSpaceIsNaN`, `Text.PlainNumberReadsAlike` and `Text.TrailingTextIsNaN` state what it reads |
| `Text.ToNumberPadded` | script.js:308 | `*` ignores whitespace around the digits and reads a blank string as 0: "  50 " reads as 50, "" and " " as 0 |
| `Text.InnerSpaceIsNaN` | script.js:308 | whitespace between two digits makes the price NaN to `*` ("1 500") |
| `Text.BlankReadsApart` | script.js:308 | a blank price multiplies as 0, while `parseFloat` of it is NaN; this is where the two readings differ |
| `Text.PlainNumberReadsAlike` | script.js:368-369 | `parseFloat` and the `*` coercion read the same value from a string of digits |
| `Text.TrailingTextIsNaN` | script.js:308 | in the model's integer-only reading of `*`, a price string with a character that is neither a digit nor whitespace multiplies to NaN |
| `Query.Flip` | script.js:383 | toggling always changes the direction |
| `Query.FlipTwice` | script.js:383 | toggling twice restores the direction |
| `Query.SortByPrice` | script.js:367-372 | no contract of its own: `Query.SortPermutes`, `Query.SortSorts`, `Query.SortStable` and `Query.TiesKeepInputOrder` state what the sort produces |
| `Query.SortPermutes` | script.js:367-372 | the price sort is a permutation of its input |
| `Query.SortSorts` | script.js:367-372 | the sort output is non-decreasing by price for 'asc' and non-increasing for 'desc' |
| `Query.SortStable` | script.js:367-372 | the sort is stable: for every price, the products with that price keep their relative order |
| `Query.TiePrices` | script.js:368-369 | the price strings "100", "100" and "50" sort as 100, 100 and 50 |
| `Query.TieOrder` | script.js:367-372 | two products of equal price followed by a cheaper one sort ascending as the cheaper one, then the other two in input order |
| `Query.TiesKeepInputOrder` | script.js:367-372 | with prices 100, 100, 50, the ascending sort gives the 50 first, then the two 100s in input order |
| `Query.InsertAt` | script.js:367 | one insertion step puts the element right after the last element allowed to precede it |
| `Query.Matches` | script.js:357-358 | no contract of its own: `Query.FilterFailsIff` and `Query.FilterKeepsMatches` state when it throws and what it selects |
| `Query.FilterByTerm` | script.js:356-359 | no contract of its own: `Query.FilterFailsIff`, `Query.FilterKeepsMatches` and `Query.FilterConcat` state what it returns |
| `Query.FilterFailsIff` | script.js:356-359 | the filter throws exactly when some product has no name, or has a name that does not match and no concentration |
| `Query.FilterKeepsMatches` | script.js:356-359 | the filter keeps every matching product as often as it occurs, and no other product |
| `Query.FilterConcat` | script.js:356-359 | the filter keeps catalogue order: it splits along any split of the catalogue |
| `Query.Searched` | script.js:351-360 | no contract of its own: `Query.BlankQuerySelectsAll`, `Query.SearchIgnoresCase` and `Query.NameMatchSelects` state what it selects |
| `Query.BlankQuerySelectsAll` | script.js:351-354 | a query that is empty or whitespace-only selects the whole catalogue in catalogue order |
| `Query.SearchIgnoresCase` | script.js:351-359 | searching for the upper-cased query selects the same products as the query itself |
| `Query.NameMatchSelects` | script.js:351-357 | a product whose lower-cased name contains the lower-cased, trimmed query is selected, when the filter does not throw |
| `Query.SortInPlace` | script.js:367-372 | sorting the array in place leaves it holding the stable price order of its old contents |
| `Query.InsertNext` | script.js:367 | one in-place insertion step turns the array prefix into the prefix with the next element inserted |
| `Cart.FindIndex` | script.js:250 | the lookup finds the first entry with the id, or reports that no entry has it |
| `Cart.AddedTo` | script.js:250-259 | no contract of its own: `Cart.AddExisting`, `Cart.AddNew`, `Cart.AddKeepsIdsUnique` and `Cart.AddGrowsTotal` state what adding does |
| `Cart.AddExisting` | script.js:252-253 | adding a product already in the cart grows its first entry by the quantity, keeps the length, and leaves all other entries alone |
| `Cart.AddNew` | script.js:254-259 | adding a product not in the cart appends `{id, quantity}` at the end |
| `Cart.AddKeepsIdsUnique` | script.js:250-259 | if ids were unique before an add, they are unique after it |
| `Cart.AddGrowsTotal` | script.js:253-258 | after an add, the badge count has grown by exactly the added quantity |
| `Cart.TotalItems` | script.js:195 | no contract of its own: `Cart.TotalConcat`, `Cart.TotalUpdate` and `Cart.AddsFromEmpty` state how the badge count moves |
| `Cart.TotalUpdate` | script.js:253 | changing one entry's quantity moves the badge count by the same amount |
| `Cart.TotalConcat` | script.js:195 | the badge count of two carts joined together is the sum of their counts |
| `Cart.AddsFromEmpty` | script.js:247-259 | adding products to an empty cart, with ids repeated or not, gives a badge count equal to the sum of the added quantities |
| `Cart.Without` | script.js:271 | no contract of its own: `Cart.RemoveDropsId`, `Cart.RemoveKeepsOthers`, `Cart.RemoveAbsent`, `Cart.RemoveConcat` and `Cart.RemovePresent` state what removal leaves |
| `Cart.RemoveDropsId` | script.js:271 | after removal, no entry has the id |
| `Cart.RemoveKeepsOthers` | script.js:271 | removal keeps every entry with another id as often as it occurred |
| `Cart.RemoveAbsent` | script.js:271 | removing an id that no entry has leaves the cart unchanged |
| `Cart.RemoveConcat` | script.js:271 | removal keeps the order of the remaining entries: it splits along any split of the cart |
| `Cart.OnlyAt` | script.js:250-259 | in a cart with unique ids, no entry before or after an entry has that entry's id |
| `Cart.RemovePresent` | script.js:271 | in a cart with unique ids, removing a present id drops exactly that entry |
| `Cart.RemovePresentTotal` | script.js:271 | that removal lowers the badge count by the removed entry's quantity |
| `Orders.FindProduct` | script.js:305 | the lookup returns the first catalogue product with the id, or reports that none has it |
| `Orders.Lines` | script.js:304-309 | no contract of its own: `Orders.LinesResolve`, `Orders.LinesConcat`, `Orders.StaleEntrySkipped` and `Orders.LinesAllResolved` state which lines it gives |
| `Orders.Total` | script.js:302-309 | no contract of its own: `Orders.TotalIsSumOfLines` states what it sums |
| `Orders.TotalIsSumOfLines` | script.js:302-309 | the grand total is a number exactly when every line total is, and then it is the sum of the line totals |
| `Orders.LinesResolve` | script.js:304-309 | every order line is a catalogue product matched by a cart entry's id, with that entry's quantity and line total = price × quantity |
| `Orders.LinesConcat` | script.js:304 | order lines follow cart order: they split along any split of the cart |
| `Orders.StaleEntrySkipped` | script.js:305-306 | an entry whose id is not in the catalogue adds no line and nothing to the total |
| `Orders.LinesAllResolved` | script.js:304-316 | when every entry resolves, there is one line per entry, in order, with that entry's product and quantity |
| `Orders.ReloadDropsStaleLine` | script.js:304-319 | after a catalogue reload that drops one of two carted products, the order has the one remaining line and its total |
| `Storefront.Shop.constructor` | script.js:13-19 | the initial state: empty catalogue, view and cart; direction 'asc'; no modal product; quantity 1 |
| `Storefront.Shop.LoadProducts` | script.js:58-79 | a successful load replaces the catalogue with the normalised rows and the view with an unsorted copy; a failed load changes nothing |
| `Storefront.Shop.LoadCart` | script.js:86-103 | with no user id, nothing changes; a success loads the server's entries; a refusal changes nothing; a thrown error empties the cart |
| `Storefront.Shop.OpenProductModal` | script.js:171-173 | opening the modal sets the product and resets the quantity to 1 |
| `Storefront.Shop.CloseProductModal` | script.js:187-190 | closing the modal clears the product |
| `Storefront.Shop.IncreaseQuantity` | script.js:447-450 | "+" adds 1, with no upper bound |
| `Storefront.Shop.DecreaseQuantity` | script.js:452-457 | "−" subtracts 1 only above 1, so the quantity never drops below 1 |
| `Storefront.Shop.AddToCart` | script.js:247-263 | with no modal product, nothing changes; otherwise the cart is the find-or-increment result, the badge grows by the quantity, unique ids stay unique, and the modal closes |
| `Storefront.Shop.RemoveFromCart` | script.js:270-271 | the cart becomes the entries with other ids, and none has the id |
| `Storefront.Shop.SortProducts` | script.js:366-372 | the view is sorted in place into the stable price order for the current direction |
| `Storefront.Shop.ToggleSort` | script.js:382-385 | the direction flips, and the view is re-sorted in the new direction |
| `Storefront.Shop.SearchProducts` | script.js:350-363 | the view becomes the sorted search result; if the filter throws, nothing changes |
| `Storefront.Shop.CopyAllOrder` | script.js:295-319 | an empty cart gives no order; otherwise the order holds the lines of the resolvable entries and their running total |

## Left out

- Network transport is not modelled: `fetch`, JSON parsing and the POST of `saveCart` (script.js:51-123). `LoadProducts` and `LoadCart` take the outcome of the request as a parameter. `saveCart` has no effect on the state, so it has no counterpart, and neither have the `saveCart` calls inside `addToCart` and `removeFromCart`.
- Rendering, loading and error views, page navigation and event wiring are not modelled (script.js:130-168, 175-183, 196-240, 374-378, 391-428, 437-475). This includes the card click handler's `parseInt` of the id and the per-line totals shown in the cart list.
- The Telegram bridge is not modelled: `initTelegramApp`, `showNotification`, `checkout` with its deep link and its empty-cart check, `copyProductData`, clipboard writes, and the `Date.now()` order header. The user's identity enters only as the `hasUserId` flag of `LoadCart`.
- The order's text (`formatPrice`, `toLocaleString('ru-RU')`, and the user name and handle lines) is not modelled. The model keeps the structured lines and the total.
- Storefront.Shop.AddToCart: the notification at script.js:266 is not modelled. It reads `currentModalProduct.name` after `closeProductModal` has set that to null, so it throws. The cart change and the modal close have already happened by then.
- Catalog.Field: cells are modelled as strings. A JSON number, boolean or null cell is not distinguished from a string, so a numeric 0 (falsy in JavaScript) is treated like the truthy string "0". For ids this means that a product id that arrives as the number 1 and a cart id "1" are the same string here. So `Cart.FindIndex`, `Orders.FindProduct` and `Cart.Without` match them, while `===` at script.js:250, 271 and 305 does not.
- Catalog.SortPrice: reads only non-negative integers (leading whitespace, then digits). Signs, fractions, exponents and `Infinity`, which `parseFloat` also accepts, are not modelled.
- Catalog.OrderPrice: reads only blank strings (as 0) and digit strings, with any whitespace around the digits ignored. Signs, fractions, exponents, `Infinity`, and hexadecimal, binary and octal literals, which the `*` coercion also accepts, are read as NaN.
- Text.ToNumber: reads only non-negative decimal integers, with whitespace around them ignored; the other numeric forms of the `*` coercion are listed under Catalog.OrderPrice.
- Text.ParseLeadingNumber: reads only the run of digits after the leading whitespace, so "12.5" reads as 12, "1e3" as 1, and "-5", ".5", "+3" and "Infinity" as NaN, where `parseFloat` gives 12.5, 1000, −5, 0.5, 3 and Infinity.
- Text.TrailingTextIsNaN: holds of the model's integer-only reading of `*`, not of JavaScript itself. The coercion reads "1.5", "-3", "1e3", "Infinity" and "0x1F" as numbers, while the lemma says NaN for them.
- Text.Lower: applies `Text.LowerChar` to each character, so it inherits that gap: "É" stays upper-case, where `toLowerCase` gives "é".
- Text.LowerChar: folds only Latin A-Z, Cyrillic А-Я and Ё. Every other character is left unchanged, including capitals that `toLowerCase` folds, from other alphabets and from these two (À, Ukrainian І and Є, for example).
- Prices, line totals (`price * quantity`), the running order total and the badge count are unbounded integers here (`DigitsValue`, `Orders.Times`, `Orders.Plus`, `Cart.TotalItems`). JavaScript numbers are doubles, exact only up to 2^53, so rounding above that is not modelled.
- Cart quantities are unbounded integers. Floating-point quantities, and quantities sent by the server as strings, are not modelled.
- The cart entry that `addToCart` finds is changed in place through the object reference. The model writes that change as an update of the `cart` sequence. No other reference to entries exists in the script, so no aliasing effect is lost.
- supabase.js is not part of this model. It only sets up a third-party client.
