# ShopEase storefront state, in Dafny

This project models the state logic of the ShopEase storefront script `assets/js/app.js`. The
script's HTML templating is not part of the model. What is modelled:

- the fixed nine-product catalog;
- the cart kept under the `cart` storage key: adding, editing a quantity, removing, the item
  count badge, and the three places that add up the cart total (the cart page, the checkout
  summary and the invoice loop);
- the product grid's category and search filter and its three sort orders;
- the product detail page's id lookup and its quantity input;
- the signup and login forms, logout, and the login guard on checkout;
- the checkout handler's three refusals and the cart clearing after an order;
- the light/dark theme toggle.

Modules:

- `Wrappers`: `Option`.
- `Builtins`: the JavaScript built-ins the script relies on, each written out:
  - `Array.prototype.find` and `filter`;
  - `String.prototype.trim`, with the full ECMAScript white-space and line-terminator set;
  - ASCII `toLowerCase` and `includes`;
  - `parseInt`, including leading white space, a sign, the `0x` prefix, the longest digit prefix, and NaN as `None`;
  - the decimal text of an integer.
- `Catalog`: `PRODUCTS`, the lookup by id, the grid query, and the detail page. The sort is an
  in-place insertion sort on an array, standing for `items.sort`.
- `Cart`: the cart lines, the transitions `addToCart`, `changeQty` and `removeFromCart` as
  functions on values, the count, and the totals. The invoice's `grandTotal` accumulation is a
  `while` loop. The lookups, the totals and the grid query take the catalog as a parameter
  `cat`, and `Store` passes its `catalog`, which the constructor sets to `PRODUCTS`. Each result
  therefore holds for any catalog, and the nine-product list enters only where a property is
  about its particular entries.
- `Auth`: user records, the signup decision, and the login credential match.
- `Theme`: the stored theme name and the toggle.
- `Storefront`: class `Store`. Its fields are the four storage keys (`cart`, `users`, `session`,
  `theme`) plus the page's `data-theme` attribute. Each handler is a method that reassigns those
  fields, and its `ensures` ties the new state to the functions above.

`Store.Valid()` is what the handlers keep:

- at most one line per product;
- every line a catalog product;
- distinct emails, each stored trimmed;
- a session that belongs to a saved account.

Behaviour of the script that the model keeps as written:

- `addToCart` accepts any integer quantity. The detail page passes `parseInt(v) || 1`, which is
  negative for an input such as `-3`. Quantities below 1 can therefore enter the cart through
  that page, and only `changeQty` clamps to at least 1.
- The cart page, the summary and the invoice read `PRODUCTS.find(...).price` without a guard.
  The pure totals require every line to be a catalog product. `Store.Checkout` has an `Aborted`
  outcome for the `TypeError` a stale line would raise; it leaves the cart unchanged, and
  `Valid()` rules it out.
- Emails are compared exactly (after trimming), with no case folding; passwords are not trimmed.
- Login stores the matched account's `{ email, name }`.
- A missing `id` query parameter reaches `parseInt` as `null`, that is the text `"null"`, which
  gives NaN.

Where the total order behind the name sort is needed, it is a parameter `collate`: an arbitrary
relation required to be total and transitive. This stands for `localeCompare`. The lowered search
term `searchQuery` is an input.

## Model

| member | source | states |
|---|---|---|
| Catalog.CatalogDistinct | assets/js/app.js:3-13 | the nine catalog products have pairwise distinct ids, prices and names |
| Catalog.FindProduct | assets/js/app.js:53 | the lookup returns a product of the given catalog with that id, and returns none exactly when no product has it |
| Catalog.FindProductOf | assets/js/app.js:443 | looking up the id of a product of `PRODUCTS` finds that very product |
| Catalog.DistinctKeysById | assets/js/app.js:3-13 | two products of `PRODUCTS` with the same id are the same product |
| Catalog.PriceOf | assets/js/app.js:3-13 | the id of a product of `PRODUCTS` is in the catalog, and the price the totals read for it is that product's price |
| Catalog.PriceIsListed | assets/js/app.js:357-358 | the unguarded `PRODUCTS.find(...).price` of a listed id is the price of a catalog product with that id |
| Catalog.Matches | assets/js/app.js:104-107 | a matching product is in the chosen category (any for 'all') and contains a non-empty search term in its lower-cased name or category; with 'all' and no search term every product matches |
| Catalog.Filtered | assets/js/app.js:104-107 | a product is kept iff it is in the catalog and matches the category filter and the search term |
| Catalog.FilteredMeets | assets/js/app.js:104-107 | every kept product is in the chosen category (any for 'all'), and a non-empty search term occurs in its lower-cased name or category |
| Catalog.SortOrder | assets/js/app.js:109-111 | x may precede y exactly when the comparator `a.price - b.price`, `b.price - a.price` or the collation gives at most 0 |
| Catalog.SortOrderTotal | assets/js/app.js:109-111 | the three comparators are total and transitive (name order given a total collation) |
| Catalog.InsertionSort | assets/js/app.js:109-111 | the in-place sort leaves the array ordered by the comparator and a permutation of its old contents |
| Catalog.Insert | assets/js/app.js:109-111 | one insertion step extends the ordered prefix by one element and permutes the array |
| Catalog.Swap | assets/js/app.js:109-111 | exchanges two entries, leaves the others unchanged, and permutes the array |
| Catalog.SortItems | assets/js/app.js:109-111 | the sorted list is a permutation of its input, ordered under each sort key, and unchanged for an unknown key |
| Catalog.CatalogQuery | assets/js/app.js:90-111 | with the filter defaulting to 'all' and the sort to 'name', the grid shows exactly the products `Filtered` keeps, each as often as there; prices ascend for 'low-high' and descend for 'high-low', names follow the collation for 'name', and catalog order is kept otherwise |
| Catalog.AdjacentToOrdered | assets/js/app.js:109-111 | for a transitive order, ordered neighbours make the whole sequence ordered |
| Catalog.SortedPermutationsEqual | assets/js/app.js:109-111 | two ordered permutations of one another are equal when the order is antisymmetric on their elements |
| Catalog.GridOrderDetermined | assets/js/app.js:109-111 | any two ordered arrangements of the same catalog products are identical, for the name sort as soon as the collation ranks no two different catalog names as equal, so the grid order does not depend on the sort's stability |
| Catalog.DistinctKeys | assets/js/app.js:3-13 | two catalog products with the same price, or the same name, are the same product |
| Catalog.DetailProduct | assets/js/app.js:442-446 | the detail page shows the catalog product whose id `parseInt` reads from the `id` parameter, and "not found" exactly when the parse fails or no product has that id |
| Catalog.DetailLinkFindsProduct | assets/js/app.js:127 | the grid's `product.html?id=<id>` link opens the detail page of that very product |
| Catalog.DetailQty | assets/js/app.js:467 | the quantity added is the parsed number, or 1 for NaN and 0; never 0 |
| Builtins.FindIndex | assets/js/app.js:56 | `find` yields the first element satisfying the predicate, or none exactly when no element does |
| Builtins.Filter | assets/js/app.js:79 | `filter` keeps exactly the elements satisfying the predicate |
| Builtins.FilterAppend | assets/js/app.js:79 | filtering distributes over concatenation, so kept elements keep their relative order |
| Builtins.FilterAllPass | assets/js/app.js:79 | filtering with a predicate every element passes changes nothing |
| Builtins.FilterIdempotent | assets/js/app.js:79 | filtering twice is filtering once |
| Builtins.TrimStart | assets/js/app.js:230-231 | removes exactly the leading white space and leaves a suffix |
| Builtins.TrimEnd | assets/js/app.js:230-231 | removes exactly the trailing white space and leaves a prefix |
| Builtins.Trim | assets/js/app.js:230-231 | `trim` gives a string no longer than its input that neither starts nor ends with white space |
| Builtins.TrimIsPiece | assets/js/app.js:230-231 | `trim` removes only white space: its result is a contiguous piece of the input with nothing but white space before and after it |
| Builtins.TrimBlank | assets/js/app.js:230-235 | a trimmed field is empty exactly when the raw field is white space throughout, which is what the blank-field checks test |
| Builtins.TrimIdempotent | assets/js/app.js:230-231 | trimming a trimmed string changes nothing |
| Builtins.LowerChar | assets/js/app.js:106 | a capital `A`-`Z` becomes its own lower-case letter (code point plus 32), every other character is kept, and no capital remains |
| Builtins.Lower | assets/js/app.js:106 | lower-casing keeps the length and lowers each character as `LowerChar` does |
| Builtins.Includes | assets/js/app.js:106 | `includes` holds exactly when the term occurs at some position |
| Builtins.ParseInt | assets/js/app.js:72 | `parseInt` gives NaN when the text, after its leading white space, is empty or starts with something other than a sign or a digit |
| Builtins.Decimal | assets/js/app.js:127 | the text of an integer, as `${p.id}` writes it: a leading `-` exactly for a negative number, then decimal digits with no leading zero; `ParseIntDecimal` ties it back to `parseInt` |
| Builtins.ParseIntDecimal | assets/js/app.js:72 | `parseInt` of an integer's decimal text gives back that integer |
| Builtins.SignedDecimal | assets/js/app.js:72 | the sign and digits of an integer's decimal text read back as that integer |
| Builtins.SignOrDigitIsNotWhiteSpace | assets/js/app.js:72 | a sign or a decimal digit is not white space, so `parseInt` does not skip it |
| Builtins.ParseIntSkipsWhiteSpace | assets/js/app.js:72 | leading white space does not change what `parseInt` reads |
| Cart.FindLine | assets/js/app.js:56 | finds the first line for the id, or none exactly when no line has it |
| Cart.FindLineUnique | assets/js/app.js:56 | with one line per product, `find` returns the only line for that id |
| Cart.AddLine | assets/js/app.js:56-61 | the length is kept when a line for the id exists, and otherwise `{ id, qty }` is appended |
| Cart.AddLineShape | assets/js/app.js:56-61 | an existing line for the id gains `qty` in place and every other line is unchanged; either way the cart then holds a line for the id |
| Cart.AddLineKeepsInvariant | assets/js/app.js:56-61 | adding keeps one line per product, and adding a catalog product keeps every line in the catalog |
| Cart.AddLineCount | assets/js/app.js:46-61 | adding `qty` raises the item count by exactly `qty` |
| Cart.AddLineTotal | assets/js/app.js:56-61 | adding `qty` of a catalog product raises the total by its price times `qty` |
| Cart.UpdateKeepsInvariant | assets/js/app.js:56-72 | rewriting one line's quantity keeps ids distinct and lines in the catalog |
| Cart.AppendKeepsInvariant | assets/js/app.js:61 | appending an id not yet present keeps ids distinct; appending a catalog product keeps lines in the catalog |
| Cart.ClampQty | assets/js/app.js:72 | the stored quantity is at least 1: the parsed value when it is at least 1, else 1 (NaN, 0 and negatives) |
| Cart.ClampDecimal | assets/js/app.js:72 | editing a quantity to the text of `n` stores `n` when positive and 1 otherwise |
| Cart.SetQty | assets/js/app.js:69-72 | the length is kept, and an absent id leaves the cart unchanged |
| Cart.SetQtyShape | assets/js/app.js:69-72 | ids and order are kept; only the line for the id changes, to the clamped quantity, which is at least 1 |
| Cart.SetQtyKeepsInvariant | assets/js/app.js:69-72 | editing a quantity keeps ids distinct and lines in the catalog |
| Cart.SetQtyCount | assets/js/app.js:67-72 | editing a line to the text of `n` changes the item count by the clamped `n` minus the old quantity |
| Cart.Removed | assets/js/app.js:79 | the cart keeps exactly the lines for other products |
| Cart.RemoveAbsent | assets/js/app.js:79 | removing an absent id changes nothing |
| Cart.RemoveIdempotent | assets/js/app.js:79 | removing twice is removing once |
| Cart.RemoveAppend | assets/js/app.js:79 | removal works piecewise, so the remaining lines keep their order |
| Cart.RemoveUnique | assets/js/app.js:79 | with one line per product, removing the id of line `k` drops exactly line `k` |
| Cart.RemoveBetween | assets/js/app.js:79 | removing an id present only in the middle line leaves the lines around it |
| Cart.RemoveKeepsInvariant | assets/js/app.js:79 | removal keeps ids distinct and lines in the catalog |
| Cart.RemoveKeepsUniqueIds | assets/js/app.js:79 | the lines kept from a cart with distinct ids have distinct ids |
| Cart.FoldQty | assets/js/app.js:48 | the `reduce` over the quantities from a start value equals that value plus their sum |
| Cart.CartCount | assets/js/app.js:48 | the badge shows the sum of the quantities, 0 for the empty cart |
| Cart.QtySumAppend | assets/js/app.js:48-61 | appending a line adds its quantity to the count |
| Cart.QtySumUpdate | assets/js/app.js:48-59 | changing one line changes the count by the difference of quantities |
| Cart.QtySumRemoved | assets/js/app.js:48-79 | the count splits into the lines kept by a removal and the lines it drops |
| Cart.QtySumConcat | assets/js/app.js:48 | the count of a concatenation is the sum of the counts |
| Cart.FoldTotal | assets/js/app.js:172-174 | the `reduce` over price times quantity from a start value equals that value plus the total |
| Cart.CartPageTotal | assets/js/app.js:143-174 | the cart page shows 0 for the empty cart and otherwise the sum of price times quantity |
| Cart.SummaryTotal | assets/js/app.js:182-197 | the summary shows no total exactly for the empty cart, and otherwise the sum of price times quantity |
| Cart.InvoiceTotal | assets/js/app.js:355-359 | the invoice loop finishes exactly when every line is a catalog product, and its `grandTotal` is then the sum of price times quantity |
| Cart.LineTotal | assets/js/app.js:172-174 | a line's cost is the looked-up price times its quantity: one item costs the price, none costs nothing |
| Cart.Total | assets/js/app.js:172-174 | the sum of the line costs; the empty cart totals 0 |
| Cart.TotalAppend | assets/js/app.js:172-174 | appending a catalog line adds its price times quantity to the total |
| Cart.TotalUpdate | assets/js/app.js:172-174 | replacing one line by a catalog line changes the total by the new line's cost minus the old one's |
| Cart.LineTotalAdd | assets/js/app.js:172-174 | adding `d` to a line's quantity adds its price times `d` to its cost |
| Cart.TotalPair | assets/js/app.js:172-174 | a two-line cart costs the sum of its two lines' costs |
| Cart.TotalExample | assets/js/app.js:3-13 | two T-shirts and a smartphone total 16997 |
| Auth.FindEmail | assets/js/app.js:245 | returns an account with that email, and none exactly when the email is not registered |
| Auth.Signup | assets/js/app.js:230-250 | refuses a blank trimmed name or email or an empty password, then a differing confirmation, then a registered email, in that order; otherwise creates `{ name, email, pw }` from the trimmed name and email |
| Auth.AfterSignup | assets/js/app.js:206-210 | the account list grows by exactly the new record on success and is unchanged otherwise; no account is lost |
| Auth.SignupKeepsInvariant | assets/js/app.js:245-250 | signup keeps emails distinct and stored trimmed |
| Auth.SaveKeepsInvariant | assets/js/app.js:244-250 | saving an account with a trimmed, unregistered email keeps emails distinct and trimmed |
| Auth.Authenticate | assets/js/app.js:260-266 | login finds an account whose email is the trimmed input and whose password is the input as typed, and finds nothing exactly when no account matches both |
| Auth.LoginSessionOf | assets/js/app.js:264-271 | the session a successful login stores belongs to a saved account |
| Auth.AuthenticateUnique | assets/js/app.js:264 | with distinct emails, logging in with an account's email finds that account exactly when the password is right |
| Auth.SignupThenLogin | assets/js/app.js:250-264 | an account just created can log in with the same raw inputs it signed up with |
| Auth.RequireLogin | assets/js/app.js:279-287 | checkout may continue exactly when a session exists |
| Theme.Name | assets/js/app.js:425-432 | the attribute text is "dark" exactly for the dark theme and "light" exactly for the light one |
| Theme.FromStored | assets/js/app.js:424-425 | the page starts dark exactly when the stored theme is "dark"; a missing or empty value gives light |
| Theme.Flip | assets/js/app.js:429-430 | the toggle always changes the theme |
| Theme.FlipTwice | assets/js/app.js:429-432 | two toggles restore the original theme |
| Theme.StoredRoundTrip | assets/js/app.js:424-432 | a stored theme name is read back as that theme on the next load |
| Storefront.Store.constructor | assets/js/app.js:424-425 | a page load uses `PRODUCTS` as the catalog, reads back the persisted cart, users and session (the `getCart`, `getUsers` and `getSession` reads at app.js:37-39, 202-204 and 216-218), and shows the stored theme; a first visit, with nothing stored, starts in a `Valid` state |
| Storefront.Store.AddToCart | assets/js/app.js:51-65 | `qty` defaults to 1; an unknown product leaves the cart unchanged; otherwise the cart becomes `AddLine` of the old one, the count rises by `qty` and, from a `Valid` state, the total by the price times `qty`; its frame is the cart field alone, and `Valid` is kept |
| Storefront.Store.BumpOrAppend | assets/js/app.js:56-61 | the in-place increment or append yields `AddLine` of the old cart, changing only the cart field |
| Storefront.Store.ChangeQty | assets/js/app.js:67-75 | the cart becomes `SetQty` of the old one at the `parseInt` of the typed text; its frame is the cart field alone, and `Valid` is kept |
| Storefront.Store.PutQty | assets/js/app.js:68-72 | the in-place quantity write yields `SetQty` of the old cart, changing only the cart field, and keeps `Valid` |
| Storefront.Store.RemoveFromCart | assets/js/app.js:77-82 | the cart becomes the old one without the lines for `id`, and the count drops by their quantities; its frame is the cart field alone, and `Valid` is kept |
| Storefront.Store.SignUp | assets/js/app.js:226-254 | the outcome is `Signup` of the old accounts, and the accounts grow by the new record exactly when it is created; its frame is the accounts field alone, and `Valid` is kept |
| Storefront.Store.LogIn | assets/js/app.js:256-274 | succeeds exactly when `Authenticate` matches, then the session is that account's `{ email, name }`; a failure changes nothing; `Valid` is kept |
| Storefront.Store.LogOut | assets/js/app.js:220-223 | the session is cleared and nothing else changes |
| Storefront.Store.Checkout | assets/js/app.js:298-398 | refuses without a session, then with a blank trimmed field, then with an empty cart, each leaving the state unchanged; otherwise the order is placed with `grandTotal` equal to the cart total and the cart is emptied; from a valid state it never aborts, and `Valid` is kept |
| Storefront.Store.PlaceOrder | assets/js/app.js:355-398 | aborts exactly when some line is not a catalog product, leaving the cart unchanged; otherwise reports the cart total and empties the cart; it changes only the cart, and from a valid state it never aborts and keeps `Valid` |
| Storefront.Store.ToggleTheme | assets/js/app.js:428-433 | the shown theme flips, its name is stored, and a reload shows the new theme; the cart, accounts and session stay unchanged |

## Left out

- HTML building and DOM writes are not modelled. This covers the grid, cart, summary and invoice
  markup, row shading, `scrollIntoView`, the `innerText` writes, and the `highlight` regex
  marking. They are presentation only, and the regex is built from raw user input.
- `alert`, the redirects through `location.href`, `URLSearchParams`, and the search form's
  navigation are left out as browser I/O. The `search` and `id` query parameters are inputs
  instead.
- JSON encoding of the storage keys is left out. Stored values are fields, and malformed stored
  data is not modelled.
- The order id from `Date.now()` and the date from `toLocaleString()` are left out: they depend
  on the clock.
- The PDF download through `jsPDF` and `html2canvas` is left out: it uses foreign, asynchronous
  libraries.
- The newsletter `setTimeout` and the footer `fetch` are left out: they are a timer and network
  access.
- Catalog.CatalogQuery: `localeCompare` is the abstract parameter `collate`, assumed total and
  transitive, not the locale's actual collation.
- Catalog.CatalogQuery: the search term is taken already lower-cased. Lower-casing of catalog
  strings is ASCII only, which is exact for the nine catalog entries.
- Catalog.SortItems: does not state the sort's stability. For the price sorts this makes no
  difference, because `GridOrderDetermined` shows the ordered result is unique; for the name sort
  it is unique only when the collation ranks no two different catalog names as equal.
- Builtins.ParseInt: numbers are unbounded integers. Double-precision rounding of very long
  digit strings, and of quantity and total arithmetic, is not modelled.
- The model does not prove that a particular query such as "lap" finds a particular product; the
  substring search is only characterised in general.
- Behaviour after `location.href = 'index.html'` in `logout`, after the TypeError of a missing
  product in the cart page and summary renders, and of an invoice element missing from the page
  is not modelled.
