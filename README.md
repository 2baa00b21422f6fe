# BarberApp in Dafny

A model of the core of BarberApp. BarberApp is an Express web application in which barbers sell products and take appointments, and clients buy products and book appointments. The model covers the following parts, each as one Dafny module:

- **Parsing and printing of numbers** (`JsValues`). It covers `parseInt`, with the radix omitted (which accepts a `0x` prefix) and with radix 10. It also covers number-to-string conversion and `padStart`. They follow section 19.2.5 (`parseInt`) and section 22.1.3.17 (`padStart`) of ECMA-262.
- **Table rows** (`Schema`). This holds the rows of the `users`, `products`, `purchases` and `appointments` tables. It also holds the first-match lookups the handlers do (`rows[0]`) and the way a path parameter such as `"05"` selects a row with a numeric id.
- **Route guards** (`Auth`). These are the middleware `isLoggedIn`, `isNotLoggedIn` and `isClient`.
- **The local strategies** (`Passport`). These are sign-in, sign-up (an insert followed by the update of the role column) and session serialisation. The users table is a `class` whose `Signup` method makes the two writes.
- **Template helpers** (`Helpers`, `Handlebars`). These are strict equality, the comparisons and `inc`/`dec` on JavaScript numbers (with NaN and the infinities), `totalPages` as a ceiling, and the `aaaa-mm-dd` date format.
- **The sample arithmetic module and its test expectations** (`MathOps`).
- **The session cart** (`ProductCart`). This is `POST /products/cart/add/:id`. `Session` is a class whose `cart` field the handler creates and changes in place.
- **Purchases and product maintenance** (`ProductShop`). This covers checkout with its invoice, cancelling a purchase, editing and deleting a product, and the purchases page. `ShopDb` is a class over the two tables.
- **The catalogue page** (`ProductCatalog`). It groups the join rows by barber id with a loop, then `Object.values` lists the groups by ascending integer key.
- **Appointments** (`Appointments`). These are booking, a barber adding an appointment for a client, editing and deleting, each with its own slot-conflict query, and the list page.

How handlers are modelled. Every handler that writes to the database is a pure step function from the old tables (and the request) to the new tables and an outcome. The outcome is what the handler tells the user. A class with the same tables as fields has a method that makes the statements one at a time. Each method's `ensures` ties its new state and result to the step function. The lemmas then relate the step functions to each other:
- cancel undoes buy;
- two adds to the cart accumulate;
- delete undoes book;
- a signed-up user deserializes;
- and similar relations.

The model follows the code as written. The checkout handler has no stock check: it decrements the stock by the requested quantity whatever the stock is. The model does the same, and `ProductShop.BuyHasNoStockCheck` states it.

## Model

| member | source | states |
|---|---|---|
| JsValues.NatToString | src/routes/products.js:175 | The decimal text of a natural number, as a template literal prints a purchase id: at least one digit, only digits, "0" is the one form with a leading zero, and it is one digit exactly when the number is below ten. |
| JsValues.IntToString | src/lib/handlebars.js:30 | The text of an integer (`${year}`): it starts with '-' exactly when the number is negative, and is the natural number's text otherwise. |
| JsValues.DigitChar | src/lib/handlebars.js:26-27 | The character of a decimal digit is a digit character whose code is '0' plus the digit. |
| JsValues.TrimStart | src/routes/products.js:90 | `parseInt` first drops the leading white space: the result is a suffix of the input, does not start with white space, and everything dropped is white space. |
| JsValues.DigitPrefix | src/routes/products.js:90 | The digits `parseInt` reads are the longest prefix of digits of the radix: a prefix of the input, all digits, and followed by a non-digit or the end. |
| JsValues.ValueOfDecimal | src/routes/products.js:175 | Reading back the digits of a number's decimal text gives that number. |
| JsValues.DigitPrefixWhole | src/routes/products.js:90 | Digits followed by a non-digit are read up to exactly that non-digit. |
| JsValues.MagnitudeOfDecimal | src/routes/products.js:90 | The unsigned part of `parseInt` reads a natural number's text, followed by any stop character, as that number, with radix 10 or omitted. |
| JsValues.ParseIntOfDecimal | src/routes/products.js:90 | `parseInt` of an integer's text followed by text that does not continue the number is that integer, with radix 10 or omitted. |
| JsValues.ParseIntOfNaturalDecimal | src/routes/products.js:90 | The non-negative case of `ParseIntOfDecimal`. |
| JsValues.ParseIntOfNegativeDecimal | src/routes/products.js:90 | The negative case: a '-' before the digits negates the number read. |
| JsValues.ParseIntNegative | src/routes/products.js:90 | `parseInt` of "-" followed by text is the negation of reading that text, or NaN when the text has no digits. |
| JsValues.ParseIntUnsigned | src/routes/products.js:90 | Text that starts with a digit is read with no sign handling. |
| JsValues.ValueOfLeadingZero | src/routes/products.js:93 | A leading zero changes neither the digit check nor the value of a digit string. |
| JsValues.ParseIntHexPrefix | src/routes/products.js:90 | With the radix omitted, "0x" followed by hexadecimal digits reads as a hexadecimal number. With radix 10 the same text reads as 0. |
| JsValues.MagnitudeAfterHexPrefix | src/routes/products.js:90 | With the radix omitted, the unsigned part after a "0x" prefix is read in radix 16. |
| JsValues.MagnitudeStopsAtX | src/routes/products.js:128 | With radix 10, text starting "0x" reads as 0, because the 'x' ends the digits. |
| JsValues.HexPrefixOnlyWithoutRadix | src/routes/products.js:90 | `parseInt("0x1A")` is 26 and `parseInt("0x1A", 10)` is 0. |
| JsValues.ParseIntNoDigits | src/routes/products.js:90 | Text that starts with neither white space, a sign nor a digit (including the empty text) reads as NaN. |
| JsValues.PadStart | src/lib/handlebars.js:26-27 | `padStart`: the result has the target width (or the original length if longer), ends with the original text, and every added character is the fill character. |
| JsValues.ParseMagnitude | src/routes/products.js:128 | The radix step and digit reading of `parseInt`, after white space and sign: an invalid radix or no digits is NaN, and an omitted radix is 10 unless the text starts with "0x". Its properties are stated by `MagnitudeOfDecimal`, `MagnitudeAfterHexPrefix` and `MagnitudeStopsAtX`. |
| JsValues.ParseInt | src/routes/products.js:90 | `parseInt`: skip white space, take one sign, then read the magnitude (radix omitted at line 90, radix 10 at line 128). The lemmas `ParseIntOfDecimal`, `ParseIntHexPrefix`, `ParseIntNegative` and `ParseIntNoDigits` state what it returns. |
| Schema.FirstWhere | src/lib/passport.js:13-15 | The first row satisfying a condition: it satisfies it, no earlier row does, and there is none exactly when no row does. |
| Schema.UserById | src/lib/passport.js:68-75 | `SELECT * FROM users WHERE id = ?` taking the first row: a row with that id, and none exactly when no row has the id. |
| Schema.UserByIdFindsRow | src/lib/passport.js:68-73 | With ids in ascending order, looking up a row's own id finds that row. |
| Schema.PathId | src/routes/products.js:93 | A path parameter selects a row exactly when it is a non-empty string of decimal digits, and the id it selects is non-negative. |
| Schema.PathIdOfId | src/routes/products.js:93 | A row's own id as text, with or without a leading zero, selects that row. |
| Auth.IsLoggedIn | src/lib/auth.js:2-7 | The guard: `next` or a redirect to /signin. `Auth.GuardDecisions` states when each happens. |
| Auth.IsNotLoggedIn | src/lib/auth.js:9-14 | The guard: `next` or a redirect to /profile. `Auth.GuardDecisions` states when each happens. |
| Auth.IsClient | src/lib/auth.js:16-22 | The guard: `next` or the "Unauthorized access" flash with a redirect to /home. `Auth.GuardDecisions` states when each happens. |
| Auth.GuardDecisions | src/lib/auth.js:2-22 | `isLoggedIn` passes exactly when the request is authenticated and otherwise redirects to /signin. `isNotLoggedIn` passes exactly when it is not and otherwise redirects to /profile. `isClient` passes exactly for an authenticated client and otherwise flashes "Unauthorized access" and redirects to /home. |
| Auth.ExactlyOneSessionGuardPasses | src/lib/auth.js:2-14 | Of `isLoggedIn` and `isNotLoggedIn`, exactly one passes any request. |
| Auth.ClientGuardImpliesLoggedIn | src/lib/auth.js:16-22 | A request that passes `isClient` passes `isLoggedIn` and fails `isNotLoggedIn`. |
| Auth.BarberFailsClientGuard | src/lib/auth.js:16-22 | A logged-in barber passes `isLoggedIn` but is redirected by `isClient`. |
| Passport.MatchPassword | src/lib/helpers.js:17-23 | `matchPassword`: true only when `bcrypt.compare` answers true; a compare that throws yields `undefined`, which is falsy. |
| Passport.Serialize | src/lib/passport.js:63-65 | The session stores the user's id; `Passport.SerializeRoundTrip` states that deserializing it gives the user back. |
| Passport.Signin | src/lib/passport.js:12-25 | Sign-in succeeds only with a row of that username whose stored hash the password matches, with the welcome flash. It answers "The Username does not exist." exactly when no row has the username, and otherwise "Incorrect Password". |
| Passport.SigninWithKnownUsername | src/lib/passport.js:14-21 | When the first row with the username is known, sign-in returns that row if the password matches it, and "Incorrect Password" otherwise, regardless of later rows. |
| Passport.Deserialize | src/lib/passport.js:67-79 | The session id is resolved to a row with that id, or to `false` exactly when no row has it. |
| Passport.SerializeRoundTrip | src/lib/passport.js:63-76 | Deserializing what `serializeUser` stores for a user gives that user back. |
| Passport.SessionRequest | src/lib/passport.js:67-79 | A request is authenticated exactly when its session holds an id that deserializes to a user. |
| Passport.SigninStartsSession | src/lib/passport.js:18 | After a successful sign-in the request is authenticated and passes `isLoggedIn`. |
| Passport.SetRoleColumn | src/lib/passport.js:49-55 | The role update sets `client_id` or `barber_id` of the rows with the new id to that id, and leaves every other row alone. |
| Passport.SignupStep | src/lib/passport.js:32-61 | A failing insert changes nothing and reports the error. Otherwise one row with the next id and the hashed password is appended. Its role column holds the id only for "client" or "barber" roles when the update succeeds. Sign-up reports the user exactly when nothing failed, or when the update failed but the role needs no update; the user it reports has no role column set. |
| Passport.UserStore.Signup | src/lib/passport.js:41-57 | The two writes of `local.signup`, made to the table fields one at a time, give the state and result of `SignupStep`. |
| Passport.SignupThenDeserialize | src/lib/passport.js:45-76 | After a successful sign-up the new id deserializes to the stored row, with the hashed password and the role column set, although the object handed to `done` does not have that column set. |
| Helpers.IsEqual | src/lib/helpers.js:25-31 | The block helper: the main block or the inverse block. `Helpers.IsEqualFollowsEq` states when each is chosen. |
| Helpers.Eq | src/lib/helpers.js:33-35 | `a === b` on primitive values. `Helpers.StrictEqualsProperties` states its properties. |
| Helpers.Gt | src/lib/helpers.js:38-40 | `a > b` on numbers. `Helpers.ComparisonsAreStrict` states its properties. |
| Helpers.Lt | src/lib/helpers.js:43-45 | `a < b` on numbers. `Helpers.ComparisonsAreStrict` states its properties. |
| Helpers.Dec | src/lib/helpers.js:48-50 | `value - 1`, with NaN and the infinities unchanged. `Helpers.DecIncRoundTrip` states its properties. |
| Helpers.Inc | src/lib/helpers.js:53-55 | `value + 1`, with NaN and the infinities unchanged. `Helpers.DecIncRoundTrip` states its properties. |
| Helpers.Ceil | src/lib/helpers.js:59 | `Math.ceil` of a real is the least integer not below it. |
| Helpers.TotalPages | src/lib/helpers.js:58-60 | `totalPages` is a finite number exactly when the page size is not zero. |
| Helpers.TotalPagesIsCeiling | src/lib/helpers.js:58-60 | With a positive page size, `totalPages` pages hold all the items and one page fewer does not. No items gives 0 pages, any item at least 1. |
| Helpers.TotalPagesExamples | src/lib/helpers.js:58-60 | 0, 10 and 21 items of 10 per page give 0, 1 and 3 pages. A page size of 0 gives Infinity, or NaN with no items. |
| Helpers.IsEqualFollowsEq | src/lib/helpers.js:25-35 | The block helper `isEqual` renders its main block exactly when `eq` holds, and its inverse block exactly when it does not. |
| Helpers.StrictEqualsProperties | src/lib/helpers.js:33-35 | `===` is symmetric, implies equal values, fails on a value and itself only for NaN, and never equates a number with a string. |
| Helpers.ComparisonsAreStrict | src/lib/helpers.js:38-45 | `gt` and `lt` are strict, mirror each other, are false whenever NaN is involved, and agree with the order of finite values. |
| Helpers.DecIncRoundTrip | src/lib/helpers.js:48-55 | `dec` undoes `inc` and the other way round, and a finite value lies strictly between its `dec` and its `inc`. |
| Handlebars.FormatDateAux | src/lib/handlebars.js:20-31 | `formatDateAux`: year, month counted from 1 and day, joined by dashes, or "NaN-NaN-NaN" for an invalid date. The lemmas `FormatDateAuxFields`, `FormatDateAuxFourDigitYear` and `FormatDateAuxExamples` state its layout. |
| Handlebars.TwoDigits | src/lib/handlebars.js:26-27 | A month or day below 100, padded to two characters, is two decimal digits. |
| Handlebars.TwoDigitsPadding | src/lib/handlebars.js:26-27 | A number below ten gets a leading '0', and a number from ten up is printed as it is. |
| Handlebars.TwoDigitsParse | src/lib/handlebars.js:26-27 | The two padded digits read back, in radix 10, as the number. |
| Handlebars.ParseIntOfDigits | src/lib/handlebars.js:26-27 | A non-empty digit string reads, in radix 10, as its value. |
| Handlebars.FormatDateAuxFields | src/lib/handlebars.js:20-31 | For a valid date, the output is the year, '-', the two-digit month (counted from 1), '-', and the two-digit day, and each field reads back as its value. |
| Handlebars.FormatDateAuxFourDigitYear | src/lib/handlebars.js:29-30 | A year from 1000 to 9999 gives a 10-character `aaaa-mm-dd` string with dashes at positions 4 and 7. |
| Handlebars.FormatDateAuxExamples | src/lib/handlebars.js:20-31 | 9 March 2024 (month index 2) formats as "2024-03-09", year 5 as "5-01-01", and an invalid date as "NaN-NaN-NaN". |
| MathOps.Sumar | src/tests/math.js:2-4 | `a + b`. `MathOps.SumarRestarInverse` and `MathOps.TestExpectations` state its properties. |
| MathOps.Restar | src/tests/math.js:7-9 | `a - b`. `MathOps.SumarRestarInverse` states that it undoes `sumar`. |
| MathOps.Multiplicar | src/tests/math.js:12-14 | `a * b`. `MathOps.DividirUndoesMultiplicar` states that `dividir` undoes it. |
| MathOps.Dividir | src/tests/math.js:17-22 | `dividir` throws "No se puede dividir por cero" exactly for a zero divisor, and otherwise returns a quotient that, times the divisor, gives the dividend. |
| MathOps.SumarRestarInverse | src/tests/math.js:2-9 | `restar` undoes `sumar` and the other way round, and `sumar` is commutative. |
| MathOps.DividirUndoesMultiplicar | src/tests/math.js:12-22 | Dividing a product by a non-zero factor gives the other factor back. |
| MathOps.TestExpectations | src/tests/math.test.js:1-22 | The values the test file expects from the four functions. |
| ProductCart.RequestedQuantity | src/routes/products.js:90 | `parseInt(quantity) \|\| 1`, with the radix omitted: the parsed number when it is a non-zero number, and 1 when it is NaN or 0. |
| ProductCart.RequestedQuantityOfDecimal | src/routes/products.js:90 | A decimal quantity, possibly followed by text, is taken as written, except that 0 becomes 1. |
| ProductCart.RequestedQuantityWithoutNumber | src/routes/products.js:90 | A field without a number (including an empty one) gives 1, and "0x1A" gives 26. |
| ProductCart.IndexOf | src/routes/products.js:105 | `findIndex` gives the first entry with the id, or -1 exactly when no entry has it. |
| ProductCart.FindIndex | src/routes/products.js:105 | The search loop returns `IndexOf`. |
| ProductCart.Lookup | src/routes/products.js:93-97 | A product is found exactly when the path id selects an existing row, and it is that row. |
| ProductCart.CartAdd | src/routes/products.js:104-113 | An entry with the id grows by the quantity and no other entry changes. Without one, a new entry with the product's name and price is appended. |
| ProductCart.CartAddKeepsIdsDistinct | src/routes/products.js:104-113 | Adding never creates two entries with the same id. |
| ProductCart.IndexOfAfterAdd | src/routes/products.js:105-112 | After an add, the id is found where it was, or at the new last entry. |
| ProductCart.CartAddAccumulates | src/routes/products.js:105-112 | Two adds under the same id equal one add of the summed quantity, and the entry keeps the name and price of the first add. |
| ProductCart.AddToCartStep | src/routes/products.js:87-122 | The product is missing exactly when the lookup fails, and then the cart is unchanged. Otherwise the cart, created empty if absent, receives `CartAdd`. |
| ProductCart.Session.AddToCart | src/routes/products.js:89-113 | The handler reads the quantity field with `RequestedQuantity` and leaves the session's cart and result as `AddToCartStep` says. |
| ProductCart.Session.AddQuantity | src/routes/products.js:93-113 | Lookup, cart creation, `findIndex` and the grow-or-push statements on the session field give `AddToCartStep`. |
| ProductCart.SameProductTwoEntries | src/routes/products.js:89-112 | Adding product n as "n" and as "0n" makes two entries of the same product, because entries are keyed by the path text. |
| ProductShop.PurchaseQuantity | src/routes/products.js:128 | `parseInt(quantity, 10) \|\| 1`: the parsed number when it is a non-zero number, and 1 when it is NaN or 0. |
| ProductShop.PurchaseQuantityOfDecimal | src/routes/products.js:128 | A decimal quantity is taken as written, except that 0 becomes 1. |
| ProductShop.CartAndCheckoutReadQuantitiesDifferently | src/routes/products.js:90-128 | The cart reads "0x1A" as 26 items and the checkout reads it as 1. |
| ProductShop.InvoiceUrl | src/routes/products.js:175 | The invoice URL is "/invoices/factura-", then the purchase id's decimal text, then ".pdf". |
| ProductShop.InvoiceFor | src/routes/products.js:164-175 | The invoice's fields: purchase id, product name, quantity, the unit price times the quantity as the total, and `InvoiceUrl`. |
| ProductShop.Decremented | src/routes/products.js:142 | The stock update takes the quantity from that one product, and changes nothing else. |
| ProductShop.Recorded | src/routes/products.js:145-148 | The insert stores the purchase under the next, unused id and advances the counter. |
| ProductShop.BuyStep | src/routes/products.js:125-182 | A missing product changes nothing. Otherwise the stock is decremented by the quantity with no stock check. An insert that fails leaves the decrement in place and reports the error. A successful insert records the purchase with the product's barber and returns the invoice: id, name, quantity, unit price times quantity, and URL. |
| ProductShop.ShopDb.Buy | src/routes/products.js:127-175 | The checkout handler reads the quantity field with `PurchaseQuantity`, and the tables and result are those of `BuyStep`. |
| ProductShop.ShopDb.BuyQuantity | src/routes/products.js:135-155 | The lookup, the stock update and the insert on the table fields give `BuyStep`. |
| ProductShop.BuyHasNoStockCheck | src/routes/products.js:141-142 | A purchase of more items than the stock succeeds and leaves a negative stock. |
| ProductShop.Restocked | src/routes/products.js:402 | The stock update gives the quantity back to that one product when it still exists, and changes no other product. |
| ProductShop.CancelStep | src/routes/products.js:391-417 | A path id that selects no purchase changes nothing. Otherwise the purchase's quantity is given back to its product if the product still exists, and no other product changes. Then that one purchase is deleted; a DELETE that fails leaves the stock restored and the purchase in place, and reports the error. |
| ProductShop.ShopDb.CancelPurchase | src/routes/products.js:396-414 | The select, the stock update and the delete (which may fail) on the table fields give `CancelStep`. |
| ProductShop.FailedCancelRestocksTwice | src/routes/products.js:402-414 | After a cancel whose DELETE failed, the purchase is still there, and cancelling it again gives its quantity back a second time. |
| ProductShop.BuyThenCancelRestores | src/routes/products.js:396-405 | Cancelling a purchase through the id on its invoice restores the products and purchases from before the purchase; only the auto-increment counter has moved. |
| ProductShop.EditStep | src/routes/products.js:228-277 | A missing product makes the handler fail with nothing changed. Otherwise name, price and stock are set, the image only when a file was uploaded, and the old image is unlinked exactly when a new one replaces a non-empty one. |
| ProductShop.ShopDb.EditProduct | src/routes/products.js:233-267 | The select, the update and the unlink decision on the table fields give `EditStep`. |
| ProductShop.DeleteStep | src/routes/products.js:280-285 | Deleting removes exactly the selected product, and its purchases stay. |
| ProductShop.ShopDb.DeleteProduct | src/routes/products.js:280-285 | The delete on the table field gives `DeleteStep`. |
| ProductShop.BuyerAndBarberSeePurchase | src/routes/products.js:346-381 | After a purchase, the buying client and the product's barber both find it on their purchases page, when both users exist. |
| ProductShop.VisiblePurchases | src/routes/products.js:346-381 | The purchases page: a barber's purchases as barber, anyone else's as client, kept only when product, client and barber all join. `BuyerAndBarberSeePurchase` and `DeletedProductHidesPurchases` state what it shows. |
| ProductShop.DeletedProductHidesPurchases | src/routes/products.js:369-370 | After a product is deleted its purchases remain in the table, but no purchases page shows them. |
| ProductCatalog.RowsOf | src/routes/products.js:297-305 | The barber's query returns exactly the rows with that barber id, in row order (the order is stated by `RowsOfAppend`). |
| ProductCatalog.RowsOfAppend | src/routes/products.js:297-305 | The rows come back in table order: one more row is appended to the result exactly when it has the barber id. |
| ProductCatalog.VisibleRows | src/routes/products.js:295-313 | A barber sees exactly their own rows and anyone else sees all rows. |
| ProductCatalog.BarberIds | src/routes/products.js:316-324 | The barber ids that get a group are exactly those of some row. |
| ProductCatalog.ProductsOf | src/routes/products.js:325-330 | A group never holds more products than there are rows. |
| ProductCatalog.ProductsOfRowsOf | src/routes/products.js:297-330 | A barber's group holds exactly the barber's rows (the rows the barber's own query returns), in row order, each as the object pushed for it (the order of `RowsOf` is stated by `RowsOfAppend`). |
| ProductCatalog.Grouped | src/routes/products.js:316-331 | The grouped dictionary has a key for exactly the barber ids of the rows. |
| ProductCatalog.AddRow | src/routes/products.js:317-330 | One iteration of `forEach` adds at most the row's barber id to the keys. |
| ProductCatalog.ProductsOfAbsent | src/routes/products.js:325-330 | A barber with no rows has no products. |
| ProductCatalog.BarberIdsStep | src/routes/products.js:317-324 | One more row adds exactly its barber id to the ids seen. |
| ProductCatalog.GroupedStepAt | src/routes/products.js:317-330 | After one more row, each group is as `AddRow` leaves or creates it. |
| ProductCatalog.GroupedStep | src/routes/products.js:317-330 | Grouping one more row is one `AddRow` on the grouping of the rows before it. |
| ProductCatalog.GroupRows | src/routes/products.js:316-331 | The `forEach` loop builds the grouping `Grouped`. |
| ProductCatalog.MinExists | src/routes/products.js:333 | A non-empty set of ids has a least element. |
| ProductCatalog.OrderedKeys | src/routes/products.js:333 | `Object.values` visits the integer keys in strictly ascending order, and visits each key exactly once. |
| ProductCatalog.SumSizesLastRow | src/routes/products.js:325-330 | The last row adds one product to its barber's group and none elsewhere. |
| ProductCatalog.SumSizesNoRows | src/routes/products.js:316 | Without rows every group is empty. |
| ProductCatalog.GroupsPartitionRows | src/routes/products.js:316-331 | The groups of distinct barber ids covering all rows hold exactly as many products as there are rows. |
| ProductCatalog.FirstNameIsFirstRow | src/routes/products.js:318-323 | A group's name is the barber name of the first row with its id. |
| ProductCatalog.ListingFromKeys | src/routes/products.js:333 | The values read through the ascending keys are the groups of the rows, one per barber, by ascending id. |
| ProductCatalog.GroupIds | src/routes/products.js:333 | The ids of the listed groups, in list order. |
| ProductCatalog.TotalIsSumSizes | src/routes/products.js:316-333 | The products over a list of groups are the products over their ids. |
| ProductCatalog.ListedTotal | src/routes/products.js:316-333 | Every visible row is listed once: the listed groups hold as many products as there are rows. |
| ProductCatalog.OwnGroupOnly | src/routes/products.js:295-305 | When all rows belong to one barber, every listed group is that barber's. |
| ProductCatalog.BarbersWithProducts | src/routes/products.js:288-335 | The page lists the groups of the role's rows, one per barber by ascending id, holding every visible row once. A barber sees only their own group. |
| Appointments.BookedRecord | src/routes/appointments.js:80-99 | A barber books for themself with no client. Anyone else books as the client with the submitted barber. Either way it is named after the user, at the form's slot. |
| Appointments.BookConflict | src/routes/appointments.js:67-70 | The booking guard: an appointment at the date and time with the form's barber id; a missing or non-numeric barber id matches nothing. |
| Appointments.AddConflict | src/routes/appointments.js:119-122 | The add guard: an appointment at the date and time with the form's client id. |
| Appointments.EditConflict | src/routes/appointments.js:170-173 | The edit guard: an appointment at the date and time other than the edited one, whoever it belongs to. |
| Appointments.Insert | src/routes/appointments.js:102 | The insert stores the row under the next, unused id and advances the counter. |
| Appointments.BookStep | src/routes/appointments.js:62-105 | The booking is refused, with nothing changed, exactly when the submitted barber already has an appointment at that date and time. Otherwise `BookedRecord` is inserted. |
| Appointments.AppointmentTable.Book | src/routes/appointments.js:64-103 | The conflict query and the insert on the table fields give `BookStep`. |
| Appointments.AddStep | src/routes/appointments.js:108-150 | The appointment is refused exactly when the chosen client already has one at that slot, and fails when no user has the client id; both change nothing. Otherwise it is inserted with the client's name, that client and the current user as barber. |
| Appointments.AppointmentTable.Add | src/routes/appointments.js:110-144 | The client query, the conflict query and the insert on the table fields give `AddStep`. |
| Appointments.EditStep | src/routes/appointments.js:164-192 | The edit is refused, with nothing changed, exactly when any other appointment has the new slot (any appointment at all, when the path selects no row). Otherwise the selected appointment, if it exists, gets the new date, time and description, and nothing else changes. |
| Appointments.AppointmentTable.Edit | src/routes/appointments.js:166-186 | The conflict query and the update on the table fields give `EditStep`. |
| Appointments.DeleteStep | src/routes/appointments.js:195-200 | Deleting removes exactly the selected appointment. |
| Appointments.AppointmentTable.Delete | src/routes/appointments.js:196-198 | The delete on the table field gives `DeleteStep`. |
| Appointments.BookedSlotRejectsSameBarber | src/routes/appointments.js:67-77 | Once a client has booked a barber at a slot, any further booking of that barber at that slot is refused, whoever makes it. |
| Appointments.BarberCanDoubleBook | src/routes/appointments.js:67-88 | A barber booking for themself submits no barber id, so the conflict query cannot match and the same slot can be booked twice. |
| Appointments.EditLeavesSlotToItself | src/routes/appointments.js:170-183 | A successful edit of an existing appointment leaves it at the new slot with the new description. |
| Appointments.EditOwnSlotAllowed | src/routes/appointments.js:170-180 | Re-saving an appointment at its own slot is allowed when no other appointment has that slot. |
| Appointments.EditConflictIgnoresBarber | src/routes/appointments.js:170-180 | Any other appointment at the new slot blocks an edit, even one with a different barber. |
| Appointments.EditWithoutRowRefusedAtTakenSlot | src/routes/appointments.js:170-179 | A path that selects no row is unequal to every id, so any appointment at the new slot refuses the edit, with nothing changed. |
| Appointments.EditAbcRefused | src/routes/appointments.js:170-179 | With one appointment, an edit through the path "abc" to that appointment's own slot is refused. |
| Appointments.DeleteAfterBookRestores | src/routes/appointments.js:195-200 | Deleting a new booking through its id restores the table; only the counter has moved. |
| Appointments.UnjoinedBookingsHidden | src/routes/appointments.js:23-39 | A booking with no client or no barber does not show on the booker's list page. |
| Appointments.ClientBookingListed | src/routes/appointments.js:23-39 | A client's booking with an existing barber shows on both the client's and the barber's list page. |
| Appointments.Listing | src/routes/appointments.js:23-39 | The list page: a barber's appointments whose client joins, or anyone else's appointments as client whose client and barber both join. `UnjoinedBookingsHidden` and `ClientBookingListed` state what it shows. |

## Left out

- The database engine is not modelled. Tables are maps by id (users are a sequence in storage order, since sign-in takes the first match). MySQL's conversion of a string such as "12abc" to a number is not modelled: a path id selects a row only when it is all digits, and any other path selects no row (and so differs from every id in `id != ?`). A form id that is not a number is `None`.
- JavaScript numbers are not modelled as doubles. Quantities and ids are unbounded integers, and prices and the arithmetic module use exact reals. The `inc`/`dec`/`gt`/`lt` helpers work on numbers only, without JavaScript's conversions of other types.
- File uploads, deleting files (the model only returns which file the edit handler would delete), PDF generation and the clock (`formattedNow`) are I/O, so they are not modelled. The invoice is its fields and URL.
- Express plumbing is not modelled: redirect targets, rendering, flash storage and the response of each route. Only the outcome that decides them is kept.
- bcrypt is a parameter: `compare` for sign-in and `hash` with `salt` for sign-up. A `compare` that throws is modelled (as no answer, which `matchPassword` turns into a failed match). Exceptions of `genSalt` and `hash` are not modelled.
- `timeago`, `formatDate` and the parsing of a date text by `new Date` depend on the locale, the time zone and a library, so they are not modelled. `formatDateAux` takes the year, month and day, or an invalid date.
- src/lib/barberController.js, src/index.js, src/keys.js and tests/routes.test.js are not part of this model. They are server setup, configuration and routing outside the modelled component.
- src/routes/authentication.js is not part of this model. Its two behaviours of its own are not modelled: `POST /signin` reads its validators and redirects with the first message (lines 35-40), and `POST /signup` declares validators (lines 15-19) that nothing reads, so a sign-up with an empty `fullname` or `role` still creates a user.
- Concurrency between requests is not modelled: each handler is one atomic step. In the source, `await` lets requests interleave between the conflict query and the insert.
- Passport.Deserialize: the database-error path of `deserializeUser` is not modelled.
- Appointments.BookStep: `POST /book` has no `try`/`catch`, and a failing insert (an unhandled rejection) is not modelled.
- Appointments.EditStep: a database error in the conflict query or the update, caught at src/routes/appointments.js:187-191, is not modelled; the model has no failure path for the edit. The `catch` also refers to `id` outside its scope, which would throw a second error; that is not modelled either.
- Database errors are modelled only where a handler can fail between two writes: the INSERT of `POST /shop/:id`, the DELETE of `GET /delete-purchase/:id`, and the INSERT and the role UPDATE of `local.signup` (src/lib/passport.js:45-55, through `Passport.StoreFault`). The query errors caught by the cart add (src/routes/products.js:117-121), the product edit (271-275) and `POST /appointments/add` (src/routes/appointments.js:145-149) are not modelled. There, a failing query comes before or is the only write, so it would leave the tables as they were.
- ProductShop.CancelStep: a failure of the SELECT or of the stock UPDATE, which changes nothing, is not modelled.
- ProductShop.DeleteStep: assumes `purchases.product_id` has no foreign key. No file shows the schema. With a restricting key the DELETE would be rejected (uncaught, at src/routes/products.js:282). With a cascading key the product's purchases would go too.
- ProductShop.EditStep: `price` and `stock` are taken as a real and an integer, not as the form's strings coerced by the database.
- ProductShop.VisiblePurchases, Appointments.Listing: the pages are sets of row ids; `ORDER BY purchase_date DESC` and the columns shown are not modelled.
- ProductCatalog.BarbersWithProducts: lists every key in ascending order. `Object.values` does so only for array-index keys (below 2^32 − 1); larger ids, which it would visit after them in insertion order, are not modelled.
- ProductCatalog.OwnGroupOnly: states that every listed group is the barber's, and not that there is at most one such group.
- ProductCart.AddToCartStep, ProductShop.BuyStep: take the parsed quantity. The form field is tied to them by the handler methods `Session.AddToCart` and `ShopDb.Buy`, which read it with `RequestedQuantity` and `PurchaseQuantity`.
- Pages that only read and render are not modelled. In src/routes/products.js these are `GET /`, `/add`, `/shop/:id`, `/image/:id` (a file) and `/edit/:id`. In src/routes/appointments.js they are `GET /add`, `/book` and `/edit/:id`.
- `POST /products/add` is not modelled. It is a single insert whose image comes from the upload.
