# Labelia storefront core in Dafny

This project models the pricing, validation and index logic of the Labelia
jewellery storefront: a React shop front with an Express/Prisma API.

- **The cart ledger.** Line items are keyed by product id, colour and size.
  The ledger merges on add, removes by key, sets quantities, clears, and
  derives the item count and price total. It persists to the `labelia-cart`
  localStorage slot.
- **Checkout submission.** A form guard turns the cart into an order
  request. On success the cart is cleared; on failure the cart is kept.
- **Server handlers.** The model covers orders, promotions, products and
  customers. Each handler is a function from a request body and a store
  (a sequence of records) to a reply and the new store.
- **UI index and text helpers.**
  - the product gallery's slide strip and the home-page carousel, both
    stepped with JavaScript's `%`;
  - the "first image" rules;
  - the admin sizes field (split, trim, filter, join);
  - the image and colour toggles;
  - the catalogue's category filter;
  - the admin CSV export.

Modules follow the source files:

- `CartContext` (cart.dfy), `Checkout` (checkout.dfy)
- `OrderController`, `PromotionController`, `ProductController`, `CustomerController`
- `ProductGallery`, `HomePage`, `ProductsPage`, `AdminProducts`, `AdminOrders`

Shared helper modules:

- `Js`: request values, truthiness, `||`, `NaN` and the truncating `%`.
- `Text`: `trim`, `split`, `join`.
- `Seqs`: `filter`.
- `ColorImages`: a product's `images` object in key order.
- `Cyclic`: the wrap-around steps.
- `Wrappers`: `Option`.

Modelling choices:

- **Uninterpreted host functions.** `parseFloat`, `parseInt` and `new Date(v)` are fields of a `Js.Host` value passed in by the caller. The clock (`now`), new record ids and the outcome of a network call are parameters too.
- **Numbers.** Prices, quantities and totals are integers.
- **State and response codes.**
  - State that React or the page holds and replaces is a `class`: the cart ledger, the checkout page, the gallery index, the carousel, the catalogue filter, the product editor and the expanded order.
  - Each handler's `res.status(...)` is the `Status()` of its reply datatype.
- **SQL dates.** A stored date is `Option<int>`. `None` is SQL `NULL`, which fails every comparison. `new Date(v)` gives a `Js.Number`, and `NaN` stands for an Invalid Date, which Prisma refuses to write.
- **What Prisma refuses.** Which values the `code` and `description` columns and a `code` filter accept depends on the database schema, which is not part of this model. These are the predicates of a `PromotionController.Schema` parameter. A refused value makes the query throw, and the handler's `catch` replies 500.
- **The cart's storage slot.** The slot is `Option<Stored>`. `Stored` is either the JSON of a line list or text `JSON.parse` rejects, so the unparsable-slot branch of the initial load exists in the model.
- **Checkout ignores the discount and the receipt.** `generateReceipt` (src/utils/generateReceipt.ts:28) is never called from src/pages/Checkout.tsx. The cart's `discount` (src/context/CartContext.tsx:41) is read by nothing on the checkout path. The order therefore carries the raw `totalPrice`, and `Checkout.BuildRequest` ensures `total == CartContext.TotalPrice(lines)`.

## Model

A definition that has no contract of its own gets a row naming the members whose contracts carry its promises. Small predicates used only inside other contracts get no row, for example `CartContext.KeyOf`, `WellFormed` and `Text.IsSpace`.

| member | source | states |
|---|---|---|
| CartContext.AddLine | src/context/CartContext.tsx:55-69 | definition of `addItem`'s update: the `map` that bumps the line with the key, or the appended `{ product, color, size, quantity: 1 }`; its promises are `AddLineEffect`, `AddLinePreservesWellFormed`, `AddLineTotals` and `AddRepeatedlyFromEmpty` |
| CartContext.RemoveLines | src/context/CartContext.tsx:71-75 | definition of `removeItem`'s `filter`: the lines with a different key; its promises are `RemoveLinesEffect`, `RemoveLinesAt`, `RemoveLinesPreservesWellFormed` and `RemoveLinesTotals` |
| CartContext.SetQuantity | src/context/CartContext.tsx:82-88 | definition of the `map` of `updateQuantity`: the line with the key takes the new quantity; `UpdateLinesEffect` states it |
| CartContext.UpdateLines | src/context/CartContext.tsx:77-89 | definition of `updateQuantity`: `removeItem` for a quantity ≤ 0, the `map` otherwise; its promises are `UpdateNonPositiveIsRemove`, `UpdateLinesEffect` and `UpdateLinesPreservesWellFormed` |
| CartContext.TotalItems | src/context/CartContext.tsx:93 | definition of `totalItems`, the `reduce` sum of the quantities; its promises are `TotalItemsBound`, `EmptyTotals`, `AddLineTotals` and `RemoveLinesTotals` |
| CartContext.TotalPrice | src/context/CartContext.tsx:94 | definition of `totalPrice`, the sum of `price * quantity`; its promises are `EmptyTotals`, `AddLineTotals`, `RemoveLinesTotals` and `AdminOrders.LineAmountsAddUpToCartTotal` |
| CartContext.IndexOf | src/context/CartContext.tsx:57-59 | the position `find` hits: a line with the key, no earlier line with it; `None` exactly when no line has the key |
| CartContext.AddLineEffect | src/context/CartContext.tsx:55-67 | with unique keys, adding a present key increments exactly that line by 1 (length, order and other lines unchanged); a new key appends `Line(product, color, size, 1)` at the end |
| CartContext.AddLinePreservesWellFormed | src/context/CartContext.tsx:55-69 | unique keys and quantities ≥ 1 hold after `addItem` if they held before |
| CartContext.RemoveLinesPreservesWellFormed | src/context/CartContext.tsx:71-75 | the invariant holds after `removeItem` |
| CartContext.UpdateLinesPreservesWellFormed | src/context/CartContext.tsx:77-89 | the invariant holds after `updateQuantity` |
| CartContext.SubsequenceKeepsWellFormed | src/context/CartContext.tsx:72-74 | deleting lines from a well-formed list keeps it well formed |
| CartContext.RemoveLinesEffect | src/context/CartContext.tsx:71-75 | removal leaves no line with the key, keeps the rest in order (a subsequence) with each other line's multiplicity, and is the identity on an absent key |
| CartContext.RemoveLinesAt | src/context/CartContext.tsx:72-74 | with unique keys, removing the key of line `k` deletes just that line |
| CartContext.UpdateNonPositiveIsRemove | src/context/CartContext.tsx:78-81 | `updateQuantity` with a quantity ≤ 0 equals `removeItem` |
| CartContext.UpdateLinesEffect | src/context/CartContext.tsx:82-88 | with a positive quantity and unique keys, exactly the matching line's quantity becomes that value; an absent key is a no-op |
| CartContext.TransitionsKeepPositive | src/context/CartContext.tsx:63-86 | quantities stay ≥ 1 through every transition, even when keys are not unique |
| CartContext.AddLineTotals | src/context/CartContext.tsx:55-94 | `addItem` raises `totalItems` by 1 and `totalPrice` by the merged line's price (or the new product's price) |
| CartContext.RemoveLinesTotals | src/context/CartContext.tsx:71-94 | removing line `k` lowers `totalItems` by its quantity and `totalPrice` by its price × quantity |
| CartContext.SumAppend | src/context/CartContext.tsx:93-94 | the `reduce` totals are additive over concatenation |
| CartContext.SumReplace | src/context/CartContext.tsx:93-94 | replacing one line changes a total by the difference of that line's terms |
| CartContext.SumRemove | src/context/CartContext.tsx:93-94 | deleting one line removes its term from a total |
| CartContext.TotalItemsBound | src/context/CartContext.tsx:93 | with positive quantities, `totalItems` is at least the number of lines, and is 0 exactly for the empty cart |
| CartContext.EmptyTotals | src/context/CartContext.tsx:91-94 | both totals are 0 after `clearCart` |
| CartContext.AddRepeatedlyFromEmpty | src/context/CartContext.tsx:55-69 | `n ≥ 1` additions of one key to an empty cart give one line of quantity `n` |
| CartContext.Load | src/context/CartContext.tsx:26-39 | an absent or unparsable slot loads the empty cart, and a slot holding the JSON of a list restores that list |
| CartContext.Persisted | src/context/CartContext.tsx:43-53 | the slot is deleted exactly when the list is empty; loading what was persisted gives the list back |
| CartContext.CartLedger.constructor | src/context/CartContext.tsx:26-53 | mounting loads from the slot, starts `discount` at 0, and leaves the slot in step with the list |
| CartContext.CartLedger.AddItem | src/context/CartContext.tsx:55-69 | the new list is `AddLine` of the old one; the slot is rewritten, `discount` is untouched, and well-formedness is kept |
| CartContext.CartLedger.RemoveItem | src/context/CartContext.tsx:71-75 | the new list is `RemoveLines` of the old one; the slot is in step, `discount` untouched, well-formedness kept |
| CartContext.CartLedger.UpdateQuantity | src/context/CartContext.tsx:77-89 | the new list is `UpdateLines` of the old one; the slot is in step, `discount` untouched, well-formedness kept |
| CartContext.CartLedger.ClearCart | src/context/CartContext.tsx:43-91 | the list is empty and the slot deleted; `discount` unchanged |
| CartContext.CartLedger.SetDiscount | src/context/CartContext.tsx:41 | only `discount` changes; the list and the slot stay |
| Checkout.HasEmptyField | src/pages/Checkout.tsx:20 | definition of the guard `!form.name \|\| !form.email \|\| !form.address \|\| !form.phone`; `CheckoutPage.HandleSubmit` shows the toast and sends nothing exactly when it holds |
| Checkout.ToOrderItem | src/pages/Checkout.tsx:26-32 | definition of one element of the `items.map`; `OrderItems` states the mapping field by field |
| Checkout.WithField | src/pages/Checkout.tsx:55 | `update(field, v)` sets that field to `v` and leaves the other three as they were |
| Checkout.OrderItems | src/pages/Checkout.tsx:26-32 | one order item per cart line, in order, with the line's name, price, colour, size and quantity |
| Checkout.BuildRequest | src/pages/Checkout.tsx:35-42 | the request carries the four form fields and the mapped items; its total is the raw cart `totalPrice`, with no discount |
| Checkout.RequestBody | src/pages/Checkout.tsx:35-42 | the request as the server's body; its items array has one element per item |
| Checkout.SubmissionPassesServerCheck | src/pages/Checkout.tsx:20-41 | a request sent from a filled form passes `createOrder`'s required-field check exactly when the cart total is not 0 |
| Checkout.CheckoutPage.constructor | src/pages/Checkout.tsx:10-11 | the form starts empty and `submitting` false |
| Checkout.CheckoutPage.Render | src/pages/Checkout.tsx:13-16 | an empty cart navigates to `/panier` and renders nothing; a non-empty cart renders and does not navigate |
| Checkout.CheckoutPage.Update | src/pages/Checkout.tsx:55 | the form becomes `WithField` of the old form |
| Checkout.CheckoutPage.HandleSubmit | src/pages/Checkout.tsx:18-53 | with an empty field: an error toast, nothing sent, `submitting`, cart and location unchanged. Otherwise the request built from the form and cart is sent. On success the cart is cleared and the slot deleted, then navigation to `/`; on failure the cart is kept and an error shown. `submitting` is false after either outcome |
| OrderController.HasRequiredFields | server/controllers/order.controller.js:13 | definition of the falsy test on the six fields; `CreateOrder` replies 400 exactly when it fails, and `Checkout.SubmissionPassesServerCheck` relates it to the checkout request |
| OrderController.IsKnownStatus | server/controllers/order.controller.js:58 | definition of `includes(status)` on the whitelist; its promises are `KnownStatuses` and `UpdateOrderStatus` |
| OrderController.CreateOrder | server/controllers/order.controller.js:3-34 | 400 and an unchanged store exactly when one of the six fields is falsy (a total of 0 included). Otherwise 201 with the message, and the order appended: the customer fields and items copied, `total` parsed, status `en_attente` |
| OrderController.FindOrder | server/controllers/order.controller.js:62-65 | the first order with the id, or `None` when no order has it |
| OrderController.UpdateOrderStatus | server/controllers/order.controller.js:53-71 | a status outside the whitelist gives 400 with the store untouched; a missing id gives 500; the update happens exactly when the status is known and the id is stored, and changes only that order's `status` |
| OrderController.KnownStatuses | server/controllers/order.controller.js:58 | exactly `en_attente`, `payée` and `expédiée` pass the whitelist |
| OrderController.StatusUpdateOnlyChangesStatus | server/controllers/order.controller.js:58-67 | with unique ids, a known status and a stored id, the update succeeds and changes the status of that one order and nothing else |
| PromotionController.Matches | server/controllers/promotion.controller.js:104-111 | definition of the `where` clause: the code, `active: true`, and the `OR` of the two date comparisons; its promises are `FirstMatch`, `ExpiredPromotionStillValid`, `UndatedPromotionNeverValid` and `InactiveNeverReturned` |
| PromotionController.FirstMatch | server/controllers/promotion.controller.js:103-112 | `findFirst`: a matching promotion with no earlier match, or `None` when none matches |
| PromotionController.ValidateCode | server/controllers/promotion.controller.js:99-127 | 500 exactly when Prisma refuses the `code` filter (an `undefined` code is never refused). Otherwise `valid: false` with the fixed message exactly when no promotion has the code, is active, and has `startDate ≤ now` or `endDate ≥ now`; otherwise the first match's id, code, discount, isPercentage and description |
| PromotionController.ExpiredPromotionStillValid | server/controllers/promotion.controller.js:107-110 | because the window is an OR, an active promotion that has started and already ended still validates |
| PromotionController.UndatedPromotionNeverValid | server/controllers/promotion.controller.js:107-110 | with both dates `NULL`, no promotion validates: the reply is `valid: false` unless the filter is refused |
| PromotionController.InactiveNeverReturned | server/controllers/promotion.controller.js:106 | a returned promotion is an active one |
| PromotionController.DateOrNull | server/controllers/promotion.controller.js:47-48 | `NULL` exactly when the value is falsy, otherwise the host's `new Date(v)`, possibly an Invalid Date |
| PromotionController.StoredDate | server/controllers/promotion.controller.js:47-48 | the column value of a date: NULL exactly when no date was given or it is an Invalid Date, otherwise the timestamp `new Date` gave |
| PromotionController.CreatePromotion | server/controllers/promotion.controller.js:26-52 | a falsy code gives 400 with the store unchanged, checked first; then an undefined, null, empty or non-numeric discount gives 400 with the store unchanged. Then a code or description Prisma refuses, or an Invalid Date, gives 500 with the store unchanged. In every other case a promotion is created: it is appended with status 201 and is always active; `description` defaults to `''`, `isPercentage` is coerced to a boolean, a falsy date becomes `NULL` and any other date is its valid timestamp |
| PromotionController.CreatedPromotionValidates | server/controllers/promotion.controller.js:40-112 | a promotion just created that has started validates under its own code, when no earlier record has that code and Prisma accepts the filter |
| PromotionController.Spread | server/controllers/promotion.controller.js:67-73 | `...(v !== undefined && { f: x })`: the new value when `v` is given, the stored one when it is `undefined` |
| PromotionController.Patch | server/controllers/promotion.controller.js:64-75 | each field present in the body (not `undefined`) is replaced, with the same coercions as create; an absent field keeps its value; the id never changes |
| PromotionController.EmptyPatchIsIdentity | server/controllers/promotion.controller.js:66-74 | a body with no fields leaves the promotion unchanged |
| PromotionController.EmptyDateClears | server/controllers/promotion.controller.js:72-73 | a present but empty date becomes `NULL` |
| PromotionController.FindPromotion | server/controllers/promotion.controller.js:64-65 | a promotion with the id, or `None` when none has it |
| PromotionController.UpdatePromotion | server/controllers/promotion.controller.js:59-81 | 500 with the store unchanged exactly when no promotion has the id or a given code, description or date is one Prisma refuses; otherwise only that promotion is replaced, by its patch |
| ProductController.CreateProduct | server/controllers/product.controller.js:33-52 | the appended record's defaults: description `''`, colours `['argent','doré']`, sizes `[]`, images `[]`, packaging and video `''`; stock is the parsed integer, 0 when it does not parse; price parsed |
| ProductController.CreatedListsAreTruthy | server/controllers/product.controller.js:43-46 | a created product never has falsy colours, sizes or images |
| ProductController.UpdateDataFor | server/controllers/product.controller.js:65-77 | definition of the `updateData` object: one optional field per `if`, then `updatedAt`; its promises are `UpdateDataFields` and `BuildUpdateData` |
| ProductController.SetIfGiven | server/controllers/product.controller.js:66-75 | one `if (v !== undefined) updateData.f = x`: the field holds `x` exactly when `v` is not `undefined`, and is absent otherwise |
| ProductController.Apply | server/controllers/product.controller.js:79-82 | definition of the write `prisma.product.update` makes: fields present in `data` replace the stored ones; its promises are `UpdateChangesOnlyGivenFields`, `EmptyBodyOnlyTouchesUpdatedAt` and `FullUpdateAgreesWithCreate` |
| ProductController.UpdateDataFields | server/controllers/product.controller.js:65-77 | a field is in `updateData` exactly when the body gives it, and `updatedAt` always is. A falsy description, colours, sizes or images becomes its default; packaging and video are copied as given |
| ProductController.BuildUpdateData | server/controllers/product.controller.js:65-77 | the field-by-field `if` chain yields exactly `UpdateDataFor` |
| ProductController.EmptyBodyOnlyTouchesUpdatedAt | server/controllers/product.controller.js:77 | an empty body still moves `updatedAt` to `now` and changes nothing else |
| ProductController.UpdateChangesOnlyGivenFields | server/controllers/product.controller.js:65-82 | after the update, absent fields keep their stored values and present ones take the normalised value; id and `createdAt` stay |
| ProductController.FullUpdateAgreesWithCreate | server/controllers/product.controller.js:37-77 | a body giving every field, with truthy media, updates a product to what create stores for that body, apart from id and creation time |
| ProductController.NullMediaKeptByUpdate | server/controllers/product.controller.js:47-75 | a `null` packaging image is stored as `''` by create but as `null` by update |
| ProductController.FindProduct | server/controllers/product.controller.js:18-20 | the product with the id, or `None` when none has it |
| ProductController.GetProductById | server/controllers/product.controller.js:15-26 | 404 with `Product not found` exactly when no product has the id; otherwise 200 with a stored product of that id |
| ProductController.UpdateProduct | server/controllers/product.controller.js:59-88 | 500 with the store unchanged exactly when the id is absent or Prisma refuses the `updateData` (an `accepted` parameter); otherwise only that product is replaced, by `Apply` of `UpdateDataFor` |
| CustomerController.Unique | server/controllers/customer.controller.js:18-31 | definition, by recursion, of what the `seenEmails` loop collects; its promises are `GetCustomers`, `UniqueIsFirstOccurrences`, `DistinctEmails`, `SameEmails`, `EachEmailOnceFromFirstOrder` and `UniqueNoLonger` |
| CustomerController.GetCustomers | server/controllers/customer.controller.js:18-32 | the loop with its `seenEmails` set computes `Unique` of the orders |
| CustomerController.UniqueIsFirstOccurrences | server/controllers/customer.controller.js:21-31 | the output is exactly the first order of each email, in order of first occurrence, each turned into a customer entry |
| CustomerController.DistinctEmails | server/controllers/customer.controller.js:19-31 | output emails are pairwise distinct |
| CustomerController.SameEmails | server/controllers/customer.controller.js:21-24 | an email is in the output if and only if it is in the input |
| CustomerController.FirstWith | server/controllers/customer.controller.js:21-22 | the earliest order with a present email |
| CustomerController.EachEmailOnceFromFirstOrder | server/controllers/customer.controller.js:21-30 | each input email appears exactly once, built from the first order with that email |
| CustomerController.UniqueNoLonger | server/controllers/customer.controller.js:21-31 | the output is no longer than the input |
| CustomerController.FirstOrderDateIsMostRecent | server/controllers/customer.controller.js:14-29 | when the orders come newest first, `firstOrderDate` is the date of that email's most recent order |
| Cyclic.Next | src/components/ProductGallery.tsx:45 | definition of `(prev + 1) % totalImages` with JavaScript's `%`; its promises are `StepsStayInRange`, `ZeroCountGivesNaN` and `PrevUndoesNext` |
| Cyclic.Prev | src/components/ProductGallery.tsx:50 | definition of `(prev - 1 + totalImages) % totalImages`; its promises are `StepsStayInRange`, `ZeroCountGivesNaN` and `NextUndoesPrev` |
| Cyclic.NextOf | src/components/ProductGallery.tsx:45 | definition of the forward step on an index that may already be `NaN`, which stays `NaN`; `ZeroCountGivesNaN` and `ProductGallery.Gallery.NextImage` carry its promises |
| Cyclic.PrevOf | src/components/ProductGallery.tsx:50 | definition of the backward step on a possibly `NaN` index; `ZeroCountGivesNaN` and `ProductGallery.Gallery.PrevImage` carry its promises |
| Cyclic.StepsStayInRange | src/components/ProductGallery.tsx:43-51 | with `n > 0` and a non-negative index, both steps land in `[0, n)` and agree with `(i+1) % n` and `(i-1+n) % n` |
| Cyclic.ZeroCountGivesNaN | src/components/ProductGallery.tsx:43-51 | a count of 0 makes both steps `NaN`, and `NaN` is never left again |
| Cyclic.SmallRemainder | src/components/ProductGallery.tsx:43-51 | the JavaScript remainder of `a` in `[0, 2n)` is `a` or `a - n` |
| Cyclic.PrevUndoesNext | src/components/ProductGallery.tsx:43-51 | a step back after a step forward returns to any index in range |
| Cyclic.NextUndoesPrev | src/components/ProductGallery.tsx:43-51 | a step forward after a step back returns to any index in range |
| ProductGallery.CurrentImages | src/components/ProductGallery.tsx:20 | the selected colour's images, `[]` when the key is missing |
| ProductGallery.SlideCount | src/components/ProductGallery.tsx:44 | definition of `totalImages`: the colour's images, plus one for a video and one for a packaging image; `Gallery.NextImage`, `Gallery.PrevImage` and `SlotsOfTheStrip` use it |
| ProductGallery.CurrentImage | src/components/ProductGallery.tsx:23-39 | definition of `getCurrentImage`; its promises are `ThumbnailShowsItsImage`, `PackagingThumbnailShowsPackaging`, `SlotsOfTheStrip` and `Main` |
| ProductGallery.ThumbnailShowsItsImage | src/components/ProductGallery.tsx:136 | thumbnail `k` selects a slot inside the strip, and that slot shows image `k` |
| ProductGallery.PackagingThumbnailShowsPackaging | src/components/ProductGallery.tsx:156 | the packaging thumbnail selects the last slot, which shows the packaging image |
| ProductGallery.SlotsOfTheStrip | src/components/ProductGallery.tsx:23-44 | `getCurrentImage` is `null` exactly off the strip `[0, slide count)`, on `NaN`, or on the video slot 0 |
| ProductGallery.Main | src/components/ProductGallery.tsx:61-82 | the video is shown exactly on slot 0 of a product with a video; otherwise the current image, or the placeholder when it is `null` |
| ProductGallery.NoVideoMeansPicture | src/components/ProductGallery.tsx:61-82 | without a video the main area is always a picture, and inside the strip it is the slot's image |
| ProductGallery.ArrowsShownAsWritten | src/components/ProductGallery.tsx:85 | when the arrows render as the line is written: `a \|\| (b && c)` gives `true`, which renders nothing, for several images, so arrows appear only for at most one image plus a packaging image; the as-written half of the finding, with `SeveralImagesHideArrowsAsWritten` and `TwoImagesHaveNoArrowsAsWritten` |
| ProductGallery.ArrowsShown | src/components/ProductGallery.tsx:85 | the intended condition: several images or a packaging image; the corrected half of the finding, with `ArrowsShownWhenNeeded` |
| ProductGallery.SeveralImagesHideArrowsAsWritten | src/components/ProductGallery.tsx:85 | as written, a colour with several images never gets the arrows, though there are at least two slides |
| ProductGallery.TwoImagesHaveNoArrowsAsWritten | src/components/ProductGallery.tsx:85 | two images and no packaging: two slides, no arrows as written, arrows as intended |
| ProductGallery.ArrowsShownWhenNeeded | src/components/ProductGallery.tsx:85-102 | with the intended condition, several images get arrows, every case the written condition shows is kept, and arrows imply a non-zero slide count |
| ProductGallery.Gallery.constructor | src/components/ProductGallery.tsx:19 | the index starts at 0 |
| ProductGallery.Gallery.NextImage | src/components/ProductGallery.tsx:43-46 | the index becomes `(i+1) % count`: `NaN` for a count of 0, in range from a non-negative index otherwise |
| ProductGallery.Gallery.PrevImage | src/components/ProductGallery.tsx:48-51 | the index becomes `(i-1+count) % count`: `NaN` for a count of 0, in range from a non-negative index otherwise |
| ProductGallery.Gallery.SelectImage | src/components/ProductGallery.tsx:53-55 | the index becomes the given one |
| ColorImages.Lookup | src/pages/admin/AdminProducts.tsx:571 | `images[color] \|\| []`: `[]`, or the files of the first entry for the colour |
| ColorImages.LookupFirstEntry | src/pages/admin/AdminProducts.tsx:571 | the value read is exactly the first entry's files, `[]` when that value is not an array |
| ColorImages.LookupAbsent | src/pages/admin/AdminProducts.tsx:571 | a colour with no entry reads as `[]` |
| ColorImages.Store | src/pages/admin/AdminProducts.tsx:573 | after `{ ...images, [color]: files }` the colour reads back `files` and every other colour reads as before |
| ColorImages.StoreKeepsKeyOrder | src/pages/admin/AdminProducts.tsx:573 | storing under an existing key keeps the number of keys and every key in its place |
| ColorImages.StoreAppendsNewKey | src/pages/admin/AdminProducts.tsx:573 | storing under a new key appends it last, after the other keys unchanged |
| ColorImages.FirstNonEmpty | src/pages/Index.tsx:78-83 | the first key, in key order, holding a non-empty list, or `None` when none does |
| ColorImages.FirstImage | src/pages/admin/AdminProducts.tsx:352-358 | the loop with early return gives `/Images/` + the first file of the colour `FirstNonEmpty` picks; `None` exactly when it picks none |
| HomePage.Carousel.constructor | src/pages/Index.tsx:9 | the carousel starts on slide 0 |
| HomePage.Carousel.NextSlide | src/pages/Index.tsx:66-68 | from a slide in range, the slide becomes `(i+1) % 3` and stays in range |
| HomePage.Carousel.PrevSlide | src/pages/Index.tsx:70-72 | from a slide in range, the slide becomes `(i-1+3) % 3` and stays in range |
| HomePage.Carousel.GoToSlide | src/pages/Index.tsx:62-64 | the slide becomes the dot's index, which is in range |
| HomePage.CarouselStepsAreInverse | src/pages/Index.tsx:66-72 | previous after next, and next after previous, return to the slide |
| HomePage.ThreeStepsComeBack | src/pages/Index.tsx:66-68 | three steps forward from any slide come back to it |
| HomePage.BestSellers | src/pages/Index.tsx:44 | the first three products in API order, or all of them when there are fewer |
| HomePage.ShortName | src/pages/Index.tsx:88 | `substring(0, 10)`: the first 10 characters, or the whole name when shorter |
| HomePage.FallbackFor | src/pages/Index.tsx:87-88 | the placeholder fill is `FFD700` exactly when the first colour is `doré`, otherwise `C0C0C0`; its text is the short name |
| HomePage.ImagesOf | src/pages/Index.tsx:77 | definition of the `product.images && typeof product.images === 'object'` guard: no images means no keys to try; `HomePage.FirstImage` carries its promise |
| HomePage.FirstImage | src/pages/Index.tsx:75-89 | `/Images/` + the first file of the first non-empty colour; the fallback placeholder exactly when no colour has a file |
| ProductsPage.DbCategory | src/pages/Products.tsx:45-47 | `chaînes`, `bracelets` and `bagues` map to their singular; every other value maps to itself |
| ProductsPage.Filtered | src/pages/Products.tsx:42-51 | `all` gives every product in order. Any other category keeps exactly the products whose category is its singular form |
| ProductsPage.FilterKeepsOrderAndCount | src/pages/Products.tsx:43-49 | a category filter's result is a subsequence of the input and keeps each product of that category as often as it was listed |
| ProductsPage.PluralAndSingularAgree | src/pages/Products.tsx:45-47 | the plural and singular names of a category show the same products |
| ProductsPage.FirstImage | src/pages/Products.tsx:63-79 | the first `argent` image, else the first `doré` image, else the silver placeholder labelled `Produit` (exactly when neither list is non-empty) |
| ProductsPage.ParamsFor | src/pages/Products.tsx:55-59 | `all` clears the search params; any other category sets `categorie` to it |
| ProductsPage.InitialCategory | src/pages/Products.tsx:22-23 | definition of `searchParams.get("categorie") \|\| "all"`: a missing or empty parameter reads as `all`; its promises are `ParamsRoundTrip` and `CatalogPage.constructor` |
| ProductsPage.ParamsRoundTrip | src/pages/Products.tsx:22-59 | reading the initial category back from the params a filter wrote gives that filter |
| ProductsPage.CatalogPage.constructor | src/pages/Products.tsx:21-23 | the active category is the `categorie` param, or `all` |
| ProductsPage.CatalogPage.HandleFilter | src/pages/Products.tsx:53-60 | the active category and the search params are set, and reloading from those params would select the same category |
| AdminProducts.ParseSizes | src/pages/admin/AdminProducts.tsx:335 | parsed sizes contain no empty string and every size is trimmed |
| AdminProducts.ParseSizesKeepsPieces | src/pages/admin/AdminProducts.tsx:335 | parsed sizes are the non-empty trimmed pieces in input order, each as often as it occurs |
| AdminProducts.JoinSizes | src/pages/admin/AdminProducts.tsx:327 | definition of `p.sizes.join(", ")`; its promises are `ParseJoinRoundTrip` and `CommaSizeIsSplit` |
| AdminProducts.ParseJoinRoundTrip | src/pages/admin/AdminProducts.tsx:327-335 | sizes joined with `", "` parse back to the same list when each is non-empty, trimmed and comma-free |
| AdminProducts.CommaSizeIsSplit | src/pages/admin/AdminProducts.tsx:327-335 | a size containing a comma (`38,5`) comes back as two sizes |
| AdminProducts.Exclude | src/pages/admin/AdminProducts.tsx:96 | the value no longer occurs in the list |
| AdminProducts.ExcludeEffect | src/pages/admin/AdminProducts.tsx:96 | every occurrence of the value is dropped, and everything else is kept in order and in number |
| AdminProducts.Toggle | src/pages/admin/AdminProducts.tsx:95-97 | the image is in the result if and only if it was not selected; when absent it is appended at the end, and when present every occurrence is removed |
| AdminProducts.ToggleTwice | src/pages/admin/AdminProducts.tsx:95-97 | toggling an unselected image twice restores the selection |
| AdminProducts.CheckColor | src/pages/admin/AdminProducts.tsx:550-554 | checking appends the colour; unchecking removes every occurrence |
| AdminProducts.ColorClickIsToggle | src/pages/admin/AdminProducts.tsx:549-554 | since the box shows whether the colour is selected, a click acts as a toggle |
| AdminProducts.FormOf | src/pages/admin/AdminProducts.tsx:315-326 | the edit form copies the name, description, price, category, sizes, colours, stock, images and media of the product; absent images default to the empty pair and absent media to `""` |
| AdminProducts.Payload | src/pages/admin/AdminProducts.tsx:336 | definition of `{ ...form, sizes }`; its promises are `PayloadReplacesOnlySizes` and `EditThenSaveIsUnchanged` |
| AdminProducts.PayloadReplacesOnlySizes | src/pages/admin/AdminProducts.tsx:335-336 | the payload is the form with only `sizes` replaced, by the parsed field |
| AdminProducts.EditThenSaveIsUnchanged | src/pages/admin/AdminProducts.tsx:313-336 | opening a product with plain sizes and saving at once sends its own form back, sizes included |
| AdminProducts.ListImage | src/pages/admin/AdminProducts.tsx:352-358 | `/Images/` + the first file of the first non-empty colour, or `null` exactly when there is none (and when `images` is absent) |
| AdminProducts.RequestFor | src/pages/admin/AdminProducts.tsx:336-344 | an update of the edited product's id when one is being edited, a create otherwise; either way carrying the payload |
| AdminProducts.ProductEditor.constructor | src/pages/admin/AdminProducts.tsx:70-81 | the editor starts closed on the empty product |
| AdminProducts.ProductEditor.OpenCreate | src/pages/admin/AdminProducts.tsx:306-311 | nothing edited, the empty product, an empty sizes field, dialog open |
| AdminProducts.ProductEditor.OpenEdit | src/pages/admin/AdminProducts.tsx:313-329 | the product edited, its form, its sizes joined with `", "`, dialog open |
| AdminProducts.ProductEditor.EditSizes | src/pages/admin/AdminProducts.tsx:335 | only the sizes text changes |
| AdminProducts.ProductEditor.SetColor | src/pages/admin/AdminProducts.tsx:550-554 | only the form's colours change, by `CheckColor` |
| AdminProducts.ProductEditor.ToggleImage | src/pages/admin/AdminProducts.tsx:571-574 | the clicked colour's images are toggled and every other colour and field stays |
| AdminProducts.ProductEditor.Save | src/pages/admin/AdminProducts.tsx:331-350 | without a user and a token nothing is sent; otherwise the update or create request is sent and only an accepted one closes the dialog; the form is untouched |
| AdminOrders.Digits | src/pages/admin/AdminOrders.tsx:86 | the decimal digits of a natural number: non-empty, all digits, with a leading `0` only for 0; `DigitsValue` proves they denote the number |
| AdminOrders.DecimalString | src/pages/admin/AdminOrders.tsx:86 | an integer total is written as a non-empty numeral |
| AdminOrders.DigitsValue | src/pages/admin/AdminOrders.tsx:86 | the digits written for `n` denote `n` |
| AdminOrders.DecimalStringValue | src/pages/admin/AdminOrders.tsx:86 | the text of a total starts with `-` exactly when it is negative, and its digits, with no leading zero, denote its magnitude |
| AdminOrders.NumeralIsPlain | src/pages/admin/AdminOrders.tsx:86-88 | a numeral contains neither `,` nor a line break |
| AdminOrders.Row | src/pages/admin/AdminOrders.tsx:85-87 | a row has as many fields as the header |
| AdminOrders.Line | src/pages/admin/AdminOrders.tsx:88 | definition of `r.join(",")`; its promises are `HeaderArity`, `RowArity` and `CommaInAddressShiftsColumns` |
| AdminOrders.ExportCsv | src/pages/admin/AdminOrders.tsx:83-88 | definition of `csv`: the lines joined with `\n`; `ExportLines` carries its promise |
| AdminOrders.Lines | src/pages/admin/AdminOrders.tsx:84-88 | the header line, then one `,`-joined line per order in list order |
| AdminOrders.ExportLines | src/pages/admin/AdminOrders.tsx:83-88 | without line breaks in the fields, the CSV splits back into exactly those `orders.length + 1` lines |
| AdminOrders.HeaderArity | src/pages/admin/AdminOrders.tsx:84 | the header line splits into its 8 column names |
| AdminOrders.RowArity | src/pages/admin/AdminOrders.tsx:85-88 | a row without commas in its text fields splits back into its 8 fields, matching the header |
| AdminOrders.CommaInAddressShiftsColumns | src/pages/admin/AdminOrders.tsx:86-88 | with no quoting, an address with one comma makes the row split into 9 fields |
| AdminOrders.SampleAddressShiftsColumns | src/pages/admin/AdminOrders.tsx:86-88 | the address `12 rue des Lilas, 75001 Paris` gives a 9-field row |
| AdminOrders.LineAmount | src/pages/admin/AdminOrders.tsx:159 | definition of `item.price * item.quantity`; `LineAmountsAddUpToCartTotal` carries its promise |
| AdminOrders.LineAmountsAddUpToCartTotal | src/pages/admin/AdminOrders.tsx:159 | the price × quantity amounts shown for an order placed from a cart add up to the cart total the checkout sent |
| AdminOrders.Clicked | src/pages/admin/AdminOrders.tsx:115 | clicking the expanded order collapses it; clicking any other makes it the only expanded one |
| AdminOrders.ClickTwiceCollapses | src/pages/admin/AdminOrders.tsx:115 | two clicks on the same order, from collapsed, collapse it again |
| AdminOrders.OrderList.constructor | src/pages/admin/AdminOrders.tsx:22 | nothing is expanded at first |
| AdminOrders.OrderList.Click | src/pages/admin/AdminOrders.tsx:115 | the expanded id becomes `Clicked` of the old one |
| Text.TrimStart | src/pages/admin/AdminProducts.tsx:335 | the first half of `trim`: a suffix of the input, whose cut-off prefix is all white space, that does not start with white space |
| Text.TrimEnd | src/pages/admin/AdminProducts.tsx:335 | the second half of `trim`: a prefix of the input, whose cut-off suffix is all white space, that does not end with white space |
| Text.Trim | src/pages/admin/AdminProducts.tsx:335 | `trim` leaves no ECMAScript white space at either end |
| Text.TrimCutsOnlyEndSpace | src/pages/admin/AdminProducts.tsx:335 | the result is a slice `s[i..j]` of the input with only white space before `i` and after `j` |
| Text.TrimAfterSpaces | src/pages/admin/AdminProducts.tsx:327-335 | trimming spaces followed by a trimmed non-empty string gives that string |
| Text.Split | src/pages/admin/AdminProducts.tsx:335 | `split` gives at least one piece, and no piece holds the separator |
| Text.Join | src/pages/admin/AdminProducts.tsx:327 | definition of `Array.prototype.join`; its promises are `JoinSplit`, `SplitJoin`, `SplitJoinPlain`, `JoinCount` and `SplitJoinCount` |
| Text.JoinSplit | src/pages/admin/AdminProducts.tsx:335 | joining the pieces of a split on the same character gives the text back |
| Text.SplitJoin | src/pages/admin/AdminProducts.tsx:327-335 | splitting a text joined with `c + pad` gives the elements, each after the first prefixed by `pad`, when no element holds `c` |
| Text.SplitJoinPlain | src/pages/admin/AdminOrders.tsx:88 | splitting a text joined on `c` gives the elements back when none holds `c` |
| Text.SplitCount | src/pages/admin/AdminOrders.tsx:88 | `split` gives one piece more than there are separators |
| Text.JoinCount | src/pages/admin/AdminOrders.tsx:88 | joining on `c` adds one `c` between each pair of elements |
| Text.SplitJoinCount | src/pages/admin/AdminOrders.tsx:88 | splitting a joined text gives one extra piece for every separator inside an element |
| Seqs.FirstIndex | src/context/CartContext.tsx:57-59 | the position of an element passing the test with no earlier one passing, or `None` exactly when none passes |
| Seqs.Filter | src/context/CartContext.tsx:72-74 | `filter` keeps only passing elements of the input |
| Seqs.FilterKeepsPassing | src/pages/Products.tsx:43-49 | no passing element is lost |
| Seqs.FilterIsSubsequence | src/context/CartContext.tsx:72-74 | the result is a subsequence of the input |
| Seqs.FilterMultiplicity | src/context/CartContext.tsx:72-74 | a kept element keeps its multiplicity; a dropped one disappears |
| Seqs.FilterKeepsAll | src/context/CartContext.tsx:72-74 | when everything passes, `filter` is the identity |
| Seqs.FilterAppend | src/pages/admin/AdminProducts.tsx:96 | `filter` distributes over concatenation |
| Seqs.FilterDropsOne | src/context/CartContext.tsx:72-74 | when exactly one element fails, just that element is deleted |
| Js.Truthy | server/controllers/order.controller.js:13 | definition of JavaScript truthiness as the `!x` and `\|\|` tests use it; `OrElse`, `OrderController.HasRequiredFields` and `ProductController.CreatedListsAreTruthy` build on it |
| Js.Rem | src/components/ProductGallery.tsx:45 | JavaScript's `%` on integers: the remainder has the sign of the dividend, is smaller than the divisor in size, and the two differ by a multiple of the divisor |
| Js.OrElse | server/controllers/product.controller.js:40-48 | `x \|\| fallback` is `x` when truthy and `fallback` otherwise |
| Js.IntOrZero | server/controllers/product.controller.js:45 | `parseInt(v) \|\| 0` is the parsed integer, or 0 for `NaN` |
| Js.Remainder | src/components/ProductGallery.tsx:43-51 | `a % n` is `NaN` exactly when `n` is 0, and otherwise the truncating remainder |

## Left out

- **I/O and host effects.** The following become parameters or are dropped:
  - network calls (`apiClient`, `fetch`): their outcome is a boolean parameter;
  - toasts for the admin save, console logging, `e.preventDefault()`, the CSV blob download, and product list refetches.
- **Storage and the DOM.** React effect timing, cross-tab storage events and the `typeof window` check are left out. The slot is rewritten in the same step as the list.
- **Host conversions.** `parseFloat`, `parseInt` and `new Date` are uninterpreted `Js.Host` fields. `toLocaleDateString("fr-FR")` is a function parameter of the CSV export. `encodeURIComponent` and the SVG data-URL text are reduced to the placeholder's fill and caption.
- **Floating point.** Prices, totals and discounts are integers. JavaScript's number-to-text conversion of a non-integer total is not modelled.
- **Timers.** The carousel's five-second `setInterval` is not scheduled. Its step is `NextSlide`.
- **Loading state.** The `loading` flags and the list fetches of the pages are left out.
- **Outside the core.**
  - `getProducts`, `getOrders`, `getPromotions` and the delete handlers only read or delete.
  - The receipt generator, authentication, routing, uploads and the admin dashboard are not part of this model.
- **Promotion discounts.** `setDiscount` is modelled but nothing in the core calls it, and no total reads `discount`.
- **Non-array values.** Values in a product's `images` object are either an array of names or `None`. At Index.tsx:80 a non-array value is skipped, which is the same as `None`. Any other value is not distinguished.
- OrderController.CreateOrder: Prisma's type validation of the stored fields (a non-string name, a `NaN` total), which would make the create throw a 500, is not modelled.
- ProductController.CreateProduct: the reply is always 201. Prisma's rejection of a missing `name` or `category`, or a `NaN` price, is not modelled; that rejection would give a 500.
- PromotionController.CreatePromotion: a duplicate code, which a unique constraint would reject with a 500, is not modelled.
- PromotionController.UpdatePromotion: a non-numeric discount becomes `NaN` and is stored as given. Whether the database accepts it depends on the schema.
- PromotionController.ValidateCode: a `code` that Prisma reads as a filter object (such as `{contains: …}`) is modelled as an equality test, whenever the `Schema` accepts it.
- OrderController.UpdateOrderStatus, ProductController.UpdateProduct, PromotionController.UpdatePromotion: Prisma's `update` by a unique id is modelled as the first record with that id. The uniqueness of ids is a schema guarantee and is not enforced.
- CustomerController.FirstOrderDateIsMostRecent: the newest-first order is the query's `orderBy`. It is taken as a precondition.
- HomePage.ShortName: strings are sequences of code points, while `substring(0, 10)` counts UTF-16 code units. A name whose tenth unit falls inside a surrogate pair (`"123456789💍"`) is kept whole in the model. In the browser it is cut in half, and `encodeURIComponent` then throws a `URIError` while the page renders.

## Findings

| source | as written | input that shows it | evidently intended | confidence | as-written member | corrected member |
|---|---|---|---|---|---|---|
| src/components/ProductGallery.tsx:85 | `currentImages.length > 1 \|\| packagingImage && (arrows)`: `&&` binds tighter, so with several images the expression is `true`, which React renders as nothing | a selected colour with two images, no packaging image and no video: two slides, no arrows | arrows whenever there are several images or a packaging image | not executed | ProductGallery.ArrowsShownAsWritten, ProductGallery.SeveralImagesHideArrowsAsWritten, ProductGallery.TwoImagesHaveNoArrowsAsWritten | ProductGallery.ArrowsShown, ProductGallery.ArrowsShownWhenNeeded |
