# Storefront back office: catalog search, order fulfilment and admin views

This project models, in Dafny, the logic of a small Express/Mongo storefront
back office and proves properties of that model. It covers:

- the product catalog (`server/routes/productRoutes.js`): the `/search` handler
  with its optional filters (name, category, price range, minimum rating),
  its six sort orders, skip/limit pagination, the matching count and the page
  count; the lookups by id, slug and category; the distinct categories; and
  product add, update and delete;
- order fulfilment (`server/routes/orderRoutes.js`): order creation from a
  cart, the caller's orders, the three status buckets (unpaid, paid and
  awaiting delivery, paid and delivered), the pay transition with its stock
  reconciliation loop, the deliver transition, and the single and bulk
  deletions;
- the user routes (`server/routes/userRoutes.js`): the user delete that
  cascades to the user's orders, the `/admin` dashboard's seven counts, and
  the field-merge rules of the profile update;
- the admin "unpaid orders" page
  (`frontend_backend/src/manage/order/Nopayment.js`): its fetch-state reducer
  and its payment and delivery badges.

The three Mongo collections are one in-memory store, `Store.Database`: a
`seq` of products in natural (insertion) order, and `map`s of orders and of
users keyed by `_id`. The route handlers that change a collection are
methods of that class. Each method states the whole new state in terms of
the old one. Handlers that only read are functions over the collection
values. The dashboard is a method with no `modifies` clause, so it changes
nothing.

Modules, one per source file plus two shared ones:

| file | module | models |
|---|---|---|
| `base.dfy` | `Base` | ids, `Result`, `Option`, the error kinds |
| `catalog.dfy` | `Catalog` | `productRoutes.js`: records, filters, sort, pagination, lookups |
| `orders.dfy` | `Orders` | `orderRoutes.js`: records, buckets, deletions, stock reconciliation |
| `users.dfy` | `Users` | `userRoutes.js`: the user record, the profile merge, the admin split |
| `store.dfy` | `Store` | the collections and every route handler that changes them; the dashboard |
| `nopayment.dfy` | `Nopayment` | `Nopayment.js`: the reducer and the badges |

The model keeps three behaviours of the handlers that a storefront would
usually rule out:

- deliver does not require the order to be paid;
- pay does not refuse an order that is already paid, so paying it again takes
  the stock out a second time;
- a negative stock count is allowed.

Two separate methods add the missing guards. `Store.Database.PayOnce`
refuses to pay an order twice. `Store.Database.DeliverPaid` refuses to
deliver an unpaid order. The product update dereferences the record it looks
up without checking that it exists. The model therefore makes the record's
existence a precondition rather than inventing a NotFound reply.

## Model

| member | source | states |
|---|---|---|
| `Catalog.BuildFilter` | server/routes/productRoutes.js:26-60 | each filter dimension is present exactly when its parameter is neither empty nor "all" |
| `Catalog.Split` | server/routes/productRoutes.js:56-57 | `price.split('-')`: at least one piece, no piece holds the separator, and joining the pieces with it gives back the string |
| `Catalog.Piece` | server/routes/productRoutes.js:56-57 | `split(...)[i]` is the i-th piece, and `undefined` past the end |
| `Catalog.ToNumber` | server/routes/productRoutes.js:47-57 | `Number(...)`: undefined is NaN, "" is 0, a digit string is its decimal value |
| `Catalog.Matches` | server/routes/productRoutes.js:74-79 | the merged query: the empty query matches every product; a different category matches none; a NaN bound admits nothing, though `Search` rejects such a query before matching |
| `Catalog.FilterSemantics` | server/routes/productRoutes.js:33-79 | a product matches iff it passes every active parameter: case-insensitive name substring, exact category, both price bounds, rating at least the threshold |
| `Catalog.NoFilterSelectsAll` | server/routes/productRoutes.js:33-60 | with every filter parameter empty or "all", the whole catalog is selected, in order |
| `Catalog.PriceRangeHalves` | server/routes/productRoutes.js:51-60 | for `price = "<min>-<max>"` (an empty min reads as 0) the bounds are the values of the two halves and the filter is `min <= price <= max`, inclusive |
| `Catalog.Select` | server/routes/productRoutes.js:74-79 | the selected products are exactly the stored products that match the filter |
| `Catalog.SelectMultiplicity` | server/routes/productRoutes.js:74-90 | each matching product is kept once per stored copy and nothing else is, so `countProducts` is the number of matching products |
| `Catalog.SortKeyOf` | server/routes/productRoutes.js:61-72 | "featured", "lowest", "highest", "toprated" and "newest" select their own keys; any other `order` sorts by `_id` descending |
| `Catalog.Sort` | server/routes/productRoutes.js:81 | the result is a permutation of its input, ordered by the key's rank |
| `Catalog.SortKeyMeaning` | server/routes/productRoutes.js:61-72 | lowest: price ascending; highest: price descending; toprated: rating descending; newest: createAt descending; featured: featured descending; otherwise id descending |
| `Catalog.LowestHighestReversed` | server/routes/productRoutes.js:64-67 | with distinct prices, the `highest` order is exactly the reverse of the `lowest` order |
| `Catalog.Window` | server/routes/productRoutes.js:82-83 | skip `pageSize*(page-1)`, limit `pageSize`: at most `pageSize` items, each the element at its offset in the sorted list; exactly `min(pageSize, remaining)` items when the skip stays inside the list; past the end the page is empty |
| `Catalog.CeilDiv` | server/routes/productRoutes.js:96 | `Math.ceil(n/d)`: the least r with `r*d >= n` |
| `Catalog.PageSizeOf` | server/routes/productRoutes.js:24 | `query.pageSize \|\| PAGE_SIZE`: 3 when absent or empty, otherwise the given size |
| `Catalog.PageOf` | server/routes/productRoutes.js:25 | `query.page \|\| 1`: 1 when absent or empty, otherwise the given page |
| `Catalog.Search` | server/routes/productRoutes.js:20-99 | count is the length of the unpaginated filtered list; the page is the window of the sorted filtered list; pages is `ceil(count/pageSize)`; defaults 3 and 1; a NaN price or rating bound (for instance a `price` without '-', whose upper half is `undefined`) fails with CastError; otherwise a page or page size below 1 is InvalidArgument |
| `Catalog.SearchPageShape` | server/routes/productRoutes.js:74-83 | a page holds at most `pageSize` products, all stored and matching, in sort order |
| `Catalog.PagesCoverResult` | server/routes/productRoutes.js:81-96 | pages 1..pages concatenated are exactly the sorted filtered list, each product once |
| `Catalog.BrandIgnored` | server/routes/productRoutes.js:27 | the result does not depend on `brand` |
| `Catalog.SeedPriceRange` | frontend_backend/src/data.js:2-51 | on the seed catalog (prices 120/100/80/40), `price=50-150` selects the first three shirts: count 3 |
| `Catalog.FindById` | server/routes/productRoutes.js:109-116 | NotFound iff no product has the id; otherwise a stored product with that id |
| `Catalog.FindBySlug` | server/routes/productRoutes.js:118-125 | NotFound iff no product has the slug; otherwise the first stored product with it |
| `Catalog.ByCategory` | server/routes/productRoutes.js:127-139 | "aaa" gets the not-yet-sent reply; any other value lists exactly the products of that category, once per stored copy, never 404 |
| `Catalog.Categories` | server/routes/productRoutes.js:101-107 | a value is listed iff some product has that category |
| `Catalog.CategoriesAtMostProducts` | server/routes/userRoutes.js:101-102 | there are never more distinct categories than products |
| `Catalog.RemoveId` | server/routes/productRoutes.js:173-180 | exactly the products with that id are removed; a missing id changes nothing; ids stay unique |
| `Catalog.NewProduct` | server/routes/productRoutes.js:144-155 | the new product carries the request's fields and `slug = to_slug(name)` |
| `Catalog.Updated` | server/routes/productRoutes.js:186-195 | all ten mutable fields replaced, slug from the new name; id kept |
| `Store.Database.AddProduct` | server/routes/productRoutes.js:141-170 | the new product is appended; orders and users unchanged |
| `Store.Database.UpdateProduct` | server/routes/productRoutes.js:182-211 | the product with that id is replaced by its updated record; every other product unchanged |
| `Store.Database.DeleteProduct` | server/routes/productRoutes.js:173-180 | the catalog becomes `RemoveId` of the old one; nothing else changes |
| `Store.Database.Locate` | server/routes/orderRoutes.js:149 | `findById` on a product that exists: the position of the first product with that id |
| `Orders.ItemOf` | server/routes/orderRoutes.js:15 | a line item keeps the cart entry's fields and sets `product` to its `_id` |
| `Orders.NewOrder` | server/routes/orderRoutes.js:14-23 | owner is the caller, each item is its cart entry with `product = _id` and every other field kept, prices and `createdAt` copied verbatim, unpaid and undelivered |
| `Store.Database.CreateOrder` | server/routes/orderRoutes.js:10-28 | the new order is stored under its id; nothing else changes |
| `Orders.Mine` | server/routes/orderRoutes.js:30-37 | exactly the caller's orders |
| `Orders.BucketOf` | server/routes/orderRoutes.js:43-62 | unpaid iff `!isPaid`; accepted iff paid and not delivered; complete iff paid and delivered |
| `Orders.InBucket` | server/routes/orderRoutes.js:43-62 | the stored orders whose status is the given bucket, unchanged |
| `Orders.ManageNoPayment` | server/routes/orderRoutes.js:39-46 | exactly the orders with `isPaid == false` |
| `Orders.ManageComplete` | server/routes/orderRoutes.js:48-56 | exactly the orders that are paid and delivered |
| `Orders.ManageAccept` | server/routes/orderRoutes.js:58-65 | exactly the orders that are paid and not delivered |
| `Orders.BucketsPartition` | server/routes/userRoutes.js:103-111 | the three buckets are pairwise disjoint and their sizes sum to the number of orders |
| `Orders.GetOrder` | server/routes/orderRoutes.js:120-131 | NotFound iff the id is not stored; otherwise that order |
| `Orders.Purge` | server/routes/orderRoutes.js:95-105 | `deleteMany` on a bucket keeps exactly the orders outside it, unchanged, and empties the bucket |
| `Orders.QtyFor` | server/routes/orderRoutes.js:148-150 | the total quantity the pay loop takes from one product: a single line item contributes its quantity to the product it references and nothing to any other |
| `Orders.QtyForNonNegative` | server/routes/orderRoutes.js:148-150 | with no negative quantity in the order, no product's stock goes up |
| `Orders.QtyForAppend` | server/routes/orderRoutes.js:148-150 | the quantity over two item lists is the sum of the two |
| `Orders.QtyForUnreferenced` | server/routes/orderRoutes.js:148-150 | a product no line item references loses nothing |
| `Orders.AfterPay` | server/routes/orderRoutes.js:148-152 | each product's stock drops by the summed quantities of the items referencing it, with no lower bound; unreferenced products and all other fields unchanged |
| `Orders.AfterPayStep` | server/routes/orderRoutes.js:148-151 | one loop iteration decrements the referenced product by that item's quantity |
| `Orders.PaysCompose` | server/routes/orderRoutes.js:148-152 | two pay loops compose into one over both item lists, in either order |
| `Orders.PayTwiceDecrementsTwice` | server/routes/orderRoutes.js:137-152 | with no `isPaid` guard, paying the same order twice decrements each product by twice its quantity |
| `Store.Database.Pay` | server/routes/orderRoutes.js:133-160 | missing order: NotFound and nothing changes; otherwise isPaid, paidAt = now, paymentResult verbatim, no other order field changes, catalog becomes `AfterPay` |
| `Store.Database.Deliver` | server/routes/orderRoutes.js:162-175 | missing order: NotFound and nothing changes; otherwise only `isDelivered` is set, whether paid or not; stock untouched |
| `Store.Database.PayOnce` | server/routes/orderRoutes.js:137-152 | the guarded variant: an already paid order is refused with nothing changed, so stock is taken once |
| `Store.Database.DeliverPaid` | server/routes/orderRoutes.js:166-170 | the guarded variant: an unpaid order is refused; "delivered implies paid" is preserved |
| `Store.Database.DeleteUnpaid` | server/routes/orderRoutes.js:90-98 | removes exactly the unpaid orders; paid orders kept unchanged |
| `Store.Database.DeleteComplete` | server/routes/orderRoutes.js:100-108 | removes exactly the paid and delivered orders |
| `Store.Database.DeleteOrder` | server/routes/orderRoutes.js:110-118 | removes only that id; a missing id is not an error |
| `Orders.WithoutOwner` | server/routes/userRoutes.js:90 | keeps exactly the orders of other users; none of the owner's remain |
| `Orders.WithoutOwnerKeepsOthers` | server/routes/userRoutes.js:89-90 | every other user's orders are exactly as before |
| `Store.Database.DeleteUser` | server/routes/userRoutes.js:84-93 | the user and all of the user's orders are removed; products unchanged |
| `Users.MergeProfile` | server/routes/userRoutes.js:56-60 | an empty name or email keeps the old one, a non-empty one replaces it; the password hash changes only when a password is supplied |
| `Users.MergeProfileStable` | server/routes/userRoutes.js:56-60 | an empty request changes nothing; repeating a request without a password changes nothing more; repeating one with a password keeps name and email but stores the new salted hash |
| `Store.Database.UpdateProfile` | server/routes/userRoutes.js:50-73 | missing user: NotFound and nothing changes; otherwise only the caller's record is merged |
| `Users.WithRole` | server/routes/userRoutes.js:99-100 | the users whose `isAdmin` equals the given flag |
| `Users.RolesPartition` | server/routes/userRoutes.js:99-100 | admins and non-admins are disjoint and sum to the number of users |
| `Store.Database.GetDashboard` | server/routes/userRoutes.js:95-122 | read-only; `count_admin + count_user` = users, the three order counts sum to the orders, `count_category` = distinct categories <= `count_product` = products |
| `Nopayment.InitialState` | frontend_backend/src/manage/order/Nopayment.js:39-42 | loading is true, error is empty, no orders yet |
| `Nopayment.Reduce` | frontend_backend/src/manage/order/Nopayment.js:19-31 | REQUEST sets loading only; SUCCESS stores the payload and clears loading; FAIL clears loading and stores the message; any other action returns the state unchanged |
| `Nopayment.ReduceAll` | frontend_backend/src/manage/order/Nopayment.js:19-31 | when the last dispatched action is recognised, the page is loading iff it was a request, and after a success it shows that payload |
| `Nopayment.LastRecognisedDecides` | frontend_backend/src/manage/order/Nopayment.js:19-31 | with only unknown actions after it, the last recognised action decides: loading iff it was a request, its payload after a success, its message after a failure |
| `Nopayment.UnknownActionsIgnored` | frontend_backend/src/manage/order/Nopayment.js:28-29 | any sequence of unknown actions leaves the state unchanged |
| `Nopayment.FetchCycle` | frontend_backend/src/manage/order/Nopayment.js:44-62 | request then success shows the fetched orders; request then failure keeps the orders and shows the message |
| `Nopayment.PaymentBadge` | frontend_backend/src/manage/order/Nopayment.js:121-129 | "Xong" iff paid, "No" iff not |
| `Nopayment.DeliveryBadge` | frontend_backend/src/manage/order/Nopayment.js:132-144 | "Xong" iff delivered, "Đang chờ" iff paid and not delivered, "No" otherwise: exactly one applies |
| `Nopayment.DeliveryBadgeByBucket` | frontend_backend/src/manage/order/Nopayment.js:132-144 | complete shows "Xong", accepted shows "Đang chờ"; an unpaid order shows "Xong" only if it was delivered unpaid |
| `Nopayment.NoWaitingBadgeOnUnpaidPage` | frontend_backend/src/manage/order/Nopayment.js:121-144 | on the unpaid list every payment badge is "No" and no delivery badge is "Đang chờ" |

## Left out

- HTTP plumbing is not modelled: routers, `isAuth`, `expressAsyncHandler`, status codes and reply messages. The caller's id is a parameter.
- Sign-in, sign-up, `generateToken` and bcrypt are not modelled. `Users.ProfileRequest.hashed` stands for `bcrypt.hashSync(password, 8)`, which is salted and therefore a parameter.
- The `PUT /update` handler of orderRoutes.js:67-88 is left out. It uses the undefined names `user`, `updatedUser` and `generateToken`, so it has no coherent behaviour.
- Store.Database.Pay: runs the loop sequentially and atomically. The source does not await `data2.save()` and has lost-update races between requests; neither is modelled.
- Store.Database.Pay: requires every line item's product to exist. The source dereferences a null product and aborts with an error, leaving earlier decrements applied.
- Store.Database.UpdateProduct: requires the product to exist. The source dereferences a null product when it does not.
- Catalog.Search: takes `page` and `pageSize` as optional integers (absent or empty is None) and rejects a value below 1 with InvalidArgument. The source receives strings and hands them to the store unchecked.
  - A page size of "0" gives `limit(0)`, which returns every match. The page count is then `Infinity`, or `NaN` when nothing matches.
  - A page of 0 or below gives a negative skip, which the store rejects.
  - Non-integer or non-numeric strings such as "2.5" or "abc" reach `skip`/`limit` as they are. The model has no counterpart for them.
- Catalog.ToNumber: parses only decimal digit strings. Decimals such as "4.5", whitespace, signs and exponents become NaN, so the model fails such a search with CastError. In JavaScript they parse, and the search runs.
- Catalog.Search: assumes `price` and `rating` are Number fields of the product schema, so a NaN bound fails to cast. productModel.js is not part of this model; the seed data's numeric values are the evidence.
- Catalog.FilterSemantics: the name filter is a literal, ASCII-case-insensitive substring test, not a Mongo regular expression.
- Prices and ratings are exact reals. Floating-point rounding, `toFixed(2)` and `changeDate` (which depends on `Date` and time zones) are not modelled.
- Catalog.Sort: orders ties by input order. Mongo leaves their order unspecified. Stability is not proved.
- Catalog.PagesCoverResult: holds only if tied products come back in the same order for every page request. Each page is a separate sorted query (productRoutes.js:74-83), and the source does not guarantee that. With ties, as under `lowest` and `highest` for equal prices, or under `featured` and `newest` when those fields are unset, pages can repeat or miss a product.
- `to_slug` is a function parameter, because slug.js is not part of this model. Generated `_id`s and timestamps (`paidAt`, `createdAt`) are parameters. `_id`s are naturals, so malformed ids are not modelled.
- The `featured` and `createAt` product fields are integers. `/addproduct` (productRoutes.js:144-155) sets neither. `Store.Database.AddProduct` takes them as parameters that stand for whatever the schema stores, possibly nothing. productModel.js is not part of this model, so their defaults are unknown.
- Orders.NewOrder: assumes `isPaid` and `isDelivered` start false. orderModel.js, which would set those defaults, is not part of this model.
- Orders.ManageComplete: returns the orders only. The source reply also carries the whole user collection.
- The bucket listings and `/mine` are maps keyed by `_id`, not sequences in natural order.
- `GET /`, `GET /showproducts` and `GET /manage` return a whole collection. That is the corresponding `Store.Database` field itself.
- React rendering, `useEffect`, `axios`, `toast` and navigation in Nopayment.js are not modelled.
