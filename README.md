# Marketplace core, modelled in Dafny

A model of the business logic of a small Django marketplace: buyers fill a cart (their
single `pending` order) and check out; sellers list products; buyers review products;
two management commands repair the product and review tables. The HTTP layer is
stripped away: the acting user, the product or item id and the requested quantity are
explicit parameters, and each view ends in an `Outcome` (`Ok`, `NotAuthenticated`,
`SellerForbidden`, `NotFound`, `InvalidQuantity`, `OutOfStock`, `EmptyCart`).

Modules, one per part of the program:

- `Tables` (with `Wrappers`): the generic query-set operations the rest is built on:
  `Find` (`.get`/`.first`), `Filter` (`.filter`), `RemoveAt` (`.delete` of one row),
  `Sum` and the arithmetic `Mean` over `real`.
- `Slugs`: an ASCII model of `slugify`, the decimal rendering of the numeric suffix, the
  candidate slugs `base`, `base-1`, `base-2`, … and `FirstFreeSlug`, the suffix loop
  shared by `Product.save` and the `fix_empty_slugs` command.
- `Users`, `Permissions`: the user as `Anonymous | Member(id, isSeller)` and `require_seller`.
- `Products`: categories, products, the product table as the class `Catalog` with
  `Product.save`, reviews, the product rating aggregates, `Review.clean` and the review
  table with its `unique_together` index.
- `ProductForms`: `ProductForm`'s field set and `ReviewForm.clean`.
- `OrderModels`: order and item rows, status, defaults and delete cascades.
- `OrderViews`: the cart views as the class `Shop` over the order and item tables and the
  `Catalog`, with the invariant `TablesOk` (every item sound, one line per product per
  order, at most one cart per customer) that every view preserves.
- `Accounts`: `SellerProfile.save`, the profile table and the seller aggregates.
- `FixEmptySlugs`, `CleanupOrphanedReviews`: the two repair commands.

Prices are integer cents (the source's two-decimal `DecimalField`). Means are `real`.
Order ids are positions in the order table and grow with creation time, so "newest
first" is "largest id first".

The two families of rating aggregates treat reviews without a user differently. The
seller's average rating and review count take every review of the seller's products,
including reviews without a user (accounts/models.py:58, 66). The product's average rating
and review count skip them (products/models.py:76, 84). The model keeps both behaviours;
`OrphanCountedForSeller` states the difference.

## Model

| member | source | states |
|---|---|---|
| Permissions.RequireSeller | products/permissions.py:4-6 | access is granted exactly to an authenticated user with the seller flag; anonymous users and non-sellers are denied |
| ProductForms.ApplyProductForm | products/forms.py:5-8 | the form sets exactly name, description, price, category, stock and the active flag; id, slug and seller cannot be changed through it |
| ProductForms.RatingChoices | products/forms.py:25-27 | the rating choices are exactly the integers 1 to 5, in order |
| ProductForms.CleanReviewForm | products/forms.py:38-50 | with no user or no product no check runs; for a logged-in user the form is invalid exactly when the user is a seller or the product's seller; otherwise the cleaned data comes back unchanged; an anonymous user has no seller attribute and fails |
| Products.SaveCategory | products/models.py:18-21 | an empty category slug becomes the slug of the name (a valid slug text); a nonempty slug and the name are never changed |
| Products.OtherSlugs | products/models.py:63 | the slug set contains the slug of every product other than the one being saved, and nothing else |
| Products.OtherSlugsBound | products/models.py:63-65 | other products hold at most as many distinct slugs as the table has rows, which bounds the suffix loop |
| Products.SaveBase | products/models.py:55-58 | the base slug is never empty: the slugified name, else `product-<id>` for a truthy id, else `product` |
| Products.SettledSlug | products/models.py:53-67 | the slug is kept unless it is empty and the name is not; then it is a nonempty candidate of the base that no other product holds, with every earlier candidate held |
| Products.Catalog.SlugOnSave | products/models.py:52-67 | the slug changes only when it is empty and the name is not; then it is the first candidate of the base that no other product holds, every earlier candidate is held, and the suffix is at most the table size; the loop's result is `SettledSlug` |
| Products.Catalog.Save | products/models.py:52-68 | save writes the row under its id or a fresh id with exactly the slug `SettledSlug` gives against the table before the save, and changes nothing else; a generated slug is nonempty and never clashes, so only a caller-given duplicate slug is refused by the unique index, with no change |
| Slugs.Slugify | products/models.py:55 | the result uses only lower-case ASCII letters, digits, `-` and `_`, and starts and ends with neither `-` nor `_` |
| Slugs.FirstFreeSuffix | products/models.py:61-65 | the least suffix whose candidate is not taken: every earlier candidate is taken, and it is at most the number of taken slugs |
| Slugs.FirstFreeUnique | products/models.py:61-65 | a free candidate whose predecessors are all taken has exactly the suffix `FirstFreeSuffix` gives, so the loop's result is determined |
| Slugs.FirstFreeSlug | products/models.py:61-65 | the loop ends with the k-th candidate, which is not taken, while every earlier candidate is taken; k is at most the number of taken slugs and equals `FirstFreeSuffix` |
| Products.AverageRating | products/models.py:73-79 | the average is 0 when the product has no review with a user; otherwise average × count equals the sum of exactly those ratings |
| Products.RatedReviews | products/models.py:76 | the query set holds exactly the product's reviews with a user, and no more rows than the table |
| Products.ReviewCount | products/models.py:81-84 | `review_count` is the number of the product's reviews that have a user (`RatedReviews`, which holds exactly those), at most the size of the review table; `OrphanIgnored` and `AverageRatingZeroIffUnrated` state what it promises |
| Products.AverageRatingInRange | products/models.py:90-92 | when the ratings of the product's rated reviews are validated to 1..5 (other rows may hold anything), a product with rated reviews averages between 1 and 5 |
| Products.AverageRatingZeroIffUnrated | products/models.py:74-84 | with validated ratings the average is 0 exactly when `review_count` is 0 |
| Products.OrphanIgnored | products/models.py:76-84 | a review without a user changes neither `review_count` nor `average_rating` |
| Products.ReviewChecks | products/models.py:123-129 | the checks pass exactly for a resolvable non-seller user who is not the product's seller |
| Products.CleanReview | products/models.py:121-132 | `Review.clean` always passes: whatever the checks raise is swallowed |
| Products.SellerReviewPassesClean | products/models.py:121-132 | a seller's review or a self-review fails the checks and still passes `clean` |
| Products.ReviewTable.Insert | products/models.py:101 | a review is stored exactly when no stored review has the same product and the same non-null user; uniqueness is preserved |
| OrderModels.NewOrder | orders/models.py:8-11 | a new order belongs to its customer and is `pending` |
| OrderModels.NewItem | orders/models.py:20 | an item created without a quantity holds exactly one unit |
| OrderModels.DeleteOrderCascade | orders/models.py:18 | deleting an order removes exactly its items, and every other item survives |
| OrderModels.DeleteProductCascade | orders/models.py:19 | deleting a product removes exactly the items that reference it |
| OrderModels.OrderedSingleLine | orders/views.py:136-137 | when each product has one line, the units of that product in the order are that line's quantity |
| OrderModels.OrderedAbsent | orders/views.py:136-137 | lines that never name a product take none of its stock |
| OrderViews.TotalConcat | orders/views.py:67 | the total of two groups of lines is the sum of their totals |
| OrderViews.Total | orders/views.py:67 | the total of no lines is 0 and of one line is its price × quantity; with `TotalConcat` it is the sum over the lines, `LineAppendTotal`, `LineUpdateTotal` and `LineRemoveTotal` say how each cart change moves it, and `TotalIgnoresStock` that the total computed after checkout's stock update (orders/views.py:144) is the same |
| OrderViews.TotalIgnoresStock | orders/views.py:144 | the total depends on prices only, so computing it after the stock update gives the cart's total |
| OrderViews.LineAppendTotal | orders/views.py:37-41 | a new line raises its order's total by price × quantity |
| OrderViews.LineUpdateTotal | orders/views.py:43-50 | changing one line's quantity moves the order total by the price difference of that line |
| OrderViews.LineRemoveTotal | orders/views.py:107-109 | deleting one line lowers its order's total by that line's price |
| OrderViews.History | orders/views.py:174 | the history holds exactly the customer's non-pending orders, newest first |
| OrderViews.OwnedItem | orders/views.py:86 | the item is found exactly when it has that id and belongs to the caller's pending order |
| OrderViews.FindCart | orders/views.py:65 | the cart lookup (also at orders/views.py:122) finds the first pending order of the customer, or reports that none exists; under the invariant it is the only one (`CartIsUnique`) |
| OrderViews.AddGuard | orders/views.py:8-27 | the guards of `add_to_cart` in the view's order, each refusal stated as an if-and-only-if: an anonymous user gets NotAuthenticated; a signed-in seller SellerForbidden; a missing or inactive product NotFound; a quantity of 0 or less InvalidQuantity; a positive quantity above stock OutOfStock; and the add proceeds exactly for an authenticated non-seller, an active product and a quantity from 1 to the stock |
| OrderViews.CheckoutOutcome | orders/views.py:114-133 | each outcome of `checkout` as an if-and-only-if: NotAuthenticated for an anonymous user, SellerForbidden for a seller, EmptyCart when there is no pending order or it has no lines, OutOfStock when some line of a nonempty cart exceeds its product's stock, and Ok exactly when every line fits |
| OrderViews.FindLine | orders/views.py:37-41 | the lookup finds the first line of that order for that product, or reports that none exists |
| OrderViews.CartIsUnique | orders/views.py:30-34 | under the invariant, any pending order of a customer is the one the cart lookup returns |
| OrderViews.NewCartKeepsTables | orders/views.py:30-34 | opening a cart for a customer who has none keeps the invariant, and the new cart is empty and found by the lookup |
| OrderViews.AppendLineKeepsTables | orders/views.py:37-41 | creating the only line of an order for a product keeps the invariant |
| OrderViews.SetQuantityKeepsTables | orders/views.py:43-50 | giving a line a new positive quantity keeps the invariant and the line's position |
| OrderViews.RemoveKeepsTables | orders/views.py:107-109 | deleting a line keeps the invariant |
| OrderViews.PayKeepsTables | orders/views.py:136-142 | marking the cart paid and changing stock levels keep the invariant |
| OrderViews.LinesDistinct | orders/views.py:136-138 | the lines of one order name pairwise distinct products |
| OrderViews.Shop.CartView | orders/views.py:57-78 | anonymous users and sellers are redirected; otherwise the page shows exactly the pending order's lines and their total, and an empty cart with total 0 when there is none |
| OrderViews.Shop.OrderHistory | orders/views.py:167-179 | anonymous users and sellers are redirected; otherwise the page lists the customer's history |
| OrderViews.Shop.OpenCart | orders/views.py:30-34 | the cart lookup returns the customer's pending order, creating an empty one only when none exists |
| OrderViews.Shop.MergeLine | orders/views.py:43-50 | the merged quantity is stored exactly when it fits the stock, raising the total by the added units; otherwise nothing changes |
| OrderViews.Shop.AppendLine | orders/views.py:37-41 | the new line gets a fresh id and the requested quantity, and the order total grows by its price |
| OrderViews.Shop.AddToCart | orders/views.py:8-55 | every failing guard (anonymous, seller, missing or inactive product, quantity ≤ 0, quantity > stock) returns before any change; otherwise the add succeeds or is refused for stock, and it is refused exactly when the cart already holds a line for the product and the merged quantity exceeds the stock, in which case nothing changes; on success the quantity is merged into the existing line, or the line is created, and the cart total grows by price × quantity |
| OrderViews.Shop.UpdateCartItem | orders/views.py:80-99 | on the caller's own cart line, a quantity ≤ 0 deletes it, a quantity above stock changes nothing, any other quantity replaces it; the cart total moves accordingly; a foreign or missing item is not found |
| OrderViews.Shop.RemoveFromCart | orders/views.py:101-112 | succeeds exactly for a line of the caller's cart, deletes that line and nothing else, and lowers the total by its price |
| OrderViews.Shop.StockCovers | orders/views.py:130-133 | the check succeeds exactly when every line fits its product's current stock |
| OrderViews.Shop.DeductStock | orders/views.py:136-138 | each product's stock falls by exactly the units the lines hold, never below 0; no other column is written |
| OrderViews.Shop.Checkout | orders/views.py:114-151 | with no cart, an empty cart or a line above stock nothing changes; otherwise each product's stock falls by its line quantity, the order becomes `paid` and the total, computed after the stock update, is the cart's total |
| Accounts.SaveProfile | accounts/models.py:46-49 | an empty store slug becomes the slug of the store name, with no suffix; a set slug and the other fields are kept |
| Accounts.GeneratedSlugsCollide | accounts/models.py:46-48 | whatever the table holds, once a store with a generated slug is created, a second store whose name slugifies alike is refused by the unique indexes |
| Accounts.ProfileTable.Create | accounts/models.py:19-21 | a profile is stored exactly when it repeats no user, store name or store slug (`CreateAccepts`); uniqueness is preserved |
| Accounts.SellerReviews | accounts/models.py:58 | exactly the reviews of the seller's products, with or without a user |
| Accounts.TotalReviews | accounts/models.py:63-67 | exactly the number of SellerReviews, at most the size of the review table |
| Accounts.SellerAverageRating | accounts/models.py:54-61 | 0 without reviews; otherwise average × count equals the sum of the ratings of all reviews of all the seller's products |
| Accounts.SellerAverageInRange | accounts/models.py:55-61 | when the ratings of the seller's reviews are validated to 1..5 (other rows may hold anything), a reviewed seller averages between 1 and 5 |
| Accounts.SellerAveragePositiveIffReviewed | accounts/models.py:55-67 | with validated ratings the average is positive exactly when `total_reviews` is |
| Accounts.OrphanCountedForSeller | accounts/models.py:58 | a review without a user of one of the seller's products raises `total_reviews` by one while the product's `review_count` stays put |
| Accounts.ActiveProducts | accounts/models.py:72 | exactly the seller's active products |
| Accounts.TotalProducts | accounts/models.py:69-72 | exactly the number of ActiveProducts, at most the number of the seller's products |
| Accounts.DeactivateLowersTotal | accounts/models.py:69-72 | deactivating one of the seller's active products lowers `total_products` by exactly one |
| Accounts.SoldOrders | accounts/models.py:78-81 | only paid orders, each of which holds a line of the seller's, and every such order |
| Accounts.TotalSales | accounts/models.py:74-81 | `total_sales` is the number of distinct orders in `SoldOrders`, and 0 when no paid line is the seller's; `TotalSalesBound`, `SecondLineCountsOnce`, `PayingAddsOneSale` and `ShippingRemovesSale` state what it promises |
| Accounts.TotalSalesBound | accounts/models.py:74-81 | `total_sales` never exceeds the number of paid orders |
| Accounts.SecondLineCountsOnce | accounts/models.py:78-81 | another line of the seller's in an already counted order leaves `total_sales` unchanged |
| Accounts.PayingAddsOneSale | accounts/models.py:78-81 | a pending order is not counted, and paying it when it holds a line of the seller's adds exactly one sale |
| Accounts.ShippingRemovesSale | accounts/models.py:78-81 | shipping a counted order lowers `total_sales` by one, since only `paid` counts |
| FixEmptySlugs.EmptySlugIds | products/management/commands/fix_empty_slugs.py:13 | exactly the products whose slug is the empty string |
| FixEmptySlugs.FixBase | products/management/commands/fix_empty_slugs.py:27-30 | the base is never empty: the slugified name, else `product-<id>` |
| FixEmptySlugs.FixSlug | products/management/commands/fix_empty_slugs.py:27-36 | the slug one turn writes is nonempty, held by no other product in the table as it stands, and is a candidate of the row's base whose predecessors are all held |
| FixEmptySlugs.FixAll | products/management/commands/fix_empty_slugs.py:24-42 | the table after fixing the queued products one after the other in queue order, each against the table the earlier turns left; only slugs change, and only those of queued products |
| FixEmptySlugs.SameBaseInQueueOrder | products/management/commands/fix_empty_slugs.py:24-39 | of two queued products with the same base, the first in the queue gets `base` and the second `base-1` when no other product holds either |
| FixEmptySlugs.EarlierFixKept | products/management/commands/fix_empty_slugs.py:32-39 | a product fixed earlier keeps a slug no other product holds when a later one is fixed |
| FixEmptySlugs.ProgressStep | products/management/commands/fix_empty_slugs.py:24-42 | one turn of the loop keeps the loop invariant |
| FixEmptySlugs.FixNext | products/management/commands/fix_empty_slugs.py:24-42 | one turn of the loop on the next queued product advances the loop invariant by one product |
| FixEmptySlugs.Finished | products/management/commands/fix_empty_slugs.py:13-42 | once every queued product is reached no slug is empty, the other slugs are unchanged, and each queued product is settled on its own base |
| FixEmptySlugs.FixOne | products/management/commands/fix_empty_slugs.py:27-39 | the product receives the first candidate of its base that no other product holds now, every earlier candidate is held, the slug is `FixSlug` of the table before the turn, and the save changes nothing else |
| FixEmptySlugs.FixEmptySlugs | products/management/commands/fix_empty_slugs.py:13-45 | with no empty slugs nothing changes; otherwise only empty slugs change, none is left, `fixed_count` is the number found, the final table is `FixAll` of the original one and the queue, and each fixed slug is unique in the final table while each skipped candidate is held there |
| CleanupOrphanedReviews.Orphaned | products/management/commands/cleanup_orphaned_reviews.py:19 | exactly the reviews whose user is null |
| CleanupOrphanedReviews.WithUser | products/management/commands/cleanup_orphaned_reviews.py:38-40 | exactly the reviews with a user; with the orphans they make up the whole table |
| CleanupOrphanedReviews.ReviewUsers | products/management/commands/cleanup_orphaned_reviews.py:49 | every non-null user of a review is in the subquery |
| CleanupOrphanedReviews.InvalidUserReviews | products/management/commands/cleanup_orphaned_reviews.py:48-50 | the query set holds exactly the reviews with a user that is not among the users of the reviews, and no more rows than the table; `InvalidUserReviewsEmpty` proves it is always empty |
| CleanupOrphanedReviews.InvalidUserReviewsEmpty | products/management/commands/cleanup_orphaned_reviews.py:48-51 | the "invalid user" query always selects nothing |
| CleanupOrphanedReviews.Cleanup | products/management/commands/cleanup_orphaned_reviews.py:15-71 | the count is the number of null-user reviews; with none, or on a dry run, nothing is deleted; otherwise exactly those are deleted and the count equals the rows removed; the invalid-user count is 0 |

## Left out

- Request plumbing: messages, templates, redirect targets and the JSON 403 answers are collapsed into `Outcome`; `@login_required` is the `NotAuthenticated` outcome.
- The parse of the quantity from the POST body (`int(...)`, which fails on non-numeric text) is not modelled: the quantity is an integer parameter.
- Slugs.Slugify: an ASCII model of Django's `slugify`; the Unicode NFKD normalisation and the handling of non-ASCII letters are not modelled (non-ASCII characters are dropped).
- Decimal prices are integer cents; the views' float formatting and one-decimal rounding of averages are not modelled.
- Timestamps: `created_at` ordering is modelled by order id, which grows with creation time.
- Concurrency and transactions: every view runs alone and atomically; the `get_or_create` races and checkout's check-then-decrement are not modelled.
- `MultipleObjectsReturned` from the cart lookup: the invariant keeps at most one pending order per customer, so that state is never reached.
- Images, avatars, logos, the profile's contact, payment, shipping and social fields, and `auto_accept_orders`: free data that no core operation reads.
- Products.SaveCategory: the unique indexes on category name and slug are not modelled.
- FixEmptySlugs.FixEmptySlugs: the order in which the query set yields the products is a parameter, since the source leaves it unspecified; console output is left out.
- CleanupOrphanedReviews.Cleanup: the listing of the first ten orphans and the other console output are left out; the second deletion is shown to be unreachable rather than modelled.
- `order_detail`, the seller dashboard's average of per-product averages and the other views in products/views.py and accounts/views.py are not part of this model.
- Cascades from deleting a user are not modelled.
- OrderModels.DeleteOrderCascade, OrderModels.DeleteProductCascade: no view or command in this model deletes an order or a product, so these two state the `on_delete=CASCADE` rules on their own and no other member calls them. (`OrderModels.NewItem` is used by `Shop.AppendLine`, which then sets the requested quantity.)
- OrderViews.Shop.DeductStock: `item.product.save()` runs all of `Product.save`, so a product with an empty slug and a nonempty name would also get a generated slug, and a product whose slug another row holds would hit the unique index; the model writes the stock column only and does not model that slug logic.
- OrderViews.Shop.Checkout: for the same reason, the slug generation and the possible unique-index error that the stock update's `save()` can trigger at checkout are not modelled.
