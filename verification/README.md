# Delivery marketplace store: a Dafny model

This project models the relational store of a food-delivery marketplace. The
store is declared in the Django module `myproject/deliveryproject/models.py`.
There are twelve record kinds:

- users, with a role;
- categories;
- stores, each with an owner and a category;
- contact numbers of a store;
- products and product combos of a store;
- one cart per user;
- cart lines, each naming a product with a quantity;
- orders, naming a cart, a product, a client and a courier user;
- courier rows, each naming a user and their current order;
- reviews of stores and of couriers.

The store is a value `Schema.Db`: one finite map from primary key to record
per model. A record holds the keys of the rows its foreign keys name.

Three behaviours are modelled and proved.

- **Cascading deletion.** Every foreign key is mandatory and declared
  `on_delete=CASCADE`. Deleting a row therefore removes every row that
  references it, directly or through a chain of references.
  - `Cascade.Delete` computes this closure table by table, parents before
    children. That order exists because the foreign-key graph has no cycle
    (`Schema.Rank`).
  - The closure is checked against an independent definition,
    `Schema.DependsOn`: a path from the row to the target in the reference
    graph.
  - The proofs show that exactly the dependent rows disappear, that every
    surviving row is unchanged, and that referential integrity is preserved.
- **The cart total.** `CarItem.get_total_price` is the product's current
  price times the quantity. `Cart.get_total_price` is the sum of these over
  the cart's lines.
  - Prices are `DecimalField(max_digits=10, decimal_places=2)`. They are
    modelled as whole cents, so every total is exact integer arithmetic.
  - `Pricing.GetTotalPrice` folds the lines one at a time, in any order. It
    is proved equal to the order-free sum `Pricing.CartTotal`.
- **Write-time constraints.** Each `Writes.AddX` creates one row the way
  `full_clean()` followed by `save()` admits it. `RenameCategory` and
  `SetPrice` update an existing row. A write is admitted exactly when its
  result satisfies every declared constraint. Each admitted write is proved
  to keep `Constraints.WellFormed`. Each `Writes.*Admits` lemma proves the
  converse: a write whose result would be well-formed is admitted. The
  constraints are:
  - the primary key is fresh (`KeyTaken`) or, for an update, exists
    (`NotFound`);
  - the foreign keys resolve (`MissingRelation`);
  - the text columns, including the stored image file names and the phone
    number, are non-blank and within `max_length` (`InvalidText`);
  - ratings are in their choices 1..5, and quantities are in the
    `PositiveSmallIntegerField` range 0..32767 (`OutOfDomain`);
  - prices have fewer than 11 digits, i.e. |cents| < 10^10
    (`PrecisionOverflow`);
  - category names are unique, and a user has at most one cart
    (`NotUnique`).

  A refused write returns one error. When a row breaks several
  constraints, the error reported follows this model's own fixed
  precedence, the order of the list above.

  Defaults are constructor defaults: a user's role is `Client`, an order's
  status is `Pending`, and a cart line holds 1 unit. `Constraints.WellFormed`
  holds every declared constraint at once. It is proved to be an invariant
  of every admitted write and of every delete. So every store reachable
  from the empty one is well-formed (`Writes.ReachableWellFormed`).

Modules: `Fields` (value domains, errors), `Schema` (records, the store,
the reference graph, integrity), `Constraints`, `Cascade`, `Writes`, `Sums`
(sums over finite key sets) and `Pricing`.

`CarItem.quantity` is a `PositiveSmallIntegerField`
(`models.py:82`), whose range 0..32767 includes 0. So a line with quantity 0
is accepted, and it adds nothing to the cart total.

## Model

| member | source | states |
|---|---|---|
| Schema.Parents | myproject/deliveryproject/models.py:27-133 | every row a row's foreign keys name lies in a table of strictly smaller rank, so the reference graph is acyclic; an absent row names none |
| Schema.RefOkIsClosed | myproject/deliveryproject/models.py:27-133 | integrity stated per foreign-key declaration holds exactly when no edge of the reference graph leaves the store |
| Schema.WithinDependsOn | myproject/deliveryproject/models.py:27-133 | a reference chain in a store with some rows removed is also a chain in the original store |
| Schema.ClosedDependsOn | myproject/deliveryproject/models.py:27-133 | in a store with integrity, everything a present row depends on is present |
| Cascade.Delete | myproject/deliveryproject/models.py:27-133 | deleting a row only removes rows; every table of the result is a sub-map of the original, so no surviving row is altered |
| Cascade.DoomedExactly | myproject/deliveryproject/models.py:27-133 | the table-by-table cascade closure contains a row if and only if that row depends on the target through a chain of CASCADE foreign keys |
| Cascade.DeleteExactly | myproject/deliveryproject/models.py:27-133 | after deleting a target, a row is present if and only if it was present before and does not depend on the target |
| Cascade.DeleteRemovesTarget | myproject/deliveryproject/models.py:27-133 | the deleted row itself is gone |
| Cascade.DeleteKeepsIntegrity | myproject/deliveryproject/models.py:27-133 | after any cascading delete, every foreign key of every remaining row names a row that still exists |
| Cascade.DeleteKeepsWellFormed | myproject/deliveryproject/models.py:14-135 | a cascading delete keeps every declared constraint: integrity, the two uniqueness constraints and every value domain |
| Cascade.DeleteAbsent | myproject/deliveryproject/models.py:27-133 | in a store with integrity, deleting a row that is not there changes nothing |
| Cascade.DeleteIdempotent | myproject/deliveryproject/models.py:27-133 | deleting the same row twice equals deleting it once |
| Cascade.DeleteStoreDirect | myproject/deliveryproject/models.py:38-122 | deleting a store removes it and every contact number, product, combo and store review that references it |
| Cascade.DeleteStoreTransitive | myproject/deliveryproject/models.py:48-114 | deleting a store also removes the cart lines and orders of its products, and every courier row whose current order was removed |
| Cascade.DeleteStoreSpares | myproject/deliveryproject/models.py:17-76 | deleting a store leaves users, categories, carts and courier reviews unchanged |
| Cascade.DeleteUserSpares | myproject/deliveryproject/models.py:7-18 | deleting a user removes that user and no other, and leaves every category |
| Cascade.DeleteUserCascade | myproject/deliveryproject/models.py:27-114 | deleting a user removes their cart, their stores, every order where they are client or courier, and their courier rows |
| Cascade.DeleteUserReviews | myproject/deliveryproject/models.py:120-133 | deleting a user removes the store reviews they wrote and the courier reviews on either side |
| Cascade.DeleteCategoryCascade | myproject/deliveryproject/models.py:29-50 | deleting a category removes it alone among categories, plus its stores, its products and the products of the removed stores |
| Cascade.DeleteCategorySpares | myproject/deliveryproject/models.py:7-76 | deleting a category leaves users, carts and courier reviews unchanged |
| Cascade.DeleteProductCascade | myproject/deliveryproject/models.py:81-114 | deleting a product removes its cart lines, its orders and the courier rows whose current order was one of them |
| Cascade.DeleteProductSpares | myproject/deliveryproject/models.py:17-76 | deleting a product removes that product and no other, and leaves users, categories, stores, contacts, combos and carts unchanged |
| Constraints.WithinKeepsValues | myproject/deliveryproject/models.py:14-135 | removing rows cannot break a uniqueness constraint or a value domain |
| Writes.AddUser | myproject/deliveryproject/models.py:7-14 | a user is created exactly when the key is fresh; otherwise the key is reported as taken |
| Writes.AddCategory | myproject/deliveryproject/models.py:17-18 | a category is created exactly when the key is fresh, the name has 1..20 characters and no other category has that name; with a fresh key and a valid name, a name in use is reported as not unique, and only then |
| Writes.RenameCategory | myproject/deliveryproject/models.py:17-18 | a rename succeeds exactly when the category exists, the name has 1..20 characters and no other category has it; a missing category is reported as not found, a bad name as invalid text, a name held by another category as not unique |
| Writes.AddStore | myproject/deliveryproject/models.py:24-30 | a store is created exactly when the key is fresh, owner and category exist, and name (≤ 20), image file name (≤ 100) and address (≤ 50) are non-blank; with a fresh key a missing owner or category is a missing relation, and bad text is reported when both exist |
| Writes.AddContact | myproject/deliveryproject/models.py:36-38 | a contact is created exactly when the key is fresh, its store exists and the number is non-blank within 128 characters; with a fresh key a missing store is a missing relation, and a bad number is reported when the store exists |
| Writes.AddProduct | myproject/deliveryproject/models.py:44-50 | a product is created exactly when the key is fresh, store and category exist, name (≤ 30), description and photo file name (≤ 100) are non-blank and the price has at most 10 digits; each of key, relations, text and price is reported as its own error |
| Writes.AddCombo | myproject/deliveryproject/models.py:57-62 | a combo is created exactly when the key is fresh, its store exists, name, description and photo file name are valid and the price fits 10 digits; each of key, relation, text and price is reported as its own error |
| Writes.AddCart | myproject/deliveryproject/models.py:68-69 | a cart is created exactly when the key is fresh, the user exists and has no cart yet; a taken key and a missing user are their own errors, and a second cart for an existing user is reported as not unique, and only then |
| Writes.AddItem | myproject/deliveryproject/models.py:79-82 | a cart line is created exactly when the key is fresh, cart and product exist and the quantity is in 0..32767; a taken key, a missing relation and a quantity outside that range are each reported as their own error |
| Writes.AddOrder | myproject/deliveryproject/models.py:88-101 | an order is created exactly when the key is fresh, cart, product, client and courier exist and the address has 1..64 characters; a taken key, any missing relation and a bad address are each reported as their own error |
| Writes.AddCourier | myproject/deliveryproject/models.py:107-114 | a courier row is created exactly when the key is fresh and its user and current order exist, so a user may have several; with a fresh key a missing user or order is reported as a missing relation |
| Writes.AddStoreReview | myproject/deliveryproject/models.py:120-124 | a store review is created exactly when the key is fresh, client and store exist, the comment is non-blank and the rating is in 1..5; a taken key, a missing relation, a blank comment and a rating outside 1..5 are each reported as their own error |
| Writes.AddCourierReview | myproject/deliveryproject/models.py:131-135 | a courier review is created exactly when the key is fresh, both users exist, the comment is non-blank and the rating is in 1..5; a taken key, a missing relation, a blank comment and a rating outside 1..5 are each reported as their own error |
| Writes.SetPrice | myproject/deliveryproject/models.py:47 | a reprice succeeds exactly when the product exists and the new price fits 10 digits, and changes only that product's price; a missing product is reported as not found, an oversized price as a precision overflow |
| Writes.NewUserIsClient | myproject/deliveryproject/models.py:14 | a user created without a role is a client |
| Writes.NewOrderIsPending | myproject/deliveryproject/models.py:99 | an order created without a status is pending, even when client and courier are the same user |
| Writes.NewItemHoldsOne | myproject/deliveryproject/models.py:82 | a cart line created without a quantity holds one unit |
| Writes.AddCategoryKeepsWellFormed | myproject/deliveryproject/models.py:17-18 | an admitted new category keeps names unique and every other constraint |
| Writes.AddCartKeepsWellFormed | myproject/deliveryproject/models.py:68-69 | an admitted new cart keeps one cart per user and every other constraint |
| Writes.AddOrderKeepsWellFormed | myproject/deliveryproject/models.py:88-114 | an admitted new order keeps integrity of orders and couriers and every value domain |
| Writes.SetPriceKeepsWellFormed | myproject/deliveryproject/models.py:44-50 | an admitted reprice keeps every constraint |
| Writes.AddCategoryAdmits | myproject/deliveryproject/models.py:17-18 | a new category whose result keeps every constraint, unique names included, is admitted: the name check refuses nothing the uniqueness constraint allows |
| Writes.RenameCategoryAdmits | myproject/deliveryproject/models.py:17-18 | a rename whose result keeps every constraint is admitted; the category's own current name does not block it |
| Writes.AddStoreAdmits | myproject/deliveryproject/models.py:24-30 | a new store whose result keeps every constraint is admitted |
| Writes.AddContactAdmits | myproject/deliveryproject/models.py:36-38 | a new contact whose result keeps every constraint is admitted |
| Writes.AddProductAdmits | myproject/deliveryproject/models.py:44-50 | a new product whose result keeps every constraint is admitted |
| Writes.AddComboAdmits | myproject/deliveryproject/models.py:57-62 | a new combo whose result keeps every constraint is admitted |
| Writes.AddCartAdmits | myproject/deliveryproject/models.py:68-69 | a new cart whose result keeps one cart per user and every other constraint is admitted: the one-cart check refuses nothing the one-to-one link allows |
| Writes.AddItemAdmits | myproject/deliveryproject/models.py:79-82 | a new cart line whose result keeps every constraint is admitted |
| Writes.AddOrderAdmits | myproject/deliveryproject/models.py:88-101 | a new order whose result keeps every constraint is admitted |
| Writes.AddCourierAdmits | myproject/deliveryproject/models.py:107-114 | a new courier row whose result keeps every constraint is admitted |
| Writes.AddStoreReviewAdmits | myproject/deliveryproject/models.py:120-124 | a new store review whose result keeps every constraint is admitted |
| Writes.AddCourierReviewAdmits | myproject/deliveryproject/models.py:131-135 | a new courier review whose result keeps every constraint is admitted |
| Writes.SetPriceAdmits | myproject/deliveryproject/models.py:47 | a reprice whose result keeps every constraint is admitted |
| Writes.ApplyKeepsWellFormed | myproject/deliveryproject/models.py:14-135 | every admitted create, update or delete keeps every declared constraint |
| Writes.ReplayKeepsWellFormed | myproject/deliveryproject/models.py:14-135 | a well-formed store stays well-formed under any sequence of requests, refused ones leaving it as it was |
| Writes.ReachableWellFormed | myproject/deliveryproject/models.py:14-135 | every store reachable from the empty one satisfies every declared constraint |
| Pricing.GetTotalPrice | myproject/deliveryproject/models.py:75-76 | adding up the line totals one line at a time, in whatever order the lines come, yields the sum of price × quantity over the cart's lines |
| Pricing.EmptyCartTotal | myproject/deliveryproject/models.py:75-76 | a cart without lines totals 0 |
| Pricing.RepriceLine | myproject/deliveryproject/models.py:84-85 | a line's total reads its product's current price: after repricing a product, each of its lines totals the new price times the quantity, and every other line is unchanged |
| Pricing.AddItemTotal | myproject/deliveryproject/models.py:75-85 | adding a line raises its cart's total by price × quantity and leaves every other cart's total as it was |
| Pricing.RepriceTotal | myproject/deliveryproject/models.py:84-85 | the total reads the product's current price: repricing shifts every cart's total by the price change times that cart's units of the product |
| Pricing.DeleteProductTotal | myproject/deliveryproject/models.py:75-85 | deleting a product lowers every cart's total by that product's price times the cart's units of it, because its lines cascade away |
| Pricing.ExampleTotal | myproject/deliveryproject/models.py:75-85 | a cart with 2 × 10.00 and 1 × 5.50 totals 25.50 |

## Left out

- Persistence, queries, migrations, transactions and concurrency are left out. The model is the declared graph and its write and delete semantics on an immutable value.
- Primary-key assignment is left out. The database chooses keys, so every create takes the new key as a parameter and refuses a key in use.
- The fields `UserProfile` inherits from `AbstractUser` are left out, including the unique user name. They are not declared in this module.
- The image and phone columns are modelled only as their stored strings. `store_image`, `product_photo`, `combo_photo` (`models.py:28`, `:49`, `:62`) and `contact_info` (`:37`) are required, so a store, product, combo or contact without one is refused. Their content is not checked: the upload itself and the phone library's format validation are left out. The optional `UserProfile.phonenumber` is left out.
- `auto_now_add` timestamps are left out. They come from the clock.
- Django's `full_clean` validates every field in declaration order and reports every failing field in one `ValidationError`; a primary-key clash shows up only in `validate_unique`, after the fields. The model instead returns a single error chosen by a fixed precedence (key, relations, text, value domains, uniqueness). Whether a write is admitted is the same, and the error returned is always one that Django also reports.
- Updates other than renaming a category and repricing a product are not modelled. Examples are pointing a cart at another user, which the one-to-one link would have to refuse, and editing a review's rating or a line's quantity. `Writes.ReachableWellFormed` covers only the modelled requests.
- `__str__` formatting and the label strings of the choice tuples are left out. Roles, order statuses and courier statuses are closed enumerations, so `choices` holds by construction. The 12- and 20-character limits on those stored labels are therefore not modelled.
- `myproject/deliveryproject/translation.py` is left out. It only registers fields with a translation library.
- Python's decimal context is not modelled. Its 28 significant digits are never reached by products of 10-digit prices and 5-digit quantities.
- On an empty cart `Cart.get_total_price` returns the integer 0 rather than a `Decimal`. The model does not tell the two apart: both are the total 0.
- ProductCombo has no link to its products, and none is invented.
- Pricing.GetTotalPrice: requires every line of the cart to name an existing product. In a store with integrity this always holds.
