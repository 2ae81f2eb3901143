/**
 Validated writes: creating a row of each model, renaming a category and
 repricing a product. A write is admitted exactly when the row satisfies
 every declared constraint: each write below is proved to keep `WellFormed`,
 and each `...Admits` lemma proves the converse, that a write whose result
 would be well-formed is admitted. A refused write leaves the store as it
 was and returns one error naming a constraint the row breaks. When several
 are broken, which one is reported is this model's own fixed precedence:
 the primary key, then the foreign keys, then text columns, then value
 domains, then the uniqueness constraints.
 */
module Writes {
  import opened Fields
  import opened Schema
  import opened Constraints
  import opened Cascade

  /** Registers a user; without an explicit record the role is the
      declared default, `Client`. */
  function AddUser(db: Db, id: Id, u: User := User()): (r: Result<Db>)
    ensures r.Ok? <==> id !in db.users
    ensures r.Ok? ==> r.value == db.(users := db.users[id := u])
    ensures r.Err? ==> r.error == KeyTaken
  {
    if id in db.users then Err(KeyTaken)
    else Ok(db.(users := db.users[id := u]))
  }

  function AddCategory(db: Db, id: Id, c: Category): (r: Result<Db>)
    ensures r.Ok? <==> id !in db.categories && ValidCategory(c) && !NameTaken(db, c.name, None)
    ensures r.Ok? ==> r.value == db.(categories := db.categories[id := c])
    ensures r == Err(KeyTaken) <==> id in db.categories
    ensures r == Err(InvalidText) <==> id !in db.categories && !ValidCategory(c)
    ensures r == Err(NotUnique) <==> id !in db.categories && ValidCategory(c) && NameTaken(db, c.name, None)
  {
    if id in db.categories then Err(KeyTaken)
    else if !ValidCategory(c) then Err(InvalidText)
    else if NameTaken(db, c.name, None) then Err(NotUnique)
    else Ok(db.(categories := db.categories[id := c]))
  }

  /** Saves a new name for an existing category; the name stays unique. */
  function RenameCategory(db: Db, id: Id, name: string): (r: Result<Db>)
    ensures r.Ok? <==> id in db.categories && ValidCategory(Category(name)) && !NameTaken(db, name, Some(id))
    ensures r.Ok? ==> r.value == db.(categories := db.categories[id := Category(name)])
    ensures r == Err(NotFound) <==> id !in db.categories
    ensures r == Err(InvalidText) <==> id in db.categories && !ValidCategory(Category(name))
    ensures r == Err(NotUnique) <==> id in db.categories && ValidCategory(Category(name)) && NameTaken(db, name, Some(id))
  {
    if id !in db.categories then Err(NotFound)
    else if !ValidCategory(Category(name)) then Err(InvalidText)
    else if NameTaken(db, name, Some(id)) then Err(NotUnique)
    else Ok(db.(categories := db.categories[id := Category(name)]))
  }

  function AddStore(db: Db, id: Id, s: Store): (r: Result<Db>)
    ensures r.Ok? <==> id !in db.stores && s.owner in db.users && s.category in db.categories && ValidStore(s)
    ensures r.Ok? ==> r.value == db.(stores := db.stores[id := s])
    ensures r == Err(KeyTaken) <==> id in db.stores
    ensures r == Err(MissingRelation) <==> id !in db.stores && (s.owner !in db.users || s.category !in db.categories)
    ensures r == Err(InvalidText) <==> id !in db.stores && s.owner in db.users && s.category in db.categories && !ValidStore(s)
  {
    if id in db.stores then Err(KeyTaken)
    else if s.owner !in db.users || s.category !in db.categories then Err(MissingRelation)
    else if !ValidStore(s) then Err(InvalidText)
    else Ok(db.(stores := db.stores[id := s]))
  }

  function AddContact(db: Db, id: Id, c: ContactInfo): (r: Result<Db>)
    ensures r.Ok? <==> id !in db.contacts && c.store in db.stores && ValidContact(c)
    ensures r.Ok? ==> r.value == db.(contacts := db.contacts[id := c])
    ensures r == Err(KeyTaken) <==> id in db.contacts
    ensures r == Err(MissingRelation) <==> id !in db.contacts && c.store !in db.stores
    ensures r == Err(InvalidText) <==> id !in db.contacts && c.store in db.stores && !ValidContact(c)
  {
    if id in db.contacts then Err(KeyTaken)
    else if c.store !in db.stores then Err(MissingRelation)
    else if !ValidContact(c) then Err(InvalidText)
    else Ok(db.(contacts := db.contacts[id := c]))
  }

  function AddProduct(db: Db, id: Id, p: Product): (r: Result<Db>)
    ensures r.Ok? <==> id !in db.products && p.store in db.stores && p.category in db.categories && ValidProduct(p)
    ensures r.Ok? ==> r.value == db.(products := db.products[id := p])
    ensures r == Err(KeyTaken) <==> id in db.products
    ensures r == Err(MissingRelation) <==> id !in db.products && (p.store !in db.stores || p.category !in db.categories)
    ensures r == Err(InvalidText) <==>
      id !in db.products && p.store in db.stores && p.category in db.categories && !ProductTextOk(p)
    ensures r == Err(PrecisionOverflow) <==>
      && id !in db.products && p.store in db.stores && p.category in db.categories
      && ProductTextOk(p) && !PriceFits(p.price)
  {
    if id in db.products then Err(KeyTaken)
    else if p.store !in db.stores || p.category !in db.categories then Err(MissingRelation)
    else if !ProductTextOk(p) then Err(InvalidText)
    else if !PriceFits(p.price) then Err(PrecisionOverflow)
    else Ok(db.(products := db.products[id := p]))
  }

  function AddCombo(db: Db, id: Id, c: ProductCombo): (r: Result<Db>)
    ensures r.Ok? <==> id !in db.combos && c.store in db.stores && ValidCombo(c)
    ensures r.Ok? ==> r.value == db.(combos := db.combos[id := c])
    ensures r == Err(KeyTaken) <==> id in db.combos
    ensures r == Err(MissingRelation) <==> id !in db.combos && c.store !in db.stores
    ensures r == Err(InvalidText) <==> id !in db.combos && c.store in db.stores && !ComboTextOk(c)
    ensures r == Err(PrecisionOverflow) <==>
      id !in db.combos && c.store in db.stores && ComboTextOk(c) && !PriceFits(c.price)
  {
    if id in db.combos then Err(KeyTaken)
    else if c.store !in db.stores then Err(MissingRelation)
    else if !ComboTextOk(c) then Err(InvalidText)
    else if !PriceFits(c.price) then Err(PrecisionOverflow)
    else Ok(db.(combos := db.combos[id := c]))
  }

  /** Creates a cart; the one-to-one link to the user refuses a second cart
      for the same user. */
  function AddCart(db: Db, id: Id, c: Cart): (r: Result<Db>)
    ensures r.Ok? <==> id !in db.carts && c.user in db.users && !HasCart(db, c.user)
    ensures r.Ok? ==> r.value == db.(carts := db.carts[id := c])
    ensures r == Err(KeyTaken) <==> id in db.carts
    ensures r == Err(MissingRelation) <==> id !in db.carts && c.user !in db.users
    ensures r == Err(NotUnique) <==> id !in db.carts && c.user in db.users && HasCart(db, c.user)
  {
    if id in db.carts then Err(KeyTaken)
    else if c.user !in db.users then Err(MissingRelation)
    else if HasCart(db, c.user) then Err(NotUnique)
    else Ok(db.(carts := db.carts[id := c]))
  }

  function AddItem(db: Db, id: Id, it: CartItem): (r: Result<Db>)
    ensures r.Ok? <==> id !in db.items && it.cart in db.carts && it.product in db.products && ValidItem(it)
    ensures r.Ok? ==> r.value == db.(items := db.items[id := it])
    ensures r == Err(KeyTaken) <==> id in db.items
    ensures r == Err(MissingRelation) <==> id !in db.items && (it.cart !in db.carts || it.product !in db.products)
    ensures r == Err(OutOfDomain) <==>
      id !in db.items && it.cart in db.carts && it.product in db.products && !SmallPositive(it.quantity)
  {
    if id in db.items then Err(KeyTaken)
    else if it.cart !in db.carts || it.product !in db.products then Err(MissingRelation)
    else if !ValidItem(it) then Err(OutOfDomain)
    else Ok(db.(items := db.items[id := it]))
  }

  /** Places an order; nothing forbids the client and the courier being the
      same user. */
  function AddOrder(db: Db, id: Id, o: Order): (r: Result<Db>)
    ensures r.Ok? <==>
      && id !in db.orders
      && o.cart in db.carts && o.product in db.products
      && o.client in db.users && o.courier in db.users
      && ValidOrder(o)
    ensures r.Ok? ==> r.value == db.(orders := db.orders[id := o])
    ensures r == Err(KeyTaken) <==> id in db.orders
    ensures r == Err(MissingRelation) <==>
      id !in db.orders &&
      (o.cart !in db.carts || o.product !in db.products || o.client !in db.users || o.courier !in db.users)
    ensures r == Err(InvalidText) <==>
      && id !in db.orders && o.cart in db.carts && o.product in db.products
      && o.client in db.users && o.courier in db.users && !ValidOrder(o)
  {
    if id in db.orders then Err(KeyTaken)
    else if o.cart !in db.carts || o.product !in db.products then Err(MissingRelation)
    else if o.client !in db.users || o.courier !in db.users then Err(MissingRelation)
    else if !ValidOrder(o) then Err(InvalidText)
    else Ok(db.(orders := db.orders[id := o]))
  }

  /** Adds a courier row; a user may have several. */
  function AddCourier(db: Db, id: Id, c: Courier): (r: Result<Db>)
    ensures r.Ok? <==> id !in db.couriers && c.user in db.users && c.order in db.orders
    ensures r.Ok? ==> r.value == db.(couriers := db.couriers[id := c])
    ensures r == Err(KeyTaken) <==> id in db.couriers
    ensures r == Err(MissingRelation) <==> id !in db.couriers && (c.user !in db.users || c.order !in db.orders)
  {
    if id in db.couriers then Err(KeyTaken)
    else if c.user !in db.users || c.order !in db.orders then Err(MissingRelation)
    else Ok(db.(couriers := db.couriers[id := c]))
  }

  function AddStoreReview(db: Db, id: Id, sr: StoreReview): (r: Result<Db>)
    ensures r.Ok? <==> id !in db.storeReviews && sr.client in db.users && sr.store in db.stores && ValidStoreReview(sr)
    ensures r.Ok? ==> r.value == db.(storeReviews := db.storeReviews[id := sr])
    ensures r == Err(KeyTaken) <==> id in db.storeReviews
    ensures r == Err(MissingRelation) <==> id !in db.storeReviews && (sr.client !in db.users || sr.store !in db.stores)
    ensures r == Err(InvalidText) <==>
      id !in db.storeReviews && sr.client in db.users && sr.store in db.stores && !RequiredText(sr.comment)
    ensures r == Err(OutOfDomain) <==>
      && id !in db.storeReviews && sr.client in db.users && sr.store in db.stores
      && RequiredText(sr.comment) && !RatingInRange(sr.rating)
  {
    if id in db.storeReviews then Err(KeyTaken)
    else if sr.client !in db.users || sr.store !in db.stores then Err(MissingRelation)
    else if !RequiredText(sr.comment) then Err(InvalidText)
    else if !RatingInRange(sr.rating) then Err(OutOfDomain)
    else Ok(db.(storeReviews := db.storeReviews[id := sr]))
  }

  function AddCourierReview(db: Db, id: Id, cr: CourierReview): (r: Result<Db>)
    ensures r.Ok? <==> id !in db.courierReviews && cr.client in db.users && cr.courier in db.users && ValidCourierReview(cr)
    ensures r.Ok? ==> r.value == db.(courierReviews := db.courierReviews[id := cr])
    ensures r == Err(KeyTaken) <==> id in db.courierReviews
    ensures r == Err(MissingRelation) <==> id !in db.courierReviews && (cr.client !in db.users || cr.courier !in db.users)
    ensures r == Err(InvalidText) <==>
      id !in db.courierReviews && cr.client in db.users && cr.courier in db.users && !RequiredText(cr.comment)
    ensures r == Err(OutOfDomain) <==>
      && id !in db.courierReviews && cr.client in db.users && cr.courier in db.users
      && RequiredText(cr.comment) && !RatingInRange(cr.rating)
  {
    if id in db.courierReviews then Err(KeyTaken)
    else if cr.client !in db.users || cr.courier !in db.users then Err(MissingRelation)
    else if !RequiredText(cr.comment) then Err(InvalidText)
    else if !RatingInRange(cr.rating) then Err(OutOfDomain)
    else Ok(db.(courierReviews := db.courierReviews[id := cr]))
  }

  /** Saves a new price for an existing product; only that product's price
      changes. */
  function SetPrice(db: Db, p: Id, cents: int): (r: Result<Db>)
    ensures r.Ok? <==> p in db.products && PriceFits(cents)
    ensures r.Ok? ==> r.value == db.(products := db.products[p := db.products[p].(price := cents)])
    ensures r == Err(NotFound) <==> p !in db.products
    ensures r == Err(PrecisionOverflow) <==> p in db.products && !PriceFits(cents)
  {
    if p !in db.products then Err(NotFound)
    else if !PriceFits(cents) then Err(PrecisionOverflow)
    else Ok(db.(products := db.products[p := db.products[p].(price := cents)]))
  }

  /** With no role given, a new user is a client. */
  lemma NewUserIsClient(db: Db, id: Id)
    requires id !in db.users
    ensures AddUser(db, id).Ok? && AddUser(db, id).value.users[id].role == Client
  {
  }

  /** With no status given, a new order is pending; the client may also be
      its courier. */
  lemma NewOrderIsPending(db: Db, id: Id, cart: Id, product: Id, user: Id, address: string)
    requires id !in db.orders && cart in db.carts && product in db.products && user in db.users
    requires BoundedText(address, DeliveryAddressMax)
    ensures var r := AddOrder(db, id, Order(cart, product, user, user, address));
      r.Ok? && r.value.orders[id].status == Pending
  {
  }

  /** With no quantity given, a new cart line holds one unit. */
  lemma NewItemHoldsOne(db: Db, id: Id, cart: Id, product: Id)
    requires id !in db.items && cart in db.carts && product in db.products
    ensures var r := AddItem(db, id, CartItem(cart, product));
      r.Ok? && r.value.items[id].quantity == 1
  {
  }

  // Integrity facts about one referencing table: a new row whose foreign
  // keys resolve keeps the table's links, and so does a parent table that
  // only gains keys.

  lemma StoreLinksInsert(stores: map<Id, Store>, users: map<Id, User>, categories: map<Id, Category>, id: Id, x: Store)
    requires StoreLinks(stores, users, categories)
    requires x.owner in users && x.category in categories
    ensures StoreLinks(stores[id := x], users, categories)
  {
  }

  lemma StoreLinksWiden(stores: map<Id, Store>, users: map<Id, User>, categories: map<Id, Category>, users2: map<Id, User>, categories2: map<Id, Category>)
    requires StoreLinks(stores, users, categories)
    requires users.Keys <= users2.Keys && categories.Keys <= categories2.Keys
    ensures StoreLinks(stores, users2, categories2)
  {
  }

  lemma ContactLinksInsert(contacts: map<Id, ContactInfo>, stores: map<Id, Store>, id: Id, x: ContactInfo)
    requires ContactLinks(contacts, stores)
    requires x.store in stores
    ensures ContactLinks(contacts[id := x], stores)
  {
  }

  lemma ContactLinksWiden(contacts: map<Id, ContactInfo>, stores: map<Id, Store>, stores2: map<Id, Store>)
    requires ContactLinks(contacts, stores)
    requires stores.Keys <= stores2.Keys
    ensures ContactLinks(contacts, stores2)
  {
  }

  lemma ProductLinksInsert(products: map<Id, Product>, stores: map<Id, Store>, categories: map<Id, Category>, id: Id, x: Product)
    requires ProductLinks(products, stores, categories)
    requires x.store in stores && x.category in categories
    ensures ProductLinks(products[id := x], stores, categories)
  {
  }

  lemma ProductLinksWiden(products: map<Id, Product>, stores: map<Id, Store>, categories: map<Id, Category>, stores2: map<Id, Store>, categories2: map<Id, Category>)
    requires ProductLinks(products, stores, categories)
    requires stores.Keys <= stores2.Keys && categories.Keys <= categories2.Keys
    ensures ProductLinks(products, stores2, categories2)
  {
  }

  lemma ComboLinksInsert(combos: map<Id, ProductCombo>, stores: map<Id, Store>, id: Id, x: ProductCombo)
    requires ComboLinks(combos, stores)
    requires x.store in stores
    ensures ComboLinks(combos[id := x], stores)
  {
  }

  lemma ComboLinksWiden(combos: map<Id, ProductCombo>, stores: map<Id, Store>, stores2: map<Id, Store>)
    requires ComboLinks(combos, stores)
    requires stores.Keys <= stores2.Keys
    ensures ComboLinks(combos, stores2)
  {
  }

  lemma CartLinksInsert(carts: map<Id, Cart>, users: map<Id, User>, id: Id, x: Cart)
    requires CartLinks(carts, users)
    requires x.user in users
    ensures CartLinks(carts[id := x], users)
  {
  }

  lemma CartLinksWiden(carts: map<Id, Cart>, users: map<Id, User>, users2: map<Id, User>)
    requires CartLinks(carts, users)
    requires users.Keys <= users2.Keys
    ensures CartLinks(carts, users2)
  {
  }

  lemma ItemLinksInsert(items: map<Id, CartItem>, carts: map<Id, Cart>, products: map<Id, Product>, id: Id, x: CartItem)
    requires ItemLinks(items, carts, products)
    requires x.cart in carts && x.product in products
    ensures ItemLinks(items[id := x], carts, products)
  {
  }

  lemma ItemLinksWiden(items: map<Id, CartItem>, carts: map<Id, Cart>, products: map<Id, Product>, carts2: map<Id, Cart>, products2: map<Id, Product>)
    requires ItemLinks(items, carts, products)
    requires carts.Keys <= carts2.Keys && products.Keys <= products2.Keys
    ensures ItemLinks(items, carts2, products2)
  {
  }

  lemma OrderLinksInsert(orders: map<Id, Order>, carts: map<Id, Cart>, products: map<Id, Product>, users: map<Id, User>, id: Id, x: Order)
    requires OrderLinks(orders, carts, products, users)
    requires x.cart in carts && x.product in products && x.client in users && x.courier in users
    ensures OrderLinks(orders[id := x], carts, products, users)
  {
  }

  lemma OrderLinksWiden(orders: map<Id, Order>, carts: map<Id, Cart>, products: map<Id, Product>, users: map<Id, User>, carts2: map<Id, Cart>, products2: map<Id, Product>, users2: map<Id, User>)
    requires OrderLinks(orders, carts, products, users)
    requires carts.Keys <= carts2.Keys && products.Keys <= products2.Keys && users.Keys <= users2.Keys
    ensures OrderLinks(orders, carts2, products2, users2)
  {
  }

  lemma CourierLinksInsert(couriers: map<Id, Courier>, users: map<Id, User>, orders: map<Id, Order>, id: Id, x: Courier)
    requires CourierLinks(couriers, users, orders)
    requires x.user in users && x.order in orders
    ensures CourierLinks(couriers[id := x], users, orders)
  {
  }

  lemma CourierLinksWiden(couriers: map<Id, Courier>, users: map<Id, User>, orders: map<Id, Order>, users2: map<Id, User>, orders2: map<Id, Order>)
    requires CourierLinks(couriers, users, orders)
    requires users.Keys <= users2.Keys && orders.Keys <= orders2.Keys
    ensures CourierLinks(couriers, users2, orders2)
  {
  }

  lemma StoreReviewLinksInsert(reviews: map<Id, StoreReview>, users: map<Id, User>, stores: map<Id, Store>, id: Id, x: StoreReview)
    requires StoreReviewLinks(reviews, users, stores)
    requires x.client in users && x.store in stores
    ensures StoreReviewLinks(reviews[id := x], users, stores)
  {
  }

  lemma StoreReviewLinksWiden(reviews: map<Id, StoreReview>, users: map<Id, User>, stores: map<Id, Store>, users2: map<Id, User>, stores2: map<Id, Store>)
    requires StoreReviewLinks(reviews, users, stores)
    requires users.Keys <= users2.Keys && stores.Keys <= stores2.Keys
    ensures StoreReviewLinks(reviews, users2, stores2)
  {
  }

  lemma CourierReviewLinksInsert(reviews: map<Id, CourierReview>, users: map<Id, User>, id: Id, x: CourierReview)
    requires CourierReviewLinks(reviews, users)
    requires x.client in users && x.courier in users
    ensures CourierReviewLinks(reviews[id := x], users)
  {
  }

  lemma CourierReviewLinksWiden(reviews: map<Id, CourierReview>, users: map<Id, User>, users2: map<Id, User>)
    requires CourierReviewLinks(reviews, users)
    requires users.Keys <= users2.Keys
    ensures CourierReviewLinks(reviews, users2)
  {
  }

  // Each admitted write keeps every constraint of the schema.

  lemma AddUserKeepsWellFormed(db: Db, id: Id, u: User)
    requires WellFormed(db) && AddUser(db, id, u).Ok?
    ensures WellFormed(AddUser(db, id, u).value)
  {
    var users := db.users[id := u];
    assert db.users.Keys <= users.Keys;
    StoreLinksWiden(db.stores, db.users, db.categories, users, db.categories);
    CartLinksWiden(db.carts, db.users, users);
    OrderLinksWiden(db.orders, db.carts, db.products, db.users, db.carts, db.products, users);
    CourierLinksWiden(db.couriers, db.users, db.orders, users, db.orders);
    StoreReviewLinksWiden(db.storeReviews, db.users, db.stores, users, db.stores);
    CourierReviewLinksWiden(db.courierReviews, db.users, users);
  }

  lemma AddCategoryKeepsWellFormed(db: Db, id: Id, c: Category)
    requires WellFormed(db) && AddCategory(db, id, c).Ok?
    ensures WellFormed(AddCategory(db, id, c).value)
  {
    var categories := db.categories[id := c];
    assert db.categories.Keys <= categories.Keys;
    StoreLinksWiden(db.stores, db.users, db.categories, db.users, categories);
    ProductLinksWiden(db.products, db.stores, db.categories, db.stores, categories);
    assert UniqueCategoryNames(categories);
    assert CategoriesValid(categories);
  }

  lemma RenameCategoryKeepsWellFormed(db: Db, id: Id, name: string)
    requires WellFormed(db) && RenameCategory(db, id, name).Ok?
    ensures WellFormed(RenameCategory(db, id, name).value)
  {
    var categories := db.categories[id := Category(name)];
    assert db.categories.Keys <= categories.Keys;
    StoreLinksWiden(db.stores, db.users, db.categories, db.users, categories);
    ProductLinksWiden(db.products, db.stores, db.categories, db.stores, categories);
    assert UniqueCategoryNames(categories);
    assert CategoriesValid(categories);
  }

  lemma AddStoreKeepsWellFormed(db: Db, id: Id, s: Store)
    requires WellFormed(db) && AddStore(db, id, s).Ok?
    ensures WellFormed(AddStore(db, id, s).value)
  {
    var stores := db.stores[id := s];
    assert db.stores.Keys <= stores.Keys;
    StoreLinksInsert(db.stores, db.users, db.categories, id, s);
    ContactLinksWiden(db.contacts, db.stores, stores);
    ProductLinksWiden(db.products, db.stores, db.categories, stores, db.categories);
    ComboLinksWiden(db.combos, db.stores, stores);
    StoreReviewLinksWiden(db.storeReviews, db.users, db.stores, db.users, stores);
    assert StoresValid(stores);
  }

  lemma AddContactKeepsWellFormed(db: Db, id: Id, c: ContactInfo)
    requires WellFormed(db) && AddContact(db, id, c).Ok?
    ensures WellFormed(AddContact(db, id, c).value)
  {
    ContactLinksInsert(db.contacts, db.stores, id, c);
    assert ContactsValid(db.contacts[id := c]);
  }

  lemma AddProductKeepsWellFormed(db: Db, id: Id, p: Product)
    requires WellFormed(db) && AddProduct(db, id, p).Ok?
    ensures WellFormed(AddProduct(db, id, p).value)
  {
    var products := db.products[id := p];
    assert db.products.Keys <= products.Keys;
    ProductLinksInsert(db.products, db.stores, db.categories, id, p);
    ItemLinksWiden(db.items, db.carts, db.products, db.carts, products);
    OrderLinksWiden(db.orders, db.carts, db.products, db.users, db.carts, products, db.users);
    assert ProductsValid(products);
  }

  lemma AddComboKeepsWellFormed(db: Db, id: Id, c: ProductCombo)
    requires WellFormed(db) && AddCombo(db, id, c).Ok?
    ensures WellFormed(AddCombo(db, id, c).value)
  {
    ComboLinksInsert(db.combos, db.stores, id, c);
    assert CombosValid(db.combos[id := c]);
  }

  lemma AddCartKeepsWellFormed(db: Db, id: Id, c: Cart)
    requires WellFormed(db) && AddCart(db, id, c).Ok?
    ensures WellFormed(AddCart(db, id, c).value)
  {
    var carts := db.carts[id := c];
    assert db.carts.Keys <= carts.Keys;
    CartLinksInsert(db.carts, db.users, id, c);
    ItemLinksWiden(db.items, db.carts, db.products, carts, db.products);
    OrderLinksWiden(db.orders, db.carts, db.products, db.users, carts, db.products, db.users);
    assert OneCartPerUser(carts);
  }

  lemma AddItemKeepsWellFormed(db: Db, id: Id, it: CartItem)
    requires WellFormed(db) && AddItem(db, id, it).Ok?
    ensures WellFormed(AddItem(db, id, it).value)
  {
    ItemLinksInsert(db.items, db.carts, db.products, id, it);
    assert ItemsValid(db.items[id := it]);
  }

  lemma AddOrderKeepsWellFormed(db: Db, id: Id, o: Order)
    requires WellFormed(db) && AddOrder(db, id, o).Ok?
    ensures WellFormed(AddOrder(db, id, o).value)
  {
    var orders := db.orders[id := o];
    assert db.orders.Keys <= orders.Keys;
    OrderLinksInsert(db.orders, db.carts, db.products, db.users, id, o);
    CourierLinksWiden(db.couriers, db.users, db.orders, db.users, orders);
    assert OrdersValid(orders);
  }

  lemma AddCourierKeepsWellFormed(db: Db, id: Id, c: Courier)
    requires WellFormed(db) && AddCourier(db, id, c).Ok?
    ensures WellFormed(AddCourier(db, id, c).value)
  {
    CourierLinksInsert(db.couriers, db.users, db.orders, id, c);
  }

  lemma AddStoreReviewKeepsWellFormed(db: Db, id: Id, sr: StoreReview)
    requires WellFormed(db) && AddStoreReview(db, id, sr).Ok?
    ensures WellFormed(AddStoreReview(db, id, sr).value)
  {
    StoreReviewLinksInsert(db.storeReviews, db.users, db.stores, id, sr);
    assert StoreReviewsValid(db.storeReviews[id := sr]);
  }

  lemma AddCourierReviewKeepsWellFormed(db: Db, id: Id, cr: CourierReview)
    requires WellFormed(db) && AddCourierReview(db, id, cr).Ok?
    ensures WellFormed(AddCourierReview(db, id, cr).value)
  {
    CourierReviewLinksInsert(db.courierReviews, db.users, id, cr);
    assert CourierReviewsValid(db.courierReviews[id := cr]);
  }

  lemma SetPriceKeepsWellFormed(db: Db, p: Id, cents: int)
    requires WellFormed(db) && SetPrice(db, p, cents).Ok?
    ensures WellFormed(SetPrice(db, p, cents).value)
  {
    var q := db.products[p];
    var products := db.products[p := q.(price := cents)];
    assert db.products.Keys <= products.Keys;
    ProductLinksInsert(db.products, db.stores, db.categories, p, q.(price := cents));
    ItemLinksWiden(db.items, db.carts, db.products, db.carts, products);
    OrderLinksWiden(db.orders, db.carts, db.products, db.users, db.carts, products, db.users);
    assert ProductsValid(products);
  }

  // The converse: the write-time checks are no stricter than the schema's
  // constraints. A write on a fresh key (an existing one, for an update)
  // whose result would be well-formed is admitted.

  lemma AddCategoryAdmits(db: Db, id: Id, c: Category)
    requires id !in db.categories
    requires WellFormed(db.(categories := db.categories[id := c]))
    ensures AddCategory(db, id, c).Ok?
  {
    var cs := db.categories[id := c];
    assert id in cs && ValidCategory(cs[id]);
    forall i | i in db.categories ensures db.categories[i].name != c.name {
      assert i in cs && cs[i] == db.categories[i];
    }
  }

  lemma RenameCategoryAdmits(db: Db, id: Id, name: string)
    requires id in db.categories
    requires WellFormed(db.(categories := db.categories[id := Category(name)]))
    ensures RenameCategory(db, id, name).Ok?
  {
    var cs := db.categories[id := Category(name)];
    assert ValidCategory(cs[id]);
    forall i | i in db.categories && i != id ensures db.categories[i].name != name {
      assert i in cs && cs[i] == db.categories[i];
    }
  }

  lemma AddStoreAdmits(db: Db, id: Id, s: Store)
    requires id !in db.stores
    requires WellFormed(db.(stores := db.stores[id := s]))
    ensures AddStore(db, id, s).Ok?
  {
    var ss := db.stores[id := s];
    assert id in ss && ss[id] == s;
  }

  lemma AddContactAdmits(db: Db, id: Id, c: ContactInfo)
    requires id !in db.contacts
    requires WellFormed(db.(contacts := db.contacts[id := c]))
    ensures AddContact(db, id, c).Ok?
  {
    var cs := db.contacts[id := c];
    assert id in cs && cs[id] == c;
  }

  lemma AddProductAdmits(db: Db, id: Id, p: Product)
    requires id !in db.products
    requires WellFormed(db.(products := db.products[id := p]))
    ensures AddProduct(db, id, p).Ok?
  {
    var ps := db.products[id := p];
    assert id in ps && ps[id] == p;
  }

  lemma AddComboAdmits(db: Db, id: Id, c: ProductCombo)
    requires id !in db.combos
    requires WellFormed(db.(combos := db.combos[id := c]))
    ensures AddCombo(db, id, c).Ok?
  {
    var cs := db.combos[id := c];
    assert id in cs && cs[id] == c;
  }

  lemma AddCartAdmits(db: Db, id: Id, c: Cart)
    requires id !in db.carts
    requires WellFormed(db.(carts := db.carts[id := c]))
    ensures AddCart(db, id, c).Ok?
  {
    var cs := db.carts[id := c];
    assert id in cs && cs[id] == c;
    forall i | i in db.carts ensures db.carts[i].user != c.user {
      assert i in cs && cs[i] == db.carts[i];
    }
  }

  lemma AddItemAdmits(db: Db, id: Id, it: CartItem)
    requires id !in db.items
    requires WellFormed(db.(items := db.items[id := it]))
    ensures AddItem(db, id, it).Ok?
  {
    var its := db.items[id := it];
    assert id in its && its[id] == it;
  }

  lemma AddOrderAdmits(db: Db, id: Id, o: Order)
    requires id !in db.orders
    requires WellFormed(db.(orders := db.orders[id := o]))
    ensures AddOrder(db, id, o).Ok?
  {
    var os := db.orders[id := o];
    assert id in os && os[id] == o;
  }

  lemma AddCourierAdmits(db: Db, id: Id, c: Courier)
    requires id !in db.couriers
    requires WellFormed(db.(couriers := db.couriers[id := c]))
    ensures AddCourier(db, id, c).Ok?
  {
    var cs := db.couriers[id := c];
    assert id in cs && cs[id] == c;
  }

  lemma AddStoreReviewAdmits(db: Db, id: Id, sr: StoreReview)
    requires id !in db.storeReviews
    requires WellFormed(db.(storeReviews := db.storeReviews[id := sr]))
    ensures AddStoreReview(db, id, sr).Ok?
  {
    var rs := db.storeReviews[id := sr];
    assert id in rs && rs[id] == sr;
  }

  lemma AddCourierReviewAdmits(db: Db, id: Id, cr: CourierReview)
    requires id !in db.courierReviews
    requires WellFormed(db.(courierReviews := db.courierReviews[id := cr]))
    ensures AddCourierReview(db, id, cr).Ok?
  {
    var rs := db.courierReviews[id := cr];
    assert id in rs && rs[id] == cr;
  }

  lemma SetPriceAdmits(db: Db, p: Id, cents: int)
    requires p in db.products
    requires WellFormed(db.(products := db.products[p := db.products[p].(price := cents)]))
    ensures SetPrice(db, p, cents).Ok?
  {
    var ps := db.products[p := db.products[p].(price := cents)];
    assert p in ps && ps[p].price == cents;
  }

  /** One request against the store: a create, an update or a delete. */
  datatype Write =
    | NewUser(id: Id, user: User)
    | NewCategory(id: Id, category: Category)
    | RenameTo(id: Id, name: string)
    | NewStore(id: Id, store: Store)
    | NewContact(id: Id, contact: ContactInfo)
    | NewProduct(id: Id, product: Product)
    | NewCombo(id: Id, combo: ProductCombo)
    | NewCart(id: Id, cart: Cart)
    | NewItem(id: Id, item: CartItem)
    | NewOrder(id: Id, order: Order)
    | NewCourier(id: Id, courier: Courier)
    | NewStoreReview(id: Id, storeReview: StoreReview)
    | NewCourierReview(id: Id, courierReview: CourierReview)
    | Reprice(productId: Id, cents: int)
    | Remove(target: Ref)

  function Apply(db: Db, w: Write): Result<Db> {
    match w
    case NewUser(id, u) => AddUser(db, id, u)
    case NewCategory(id, c) => AddCategory(db, id, c)
    case RenameTo(id, name) => RenameCategory(db, id, name)
    case NewStore(id, s) => AddStore(db, id, s)
    case NewContact(id, c) => AddContact(db, id, c)
    case NewProduct(id, p) => AddProduct(db, id, p)
    case NewCombo(id, c) => AddCombo(db, id, c)
    case NewCart(id, c) => AddCart(db, id, c)
    case NewItem(id, it) => AddItem(db, id, it)
    case NewOrder(id, o) => AddOrder(db, id, o)
    case NewCourier(id, c) => AddCourier(db, id, c)
    case NewStoreReview(id, sr) => AddStoreReview(db, id, sr)
    case NewCourierReview(id, cr) => AddCourierReview(db, id, cr)
    case Reprice(p, cents) => SetPrice(db, p, cents)
    case Remove(t) => Ok(Delete(db, t))
  }

  /** Every admitted request keeps every constraint of the schema. */
  lemma ApplyKeepsWellFormed(db: Db, w: Write)
    requires WellFormed(db)
    requires Apply(db, w).Ok?
    ensures WellFormed(Apply(db, w).value)
  {
    if w.NewUser? || w.NewCategory? || w.RenameTo? {
      CatalogueKeepsWellFormed(db, w);
    } else if w.NewStore? || w.NewContact? || w.NewProduct? {
      ShopKeepsWellFormed(db, w);
    } else if w.NewCombo? || w.NewCart? || w.NewItem? {
      CartKeepsWellFormed(db, w);
    } else if w.NewOrder? {
      OrderingKeepsWellFormed(db, w);
    } else if w.NewCourier? || w.Reprice? {
      DispatchKeepsWellFormed(db, w);
    } else if w.NewStoreReview? || w.NewCourierReview? {
      ReviewKeepsWellFormed(db, w);
    } else {
      DeleteKeepsWellFormed(db, w.target);
    }
  }

  // The same, one group of requests at a time.

  lemma CatalogueKeepsWellFormed(db: Db, w: Write)
    requires WellFormed(db)
    requires w.NewUser? || w.NewCategory? || w.RenameTo?
    requires Apply(db, w).Ok?
    ensures WellFormed(Apply(db, w).value)
  {
    match w
    case NewUser(id, u) => AddUserKeepsWellFormed(db, id, u);
    case NewCategory(id, c) => AddCategoryKeepsWellFormed(db, id, c);
    case RenameTo(id, name) => RenameCategoryKeepsWellFormed(db, id, name);
  }

  lemma ShopKeepsWellFormed(db: Db, w: Write)
    requires WellFormed(db)
    requires w.NewStore? || w.NewContact? || w.NewProduct?
    requires Apply(db, w).Ok?
    ensures WellFormed(Apply(db, w).value)
  {
    match w
    case NewStore(id, s) => AddStoreKeepsWellFormed(db, id, s);
    case NewContact(id, c) => AddContactKeepsWellFormed(db, id, c);
    case NewProduct(id, p) => AddProductKeepsWellFormed(db, id, p);
  }

  lemma CartKeepsWellFormed(db: Db, w: Write)
    requires WellFormed(db)
    requires w.NewCombo? || w.NewCart? || w.NewItem?
    requires Apply(db, w).Ok?
    ensures WellFormed(Apply(db, w).value)
  {
    match w
    case NewCombo(id, c) => AddComboKeepsWellFormed(db, id, c);
    case NewCart(id, c) => AddCartKeepsWellFormed(db, id, c);
    case NewItem(id, it) => AddItemKeepsWellFormed(db, id, it);
  }

  lemma OrderingKeepsWellFormed(db: Db, w: Write)
    requires WellFormed(db)
    requires w.NewOrder?
    requires Apply(db, w).Ok?
    ensures WellFormed(Apply(db, w).value)
  {
    AddOrderKeepsWellFormed(db, w.id, w.order);
  }

  lemma DispatchKeepsWellFormed(db: Db, w: Write)
    requires WellFormed(db)
    requires w.NewCourier? || w.Reprice?
    requires Apply(db, w).Ok?
    ensures WellFormed(Apply(db, w).value)
  {
    match w
    case NewCourier(id, c) => AddCourierKeepsWellFormed(db, id, c);
    case Reprice(p, cents) => SetPriceKeepsWellFormed(db, p, cents);
  }

  lemma ReviewKeepsWellFormed(db: Db, w: Write)
    requires WellFormed(db)
    requires w.NewStoreReview? || w.NewCourierReview?
    requires Apply(db, w).Ok?
    ensures WellFormed(Apply(db, w).value)
  {
    match w
    case NewStoreReview(id, sr) => AddStoreReviewKeepsWellFormed(db, id, sr);
    case NewCourierReview(id, cr) => AddCourierReviewKeepsWellFormed(db, id, cr);
  }

  /** A sequence of requests, each in its own transaction: a refused request
      leaves the store as it was and the next one proceeds. */
  function Replay(db: Db, ws: seq<Write>): Db
    decreases |ws|
  {
    if |ws| == 0 then db
    else
      var r := Apply(db, ws[0]);
      Replay(if r.Ok? then r.value else db, ws[1..])
  }

  lemma EmptyWellFormed()
    ensures WellFormed(Empty)
  {
  }

  /** Every store reachable from the empty one by requests satisfies every
      constraint of the schema. */
  lemma {:induction false} ReplayKeepsWellFormed(db: Db, ws: seq<Write>)
    requires WellFormed(db)
    ensures WellFormed(Replay(db, ws))
    decreases |ws|
  {
    if |ws| > 0 {
      var r := Apply(db, ws[0]);
      if r.Ok? {
        ApplyKeepsWellFormed(db, ws[0]);
      }
      ReplayKeepsWellFormed(if r.Ok? then r.value else db, ws[1..]);
    }
  }

  lemma ReachableWellFormed(ws: seq<Write>)
    ensures WellFormed(Replay(Empty, ws))
  {
    EmptyWellFormed();
    ReplayKeepsWellFormed(Empty, ws);
  }
}
