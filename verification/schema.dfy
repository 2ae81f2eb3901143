/**
 The relational store of the marketplace: one record type per model class,
 one finite map from surrogate key to record per table, and the foreign-key
 graph those records span. Every foreign key is mandatory, so each record
 names exactly the parents it references.
 */
module Schema {
  import opened Fields

  /** `UserProfile`; the inherited account fields and the phone number are
      not part of this model. */
  datatype User = User(role: Role := Client)

  datatype Category = Category(name: string)

  /** `Store`; `image` is the stored file name of the uploaded picture. */
  datatype Store = Store(
    name: string,
    description: Option<string>,
    owner: Id,
    image: string,
    category: Id,
    address: string)

  /** `ContactInfo`; `phone` is the stored number. */
  datatype ContactInfo = ContactInfo(phone: string, store: Id)

  /** `Product`; `price` is in cents, `photo` a stored file name. */
  datatype Product = Product(
    name: string,
    description: string,
    price: int,
    store: Id,
    photo: string,
    category: Id)

  /** `ProductCombo`; deliberately not linked to any `Product`. */
  datatype ProductCombo = ProductCombo(
    name: string,
    description: string,
    price: int,
    store: Id,
    photo: string)

  datatype Cart = Cart(user: Id)

  /** The source's `CarItem`: one line of a cart. */
  datatype CartItem = CartItem(cart: Id, product: Id, quantity: int := 1)

  /** The source's `Orders`; `client` and `courier` are two independent
      references into the user table and may name the same user. */
  datatype Order = Order(
    cart: Id,
    product: Id,
    client: Id,
    courier: Id,
    address: string,
    status: OrderStatus := Pending)

  /** `Courier`; `order` is the `current_orders` reference. */
  datatype Courier = Courier(user: Id, status: CourierStatus, order: Id)

  datatype StoreReview = StoreReview(client: Id, store: Id, comment: string, rating: int)

  datatype CourierReview = CourierReview(client: Id, courier: Id, comment: string, rating: int)

  datatype Db = Db(
    users: map<Id, User>,
    categories: map<Id, Category>,
    stores: map<Id, Store>,
    contacts: map<Id, ContactInfo>,
    products: map<Id, Product>,
    combos: map<Id, ProductCombo>,
    carts: map<Id, Cart>,
    items: map<Id, CartItem>,
    orders: map<Id, Order>,
    couriers: map<Id, Courier>,
    storeReviews: map<Id, StoreReview>,
    courierReviews: map<Id, CourierReview>)

  const Empty: Db := Db(map[], map[], map[], map[], map[], map[], map[], map[], map[], map[], map[], map[])

  datatype Table =
    | Users | Categories | Stores | Contacts | Products | Combos
    | Carts | CartItems | Orders | Couriers | StoreReviews | CourierReviews

  /** A row address: a table and a key in it. */
  datatype Ref = Ref(table: Table, id: Id)

  /** The keys currently in use in table `t`. */
  function Keys(db: Db, t: Table): set<Id> {
    match t
    case Users => db.users.Keys
    case Categories => db.categories.Keys
    case Stores => db.stores.Keys
    case Contacts => db.contacts.Keys
    case Products => db.products.Keys
    case Combos => db.combos.Keys
    case Carts => db.carts.Keys
    case CartItems => db.items.Keys
    case Orders => db.orders.Keys
    case Couriers => db.couriers.Keys
    case StoreReviews => db.storeReviews.Keys
    case CourierReviews => db.courierReviews.Keys
  }

  predicate Present(db: Db, r: Ref) {
    r.id in Keys(db, r.table)
  }

  /** Depth of a table in the foreign-key graph: every foreign key points to
      a table of smaller rank, so the graph has no cycle. */
  function Rank(t: Table): nat {
    match t
    case Users => 0
    case Categories => 0
    case Stores => 1
    case Carts => 1
    case CourierReviews => 1
    case Contacts => 2
    case Products => 2
    case Combos => 2
    case StoreReviews => 2
    case CartItems => 3
    case Orders => 3
    case Couriers => 4
  }

  /** The rows that row `r` references through its foreign keys (none when
      `r` is absent). */
  function Parents(db: Db, r: Ref): (ps: set<Ref>)
    ensures forall p :: p in ps ==> Rank(p.table) < Rank(r.table)
    ensures ps != {} ==> Present(db, r)
  {
    if !Present(db, r) then {}
    else match r.table
      case Users => {}
      case Categories => {}
      case Stores =>
        var s := db.stores[r.id];
        {Ref(Users, s.owner), Ref(Categories, s.category)}
      case Contacts => {Ref(Stores, db.contacts[r.id].store)}
      case Products =>
        var p := db.products[r.id];
        {Ref(Stores, p.store), Ref(Categories, p.category)}
      case Combos => {Ref(Stores, db.combos[r.id].store)}
      case Carts => {Ref(Users, db.carts[r.id].user)}
      case CartItems =>
        var it := db.items[r.id];
        {Ref(Carts, it.cart), Ref(Products, it.product)}
      case Orders =>
        var o := db.orders[r.id];
        {Ref(Carts, o.cart), Ref(Products, o.product), Ref(Users, o.client), Ref(Users, o.courier)}
      case Couriers =>
        var c := db.couriers[r.id];
        {Ref(Users, c.user), Ref(Orders, c.order)}
      case StoreReviews =>
        var sr := db.storeReviews[r.id];
        {Ref(Users, sr.client), Ref(Stores, sr.store)}
      case CourierReviews =>
        var cr := db.courierReviews[r.id];
        {Ref(Users, cr.client), Ref(Users, cr.courier)}
  }

  /** `r` is `t` or references, directly or through a chain of foreign keys,
      a row that does: the rows a cascading delete of `t` must remove. */
  ghost predicate DependsOn(db: Db, r: Ref, t: Ref)
    decreases Rank(r.table)
  {
    r == t || exists p :: p in Parents(db, r) && DependsOn(db, p, t)
  }

  // Referential integrity, one predicate per referencing table, each
  // stated over exactly the tables it mentions.

  ghost predicate StoreLinks(stores: map<Id, Store>, users: map<Id, User>, categories: map<Id, Category>) {
    forall i :: i in stores ==> stores[i].owner in users && stores[i].category in categories
  }

  ghost predicate ContactLinks(contacts: map<Id, ContactInfo>, stores: map<Id, Store>) {
    forall i :: i in contacts ==> contacts[i].store in stores
  }

  ghost predicate ProductLinks(products: map<Id, Product>, stores: map<Id, Store>, categories: map<Id, Category>) {
    forall i :: i in products ==> products[i].store in stores && products[i].category in categories
  }

  ghost predicate ComboLinks(combos: map<Id, ProductCombo>, stores: map<Id, Store>) {
    forall i :: i in combos ==> combos[i].store in stores
  }

  ghost predicate CartLinks(carts: map<Id, Cart>, users: map<Id, User>) {
    forall i :: i in carts ==> carts[i].user in users
  }

  ghost predicate ItemLinks(items: map<Id, CartItem>, carts: map<Id, Cart>, products: map<Id, Product>) {
    forall i :: i in items ==> items[i].cart in carts && items[i].product in products
  }

  ghost predicate OrderLinks(orders: map<Id, Order>, carts: map<Id, Cart>, products: map<Id, Product>, users: map<Id, User>) {
    forall i :: i in orders ==>
      && orders[i].cart in carts && orders[i].product in products
      && orders[i].client in users && orders[i].courier in users
  }

  ghost predicate CourierLinks(couriers: map<Id, Courier>, users: map<Id, User>, orders: map<Id, Order>) {
    forall i :: i in couriers ==> couriers[i].user in users && couriers[i].order in orders
  }

  ghost predicate StoreReviewLinks(reviews: map<Id, StoreReview>, users: map<Id, User>, stores: map<Id, Store>) {
    forall i :: i in reviews ==> reviews[i].client in users && reviews[i].store in stores
  }

  ghost predicate CourierReviewLinks(reviews: map<Id, CourierReview>, users: map<Id, User>) {
    forall i :: i in reviews ==> reviews[i].client in users && reviews[i].courier in users
  }

  /** Referential integrity: every foreign key of every row names a row
      that exists. */
  ghost predicate RefOk(db: Db) {
    && StoreLinks(db.stores, db.users, db.categories)
    && ContactLinks(db.contacts, db.stores)
    && ProductLinks(db.products, db.stores, db.categories)
    && ComboLinks(db.combos, db.stores)
    && CartLinks(db.carts, db.users)
    && ItemLinks(db.items, db.carts, db.products)
    && OrderLinks(db.orders, db.carts, db.products, db.users)
    && CourierLinks(db.couriers, db.users, db.orders)
    && StoreReviewLinks(db.storeReviews, db.users, db.stores)
    && CourierReviewLinks(db.courierReviews, db.users)
  }

  /** Referential integrity stated on the graph: no edge leaves the store. */
  ghost predicate Closed(db: Db) {
    forall r, p :: Present(db, r) && p in Parents(db, r) ==> Present(db, p)
  }

  /** `a` holds a subset of the rows of `b`, each unchanged. */
  ghost predicate SubMap<V>(a: map<Id, V>, b: map<Id, V>) {
    forall i :: i in a ==> i in b && a[i] == b[i]
  }

  /** Every table of `a` is a sub-map of the same table of `b`: `a` only
      lacks rows of `b`, it never alters one. */
  ghost predicate Within(a: Db, b: Db) {
    && SubMap(a.users, b.users) && SubMap(a.categories, b.categories)
    && SubMap(a.stores, b.stores) && SubMap(a.contacts, b.contacts)
    && SubMap(a.products, b.products) && SubMap(a.combos, b.combos)
    && SubMap(a.carts, b.carts) && SubMap(a.items, b.items)
    && SubMap(a.orders, b.orders) && SubMap(a.couriers, b.couriers)
    && SubMap(a.storeReviews, b.storeReviews) && SubMap(a.courierReviews, b.courierReviews)
  }

  /** The per-declaration and the graph statement of integrity agree. */
  lemma RefOkIsClosed(db: Db)
    ensures RefOk(db) <==> Closed(db)
  {
    if RefOk(db) {
      RefOkClosed(db);
    }
    if Closed(db) {
      ClosedRefOk(db);
    }
  }

  lemma RefOkClosed(db: Db)
    requires RefOk(db)
    ensures Closed(db)
  {
    forall r, p | Present(db, r) && p in Parents(db, r)
      ensures Present(db, p)
    {
      match r.table
      case Users =>
      case Categories =>
      case Stores =>
      case Contacts =>
      case Products =>
      case Combos =>
      case Carts =>
      case CartItems =>
      case Orders =>
      case Couriers =>
      case StoreReviews =>
      case CourierReviews =>
    }
  }

  lemma ClosedRefOk(db: Db)
    requires Closed(db)
    ensures RefOk(db)
  {
    ClosedCatalogueLinks(db);
    ClosedCommerceLinks(db);
  }

  lemma ClosedCatalogueLinks(db: Db)
    requires Closed(db)
    ensures StoreLinks(db.stores, db.users, db.categories)
    ensures ContactLinks(db.contacts, db.stores)
    ensures ProductLinks(db.products, db.stores, db.categories)
    ensures ComboLinks(db.combos, db.stores)
    ensures StoreReviewLinks(db.storeReviews, db.users, db.stores)
  {
    forall i | i in db.stores
      ensures db.stores[i].owner in db.users && db.stores[i].category in db.categories
    {
      var r := Ref(Stores, i);
      ClosedEdge(db, r, Ref(Users, db.stores[i].owner));
      ClosedEdge(db, r, Ref(Categories, db.stores[i].category));
    }
    forall i | i in db.contacts ensures db.contacts[i].store in db.stores {
      ClosedEdge(db, Ref(Contacts, i), Ref(Stores, db.contacts[i].store));
    }
    forall i | i in db.products
      ensures db.products[i].store in db.stores && db.products[i].category in db.categories
    {
      var r := Ref(Products, i);
      ClosedEdge(db, r, Ref(Stores, db.products[i].store));
      ClosedEdge(db, r, Ref(Categories, db.products[i].category));
    }
    forall i | i in db.combos ensures db.combos[i].store in db.stores {
      ClosedEdge(db, Ref(Combos, i), Ref(Stores, db.combos[i].store));
    }
    forall i | i in db.storeReviews
      ensures db.storeReviews[i].client in db.users && db.storeReviews[i].store in db.stores
    {
      var r := Ref(StoreReviews, i);
      ClosedEdge(db, r, Ref(Users, db.storeReviews[i].client));
      ClosedEdge(db, r, Ref(Stores, db.storeReviews[i].store));
    }
  }

  lemma ClosedCommerceLinks(db: Db)
    requires Closed(db)
    ensures CartLinks(db.carts, db.users)
    ensures ItemLinks(db.items, db.carts, db.products)
    ensures OrderLinks(db.orders, db.carts, db.products, db.users)
    ensures CourierLinks(db.couriers, db.users, db.orders)
    ensures CourierReviewLinks(db.courierReviews, db.users)
  {
    forall i | i in db.carts ensures db.carts[i].user in db.users {
      ClosedEdge(db, Ref(Carts, i), Ref(Users, db.carts[i].user));
    }
    forall i | i in db.items
      ensures db.items[i].cart in db.carts && db.items[i].product in db.products
    {
      var r := Ref(CartItems, i);
      ClosedEdge(db, r, Ref(Carts, db.items[i].cart));
      ClosedEdge(db, r, Ref(Products, db.items[i].product));
    }
    forall i | i in db.orders
      ensures && db.orders[i].cart in db.carts && db.orders[i].product in db.products
              && db.orders[i].client in db.users && db.orders[i].courier in db.users
    {
      var r := Ref(Orders, i);
      ClosedEdge(db, r, Ref(Carts, db.orders[i].cart));
      ClosedEdge(db, r, Ref(Products, db.orders[i].product));
      ClosedEdge(db, r, Ref(Users, db.orders[i].client));
      ClosedEdge(db, r, Ref(Users, db.orders[i].courier));
    }
    forall i | i in db.couriers
      ensures db.couriers[i].user in db.users && db.couriers[i].order in db.orders
    {
      var r := Ref(Couriers, i);
      ClosedEdge(db, r, Ref(Users, db.couriers[i].user));
      ClosedEdge(db, r, Ref(Orders, db.couriers[i].order));
    }
    forall i | i in db.courierReviews
      ensures db.courierReviews[i].client in db.users && db.courierReviews[i].courier in db.users
    {
      var r := Ref(CourierReviews, i);
      ClosedEdge(db, r, Ref(Users, db.courierReviews[i].client));
      ClosedEdge(db, r, Ref(Users, db.courierReviews[i].courier));
    }
  }

  lemma ClosedEdge(db: Db, r: Ref, p: Ref)
    requires Closed(db)
    requires Present(db, r)
    requires p in Parents(db, r)
    ensures Present(db, p)
  {
  }

  /** A sub-store keeps the rows it has with the same parents. */
  lemma WithinParents(a: Db, b: Db, r: Ref)
    requires Within(a, b)
    requires Present(a, r)
    ensures Present(b, r)
    ensures Parents(a, r) == Parents(b, r)
  {
  }

  /** A dependency chain in a sub-store is one in the larger store as well. */
  lemma {:induction false} WithinDependsOn(a: Db, b: Db, r: Ref, t: Ref)
    requires Within(a, b)
    ensures DependsOn(a, r, t) ==> DependsOn(b, r, t)
    decreases Rank(r.table)
  {
    if r != t && DependsOn(a, r, t) {
      var p :| p in Parents(a, r) && DependsOn(a, p, t);
      WithinParents(a, b, r);
      WithinDependsOn(a, b, p, t);
    }
  }

  /** In a store with integrity, a chain of references from a present row
      only reaches present rows. */
  lemma {:induction false} ClosedDependsOn(db: Db, r: Ref, t: Ref)
    requires Closed(db)
    requires Present(db, r)
    ensures DependsOn(db, r, t) ==> Present(db, t)
    decreases Rank(r.table)
  {
    if r != t && DependsOn(db, r, t) {
      var p :| p in Parents(db, r) && DependsOn(db, p, t);
      ClosedEdge(db, r, p);
      ClosedDependsOn(db, p, t);
    }
  }

  /** A sub-store with the same keys in every table is the store itself. */
  lemma WithinSameKeys(a: Db, b: Db)
    requires Within(a, b)
    requires forall t :: Keys(b, t) <= Keys(a, t)
    ensures a == b
  {
    assert Keys(b, Users) <= Keys(a, Users);
    SubMapSameKeys(a.users, b.users);
    assert Keys(b, Categories) <= Keys(a, Categories);
    SubMapSameKeys(a.categories, b.categories);
    assert Keys(b, Stores) <= Keys(a, Stores);
    SubMapSameKeys(a.stores, b.stores);
    assert Keys(b, Contacts) <= Keys(a, Contacts);
    SubMapSameKeys(a.contacts, b.contacts);
    assert Keys(b, Products) <= Keys(a, Products);
    SubMapSameKeys(a.products, b.products);
    assert Keys(b, Combos) <= Keys(a, Combos);
    SubMapSameKeys(a.combos, b.combos);
    assert Keys(b, Carts) <= Keys(a, Carts);
    SubMapSameKeys(a.carts, b.carts);
    assert Keys(b, CartItems) <= Keys(a, CartItems);
    SubMapSameKeys(a.items, b.items);
    assert Keys(b, Orders) <= Keys(a, Orders);
    SubMapSameKeys(a.orders, b.orders);
    assert Keys(b, Couriers) <= Keys(a, Couriers);
    SubMapSameKeys(a.couriers, b.couriers);
    assert Keys(b, StoreReviews) <= Keys(a, StoreReviews);
    SubMapSameKeys(a.storeReviews, b.storeReviews);
    assert Keys(b, CourierReviews) <= Keys(a, CourierReviews);
    SubMapSameKeys(a.courierReviews, b.courierReviews);
  }

  /** A sub-map with all the keys of the larger map is that map. */
  lemma SubMapSameKeys<V>(a: map<Id, V>, b: map<Id, V>)
    requires SubMap(a, b)
    requires b.Keys <= a.Keys
    ensures a == b
  {
  }
}
