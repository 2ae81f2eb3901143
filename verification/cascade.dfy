/**
 Deletion under `on_delete=CASCADE` on every foreign key: deleting a row
 removes every row that references it, directly or through a chain of
 references. The closure is computed table by table in the order of the
 foreign-key graph (a parent table always before its children), which is
 possible because that graph has no cycle.
 */
module Cascade {
  import opened Fields
  import opened Schema
  import opened Constraints

  /** The deleted row itself, when it lives in table `t`. */
  function Seed(target: Ref, t: Table): set<Id> {
    if target.table == t then {target.id} else {}
  }

  // The victims of each table: the target itself plus the rows whose
  // foreign keys name a victim of a parent table.

  function DoomedUsers(target: Ref): set<Id> {
    Seed(target, Users)
  }

  function DoomedCategories(target: Ref): set<Id> {
    Seed(target, Categories)
  }

  function DoomedStores(db: Db, target: Ref): set<Id> {
    var users := DoomedUsers(target);
    var categories := DoomedCategories(target);
    Seed(target, Stores) +
      (set i | i in db.stores && (db.stores[i].owner in users || db.stores[i].category in categories))
  }

  function DoomedContacts(db: Db, target: Ref): set<Id> {
    var stores := DoomedStores(db, target);
    Seed(target, Contacts) + (set i | i in db.contacts && db.contacts[i].store in stores)
  }

  function DoomedProducts(db: Db, target: Ref): set<Id> {
    var stores := DoomedStores(db, target);
    var categories := DoomedCategories(target);
    Seed(target, Products) +
      (set i | i in db.products && (db.products[i].store in stores || db.products[i].category in categories))
  }

  function DoomedCombos(db: Db, target: Ref): set<Id> {
    var stores := DoomedStores(db, target);
    Seed(target, Combos) + (set i | i in db.combos && db.combos[i].store in stores)
  }

  function DoomedCarts(db: Db, target: Ref): set<Id> {
    var users := DoomedUsers(target);
    Seed(target, Carts) + (set i | i in db.carts && db.carts[i].user in users)
  }

  function DoomedItems(db: Db, target: Ref): set<Id> {
    var carts := DoomedCarts(db, target);
    var products := DoomedProducts(db, target);
    Seed(target, CartItems) +
      (set i | i in db.items && (db.items[i].cart in carts || db.items[i].product in products))
  }

  function DoomedOrders(db: Db, target: Ref): set<Id> {
    var users := DoomedUsers(target);
    var carts := DoomedCarts(db, target);
    var products := DoomedProducts(db, target);
    Seed(target, Orders) +
      (set i | i in db.orders &&
        (|| db.orders[i].cart in carts || db.orders[i].product in products
         || db.orders[i].client in users || db.orders[i].courier in users))
  }

  function DoomedCouriers(db: Db, target: Ref): set<Id> {
    var users := DoomedUsers(target);
    var orders := DoomedOrders(db, target);
    Seed(target, Couriers) +
      (set i | i in db.couriers && (db.couriers[i].user in users || db.couriers[i].order in orders))
  }

  function DoomedStoreReviews(db: Db, target: Ref): set<Id> {
    var users := DoomedUsers(target);
    var stores := DoomedStores(db, target);
    Seed(target, StoreReviews) +
      (set i | i in db.storeReviews &&
        (db.storeReviews[i].client in users || db.storeReviews[i].store in stores))
  }

  function DoomedCourierReviews(db: Db, target: Ref): set<Id> {
    var users := DoomedUsers(target);
    Seed(target, CourierReviews) +
      (set i | i in db.courierReviews &&
        (db.courierReviews[i].client in users || db.courierReviews[i].courier in users))
  }

  /** The cascade closure of deleting `target`, restricted to table `t`. */
  function Doomed(db: Db, target: Ref, t: Table): set<Id> {
    match t
    case Users => DoomedUsers(target)
    case Categories => DoomedCategories(target)
    case Stores => DoomedStores(db, target)
    case Contacts => DoomedContacts(db, target)
    case Products => DoomedProducts(db, target)
    case Combos => DoomedCombos(db, target)
    case Carts => DoomedCarts(db, target)
    case CartItems => DoomedItems(db, target)
    case Orders => DoomedOrders(db, target)
    case Couriers => DoomedCouriers(db, target)
    case StoreReviews => DoomedStoreReviews(db, target)
    case CourierReviews => DoomedCourierReviews(db, target)
  }

  /** `target.delete()`: the store without the cascade closure of `target`.
      Deleting a key that is not present is not an error. */
  function Delete(db: Db, target: Ref): (r: Db)
    ensures Within(r, db)
  {
    Db(db.users - DoomedUsers(target),
       db.categories - DoomedCategories(target),
       db.stores - DoomedStores(db, target),
       db.contacts - DoomedContacts(db, target),
       db.products - DoomedProducts(db, target),
       db.combos - DoomedCombos(db, target),
       db.carts - DoomedCarts(db, target),
       db.items - DoomedItems(db, target),
       db.orders - DoomedOrders(db, target),
       db.couriers - DoomedCouriers(db, target),
       db.storeReviews - DoomedStoreReviews(db, target),
       db.courierReviews - DoomedCourierReviews(db, target))
  }

  /** Row `r` survives the delete exactly when it was present and not
      marked by the closure. */
  lemma DeletePresent(db: Db, target: Ref, r: Ref)
    ensures Present(Delete(db, target), r) <==> Present(db, r) && r.id !in Doomed(db, target, r.table)
  {
    var d := Delete(db, target);
    match r.table
    case Users => assert d.users == db.users - DoomedUsers(target);
    case Categories => assert d.categories == db.categories - DoomedCategories(target);
    case Stores => assert d.stores == db.stores - DoomedStores(db, target);
    case Contacts => assert d.contacts == db.contacts - DoomedContacts(db, target);
    case Products => assert d.products == db.products - DoomedProducts(db, target);
    case Combos => assert d.combos == db.combos - DoomedCombos(db, target);
    case Carts => assert d.carts == db.carts - DoomedCarts(db, target);
    case CartItems => assert d.items == db.items - DoomedItems(db, target);
    case Orders => assert d.orders == db.orders - DoomedOrders(db, target);
    case Couriers => assert d.couriers == db.couriers - DoomedCouriers(db, target);
    case StoreReviews => assert d.storeReviews == db.storeReviews - DoomedStoreReviews(db, target);
    case CourierReviews => assert d.courierReviews == db.courierReviews - DoomedCourierReviews(db, target);
  }

  /** Two-parent unfolding of `DependsOn`. */
  lemma DependsOnTwo(db: Db, r: Ref, t: Ref, a: Ref, b: Ref)
    requires Parents(db, r) == {a, b}
    ensures DependsOn(db, r, t) <==> r == t || DependsOn(db, a, t) || DependsOn(db, b, t)
  {
    if DependsOn(db, a, t) {
      assert a in Parents(db, r);
    }
    if DependsOn(db, b, t) {
      assert b in Parents(db, r);
    }
  }

  /** One-parent unfolding of `DependsOn`. */
  lemma DependsOnOne(db: Db, r: Ref, t: Ref, a: Ref)
    requires Parents(db, r) == {a}
    ensures DependsOn(db, r, t) <==> r == t || DependsOn(db, a, t)
  {
    if DependsOn(db, a, t) {
      assert a in Parents(db, r);
    }
  }

  /** Unfolding of `DependsOn` at an order, which has four parents. */
  lemma DependsOnOrder(db: Db, r: Ref, t: Ref)
    requires r.table == Orders && r.id in db.orders
    ensures var o := db.orders[r.id];
      DependsOn(db, r, t) <==>
        || r == t || DependsOn(db, Ref(Carts, o.cart), t) || DependsOn(db, Ref(Products, o.product), t)
        || DependsOn(db, Ref(Users, o.client), t) || DependsOn(db, Ref(Users, o.courier), t)
  {
    var o := db.orders[r.id];
    var ps := Parents(db, r);
    assert ps == {Ref(Carts, o.cart), Ref(Products, o.product), Ref(Users, o.client), Ref(Users, o.courier)};
    if DependsOn(db, r, t) && r != t {
      var p :| p in ps && DependsOn(db, p, t);
    }
    if DependsOn(db, Ref(Carts, o.cart), t) {
      assert Ref(Carts, o.cart) in ps;
    }
    if DependsOn(db, Ref(Products, o.product), t) {
      assert Ref(Products, o.product) in ps;
    }
    if DependsOn(db, Ref(Users, o.client), t) {
      assert Ref(Users, o.client) in ps;
    }
    if DependsOn(db, Ref(Users, o.courier), t) {
      assert Ref(Users, o.courier) in ps;
    }
  }

  /** The closure agrees with `DependsOn` at row `r`. */
  ghost predicate Agrees(db: Db, target: Ref, r: Ref) {
    r.id in Doomed(db, target, r.table) <==> DependsOn(db, r, target)
  }

  // The closure agrees with `DependsOn` table by table, in the order of
  // the foreign-key graph: agreement at a row's parents gives agreement at
  // the row.

  lemma UsersAgree(db: Db, target: Ref, id: Id)
    ensures Agrees(db, target, Ref(Users, id))
  {
    var r := Ref(Users, id);
    assert Parents(db, r) == {};
  }

  lemma CategoriesAgree(db: Db, target: Ref, id: Id)
    ensures Agrees(db, target, Ref(Categories, id))
  {
    var r := Ref(Categories, id);
    assert Parents(db, r) == {};
  }

  lemma StoresAgree(db: Db, target: Ref, id: Id)
    ensures Agrees(db, target, Ref(Stores, id))
  {
    var r := Ref(Stores, id);
    if id in db.stores {
      var x := db.stores[id];
      UsersAgree(db, target, x.owner);
      CategoriesAgree(db, target, x.category);
      DependsOnTwo(db, r, target, Ref(Users, x.owner), Ref(Categories, x.category));
    } else {
      assert Parents(db, r) == {};
    }
  }

  lemma CartsAgree(db: Db, target: Ref, id: Id)
    ensures Agrees(db, target, Ref(Carts, id))
  {
    var r := Ref(Carts, id);
    if id in db.carts {
      var x := db.carts[id];
      UsersAgree(db, target, x.user);
      DependsOnOne(db, r, target, Ref(Users, x.user));
    } else {
      assert Parents(db, r) == {};
    }
  }

  lemma CourierReviewsAgree(db: Db, target: Ref, id: Id)
    ensures Agrees(db, target, Ref(CourierReviews, id))
  {
    var r := Ref(CourierReviews, id);
    if id in db.courierReviews {
      var x := db.courierReviews[id];
      UsersAgree(db, target, x.client);
      UsersAgree(db, target, x.courier);
      DependsOnTwo(db, r, target, Ref(Users, x.client), Ref(Users, x.courier));
    } else {
      assert Parents(db, r) == {};
    }
  }

  lemma ContactsAgree(db: Db, target: Ref, id: Id)
    ensures Agrees(db, target, Ref(Contacts, id))
  {
    var r := Ref(Contacts, id);
    if id in db.contacts {
      var x := db.contacts[id];
      StoresAgree(db, target, x.store);
      DependsOnOne(db, r, target, Ref(Stores, x.store));
    } else {
      assert Parents(db, r) == {};
    }
  }

  lemma ProductsAgree(db: Db, target: Ref, id: Id)
    ensures Agrees(db, target, Ref(Products, id))
  {
    var r := Ref(Products, id);
    if id in db.products {
      var x := db.products[id];
      StoresAgree(db, target, x.store);
      CategoriesAgree(db, target, x.category);
      DependsOnTwo(db, r, target, Ref(Stores, x.store), Ref(Categories, x.category));
    } else {
      assert Parents(db, r) == {};
    }
  }

  lemma CombosAgree(db: Db, target: Ref, id: Id)
    ensures Agrees(db, target, Ref(Combos, id))
  {
    var r := Ref(Combos, id);
    if id in db.combos {
      var x := db.combos[id];
      StoresAgree(db, target, x.store);
      DependsOnOne(db, r, target, Ref(Stores, x.store));
    } else {
      assert Parents(db, r) == {};
    }
  }

  lemma StoreReviewsAgree(db: Db, target: Ref, id: Id)
    ensures Agrees(db, target, Ref(StoreReviews, id))
  {
    var r := Ref(StoreReviews, id);
    if id in db.storeReviews {
      var x := db.storeReviews[id];
      UsersAgree(db, target, x.client);
      StoresAgree(db, target, x.store);
      DependsOnTwo(db, r, target, Ref(Users, x.client), Ref(Stores, x.store));
    } else {
      assert Parents(db, r) == {};
    }
  }

  lemma ItemsAgree(db: Db, target: Ref, id: Id)
    ensures Agrees(db, target, Ref(CartItems, id))
  {
    var r := Ref(CartItems, id);
    if id in db.items {
      var x := db.items[id];
      CartsAgree(db, target, x.cart);
      ProductsAgree(db, target, x.product);
      assert id in DoomedItems(db, target) <==>
        r == target || x.cart in DoomedCarts(db, target) || x.product in DoomedProducts(db, target);
      DependsOnTwo(db, r, target, Ref(Carts, x.cart), Ref(Products, x.product));
    } else {
      assert Parents(db, r) == {};
    }
  }

  lemma OrdersAgree(db: Db, target: Ref, id: Id)
    ensures Agrees(db, target, Ref(Orders, id))
  {
    var r := Ref(Orders, id);
    if id in db.orders {
      var x := db.orders[id];
      CartsAgree(db, target, x.cart);
      ProductsAgree(db, target, x.product);
      UsersAgree(db, target, x.client);
      UsersAgree(db, target, x.courier);
      assert id in DoomedOrders(db, target) <==>
        || r == target || x.cart in DoomedCarts(db, target) || x.product in DoomedProducts(db, target)
        || x.client in DoomedUsers(target) || x.courier in DoomedUsers(target);
      DependsOnOrder(db, r, target);
    } else {
      assert Parents(db, r) == {};
    }
  }

  lemma CouriersAgree(db: Db, target: Ref, id: Id)
    ensures Agrees(db, target, Ref(Couriers, id))
  {
    var r := Ref(Couriers, id);
    if id in db.couriers {
      var x := db.couriers[id];
      UsersAgree(db, target, x.user);
      OrdersAgree(db, target, x.order);
      assert id in DoomedCouriers(db, target) <==>
        r == target || x.user in DoomedUsers(target) || x.order in DoomedOrders(db, target);
      DependsOnTwo(db, r, target, Ref(Users, x.user), Ref(Orders, x.order));
    } else {
      assert Parents(db, r) == {};
    }
  }

  /** The table-by-table closure marks exactly the rows that depend on the
      target through the foreign-key graph. */
  lemma DoomedExactly(db: Db, target: Ref, r: Ref)
    ensures r.id in Doomed(db, target, r.table) <==> DependsOn(db, r, target)
  {
    match r.table
    case Users => UsersAgree(db, target, r.id);
    case Categories => CategoriesAgree(db, target, r.id);
    case Stores => StoresAgree(db, target, r.id);
    case Carts => CartsAgree(db, target, r.id);
    case CourierReviews => CourierReviewsAgree(db, target, r.id);
    case Contacts => ContactsAgree(db, target, r.id);
    case Products => ProductsAgree(db, target, r.id);
    case Combos => CombosAgree(db, target, r.id);
    case StoreReviews => StoreReviewsAgree(db, target, r.id);
    case CartItems => ItemsAgree(db, target, r.id);
    case Orders => OrdersAgree(db, target, r.id);
    case Couriers => CouriersAgree(db, target, r.id);
  }

  /** Exactly the dependent rows disappear: a row is present after the
      delete if and only if it was present before and does not depend on the
      deleted row. Together with `Within` (each surviving row is unchanged)
      this says that nothing else changes. */
  lemma DeleteExactly(db: Db, target: Ref, r: Ref)
    ensures Present(Delete(db, target), r) <==> Present(db, r) && !DependsOn(db, r, target)
  {
    DeletePresent(db, target, r);
    DoomedExactly(db, target, r);
  }

  /** The deleted row is gone. */
  lemma DeleteRemovesTarget(db: Db, target: Ref)
    ensures !Present(Delete(db, target), target)
  {
    DeleteExactly(db, target, target);
  }

  /** Referential integrity survives every cascading delete: no remaining
      row references a removed one. */
  lemma DeleteKeepsIntegrity(db: Db, target: Ref)
    requires RefOk(db)
    ensures RefOk(Delete(db, target))
  {
    var d := Delete(db, target);
    RefOkIsClosed(db);
    forall r, p | Present(d, r) && p in Parents(d, r)
      ensures Present(d, p)
    {
      WithinParents(d, db, r);
      DeleteExactly(db, target, r);
      DeleteExactly(db, target, p);
      ClosedEdge(db, r, p);
      assert !DependsOn(db, p, target);
    }
    RefOkIsClosed(d);
  }

  /** Every constraint of the schema survives every cascading delete. */
  lemma DeleteKeepsWellFormed(db: Db, target: Ref)
    requires WellFormed(db)
    ensures WellFormed(Delete(db, target))
  {
    DeleteKeepsIntegrity(db, target);
    WithinKeepsValues(Delete(db, target), db);
  }

  /** Deleting a row that is not there changes nothing, provided the store
      has integrity (otherwise a dangling reference to it would cascade). */
  lemma DeleteAbsent(db: Db, target: Ref)
    requires RefOk(db)
    requires !Present(db, target)
    ensures Delete(db, target) == db
  {
    var d := Delete(db, target);
    RefOkIsClosed(db);
    forall t ensures Keys(db, t) <= Keys(d, t) {
      forall i | i in Keys(db, t) ensures i in Keys(d, t) {
        var r := Ref(t, i);
        ClosedDependsOn(db, r, target);
        DeleteExactly(db, target, r);
      }
    }
    WithinSameKeys(d, db);
  }

  /** Deleting the same row twice is the same as deleting it once. */
  lemma DeleteIdempotent(db: Db, target: Ref)
    ensures Delete(Delete(db, target), target) == Delete(db, target)
  {
    var d := Delete(db, target);
    var dd := Delete(d, target);
    forall t ensures Keys(d, t) <= Keys(dd, t) {
      forall i | i in Keys(d, t) ensures i in Keys(dd, t) {
        var r := Ref(t, i);
        DeleteExactly(db, target, r);
        DeleteExactly(d, target, r);
        WithinDependsOn(d, db, r, target);
      }
    }
    WithinSameKeys(dd, d);
  }

  /** Removing keys none of which is present leaves a table as it is. */
  lemma NothingRemoved<V>(m: map<Id, V>, s: set<Id>)
    requires forall i :: i in s ==> i !in m
    ensures m - s == m
  {
  }

  /** Removing either of two sets that agree on the keys of a table leaves
      the same table. */
  lemma SameRemoved<V>(m: map<Id, V>, s1: set<Id>, s2: set<Id>)
    requires forall i :: i in m ==> (i in s1 <==> i in s2)
    ensures m - s1 == m - s2
  {
  }

  /** Deleting a store removes the rows that reference it directly: its
      contact numbers, products, combos and reviews. */
  lemma DeleteStoreDirect(db: Db, s: Id)
    ensures var d := Delete(db, Ref(Stores, s));
      && s !in d.stores
      && (forall i :: i in db.contacts && db.contacts[i].store == s ==> i !in d.contacts)
      && (forall i :: i in db.products && db.products[i].store == s ==> i !in d.products)
      && (forall i :: i in db.combos && db.combos[i].store == s ==> i !in d.combos)
      && (forall i :: i in db.storeReviews && db.storeReviews[i].store == s ==> i !in d.storeReviews)
  {
  }

  /** Deleting a store also removes, through its products, the cart lines
      and orders of those products, and through those orders the couriers
      whose current order goes. */
  lemma DeleteStoreTransitive(db: Db, s: Id)
    ensures var d := Delete(db, Ref(Stores, s));
      && (forall i :: i in db.items && db.items[i].product in db.products && db.products[db.items[i].product].store == s ==> i !in d.items)
      && (forall i :: i in db.orders && db.orders[i].product in db.products && db.products[db.orders[i].product].store == s ==> i !in d.orders)
      && (forall i :: i in db.couriers && db.couriers[i].order in db.orders && db.couriers[i].order !in d.orders ==> i !in d.couriers)
  {
  }

  /** Deleting a store leaves users, categories, carts and courier reviews
      alone. */
  lemma DeleteStoreSpares(db: Db, s: Id)
    ensures var d := Delete(db, Ref(Stores, s));
      && d.users == db.users && d.categories == db.categories
      && d.carts == db.carts && d.courierReviews == db.courierReviews
  {
    var t := Ref(Stores, s);
    var d := Delete(db, t);
    NothingRemoved(db.users, DoomedUsers(t));
    NothingRemoved(db.categories, DoomedCategories(t));
    NothingRemoved(db.carts, DoomedCarts(db, t));
    NothingRemoved(db.courierReviews, DoomedCourierReviews(db, t));
  }

  /** Deleting a user removes that user and no other, and every category
      stays. */
  lemma DeleteUserSpares(db: Db, u: Id)
    ensures var d := Delete(db, Ref(Users, u));
      d.users == db.users - {u} && d.categories == db.categories
  {
    var t := Ref(Users, u);
    SameRemoved(db.users, DoomedUsers(t), {u});
    NothingRemoved(db.categories, DoomedCategories(t));
  }

  /** Deleting a user removes their cart, their stores, the orders where
      they are client or courier and their courier rows. */
  lemma DeleteUserCascade(db: Db, u: Id)
    ensures var d := Delete(db, Ref(Users, u));
      && (forall i :: i in db.carts && db.carts[i].user == u ==> i !in d.carts)
      && (forall i :: i in db.stores && db.stores[i].owner == u ==> i !in d.stores)
      && (forall i :: i in db.orders && (db.orders[i].client == u || db.orders[i].courier == u) ==> i !in d.orders)
      && (forall i :: i in db.couriers && db.couriers[i].user == u ==> i !in d.couriers)
  {
  }

  /** Deleting a user removes the store reviews they wrote and the courier
      reviews on either side. */
  lemma DeleteUserReviews(db: Db, u: Id)
    ensures var d := Delete(db, Ref(Users, u));
      && (forall i :: i in db.storeReviews && db.storeReviews[i].client == u ==> i !in d.storeReviews)
      && (forall i :: i in db.courierReviews && (db.courierReviews[i].client == u || db.courierReviews[i].courier == u) ==> i !in d.courierReviews)
  {
  }

  /** Deleting a category removes its stores and its products, and the
      products of the removed stores. */
  lemma DeleteCategoryCascade(db: Db, c: Id)
    ensures var d := Delete(db, Ref(Categories, c));
      && d.categories == db.categories - {c}
      && (forall i :: i in db.stores && db.stores[i].category == c ==> i !in d.stores)
      && (forall i :: i in db.products && db.products[i].category == c ==> i !in d.products)
      && (forall i :: i in db.products && db.products[i].store in db.stores && db.products[i].store !in d.stores ==> i !in d.products)
  {
  }

  /** Deleting a category leaves users, carts and courier reviews alone. */
  lemma DeleteCategorySpares(db: Db, c: Id)
    ensures var d := Delete(db, Ref(Categories, c));
      d.users == db.users && d.carts == db.carts && d.courierReviews == db.courierReviews
  {
    var t := Ref(Categories, c);
    NothingRemoved(db.users, DoomedUsers(t));
    NothingRemoved(db.carts, DoomedCarts(db, t));
    NothingRemoved(db.courierReviews, DoomedCourierReviews(db, t));
  }

  /** Deleting a product removes the cart lines and orders that reference it
      and the couriers whose current order is one of those orders. */
  lemma DeleteProductCascade(db: Db, p: Id)
    ensures var d := Delete(db, Ref(Products, p));
      && (forall i :: i in db.items && db.items[i].product == p ==> i !in d.items)
      && (forall i :: i in db.orders && db.orders[i].product == p ==> i !in d.orders)
      && (forall i :: i in db.couriers && db.couriers[i].order in db.orders && db.orders[db.couriers[i].order].product == p ==> i !in d.couriers)
  {
  }

  /** Deleting a product removes that product and no other, and leaves the
      catalogue above it, the users and the carts alone. */
  lemma DeleteProductSpares(db: Db, p: Id)
    ensures var d := Delete(db, Ref(Products, p));
      && d.products == db.products - {p}
      && d.users == db.users && d.categories == db.categories && d.stores == db.stores
      && d.contacts == db.contacts && d.combos == db.combos && d.carts == db.carts
  {
    var t := Ref(Products, p);
    NothingRemoved(db.stores, DoomedStores(db, t));
    SameRemoved(db.products, DoomedProducts(db, t), {p});
    NothingRemoved(db.users, DoomedUsers(t));
    NothingRemoved(db.categories, DoomedCategories(t));
    NothingRemoved(db.contacts, DoomedContacts(db, t));
    NothingRemoved(db.combos, DoomedCombos(db, t));
    NothingRemoved(db.carts, DoomedCarts(db, t));
  }
}
