/**
 The write-time constraints of the schema: what each field declaration
 admits (blank, max_length, choices, decimal precision, integer range), the
 two uniqueness constraints (category name, one cart per user), and the
 well-formedness of a whole store, which also demands referential integrity.
 */
module Constraints {
  import opened Fields
  import opened Schema

  predicate ValidCategory(c: Category) {
    BoundedText(c.name, CategoryNameMax)
  }

  /** The description is nullable and may be blank; the image is
      required. */
  predicate ValidStore(s: Store) {
    && BoundedText(s.name, StoreNameMax) && BoundedText(s.image, ImageNameMax)
    && BoundedText(s.address, StoreAddressMax)
  }

  /** The number is required; its format is the phone library's concern. */
  predicate ValidContact(c: ContactInfo) {
    BoundedText(c.phone, PhoneMax)
  }

  /** The text columns of a product: name, description and photo. */
  predicate ProductTextOk(p: Product) {
    BoundedText(p.name, ProductNameMax) && RequiredText(p.description) && BoundedText(p.photo, ImageNameMax)
  }

  predicate ValidProduct(p: Product) {
    ProductTextOk(p) && PriceFits(p.price)
  }

  /** The text columns of a combo: name, description and photo. */
  predicate ComboTextOk(c: ProductCombo) {
    BoundedText(c.name, ComboNameMax) && RequiredText(c.description) && BoundedText(c.photo, ImageNameMax)
  }

  predicate ValidCombo(c: ProductCombo) {
    ComboTextOk(c) && PriceFits(c.price)
  }

  predicate ValidItem(it: CartItem) {
    SmallPositive(it.quantity)
  }

  predicate ValidOrder(o: Order) {
    BoundedText(o.address, DeliveryAddressMax)
  }

  predicate ValidStoreReview(r: StoreReview) {
    RequiredText(r.comment) && RatingInRange(r.rating)
  }

  predicate ValidCourierReview(r: CourierReview) {
    RequiredText(r.comment) && RatingInRange(r.rating)
  }

  /** Some category other than `except` is already called `name`. */
  predicate NameTaken(db: Db, name: string, except: Option<Id>) {
    exists i :: i in db.categories && Some(i) != except && db.categories[i].name == name
  }

  /** Some cart already belongs to `user`. */
  predicate HasCart(db: Db, user: Id) {
    exists i :: i in db.carts && db.carts[i].user == user
  }

  ghost predicate UniqueCategoryNames(categories: map<Id, Category>) {
    forall i, j :: i in categories && j in categories && categories[i].name == categories[j].name ==> i == j
  }

  ghost predicate OneCartPerUser(carts: map<Id, Cart>) {
    forall i, j :: i in carts && j in carts && carts[i].user == carts[j].user ==> i == j
  }

  // Every stored value lies in its declared domain, one predicate per table.

  ghost predicate CategoriesValid(categories: map<Id, Category>) {
    forall i :: i in categories ==> ValidCategory(categories[i])
  }

  ghost predicate StoresValid(stores: map<Id, Store>) {
    forall i :: i in stores ==> ValidStore(stores[i])
  }

  ghost predicate ContactsValid(contacts: map<Id, ContactInfo>) {
    forall i :: i in contacts ==> ValidContact(contacts[i])
  }

  ghost predicate ProductsValid(products: map<Id, Product>) {
    forall i :: i in products ==> ValidProduct(products[i])
  }

  ghost predicate CombosValid(combos: map<Id, ProductCombo>) {
    forall i :: i in combos ==> ValidCombo(combos[i])
  }

  ghost predicate ItemsValid(items: map<Id, CartItem>) {
    forall i :: i in items ==> ValidItem(items[i])
  }

  ghost predicate OrdersValid(orders: map<Id, Order>) {
    forall i :: i in orders ==> ValidOrder(orders[i])
  }

  ghost predicate StoreReviewsValid(reviews: map<Id, StoreReview>) {
    forall i :: i in reviews ==> ValidStoreReview(reviews[i])
  }

  ghost predicate CourierReviewsValid(reviews: map<Id, CourierReview>) {
    forall i :: i in reviews ==> ValidCourierReview(reviews[i])
  }

  ghost predicate ValuesOk(db: Db) {
    && CategoriesValid(db.categories) && StoresValid(db.stores) && ContactsValid(db.contacts)
    && ProductsValid(db.products) && CombosValid(db.combos)
    && ItemsValid(db.items) && OrdersValid(db.orders)
    && StoreReviewsValid(db.storeReviews) && CourierReviewsValid(db.courierReviews)
  }

  /** A store every write keeps: all constraints of the schema hold. */
  ghost predicate WellFormed(db: Db) {
    && RefOk(db)
    && UniqueCategoryNames(db.categories)
    && OneCartPerUser(db.carts)
    && ValuesOk(db)
  }

  /** Removing rows can break no constraint other than referential
      integrity. */
  lemma WithinKeepsValues(a: Db, b: Db)
    requires Within(a, b)
    requires UniqueCategoryNames(b.categories) && OneCartPerUser(b.carts) && ValuesOk(b)
    ensures UniqueCategoryNames(a.categories) && OneCartPerUser(a.carts) && ValuesOk(a)
  {
  }
}
