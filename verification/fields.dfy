/**
 Value domains of the marketplace schema: surrogate keys, the closed choice
 enumerations, the bounds a field declaration puts on its values, and the
 errors a rejected write reports.
 */
module Fields {

  /** System-assigned surrogate key of a row. */
  type Id = nat

  datatype Option<+T> = None | Some(value: T)

  /** Why a write was refused. */
  datatype Error =
    | KeyTaken          // the primary key is already in use in that table
    | NotFound          // an update names a row that does not exist
    | MissingRelation   // a mandatory foreign key names no existing row
    | NotUnique         // a unique or one-to-one column would hold a duplicate
    | InvalidText       // a required text field is blank or longer than its max_length
    | OutOfDomain       // a rating outside its choices, a quantity outside its integer range
    | PrecisionOverflow // a decimal price needs more than 10 digits / 2 decimals

  datatype Result<+T> = Ok(value: T) | Err(error: Error)

  /** `UserProfile.user_role` choices (owner, client, courier); the stored
      discriminant, without the display labels. */
  datatype Role = Owner | Client | Courier

  /** `Orders.orders_status` choices. */
  datatype OrderStatus = Pending | InDelivery | Delivered | Cancelled

  /** `Courier.status_courier` choices. */
  datatype CourierStatus = Available | Busy

  /** Declared max_length of the bounded character columns. */
  const CategoryNameMax: nat := 20
  const StoreNameMax: nat := 20
  const StoreAddressMax: nat := 50
  const ProductNameMax: nat := 30
  const ComboNameMax: nat := 30
  const DeliveryAddressMax: nat := 64

  /** Default max_length of an `ImageField`'s stored file name. */
  const ImageNameMax: nat := 100

  /** Default max_length of a `PhoneNumberField`'s stored number. */
  const PhoneMax: nat := 128

  /** A `DecimalField(max_digits=10, decimal_places=2)` holds at most 8 whole
      digits and 2 decimals, i.e. an amount of cents with at most 10 digits:
      its magnitude stays below 10^10 cents. */
  const PriceLimit: int := 10_000_000_000

  /** Upper end of `PositiveSmallIntegerField` (the lower end is 0). */
  const SmallIntMax: int := 32767

  /** A required `CharField`: not blank and no longer than its max_length. */
  predicate BoundedText(s: string, maxLen: nat) {
    0 < |s| <= maxLen
  }

  /** A required `TextField`: not blank, no length bound. */
  predicate RequiredText(s: string) {
    |s| > 0
  }

  /** A price in cents that a `DecimalField(10, 2)` can store; negative
      amounts are not excluded by the declaration. */
  predicate PriceFits(cents: int) {
    -PriceLimit < cents < PriceLimit
  }

  /** The rating choices `range(1, 6)`. */
  predicate RatingInRange(rating: int) {
    1 <= rating <= 5
  }

  /** The range of a `PositiveSmallIntegerField`. */
  predicate SmallPositive(n: int) {
    0 <= n <= SmallIntMax
  }
}
