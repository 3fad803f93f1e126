/**
 * Field validation of the sweets API (backend/sweets/serializers.py).  Each
 * field first passes the checks of its REST-framework field (presence, type
 * the digit limits of a decimal field, and the `min_value`/`max_value` that a
 * model's validators or an explicit `min_value=1` give it); only then does the serializer's own `validate_*`
 * hook see the value.  Both stages are modelled, and the hooks are shown never
 * to reject a value that the field let through.
 */
module SweetSerializers {
  import opened Wrappers
  import SweetModels

  const PriceNotPositive: string := "Price must be greater than zero"
  const QuantityNegative: string := "Quantity cannot be negative"
  /** `min_value=1` on `PurchaseSerializer.amount` and `RestockSerializer.amount`. */
  const MinAmount: int := 1

  /** Why a field was refused: the framework's checks, or a hook's own message. */
  datatype FieldError =
    | Required
    | NotAnInteger
    | TooManyDigits(maxDigits: int)
    | BelowMinimum(limit: int)
    | AboveMaximum(limit: int)
    | Rejected(message: string)

  /** The `amount` entry of a request body, as the integer field reads it. */
  datatype AmountField = Absent | Malformed | Given(n: int)

  /** `SweetSerializer.validate_price`. */
  function ValidatePrice(cents: int): (r: Result<int, string>)
    ensures r.Failure? <==> cents <= 0
    ensures r.Success? ==> r.value == cents
    ensures r.Failure? ==> r.error == PriceNotPositive
  {
    if cents <= 0 then Failure(PriceNotPositive) else Success(cents)
  }

  /** `SweetSerializer.validate_quantity`. */
  function ValidateQuantity(quantity: int): (r: Result<int, string>)
    ensures r.Failure? <==> quantity < 0
    ensures r.Success? ==> r.value == quantity
    ensures r.Failure? ==> r.error == QuantityNegative
  {
    if quantity < 0 then Failure(QuantityNegative) else Success(quantity)
  }

  /** `PurchaseSerializer.validate_amount`. */
  function ValidatePurchaseAmount(n: int): (r: Result<int, string>)
    ensures r.Failure? <==> n <= 0
    ensures r.Success? ==> r.value == n
    ensures r.Failure? ==> r.error == SweetModels.PurchaseNotPositive
  {
    if n <= 0 then Failure(SweetModels.PurchaseNotPositive) else Success(n)
  }

  /** `RestockSerializer.validate_amount`. */
  function ValidateRestockAmount(n: int): (r: Result<int, string>)
    ensures r.Failure? <==> n <= 0
    ensures r.Success? ==> r.value == n
    ensures r.Failure? ==> r.error == SweetModels.RestockNotPositive
  {
    if n <= 0 then Failure(SweetModels.RestockNotPositive) else Success(n)
  }

  /** A hook's message, as the serializer reports it. */
  function Lift(r: Result<int, string>): Result<int, FieldError>
  {
    match r
    case Success(v) => Success(v)
    case Failure(m) => Failure(Rejected(m))
  }

  /**
   * The whole `price` field: the decimal field's digit limits (checked while
   * the text is read, so before any validator), then the model's minimum of
   * one cent, then `validate_price`.
   */
  function PriceField(cents: int): (r: Result<int, FieldError>)
    ensures r.Success? <==> SweetModels.MinPriceCents <= cents < SweetModels.PriceCentsLimit
    ensures r.Success? ==> r.value == cents
    ensures cents >= SweetModels.PriceCentsLimit || cents <= -SweetModels.PriceCentsLimit ==> r == Failure(TooManyDigits(SweetModels.MaxPriceDigits))
    ensures -SweetModels.PriceCentsLimit < cents < SweetModels.MinPriceCents ==>
              r == Failure(BelowMinimum(SweetModels.MinPriceCents))
  {
    if cents >= SweetModels.PriceCentsLimit || cents <= -SweetModels.PriceCentsLimit then Failure(TooManyDigits(SweetModels.MaxPriceDigits))
    else if cents < SweetModels.MinPriceCents then Failure(BelowMinimum(SweetModels.MinPriceCents))
    else Lift(ValidatePrice(cents))
  }

  /**
   * The whole `quantity` field: the model's minimum of zero and the column's
   * maximum, then `validate_quantity`.
   */
  function QuantityField(quantity: int): (r: Result<int, FieldError>)
    ensures r.Success? <==> SweetModels.MinQuantity <= quantity <= SweetModels.MaxQuantity
    ensures r.Success? ==> r.value == quantity
    ensures quantity < SweetModels.MinQuantity ==> r == Failure(BelowMinimum(SweetModels.MinQuantity))
    ensures quantity > SweetModels.MaxQuantity ==> r == Failure(AboveMaximum(SweetModels.MaxQuantity))
  {
    if quantity < SweetModels.MinQuantity then Failure(BelowMinimum(SweetModels.MinQuantity))
    else if quantity > SweetModels.MaxQuantity then Failure(AboveMaximum(SweetModels.MaxQuantity))
    else Lift(ValidateQuantity(quantity))
  }

  /** The integer field `amount` with `min_value=1`, before its hook. */
  function CheckAmount(field: AmountField, hook: int -> Result<int, string>): (r: Result<int, FieldError>)
  {
    match field
    case Absent => Failure(Required)
    case Malformed => Failure(NotAnInteger)
    case Given(n) => if n < MinAmount then Failure(BelowMinimum(MinAmount)) else Lift(hook(n))
  }

  /** `PurchaseSerializer(data=...).is_valid()` and its `validated_data['amount']`. */
  function PurchaseAmount(field: AmountField): (r: Result<int, FieldError>)
    ensures r.Success? <==> field.Given? && field.n >= MinAmount
    ensures r.Success? ==> r.value == field.n
    ensures field.Absent? ==> r == Failure(Required)
    ensures field.Malformed? ==> r == Failure(NotAnInteger)
    ensures field.Given? && field.n < MinAmount ==> r == Failure(BelowMinimum(MinAmount))
  {
    CheckAmount(field, ValidatePurchaseAmount)
  }

  /** `RestockSerializer(data=...).is_valid()` and its `validated_data['amount']`. */
  function RestockAmount(field: AmountField): (r: Result<int, FieldError>)
    ensures r.Success? <==> field.Given? && field.n >= MinAmount
    ensures r.Success? ==> r.value == field.n
    ensures field.Absent? ==> r == Failure(Required)
    ensures field.Malformed? ==> r == Failure(NotAnInteger)
    ensures field.Given? && field.n < MinAmount ==> r == Failure(BelowMinimum(MinAmount))
  {
    CheckAmount(field, ValidateRestockAmount)
  }

  /** The validators agree with the field constraints of the model. */
  lemma ValidatorsMatchModelConstraints(cents: int, quantity: int)
    ensures ValidatePrice(cents).Success? <==> cents >= SweetModels.MinPriceCents
    ensures ValidateQuantity(quantity).Success? <==> quantity >= SweetModels.MinQuantity
  {
  }

  /**
   * An amount the serializers accept passes the model's own positivity guard:
   * a restock always succeeds, and a purchase can fail only for lack of stock.
   */
  lemma AcceptedAmountsPassModelGuard(field: AmountField, quantity: int)
    ensures PurchaseAmount(field).Success? ==>
              SweetModels.PurchaseRule(quantity, PurchaseAmount(field).value)
                != SweetModels.Refused(SweetModels.PurchaseNotPositive)
    ensures RestockAmount(field).Success? ==>
              SweetModels.RestockRule(quantity, RestockAmount(field).value).Changed?
  {
  }
}
