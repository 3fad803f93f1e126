/**
 * The stock item of the sweet shop (backend/sweets/models.py): an item with a
 * non-negative quantity that purchases decrement and restocks increment,
 * each behind its guards.  The guards are stated once, as `PurchaseRule` and
 * `RestockRule`; the `Sweet` class applies them to its own `quantity` field.
 */
module SweetModels {
  import opened Wrappers
  import Numerals
  import Text

  /** `MinValueValidator(Decimal('0.01'))` on the price, in cents. */
  const MinPriceCents: int := 1
  /** `MinValueValidator(0)` on the quantity. */
  const MinQuantity: int := 0
  /**
   * The largest value of the quantity's integer column: Django validates an
   * `IntegerField` against a signed 32-bit range on PostgreSQL, MySQL and
   * Oracle.
   */
  const MaxQuantity: int := 0x7fff_ffff
  /** `max_digits=10, decimal_places=2` on the price: at most 8 digits before the point. */
  const MaxPriceDigits: int := 10
  /** The smallest price, in cents, with more than 8 digits before the decimal point. */
  const PriceCentsLimit: int := 10_000_000_000

  const PurchaseNotPositive: string := "Purchase amount must be positive"
  const RestockNotPositive: string := "Restock amount must be positive"

  /** The message of the `ValueError` raised when fewer than the requested items are left. */
  function InsufficientStock(available: int): (message: string)
    ensures "Insufficient stock. Only " <= message
    ensures Numerals.ParseInt(message[|"Insufficient stock. Only "|..]) == Some(available)
  {
    var prefix := "Insufficient stock. Only ";
    Numerals.ParseIntAfterPrefix(prefix, available, " available.");
    prefix + Numerals.IntToString(available) + " available."
  }

  /** A stock item as a value: what the serializer sends and what the search filters. */
  datatype Item = Item(
    id: string,
    name: string,
    category: string,
    priceCents: int,
    quantity: int,
    description: Option<string>)
  {
    /** The derived `is_in_stock` field. */
    predicate InStock()
    {
      quantity > 0
    }
  }

  /** What a purchase or restock does to a quantity: a new quantity, or the error it raises. */
  datatype StockChange = Changed(newQuantity: int) | Refused(error: string)

  /** The quantity held once `change` has been applied to `quantity`. */
  function After(quantity: int, change: StockChange): int
  {
    match change
    case Changed(q) => q
    case Refused(_) => quantity
  }

  /** The guards of `Sweet.purchase`, in their order. */
  function PurchaseRule(quantity: int, amount: int): (r: StockChange)
    ensures r.Changed? <==> 0 < amount <= quantity
    ensures amount <= 0 ==> r == Refused(PurchaseNotPositive)
    ensures 0 < amount && quantity < amount ==> r == Refused(InsufficientStock(quantity))
    ensures r.Changed? ==> r.newQuantity == quantity - amount && 0 <= r.newQuantity < quantity
  {
    if amount <= 0 then Refused(PurchaseNotPositive)
    else if quantity < amount then Refused(InsufficientStock(quantity))
    else Changed(quantity - amount)
  }

  /** The guard of `Sweet.restock`. */
  function RestockRule(quantity: int, amount: int): (r: StockChange)
    ensures r.Changed? <==> amount > 0
    ensures amount <= 0 ==> r == Refused(RestockNotPositive)
    ensures r.Changed? ==> r.newQuantity == quantity + amount && r.newQuantity > quantity
  {
    if amount <= 0 then Refused(RestockNotPositive) else Changed(quantity + amount)
  }

  /** Neither operation, successful or not, can make a non-negative quantity negative. */
  lemma QuantityStaysNonNegative(quantity: int, amount: int)
    requires quantity >= MinQuantity
    ensures After(quantity, PurchaseRule(quantity, amount)) >= MinQuantity
    ensures After(quantity, RestockRule(quantity, amount)) >= MinQuantity
  {
  }

  /** Restocking what was just purchased restores the quantity, and the other way round. */
  lemma RestockUndoesPurchase(quantity: int, amount: int)
    requires quantity >= MinQuantity
    ensures PurchaseRule(quantity, amount).Changed? ==>
              RestockRule(PurchaseRule(quantity, amount).newQuantity, amount) == Changed(quantity)
    ensures RestockRule(quantity, amount).Changed? ==>
              PurchaseRule(RestockRule(quantity, amount).newQuantity, amount) == Changed(quantity)
  {
  }

  /** The insufficient-stock error is recognisable by its leading words, whatever is left. */
  lemma InsufficientStockMessage(available: int)
    ensures Text.Contains(InsufficientStock(available), "Insufficient stock")
  {
    var message := InsufficientStock(available);
    assert message[..|"Insufficient stock. Only "|] == "Insufficient stock. Only ";
    assert message[..|"Insufficient stock"|] == "Insufficient stock";
  }

  /** In stock exactly when some purchase can succeed: the gate of the storefront's purchase button. */
  lemma InStockIffPurchasable(item: Item)
    ensures item.InStock() <==> exists amount :: PurchaseRule(item.quantity, amount).Changed?
  {
    if item.InStock() {
      assert PurchaseRule(item.quantity, 1).Changed?;
    }
  }

  /**
   * `Sweet.objects.create(...)` as written: `save()` runs none of the field
   * validators and the table has no check constraint, so the row is stored
   * whatever its price and quantity.
   */
  function CreateAsWritten(id: string, name: string, category: string, priceCents: int, quantity: int,
                           description: Option<string>): Item
  {
    Item(id, name, category, priceCents, quantity, description)
  }

  /** The tests' negative price and negative quantity are stored, not refused. */
  lemma CreateStoresInvalidFields()
    ensures CreateAsWritten("", "Invalid Sweet", "Test", -100, 10, None).priceCents < MinPriceCents
    ensures CreateAsWritten("", "Invalid Sweet", "Test", 200, -5, None).quantity < MinQuantity
  {
  }

  /**
   * Creation as the model's validators mean it: the price and quantity
   * validators (or check constraints on those two columns) run before the row
   * is stored, refusing the fields whose validators fail (reported by name).
   */
  function CreateChecked(id: string, name: string, category: string, priceCents: int, quantity: int,
                         description: Option<string>): (r: Result<Item, set<string>>)
    ensures r.Success? <==>
              MinPriceCents <= priceCents < PriceCentsLimit && MinQuantity <= quantity <= MaxQuantity
    ensures r.Success? ==> r.value == CreateAsWritten(id, name, category, priceCents, quantity, description)
    ensures r.Failure? ==>
              ("price" in r.error <==> !(MinPriceCents <= priceCents < PriceCentsLimit))
              && ("quantity" in r.error <==> !(MinQuantity <= quantity <= MaxQuantity))
              && r.error <= {"price", "quantity"}
  {
    var refused := (if MinPriceCents <= priceCents < PriceCentsLimit then {} else {"price"})
                   + (if MinQuantity <= quantity <= MaxQuantity then {} else {"quantity"});
    if refused == {} then Success(CreateAsWritten(id, name, category, priceCents, quantity, description))
    else Failure(refused)
  }

  /** With validation before saving, both invalid creations of the model tests raise. */
  lemma CheckedCreateRefusesInvalidFields()
    ensures CreateChecked("", "Invalid Sweet", "Test", -100, 10, None) == Failure({"price"})
    ensures CreateChecked("", "Invalid Sweet", "Test", 200, -5, None) == Failure({"quantity"})
  {
    var none: set<string> := {};
    assert {"price"} + none == {"price"};
    assert none + {"quantity"} == {"quantity"};
  }

  /**
   * A stock item whose fields the backend updates in place.  Field validators
   * of a Django model run from serializers and `full_clean`, not from `save`,
   * so the constructor takes arguments that already satisfy them, as those
   * that pass `CreateChecked` do.
   */
  class Sweet {
    const id: string
    var name: string
    var category: string
    var priceCents: int
    var quantity: int
    var description: Option<string>

    /** The field constraints of the model. */
    ghost predicate Valid()
      reads this
    {
      quantity >= MinQuantity && priceCents >= MinPriceCents
    }

    constructor (id: string, name: string, category: string, priceCents: int, quantity: int,
                 description: Option<string>)
      requires priceCents >= MinPriceCents && quantity >= MinQuantity
      ensures Valid()
      ensures this.id == id && this.name == name && this.category == category
      ensures this.priceCents == priceCents && this.quantity == quantity
      ensures this.description == description
    {
      this.id := id;
      this.name := name;
      this.category := category;
      this.priceCents := priceCents;
      this.quantity := quantity;
      this.description := description;
    }

    /** The `is_in_stock` property: in stock exactly when a purchase of one can succeed. */
    function IsInStock(): (b: bool)
      reads this
      ensures b <==> quantity > 0
      ensures b <==> PurchaseRule(quantity, 1).Changed?
    {
      Snapshot().InStock()
    }

    /** The item's current fields as a value. */
    function Snapshot(): Item
      reads this
    {
      Item(id, name, category, priceCents, quantity, description)
    }

    /**
     * `purchase(amount)`: `None` where the source returns normally, and the
     * error text where it raises `ValueError`.  Only `quantity` changes.
     */
    method Purchase(amount: int) returns (error: Option<string>)
      modifies this`quantity
      ensures old(Valid()) ==> Valid()
      ensures match PurchaseRule(old(quantity), amount)
              case Changed(q) => error == None && quantity == q
              case Refused(e) => error == Some(e) && quantity == old(quantity)
      ensures name == old(name) && category == old(category)
      ensures priceCents == old(priceCents) && description == old(description)
    {
      if amount <= 0 {
        return Some(PurchaseNotPositive);
      }
      if quantity < amount {
        return Some(InsufficientStock(quantity));
      }
      quantity := quantity - amount;
      error := None;
    }

    /** `restock(amount)`, in the same form as `Purchase`. */
    method Restock(amount: int) returns (error: Option<string>)
      modifies this`quantity
      ensures old(Valid()) ==> Valid()
      ensures match RestockRule(old(quantity), amount)
              case Changed(q) => error == None && quantity == q
              case Refused(e) => error == Some(e) && quantity == old(quantity)
      ensures name == old(name) && category == old(category)
      ensures priceCents == old(priceCents) && description == old(description)
    {
      if amount <= 0 {
        return Some(RestockNotPositive);
      }
      quantity := quantity + amount;
      error := None;
    }
  }

  /** The purchase tests: 10 less 3 leaves 7; 5 out of 2 is refused and changes nothing. */
  method PurchaseScenarios() returns (left: int, refused: Option<string>, kept: int)
    ensures left == 7
    ensures refused.Some? && Text.Contains(refused.value, "Insufficient stock") && kept == 2
  {
    var cane := new Sweet("cane", "Candy Cane", "Seasonal", 150, 10, None);
    var e := cane.Purchase(3);
    left := cane.quantity;
    var limited := new Sweet("limited", "Limited Edition", "Special", 500, 2, None);
    refused := limited.Purchase(5);
    InsufficientStockMessage(2);
    kept := limited.quantity;
  }

  /** The restock tests: 5 plus 20 gives 25; restocking -5 is refused with its message. */
  method RestockScenarios() returns (grown: int, refused: Option<string>, kept: int)
    ensures grown == 25
    ensures refused == Some(RestockNotPositive) && kept == 15
  {
    var marshmallow := new Sweet("marsh", "Marshmallow", "Soft Candy", 300, 5, None);
    var e := marshmallow.Restock(20);
    grown := marshmallow.quantity;
    var taffy := new Sweet("taffy", "Taffy", "Chewy", 225, 15, None);
    refused := taffy.Restock(-5);
    kept := taffy.quantity;
  }
}
