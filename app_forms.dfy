/**
 * The item form and the amount inputs of the storefront (frontend/src/app.jsx,
 * `SweetForm` and `SweetCard`).  The form's cells start from the edited item
 * (or empty for a new one) and `handleSubmit` turns them into the record sent
 * to the API, with the quantity read back by `parseInt` and the price by
 * `parseFloat` (here the parameter `parsePrice`, in cents).
 */
module SweetForms {
  import opened Wrappers
  import opened SweetModels
  import Numerals
  import SweetSerializers

  /** The quantity cell: a number copied from the item, or text the user typed. */
  datatype QuantityCell = Loaded(n: int) | Typed(text: string)

  datatype FormState = FormState(
    name: string,
    category: string,
    price: string,
    quantity: QuantityCell,
    description: string)

  /** The record `handleSubmit` passes to `onSave`; `None` stands for NaN. */
  datatype SweetData = SweetData(
    name: string,
    category: string,
    price: Option<int>,
    quantity: Option<int>,
    description: string)

  /** A price as the API sends it: a decimal string with two places, such as "12.50". */
  function PriceText(cents: int): (s: string)
    ensures |s| > 0
  {
    var whole := if cents < 0 then -cents else cents;
    var frac := whole % 100;
    (if cents < 0 then "-" else "") + Numerals.NatToString(whole / 100) + "."
      + [Numerals.DigitChar(frac / 10), Numerals.DigitChar(frac % 10)]
  }

  /** `x || ''` on a description that may be null. */
  function DescriptionText(description: Option<string>): string
  {
    if description.Some? then description.value else ""
  }

  /**
   * The initial cells as written: `sweet?.quantity || ''` turns a quantity of
   * 0, which JavaScript counts as false, into the empty string.
   */
  function InitForm(sweet: Option<Item>): (f: FormState)
    ensures sweet.None? ==> f == FormState("", "", "", Typed(""), "")
    ensures sweet.Some? && sweet.value.quantity == 0 ==> f.quantity == Typed("")
    ensures sweet.Some? && sweet.value.quantity != 0 ==> f.quantity == Loaded(sweet.value.quantity)
  {
    match sweet
    case None => FormState("", "", "", Typed(""), "")
    case Some(s) =>
      FormState(s.name, s.category, PriceText(s.priceCents),
                if s.quantity != 0 then Loaded(s.quantity) else Typed(""),
                DescriptionText(s.description))
  }

  /** The initial cells with `sweet?.quantity ?? ''`, which keeps a quantity of 0. */
  function InitFormCorrected(sweet: Option<Item>): (f: FormState)
    ensures sweet.None? ==> f == InitForm(None)
    ensures sweet.Some? ==> f.quantity == Loaded(sweet.value.quantity)
    ensures sweet.Some? && sweet.value.quantity != 0 ==> f == InitForm(sweet)
  {
    match sweet
    case None => FormState("", "", "", Typed(""), "")
    case Some(s) =>
      FormState(s.name, s.category, PriceText(s.priceCents), Loaded(s.quantity), DescriptionText(s.description))
  }

  /** `parseInt(quantity)`: a number is printed and read back; empty text is NaN. */
  function ParseQuantity(cell: QuantityCell): (r: Option<int>)
    ensures cell.Loaded? ==> r == Some(cell.n)
    ensures cell == Typed("") ==> r == None
  {
    match cell
    case Loaded(n) =>
      Numerals.ParseIntOfIntToString(n);
      Numerals.ParseInt(Numerals.IntToString(n))
    case Typed(t) => Numerals.ParseInt(t)
  }

  /** `SweetForm.handleSubmit`: the record built from the cells. */
  function Submit(f: FormState, parsePrice: string -> Option<int>): (d: SweetData)
    ensures d.name == f.name && d.category == f.category && d.description == f.description
    ensures d.price == parsePrice(f.price) && d.quantity == ParseQuantity(f.quantity)
  {
    SweetData(f.name, f.category, parsePrice(f.price), ParseQuantity(f.quantity), f.description)
  }

  /**
   * As written, saving the edit form of a sold-out item unchanged sends a
   * quantity of NaN (JSON null), which the backend refuses.
   */
  lemma EditingSoldOutSendsNaN(item: Item, parsePrice: string -> Option<int>)
    requires item.quantity == 0
    ensures Submit(InitForm(Some(item)), parsePrice).quantity == None
  {
  }

  /**
   * With the corrected initial cells, saving the edit form unchanged sends the
   * item's own fields back (a missing description becomes the empty text),
   * provided `parseFloat` reads back the price the API sent.
   */
  lemma EditRoundTrip(item: Item, parsePrice: string -> Option<int>)
    requires parsePrice(PriceText(item.priceCents)) == Some(item.priceCents)
    ensures var d := Submit(InitFormCorrected(Some(item)), parsePrice);
            && d.name == item.name && d.category == item.category
            && d.price == Some(item.priceCents) && d.quantity == Some(item.quantity)
            && d.description == DescriptionText(item.description)
  {
  }

  /** The initial value of the purchase amount cell. */
  const InitialPurchaseAmount: int := 1
  /** The initial value of the restock amount cell. */
  const InitialRestockAmount: int := 10

  /** `parseInt(e.target.value) || 1`: NaN and 0 fall back to 1, any other number is kept. */
  function AmountInput(text: string): (n: int)
    ensures n != 0
    ensures Numerals.ParseInt(text).Some? && Numerals.ParseInt(text).value != 0 ==>
              n == Numerals.ParseInt(text).value
    ensures Numerals.ParseInt(text).None? || Numerals.ParseInt(text) == Some(0) ==> n == 1
  {
    match Numerals.ParseInt(text)
    case None => 1
    case Some(v) => if v == 0 then 1 else v
  }

  /** The two amount cells of a `SweetCard`. */
  datatype Card = Card(purchaseAmount: int, restockAmount: int)

  /** A card as first rendered. */
  function NewCard(): (card: Card)
    ensures card.purchaseAmount > 0 && card.restockAmount > 0
    ensures AmountInput(Numerals.IntToString(card.purchaseAmount)) == card.purchaseAmount
    ensures AmountInput(Numerals.IntToString(card.restockAmount)) == card.restockAmount
  {
    Numerals.ParseIntOfIntToString(InitialPurchaseAmount);
    Numerals.ParseIntOfIntToString(InitialRestockAmount);
    Card(InitialPurchaseAmount, InitialRestockAmount)
  }

  /** Typing into the purchase input. */
  function TypePurchase(card: Card, text: string): (r: Card)
    ensures r.restockAmount == card.restockAmount
    ensures r.purchaseAmount != 0
    ensures Numerals.ParseInt(text).Some? && Numerals.ParseInt(text).value != 0 ==>
              r.purchaseAmount == Numerals.ParseInt(text).value
  {
    card.(purchaseAmount := AmountInput(text))
  }

  /** Typing into the restock input. */
  function TypeRestock(card: Card, text: string): (r: Card)
    ensures r.purchaseAmount == card.purchaseAmount
    ensures r.restockAmount != 0
    ensures Numerals.ParseInt(text).Some? && Numerals.ParseInt(text).value != 0 ==>
              r.restockAmount == Numerals.ParseInt(text).value
  {
    card.(restockAmount := AmountInput(text))
  }

  /** The Purchase button: disabled unless the item is in stock; otherwise it sends the cell's amount. */
  function PurchaseClick(card: Card, item: Item): (r: Option<int>)
    ensures r.Some? <==> item.InStock()
    ensures r.Some? ==> r.value == card.purchaseAmount
  {
    if item.InStock() then Some(card.purchaseAmount) else None
  }

  /**
   * A fresh card's amounts pass the backend's amount checks, and its purchase,
   * whenever the button is enabled, is one the item can satisfy.  The input's
   * `min="1"` does not stop typing: a typed "-3" is sent and the serializer
   * refuses it.
   */
  lemma CardAmountsMeetBackend(item: Item)
    ensures SweetSerializers.PurchaseAmount(SweetSerializers.Given(NewCard().purchaseAmount)).Success?
    ensures SweetSerializers.RestockAmount(SweetSerializers.Given(NewCard().restockAmount)).Success?
    ensures PurchaseClick(NewCard(), item).Some? ==>
              PurchaseRule(item.quantity, PurchaseClick(NewCard(), item).value).Changed?
    ensures SweetSerializers.PurchaseAmount(SweetSerializers.Given(TypePurchase(NewCard(), "-3").purchaseAmount))
            == Failure(SweetSerializers.BelowMinimum(SweetSerializers.MinAmount))
    ensures SweetSerializers.RestockAmount(SweetSerializers.Given(TypeRestock(NewCard(), "-3").restockAmount))
            == Failure(SweetSerializers.BelowMinimum(SweetSerializers.MinAmount))
  {
    Numerals.ParseIntOfIntToString(-3);
    assert Numerals.IntToString(-3) == "-3";
  }

  /** A typed non-zero amount is taken as typed; a cleared cell or a typed 0 becomes 1. */
  lemma AmountInputReadsTypedNumber(k: int)
    ensures AmountInput(Numerals.IntToString(k)) == if k == 0 then 1 else k
    ensures AmountInput("") == 1
  {
    Numerals.ParseIntOfIntToString(k);
  }
}
