/**
 * The API client of the storefront (frontend/src/app.jsx, `api`).  The
 * network calls themselves are outside the model: what is modelled is the
 * request bodies it builds, how it turns an error body into a message, and
 * how the shapes of a list response are normalised.
 */
module ApiClient {
  import opened Wrappers
  import opened SweetModels
  import AuthSerializers
  import SweetViews
  import SweetSerializers
  import Numerals

  const LoginFailed: string := "Login failed"
  const RegistrationFailed: string := "Registration failed"
  const PurchaseFailed: string := "Purchase failed"
  const RestockFailed: string := "Restock failed"

  /** `message || fallback` on strings, where the empty string counts as false. */
  function OrElse(message: string, fallback: string): (r: string)
    ensures message != "" ==> r == message
    ensures message == "" ==> r == fallback
  {
    if message != "" then message else fallback
  }

  /** `error.error || fallback` on a parsed error body whose `error` field may be missing. */
  function FailureMessage(errorField: Option<string>, fallback: string): (r: string)
    ensures errorField.Some? && errorField.value != "" ==> r == errorField.value
    ensures !(errorField.Some? && errorField.value != "") ==> r == fallback
    ensures r == fallback || (errorField.Some? && r == errorField.value)
  {
    if errorField.Some? then OrElse(errorField.value, fallback) else fallback
  }

  /** The body of `api.register`: the password is sent as its own confirmation. */
  function RegisterBody(username: string, email: string, password: string): (body: map<string, string>)
    ensures body.Keys == AuthSerializers.RegistrationFields
    ensures body["username"] == username && body["email"] == email
    ensures body["password"] == password && body["password_confirm"] == password
  {
    map["username" := username, "email" := email, "password" := password, "password_confirm" := password]
  }

  /** A body that `api.register` sends can never fail the backend's password-match check. */
  lemma RegisterBodyPassesValidation(username: string, email: string, password: string)
    ensures AuthSerializers.Validate(RegisterBody(username, email, password))
            == Success(RegisterBody(username, email, password))
  {
  }

  /** A list response: a bare array, or an object that may carry a `results` array. */
  datatype ListPayload = JsonArray(items: seq<Item>) | JsonObject(results: Option<seq<Item>>)

  /** `Array.isArray(data) ? data : data.results || []` in `loadSweets`. */
  function NormaliseList(data: ListPayload): (r: seq<Item>)
    ensures data.JsonArray? ==> r == data.items
    ensures data.JsonObject? && data.results.Some? ==> r == data.results.value
    ensures data == JsonObject(None) ==> r == []
  {
    match data
    case JsonArray(items) => items
    case JsonObject(results) => if results.Some? then results.value else []
  }

  /** `Array.isArray(data) ? data : []` in `handleSearch`. */
  function NormaliseSearch(data: ListPayload): (r: seq<Item>)
    ensures data.JsonArray? ==> r == data.items
    ensures data.JsonObject? ==> r == []
  {
    if data.JsonArray? then data.items else []
  }

  /** A bare array and the same array in a `results` envelope are shown alike. */
  lemma BareAndEnvelopeAgree(items: seq<Item>)
    ensures NormaliseList(JsonArray(items)) == NormaliseList(JsonObject(Some(items)))
    ensures NormaliseSearch(JsonArray(items)) == NormaliseList(JsonArray(items))
  {
  }

  /** What `api.purchaseSweet` or `api.restockSweet` yields: the reply's message, or an error. */
  datatype ActionReply = Done(message: string) | Failed(message: string)

  /** The `error` field of a backend body, if it has one. */
  function ErrorField(body: SweetViews.Body): Option<string>
  {
    if body.Error? then Some(body.error) else None
  }

  /** The `message` field of a successful purchase or restock reply. */
  function MessageField(body: SweetViews.Body): string
  {
    match body
    case Purchased(m, _) => m
    case Restocked(m, _) => m
    case _ => ""
  }

  /** How `api.purchaseSweet` reads the backend's response (`res.ok` is a 2xx status). */
  function PurchaseReply(resp: SweetViews.Response): (r: ActionReply)
    ensures 200 <= resp.status < 300 <==> r.Done?
    ensures !(200 <= resp.status < 300) && resp.body.Error? && resp.body.error != "" ==>
              r == Failed(resp.body.error)
    ensures 200 <= resp.status < 300 ==> r == Done(MessageField(resp.body))
    ensures !(200 <= resp.status < 300) && !(resp.body.Error? && resp.body.error != "") ==>
              r == Failed(PurchaseFailed)
  {
    if 200 <= resp.status < 300 then Done(MessageField(resp.body))
    else Failed(FailureMessage(ErrorField(resp.body), PurchaseFailed))
  }

  /** How `api.restockSweet` reads the backend's response. */
  function RestockReply(resp: SweetViews.Response): (r: ActionReply)
    ensures 200 <= resp.status < 300 <==> r.Done?
    ensures !(200 <= resp.status < 300) && resp.body.Error? && resp.body.error != "" ==>
              r == Failed(resp.body.error)
    ensures 200 <= resp.status < 300 ==> r == Done(MessageField(resp.body))
    ensures !(200 <= resp.status < 300) && !(resp.body.Error? && resp.body.error != "") ==>
              r == Failed(RestockFailed)
  {
    if 200 <= resp.status < 300 then Done(MessageField(resp.body))
    else Failed(FailureMessage(ErrorField(resp.body), RestockFailed))
  }

  /**
   * End to end: a purchase of more than is in stock reaches the client as a
   * failure carrying the backend's insufficient-stock text; an amount the
   * serializer refuses reaches it as the generic "Purchase failed".
   */
  lemma PurchaseErrorsReachClient(quantity: int, amount: int, name: string)
    requires 0 < amount && quantity < amount
    ensures PurchaseReply(SweetViews.Response(SweetViews.HTTP_400_BAD_REQUEST,
              SweetViews.Error(PurchaseRule(quantity, amount).error)))
            == Failed(InsufficientStock(quantity))
    ensures forall e :: PurchaseReply(SweetViews.Response(SweetViews.HTTP_400_BAD_REQUEST,
              SweetViews.FieldErrors("amount", e))) == Failed(PurchaseFailed)
  {
  }

  /**
   * A purchase the stock covers is granted, and its reply reaches the client
   * as done, carrying the backend's message with the amount in it.
   */
  lemma PurchaseGrantReachesClient(quantity: int, amount: int, name: string)
    requires 0 < amount <= quantity
    ensures PurchaseRule(quantity, amount) == Changed(quantity - amount)
    ensures PurchaseReply(SweetViews.Response(SweetViews.HTTP_200_OK,
              SweetViews.Purchased(SweetViews.PurchasedMessage(amount, name), quantity - amount)))
            == Done(SweetViews.PurchasedMessage(amount, name))
    ensures Numerals.ParseInt(MessageField(SweetViews.Purchased(
              SweetViews.PurchasedMessage(amount, name), quantity - amount))[23..]) == Some(amount)
  {
  }

  /**
   * End to end for restocks: every refusal `RestockAction` can send is the
   * serializer's (the model's own refusal cannot happen after it), and it
   * reaches the client as "Restock failed"; an accepted amount reaches it as
   * done, with the backend's message.
   */
  lemma RestockErrorsReachClient(field: SweetSerializers.AmountField, name: string, quantity: int)
    ensures SweetSerializers.RestockAmount(field).Failure? ==>
              RestockReply(SweetViews.Response(SweetViews.HTTP_400_BAD_REQUEST,
                SweetViews.FieldErrors("amount", SweetSerializers.RestockAmount(field).error)))
              == Failed(RestockFailed)
    ensures SweetSerializers.RestockAmount(field).Success? ==>
              var a := SweetSerializers.RestockAmount(field).value;
              RestockRule(quantity, a).Changed?
              && RestockReply(SweetViews.Response(SweetViews.HTTP_200_OK,
                   SweetViews.Restocked(SweetViews.RestockedMessage(a, name), quantity + a)))
                 == Done(SweetViews.RestockedMessage(a, name))
  {
  }
}
