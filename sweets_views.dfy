/**
 * The sweets endpoints (backend/sweets/views.py): the catalog search, which
 * narrows the full list one filter at a time, and the purchase and restock
 * actions, which validate the amount, apply the model operation and map the
 * outcome to a response.  The ORM's list of rows is a `seq<Item>`; the
 * float conversion of a price bound is the parameter `parsePrice`.
 */
module SweetViews {
  import opened Wrappers
  import opened SweetModels
  import SweetSerializers
  import Numerals
  import Text

  const HTTP_200_OK: int := 200
  const HTTP_400_BAD_REQUEST: int := 400

  const InvalidMinPrice: string := "Invalid min_price value"
  const InvalidMaxPrice: string := "Invalid max_price value"

  /** The JSON bodies these endpoints send. */
  datatype Body =
    | Items(items: seq<Item>)
    | Error(error: string)
    | Purchased(message: string, remainingQuantity: int)
    | Restocked(message: string, newQuantity: int)
    | FieldErrors(field: string, fieldError: SweetSerializers.FieldError)

  datatype Response = Response(status: int, body: Body)

  // ---------------------------------------------------------------- search

  /** One `queryset.filter(...)` of the search. */
  datatype Criterion =
    | NameContains(name: string)
    | CategoryContains(category: string)
    | PriceAtLeast(minCents: int)
    | PriceAtMost(maxCents: int)

  predicate Satisfies(it: Item, c: Criterion)
  {
    match c
    case NameContains(q) => Text.ContainsIgnoreCase(it.name, q)
    case CategoryContains(q) => Text.ContainsIgnoreCase(it.category, q)
    case PriceAtLeast(lo) => it.priceCents >= lo
    case PriceAtMost(hi) => it.priceCents <= hi
  }

  predicate SatisfiesAll(it: Item, cs: seq<Criterion>)
  {
    forall c :: c in cs ==> Satisfies(it, c)
  }

  /** `queryset.filter(c)`: the items that satisfy `c`, in their order. */
  function Narrow(items: seq<Item>, c: Criterion): (r: seq<Item>)
    ensures |r| <= |items|
    ensures forall x :: x in r ==> x in items && Satisfies(x, c)
  {
    if items == [] then []
    else if Satisfies(items[0], c) then [items[0]] + Narrow(items[1..], c)
    else Narrow(items[1..], c)
  }

  /** The items that satisfy every criterion of `cs`, in their order. */
  function Select(items: seq<Item>, cs: seq<Criterion>): (r: seq<Item>)
    ensures |r| <= |items|
    ensures forall x :: x in r ==> x in items && SatisfiesAll(x, cs)
  {
    if items == [] then []
    else if SatisfiesAll(items[0], cs) then [items[0]] + Select(items[1..], cs)
    else Select(items[1..], cs)
  }

  /** `xs` is `ys` with some elements left out and the others kept in order. */
  predicate IsSubsequence<T(==)>(xs: seq<T>, ys: seq<T>)
  {
    if xs == [] then true
    else if ys == [] then false
    else if xs[0] == ys[0] then IsSubsequence(xs[1..], ys[1..])
    else IsSubsequence(xs, ys[1..])
  }

  lemma {:induction false} SelectNothing(items: seq<Item>)
    ensures Select(items, []) == items
  {
    if items != [] {
      SelectNothing(items[1..]);
    }
  }

  /** Filtering once more is the same as selecting with one more criterion. */
  lemma {:induction false} NarrowSelect(items: seq<Item>, cs: seq<Criterion>, c: Criterion)
    ensures Narrow(Select(items, cs), c) == Select(items, cs + [c])
  {
    if items != [] {
      var x := items[0];
      assert SatisfiesAll(x, cs + [c]) <==> SatisfiesAll(x, cs) && Satisfies(x, c) by {
        assert forall d :: d in cs + [c] <==> d in cs || d == c;
      }
      NarrowSelect(items[1..], cs, c);
    }
  }

  /** An item is selected exactly when it is in the list and meets every criterion. */
  lemma {:induction false} SelectMembers(items: seq<Item>, cs: seq<Criterion>, x: Item)
    ensures x in Select(items, cs) <==> x in items && SatisfiesAll(x, cs)
  {
    if items != [] {
      SelectMembers(items[1..], cs, x);
      assert x in items <==> x == items[0] || x in items[1..];
    }
  }

  /** The selection keeps the order of the list it selects from. */
  lemma {:induction false} SelectIsSubsequence(items: seq<Item>, cs: seq<Criterion>)
    ensures IsSubsequence(Select(items, cs), items)
  {
    if items != [] {
      SelectIsSubsequence(items[1..], cs);
      var rest := Select(items[1..], cs);
      if !SatisfiesAll(items[0], cs) {
        SubsequenceOfTail(rest, items);
      }
    }
  }

  lemma {:induction false} SubsequenceOfTail<T>(xs: seq<T>, ys: seq<T>)
    requires ys != [] && IsSubsequence(xs, ys[1..])
    ensures IsSubsequence(xs, ys)
    decreases |ys|, 0
  {
    if xs != [] && xs[0] == ys[0] {
      SubsequenceDropHead(xs, ys[1..]);
    }
  }

  lemma {:induction false} SubsequenceDropHead<T>(xs: seq<T>, ys: seq<T>)
    requires xs != [] && IsSubsequence(xs, ys)
    ensures IsSubsequence(xs[1..], ys)
    decreases |ys|, 1
  {
    assert ys != [];
    if xs[0] == ys[0] {
      SubsequenceOfTail(xs[1..], ys);
    } else {
      SubsequenceDropHead(xs, ys[1..]);
      SubsequenceOfTail(xs[1..], ys);
    }
  }

  /**
   * `request.query_params.get(key)` as the views test it with `if value:`: an
   * absent parameter and an empty one are both treated as not given.
   */
  function QueryParam(query: map<string, string>, key: string): (r: Option<string>)
    ensures r.Some? <==> key in query && query[key] != ""
    ensures r.Some? ==> r.value == query[key]
  {
    if key in query && query[key] != "" then Some(query[key]) else None
  }

  /** The filters a query applies, once both price bounds are known to parse. */
  function ActiveCriteria(query: map<string, string>, parsePrice: string -> Option<int>): seq<Criterion>
  {
    var name := QueryParam(query, "name");
    var category := QueryParam(query, "category");
    var lo := QueryParam(query, "min_price");
    var hi := QueryParam(query, "max_price");
    (if name.Some? then [NameContains(name.value)] else [])
    + (if category.Some? then [CategoryContains(category.value)] else [])
    + (if lo.Some? && parsePrice(lo.value).Some? then [PriceAtLeast(parsePrice(lo.value).value)] else [])
    + (if hi.Some? && parsePrice(hi.value).Some? then [PriceAtMost(parsePrice(hi.value).value)] else [])
  }

  /** The response of `GET /sweets/search/`, as a function of the full list and the query. */
  function SearchResponse(all: seq<Item>, query: map<string, string>,
                          parsePrice: string -> Option<int>): (r: Response)
    ensures r.status == HTTP_200_OK || r.status == HTTP_400_BAD_REQUEST
    ensures r.status == HTTP_400_BAD_REQUEST ==>
              r.body == Error(InvalidMinPrice) || r.body == Error(InvalidMaxPrice)
    ensures r.status == HTTP_200_OK ==> r.body.Items? && |r.body.items| <= |all|
  {
    var lo := QueryParam(query, "min_price");
    var hi := QueryParam(query, "max_price");
    if lo.Some? && parsePrice(lo.value).None? then Response(HTTP_400_BAD_REQUEST, Error(InvalidMinPrice))
    else if hi.Some? && parsePrice(hi.value).None? then Response(HTTP_400_BAD_REQUEST, Error(InvalidMaxPrice))
    else Response(HTTP_200_OK, Items(Select(all, ActiveCriteria(query, parsePrice))))
  }

  /** `SweetViewSet.search`: narrows the list filter by filter, returning early on a bad bound. */
  method Search(all: seq<Item>, query: map<string, string>, parsePrice: string -> Option<int>)
    returns (resp: Response)
    ensures resp == SearchResponse(all, query, parsePrice)
  {
    var queryset := all;
    ghost var applied: seq<Criterion> := [];
    SelectNothing(all);

    var name := QueryParam(query, "name");
    var category := QueryParam(query, "category");
    var minPrice := QueryParam(query, "min_price");
    var maxPrice := QueryParam(query, "max_price");

    if name.Some? {
      NarrowSelect(all, applied, NameContains(name.value));
      queryset := Narrow(queryset, NameContains(name.value));
      applied := applied + [NameContains(name.value)];
    }
    if category.Some? {
      NarrowSelect(all, applied, CategoryContains(category.value));
      queryset := Narrow(queryset, CategoryContains(category.value));
      applied := applied + [CategoryContains(category.value)];
    }
    if minPrice.Some? {
      var bound := parsePrice(minPrice.value);
      if bound.None? {
        return Response(HTTP_400_BAD_REQUEST, Error(InvalidMinPrice));
      }
      NarrowSelect(all, applied, PriceAtLeast(bound.value));
      queryset := Narrow(queryset, PriceAtLeast(bound.value));
      applied := applied + [PriceAtLeast(bound.value)];
    }
    if maxPrice.Some? {
      var bound := parsePrice(maxPrice.value);
      if bound.None? {
        return Response(HTTP_400_BAD_REQUEST, Error(InvalidMaxPrice));
      }
      NarrowSelect(all, applied, PriceAtMost(bound.value));
      queryset := Narrow(queryset, PriceAtMost(bound.value));
      applied := applied + [PriceAtMost(bound.value)];
    }
    assert applied == ActiveCriteria(query, parsePrice);
    resp := Response(HTTP_200_OK, Items(queryset));
  }

  /** An item passes the search exactly when it meets every filter the query gives. */
  predicate MatchesQuery(x: Item, query: map<string, string>, parsePrice: string -> Option<int>)
  {
    var name := QueryParam(query, "name");
    var category := QueryParam(query, "category");
    var lo := QueryParam(query, "min_price");
    var hi := QueryParam(query, "max_price");
    && (name.Some? ==> Text.ContainsIgnoreCase(x.name, name.value))
    && (category.Some? ==> Text.ContainsIgnoreCase(x.category, category.value))
    && (lo.Some? && parsePrice(lo.value).Some? ==> x.priceCents >= parsePrice(lo.value).value)
    && (hi.Some? && parsePrice(hi.value).Some? ==> x.priceCents <= parsePrice(hi.value).value)
  }

  lemma SatisfiesAllConcat(x: Item, a: seq<Criterion>, b: seq<Criterion>)
    ensures SatisfiesAll(x, a + b) <==> SatisfiesAll(x, a) && SatisfiesAll(x, b)
  {
    assert forall c :: c in a + b <==> c in a || c in b;
  }

  lemma SatisfiesAllSingle(x: Item, c: Criterion)
    ensures SatisfiesAll(x, [c]) <==> Satisfies(x, c)
    ensures SatisfiesAll(x, [])
  {
    assert c in [c];
  }

  lemma ActiveCriteriaMeaning(x: Item, query: map<string, string>, parsePrice: string -> Option<int>)
    ensures SatisfiesAll(x, ActiveCriteria(query, parsePrice)) <==> MatchesQuery(x, query, parsePrice)
  {
    var name := QueryParam(query, "name");
    var category := QueryParam(query, "category");
    var lo := QueryParam(query, "min_price");
    var hi := QueryParam(query, "max_price");
    var a := if name.Some? then [NameContains(name.value)] else [];
    var b := if category.Some? then [CategoryContains(category.value)] else [];
    var c := if lo.Some? && parsePrice(lo.value).Some? then [PriceAtLeast(parsePrice(lo.value).value)] else [];
    var d := if hi.Some? && parsePrice(hi.value).Some? then [PriceAtMost(parsePrice(hi.value).value)] else [];
    assert ActiveCriteria(query, parsePrice) == a + b + c + d;
    SatisfiesAllSingle(x, NameContains(if name.Some? then name.value else ""));
    SatisfiesAllSingle(x, CategoryContains(if category.Some? then category.value else ""));
    if lo.Some? && parsePrice(lo.value).Some? {
      SatisfiesAllSingle(x, PriceAtLeast(parsePrice(lo.value).value));
    }
    if hi.Some? && parsePrice(hi.value).Some? {
      SatisfiesAllSingle(x, PriceAtMost(parsePrice(hi.value).value));
    }
    SatisfiesAllConcat(x, a + b + c, d);
    SatisfiesAllConcat(x, a + b, c);
    SatisfiesAllConcat(x, a, b);
  }

  /** With no filter given (absent or empty), the search returns the whole list in its order. */
  lemma SearchWithoutFilters(all: seq<Item>, query: map<string, string>, parsePrice: string -> Option<int>)
    requires forall key :: key in query ==> query[key] == "" || key !in {"name", "category", "min_price", "max_price"}
    ensures SearchResponse(all, query, parsePrice) == Response(HTTP_200_OK, Items(all))
  {
    assert QueryParam(query, "name").None? && QueryParam(query, "category").None?;
    assert QueryParam(query, "min_price").None? && QueryParam(query, "max_price").None?;
    assert ActiveCriteria(query, parsePrice) == [];
    SelectNothing(all);
  }

  /**
   * A bound that does not parse gives 400 with its own message, and the
   * minimum is checked before the maximum.
   */
  lemma SearchRejectsBadBounds(all: seq<Item>, query: map<string, string>, parsePrice: string -> Option<int>)
    ensures var lo := QueryParam(query, "min_price");
            lo.Some? && parsePrice(lo.value).None? ==>
              SearchResponse(all, query, parsePrice) == Response(HTTP_400_BAD_REQUEST, Error(InvalidMinPrice))
    ensures var lo, hi := QueryParam(query, "min_price"), QueryParam(query, "max_price");
            (lo.None? || parsePrice(lo.value).Some?) && hi.Some? && parsePrice(hi.value).None? ==>
              SearchResponse(all, query, parsePrice) == Response(HTTP_400_BAD_REQUEST, Error(InvalidMaxPrice))
    ensures SearchResponse(all, query, parsePrice).status == HTTP_200_OK <==>
            SearchResponse(all, query, parsePrice).body.Items?
  {
  }

  /**
   * A successful search returns the items of the list that meet every filter
   * (name and category ignoring case, price bounds inclusive), and no other,
   * keeping the order of the list.
   */
  lemma SearchResultIsFilteredList(all: seq<Item>, query: map<string, string>, parsePrice: string -> Option<int>)
    requires SearchResponse(all, query, parsePrice).status == HTTP_200_OK
    ensures var r := SearchResponse(all, query, parsePrice).body.items;
            && IsSubsequence(r, all)
            && forall x :: x in r <==> x in all && MatchesQuery(x, query, parsePrice)
  {
    var cs := ActiveCriteria(query, parsePrice);
    SelectIsSubsequence(all, cs);
    forall x
      ensures x in Select(all, cs) <==> x in all && MatchesQuery(x, query, parsePrice)
    {
      SelectMembers(all, cs, x);
      ActiveCriteriaMeaning(x, query, parsePrice);
    }
  }

  lemma ChocolateBarMatches()
    ensures Text.ContainsIgnoreCase("Chocolate Bar", "Chocolate")
  {
    assert Text.Lower("Chocolate") == "chocolate";
    assert Text.Lower("Chocolate Bar") == "chocolate bar";
    assert "chocolate" <= "chocolate bar";
  }

  lemma GummyBearsDoesNotMatch()
    ensures !Text.ContainsIgnoreCase("Gummy Bears", "Chocolate")
  {
    var hay, needle := Text.Lower("Gummy Bears"), Text.Lower("Chocolate");
    assert needle[0] == 'c';
    assert forall i :: 0 <= i < |hay| ==> hay[i] != 'c';
    Text.ContainsIffSlice(hay, needle);
    assert forall i :: Text.OccursAt(hay, needle, i) ==> hay[i] == needle[0];
  }

  /** The query `?name=Chocolate` sets no price bound and asks for the name filter only. */
  lemma NameOnlyQuery(parsePrice: string -> Option<int>)
    ensures QueryParam(map["name" := "Chocolate"], "min_price").None?
    ensures QueryParam(map["name" := "Chocolate"], "max_price").None?
    ensures ActiveCriteria(map["name" := "Chocolate"], parsePrice) == [NameContains("Chocolate")]
  {
    var query := map["name" := "Chocolate"];
    assert QueryParam(query, "name") == Some("Chocolate");
    assert "category" !in query && "min_price" !in query && "max_price" !in query;
  }

  /** Of "Chocolate Bar" and "Gummy Bears", the name filter "Chocolate" keeps the first only. */
  lemma ChocolateSelection()
    ensures var bar := Item("1", "Chocolate Bar", "Chocolate", 1000, 50, None);
            var bears := Item("2", "Gummy Bears", "Gummy", 1000, 50, None);
            Select([bar, bears], [NameContains("Chocolate")]) == [bar]
  {
    var bar := Item("1", "Chocolate Bar", "Chocolate", 1000, 50, None);
    var bears := Item("2", "Gummy Bears", "Gummy", 1000, 50, None);
    var cs := [NameContains("Chocolate")];
    ChocolateBarMatches();
    GummyBearsDoesNotMatch();
    assert SatisfiesAll(bar, cs);
    assert !Satisfies(bears, cs[0]) && cs[0] in cs;
    assert Select([bears], cs) == [];
    assert [bar, bears][1..] == [bears];
  }

  /** The search test: of "Chocolate Bar" and "Gummy Bears", `?name=Chocolate` finds only the first. */
  lemma SearchByNameScenario(parsePrice: string -> Option<int>)
    ensures var bar := Item("1", "Chocolate Bar", "Chocolate", 1000, 50, None);
            var bears := Item("2", "Gummy Bears", "Gummy", 1000, 50, None);
            SearchResponse([bar, bears], map["name" := "Chocolate"], parsePrice)
              == Response(HTTP_200_OK, Items([bar]))
  {
    NameOnlyQuery(parsePrice);
    ChocolateSelection();
  }

  // ------------------------------------------------------ purchase / restock

  /** The purchase reply's message; the amount can be read back from it. */
  function PurchasedMessage(amount: int, name: string): (message: string)
    ensures "Successfully purchased " <= message
    ensures Numerals.ParseInt(message[|"Successfully purchased "|..]) == Some(amount)
  {
    var prefix := "Successfully purchased ";
    Numerals.ParseIntAfterPrefix(prefix, amount, " " + name + "(s)");
    prefix + Numerals.IntToString(amount) + (" " + name + "(s)")
  }

  /** The restock reply's message; the amount can be read back from it. */
  function RestockedMessage(amount: int, name: string): (message: string)
    ensures "Successfully restocked " <= message
    ensures Numerals.ParseInt(message[|"Successfully restocked "|..]) == Some(amount)
  {
    var prefix := "Successfully restocked ";
    Numerals.ParseIntAfterPrefix(prefix, amount, " " + name + "(s)");
    prefix + Numerals.IntToString(amount) + (" " + name + "(s)")
  }

  /**
   * `POST /sweets/{id}/purchase/`: an invalid amount gives 400 with the
   * serializer's errors; a valid one is applied to the item, giving 200 with
   * the remaining quantity or 400 with the model's error text.
   */
  method PurchaseAction(sweet: Sweet, amount: SweetSerializers.AmountField) returns (resp: Response)
    modifies sweet`quantity
    ensures old(sweet.Valid()) ==> sweet.Valid()
    ensures match SweetSerializers.PurchaseAmount(amount)
            case Failure(e) =>
              resp == Response(HTTP_400_BAD_REQUEST, FieldErrors("amount", e))
              && sweet.quantity == old(sweet.quantity)
            case Success(a) =>
              match PurchaseRule(old(sweet.quantity), a)
              case Changed(q) =>
                sweet.quantity == q
                && resp == Response(HTTP_200_OK, Purchased(PurchasedMessage(a, sweet.name), q))
              case Refused(e) =>
                sweet.quantity == old(sweet.quantity) && resp == Response(HTTP_400_BAD_REQUEST, Error(e))
    ensures resp.body != Error(PurchaseNotPositive)
  {
    var validated := SweetSerializers.PurchaseAmount(amount);
    if validated.Success? {
      var a := validated.value;
      var error := sweet.Purchase(a);
      if error.None? {
        return Response(HTTP_200_OK, Purchased(PurchasedMessage(a, sweet.name), sweet.quantity));
      }
      return Response(HTTP_400_BAD_REQUEST, Error(error.value));
    }
    resp := Response(HTTP_400_BAD_REQUEST, FieldErrors("amount", validated.error));
  }

  /**
   * `POST /sweets/{id}/restock/`: an invalid amount gives 400 and changes
   * nothing; a valid one gives 200 with the old quantity plus the amount.
   */
  method RestockAction(sweet: Sweet, amount: SweetSerializers.AmountField) returns (resp: Response)
    modifies sweet`quantity
    ensures old(sweet.Valid()) ==> sweet.Valid()
    ensures match SweetSerializers.RestockAmount(amount)
            case Failure(e) =>
              resp == Response(HTTP_400_BAD_REQUEST, FieldErrors("amount", e))
              && sweet.quantity == old(sweet.quantity)
            case Success(a) =>
              sweet.quantity == old(sweet.quantity) + a
              && resp == Response(HTTP_200_OK, Restocked(RestockedMessage(a, sweet.name), sweet.quantity))
  {
    var validated := SweetSerializers.RestockAmount(amount);
    if validated.Success? {
      var a := validated.value;
      var error := sweet.Restock(a);
      if error.Some? {
        // the `except ValueError` branch: an accepted amount is at least 1, so the model never refuses it
        assert false;
      }
      return Response(HTTP_200_OK, Restocked(RestockedMessage(a, sweet.name), sweet.quantity));
    }
    resp := Response(HTTP_400_BAD_REQUEST, FieldErrors("amount", validated.error));
  }

  /** The endpoint tests: buying 5 of 50 leaves 45; 10 of 5 is a 400; restocking 20 onto 10 gives 30. */
  method EndpointScenarios() returns (bought: Response, left: int, refused: Response, kept: int,
                                      restocked: Response, grown: int)
    ensures bought.status == HTTP_200_OK && bought.body.Purchased? && bought.body.remainingQuantity == 45
    ensures left == 45
    ensures refused.status == HTTP_400_BAD_REQUEST && kept == 5
    ensures restocked.status == HTTP_200_OK && restocked.body.Restocked? && grown == 30
  {
    var a := new Sweet("a", "Test Sweet", "Test", 1000, 50, None);
    bought := PurchaseAction(a, SweetSerializers.Given(5));
    left := a.quantity;
    var b := new Sweet("b", "Test Sweet", "Test", 1000, 5, None);
    refused := PurchaseAction(b, SweetSerializers.Given(10));
    kept := b.quantity;
    var c := new Sweet("c", "Test Sweet", "Test", 1000, 10, None);
    restocked := RestockAction(c, SweetSerializers.Given(20));
    grown := c.quantity;
  }
}
