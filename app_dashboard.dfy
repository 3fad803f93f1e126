/**
 * The catalog dashboard (frontend/src/app.jsx, `Dashboard`): its state cells
 * and its handlers.  Every handler takes the outcomes of the API calls it
 * makes as parameters and records, in `requests`, the calls it issues, so
 * that "which calls, in which order" is part of the state.  SweetViews is
 * imported only to state what the backend answers to the dashboard's search.
 */
module Dashboard {
  import opened Wrappers
  import opened SweetModels
  import ApiClient
  import SweetForms
  import SweetViews
  import Text

  const LoadFailed: string := "Failed to load sweets"
  const SearchFailed: string := "Search failed"
  const SweetUpdated: string := "Sweet updated successfully!"
  const SweetAdded: string := "Sweet added successfully!"
  const SaveFailed: string := "Failed to save sweet"
  const SweetDeleted: string := "Sweet deleted successfully!"
  const DeleteFailed: string := "Failed to delete sweet"

  /** An API call the dashboard issues. */
  datatype Request =
    | GetSweets
    | SearchSweets(params: map<string, string>)
    | CreateSweet(data: SweetForms.SweetData)
    | UpdateSweet(id: string, data: SweetForms.SweetData)
    | DeleteSweet(id: string)
    | PurchaseSweet(id: string, amount: int)
    | RestockSweet(id: string, amount: int)

  /** What `api.getSweets` or `api.searchSweets` yields: a parsed body, or a thrown error. */
  datatype ListReply = Fetched(data: ApiClient.ListPayload) | FetchFailed

  /** What `api.createSweet` or `api.updateSweet` yields. */
  datatype SaveReply = Saved | NotSaved

  /** What `api.deleteSweet` yields: `res.ok` when a response came back, or a transport error. */
  datatype DeleteReply = Answered(ok: bool) | TransportFailed

  /** The search parameters `handleSearch` builds: each field only when it is not empty. */
  function SearchParams(searchName: string, searchCategory: string): (p: map<string, string>)
    ensures p.Keys <= {"name", "category"}
    ensures forall k :: k in p ==> p[k] != ""
  {
    var withName := if searchName != "" then map["name" := searchName] else map[];
    if searchCategory != "" then withName["category" := searchCategory] else withName
  }

  lemma SearchParamsMeaning(searchName: string, searchCategory: string)
    ensures var p := SearchParams(searchName, searchCategory);
            && ("name" in p <==> searchName != "")
            && ("name" in p ==> p["name"] == searchName)
            && ("category" in p <==> searchCategory != "")
            && ("category" in p ==> p["category"] == searchCategory)
            && p.Keys <= {"name", "category"}
            && (|p| == 0 <==> searchName == "" && searchCategory == "")
  {
    var p := SearchParams(searchName, searchCategory);
    if searchName != "" || searchCategory != "" {
      assert ("name" in p || "category" in p) && |p| != 0;
    }
  }

  /**
   * What the backend does with the dashboard's search: the client never sends
   * a price bound, so the search cannot fail, and it returns the items whose
   * name and category contain the typed texts, ignoring case, in list order.
   */
  lemma DashboardSearchAnswer(all: seq<Item>, searchName: string, searchCategory: string,
                              parsePrice: string -> Option<int>)
    ensures var resp := SweetViews.SearchResponse(all, SearchParams(searchName, searchCategory), parsePrice);
            && resp.status == SweetViews.HTTP_200_OK
            && SweetViews.IsSubsequence(resp.body.items, all)
            && forall x :: x in resp.body.items <==>
                 && x in all
                 && (searchName != "" ==> Text.ContainsIgnoreCase(x.name, searchName))
                 && (searchCategory != "" ==> Text.ContainsIgnoreCase(x.category, searchCategory))
  {
    var query := SearchParams(searchName, searchCategory);
    SearchParamsMeaning(searchName, searchCategory);
    assert "min_price" !in query && "max_price" !in query;
    SweetViews.SearchResultIsFilteredList(all, query, parsePrice);
  }

  class Dashboard {
    var sweets: seq<Item>
    var searchName: string
    var searchCategory: string
    var showForm: bool
    var editing: Option<Item>
    var message: string
    var loading: bool
    /** The API calls issued so far, oldest first. */
    var requests: seq<Request>

    /** The state before the first render. */
    constructor ()
      ensures sweets == [] && searchName == "" && searchCategory == ""
      ensures !showForm && editing == None && message == "" && loading
      ensures requests == []
    {
      sweets := [];
      searchName := "";
      searchCategory := "";
      showForm := false;
      editing := None;
      message := "";
      loading := true;
      requests := [];
    }

    /** `loadSweets`: fetches the whole list and shows it, or reports the failure. */
    method LoadSweets(reply: ListReply)
      modifies this`sweets, this`message, this`loading, this`requests
      ensures requests == old(requests) + [GetSweets]
      ensures reply.Fetched? ==> sweets == ApiClient.NormaliseList(reply.data) && message == old(message)
      ensures reply.FetchFailed? ==> sweets == old(sweets) && message == LoadFailed
      ensures !loading
    {
      loading := true;
      requests := requests + [GetSweets];
      match reply {
        case Fetched(data) =>
          sweets := ApiClient.NormaliseList(data);
        case FetchFailed =>
          message := LoadFailed;
      }
      loading := false;
    }

    /** The mount effect: the first render loads the list, once. */
    method Mount(reply: ListReply)
      modifies this`sweets, this`message, this`loading, this`requests
      ensures requests == old(requests) + [GetSweets]
      ensures reply.Fetched? ==> sweets == ApiClient.NormaliseList(reply.data) && message == old(message)
      ensures reply.FetchFailed? ==> sweets == old(sweets) && message == LoadFailed
      ensures !loading
    {
      LoadSweets(reply);
    }

    /** `handleSearch`: an empty filter reloads the list; otherwise one search call. */
    method HandleSearch(searchReply: ListReply, reload: ListReply)
      modifies this`sweets, this`message, this`loading, this`requests
      ensures var params := SearchParams(searchName, searchCategory);
              if params == map[] then
                && requests == old(requests) + [GetSweets]
                && (reload.Fetched? ==> sweets == ApiClient.NormaliseList(reload.data) && message == old(message))
                && (reload.FetchFailed? ==> sweets == old(sweets) && message == LoadFailed)
                && !loading
              else
                && requests == old(requests) + [SearchSweets(params)]
                && (searchReply.Fetched? ==>
                      sweets == ApiClient.NormaliseSearch(searchReply.data) && message == old(message))
                && (searchReply.FetchFailed? ==> sweets == old(sweets) && message == SearchFailed)
                && loading == old(loading)
    {
      var params: map<string, string> := map[];
      if searchName != "" {
        params := params["name" := searchName];
      }
      if searchCategory != "" {
        params := params["category" := searchCategory];
      }
      assert params == SearchParams(searchName, searchCategory);
      SearchParamsMeaning(searchName, searchCategory);
      if |params| == 0 {
        LoadSweets(reload);
        return;
      }
      requests := requests + [SearchSweets(params)];
      match searchReply
      case Fetched(data) =>
        sweets := ApiClient.NormaliseSearch(data);
      case FetchFailed =>
        message := SearchFailed;
    }

    /** `handlePurchase`: on success shows the reply's message and reloads once. */
    method HandlePurchase(id: string, amount: int, reply: ApiClient.ActionReply, reload: ListReply)
      modifies this`sweets, this`message, this`loading, this`requests
      ensures reply.Done? ==>
                && requests == old(requests) + [PurchaseSweet(id, amount), GetSweets]
                && (reload.Fetched? ==> message == reply.message && sweets == ApiClient.NormaliseList(reload.data))
                && (reload.FetchFailed? ==> message == LoadFailed && sweets == old(sweets))
                && !loading
      ensures reply.Failed? ==>
                && requests == old(requests) + [PurchaseSweet(id, amount)]
                && message == ApiClient.OrElse(reply.message, ApiClient.PurchaseFailed)
                && sweets == old(sweets) && loading == old(loading)
    {
      requests := requests + [PurchaseSweet(id, amount)];
      match reply
      case Done(m) =>
        message := m;
        LoadSweets(reload);
      case Failed(m) =>
        message := ApiClient.OrElse(m, ApiClient.PurchaseFailed);
    }

    /** `handleRestock`: as `handlePurchase`, with its own fallback message. */
    method HandleRestock(id: string, amount: int, reply: ApiClient.ActionReply, reload: ListReply)
      modifies this`sweets, this`message, this`loading, this`requests
      ensures reply.Done? ==>
                && requests == old(requests) + [RestockSweet(id, amount), GetSweets]
                && (reload.Fetched? ==> message == reply.message && sweets == ApiClient.NormaliseList(reload.data))
                && (reload.FetchFailed? ==> message == LoadFailed && sweets == old(sweets))
                && !loading
      ensures reply.Failed? ==>
                && requests == old(requests) + [RestockSweet(id, amount)]
                && message == ApiClient.OrElse(reply.message, ApiClient.RestockFailed)
                && sweets == old(sweets) && loading == old(loading)
    {
      requests := requests + [RestockSweet(id, amount)];
      match reply
      case Done(m) =>
        message := m;
        LoadSweets(reload);
      case Failed(m) =>
        message := ApiClient.OrElse(m, ApiClient.RestockFailed);
    }

    /** The "Add Sweet" button, the edit button of a card, and the form's cancel button. */
    method OpenForm(item: Option<Item>)
      modifies this`showForm, this`editing
      ensures showForm && editing == item
    {
      editing := item;
      showForm := true;
    }

    method CancelForm()
      modifies this`showForm, this`editing
      ensures !showForm && editing == None
    {
      showForm := false;
      editing := None;
    }

    /**
     * `handleSave`: updates the item being edited, or creates one when none is;
     * on success closes the form and reloads once; on failure keeps the form.
     */
    method HandleSave(data: SweetForms.SweetData, reply: SaveReply, reload: ListReply)
      modifies this`sweets, this`message, this`loading, this`requests, this`showForm, this`editing
      ensures var call := if old(editing).Some? then UpdateSweet(old(editing).value.id, data) else CreateSweet(data);
              var done := if old(editing).Some? then SweetUpdated else SweetAdded;
              if reply.Saved? then
                && requests == old(requests) + [call, GetSweets]
                && !showForm && editing == None && !loading
                && (reload.Fetched? ==> message == done && sweets == ApiClient.NormaliseList(reload.data))
                && (reload.FetchFailed? ==> message == LoadFailed && sweets == old(sweets))
              else
                && requests == old(requests) + [call]
                && message == SaveFailed
                && showForm == old(showForm) && editing == old(editing)
                && sweets == old(sweets) && loading == old(loading)
    {
      if editing.Some? {
        requests := requests + [UpdateSweet(editing.value.id, data)];
        if reply.NotSaved? {
          message := SaveFailed;
          return;
        }
        message := SweetUpdated;
      } else {
        requests := requests + [CreateSweet(data)];
        if reply.NotSaved? {
          message := SaveFailed;
          return;
        }
        message := SweetAdded;
      }
      showForm := false;
      editing := None;
      LoadSweets(reload);
    }

    /**
     * `handleDelete`: nothing at all happens unless the user confirms.  A
     * response of any status counts as success, since `api.deleteSweet` only
     * returns `res.ok` and never throws on it; only a transport error is
     * reported as a failure.
     */
    method HandleDelete(id: string, confirmed: bool, reply: DeleteReply, reload: ListReply)
      modifies this`sweets, this`message, this`loading, this`requests
      ensures !confirmed ==>
                requests == old(requests) && message == old(message)
                && sweets == old(sweets) && loading == old(loading)
      ensures confirmed && reply.Answered? ==>
                && requests == old(requests) + [DeleteSweet(id), GetSweets]
                && (reload.Fetched? ==> message == SweetDeleted && sweets == ApiClient.NormaliseList(reload.data))
                && (reload.FetchFailed? ==> message == LoadFailed && sweets == old(sweets))
                && !loading
      ensures confirmed && reply.TransportFailed? ==>
                && requests == old(requests) + [DeleteSweet(id)]
                && message == DeleteFailed && sweets == old(sweets) && loading == old(loading)
    {
      if !confirmed {
        return;
      }
      requests := requests + [DeleteSweet(id)];
      if reply.TransportFailed? {
        message := DeleteFailed;
        return;
      }
      message := SweetDeleted;
      LoadSweets(reload);
    }
  }

  /** The number of full reloads in a sequence of calls. */
  function Reloads(rs: seq<Request>): (n: nat)
    ensures n <= |rs|
  {
    if rs == [] then 0 else (if rs[0] == GetSweets then 1 else 0) + Reloads(rs[1..])
  }

  lemma {:induction false} ReloadsAppend(rs: seq<Request>, more: seq<Request>)
    ensures Reloads(rs + more) == Reloads(rs) + Reloads(more)
  {
    if rs == [] {
      assert rs + more == more;
    } else {
      assert (rs + more)[1..] == rs[1..] + more;
      ReloadsAppend(rs[1..], more);
    }
  }

  /**
   * A successful mutation is followed by exactly one reload, a failed one by
   * none: the calls a handler adds are the mutation itself and, on success,
   * one `GetSweets`.
   */
  lemma OneReloadAfterMutation(rs: seq<Request>, mutation: Request, succeeded: bool)
    requires mutation != GetSweets
    ensures Reloads(rs + [mutation] + (if succeeded then [GetSweets] else []))
            == Reloads(rs) + (if succeeded then 1 else 0)
  {
    ReloadsAppend(rs, [mutation]);
    ReloadsAppend(rs + [mutation], if succeeded then [GetSweets] else []);
  }

  /**
   * The purchase scenario: buying 3 of an item with 2 left is refused with the
   * backend's message, and the displayed list keeps its old quantity.
   */
  method RefusedPurchaseScenario(item: Item) returns (shown: string, list: seq<Item>)
    requires item.quantity == 2
    ensures shown == InsufficientStock(2) && list == [item]
  {
    var board := new Dashboard();
    board.LoadSweets(Fetched(ApiClient.JsonArray([item])));
    var reply := ApiClient.PurchaseReply(SweetViews.Response(SweetViews.HTTP_400_BAD_REQUEST,
                   SweetViews.Error(PurchaseRule(item.quantity, 3).error)));
    board.HandlePurchase(item.id, 3, reply, FetchFailed);
    shown := board.message;
    list := board.sweets;
  }
}
