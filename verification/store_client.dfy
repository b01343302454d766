/**
 * The store client `RohlikAPI`: every public operation logs in, does its requests inside
 * a `try`, and logs out in the `finally`. The HTTP layer is abstracted into a `Server`
 * value that gives, per request, either a parsed reply or a thrown error; the model
 * returns the reply together with the trace of requests made.
 */
module StoreClient {
  import opened Wrappers
  import opened Seqs

  // ---------------------------------------------------------------------------
  // Errors, outcomes and the call trace.

  /** What a public operation can throw. */
  datatype ApiError =
    | HttpError(status: int)              // `makeRequest` on a non-ok response
    | InvalidCredentials                  // login status 401
    | LoginFailed(detail: string)         // any other login status
    | MissingPrice                        // a kept search hit without `price`

  /** A returned value or a thrown error. */
  datatype Outcome<+T> = Returned(value: T) | Threw(error: ApiError)

  /** One request to the store. */
  datatype Call =
    | Login
    | Logout
    | Search(query: string, limit: int)
    | CartPost(productId: int, quantity: int)
    | CartGet
    | CartDelete(orderFieldId: string)
    | ShoppingListGet(shoppingListId: string)
  {
    /** A request made between login and logout. */
    predicate IsRequest()
    {
      !Login? && !Logout?
    }
  }

  /** An operation's outcome and the requests it made, in order. */
  datatype Run<+T> = Run(outcome: Outcome<T>, calls: seq<Call>)

  // ---------------------------------------------------------------------------
  // Replies the server can give.

  /** The login body: its `status` field and the first message's `content`. */
  datatype LoginReply = LoginReply(status: Option<int>, firstMessage: Option<string>)

  datatype Badge = Badge(slug: Option<string>)
  datatype Price = Price(full: string, currency: string)

  /** One entry of `data.productList`. */
  datatype Listing = Listing(
    productId: Option<int>,
    productName: Option<string>,
    price: Option<Price>,
    brand: Option<string>,
    textualAmount: Option<string>,
    badge: Option<seq<Badge>>,
    favourite: bool)

  /** The search body: `data.productList`, absent when `data` or the list is missing. */
  datatype SearchReply = SearchReply(productList: Option<seq<Listing>>)

  /** One value of `data.items` in the cart body. */
  datatype CartItemData = CartItemData(
    orderFieldId: Option<string>,
    productName: Option<string>,
    quantity: Option<int>,
    price: Option<real>,
    primaryCategoryName: Option<string>,
    brand: Option<string>)

  /** The cart `data`: `items` as its key/value entries in enumeration order. */
  datatype CartData = CartData(
    totalPrice: Option<real>,
    items: Option<seq<(string, CartItemData)>>,
    submitConditionPassed: Option<bool>)

  datatype CartReply = CartReply(data: Option<CartData>)

  /** A shopping list object; the products are passed through untouched. */
  datatype ListData<P> = ListData(name: Option<string>, products: Option<seq<P>>)

  /** The list body: either wrapped in `data` or the list object itself. */
  datatype ListReply<P> = ListReply(data: Option<ListData<P>>, direct: ListData<P>)

  /** The store's replies, one per kind of request. */
  datatype Server<P> = Server(
    login: Outcome<LoginReply>,
    logout: Outcome<()>,
    search: (string, int) -> Outcome<SearchReply>,
    cartPost: (int, int) -> Outcome<()>,
    cart: Outcome<CartReply>,
    cartDelete: string -> Outcome<()>,
    shoppingList: string -> Outcome<ListReply<P>>)

  // ---------------------------------------------------------------------------
  // Login and the session bracket.

  /** `response.status` decides the login: 200 passes, 401 is bad credentials, anything else fails. */
  function CheckLogin(reply: LoginReply): (r: Outcome<()>)
    ensures r.Returned? <==> reply.status == Some(200)
    ensures reply.status == Some(401) ==> r == Threw(InvalidCredentials)
    ensures r.Threw? && reply.status != Some(401) ==> r.error.LoginFailed?
    ensures r.Threw? && reply.status != Some(401) && reply.firstMessage.Some? && reply.firstMessage.value != "" ==>
      r.error.detail == reply.firstMessage.value
    ensures r.Threw? && reply.status != Some(401) && (reply.firstMessage.None? || reply.firstMessage.value == "") ==>
      r.error.detail == "Unknown error"
  {
    if reply.status == Some(200) then Returned(())
    else if reply.status == Some(401) then Threw(InvalidCredentials)
    else
      var detail := match reply.firstMessage
        case Some(m) => if m != "" then m else "Unknown error"
        case None => "Unknown error";
      Threw(LoginFailed(detail))
  }

  /** The text of a login error. */
  function LoginMessage(e: ApiError): (msg: string)
    requires e.InvalidCredentials? || e.LoginFailed?
    ensures e.InvalidCredentials? ==> msg == "Invalid credentials"
    ensures e.LoginFailed? ==> |msg| >= 14 && msg[..14] == "Login failed: " && msg[14..] == e.detail
  {
    if e.InvalidCredentials? then "Invalid credentials" else "Login failed: " + e.detail
  }

  /** `login()`: the request's own failure, or the status check of its body. */
  function LoginOutcome<P>(server: Server<P>): Outcome<()>
  {
    match server.login
    case Threw(e) => Threw(e)
    case Returned(reply) => CheckLogin(reply)
  }

  /** The trace shape every public operation produces. */
  predicate Bracketed(calls: seq<Call>, loggedIn: bool)
  {
    if !loggedIn then calls == [Login]
    else
      && |calls| >= 2
      && calls[0] == Login
      && calls[|calls| - 1] == Logout
      && forall i :: 0 < i < |calls| - 1 ==> calls[i].IsRequest()
  }

  /**
   * `await this.login(); try { body } finally { await this.logout(); }`: a failed login
   * throws before anything else; otherwise logout always follows the body. A failing
   * logout replaces the body's outcome, and after a successful one the body's value or
   * error is what the caller sees.
   */
  function Session<P, T>(server: Server<P>, body: Run<T>): (r: Run<T>)
    requires forall i :: 0 <= i < |body.calls| ==> body.calls[i].IsRequest()
    ensures Bracketed(r.calls, LoginOutcome(server).Returned?)
    ensures LoginOutcome(server).Threw? ==> r.outcome == Threw(LoginOutcome(server).error)
    ensures LoginOutcome(server).Returned? ==> r.calls[1..|r.calls| - 1] == body.calls
    ensures r.outcome.Returned? <==>
      LoginOutcome(server).Returned? && server.logout.Returned? && body.outcome.Returned?
    ensures r.outcome.Returned? ==> r.outcome == body.outcome
    ensures LoginOutcome(server).Returned? && server.logout.Threw? ==> r.outcome == Threw(server.logout.error)
    ensures LoginOutcome(server).Returned? && server.logout.Returned? ==> r.outcome == body.outcome
  {
    match LoginOutcome(server)
    case Threw(e) => Run(Threw(e), [Login])
    case Returned(_) =>
      var outcome := match server.logout
        case Threw(e) => Threw(e)
        case Returned(_) => body.outcome;
      Run(outcome, [Login] + body.calls + [Logout])
  }

  // ---------------------------------------------------------------------------
  // searchProducts.

  /** Some badge has slug `promoted`. */
  predicate Promoted(p: Listing)
  {
    p.badge.Some? && exists i :: 0 <= i < |p.badge.value| && p.badge.value[i].slug == Some("promoted")
  }

  /** The combined condition of the two filters. */
  predicate Eligible(p: Listing, favouriteOnly: bool)
  {
    !Promoted(p) && (favouriteOnly ==> p.favourite)
  }

  predicate NotPromoted(p: Listing)
  {
    !Promoted(p)
  }

  predicate IsFavourite(p: Listing)
  {
    p.favourite
  }

  /** The two filters of the pipeline, applied one after the other. */
  function TwoFilters(list: seq<Listing>, favouriteOnly: bool): seq<Listing>
  {
    var unsponsored := Filter(list, NotPromoted);
    if favouriteOnly then Filter(unsponsored, IsFavourite) else unsponsored
  }

  /** The two filters keep exactly the eligible hits, in order. */
  lemma TwoFiltersAreOne(list: seq<Listing>, favouriteOnly: bool)
    ensures TwoFilters(list, favouriteOnly) == Filter(list, p => Eligible(p, favouriteOnly))
  {
    if favouriteOnly {
      FilterFusion(list, NotPromoted, IsFavourite, p => Eligible(p, favouriteOnly));
    } else {
      FilterSame(list, NotPromoted, p => Eligible(p, favouriteOnly));
    }
  }

  /** What the two filters and the slice keep. */
  lemma SelectionFacts(list: seq<Listing>, limit: nat, favouriteOnly: bool)
    ensures var r := Take(TwoFilters(list, favouriteOnly), limit);
      && IsSubsequence(r, list)
      && (forall i :: 0 <= i < |r| ==> Eligible(r[i], favouriteOnly))
      && r == Take(Filter(list, p => Eligible(p, favouriteOnly)), limit)
  {
    var eligible := Filter(list, p => Eligible(p, favouriteOnly));
    TwoFiltersAreOne(list, favouriteOnly);
    FilterIsSubsequence(list, p => Eligible(p, favouriteOnly));
    var r := Take(eligible, limit);
    SubsequencePrefix(eligible, list, |r|);
    assert r == eligible[..|r|];
    forall i | 0 <= i < |r| ensures Eligible(r[i], favouriteOnly) {
      assert r[i] == eligible[i];
      assert eligible[i] in eligible;
    }
  }

  /** Drop promoted hits, keep favourites if asked, then `slice(0, limit)`. */
  function SelectProducts(list: seq<Listing>, limit: nat, favouriteOnly: bool): (r: seq<Listing>)
    ensures IsSubsequence(r, list)
    ensures |r| <= limit
    ensures forall i :: 0 <= i < |r| ==> !Promoted(r[i])
    ensures favouriteOnly ==> forall i :: 0 <= i < |r| ==> r[i].favourite
    ensures r == Take(Filter(list, p => Eligible(p, favouriteOnly)), limit)
  {
    SelectionFacts(list, limit, favouriteOnly);
    Take(TwoFilters(list, favouriteOnly), limit)
  }

  /** One search result. */
  datatype SearchResult = SearchResult(
    id: Option<int>,
    name: Option<string>,
    price: string,
    brand: Option<string>,
    amount: Option<string>)

  /** The result mapping; reading `p.price.full` of a hit without `price` throws. */
  function ToResults(kept: seq<Listing>): (r: Outcome<seq<SearchResult>>)
    ensures r.Returned? <==> forall i :: 0 <= i < |kept| ==> kept[i].price.Some?
    ensures r.Threw? ==> r.error == MissingPrice
    ensures r.Returned? ==> |r.value| == |kept| && forall i :: 0 <= i < |kept| ==>
      && r.value[i].id == kept[i].productId
      && r.value[i].name == kept[i].productName
      && r.value[i].price == kept[i].price.value.full + " " + kept[i].price.value.currency
      && r.value[i].brand == kept[i].brand
      && r.value[i].amount == kept[i].textualAmount
  {
    if kept == [] then Returned([])
    else match kept[0].price
      case None => Threw(MissingPrice)
      case Some(price) =>
        var head := SearchResult(kept[0].productId, kept[0].productName,
                                 price.full + " " + price.currency, kept[0].brand, kept[0].textualAmount);
        match ToResults(kept[1..])
        case Threw(e) => Threw(e)
        case Returned(rest) => Returned([head] + rest)
  }

  /** The request's own part of `searchProducts`: it asks the server for `limit + 5` hits. */
  function SearchBody<P>(server: Server<P>, query: string, limit: nat, favouriteOnly: bool): Run<seq<SearchResult>>
  {
    var call := Search(query, limit + 5);
    match server.search(query, limit + 5)
    case Threw(e) => Run(Threw(e), [call])
    case Returned(reply) => Run(ToResults(SelectProducts(reply.productList.GetOr([]), limit, favouriteOnly)), [call])
  }

  /** `searchProducts(productName, limit, favouriteOnly)`. */
  function SearchProducts<P>(server: Server<P>, query: string, limit: nat, favouriteOnly: bool): (r: Run<seq<SearchResult>>)
    ensures Bracketed(r.calls, LoginOutcome(server).Returned?)
    ensures LoginOutcome(server).Returned? ==> r.calls == [Login, Search(query, limit + 5), Logout]
    ensures r.outcome.Returned? ==>
      && server.search(query, limit + 5).Returned?
      && var list := server.search(query, limit + 5).value.productList.GetOr([]);
         var kept := SelectProducts(list, limit, favouriteOnly);
         && |r.outcome.value| == |kept| <= limit
         && forall i :: 0 <= i < |kept| ==> r.outcome.value[i].id == kept[i].productId
    ensures r.outcome.Returned? ==>
      r.outcome == ToResults(SelectProducts(server.search(query, limit + 5).value.productList.GetOr([]), limit, favouriteOnly))
    ensures LoginOutcome(server).Returned? && server.logout.Returned? ==>
      match server.search(query, limit + 5)
      case Threw(e) => r.outcome == Threw(e)
      case Returned(reply) => r.outcome == ToResults(SelectProducts(reply.productList.GetOr([]), limit, favouriteOnly))
  {
    var body := SearchBody(server, query, limit, favouriteOnly);
    var r := Session(server, body);
    assert LoginOutcome(server).Returned? ==> r.calls == [Login] + body.calls + [Logout];
    r
  }

  // ---------------------------------------------------------------------------
  // addToCart.

  /** One requested cart line: `product_id` and `quantity`. */
  datatype CartLine = CartLine(productId: int, quantity: int)

  /** Whether the store accepted the line's POST. */
  predicate Accepted<P>(server: Server<P>, line: CartLine)
  {
    server.cartPost(line.productId, line.quantity).Returned?
  }

  /** The ids of a list of lines. */
  function Ids(lines: seq<CartLine>): (ids: seq<int>)
    ensures |ids| == |lines|
    ensures forall i :: 0 <= i < |lines| ==> ids[i] == lines[i].productId
  {
    seq(|lines|, i requires 0 <= i < |lines| => lines[i].productId)
  }

  /** One POST per line, in order. */
  function Posts(lines: seq<CartLine>): (calls: seq<Call>)
    ensures |calls| == |lines|
    ensures forall i :: 0 <= i < |lines| ==> calls[i] == CartPost(lines[i].productId, lines[i].quantity)
  {
    seq(|lines|, i requires 0 <= i < |lines| => CartPost(lines[i].productId, lines[i].quantity))
  }

  /** The ids of the lines whose POST succeeded, in request order. */
  function AcceptedIds<P>(server: Server<P>, lines: seq<CartLine>): seq<int>
  {
    Ids(Filter(lines, l => Accepted(server, l)))
  }

  /** Keeping the ids of selected lines selects among all ids. */
  lemma {:induction false} IdsOfSubsequence(a: seq<CartLine>, b: seq<CartLine>)
    requires IsSubsequence(a, b)
    ensures IsSubsequence(Ids(a), Ids(b))
    decreases |b|
  {
    if a != [] && b != [] {
      assert Ids(b)[1..] == Ids(b[1..]);
      if a[0] == b[0] {
        IdsOfSubsequence(a[1..], b[1..]);
        assert Ids(a)[1..] == Ids(a[1..]);
      } else {
        IdsOfSubsequence(a, b[1..]);
        SubsequenceCons(Ids(a), Ids(b[1..]), b[0].productId);
        assert [b[0].productId] + Ids(b[1..]) == Ids(b);
      }
    }
  }

  /** Filtering a one-longer prefix adds the new line exactly when it is kept. */
  lemma FilterSnoc<T>(s: seq<T>, x: T, keep: T -> bool)
    ensures Filter(s + [x], keep) == Filter(s, keep) + (if keep(x) then [x] else [])
  {
    FilterAppend(s, [x], keep);
    assert Filter([x], keep) == (if keep(x) then [x] else []) + Filter([], keep);
  }

  /**
   * The `for` loop of `addToCart`: every line is posted, a failing POST is logged and
   * skipped, and the ids of the successful ones are collected.
   */
  method PostAll<P>(server: Server<P>, lines: seq<CartLine>) returns (added: seq<int>, calls: seq<Call>)
    ensures added == AcceptedIds(server, lines)
    ensures calls == Posts(lines)
  {
    added, calls := [], [];
    var i := 0;
    while i < |lines|
      invariant 0 <= i <= |lines|
      decreases |lines| - i
      invariant added == AcceptedIds(server, lines[..i])
      invariant calls == Posts(lines[..i])
    {
      var line := lines[i];
      calls := calls + [CartPost(line.productId, line.quantity)];
      match server.cartPost(line.productId, line.quantity) {
        case Returned(_) =>
          added := added + [line.productId];
        case Threw(_) =>
      }
      FilterSnoc(lines[..i], line, l => Accepted(server, l));
      assert lines[..i + 1] == lines[..i] + [line];
      i := i + 1;
    }
    assert lines[..|lines|] == lines;
  }

  /** `addToCart(products)`. */
  method AddToCart<P>(server: Server<P>, lines: seq<CartLine>) returns (r: Run<seq<int>>)
    ensures Bracketed(r.calls, LoginOutcome(server).Returned?)
    ensures LoginOutcome(server).Returned? ==> r.calls == [Login] + Posts(lines) + [Logout]
    ensures r.outcome.Returned? <==> LoginOutcome(server).Returned? && server.logout.Returned?
    ensures r.outcome.Returned? ==> r.outcome.value == AcceptedIds(server, lines)
    ensures r.outcome.Returned? ==> IsSubsequence(r.outcome.value, Ids(lines))
  {
    var added, posts := PostAll(server, lines);
    r := Session(server, Run(Returned(added), posts));
    FilterIsSubsequence(lines, l => Accepted(server, l));
    IdsOfSubsequence(Filter(lines, l => Accepted(server, l)), lines);
  }

  // ---------------------------------------------------------------------------
  // getCartContent.

  /** One mapped cart product. */
  datatype CartProduct = CartProduct(
    id: string,
    cartItemId: string,
    name: string,
    quantity: int,
    price: real,
    categoryName: string,
    brand: string)

  /** The mapped cart. */
  datatype CartContent = CartContent(totalPrice: real, totalItems: nat, canMakeOrder: bool, products: seq<CartProduct>)

  /** One `[productId, productData]` entry mapped with the field defaults. */
  function ToCartProduct(entry: (string, CartItemData)): (p: CartProduct)
    ensures p.id == entry.0
    ensures entry.1.orderFieldId.Some? ==> p.cartItemId == entry.1.orderFieldId.value
    ensures entry.1.orderFieldId.None? ==> p.cartItemId == ""
    ensures entry.1.productName.None? ==> p.name == ""
    ensures entry.1.productName.Some? ==> p.name == entry.1.productName.value
    ensures entry.1.quantity.None? ==> p.quantity == 0
    ensures entry.1.quantity.Some? ==> p.quantity == entry.1.quantity.value
    ensures entry.1.price.None? ==> p.price == 0.0
    ensures entry.1.price.Some? ==> p.price == entry.1.price.value
    ensures entry.1.primaryCategoryName.None? ==> p.categoryName == ""
    ensures entry.1.primaryCategoryName.Some? ==> p.categoryName == entry.1.primaryCategoryName.value
    ensures entry.1.brand.None? ==> p.brand == ""
    ensures entry.1.brand.Some? ==> p.brand == entry.1.brand.value
  {
    var d := entry.1;
    CartProduct(entry.0, d.orderFieldId.GetOr(""), d.productName.GetOr(""), d.quantity.GetOr(0),
                d.price.GetOr(0.0), d.primaryCategoryName.GetOr(""), d.brand.GetOr(""))
  }

  /** The cart mapping of the body's `data`. */
  function MapCart(reply: CartReply): (c: CartContent)
    ensures var entries := if reply.data.Some? then reply.data.value.items.GetOr([]) else [];
      && c.totalItems == |entries| == |c.products|
      && (forall i :: 0 <= i < |entries| ==> c.products[i] == ToCartProduct(entries[i]))
    ensures reply.data.None? ==> c == CartContent(0.0, 0, false, [])
    ensures reply.data.Some? && reply.data.value.totalPrice.None? ==> c.totalPrice == 0.0
    ensures reply.data.Some? && reply.data.value.totalPrice.Some? ==> c.totalPrice == reply.data.value.totalPrice.value
    ensures reply.data.Some? && reply.data.value.submitConditionPassed.None? ==> !c.canMakeOrder
    ensures reply.data.Some? && reply.data.value.submitConditionPassed.Some? ==>
      c.canMakeOrder == reply.data.value.submitConditionPassed.value
    ensures DistinctKeys(if reply.data.Some? then reply.data.value.items.GetOr([]) else []) ==>
      c.totalItems == |set i | 0 <= i < |c.products| :: c.products[i].id|
  {
    var data := reply.data.GetOr(CartData(None, None, None));
    var entries := data.items.GetOr([]);
    var c := CartContent(data.totalPrice.GetOr(0.0), |entries|, data.submitConditionPassed.GetOr(false),
                         seq(|entries|, i requires 0 <= i < |entries| => ToCartProduct(entries[i])));
    if DistinctKeys(entries) then
      TotalItemsCountsIds(entries);
      assert (set i | 0 <= i < |entries| :: entries[i].0) == (set i | 0 <= i < |c.products| :: c.products[i].id) by {
        forall i | 0 <= i < |entries| ensures c.products[i].id == entries[i].0 {
          assert c.products[i] == ToCartProduct(entries[i]);
        }
      }
      c
    else c
  }

  /** Object keys never repeat. */
  predicate DistinctKeys(entries: seq<(string, CartItemData)>)
  {
    forall i, j :: 0 <= i < j < |entries| ==> entries[i].0 != entries[j].0
  }

  /** With distinct keys, `total_items` is the number of distinct product ids in the cart. */
  lemma {:induction false} TotalItemsCountsIds(entries: seq<(string, CartItemData)>)
    requires DistinctKeys(entries)
    ensures |entries| == |set i | 0 <= i < |entries| :: entries[i].0|
  {
    if entries != [] {
      var rest := entries[1..];
      TotalItemsCountsIds(rest);
      var keys := set i | 0 <= i < |entries| :: entries[i].0;
      var restKeys := set i | 0 <= i < |rest| :: rest[i].0;
      assert keys == {entries[0].0} + restKeys by {
        forall k | k in keys ensures k in {entries[0].0} + restKeys {
          var i :| 0 <= i < |entries| && entries[i].0 == k;
          if i > 0 { assert rest[i - 1].0 == k; }
        }
        forall k | k in restKeys ensures k in keys {
          var i :| 0 <= i < |rest| && rest[i].0 == k;
          assert entries[i + 1].0 == k;
        }
      }
      assert entries[0].0 !in restKeys by {
        forall i | 0 <= i < |rest| ensures rest[i].0 != entries[0].0 {
          assert rest[i] == entries[i + 1];
        }
      }
    }
  }

  /** `getCartContent()`. */
  function GetCartContent<P>(server: Server<P>): (r: Run<CartContent>)
    ensures Bracketed(r.calls, LoginOutcome(server).Returned?)
    ensures LoginOutcome(server).Returned? ==> r.calls == [Login, CartGet, Logout]
    ensures r.outcome.Returned? ==> server.cart.Returned? && r.outcome.value == MapCart(server.cart.value)
    ensures r.outcome.Returned? ==> r.outcome.value.totalItems == |r.outcome.value.products|
    ensures LoginOutcome(server).Returned? && server.logout.Returned? ==>
      r.outcome == match server.cart
        case Threw(e) => Threw(e)
        case Returned(reply) => Returned(MapCart(reply))
  {
    var body := match server.cart
      case Threw(e) => Run(Threw(e), [CartGet])
      case Returned(reply) => Run(Returned(MapCart(reply)), [CartGet]);
    var r := Session(server, body);
    assert LoginOutcome(server).Returned? ==> r.calls == [Login] + body.calls + [Logout];
    r
  }

  // ---------------------------------------------------------------------------
  // removeFromCart and getShoppingList.

  /** `removeFromCart(orderFieldId)`: a failing DELETE is reported as `false`, not thrown. */
  function RemoveFromCart<P>(server: Server<P>, orderFieldId: string): (r: Run<bool>)
    ensures Bracketed(r.calls, LoginOutcome(server).Returned?)
    ensures LoginOutcome(server).Returned? ==> r.calls == [Login, CartDelete(orderFieldId), Logout]
    ensures r.outcome.Returned? <==> LoginOutcome(server).Returned? && server.logout.Returned?
    ensures r.outcome.Returned? ==> (r.outcome.value <==> server.cartDelete(orderFieldId).Returned?)
  {
    var deleted := server.cartDelete(orderFieldId).Returned?;
    var body := Run(Returned(deleted), [CartDelete(orderFieldId)]);
    var r := Session(server, body);
    assert LoginOutcome(server).Returned? ==> r.calls == [Login] + body.calls + [Logout];
    r
  }

  /** A fetched shopping list: a name and its products. */
  datatype ShoppingList<P> = ShoppingList(name: string, products: seq<P>)

  /** `response.data || response`, then the name and product defaults. */
  function ReadList<P>(reply: ListReply<P>): (l: ShoppingList<P>)
    ensures var d := if reply.data.Some? then reply.data.value else reply.direct;
      && (d.name.Some? && d.name.value != "" ==> l.name == d.name.value)
      && (d.name.None? || d.name.value == "" ==> l.name == "Unknown List")
      && (d.products.Some? ==> l.products == d.products.value)
      && (d.products.None? ==> l.products == [])
  {
    var d := reply.data.GetOr(reply.direct);
    var name := match d.name case Some(n) => if n != "" then n else "Unknown List" case None => "Unknown List";
    ShoppingList(name, d.products.GetOr([]))
  }

  /** `getShoppingList(shoppingListId)`. */
  function GetShoppingList<P>(server: Server<P>, shoppingListId: string): (r: Run<ShoppingList<P>>)
    ensures Bracketed(r.calls, LoginOutcome(server).Returned?)
    ensures LoginOutcome(server).Returned? ==> r.calls == [Login, ShoppingListGet(shoppingListId), Logout]
    ensures r.outcome.Returned? ==>
      server.shoppingList(shoppingListId).Returned? && r.outcome.value == ReadList(server.shoppingList(shoppingListId).value)
    ensures LoginOutcome(server).Returned? && server.logout.Returned? ==>
      r.outcome == match server.shoppingList(shoppingListId)
        case Threw(e) => Threw(e)
        case Returned(reply) => Returned(ReadList(reply))
  {
    var body := match server.shoppingList(shoppingListId)
      case Threw(e) => Run(Threw(e), [ShoppingListGet(shoppingListId)])
      case Returned(reply) => Run(Returned(ReadList(reply)), [ShoppingListGet(shoppingListId)]);
    var r := Session(server, body);
    assert LoginOutcome(server).Returned? ==> r.calls == [Login] + body.calls + [Logout];
    r
  }
}
