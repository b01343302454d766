/**
 * The `get_meal_suggestions` handler: look up the meal type, fetch the order history,
 * fold every fetched order's relevant line items into per-product statistics, then
 * rank and truncate. The two store calls are parameters, and the handler reports
 * the calls it made, so "which calls happen" is part of its result.
 */
module MealSuggestions {
  import opened Wrappers
  import opened Text
  import opened MealCatalog
  import opened Orders
  import opened Tally
  import opened Ranking
  import opened Seqs

  /** The tool arguments; `None` is an omitted argument. */
  datatype Args = Args(
    mealType: string,
    itemsCount: Option<nat>,
    ordersToAnalyze: Option<nat>,
    preferFrequent: Option<bool>)

  const DefaultItemsCount: nat := 10
  const DefaultOrdersToAnalyze: nat := 20

  /** What `getOrderHistory` can produce: a throw, a falsy value, an array, or a single object. */
  datatype HistoryReply =
    | HistoryThrew(message: string)
    | HistoryFalsy
    | HistoryList(orders: seq<OrderSummary>)
    | HistoryObject(order: OrderSummary)

  /** What `getOrderDetail` can produce for one order id. */
  datatype DetailReply = DetailThrew | DetailFalsy | DetailFound(detail: OrderDetail)

  /** A call into the store client. */
  datatype StoreCall = GetOrderHistory(limit: nat) | GetOrderDetail(orderId: string)

  /** The handler's outcome, without the text formatting. */
  datatype Reply =
    | UnknownMealType(message: string)
    | NoHistory
    | NoItems(mealType: string)
    | Suggestions(processedOrders: nat, relevantProducts: nat, items: seq<ProductStat>)
    | Failed(message: string)
  {
    /** Whether the result carries `isError: true`. */
    predicate IsError()
    {
      UnknownMealType? || Failed?
    }
  }

  datatype Run = Run(reply: Reply, calls: seq<StoreCall>)

  /**
   * What the injected `createRohlikAPI` factory does: `None` when it returns a client,
   * `Some(m)` when it throws an error whose message is `m`.
   */
  type Factory = Option<string>

  /** The `ROHLIK_USERNAME` and `ROHLIK_PASSWORD` environment variables; `None` when unset. */
  datatype Env = Env(username: Option<string>, password: Option<string>)

  /** The text of the error thrown while building the client without credentials. */
  const MissingCredentialsMessage := "ROHLIK_USERNAME and ROHLIK_PASSWORD environment variables are required"

  /** Whether `getCredentials` accepts the environment: both variables are set and non-empty. */
  predicate HasCredentials(env: Env)
  {
    env.username.GetOr("") != "" && env.password.GetOr("") != ""
  }

  /** The server entry point's factory, which reads the credentials from the environment. */
  function CredentialsFactory(env: Env): (f: Factory)
    ensures f.None? <==> HasCredentials(env)
    ensures f.Some? ==> f.value == MissingCredentialsMessage
  {
    if HasCredentials(env) then None else Some(MissingCredentialsMessage)
  }

  // ---------------------------------------------------------------------------
  // One line item.

  /** The occurrence a line item contributes, or `None` when it is skipped. */
  function OccurrenceOf(item: LineItem, mapped: seq<string>): (r: Option<Occurrence>)
    ensures r.Some? <==>
      ProductKeyOf(item).Some? && ProductNameOf(item).Some? && IsRelevant(CategoryNameOf(item), mapped)
    ensures r.Some? ==>
      && r.value.key == ProductKeyOf(item).value
      && r.value.name == ProductNameOf(item).value
      && r.value.brand == BrandOf(item)
      && r.value.quantity == QuantityOf(item)
      && r.value.price == PriceOf(item)
      && r.value.category == CategoryNameOf(item)
  {
    match (ProductKeyOf(item), ProductNameOf(item))
    case (Some(key), Some(name)) =>
      var category := CategoryNameOf(item);
      if IsRelevant(category, mapped) then
        Some(Occurrence(key, name, BrandOf(item), QuantityOf(item), PriceOf(item), category))
      else None
    case _ => None
  }

  /** The inner `for (const product of products)` loop. */
  function ScanItems(pm: ProductMap, items: seq<LineItem>, mapped: seq<string>): (r: ProductMap)
    requires Valid(pm)
    ensures Valid(r)
    decreases |items|
  {
    if items == [] then pm
    else
      var pm' := match OccurrenceOf(items[0], mapped)
        case Some(o) => Upsert(pm, o)
        case None => pm;
      ScanItems(pm', items[1..], mapped)
  }

  // ---------------------------------------------------------------------------
  // The order loop.

  /** The loop state: the product map, `processedOrders`, and the store calls so far. */
  datatype Scan = Scan(products: ProductMap, processed: nat, calls: seq<StoreCall>)

  /** One iteration of the outer loop; an order without an id is skipped before any call. */
  function Step(st: Scan, o: OrderSummary, detail: string -> DetailReply, mapped: seq<string>): (r: Scan)
    requires Valid(st.products)
    ensures Valid(r.products)
  {
    match OrderIdOf(o)
    case None => st
    case Some(id) =>
      var calls := st.calls + [GetOrderDetail(id)];
      match detail(id)
      case DetailFound(d) => Scan(ScanItems(st.products, LineItemsOf(d), mapped), st.processed + 1, calls)
      case _ => st.(calls := calls)
  }

  /** The outer `for (const order of orders)` loop. */
  function ScanOrders(st: Scan, orders: seq<OrderSummary>, detail: string -> DetailReply, mapped: seq<string>): (r: Scan)
    requires Valid(st.products)
    ensures Valid(r.products)
    decreases |orders|
  {
    if orders == [] then st
    else ScanOrders(Step(st, orders[0], detail, mapped), orders[1..], detail, mapped)
  }

  // ---------------------------------------------------------------------------
  // Reference definitions: what the loops are meant to visit.

  /** The occurrences contributed by a list of line items, in order. */
  function ItemOccurrences(items: seq<LineItem>, mapped: seq<string>): seq<Occurrence>
  {
    if items == [] then []
    else
      (match OccurrenceOf(items[0], mapped) case Some(o) => [o] case None => [])
      + ItemOccurrences(items[1..], mapped)
  }

  /** The line items of an order whose id resolves and whose detail was obtained; none otherwise. */
  function FetchedItems(o: OrderSummary, detail: string -> DetailReply): seq<LineItem>
  {
    match OrderIdOf(o)
    case Some(id) => (match detail(id) case DetailFound(d) => LineItemsOf(d) case _ => [])
    case None => []
  }

  /** All relevant occurrences across the orders, order by order. */
  function OrderOccurrences(orders: seq<OrderSummary>, detail: string -> DetailReply, mapped: seq<string>): seq<Occurrence>
  {
    if orders == [] then []
    else ItemOccurrences(FetchedItems(orders[0], detail), mapped) + OrderOccurrences(orders[1..], detail, mapped)
  }

  /** The `getOrderDetail` call an order causes: one when its id resolves, none otherwise. */
  function CallOf(o: OrderSummary): seq<StoreCall>
  {
    match OrderIdOf(o)
    case Some(id) => [GetOrderDetail(id)]
    case None => []
  }

  /** One `getOrderDetail` call per order whose id resolves, in order. */
  function DetailCalls(orders: seq<OrderSummary>): seq<StoreCall>
  {
    if orders == [] then [] else CallOf(orders[0]) + DetailCalls(orders[1..])
  }

  /** Whether an order counts towards `processedOrders`: its id resolves and its detail is truthy. */
  predicate Fetched(o: OrderSummary, detail: string -> DetailReply)
  {
    OrderIdOf(o).Some? && detail(OrderIdOf(o).value).DetailFound?
  }

  /** Number of orders whose detail was obtained. */
  function FetchedCount(orders: seq<OrderSummary>, detail: string -> DetailReply): nat
  {
    if orders == [] then 0
    else (if Fetched(orders[0], detail) then 1 else 0) + FetchedCount(orders[1..], detail)
  }

  /** The item loop records exactly the item's occurrences, in order. */
  lemma {:induction false} ScanItemsAbsorbs(pm: ProductMap, items: seq<LineItem>, mapped: seq<string>)
    requires Valid(pm)
    ensures ScanItems(pm, items, mapped) == Absorb(pm, ItemOccurrences(items, mapped))
    decreases |items|
  {
    if items != [] {
      var head := match OccurrenceOf(items[0], mapped) case Some(o) => [o] case None => [];
      var pm' := match OccurrenceOf(items[0], mapped) case Some(o) => Upsert(pm, o) case None => pm;
      ScanItemsAbsorbs(pm', items[1..], mapped);
      AbsorbAppend(pm, head, ItemOccurrences(items[1..], mapped));
      if head != [] {
        assert head[1..] == [];
      }
    }
  }

  /** One iteration absorbs the order's fetched occurrences, counts it when fetched, and records its call. */
  lemma StepSpec(st: Scan, o: OrderSummary, detail: string -> DetailReply, mapped: seq<string>)
    requires Valid(st.products)
    ensures Step(st, o, detail, mapped).products == Absorb(st.products, ItemOccurrences(FetchedItems(o, detail), mapped))
    ensures Step(st, o, detail, mapped).processed == st.processed + (if Fetched(o, detail) then 1 else 0)
    ensures Step(st, o, detail, mapped).calls == st.calls + CallOf(o)
  {
    ScanItemsAbsorbs(st.products, FetchedItems(o, detail), mapped);
    if !Fetched(o, detail) {
      assert FetchedItems(o, detail) == [];
    }
  }

  /** The order loop absorbs exactly the relevant occurrences of the fetched orders. */
  lemma {:induction false} ScanOrdersProducts(st: Scan, orders: seq<OrderSummary>, detail: string -> DetailReply, mapped: seq<string>)
    requires Valid(st.products)
    ensures ScanOrders(st, orders, detail, mapped).products == Absorb(st.products, OrderOccurrences(orders, detail, mapped))
    decreases |orders|
  {
    if orders != [] {
      var o := orders[0];
      StepSpec(st, o, detail, mapped);
      ScanOrdersProducts(Step(st, o, detail, mapped), orders[1..], detail, mapped);
      AbsorbAppend(st.products, ItemOccurrences(FetchedItems(o, detail), mapped), OrderOccurrences(orders[1..], detail, mapped));
    }
  }

  /** The order loop counts exactly the orders whose detail was obtained. */
  lemma {:induction false} ScanOrdersProcessed(st: Scan, orders: seq<OrderSummary>, detail: string -> DetailReply, mapped: seq<string>)
    requires Valid(st.products)
    ensures ScanOrders(st, orders, detail, mapped).processed == st.processed + FetchedCount(orders, detail)
    decreases |orders|
  {
    if orders != [] {
      StepSpec(st, orders[0], detail, mapped);
      ScanOrdersProcessed(Step(st, orders[0], detail, mapped), orders[1..], detail, mapped);
    }
  }

  /** The order loop calls `getOrderDetail` once per order whose id resolves, in order. */
  lemma {:induction false} ScanOrdersCalls(st: Scan, orders: seq<OrderSummary>, detail: string -> DetailReply, mapped: seq<string>)
    requires Valid(st.products)
    ensures ScanOrders(st, orders, detail, mapped).calls == st.calls + DetailCalls(orders)
    decreases |orders|
  {
    if orders == [] {
      assert st.calls + [] == st.calls;
    } else {
      var o, rest := orders[0], orders[1..];
      var st' := Step(st, o, detail, mapped);
      assert ScanOrders(st, orders, detail, mapped) == ScanOrders(st', rest, detail, mapped);
      StepSpec(st, o, detail, mapped);
      ScanOrdersCalls(st', rest, detail, mapped);
      var head, tail := CallOf(o), DetailCalls(rest);
      assert DetailCalls(orders) == head + tail;
      AppendAssociative(st.calls, head, tail);
    }
  }

  // ---------------------------------------------------------------------------
  // The handler.

  /** Everything after the history was fetched and found non-empty. */
  function Analyze(args: Args, mapped: seq<string>, orders: seq<OrderSummary>,
                   detail: string -> DetailReply, calls: seq<StoreCall>): Run
  {
    var st := ScanOrders(Scan(Empty, 0, calls), orders, detail, mapped);
    if |st.products.order| == 0 then
      Run(NoItems(args.mealType), st.calls)
    else
      var ranked := StableSort(Values(st.products), args.preferFrequent.GetOr(true));
      Run(Suggestions(st.processed, |st.products.order|, Take(ranked, args.itemsCount.GetOr(DefaultItemsCount))), st.calls)
  }

  /**
   * `handler(args)` with the factory's behaviour, `getOrderHistory` and `getOrderDetail`
   * given as inputs. The client is built first, so a throwing factory fails before the
   * meal type is looked up.
   */
  function Suggest(args: Args, factory: Factory, history: nat -> HistoryReply, detail: string -> DetailReply): Run
  {
    if factory.Some? then Run(Failed(factory.value), [])
    else
    match CategoriesFor(args.mealType)
    case None => Run(UnknownMealType(UnknownMealTypeMessage(args.mealType)), [])
    case Some(mapped) =>
      var n := args.ordersToAnalyze.GetOr(DefaultOrdersToAnalyze);
      var calls := [GetOrderHistory(n)];
      match history(n)
      case HistoryThrew(m) => Run(Failed(m), calls)
      case HistoryFalsy => Run(NoHistory, calls)
      case HistoryList(orders) =>
        if orders == [] then Run(NoHistory, calls) else Analyze(args, mapped, orders, detail, calls)
      case HistoryObject(o) => Analyze(args, mapped, [o], detail, calls)
  }

  /** The orders the handler iterates over, when the history produced any. */
  function HistoryOrders(reply: HistoryReply): seq<OrderSummary>
  {
    match reply
    case HistoryList(orders) => orders
    case HistoryObject(o) => [o]
    case _ => []
  }

  // ---------------------------------------------------------------------------
  // Properties of the handler.

  /**
   * A throwing factory is reported with its message whatever the meal type. The store is
   * called exactly when the client was built and the meal type is mapped.
   */
  lemma FactoryFailureIsError(args: Args, factory: Factory, history: nat -> HistoryReply, detail: string -> DetailReply)
    ensures factory.Some? ==> Suggest(args, factory, history, detail).reply == Failed(factory.value)
    ensures factory.Some? ==> Suggest(args, factory, history, detail).reply.IsError()
    ensures Suggest(args, factory, history, detail).calls == [] <==> factory.Some? || args.mealType !in MealTypes
  {
    if factory.None? {
      CategoriesForKnownTypes(args.mealType);
      if args.mealType in MealTypes {
        var n := args.ordersToAnalyze.GetOr(DefaultOrdersToAnalyze);
        if HistoryOrders(history(n)) != [] {
          HistoryIsScanned(args, factory, history, detail);
          assert Suggest(args, factory, history, detail).calls[0] == GetOrderHistory(n);
        }
      }
    }
  }

  /** An unmapped meal type is an error naming the seven valid types, and no store call is made. */
  lemma UnknownMealTypeFailsFast(args: Args, factory: Factory, history: nat -> HistoryReply, detail: string -> DetailReply)
    requires factory.None?
    requires args.mealType !in MealTypes
    ensures Suggest(args, factory, history, detail).calls == []
    ensures Suggest(args, factory, history, detail).reply.UnknownMealType?
    ensures Suggest(args, factory, history, detail).reply.IsError()
    ensures forall k :: 0 <= k < |MealTypes| ==> Contains(Suggest(args, factory, history, detail).reply.message, MealTypes[k])
  {
    CategoriesForKnownTypes(args.mealType);
  }

  /** A missing or empty history is the informational "no history" result, after exactly one history call. */
  lemma EmptyHistoryIsInformational(args: Args, factory: Factory, history: nat -> HistoryReply, detail: string -> DetailReply)
    requires factory.None?
    requires args.mealType in MealTypes
    requires HistoryOrders(history(args.ordersToAnalyze.GetOr(DefaultOrdersToAnalyze))) == []
    requires !history(args.ordersToAnalyze.GetOr(DefaultOrdersToAnalyze)).HistoryThrew?
    ensures Suggest(args, factory, history, detail).reply == NoHistory
    ensures !Suggest(args, factory, history, detail).reply.IsError()
    ensures Suggest(args, factory, history, detail).calls == [GetOrderHistory(args.ordersToAnalyze.GetOr(DefaultOrdersToAnalyze))]
  {
    CategoriesForKnownTypes(args.mealType);
  }

  /** A throwing history fetch is reported as an error carrying the thrown message. */
  lemma HistoryFailureIsError(args: Args, factory: Factory, history: nat -> HistoryReply, detail: string -> DetailReply)
    requires factory.None?
    requires args.mealType in MealTypes
    requires history(args.ordersToAnalyze.GetOr(DefaultOrdersToAnalyze)).HistoryThrew?
    ensures Suggest(args, factory, history, detail).reply
      == Failed(history(args.ordersToAnalyze.GetOr(DefaultOrdersToAnalyze)).message)
    ensures Suggest(args, factory, history, detail).reply.IsError()
  {
    CategoriesForKnownTypes(args.mealType);
  }

  /** With a mapped meal type and a non-empty history, the handler is the analysis of those orders. */
  lemma SuggestAnalyzes(args: Args, factory: Factory, history: nat -> HistoryReply, detail: string -> DetailReply)
    requires factory.None?
    requires args.mealType in MealTypes
    requires HistoryOrders(history(args.ordersToAnalyze.GetOr(DefaultOrdersToAnalyze))) != []
    ensures
      var n := args.ordersToAnalyze.GetOr(DefaultOrdersToAnalyze);
      Suggest(args, factory, history, detail)
        == Analyze(args, CategoriesFor(args.mealType).value, HistoryOrders(history(n)), detail, [GetOrderHistory(n)])
  {
    CategoriesForKnownTypes(args.mealType);
  }

  /** The analysis in terms of the reference occurrences, fetched count and calls. */
  lemma AnalyzeSpec(args: Args, mapped: seq<string>, orders: seq<OrderSummary>,
                    detail: string -> DetailReply, calls: seq<StoreCall>)
    ensures
      var run := Analyze(args, mapped, orders, detail, calls);
      var occs := OrderOccurrences(orders, detail, mapped);
      && run.calls == calls + DetailCalls(orders)
      && (run.reply.NoItems? || run.reply.Suggestions?)
      && (run.reply.NoItems? <==> occs == [])
      && (run.reply.NoItems? ==> run.reply.mealType == args.mealType)
      && (run.reply.Suggestions? ==>
            && run.reply.processedOrders == FetchedCount(orders, detail)
            && run.reply.relevantProducts == |Tally.Tally(occs).order|
            && run.reply.items
                 == Take(StableSort(Values(Tally.Tally(occs)), args.preferFrequent.GetOr(true)),
                         args.itemsCount.GetOr(DefaultItemsCount)))
  {
    var occs := OrderOccurrences(orders, detail, mapped);
    ScanOrdersProducts(Scan(Empty, 0, calls), orders, detail, mapped);
    ScanOrdersProcessed(Scan(Empty, 0, calls), orders, detail, mapped);
    ScanOrdersCalls(Scan(Empty, 0, calls), orders, detail, mapped);
    TallyOrder(occs);
    if occs != [] {
      TallyCounts(occs, occs[0].key);
    }
  }

  /**
   * With a non-empty history: one history call then one detail call per order whose
   * id resolves; never an error; "no items" exactly when no line item was relevant;
   * otherwise `processedOrders` counts the orders whose detail was obtained.
   */
  lemma HistoryIsScanned(args: Args, factory: Factory, history: nat -> HistoryReply, detail: string -> DetailReply)
    requires factory.None?
    requires args.mealType in MealTypes
    requires HistoryOrders(history(args.ordersToAnalyze.GetOr(DefaultOrdersToAnalyze))) != []
    ensures
      var n := args.ordersToAnalyze.GetOr(DefaultOrdersToAnalyze);
      var orders := HistoryOrders(history(n));
      var run := Suggest(args, factory, history, detail);
      var occs := OrderOccurrences(orders, detail, CategoriesFor(args.mealType).value);
      && run.calls == [GetOrderHistory(n)] + DetailCalls(orders)
      && !run.reply.IsError()
      && (run.reply.NoItems? <==> occs == [])
      && (run.reply.NoItems? ==> run.reply.mealType == args.mealType)
      && (run.reply.Suggestions? ==> run.reply.processedOrders == FetchedCount(orders, detail))
  {
    var n := args.ordersToAnalyze.GetOr(DefaultOrdersToAnalyze);
    CategoriesForKnownTypes(args.mealType);
    SuggestAnalyzes(args, factory, history, detail);
    AnalyzeSpec(args, CategoriesFor(args.mealType).value, HistoryOrders(history(n)), detail, [GetOrderHistory(n)]);
  }

  /** The order of first appearance, used to break ties. */
  function FirstSeen(occs: seq<Occurrence>): ProductStat -> int
  {
    (s: ProductStat) => FirstIndex(occs, s.productId)
  }

  /** The values of the tally are listed in first-seen order. */
  lemma ValuesFirstSeen(occs: seq<Occurrence>)
    ensures forall i, j :: 0 <= i < j < |Values(Tally.Tally(occs))| ==>
      FirstSeen(occs)(Values(Tally.Tally(occs))[i]) < FirstSeen(occs)(Values(Tally.Tally(occs))[j])
  {
    var pm := Tally.Tally(occs);
    var vals := Values(pm);
    TallyOrder(occs);
    forall i, j | 0 <= i < j < |vals|
      ensures FirstSeen(occs)(vals[i]) < FirstSeen(occs)(vals[j])
    {
      assert pm.order[i] in pm.entries && pm.order[j] in pm.entries;
      assert vals[i].productId == pm.order[i] && vals[j].productId == pm.order[j];
    }
  }

  /** Every element is the map's record for its own product id. */
  ghost predicate RecordsOf(pm: ProductMap, s: seq<ProductStat>)
  {
    forall i :: 0 <= i < |s| ==> s[i].productId in pm.entries && s[i] == pm.entries[s[i].productId]
  }

  /** No product id appears twice. */
  predicate DistinctIds(s: seq<ProductStat>)
  {
    forall i, j :: 0 <= i < j < |s| ==> s[i].productId != s[j].productId
  }

  /**
   * Every record of the map left out of `s` ranks at most as high as every element
   * of `s`, and on a tie it was seen later.
   */
  ghost predicate KeepsBest(pm: ProductMap, s: seq<ProductStat>, preferFrequent: bool, tag: ProductStat -> int)
  {
    forall k, i :: k in pm.entries && 0 <= i < |s| && k !in ProductIds(s) ==>
      && RankOf(pm.entries[k], preferFrequent) <= RankOf(s[i], preferFrequent)
      && (RankOf(pm.entries[k], preferFrequent) == RankOf(s[i], preferFrequent) ==> tag(s[i]) < tag(pm.entries[k]))
  }

  /** A permutation of the map's values holds only the map's records. */
  lemma PermutationRecords(pm: ProductMap, sorted: seq<ProductStat>)
    requires Valid(pm)
    requires multiset(sorted) == multiset(Values(pm))
    ensures RecordsOf(pm, sorted)
  {
    var vals := Values(pm);
    forall t | 0 <= t < |sorted|
      ensures sorted[t].productId in pm.entries && sorted[t] == pm.entries[sorted[t].productId]
    {
      assert sorted[t] in multiset(vals);
      var u :| 0 <= u < |vals| && vals[u] == sorted[t];
      assert pm.order[u] in pm.entries;
    }
  }

  /** Records of one map with strictly ordered ties cannot repeat a product. */
  lemma RecordsDistinct(pm: ProductMap, sorted: seq<ProductStat>, preferFrequent: bool, tag: ProductStat -> int)
    requires RecordsOf(pm, sorted)
    requires TiesOrdered(sorted, preferFrequent, tag)
    ensures DistinctIds(sorted)
  {
    forall i, j | 0 <= i < j < |sorted|
      ensures sorted[i].productId != sorted[j].productId
    {
      var a, b := sorted[i], sorted[j];
      assert a == pm.entries[a.productId] && b == pm.entries[b.productId];
      if RankOf(sorted[i], preferFrequent) == RankOf(sorted[j], preferFrequent) {
        assert tag(sorted[i]) < tag(sorted[j]);
      }
    }
  }

  /** Cutting a sorted permutation of the map's values keeps the best records. */
  lemma PrefixKeepsBest(pm: ProductMap, sorted: seq<ProductStat>, m: nat, preferFrequent: bool, tag: ProductStat -> int)
    requires Valid(pm)
    requires m <= |sorted|
    requires multiset(sorted) == multiset(Values(pm))
    requires NonIncreasing(sorted, preferFrequent)
    requires TiesOrdered(sorted, preferFrequent, tag)
    ensures KeepsBest(pm, sorted[..m], preferFrequent, tag)
  {
    var items := sorted[..m];
    var vals := Values(pm);
    forall k, i | k in pm.entries && 0 <= i < |items| && k !in ProductIds(items)
      ensures RankOf(pm.entries[k], preferFrequent) <= RankOf(items[i], preferFrequent)
      ensures RankOf(pm.entries[k], preferFrequent) == RankOf(items[i], preferFrequent) ==>
                tag(items[i]) < tag(pm.entries[k])
    {
      assert k in pm.order;
      var u :| 0 <= u < |pm.order| && pm.order[u] == k;
      assert vals[u] == pm.entries[k];
      assert pm.entries[k] in multiset(sorted);
      var t :| 0 <= t < |sorted| && sorted[t] == pm.entries[k];
      assert sorted[t].productId == k;
      assert forall j :: 0 <= j < m ==> sorted[j].productId != k by {
        assert forall j :: 0 <= j < m ==> items[j].productId in ProductIds(items);
      }
      assert m <= t;
      assert items[i] == sorted[i];
    }
  }

  /** The three properties survive truncation. */
  lemma PrefixProperties(pm: ProductMap, sorted: seq<ProductStat>, m: nat, preferFrequent: bool, tag: ProductStat -> int)
    requires m <= |sorted|
    requires RecordsOf(pm, sorted) && DistinctIds(sorted)
    requires NonIncreasing(sorted, preferFrequent) && TiesOrdered(sorted, preferFrequent, tag)
    ensures RecordsOf(pm, sorted[..m]) && DistinctIds(sorted[..m])
    ensures NonIncreasing(sorted[..m], preferFrequent) && TiesOrdered(sorted[..m], preferFrequent, tag)
  {
  }

  /**
   * The ranked, truncated list: `min(n, distinct products)` entries, each the tally's
   * record of a distinct counted product, ordered by decreasing key with ties in
   * first-seen order, and no product left out ranks above one kept.
   */
  lemma RankedTally(occs: seq<Occurrence>, preferFrequent: bool, n: nat)
    ensures
      var pm := Tally.Tally(occs);
      var items := Take(StableSort(Values(pm), preferFrequent), n);
      && |items| == (if n < |pm.order| then n else |pm.order|)
      && NonIncreasing(items, preferFrequent)
      && TiesOrdered(items, preferFrequent, FirstSeen(occs))
      && RecordsOf(pm, items)
      && DistinctIds(items)
      && KeepsBest(pm, items, preferFrequent, FirstSeen(occs))
  {
    var pm := Tally.Tally(occs);
    var vals := Values(pm);
    var tag := FirstSeen(occs);
    ValuesFirstSeen(occs);
    StableSortSpec(vals, preferFrequent, tag);
    var sorted := StableSort(vals, preferFrequent);
    var m := if n < |sorted| then n else |sorted|;
    assert Take(sorted, n) == sorted[..m];
    PermutationRecords(pm, sorted);
    RecordsDistinct(pm, sorted, preferFrequent, tag);
    PrefixProperties(pm, sorted, m, preferFrequent, tag);
    PrefixKeepsBest(pm, sorted, m, preferFrequent, tag);
  }

  /** The product ids of a list of records. */
  function ProductIds(items: seq<ProductStat>): (ids: set<string>)
    ensures forall i :: 0 <= i < |items| ==> items[i].productId in ids
    ensures forall k :: k in ids ==> exists i :: 0 <= i < |items| && items[i].productId == k
  {
    set i | 0 <= i < |items| :: items[i].productId
  }

  /** A record of the tally states its product's count and quantity sum. */
  lemma TalliedRecords(occs: seq<Occurrence>, items: seq<ProductStat>)
    requires RecordsOf(Tally.Tally(occs), items)
    ensures forall i :: 0 <= i < |items| ==>
      && Count(occs, items[i].productId) > 0
      && items[i].frequency == Count(occs, items[i].productId)
      && items[i].totalQuantity == QtySum(occs, items[i].productId)
  {
    forall i | 0 <= i < |items|
      ensures Count(occs, items[i].productId) > 0
      ensures items[i].frequency == Count(occs, items[i].productId)
      ensures items[i].totalQuantity == QtySum(occs, items[i].productId)
    {
      TallyCounts(occs, items[i].productId);
    }
  }

  /** The ranking properties of the analysis, in terms of the reference occurrences. */
  lemma AnalyzeRanked(args: Args, mapped: seq<string>, orders: seq<OrderSummary>,
                      detail: string -> DetailReply, calls: seq<StoreCall>)
    ensures
      var occs := OrderOccurrences(orders, detail, mapped);
      var reply := Analyze(args, mapped, orders, detail, calls).reply;
      var n := args.itemsCount.GetOr(DefaultItemsCount);
      var pf := args.preferFrequent.GetOr(true);
      reply.Suggestions? ==>
        && reply.relevantProducts == |Tally.Tally(occs).order|
        && |reply.items| == (if n < reply.relevantProducts then n else reply.relevantProducts)
        && NonIncreasing(reply.items, pf)
        && TiesOrdered(reply.items, pf, FirstSeen(occs))
        && RecordsOf(Tally.Tally(occs), reply.items)
        && DistinctIds(reply.items)
        && KeepsBest(Tally.Tally(occs), reply.items, pf, FirstSeen(occs))
  {
    AnalyzeSpec(args, mapped, orders, detail, calls);
    RankedTally(OrderOccurrences(orders, detail, mapped), args.preferFrequent.GetOr(true), args.itemsCount.GetOr(DefaultItemsCount));
  }

  /**
   * The suggestions the handler returns: `relevantProducts` distinct counted products,
   * of which the first `itemsCount` by frequency (or quantity), ties in first-seen
   * order, none left out ranking above one kept; each record's frequency counts the
   * product's relevant line items and its quantity sums theirs.
   */
  lemma SuggestionsRanked(args: Args, factory: Factory, history: nat -> HistoryReply, detail: string -> DetailReply)
    requires factory.None?
    requires args.mealType in MealTypes
    requires HistoryOrders(history(args.ordersToAnalyze.GetOr(DefaultOrdersToAnalyze))) != []
    ensures
      var orders := HistoryOrders(history(args.ordersToAnalyze.GetOr(DefaultOrdersToAnalyze)));
      var occs := OrderOccurrences(orders, detail, CategoriesFor(args.mealType).value);
      var reply := Suggest(args, factory, history, detail).reply;
      var n := args.itemsCount.GetOr(DefaultItemsCount);
      var pf := args.preferFrequent.GetOr(true);
      reply.Suggestions? ==>
        && reply.relevantProducts == |Tally.Tally(occs).order|
        && |reply.items| == (if n < reply.relevantProducts then n else reply.relevantProducts)
        && NonIncreasing(reply.items, pf)
        && TiesOrdered(reply.items, pf, FirstSeen(occs))
        && DistinctIds(reply.items)
        && KeepsBest(Tally.Tally(occs), reply.items, pf, FirstSeen(occs))
        && (forall i :: 0 <= i < |reply.items| ==>
              && Count(occs, reply.items[i].productId) > 0
              && reply.items[i].frequency == Count(occs, reply.items[i].productId)
              && reply.items[i].totalQuantity == QtySum(occs, reply.items[i].productId))
  {
    var n0 := args.ordersToAnalyze.GetOr(DefaultOrdersToAnalyze);
    var orders := HistoryOrders(history(n0));
    var mapped := CategoriesFor(args.mealType).value;
    var occs := OrderOccurrences(orders, detail, mapped);
    SuggestAnalyzes(args, factory, history, detail);
    AnalyzeRanked(args, mapped, orders, detail, [GetOrderHistory(n0)]);
    var reply := Suggest(args, factory, history, detail).reply;
    if reply.Suggestions? {
      TalliedRecords(occs, reply.items);
    }
  }
}
