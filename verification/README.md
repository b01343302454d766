# rohlik-mcp core, modelled in Dafny

This project models the decision logic of three parts of the rohlik-mcp server, an MCP
server in front of the Rohlik.cz grocery store.

- **Meal suggestions.** This is the `get_meal_suggestions` tool.
  - A meal type (breakfast, lunch, …) maps to a list of Czech category names.
  - The handler reads the user's recent orders and each order's line items.
  - It keeps the items whose primary category matches the meal type. Matching is a two-way, case-insensitive substring test.
  - It folds the kept items into per-product statistics kept in insertion order: frequency, total quantity, running average price, and first-seen brand and category.
  - It sorts the products stably by frequency or by quantity and returns the first `items_count`.
- **The store client** `RohlikAPI`. The model covers:
  - the search pipeline: drop promoted hits, keep favourites on request, cut to `limit`;
  - the per-item failure tolerance of `addToCart`;
  - the cart mapping with its field defaults;
  - the classification of the login status;
  - the login / `finally` logout bracket around every public operation.
- **The API validator script.** The model covers:
  - its fixed sequence of endpoint probes;
  - the per-probe success test;
  - the short-circuit after a failed login and the final verdict;
  - the report helpers `truncateEndpoint` and `escapeHtml`.

The environment is passed in as parameters, and the model returns what the source would
do with it:
- **Meal suggestions.** `getOrderHistory` and `getOrderDetail` are functions. The handler returns the trace of store calls it made.
- **Store client.** The store is a `Server` value. It gives each request either a parsed reply or a thrown error. Every operation returns its outcome and its request trace.
- **Validator.** The network is a function from probe to exchange.

Modules:

| module | file | models |
|---|---|---|
| `Wrappers` | wrappers.dfy | `Option` |
| `Seqs` | seqs.dfy | `Array.prototype.filter`, `slice(0, n)` and order-preserving subsequences |
| `Text` | text.dfy | `toLowerCase`, `includes`, `startsWith`, `join` |
| `MealCatalog` | meal_catalog.dfy | `MEAL_CATEGORY_MAPPINGS` and the relevance test |
| `Orders` | orders.dfy | order, line-item and category records with their `||` fallbacks |
| `Tally` | tally.dfy | the insertion-ordered product map and its upsert |
| `Ranking` | ranking.dfy | the stable descending sort of the product records |
| `MealSuggestions` | meal_suggestions.dfy | the tool handler |
| `StoreClient` | store_client.dfy | `RohlikAPI` |
| `ApiValidator` | api_validator.dfy | `RohlikAPIValidator` |

## Notes on behaviour

- **Frequency.** Frequency counts relevant line-item occurrences, not distinct orders. A product that appears twice in one order counts twice.
- **Missing price on a later occurrence.** A zero or missing price leaves the running average unchanged; it is not averaged in as 0.
- **No `lastSeenDate` and no per-category grouping.** The handler keeps neither.
- **Second sort key.** With `prefer_frequent` false the products are sorted by total quantity. The comment next to the comparator says "recency", but the comparison is on quantity.
- **Client first.** The handler builds its store client with the factory it was given before it looks up the meal type. If that throws, the thrown message is the error even for an unknown meal type. The factory is an input, modelled by its outcome alone. The server entry point's factory, which throws when either credential variable is missing or empty, is one such input; the entry point itself does not register this tool.
- **Login success in the validator.** It is decided by the HTTP status alone. A 2xx answer whose body reports another `status` still counts as a successful login.

## Model

| member | source | states |
|---|---|---|
| Orders.Either | src/tools/meal-suggestions.ts:157 | `a \|\| b` on optional strings: the first truthy one wins, and it is absent only when both are falsy |
| Orders.QuantityOf | src/tools/meal-suggestions.ts:190 | a missing or zero quantity counts as 1; any other quantity is taken as is |
| Orders.LineItemsOf | src/tools/meal-suggestions.ts:164 | `products` wins over `items` (even when empty), and no list at all gives none |
| Orders.FirstLevelOne | src/tools/meal-suggestions.ts:174 | finds the first category of level 1 and no earlier one; absent when there is none |
| Orders.PrimaryCategory | src/tools/meal-suggestions.ts:173-175 | primary category is the first of level 1, else the first, else none exactly when the list is empty |
| Text.Lower | src/tools/meal-suggestions.ts:179-180 | `toLowerCase` keeps length and lower-cases every character in place |
| Text.ContainsAt | src/tools/meal-suggestions.ts:179-180 | `includes` holds exactly when the needle occurs at some position |
| MealCatalog.CategoriesForKnownTypes | src/tools/meal-suggestions.ts:15-85 | exactly the seven meal types have a mapping, and every mapping is non-empty (at least seven names) |
| MealCatalog.UnknownMealTypeMessage | src/tools/meal-suggestions.ts:123-132 | the error text starts with "Unknown meal type: ", quotes the requested type, and names each of the seven valid types |
| MealCatalog.JoinMealTypes | src/tools/meal-suggestions.ts:128 | the list quoted by the error is the seven keys joined by ", " in declaration order |
| MealCatalog.RelevantIff | src/tools/meal-suggestions.ts:178-181 | an item is relevant iff some mapped name contains, or is contained in, the category name after lower-casing |
| MealCatalog.RelevanceIgnoresCase | src/tools/meal-suggestions.ts:178-181 | two category names with the same lower-case form are equally relevant |
| MealCatalog.LoweredNameIsEquallyRelevant | src/tools/meal-suggestions.ts:178-181 | a category name and its lower-cased form are equally relevant, since the test lower-cases both sides itself |
| MealCatalog.EmptyCategoryIsRelevant | src/tools/meal-suggestions.ts:175-181 | an item with no category name is relevant to every meal type |
| MealCatalog.UpperCaseDairyIsBreakfast | tests/meal-suggestions.test.ts:111-131 | "MLÉKO A MLÉČNÉ NÁPOJE" is relevant to breakfast |
| Tally.Upsert | src/tools/meal-suggestions.ts:185-206 | recording an occurrence keeps the map well formed. A new key is appended with frequency 1; a known key gets frequency + 1 and quantity added, and keeps its name, brand, category and, on a zero price, its average; other keys are untouched |
| Tally.BumpAverage | src/tools/meal-suggestions.ts:188-195 | a priced later occurrence moves the average so that average times count grows by exactly its price |
| Tally.AbsorbAppend | src/tools/meal-suggestions.ts:155-207 | absorbing two runs of occurrences in turn equals absorbing their concatenation |
| Tally.TallyCounts | src/tools/meal-suggestions.ts:187-202 | a product is in the map iff it occurs; its frequency is its number of occurrences and its total quantity the sum of theirs |
| Tally.TallyFirstSeen | src/tools/meal-suggestions.ts:196-205 | name, brand and category are those of the product's first occurrence |
| Tally.TallyMeanPrice | src/tools/meal-suggestions.ts:192-203 | when every occurrence has a non-zero price, the average price is their arithmetic mean |
| Tally.TallyUnpriced | src/tools/meal-suggestions.ts:192-203 | when no occurrence has a price, the average price is 0 |
| Tally.TallyOrder | src/tools/meal-suggestions.ts:225 | the map's key order lists the occurring products by first occurrence |
| Ranking.Insert | src/tools/meal-suggestions.ts:225-231 | inserting into a sorted list adds exactly that element (multiset) |
| Ranking.StableSortSpec | src/tools/meal-suggestions.ts:225-231 | the sort is a permutation, non-increasing by frequency (or quantity), and keeps equal keys in input order |
| Seqs.Take | src/tools/meal-suggestions.ts:232 | `slice(0, n)` is the prefix of length min(n, length) |
| MealSuggestions.OccurrenceOf | src/tools/meal-suggestions.ts:166-205 | a line item counts iff it has an id, a name and a relevant category; it then carries its key, name, brand, quantity, price and category |
| MealSuggestions.ScanItemsAbsorbs | src/tools/meal-suggestions.ts:166-207 | the item loop records exactly the items' occurrences, in order |
| MealSuggestions.StepSpec | src/tools/meal-suggestions.ts:155-210 | one order: no id means no call; otherwise one detail call, and the order is counted and scanned only when its detail was obtained |
| MealSuggestions.ScanOrdersProducts | src/tools/meal-suggestions.ts:155-211 | the product map is the tally of the relevant occurrences of the fetched orders, order by order |
| MealSuggestions.ScanOrdersProcessed | src/tools/meal-suggestions.ts:153-163 | `processedOrders` counts exactly the orders whose detail was obtained |
| MealSuggestions.ScanOrdersCalls | src/tools/meal-suggestions.ts:155-160 | one `getOrderDetail` call per order with an id, in order |
| MealSuggestions.FactoryFailureIsError | src/tools/meal-suggestions.ts:117-133 | a factory that throws message m gives the error `Failed(m)` whatever the meal type; the store is called exactly when the client was built and the meal type is mapped |
| MealSuggestions.CredentialsFactory | src/index.ts:23-37 | the entry point's factory returns a client iff both `ROHLIK_USERNAME` and `ROHLIK_PASSWORD` are set and non-empty, and otherwise throws the "environment variables are required" message |
| MealSuggestions.UnknownMealTypeFailsFast | src/tools/meal-suggestions.ts:117-133 | once the client was built, an unmapped meal type is an error naming all seven types, and no store call is made |
| MealSuggestions.EmptyHistoryIsInformational | src/tools/meal-suggestions.ts:136-147 | a missing or empty history gives "no history", not an error, after exactly one history call |
| MealSuggestions.HistoryFailureIsError | src/tools/meal-suggestions.ts:278-288 | a throwing history fetch is an error carrying the thrown message |
| MealSuggestions.SuggestAnalyzes | src/tools/meal-suggestions.ts:136-149 | with a non-empty history, an array is analysed as is and a single object as a one-order list |
| MealSuggestions.AnalyzeSpec | src/tools/meal-suggestions.ts:149-232 | the calls are the history call then the detail calls; the reply is "no items" iff nothing relevant occurred, else suggestions counting fetched orders |
| MealSuggestions.HistoryIsScanned | src/tools/meal-suggestions.ts:149-222 | with a non-empty history the handler never errs; "no items" iff no relevant line item; `processedOrders` is the fetched count |
| MealSuggestions.ValuesFirstSeen | src/tools/meal-suggestions.ts:225 | `productMap.values()` lists records in order of first occurrence |
| MealSuggestions.RankedTally | src/tools/meal-suggestions.ts:225-232 | the suggestions number min(`items_count`, distinct products); they are distinct tallied records, sorted, ties first-seen first, and no omitted product outranks a kept one |
| MealSuggestions.TalliedRecords | src/tools/meal-suggestions.ts:187-202 | every suggested record's frequency and quantity are its product's occurrence count and quantity sum |
| MealSuggestions.SuggestionsRanked | src/tools/meal-suggestions.ts:155-232 | end to end: the suggestions are the first `items_count` distinct products by frequency (or quantity), ties in first-seen order, with counts over relevant line items |
| StoreClient.CheckLogin | src/rohlik-api.ts:64-69 | status 200 passes; 401 is "invalid credentials"; any other status fails, carrying the first message or "Unknown error" |
| StoreClient.LoginMessage | src/rohlik-api.ts:66-68 | the error texts are "Invalid credentials" and "Login failed: " followed by the detail |
| StoreClient.Session | src/rohlik-api.ts:87-125 | a failed login throws with the trace [login]. Otherwise the trace is login, the requests, logout; a failing logout replaces the outcome, and after a successful logout the body's value or error is the outcome |
| StoreClient.TwoFiltersAreOne | src/rohlik-api.ts:103-111 | the two filters in sequence keep exactly the non-promoted (and, if asked, favourite) hits |
| StoreClient.SelectProducts | src/rohlik-api.ts:101-114 | the kept hits are an order-preserving subsequence, at most `limit` long, none promoted, all favourites when asked, and the first `limit` eligible hits |
| StoreClient.ToResults | src/rohlik-api.ts:116-122 | each kept hit maps field by field, the price as "full currency"; a hit without price throws |
| StoreClient.SearchProducts | src/rohlik-api.ts:82-126 | bracketed trace with one search asking for `limit + 5`; results are the field-by-field mapping of the kept hits, at most `limit`; a thrown search is the outcome when login and logout succeed |
| StoreClient.PostAll | src/rohlik-api.ts:132-155 | every line is posted in order; the returned ids are those whose POST succeeded, in order |
| StoreClient.IdsOfSubsequence | src/rohlik-api.ts:149 | the ids of a subsequence of lines are a subsequence of the ids |
| StoreClient.AddToCart | src/rohlik-api.ts:128-159 | bracketed trace with one POST per line; returns exactly the accepted ids, a subsequence of the requested ids |
| StoreClient.ToCartProduct | src/rohlik-api.ts:172-180 | the entry key is the id; each present field is passed through, missing strings default to "" and numbers to 0 |
| StoreClient.MapCart | src/rohlik-api.ts:166-181 | `total_items` equals the number of entries and of products, and with distinct keys the number of distinct product ids; present total price and order flag pass through; missing data gives an empty cart with price 0 and `can_make_order` false |
| StoreClient.GetCartContent | src/rohlik-api.ts:161-185 | bracketed trace with one cart read; when login and logout succeed, the outcome is the mapping of the cart reply, or the cart read's error when it threw |
| StoreClient.RemoveFromCart | src/rohlik-api.ts:187-201 | bracketed trace with one DELETE; returns true iff the DELETE succeeded, and never throws for it |
| StoreClient.ReadList | src/rohlik-api.ts:209-213 | `data` is preferred over the body itself; an empty or missing name is "Unknown List"; missing products are [] |
| StoreClient.GetShoppingList | src/rohlik-api.ts:203-217 | bracketed trace with one list read; when login and logout succeed, the outcome is the read list, or the list request's error when it threw |
| ApiValidator.TruncateEndpoint | tests/validate-api.ts:665-668 | short endpoints are unchanged. Longer ones become a prefix plus "...", exactly `maxLength` long when `maxLength` ≥ 3, else just "..." |
| ApiValidator.TruncateBound | tests/validate-api.ts:665-668 | the result is never longer than max(`maxLength`, 3) |
| ApiValidator.TruncateIdempotent | tests/validate-api.ts:665-668 | truncating twice is truncating once, for every `maxLength` |
| ApiValidator.EscapeChar | tests/validate-api.ts:671-677 | each of the five special characters becomes an entity; anything else is copied |
| ApiValidator.EscapeHtml | tests/validate-api.ts:670-679 | the output has no < > " ', is unchanged on text without special characters, and is never shorter |
| ApiValidator.EscapeAppend | tests/validate-api.ts:678 | escaping distributes over concatenation |
| ApiValidator.EscapeRoundTrip | tests/validate-api.ts:670-679 | decoding the five entities recovers the original text, so nothing else is altered |
| ApiValidator.TestEndpoint | tests/validate-api.ts:105-153 | success iff the request answered with a 2xx status; a throw gives a failure with duration 0 and the thrown message |
| ApiValidator.Plan | tests/validate-api.ts:186-257 | eight fixed probes, the delivery-slots probe iff user id and address id are truthy, then logout |
| ApiValidator.Validate | tests/validate-api.ts:158-263 | login is probed first; a failed login ends the run with only that result and false; otherwise logout is last; the verdict is "every result succeeded" |
| ApiValidator.FailedLoginStops | tests/validate-api.ts:176-180 | a login without a 2xx answer makes the verdict false with one result |
| ApiValidator.SuccessfulLoginRunsEverything | tests/validate-api.ts:183-257 | after a successful login the recorded probes are exactly login, search, cart, delivery info, upcoming orders, announcements, reusable bags, premium profile, order history, the delivery slots iff both ids are truthy, and logout |
| ApiValidator.PassIffAll2xx | tests/validate-api.ts:262 | the run passes iff every probe it made answered 2xx |

## Left out

- The HTTP layer is not modelled: `makeRequest`, `fetch`, cookies, headers, URL building and JSON parsing. Replies are parsed records or thrown errors given as inputs, and a non-ok HTTP status appears as a thrown `HttpError`.
- `getOrderHistory` and `getOrderDetail` are not defined in the client class; the handler takes them as functions. A detail reply depends only on the order id, so an order repeated in the history yields the same reply each time.
- Output formatting is not modelled: the emoji and text templates, `toFixed`, and the validator's console log, summary, HTML report, file writes and configuration loading. The error text of `HttpError` ("HTTP status: statusText") is not modelled either; the status is kept instead.
- Prices are exact reals, so floating-point rounding in the running average is not modelled.
- `src/tools/frequent-items.ts` is not part of this model: there is no last-seen date and no category grouping.
- Input bounds enforced by the tool schema (`items_count` 3–30, `orders_to_analyze` 5–100) are not imposed. Negative and fractional counts, which only the tool schema rules out, are not modelled: the handler alone would pass them to `slice` and `getOrderHistory`. `limit` in search is a natural number, so `slice` with a negative bound is not modelled.
- ApiValidator.TruncateEndpoint: lengths count characters, whereas `endpoint.length` and `substring` count UTF-16 code units; an endpoint with characters outside the Basic Multilingual Plane is cut at a different place.
- Text.Lower: lower-casing covers Basic Latin, Latin-1 Supplement and Latin Extended-A, which includes every Czech letter. Other scripts, and U+0130 (whose lower case is two characters), are left unchanged. Strings are sequences of code points, not UTF-16 units.
- Ids are strings in the meal-suggestion model. The source converts numeric ids with `String(...)` and treats an id of 0 as missing; the model only treats the empty string as missing.
- A throw while processing a detail that was obtained (a malformed item list, a non-string category name) is not modelled, because the records are typed. In the source such a throw would skip the rest of that order after it had been counted.
- JavaScript object quirks are not modelled: inherited keys such as `constructor` as meal types, and the numeric-key ordering of `Object.keys`. Cart entries are taken in the order given, and distinct keys are a lemma hypothesis.
- MealCatalog: no negative relevance example is proved, such as meat not being relevant to breakfast. The proof of a concrete non-containment over these strings was too costly for the verifier.
- The validator's endpoints are abstract probes. Their URL strings, request bodies and response contents are not modelled, apart from `status` and the login body's user id and address id.
