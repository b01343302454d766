/**
 * Typed view of the loosely shaped order payloads the meal-suggestion handler reads:
 * every JSON field it touches is an optional field here, and each `a || b` fallback
 * of the handler is a function with the same precedence. Strings are falsy when
 * missing or empty; numbers when missing or zero.
 */
module Orders {
  import opened Wrappers

  /** One entry of the order history listing. */
  datatype OrderSummary = OrderSummary(id: Option<string>, orderNumber: Option<string>)

  /** One entry of a line item's category list. */
  datatype Category = Category(name: Option<string>, level: Option<int>)

  /** One product line of an order detail. */
  datatype LineItem = LineItem(
    productId: Option<string>,
    id: Option<string>,
    productName: Option<string>,
    name: Option<string>,
    brand: Option<string>,
    quantity: Option<int>,
    price: Option<real>,
    categories: Option<seq<Category>>)

  /** An order detail: its products under `products` or, failing that, `items`. */
  datatype OrderDetail = OrderDetail(products: Option<seq<LineItem>>, items: Option<seq<LineItem>>)

  /** A string field is truthy when present and non-empty. */
  predicate Truthy(s: Option<string>)
  {
    s.Some? && s.value != ""
  }

  /** `a || b` on two optional strings, `None` when both are falsy. */
  function Either(a: Option<string>, b: Option<string>): (r: Option<string>)
    ensures r.Some? <==> Truthy(a) || Truthy(b)
    ensures Truthy(a) ==> r == a
    ensures !Truthy(a) && Truthy(b) ==> r == b
  {
    if Truthy(a) then a else if Truthy(b) then b else None
  }

  /** `order.id || order.orderNumber`. */
  function OrderIdOf(o: OrderSummary): Option<string>
  {
    Either(o.id, o.orderNumber)
  }

  /** `product.productId || product.id`. */
  function ProductKeyOf(item: LineItem): Option<string>
  {
    Either(item.productId, item.id)
  }

  /** `product.productName || product.name`. */
  function ProductNameOf(item: LineItem): Option<string>
  {
    Either(item.productName, item.name)
  }

  /** `product.brand || ''`. */
  function BrandOf(item: LineItem): string
  {
    item.brand.GetOr("")
  }

  /** `product.quantity || 1`: a missing or zero quantity counts as one. */
  function QuantityOf(item: LineItem): (q: int)
    ensures q != 0
    ensures item.quantity.Some? && item.quantity.value != 0 ==> q == item.quantity.value
  {
    if item.quantity.Some? && item.quantity.value != 0 then item.quantity.value else 1
  }

  /** `product.price || 0`: the price, with 0 standing for "no price"; a price is truthy iff this is non-zero. */
  function PriceOf(item: LineItem): real
  {
    item.price.GetOr(0.0)
  }

  /** `orderDetail.products || orderDetail.items || []`; an empty array is truthy, so `products: []` wins over `items`. */
  function LineItemsOf(d: OrderDetail): (items: seq<LineItem>)
    ensures d.products.Some? ==> items == d.products.value
    ensures d.products.None? && d.items.Some? ==> items == d.items.value
    ensures d.products.None? && d.items.None? ==> items == []
  {
    match d.products
    case Some(ps) => ps
    case None => d.items.GetOr([])
  }

  /** The position of the first category whose level is 1. */
  function FirstLevelOne(cats: seq<Category>): (r: Option<nat>)
    ensures r.Some? ==> r.value < |cats| && cats[r.value].level == Some(1)
    ensures r.Some? ==> forall j :: 0 <= j < r.value ==> cats[j].level != Some(1)
    ensures r.None? ==> forall j :: 0 <= j < |cats| ==> cats[j].level != Some(1)
  {
    if cats == [] then None
    else if cats[0].level == Some(1) then Some(0)
    else match FirstLevelOne(cats[1..])
      case Some(i) => Some(i + 1)
      case None => None
  }

  /**
   * `categories.find(cat => cat.level === 1) || categories[0]`: the first level-1
   * category, else the first category, else none.
   */
  function PrimaryCategory(cats: seq<Category>): (r: Option<Category>)
    ensures cats == [] <==> r.None?
    ensures (exists i :: 0 <= i < |cats| && cats[i].level == Some(1)) ==>
      exists i :: 0 <= i < |cats| && r == Some(cats[i]) && cats[i].level == Some(1)
        && forall j :: 0 <= j < i ==> cats[j].level != Some(1)
    ensures (forall j :: 0 <= j < |cats| ==> cats[j].level != Some(1)) && cats != [] ==> r == Some(cats[0])
  {
    match FirstLevelOne(cats)
    case Some(i) => Some(cats[i])
    case None => if cats == [] then None else Some(cats[0])
  }

  /** `mainCategory?.name || ''` over `product.categories || []`. */
  function CategoryNameOf(item: LineItem): string
  {
    match PrimaryCategory(item.categories.GetOr([]))
    case Some(c) => c.name.GetOr("")
    case None => ""
  }
}
