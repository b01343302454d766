/**
 * The per-product statistics of the meal-suggestion handler: an insertion-ordered
 * map from product id to a running record (`productMap` in the source), updated
 * once per relevant line-item occurrence.
 */
module Tally {

  /** A relevant line item, with the handler's fallbacks already applied. */
  datatype Occurrence = Occurrence(
    key: string,       // the product id, as text
    name: string,      // the product's display name
    brand: string,     // the brand, empty when unknown
    quantity: int,     // units ordered on this line, 1 when not given
    price: real,       // the unit price; zero means "no price"
    category: string)  // the primary category's name, empty when unknown

  /** `ProductFrequency`: the statistics kept per product id. */
  datatype ProductStat = ProductStat(
    productId: string,
    productName: string,
    brand: string,
    frequency: nat,
    totalQuantity: int,
    averagePrice: real,
    category: string)

  /** A JavaScript `Map`: keys in insertion order plus the entry of each key. */
  datatype ProductMap = ProductMap(order: seq<string>, entries: map<string, ProductStat>)

  /** Keys are distinct, listed exactly once each, and every entry is filed under its own id. */
  ghost predicate Valid(pm: ProductMap)
  {
    && (forall i, j :: 0 <= i < j < |pm.order| ==> pm.order[i] != pm.order[j])
    && (forall k :: k in pm.entries <==> k in pm.order)
    && (forall k :: k in pm.entries ==> pm.entries[k].productId == k)
  }

  /** `new Map()`. */
  const Empty: ProductMap := ProductMap([], map[])

  /** `Array.from(productMap.values())`: the entries in insertion order. */
  function Values(pm: ProductMap): (r: seq<ProductStat>)
    requires Valid(pm)
    ensures |r| == |pm.order|
    ensures forall i :: 0 <= i < |r| ==> r[i] == pm.entries[pm.order[i]]
  {
    seq(|pm.order|, i requires 0 <= i < |pm.order| => pm.entries[pm.order[i]])
  }

  /** The record created at a product's first occurrence. */
  function Fresh(o: Occurrence): ProductStat
  {
    ProductStat(o.key, o.name, o.brand, 1, o.quantity, o.price, o.category)
  }

  /** A later occurrence: one more order line, its quantity added, and the running mean moved only by a non-zero price. */
  function Bump(s: ProductStat, o: Occurrence): ProductStat
  {
    var f := s.frequency + 1;
    s.(frequency := f,
       totalQuantity := s.totalQuantity + o.quantity,
       averagePrice :=
         if o.price != 0.0 then (s.averagePrice * (f - 1) as real + o.price) / f as real
         else s.averagePrice)
  }

  /** Records one occurrence: updates the product's entry if present, else appends a new key. */
  function Upsert(pm: ProductMap, o: Occurrence): (r: ProductMap)
    requires Valid(pm)
    ensures Valid(r)
    ensures o.key in r.entries
    ensures forall k :: k != o.key ==> (k in r.entries <==> k in pm.entries)
    ensures forall k :: k != o.key && k in pm.entries ==> r.entries[k] == pm.entries[k]
    ensures o.key in pm.entries ==> r.order == pm.order
    ensures o.key !in pm.entries ==> r.order == pm.order + [o.key]
    ensures o.key in pm.entries ==>
      && r.entries[o.key].frequency == pm.entries[o.key].frequency + 1
      && r.entries[o.key].totalQuantity == pm.entries[o.key].totalQuantity + o.quantity
      && (o.price == 0.0 ==> r.entries[o.key].averagePrice == pm.entries[o.key].averagePrice)
      && r.entries[o.key].productName == pm.entries[o.key].productName
      && r.entries[o.key].brand == pm.entries[o.key].brand
      && r.entries[o.key].category == pm.entries[o.key].category
    ensures o.key !in pm.entries ==>
      && r.entries[o.key].frequency == 1
      && r.entries[o.key].totalQuantity == o.quantity
      && r.entries[o.key].averagePrice == o.price
      && r.entries[o.key].productName == o.name
      && r.entries[o.key].brand == o.brand
      && r.entries[o.key].category == o.category
  {
    if o.key in pm.entries then
      ProductMap(pm.order, pm.entries[o.key := Bump(pm.entries[o.key], o)])
    else
      ProductMap(pm.order + [o.key], pm.entries[o.key := Fresh(o)])
  }

  /** Records a sequence of occurrences, first to last. */
  function Absorb(pm: ProductMap, occs: seq<Occurrence>): (r: ProductMap)
    requires Valid(pm)
    ensures Valid(r)
    decreases |occs|
  {
    if occs == [] then pm else Absorb(Upsert(pm, occs[0]), occs[1..])
  }

  /** The statistics of a whole run, starting from an empty map. */
  function Tally(occs: seq<Occurrence>): (r: ProductMap)
    ensures Valid(r)
  {
    Absorb(Empty, occs)
  }

  /** Absorbing two runs one after the other is absorbing their concatenation. */
  lemma {:induction false} AbsorbAppend(pm: ProductMap, a: seq<Occurrence>, b: seq<Occurrence>)
    requires Valid(pm)
    ensures Absorb(pm, a + b) == Absorb(Absorb(pm, a), b)
    decreases |a|
  {
    if a == [] {
      assert a + b == b;
    } else {
      assert (a + b)[0] == a[0];
      assert (a + b)[1..] == a[1..] + b;
      AbsorbAppend(Upsert(pm, a[0]), a[1..], b);
    }
  }

  // ---------------------------------------------------------------------------
  // Reference quantities over the occurrence list, one product at a time.

  /** Number of occurrences of product `k`. */
  function Count(occs: seq<Occurrence>, k: string): nat
  {
    if occs == [] then 0 else (if occs[0].key == k then 1 else 0) + Count(occs[1..], k)
  }

  /** Sum of the quantities of product `k`. */
  function QtySum(occs: seq<Occurrence>, k: string): int
  {
    if occs == [] then 0 else (if occs[0].key == k then occs[0].quantity else 0) + QtySum(occs[1..], k)
  }

  /** Sum of the prices of product `k`. */
  function PriceSum(occs: seq<Occurrence>, k: string): real
  {
    if occs == [] then 0.0 else (if occs[0].key == k then occs[0].price else 0.0) + PriceSum(occs[1..], k)
  }

  /** Position of the first occurrence of product `k`, or `|occs|` when there is none. */
  function FirstIndex(occs: seq<Occurrence>, k: string): (i: nat)
    ensures i <= |occs|
    ensures i < |occs| ==> occs[i].key == k
    ensures forall j :: 0 <= j < i ==> occs[j].key != k
  {
    if occs == [] then 0 else if occs[0].key == k then 0 else 1 + FirstIndex(occs[1..], k)
  }

  /** Every occurrence of product `k` carries a non-zero price. */
  predicate AllPriced(occs: seq<Occurrence>, k: string)
  {
    forall i :: 0 <= i < |occs| && occs[i].key == k ==> occs[i].price != 0.0
  }

  /** No occurrence of product `k` carries a price. */
  predicate NonePriced(occs: seq<Occurrence>, k: string)
  {
    forall i :: 0 <= i < |occs| && occs[i].key == k ==> occs[i].price == 0.0
  }

  /** A product occurs exactly when it has a first position. */
  lemma {:induction false} CountFirstIndex(occs: seq<Occurrence>, k: string)
    ensures Count(occs, k) > 0 <==> FirstIndex(occs, k) < |occs|
  {
    if occs != [] && occs[0].key != k {
      CountFirstIndex(occs[1..], k);
    }
  }

  // ---------------------------------------------------------------------------
  // What absorbing a run does to one product's entry.

  function Freq(pm: ProductMap, k: string): nat
  {
    if k in pm.entries then pm.entries[k].frequency else 0
  }

  function Qty(pm: ProductMap, k: string): int
  {
    if k in pm.entries then pm.entries[k].totalQuantity else 0
  }

  /** The mean times the count: the total the running mean stands for. */
  function Mass(pm: ProductMap, k: string): real
  {
    if k in pm.entries then pm.entries[k].averagePrice * pm.entries[k].frequency as real else 0.0
  }

  /** The frequency grows by one per occurrence, and the key is present once it occurred. */
  lemma {:induction false} AbsorbFrequency(pm: ProductMap, occs: seq<Occurrence>, k: string)
    requires Valid(pm)
    ensures k in Absorb(pm, occs).entries <==> k in pm.entries || Count(occs, k) > 0
    ensures Freq(Absorb(pm, occs), k) == Freq(pm, k) + Count(occs, k)
    decreases |occs|
  {
    if occs != [] {
      AbsorbFrequency(Upsert(pm, occs[0]), occs[1..], k);
    }
  }

  /** The total quantity grows by the quantity of each occurrence. */
  lemma {:induction false} AbsorbQuantity(pm: ProductMap, occs: seq<Occurrence>, k: string)
    requires Valid(pm)
    ensures Qty(Absorb(pm, occs), k) == Qty(pm, k) + QtySum(occs, k)
    decreases |occs|
  {
    if occs != [] {
      AbsorbQuantity(Upsert(pm, occs[0]), occs[1..], k);
    }
  }

  /** Name, brand and category are those of the first occurrence and never change afterwards. */
  lemma {:induction false} AbsorbFirstSeen(pm: ProductMap, occs: seq<Occurrence>, k: string)
    requires Valid(pm)
    ensures k in pm.entries ==>
      && k in Absorb(pm, occs).entries
      && Absorb(pm, occs).entries[k].productName == pm.entries[k].productName
      && Absorb(pm, occs).entries[k].brand == pm.entries[k].brand
      && Absorb(pm, occs).entries[k].category == pm.entries[k].category
    ensures k !in pm.entries && FirstIndex(occs, k) < |occs| ==>
      && k in Absorb(pm, occs).entries
      && Absorb(pm, occs).entries[k].productName == occs[FirstIndex(occs, k)].name
      && Absorb(pm, occs).entries[k].brand == occs[FirstIndex(occs, k)].brand
      && Absorb(pm, occs).entries[k].category == occs[FirstIndex(occs, k)].category
    decreases |occs|
  {
    if occs != [] {
      var pm' := Upsert(pm, occs[0]);
      assert Absorb(pm, occs) == Absorb(pm', occs[1..]);
      AbsorbFirstSeen(pm', occs[1..], k);
    }
  }

  /** Undoing the division of the running mean: (x / f) * f == x for a positive count f. */
  lemma ScaleBack(x: real, f: real)
    requires f > 0.0
    ensures (x / f) * f == x
  {
  }

  /** A priced occurrence adds its price to the product's mass; other products are untouched. */
  lemma UpsertMass(pm: ProductMap, o: Occurrence, k: string)
    requires Valid(pm)
    requires o.key == k ==> o.price != 0.0
    ensures Mass(Upsert(pm, o), k) == Mass(pm, k) + (if o.key == k then o.price else 0.0)
  {
    if o.key == k && k in pm.entries {
      assert Upsert(pm, o).entries[k] == Bump(pm.entries[k], o);
      BumpAverage(pm.entries[k], o);
    }
  }

  /** A priced occurrence moves the mean so that mean times count grows by exactly its price. */
  lemma BumpAverage(s: ProductStat, o: Occurrence)
    requires o.price != 0.0
    ensures Bump(s, o).averagePrice * (s.frequency + 1) as real == s.averagePrice * s.frequency as real + o.price
  {
    var f := (s.frequency + 1) as real;
    var x := s.averagePrice * s.frequency as real + o.price;
    calc {
      Bump(s, o).averagePrice;
      (s.averagePrice * (s.frequency + 1 - 1) as real + o.price) / f;
      x / f;
    }
    ScaleBack(x, f);
  }

  /** While every occurrence is priced, the running mean times the count is the running sum. */
  lemma {:induction false} AbsorbMass(pm: ProductMap, occs: seq<Occurrence>, k: string)
    requires Valid(pm)
    requires AllPriced(occs, k)
    ensures Mass(Absorb(pm, occs), k) == Mass(pm, k) + PriceSum(occs, k)
    decreases |occs|
  {
    if occs != [] {
      assert AllPriced(occs[1..], k) by {
        forall i | 0 <= i < |occs[1..]| && occs[1..][i].key == k
          ensures occs[1..][i].price != 0.0
        {
          assert occs[1..][i] == occs[i + 1];
        }
      }
      UpsertMass(pm, occs[0], k);
      AbsorbMass(Upsert(pm, occs[0]), occs[1..], k);
    }
  }

  /** Without any priced occurrence, an average that starts at 0 stays 0. */
  lemma {:induction false} AbsorbUnpriced(pm: ProductMap, occs: seq<Occurrence>, k: string)
    requires Valid(pm)
    requires NonePriced(occs, k)
    requires k in pm.entries ==> pm.entries[k].averagePrice == 0.0
    ensures k in Absorb(pm, occs).entries ==> Absorb(pm, occs).entries[k].averagePrice == 0.0
    decreases |occs|
  {
    if occs != [] {
      assert NonePriced(occs[1..], k) by {
        forall i | 0 <= i < |occs[1..]| && occs[1..][i].key == k
          ensures occs[1..][i].price == 0.0
        {
          assert occs[1..][i] == occs[i + 1];
        }
      }
      AbsorbUnpriced(Upsert(pm, occs[0]), occs[1..], k);
    }
  }

  /** New keys are appended in the order of their first occurrence. */
  lemma {:induction false} AbsorbOrder(pm: ProductMap, occs: seq<Occurrence>)
    requires Valid(pm)
    ensures pm.order <= Absorb(pm, occs).order
    ensures forall i :: |pm.order| <= i < |Absorb(pm, occs).order| ==>
      Absorb(pm, occs).order[i] !in pm.entries
      && FirstIndex(occs, Absorb(pm, occs).order[i]) < |occs|
    ensures forall i, j :: |pm.order| <= i < j < |Absorb(pm, occs).order| ==>
      FirstIndex(occs, Absorb(pm, occs).order[i]) < FirstIndex(occs, Absorb(pm, occs).order[j])
    decreases |occs|
  {
    if occs != [] {
      var x := occs[0];
      var pm' := Upsert(pm, x);
      var r := Absorb(pm, occs);
      assert r == Absorb(pm', occs[1..]);
      AbsorbOrder(pm', occs[1..]);
      forall i | |pm'.order| <= i < |r.order|
        ensures r.order[i] != x.key
        ensures FirstIndex(occs, r.order[i]) == 1 + FirstIndex(occs[1..], r.order[i])
      {
        assert x.key in pm'.entries;
      }
      if x.key !in pm.entries {
        assert r.order[|pm.order|] == pm'.order[|pm.order|] == x.key;
      }
    }
  }

  // ---------------------------------------------------------------------------
  // The statistics of a whole run, stated against the reference quantities.

  /** Per product id: present iff it occurred; `frequency` counts its occurrences; `totalQuantity` sums their quantities. */
  lemma TallyCounts(occs: seq<Occurrence>, k: string)
    ensures k in Tally(occs).entries <==> Count(occs, k) > 0
    ensures k in Tally(occs).entries ==>
      && Tally(occs).entries[k].productId == k
      && Tally(occs).entries[k].frequency == Count(occs, k)
      && Tally(occs).entries[k].totalQuantity == QtySum(occs, k)
  {
    AbsorbFrequency(Empty, occs, k);
    AbsorbQuantity(Empty, occs, k);
  }

  /** Name, brand and category of a product are those of its first occurrence. */
  lemma TallyFirstSeen(occs: seq<Occurrence>, k: string)
    ensures k in Tally(occs).entries <==> FirstIndex(occs, k) < |occs|
    ensures k in Tally(occs).entries ==>
      && FirstIndex(occs, k) < |occs|
      && Tally(occs).entries[k].productName == occs[FirstIndex(occs, k)].name
      && Tally(occs).entries[k].brand == occs[FirstIndex(occs, k)].brand
      && Tally(occs).entries[k].category == occs[FirstIndex(occs, k)].category
  {
    AbsorbFrequency(Empty, occs, k);
    CountFirstIndex(occs, k);
    AbsorbFirstSeen(Empty, occs, k);
  }

  /** From a * c == x with c positive, a == x / c. */
  lemma Unscale(a: real, c: real, x: real)
    requires c > 0.0 && a * c == x
    ensures a == x / c
  {
  }

  /** When every occurrence of a product is priced, its average is the arithmetic mean of those prices. */
  lemma TallyMeanPrice(occs: seq<Occurrence>, k: string)
    requires Count(occs, k) > 0 && AllPriced(occs, k)
    ensures k in Tally(occs).entries
    ensures Tally(occs).entries[k].averagePrice == PriceSum(occs, k) / Count(occs, k) as real
  {
    var t := Tally(occs);
    AbsorbFrequency(Empty, occs, k);
    AbsorbMass(Empty, occs, k);
    var a := t.entries[k].averagePrice;
    var c := Count(occs, k) as real;
    var x := PriceSum(occs, k);
    assert Freq(t, k) == Count(occs, k);
    assert Mass(Empty, k) == 0.0;
    assert Mass(t, k) == x;
    MassOfEntry(t, k, a, c);
    Unscale(a, c, x);
  }

  /** The mass of a present entry is its average times its frequency. */
  lemma MassOfEntry(pm: ProductMap, k: string, a: real, c: real)
    requires k in pm.entries
    requires pm.entries[k].averagePrice == a && pm.entries[k].frequency as real == c
    ensures Mass(pm, k) == a * c
  {
  }

  /** When no occurrence of a product is priced, its average is 0. */
  lemma TallyUnpriced(occs: seq<Occurrence>, k: string)
    requires Count(occs, k) > 0 && NonePriced(occs, k)
    ensures k in Tally(occs).entries
    ensures Tally(occs).entries[k].averagePrice == 0.0
  {
    AbsorbFrequency(Empty, occs, k);
    AbsorbUnpriced(Empty, occs, k);
  }

  /** The keys are the distinct product ids of the run, listed in order of first occurrence. */
  lemma TallyOrder(occs: seq<Occurrence>)
    ensures forall k :: k in Tally(occs).order <==> Count(occs, k) > 0
    ensures forall i, j :: 0 <= i < j < |Tally(occs).order| ==>
      FirstIndex(occs, Tally(occs).order[i]) < FirstIndex(occs, Tally(occs).order[j])
  {
    AbsorbOrder(Empty, occs);
    forall k
      ensures k in Tally(occs).order <==> Count(occs, k) > 0
    {
      AbsorbFrequency(Empty, occs, k);
    }
  }
}
