/**
 * Ranking of the per-product statistics: a stable sort, descending by frequency or by
 * total quantity, followed by `slice(0, itemsCount)`. `Array.prototype.sort` is
 * stable, and a stable sort by one key has exactly one possible result, so an
 * insertion sort is a faithful model of it.
 */
module Ranking {
  import opened Tally

  /** The comparator's key: `frequency` when `prefer_frequent`, else `totalQuantity`. */
  function RankOf(s: ProductStat, preferFrequent: bool): int
  {
    if preferFrequent then s.frequency else s.totalQuantity
  }

  /** Ordered by key, largest first. */
  ghost predicate NonIncreasing(s: seq<ProductStat>, preferFrequent: bool)
  {
    forall i, j :: 0 <= i < j < |s| ==> RankOf(s[i], preferFrequent) >= RankOf(s[j], preferFrequent)
  }

  /** Elements with equal keys appear in increasing `tag` order. */
  ghost predicate TiesOrdered(s: seq<ProductStat>, preferFrequent: bool, tag: ProductStat -> int)
  {
    forall i, j :: 0 <= i < j < |s| && RankOf(s[i], preferFrequent) == RankOf(s[j], preferFrequent) ==>
      tag(s[i]) < tag(s[j])
  }

  /** Places `x` after every element whose key is at least its own. */
  function Insert(sorted: seq<ProductStat>, x: ProductStat, preferFrequent: bool): (r: seq<ProductStat>)
    ensures multiset(r) == multiset(sorted) + multiset{x}
  {
    if sorted == [] then [x]
    else if RankOf(sorted[0], preferFrequent) >= RankOf(x, preferFrequent) then
      assert sorted == [sorted[0]] + sorted[1..];
      [sorted[0]] + Insert(sorted[1..], x, preferFrequent)
    else [x] + sorted
  }

  /** A suffix of a sequence ordered by key is ordered by key. */
  lemma SuffixSorted(sorted: seq<ProductStat>, preferFrequent: bool)
    requires sorted != [] && NonIncreasing(sorted, preferFrequent)
    ensures NonIncreasing(sorted[1..], preferFrequent)
  {
    forall i, j | 0 <= i < j < |sorted[1..]|
      ensures RankOf(sorted[1..][i], preferFrequent) >= RankOf(sorted[1..][j], preferFrequent)
    {
      assert sorted[1..][i] == sorted[i + 1] && sorted[1..][j] == sorted[j + 1];
    }
  }

  /** Insertion into a sorted sequence splits it at the first element with a smaller key. */
  lemma {:induction false} InsertSplit(sorted: seq<ProductStat>, x: ProductStat, preferFrequent: bool)
    returns (p: nat)
    requires NonIncreasing(sorted, preferFrequent)
    ensures p <= |sorted|
    ensures Insert(sorted, x, preferFrequent) == sorted[..p] + [x] + sorted[p..]
    ensures forall i :: 0 <= i < p ==> RankOf(sorted[i], preferFrequent) >= RankOf(x, preferFrequent)
    ensures forall i :: p <= i < |sorted| ==> RankOf(sorted[i], preferFrequent) < RankOf(x, preferFrequent)
  {
    if sorted == [] {
      p := 0;
    } else if RankOf(sorted[0], preferFrequent) >= RankOf(x, preferFrequent) {
      var tail := sorted[1..];
      SuffixSorted(sorted, preferFrequent);
      var q := InsertSplit(tail, x, preferFrequent);
      p := q + 1;
      ConsSplit(sorted, x, q);
      ConsBounds(sorted, x, preferFrequent, q);
    } else {
      p := 0;
      assert sorted[..0] == [];
      HeadBelow(sorted, x, preferFrequent);
    }
  }

  /** The tail's split point at `q`, with the head kept in front, bounds the whole at `q + 1`. */
  lemma ConsBounds(sorted: seq<ProductStat>, x: ProductStat, preferFrequent: bool, q: nat)
    requires sorted != [] && q < |sorted|
    requires RankOf(sorted[0], preferFrequent) >= RankOf(x, preferFrequent)
    requires forall i :: 0 <= i < q ==> RankOf(sorted[1..][i], preferFrequent) >= RankOf(x, preferFrequent)
    requires forall i :: q <= i < |sorted[1..]| ==> RankOf(sorted[1..][i], preferFrequent) < RankOf(x, preferFrequent)
    ensures forall i :: 0 <= i < q + 1 ==> RankOf(sorted[i], preferFrequent) >= RankOf(x, preferFrequent)
    ensures forall i :: q + 1 <= i < |sorted| ==> RankOf(sorted[i], preferFrequent) < RankOf(x, preferFrequent)
  {
    forall i | 0 < i < |sorted|
      ensures sorted[i] == sorted[1..][i - 1]
    {
    }
  }

  /** When `x` outranks the head of a sorted sequence, it outranks every element. */
  lemma HeadBelow(sorted: seq<ProductStat>, x: ProductStat, preferFrequent: bool)
    requires NonIncreasing(sorted, preferFrequent)
    requires sorted != [] && RankOf(sorted[0], preferFrequent) < RankOf(x, preferFrequent)
    ensures forall i :: 0 <= i < |sorted| ==> RankOf(sorted[i], preferFrequent) < RankOf(x, preferFrequent)
  {
    forall i | 0 < i < |sorted|
      ensures RankOf(sorted[0], preferFrequent) >= RankOf(sorted[i], preferFrequent)
    {
    }
  }

  /** Splitting the tail at `q` is splitting the whole at `q + 1`. */
  lemma ConsSplit(sorted: seq<ProductStat>, x: ProductStat, q: nat)
    requires sorted != [] && q < |sorted|
    ensures [sorted[0]] + (sorted[1..][..q] + [x] + sorted[1..][q..]) == sorted[..q + 1] + [x] + sorted[q + 1..]
  {
    assert sorted[..q + 1] == [sorted[0]] + sorted[1..][..q];
    assert sorted[q + 1..] == sorted[1..][q..];
  }

  /** Where each element of `sorted[..p] + [x] + sorted[p..]` comes from. */
  lemma SplitIndex(sorted: seq<ProductStat>, x: ProductStat, p: nat, i: nat)
    requires p <= |sorted| && i <= |sorted|
    ensures (sorted[..p] + [x] + sorted[p..])[i] ==
      if i < p then sorted[i] else if i == p then x else sorted[i - 1]
  {
  }

  /** Inserting keeps the order by key. */
  lemma InsertSorted(sorted: seq<ProductStat>, x: ProductStat, preferFrequent: bool)
    requires NonIncreasing(sorted, preferFrequent)
    ensures NonIncreasing(Insert(sorted, x, preferFrequent), preferFrequent)
  {
    var p := InsertSplit(sorted, x, preferFrequent);
    var r := Insert(sorted, x, preferFrequent);
    forall i, j | 0 <= i < j < |r|
      ensures RankOf(r[i], preferFrequent) >= RankOf(r[j], preferFrequent)
    {
      SplitIndex(sorted, x, p, i);
      SplitIndex(sorted, x, p, j);
    }
  }

  /** Inserting an element whose tag exceeds every present tag keeps ties in tag order. */
  lemma InsertTies(sorted: seq<ProductStat>, x: ProductStat, preferFrequent: bool, tag: ProductStat -> int)
    requires NonIncreasing(sorted, preferFrequent)
    requires TiesOrdered(sorted, preferFrequent, tag)
    requires forall i :: 0 <= i < |sorted| ==> tag(sorted[i]) < tag(x)
    ensures TiesOrdered(Insert(sorted, x, preferFrequent), preferFrequent, tag)
  {
    var p := InsertSplit(sorted, x, preferFrequent);
    var r := Insert(sorted, x, preferFrequent);
    forall i, j | 0 <= i < j < |r| && RankOf(r[i], preferFrequent) == RankOf(r[j], preferFrequent)
      ensures tag(r[i]) < tag(r[j])
    {
      SplitIndex(sorted, x, p, i);
      SplitIndex(sorted, x, p, j);
    }
  }

  /** Inserts the elements of `rest`, first to last, into `acc`. */
  function SortInto(acc: seq<ProductStat>, rest: seq<ProductStat>, preferFrequent: bool): (r: seq<ProductStat>)
    ensures multiset(r) == multiset(acc) + multiset(rest)
    decreases |rest|
  {
    if rest == [] then acc
    else
      assert rest == [rest[0]] + rest[1..];
      SortInto(Insert(acc, rest[0], preferFrequent), rest[1..], preferFrequent)
  }

  /** The stable descending sort of the source's `.sort((a, b) => key(b) - key(a))`. */
  function StableSort(s: seq<ProductStat>, preferFrequent: bool): (r: seq<ProductStat>)
    ensures multiset(r) == multiset(s)
  {
    SortInto([], s, preferFrequent)
  }

  lemma {:induction false} SortIntoSorted(acc: seq<ProductStat>, rest: seq<ProductStat>, preferFrequent: bool)
    requires NonIncreasing(acc, preferFrequent)
    ensures NonIncreasing(SortInto(acc, rest, preferFrequent), preferFrequent)
    decreases |rest|
  {
    if rest != [] {
      InsertSorted(acc, rest[0], preferFrequent);
      SortIntoSorted(Insert(acc, rest[0], preferFrequent), rest[1..], preferFrequent);
    }
  }

  lemma {:induction false} SortIntoTies(acc: seq<ProductStat>, rest: seq<ProductStat>, preferFrequent: bool, tag: ProductStat -> int)
    requires NonIncreasing(acc, preferFrequent)
    requires TiesOrdered(acc, preferFrequent, tag)
    requires forall i, j :: 0 <= i < j < |rest| ==> tag(rest[i]) < tag(rest[j])
    requires forall i, j :: 0 <= i < |acc| && 0 <= j < |rest| ==> tag(acc[i]) < tag(rest[j])
    ensures TiesOrdered(SortInto(acc, rest, preferFrequent), preferFrequent, tag)
    decreases |rest|
  {
    if rest != [] {
      var x := rest[0];
      InsertTies(acc, x, preferFrequent, tag);
      InsertSorted(acc, x, preferFrequent);
      var acc' := Insert(acc, x, preferFrequent);
      forall i, j | 0 <= i < |acc'| && 0 <= j < |rest[1..]|
        ensures tag(acc'[i]) < tag(rest[1..][j])
      {
        assert acc'[i] in multiset(acc) + multiset{x};
        if acc'[i] in multiset(acc) {
          var m :| 0 <= m < |acc| && acc[m] == acc'[i];
          assert tag(acc[m]) < tag(rest[j + 1]);
        } else {
          assert acc'[i] == x;
          assert tag(rest[0]) < tag(rest[j + 1]);
        }
      }
      SortIntoTies(acc', rest[1..], preferFrequent, tag);
    }
  }

  /**
   * The sort is a permutation, is ordered by key, and keeps elements with equal
   * keys in their input order (here: in increasing `tag`, given an input in
   * increasing `tag`).
   */
  lemma StableSortSpec(s: seq<ProductStat>, preferFrequent: bool, tag: ProductStat -> int)
    requires forall i, j :: 0 <= i < j < |s| ==> tag(s[i]) < tag(s[j])
    ensures multiset(StableSort(s, preferFrequent)) == multiset(s)
    ensures |StableSort(s, preferFrequent)| == |s|
    ensures NonIncreasing(StableSort(s, preferFrequent), preferFrequent)
    ensures TiesOrdered(StableSort(s, preferFrequent), preferFrequent, tag)
  {
    var r := StableSort(s, preferFrequent);
    assert |r| == |multiset(r)| == |multiset(s)| == |s|;
    SortIntoSorted([], s, preferFrequent);
    SortIntoTies([], s, preferFrequent, tag);
  }
}
