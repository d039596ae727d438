/**
 * The second half of `pie_graph`: KMeans(n_clusters=5) labels every price
 * with a cluster, `np.unique` lists the clusters that occur in ascending
 * order with their sizes, and each gets a slice whose legend shows the
 * integer parts of its smallest and largest price. The clustering is an
 * input: `assign` is the label the fitted model predicts for a price.
 */
module Buckets {

  import opened Wrappers
  import opened Text
  import opened Copies
  import opened Listings
  import opened PriceColumn

  /** `n_clusters=5`. */
  const ClusterCount: nat := 5

  type Cluster = c: nat | c < 5

  /** `kmeans.predict(numpy_prices)`: the label of each price. */
  function Labels(assign: real -> Cluster, prices: seq<real>): (r: seq<Cluster>)
    ensures |r| == |prices|
  {
    seq(|prices|, i requires 0 <= i < |prices| => assign(prices[i]))
  }

  /** How many prices carry the label `c`. */
  function Occurrences(labels: seq<Cluster>, c: Cluster): (n: nat)
    ensures n <= |labels|
    ensures n == 0 <==> c !in labels
  {
    if labels == [] then 0 else (if labels[0] == c then 1 else 0) + Occurrences(labels[1..], c)
  }

  /** The clusters from `c` up that occur among the labels, ascending. */
  function PresentFrom(labels: seq<Cluster>, c: nat): (r: seq<Cluster>)
    ensures forall i :: 0 <= i < |r| ==> c <= r[i]
    ensures forall i, j :: 0 <= i < j < |r| ==> r[i] < r[j]
    ensures forall x: Cluster :: x in r <==> c <= x && x in labels
    decreases ClusterCount - c
  {
    if c >= ClusterCount then [] else (if c in labels then [c as Cluster] else []) + PresentFrom(labels, c + 1)
  }

  /** `np.unique(labels)`: every cluster that occurs, once, in ascending order. */
  function UniqueLabels(labels: seq<Cluster>): (r: seq<Cluster>)
    ensures forall i, j :: 0 <= i < j < |r| ==> r[i] < r[j]
    ensures forall x: Cluster :: x in r <==> x in labels
  {
    PresentFrom(labels, 0)
  }

  /** `numpy_prices[labels == c]`: the prices labelled `c`, in order. */
  function Members(prices: seq<real>, labels: seq<Cluster>, c: Cluster): (m: seq<real>)
    requires |labels| == |prices|
    ensures |m| == Occurrences(labels, c)
  {
    if prices == [] then []
    else (if labels[0] == c then [prices[0]] else []) + Members(prices[1..], labels[1..], c)
  }

  /** `.min()`. */
  function Min(xs: seq<real>): (m: real)
    requires xs != []
    ensures m in xs && forall x :: x in xs ==> m <= x
  {
    if |xs| == 1 then xs[0]
    else
      var rest := Min(xs[1..]);
      assert xs == [xs[0]] + xs[1..];
      if xs[0] <= rest then xs[0] else rest
  }

  /** `.max()`. */
  function Max(xs: seq<real>): (m: real)
    requires xs != []
    ensures m in xs && forall x :: x in xs ==> x <= m
  {
    if |xs| == 1 then xs[0]
    else
      var rest := Max(xs[1..]);
      assert xs == [xs[0]] + xs[1..];
      if xs[0] >= rest then xs[0] else rest
  }

  /** `int(x)`: the integer part, rounded toward zero. */
  function Trunc(x: real): (n: int)
    ensures x >= 0.0 ==> n as real <= x < n as real + 1.0
    ensures x < 0.0 ==> n as real - 1.0 < x <= n as real
  {
    if x >= 0.0 then x.Floor else -((-x).Floor)
  }

  /** One slice: its cluster, how many prices it holds, and `int()` of its smallest and largest price. */
  datatype Bucket = Bucket(cluster: Cluster, count: nat, low: int, high: int)

  function BucketOf(prices: seq<real>, labels: seq<Cluster>, c: Cluster): Bucket
    requires |labels| == |prices| && c in labels
  {
    var m := Members(prices, labels, c);
    Bucket(c, Occurrences(labels, c), Trunc(Min(m)), Trunc(Max(m)))
  }

  /** The comprehension over the unique labels: one slice per cluster of `cs`, in that order. */
  function BucketsFor(prices: seq<real>, labels: seq<Cluster>, cs: seq<Cluster>): (r: seq<Bucket>)
    requires |labels| == |prices| && forall c :: c in cs ==> c in labels
    ensures |r| == |cs| && forall i :: 0 <= i < |cs| ==> r[i] == BucketOf(prices, labels, cs[i])
    ensures forall i :: 0 <= i < |cs| ==> r[i].cluster == cs[i]
  {
    if cs == [] then [] else [BucketOf(prices, labels, cs[0])] + BucketsFor(prices, labels, cs[1..])
  }

  /** The slices of the chart: `counts` and `price_ranges`, one entry per unique label. */
  function PriceBuckets(prices: seq<real>, labels: seq<Cluster>): seq<Bucket>
    requires |labels| == |prices|
  {
    BucketsFor(prices, labels, UniqueLabels(labels))
  }

  function TotalCount(bs: seq<Bucket>): nat {
    if bs == [] then 0 else bs[0].count + TotalCount(bs[1..])
  }

  /** `str(low) + "-" + str(high)`. */
  function RangeText(low: int, high: int): string {
    IntToString(low) + "-" + IntToString(high)
  }

  /** A slice's legend: "Around <sym><min>-<max>" in the older copies, "<sym><min>-<max>" in the others. */
  function Legend(copy: Copy, sym: string, b: Bucket): string {
    (if OlderShape(copy) then "Around " else "") + sym + RangeText(b.low, b.high)
  }

  function Legends(copy: Copy, sym: string, bs: seq<Bucket>): (r: seq<string>)
    ensures |r| == |bs|
    ensures forall i :: 0 <= i < |bs| ==> r[i] == Legend(copy, sym, bs[i])
  {
    seq(|bs|, i requires 0 <= i < |bs| => Legend(copy, sym, bs[i]))
  }

  /**
   * What `pie_graph` draws: nothing for an empty list; ValueError where a
   * price does not read as a number, or where there are fewer prices than
   * the five clusters KMeans is asked for; otherwise the slices and legends.
   */
  datatype Chart = NoData | PriceUnreadable | TooFewPrices | Pie(slices: seq<Bucket>, legend: seq<string>)

  function PieGraph(copy: Copy, rows: seq<Listing>, sym: string, assign: real -> Cluster): Chart {
    if rows == [] then NoData
    else
      match PiePrices(copy, rows, sym)
      case None => PriceUnreadable
      case Some(prices) => ClusterChart(copy, sym, prices, assign)
  }

  /** KMeans and the slices, once the prices are read. */
  function ClusterChart(copy: Copy, sym: string, prices: seq<real>, assign: real -> Cluster): Chart {
    if |prices| < ClusterCount then TooFewPrices
    else
      var bs := PriceBuckets(prices, Labels(assign, prices));
      Pie(bs, Legends(copy, sym, bs))
  }

  // ---------------------------------------------------------------------
  // Properties

  /** How many labels are `c` or above. */
  function CountFrom(labels: seq<Cluster>, c: nat): (n: nat)
    ensures n <= |labels|
  {
    if labels == [] then 0 else (if labels[0] >= c then 1 else 0) + CountFrom(labels[1..], c)
  }

  /** The labels from `c` up are those equal to `c` and those above it. */
  lemma {:induction false} CountFromSplit(labels: seq<Cluster>, c: Cluster)
    ensures CountFrom(labels, c) == Occurrences(labels, c) + CountFrom(labels, c + 1)
  {
    if labels != [] {
      CountFromSplit(labels[1..], c);
    }
  }

  lemma {:induction false} CountFromEnds(labels: seq<Cluster>)
    ensures CountFrom(labels, 0) == |labels|
    ensures CountFrom(labels, ClusterCount) == 0
  {
    if labels != [] {
      CountFromEnds(labels[1..]);
    }
  }

  /** The number of prices labelled with one of `cs`. */
  function SumOccurrences(labels: seq<Cluster>, cs: seq<Cluster>): nat {
    if cs == [] then 0 else Occurrences(labels, cs[0]) + SumOccurrences(labels, cs[1..])
  }

  /** Each slice counts the prices of its cluster. */
  lemma {:induction false} TotalCountIsOccurrences(prices: seq<real>, labels: seq<Cluster>, cs: seq<Cluster>)
    requires |labels| == |prices| && forall c :: c in cs ==> c in labels
    ensures TotalCount(BucketsFor(prices, labels, cs)) == SumOccurrences(labels, cs)
  {
    if cs != [] {
      var bs := BucketsFor(prices, labels, cs);
      assert bs[0].count == Occurrences(labels, cs[0]);
      assert bs[1..] == BucketsFor(prices, labels, cs[1..]);
      TotalCountIsOccurrences(prices, labels, cs[1..]);
    }
  }

  /** The clusters from `c` up that occur account for every label `c` or above. */
  lemma {:induction false} SumPresentFrom(labels: seq<Cluster>, c: nat)
    requires c <= ClusterCount
    ensures SumOccurrences(labels, PresentFrom(labels, c)) == CountFrom(labels, c)
    decreases ClusterCount - c
  {
    if c == ClusterCount {
      CountFromEnds(labels);
    } else {
      SumPresentFrom(labels, c + 1);
      CountFromSplit(labels, c as Cluster);
      var rest := PresentFrom(labels, c + 1);
      if c in labels {
        var cs := [c as Cluster] + rest;
        assert cs[1..] == rest;
        assert PresentFrom(labels, c) == cs;
      } else {
        assert PresentFrom(labels, c) == rest;
      }
    }
  }

  /** Every price is counted in exactly one slice: the counts add up to the number of prices. */
  lemma BucketCountsSum(prices: seq<real>, labels: seq<Cluster>)
    requires |labels| == |prices|
    ensures TotalCount(PriceBuckets(prices, labels)) == |prices|
  {
    TotalCountIsOccurrences(prices, labels, UniqueLabels(labels));
    SumPresentFrom(labels, 0);
    CountFromEnds(labels);
  }

  /** A price is among the members of its own cluster. */
  lemma {:induction false} MemberOfOwnCluster(prices: seq<real>, labels: seq<Cluster>, i: nat)
    requires |labels| == |prices| && i < |prices|
    ensures prices[i] in Members(prices, labels, labels[i])
  {
    if i > 0 {
      MemberOfOwnCluster(prices[1..], labels[1..], i - 1);
    }
  }

  /** `int()` keeps the order of the numbers it truncates. */
  lemma TruncMonotone(x: real, y: real)
    requires x <= y
    ensures Trunc(x) <= Trunc(y)
  {
  }

  /**
   * The slice of a cluster that occurs holds at least one price, its bounds
   * are ordered, and the integer part of every price of the cluster lies
   * between them.
   */
  lemma BucketOfBounds(prices: seq<real>, labels: seq<Cluster>, c: Cluster)
    requires |labels| == |prices| && c in labels
    ensures var b := BucketOf(prices, labels, c);
      b.count >= 1 && b.low <= b.high &&
      forall k :: 0 <= k < |prices| && labels[k] == c ==> b.low <= Trunc(prices[k]) <= b.high
  {
    var m := Members(prices, labels, c);
    TruncMonotone(Min(m), Max(m));
    forall k | 0 <= k < |prices| && labels[k] == c
      ensures Trunc(Min(m)) <= Trunc(prices[k]) <= Trunc(Max(m))
    {
      MemberOfOwnCluster(prices, labels, k);
      TruncMonotone(Min(m), prices[k]);
      TruncMonotone(prices[k], Max(m));
    }
  }

  /** A cluster has a slice exactly when some price carries its label. */
  lemma BucketFor(prices: seq<real>, labels: seq<Cluster>, c: Cluster)
    requires |labels| == |prices|
    ensures var bs := PriceBuckets(prices, labels);
      c in labels <==> exists i :: 0 <= i < |bs| && bs[i].cluster == c
  {
    var bs := PriceBuckets(prices, labels);
    var cs := UniqueLabels(labels);
    if c in labels {
      var i :| 0 <= i < |cs| && cs[i] == c;
      assert bs[i].cluster == c;
    }
    if exists i :: 0 <= i < |bs| && bs[i].cluster == c {
      var i :| 0 <= i < |bs| && bs[i].cluster == c;
      assert bs[i].cluster == cs[i];
      assert cs[i] in cs;
    }
  }

  /** The slices come in ascending label order, so no cluster has two. */
  lemma BucketsAscending(prices: seq<real>, labels: seq<Cluster>)
    requires |labels| == |prices|
    ensures var bs := PriceBuckets(prices, labels);
      forall i, j :: 0 <= i < j < |bs| ==> bs[i].cluster < bs[j].cluster
  {
  }

  /** There is a slice for every cluster that occurs and for no other. */
  lemma BucketsCover(prices: seq<real>, labels: seq<Cluster>)
    requires |labels| == |prices|
    ensures var bs := PriceBuckets(prices, labels);
      forall c: Cluster :: c in labels <==> exists i :: 0 <= i < |bs| && bs[i].cluster == c
  {
    forall c: Cluster
      ensures var bs := PriceBuckets(prices, labels); c in labels <==> exists i :: 0 <= i < |bs| && bs[i].cluster == c
    {
      BucketFor(prices, labels, c);
    }
  }

  /** Every slice holds a price, and its bounds enclose the integer part of each of its prices. */
  lemma BucketsBounds(prices: seq<real>, labels: seq<Cluster>)
    requires |labels| == |prices|
    ensures var bs := PriceBuckets(prices, labels);
      (forall i :: 0 <= i < |bs| ==> bs[i].count >= 1 && bs[i].low <= bs[i].high) &&
      (forall i, k :: 0 <= i < |bs| && 0 <= k < |prices| && labels[k] == bs[i].cluster ==>
        bs[i].low <= Trunc(prices[k]) <= bs[i].high)
  {
    var bs := PriceBuckets(prices, labels);
    var cs := UniqueLabels(labels);
    forall i | 0 <= i < |bs|
      ensures bs[i].count >= 1 && bs[i].low <= bs[i].high
      ensures forall k :: 0 <= k < |prices| && labels[k] == bs[i].cluster ==> bs[i].low <= Trunc(prices[k]) <= bs[i].high
    {
      assert bs[i] == BucketOf(prices, labels, cs[i]);
      BucketOfBounds(prices, labels, cs[i]);
    }
  }

  /**
   * `pie_graph` draws nothing for an empty list of rows; otherwise it draws
   * the chart of the prices it reads, and KMeans needs five of them.
   */
  lemma PieGraphCases(copy: Copy, rows: seq<Listing>, sym: string, assign: real -> Cluster)
    ensures rows == [] ==> PieGraph(copy, rows, sym, assign) == NoData
    ensures rows != [] && PiePrices(copy, rows, sym).None? ==> PieGraph(copy, rows, sym, assign) == PriceUnreadable
    ensures rows != [] && PiePrices(copy, rows, sym).Some? ==>
      var prices := PiePrices(copy, rows, sym).value;
      PieGraph(copy, rows, sym, assign) == ClusterChart(copy, sym, prices, assign) &&
      (ClusterChart(copy, sym, prices, assign) == TooFewPrices <==> |prices| < ClusterCount)
  {
  }

  /**
   * A drawn chart has one legend per slice, its slice counts add up to the
   * number of prices, and each legend shows the symbol and the truncated
   * bounds of its slice, after "Around " in the older copies.
   */
  lemma ClusterChartSlices(copy: Copy, sym: string, prices: seq<real>, assign: real -> Cluster)
    requires |prices| >= ClusterCount
    ensures var chart := ClusterChart(copy, sym, prices, assign);
      chart.Pie? && |chart.legend| == |chart.slices| &&
      TotalCount(chart.slices) == |prices| &&
      forall i :: 0 <= i < |chart.slices| ==>
        chart.legend[i] == (if OlderShape(copy) then "Around " else "") + sym +
          IntToString(chart.slices[i].low) + "-" + IntToString(chart.slices[i].high)
  {
    var labels := Labels(assign, prices);
    var bs := PriceBuckets(prices, labels);
    BucketCountsSum(prices, labels);
    LegendsText(copy, sym, bs);
    assert ClusterChart(copy, sym, prices, assign) == Pie(bs, Legends(copy, sym, bs));
  }

  lemma LegendsText(copy: Copy, sym: string, bs: seq<Bucket>)
    ensures var legend := Legends(copy, sym, bs);
      forall i :: 0 <= i < |bs| ==>
        legend[i] == (if OlderShape(copy) then "Around " else "") + sym +
          IntToString(bs[i].low) + "-" + IntToString(bs[i].high)
  {
  }

  /** There are never more slices than prices. */
  lemma SlicesAtMostPrices(prices: seq<real>, labels: seq<Cluster>)
    requires |labels| == |prices|
    ensures |PriceBuckets(prices, labels)| <= |prices|
  {
    BucketsBounds(prices, labels);
    BucketCountsSum(prices, labels);
    CountsBoundLength(PriceBuckets(prices, labels));
  }

  lemma {:induction false} CountsBoundLength(bs: seq<Bucket>)
    requires forall i :: 0 <= i < |bs| ==> bs[i].count >= 1
    ensures |bs| <= TotalCount(bs)
  {
    if bs != [] {
      CountsBoundLength(bs[1..]);
    }
  }
}
