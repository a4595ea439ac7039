/**
 * The `stats` computation of src/components/Dashboard.tsx: KPI totals, the best product
 * and region, and the three chart series (bar by product, line by month, pie by region).
 */
module Dashboard {
  import opened Options
  import opened Records
  import opened Series
  import opened Sorting

  /**
   * `Object.entries(dict).reduce((a, b) => a[1] > b[1] ? a : b)`: the accumulator is kept
   * only while it is strictly greater, so a later entry with an equal value replaces it.
   */
  function BestOf(es: seq<Entry>): Entry
    requires |es| > 0
  {
    if |es| == 1 then es[0]
    else
      var a := BestOf(es[..|es| - 1]);
      var b := es[|es| - 1];
      if a.value > b.value then a else b
  }

  /** `es[k]` carries the maximum value and every later entry is strictly smaller. */
  predicate IsLastMaximum(es: seq<Entry>, k: nat)
  {
    && k < |es|
    && (forall j :: 0 <= j < |es| ==> es[j].value <= es[k].value)
    && (forall j :: k < j < |es| ==> es[j].value < es[k].value)
  }

  /** The reduce picks the last of the entries carrying the maximum value. */
  lemma {:induction false} BestOfIsLastMaximum(es: seq<Entry>) returns (k: nat)
    requires |es| > 0
    ensures IsLastMaximum(es, k) && BestOf(es) == es[k]
  {
    if |es| == 1 {
      k := 0;
    } else {
      var p := es[..|es| - 1];
      var k' := BestOfIsLastMaximum(p);
      assert forall j :: 0 <= j < |p| ==> p[j] == es[j];
      if p[k'].value > es[|es| - 1].value {
        k := k';
      } else {
        k := |es| - 1;
      }
    }
  }

  /** Two products with the same revenue: the one enumerated later is reported as the best. */
  lemma TieGoesToTheLaterEntry()
    ensures BestOf([Entry("A", 5.0), Entry("B", 5.0)]).name == "B"
    ensures BestOf([Entry("A", 5.0), Entry("B", 4.0), Entry("C", 5.0)]).name == "C"
  {
    assert [Entry("A", 5.0), Entry("B", 5.0)][..1] == [Entry("A", 5.0)];
    var three := [Entry("A", 5.0), Entry("B", 4.0), Entry("C", 5.0)];
    assert three[..2] == [Entry("A", 5.0), Entry("B", 4.0)];
    assert three[..2][..1] == [Entry("A", 5.0)];
  }

  /**
   * `key` is a best key of `data` under `g`: it occurs, no key earns more revenue, and
   * every other key earning as much was first seen before it.
   */
  ghost predicate IsBestKey(data: seq<SalesData>, g: Grouping, key: string)
  {
    var ks := Keys(data, g);
    && key in ks
    && (forall n :: n in ks ==> RevenueWhere(data, g, n) <= RevenueWhere(data, g, key))
    && (forall n :: n in ks && n != key && RevenueWhere(data, g, n) == RevenueWhere(data, g, key) ==>
          FirstIndex(ks, n) < FirstIndex(ks, key))
  }

  lemma GroupNonEmpty(data: seq<SalesData>, g: Grouping)
    requires |data| > 0
    ensures |Group(data, g)| > 0
  {
    GroupNames(data, g);
    assert Keys(data, g)[0] in Keys(data, g);
  }

  /** In entries ordered by `ks`, every other entry tied with the last maximum comes earlier in `ks`. */
  lemma LastMaximumComesLast(b: seq<Entry>, ks: seq<string>, k: nat)
    requires IsLastMaximum(b, k) && OrderedBy(ks, b)
    ensures forall j :: 0 <= j < |b| && j != k && b[j].value == b[k].value ==>
              FirstIndex(ks, b[j].name) < FirstIndex(ks, b[k].name)
  {
    forall j | 0 <= j < |b| && j != k && b[j].value == b[k].value
      ensures FirstIndex(ks, b[j].name) < FirstIndex(ks, b[k].name)
    {
      assert j < k;
      assert SeenBefore(ks, b[j].name, b[k].name);
    }
  }

  /** Each key of a tally has its bucket, holding that key's revenue. */
  lemma BucketOfKey(b: seq<Entry>, data: seq<SalesData>, g: Grouping, n: string) returns (j: nat)
    requires Tallies(b, data, g) && n in Keys(data, g)
    ensures j < |b| && b[j].name == n && b[j].value == RevenueWhere(data, g, n)
  {
    assert n in Names(b);
    j :| 0 <= j < |b| && Names(b)[j] == n;
    assert b[j] in b;
  }

  /** In a tally kept in first-seen order, the last bucket with the maximum value names a best key. */
  lemma LastMaximumIsBestKey(b: seq<Entry>, data: seq<SalesData>, g: Grouping, k: nat)
    requires Tallies(b, data, g) && InFirstSeenOrder(b, data, g) && IsLastMaximum(b, k)
    ensures IsBestKey(data, g, b[k].name)
  {
    var ks := Keys(data, g);
    var key := b[k].name;
    LastMaximumComesLast(b, ks, k);
    assert Names(b)[k] == key;
    assert b[k] in b;
    forall n | n in ks
      ensures RevenueWhere(data, g, n) <= RevenueWhere(data, g, key)
      ensures n != key && RevenueWhere(data, g, n) == RevenueWhere(data, g, key) ==>
                FirstIndex(ks, n) < FirstIndex(ks, key)
    {
      var j := BucketOfKey(b, data, g, n);
    }
  }

  /** The best-of reduce over the buckets of non-empty data names a best key. */
  lemma BestOfGroupIsBestKey(data: seq<SalesData>, g: Grouping)
    requires |data| > 0
    ensures |Group(data, g)| > 0 && IsBestKey(data, g, BestOf(Group(data, g)).name)
  {
    var b := Group(data, g);
    GroupNonEmpty(data, g);
    GroupTallies(data, g);
    GroupFirstSeen(data, g);
    var k := BestOfIsLastMaximum(b);
    LastMaximumIsBestKey(b, data, g, k);
  }

  /** The ties of `e` are drawn from `s`. */
  lemma {:induction false} TiesAreDrawnFrom(o: SortOrder, s: seq<Entry>, e: Entry)
    ensures forall y :: y in Ties(o, s, e) ==> y in s
  {
    if |s| > 0 {
      TiesAreDrawnFrom(o, s[1..], e);
      assert forall y :: y in s[1..] ==> y in s;
    }
  }

  /** Among entries tied under `o`, an order by first occurrence survives in the ties. */
  lemma {:induction false} TiesKeepOrder(o: SortOrder, s: seq<Entry>, e: Entry, ks: seq<string>)
    requires OrderedBy(ks, s)
    ensures OrderedBy(ks, Ties(o, s, e))
  {
    if |s| > 0 {
      var tail := s[1..];
      var rest := Ties(o, tail, e);
      assert OrderedBy(ks, tail) by {
        forall i, j | 0 <= i < j < |tail| ensures SeenBefore(ks, tail[i].name, tail[j].name) {
          assert tail[i] == s[i + 1] && tail[j] == s[j + 1];
        }
      }
      TiesKeepOrder(o, tail, e, ks);
      if Tied(o, s[0], e) {
        TiesAreDrawnFrom(o, tail, e);
        assert Ties(o, s, e) == [s[0]] + rest;
        forall y | y in rest ensures SeenBefore(ks, s[0].name, y.name) {
          var q :| 0 <= q < |tail| && tail[q] == y;
          assert s[q + 1] == y;
        }
        OrderedByCons(ks, s[0], rest);
      }
    }
  }

  lemma OrderedByCons(ks: seq<string>, a: Entry, rest: seq<Entry>)
    requires OrderedBy(ks, rest)
    requires forall y :: y in rest ==> SeenBefore(ks, a.name, y.name)
    ensures OrderedBy(ks, [a] + rest)
  {
    var t := [a] + rest;
    forall i, j | 0 <= i < j < |t| ensures SeenBefore(ks, t[i].name, t[j].name) {
      assert t[j] == rest[j - 1];
      if i > 0 {
        assert t[i] == rest[i - 1];
      }
    }
  }

  /** What the dashboard shows for a non-empty record sequence. */
  datatype Stats = Stats(
    totalRevenue: real,
    totalUnits: real,
    bestProduct: string,
    bestRegion: string,
    barData: seq<Entry>,
    lineData: seq<Entry>,
    pieData: seq<Entry>)

  /**
   * The `data.forEach` loop that fills `productSales`, `regionSales` and `monthlySales`:
   * each record adds its revenue to its product, region and month buckets.
   */
  method Tally(data: seq<SalesData>) returns (productSales: seq<Entry>, regionSales: seq<Entry>, monthlySales: seq<Entry>)
    ensures productSales == Group(data, ByProduct)
    ensures regionSales == Group(data, ByRegion)
    ensures monthlySales == Group(data, ByMonth)
  {
    productSales, regionSales, monthlySales := [], [], [];
    var i := 0;
    while i < |data|
      invariant 0 <= i <= |data|
      invariant productSales == Group(data[..i], ByProduct)
      invariant regionSales == Group(data[..i], ByRegion)
      invariant monthlySales == Group(data[..i], ByMonth)
    {
      var item := data[i];
      assert data[..i + 1][..i] == data[..i];
      productSales := Add(productSales, item.product, item.revenue);
      regionSales := Add(regionSales, item.region, item.revenue);
      var month := MonthOf(item.date);
      monthlySales := Add(monthlySales, month, item.revenue);
      i := i + 1;
    }
    assert data[..|data|] == data;
  }

  /**
   * The `useMemo` body: no stats for an empty sequence; otherwise the totals, the best
   * product and region, the bar series (product buckets, largest first, ties in first-seen
   * order), the line series (month buckets in ascending month order) and the pie series
   * (region buckets in first-seen order).
   */
  method ComputeStats(data: seq<SalesData>) returns (stats: Option<Stats>)
    ensures stats.None? <==> |data| == 0
    ensures stats.Some? ==> stats.value.totalRevenue == RevenueSum(data)
    ensures stats.Some? ==> stats.value.totalUnits == UnitsSum(data)
    ensures stats.Some? ==> IsBestKey(data, ByProduct, stats.value.bestProduct)
    ensures stats.Some? ==> IsBestKey(data, ByRegion, stats.value.bestRegion)
    ensures stats.Some? ==> Tallies(stats.value.barData, data, ByProduct)
    ensures stats.Some? ==> multiset(stats.value.barData) == multiset(Group(data, ByProduct))
    ensures stats.Some? ==> Sorted(ValueDescending, stats.value.barData)
    ensures stats.Some? ==> forall e :: InFirstSeenOrder(Ties(ValueDescending, stats.value.barData, e), data, ByProduct)
    ensures stats.Some? ==> Tallies(stats.value.lineData, data, ByMonth)
    ensures stats.Some? ==> Sorted(NameAscending, stats.value.lineData)
    ensures stats.Some? ==> Tallies(stats.value.pieData, data, ByRegion)
    ensures stats.Some? ==> InFirstSeenOrder(stats.value.pieData, data, ByRegion)
  {
    if |data| == 0 {
      return None;
    }
    var totalRevenue := RevenueSum(data);
    var totalUnits := UnitsSum(data);
    var productSales, regionSales, monthlySales := Tally(data);
    BestOfGroupIsBestKey(data, ByProduct);
    BestOfGroupIsBestKey(data, ByRegion);
    var bestProduct := BestOf(productSales).name;
    var bestRegion := BestOf(regionSales).name;
    var barData := Sort(ValueDescending, productSales);
    var lineData := Sort(NameAscending, monthlySales);
    var pieData := regionSales;

    GroupTallies(data, ByProduct);
    GroupTallies(data, ByMonth);
    GroupTallies(data, ByRegion);
    GroupFirstSeen(data, ByProduct);
    GroupFirstSeen(data, ByRegion);
    SortIsStable(ValueDescending, productSales);
    SortIsStable(NameAscending, monthlySales);
    PermutationTallies(barData, productSales, data, ByProduct);
    PermutationTallies(lineData, monthlySales, data, ByMonth);
    forall e ensures InFirstSeenOrder(Ties(ValueDescending, barData, e), data, ByProduct) {
      TiesKeepOrder(ValueDescending, productSales, e, Keys(data, ByProduct));
    }
    stats := Some(Stats(totalRevenue, totalUnits, bestProduct, bestRegion, barData, lineData, pieData));
  }
}
