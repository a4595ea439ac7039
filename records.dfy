/**
 * The sales record (`SalesData` in src/types/dashboard.ts) and the quantities every
 * consumer derives from a sequence of them: the two running sums and the grouping keys.
 */
module Records {

  /** One transaction line; `unitsSold` is the `units_sold` column. */
  datatype SalesData = SalesData(
    id: string,
    date: string,
    product: string,
    region: string,
    revenue: real,
    unitsSold: real,
    category: string)

  /** `data.reduce((sum, item) => sum + item.revenue, 0)`, folded from the left. */
  function RevenueSum(data: seq<SalesData>): real
  {
    if |data| == 0 then 0.0 else RevenueSum(data[..|data| - 1]) + data[|data| - 1].revenue
  }

  /** `data.reduce((sum, item) => sum + item.units_sold, 0)`, folded from the left. */
  function UnitsSum(data: seq<SalesData>): real
  {
    if |data| == 0 then 0.0 else UnitsSum(data[..|data| - 1]) + data[|data| - 1].unitsSold
  }

  /** The three ways the dashboard buckets revenue. */
  datatype Grouping = ByProduct | ByRegion | ByMonth

  /** `date.substring(0, 7)`: the `YYYY-MM` part of a `YYYY-MM-DD` date, or all of a shorter one. */
  function MonthOf(date: string): (m: string)
    ensures |m| == if |date| < 7 then |date| else 7
    ensures m == date[..|m|]
  {
    if |date| < 7 then date else date[..7]
  }

  function KeyOf(g: Grouping, item: SalesData): string
  {
    match g
    case ByProduct => item.product
    case ByRegion => item.region
    case ByMonth => MonthOf(item.date)
  }

  /** The grouping key of every record, in input order. */
  function Keys(data: seq<SalesData>, g: Grouping): (ks: seq<string>)
    ensures |ks| == |data|
    ensures forall i :: 0 <= i < |data| ==> ks[i] == KeyOf(g, data[i])
  {
    if |data| == 0 then [] else Keys(data[..|data| - 1], g) + [KeyOf(g, data[|data| - 1])]
  }

  /** The distinct grouping keys (`new Set(data.map(...))`). */
  function KeySet(data: seq<SalesData>, g: Grouping): set<string>
  {
    set k | k in Keys(data, g)
  }

  /** Summed revenue of the records whose key is `key`. */
  function RevenueWhere(data: seq<SalesData>, g: Grouping, key: string): real
  {
    if |data| == 0 then 0.0
    else
      var last := data[|data| - 1];
      RevenueWhere(data[..|data| - 1], g, key) + (if KeyOf(g, last) == key then last.revenue else 0.0)
  }

  /** Index of the first occurrence of `x` in `s`. */
  function FirstIndex(s: seq<string>, x: string): (i: nat)
    requires x in s
    ensures i < |s| && s[i] == x
    ensures forall j :: 0 <= j < i ==> s[j] != x
  {
    if s[0] == x then 0 else 1 + FirstIndex(s[1..], x)
  }

  /** Appending an element does not move the first occurrence of anything already present. */
  lemma FirstIndexAppend(s: seq<string>, y: string, x: string)
    requires x in s
    ensures FirstIndex(s + [y], x) == FirstIndex(s, x)
  {
    var i := FirstIndex(s, x);
    var j := FirstIndex(s + [y], x);
    assert (s + [y])[i] == x;
    assert s[j] == x;
  }
}
