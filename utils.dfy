/**
 * src/lib/utils.ts: `buildDataSummary`, the digest sent along with every question, and
 * `cn`, the class-name joiner.
 */
module Utils {
  import opened Text
  import opened Numbers
  import opened Records
  import opened Series
  import opened Sequences

  /** The object `buildDataSummary` returns. */
  datatype DataSummary = DataSummary(totalRevenue: real, uniqueProducts: nat, uniqueRegions: nat, dataCount: nat)

  /** `buildDataSummary(data)`: the revenue sum, the numbers of distinct products and regions, and the record count. */
  function BuildDataSummary(data: seq<SalesData>): DataSummary
  {
    DataSummary(RevenueSum(data), |KeySet(data, ByProduct)|, |KeySet(data, ByRegion)|, |data|)
  }

  /** A sequence has at most as many distinct elements as it has elements, and at least one when it is not empty. */
  lemma {:induction false} DistinctCountBounds(s: seq<string>)
    ensures |set x | x in s| <= |s|
    ensures |s| > 0 ==> |set x | x in s| >= 1
  {
    if |s| > 0 {
      var p := s[..|s| - 1];
      DistinctCountBounds(p);
      assert (set x | x in s) == (set x | x in p) + {s[|s| - 1]} by {
        assert s == p + [s[|s| - 1]];
      }
    }
  }

  /** A sequence without repetitions has as many distinct elements as elements. */
  lemma {:induction false} DistinctCountExact(b: seq<Entry>)
    requires DistinctNames(b)
    ensures |set n | n in Names(b)| == |b|
  {
    if |b| > 0 {
      DistinctCountExact(b[1..]);
      assert Names(b) == [b[0].name] + Names(b[1..]);
      assert b[0].name !in Names(b[1..]);
      assert (set n | n in Names(b)) == {b[0].name} + (set n | n in Names(b[1..]));
    }
  }

  /**
   * The digest's counts lie between 1 and the record count for non-empty data, and every
   * field is 0 for empty data.
   */
  lemma SummaryBounds(data: seq<SalesData>)
    ensures BuildDataSummary(data).dataCount == |data|
    ensures BuildDataSummary(data).uniqueProducts <= |data|
    ensures BuildDataSummary(data).uniqueRegions <= |data|
    ensures |data| > 0 ==> BuildDataSummary(data).uniqueProducts >= 1 && BuildDataSummary(data).uniqueRegions >= 1
    ensures |data| == 0 ==> BuildDataSummary(data) == DataSummary(0.0, 0, 0, 0)
  {
    DistinctCountBounds(Keys(data, ByProduct));
    DistinctCountBounds(Keys(data, ByRegion));
    if |data| == 0 {
      assert Keys(data, ByProduct) == [] && Keys(data, ByRegion) == [];
    }
  }

  /**
   * The digest agrees with the dashboard: one distinct product per product bucket, one
   * distinct region per region bucket, and the same revenue total as the buckets add up to.
   */
  lemma SummaryAgreesWithBuckets(data: seq<SalesData>)
    ensures BuildDataSummary(data).uniqueProducts == |Group(data, ByProduct)|
    ensures BuildDataSummary(data).uniqueRegions == |Group(data, ByRegion)|
    ensures BuildDataSummary(data).totalRevenue == SumValues(Group(data, ByRegion))
  {
    GroupTallies(data, ByProduct);
    GroupTallies(data, ByRegion);
    DistinctCountExact(Group(data, ByProduct));
    DistinctCountExact(Group(data, ByRegion));
    assert (set n | n in Names(Group(data, ByProduct))) == KeySet(data, ByProduct);
    assert (set n | n in Names(Group(data, ByRegion))) == KeySet(data, ByRegion);
  }

  /** One argument of `cn(...)`: `string | boolean | undefined | null | number` (integers only). */
  datatype ClassValue = Text(s: string) | Flag(b: bool) | Number(n: int) | Undefined | Null

  /** `Boolean(v)` */
  predicate Truthy(v: ClassValue)
  {
    match v
    case Text(s) => s != ""
    case Flag(b) => b
    case Number(n) => n != 0
    case Undefined => false
    case Null => false
  }

  /** How `join` writes one element. */
  function Render(v: ClassValue): string
  {
    match v
    case Text(s) => s
    case Flag(b) => if b then "true" else "false"
    case Number(n) => IntText(n)
    case Undefined => ""
    case Null => ""
  }

  /** A truthy argument is written as non-empty text. */
  lemma TruthyRendersNonEmpty(v: ClassValue)
    requires Truthy(v)
    ensures Render(v) != ""
  {
  }

  /** The texts of the arguments `inputs.filter(Boolean)` keeps. */
  function KeptClasses(inputs: seq<ClassValue>): seq<string>
  {
    var kept := Filter(Truthy, inputs);
    seq(|kept|, k requires 0 <= k < |kept| => Render(kept[k]))
  }

  /** `cn(...inputs)`: the kept texts joined by single spaces. */
  function Cn(inputs: seq<ClassValue>): string
  {
    Join(KeptClasses(inputs), ' ')
  }

  /** `cn` returns "" exactly when no argument is truthy. */
  lemma CnEmptyIffNothingTruthy(inputs: seq<ClassValue>)
    ensures Cn(inputs) == "" <==> forall k :: 0 <= k < |inputs| ==> !Truthy(inputs[k])
  {
    var idx := CnKeepsTruthyInOrder(inputs);
    if k :| 0 <= k < |inputs| && Truthy(inputs[k]) {
      assert k in idx;
      var j :| 0 <= j < |idx| && idx[j] == k;
      assert |KeptClasses(inputs)| > 0;
      TruthyRendersNonEmpty(inputs[idx[0]]);
      JoinStartsWithFirst(KeptClasses(inputs), ' ');
    }
  }

  lemma JoinStartsWithFirst(xs: seq<string>, sep: char)
    requires |xs| > 0
    ensures |Join(xs, sep)| >= |xs[0]|
  {
  }

  /**
   * `cn` keeps exactly the truthy arguments, in their order: an increasing list of exactly
   * the truthy positions reads off the kept texts.
   */
  lemma CnKeepsTruthyInOrder(inputs: seq<ClassValue>) returns (idx: seq<nat>)
    ensures IncreasingIndices(idx, |inputs|)
    ensures |KeptClasses(inputs)| == |idx|
    ensures forall j :: 0 <= j < |idx| ==> KeptClasses(inputs)[j] == Render(inputs[idx[j]])
    ensures forall i :: 0 <= i < |inputs| ==> (Truthy(inputs[i]) <==> i in idx)
  {
    idx := FilterKeepsExactlyInOrder(Truthy, inputs);
  }

  /** Splitting the result on spaces gives the kept texts back when none of them holds a space. */
  lemma CnSplitsBack(inputs: seq<ClassValue>)
    requires exists k :: 0 <= k < |inputs| && Truthy(inputs[k])
    requires forall k :: 0 <= k < |KeptClasses(inputs)| ==> ' ' !in KeptClasses(inputs)[k]
    ensures Split(Cn(inputs), ' ') == KeptClasses(inputs)
  {
    var idx := CnKeepsTruthyInOrder(inputs);
    var k :| 0 <= k < |inputs| && Truthy(inputs[k]);
    assert k in idx;
    SplitJoin(KeptClasses(inputs), ' ');
  }
}
