/**
 * Revenue buckets: the `Record<string, number>` dictionaries of Dashboard.tsx, modelled as
 * insertion-ordered association lists of `{name, value}` entries (`Object.entries` order),
 * and what grouping a record sequence into them yields.
 */
module Series {
  import opened Records

  /** One `{ name, value }` chart point; also one dictionary entry `[name, value]`. */
  datatype Entry = Entry(name: string, value: real)

  function Names(b: seq<Entry>): (ns: seq<string>)
    ensures |ns| == |b|
    ensures forall i :: 0 <= i < |b| ==> ns[i] == b[i].name
  {
    if |b| == 0 then [] else [b[0].name] + Names(b[1..])
  }

  predicate DistinctNames(b: seq<Entry>)
  {
    forall i, j :: 0 <= i < j < |b| ==> b[i].name != b[j].name
  }

  function SumValues(b: seq<Entry>): real
  {
    if |b| == 0 then 0.0 else b[0].value + SumValues(b[1..])
  }

  /** The value stored under `n`, and 0 for a name that is not stored (`dict[n] || 0`). */
  function ValueOf(b: seq<Entry>, n: string): real
  {
    if |b| == 0 then 0.0 else if b[0].name == n then b[0].value else ValueOf(b[1..], n)
  }

  /**
   * `dict[key] = (dict[key] || 0) + amount`: an existing entry is updated where it stands,
   * a new key is appended at the end.
   */
  function Add(b: seq<Entry>, key: string, amount: real): (r: seq<Entry>)
    ensures key in Names(b) ==> Names(r) == Names(b)
    ensures key !in Names(b) ==> Names(r) == Names(b) + [key]
    ensures forall n :: ValueOf(r, n) == ValueOf(b, n) + (if n == key then amount else 0.0)
    ensures SumValues(r) == SumValues(b) + amount
    ensures DistinctNames(b) ==> DistinctNames(r)
  {
    if |b| == 0 then [Entry(key, amount)]
    else if b[0].name == key then [Entry(key, b[0].value + amount)] + b[1..]
    else
      var r := [b[0]] + Add(b[1..], key, amount);
      assert Names(r) == [b[0].name] + Names(Add(b[1..], key, amount));
      r
  }

  /** The dictionary built by feeding every record's revenue, in input order, under its key. */
  function Group(data: seq<SalesData>, g: Grouping): seq<Entry>
  {
    if |data| == 0 then []
    else
      var last := data[|data| - 1];
      Add(Group(data[..|data| - 1], g), KeyOf(g, last), last.revenue)
  }

  /**
   * What a series of revenue buckets must be for `data`: one entry per distinct key,
   * each carrying the summed revenue of that key's records, the whole adding up to the
   * total revenue.
   */
  ghost predicate Tallies(b: seq<Entry>, data: seq<SalesData>, g: Grouping)
  {
    && DistinctNames(b)
    && (forall n :: n in Names(b) <==> n in Keys(data, g))
    && (forall e :: e in b ==> e.value == RevenueWhere(data, g, e.name))
    && SumValues(b) == RevenueSum(data)
  }

  /** `a` and `b` both occur in `ks`, and `a` occurs first. */
  predicate SeenBefore(ks: seq<string>, a: string, b: string)
  {
    a in ks && b in ks && FirstIndex(ks, a) < FirstIndex(ks, b)
  }

  /** The entries' names appear in the order of their first occurrences in `ks`. */
  predicate OrderedBy(ks: seq<string>, b: seq<Entry>)
  {
    forall i, j :: 0 <= i < j < |b| ==> SeenBefore(ks, b[i].name, b[j].name)
  }

  /** The entries appear in the order in which their keys are first seen in `data`. */
  predicate InFirstSeenOrder(b: seq<Entry>, data: seq<SalesData>, g: Grouping)
  {
    OrderedBy(Keys(data, g), b)
  }

  /** With distinct names, the value stored under an entry's name is that entry's value. */
  lemma {:induction false} ValueOfEntry(b: seq<Entry>, e: Entry)
    requires DistinctNames(b) && e in b
    ensures ValueOf(b, e.name) == e.value
  {
    if b[0] != e {
      assert b[0].name != e.name by {
        var k :| 0 <= k < |b| && b[k] == e;
      }
      ValueOfEntry(b[1..], e);
    }
  }

  /** Every key's bucket holds the summed revenue of that key's records (0 for an absent key). */
  lemma {:induction false} GroupValues(data: seq<SalesData>, g: Grouping)
    ensures forall n :: ValueOf(Group(data, g), n) == RevenueWhere(data, g, n)
  {
    if |data| > 0 {
      GroupValues(data[..|data| - 1], g);
    }
  }

  /** Grouping yields one bucket per distinct key and nothing else. */
  lemma {:induction false} GroupNames(data: seq<SalesData>, g: Grouping)
    ensures DistinctNames(Group(data, g))
    ensures forall n :: n in Names(Group(data, g)) <==> n in Keys(data, g)
  {
    if |data| > 0 {
      GroupNames(data[..|data| - 1], g);
    }
  }

  /** The buckets add up to the total revenue. */
  lemma {:induction false} GroupSum(data: seq<SalesData>, g: Grouping)
    ensures SumValues(Group(data, g)) == RevenueSum(data)
  {
    if |data| > 0 {
      GroupSum(data[..|data| - 1], g);
    }
  }

  /** The buckets are exactly the per-key revenue totals of `data`. */
  lemma GroupTallies(data: seq<SalesData>, g: Grouping)
    ensures Tallies(Group(data, g), data, g)
  {
    var b := Group(data, g);
    GroupNames(data, g);
    GroupValues(data, g);
    GroupSum(data, g);
    forall e | e in b
      ensures e.value == RevenueWhere(data, g, e.name)
    {
      ValueOfEntry(b, e);
    }
  }

  /** Adding under `k` keeps the buckets in the order of `ksp` extended by `k`. */
  lemma AddKeepsOrder(bp: seq<Entry>, ksp: seq<string>, k: string, amount: real)
    requires OrderedBy(ksp, bp)
    requires forall n :: n in Names(bp) <==> n in ksp
    ensures OrderedBy(ksp + [k], Add(bp, k, amount))
  {
    var b := Add(bp, k, amount);
    var ks := ksp + [k];
    forall i, j | 0 <= i < j < |b|
      ensures SeenBefore(ks, b[i].name, b[j].name)
    {
      assert Names(b)[i] == b[i].name && Names(b)[j] == b[j].name;
      assert Names(bp)[i] == b[i].name;
      assert b[i].name in ksp;
      FirstIndexAppend(ksp, k, b[i].name);
      if j < |bp| {
        assert Names(bp)[j] == b[j].name;
        FirstIndexAppend(ksp, k, b[j].name);
      } else {
        assert k !in ksp && b[j].name == k;
        assert FirstIndex(ks, k) == |ksp|;
      }
    }
  }

  /** Buckets keep first-seen order: a key appears before every key first seen after it. */
  lemma {:induction false} GroupFirstSeen(data: seq<SalesData>, g: Grouping)
    ensures InFirstSeenOrder(Group(data, g), data, g)
  {
    if |data| > 0 {
      var p := data[..|data| - 1];
      var last := data[|data| - 1];
      GroupFirstSeen(p, g);
      GroupNames(p, g);
      assert Keys(data, g) == Keys(p, g) + [KeyOf(g, last)];
      AddKeepsOrder(Group(p, g), Keys(p, g), KeyOf(g, last), last.revenue);
    }
  }

  /** Removing the entry at `i` takes its value out of the sum. */
  lemma {:induction false} SumValuesRemove(b: seq<Entry>, i: nat)
    requires i < |b|
    ensures SumValues(b) == b[i].value + SumValues(b[..i] + b[i + 1..])
  {
    if i > 0 {
      SumValuesRemove(b[1..], i - 1);
      assert b[1..][..i - 1] + b[1..][i..] == (b[..i] + b[i + 1..])[1..];
    } else {
      assert b[..i] + b[i + 1..] == b[1..];
    }
  }

  /** Taking out the entry at `i` takes one copy of it out of the multiset. */
  lemma RemoveAtMultiset(b: seq<Entry>, i: nat)
    requires i < |b|
    ensures multiset(b[..i] + b[i + 1..]) == multiset(b) - multiset{b[i]}
  {
    assert b == b[..i] + [b[i]] + b[i + 1..];
    assert multiset(b) == multiset(b[..i]) + multiset{b[i]} + multiset(b[i + 1..]);
  }

  /** Taking out the entry at `i` keeps names distinct, and no remaining entry shares its name. */
  lemma RemoveAtDistinct(b: seq<Entry>, i: nat)
    requires i < |b| && DistinctNames(b)
    ensures DistinctNames(b[..i] + b[i + 1..])
    ensures forall e :: e in b[..i] + b[i + 1..] ==> e.name != b[i].name
  {
    var rest := b[..i] + b[i + 1..];
    forall p | 0 <= p < |rest|
      ensures rest[p] == b[if p < i then p else p + 1]
    {
    }
  }

  /** A permutation of a series has the same sum. */
  lemma {:induction false} PermutationSum(r: seq<Entry>, b: seq<Entry>)
    requires multiset(r) == multiset(b)
    ensures SumValues(r) == SumValues(b)
  {
    if |r| > 0 {
      assert r[0] in multiset(b);
      var i :| 0 <= i < |b| && b[i] == r[0];
      RemoveAtMultiset(b, i);
      assert r == [r[0]] + r[1..];
      assert multiset(r[1..]) == multiset(r) - multiset{r[0]};
      PermutationSum(r[1..], b[..i] + b[i + 1..]);
      SumValuesRemove(b, i);
    } else {
      assert b == [] by { assert |multiset(b)| == 0; }
    }
  }

  /** A permutation of a series with distinct names has distinct names. */
  lemma {:induction false} PermutationDistinct(r: seq<Entry>, b: seq<Entry>)
    requires multiset(r) == multiset(b) && DistinctNames(b)
    ensures DistinctNames(r)
  {
    if |r| > 0 {
      assert r[0] in multiset(b);
      var i :| 0 <= i < |b| && b[i] == r[0];
      var rest := b[..i] + b[i + 1..];
      RemoveAtMultiset(b, i);
      assert r == [r[0]] + r[1..];
      assert multiset(r[1..]) == multiset(r) - multiset{r[0]};
      RemoveAtDistinct(b, i);
      PermutationDistinct(r[1..], rest);
      forall q | 0 < q < |r| ensures r[0].name != r[q].name {
        assert r[q] in multiset(r[1..]);
        assert r[q] in rest;
      }
    }
  }

  /** A permutation of a series has the same entries, the same sum, and keeps names distinct. */
  lemma PermutationKeepsSeries(r: seq<Entry>, b: seq<Entry>)
    requires multiset(r) == multiset(b)
    ensures forall e :: e in r <==> e in b
    ensures SumValues(r) == SumValues(b)
    ensures DistinctNames(b) ==> DistinctNames(r)
  {
    assert forall e :: e in r <==> e in multiset(r);
    assert forall e :: e in b <==> e in multiset(b);
    PermutationSum(r, b);
    if DistinctNames(b) {
      PermutationDistinct(r, b);
    }
  }

  /** Any permutation of the buckets of `data` is again a tally of `data`. */
  lemma PermutationTallies(r: seq<Entry>, b: seq<Entry>, data: seq<SalesData>, g: Grouping)
    requires multiset(r) == multiset(b) && Tallies(b, data, g)
    ensures Tallies(r, data, g)
  {
    PermutationKeepsSeries(r, b);
    forall n ensures n in Names(r) <==> n in Names(b) {
      if n in Names(r) {
        var i :| 0 <= i < |r| && Names(r)[i] == n;
        assert r[i] in b;
        var j :| 0 <= j < |b| && b[j] == r[i];
        assert Names(b)[j] == n;
      }
      if n in Names(b) {
        var j :| 0 <= j < |b| && Names(b)[j] == n;
        assert b[j] in r;
        var i :| 0 <= i < |r| && r[i] == b[j];
        assert Names(r)[i] == n;
      }
    }
  }
}
