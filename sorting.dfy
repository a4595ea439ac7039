/**
 * `Array.prototype.sort` with a comparator, as the dashboard calls it: a stable sort.
 * Modelled as insertion sort, which keeps tied entries in their input order.
 */
module Sorting {
  import opened TextOrder
  import opened Series

  /**
   * The two comparators of Dashboard.tsx: `(a, b) => b.value - a.value` (largest value
   * first) and `(a, b) => a.name.localeCompare(b.name)` (names in ascending order).
   */
  datatype SortOrder = ValueDescending | NameAscending

  /** The comparator is negative: `a` must be placed before `b`. */
  predicate Precedes(o: SortOrder, a: Entry, b: Entry)
  {
    match o
    case ValueDescending => a.value > b.value
    case NameAscending => Less(a.name, b.name)
  }

  /** The comparator returns 0: neither entry has to come first. */
  predicate Tied(o: SortOrder, a: Entry, b: Entry)
  {
    !Precedes(o, a, b) && !Precedes(o, b, a)
  }

  /** Both comparators are strict weak orders. */
  lemma PrecedesIsStrictWeakOrder(o: SortOrder, a: Entry, b: Entry, c: Entry)
    ensures !Precedes(o, a, a)
    ensures Precedes(o, a, b) && Precedes(o, b, c) ==> Precedes(o, a, c)
    ensures Precedes(o, a, c) ==> Precedes(o, a, b) || Precedes(o, b, c)
  {
    if o.NameAscending? {
      LessIrreflexive(a.name);
      if Less(a.name, b.name) && Less(b.name, c.name) {
        LessTransitive(a.name, b.name, c.name);
      }
      if Less(a.name, c.name) && !Less(a.name, b.name) && !Less(b.name, c.name) {
        LessTotal(a.name, b.name);
        LessTotal(b.name, c.name);
        if b.name == c.name {
        } else {
          LessTransitive(c.name, b.name, a.name);
          LessIrreflexive(a.name);
          LessTransitive(a.name, c.name, a.name);
        }
      }
    }
  }

  /** No later entry has to come before an earlier one. */
  predicate Sorted(o: SortOrder, s: seq<Entry>)
  {
    forall i, j :: 0 <= i < j < |s| ==> !Precedes(o, s[j], s[i])
  }

  /** The entries of `s` tied with `e`, in their order in `s`. */
  function Ties(o: SortOrder, s: seq<Entry>, e: Entry): seq<Entry>
  {
    if |s| == 0 then []
    else (if Tied(o, s[0], e) then [s[0]] else []) + Ties(o, s[1..], e)
  }

  /** Places `x` in front of the first entry that does not have to precede it. */
  function Insert(o: SortOrder, x: Entry, t: seq<Entry>): seq<Entry>
  {
    if |t| == 0 || !Precedes(o, t[0], x) then [x] + t
    else [t[0]] + Insert(o, x, t[1..])
  }

  /** The stable sort of `s` under the comparator `o`. */
  function Sort(o: SortOrder, s: seq<Entry>): seq<Entry>
  {
    if |s| == 0 then [] else Insert(o, s[0], Sort(o, s[1..]))
  }

  /** Insertion adds `x` and loses nothing. */
  lemma {:induction false} InsertMultiset(o: SortOrder, x: Entry, t: seq<Entry>)
    ensures multiset(Insert(o, x, t)) == multiset(t) + multiset{x}
  {
    if |t| > 0 && Precedes(o, t[0], x) {
      InsertMultiset(o, x, t[1..]);
      assert t == [t[0]] + t[1..];
    }
  }

  lemma SortedCons(o: SortOrder, a: Entry, u: seq<Entry>)
    ensures Sorted(o, [a] + u) <==> (forall y :: y in u ==> !Precedes(o, y, a)) && Sorted(o, u)
  {
    var s := [a] + u;
    if (forall y :: y in u ==> !Precedes(o, y, a)) && Sorted(o, u) {
      forall i, j | 0 <= i < j < |s| ensures !Precedes(o, s[j], s[i]) {
        if i == 0 {
          assert s[j] == u[j - 1];
        } else {
          assert s[i] == u[i - 1] && s[j] == u[j - 1];
        }
      }
    }
    if Sorted(o, s) {
      forall y | y in u ensures !Precedes(o, y, a) {
        var k :| 0 <= k < |u| && u[k] == y;
        assert s[0] == a && s[k + 1] == y;
        assert !Precedes(o, s[k + 1], s[0]);
      }
      forall i, j | 0 <= i < j < |u| ensures !Precedes(o, u[j], u[i]) {
        assert s[i + 1] == u[i] && s[j + 1] == u[j];
      }
    }
  }

  lemma {:induction false} InsertSorted(o: SortOrder, x: Entry, t: seq<Entry>)
    requires Sorted(o, t)
    ensures Sorted(o, Insert(o, x, t))
  {
    if |t| == 0 || !Precedes(o, t[0], x) {
      if |t| > 0 {
        SortedCons(o, t[0], t[1..]);
        assert t == [t[0]] + t[1..];
        forall y | y in t ensures !Precedes(o, y, x) {
          PrecedesIsStrictWeakOrder(o, y, t[0], x);
        }
      }
      SortedCons(o, x, t);
    } else {
      assert t == [t[0]] + t[1..];
      SortedCons(o, t[0], t[1..]);
      InsertSorted(o, x, t[1..]);
      var u := Insert(o, x, t[1..]);
      InsertMultiset(o, x, t[1..]);
      forall y | y in u ensures !Precedes(o, y, t[0]) {
        assert y in multiset(u);
        if y == x {
          PrecedesIsStrictWeakOrder(o, t[0], x, t[0]);
        } else {
          assert y in t[1..];
        }
      }
      SortedCons(o, t[0], u);
    }
  }

  lemma TiesCons(o: SortOrder, a: Entry, u: seq<Entry>, e: Entry)
    ensures Ties(o, [a] + u, e) == (if Tied(o, a, e) then [a] else []) + Ties(o, u, e)
  {
    assert ([a] + u)[1..] == u;
  }

  /** An entry that has to precede one tied with `e` is not tied with `e` itself. */
  lemma PrecedingTiedIsNotTied(o: SortOrder, a: Entry, x: Entry, e: Entry)
    requires Precedes(o, a, x) && Tied(o, x, e)
    ensures !Tied(o, a, e)
  {
    PrecedesIsStrictWeakOrder(o, a, e, x);
  }

  /** Inserting `x` adds it to the ties of `e` in front of those already there. */
  lemma {:induction false} InsertTies(o: SortOrder, x: Entry, t: seq<Entry>, e: Entry)
    ensures Ties(o, Insert(o, x, t), e) == (if Tied(o, x, e) then [x] else []) + Ties(o, t, e)
  {
    if |t| == 0 || !Precedes(o, t[0], x) {
      TiesCons(o, x, t, e);
    } else {
      var rest := t[1..];
      var u := Insert(o, x, rest);
      InsertTies(o, x, rest, e);
      assert Insert(o, x, t) == [t[0]] + u;
      TiesCons(o, t[0], u, e);
      assert t == [t[0]] + rest;
      TiesCons(o, t[0], rest, e);
      if Tied(o, x, e) {
        PrecedingTiedIsNotTied(o, t[0], x, e);
        assert Ties(o, t, e) == Ties(o, rest, e);
        assert Ties(o, Insert(o, x, t), e) == Ties(o, u, e);
      }
    }
  }

  /** The sort loses and adds nothing. */
  lemma {:induction false} SortPermutes(o: SortOrder, s: seq<Entry>)
    ensures multiset(Sort(o, s)) == multiset(s)
  {
    if |s| > 0 {
      SortPermutes(o, s[1..]);
      InsertMultiset(o, s[0], Sort(o, s[1..]));
      assert s == [s[0]] + s[1..];
    }
  }

  /** No entry of the sorted sequence comes after one it has to precede. */
  lemma {:induction false} SortSorts(o: SortOrder, s: seq<Entry>)
    ensures Sorted(o, Sort(o, s))
  {
    if |s| > 0 {
      SortSorts(o, s[1..]);
      InsertSorted(o, s[0], Sort(o, s[1..]));
    }
  }

  /** Entries tied with `e` keep their input order. */
  lemma {:induction false} SortKeepsTies(o: SortOrder, s: seq<Entry>, e: Entry)
    ensures Ties(o, Sort(o, s), e) == Ties(o, s, e)
  {
    if |s| > 0 {
      SortKeepsTies(o, s[1..], e);
      InsertTies(o, s[0], Sort(o, s[1..]), e);
    }
  }

  /**
   * The sort is correct and stable: its result is a permutation of the input with no
   * entry after one it has to precede, and entries the comparator ties keep their input order.
   */
  lemma SortIsStable(o: SortOrder, s: seq<Entry>)
    ensures multiset(Sort(o, s)) == multiset(s)
    ensures Sorted(o, Sort(o, s))
    ensures forall e :: Ties(o, Sort(o, s), e) == Ties(o, s, e)
  {
    SortPermutes(o, s);
    SortSorts(o, s);
    forall e ensures Ties(o, Sort(o, s), e) == Ties(o, s, e) {
      SortKeepsTies(o, s, e);
    }
  }
}
