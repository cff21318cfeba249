/**
 * The ordering step of the report: `sorted(coverages, key=eff)`, a stable sort
 * on the start day. It is modelled as an insertion sort and proved to be the
 * stable sort by `eff`: ordered, a permutation, and keeping the input order
 * among intervals that start on the same day.
 */
module StableSort {
  import opened Coverage

  predicate SortedByEff(s: seq<Cov>)
  {
    forall i, j :: 0 <= i < j < |s| ==> s[i].eff <= s[j].eff
  }

  /** The intervals of `s` that start on day `k`, in their order in `s`. */
  function StartingOn(s: seq<Cov>, k: int): seq<Cov>
  {
    if s == [] then []
    else (if s[0].eff == k then [s[0]] else []) + StartingOn(s[1..], k)
  }

  /** Puts `c` in front of the first element of `s` that starts no earlier than it. */
  function Insert(c: Cov, s: seq<Cov>): seq<Cov>
  {
    if s == [] || c.eff <= s[0].eff then [c] + s
    else [s[0]] + Insert(c, s[1..])
  }

  function SortByEff(s: seq<Cov>): seq<Cov>
  {
    if s == [] then [] else Insert(s[0], SortByEff(s[1..]))
  }

  lemma {:induction false} InsertPermutes(c: Cov, s: seq<Cov>)
    ensures multiset(Insert(c, s)) == multiset(s) + multiset{c}
  {
    if s == [] || c.eff <= s[0].eff {
    } else {
      InsertPermutes(c, s[1..]);
      assert s == [s[0]] + s[1..];
    }
  }

  lemma {:induction false} InsertSorted(c: Cov, s: seq<Cov>)
    requires SortedByEff(s)
    ensures SortedByEff(Insert(c, s))
  {
    if s == [] || c.eff <= s[0].eff {
    } else {
      var rest := Insert(c, s[1..]);
      InsertSorted(c, s[1..]);
      InsertPermutes(c, s[1..]);
      forall j | 0 <= j < |rest|
        ensures s[0].eff <= rest[j].eff
      {
        assert rest[j] in multiset(rest);
        if rest[j] != c {
          assert rest[j] in s[1..];
        }
      }
    }
  }

  lemma {:induction false} InsertStable(c: Cov, s: seq<Cov>, k: int)
    ensures StartingOn(Insert(c, s), k) == (if c.eff == k then [c] else []) + StartingOn(s, k)
  {
    var own := if c.eff == k then [c] else [];
    if s == [] || c.eff <= s[0].eff {
      assert Insert(c, s) == [c] + s;
      assert ([c] + s)[1..] == s;
    } else {
      var rest := Insert(c, s[1..]);
      var first := if s[0].eff == k then [s[0]] else [];
      assert Insert(c, s) == [s[0]] + rest;
      assert ([s[0]] + rest)[1..] == rest;
      InsertStable(c, s[1..], k);
      assert StartingOn(Insert(c, s), k) == first + (own + StartingOn(s[1..], k));
      assert StartingOn(s, k) == first + StartingOn(s[1..], k);
      assert first == [] || own == [];
    }
  }

  /** The sort puts the intervals in ascending order of start day. */
  lemma {:induction false} SortByEffSorted(s: seq<Cov>)
    ensures SortedByEff(SortByEff(s))
  {
    if s != [] {
      SortByEffSorted(s[1..]);
      InsertSorted(s[0], SortByEff(s[1..]));
    }
  }

  /** The sort neither loses nor duplicates an interval. */
  lemma {:induction false} SortByEffPermutes(s: seq<Cov>)
    ensures multiset(SortByEff(s)) == multiset(s)
  {
    if s != [] {
      SortByEffPermutes(s[1..]);
      InsertPermutes(s[0], SortByEff(s[1..]));
      assert s == [s[0]] + s[1..];
    }
  }

  /** The sort is stable: intervals starting on the same day keep their input order. */
  lemma {:induction false} SortByEffStable(s: seq<Cov>, k: int)
    ensures StartingOn(SortByEff(s), k) == StartingOn(s, k)
  {
    if s != [] {
      SortByEffStable(s[1..], k);
      InsertStable(s[0], SortByEff(s[1..]), k);
    }
  }

  /** Sorting keeps every interval well formed. */
  lemma SortByEffWellFormed(s: seq<Cov>)
    requires AllWellFormed(s)
    ensures AllWellFormed(SortByEff(s))
  {
    var r := SortByEff(s);
    SortByEffPermutes(s);
    forall i | 0 <= i < |r|
      ensures WellFormed(r[i])
    {
      assert r[i] in multiset(s);
    }
  }

  lemma {:induction false} StartingOnMembers(s: seq<Cov>, k: int, x: Cov)
    ensures x in StartingOn(s, k) <==> x in s && x.eff == k
  {
    if s != [] {
      StartingOnMembers(s[1..], k, x);
      assert s == [s[0]] + s[1..];
    }
  }

  /**
   * A sorted sequence that keeps, day by day, the order of `s` among the
   * intervals starting that day is the result of the sort: the stable sort
   * by `eff` is unique, and `SortByEff` is it.
   */
  lemma {:induction false} StableSortIsUnique(s: seq<Cov>, r: seq<Cov>)
    requires SortedByEff(r)
    requires forall k :: StartingOn(r, k) == StartingOn(s, k)
    ensures r == SortByEff(s)
  {
    SortByEffSorted(s);
    forall k
      ensures StartingOn(r, k) == StartingOn(SortByEff(s), k)
    {
      SortByEffStable(s, k);
    }
    SortedDeterminedByDays(r, SortByEff(s));
  }

  lemma {:induction false} SortedDeterminedByDays(a: seq<Cov>, b: seq<Cov>)
    requires SortedByEff(a) && SortedByEff(b)
    requires forall k :: StartingOn(a, k) == StartingOn(b, k)
    ensures a == b
    decreases |a|
  {
    if a != [] {
      StartingOnMembers(a, a[0].eff, a[0]);
      StartingOnMembers(b, a[0].eff, a[0]);
    }
    if b != [] {
      StartingOnMembers(b, b[0].eff, b[0]);
      StartingOnMembers(a, b[0].eff, b[0]);
    }
    if a != [] {
      assert b[0].eff <= a[0].eff;
      assert a[0].eff <= b[0].eff;
      assert StartingOn(a, a[0].eff)[0] == a[0];
      assert StartingOn(b, a[0].eff)[0] == b[0];
      assert a[0] == b[0];
      forall k
        ensures StartingOn(a[1..], k) == StartingOn(b[1..], k)
      {
        var head := if a[0].eff == k then [a[0]] else [];
        assert StartingOn(a, k) == head + StartingOn(a[1..], k);
        assert StartingOn(b, k) == head + StartingOn(b[1..], k);
        assert StartingOn(a[1..], k) == StartingOn(a, k)[|head|..];
      }
      SortedDeterminedByDays(a[1..], b[1..]);
      assert a == [a[0]] + a[1..] && b == [b[0]] + b[1..];
    }
  }
}
