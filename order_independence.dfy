/**
 * The periods the report finds depend only on which intervals it is given,
 * not on the order they are listed in: ascending, separated extents are
 * fixed by the days they cover, and the sorted sweep covers exactly the
 * input's days.
 */
module OrderIndependence {
  import opened Coverage
  import opened StableSort
  import opened Sweep
  import opened Ranking

  /** Nothing ascending covers a day before its first interval starts. */
  lemma FirstStartIsEarliest(a: seq<Cov>, d: int)
    requires AllWellFormed(a) && Ascending(a)
    requires Covered(a, d)
    ensures a[0].eff <= d
  {
    var k :| 0 <= k < |a| && Contains(a[k], d);
    if k > 0 {
      assert WellFormed(a[0]);
    }
  }

  /** The day after the first interval ends is not covered. */
  lemma FirstEndIsFollowedByGap(a: seq<Cov>)
    requires AllWellFormed(a) && Ascending(a)
    requires a != []
    ensures !Covered(a, a[0].term + 1)
  {
    forall k | 0 <= k < |a|
      ensures !Contains(a[k], a[0].term + 1)
    {
    }
  }

  /** Dropping the first interval of an ascending sequence drops exactly its days. */
  lemma CoveredTail(a: seq<Cov>, d: int)
    requires AllWellFormed(a) && Ascending(a)
    requires a != []
    ensures Covered(a[1..], d) <==> Covered(a, d) && !Contains(a[0], d)
  {
    var tail := a[1..];
    if Covered(tail, d) {
      var k :| 0 <= k < |tail| && Contains(tail[k], d);
      assert a[k + 1] == tail[k];
      assert Contains(a[k + 1], d);
    }
    if Covered(a, d) && !Contains(a[0], d) {
      var k :| 0 <= k < |a| && Contains(a[k], d);
      assert Contains(tail[k - 1], d);
    }
  }

  /** Ascending, separated intervals are determined by the set of days they cover. */
  lemma {:induction false} SpansDeterminedByDays(a: seq<Cov>, b: seq<Cov>)
    requires AllWellFormed(a) && Ascending(a)
    requires AllWellFormed(b) && Ascending(b)
    requires forall d :: Covered(a, d) <==> Covered(b, d)
    ensures a == b
    decreases |a|
  {
    if a != [] {
      assert Contains(a[0], a[0].eff);
      assert Covered(a, a[0].eff);
    }
    if b != [] {
      assert Contains(b[0], b[0].eff);
      assert Covered(b, b[0].eff);
    }
    if a != [] {
      FirstStartIsEarliest(a, b[0].eff);
      FirstStartIsEarliest(b, a[0].eff);
      FirstEndIsFollowedByGap(a);
      FirstEndIsFollowedByGap(b);
      if a[0].term < b[0].term {
        assert false;
      }
      if b[0].term < a[0].term {
        assert false;
      }
      assert a[0] == b[0];
      forall d
        ensures Covered(a[1..], d) <==> Covered(b[1..], d)
      {
        CoveredTail(a, d);
        CoveredTail(b, d);
      }
      assert AllWellFormed(a[1..]) && AllWellFormed(b[1..]);
      assert Ascending(a[1..]) by {
        forall i, j | 0 <= i < j < |a| - 1
          ensures a[1..][i].term + 1 < a[1..][j].eff
        {
          assert a[1..][i] == a[i + 1] && a[1..][j] == a[j + 1];
        }
      }
      assert Ascending(b[1..]) by {
        forall i, j | 0 <= i < j < |b| - 1
          ensures b[1..][i].term + 1 < b[1..][j].eff
        {
          assert b[1..][i] == b[i + 1] && b[1..][j] == b[j + 1];
        }
      }
      SpansDeterminedByDays(a[1..], b[1..]);
      assert a == [a[0]] + a[1..] && b == [b[0]] + b[1..];
    }
  }

  /** The extents the sorted sweep produces: well formed, ascending, covering exactly the input's days. */
  lemma SweepSpans(xs: seq<Cov>)
    requires AllWellFormed(xs)
    ensures var spans := Spans(Periods(SortByEff(xs)));
            && AllWellFormed(spans)
            && Ascending(spans)
            && forall d :: Covered(spans, d) <==> Covered(xs, d)
  {
    var sorted := SortByEff(xs);
    SortByEffSorted(xs);
    SortByEffPermutes(xs);
    SortByEffWellFormed(xs);
    var ps := Periods(sorted);
    PeriodsWellShaped(sorted);
    PeriodsSeparated(sorted);
    var spans := Spans(ps);
    assert AllWellFormed(spans) by {
      forall k | 0 <= k < |spans|
        ensures WellFormed(spans[k])
      {
        assert PeriodShape(ps[k]);
      }
    }
    SeparatedAscending(spans);
    forall d
      ensures Covered(spans, d) <==> Covered(xs, d)
    {
      PeriodsCoverSameDays(sorted, d);
      CoveredByMultiset(sorted, xs, d);
    }
  }

  /** An interval starting outside a period's extent is not among its members. */
  lemma NotMemberOutside(p: Period, c: Cov)
    requires StartsInside(p)
    requires !Contains(p.span, c.eff)
    ensures multiset(p.members)[c] == 0
  {
  }

  /**
   * With ascending extents and every member starting inside its period, a
   * period holds every copy of each interval that starts inside it, and no
   * other interval.
   */
  lemma {:induction false} MemberCounts(ps: seq<Period>, c: Cov)
    requires Ascending(Spans(ps))
    requires forall k :: 0 <= k < |ps| ==> StartsInside(ps[k])
    ensures forall k :: 0 <= k < |ps| ==>
              multiset(ps[k].members)[c] == if Contains(ps[k].span, c.eff) then multiset(Members(ps))[c] else 0
    ensures (forall k :: 0 <= k < |ps| ==> !Contains(ps[k].span, c.eff)) ==> multiset(Members(ps))[c] == 0
  {
    if ps != [] {
      var n := |ps|;
      var init, last := ps[..n - 1], ps[n - 1];
      assert Ascending(Spans(init)) by {
        forall i, j | 0 <= i < j < |init|
          ensures Spans(init)[i].term + 1 < Spans(init)[j].eff
        {
          assert Spans(init)[i] == Spans(ps)[i] && Spans(init)[j] == Spans(ps)[j];
        }
      }
      MemberCounts(init, c);
      assert multiset(Members(ps)) == multiset(Members(init)) + multiset(last.members);
      if !Contains(last.span, c.eff) {
        NotMemberOutside(last, c);
      }
      forall k | 0 <= k < n - 1 && Contains(ps[k].span, c.eff)
        ensures !Contains(last.span, c.eff)
      {
        assert Spans(ps)[k].term + 1 < Spans(ps)[n - 1].eff;
      }
      if Contains(last.span, c.eff) {
        forall k | 0 <= k < n - 1
          ensures !Contains(init[k].span, c.eff)
        {
          assert Spans(ps)[k].term + 1 < Spans(ps)[n - 1].eff;
        }
      }
      forall k | 0 <= k < n - 1
        ensures ps[k] == init[k]
      {
      }
    }
  }

  /**
   * Each period of the sorted sweep holds exactly the input intervals that
   * start inside its extent, as many times as the input lists them.
   */
  lemma MembersByStart(s: seq<Cov>, c: Cov)
    requires SortedByEff(s) && AllWellFormed(s)
    ensures var ps := Periods(s);
            forall k :: 0 <= k < |ps| ==>
              multiset(ps[k].members)[c] == if Contains(ps[k].span, c.eff) then multiset(s)[c] else 0
  {
    var ps := Periods(s);
    PeriodsPartition(s);
    PeriodsWellShaped(s);
    PeriodsSeparated(s);
    PeriodsStartInside(s);
    assert AllWellFormed(Spans(ps)) by {
      forall k | 0 <= k < |ps|
        ensures WellFormed(Spans(ps)[k])
      {
        assert PeriodShape(ps[k]);
      }
    }
    SeparatedAscending(Spans(ps));
    MemberCounts(ps, c);
  }

  lemma WellFormedByMultiset(xs: seq<Cov>, ys: seq<Cov>)
    requires AllWellFormed(xs) && multiset(xs) == multiset(ys)
    ensures AllWellFormed(ys)
  {
    forall i | 0 <= i < |ys|
      ensures WellFormed(ys[i])
    {
      assert ys[i] in multiset(xs);
    }
  }

  /** Two listings of the same intervals give the same period extents. */
  lemma SweepSameSpans(xs: seq<Cov>, ys: seq<Cov>)
    requires AllWellFormed(xs) && multiset(xs) == multiset(ys)
    ensures Spans(Periods(SortByEff(xs))) == Spans(Periods(SortByEff(ys)))
  {
    WellFormedByMultiset(xs, ys);
    SweepSpans(xs);
    SweepSpans(ys);
    var px, py := Periods(SortByEff(xs)), Periods(SortByEff(ys));
    forall d
      ensures Covered(Spans(px), d) <==> Covered(Spans(py), d)
    {
      CoveredByMultiset(xs, ys, d);
    }
    SpansDeterminedByDays(Spans(px), Spans(py));
  }

  /** Periods with the same extent, from two listings of the same intervals, hold the same intervals. */
  lemma SweepSameMembers(xs: seq<Cov>, ys: seq<Cov>, k: int)
    requires AllWellFormed(xs) && multiset(xs) == multiset(ys)
    requires 0 <= k < |Periods(SortByEff(xs))| && 0 <= k < |Periods(SortByEff(ys))|
    requires Periods(SortByEff(xs))[k].span == Periods(SortByEff(ys))[k].span
    ensures multiset(Periods(SortByEff(xs))[k].members) == multiset(Periods(SortByEff(ys))[k].members)
  {
    WellFormedByMultiset(xs, ys);
    var sx, sy := SortByEff(xs), SortByEff(ys);
    SortByEffSorted(xs);
    SortByEffSorted(ys);
    SortByEffWellFormed(xs);
    SortByEffWellFormed(ys);
    SortByEffPermutes(xs);
    SortByEffPermutes(ys);
    var p, q := Periods(sx)[k], Periods(sy)[k];
    assert multiset(sx) == multiset(sy);
    forall c
      ensures multiset(p.members)[c] == multiset(q.members)[c]
    {
      assert multiset(p.members)[c] == if Contains(p.span, c.eff) then multiset(sx)[c] else 0 by {
        MembersByStart(sx, c);
      }
      assert multiset(q.members)[c] == if Contains(q.span, c.eff) then multiset(sy)[c] else 0 by {
        MembersByStart(sy, c);
      }
    }
  }

  /**
   * Listing the same intervals in another order gives the same periods:
   * the same extents and lengths, and the same intervals in each period.
   * It gives the same longest length and the same winners, alike in the same
   * way. Only the order of members that start on the same day can differ,
   * because the sort is stable.
   */
  lemma SweepIsOrderIndependent(xs: seq<Cov>, ys: seq<Cov>)
    requires AllWellFormed(xs) && multiset(xs) == multiset(ys)
    ensures var px, py := Periods(SortByEff(xs)), Periods(SortByEff(ys));
            && |px| == |py|
            && (forall k :: 0 <= k < |px| ==> Alike(px[k], py[k]))
            && MaxLength(px) == MaxLength(py)
            && var wx, wy := WithLength(px, MaxLength(px)), WithLength(py, MaxLength(py));
               && |wx| == |wy|
               && (forall k :: 0 <= k < |wx| ==> Alike(wx[k], wy[k]))
  {
    WellFormedByMultiset(xs, ys);
    SweepSameSpans(xs, ys);
    var px, py := Periods(SortByEff(xs)), Periods(SortByEff(ys));
    assert |px| == |py| by {
      assert |Spans(px)| == |Spans(py)|;
    }
    SortByEffSorted(xs);
    SortByEffSorted(ys);
    SortByEffWellFormed(xs);
    SortByEffWellFormed(ys);
    PeriodsWellShaped(SortByEff(xs));
    PeriodsWellShaped(SortByEff(ys));
    forall k | 0 <= k < |px|
      ensures Alike(px[k], py[k])
    {
      assert Spans(px)[k] == Spans(py)[k];
      assert PeriodShape(px[k]) && PeriodShape(py[k]);
      SweepSameMembers(xs, ys, k);
    }
    SameLengthsSameMax(px, py);
    AlikeWinners(px, py, MaxLength(px));
  }
}
