/**
 * The report itself: sort the intervals by start day, sweep once merging
 * intervals that touch or overlap, keep a running maximum of the completed
 * periods' lengths, and keep every period that reaches it.
 */
module LongestCoverage {
  import opened Coverage
  import opened StableSort
  import opened Sweep
  import opened Ranking

  datatype Option<T> = None | Some(value: T)

  /**
   * The longest continuous coverage, in days, and every merged period of
   * that length with the intervals it absorbed, in sweep order.
   */
  method LongestContinuousCoverage(coverages: seq<Cov>) returns (longest: int, winners: seq<Period>)
    requires AllWellFormed(coverages)
    ensures longest == MaxLength(Periods(SortByEff(coverages)))
    ensures winners == WithLength(Periods(SortByEff(coverages)), longest)
    ensures coverages == [] ==> longest == 0 && winners == []
    ensures coverages != [] ==> longest >= 1 && winners != []
    ensures forall k :: 0 <= k < |winners| ==> winners[k].length == longest
    ensures Ascending(Spans(winners))
  {
    var sorted := SortByEff(coverages);
    longest := 0;
    var periods: seq<Period> := [];
    winners := [];
    if sorted != [] {
      var current: Option<Cov> := None;
      var members: seq<Cov> := [];
      for i := 0 to |sorted|
        invariant current.None? <==> i == 0
        invariant i == 0 ==> periods == [] && members == []
        invariant i > 0 ==> Periods(sorted[..i]) == periods + [PeriodOver(current.value, members)]
        invariant longest == MaxLength(periods)
      {
        var cov := sorted[i];
        if current.None? {
          ReadFirst(sorted);
          current := Some(Cov(cov.eff, cov.term));
          members := members + [cov];
        } else if current.value.term + 1 >= cov.eff {
          ReadAbsorbs(sorted, i, periods, current.value, members);
          members := members + [cov];
          if current.value.term < cov.term {
            current := Some(current.value.(term := cov.term));
          }
        } else {
          ReadStarts(sorted, i, periods, current.value, members);
          MaxLengthOfLonger(periods, PeriodOver(current.value, members));
          periods := periods + [PeriodOver(current.value, members)];
          if longest < CoverageLength(current.value) {
            longest := CoverageLength(current.value);
          }
          current := Some(Cov(cov.eff, cov.term));
          members := [cov];
        }
      }
      MaxLengthOfLonger(periods, PeriodOver(current.value, members));
      periods := periods + [PeriodOver(current.value, members)];
      if longest < CoverageLength(current.value) {
        longest := CoverageLength(current.value);
      }
      winners := WithLength(periods, longest);
      assert sorted[..|sorted|] == sorted;
    }
    Report(coverages, longest, winners);
  }

  lemma ReadFirst(s: seq<Cov>)
    requires s != []
    ensures Periods(s[..1]) == [] + [PeriodOver(Cov(s[0].eff, s[0].term), [] + [s[0]])]
  {
    PeriodsOfPrefix(s, 0);
    assert s[..0] == [];
    assert [] + [s[0]] == [s[0]];
  }

  /** Absorbing `s[i]` into the open period `PeriodOver(current, members)`. */
  lemma ReadAbsorbs(s: seq<Cov>, i: int, done: seq<Period>, current: Cov, members: seq<Cov>)
    requires 0 < i < |s|
    requires Periods(s[..i]) == done + [PeriodOver(current, members)]
    requires current.term + 1 >= s[i].eff
    ensures Periods(s[..i + 1]) ==
              done + [PeriodOver(if current.term < s[i].term then current.(term := s[i].term) else current, members + [s[i]])]
  {
    PeriodsOfPrefix(s, i);
    StepFromOpen(done, PeriodOver(current, members), s[i]);
  }

  /** Closing the open period `PeriodOver(current, members)` and starting a new one from `s[i]`. */
  lemma ReadStarts(s: seq<Cov>, i: int, done: seq<Period>, current: Cov, members: seq<Cov>)
    requires 0 < i < |s|
    requires Periods(s[..i]) == done + [PeriodOver(current, members)]
    requires current.term + 1 < s[i].eff
    ensures Periods(s[..i + 1]) == (done + [PeriodOver(current, members)]) + [PeriodOver(Cov(s[i].eff, s[i].term), [s[i]])]
  {
    PeriodsOfPrefix(s, i);
    StepFromOpen(done, PeriodOver(current, members), s[i]);
  }

  /** What the caller learns about the result, proved from the sweep's lemmas. */
  lemma Report(coverages: seq<Cov>, longest: int, winners: seq<Period>)
    requires AllWellFormed(coverages)
    requires longest == MaxLength(Periods(SortByEff(coverages)))
    requires winners == WithLength(Periods(SortByEff(coverages)), longest)
    ensures coverages == [] ==> longest == 0 && winners == []
    ensures coverages != [] ==> longest >= 1 && winners != []
    ensures Ascending(Spans(winners))
  {
    var sorted := SortByEff(coverages);
    SortByEffSorted(coverages);
    SortByEffPermutes(coverages);
    SortByEffWellFormed(coverages);
    var ps := Periods(sorted);
    PeriodsWellShaped(sorted);
    PeriodsSeparated(sorted);
    assert AllWellFormed(Spans(ps)) by {
      forall k | 0 <= k < |ps|
        ensures WellFormed(Spans(ps)[k])
      {
        assert PeriodShape(ps[k]);
      }
    }
    SeparatedAscending(Spans(ps));
    WithLengthAscending(ps, longest);
    if coverages != [] {
      assert sorted != [] by {
        assert |multiset(sorted)| == |coverages|;
      }
      assert PeriodShape(ps[0]);
      assert longest >= ps[0].length >= 1;
      var k :| 0 <= k < |ps| && ps[k].length == longest;
      WithLengthMembers(ps, longest, ps[k]);
    } else {
      assert sorted == [];
    }
  }
}
