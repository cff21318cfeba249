/** The sample inputs listed with the report, worked through the model. */
module Scenarios {
  import opened Coverage
  import opened StableSort
  import opened Sweep
  import opened Ranking

  /** A single interval makes a single period. */
  lemma OpensWith(c: Cov)
    ensures Periods([c]) == [Start(c)]
  {
    assert [c][..0] == [];
  }

  /** Reading `c` extends the open period `open` of `Periods(s)` to `next`. */
  lemma Absorbs(s: seq<Cov>, done: seq<Period>, open: Period, c: Cov, next: Period)
    requires Periods(s) == done + [open]
    requires Continues(open, c) && Absorb(open, c) == next
    ensures Periods(s + [c]) == done + [next]
  {
    assert (s + [c])[..|s|] == s;
    StepFromOpen(done, open, c);
  }

  /** Reading `c` closes the open period `open` of `Periods(s)` and starts a new one from `c`. */
  lemma Starts(s: seq<Cov>, done: seq<Period>, open: Period, c: Cov)
    requires Periods(s) == done + [open]
    requires !Continues(open, c)
    ensures Periods(s + [c]) == done + [open, Start(c)]
  {
    assert (s + [c])[..|s|] == s;
    StepFromOpen(done, open, c);
  }

  /** Two intervals in start order with a gap of at least one day between them. */
  lemma TwoApart(x: Cov, y: Cov)
    requires x.eff <= y.eff && x.term + 1 < y.eff
    ensures Periods(SortByEff([x, y])) == [Start(x), Start(y)]
  {
    assert [x, y][1..] == [y] && [y][1..] == [];
    assert SortByEff([y]) == Insert(y, []) == [y];
    assert SortByEff([x, y]) == Insert(x, [y]) == [x] + [y];
    OpensWith(x);
    Starts([x], [], Start(x), y);
  }

  /** Two intervals in start order that touch or overlap. */
  lemma TwoTouching(x: Cov, y: Cov)
    requires x.eff <= y.eff && x.term + 1 >= y.eff
    ensures Periods(SortByEff([x, y])) == [Absorb(Start(x), y)]
  {
    assert [x, y][1..] == [y] && [y][1..] == [];
    assert SortByEff([y]) == Insert(y, []) == [y];
    assert SortByEff([x, y]) == Insert(x, [y]) == [x] + [y];
    OpensWith(x);
    Absorbs([x], [], Start(x), y, Absorb(Start(x), y));
  }

  /** Three intervals in start order, each touching or overlapping the period before it. */
  lemma MergeThree(x: Cov, y: Cov, z: Cov)
    requires Continues(Start(x), y) && Continues(Absorb(Start(x), y), z)
    ensures Periods([x, y, z]) == [Absorb(Absorb(Start(x), y), z)]
  {
    OpensWith(x);
    assert Periods([x]) == [] + [Start(x)];
    Absorbs([x], [], Start(x), y, Absorb(Start(x), y));
    assert [x] + [y] == [x, y];
    Absorbs([x, y], [], Absorb(Start(x), y), z, Absorb(Absorb(Start(x), y), z));
    assert [x, y] + [z] == [x, y, z];
  }

  /** Three merging intervals, a gap, then two merging intervals. */
  lemma ThreeThenTwo(x1: Cov, x2: Cov, x3: Cov, x4: Cov, x5: Cov)
    requires Continues(Start(x1), x2) && Continues(Absorb(Start(x1), x2), x3)
    requires !Continues(Absorb(Absorb(Start(x1), x2), x3), x4) && Continues(Start(x4), x5)
    ensures Periods([x1, x2, x3, x4, x5]) == [Absorb(Absorb(Start(x1), x2), x3), Absorb(Start(x4), x5)]
  {
    var a := Absorb(Absorb(Start(x1), x2), x3);
    assert Periods([x1, x2, x3, x4]) == [a] + [Start(x4)] by {
      assert Periods([x1, x2, x3]) == [] + [a] by {
        MergeThree(x1, x2, x3);
      }
      Starts([x1, x2, x3], [], a, x4);
      assert [x1, x2, x3] + [x4] == [x1, x2, x3, x4];
    }
    Absorbs([x1, x2, x3, x4], [a], Start(x4), x5, Absorb(Start(x4), x5));
    assert [x1, x2, x3, x4] + [x5] == [x1, x2, x3, x4, x5];
  }

  /** Three merging intervals, a gap, two merging intervals, a gap, then one interval. */
  lemma ThreeTwoOne(x1: Cov, x2: Cov, x3: Cov, x4: Cov, x5: Cov, x6: Cov)
    requires Continues(Start(x1), x2) && Continues(Absorb(Start(x1), x2), x3)
    requires !Continues(Absorb(Absorb(Start(x1), x2), x3), x4) && Continues(Start(x4), x5)
    requires !Continues(Absorb(Start(x4), x5), x6)
    ensures Periods([x1, x2, x3, x4, x5, x6]) ==
              [Absorb(Absorb(Start(x1), x2), x3), Absorb(Start(x4), x5), Start(x6)]
  {
    var a := Absorb(Absorb(Start(x1), x2), x3);
    assert Periods([x1, x2, x3, x4, x5]) == [a] + [Absorb(Start(x4), x5)] by {
      ThreeThenTwo(x1, x2, x3, x4, x5);
    }
    Starts([x1, x2, x3, x4, x5], [a], Absorb(Start(x4), x5), x6);
    assert [x1, x2, x3, x4, x5] + [x6] == [x1, x2, x3, x4, x5, x6];
  }

  /** The running maximum over two completed periods. */
  lemma MaxOfTwo(a: Period, b: Period)
    requires a.length >= 1 && b.length >= 1
    ensures MaxLength([a, b]) == if a.length < b.length then b.length else a.length
  {
    assert MaxLength([a]) == a.length by {
      MaxLengthOfLonger([], a);
      assert [] + [a] == [a];
    }
    MaxLengthOfLonger([a], b);
    assert [a] + [b] == [a, b];
  }

  /** The filter over two completed periods. */
  lemma FilterOfTwo(a: Period, b: Period, n: int)
    ensures WithLength([a, b], n) == (if a.length == n then [a] else []) + (if b.length == n then [b] else [])
  {
    assert WithLength([b], n) == if b.length == n then [b] else [] by {
      WithLengthCons(b, [], n);
      assert [b] + [] == [b];
    }
    WithLengthCons(a, [b], n);
    assert [a] + [b] == [a, b];
  }

  /** The running maximum over three completed periods. */
  lemma MaxOfThree(a: Period, b: Period, c: Period)
    requires a.length >= 1 && b.length >= 1 && c.length >= 1
    ensures var ab := if a.length < b.length then b.length else a.length;
            MaxLength([a, b, c]) == if ab < c.length then c.length else ab
  {
    MaxOfTwo(a, b);
    MaxLengthOfLonger([a, b], c);
    assert [a, b] + [c] == [a, b, c];
  }

  /** The filter over three completed periods when the first and the last reach `n` and the middle one does not. */
  lemma FilterOfThree(a: Period, b: Period, c: Period, n: int)
    requires a.length == n && b.length != n && c.length == n
    ensures WithLength([a, b, c], n) == [a, c]
  {
    assert WithLength([b, c], n) == [c] by {
      FilterOfTwo(b, c, n);
      assert [] + [c] == [c];
    }
    WithLengthCons(a, [b, c], n);
    assert [a] + [b, c] == [a, b, c] && [a] + [c] == [a, c];
  }

  /** No intervals: longest coverage 0 and no periods to report. */
  lemma EmptyInput()
    ensures Periods(SortByEff([])) == []
    ensures MaxLength(Periods(SortByEff([]))) == 0
    ensures WithLength(Periods(SortByEff([])), 0) == []
  {
  }

  /** A one-day interval has length 1. */
  lemma OneDayInterval(day: int)
    ensures CoverageLength(Cov(day, day)) == 1
  {
  }

  /** Cov(1, 20) and Cov(21, 30) touch: one period of 30 days holding both. */
  lemma AdjacentIntervalsMerge()
    ensures var ps := Periods(SortByEff([Cov(1, 20), Cov(21, 30)]));
            && ps == [Period(30, Cov(1, 30), [Cov(1, 20), Cov(21, 30)])]
            && MaxLength(ps) == 30
  {
    TwoTouching(Cov(1, 20), Cov(21, 30));
    assert [Cov(1, 20)] + [Cov(21, 30)] == [Cov(1, 20), Cov(21, 30)];
    assert Absorb(Start(Cov(1, 20)), Cov(21, 30)) == Period(30, Cov(1, 30), [Cov(1, 20), Cov(21, 30)]);
    assert [Period(30, Cov(1, 30), [Cov(1, 20), Cov(21, 30)])][..0] == [];
  }

  /** Cov(1, 20) and Cov(22, 30) leave day 21 uncovered: two periods, of 20 and 9 days. */
  lemma OneDayGapSplits()
    ensures var ps := Periods(SortByEff([Cov(1, 20), Cov(22, 30)]));
            && ps == [Period(20, Cov(1, 20), [Cov(1, 20)]), Period(9, Cov(22, 30), [Cov(22, 30)])]
            && MaxLength(ps) == 20
            && WithLength(ps, 20) == [ps[0]]
  {
    TwoApart(Cov(1, 20), Cov(22, 30));
    MaxOfTwo(Start(Cov(1, 20)), Start(Cov(22, 30)));
    FilterOfTwo(Start(Cov(1, 20)), Start(Cov(22, 30)), 20);
  }

  /** Cov(1, 20) and Cov(31, 50) are both 20 days long: both are reported. */
  lemma TiedPeriodsBothReported()
    ensures var ps := Periods(SortByEff([Cov(1, 20), Cov(31, 50)]));
            && MaxLength(ps) == 20
            && WithLength(ps, 20) == [Period(20, Cov(1, 20), [Cov(1, 20)]), Period(20, Cov(31, 50), [Cov(31, 50)])]
  {
    TwoApart(Cov(1, 20), Cov(31, 50));
    MaxOfTwo(Start(Cov(1, 20)), Start(Cov(31, 50)));
    FilterOfTwo(Start(Cov(1, 20)), Start(Cov(31, 50)), 20);
  }

  /** Cov(1, 365) and Cov(1, 366) start on the same day: one period of 366 days, members in input order. */
  lemma SameStartKeepsInputOrder()
    ensures var ps := Periods(SortByEff([Cov(1, 365), Cov(1, 366)]));
            && ps == [Period(366, Cov(1, 366), [Cov(1, 365), Cov(1, 366)])]
  {
    TwoTouching(Cov(1, 365), Cov(1, 366));
    assert [Cov(1, 365)] + [Cov(1, 366)] == [Cov(1, 365), Cov(1, 366)];
  }

  /** The largest period comes first: Cov(1, 50) beats Cov(90, 95). */
  lemma LongestFirst()
    ensures var ps := Periods(SortByEff([Cov(1, 50), Cov(90, 95)]));
            && MaxLength(ps) == 50
            && WithLength(ps, 50) == [Period(50, Cov(1, 50), [Cov(1, 50)])]
  {
    TwoApart(Cov(1, 50), Cov(90, 95));
    MaxOfTwo(Start(Cov(1, 50)), Start(Cov(90, 95)));
    FilterOfTwo(Start(Cov(1, 50)), Start(Cov(90, 95)), 50);
  }

  /** The largest period comes last: Cov(90, 120) beats Cov(1, 5). */
  lemma LongestLast()
    ensures var ps := Periods(SortByEff([Cov(1, 5), Cov(90, 120)]));
            && MaxLength(ps) == 31
            && WithLength(ps, 31) == [Period(31, Cov(90, 120), [Cov(90, 120)])]
  {
    TwoApart(Cov(1, 5), Cov(90, 120));
    MaxOfTwo(Start(Cov(1, 5)), Start(Cov(90, 120)));
    FilterOfTwo(Start(Cov(1, 5)), Start(Cov(90, 120)), 31);
  }

  function ExerciseInput(): seq<Cov>
  {
    [Cov(1, 20), Cov(21, 30), Cov(28, 40), Cov(50, 60), Cov(61, 200)]
  }

  lemma ExerciseSorted()
    ensures SortByEff(ExerciseInput()) == ExerciseInput()
  {
    var s := ExerciseInput();
    assert SortByEff(s[4..]) == s[4..];
    assert SortByEff(s[3..]) == s[3..];
    assert SortByEff(s[2..]) == s[2..];
    assert SortByEff(s[1..]) == s[1..];
  }

  lemma ExercisePeriods()
    ensures Periods(ExerciseInput()) ==
              [Period(40, Cov(1, 40), [Cov(1, 20), Cov(21, 30), Cov(28, 40)]),
               Period(151, Cov(50, 200), [Cov(50, 60), Cov(61, 200)])]
  {
    var a2 := Absorb(Start(Cov(1, 20)), Cov(21, 30));
    assert a2 == Period(30, Cov(1, 30), [Cov(1, 20), Cov(21, 30)]);
    assert Absorb(a2, Cov(28, 40)) == Period(40, Cov(1, 40), [Cov(1, 20), Cov(21, 30), Cov(28, 40)]);
    assert Absorb(Start(Cov(50, 60)), Cov(61, 200)) == Period(151, Cov(50, 200), [Cov(50, 60), Cov(61, 200)]);
    ThreeThenTwo(Cov(1, 20), Cov(21, 30), Cov(28, 40), Cov(50, 60), Cov(61, 200));
  }

  /** The exercise data: Cov(50, 60) and Cov(61, 200) form the longest period, 151 days. */
  lemma ExerciseData()
    ensures var ps := Periods(SortByEff(ExerciseInput()));
            && MaxLength(ps) == 151
            && WithLength(ps, 151) == [Period(151, Cov(50, 200), [Cov(50, 60), Cov(61, 200)])]
  {
    var a := Period(40, Cov(1, 40), [Cov(1, 20), Cov(21, 30), Cov(28, 40)]);
    var b := Period(151, Cov(50, 200), [Cov(50, 60), Cov(61, 200)]);
    ExerciseSorted();
    ExercisePeriods();
    MaxOfTwo(a, b);
    FilterOfTwo(a, b, 151);
  }

  function UnsortedSample(): seq<Cov>
  {
    [Cov(50, 60), Cov(61, 70), Cov(1, 28), Cov(20, 38), Cov(35, 48), Cov(81, 128)]
  }

  lemma UnsortedSampleSorted()
    ensures SortByEff(UnsortedSample()) == [Cov(1, 28), Cov(20, 38), Cov(35, 48), Cov(50, 60), Cov(61, 70), Cov(81, 128)]
  {
    var s := UnsortedSample();
    var t := [Cov(1, 28), Cov(20, 38), Cov(35, 48), Cov(50, 60), Cov(61, 70), Cov(81, 128)];
    assert SortByEff(s[5..]) == [Cov(81, 128)];
    assert SortByEff(s[4..]) == [Cov(35, 48), Cov(81, 128)];
    assert SortByEff(s[3..]) == [Cov(20, 38), Cov(35, 48), Cov(81, 128)];
    assert SortByEff(s[2..]) == [Cov(1, 28), Cov(20, 38), Cov(35, 48), Cov(81, 128)];
    assert Insert(Cov(61, 70), [Cov(1, 28), Cov(20, 38), Cov(35, 48), Cov(81, 128)])
        == [Cov(1, 28), Cov(20, 38), Cov(35, 48), Cov(61, 70), Cov(81, 128)];
    assert SortByEff(s[1..]) == [Cov(1, 28), Cov(20, 38), Cov(35, 48), Cov(61, 70), Cov(81, 128)];
    assert Insert(Cov(50, 60), [Cov(1, 28), Cov(20, 38), Cov(35, 48), Cov(61, 70), Cov(81, 128)]) == t;
  }

  lemma UnsortedSamplePeriods()
    ensures Periods([Cov(1, 28), Cov(20, 38), Cov(35, 48), Cov(50, 60), Cov(61, 70), Cov(81, 128)]) ==
              [Period(48, Cov(1, 48), [Cov(1, 28), Cov(20, 38), Cov(35, 48)]),
               Period(21, Cov(50, 70), [Cov(50, 60), Cov(61, 70)]),
               Period(48, Cov(81, 128), [Cov(81, 128)])]
  {
    var a2 := Absorb(Start(Cov(1, 28)), Cov(20, 38));
    assert a2 == Period(38, Cov(1, 38), [Cov(1, 28), Cov(20, 38)]);
    assert Absorb(a2, Cov(35, 48)) == Period(48, Cov(1, 48), [Cov(1, 28), Cov(20, 38), Cov(35, 48)]);
    assert Absorb(Start(Cov(50, 60)), Cov(61, 70)) == Period(21, Cov(50, 70), [Cov(50, 60), Cov(61, 70)]);
    assert Start(Cov(81, 128)) == Period(48, Cov(81, 128), [Cov(81, 128)]);
    ThreeTwoOne(Cov(1, 28), Cov(20, 38), Cov(35, 48), Cov(50, 60), Cov(61, 70), Cov(81, 128));
  }

  lemma UnsortedSampleSweep()
    ensures Periods(SortByEff(UnsortedSample())) ==
              [Period(48, Cov(1, 48), [Cov(1, 28), Cov(20, 38), Cov(35, 48)]),
               Period(21, Cov(50, 70), [Cov(50, 60), Cov(61, 70)]),
               Period(48, Cov(81, 128), [Cov(81, 128)])]
  {
    UnsortedSampleSorted();
    UnsortedSamplePeriods();
  }

  lemma UnsortedSampleLongest()
    ensures MaxLength(Periods(SortByEff(UnsortedSample()))) == 48
  {
    UnsortedSampleSweep();
    MaxOfThree(Period(48, Cov(1, 48), [Cov(1, 28), Cov(20, 38), Cov(35, 48)]),
               Period(21, Cov(50, 70), [Cov(50, 60), Cov(61, 70)]),
               Period(48, Cov(81, 128), [Cov(81, 128)]));
  }

  lemma UnsortedSampleWinners()
    ensures WithLength(Periods(SortByEff(UnsortedSample())), 48) ==
              [Period(48, Cov(1, 48), [Cov(1, 28), Cov(20, 38), Cov(35, 48)]),
               Period(48, Cov(81, 128), [Cov(81, 128)])]
  {
    UnsortedSampleSweep();
    FilterOfThree(Period(48, Cov(1, 48), [Cov(1, 28), Cov(20, 38), Cov(35, 48)]),
                  Period(21, Cov(50, 70), [Cov(50, 60), Cov(61, 70)]),
                  Period(48, Cov(81, 128), [Cov(81, 128)]), 48);
  }

  /** The out-of-order sample: sorting first gives two tied periods of 48 days. */
  lemma UnsortedInput()
    ensures var ps := Periods(SortByEff(UnsortedSample()));
            && MaxLength(ps) == 48
            && WithLength(ps, 48) == [Period(48, Cov(1, 48), [Cov(1, 28), Cov(20, 38), Cov(35, 48)]),
                                      Period(48, Cov(81, 128), [Cov(81, 128)])]
  {
    UnsortedSampleLongest();
    UnsortedSampleWinners();
  }
}
