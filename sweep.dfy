/**
 * The merge sweep over the sorted intervals, stated as a function of the
 * prefix read so far, and what it guarantees: the periods partition the
 * input, each period is the union of its members, consecutive periods are
 * separated by at least one uncovered day, and the periods cover exactly the
 * days the input covers.
 */
module Sweep {
  import opened Coverage
  import opened StableSort

  /**
   * A coverage period: its length in days, its extent, and the input
   * intervals it absorbed, in the order they were absorbed.
   */
  datatype Period = Period(length: int, span: Cov, members: seq<Cov>)

  /** The period with extent `span` holding `members`; its length is always the extent's length. */
  function PeriodOver(span: Cov, members: seq<Cov>): Period
  {
    Period(CoverageLength(span), span, members)
  }

  /** A period started from exactly the interval `c`. */
  function Start(c: Cov): Period
  {
    PeriodOver(Cov(c.eff, c.term), [c])
  }

  /** `c` begins no later than the day after `p` ends: the two touch or overlap. */
  predicate Continues(p: Period, c: Cov)
  {
    p.span.term + 1 >= c.eff
  }

  /** `p` extended by `c`: the start stays, the end moves out to `c.term` if that is later. */
  function Absorb(p: Period, c: Cov): Period
  {
    PeriodOver(Cov(p.span.eff, if p.span.term < c.term then c.term else p.span.term), p.members + [c])
  }

  /** The sweep reading one interval `c` after having formed `ps`. */
  function Step(ps: seq<Period>, c: Cov): seq<Period>
  {
    if ps == [] then [Start(c)]
    else if Continues(ps[|ps| - 1], c) then ps[..|ps| - 1] + [Absorb(ps[|ps| - 1], c)]
    else ps + [Start(c)]
  }

  /**
   * The periods the sweep has formed after reading `s` in order; the last
   * one is the period still being extended.
   */
  function Periods(s: seq<Cov>): (ps: seq<Period>)
    ensures |ps| <= |s|
    ensures ps == [] <==> s == []
  {
    if s == [] then [] else Step(Periods(s[..|s| - 1]), s[|s| - 1])
  }

  /** The member lists of `ps`, one after the other. */
  function Members(ps: seq<Period>): seq<Cov>
  {
    if ps == [] then [] else Members(ps[..|ps| - 1]) + ps[|ps| - 1].members
  }

  /** The extents of `ps`, in order. */
  function Spans(ps: seq<Period>): (spans: seq<Cov>)
    ensures |spans| == |ps|
    ensures forall k :: 0 <= k < |ps| ==> spans[k] == ps[k].span
  {
    seq(|ps|, k requires 0 <= k < |ps| => ps[k].span)
  }

  /** Same extent, same length and the same intervals, possibly listed in another order. */
  predicate Alike(p: Period, q: Period)
  {
    p.span == q.span && p.length == q.length && multiset(p.members) == multiset(q.members)
  }

  /** Each interval starts at least two days after the previous one ends. */
  predicate Separated(spans: seq<Cov>)
  {
    forall k :: 0 < k < |spans| ==> spans[k - 1].term + 1 < spans[k].eff
  }

  /** Every interval lies wholly before every later one, with a day between. */
  predicate Ascending(spans: seq<Cov>)
  {
    forall i, j :: 0 <= i < j < |spans| ==> spans[i].term + 1 < spans[j].eff
  }

  /** What each period of the sweep is, whatever the input. */
  ghost predicate PeriodShape(p: Period)
  {
    && p.members != []
    && WellFormed(p.span)
    && p.length == CoverageLength(p.span)
    && p.span.eff == p.members[0].eff
    && (forall j :: 0 <= j < |p.members| ==> p.span.eff <= p.members[j].eff && p.members[j].term <= p.span.term)
    && (exists j :: 0 <= j < |p.members| && p.members[j].term == p.span.term)
    && (forall d :: Contains(p.span, d) ==> Covered(p.members, d))
  }

  /** Reading one more interval: absorb it when it touches or overlaps the open period, else start a new one from it. */
  lemma ReadOne(s: seq<Cov>, c: Cov)
    requires s != []
    ensures var prev, next := Periods(s), Periods(s + [c]);
            var open := prev[|prev| - 1];
            if Continues(open, c) then
              && |next| == |prev|
              && next[..|prev| - 1] == prev[..|prev| - 1]
              && next[|prev| - 1].span.eff == open.span.eff
              && next[|prev| - 1].span.term == (if open.span.term < c.term then c.term else open.span.term)
              && next[|prev| - 1].members == open.members + [c]
            else
              && next == prev + [Start(c)]
              && next[|prev|].span == c
              && next[|prev|].members == [c]
  {
    assert (s + [c])[..|s|] == s;
  }

  /** The sweep after `i + 1` intervals is the sweep after `i` intervals reading one more. */
  lemma PeriodsOfPrefix(s: seq<Cov>, i: int)
    requires 0 <= i < |s|
    ensures Periods(s[..i + 1]) == Step(Periods(s[..i]), s[i])
  {
    assert s[..i + 1][..i] == s[..i];
  }

  /** One step of the sweep with `open` as the period still being extended. */
  lemma StepFromOpen(done: seq<Period>, open: Period, c: Cov)
    ensures Step(done + [open], c) ==
              if Continues(open, c) then done + [Absorb(open, c)] else done + [open, Start(c)]
  {
    assert (done + [open])[..|done|] == done;
  }

  lemma StepMembers(ps: seq<Period>, c: Cov)
    ensures Members(Step(ps, c)) == Members(ps) + [c]
  {
    var next := Step(ps, c);
    if ps == [] {
    } else if Continues(ps[|ps| - 1], c) {
      assert next[..|next| - 1] == ps[..|ps| - 1];
    } else {
      assert next[..|next| - 1] == ps;
    }
  }

  /** Every input interval is in exactly one period, and the member lists keep the order they were read in. */
  lemma {:induction false} PeriodsPartition(s: seq<Cov>)
    ensures Members(Periods(s)) == s
  {
    if s != [] {
      var init := s[..|s| - 1];
      PeriodsPartition(init);
      StepMembers(Periods(init), s[|s| - 1]);
      assert s == init + [s[|s| - 1]];
    }
  }

  lemma StepSeparated(ps: seq<Period>, c: Cov)
    requires Separated(Spans(ps))
    ensures Separated(Spans(Step(ps, c)))
  {
    var next := Step(ps, c);
    var n := |ps|;
    if ps == [] {
    } else if Continues(ps[n - 1], c) {
      forall k | 0 < k < n
        ensures next[k - 1].span.term + 1 < next[k].span.eff
      {
        assert ps[k - 1].span.term + 1 < ps[k].span.eff;
      }
    } else {
      forall k | 0 < k <= n
        ensures next[k - 1].span.term + 1 < next[k].span.eff
      {
        assert ps[k - 1].span.term + 1 < (if k < n then ps[k].span.eff else c.eff);
      }
    }
  }

  /** Consecutive periods are separated by at least one day without coverage. */
  lemma {:induction false} PeriodsSeparated(s: seq<Cov>)
    ensures Separated(Spans(Periods(s)))
  {
    if s != [] {
      PeriodsSeparated(s[..|s| - 1]);
      StepSeparated(Periods(s[..|s| - 1]), s[|s| - 1]);
    }
  }

  lemma StepWellShaped(ps: seq<Period>, c: Cov)
    requires forall k :: 0 <= k < |ps| ==> PeriodShape(ps[k])
    requires WellFormed(c)
    requires ps != [] ==> ps[|ps| - 1].span.eff <= c.eff
    ensures var next := Step(ps, c);
            && (forall k :: 0 <= k < |next| ==> PeriodShape(next[k]))
            && next[|next| - 1].span.eff <= c.eff
  {
    var n := |ps|;
    if ps == [] {
      ShapeOfStart(c);
    } else if Continues(ps[n - 1], c) {
      ShapeOfAbsorb(ps[n - 1], c);
      var next := ps[..n - 1] + [Absorb(ps[n - 1], c)];
      assert forall k :: 0 <= k < n - 1 ==> next[k] == ps[k];
    } else {
      ShapeOfStart(c);
      var next := ps + [Start(c)];
      assert forall k :: 0 <= k < n ==> next[k] == ps[k];
    }
  }

  /** Every member of `p` starts inside `p`'s extent. */
  predicate StartsInside(p: Period)
  {
    forall j :: 0 <= j < |p.members| ==> Contains(p.span, p.members[j].eff)
  }

  lemma StepStartsInside(ps: seq<Period>, c: Cov)
    requires forall k :: 0 <= k < |ps| ==> StartsInside(ps[k])
    requires WellFormed(c)
    requires ps != [] ==> ps[|ps| - 1].span.eff <= c.eff
    ensures var next := Step(ps, c);
            forall k :: 0 <= k < |next| ==> StartsInside(next[k])
  {
    var n := |ps|;
    var next := Step(ps, c);
    if ps == [] {
      assert StartsInside(next[0]);
    } else if Continues(ps[n - 1], c) {
      var open := ps[n - 1];
      var q := Absorb(open, c);
      assert StartsInside(open);
      forall j | 0 <= j < |q.members|
        ensures Contains(q.span, q.members[j].eff)
      {
        if j < |open.members| {
          assert q.members[j] == open.members[j];
        }
      }
      assert forall k :: 0 <= k < n - 1 ==> next[k] == ps[k];
    } else {
      assert StartsInside(Start(c));
      assert forall k :: 0 <= k < n ==> next[k] == ps[k];
    }
  }

  /** On sorted, well-formed input every member of a period starts inside that period's extent. */
  lemma {:induction false} PeriodsStartInside(s: seq<Cov>)
    requires SortedByEff(s) && AllWellFormed(s)
    ensures var ps := Periods(s);
            forall k :: 0 <= k < |ps| ==> StartsInside(ps[k])
  {
    if s != [] {
      var init := s[..|s| - 1];
      var c := s[|s| - 1];
      assert SortedByEff(init) && AllWellFormed(init);
      PeriodsStartInside(init);
      PeriodsWellShaped(init);
      assert WellFormed(c);
      if init != [] {
        assert init[|init| - 1].eff <= c.eff;
      }
      StepStartsInside(Periods(init), c);
    }
  }

  /** On sorted, well-formed input every period has the shape `PeriodShape` describes. */
  lemma {:induction false} PeriodsWellShaped(s: seq<Cov>)
    requires SortedByEff(s) && AllWellFormed(s)
    ensures var ps := Periods(s);
            && (forall k :: 0 <= k < |ps| ==> PeriodShape(ps[k]))
            && (s != [] ==> ps[|ps| - 1].span.eff <= s[|s| - 1].eff)
  {
    if s != [] {
      var init := s[..|s| - 1];
      PeriodsWellShaped(init);
      assert WellFormed(s[|s| - 1]);
      if init != [] {
        assert init[|init| - 1].eff <= s[|s| - 1].eff;
      }
      StepWellShaped(Periods(init), s[|s| - 1]);
    }
  }

  lemma ShapeOfStart(c: Cov)
    requires WellFormed(c)
    ensures PeriodShape(Start(c))
  {
    var p := Start(c);
    assert p.members[0].term == p.span.term;
    forall d | Contains(p.span, d)
      ensures Covered(p.members, d)
    {
      assert Contains(p.members[0], d);
    }
  }

  lemma ShapeOfAbsorb(p: Period, c: Cov)
    requires PeriodShape(p) && WellFormed(c)
    requires Continues(p, c) && p.span.eff <= c.eff
    ensures PeriodShape(Absorb(p, c))
  {
    var q := Absorb(p, c);
    var last := |p.members|;
    assert q.members[last] == c;
    assert forall j :: 0 <= j < last ==> q.members[j] == p.members[j];
    if p.span.term < c.term {
      assert q.members[last].term == q.span.term;
    } else {
      var j :| 0 <= j < |p.members| && p.members[j].term == p.span.term;
      assert q.members[j].term == q.span.term;
    }
    forall d | Contains(q.span, d)
      ensures Covered(q.members, d)
    {
      if d <= p.span.term {
        assert Contains(p.span, d);
        var j :| 0 <= j < |p.members| && Contains(p.members[j], d);
        assert Contains(q.members[j], d);
      } else {
        assert Contains(q.members[last], d);
      }
    }
  }
  /** With a day between neighbours, every interval lies before every later one. */
  lemma {:induction false} SeparatedAscending(spans: seq<Cov>)
    requires AllWellFormed(spans) && Separated(spans)
    ensures Ascending(spans)
  {
    if spans != [] {
      var init := spans[..|spans| - 1];
      SeparatedAscending(init);
      var n := |spans|;
      forall i, j | 0 <= i < j < n
        ensures spans[i].term + 1 < spans[j].eff
      {
        if j < n - 1 {
          assert init[i] == spans[i] && init[j] == spans[j];
        } else if i < n - 2 {
          assert init[i] == spans[i] && init[n - 2] == spans[n - 2];
          assert WellFormed(spans[n - 2]);
        }
      }
    }
  }

  lemma CoveredOne(c: Cov, d: int)
    ensures Covered([c], d) <==> Contains(c, d)
  {
    if Contains(c, d) {
      assert Contains([c][0], d);
    }
  }

  lemma CoveredAfter(done: seq<Period>, p: Period, d: int)
    ensures Covered(Spans(done + [p]), d) <==> Covered(Spans(done), d) || Contains(p.span, d)
  {
    assert Spans(done + [p]) == Spans(done) + [p.span];
    CoveredConcat(Spans(done), [p.span], d);
    CoveredOne(p.span, d);
  }

  lemma StepCoveredDays(ps: seq<Period>, c: Cov, d: int)
    requires forall k :: 0 <= k < |ps| ==> PeriodShape(ps[k])
    requires WellFormed(c)
    requires ps != [] ==> ps[|ps| - 1].span.eff <= c.eff
    ensures Covered(Spans(Step(ps, c)), d) <==> Covered(Spans(ps), d) || Contains(c, d)
  {
    var n := |ps|;
    if ps == [] {
      CoveredAfter([], Start(c), d);
      assert [] + [Start(c)] == Step(ps, c);
    } else {
      var done, open := ps[..n - 1], ps[n - 1];
      assert ps == done + [open];
      StepFromOpen(done, open, c);
      if Continues(open, c) {
        assert PeriodShape(open);
        CoveredAfter(done, Absorb(open, c), d);
        CoveredAfter(done, open, d);
      } else {
        CoveredAfter(ps, Start(c), d);
        assert done + [open, Start(c)] == ps + [Start(c)];
      }
    }
  }

  /** On sorted, well-formed input the periods cover exactly the days the input intervals cover. */
  lemma {:induction false} PeriodsCoverSameDays(s: seq<Cov>, d: int)
    requires SortedByEff(s) && AllWellFormed(s)
    ensures Covered(Spans(Periods(s)), d) <==> Covered(s, d)
  {
    if s != [] {
      var init := s[..|s| - 1];
      var c := s[|s| - 1];
      assert SortedByEff(init) && AllWellFormed(init);
      PeriodsCoverSameDays(init, d);
      assert Covered(Spans(Periods(s)), d) <==> Covered(Spans(Periods(init)), d) || Contains(c, d) by {
        PeriodsWellShaped(init);
        assert WellFormed(c);
        if init != [] {
          assert init[|init| - 1].eff <= c.eff;
        }
        StepCoveredDays(Periods(init), c, d);
      }
      assert Covered(s, d) <==> Covered(init, d) || Contains(c, d) by {
        assert s == init + [c];
        CoveredConcat(init, [c], d);
        CoveredOne(c, d);
      }
    }
  }
}
