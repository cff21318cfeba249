/** Day-numbered coverage intervals: the `Cov` records of the coverage report. */
module Coverage {

  /** Coverage from day `eff` through day `term`, both days included. */
  datatype Cov = Cov(eff: int, term: int)

  /** The report never checks this of its input; the report itself and the lemmas about the sweep demand it. */
  predicate WellFormed(c: Cov)
  {
    c.eff <= c.term
  }

  predicate AllWellFormed(s: seq<Cov>)
  {
    forall i :: 0 <= i < |s| ==> WellFormed(s[i])
  }

  /** Day `d` lies inside `c`. */
  predicate Contains(c: Cov, d: int)
  {
    c.eff <= d <= c.term
  }

  /** Some interval of `s` covers day `d`. */
  predicate Covered(s: seq<Cov>, d: int)
  {
    exists i :: 0 <= i < |s| && Contains(s[i], d)
  }

  /**
   * The set of days `c` covers. The explicit bounds let Dafny see the set is
   * finite; `Contains` gives the verifier a term to trigger on.
   */
  ghost function Days(c: Cov): set<int>
  {
    set d | c.eff <= d <= c.term && Contains(c, d)
  }

  /** Number of days of coverage, counting both end days. */
  function CoverageLength(c: Cov): (n: int)
    ensures WellFormed(c) ==> n >= 1
    ensures c.eff == c.term ==> n == 1
  {
    c.term - c.eff + 1
  }

  /** The length is the number of days covered: inclusive counting. */
  lemma {:induction false} CoverageLengthCountsDays(c: Cov)
    ensures |Days(c)| == if WellFormed(c) then CoverageLength(c) else 0
    decreases c.term - c.eff
  {
    if c.eff > c.term {
      assert Days(c) == {};
    } else if c.eff == c.term {
      assert Days(c) == {c.eff};
    } else {
      var shorter := Cov(c.eff, c.term - 1);
      CoverageLengthCountsDays(shorter);
      assert Days(c) == Days(shorter) + {c.term};
    }
  }

  /** Coverage of a day depends only on which intervals there are, not on their order. */
  lemma CoveredByMultiset(a: seq<Cov>, b: seq<Cov>, d: int)
    requires multiset(a) == multiset(b)
    ensures Covered(a, d) <==> Covered(b, d)
  {
    if Covered(a, d) {
      var i :| 0 <= i < |a| && Contains(a[i], d);
      assert a[i] in multiset(b);
      var j :| 0 <= j < |b| && b[j] == a[i];
    }
    if Covered(b, d) {
      var j :| 0 <= j < |b| && Contains(b[j], d);
      assert b[j] in multiset(a);
      var i :| 0 <= i < |a| && a[i] == b[j];
    }
  }

  lemma CoveredConcat(a: seq<Cov>, b: seq<Cov>, d: int)
    ensures Covered(a + b, d) <==> Covered(a, d) || Covered(b, d)
  {
    var ab := a + b;
    if Covered(ab, d) {
      var i :| 0 <= i < |ab| && Contains(ab[i], d);
      if i < |a| {
        assert ab[i] == a[i];
      } else {
        assert ab[i] == b[i - |a|];
      }
    }
    if Covered(a, d) {
      var i :| 0 <= i < |a| && Contains(a[i], d);
      assert ab[i] == a[i];
    }
    if Covered(b, d) {
      var i :| 0 <= i < |b| && Contains(b[i], d);
      assert ab[|a| + i] == b[i];
    }
  }
}
