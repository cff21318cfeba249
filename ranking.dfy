/**
 * Ranking the completed periods: the running maximum of their lengths and
 * the filter that keeps every period reaching it.
 */
module Ranking {
  import opened Coverage
  import opened Sweep

  /**
   * The longest length among `ps`, taken as a running maximum that starts
   * from 0 and is raised each time a longer period completes.
   */
  function MaxLength(ps: seq<Period>): (m: int)
    ensures m >= 0
    ensures forall k :: 0 <= k < |ps| ==> ps[k].length <= m
    ensures m == 0 || exists k :: 0 <= k < |ps| && ps[k].length == m
  {
    if ps == [] then 0
    else
      var before := MaxLength(ps[..|ps| - 1]);
      if before < ps[|ps| - 1].length then ps[|ps| - 1].length else before
  }

  /** Completing one more period raises the running maximum to its length if it is longer. */
  lemma MaxLengthOfLonger(ps: seq<Period>, p: Period)
    ensures MaxLength(ps + [p]) == if MaxLength(ps) < p.length then p.length else MaxLength(ps)
  {
    assert (ps + [p])[..|ps|] == ps;
  }

  lemma WithLengthCons(p: Period, ps: seq<Period>, n: int)
    ensures WithLength([p] + ps, n) == (if p.length == n then [p] else []) + WithLength(ps, n)
  {
    assert ([p] + ps)[1..] == ps;
  }

  /** The periods of `ps` whose length is `n`, in their order in `ps`. */
  function WithLength(ps: seq<Period>, n: int): (r: seq<Period>)
    ensures forall k :: 0 <= k < |r| ==> r[k].length == n
    ensures |r| <= |ps|
  {
    if ps == [] then []
    else (if ps[0].length == n then [ps[0]] else []) + WithLength(ps[1..], n)
  }

  /** The filter keeps all and only the periods of length `n`. */
  lemma {:induction false} WithLengthMembers(ps: seq<Period>, n: int, p: Period)
    ensures p in WithLength(ps, n) <==> p in ps && p.length == n
  {
    if ps != [] {
      WithLengthMembers(ps[1..], n, p);
      assert ps == [ps[0]] + ps[1..];
    }
  }

  lemma AscendingTail(ps: seq<Period>)
    requires ps != [] && Ascending(Spans(ps))
    ensures Ascending(Spans(ps[1..]))
    ensures forall j :: 0 < j < |ps| ==> ps[0].span.term + 1 < ps[j].span.eff
  {
    var tail := ps[1..];
    forall i, j | 0 <= i < j < |tail|
      ensures Spans(tail)[i].term + 1 < Spans(tail)[j].eff
    {
      assert Spans(ps)[i + 1] == tail[i].span && Spans(ps)[j + 1] == tail[j].span;
    }
    forall j | 0 < j < |ps|
      ensures ps[0].span.term + 1 < ps[j].span.eff
    {
      assert Spans(ps)[0] == ps[0].span && Spans(ps)[j] == ps[j].span;
    }
  }

  lemma AscendingCons(p: Period, rest: seq<Period>)
    requires Ascending(Spans(rest))
    requires forall j :: 0 <= j < |rest| ==> p.span.term + 1 < rest[j].span.eff
    ensures Ascending(Spans([p] + rest))
  {
    var r := [p] + rest;
    forall i, j | 0 <= i < j < |r|
      ensures Spans(r)[i].term + 1 < Spans(r)[j].eff
    {
      assert r[j] == rest[j - 1];
      if i > 0 {
        assert r[i] == rest[i - 1];
        assert Spans(rest)[i - 1].term + 1 < Spans(rest)[j - 1].eff;
      }
    }
  }

  /** Filtering keeps the periods in sweep order, that is, ascending and apart. */
  lemma {:induction false} WithLengthAscending(ps: seq<Period>, n: int)
    requires Ascending(Spans(ps))
    ensures Ascending(Spans(WithLength(ps, n)))
  {
    if ps != [] {
      var tail := ps[1..];
      AscendingTail(ps);
      WithLengthAscending(tail, n);
      var rest := WithLength(tail, n);
      if ps[0].length == n {
        forall j | 0 <= j < |rest|
          ensures ps[0].span.term + 1 < rest[j].span.eff
        {
          WithLengthMembers(tail, n, rest[j]);
          var k :| 0 <= k < |tail| && tail[k] == rest[j];
          assert ps[k + 1] == rest[j];
        }
        AscendingCons(ps[0], rest);
      }
    }
  }

  /** Two runs of periods with the same lengths, one for one, have the same maximum. */
  lemma SameLengthsSameMax(ps: seq<Period>, qs: seq<Period>)
    requires |ps| == |qs|
    requires forall k :: 0 <= k < |ps| ==> ps[k].length == qs[k].length
    ensures MaxLength(ps) == MaxLength(qs)
  {
    var m, n := MaxLength(ps), MaxLength(qs);
    if m != 0 {
      var k :| 0 <= k < |ps| && ps[k].length == m;
      assert m <= n;
    }
    if n != 0 {
      var k :| 0 <= k < |qs| && qs[k].length == n;
      assert n <= m;
    }
  }

  lemma AlikeCons(p: Period, q: Period, ps: seq<Period>, qs: seq<Period>)
    requires Alike(p, q) && |ps| == |qs|
    requires forall k :: 0 <= k < |ps| ==> Alike(ps[k], qs[k])
    ensures forall k :: 0 <= k < |ps| + 1 ==> Alike(([p] + ps)[k], ([q] + qs)[k])
  {
    forall k | 0 < k < |ps| + 1
      ensures Alike(([p] + ps)[k], ([q] + qs)[k])
    {
      assert ([p] + ps)[k] == ps[k - 1] && ([q] + qs)[k] == qs[k - 1];
    }
  }

  /** The filter looks only at lengths: runs of alike periods give alike winners. */
  lemma {:induction false} AlikeWinners(ps: seq<Period>, qs: seq<Period>, n: int)
    requires |ps| == |qs|
    requires forall k :: 0 <= k < |ps| ==> Alike(ps[k], qs[k])
    ensures |WithLength(ps, n)| == |WithLength(qs, n)|
    ensures forall k :: 0 <= k < |WithLength(ps, n)| ==> Alike(WithLength(ps, n)[k], WithLength(qs, n)[k])
  {
    if ps != [] {
      var tp, tq := ps[1..], qs[1..];
      assert forall k :: 0 <= k < |tp| ==> Alike(tp[k], tq[k]) by {
        forall k | 0 <= k < |tp|
          ensures Alike(tp[k], tq[k])
        {
          assert tp[k] == ps[k + 1] && tq[k] == qs[k + 1];
        }
      }
      AlikeWinners(tp, tq, n);
      var rp, rq := WithLength(tp, n), WithLength(tq, n);
      assert ps == [ps[0]] + tp && qs == [qs[0]] + tq;
      WithLengthCons(ps[0], tp, n);
      WithLengthCons(qs[0], tq, n);
      assert Alike(ps[0], qs[0]);
      if ps[0].length == n {
        AlikeCons(ps[0], qs[0], rp, rq);
      } else {
        assert [] + rp == rp && [] + rq == rq;
      }
    }
  }
}
