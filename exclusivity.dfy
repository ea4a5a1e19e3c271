/** `filter_by_exclusivity` (spawning/transformation.rs): greedy selection of
  * at most `n` candidates, in order, each farther than the exclusivity
  * radius from every point accepted before it. */
module Exclusivity {
  import opened Common
  import opened Float32

  datatype Point = Point(x: Float, y: Float, z: Float)

  /** A grid sample: its coordinates and its noise value. */
  datatype Candidate = Candidate(p: Point, value: real)

  /** `(x - cx)^2 + (y - cy)^2 + (z - cz)^2` from accepted point `a` to candidate point `c`. */
  function SqDist(a: Point, c: Point): Float
  {
    Add(Add(Sq(Sub(a.x, c.x)), Sq(Sub(a.y, c.y))), Sq(Sub(a.z, c.z)))
  }

  /** Whether a candidate point (second) survives the filter of an accepted
    * point (first). The selection below holds for any such test. */
  type Separation = (Point, Point) -> bool

  /** The test of `filter_by_exclusivity`: squared distance above the squared radius. */
  function Beyond(r2: real): Separation
  {
    (a, c) => Greater(SqDist(a, c), r2)
  }

  /** The candidates that survive the filter of accepted point `a`, in order. */
  function FarFrom(cands: seq<Candidate>, a: Point, far: Separation): (r: seq<Candidate>)
    ensures |r| <= |cands|
    ensures forall c :: c in r ==> c in cands && far(a, c.p)
  {
    if |cands| == 0 then []
    else (if far(a, cands[0].p) then [cands[0]] else []) + FarFrom(cands[1..], a, far)
  }

  /** The loop of `filter_by_exclusivity`: take the front candidate, drop
    * every remaining candidate within the radius of it, repeat until `n` are
    * taken or none remain. */
  function Exclusive(cands: seq<Candidate>, n: nat, far: Separation): seq<Point>
    decreases |cands|
  {
    if n == 0 || |cands| == 0 then []
    else [cands[0].p] + Exclusive(FarFrom(cands[1..], cands[0].p, far), n - 1, far)
  }

  /** Unfolding the selection once: the front candidate is accepted. */
  lemma ExclusiveFront(cands: seq<Candidate>, k: nat, far: Separation)
    requires k > 0 && |cands| > 0
    ensures Exclusive(cands, k, far) == [cands[0].p] + Exclusive(FarFrom(cands[1..], cands[0].p, far), k - 1, far)
  {
  }

  /** The loop of `filter_by_exclusivity` for any separation test: the front
    * candidate is accepted and the remaining candidates it does not leave
    * standing are dropped, until `n` are accepted or none remain. */
  method SelectExclusive(sortedValues: seq<Candidate>, n: nat, far: Separation) returns (results: seq<Point>)
    ensures results == Exclusive(sortedValues, n, far)
  {
    results := [];
    var candidates := sortedValues;
    while |results| < n && |candidates| > 0
      invariant |results| <= n
      invariant results + Exclusive(candidates, n - |results|, far) == Exclusive(sortedValues, n, far)
      decreases |candidates|
    {
      var c := candidates[0];
      ghost var before := candidates;
      ghost var accepted := results;
      candidates := candidates[1..];
      results := results + [c.p];
      candidates := FarFrom(candidates, c.p, far);
      ExclusiveFront(before, n - |accepted|, far);
      AppendAssoc(accepted, [c.p], Exclusive(candidates, n - |results|, far));
      if |results| >= n {
        break;
      }
    }
  }

  /** `filter_by_exclusivity`: the selection with the squared-radius test. */
  method FilterByExclusivity(sortedValues: seq<Candidate>, n: nat, radius: real) returns (results: seq<Point>)
    ensures results == Exclusive(sortedValues, n, Beyond(radius * radius))
  {
    results := SelectExclusive(sortedValues, n, Beyond(radius * radius));
  }

  // ---------------------------------------------------------------------------
  // The same selection as a left-to-right scan

  /** Every accepted point leaves `p` standing. */
  predicate FarFromAll(acc: seq<Point>, p: Point, far: Separation)
  {
    forall i :: 0 <= i < |acc| ==> far(acc[i], p)
  }

  /** One candidate of the scan: accepted while fewer than `n` are accepted
    * and it is far from all of them, skipped otherwise. */
  function Step(acc: seq<Point>, c: Candidate, n: nat, far: Separation): seq<Point>
  {
    if |acc| < n && FarFromAll(acc, c.p, far) then acc + [c.p] else acc
  }

  function Scan(acc: seq<Point>, cands: seq<Candidate>, n: nat, far: Separation): seq<Point>
    decreases |cands|
  {
    if |cands| == 0 then acc else Scan(Step(acc, cands[0], n, far), cands[1..], n, far)
  }

  /** What is accepted from the candidates, processed in order. */
  function Accepted(cands: seq<Candidate>, n: nat, far: Separation): seq<Point>
    decreases |cands|
  {
    if |cands| == 0 then []
    else Step(Accepted(cands[..|cands| - 1], n, far), cands[|cands| - 1], n, far)
  }

  lemma {:induction false} ScanWhenFull(acc: seq<Point>, cands: seq<Candidate>, n: nat, far: Separation)
    requires |acc| >= n
    ensures Scan(acc, cands, n, far) == acc
    decreases |cands|
  {
    if |cands| > 0 {
      ScanWhenFull(acc, cands[1..], n, far);
    }
  }

  /** Dropping candidates near an accepted point does not change the scan:
    * it would skip them anyway. */
  lemma {:induction false} ScanSkipsNear(acc: seq<Point>, j: nat, cands: seq<Candidate>, n: nat, far: Separation)
    requires j < |acc|
    ensures Scan(acc, cands, n, far) == Scan(acc, FarFrom(cands, acc[j], far), n, far)
    decreases |cands|
  {
    if |cands| > 0 {
      var c := cands[0];
      var rest := FarFrom(cands[1..], acc[j], far);
      if far(acc[j], c.p) {
        var acc' := Step(acc, c, n, far);
        assert acc'[j] == acc[j];
        ScanSkipsNear(acc', j, cands[1..], n, far);
        assert FarFrom(cands, acc[j], far) == [c] + rest;
        assert ([c] + rest)[1..] == rest;
      } else {
        assert !FarFromAll(acc, c.p, far);
        assert Step(acc, c, n, far) == acc;
        assert FarFrom(cands, acc[j], far) == rest;
        ScanSkipsNear(acc, j, cands[1..], n, far);
      }
    }
  }

  /** The pop-and-filter loop computes the scan, when the remaining candidates
    * are far from everything accepted so far. */
  lemma {:induction false} ExclusiveIsScan(acc: seq<Point>, cands: seq<Candidate>, n: nat, far: Separation)
    requires |acc| <= n
    requires forall c :: c in cands ==> FarFromAll(acc, c.p, far)
    ensures acc + Exclusive(cands, n - |acc|, far) == Scan(acc, cands, n, far)
    decreases |cands|
  {
    if |acc| == n {
      ScanWhenFull(acc, cands, n, far);
    } else if |cands| > 0 {
      var c := cands[0];
      assert c in cands;
      var acc' := acc + [c.p];
      assert Step(acc, c, n, far) == acc';
      var rest := FarFrom(cands[1..], c.p, far);
      ScanSkipsNear(acc', |acc|, cands[1..], n, far);
      forall d | d in rest
        ensures FarFromAll(acc', d.p, far)
      {
        assert d in cands[1..];
        assert d in cands;
      }
      ExclusiveIsScan(acc', rest, n, far);
    }
  }

  lemma {:induction false} ScanIsAccepted(p: seq<Candidate>, q: seq<Candidate>, n: nat, far: Separation)
    ensures Scan(Accepted(p, n, far), q, n, far) == Accepted(p + q, n, far)
    decreases |q|
  {
    if |q| == 0 {
      assert p + q == p;
    } else {
      var p' := p + [q[0]];
      AcceptedLast(p, q[0], n, far);
      ScanIsAccepted(p', q[1..], n, far);
      MoveFront(p, q);
    }
  }

  lemma AcceptedLast(p: seq<Candidate>, c: Candidate, n: nat, far: Separation)
    ensures Accepted(p + [c], n, far) == Step(Accepted(p, n, far), c, n, far)
  {
    assert (p + [c])[..|p|] == p;
  }

  /** `filter_by_exclusivity` accepts exactly what the left-to-right scan accepts. */
  lemma ExclusiveIsAccepted(cands: seq<Candidate>, n: nat, far: Separation)
    ensures Exclusive(cands, n, far) == Accepted(cands, n, far)
  {
    var none: seq<Point> := [];
    var noCands: seq<Candidate> := [];
    var e := Exclusive(cands, n, far);
    ExclusiveIsScan(none, cands, n, far);
    EmptyAppend(e);
    assert e == Scan(none, cands, n, far);
    assert Accepted(noCands, n, far) == none;
    ScanIsAccepted(noCands, cands, n, far);
    EmptyAppend(cands);
    assert Scan(none, cands, n, far) == Accepted(cands, n, far);
  }

  // ---------------------------------------------------------------------------
  // Properties of the selection

  /** At most `n` points, and no more than there are candidates. */
  lemma {:induction false} AcceptedBound(cands: seq<Candidate>, n: nat, far: Separation)
    ensures |Accepted(cands, n, far)| <= n && |Accepted(cands, n, far)| <= |cands|
    decreases |cands|
  {
    if |cands| > 0 {
      AcceptedBound(cands[..|cands| - 1], n, far);
    }
  }

  /** Each point is left standing by every point before it. */
  predicate PairwiseSeparated(pts: seq<Point>, far: Separation)
  {
    forall i, j :: 0 <= i < j < |pts| ==> far(pts[i], pts[j])
  }

  /** Every accepted point is the point of one of the candidates. */
  lemma {:induction false} AcceptedFromCandidates(cands: seq<Candidate>, n: nat, far: Separation)
    ensures forall q :: q in Accepted(cands, n, far) ==> exists k :: 0 <= k < |cands| && cands[k].p == q
    decreases |cands|
  {
    if |cands| > 0 {
      var init := cands[..|cands| - 1];
      AcceptedFromCandidates(init, n, far);
      forall q | q in Accepted(cands, n, far) ensures exists k :: 0 <= k < |cands| && cands[k].p == q {
        if q in Accepted(init, n, far) {
          var k :| 0 <= k < |init| && init[k].p == q;
          assert cands[k].p == q;
        } else {
          assert cands[|cands| - 1].p == q;
        }
      }
    }
  }

  /** Every accepted point is beyond the radius of every point accepted before it. */
  lemma {:induction false} AcceptedSeparated(cands: seq<Candidate>, n: nat, far: Separation)
    ensures PairwiseSeparated(Accepted(cands, n, far), far)
    decreases |cands|
  {
    if |cands| > 0 {
      var prev := Accepted(cands[..|cands| - 1], n, far);
      AcceptedSeparated(cands[..|cands| - 1], n, far);
      var res := Accepted(cands, n, far);
      forall i, j | 0 <= i < j < |res| ensures far(res[i], res[j]) {
        if j < |prev| {
          assert res[i] == prev[i] && res[j] == prev[j];
          assert far(prev[i], prev[j]);
        } else {
          var last := cands[|cands| - 1];
          assert res == prev + [last.p] && FarFromAll(prev, last.p, far);
          assert res[i] == prev[i] && res[j] == last.p;
          assert far(prev[i], last.p);
        }
      }
    }
  }

  /** What is accepted from a prefix of the candidates is a prefix of the result. */
  lemma {:induction false} AcceptedPrefix(cands: seq<Candidate>, k: nat, n: nat, far: Separation)
    requires k <= |cands|
    ensures Accepted(cands[..k], n, far) <= Accepted(cands, n, far)
    decreases |cands| - k
  {
    if k < |cands| {
      var init := cands[..|cands| - 1];
      assert init[..k] == cands[..k];
      AcceptedPrefix(init, k, n, far);
    } else {
      assert cands[..k] == cands;
    }
  }

  /** Candidate `k` is either the next accepted point, or it is skipped
    * because `n` points were already accepted or because it lies within
    * the radius of a point accepted before it. */
  lemma AcceptedOrCovered(cands: seq<Candidate>, k: nat, n: nat, far: Separation)
    requires k < |cands|
    ensures var pre := Accepted(cands[..k], n, far);
      var res := Accepted(cands, n, far);
      pre <= res &&
      ((|pre| < n && FarFromAll(pre, cands[k].p, far) && |res| > |pre| && res[|pre|] == cands[k].p) ||
       (Accepted(cands[..k + 1], n, far) == pre &&
        (|pre| >= n || exists j :: 0 <= j < |pre| && !far(res[j], cands[k].p))))
  {
    var pre := Accepted(cands[..k], n, far);
    assert cands[..k + 1][..k] == cands[..k];
    AcceptedPrefix(cands, k, n, far);
    AcceptedPrefix(cands, k + 1, n, far);
    var res := Accepted(cands, n, far);
    if !(|pre| < n && FarFromAll(pre, cands[k].p, far)) && |pre| < n {
      var j :| 0 <= j < |pre| && !far(pre[j], cands[k].p);
      assert res[j] == pre[j];
    }
  }

  /** The first candidate is always accepted when `n` is at least one. */
  lemma FirstAccepted(cands: seq<Candidate>, n: nat, far: Separation)
    requires n >= 1 && |cands| >= 1
    ensures |Accepted(cands, n, far)| >= 1 && Accepted(cands, n, far)[0] == cands[0].p
  {
    AcceptedOrCovered(cands, 0, n, far);
  }

  /** Fewer than `n` accepted means every candidate was accepted or lies
    * within the radius of an accepted point: the candidates ran out. */
  lemma ShortOnlyWhenExhausted(cands: seq<Candidate>, n: nat, far: Separation, k: nat)
    requires k < |cands| && |Accepted(cands, n, far)| < n
    ensures var res := Accepted(cands, n, far);
      cands[k].p in res || exists j :: 0 <= j < |res| && !far(res[j], cands[k].p)
  {
    AcceptedOrCovered(cands, k, n, far);
    var res := Accepted(cands, n, far);
    var pre := Accepted(cands[..k], n, far);
    if |pre| < n && FarFromAll(pre, cands[k].p, far) && |res| > |pre| && res[|pre|] == cands[k].p {
      assert cands[k].p in res;
    }
  }
}
