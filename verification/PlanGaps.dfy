/** What simplification does to the geometry: how far a kept step sets out from where the one before
    it ends, and how far from the target a simplified plan may end. */
module PlanGaps {
  import opened Motion
  import opened PlanSpec
  import opened PlanShape
  import opened PlanSymmetry
  import opened PlanTheorems
  import opened PlanSimplify

  /** Where step i ends; a rotation, and the start as step -1, at the pose p. */
  function EndOf(p: Pose, steps: seq<SubPath>, i: int): Pose
    requires -1 <= i < |steps|
  {
    if i == -1 || IsRotation(steps[i]) then p else steps[i].target
  }

  /** The distance from a to b is at most m. */
  predicate Within(a: Pose, b: Pose, m: nat)
  {
    Square(a.x - b.x) + Square(a.y - b.y) <= Square(m)
  }

  /** A distance that is at most 200 mm once truncated is below 201 mm. */
  const DROPPED := NEAR + 1

  // The triangle inequality -------------------------------------------------------------------

  lemma Lagrange(a: int, b: int, c: int, d: int)
    ensures Square(a * c + b * d) + Square(a * d - b * c) == (Square(a) + Square(b)) * (Square(c) + Square(d))
  {
    SquareOfProduct(a, c);
    SquareOfProduct(b, d);
    SquareOfProduct(a, d);
    SquareOfProduct(b, c);
    assert (a * c) * (b * d) == (a * d) * (b * c);
    CrossTermsCancel(a * c, b * d, a * d, b * c, Square(a), Square(b), Square(c), Square(d));
  }

  lemma SquareOfProduct(a: int, b: int)
    ensures Square(a * b) == Square(a) * Square(b)
  {
  }

  lemma CrossTermsCancel(ac: int, bd: int, ad: int, bc: int, aa: int, bb: int, cc: int, dd: int)
    requires ac * bd == ad * bc
    requires Square(ac) == aa * cc && Square(bd) == bb * dd && Square(ad) == aa * dd && Square(bc) == bb * cc
    ensures Square(ac + bd) + Square(ad - bc) == (aa + bb) * (cc + dd)
  {
  }

  lemma ProductBound(x: nat, y: nat, m: nat, n: nat)
    requires x <= m && y <= n
    ensures x * y <= m * n
  {
    assert x * y <= m * y <= m * n;
  }

  /** The scalar product of two vectors is at most the product of their lengths. */
  lemma DotBound(a: int, b: int, c: int, d: int, m: nat, n: nat)
    requires Square(a) + Square(b) <= Square(m) && Square(c) + Square(d) <= Square(n)
    ensures a * c + b * d <= m * n
  {
    var dot := a * c + b * d;
    Lagrange(a, b, c, d);
    ProductBound(Square(a) + Square(b), Square(c) + Square(d), Square(m), Square(n));
    SquaredProduct(m, n);
    if dot > 0 {
      SquareOrder(dot, m * n);
    }
  }

  lemma SquaredProduct(m: nat, n: nat)
    ensures Square(m) * Square(n) == Square(m * n)
  {
  }

  lemma VectorSum(a: int, b: int, c: int, d: int, m: nat, n: nat)
    requires Square(a) + Square(b) <= Square(m) && Square(c) + Square(d) <= Square(n)
    ensures Square(a + c) + Square(b + d) <= Square(m + n)
  {
    DotBound(a, b, c, d, m, n);
  }

  lemma ShortDistance(a: Pose, b: Pose)
    requires Distance(a, b) <= NEAR
    ensures Within(a, b, DROPPED)
  {
    var n := Square(a.x - b.x) + Square(a.y - b.y);
    ISqrtSpec(n);
    ProductBound(ISqrt(n) + 1, ISqrt(n) + 1, DROPPED, DROPPED);
  }

  // Dropped steps -----------------------------------------------------------------------------

  /** A step that simplification drops is a short one: it ends near where the step before it does. */
  lemma DroppedIsShort(p: Pose, steps: seq<SubPath>, needStop: bool, i: nat)
    requires i < |steps| && !IsKept(p, steps, needStop, i)
    requires forall k :: 0 < k < |steps| ==> !IsRotation(steps[k])
    ensures Within(EndOf(p, steps, i - 1), EndOf(p, steps, i), DROPPED)
  {
    ShortDistance(EndOf(p, steps, i - 1), steps[i].target);
  }

  /** When the steps from a + 1 to b are dropped, b ends near where a ends. */
  lemma {:induction false} DroppedRun(p: Pose, steps: seq<SubPath>, needStop: bool, a: int, b: int)
    requires -1 <= a <= b < |steps|
    requires forall i :: a < i <= b ==> !IsKept(p, steps, needStop, i)
    requires forall i :: 0 < i < |steps| ==> !IsRotation(steps[i])
    ensures Within(EndOf(p, steps, a), EndOf(p, steps, b), (b - a) * DROPPED)
    decreases b - a
  {
    if a < b {
      DroppedRun(p, steps, needStop, a, b - 1);
      DroppedIsShort(p, steps, needStop, b);
      var from, mid, to := EndOf(p, steps, a), EndOf(p, steps, b - 1), EndOf(p, steps, b);
      VectorSum(from.x - mid.x, from.y - mid.y, mid.x - to.x, mid.y - to.y, (b - 1 - a) * DROPPED, DROPPED);
    }
  }

  /** The kept positions in front of and behind the gap number j, -1 and n at the ends. */
  function Before(at: seq<nat>, j: nat): int
    requires j <= |at|
  {
    if j == 0 then -1 else at[j - 1]
  }

  function Behind(at: seq<nat>, j: nat, n: nat): int
    requires j <= |at|
  {
    if j == |at| then n else at[j]
  }

  predicate Ascending(at: seq<nat>)
  {
    forall i, j :: 0 <= i < j < |at| ==> at[i] < at[j]
  }

  lemma NotInGap(at: seq<nat>, j: nat, n: nat, i: nat)
    requires Ascending(at) && j <= |at| && Before(at, j) < i < Behind(at, j, n)
    ensures i !in at
  {
    forall k | 0 <= k < |at|
      ensures at[k] != i
    {
      assert k < j ==> at[k] <= Before(at, j);
      assert k >= j ==> Behind(at, j, n) <= at[k];
    }
  }

  /** at are the positions of the kept steps. */
  ghost predicate AreKept(p: Pose, steps: seq<SubPath>, needStop: bool, at: seq<nat>)
  {
    && Ascending(at)
    && (forall k :: 0 <= k < |at| ==> at[k] < |steps|)
    && forall i :: 0 <= i < |steps| ==> (i in at <==> IsKept(p, steps, needStop, i))
  }

  /** Across each gap between kept steps the simplified plan jumps at most 201 mm per step dropped
      in it: from the end of the kept step in front, or the pose, to the start of the kept step
      behind, or the end of the plan. */
  ghost predicate NearlyJoins(p: Pose, steps: seq<SubPath>, at: seq<nat>)
  {
    forall j :: 0 <= j <= |at| ==>
      var before, behind := Before(at, j), Behind(at, j, |steps|);
      && -1 <= before < behind <= |steps|
      && Within(EndOf(p, steps, before), EndOf(p, steps, behind - 1), (behind - 1 - before) * DROPPED)
  }

  lemma KeptStepsNearlyJoin(p: Pose, steps: seq<SubPath>, needStop: bool, at: seq<nat>)
    requires forall i :: 0 < i < |steps| ==> !IsRotation(steps[i])
    requires AreKept(p, steps, needStop, at)
    ensures NearlyJoins(p, steps, at)
  {
    forall j | 0 <= j <= |at|
      ensures -1 <= Before(at, j) < Behind(at, j, |steps|) <= |steps|
      ensures Within(EndOf(p, steps, Before(at, j)), EndOf(p, steps, Behind(at, j, |steps|) - 1),
                     (Behind(at, j, |steps|) - 1 - Before(at, j)) * DROPPED)
    {
      GapIsShort(p, steps, needStop, at, j, Before(at, j), Behind(at, j, |steps|));
    }
  }

  lemma GapIsShort(p: Pose, steps: seq<SubPath>, needStop: bool, at: seq<nat>, j: nat, before: int, behind: int)
    requires forall i :: 0 < i < |steps| ==> !IsRotation(steps[i])
    requires AreKept(p, steps, needStop, at) && j <= |at|
    requires before == Before(at, j) && behind == Behind(at, j, |steps|) && -1 <= before < behind <= |steps|
    ensures Within(EndOf(p, steps, before), EndOf(p, steps, behind - 1), (behind - 1 - before) * DROPPED)
  {
    forall i | before < i <= behind - 1
      ensures !IsKept(p, steps, needStop, i)
    {
      NotInGap(at, j, |steps|, i);
    }
    DroppedRun(p, steps, needStop, before, behind - 1);
  }

  lemma IndicesAreKept(p: Pose, steps: seq<SubPath>, needStop: bool)
    ensures AreKept(p, steps, needStop, KeptIndices(p, steps, needStop, |steps|))
  {
    KeptIndicesExact(p, steps, needStop, |steps|);
    var at := KeptIndices(p, steps, needStop, |steps|);
    assert forall k :: 0 <= k < |at| ==> at[k] in at;
  }

  /** Where the car ends: at most 201 mm per step dropped behind the last kept one away from the
      target, and at it when the car has to stop precisely. */
  ghost predicate EndsNear(p: Pose, steps: seq<SubPath>, needStop: bool, at: seq<nat>)
  {
    && at != [] && at[|at| - 1] < |steps|
    && Within(EndOf(p, steps, at[|at| - 1]), ORIGIN, (|steps| - 1 - at[|at| - 1]) * DROPPED)
    && (needStop ==> at[|at| - 1] == |steps| - 1)
  }

  lemma LastKept(p: Pose, steps: seq<SubPath>, needStop: bool, at: seq<nat>, i: nat)
    requires AreKept(p, steps, needStop, at) && NearlyJoins(p, steps, at)
    requires i < |steps| && IsKept(p, steps, needStop, i)
    requires var last := steps[|steps| - 1]; !IsRotation(last) && last.target.x == last.target.y == 0
    ensures EndsNear(p, steps, needStop, at)
  {
    assert i in at;
    var j := |at|;
    assert Before(at, j) == at[|at| - 1] && Behind(at, j, |steps|) == |steps|;
    if needStop {
      assert |steps| - 1 in at;
      var k :| 0 <= k < |at| && at[k] == |steps| - 1;
      assert k == |at| - 1;
    }
  }

  lemma EndsAtTarget(t: Trig, dir: Direction, r: nat, p: Pose, steps: seq<SubPath>)
    requires 0.0 <= p.angle < 360.0 && r >= MIN_TURNING_RADIUS && TrigLaws(t) && !Passed(dir, p.x)
    requires steps == Steps(t, dir, r, p)
    ensures forall i :: 0 < i < |steps| ==> !IsRotation(steps[i])
    ensures steps != [] && var last := steps[|steps| - 1]; !IsRotation(last) && last.target.x == last.target.y == 0
  {
    KindsAndShape(t, dir, r, p, steps);
    KindsEnd(dir, Upright(p), p, steps);
  }

  lemma KindsAndShape(t: Trig, dir: Direction, r: nat, p: Pose, steps: seq<SubPath>)
    requires 0.0 <= p.angle < 360.0 && r >= MIN_TURNING_RADIUS && TrigLaws(t) && !Passed(dir, p.x)
    requires steps == Steps(t, dir, r, p)
    ensures Kinds(dir, steps) && Shaped(dir, Upright(p), Unmirrored(p, steps))
  {
    StepsKinds(t, dir, r, p);
    PlanShaped(t, dir, r, p);
  }

  lemma KindsEnd(dir: Direction, up: Pose, p: Pose, steps: seq<SubPath>)
    requires Kinds(dir, steps) && Shaped(dir, up, Unmirrored(p, steps))
    ensures forall i :: 0 < i < |steps| ==> !IsRotation(steps[i])
    ensures steps != [] && var last := steps[|steps| - 1]; !IsRotation(last) && last.target.x == last.target.y == 0
  {
    LastStep(dir, up, p, steps);
  }

  lemma LastStep(dir: Direction, up: Pose, p: Pose, steps: seq<SubPath>)
    requires steps != [] && Shaped(dir, up, Unmirrored(p, steps))
    ensures var last := steps[|steps| - 1]; last.target.x == last.target.y == 0
  {
    ShapedKindAt(dir, up, Unmirrored(p, steps), 0);
  }

  /** Every plan of more than one step: its kept steps nearly join, and it ends near the target. */
  lemma SimplifiedPlanNearlyJoins(t: Trig, dir: Direction, r: nat, p: Pose, needStop: bool, steps: seq<SubPath>)
    requires 0.0 <= p.angle < 360.0 && r >= MIN_TURNING_RADIUS && TrigLaws(t) && !Passed(dir, p.x)
    requires steps == Steps(t, dir, r, p) && |steps| > 1
    ensures NearlyJoins(p, steps, KeptIndices(p, steps, needStop, |steps|))
    ensures EndsNear(p, steps, needStop, KeptIndices(p, steps, needStop, |steps|))
  {
    EndsAtTarget(t, dir, r, p, steps);
    var i := SomeStepIsKept(t, dir, r, p, needStop);
    KeptJoinAndEnd(p, steps, needStop, i);
  }

  lemma KeptJoinAndEnd(p: Pose, steps: seq<SubPath>, needStop: bool, i: nat)
    requires forall k :: 0 < k < |steps| ==> !IsRotation(steps[k])
    requires i < |steps| && IsKept(p, steps, needStop, i)
    requires var last := steps[|steps| - 1]; !IsRotation(last) && last.target.x == last.target.y == 0
    ensures NearlyJoins(p, steps, KeptIndices(p, steps, needStop, |steps|))
    ensures EndsNear(p, steps, needStop, KeptIndices(p, steps, needStop, |steps|))
  {
    var at := KeptIndices(p, steps, needStop, |steps|);
    IndicesAreKept(p, steps, needStop);
    KeptStepsNearlyJoin(p, steps, needStop, at);
    LastKept(p, steps, needStop, at, i);
  }
}
