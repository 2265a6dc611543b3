/** The numbers a plan is made with: the radius, the distance of each step and its speed. */
module PlanChoices {
  import opened Motion
  import opened PlanSpec
  import opened PlanGaps

  // The radius ------------------------------------------------------------------------------------

  /** The car heads across the target line, within 20 degrees. */
  predicate Across(p: Pose)
  {
    70.0 <= p.angle <= 110.0 || 250.0 <= p.angle <= 290.0
  }

  /** The circle is at least as large as the way along the line, 400 mm short of the target, and the
      car is further off the line than that. */
  predicate Steep(circleRadius: int, p: Pose)
  {
    circleRadius >= Abs(p.x) - 400 && Abs(p.y) > Abs(p.x) - 400
  }

  /** Forwards the plan has the radius of the circle if and only if the car does not head across the
      line, the circle is between one and four metres, and the pose is not steep; then 2800 is taken.
      Heading across it has the configured one, if that is at least a metre. */
  lemma RadiusOfCircle(circleRadius: int, saved: int, p: Pose)
    ensures var r := Radius(Forward, circleRadius, saved, p);
            if Across(p) then (r == saved <==> saved >= 1000) && (saved < 1000 ==> r == 1000)
            else
              && (r == circleRadius <==>
                    1000 <= circleRadius <= 4000 && (Steep(circleRadius, p) ==> circleRadius == 2800))
              && (Steep(circleRadius, p) ==> r == 2800)
              && (!Steep(circleRadius, p) && circleRadius > 4000 ==> r == 4000)
              && (!Steep(circleRadius, p) && circleRadius < 1000 ==> r == 1000)
  {
  }

  // Distances -------------------------------------------------------------------------------------

  /** The distance of a step is measured from where the car stands when it begins, truncated; a
      rotation has none. */
  lemma DistanceOfStep(p: Pose, steps: seq<SubPath>, i: nat)
    requires i < |steps| && forall k :: 0 < k < |steps| ==> !IsRotation(steps[k])
    ensures var d, from, to := StepDistance(p, steps, i), EndOf(p, steps, i - 1), EndOf(p, steps, i);
            if IsRotation(steps[i]) then d == 0
            else d * d <= Square(from.x - to.x) + Square(from.y - to.y) < (d + 1) * (d + 1)
  {
    var from, to := EndOf(p, steps, i - 1), EndOf(p, steps, i);
    ISqrtSpec(Square(from.x - to.x) + Square(from.y - to.y));
    if !IsRotation(steps[i]) {
      DistanceFromEnd(p, steps, i);
    }
  }

  lemma DistanceFromEnd(p: Pose, steps: seq<SubPath>, i: nat)
    requires i < |steps| && !IsRotation(steps[i]) && forall k :: 0 < k < |steps| ==> !IsRotation(steps[k])
    ensures StepDistance(p, steps, i) == Distance(EndOf(p, steps, i - 1), EndOf(p, steps, i))
  {
  }

  // Speeds ----------------------------------------------------------------------------------------

  /** The speed rises with the distance, from 150 up to 500 mm to 1500 beyond 7 m, and never above what
      is allowed. */
  lemma SpeedRises(near: int, far: int, maxSpeed: int)
    requires near <= far
    ensures TargetSpeed(near, maxSpeed) <= TargetSpeed(far, maxSpeed) <= maxSpeed
    ensures near <= 500 ==> TargetSpeed(near, maxSpeed) == if maxSpeed < 150 then maxSpeed else 150
    ensures far > 7000 ==> TargetSpeed(far, maxSpeed) == if maxSpeed < 1500 then maxSpeed else 1500
  {
  }

  /** As far as it is allowed, the speed tells how long the step is. */
  lemma SpeedTells(distance: int, maxSpeed: int)
    requires maxSpeed >= 1500
    ensures var v := TargetSpeed(distance, maxSpeed);
            && (v >= 300 <==> distance > 500) && (v >= 500 <==> distance > 2000) && (v >= 1000 <==> distance > 3000)
            && (v >= 1300 <==> distance > 5000) && (v >= 1500 <==> distance > 7000)
    ensures TargetSpeed(distance, maxSpeed) in {150, 300, 500, 1000, 1300, 1500}
  {
  }

  /** Braking at 169 mm/s^2 stops the car within the distance, for every step of more than 500 mm. */
  lemma StopsWithin(distance: int, maxSpeed: int)
    requires distance > 500 && maxSpeed >= 0
    ensures var v := TargetSpeed(distance, maxSpeed); 0 <= v && v * v <= 2 * 169 * distance
  {
    var v := TargetSpeed(distance, maxSpeed);
    SquareMonotone(v, if distance > 7000 then 1500 else if distance > 5000 then 1300 else if distance > 3000 then 1000
                      else if distance > 2000 then 500 else 300);
  }
}
