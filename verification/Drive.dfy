/**
 The drive loop's geometry: the velocity controller of the motion service, its clamp, the
 simulator's clamp and pose integration, and why the droid gets to its goal.

 Arithmetic is over the reals. The trigonometric functions are parameters, known only
 through the laws in `Lawful`.
 */
module Drive {
  import opened Orbits

  datatype Trig = Trig(pi: real, sin: real -> real, cos: real -> real, atan2: (real, real) -> real, hypot: (real, real) -> real) {

    predicate DifferenceLaw(a: real, b: real) {
      cos(a - b) == cos(a) * cos(b) + sin(a) * sin(b)
    }

    predicate PeriodLaw(a: real, k: int) {
      cos(a + 2.0 * pi * (k as real)) == cos(a)
    }

    predicate UnitLaw(a: real) {
      cos(a) * cos(a) + sin(a) * sin(a) == 1.0
    }

    predicate CosineBound(a: real) {
      cos(a) >= 1.0 - a * a / 2.0
    }

    predicate NormLaw(x: real, y: real) {
      hypot(x, y) >= 0.0 && hypot(x, y) * hypot(x, y) == x * x + y * y
    }

    predicate PolarLaw(x: real, y: real) {
      x == hypot(x, y) * cos(atan2(y, x)) && y == hypot(x, y) * sin(atan2(y, x))
    }

    /** The facts about plane trigonometry that the argument rests on. */
    ghost predicate Lawful() {
      && pi > 3.0
      && (forall a, b :: DifferenceLaw(a, b))
      && (forall a, k :: PeriodLaw(a, k))
      && (forall a :: UnitLaw(a))
      && (forall a :: CosineBound(a))
      && (forall x, y :: NormLaw(x, y))
      && (forall x, y :: PolarLaw(x, y))
    }
  }

  datatype Pose = Pose(x: real, y: real, theta: real)

  datatype Velocity = Velocity(linearX: real, linearY: real, angularZ: real)

  /** A body's speed limits; zero means the limit is not given. */
  datatype Body = Body(maxLinear: real, maxSpeed: real, maxAngular: real, omni: bool) {

    predicate Sane() {
      maxLinear >= 0.0 && maxSpeed >= 0.0 && maxAngular >= 0.0
    }

    function MaxLin(): (m: real)
      ensures Sane() ==> m > 0.0
    {
      if maxLinear != 0.0 then maxLinear else if maxSpeed != 0.0 then maxSpeed else 0.3
    }

    function MaxAng(): (m: real)
      ensures Sane() ==> m > 0.0
    {
      if maxAngular != 0.0 then maxAngular else 0.8
    }
  }

  const DRIVE_DT := 0.1
  const ARRIVAL_M := 0.15
  const MAX_DRIVE_TICKS := 3000
  const ALIGNED_RAD := 0.3

  function Abs(r: real): real { if r < 0.0 then -r else r }

  function Min(a: real, b: real): real { if a <= b then a else b }

  function Max(a: real, b: real): real { if a >= b then a else b }

  function Clamp(v: real, limit: real): real {
    Max(-limit, Min(limit, v))
  }

  // ----- angles

  /** (a + pi) % (2 * pi) - pi, with Python's flooring remainder. */
  function Wrap(t: Trig, a: real): real
    requires t.pi > 0.0
  {
    (a + t.pi) - 2.0 * t.pi * (((a + t.pi) / (2.0 * t.pi)).Floor as real) - t.pi
  }

  lemma FloorIs(x: real, k: int)
    requires k as real <= x < k as real + 1.0
    ensures x.Floor == k
  {
  }

  lemma DivScale(x: real, m: real, f: real)
    requires m > 0.0 && x == m * f
    ensures x / m == f
  {
  }

  lemma UnitFraction(x: real, m: real)
    requires 0.0 <= x < m
    ensures 0.0 <= x / m < 1.0 && x == m * (x / m)
  {
  }

  /** What a flooring remainder leaves. */
  lemma FloorRemainder(x: real, m: real)
    requires m > 0.0
    ensures 0.0 <= x - m * ((x / m).Floor as real) < m
  {
    var q := x / m;
    assert x == m * q;
    Remainder(x, m, q, q.Floor as real);
  }

  lemma Remainder(x: real, m: real, q: real, whole: real)
    requires m > 0.0 && x == m * q && 0.0 <= q - whole < 1.0
    ensures 0.0 <= x - m * whole < m
  {
    var gap := 1.0 - q + whole;
    Positive(m, gap);
    assert m * gap == m - x + m * whole;
    NonNegative(m, q - whole);
    assert m * (q - whole) == x - m * whole;
  }

  /** The wrapped angle differs by whole turns and lies in [-pi, pi). */
  lemma WrapRange(t: Trig, a: real) returns (k: int)
    requires t.pi > 0.0
    ensures Wrap(t, a) == a + 2.0 * t.pi * (k as real)
    ensures -t.pi <= Wrap(t, a) < t.pi
  {
    var m := 2.0 * t.pi;
    var n := ((a + t.pi) / m).Floor;
    k := -n;
    FloorRemainder(a + t.pi, m);
    Negate(m, n);
  }

  lemma Negate(m: real, n: int)
    ensures m * ((-n) as real) == -(m * (n as real))
  {
  }

  /** It is the only such angle. */
  lemma WrapUnique(t: Trig, a: real, b: real, k: int)
    requires t.pi > 0.0 && -t.pi <= b < t.pi && b == a + 2.0 * t.pi * (k as real)
    ensures Wrap(t, a) == b
  {
    var m := 2.0 * t.pi;
    var f := (b + t.pi) / m;
    UnitFraction(b + t.pi, m);
    assert m * (f - k as real) == m * f - m * (k as real);
    DivScale(a + t.pi, m, f - k as real);
    FloorIs(f - k as real, -k);
    Negate(m, k);
  }

  /** Wrapping an operand first changes nothing. */
  lemma WrapAdd(t: Trig, a: real, b: real)
    requires t.pi > 0.0
    ensures Wrap(t, a - Wrap(t, b)) == Wrap(t, a - b)
  {
    var k1 := WrapRange(t, b);
    var k2 := WrapRange(t, a - b);
    WrapTurns(t, a - Wrap(t, b), Wrap(t, a - b), k2, k1);
  }

  lemma WrapTurns(t: Trig, a: real, b: real, k2: int, k1: int)
    requires t.pi > 0.0 && -t.pi <= b < t.pi
    requires b == a + 2.0 * t.pi * (k1 as real) + 2.0 * t.pi * (k2 as real)
    ensures Wrap(t, a) == b
  {
    assert (k1 + k2) as real == k1 as real + k2 as real;
    assert 2.0 * t.pi * ((k1 + k2) as real) == 2.0 * t.pi * (k1 as real) + 2.0 * t.pi * (k2 as real);
    WrapUnique(t, a, b, k1 + k2);
  }

  // ----- the controller and the plant

  function Distance(t: Trig, goal: Pose, cur: Pose): real {
    t.hypot(goal.x - cur.x, goal.y - cur.y)
  }

  function YawError(t: Trig, goal: Pose, cur: Pose): real
    requires t.pi > 0.0
  {
    Wrap(t, t.atan2(goal.y - cur.y, goal.x - cur.x) - cur.theta)
  }

  /** The body velocity toward a goal: turn first, advance once roughly aligned, ease in near it. */
  function VelocityToward(t: Trig, body: Body, goal: Pose, cur: Pose): Velocity
    requires t.pi > 0.0
  {
    var distance, err := Distance(t, goal, cur), YawError(t, goal, cur);
    var angular := Clamp(2.0 * err, body.MaxAng());
    var linear := if Abs(err) < ALIGNED_RAD then body.MaxLin() else 0.0;
    var eased := if distance < body.MaxLin() then Min(linear, distance) else linear;
    Velocity(eased, 0.0, angular)
  }

  /** The motion service's clamp; sideways motion is for omnidirectional bodies only. */
  function MotionClamp(body: Body, v: Velocity): Velocity {
    Velocity(Clamp(v.linearX, body.MaxLin()),
             if body.omni then Clamp(v.linearY, body.MaxLin()) else 0.0,
             Clamp(v.angularZ, body.MaxAng()))
  }

  /** The simulator's own clamp. */
  function PlantClamp(body: Body, v: Velocity): Velocity {
    Velocity(Clamp(v.linearX, body.MaxLin()), Clamp(v.linearY, body.MaxLin()), Clamp(v.angularZ, body.MaxAng()))
  }

  /** Kinematic integration of a body velocity, with the heading held over the step. */
  function Integrate(t: Trig, p: Pose, v: Velocity, dt: real): Pose
    requires t.pi > 0.0
  {
    Pose(p.x + (v.linearX * t.cos(p.theta) - v.linearY * t.sin(p.theta)) * dt,
         p.y + (v.linearX * t.sin(p.theta) + v.linearY * t.cos(p.theta)) * dt,
         Wrap(t, p.theta + v.angularZ * dt))
  }

  /** One powered tick of the drive loop. */
  function Tick(t: Trig, body: Body, goal: Pose, cur: Pose): Pose
    requires t.pi > 0.0
  {
    Integrate(t, cur, PlantClamp(body, MotionClamp(body, VelocityToward(t, body, goal, cur))), DRIVE_DT)
  }

  /** Both clamps pass the controller's command through unchanged. */
  lemma ClampsPass(t: Trig, body: Body, goal: Pose, cur: Pose)
    requires t.Lawful() && body.Sane()
    ensures var v := VelocityToward(t, body, goal, cur);
            PlantClamp(body, MotionClamp(body, v)) == v && 0.0 <= v.linearX <= body.MaxLin() && v.linearY == 0.0
  {
    DistanceLaw(t, goal, cur);
  }

  lemma DistanceLaw(t: Trig, goal: Pose, cur: Pose)
    requires t.Lawful()
    ensures var dx, dy, d := goal.x - cur.x, goal.y - cur.y, Distance(t, goal, cur);
            d >= 0.0 && d * d == dx * dx + dy * dy
  {
    assert t.NormLaw(goal.x - cur.x, goal.y - cur.y);
  }

  /** Which limit applies: the given one, else the advertised speed, else 0.3 m/s; for turning the given one, else 0.8 rad/s. */
  lemma LimitsMean(body: Body)
    ensures body.maxLinear != 0.0 ==> body.MaxLin() == body.maxLinear
    ensures body.maxLinear == 0.0 && body.maxSpeed != 0.0 ==> body.MaxLin() == body.maxSpeed
    ensures body.maxLinear == 0.0 && body.maxSpeed == 0.0 ==> body.MaxLin() == 0.3
    ensures body.MaxAng() == if body.maxAngular == 0.0 then 0.8 else body.maxAngular
  {
  }

  /** The clamp gives the admissible value nearest to the asked one. */
  lemma ClampNearest(v: real, limit: real, w: real)
    requires limit >= 0.0 && -limit <= w <= limit
    ensures -limit <= Clamp(v, limit) <= limit && Abs(v - Clamp(v, limit)) <= Abs(v - w)
  {
  }

  /** Whatever is commanded, no speed leaves the motion service above its limit, sideways none at all unless the body can; what is within them passes both clamps. */
  lemma MotionClampMeans(body: Body, v: Velocity)
    requires body.Sane()
    ensures var c := MotionClamp(body, v);
            && Abs(c.linearX) <= body.MaxLin() && Abs(c.linearY) <= body.MaxLin() && Abs(c.angularZ) <= body.MaxAng()
            && (!body.omni ==> c.linearY == 0.0)
            && PlantClamp(body, c) == c
    ensures Abs(v.linearX) <= body.MaxLin() && Abs(v.linearY) <= body.MaxLin() && Abs(v.angularZ) <= body.MaxAng() && (body.omni || v.linearY == 0.0) ==>
              MotionClamp(body, v) == v
  {
  }

  /** A step of the plant: the velocity, turned by the heading, times the time, seen along the heading and across it. */
  lemma IntegrateMeans(t: Trig, p: Pose, v: Velocity, dt: real)
    requires t.Lawful()
    ensures var q := Integrate(t, p, v, dt);
            && (q.x - p.x) * t.cos(p.theta) + (q.y - p.y) * t.sin(p.theta) == v.linearX * dt
            && (q.y - p.y) * t.cos(p.theta) - (q.x - p.x) * t.sin(p.theta) == v.linearY * dt
  {
    var c, s := t.cos(p.theta), t.sin(p.theta);
    assert t.UnitLaw(p.theta);
    var a, b := v.linearX * dt, v.linearY * dt;
    Spread(v.linearX, v.linearY, c, s, dt);
    Turned(p, Integrate(t, p, v, dt), a, b, c, s);
  }

  /** In a tick the heading turns by a tenth of the angular velocity, up to whole turns. */
  lemma IntegrateTurns(t: Trig, p: Pose, v: Velocity) returns (k: int)
    requires t.pi > 0.0
    ensures Integrate(t, p, v, 0.1).theta == p.theta + 0.1 * v.angularZ + 2.0 * t.pi * (k as real)
  {
    k := WrapRange(t, p.theta + v.angularZ * 0.1);
  }

  lemma Turned(p: Pose, q: Pose, a: real, b: real, c: real, s: real)
    requires c * c + s * s == 1.0 && q.x == p.x + (a * c - b * s) && q.y == p.y + (a * s + b * c)
    ensures (q.x - p.x) * c + (q.y - p.y) * s == a && (q.y - p.y) * c - (q.x - p.x) * s == b
  {
    assert q.x - p.x == a * c - b * s && q.y - p.y == a * s + b * c;
    Rotation(a, b, c, s);
  }

  lemma Spread(x: real, y: real, c: real, s: real, dt: real)
    ensures (x * c - y * s) * dt == (x * dt) * c - (y * dt) * s && (x * s + y * c) * dt == (x * dt) * s + (y * dt) * c
  {
    assert (x * c) * dt == (x * dt) * c && (y * s) * dt == (y * dt) * s && (x * s) * dt == (x * dt) * s && (y * c) * dt == (y * dt) * c;
  }

  lemma Rotation(a: real, b: real, c: real, s: real)
    requires c * c + s * s == 1.0
    ensures (a * c - b * s) * c + (a * s + b * c) * s == a
    ensures (a * s + b * c) * c - (a * c - b * s) * s == b
  {
    assert (a * c - b * s) * c + (a * s + b * c) * s == a * (c * c + s * s);
    assert (a * s + b * c) * c - (a * c - b * s) * s == b * (c * c + s * s);
  }

  /** The controller's command by its numbers: twice the yaw error up to the limit; ahead only within 0.3 rad of it, slowing near the goal. */
  lemma CommandMeans(t: Trig, body: Body, goal: Pose, cur: Pose)
    requires t.Lawful() && body.Sane()
    ensures var v, e, d := VelocityToward(t, body, goal, cur), YawError(t, goal, cur), Distance(t, goal, cur);
            && v.linearY == 0.0
            && Abs(v.angularZ) == Min(2.0 * Abs(e), body.MaxAng()) && v.angularZ * e >= 0.0
            && v.linearX == if -0.3 < e < 0.3 then Min(body.MaxLin(), d) else 0.0
  {
    DistanceLaw(t, goal, cur);
    SameSign(YawError(t, goal, cur), body.MaxAng());
  }

  lemma SameSign(e: real, limit: real)
    requires limit > 0.0
    ensures Clamp(2.0 * e, limit) * e >= 0.0 && Abs(Clamp(2.0 * e, limit)) == Min(2.0 * Abs(e), limit)
  {
    var c := Clamp(2.0 * e, limit);
    if e >= 0.0 {
      NonNegative(c, e);
    } else {
      NonNegative(-c, -e);
      assert (-c) * (-e) == c * e;
    }
  }

  /** A tick of the loop moves the body for a tenth of a second. */
  lemma TickTime(t: Trig, body: Body, goal: Pose, cur: Pose)
    requires t.Lawful() && body.Sane()
    ensures Tick(t, body, goal, cur) == Integrate(t, cur, VelocityToward(t, body, goal, cur), 0.1)
  {
    ClampsPass(t, body, goal, cur);
  }

  // ----- turning

  /** On a turning tick the yaw error shrinks by exactly the commanded angle, and nothing else moves. */
  lemma TurnTick(t: Trig, body: Body, goal: Pose, cur: Pose)
    requires t.Lawful() && body.Sane() && Abs(YawError(t, goal, cur)) >= ALIGNED_RAD
    ensures var next := Tick(t, body, goal, cur);
            var e := YawError(t, goal, cur);
            && next.x == cur.x && next.y == cur.y && Distance(t, goal, next) == Distance(t, goal, cur)
            && YawError(t, goal, next) == e - DRIVE_DT * Clamp(2.0 * e, body.MaxAng())
            && Abs(YawError(t, goal, next)) == Abs(e) - DRIVE_DT * Min(2.0 * Abs(e), body.MaxAng())
  {
    ClampsPass(t, body, goal, cur);
    var v := VelocityToward(t, body, goal, cur);
    assert v.linearX == 0.0;
    var next := Tick(t, body, goal, cur);
    StandsStill(t, cur, v);
    var bearing := t.atan2(goal.y - cur.y, goal.x - cur.x);
    var e, turn := YawError(t, goal, cur), v.angularZ * DRIVE_DT;
    WrapAdd(t, bearing, cur.theta + turn);
    var k := WrapRange(t, bearing - cur.theta);
    assert -t.pi <= e - turn < t.pi;
    WrapUnique(t, bearing - (cur.theta + turn), e - turn, k);
  }

  lemma StandsStill(t: Trig, cur: Pose, v: Velocity)
    requires t.pi > 0.0 && v.linearX == 0.0 && v.linearY == 0.0
    ensures Integrate(t, cur, v, DRIVE_DT).x == cur.x && Integrate(t, cur, v, DRIVE_DT).y == cur.y
  {
    assert 0.0 * t.cos(cur.theta) == 0.0 && 0.0 * t.sin(cur.theta) == 0.0;
  }

  // ----- advancing

  lemma SquareOrder(a: real, b: real)
    requires a >= 0.0 && b >= 0.0 && a * a <= b * b
    ensures a <= b
  {
    assert (a - b) * (a + b) == a * a - b * b;
    if a > b {
      Positive(a - b, a + b);
    }
  }

  lemma NonNegative(x: real, y: real)
    requires x >= 0.0 && y >= 0.0
    ensures x * y >= 0.0
  {
  }

  lemma Positive(x: real, y: real)
    requires x > 0.0 && y > 0.0
    ensures x * y > 0.0
  {
  }

  /** Within 0.3 rad of the goal's direction, a short step brings nine tenths of its length. */
  lemma StepCloses(d: real, c: real, s: real, d': real)
    requires 0.0 <= s && 10.0 * s <= d && c >= 0.955 && d' >= 0.0
    requires ThirdSide(d, c, s, d')
    ensures d' <= d - 0.9 * s
  {
    var b := d - 0.9 * s;
    assert b * b == d * d - 1.8 * (s * d) + 0.81 * (s * s);
    assert s * d >= 0.0;
    assert d * c >= d * 0.955;
    assert s * (d * c) >= s * (d * 0.955);
    assert s * (10.0 * s) <= s * d;
    SquareOrder(d', b);
  }

  /** The heading error's cosine, from the coordinates. */
  lemma HeadingCosine(t: Trig, goal: Pose, cur: Pose)
    requires t.Lawful()
    ensures OffCourse(goal.x - cur.x, goal.y - cur.y, Distance(t, goal, cur), t.cos(cur.theta), t.sin(cur.theta), t.cos(YawError(t, goal, cur)))
  {
    var dx, dy, d := goal.x - cur.x, goal.y - cur.y, Distance(t, goal, cur);
    var bearing := t.atan2(dy, dx);
    CosineOfWrap(t, bearing - cur.theta);
    assert t.DifferenceLaw(bearing, cur.theta);
    assert t.PolarLaw(dx, dy);
    Project(d, dx, dy, t.cos(bearing), t.sin(bearing), t.cos(cur.theta), t.sin(cur.theta));
  }

  lemma CosineOfWrap(t: Trig, a: real)
    requires t.Lawful()
    ensures t.cos(Wrap(t, a)) == t.cos(a)
  {
    var k := WrapRange(t, a);
    Period(t, a, k);
    SameCosine(t, Wrap(t, a), a + 2.0 * t.pi * (k as real));
  }

  lemma Period(t: Trig, a: real, k: int)
    requires t.Lawful()
    ensures t.cos(a + 2.0 * t.pi * (k as real)) == t.cos(a)
  {
    assert t.PeriodLaw(a, k);
  }

  lemma SameCosine(t: Trig, x: real, y: real)
    requires x == y
    ensures t.cos(x) == t.cos(y)
  {
  }

  lemma Project(d: real, dx: real, dy: real, cb: real, sb: real, ch: real, sh: real)
    requires dx == d * cb && dy == d * sb
    ensures dx * ch + dy * sh == d * (cb * ch + sb * sh)
  {
    assert d * cb * ch == d * (cb * ch) && d * sb * sh == d * (sb * sh);
  }

  lemma AlignedCosine(t: Trig, e: real)
    requires t.Lawful() && Abs(e) < ALIGNED_RAD
    ensures t.cos(e) >= 0.955
  {
    assert t.CosineBound(e);
    SmallSquare(e);
  }

  lemma SmallSquare(e: real)
    requires -0.3 < e < 0.3
    ensures e * e <= 0.09
  {
    if e >= 0.0 {
      assert e * e <= e * 0.3;
    } else {
      assert (-e) * (-e) <= (-e) * 0.3;
      assert (-e) * (-e) == e * e;
    }
  }

  /** On an advancing tick the distance falls by at least nine tenths of the step. */
  lemma AdvanceTick(t: Trig, body: Body, goal: Pose, cur: Pose)
    requires t.Lawful() && body.Sane() && Abs(YawError(t, goal, cur)) < ALIGNED_RAD
    ensures var d := Distance(t, goal, cur);
            Distance(t, goal, Tick(t, body, goal, cur)) <= d - 0.9 * (DRIVE_DT * Min(body.MaxLin(), d))
  {
    var d, v := Distance(t, goal, cur), VelocityToward(t, body, goal, cur);
    ClampsPass(t, body, goal, cur);
    DistanceLaw(t, goal, cur);
    AlignedCosine(t, YawError(t, goal, cur));
    HeadingCosine(t, goal, cur);
    var s := DRIVE_DT * v.linearX;
    assert s == DRIVE_DT * Min(body.MaxLin(), d);
    var next := Integrate(t, cur, v, DRIVE_DT);
    StraightStep(t, goal, cur, v);
    StepToward(t, goal, cur, next, s, t.cos(YawError(t, goal, cur)));
  }

  // The plane geometry of a step, on named numbers.

  predicate Norm(dx: real, dy: real, d: real) {
    d >= 0.0 && d * d == dx * dx + dy * dy
  }

  predicate Unit(ch: real, sh: real) {
    ch * ch + sh * sh == 1.0
  }

  /** A heading (ch, sh) whose angle to the offset (dx, dy) of length d has cosine c. */
  predicate OffCourse(dx: real, dy: real, d: real, ch: real, sh: real, c: real) {
    dx * ch + dy * sh == d * c
  }

  predicate Moved(dx: real, dx': real, s: real, ch: real) {
    dx' == dx - s * ch
  }

  /** A straight step of length s, off course by an angle of cosine c. */
  lemma StepToward(t: Trig, goal: Pose, cur: Pose, next: Pose, s: real, c: real)
    requires t.Lawful() && c >= 0.955 && 0.0 <= s && 10.0 * s <= Distance(t, goal, cur)
    requires Moved(goal.x - cur.x, goal.x - next.x, s, t.cos(cur.theta)) && Moved(goal.y - cur.y, goal.y - next.y, s, t.sin(cur.theta))
    requires OffCourse(goal.x - cur.x, goal.y - cur.y, Distance(t, goal, cur), t.cos(cur.theta), t.sin(cur.theta), c)
    ensures Distance(t, goal, next) <= Distance(t, goal, cur) - 0.9 * s
  {
    NormOfOffset(t, goal, cur);
    NormOfOffset(t, goal, next);
    UnitHeading(t, cur.theta);
    Closer(Distance(t, goal, cur), Distance(t, goal, next), goal.x - cur.x, goal.y - cur.y, goal.x - next.x, goal.y - next.y,
           t.cos(cur.theta), t.sin(cur.theta), c, s);
  }

  lemma NormOfOffset(t: Trig, goal: Pose, cur: Pose)
    requires t.Lawful()
    ensures Norm(goal.x - cur.x, goal.y - cur.y, Distance(t, goal, cur))
  {
    DistanceLaw(t, goal, cur);
  }

  lemma UnitHeading(t: Trig, theta: real)
    requires t.Lawful()
    ensures Unit(t.cos(theta), t.sin(theta))
  {
    assert t.UnitLaw(theta);
  }

  /** The law of cosines, for the side left after a step of length s. */
  predicate ThirdSide(d: real, c: real, s: real, d': real) {
    d' * d' == d * d - 2.0 * s * (d * c) + s * s
  }

  lemma LawOfCosines(d: real, d': real, dx: real, dy: real, dx': real, dy': real, ch: real, sh: real, c: real, s: real)
    requires Norm(dx, dy, d) && Norm(dx', dy', d') && Unit(ch, sh)
    requires Moved(dx, dx', s, ch) && Moved(dy, dy', s, sh) && OffCourse(dx, dy, d, ch, sh, c)
    ensures ThirdSide(d, c, s, d')
  {
    SquareMoved(dx, dx', s, ch);
    SquareMoved(dy, dy', s, sh);
    assert s * s * (ch * ch) + s * s * (sh * sh) == s * s by {
      assert s * s * (ch * ch) + s * s * (sh * sh) == s * s * (ch * ch + sh * sh);
    }
    assert 2.0 * s * (dx * ch) + 2.0 * s * (dy * sh) == 2.0 * s * (dx * ch + dy * sh);
  }

  lemma SquareMoved(dx: real, dx': real, s: real, ch: real)
    requires Moved(dx, dx', s, ch)
    ensures dx' * dx' == dx * dx - 2.0 * s * (dx * ch) + s * s * (ch * ch)
  {
  }

  lemma Closer(d: real, d': real, dx: real, dy: real, dx': real, dy': real, ch: real, sh: real, c: real, s: real)
    requires Norm(dx, dy, d) && Norm(dx', dy', d') && Unit(ch, sh)
    requires Moved(dx, dx', s, ch) && Moved(dy, dy', s, sh)
    requires OffCourse(dx, dy, d, ch, sh, c) && c >= 0.955 && 0.0 <= s && 10.0 * s <= d
    ensures d' <= d - 0.9 * s
  {
    LawOfCosines(d, d', dx, dy, dx', dy', ch, sh, c, s);
    StepCloses(d, c, s, d');
  }

  lemma StraightStep(t: Trig, goal: Pose, cur: Pose, v: Velocity)
    requires t.pi > 0.0 && v.linearY == 0.0
    ensures var next := Integrate(t, cur, v, DRIVE_DT);
            var s := DRIVE_DT * v.linearX;
            && Moved(goal.x - cur.x, goal.x - next.x, s, t.cos(cur.theta))
            && Moved(goal.y - cur.y, goal.y - next.y, s, t.sin(cur.theta))
  {
    assert 0.0 * t.cos(cur.theta) == 0.0 && 0.0 * t.sin(cur.theta) == 0.0;
  }

  // ----- the whole loop

  /** The powered loop body, as a map from pose to pose. */
  function Loop(t: Trig, body: Body, goal: Pose): Pose -> Pose
    requires t.pi > 0.0
  {
    (p: Pose) => Tick(t, body, goal, p)
  }

  /** The pose after n powered ticks. */
  function Ticks(t: Trig, body: Body, goal: Pose, start: Pose, n: nat): Pose
    requires t.pi > 0.0
  {
    Iterate(Loop(t, body, goal), start, n)
  }

  /** The least a turning tick takes off the yaw error. */
  function TurnStep(body: Body): real {
    DRIVE_DT * Min(2.0 * ALIGNED_RAD, body.MaxAng())
  }

  /** The least an advancing tick takes off the distance before arrival. */
  function AdvanceStep(body: Body): real {
    0.9 * (DRIVE_DT * Min(body.MaxLin(), ARRIVAL_M))
  }

  /** The distance never grows, at any tick. */
  lemma DistanceFalls(t: Trig, body: Body, goal: Pose, cur: Pose)
    requires t.Lawful() && body.Sane()
    ensures Distance(t, goal, Tick(t, body, goal, cur)) <= Distance(t, goal, cur)
  {
    if Abs(YawError(t, goal, cur)) < ALIGNED_RAD {
      AdvanceTick(t, body, goal, cur);
      DistanceLaw(t, goal, cur);
    } else {
      TurnTick(t, body, goal, cur);
    }
  }

  lemma YawBound(t: Trig, goal: Pose, cur: Pose)
    requires t.pi > 0.0
    ensures Abs(YawError(t, goal, cur)) <= t.pi
  {
    var k := WrapRange(t, t.atan2(goal.y - cur.y, goal.x - cur.x) - cur.theta);
  }

  lemma TurnLeast(t: Trig, body: Body, goal: Pose, cur: Pose)
    requires t.Lawful() && body.Sane() && Abs(YawError(t, goal, cur)) >= ALIGNED_RAD
    ensures Abs(YawError(t, goal, Tick(t, body, goal, cur))) <= Abs(YawError(t, goal, cur)) - TurnStep(body)
    ensures Distance(t, goal, Tick(t, body, goal, cur)) == Distance(t, goal, cur)
  {
    TurnTick(t, body, goal, cur);
  }

  lemma AdvanceLeast(t: Trig, body: Body, goal: Pose, cur: Pose)
    requires t.Lawful() && body.Sane() && Abs(YawError(t, goal, cur)) < ALIGNED_RAD && Distance(t, goal, cur) > ARRIVAL_M
    ensures Distance(t, goal, Tick(t, body, goal, cur)) <= Distance(t, goal, cur) - AdvanceStep(body)
  {
    AdvanceTick(t, body, goal, cur);
  }

  lemma OneMore(n: nat, q: real)
    requires n > 0
    ensures (n as real) * q == ((n - 1) as real) * q + q
  {
    assert (n as real) == ((n - 1) as real) + 1.0;
  }

  // The loop as two measures, distance and absolute yaw error, and what a tick does to them.

  /** One tick: far from the goal, either an advance or a turn, each by at least its step. */
  predicate Steps(d: real, e: real, d': real, e': real, advance: real, turn: real, pi: real) {
    && d' <= d && e' <= pi
    && (d > ARRIVAL_M && e < ALIGNED_RAD ==> d' <= d - advance)
    && (e >= ALIGNED_RAD ==> e' <= e - turn)
  }

  lemma TickSteps(t: Trig, body: Body, goal: Pose, cur: Pose)
    requires t.Lawful() && body.Sane()
    ensures var next := Tick(t, body, goal, cur);
            Steps(Distance(t, goal, cur), Abs(YawError(t, goal, cur)), Distance(t, goal, next), Abs(YawError(t, goal, next)),
                  AdvanceStep(body), TurnStep(body), t.pi)
  {
    DistanceFalls(t, body, goal, cur);
    YawBound(t, goal, Tick(t, body, goal, cur));
    if Abs(YawError(t, goal, cur)) >= ALIGNED_RAD {
      TurnLeast(t, body, goal, cur);
    } else if Distance(t, goal, cur) > ARRIVAL_M {
      AdvanceLeast(t, body, goal, cur);
    }
  }

  /** What is left to do: distance dominates, and yaw error counts between advances. */
  function Work(d: real, e: real, advance: real, turn: real, pi: real): real {
    d * (pi + turn) + e * advance
  }

  /** Every tick far from the goal does the same minimum of work, whatever kind of tick it is. */
  lemma WorkShrinks(d: real, e: real, d': real, e': real, advance: real, turn: real, pi: real)
    requires Steps(d, e, d', e', advance, turn, pi) && d > ARRIVAL_M
    requires e >= 0.0 && advance >= 0.0 && turn >= 0.0 && pi >= 0.0
    ensures Work(d', e', advance, turn, pi) <= Work(d, e, advance, turn, pi) - advance * turn
  {
    if e < ALIGNED_RAD {
      Grows(d', d - advance, pi + turn);
      Grows(e', pi, advance);
      Expand(d, advance, pi, turn);
      NonNegative(e, advance);
      AdvanceBalance(d' * (pi + turn), e' * advance, d * (pi + turn), e * advance, advance * pi, advance * turn);
    } else {
      Grows(d', d, pi + turn);
      Grows(e', e - turn, advance);
      assert (e - turn) * advance == e * advance - advance * turn;
      TurnBalance(d' * (pi + turn), e' * advance, d * (pi + turn), e * advance, advance * turn);
    }
  }

  lemma Expand(d: real, a: real, pi: real, b: real)
    ensures (d - a) * (pi + b) == d * (pi + b) - a * pi - a * b
    ensures pi * a == a * pi
  {
  }

  lemma AdvanceBalance(d': real, e': real, d: real, e: real, lost: real, quantum: real)
    requires d' <= d - lost - quantum && e' <= lost && e >= 0.0
    ensures d' + e' <= d + e - quantum
  {
  }

  lemma TurnBalance(d': real, e': real, d: real, e: real, quantum: real)
    requires d' <= d && e' <= e - quantum
    ensures d' + e' <= d + e - quantum
  {
  }

  lemma Grows(x: real, y: real, m: real)
    requires x <= y && m >= 0.0
    ensures x * m <= y * m
  {
    assert (y - x) * m >= 0.0;
  }

  lemma NoWorkNoDistance(d: real, e: real, advance: real, turn: real, pi: real)
    requires d >= 0.0 && e >= 0.0 && advance >= 0.0 && turn >= 0.0 && pi > 0.0
    requires Work(d, e, advance, turn, pi) <= 0.0
    ensures d == 0.0
  {
    assert e * advance >= 0.0;
    if d > 0.0 {
      Positive(d, pi + turn);
    }
  }

  // Any loop whose ticks step the two measures, whatever the poses are.

  ghost predicate Steers(tick: Pose -> Pose, d: Pose -> real, e: Pose -> real, advance: real, turn: real, pi: real) {
    forall p :: d(p) >= 0.0 && e(p) >= 0.0 && Steps(d(p), e(p), d(tick(p)), e(tick(p)), advance, turn, pi)
  }

  lemma WorkDone(tick: Pose -> Pose, d: Pose -> real, e: Pose -> real, advance: real, turn: real, pi: real, p: Pose, quantum: real)
    requires Steers(tick, d, e, advance, turn, pi) && advance >= 0.0 && turn >= 0.0 && pi > 0.0 && quantum == advance * turn
    ensures d(p) > ARRIVAL_M ==> Work(d(tick(p)), e(tick(p)), advance, turn, pi) <= Work(d(p), e(p), advance, turn, pi) - quantum
    ensures Work(d(p), e(p), advance, turn, pi) <= 0.0 ==> d(p) <= ARRIVAL_M
  {
    assert d(p) >= 0.0 && e(p) >= 0.0;
    if d(p) > ARRIVAL_M {
      WorkShrinks(d(p), e(p), d(tick(p)), e(tick(p)), advance, turn, pi);
    }
    if Work(d(p), e(p), advance, turn, pi) <= 0.0 {
      NoWorkNoDistance(d(p), e(p), advance, turn, pi);
    }
  }

  /** A potential that every far tick lowers by a quantum runs out within its budget. */
  lemma PotentialRunsOut(tick: Pose -> Pose, w: Pose -> real, far: Pose -> bool, quantum: real, start: Pose, n: nat) returns (k: nat)
    requires forall p :: far(p) ==> w(tick(p)) <= w(p) - quantum
    requires forall p :: w(p) <= 0.0 ==> !far(p)
    requires w(start) <= (n as real) * quantum
    ensures k <= n && !far(Iterate(tick, start, k))
  {
    k := 0;
    while k < n && far(Iterate(tick, start, k))
      invariant 0 <= k <= n
      invariant w(Iterate(tick, start, k)) <= ((n - k) as real) * quantum
    {
      OneMore(n - k, quantum);
      k := k + 1;
    }
  }

  lemma {:induction false} SteeredFalls(tick: Pose -> Pose, d: Pose -> real, e: Pose -> real, advance: real, turn: real, pi: real,
                                        start: Pose, m: nat, n: nat)
    requires Steers(tick, d, e, advance, turn, pi) && m <= n
    ensures d(Iterate(tick, start, n)) <= d(Iterate(tick, start, m))
    decreases n
  {
    if m < n {
      SteeredFalls(tick, d, e, advance, turn, pi, start, m, n - 1);
    }
  }

  lemma {:induction false} SteeredTurns(tick: Pose -> Pose, d: Pose -> real, e: Pose -> real, advance: real, turn: real, pi: real,
                                        start: Pose, n: nat)
    requires Steers(tick, d, e, advance, turn, pi)
    requires forall k: nat :: k < n ==> e(Iterate(tick, start, k)) >= ALIGNED_RAD
    ensures e(Iterate(tick, start, n)) <= e(start) - (n as real) * turn
    ensures n > 0 && e(start) <= pi ==> ((n - 1) as real) * turn <= pi - ALIGNED_RAD
  {
    if n > 0 {
      SteeredTurns(tick, d, e, advance, turn, pi, start, n - 1);
      var last := Iterate(tick, start, n - 1);
      assert e(last) >= ALIGNED_RAD && Iterate(tick, start, n) == tick(last);
      assert e(tick(last)) <= e(last) - turn;
      TurnTotal(e(start), e(last), e(tick(last)), n, turn);
    }
  }

  lemma TurnTotal(first: real, last: real, next: real, n: nat, turn: real)
    requires n > 0 && last <= first - ((n - 1) as real) * turn && next <= last - turn
    ensures next <= first - (n as real) * turn
  {
    OneMore(n, turn);
  }

  // The droid's own loop.

  function DistanceTo(t: Trig, goal: Pose): Pose -> real {
    (p: Pose) => Distance(t, goal, p)
  }

  function YawErrorTo(t: Trig, goal: Pose): Pose -> real
    requires t.pi > 0.0
  {
    (p: Pose) => Abs(YawError(t, goal, p))
  }

  lemma DroidSteers(t: Trig, body: Body, goal: Pose)
    requires t.Lawful() && body.Sane()
    ensures Steers(Loop(t, body, goal), DistanceTo(t, goal), YawErrorTo(t, goal), AdvanceStep(body), TurnStep(body), t.pi)
  {
    var tick, d, e := Loop(t, body, goal), DistanceTo(t, goal), YawErrorTo(t, goal);
    forall p: Pose
      ensures d(p) >= 0.0 && e(p) >= 0.0 && Steps(d(p), e(p), d(tick(p)), e(tick(p)), AdvanceStep(body), TurnStep(body), t.pi)
    {
      TickSteps(t, body, goal, p);
      DistanceLaw(t, goal, p);
    }
  }

  /** Over the whole loop the distance never grows. */
  lemma DistanceNeverGrows(t: Trig, body: Body, goal: Pose, start: Pose, m: nat, n: nat)
    requires t.Lawful() && body.Sane() && m <= n
    ensures Distance(t, goal, Ticks(t, body, goal, start, n)) <= Distance(t, goal, Ticks(t, body, goal, start, m))
  {
    DroidSteers(t, body, goal);
    SteeredFalls(Loop(t, body, goal), DistanceTo(t, goal), YawErrorTo(t, goal), AdvanceStep(body), TurnStep(body), t.pi, start, m, n);
  }

  /** The number of ticks that is certain to be enough. */
  predicate EnoughTicks(t: Trig, body: Body, goal: Pose, start: Pose, n: nat)
    requires t.pi > 0.0
  {
    Work(Distance(t, goal, start), Abs(YawError(t, goal, start)), AdvanceStep(body), TurnStep(body), t.pi)
      <= (n as real) * (AdvanceStep(body) * TurnStep(body))
  }

  /** The powered loop arrives: one of the first n poses is within arrival distance of the goal. */
  lemma Arrives(t: Trig, body: Body, goal: Pose, start: Pose, n: nat) returns (k: nat)
    requires t.Lawful() && body.Sane() && EnoughTicks(t, body, goal, start, n)
    ensures k <= n && Distance(t, goal, Ticks(t, body, goal, start, k)) <= ARRIVAL_M
  {
    DroidSteers(t, body, goal);
    k := SteeredArrives(Loop(t, body, goal), DistanceTo(t, goal), YawErrorTo(t, goal), AdvanceStep(body), TurnStep(body), t.pi, start, n,
                        AdvanceStep(body) * TurnStep(body));
  }

  lemma SteeredArrives(tick: Pose -> Pose, d: Pose -> real, e: Pose -> real, advance: real, turn: real, pi: real, start: Pose, n: nat, quantum: real)
    returns (k: nat)
    requires Steers(tick, d, e, advance, turn, pi) && advance >= 0.0 && turn >= 0.0 && pi > 0.0 && quantum == advance * turn
    requires Work(d(start), e(start), advance, turn, pi) <= (n as real) * quantum
    ensures k <= n && d(Iterate(tick, start, k)) <= ARRIVAL_M
  {
    var w := (p: Pose) => Work(d(p), e(p), advance, turn, pi);
    var far := (p: Pose) => d(p) > ARRIVAL_M;
    forall p: Pose ensures (far(p) ==> w(tick(p)) <= w(p) - quantum) && (w(p) <= 0.0 ==> !far(p)) {
      WorkDone(tick, d, e, advance, turn, pi, p, quantum);
    }
    k := PotentialRunsOut(tick, w, far, quantum, start, n);
  }

  /**
   Turning in place ends: n ticks that each turn take at least n turn steps off the yaw
   error, so at most (pi - 0.3) / step + 1 ticks can turn before the droid is aligned.
   */
  lemma TurningEnds(t: Trig, body: Body, goal: Pose, start: Pose, n: nat, turn: real)
    requires t.Lawful() && body.Sane() && n > 0 && turn == TurnStep(body)
    requires forall k: nat :: k < n ==> YawErrorTo(t, goal)(Iterate(Loop(t, body, goal), start, k)) >= ALIGNED_RAD
    ensures var e := YawErrorTo(t, goal);
            e(Iterate(Loop(t, body, goal), start, n)) <= e(start) - (n as real) * turn
    ensures ((n - 1) as real) * turn <= t.pi - ALIGNED_RAD
  {
    DroidSteers(t, body, goal);
    YawBound(t, goal, start);
    SteeredTurns(Loop(t, body, goal), DistanceTo(t, goal), YawErrorTo(t, goal), AdvanceStep(body), turn, t.pi, start, n);
  }
}
