/**
 Why the droid, once it faces its goal, keeps facing it: an advancing tick shifts the bearing
 of the goal by less than the droid turns toward it. The drive therefore turns first and then
 advances, and the ticks it needs grow linearly with the distance.
 */
module DriveAlignment {
  import opened Orbits
  import opened Drive

  // ----- what is needed of the sine

  predicate SineDifference(t: Trig, a: real, b: real) {
    t.sin(a - b) == t.sin(a) * t.cos(b) - t.cos(a) * t.sin(b)
  }

  predicate SinePeriod(t: Trig, a: real, b: real, k: int) {
    b == a + 2.0 * t.pi * (k as real) ==> t.sin(b) == t.sin(a)
  }

  predicate SineBound(t: Trig, a: real) {
    Abs(t.sin(a)) <= Abs(a)
  }

  /** On the right half of the circle an angle is at most pi/2 times its sine. */
  predicate SineSlope(t: Trig, a: real) {
    -t.pi <= a <= t.pi && t.cos(a) >= 0.0 ==> Abs(a) <= 1.6 * Abs(t.sin(a))
  }

  ghost predicate SineLaws(t: Trig) {
    && (forall a, b :: SineDifference(t, a, b))
    && (forall a, b, k :: SinePeriod(t, a, b, k))
    && (forall a :: SineBound(t, a))
    && (forall a :: SineSlope(t, a))
  }

  lemma SineOfWrap(t: Trig, a: real)
    requires t.Lawful() && SineLaws(t)
    ensures t.sin(Wrap(t, a)) == t.sin(a)
  {
    var k := WrapRange(t, a);
    assert SinePeriod(t, a, Wrap(t, a), k);
  }

  // ----- the triangle of a step, on named numbers

  /** (d, b) are polar coordinates of (dx, dy). */
  predicate Polar(dx: real, dy: real, d: real, cb: real, sb: real) {
    dx == d * cb && dy == d * sb && Unit(cb, sb)
  }

  /** The cosine and sine of the angle from the direction (ch, sh) to the direction (cb, sb). */
  predicate Between(cb: real, sb: real, ch: real, sh: real, c: real, s: real) {
    c == cb * ch + sb * sh && s == sb * ch - cb * sh
  }

  lemma AlongOldBearing(dx: real, dx': real, dy: real, dy': real, d: real, s: real, cb: real, sb: real, ch: real, sh: real, c: real)
    requires Polar(dx, dy, d, cb, sb) && Moved(dx, dx', s, ch) && Moved(dy, dy', s, sh) && c == cb * ch + sb * sh
    ensures dx' * cb + dy' * sb == d - s * c
  {
    assert dx' * cb == d * (cb * cb) - s * (cb * ch);
    assert dy' * sb == d * (sb * sb) - s * (sb * sh);
    assert d * (cb * cb) + d * (sb * sb) == d * (cb * cb + sb * sb);
    assert s * (cb * ch) + s * (sb * sh) == s * (cb * ch + sb * sh);
  }

  lemma AcrossOldBearing(dx: real, dx': real, dy: real, dy': real, d: real, s: real, cb: real, sb: real, ch: real, sh: real, sn: real)
    requires Polar(dx, dy, d, cb, sb) && Moved(dx, dx', s, ch) && Moved(dy, dy', s, sh) && sn == sb * ch - cb * sh
    ensures dy' * cb - dx' * sb == s * sn
  {
    assert dy' * cb == d * (sb * cb) - s * (cb * sh);
    assert dx' * sb == d * (cb * sb) - s * (sb * ch);
    assert d * (sb * cb) == d * (cb * sb);
    assert s * (sb * ch) - s * (cb * sh) == s * (sb * ch - cb * sh);
  }

  /** The same two sides, through the new bearing, which differs from the old one by (cd, sd). */
  lemma NewBearing(dx': real, dy': real, d': real, cb: real, sb: real, cb': real, sb': real, cd: real, sd: real)
    requires Polar(dx', dy', d', cb', sb') && Between(cb', sb', cb, sb, cd, sd)
    ensures d' * cd == dx' * cb + dy' * sb && d' * sd == dy' * cb - dx' * sb
  {
    assert d' * (cb' * cb + sb' * sb) == (d' * cb') * cb + (d' * sb') * sb;
    assert d' * (sb' * cb - cb' * sb) == (d' * sb') * cb - (d' * cb') * sb;
  }

  /** The shift of the bearing after a step of length s, off course by (c, sn), from distance d. */
  predicate Shifted(d: real, d': real, s: real, c: real, sn: real, cd: real, sd: real) {
    && d' * cd == d - s * c && d' * sd == s * sn
    && Unit(c, sn) && Unit(cd, sd) && d' >= 0.0
  }

  lemma UnitBound(c: real, s: real)
    requires Unit(c, s)
    ensures -1.0 <= c <= 1.0
  {
    assert s * s >= 0.0 && (-c) * (-c) == c * c;
    if c > 1.0 {
      LargeSquare(c);
    }
    if c < -1.0 {
      LargeSquare(-c);
    }
  }

  lemma LargeSquare(c: real)
    requires c > 1.0
    ensures c * c > 1.0
  {
    assert (c - 1.0) * (c - 1.0) >= 0.0;
  }

  /** After a tenth of the way at most, nine tenths are left and the goal is still ahead. */
  lemma StillAhead(d: real, d': real, s: real, c: real, sn: real, cd: real, sd: real)
    requires Shifted(d, d', s, c, sn, cd, sd) && d > 0.0 && 0.0 <= s && 10.0 * s <= d
    ensures cd > 0.0 && d' >= 0.9 * d
  {
    UnitBound(c, sn);
    UnitBound(cd, sd);
    ScaleBound(s, c);
    assert d' * cd >= 0.9 * d;
    if cd <= 0.0 {
      ScaleSign(d', cd);
    }
    ScaleBound(d', cd);
  }

  lemma ScaleBound(s: real, c: real)
    requires s >= 0.0 && c <= 1.0
    ensures s * c <= s
  {
    assert s * (1.0 - c) >= 0.0;
  }

  lemma ScaleSign(d: real, c: real)
    requires d >= 0.0 && c <= 0.0
    ensures d * c <= 0.0
  {
    assert d * (-c) >= 0.0;
  }

  lemma AbsProduct(a: real, b: real)
    requires a >= 0.0
    ensures Abs(a * b) == a * Abs(b)
  {
    if b < 0.0 {
      ScaleSign(a, b);
      assert a * (-b) == -(a * b);
      if a * b == 0.0 {
        assert a * (-b) == 0.0;
      }
    } else {
      assert a * b >= 0.0;
    }
  }

  /** The sine of the shift is at most a ninth of the error. */
  lemma SmallShift(d: real, d': real, s: real, c: real, sn: real, cd: real, sd: real, e: real)
    requires Shifted(d, d', s, c, sn, cd, sd) && d > 0.0 && 0.0 <= s && 10.0 * s <= d && Abs(sn) <= Abs(e)
    ensures 9.0 * Abs(sd) <= Abs(e)
  {
    StillAhead(d, d', s, c, sn, cd, sd);
    ShortSide(d, d', s, sn, sd, e);
  }

  lemma ShortSide(d: real, d': real, s: real, sn: real, sd: real, e: real)
    requires d > 0.0 && d' >= 0.9 * d && 0.0 <= s && 10.0 * s <= d && Abs(sn) <= Abs(e) && d' * sd == s * sn
    ensures 9.0 * Abs(sd) <= Abs(e)
  {
    SameSides(d', sd, s, sn);
    Ninths(d, d', s, Abs(sd), Abs(sn), Abs(e));
  }

  lemma SameSides(d': real, sd: real, s: real, sn: real)
    requires d' >= 0.0 && s >= 0.0 && d' * sd == s * sn
    ensures d' * Abs(sd) == s * Abs(sn)
  {
    AbsProduct(d', sd);
    AbsProduct(s, sn);
  }

  lemma Ninths(d: real, d': real, s: real, x: real, y: real, e: real)
    requires d > 0.0 && d' >= 0.9 * d && 0.0 <= s && 10.0 * s <= d && x >= 0.0 && e >= 0.0 && y <= e && d' * x == s * y
    ensures 9.0 * x <= e
  {
    Grows(0.9 * d, d', x);
    Grows(y, e, s);
    Grows(10.0 * s, d, e);
    Rearrange(d, s, x, y, e);
    CancelLeft(d, 9.0 * x, e);
  }

  lemma Rearrange(d: real, s: real, x: real, y: real, e: real)
    requires (0.9 * d) * x <= s * y && y * s <= e * s && (10.0 * s) * e <= d * e
    ensures d * (9.0 * x) <= d * e
  {
    assert (0.9 * d) * x == 0.1 * (d * (9.0 * x));
    assert (10.0 * s) * e == 10.0 * (e * s);
  }

  lemma CancelLeft(d: real, a: real, b: real)
    requires d > 0.0 && d * a <= d * b
    ensures a <= b
  {
    assert (a - b) * d == d * a - d * b;
    if a > b {
      Positive(a - b, d);
    }
  }

  lemma TriangleShifts(dx: real, dx': real, dy: real, dy': real, d: real, d': real, s: real, cb: real, sb: real, cb': real, sb': real,
                       ch: real, sh: real, c: real, sn: real, cd: real, sd: real)
    requires Polar(dx, dy, d, cb, sb) && Polar(dx', dy', d', cb', sb') && Moved(dx, dx', s, ch) && Moved(dy, dy', s, sh)
    requires Between(cb, sb, ch, sh, c, sn) && Between(cb', sb', cb, sb, cd, sd)
    requires Unit(c, sn) && Unit(cd, sd) && d' >= 0.0
    ensures Shifted(d, d', s, c, sn, cd, sd)
  {
    AlongOldBearing(dx, dx', dy, dy', d, s, cb, sb, ch, sh, c);
    AcrossOldBearing(dx, dx', dy, dy', d, s, cb, sb, ch, sh, sn);
    NewBearing(dx', dy', d', cb, sb, cb', sb', cd, sd);
  }

  // ----- the droid's step

  lemma ErrorDirection(t: Trig, goal: Pose, cur: Pose)
    requires t.Lawful() && SineLaws(t)
    ensures var b, e := t.atan2(goal.y - cur.y, goal.x - cur.x), YawError(t, goal, cur);
            && Between(t.cos(b), t.sin(b), t.cos(cur.theta), t.sin(cur.theta), t.cos(e), t.sin(e))
            && Polar(goal.x - cur.x, goal.y - cur.y, Distance(t, goal, cur), t.cos(b), t.sin(b))
  {
    var b := t.atan2(goal.y - cur.y, goal.x - cur.x);
    CosineOfWrap(t, b - cur.theta);
    SineOfWrap(t, b - cur.theta);
    assert t.DifferenceLaw(b, cur.theta) && SineDifference(t, b, cur.theta);
    assert t.PolarLaw(goal.x - cur.x, goal.y - cur.y);
    UnitHeading(t, b);
  }

  lemma ShiftDirection(t: Trig, b': real, b: real)
    requires t.Lawful() && SineLaws(t)
    ensures var x := Wrap(t, b' - b); Between(t.cos(b'), t.sin(b'), t.cos(b), t.sin(b), t.cos(x), t.sin(x))
  {
    CosineOfWrap(t, b' - b);
    SineOfWrap(t, b' - b);
    assert t.DifferenceLaw(b', b) && SineDifference(t, b', b);
  }

  function Bearing(t: Trig, goal: Pose, cur: Pose): real {
    t.atan2(goal.y - cur.y, goal.x - cur.x)
  }

  /** How far the bearing of the goal shifts when the droid moves from one pose to the other. */
  function Shift(t: Trig, goal: Pose, cur: Pose, next: Pose): real
    requires t.pi > 0.0
  {
    Wrap(t, Bearing(t, goal, next) - Bearing(t, goal, cur))
  }

  lemma StepShifts(t: Trig, goal: Pose, cur: Pose, next: Pose, s: real)
    requires t.Lawful() && SineLaws(t)
    requires Moved(goal.x - cur.x, goal.x - next.x, s, t.cos(cur.theta)) && Moved(goal.y - cur.y, goal.y - next.y, s, t.sin(cur.theta))
    ensures var e, x := YawError(t, goal, cur), Shift(t, goal, cur, next);
            Shifted(Distance(t, goal, cur), Distance(t, goal, next), s, t.cos(e), t.sin(e), t.cos(x), t.sin(x))
  {
    var b, b', e, x := Bearing(t, goal, cur), Bearing(t, goal, next), YawError(t, goal, cur), Shift(t, goal, cur, next);
    ErrorDirection(t, goal, cur);
    ErrorDirection(t, goal, next);
    ShiftDirection(t, b', b);
    UnitHeading(t, e);
    UnitHeading(t, x);
    DistanceLaw(t, goal, next);
    TriangleShifts(goal.x - cur.x, goal.x - next.x, goal.y - cur.y, goal.y - next.y, Distance(t, goal, cur), Distance(t, goal, next), s,
                   t.cos(b), t.sin(b), t.cos(b'), t.sin(b'), t.cos(cur.theta), t.sin(cur.theta), t.cos(e), t.sin(e), t.cos(x), t.sin(x));
  }

  /** A step of at most a tenth of the way shifts the bearing by less than a fifth of the error. */
  lemma ShiftBound(t: Trig, goal: Pose, cur: Pose, next: Pose, s: real)
    requires t.Lawful() && SineLaws(t) && Distance(t, goal, cur) > 0.0 && 0.0 <= s && 10.0 * s <= Distance(t, goal, cur)
    requires Moved(goal.x - cur.x, goal.x - next.x, s, t.cos(cur.theta)) && Moved(goal.y - cur.y, goal.y - next.y, s, t.sin(cur.theta))
    ensures 9.0 * Abs(Shift(t, goal, cur, next)) <= 1.6 * Abs(YawError(t, goal, cur))
  {
    var e, x := YawError(t, goal, cur), Shift(t, goal, cur, next);
    StepShifts(t, goal, cur, next, s);
    assert SineBound(t, e) && SineSlope(t, x);
    var k := WrapRange(t, Bearing(t, goal, next) - Bearing(t, goal, cur));
    StillAhead(Distance(t, goal, cur), Distance(t, goal, next), s, t.cos(e), t.sin(e), t.cos(x), t.sin(x));
    SmallShift(Distance(t, goal, cur), Distance(t, goal, next), s, t.cos(e), t.sin(e), t.cos(x), t.sin(x), e);
  }

  /** The new yaw error is the old one, shifted and turned back. */
  lemma TurnedError(t: Trig, goal: Pose, cur: Pose, next: Pose, turn: real)
    requires t.Lawful() && next.theta == Wrap(t, cur.theta + turn)
    requires var b := Shift(t, goal, cur, next) + YawError(t, goal, cur) - turn; -t.pi <= b < t.pi
    ensures YawError(t, goal, next) == Shift(t, goal, cur, next) + YawError(t, goal, cur) - turn
  {
    var k1 := WrapRange(t, Bearing(t, goal, next) - Bearing(t, goal, cur));
    var k2 := WrapRange(t, Bearing(t, goal, cur) - cur.theta);
    WrapAdd(t, Bearing(t, goal, next), cur.theta + turn);
    WrapTurns(t, Bearing(t, goal, next) - (cur.theta + turn), Shift(t, goal, cur, next) + YawError(t, goal, cur) - turn, k2, k1);
  }

  /** A body that can turn at 0.6 rad/s or faster and is aligned with its goal stays aligned when it advances. */
  lemma KeepsAligned(t: Trig, body: Body, goal: Pose, cur: Pose)
    requires t.Lawful() && SineLaws(t) && body.Sane() && body.MaxAng() >= 0.6
    requires Abs(YawError(t, goal, cur)) < ALIGNED_RAD && Distance(t, goal, cur) > 0.0
    ensures Abs(YawError(t, goal, Tick(t, body, goal, cur))) <= 0.98 * Abs(YawError(t, goal, cur))
  {
    var e, d, v := YawError(t, goal, cur), Distance(t, goal, cur), VelocityToward(t, body, goal, cur);
    ClampsPass(t, body, goal, cur);
    var s, turn := DRIVE_DT * v.linearX, v.angularZ * DRIVE_DT;
    assert s == DRIVE_DT * Min(body.MaxLin(), d) && turn == 0.2 * e;
    var next := Integrate(t, cur, v, DRIVE_DT);
    StraightStep(t, goal, cur, v);
    ShiftBound(t, goal, cur, next, s);
    TurnedError(t, goal, cur, next, turn);
  }

  // ----- a budget linear in the distance

  /** Besides stepping the measures, an advance far from the goal keeps the alignment. */
  predicate SteadySteps(d: real, e: real, d': real, e': real, advance: real, turn: real, pi: real) {
    Steps(d, e, d', e', advance, turn, pi) && (d > ARRIVAL_M && e < ALIGNED_RAD ==> e' < ALIGNED_RAD)
  }

  /** The distance still to go and, until the droid is aligned, the angle still to turn. */
  function LinearWork(d: real, e: real, advance: real, turn: real): real {
    d * turn + if e < ALIGNED_RAD then 0.0 else e * advance
  }

  lemma LinearWorkShrinks(d: real, e: real, d': real, e': real, advance: real, turn: real, pi: real)
    requires SteadySteps(d, e, d', e', advance, turn, pi) && d > ARRIVAL_M && e >= 0.0 && e' >= 0.0
    requires advance >= 0.0 && 0.0 <= turn <= ALIGNED_RAD
    ensures LinearWork(d', e', advance, turn) <= LinearWork(d, e, advance, turn) - advance * turn
  {
    if e < ALIGNED_RAD {
      Grows(d', d - advance, turn);
      Distribute(d, advance, turn);
      assert LinearWork(d', e', advance, turn) == d' * turn + 0.0 && LinearWork(d, e, advance, turn) == d * turn + 0.0;
    } else {
      Grows(d', d, turn);
      Grows(e', e - turn, advance);
      Distribute(e, turn, advance);
      NonNegative(e - turn, advance);
      TurnSaves(d' * turn, d * turn, e' * advance, (e - turn) * advance, e * advance, turn * advance, e' < ALIGNED_RAD);
    }
  }

  lemma TurnSaves(a': real, a: real, b': real, left: real, b: real, quantum: real, aligned: bool)
    requires a' <= a && b' <= left && left >= 0.0 && left == b - quantum
    ensures a' + (if aligned then 0.0 else b') <= a + b - quantum
  {
  }

  lemma Distribute(x: real, y: real, m: real)
    ensures (x - y) * m == x * m - y * m && y * m == m * y
  {
  }

  lemma NoLinearWork(d: real, e: real, advance: real, turn: real)
    requires d >= 0.0 && e >= 0.0 && advance >= 0.0 && turn > 0.0 && LinearWork(d, e, advance, turn) <= 0.0
    ensures d <= 0.0
  {
    NonNegative(e, advance);
    if d > 0.0 {
      Positive(d, turn);
    }
  }

  ghost predicate Steady(tick: Pose -> Pose, d: Pose -> real, e: Pose -> real, advance: real, turn: real, pi: real) {
    forall p :: d(p) >= 0.0 && e(p) >= 0.0 && e(tick(p)) >= 0.0 && SteadySteps(d(p), e(p), d(tick(p)), e(tick(p)), advance, turn, pi)
  }

  lemma SteadyArrives(tick: Pose -> Pose, d: Pose -> real, e: Pose -> real, advance: real, turn: real, pi: real, start: Pose, n: nat, quantum: real)
    returns (k: nat)
    requires Steady(tick, d, e, advance, turn, pi) && advance >= 0.0 && 0.0 < turn <= ALIGNED_RAD && quantum == advance * turn
    requires LinearWork(d(start), e(start), advance, turn) <= (n as real) * quantum
    ensures k <= n && d(Iterate(tick, start, k)) <= ARRIVAL_M
  {
    var w := (p: Pose) => LinearWork(d(p), e(p), advance, turn);
    var far := (p: Pose) => d(p) > ARRIVAL_M;
    forall p: Pose ensures (far(p) ==> w(tick(p)) <= w(p) - quantum) && (w(p) <= 0.0 ==> !far(p)) {
      if far(p) {
        LinearWorkShrinks(d(p), e(p), d(tick(p)), e(tick(p)), advance, turn, pi);
      }
      if w(p) <= 0.0 {
        NoLinearWork(d(p), e(p), advance, turn);
      }
    }
    k := PotentialRunsOut(tick, w, far, quantum, start, n);
  }

  lemma DroidSteady(t: Trig, body: Body, goal: Pose)
    requires t.Lawful() && SineLaws(t) && body.Sane() && body.MaxAng() >= 0.6
    ensures Steady(Loop(t, body, goal), DistanceTo(t, goal), YawErrorTo(t, goal), AdvanceStep(body), TurnStep(body), t.pi)
  {
    var tick, d, e := Loop(t, body, goal), DistanceTo(t, goal), YawErrorTo(t, goal);
    forall p: Pose
      ensures d(p) >= 0.0 && e(p) >= 0.0 && e(tick(p)) >= 0.0
      ensures SteadySteps(d(p), e(p), d(tick(p)), e(tick(p)), AdvanceStep(body), TurnStep(body), t.pi)
    {
      TickSteps(t, body, goal, p);
      DistanceLaw(t, goal, p);
      if d(p) > ARRIVAL_M && e(p) < ALIGNED_RAD {
        KeepsAligned(t, body, goal, p);
      }
    }
  }

  /** As many ticks as the distance takes advances, and the error takes turns. */
  predicate EnoughTicksInLine(t: Trig, body: Body, goal: Pose, start: Pose, n: nat)
    requires t.pi > 0.0
  {
    Distance(t, goal, start) * TurnStep(body) + Abs(YawError(t, goal, start)) * AdvanceStep(body)
      <= (n as real) * (AdvanceStep(body) * TurnStep(body))
  }

  /** The powered loop arrives within a number of ticks that grows linearly with the distance. */
  lemma ArrivesInLine(t: Trig, body: Body, goal: Pose, start: Pose, n: nat) returns (k: nat)
    requires t.Lawful() && SineLaws(t) && body.Sane() && body.MaxAng() >= 0.6 && EnoughTicksInLine(t, body, goal, start, n)
    ensures k <= n && Distance(t, goal, Ticks(t, body, goal, start, k)) <= ARRIVAL_M
  {
    DroidSteady(t, body, goal);
    NonNegative(Abs(YawError(t, goal, start)), AdvanceStep(body));
    k := SteadyArrives(Loop(t, body, goal), DistanceTo(t, goal), YawErrorTo(t, goal), AdvanceStep(body), TurnStep(body), t.pi, start, n,
                       AdvanceStep(body) * TurnStep(body));
  }

  /** The drive's own budget suffices for every goal within 39 m, for a body at least as fast as 0.15 m/s and 0.6 rad/s. */
  lemma BudgetReaches(t: Trig, body: Body, goal: Pose, start: Pose) returns (k: nat)
    requires t.Lawful() && t.pi <= 3.2 && SineLaws(t) && body.Sane() && body.MaxAng() >= 0.6 && body.MaxLin() >= ARRIVAL_M
    requires Distance(t, goal, start) <= 39.0
    ensures k < MAX_DRIVE_TICKS && Distance(t, goal, Ticks(t, body, goal, start, k)) <= ARRIVAL_M
  {
    YawBound(t, goal, start);
    assert TurnStep(body) == 0.06 && AdvanceStep(body) == 0.0135;
    k := ArrivesInLine(t, body, goal, start, MAX_DRIVE_TICKS - 1);
  }
}
