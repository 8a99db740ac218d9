/**
 A drive as the executive performs it: what it does to the host, tick by tick, in a world in
 which others may act on the safety gateway between any two steps. What they do is an input.
 The drive is determined by its plan and its world, and the guarantees are about every world.
 */
module DriveProtocol {
  import opened DroidStates
  import opened SafetyStack
  import opened Wrappers
  import opened Orbits
  import D = Drive
  import A = DriveAlignment

  type DriveOp = Op<D.Pose>
  type DriveHost = Host<D.Pose>

  /** What others may do to the gateway meanwhile: anything but ask for motion. */
  predicate Quiet(op: DriveOp) {
    op.EngageEstop? || op.ResetEstop? || op.Release? || op.ReportFault? || op.SetLink? || op.ReadStatus? || op.PollStatus? || op.ClearFault? || op.ClearAllFaults?
  }

  predicate AllQuiet(ops: seq<DriveOp>) {
    forall i :: 0 <= i < |ops| ==> Quiet(ops[i])
  }

  /** What a tick of the drive loop finds: interference, a cancellation, localization, an obstacle. */
  datatype TickInput = TickInput(before: seq<DriveOp>, cancelled: bool, localized: bool, blocked: bool) {
    /** The checks before the distance is looked at all pass. */
    predicate Clear() {
      !cancelled && localized && !blocked
    }

    predicate Undisturbed() {
      before == [] && Clear()
    }
  }

  /** The environment of one drive. */
  datatype World = World(
    beat: real, read: real, logged: real, stamp: string,
    beforeAcquire: seq<DriveOp>, beforeActive: seq<DriveOp>, tick: nat -> TickInput,
    beforeRelease: seq<DriveOp>, released: real, afterRelease: seq<DriveOp>)
  {
    ghost predicate Valid() {
      && AllQuiet(beforeAcquire) && AllQuiet(beforeActive) && AllQuiet(beforeRelease) && AllQuiet(afterRelease)
      && (forall k :: AllQuiet(tick(k).before))
    }

    function Asks(): DriveOp {
      Request(beat, read, logged, stamp)
    }

    ghost predicate Undisturbed() {
      beforeActive == [] && forall k :: tick(k).Undisturbed()
    }
  }

  /**
   What a drive is about: whether the body can move, where a powered tick takes it, and how
   far it is from the goal.
   */
  datatype Plan = Plan(canMove: bool, next: D.Pose -> D.Pose, distance: D.Pose -> real)

  /** How a drive ends. `Raised` is the exception of a body that cannot move. */
  datatype Outcome = Arrived | Cancelled | LocalizationLost | Blocked | Timeout | Refused | Raised

  /** Operations of a drive other than the request itself. */
  predicate DriveStep(op: DriveOp) {
    Quiet(op) || op.Drive? || op.EnterActive? || op.LeaveActive?
  }

  predicate DriveSteps(ops: seq<DriveOp>) {
    forall i :: 0 <= i < |ops| ==> DriveStep(ops[i])
  }

  predicate HasEstop(ops: seq<DriveOp>) {
    exists i :: 0 <= i < |ops| && ops[i].EngageEstop?
  }

  // ----- what every run of drive steps keeps

  /** What others do never moves the body. */
  lemma {:induction false} QuietKeepsPose(h: DriveHost, ops: seq<DriveOp>)
    requires AllQuiet(ops)
    ensures Run(h, ops).pose == h.pose
  {
    if ops != [] {
      QuietKeepsPose(h, ops[..|ops| - 1]);
    }
  }

  /** Without a request, power that is off stays off and the body stays where it is. */
  lemma {:induction false} StepsKeepOff(h: DriveHost, ops: seq<DriveOp>)
    requires DriveSteps(ops) && !h.ctl.power && !h.backendPower
    ensures !Run(h, ops).ctl.power && !Run(h, ops).backendPower && Run(h, ops).pose == h.pose
  {
    if ops != [] {
      StepsKeepOff(h, ops[..|ops| - 1]);
      StepKeepsOff(Run(h, ops[..|ops| - 1]), ops[|ops| - 1]);
    }
  }

  lemma StepKeepsOff(h: DriveHost, op: DriveOp)
    requires DriveStep(op) && !h.ctl.power && !h.backendPower
    ensures !Step(h, op).ctl.power && !Step(h, op).backendPower && Step(h, op).pose == h.pose
  {
  }

  /** An e-stop anywhere among drive steps leaves the droid emergency-stopped at the end. */
  lemma {:induction false} EstopDecidesState(h: DriveHost, ops: seq<DriveOp>)
    requires DriveSteps(ops) && HasEstop(ops)
    ensures Run(h, ops).state == EmergencyStopped
  {
    var i :| 0 <= i < |ops| && ops[i].EngageEstop?;
    SplitRun(h, ops, i);
    var stopped := Step(Run(h, ops[..i]), ops[i]);
    assert stopped.state == EmergencyStopped;
    StepsKeepStopped(stopped, ops[i + 1..]);
  }

  lemma StepsKeepStopped(h: DriveHost, ops: seq<DriveOp>)
    requires DriveSteps(ops) && h.state == EmergencyStopped
    ensures Run(h, ops).state == EmergencyStopped
  {
    StopOutlastsDrive(h, ops);
  }

  lemma SplitRun(h: DriveHost, ops: seq<DriveOp>, i: nat)
    requires i < |ops|
    ensures Run(h, ops) == Run(Step(Run(h, ops[..i]), ops[i]), ops[i + 1..])
  {
    assert ops == ops[..i + 1] + ops[i + 1..];
    RunAppend(h, ops[..i + 1], ops[i + 1..]);
    assert ops[..i + 1][..i] == ops[..i];
  }

  /** A power cut among drive steps freezes the body for the rest of them. */
  lemma CutFreezesDrive(h: DriveHost, ops: seq<DriveOp>, i: nat)
    requires DriveSteps(ops) && i < |ops| && Cuts(ops[i])
    ensures Run(h, ops).pose == Run(h, ops[..i]).pose
  {
    SplitRun(h, ops, i);
    var cut := Step(Run(h, ops[..i]), ops[i]);
    StepPower(Run(h, ops[..i]), ops[i]);
    StepsFrozen(cut, ops[i + 1..]);
  }

  lemma StepsFrozen(h: DriveHost, ops: seq<DriveOp>)
    requires DriveSteps(ops) && !h.backendPower
    ensures Run(h, ops).pose == h.pose
  {
    CutFreezesPose(h, ops);
  }

  /** Power granted at the start of drive steps lasts exactly as long as none of them cuts it. */
  lemma {:induction false} PowerLastsUntilCut(h: DriveHost, ops: seq<DriveOp>)
    requires DriveSteps(ops) && h.backendPower
    ensures Run(h, ops).backendPower <==> forall i :: 0 <= i < |ops| ==> !Cuts(ops[i])
  {
    if ops != [] {
      var n := |ops| - 1;
      PowerLastsUntilCut(h, ops[..n]);
      StepPower(Run(h, ops[..n]), ops[n]);
      assert forall i :: 0 <= i < n ==> ops[..n][i] == ops[i];
    }
  }

  lemma StepPower(h: DriveHost, op: DriveOp)
    requires DriveStep(op)
    ensures Step(h, op).backendPower == (h.backendPower && !Cuts(op))
  {
  }

  // ----- the droid state over a drive

  /** What others do, and velocity commands. */
  predicate Cruising(ops: seq<DriveOp>) {
    forall i :: 0 <= i < |ops| ==> Quiet(ops[i]) || ops[i].Drive?
  }

  lemma {:induction false} CruiseKeepsState(h: DriveHost, ops: seq<DriveOp>)
    requires Cruising(ops) && !HasEstop(ops)
    ensures Run(h, ops).state == h.state
  {
    if ops != [] {
      var n := |ops| - 1;
      assert forall i :: 0 <= i < n ==> ops[..n][i] == ops[i];
      CruiseKeepsState(h, ops[..n]);
      assert !ops[n].EngageEstop?;
    }
  }

  lemma CruiseMoves(h: DriveHost, ops: seq<DriveOp>, now: DriveHost)
    requires Cruising(ops) && now == Run(h, ops)
    ensures StateMoves(ops, h.state, now.state)
  {
    if !HasEstop(ops) {
      CruiseKeepsState(h, ops);
    }
  }

  lemma EstopAppend(xs: seq<DriveOp>, ys: seq<DriveOp>)
    ensures HasEstop(xs + ys) <==> HasEstop(xs) || HasEstop(ys)
  {
    var all := xs + ys;
    if HasEstop(xs) {
      var i :| 0 <= i < |xs| && xs[i].EngageEstop?;
      assert all[i].EngageEstop?;
    }
    if HasEstop(ys) {
      var i :| 0 <= i < |ys| && ys[i].EngageEstop?;
      assert all[|xs| + i].EngageEstop?;
    }
  }

  /** The state `enter_active` leads to, and the one a drive leaves behind. */
  function Entered(s: DroidState): DroidState {
    if s == Ready || s == Degraded then Active else s
  }

  function Left(s: DroidState): DroidState {
    if s == Active then Ready else s
  }

  /** Unless an e-stop is among the steps, the state they lead to, `now`, is `dst`. */
  predicate StateMoves(ops: seq<DriveOp>, dst: DroidState, now: DroidState) {
    HasEstop(ops) || now == dst
  }

  lemma StateMovesOn(xs: seq<DriveOp>, mid: DroidState, atMid: DroidState, ys: seq<DriveOp>, now: DroidState, dst: DroidState)
    requires StateMoves(xs, mid, atMid) && (atMid == mid ==> StateMoves(ys, dst, now))
    ensures StateMoves(xs + ys, dst, now)
  {
    EstopAppend(xs, ys);
  }

  lemma EnteredState(h: DriveHost, ops: seq<DriveOp>)
    requires AllQuiet(ops)
    ensures StateMoves(ops + [Op.EnterActive], Entered(h.state), Run(h, ops + [Op.EnterActive]).state)
  {
    RunSnoc(h, ops, Op.EnterActive);
    CruiseMoves(h, ops, Run(h, ops));
    EstopAppend(ops, [Op.EnterActive]);
  }

  lemma LeftState(h: DriveHost, ops: seq<DriveOp>)
    requires AllQuiet(ops)
    ensures StateMoves(ops + [Op.LeaveActive], Left(h.state), Run(h, ops + [Op.LeaveActive]).state)
  {
    RunSnoc(h, ops, Op.LeaveActive);
    CruiseMoves(h, ops, Run(h, ops));
    EstopAppend(ops, [Op.LeaveActive]);
  }

  lemma RunSnoc(h: DriveHost, ops: seq<DriveOp>, op: DriveOp)
    ensures Run(h, ops + [op]) == Step(Run(h, ops), op)
  {
    assert (ops + [op])[..|ops|] == ops;
  }

  // ----- the drive loop

  /** How a tick ends the loop, if it does: the checks in their order. */
  function TickEnd(p: Plan, input: TickInput, pose: D.Pose): Option<Outcome> {
    if input.cancelled then Some(Cancelled)
    else if !input.localized then Some(LocalizationLost)
    else if input.blocked then Some(Blocked)
    else if p.distance(pose) <= D.ARRIVAL_M then Some(Arrived)
    else if !p.canMove then Some(Raised)
    else None
  }

  /** What a tick does to the host: the interference before it and, if the loop goes on, a velocity command. */
  function TickOps(p: Plan, input: TickInput, pose: D.Pose): seq<DriveOp> {
    input.before + if TickEnd(p, input, pose).None? then [Op.Drive(p.next(pose))] else []
  }

  /** The host after the first `k` ticks, all of which go on. */
  function HostAt(p: Plan, world: World, h: DriveHost, k: nat): DriveHost {
    if k == 0 then h
    else
      var now := HostAt(p, world, h, k - 1);
      Run(now, world.tick(k - 1).before + [Op.Drive(p.next(now.pose))])
  }

  /** Where the body is when tick `k` begins. */
  function PoseAt(p: Plan, world: World, h: DriveHost, k: nat): D.Pose {
    HostAt(p, world, h, k).pose
  }

  /** The steps of those ticks. */
  function Moves(p: Plan, world: World, h: DriveHost, k: nat): seq<DriveOp> {
    if k == 0 then []
    else Moves(p, world, h, k - 1) + (world.tick(k - 1).before + [Op.Drive(p.next(PoseAt(p, world, h, k - 1)))])
  }

  lemma {:induction false} MovesRun(p: Plan, world: World, h: DriveHost, k: nat)
    ensures Run(h, Moves(p, world, h, k)) == HostAt(p, world, h, k)
  {
    if k > 0 {
      MovesRun(p, world, h, k - 1);
      RunAppend(h, Moves(p, world, h, k - 1), world.tick(k - 1).before + [Op.Drive(p.next(PoseAt(p, world, h, k - 1)))]);
    }
  }

  predicate GoesOn(p: Plan, world: World, h: DriveHost, k: nat) {
    TickEnd(p, world.tick(k), PoseAt(p, world, h, k)).None?
  }

  ghost predicate AllGoOn(p: Plan, world: World, h: DriveHost, n: nat) {
    forall j: nat :: j < n ==> GoesOn(p, world, h, j)
  }

  lemma OneMoreGoesOn(p: Plan, world: World, h: DriveHost, n: nat)
    requires AllGoOn(p, world, h, n) && GoesOn(p, world, h, n)
    ensures AllGoOn(p, world, h, n + 1)
  {
  }

  /** The loop goes on for `n` ticks and then ends, in the tick after them or by running out of ticks. */
  ghost predicate Driven(p: Plan, world: World, h: DriveHost, n: nat, outcome: Outcome) {
    && n <= D.MAX_DRIVE_TICKS
    && AllGoOn(p, world, h, n)
    && if n == D.MAX_DRIVE_TICKS then outcome == Timeout
       else TickEnd(p, world.tick(n), PoseAt(p, world, h, n)) == Some(outcome)
  }

  /** Everything that happens to the host in such a loop. */
  function LoopOps(p: Plan, world: World, h: DriveHost, n: nat): seq<DriveOp> {
    Moves(p, world, h, n) + if n < D.MAX_DRIVE_TICKS then world.tick(n).before else []
  }

  /** The number of ticks that began, the last one included. */
  function Begun(n: nat): nat {
    if n < D.MAX_DRIVE_TICKS then n + 1 else n
  }

  /** The loop ends in one way only. */
  lemma DrivenOnce(p: Plan, world: World, h: DriveHost, n: nat, outcome: Outcome, n': nat, outcome': Outcome)
    requires Driven(p, world, h, n, outcome) && Driven(p, world, h, n', outcome')
    ensures n == n' && outcome == outcome'
  {
    assert n < n' ==> GoesOn(p, world, h, n);
    assert n' < n ==> GoesOn(p, world, h, n');
  }

  /**
   Every tick that went on was uncancelled, localized and unblocked, short of the goal and of
   a body that can move; what ended the loop is read off the tick that follows them.
   */
  lemma OutcomeFromFlags(p: Plan, world: World, h: DriveHost, n: nat, outcome: Outcome)
    requires Driven(p, world, h, n, outcome)
    ensures forall k: nat :: k < n ==> !world.tick(k).cancelled && world.tick(k).localized && !world.tick(k).blocked
    ensures forall k: nat :: k < n ==> p.distance(PoseAt(p, world, h, k)) > 0.15
    ensures n > 0 ==> p.canMove
    ensures n <= 3000 && (outcome == Timeout <==> n == 3000)
    ensures n < 3000 ==>
              var now := world.tick(n);
              var clear := !now.cancelled && now.localized && !now.blocked;
              var there := p.distance(PoseAt(p, world, h, n)) <= 0.15;
              && (outcome == Cancelled <==> now.cancelled)
              && (outcome == LocalizationLost <==> !now.cancelled && !now.localized)
              && (outcome == Blocked <==> !now.cancelled && now.localized && now.blocked)
              && (outcome == Arrived <==> clear && there)
              && (outcome == Raised <==> clear && !there && !p.canMove)
  {
    forall k: nat | k < n
      ensures p.distance(PoseAt(p, world, h, k)) > 0.15
      ensures p.canMove && !world.tick(k).cancelled && world.tick(k).localized && !world.tick(k).blocked
    {
      assert GoesOn(p, world, h, k);
    }
  }

  /** The host when the loop has ended after `n` ticks that went on. */
  function LoopEnd(p: Plan, world: World, h: DriveHost, n: nat): DriveHost {
    if n < D.MAX_DRIVE_TICKS then Run(HostAt(p, world, h, n), world.tick(n).before) else HostAt(p, world, h, n)
  }

  lemma LoopRun(p: Plan, world: World, h: DriveHost, n: nat)
    ensures Run(h, LoopOps(p, world, h, n)) == LoopEnd(p, world, h, n)
  {
    MovesRun(p, world, h, n);
    if n < D.MAX_DRIVE_TICKS {
      RunAppend(h, Moves(p, world, h, n), world.tick(n).before);
    } else {
      assert LoopOps(p, world, h, n) == Moves(p, world, h, n);
    }
  }

  // ----- what the loop takes from its world

  /** The interference in the first `k` ticks. */
  function Disturbances(world: World, k: nat): seq<DriveOp> {
    if k == 0 then [] else Disturbances(world, k - 1) + world.tick(k - 1).before
  }

  /** The operations that are not the drive's own. */
  function Others(ops: seq<DriveOp>): seq<DriveOp> {
    if ops == [] then [] else Others(ops[..|ops| - 1]) + if Quiet(ops[|ops| - 1]) then [ops[|ops| - 1]] else []
  }

  lemma {:induction false} OthersAppend(xs: seq<DriveOp>, ys: seq<DriveOp>)
    ensures Others(xs + ys) == Others(xs) + Others(ys)
  {
    if ys == [] {
      assert xs + ys == xs;
    } else {
      assert (xs + ys)[..|xs + ys| - 1] == xs + ys[..|ys| - 1];
      OthersAppend(xs, ys[..|ys| - 1]);
    }
  }

  lemma {:induction false} OthersQuiet(ops: seq<DriveOp>)
    requires AllQuiet(ops)
    ensures Others(ops) == ops
  {
    if ops != [] {
      OthersQuiet(ops[..|ops| - 1]);
    }
  }

  lemma OthersOfTick(before: seq<DriveOp>, pose: D.Pose)
    requires AllQuiet(before)
    ensures Others(before + [Op.Drive(pose)]) == before
  {
    OthersQuiet(before);
    assert (before + [Op.Drive(pose)])[..|before|] == before;
  }

  lemma {:induction false} OthersOfMoves(p: Plan, world: World, h: DriveHost, k: nat)
    requires world.Valid()
    ensures Others(Moves(p, world, h, k)) == Disturbances(world, k) && Cruising(Moves(p, world, h, k))
  {
    if k > 0 {
      var ops := Moves(p, world, h, k - 1);
      var pose := p.next(PoseAt(p, world, h, k - 1));
      OthersOfMoves(p, world, h, k - 1);
      assert AllQuiet(world.tick(k - 1).before);
      OthersAppend(ops, world.tick(k - 1).before + [Op.Drive(pose)]);
      OthersOfTick(world.tick(k - 1).before, pose);
    }
  }

  /** Exactly the interference that the world holds for the ticks that began happens during the loop. */
  lemma LoopTakesAll(p: Plan, world: World, h: DriveHost, n: nat)
    requires world.Valid() && n <= D.MAX_DRIVE_TICKS
    ensures Others(LoopOps(p, world, h, n)) == Disturbances(world, Begun(n)) && Cruising(LoopOps(p, world, h, n))
  {
    OthersOfMoves(p, world, h, n);
    if n < D.MAX_DRIVE_TICKS {
      assert AllQuiet(world.tick(n).before);
      OthersQuiet(world.tick(n).before);
      OthersAppend(Moves(p, world, h, n), world.tick(n).before);
    } else {
      assert LoopOps(p, world, h, n) == Moves(p, world, h, n);
    }
  }

  lemma {:induction false} EstopOfOthers(ops: seq<DriveOp>)
    ensures HasEstop(Others(ops)) <==> HasEstop(ops)
  {
    if ops != [] {
      var n := |ops| - 1;
      var last := if Quiet(ops[n]) then [ops[n]] else [];
      EstopOfOthers(ops[..n]);
      EstopAppend(Others(ops[..n]), last);
      EstopAppend(ops[..n], [ops[n]]);
      assert ops == ops[..n] + [ops[n]];
      assert HasEstop([ops[n]]) <==> HasEstop(last) by {
        assert HasEstop([ops[n]]) <==> ops[n].EngageEstop?;
        assert last != [] ==> (HasEstop(last) <==> last[0].EngageEstop?);
      }
    }
  }

  /** The pose a loop ends with is the one its last tick began with. */
  lemma LoopPose(p: Plan, world: World, h: DriveHost, n: nat)
    requires world.Valid()
    ensures LoopEnd(p, world, h, n).pose == PoseAt(p, world, h, n)
  {
    if n < D.MAX_DRIVE_TICKS {
      assert AllQuiet(world.tick(n).before);
      QuietKeepsPose(HostAt(p, world, h, n), world.tick(n).before);
    }
  }

  lemma {:induction false} MovesPrefix(p: Plan, world: World, h: DriveHost, k: nat, n: nat)
    requires k <= n
    ensures Moves(p, world, h, k) <= Moves(p, world, h, n)
  {
    if k < n {
      MovesPrefix(p, world, h, k, n - 1);
    }
  }

  /** A tick that began has its interference right after the steps of the ticks before it. */
  lemma TickInLoop(p: Plan, world: World, h: DriveHost, k: nat, n: nat)
    requires n <= D.MAX_DRIVE_TICKS && k < Begun(n)
    ensures Moves(p, world, h, k) + world.tick(k).before <= LoopOps(p, world, h, n)
  {
    if k < n {
      MovesPrefix(p, world, h, k + 1, n);
      LongerPrefix(Moves(p, world, h, k), world.tick(k).before, [Op.Drive(p.next(PoseAt(p, world, h, k)))], Moves(p, world, h, n));
    }
  }

  lemma LongerPrefix<T>(xs: seq<T>, ys: seq<T>, zs: seq<T>, all: seq<T>)
    requires xs + (ys + zs) <= all
    ensures xs + ys <= all
  {
    assert all[..|xs + (ys + zs)|] == xs + (ys + zs);
    assert (xs + (ys + zs))[..|xs| + |ys|] == xs + ys;
  }

  /** Once a tick's interference cuts power, the body stays where that tick found it. */
  lemma CutInTick(p: Plan, world: World, h: DriveHost, k: nat, n: nat)
    requires world.Valid() && n <= D.MAX_DRIVE_TICKS && k < Begun(n) && !NoCuts(world.tick(k).before)
    ensures PoseAt(p, world, h, n) == PoseAt(p, world, h, k)
  {
    TickInLoop(p, world, h, k, n);
    LoopTakesAll(p, world, h, n);
    LoopPose(p, world, h, n);
    assert AllQuiet(world.tick(k).before);
    MovesRun(p, world, h, k);
    LoopRun(p, world, h, n);
    CutAmong(h, Moves(p, world, h, k), world.tick(k).before, LoopOps(p, world, h, n));
  }

  lemma CutAmong(h: DriveHost, ops: seq<DriveOp>, before: seq<DriveOp>, all: seq<DriveOp>)
    requires Cruising(all) && ops + before <= all && AllQuiet(before) && !NoCuts(before)
    ensures Run(h, all).pose == Run(h, ops).pose
  {
    var i: nat :| i < |before| && Cuts(before[i]);
    PrefixAt(ops, before, all, i);
    CutAt(h, all, |ops| + i, ops + before[..i]);
    QuietTail(h, ops, before[..i]);
  }

  lemma CutAt(h: DriveHost, all: seq<DriveOp>, m: nat, prefix: seq<DriveOp>)
    requires Cruising(all) && m < |all| && Cuts(all[m]) && all[..m] == prefix
    ensures Run(h, all).pose == Run(h, prefix).pose
  {
    CutFreezesDrive(h, all, m);
  }

  lemma QuietTail(h: DriveHost, ops: seq<DriveOp>, quiet: seq<DriveOp>)
    requires AllQuiet(quiet)
    ensures Run(h, ops + quiet).pose == Run(h, ops).pose
  {
    RunAppend(h, ops, quiet);
    QuietKeepsPose(Run(h, ops), quiet);
  }

  lemma PrefixAt<T>(xs: seq<T>, ys: seq<T>, all: seq<T>, i: nat)
    requires xs + ys <= all && i < |ys|
    ensures all[|xs| + i] == ys[i] && all[..|xs| + i] == xs + ys[..i]
  {
    assert all[..|xs| + |ys|] == xs + ys;
    assert (xs + ys)[|xs| + i] == ys[i];
  }

  // ----- undisturbed, the loop is the powered loop of the drive model

  lemma {:induction false} SmoothMoves(p: Plan, world: World, h: DriveHost, k: nat)
    requires world.Undisturbed() && h.backendPower
    ensures HostAt(p, world, h, k).backendPower && PoseAt(p, world, h, k) == Iterate(p.next, h.pose, k)
  {
    if k > 0 {
      SmoothMoves(p, world, h, k - 1);
      assert world.tick(k - 1).Undisturbed();
      var now := HostAt(p, world, h, k - 1);
      RunDrive(now, world.tick(k - 1).before, p.next(now.pose));
    }
  }

  lemma RunDrive(h: DriveHost, before: seq<DriveOp>, to: D.Pose)
    requires before == [] && h.backendPower
    ensures var r := Run(h, before + [Op.Drive(to)]); r.backendPower && r.pose == to
  {
    RunSnoc(h, before, Op.Drive(to));
  }

  /** Within the tick budget, a powered body comes within the arrival radius. */
  ghost predicate Reaches(p: Plan, pose: D.Pose) {
    exists k: nat :: k < D.MAX_DRIVE_TICKS && Close(p, pose, k)
  }

  /** After `k` powered ticks the body is within the arrival radius. */
  predicate Close(p: Plan, pose: D.Pose, k: nat) {
    p.distance(Iterate(p.next, pose, k)) <= D.ARRIVAL_M
  }

  /** Undisturbed, the loop arrives exactly if the body comes close enough within its budget. */
  lemma SmoothArrives(p: Plan, world: World, h: DriveHost, n: nat, outcome: Outcome)
    requires world.Undisturbed() && h.backendPower && p.canMove && Driven(p, world, h, n, outcome)
    ensures outcome == Arrived <==> Reaches(p, h.pose)
  {
    if n < D.MAX_DRIVE_TICKS {
      SmoothTick(p, world, h, n);
      assert Close(p, h.pose, n);
    } else {
      forall k: nat | k < n ensures !Close(p, h.pose, k) {
        assert GoesOn(p, world, h, k);
        SmoothTick(p, world, h, k);
      }
    }
  }

  lemma SmoothTick(p: Plan, world: World, h: DriveHost, k: nat)
    requires world.Undisturbed() && h.backendPower && p.canMove
    ensures TickEnd(p, world.tick(k), PoseAt(p, world, h, k)) == if Close(p, h.pose, k) then Some(Arrived) else None
  {
    SmoothMoves(p, world, h, k);
    assert world.tick(k).Undisturbed();
  }

  // ----- when the exception leaves power on

  /** The drive raises: the body cannot move, and the first tick gets as far as commanding it to. */
  predicate Strands(p: Plan, world: World, pose: D.Pose) {
    !p.canMove && world.tick(0).Clear() && p.distance(pose) > D.ARRIVAL_M
  }

  lemma RaisedIff(p: Plan, world: World, h: DriveHost, n: nat, outcome: Outcome)
    requires Driven(p, world, h, n, outcome)
    ensures outcome == Raised <==> Strands(p, world, h.pose)
    ensures outcome == Raised ==> n == 0
    ensures outcome != Refused && (outcome == Timeout <==> n == D.MAX_DRIVE_TICKS)
  {
    assert PoseAt(p, world, h, 0) == h.pose;
    if n > 0 {
      assert GoesOn(p, world, h, 0);
    }
  }

  predicate NoCuts(ops: seq<DriveOp>) {
    forall i :: 0 <= i < |ops| ==> !Cuts(ops[i])
  }

  /** The permission is granted, the drive raises, and nobody cuts power between the two. */
  predicate LeavesPower(h: DriveHost, p: Plan, world: World) {
    && Grants(Run(h, world.beforeAcquire), world.beat, world.read)
    && Strands(p, world, h.pose)
    && NoCuts(world.beforeActive) && NoCuts(world.tick(0).before)
  }

  ghost predicate AlwaysReleased(h: DriveHost, p: Plan) {
    forall world: World :: world.Valid() ==> !LeavesPower(h, p, world)
  }

  lemma {:induction false} QuietKeepsAlive(h: DriveHost, ops: seq<DriveOp>)
    requires AllQuiet(ops)
    ensures Run(h, ops).ctl.alive == h.ctl.alive
  {
    if ops != [] {
      QuietKeepsAlive(h, ops[..|ops| - 1]);
      StepKeepsAlive(Run(h, ops[..|ops| - 1]), ops[|ops| - 1]);
    }
  }

  lemma StepKeepsAlive(h: DriveHost, op: DriveOp)
    requires Quiet(op)
    ensures Step(h, op).ctl.alive == h.ctl.alive
  {
  }

  /** Resetting, clearing and relinking makes any live controller grant. */
  lemma Grantable(h: DriveHost, ops: seq<DriveOp>)
    requires h.ctl.alive && ops == [Op.ResetEstop(Written, 0.0), Op.ClearAllFaults, Op.SetLink(true, 0.0)]
    ensures Grants(Run(h, ops), 0.0, h.ctl.timeout)
  {
    var h1 := Step(h, ops[0]);
    var h2 := Step(h1, ops[1]);
    assert ops[..2] == [ops[0], ops[1]] && ops[..2][..1] == [ops[0]] && [ops[0]][..0] == [];
    assert Run(h, [ops[0]]) == Step(Run(h, []), ops[0]);
    assert Run(h, ops[..2]) == h2;
    assert h2.ctl.faults == {};
  }

  /** A world in which nobody interferes after the permission has been asked for. */
  function Uneventful(timeout: real): World {
    World(0.0, timeout, 0.0, "0", [Op.ResetEstop(Written, 0.0), Op.ClearAllFaults, Op.SetLink(true, 0.0)], [],
          (k: nat) => TickInput([], false, true, false), [], 0.0, [])
  }

  /**
   A drive ends unpowered in every world exactly when the body can move, the goal is already
   within reach, or the controller is dead and grants nothing.
   */
  lemma AlwaysReleasedIff(h: DriveHost, p: Plan)
    ensures AlwaysReleased(h, p) <==> p.canMove || p.distance(h.pose) <= D.ARRIVAL_M || !h.ctl.alive
  {
    if !p.canMove && p.distance(h.pose) > D.ARRIVAL_M && h.ctl.alive {
      var world := Uneventful(h.ctl.timeout);
      Grantable(h, world.beforeAcquire);
      assert world.Valid() && LeavesPower(h, p, world);
    } else {
      forall world: World | world.Valid() ensures !LeavesPower(h, p, world) {
        QuietKeepsAlive(h, world.beforeAcquire);
      }
    }
  }

  // ----- a whole drive: steps, one request, steps

  function DriveRun(h: DriveHost, before: seq<DriveOp>, ask: DriveOp, after: seq<DriveOp>): DriveHost {
    Run(Step(Run(h, before), ask), after)
  }

  /** An e-stop at any point of a drive leaves the droid emergency-stopped at its end. */
  lemma EstopEndsDrive(h: DriveHost, before: seq<DriveOp>, world: World, after: seq<DriveOp>)
    requires DriveSteps(before) && DriveSteps(after) && (HasEstop(before) || HasEstop(after))
    ensures DriveRun(h, before, world.Asks(), after).state == EmergencyStopped
  {
    var asked := Step(Run(h, before), world.Asks());
    if HasEstop(after) {
      EstopDecidesState(asked, after);
    } else {
      EstopDecidesState(h, before);
      StepsKeepStopped(asked, after);
    }
  }

  /** A stop or fault that nobody takes back. */
  predicate StandingStop(ops: seq<DriveOp>, i: nat) {
    && i < |ops| && (ops[i].EngageEstop? || ops[i].ReportFault?)
    && forall j :: i < j < |ops| ==> !ops[j].ResetEstop? && !ops[j].ClearFault? && !ops[j].ClearAllFaults?
  }

  lemma {:induction false} StopStands(h: DriveHost, ops: seq<DriveOp>, i: nat)
    requires DriveSteps(ops) && StandingStop(ops, i)
    ensures Run(h, ops).ctl.estop || Run(h, ops).ctl.faults != {}
    decreases |ops|
  {
    var n := |ops| - 1;
    if i < n {
      assert StandingStop(ops[..n], i);
      StopStands(h, ops[..n], i);
      StepKeepsStop(Run(h, ops[..n]), ops[n]);
    } else if ops[i].ReportFault? {
      assert ops[i].name in Run(h, ops).ctl.faults;
    }
  }

  lemma StepKeepsStop(h: DriveHost, op: DriveOp)
    requires DriveStep(op) && !op.ResetEstop? && !op.ClearFault? && !op.ClearAllFaults?
    requires h.ctl.estop || h.ctl.faults != {}
    ensures Step(h, op).ctl.estop || Step(h, op).ctl.faults != {}
  {
    if op.ReportFault? {
      assert op.name in Step(h, op).ctl.faults;
    }
  }

  /** A grant powers the backend, a refusal changes no power for the better; neither moves the body. */
  lemma AskFacts(h: DriveHost, world: World)
    ensures var asked := Step(h, world.Asks());
            && asked.pose == h.pose && asked.state == h.state
            && asked.backendPower == (h.backendPower || Grants(h, world.beat, world.read))
            && (!Grants(h, world.beat, world.read) && !h.ctl.power ==> !asked.ctl.power)
  {
  }

  // ----- the drive that the world determines

  /** The host once the permission has been asked for, and once the drive has entered its active state. */
  function Asked(world: World, h: DriveHost): DriveHost {
    Step(Run(h, world.beforeAcquire), world.Asks())
  }

  function Entering(world: World): seq<DriveOp> {
    world.beforeActive + [Op.EnterActive]
  }

  function Underway(world: World, h: DriveHost): DriveHost {
    Run(Asked(world, h), Entering(world))
  }

  /** What follows the loop on a normal return. */
  function Ending(world: World): seq<DriveOp> {
    world.beforeRelease + [Op.Release(world.released)] + Leaving(world)
  }

  function Leaving(world: World): seq<DriveOp> {
    world.afterRelease + [Op.LeaveActive]
  }

  /** Everything that happens to the host after the request, in order. */
  function AfterOps(p: Plan, world: World, h: DriveHost, outcome: Outcome, n: nat): seq<DriveOp> {
    if outcome == Refused then Leaving(world)
    else Entering(world) + LoopOps(p, world, Underway(world, h), n) + if outcome == Raised then [] else Ending(world)
  }

  /** The interference in a drive after its request: all that the world holds up to where the drive ends. */
  function Interference(world: World, outcome: Outcome, n: nat): seq<DriveOp> {
    if outcome == Refused then world.afterRelease
    else world.beforeActive + Disturbances(world, Begun(n)) + if outcome == Raised then [] else world.beforeRelease + world.afterRelease
  }

  /** The drive of this plan in this world ends so, after `n` ticks that went on. */
  ghost predicate Drove(p: Plan, world: World, h: DriveHost, outcome: Outcome, n: nat) {
    if Grants(Run(h, world.beforeAcquire), world.beat, world.read) then Driven(p, world, Underway(world, h), n, outcome)
    else outcome == Refused
  }

  function Final(p: Plan, world: World, h: DriveHost, outcome: Outcome, n: nat): DriveHost {
    Run(Asked(world, h), AfterOps(p, world, h, outcome, n))
  }

  lemma ReleaseThenLeave(world: World, h: DriveHost)
    ensures Run(Run(h, world.beforeRelease + [Op.Release(world.released)]), Leaving(world)) == Run(h, Ending(world))
  {
    RunAppend(h, world.beforeRelease + [Op.Release(world.released)], Leaving(world));
  }

  lemma StepsAppend(xs: seq<DriveOp>, ys: seq<DriveOp>)
    requires DriveSteps(xs) && DriveSteps(ys)
    ensures DriveSteps(xs + ys)
  {
  }

  lemma EndingSteps(world: World)
    requires world.Valid()
    ensures DriveSteps(Entering(world)) && DriveSteps(Ending(world)) && DriveSteps(Leaving(world))
  {
    StepsAppend(world.beforeActive, [Op.EnterActive]);
    StepsAppend(world.afterRelease, [Op.LeaveActive]);
    StepsAppend(world.beforeRelease, [Op.Release(world.released)]);
    StepsAppend(world.beforeRelease + [Op.Release(world.released)], Leaving(world));
  }

  lemma AfterSteps(p: Plan, world: World, h: DriveHost, outcome: Outcome, n: nat)
    requires world.Valid() && n <= D.MAX_DRIVE_TICKS
    ensures DriveSteps(AfterOps(p, world, h, outcome, n))
  {
    EndingSteps(world);
    if outcome != Refused {
      var loop := LoopOps(p, world, Underway(world, h), n);
      LoopTakesAll(p, world, Underway(world, h), n);
      StepsAppend(Entering(world), loop);
      StepsAppend(Entering(world) + loop, if outcome == Raised then [] else Ending(world));
    }
  }

  /** An e-stop happens in a drive exactly if the world holds one up to where the drive ends. */
  lemma EstopFromWorld(p: Plan, world: World, h: DriveHost, outcome: Outcome, n: nat)
    requires world.Valid() && n <= D.MAX_DRIVE_TICKS
    ensures HasEstop(AfterOps(p, world, h, outcome, n)) <==> HasEstop(Interference(world, outcome, n))
  {
    EstopAppend(world.afterRelease, [Op.LeaveActive]);
    if outcome != Refused {
      var loop := LoopOps(p, world, Underway(world, h), n);
      LoopTakesAll(p, world, Underway(world, h), n);
      EstopOfOthers(loop);
      EstopAppend(world.beforeActive, [Op.EnterActive]);
      EstopAppend(Entering(world), loop);
      EstopAppend(world.beforeActive, Disturbances(world, Begun(n)));
      if outcome != Raised {
        EndingEstop(world);
        EstopAppend(Entering(world) + loop, Ending(world));
        EstopAppend(world.beforeActive + Disturbances(world, Begun(n)), world.beforeRelease + world.afterRelease);
      } else {
        EstopAppend(Entering(world) + loop, []);
        EstopAppend(world.beforeActive + Disturbances(world, Begun(n)), []);
      }
    }
  }

  lemma EndingEstop(world: World)
    ensures HasEstop(Ending(world)) <==> HasEstop(world.beforeRelease + world.afterRelease)
  {
    EstopAppend(world.afterRelease, [Op.LeaveActive]);
    EstopAppend(world.beforeRelease, [Op.Release(world.released)]);
    EstopAppend(world.beforeRelease + [Op.Release(world.released)], Leaving(world));
    EstopAppend(world.beforeRelease, world.afterRelease);
  }

  // ----- the pose a drive ends with

  lemma UnderwayPose(world: World, h: DriveHost)
    requires world.Valid()
    ensures Underway(world, h).pose == h.pose
  {
    QuietKeepsPose(h, world.beforeAcquire);
    AskFacts(Run(h, world.beforeAcquire), world);
    RunSnoc(Asked(world, h), world.beforeActive, Op.EnterActive);
    QuietKeepsPose(Asked(world, h), world.beforeActive);
  }

  lemma EndingKeepsPose(world: World, h: DriveHost)
    requires world.Valid()
    ensures Run(h, Ending(world)).pose == h.pose && Run(h, Leaving(world)).pose == h.pose
  {
    var r := world.beforeRelease + [Op.Release(world.released)];
    RunAppend(h, r, Leaving(world));
    RunSnoc(h, world.beforeRelease, Op.Release(world.released));
    QuietKeepsPose(h, world.beforeRelease);
    LeavingKeepsPose(world, h);
    LeavingKeepsPose(world, Run(h, r));
  }

  lemma LeavingKeepsPose(world: World, h: DriveHost)
    requires world.Valid()
    ensures Run(h, Leaving(world)).pose == h.pose
  {
    RunSnoc(h, world.afterRelease, Op.LeaveActive);
    QuietKeepsPose(h, world.afterRelease);
  }

  /** The run of a granted drive, part by part. */
  lemma FinalParts(p: Plan, world: World, h: DriveHost, outcome: Outcome, n: nat)
    requires outcome != Refused
    ensures var driven := LoopEnd(p, world, Underway(world, h), n);
            Final(p, world, h, outcome, n) == if outcome == Raised then driven else Run(driven, Ending(world))
  {
    var loop := LoopOps(p, world, Underway(world, h), n);
    LoopRun(p, world, Underway(world, h), n);
    RunAppend(Asked(world, h), Entering(world), loop);
    RunAppend(Asked(world, h), Entering(world) + loop, Ending(world));
    assert Entering(world) + loop + [] == Entering(world) + loop;
  }

  /** A drive ends where its last tick began. */
  lemma FinalPose(p: Plan, world: World, h: DriveHost, outcome: Outcome, n: nat)
    requires world.Valid() && n <= D.MAX_DRIVE_TICKS
    ensures Final(p, world, h, outcome, n).pose == if outcome == Refused then h.pose else PoseAt(p, world, Underway(world, h), n)
  {
    if outcome == Refused {
      QuietKeepsPose(h, world.beforeAcquire);
      AskFacts(Run(h, world.beforeAcquire), world);
      LeavingKeepsPose(world, Asked(world, h));
    } else {
      FinalParts(p, world, h, outcome, n);
      LoopPose(p, world, Underway(world, h), n);
      EndingKeepsPose(world, LoopEnd(p, world, Underway(world, h), n));
    }
  }

  /**
   A cancellation, a lost localization or an obstacle at some tick: the drive gets no further
   than that tick, and if it gets there, it ends for one of these reasons and the body is
   where the tick found it. It does get there if it can move and is not close enough before.
   */
  lemma FlagEndsDrive(p: Plan, world: World, h: DriveHost, outcome: Outcome, n: nat, k: nat)
    requires world.Valid() && Drove(p, world, h, outcome, n) && outcome != Refused && k < 3000
    requires world.tick(k).cancelled || !world.tick(k).localized || world.tick(k).blocked
    ensures n <= k
    ensures n == k ==> outcome in {Cancelled, LocalizationLost, Blocked}
    ensures n == k ==> Final(p, world, h, outcome, n).pose == PoseAt(p, world, Underway(world, h), k)
    ensures p.canMove && NothingBefore(p, world, Underway(world, h), k) ==> n == k
  {
    OutcomeFromFlags(p, world, Underway(world, h), n, outcome);
    FinalPose(p, world, h, outcome, n);
  }

  /** No tick before this one has a reason to stop. */
  ghost predicate NothingBefore(p: Plan, world: World, h: DriveHost, k: nat) {
    forall j: nat :: j < k ==> world.tick(j).Clear() && p.distance(PoseAt(p, world, h, j)) > 0.15
  }

  /** An e-stop, fault or release among a tick's interference: the drive ends where that tick began. */
  lemma StopInTick(p: Plan, world: World, h: DriveHost, outcome: Outcome, n: nat, k: nat)
    requires world.Valid() && Drove(p, world, h, outcome, n) && outcome != Refused
    requires k < Begun(n) && !NoCuts(world.tick(k).before)
    ensures Final(p, world, h, outcome, n).pose == PoseAt(p, world, Underway(world, h), k)
    ensures k == 0 ==> Final(p, world, h, outcome, n).pose == h.pose
  {
    FinalPose(p, world, h, outcome, n);
    CutInTick(p, world, Underway(world, h), k, n);
    UnderwayPose(world, h);
    assert Moves(p, world, Underway(world, h), 0) == [];
  }

  /** One before the first tick: the body does not move at all. */
  lemma StopBeforeTicks(p: Plan, world: World, h: DriveHost, outcome: Outcome, n: nat)
    requires world.Valid() && Drove(p, world, h, outcome, n) && outcome != Refused && !NoCuts(world.beforeActive)
    ensures Final(p, world, h, outcome, n).pose == h.pose
  {
    var u := Underway(world, h);
    FinalPose(p, world, h, outcome, n);
    UnderwayPose(world, h);
    EndingSteps(world);
    PowerCutBy(Asked(world, h), Entering(world), world.beforeActive);
    OthersOfMoves(p, world, u, n);
    MovesRun(p, world, u, n);
    StepsFrozen(u, Moves(p, world, u, n));
  }

  lemma PowerCutBy(h: DriveHost, ops: seq<DriveOp>, part: seq<DriveOp>)
    requires DriveSteps(ops) && part <= ops && !NoCuts(part)
    ensures !Run(h, ops).backendPower
  {
    var i :| 0 <= i < |part| && Cuts(part[i]);
    assert ops[i] == part[i];
    if h.backendPower {
      PowerLastsUntilCut(h, ops);
    } else {
      PowerStaysOff(h, ops);
    }
  }

  lemma {:induction false} PowerStaysOff(h: DriveHost, ops: seq<DriveOp>)
    requires DriveSteps(ops) && !h.backendPower
    ensures !Run(h, ops).backendPower
  {
    if ops != [] {
      PowerStaysOff(h, ops[..|ops| - 1]);
      StepPower(Run(h, ops[..|ops| - 1]), ops[|ops| - 1]);
    }
  }

  /** Arrival is within the radius, and an undisturbed drive arrives exactly if its ticks suffice. */
  lemma ArrivalFacts(p: Plan, world: World, h: DriveHost, outcome: Outcome, n: nat)
    requires world.Valid() && Drove(p, world, h, outcome, n) && n <= D.MAX_DRIVE_TICKS
    ensures outcome == Arrived ==> p.distance(Final(p, world, h, outcome, n).pose) <= D.ARRIVAL_M
    ensures outcome != Refused && p.canMove && world.Undisturbed() ==> (outcome == Arrived <==> Reaches(p, h.pose))
  {
    FinalPose(p, world, h, outcome, n);
    if outcome != Refused {
      UnderwayPose(world, h);
      if p.canMove && world.Undisturbed() {
        UndisturbedPower(world, h);
        SmoothArrives(p, world, Underway(world, h), n, outcome);
      }
    }
  }

  lemma UndisturbedPower(world: World, h: DriveHost)
    requires world.Undisturbed() && Grants(Run(h, world.beforeAcquire), world.beat, world.read)
    ensures Underway(world, h).backendPower
  {
    AskFacts(Run(h, world.beforeAcquire), world);
    PowerAtEntry(Asked(world, h), world.beforeActive);
  }

  lemma PowerAtEntry(h: DriveHost, ops: seq<DriveOp>)
    requires ops == [] && h.backendPower
    ensures Run(h, ops + [Op.EnterActive]).backendPower
  {
    RunSnoc(h, ops, Op.EnterActive);
  }

  /** Wherever a stop, fault or release comes after the grant, the body stays where it found it. */
  lemma StopsFreeze(p: Plan, world: World, h: DriveHost, outcome: Outcome, n: nat)
    requires world.Valid() && Drove(p, world, h, outcome, n)
    ensures outcome != Refused ==> forall k: nat :: k < Begun(n) && !NoCuts(world.tick(k).before) ==>
              Final(p, world, h, outcome, n).pose == PoseAt(p, world, Underway(world, h), k)
    ensures outcome != Refused && (!NoCuts(world.tick(0).before) || !NoCuts(world.beforeActive)) ==> Final(p, world, h, outcome, n).pose == h.pose
  {
    if outcome != Refused {
      forall k: nat | k < Begun(n) && !NoCuts(world.tick(k).before)
        ensures Final(p, world, h, outcome, n).pose == PoseAt(p, world, Underway(world, h), k)
      {
        StopInTick(p, world, h, outcome, n, k);
      }
      if !NoCuts(world.tick(0).before) {
        StopInTick(p, world, h, outcome, n, 0);
      }
      if !NoCuts(world.beforeActive) {
        StopBeforeTicks(p, world, h, outcome, n);
      }
    }
  }

  // ----- the power a drive ends with

  lemma EndingCutsPower(world: World, h: DriveHost)
    requires world.Valid()
    ensures !Run(h, Ending(world)).ctl.power && !Run(h, Ending(world)).backendPower
  {
    var r := world.beforeRelease + [Op.Release(world.released)];
    RunAppend(h, r, Leaving(world));
    RunSnoc(h, world.beforeRelease, Op.Release(world.released));
    EndingSteps(world);
    StepsKeepOff(Run(h, r), Leaving(world));
  }

  /** After the exception: power is on exactly if nothing since the grant has cut it. */
  lemma RaisedPower(p: Plan, world: World, h: DriveHost)
    requires world.Valid() && Grants(Run(h, world.beforeAcquire), world.beat, world.read)
    ensures Final(p, world, h, Raised, 0).backendPower <==> NoCuts(world.beforeActive) && NoCuts(world.tick(0).before)
    ensures Final(p, world, h, Raised, 0).backendPower <==> NoCuts(AfterOps(p, world, h, Raised, 0))
  {
    var after := AfterOps(p, world, h, Raised, 0);
    AskFacts(Run(h, world.beforeAcquire), world);
    AfterSteps(p, world, h, Raised, 0);
    PowerLastsUntilCut(Asked(world, h), after);
    assert Moves(p, world, Underway(world, h), 0) + world.tick(0).before == world.tick(0).before;
    assert after == Entering(world) + world.tick(0).before;
    NoCutsAppend(Entering(world), world.tick(0).before);
    NoCutsAppend(world.beforeActive, [Op.EnterActive]);
  }

  lemma NoCutsAppend(xs: seq<DriveOp>, ys: seq<DriveOp>)
    ensures NoCuts(xs + ys) <==> NoCuts(xs) && NoCuts(ys)
  {
    var all := xs + ys;
    assert forall i :: 0 <= i < |xs| ==> all[i] == xs[i];
    assert forall i :: 0 <= i < |ys| ==> all[|xs| + i] == ys[i];
  }

  lemma RaisedFacts(p: Plan, world: World, h: DriveHost, outcome: Outcome, n: nat)
    requires world.Valid() && Drove(p, world, h, outcome, n)
    ensures outcome == Raised <==> Grants(Run(h, world.beforeAcquire), world.beat, world.read) && Strands(p, world, h.pose)
    ensures outcome == Refused <==> !Grants(Run(h, world.beforeAcquire), world.beat, world.read)
    ensures outcome == Raised ==> n == 0
  {
    if Grants(Run(h, world.beforeAcquire), world.beat, world.read) {
      UnderwayPose(world, h);
      RaisedIff(p, world, Underway(world, h), n, outcome);
    }
  }

  /** From an unpowered start: off again on every normal return, and left on by the exception exactly in these worlds. */
  lemma FinalPower(p: Plan, world: World, h: DriveHost, outcome: Outcome, n: nat)
    requires world.Valid() && Drove(p, world, h, outcome, n) && !h.ctl.power && !h.backendPower
    ensures Final(p, world, h, outcome, n).backendPower <==> LeavesPower(h, p, world)
    ensures outcome != Raised ==> !Final(p, world, h, outcome, n).ctl.power
  {
    RaisedFacts(p, world, h, outcome, n);
    if outcome == Raised {
      RaisedPower(p, world, h);
    } else if outcome == Refused {
      StepsKeepOff(h, world.beforeAcquire);
      AskFacts(Run(h, world.beforeAcquire), world);
      EndingSteps(world);
      StepsKeepOff(Asked(world, h), Leaving(world));
    } else {
      FinalParts(p, world, h, outcome, n);
      EndingCutsPower(world, LoopEnd(p, world, Underway(world, h), n));
    }
  }

  // ----- the state a drive ends with

  lemma LoopState(p: Plan, world: World, h: DriveHost, n: nat)
    requires world.Valid() && n <= D.MAX_DRIVE_TICKS
    ensures StateMoves(LoopOps(p, world, h, n), h.state, LoopEnd(p, world, h, n).state)
  {
    LoopTakesAll(p, world, h, n);
    LoopRun(p, world, h, n);
    CruiseMoves(h, LoopOps(p, world, h, n), LoopEnd(p, world, h, n));
  }

  lemma EndingState(world: World, h: DriveHost)
    requires world.Valid()
    ensures StateMoves(Ending(world), Left(h.state), Run(h, Ending(world)).state)
  {
    var r := world.beforeRelease + [Op.Release(world.released)];
    assert Cruising(r);
    CruiseMoves(h, r, Run(h, r));
    RunAppend(h, r, Leaving(world));
    LeftState(Run(h, r), world.afterRelease);
    StateMovesOn(r, h.state, Run(h, r).state, Leaving(world), Run(h, Ending(world)).state, Left(h.state));
  }

  /** Without an e-stop after the request: the state the drive leaves behind. */
  lemma QuietFinalState(p: Plan, world: World, h: DriveHost, outcome: Outcome, n: nat)
    requires world.Valid() && n <= D.MAX_DRIVE_TICKS
    ensures var s := Asked(world, h).state;
            StateMoves(AfterOps(p, world, h, outcome, n), if outcome == Refused then Left(s) else if outcome == Raised then Entered(s) else Left(Entered(s)),
                       Final(p, world, h, outcome, n).state)
  {
    var asked := Asked(world, h);
    if outcome == Refused {
      LeftState(asked, world.afterRelease);
    } else {
      var u := Underway(world, h);
      var loop := LoopOps(p, world, u, n);
      var driven := LoopEnd(p, world, u, n);
      EnteredState(asked, world.beforeActive);
      LoopState(p, world, u, n);
      StateMovesOn(Entering(world), Entered(asked.state), u.state, loop, driven.state, Entered(asked.state));
      FinalParts(p, world, h, outcome, n);
      if outcome == Raised {
        assert AfterOps(p, world, h, outcome, n) == Entering(world) + loop;
      } else {
        EndingState(world, driven);
        StateMovesOn(Entering(world) + loop, Entered(asked.state), driven.state, Ending(world), Run(driven, Ending(world)).state, Left(Entered(asked.state)));
      }
    }
  }

  /** An e-stop anywhere in what the world holds ends EMERGENCY_STOPPED; otherwise the state follows from the start and the outcome. */
  lemma FinalState(p: Plan, world: World, h: DriveHost, outcome: Outcome, n: nat)
    requires world.Valid() && n <= D.MAX_DRIVE_TICKS
    ensures Final(p, world, h, outcome, n).state ==
            if HasEstop(world.beforeAcquire) || HasEstop(Interference(world, outcome, n)) then EmergencyStopped
            else if outcome == Refused then Left(h.state)
            else if outcome == Raised then Entered(h.state)
            else Left(Entered(h.state))
  {
    var after := AfterOps(p, world, h, outcome, n);
    EstopFromWorld(p, world, h, outcome, n);
    AfterSteps(p, world, h, outcome, n);
    QuietFinalState(p, world, h, outcome, n);
    CruiseMoves(h, world.beforeAcquire, Run(h, world.beforeAcquire));
    AskFacts(Run(h, world.beforeAcquire), world);
    if HasEstop(world.beforeAcquire) || HasEstop(after) {
      EstopEndsDrive(h, world.beforeAcquire, world, after);
    }
  }

  /** Without an e-stop: a drive that returns leaves a ready, degraded or active droid ready, an exception leaves it active, and a refusal changes nothing but an active state. */
  lemma StateAfterDrive(p: Plan, world: World, h: DriveHost, outcome: Outcome, n: nat)
    requires world.Valid() && n <= D.MAX_DRIVE_TICKS && !HasEstop(world.beforeAcquire) && !HasEstop(Interference(world, outcome, n))
    ensures var s := Final(p, world, h, outcome, n).state;
            if h.state in {Ready, Degraded, Active} then
              (if outcome == Raised then s == Active
               else if outcome == Refused then s == (if h.state == Active then Ready else h.state)
               else s == Ready)
            else s == h.state
  {
    FinalState(p, world, h, outcome, n);
  }

  /** A stop or fault that nobody takes back before the request refuses the drive, and the body does not move. */
  lemma StandingStopRefuses(p: Plan, world: World, h: DriveHost, outcome: Outcome, n: nat, i: nat)
    requires world.Valid() && Drove(p, world, h, outcome, n) && n <= D.MAX_DRIVE_TICKS && StandingStop(world.beforeAcquire, i)
    ensures outcome == Refused && Final(p, world, h, outcome, n).pose == h.pose
  {
    StopStands(h, world.beforeAcquire, i);
    FinalPose(p, world, h, outcome, n);
  }

  /** A body with the usual limits reaches every goal within 39 m in the ticks it has. */
  lemma NearGoalsReached(t: D.Trig, body: D.Body, goal: D.Pose, canMove: bool, start: D.Pose)
    requires t.Lawful() && t.pi <= 3.2 && A.SineLaws(t) && body.Sane() && body.MaxAng() >= 0.6 && body.MaxLin() >= D.ARRIVAL_M
    requires D.Distance(t, goal, start) <= 39.0
    ensures Reaches(Plan(canMove, D.Loop(t, body, goal), D.DistanceTo(t, goal)), start)
  {
    var k := A.BudgetReaches(t, body, goal, start);
    var p := Plan(canMove, D.Loop(t, body, goal), D.DistanceTo(t, goal));
    assert Close(p, start, k);
  }

  /** For any body, the tick budget covers the work from here, so the body gets there. */
  lemma EnoughTicksReach(t: D.Trig, body: D.Body, goal: D.Pose, canMove: bool, start: D.Pose)
    requires t.Lawful() && body.Sane() && D.EnoughTicks(t, body, goal, start, D.MAX_DRIVE_TICKS - 1)
    ensures Reaches(Plan(canMove, D.Loop(t, body, goal), D.DistanceTo(t, goal)), start)
  {
    var k := D.Arrives(t, body, goal, start, D.MAX_DRIVE_TICKS - 1);
    var p := Plan(canMove, D.Loop(t, body, goal), D.DistanceTo(t, goal));
    assert Close(p, start, k);
  }
}
