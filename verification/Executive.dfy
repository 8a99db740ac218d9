/** `_drive_to`: acquire motion permission, become active, drive tick by tick, release. */
module Executive {
  import opened DroidStates
  import opened SafetyStack
  import opened Wrappers
  import opened DriveProtocol
  import D = Drive

  class Executive {
    const gateway: SafetyGateway<D.Pose>
    const trig: D.Trig
    const body: D.Body
    const canMove: bool

    constructor (gateway: SafetyGateway<D.Pose>, trig: D.Trig, body: D.Body, canMove: bool)
      ensures this.gateway == gateway && this.trig == trig && this.body == body && this.canMove == canMove
    {
      this.gateway, this.trig, this.body, this.canMove := gateway, trig, body, canMove;
    }

    function View(): DriveHost
      reads gateway.Footprint()
    {
      gateway.View()
    }

    /** One operation of somebody else. */
    method Apply(op: DriveOp)
      requires gateway.Valid() && Quiet(op)
      modifies gateway.Footprint()
      ensures gateway.Valid() && View() == Step(old(View()), op)
    {
      match op {
        case EngageEstop(reason, write, now) => gateway.EngageEstop(reason, write, now);
        case ResetEstop(write, now) => gateway.ResetEstop(write, now);
        case Release(now) => gateway.ReleaseMotionPermission(now);
        case ReportFault(name, now) => gateway.ReportFault(name, now);
        case SetLink(up, now) => gateway.SetSafetyLink(up, now);
        case ReadStatus(beat, read) => var _ := gateway.Status(beat, read);
        case PollStatus(read) => var _ := gateway.EstopEngaged(read);
        case ClearFault(name) => gateway.controller.ClearFault(name);
        case ClearAllFaults => gateway.controller.ClearAllFaults();
      }
    }

    method Interleave(ops: seq<DriveOp>)
      requires gateway.Valid() && AllQuiet(ops)
      modifies gateway.Footprint()
      ensures gateway.Valid() && View() == Run(old(View()), ops)
    {
      var i := 0;
      while i < |ops|
        invariant 0 <= i <= |ops| && gateway.Valid()
        invariant View() == Run(old(View()), ops[..i])
      {
        assert ops[..i + 1][..i] == ops[..i];
        Apply(ops[i]);
        i := i + 1;
      }
      assert ops[..i] == ops;
    }

    /** A clamped velocity command and its integration, which only a powered backend performs. */
    method CommandVelocity(goal: D.Pose)
      requires gateway.Valid() && trig.pi > 0.0
      modifies gateway.Footprint()
      ensures gateway.Valid() && View() == Step(old(View()), Op.Drive(D.Tick(trig, body, goal, old(View()).pose)))
    {
      var pose := gateway.rt.pose;
      var vel := D.VelocityToward(trig, body, goal, pose);
      var clamped := D.MotionClamp(body, vel);
      var next := D.Integrate(trig, pose, D.PlantClamp(body, clamped), D.DRIVE_DT);
      if gateway.rt.backendPower {
        gateway.rt.pose := next;
      }
    }

    /** The `enter_active` closure, which succeeds from every state. */
    method EnterActive()
      requires gateway.Valid()
      modifies gateway.Footprint()
      ensures gateway.Valid() && View() == Step(old(View()), Op.EnterActive)
    {
      var m := gateway.rt.machine;
      if m.state == Ready || m.state == Degraded {
        var ok := m.Transition(Active);
      }
    }

    method LeaveActive()
      requires gateway.Valid()
      modifies gateway.Footprint()
      ensures gateway.Valid() && View() == Step(old(View()), Op.LeaveActive)
    {
      var m := gateway.rt.machine;
      if m.state == Active {
        var ok := m.Transition(Ready);
      }
    }

    function PlanFor(goal: D.Pose): Plan
      requires trig.pi > 0.0
    {
      Plan(canMove, D.Loop(trig, body, goal), D.DistanceTo(trig, goal))
    }

    /** One turn of the `drive` closure: the way it ends the loop, or nothing if the loop goes on. */
    method DriveTick(goal: D.Pose, input: TickInput) returns (end: Option<Outcome>)
      requires gateway.Valid() && trig.pi > 0.0 && AllQuiet(input.before)
      modifies gateway.Footprint()
      ensures gateway.Valid() && end == TickEnd(PlanFor(goal), input, old(View()).pose)
      ensures View() == Run(old(View()), TickOps(PlanFor(goal), input, old(View()).pose))
      ensures end.Some? ==> View() == Run(old(View()), input.before)
    {
      ghost var start := View();
      Interleave(input.before);
      QuietKeepsPose(start, input.before);
      assert input.before + [] == input.before;
      if input.cancelled {
        return Some(Cancelled);
      }
      if !input.localized {
        return Some(LocalizationLost);
      }
      if input.blocked {
        return Some(Blocked);
      }
      if D.Distance(trig, goal, gateway.rt.pose) <= D.ARRIVAL_M {
        return Some(Arrived);
      }
      if !canMove {
        return Some(Raised);
      }
      RunSnoc(start, input.before, Op.Drive(D.Tick(trig, body, goal, start.pose)));
      CommandVelocity(goal);
      end := None;
    }

    /** The `drive` closure: at most 3000 ticks, of which `n` went on. */
    method DriveLoop(goal: D.Pose, world: World) returns (outcome: Outcome, n: nat)
      requires gateway.Valid() && trig.pi > 0.0 && world.Valid()
      modifies gateway.Footprint()
      ensures gateway.Valid() && Driven(PlanFor(goal), world, old(View()), n, outcome)
      ensures View() == LoopEnd(PlanFor(goal), world, old(View()), n)
    {
      ghost var start := View();
      n := 0;
      while n < D.MAX_DRIVE_TICKS
        invariant 0 <= n <= D.MAX_DRIVE_TICKS && gateway.Valid()
        invariant HostAt(PlanFor(goal), world, start, n) == View()
        invariant AllGoOn(PlanFor(goal), world, start, n)
      {
        var end := DriveTurn(goal, world, n, start);
        if end.Some? {
          return end.value, n;
        }
        n := n + 1;
      }
      outcome := Timeout;
    }

    /** The tick after `n` that went on, seen from the start of the loop. */
    method DriveTurn(goal: D.Pose, world: World, n: nat, ghost start: DriveHost) returns (end: Option<Outcome>)
      requires gateway.Valid() && trig.pi > 0.0 && world.Valid() && n < D.MAX_DRIVE_TICKS
      requires View() == HostAt(PlanFor(goal), world, start, n) && AllGoOn(PlanFor(goal), world, start, n)
      modifies gateway.Footprint()
      ensures gateway.Valid()
      ensures end.None? ==> View() == HostAt(PlanFor(goal), world, start, n + 1) && AllGoOn(PlanFor(goal), world, start, n + 1)
      ensures end.Some? ==> View() == LoopEnd(PlanFor(goal), world, start, n) && Driven(PlanFor(goal), world, start, n, end.value)
    {
      assert AllQuiet(world.tick(n).before);
      end := DriveTick(goal, world.tick(n));
      if end.None? {
        OneMoreGoesOn(PlanFor(goal), world, start, n);
      }
    }

    /** The `enter_active` and `drive` closures after a grant, and the release that an exception skips. */
    method PoweredDrive(goal: D.Pose, world: World) returns (outcome: Outcome, n: nat)
      requires gateway.Valid() && trig.pi > 0.0 && world.Valid()
      modifies gateway.Footprint()
      ensures gateway.Valid()
      ensures var begun := Run(old(View()), Entering(world));
              var driven := LoopEnd(PlanFor(goal), world, begun, n);
              && Driven(PlanFor(goal), world, begun, n, outcome)
              && View() == if outcome == Raised then driven else Run(driven, world.beforeRelease + [Op.Release(world.released)])
    {
      ghost var start := View();
      Interleave(world.beforeActive);
      EnterActive();
      RunSnoc(start, world.beforeActive, Op.EnterActive);
      outcome, n := DriveLoop(goal, world);
      if outcome == Raised {
        return;
      }
      ghost var driven := View();
      Interleave(world.beforeRelease);
      gateway.ReleaseMotionPermission(world.released);
      RunSnoc(driven, world.beforeRelease, Op.Release(world.released));
    }

    /** Out of the active state, after whatever others still do. */
    method Settle(world: World)
      requires gateway.Valid() && world.Valid()
      modifies gateway.Footprint()
      ensures gateway.Valid() && View() == Run(old(View()), Leaving(world))
    {
      ghost var start := View();
      Interleave(world.afterRelease);
      LeaveActive();
      RunSnoc(start, world.afterRelease, Op.LeaveActive);
    }

    /**
     `_drive_to`: exactly the drive that the plan and the world determine, of which `n` ticks
     went on before it ended. What such a drive guarantees is proved of `Drove` and `Final`.
     */
    method DriveTo(goal: D.Pose, world: World) returns (outcome: Outcome, n: nat)
      requires gateway.Valid() && trig.pi > 0.0 && world.Valid()
      modifies gateway.Footprint()
      ensures gateway.Valid() && n <= D.MAX_DRIVE_TICKS && Drove(PlanFor(goal), world, old(View()), outcome, n)
      ensures View() == Final(PlanFor(goal), world, old(View()), outcome, n)
    {
      ghost var start := View();
      Interleave(world.beforeAcquire);
      var granted := gateway.RequestMotionPermission(world.beat, world.read, world.logged, world.stamp);
      outcome, n := Refused, 0;
      if granted {
        outcome, n := PoweredDrive(goal, world);
        RaisedFacts(PlanFor(goal), world, start, outcome, n);
        FinalParts(PlanFor(goal), world, start, outcome, n);
        if outcome == Raised {
          return;
        }
        ReleaseThenLeave(world, LoopEnd(PlanFor(goal), world, Underway(world, start), n));
      }
      Settle(world);
    }
  }
}
