/**
 What the history of a host says about its safety controller: when a silent host loses
 power, which faults are pending, and what a grant takes. The answers are read off the
 operations, not off the controller.
 */
module SafetyHistory {
  import opened DroidStates
  import opened SafetyStack

  // ----- the watchdog

  /** The last heartbeat of a run, the start of the process counting as one. */
  function LastBeat<Pose>(start: real, ops: seq<Op<Pose>>): real {
    if ops == [] then start else BeatAfter(LastBeat(start, ops[..|ops| - 1]), ops[|ops| - 1])
  }

  function BeatAfter<Pose>(last: real, op: Op<Pose>): real {
    match op
    case Request(beat, _, _, _) => beat
    case ReadStatus(beat, _) => beat
    case Refresh(_, beat, _, _) => beat
    case Reboot(_, _, activated) => activated
    case _ => last
  }

  /** A powered controller was last contacted by that heartbeat, and waits one second for the next. */
  predicate BeatKnown(c: Controller, beat: real) {
    c.timeout == 1.0 && c.PowerSafe() && (c.power ==> c.lastContact == beat)
  }

  lemma StepBeat<Pose>(h: Host<Pose>, op: Op<Pose>, last: real)
    requires BeatKnown(h.ctl, last)
    ensures BeatKnown(Step(h, op).ctl, BeatAfter(last, op))
  {
    StepSafe(h, op);
    StepContact(h, op, last);
  }

  lemma StepContact<Pose>(h: Host<Pose>, op: Op<Pose>, last: real)
    requires BeatKnown(h.ctl, last)
    ensures var c := Step(h, op).ctl; c.timeout == 1.0 && (c.power ==> c.lastContact == BeatAfter(last, op))
  {
  }

  lemma StepSafe<Pose>(h: Host<Pose>, op: Op<Pose>)
    requires h.ctl.PowerSafe()
    ensures Step(h, op).ctl.PowerSafe()
  {
    match op
    case ClearAllFaults =>
      assert h.ctl.faults == {} ==> h.ctl.ClearAll().faults == {};
    case ResetEstop(_, _) =>
      assert h.ctl.faults == {} ==> h.ctl.Reset().faults == {};
    case _ =>
  }

  lemma {:induction false} RunBeat<Pose>(h: Host<Pose>, now: real, ops: seq<Op<Pose>>)
    requires h.ctl == NewController(now)
    ensures BeatKnown(Run(h, ops).ctl, LastBeat(now, ops))
  {
    if ops != [] {
      var n := |ops| - 1;
      RunBeat(h, now, ops[..n]);
      StepBeat(Run(h, ops[..n]), ops[n], LastBeat(now, ops[..n]));
    }
  }

  /** Over every run from a process start: a status that reports power, or permits movement, comes at most a second after the last heartbeat. */
  lemma SilentHostLosesPower<Pose>(h: Host<Pose>, now: real, ops: seq<Op<Pose>>, read: real)
    requires h.ctl == NewController(now)
    ensures var st := Run(h, ops).ctl.Status(read);
            st.power || st.MovementPermitted() ==> read - LastBeat(now, ops) <= 1.0
  {
    RunBeat(h, now, ops);
  }

  predicate NoRequest<Pose>(ops: seq<Op<Pose>>) {
    forall i :: 0 <= i < |ops| ==> !ops[i].Request?
  }

  lemma StepNeedsRequest<Pose>(h: Host<Pose>, op: Op<Pose>)
    requires !h.ctl.power && !op.Request?
    ensures !Step(h, op).ctl.power
  {
  }

  /** Controller power comes back only through a request. */
  lemma {:induction false} PowerNeedsRequest<Pose>(h: Host<Pose>, ops: seq<Op<Pose>>)
    requires !h.ctl.power && NoRequest(ops)
    ensures !Run(h, ops).ctl.power
  {
    if ops != [] {
      var n := |ops| - 1;
      assert NoRequest(ops[..n]);
      PowerNeedsRequest(h, ops[..n]);
      StepNeedsRequest(Run(h, ops[..n]), ops[n]);
    }
  }

  /** A status read more than a second after the last heartbeat takes power away until the next request. */
  lemma LateReadCutsPower<Pose>(h: Host<Pose>, now: real, ops: seq<Op<Pose>>, read: real, more: seq<Op<Pose>>)
    requires h.ctl == NewController(now) && read - LastBeat(now, ops) > 1.0 && NoRequest(more)
    ensures !Run(h, ops + [PollStatus(read)] + more).ctl.power
  {
    var poll: Op<Pose> := PollStatus(read);
    RunBeat(h, now, ops);
    RunAppend(h, ops + [poll], more);
    assert (ops + [poll])[..|ops|] == ops;
    PowerNeedsRequest(Run(h, ops + [poll]), more);
  }

  /** The operation takes controller power away, given when the last heartbeat before it was. */
  predicate Drops<Pose>(op: Op<Pose>, last: real) {
    match op
    case EngageEstop(_, _, _) => true
    case Release(_) => true
    case ReportFault(_, _) => true
    case Reboot(_, _, _) => true
    case SetLink(up, _) => !up
    case ResetEstop(_, t) => t - last > 1.0
    case PollStatus(t) => t - last > 1.0
    case ReadStatus(beat, t) => t - beat > 1.0
    case Request(beat, t, logged, _) => t - beat > 1.0 || logged - beat > 1.0
    case Refresh(t, beat, u, _) => t - last > 1.0 || u - beat > 1.0
    case _ => false
  }

  predicate DroppedAt<Pose>(now: real, ops: seq<Op<Pose>>, j: nat)
    requires j < |ops|
  {
    Drops(ops[j], LastBeat(now, ops[..j]))
  }

  /** A request that is granted and logged within the second. */
  predicate PowersUp<Pose>(h: Host<Pose>, op: Op<Pose>) {
    op.Request? && Grants(h, op.beat, op.read) && op.logged - op.beat <= 1.0
  }

  predicate PoweredUpAt<Pose>(h: Host<Pose>, ops: seq<Op<Pose>>, i: nat)
    requires i < |ops|
  {
    PowersUp(Run(h, ops[..i]), ops[i])
  }

  ghost predicate DroppedAfter<Pose>(now: real, ops: seq<Op<Pose>>, i: nat) {
    exists j: nat :: i < j < |ops| && DroppedAt(now, ops, j)
  }

  /** Some request powered the controller up, and nothing has taken power away since. */
  ghost predicate Powered<Pose>(h: Host<Pose>, now: real, ops: seq<Op<Pose>>) {
    exists i: nat :: i < |ops| && PoweredUpAt(h, ops, i) && !DroppedAfter(now, ops, i)
  }

  lemma StepPowers<Pose>(h: Host<Pose>, op: Op<Pose>, last: real)
    requires BeatKnown(h.ctl, last)
    ensures Step(h, op).ctl.power <==> PowersUp(h, op) || (h.ctl.power && !Drops(op, last))
  {
    match op
    case Request(_, _, _, _) => RequestPowers(h, op);
    case Refresh(_, _, _, _) => RefreshPowers(h, op, last);
    case _ =>
  }

  lemma RequestPowers<Pose>(h: Host<Pose>, op: Op<Pose>)
    requires h.ctl.timeout == 1.0 && h.ctl.PowerSafe() && op.Request?
    ensures Step(h, op).ctl.power <==> PowersUp(h, op) || (h.ctl.power && !Drops(op, 0.0))
  {
    GrantsIff(h, op.beat, op.read);
  }

  lemma RefreshPowers<Pose>(h: Host<Pose>, op: Op<Pose>, last: real)
    requires BeatKnown(h.ctl, last) && op.Refresh?
    ensures Step(h, op).ctl.power <==> h.ctl.power && !Drops(op, last)
  {
  }

  lemma DroppedSnoc<Pose>(now: real, ops: seq<Op<Pose>>, i: nat)
    requires i < |ops| - 1
    ensures DroppedAfter(now, ops, i) <==> DroppedAfter(now, ops[..|ops| - 1], i) || DroppedAt(now, ops, |ops| - 1)
  {
    var n := |ops| - 1;
    var ps := ops[..n];
    if DroppedAfter(now, ps, i) {
      var j: nat :| i < j < |ps| && DroppedAt(now, ps, j);
      DroppedPrefix(now, ops, j);
      assert DroppedAt(now, ops, j);
    }
    if DroppedAfter(now, ops, i) && !DroppedAt(now, ops, n) {
      var j: nat :| i < j < |ops| && DroppedAt(now, ops, j);
      DroppedPrefix(now, ops, j);
      assert DroppedAt(now, ps, j);
    }
  }

  lemma DroppedPrefix<Pose>(now: real, ops: seq<Op<Pose>>, j: nat)
    requires j < |ops| - 1
    ensures DroppedAt(now, ops, j) == DroppedAt(now, ops[..|ops| - 1], j)
  {
    assert ops[..|ops| - 1][..j] == ops[..j];
  }

  lemma PoweredUpPrefix<Pose>(h: Host<Pose>, ops: seq<Op<Pose>>, i: nat)
    requires i < |ops| - 1
    ensures PoweredUpAt(h, ops, i) == PoweredUpAt(h, ops[..|ops| - 1], i)
  {
    assert ops[..|ops| - 1][..i] == ops[..i];
  }

  lemma PoweredSnoc<Pose>(h: Host<Pose>, now: real, ops: seq<Op<Pose>>)
    requires ops != []
    ensures var n := |ops| - 1;
            Powered(h, now, ops) <==> PoweredUpAt(h, ops, n) || (Powered(h, now, ops[..n]) && !DroppedAt(now, ops, n))
  {
    var n := |ops| - 1;
    var ps := ops[..n];
    if PoweredUpAt(h, ops, n) {
      assert !DroppedAfter(now, ops, n);
    }
    if i: nat :| i < |ps| && PoweredUpAt(h, ps, i) && !DroppedAfter(now, ps, i) {
      PoweredUpPrefix(h, ops, i);
      DroppedSnoc(now, ops, i);
    }
    if i: nat :| i < |ops| && PoweredUpAt(h, ops, i) && !DroppedAfter(now, ops, i) {
      if i < n {
        PoweredUpPrefix(h, ops, i);
        DroppedSnoc(now, ops, i);
      }
    }
  }

  /**
   Over every run from a process start: the controller has power exactly if some request was
   granted and logged in time, and since then there was no e-stop, release, fault, lost link
   or reboot, and no look at the controller more than a second after the heartbeat before it.
   */
  lemma {:induction false} ControllerPoweredIff<Pose>(h: Host<Pose>, now: real, ops: seq<Op<Pose>>)
    requires h.ctl == NewController(now)
    ensures Run(h, ops).ctl.power <==> Powered(h, now, ops)
  {
    if ops != [] {
      var n := |ops| - 1;
      ControllerPoweredIff(h, now, ops[..n]);
      RunBeat(h, now, ops[..n]);
      StepPowers(Run(h, ops[..n]), ops[n], LastBeat(now, ops[..n]));
      PoweredSnoc(h, now, ops);
    }
  }

  // ----- what a grant takes

  /** A permission is granted exactly if the controller lives and is linked, no e-stop or fault stands, and the status is fresh. */
  lemma GrantsIff<Pose>(h: Host<Pose>, beat: real, read: real)
    ensures Grants(h, beat, read) <==>
            h.ctl.alive && h.ctl.linkUp && !h.ctl.estop && h.ctl.faults == {} && read - beat <= h.ctl.timeout
  {
  }

  /** What a granted request, and one that is refused, leave behind. */
  lemma RequestMeans<Pose>(h: Host<Pose>, beat: real, read: real, logged: real, stamp: string)
    ensures var r := Step(h, Request(beat, read, logged, stamp));
            && r.ctl.lastContact == beat
            && (Grants(h, beat, read) ==> r.backendPower && r.token == "mp-" + stamp && (r.ctl.power <==> logged - beat <= h.ctl.timeout))
            && (!Grants(h, beat, read) ==> r.backendPower == h.backendPower && r.token == h.token)
            && r.ctl.estop == h.ctl.estop && r.ctl.faults == h.ctl.faults && r.latch == h.latch && r.state == h.state && r.pose == h.pose
  {
  }

  /** What a status says about the controller it was read from. */
  lemma StatusMeans(c: Controller, now: real)
    ensures var st := c.Status(now);
            && (st.alive <==> c.alive && c.linkUp)
            && (st.watchdogOk <==> c.linkUp && now - c.lastContact <= c.timeout)
            && (st.power <==> c.power && st.watchdogOk)
            && st.estop == c.estop && st.faults == c.faults
            && (st.Healthy() <==> c.alive && st.watchdogOk && !c.estop && c.faults == {})
  {
  }

  /** What a new process starts from: everything off, and only the e-stop on file remembered. */
  lemma RebootMeans<Pose>(h: Host<Pose>, now: real, configured: real, activated: real)
    ensures var r := Step(h, Reboot(now, configured, activated));
            && !r.ctl.power && !r.backendPower && r.token == "" && r.state == PoweredOff && r.latch == h.latch && r.pose == h.pose
            && r.ctl.alive && r.ctl.linkUp && r.ctl.timeout == 1.0
            && (r.ctl.estop <==> h.latch.Latch? && h.latch.engaged)
  {
  }

  /** An orderly end switches the backend off and leaves the rest as it is. */
  lemma ShutdownMeans<Pose>(h: Host<Pose>)
    ensures var r := Step(h, Op<Pose>.Shutdown);
            !r.backendPower && r.state == PoweredOff && r.ctl == h.ctl && r.token == h.token && r.latch == h.latch && r.pose == h.pose
  {
  }

  // ----- which faults are pending

  /** The operation records this fault: it is reported, or it is the e-stop's reason. */
  predicate Records<Pose>(op: Op<Pose>, name: string) {
    || (op.ReportFault? && op.name == name)
    || (op.EngageEstop? && op.reason != "" && name == "estop:" + op.reason)
  }

  /** The operation removes it: by name, with all that are no e-stop faults, or with the e-stop. */
  ghost predicate Removes<Pose>(op: Op<Pose>, name: string) {
    var isEstop := StartsEstop(name);
    || (op.ClearFault? && op.name == name)
    || (op.ClearAllFaults? && !isEstop)
    || (op.ResetEstop? && isEstop)
  }

  ghost predicate StartsEstop(name: string) {
    exists rest :: name == "estop:" + rest
  }

  lemma StartsEstopIff(name: string)
    ensures StartsEstop(name) <==> IsEstopFault(name)
  {
    if IsEstopFault(name) {
      assert name == "estop:" + name[6..];
    }
  }

  predicate RecordedAt<Pose>(ops: seq<Op<Pose>>, i: nat, name: string)
    requires i < |ops|
  {
    Records(ops[i], name)
  }

  ghost predicate RemovedAfter<Pose>(ops: seq<Op<Pose>>, i: int, name: string) {
    exists j :: i < j < |ops| && 0 <= j && Removes(ops[j], name)
  }

  /** The fault was there or was recorded, and has not been removed since. */
  ghost predicate PendingFault<Pose>(h: Host<Pose>, ops: seq<Op<Pose>>, name: string) {
    || (name in h.ctl.faults && !RemovedAfter(ops, -1, name))
    || exists i :: 0 <= i < |ops| && RecordedAt(ops, i, name) && !RemovedAfter(ops, i, name)
  }

  lemma RemovedSnoc<Pose>(ops: seq<Op<Pose>>, i: int, name: string)
    requires ops != [] && -1 <= i < |ops| - 1
    ensures RemovedAfter(ops, i, name) <==> RemovedAfter(ops[..|ops| - 1], i, name) || Removes(ops[|ops| - 1], name)
  {
    var n := |ops| - 1;
    var ps := ops[..n];
    if RemovedAfter(ps, i, name) {
      var j :| i < j < |ps| && 0 <= j && Removes(ps[j], name);
      assert Removes(ops[j], name);
    }
    if RemovedAfter(ops, i, name) && !Removes(ops[n], name) {
      var j :| i < j < |ops| && 0 <= j && Removes(ops[j], name);
      assert Removes(ps[j], name);
    }
  }

  lemma PendingSnoc<Pose>(h: Host<Pose>, ops: seq<Op<Pose>>, name: string)
    requires ops != []
    ensures var n := |ops| - 1;
            PendingFault(h, ops, name) <==> Records(ops[n], name) || (PendingFault(h, ops[..n], name) && !Removes(ops[n], name))
  {
    var n := |ops| - 1;
    var ps := ops[..n];
    RemovedSnoc(ops, -1, name);
    if Records(ops[n], name) {
      assert RecordedAt(ops, n, name) && !RemovedAfter(ops, n, name);
    }
    if i :| 0 <= i < |ps| && RecordedAt(ps, i, name) && !RemovedAfter(ps, i, name) {
      RemovedSnoc(ops, i, name);
      assert RecordedAt(ops, i, name);
    }
    if i :| 0 <= i < |ops| && RecordedAt(ops, i, name) && !RemovedAfter(ops, i, name) {
      if i < n {
        RemovedSnoc(ops, i, name);
        assert RecordedAt(ps, i, name);
      }
    }
  }

  lemma StepFaults<Pose>(h: Host<Pose>, op: Op<Pose>, name: string)
    requires !op.Reboot?
    ensures name in Step(h, op).ctl.faults <==> Records(op, name) || (name in h.ctl.faults && !Removes(op, name))
  {
    StartsEstopIff(name);
  }

  /** Over every run without a reboot: a fault is on record exactly if it is pending by the history. */
  lemma {:induction false} FaultsFromRun<Pose>(h: Host<Pose>, ops: seq<Op<Pose>>, name: string)
    requires NoReboot(ops)
    ensures name in Run(h, ops).ctl.faults <==> PendingFault(h, ops, name)
  {
    if ops == [] {
      assert !RemovedAfter(ops, -1, name);
    } else {
      var n := |ops| - 1;
      assert NoReboot(ops[..n]);
      FaultsFromRun(h, ops[..n], name);
      StepFaults(Run(h, ops[..n]), ops[n], name);
      PendingSnoc(h, ops, name);
    }
  }

  /** Whether an e-stop stands, and whether the link is up: the last word on either. */
  predicate EstopStands<Pose>(ops: seq<Op<Pose>>) {
    if ops == [] then false
    else
      match ops[|ops| - 1]
      case EngageEstop(_, _, _) => true
      case ResetEstop(_, _) => false
      case _ => EstopStands(ops[..|ops| - 1])
  }

  predicate Linked<Pose>(ops: seq<Op<Pose>>) {
    if ops == [] then true
    else
      match ops[|ops| - 1]
      case SetLink(up, _) => up
      case _ => Linked(ops[..|ops| - 1])
  }

  predicate NoReboot<Pose>(ops: seq<Op<Pose>>) {
    forall i :: 0 <= i < |ops| ==> !ops[i].Reboot?
  }

  lemma StepFlags<Pose>(h: Host<Pose>, op: Op<Pose>)
    requires !op.Reboot?
    ensures var c := Step(h, op).ctl;
            && c.estop == (op.EngageEstop? || (h.ctl.estop && !op.ResetEstop?))
            && c.alive == h.ctl.alive && c.timeout == h.ctl.timeout
  {
  }

  lemma StepLink<Pose>(h: Host<Pose>, op: Op<Pose>)
    requires !op.Reboot?
    ensures Step(h, op).ctl.linkUp == (if op.SetLink? then op.up else h.ctl.linkUp)
  {
  }

  lemma {:induction false} FlagsFromRun<Pose>(h: Host<Pose>, now: real, ops: seq<Op<Pose>>)
    requires h.ctl == NewController(now) && NoReboot(ops)
    ensures var c := Run(h, ops).ctl;
            c.estop == EstopStands(ops) && c.linkUp == Linked(ops) && c.alive && c.timeout == 1.0
  {
    if ops != [] {
      var n := |ops| - 1;
      assert NoReboot(ops[..n]);
      FlagsFromRun(h, now, ops[..n]);
      StepFlags(Run(h, ops[..n]), ops[n]);
      StepLink(Run(h, ops[..n]), ops[n]);
    }
  }

  /**
   When a request is granted, from the history of the process alone: the link is up, no
   e-stop stands, no fault is pending, and the status is read within a second of the heartbeat.
   */
  lemma GrantFromHistory<Pose>(h: Host<Pose>, now: real, ops: seq<Op<Pose>>, beat: real, read: real)
    requires h.ctl == NewController(now) && NoReboot(ops)
    ensures Grants(Run(h, ops), beat, read) <==>
            Linked(ops) && !EstopStands(ops) && (forall name :: !PendingFault(h, ops, name)) && read - beat <= 1.0
  {
    FlagsFromRun(h, now, ops);
    GrantsIff(Run(h, ops), beat, read);
    forall name ensures name in Run(h, ops).ctl.faults <==> PendingFault(h, ops, name) {
      FaultsFromRun(h, ops, name);
    }
    var faults := Run(h, ops).ctl.faults;
    if faults != {} {
      var name :| name in faults;
      assert PendingFault(h, ops, name);
    }
  }

  /** A reboot starts without faults, except the reason of an e-stop on file. */
  lemma FaultsAfterReboot<Pose>(h: Host<Pose>, now: real, configured: real, activated: real)
    ensures Step(h, Reboot(now, configured, activated)).ctl.faults ==
            if h.latch.Latch? && h.latch.engaged && h.latch.reason != "" then {"estop:" + h.latch.reason} else {}
  {
  }

  /** An e-stop's reason survives with it. */
  lemma ReasonSurvives<Pose>(h: Host<Pose>, reason: string, now: real, t: real)
    requires reason != ""
    ensures Step(Step(h, EngageEstop(reason, Written, now)), Reboot(t, t, t)).ctl.faults == {"estop:" + reason}
  {
  }
}
