/**
 The host side of the safety story: the simulated safety controller, the gateway in front of
 it, the backend's motor power, the persisted e-stop latch and reboots. The functions on
 `Controller` and `Host` are what the class methods compute; the theorems are about every
 run of operations on a host.
 */
module SafetyStack {
  import opened DroidStates

  // ----- the safety controller

  datatype Controller = Controller(
    alive: bool, estop: bool, power: bool, faults: set<string>, timeout: real, lastContact: real, linkUp: bool)
  {
    predicate Stale(now: real) {
      !linkUp || now - lastContact > timeout
    }

    function CheckWatchdog(now: real): Controller {
      if Stale(now) then this.(power := false) else this
    }

    function SetLink(up: bool): Controller {
      this.(linkUp := up, power := power && up)
    }

    function Engage(reason: string): Controller {
      this.(estop := true, power := false, faults := if reason != "" then faults + {EstopFault(reason)} else faults)
    }

    function Reset(): Controller {
      this.(estop := false, faults := set f | f in faults && !IsEstopFault(f))
    }

    predicate Willing() {
      !estop && alive && faults == {} && linkUp
    }

    function ReportFault(name: string): Controller {
      this.(faults := faults + {name}, power := false)
    }

    function ClearAll(): Controller {
      this.(faults := set f | f in faults && IsEstopFault(f))
    }

    function Status(now: real): Status {
      var c := CheckWatchdog(now);
      Reading(alive && linkUp, estop, c.power, now - lastContact <= timeout && linkUp, faults)
    }

    /** Powered only when nothing speaks against it. */
    predicate PowerSafe() {
      power ==> !estop && faults == {} && linkUp && alive
    }
  }

  function NewController(now: real): Controller {
    Controller(true, false, false, {}, 1.0, now, true)
  }

  function EstopFault(reason: string): string { "estop:" + reason }

  predicate IsEstopFault(f: string) { |f| >= 6 && f[..6] == "estop:" }

  datatype Status = Reading(alive: bool, estop: bool, power: bool, watchdogOk: bool, faults: set<string>) {
    predicate Healthy() {
      alive && watchdogOk && !estop && faults == {}
    }

    predicate MovementPermitted() {
      alive && watchdogOk && !estop && faults == {} && power
    }
  }

  class SimulatedSafetyController {
    var alive: bool
    var estop: bool
    var power: bool
    var faults: set<string>
    var timeout: real
    var lastContact: real
    var linkUp: bool

    function View(): Controller
      reads this
    {
      Controller(alive, estop, power, faults, timeout, lastContact, linkUp)
    }

    constructor (now: real)
      ensures View() == NewController(now)
    {
      alive, estop, power, faults, timeout, lastContact, linkUp := true, false, false, {}, 1.0, now, true;
    }

    method Heartbeat(now: real)
      modifies this
      ensures View() == old(View()).(lastContact := now)
    {
      lastContact := now;
    }

    method CheckWatchdog(now: real)
      modifies this
      ensures View() == old(View()).CheckWatchdog(now)
    {
      if !linkUp || now - lastContact > timeout {
        power := false;
      }
    }

    method SetLink(up: bool)
      modifies this
      ensures View() == old(View()).SetLink(up)
    {
      linkUp := up;
      if !up {
        power := false;
      }
    }

    method EngageEstop(reason: string)
      modifies this
      ensures View() == old(View()).Engage(reason)
    {
      estop := true;
      power := false;
      if reason != "" {
        faults := faults + {EstopFault(reason)};
      }
    }

    method ResetEstop()
      modifies this
      ensures View() == old(View()).Reset()
    {
      estop := false;
      faults := set f | f in faults && !IsEstopFault(f);
    }

    method RequestPowerEnable() returns (ok: bool)
      modifies this
      ensures ok == old(View()).Willing()
      ensures View() == if ok then old(View()).(power := true) else old(View())
    {
      if estop || !alive || faults != {} || !linkUp {
        return false;
      }
      power := true;
      ok := true;
    }

    method DisablePower()
      modifies this
      ensures View() == old(View()).(power := false)
    {
      power := false;
    }

    method ReportFault(name: string)
      modifies this
      ensures View() == old(View()).ReportFault(name)
    {
      faults := faults + {name};
      power := false;
    }

    method ClearFault(name: string)
      modifies this
      ensures View() == old(View()).(faults := old(faults) - {name})
    {
      faults := faults - {name};
    }

    method ClearAllFaults()
      modifies this
      ensures View() == old(View()).ClearAll()
    {
      faults := set f | f in faults && IsEstopFault(f);
    }

    method Status(now: real) returns (st: Status)
      modifies this
      ensures View() == old(View()).CheckWatchdog(now) && st == old(View()).Status(now)
    {
      CheckWatchdog(now);
      st := Reading(alive && linkUp, estop, power, now - lastContact <= timeout && linkUp, faults);
    }
  }

  // ----- the host

  /**
   What a read of the latch file finds: nothing it can open, text that is not JSON, bytes that are not
   UTF-8, JSON that is not an object, or a record of the e-stop.
   */
  datatype LatchFile = Missing | Garbled | NotUtf8 | NotAnObject | Latch(engaged: bool, reason: string) {
    predicate Engaged() { Latch? && engaged }

    /** Loading the file raises an exception that is not caught. */
    predicate Raises() { NotUtf8? || NotAnObject? }
  }

  /**
   How a write of the latch file ends. One that fails while opening the file leaves it as it
   was; one that fails later has already truncated it. The failure is swallowed either way.
   */
  datatype Write = Written | Untouched | Torn

  /** What an assessment makes of everything but the controller: see `Assessment`. */
  datatype Fitness = Fit | Impaired | Unfit

  /** What the safety argument needs of a running system; `Pose` is whatever the body's position is. */
  datatype Host<Pose> = Host(ctl: Controller, backendPower: bool, token: string, latch: LatchFile, state: DroidState, pose: Pose)

  /**
   Operations on the host, each with the clock readings it makes and, where it writes the
   latch file, how the write ends. `PollStatus` reads the status without a heartbeat, as the
   diagnostics do. `Drive` is a velocity command that would bring the body to the given pose;
   `EnterActive` and `LeaveActive` are the executive's state changes around a drive.
   `Refresh` is the supervisor's re-assessment and `Shutdown` its orderly end; `Reboot` starts
   a fresh process over the same latch file and runs the gateway's two start-up hooks.
   */
  datatype Op<Pose> =
    | EngageEstop(reason: string, write: Write, now: real)
    | ResetEstop(write: Write, now: real)
    | Request(beat: real, read: real, logged: real, stamp: string)
    | Release(now: real)
    | ReportFault(name: string, now: real)
    | SetLink(up: bool, now: real)
    | ReadStatus(beat: real, read: real)
    | PollStatus(read: real)
    | ClearFault(name: string)
    | ClearAllFaults
    | Drive(to: Pose)
    | EnterActive
    | LeaveActive
    | Refresh(estopRead: real, beat: real, read: real, fitness: Fitness)
    | Shutdown
    | Reboot(now: real, configured: real, activated: real)

  /** `_save_latch` */
  function Saved(latch: LatchFile, engaged: bool, reason: string, write: Write): LatchFile {
    match write
    case Written => Latch(engaged, reason)
    case Untouched => latch
    case Torn => Garbled
  }

  /** `_load_latch` on a fresh controller. */
  function Loaded(ctl: Controller, latch: LatchFile): Controller {
    if latch.Engaged() then ctl.Engage(latch.reason) else ctl
  }

  /** The permission is granted: the controller is healthy at the read and willing. */
  predicate Grants<Pose>(h: Host<Pose>, beat: real, read: real) {
    var c := h.ctl.(lastContact := beat);
    c.Status(read).Healthy() && c.CheckWatchdog(read).Willing()
  }

  /** The controller after an assessment has polled it. */
  function Polled(c: Controller, estopRead: real, beat: real, read: real): Controller {
    var c1 := c.CheckWatchdog(estopRead);
    if c.estop then c1 else c1.(lastContact := beat).CheckWatchdog(read)
  }

  /** The controller was healthy when the assessment looked. */
  predicate Health(c: Controller, estopRead: real, beat: real, read: real) {
    c.CheckWatchdog(estopRead).(lastContact := beat).Status(read).Healthy()
  }

  /** The state an assessment settles in. */
  function Verdict(estop: bool, healthy: bool, fitness: Fitness): DroidState {
    if estop then EmergencyStopped
    else if !healthy || fitness == Unfit then MotionInhibited
    else if fitness == Impaired then Degraded
    else Ready
  }

  function Step<Pose>(h: Host<Pose>, op: Op<Pose>): Host<Pose> {
    match op
    case EngageEstop(reason, write, now) =>
      h.(ctl := h.ctl.Engage(reason).CheckWatchdog(now), backendPower := false, latch := Saved(h.latch, true, reason, write), state := EmergencyStopped)
    case ResetEstop(write, now) =>
      h.(ctl := h.ctl.Reset().CheckWatchdog(now), latch := Saved(h.latch, false, "", write))
    case Request(beat, read, logged, stamp) =>
      var c := h.ctl.(lastContact := beat).CheckWatchdog(read);
      if Grants(h, beat, read) then
        h.(ctl := c.(power := true).CheckWatchdog(logged), backendPower := true, token := "mp-" + stamp)
      else h.(ctl := c)
    case Release(now) =>
      h.(ctl := (if h.token != "" then h.ctl.(power := false).CheckWatchdog(now) else h.ctl.(power := false)), backendPower := false, token := "")
    case ReportFault(name, now) => h.(ctl := h.ctl.ReportFault(name).CheckWatchdog(now), backendPower := false)
    case SetLink(up, now) => h.(ctl := if up then h.ctl.SetLink(true) else h.ctl.SetLink(false).CheckWatchdog(now))
    case ReadStatus(beat, read) => h.(ctl := h.ctl.(lastContact := beat).CheckWatchdog(read))
    case PollStatus(read) => h.(ctl := h.ctl.CheckWatchdog(read))
    case ClearFault(name) => h.(ctl := h.ctl.(faults := h.ctl.faults - {name}))
    case ClearAllFaults => h.(ctl := h.ctl.ClearAll())
    case Drive(to) => if h.backendPower then h.(pose := to) else h
    case EnterActive => if h.state == Ready || h.state == Degraded then h.(state := Active) else h
    case LeaveActive => if h.state == Active then h.(state := Ready) else h
    case Refresh(estopRead, beat, read, fitness) =>
      h.(ctl := Polled(h.ctl, estopRead, beat, read), state := Verdict(h.ctl.estop, Health(h.ctl, estopRead, beat, read), fitness))
    case Shutdown => h.(backendPower := false, state := PoweredOff)
    case Reboot(now, configured, activated) =>
      var c := NewController(now);
      var started := if h.latch.Raises() then c else Loaded(c, h.latch).(lastContact := activated, power := false);
      Host(started, false, "", h.latch, PoweredOff, h.pose)
  }

  function Run<Pose>(h: Host<Pose>, ops: seq<Op<Pose>>): Host<Pose> {
    if ops == [] then h else Step(Run(h, ops[..|ops| - 1]), ops[|ops| - 1])
  }

  lemma {:induction false} RunAppend<Pose>(h: Host<Pose>, xs: seq<Op<Pose>>, ys: seq<Op<Pose>>)
    ensures Run(h, xs + ys) == Run(Run(h, xs), ys)
  {
    if ys == [] {
      assert xs + ys == xs;
    } else {
      var n := |ys| - 1;
      assert (xs + ys)[..|xs + ys| - 1] == xs + ys[..n];
      RunAppend(h, xs, ys[..n]);
    }
  }

  // ----- the power invariant

  /** Controller power and backend power are each on only when nothing speaks against it. */
  predicate PowerInvariant<Pose>(h: Host<Pose>) {
    && h.ctl.PowerSafe()
    && (h.backendPower ==> h.token != "" && !h.ctl.estop && h.ctl.faults == {})
  }

  lemma StepKeepsPower<Pose>(h: Host<Pose>, op: Op<Pose>)
    requires PowerInvariant(h)
    ensures PowerInvariant(Step(h, op))
  {
    match op
    case ClearAllFaults =>
      assert h.ctl.faults == {} ==> h.ctl.ClearAll().faults == {};
    case ResetEstop(_, _) =>
      assert h.ctl.faults == {} ==> h.ctl.Reset().faults == {};
    case _ =>
  }

  lemma {:induction false} RunKeepsPower<Pose>(h: Host<Pose>, ops: seq<Op<Pose>>)
    requires PowerInvariant(h)
    ensures PowerInvariant(Run(h, ops))
  {
    if ops != [] {
      RunKeepsPower(h, ops[..|ops| - 1]);
      StepKeepsPower(Run(h, ops[..|ops| - 1]), ops[|ops| - 1]);
    }
  }

  /** Whatever came before, a status reports movement permitted exactly when it reports power. */
  lemma StatusAgrees<Pose>(h: Host<Pose>, ops: seq<Op<Pose>>, read: real)
    requires PowerInvariant(h)
    ensures var st := Run(h, ops).ctl.Status(read); st.MovementPermitted() <==> st.power
  {
    RunKeepsPower(h, ops);
  }

  /** Operations that take motor power away from the backend. */
  predicate Cuts<Pose>(op: Op<Pose>) {
    op.EngageEstop? || op.Release? || op.ReportFault? || op.Shutdown? || op.Reboot?
  }

  /** Operation `i` of the run was a permission request, and it was granted. */
  predicate GrantedAt<Pose>(h: Host<Pose>, ops: seq<Op<Pose>>, i: nat)
    requires i < |ops|
  {
    ops[i].Request? && Grants(Run(h, ops[..i]), ops[i].beat, ops[i].read)
  }

  ghost predicate CutAfter<Pose>(ops: seq<Op<Pose>>, i: nat) {
    exists j :: i < j < |ops| && Cuts(ops[j])
  }

  /** Some granted permission has not been cut since. */
  ghost predicate Holding<Pose>(h: Host<Pose>, ops: seq<Op<Pose>>) {
    exists i :: 0 <= i < |ops| && GrantedAt(h, ops, i) && !CutAfter(ops, i)
  }

  lemma GrantedPrefix<Pose>(h: Host<Pose>, ops: seq<Op<Pose>>, i: nat)
    requires i < |ops| - 1
    ensures GrantedAt(h, ops, i) == GrantedAt(h, ops[..|ops| - 1], i)
  {
    assert ops[..|ops| - 1][..i] == ops[..i];
  }

  lemma CutSnoc<Pose>(ops: seq<Op<Pose>>, i: nat)
    requires i < |ops| - 1
    ensures CutAfter(ops, i) <==> CutAfter(ops[..|ops| - 1], i) || Cuts(ops[|ops| - 1])
  {
    var n := |ops| - 1;
    var ps := ops[..n];
    if CutAfter(ps, i) {
      var j :| i < j < |ps| && Cuts(ps[j]);
      assert Cuts(ops[j]);
    }
    if CutAfter(ops, i) && !Cuts(ops[n]) {
      var j :| i < j < |ops| && Cuts(ops[j]);
      assert Cuts(ps[j]);
    }
  }

  lemma HoldingSnoc<Pose>(h: Host<Pose>, ops: seq<Op<Pose>>)
    requires ops != []
    ensures var n := |ops| - 1;
            Holding(h, ops) <==> GrantedAt(h, ops, n) || (Holding(h, ops[..n]) && !Cuts(ops[n]))
  {
    var n := |ops| - 1;
    var ps := ops[..n];
    if GrantedAt(h, ops, n) {
      assert !CutAfter(ops, n);
    }
    if Holding(h, ps) && !Cuts(ops[n]) {
      var i :| 0 <= i < |ps| && GrantedAt(h, ps, i) && !CutAfter(ps, i);
      GrantedPrefix(h, ops, i);
      CutSnoc(ops, i);
    }
    if Holding(h, ops) && !GrantedAt(h, ops, n) {
      var i :| 0 <= i < |ops| && GrantedAt(h, ops, i) && !CutAfter(ops, i);
      GrantedPrefix(h, ops, i);
      CutSnoc(ops, i);
    }
  }

  /** The backend is powered exactly while a granted permission has not been released, stopped or faulted. */
  lemma {:induction false} PoweredExactlyWhileHolding<Pose>(h: Host<Pose>, ops: seq<Op<Pose>>)
    requires !h.backendPower
    ensures Run(h, ops).backendPower <==> Holding(h, ops)
  {
    if ops != [] {
      PoweredExactlyWhileHolding(h, ops[..|ops| - 1]);
      HoldingSnoc(h, ops);
    }
  }

  /** The body moves only between a grant and the next release, e-stop, reported fault or reboot. */
  lemma PoseMovesOnlyWhileHolding<Pose>(h: Host<Pose>, ops: seq<Op<Pose>>, op: Op<Pose>)
    requires !h.backendPower
    ensures Run(h, ops + [op]).pose != Run(h, ops).pose ==> op.Drive? && Holding(h, ops)
  {
    assert (ops + [op])[..|ops|] == ops;
    PoweredExactlyWhileHolding(h, ops);
  }

  /** Once power is cut, nothing but a new grant lets the body move again. */
  lemma {:induction false} CutFreezesPose<Pose>(h: Host<Pose>, ops: seq<Op<Pose>>)
    requires !h.backendPower
    requires forall i :: 0 <= i < |ops| ==> !ops[i].Request?
    ensures Run(h, ops).pose == h.pose && !Run(h, ops).backendPower
  {
    if ops != [] {
      CutFreezesPose(h, ops[..|ops| - 1]);
    }
  }

  /** What takes an e-stopped droid out of the emergency state. */
  predicate LeavesStop<Pose>(h: Host<Pose>, op: Op<Pose>) {
    op.Reboot? || op.Shutdown? || (op.Refresh? && !h.ctl.estop)
  }

  lemma StopLeftIff<Pose>(h: Host<Pose>, op: Op<Pose>)
    requires h.state == EmergencyStopped
    ensures Step(h, op).state != EmergencyStopped <==> LeavesStop(h, op)
  {
  }

  /** No operation of the run takes the droid out of the emergency state. */
  predicate NeverLeaves<Pose>(h: Host<Pose>, ops: seq<Op<Pose>>) {
    ops != [] ==>
      var n := |ops| - 1;
      NeverLeaves(h, ops[..n]) && !LeavesStop(Run(h, ops[..n]), ops[n])
  }

  /** The droid is in the emergency state before, between and after the operations. */
  predicate StoppedThroughout<Pose>(h: Host<Pose>, ops: seq<Op<Pose>>) {
    && Run(h, ops).state == EmergencyStopped
    && (ops != [] ==> StoppedThroughout(h, ops[..|ops| - 1]))
  }

  /**
   An e-stopped droid is in the emergency state throughout a run exactly when the run holds
   no reboot, no shutdown and no re-assessment at a time when the e-stop has been reset.
   */
  lemma {:induction false} EstopStateStays<Pose>(h: Host<Pose>, ops: seq<Op<Pose>>)
    requires h.state == EmergencyStopped
    ensures StoppedThroughout(h, ops) <==> NeverLeaves(h, ops)
    ensures NeverLeaves(h, ops) ==> Run(h, ops).state == EmergencyStopped
  {
    if ops != [] {
      var n := |ops| - 1;
      EstopStateStays(h, ops[..n]);
      if NeverLeaves(h, ops[..n]) {
        StopLeftIff(Run(h, ops[..n]), ops[n]);
      }
    }
  }

  /** Gateway operations and drive steps alone never take it out of that state. */
  lemma {:induction false} StopOutlastsDrive<Pose>(h: Host<Pose>, ops: seq<Op<Pose>>)
    requires h.state == EmergencyStopped
    requires forall i :: 0 <= i < |ops| ==> !ops[i].Refresh? && !ops[i].Shutdown? && !ops[i].Reboot?
    ensures Run(h, ops).state == EmergencyStopped
  {
    if ops != [] {
      StopOutlastsDrive(h, ops[..|ops| - 1]);
      StopLeftIff(Run(h, ops[..|ops| - 1]), ops[|ops| - 1]);
    }
  }

  // ----- the latch across reboots

  predicate WritesSucceed<Pose>(ops: seq<Op<Pose>>) {
    forall i :: 0 <= i < |ops| ==> (ops[i].EngageEstop? || ops[i].ResetEstop?) ==> ops[i].write.Written?
  }

  predicate LatchAgrees<Pose>(h: Host<Pose>) {
    h.ctl.estop <==> h.latch.Engaged()
  }

  /** With successful writes the file and the controller agree after every run, reboots included. */
  lemma {:induction false} LatchAgreesAlways<Pose>(h: Host<Pose>, ops: seq<Op<Pose>>)
    requires LatchAgrees(h) && WritesSucceed(ops)
    ensures LatchAgrees(Run(h, ops))
  {
    if ops != [] {
      var n := |ops| - 1;
      assert WritesSucceed(ops[..n]);
      LatchAgreesAlways(h, ops[..n]);
      StepLatch(Run(h, ops[..n]), ops[n]);
    }
  }

  lemma StepLatch<Pose>(h: Host<Pose>, op: Op<Pose>)
    ensures Step(h, op).ctl.estop == if op.EngageEstop? then true else if op.ResetEstop? then false else if op.Reboot? then h.latch.Engaged() else h.ctl.estop
    ensures Step(h, op).latch == if op.EngageEstop? then Saved(h.latch, true, op.reason, op.write) else if op.ResetEstop? then Saved(h.latch, false, "", op.write) else h.latch
  {
  }

  /** A reboot restores an e-stop exactly when its write succeeded, or failed without touching a file that already said so. */
  lemma EstopPersistsIff<Pose>(h: Host<Pose>, reason: string, write: Write, now: real, t: real)
    ensures var stopped := Step(h, EngageEstop(reason, write, now));
            Step(stopped, Reboot(t, t, t)).ctl.estop <==> write.Written? || (write.Untouched? && h.latch.Engaged())
  {
  }

  /** An e-stop that is not on file is forgotten: the next process grants motion. */
  lemma LostWriteLosesEstop()
    ensures var h := Host(NewController(0.0), false, "", Missing, Ready, 0);
            var ops: seq<Op<int>> := [EngageEstop("button", Untouched, 0.0), Reboot(1.0, 1.0, 1.0)];
            Grants(Run(h, ops), 1.0, 1.0)
  {
    var h := Host(NewController(0.0), false, "", Missing, Ready, 0);
    var e: Op<int> := EngageEstop("button", Untouched, 0.0);
    var ops: seq<Op<int>> := [e, Reboot(1.0, 1.0, 1.0)];
    assert ops[..1] == [e] && [e][..0] == [];
    assert Run(h, ops[..1]) == Step(Run(h, []), e);
  }

  /** Some e-stop's write emptied the file, and no later one filled it again. */
  ghost predicate Erased<Pose>(ops: seq<Op<Pose>>) {
    exists i :: 0 <= i < |ops| && TornAt(ops, i) && forall j :: i < j < |ops| ==> !WrittenAt(ops, j)
  }

  predicate TornAt<Pose>(ops: seq<Op<Pose>>, i: nat)
    requires i < |ops|
  {
    ops[i].EngageEstop? && ops[i].write.Torn?
  }

  predicate WrittenAt<Pose>(ops: seq<Op<Pose>>, i: nat)
    requires i < |ops|
  {
    ops[i].EngageEstop? && ops[i].write.Written?
  }

  predicate NoReset<Pose>(ops: seq<Op<Pose>>) {
    forall i :: 0 <= i < |ops| ==> !ops[i].ResetEstop?
  }

  lemma ErasedSnoc<Pose>(ops: seq<Op<Pose>>)
    requires ops != []
    ensures var n := |ops| - 1;
            Erased(ops) <==> TornAt(ops, n) || (Erased(ops[..n]) && !WrittenAt(ops, n))
  {
    var n := |ops| - 1;
    var ps := ops[..n];
    assert forall i :: 0 <= i < n ==> ps[i] == ops[i] && TornAt(ps, i) == TornAt(ops, i) && WrittenAt(ps, i) == WrittenAt(ops, i);
    if Erased(ps) && !WrittenAt(ops, n) {
      var i :| 0 <= i < |ps| && TornAt(ps, i) && forall j :: i < j < |ps| ==> !WrittenAt(ps, j);
      assert TornAt(ops, i);
    }
    if Erased(ops) && !TornAt(ops, n) {
      var i :| 0 <= i < |ops| && TornAt(ops, i) && forall j :: i < j < |ops| ==> !WrittenAt(ops, j);
      assert TornAt(ps, i);
    }
  }

  /** The e-stop holds and is on file. */
  predicate Stopped<Pose>(h: Host<Pose>) {
    h.ctl.estop && h.latch.Engaged()
  }

  /** Without a reset, the file of a stopped host says so exactly until a write empties it, and while it does the e-stop holds. */
  lemma {:induction false} StoppedUntilErased<Pose>(h: Host<Pose>, ops: seq<Op<Pose>>)
    requires Stopped(h) && NoReset(ops)
    ensures var r := Run(h, ops);
            && (r.latch.Engaged() <==> !Erased(ops))
            && (r.latch.Engaged() ==> r.ctl.estop)
            && (Erased(ops) ==> r.latch.Garbled?)
  {
    if ops != [] {
      var n := |ops| - 1;
      assert NoReset(ops[..n]);
      StoppedUntilErased(h, ops[..n]);
      StepLatch(Run(h, ops[..n]), ops[n]);
      ErasedSnoc(ops);
    }
  }

  /** Operations after which nothing may be granted: neither resets nor further e-stops, but anything else, reboots included. */
  predicate Idle<Pose>(ops: seq<Op<Pose>>) {
    forall i :: 0 <= i < |ops| ==> !ops[i].ResetEstop? && !ops[i].EngageEstop?
  }

  /** No continuation that neither resets nor stops again gets a permission. */
  ghost predicate StaysRefused<Pose(!new)>(h: Host<Pose>) {
    forall more: seq<Op<Pose>>, beat, read :: Idle(more) ==> !Grants(Run(h, more), beat, read)
  }

  lemma {:induction false} IdleKeepsStop<Pose>(h: Host<Pose>, more: seq<Op<Pose>>)
    requires Idle(more)
    ensures Stopped(h) ==> Stopped(Run(h, more))
  {
    if more != [] {
      assert Idle(more[..|more| - 1]);
      IdleKeepsStop(h, more[..|more| - 1]);
      StepLatch(Run(h, more[..|more| - 1]), more[|more| - 1]);
    }
  }

  lemma RebootGrants<Pose>(h: Host<Pose>)
    requires h.latch.Garbled?
    ensures Grants(Run(h, [Reboot(0.0, 0.0, 0.0)]), 0.0, 0.0)
  {
    var r: Op<Pose> := Reboot(0.0, 0.0, 0.0);
    assert [r][..0] == [];
    assert Run(h, [r]) == Step(Run(h, []), r);
  }

  /**
   After a recorded e-stop and any run without a reset, reboots included: no permission is
   granted then or later, short of a reset, exactly when no later e-stop's failed write has
   emptied the file.
   */
  lemma NoGrantUntilReset<Pose(!new)>(h: Host<Pose>, reason: string, now: real, ops: seq<Op<Pose>>)
    requires NoReset(ops)
    ensures StaysRefused(Run(Step(h, EngageEstop(reason, Written, now)), ops)) <==> !Erased(ops)
  {
    var s := Step(h, EngageEstop(reason, Written, now));
    var r := Run(s, ops);
    StoppedUntilErased(s, ops);
    if Erased(ops) {
      RebootGrants(r);
      var more: seq<Op<Pose>> := [Reboot(0.0, 0.0, 0.0)];
      assert Idle(more) && Grants(Run(r, more), 0.0, 0.0);
    } else {
      forall more: seq<Op<Pose>>, beat, read | Idle(more) ensures !Grants(Run(r, more), beat, read) {
        IdleKeepsStop(r, more);
      }
    }
  }

  /** Such a run: a recorded e-stop, a second one whose write fails after truncating the file, a reboot, and motion is granted. */
  lemma TornWriteLosesEstop()
    ensures var h := Host(NewController(0.0), false, "", Missing, Ready, 0);
            var ops: seq<Op<int>> := [EngageEstop("button", Written, 0.0), EngageEstop("again", Torn, 0.0), Reboot(1.0, 1.0, 1.0)];
            Grants(Run(h, ops), 1.0, 1.0)
  {
    var h := Host(NewController(0.0), false, "", Missing, Ready, 0);
    var e: Op<int> := EngageEstop("button", Written, 0.0);
    var f: Op<int> := EngageEstop("again", Torn, 0.0);
    var ops: seq<Op<int>> := [e, f, Reboot(1.0, 1.0, 1.0)];
    assert ops[..2] == [e, f] && [e, f][..1] == [e] && [e][..0] == [];
    assert Run(h, [e]) == Step(Run(h, []), e);
    assert Run(h, [e, f]) == Step(Run(h, [e]), f);
  }

  // ----- the gateway

  /** The parts of the runtime the gateway acts on: backend power and pose, the latch file, the state machine. */
  class Runtime<Pose> {
    var backendPower: bool
    var pose: Pose
    var latch: LatchFile
    const machine: StateMachine

    constructor (pose: Pose, latch: LatchFile, machine: StateMachine)
      ensures !backendPower && this.pose == pose && this.latch == latch && this.machine == machine
    {
      backendPower, this.pose, this.latch, this.machine := false, pose, latch, machine;
    }
  }

  class SafetyGateway<Pose> {
    const rt: Runtime<Pose>
    const controller: SimulatedSafetyController
    var token: string

    ghost function Footprint(): set<object> {
      {this, rt, rt.machine, controller}
    }

    ghost predicate Valid()
      reads Footprint()
    {
      rt.machine.Valid()
    }

    function View(): Host<Pose>
      reads this, rt, rt.machine, controller
    {
      Host(controller.View(), rt.backendPower, token, rt.latch, rt.machine.state, rt.pose)
    }

    /** A new gateway on a new controller, hooks not yet run. */
    constructor (rt: Runtime<Pose>, now: real)
      requires rt.machine.Valid()
      ensures Valid() && this.rt == rt && fresh(controller) && token == ""
      ensures controller.View() == NewController(now)
    {
      this.rt := rt;
      controller := new SimulatedSafetyController(now);
      token := "";
    }

    method SaveLatch(engaged: bool, reason: string, write: Write)
      modifies rt
      ensures rt.latch == Saved(old(rt.latch), engaged, reason, write)
      ensures rt.backendPower == old(rt.backendPower) && rt.pose == old(rt.pose)
    {
      match write {
        case Written => rt.latch := Latch(engaged, reason);
        case Untouched =>
        case Torn => rt.latch := Garbled;
      }
    }

    /** Every logged event reads the controller's status, which is a watchdog check. */
    method LogSafetyEvent(now: real)
      modifies controller
      ensures controller.View() == old(controller.View()).CheckWatchdog(now)
    {
      var _ := controller.Status(now);
    }

    method EngageEstop(reason: string, write: Write, now: real)
      requires Valid()
      modifies Footprint()
      ensures Valid() && View() == Step(old(View()), Op.EngageEstop(reason, write, now))
    {
      controller.EngageEstop(reason);
      rt.backendPower := false;
      SaveLatch(true, reason, write);
      LogSafetyEvent(now);
      rt.machine.Force(EmergencyStopped);
    }

    method ResetEstop(write: Write, now: real)
      requires Valid()
      modifies Footprint()
      ensures Valid() && View() == Step(old(View()), Op.ResetEstop(write, now))
    {
      controller.ResetEstop();
      SaveLatch(false, "", write);
      LogSafetyEvent(now);
    }

    method RequestMotionPermission(beat: real, read: real, logged: real, stamp: string) returns (granted: bool)
      requires Valid()
      modifies Footprint()
      ensures Valid() && View() == Step(old(View()), Request(beat, read, logged, stamp))
      ensures granted == Grants(old(View()), beat, read)
    {
      controller.Heartbeat(beat);
      var st := controller.Status(read);
      if !st.Healthy() {
        return false;
      }
      granted := controller.RequestPowerEnable();
      if !granted {
        return;
      }
      rt.backendPower := true;
      token := "mp-" + stamp;
      LogSafetyEvent(logged);
    }

    method ReleaseMotionPermission(now: real)
      requires Valid()
      modifies Footprint()
      ensures Valid() && View() == Step(old(View()), Release(now))
    {
      controller.DisablePower();
      rt.backendPower := false;
      if token != "" {
        LogSafetyEvent(now);
      }
      token := "";
    }

    method ReportFault(name: string, now: real)
      requires Valid()
      modifies Footprint()
      ensures Valid() && View() == Step(old(View()), Op.ReportFault(name, now))
    {
      controller.ReportFault(name);
      rt.backendPower := false;
      LogSafetyEvent(now);
    }

    method SetSafetyLink(up: bool, now: real)
      requires Valid()
      modifies Footprint()
      ensures Valid() && View() == Step(old(View()), Op.SetLink(up, now))
    {
      controller.SetLink(up);
      if !up {
        LogSafetyEvent(now);
      }
    }

    method Status(beat: real, read: real) returns (st: Status)
      requires Valid()
      modifies Footprint()
      ensures Valid() && View() == Step(old(View()), ReadStatus(beat, read))
      ensures st == old(View()).ctl.(lastContact := beat).Status(read)
    {
      controller.Heartbeat(beat);
      st := controller.Status(read);
    }

    /** `estop_engaged`: a status read without a heartbeat. */
    method EstopEngaged(read: real) returns (engaged: bool)
      requires Valid()
      modifies Footprint()
      ensures Valid() && View() == Step(old(View()), PollStatus(read)) && engaged == old(View()).ctl.estop
    {
      var st := controller.Status(read);
      engaged := st.estop;
    }

    /** `_on_configure`; false means the hook raised. */
    method OnConfigure(now: real) returns (ok: bool)
      modifies controller
      ensures ok == !rt.latch.Raises()
      ensures View() == if ok then old(View()).(ctl := Loaded(old(controller.View()), old(rt.latch)).(lastContact := now)) else old(View())
    {
      match rt.latch {
        case NotAnObject => return false;
        case NotUtf8 => return false;
        case Latch(engaged, reason) =>
          if engaged {
            controller.EngageEstop(reason);
          }
        case _ =>
      }
      controller.Heartbeat(now);
      ok := true;
    }

    /** `_on_activate` confirms that power is off. */
    method OnActivate(now: real)
      modifies controller, rt
      ensures View() == old(View()).(ctl := old(controller.View()).(lastContact := now, power := false), backendPower := false)
    {
      controller.Heartbeat(now);
      controller.DisablePower();
      rt.backendPower := false;
    }
  }

  /** A process start: a fresh gateway whose hooks run over the old latch file. */
  method StartProcess<Pose>(latch: LatchFile, pose: Pose, now: real, configured: real, activated: real)
    returns (g: SafetyGateway<Pose>, ok: bool)
    ensures ok == !latch.Raises() && fresh(g)
    ensures g.Valid() && g.rt.machine.state == PoweredOff
    ensures var dead := Host(NewController(now), false, "", latch, PoweredOff, pose);
            g.View() == Step(dead, Reboot(now, configured, activated))
  {
    var machine := new StateMachine(PoweredOff);
    var rt := new Runtime(pose, latch, machine);
    g := new SafetyGateway(rt, now);
    ok := g.OnConfigure(configured);
    if ok {
      g.OnActivate(activated);
    }
  }
}
