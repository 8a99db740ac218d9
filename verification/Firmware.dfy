/**
 The safety controller's control loop: host frames, hardware polling and the motor-power
 contactor. The class follows the firmware's global state and handlers; `Run` is the same
 behaviour as a function of an event history, about which the safety theorems speak.
 */
module Firmware {
  import opened Bytes

  // ----- constants of the protocol and the loop

  const HEARTBEAT := 0x01
  const ENABLE_POWER := 0x02
  const DISABLE_POWER := 0x03
  const CLEAR_FAULT := 0x04
  const REPORT_FAULT := 0x05

  const HOST_TIMEOUT_MS := 100
  const OVERTEMP_C := 85

  /** Fault codes are single bits, numbered from the least significant. */
  const ESTOP := 0
  const OVERTEMP := 1
  const JOINT_LIMIT := 2
  const WATCHDOG := 3
  const HOST_SILENT := 4

  /** 0x1E: the faults that MSG_CLEAR_FAULT clears. The e-stop bit is not one of them. */
  function Clearable(): Byte {
    Or(Or(Bit(OVERTEMP), Bit(JOINT_LIMIT)), Or(Bit(WATCHDOG), Bit(HOST_SILENT)))
  }

  const WRAP := 0x1_0000_0000

  /** The board's 32-bit millisecond counter. */
  type Millis = t: int | 0 <= t < WRAP

  /** uint32_t subtraction. */
  function Age(now: Millis, since: Millis): Millis {
    (now - since) % WRAP
  }

  /** Fault bit `k` is set. */
  predicate Has(faults: Byte, k: nat)
    requires k < 8
  {
    faults[7 - k]
  }

  // ----- what the loop reacts to

  /**
   A host frame, a pass of the hardware poll, or a contactor update, each with the clock
   value it reads.
   */
  datatype Event =
    | Frame(kind: nat, payload: seq<Byte>, now: Millis)
    | Poll(estop: bool, tempC: int, limit: bool, now: Millis)
    | Check(now: Millis)
  {
    predicate IsKind(k: nat) {
      Frame? && kind == k
    }

    /** A frame whose type the controller does not know. */
    predicate Unknown() {
      Frame? && !(HEARTBEAT <= kind <= REPORT_FAULT)
    }
  }

  datatype Safety = Safety(estopLatched: bool, powerRequested: bool, powerOn: bool, faults: Byte, lastHostMs: Millis)

  function Boot(now: Millis): Safety {
    Safety(false, false, false, Zero(), now)
  }

  function SafeState(s: Safety, fault: Byte): Safety {
    s.(faults := Or(s.faults, fault), powerOn := false)
  }

  function OnFrame(s: Safety, kind: nat, payload: seq<Byte>, now: Millis): Safety {
    var s := s.(lastHostMs := now);
    if kind == HEARTBEAT then s
    else if kind == ENABLE_POWER then s.(powerRequested := true)
    else if kind == DISABLE_POWER then s.(powerRequested := false, powerOn := false)
    else if kind == CLEAR_FAULT then s.(faults := AndNot(s.faults, Clearable()))
    else if kind == REPORT_FAULT then (if |payload| >= 1 then SafeState(s, payload[0]) else s)
    else SafeState(s, Zero())
  }

  /** Enters the safe state with fault bit `k` if the condition was detected. */
  function Latch(s: Safety, detected: bool, k: nat): Safety {
    if detected then SafeState(s, Bit(k)) else s
  }

  function OnPoll(s: Safety, estop: bool, tempC: int, limit: bool, now: Millis): Safety {
    var s := Latch(s.(estopLatched := s.estopLatched || estop), estop, ESTOP);
    var s := Latch(s, tempC >= OVERTEMP_C, OVERTEMP);
    var s := Latch(s, limit, JOINT_LIMIT);
    Latch(s, Age(now, s.lastHostMs) >= HOST_TIMEOUT_MS, HOST_SILENT)
  }

  predicate MayEnable(s: Safety, now: Millis) {
    !s.estopLatched && s.faults == Zero() && Age(now, s.lastHostMs) < HOST_TIMEOUT_MS
  }

  function OnCheck(s: Safety, now: Millis): Safety {
    s.(powerOn := s.powerRequested && MayEnable(s, now))
  }

  function Step(s: Safety, e: Event): Safety {
    match e
    case Frame(kind, payload, now) => OnFrame(s, kind, payload, now)
    case Poll(estop, tempC, limit, now) => OnPoll(s, estop, tempC, limit, now)
    case Check(now) => OnCheck(s, now)
  }

  function Run(s: Safety, es: seq<Event>): Safety {
    if es == [] then s else Step(Run(s, es[..|es| - 1]), es[|es| - 1])
  }

  lemma {:induction false} RunAppend(s: Safety, es: seq<Event>, fs: seq<Event>)
    ensures Run(s, es + fs) == Run(Run(s, es), fs)
  {
    if fs == [] {
      assert es + fs == es;
    } else {
      var n := |fs| - 1;
      assert (es + fs)[..|es + fs| - 1] == es + fs[..n];
      RunAppend(s, es, fs[..n]);
    }
  }

  // ----- the firmware

  class Controller {
    var estopLatched: bool
    var powerRequested: bool
    var powerOn: bool
    var faults: Byte
    var lastHostMs: Millis
    /** The physical motor-power contactor. */
    var closed: bool

    function View(): Safety
      reads this
    {
      Safety(estopLatched, powerRequested, powerOn, faults, lastHostMs)
    }

    ghost predicate Valid()
      reads this
    {
      closed == powerOn
    }

    constructor (now: Millis)
      ensures Valid() && View() == Boot(now)
    {
      estopLatched, powerRequested, powerOn := false, false, false;
      faults := Zero();
      closed := false;
      lastHostMs := now;
    }

    method EnterSafeState(fault: Byte)
      modifies this
      ensures Valid() && View() == SafeState(old(View()), fault)
    {
      faults := Or(faults, fault);
      powerOn := false;
      closed := false;
    }

    method OnHostMessage(kind: nat, payload: seq<Byte>, now: Millis)
      requires Valid()
      modifies this
      ensures Valid() && View() == OnFrame(old(View()), kind, payload, now)
    {
      lastHostMs := now;
      if kind == HEARTBEAT {
      } else if kind == ENABLE_POWER {
        powerRequested := true;
      } else if kind == DISABLE_POWER {
        powerRequested := false;
        powerOn := false;
        closed := false;
      } else if kind == CLEAR_FAULT {
        faults := AndNot(faults, Clearable());
      } else if kind == REPORT_FAULT {
        if |payload| >= 1 {
          EnterSafeState(payload[0]);
        }
      } else {
        EnterSafeState(Zero());
      }
    }

    method PollHardwareFaults(estop: bool, tempC: int, limit: bool, now: Millis)
      requires Valid()
      modifies this
      ensures Valid() && View() == OnPoll(old(View()), estop, tempC, limit, now)
    {
      if estop {
        estopLatched := true;
        EnterSafeState(Bit(ESTOP));
      }
      if tempC >= OVERTEMP_C {
        EnterSafeState(Bit(OVERTEMP));
      }
      if limit {
        EnterSafeState(Bit(JOINT_LIMIT));
      }
      if Age(now, lastHostMs) >= HOST_TIMEOUT_MS {
        EnterSafeState(Bit(HOST_SILENT));
      }
    }

    method UpdateContactor(now: Millis)
      modifies this
      ensures Valid() && View() == OnCheck(old(View()), now)
    {
      if powerRequested && !estopLatched && faults == Zero() && Age(now, lastHostMs) < HOST_TIMEOUT_MS {
        powerOn := true;
        closed := true;
      } else {
        powerOn := false;
        closed := false;
      }
    }

    /** One turn of the endless loop: drain the frames, poll, drive the contactor. */
    method Iteration(frames: seq<Event>, poll: Event, check: Event)
      requires Valid()
      requires poll.Poll? && check.Check? && forall f :: f in frames ==> f.Frame?
      modifies this
      ensures Valid() && View() == Run(old(View()), frames + [poll, check])
    {
      DrainFrames(frames);
      PollHardwareFaults(poll.estop, poll.tempC, poll.limit, poll.now);
      UpdateContactor(check.now);
      FramesPollCheck(old(View()), frames, poll, check);
    }

    /** The inner loop over the frames that have arrived. */
    method DrainFrames(frames: seq<Event>)
      requires Valid() && forall f :: f in frames ==> f.Frame?
      modifies this
      ensures Valid() && View() == Run(old(View()), frames)
    {
      var i := 0;
      while i < |frames|
        invariant 0 <= i <= |frames| && Valid()
        invariant View() == Run(old(View()), frames[..i])
      {
        RunNext(old(View()), frames, i);
        assert frames[i] in frames;
        OnHostMessage(frames[i].kind, frames[i].payload, frames[i].now);
        i := i + 1;
      }
      assert frames[..i] == frames;
    }
  }

  lemma RunNext(s: Safety, es: seq<Event>, i: nat)
    requires i < |es|
    ensures Run(s, es[..i + 1]) == Step(Run(s, es[..i]), es[i])
  {
    assert es[..i + 1][..i] == es[..i];
  }

  lemma FramesPollCheck(s: Safety, frames: seq<Event>, poll: Event, check: Event)
    ensures Run(s, frames + [poll, check]) == Step(Step(Run(s, frames), poll), check)
  {
    var all := frames + [poll, check];
    assert all[..|frames|] == frames && all[..|frames| + 1][..|frames|] == frames && all[..|all|] == all;
    RunNext(s, all, |frames|);
    RunNext(s, all, |frames| + 1);
  }

  // ----- the protocol's numbers

  /** What each frame does, by its code on the wire. */
  lemma FrameCodes(s: Safety, payload: seq<Byte>, now: Millis)
    ensures Step(s, Frame(0x01, payload, now)) == s.(lastHostMs := now)
    ensures Step(s, Frame(0x02, payload, now)) == s.(lastHostMs := now, powerRequested := true)
    ensures Step(s, Frame(0x03, payload, now)) == s.(lastHostMs := now, powerRequested := false, powerOn := false)
    ensures var r := Step(s, Frame(0x04, payload, now)); r == s.(lastHostMs := now, faults := r.faults)
    ensures payload == [] ==> Step(s, Frame(0x05, payload, now)) == s.(lastHostMs := now)
    ensures payload != [] ==> var r := Step(s, Frame(0x05, payload, now)); r == s.(lastHostMs := now, powerOn := false, faults := r.faults)
  {
  }

  /** Clearing takes exactly bits 1 to 4, a report adds exactly the bits of its first byte. */
  lemma FrameFaults(s: Safety, payload: seq<Byte>, now: Millis, k: nat)
    requires k < 8
    ensures Has(Step(s, Frame(0x04, payload, now)).faults, k) <==> Has(s.faults, k) && !(1 <= k <= 4)
    ensures payload != [] ==> (Has(Step(s, Frame(0x05, payload, now)).faults, k) <==> Has(s.faults, k) || Has(payload[0], k))
  {
    ClearableBits(k);
  }

  /** Any other frame opens the contactor at once and counts as contact. */
  lemma UnknownOpens(s: Safety, kind: nat, payload: seq<Byte>, now: Millis)
    requires kind == 0 || kind > 5
    ensures Step(s, Frame(kind, payload, now)) == s.(lastHostMs := now, powerOn := false)
  {
    assert Or(s.faults, Zero()) == s.faults;
  }

  /** The limits of the poll and the bit each raises: e-stop 0, 85 degrees 1, joint limit 2, 100 ms of silence 4. */
  lemma PollLimits(s: Safety, estop: bool, tempC: int, limit: bool, now: Millis)
    ensures var r := Step(s, Poll(estop, tempC, limit, now));
            && (Has(r.faults, 0) <==> Has(s.faults, 0) || estop)
            && (Has(r.faults, 1) <==> Has(s.faults, 1) || tempC >= 85)
            && (Has(r.faults, 2) <==> Has(s.faults, 2) || limit)
            && (Has(r.faults, 3) <==> Has(s.faults, 3))
            && (Has(r.faults, 4) <==> Has(s.faults, 4) || Age(now, s.lastHostMs) >= 100)
            && (r.powerOn <==> s.powerOn && !estop && tempC < 85 && !limit && Age(now, s.lastHostMs) < 100)
  {
    PollFault(s, estop, tempC, limit, now, 0);
    PollFault(s, estop, tempC, limit, now, 1);
    PollFault(s, estop, tempC, limit, now, 2);
    PollFault(s, estop, tempC, limit, now, 3);
    PollFault(s, estop, tempC, limit, now, 4);
  }

  // ----- the history, read without running it

  /** When the host was last heard, boot counting as contact. */
  function LastHost(t0: Millis, es: seq<Event>): Millis {
    if es == [] then t0
    else if es[|es| - 1].Frame? then es[|es| - 1].now
    else LastHost(t0, es[..|es| - 1])
  }

  /** Event `i` raises fault bit `k`. */
  predicate Raises(t0: Millis, es: seq<Event>, i: nat, k: nat)
    requires i < |es| && k < 8
  {
    match es[i]
    case Frame(kind, payload, _) => kind == REPORT_FAULT && |payload| >= 1 && Has(payload[0], k)
    case Poll(estop, tempC, limit, now) =>
      || (k == ESTOP && estop)
      || (k == OVERTEMP && tempC >= OVERTEMP_C)
      || (k == JOINT_LIMIT && limit)
      || (k == HOST_SILENT && Age(now, LastHost(t0, es[..i])) >= HOST_TIMEOUT_MS)
    case Check(_) => false
  }

  /** Fault bits 1 to 4 can be cleared by the host, the others never. */
  predicate IsClearable(k: nat) {
    OVERTEMP <= k <= HOST_SILENT
  }

  ghost predicate ClearedAfter(es: seq<Event>, i: nat) {
    exists j :: i < j < |es| && es[j].IsKind(CLEAR_FAULT)
  }

  /** Some event raised bit `k` and nothing has cleared it since. */
  ghost predicate Pending(t0: Millis, es: seq<Event>, k: nat)
    requires k < 8
  {
    exists i :: 0 <= i < |es| && Raises(t0, es, i, k) && !(IsClearable(k) && ClearedAfter(es, i))
  }

  /** The last ENABLE/DISABLE frame was an ENABLE. */
  ghost predicate Requested(es: seq<Event>) {
    exists i :: 0 <= i < |es| && es[i].IsKind(ENABLE_POWER) && forall j :: i < j < |es| ==> !es[j].IsKind(DISABLE_POWER)
  }

  ghost predicate EstopSeen(es: seq<Event>) {
    exists i :: 0 <= i < |es| && es[i].Poll? && es[i].estop
  }

  // ----- the trace theorem

  lemma {:induction false} RunRequested(t0: Millis, es: seq<Event>)
    ensures Run(Boot(t0), es).powerRequested <==> Requested(es)
    ensures Run(Boot(t0), es).estopLatched <==> EstopSeen(es)
    ensures Run(Boot(t0), es).lastHostMs == LastHost(t0, es)
  {
    if es != [] {
      var n := |es| - 1;
      RunRequested(t0, es[..n]);
      StepBasics(Run(Boot(t0), es[..n]), es[n]);
      RequestedSnoc(es);
      EstopSnoc(es);
    }
  }

  lemma StepBasics(s: Safety, e: Event)
    ensures var s' := Step(s, e);
            && s'.powerRequested == (e.IsKind(ENABLE_POWER) || (s.powerRequested && !e.IsKind(DISABLE_POWER)))
            && s'.estopLatched == (s.estopLatched || (e.Poll? && e.estop))
            && s'.lastHostMs == if e.Frame? then e.now else s.lastHostMs
  {
  }

  lemma RequestedSnoc(es: seq<Event>)
    requires es != []
    ensures var n := |es| - 1;
            Requested(es) <==> es[n].IsKind(ENABLE_POWER) || (Requested(es[..n]) && !es[n].IsKind(DISABLE_POWER))
  {
    var n := |es| - 1;
    var ps := es[..n];
    if Requested(ps) && !es[n].IsKind(DISABLE_POWER) {
      var i :| 0 <= i < |ps| && ps[i].IsKind(ENABLE_POWER) && forall j :: i < j < |ps| ==> !ps[j].IsKind(DISABLE_POWER);
      assert es[i].IsKind(ENABLE_POWER);
    }
    if Requested(es) && !es[n].IsKind(ENABLE_POWER) {
      var i :| 0 <= i < |es| && es[i].IsKind(ENABLE_POWER) && forall j :: i < j < |es| ==> !es[j].IsKind(DISABLE_POWER);
      assert ps[i].IsKind(ENABLE_POWER);
      assert !es[n].IsKind(DISABLE_POWER);
    }
  }

  lemma EstopSnoc(es: seq<Event>)
    requires es != []
    ensures EstopSeen(es) <==> EstopSeen(es[..|es| - 1]) || (es[|es| - 1].Poll? && es[|es| - 1].estop)
  {
    var n := |es| - 1;
    var ps := es[..n];
    if EstopSeen(ps) {
      var i :| 0 <= i < |ps| && ps[i].Poll? && ps[i].estop;
      assert es[i].Poll?;
    }
    if EstopSeen(es) {
      var i :| 0 <= i < |es| && es[i].Poll? && es[i].estop;
      if i < n {
        assert ps[i].Poll?;
      }
    }
  }

  lemma PendingSnoc(t0: Millis, es: seq<Event>, k: nat)
    requires es != [] && k < 8
    ensures var n := |es| - 1;
            Pending(t0, es, k) <==>
            Raises(t0, es, n, k) || (Pending(t0, es[..n], k) && !(IsClearable(k) && es[n].IsKind(CLEAR_FAULT)))
  {
    var n := |es| - 1;
    var ps := es[..n];
    forall i | 0 <= i < n ensures Raises(t0, es, i, k) == Raises(t0, ps, i, k) {
      assert ps[..i] == es[..i];
    }
    forall i | 0 <= i < n
      ensures ClearedAfter(es, i) <==> ClearedAfter(ps, i) || es[n].IsKind(CLEAR_FAULT)
    {
      if ClearedAfter(ps, i) {
        var j :| i < j < |ps| && ps[j].IsKind(CLEAR_FAULT);
        assert es[j].IsKind(CLEAR_FAULT);
      }
      if ClearedAfter(es, i) && !es[n].IsKind(CLEAR_FAULT) {
        var j :| i < j < |es| && es[j].IsKind(CLEAR_FAULT);
        assert ps[j].IsKind(CLEAR_FAULT);
      }
    }
    if Raises(t0, es, n, k) {
      assert !ClearedAfter(es, n);
    }
    if Pending(t0, ps, k) && !(IsClearable(k) && es[n].IsKind(CLEAR_FAULT)) {
      var i :| 0 <= i < |ps| && Raises(t0, ps, i, k) && !(IsClearable(k) && ClearedAfter(ps, i));
      assert Raises(t0, es, i, k);
    }
    if Pending(t0, es, k) && !Raises(t0, es, n, k) {
      var i :| 0 <= i < |es| && Raises(t0, es, i, k) && !(IsClearable(k) && ClearedAfter(es, i));
      assert Raises(t0, ps, i, k);
    }
  }

  /** One event changes a fault bit exactly as its history reading says. */
  lemma StepFault(t0: Millis, es: seq<Event>, k: nat, s: Safety)
    requires es != [] && k < 8 && s.lastHostMs == LastHost(t0, es[..|es| - 1])
    ensures var n := |es| - 1;
            Has(Step(s, es[n]).faults, k) <==>
            Raises(t0, es, n, k) || (Has(s.faults, k) && !(IsClearable(k) && es[n].IsKind(CLEAR_FAULT)))
  {
    match es[|es| - 1]
    case Frame(kind, payload, now) =>
      ClearableBits(k);
    case Poll(estop, tempC, limit, now) =>
      PollFault(s, estop, tempC, limit, now, k);
    case Check(_) =>
  }

  lemma ClearableBits(k: nat)
    requires k < 8
    ensures Has(Clearable(), k) <==> IsClearable(k)
  {
  }

  lemma PollFault(s: Safety, estop: bool, tempC: int, limit: bool, now: Millis, k: nat)
    requires k < 8
    ensures Has(OnPoll(s, estop, tempC, limit, now).faults, k) <==>
            || Has(s.faults, k)
            || (k == ESTOP && estop)
            || (k == OVERTEMP && tempC >= OVERTEMP_C)
            || (k == JOINT_LIMIT && limit)
            || (k == HOST_SILENT && Age(now, s.lastHostMs) >= HOST_TIMEOUT_MS)
  {
    var s0 := s.(estopLatched := s.estopLatched || estop);
    var s1 := Latch(s0, estop, ESTOP);
    var s2 := Latch(s1, tempC >= OVERTEMP_C, OVERTEMP);
    var s3 := Latch(s2, limit, JOINT_LIMIT);
    LatchFault(s0, estop, ESTOP, k);
    LatchFault(s1, tempC >= OVERTEMP_C, OVERTEMP, k);
    LatchFault(s2, limit, JOINT_LIMIT, k);
    LatchFault(s3, Age(now, s3.lastHostMs) >= HOST_TIMEOUT_MS, HOST_SILENT, k);
  }

  lemma LatchFault(s: Safety, detected: bool, b: nat, k: nat)
    requires b < 8 && k < 8
    ensures Has(Latch(s, detected, b).faults, k) <==> Has(s.faults, k) || (detected && k == b)
  {
  }

  lemma {:induction false} RunFaults(t0: Millis, es: seq<Event>, k: nat)
    requires k < 8
    ensures Has(Run(Boot(t0), es).faults, k) <==> Pending(t0, es, k)
  {
    if es != [] {
      var n := |es| - 1;
      RunFaults(t0, es[..n], k);
      RunRequested(t0, es[..n]);
      PendingSnoc(t0, es, k);
      StepFault(t0, es, k, Run(Boot(t0), es[..n]));
    }
  }

  lemma NoFaults(b: Byte)
    ensures b == Zero() <==> forall k: nat :: k < 8 ==> !Has(b, k)
  {
    if forall k: nat :: k < 8 ==> !Has(b, k) {
      forall i | 0 <= i < 8 ensures b[i] == Zero()[i] {
        assert !Has(b, 7 - i);
      }
    }
  }

  /**
   The contactor after an update, from the history alone: closed exactly when the host's
   last word was ENABLE, no e-stop was ever sampled, every raised fault has been cleared
   since (which only bits 1 to 4 can be), and the host was heard less than 100 ms ago.
   */
  lemma ContactorClosedIff(t0: Millis, es: seq<Event>, now: Millis)
    ensures Run(Boot(t0), es + [Check(now)]).powerOn <==>
            && Requested(es)
            && !EstopSeen(es)
            && (forall k: nat :: k < 8 ==> !Pending(t0, es, k))
            && Age(now, LastHost(t0, es)) < HOST_TIMEOUT_MS
  {
    assert (es + [Check(now)])[..|es|] == es;
    var s := Run(Boot(t0), es);
    RunRequested(t0, es);
    NoFaults(s.faults);
    forall k: nat | k < 8 ensures Has(s.faults, k) <==> Pending(t0, es, k) {
      RunFaults(t0, es, k);
    }
  }

  /** At every instant, not only after an update: power is never on against the rules. */
  lemma {:induction false} PoweredInvariant(t0: Millis, es: seq<Event>)
    ensures var s := Run(Boot(t0), es);
            s.powerOn ==> s.powerRequested && !s.estopLatched && s.faults == Zero()
  {
    if es != [] {
      PoweredInvariant(t0, es[..|es| - 1]);
      var s := Run(Boot(t0), es[..|es| - 1]);
      if s.powerOn {
        assert AndNot(Zero(), Clearable()) == Zero();
      }
    }
  }

  /** An e-stop is final: no continuation of the run, whatever the host sends, closes the contactor. */
  lemma EstopIsFinal(t0: Millis, es: seq<Event>, later: seq<Event>)
    requires EstopSeen(es)
    ensures !Run(Boot(t0), es + later).powerOn
  {
    var i :| 0 <= i < |es| && es[i].Poll? && es[i].estop;
    var all := es + later;
    assert all[i].Poll? && all[i].estop;
    RunRequested(t0, all);
    PoweredInvariant(t0, all);
  }

  // ----- unknown frames

  /** Equal except for the momentary contactor state. */
  predicate SameButPower(s: Safety, s': Safety) {
    s.(powerOn := false) == s'.(powerOn := false)
  }

  lemma {:induction false} SameButPowerRuns(s: Safety, s': Safety, es: seq<Event>)
    requires SameButPower(s, s')
    ensures SameButPower(Run(s, es), Run(s', es))
  {
    if es != [] {
      var n := |es| - 1;
      SameButPowerRuns(s, s', es[..n]);
      SameButPowerStep(Run(s, es[..n]), Run(s', es[..n]), es[n]);
    }
  }

  lemma SameButPowerStep(s: Safety, s': Safety, e: Event)
    requires SameButPower(s, s')
    ensures SameButPower(Step(s, e), Step(s', e))
  {
    if s.powerOn != s'.powerOn {
      var p := s.powerOn;
      assert s == s'.(powerOn := p);
    }
    match e
    case Frame(kind, payload, now) =>
      var t, t' := OnFrame(s, kind, payload, now), OnFrame(s', kind, payload, now);
      assert t.faults == t'.faults;
    case Poll(estop, tempC, limit, now) =>
      PollCommutes(s, s', estop, tempC, limit, now);
    case Check(_) =>
  }

  lemma PollCommutes(s: Safety, s': Safety, estop: bool, tempC: int, limit: bool, now: Millis)
    requires SameButPower(s, s')
    ensures SameButPower(OnPoll(s, estop, tempC, limit, now), OnPoll(s', estop, tempC, limit, now))
  {
  }

  /**
   The firmware documentation promises that an invalid command removes power. It does so
   only until the next contactor update: from there on, an unknown frame has done exactly
   what a heartbeat at the same moment would have done.
   */
  lemma UnknownFrameIsHeartbeat(s: Safety, f: Event, es: seq<Event>, now: Millis)
    requires f.Unknown()
    ensures Run(s, [f] + es + [Check(now)]) == Run(s, [f.(kind := HEARTBEAT)] + es + [Check(now)])
  {
    var h := f.(kind := HEARTBEAT);
    FirstThenRest(s, f, es, now);
    FirstThenRest(s, h, es, now);
    assert Or(s.faults, Zero()) == s.faults;
    SameButPowerRuns(Step(s, f), Step(s, h), es);
  }

  lemma FirstThenRest(s: Safety, f: Event, es: seq<Event>, now: Millis)
    ensures Run(s, [f] + es + [Check(now)]) == OnCheck(Run(Step(s, f), es), now)
  {
    RunAppend(s, [f] + es, [Check(now)]);
    RunAppend(s, [f], es);
    assert [f][..0] == [] && [Check(now)][..0] == [];
    assert Run(s, [f]) == Step(Run(s, []), f);
    var t := Run(s, [f] + es);
    assert Run(t, [Check(now)]) == Step(Run(t, []), Check(now));
  }

  /** So a powered droid keeps its power through an unknown frame, against the documentation. */
  lemma UnknownFrameKeepsPower()
    ensures var es := [Frame(ENABLE_POWER, [], 0), Poll(false, 25, false, 0), Check(0), Frame(0xFF, [], 1), Poll(false, 25, false, 1)];
            Run(Boot(0), es + [Check(1)]).powerOn
  {
    var es := [Frame(ENABLE_POWER, [], 0), Poll(false, 25, false, 0), Check(0), Frame(0xFF, [], 1), Poll(false, 25, false, 1)];
    ContactorClosedIff(0, es, 1);
    assert es[0].IsKind(ENABLE_POWER);
    assert es[..4][..3] == es[..3] && es[..3][..2] == es[..2] && es[..2][..1] == es[..1];
    assert es[..4] == [es[0], es[1], es[2], es[3]] && es[..1] == [es[0]];
    assert LastHost(0, es[..1]) == 0;
    assert LastHost(0, es[..4]) == 1;
    assert LastHost(0, es) == 1;
  }

  // ----- true time and the wrapping counter

  /** The counter shows true time modulo 2^32. */
  function Shown(t: nat): Millis {
    t % WRAP
  }

  /** True time of the last frame. */
  function TrueLastHost(t0: nat, ts: seq<nat>, es: seq<Event>): nat
    requires |ts| == |es|
  {
    if es == [] then t0
    else if es[|es| - 1].Frame? then ts[|ts| - 1]
    else TrueLastHost(t0, ts[..|ts| - 1], es[..|es| - 1])
  }

  /** True time of the last frame or poll: the reads that can notice silence, or reset it. */
  function LastLook(t0: nat, ts: seq<nat>, es: seq<Event>): nat
    requires |ts| == |es|
  {
    if es == [] then t0
    else if !es[|es| - 1].Check? then ts[|ts| - 1]
    else LastLook(t0, ts[..|ts| - 1], es[..|es| - 1])
  }

  /**
   The clock values of `es` come from the true times `ts`, which never run backwards, and
   every poll and update happens at most `gap` after the frame or poll before it.
   */
  ghost predicate Timed(t0: nat, ts: seq<nat>, es: seq<Event>, gap: nat) {
    && |ts| == |es|
    && (es != [] ==>
          var n := |es| - 1;
          && Timed(t0, ts[..n], es[..n], gap)
          && es[n].now == Shown(ts[n])
          && (n > 0 ==> ts[n - 1] <= ts[n])
          && LastLook(t0, ts[..n], es[..n]) <= ts[n]
          && (!es[n].Frame? ==> ts[n] - LastLook(t0, ts[..n], es[..n]) <= gap))
  }

  lemma ShownAge(t: nat, since: nat)
    requires since <= t < since + WRAP
    ensures Age(Shown(t), Shown(since)) == t - since
  {
  }

  lemma {:induction false} TimedLastHost(t0: nat, ts: seq<nat>, es: seq<Event>, gap: nat)
    requires Timed(t0, ts, es, gap)
    ensures LastHost(Shown(t0), es) == Shown(TrueLastHost(t0, ts, es))
    ensures TrueLastHost(t0, ts, es) <= LastLook(t0, ts, es)
  {
    if es != [] {
      var n := |es| - 1;
      TimedLastHost(t0, ts[..n], es[..n], gap);
    }
  }

  /** Unless the silence fault is latched, the last look found the host heard within 100 ms. */
  lemma {:induction false} SilenceLatches(t0: nat, ts: seq<nat>, es: seq<Event>, gap: nat)
    requires Timed(t0, ts, es, gap) && gap <= WRAP - HOST_TIMEOUT_MS
    ensures Has(Run(Boot(Shown(t0)), es).faults, HOST_SILENT)
            || LastLook(t0, ts, es) - TrueLastHost(t0, ts, es) < HOST_TIMEOUT_MS
  {
    if es != [] {
      var n := |es| - 1;
      var ps, us := es[..n], ts[..n];
      SilenceLatches(t0, us, ps, gap);
      if es[n].Poll? {
        TimedLastHost(t0, us, ps, gap);
        var s := Run(Boot(Shown(t0)), ps);
        RunRequested(Shown(t0), ps);
        StepFault(Shown(t0), es, HOST_SILENT, s);
        if !Has(s.faults, HOST_SILENT) {
          ShownAge(ts[n], TrueLastHost(t0, us, ps));
        }
      }
    }
  }

  /** A closed contactor means the host was truly heard less than 100 ms before. */
  ghost predicate WrapSafe(gap: nat) {
    forall t0: nat, ts: seq<nat>, es: seq<Event> :: Timed(t0, ts, es, gap) && es != [] && es[|es| - 1].Check? && Run(Boot(Shown(t0)), es).powerOn
      ==> ts[|ts| - 1] - TrueLastHost(t0, ts, es) < HOST_TIMEOUT_MS
  }

  lemma WrapSafeRun(t0: nat, ts: seq<nat>, es: seq<Event>, gap: nat)
    requires Timed(t0, ts, es, gap) && gap <= WRAP - HOST_TIMEOUT_MS
    requires es != [] && es[|es| - 1].Check? && Run(Boot(Shown(t0)), es).powerOn
    ensures ts[|ts| - 1] - TrueLastHost(t0, ts, es) < HOST_TIMEOUT_MS
  {
    var n := |es| - 1;
    var ps, us := es[..n], ts[..n];
    SilenceLatches(t0, us, ps, gap);
    TimedLastHost(t0, us, ps, gap);
    RunRequested(Shown(t0), ps);
    assert !Has(Zero(), HOST_SILENT);
    ShownAge(ts[n], TrueLastHost(t0, us, ps));
  }

  /** An ENABLE, a normal turn 99 ms later, and a turn just as the counter has come round. */
  lemma WrapUnsafe(gap: nat)
    requires gap > WRAP - HOST_TIMEOUT_MS
    ensures !WrapSafe(gap)
  {
    var es := [Frame(ENABLE_POWER, [], 0), Poll(false, 25, false, 99), Check(99), Poll(false, 25, false, 0), Check(0)];
    var ts: seq<nat> := [0, 99, 99, WRAP, WRAP];
    assert es[..5] == es && ts[..5] == ts;
    assert es[..4] == [es[0], es[1], es[2], es[3]] && ts[..4] == [0, 99, 99, WRAP];
    PrefixTimed(ts, es, gap);
    ContactorClosedIff(0, es[..4], 0);
    assert es[..4][0].IsKind(ENABLE_POWER);
    assert es[..4] + [Check(0)] == es;
    Looks(ts, es);
    assert Run(Boot(Shown(0)), es).powerOn by {
      forall k: nat | k < 8 ensures !Pending(0, es[..4], k) {
        forall i | 0 <= i < 4 ensures !Raises(0, es[..4], i, k) {
          assert es[..4][..i] == es[..i];
        }
      }
    }
    assert Timed(0, ts, es, gap);
  }

  lemma Looks(ts: seq<nat>, es: seq<Event>)
    requires |es| == |ts| == 5
    requires es[0].Frame? && es[0].now == 0 && !es[1].Frame? && !es[2].Frame? && !es[3].Frame? && !es[4].Frame?
    requires ts[0] == 0
    ensures forall i :: 1 <= i <= 5 ==> LastHost(0, es[..i]) == 0
    ensures TrueLastHost(0, ts, es) == 0 && LastHost(0, es[..4]) == 0
  {
    assert es[..5] == es && ts[..5] == ts;
    assert es[..5][..4] == es[..4] && es[..4][..3] == es[..3] && es[..3][..2] == es[..2] && es[..2][..1] == es[..1];
    assert ts[..5][..4] == ts[..4] && ts[..4][..3] == ts[..3] && ts[..3][..2] == ts[..2] && ts[..2][..1] == ts[..1];
    assert LastHost(0, es[..1]) == 0 && LastHost(0, es[..2]) == 0 && LastHost(0, es[..3]) == 0;
    assert TrueLastHost(0, ts[..1], es[..1]) == 0 && TrueLastHost(0, ts[..2], es[..2]) == 0;
    assert TrueLastHost(0, ts[..3], es[..3]) == 0 && TrueLastHost(0, ts[..4], es[..4]) == 0;
  }

  lemma PrefixTimed(ts: seq<nat>, es: seq<Event>, gap: nat)
    requires gap > WRAP - HOST_TIMEOUT_MS
    requires es == [Frame(ENABLE_POWER, [], 0), Poll(false, 25, false, 99), Check(99), Poll(false, 25, false, 0), Check(0)]
    requires ts == [0, 99, 99, WRAP, WRAP]
    ensures Timed(0, ts, es, gap)
  {
    assert es[..5] == es && ts[..5] == ts;
    assert es[..5][..4] == es[..4] && es[..4][..3] == es[..3] && es[..3][..2] == es[..2] && es[..2][..1] == es[..1] && es[..1][..0] == [];
    assert ts[..5][..4] == ts[..4] && ts[..4][..3] == ts[..3] && ts[..3][..2] == ts[..2] && ts[..2][..1] == ts[..1] && ts[..1][..0] == [];
    assert Timed(0, [], [], gap) && LastLook(0, [], []) == 0;
    assert Timed(0, ts[..1], es[..1], gap) && LastLook(0, ts[..1], es[..1]) == 0;
    assert Timed(0, ts[..2], es[..2], gap) && LastLook(0, ts[..2], es[..2]) == 99;
    assert Timed(0, ts[..3], es[..3], gap) && LastLook(0, ts[..3], es[..3]) == 99;
    assert Timed(0, ts[..4], es[..4], gap) && LastLook(0, ts[..4], es[..4]) == WRAP;
  }

  /** The counter's wrap-around is harmless exactly while no look is later than 2^32 - 100 ms. */
  lemma WrapSafeIff(gap: nat)
    ensures WrapSafe(gap) <==> gap <= WRAP - HOST_TIMEOUT_MS
  {
    if gap <= WRAP - HOST_TIMEOUT_MS {
      forall t0: nat, ts: seq<nat>, es: seq<Event> | Timed(t0, ts, es, gap) && es != [] && es[|es| - 1].Check? && Run(Boot(Shown(t0)), es).powerOn
        ensures ts[|ts| - 1] - TrueLastHost(t0, ts, es) < HOST_TIMEOUT_MS
      {
        WrapSafeRun(t0, ts, es, gap);
      }
    } else {
      WrapUnsafe(gap);
    }
  }
}
