/** The droid's state machine: the transition graph, its motion sets, and what a history can be. */
module DroidStates {

  datatype DroidState =
    | PoweredOff | Booting | HardwareCheck | SafeIdle | Ready | Active
    | Degraded | MotionInhibited | EmergencyStopped | Recovery | ShuttingDown

  const ALL_STATES := {PoweredOff, Booting, HardwareCheck, SafeIdle, Ready, Active,
                       Degraded, MotionInhibited, EmergencyStopped, Recovery, ShuttingDown}

  const MOTION_ALLOWED_FROM := {Ready, Degraded, Active}

  const MOTION_FORBIDDEN := {PoweredOff, Booting, HardwareCheck, SafeIdle, MotionInhibited,
                             EmergencyStopped, Recovery, ShuttingDown}

  function Successors(s: DroidState): set<DroidState> {
    match s
    case PoweredOff => {Booting}
    case Booting => {HardwareCheck, Recovery, ShuttingDown}
    case HardwareCheck => {SafeIdle, MotionInhibited, EmergencyStopped, Recovery}
    case SafeIdle => {Ready, MotionInhibited, EmergencyStopped, ShuttingDown, Degraded}
    case Ready => {Active, SafeIdle, Degraded, MotionInhibited, EmergencyStopped, ShuttingDown}
    case Active => {Ready, Degraded, MotionInhibited, EmergencyStopped, ShuttingDown}
    case Degraded => {Ready, Active, SafeIdle, MotionInhibited, EmergencyStopped, ShuttingDown}
    case MotionInhibited => {SafeIdle, Ready, EmergencyStopped, ShuttingDown}
    case EmergencyStopped => {Recovery, ShuttingDown}
    case Recovery => {SafeIdle, ShuttingDown, PoweredOff}
    case ShuttingDown => {PoweredOff}
  }

  /** The states a legal transition can come from. */
  function Predecessors(s: DroidState): set<DroidState> {
    match s
    case PoweredOff => {Recovery, ShuttingDown}
    case Booting => {PoweredOff}
    case HardwareCheck => {Booting}
    case SafeIdle => {HardwareCheck, Ready, Degraded, MotionInhibited, Recovery}
    case Ready => {SafeIdle, Active, Degraded, MotionInhibited}
    case Active => {Ready, Degraded}
    case Degraded => {SafeIdle, Ready, Active}
    case MotionInhibited => {HardwareCheck, SafeIdle, Ready, Active, Degraded}
    case EmergencyStopped => {HardwareCheck, SafeIdle, Ready, Active, Degraded, MotionInhibited}
    case Recovery => {Booting, HardwareCheck, EmergencyStopped}
    case ShuttingDown => {Booting, SafeIdle, Ready, Active, Degraded, MotionInhibited, EmergencyStopped, Recovery}
  }

  /** The graph read backwards: in particular only a ready or degraded droid becomes active. */
  lemma GraphReversed(s: DroidState, t: DroidState)
    ensures t in Successors(s) <==> s in Predecessors(t)
  {
  }

  predicate MotionPermitted(s: DroidState) {
    s in MOTION_ALLOWED_FROM
  }

  /** One history record; `forced` ones bypassed the graph. */
  datatype Change = Change(src: DroidState, dst: DroidState, forced: bool)

  /** The records lead from one state to another without a gap, and only forced ones leave the graph. */
  ghost predicate Chained(src: DroidState, history: seq<Change>, dst: DroidState) {
    if history == [] then src == dst
    else
      var last := history[|history| - 1];
      && last.dst == dst
      && (last.forced || last.dst in Successors(last.src))
      && Chained(src, history[..|history| - 1], last.src)
  }

  class StateMachine {
    var state: DroidState
    var history: seq<Change>
    ghost const initial: DroidState

    ghost predicate Valid()
      reads this
    {
      Chained(initial, history, state)
    }

    constructor (initial: DroidState)
      ensures Valid() && state == initial && this.initial == initial && history == []
    {
      this.initial := initial;
      state := initial;
      history := [];
    }

    /** Takes a legal transition and reports success, or leaves everything as it is and refuses. */
    method Transition(dst: DroidState) returns (ok: bool)
      requires Valid()
      modifies this
      ensures Valid()
      ensures ok <==> dst == old(state) || dst in Successors(old(state))
      ensures state == (if ok then dst else old(state))
      ensures history == old(history) + (if ok && dst != old(state) then [Change(old(state), dst, false)] else [])
    {
      if dst == state {
        return true;
      }
      if dst !in Successors(state) {
        return false;
      }
      assert (history + [Change(state, dst, false)])[..|history|] == history;
      history := history + [Change(state, dst, false)];
      state := dst;
      ok := true;
    }

    method Force(dst: DroidState)
      requires Valid()
      modifies this
      ensures Valid() && state == dst && history == old(history) + [Change(old(state), dst, true)]
    {
      assert (history + [Change(state, dst, true)])[..|history|] == history;
      history := history + [Change(state, dst, true)];
      state := dst;
    }
  }

  /** Every state either allows new motion or forbids it, and none does both. */
  lemma MotionSetsPartition()
    ensures MOTION_ALLOWED_FROM + MOTION_FORBIDDEN == ALL_STATES
    ensures MOTION_ALLOWED_FROM !! MOTION_FORBIDDEN
    ensures forall s: DroidState :: s in ALL_STATES
  {
    forall s: DroidState ensures s in ALL_STATES {
      match s {
        case PoweredOff => case Booting => case HardwareCheck => case SafeIdle => case Ready => case Active =>
        case Degraded => case MotionInhibited => case EmergencyStopped => case Recovery => case ShuttingDown =>
      }
    }
  }

  /** The states a history passes through after its start. */
  ghost predicate Visits(history: seq<Change>, s: DroidState) {
    exists i :: 0 <= i < |history| && history[i].dst == s
  }

  ghost predicate NothingForced(history: seq<Change>) {
    forall i :: 0 <= i < |history| ==> !history[i].forced
  }

  /**
   By legal transitions alone there is no way from an emergency stop to a state that does not
   forbid motion, which is to one that permits it, except through recovery or a fresh boot.
   */
  lemma EstopNeedsRecovery(history: seq<Change>, dst: DroidState)
    requires Chained(EmergencyStopped, history, dst) && NothingForced(history) && dst !in MOTION_FORBIDDEN
    ensures MotionPermitted(dst)
    ensures Visits(history, Recovery) || Visits(history, Booting)
  {
    MotionSetsPartition();
    if !Visits(history, Recovery) && !Visits(history, Booting) {
      StaysStopped(history, dst);
    }
  }

  lemma {:induction false} StaysStopped(history: seq<Change>, dst: DroidState)
    requires Chained(EmergencyStopped, history, dst) && NothingForced(history)
    requires !Visits(history, Recovery) && !Visits(history, Booting)
    ensures dst in {EmergencyStopped, ShuttingDown, PoweredOff}
  {
    if history != [] {
      var n := |history| - 1;
      var ps := history[..n];
      assert forall i :: 0 <= i < n ==> ps[i] == history[i];
      assert history[n].dst != Recovery && history[n].dst != Booting;
      StaysStopped(ps, history[n].src);
    }
  }
}
