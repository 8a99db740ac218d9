/**
 The two update slots: bundles go into the slot that is not active, a boot confirms or
 rejects the slot it was told to use, and a rollback changes sides. The build's own version
 and the verdict on a bundle are inputs.
 */
module Update {
  import opened Wrappers

  datatype Slot = A | B

  function Other(s: Slot): Slot {
    if s == A then B else A
  }

  datatype Content = Content(version: Option<string>, healthy: bool)

  datatype Outcome =
    | Nothing
    | VerifyFailed(reason: string)
    | Installed(version: Option<string>, slot: Slot)
    | BootOk(slot: Slot)
    | RolledBackFrom(slot: Slot)
    | ManualRollback(slot: Slot)

  datatype Info = Info(running: string, active: Slot, a: Content, b: Content, nextBoot: Slot, last: Outcome) {
    function At(s: Slot): Content {
      if s == A then a else b
    }

    function Put(s: Slot, c: Content): Info {
      if s == A then this.(a := c) else this.(b := c)
    }
  }

  function Default(build: string): Info {
    Info(build, A, Content(Some(build), true), Content(None, false), A, Nothing)
  }

  /** Python's truth of a version: present and not empty. */
  predicate Named(v: Option<string>) {
    v.Some? && v.value != ""
  }

  /** What verification made of a bundle; a verified one may still lack a version, or have an empty one. */
  datatype Bundle = Rejected(reason: string) | Unversioned | Verified(version: Option<string>) {
    function Version(): Option<string>
      requires !Rejected?
    {
      if Unversioned? then Some("unknown") else version
    }
  }

  function Installing(i: Info, bundle: Bundle): Info {
    if bundle.Rejected? then i.(last := VerifyFailed(bundle.reason))
    else
      var target := Other(i.active);
      i.Put(target, Content(bundle.Version(), false)).(nextBoot := target, last := Outcome.Installed(bundle.Version(), target))
  }

  function Confirming(i: Info, healthy: bool, build: string): Info {
    var booted := i.nextBoot;
    if healthy then
      var v := i.At(booted).version;
      i.Put(booted, Content(v, true)).(active := booted, running := if Named(v) then v.value else build, last := BootOk(booted))
    else
      i.(nextBoot := Other(booted), active := Other(booted), last := RolledBackFrom(booted))
  }

  function RollingBack(i: Info): Info {
    var other := Other(i.active);
    if !Named(i.At(other).version) then i
    else i.(active := other, nextBoot := other, running := i.At(other).version.value, last := ManualRollback(other))
  }

  class Updater {
    var running: string
    var active: Slot
    var slots: map<Slot, Content>
    var nextBoot: Slot
    var last: Outcome
    const build: string

    ghost predicate Valid()
      reads this
    {
      forall s: Slot :: s in slots
    }

    ghost function View(): Info
      requires Valid()
      reads this
    {
      Info(running, active, slots[A], slots[B], nextBoot, last)
    }

    constructor (build: string)
      ensures Valid() && View() == Default(build) && this.build == build
    {
      this.build, running, active, nextBoot, last := build, build, A, A, Nothing;
      slots := map[A := Content(Some(build), true), B := Content(None, false)];
      new;
      forall s: Slot ensures s in slots {
        assert s == A || s == B;
      }
    }

    method Install(bundle: Bundle) returns (ok: bool)
      requires Valid()
      modifies this
      ensures Valid() && View() == Installing(old(View()), bundle) && ok == !bundle.Rejected?
    {
      if bundle.Rejected? {
        last := VerifyFailed(bundle.reason);
        return false;
      }
      var target := if active == A then B else A;
      slots := slots[target := Content(bundle.Version(), false)];
      nextBoot := target;
      last := Outcome.Installed(bundle.Version(), target);
      ok := true;
    }

    method ConfirmBootHealth(healthy: bool)
      requires Valid()
      modifies this
      ensures Valid() && View() == Confirming(old(View()), healthy, build)
    {
      var booted := nextBoot;
      if healthy {
        active := booted;
        slots := slots[booted := slots[booted].(healthy := true)];
        running := if Named(slots[booted].version) then slots[booted].version.value else build;
        last := BootOk(booted);
      } else {
        var previous := if booted == B then A else B;
        nextBoot, active, last := previous, previous, RolledBackFrom(booted);
      }
    }

    method Rollback() returns (ok: bool)
      requires Valid()
      modifies this
      ensures Valid() && View() == RollingBack(old(View()))
      ensures ok <==> Named(old(View()).At(Other(old(active))).version)
    {
      var other := if active == A then B else A;
      if !Named(slots[other].version) {
        return false;
      }
      active, nextBoot, running, last := other, other, slots[other].version.value, ManualRollback(other);
      ok := true;
    }
  }

  // ----- runs

  datatype Op = Install(bundle: Bundle) | Confirm(healthy: bool) | Rollback

  function Step(i: Info, op: Op, build: string): Info {
    match op
    case Install(bundle) => Installing(i, bundle)
    case Confirm(healthy) => Confirming(i, healthy, build)
    case Rollback => RollingBack(i)
  }

  function Run(i: Info, ops: seq<Op>, build: string): Info {
    if ops == [] then i else Step(Run(i, ops[..|ops| - 1], build), ops[|ops| - 1], build)
  }

  /** The running version is the one in the active slot. */
  predicate RunsActive(i: Info) {
    i.At(i.active).version == Some(i.running)
  }

  /** Besides, the slot to boot next has a version, and so has the running one. */
  predicate Consistent(i: Info) {
    RunsActive(i) && i.running != "" && Named(i.At(i.nextBoot).version)
  }

  /** Installed versions are named, and a boot is reported unhealthy only if it tried the other slot. */
  predicate Careful(i: Info, op: Op) {
    && (op.Install? && !op.bundle.Rejected? ==> Named(op.bundle.Version()))
    && (op == Confirm(false) ==> i.nextBoot != i.active)
  }

  ghost predicate CarefulRun(i: Info, ops: seq<Op>, build: string) {
    forall k :: 0 <= k < |ops| ==> Careful(Run(i, ops[..k], build), ops[k])
  }

  lemma StepConsistent(i: Info, op: Op, build: string)
    requires Consistent(i) && Careful(i, op)
    ensures Consistent(Step(i, op, build))
  {
  }

  /** Over every careful run, what runs is what the active slot holds. */
  lemma {:induction false} RunConsistent(i: Info, ops: seq<Op>, build: string)
    requires Consistent(i) && CarefulRun(i, ops, build)
    ensures Consistent(Run(i, ops, build))
  {
    if ops != [] {
      var n := |ops| - 1;
      var ps := ops[..n];
      assert CarefulRun(i, ps, build) by {
        forall k | 0 <= k < |ps| ensures Careful(Run(i, ps[..k], build), ps[k]) {
          assert ps[..k] == ops[..k] && Careful(Run(i, ops[..k], build), ops[k]);
        }
      }
      RunConsistent(i, ps, build);
      assert Careful(Run(i, ops[..n], build), ops[n]);
      StepConsistent(Run(i, ps, build), ops[n], build);
    }
  }

  /** Exactly when an unhealthy report keeps the two in agreement. */
  lemma UnhealthyKeepsIff(i: Info, build: string)
    requires RunsActive(i)
    ensures RunsActive(Confirming(i, false, build)) <==> i.nextBoot != i.active || i.a.version == i.b.version
  {
  }

  /** A fresh system that reports an unhealthy boot moves to the empty slot while its version keeps running. */
  lemma UnhealthyFreshSystem(build: string)
    ensures var i := Confirming(Default(build), false, build);
            i.active == B && i.At(i.active).version == None && i.running == build
  {
  }

  /** Exactly when installing and booting a bundle keeps the two in agreement. */
  lemma HealthyKeepsIff(i: Info, bundle: Bundle, build: string)
    requires !bundle.Rejected?
    ensures RunsActive(Confirming(Installing(i, bundle), true, build)) <==> Named(bundle.Version()) || bundle.Version() == Some(build)
  {
  }

  // ----- installing never touches what runs

  predicate OnlyInstalls(ops: seq<Op>) {
    forall k :: 0 <= k < |ops| ==> ops[k].Install?
  }

  /** However many bundles are installed, the active slot and what runs are as they were. */
  lemma {:induction false} InstallsKeepActive(i: Info, ops: seq<Op>, build: string)
    requires OnlyInstalls(ops)
    ensures var r := Run(i, ops, build);
            && r.running == i.running && r.active == i.active && r.At(i.active) == i.At(i.active)
            && r.nextBoot == if exists k :: 0 <= k < |ops| && !ops[k].bundle.Rejected? then Other(i.active) else i.nextBoot
  {
    if ops != [] {
      var n := |ops| - 1;
      var ps := ops[..n];
      InstallsKeepActive(i, ps, build);
      if exists k :: 0 <= k < |ps| && !ps[k].bundle.Rejected? {
        var k :| 0 <= k < |ps| && !ps[k].bundle.Rejected?;
        assert !ops[k].bundle.Rejected?;
      } else {
        assert forall k :: 0 <= k < n ==> ps[k] == ops[k];
      }
    }
  }

  /** The version of the last bundle that was accepted, if any was. */
  function LastAccepted(ops: seq<Op>): Option<Option<string>> {
    if ops == [] then None
    else
      match ops[|ops| - 1]
      case Install(Verified(v)) => Some(v)
      case Install(Unversioned) => Some(Some("unknown"))
      case _ => LastAccepted(ops[..|ops| - 1])
  }

  /** After any installs the slot that is not active holds the last accepted version, not yet found healthy; it boots next. */
  lemma {:induction false} LastAcceptedIsStaged(i: Info, ops: seq<Op>, build: string)
    requires OnlyInstalls(ops)
    ensures var r := Run(i, ops, build);
            match LastAccepted(ops)
            case None => r.a == i.a && r.b == i.b && r.nextBoot == i.nextBoot
            case Some(v) => r.At(Other(i.active)) == Content(v, false) && r.nextBoot == Other(i.active)
  {
    InstallsKeepActive(i, ops, build);
    if ops != [] {
      LastAcceptedIsStaged(i, ops[..|ops| - 1], build);
      InstallsKeepActive(i, ops[..|ops| - 1], build);
    }
  }

  /** A healthy boot then runs it, from that slot; the old slot keeps what it held. */
  lemma HealthyBootRuns(i: Info, ops: seq<Op>, build: string, v: Option<string>)
    requires OnlyInstalls(ops) && LastAccepted(ops) == Some(v)
    ensures var r := Confirming(Run(i, ops, build), true, build);
            && r.active == Other(i.active) && r.nextBoot == r.active
            && r.At(r.active) == Content(v, true) && r.At(i.active) == i.At(i.active)
            && r.running == match v { case None => build case Some(w) => if w == "" then build else w }
  {
    LastAcceptedIsStaged(i, ops, build);
    InstallsKeepActive(i, ops, build);
  }

  /** What the record says happened last. */
  lemma LastOutcome(i: Info, op: Op, build: string)
    ensures match op
            case Install(Rejected(reason)) => Step(i, op, build) == i.(last := VerifyFailed(reason))
            case Install(Verified(v)) => Step(i, op, build).last == Outcome.Installed(v, Other(i.active))
            case Install(Unversioned) => Step(i, op, build).last == Outcome.Installed(Some("unknown"), Other(i.active))
            case Confirm(true) => Step(i, op, build).last == BootOk(i.nextBoot)
            case Confirm(false) => Step(i, op, build).last == RolledBackFrom(i.nextBoot)
            case Rollback => Step(i, op, build).last == ManualRollback(Other(i.active)) || Step(i, op, build) == i
  {
  }

  /** A rollback is taken exactly if the other slot has a version; it then runs that version from there, and undoes itself. */
  lemma RollbackMeans(i: Info)
    ensures var r, v := RollingBack(i), i.At(Other(i.active)).version;
            if v == None || v == Some("") then r == i
            else r.active == Other(i.active) && r.nextBoot == r.active && v == Some(r.running) && r.a == i.a && r.b == i.b
    ensures Consistent(i) && RollingBack(i).active != i.active ==>
              RollingBack(RollingBack(i)).active == i.active && RollingBack(RollingBack(i)).running == i.running
  {
  }

  /**
   After installs of which at least one was accepted, a failed boot brings back the active
   slot with its content and the running version; the next boot is the active slot, which
   is what it was before exactly if it was the active slot before.
   */
  lemma FailedBootRestores(i: Info, ops: seq<Op>, build: string)
    requires OnlyInstalls(ops) && exists k :: 0 <= k < |ops| && !ops[k].bundle.Rejected?
    ensures var r := Confirming(Run(i, ops, build), false, build);
            && r.active == i.active && r.At(i.active) == i.At(i.active) && r.running == i.running
            && r.nextBoot == i.active
            && (r.nextBoot == i.nextBoot <==> i.nextBoot == i.active)
  {
    InstallsKeepActive(i, ops, build);
  }

  /** An update that booted can be undone: the rollback returns to the old slot and version. */
  lemma RollbackUndoesUpdate(i: Info, ops: seq<Op>, build: string)
    requires Consistent(i) && OnlyInstalls(ops) && exists k :: 0 <= k < |ops| && !ops[k].bundle.Rejected?
    ensures var r := RollingBack(Confirming(Run(i, ops, build), true, build));
            r.active == i.active && r.At(i.active) == i.At(i.active) && r.running == i.running && r.nextBoot == i.active
  {
    InstallsKeepActive(i, ops, build);
  }

  // ----- nothing runs that was not verified

  /** The versions this run may put on a slot. */
  ghost predicate Known(i: Info, ops: seq<Op>, v: Option<string>) {
    || v == i.a.version || v == i.b.version
    || exists k :: 0 <= k < |ops| && ops[k].Install? && !ops[k].bundle.Rejected? && ops[k].bundle.Version() == v
  }

  lemma KnownGrows(i: Info, ops: seq<Op>, v: Option<string>)
    requires ops != [] && Known(i, ops[..|ops| - 1], v)
    ensures Known(i, ops, v)
  {
    var ps := ops[..|ops| - 1];
    if exists k :: 0 <= k < |ps| && ps[k].Install? && !ps[k].bundle.Rejected? && ps[k].bundle.Version() == v {
      var k :| 0 <= k < |ps| && ps[k].Install? && !ps[k].bundle.Rejected? && ps[k].bundle.Version() == v;
      assert ops[k] == ps[k];
    }
  }

  /** In every run, careful or not, slots hold initial or verified versions and so does what runs. */
  lemma {:induction false} OnlyVerifiedRuns(i: Info, ops: seq<Op>, build: string)
    ensures var r := Run(i, ops, build);
            && Known(i, ops, r.a.version) && Known(i, ops, r.b.version)
            && (r.running == i.running || r.running == build || Known(i, ops, Some(r.running)))
  {
    if ops != [] {
      var n := |ops| - 1;
      var before := Run(i, ops[..n], build);
      OnlyVerifiedRuns(i, ops[..n], build);
      KnownGrows(i, ops, before.a.version);
      KnownGrows(i, ops, before.b.version);
      if Known(i, ops[..n], Some(before.running)) {
        KnownGrows(i, ops, Some(before.running));
      }
      if ops[n].Install? && !ops[n].bundle.Rejected? {
        assert Known(i, ops, ops[n].bundle.Version());
      }
    }
  }
}
