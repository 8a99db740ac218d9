/**
 Managed services: the lifecycle every service moves through under hooks that may fail, and
 activation in dependency order.
 */
module Lifecycle {

  datatype State = Unconfigured | Inactive | Active | Finalized

  /** How a hook call ends: it returns true, returns false, or raises. */
  datatype Hook = Succeeds | Refuses | Raises

  /** What has happened to a service: hook verdicts, and the resets of its state. */
  datatype Event =
    | Configured(ok: bool)
    | Activated(ok: bool)
    | Deactivated(ok: bool)
    | CleanedUp
    | ShutDown(raised: bool)

  datatype Service = Service(state: State, restarts: nat, failed: bool, log: seq<Event>)

  function New(): Service {
    Service(Unconfigured, 0, false, [])
  }

  /** `_guard`: an exception is recorded, a verdict clears the record. */
  function Guarded(s: Service, h: Hook, e: Event): Service {
    s.(failed := h == Raises, log := s.log + [e])
  }

  function Configuring(s: Service, h: Hook): (Service, bool) {
    if s.state != Unconfigured && s.state != Inactive then (s, false)
    else
      var ok := h == Succeeds;
      (Guarded(s, h, Configured(ok)).(state := if ok then Inactive else s.state), ok)
  }

  function Activating(s: Service, configure: Hook, activate: Hook): (Service, bool) {
    if s.state == Active then (s, true)
    else
      var (c, ready) := if s.state != Inactive then Configuring(s, configure) else (s, true);
      if !ready then (c, false)
      else
        var ok := activate == Succeeds;
        (Guarded(c, activate, Activated(ok)).(state := if ok then Active else c.state), ok)
  }

  function Deactivating(s: Service, h: Hook): (Service, bool) {
    if s.state != Active then (s, true)
    else
      var ok := h == Succeeds;
      (Guarded(s, h, Deactivated(ok)).(state := if ok then Inactive else Active), ok)
  }

  function CleaningUp(s: Service, h: Hook): Service {
    Guarded(s, h, CleanedUp).(state := Unconfigured)
  }

  /** The cleanup hook is not guarded here: its exception leaves the call, but the state is final whatever it does. */
  function ShuttingDown(s: Service, deactivate: Hook, cleanup: Hook): Service {
    var d := if s.state == Active then Deactivating(s, deactivate).0 else s;
    d.(state := Finalized, log := d.log + [ShutDown(cleanup == Raises)])
  }

  function Restarting(s: Service, cleanup: Hook, configure: Hook, activate: Hook): (Service, bool) {
    Activating(CleaningUp(s.(restarts := s.restarts + 1), cleanup), configure, activate)
  }

  datatype Call =
    | CallConfigure(h: Hook)
    | CallActivate(configure: Hook, activate: Hook)
    | CallDeactivate(h: Hook)
    | CallCleanup(h: Hook)
    | CallShutdown(deactivate: Hook, cleanup: Hook)
    | CallRestart(cleanup: Hook, configure: Hook, activate: Hook)

  function Do(s: Service, c: Call): Service {
    match c
    case CallConfigure(h) => Configuring(s, h).0
    case CallActivate(hc, ha) => Activating(s, hc, ha).0
    case CallDeactivate(h) => Deactivating(s, h).0
    case CallCleanup(h) => CleaningUp(s, h)
    case CallShutdown(h, hl) => ShuttingDown(s, h, hl)
    case CallRestart(hl, hc, ha) => Restarting(s, hl, hc, ha).0
  }

  function Calls(cs: seq<Call>): Service {
    if cs == [] then New() else Do(Calls(cs[..|cs| - 1]), cs[|cs| - 1])
  }

  class ManagedService {
    var state: State
    var restarts: nat
    var failed: bool
    ghost var log: seq<Event>

    ghost function View(): Service
      reads this
    {
      Service(state, restarts, failed, log)
    }

    constructor ()
      ensures View() == New()
    {
      state, restarts, failed, log := Unconfigured, 0, false, [];
    }

    method Guard(h: Hook, ghost e: Event) returns (ok: bool)
      modifies this
      ensures View() == Guarded(old(View()), h, e) && ok == (h == Succeeds)
    {
      failed := h == Raises;
      log := log + [e];
      ok := h == Succeeds;
    }

    method Configure(h: Hook) returns (ok: bool)
      modifies this
      ensures (View(), ok) == Configuring(old(View()), h)
    {
      if state != Unconfigured && state != Inactive {
        return state == Inactive;
      }
      ok := Guard(h, Configured(h == Succeeds));
      if ok {
        state := Inactive;
      }
    }

    method Activate(configure: Hook, activate: Hook) returns (ok: bool)
      modifies this
      ensures (View(), ok) == Activating(old(View()), configure, activate)
    {
      if state == Active {
        return true;
      }
      if state != Inactive {
        ok := Configure(configure);
        if !ok {
          return;
        }
      }
      ok := Guard(activate, Activated(activate == Succeeds));
      if ok {
        state := Active;
      }
    }

    method Deactivate(h: Hook) returns (ok: bool)
      modifies this
      ensures (View(), ok) == Deactivating(old(View()), h)
    {
      if state != Active {
        return true;
      }
      ok := Guard(h, Deactivated(h == Succeeds));
      if ok {
        state := Inactive;
      }
    }

    method Cleanup(h: Hook)
      modifies this
      ensures View() == CleaningUp(old(View()), h)
    {
      var _ := Guard(h, CleanedUp);
      state := Unconfigured;
    }

    /** `raised` is the cleanup hook's exception, which passes through. */
    method Shutdown(deactivate: Hook, cleanup: Hook) returns (raised: bool)
      modifies this
      ensures View() == ShuttingDown(old(View()), deactivate, cleanup) && raised == (cleanup == Raises)
    {
      if state == Active {
        var _ := Deactivate(deactivate);
      }
      state := Finalized;
      raised := cleanup == Raises;
      log := log + [ShutDown(raised)];
    }

    method Restart(cleanup: Hook, configure: Hook, activate: Hook) returns (ok: bool)
      modifies this
      ensures (View(), ok) == Restarting(old(View()), cleanup, configure, activate)
    {
      restarts := restarts + 1;
      Cleanup(cleanup);
      ok := Activate(configure, activate);
    }
  }

  // ----- which hooks a call runs

  function Verdict(h: Hook): bool {
    h == Succeeds
  }

  /** The hooks a call runs on a service in this state, in order, with their verdicts. */
  function HooksRun(s: State, c: Call): seq<Event> {
    match c
    case CallConfigure(h) => if s == Unconfigured || s == Inactive then [Configured(Verdict(h))] else []
    case CallActivate(hc, ha) =>
      (match s
       case Active => []
       case Finalized => []
       case Inactive => [Activated(Verdict(ha))]
       case Unconfigured => if hc == Succeeds then [Configured(true), Activated(Verdict(ha))] else [Configured(false)])
    case CallDeactivate(h) => if s == Active then [Deactivated(Verdict(h))] else []
    case CallCleanup(_) => [CleanedUp]
    case CallShutdown(h, hl) => if s == Active then [Deactivated(Verdict(h)), ShutDown(hl == Raises)] else [ShutDown(hl == Raises)]
    case CallRestart(_, hc, ha) => [CleanedUp] + if hc == Succeeds then [Configured(true), Activated(Verdict(ha))] else [Configured(false)]
  }

  /** The guarded hook that a call ends with: its exception is what the service remembers. */
  function LastGuarded(s: State, c: Call): Hook {
    match c
    case CallConfigure(h) => h
    case CallActivate(hc, ha) => if s == Unconfigured && hc != Succeeds then hc else ha
    case CallDeactivate(h) => h
    case CallCleanup(h) => h
    case CallShutdown(h, _) => h
    case CallRestart(_, hc, ha) => if hc != Succeeds then hc else ha
  }

  /** A call runs these hooks and no others; a restart is counted; an exception is remembered until the next verdict. */
  lemma CallRuns(s: Service, c: Call)
    ensures Do(s, c).log == s.log + HooksRun(s.state, c)
    ensures Do(s, c).restarts == s.restarts + if c.CallRestart? then 1 else 0
    ensures Do(s, c).failed ==
            if HooksRun(s.state, c) == [] || (c.CallShutdown? && s.state != Active) then s.failed else LastGuarded(s.state, c) == Raises
  {
    match c
    case CallRestart(hl, hc, ha) =>
      assert s.log + [CleanedUp] + [Configured(true)] + [Activated(Verdict(ha))] == s.log + ([CleanedUp] + [Configured(true), Activated(Verdict(ha))]);
      assert s.log + [CleanedUp] + [Configured(false)] == s.log + ([CleanedUp] + [Configured(false)]);
    case CallActivate(hc, ha) =>
      assert s.log + [Configured(true)] + [Activated(Verdict(ha))] == s.log + [Configured(true), Activated(Verdict(ha))];
    case CallShutdown(h, hl) =>
      assert s.log + [Deactivated(Verdict(h))] + [ShutDown(hl == Raises)] == s.log + [Deactivated(Verdict(h)), ShutDown(hl == Raises)];
    case _ =>
  }

  /** The restart calls among some calls. */
  function RestartCalls(cs: seq<Call>): nat {
    if cs == [] then 0 else RestartCalls(cs[..|cs| - 1]) + if cs[|cs| - 1].CallRestart? then 1 else 0
  }

  /** Over every sequence of calls the restart count is their number. */
  lemma {:induction false} RestartsCounted(cs: seq<Call>)
    ensures Calls(cs).restarts == RestartCalls(cs)
  {
    if cs != [] {
      RestartsCounted(cs[..|cs| - 1]);
      CallRuns(Calls(cs[..|cs| - 1]), cs[|cs| - 1]);
    }
  }

  /** An active service that is shut down was deactivated first, and stays final through every call but a cleanup or a restart. */
  lemma ShutdownDeactivates(s: Service, h: Hook, hl: Hook)
    requires s.state == Active
    ensures var r := ShuttingDown(s, h, hl);
            r.state == Finalized && |r.log| == |s.log| + 2 && r.log[|s.log|] == Deactivated(h == Succeeds) && r.log[|s.log| + 1] == ShutDown(hl == Raises)
  {
    CallRuns(s, CallShutdown(h, hl));
  }

  lemma FinalStays(s: Service, c: Call)
    requires s.state == Finalized
    ensures Do(s, c).state == Finalized <==> !c.CallCleanup? && !c.CallRestart?
  {
  }

  // ----- the history behind a state

  function Next(s: State, e: Event): State {
    match e
    case Configured(ok) => if ok then Inactive else s
    case Activated(ok) => if ok then Active else s
    case Deactivated(ok) => if ok then Inactive else s
    case CleanedUp => Unconfigured
    case ShutDown(_) => Finalized
  }

  function Replay(log: seq<Event>): State {
    if log == [] then Unconfigured else Next(Replay(log[..|log| - 1]), log[|log| - 1])
  }

  /** Each hook runs only where the lifecycle allows it. */
  predicate May(s: State, e: Event) {
    match e
    case Configured(_) => s == Unconfigured || s == Inactive
    case Activated(_) => s == Inactive
    case Deactivated(_) => s == Active
    case _ => true
  }

  predicate WellOrdered(log: seq<Event>) {
    log != [] ==> WellOrdered(log[..|log| - 1]) && May(Replay(log[..|log| - 1]), log[|log| - 1])
  }

  /** The state is what the recorded history makes it, and the history is well ordered. */
  predicate Recorded(s: Service) {
    s.state == Replay(s.log) && WellOrdered(s.log)
  }

  lemma Appended(s: Service, e: Event, t: Service)
    requires Recorded(s) && May(s.state, e) && t.log == s.log + [e] && t.state == Next(s.state, e)
    ensures Recorded(t)
  {
    assert t.log[..|s.log|] == s.log;
  }

  lemma ConfigureRecorded(s: Service, h: Hook)
    requires Recorded(s)
    ensures Recorded(Configuring(s, h).0)
  {
    if s.state == Unconfigured || s.state == Inactive {
      Appended(s, Configured(h == Succeeds), Configuring(s, h).0);
    }
  }

  lemma ActivateRecorded(s: Service, hc: Hook, ha: Hook)
    requires Recorded(s)
    ensures Recorded(Activating(s, hc, ha).0)
  {
    ConfigureRecorded(s, hc);
    var (c, ready) := if s.state != Inactive then Configuring(s, hc) else (s, true);
    if s.state != Active && ready {
      Appended(c, Activated(ha == Succeeds), Activating(s, hc, ha).0);
    }
  }

  lemma DeactivateRecorded(s: Service, h: Hook)
    requires Recorded(s)
    ensures Recorded(Deactivating(s, h).0)
  {
    if s.state == Active {
      Appended(s, Deactivated(h == Succeeds), Deactivating(s, h).0);
    }
  }

  lemma ShutdownRecorded(s: Service, h: Hook, hl: Hook)
    requires Recorded(s)
    ensures Recorded(ShuttingDown(s, h, hl))
  {
    DeactivateRecorded(s, h);
    var d := if s.state == Active then Deactivating(s, h).0 else s;
    Appended(d, ShutDown(hl == Raises), ShuttingDown(s, h, hl));
  }

  lemma RestartRecorded(s: Service, hl: Hook, hc: Hook, ha: Hook)
    requires Recorded(s)
    ensures Recorded(Restarting(s, hl, hc, ha).0)
  {
    var c := CleaningUp(s.(restarts := s.restarts + 1), hl);
    Appended(s, CleanedUp, c);
    ActivateRecorded(c, hc, ha);
  }

  lemma DoRecorded(s: Service, c: Call)
    requires Recorded(s)
    ensures Recorded(Do(s, c))
  {
    match c
    case CallConfigure(h) => ConfigureRecorded(s, h);
    case CallActivate(hc, ha) => ActivateRecorded(s, hc, ha);
    case CallDeactivate(h) => DeactivateRecorded(s, h);
    case CallCleanup(h) => Appended(s, CleanedUp, CleaningUp(s, h));
    case CallShutdown(h, hl) => ShutdownRecorded(s, h, hl);
    case CallRestart(hl, hc, ha) => RestartRecorded(s, hl, hc, ha);
  }

  lemma {:induction false} CallsRecorded(cs: seq<Call>)
    ensures Recorded(Calls(cs))
  {
    if cs != [] {
      CallsRecorded(cs[..|cs| - 1]);
      DoRecorded(Calls(cs[..|cs| - 1]), cs[|cs| - 1]);
    }
  }

  /** No cleanup or shutdown since position `i`. */
  predicate NotReset(log: seq<Event>, i: nat) {
    forall k :: i < k < |log| ==> !log[k].CleanedUp? && !log[k].ShutDown?
  }

  /** The configure hook succeeded at `i` and has not been undone. */
  predicate SetUp(log: seq<Event>, i: nat) {
    i < |log| && log[i] == Configured(true) && NotReset(log, i)
  }

  /** Then the activate hook succeeded at `j`, and no deactivation has since. */
  predicate BroughtUp(log: seq<Event>, i: nat, j: nat) {
    && SetUp(log, i) && i < j < |log| && log[j] == Activated(true)
    && forall k :: j < k < |log| ==> log[k] != Deactivated(true)
  }

  lemma {:induction false} SetUpHistory(log: seq<Event>)
    requires WellOrdered(log) && (Replay(log) == Inactive || Replay(log) == Active)
    ensures exists i: nat :: SetUp(log, i)
  {
    var n := |log| - 1;
    if log[n] == Configured(true) {
      assert SetUp(log, n);
    } else {
      SetUpHistory(log[..n]);
      var i: nat :| SetUp(log[..n], i);
      assert log[i] == log[..n][i];
      assert forall k :: i < k < n ==> log[k] == log[..n][k];
      assert SetUp(log, i);
    }
  }

  /** An event that is no activation leaves up only what was up before. */
  lemma StillUp(log: seq<Event>, i: nat, j: nat)
    requires BroughtUp(log, i, j) && log[|log| - 1] != Activated(true)
    ensures BroughtUp(log[..|log| - 1], i, j)
    ensures var last := log[|log| - 1]; !last.CleanedUp? && !last.ShutDown? && last != Deactivated(true)
  {
    var ps := log[..|log| - 1];
    assert forall k :: 0 <= k < |ps| ==> log[k] == ps[k];
  }

  lemma {:induction false} ActiveHistory(log: seq<Event>)
    requires WellOrdered(log)
    ensures Replay(log) == Active <==> exists i: nat, j: nat :: BroughtUp(log, i, j)
  {
    if log != [] {
      var n := |log| - 1;
      var ps := log[..n];
      ActiveHistory(ps);
      if log[n] == Activated(true) {
        SetUpHistory(ps);
        var i: nat :| SetUp(ps, i);
        assert forall k :: i < k < n ==> log[k] == ps[k];
        assert BroughtUp(log, i, n);
      } else {
        if i: nat, j: nat :| BroughtUp(log, i, j) {
          StillUp(log, i, j);
        }
        if Replay(log) == Active {
          var i: nat, j: nat :| BroughtUp(ps, i, j);
          assert forall k :: 0 <= k < n ==> log[k] == ps[k];
          assert BroughtUp(log, i, j);
        }
      }
    }
  }

  /**
   Over every sequence of calls: a service is active exactly when its configure hook and then
   its activate hook succeeded, with no cleanup or shutdown since the one and no successful
   deactivation since the other.
   */
  lemma ActiveIffBroughtUp(cs: seq<Call>)
    ensures Calls(cs).state == Active <==> exists i: nat, j: nat :: BroughtUp(Calls(cs).log, i, j)
  {
    CallsRecorded(cs);
    ActiveHistory(Calls(cs).log);
  }

  // ----- activation in dependency order

  /** What each registered service requires; names that are not registered are ignored. */
  type Graph = map<string, seq<string>>

  /** The graph has no cycles: every requirement ranks below its service. */
  ghost predicate Ranked(g: Graph, rank: string -> nat) {
    forall n, d :: n in g && d in g[n] && d in g ==> rank(d) < rank(n)
  }

  /** The order in which activation is attempted: requirements, recursively, then the service. */
  ghost function Order(g: Graph, rank: string -> nat, name: string): seq<string>
    requires Ranked(g, rank) && name in g
    decreases rank(name), |g[name]| + 1
  {
    OrderAll(g, rank, name, g[name]) + [name]
  }

  ghost function OrderAll(g: Graph, rank: string -> nat, name: string, deps: seq<string>): seq<string>
    requires Ranked(g, rank) && name in g && forall d :: d in deps ==> d in g[name]
    decreases rank(name), |deps|
  {
    if deps == [] then []
    else (if deps[0] in g then Order(g, rank, deps[0]) else []) + OrderAll(g, rank, name, deps[1..])
  }

  /** Every requirement of an attempted service was attempted before it. */
  ghost predicate DepsFirst(g: Graph, order: seq<string>) {
    forall k, d :: 0 <= k < |order| && order[k] in g && d in g[order[k]] && d in g ==> d in order[..k]
  }

  lemma DepsFirstAppend(g: Graph, xs: seq<string>, ys: seq<string>)
    requires DepsFirst(g, xs) && DepsFirst(g, ys)
    ensures DepsFirst(g, xs + ys)
  {
    var all := xs + ys;
    forall k, d | 0 <= k < |all| && all[k] in g && d in g[all[k]] && d in g ensures d in all[..k] {
      if k < |xs| {
        assert xs[k] == all[k] && all[..k] == xs[..k];
      } else {
        assert ys[k - |xs|] == all[k] && all[..k] == xs + ys[..k - |xs|];
      }
    }
  }

  lemma {:induction false} OrderFacts(g: Graph, rank: string -> nat, name: string)
    requires Ranked(g, rank) && name in g
    ensures DepsFirst(g, Order(g, rank, name)) && name in Order(g, rank, name)
    ensures forall n :: n in Order(g, rank, name) ==> n in g && (n != name ==> rank(n) < rank(name))
    decreases rank(name), |g[name]| + 1
  {
    var deps := OrderAll(g, rank, name, g[name]);
    OrderAllFacts(g, rank, name, g[name]);
    var order := deps + [name];
    forall k, d | 0 <= k < |order| && order[k] in g && d in g[order[k]] && d in g ensures d in order[..k] {
      if k < |deps| {
        assert deps[k] == order[k] && order[..k] == deps[..k];
      } else {
        assert order[..k] == deps;
      }
    }
  }

  lemma {:induction false} OrderAllFacts(g: Graph, rank: string -> nat, name: string, deps: seq<string>)
    requires Ranked(g, rank) && name in g && forall d :: d in deps ==> d in g[name]
    ensures var order := OrderAll(g, rank, name, deps);
            && DepsFirst(g, order) && (forall d :: d in deps && d in g ==> d in order)
            && forall n :: n in order ==> n in g && rank(n) < rank(name)
    decreases rank(name), |deps|
  {
    if deps != [] {
      OrderAllFacts(g, rank, name, deps[1..]);
      if deps[0] in g {
        OrderFacts(g, rank, deps[0]);
        var first, rest := Order(g, rank, deps[0]), OrderAll(g, rank, name, deps[1..]);
        DepsFirstAppend(g, first, rest);
        forall n | n in first + rest ensures n in g && rank(n) < rank(name) {
          assert n in first || n in rest;
        }
      } else {
        assert OrderAll(g, rank, name, deps) == OrderAll(g, rank, name, deps[1..]);
      }
    }
  }

  /** A set of services that contains all its registered requirements. */
  ghost predicate Closed(g: Graph, names: set<string>) {
    forall n, d :: n in names && n in g && d in g[n] && d in g ==> d in names
  }

  /** Exactly the transitive registered requirements are attempted: the least closed set around the service. */
  lemma {:induction false} OrderIsClosure(g: Graph, rank: string -> nat, name: string, names: set<string>)
    requires Ranked(g, rank) && name in g && name in names && Closed(g, names)
    ensures forall n :: n in Order(g, rank, name) ==> n in names
    ensures Closed(g, set n | n in Order(g, rank, name))
    decreases rank(name), |g[name]| + 1
  {
    OrderAllInside(g, rank, name, g[name], names);
    OrderFacts(g, rank, name);
  }

  lemma {:induction false} OrderAllInside(g: Graph, rank: string -> nat, name: string, deps: seq<string>, names: set<string>)
    requires Ranked(g, rank) && name in g && name in names && Closed(g, names) && forall d :: d in deps ==> d in g[name]
    ensures forall n :: n in OrderAll(g, rank, name, deps) ==> n in names
    decreases rank(name), |deps|
  {
    if deps != [] {
      OrderAllInside(g, rank, name, deps[1..], names);
      if deps[0] in g {
        OrderIsClosure(g, rank, deps[0], names);
      }
    }
  }
}
