/**
 The boot sequence: services brought up in dependency order under hooks that may fail, and
 the state the droid settles in.
 */
module Supervisor {
  import opened DroidStates
  import opened SafetyStack
  import opened Assessment
  import opened Wrappers
  import L = Lifecycle

  const ACTIVATION_ORDER := [
    SAFETY, "hardware", "diagnostics", "state_estimator", "world_model", "memory", "perception",
    "navigation", "motion", "update", "executive", "voice", "language"]

  /** What each shipped service requires; the others require nothing. */
  const REQUIRES: L.Graph := map[
    SAFETY := [], "world_model" := [], "memory" := [], "language" := [],
    "hardware" := [SAFETY], "diagnostics" := [SAFETY], "state_estimator" := [SAFETY],
    "perception" := [SAFETY], "motion" := [SAFETY], "update" := [SAFETY], "voice" := [SAFETY],
    "navigation" := [SAFETY, "state_estimator", "world_model"],
    "executive" := [SAFETY, "motion", "navigation", "state_estimator"]]

  ghost function ShippedRank(name: string): nat {
    if name == "executive" then 3
    else if name == "navigation" then 2
    else if name in {SAFETY, "world_model", "memory", "language"} then 0
    else 1
  }

  /** The shipped requirements have no cycle, so the general results below apply to them. */
  lemma ShippedGraphIsRanked()
    ensures L.Ranked(REQUIRES, ShippedRank)
    ensures forall n :: n in ACTIVATION_ORDER <==> n in REQUIRES
  {
  }

  /** Who requires what, read from the required side; nothing else is required. */
  lemma ShippedDependents(n: string, d: string)
    requires n in REQUIRES && d in REQUIRES[n]
    ensures d in {"safety_gateway", "state_estimator", "world_model", "motion", "navigation"}
    ensures d == "state_estimator" ==> n == "navigation" || n == "executive"
    ensures d == "world_model" ==> n == "navigation"
    ensures d == "motion" || d == "navigation" ==> n == "executive"
  {
  }

  /** Every shipped service but three stands on the gateway, which boots first; each is listed after all it requires. */
  lemma ShippedOrder(i: nat)
    requires i < |ACTIVATION_ORDER|
    ensures ACTIVATION_ORDER[0] == "safety_gateway" && |ACTIVATION_ORDER| == 13 && ACTIVATION_ORDER[i] in REQUIRES
    ensures "safety_gateway" in REQUIRES[ACTIVATION_ORDER[i]] <==> ACTIVATION_ORDER[i] !in {"safety_gateway", "world_model", "memory", "language"}
    ensures forall d :: d in REQUIRES[ACTIVATION_ORDER[i]] ==> d in ACTIVATION_ORDER[..i]
  {
    assert "safety_gateway" in ACTIVATION_ORDER[..i] || i == 0 by {
      if i > 0 {
        assert ACTIVATION_ORDER[..i][0] == "safety_gateway";
      }
    }
    if i == 7 {
      assert ACTIVATION_ORDER[..i][3] == "state_estimator" && ACTIVATION_ORDER[..i][4] == "world_model";
    }
    if i == 10 {
      assert ACTIVATION_ORDER[..i][3] == "state_estimator" && ACTIVATION_ORDER[..i][7] == "navigation" && ACTIVATION_ORDER[..i][8] == "motion";
    }
  }

  // ----- one activation attempt

  /** How one attempt turns out: its hooks' verdicts and the clock at the gateway's heartbeats. */
  datatype Attempt = Attempt(configure: L.Hook, activate: L.Hook, configuredAt: real, activatedAt: real)

  type Attempts = nat -> Attempt

  /** What booting changes. */
  datatype World = World(services: map<string, L.Service>, ctl: Controller, backendPower: bool, latch: LatchFile)

  /**
   The gateway's configure hook fails only while reading the latch file, before any effect,
   and always does so on a file that is not a JSON object.
   */
  function GatewayConfigure(a: Attempt, latch: LatchFile): L.Hook {
    if a.configure == L.Succeeds && !latch.Raises() then L.Succeeds else L.Raises
  }

  /** Its activate hook fails only in the backend, after the controller's power is off. */
  function GatewayActivate(a: Attempt): L.Hook {
    if a.activate == L.Succeeds then L.Succeeds else L.Raises
  }

  /** One attempt; names that are not registered are left alone. */
  function Attempted(w: World, name: string, a: Attempt): World {
    if name !in w.services then w
    else if name == SAFETY then GatewayAttempted(w, a)
    else w.(services := w.services[name := L.Activating(w.services[name], a.configure, a.activate).0])
  }

  function GatewayAttempted(w: World, a: Attempt): World
    requires SAFETY in w.services
  {
    var s := w.services[SAFETY];
    var hc, ha := GatewayConfigure(a, w.latch), GatewayActivate(a);
    var w' := w.(services := w.services[SAFETY := L.Activating(s, hc, ha).0]);
    if s.state == L.Inactive then GatewayOff(w', a)
    else if s.state == L.Unconfigured && hc == L.Succeeds then
      GatewayOff(w'.(ctl := Loaded(w.ctl, w.latch).(lastContact := a.configuredAt)), a)
    else w'
  }

  /** The effects of the gateway's activate hook. */
  function GatewayOff(w: World, a: Attempt): World {
    w.(ctl := w.ctl.(lastContact := a.activatedAt, power := false), backendPower := w.backendPower && GatewayActivate(a) != L.Succeeds)
  }

  /** Attempts on the named services one after the other, the first of them the `k`th of the boot. */
  function InTurn(w: World, names: seq<string>, k: nat, hooks: Attempts): World
    decreases |names|
  {
    if names == [] then w else InTurn(Attempted(w, names[0], hooks(k)), names[1..], k + 1, hooks)
  }

  lemma {:induction false} InTurnAppend(w: World, xs: seq<string>, ys: seq<string>, k: nat, hooks: Attempts)
    ensures InTurn(w, xs + ys, k, hooks) == InTurn(InTurn(w, xs, k, hooks), ys, k + |xs|, hooks)
    decreases |xs|
  {
    if xs == [] {
      assert xs + ys == ys;
    } else {
      assert (xs + ys)[1..] == xs[1..] + ys;
      InTurnAppend(Attempted(w, xs[0], hooks(k)), xs[1..], ys, k + 1, hooks);
    }
  }

  /** After the attempts so far, the rest complete them and lead to the goal. */
  ghost predicate OnTrack(w: World, sofar: seq<string>, rest: seq<string>, hooks: Attempts, all: seq<string>, goal: World) {
    sofar + rest == all && InTurn(w, rest, |sofar|, hooks) == goal
  }

  lemma OnTrackAppend(w: World, sofar: seq<string>, xs: seq<string>, rest: seq<string>, hooks: Attempts, all: seq<string>, goal: World)
    requires OnTrack(w, sofar, xs + rest, hooks, all, goal)
    ensures OnTrack(InTurn(w, xs, |sofar|, hooks), sofar + xs, rest, hooks, all, goal)
  {
    InTurnAppend(w, xs, rest, |sofar|, hooks);
    assert sofar + xs + rest == sofar + (xs + rest);
  }

  lemma OnTrackLast(w: World, sofar: seq<string>, name: string, hooks: Attempts, all: seq<string>, goal: World)
    requires OnTrack(w, sofar, [name], hooks, all, goal)
    ensures sofar + [name] == all && Attempted(w, name, hooks(|sofar|)) == goal
  {
    var w' := Attempted(w, name, hooks(|sofar|));
    assert InTurn(w', [name][1..], |sofar| + 1, hooks) == w';
  }

  lemma OrderSplit(g: L.Graph, rank: string -> nat, name: string, deps: seq<string>)
    requires L.Ranked(g, rank) && name in g && deps != [] && forall d :: d in deps ==> d in g[name]
    ensures var rest := L.OrderAll(g, rank, name, deps[1..]) + [name];
            L.OrderAll(g, rank, name, deps) + [name] == if deps[0] in g then L.Order(g, rank, deps[0]) + rest else rest
  {
    var rest := L.OrderAll(g, rank, name, deps[1..]) + [name];
    var first := if deps[0] in g then L.Order(g, rank, deps[0]) else [];
    assert L.OrderAll(g, rank, name, deps) + [name] == first + rest;
    assert [] + rest == rest;
  }

  // ----- what attempts keep

  /** The gateway is past its configure hook. */
  predicate GatewayConfigured(w: World) {
    SAFETY in w.services && (w.services[SAFETY].state == L.Inactive || w.services[SAFETY].state == L.Active)
  }

  predicate GatewayActive(w: World) {
    SAFETY in w.services && w.services[SAFETY].state == L.Active
  }

  /** A configured gateway has taken over the latch, and an active one has seen all power off. */
  predicate Sound(w: World) {
    && (GatewayConfigured(w) && w.latch.Engaged() ==> w.ctl.estop)
    && (GatewayActive(w) ==> !w.ctl.power && !w.backendPower)
  }

  /** Attempts take nothing back: power stays off, e-stops stay on, active services stay active. */
  predicate Monotone(before: World, after: World) {
    && after.latch == before.latch
    && after.services.Keys == before.services.Keys
    && (before.ctl.estop ==> after.ctl.estop)
    && (after.ctl.power ==> before.ctl.power)
    && (after.backendPower ==> before.backendPower)
    && forall n :: n in before.services && before.services[n].state == L.Active ==> after.services[n].state == L.Active
  }

  lemma AttemptKeeps(w: World, name: string, a: Attempt)
    requires Sound(w)
    ensures Sound(Attempted(w, name, a)) && Monotone(w, Attempted(w, name, a))
  {
  }

  lemma {:induction false} InTurnKeeps(w: World, names: seq<string>, k: nat, hooks: Attempts)
    requires Sound(w)
    ensures Sound(InTurn(w, names, k, hooks)) && Monotone(w, InTurn(w, names, k, hooks))
    decreases |names|
  {
    if names != [] {
      AttemptKeeps(w, names[0], hooks(k));
      InTurnKeeps(Attempted(w, names[0], hooks(k)), names[1..], k + 1, hooks);
    }
  }

  /** Power can only go where the gateway's hooks take it, and goes where they do. */
  lemma AttemptPower(w: World, name: string, a: Attempt)
    requires Sound(w)
    ensures var w' := Attempted(w, name, a);
            && (GatewayConfigured(w) ==> GatewayConfigured(w'))
            && (!GatewayConfigured(w') ==> w'.ctl.power == w.ctl.power)
            && (!GatewayActive(w') ==> w'.backendPower == w.backendPower)
            && (name == SAFETY && GatewayConfigured(w') ==> !w'.ctl.power)
  {
  }

  lemma {:induction false} InTurnPower(w: World, names: seq<string>, k: nat, hooks: Attempts)
    requires Sound(w) && (GatewayConfigured(w) ==> !w.ctl.power)
    ensures var w' := InTurn(w, names, k, hooks);
            && (GatewayConfigured(w) ==> GatewayConfigured(w'))
            && (!GatewayConfigured(w') ==> w'.ctl.power == w.ctl.power)
            && (!GatewayActive(w') ==> w'.backendPower == w.backendPower)
            && (GatewayConfigured(w') ==> !w'.ctl.power)
    decreases |names|
  {
    if names != [] {
      var w1 := Attempted(w, names[0], hooks(k));
      AttemptKeeps(w, names[0], hooks(k));
      AttemptPower(w, names[0], hooks(k));
      ConfiguringCutsPower(w, names[0], hooks(k));
      InTurnKeeps(w1, names[1..], k + 1, hooks);
      InTurnPower(w1, names[1..], k + 1, hooks);
    }
  }

  /** Whichever attempt configures the gateway leaves the controller's power off. */
  lemma ConfiguringCutsPower(w: World, name: string, a: Attempt)
    requires Sound(w) && (GatewayConfigured(w) ==> !w.ctl.power)
    ensures GatewayConfigured(Attempted(w, name, a)) ==> !Attempted(w, name, a).ctl.power
  {
  }

  // ----- the order of a boot

  /** The boot loop takes this name up: it is registered and not the gateway, which has had its turn. */
  predicate Due(g: L.Graph, name: string) {
    name != SAFETY && name in g
  }

  /** The attempts of one turn of the boot loop. */
  ghost function Turn(g: L.Graph, rank: string -> nat, name: string): seq<string>
    requires L.Ranked(g, rank)
  {
    if Due(g, name) then L.Order(g, rank, name) else []
  }

  /** All attempts after the gateway's own: each listed service with its requirements before it. */
  ghost function BootOrder(g: L.Graph, rank: string -> nat, names: seq<string>): seq<string>
    requires L.Ranked(g, rank)
  {
    if names == [] then [] else BootOrder(g, rank, names[..|names| - 1]) + Turn(g, rank, names[|names| - 1])
  }

  lemma {:induction false} BootOrderFacts(g: L.Graph, rank: string -> nat, names: seq<string>)
    requires L.Ranked(g, rank)
    ensures var order := BootOrder(g, rank, names);
            && L.DepsFirst(g, order)
            && (forall n :: n in order ==> n in g)
            && forall n :: n in names && Due(g, n) ==> n in order
  {
    if names != [] {
      var m := |names| - 1;
      var before, turn := BootOrder(g, rank, names[..m]), Turn(g, rank, names[m]);
      BootOrderFacts(g, rank, names[..m]);
      if Due(g, names[m]) {
        L.OrderFacts(g, rank, names[m]);
      }
      L.DepsFirstAppend(g, before, turn);
      assert forall n :: n in before + turn <==> n in before || n in turn;
      assert forall n :: n in names <==> n in names[..m] || n == names[m];
    }
  }

  lemma Regroup<T>(a: seq<T>, b: seq<T>, c: seq<T>)
    ensures a + b + c == a + (b + c)
  {
  }

  // ----- which services a boot reports as failed, and which end up active

  predicate Up(w: World, name: string) {
    name in w.services && w.services[name].state == L.Active
  }

  /** The elements at the positions that satisfy `p`. */
  function Kept<T>(xs: seq<T>, p: nat -> bool): seq<T> {
    if xs == [] then [] else Kept(xs[..|xs| - 1], p) + if p(|xs| - 1) then [xs[|xs| - 1]] else []
  }

  lemma {:induction false} KeptIff<T>(xs: seq<T>, p: nat -> bool, x: T)
    ensures x in Kept(xs, p) <==> exists i: nat :: i < |xs| && xs[i] == x && p(i)
  {
    if xs != [] {
      var m := |xs| - 1;
      var ys := xs[..m];
      KeptIff(ys, p, x);
      if i: nat :| i < |ys| && ys[i] == x && p(i) {
        assert xs[i] == x;
      }
      if i: nat :| i < |xs| && xs[i] == x && p(i) {
        assert i < m ==> ys[i] == x;
      }
    }
  }

  /** The `i`th turn was a service's own and left it inactive. */
  ghost predicate LeftDown(g: L.Graph, rank: string -> nat, names: seq<string>, i: nat, w: World, k: nat, hooks: Attempts)
    requires L.Ranked(g, rank)
  {
    i < |names| && Due(g, names[i]) && !Up(InTurn(w, BootOrder(g, rank, names[..i + 1]), k, hooks), names[i])
  }

  ghost function Downs(g: L.Graph, rank: string -> nat, names: seq<string>, w: World, k: nat, hooks: Attempts): nat -> bool
    requires L.Ranked(g, rank)
  {
    (i: nat) => LeftDown(g, rank, names, i, w, k, hooks)
  }

  /** The services that were not active right after their own turn, in order. */
  ghost function FailedTurns(g: L.Graph, rank: string -> nat, names: seq<string>, w: World, k: nat, hooks: Attempts): seq<string>
    requires L.Ranked(g, rank)
  {
    Kept(names, Downs(g, rank, names, w, k, hooks))
  }

  /** The loop has had its first `i` turns, starting from `w`, with these attempts and failures before it. */
  ghost predicate Turned(g: L.Graph, rank: string -> nat, names: seq<string>, i: nat, w: World, hooks: Attempts,
                         tried: seq<string>, down: seq<string>, now: World, attempts: seq<string>, failed: seq<string>)
    requires L.Ranked(g, rank) && i <= |names|
  {
    && attempts == tried + BootOrder(g, rank, names[..i])
    && now == InTurn(w, BootOrder(g, rank, names[..i]), |tried|, hooks)
    && failed == down + Kept(names[..i], Downs(g, rank, names, w, |tried|, hooks))
  }

  lemma TurnedMore(g: L.Graph, rank: string -> nat, names: seq<string>, i: nat, w: World, hooks: Attempts,
                   tried: seq<string>, down: seq<string>, now: World, attempts: seq<string>, failed: seq<string>, now': World)
    requires L.Ranked(g, rank) && i < |names| && Turned(g, rank, names, i, w, hooks, tried, down, now, attempts, failed)
    requires now' == InTurn(now, Turn(g, rank, names[i]), |attempts|, hooks)
    ensures Turned(g, rank, names, i + 1, w, hooks, tried, down, now', attempts + Turn(g, rank, names[i]),
                   failed + if Due(g, names[i]) && !Up(now', names[i]) then [names[i]] else [])
  {
    var order, turn := BootOrder(g, rank, names[..i]), Turn(g, rank, names[i]);
    assert names[..i + 1][..i] == names[..i];
    InTurnAppend(w, order, turn, |tried|, hooks);
    Regroup(tried, order, turn);
    Regroup(down, Kept(names[..i], Downs(g, rank, names, w, |tried|, hooks)), if Due(g, names[i]) && !Up(now', names[i]) then [names[i]] else []);
  }

  /** The report names exactly the registered services, never the gateway, that a turn of their own left inactive. */
  lemma FailedIff(g: L.Graph, rank: string -> nat, names: seq<string>, w: World, k: nat, hooks: Attempts, n: string)
    requires L.Ranked(g, rank)
    ensures n in FailedTurns(g, rank, names, w, k, hooks) <==>
            exists i: nat :: i < |names| && names[i] == n && LeftDown(g, rank, names, i, w, k, hooks)
    ensures n in FailedTurns(g, rank, names, w, k, hooks) ==> Due(g, n)
  {
    var p := Downs(g, rank, names, w, k, hooks);
    KeptIff(names, p, n);
    assert forall i: nat :: p(i) == LeftDown(g, rank, names, i, w, k, hooks);
  }

  lemma TurnKeepsUp(g: L.Graph, rank: string -> nat, names: seq<string>, w: World, k: nat, hooks: Attempts, n: string)
    requires L.Ranked(g, rank) && Sound(w) && names != []
    requires Up(InTurn(w, BootOrder(g, rank, names[..|names| - 1]), k, hooks), n)
    ensures Up(InTurn(w, BootOrder(g, rank, names), k, hooks), n)
  {
    var m := |names| - 1;
    var order := BootOrder(g, rank, names[..m]);
    InTurnKeeps(w, order, k, hooks);
    InTurnKeeps(InTurn(w, order, k, hooks), Turn(g, rank, names[m]), k + |order|, hooks);
    InTurnAppend(w, order, Turn(g, rank, names[m]), k, hooks);
  }

  lemma {:induction false} UpStays(g: L.Graph, rank: string -> nat, names: seq<string>, i: nat, w: World, k: nat, hooks: Attempts, n: string)
    requires L.Ranked(g, rank) && Sound(w) && i <= |names| && Up(InTurn(w, BootOrder(g, rank, names[..i]), k, hooks), n)
    ensures Up(InTurn(w, BootOrder(g, rank, names), k, hooks), n)
    decreases |names| - i
  {
    if i == |names| {
      assert names[..i] == names;
    } else {
      UpStep(g, rank, names, i, w, k, hooks, n);
      UpStays(g, rank, names, i + 1, w, k, hooks, n);
    }
  }

  lemma UpStep(g: L.Graph, rank: string -> nat, names: seq<string>, i: nat, w: World, k: nat, hooks: Attempts, n: string)
    requires L.Ranked(g, rank) && Sound(w) && i < |names| && Up(InTurn(w, BootOrder(g, rank, names[..i]), k, hooks), n)
    ensures Up(InTurn(w, BootOrder(g, rank, names[..i + 1]), k, hooks), n)
  {
    assert names[..i + 1][..i] == names[..i];
    TurnKeepsUp(g, rank, names[..i + 1], w, k, hooks, n);
  }

  /** A listed service that is not reported is active at the end; the converse fails, as the retry below shows. */
  lemma UnreportedIsUp(g: L.Graph, rank: string -> nat, names: seq<string>, w: World, k: nat, hooks: Attempts, n: string)
    requires L.Ranked(g, rank) && Sound(w) && n in names && Due(g, n)
    ensures n in FailedTurns(g, rank, names, w, k, hooks) || Up(InTurn(w, BootOrder(g, rank, names), k, hooks), n)
  {
    FailedIff(g, rank, names, w, k, hooks, n);
    var i: nat :| i < |names| && names[i] == n;
    if !LeftDown(g, rank, names, i, w, k, hooks) {
      UpStays(g, rank, names, i + 1, w, k, hooks, n);
    }
  }

  /** Among the attempts, one on this service had its configure hook succeed. */
  predicate ConfigureSucceeds(order: seq<string>, k: nat, hooks: Attempts, n: string, i: nat) {
    i < |order| && order[i] == n && hooks(k + i).configure == L.Succeeds
  }

  predicate ActivateSucceeds(order: seq<string>, k: nat, hooks: Attempts, n: string, j: nat) {
    j < |order| && order[j] == n && hooks(k + j).activate == L.Succeeds
  }

  ghost predicate EverConfigured(order: seq<string>, k: nat, hooks: Attempts, n: string) {
    exists i :: ConfigureSucceeds(order, k, hooks, n, i)
  }

  ghost predicate EverActivated(order: seq<string>, k: nat, hooks: Attempts, n: string) {
    exists i, j :: ConfigureSucceeds(order, k, hooks, n, i) && i <= j && ActivateSucceeds(order, k, hooks, n, j)
  }

  lemma AttemptSnoc(w: World, xs: seq<string>, x: string, k: nat, hooks: Attempts)
    ensures InTurn(w, xs + [x], k, hooks) == Attempted(InTurn(w, xs, k, hooks), x, hooks(k + |xs|))
  {
    InTurnAppend(w, xs, [x], k, hooks);
    var w' := InTurn(w, xs, k, hooks);
    assert [x][1..] == [];
    assert InTurn(w', [x], k + |xs|, hooks) == InTurn(Attempted(w', x, hooks(k + |xs|)), [], k + |xs| + 1, hooks);
  }

  lemma EverSnoc(order: seq<string>, k: nat, hooks: Attempts, n: string)
    requires order != []
    ensures var m := |order| - 1;
            && (EverConfigured(order, k, hooks, n) <==> EverConfigured(order[..m], k, hooks, n) || ConfigureSucceeds(order, k, hooks, n, m))
            && (EverActivated(order, k, hooks, n) <==>
                  EverActivated(order[..m], k, hooks, n) || (EverConfigured(order, k, hooks, n) && ActivateSucceeds(order, k, hooks, n, m)))
  {
    var m := |order| - 1;
    var ps := order[..m];
    assert forall i: nat :: i < m ==> ConfigureSucceeds(ps, k, hooks, n, i) == ConfigureSucceeds(order, k, hooks, n, i);
    assert forall i: nat :: i < m ==> ActivateSucceeds(ps, k, hooks, n, i) == ActivateSucceeds(order, k, hooks, n, i);
    assert forall i: nat :: ConfigureSucceeds(ps, k, hooks, n, i) ==> i < m;
    assert forall i: nat :: ActivateSucceeds(ps, k, hooks, n, i) ==> i < m;
  }

  /**
   Whatever order the attempts come in: a service that starts unconfigured ends active
   exactly when its configure hook succeeded in one attempt and its activate hook in that
   one or a later one. So a service may come up after the turn that reports it as failed.
   */
  lemma {:induction false} EndsActiveIff(w: World, order: seq<string>, k: nat, hooks: Attempts, n: string)
    requires n != SAFETY && n in w.services && w.services[n].state == L.Unconfigured
    ensures var w' := InTurn(w, order, k, hooks);
            && n in w'.services
            && w'.services[n].state == if EverActivated(order, k, hooks, n) then L.Active
                                       else if EverConfigured(order, k, hooks, n) then L.Inactive else L.Unconfigured
    decreases |order|
  {
    if order != [] {
      var m := |order| - 1;
      EndsActiveIff(w, order[..m], k, hooks, n);
      assert order == order[..m] + [order[m]];
      AttemptSnoc(w, order[..m], order[m], k, hooks);
      EverSnoc(order, k, hooks, n);
      OtherAttempt(InTurn(w, order[..m], k, hooks), order[m], hooks(k + m), n);
    }
  }

  lemma OtherAttempt(w: World, name: string, a: Attempt, n: string)
    requires n in w.services && n != SAFETY
    ensures var w' := Attempted(w, name, a);
            n in w'.services &&
            w'.services[n] == if name == n then L.Activating(w.services[n], a.configure, a.activate).0 else w.services[n]
  {
  }

  // ----- a boot that reports a service which is up

  const RETRIED: L.Graph := map[
    SAFETY := [], "state_estimator" := [SAFETY], "navigation" := [SAFETY, "state_estimator", "world_model"]]

  /** Everything succeeds except the state estimator's first activation. */
  function FailsOnce(k: nat): Attempt {
    Attempt(L.Succeeds, if k == 2 then L.Refuses else L.Succeeds, 0.0, 0.0)
  }

  lemma RetriedOrders()
    ensures L.Ranked(RETRIED, ShippedRank)
    ensures L.Order(RETRIED, ShippedRank, "state_estimator") == [SAFETY, "state_estimator"]
    ensures L.Order(RETRIED, ShippedRank, "navigation") == [SAFETY, SAFETY, "state_estimator", "navigation"]
  {
    var se, nav := "state_estimator", "navigation";
    assert L.Ranked(RETRIED, ShippedRank);
    assert L.OrderAll(RETRIED, ShippedRank, SAFETY, []) == [];
    assert L.Order(RETRIED, ShippedRank, SAFETY) == [SAFETY];
    assert [SAFETY][1..] == [];
    assert L.OrderAll(RETRIED, ShippedRank, se, [SAFETY]) == [SAFETY];
    var deps := RETRIED[nav];
    assert deps[1..] == [se, "world_model"] && deps[1..][1..] == ["world_model"] && deps[1..][1..][1..] == [];
    assert L.OrderAll(RETRIED, ShippedRank, nav, deps[1..][1..]) == [];
    assert L.OrderAll(RETRIED, ShippedRank, nav, deps[1..]) == [SAFETY, se];
    assert L.OrderAll(RETRIED, ShippedRank, nav, deps) == [SAFETY, SAFETY, se];
  }

  /** In a boot of these three services, the state estimator fails its own turn and is reported, and navigation's turn then brings it up. */
  lemma ReportedButUp(w: World)
    requires w.services.Keys == RETRIED.Keys && w.services["state_estimator"].state == L.Unconfigured
    ensures L.Ranked(RETRIED, ShippedRank)
    ensures "state_estimator" in FailedTurns(RETRIED, ShippedRank, ACTIVATION_ORDER, w, 1, FailsOnce)
    ensures Up(InTurn(w, BootOrder(RETRIED, ShippedRank, ACTIVATION_ORDER), 1, FailsOnce), "state_estimator")
  {
    RetriedOrders();
    DueAmongShipped(ACTIVATION_ORDER);
    RetriedBoot(w, ACTIVATION_ORDER);
  }

  /** The list takes up the state estimator at 3 and navigation at 7, and nothing else. */
  ghost predicate TakesUpTwo(names: seq<string>) {
    && |names| == 13 && names[3] == "state_estimator" && names[7] == "navigation"
    && forall m :: 0 <= m < 13 ==> (Due(RETRIED, names[m]) <==> m == 3 || m == 7)
  }

  lemma RetriedBoot(w: World, names: seq<string>)
    requires w.services.Keys == RETRIED.Keys && w.services["state_estimator"].state == L.Unconfigured
    requires L.Ranked(RETRIED, ShippedRank) && TakesUpTwo(names)
    ensures "state_estimator" in FailedTurns(RETRIED, ShippedRank, names, w, 1, FailsOnce)
    ensures Up(InTurn(w, BootOrder(RETRIED, ShippedRank, names), 1, FailsOnce), "state_estimator")
  {
    RetriedBootOrder(names);
    FirstTurnFails(w, BootOrder(RETRIED, ShippedRank, names[..4]));
    FailedIff(RETRIED, ShippedRank, names, w, 1, FailsOnce, "state_estimator");
    assert LeftDown(RETRIED, ShippedRank, names, 3, w, 1, FailsOnce);
    SecondTurnSucceeds(w, BootOrder(RETRIED, ShippedRank, names));
  }

  lemma FirstTurnFails(w: World, order: seq<string>)
    requires "state_estimator" in w.services && w.services["state_estimator"].state == L.Unconfigured
    requires order == [SAFETY, "state_estimator"]
    ensures !Up(InTurn(w, order, 1, FailsOnce), "state_estimator")
  {
    EndsActiveIff(w, order, 1, FailsOnce, "state_estimator");
    assert forall j: nat :: ActivateSucceeds(order, 1, FailsOnce, "state_estimator", j) ==> j == 1;
  }

  lemma SecondTurnSucceeds(w: World, order: seq<string>)
    requires "state_estimator" in w.services && w.services["state_estimator"].state == L.Unconfigured
    requires order == [SAFETY, "state_estimator", SAFETY, SAFETY, "state_estimator", "navigation"]
    ensures Up(InTurn(w, order, 1, FailsOnce), "state_estimator")
  {
    EndsActiveIff(w, order, 1, FailsOnce, "state_estimator");
    assert ConfigureSucceeds(order, 1, FailsOnce, "state_estimator", 1) && ActivateSucceeds(order, 1, FailsOnce, "state_estimator", 4);
  }

  /** What each turn adds, and the first `n` of these together. */
  ghost function Turns(g: L.Graph, rank: string -> nat, names: seq<string>): nat -> seq<string>
    requires L.Ranked(g, rank)
  {
    (k: nat) => if k < |names| then Turn(g, rank, names[k]) else []
  }

  function Together<T>(t: nat -> seq<T>, n: nat): seq<T> {
    if n == 0 then [] else Together(t, n - 1) + t(n - 1)
  }

  lemma {:induction false} BootOrderTogether(g: L.Graph, rank: string -> nat, names: seq<string>, n: nat)
    requires L.Ranked(g, rank) && n <= |names|
    ensures BootOrder(g, rank, names[..n]) == Together(Turns(g, rank, names), n)
  {
    if n > 0 {
      BootOrderTogether(g, rank, names, n - 1);
      assert names[..n][..n - 1] == names[..n - 1];
    }
  }

  lemma {:induction false} EmptyTurns<T>(t: nat -> seq<T>, i: nat, n: nat)
    requires i <= n && forall k: nat :: i <= k < n ==> t(k) == []
    ensures Together(t, n) == Together(t, i)
  {
    if i < n {
      EmptyTurns(t, i, n - 1);
    }
  }

  /** If only two of them add anything, these two make up the whole. */
  lemma TwoTurns<T>(t: nat -> seq<T>, i: nat, j: nat, n: nat)
    requires i < j < n && forall k: nat :: k < n && k != i && k != j ==> t(k) == []
    ensures Together(t, i + 1) == t(i) && Together(t, n) == t(i) + t(j)
  {
    EmptyTurns(t, 0, i);
    EmptyTurns(t, i + 1, j);
    EmptyTurns(t, j + 1, n);
  }

  lemma DueAmongShipped(names: seq<string>)
    requires names == ACTIVATION_ORDER
    ensures TakesUpTwo(names)
  {
  }

  lemma RetriedBootOrder(names: seq<string>)
    requires L.Ranked(RETRIED, ShippedRank) && TakesUpTwo(names)
    ensures BootOrder(RETRIED, ShippedRank, names[..4]) == [SAFETY, "state_estimator"]
    ensures BootOrder(RETRIED, ShippedRank, names) == [SAFETY, "state_estimator", SAFETY, SAFETY, "state_estimator", "navigation"]
  {
    RetriedTurns(names);
    var t := Turns(RETRIED, ShippedRank, names);
    TwoTurnsBoot(RETRIED, ShippedRank, names, t, 3, 7, |names|);
    WholeList(names);
    assert t(3) + t(7) == [SAFETY, "state_estimator", SAFETY, SAFETY, "state_estimator", "navigation"];
  }

  lemma TwoTurnsBoot(g: L.Graph, rank: string -> nat, names: seq<string>, t: nat -> seq<string>, i: nat, j: nat, n: nat)
    requires L.Ranked(g, rank) && t == Turns(g, rank, names) && i < j < n == |names| && forall k: nat :: k < n && k != i && k != j ==> t(k) == []
    ensures BootOrder(g, rank, names[..i + 1]) == t(i) && BootOrder(g, rank, names[..n]) == t(i) + t(j)
  {
    TwoTurns(t, i, j, n);
    BootIs(g, rank, names, t, i + 1, t(i));
    BootIs(g, rank, names, t, n, t(i) + t(j));
  }

  lemma BootIs(g: L.Graph, rank: string -> nat, names: seq<string>, t: nat -> seq<string>, n: nat, all: seq<string>)
    requires L.Ranked(g, rank) && t == Turns(g, rank, names) && n <= |names| && Together(t, n) == all
    ensures BootOrder(g, rank, names[..n]) == all
  {
    BootOrderTogether(g, rank, names, n);
  }

  lemma RetriedTurns(names: seq<string>)
    requires L.Ranked(RETRIED, ShippedRank) && TakesUpTwo(names)
    ensures var t := Turns(RETRIED, ShippedRank, names);
            && t(3) == [SAFETY, "state_estimator"] && t(7) == [SAFETY, SAFETY, "state_estimator", "navigation"]
            && forall k: nat :: k < 13 && k != 3 && k != 7 ==> t(k) == []
  {
    RetriedOrders();
  }

  lemma WholeList<T>(xs: seq<T>)
    ensures xs[..|xs|] == xs
  {
  }

  // ----- a whole boot

  /** Connecting the backend always leaves its power off; it may raise instead. */
  function Connected(w: World, ok: bool): World {
    w.(backendPower := w.backendPower && !ok)
  }

  /** The gateway first, then the backend, then everything else in order. */
  function Booted(w: World, order: seq<string>, k: nat, hooks: Attempts, connected: bool): World {
    InTurn(Connected(Attempted(w, SAFETY, hooks(k)), connected), order, k + 1, hooks)
  }

  /** The services a boot adds to `failed_services`. */
  ghost function BootFailures(g: L.Graph, rank: string -> nat, names: seq<string>, w: World, k: nat, hooks: Attempts, connected: bool): seq<string>
    requires L.Ranked(g, rank)
  {
    FailedTurns(g, rank, names, Connected(Attempted(w, SAFETY, hooks(k)), connected), k + 1, hooks)
  }

  lemma BootKeeps(w: World, order: seq<string>, k: nat, hooks: Attempts, connected: bool)
    requires Sound(w) && SAFETY in w.services
    ensures Sound(Booted(w, order, k, hooks, connected)) && Monotone(w, Booted(w, order, k, hooks, connected))
    ensures var b := Booted(w, order, k, hooks, connected);
            && (b.backendPower <==> w.backendPower && !connected && !GatewayActive(b))
            && (b.ctl.power <==> w.ctl.power && !GatewayConfigured(b))
  {
    AttemptKeeps(w, SAFETY, hooks(k));
    AttemptPower(w, SAFETY, hooks(k));
    var w1 := Connected(Attempted(w, SAFETY, hooks(k)), connected);
    InTurnKeeps(w1, order, k + 1, hooks);
    InTurnPower(w1, order, k + 1, hooks);
  }

  /** Every registered motion-critical service is active. */
  predicate CriticalActive(services: map<string, L.Service>) {
    forall n :: n in MOTION_CRITICAL && n in services ==> services[n].state == L.Active
  }

  /**
   What a boot promises of the world `b` it ends in and the readiness it reports: the
   assessed state is a legal successor of SAFE_IDLE; motion is permitted only with every
   critical service active, no e-stop, no inhibiting condition and all power off; a latched
   file never permits it; and power that was on before survives only where the gateway (and,
   for the backend, the connection) did not come up.
   */
  ghost predicate SafeOutcome(w: World, b: World, connected: bool, c: Context, r: Readiness) {
    && r.state in {Ready, Degraded, MotionInhibited, EmergencyStopped}
    && (MotionPermitted(r.state) ==>
          CriticalActive(b.services) && !b.ctl.estop && (forall x :: !Inhibits(c, x)) && !b.ctl.power && !b.backendPower)
    && (w.latch.Engaged() ==> !MotionPermitted(r.state))
    && (w.latch.Engaged() && GatewayConfigured(b) ==> r.state == EmergencyStopped)
    && (b.backendPower <==> w.backendPower && !connected && !GatewayActive(b))
    && (b.ctl.power ==> w.ctl.power && !GatewayConfigured(b))
  }

  lemma AssessedStates(estop: bool, c: Context, r: Readiness)
    requires Assessed(estop, c, r)
    ensures r.state in {Ready, Degraded, MotionInhibited, EmergencyStopped}
    ensures MotionPermitted(r.state) ==> !estop && (forall x :: !Inhibits(c, x)) && CriticalActive(c.services)
  {
    if MotionPermitted(r.state) {
      forall n | n in MOTION_CRITICAL && n in c.services ensures c.services[n].state == L.Active {
        assert !Inhibits(c, ServiceDown(n));
      }
    }
  }

  function FitnessOf(s: DroidState): Fitness {
    if s == Ready then Fit else if s == Degraded then Impaired else Unfit
  }

  /** An assessment settles where the run model's re-assessment does. */
  lemma AssessedVerdict(estop: bool, c: Context, r: Readiness)
    requires Assessed(estop, c, r)
    ensures r.state == Verdict(estop, c.healthy, FitnessOf(r.state))
  {
    AssessedStates(estop, c, r);
    if !c.healthy {
      assert Inhibits(c, SafetyUnhealthy);
    }
  }

  lemma RefreshStep<Pose>(h: Host<Pose>, c: Context, r: Readiness, estopRead: real, beat: real, read: real)
    requires Assessed(h.ctl.estop, c, r) && c.healthy == Health(h.ctl, estopRead, beat, read)
    ensures Step(h, Op.Refresh(estopRead, beat, read, FitnessOf(r.state))) == h.(ctl := Polled(h.ctl, estopRead, beat, read), state := r.state)
  {
    AssessedVerdict(h.ctl.estop, c, r);
  }

  /** Whatever the hooks do and whatever the sensors say. */
  lemma BootIsSafe(w: World, order: seq<string>, k: nat, hooks: Attempts, connected: bool, c: Context, r: Readiness)
    requires Sound(w) && SAFETY in w.services
    requires c.services == Booted(w, order, k, hooks, connected).services
    requires Assessed(Booted(w, order, k, hooks, connected).ctl.estop, c, r)
    ensures SafeOutcome(w, Booted(w, order, k, hooks, connected), connected, c, r)
  {
    BootKeeps(w, order, k, hooks, connected);
    var b := Booted(w, order, k, hooks, connected);
    AssessedStates(b.ctl.estop, c, r);
    SoundOutcome(w, b, connected, c, r);
  }

  lemma SoundOutcome(w: World, b: World, connected: bool, c: Context, r: Readiness)
    requires Sound(b) && Monotone(w, b) && SAFETY in w.services
    requires b.backendPower <==> w.backendPower && !connected && !GatewayActive(b)
    requires b.ctl.power ==> w.ctl.power && !GatewayConfigured(b)
    requires c.services == b.services && Assessed(b.ctl.estop, c, r)
    requires r.state in {Ready, Degraded, MotionInhibited, EmergencyStopped}
    requires MotionPermitted(r.state) ==> !b.ctl.estop && (forall x :: !Inhibits(c, x)) && CriticalActive(c.services)
    ensures SafeOutcome(w, b, connected, c, r)
  {
    assert SAFETY == MOTION_CRITICAL[0];
  }

  /** Polling the controller spoils none of it. */
  lemma PolledOutcome(w: World, b: World, connected: bool, c: Context, r: Readiness, estopRead: real, beat: real, read: real)
    requires SafeOutcome(w, b, connected, c, r)
    ensures SafeOutcome(w, b.(ctl := Polled(b.ctl, estopRead, beat, read)), connected, c, r)
  {
  }

  lemma PolledBootIsSafe(w: World, order: seq<string>, k: nat, hooks: Attempts, connected: bool, c: Context, r: Readiness,
                         b: World, now: World, estopRead: real, beat: real, read: real)
    requires Sound(w) && SAFETY in w.services && b == Booted(w, order, k, hooks, connected)
    requires now == b.(ctl := Polled(b.ctl, estopRead, beat, read))
    requires c.services == b.services && Assessed(b.ctl.estop, c, r)
    ensures SafeOutcome(w, now, connected, c, r)
  {
    BootIsSafe(w, order, k, hooks, connected, c, r);
    PolledOutcome(w, b, connected, c, r, estopRead, beat, read);
  }

  // ----- the supervisor

  class Supervisor<Pose> {
    const rt: Runtime<Pose>
    const safety: SafetyGateway?<Pose>
    const requirements: L.Graph
    const body: Option<Body>
    const hasBackend: bool
    const hooks: Attempts
    var services: map<string, L.Service>
    var attempts: seq<string>
    var failed: seq<string>
    var readiness: Readiness
    ghost const rank: string -> nat

    ghost predicate Valid()
      reads this, rt.machine
    {
      Wired() && rt.machine.Valid()
    }

    ghost predicate Wired()
      reads this
    {
      && L.Ranked(requirements, rank)
      && services.Keys == requirements.Keys
      && (if safety == null then SAFETY !in requirements else safety.rt == rt && SAFETY in requirements)
    }

    ghost function Now(): World
      requires safety != null
      reads this, rt, safety, safety.controller
    {
      World(services, safety.controller.View(), rt.backendPower, rt.latch)
    }

    constructor (rt: Runtime<Pose>, safety: SafetyGateway?<Pose>, services: map<string, L.Service>, requirements: L.Graph,
                 body: Option<Body>, hasBackend: bool, hooks: Attempts, ghost rank: string -> nat)
      requires rt.machine.Valid() && (safety != null ==> safety.rt == rt) && (safety != null <==> SAFETY in services)
      requires services.Keys == requirements.Keys && L.Ranked(requirements, rank)
      ensures Valid() && this.rt == rt && this.safety == safety && this.services == services && this.hooks == hooks
      ensures this.requirements == requirements && this.body == body && this.hasBackend == hasBackend && this.rank == rank
      ensures attempts == [] && failed == [] && readiness == Readiness(PoweredOff, [], [])
    {
      this.rt, this.safety, this.services, this.requirements := rt, safety, services, requirements;
      this.body, this.hasBackend, this.hooks, this.rank := body, hasBackend, hooks, rank;
      attempts, failed, readiness := [], [], Readiness(PoweredOff, [], []);
    }

    /** `ManagedService.activate` on one registered service. */
    method Activate(name: string) returns (ok: bool)
      requires Wired() && safety != null && name in services
      modifies this`services, this`attempts, safety.controller, rt
      ensures Wired() && attempts == old(attempts) + [name]
      ensures Now() == Attempted(old(Now()), name, hooks(|old(attempts)|))
      ensures ok <==> services[name].state == L.Active
    {
      var a := hooks(|attempts|);
      attempts := attempts + [name];
      if name == SAFETY {
        ok := ActivateGateway(a);
      } else {
        var (s, done) := L.Activating(services[name], a.configure, a.activate);
        services := services[name := s];
        ok := done;
      }
    }

    method ActivateGateway(a: Attempt) returns (ok: bool)
      requires Wired() && safety != null
      modifies this`services, safety.controller, rt
      ensures Wired() && Now() == GatewayAttempted(old(Now()), a)
      ensures ok <==> services[SAFETY].state == L.Active
    {
      var s := services[SAFETY];
      var (t, done) := L.Activating(s, GatewayConfigure(a, rt.latch), GatewayActivate(a));
      services := services[SAFETY := t];
      ok := done;
      if s.state == L.Inactive {
        PowerOff(a);
      } else if s.state == L.Unconfigured && a.configure == L.Succeeds {
        var loaded := safety.OnConfigure(a.configuredAt);
        if loaded {
          PowerOff(a);
        }
      }
    }

    /** The gateway's activate hook; a failing backend stops it after the controller's power is off. */
    method PowerOff(a: Attempt)
      requires Wired() && safety != null
      modifies safety.controller, rt
      ensures Wired() && Now() == GatewayOff(old(Now()), a)
    {
      if a.activate == L.Succeeds {
        safety.OnActivate(a.activatedAt);
      } else {
        safety.controller.Heartbeat(a.activatedAt);
        safety.controller.DisablePower();
      }
    }

    /** Requirements first, recursively: the same as attempting the whole order one by one. */
    method ActivateWithDeps(name: string) returns (ok: bool)
      requires Wired() && safety != null && name in services
      modifies this`services, this`attempts, safety.controller, rt
      ensures Wired()
      ensures var order := L.Order(requirements, rank, name);
              && attempts == old(attempts) + order
              && Now() == InTurn(old(Now()), order, |old(attempts)|, hooks)
      ensures ok <==> services[name].state == L.Active
      decreases rank(name)
    {
      var deps := requirements[name];
      ghost var all := old(attempts) + L.Order(requirements, rank, name);
      ghost var goal := InTurn(Now(), L.Order(requirements, rank, name), |attempts|, hooks);
      for i := 0 to |deps|
        invariant Wired()
        invariant OnTrack(Now(), attempts, L.OrderAll(requirements, rank, name, deps[i..]) + [name], hooks, all, goal)
      {
        ghost var rest := L.OrderAll(requirements, rank, name, deps[i + 1..]) + [name];
        OrderSplit(requirements, rank, name, deps[i..]);
        assert deps[i..][1..] == deps[i + 1..];
        if deps[i] in services {
          OnTrackAppend(Now(), attempts, L.Order(requirements, rank, deps[i]), rest, hooks, all, goal);
          var _ := ActivateWithDeps(deps[i]);
        }
        assert OnTrack(Now(), attempts, rest, hooks, all, goal);
      }
      assert L.OrderAll(requirements, rank, name, deps[|deps|..]) + [name] == [name];
      OnTrackLast(Now(), attempts, name, hooks, all, goal);
      ok := Activate(name);
    }

    function Seen(healthy: bool, readings: Readings): Context
      reads this
    {
      Context(healthy, services, body, if hasBackend then Some(readings) else None)
    }

    method AssessReadiness(readings: Readings, estopRead: real, beat: real, read: real) returns (r: Readiness)
      requires Valid()
      modifies if safety != null then {safety.controller} else {}
      ensures Valid()
      ensures safety != null ==> safety.controller.View() == Polled(old(safety.controller.View()), estopRead, beat, read)
      ensures Assessed(safety != null && old(safety.controller.estop), Seen(safety != null && Health(old(safety.controller.View()), estopRead, beat, read), readings), r)
    {
      var healthy := false;
      if safety != null {
        var st := safety.controller.Status(estopRead);
        if st.estop {
          r := Assess(true, Seen(false, readings));
          return;
        }
        safety.controller.Heartbeat(beat);
        st := safety.controller.Status(read);
        healthy := st.Healthy();
      }
      r := Assess(false, Seen(healthy, readings));
    }

    /** Takes the legal transition where there is one and forces the state where there is none. */
    method Settle(target: DroidState)
      requires Valid()
      modifies rt.machine
      ensures Valid() && rt.machine.state == target
      ensures rt.machine.history == old(rt.machine.history) +
                (if target == old(rt.machine.state) then []
                 else [Change(old(rt.machine.state), target, target !in Successors(old(rt.machine.state)))])
    {
      if rt.machine.state == target {
        return;
      }
      if target in Successors(rt.machine.state) {
        var _ := rt.machine.Transition(target);
      } else {
        rt.machine.Force(target);
      }
    }

    /** One turn of the loop, for a registered service. */
    method BringUpOne(name: string)
      requires Wired() && safety != null && name in services
      modifies this`services, this`attempts, this`failed, safety.controller, rt
      ensures Wired()
      ensures attempts == old(attempts) + L.Order(requirements, rank, name)
      ensures Now() == InTurn(old(Now()), L.Order(requirements, rank, name), |old(attempts)|, hooks)
      ensures failed == old(failed) + if Up(Now(), name) then [] else [name]
    {
      var ok := ActivateWithDeps(name);
      if !ok {
        failed := failed + [name];
      }
    }

    /** One turn of the loop, for any listed name. */
    method BringUpListed(name: string)
      requires Wired() && safety != null
      modifies this`services, this`attempts, this`failed, safety.controller, rt
      ensures Wired()
      ensures attempts == old(attempts) + Turn(requirements, rank, name)
      ensures Now() == InTurn(old(Now()), Turn(requirements, rank, name), |old(attempts)|, hooks)
      ensures failed == old(failed) + if Due(requirements, name) && !Up(Now(), name) then [name] else []
    {
      if name != SAFETY && name in services {
        BringUpOne(name);
      }
    }

    /** Brings up the listed services other than the gateway, remembering those that did not come up in their turn. */
    method BringUp(names: seq<string>)
      requires Wired() && safety != null
      modifies this`services, this`attempts, this`failed, safety.controller, rt
      ensures Wired()
      ensures attempts == old(attempts) + BootOrder(requirements, rank, names)
      ensures Now() == InTurn(old(Now()), BootOrder(requirements, rank, names), |old(attempts)|, hooks)
      ensures failed == old(failed) + FailedTurns(requirements, rank, names, old(Now()), |old(attempts)|, hooks)
    {
      for i := 0 to |names|
        invariant Wired()
        invariant Turned(requirements, rank, names, i, old(Now()), hooks, old(attempts), old(failed), Now(), attempts, failed)
      {
        ghost var before, tried, down := Now(), attempts, failed;
        BringUpListed(names[i]);
        TurnedMore(requirements, rank, names, i, old(Now()), hooks, old(attempts), old(failed), before, tried, down, Now());
      }
      assert names[..|names|] == names;
    }

    /** Boot steps 11 to 18: the backend, and then everything but the gateway. */
    method Populate(names: seq<string>, connectOk: bool)
      requires Wired() && safety != null
      modifies this`services, this`attempts, this`failed, safety.controller, rt
      ensures Wired()
      ensures failed == old(failed) + FailedTurns(requirements, rank, names, Connected(old(Now()), hasBackend && connectOk), |old(attempts)|, hooks)
      ensures attempts == old(attempts) + BootOrder(requirements, rank, names)
      ensures Now() == InTurn(Connected(old(Now()), hasBackend && connectOk), BootOrder(requirements, rank, names), |old(attempts)|, hooks)
    {
      if hasBackend && connectOk {
        rt.backendPower := false;
      }
      assert Now() == Connected(old(Now()), hasBackend && connectOk);
      BringUp(names);
    }

    /** Boot steps 5 to 8. */
    method ContactSafety()
      requires Valid() && rt.machine.state == Booting
      requires safety != null && Sound(Now())
      modifies this`services, this`attempts, safety.controller, rt, rt.machine
      ensures Valid() && rt.machine.state == HardwareCheck
      ensures rt.machine.history == old(rt.machine.history) + [Change(Booting, HardwareCheck, false)]
      ensures attempts == old(attempts) + [SAFETY]
      ensures Now() == Attempted(old(Now()), SAFETY, hooks(|old(attempts)|)) && Sound(Now())
    {
      AttemptKeeps(Now(), SAFETY, hooks(|attempts|));
      var _ := Activate(SAFETY);
      var _ := rt.machine.Transition(HardwareCheck);
    }

    /** Boot steps 5 to 18. */
    method Start(names: seq<string>, connectOk: bool)
      requires Valid() && rt.machine.state == Booting
      requires safety != null && Sound(Now())
      modifies this`services, this`attempts, this`failed, safety.controller, rt, rt.machine
      ensures Valid() && rt.machine.state == HardwareCheck
      ensures rt.machine.history == old(rt.machine.history) + [Change(Booting, HardwareCheck, false)]
      ensures attempts == old(attempts) + [SAFETY] + BootOrder(requirements, rank, names)
      ensures Now() == Booted(old(Now()), BootOrder(requirements, rank, names), |old(attempts)|, hooks, hasBackend && connectOk)
      ensures failed == old(failed) + BootFailures(requirements, rank, names, old(Now()), |old(attempts)|, hooks, hasBackend && connectOk)
    {
      ContactSafety();
      Populate(names, connectOk);
    }

    /** Boot steps 19 and 20: SAFE_IDLE, and then the assessed state. */
    method Conclude(readings: Readings, estopRead: real, beat: real, read: real)
      requires Valid() && rt.machine.state == HardwareCheck && safety != null
      modifies this`readiness, rt.machine, safety.controller
      ensures Valid() && rt.machine.state == readiness.state
      ensures rt.machine.history == old(rt.machine.history) +
                [Change(HardwareCheck, SafeIdle, false), Change(SafeIdle, readiness.state, false)]
      ensures safety.controller.View() == Polled(old(safety.controller.View()), estopRead, beat, read)
      ensures Assessed(old(safety.controller.View()).estop, Seen(Health(old(safety.controller.View()), estopRead, beat, read), readings), readiness)
    {
      var _ := rt.machine.Transition(SafeIdle);
      ghost var ctl := safety.controller.View();
      readiness := AssessReadiness(readings, estopRead, beat, read);
      AssessedStates(ctl.estop, Seen(Health(ctl, estopRead, beat, read), readings), readiness);
      Settle(readiness.state);
    }

    /** The same after the boot steps before it, and what the boot then promises. */
    method ConcludeSafely(ghost was: World, ghost order: seq<string>, ghost k: nat, ghost connected: bool,
                          readings: Readings, estopRead: real, beat: real, read: real)
      requires Valid() && rt.machine.state == HardwareCheck && safety != null
      requires Sound(was) && SAFETY in was.services && Now() == Booted(was, order, k, hooks, connected)
      modifies this`readiness, rt.machine, safety.controller
      ensures Valid() && rt.machine.state == readiness.state
      ensures rt.machine.history == old(rt.machine.history) +
                [Change(HardwareCheck, SafeIdle, false), Change(SafeIdle, readiness.state, false)]
      ensures var b := old(Now());
              var c := Seen(Health(b.ctl, estopRead, beat, read), readings);
              && Now() == b.(ctl := Polled(b.ctl, estopRead, beat, read))
              && Assessed(b.ctl.estop, c, readiness)
              && SafeOutcome(was, Now(), connected, c, readiness)
    {
      ghost var b := Now();
      Conclude(readings, estopRead, beat, read);
      PolledBootIsSafe(was, order, k, hooks, connected, Seen(Health(b.ctl, estopRead, beat, read), readings), readiness, b, Now(), estopRead, beat, read);
    }

    /** The boot of a droid that has a gateway. */
    method BootGuarded(names: seq<string>, connectOk: bool, readings: Readings, estopRead: real, beat: real, read: real)
      requires Valid() && rt.machine.state == Booting
      requires safety != null && Sound(Now())
      modifies this, rt, rt.machine, safety.controller
      ensures Valid() && rt.machine.state == readiness.state
      ensures rt.machine.history == old(rt.machine.history) +
                [Change(Booting, HardwareCheck, false)] + [Change(HardwareCheck, SafeIdle, false), Change(SafeIdle, readiness.state, false)]
      ensures attempts == old(attempts) + [SAFETY] + BootOrder(requirements, rank, names)
      ensures failed == old(failed) + BootFailures(requirements, rank, names, old(Now()), |old(attempts)|, hooks, hasBackend && connectOk)
      ensures var b := Booted(old(Now()), BootOrder(requirements, rank, names), |old(attempts)|, hooks, hasBackend && connectOk);
              var c := Seen(Health(b.ctl, estopRead, beat, read), readings);
              && Now() == b.(ctl := Polled(b.ctl, estopRead, beat, read))
              && Assessed(b.ctl.estop, c, readiness)
              && SafeOutcome(old(Now()), Now(), hasBackend && connectOk, c, readiness)
    {
      ghost var was, k := Now(), |attempts|;
      Start(names, connectOk);
      ConcludeSafely(was, BootOrder(requirements, rank, names), k, hasBackend && connectOk, readings, estopRead, beat, read);
    }

    /**
     From POWERED_OFF, by legal transitions only, into exactly the assessed state, whatever
     the hooks, the connection and the readings are. A gateway that is not configured yet, as
     in every new process, is `Sound` as it stands.
     */
    method Boot(connectOk: bool, readings: Readings, estopRead: real, beat: real, read: real)
      requires Valid() && rt.machine.state == PoweredOff
      requires safety != null ==> Sound(Now())
      modifies this, rt, rt.machine, if safety != null then {safety.controller} else {}
      ensures Valid() && rt.machine.state == readiness.state
      ensures rt.machine.history == old(rt.machine.history) +
                [Change(PoweredOff, Booting, false)] + [Change(Booting, HardwareCheck, false)] +
                (if safety == null then [Change(HardwareCheck, MotionInhibited, false)]
                 else [Change(HardwareCheck, SafeIdle, false), Change(SafeIdle, readiness.state, false)])
      ensures safety == null ==> readiness == Readiness(MotionInhibited, [GatewayMissing], []) && attempts == old(attempts)
      ensures safety != null ==>
                && attempts == old(attempts) + [SAFETY] + BootOrder(requirements, rank, ACTIVATION_ORDER)
                && failed == old(failed) + BootFailures(requirements, rank, ACTIVATION_ORDER, old(Now()), |old(attempts)|, hooks, hasBackend && connectOk)
                && var b := Booted(old(Now()), BootOrder(requirements, rank, ACTIVATION_ORDER), |old(attempts)|, hooks, hasBackend && connectOk);
                var c := Seen(Health(b.ctl, estopRead, beat, read), readings);
                && Now() == b.(ctl := Polled(b.ctl, estopRead, beat, read))
                && Assessed(b.ctl.estop, c, readiness)
                && SafeOutcome(old(Now()), Now(), hasBackend && connectOk, c, readiness)
    {
      var _ := rt.machine.Transition(Booting);
      if safety == null {
        var _ := rt.machine.Transition(HardwareCheck);
        var _ := rt.machine.Transition(MotionInhibited);
        readiness := Readiness(MotionInhibited, [GatewayMissing], []);
      } else {
        BootGuarded(ACTIVATION_ORDER, connectOk, readings, estopRead, beat, read);
      }
    }

    /** Re-assesses without a reboot; only here can the state have to be forced. For a host with a gateway it is the run model's `Refresh`. */
    method Refresh(readings: Readings, estopRead: real, beat: real, read: real)
      requires Valid()
      modifies this`readiness, rt.machine, if safety != null then {safety.controller} else {}
      ensures Valid() && rt.machine.state == readiness.state
      ensures rt.machine.history == old(rt.machine.history) +
                (if readiness.state == old(rt.machine.state) then []
                 else [Change(old(rt.machine.state), readiness.state, readiness.state !in Successors(old(rt.machine.state)))])
      ensures safety != null ==> safety.View() == Step(old(safety.View()), Op.Refresh(estopRead, beat, read, FitnessOf(readiness.state)))
      ensures Assessed(safety != null && old(safety.controller.estop),
                       Seen(safety != null && Health(old(safety.controller.View()), estopRead, beat, read), readings), readiness)
    {
      ghost var healthy := safety != null && Health(safety.controller.View(), estopRead, beat, read);
      readiness := AssessReadiness(readings, estopRead, beat, read);
      if safety != null {
        RefreshStep(old(safety.View()), Seen(healthy, readings), readiness, estopRead, beat, read);
      }
      Settle(readiness.state);
    }
  }
}
