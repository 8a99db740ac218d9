/**
 The readiness assessment: which conditions keep a droid from moving, and the state they
 put it in.
 */
module Assessment {
  import opened DroidStates
  import opened PyText
  import opened Wrappers
  import L = Lifecycle

  /** What the loaded body declares, as far as readiness depends on it. */
  datatype Body = Body(issues: seq<string>, minBattery: real, requiredActuators: seq<string>, requiredSensors: seq<string>, sensors: seq<string>)

  datatype ActuatorState = ActuatorState(name: string, faultCode: string)

  /** What the backend reports when asked; a backend without a bus reports it online. */
  datatype Readings = Readings(battery: real, actuatorNames: set<string>, sensorOk: string -> bool, actuators: seq<ActuatorState>, busOnline: bool)

  datatype Context = Context(
    healthy: bool, services: map<string, L.Service>, body: Option<Body>, backend: Option<Readings>)

  datatype Reason =
    | EstopEngaged
    | GatewayMissing
    | SafetyUnhealthy
    | ServiceDown(name: string)
    | BodyIssue(issue: string)
    | BatteryLow
    | ActuatorMissing(actuator: string)
    | SensorDown(id: string)
    | ActuatorFault(state: ActuatorState)
    | BusOffline

  const SAFETY := "safety_gateway"

  const MOTION_CRITICAL := [SAFETY, "state_estimator", "motion", "navigation"]

  /**
   The condition behind each reason. An engaged e-stop, like a gateway missing at boot,
   is reported alone, before the context is looked at.
   */
  predicate Inhibits(c: Context, r: Reason) {
    match r
    case EstopEngaged | GatewayMissing => false
    case SafetyUnhealthy => !c.healthy
    case ServiceDown(n) => n in MOTION_CRITICAL && n in c.services && c.services[n].state != L.Active
    case BodyIssue(i) => c.body.Some? && i in c.body.value.issues && !Contains(i, "placeholder")
    case BatteryLow => Embodied(c) && c.backend.value.battery < c.body.value.minBattery
    case ActuatorMissing(a) => Embodied(c) && a in c.body.value.requiredActuators && a !in c.backend.value.actuatorNames
    case SensorDown(id) => Embodied(c) && id in c.body.value.requiredSensors && !c.backend.value.sensorOk(id)
    case ActuatorFault(a) => Embodied(c) && a in c.backend.value.actuators && a.faultCode != ""
    case BusOffline => Embodied(c) && !c.backend.value.busOnline
  }

  /** An optional sensor that does not respond. */
  predicate Degrades(c: Context, id: string) {
    && Embodied(c) && id in c.body.value.sensors && id !in c.body.value.requiredSensors
    && !c.backend.value.sensorOk(id)
  }

  predicate Embodied(c: Context) {
    c.body.Some? && c.backend.Some?
  }

  // ----- the loops of the assessment

  method InactiveCritical(c: Context) returns (rs: seq<Reason>)
    ensures forall r :: r in rs <==> r.ServiceDown? && Inhibits(c, r)
  {
    rs := [];
    for i := 0 to |MOTION_CRITICAL|
      invariant forall r :: r in rs <==> r.ServiceDown? && Inhibits(c, r) && r.name in MOTION_CRITICAL[..i]
    {
      var n := MOTION_CRITICAL[i];
      if n in c.services && c.services[n].state != L.Active {
        rs := rs + [ServiceDown(n)];
      }
    }
    assert MOTION_CRITICAL[..|MOTION_CRITICAL|] == MOTION_CRITICAL;
  }

  method FatalIssues(c: Context) returns (rs: seq<Reason>)
    requires c.body.Some?
    ensures forall r :: r in rs <==> r.BodyIssue? && Inhibits(c, r)
  {
    rs := [];
    var issues := c.body.value.issues;
    for i := 0 to |issues|
      invariant forall r :: r in rs <==> r.BodyIssue? && Inhibits(c, r) && r.issue in issues[..i]
    {
      if !Contains(issues[i], "placeholder") {
        rs := rs + [BodyIssue(issues[i])];
      }
    }
    assert issues[..|issues|] == issues;
  }

  method MissingActuators(c: Context) returns (rs: seq<Reason>)
    requires Embodied(c)
    ensures forall r :: r in rs <==> r.ActuatorMissing? && Inhibits(c, r)
  {
    rs := [];
    var required := c.body.value.requiredActuators;
    for i := 0 to |required|
      invariant forall r :: r in rs <==> r.ActuatorMissing? && Inhibits(c, r) && r.actuator in required[..i]
    {
      if required[i] !in c.backend.value.actuatorNames {
        rs := rs + [ActuatorMissing(required[i])];
      }
    }
    assert required[..|required|] == required;
  }

  method SilentSensors(c: Context) returns (rs: seq<Reason>)
    requires Embodied(c)
    ensures forall r :: r in rs <==> r.SensorDown? && Inhibits(c, r)
  {
    rs := [];
    var required := c.body.value.requiredSensors;
    for i := 0 to |required|
      invariant forall r :: r in rs <==> r.SensorDown? && Inhibits(c, r) && r.id in required[..i]
    {
      if !c.backend.value.sensorOk(required[i]) {
        rs := rs + [SensorDown(required[i])];
      }
    }
    assert required[..|required|] == required;
  }

  method FaultyActuators(c: Context) returns (rs: seq<Reason>)
    requires Embodied(c)
    ensures forall r :: r in rs <==> r.ActuatorFault? && Inhibits(c, r)
  {
    rs := [];
    var actuators := c.backend.value.actuators;
    for i := 0 to |actuators|
      invariant forall r :: r in rs <==> r.ActuatorFault? && Inhibits(c, r) && r.state in actuators[..i]
    {
      if actuators[i].faultCode != "" {
        rs := rs + [ActuatorFault(actuators[i])];
      }
    }
    assert actuators[..|actuators|] == actuators;
  }

  method OptionalSensorsDown(c: Context) returns (ids: seq<string>)
    requires Embodied(c)
    ensures forall id :: id in ids <==> Degrades(c, id)
  {
    ids := [];
    var sensors := c.body.value.sensors;
    for i := 0 to |sensors|
      invariant forall id :: id in ids <==> Degrades(c, id) && id in sensors[..i]
    {
      if sensors[i] !in c.body.value.requiredSensors && !c.backend.value.sensorOk(sensors[i]) {
        ids := ids + [sensors[i]];
      }
    }
    assert sensors[..|sensors|] == sensors;
  }

  /** The checks on the backend, in the order they are made. */
  method BackendReasons(c: Context) returns (rs: seq<Reason>)
    requires Embodied(c)
    ensures forall r :: r in rs <==> !r.SafetyUnhealthy? && !r.ServiceDown? && !r.BodyIssue? && Inhibits(c, r)
  {
    rs := if c.backend.value.battery < c.body.value.minBattery then [BatteryLow] else [];
    var missing := MissingActuators(c);
    var silent := SilentSensors(c);
    var faulty := FaultyActuators(c);
    var bus := if c.backend.value.busOnline then [] else [BusOffline];
    rs := rs + missing + silent + faulty + bus;
  }

  datatype Readiness = Readiness(state: DroidState, inhibit: seq<Reason>, degraded: seq<string>)

  /** The assessment lists exactly the conditions that hold, and its state follows from them. */
  ghost predicate Assessed(estop: bool, c: Context, r: Readiness) {
    && (estop ==> r == Readiness(EmergencyStopped, [EstopEngaged], []))
    && (!estop ==> Listed(c, r.inhibit, r.degraded))
    && (r.state == EmergencyStopped <==> estop)
    && (r.state == MotionInhibited <==> !estop && exists x :: Inhibits(c, x))
    && (r.state == Degraded <==> !estop && (forall x :: !Inhibits(c, x)) && exists id :: Degrades(c, id))
    && (r.state == Ready <==> !estop && (forall x :: !Inhibits(c, x)) && forall id :: !Degrades(c, id))
  }

  method Assess(estop: bool, c: Context) returns (r: Readiness)
    ensures Assessed(estop, c, r)
  {
    if estop {
      return Readiness(EmergencyStopped, [EstopEngaged], []);
    }
    var inhibit: seq<Reason> := if c.healthy then [] else [SafetyUnhealthy];
    var down := InactiveCritical(c);
    inhibit := inhibit + down;
    var degraded := [];
    if c.body.Some? {
      var issues := FatalIssues(c);
      inhibit := inhibit + issues;
      if c.backend.Some? {
        var more := BackendReasons(c);
        inhibit := inhibit + more;
        degraded := OptionalSensorsDown(c);
      }
    }
    assert Listed(c, inhibit, degraded) by {
      forall x ensures x in inhibit <==> Inhibits(c, x) {
      }
    }
    ListedEmpty(c, inhibit, degraded);
    r := if inhibit != [] then Readiness(MotionInhibited, inhibit, degraded)
         else if degraded != [] then Readiness(Degraded, [], degraded)
         else Readiness(Ready, [], []);
  }

  // ----- what being fit for motion means

  /** The services that motion needs, as far as they are registered. */
  predicate CriticalUp(services: map<string, L.Service>) {
    forall n :: n in {"safety_gateway", "state_estimator", "motion", "navigation"} && n in services ==> services[n].state == L.Active
  }

  predicate OnlyPlaceholders(b: Body) {
    forall i :: i in b.issues ==> Contains(i, "placeholder")
  }

  /** Enough battery, the bus online, required hardware present and responding, no actuator at fault. */
  predicate HardwareOk(b: Body, k: Readings) {
    && k.battery >= b.minBattery && k.busOnline
    && (forall a :: a in b.requiredActuators ==> a in k.actuatorNames)
    && (forall id :: id in b.requiredSensors ==> k.sensorOk(id))
    && (forall a :: a in k.actuators ==> a.faultCode == "")
  }

  predicate AllRespond(b: Body, k: Readings) {
    forall id :: id in b.sensors ==> k.sensorOk(id)
  }

  predicate FitForMotion(c: Context) {
    && c.healthy && CriticalUp(c.services)
    && (c.body.Some? ==> OnlyPlaceholders(c.body.value))
    && (c.body.Some? && c.backend.Some? ==> HardwareOk(c.body.value, c.backend.value))
  }

  /** A droid is found ready or degraded exactly if it is not stopped and fit for motion, and ready exactly if besides all its sensors respond. */
  lemma FoundFitIff(estop: bool, c: Context, r: Readiness)
    requires Assessed(estop, c, r)
    ensures r.state == Ready || r.state == Degraded <==> !estop && FitForMotion(c)
    ensures r.state == Ready <==> !estop && FitForMotion(c) && (c.body.Some? && c.backend.Some? ==> AllRespond(c.body.value, c.backend.value))
  {
    FitIff(c);
    if FitForMotion(c) {
      RespondIff(c);
    }
  }

  lemma RespondIff(c: Context)
    requires FitForMotion(c)
    ensures (forall id :: !Degrades(c, id)) <==> (c.body.Some? && c.backend.Some? ==> AllRespond(c.body.value, c.backend.value))
  {
    if Embodied(c) && forall id :: !Degrades(c, id) {
      forall id | id in c.body.value.sensors ensures c.backend.value.sensorOk(id) {
        assert !Degrades(c, id);
      }
    }
  }

  lemma FitIff(c: Context)
    ensures (forall x :: !Inhibits(c, x)) <==> FitForMotion(c)
  {
    if forall x :: !Inhibits(c, x) {
      FitServices(c);
      if c.body.Some? {
        FitBody(c);
        if c.backend.Some? {
          FitBackend(c);
        }
      }
    }
    if FitForMotion(c) {
      forall x ensures !Inhibits(c, x) {
        NothingInhibits(c, x);
      }
    }
  }

  lemma NothingInhibits(c: Context, x: Reason)
    requires FitForMotion(c)
    ensures !Inhibits(c, x)
  {
    if x.ServiceDown? && x.name in MOTION_CRITICAL {
      assert x.name in {"safety_gateway", "state_estimator", "motion", "navigation"};
    }
  }

  lemma FitServices(c: Context)
    requires forall x :: !Inhibits(c, x)
    ensures c.healthy && CriticalUp(c.services)
  {
    assert !Inhibits(c, SafetyUnhealthy);
    forall n | n in {"safety_gateway", "state_estimator", "motion", "navigation"} && n in c.services ensures c.services[n].state == L.Active {
      assert n in MOTION_CRITICAL;
      assert !Inhibits(c, ServiceDown(n));
    }
  }

  lemma FitBody(c: Context)
    requires c.body.Some? && forall x :: !Inhibits(c, x)
    ensures OnlyPlaceholders(c.body.value)
  {
    forall i | i in c.body.value.issues ensures Contains(i, "placeholder") {
      assert !Inhibits(c, BodyIssue(i));
    }
  }

  lemma FitBackend(c: Context)
    requires Embodied(c) && forall x :: !Inhibits(c, x)
    ensures HardwareOk(c.body.value, c.backend.value)
  {
    assert !Inhibits(c, BatteryLow) && !Inhibits(c, BusOffline);
    forall a | a in c.body.value.requiredActuators ensures a in c.backend.value.actuatorNames {
      assert !Inhibits(c, ActuatorMissing(a));
    }
    forall id | id in c.body.value.requiredSensors ensures c.backend.value.sensorOk(id) {
      assert !Inhibits(c, SensorDown(id));
    }
    forall a | a in c.backend.value.actuators ensures a.faultCode == "" {
      assert !Inhibits(c, ActuatorFault(a));
    }
  }

  /** The two lists are complete and list nothing else. */
  ghost predicate Listed(c: Context, inhibit: seq<Reason>, degraded: seq<string>) {
    && (forall x :: x in inhibit <==> Inhibits(c, x))
    && (forall id :: id in degraded <==> Degrades(c, id))
  }

  lemma ListedEmpty(c: Context, inhibit: seq<Reason>, degraded: seq<string>)
    requires Listed(c, inhibit, degraded)
    ensures inhibit != [] <==> exists x :: Inhibits(c, x)
    ensures degraded != [] <==> exists id :: Degrades(c, id)
  {
    if inhibit != [] {
      assert inhibit[0] in inhibit;
    }
    if degraded != [] {
      assert degraded[0] in degraded;
    }
  }
}
