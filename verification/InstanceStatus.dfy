/** The status two controllers write from different passes: the instance controller decides
    the phase, the health monitor publishes the conditions the phase is derived from. */
module InstanceStatus {
  import opened Text
  import opened InstanceSpec
  import opened Identity
  import opened PodIssues

  datatype ConditionStatus = True | False | Unknown

  datatype Message =
    | Nothing
    | Probed(text: string)
    | ForPhase(phase: string)
    | Replicas(ready: int, total: int)
    | Diagnosed(ready: int, total: int, issues: seq<PodIssue>)
    | Retargeted(changes: seq<Change>)

  datatype Condition = Condition(status: ConditionStatus, reason: string, message: Message)

  datatype Component = Component(replicas: int, ready: int, endpoint: string, issues: seq<PodIssue>)

  datatype Worker = Worker(component: Component, breakerActive: bool, breakerReason: string)

  datatype BlobStatus = BlobStatus(connected: bool, provider: string)

  datatype Status = Status(
    phase: string,
    ready: bool,
    version: string,
    publicUrl: string,
    conditions: map<string, Condition>,
    web: Option<Component>,
    worker: Option<Worker>,
    databaseConnected: Option<bool>,
    clickHouseConnected: Option<bool>,
    redisConnected: Option<bool>,
    blob: Option<BlobStatus>,
    migrationIssues: seq<PodIssue>,
    appliedIdentity: string,
    migratedVersion: string)

  const MIGRATIONS := "MigrationsComplete"
  const TARGET := "DatastoreTargetUnchanged"
  const DEPRECATED := "Deprecated"
  const READY := "Ready"
  const DATABASE := "DatabaseReady"
  const CLICKHOUSE := "ClickHouseReady"
  const REDIS := "RedisReady"
  const BLOB := "BlobStorageReady"
  const WEB := "WebReady"
  const WORKER := "WorkerReady"

  const DEPENDENCIES: seq<string> := [DATABASE, CLICKHOUSE, REDIS, BLOB]

  const MIGRATION_FAILED := "MigrationFailed"

  const PENDING := "Pending"
  const MIGRATING := "Migrating"
  const RUNNING := "Running"
  const DEGRADED := "Degraded"
  const ERROR := "Error"

  // ----- what a pass observes -----

  datatype Probe = Probe(connected: bool, reason: string, text: string)

  /** A Deployment as read, with the pod issues behind it; `None` when listing pods failed. */
  datatype Deployment = Missing | Unreadable | Found(replicas: int, ready: int, pods: Option<seq<PodIssue>>)

  datatype Observation = Observation(
    spec: Spec,
    endpoint: string,
    deprecated: Option<Message>,
    web: Deployment,
    worker: Deployment,
    database: Probe,
    clickHouse: Probe,
    redis: Probe,
    blob: Option<(Probe, string)>)

  predicate FullyReady(d: Deployment)
    requires d.Found?
  {
    d.ready > 0 && d.ready >= d.replicas
  }

  /** No issues on a ready Deployment; diagnostics are best effort otherwise. */
  function IssuesFor(d: Deployment): seq<PodIssue>
    requires d.Found?
  {
    if FullyReady(d) || d.pods.None? then [] else d.pods.value
  }

  // ----- the phase -----

  predicate Unhealthy(s: Status, dependency: string) {
    dependency in s.conditions && s.conditions[dependency].status != True
  }

  predicate AnyUnhealthy(s: Status) {
    exists k :: 0 <= k < |DEPENDENCIES| && Unhealthy(s, DEPENDENCIES[k])
  }

  predicate AllHealthy(s: Status) {
    forall k :: 0 <= k < |DEPENDENCIES| ==>
      DEPENDENCIES[k] in s.conditions && s.conditions[DEPENDENCIES[k]].status == True
  }

  predicate TargetChanged(s: Status) {
    TARGET in s.conditions && s.conditions[TARGET].status == False
  }

  predicate MigrationRunning(s: Status) {
    MIGRATIONS in s.conditions && s.conditions[MIGRATIONS].status == False && s.conditions[MIGRATIONS].reason != MIGRATION_FAILED
  }

  predicate MigrationFailed(s: Status) {
    MIGRATIONS in s.conditions && s.conditions[MIGRATIONS].status == False && s.conditions[MIGRATIONS].reason == MIGRATION_FAILED
  }

  predicate AnyFatalIssue(s: Status) {
    || (s.web.Some? && HasFatal(s.web.value.issues))
    || (s.worker.Some? && HasFatal(s.worker.value.component.issues))
    || HasFatal(s.migrationIssues)
  }

  predicate ComponentsReady(s: Status) {
    s.web.Some? && s.web.value.ready > 0 && s.worker.Some? && s.worker.value.component.ready > 0
  }

  function DerivePhase(s: Status): (string, bool) {
    if TargetChanged(s) then (ERROR, false)
    else if MigrationFailed(s) || AnyFatalIssue(s) then (ERROR, false)
    else if MigrationRunning(s) then (MIGRATING, false)
    else if !ComponentsReady(s) then (PENDING, false)
    else if AnyUnhealthy(s) then (DEGRADED, false)
    else if AllHealthy(s) then (RUNNING, true)
    else (PENDING, false)
  }

  // ----- the phase, in the words of the conditions -----

  predicate Says(s: Status, kind: string, status: ConditionStatus) {
    kind in s.conditions && s.conditions[kind].status == status
  }

  predicate BadPod(issues: seq<PodIssue>) {
    exists i :: i in issues && i.fatal
  }

  /** Frozen on another target, a migration that failed, or a pod that only a human can help. */
  predicate Broken(s: Status) {
    || Says(s, "DatastoreTargetUnchanged", False)
    || (Says(s, "MigrationsComplete", False) && s.conditions["MigrationsComplete"].reason == "MigrationFailed")
    || (s.web.Some? && BadPod(s.web.value.issues))
    || (s.worker.Some? && BadPod(s.worker.value.component.issues))
    || BadPod(s.migrationIssues)
  }

  predicate Serving(s: Status) {
    s.web.Some? && s.web.value.ready > 0 && s.worker.Some? && s.worker.value.component.ready > 0
  }

  predicate Reported(s: Status, kind: string) {
    kind in s.conditions
  }

  predicate Sick(s: Status) {
    || (Reported(s, "DatabaseReady") && !Says(s, "DatabaseReady", True))
    || (Reported(s, "ClickHouseReady") && !Says(s, "ClickHouseReady", True))
    || (Reported(s, "RedisReady") && !Says(s, "RedisReady", True))
    || (Reported(s, "BlobStorageReady") && !Says(s, "BlobStorageReady", True))
  }

  predicate Well(s: Status) {
    && Says(s, "DatabaseReady", True) && Says(s, "ClickHouseReady", True)
    && Says(s, "RedisReady", True) && Says(s, "BlobStorageReady", True)
  }

  /** The phase and the flag are the ones the other facts of the status call for. */
  predicate PhaseFits(s: Status) {
    var undecided := !Broken(s) && !Says(s, "MigrationsComplete", False);
    && (s.phase == "Error" <==> Broken(s))
    && (s.phase == "Migrating" <==> !Broken(s) && Says(s, "MigrationsComplete", False))
    && (s.phase == "Degraded" <==> undecided && Serving(s) && Sick(s))
    && (s.phase == "Running" <==> undecided && Serving(s) && Well(s))
    && (s.phase == "Pending" <==> undecided && !(Serving(s) && (Sick(s) || Well(s))))
    && (s.ready <==> s.phase == "Running")
  }

  lemma DerivedPhaseFits(s: Status)
    requires (s.phase, s.ready) == DerivePhase(s)
    ensures PhaseFits(s)
  {
    hide MigrationFailed, MigrationRunning, TargetChanged, AnyFatalIssue, ComponentsReady, AnyUnhealthy, AllHealthy,
      Broken, Serving, Sick, Well, Says;
    BrokenMeans(s);
    HealthMeans(s);
    PhasesDiffer();
  }

  lemma PhasesDiffer()
    ensures PENDING[0] == 'P' && MIGRATING[0] == 'M' && RUNNING[0] == 'R' && DEGRADED[0] == 'D' && ERROR[0] == 'E'
  {
  }

  lemma BrokenMeans(s: Status)
    ensures Broken(s) <==> TargetChanged(s) || MigrationFailed(s) || AnyFatalIssue(s)
    ensures Says(s, "MigrationsComplete", False) <==> MigrationFailed(s) || MigrationRunning(s)
    ensures Serving(s) <==> ComponentsReady(s)
  {
    hide HasFatal, BadPod;
    FatalMeans(s.migrationIssues);
    if s.web.Some? { FatalMeans(s.web.value.issues); }
    if s.worker.Some? { FatalMeans(s.worker.value.component.issues); }
  }

  lemma FatalMeans(issues: seq<PodIssue>)
    ensures HasFatal(issues) <==> BadPod(issues)
  {
    if i :| i in issues && i.fatal {
      var k :| 0 <= k < |issues| && issues[k] == i;
      assert issues[k].fatal;
    }
  }

  lemma HealthMeans(s: Status)
    ensures Sick(s) <==> AnyUnhealthy(s)
    ensures Well(s) <==> AllHealthy(s)
    ensures !(Sick(s) && Well(s))
  {
    var d := DEPENDENCIES;
    assert |d| == 4 && d[0] == "DatabaseReady" && d[1] == "ClickHouseReady" && d[2] == "RedisReady" && d[3] == "BlobStorageReady";
    if Sick(s) {
      assert Unhealthy(s, d[0]) || Unhealthy(s, d[1]) || Unhealthy(s, d[2]) || Unhealthy(s, d[3]);
    }
    if AnyUnhealthy(s) {
      var k :| 0 <= k < |d| && Unhealthy(s, d[k]);
      assert k == 0 || k == 1 || k == 2 || k == 3;
    }
  }

  function PhaseReason(phase: string): string {
    if phase == RUNNING then "AllComponentsReady"
    else if phase == PENDING then "ComponentsStarting"
    else if phase == MIGRATING then "MigrationInProgress"
    else if phase == DEGRADED then "ComponentDegraded"
    else if phase == ERROR then "ReconcileError"
    else "Unknown"
  }

  // ----- the instance controller's pass -----

  predicate Frozen(s: Status, o: Observation) {
    !SameTarget(RecordedIdentity(s.appliedIdentity, s.migratedVersion), MigrationIdentity(o.spec))
  }

  predicate Readable(o: Observation) {
    !o.web.Unreadable? && !o.worker.Unreadable?
  }

  function ObservedWeb(s: Status, o: Observation): Option<Component> {
    if o.web.Found? then Some(Component(o.web.replicas, o.web.ready, o.endpoint, IssuesFor(o.web))) else s.web
  }

  /** The breaker's two fields are carried over; the rest of the worker is rewritten. */
  function ObservedWorker(s: Status, o: Observation): Option<Worker> {
    if !o.worker.Found? then s.worker
    else
      var was := if s.worker.Some? then s.worker.value else Worker(Component(0, 0, "", []), false, "");
      Some(was.(component := was.component.(
        replicas := o.worker.replicas, ready := o.worker.ready, issues := IssuesFor(o.worker))))
  }

  function Refreshed(s: Status, o: Observation): Status {
    s.(web := ObservedWeb(s, o), worker := ObservedWorker(s, o))
  }

  function ReadyCondition(phase: string, ready: bool): Condition {
    Condition(if ready then True else False, PhaseReason(phase), ForPhase(phase))
  }

  /** Observed state, then the phase, then - only if the Deployments were applied - what is
      running. */
  function Updated(s: Status, o: Observation, applied: bool): Status {
    var r := Refreshed(s, o);
    var (phase, ready) := DerivePhase(r);
    r.(phase := phase,
       ready := ready,
       version := if applied then o.spec.tag else r.version,
       publicUrl := if applied then o.spec.publicUrl else r.publicUrl,
       conditions := r.conditions[READY := ReadyCondition(phase, ready)])
  }

  /** What a pass publishes last fits its own phase: the Ready condition is not among the facts. */
  lemma UpdatedFits(s: Status, o: Observation, applied: bool)
    ensures PhaseFits(Updated(s, o, applied))
  {
    hide DerivePhase, ReadyCondition, Refreshed, PhaseFits;
    var r := Refreshed(s, o);
    var (phase, ready) := DerivePhase(r);
    var decided := r.(phase := phase, ready := ready);
    DecisionFits(r);
    FitsIgnoresReady(decided, Updated(s, o, applied), ReadyCondition(phase, ready));
  }

  lemma DerivedIgnoresPhase(s: Status, t: Status)
    requires t == s.(phase := t.phase, ready := t.ready)
    ensures DerivePhase(s) == DerivePhase(t)
  {
    assert forall k :: 0 <= k < |DEPENDENCIES| ==> (Unhealthy(s, DEPENDENCIES[k]) <==> Unhealthy(t, DEPENDENCIES[k]));
    assert AnyUnhealthy(s) <==> AnyUnhealthy(t);
    assert AllHealthy(s) <==> AllHealthy(t);
  }

  lemma DecisionFits(s: Status)
    ensures PhaseFits(s.(phase := DerivePhase(s).0, ready := DerivePhase(s).1))
  {
    hide DerivePhase, PhaseFits;
    var decided := s.(phase := DerivePhase(s).0, ready := DerivePhase(s).1);
    DerivedIgnoresPhase(s, decided);
    DerivedPhaseFits(decided);
  }

  lemma FitsIgnoresReady(s: Status, t: Status, c: Condition)
    requires PhaseFits(s)
    requires t.phase == s.phase && t.ready == s.ready && t.web == s.web && t.worker == s.worker && t.migrationIssues == s.migrationIssues
    requires t.conditions == s.conditions[READY := c]
    ensures PhaseFits(t)
  {
    assert READY[0] == 'R' && READY[2] == 'a' && "RedisReady"[2] == 'd';
    hide BadPod;
  }

  function FreezeCondition(s: Status, o: Observation): Condition {
    Condition(False, "TargetChangedAfterMigration",
      Retargeted(RetargetedComponents(RecordedIdentity(s.appliedIdentity, s.migratedVersion), MigrationIdentity(o.spec))))
  }

  function WithDeprecation(conditions: map<string, Condition>, o: Observation): map<string, Condition> {
    if o.deprecated.None? then conditions - {DEPRECATED}
    else conditions[DEPRECATED := Condition(True, "ManagedDatastoresDeprecated", o.deprecated.value)]
  }

  const CONFIG_ERROR := Condition(False, "ConfigError", Nothing)

  function Started(s: Status): Status {
    if s.phase == "" then s.(phase := PENDING) else s
  }

  /** What the pass would write; a Deployment that cannot be read ends it without a write. */
  function InstancePass(s: Status, o: Observation): Status {
    var t := Started(s);
    if Frozen(s, o) then
      if Readable(o) then Updated(t.(conditions := t.conditions[TARGET := FreezeCondition(s, o)]), o, false) else s
    else if ConfigRejected(o.spec) then
      t.(conditions := (t.conditions - {TARGET})[READY := CONFIG_ERROR])
    else if Readable(o) then
      Updated(t.(conditions := WithDeprecation(t.conditions - {TARGET}, o)), o, true)
    else s
  }

  // ----- the health monitor's pass -----

  function ProbeCondition(p: Probe): Condition {
    Condition(if p.connected then True else False, p.reason, Probed(p.text))
  }

  function BlobCondition(o: Observation): Condition {
    if o.blob.None? then Condition(True, "NotConfigured", Nothing) else ProbeCondition(o.blob.value.0)
  }

  function CheckDeployment(d: Deployment): (Condition, seq<PodIssue>) {
    match d
    case Missing => (Condition(False, "DeploymentNotFound", Nothing), [])
    case Unreadable => (Condition(False, "FetchError", Nothing), [])
    case Found(replicas, ready, pods) =>
      if FullyReady(d) then (Condition(True, "DeploymentReady", Replicas(ready, replicas)), [])
      else if pods.None? || pods.value == [] then
        (Condition(False, "DeploymentNotReady", Replicas(ready, replicas)), [])
      else (Condition(False, pods.value[0].reason, Diagnosed(ready, replicas, pods.value)), pods.value)
  }

  function HealthConditions(o: Observation): map<string, Condition> {
    map[DATABASE := ProbeCondition(o.database),
        CLICKHOUSE := ProbeCondition(o.clickHouse),
        REDIS := ProbeCondition(o.redis),
        BLOB := BlobCondition(o),
        WEB := CheckDeployment(o.web).0,
        WORKER := CheckDeployment(o.worker).0]
  }

  function CheckedWeb(s: Status, d: Deployment): Component {
    var web := if s.web.Some? then s.web.value else Component(0, 0, "", []);
    web.(issues := CheckDeployment(d).1)
  }

  function CheckedWorker(s: Status, d: Deployment): Worker {
    var worker := if s.worker.Some? then s.worker.value else Worker(Component(0, 0, "", []), false, "");
    worker.(component := worker.component.(issues := CheckDeployment(d).1))
  }

  function HealthPass(s: Status, o: Observation): Status {
    if MigrationRunning(s) then s
    else
      s.(conditions := s.conditions + HealthConditions(o),
         databaseConnected := Some(o.database.connected),
         clickHouseConnected := Some(o.clickHouse.connected),
         redisConnected := Some(o.redis.connected),
         blob := if o.blob.None? then s.blob else Some(BlobStatus(o.blob.value.0.connected, o.blob.value.1)),
         web := Some(CheckedWeb(s, o.web)),
         worker := Some(CheckedWorker(s, o.worker)))
  }

  // ----- the passes as the controllers make them: edits to one object in place -----

  class InstanceObject {
    var phase: string
    var ready: bool
    var version: string
    var publicUrl: string
    var conditions: map<string, Condition>
    var web: Option<Component>
    var worker: Option<Worker>
    var databaseConnected: Option<bool>
    var clickHouseConnected: Option<bool>
    var redisConnected: Option<bool>
    var blob: Option<BlobStatus>
    var migrationIssues: seq<PodIssue>
    var appliedIdentity: string
    var migratedVersion: string

    function Value(): Status
      reads this
    {
      Status(phase, ready, version, publicUrl, conditions, web, worker, databaseConnected,
             clickHouseConnected, redisConnected, blob, migrationIssues, appliedIdentity, migratedVersion)
    }

    constructor (s: Status)
      ensures Value() == s
    {
      phase, ready, version, publicUrl := s.phase, s.ready, s.version, s.publicUrl;
      conditions, web, worker := s.conditions, s.web, s.worker;
      databaseConnected, clickHouseConnected := s.databaseConnected, s.clickHouseConnected;
      redisConnected, blob, migrationIssues := s.redisConnected, s.blob, s.migrationIssues;
      appliedIdentity, migratedVersion := s.appliedIdentity, s.migratedVersion;
    }

    /** Stops at the first unhealthy dependency. */
    method DependencyHealth() returns (anyUnhealthy: bool, allHealthy: bool)
      ensures anyUnhealthy == AnyUnhealthy(Value())
      ensures allHealthy == AllHealthy(Value())
    {
      allHealthy := true;
      for i := 0 to |DEPENDENCIES|
        invariant forall k :: 0 <= k < i ==> !Unhealthy(Value(), DEPENDENCIES[k])
        invariant allHealthy <==> forall k :: 0 <= k < i ==> DEPENDENCIES[k] in conditions
      {
        var kind := DEPENDENCIES[i];
        if kind !in conditions {
          allHealthy := false;
        } else if conditions[kind].status != True {
          assert Unhealthy(Value(), DEPENDENCIES[i]);
          return true, false;
        }
      }
      return false, allHealthy;
    }

    method Derive() returns (newPhase: string, newReady: bool)
      ensures (newPhase, newReady) == DerivePhase(Value())
      ensures PhaseFits(Value().(phase := newPhase, ready := newReady))
    {
      hide PhaseFits;
      DecisionFits(Value());
      var anyUnhealthy, allHealthy := DependencyHealth();
      var s := Value();
      if TargetChanged(s) || MigrationFailed(s) || AnyFatalIssue(s) {
        return ERROR, false;
      } else if MigrationRunning(s) {
        return MIGRATING, false;
      } else if !ComponentsReady(s) {
        return PENDING, false;
      } else if anyUnhealthy {
        return DEGRADED, false;
      } else if allHealthy {
        return RUNNING, true;
      }
      return PENDING, false;
    }

    method SetCondition(kind: string, c: Condition)
      modifies `conditions
      ensures conditions == old(conditions)[kind := c]
    {
      conditions := conditions[kind := c];
    }

    method Refresh(o: Observation)
      modifies `web, `worker
      ensures web == ObservedWeb(old(Value()), o) && worker == ObservedWorker(old(Value()), o)
    {
      if o.web.Found? {
        web := Some(Component(o.web.replicas, o.web.ready, o.endpoint, IssuesFor(o.web)));
      }
      if o.worker.Found? {
        if worker.None? {
          worker := Some(Worker(Component(0, 0, "", []), false, ""));
        }
        var c := worker.value.component.(replicas := o.worker.replicas, ready := o.worker.ready, issues := IssuesFor(o.worker));
        worker := Some(worker.value.(component := c));
      }
    }

    method UpdateStatus(o: Observation, applied: bool)
      requires Readable(o)
      modifies this
      ensures Value() == Updated(old(Value()), o, applied) && PhaseFits(Value())
    {
      hide DerivePhase, ObservedWeb, ObservedWorker, ReadyCondition, PhaseFits;
      UpdatedFits(Value(), o, applied);
      Refresh(o);
      assert Value() == Refreshed(old(Value()), o);
      phase, ready := Derive();
      if applied {
        version, publicUrl := o.spec.tag, o.spec.publicUrl;
      }
      SetCondition(READY, ReadyCondition(phase, ready));
    }

    /** Returns whether the pass got as far as its status write. */
    method ReconcileInstance(o: Observation) returns (writes: bool)
      modifies this
      ensures writes ==> Value() == InstancePass(old(Value()), o)
      ensures !writes ==> InstancePass(old(Value()), o) == old(Value())
      ensures writes && (Frozen(old(Value()), o) || !ConfigRejected(o.spec)) ==> PhaseFits(Value())
    {
      hide SameTarget, MigrationIdentity, Updated, RecordedIdentity, PhaseFits;
      ghost var s := Value();
      if phase == "" {
        phase := PENDING;
      }
      if !SameTarget(RecordedIdentity(appliedIdentity, migratedVersion), MigrationIdentity(o.spec)) {
        assert Frozen(s, o);
        SetCondition(TARGET, FreezeCondition(Value(), o));
        if !Readable(o) {
          return false;
        }
        UpdateStatus(o, false);
        return true;
      }
      assert !Frozen(s, o);
      conditions := conditions - {TARGET};
      if ConfigRejected(o.spec) {
        SetCondition(READY, CONFIG_ERROR);
        return true;
      }
      if o.deprecated.None? {
        conditions := conditions - {DEPRECATED};
      } else {
        SetCondition(DEPRECATED, Condition(True, "ManagedDatastoresDeprecated", o.deprecated.value));
      }
      if !Readable(o) {
        return false;
      }
      assert Value() == Started(s).(conditions := WithDeprecation(Started(s).conditions - {TARGET}, o));
      UpdateStatus(o, true);
      return true;
    }

    method CheckStores(o: Observation)
      modifies `databaseConnected, `clickHouseConnected, `redisConnected, `blob, `conditions
      ensures databaseConnected == Some(o.database.connected)
      ensures clickHouseConnected == Some(o.clickHouse.connected)
      ensures redisConnected == Some(o.redis.connected)
      ensures blob == if o.blob.None? then old(blob) else Some(BlobStatus(o.blob.value.0.connected, o.blob.value.1))
      ensures conditions == old(conditions)[DATABASE := ProbeCondition(o.database)][CLICKHOUSE := ProbeCondition(o.clickHouse)]
                              [REDIS := ProbeCondition(o.redis)][BLOB := BlobCondition(o)]
    {
      databaseConnected := Some(o.database.connected);
      SetCondition(DATABASE, ProbeCondition(o.database));
      clickHouseConnected := Some(o.clickHouse.connected);
      SetCondition(CLICKHOUSE, ProbeCondition(o.clickHouse));
      redisConnected := Some(o.redis.connected);
      SetCondition(REDIS, ProbeCondition(o.redis));
      if o.blob.Some? {
        blob := Some(BlobStatus(o.blob.value.0.connected, o.blob.value.1));
      }
      SetCondition(BLOB, BlobCondition(o));
    }

    method CheckWeb(d: Deployment)
      modifies `web, `conditions
      ensures web == Some(CheckedWeb(old(Value()), d)) && conditions == old(conditions)[WEB := CheckDeployment(d).0]
    {
      var check := CheckDeployment(d);
      if web.None? {
        web := Some(Component(0, 0, "", []));
      }
      web := Some(web.value.(issues := check.1));
      SetCondition(WEB, check.0);
    }

    method CheckWorker(d: Deployment)
      modifies `worker, `conditions
      ensures worker == Some(CheckedWorker(old(Value()), d)) && conditions == old(conditions)[WORKER := CheckDeployment(d).0]
    {
      var check := CheckDeployment(d);
      if worker.None? {
        worker := Some(Worker(Component(0, 0, "", []), false, ""));
      }
      worker := Some(worker.value.(component := worker.value.component.(issues := check.1)));
      SetCondition(WORKER, check.0);
    }

    method ReconcileHealth(o: Observation)
      modifies this
      ensures Value() == HealthPass(old(Value()), o)
    {
      hide CheckDeployment, ProbeCondition, BlobCondition, MigrationRunning, HealthConditions;
      if MigrationRunning(Value()) {
        return;
      }
      CheckStores(o);
      CheckWeb(o.web);
      CheckWorker(o.worker);
      OneByOne(old(conditions), o);
    }
  }

  /** Setting the six conditions one after the other is setting them together. */
  lemma OneByOne(c: map<string, Condition>, o: Observation)
    ensures c[DATABASE := ProbeCondition(o.database)][CLICKHOUSE := ProbeCondition(o.clickHouse)][REDIS := ProbeCondition(o.redis)]
             [BLOB := BlobCondition(o)][WEB := CheckDeployment(o.web).0][WORKER := CheckDeployment(o.worker).0]
            == c + HealthConditions(o)
  {
    hide CheckDeployment, ProbeCondition, BlobCondition;
  }
}
