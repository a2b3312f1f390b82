/** What the two passes publish, in literal condition types and reasons and in the fields of the
    cluster they observed. */
module StatusText {
  import opened Text
  import opened InstanceSpec
  import opened Identity
  import opened OldRecordings
  import opened PassLaws
  import opened InstanceStatus
  import opened StatusFixpoint

  /** The status is frozen exactly when it remembers another place. */
  lemma FrozenExactly(s: Status, o: Observation, m: Memory, version: string)
    requires WellFormed(o.spec) && Tagged(o.spec.tag, version) && Carries(s.appliedIdentity, s.migratedVersion, m)
    ensures Frozen(s, o) <==> !SameStores(m, Now(o.spec, version))
  {
    hide SameTarget, MigrationIdentity, RecordedIdentity, Carries, Now, SameStores;
    CarriedIsRead(s.appliedIdentity, s.migratedVersion, o.spec, m, version);
  }

  function ReadyReason(phase: string): string {
    match phase
    case "Running" => "AllComponentsReady"
    case "Pending" => "ComponentsStarting"
    case "Migrating" => "MigrationInProgress"
    case "Degraded" => "ComponentDegraded"
    case "Error" => "ReconcileError"
    case _ => "Unknown"
  }

  /** The pass that gets to deciding a phase. */
  predicate Decides(s: Status, o: Observation) {
    o.web != Unreadable && o.worker != Unreadable && (Frozen(s, o) || Buildable(o.spec))
  }

  /** Phase, readiness, version and conditions after such a pass. */
  lemma PhaseIsPublished(s: Status, o: Observation)
    requires Decides(s, o)
    ensures var t := InstancePass(s, o);
      && PhaseFits(t)
      && "Ready" in t.conditions
      && t.conditions["Ready"] == Condition(if t.phase == "Running" then True else False, ReadyReason(t.phase), ForPhase(t.phase))
      && t.version == (if Frozen(s, o) then s.version else o.spec.tag)
      && t.publicUrl == (if Frozen(s, o) then s.publicUrl else o.spec.publicUrl)
  {
    hide SameTarget, MigrationIdentity, RecordedIdentity, DerivePhase, PhaseFits, Frozen, Buildable, ConfigRejected;
    SpecConditions(o.spec);
    var t := Started(s);
    var edited := if Frozen(s, o) then t.(conditions := t.conditions[TARGET := FreezeCondition(s, o)])
                  else t.(conditions := WithDeprecation(t.conditions - {TARGET}, o));
    UpdatedFits(edited, o, !Frozen(s, o));
    FitsRunning(InstancePass(s, o));
  }

  lemma FitsRunning(t: Status)
    requires PhaseFits(t)
    ensures t.ready <==> t.phase == "Running"
  {
  }

  /** The freeze and the deprecation are announced exactly when they apply. */
  lemma NoticesArePublished(s: Status, o: Observation)
    requires Decides(s, o)
    ensures var t := InstancePass(s, o);
      && ("DatastoreTargetUnchanged" in t.conditions <==> Frozen(s, o))
      && (Frozen(s, o) ==>
            var changes := RetargetedComponents(RecordedIdentity(s.appliedIdentity, s.migratedVersion), MigrationIdentity(o.spec));
            t.conditions["DatastoreTargetUnchanged"] == Condition(False, "TargetChangedAfterMigration", Retargeted(changes)))
      && (Frozen(s, o) ==> SameCondition(s, t, "Deprecated"))
      && (!Frozen(s, o) ==> ("Deprecated" in t.conditions <==> o.deprecated.Some?))
      && (!Frozen(s, o) && o.deprecated.Some? ==>
            t.conditions["Deprecated"] == Condition(True, "ManagedDatastoresDeprecated", o.deprecated.value))
  {
    hide SameTarget, MigrationIdentity, RecordedIdentity, DerivePhase, Frozen, Buildable, ConfigRejected;
    SpecConditions(o.spec);
    KindsDiffer();
  }

  /** Replica counts are the observed ones; pods are shown for a Deployment that is not fully
      ready; a missing Deployment leaves its entry, and the breaker's fields stay. */
  lemma ComponentsArePublished(s: Status, o: Observation)
    requires Decides(s, o)
    ensures var t := InstancePass(s, o);
      && (o.web.Found? ==> t.web == Some(Component(o.web.replicas, o.web.ready, o.endpoint, ShownPods(o.web))))
      && (o.web.Missing? ==> t.web == s.web)
      && (o.worker.Found? ==>
            && t.worker.Some?
            && t.worker.value.component.replicas == o.worker.replicas && t.worker.value.component.ready == o.worker.ready
            && t.worker.value.component.issues == ShownPods(o.worker))
      && (o.worker.Missing? ==> t.worker == s.worker)
  {
    hide SameTarget, MigrationIdentity, RecordedIdentity, DerivePhase, Frozen, Buildable, ConfigRejected, ReadyCondition, WithDeprecation;
    SpecConditions(o.spec);
  }

  function ShownPods(d: Deployment): seq<PodIssues.PodIssue>
    requires d.Found?
  {
    match d.pods
    case Some(pods) => if d.ready < d.replicas || d.ready <= 0 then pods else []
    case None => []
  }

  /** A configuration error names itself and changes nothing else but a first phase and a freeze
      notice; a Deployment that cannot be read keeps the pass from writing. */
  lemma OtherPasses(s: Status, o: Observation)
    ensures !Frozen(s, o) && !Buildable(o.spec) ==>
      InstancePass(s, o) == s.(
        phase := if s.phase == "" then "Pending" else s.phase,
        conditions := (s.conditions - {"DatastoreTargetUnchanged"})["Ready" := Condition(False, "ConfigError", Nothing)])
    ensures (Frozen(s, o) || Buildable(o.spec)) && (o.web.Unreadable? || o.worker.Unreadable?) ==> InstancePass(s, o) == s
  {
    hide SameTarget, MigrationIdentity, RecordedIdentity, DerivePhase, Frozen, Buildable, ConfigRejected, Updated;
    SpecConditions(o.spec);
  }

  // ----- the health monitor -----

  predicate Shows(t: Status, kind: string, p: Probe) {
    && kind in t.conditions && t.conditions[kind].reason == p.reason && t.conditions[kind].message == Probed(p.text)
    && t.conditions[kind].status == (if p.connected then True else False)
  }

  /** Nothing is probed while a migration is under way. */
  predicate Quiet(s: Status) {
    Says(s, "MigrationsComplete", False) && s.conditions["MigrationsComplete"].reason != "MigrationFailed"
  }

  /** Every store's condition and flag show its own probe. */
  lemma ProbesArePublished(s: Status, o: Observation)
    ensures Quiet(s) ==> HealthPass(s, o) == s
    ensures !Quiet(s) ==> var t := HealthPass(s, o);
      && Shows(t, "DatabaseReady", o.database) && t.databaseConnected == Some(o.database.connected)
      && Shows(t, "ClickHouseReady", o.clickHouse) && t.clickHouseConnected == Some(o.clickHouse.connected)
      && Shows(t, "RedisReady", o.redis) && t.redisConnected == Some(o.redis.connected)
      && (o.blob.Some? ==>
            Shows(t, "BlobStorageReady", o.blob.value.0) && t.blob == Some(BlobStatus(o.blob.value.0.connected, o.blob.value.1)))
      && (o.blob.None? ==>
            "BlobStorageReady" in t.conditions && t.conditions["BlobStorageReady"] == Condition(True, "NotConfigured", Nothing) && t.blob == s.blob)
  {
    hide CheckDeployment;
    KindsDiffer();
    ProbedKinds();
  }

  lemma ProbedKinds()
    ensures |{DATABASE, CLICKHOUSE, REDIS, BLOB, WEB, WORKER}| == 6
  {
    assert DATABASE[0] == 'D' && CLICKHOUSE[0] == 'C' && REDIS[0] == 'R' && BLOB[0] == 'B';
    assert WEB[0] == 'W' && WORKER[0] == 'W' && WEB[1] == 'e' && WORKER[1] == 'o';
  }

  /** How a Deployment is judged, per way it can be found. */
  predicate Judged(c: Condition, issues: seq<PodIssues.PodIssue>, d: Deployment) {
    match d
    case Missing => c.status == False && c.reason == "DeploymentNotFound" && issues == []
    case Unreadable => c.status == False && c.reason == "FetchError" && issues == []
    case Found(replicas, ready, pods) =>
      && (c.status == True <==> ready > 0 && ready >= replicas)
      && (c.status == True <==> c.reason == "DeploymentReady" && c.message == Replicas(ready, replicas))
      && (c.status != True ==> c.status == False)
      && issues == ShownPods(d)
      && (c.status == False && issues == [] ==> c.reason == "DeploymentNotReady" && c.message == Replicas(ready, replicas))
      && (c.status == False && issues != [] ==> c.reason == issues[0].reason && c.message == Diagnosed(ready, replicas, issues))
  }

  lemma DeploymentsAreJudged(s: Status, o: Observation)
    requires !Quiet(s)
    ensures var t := HealthPass(s, o);
      && "WebReady" in t.conditions && t.web.Some? && Judged(t.conditions["WebReady"], t.web.value.issues, o.web)
      && "WorkerReady" in t.conditions && t.worker.Some?
      && Judged(t.conditions["WorkerReady"], t.worker.value.component.issues, o.worker)
  {
    hide ProbeCondition, BlobCondition, Judged, CheckDeployment;
    KindsDiffer();
    ProbedKinds();
    CheckIsJudged(o.web);
    CheckIsJudged(o.worker);
  }

  lemma CheckIsJudged(d: Deployment)
    ensures Judged(CheckDeployment(d).0, CheckDeployment(d).1, d)
  {
  }

  /** The health monitor touches six condition types and leaves what the pass decides alone. */
  lemma HealthKeeps(s: Status, o: Observation, kind: string)
    requires kind !in {"DatabaseReady", "ClickHouseReady", "RedisReady", "BlobStorageReady", "WebReady", "WorkerReady"}
    ensures SameCondition(s, HealthPass(s, o), kind)
    ensures var t := HealthPass(s, o);
      && t.phase == s.phase && t.ready == s.ready && t.version == s.version && t.publicUrl == s.publicUrl
      && t.appliedIdentity == s.appliedIdentity && t.migratedVersion == s.migratedVersion && t.migrationIssues == s.migrationIssues
  {
    hide ProbeCondition, BlobCondition, CheckDeployment;
  }
}
