/** Quiescence: with the spec and the cluster holding still, the instance controller and the
    health monitor write status at most three times between them, and then never again. */
module StatusFixpoint {
  import opened Text
  import opened InstanceSpec
  import opened Identity
  import opened InstanceStatus

  datatype Actor = InstanceController | HealthMonitor

  function Pass(a: Actor, s: Status, o: Observation): Status {
    if a == InstanceController then InstancePass(s, o) else HealthPass(s, o)
  }

  // ----- what each pass leaves alone -----

  predicate SameCondition(s: Status, t: Status, kind: string) {
    (kind in s.conditions <==> kind in t.conditions) &&
    (kind in s.conditions ==> s.conditions[kind] == t.conditions[kind])
  }

  const OWN: seq<string> := [TARGET, DEPRECATED, READY]

  /** The instance controller writes three condition types, and no datastore status. */
  lemma InstancePassKeeps(s: Status, o: Observation, kind: string)
    requires kind != TARGET && kind != DEPRECATED && kind != READY
    ensures SameCondition(s, InstancePass(s, o), kind)
    ensures var t := InstancePass(s, o);
      && t.databaseConnected == s.databaseConnected && t.clickHouseConnected == s.clickHouseConnected
      && t.redisConnected == s.redisConnected && t.blob == s.blob && t.migrationIssues == s.migrationIssues
      && t.appliedIdentity == s.appliedIdentity && t.migratedVersion == s.migratedVersion
  {
    hide SameTarget, MigrationIdentity, RecordedIdentity, DerivePhase, FreezeCondition;
  }

  lemma KindsDiffer()
    ensures DATABASE !in OWN && CLICKHOUSE !in OWN && REDIS !in OWN && BLOB !in OWN && WEB !in OWN && WORKER !in OWN
    ensures MIGRATIONS !in OWN
    ensures MIGRATIONS !in {DATABASE, CLICKHOUSE, REDIS, BLOB, WEB, WORKER}
    ensures TARGET != DEPRECATED && TARGET != READY && DEPRECATED != READY
  {
    assert DATABASE[0] == 'D' && DATABASE[1] == 'a' && CLICKHOUSE[0] == 'C' && REDIS[0] == 'R' && REDIS[2] == 'd';
    assert BLOB[0] == 'B' && WEB[0] == 'W' && WORKER[0] == 'W' && MIGRATIONS[0] == 'M';
    assert TARGET[0] == 'D' && TARGET[1] == 'a' && TARGET[4] == 's' && DATABASE[4] == 'b';
    assert DEPRECATED[0] == 'D' && DEPRECATED[1] == 'e' && READY[0] == 'R' && READY[2] == 'a';
  }

  /** The fatal-issue and readiness inputs of the phase are the observed ones after a pass. */
  lemma RefreshTwice(s: Status, o: Observation)
    ensures Refreshed(Refreshed(s, o), o) == Refreshed(s, o)
  {
  }

  /** The phase depends on nothing the phase decision itself writes. */
  lemma PhaseIgnoresItsOutput(s: Status, t: Status)
    requires s.web == t.web && s.worker == t.worker && s.migrationIssues == t.migrationIssues
    requires forall kind :: kind != READY && kind != DEPRECATED ==> SameCondition(s, t, kind)
    ensures DerivePhase(s) == DerivePhase(t)
  {
    KindsDiffer();
    forall k | 0 <= k < |DEPENDENCIES| ensures SameCondition(s, t, DEPENDENCIES[k]) && DEPENDENCIES[k] !in OWN {
      assert DEPENDENCIES[k] in {DATABASE, CLICKHOUSE, REDIS, BLOB};
    }
    assert SameCondition(s, t, TARGET) && SameCondition(s, t, MIGRATIONS);
    assert forall k :: 0 <= k < |DEPENDENCIES| ==> (Unhealthy(s, DEPENDENCIES[k]) <==> Unhealthy(t, DEPENDENCIES[k]));
    assert AllHealthy(s) <==> AllHealthy(t);
  }

  /** Refreshing twice and deciding twice is refreshing and deciding once. */
  lemma UpdatedTwice(s: Status, o: Observation, applied: bool)
    ensures Updated(Updated(s, o, applied), o, applied) == Updated(s, o, applied)
  {
    hide DerivePhase, ReadyCondition;
    var u := Updated(s, o, applied);
    RefreshTwice(s, o);
    PhaseIgnoresItsOutput(Refreshed(s, o), Refreshed(u, o));
  }

  lemma PhaseIsNamed(s: Status)
    ensures DerivePhase(s).0 != ""
  {
  }

  /** The instance controller's pass is idempotent. */
  lemma InstancePassTwice(s: Status, o: Observation)
    ensures InstancePass(InstancePass(s, o), o) == InstancePass(s, o)
  {
    hide SameTarget, MigrationIdentity, RecordedIdentity, DerivePhase, Refreshed, ReadyCondition;
    KindsDiffer();
    var t, u := Started(s), InstancePass(s, o);
    if Frozen(s, o) && Readable(o) {
      var edited := t.(conditions := t.conditions[TARGET := FreezeCondition(s, o)]);
      UpdatedKeeps(edited, o, false);
      assert u.conditions[TARGET := FreezeCondition(u, o)] == u.conditions;
      UpdatedTwice(edited, o, false);
    } else if !Frozen(s, o) && ConfigRejected(o.spec) {
      assert (u.conditions - {TARGET})[READY := CONFIG_ERROR] == u.conditions;
    } else if !Frozen(s, o) && Readable(o) {
      var edited := t.(conditions := WithDeprecation(t.conditions - {TARGET}, o));
      UpdatedKeeps(edited, o, true);
      assert WithDeprecation(u.conditions - {TARGET}, o) == u.conditions;
      UpdatedTwice(edited, o, true);
    }
  }

  lemma UpdatedKeeps(s: Status, o: Observation, applied: bool)
    ensures var u := Updated(s, o, applied);
      && u.phase != "" && u.appliedIdentity == s.appliedIdentity && u.migratedVersion == s.migratedVersion
      && u.conditions == s.conditions[READY := ReadyCondition(u.phase, u.ready)]
  {
    PhaseIsNamed(Refreshed(s, o));
    hide DerivePhase, ReadyCondition;
  }

  /** The health monitor's pass is idempotent. */
  lemma HealthPassTwice(s: Status, o: Observation)
    ensures HealthPass(HealthPass(s, o), o) == HealthPass(s, o)
  {
    hide ProbeCondition, BlobCondition, CheckDeployment;
    KindsDiffer();
    var t := HealthPass(s, o);
    if !MigrationRunning(s) {
      assert MIGRATIONS !in HealthConditions(o);
      assert !MigrationRunning(t);
      assert t.conditions + HealthConditions(o) == t.conditions;
    }
  }

  /** Both controllers give the pod-issue fields the same value, so the instance controller
      leaves what the health monitor settled settled. */
  lemma InstancePassKeepsHealth(s: Status, o: Observation)
    requires HealthPass(s, o) == s
    ensures HealthPass(InstancePass(s, o), o) == InstancePass(s, o)
  {
    hide SameTarget, MigrationIdentity, RecordedIdentity, DerivePhase, ProbeCondition, BlobCondition, FreezeCondition, InstancePass;
    var u := InstancePass(s, o);
    KindsDiffer();
    forall kind | kind !in OWN ensures SameCondition(s, u, kind) { OwnKinds(kind); InstancePassKeeps(s, o, kind); }
    assert SameCondition(s, u, MIGRATIONS);
    InstancePassKeeps(s, o, MIGRATIONS) by { OwnKinds(MIGRATIONS); }
    if !MigrationRunning(s) {
      assert !MigrationRunning(u);
      forall kind | kind in HealthConditions(o) ensures kind in u.conditions && u.conditions[kind] == HealthConditions(o)[kind] {
        assert kind in {DATABASE, CLICKHOUSE, REDIS, BLOB, WEB, WORKER};
        assert SameCondition(s, u, kind);
        assert s.conditions[kind] == (s.conditions + HealthConditions(o))[kind];
      }
      assert u.conditions + HealthConditions(o) == u.conditions;
      ComponentsAgree(s, o);
    }
  }

  lemma OwnKinds(kind: string)
    requires kind !in OWN
    ensures kind != TARGET && kind != DEPRECATED && kind != READY
  {
    assert OWN[0] == TARGET && OWN[1] == DEPRECATED && OWN[2] == READY;
  }

  lemma ComponentsAgree(s: Status, o: Observation)
    requires s.web == Some(CheckedWeb(s, o.web)) && s.worker == Some(CheckedWorker(s, o.worker))
    ensures var u := InstancePass(s, o);
      u.web == Some(CheckedWeb(u, o.web)) && u.worker == Some(CheckedWorker(u, o.worker))
  {
    hide InstancePass;
    PassComponents(s, o);
  }

  /** The pass leaves the components as they were or as it observed them. */
  lemma PassComponents(s: Status, o: Observation)
    ensures var u := InstancePass(s, o);
      || (u.web == s.web && u.worker == s.worker)
      || (u.web == ObservedWeb(s, o) && u.worker == ObservedWorker(s, o))
  {
    hide SameTarget, MigrationIdentity, RecordedIdentity, DerivePhase, FreezeCondition, WithDeprecation, ReadyCondition, IssuesFor;
  }

  // ----- the write count -----

  /** How many more writes there can be from `s`. */
  function Potential(s: Status, o: Observation): nat {
    (if HealthPass(s, o) != s then (if InstancePass(s, o) != s then 3 else 2)
     else if InstancePass(s, o) != s then 1 else 0)
  }

  lemma WriteLowersPotential(a: Actor, s: Status, o: Observation)
    requires Pass(a, s, o) != s
    ensures Potential(Pass(a, s, o), o) < Potential(s, o)
  {
    hide InstancePass, HealthPass;
    InstancePassTwice(s, o);
    HealthPassTwice(s, o);
    if HealthPass(s, o) == s {
      InstancePassKeepsHealth(s, o);
    }
  }

  /** One pass on the snapshot at index `k` of the object's history. An unchanged status is not
      sent; a changed one is accepted only from the current version. */
  datatype Attempt = Attempt(actor: Actor, k: nat)

  function Write(history: seq<Status>, a: Attempt, o: Observation): seq<Status>
    requires history != []
  {
    if a.k >= |history| then history
    else
      var out := Pass(a.actor, history[a.k], o);
      if out == history[a.k] || a.k < |history| - 1 then history else history + [out]
  }

  function Schedule(history: seq<Status>, attempts: seq<Attempt>, o: Observation): (r: seq<Status>)
    requires history != []
    ensures r != []
    decreases |attempts|
  {
    if attempts == [] then history else Schedule(Write(history, attempts[0], o), attempts[1..], o)
  }

  lemma {:induction false} WritesWithinPotential(history: seq<Status>, attempts: seq<Attempt>, o: Observation)
    requires history != []
    ensures history <= Schedule(history, attempts, o)
    ensures |Schedule(history, attempts, o)| <= |history| + Potential(history[|history| - 1], o)
    decreases |attempts|
  {
    hide Potential, Pass;
    if attempts != [] {
      var next := Write(history, attempts[0], o);
      if next != history {
        WriteLowersPotential(attempts[0].actor, history[|history| - 1], o);
      }
      WritesWithinPotential(next, attempts[1..], o);
    }
  }

  /** Quiescence: any schedule of the two controllers' passes, on any snapshots, writes at most
      three times. */
  lemma AtMostThreeWrites(history: seq<Status>, attempts: seq<Attempt>, o: Observation)
    requires history != []
    ensures |Schedule(history, attempts, o)| <= |history| + 3
  {
    hide InstancePass, HealthPass;
    WritesWithinPotential(history, attempts, o);
  }

  /** The status both controllers agree on. */
  predicate Settled(s: Status, o: Observation) {
    InstancePass(s, o) == s && HealthPass(s, o) == s
  }

  /** One current pass of each, the instance controller's twice, reaches it from anywhere. */
  lemma ThreePassesSettle(s: Status, o: Observation)
    ensures Settled(InstancePass(HealthPass(s, o), o), o)
    ensures Settled(InstancePass(HealthPass(InstancePass(s, o), o), o), o)
  {
    hide InstancePass, HealthPass;
    HealthPassTwice(s, o);
    InstancePassTwice(HealthPass(s, o), o);
    InstancePassKeepsHealth(HealthPass(s, o), o);
    HealthPassTwice(InstancePass(s, o), o);
    InstancePassTwice(HealthPass(InstancePass(s, o), o), o);
    InstancePassKeepsHealth(HealthPass(InstancePass(s, o), o), o);
  }

  /** And nothing is ever written after it. */
  lemma {:induction false} SettledIsSilent(history: seq<Status>, attempts: seq<Attempt>, o: Observation)
    requires history != [] && Settled(history[|history| - 1], o)
    ensures Schedule(history, attempts, o) == history
    decreases |attempts|
  {
    hide InstancePass, HealthPass;
    if attempts != [] {
      SettledIsSilent(history, attempts[1..], o);
    }
  }

  function Fresh(): Status {
    Status("", false, "", "", map[], None, None, None, None, None, None, [], "", "")
  }

  predicate AllUp(o: Observation) {
    && o.web == o.worker == Found(1, 1, Some([]))
    && o.database.connected && o.clickHouse.connected && o.redis.connected && o.blob.None?
    && !ConfigRejected(o.spec)
  }

  /** A fresh instance whose Deployments are up is written as not ready. */
  lemma FirstWrite(o: Observation)
    requires AllUp(o)
    ensures var t := InstancePass(Fresh(), o);
      && t.phase != "" && !t.ready && t.databaseConnected == None
      && t.appliedIdentity == t.migratedVersion == "" && t.migrationIssues == []
      && MIGRATIONS !in t.conditions
  {
    hide MigrationIdentity;
    var s := Fresh();
    KindsDiffer();
    OwnKinds(MIGRATIONS);
    OwnKinds(DATABASE);
    InstancePassKeeps(s, o, MIGRATIONS);
    InstancePassKeeps(s, o, DATABASE);
    assert !Frozen(s, o);
    PhaseIsTheDerivedOne(s, o);
    var t := InstancePass(s, o);
    ReadyMeans(t);
    assert DATABASE !in t.conditions && DEPENDENCIES[0] == DATABASE;
    PhaseIsNamed(t);
  }

  /** Once the probes are in, it is written as ready. */
  lemma LastWrite(s: Status, o: Observation)
    requires AllUp(o) && s.appliedIdentity == s.migratedVersion == "" && s.migrationIssues == []
    requires MIGRATIONS !in s.conditions
    ensures InstancePass(HealthPass(s, o), o).ready
  {
    hide MigrationIdentity, DerivePhase, ReadyCondition, WithDeprecation;
    KindsDiffer();
    var t := HealthPass(s, o);
    assert !MigrationRunning(s) && !Frozen(t, o);
    PhaseIsTheDerivedOne(t, o);
    var u := InstancePass(t, o);
    OwnKinds(MIGRATIONS);
    InstancePassKeeps(t, o, MIGRATIONS);
    assert MIGRATIONS !in u.conditions by {
      assert MIGRATIONS !in HealthConditions(o);
    }
    forall k | 0 <= k < |DEPENDENCIES|
      ensures DEPENDENCIES[k] in u.conditions && u.conditions[DEPENDENCIES[k]].status == True
    {
      var kind := DEPENDENCIES[k];
      assert kind in {DATABASE, CLICKHOUSE, REDIS, BLOB};
      OwnKinds(kind);
      InstancePassKeeps(t, o, kind);
      assert kind in HealthConditions(o) && HealthConditions(o)[kind].status == True;
    }
    assert u.web == Some(Component(1, 1, o.endpoint, [])) && u.worker.Some? && u.worker.value.component.ready == 1;
    assert u.worker.value.component.issues == [];
    ReadyMeans(u);
  }

  /** Three is attained: a fresh instance whose Deployments are up is written as pending, gets
      its probe results, and is written as running. */
  lemma ThreeWritesHappen(o: Observation) returns (attempts: seq<Attempt>)
    requires AllUp(o)
    ensures |Schedule([Fresh()], attempts, o)| == 4
  {
    hide InstancePass, HealthPass;
    var s := Fresh();
    var s1 := InstancePass(s, o);
    var s2 := HealthPass(s1, o);
    var s3 := InstancePass(s2, o);
    FirstWrite(o);
    MiddleWrite(s1, o);
    LastWrite(s1, o);
    var a0, a1, a2 := Attempt(InstanceController, 0), Attempt(HealthMonitor, 1), Attempt(InstanceController, 2);
    attempts := [a0, a1, a2];
    ThreeAttempts([s], a0, a1, a2, o);
    assert Write([s], a0, o) == [s, s1];
    assert Write([s, s1], a1, o) == [s, s1, s2];
    assert Write([s, s1, s2], a2, o) == [s, s1, s2, s3];
  }

  lemma MiddleWrite(s: Status, o: Observation)
    requires s.databaseConnected == None && MIGRATIONS !in s.conditions
    ensures HealthPass(s, o).databaseConnected.Some? && HealthPass(s, o).ready == s.ready
  {
  }

  lemma ThreeAttempts(history: seq<Status>, a: Attempt, b: Attempt, c: Attempt, o: Observation)
    requires history != []
    ensures Write(history, a, o) != [] && Write(Write(history, a, o), b, o) != []
    ensures Schedule(history, [a, b, c], o) == Write(Write(Write(history, a, o), b, o), c, o)
  {
    hide Pass;
    assert [a, b, c][1..] == [b, c] && [b, c][1..] == [c] && [c][1..] == [];
    var h1 := Write(history, a, o);
    assert |h1| >= |history|;
    var h2 := Write(h1, b, o);
    assert |h2| >= |h1|;
    var h3 := Write(h2, c, o);
    assert |h3| >= |h2|;
    assert Schedule(h3, [], o) == h3;
    assert Schedule(h2, [c], o) == h3;
    assert Schedule(h1, [b, c], o) == h3;
  }

  // ----- the freeze in status -----

  /** A frozen pass publishes no progress and ends in Error, not ready. */
  lemma FrozenPassPublishesNothing(s: Status, o: Observation)
    requires Frozen(s, o) && Readable(o)
    ensures var t := InstancePass(s, o);
      && t.version == s.version && t.publicUrl == s.publicUrl
      && t.phase == ERROR && !t.ready
      && READY in t.conditions && t.conditions[READY].status == False
  {
    hide SameTarget, MigrationIdentity, RecordedIdentity;
  }

  /** After a pass that refreshed the status, phase and readiness are those the published
      conditions imply - also once the freeze is lifted. */
  lemma PhaseIsTheDerivedOne(s: Status, o: Observation)
    requires Readable(o) && (Frozen(s, o) || !ConfigRejected(o.spec))
    ensures var t := InstancePass(s, o); (t.phase, t.ready) == DerivePhase(t)
    ensures var t := InstancePass(s, o); TargetChanged(t) <==> Frozen(s, o)
  {
    hide SameTarget, MigrationIdentity, RecordedIdentity, DerivePhase, ReadyCondition;
    KindsDiffer();
    var t, u := Started(s), InstancePass(s, o);
    var edited := if Frozen(s, o) then t.(conditions := t.conditions[TARGET := FreezeCondition(s, o)])
                  else t.(conditions := WithDeprecation(t.conditions - {TARGET}, o));
    UpdatedKeeps(edited, o, !Frozen(s, o));
    PhaseIgnoresItsOutput(Refreshed(edited, o), u);
  }

  /** Ready means exactly: not frozen, no failed or running migration, no fatal pod issue, both
      components up, and every dependency reported healthy. */
  lemma ReadyMeans(s: Status)
    ensures DerivePhase(s).1 <==> DerivePhase(s).0 == RUNNING
    ensures DerivePhase(s).1 <==>
      && !TargetChanged(s) && !MigrationFailed(s) && !MigrationRunning(s) && !AnyFatalIssue(s)
      && ComponentsReady(s) && AllHealthy(s)
  {
    assert RUNNING[0] == 'R' && ERROR[0] == 'E' && MIGRATING[0] == 'M' && PENDING[0] == 'P' && DEGRADED[0] == 'D';
  }

  /** No instance status write clears the circuit breaker's flag. */
  lemma InstancePassKeepsBreaker(s: Status, o: Observation)
    requires s.worker.Some?
    ensures var t := InstancePass(s, o);
      && t.worker.Some?
      && t.worker.value.breakerActive == s.worker.value.breakerActive
      && t.worker.value.breakerReason == s.worker.value.breakerReason
  {
    hide SameTarget, MigrationIdentity, RecordedIdentity, DerivePhase;
  }
}
