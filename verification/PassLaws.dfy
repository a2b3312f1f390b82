/** What a pass of the migration controller does, and when the Deployments are applied, said in
    the fields of the spec, the text of the record and the Job alone. */
module PassLaws {
  import opened Text
  import opened InstanceSpec
  import opened Identity
  import opened IdentityLaws
  import opened OldRecordings
  import opened Protocol
  import opened MigrationController

  // ----- the spec -----

  /** Migrations run unless `runOnDeploy` is set to false; unset means they run. */
  predicate SwitchedOn(spec: Spec) {
    match spec.database
    case Some(DatabaseSpec(_, _, _, Some(false))) => false
    case _ => true
  }

  predicate KeysMapped(spec: Spec) {
    match spec.clickHouse
    case Some(ClickHouseSpec(_, Some(ref), _, _, _, _)) =>
      && "migrationUrl" in ref.keys && ref.keys["migrationUrl"] != ""
      && "username" in ref.keys && ref.keys["username"] != ""
      && "password" in ref.keys && ref.keys["password"] != ""
    case _ => true
  }

  /** No managed database, no managed cluster, no Redis certificates without TLS. */
  predicate Buildable(spec: Spec) {
    && (spec.database.Some? ==> !spec.database.value.managed)
    && (spec.clickHouse.Some? ==> !spec.clickHouse.value.managed || !spec.clickHouse.value.clusterEnabled)
    && match spec.redis
       case Some(RedisSpec(false, Some(ExternalRedis(_, Some(tls))))) => tls.enabled || (!tls.caSecret && !tls.clientCert)
       case _ => true
  }

  lemma SpecConditions(spec: Spec)
    ensures SwitchedOn(spec) <==> !MigrationsDisabled(spec)
    ensures KeysMapped(spec) <==> !MissingMigrationKeys(spec)
    ensures Buildable(spec) <==> !ConfigRejected(spec)
  {
  }

  // ----- the record -----

  /** What an instance remembers of its last migration: nothing, a bare version, or a recording. */
  datatype Memory = Blank | Bare(version: string) | Full(recording: Recording)

  /** How a status carries it, in its two fields. */
  ghost predicate Carries(applied: string, migrated: string, m: Memory) {
    match m
    case Blank => applied == "" == migrated
    case Bare(v) => applied == "" && migrated != "" && Plain(v) && Tagged(migrated, v)
    case Full(r) => applied == Literal(r) && PlainRecording(r)
  }

  /** Nothing remembered differs; a bare version remembers an unclustered "default" database. */
  predicate SameStores(m: Memory, now: Recording) {
    match m
    case Blank => true
    case Bare(_) => !now.clustered && now.database == "default"
    case Full(r) => SamePlace(r, now)
  }

  predicate Migrated(m: Memory, now: Recording) {
    match m
    case Blank => false
    case Bare(v) => v == now.version && SameStores(m, now)
    case Full(r) => r.version == now.version && SameStores(m, now)
  }

  /** A migrated instance that carries no identity yet. */
  predicate NeedsBaseline(m: Memory, now: Recording) {
    m.Bare? && Migrated(m, now)
  }

  ghost predicate Situation(inst: Instance, m: Memory, version: string) {
    WellFormed(inst.spec) && Tagged(inst.spec.tag, version) && Carries(inst.appliedIdentity, inst.migratedVersion, m)
  }

  lemma MemoryIsRead(inst: Instance, m: Memory, version: string)
    requires Situation(inst, m, version)
    ensures var now := Now(inst.spec, version);
      && Desired(inst) == Literal(now)
      && (SameTarget(AppliedIdentity(inst), Desired(inst)) <==> SameStores(m, now))
      && (UpToDate(AppliedIdentity(inst), Desired(inst)) <==> Migrated(m, now))
      && (AppliedIdentity(inst) == "" <==> m.Blank?)
  {
    hide MigrationIdentity, UpToDate, SameTarget, WellFormed, Now, Literal, SameStores, Migrated;
    CarriedIsRead(inst.appliedIdentity, inst.migratedVersion, inst.spec, m, version);
  }

  /** Two status fields and a spec decide the freeze and the gate. */
  lemma CarriedIsRead(applied: string, migrated: string, spec: Spec, m: Memory, version: string)
    requires WellFormed(spec) && Tagged(spec.tag, version) && Carries(applied, migrated, m)
    ensures var now, recorded := Now(spec, version), RecordedIdentity(applied, migrated);
      && MigrationIdentity(spec) == Literal(now)
      && (SameTarget(recorded, MigrationIdentity(spec)) <==> SameStores(m, now))
      && (UpToDate(recorded, MigrationIdentity(spec)) <==> Migrated(m, now))
      && (recorded == "" <==> m.Blank?)
  {
    hide Literal, MigrationIdentity, UpToDate, SameTarget, WellFormed, PostgresNow, ClickHouseNow, SamePlace, LegacyIdentity;
    IdentityText(spec, version);
    match m
    case Blank => BlankReads(MigrationIdentity(spec));
    case Bare(v) =>
      VersionTagged(migrated, v);
      VersionTagged(spec.tag, version);
      LegacyGate(migrated, spec);
      LegacyFreeze(migrated, spec);
    case Full(r) =>
      OlderRecording(r, spec, version);
      RecordedParts(r);
  }

  lemma BlankReads(desired: string)
    ensures SameTarget("", desired) && !UpToDate("", desired)
  {
  }

  lemma VersionTagged(tag: string, v: string)
    requires Tagged(tag, v)
    ensures NormalizeVersion(tag) == v && (Plain(v) ==> Plain(tag))
  {
    if tag == "v" + v {
      assert tag[1..] == v;
    }
  }

  lemma LegacyFreeze(version: string, spec: Spec)
    requires WellFormed(spec) && Plain(version)
    ensures LegacyIdentity(version) != ""
    ensures SameTarget(LegacyIdentity(version), MigrationIdentity(spec)) <==>
            !Clustered(spec) && ClickHouseDatabase(spec) == "default"
  {
    hide MigrationIdentity, SameTarget, LegacyIdentity, Lookup, ClickHouseDatabase;
    NormalizedStaysPlain(version);
    LegacyLookups(version);
    LookupsOf(spec);
    SameTargetByField(LegacyIdentity(version), MigrationIdentity(spec));
    assert BoolText(true)[0] == 't' && BoolText(false)[0] == 'f';
  }

  // ----- decisions -----

  /** A migration is due: wanted, not done, not refused, and the Job can be built. */
  predicate IsDue(m: Memory, spec: Spec, now: Recording) {
    SwitchedOn(spec) && !Migrated(m, now) && SameStores(m, now) && KeysMapped(spec) && Buildable(spec)
  }

  predicate IsRefused(m: Memory, spec: Spec, now: Recording) {
    SwitchedOn(spec) && !Migrated(m, now) && (!SameStores(m, now) || !KeysMapped(spec))
  }

  /** Which instances get a baseline, a clean-up, a refusal and a Job. */
  lemma DecidedBy(inst: Instance, m: Memory, version: string)
    requires Situation(inst, m, version)
    ensures var now := Now(inst.spec, version);
      && (Decide(inst) == RecordBaseline(Literal(now)) <==> NeedsBaseline(m, now))
      && (Decide(inst).RecordBaseline? ==> NeedsBaseline(m, now))
      && (Decide(inst) == CleanUp <==> SwitchedOn(inst.spec) && m.Full? && Migrated(m, now))
      && (Decide(inst) == Refuse <==> IsRefused(m, inst.spec, now))
      && (Decide(inst) == Examine <==> IsDue(m, inst.spec, now))
  {
    hide Literal, MigrationIdentity, UpToDate, SameTarget, PostgresNow, ClickHouseNow, SamePlace, Situation,
      SwitchedOn, KeysMapped, Buildable, MigrationsDisabled, MissingMigrationKeys, ConfigRejected, AppliedIdentity;
    MemoryIsRead(inst, m, version);
    SpecConditions(inst.spec);
    BaselineMemory(inst, m, version);
  }

  lemma BaselineMemory(inst: Instance, m: Memory, version: string)
    requires Situation(inst, m, version)
    ensures inst.appliedIdentity == "" <==> !m.Full?
  {
    hide Literal;
    if m.Full? {
      RecordedParts(m.recording);
    }
  }

  // ----- passes -----

  /** A pass in terms of what it was given. */
  ghost predicate Given(w: World, k: nat, m: Memory, version: string) {
    k < |w.history| && w.pc == Idle && Situation(w.history[k], m, version)
  }

  /** The Job a pass leaves, from any copy however stale and with writes rejected or not: a missing
      Job is created exactly when a migration is due, under the text of the spec; a due migration
      drains a Job of any other text; only a succeeded and expired Job of a migrated instance goes. */
  lemma JobAfterPass(w: World, k: nat, m: Memory, version: string, expired: bool, issues: bool, rejects: bool)
    requires Given(w, k, m, version)
    ensures var spec, now := w.history[k].spec, Now(w.history[k].spec, version);
      var after := WholePass(w, k, expired, issues, rejects).job;
      && (w.job == None ==>
            after == if IsDue(m, spec, now) then Some(Job(w.uids, Literal(now), 0, 0, false)) else None)
      && (w.job.Some? ==>
            after == if IsDue(m, spec, now) && w.job.value.stamp != Literal(now) then Some(w.job.value.(terminating := true))
                     else if SwitchedOn(spec) && m.Full? && Migrated(m, now) && w.job.value.succeeded > 0 && expired then None
                     else w.job)
  {
    hide Literal, MigrationIdentity, Decide, Situation, IsDue, SwitchedOn, Migrated, Now, LegacyBaseline, IsRefused, NeedsBaseline;
    DecidedBy(w.history[k], m, version);
    MemoryIsRead(w.history[k], m, version);
    DueIsNotMigrated(m, w.history[k].spec, Now(w.history[k].spec, version));
  }

  lemma DueIsNotMigrated(m: Memory, spec: Spec, now: Recording)
    ensures IsDue(m, spec, now) ==> !Migrated(m, now) && !IsRefused(m, spec, now)
    ensures IsRefused(m, spec, now) ==> !Migrated(m, now)
    ensures NeedsBaseline(m, now) ==> Migrated(m, now) && m.Bare?
  {
  }

  /** A fresh instance without a Job gets one exactly when `runOnDeploy` is not false. */
  lemma FreshInstanceMigrates(w: World, k: nat, version: string, expired: bool, issues: bool, rejects: bool)
    requires Given(w, k, Blank, version) && w.job == None
    requires KeysMapped(w.history[k].spec) && Buildable(w.history[k].spec)
    ensures var spec := w.history[k].spec;
      WholePass(w, k, expired, issues, rejects).job == Some(Job(w.uids, Literal(Now(spec, version)), 0, 0, false)) <==>
      !(spec.database.Some? && spec.database.value.runOnDeploy == Some(false))
  {
    hide WholePass, Literal, Situation, KeysMapped, Buildable, Now;
    JobAfterPass(w, k, Blank, version, expired, issues, rejects);
  }

  /** The Job the pass saw is the one of this very migration. */
  predicate OwnJob(job: Option<Job>, now: Recording) {
    job.Some? && job.value.stamp == Literal(now)
  }

  /** The condition an accepted pass publishes. */
  function ConditionAfter(m: Memory, spec: Spec, now: Recording, job: Option<Job>, issues: bool, was: MigrationCondition): MigrationCondition {
    if IsRefused(m, spec, now) then Failed
    else if !IsDue(m, spec, now) then was
    else if job.None? then Started
    else if !OwnJob(job, now) then was
    else if job.value.succeeded > 0 then Succeeded
    else if job.value.failed >= 3 then Failed
    else if issues then InProgress
    else was
  }

  /** What an accepted pass makes of the status: what it records, for which version, with how many
      failures, and under which condition. */
  function StatusAfter(was: Instance, m: Memory, version: string, job: Option<Job>, issues: bool): Instance {
    var now := Now(was.spec, version);
    var due := IsDue(m, was.spec, now) && OwnJob(job, now);
    was.(
      appliedIdentity := if NeedsBaseline(m, now) || (due && job.value.succeeded > 0) then Literal(now) else was.appliedIdentity,
      migratedVersion := if due && job.value.succeeded > 0 then version else was.migratedVersion,
      reportedFailures := if due && job.value.succeeded == 0 then job.value.failed else was.reportedFailures,
      condition := ConditionAfter(m, was.spec, now, job, issues, was.condition))
  }

  lemma PublishedStatus(inst: Instance, m: Memory, version: string, job: Option<Job>, issues: bool)
    requires Situation(inst, m, version)
    ensures Published(inst, job, issues) == StatusAfter(inst, m, version, job, issues)
  {
    hide Literal, MigrationIdentity, Decide, Situation, IsDue, SwitchedOn, Migrated, Now, LegacyBaseline, IsRefused, NeedsBaseline, NormalizeVersion;
    DecidedBy(inst, m, version);
    MemoryIsRead(inst, m, version);
    TagOf(inst, m, version);
    DueIsNotMigrated(m, inst.spec, Now(inst.spec, version));
  }

  /** The history after a pass on the current copy whose write is accepted: one version more when
      the status changes, none when it does not. */
  lemma StatusAfterPass(w: World, k: nat, m: Memory, version: string, expired: bool, issues: bool)
    requires Given(w, k, m, version) && k == |w.history| - 1 && w.history[k].rv == k
    ensures var after := WholePass(w, k, expired, issues, false).history;
      var status := StatusAfter(w.history[k], m, version, w.job, issues);
      after == if status == w.history[k] then w.history else w.history + [status.(rv := |w.history|)]
  {
    hide WholePass, Situation, StatusAfter, Published;
    WrittenStatus(w, k, expired, issues);
    PublishedStatus(w.history[k], m, version, w.job, issues);
  }

  lemma WrittenStatus(w: World, k: nat, expired: bool, issues: bool)
    requires k < |w.history| && w.pc == Idle && k == |w.history| - 1 && w.history[k].rv == k
    ensures var after := WholePass(w, k, expired, issues, false).history;
      var status := Published(w.history[k], w.job, issues);
      after == if status == w.history[k] then w.history else w.history + [status.(rv := |w.history|)]
  {
    hide Decide, MigrationIdentity, Published;
    PublishedByBranch(w.history[k], w.job, issues);
  }

  lemma TagOf(inst: Instance, m: Memory, version: string)
    requires Situation(inst, m, version)
    ensures NormalizeVersion(inst.spec.tag) == version
  {
    VersionTagged(inst.spec.tag, version);
  }

  /** From a copy that is not current, or with the write rejected, nothing is written. */
  lemma LostPassWritesNothing(w: World, k: nat, expired: bool, issues: bool, rejects: bool)
    requires k < |w.history| && w.pc == Idle
    requires rejects || w.history[k].rv != w.Obj().rv
    ensures WholePass(w, k, expired, issues, rejects).history == w.history
  {
    hide Decide, MigrationIdentity, Published;
    if NeedsJob(w.history[k]) && Decide(w.history[k]) == CleanUp {
      PublishedByBranch(w.history[k], w.job, issues);
    }
  }

  /** The pass ends with a status write, and that write would change something. */
  predicate EndsWithWrite(m: Memory, inst: Instance, now: Recording, job: Option<Job>) {
    || NeedsBaseline(m, now)
    || (IsRefused(m, inst.spec, now) && inst.condition != Failed)
    || (IsDue(m, inst.spec, now) && OwnJob(job, now) && job.value.succeeded > 0)
    || (IsDue(m, inst.spec, now) && OwnJob(job, now) && job.value.failed >= 3
        && (inst.condition != Failed || inst.reportedFailures != job.value.failed))
  }

  /** When the pass asks to be repeated, in seconds. */
  lemma ResultOfPass(w: World, k: nat, m: Memory, version: string, expired: bool, issues: bool, rejects: bool)
    requires Given(w, k, m, version)
    ensures var inst, now := w.history[k], Now(w.history[k].spec, version);
      var due := IsDue(m, inst.spec, now);
      PassResult(w, k, expired, issues, rejects) ==
        if due && w.job.None? then RequeueAfter(10)
        else if due && !OwnJob(w.job, now) then RequeueAfter(5)
        else if due && w.job.value.succeeded == 0 && w.job.value.failed < 3 then RequeueAfter(10)
        else if SwitchedOn(inst.spec) && !Migrated(m, now) && SameStores(m, now) && KeysMapped(inst.spec) && !Buildable(inst.spec) then Failure
        else if rejects && NeedsBaseline(m, now) then Failure
        else if !rejects && inst.rv != w.Obj().rv && EndsWithWrite(m, inst, now, w.job) then RequeueAfter(1)
        else Settled
  {
    hide Literal, MigrationIdentity, Decide, Situation, Now, LegacyBaseline, PassResult, Published, Migrated, SameStores, KeysMapped, Buildable,
      MigrationsDisabled, EndsWithWrite, OwnJob, NeedsBaseline, SwitchedOn, IsDue, IsRefused;
    var inst, now := w.history[k], Now(w.history[k].spec, version);
    DecidedBy(inst, m, version);
    MemoryIsRead(inst, m, version);
    SpecConditions(inst.spec);
    ResultByDecision(w, k, expired, issues, rejects);
    DueIsNotMigrated(m, inst.spec, now);
    WritesEnd(inst, m, version, w.job, issues);
    OwnStamp(w.job, inst, now);
    StopsExactly(inst, m, version);
    PublishedByBranch(inst, w.job, issues);
    BaselineEndsWithWrite(inst, m, now, w.job);
  }

  lemma BaselineEndsWithWrite(inst: Instance, m: Memory, now: Recording, job: Option<Job>)
    ensures NeedsBaseline(m, now) ==> EndsWithWrite(m, inst, now, job)
    ensures IsDue(m, inst.spec, now) ==> SwitchedOn(inst.spec) && Buildable(inst.spec)
  {
  }

  lemma OwnStamp(job: Option<Job>, inst: Instance, now: Recording)
    requires Desired(inst) == Literal(now)
    ensures OwnJob(job, now) <==> job.Some? && !Mismatched(inst, job.value)
  {
  }

  lemma StopsExactly(inst: Instance, m: Memory, version: string)
    requires Situation(inst, m, version)
    ensures var now := Now(inst.spec, version);
      Decide(inst) == Stop <==>
        && !NeedsBaseline(m, now)
        && (!SwitchedOn(inst.spec)
            || (!Migrated(m, now) && SameStores(m, now) && KeysMapped(inst.spec) && !Buildable(inst.spec)))
  {
    hide Literal, MigrationIdentity, Decide, Situation, Now, SameStores, KeysMapped, Buildable, SwitchedOn;
    DecidedBy(inst, m, version);
  }

  lemma ResultByDecision(w: World, k: nat, expired: bool, issues: bool, rejects: bool)
    requires k < |w.history| && w.pc == Idle
    ensures var inst := w.history[k];
      var d, writes := Decide(inst), Published(inst, w.job, issues) != inst;
      PassResult(w, k, expired, issues, rejects) ==
        if d == Examine && w.job.None? then RequeueAfter(10)
        else if d == Examine && Mismatched(inst, w.job.value) then RequeueAfter(5)
        else if d == Examine && w.job.value.succeeded == 0 && w.job.value.failed < 3 then RequeueAfter(10)
        else if d == Stop then (if MigrationsDisabled(inst.spec) then Settled else Failure)
        else if rejects && d.RecordBaseline? && writes then Failure
        else if !rejects && inst.rv != w.Obj().rv && writes then RequeueAfter(1)
        else Settled
  {
    hide Decide, MigrationIdentity, Published, MigrationsDisabled;
    PublishedByBranch(w.history[k], w.job, issues);
  }

  /** Which of the passes that end with a write have something to write. */
  lemma WritesEnd(inst: Instance, m: Memory, version: string, job: Option<Job>, issues: bool)
    requires Situation(inst, m, version)
    ensures var now := Now(inst.spec, version);
      var polls := IsDue(m, inst.spec, now) && (!OwnJob(job, now) || (job.value.succeeded == 0 && job.value.failed < 3));
      !polls ==> (Published(inst, job, issues) != inst <==> EndsWithWrite(m, inst, now, job))
  {
    hide Situation, Literal, Now, IsDue, IsRefused, NeedsBaseline, Migrated, Published;
    var now := Now(inst.spec, version);
    PublishedStatus(inst, m, version, job, issues);
    DueIsNotMigrated(m, inst.spec, now);
    RecordIsNew(inst, m, version);
  }

  /** What a pass records is never what the instance carries already. */
  lemma RecordIsNew(inst: Instance, m: Memory, version: string)
    requires Situation(inst, m, version)
    ensures var now := Now(inst.spec, version);
      NeedsBaseline(m, now) || !Migrated(m, now) ==> inst.appliedIdentity != Literal(now)
  {
    hide Literal, PostgresNow, ClickHouseNow, SamePlace;
    var now := Now(inst.spec, version);
    NowIsPlain(inst.spec, version);
    RecordedParts(now);
    match m
    case Blank =>
    case Bare(_) =>
    case Full(r) =>
      if Literal(r) == Literal(now) {
        GateIsExact(r, now);
        GateIsExact(now, now);
        SamePlaceAsItself(now);
      }
  }

  lemma SamePlaceAsItself(r: Recording)
    ensures SamePlace(r, r)
  {
  }

  // ----- the Deployments -----

  /** The Deployments are applied exactly when nothing remembered differs and the spec can be
      built. */
  lemma RolloutExactly(inst: Instance, m: Memory, version: string)
    requires Situation(inst, m, version)
    ensures RollsOut(inst) <==> SameStores(m, Now(inst.spec, version)) && Buildable(inst.spec)
  {
    hide Literal, MigrationIdentity, SameTarget, ConfigRejected, Buildable, Situation, Now, SameStores, AppliedIdentity;
    MemoryIsRead(inst, m, version);
    SpecConditions(inst.spec);
  }
}
