/** `MigrationController.Reconcile` as it is written: a method that edits its copy of the
    instance and calls the API server. Run without interruption it is exactly the steps of
    `Protocol`, and a pass that lost a write always asks to be repeated. */
module MigrationController {
  import opened Text
  import opened InstanceSpec
  import opened Identity
  import opened Protocol

  /** `Failure` is an error return, which the work queue retries with back-off. */
  datatype Result = Settled | RequeueAfter(seconds: nat) | Failure

  const CONFLICT_RETRY := 1
  const POLL := 10
  const DRAIN_POLL := 5

  function RequeueIf(retry: bool): Result {
    if retry then RequeueAfter(CONFLICT_RETRY) else Settled
  }

  /** What the pass returns when its next step ends it. */
  function ActResult(w: World, issues: bool): Result
    requires w.history != [] && w.pc != Idle
  {
    match w.pc
    case Creating(_) => if w.job.Some? then Failure else RequeueAfter(POLL)
    case Holding(snap) =>
      if Decide(snap) == Stop then (if MigrationsDisabled(snap.spec) then Settled else Failure)
      else RequeueIf(Outcome(w, snap, Published(snap, None, issues)) == Conflict)
    case Observed(snap, o) =>
      if Decide(snap) == CleanUp then Settled
      else if o.None? then RequeueAfter(POLL)
      else if Mismatched(snap, o.value) then RequeueAfter(DRAIN_POLL)
      else if o.value.succeeded > 0 || o.value.failed >= BACKOFF_LIMIT then
        RequeueIf(Outcome(w, snap, Published(snap, o, issues)) == Conflict)
      else RequeueAfter(POLL)
  }

  /** What it returns when its status write is rejected instead: the baseline write reports the
      error, every other write only logs it. */
  function RejectResult(w: World): Result {
    match w.pc
    case Holding(snap) => if Decide(snap).RecordBaseline? then Failure else Settled
    case Observed(_, o) =>
      if o.None? || (o.value.succeeded == 0 && o.value.failed < BACKOFF_LIMIT) then RequeueAfter(POLL) else Settled
    case _ => Settled
  }

  /** A pass with nothing interleaved has read its snapshot and, if it needs it, the Job. */
  function Ready(w: World, k: nat): World
    requires k < |w.history|
  {
    var snap := w.history[k];
    w.(pc := if NeedsJob(snap) then Observed(snap, w.job) else Holding(snap))
  }

  /** Its next step, with status writes rejected or not. */
  function EndPass(w: World, expired: bool, issues: bool, rejects: bool): (w': World)
    requires w.history != [] && w.pc != Idle
    ensures w'.history != []
  {
    if rejects && Sends(w, issues) then RejectPass(w) else FinishPass(w, expired, issues)
  }

  /** Such a pass as a whole. */
  function WholePass(w: World, k: nat, expired: bool, issues: bool, rejects: bool): World
    requires k < |w.history| && w.pc == Idle
  {
    var w' := EndPass(Ready(w, k), expired, issues, rejects);
    if w'.pc == Idle then w' else FinishPass(w', expired, issues)
  }

  function PassResult(w: World, k: nat, expired: bool, issues: bool, rejects: bool): Result
    requires k < |w.history| && w.pc == Idle
  {
    var ready := Ready(w, k);
    var w' := EndPass(ready, expired, issues, rejects);
    if w'.pc != Idle then ActResult(w', issues)
    else if rejects && Sends(ready, issues) then RejectResult(ready)
    else ActResult(ready, issues)
  }

  /** The pass had a status to write and a sibling had written first. */
  predicate LostRace(w: World, k: nat, issues: bool)
    requires k < |w.history|
  {
    Outcome(w, w.history[k], Published(w.history[k], w.job, issues)) == Conflict
  }

  class ApiServer {
    var world: World

    constructor (w: World)
      ensures world == w
    {
      world := w;
    }

    method GetInstance(k: nat) returns (inst: Instance)
      requires k < |world.history|
      ensures inst == world.history[k]
    {
      inst := world.history[k];
    }

    method GetJob() returns (job: Option<Job>)
      ensures job == world.job
    {
      job := world.job;
    }

    /** Writes status only when it differs from what was read. */
    method UpdateStatus(original: Instance, inst: Instance, rejects: bool) returns (outcome: WriteOutcome)
      requires world.history != []
      modifies this
      ensures world == if rejects then old(world) else WriteStatus(old(world), original, inst)
      ensures outcome == if rejects && inst != original then Rejected else Outcome(old(world), original, inst)
    {
      if original == inst {
        return Unchanged;
      }
      if rejects {
        return Rejected;
      }
      if original.rv != world.Obj().rv {
        return Conflict;
      }
      world := Push(world, inst);
      return Committed;
    }

    method Create(stamp: string)
      modifies this
      ensures world == CreateJob(old(world), stamp)
    {
      world := CreateJob(world, stamp);
    }

    method Delete(foreground: bool)
      modifies this
      ensures world == if foreground then DeleteForeground(old(world)) else DeleteBackground(old(world))
    {
      world := if foreground then DeleteForeground(world) else DeleteBackground(world);
    }
  }

  method CleanupCompletedJobs(api: ApiServer, expired: bool) returns (result: Result)
    modifies api
    ensures result == Settled
    ensures api.world ==
      if old(api.world).job.Some? && old(api.world).job.value.succeeded > 0 && expired then DeleteBackground(old(api.world))
      else old(api.world)
  {
    var existing := api.GetJob();
    if existing.Some? && existing.value.succeeded > 0 {
      if expired {
        api.Delete(false);
      }
    }
    return Settled;
  }

  method Reconcile(api: ApiServer, k: nat, expired: bool, issues: bool, rejects: bool) returns (result: Result)
    requires k < |api.world.history| && api.world.pc == Idle
    modifies api
    ensures api.world == WholePass(old(api.world), k, expired, issues, rejects)
    ensures result == PassResult(old(api.world), k, expired, issues, rejects)
    ensures LostRace(old(api.world), k, issues) && !rejects ==> result.RequeueAfter?
    ensures Decide(old(api.world).history[k]) == Examine && result == Settled ==>
      var job := old(api.world).job;
      && job.Some? && !Mismatched(old(api.world).history[k], job.value)
      && (job.value.succeeded > 0 || job.value.failed >= BACKOFF_LIMIT)
  {
    hide WholePass, PassResult, LostRace, Decide;
    ResultsAskAgain(api.world, k, expired, issues, rejects);
    result := ReconcileSnapshot(api, k, expired, issues, rejects);
  }

  /** `Reconcile` from its snapshot on, branch by branch. */
  method ReconcileSnapshot(api: ApiServer, k: nat, expired: bool, issues: bool, rejects: bool) returns (result: Result)
    requires k < |api.world.history| && api.world.pc == Idle
    modifies api
    ensures api.world == WholePass(old(api.world), k, expired, issues, rejects)
    ensures result == PassResult(old(api.world), k, expired, issues, rejects)
  {
    hide UpToDate, MigrationIdentity, SameTarget, LegacyBaseline, AppliedIdentity;
    var original := api.GetInstance(k);
    var instance := original;
    var desiredIdentity := Desired(instance);

    var baseline := LegacyBaseline(instance);
    if baseline.Some? {
      instance := instance.(appliedIdentity := baseline.value);
      var written := api.UpdateStatus(original, instance, rejects);
      return if written == Rejected then Failure else RequeueIf(written == Conflict);
    }

    if MigrationsDisabled(instance.spec) {
      return Settled;
    }

    var upToDate := CheckUpToDate(AppliedIdentity(instance), desiredIdentity);
    if upToDate {
      result := CleanupCompletedJobs(api, expired);
      return;
    }

    var changed := ListRetargeted(AppliedIdentity(instance), desiredIdentity);
    if changed != [] || MissingMigrationKeys(instance.spec) {
      assert Decide(original) == Refuse by { NothingChanged(AppliedIdentity(original), desiredIdentity); }
      instance := instance.(condition := Failed);
      var written := api.UpdateStatus(original, instance, rejects);
      return RequeueIf(written == Conflict);
    }
    NothingChanged(AppliedIdentity(original), desiredIdentity);

    if ConfigRejected(instance.spec) {
      return Failure;
    }

    assert Decide(original) == Examine;
    result := ReconcileJob(api, k, expired, issues, rejects, original, desiredIdentity);
  }

  /** The second half of `Reconcile`, on the Job, once the snapshot calls for one. */
  method ReconcileJob(api: ApiServer, ghost k: nat, ghost expired: bool, issues: bool, rejects: bool,
                      original: Instance, desiredIdentity: string) returns (result: Result)
    requires k < |api.world.history| && api.world.pc == Idle
    requires original == api.world.history[k] && Decide(original) == Examine && desiredIdentity == Desired(original)
    modifies api
    ensures api.world == WholePass(old(api.world), k, expired, issues, rejects)
    ensures result == PassResult(old(api.world), k, expired, issues, rejects)
  {
    hide Decide, MigrationIdentity;
    var instance := original;
    var existing := api.GetJob();
    if existing.None? {
      instance := instance.(condition := Started);
      var _ := api.UpdateStatus(original, instance, rejects);
      api.Create(desiredIdentity);
      return RequeueAfter(POLL);
    }

    if existing.value.stamp != desiredIdentity {
      if !existing.value.terminating {
        api.Delete(true);
      }
      return RequeueAfter(DRAIN_POLL);
    }

    if existing.value.succeeded > 0 {
      instance := instance.(condition := Succeeded);
      instance := instance.(migratedVersion := NormalizeVersion(instance.spec.tag));
      instance := instance.(appliedIdentity := desiredIdentity);
      var written := api.UpdateStatus(original, instance, rejects);
      return RequeueIf(written == Conflict);
    }

    instance := instance.(reportedFailures := existing.value.failed);
    if existing.value.failed >= BACKOFF_LIMIT {
      instance := instance.(condition := Failed);
      var written := api.UpdateStatus(original, instance, rejects);
      return RequeueIf(written == Conflict);
    }
    if issues {
      instance := instance.(condition := InProgress);
    }
    var _ := api.UpdateStatus(original, instance, rejects);
    return RequeueAfter(POLL);
  }

  /** What the results mean: a pass that lost a race asks to be repeated; and a due migration is
      only left alone after success - recorded, or its record rejected - or once the Job has
      failed as often as its backoff limit. */
  lemma ResultsAskAgain(w: World, k: nat, expired: bool, issues: bool, rejects: bool)
    requires k < |w.history| && w.pc == Idle
    ensures LostRace(w, k, issues) && !rejects ==> PassResult(w, k, expired, issues, rejects).RequeueAfter?
    ensures Decide(w.history[k]) == Examine && PassResult(w, k, expired, issues, rejects) == Settled ==>
      && w.job.Some? && !Mismatched(w.history[k], w.job.value)
      && (w.job.value.succeeded > 0 || w.job.value.failed >= BACKOFF_LIMIT)
  {
    hide Decide, MigrationIdentity;
    PublishedByBranch(w.history[k], w.job, issues);
  }

  /** A due pass that finds success settles although nothing is recorded, exactly when its
      write is rejected. */
  lemma SuccessLostExactly(w: World, k: nat, expired: bool, issues: bool, rejects: bool)
    requires k < |w.history| && w.pc == Idle && Decide(w.history[k]) == Examine
    requires w.job.Some? && !Mismatched(w.history[k], w.job.value) && w.job.value.succeeded > 0
    requires Published(w.history[k], w.job, issues) != w.history[k]
    ensures PassResult(w, k, expired, issues, rejects) == Settled && WholePass(w, k, expired, issues, rejects).history == w.history
            <==> rejects
  {
    hide Decide, MigrationIdentity;
  }

  /** The statuses published without looking at the Job, or never. */
  lemma PublishedByBranch(inst: Instance, job: Option<Job>, issues: bool)
    ensures Decide(inst) == CleanUp || Decide(inst) == Stop ==> Published(inst, job, issues) == inst
    ensures Decide(inst) != Examine ==> Published(inst, job, issues) == Published(inst, None, issues)
    ensures Decide(inst) == Examine && job.Some? && Mismatched(inst, job.value) ==> Published(inst, job, issues) == inst
  {
    hide Decide;
  }

  lemma NothingChanged(applied: string, desired: string)
    ensures RetargetedComponents(applied, desired) == [] <==> SameTarget(applied, desired)
  {
  }

  /** An uninterrupted pass is a run of the step machine. */
  lemma WholePassIsARun(w: World, k: nat, expired: bool, issues: bool, rejects: bool)
    returns (ws: seq<World>, es: seq<Event>)
    requires k < |w.history| && w.pc == Idle && w.job in w.seen
    ensures Run(ws, es) && ws[0] == w && ws[|ws| - 1] == WholePass(w, k, expired, issues, rejects)
  {
    hide UpToDate, MigrationIdentity, SameTarget, LegacyIdentity, Decide, EndPass;
    ws, es := ReadyRun(w, k);
    ws, es := EndRun(ws, es, expired, issues, rejects);
  }

  lemma ReadyRun(w: World, k: nat) returns (ws: seq<World>, es: seq<Event>)
    requires k < |w.history| && w.pc == Idle && w.job in w.seen
    ensures Run(ws, es) && ws[0] == w && ws[|ws| - 1] == Ready(w, k)
  {
    hide UpToDate, MigrationIdentity, SameTarget, LegacyIdentity, Decide;
    var snap := w.history[k];
    ws, es := [w, w.(pc := Holding(snap))], [TakeSnapshot(k)];
    if NeedsJob(snap) {
      ws, es := ws + [Ready(w, k)], es + [ObserveJob(w.job)];
    }
  }

  /** The steps that end a pass which has read what it needs. */
  lemma EndRun(ws: seq<World>, es: seq<Event>, expired: bool, issues: bool, rejects: bool)
    returns (ws': seq<World>, es': seq<Event>)
    requires Run(ws, es)
    requires var w := ws[|ws| - 1]; w.history != [] && Enabled(w, Act(expired, issues))
    ensures Run(ws', es') && ws'[0] == ws[0]
    ensures var w' := EndPass(ws[|ws| - 1], expired, issues, rejects);
      ws'[|ws'| - 1] == if w'.pc == Idle then w' else FinishPass(w', expired, issues)
  {
    hide UpToDate, MigrationIdentity, SameTarget, LegacyIdentity, Decide, FinishPass, RejectPass, Sends, Published;
    var w := ws[|ws| - 1];
    var w' := EndPass(w, expired, issues, rejects);
    EndsIdleOrCreating(w, expired, issues, rejects);
    var e := if rejects && Sends(w, issues) then RejectWrite(issues) else Act(expired, issues);
    assert Step(w, e, w');
    ws', es' := Append(ws, es, e, w');
    if w'.pc != Idle {
      assert Step(w', Act(expired, issues), FinishPass(w', expired, issues));
      ws', es' := Append(ws', es', Act(expired, issues), FinishPass(w', expired, issues));
    }
  }

  lemma Append(ws: seq<World>, es: seq<Event>, e: Event, w': World) returns (ws': seq<World>, es': seq<Event>)
    requires Run(ws, es) && Step(ws[|ws| - 1], e, w')
    ensures Run(ws', es') && ws'[0] == ws[0] && ws'[|ws'| - 1] == w'
  {
    hide Step;
    ws', es' := ws + [w'], es + [e];
    forall i | 0 <= i < |es'| ensures Step(ws'[i], es'[i], ws'[i + 1]) {
      if i < |es| { assert Step(ws[i], es[i], ws[i + 1]); }
    }
  }

  lemma EndsIdleOrCreating(w: World, expired: bool, issues: bool, rejects: bool)
    requires w.history != [] && w.pc != Idle
    ensures var w' := EndPass(w, expired, issues, rejects); w'.pc == Idle || w'.pc.Creating?
  {
    hide Decide, Published;
  }
}
