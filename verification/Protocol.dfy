/** The migration protocol as a step machine. Each step is one API call or one cluster event;
    a pass of the migration controller is a sequence of them that anything may interleave with.

    The instance object is its history of versions: the index of a version is its resource
    version, so a status write from a snapshot commits exactly when nothing was written since. */
module Protocol {
  import opened Text
  import opened InstanceSpec
  import opened Identity

  datatype MigrationCondition = Unset | Started | InProgress | Succeeded | Failed

  /** One version of the LangfuseInstance. `siblings` stands for all status this controller
      does not write. */
  datatype Instance = Instance(
    rv: nat,
    spec: Spec,
    appliedIdentity: string,
    migratedVersion: string,
    condition: MigrationCondition,
    reportedFailures: nat,
    siblings: nat)

  function AppliedIdentity(inst: Instance): string {
    RecordedIdentity(inst.appliedIdentity, inst.migratedVersion)
  }

  function Desired(inst: Instance): string {
    MigrationIdentity(inst.spec)
  }

  /** The full identity to persist for an instance migrated before identities were recorded. */
  function LegacyBaseline(inst: Instance): Option<string> {
    if inst.appliedIdentity != "" then None
    else if AppliedIdentity(inst) == "" then None
    else if !UpToDate(AppliedIdentity(inst), Desired(inst)) then None
    else Some(Desired(inst))
  }

  datatype Job = Job(uid: nat, stamp: string, succeeded: nat, failed: nat, terminating: bool)

  datatype Pod = Pod(id: nat, job: nat, stamp: string)

  const BACKOFF_LIMIT := 3

  predicate Finished(j: Job) {
    j.succeeded > 0 || j.failed > BACKOFF_LIMIT
  }

  /** Where the migration controller stands inside a pass. */
  datatype Pc =
    | Idle
    | Holding(snap: Instance)
    | Observed(snap: Instance, job: Option<Job>)
    | Creating(stamp: string)

  /** `seen` is every state the Job name has been in, `credited` the stamps of Jobs that
      really succeeded. `rollout` is the instance controller's snapshot between its read and
      its apply, `deployed` the spec its Deployments were last built from. */
  datatype World = World(
    history: seq<Instance>,
    job: Option<Job>,
    seen: set<Option<Job>>,
    uids: nat,
    podIds: nat,
    pods: set<Pod>,
    credited: set<string>,
    pc: Pc,
    rollout: Option<Instance>,
    deployed: Option<Spec>)
  {
    function Obj(): Instance
      requires history != []
    {
      history[|history| - 1]
    }
  }

  // ----- what a pass decides -----

  datatype Decision = RecordBaseline(identity: string) | Stop | CleanUp | Refuse | Examine

  /** The branches `MigrationController.Reconcile` takes on the snapshot alone, in its order. */
  function Decide(inst: Instance): Decision {
    if LegacyBaseline(inst).Some? then RecordBaseline(LegacyBaseline(inst).value)
    else if MigrationsDisabled(inst.spec) then Stop
    else if UpToDate(AppliedIdentity(inst), Desired(inst)) then CleanUp
    else if !SameTarget(AppliedIdentity(inst), Desired(inst)) then Refuse
    else if MissingMigrationKeys(inst.spec) then Refuse
    else if ConfigRejected(inst.spec) then Stop
    else Examine
  }

  predicate NeedsJob(inst: Instance) {
    Decide(inst) == CleanUp || Decide(inst) == Examine
  }

  predicate Mismatched(inst: Instance, j: Job) {
    j.stamp != Desired(inst)
  }

  /** The status the pass publishes, given the Job it saw and whether its pods show problems. */
  function Published(inst: Instance, job: Option<Job>, issues: bool): Instance {
    match Decide(inst)
    case RecordBaseline(id) => inst.(appliedIdentity := id)
    case Refuse => inst.(condition := Failed)
    case Stop => inst
    case CleanUp => inst
    case Examine =>
      if job.None? then inst.(condition := Started)
      else if Mismatched(inst, job.value) then inst
      else if job.value.succeeded > 0 then
        inst.(condition := Succeeded, migratedVersion := NormalizeVersion(inst.spec.tag), appliedIdentity := Desired(inst))
      else
        inst.(reportedFailures := job.value.failed,
              condition := if job.value.failed >= BACKOFF_LIMIT then Failed
                           else if issues then InProgress
                           else inst.condition)
  }

  // ----- the API server -----

  /** `Rejected` is any failure of the write but a conflict; nothing is written then. */
  datatype WriteOutcome = Unchanged | Committed | Conflict | Rejected

  /** A status update that would change nothing is not sent at all. */
  function Outcome(w: World, snap: Instance, inst: Instance): WriteOutcome
    requires w.history != []
  {
    if inst == snap then Unchanged else if snap.rv == w.Obj().rv then Committed else Conflict
  }

  function WriteStatus(w: World, snap: Instance, inst: Instance): World
    requires w.history != []
  {
    if Outcome(w, snap, inst) == Committed then Push(w, inst) else w
  }

  /** The pass is about to send a status update. */
  predicate Sends(w: World, issues: bool) {
    match w.pc
    case Holding(snap) => Published(snap, None, issues) != snap
    case Observed(snap, o) => Published(snap, o, issues) != snap
    case _ => false
  }

  function Push(w: World, inst: Instance): World {
    w.(history := w.history + [inst.(rv := |w.history|)])
  }

  function SetJob(w: World, j: Option<Job>): World {
    w.(job := j, seen := w.seen + {j})
  }

  function CreateJob(w: World, stamp: string): World {
    if w.job.Some? then w
    else SetJob(w, Some(Job(w.uids, stamp, 0, 0, false))).(uids := w.uids + 1)
  }

  /** Deletion is by name: it hits whatever Job has the name now. Foreground keeps the Job
      until its pods are gone, background drops the Job and leaves the pods to be reaped. */
  function DeleteForeground(w: World): World {
    if w.job.None? then w else SetJob(w, Some(w.job.value.(terminating := true)))
  }

  function DeleteBackground(w: World): World {
    SetJob(w, None)
  }

  // ----- steps -----

  datatype Event =
    | EditSpec(spec: Spec)
    | SiblingWrite(n: nat)
    | TakeSnapshot(k: nat)
    | ObserveJob(job: Option<Job>)
    | Act(expired: bool, issues: bool)
    | RejectWrite(issues: bool)
    | Restart
    | StartPod
    | PodSucceeds(pod: Pod)
    | PodFails(pod: Pod)
    | PodRemoved(pod: Pod)
    | CollectJob
    | ExpireJob
    | ReadForRollout(k: nat)
    | ApplyRollout

  predicate Owned(w: World, p: Pod) {
    w.job.Some? && p.job == w.job.value.uid
  }

  predicate Enabled(w: World, e: Event)
    requires w.history != []
  {
    match e
    case EditSpec(_) => true
    case SiblingWrite(_) => true
    case TakeSnapshot(k) => w.pc == Idle && k < |w.history|
    case ObserveJob(o) => w.pc.Holding? && NeedsJob(w.pc.snap) && o in w.seen
    case Act(_, _) => w.pc != Idle && (w.pc.Holding? ==> !NeedsJob(w.pc.snap))
    case RejectWrite(issues) => Sends(w, issues) && (w.pc.Holding? ==> !NeedsJob(w.pc.snap))
    case Restart => true
    case StartPod =>
      && w.job.Some? && !w.job.value.terminating && !Finished(w.job.value)
      && forall p :: p in w.pods ==> !Owned(w, p)
    case PodSucceeds(p) => p in w.pods
    case PodFails(p) => p in w.pods
    case PodRemoved(p) => p in w.pods && (w.job.Some? && Owned(w, p) ==> w.job.value.terminating)
    case CollectJob => w.job.Some? && w.job.value.terminating && forall p :: p in w.pods ==> !Owned(w, p)
    case ExpireJob => w.job.Some? && Finished(w.job.value)
    case ReadForRollout(k) => w.rollout == None && k < |w.history|
    case ApplyRollout => w.rollout.Some?
  }

  function FinishPass(w: World, expired: bool, issues: bool): (w': World)
    requires w.history != [] && w.pc != Idle
    ensures w'.history != []
  {
    var done := w.(pc := Idle);
    match w.pc
    case Holding(snap) => WriteStatus(done, snap, Published(snap, None, issues))
    case Creating(stamp) => CreateJob(done, stamp)
    case Observed(snap, o) =>
      if Decide(snap) == CleanUp then
        if o.Some? && o.value.succeeded > 0 && expired then DeleteBackground(done) else done
      else if o.None? then
        WriteStatus(w, snap, Published(snap, o, issues)).(pc := Creating(Desired(snap)))
      else if Mismatched(snap, o.value) then
        if o.value.terminating then done else DeleteForeground(done)
      else WriteStatus(done, snap, Published(snap, o, issues))
  }

  /** A pass goes on after a rejected write as if it had been made: to its end, or to creating
      the Job when it saw none. */
  function RejectPass(w: World): World {
    w.(pc := if w.pc.Observed? && w.pc.job.None? then Creating(Desired(w.pc.snap)) else Idle)
  }

  function Apply(w: World, e: Event): World
    requires w.history != [] && Enabled(w, e)
  {
    match e
    case EditSpec(spec) => Push(w, w.Obj().(spec := spec))
    case SiblingWrite(n) => Push(w, w.Obj().(siblings := n))
    case TakeSnapshot(k) => w.(pc := Holding(w.history[k]))
    case ObserveJob(o) => w.(pc := Observed(w.pc.snap, o))
    case Act(expired, issues) => FinishPass(w, expired, issues)
    case RejectWrite(_) => RejectPass(w)
    case Restart => w.(pc := Idle, rollout := None)
    case StartPod => w.(pods := w.pods + {Pod(w.podIds, w.job.value.uid, w.job.value.stamp)}, podIds := w.podIds + 1)
    case PodSucceeds(p) =>
      var w' := w.(pods := w.pods - {p});
      if Owned(w, p) then
        SetJob(w', Some(w.job.value.(succeeded := w.job.value.succeeded + 1)))
          .(credited := w.credited + {w.job.value.stamp})
      else w'
    case PodFails(p) =>
      var w' := w.(pods := w.pods - {p});
      if Owned(w, p) then SetJob(w', Some(w.job.value.(failed := w.job.value.failed + 1))) else w'
    case PodRemoved(p) => w.(pods := w.pods - {p})
    case CollectJob => SetJob(w, None)
    case ExpireJob => DeleteForeground(w)
    case ReadForRollout(k) => w.(rollout := Some(w.history[k]))
    case ApplyRollout => w.(rollout := None, deployed := if RollsOut(w.rollout.value) then Some(w.rollout.value.spec) else w.deployed)
  }

  /** The freeze guard of the instance controller, and the config check after it. */
  predicate RollsOut(inst: Instance) {
    SameTarget(AppliedIdentity(inst), Desired(inst)) && !ConfigRejected(inst.spec)
  }

  ghost predicate Step(w: World, e: Event, w': World) {
    w.history != [] && Enabled(w, e) && w' == Apply(w, e)
  }

  ghost predicate Run(ws: seq<World>, es: seq<Event>) {
    |ws| == |es| + 1 && forall i :: 0 <= i < |es| ==> Step(ws[i], es[i], ws[i + 1])
  }

  /** Nothing is in flight and nothing but the current Job has been seen yet; the spec, what
      was recorded and the leftover Job are arbitrary. */
  ghost predicate Init(w: World) {
    && |w.history| == 1 && w.history[0].rv == 0
    && w.seen == {w.job}
    && w.pc == Idle && w.rollout == None
    && (w.job.Some? ==> w.job.value.uid < w.uids)
    && (forall p :: p in w.pods ==> w.job.Some? && p.job == w.job.value.uid && p.stamp == w.job.value.stamp)
    && (forall p, q :: p in w.pods && q in w.pods ==> p == q)
    && (w.job.Some? && w.job.value.succeeded > 0 ==> w.pods == {})
    && w.credited == if w.job.Some? && w.job.value.succeeded > 0 then {w.job.value.stamp} else {}
  }
}
