/** The circuit breaker: per-component failure counters and saved replica counts held in
    memory, acting on a worker Deployment the instance controller also writes. */
module CircuitBreaker {
  import opened Text

  datatype Name = ClickHouse | Redis | Database

  datatype Action = ScaleWorkerToZero | EmitCriticalEvent | NoAction

  datatype RecoveryAction = RestoreScale | NoRecovery

  datatype ComponentSpec = ComponentSpec(
    action: Action,
    recovery: RecoveryAction,
    failureThreshold: int,
    probeIntervalSeconds: int)

  type Specs = map<Name, ComponentSpec>

  /** One probe result per component. */
  datatype Results = Results(clickHouse: bool, redis: bool, database: bool) {
    predicate Ok(n: Name) {
      match n
      case ClickHouse => clickHouse
      case Redis => redis
      case Database => database
    }
  }

  const COMPONENTS: seq<Name> := [ClickHouse, Redis, Database]
  const DEFAULT_THRESHOLD := 3
  const DEFAULT_INTERVAL := 15

  /** Position of a component in probe order. */
  function IndexOf(n: Name): (i: nat)
    ensures i < |COMPONENTS| && COMPONENTS[i] == n
  {
    match n
    case ClickHouse => 0
    case Redis => 1
    case Database => 2
  }

  function Threshold(spec: ComponentSpec): (t: int)
    ensures t > 0
  {
    if spec.failureThreshold <= 0 then DEFAULT_THRESHOLD else spec.failureThreshold
  }

  function Interval(spec: ComponentSpec): int {
    if spec.probeIntervalSeconds <= 0 then DEFAULT_INTERVAL else spec.probeIntervalSeconds
  }

  predicate Scales(spec: ComponentSpec) {
    spec.action == ScaleWorkerToZero
  }

  predicate Restores(spec: ComponentSpec) {
    Scales(spec) && spec.recovery == RestoreScale
  }

  /** One instance's breaker: the two in-memory maps, the worker Deployment, and the flag in
      the instance's status. */
  datatype Breaker = Breaker(
    counts: map<Name, int>,
    saved: map<Name, int>,
    deployed: bool,
    replicas: Option<int>,
    active: bool,
    reason: Option<Name>)
  {
    function Count(n: Name): int {
      if n in counts then counts[n] else 0
    }
  }

  /** An unset replica count means one. */
  function Current(replicas: Option<int>): int {
    if replicas.Some? then replicas.value else 1
  }

  /** What recovery restores from a saved count. */
  function Restored(saved: Option<int>): int {
    if saved.None? || saved.value == 0 then 1 else saved.value
  }

  function Open(b: Breaker, n: Name, spec: ComponentSpec): Breaker {
    if !Scales(spec) || !b.deployed then b
    else if b.active && Current(b.replicas) == 0 then b
    else
      b.(saved := if b.active then b.saved else b.saved[n := Current(b.replicas)],
         replicas := Some(0),
         active := true,
         reason := Some(n))
  }

  function Recover(b: Breaker, n: Name, spec: ComponentSpec): Breaker {
    if !Restores(spec) || !b.deployed then b
    else
      b.(replicas := Some(Restored(if n in b.saved then Some(b.saved[n]) else None)),
         active := false,
         reason := None,
         saved := b.saved - {n})
  }

  function Check(b: Breaker, n: Name, spec: ComponentSpec, ok: bool): Breaker {
    if ok then
      var reset := b.(counts := b.counts[n := 0]);
      if b.Count(n) >= Threshold(spec) then Recover(reset, n, spec) else reset
    else
      var bumped := b.(counts := b.counts[n := b.Count(n) + 1]);
      if b.Count(n) + 1 >= Threshold(spec) then Open(bumped, n, spec) else bumped
  }

  /** The first `k` components of a pass. */
  function PassUpTo(b: Breaker, specs: Specs, results: Results, k: nat): Breaker
    requires k <= |COMPONENTS|
  {
    if k == 0 then b
    else
      var before, n := PassUpTo(b, specs, results, k - 1), COMPONENTS[k - 1];
      if n in specs then Check(before, n, specs[n], results.Ok(n)) else before
  }

  function Pass(b: Breaker, specs: Specs, results: Results): Breaker {
    PassUpTo(b, specs, results, |COMPONENTS|)
  }

  // ----- the controller -----

  class WorkerDeployment {
    var present: bool
    var replicas: Option<int>
  }

  class InstanceCopy {
    var active: bool
    var reason: Option<Name>
  }

  class CircuitBreakerController {
    var failureCounts: map<string, map<Name, int>>
    var savedReplicas: map<string, map<Name, int>>

    function View(key: string, worker: WorkerDeployment, inst: InstanceCopy): Breaker
      reads this, worker, inst
    {
      Breaker(
        if key in failureCounts then failureCounts[key] else map[],
        if key in savedReplicas then savedReplicas[key] else map[],
        worker.present, worker.replicas, inst.active, inst.reason)
    }

    twostate predicate OthersUntouched(key: string)
      reads this
    {
      failureCounts - {key} == old(failureCounts) - {key} && savedReplicas - {key} == old(savedReplicas) - {key}
    }

    method OpenCircuitBreaker(key: string, n: Name, spec: ComponentSpec, worker: WorkerDeployment, inst: InstanceCopy)
      requires key in savedReplicas
      modifies `savedReplicas, worker, inst
      ensures View(key, worker, inst) == Open(old(View(key, worker, inst)), n, spec)
      ensures OthersUntouched(key) && key in savedReplicas
    {
      if spec.action != ScaleWorkerToZero || !worker.present {
        return;
      }
      var currentReplicas := 1;
      if worker.replicas.Some? {
        currentReplicas := worker.replicas.value;
      }
      var alreadyTripped := inst.active;
      if alreadyTripped && currentReplicas == 0 {
        return;
      }
      if !alreadyTripped {
        savedReplicas := savedReplicas[key := savedReplicas[key][n := currentReplicas]];
      }
      worker.replicas := Some(0);
      inst.active := true;
      inst.reason := Some(n);
    }

    method RecoverCircuitBreaker(key: string, n: Name, spec: ComponentSpec, worker: WorkerDeployment, inst: InstanceCopy)
      requires key in savedReplicas
      modifies `savedReplicas, worker, inst
      ensures View(key, worker, inst) == Recover(old(View(key, worker, inst)), n, spec)
      ensures OthersUntouched(key) && key in savedReplicas
    {
      if spec.action != ScaleWorkerToZero || spec.recovery != RestoreScale || !worker.present {
        return;
      }
      var saved := 1;
      if n in savedReplicas[key] && savedReplicas[key][n] != 0 {
        saved := savedReplicas[key][n];
      }
      worker.replicas := Some(saved);
      inst.active := false;
      inst.reason := None;
      savedReplicas := savedReplicas[key := savedReplicas[key] - {n}];
    }

    /** A deleted instance is forgotten; a disabled breaker is left alone; otherwise one pass
        over the components. Other instances' counters are never touched. */
    method Reconcile(key: string, found: bool, enabled: bool, specs: Specs, results: Results,
                     worker: WorkerDeployment, inst: InstanceCopy) returns (requeueAfter: int)
      modifies this, worker, inst
      ensures OthersUntouched(key)
      ensures !found ==> key !in failureCounts && key !in savedReplicas && unchanged(worker) && unchanged(inst)
      ensures found && !enabled ==> View(key, worker, inst) == old(View(key, worker, inst))
      ensures found && enabled ==>
        && View(key, worker, inst) == Pass(old(View(key, worker, inst)), specs, results)
        && 0 < requeueAfter <= 15
        && (forall n :: n in specs && specs[n].probeIntervalSeconds > 0 ==> requeueAfter <= specs[n].probeIntervalSeconds)
        && (requeueAfter == 15 || exists n :: n in specs && requeueAfter == specs[n].probeIntervalSeconds)
    {
      requeueAfter := 0;
      if !found {
        failureCounts, savedReplicas := failureCounts - {key}, savedReplicas - {key};
        return;
      }
      if !enabled {
        return;
      }
      ghost var before := View(key, worker, inst);
      if key !in failureCounts {
        failureCounts := failureCounts[key := map[]];
      }
      if key !in savedReplicas {
        savedReplicas := savedReplicas[key := map[]];
      }
      requeueAfter := DEFAULT_INTERVAL;
      for i := 0 to |COMPONENTS|
        invariant key in failureCounts && key in savedReplicas && OthersUntouched(key)
        invariant View(key, worker, inst) == PassUpTo(before, specs, results, i)
        invariant 0 < requeueAfter <= DEFAULT_INTERVAL
        invariant requeueAfter == DEFAULT_INTERVAL || exists n :: n in specs && requeueAfter == specs[n].probeIntervalSeconds
        invariant forall k :: 0 <= k < i && COMPONENTS[k] in specs ==> requeueAfter <= Interval(specs[COMPONENTS[k]])
      {
        var n := COMPONENTS[i];
        if n in specs {
          if Interval(specs[n]) < requeueAfter {
            requeueAfter := Interval(specs[n]);
          }
          CheckComponent(key, n, specs[n], results.Ok(n), worker, inst);
        }
      }
      forall n | n in specs && specs[n].probeIntervalSeconds > 0 ensures requeueAfter <= specs[n].probeIntervalSeconds {
        var i := IndexOf(n);
        assert COMPONENTS[i] in specs;
      }
    }

    method CheckComponent(key: string, n: Name, spec: ComponentSpec, ok: bool, worker: WorkerDeployment, inst: InstanceCopy)
      requires key in failureCounts && key in savedReplicas
      modifies this, worker, inst
      ensures View(key, worker, inst) == Check(old(View(key, worker, inst)), n, spec, ok)
      ensures OthersUntouched(key) && key in failureCounts && key in savedReplicas
    {
      var counts := failureCounts[key];
      var previous := if n in counts then counts[n] else 0;
      if ok {
        failureCounts := failureCounts[key := counts[n := 0]];
        if previous >= Threshold(spec) {
          RecoverCircuitBreaker(key, n, spec, worker, inst);
        }
      } else {
        failureCounts := failureCounts[key := counts[n := previous + 1]];
        if previous + 1 >= Threshold(spec) {
          OpenCircuitBreaker(key, n, spec, worker, inst);
        }
      }
    }
  }
}
