/** What the circuit breaker guarantees over whole probe histories, with the instance
    controller writing the worker's replica count at any moment. */
module BreakerLaws {
  import opened Text
  import opened CircuitBreaker

  // ----- one pass, any mix of components -----

  /** The state is one the controller can be in: counts are never negative. */
  predicate Sane(b: Breaker) {
    && (forall n :: n in b.counts ==> b.counts[n] >= 0)
    && (forall n :: n in b.saved ==> b.saved[n] >= 0)
    && Current(b.replicas) >= 0
  }

  /** After the pass the component scales the worker down and is at or over its threshold. */
  predicate Over(b: Breaker, specs: Specs, results: Results, n: Name) {
    n in specs && Scales(specs[n]) && !results.Ok(n) && b.Count(n) + 1 >= Threshold(specs[n])
  }

  /** The pass restores the worker for this component. */
  predicate Recovers(b: Breaker, specs: Specs, results: Results, n: Name) {
    n in specs && Restores(specs[n]) && results.Ok(n) && b.Count(n) >= Threshold(specs[n])
  }

  /** Index of the last of the first `k` components that opens (`down`) or recovers. */
  function LastActing(b: Breaker, specs: Specs, results: Results, down: bool, k: nat): int
    requires k <= |COMPONENTS|
  {
    if k == 0 then -1
    else
      var n := COMPONENTS[k - 1];
      if (if down then Over(b, specs, results, n) else Recovers(b, specs, results, n)) then k - 1
      else LastActing(b, specs, results, down, k - 1)
  }

  predicate Down(b: Breaker) {
    b.active && b.replicas == Some(0)
  }

  lemma {:induction false} CountsOfPass(b: Breaker, specs: Specs, results: Results, k: nat, n: Name)
    requires k <= |COMPONENTS|
    ensures var b' := PassUpTo(b, specs, results, k);
      b'.Count(n) == if n in COMPONENTS[..k] && n in specs then (if results.Ok(n) then 0 else b.Count(n) + 1) else b.Count(n)
  {
    hide Check;
    if k > 0 {
      CountsOfPass(b, specs, results, k - 1, n);
      DistinctComponents(k);
      var before, m := PassUpTo(b, specs, results, k - 1), COMPONENTS[k - 1];
      if m in specs {
        CheckCounts(before, m, specs[m], results.Ok(m), n);
      }
    }
  }

  lemma CheckCounts(b: Breaker, m: Name, spec: ComponentSpec, ok: bool, n: Name)
    ensures Check(b, m, spec, ok).Count(n) == if n != m then b.Count(n) else if ok then 0 else b.Count(m) + 1
  {
  }

  lemma DistinctComponents(k: nat)
    requires 0 < k <= |COMPONENTS|
    ensures COMPONENTS[..k] == COMPONENTS[..k - 1] + [COMPONENTS[k - 1]]
    ensures COMPONENTS[k - 1] !in COMPONENTS[..k - 1]
  {
  }

  lemma CheckOutcome(b: Breaker, n: Name, spec: ComponentSpec, ok: bool)
    requires b.deployed && Sane(b)
    ensures var c := Check(b, n, spec, ok);
      && c.deployed && Sane(c)
      && if !ok && Scales(spec) && b.Count(n) + 1 >= Threshold(spec) then Down(c)
         else if ok && Restores(spec) && b.Count(n) >= Threshold(spec) then
           !c.active && c.replicas.Some? && c.replicas.value > 0
         else c.active == b.active && c.replicas == b.replicas
  {
  }

  lemma {:induction false} PassOutcome(b: Breaker, specs: Specs, results: Results, k: nat)
    requires k <= |COMPONENTS| && b.deployed && Sane(b)
    ensures var b' := PassUpTo(b, specs, results, k);
      var over, recovered := LastActing(b, specs, results, true, k), LastActing(b, specs, results, false, k);
      && b'.deployed && Sane(b')
      && -1 <= over < k && -1 <= recovered < k && (over == recovered ==> over == -1)
      && (over > recovered ==> Down(b'))
      && (recovered > over ==> !b'.active && b'.replicas.Some? && b'.replicas.value > 0)
      && (over == recovered ==> b'.active == b.active && b'.replicas == b.replicas)
  {
    if k > 0 {
      PassOutcome(b, specs, results, k - 1);
      var n := COMPONENTS[k - 1];
      CountsOfPass(b, specs, results, k - 1, n);
      DistinctComponents(k);
      if n in specs {
        CheckOutcome(PassUpTo(b, specs, results, k - 1), n, specs[n], results.Ok(n));
      }
    }
  }

  /** Trip exactness: with some scaling component at or over its threshold after a pass, the
      worker is at zero with the flag set exactly when no component later in probe order than
      the last such one recovers in that pass. */
  lemma TripExactness(b: Breaker, specs: Specs, results: Results)
    requires b.deployed && Sane(b)
    requires exists n :: Over(b, specs, results, n)
    ensures Down(Pass(b, specs, results)) <==>
      LastActing(b, specs, results, true, 3) > LastActing(b, specs, results, false, 3)
    ensures (forall n :: !Recovers(b, specs, results, n)) ==> Down(Pass(b, specs, results))
  {
    PassOutcome(b, specs, results, 3);
    var n :| Over(b, specs, results, n);
    LastActingIsLast(b, specs, results, true, 3, IndexOf(n));
    LastActingActs(b, specs, results, false, 3);
  }

  lemma {:induction false} LastActingIsLast(b: Breaker, specs: Specs, results: Results, down: bool, k: nat, i: nat)
    requires i < k <= |COMPONENTS|
    requires if down then Over(b, specs, results, COMPONENTS[i]) else Recovers(b, specs, results, COMPONENTS[i])
    ensures i <= LastActing(b, specs, results, down, k)
  {
    if i < k - 1 { LastActingIsLast(b, specs, results, down, k - 1, i); }
    LastActingActs(b, specs, results, down, k);
  }

  lemma {:induction false} LastActingActs(b: Breaker, specs: Specs, results: Results, down: bool, k: nat)
    requires k <= |COMPONENTS|
    ensures var i := LastActing(b, specs, results, down, k);
      && -1 <= i < k
      && (i >= 0 ==> if down then Over(b, specs, results, COMPONENTS[i]) else Recovers(b, specs, results, COMPONENTS[i]))
  {
    if k > 0 { LastActingActs(b, specs, results, down, k - 1); }
  }

  /** `Over` is what the counters say after the pass. */
  lemma OverIsTheCounter(b: Breaker, specs: Specs, results: Results, n: Name)
    requires Sane(b)
    ensures Over(b, specs, results, n) <==>
      n in specs && Scales(specs[n]) && Pass(b, specs, results).Count(n) >= Threshold(specs[n])
  {
    CountsOfPass(b, specs, results, 3, n);
    assert COMPONENTS[..3] == COMPONENTS && COMPONENTS[0] == ClickHouse && COMPONENTS[1] == Redis && COMPONENTS[2] == Database;
  }

  /** The order matters: a ClickHouse outage is undone by Redis recovering in the same pass. */
  lemma LaterRecoveryUndoesTrip() returns (b: Breaker, specs: Specs, results: Results)
    ensures b.deployed && Sane(b) && Over(b, specs, results, ClickHouse)
    ensures !Down(Pass(b, specs, results))
  {
    var spec := ComponentSpec(ScaleWorkerToZero, RestoreScale, 3, 15);
    b := Breaker(map[ClickHouse := 3, Redis := 3], map[ClickHouse := 2], true, Some(0), true, Some(ClickHouse));
    specs := map[ClickHouse := spec, Redis := spec];
    results := Results(false, true, true);
    assert COMPONENTS[0] == ClickHouse && COMPONENTS[1] == Redis && COMPONENTS[2] == Database;
    assert Over(b, specs, results, ClickHouse) && Recovers(b, specs, results, Redis);
    TripExactness(b, specs, results);
    assert LastActing(b, specs, results, false, 3) == 1;
    assert LastActing(b, specs, results, true, 1) == 0;
    assert LastActing(b, specs, results, true, 3) == 0;
  }

  // ----- one check, by configured action -----

  /** The failures it takes; three when nothing usable is configured. */
  function FailuresToTrip(spec: ComponentSpec): int {
    if spec.failureThreshold > 0 then spec.failureThreshold else 3
  }

  /** `n`'s failed probe takes the worker down. */
  predicate TripsNow(b: Breaker, n: Name, spec: ComponentSpec, ok: bool) {
    spec.action == ScaleWorkerToZero && b.deployed && !ok && b.Count(n) + 1 >= FailuresToTrip(spec) && !Down(b)
  }

  /** `n`'s first good probe after an outage brings it back. */
  predicate RestoresNow(b: Breaker, n: Name, spec: ComponentSpec, ok: bool) {
    spec.action == ScaleWorkerToZero && spec.recovery == RestoreScale && b.deployed && ok && b.Count(n) >= FailuresToTrip(spec)
  }

  /** What a probe of one component does. Going down: to zero, flagged under its name, the count of
      before saved unless a trip is standing. Coming back: to the saved count, or one. Otherwise
      only the counter moves. */
  lemma CheckByAction(b: Breaker, n: Name, spec: ComponentSpec, ok: bool)
    ensures var b' := Check(b, n, spec, ok);
      && b'.deployed == b.deployed
      && (TripsNow(b, n, spec, ok) ==>
            && b'.replicas == Some(0) && b'.active && b'.reason == Some(n)
            && b'.saved == (if b.active then b.saved else b.saved[n := if b.replicas == None then 1 else b.replicas.value]))
      && (RestoresNow(b, n, spec, ok) ==>
            && b'.replicas == Some(if n in b.saved && b.saved[n] != 0 then b.saved[n] else 1)
            && !b'.active && b'.reason == None && b'.saved == b.saved - {n})
      && (!TripsNow(b, n, spec, ok) && !RestoresNow(b, n, spec, ok) ==>
            b'.replicas == b.replicas && b'.active == b.active && b'.reason == b.reason && b'.saved == b.saved)
  {
  }

  /** A pass checks ClickHouse, then Redis, then the database, each if it is configured. */
  lemma PassInOrder(b: Breaker, specs: Specs, results: Results)
    ensures var b1 := if ClickHouse in specs then Check(b, ClickHouse, specs[ClickHouse], results.clickHouse) else b;
      var b2 := if Redis in specs then Check(b1, Redis, specs[Redis], results.redis) else b1;
      Pass(b, specs, results) == if Database in specs then Check(b2, Database, specs[Database], results.database) else b2
  {
    hide Check;
    assert COMPONENTS[0] == ClickHouse && COMPONENTS[1] == Redis && COMPONENTS[2] == Database;
    assert PassUpTo(b, specs, results, 0) == b;
    var b1, b2 := PassUpTo(b, specs, results, 1), PassUpTo(b, specs, results, 2);
    assert b1 == if ClickHouse in specs then Check(b, ClickHouse, specs[ClickHouse], results.clickHouse) else b;
    assert b2 == if Redis in specs then Check(b1, Redis, specs[Redis], results.redis) else b1;
  }

  /** Everything about the worker and its breaker but the counters is the same. */
  predicate OnlyCounted(b: Breaker, b': Breaker) {
    b'.replicas == b.replicas && b'.active == b.active && b'.reason == b.reason && b'.saved == b.saved && b'.deployed == b.deployed
  }

  /** No probe ever acts through a component that is not set to scale the worker. */
  ghost predicate NothingScales(specs: Specs) {
    forall n :: n in specs ==> specs[n].action != ScaleWorkerToZero
  }

  ghost predicate NothingRestores(specs: Specs) {
    forall n :: n in specs ==> specs[n].recovery == NoRecovery
  }

  lemma PassWithoutScaling(b: Breaker, specs: Specs, results: Results)
    requires NothingScales(specs)
    ensures OnlyCounted(b, Pass(b, specs, results))
  {
    hide Check, OnlyCounted;
    PassInOrder(b, specs, results);
    var b1 := if ClickHouse in specs then Check(b, ClickHouse, specs[ClickHouse], results.clickHouse) else b;
    var b2 := if Redis in specs then Check(b1, Redis, specs[Redis], results.redis) else b1;
    CountedOnly(b, ClickHouse, specs, results.clickHouse);
    CountedOnly(b1, Redis, specs, results.redis);
    CountedOnly(b2, Database, specs, results.database);
    CountedThrough(b, b1, b2);
    CountedThrough(b, b2, Pass(b, specs, results));
  }

  lemma CountedOnly(b: Breaker, n: Name, specs: Specs, ok: bool)
    requires NothingScales(specs)
    ensures OnlyCounted(b, b) && (n in specs ==> OnlyCounted(b, Check(b, n, specs[n], ok)))
  {
    hide Check;
    if n in specs { CheckByAction(b, n, specs[n], ok); }
  }

  lemma CountedThrough(a: Breaker, b: Breaker, c: Breaker)
    requires OnlyCounted(a, b) && OnlyCounted(b, c)
    ensures OnlyCounted(a, c)
  {
  }

  /** A pass leaves the worker where it was or at zero, and a raised flag stays raised. */
  predicate NotRaised(b: Breaker, b': Breaker) {
    (b'.replicas == b.replicas || b'.replicas == Some(0)) && (b.active ==> b'.active)
  }

  lemma PassWithoutRecovery(b: Breaker, specs: Specs, results: Results)
    requires NothingRestores(specs)
    ensures NotRaised(b, Pass(b, specs, results))
  {
    hide Check;
    PassInOrder(b, specs, results);
    var b1 := if ClickHouse in specs then Check(b, ClickHouse, specs[ClickHouse], results.clickHouse) else b;
    var b2 := if Redis in specs then Check(b1, Redis, specs[Redis], results.redis) else b1;
    if ClickHouse in specs { CheckNotRaised(b, ClickHouse, specs, results.clickHouse); }
    if Redis in specs { CheckNotRaised(b1, Redis, specs, results.redis); }
    if Database in specs { CheckNotRaised(b2, Database, specs, results.database); }
  }

  lemma CheckNotRaised(b: Breaker, n: Name, specs: Specs, ok: bool)
    requires NothingRestores(specs) && n in specs
    ensures NotRaised(b, Check(b, n, specs[n], ok))
  {
    hide Check;
    CheckByAction(b, n, specs[n], ok);
  }

  // ----- whole histories -----

  /** A pass of the breaker, or an apply by the instance controller from a copy that may not
      show the flag yet. */
  datatype Event =
    | Probed(results: Results)
    | Applied(configured: Option<nat>, autoscaled: bool, heldInCopy: bool)

  /** The replica count an apply declares; `None` leaves the live one alone. */
  function OwnedReplicas(configured: Option<nat>, autoscaled: bool, relinquish: bool): Option<int> {
    if relinquish || autoscaled then None
    else if configured.Some? then Some(configured.value) else Some(1)
  }

  function Next(b: Breaker, specs: Specs, e: Event): Breaker {
    match e
    case Probed(results) => Pass(b, specs, results)
    case Applied(configured, autoscaled, held) =>
      var declared := OwnedReplicas(configured, autoscaled, held);
      if declared.None? then b else b.(replicas := declared)
  }

  function After(b: Breaker, specs: Specs, es: seq<Event>, k: nat): Breaker
    requires k <= |es|
  {
    if k == 0 then b else Next(After(b, specs, es, k - 1), specs, es[k - 1])
  }

  /** Length of the trailing run of failed probes of `n` among the first `k` events. */
  function TrailingFailures(es: seq<Event>, n: Name, k: nat): nat
    requires k <= |es|
  {
    if k == 0 then 0
    else if es[k - 1].Applied? then TrailingFailures(es, n, k - 1)
    else if es[k - 1].results.Ok(n) then 0
    else TrailingFailures(es, n, k - 1) + 1
  }

  /** As the controller starts: nothing counted, nothing saved, the flag down. */
  predicate Initial(b: Breaker) {
    b.counts == map[] && b.saved == map[] && b.deployed && !b.active && Current(b.replicas) >= 0
  }

  /** Every counter is the length of the trailing run of failed probes. */
  lemma {:induction false} CounterIsTrailingRun(b: Breaker, specs: Specs, es: seq<Event>, n: Name, k: nat)
    requires Initial(b) && n in specs && k <= |es|
    ensures After(b, specs, es, k).Count(n) == TrailingFailures(es, n, k)
  {
    if k > 0 {
      CounterIsTrailingRun(b, specs, es, n, k - 1);
      if es[k - 1].Probed? {
        CountsOfPass(After(b, specs, es, k - 1), specs, es[k - 1].results, 3, n);
        assert COMPONENTS[..3] == COMPONENTS;
        assert COMPONENTS[0] == ClickHouse && COMPONENTS[1] == Redis && COMPONENTS[2] == Database;
      }
    }
  }

  /** `c` scales the worker and restores it; no other component scales it. */
  predicate OnlyScaler(specs: Specs, c: Name) {
    c in specs && Restores(specs[c]) && forall n :: n in specs && n != c ==> !Scales(specs[n])
  }

  /** With one scaling component a pass is that component's check, up to the other counters. */
  lemma {:induction false} OthersOnlyCount(b: Breaker, specs: Specs, results: Results, c: Name, k: nat)
    requires OnlyScaler(specs, c) && k <= |COMPONENTS|
    ensures var b' := PassUpTo(b, specs, results, k);
      var acted := if c in COMPONENTS[..k] then Check(b, c, specs[c], results.Ok(c)) else b;
      b' == acted.(counts := b'.counts) && b'.Count(c) == acted.Count(c)
  {
    hide Check;
    if k > 0 {
      OthersOnlyCount(b, specs, results, c, k - 1);
      DistinctComponents(k);
      var before, n := PassUpTo(b, specs, results, k - 1), COMPONENTS[k - 1];
      if n == c {
        CheckReadsOneCounter(b, before, c, specs[c], results.Ok(c));
      } else if n in specs {
        CheckOnlyCounts(before, n, specs[n], results.Ok(n));
      }
    }
  }

  lemma RestoresIt(specs: Specs, c: Name)
    requires OnlyScaler(specs, c)
    ensures c in specs && Restores(specs[c])
  {
  }

  lemma CheckOnlyCounts(b: Breaker, n: Name, spec: ComponentSpec, ok: bool)
    requires !Scales(spec)
    ensures var b' := Check(b, n, spec, ok);
      b' == b.(counts := b'.counts) && forall m :: m != n ==> b'.Count(m) == b.Count(m)
  {
  }

  lemma CheckReadsOneCounter(a: Breaker, b: Breaker, n: Name, spec: ComponentSpec, ok: bool)
    requires b == a.(counts := b.counts) && b.Count(n) == a.Count(n)
    ensures var a', b' := Check(a, n, spec, ok), Check(b, n, spec, ok);
      b' == a'.(counts := b'.counts) && b'.Count(n) == a'.Count(n)
  {
    hide Open, Recover;
    var counts := a.counts[n := if ok then 0 else a.Count(n) + 1];
    ActingIgnoresCounts(a.(counts := counts), b.counts[n := if ok then 0 else b.Count(n) + 1], n, spec);
  }

  lemma ActingIgnoresCounts(a: Breaker, counts: map<Name, int>, n: Name, spec: ComponentSpec)
    ensures Open(a.(counts := counts), n, spec) == Open(a, n, spec).(counts := counts)
    ensures Recover(a.(counts := counts), n, spec) == Recover(a, n, spec).(counts := counts)
    ensures Open(a, n, spec).counts == a.counts == Recover(a, n, spec).counts
  {
  }

  lemma SinglePass(b: Breaker, specs: Specs, results: Results, c: Name)
    requires OnlyScaler(specs, c)
    ensures var b', acted := Pass(b, specs, results), Check(b, c, specs[c], results.Ok(c));
      b' == acted.(counts := b'.counts) && b'.Count(c) == acted.Count(c)
  {
    OthersOnlyCount(b, specs, results, c, 3);
    assert COMPONENTS[..3] == COMPONENTS && COMPONENTS[0] == ClickHouse && COMPONENTS[1] == Redis && COMPONENTS[2] == Database;
  }

  /** Event `i` is the pass that tripped the breaker for the outage still running at `k`. */
  predicate TrippedAt(es: seq<Event>, c: Name, threshold: int, i: nat, k: nat) {
    && i < k <= |es| && es[i].Probed?
    && TrailingFailures(es, c, i) < threshold <= TrailingFailures(es, c, i + 1)
    && forall m :: i <= m < k && es[m].Probed? ==> !es[m].results.Ok(c)
  }

  /** The flag is up exactly while the trailing run has reached the threshold, and then the
      saved count is the one observed by the pass that tripped - re-asserts and stale applies
      notwithstanding. */
  lemma {:induction false} FlagAndRestorePoint(b: Breaker, specs: Specs, es: seq<Event>, c: Name, k: nat)
      returns (i: nat)
    requires Initial(b) && OnlyScaler(specs, c) && k <= |es|
    ensures After(b, specs, es, k).deployed
    ensures After(b, specs, es, k).active <==> TrailingFailures(es, c, k) >= Threshold(specs[c])
    ensures After(b, specs, es, k).active ==>
      && TrippedAt(es, c, Threshold(specs[c]), i, k)
      && c in After(b, specs, es, k).saved
      && After(b, specs, es, k).saved[c] == Current(After(b, specs, es, i).replicas)
  {
    hide PassUpTo, Pass, OnlyScaler;
    i := 0;
    assert Restores(specs[c]) by { RestoresIt(specs, c); }
    if k > 0 {
      i := FlagAndRestorePoint(b, specs, es, c, k - 1);
      CounterIsTrailingRun(b, specs, es, c, k - 1);
      var was := After(b, specs, es, k - 1);
      if es[k - 1].Probed? {
        SinglePass(was, specs, es[k - 1].results, c);
        if !es[k - 1].results.Ok(c) && !was.active && After(b, specs, es, k).active {
          i := k - 1;
        }
      }
    }
  }

  /** Restore point: over any probe history and any applies by the instance controller, the
      pass that ends an outage sets the worker to the count it had when that outage tripped
      the breaker, or to one if that was zero, and lowers the flag. */
  lemma RecoveryRestoresTheTripPoint(b: Breaker, specs: Specs, es: seq<Event>, c: Name, k: nat) returns (i: nat)
    requires Initial(b) && OnlyScaler(specs, c) && k < |es|
    requires es[k].Probed? && es[k].results.Ok(c) && TrailingFailures(es, c, k) >= Threshold(specs[c])
    ensures TrippedAt(es, c, Threshold(specs[c]), i, k)
    ensures !After(b, specs, es, k + 1).active
    ensures var atTrip := Current(After(b, specs, es, i).replicas);
      After(b, specs, es, k + 1).replicas == Some(if atTrip == 0 then 1 else atTrip)
  {
    i := FlagAndRestorePoint(b, specs, es, c, k);
    CounterIsTrailingRun(b, specs, es, c, k);
    SinglePass(After(b, specs, es, k), specs, es[k].results, c);
  }

  /** During an outage every failed probe leaves the worker at zero, whatever was applied
      since the last one. */
  lemma OutageHoldsTheWorkerAtZero(b: Breaker, specs: Specs, es: seq<Event>, c: Name, k: nat)
    requires Initial(b) && OnlyScaler(specs, c) && k < |es|
    requires es[k].Probed? && TrailingFailures(es, c, k + 1) >= Threshold(specs[c])
    ensures Down(After(b, specs, es, k + 1))
  {
    var _ := FlagAndRestorePoint(b, specs, es, c, k);
    CounterIsTrailingRun(b, specs, es, c, k);
    SinglePass(After(b, specs, es, k), specs, es[k].results, c);
  }

  /** An apply undoes the scale-down exactly when its copy does not show the flag, no autoscaler
      owns the count, and the configured count is not zero. */
  lemma ApplyUndoesExactly(b: Breaker, specs: Specs, configured: Option<nat>, autoscaled: bool, held: bool)
    requires Down(b)
    ensures Down(Next(b, specs, Applied(configured, autoscaled, held))) <==> held || autoscaled || configured == Some(0)
    ensures held || autoscaled ==> Next(b, specs, Applied(configured, autoscaled, held)) == b
  {
  }

  /** What an apply makes of the count: nothing while it is held or owned by an autoscaler, else the
      configured one, or one. */
  lemma ApplySets(b: Breaker, specs: Specs, configured: Option<nat>, autoscaled: bool, held: bool)
    ensures var b' := Next(b, specs, Applied(configured, autoscaled, held));
      && b' == b.(replicas := b'.replicas)
      && (held || autoscaled ==> b'.replicas == b.replicas)
      && (!held && !autoscaled ==> b'.replicas == match configured case Some(n) => Some(n as int) case None => Some(1))
  {
  }

  // ----- what each configured action does over a history -----

  /** With no component set to scale the worker - an event or nothing at most - no history of probes
      and applies raises the flag, names a reason or saves a count, and no pass touches the
      worker. */
  lemma {:induction false} NeverScaled(b: Breaker, specs: Specs, es: seq<Event>, k: nat)
    requires NothingScales(specs) && k <= |es|
    ensures var b' := After(b, specs, es, k);
      b'.active == b.active && b'.reason == b.reason && b'.saved == b.saved && b'.deployed == b.deployed
    ensures k > 0 && es[k - 1].Probed? ==> After(b, specs, es, k).replicas == After(b, specs, es, k - 1).replicas
  {
    hide Pass;
    if k > 0 {
      NeverScaled(b, specs, es, k - 1);
      var was := After(b, specs, es, k - 1);
      match es[k - 1]
      case Probed(results) => PassWithoutScaling(was, specs, results);
      case Applied(configured, autoscaled, held) => ApplySets(was, specs, configured, autoscaled, held);
    }
  }

  /** Without recovery no pass raises the worker, and once up the flag stays up. */
  lemma {:induction false} NeverRestored(b: Breaker, specs: Specs, es: seq<Event>, i: nat, k: nat)
    requires NothingRestores(specs) && i <= k <= |es|
    ensures After(b, specs, es, i).active ==> After(b, specs, es, k).active
    ensures k > 0 && es[k - 1].Probed? ==> NotRaised(After(b, specs, es, k - 1), After(b, specs, es, k))
  {
    hide Pass;
    if k > 0 && es[k - 1].Probed? {
      PassWithoutRecovery(After(b, specs, es, k - 1), specs, es[k - 1].results);
    }
    if i < k {
      NeverRestored(b, specs, es, i, k - 1);
      if es[k - 1].Applied? {
        ApplySets(After(b, specs, es, k - 1), specs, es[k - 1].configured, es[k - 1].autoscaled, es[k - 1].heldInCopy);
      }
    }
  }

  /** No component but `n` acts in this pass. */
  ghost predicate ActsAlone(specs: Specs, es: seq<Event>, n: Name, k: nat)
    requires k < |es| && es[k].Probed?
  {
    forall m :: m in specs && m != n ==>
      || specs[m].action != ScaleWorkerToZero
      || (if es[k].results.Ok(m) then specs[m].recovery == NoRecovery || TrailingFailures(es, m, k) < FailuresToTrip(specs[m])
          else TrailingFailures(es, m, k) + 1 < FailuresToTrip(specs[m]))
  }

  /** Over every history: a component set to scale the worker whose failures reach its threshold
      takes the worker to zero, raises the flag, and - unless the worker is held already - is the
      one named. */
  lemma TripNamesTheComponent(b: Breaker, specs: Specs, es: seq<Event>, n: Name, k: nat)
    requires Initial(b) && k < |es| && es[k].Probed? && n in specs
    requires specs[n].action == ScaleWorkerToZero && TrailingFailures(es, n, k + 1) >= FailuresToTrip(specs[n])
    requires ActsAlone(specs, es, n, k)
    ensures var was, now := After(b, specs, es, k), After(b, specs, es, k + 1);
      && now.active && now.replicas == Some(0)
      && now.reason == if Down(was) then was.reason else Some(n)
  {
    hide Check, Pass;
    var was, results := After(b, specs, es, k), es[k].results;
    AlwaysDeployed(b, specs, es, k);
    forall m | m in specs ensures was.Count(m) == TrailingFailures(es, m, k) { CounterIsTrailingRun(b, specs, es, m, k); }
    PassInOrder(was, specs, results);
    var b1 := if ClickHouse in specs then Check(was, ClickHouse, specs[ClickHouse], results.clickHouse) else was;
    var b2 := if Redis in specs then Check(b1, Redis, specs[Redis], results.redis) else b1;
    if ClickHouse in specs { CheckByAction(was, ClickHouse, specs[ClickHouse], results.clickHouse); OtherCounts(was, ClickHouse, specs, results.clickHouse); }
    if Redis in specs { CheckByAction(b1, Redis, specs[Redis], results.redis); OtherCounts(b1, Redis, specs, results.redis); }
    if Database in specs { CheckByAction(b2, Database, specs[Database], results.database); }
  }

  lemma OtherCounts(b: Breaker, n: Name, specs: Specs, ok: bool)
    requires n in specs
    ensures forall m :: m != n ==> Check(b, n, specs[n], ok).Count(m) == b.Count(m)
  {
    hide Check;
    forall m | m != n ensures Check(b, n, specs[n], ok).Count(m) == b.Count(m) { CheckCounts(b, n, specs[n], ok, m); }
  }

  lemma {:induction false} AlwaysDeployed(b: Breaker, specs: Specs, es: seq<Event>, k: nat)
    requires b.deployed && k <= |es|
    ensures After(b, specs, es, k).deployed
  {
    hide Check, Pass;
    if k > 0 {
      AlwaysDeployed(b, specs, es, k - 1);
      var was := After(b, specs, es, k - 1);
      if es[k - 1].Probed? {
        var r := es[k - 1].results;
        PassInOrder(was, specs, r);
        var b1 := if ClickHouse in specs then Check(was, ClickHouse, specs[ClickHouse], r.clickHouse) else was;
        var b2 := if Redis in specs then Check(b1, Redis, specs[Redis], r.redis) else b1;
        if ClickHouse in specs { CheckByAction(was, ClickHouse, specs[ClickHouse], r.clickHouse); }
        if Redis in specs { CheckByAction(b1, Redis, specs[Redis], r.redis); }
        if Database in specs { CheckByAction(b2, Database, specs[Database], r.database); }
      }
    }
  }
}
