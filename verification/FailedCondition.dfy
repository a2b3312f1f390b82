/** The Failed migration condition: only a Job pass lifts it, so a refused retarget that is
    reverted keeps the instance in Error although its migration is recorded; and it is published
    while the Job has an attempt left. */
module FailedCondition {
  import opened Text
  import opened Identity
  import opened IdentityLaws
  import opened InstanceSpec
  import opened Protocol
  import opened ProtocolSafety
  import opened NoOverlap
  import opened Freeze
  import opened Convergence

  /** What a Job pass on a Failed instance has to see to publish something else: no Job, so that
      it creates one; or the right Job, succeeded, or still trying with problems to report. */
  predicate SeesProgress(snap: Instance, o: Option<Job>, issues: bool) {
    || o.None?
    || (!Mismatched(snap, o.value) && (o.value.succeeded > 0 || (o.value.failed < BACKOFF_LIMIT && issues)))
  }

  /** A Job pass that does, on the current version. */
  predicate Lifts(w: World, e: Event)
    requires w.history != []
  {
    && e.Act? && w.pc.Observed? && Decide(w.pc.snap) == Examine
    && w.pc.snap.rv == w.Obj().rv
    && SeesProgress(w.pc.snap, w.pc.job, e.issues)
  }

  predicate FailedNow(w: World) {
    w.history != [] && w.Obj().condition == Failed
  }

  /** Exactly such a step lifts the condition. */
  lemma LiftedExactly(w: World, e: Event, w': World)
    requires Inv(w) && Step(w, e, w') && FailedNow(w)
    ensures w'.history != [] && (FailedNow(w') <==> !Lifts(w, e))
  {
    hide UpToDate, SameTarget, MigrationIdentity, AppliedIdentity, Decide, Published, FinishPass, Mismatched;
    HistoryStep(w, e, w');
    if e.Act? && !w.pc.Creating? {
      var snap, o := w.pc.snap, if w.pc.Observed? then w.pc.job else None;
      ActRecord(w, e.expired, e.issues);
      assert snap == w.history[snap.rv] && w.Obj().rv == |w.history| - 1;
      if snap.rv == w.Obj().rv {
        assert snap == w.Obj();
        PublishedCondition(snap, o, e.issues);
        if w.pc.Holding? { HoldingIsNoJobPass(snap); }
      }
    } else if e.Act? {
      CreatingWritesNothing(w, e.expired, e.issues);
    }
  }

  lemma HoldingIsNoJobPass(snap: Instance)
    ensures !NeedsJob(snap) ==> Decide(snap) != Examine
  {
  }

  lemma PublishedCondition(snap: Instance, o: Option<Job>, issues: bool)
    requires snap.condition == Failed
    ensures Published(snap, o, issues).condition != Failed <==> Decide(snap) == Examine && SeesProgress(snap, o, issues)
  {
    hide Decide;
  }

  ghost predicate FailedUpTo(ws: seq<World>, n: nat)
    requires n < |ws|
  {
    forall i :: 0 <= i <= n ==> FailedNow(ws[i])
  }

  ghost predicate UnliftedBefore(ws: seq<World>, es: seq<Event>, n: nat)
    requires n <= |es| <= |ws|
  {
    forall i :: 0 <= i < n ==> Unlifted(ws[i], es[i])
  }

  predicate Unlifted(w: World, e: Event) {
    w.history != [] && !Lifts(w, e)
  }

  /** Over every run: from a Failed version on the condition stays Failed exactly as long as no
      step lifts it. */
  lemma {:induction false} FailedExactlyUntilLifted(ws: seq<World>, es: seq<Event>, n: nat)
    requires Run(ws, es) && Inv(ws[0]) && FailedNow(ws[0]) && n <= |es|
    ensures FailedUpTo(ws, n) <==> UnliftedBefore(ws, es, n)
  {
    hide Lifts, Inv;
    if n > 0 {
      FailedExactlyUntilLifted(ws, es, n - 1);
      RunInv(ws, es, n - 1);
      assert FailedUpTo(ws, n) <==> FailedUpTo(ws, n - 1) && FailedNow(ws[n]);
      assert UnliftedBefore(ws, es, n) <==> UnliftedBefore(ws, es, n - 1) && Unlifted(ws[n - 1], es[n - 1]);
      if FailedUpTo(ws, n - 1) {
        assert FailedNow(ws[n - 1]);
        assert Step(ws[n - 1], es[n - 1], ws[n - 1 + 1]);
        LiftedExactly(ws[n - 1], es[n - 1], ws[n]);
      }
    }
  }

  // ----- a refusal that is reverted -----

  /** Since version `k0` the instance is Failed with its migration recorded, and no pass works
      from an older version. */
  ghost predicate Stuck(w: World, k0: nat) {
    && Inv(w) && k0 < |w.history|
    && (forall k :: k0 <= k < |w.history| ==> w.history[k].condition == Failed && Done(w.history[k]))
    && (w.pc.Holding? || w.pc.Observed? ==> k0 <= w.pc.snap.rv)
    && !w.pc.Creating?
  }

  ghost predicate NoEdit(e: Event, k0: nat) {
    !e.EditSpec? && (e.TakeSnapshot? ==> k0 <= e.k)
  }

  lemma StuckStep(w: World, e: Event, w': World, k0: nat)
    requires Stuck(w, k0) && Step(w, e, w') && NoEdit(e, k0)
    ensures Stuck(w', k0)
  {
    hide UpToDate, SameTarget, MigrationIdentity, AppliedIdentity, Decide, Published, FinishPass, Mismatched, Inv, Lifts;
    StepInv(w, e, w');
    HistoryStep(w, e, w');
    StuckIsUnlifted(w, e, k0);
    assert FailedNow(w);
    LiftedExactly(w, e, w');
    DoneStays(w, e, w');
    StuckPc(w, e, w', k0);
  }

  lemma StuckIsUnlifted(w: World, e: Event, k0: nat)
    requires Stuck(w, k0)
    ensures !Lifts(w, e)
  {
    hide UpToDate, SameTarget, MigrationIdentity, AppliedIdentity;
    if e.Act? && w.pc.Observed? {
      SnapshotSince(w, k0);
      DoneDecides(w.pc.snap);
    }
  }

  lemma SnapshotSince(w: World, k0: nat)
    requires Stuck(w, k0) && (w.pc.Holding? || w.pc.Observed?)
    ensures Done(w.pc.snap)
  {
    assert w.pc.snap == w.history[w.pc.snap.rv];
  }

  lemma DoneDecides(inst: Instance)
    requires Done(inst)
    ensures Decide(inst) != Examine
  {
  }

  lemma DoneStays(w: World, e: Event, w': World)
    requires Inv(w) && Step(w, e, w') && !e.EditSpec? && w.history != [] && Done(w.Obj())
    ensures w'.history != [] && Done(w'.Obj())
  {
    hide UpToDate, SameTarget, MigrationIdentity, Decide, FinishPass, Inv;
    StepInv(w, e, w');
    RecordStep(w, e, w');
    HistoryStep(w, e, w');
    Covered(w'.Obj().spec);
  }

  lemma StuckPc(w: World, e: Event, w': World, k0: nat)
    requires Stuck(w, k0) && Step(w, e, w') && NoEdit(e, k0)
    ensures w'.pc.Holding? || w'.pc.Observed? ==> k0 <= w'.pc.snap.rv
    ensures !w'.pc.Creating?
  {
    hide UpToDate, SameTarget, MigrationIdentity, AppliedIdentity, Published;
    if (e.Act? || e.RejectWrite?) && w.pc.Observed? {
      SnapshotSince(w, k0);
      DoneDecides(w.pc.snap);
      CleanUpPublishesNothing(w.pc.snap, w.pc.job);
    }
  }

  lemma CleanUpPublishesNothing(snap: Instance, o: Option<Job>)
    requires Decide(snap) == CleanUp
    ensures forall issues :: Published(snap, o, issues) == snap
  {
  }

  /** A retarget that was refused and is reverted leaves the instance Failed, recorded as its
      migration is, over every run until the spec is edited again. */
  lemma {:induction false} RevertedRefusalStaysFailed(ws: seq<World>, es: seq<Event>, k0: nat, n: nat)
    requires Run(ws, es) && Stuck(ws[0], k0) && n < |ws|
    requires forall i :: 0 <= i < |es| ==> NoEdit(es[i], k0)
    ensures Stuck(ws[n], k0) && FailedNow(ws[n]) && Done(ws[n].Obj())
  {
    hide Done, Inv;
    if n > 0 {
      RevertedRefusalStaysFailed(ws, es, k0, n - 1);
      assert Step(ws[n - 1], es[n - 1], ws[n - 1 + 1]);
      StuckStep(ws[n - 1], es[n - 1], ws[n], k0);
    }
  }

  /** A pass that refuses on the current version ends Failed. */
  lemma RefusedIsFailed(w: World, expired: bool, issues: bool)
    requires Inv(w) && w.pc.Holding? && Decide(w.pc.snap) == Refuse && w.pc.snap.rv == w.Obj().rv
    ensures FailedNow(FinishPass(w, expired, issues)) && FinishPass(w, expired, issues).pc == Idle
  {
    hide UpToDate, SameTarget, MigrationIdentity, AppliedIdentity;
    assert w.pc.snap == w.Obj();
  }

  /** Editing a Failed instance's spec back to one its record covers leaves it stuck. */
  lemma RevertingIsStuck(w: World, spec: Spec, w': World)
    requires Inv(w) && Step(w, EditSpec(spec), w') && FailedNow(w) && w.pc == Idle && Done(w'.Obj())
    ensures Stuck(w', |w.history|)
  {
    StepInv(w, EditSpec(spec), w');
  }

  lemma RefusalFacts(inst: Instance, s1: Spec, s2: Spec)
    requires s1 == UpgradeSpec("1") && s2 == Elsewhere(s1) && inst.appliedIdentity == MigrationIdentity(s1)
    ensures inst.spec == s2 ==> Decide(inst) == Refuse
    ensures inst.spec == s1 ==> Done(inst)
  {
    hide UpToDate, SameTarget, MigrationIdentity;
    MovedFacts(s1, s2);
    BuiltIsComplete(s1);
    RenderedTargetsAgree(s1, s2);
    Covered(s1);
    GateMatchesRefusal(MigrationIdentity(s1), MigrationIdentity(s2));
    assert AppliedIdentity(inst) == MigrationIdentity(s1) && LegacyBaseline(inst) == None;
  }

  /** A run to there: a migrated instance is pointed elsewhere, refused, and pointed back. */
  lemma RefusalRun() returns (ws: seq<World>, es: seq<Event>, k0: nat)
    ensures Run(ws, es) && Init(ws[0]) && Done(ws[0].Obj())
    ensures Stuck(Last(ws), k0) && FailedNow(Last(ws)) && Last(ws).Obj().spec == ws[0].Obj().spec
  {
    hide UpToDate, SameTarget, MigrationIdentity, LegacyBaseline, AppliedIdentity, Decide, Done, Stuck, Lifts, Elsewhere;
    var s1 := UpgradeSpec("1");
    var s2 := Elsewhere(s1);
    var inst := Instance(0, s1, MigrationIdentity(s1), "", Succeeded, 0, 0);
    ws, es := [World([inst], None, {None}, 0, 0, {}, {}, Idle, None, None)], [];
    RefusalFacts(inst, s1, s2);
    RefusalFacts(inst.(rv := 1, spec := s2), s1, s2);
    ws, es := Extend(ws, es, EditSpec(s2));
    ws, es := Extend(ws, es, TakeSnapshot(1));
    InitInv(ws[0]);
    RunInv(ws, es, |ws| - 1);
    RefusedIsFailed(Last(ws), false, false);
    ws, es := Extend(ws, es, Act(false, false));
    RunInv(ws, es, |ws| - 1);
    var w := Last(ws);
    assert w.Obj().appliedIdentity == MigrationIdentity(s1);
    RefusalFacts(w.Obj().(rv := |w.history|, spec := s1), s1, s2);
    k0 := |w.history|;
    ws, es := Extend(ws, es, EditSpec(s1));
    RevertingIsStuck(w, s1, Last(ws));
    StuckIsFailed(Last(ws), k0);
  }

  lemma StuckIsFailed(w: World, k0: nat)
    requires Stuck(w, k0)
    ensures FailedNow(w)
  {
  }

  // ----- a failure that is published too soon -----

  /** A Job pass publishes Failed while the Job can still run exactly when the Job has failed as
      often as its backoff limit and no oftener. */
  lemma FailedTooSoonExactly(snap: Instance, job: Job, issues: bool)
    requires Decide(snap) == Examine && !Mismatched(snap, job) && snap.condition != Failed
    ensures Published(snap, Some(job), issues).condition == Failed && !Finished(job) <==>
            job.succeeded == 0 && job.failed == BACKOFF_LIMIT
  {
    hide Decide, MigrationIdentity;
  }

  /** And the attempt that is left can succeed. */
  lemma LastAttemptCanSucceed(w: World)
    requires w.history != [] && w.job.Some? && !w.job.value.terminating
    requires w.job.value.succeeded == 0 && w.job.value.failed == BACKOFF_LIMIT
    requires forall p :: p in w.pods ==> !Owned(w, p)
    ensures Enabled(w, StartPod)
    ensures var w1 := Apply(w, StartPod); var pod := Pod(w.podIds, w.job.value.uid, w.job.value.stamp);
      && Enabled(w1, PodSucceeds(pod))
      && Apply(w1, PodSucceeds(pod)).job == Some(w.job.value.(succeeded := 1))
      && w.job.value.stamp in Apply(w1, PodSucceeds(pod)).credited
  {
  }
}
