/** Live migration pods belong to the one Job object there is, exactly until a clean-up pass on an old Job
    read deletes a Job in the background while its pod is live. Nothing else makes them overlap,
    whatever snapshots and Job reads the passes work from. */
module NoOverlap {
  import opened Text
  import opened InstanceSpec
  import opened Identity
  import opened IdentityLaws
  import opened Protocol

  /** All live migration pods are one pod of the one Job object there is, under its stamp. */
  ghost predicate OneOwner(w: World) {
    && (forall p :: p in w.pods ==> w.job.Some? && p.job == w.job.value.uid && p.stamp == w.job.value.stamp)
    && (forall p, q :: p in w.pods && q in w.pods ==> p == q)
    && (w.job.Some? && w.job.value.succeeded > 0 ==> w.pods == {})
  }

  /** A clean-up pass, about to delete in the background the Job it saw succeed, while a
      migration pod is live. */
  ghost predicate Orphans(w: World, e: Event) {
    && e.Act? && w.pc.Observed? && Decide(w.pc.snap) == CleanUp
    && w.pc.job.Some? && w.pc.job.value.succeeded > 0 && e.expired
    && w.pods != {}
  }

  ghost predicate UidsAhead(w: World) {
    w.job.Some? ==> w.job.value.uid < w.uids
  }

  /** Exactly such a pass loses the one owner. */
  lemma OwnerStep(w: World, e: Event, w': World)
    requires w.history != [] && OneOwner(w) && UidsAhead(w) && Step(w, e, w')
    ensures OneOwner(w') <==> !Orphans(w, e)
    ensures UidsAhead(w') && w'.history != []
  {
    hide Decide, Published, Desired, FinishPass;
    if e.Act? {
      if w.pc.Observed? {
        OwnerAct(w, e.expired, e.issues);
      } else {
        OtherAct(w, e.expired, e.issues);
      }
    }
  }

  /** A pass that looked at no Job at most creates one where there is none. */
  lemma OtherAct(w: World, expired: bool, issues: bool)
    requires w.history != [] && OneOwner(w) && UidsAhead(w) && (w.pc.Holding? || w.pc.Creating?)
    ensures var w' := FinishPass(w, expired, issues); OneOwner(w') && UidsAhead(w')
  {
    hide Decide, Published, Desired;
  }

  lemma OwnerAct(w: World, expired: bool, issues: bool)
    requires w.history != [] && OneOwner(w) && UidsAhead(w) && w.pc.Observed?
    ensures var w' := FinishPass(w, expired, issues);
      && (OneOwner(w') <==> !Orphans(w, Act(expired, issues)))
      && UidsAhead(w') && w'.history != []
  {
    hide Decide, Published, Desired;
    var done, w' := w.(pc := Idle), FinishPass(w, expired, issues);
    if Decide(w.pc.snap) == CleanUp {
      if w.pc.job.Some? && w.pc.job.value.succeeded > 0 && expired {
        assert w'.job == None && w'.pods == w.pods;
        assert w.pods != {} ==> exists p :: p in w'.pods;
      }
    } else {
      assert w'.pods == w.pods;
      assert w'.job == w.job || (w.job.Some? && w'.job == Some(w.job.value.(terminating := true)));
    }
  }

  ghost predicate OwnedUpTo(ws: seq<World>, n: nat)
    requires n < |ws|
  {
    forall i :: 0 <= i <= n ==> OneOwner(ws[i])
  }

  ghost predicate NoOrphansBefore(ws: seq<World>, es: seq<Event>, n: nat)
    requires n <= |es| <= |ws|
  {
    forall i :: 0 <= i < n ==> !Orphans(ws[i], es[i])
  }

  /** No overlap and its exact limit: along every run - any snapshots, any Job reads, any interleaving - at
      most one migration pod is ever live, belonging to the one Job object, if and only if no
      clean-up pass deletes a Job in the background while a migration pod is live. */
  lemma {:induction false} OwnedExactlyUntilOrphaned(ws: seq<World>, es: seq<Event>, n: nat)
    requires Run(ws, es) && Init(ws[0]) && n <= |es|
    ensures OwnedUpTo(ws, n) <==> NoOrphansBefore(ws, es, n)
    ensures OwnedUpTo(ws, n) ==> UidsAhead(ws[n]) && ws[n].history != []
  {
    hide OneOwner, Orphans;
    assert OneOwner(ws[0]) && UidsAhead(ws[0]) by { InitOwned(ws[0]); }
    if n > 0 {
      OwnedExactlyUntilOrphaned(ws, es, n - 1);
      if OwnedUpTo(ws, n - 1) {
        assert OneOwner(ws[n - 1]);
        assert Step(ws[n - 1], es[n - 1], ws[n - 1 + 1]);
        OwnerStep(ws[n - 1], es[n - 1], ws[n]);
      }
      assert OwnedUpTo(ws, n) <==> OwnedUpTo(ws, n - 1) && OneOwner(ws[n]);
      assert NoOrphansBefore(ws, es, n) <==> NoOrphansBefore(ws, es, n - 1) && !Orphans(ws[n - 1], es[n - 1]);
    }
  }

  lemma InitOwned(w: World)
    requires Init(w)
    ensures OneOwner(w) && UidsAhead(w)
  {
  }

  // ----- current reads never orphan -----

  /** The read sees the Job as it is now; anything may still happen before the pass acts. */
  ghost predicate CurrentRead(w: World, e: Event) {
    e.ObserveJob? ==> e.job == w.job
  }

  ghost predicate CurrentRun(ws: seq<World>, es: seq<Event>) {
    Run(ws, es) && forall i :: 0 <= i < |es| ==> CurrentRead(ws[i], es[i])
  }

  /** Since the pass looked, the Job it saw can have progressed or gone, not been replaced:
      only this controller creates Jobs. */
  ghost predicate Descends(now: Option<Job>, before: Option<Job>) {
    now.Some? ==>
      && before.Some?
      && now.value.uid == before.value.uid
      && now.value.stamp == before.value.stamp
      && now.value.succeeded >= before.value.succeeded
      && (before.value.terminating ==> now.value.terminating)
  }

  ghost predicate Exclusive(w: World) {
    && w.history != []
    && OneOwner(w)
    && UidsAhead(w)
    && (w.pc.Observed? ==> Descends(w.job, w.pc.job) && NeedsJob(w.pc.snap))
    && (w.pc.Creating? ==> w.job == None)
  }

  /** A current read never leads to an orphaning pass. */
  lemma ExclusiveStep(w: World, e: Event, w': World)
    requires Exclusive(w) && Step(w, e, w') && CurrentRead(w, e)
    ensures !Orphans(w, e) && Exclusive(w')
  {
    assert !Orphans(w, e);
    OwnerStep(w, e, w');
    if e.Act? && w.pc.Observed? {
      CreatingWithoutJob(w, e.expired, e.issues);
    }
  }

  lemma CreatingWithoutJob(w: World, expired: bool, issues: bool)
    requires Exclusive(w) && w.pc.Observed?
    ensures var w' := FinishPass(w, expired, issues); !w'.pc.Observed? && (w'.pc.Creating? ==> w'.job == None)
  {
    hide Decide, Published, Desired;
  }

  /** With current Job reads two migration pods never run at once. */
  lemma {:induction false} MigrationPodsNeverOverlap(ws: seq<World>, es: seq<Event>, i: nat)
    requires CurrentRun(ws, es) && Init(ws[0]) && i < |ws|
    ensures Exclusive(ws[i])
    ensures NoOrphansBefore(ws, es, i) && OwnedUpTo(ws, i)
  {
    hide OneOwner, Orphans, Exclusive;
    if i > 0 {
      MigrationPodsNeverOverlap(ws, es, i - 1);
      assert Step(ws[i - 1], es[i - 1], ws[i - 1 + 1]);
      ExclusiveStep(ws[i - 1], es[i - 1], ws[i]);
    } else {
      InitExclusive(ws[0]);
    }
    OwnedExactlyUntilOrphaned(ws, es, i);
  }

  lemma InitExclusive(w: World)
    requires Init(w)
    ensures Exclusive(w)
  {
  }

  // ----- an old read can orphan -----

  function Last(ws: seq<World>): World
    requires ws != []
  {
    ws[|ws| - 1]
  }

  lemma Extend(ws: seq<World>, es: seq<Event>, e: Event) returns (ws': seq<World>, es': seq<Event>)
    requires Run(ws, es) && Last(ws).history != [] && Enabled(Last(ws), e)
    ensures Run(ws', es') && ws'[0] == ws[0] && Last(ws') == Apply(Last(ws), e)
  {
    ws', es' := ws + [Apply(Last(ws), e)], es + [e];
    forall i | 0 <= i < |es'| ensures Step(ws'[i], es'[i], ws'[i + 1]) {
      if i < |es| {
        assert Step(ws[i], es[i], ws[i + 1]);
      }
    }
  }

  function UpgradeSpec(tag: string): Spec {
    Spec(tag, "", None, None, None, false, 0)
  }

  /** An upgrade: both identities name the same datastores, under different versions. */
  lemma UpgradeFacts(s1: Spec, s2: Spec)
    requires s1 == UpgradeSpec("1") && s2 == UpgradeSpec("2")
    ensures MigrationIdentity(s1) != "" && MigrationIdentity(s1) != MigrationIdentity(s2)
    ensures UpToDate(MigrationIdentity(s1), MigrationIdentity(s1))
    ensures !UpToDate(MigrationIdentity(s1), MigrationIdentity(s2))
    ensures SameTarget(MigrationIdentity(s1), MigrationIdentity(s2))
  {
    Injective(s1, s2);
    RenderedGateIsEquality(s1, s1);
    RenderedGateIsEquality(s1, s2);
    RenderedTargetsAgree(s1, s2);
    BuiltIsComplete(s1);
  }

  lemma UpgradeDecisions(inst: Instance, s1: Spec, s2: Spec)
    requires s1 == UpgradeSpec("1") && s2 == UpgradeSpec("2")
    requires inst.appliedIdentity == MigrationIdentity(s1)
    ensures inst.spec == s2 ==> Decide(inst) == Examine
    ensures inst.spec == s1 ==> Decide(inst) == CleanUp
  {
    hide UpToDate, SameTarget, MigrationIdentity;
    UpgradeFacts(s1, s2);
    assert AppliedIdentity(inst) == MigrationIdentity(s1) && LegacyBaseline(inst) == None;
  }

  /** A pass that finds no Job where one is due creates it. */
  lemma CreatingPass(ws: seq<World>, es: seq<Event>) returns (ws': seq<World>, es': seq<Event>)
    requires Run(ws, es)
    requires var w := Last(ws);
      && w.history != [] && w.pc == Idle && w.job == None && None in w.seen
      && w.Obj().rv == |w.history| - 1 && Decide(w.Obj()) == Examine
    ensures Run(ws', es') && ws'[0] == ws[0]
    ensures var w, w' := Last(ws), Last(ws');
      && w'.history != [] && w'.pc == Idle && w'.pods == w.pods && w'.podIds == w.podIds
      && w'.job == Some(Job(w.uids, Desired(w.Obj()), 0, 0, false)) && w'.uids == w.uids + 1
      && w.seen <= w'.seen
      && w'.Obj() == w.Obj().(rv := w'.Obj().rv, condition := Started) && w'.Obj().rv == |w'.history| - 1
  {
    hide UpToDate, SameTarget, MigrationIdentity, LegacyBaseline, AppliedIdentity, Decide;
    var snap := Last(ws).Obj();
    ws', es' := Extend(ws, es, TakeSnapshot(|Last(ws).history| - 1));
    ws', es' := Extend(ws', es', ObserveJob(None));
    assert Published(snap, None, false) == snap.(condition := Started);
    ws', es' := Extend(ws', es', Act(false, false));
    assert Last(ws').pc == Creating(Desired(snap)) && Last(ws').job == None;
    ws', es' := Extend(ws', es', Act(false, false));
  }

  /** A clean-up pass that reads a succeeded Job deletes whatever has its name now. */
  lemma CleaningPass(ws: seq<World>, es: seq<Event>, read: Job) returns (ws': seq<World>, es': seq<Event>)
    requires Run(ws, es) && read.succeeded > 0
    requires var w := Last(ws);
      w.history != [] && w.pc == Idle && Some(read) in w.seen && Decide(w.Obj()) == CleanUp
    ensures Run(ws', es') && ws'[0] == ws[0]
    ensures Last(ws') == SetJob(Last(ws), None)
  {
    hide UpToDate, SameTarget, MigrationIdentity, LegacyBaseline, AppliedIdentity, Decide, Published;
    ws', es' := Extend(ws, es, TakeSnapshot(|Last(ws).history| - 1));
    ws', es' := Extend(ws', es', ObserveJob(Some(read)));
    ws', es' := Extend(ws', es', Act(true, false));
  }

  /** A pass that reads the Job from before it was replaced deletes its successor in the
      background, and the next pass starts a second migration beside the orphaned pod. */
  lemma StaleJobReadOverlaps() returns (ws: seq<World>, es: seq<Event>)
    ensures Run(ws, es) && Init(ws[0])
    ensures exists p, q :: p in Last(ws).pods && q in Last(ws).pods && p.job != q.job
  {
    hide UpToDate, SameTarget, MigrationIdentity, LegacyBaseline, AppliedIdentity, Decide;
    var s1, s2 := UpgradeSpec("1"), UpgradeSpec("2");
    var id1, id2 := MigrationIdentity(s1), MigrationIdentity(s2);
    var first := Job(0, id1, 1, 0, true);
    var inst := Instance(0, s2, id1, "", Unset, 0, 0);
    ws := [World([inst], Some(first), {Some(first)}, 1, 0, {}, {id1}, Idle, None, None)];
    es := [];
    ws, es := Extend(ws, es, CollectJob);
    UpgradeDecisions(Last(ws).Obj(), s1, s2);
    ws, es := CreatingPass(ws, es);
    ws, es := Extend(ws, es, StartPod);
    ws, es := Extend(ws, es, EditSpec(s1));
    UpgradeDecisions(Last(ws).Obj(), s1, s2);
    ws, es := CleaningPass(ws, es, first);
    ws, es := Extend(ws, es, EditSpec(s2));
    UpgradeDecisions(Last(ws).Obj(), s1, s2);
    ws, es := CreatingPass(ws, es);
    ws, es := Extend(ws, es, StartPod);
    assert Pod(0, 1, id2) in Last(ws).pods && Pod(1, 2, id2) in Last(ws).pods;
  }
}
