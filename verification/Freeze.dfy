/** The workload freeze: after a full identity is recorded, the Deployments follow every spec that
    keeps the target it names and no other, over every run of spec edits and from copies however
    stale, so long as they are not older than the record. */
module Freeze {
  import opened Text
  import opened InstanceSpec
  import opened Identity
  import opened IdentityLaws
  import opened Protocol
  import opened ProtocolSafety
  import opened NoOverlap
  import opened PassLaws

  /** Where a spec points: all its normalised parts but the version. */
  function TargetParts(spec: Spec): Parts {
    PartsOf(spec).(version := "")
  }

  /** The recorded identity is that of `s`, which points where `base` does. */
  ghost predicate Names(inst: Instance, s: Spec, base: Spec) {
    WellFormed(s) && AppliedIdentity(inst) == MigrationIdentity(s) && TargetParts(s) == TargetParts(base)
  }

  /** A version from after `base` was recorded: it carries that or a later record. */
  ghost predicate OfRecord(inst: Instance, base: Spec) {
    exists s :: Names(inst, s, base)
  }

  /** Under the record named by `base`, the Deployments are applied exactly for the specs that keep
      its target and can be built. */
  lemma RolloutFollowsTarget(base: Spec, inst: Instance)
    requires WellFormed(inst.spec) && OfRecord(inst, base)
    ensures RollsOut(inst) <==> TargetParts(inst.spec) == TargetParts(base) && Buildable(inst.spec)
  {
    hide UpToDate, MigrationIdentity, AppliedIdentity, PartsOf, SameTarget, WellFormed, Buildable, ConfigRejected;
    var s :| Names(inst, s, base);
    RenderedTargetsAgree(s, inst.spec);
    SpecConditions(inst.spec);
  }

  /** Every version since `k0` is from after the record, and so is the copy a rollout works from. */
  ghost predicate SinceRecord(w: World, k0: nat, base: Spec) {
    && Inv(w) && k0 < |w.history|
    && (forall k :: k0 <= k < |w.history| ==> GoodVersion(w.history[k], base))
    && (w.rollout.Some? ==> GoodVersion(w.rollout.value, base))
  }

  ghost predicate GoodVersion(inst: Instance, base: Spec) {
    WellFormed(inst.spec) && OfRecord(inst, base)
  }

  /** The instance controller's copy may be stale, but not older than the record; edits are
      well formed. */
  ghost predicate ReadsSince(w: World, e: Event, k0: nat) {
    && (e.ReadForRollout? ==> k0 <= e.k)
    && (e.EditSpec? ==> WellFormed(e.spec))
  }

  lemma SinceRecordStep(w: World, e: Event, w': World, k0: nat, base: Spec)
    requires SinceRecord(w, k0, base) && Step(w, e, w') && ReadsSince(w, e, k0)
    ensures SinceRecord(w', k0, base)
  {
    hide UpToDate, MigrationIdentity, AppliedIdentity, SameTarget, Decide, FinishPass, Inv, WellFormed, OfRecord;
    StepInv(w, e, w');
    HistoryStep(w, e, w');
    if e.EditSpec? {
      EditedSpec(w, e, w');
    }
    NewVersion(w, e, w', base);
    if e.Act? {
      ActKeepsRollout(w, e.expired, e.issues);
    }
  }

  lemma EditedSpec(w: World, e: Event, w': World)
    requires w.history != [] && Step(w, e, w') && e.EditSpec?
    ensures w'.history != [] && w'.Obj().spec == e.spec
  {
  }

  lemma NewVersion(w: World, e: Event, w': World, base: Spec)
    requires Inv(w) && Step(w, e, w') && GoodVersion(w.Obj(), base)
    ensures w'.history != [] && OfRecord(w'.Obj(), base)
  {
    hide UpToDate, MigrationIdentity, SameTarget, Decide, FinishPass, Inv, WellFormed, PartsOf;
    StepInv(w, e, w');
    RecordStep(w, e, w');
    var s :| Names(w.Obj(), s, base);
    var a, b := AppliedIdentity(w.Obj()), AppliedIdentity(w'.Obj());
    if b == a {
      assert Names(w'.Obj(), s, base);
    } else {
      BuiltIsComplete(w'.Obj().spec);
      RenderedTargetsAgree(s, w'.Obj().spec);
      assert Names(w'.Obj(), w'.Obj().spec, base);
    }
  }

  lemma ActKeepsRollout(w: World, expired: bool, issues: bool)
    requires Inv(w) && w.pc != Idle
    ensures FinishPass(w, expired, issues).rollout == w.rollout
    ensures FinishPass(w, expired, issues).deployed == w.deployed
  {
    hide Decide, Published, Desired;
  }

  /** One step deploys nothing, or it is an apply of a copy that keeps the target and can be built. */
  lemma DeployStep(w: World, e: Event, w': World, base: Spec, k0: nat)
    requires SinceRecord(w, k0, base) && Step(w, e, w')
    ensures w'.deployed ==
      if e.ApplyRollout? && w.rollout.Some?
        && TargetParts(w.rollout.value.spec) == TargetParts(base) && Buildable(w.rollout.value.spec)
      then Some(w.rollout.value.spec) else w.deployed
  {
    hide UpToDate, MigrationIdentity, OfRecord, RollsOut, Buildable, Decide, FinishPass, Inv, WellFormed, TargetParts;
    if e.Act? {
      ActKeepsRollout(w, e.expired, e.issues);
    } else if e.ApplyRollout? {
      RolloutFollowsTarget(base, w.rollout.value);
    }
  }

  ghost predicate ReadsSinceRun(ws: seq<World>, es: seq<Event>, k0: nat) {
    |ws| == |es| + 1 && forall i :: 0 <= i < |es| ==> ReadsSince(ws[i], es[i], k0)
  }

  /** The start of a run: `base`'s full identity is recorded in the current version, and no
      rollout is half-way. */
  ghost predicate JustRecorded(w: World, base: Spec) {
    && w.history != [] && Inv(w) && WellFormed(w.Obj().spec) && WellFormed(base)
    && w.Obj().appliedIdentity == MigrationIdentity(base) && w.rollout == None
  }

  lemma {:induction false} RecordLasts(ws: seq<World>, es: seq<Event>, base: Spec, j: nat)
    requires Run(ws, es) && JustRecorded(ws[0], base) && j < |ws|
    requires ReadsSinceRun(ws, es, |ws[0].history| - 1)
    ensures SinceRecord(ws[j], |ws[0].history| - 1, base)
  {
    hide SinceRecord, Inv, MigrationIdentity, WellFormed;
    var k0 := |ws[0].history| - 1;
    if j == 0 {
      StartsSince(ws[0], base);
    } else {
      RecordLasts(ws, es, base, j - 1);
      assert Step(ws[j - 1], es[j - 1], ws[j - 1 + 1]) && ReadsSince(ws[j - 1], es[j - 1], k0);
      SinceRecordStep(ws[j - 1], es[j - 1], ws[j], k0, base);
    }
  }

  lemma StartsSince(w: World, base: Spec)
    requires JustRecorded(w, base)
    ensures SinceRecord(w, |w.history| - 1, base)
  {
    hide MigrationIdentity, WellFormed, PartsOf;
    BuiltIsComplete(base);
    assert Names(w.Obj(), base, base);
  }

  /** Freeze safety: with `base`'s full identity recorded, every later Deployment apply deploys
      `base`'s target - from any copies that are not older than the record. */
  lemma {:induction false} DeployedTargetIsFixed(ws: seq<World>, es: seq<Event>, base: Spec, j: nat)
    requires Run(ws, es) && JustRecorded(ws[0], base) && j < |ws|
    requires ReadsSinceRun(ws, es, |ws[0].history| - 1)
    ensures ws[j].deployed == ws[0].deployed
            || (ws[j].deployed.Some? && TargetParts(ws[j].deployed.value) == TargetParts(base))
  {
    hide SinceRecord, Inv, MigrationIdentity, WellFormed, TargetParts;
    if j > 0 {
      DeployedTargetIsFixed(ws, es, base, j - 1);
      RecordLasts(ws, es, base, j - 1);
      assert Step(ws[j - 1], es[j - 1], ws[j - 1 + 1]);
      DeployStep(ws[j - 1], es[j - 1], ws[j], base, |ws[0].history| - 1);
    }
  }

  /** Once a Deployment runs on the recorded target it never leaves it. */
  lemma {:induction false} DeployedTargetNeverMoves(ws: seq<World>, es: seq<Event>, base: Spec, i: nat, j: nat)
    requires Run(ws, es) && JustRecorded(ws[0], base) && i <= j < |ws|
    requires ReadsSinceRun(ws, es, |ws[0].history| - 1)
    requires ws[i].deployed.Some? && TargetParts(ws[i].deployed.value) == TargetParts(base)
    ensures ws[j].deployed.Some? && TargetParts(ws[j].deployed.value) == TargetParts(base)
  {
    hide SinceRecord, Inv, MigrationIdentity, WellFormed, TargetParts;
    if i < j {
      DeployedTargetNeverMoves(ws, es, base, i, j - 1);
      RecordLasts(ws, es, base, j - 1);
      assert Step(ws[j - 1], es[j - 1], ws[j - 1 + 1]);
      DeployStep(ws[j - 1], es[j - 1], ws[j], base, |ws[0].history| - 1);
    }
  }

  /** The events strictly between `i` and `j` neither apply a rollout nor restart the operator. */
  ghost predicate Uninterrupted(es: seq<Event>, i: nat, j: nat)
    requires j <= |es|
  {
    forall m :: i < m < j ==> !es[m].ApplyRollout? && !es[m].Restart?
  }

  lemma {:induction false} CopyIsKept(ws: seq<World>, es: seq<Event>, i: nat, j: nat)
    requires Run(ws, es) && ws[0].history != [] && Inv(ws[0]) && i < j <= |es| && es[i].ReadForRollout? && Uninterrupted(es, i, j)
    ensures es[i].k < |ws[i].history| && ws[j].rollout == Some(ws[i].history[es[i].k])
  {
    hide Inv, FinishPass;
    assert Step(ws[j - 1], es[j - 1], ws[j - 1 + 1]);
    if i < j - 1 {
      CopyIsKept(ws, es, i, j - 1);
      RunInv(ws, es, j - 1);
      if es[j - 1].Act? {
        ActKeepsRollout(ws[j - 1], es[j - 1].expired, es[j - 1].issues);
      }
    }
  }

  /** Upgrades go through: with `base`'s full identity recorded, a spec read after the record is
      deployed by the apply of that copy exactly when it keeps the target and can be built - over
      every run, whatever is edited or recorded in between. */
  lemma UpgradeIsDeployed(ws: seq<World>, es: seq<Event>, base: Spec, i: nat, j: nat)
    requires Run(ws, es) && JustRecorded(ws[0], base) && ReadsSinceRun(ws, es, |ws[0].history| - 1)
    requires i < j < |es| && es[i].ReadForRollout? && es[j].ApplyRollout? && Uninterrupted(es, i, j)
    ensures es[i].k < |ws[i].history|
    ensures var spec := ws[i].history[es[i].k].spec;
      ws[j + 1].deployed ==
        if TargetParts(spec) == TargetParts(base) && Buildable(spec) then Some(spec) else ws[j].deployed
  {
    hide SinceRecord, Inv, TargetParts, Buildable, WellFormed, MigrationIdentity;
    CopyIsKept(ws, es, i, j);
    RecordLasts(ws, es, base, j);
    assert Step(ws[j], es[j], ws[j + 1]);
    DeployStep(ws[j], es[j], ws[j + 1], base, |ws[0].history| - 1);
  }

  // ----- copies older than the record -----

  function Elsewhere(spec: Spec): Spec {
    spec.(clickHouse := Some(ClickHouseSpec(false, None, "other", false, None, false)))
  }

  /** Two specs that differ in the ClickHouse database. */
  lemma MovedFacts(s1: Spec, s2: Spec)
    requires s1 == UpgradeSpec("1") && s2 == Elsewhere(s1)
    ensures TargetParts(s1) != TargetParts(s2) && MigrationIdentity(s2) != ""
  {
    hide MigrationIdentity;
    BuiltIsComplete(s2);
    assert "other"[0] == 'o' && "default"[0] == 'd';
  }

  /** An instance nothing was ever recorded for is rolled out and its migration is due. */
  lemma NeverMigrated(inst: Instance)
    requires inst.appliedIdentity == inst.migratedVersion == ""
    requires inst.spec == UpgradeSpec("1") || inst.spec == Elsewhere(UpgradeSpec("1"))
    ensures RollsOut(inst) && Decide(inst) == Examine
  {
    hide MigrationIdentity;
    assert AppliedIdentity(inst) == "" && LegacyBaseline(inst) == None;
  }

  /** A copy from before the record deploys the target it shows, whatever has been recorded since:
      nothing was recorded in it to be frozen by. */
  lemma OlderCopyDeploysElsewhere() returns (ws: seq<World>, es: seq<Event>, base: Spec)
    ensures Run(ws, es) && Init(ws[0])
    ensures Last(ws).history != [] && Last(ws).Obj().appliedIdentity == MigrationIdentity(base)
    ensures Last(ws).deployed.Some? && TargetParts(Last(ws).deployed.value) != TargetParts(base)
  {
    hide UpToDate, SameTarget, MigrationIdentity, LegacyBaseline, AppliedIdentity, Decide, RollsOut, TargetParts;
    var s1 := UpgradeSpec("1");
    base := Elsewhere(s1);
    MovedFacts(s1, base);
    var job := Job(0, MigrationIdentity(base), 1, 0, false);
    var inst := Instance(0, s1, "", "", Unset, 0, 0);
    NeverMigrated(inst);
    NeverMigrated(inst.(rv := 1, spec := base));
    ws := [World([inst], Some(job), {Some(job)}, 1, 0, {}, {MigrationIdentity(base)}, Idle, None, None)];
    es := [];
    ws, es := Extend(ws, es, ReadForRollout(0));
    ws, es := Extend(ws, es, EditSpec(base));
    ws, es := Extend(ws, es, TakeSnapshot(1));
    ws, es := Extend(ws, es, ObserveJob(Some(job)));
    ws, es := Extend(ws, es, Act(false, false));
    ws, es := Extend(ws, es, ApplyRollout);
  }
}
