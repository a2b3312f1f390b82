/** Convergence: with the spec settled, the migration gets recorded, whatever Job was left
    over, whatever the sibling controllers write, and however many writes are lost to them. */
module Convergence {
  import opened Text
  import opened InstanceSpec
  import opened Identity
  import opened IdentityLaws
  import opened Protocol
  import opened ProtocolSafety
  import opened NoOverlap

  /** A spec the controller has no reason to refuse. */
  predicate Migratable(spec: Spec) {
    !MigrationsDisabled(spec) && !MissingMigrationKeys(spec) && !ConfigRejected(spec)
  }

  predicate Done(inst: Instance) {
    UpToDate(AppliedIdentity(inst), Desired(inst))
  }

  /** What may still happen once the spec is settled at version `k0`: snapshots are no older
      than that, Job reads are current, and the one-hour expiry spares a success that is still
      to be recorded. */
  ghost predicate Calm(w: World, e: Event, k0: nat)
    requires w.history != []
  {
    match e
    case EditSpec(_) => false
    case TakeSnapshot(k) => k0 <= k
    case ObserveJob(o) => o == w.job
    case ExpireJob => Spares(w, e) || w.job.value.succeeded == 0
    case _ => true
  }

  /** The expiry spares any Job that is due, also one that has failed. */
  ghost predicate Spares(w: World, e: Event)
    requires w.history != []
  {
    e.ExpireJob? ==> w.job.None? || Done(w.Obj()) || Mismatched(w.Obj(), w.job.value)
  }

  /** How far the cluster is from a recorded migration. */
  function Rank(w: World): nat
    requires w.history != []
  {
    if Done(w.Obj()) then 0
    else if w.job.None? then 3
    else if w.job.value.terminating then 4
    else if Mismatched(w.Obj(), w.job.value) then 5
    else if w.job.value.succeeded == 0 then 2
    else 1
  }

  ghost predicate SettledInv(w: World, spec: Spec, k0: nat) {
    && Inv(w) && Exclusive(w)
    && k0 < |w.history|
    && (forall k :: k0 <= k < |w.history| ==> w.history[k].spec == spec)
    && (forall k :: k0 <= k < |w.history| && Done(w.history[k]) ==> Done(w.Obj()))
    && SameTarget(AppliedIdentity(w.Obj()), MigrationIdentity(spec))
    && (w.pc.Holding? || w.pc.Observed? ==> k0 <= w.pc.snap.rv)
    && (w.pc.Creating? ==> w.pc.stamp == MigrationIdentity(spec))
  }

  // ----- no settled step moves away from the goal -----

  /** A record, once it covers the spec, keeps covering it; and an uncovered one changes only
      to the desired identity. */
  lemma RecordSettles(w: World, e: Event, w': World, spec: Spec, k0: nat)
    requires SettledInv(w, spec, k0) && Step(w, e, w') && Calm(w, e, k0)
    ensures w'.history != [] && w'.Obj().spec == spec
    ensures AppliedIdentity(w'.Obj()) == AppliedIdentity(w.Obj()) || AppliedIdentity(w'.Obj()) == MigrationIdentity(spec)
    ensures Done(w.Obj()) ==> Done(w'.Obj())
    ensures SameTarget(AppliedIdentity(w'.Obj()), MigrationIdentity(spec))
  {
    hide UpToDate, SameTarget, MigrationIdentity, LegacyBaseline, Decide, FinishPass, SplitRef;
    StepInv(w, e, w');
    RecordStep(w, e, w');
    HistoryStep(w, e, w');
    if AppliedIdentity(w'.Obj()) != AppliedIdentity(w.Obj()) {
      Covered(spec);
    }
  }

  lemma Covered(spec: Spec)
    ensures MigrationIdentity(spec) != ""
    ensures UpToDate(MigrationIdentity(spec), MigrationIdentity(spec))
    ensures SameTarget(MigrationIdentity(spec), MigrationIdentity(spec))
  {
    BuiltIsComplete(spec);
    SameTargetReflexive(MigrationIdentity(spec));
    GateMatchesRefusal(MigrationIdentity(spec), MigrationIdentity(spec));
  }

  lemma SettledStep(w: World, e: Event, w': World, spec: Spec, k0: nat)
    requires SettledInv(w, spec, k0) && Step(w, e, w') && Calm(w, e, k0)
    ensures SettledInv(w', spec, k0)
  {
    hide UpToDate, SameTarget, MigrationIdentity, LegacyBaseline, Decide, AppliedIdentity, Published, FinishPass, Exclusive, Inv;
    assert w'.history != [] && Inv(w') by { StepInv(w, e, w'); }
    assert Exclusive(w') by { ExclusiveStep(w, e, w'); }
    RecordSettles(w, e, w', spec, k0);
    HistoryStep(w, e, w');
    PcSettles(w, e, w', spec, k0);
  }

  lemma PcSettles(w: World, e: Event, w': World, spec: Spec, k0: nat)
    requires SettledInv(w, spec, k0) && Step(w, e, w') && Calm(w, e, k0)
    ensures w'.pc.Holding? || w'.pc.Observed? ==> k0 <= w'.pc.snap.rv
    ensures w'.pc.Creating? ==> w'.pc.stamp == MigrationIdentity(spec)
  {
    hide UpToDate, SameTarget, MigrationIdentity, LegacyBaseline, Decide, AppliedIdentity, Published;
  }

  /** Every settled step keeps the rank or lowers it, so long as due Jobs are spared; and after
      a success it does so in any case. */
  lemma RankNeverRises(w: World, e: Event, w': World, spec: Spec, k0: nat)
    requires SettledInv(w, spec, k0) && Step(w, e, w') && Calm(w, e, k0)
    requires Spares(w, e) || Rank(w) <= 1
    ensures w'.history != [] && Rank(w') <= Rank(w)
  {
    hide UpToDate, SameTarget, MigrationIdentity, LegacyBaseline, Decide, AppliedIdentity, Published, FinishPass;
    RecordSettles(w, e, w', spec, k0);
    HistoryStep(w, e, w');
    if !Done(w'.Obj()) && e.Act? {
      ActOnJob(w, e.expired, e.issues, spec, k0);
    }
  }

  /** What a pass does to the Job while the migration is not recorded. */
  lemma ActOnJob(w: World, expired: bool, issues: bool, spec: Spec, k0: nat)
    requires SettledInv(w, spec, k0) && w.pc != Idle && !Done(w.Obj())
    ensures var w' := FinishPass(w, expired, issues);
      || w'.job == w.job
      || (w.job.None? && w'.job.Some? && w'.job.value.stamp == MigrationIdentity(spec)
          && !w'.job.value.terminating && w'.job.value.succeeded == 0)
      || (w.job.Some? && w.job.value.stamp != MigrationIdentity(spec) && w'.job == Some(w.job.value.(terminating := true)))
  {
    hide UpToDate, SameTarget, MigrationIdentity, LegacyBaseline, AppliedIdentity, Published;
    if w.pc.Observed? {
      var snap := w.pc.snap;
      assert snap == w.history[snap.rv] && snap.spec == spec;
      assert !Done(snap);
      NotDone(snap);
    }
  }

  lemma NotDone(inst: Instance)
    requires !Done(inst)
    ensures Decide(inst) != CleanUp && !Decide(inst).RecordBaseline?
  {
    hide UpToDate, MigrationIdentity, SameTarget;
  }

  // ----- one undisturbed pass makes progress -----

  ghost predicate Forever(r: nat -> World, e: nat -> Event, k0: nat) {
    forall i: nat :: r(i).history != [] && Step(r(i), e(i), r(i + 1)) && Calm(r(i), e(i), k0)
  }

  /** From `j` on the events are one whole pass on a current snapshot, with nothing between. */
  ghost predicate Undisturbed(r: nat -> World, e: nat -> Event, j: nat) {
    && r(j).history != [] && r(j).pc == Idle
    && e(j) == TakeSnapshot(|r(j).history| - 1)
    && (NeedsJob(r(j).Obj()) ==> e(j + 1).ObserveJob? && e(j + 2).Act? && (r(j + 3).pc.Creating? ==> e(j + 3).Act?))
    && (!NeedsJob(r(j).Obj()) ==> e(j + 1).Act?)
  }

  lemma DueIsExamined(w: World, spec: Spec, k0: nat)
    requires SettledInv(w, spec, k0) && Migratable(spec) && !Done(w.Obj())
    ensures Decide(w.Obj()) == Examine
  {
    hide UpToDate, MigrationIdentity, SameTarget;
    assert w.Obj().spec == spec;
  }

  /** The worlds of an undisturbed pass over a due migration. */
  lemma PassSteps(r: nat -> World, e: nat -> Event, spec: Spec, k0: nat, j: nat)
    requires Forever(r, e, k0) && SettledInv(r(j), spec, k0) && Migratable(spec)
    requires Undisturbed(r, e, j) && !Done(r(j).Obj())
    ensures r(j + 2) == r(j).(pc := Observed(r(j).Obj(), r(j).job))
    ensures e(j + 2).Act? && r(j + 3) == FinishPass(r(j + 2), e(j + 2).expired, e(j + 2).issues)
    ensures r(j + 3).pc.Creating? ==> e(j + 3).Act?
  {
    hide UpToDate, MigrationIdentity, SameTarget, Decide, AppliedIdentity, FinishPass, Inv, Exclusive;
    DueIsExamined(r(j), spec, k0);
    assert NeedsJob(r(j).Obj());
    assert Step(r(j), e(j), r(j + 1)) && Step(r(j + 1), e(j + 1), r(j + 2)) && Step(r(j + 2), e(j + 2), r(j + 3));
    assert Calm(r(j + 1), e(j + 1), k0);
  }

  lemma LastVersion(w: World)
    requires Inv(w)
    ensures w.Obj().rv == |w.history| - 1
  {
  }

  /** Publishing the success of a matching Job covers the spec. */
  lemma RecordedIsDone(snap: Instance, o: Option<Job>)
    requires Decide(snap) == Examine && o.Some? && !Mismatched(snap, o.value) && o.value.succeeded > 0
    ensures forall issues, rv :: var inst := Published(snap, o, issues);
      inst != snap && Done(inst.(rv := rv)) && inst.rv == snap.rv
  {
    hide UpToDate, SameTarget, MigrationIdentity, LegacyBaseline;
    Covered(snap.spec);
  }

  lemma PassLowersRank(r: nat -> World, e: nat -> Event, spec: Spec, k0: nat, j: nat) returns (n: nat)
    requires Forever(r, e, k0) && SettledInv(r(j), spec, k0) && Migratable(spec)
    requires Undisturbed(r, e, j)
    requires Rank(r(j)) in {1, 3, 5}
    ensures j <= n && Rank(r(n)) < Rank(r(j))
  {
    hide UpToDate, MigrationIdentity, SameTarget, Decide, AppliedIdentity, LegacyBaseline, Inv, Exclusive;
    PassSteps(r, e, spec, k0, j);
    DueIsExamined(r(j), spec, k0);
    var snap := r(j).Obj();
    n := j + 3;
    if Rank(r(j)) == 3 {
      assert r(n).pc.Creating?;
      assert Step(r(n), e(n), r(n + 1));
      n := j + 4;
    } else if Rank(r(j)) == 1 {
      assert snap.rv == |r(j).history| - 1 by { LastVersion(r(j)); }
      RecordedIsDone(snap, r(j).job);
    }
  }

  // ----- main result -----

  lemma {:induction false} SettledFrom(r: nat -> World, e: nat -> Event, spec: Spec, k0: nat, i: nat, j: nat)
    requires Forever(r, e, k0) && SettledInv(r(i), spec, k0) && i <= j
    ensures SettledInv(r(j), spec, k0)
    decreases j - i
  {
    hide SettledInv, Step, Calm;
    if i < j {
      SettledFrom(r, e, spec, k0, i, j - 1);
      assert Step(r(j - 1), e(j - 1), r(j - 1 + 1)) && Calm(r(j - 1), e(j - 1), k0);
      SettledStep(r(j - 1), e(j - 1), r(j), spec, k0);
    }
  }

  /** No due Job expires, whatever has become of it. */
  ghost predicate SparesDue(r: nat -> World, e: nat -> Event) {
    forall i: nat :: r(i).history != [] && Spares(r(i), e(i))
  }

  lemma {:induction false} RankFrom(r: nat -> World, e: nat -> Event, spec: Spec, k0: nat, i: nat, j: nat)
    requires Forever(r, e, k0) && SettledInv(r(i), spec, k0) && i <= j
    requires SparesDue(r, e) || Rank(r(i)) <= 1
    ensures SettledInv(r(j), spec, k0) && r(j).history != [] && Rank(r(j)) <= Rank(r(i))
    decreases j - i
  {
    hide SettledInv, Step, Calm, Spares, Rank;
    if i < j {
      RankFrom(r, e, spec, k0, i, j - 1);
      assert Step(r(j - 1), e(j - 1), r(j - 1 + 1)) && Calm(r(j - 1), e(j - 1), k0);
      assert SparesDue(r, e) ==> Spares(r(j - 1), e(j - 1));
      SettledStep(r(j - 1), e(j - 1), r(j), spec, k0);
      RankNeverRises(r(j - 1), e(j - 1), r(j), spec, k0);
    }
  }

  ghost predicate JobTerminating(w: World) {
    w.job.Some? && w.job.value.terminating
  }

  ghost predicate JobRunning(w: World, spec: Spec) {
    w.job.Some? && !w.job.value.terminating && w.job.value.stamp == MigrationIdentity(spec) && w.job.value.succeeded == 0
  }

  /** When it is the controller's turn it gets a pass to itself, unless things move on without
      one; deletions finish, and a due Job does not run for ever without succeeding. */
  ghost predicate Fair(r: nat -> World, e: nat -> Event, spec: Spec) {
    forall i: nat :: TurnAfter(r, e, i) && DrainedAfter(r, i) && FinishedAfter(r, spec, i)
  }

  /** The next move is the controller's: a Job to delete, to create, or to record. */
  predicate ItsTurn(w: World) {
    w.history != [] && Rank(w) in {1, 3, 5}
  }

  ghost predicate TurnAfter(r: nat -> World, e: nat -> Event, i: nat) {
    ItsTurn(r(i)) ==> exists j: nat :: i <= j && (Undisturbed(r, e, j) || MovedOn(r, i, j))
  }

  ghost predicate MovedOn(r: nat -> World, i: nat, j: nat) {
    r(i).history != [] && r(j).history != [] && Rank(r(j)) < Rank(r(i))
  }

  ghost predicate DrainedAfter(r: nat -> World, i: nat) {
    exists j: nat :: i <= j && !JobTerminating(r(j))
  }

  ghost predicate FinishedAfter(r: nat -> World, spec: Spec, i: nat) {
    exists j: nat :: i <= j && !JobRunning(r(j), spec)
  }

  /** The settled invariant holds from any reachable state with no pass under way whose spec
      is not a retarget - whatever Job is there. */
  lemma SettlesFrom(w: World)
    requires Inv(w) && Exclusive(w) && w.pc == Idle
    requires SameTarget(AppliedIdentity(w.Obj()), Desired(w.Obj()))
    ensures SettledInv(w, w.Obj().spec, |w.history| - 1)
  {
  }

  lemma LowerRank(r: nat -> World, e: nat -> Event, spec: Spec, k0: nat, i: nat) returns (n: nat)
    requires Forever(r, e, k0) && SparesDue(r, e) && Fair(r, e, spec) && SettledInv(r(i), spec, k0) && Migratable(spec)
    requires Rank(r(i)) > 0
    ensures i <= n && Rank(r(n)) < Rank(r(i))
  {
    hide UpToDate, MigrationIdentity, SameTarget, Decide, AppliedIdentity, Inv, Exclusive, Undisturbed;
    assert TurnAfter(r, e, i) && DrainedAfter(r, i) && FinishedAfter(r, spec, i);
    if Rank(r(i)) == 4 {
      n :| i <= n && !JobTerminating(r(n));
      RankFrom(r, e, spec, k0, i, n);
    } else if Rank(r(i)) == 2 {
      n :| i <= n && !JobRunning(r(n), spec);
      RankFrom(r, e, spec, k0, i, n);
    } else {
      n := TakesTurn(r, e, spec, k0, i);
    }
  }

  /** When it is the controller's turn, things move on. */
  lemma TakesTurn(r: nat -> World, e: nat -> Event, spec: Spec, k0: nat, i: nat) returns (n: nat)
    requires Forever(r, e, k0) && TurnAfter(r, e, i) && SettledInv(r(i), spec, k0) && Migratable(spec)
    requires ItsTurn(r(i)) && (SparesDue(r, e) || Rank(r(i)) <= 1)
    ensures i <= n && Rank(r(n)) < Rank(r(i))
  {
    hide Undisturbed, SettledInv, Rank, Forever, Migratable, SparesDue;
    var j: nat :| i <= j && (Undisturbed(r, e, j) || MovedOn(r, i, j));
    RankFrom(r, e, spec, k0, i, j);
    n := j;
    if Rank(r(j)) == Rank(r(i)) {
      n := PassLowersRank(r, e, spec, k0, j);
    }
  }

  lemma {:induction false} ReachesDone(r: nat -> World, e: nat -> Event, spec: Spec, k0: nat, i: nat) returns (n: nat)
    requires Forever(r, e, k0) && SparesDue(r, e) && Fair(r, e, spec) && SettledInv(r(i), spec, k0) && Migratable(spec)
    ensures i <= n && SettledInv(r(n), spec, k0) && Rank(r(n)) == 0
    decreases Rank(r(i))
  {
    hide SettledInv, Fair, Step, Calm, Rank, SparesDue;
    n := i;
    if Rank(r(i)) > 0 {
      var m := LowerRank(r, e, spec, k0, i);
      SettledFrom(r, e, spec, k0, i, m);
      n := ReachesDone(r, e, spec, k0, m);
    }
  }

  /** From `n` on the recorded identity covers the spec for good. */
  ghost predicate DoneFrom(r: nat -> World, n: nat) {
    forall m: nat :: n <= m ==> r(m).history != [] && Done(r(m).Obj())
  }

  lemma DoneLasts(r: nat -> World, e: nat -> Event, spec: Spec, k0: nat, n: nat)
    requires Forever(r, e, k0) && SettledInv(r(n), spec, k0) && Rank(r(n)) == 0
    ensures DoneFrom(r, n)
  {
    hide SettledInv, Step, Calm, UpToDate, AppliedIdentity, MigrationIdentity;
    forall m: nat | n <= m ensures r(m).history != [] && Done(r(m).Obj()) {
      RankFrom(r, e, spec, k0, n, m);
    }
  }

  /** Convergence: in every fair run with a settled, migratable spec, from some moment on the
      recorded identity covers the spec for good. */
  lemma Converges(r: nat -> World, e: nat -> Event, spec: Spec, k0: nat) returns (n: nat)
    requires Forever(r, e, k0) && SparesDue(r, e) && Fair(r, e, spec) && SettledInv(r(0), spec, k0) && Migratable(spec)
    ensures DoneFrom(r, n)
  {
    n := ReachesDone(r, e, spec, k0, 0);
    DoneLasts(r, e, spec, k0, n);
  }

  // ----- with attempts that fail and expire -----

  /** A Job for the spec has succeeded, or its success is recorded already. */
  predicate Succeeds(w: World) {
    w.history != [] && Rank(w) <= 1
  }

  /** However many attempts fail, expire and are made again: the migration is recorded for good if
      and only if some attempt succeeds. */
  lemma RecordedExactlyWhenSomeSucceeds(r: nat -> World, e: nat -> Event, spec: Spec, k0: nat)
    requires Forever(r, e, k0) && SettledInv(r(0), spec, k0) && Migratable(spec)
    requires forall i: nat :: TurnAfter(r, e, i)
    ensures (exists t: nat :: Succeeds(r(t))) <==> (exists n: nat :: DoneFrom(r, n))
  {
    hide SettledInv, Step, Calm, Forever, Migratable, TurnAfter, DoneFrom, Undisturbed, Rank;
    if t: nat :| Succeeds(r(t)) {
      SettledFrom(r, e, spec, k0, 0, t);
      var n := t;
      if Rank(r(t)) == 1 {
        n := TakesTurn(r, e, spec, k0, t);
        SettledFrom(r, e, spec, k0, t, n);
      }
      DoneLasts(r, e, spec, k0, n);
      assert DoneFrom(r, n);
    }
    if n: nat :| DoneFrom(r, n) {
      DoneSucceeds(r, n);
    }
  }

  lemma DoneSucceeds(r: nat -> World, n: nat)
    requires DoneFrom(r, n)
    ensures Succeeds(r(n))
  {
  }

  /** And only then: while a retarget stands, nothing ever covers it - with any snapshots, any
      Job reads and any Job events. */
  lemma {:induction false} RetargetIsNeverCovered(ws: seq<World>, es: seq<Event>, j: nat)
    requires Run(ws, es) && Inv(ws[0]) && j < |ws|
    requires forall i :: 0 <= i < |es| ==> !es[i].EditSpec?
    requires !SameTarget(AppliedIdentity(ws[0].Obj()), Desired(ws[0].Obj()))
    ensures ws[j].history != [] && ws[j].Obj().spec == ws[0].Obj().spec
    ensures AppliedIdentity(ws[j].Obj()) == AppliedIdentity(ws[0].Obj()) && !Done(ws[j].Obj())
  {
    hide UpToDate, MigrationIdentity, SameTarget, LegacyBaseline, Decide, FinishPass;
    if j == 0 {
      CoveredIsSameTarget(ws[0].Obj());
    } else {
      RetargetIsNeverCovered(ws, es, j - 1);
      RunInv(ws, es, j - 1);
      assert Step(ws[j - 1], es[j - 1], ws[j - 1 + 1]);
      RecordStep(ws[j - 1], es[j - 1], ws[j]);
      HistoryStep(ws[j - 1], es[j - 1], ws[j]);
    }
  }

  lemma CoveredIsSameTarget(inst: Instance)
    ensures Done(inst) ==> SameTarget(AppliedIdentity(inst), Desired(inst))
  {
    if Done(inst) {
      GateMatchesRefusal(AppliedIdentity(inst), Desired(inst));
    }
  }
}
