/** Safety of the migration protocol over every run, whatever snapshots and Job states the
    controller's reads return. */
module ProtocolSafety {
  import opened Text
  import opened Identity
  import opened IdentityLaws
  import opened Protocol

  /** `inst` is a version the object really had. */
  ghost predicate Recorded(w: World, inst: Instance) {
    inst.rv < |w.history| && w.history[inst.rv] == inst
  }

  ghost predicate Inv(w: World) {
    && w.history != []
    && (forall k :: 0 <= k < |w.history| ==> w.history[k].rv == k)
    && (w.pc.Holding? || w.pc.Observed? ==> Recorded(w, w.pc.snap))
    && (w.pc.Observed? ==> w.pc.job in w.seen && NeedsJob(w.pc.snap))
    && w.job in w.seen
    && (forall j :: Some(j) in w.seen && j.succeeded > 0 ==> j.stamp in w.credited)
  }

  lemma InitInv(w: World)
    requires Init(w)
    ensures Inv(w)
  {
  }

  lemma StepInv(w: World, e: Event, w': World)
    requires Inv(w) && Step(w, e, w')
    ensures Inv(w')
    ensures w.history <= w'.history
  {
    if e.Act? {
      ActInv(w, e.expired, e.issues);
    }
  }

  lemma WriteInv(w: World, snap: Instance, inst: Instance)
    requires Inv(w)
    ensures Inv(WriteStatus(w, snap, inst)) && w.history <= WriteStatus(w, snap, inst).history
    ensures WriteStatus(w, snap, inst) == w.(history := WriteStatus(w, snap, inst).history)
  {
  }

  lemma JobInv(w: World, j: Option<Job>)
    requires Inv(w) && (j.Some? && j.value.succeeded > 0 ==> j.value.stamp in w.credited)
    ensures Inv(SetJob(w, j)) && SetJob(w, j).history == w.history
  {
  }

  lemma ActInv(w: World, expired: bool, issues: bool)
    requires Inv(w) && w.pc != Idle
    ensures Inv(FinishPass(w, expired, issues))
    ensures w.history <= FinishPass(w, expired, issues).history
  {
    var done, w' := w.(pc := Idle), FinishPass(w, expired, issues);
    assert Inv(done);
    if w.pc.Observed? {
      ObservedInv(w, w.pc.snap, w.pc.job, expired, issues);
    } else if w.pc.Holding? {
      WriteInv(done, w.pc.snap, Published(w.pc.snap, None, issues));
    } else if w.job.None? {
      JobInv(done, Some(Job(w.uids, w.pc.stamp, 0, 0, false)));
    }
  }

  lemma ObservedInv(w: World, snap: Instance, o: Option<Job>, expired: bool, issues: bool)
    requires Inv(w) && w.pc == Observed(snap, o)
    ensures Inv(FinishPass(w, expired, issues))
    ensures w.history <= FinishPass(w, expired, issues).history
  {
    var done := w.(pc := Idle);
    if Decide(snap) == CleanUp {
      JobInv(done, None);
    } else if o.None? {
      WriteInv(done, snap, Published(snap, o, issues));
      assert FinishPass(w, expired, issues) == WriteStatus(done, snap, Published(snap, o, issues)).(pc := Creating(Desired(snap)));
    } else if Mismatched(snap, o.value) {
      if w.job.Some? {
        assert Some(w.job.value) in w.seen;
        JobInv(done, Some(w.job.value.(terminating := true)));
      }
    } else {
      WriteInv(done, snap, Published(snap, o, issues));
    }
  }

  lemma {:induction false} RunInv(ws: seq<World>, es: seq<Event>, i: nat)
    requires Run(ws, es) && Inv(ws[0]) && i < |ws|
    ensures Inv(ws[i])
  {
    if i > 0 {
      RunInv(ws, es, i - 1);
      StepInv(ws[i - 1], es[i - 1], ws[i]);
    }
  }

  // ----- what one step can do to the record -----

  /** A recorded success: the stamp of a Job that succeeded. */
  ghost predicate Earned(w: World, identity: string) {
    identity in w.credited
  }

  /** A baseline: the record agrees with the bare version it was back-filled from. */
  ghost predicate Backfilled(w: World, identity: string)
    requires w.history != []
  {
    w.Obj().migratedVersion != "" && UpToDate(LegacyIdentity(w.Obj().migratedVersion), identity)
  }

  /** A step leaves the recorded identity alone, or writes the identity of the very spec it
      commits on; what it writes keeps the recorded target and is earned or back-filled. */
  lemma RecordStep(w: World, e: Event, w': World)
    requires Inv(w) && Step(w, e, w')
    ensures var a, a' := w.Obj(), w'.Obj();
      || (a'.appliedIdentity == a.appliedIdentity && a'.migratedVersion == a.migratedVersion)
      || (&& a'.spec == a.spec
          && a'.appliedIdentity == Desired(a')
          && SameTarget(AppliedIdentity(a), a'.appliedIdentity)
          && (Earned(w', a'.appliedIdentity) || Backfilled(w', a'.appliedIdentity)))
  {
    hide UpToDate, SameTarget, MigrationIdentity, AppliedIdentity, Decide, Published, FinishPass, Sends;
    if e.Act? && w.pc != Idle && !w.pc.Creating? {
      var snap, o := w.pc.snap, if w.pc.Observed? then w.pc.job else None;
      ActRecord(w, e.expired, e.issues);
      WriteStep(w, snap, o, e.issues);
    } else if e.Act? {
      CreatingWritesNothing(w, e.expired, e.issues);
    }
  }

  lemma CreatingWritesNothing(w: World, expired: bool, issues: bool)
    requires w.history != [] && w.pc.Creating?
    ensures FinishPass(w, expired, issues).history == w.history
  {
  }

  /** All a pass can do to the object is the one status write its branch publishes. */
  lemma ActRecord(w: World, expired: bool, issues: bool)
    requires Inv(w) && (w.pc.Holding? || w.pc.Observed?)
    ensures var o := if w.pc.Observed? then w.pc.job else None;
      var w' := FinishPass(w, expired, issues);
      w'.history == WriteStatus(w, w.pc.snap, Published(w.pc.snap, o, issues)).history && w'.credited == w.credited
  {
    hide UpToDate, SameTarget, MigrationIdentity, LegacyBaseline, AppliedIdentity;
    var done := w.(pc := Idle);
    if w.pc.Observed? && Decide(w.pc.snap) == CleanUp {
      assert Published(w.pc.snap, w.pc.job, issues) == w.pc.snap;
    }
  }

  /** At most one version is appended, and only a spec edit changes the spec. */
  lemma HistoryStep(w: World, e: Event, w': World)
    requires Inv(w) && Step(w, e, w')
    ensures w'.history == w.history || w'.history == w.history + [w'.Obj()]
    ensures w'.history != [] && (w'.Obj().spec == w.Obj().spec || e.EditSpec?)
  {
    hide UpToDate, SameTarget, MigrationIdentity, LegacyBaseline, Decide, AppliedIdentity;
    if e.Act? && !w.pc.Creating? {
      ActRecord(w, e.expired, e.issues);
      var o := if w.pc.Observed? then w.pc.job else None;
      assert Published(w.pc.snap, o, e.issues).spec == w.pc.snap.spec;
    }
  }

  lemma WriteStep(w: World, snap: Instance, o: Option<Job>, issues: bool)
    requires Inv(w) && Recorded(w, snap) && (o == None || o in w.seen)
    ensures var a, a' := w.Obj(), WriteStatus(w, snap, Published(snap, o, issues)).Obj();
      || (a'.appliedIdentity == a.appliedIdentity && a'.migratedVersion == a.migratedVersion)
      || (&& a'.spec == a.spec
          && a'.appliedIdentity == Desired(a')
          && SameTarget(AppliedIdentity(a), a'.appliedIdentity)
          && (a'.appliedIdentity in w.credited
              || (a'.migratedVersion != "" && UpToDate(LegacyIdentity(a'.migratedVersion), a'.appliedIdentity))))
  {
    hide UpToDate, SameTarget, MigrationIdentity, AppliedIdentity, Decide, Published;
    PublishedRecord(snap, o, issues);
    if snap.rv == w.Obj().rv {
      assert snap == w.Obj();
    }
  }

  /** What a pass would record: nothing new, or the desired identity - earned by the Job it saw, or
      a baseline. */
  lemma PublishedRecord(snap: Instance, o: Option<Job>, issues: bool)
    ensures var inst := Published(snap, o, issues);
      && inst.spec == snap.spec
      && (|| (inst.appliedIdentity == snap.appliedIdentity && inst.migratedVersion == snap.migratedVersion)
          || (&& inst.appliedIdentity == Desired(snap) && SameTarget(AppliedIdentity(snap), Desired(snap))
              && (|| (o.Some? && o.value.succeeded > 0 && o.value.stamp == Desired(snap))
                  || (inst.migratedVersion != "" && UpToDate(LegacyIdentity(inst.migratedVersion), Desired(snap))))))
  {
    hide UpToDate, SameTarget, MigrationIdentity;
    if Decide(snap).RecordBaseline? {
      GateMatchesRefusal(AppliedIdentity(snap), Desired(snap));
    }
  }

  /** Earned stays earned: Jobs that succeeded are never un-credited. */
  lemma CreditGrows(w: World, e: Event, w': World)
    requires Inv(w) && Step(w, e, w')
    ensures w.credited <= w'.credited
  {
  }

  // ----- main results -----

  lemma {:induction false} RecordSince(ws: seq<World>, es: seq<Event>, i: nat, j: nat)
    requires Run(ws, es) && Inv(ws[0]) && i <= j < |ws|
    ensures ws[i].history != [] && ws[j].history != []
    ensures var a, b := AppliedIdentity(ws[i].Obj()), AppliedIdentity(ws[j].Obj());
      b == a || (Complete(b) && SameTarget(a, b))
  {
    hide SameTarget, MigrationIdentity, UpToDate, Apply, Enabled, Lookup, Inv;
    RunInv(ws, es, j);
    RunInv(ws, es, i);
    if i < j {
      RecordSince(ws, es, i, j - 1);
      RunInv(ws, es, j - 1);
      assert Step(ws[j - 1], es[j - 1], ws[j - 1 + 1]);
      RecordStep(ws[j - 1], es[j - 1], ws[j]);
      var a, m, b := AppliedIdentity(ws[i].Obj()), AppliedIdentity(ws[j - 1].Obj()), AppliedIdentity(ws[j].Obj());
      if b != m {
        BuiltIsComplete(ws[j].Obj().spec);
        if m != a {
          SameTargetTransitive(a, m, b);
        }
      }
    }
  }

  /** Target immutability: once anything is recorded, no later record ever reads as a
      retarget of it - over every run of spec edits, stale snapshots, lost writes and Job
      events, and for any recording, however old, at the start. */
  lemma TargetNeverMoves(ws: seq<World>, es: seq<Event>, i: nat, j: nat)
    requires Run(ws, es) && Inv(ws[0]) && i <= j < |ws|
    ensures ws[i].history != [] && ws[j].history != []
    ensures RetargetedComponents(AppliedIdentity(ws[i].Obj()), AppliedIdentity(ws[j].Obj())) == []
    ensures AppliedIdentity(ws[i].Obj()) != "" ==> AppliedIdentity(ws[j].Obj()) != ""
  {
    RecordSince(ws, es, i, j);
    SameTargetReflexive(AppliedIdentity(ws[i].Obj()));
  }

  /** No unearned success: in every reachable state the recorded identity is the one the run
      started with, the stamp of a Job that actually succeeded, or a baseline that agrees with
      the recorded version. */
  lemma {:induction false} NoUnearnedSuccess(ws: seq<World>, es: seq<Event>, j: nat)
    requires Run(ws, es) && Init(ws[0]) && j < |ws|
    ensures ws[j].history != []
    ensures var now := ws[j].Obj();
      || (now.appliedIdentity == ws[0].Obj().appliedIdentity && now.migratedVersion == ws[0].Obj().migratedVersion)
      || Earned(ws[j], now.appliedIdentity)
      || Backfilled(ws[j], now.appliedIdentity)
  {
    InitInv(ws[0]);
    RunInv(ws, es, j);
    if j > 0 {
      NoUnearnedSuccess(ws, es, j - 1);
      RunInv(ws, es, j - 1);
      RecordStep(ws[j - 1], es[j - 1], ws[j]);
      CreditGrows(ws[j - 1], es[j - 1], ws[j]);
    }
  }

  /** The record is written for the spec it is committed on, never for the spec of a stale
      snapshot. */
  lemma RecordedForCommittedSpec(ws: seq<World>, es: seq<Event>, i: nat)
    requires Run(ws, es) && Inv(ws[0]) && i < |es|
    ensures ws[i].history != [] && ws[i + 1].history != []
    ensures ws[i + 1].Obj().appliedIdentity != ws[i].Obj().appliedIdentity ==>
              ws[i + 1].Obj().appliedIdentity == Desired(ws[i + 1].Obj())
  {
    RunInv(ws, es, i);
    RunInv(ws, es, i + 1);
    RecordStep(ws[i], es[i], ws[i + 1]);
  }
}
