/** Whether passes keep coming: what asks the migration controller for a pass - spec edits, events
    of its Job, its own requeues - runs dry while a migration is due in exactly one way, by the
    rejection of the write that records a success. */
module Requests {
  import opened Text
  import opened InstanceSpec
  import opened Identity
  import opened Protocol
  import opened ProtocolSafety
  import opened NoOverlap
  import opened Convergence
  import MC = MigrationController

  /** The world with the controller's work queue and caches: `queued` asks for a pass; a lag is a
      spec edit since version `edited`, or a change of the Job, that the cache does not show yet
      and whose event is still to come. */
  datatype Watched = Watched(w: World, queued: bool, specLag: bool, jobLag: bool, edited: nat) {
    predicate Asked() {
      queued || specLag || jobLag
    }
  }

  /** A step of the world, and which of the outstanding events arrive just before it. */
  datatype Signal = Signal(event: Event, specArrives: bool, jobArrives: bool)

  function Deliver(s: Watched, g: Signal): Watched {
    s.(queued := s.queued || (s.specLag && g.specArrives) || (s.jobLag && g.jobArrives),
       specLag := s.specLag && !g.specArrives,
       jobLag := s.jobLag && !g.jobArrives)
  }

  /** A pass starts only when asked for, from a cache that shows every edit and Job change whose
      event has arrived. */
  predicate Allowed(s: Watched, e: Event) {
    && (e.TakeSnapshot? ==> s.queued && (s.specLag || s.edited <= e.k))
    && (e.ObserveJob? ==> s.jobLag || e.job == s.w.job)
  }

  /** Only spec edits and changes of the Job are watched; a pass that does not settle asks again,
      and a restarted controller looks at everything. */
  function React(s: Watched, e: Event, w': World): Watched
    requires e.Act? ==> s.w.history != [] && s.w.pc != Idle
  {
    Watched(w',
      (s.queued && !e.TakeSnapshot?) || e.Restart?
        || (e.Act? && w'.pc == Idle && MC.ActResult(s.w, e.issues) != MC.Settled)
        || (e.RejectWrite? && w'.pc == Idle && MC.RejectResult(s.w) != MC.Settled),
      s.specLag || e.EditSpec?,
      s.jobLag || w'.job != s.w.job,
      if e.EditSpec? then |s.w.history| else s.edited)
  }

  ghost predicate WatchStep(s: Watched, g: Signal, s': Watched) {
    && Step(s.w, g.event, s'.w)
    && Allowed(Deliver(s, g), g.event)
    && s' == React(Deliver(s, g), g.event, s'.w)
  }

  /** Only a Job pass would record it. */
  predicate Due(inst: Instance) {
    Decide(inst) == Examine
  }

  /** The controller has published the Job for the current spec as failed and stopped asking; the
      Job may have an attempt left. */
  predicate GivenUpOn(w: World)
    requires w.history != []
  {
    w.job.Some? && !Mismatched(w.Obj(), w.job.value) && w.job.value.succeeded == 0 && w.job.value.failed >= BACKOFF_LIMIT
  }

  /** A due migration is under way, asked for, or given up on. */
  predicate Remembered(s: Watched)
    requires s.w.history != []
  {
    Due(s.w.Obj()) ==> s.Asked() || s.w.pc != Idle || GivenUpOn(s.w)
  }

  /** The write that would record a success is rejected, and nothing else asks for a pass. */
  predicate Forgets(s: Watched, e: Event)
    requires s.w.history != []
  {
    && e.RejectWrite? && !s.Asked() && Due(s.w.Obj())
    && s.w.pc.Observed? && s.w.pc.job.Some? && s.w.pc.job.value.succeeded > 0
  }

  // ----- the invariant -----

  /** Since version `edited` the spec is the same, and the record is either the same or covers it. */
  ghost predicate SinceEdit(w: World, edited: nat) {
    && w.history != [] && edited < |w.history|
    && forall k :: edited <= k < |w.history| ==> Unmoved(w.history[k], w.Obj())
  }

  predicate Unmoved(before: Instance, now: Instance) {
    before.spec == now.spec && (AppliedIdentity(before) == AppliedIdentity(now) || Done(now))
  }

  /** A pass nobody has asked to repeat works on what is still there. */
  ghost predicate Fresh(w: World, edited: nat) {
    && (w.pc.Holding? || w.pc.Observed? ==> edited <= w.pc.snap.rv)
    && (w.pc.Observed? ==> w.pc.job == w.job)
  }

  ghost predicate Attentive(s: Watched) {
    && Inv(s.w) && SinceEdit(s.w, s.edited)
    && (!s.Asked() && s.w.pc != Idle ==> Fresh(s.w, s.edited))
  }

  // ----- it is kept -----

  lemma SinceEditKept(w: World, e: Event, w': World, edited: nat)
    requires Inv(w) && SinceEdit(w, edited) && Step(w, e, w')
    ensures SinceEdit(w', if e.EditSpec? then |w.history| else edited)
  {
    hide UpToDate, SameTarget, MigrationIdentity, AppliedIdentity, Decide, FinishPass, Inv;
    HistoryStep(w, e, w');
    if !e.EditSpec? {
      RecordOrCovered(w, e, w');
    }
  }

  /** A step that is no edit leaves the record alone, or makes it cover the spec; and what was
      covered stays covered. */
  lemma RecordOrCovered(w: World, e: Event, w': World)
    requires Inv(w) && Step(w, e, w') && !e.EditSpec?
    ensures w'.history != []
    ensures AppliedIdentity(w'.Obj()) == AppliedIdentity(w.Obj()) || Done(w'.Obj())
    ensures Done(w.Obj()) ==> Done(w'.Obj())
  {
    hide UpToDate, SameTarget, MigrationIdentity, Decide, FinishPass, Inv;
    StepInv(w, e, w');
    RecordStep(w, e, w');
    HistoryStep(w, e, w');
    Covered(w'.Obj().spec);
  }

  /** Whether a Job pass is due depends on the spec and the record alone. */
  lemma DueDepends(a: Instance, b: Instance)
    requires a.spec == b.spec
    ensures Due(a) <==>
      && !Done(a) && !MigrationsDisabled(a.spec) && SameTarget(AppliedIdentity(a), Desired(a))
      && !MissingMigrationKeys(a.spec) && !ConfigRejected(a.spec)
    ensures AppliedIdentity(a) == AppliedIdentity(b) ==> (Due(a) <==> Due(b))
  {
    hide UpToDate, SameTarget, MigrationIdentity;
  }

  /** A pass that settles leaves nothing due behind, unless it has given up on the Job. */
  lemma SettledLeavesNothingDue(w: World, expired: bool, issues: bool, edited: nat)
    requires Inv(w) && SinceEdit(w, edited) && Fresh(w, edited) && Enabled(w, Act(expired, issues))
    requires var w' := FinishPass(w, expired, issues);
      w'.pc == Idle && w'.job == w.job && MC.ActResult(w, issues) == MC.Settled
    ensures var w' := FinishPass(w, expired, issues); Due(w'.Obj()) ==> GivenUpOn(w')
  {
    hide UpToDate, SameTarget, MigrationIdentity, AppliedIdentity, Decide, FinishPass, Inv, Published;
    var e, w' := Act(expired, issues), FinishPass(w, expired, issues);
    assert Step(w, e, w');
    SinceEditKept(w, e, w', edited);
    HistoryStep(w, e, w');
    if Due(w'.Obj()) {
      DueDepends(w'.Obj(), w'.Obj());
      assert !w.pc.Creating?;
      var snap := w.pc.snap;
      SnapshotIsAVersion(w, edited);
      RecordOrCovered(w, e, w');
      assert w.history[snap.rv] == snap && Unmoved(snap, w.Obj());
      assert AppliedIdentity(snap) == AppliedIdentity(w'.Obj()) && snap.spec == w'.Obj().spec;
      DueDepends(snap, w'.Obj());
      DueSettles(w, expired, issues);
    }
  }

  lemma SnapshotIsAVersion(w: World, edited: nat)
    requires Inv(w) && Fresh(w, edited) && (w.pc.Holding? || w.pc.Observed?)
    ensures edited <= w.pc.snap.rv < |w.history| && w.history[w.pc.snap.rv] == w.pc.snap
  {
  }

  /** A pass that finds a migration due and settles has recorded it, or given up on the Job. */
  lemma DueSettles(w: World, expired: bool, issues: bool)
    requires w.history != [] && (w.pc.Holding? || w.pc.Observed?) && Due(w.pc.snap) && Enabled(w, Act(expired, issues))
    requires FinishPass(w, expired, issues).pc == Idle && MC.ActResult(w, issues) == MC.Settled
    requires w.pc.Observed? ==> w.pc.job == w.job
    requires w.pc.snap.spec == FinishPass(w, expired, issues).Obj().spec
    requires !Done(FinishPass(w, expired, issues).Obj())
    ensures GivenUpOn(FinishPass(w, expired, issues))
  {
    hide UpToDate, SameTarget, MigrationIdentity, AppliedIdentity, Decide, Published;
    var snap, o := w.pc.snap, w.pc.job;
    if o.Some? && !Mismatched(snap, o.value) && o.value.succeeded > 0 {
      SuccessIsRecorded(w, expired, issues);
    }
  }

  lemma SuccessIsRecorded(w: World, expired: bool, issues: bool)
    requires w.history != [] && w.pc.Observed? && Due(w.pc.snap) && MC.ActResult(w, issues) == MC.Settled
    requires w.pc.job.Some? && !Mismatched(w.pc.snap, w.pc.job.value) && w.pc.job.value.succeeded > 0
    ensures Done(FinishPass(w, expired, issues).Obj())
  {
    hide UpToDate, SameTarget, MigrationIdentity, AppliedIdentity, Decide, Published;
    var snap, o := w.pc.snap, w.pc.job;
    RecordedIsDone(snap, o);
    var inst := Published(snap, o, issues);
    assert Outcome(w, snap, inst) == Committed;
    assert Done(inst.(rv := |w.history|));
  }

  lemma AttentiveStep(s: Watched, g: Signal, s': Watched)
    requires Attentive(s) && WatchStep(s, g, s')
    ensures Attentive(s')
  {
    hide UpToDate, SameTarget, MigrationIdentity, AppliedIdentity, Decide, FinishPass, Inv, SinceEdit, Fresh, Sends;
    var e := g.event;
    StepInv(s.w, e, s'.w);
    SinceEditKept(s.w, e, s'.w, s.edited);
    assert s'.Asked() || !s.Asked() || e.TakeSnapshot?;
    if !s'.Asked() && s'.w.pc != Idle {
      PassStaysFresh(s, g, s');
    }
  }

  /** A pass nobody asks to repeat keeps working on what is there. */
  lemma PassStaysFresh(s: Watched, g: Signal, s': Watched)
    requires Attentive(s) && WatchStep(s, g, s') && !s'.Asked() && s'.w.pc != Idle
    ensures Fresh(s'.w, s'.edited)
  {
    hide UpToDate, SameTarget, MigrationIdentity, AppliedIdentity, Decide, Inv, SinceEdit, FinishPass, Sends;
    var w, e, w' := s.w, g.event, s'.w;
    assert w'.job == w.job && !e.EditSpec? && !e.Restart?;
    if e.Act? {
      ActsOn(w, e.expired, e.issues);
    } else if e.TakeSnapshot? {
      VersionNumber(w, e.k);
    }
  }

  /** Exactly a forgotten success leaves a due migration behind. */
  lemma RememberStep(s: Watched, g: Signal, s': Watched)
    requires Attentive(s) && WatchStep(s, g, s') && Remembered(s)
    ensures s'.w.history != [] && (Remembered(s') <==> !Forgets(Deliver(s, g), g.event))
  {
    hide UpToDate, SameTarget, MigrationIdentity, AppliedIdentity, Decide, FinishPass, Inv, SinceEdit, Fresh, GivenUpOn, Sends;
    var w, e, w' := s.w, g.event, s'.w;
    assert w.history != [] && w'.history != [] by { StepInv(w, e, w'); }
    if !s'.Asked() && w'.pc == Idle {
      assert w'.job == w.job && !e.EditSpec? && !e.Restart? && !e.TakeSnapshot?;
      if e.Act? {
        SettledLeavesNothingDue(w, e.expired, e.issues, s.edited);
      } else if e.RejectWrite? {
        SendsInPass(w, e.issues);
        RejectedLeaves(w, e.issues, s.edited);
      } else {
        IdleStays(w, e, w');
      }
    } else if Forgets(Deliver(s, g), e) {
      ForgetsQuietly(s, g, s');
    }
  }

  lemma SendsInPass(w: World, issues: bool)
    requires Sends(w, issues)
    ensures w.pc != Idle && !w.pc.Creating?
  {
  }

  /** A rejected write after which nothing asks for a pass leaves a due migration behind exactly
      when it would have recorded a success. */
  lemma RejectedLeaves(w: World, issues: bool, edited: nat)
    requires Inv(w) && SinceEdit(w, edited) && Fresh(w, edited) && Enabled(w, RejectWrite(issues))
    requires RejectPass(w).pc == Idle && MC.RejectResult(w) == MC.Settled
    ensures Due(w.Obj()) ==>
      (GivenUpOn(RejectPass(w)) <==> !(w.pc.Observed? && w.pc.job.Some? && w.pc.job.value.succeeded > 0))
  {
    hide UpToDate, SameTarget, MigrationIdentity, AppliedIdentity, Decide, Inv;
    if Due(w.Obj()) {
      var snap := w.pc.snap;
      SnapshotIsAVersion(w, edited);
      assert w.history[snap.rv] == snap && Unmoved(snap, w.Obj());
      DueDepends(w.Obj(), snap);
      DueSends(snap, if w.pc.Observed? then w.pc.job else None, issues);
    }
  }

  /** On a due migration a status is only sent from the Job's branches. */
  lemma DueSends(snap: Instance, o: Option<Job>, issues: bool)
    requires Due(snap)
    ensures NeedsJob(snap)
    ensures o.Some? && Mismatched(snap, o.value) ==> Published(snap, o, issues) == snap
  {
  }

  lemma ForgetsQuietly(s: Watched, g: Signal, s': Watched)
    requires Attentive(s) && WatchStep(s, g, s') && Forgets(Deliver(s, g), g.event)
    ensures !s'.Asked() && s'.w.pc == Idle
  {
    hide UpToDate, SameTarget, MigrationIdentity, AppliedIdentity, Decide, Inv, SinceEdit, Sends;
  }

  lemma VersionNumber(w: World, k: nat)
    requires Inv(w) && k < |w.history|
    ensures w.history[k].rv == k
  {
  }

  lemma ActsOn(w: World, expired: bool, issues: bool)
    requires w.history != [] && w.pc != Idle && FinishPass(w, expired, issues).pc != Idle
    ensures FinishPass(w, expired, issues).pc.Creating?
  {
    hide Decide, Published;
  }

  /** Between passes nothing but an edit makes a migration due, and nothing but the Job changes
      what has been given up on. */
  lemma IdleStays(w: World, e: Event, w': World)
    requires Inv(w) && Step(w, e, w') && w.pc == Idle && w'.pc == Idle && w'.job == w.job
    requires !e.Act? && !e.RejectWrite? && !e.EditSpec? && !e.TakeSnapshot?
    ensures w'.history != [] && (Due(w'.Obj()) <==> Due(w.Obj())) && (GivenUpOn(w') <==> GivenUpOn(w))
  {
    hide UpToDate, SameTarget, MigrationIdentity, Decide;
    DueDepends(w.Obj(), w'.Obj());
  }

  // ----- over runs -----

  ghost predicate WatchRun(ss: seq<Watched>, gs: seq<Signal>) {
    |ss| == |gs| + 1 && forall i :: 0 <= i < |gs| ==> WatchStep(ss[i], gs[i], ss[i + 1])
  }

  /** The controller starts by looking at everything. */
  ghost predicate Started(s: Watched) {
    Init(s.w) && s.queued && s.edited == 0
  }

  lemma StartedAttentive(s: Watched)
    requires Started(s)
    ensures Attentive(s) && Remembered(s)
  {
    InitInv(s.w);
  }

  lemma {:induction false} AttentiveRun(ss: seq<Watched>, gs: seq<Signal>, i: nat)
    requires WatchRun(ss, gs) && Started(ss[0]) && i < |ss|
    ensures Attentive(ss[i]) && ss[i].w.history != []
  {
    hide Attentive, WatchStep, Started;
    if i == 0 {
      StartedAttentive(ss[0]);
    } else {
      AttentiveRun(ss, gs, i - 1);
      assert WatchStep(ss[i - 1], gs[i - 1], ss[i - 1 + 1]);
      AttentiveStep(ss[i - 1], gs[i - 1], ss[i]);
    }
    AttentiveHistory(ss[i]);
  }

  lemma AttentiveHistory(s: Watched)
    requires Attentive(s)
    ensures s.w.history != []
  {
  }

  ghost predicate RememberedNow(s: Watched) {
    s.w.history != [] && Remembered(s)
  }

  ghost predicate ForgetsNow(s: Watched, g: Signal) {
    s.w.history != [] && Forgets(Deliver(s, g), g.event)
  }

  ghost predicate RememberedUpTo(ss: seq<Watched>, n: nat)
    requires n < |ss|
  {
    forall i :: 0 <= i <= n ==> RememberedNow(ss[i])
  }

  ghost predicate NothingForgotten(ss: seq<Watched>, gs: seq<Signal>, n: nat)
    requires n <= |gs| <= |ss|
  {
    forall i :: 0 <= i < n ==> !ForgetsNow(ss[i], gs[i])
  }

  /** What is due is asked for, exactly: along every run - caches behind, events still to come,
      passes interrupted, writes lost or rejected - a due migration always has a pass under way
      or asked for, or has been given up on, if and only if no write that would record a success
      is rejected while nothing else asks for a pass. */
  lemma {:induction false} DueIsAskedExactly(ss: seq<Watched>, gs: seq<Signal>, n: nat)
    requires WatchRun(ss, gs) && Started(ss[0]) && n <= |gs|
    ensures RememberedUpTo(ss, n) <==> NothingForgotten(ss, gs, n)
  {
    hide Attentive, WatchStep, Started, Remembered, Forgets;
    if n == 0 {
      StartedAttentive(ss[0]);
      AttentiveRun(ss, gs, 0);
    } else {
      DueIsAskedExactly(ss, gs, n - 1);
      AttentiveRun(ss, gs, n - 1);
      AttentiveRun(ss, gs, n);
      assert RememberedUpTo(ss, n) <==> RememberedUpTo(ss, n - 1) && RememberedNow(ss[n]);
      assert NothingForgotten(ss, gs, n) <==> NothingForgotten(ss, gs, n - 1) && !ForgetsNow(ss[n - 1], gs[n - 1]);
      if RememberedUpTo(ss, n - 1) {
        assert RememberedNow(ss[n - 1]);
        assert WatchStep(ss[n - 1], gs[n - 1], ss[n - 1 + 1]);
        RememberStep(ss[n - 1], gs[n - 1], ss[n]);
      }
    }
  }

  /** So without such a rejection nothing due is forgotten. */
  lemma DueIsAsked(ss: seq<Watched>, gs: seq<Signal>, i: nat)
    requires WatchRun(ss, gs) && Started(ss[0]) && i < |ss| && NothingForgotten(ss, gs, |gs|)
    ensures Attentive(ss[i])
    ensures Due(ss[i].w.Obj()) ==> ss[i].Asked() || ss[i].w.pc != Idle || GivenUpOn(ss[i].w)
  {
    hide Attentive, WatchStep, Started, ForgetsNow, Due, GivenUpOn;
    AttentiveRun(ss, gs, i);
    DueIsAskedExactly(ss, gs, i);
    assert RememberedNow(ss[i]);
  }

  // ----- a success that is forgotten -----

  lemma Signalled(ss: seq<Watched>, gs: seq<Signal>, g: Signal) returns (ss': seq<Watched>, gs': seq<Signal>)
    requires WatchRun(ss, gs)
    requires var s := ss[|ss| - 1]; s.w.history != [] && Enabled(s.w, g.event) && Allowed(Deliver(s, g), g.event)
    ensures WatchRun(ss', gs') && ss'[0] == ss[0]
    ensures var s := ss[|ss| - 1]; ss'[|ss'| - 1] == React(Deliver(s, g), g.event, Apply(s.w, g.event))
  {
    hide React, Apply, Allowed;
    var s := ss[|ss| - 1];
    ss', gs' := ss + [React(Deliver(s, g), g.event, Apply(s.w, g.event))], gs + [g];
    assert ss'[|ss|].w == Apply(s.w, g.event) by { ReactsWith(Deliver(s, g), g.event, Apply(s.w, g.event)); }
    forall i | 0 <= i < |gs'| ensures WatchStep(ss'[i], gs'[i], ss'[i + 1]) {
      if i < |gs| { assert WatchStep(ss[i], gs[i], ss[i + 1]); }
    }
  }

  lemma ReactsWith(s: Watched, e: Event, w': World)
    requires e.Act? ==> s.w.history != [] && s.w.pc != Idle
    ensures React(s, e, w').w == w'
  {
  }

  /** It happens: the due Job has succeeded, its record is rejected, and the controller goes idle
      with nothing asked for - until the Job expires, and the migration runs again. */
  lemma RejectedSuccessIsForgotten() returns (ss: seq<Watched>, gs: seq<Signal>)
    ensures WatchRun(ss, gs) && Started(ss[0])
    ensures var s := ss[|ss| - 1];
      && s.w.history != [] && Due(s.w.Obj()) && !s.Asked() && s.w.pc == Idle && !GivenUpOn(s.w)
      && s.w.job.Some? && !Mismatched(s.w.Obj(), s.w.job.value) && s.w.job.value.succeeded > 0
  {
    hide UpToDate, SameTarget, MigrationIdentity, LegacyBaseline, AppliedIdentity, Decide;
    var s1, s2 := UpgradeSpec("1"), UpgradeSpec("2");
    var id1, id2 := MigrationIdentity(s1), MigrationIdentity(s2);
    var job := Job(0, id2, 1, 0, false);
    var inst := Instance(0, s2, id1, "", Unset, 0, 0);
    UpgradeDecisions(inst, s1, s2);
    assert Decide(inst) == Examine;
    var w := World([inst], Some(job), {Some(job)}, 1, 0, {}, {id2}, Idle, None, None);
    ss, gs := [Watched(w, true, false, false, 0)], [];
    ss, gs := Signalled(ss, gs, Signal(TakeSnapshot(0), false, false));
    ss, gs := Signalled(ss, gs, Signal(ObserveJob(Some(job)), false, false));
    assert Published(inst, Some(job), false).condition == Succeeded;
    ss, gs := Signalled(ss, gs, Signal(RejectWrite(false), false, false));
  }

  // ----- convergence, from the requests alone -----

  function Worlds(s: nat -> Watched): nat -> World {
    (i: nat) => s(i).w
  }

  function Events(g: nat -> Signal): nat -> Event {
    (i: nat) => g(i).event
  }

  ghost predicate WatchForever(s: nat -> Watched, g: nat -> Signal, k0: nat) {
    forall i: nat :: WatchStep(s(i), g(i), s(i + 1)) && Calm(s(i).w, g(i).event, k0) && Spares(s(i).w, g(i).event)
  }

  /** Only what is asked for is served: a request leads to some pass the controller has to
      itself, and a pass under way comes to its end. Deletions and due Jobs end as before. */
  ghost predicate Served(s: nat -> Watched, g: nat -> Signal, spec: Spec) {
    forall i: nat :: AskServed(s, g, i) && PassEnds(s, i)
                     && DrainedAfter(Worlds(s), i) && FinishedAfter(Worlds(s), spec, i)
  }

  ghost predicate AskServed(s: nat -> Watched, g: nat -> Signal, i: nat) {
    s(i).Asked() ==> exists j: nat :: i <= j && Undisturbed(Worlds(s), Events(g), j)
  }

  ghost predicate PassEnds(s: nat -> Watched, i: nat) {
    exists j: nat :: i <= j && s(j).w.pc == Idle
  }

  /** No success is forgotten on the way. */
  ghost predicate NeverForgets(s: nat -> Watched, g: nat -> Signal) {
    forall i: nat :: !ForgetsNow(s(i), g(i))
  }

  lemma {:induction false} AttentiveAt(s: nat -> Watched, g: nat -> Signal, k0: nat, i: nat)
    requires WatchForever(s, g, k0) && NeverForgets(s, g) && Attentive(s(0)) && RememberedNow(s(0))
    ensures Attentive(s(i)) && RememberedNow(s(i))
  {
    hide Attentive, WatchStep, Calm, Spares, Forgets, Remembered;
    if i > 0 {
      AttentiveAt(s, g, k0, i - 1);
      assert WatchStep(s(i - 1), g(i - 1), s(i - 1 + 1));
      AttentiveStep(s(i - 1), g(i - 1), s(i));
      RememberStep(s(i - 1), g(i - 1), s(i));
      assert !ForgetsNow(s(i - 1), g(i - 1));
    }
  }

  lemma WatchedForever(s: nat -> Watched, g: nat -> Signal, k0: nat)
    requires WatchForever(s, g, k0)
    ensures Forever(Worlds(s), Events(g), k0) && SparesDue(Worlds(s), Events(g))
  {
    hide Step, Calm, Spares;
    forall i: nat ensures s(i).w.history != [] && Step(s(i).w, g(i).event, s(i + 1).w) {
      assert WatchStep(s(i), g(i), s(i + 1));
      StepHasHistory(s(i).w, g(i).event, s(i + 1).w);
    }
    forall i: nat ensures Worlds(s)(i).history != [] && Step(Worlds(s)(i), Events(g)(i), Worlds(s)(i + 1))
                          && Calm(Worlds(s)(i), Events(g)(i), k0) && Spares(Worlds(s)(i), Events(g)(i)) {
      assert s(i).w.history != [];
      assert Calm(s(i).w, g(i).event, k0) && Spares(s(i).w, g(i).event);
    }
  }

  lemma StepHasHistory(w: World, e: Event, w': World)
    requires Step(w, e, w')
    ensures w.history != []
  {
  }

  /** When it is the controller's turn, a pass is under way or asked for. */
  lemma TurnIsAsked(s: Watched, spec: Spec, k0: nat)
    requires RememberedNow(s) && SettledInv(s.w, spec, k0) && Migratable(spec) && ItsTurn(s.w)
    ensures s.Asked() || s.w.pc != Idle
  {
    hide UpToDate, SameTarget, MigrationIdentity, AppliedIdentity, Decide, Inv;
    DueIsExamined(s.w, spec, k0);
  }

  lemma TurnComes(s: nat -> Watched, g: nat -> Signal, spec: Spec, k0: nat, i: nat)
    requires WatchForever(s, g, k0) && NeverForgets(s, g) && Attentive(s(0)) && RememberedNow(s(0)) && Served(s, g, spec)
    requires SettledInv(s(0).w, spec, k0) && Migratable(spec)
    ensures TurnAfter(Worlds(s), Events(g), i)
  {
    hide Attentive, WatchForever, NeverForgets, RememberedNow, SettledInv, Migratable, Undisturbed, Forever, SparesDue, Rank;
    var r := Worlds(s);
    WatchedForever(s, g, k0);
    if ItsTurn(r(i)) {
      SettledFrom(r, Events(g), spec, k0, 0, i);
      AttentiveAt(s, g, k0, i);
      TurnIsAsked(s(i), spec, k0);
      assert AskServed(s, g, i) && PassEnds(s, i);
      if !s(i).Asked() {
        var j: nat :| i <= j && s(j).w.pc == Idle;
        SettledFrom(r, Events(g), spec, k0, 0, j);
        RankFrom(r, Events(g), spec, k0, i, j);
        HistoryOf(r(j), spec, k0);
        if Rank(r(j)) == Rank(r(i)) {
          AttentiveAt(s, g, k0, j);
          TurnIsAsked(s(j), spec, k0);
          assert AskServed(s, g, j);
        } else {
          assert MovedOn(r, i, j);
        }
      }
    }
  }

  lemma HistoryOf(w: World, spec: Spec, k0: nat)
    requires SettledInv(w, spec, k0)
    ensures w.history != []
  {
  }

  /** Convergence without assuming that passes keep coming: with a settled, migratable spec, if
      requests are served and no success is forgotten, the recorded identity covers the spec for
      good. */
  lemma ConvergesOnRequests(s: nat -> Watched, g: nat -> Signal, spec: Spec, k0: nat) returns (n: nat)
    requires WatchForever(s, g, k0) && NeverForgets(s, g) && Attentive(s(0)) && RememberedNow(s(0)) && Served(s, g, spec)
    requires SettledInv(s(0).w, spec, k0) && Migratable(spec)
    ensures forall m: nat :: n <= m ==> s(m).w.history != [] && Done(s(m).w.Obj())
  {
    hide Attentive, WatchForever, NeverForgets, RememberedNow, SettledInv, Migratable, Forever, SparesDue, Done, AskServed, TurnAfter, DrainedAfter, FinishedAfter;
    var r, e := Worlds(s), Events(g);
    WatchedForever(s, g, k0);
    forall i: nat ensures TurnAfter(r, e, i) && DrainedAfter(r, i) && FinishedAfter(r, spec, i) {
      TurnComes(s, g, spec, k0, i);
      assert AskServed(s, g, i);
    }
    n := Converges(r, e, spec, k0);
    forall m: nat | n <= m ensures s(m).w.history != [] && Done(s(m).w.Obj()) {
      assert r(m) == s(m).w;
    }
  }
}
