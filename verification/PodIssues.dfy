/** Pod diagnosis: what is collected, and that the list written to status is canonical - it
    does not depend on the order pods are listed in, and capping it hides no fatal issue. */
module PodIssues {
  import opened Text

  datatype Termination = Termination(exitCode: int, reason: string, message: string)

  datatype ContainerState = Waiting(reason: string, message: string) | Terminated(last: Termination) | Running

  datatype ContainerStatus = ContainerStatus(
    name: string,
    ready: bool,
    state: ContainerState,
    previous: Option<Termination>,
    restartCount: int)

  datatype PodCondition = PodCondition(kind: string, status: string, reason: string, message: string)

  datatype Pod = Pod(
    name: string,
    deleting: bool,
    phase: string,
    conditions: seq<PodCondition>,
    initContainers: seq<ContainerStatus>,
    containers: seq<ContainerStatus>)

  /** The text of a message and the termination it describes, before rendering. */
  datatype Detail = Detail(text: string, termination: Option<Termination>)

  datatype PodIssue = PodIssue(
    pod: string,
    container: string,
    reason: string,
    message: Detail,
    restartCount: int,
    fatal: bool)

  const MAX_REPORTED := 5

  const FATAL_REASONS := {
    "ImagePullBackOff", "ErrImagePull", "InvalidImageName", "ErrImageNeverPull",
    "CreateContainerConfigError", "CreateContainerError"}

  const BENIGN_REASONS := {"", "ContainerCreating", "PodInitializing"}

  function ContainerIssue(pod: string, cs: ContainerStatus): Option<PodIssue> {
    if cs.ready then None
    else
      match cs.state
      case Waiting(reason, message) =>
        if reason in BENIGN_REASONS then None
        else Some(PodIssue(pod, cs.name, reason, Detail(message, cs.previous), cs.restartCount, reason in FATAL_REASONS))
      case Terminated(t) =>
        if t.exitCode == 0 then None
        else Some(PodIssue(pod, cs.name, if t.reason == "" then "Error" else t.reason,
                           Detail("", Some(t)), cs.restartCount, false))
      case Running => None
  }

  function ContainerIssues(pod: string, statuses: seq<ContainerStatus>): seq<PodIssue> {
    if statuses == [] then []
    else
      var n := |statuses| - 1;
      var issue := ContainerIssue(pod, statuses[n]);
      ContainerIssues(pod, statuses[..n]) + if issue.Some? then [issue.value] else []
  }

  predicate Unscheduled(c: PodCondition) {
    c.kind == "PodScheduled" && c.status == "False" && c.reason != ""
  }

  function ConditionIssues(pod: string, conditions: seq<PodCondition>): seq<PodIssue> {
    if conditions == [] then []
    else
      var n := |conditions| - 1;
      var c := conditions[n];
      ConditionIssues(pod, conditions[..n]) +
      if Unscheduled(c) then [PodIssue(pod, "", c.reason, Detail(c.message, None), 0, false)] else []
  }

  /** A terminating or finished pod has no issues. */
  function IssuesOf(p: Pod): seq<PodIssue> {
    if p.deleting || p.phase == "Succeeded" then []
    else ConditionIssues(p.name, p.conditions) + ContainerIssues(p.name, p.initContainers + p.containers)
  }

  function AllIssues(pods: seq<Pod>): seq<PodIssue> {
    if pods == [] then [] else AllIssues(pods[..|pods| - 1]) + IssuesOf(pods[|pods| - 1])
  }

  // ----- ordering -----

  datatype Key = Key(fatal: bool, pod: string, container: string)

  function KeyOf(i: PodIssue): Key {
    Key(i.fatal, i.pod, i.container)
  }

  /** Fatal first, then by pod, then by container. */
  predicate Before(a: Key, b: Key) {
    if a.fatal != b.fatal then a.fatal
    else if a.pod != b.pod then Less(a.pod, b.pod)
    else Less(a.container, b.container)
  }

  function Insert(x: PodIssue, ys: seq<PodIssue>): (r: seq<PodIssue>)
    ensures |r| == |ys| + 1
  {
    if ys == [] || !Before(KeyOf(ys[0]), KeyOf(x)) then [x] + ys else [ys[0]] + Insert(x, ys[1..])
  }

  /** A stable sort. */
  function Sort(xs: seq<PodIssue>): (r: seq<PodIssue>)
    ensures |r| == |xs|
  {
    if xs == [] then [] else Insert(xs[0], Sort(xs[1..]))
  }

  function Cap(xs: seq<PodIssue>): seq<PodIssue> {
    if |xs| > MAX_REPORTED then xs[..MAX_REPORTED] else xs
  }

  function Collect(pods: seq<Pod>): seq<PodIssue> {
    Cap(Sort(AllIssues(pods)))
  }

  predicate HasFatal(issues: seq<PodIssue>) {
    exists k :: 0 <= k < |issues| && issues[k].fatal
  }

  // ----- collectPodIssues and its loops -----

  method PodIssuesOf(p: Pod) returns (issues: seq<PodIssue>)
    ensures issues == IssuesOf(p)
  {
    issues := [];
    if p.deleting || p.phase == "Succeeded" {
      return;
    }
    for i := 0 to |p.conditions|
      invariant issues == ConditionIssues(p.name, p.conditions[..i])
    {
      assert p.conditions[..i + 1][..i] == p.conditions[..i];
      var c := p.conditions[i];
      if c.kind == "PodScheduled" && c.status == "False" && c.reason != "" {
        issues := issues + [PodIssue(p.name, "", c.reason, Detail(c.message, None), 0, false)];
      }
    }
    assert p.conditions[..|p.conditions|] == p.conditions;
    var statuses := p.initContainers + p.containers;
    ghost var scheduled := issues;
    for i := 0 to |statuses|
      invariant issues == scheduled + ContainerIssues(p.name, statuses[..i])
    {
      assert statuses[..i + 1][..i] == statuses[..i];
      var issue := ContainerIssue(p.name, statuses[i]);
      if issue.Some? {
        issues := issues + [issue.value];
      }
    }
    assert statuses[..|statuses|] == statuses;
  }

  method CollectPodIssues(pods: seq<Pod>) returns (issues: seq<PodIssue>)
    ensures issues == Collect(pods)
  {
    issues := [];
    for i := 0 to |pods|
      invariant issues == AllIssues(pods[..i])
    {
      assert pods[..i + 1][..i] == pods[..i];
      var more := PodIssuesOf(pods[i]);
      issues := issues + more;
    }
    assert pods[..|pods|] == pods;
    issues := Sort(issues);
    if |issues| > MAX_REPORTED {
      issues := issues[..MAX_REPORTED];
    }
  }

  method HasFatalIssue(issues: seq<PodIssue>) returns (fatal: bool)
    ensures fatal == HasFatal(issues)
  {
    for i := 0 to |issues|
      invariant forall k :: 0 <= k < i ==> !issues[k].fatal
    {
      if issues[i].fatal {
        return true;
      }
    }
    return false;
  }

  // ----- the sort is sorted and stable -----

  lemma BeforeTransitive(a: Key, b: Key, c: Key)
    requires Before(a, b) && Before(b, c)
    ensures Before(a, c)
  {
    if a.fatal == b.fatal == c.fatal {
      LessTotal(a.pod, b.pod);
      LessTotal(b.pod, c.pod);
      LessTotal(a.pod, c.pod);
      if a.pod != b.pod && b.pod != c.pod {
        LessTransitive(a.pod, b.pod, c.pod);
      } else if a.pod == b.pod == c.pod {
        LessTransitive(a.container, b.container, c.container);
      }
    }
  }

  lemma BeforeTotal(a: Key, b: Key)
    ensures (if Before(a, b) then 1 else 0) + (if Before(b, a) then 1 else 0) + (if a == b then 1 else 0) == 1
  {
    LessTotal(a.pod, b.pod);
    LessTotal(a.container, b.container);
  }

  /** No later element belongs before an earlier one. */
  ghost predicate Sorted(xs: seq<PodIssue>) {
    forall i, j :: 0 <= i < j < |xs| ==> !Before(KeyOf(xs[j]), KeyOf(xs[i]))
  }

  lemma {:induction false} InsertSorted(x: PodIssue, ys: seq<PodIssue>)
    requires Sorted(ys)
    ensures Sorted(Insert(x, ys))
    ensures forall y :: y in Insert(x, ys) <==> y == x || y in ys
  {
    var r := Insert(x, ys);
    if ys != [] {
      BeforeTotal(KeyOf(ys[0]), KeyOf(x));
      if Before(KeyOf(ys[0]), KeyOf(x)) {
        InsertSorted(x, ys[1..]);
        var rest := Insert(x, ys[1..]);
        assert ys == [ys[0]] + ys[1..];
        forall j | 0 < j < |r| ensures !Before(KeyOf(r[j]), KeyOf(r[0])) {
          assert r[j] == rest[j - 1];
          assert rest[j - 1] in rest;
          BeforeTotal(KeyOf(x), KeyOf(ys[0]));
        }
        forall i, j | 0 < i < j < |r| ensures !Before(KeyOf(r[j]), KeyOf(r[i])) {
          assert r[i] == rest[i - 1] && r[j] == rest[j - 1];
        }
      } else {
        forall j | 0 <= j < |ys| ensures !Before(KeyOf(ys[j]), KeyOf(x)) {
          if Before(KeyOf(ys[j]), KeyOf(x)) {
            BeforeTotal(KeyOf(x), KeyOf(ys[0]));
            if KeyOf(x) != KeyOf(ys[0]) {
              BeforeTransitive(KeyOf(ys[j]), KeyOf(x), KeyOf(ys[0]));
            }
          }
        }
      }
    }
  }

  lemma {:induction false} SortSorted(xs: seq<PodIssue>)
    ensures Sorted(Sort(xs))
    ensures forall y :: y in Sort(xs) <==> y in xs
  {
    if xs != [] {
      SortSorted(xs[1..]);
      InsertSorted(xs[0], Sort(xs[1..]));
      assert xs == [xs[0]] + xs[1..];
    }
  }

  /** The issues with a given key, in the order they stand. */
  function WithKey(xs: seq<PodIssue>, k: Key): seq<PodIssue> {
    if xs == [] then [] else (if KeyOf(xs[0]) == k then [xs[0]] else []) + WithKey(xs[1..], k)
  }

  lemma {:induction false} WithKeyConcat(a: seq<PodIssue>, b: seq<PodIssue>, k: Key)
    ensures WithKey(a + b, k) == WithKey(a, k) + WithKey(b, k)
  {
    if a == [] {
      assert a + b == b;
    } else {
      assert (a + b)[0] == a[0] && (a + b)[1..] == a[1..] + b;
      WithKeyConcat(a[1..], b, k);
    }
  }

  lemma {:induction false} WithKeyNone(xs: seq<PodIssue>, k: Key)
    ensures WithKey(xs, k) == [] <==> forall i :: 0 <= i < |xs| ==> KeyOf(xs[i]) != k
  {
    if xs != [] {
      WithKeyNone(xs[1..], k);
      assert forall i :: 0 < i < |xs| ==> xs[i] == xs[1..][i - 1];
      if forall i :: 0 <= i < |xs| ==> KeyOf(xs[i]) != k {
        forall i | 0 <= i < |xs[1..]| ensures KeyOf(xs[1..][i]) != k { assert xs[1..][i] == xs[i + 1]; }
      }
    }
  }

  lemma {:induction false} InsertStable(x: PodIssue, ys: seq<PodIssue>, k: Key)
    requires Sorted(ys)
    ensures WithKey(Insert(x, ys), k) == WithKey([x] + ys, k)
  {
    hide Before, Sorted;
    if ys != [] && Before(KeyOf(ys[0]), KeyOf(x)) {
      assert Sorted(ys[1..]) by { TailSorted(ys); }
      InsertStable(x, ys[1..], k);
      BeforeTotal(KeyOf(ys[0]), KeyOf(x));
      assert ys == [ys[0]] + ys[1..];
      PassingKeeps(x, ys[0], ys[1..], Insert(x, ys[1..]), k);
    }
  }

  lemma TailSorted(ys: seq<PodIssue>)
    requires Sorted(ys) && ys != []
    ensures Sorted(ys[1..])
  {
  }

  /** Passing an element with another key does not change the order under any key. */
  lemma PassingKeeps(x: PodIssue, y: PodIssue, rest: seq<PodIssue>, inserted: seq<PodIssue>, k: Key)
    requires KeyOf(x) != KeyOf(y) && WithKey(inserted, k) == WithKey([x] + rest, k)
    ensures WithKey([y] + inserted, k) == WithKey([x] + ([y] + rest), k)
  {
    assert ([y] + inserted)[1..] == inserted && ([y] + rest)[1..] == rest;
    assert ([x] + ([y] + rest))[1..] == [y] + rest && ([x] + rest)[1..] == rest;
  }

  /** Stability: sorting never reorders issues that share a key. */
  lemma {:induction false} SortStable(xs: seq<PodIssue>, k: Key)
    ensures WithKey(Sort(xs), k) == WithKey(xs, k)
  {
    if xs != [] {
      SortSorted(xs[1..]);
      SortStable(xs[1..], k);
      InsertStable(xs[0], Sort(xs[1..]), k);
      assert ([xs[0]] + Sort(xs[1..]))[1..] == Sort(xs[1..]);
    }
  }

  /** A sorted list is determined by its per-key sub-lists. */
  lemma {:induction false} SortedIsDetermined(a: seq<PodIssue>, b: seq<PodIssue>)
    requires Sorted(a) && Sorted(b)
    requires forall k :: WithKey(a, k) == WithKey(b, k)
    ensures a == b
  {
    if a == [] {
      if b != [] {
        WithKeyNone(a, KeyOf(b[0]));
        WithKeyNone(b, KeyOf(b[0]));
      }
    } else {
      WithKeyNone(a, KeyOf(a[0]));
      WithKeyNone(b, KeyOf(a[0]));
      HeadsAgree(a, b);
      var k0 := KeyOf(a[0]);
      assert WithKey(a, k0)[0] == a[0] && WithKey(b, k0)[0] == b[0];
      assert a[0] == b[0];
      forall k ensures WithKey(a[1..], k) == WithKey(b[1..], k) {
        TailsAgree(a, b, k);
      }
      SortedIsDetermined(a[1..], b[1..]);
      assert a == [a[0]] + a[1..] && b == [b[0]] + b[1..];
    }
  }

  lemma TailsAgree(a: seq<PodIssue>, b: seq<PodIssue>, k: Key)
    requires a != [] && b != [] && a[0] == b[0] && WithKey(a, k) == WithKey(b, k)
    ensures WithKey(a[1..], k) == WithKey(b[1..], k)
  {
    var head, x, y := if KeyOf(a[0]) == k then [a[0]] else [], WithKey(a[1..], k), WithKey(b[1..], k);
    assert head + x == head + y;
    assert (head + x)[|head|..] == x && (head + y)[|head|..] == y;
  }

  lemma HeadsAgree(a: seq<PodIssue>, b: seq<PodIssue>)
    requires Sorted(a) && Sorted(b) && a != [] && b != []
    requires forall k :: WithKey(a, k) == WithKey(b, k)
    ensures KeyOf(a[0]) == KeyOf(b[0])
  {
    HeadNotAfter(a, b);
    HeadNotAfter(b, a);
    BeforeTotal(KeyOf(a[0]), KeyOf(b[0]));
  }

  lemma HeadNotAfter(a: seq<PodIssue>, b: seq<PodIssue>)
    requires Sorted(b) && a != [] && b != [] && WithKey(a, KeyOf(a[0])) == WithKey(b, KeyOf(a[0]))
    ensures !Before(KeyOf(a[0]), KeyOf(b[0]))
  {
    var k := KeyOf(a[0]);
    WithKeyNone(a, k);
    WithKeyNone(b, k);
    var i :| 0 <= i < |b| && KeyOf(b[i]) == k;
    BeforeTotal(k, k);
    if i > 0 {
      assert !Before(KeyOf(b[i]), KeyOf(b[0]));
    }
  }

  // ----- the order pods are listed in does not matter -----

  /** Pod names are unique within a namespace. */
  ghost predicate DistinctNames(pods: seq<Pod>) {
    forall i, j :: 0 <= i < j < |pods| ==> pods[i].name != pods[j].name
  }

  lemma {:induction false} IssuesNameTheirPod(p: Pod)
    ensures forall i :: i in IssuesOf(p) ==> i.pod == p.name
  {
    ConditionsNameTheirPod(p.name, p.conditions);
    ContainersNameTheirPod(p.name, p.initContainers + p.containers);
  }

  lemma {:induction false} ConditionsNameTheirPod(pod: string, cs: seq<PodCondition>)
    ensures forall i :: i in ConditionIssues(pod, cs) ==> i.pod == pod && !i.fatal
  {
    if cs != [] { ConditionsNameTheirPod(pod, cs[..|cs| - 1]); }
  }

  lemma {:induction false} ContainersNameTheirPod(pod: string, cs: seq<ContainerStatus>)
    ensures forall i :: i in ContainerIssues(pod, cs) ==> i.pod == pod
  {
    if cs != [] { ContainersNameTheirPod(pod, cs[..|cs| - 1]); }
  }

  lemma OtherPod(p: Pod, k: Key)
    requires p.name != k.pod
    ensures WithKey(IssuesOf(p), k) == []
  {
    IssuesNameTheirPod(p);
    WithKeyNone(IssuesOf(p), k);
  }

  lemma {:induction false} NoSuchPod(pods: seq<Pod>, k: Key)
    requires forall i :: 0 <= i < |pods| ==> pods[i].name != k.pod
    ensures WithKey(AllIssues(pods), k) == []
  {
    if pods != [] {
      var n := |pods| - 1;
      NoSuchPod(pods[..n], k);
      OtherPod(pods[n], k);
      WithKeyConcat(AllIssues(pods[..n]), IssuesOf(pods[n]), k);
    }
  }

  /** The issues under a key all come from the one pod the key names. */
  lemma {:induction false} KeyComesFromOnePod(pods: seq<Pod>, k: Key, i: nat)
    requires DistinctNames(pods) && i < |pods| && pods[i].name == k.pod
    ensures WithKey(AllIssues(pods), k) == WithKey(IssuesOf(pods[i]), k)
  {
    var n := |pods| - 1;
    WithKeyConcat(AllIssues(pods[..n]), IssuesOf(pods[n]), k);
    if i == n {
      NoSuchPod(pods[..n], k);
    } else {
      OtherPod(pods[n], k);
      KeyComesFromOnePod(pods[..n], k, i);
    }
  }

  lemma SameUnderKey(pods: seq<Pod>, listed: seq<Pod>, k: Key)
    requires forall p :: p in pods <==> p in listed
    requires DistinctNames(pods) && DistinctNames(listed)
    ensures WithKey(AllIssues(pods), k) == WithKey(AllIssues(listed), k)
  {
    if i :| 0 <= i < |pods| && pods[i].name == k.pod {
      assert pods[i] in listed;
      var j :| 0 <= j < |listed| && listed[j] == pods[i];
      KeyComesFromOnePod(pods, k, i);
      KeyComesFromOnePod(listed, k, j);
    } else {
      NoSuchPod(pods, k);
      forall j | 0 <= j < |listed| ensures listed[j].name != k.pod {
        assert listed[j] in listed && listed[j] in pods;
      }
      NoSuchPod(listed, k);
    }
  }

  /** Canonical issues: pods with distinct names give the same list in whatever order they are
      listed, although several issues of one pod may share a sort key. */
  lemma ListingOrderIsIrrelevant(pods: seq<Pod>, listed: seq<Pod>)
    requires multiset(pods) == multiset(listed)
    requires DistinctNames(pods) && DistinctNames(listed)
    ensures Sort(AllIssues(pods)) == Sort(AllIssues(listed))
    ensures Collect(pods) == Collect(listed)
  {
    forall p ensures p in pods <==> p in listed {
      assert p in pods <==> p in multiset(pods);
      assert p in listed <==> p in multiset(listed);
    }
    forall k ensures WithKey(Sort(AllIssues(pods)), k) == WithKey(Sort(AllIssues(listed)), k) {
      SortStable(AllIssues(pods), k);
      SortStable(AllIssues(listed), k);
      SameUnderKey(pods, listed, k);
    }
    SortSorted(AllIssues(pods));
    SortSorted(AllIssues(listed));
    SortedIsDetermined(Sort(AllIssues(pods)), Sort(AllIssues(listed)));
  }

  /** Capping hides no fatal issue, because fatal issues sort first. */
  lemma CapKeepsFatal(pods: seq<Pod>)
    ensures HasFatal(Collect(pods)) <==> HasFatal(AllIssues(pods))
  {
    var all, sorted := AllIssues(pods), Sort(AllIssues(pods));
    SortSorted(all);
    if HasFatal(all) {
      var k :| 0 <= k < |all| && all[k].fatal;
      assert all[k] in sorted;
      var j :| 0 <= j < |sorted| && sorted[j] == all[k];
      assert sorted[0].fatal by {
        if j > 0 { assert !Before(KeyOf(sorted[j]), KeyOf(sorted[0])); }
      }
      assert Collect(pods)[0].fatal;
    }
    if HasFatal(Collect(pods)) {
      var k :| 0 <= k < |Collect(pods)| && Collect(pods)[k].fatal;
      assert sorted[k].fatal && sorted[k] in all;
    }
  }

  // ----- what is reported -----

  /** The six reasons that no restart cures. */
  predicate NeedsAHuman(reason: string) {
    || reason == "ImagePullBackOff" || reason == "ErrImagePull" || reason == "InvalidImageName"
    || reason == "ErrImageNeverPull" || reason == "CreateContainerConfigError" || reason == "CreateContainerError"
  }

  predicate StillStarting(reason: string) {
    reason == "" || reason == "ContainerCreating" || reason == "PodInitializing"
  }

  predicate ReportedForContainer(pod: string, cs: ContainerStatus, i: PodIssue) {
    && !cs.ready && i.pod == pod && i.container == cs.name && i.restartCount == cs.restartCount
    && match cs.state
       case Waiting(reason, message) =>
         !StillStarting(reason) && i.reason == reason && i.message == Detail(message, cs.previous) && i.fatal == NeedsAHuman(reason)
       case Terminated(t) =>
         t.exitCode != 0 && i.message == Detail("", Some(t)) && !i.fatal
         && (i.reason == t.reason || (t.reason == "" && i.reason == "Error")) && i.reason != ""
       case Running => false
  }

  predicate ReportedForPod(p: Pod, c: PodCondition, i: PodIssue) {
    && c.kind == "PodScheduled" && c.status == "False" && c.reason != ""
    && i == PodIssue(p.name, "", c.reason, Detail(c.message, None), 0, false)
  }

  /** A pod reports an issue: it is neither going away nor done, and one of its conditions or
      containers gives rise to it. */
  ghost predicate Reports(p: Pod, i: PodIssue) {
    && !p.deleting && p.phase != "Succeeded"
    && (|| (exists c :: c in p.conditions && ReportedForPod(p, c, i))
        || (exists cs :: (cs in p.initContainers || cs in p.containers) && ReportedForContainer(p.name, cs, i)))
  }

  lemma ContainerReported(pod: string, cs: ContainerStatus, i: PodIssue)
    ensures ContainerIssue(pod, cs) == Some(i) <==> ReportedForContainer(pod, cs, i)
  {
  }

  lemma {:induction false} ContainersReported(pod: string, statuses: seq<ContainerStatus>, i: PodIssue)
    ensures i in ContainerIssues(pod, statuses) <==> exists cs :: cs in statuses && ReportedForContainer(pod, cs, i)
  {
    hide ReportedForContainer, ContainerIssue;
    if statuses != [] {
      var n := |statuses| - 1;
      ContainersReported(pod, statuses[..n], i);
      ContainerReported(pod, statuses[n], i);
      assert statuses == statuses[..n] + [statuses[n]];
      assert forall cs :: cs in statuses <==> cs in statuses[..n] || cs == statuses[n];
    }
  }

  lemma ConditionReported(p: Pod, c: PodCondition, i: PodIssue)
    ensures Unscheduled(c) && i == PodIssue(p.name, "", c.reason, Detail(c.message, None), 0, false) <==> ReportedForPod(p, c, i)
  {
  }

  lemma {:induction false} ConditionsReported(p: Pod, conditions: seq<PodCondition>, i: PodIssue)
    ensures i in ConditionIssues(p.name, conditions) <==> exists c :: c in conditions && ReportedForPod(p, c, i)
  {
    hide ReportedForPod, Unscheduled;
    if conditions != [] {
      var n := |conditions| - 1;
      ConditionsReported(p, conditions[..n], i);
      ConditionReported(p, conditions[n], i);
      assert conditions == conditions[..n] + [conditions[n]];
      assert forall c :: c in conditions <==> c in conditions[..n] || c == conditions[n];
    }
  }

  lemma PodReported(p: Pod, i: PodIssue)
    ensures i in IssuesOf(p) <==> Reports(p, i)
  {
    hide ReportedForContainer, ReportedForPod, ContainerIssues, ConditionIssues;
    ConditionsReported(p, p.conditions, i);
    ContainersReported(p.name, p.initContainers + p.containers, i);
    assert forall cs :: cs in p.initContainers + p.containers <==> cs in p.initContainers || cs in p.containers;
  }

  ghost predicate SomeReports(pods: seq<Pod>, i: PodIssue) {
    exists p :: p in pods && Reports(p, i)
  }

  /** Listed is exactly what some pod reports: per container state and reason, with its text. */
  lemma {:induction false} ListedExactly(pods: seq<Pod>, i: PodIssue)
    ensures i in AllIssues(pods) <==> SomeReports(pods, i)
    ensures i in Sort(AllIssues(pods)) <==> SomeReports(pods, i)
  {
    hide Reports, IssuesOf;
    SortSorted(AllIssues(pods));
    if pods != [] {
      var n := |pods| - 1;
      ListedExactly(pods[..n], i);
      PodReported(pods[n], i);
      assert pods == pods[..n] + [pods[n]];
      assert forall p :: p in pods <==> p in pods[..n] || p == pods[n];
    }
  }

  /** `a` stands at or in front of `b` by the first difference. */
  ghost predicate AtMost(a: string, b: string) {
    a == b || exists k: nat :: FirstDifference(a, b, k)
  }

  /** The order of what is written: fatal issues first, then by pod, then by container. */
  lemma WrittenInOrder(pods: seq<Pod>, i: nat, j: nat)
    requires i < j < |Collect(pods)|
    ensures var a, b := Collect(pods)[i], Collect(pods)[j];
      && (b.fatal ==> a.fatal)
      && (a.fatal == b.fatal ==> AtMost(a.pod, b.pod))
      && (a.fatal == b.fatal && a.pod == b.pod ==> AtMost(a.container, b.container))
  {
    hide AllIssues, Sort;
    var sorted := Sort(AllIssues(pods));
    SortSorted(AllIssues(pods));
    var a, b := Collect(pods)[i], Collect(pods)[j];
    assert a == sorted[i] && b == sorted[j];
    LessTotal(a.pod, b.pod);
    LessTotal(a.container, b.container);
    LessMeans(a.pod, b.pod);
    LessMeans(a.container, b.container);
  }

  /** What is written: the first five of the sorted list, or all when there are fewer. */
  lemma FiveAreWritten(pods: seq<Pod>)
    ensures Collect(pods) <= Sort(AllIssues(pods))
    ensures |Collect(pods)| == if |AllIssues(pods)| <= 5 then |AllIssues(pods)| else 5
  {
  }

  predicate Stuck(p: Pod, cs: ContainerStatus) {
    && !p.deleting && p.phase != "Succeeded" && (cs in p.initContainers || cs in p.containers)
    && !cs.ready && cs.state.Waiting? && NeedsAHuman(cs.state.reason)
  }

  /** Written as fatal exactly when a container of some live pod waits for one of the six reasons. */
  lemma FatalExactly(pods: seq<Pod>)
    ensures HasFatal(Collect(pods)) <==> exists p, cs :: p in pods && Stuck(p, cs)
  {
    hide NeedsAHuman, AllIssues, Collect;
    CapKeepsFatal(pods);
    var all := AllIssues(pods);
    if HasFatal(all) {
      var k :| 0 <= k < |all| && all[k].fatal;
      assert all[k] in all;
      ListedExactly(pods, all[k]);
      var p :| p in pods && Reports(p, all[k]);
      var cs :| (cs in p.initContainers || cs in p.containers) && ReportedForContainer(p.name, cs, all[k]);
      assert Stuck(p, cs);
    }
    if p, cs :| p in pods && Stuck(p, cs) {
      var i := PodIssue(p.name, cs.name, cs.state.reason, Detail(cs.state.message, cs.previous), cs.restartCount, true);
      Apart(cs.state.reason);
      assert ReportedForContainer(p.name, cs, i);
      assert Reports(p, i);
      ListedExactly(pods, i);
      var k :| 0 <= k < |all| && all[k] == i;
      assert all[k].fatal;
    }
  }

  lemma Apart(reason: string)
    ensures !(NeedsAHuman(reason) && StillStarting(reason))
  {
    assert "ContainerCreating"[1] == 'o' && "PodInitializing"[0] == 'P';
  }
}
