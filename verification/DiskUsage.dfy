/** Storage pressure: per-node disk usage reduced to one percentage, in Go's 64-bit and 32-bit
    integers, and the thresholds run off it. */
module DiskUsage {
  import opened Text

  /** 2^64, where `uint64` wraps; `int32` keeps the low 32 bits as a signed number. */
  const WRAP := 0x1_0000_0000_0000_0000

  type Uint64 = n: nat | n < WRAP

  function ToInt32(n: nat): int {
    var low := n % 0x1_0000_0000;
    if low < 0x8000_0000 then low else low - 0x1_0000_0000
  }

  datatype Node = Node(name: string, used: Uint64, total: Uint64)

  datatype Usage = Usage(nodes: nat, used: Uint64, total: Uint64, fullest: Node, fullestPercent: int)

  const NO_NODE := Node("", 0, 0)

  /** The quotient in 64-bit arithmetic. */
  function Quotient64(n: Node): nat
    requires n.total > 0
  {
    n.used * 100 % WRAP / n.total
  }

  function Percent(n: Node): int
    requires n.total > 0
  {
    ToInt32(Quotient64(n))
  }

  function Include(usage: Usage, n: Node): Usage {
    var sums := usage.(used := (usage.used + n.used) % WRAP, total := (usage.total + n.total) % WRAP);
    if n.total > 0 && (usage.fullest.total == 0 || Percent(n) > usage.fullestPercent) then
      sums.(fullest := n, fullestPercent := Percent(n))
    else sums
  }

  function Summarize(nodes: seq<Node>, count: nat): Usage {
    if nodes == [] then Usage(count, 0, 0, NO_NODE, 0)
    else Include(Summarize(nodes[..|nodes| - 1], count), nodes[|nodes| - 1])
  }

  method SummarizeDiskUsage(nodes: seq<Node>) returns (usage: Usage)
    ensures usage == Summarize(nodes, |nodes|)
  {
    hide ToInt32;
    usage := Usage(|nodes|, 0, 0, NO_NODE, 0);
    for i := 0 to |nodes|
      invariant usage == Summarize(nodes[..i], |nodes|)
    {
      assert nodes[..i + 1][..i] == nodes[..i];
      var n := nodes[i];
      usage := usage.(used := (usage.used + n.used) % WRAP, total := (usage.total + n.total) % WRAP);
      if n.total == 0 {
        continue;
      }
      var percent := ToInt32(n.used * 100 % WRAP / n.total);
      if usage.fullest.total == 0 || percent > usage.fullestPercent {
        usage := usage.(fullest := n, fullestPercent := percent);
      }
    }
    assert nodes[..|nodes|] == nodes;
  }

  // ----- one node -----

  /** The one fact about division everything below rests on. */
  lemma AtMost(a: nat, b: nat, q: nat)
    requires b > 0
    ensures a / b >= q <==> a >= q * b
  {
    var d := a / b;
    assert a == d * b + a % b;
    if d >= q {
      assert q * b <= d * b;
    } else {
      assert (d + 1) * b <= q * b;
    }
  }

  /** `a / b` is the quotient that fits. */
  lemma Quotient(a: nat, b: nat, q: nat)
    requires b > 0 && q * b <= a < (q + 1) * b
    ensures a / b == q
  {
    AtMost(a, b, q);
    AtMost(a, b, q + 1);
  }

  /** A node whose usage is at most its capacity has the true percentage exactly when used times
      100 stays below 2^64 - about 164 PiB. Above that the reported percentage is too low. */
  lemma PercentIsTrueExactlyBelowWrap(n: Node)
    requires 0 < n.total && n.used <= n.total
    ensures Percent(n) == n.used * 100 / n.total <==> n.used * 100 < WRAP
    ensures 0 <= Percent(n) <= n.used * 100 / n.total <= 100
  {
    hide Quotient64, ToInt32;
    Wrapped64(n);
    AtMostHundred(n.used, n.total);
    SmallStays(Quotient64(n));
  }

  lemma Wrapped64(n: Node)
    requires n.total > 0
    ensures Quotient64(n) == n.used * 100 / n.total <==> n.used * 100 < WRAP
    ensures Quotient64(n) <= n.used * 100 / n.total
  {
    Wrapped(n.used * 100, n.total);
  }

  lemma SmallStays(quotient: nat)
    requires quotient <= 100
    ensures ToInt32(quotient) == quotient
  {
  }

  lemma AtMostHundred(used: nat, total: nat)
    requires 0 < total && used <= total
    ensures used * 100 / total <= 100
  {
    AtMost(used * 100, total, 101);
  }

  /** Reducing a dividend modulo 2^64 changes its quotient by a smaller number exactly when it
      changes the dividend. */
  lemma Wrapped(full: nat, total: nat)
    requires 0 < total < WRAP
    ensures full % WRAP / total == full / total <==> full < WRAP
    ensures full % WRAP / total <= full / total
  {
    var low := full % WRAP;
    if full < WRAP {
      assert low == full;
    } else {
      assert full >= low + total;
      OneMore(low, full, total);
    }
  }

  lemma OneMore(low: nat, full: nat, total: nat)
    requires 0 < total && full >= low + total
    ensures full / total > low / total
  {
    var q := low / total;
    AtMost(low, total, q);
    assert (q + 1) * total == q * total + total;
    AtMost(full, total, q + 1);
  }

  /** A 32-bit conversion keeps the number up to multiples of 2^32, within 31 bits and a sign. */
  lemma Int32Is(n: nat)
    ensures -2147483648 <= ToInt32(n) < 2147483648
    ensures (ToInt32(n) - n) % 4294967296 == 0
  {
    var d, low := n / 0x1_0000_0000, n % 0x1_0000_0000;
    assert n == d * 0x1_0000_0000 + low;
    Multiple(ToInt32(n) - n, if low < 0x8000_0000 then -d else -d - 1);
  }

  lemma Multiple(a: int, k: int)
    requires a == k * 4294967296
    ensures a % 4294967296 == 0
  {
  }

  /** Any node's percentage, however much it claims to hold: 64-bit arithmetic, then 32 bits. */
  lemma PercentInMachineWords(n: Node, q: nat)
    requires n.total > 0 && q * n.total <= n.used * 100 % 18446744073709551616 < (q + 1) * n.total
    ensures (Percent(n) - q) % 4294967296 == 0 && -2147483648 <= Percent(n) < 2147483648
  {
    hide ToInt32;
    Quotient(n.used * 100 % WRAP, n.total, q);
    Int32Is(q);
  }

  // ----- the fullest node -----

  predicate Sane(n: Node) {
    n.used <= n.total && n.used * 100 < WRAP
  }

  ghost predicate AllSane(nodes: seq<Node>) {
    forall i :: 0 <= i < |nodes| ==> Sane(nodes[i])
  }

  /** The percentage of a node that has capacity. */
  function Share(n: Node): nat
    requires n.total > 0
  {
    n.used * 100 / n.total
  }

  /** `nodes[f]` is the first of the nodes with capacity whose percentage is the highest. */
  ghost predicate FirstFullest(nodes: seq<Node>, f: nat) {
    && f < |nodes| && nodes[f].total > 0
    && (forall i :: 0 <= i < |nodes| && nodes[i].total > 0 ==> Percent(nodes[i]) <= Percent(nodes[f]))
    && (forall i :: 0 <= i < f && nodes[i].total > 0 ==> Percent(nodes[i]) < Percent(nodes[f]))
  }

  ghost predicate NoCapacity(nodes: seq<Node>) {
    forall i :: 0 <= i < |nodes| ==> nodes[i].total == 0
  }

  /** The summary counts the nodes and names the first of the fullest, and its percentage. */
  lemma {:induction false} SummaryNamesFirstFullest(nodes: seq<Node>, count: nat) returns (f: nat)
    ensures var u := Summarize(nodes, count);
      && u.nodes == count
      && if NoCapacity(nodes) then u.fullest == NO_NODE && u.fullestPercent == 0
         else FirstFullest(nodes, f) && u.fullest == nodes[f] && u.fullestPercent == Percent(nodes[f])
  {
    hide Percent;
    f := 0;
    if nodes != [] {
      var last := |nodes| - 1;
      var front, n := nodes[..last], nodes[last];
      f := SummaryNamesFirstFullest(front, count);
      assert forall i :: 0 <= i < last ==> nodes[i] == front[i];
      if n.total > 0 && (NoCapacity(front) || Percent(n) > Percent(nodes[f])) {
        f := last;
      }
    }
  }

  /** For sane nodes the percentages are the true ones. */
  lemma PercentIsShare(nodes: seq<Node>)
    requires AllSane(nodes)
    ensures forall i :: 0 <= i < |nodes| && nodes[i].total > 0 ==> Percent(nodes[i]) == Share(nodes[i])
  {
    hide Percent;
    forall i | 0 <= i < |nodes| && nodes[i].total > 0 ensures Percent(nodes[i]) == Share(nodes[i]) {
      assert Sane(nodes[i]);
      PercentIsTrueExactlyBelowWrap(nodes[i]);
    }
  }

  // ----- never below the average -----

  function UsedSum(nodes: seq<Node>): nat {
    if nodes == [] then 0 else UsedSum(nodes[..|nodes| - 1]) + nodes[|nodes| - 1].used
  }

  function TotalSum(nodes: seq<Node>): nat {
    if nodes == [] then 0 else TotalSum(nodes[..|nodes| - 1]) + nodes[|nodes| - 1].total
  }

  /** The totals are the sums, up to multiples of 2^64. */
  lemma {:induction false} SumsAreSums(nodes: seq<Node>, count: nat)
    ensures Summarize(nodes, count).used == UsedSum(nodes) % 18446744073709551616
    ensures Summarize(nodes, count).total == TotalSum(nodes) % 18446744073709551616
  {
    hide Percent;
    if nodes != [] {
      var front, n := nodes[..|nodes| - 1], nodes[|nodes| - 1];
      SumsAreSums(front, count);
      SumsWrap(UsedSum(front), n.used);
      SumsWrap(TotalSum(front), n.total);
      Included(Summarize(front, count), n);
    }
  }

  lemma Included(usage: Usage, n: Node)
    ensures Include(usage, n).used == (usage.used + n.used) % WRAP && Include(usage, n).total == (usage.total + n.total) % WRAP
  {
    hide Percent;
  }

  /** Wrapping each time or once at the end is the same. */
  lemma SumsWrap(sum: nat, more: nat)
    ensures (sum % WRAP + more) % WRAP == (sum + more) % WRAP
  {
    var d, low := sum / WRAP, sum % WRAP;
    assert sum == d * WRAP + low;
    WrapTwice(d, low + more);
  }

  lemma WrapTwice(d: nat, rest: nat)
    ensures (d * WRAP + rest) % WRAP == rest % WRAP
  {
    var e, low := rest / WRAP, rest % WRAP;
    assert rest == e * WRAP + low;
    assert d * WRAP + rest == (d + e) * WRAP + low;
    Quotient((d + e) * WRAP + low, WRAP, d + e);
  }

  /** If every node stays below q percent so does the cluster as a whole. */
  lemma {:induction false} Mediant(nodes: seq<Node>, q: nat)
    requires forall i :: 0 <= i < |nodes| ==> nodes[i].used <= nodes[i].total
    requires forall i :: 0 <= i < |nodes| && nodes[i].total > 0 ==> Share(nodes[i]) < q
    ensures UsedSum(nodes) * 100 <= TotalSum(nodes) * q
    ensures TotalSum(nodes) > 0 ==> UsedSum(nodes) * 100 < TotalSum(nodes) * q
  {
    hide Share;
    if nodes != [] {
      var front, n := nodes[..|nodes| - 1], nodes[|nodes| - 1];
      Mediant(front, q);
      OneNode(n, q);
      assert TotalSum(nodes) * q == TotalSum(front) * q + n.total * q;
    }
  }

  lemma OneNode(n: Node, q: nat)
    requires n.used <= n.total && (n.total > 0 ==> Share(n) < q)
    ensures n.used * 100 <= n.total * q && (n.total > 0 ==> n.used * 100 < n.total * q)
  {
    if n.total > 0 {
      AtMost(n.used * 100, n.total, q);
    }
  }

  lemma ShareAboveAverage(nodes: seq<Node>, f: nat)
    requires AllSane(nodes) && FirstFullest(nodes, f) && TotalSum(nodes) > 0
    ensures Share(nodes[f]) >= UsedSum(nodes) * 100 / TotalSum(nodes)
  {
    hide UsedSum, TotalSum, Share, Percent;
    var p := Share(nodes[f]);
    assert forall i :: 0 <= i < |nodes| ==> Sane(nodes[i]);
    PercentIsShare(nodes);
    Mediant(nodes, p + 1);
    AtMost(UsedSum(nodes) * 100, TotalSum(nodes), p + 1);
  }

  /** The thresholds see at least the cluster-average percentage. */
  lemma NotBelowAverage(nodes: seq<Node>, count: nat)
    requires AllSane(nodes) && 0 < TotalSum(nodes) < WRAP && UsedSum(nodes) < WRAP
    ensures var u := Summarize(nodes, count);
      u.total > 0 && u.fullestPercent >= u.used * 100 / u.total
  {
    hide UsedSum, TotalSum, Share, Percent, Summarize, AllSane;
    var f := SummaryNamesFirstFullest(nodes, count);
    SumsAreSums(nodes, count);
    PercentIsShare(nodes);
    EmptySum(nodes);
    ShareAboveAverage(nodes, f);
  }

  lemma {:induction false} EmptySum(nodes: seq<Node>)
    ensures TotalSum(nodes) == 0 <==> NoCapacity(nodes)
  {
    if nodes != [] {
      var front := nodes[..|nodes| - 1];
      EmptySum(front);
      assert forall i :: 0 <= i < |front| ==> nodes[i] == front[i];
    }
  }

  // ----- thresholds -----

  datatype Pressure = QueryFailed | NoCapacityReported | Critical | Warning | WithinThresholds

  function Verdict(u: Usage, warn: int, critical: int): Pressure {
    if u.total == 0 then NoCapacityReported
    else if critical > 0 && u.fullestPercent >= critical then Critical
    else if warn > 0 && u.fullestPercent >= warn then Warning
    else WithinThresholds
  }

  /** Some node with capacity has reached `threshold` percent. */
  ghost predicate Reached(nodes: seq<Node>, threshold: int) {
    exists i :: 0 <= i < |nodes| && NodeReached(nodes[i], threshold)
  }

  predicate NodeReached(n: Node, threshold: int) {
    n.total > 0 && n.used * 100 >= threshold * n.total
  }

  lemma FullestDecides(nodes: seq<Node>, count: nat, threshold: int)
    requires AllSane(nodes) && !NoCapacity(nodes) && threshold > 0
    ensures Summarize(nodes, count).fullestPercent >= threshold <==> Reached(nodes, threshold)
  {
    hide Percent;
    var f := SummaryNamesFirstFullest(nodes, count);
    PercentIsShare(nodes);
    AtMost(nodes[f].used * 100, nodes[f].total, threshold);
    if Reached(nodes, threshold) {
      var i :| 0 <= i < |nodes| && NodeReached(nodes[i], threshold);
      AtMost(nodes[i].used * 100, nodes[i].total, threshold);
    } else {
      assert !NodeReached(nodes[f], threshold);
    }
  }

  /** The condition in terms of the nodes alone: Unknown exactly when the capacities sum to zero
      in 64 bits; otherwise Critical exactly when some node has reached a positive critical
      threshold, and Warning exactly when none has but some node has reached a positive warning
      threshold. */
  lemma VerdictIsAboutNodes(nodes: seq<Node>, warn: int, critical: int)
    requires AllSane(nodes)
    ensures var v, known := Verdict(Summarize(nodes, |nodes|), warn, critical), TotalSum(nodes) % 18446744073709551616 != 0;
      && (v == NoCapacityReported <==> !known)
      && (v == Critical <==> known && critical > 0 && Reached(nodes, critical))
      && (v == Warning <==> known && warn > 0 && Reached(nodes, warn) && !(critical > 0 && Reached(nodes, critical)))
      && v != QueryFailed
  {
    hide Summarize, Reached, AllSane;
    SumsAreSums(nodes, |nodes|);
    EmptySum(nodes);
    if TotalSum(nodes) % WRAP != 0 {
      if critical > 0 { FullestDecides(nodes, |nodes|, critical); }
      if warn > 0 { FullestDecides(nodes, |nodes|, warn); }
    }
  }

  /** Capacities below 2^64 in all sum to zero only when there are none. */
  lemma UnknownMeansNoCapacity(nodes: seq<Node>)
    requires TotalSum(nodes) < 18446744073709551616
    ensures TotalSum(nodes) % 18446744073709551616 == 0 <==> NoCapacity(nodes)
  {
    EmptySum(nodes);
  }

  // ----- byte counts -----

  const UNITS := "KMGTP"

  datatype Rendered = Bytes(b: nat) | Scaled(b: nat, div: nat, unit: char)

  function UnitSize(exp: nat): (size: nat)
    ensures size >= 1024
  {
    if exp == 0 then 1024 else 1024 * UnitSize(exp - 1)
  }

  /** `exp` is the unit of `b`: the largest that does not exceed it, or the last. */
  ghost predicate IsUnitOf(b: nat, exp: nat) {
    exp <= 4 && UnitSize(exp) <= b && (b < 1024 * UnitSize(exp) || exp == 4)
  }

  lemma {:induction false} UnitsGrow(i: nat, j: nat)
    requires i < j
    ensures 1024 * UnitSize(i) <= UnitSize(j)
  {
    if i + 1 < j {
      UnitsGrow(i, j - 1);
    }
  }

  /** There is only one such unit. */
  lemma UnitIsDetermined(b: nat, i: nat, j: nat)
    requires IsUnitOf(b, i) && IsUnitOf(b, j)
    ensures i == j
  {
    if i < j { UnitsGrow(i, j); }
    if j < i { UnitsGrow(j, i); }
  }

  /** How a byte count is written: below 1024 as it is, otherwise divided by its unit. */
  ghost predicate Renders(r: Rendered, b: nat) {
    if b < 1024 then r == Bytes(b)
    else exists exp: nat :: IsUnitOf(b, exp) && r == Scaled(b, UnitSize(exp), UNITS[exp])
  }

  /** A count is written in one way only. */
  lemma RenderingIsDetermined(b: nat, r1: Rendered, r2: Rendered)
    requires Renders(r1, b) && Renders(r2, b)
    ensures r1 == r2
  {
    if b >= 1024 {
      var i: nat :| IsUnitOf(b, i) && r1 == Scaled(b, UnitSize(i), UNITS[i]);
      var j: nat :| IsUnitOf(b, j) && r2 == Scaled(b, UnitSize(j), UNITS[j]);
      UnitIsDetermined(b, i, j);
    }
  }

  /** The units in numbers: each is 1024 of the one before, and the last has no end. */
  lemma UnitsInNumbers(b: nat, r: Rendered)
    ensures Renders(r, b) <==>
      || (b < 1024 && r == Bytes(b))
      || (1024 <= b < 1048576 && r == Scaled(b, 1024, 'K'))
      || (1048576 <= b < 1073741824 && r == Scaled(b, 1048576, 'M'))
      || (1073741824 <= b < 1099511627776 && r == Scaled(b, 1073741824, 'G'))
      || (1099511627776 <= b < 1125899906842624 && r == Scaled(b, 1099511627776, 'T'))
      || (1125899906842624 <= b && r == Scaled(b, 1125899906842624, 'P'))
  {
    hide UnitSize;
    UnitSizes();
    if b >= 1024 {
      var e := if b < 1048576 then 0 else if b < 1073741824 then 1 else if b < 1099511627776 then 2
               else if b < 1125899906842624 then 3 else 4;
      assert IsUnitOf(b, e);
      if Renders(r, b) {
        var exp: nat :| IsUnitOf(b, exp) && r == Scaled(b, UnitSize(exp), UNITS[exp]);
        UnitIsDetermined(b, e, exp);
      }
    }
  }

  lemma UnitSizes()
    ensures UnitSize(0) == 1024 && UnitSize(1) == 1048576 && UnitSize(2) == 1073741824
    ensures UnitSize(3) == 1099511627776 && UnitSize(4) == 1125899906842624
  {
  }

  lemma DivideAgain(b: nat, div: nat)
    requires div > 0
    ensures b / div / 1024 == b / (1024 * div)
  {
    var q := b / div / 1024;
    AtMost(b / div, 1024, q);
    AtMost(b, div, q * 1024);
    AtMost(b / div, 1024, q + 1);
    AtMost(b, div, (q + 1) * 1024);
    assert q * 1024 * div == q * (1024 * div) && (q + 1) * 1024 * div == (q + 1) * (1024 * div);
    Quotient(b, 1024 * div, q);
  }

  /** `humanizeBytes` up to printing the quotient with one decimal. */
  method HumanizeBytes(b: Uint64) returns (r: Rendered)
    ensures Renders(r, b)
  {
    if b < 1024 {
      return Bytes(b);
    }
    var div, e := 1024, 0;
    var n := b / 1024;
    while n >= 1024 && e < 4
      invariant e <= 4 && div == UnitSize(e) && n == b / div && n >= 1
    {
      DivideAgain(b, div);
      div := div * 1024;
      e := e + 1;
      n := n / 1024;
    }
    AtMost(b, div, 1);
    AtMost(b, div, 1024);
    assert IsUnitOf(b, e);
    return Scaled(b, div, UNITS[e]);
  }

  // ----- the status -----

  /** What `evaluateStoragePressure` writes. `nodes` is `None` when the query failed. */
  class StorageStatus {
    var storageUsed: Option<Rendered>
    var storageTotal: Option<Rendered>
    var pressure: Option<Pressure>

    method Evaluate(nodes: Option<seq<Node>>, warn: int, critical: int)
      modifies this
      ensures nodes.None? ==> pressure == Some(QueryFailed) && unchanged(`storageUsed, `storageTotal)
      ensures nodes.Some? ==> pressure == Some(Verdict(Summarize(nodes.value, |nodes.value|), warn, critical))
      ensures nodes.Some? ==>
        var u := Summarize(nodes.value, |nodes.value|);
        && storageUsed.Some? && Renders(storageUsed.value, u.used)
        && storageTotal.Some? && Renders(storageTotal.value, u.total)
    {
      if nodes.None? {
        pressure := Some(QueryFailed);
        return;
      }
      var usage := SummarizeDiskUsage(nodes.value);
      var used := HumanizeBytes(usage.used);
      var total := HumanizeBytes(usage.total);
      storageUsed, storageTotal := Some(used), Some(total);
      if usage.total == 0 {
        pressure := Some(NoCapacityReported);
        return;
      }
      if critical > 0 && usage.fullestPercent >= critical {
        pressure := Some(Critical);
      } else if warn > 0 && usage.fullestPercent >= warn {
        pressure := Some(Warning);
      } else {
        pressure := Some(WithinThresholds);
      }
    }
  }
}
