/** The string searches the operator is written with: Go's `strings.IndexAny`, `LastIndex`,
    `Index`, `Cut` and `Split`, each described by the position it must return. */
module Text {

  datatype Option<+T> = None | Some(value: T)

  /** The value of a two-result lookup whose `ok` the caller ignores. */
  function OrEmpty(o: Option<string>): string {
    if o.Some? then o.value else ""
  }

  ghost predicate Free(s: string, c: char) {
    forall k :: 0 <= k < |s| ==> s[k] != c
  }

  /** Position of the first character that lies in `cs`, or `|s|`. */
  function FindAny(s: string, cs: set<char>): (i: nat)
    ensures i <= |s|
    ensures forall k :: 0 <= k < i ==> s[k] !in cs
    ensures i < |s| ==> s[i] in cs
  {
    if s == [] || s[0] in cs then 0 else FindAny(s[1..], cs) + 1
  }

  function Find(s: string, c: char): (i: nat)
    ensures i <= |s|
    ensures forall k :: 0 <= k < i ==> s[k] != c
    ensures i < |s| ==> s[i] == c
  {
    FindAny(s, {c})
  }

  /** Position of the last `c`, or -1. */
  function FindLast(s: string, c: char): (i: int)
    ensures -1 <= i < |s|
    ensures forall k :: i < k < |s| ==> s[k] != c
    ensures 0 <= i ==> s[i] == c
  {
    if s == [] then -1
    else if s[|s| - 1] == c then |s| - 1
    else FindLast(s[..|s| - 1], c)
  }

  predicate OccursAt(s: string, t: string, i: int) {
    0 <= i <= |s| - |t| && s[i..i + |t|] == t
  }

  /** Position of the first occurrence of `t`, or -1. */
  function FindText(s: string, t: string): (i: int)
    ensures i == -1 || OccursAt(s, t, i)
    ensures forall k :: 0 <= k && (i == -1 || k < i) ==> !OccursAt(s, t, k)
  {
    FindTextFrom(s, t, 0)
  }

  function FindTextFrom(s: string, t: string, from: nat): (i: int)
    requires from <= |s|
    ensures i == -1 || (from <= i && OccursAt(s, t, i))
    ensures forall k :: from <= k && (i == -1 || k < i) ==> !OccursAt(s, t, k)
    decreases |s| - from
  {
    if OccursAt(s, t, from) then from
    else if from == |s| then -1
    else FindTextFrom(s, t, from + 1)
  }

  /** `strings.Cut` on a one-character separator. */
  function Cut(s: string, c: char): (r: (string, string, bool))
    ensures Free(r.0, c)
    ensures r.2 ==> s == r.0 + [c] + r.1
    ensures !r.2 ==> s == r.0 && r.1 == ""
  {
    var i := Find(s, c);
    if i < |s| then (s[..i], s[i + 1..], true) else (s, "", false)
  }

  /** `strings.Split` on a one-character separator. */
  function Split(s: string, c: char): (parts: seq<string>)
    ensures |parts| > 0
    decreases |s|
  {
    var i := Find(s, c);
    if i < |s| then [s[..i]] + Split(s[i + 1..], c) else [s]
  }

  lemma CutAt(a: string, c: char, b: string)
    requires Free(a, c)
    ensures Cut(a + [c] + b, c) == (a, b, true)
  {
    var s := a + [c] + b;
    assert s[|a|] == c;
    assert forall k :: 0 <= k < |a| ==> s[k] == a[k];
    assert Find(s, c) == |a|;
    assert s[..|a|] == a && s[|a| + 1..] == b;
  }

  lemma CutNone(a: string, c: char)
    requires Free(a, c)
    ensures Cut(a, c) == (a, "", false)
  {
    assert Find(a, c) == |a|;
  }

  lemma SplitAt(a: string, c: char, b: string)
    requires Free(a, c)
    ensures Split(a + [c] + b, c) == [a] + Split(b, c)
  {
    CutAt(a, c, b);
    var s := a + [c] + b;
    assert s[|a|] == c && forall k :: 0 <= k < |a| ==> s[k] == a[k];
    assert Find(s, c) == |a| && s[..|a|] == a && s[|a| + 1..] == b;
  }

  lemma SplitNone(a: string, c: char)
    requires Free(a, c)
    ensures Split(a, c) == [a]
  {
    assert Find(a, c) == |a|;
  }

  /** `parts` with a separator between each two. */
  function Join(parts: seq<string>, c: char): string
    requires parts != []
  {
    if |parts| == 1 then parts[0] else parts[0] + [c] + Join(parts[1..], c)
  }

  lemma JoinCons(a: string, rest: seq<string>, c: char)
    requires rest != []
    ensures Join([a] + rest, c) == a + [c] + Join(rest, c)
  {
    assert ([a] + rest)[1..] == rest;
  }

  /** Splitting undoes joining; only the last part may contain the separator. */
  lemma {:induction false} SplitJoin(front: seq<string>, last: string, c: char)
    requires forall k :: 0 <= k < |front| ==> Free(front[k], c)
    ensures Split(Join(front + [last], c), c) == front + Split(last, c)
  {
    if front == [] {
      assert front + [last] == [last];
      assert front + Split(last, c) == Split(last, c);
    } else {
      var rest := front[1..];
      assert front + [last] == [front[0]] + (rest + [last]);
      JoinCons(front[0], rest + [last], c);
      SplitAt(front[0], c, Join(rest + [last], c));
      SplitJoin(rest, last, c);
      assert [front[0]] + (rest + Split(last, c)) == front + Split(last, c);
    }
  }

  /** A last part is joined behind the others. */
  lemma {:induction false} JoinLast(front: seq<string>, last: string, c: char)
    requires front != []
    ensures Join(front + [last], c) == Join(front, c) + [c] + last
  {
    var rest := front[1..];
    assert front + [last] == [front[0]] + (rest + [last]);
    JoinCons(front[0], rest + [last], c);
    if rest == [] {
      assert rest + [last] == [last];
    } else {
      JoinLast(rest, last, c);
      assert front[0] + [c] + (Join(rest, c) + [c] + last) == (front[0] + [c] + Join(rest, c)) + [c] + last;
    }
  }

  lemma CutJoin(parts: seq<string>, c: char)
    requires |parts| > 1 && Free(parts[0], c)
    ensures Cut(Join(parts, c), c) == (parts[0], Join(parts[1..], c), true)
  {
    CutAt(parts[0], c, Join(parts[1..], c));
  }

  /** What follows the first `c` that `key` follows. */
  function AfterMarker(s: string, c: char, key: string): Option<string> {
    var i := FindText(s, [c] + key);
    if i >= 0 then Some(s[i + 1 + |key|..]) else None
  }

  lemma MarkerAt(s: string, c: char, key: string, i: nat)
    requires i < |s|
    ensures OccursAt(s, [c] + key, i) <==> s[i] == c && key <= s[i + 1..]
  {
    var t := [c] + key;
    if i + |t| <= |s| {
      var here := s[i..i + |t|];
      assert here[0] == s[i] && here[1..] == s[i + 1..][..|key|];
      if here == t { assert here[1..] == key; }
      if s[i] == c && key <= s[i + 1..] { assert here == [here[0]] + here[1..]; }
    }
  }

  lemma MarkerFound(a: string, c: char, key: string, rest: string)
    requires Free(a, c) && key <= rest
    ensures AfterMarker(a + [c] + rest, c, key) == Some(rest[|key|..])
  {
    var s := a + [c] + rest;
    assert s[|a|] == c && s[|a| + 1..] == rest;
    MarkerAt(s, c, key, |a|);
    forall k | 0 <= k < |a| ensures !OccursAt(s, [c] + key, k) {
      assert s[k] == a[k];
      MarkerAt(s, c, key, k);
    }
    assert FindText(s, [c] + key) == |a|;
    assert s[|a| + 1 + |key|..] == rest[|key|..];
  }

  lemma MarkerSkipped(a: string, c: char, key: string, rest: string)
    requires Free(a, c) && !(key <= rest)
    ensures AfterMarker(a + [c] + rest, c, key) == AfterMarker(rest, c, key)
  {
    var s, t, n := a + [c] + rest, [c] + key, |a| + 1;
    assert s[|a|] == c && s[n..] == rest;
    forall k | 0 <= k < n ensures !OccursAt(s, t, k) {
      if k < |a| { assert s[k] == a[k]; }
      MarkerAt(s, c, key, k);
    }
    FindBehind(a + [c], rest, t);
    var j := FindText(rest, t);
    if j >= 0 { assert s[n + j + 1 + |key|..] == rest[j + 1 + |key|..]; }
  }

  lemma OccursShifted(front: string, rest: string, t: string, k: nat)
    ensures OccursAt(front + rest, t, |front| + k) <==> OccursAt(rest, t, k)
  {
    if k + |t| <= |rest| {
      assert (front + rest)[|front| + k..|front| + k + |t|] == rest[k..k + |t|];
    }
  }

  /** Text that does not begin within `front` is found where it is found behind it. */
  lemma FindBehind(front: string, rest: string, t: string)
    requires forall k :: 0 <= k < |front| ==> !OccursAt(front + rest, t, k)
    ensures FindText(front + rest, t) == if FindText(rest, t) < 0 then -1 else |front| + FindText(rest, t)
  {
    hide OccursAt;
    var i, j := FindText(front + rest, t), FindText(rest, t);
    if i >= 0 {
      OccursShifted(front, rest, t, i - |front|);
    }
    if j >= 0 {
      OccursShifted(front, rest, t, j);
    }
  }

  lemma MarkerNone(a: string, c: char, key: string)
    requires Free(a, c)
    ensures AfterMarker(a, c, key) == None
  {
    forall k | 0 <= k <= |a| ensures !OccursAt(a, [c] + key, k) {
      if k < |a| { MarkerAt(a, c, key, k); }
    }
  }

  /** With no separator-free condition at all: a marker somewhere in `s` is found. */
  lemma MarkerSomewhere(a: string, c: char, key: string, rest: string)
    requires key <= rest
    ensures AfterMarker(a + [c] + rest, c, key).Some?
  {
    var s := a + [c] + rest;
    assert s[|a|] == c && s[|a| + 1..] == rest;
    MarkerAt(s, c, key, |a|);
  }

  /** Splitting distributes over a separator wherever it stands. */
  lemma {:induction false} SplitConcat(a: string, c: char, b: string)
    ensures Split(a + [c] + b, c) == Split(a, c) + Split(b, c)
    decreases |a|
  {
    hide Split;
    var i := Find(a, c);
    if i == |a| {
      SplitNone(a, c);
      SplitAt(a, c, b);
    } else {
      var head, tail := a[..i], a[i + 1..];
      SplitConcat(tail, c, b);
      SplitHead(head, c, tail, b);
      assert a == head + [c] + tail;
    }
  }

  lemma SplitHead(head: string, c: char, tail: string, b: string)
    requires Free(head, c) && Split(tail + [c] + b, c) == Split(tail, c) + Split(b, c)
    ensures var a := head + [c] + tail; Split(a + [c] + b, c) == Split(a, c) + Split(b, c)
  {
    hide Split;
    assert (head + [c] + tail) + [c] + b == head + [c] + (tail + [c] + b);
    SplitAt(head, c, tail + [c] + b);
    SplitAt(head, c, tail);
    assert [head] + (Split(tail, c) + Split(b, c)) == ([head] + Split(tail, c)) + Split(b, c);
  }

  /** A lexicographic order on strings, Go's `<`. */
  predicate Less(a: string, b: string) {
    b != "" && (a == "" || a[0] < b[0] || (a[0] == b[0] && Less(a[1..], b[1..])))
  }

  lemma {:induction false} LessTransitive(a: string, b: string, c: string)
    requires Less(a, b) && Less(b, c)
    ensures Less(a, c)
  {
    if a != "" && a[0] == b[0] && b[0] == c[0] {
      LessTransitive(a[1..], b[1..], c[1..]);
    }
  }

  lemma {:induction false} LessTotal(a: string, b: string)
    ensures (if Less(a, b) then 1 else 0) + (if Less(b, a) then 1 else 0) + (if a == b then 1 else 0) == 1
  {
    if a != "" && b != "" && a[0] == b[0] {
      LessTotal(a[1..], b[1..]);
      assert a == [a[0]] + a[1..] && b == [b[0]] + b[1..];
    }
  }

  /** The same order by the first difference: there `a` ends, or has the smaller character. */
  ghost predicate FirstDifference(a: string, b: string, k: nat) {
    k <= |a| && k < |b| && a[..k] == b[..k] && (k == |a| || a[k] < b[k])
  }

  lemma {:induction false} LessMeans(a: string, b: string)
    ensures Less(a, b) <==> exists k: nat :: FirstDifference(a, b, k)
  {
    if a == "" || b == "" || a[0] != b[0] {
      if b != "" && (a == "" || a[0] < b[0]) {
        assert FirstDifference(a, b, 0);
      }
      if k: nat :| FirstDifference(a, b, k) && k > 0 {
        SameHeads(a, b, k);
      }
    } else {
      LessMeans(a[1..], b[1..]);
      if k: nat :| FirstDifference(a[1..], b[1..], k) {
        DifferenceBehind(a, b, k);
      }
      if k: nat :| FirstDifference(a, b, k) {
        DifferenceBefore(a, b, k);
      }
    }
  }

  lemma SameHeads(a: string, b: string, k: nat)
    requires FirstDifference(a, b, k) && k > 0
    ensures a != "" && b != "" && a[0] == b[0]
  {
    assert a[..k][0] == b[..k][0];
  }

  lemma DifferenceBehind(a: string, b: string, k: nat)
    requires a != "" && b != "" && a[0] == b[0] && FirstDifference(a[1..], b[1..], k)
    ensures FirstDifference(a, b, k + 1)
  {
    assert a[..k + 1] == [a[0]] + a[1..][..k] && b[..k + 1] == [b[0]] + b[1..][..k];
  }

  lemma DifferenceBefore(a: string, b: string, k: nat)
    requires a != "" && b != "" && a[0] == b[0] && FirstDifference(a, b, k)
    ensures k > 0 && FirstDifference(a[1..], b[1..], k - 1)
  {
    if k > 0 {
      assert a[1..][..k - 1] == a[..k][1..] && b[1..][..k - 1] == b[..k][1..];
    }
  }
}
