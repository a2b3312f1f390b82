/** `syncAPIKeys`: the Secrets of a project's API keys, reconciled between the cluster and
    Langfuse. Every call may fail, carried out or not, and another writer may slip a Secret in
    between a delete and a create. */
module ApiKeys {
  import opened Text

  datatype KeySpec = KeySpec(name: string, secretName: string)

  datatype KeyStatus = KeyStatus(name: string, secretName: string, created: bool, rotated: bool)

  datatype Reply = Done | Refused | ReplyLost

  /** Secrets by name with the public key they hold ("" when they hold none), the public keys
      live in Langfuse, and how many keys were ever minted. */
  datatype State = State(secrets: map<string, string>, live: set<string>, minted: nat)

  /** The n-th key Langfuse mints, and what another writer puts into the Secret that the n-th
      minted key is meant for. */
  datatype Outside = Outside(mint: nat -> string, intrusion: nat -> Option<string>)

  /** Minted keys are new: none is live already and none comes twice. */
  ghost predicate Fresh(o: Outside, s: State) {
    && (forall n :: n >= s.minted ==> o.mint(n) !in s.live)
    && (forall m, n :: s.minted <= m < n ==> o.mint(m) != o.mint(n))
  }

  /** The Secret holds a key the pass found in Langfuse. */
  predicate Valid(name: string, secrets: map<string, string>, listed: set<string>) {
    name in secrets && secrets[name] in listed
  }

  // ----- what a pass without errors does -----

  /** Mint a key and store it - unless someone else's Secret is in the way. */
  function Recreate(o: Outside, name: string, s: State): State {
    var key := o.mint(s.minted);
    var held := if o.intrusion(s.minted).Some? then o.intrusion(s.minted).value else key;
    State(s.secrets[name := held], s.live + {key}, s.minted + 1)
  }

  function SyncOne(o: Outside, k: KeySpec, listed: set<string>, s: State): State {
    if Valid(k.secretName, s.secrets, listed) then s else Recreate(o, k.secretName, s)
  }

  function SyncAll(o: Outside, specs: seq<KeySpec>, listed: set<string>, s: State): State {
    if specs == [] then s
    else SyncOne(o, specs[|specs| - 1], listed, SyncAll(o, specs[..|specs| - 1], listed, s))
  }

  /** Whatever another writer put into the Secrets of keys `from` to `to` is among `live`. */
  predicate Harmless(o: Outside, from: nat, to: nat, live: set<string>) {
    forall n :: from <= n < to ==> o.intrusion(n).None? || o.intrusion(n).value in live
  }

  ghost predicate DistinctSecrets(specs: seq<KeySpec>) {
    forall i, j :: 0 <= i < j < |specs| ==> specs[i].secretName != specs[j].secretName
  }

  predicate Undisturbed(o: Outside, from: nat, to: nat) {
    forall n :: from <= n < to ==> o.intrusion(n).None?
  }

  /** What every pass keeps, error-free or not: no remote key goes, a Secret that held a live
      key is untouched, and so is every Secret the spec does not list. */
  ghost predicate Keeps(specs: seq<KeySpec>, s: State, t: State) {
    && s.live <= t.live && s.minted <= t.minted
    && (forall name :: Valid(name, s.secrets, s.live) ==> name in t.secrets && t.secrets[name] == s.secrets[name])
    && (forall name :: NotListed(specs, name) ==> (name in t.secrets <==> name in s.secrets))
    && (forall name :: NotListed(specs, name) && name in s.secrets && name in t.secrets ==> t.secrets[name] == s.secrets[name])
  }

  ghost predicate NotListed(specs: seq<KeySpec>, name: string) {
    forall i :: 0 <= i < |specs| ==> specs[i].secretName != name
  }

  /** Every Secret of `specs` holds a key of `live`. */
  ghost predicate Hold(specs: seq<KeySpec>, secrets: map<string, string>, live: set<string>) {
    forall i :: 0 <= i < |specs| ==> Valid(specs[i].secretName, secrets, live)
  }

  ghost predicate AllLive(specs: seq<KeySpec>, s: State) {
    Hold(specs, s.secrets, s.live)
  }

  /** An undisturbed error-free pass leaves a live key in every listed Secret - two entries may
      even share one. */
  lemma {:induction false} PassMakesLive(o: Outside, specs: seq<KeySpec>, listed: set<string>, s: State)
    requires listed <= s.live && Undisturbed(o, s.minted, SyncAll(o, specs, listed, s).minted)
    ensures s.minted <= SyncAll(o, specs, listed, s).minted && s.live <= SyncAll(o, specs, listed, s).live
    ensures AllLive(specs, SyncAll(o, specs, listed, s))
  {
    if specs != [] {
      var front, k := specs[..|specs| - 1], specs[|specs| - 1];
      var before, after := SyncAll(o, front, listed, s), SyncAll(o, specs, listed, s);
      MintedGrows(o, front, listed, s);
      PassMakesLive(o, front, listed, s);
      forall i | 0 <= i < |specs| ensures Valid(specs[i].secretName, after.secrets, after.live) {
        if i < |front| {
          assert specs[i] == front[i];
          assert Valid(front[i].secretName, before.secrets, before.live);
        }
      }
    }
  }

  /** One entry's turn leaves its Secret valid exactly when it was, or nobody else wrote it, or
      what they wrote is live. */
  lemma TurnLeavesLiveExactly(o: Outside, k: KeySpec, listed: set<string>, s: State)
    requires listed <= s.live
    ensures var t := SyncOne(o, k, listed, s);
      Valid(k.secretName, t.secrets, t.live) <==>
        || Valid(k.secretName, s.secrets, listed)
        || o.intrusion(s.minted).None?
        || o.intrusion(s.minted).value in s.live + {o.mint(s.minted)}
  {
  }

  /** What every created key claims, exactly: after an error-free pass over distinct Secrets each
      of them holds a live key if and only if no intruder during the pass wrote a key that is
      dead afterwards. */
  lemma CreatedMeansLiveExactly(o: Outside, specs: seq<KeySpec>, s: State)
    requires DistinctSecrets(specs)
    ensures var t := SyncAll(o, specs, s.live, s);
      AllLive(specs, t) <==> Harmless(o, s.minted, t.minted, t.live)
  {
    var t := SyncAll(o, specs, s.live, s);
    MintedGrows(o, specs, s.live, s);
    HoldsExactly(o, specs, s.live, s, t.live);
  }

  lemma {:induction false} HoldsExactly(o: Outside, specs: seq<KeySpec>, listed: set<string>, s: State, live: set<string>)
    requires DistinctSecrets(specs) && listed <= live && SyncAll(o, specs, listed, s).live <= live
    ensures var t := SyncAll(o, specs, listed, s);
      s.minted <= t.minted && (Hold(specs, t.secrets, live) <==> Harmless(o, s.minted, t.minted, live))
  {
    if specs != [] {
      var front, k := specs[..|specs| - 1], specs[|specs| - 1];
      var before, t := SyncAll(o, front, listed, s), SyncAll(o, specs, listed, s);
      HoldsExactly(o, front, listed, s, live);
      assert forall name :: name != k.secretName ==> Valid(name, t.secrets, live) == Valid(name, before.secrets, live);
      assert specs == front + [k];
      assert Hold(specs, t.secrets, live) <==> Hold(front, before.secrets, live) && Valid(k.secretName, t.secrets, live) by {
        assert forall i :: 0 <= i < |front| ==> specs[i] == front[i];
        if Hold(specs, t.secrets, live) {
          forall i | 0 <= i < |front| ensures Valid(front[i].secretName, before.secrets, live) {
            assert Valid(specs[i].secretName, t.secrets, live);
          }
        }
      }
    }
  }

  lemma {:induction false} MintedGrows(o: Outside, specs: seq<KeySpec>, listed: set<string>, s: State)
    ensures s.minted <= SyncAll(o, specs, listed, s).minted && s.live <= SyncAll(o, specs, listed, s).live
  {
    if specs != [] {
      MintedGrows(o, specs[..|specs| - 1], listed, s);
    }
  }

  /** A further pass creates and changes nothing exactly when every listed Secret holds a live
      key. */
  lemma {:induction false} QuietExactlyWhenLive(o: Outside, specs: seq<KeySpec>, s: State)
    ensures SyncAll(o, specs, s.live, s) == s <==> AllLive(specs, s)
    ensures SyncAll(o, specs, s.live, s).minted == s.minted <==> AllLive(specs, s)
  {
    if specs != [] {
      var front := specs[..|specs| - 1];
      QuietExactlyWhenLive(o, front, s);
      MintedGrows(o, front, s.live, s);
      assert AllLive(specs, s) <==>
             AllLive(front, s) && Valid(specs[|specs| - 1].secretName, s.secrets, s.live) by {
        assert forall i :: 0 <= i < |front| ==> specs[i] == front[i];
        if AllLive(specs, s) {
          forall i | 0 <= i < |front| ensures Valid(front[i].secretName, s.secrets, s.live) {
            assert Valid(specs[i].secretName, s.secrets, s.live);
          }
        }
      }
    }
  }

  /** So after an undisturbed error-free pass the next one is quiet. */
  lemma NextPassIsQuiet(o: Outside, specs: seq<KeySpec>, s: State)
    requires Undisturbed(o, s.minted, SyncAll(o, specs, s.live, s).minted)
    ensures var t := SyncAll(o, specs, s.live, s); SyncAll(o, specs, t.live, t) == t
  {
    PassMakesLive(o, specs, s.live, s);
    QuietExactlyWhenLive(o, specs, SyncAll(o, specs, s.live, s));
  }

  /** No key is handed out twice: an error-free pass adds exactly one live key for each it mints. */
  lemma {:induction false} FreshKeysAddUp(o: Outside, specs: seq<KeySpec>, listed: set<string>, s: State)
    requires Fresh(o, s)
    ensures var t := SyncAll(o, specs, listed, s);
      Fresh(o, t) && t.minted >= s.minted && |t.live| == |s.live| + (t.minted - s.minted)
  {
    if specs != [] {
      var before := SyncAll(o, specs[..|specs| - 1], listed, s);
      FreshKeysAddUp(o, specs[..|specs| - 1], listed, s);
      assert o.mint(before.minted) !in before.live;
    }
  }

  lemma {:induction false} UnlistedStays(o: Outside, specs: seq<KeySpec>, listed: set<string>, s: State, name: string)
    requires NotListed(specs, name)
    ensures var t := SyncAll(o, specs, listed, s);
      (name in t.secrets <==> name in s.secrets) && (name in s.secrets ==> t.secrets[name] == s.secrets[name])
  {
    if specs != [] {
      var front := specs[..|specs| - 1];
      assert forall i :: 0 <= i < |front| ==> specs[i] == front[i];
      UnlistedStays(o, front, listed, s, name);
    }
  }

  /** Which key a Secret holds after an undisturbed pass: the one it held if that is still live, else
      the key minted in its own entry's turn. */
  lemma {:induction false} KeyOfEntry(o: Outside, specs: seq<KeySpec>, listed: set<string>, s: State, i: nat)
    requires DistinctSecrets(specs) && i < |specs| && Undisturbed(o, s.minted, SyncAll(o, specs, listed, s).minted)
    ensures var name, t := specs[i].secretName, SyncAll(o, specs, listed, s);
      var turn := SyncAll(o, specs[..i], listed, s).minted;
      && name in t.secrets && s.minted <= turn
      && if Valid(name, s.secrets, listed) then t.secrets[name] == s.secrets[name]
         else turn < t.minted && t.secrets[name] == o.mint(turn)
  {
    hide SyncOne, Valid;
    var n := |specs| - 1;
    var front, k := specs[..n], specs[n];
    var before := SyncAll(o, front, listed, s);
    MintedGrows(o, front, listed, s);
    OneTurn(o, k, listed, before);
    assert forall j :: 0 <= j < n ==> specs[j] == front[j];
    if i == n {
      UnlistedStays(o, front, listed, s, k.secretName);
      SameValidity(k.secretName, s.secrets, before.secrets, listed);
    } else {
      KeyOfEntry(o, front, listed, s, i);
      assert specs[..i] == front[..i];
    }
  }

  lemma OneTurn(o: Outside, k: KeySpec, listed: set<string>, s: State)
    ensures var t, kept := SyncOne(o, k, listed, s), Valid(k.secretName, s.secrets, listed);
      && t.minted == s.minted + (if kept then 0 else 1)
      && k.secretName in t.secrets
      && (kept ==> k.secretName in s.secrets && t.secrets[k.secretName] == s.secrets[k.secretName])
      && (!kept && o.intrusion(s.minted).None? ==> t.secrets[k.secretName] == o.mint(s.minted))
      && forall name :: name != k.secretName ==> (name in t.secrets <==> name in s.secrets) && (name in s.secrets ==> t.secrets[name] == s.secrets[name])
  {
  }

  lemma SameValidity(name: string, a: map<string, string>, b: map<string, string>, listed: set<string>)
    requires (name in a <==> name in b) && (name in a ==> a[name] == b[name])
    ensures Valid(name, a, listed) <==> Valid(name, b, listed)
  {
  }

  /** No key is stored twice: an undisturbed pass puts a key of its own, live before nowhere, into
      every Secret it renews. */
  lemma RenewedSecretsDiffer(o: Outside, specs: seq<KeySpec>, listed: set<string>, s: State, i: nat, j: nat)
    requires Fresh(o, s) && DistinctSecrets(specs) && i < j < |specs| && Undisturbed(o, s.minted, SyncAll(o, specs, listed, s).minted)
    requires !Valid(specs[i].secretName, s.secrets, listed)
    ensures var t := SyncAll(o, specs, listed, s);
      && specs[i].secretName in t.secrets && t.secrets[specs[i].secretName] !in s.live
      && specs[j].secretName in t.secrets
      && (!Valid(specs[j].secretName, s.secrets, listed) ==> t.secrets[specs[i].secretName] != t.secrets[specs[j].secretName])
  {
    KeyOfEntry(o, specs, listed, s, i);
    KeyOfEntry(o, specs, listed, s, j);
    TurnsGrow(o, specs, listed, s, i, j);
  }

  lemma {:induction false} TurnsGrow(o: Outside, specs: seq<KeySpec>, listed: set<string>, s: State, i: nat, j: nat)
    requires DistinctSecrets(specs) && i < j <= |specs| && !Valid(specs[i].secretName, s.secrets, listed)
    ensures SyncAll(o, specs[..i], listed, s).minted < SyncAll(o, specs[..j], listed, s).minted
  {
    OneMoreKey(o, specs, j - 1, listed, s);
    if i < j - 1 {
      TurnsGrow(o, specs, listed, s, i, j - 1);
    } else {
      assert forall m :: 0 <= m < i ==> specs[..i][m] == specs[m];
      UnlistedStays(o, specs[..i], listed, s, specs[i].secretName);
    }
  }

  /** A disturbed one reports the key as created all the same, while the Secret holds the other
      writer's dead key; the pass after it repairs that. */
  lemma DisturbedPassIsRepaired(o: Outside, k: KeySpec, s: State, dead: string)
    requires !Valid(k.secretName, s.secrets, s.live) && o.intrusion(s.minted) == Some(dead)
    requires dead !in s.live && dead != o.mint(s.minted) && o.intrusion(s.minted + 1) == None
    ensures var t := SyncAll(o, [k], s.live, s); var u := SyncAll(o, [k], t.live, t);
      && StatusOf(o, [k], 0, s.live, s) == KeyStatus(k.name, k.secretName, true, true)
      && !AllLive([k], t) && AllLive([k], u)
  {
    assert [k][..0] == [] && [k][0] == k;
    assert SyncAll(o, [], s.live, s) == s;
    var t := SyncAll(o, [k], s.live, s);
    assert t == Recreate(o, k.secretName, s);
    assert SyncAll(o, [], t.live, t) == t;
    assert SyncAll(o, [k], t.live, t) == Recreate(o, k.secretName, t);
    assert !Valid([k][0].secretName, t.secrets, t.live);
  }

  /** The status of entry `i`: always created, rotated when its Secret was not valid. */
  function StatusOf(o: Outside, specs: seq<KeySpec>, i: nat, listed: set<string>, s: State): KeyStatus
    requires i < |specs|
  {
    KeyStatus(specs[i].name, specs[i].secretName, true,
              !Valid(specs[i].secretName, SyncAll(o, specs[..i], listed, s).secrets, listed))
  }

  function Rotations(statuses: seq<KeyStatus>): nat {
    if statuses == [] then 0
    else Rotations(statuses[..|statuses| - 1]) + if statuses[|statuses| - 1].rotated then 1 else 0
  }

  // ----- the pass -----

  class Stores {
    var secrets: map<string, string>
    var live: set<string>
    var minted: nat
    var calls: nat
    const outside: Outside
    const replies: nat -> Reply

    ghost function Now(): State
      reads this
    {
      State(secrets, live, minted)
    }

    constructor (secrets: map<string, string>, live: set<string>, outside: Outside, replies: nat -> Reply)
      ensures Now() == State(secrets, live, 0) && this.outside == outside
    {
      this.secrets, this.live, this.outside, this.replies := secrets, live, outside, replies;
      minted, calls := 0, 0;
    }

    method Ask() returns (r: Reply)
      modifies this`calls
    {
      r := replies(calls);
      calls := calls + 1;
    }

    method DeleteSecret(name: string) returns (ok: bool)
      modifies this
      ensures live == old(live) && minted == old(minted)
      ensures secrets == old(secrets) || secrets == old(secrets) - {name}
      ensures ok ==> secrets == old(secrets) - {name}
    {
      var r := Ask();
      if r != Refused {
        secrets := secrets - {name};
      }
      return r == Done;
    }

    method CreateKey() returns (ok: bool, key: string)
      modifies this
      ensures secrets == old(secrets)
      ensures Now() == old(Now()) || (minted == old(minted) + 1 && live == old(live) + {outside.mint(old(minted))})
      ensures ok ==> key == outside.mint(old(minted)) && minted == old(minted) + 1 && live == old(live) + {key}
    {
      key := "";
      var r := Ask();
      if r != Refused {
        key := outside.mint(minted);
        live, minted := live + {key}, minted + 1;
      }
      return r == Done, key;
    }

    /** Creating a Secret that is already there is no error to the pass. */
    method CreateSecret(name: string, key: string) returns (ok: bool)
      requires name !in secrets && minted > 0
      modifies this
      ensures live == old(live) && minted == old(minted)
      ensures name !in secrets || secrets == old(secrets)[name := secrets[name]]
      ensures name !in secrets ==> secrets == old(secrets)
      ensures ok ==> secrets == old(secrets)[name := OrElse(outside.intrusion(minted - 1), key)]
    {
      if outside.intrusion(minted - 1).Some? {
        secrets := secrets[name := outside.intrusion(minted - 1).value];
      }
      var r := Ask();
      if r != Refused && name !in secrets {
        secrets := secrets[name := key];
      }
      return r == Done;
    }
  }

  function OrElse(o: Option<string>, default: string): string {
    if o.Some? then o.value else default
  }

  method SyncKey(stores: Stores, k: KeySpec, listed: set<string>) returns (ok: bool, status: KeyStatus)
    modifies stores
    ensures ok ==> stores.Now() == SyncOne(stores.outside, k, listed, old(stores.Now()))
    ensures ok ==> status == KeyStatus(k.name, k.secretName, true, !Valid(k.secretName, old(stores.secrets), listed))
    ensures Touches(k, listed, old(stores.Now()), stores.Now())
  {
    status := KeyStatus(k.name, k.secretName, false, false);
    var r := stores.Ask();
    if r != Done {
      return false, status;
    }
    if k.secretName in stores.secrets {
      if stores.secrets[k.secretName] in listed {
        return true, status.(created := true);
      }
      ok := stores.DeleteSecret(k.secretName);
      if !ok {
        return;
      }
    }
    ghost var without := stores.secrets;
    var key;
    ok, key := stores.CreateKey();
    if !ok {
      return;
    }
    ok := stores.CreateSecret(k.secretName, key);
    if !ok {
      return;
    }
    assert without[k.secretName := stores.secrets[k.secretName]] ==
           old(stores.secrets)[k.secretName := stores.secrets[k.secretName]];
    status := status.(created := true, rotated := true);
  }

  /** What one entry's turn can touch, whichever call fails: at most one key is minted, and of
      the Secrets only its own - and that only when it was not valid. */
  ghost predicate Touches(k: KeySpec, listed: set<string>, s: State, t: State) {
    && s.live <= t.live && s.minted <= t.minted <= s.minted + 1
    && (forall name :: name != k.secretName ==> (name in t.secrets <==> name in s.secrets))
    && (forall name :: name != k.secretName && name in s.secrets && name in t.secrets ==> t.secrets[name] == s.secrets[name])
    && (Valid(k.secretName, s.secrets, listed) ==> t == s)
  }

  lemma TouchesKeeps(specs: seq<KeySpec>, i: nat, s: State, t: State, u: State)
    requires i < |specs| && Keeps(specs, s, t) && Touches(specs[i], s.live, t, u)
    ensures Keeps(specs, s, u)
  {
    forall name | NotListed(specs, name) ensures name != specs[i].secretName {
    }
    forall name | Valid(name, s.secrets, s.live) ensures name in u.secrets && u.secrets[name] == s.secrets[name] {
      assert Valid(name, t.secrets, s.live);
    }
  }

  lemma OneMoreKey(o: Outside, specs: seq<KeySpec>, i: nat, listed: set<string>, s: State)
    requires i < |specs|
    ensures SyncAll(o, specs[..i + 1], listed, s) == SyncOne(o, specs[i], listed, SyncAll(o, specs[..i], listed, s))
  {
    assert specs[..i + 1][..i] == specs[..i];
  }

  /** The statuses account for the keys minted. */
  lemma RotationsOne(statuses: seq<KeyStatus>, status: KeyStatus)
    ensures Rotations(statuses + [status]) == Rotations(statuses) + if status.rotated then 1 else 0
  {
    assert (statuses + [status])[..|statuses|] == statuses;
  }

  method SyncAPIKeys(stores: Stores, projectId: string, specs: seq<KeySpec>) returns (ok: bool, statuses: seq<KeyStatus>)
    modifies stores
    ensures projectId == "" ==> !ok && stores.Now() == old(stores.Now())
    ensures Keeps(specs, old(stores.Now()), stores.Now())
    ensures ok ==> stores.Now() == SyncAll(stores.outside, specs, old(stores.live), old(stores.Now()))
    ensures ok ==> |statuses| == |specs| && forall i :: 0 <= i < |specs| ==>
              statuses[i] == StatusOf(stores.outside, specs, i, old(stores.live), old(stores.Now()))
    ensures ok ==> stores.minted - old(stores.minted) == Rotations(statuses)
    ensures ok && Undisturbed(stores.outside, old(stores.minted), stores.minted) ==> AllLive(specs, stores.Now())
    ensures ok && DistinctSecrets(specs) ==>
      (AllLive(specs, stores.Now()) <==> Harmless(stores.outside, old(stores.minted), stores.minted, stores.live))
  {
    hide Keeps, SyncAll, Touches, SyncOne, Rotations, Undisturbed, Harmless, AllLive;
    ghost var start := stores.Now();
    ok, statuses := false, [];
    assert Keeps(specs, start, start) by { KeepsItself(specs, start); }
    if projectId == "" {
      return;
    }
    var r := stores.Ask();
    if r != Done {
      return;
    }
    var listed := stores.live;
    NoneYet(stores.outside, specs, listed, start);
    for i := 0 to |specs|
      invariant stores.Now() == SyncAll(stores.outside, specs[..i], listed, start)
      invariant Keeps(specs, start, stores.Now())
      invariant |statuses| == i
      invariant forall j :: 0 <= j < i ==> statuses[j] == StatusOf(stores.outside, specs, j, listed, start)
      invariant stores.minted == start.minted + Rotations(statuses)
    {
      OneMoreKey(stores.outside, specs, i, listed, start);
      ghost var before := stores.Now();
      var done, status := SyncKey(stores, specs[i], listed);
      TouchesKeeps(specs, i, start, before, stores.Now());
      if !done {
        return;
      }
      RotationsOne(statuses, status);
      MintedByOne(stores.outside, specs[i], listed, before);
      statuses := statuses + [status];
    }
    assert specs[..|specs|] == specs;
    if Undisturbed(stores.outside, start.minted, stores.minted) {
      PassMakesLive(stores.outside, specs, listed, start);
    }
    if DistinctSecrets(specs) {
      CreatedMeansLiveExactly(stores.outside, specs, start);
    }
    ok := true;
  }

  lemma KeepsItself(specs: seq<KeySpec>, s: State)
    ensures Keeps(specs, s, s)
  {
  }

  lemma NoneYet(o: Outside, specs: seq<KeySpec>, listed: set<string>, s: State)
    ensures SyncAll(o, specs[..0], listed, s) == s && Rotations([]) == 0
  {
  }

  lemma MintedByOne(o: Outside, k: KeySpec, listed: set<string>, s: State)
    ensures SyncOne(o, k, listed, s).minted == s.minted + if Valid(k.secretName, s.secrets, listed) then 0 else 1
  {
  }
}
