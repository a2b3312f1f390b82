/** `syncMembers`: an organization's membership brought to its spec, call by call, against a
    remote store whose calls may fail - with or without having been carried out. */
module Members {
  datatype User = User(email: string, role: string)

  datatype Member = Member(id: nat, email: string, role: string)

  datatype Account = Account(id: nat, role: string)

  /** How a write call ends. A lost reply is an error to the caller, yet the write happened. */
  datatype Reply = Done | Refused | ReplyLost

  // ----- what a pass is for -----

  function Emails(users: seq<User>): set<string> {
    set u | u in users :: u.email
  }

  ghost predicate Distinct(users: seq<User>) {
    forall i, j :: 0 <= i < j < |users| ==> users[i].email != users[j].email
  }

  /** Entries with one email carry one role; repeating an entry is allowed. */
  ghost predicate Consistent(users: seq<User>) {
    forall u, w :: u in users && w in users && u.email == w.email ==> u.role == w.role
  }

  lemma DistinctIsConsistent(users: seq<User>)
    requires Distinct(users)
    ensures Consistent(users)
  {
    forall u, w | u in users && w in users && u.email == w.email ensures u.role == w.role {
      var i :| 0 <= i < |users| && users[i] == u;
      var j :| 0 <= j < |users| && users[j] == w;
    }
  }

  /** Listed users that are absent or have another role. */
  function Wrong(users: seq<User>, roles: map<string, string>): set<string> {
    set u | u in users && (u.email !in roles || roles[u.email] != u.role) :: u.email
  }

  /** Members the spec does not list, when it is to list them all. */
  function Unlisted(users: seq<User>, exclusive: bool, roles: map<string, string>): set<string> {
    if exclusive then roles.Keys - Emails(users) else {}
  }

  function Mismatches(users: seq<User>, exclusive: bool, roles: map<string, string>): nat {
    |Wrong(users, roles)| + |Unlisted(users, exclusive, roles)|
  }

  /** The roles after the listed users, each compared with what the pass read at its start. */
  function AfterUsers(users: seq<User>, read: map<string, string>): map<string, string> {
    if users == [] then read
    else
      var before, u := AfterUsers(users[..|users| - 1], read), users[|users| - 1];
      if u.email in read && read[u.email] == u.role then before else before[u.email := u.role]
  }

  function Reconciled(users: seq<User>, exclusive: bool, read: map<string, string>): map<string, string> {
    AfterUsers(users, read) - Unlisted(users, exclusive, read)
  }

  lemma EmailsGrow(users: seq<User>)
    requires users != []
    ensures Emails(users) == Emails(users[..|users| - 1]) + {users[|users| - 1].email}
  {
    var front, u := users[..|users| - 1], users[|users| - 1];
    assert users == front + [u];
  }

  /** With one role per email: the listed ones end with it, the others as they were. */
  lemma {:induction false} AfterUsersAt(users: seq<User>, read: map<string, string>)
    requires Consistent(users)
    ensures AfterUsers(users, read).Keys == read.Keys + Emails(users)
    ensures forall u :: u in users ==> u.email in AfterUsers(users, read) && AfterUsers(users, read)[u.email] == u.role
    ensures forall e :: e in read && e !in Emails(users) ==> AfterUsers(users, read)[e] == read[e]
  {
    if users != [] {
      var front, u := users[..|users| - 1], users[|users| - 1];
      assert users == front + [u];
      AfterUsersAt(front, read);
      EmailsGrow(users);
      LastUserAt(front, u, read);
    }
  }

  lemma LastUserAt(front: seq<User>, u: User, read: map<string, string>)
    requires Consistent(front + [u])
    requires AfterUsers(front, read).Keys == read.Keys + Emails(front)
    requires forall w :: w in front ==> w.email in AfterUsers(front, read) && AfterUsers(front, read)[w.email] == w.role
    requires forall e :: e in read && e !in Emails(front) ==> AfterUsers(front, read)[e] == read[e]
    ensures var after := AfterUsers(front + [u], read);
      && u.email in after && after[u.email] == u.role
      && (forall w :: w in front ==> w.email in after && after[w.email] == w.role)
      && after.Keys == AfterUsers(front, read).Keys + {u.email}
      && forall e :: e in read && e != u.email ==> e in after && after[e] == AfterUsers(front, read)[e]
  {
    var users, before := front + [u], AfterUsers(front, read);
    assert users[..|users| - 1] == front;
    assert u in users && forall w :: w in front ==> w in users;
    if u.email in read && read[u.email] == u.role && u.email in Emails(front) {
      var w :| w in front && w.email == u.email;
      assert before[u.email] == w.role;
    }
  }

  /** What an error-free pass leaves: every listed member with the listed role; in exclusive
      mode nobody else, otherwise everybody else untouched. */
  lemma ReconciledMeetsSpec(users: seq<User>, exclusive: bool, read: map<string, string>)
    requires Consistent(users)
    ensures var roles := Reconciled(users, exclusive, read);
      && (forall u :: u in users ==> u.email in roles && roles[u.email] == u.role)
      && roles.Keys == Emails(users) + (if exclusive then {} else read.Keys)
      && (!exclusive ==> forall e :: e in read && e !in Emails(users) ==> roles[e] == read[e])
  {
    hide AfterUsers;
    AfterUsersAt(users, read);
    var after, gone := AfterUsers(users, read), Unlisted(users, exclusive, read);
    assert gone !! Emails(users);
    assert forall u :: u in users ==> u.email in Emails(users);
    assert (after - gone).Keys == after.Keys - gone;
  }

  /** And it leaves nothing for a further pass. */
  lemma ReconciledIsSettled(users: seq<User>, exclusive: bool, read: map<string, string>)
    requires Consistent(users)
    ensures var roles := Reconciled(users, exclusive, read);
      Mismatches(users, exclusive, roles) == 0 && Reconciled(users, exclusive, roles) == roles
  {
    hide Reconciled;
    ReconciledMeetsSpec(users, exclusive, read);
    NothingLeft(users, exclusive, Reconciled(users, exclusive, read));
  }

  /** A roster on which a pass has nothing to do is exactly one that the pass keeps. */
  lemma NothingLeft(users: seq<User>, exclusive: bool, roles: map<string, string>)
    requires Consistent(users)
    ensures Mismatches(users, exclusive, roles) == 0 <==> Reconciled(users, exclusive, roles) == roles
    ensures Mismatches(users, exclusive, roles) == 0 <==>
      && (forall u :: u in users ==> u.email in roles && roles[u.email] == u.role)
      && (exclusive ==> roles.Keys <= Emails(users))
  {
    hide AfterUsers;
    var wrong, extra := Wrong(users, roles), Unlisted(users, exclusive, roles);
    if Mismatches(users, exclusive, roles) == 0 {
      assert wrong == {} && extra == {};
      forall u | u in users ensures u.email in roles && roles[u.email] == u.role {
        assert u.email !in wrong;
      }
      SettledStays(users, roles);
      assert roles - {} == roles;
    }
    if Reconciled(users, exclusive, roles) == roles {
      ReconciledMeetsSpec(users, exclusive, roles);
      assert wrong == {};
    }
    if (forall u :: u in users ==> u.email in roles && roles[u.email] == u.role) && (exclusive ==> roles.Keys <= Emails(users)) {
      assert wrong == {} && extra == {};
    }
  }

  lemma {:induction false} SettledStays(users: seq<User>, roles: map<string, string>)
    requires forall u :: u in users ==> u.email in roles && roles[u.email] == u.role
    ensures AfterUsers(users, roles) == roles
  {
    if users != [] {
      var front, u := users[..|users| - 1], users[|users| - 1];
      assert users == front + [u];
      SettledStays(front, roles);
    }
  }

  /** Listing one member with two roles never settles: every error-free pass leaves that member
      with a role other than the one it read, so the next pass writes again. */
  lemma ConflictingEntriesNeverSettle(users: seq<User>, exclusive: bool, read: map<string, string>, i: nat, j: nat)
    requires i < |users| && j < |users| && users[i].email == users[j].email && users[i].role != users[j].role
    requires users[i].email in read
    ensures var e, roles := users[i].email, Reconciled(users, exclusive, read);
      e in roles && roles[e] != read[e] && Mismatches(users, exclusive, read) > 0
  {
    var e := users[i].email;
    var k := if users[i].role != read[e] then i else j;
    Overwritten(users, read, k);
    assert users[i] in users && e in Emails(users);
    assert users[k] in users && e in Wrong(users, read);
  }

  lemma {:induction false} Overwritten(users: seq<User>, read: map<string, string>, k: nat)
    requires k < |users| && users[k].email in read && read[users[k].email] != users[k].role
    ensures users[k].email in AfterUsers(users, read) && AfterUsers(users, read)[users[k].email] != read[users[k].email]
  {
    if k < |users| - 1 {
      Overwritten(users[..|users| - 1], read, k);
    }
  }

  /** A spec can settle exactly when entries with one email carry one role: only then is there
      a roster with all its users that an error-free pass keeps. */
  lemma SettlesExactlyWhenConsistent(users: seq<User>, exclusive: bool)
    ensures (exists roles :: Keeps(users, exclusive, roles)) <==> Consistent(users)
  {
    hide Reconciled;
    if roles :| Keeps(users, exclusive, roles) {
      forall u, w | u in users && w in users && u.email == w.email ensures u.role == w.role {
        var i :| 0 <= i < |users| && users[i] == u;
        var j :| 0 <= j < |users| && users[j] == w;
        assert u.email in Emails(users);
        if u.role != w.role {
          ConflictingEntriesNeverSettle(users, exclusive, roles, i, j);
        }
      }
    }
    if Consistent(users) {
      var roles := Reconciled(users, exclusive, map[]);
      ReconciledMeetsSpec(users, exclusive, map[]);
      ReconciledIsSettled(users, exclusive, map[]);
      assert Keeps(users, exclusive, roles);
    }
  }

  ghost predicate Keeps(users: seq<User>, exclusive: bool, roles: map<string, string>) {
    Emails(users) <= roles.Keys && Reconciled(users, exclusive, roles) == roles
  }

  // ----- the remote store -----

  predicate OneEach(accounts: map<string, Account>) {
    forall e, f :: e in accounts && f in accounts && accounts[e].id == accounts[f].id ==> e == f
  }

  function RolesIn(accounts: map<string, Account>): map<string, string> {
    map e | e in accounts :: accounts[e].role
  }

  ghost predicate IsEntry(m: Member, accounts: map<string, Account>) {
    m.email in accounts && accounts[m.email] == Account(m.id, m.role)
  }

  ghost predicate Listed(list: seq<Member>, email: string) {
    exists k :: 0 <= k < |list| && list[k].email == email
  }

  /** A membership list in some order. */
  ghost predicate Lists(list: seq<Member>, accounts: map<string, Account>) {
    && (forall k :: 0 <= k < |list| ==> IsEntry(list[k], accounts))
    && (forall i, j :: 0 <= i < j < |list| ==> list[i].email != list[j].email)
    && (forall e :: e in accounts ==> Listed(list, e))
  }

  /** One organization in Langfuse. `replies` decides how each write call ends. */
  class OrgStore {
    var accounts: map<string, Account>
    var nextId: nat
    var issued: nat
    ghost var carried: nat
    const replies: nat -> Reply

    ghost predicate Valid()
      reads this
    {
      OneEach(accounts) && forall e :: e in accounts ==> accounts[e].id < nextId
    }

    function Roles(): map<string, string>
      reads this
    {
      RolesIn(accounts)
    }

    constructor (replies: nat -> Reply)
      ensures Valid() && accounts == map[] && issued == 0 == carried
    {
      this.replies := replies;
      accounts, nextId, issued, carried := map[], 0, 0, 0;
    }

    method List() returns (list: seq<Member>)
      ensures Lists(list, accounts)
    {
      list := [];
      var left := accounts.Keys;
      while left != {}
        invariant left <= accounts.Keys
        invariant forall k :: 0 <= k < |list| ==> IsEntry(list[k], accounts) && list[k].email !in left
        invariant forall i, j :: 0 <= i < j < |list| ==> list[i].email != list[j].email
        invariant forall e :: e in accounts && e !in left ==> Listed(list, e)
        decreases left
      {
        var e :| e in left;
        ghost var was := list;
        list := list + [Member(accounts[e].id, e, accounts[e].role)];
        left := left - {e};
        assert list[|was|].email == e;
        forall f | f in accounts && f !in left ensures Listed(list, f) {
          if f != e {
            var k :| 0 <= k < |was| && was[k].email == f;
            assert list[k].email == f;
          }
        }
      }
    }

    method Update(id: nat, role: string, ghost email: string) returns (ok: bool)
      requires Valid() && email in accounts && accounts[email].id == id
      modifies this
      ensures Valid() && issued == old(issued) + 1
      ensures carried - old(carried) in {0, 1} && (ok ==> carried == old(carried) + 1)
      ensures Roles() == if carried > old(carried) then old(Roles())[email := role] else old(Roles())
      ensures accounts.Keys == old(accounts).Keys && forall e :: e in accounts ==> accounts[e].id == old(accounts)[e].id
    {
      var reply := replies(issued);
      issued := issued + 1;
      if reply != Refused {
        if e :| e in accounts && accounts[e].id == id {
          accounts := accounts[e := Account(id, role)];
          carried := carried + 1;
        }
      }
      return reply == Done;
    }

    /** Refused when the email is a member already. */
    method Add(email: string, role: string) returns (ok: bool)
      requires Valid()
      modifies this
      ensures Valid() && issued == old(issued) + 1
      ensures carried - old(carried) in {0, 1} && (ok ==> carried == old(carried) + 1)
      ensures carried > old(carried) ==> email !in old(accounts)
      ensures Roles() == if carried > old(carried) then old(Roles())[email := role] else old(Roles())
      ensures forall e :: e in old(accounts) ==> e in accounts && accounts[e].id == old(accounts)[e].id
    {
      var reply := replies(issued);
      issued := issued + 1;
      if reply == Refused || email in accounts {
        return false;
      }
      accounts := accounts[email := Account(nextId, role)];
      nextId, carried := nextId + 1, carried + 1;
      return reply == Done;
    }

    method Remove(id: nat, ghost email: string) returns (ok: bool)
      requires Valid() && email in accounts && accounts[email].id == id
      modifies this
      ensures Valid() && issued == old(issued) + 1
      ensures carried - old(carried) in {0, 1} && (ok ==> carried == old(carried) + 1)
      ensures Roles() == if carried > old(carried) then old(Roles()) - {email} else old(Roles())
      ensures forall e :: e in old(accounts) && e != email ==> e in accounts && accounts[e] == old(accounts)[e]
    {
      var reply := replies(issued);
      issued := issued + 1;
      if reply != Refused {
        if e :| e in accounts && accounts[e].id == id {
          accounts := accounts - {e};
          carried := carried + 1;
        }
      }
      return reply == Done;
    }
  }

  // ----- the pass -----

  /** Carrying out a pending write settles one mismatch. */
  lemma WriteSettles(users: seq<User>, exclusive: bool, roles: map<string, string>, u: User)
    requires Distinct(users) && u in users && u.email in Wrong(users, roles)
    ensures Mismatches(users, exclusive, roles[u.email := u.role]) == Mismatches(users, exclusive, roles) - 1
  {
    hide Wrong, Unlisted;
    WrongAfterWrite(users, roles, u);
    UnlistedAfterWrite(users, exclusive, roles, u);
  }

  lemma WrongAfterWrite(users: seq<User>, roles: map<string, string>, u: User)
    requires Distinct(users) && u in users
    ensures Wrong(users, roles[u.email := u.role]) == Wrong(users, roles) - {u.email}
  {
    var wrong, after := Wrong(users, roles), roles[u.email := u.role];
    forall w | w in users ensures w.email == u.email ==> w == u {
      var i :| 0 <= i < |users| && users[i] == w;
      var j :| 0 <= j < |users| && users[j] == u;
    }
    forall e ensures e in Wrong(users, after) <==> e in wrong && e != u.email {
    }
  }

  lemma UnlistedAfterWrite(users: seq<User>, exclusive: bool, roles: map<string, string>, u: User)
    requires u in users
    ensures Unlisted(users, exclusive, roles[u.email := u.role]) == Unlisted(users, exclusive, roles)
  {
    assert u.email in Emails(users);
  }

  lemma RemovalSettles(users: seq<User>, exclusive: bool, roles: map<string, string>, email: string)
    requires email in Unlisted(users, exclusive, roles)
    ensures Mismatches(users, exclusive, roles - {email}) == Mismatches(users, exclusive, roles) - 1
  {
    assert Wrong(users, roles - {email}) == Wrong(users, roles) by {
      assert forall u :: u in users ==> u.email in Emails(users);
    }
    assert Unlisted(users, exclusive, roles - {email}) == Unlisted(users, exclusive, roles) - {email};
  }

  /** The user's write is a pending one: earlier writes of the pass concern other emails. */
  lemma StillPending(users: seq<User>, i: nat, read: map<string, string>)
    requires Distinct(users) && i < |users|
    requires users[i].email !in read || read[users[i].email] != users[i].role
    ensures users[i].email in Wrong(users, AfterUsers(users[..i], read))
    ensures users[i].email in AfterUsers(users[..i], read) ==> users[i].email in read
  {
    DistinctIsConsistent(users[..i]);
    AfterUsersAt(users[..i], read);
    assert users[i] in users;
    assert users[i].email !in Emails(users[..i]);
  }

  function RolesRead(byEmail: map<string, Member>): map<string, string> {
    map e | e in byEmail :: byEmail[e].role
  }

  /** The store as the accounting sees it: write calls issued, writes carried out, roles. */
  datatype Tally = Tally(issued: nat, carried: nat, roles: map<string, string>)

  ghost function TallyOf(store: OrgStore): Tally
    reads store
  {
    Tally(store.issued, store.carried, store.Roles())
  }

  /** Every write carried out settles one mismatch, and no call is issued without one. */
  ghost predicate Progress(users: seq<User>, exclusive: bool, t0: Tally, t1: Tally, ok: bool) {
    var m0, m1 := Mismatches(users, exclusive, t0.roles), Mismatches(users, exclusive, t1.roles);
    && t1.carried + m1 == t0.carried + m0
    && t0.carried <= t1.carried
    && t1.issued - t0.issued <= t1.carried - t0.carried + (if ok then 0 else 1)
    && t1.issued - t0.issued <= m0
  }

  /** Progress of a part that did not fail, followed by another part. */
  lemma ProgressAdds(users: seq<User>, exclusive: bool, t0: Tally, t1: Tally, t2: Tally, ok: bool)
    requires Progress(users, exclusive, t0, t1, true) && Progress(users, exclusive, t1, t2, ok)
    ensures Progress(users, exclusive, t0, t2, ok)
  {
  }

  predicate WriteCall(roles: map<string, string>, t0: Tally, t1: Tally, ok: bool) {
    && t1.issued == t0.issued + 1
    && if t1.carried == t0.carried then !ok && t1.roles == t0.roles
       else t1.carried == t0.carried + 1 && t1.roles == roles
  }

  /** One user's turn: no call when the role read is the listed one, one write call otherwise. */
  predicate UserTurn(u: User, read: map<string, string>, t0: Tally, t1: Tally, ok: bool) {
    if u.email in read && read[u.email] == u.role then ok && t1 == t0
    else WriteCall(t0.roles[u.email := u.role], t0, t1, ok)
  }

  lemma TurnProgress(users: seq<User>, exclusive: bool, i: nat, read: map<string, string>, t0: Tally, t1: Tally, ok: bool)
    requires Distinct(users) && i < |users| && t0.roles == AfterUsers(users[..i], read)
    requires UserTurn(users[i], read, t0, t1, ok)
    ensures Progress(users, exclusive, t0, t1, ok)
  {
    hide AfterUsers, Mismatches;
    if !(users[i].email in read && read[users[i].email] == users[i].role) {
      StillPending(users, i, read);
      assert users[i] in users;
      WriteSettles(users, exclusive, t0.roles, users[i]);
    }
  }

  method SyncUser(store: OrgStore, byEmail: map<string, Member>, u: User) returns (ok: bool)
    requires store.Valid() && SameIds(byEmail, store.accounts)
    modifies store
    ensures store.Valid() && SameIds(byEmail, store.accounts)
    ensures UserTurn(u, RolesRead(byEmail), old(TallyOf(store)), TallyOf(store), ok)
  {
    ok := true;
    if u.email in byEmail {
      if byEmail[u.email].role != u.role {
        ok := store.Update(byEmail[u.email].id, u.role, u.email);
      }
    } else {
      ok := store.Add(u.email, u.role);
    }
  }

  /** The members read are still there, under the ids read. */
  ghost predicate SameIds(byEmail: map<string, Member>, accounts: map<string, Account>) {
    forall e :: e in byEmail ==> e in accounts && accounts[e].id == byEmail[e].id
  }

  lemma OneMoreUser(users: seq<User>, i: nat, read: map<string, string>)
    requires i < |users|
    ensures AfterUsers(users[..i + 1], read) ==
      if users[i].email in read && read[users[i].email] == users[i].role then AfterUsers(users[..i], read)
      else AfterUsers(users[..i], read)[users[i].email := users[i].role]
  {
    assert users[..i + 1][..i] == users[..i];
  }

  method SyncUsers(store: OrgStore, byEmail: map<string, Member>, users: seq<User>, ghost exclusive: bool)
    returns (synced: nat, ok: bool)
    requires store.Valid() && SameIds(byEmail, store.accounts) && RolesRead(byEmail) == store.Roles()
    modifies store
    ensures store.Valid() && SameIds(byEmail, store.accounts)
    ensures synced <= |users| && (ok ==> synced == |users|)
    ensures ok ==> store.Roles() == AfterUsers(users, old(store.Roles()))
    ensures !ok ==> synced < |users| && (|| store.Roles() == AfterUsers(users[..synced], old(store.Roles()))
                                         || store.Roles() == AfterUsers(users[..synced + 1], old(store.Roles())))
    ensures Distinct(users) ==> Progress(users, exclusive, old(TallyOf(store)), TallyOf(store), ok)
  {
    hide AfterUsers, Mismatches, SameIds, Distinct;
    ghost var read, start := store.Roles(), TallyOf(store);
    synced, ok := 0, true;
    assert AfterUsers(users[..0], read) == read by { AfterNone(users, read); }
    for i := 0 to |users|
      invariant synced == i && ok && store.Valid() && SameIds(byEmail, store.accounts)
      invariant store.Roles() == AfterUsers(users[..i], read)
      invariant Distinct(users) ==> Progress(users, exclusive, start, TallyOf(store), true)
    {
      ghost var before := TallyOf(store);
      OneMoreUser(users, i, read);
      ok := SyncUser(store, byEmail, users[i]);
      if Distinct(users) {
        TurnProgress(users, exclusive, i, read, before, TallyOf(store), ok);
        ProgressAdds(users, exclusive, start, before, TallyOf(store), ok);
      }
      if !ok {
        return;
      }
      synced := synced + 1;
    }
    assert users[..|users|] == users;
  }

  lemma AfterNone(users: seq<User>, read: map<string, string>)
    ensures AfterUsers(users[..0], read) == read
  {
  }

  /** Members of `list[..i]` the spec does not list. */
  function Gone(list: seq<Member>, desired: set<string>): set<string> {
    set m | m in list && m.email !in desired :: m.email
  }

  lemma GoneOne(list: seq<Member>, i: nat, desired: set<string>)
    requires i < |list|
    ensures Gone(list[..i + 1], desired) ==
            Gone(list[..i], desired) + if list[i].email in desired then {} else {list[i].email}
  {
    assert list[..i + 1] == list[..i] + [list[i]];
  }

  method RemoveUnlisted(store: OrgStore, list: seq<Member>, ghost users: seq<User>, desired: set<string>)
    returns (ok: bool)
    requires store.Valid() && desired == Emails(users)
    requires forall k :: 0 <= k < |list| ==> list[k].email in store.accounts && store.accounts[list[k].email].id == list[k].id
    requires forall i, j :: 0 <= i < j < |list| ==> list[i].email != list[j].email
    modifies store
    ensures store.Valid()
    ensures ok ==> store.Roles() == old(store.Roles()) - Gone(list, desired)
    ensures Progress(users, true, old(TallyOf(store)), TallyOf(store), ok)
  {
    hide Mismatches, Emails;
    ghost var start := TallyOf(store);
    ok := true;
    assert list[..0] == [] && Gone([], desired) == {};
    assert start.roles - {} == start.roles;
    for i := 0 to |list|
      invariant ok && store.Valid()
      invariant forall k :: i <= k < |list| ==> list[k].email in store.accounts && store.accounts[list[k].email].id == list[k].id
      invariant store.Roles() == start.roles - Gone(list[..i], desired)
      invariant Progress(users, true, start, TallyOf(store), true)
    {
      var m := list[i];
      GoneOne(list, i, desired);
      if m.email !in desired {
        ghost var before := TallyOf(store);
        RemovalSettles(users, true, before.roles, m.email);
        ok := store.Remove(m.id, m.email);
        ProgressAdds(users, true, start, before, TallyOf(store), ok);
        if !ok {
          return;
        }
        assert store.Roles() == start.roles - Gone(list[..i + 1], desired);
      }
    }
    assert list[..|list|] == list;
  }

  method Index(list: seq<Member>, ghost accounts: map<string, Account>) returns (byEmail: map<string, Member>)
    requires Lists(list, accounts)
    ensures SameIds(byEmail, accounts) && RolesRead(byEmail) == RolesIn(accounts)
  {
    byEmail := map[];
    for i := 0 to |list|
      invariant forall e :: e in byEmail <==> Listed(list[..i], e)
      invariant forall k :: 0 <= k < i ==> list[k].email in byEmail && byEmail[list[k].email] == list[k]
    {
      byEmail := byEmail[list[i].email := list[i]];
      ListedMore(list, i);
    }
    assert list[..|list|] == list;
    forall e | e in accounts ensures e in byEmail && IsEntry(byEmail[e], accounts) && byEmail[e].email == e {
      var k :| 0 <= k < |list| && list[k].email == e;
      assert IsEntry(list[k], accounts);
    }
    forall e | e in byEmail ensures e in accounts {
      var k :| 0 <= k < |list| && list[k].email == e;
      assert IsEntry(list[k], accounts);
    }
  }

  lemma ListedMore(list: seq<Member>, i: nat)
    requires i < |list|
    ensures forall e :: Listed(list[..i + 1], e) <==> Listed(list[..i], e) || e == list[i].email
  {
    forall e ensures Listed(list[..i + 1], e) <==> Listed(list[..i], e) || e == list[i].email {
      if Listed(list[..i], e) {
        var k :| 0 <= k < i && list[..i][k].email == e;
        assert list[..i + 1][k].email == e;
      }
      if Listed(list[..i + 1], e) {
        var k :| 0 <= k < i + 1 && list[..i + 1][k].email == e;
        if k < i { assert list[..i][k].email == e; }
      }
      assert list[..i + 1][i] == list[i];
    }
  }

  method DesiredEmails(users: seq<User>) returns (desired: set<string>)
    ensures desired == Emails(users)
  {
    desired := {};
    for i := 0 to |users|
      invariant desired == Emails(users[..i])
    {
      desired := desired + {users[i].email};
      assert users[..i + 1][..i] == users[..i];
      EmailsGrow(users[..i + 1]);
    }
    assert users[..|users|] == users;
  }

  lemma GoneIsUnlisted(list: seq<Member>, accounts: map<string, Account>, users: seq<User>, roles: map<string, string>)
    requires Lists(list, accounts) && roles == RolesIn(accounts)
    ensures Gone(list, Emails(users)) == Unlisted(users, true, roles)
  {
    hide Emails;
    var gone, unlisted := Gone(list, Emails(users)), Unlisted(users, true, roles);
    forall e | e in unlisted ensures e in gone {
      assert Listed(list, e);
      var k :| 0 <= k < |list| && list[k].email == e;
      assert list[k] in list;
    }
    forall e | e in gone ensures e in unlisted {
      var m :| m in list && m.email == e && m.email !in Emails(users);
      assert IsEntry(m, accounts);
    }
  }

  /** `syncMembers`. `listed` is whether the membership list could be read. */
  method SyncMembers(store: OrgStore, orgId: string, users: seq<User>, exclusive: bool, listed: bool)
    returns (synced: nat, ok: bool)
    requires store.Valid()
    modifies store
    ensures store.Valid() && synced <= |users|
    ensures users == [] && !exclusive ==> ok && TallyOf(store) == old(TallyOf(store))
    ensures (users != [] || exclusive) && (orgId == "" || !listed) ==> !ok && TallyOf(store) == old(TallyOf(store))
    ensures ok ==> synced == |users| && store.Roles() == Reconciled(users, exclusive, old(store.Roles()))
    ensures Distinct(users) ==> Progress(users, exclusive, old(TallyOf(store)), TallyOf(store), ok)
  {
    hide AfterUsers, Mismatches, Emails, Distinct, Wrong, Gone;
    synced, ok := 0, true;
    ghost var start := TallyOf(store);
    if users == [] && !exclusive {
      assert Reconciled(users, exclusive, start.roles) == start.roles by { NothingAsked(start.roles); }
      return;
    }
    if orgId == "" || !listed {
      ok := false;
      return;
    }
    var list := store.List();
    ghost var accounts := store.accounts;
    var byEmail := Index(list, accounts);
    synced, ok := SyncUsers(store, byEmail, users, exclusive);
    if !ok {
      return;
    }
    var desired := DesiredEmails(users);
    if exclusive {
      ghost var between := TallyOf(store);
      IndexedEntries(list, byEmail, accounts);
      GoneIsUnlisted(list, accounts, users, start.roles);
      ok := RemoveUnlisted(store, list, users, desired);
      if Distinct(users) {
        ProgressAdds(users, exclusive, start, between, TallyOf(store), ok);
      }
    } else {
      assert store.Roles() - {} == store.Roles();
    }
  }

  lemma NothingAsked(roles: map<string, string>)
    ensures Reconciled([], false, roles) == roles
  {
    assert roles - {} == roles;
  }

  lemma IndexedEntries(list: seq<Member>, byEmail: map<string, Member>, accounts: map<string, Account>)
    requires Lists(list, accounts) && SameIds(byEmail, accounts) && RolesRead(byEmail) == RolesIn(accounts)
    ensures forall k :: 0 <= k < |list| ==> list[k].email in byEmail && byEmail[list[k].email].id == list[k].id
  {
    forall k | 0 <= k < |list| ensures list[k].email in byEmail && byEmail[list[k].email].id == list[k].id {
      assert IsEntry(list[k], accounts);
      assert list[k].email in RolesIn(accounts);
    }
  }

  /** The controller's retries. However the passes fail, they carry out at most as many writes
      as there were mismatches, and a single clean pass among them leaves none. */
  method SyncRepeatedly(store: OrgStore, orgId: string, users: seq<User>, exclusive: bool, listed: seq<bool>)
    returns (clean: bool)
    requires store.Valid() && Distinct(users) && orgId != "" && (users != [] || exclusive)
    modifies store
    ensures store.Valid()
    ensures var m0 := old(Mismatches(users, exclusive, store.Roles()));
      && store.carried + Mismatches(users, exclusive, store.Roles()) == old(store.carried) + m0
      && store.issued - old(store.issued) <= m0 + |listed|
    ensures clean ==> Mismatches(users, exclusive, store.Roles()) == 0
  {
    hide Mismatches, Distinct;
    clean := false;
    ghost var start := TallyOf(store);
    for i := 0 to |listed|
      invariant store.Valid()
      invariant store.carried >= start.carried
      invariant store.carried + Mismatches(users, exclusive, store.Roles()) ==
                start.carried + Mismatches(users, exclusive, start.roles)
      invariant store.issued - start.issued <= store.carried - start.carried + i
      invariant clean ==> Mismatches(users, exclusive, store.Roles()) == 0
    {
      ghost var read := store.Roles();
      var _, ok := SyncMembers(store, orgId, users, exclusive, listed[i]);
      if ok {
        DistinctIsConsistent(users);
        ReconciledIsSettled(users, exclusive, read);
        clean := true;
      }
    }
  }
}
