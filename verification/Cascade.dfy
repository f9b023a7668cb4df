/**
  Deleting a user with everything that must go with them: internal/auth/cascade.go.
 */
module Cascade {
  import opened Common

  /** The 64-bit key of a row. */
  datatype Id = Id(number: int)

  type UserId = Id
  type OrgId = Id
  type MemberId = Id

  const OWNER := "owner"

  datatype Member = Member(org: OrgId, user: UserId, createdAt: int)

  datatype Role = Role(member: MemberId, role: string)

  /** orgs maps an organization to its content; sessions and accounts map a row to its user. */
  datatype Db = Db(orgs: map<OrgId, string>, members: map<MemberId, Member>, roles: set<Role>,
                   users: set<UserId>, sessions: map<Id, UserId>, accounts: map<Id, UserId>)

  /** Foreign keys, and one membership per user and organization. */
  ghost predicate Sound(db: Db) {
    && (forall m :: m in db.members ==> db.members[m].org in db.orgs && db.members[m].user in db.users)
    && (forall r :: r in db.roles ==> r.member in db.members)
    && (forall s :: s in db.sessions ==> db.sessions[s] in db.users)
    && (forall a :: a in db.accounts ==> db.accounts[a] in db.users)
    && (forall m, n :: m in db.members && n in db.members && m != n ==> !SamePlace(db.members[m], db.members[n]))
  }

  predicate SamePlace(a: Member, b: Member) {
    a.org == b.org && a.user == b.user
  }

  predicate MemberOf(db: Db, o: OrgId, m: MemberId) {
    m in db.members && db.members[m].org == o
  }

  /** A member of o other than the user. */
  predicate OtherOf(db: Db, o: OrgId, u: UserId, m: MemberId) {
    MemberOf(db, o, m) && db.members[m].user != u
  }

  predicate Owns(db: Db, o: OrgId, m: MemberId) {
    MemberOf(db, o, m) && Role(m, OWNER) in db.roles
  }

  ghost predicate HasOwner(db: Db, o: OrgId) {
    exists m :: Owns(db, o, m)
  }

  /** u owns o, and nobody else does. */
  ghost predicate SoleOwner(db: Db, o: OrgId, u: UserId) {
    && OwnedBy(db, o, u)
    && forall m :: Owns(db, o, m) ==> db.members[m].user == u
  }

  ghost predicate OnlyMember(db: Db, o: OrgId, u: UserId) {
    forall m :: !OtherOf(db, o, u, m)
  }

  /** A longest-standing other member of o. */
  ghost predicate Heir(db: Db, o: OrgId, u: UserId, h: MemberId) {
    OtherOf(db, o, u, h) && forall m :: OtherOf(db, o, u, m) ==> db.members[h].createdAt <= db.members[m].createdAt
  }

  // ----- what becomes of each organization -----

  /** The members of o that keep counts keep their rows and, but for what extra adds, their exact roles. */
  ghost predicate Kept(db: Db, db': Db, o: OrgId, u: UserId, extra: set<Role>) {
    && o in db.orgs && o in db'.orgs && db'.orgs[o] == db.orgs[o]
    && (forall m :: OtherOf(db, o, u, m) <==> OtherOf(db', o, u, m))
    && (forall m :: OtherOf(db, o, u, m) ==> db'.members[m] == db.members[m])
    && forall m, name :: OtherOf(db, o, u, m) ==> (Role(m, name) in db'.roles <==> Role(m, name) in db.roles || Role(m, name) in extra)
  }

  ghost predicate Gone(db': Db, o: OrgId) {
    o !in db'.orgs && forall m :: !MemberOf(db', o, m)
  }

  ghost predicate Promoted(db: Db, db': Db, o: OrgId, u: UserId, h: MemberId) {
    Heir(db, o, u, h) && Kept(db, db', o, u, {Role(h, OWNER)})
  }

  /** Handed to the heir if u was its only owner, deleted if u was its only member as well, untouched otherwise. */
  ghost predicate OrgOutcome(db: Db, db': Db, o: OrgId, u: UserId) {
    if !SoleOwner(db, o, u) then Kept(db, db', o, u, {})
    else if OnlyMember(db, o, u) then Gone(db', o)
    else exists h :: Promoted(db, db', o, u, h)
  }

  /** The rows of the user itself are all gone, those of other users all there. */
  ghost predicate UserGone(db: Db, db': Db, u: UserId) {
    && db'.users == db.users - {u}
    && (forall m :: m in db'.members ==> db'.members[m].user != u)
    && db'.sessions == Without(db.sessions, u) && db'.accounts == Without(db.accounts, u)
    && db'.orgs.Keys <= db.orgs.Keys
  }

  ghost predicate Cascaded(db: Db, db': Db, u: UserId) {
    UserGone(db, db', u) && forall o :: o in db.orgs ==> OrgOutcome(db, db', o, u)
  }

  // ----- what that comes to -----

  /** Every organization that had an owner still has one, or is gone because the user was its only member. */
  lemma NoOrganizationIsOrphaned(db: Db, db': Db, u: UserId, o: OrgId)
    requires Sound(db) && Cascaded(db, db', u) && o in db.orgs && HasOwner(db, o)
    ensures (o in db'.orgs && HasOwner(db', o)) || (Gone(db', o) && OnlyMember(db, o, u))
  {
    assert OrgOutcome(db, db', o, u);
    if !SoleOwner(db, o, u) {
      var m :| Owns(db, o, m) && db.members[m].user != u;
      assert OtherOf(db, o, u, m) && Owns(db', o, m);
    } else if !OnlyMember(db, o, u) {
      var h :| Promoted(db, db', o, u, h);
      assert OtherOf(db, o, u, h) && Owns(db', o, h);
    }
  }

  /** With another owner, or without the user among its owners, an organization keeps every other member
      with exactly the roles they had. */
  lemma OtherOwnersChangeNothing(db: Db, db': Db, u: UserId, o: OrgId)
    requires Sound(db) && Cascaded(db, db', u) && o in db.orgs && !SoleOwner(db, o, u)
    ensures o in db'.orgs && db'.orgs[o] == db.orgs[o]
    ensures forall m :: MemberOf(db', o, m) <==> OtherOf(db, o, u, m)
    ensures forall m :: MemberOf(db', o, m) ==> db'.members[m] == db.members[m]
    ensures forall m, name :: MemberOf(db', o, m) ==> (Role(m, name) in db'.roles <==> Role(m, name) in db.roles)
  {
    assert OrgOutcome(db, db', o, u);
    forall m ensures MemberOf(db', o, m) <==> OtherOf(db, o, u, m) {
      assert OtherOf(db', o, u, m) <==> OtherOf(db, o, u, m);
    }
  }

  /** Nobody but an heir is ever given a role. */
  lemma OnlyHeirsGainRoles(db: Db, db': Db, u: UserId, r: Role)
    requires Sound(db) && Sound(db') && Cascaded(db, db', u) && r in db'.roles && r !in db.roles
    ensures r.role == OWNER && r.member in db.members
    ensures SoleOwner(db, db.members[r.member].org, u) && Heir(db, db.members[r.member].org, u, r.member)
  {
    var o := db'.members[r.member].org;
    assert OtherOf(db', o, u, r.member) && o in db.orgs;
    assert OrgOutcome(db, db', o, u);
    assert MemberOf(db', o, r.member);
    if SoleOwner(db, o, u) {
      var h :| Promoted(db, db', o, u, h);
      NewRolesAreExtra(db, db', o, u, {Role(h, OWNER)}, r);
    } else {
      NewRolesAreExtra(db, db', o, u, {}, r);
    }
  }

  lemma NewRolesAreExtra(db: Db, db': Db, o: OrgId, u: UserId, extra: set<Role>, r: Role)
    requires Kept(db, db', o, u, extra) && OtherOf(db', o, u, r.member) && r in db'.roles
    ensures OtherOf(db, o, u, r.member) && (r in db.roles || r in extra)
  {
    assert Role(r.member, r.role) == r;
  }

  /** The vocabulary in terms of the rows. */
  lemma SeatsSpelledOut(db: Db, o: OrgId, u: UserId, m: MemberId)
    ensures OtherOf(db, o, u, m) <==> m in db.members && db.members[m].org == o && db.members[m].user != u
    ensures OwnedBy(db, o, u) <==>
      exists x :: x in db.members && db.members[x] == Member(o, u, db.members[x].createdAt) && Role(x, "owner") in db.roles
    ensures SoleOwner(db, o, u) <==>
      OwnedBy(db, o, u) && forall x :: x in db.members && db.members[x].org == o && db.members[x].user != u ==> Role(x, "owner") !in db.roles
  {
    if OwnedBy(db, o, u) {
      var x :| Owns(db, o, x) && db.members[x].user == u;
      assert db.members[x] == Member(o, u, db.members[x].createdAt);
    }
    if x :| x in db.members && db.members[x] == Member(o, u, db.members[x].createdAt) && Role(x, "owner") in db.roles {
      assert Owns(db, o, x) && db.members[x].user == u;
    }
    forall x | x in db.members && db.members[x].org == o && Role(x, "owner") in db.roles ensures Owns(db, o, x) {}
  }

  /** The user's own rows go, and nobody else's. */
  lemma UsersRowsGo(db: Db, db': Db, u: UserId)
    requires Cascaded(db, db', u)
    ensures db'.users == db.users - {u} && forall m :: m in db'.members ==> db'.members[m].user != u
    ensures forall s :: s in db'.sessions <==> s in db.sessions && db.sessions[s] != u
    ensures forall a :: a in db'.accounts <==> a in db.accounts && db.accounts[a] != u
    ensures forall s :: s in db'.sessions ==> db'.sessions[s] == db.sessions[s]
    ensures forall a :: a in db'.accounts ==> db'.accounts[a] == db.accounts[a]
  {
  }

  /** An organization goes exactly when the user was its only owner and its only member; any other keeps its content, all
      other seats and all their roles. */
  lemma OrganizationGoesIff(db: Db, db': Db, u: UserId, o: OrgId)
    requires Sound(db) && Cascaded(db, db', u) && o in db.orgs
    ensures o !in db'.orgs <==> OwnedBy(db, o, u) && forall m :: !OtherOf(db, o, u, m)
    ensures o in db'.orgs ==> db'.orgs[o] == db.orgs[o]
    ensures o in db'.orgs ==> forall m :: OtherOf(db, o, u, m) ==> m in db'.members && db'.members[m] == db.members[m]
    ensures o in db'.orgs ==> forall m, name :: OtherOf(db, o, u, m) && Role(m, name) in db.roles ==> Role(m, name) in db'.roles
  {
    assert OrgOutcome(db, db', o, u);
    if SoleOwner(db, o, u) && !OnlyMember(db, o, u) {
      var h :| Promoted(db, db', o, u, h);
    }
  }

  /** If the user was the only owner among several members, an oldest one of the others is made owner. */
  lemma HeirIsPromoted(db: Db, db': Db, u: UserId, o: OrgId, other: MemberId) returns (h: MemberId)
    requires Sound(db) && Cascaded(db, db', u) && o in db.orgs && SoleOwner(db, o, u) && OtherOf(db, o, u, other)
    ensures OtherOf(db, o, u, h) && Role(h, "owner") in db'.roles && h in db'.members && db'.members[h] == db.members[h]
    ensures db.members[h].createdAt <= db.members[other].createdAt
    ensures forall m, name :: OtherOf(db, o, u, m) && Role(m, name) in db'.roles ==> Role(m, name) in db.roles || Role(m, name) == Role(h, "owner")
  {
    assert OrgOutcome(db, db', o, u);
    h :| Promoted(db, db', o, u, h);
    assert Role(h, OWNER) in {Role(h, OWNER)};
  }

  // ----- the two statements that write -----

  function WithoutOrg(db: Db, o: OrgId): Db {
    db.(orgs := db.orgs - {o},
        members := map m | m in db.members && db.members[m].org != o :: db.members[m],
        roles := set r | r in db.roles && !MemberOf(db, o, r.member))
  }

  function WithoutUser(db: Db, u: UserId): Db {
    db.(users := db.users - {u},
        members := map m | m in db.members && db.members[m].user != u :: db.members[m],
        roles := set r | r in db.roles && !(r.member in db.members && db.members[r.member].user == u))
  }

  function Without(rows: map<Id, UserId>, u: UserId): map<Id, UserId> {
    map s | s in rows && rows[s] != u :: rows[s]
  }

  ghost predicate OwnedBy(db: Db, o: OrgId, u: UserId) {
    exists m :: Owns(db, o, m) && db.members[m].user == u
  }

  /** o is as it was, the user's membership included. */
  ghost predicate Untouched(db: Db, db': Db, o: OrgId) {
    && (o in db.orgs <==> o in db'.orgs) && (o in db.orgs ==> db'.orgs[o] == db.orgs[o])
    && (forall m :: MemberOf(db, o, m) <==> MemberOf(db', o, m))
    && (forall m :: MemberOf(db, o, m) ==> db'.members[m] == db.members[m])
    && forall m, name :: MemberOf(db, o, m) ==> (Role(m, name) in db'.roles <==> Role(m, name) in db.roles)
  }

  lemma UntouchedThenOutcome(db: Db, mid: Db, db': Db, o: OrgId, u: UserId)
    requires Untouched(db, mid, o) && o in db.orgs && OrgOutcome(mid, db', o, u)
    ensures OrgOutcome(db, db', o, u)
  {
    forall m ensures Owns(mid, o, m) <==> Owns(db, o, m) { assert MemberOf(db, o, m) <==> MemberOf(mid, o, m); }
    forall m ensures OtherOf(mid, o, u, m) <==> OtherOf(db, o, u, m) { assert MemberOf(db, o, m) <==> MemberOf(mid, o, m); }
    if SoleOwner(mid, o, u) && !OnlyMember(mid, o, u) {
      var h :| Promoted(mid, db', o, u, h);
      assert Promoted(db, db', o, u, h);
    }
  }

  lemma OutcomeThenUntouched(db: Db, mid: Db, db': Db, o: OrgId, u: UserId)
    requires Untouched(mid, db', o) && o in db.orgs && OrgOutcome(db, mid, o, u)
    ensures OrgOutcome(db, db', o, u)
  {
    forall m ensures OtherOf(mid, o, u, m) <==> OtherOf(db', o, u, m) { assert MemberOf(mid, o, m) <==> MemberOf(db', o, m); }
    if SoleOwner(db, o, u) && !OnlyMember(db, o, u) {
      var h :| Promoted(db, mid, o, u, h);
      assert Promoted(db, db', o, u, h);
    }
  }

  lemma KeptThenUserDeleted(db: Db, mid: Db, o: OrgId, u: UserId, extra: set<Role>)
    requires Kept(db, mid, o, u, extra)
    ensures Kept(db, WithoutUser(mid, u), o, u, extra)
  {
    var db' := WithoutUser(mid, u);
    forall m ensures OtherOf(mid, o, u, m) <==> OtherOf(db', o, u, m) {}
    forall m, name | OtherOf(mid, o, u, m) ensures Role(m, name) in db'.roles <==> Role(m, name) in mid.roles {}
  }

  lemma OutcomeThenUserDeleted(db: Db, mid: Db, o: OrgId, u: UserId)
    requires o in db.orgs && OrgOutcome(db, mid, o, u)
    ensures OrgOutcome(db, WithoutUser(mid, u), o, u)
  {
    if !SoleOwner(db, o, u) {
      KeptThenUserDeleted(db, mid, o, u, {});
    } else if OnlyMember(db, o, u) {
      assert Gone(WithoutUser(mid, u), o) by {
        forall m ensures !MemberOf(WithoutUser(mid, u), o, m) { assert !MemberOf(mid, o, m); }
      }
    } else {
      var h :| Promoted(db, mid, o, u, h);
      KeptThenUserDeleted(db, mid, o, u, {Role(h, OWNER)});
      assert Promoted(db, WithoutUser(mid, u), o, u, h);
    }
  }

  lemma UntouchedIsOwned(db: Db, mid: Db, o: OrgId, u: UserId)
    requires Untouched(db, mid, o) && o in db.orgs && OwnedBy(db, o, u)
    ensures o in mid.orgs && OwnedBy(mid, o, u)
  {
    var m :| Owns(db, o, m) && db.members[m].user == u;
    assert MemberOf(mid, o, m) && Owns(mid, o, m);
  }

  lemma UntouchedTwice(db: Db, mid: Db, db': Db, o: OrgId)
    requires Untouched(db, mid, o) && Untouched(mid, db', o)
    ensures Untouched(db, db', o)
  {
    forall m ensures MemberOf(db, o, m) <==> MemberOf(db', o, m) { assert MemberOf(db, o, m) <==> MemberOf(mid, o, m); }
  }

  lemma OneMoreSettled(db: Db, mid: Db, db': Db, o: OrgId, u: UserId, todo: set<OrgId>)
    requires o in todo && todo <= db.orgs.Keys
    requires forall p :: p in todo ==> Untouched(db, mid, p)
    requires forall p :: p in db.orgs && p !in todo ==> OrgOutcome(db, mid, p, u)
    requires OrgOutcome(mid, db', o, u) && forall p :: p != o ==> Untouched(mid, db', p)
    ensures forall p :: p in todo - {o} ==> Untouched(db, db', p)
    ensures forall p :: p in db.orgs && p !in todo - {o} ==> OrgOutcome(db, db', p, u)
  {
    forall p | p in todo - {o} ensures Untouched(db, db', p) {
      UntouchedTwice(db, mid, db', p);
    }
    forall p | p in db.orgs && p !in todo - {o} ensures OrgOutcome(db, db', p, u) {
      if p == o {
        UntouchedThenOutcome(db, mid, db', o, u);
      } else {
        OutcomeThenUntouched(db, mid, db', p, u);
      }
    }
  }

  /** A user without a row has no other rows either. */
  lemma StrangerChangesNothing(db: Db, u: UserId)
    requires Sound(db) && u !in db.users
    ensures db.(sessions := Without(db.sessions, u), accounts := Without(db.accounts, u)) == db
    ensures WithoutUser(db, u) == db
  {
    assert WithoutUser(db, u).members == db.members && WithoutUser(db, u).roles == db.roles;
  }

  lemma PromotionSettles(db: Db, o: OrgId, u: UserId, h: MemberId)
    requires Sound(db) && o in db.orgs && SoleOwner(db, o, u) && Heir(db, o, u, h)
    ensures var db' := db.(roles := db.roles + {Role(h, OWNER)});
      Sound(db') && OrgOutcome(db, db', o, u) && forall other :: other != o ==> Untouched(db, db', other)
  {
    assert Promoted(db, db.(roles := db.roles + {Role(h, OWNER)}), o, u, h);
  }

  lemma DeletionSettles(db: Db, o: OrgId, u: UserId)
    requires Sound(db) && o in db.orgs && SoleOwner(db, o, u) && OnlyMember(db, o, u)
    ensures var db' := WithoutOrg(db, o);
      Sound(db') && OrgOutcome(db, db', o, u) && forall other :: other != o ==> Untouched(db, db', other)
  {
    assert Gone(WithoutOrg(db, o), o);
  }

  // ----- the service -----

  datatype Error = NoSuchUser

  class Service {
    var db: Db

    ghost predicate Valid()
      reads this
    {
      Sound(db)
    }

    constructor (db0: Db)
      requires Sound(db0)
      ensures Valid() && db == db0
    {
      db := db0;
    }

    method OtherOwnerExists(o: OrgId, u: UserId) returns (found: bool)
      ensures found <==> exists m :: Owns(db, o, m) && db.members[m].user != u
      ensures found <==> exists m :: m in db.members && db.members[m].org == o && db.members[m].user != u && Role(m, "owner") in db.roles
    {
      var owners := set m | m in db.members && db.members[m].org == o && db.members[m].user != u && Role(m, OWNER) in db.roles;
      assert forall m :: m in owners <==> Owns(db, o, m) && db.members[m].user != u;
      found := owners != {};
    }

    method OldestOtherMember(o: OrgId, u: UserId) returns (h: Option<MemberId>)
      ensures h.Some? ==> Heir(db, o, u, h.value)
      ensures h.None? ==> OnlyMember(db, o, u)
      ensures h.Some? ==>
        && h.value in db.members && db.members[h.value].org == o && db.members[h.value].user != u
        && forall m :: m in db.members && db.members[m].org == o && db.members[m].user != u ==>
             db.members[h.value].createdAt <= db.members[m].createdAt
      ensures h.None? ==> forall m :: m in db.members && db.members[m].org == o ==> db.members[m].user == u
    {
      var others := set m | m in db.members && db.members[m].org == o && db.members[m].user != u;
      assert forall m :: m in others <==> OtherOf(db, o, u, m);
      assert forall m :: m in db.members && db.members[m].org == o && db.members[m].user != u ==> m in others;
      if others == {} { return None; }
      var oldest :| oldest in others;
      var todo := others - {oldest};
      while todo != {}
        invariant oldest in others && todo <= others
        invariant forall m :: m in others - todo ==> db.members[oldest].createdAt <= db.members[m].createdAt
        decreases todo
      {
        var m :| m in todo;
        todo := todo - {m};
        if db.members[m].createdAt < db.members[oldest].createdAt {
          oldest := m;
        }
      }
      h := Some(oldest);
    }

    method SettleOrganization(o: OrgId, u: UserId)
      requires Valid() && o in db.orgs && OwnedBy(db, o, u)
      modifies this
      ensures Valid()
      ensures OrgOutcome(old(db), db, o, u)
      ensures forall other :: other != o ==> Untouched(old(db), db, other)
      ensures db.users == old(db).users && db.sessions == old(db).sessions && db.accounts == old(db).accounts
      ensures db.orgs.Keys <= old(db).orgs.Keys
    {
      var others := OtherOwnerExists(o, u);
      if others { return; }
      var heir := OldestOtherMember(o, u);
      if heir.Some? {
        PromotionSettles(db, o, u, heir.value);
        db := db.(roles := db.roles + {Role(heir.value, OWNER)});
        return;
      }
      DeletionSettles(db, o, u);
      db := WithoutOrg(db, o);
    }

    method CascadeOrphanedOwnerOrganizations(u: UserId)
      requires Valid()
      modifies this
      ensures Valid()
      ensures forall o :: o in old(db).orgs ==> OrgOutcome(old(db), db, o, u)
      ensures db.users == old(db).users && db.sessions == old(db).sessions && db.accounts == old(db).accounts
      ensures db.orgs.Keys <= old(db).orgs.Keys
      ensures u !in old(db).users ==> db == old(db)
    {
      var owned := OwnedOrganizations(u);
      var todo := owned;
      assert owned <= old(db).orgs.Keys;
      while todo != {}
        invariant Valid() && todo <= owned
        invariant forall o :: o in todo ==> Untouched(old(db), db, o)
        invariant forall o :: o in old(db).orgs && o !in todo ==> OrgOutcome(old(db), db, o, u)
        invariant db.users == old(db).users && db.sessions == old(db).sessions && db.accounts == old(db).accounts
        invariant db.orgs.Keys <= old(db).orgs.Keys
        invariant u !in old(db).users ==> db == old(db)
        decreases todo
      {
        var o :| o in todo;
        ghost var before := db;
        UntouchedIsOwned(old(db), db, o, u);
        SettleOrganization(o, u);
        OneMoreSettled(old(db), before, db, o, u, todo);
        todo := todo - {o};
      }
    }

    method OwnedOrganizations(u: UserId) returns (owned: set<OrgId>)
      requires Valid()
      ensures forall o :: o in owned ==> o in db.orgs && OwnedBy(db, o, u)
      ensures forall o :: o in db.orgs && o !in owned ==> OrgOutcome(db, db, o, u)
    {
      var memberships := set m | m in db.members && db.members[m].user == u && Role(m, OWNER) in db.roles;
      owned := set m | m in memberships :: db.members[m].org;
      forall o | o in db.orgs && o !in owned ensures OrgOutcome(db, db, o, u) {
        assert forall m :: Owns(db, o, m) && db.members[m].user == u ==> m in memberships;
      }
      forall o | o in owned ensures OwnedBy(db, o, u) {
        var m :| m in memberships && db.members[m].org == o;
        assert Owns(db, o, m);
      }
    }

    /** The user's row can only go once no session and no account refers to it. */
    method DeleteUserRow(u: UserId) returns (deleted: bool)
      requires Valid()
      requires forall s :: s in db.sessions ==> db.sessions[s] != u
      requires forall a :: a in db.accounts ==> db.accounts[a] != u
      modifies this
      ensures Valid()
      ensures deleted == (u in old(db).users) && db == WithoutUser(old(db), u)
    {
      deleted := u in db.users;
      db := WithoutUser(db, u);
    }

    method ClearSessionsAndAccounts(u: UserId)
      requires Valid()
      modifies this
      ensures Valid()
      ensures db == old(db).(sessions := Without(old(db).sessions, u), accounts := Without(old(db).accounts, u))
    {
      db := db.(sessions := Without(db.sessions, u));
      db := db.(accounts := Without(db.accounts, u));
    }

    /** id is None for a user id that is not a number. */
    method CascadeDeleteUser(id: Option<UserId>) returns (r: Option<Error>)
      requires Valid()
      modifies this
      ensures Valid()
      ensures r == if id.Some? && id.value in old(db).users then None else Some(NoSuchUser)
      ensures r.Some? ==> db == old(db)
      ensures r.None? ==> Cascaded(old(db), db, id.value)
    {
      if id.None? { return Some(NoSuchUser); }
      var u := id.value;
      CascadeOrphanedOwnerOrganizations(u);
      ghost var settled := db;
      if u !in db.users {
        StrangerChangesNothing(db, u);
      }
      ClearSessionsAndAccounts(u);
      forall o | o in old(db).orgs ensures OrgOutcome(old(db), db, o, u) {
        OutcomeThenUntouched(old(db), settled, db, o, u);
      }
      ghost var cleared := db;
      if u !in db.users {
        StrangerChangesNothing(db, u);
      }
      var deleted := DeleteUserRow(u);
      forall o | o in old(db).orgs ensures OrgOutcome(old(db), db, o, u) {
        OutcomeThenUserDeleted(old(db), cleared, o, u);
      }
      r := if deleted then None else Some(NoSuchUser);
    }
  }
}
