/**
  Account deletions under way at the same time: internal/auth/cascade.go takes no locks before it reads, so
  under READ COMMITTED what a deletion saw of an organization can be out of date when it commits.
 */
module CascadeRaces {
  import opened Common
  import opened Cascade

  type TxId = nat

  /** What a deletion does about one organization: nothing, as another owner was seen; promote; or delete it. */
  datatype Verdict = Leave | Promote(heir: MemberId) | Drop

  /** owned: the organizations the user owned when the deletion looked. */
  datatype Tx = Tx(user: UserId, owned: Option<set<OrgId>>, verdicts: map<OrgId, Verdict>)

  datatype State = State(db: Db, txs: map<TxId, Tx>)

  datatype Step =
    | Begin(tx: TxId, user: UserId)
    | Look(tx: TxId)
    | Settle(tx: TxId, org: OrgId, verdict: Verdict)
    | Commit(tx: TxId)
    | Abort(tx: TxId)

  ghost predicate OtherOwner(db: Db, o: OrgId, u: UserId) {
    exists m :: Owns(db, o, m) && db.members[m].user != u
  }

  /** The verdict that the committed rows call for. */
  ghost predicate Sees(db: Db, o: OrgId, u: UserId, v: Verdict) {
    match v
    case Leave => OtherOwner(db, o, u)
    case Promote(h) => !OtherOwner(db, o, u) && Heir(db, o, u, h)
    case Drop => !OtherOwner(db, o, u) && OnlyMember(db, o, u)
  }

  ghost predicate IsOwned(db: Db, u: UserId, owned: set<OrgId>) {
    forall o :: o in owned <==> OwnedBy(db, o, u)
  }

  function OwnedSet(db: Db, u: UserId): (owned: set<OrgId>)
    ensures IsOwned(db, u, owned)
  {
    var seats := set m | m in db.members && db.members[m].user == u && Role(m, OWNER) in db.roles;
    var owned := set m | m in seats :: db.members[m].org;
    assert forall o, m :: Owns(db, o, m) && db.members[m].user == u ==> m in seats;
    owned
  }

  ghost predicate Enabled(s: State, step: Step) {
    match step
    case Begin(tx, _) => tx !in s.txs
    case Look(tx) => tx in s.txs && s.txs[tx].owned.None?
    case Settle(tx, o, v) =>
      && tx in s.txs && s.txs[tx].owned.Some? && o in s.txs[tx].owned.value && o !in s.txs[tx].verdicts
      && Sees(s.db, o, s.txs[tx].user, v)
    // The foreign key of a promoted heir's role keeps the commit from following the heir's own deletion.
    case Commit(tx) =>
      && tx in s.txs && s.txs[tx].owned.Some? && s.txs[tx].verdicts.Keys == s.txs[tx].owned.value
      && HeirsRemain(s.db, s.txs[tx].verdicts)
    case Abort(tx) => tx in s.txs
  }

  predicate HeirsRemain(db: Db, verdicts: map<OrgId, Verdict>) {
    forall o :: o in verdicts && verdicts[o].Promote? ==> verdicts[o].heir in db.members
  }

  predicate Dropped(verdicts: map<OrgId, Verdict>, o: OrgId) {
    o in verdicts && verdicts[o].Drop?
  }

  /** The rows once the verdicts are carried out and the user is gone. */
  function Deleted(db: Db, u: UserId, verdicts: map<OrgId, Verdict>): Db {
    Db(map o | o in db.orgs && !Dropped(verdicts, o) :: db.orgs[o],
       map m | m in db.members && !Dropped(verdicts, db.members[m].org) && db.members[m].user != u :: db.members[m],
       (set r | r in db.roles && r.member in db.members
              && !Dropped(verdicts, db.members[r.member].org) && db.members[r.member].user != u)
         + (set o | o in verdicts && verdicts[o].Promote? :: Role(verdicts[o].heir, OWNER)),
       db.users - {u}, Without(db.sessions, u), Without(db.accounts, u))
  }

  ghost function Apply(s: State, step: Step): State
    requires Enabled(s, step)
  {
    match step
    case Begin(tx, u) => s.(txs := s.txs[tx := Tx(u, None, map[])])
    case Look(tx) => s.(txs := s.txs[tx := s.txs[tx].(owned := Some(OwnedSet(s.db, s.txs[tx].user)))])
    case Settle(tx, o, v) => s.(txs := s.txs[tx := s.txs[tx].(verdicts := s.txs[tx].verdicts[o := v])])
    case Commit(tx) => State(Deleted(s.db, s.txs[tx].user, s.txs[tx].verdicts), s.txs - {tx})
    case Abort(tx) => s.(txs := s.txs - {tx})
  }

  ghost predicate Next(s: State, s': State) {
    exists step :: Enabled(s, step) && s' == Apply(s, step)
  }

  ghost predicate Behavior(states: seq<State>) {
    && states != []
    && states[0].txs == map[]
    && forall i :: 0 <= i < |states| - 1 ==> Next(states[i], states[i + 1])
  }

  // ----- the invariant -----

  /** An heir that is still there is another member of the organization it was promoted in. */
  ghost predicate HeirsBelong(db: Db, t: Tx) {
    forall o :: o in t.verdicts && t.verdicts[o].Promote? && t.verdicts[o].heir in db.members ==>
      OtherOf(db, o, t.user, t.verdicts[o].heir)
  }

  ghost predicate Inv(s: State) {
    forall t :: t in s.txs ==> HeirsBelong(s.db, s.txs[t])
  }

  lemma StepKeepsInvariant(s: State, step: Step)
    requires Inv(s) && Enabled(s, step)
    ensures Inv(Apply(s, step))
  {
    var s' := Apply(s, step);
    forall t | t in s'.txs ensures HeirsBelong(s'.db, s'.txs[t]) {
      assert t in s.txs ==> HeirsBelong(s.db, s.txs[t]);
    }
  }

  lemma {:induction false} InvariantHolds(states: seq<State>, i: nat)
    requires Behavior(states) && i < |states|
    ensures Inv(states[i])
  {
    if i > 0 {
      InvariantHolds(states, i - 1);
      assert Next(states[i - 1], states[i]);
      var step :| Enabled(states[i - 1], step) && states[i] == Apply(states[i - 1], step);
      StepKeepsInvariant(states[i - 1], step);
    }
  }

  // ----- exactly when an organization is orphaned -----

  ghost predicate Orphaned(db: Db, db': Db, o: OrgId) {
    HasOwner(db, o) && o in db'.orgs && !HasOwner(db', o)
  }

  lemma SurvivingOwners(s: State, tx: TxId, o: OrgId)
    requires Inv(s) && Enabled(s, Commit(tx)) && !Dropped(s.txs[tx].verdicts, o)
    ensures var t := s.txs[tx]; forall m :: Owns(Deleted(s.db, t.user, t.verdicts), o, m) <==>
      (Owns(s.db, o, m) && s.db.members[m].user != t.user)
      || (o in t.verdicts && t.verdicts[o].Promote? && m == t.verdicts[o].heir)
  {
    var t := s.txs[tx];
    assert HeirsBelong(s.db, t);
    var db' := Deleted(s.db, t.user, t.verdicts);
    forall m | o in t.verdicts && t.verdicts[o].Promote? && m == t.verdicts[o].heir ensures Owns(db', o, m) {
      assert OtherOf(s.db, o, t.user, m);
    }
    forall m | Owns(db', o, m) && !Owns(s.db, o, m) ensures o in t.verdicts && t.verdicts[o].Promote? && m == t.verdicts[o].heir {
      var p :| p in t.verdicts && t.verdicts[p].Promote? && Role(m, OWNER) == Role(t.verdicts[p].heir, OWNER);
      assert OtherOf(s.db, p, t.user, m);
    }
  }

  /** A deletion orphans an organization when it commits if and only if by then its user is the sole owner and it
      has nothing in store for the organization: it saw another owner, or did not see the user as one. */
  lemma OrphanedIff(s: State, tx: TxId, o: OrgId)
    requires Inv(s) && Enabled(s, Commit(tx)) && o in s.db.orgs
    ensures Orphaned(s.db, Apply(s, Commit(tx)).db, o) <==>
      SoleOwner(s.db, o, s.txs[tx].user) && (o !in s.txs[tx].verdicts || s.txs[tx].verdicts[o].Leave?)
  {
    var t := s.txs[tx];
    if !Dropped(t.verdicts, o) {
      SurvivingOwners(s, tx, o);
      if o in t.verdicts && t.verdicts[o].Promote? {
        assert Owns(Apply(s, Commit(tx)).db, o, t.verdicts[o].heir);
      }
    }
  }

  // ----- deletions that do not overlap orphan nothing -----

  /** What t saw is still so. */
  ghost predicate UpToDate(db: Db, t: Tx) {
    && (t.owned.None? ==> t.verdicts == map[])
    && (t.owned.Some? ==> IsOwned(db, t.user, t.owned.value))
    && forall o :: o in t.verdicts ==> Sees(db, o, t.user, t.verdicts[o])
  }

  lemma UpToDateOrphansNothing(s: State, tx: TxId, o: OrgId)
    requires Inv(s) && Enabled(s, Commit(tx)) && o in s.db.orgs && UpToDate(s.db, s.txs[tx])
    ensures !Orphaned(s.db, Apply(s, Commit(tx)).db, o)
  {
    OrphanedIff(s, tx, o);
  }

  /** Only another deletion's commit can make it out of date. */
  lemma OnlyCommitsOutdate(s: State, step: Step, t: TxId)
    requires Enabled(s, step) && !step.Commit? && t in Apply(s, step).txs
    requires t in s.txs ==> UpToDate(s.db, s.txs[t])
    ensures UpToDate(Apply(s, step).db, Apply(s, step).txs[t])
  {
  }

  /** One deletion at a time. */
  ghost predicate Serial(s: State) {
    forall a, b :: a in s.txs && b in s.txs ==> a == b
  }

  ghost predicate AllUpToDate(s: State) {
    forall t :: t in s.txs ==> UpToDate(s.db, s.txs[t])
  }

  lemma SerialStep(s: State, step: Step)
    requires Inv(s) && Enabled(s, step) && Serial(s) && AllUpToDate(s)
    ensures AllUpToDate(Apply(s, step))
    ensures forall o :: o in s.db.orgs ==> !Orphaned(s.db, Apply(s, step).db, o)
  {
    if step.Commit? {
      forall o | o in s.db.orgs ensures !Orphaned(s.db, Apply(s, step).db, o) {
        UpToDateOrphansNothing(s, step.tx, o);
      }
    } else {
      forall t | t in Apply(s, step).txs ensures UpToDate(Apply(s, step).db, Apply(s, step).txs[t]) {
        OnlyCommitsOutdate(s, step, t);
      }
    }
  }

  lemma {:induction false} SerialIsUpToDate(states: seq<State>, i: nat)
    requires Behavior(states) && i < |states| && forall m :: 0 <= m < i ==> Serial(states[m])
    ensures AllUpToDate(states[i])
  {
    if i > 0 {
      SerialIsUpToDate(states, i - 1);
      InvariantHolds(states, i - 1);
      assert Next(states[i - 1], states[i]);
      var step :| Enabled(states[i - 1], step) && states[i] == Apply(states[i - 1], step);
      SerialStep(states[i - 1], step);
    }
  }

  /** As long as deletions do not overlap, no organization that has an owner is ever left without one. */
  lemma SerialDeletionsOrphanNothing(states: seq<State>, i: nat, o: OrgId)
    requires Behavior(states) && 0 < i < |states| && forall m :: 0 <= m < i ==> Serial(states[m])
    requires o in states[i - 1].db.orgs
    ensures !Orphaned(states[i - 1].db, states[i].db, o)
  {
    SerialIsUpToDate(states, i - 1);
    InvariantHolds(states, i - 1);
    assert Next(states[i - 1], states[i]);
    var step :| Enabled(states[i - 1], step) && states[i] == Apply(states[i - 1], step);
    SerialStep(states[i - 1], step);
  }

  // ----- a deletion that nobody disturbs is the cascade -----

  /** What the commit leaves of an organization that it does not drop: all other seats, and their roles with what it promotes. */
  lemma CommitKeepsOthers(s: State, tx: TxId, o: OrgId)
    requires Inv(s) && Enabled(s, Commit(tx)) && Sound(s.db) && o in s.db.orgs && !Dropped(s.txs[tx].verdicts, o)
    ensures var t := s.txs[tx];
      Kept(s.db, Deleted(s.db, t.user, t.verdicts), o, t.user,
           if o in t.verdicts && t.verdicts[o].Promote? then {Role(t.verdicts[o].heir, OWNER)} else {})
  {
    var t := s.txs[tx];
    var db' := Deleted(s.db, t.user, t.verdicts);
    assert HeirsBelong(s.db, t);
    forall m ensures OtherOf(s.db, o, t.user, m) <==> OtherOf(db', o, t.user, m) {}
    forall m, name | OtherOf(s.db, o, t.user, m) && Role(m, name) in db'.roles && Role(m, name) !in s.db.roles
      ensures o in t.verdicts && t.verdicts[o] == Promote(m) && name == OWNER
    {
      var p :| p in t.verdicts && t.verdicts[p].Promote? && Role(m, name) == Role(t.verdicts[p].heir, OWNER);
      assert OtherOf(s.db, p, t.user, m);
    }
  }

  /** Committed while all it saw is still so, a deletion under way among others does exactly what the service does alone. */
  lemma UndisturbedDeletionIsTheCascade(s: State, tx: TxId)
    requires Inv(s) && Enabled(s, Commit(tx)) && Sound(s.db) && UpToDate(s.db, s.txs[tx])
    ensures Cascaded(s.db, Apply(s, Commit(tx)).db, s.txs[tx].user)
  {
    var t := s.txs[tx];
    var db' := Deleted(s.db, t.user, t.verdicts);
    forall o | o in s.db.orgs ensures OrgOutcome(s.db, db', o, t.user) {
      if Dropped(t.verdicts, o) {
        assert Sees(s.db, o, t.user, Drop) && SoleOwner(s.db, o, t.user) && Gone(db', o);
      } else {
        CommitKeepsOthers(s, tx, o);
        if o in t.verdicts && t.verdicts[o].Promote? {
          assert Sees(s.db, o, t.user, t.verdicts[o]) && Promoted(s.db, db', o, t.user, t.verdicts[o].heir);
        } else {
          assert o in t.verdicts ==> Sees(s.db, o, t.user, Leave);
          assert !SoleOwner(s.db, o, t.user);
        }
      }
    }
  }

  // ----- two co-owners who leave at once -----

  ghost predicate Path(states: seq<State>) {
    states != [] && forall i :: 0 <= i < |states| - 1 ==> Next(states[i], states[i + 1])
  }

  function Leaving(u: UserId, o: OrgId): Tx {
    Tx(u, Some({o}), map[o := Leave])
  }

  /** A deletion by one of several owners of o, who owns nothing else, up to its commit. */
  lemma CoOwnerPrepares(s: State, tx: TxId, u: UserId, o: OrgId) returns (s1: State, s2: State, s3: State)
    requires tx !in s.txs && IsOwned(s.db, u, {o}) && OtherOwner(s.db, o, u)
    ensures Next(s, s1) && Next(s1, s2) && Next(s2, s3)
    ensures s3 == s.(txs := s.txs[tx := Leaving(u, o)])
  {
    s1 := Apply(s, Begin(tx, u));
    s2 := Apply(s1, Look(tx));
    assert OwnedSet(s.db, u) == {o};
    s3 := Apply(s2, Settle(tx, o, Leave));
  }

  lemma LeavingCommits(s: State, tx: TxId, u: UserId, o: OrgId) returns (s1: State)
    requires tx in s.txs && s.txs[tx] == Leaving(u, o)
    ensures Next(s, s1) && s1 == State(Deleted(s.db, u, map[o := Leave]), s.txs - {tx})
    ensures o in s.db.orgs ==> o in s1.db.orgs
    ensures forall m :: Owns(s1.db, o, m) ==> Owns(s.db, o, m) && s.db.members[m].user != u && s1.db.members[m] == s.db.members[m]
  {
    s1 := Apply(s, Commit(tx));
  }

  lemma BothCommit(s: State, o: OrgId, u: UserId, v: UserId) returns (s1: State, s2: State)
    requires 0 in s.txs && 1 in s.txs && s.txs[0] == Leaving(u, o) && s.txs[1] == Leaving(v, o) && o in s.db.orgs
    requires forall m :: Owns(s.db, o, m) ==> s.db.members[m].user == u || s.db.members[m].user == v
    ensures Next(s, s1) && Next(s1, s2) && o in s2.db.orgs && !HasOwner(s2.db, o)
  {
    s1 := LeavingCommits(s, 0, u, o);
    s2 := LeavingCommits(s1, 1, v, o);
  }

  lemma BothPrepare(db: Db, o: OrgId, u: UserId, v: UserId) returns (states: seq<State>)
    requires u != v && IsOwned(db, u, {o}) && IsOwned(db, v, {o})
    ensures |states| == 7 && Path(states) && states[0] == State(db, map[])
    ensures states[6] == State(db, map[0 := Leaving(u, o), 1 := Leaving(v, o)])
  {
    var s := State(db, map[]);
    assert OwnedBy(db, o, u) && OwnedBy(db, o, v);
    var s1, s2, s3 := CoOwnerPrepares(s, 0, u, o);
    var s4, s5, s6 := CoOwnerPrepares(s3, 1, v, o);
    states := [s, s1, s2, s3, s4, s5, s6];
  }

  /** Whenever two users are the owners of an organization, and of no other, there is a run in which both delete
      their accounts, each leaving the organization to the other, and it ends up without an owner. */
  lemma CoOwnersCanOrphan(db: Db, o: OrgId, u: UserId, v: UserId) returns (states: seq<State>)
    requires o in db.orgs && u != v && IsOwned(db, u, {o}) && IsOwned(db, v, {o})
    requires forall m :: Owns(db, o, m) ==> db.members[m].user == u || db.members[m].user == v
    ensures Behavior(states) && states[0].db == db
    ensures o in states[|states| - 1].db.orgs && !HasOwner(states[|states| - 1].db, o)
  {
    var prepared := BothPrepare(db, o, u, v);
    var s7, s8 := BothCommit(prepared[6], o, u, v);
    states := prepared + [s7, s8];
    forall i | 0 <= i < |states| - 1 ensures Next(states[i], states[i + 1]) {
      if i < 6 {
        assert Next(prepared[i], prepared[i + 1]);
      }
    }
  }
}
