/**
  Sign-up sheets: internal/polls/claims.go, with RemoveParticipant of internal/polls/participants.go.

  This module holds the stored rows, what each committed call does to them, the service's own methods,
  and the announcement of a sheet that has filled up.  How claims interleave is the subject of module
  ClaimProtocol.
 */
module Claims {
  import opened Common

  type PollId = string
  type OptionId = string
  type ParticipantId = string
  type UserId = int

  const LIMIT_PARTICIPANTS: nat := 500

  datatype Answer = Yes | IfNeedBe | No

  datatype Poll = Poll(signup: bool, open: bool, maxClaims: nat, requireEmail: bool)

  datatype Slot = Slot(poll: PollId, capacity: Option<nat>)

  datatype Participant = Participant(poll: PollId, user: Option<UserId>)

  /** The primary key of a vote. */
  datatype Key = Key(participant: ParticipantId, option: OptionId)

  datatype Db = Db(polls: map<PollId, Poll>, options: map<OptionId, Slot>,
                   participants: map<ParticipantId, Participant>, votes: map<Key, Answer>)

  datatype Error = NotFound | Invalid | PollClosed | Forbidden | EmailRequired | LimitReached | ClaimLimitReached | CapacityFull

  // ----- queries -----

  function VotesOf(db: Db, p: ParticipantId): set<Key> {
    set k | k in db.votes && k.participant == p
  }

  function YesFor(db: Db, o: OptionId): set<Key> {
    set k | k in db.votes && k.option == o && db.votes[k].Yes?
  }

  function ParticipantsOf(db: Db, poll: PollId): set<ParticipantId> {
    set p | p in db.participants && db.participants[p].poll == poll
  }

  predicate HasRoom(db: Db, o: OptionId)
    requires o in db.options
  {
    db.options[o].capacity.None? || |YesFor(db, o)| < db.options[o].capacity.value
  }

  /** Every slot of the sheet has a capacity, and as many yes votes as that; there is at least one slot. */
  ghost predicate Full(db: Db, poll: PollId) {
    && (exists o :: OnSheet(db, poll, o))
    && forall o :: OnSheet(db, poll, o) ==> !HasRoom(db, o)
  }

  predicate OnSheet(db: Db, poll: PollId, o: OptionId) {
    o in db.options && db.options[o].poll == poll
  }

  /** A sheet is full when it has a slot and the yes votes of every slot fill a capacity. */
  lemma FullIff(db: Db, poll: PollId)
    ensures Full(db, poll) <==>
      && (exists o :: o in db.options && db.options[o].poll == poll)
      && forall o :: o in db.options && db.options[o].poll == poll ==>
           db.options[o].capacity.Some? && |set k | k in db.votes && k.option == o && db.votes[k] == Yes| >= db.options[o].capacity.value
  {
    forall o ensures OnSheet(db, poll, o) <==> o in db.options && db.options[o].poll == poll {}
    forall o ensures YesFor(db, o) == set k | k in db.votes && k.option == o && db.votes[k] == Yes {}
  }

  // ----- what must always hold of the rows -----

  /** Foreign keys: a vote joins a participant row and a slot row. */
  ghost predicate WellFormed(db: Db) {
    forall k :: k in db.votes ==> k.option in db.options && k.participant in db.participants
  }

  ghost predicate CapacityKept(db: Db) {
    forall o :: o in db.options && db.options[o].capacity.Some? ==> |YesFor(db, o)| <= db.options[o].capacity.value
  }

  ghost predicate BudgetKept(db: Db) {
    forall p :: p in db.participants && db.participants[p].poll in db.polls ==>
      |VotesOf(db, p)| <= db.polls[db.participants[p].poll].maxClaims
  }

  ghost predicate WithinLimits(db: Db) {
    WellFormed(db) && CapacityKept(db) && BudgetKept(db)
  }

  // ----- effects -----

  datatype Effect =
    | Grant(participant: ParticipantId, created: bool, user: Option<UserId>, poll: PollId, option: OptionId)
    | Release(participant: ParticipantId, option: OptionId)
    | RemoveRow(participant: ParticipantId)
    | NoChange

  function Committed(db: Db, e: Effect): Db {
    match e
    case Grant(p, created, user, poll, o) =>
      db.(participants := if created then db.participants[p := Participant(poll, user)] else db.participants,
          votes := db.votes[Key(p, o) := Yes])
    case Release(p, o) => db.(votes := db.votes - {Key(p, o)})
    case RemoveRow(p) =>
      db.(participants := db.participants - {p}, votes := map k | k in db.votes && k.participant != p :: db.votes[k])
    case NoChange => db
  }

  /** What a committed grant needs for the limits to survive it. */
  ghost predicate MayGrant(db: Db, e: Effect)
    requires e.Grant?
  {
    && e.poll in db.polls
    && OnSheet(db, e.poll, e.option) && HasRoom(db, e.option)
    && Key(e.participant, e.option) !in db.votes
    && |VotesOf(db, e.participant)| < db.polls[e.poll].maxClaims
    && RowFits(db, e.poll, Acting(e.participant, e.created, e.user))
  }

  lemma GrantAddsAVote(db: Db, e: Effect, p: ParticipantId)
    requires e.Grant? && MayGrant(db, e)
    ensures |VotesOf(Committed(db, e), p)| == |VotesOf(db, p)| + (if p == e.participant then 1 else 0)
  {
    if p == e.participant {
      assert VotesOf(Committed(db, e), p) == VotesOf(db, p) + {Key(e.participant, e.option)};
    } else {
      assert VotesOf(Committed(db, e), p) == VotesOf(db, p);
    }
  }

  lemma GrantAddsItsYes(db: Db, e: Effect)
    requires e.Grant? && MayGrant(db, e)
    ensures YesFor(Committed(db, e), e.option) == YesFor(db, e.option) + {Key(e.participant, e.option)}
  {
    var db' := Committed(db, e);
    forall k | k in YesFor(db', e.option) ensures k in YesFor(db, e.option) + {Key(e.participant, e.option)} {}
    forall k | k in YesFor(db, e.option) ensures k in YesFor(db', e.option) {}
  }

  lemma GrantAddsNoOtherYes(db: Db, e: Effect, o: OptionId)
    requires e.Grant? && MayGrant(db, e) && o != e.option
    ensures YesFor(Committed(db, e), o) == YesFor(db, o)
  {
  }

  lemma GrantAddsAYes(db: Db, e: Effect, o: OptionId)
    requires e.Grant? && MayGrant(db, e)
    ensures |YesFor(Committed(db, e), o)| == |YesFor(db, o)| + (if o == e.option then 1 else 0)
  {
    if o == e.option {
      GrantAddsItsYes(db, e);
    } else {
      GrantAddsNoOtherYes(db, e, o);
    }
  }

  lemma GrantKeepsLimits(db: Db, e: Effect)
    requires e.Grant? && MayGrant(db, e) && WithinLimits(db)
    ensures WithinLimits(Committed(db, e))
  {
    var db' := Committed(db, e);
    assert CapacityKept(db') by {
      forall o | o in db'.options && db'.options[o].capacity.Some? ensures |YesFor(db', o)| <= db'.options[o].capacity.value {
        GrantAddsAYes(db, e, o);
      }
    }
    assert BudgetKept(db') by {
      forall p | p in db'.participants && db'.participants[p].poll in db'.polls
        ensures |VotesOf(db', p)| <= db'.polls[db'.participants[p].poll].maxClaims
      {
        GrantAddsAVote(db, e, p);
      }
    }
  }

  /** Removing votes or participants only ever shrinks what is counted. */
  lemma ShrinkingShrinks(db: Db, e: Effect, p: ParticipantId, o: OptionId)
    requires e.Release? || e.RemoveRow? || e.NoChange?
    ensures VotesOf(Committed(db, e), p) <= VotesOf(db, p) && |VotesOf(Committed(db, e), p)| <= |VotesOf(db, p)|
    ensures YesFor(Committed(db, e), o) <= YesFor(db, o) && |YesFor(Committed(db, e), o)| <= |YesFor(db, o)|
  {
    SubsetIsSmaller(VotesOf(Committed(db, e), p), VotesOf(db, p));
    SubsetIsSmaller(YesFor(Committed(db, e), o), YesFor(db, o));
  }

  lemma ShrinkingKeepsLimits(db: Db, e: Effect)
    requires (e.Release? || e.RemoveRow? || e.NoChange?) && WithinLimits(db)
    ensures WithinLimits(Committed(db, e))
  {
    var db' := Committed(db, e);
    assert CapacityKept(db') by {
      forall o | o in db'.options && db'.options[o].capacity.Some? ensures |YesFor(db', o)| <= db'.options[o].capacity.value {
        ShrinkingShrinks(db, e, "", o);
      }
    }
    assert BudgetKept(db') by {
      forall p | p in db'.participants && db'.participants[p].poll in db'.polls
        ensures |VotesOf(db', p)| <= db'.polls[db'.participants[p].poll].maxClaims
      {
        ShrinkingShrinks(db, e, p, "");
      }
    }
  }

  /** Taking back a yes for a slot whose capacity is kept leaves it room, and its sheet is not full. */
  lemma ReleasingMakesRoom(db: Db, e: Effect, o: OptionId, k: Key)
    requires CapacityKept(db) && o in db.options && k in db.votes && k.option == o && db.votes[k].Yes?
    requires e == Release(k.participant, o) || e == RemoveRow(k.participant)
    ensures HasRoom(Committed(db, e), o) && !Full(Committed(db, e), db.options[o].poll)
  {
    var db' := Committed(db, e);
    assert k in YesFor(db, o) && k !in YesFor(db', o);
    SubsetIsSmaller(YesFor(db', o), YesFor(db, o) - {k});
    assert OnSheet(db', db.options[o].poll, o);
  }

  /** A claim in the caller's terms: who holds the slot already, whose budget is used up, which slot is taken. */
  lemma ClaimSucceedsIff(db: Db, poll: PollId, o: OptionId, a: Acting)
    requires poll in db.polls && OnSheet(db, poll, o)
    ensures var r := Decided(db, poll, o, a);
      var held := set k | k in db.votes && k.participant == a.participant;
      var taken := set k | k in db.votes && k.option == o && db.votes[k] == Yes;
      && (r == Ok(NoChange) <==> Key(a.participant, o) in db.votes)
      && (r == Err(ClaimLimitReached) <==> Key(a.participant, o) !in db.votes && |held| >= db.polls[poll].maxClaims)
      && (r == Err(CapacityFull) <==>
            && Key(a.participant, o) !in db.votes && |held| < db.polls[poll].maxClaims
            && db.options[o].capacity.Some? && |taken| >= db.options[o].capacity.value)
      && (r.Err? ==> r.error.ClaimLimitReached? || r.error.CapacityFull?)
      && (r.Ok? && r.value != NoChange ==> r.value == Grant(a.participant, a.created, a.user, poll, o))
  {
    assert VotesOf(db, a.participant) == set k | k in db.votes && k.participant == a.participant;
    assert YesFor(db, o) == set k | k in db.votes && k.option == o && db.votes[k] == Yes;
  }

  // ----- who claims -----

  datatype Claimant = Existing(id: ParticipantId) | SignedIn(user: UserId) | Guest

  /** The participant a claim acts as; created: the row does not exist yet. */
  datatype Acting = Acting(participant: ParticipantId, created: bool, user: Option<UserId>)

  predicate RowOf(db: Db, poll: PollId, user: UserId, p: ParticipantId) {
    p in db.participants && db.participants[p] == Participant(poll, Some(user))
  }

  function Prepared(db: Db, poll: PollId, user: Option<UserId>, named: bool, mailed: bool, newId: ParticipantId): (c: Result<Acting, Error>)
    requires poll in db.polls
    ensures c.Ok? ==> named && (db.polls[poll].requireEmail ==> mailed) && c.value == Acting(newId, true, user)
    ensures c == Err(EmailRequired) <==> named && db.polls[poll].requireEmail && !mailed
    ensures c == Err(LimitReached) <==>
      && named && (db.polls[poll].requireEmail ==> mailed)
      && |set p | p in db.participants && db.participants[p].poll == poll| >= 500
    ensures c.Err? && named ==> c.error.EmailRequired? || c.error.LimitReached?
    ensures !named ==> c == Err(Invalid)
  {
    assert ParticipantsOf(db, poll) == set p | p in db.participants && db.participants[p].poll == poll;
    if !named then Err(Invalid)
    else if db.polls[poll].requireEmail && !mailed then Err(EmailRequired)
    else if |ParticipantsOf(db, poll)| >= LIMIT_PARTICIPANTS then Err(LimitReached)
    else Ok(Acting(newId, true, user))
  }

  /** c answers "as whom does this claim act": an answer that depends on which of a user's rows is found. */
  ghost predicate Resolves(db: Db, poll: PollId, who: Claimant, authorised: bool, named: bool, mailed: bool,
                           newId: ParticipantId, c: Result<Acting, Error>)
    requires poll in db.polls
  {
    match who
    case Existing(id) =>
      c == (if id !in db.participants || db.participants[id].poll != poll then Err(NotFound)
            else if !authorised then Err(Forbidden)
            else Ok(Acting(id, false, db.participants[id].user)))
    case SignedIn(u) =>
      if exists p :: RowOf(db, poll, u, p)
      then c.Ok? && RowOf(db, poll, u, c.value.participant) && c.value == Acting(c.value.participant, false, Some(u))
      else c == Prepared(db, poll, Some(u), named, mailed, newId)
    case Guest => c == Prepared(db, poll, None, named, mailed, newId)
  }

  /** A slot already held is granted again at no cost; otherwise the budget is checked first, then the capacity. */
  function Decided(db: Db, poll: PollId, o: OptionId, a: Acting): Result<Effect, Error>
    requires poll in db.polls && o in db.options
  {
    if Key(a.participant, o) in db.votes then Ok(NoChange)
    else if |VotesOf(db, a.participant)| >= db.polls[poll].maxClaims then Err(ClaimLimitReached)
    else if !HasRoom(db, o) then Err(CapacityFull)
    else Ok(Grant(a.participant, a.created, a.user, poll, o))
  }

  /** What a claim run on its own comes to: r, acting as c once the sheet and the slot are found. */
  ghost predicate ClaimOutcome(db: Db, poll: PollId, o: OptionId, who: Claimant, authorised: bool, named: bool, mailed: bool,
                               newId: ParticipantId, c: Result<Acting, Error>, r: Result<Effect, Error>) {
    if poll !in db.polls then r == Err(NotFound)
    else if !db.polls[poll].signup then r == Err(Invalid)
    else if !db.polls[poll].open then r == Err(PollClosed)
    else if !OnSheet(db, poll, o) then r == Err(NotFound)
    else
      && Resolves(db, poll, who, authorised, named, mailed, newId, c)
      && r == match c { case Err(e) => Err(e) case Ok(a) => Decided(db, poll, o, a) }
  }

  /** A new row is not there yet, an existing one is on the sheet. */
  predicate RowFits(db: Db, poll: PollId, a: Acting) {
    if a.created then a.participant !in db.participants
    else a.participant in db.participants && db.participants[a.participant].poll == poll
  }

  lemma OutcomeMayGrant(db: Db, poll: PollId, o: OptionId, who: Claimant, authorised: bool, named: bool, mailed: bool,
                        newId: ParticipantId, c: Result<Acting, Error>, r: Result<Effect, Error>)
    requires ClaimOutcome(db, poll, o, who, authorised, named, mailed, newId, c, r) && newId !in db.participants
    ensures r.Ok? ==> r.value.NoChange? || (r.value.Grant? && MayGrant(db, r.value) && r.value.poll == poll)
  {
  }

  /** Whose claim an unclaim releases: the target a manager names, the verified guest, or the user's own row. */
  ghost predicate UnclaimOutcome(db: Db, poll: PollId, whose: Claimant, canManage: bool, asManager: bool, r: Result<ParticipantId, Error>) {
    if poll !in db.polls then r == Err(NotFound)
    else if !db.polls[poll].signup then r == Err(Invalid)
    else
      var closed := !canManage && !db.polls[poll].open;
      match whose
      case Existing(id) =>
        r == (if asManager && !canManage then Err(Forbidden)
              else if asManager && (id !in db.participants || db.participants[id].poll != poll) then Err(NotFound)
              else if closed then Err(PollClosed)
              else Ok(id))
      case SignedIn(u) =>
        if !exists p :: RowOf(db, poll, u, p) then r == Err(NotFound)
        else if closed then r == Err(PollClosed)
        else r.Ok? && RowOf(db, poll, u, r.value)
      case Guest => r == Err(Forbidden)
  }

  /** A counter that starts at zero. */
  function Tally(counts: map<OptionId, nat>, o: OptionId): nat {
    if o in counts then counts[o] else 0
  }

  lemma OneMoreCounted(db: Db, o: OptionId, todo: set<Key>, k: Key)
    requires k in todo && k in db.votes
    ensures |YesFor(db, o) - (todo - {k})| == |YesFor(db, o) - todo| + (if o == k.option && db.votes[k].Yes? then 1 else 0)
  {
    assert YesFor(db, o) - (todo - {k}) == (YesFor(db, o) - todo) + (if o == k.option && db.votes[k].Yes? then {k} else {});
  }

  // ----- the service -----

  datatype ClaimResult = ClaimResult(participant: ParticipantId, created: bool, isGuest: bool, claimed: set<OptionId>, changed: bool)

  class Service {
    var db: Db

    ghost predicate Valid()
      reads this
    {
      WithinLimits(db)
    }

    constructor (polls: map<PollId, Poll>, options: map<OptionId, Slot>)
      ensures Valid() && db == Db(polls, options, map[], map[])
    {
      db := Db(polls, options, map[], map[]);
    }

    method ResolveClaimant(poll: PollId, who: Claimant, authorised: bool, named: bool, mailed: bool, newId: ParticipantId)
      returns (c: Result<Acting, Error>)
      requires poll in db.polls
      ensures Resolves(db, poll, who, authorised, named, mailed, newId, c)
      ensures c.Ok? && !c.value.created ==>
        && c.value.participant in db.participants
        && db.participants[c.value.participant] == Participant(poll, c.value.user)
        && (who.SignedIn? ==> c.value.user == Some(who.user)) && (who.Existing? ==> authorised && c.value.participant == who.id)
      ensures c.Ok? && c.value.created ==>
        && named && (db.polls[poll].requireEmail ==> mailed) && c.value.participant == newId && !who.Existing?
        && (if who.SignedIn? then c.value.user == Some(who.user) else c.value.user == None)
        && (who.SignedIn? ==> forall p :: p in db.participants ==> db.participants[p] != Participant(poll, Some(who.user)))
    {
      match who
      case Existing(id) =>
        if id !in db.participants || db.participants[id].poll != poll { return Err(NotFound); }
        if !authorised { return Err(Forbidden); }
        return Ok(Acting(id, false, db.participants[id].user));
      case SignedIn(u) =>
        var rows := set p | p in db.participants && db.participants[p] == Participant(poll, Some(u));
        if rows != {} {
          var p :| p in rows;
          assert RowOf(db, poll, u, p);
          return Ok(Acting(p, false, Some(u)));
        }
        assert forall p :: p in db.participants && db.participants[p] == Participant(poll, Some(u)) ==> p in rows;
        assert forall p :: RowOf(db, poll, u, p) ==> p in rows;
        return Prepared(db, poll, Some(u), named, mailed, newId);
      case Guest =>
        return Prepared(db, poll, None, named, mailed, newId);
    }

    method Claim(poll: PollId, o: OptionId, who: Claimant, authorised: bool, named: bool, mailed: bool, newId: ParticipantId)
      returns (r: Result<ClaimResult, Error>, ghost c: Result<Acting, Error>, ghost e: Result<Effect, Error>)
      requires Valid() && newId !in db.participants
      modifies this
      ensures Valid()
      ensures ClaimOutcome(old(db), poll, o, who, authorised, named, mailed, newId, c, e)
      ensures e.Err? ==> r == Err(e.error) && db == old(db)
      ensures poll !in old(db).polls ==> r == Err(NotFound)
      ensures poll in old(db).polls && !old(db).polls[poll].signup ==> r == Err(Invalid)
      ensures poll in old(db).polls && old(db).polls[poll].signup ==> (r == Err(PollClosed) <==> !old(db).polls[poll].open)
      ensures r.Ok? ==> o in old(db).options && old(db).options[o].poll == poll
      ensures e.Ok? ==> r.Ok? && c.Ok? && db == Committed(old(db), e.value)
      ensures e.Ok? ==> r.value.participant == c.value.participant && r.value.created == c.value.created
      ensures e.Ok? ==> r.value.isGuest == c.value.user.None? && r.value.changed == e.value.Grant?
      ensures e.Ok? ==> forall slot :: slot in r.value.claimed <==> Key(r.value.participant, slot) in db.votes
      ensures e.Ok? ==> o in r.value.claimed && db.polls == old(db).polls && db.options == old(db).options
      ensures e.Ok? && !r.value.changed ==> db == old(db)
      ensures e.Ok? && r.value.changed ==>
        && Key(r.value.participant, o) !in old(db).votes && db.votes == old(db).votes[Key(r.value.participant, o) := Yes]
        && db.participants == if r.value.created then old(db).participants[r.value.participant := Participant(poll, c.value.user)]
                              else old(db).participants
    {
      c, e := Err(NotFound), Err(NotFound);
      if poll !in db.polls { return Err(NotFound), c, e; }
      if !db.polls[poll].signup { return Err(Invalid), c, Err(Invalid); }
      if !db.polls[poll].open { return Err(PollClosed), c, Err(PollClosed); }
      if o !in db.options || db.options[o].poll != poll { return Err(NotFound), c, e; }
      var resolved := ResolveClaimant(poll, who, authorised, named, mailed, newId);
      c := resolved;
      if resolved.Err? { return Err(resolved.error), c, Err(resolved.error); }
      e := Decided(db, poll, o, resolved.value);
      r := ClaimAs(resolved.value, poll, o);
    }

    /** The second half of a claim: the budget, the capacity, and the inserts. */
    method ClaimAs(a: Acting, poll: PollId, o: OptionId) returns (r: Result<ClaimResult, Error>)
      requires Valid() && poll in db.polls && OnSheet(db, poll, o) && RowFits(db, poll, a)
      modifies this
      ensures Valid()
      ensures var e := Decided(old(db), poll, o, a);
        if e.Err? then r == Err(e.error) && db == old(db)
        else
          && db == Committed(old(db), e.value) && r.Ok?
          && r.value.participant == a.participant && r.value.created == a.created
          && r.value.isGuest == a.user.None? && r.value.changed == e.value.Grant?
          && forall slot :: slot in r.value.claimed <==> Key(a.participant, slot) in db.votes
    {
      var claimed, count, already := HeldBy(a.participant, o);
      if already {
        return Ok(ClaimResult(a.participant, a.created, a.user.None?, claimed, false));
      }
      if count >= db.polls[poll].maxClaims { return Err(ClaimLimitReached); }
      if !HasRoom(db, o) { return Err(CapacityFull); }
      Accept(a, poll, o);
      r := Ok(ClaimResult(a.participant, a.created, a.user.None?, claimed + {o}, true));
    }

    /** The slots p holds, how many they are, and whether o is one of them. */
    method HeldBy(p: ParticipantId, o: OptionId) returns (claimed: set<OptionId>, count: nat, already: bool)
      ensures forall slot :: slot in claimed <==> Key(p, slot) in db.votes
      ensures count == |VotesOf(db, p)| && (already <==> Key(p, o) in db.votes)
    {
      claimed, count, already := {}, 0, false;
      var todo := VotesOf(db, p);
      while todo != {}
        invariant todo <= VotesOf(db, p)
        invariant count == |VotesOf(db, p)| - |todo|
        invariant forall slot :: slot in claimed <==> Key(p, slot) in VotesOf(db, p) - todo
        invariant already <==> o in claimed
        decreases todo
      {
        var k :| k in todo;
        todo := todo - {k};
        claimed, count, already := claimed + {k.option}, count + 1, already || k.option == o;
      }
      assert forall slot :: Key(p, slot) in db.votes ==> Key(p, slot) in VotesOf(db, p);
    }

    /** The two inserts of a claim that passed its checks. */
    method Accept(a: Acting, poll: PollId, o: OptionId)
      requires Valid() && MayGrant(db, Grant(a.participant, a.created, a.user, poll, o))
      modifies this
      ensures Valid()
      ensures db == Committed(old(db), Grant(a.participant, a.created, a.user, poll, o))
    {
      GrantKeepsLimits(db, Grant(a.participant, a.created, a.user, poll, o));
      if a.created {
        db := db.(participants := db.participants[a.participant := Participant(poll, a.user)]);
      }
      db := db.(votes := db.votes[Key(a.participant, o) := Yes]);
    }

    method Unclaim(poll: PollId, o: OptionId, whose: Claimant, canManage: bool, asManager: bool) returns (r: Result<ParticipantId, Error>)
      requires Valid()
      modifies this
      ensures Valid()
      ensures UnclaimOutcome(old(db), poll, whose, canManage, asManager, r)
      ensures r.Ok? ==> poll in old(db).polls && old(db).polls[poll].signup && (canManage || old(db).polls[poll].open) && !whose.Guest?
      ensures r.Ok? && whose.SignedIn? ==>
        r.value in old(db).participants && old(db).participants[r.value] == Participant(poll, Some(whose.user))
      ensures r.Ok? && whose.Existing? ==>
        r.value == whose.id && (asManager ==> canManage && whose.id in old(db).participants && old(db).participants[whose.id].poll == poll)
      ensures db == if r.Ok? then Committed(old(db), Release(r.value, o)) else old(db)
      ensures r.Ok? ==>
        && Key(r.value, o) !in db.votes
        && (forall k :: k != Key(r.value, o) ==> (k in db.votes <==> k in old(db).votes))
        && (forall k :: k in db.votes ==> db.votes[k] == old(db).votes[k])
        && db.polls == old(db).polls && db.options == old(db).options && db.participants == old(db).participants
      ensures r.Ok? && Key(r.value, o) in old(db).votes && old(db).votes[Key(r.value, o)].Yes? ==>
        o in db.options && HasRoom(db, o) && !Full(db, db.options[o].poll)
    {
      if poll !in db.polls { return Err(NotFound); }
      if !db.polls[poll].signup { return Err(Invalid); }
      var p;
      match whose {
        case Existing(id) =>
          if asManager && !canManage { return Err(Forbidden); }
          if asManager && (id !in db.participants || db.participants[id].poll != poll) { return Err(NotFound); }
          p := id;
        case SignedIn(u) =>
          var rows := set q | q in db.participants && db.participants[q] == Participant(poll, Some(u));
          assert forall q :: RowOf(db, poll, u, q) ==> q in rows;
          if rows == {} { return Err(NotFound); }
          p :| p in rows;
          assert RowOf(db, poll, u, p);
        case Guest =>
          return Err(Forbidden);
      }
      if !canManage && !db.polls[poll].open { return Err(PollClosed); }
      ShrinkingKeepsLimits(db, Release(p, o));
      if Key(p, o) in db.votes && db.votes[Key(p, o)].Yes? {
        ReleasingMakesRoom(db, Release(p, o), o, Key(p, o));
      }
      db := db.(votes := db.votes - {Key(p, o)});
      r := Ok(p);
    }

    method RemoveParticipant(poll: PollId, p: ParticipantId, canManage: bool, authorised: bool) returns (r: Option<Error>)
      requires Valid()
      requires canManage ==> authorised
      modifies this
      ensures Valid()
      ensures r == if p !in old(db).participants || old(db).participants[p].poll != poll || poll !in old(db).polls then Some(NotFound)
                   else if !canManage && !old(db).polls[poll].open then Some(PollClosed)
                   else if !authorised then Some(Forbidden)
                   else None
      ensures db == if r.None? then Committed(old(db), RemoveRow(p)) else old(db)
      ensures r.None? ==>
        && db.participants == old(db).participants - {p}
        && (forall k :: k in db.votes <==> k in old(db).votes && k.participant != p)
        && (forall k :: k in db.votes ==> db.votes[k] == old(db).votes[k])
        && db.polls == old(db).polls && db.options == old(db).options
      ensures r.None? ==> forall k :: k in old(db).votes && k.participant == p && old(db).votes[k].Yes? ==>
        k.option in db.options && HasRoom(db, k.option) && !Full(db, db.options[k.option].poll)
    {
      if p !in db.participants || db.participants[p].poll != poll || poll !in db.polls { return Some(NotFound); }
      if !canManage && !db.polls[poll].open { return Some(PollClosed); }
      if !authorised { return Some(Forbidden); }
      ShrinkingKeepsLimits(db, RemoveRow(p));
      forall k | k in db.votes && k.participant == p && db.votes[k].Yes?
        ensures HasRoom(Committed(db, RemoveRow(p)), k.option) && !Full(Committed(db, RemoveRow(p)), db.options[k.option].poll)
      {
        ReleasingMakesRoom(db, RemoveRow(p), k.option, k);
      }
      db := db.(participants := db.participants - {p}, votes := map k | k in db.votes && k.participant != p :: db.votes[k]);
      r := None;
    }

    /** The yes votes of every slot, counted in one pass over the votes. */
    method CountYes() returns (counts: map<OptionId, nat>)
      ensures forall o :: Tally(counts, o) == |YesFor(db, o)|
    {
      counts := map[];
      var todo := db.votes.Keys;
      forall o ensures Tally(counts, o) == |YesFor(db, o) - todo| {
        assert YesFor(db, o) - todo == {};
      }
      while todo != {}
        invariant todo <= db.votes.Keys
        invariant forall o :: Tally(counts, o) == |YesFor(db, o) - todo|
        decreases todo
      {
        var k :| k in todo;
        ghost var before, counted := todo, counts;
        todo := todo - {k};
        if db.votes[k].Yes? {
          counts := counts[k.option := Tally(counts, k.option) + 1];
        }
        forall o ensures Tally(counts, o) == |YesFor(db, o) - todo| {
          OneMoreCounted(db, o, before, k);
          assert Tally(counts, o) == Tally(counted, o) + (if o == k.option && db.votes[k].Yes? then 1 else 0);
        }
      }
      forall o ensures Tally(counts, o) == |YesFor(db, o)| {
        assert YesFor(db, o) - todo == YesFor(db, o);
      }
    }

    method SignupFull(poll: PollId) returns (full: bool)
      ensures full <==> Full(db, poll)
    {
      var sheet := set o | o in db.options && db.options[o].poll == poll;
      assert forall o :: OnSheet(db, poll, o) <==> o in sheet;
      if sheet == {} { return false; }
      var todo := sheet;
      while todo != {}
        invariant todo <= sheet
        invariant forall o :: o in sheet - todo ==> db.options[o].capacity.Some?
        decreases todo
      {
        var o :| o in todo;
        if db.options[o].capacity.None? { assert OnSheet(db, poll, o) && HasRoom(db, o); return false; }
        todo := todo - {o};
      }
      var counts := CountYes();
      todo := sheet;
      while todo != {}
        invariant todo <= sheet
        invariant forall o :: o in sheet - todo ==> !HasRoom(db, o)
        decreases todo
      {
        var o :| o in todo;
        if Tally(counts, o) < db.options[o].capacity.value { assert OnSheet(db, poll, o) && HasRoom(db, o); return false; }
        todo := todo - {o};
      }
      assert exists o :: o in sheet && OnSheet(db, poll, o);
      full := true;
    }
  }
}
