/**
  Concurrent claims: the transactions of internal/polls/claims.go and RemoveParticipant as a state
  machine over READ COMMITTED row locks.

  A claim locks its slot row, then, unless it creates the participant, the participant's row.  An unclaim
  locks neither; a removal locks the participant's row by deleting it.  Writes stay invisible until their
  transaction commits, and any transaction may end without effect at any point.
 */
module ClaimProtocol {
  import opened Common
  import opened Claims

  type TxId = nat

  datatype Request =
    | ClaimRequest(poll: PollId, option: OptionId, who: Claimant)
    | UnclaimRequest(target: ParticipantId, slot: OptionId)
    | RemoveRequest(row: ParticipantId)

  /** How far a transaction has come, with what it has read.  Refused: the slot it locked is on another sheet;
      it holds the lock until it ends. */
  datatype Stage =
    | Begun
    | SlotRead
    | Resolved(acting: Acting)
    | VotesRead(acting: Acting, held: set<Key>)
    | Staged(effect: Effect)
    | Refused

  datatype Tx = Tx(request: Request, slotLock: Option<OptionId>, participantLock: Option<ParticipantId>, stage: Stage)

  /** drawn: every participant id ever drawn, with the sheet it was drawn for. */
  datatype State = State(db: Db, txs: map<TxId, Tx>, drawn: map<ParticipantId, PollId>)

  predicate SlotFree(s: State, o: OptionId) {
    forall t :: t in s.txs ==> s.txs[t].slotLock != Some(o)
  }

  predicate ParticipantFree(s: State, p: ParticipantId) {
    forall t :: t in s.txs ==> s.txs[t].participantLock != Some(p)
  }

  // ----- steps -----

  datatype Step =
    | Begin(tx: TxId, request: Request)
    | LockSlot(tx: TxId)
    | Resolve(tx: TxId, acting: Acting)
    | LockParticipant(tx: TxId)
    | ReadVotes(tx: TxId)
    | Decide(tx: TxId)
    | Commit(tx: TxId)
    | Abort(tx: TxId)
    | SetOpen(poll: PollId, open: bool)

  predicate OpenSheet(db: Db, poll: PollId) {
    poll in db.polls && db.polls[poll].signup && db.polls[poll].open
  }

  /** Whom a claim may turn out to act as: an existing row of the sheet, or a new one with an id never drawn. */
  ghost predicate MayActAs(s: State, r: Request, a: Acting)
    requires r.ClaimRequest?
  {
    if a.created then
      && a.participant !in s.drawn
      && (match r.who
          case Existing(_) => false
          case SignedIn(u) => a.user == Some(u) && forall p :: !RowOf(s.db, r.poll, u, p)
          case Guest => a.user == None)
    else
      && a.participant in s.db.participants && s.db.participants[a.participant].poll == r.poll
      && (match r.who
          case Existing(id) => a.participant == id
          case SignedIn(u) => RowOf(s.db, r.poll, u, a.participant)
          case Guest => false)
  }

  /** The row t locks next, if any: a claim's slot, then its participant; a removal's participant. */
  predicate NeedsSlot(t: Tx, o: OptionId) {
    t.request.ClaimRequest? && t.stage.Begun? && t.request.option == o
  }

  predicate NeedsParticipant(t: Tx, p: ParticipantId) {
    || (t.stage.Resolved? && !t.stage.acting.created && t.participantLock.None? && t.stage.acting.participant == p)
    || (t.request.RemoveRequest? && t.stage.Begun? && t.request.row == p)
  }

  function ParticipantNeeded(t: Tx): ParticipantId
    requires t.request.RemoveRequest? || t.stage.Resolved?
  {
    if t.request.RemoveRequest? then t.request.row else t.stage.acting.participant
  }

  ghost predicate Enabled(s: State, step: Step) {
    match step
    case Begin(tx, r) => tx !in s.txs && (r.ClaimRequest? ==> OpenSheet(s.db, r.poll))
    case LockSlot(tx) =>
      && tx in s.txs && s.txs[tx].request.ClaimRequest? && s.txs[tx].stage.Begun?
      && s.txs[tx].request.option in s.db.options && SlotFree(s, s.txs[tx].request.option)
    case Resolve(tx, a) => tx in s.txs && s.txs[tx].request.ClaimRequest? && s.txs[tx].stage.SlotRead? && MayActAs(s, s.txs[tx].request, a)
    case LockParticipant(tx) =>
      && tx in s.txs && (s.txs[tx].request.RemoveRequest? || s.txs[tx].stage.Resolved?)
      && var p := ParticipantNeeded(s.txs[tx]);
         NeedsParticipant(s.txs[tx], p) && p in s.db.participants && ParticipantFree(s, p)
    case ReadVotes(tx) =>
      && tx in s.txs && s.txs[tx].stage.Resolved?
      && (s.txs[tx].stage.acting.created || s.txs[tx].participantLock.Some?)
    case Decide(tx) =>
      && tx in s.txs
      && (if s.txs[tx].request.ClaimRequest? then s.txs[tx].stage.VotesRead? && Decision(s.db, s.txs[tx]).Some?
          else s.txs[tx].request.UnclaimRequest? && s.txs[tx].stage.Begun?)
    case Commit(tx) => tx in s.txs && s.txs[tx].stage.Staged?
    case Abort(tx) => tx in s.txs
    case SetOpen(poll, _) => poll in s.db.polls
  }

  /** The decision of a claim: its budget from the votes it read, its capacity counted now. */
  function Decision(db: Db, t: Tx): Option<Effect>
    requires t.request.ClaimRequest? && t.stage.VotesRead?
  {
    var r, a := t.request, t.stage.acting;
    if Key(a.participant, r.option) in t.stage.held then Some(NoChange)
    else if r.poll !in db.polls || |t.stage.held| >= db.polls[r.poll].maxClaims then None
    else if r.option !in db.options || !HasRoom(db, r.option) then None
    else Some(Grant(a.participant, a.created, a.user, r.poll, r.option))
  }

  function WithTx(s: State, tx: TxId, t: Tx): State {
    s.(txs := s.txs[tx := t])
  }

  ghost function Apply(s: State, step: Step): State
    requires Enabled(s, step)
  {
    match step
    case Begin(tx, r) => WithTx(s, tx, Tx(r, None, None, Begun))
    case LockSlot(tx) =>
      var t := s.txs[tx];
      WithTx(s, tx, t.(slotLock := Some(t.request.option),
                       stage := if OnSheet(s.db, t.request.poll, t.request.option) then SlotRead else Refused))
    case Resolve(tx, a) => WithTx(s, tx, s.txs[tx].(stage := Resolved(a)))
        .(drawn := if a.created then s.drawn[a.participant := s.txs[tx].request.poll] else s.drawn)
    case LockParticipant(tx) =>
      var t := s.txs[tx];
      var p := ParticipantNeeded(t);
      WithTx(s, tx, t.(participantLock := Some(p), stage := if t.request.RemoveRequest? then Staged(RemoveRow(p)) else t.stage))
    case ReadVotes(tx) =>
      var t := s.txs[tx];
      WithTx(s, tx, t.(stage := VotesRead(t.stage.acting, VotesOf(s.db, t.stage.acting.participant))))
    case Decide(tx) =>
      var t := s.txs[tx];
      WithTx(s, tx, t.(stage := Staged(if t.request.ClaimRequest? then Decision(s.db, t).value else Release(t.request.target, t.request.slot))))
    case Commit(tx) => s.(db := Committed(s.db, s.txs[tx].stage.effect), txs := s.txs - {tx})
    case Abort(tx) => s.(txs := s.txs - {tx})
    case SetOpen(poll, open) => s.(db := s.db.(polls := s.db.polls[poll := s.db.polls[poll].(open := open)]))
  }

  ghost predicate Next(s: State, s': State) {
    exists step :: Enabled(s, step) && s' == Apply(s, step)
  }

  /** Any stored sheets whose limits are kept, and no transaction under way. */
  ghost predicate Init(s: State) {
    s.txs == map[] && WithinLimits(s.db) && RowsWereDrawn(s)
  }

  ghost predicate Behavior(states: seq<State>) {
    && states != []
    && Init(states[0])
    && forall i :: 0 <= i < |states| - 1 ==> Next(states[i], states[i + 1])
  }

  // ----- the invariant -----

  ghost predicate RowsWereDrawn(s: State) {
    forall p :: p in s.db.participants ==> DrawnFor(s, p, s.db.participants[p].poll)
  }

  predicate DrawnFor(s: State, p: ParticipantId, poll: PollId) {
    p in s.drawn && s.drawn[p] == poll
  }

  ghost predicate LocksExclusive(s: State) {
    forall a, b :: a in s.txs && b in s.txs && a != b ==>
      && (s.txs[a].slotLock.Some? ==> s.txs[a].slotLock != s.txs[b].slotLock)
      && (s.txs[a].participantLock.Some? ==> s.txs[a].participantLock != s.txs[b].participantLock)
  }

  /** The participant a transaction will create, if any. */
  function NewRow(t: Tx): Option<ParticipantId> {
    match t.stage
    case Resolved(a) => if a.created then Some(a.participant) else None
    case VotesRead(a, _) => if a.created then Some(a.participant) else None
    case Staged(Grant(p, created, _, _, _)) => if created then Some(p) else None
    case _ => None
  }

  ghost predicate NewRowsDiffer(s: State) {
    forall a, b :: a in s.txs && b in s.txs && a != b && NewRow(s.txs[a]).Some? ==> NewRow(s.txs[a]) != NewRow(s.txs[b])
  }

  /** t alone may give participant a further votes: it holds the row's lock, or the row is its own to create. */
  ghost predicate OwnsParticipant(s: State, t: Tx, a: Acting, poll: PollId) {
    && DrawnFor(s, a.participant, poll)
    && (if a.created then a.participant !in s.db.participants
        else t.participantLock == Some(a.participant) && a.participant in s.db.participants)
  }

  /** A newcomer's row is for the user who claims, or for nobody. */
  predicate ActsForCaller(t: Tx, a: Acting) {
    a.created && t.request.ClaimRequest? ==> a.user == if t.request.who.SignedIn? then Some(t.request.who.user) else None
  }

  /** t alone may give its slot further votes. */
  ghost predicate OwnsSlot(s: State, t: Tx) {
    t.request.ClaimRequest? && t.slotLock == Some(t.request.option) && OnSheet(s.db, t.request.poll, t.request.option)
  }

  ghost predicate StageIsSound(s: State, t: Tx) {
    && (t.request.ClaimRequest? ==> t.request.poll in s.db.polls)
    && (t.participantLock.Some? ==> t.participantLock.value in s.db.participants)
    && match t.stage
       case Begun => t.slotLock.None? && t.participantLock.None?
       case SlotRead => OwnsSlot(s, t) && t.participantLock.None?
       case Resolved(a) =>
         && OwnsSlot(s, t) && ActsForCaller(t, a)
         && DrawnFor(s, a.participant, t.request.poll)
         && (a.created || t.participantLock.Some? ==> OwnsParticipant(s, t, a, t.request.poll))
       case VotesRead(a, held) =>
         OwnsSlot(s, t) && ActsForCaller(t, a) && OwnsParticipant(s, t, a, t.request.poll) && VotesOf(s.db, a.participant) <= held
       case Staged(Grant(p, created, user, poll, o)) =>
         && OwnsSlot(s, t) && ActsForCaller(t, Acting(p, created, user)) && OwnsParticipant(s, t, Acting(p, created, user), poll)
         && poll == t.request.poll && o == t.request.option
         && MayGrant(s.db, t.stage.effect)
       case Staged(RemoveRow(p)) => t.participantLock == Some(p)
       case Staged(_) => true
       case Refused => t.participantLock.None?
  }

  ghost predicate Inv(s: State) {
    && WithinLimits(s.db)
    && RowsWereDrawn(s)
    && LocksExclusive(s)
    && NewRowsDiffer(s)
    && forall t :: t in s.txs ==> StageIsSound(s, s.txs[t])
  }

  // ----- stability: what other transactions cannot disturb -----

  /** p's row stays as it is and gains no votes. */
  ghost predicate RowQuiet(db: Db, db': Db, p: ParticipantId) {
    && (p in db.participants <==> p in db'.participants)
    && VotesOf(db', p) <= VotesOf(db, p)
  }

  /** From s to s' nobody adds votes to the slot or participant that t owns, or takes the participant away. */
  ghost predicate QuietFor(s: State, s': State, t: Tx) {
    && (forall p :: p in s.drawn ==> DrawnFor(s', p, s.drawn[p]))
    && (forall q :: q in s.db.polls ==> q in s'.db.polls && s'.db.polls[q].maxClaims == s.db.polls[q].maxClaims)
    && s'.db.options == s.db.options
    && (t.slotLock.Some? ==> YesFor(s'.db, t.slotLock.value) <= YesFor(s.db, t.slotLock.value))
    && (t.participantLock.Some? ==> RowQuiet(s.db, s'.db, t.participantLock.value))
    && (NewRow(t).Some? ==> RowQuiet(s.db, s'.db, NewRow(t).value))
  }

  lemma VotesFollow(db: Db, db': Db, p: ParticipantId)
    requires VotesOf(db', p) <= VotesOf(db, p)
    ensures forall o :: Key(p, o) in db'.votes ==> Key(p, o) in db.votes && Key(p, o) in VotesOf(db, p)
  {
    forall o | Key(p, o) in db'.votes ensures Key(p, o) in VotesOf(db, p) {
      assert Key(p, o) in VotesOf(db', p);
    }
  }

  lemma GrantStaysSafe(s: State, s': State, t: Tx)
    requires StageIsSound(s, t) && QuietFor(s, s', t) && RowsWereDrawn(s') && t.stage.Staged? && t.stage.effect.Grant?
    ensures StageIsSound(s', t)
  {
    var e := t.stage.effect;
    SubsetIsSmaller(YesFor(s'.db, e.option), YesFor(s.db, e.option));
    SubsetIsSmaller(VotesOf(s'.db, e.participant), VotesOf(s.db, e.participant));
    VotesFollow(s.db, s'.db, e.participant);
  }

  lemma QuietKeepsStage(s: State, s': State, t: Tx)
    requires StageIsSound(s, t) && QuietFor(s, s', t) && RowsWereDrawn(s')
    ensures StageIsSound(s', t)
  {
    if t.stage.Staged? && t.stage.effect.Grant? {
      GrantStaysSafe(s, s', t);
    }
  }

  // ----- each kind of step -----

  lemma GrantIsQuiet(db: Db, e: Effect, p: ParticipantId, o: OptionId)
    requires e.Grant?
    ensures p != e.participant ==> RowQuiet(db, Committed(db, e), p)
    ensures o != e.option ==> YesFor(Committed(db, e), o) <= YesFor(db, o)
  {
  }

  lemma CommitIsQuietForOthers(s: State, tx: TxId, other: TxId)
    requires Inv(s) && Enabled(s, Commit(tx)) && other in s.txs && other != tx
    ensures QuietFor(s, Apply(s, Commit(tx)), s.txs[other])
  {
    var t, u := s.txs[tx], s.txs[other];
    assert StageIsSound(s, t) && StageIsSound(s, u);
    var e := t.stage.effect;
    if e.Grant? {
      assert NewRow(u).Some? ==> NewRow(u).value != e.participant;
      assert u.participantLock != Some(e.participant);
      forall p, o { GrantIsQuiet(s.db, e, p, o); }
    }
  }

  lemma CommitKeepsInvariant(s: State, tx: TxId)
    requires Inv(s) && Enabled(s, Commit(tx))
    ensures Inv(Apply(s, Commit(tx)))
  {
    var s' := Apply(s, Commit(tx));
    var t := s.txs[tx];
    assert StageIsSound(s, t);
    if t.stage.effect.Grant? {
      GrantKeepsLimits(s.db, t.stage.effect);
    } else {
      ShrinkingKeepsLimits(s.db, t.stage.effect);
    }
    forall other | other in s'.txs ensures StageIsSound(s', s'.txs[other]) {
      CommitIsQuietForOthers(s, tx, other);
      QuietKeepsStage(s, s', s.txs[other]);
    }
  }

  lemma DecisionIsSound(s: State, tx: TxId)
    requires Inv(s) && Enabled(s, Decide(tx))
    ensures StageIsSound(Apply(s, Decide(tx)), Apply(s, Decide(tx)).txs[tx])
  {
    var t := s.txs[tx];
    assert StageIsSound(s, t);
    if t.request.ClaimRequest? {
      var a := t.stage.acting;
      SubsetIsSmaller(VotesOf(s.db, a.participant), t.stage.held);
      VotesFollow(s.db, s.db, a.participant);
    }
  }

  /** A step that only moves one transaction along. */
  predicate Local(step: Step) {
    !step.Commit? && !step.SetOpen?
  }

  lemma ActorStaysSound(s: State, step: Step)
    requires Inv(s) && Enabled(s, step) && Local(step) && !step.Abort? && !step.Decide?
    ensures step.tx in Apply(s, step).txs && StageIsSound(Apply(s, step), Apply(s, step).txs[step.tx])
  {
    if !step.Begin? {
      assert StageIsSound(s, s.txs[step.tx]);
    }
  }

  lemma LocalStepKeepsLocks(s: State, step: Step)
    requires Inv(s) && Enabled(s, step) && Local(step)
    ensures LocksExclusive(Apply(s, step))
  {
    if !step.Begin? {
      assert StageIsSound(s, s.txs[step.tx]);
    }
  }

  /** Only resolving the claimant as a newcomer gives a transaction a row to create. */
  lemma NewRowIsOld(s: State, step: Step)
    requires Enabled(s, step) && Local(step) && !(step.Resolve? && step.acting.created)
    ensures forall t :: t in Apply(s, step).txs && NewRow(Apply(s, step).txs[t]).Some? ==>
      t in s.txs && NewRow(Apply(s, step).txs[t]) == NewRow(s.txs[t])
  {
  }

  lemma NewcomerIsNew(s: State, step: Step)
    requires Inv(s) && Enabled(s, step) && step.Resolve? && step.acting.created
    ensures forall t :: t in s.txs ==> NewRow(s.txs[t]) != Some(step.acting.participant)
    ensures NewRow(Apply(s, step).txs[step.tx]) == Some(step.acting.participant)
  {
    forall t | t in s.txs ensures NewRow(s.txs[t]) != Some(step.acting.participant) {
      assert StageIsSound(s, s.txs[t]);
    }
  }

  lemma LocalStepKeepsNewRows(s: State, step: Step)
    requires Inv(s) && Enabled(s, step) && Local(step)
    ensures NewRowsDiffer(Apply(s, step))
  {
    if step.Resolve? && step.acting.created {
      NewcomerIsNew(s, step);
    } else {
      NewRowIsOld(s, step);
    }
  }

  lemma LocalStepKeepsStage(s: State, step: Step, tx: TxId)
    requires Inv(s) && Enabled(s, step) && Local(step) && tx in Apply(s, step).txs
    ensures StageIsSound(Apply(s, step), Apply(s, step).txs[tx])
  {
    if tx != step.tx {
      QuietKeepsStage(s, Apply(s, step), s.txs[tx]);
    } else if step.Decide? {
      DecisionIsSound(s, tx);
    } else {
      ActorStaysSound(s, step);
    }
  }

  lemma LocalStepKeepsInvariant(s: State, step: Step)
    requires Inv(s) && Enabled(s, step) && Local(step)
    ensures Inv(Apply(s, step))
  {
    LocalStepKeepsLocks(s, step);
    LocalStepKeepsNewRows(s, step);
    forall tx | tx in Apply(s, step).txs ensures StageIsSound(Apply(s, step), Apply(s, step).txs[tx]) {
      LocalStepKeepsStage(s, step, tx);
    }
  }

  lemma SetOpenKeepsInvariant(s: State, step: Step)
    requires Inv(s) && Enabled(s, step) && step.SetOpen?
    ensures Inv(Apply(s, step))
  {
    var s' := Apply(s, step);
    forall p ensures VotesOf(s'.db, p) == VotesOf(s.db, p) {}
    forall o ensures YesFor(s'.db, o) == YesFor(s.db, o) {}
    forall other | other in s'.txs ensures StageIsSound(s', s'.txs[other]) {
      QuietKeepsStage(s, s', s.txs[other]);
    }
  }

  lemma StepKeepsInvariant(s: State, step: Step)
    requires Inv(s) && Enabled(s, step)
    ensures Inv(Apply(s, step))
  {
    match step
    case Commit(tx) => CommitKeepsInvariant(s, tx);
    case SetOpen(_, _) => SetOpenKeepsInvariant(s, step);
    case _ => LocalStepKeepsInvariant(s, step);
  }

  lemma {:induction false} InvariantHolds(states: seq<State>, i: nat)
    requires Behavior(states) && i < |states|
    ensures Inv(states[i])
  {
    if i > 0 {
      InvariantHolds(states, i - 1);
      assert Next(states[i - 1], states[i]);
      var step :| Enabled(states[i - 1], step) && states[i] == Apply(states[i - 1], step);
      StepKeepsInvariant(states[i - 1], step);
    }
  }

  /** The rows that a commit writes: a claim adds its vote and, for a newcomer, its participant; an unclaim takes away
      exactly its vote; a removal the row and all its votes; and nothing else changes. */
  lemma CommitWritesWhatWasStaged(s: State, step: Step)
    requires Inv(s) && Enabled(s, step) && step.Commit?
    ensures var db, db' := s.db, Apply(s, step).db;
      && db'.polls == db.polls && db'.options == db.options
      && match s.txs[step.tx].stage.effect
         case Grant(p, created, user, poll, o) =>
           && Key(p, o) !in db.votes && db'.votes == db.votes[Key(p, o) := Yes]
           && (created ==> p !in db.participants && db'.participants == db.participants[p := Participant(poll, user)])
           && (!created ==> db'.participants == db.participants)
         case Release(p, o) =>
           && Key(p, o) !in db'.votes && db'.participants == db.participants
           && (forall k :: k != Key(p, o) ==> (k in db'.votes <==> k in db.votes))
           && (forall k :: k in db'.votes ==> db'.votes[k] == db.votes[k])
         case RemoveRow(p) =>
           && db'.participants == db.participants - {p}
           && (forall k :: k in db'.votes <==> k in db.votes && k.participant != p)
           && (forall k :: k in db'.votes ==> db'.votes[k] == db.votes[k])
         case NoChange => db' == db
  {
    assert StageIsSound(s, s.txs[step.tx]);
  }

  /** In any interleaving, the commit of an unclaim or a removal leaves room in every slot of which it takes a yes. */
  lemma CommitOfReleaseMakesRoom(s: State, step: Step, k: Key)
    requires Inv(s) && Enabled(s, step) && step.Commit?
    requires k in s.db.votes && s.db.votes[k].Yes? && k !in Apply(s, step).db.votes
    ensures k.option in s.db.options && HasRoom(Apply(s, step).db, k.option)
    ensures !Full(Apply(s, step).db, s.db.options[k.option].poll)
  {
    CommitWritesWhatWasStaged(s, step);
    ReleasingMakesRoom(s.db, s.txs[step.tx].stage.effect, k.option, k);
  }

  // ----- what holds in every run -----

  /** In every interleaving, no slot is ever given to more participants than it has places. */
  lemma CapacityNeverExceeded(states: seq<State>, i: nat, o: OptionId)
    requires Behavior(states) && i < |states| && o in states[i].db.options && states[i].db.options[o].capacity.Some?
    ensures |YesFor(states[i].db, o)| <= states[i].db.options[o].capacity.value
  {
    InvariantHolds(states, i);
  }

  /** In every interleaving, no participant row ever holds more slots than its sheet allows. */
  lemma BudgetNeverExceeded(states: seq<State>, i: nat, p: ParticipantId)
    requires Behavior(states) && i < |states|
    requires p in states[i].db.participants && states[i].db.participants[p].poll in states[i].db.polls
    ensures |VotesOf(states[i].db, p)| <= states[i].db.polls[states[i].db.participants[p].poll].maxClaims
  {
    InvariantHolds(states, i);
  }

  /** Once a slot is full, no claim on it is waiting to be committed: the last place has one winner. */
  lemma LastPlaceHasOneWinner(states: seq<State>, i: nat, a: TxId, b: TxId)
    requires Behavior(states) && i < |states| && a in states[i].txs && b in states[i].txs
    requires states[i].txs[a].stage.Staged? && states[i].txs[b].stage.Staged?
    requires states[i].txs[a].stage.effect.Grant? && states[i].txs[b].stage.effect.Grant?
    ensures states[i].txs[a].stage.effect.option in states[i].db.options
    ensures HasRoom(states[i].db, states[i].txs[a].stage.effect.option)
    ensures a != b ==> states[i].txs[a].stage.effect.option != states[i].txs[b].stage.effect.option
  {
    InvariantHolds(states, i);
    assert StageIsSound(states[i], states[i].txs[a]) && StageIsSound(states[i], states[i].txs[b]);
  }

  // ----- no deadlock -----

  /** Some row lock that t's next statement needs is held by another transaction. */
  ghost predicate Waits(s: State, t: Tx) {
    (exists o :: NeedsSlot(t, o) && !SlotFree(s, o)) || (exists p :: NeedsParticipant(t, p) && !ParticipantFree(s, p))
  }

  /** Locks are always taken slot first, participant second: among any transactions under way, at least
      one is not waiting for a lock. */
  lemma NoDeadlock(s: State, t: TxId) returns (runner: TxId)
    requires Inv(s) && t in s.txs
    ensures runner in s.txs && !Waits(s, s.txs[runner])
  {
    runner := t;
    if exists o :: NeedsSlot(s.txs[runner], o) && !SlotFree(s, o) {
      var o :| NeedsSlot(s.txs[runner], o) && !SlotFree(s, o);
      runner :| runner in s.txs && s.txs[runner].slotLock == Some(o);
      assert StageIsSound(s, s.txs[runner]);
    }
    if exists p :: NeedsParticipant(s.txs[runner], p) && !ParticipantFree(s, p) {
      var p :| NeedsParticipant(s.txs[runner], p) && !ParticipantFree(s, p);
      runner :| runner in s.txs && s.txs[runner].participantLock == Some(p);
    }
  }

  // ----- paths of the machine -----

  ghost predicate Path(states: seq<State>) {
    && states != []
    && forall i :: 0 <= i < |states| - 1 ==> Next(states[i], states[i + 1])
  }

  lemma Moves(s: State, step: Step)
    requires Enabled(s, step)
    ensures Next(s, Apply(s, step))
  {
  }

  lemma PathsJoin(a: seq<State>, b: seq<State>)
    requires Path(a) && Path(b) && a[|a| - 1] == b[0]
    ensures Path(a + b[1..]) && (a + b[1..])[0] == a[0] && (a + b[1..])[|a + b[1..]| - 1] == b[|b| - 1]
  {
    var c := a + b[1..];
    forall i | 0 <= i < |c| - 1 ensures Next(c[i], c[i + 1]) {
      if i >= |a| - 1 {
        assert c[i] == b[i - (|a| - 1)] && c[i + 1] == b[i + 1 - (|a| - 1)];
      }
    }
  }

  lemma ClaimTakesSlot(s: State, tx: TxId, poll: PollId, o: OptionId, who: Claimant) returns (s1: State, s2: State)
    requires tx !in s.txs && OpenSheet(s.db, poll) && OnSheet(s.db, poll, o) && SlotFree(s, o)
    ensures Next(s, s1) && Next(s1, s2)
    ensures s2 == WithTx(s, tx, Tx(ClaimRequest(poll, o, who), Some(o), None, SlotRead))
  {
    var r := ClaimRequest(poll, o, who);
    Moves(s, Begin(tx, r));
    s1 := Apply(s, Begin(tx, r));
    Moves(s1, LockSlot(tx));
    s2 := Apply(s1, LockSlot(tx));
  }

  lemma ClaimResolves(s: State, tx: TxId, poll: PollId, o: OptionId, who: Claimant, a: Acting) returns (path: seq<State>)
    requires tx !in s.txs && OpenSheet(s.db, poll) && OnSheet(s.db, poll, o) && SlotFree(s, o)
    requires MayActAs(s, ClaimRequest(poll, o, who), a)
    ensures Path(path) && path[0] == s
    ensures path[|path| - 1] ==
      WithTx(s, tx, Tx(ClaimRequest(poll, o, who), Some(o), None, Resolved(a))).(drawn := if a.created then s.drawn[a.participant := poll] else s.drawn)
  {
    var s1, s2 := ClaimTakesSlot(s, tx, poll, o, who);
    Moves(s2, Resolve(tx, a));
    path := [s, s1, s2, Apply(s2, Resolve(tx, a))];
  }

  lemma ClaimLocks(s: State, tx: TxId) returns (path: seq<State>)
    requires tx in s.txs && s.txs[tx].request.ClaimRequest? && s.txs[tx].stage.Resolved? && s.txs[tx].participantLock.None?
    requires var a := s.txs[tx].stage.acting; !a.created ==> a.participant in s.db.participants && ParticipantFree(s, a.participant)
    ensures Path(path) && path[0] == s
    ensures var a := s.txs[tx].stage.acting;
      path[|path| - 1] == WithTx(s, tx, s.txs[tx].(participantLock := if a.created then None else Some(a.participant)))
  {
    if s.txs[tx].stage.acting.created {
      path := [s];
    } else {
      Moves(s, LockParticipant(tx));
      path := [s, Apply(s, LockParticipant(tx))];
    }
  }

  lemma ClaimDecides(s: State, tx: TxId, e: Effect) returns (path: seq<State>)
    requires tx in s.txs && s.txs[tx].request.ClaimRequest? && s.txs[tx].stage.Resolved?
    requires s.txs[tx].stage.acting.created || s.txs[tx].participantLock.Some?
    requires OpenSheet(s.db, s.txs[tx].request.poll) && OnSheet(s.db, s.txs[tx].request.poll, s.txs[tx].request.option)
    requires Decided(s.db, s.txs[tx].request.poll, s.txs[tx].request.option, s.txs[tx].stage.acting) == Ok(e)
    ensures Path(path) && path[0] == s
    ensures path[|path| - 1] == WithTx(s, tx, s.txs[tx].(stage := Staged(e)))
  {
    var a := s.txs[tx].stage.acting;
    VotesFollow(s.db, s.db, a.participant);
    Moves(s, ReadVotes(tx));
    var s1 := WithTx(s, tx, s.txs[tx].(stage := VotesRead(a, VotesOf(s.db, a.participant))));
    assert s1 == Apply(s, ReadVotes(tx));
    Moves(s1, Decide(tx));
    path := [s, s1, Apply(s1, Decide(tx))];
  }

  /** A claim, undisturbed, up to the point where only its commit is left. */
  lemma ClaimStages(s: State, tx: TxId, poll: PollId, o: OptionId, who: Claimant, a: Acting, e: Effect) returns (path: seq<State>)
    requires tx !in s.txs && OpenSheet(s.db, poll) && OnSheet(s.db, poll, o) && SlotFree(s, o)
    requires MayActAs(s, ClaimRequest(poll, o, who), a) && (!a.created ==> ParticipantFree(s, a.participant))
    requires Decided(s.db, poll, o, a) == Ok(e)
    ensures Path(path) && path[0] == s
    ensures path[|path| - 1] ==
      WithTx(s, tx, Tx(ClaimRequest(poll, o, who), Some(o), if a.created then None else Some(a.participant), Staged(e)))
        .(drawn := if a.created then s.drawn[a.participant := poll] else s.drawn)
  {
    var first := ClaimResolves(s, tx, poll, o, who, a);
    var second := ClaimLocks(first[|first| - 1], tx);
    var third := ClaimDecides(second[|second| - 1], tx, e);
    PathsJoin(first, second);
    PathsJoin(first + second[1..], third);
    path := first + second[1..] + third[1..];
  }

  /** The service's own Claim, run without interference, is a path of the machine. */
  lemma ClaimIsAPath(s: State, tx: TxId, poll: PollId, o: OptionId, who: Claimant, authorised: bool, named: bool, mailed: bool,
                     newId: ParticipantId, c: Result<Acting, Error>, r: Result<Effect, Error>) returns (path: seq<State>)
    requires tx !in s.txs && SlotFree(s, o) && newId !in s.drawn
    requires ClaimOutcome(s.db, poll, o, who, authorised, named, mailed, newId, c, r) && r.Ok?
    requires c.Ok? ==> ParticipantFree(s, c.value.participant)
    ensures Path(path) && path[0] == s && path[|path| - 1].db == Committed(s.db, r.value)
  {
    var first := ClaimStages(s, tx, poll, o, who, c.value, r.value);
    var last := first[|first| - 1];
    Moves(last, Commit(tx));
    var second := [last, Apply(last, Commit(tx))];
    PathsJoin(first, second);
    path := first + second[1..];
  }

  /** So are an unclaim and a removal, which leave nothing of the vote, or of the row and its votes. */
  lemma UnclaimIsAPath(s: State, tx: TxId, p: ParticipantId, o: OptionId) returns (path: seq<State>)
    requires tx !in s.txs
    ensures Path(path) && path[0] == s
    ensures path[|path| - 1].db == s.db.(votes := s.db.votes - {Key(p, o)}) && path[|path| - 1].txs == s.txs
  {
    var s1 := Apply(s, Begin(tx, UnclaimRequest(p, o)));
    var s2 := Apply(s1, Decide(tx));
    Moves(s, Begin(tx, UnclaimRequest(p, o)));
    Moves(s1, Decide(tx));
    Moves(s2, Commit(tx));
    path := [s, s1, s2, Apply(s2, Commit(tx))];
  }

  lemma RemovalIsAPath(s: State, tx: TxId, p: ParticipantId) returns (path: seq<State>)
    requires tx !in s.txs && p in s.db.participants && ParticipantFree(s, p)
    ensures Path(path) && path[0] == s
    ensures var db := path[|path| - 1].db;
      && p !in db.participants && VotesOf(db, p) == {}
      && forall q :: q != p ==> VotesOf(db, q) == VotesOf(s.db, q) && (q in db.participants <==> q in s.db.participants)
  {
    var s1 := Apply(s, Begin(tx, RemoveRequest(p)));
    var s2 := Apply(s1, LockParticipant(tx));
    Moves(s, Begin(tx, RemoveRequest(p)));
    Moves(s1, LockParticipant(tx));
    Moves(s2, Commit(tx));
    path := [s, s1, s2, Apply(s2, Commit(tx))];
  }

  /** Two places, one claim each allowed, nobody on the sheet. */
  function EmptySheet(): Db {
    Db(map["sheet" := Poll(true, true, 1, false)], map["early" := Slot("sheet", Some(1)), "late" := Slot("sheet", Some(1))], map[], map[])
  }

  function StagedFor(u: UserId, o: OptionId, p: ParticipantId): Tx {
    Tx(ClaimRequest("sheet", o, SignedIn(u)), Some(o), None, Staged(Grant(p, true, Some(u), "sheet", o)))
  }

  lemma BothCommit(u: UserId, drawn: map<ParticipantId, PollId>) returns (path: seq<State>)
    ensures Path(path)
    ensures path[0] == State(EmptySheet(), map[0 := StagedFor(u, "early", "one"), 1 := StagedFor(u, "late", "two")], drawn)
    ensures var db := path[|path| - 1].db;
      && db.polls == EmptySheet().polls
      && RowOf(db, "sheet", u, "one") && RowOf(db, "sheet", u, "two")
      && Key("one", "early") in db.votes && Key("two", "late") in db.votes
  {
    var s := State(EmptySheet(), map[0 := StagedFor(u, "early", "one"), 1 := StagedFor(u, "late", "two")], drawn);
    var s1 := Apply(s, Commit(0));
    Moves(s, Commit(0));
    Moves(s1, Commit(1));
    path := [s, s1, Apply(s1, Commit(1))];
  }

  // ----- one budget for one person -----

  /** Under way in t: a claim by user u that will create a row on the sheet. */
  predicate Creates(t: Tx, poll: PollId, u: UserId) {
    t.request.ClaimRequest? && t.request.poll == poll && t.request.who == SignedIn(u) && NewRow(t).Some?
  }

  /** Row q of user u appears on the sheet from s to s'. */
  predicate Appears(s: State, s': State, poll: PollId, u: UserId, q: ParticipantId) {
    !RowOf(s.db, poll, u, q) && RowOf(s'.db, poll, u, q)
  }

  /** Rows appear only when a claim that creates them commits. */
  lemma RowsAppearByCommit(s: State, step: Step, poll: PollId, u: UserId, q: ParticipantId)
    requires Inv(s) && Enabled(s, step) && Appears(s, Apply(s, step), poll, u, q)
    ensures step.Commit? && Creates(s.txs[step.tx], poll, u) && NewRow(s.txs[step.tx]) == Some(q)
  {
    if step.Commit? {
      assert StageIsSound(s, s.txs[step.tx]);
    }
  }

  /** The first state from i on in which a row that is there at j, and was not at i, had just appeared. */
  lemma {:induction false} RowAppearedBetween(states: seq<State>, i: nat, j: nat, poll: PollId, u: UserId, q: ParticipantId) returns (k: nat)
    requires i < j < |states| && !RowOf(states[i].db, poll, u, q) && RowOf(states[j].db, poll, u, q)
    ensures i <= k < j && Appears(states[k], states[k + 1], poll, u, q)
    decreases j
  {
    if RowOf(states[j - 1].db, poll, u, q) {
      k := RowAppearedBetween(states, i, j - 1, poll, u, q);
    } else {
      k := j - 1;
    }
  }

  ghost predicate TwoRows(db: Db, poll: PollId, u: UserId) {
    exists p, q :: p != q && RowOf(db, poll, u, p) && RowOf(db, poll, u, q)
  }

  /** Between states i and j a row of u was committed that is still there at j. */
  ghost predicate RowCommittedBetween(states: seq<State>, i: nat, j: nat, poll: PollId, u: UserId)
    requires i <= j < |states|
  {
    exists k, q :: i <= k < j && Appears(states[k], states[k + 1], poll, u, q) && RowOf(states[j].db, poll, u, q)
  }

  /** tx resolves at i as a newcomer for u, and is at j about to commit the row it creates. */
  ghost predicate CreatingRun(states: seq<State>, i: nat, j: nat, tx: TxId, a: Acting, poll: PollId, u: UserId)
    requires i < j < |states|
  {
    && Enabled(states[i], Resolve(tx, a)) && a.created && a.user == Some(u)
    && states[i].txs[tx].request.poll == poll
    && tx in states[j].txs && states[j].txs[tx].stage.Staged? && states[j].txs[tx].stage.effect.Grant?
    && states[j].txs[tx].stage.effect.participant == a.participant && states[j].txs[tx].stage.effect.created
    && states[j].txs[tx].stage.effect.user == Some(u) && states[j].txs[tx].stage.effect.poll == poll
  }

  lemma NewcomerAddsItsRow(s: State, tx: TxId)
    requires Inv(s) && Enabled(s, Commit(tx)) && s.txs[tx].stage.effect.Grant? && s.txs[tx].stage.effect.created
    ensures var e, db' := s.txs[tx].stage.effect, Apply(s, Commit(tx)).db;
      && (e.user.Some? ==> RowOf(db', e.poll, e.user.value, e.participant))
      && e.participant !in s.db.participants
      && forall poll, u, p :: p != e.participant ==> (RowOf(db', poll, u, p) <==> RowOf(s.db, poll, u, p))
  {
    assert StageIsSound(s, s.txs[tx]);
  }

  /** Committing a newcomer's row leaves its user with two rows on the sheet if and only if another row of
      that user was committed since the claim looked for one, and is still there. */
  lemma SecondRowIffCommittedBetween(states: seq<State>, i: nat, j: nat, tx: TxId, a: Acting, poll: PollId, u: UserId)
    requires Behavior(states) && i < j < |states| && CreatingRun(states, i, j, tx, a, poll, u)
    ensures Enabled(states[j], Commit(tx))
    ensures TwoRows(Apply(states[j], Commit(tx)).db, poll, u) <==> RowCommittedBetween(states, i, j, poll, u)
  {
    InvariantHolds(states, i);
    InvariantHolds(states, j);
    NewcomerAddsItsRow(states[j], tx);
    assert forall p :: !RowOf(states[i].db, poll, u, p);
    if TwoRows(Apply(states[j], Commit(tx)).db, poll, u) {
      var other :| other != a.participant && RowOf(states[j].db, poll, u, other);
      var k := RowAppearedBetween(states, i, j, poll, u, other);
    }
  }

  /** No two claims by one user are creating a row on one sheet at the same time. */
  ghost predicate NewcomersDoNotRace(s: State) {
    forall a, b, poll, u :: a in s.txs && b in s.txs && Creates(s.txs[a], poll, u) && Creates(s.txs[b], poll, u) ==> a == b
  }

  ghost predicate OneRowEach(db: Db) {
    forall poll, u, p, q :: RowOf(db, poll, u, p) && RowOf(db, poll, u, q) ==> p == q
  }

  ghost predicate NewcomersHaveNoRow(s: State) {
    forall t, poll, u, p :: t in s.txs && Creates(s.txs[t], poll, u) ==> !RowOf(s.db, poll, u, p)
  }

  lemma NewcomerStartsWithoutRow(s: State, step: Step, t: TxId, poll: PollId, u: UserId, p: ParticipantId)
    requires Inv(s) && Enabled(s, step) && !step.Commit? && t in Apply(s, step).txs && Creates(Apply(s, step).txs[t], poll, u)
    requires t in s.txs && Creates(s.txs[t], poll, u) ==> !RowOf(s.db, poll, u, p)
    ensures !RowOf(Apply(s, step).db, poll, u, p)
  {
  }

  lemma StepKeepsOneRowEach(s: State, step: Step)
    requires Inv(s) && Enabled(s, step) && NewcomersDoNotRace(s) && OneRowEach(s.db) && NewcomersHaveNoRow(s)
    ensures OneRowEach(Apply(s, step).db) && NewcomersHaveNoRow(Apply(s, step))
  {
    var s' := Apply(s, step);
    forall poll, u, p, q | RowOf(s'.db, poll, u, p) && RowOf(s'.db, poll, u, q) ensures p == q {
      if Appears(s, s', poll, u, p) {
        RowsAppearByCommit(s, step, poll, u, p);
      }
      if Appears(s, s', poll, u, q) {
        RowsAppearByCommit(s, step, poll, u, q);
      }
    }
    forall t, poll, u, p | t in s'.txs && Creates(s'.txs[t], poll, u) ensures !RowOf(s'.db, poll, u, p) {
      if !step.Commit? {
        NewcomerStartsWithoutRow(s, step, t, poll, u, p);
      } else if Appears(s, s', poll, u, p) {
        RowsAppearByCommit(s, step, poll, u, p);
      }
    }
  }

  /** If no two claims by one user ever create a row on one sheet at the same time, every user keeps to one row
      on every sheet. */
  lemma {:induction false} UsersWithoutRacesHaveOneRow(states: seq<State>, i: nat)
    requires Behavior(states) && i < |states| && OneRowEach(states[0].db)
    requires forall m :: 0 <= m < i ==> NewcomersDoNotRace(states[m])
    ensures OneRowEach(states[i].db) && NewcomersHaveNoRow(states[i])
  {
    if i > 0 {
      UsersWithoutRacesHaveOneRow(states, i - 1);
      InvariantHolds(states, i - 1);
      assert Next(states[i - 1], states[i]);
      var step :| Enabled(states[i - 1], step) && states[i] == Apply(states[i - 1], step);
      StepKeepsOneRowEach(states[i - 1], step);
    }
  }

  /** The slots user u holds on the sheet, through whatever rows. */
  function HeldByUser(db: Db, poll: PollId, u: UserId): set<Key> {
    set k | k in db.votes && RowOf(db, poll, u, k.participant)
  }

  /** And so, by one budget of slots. */
  lemma UsersWithoutRacesKeepOneBudget(states: seq<State>, i: nat, poll: PollId, u: UserId)
    requires Behavior(states) && i < |states| && OneRowEach(states[0].db)
    requires forall m :: 0 <= m < i ==> NewcomersDoNotRace(states[m])
    requires poll in states[i].db.polls
    ensures |HeldByUser(states[i].db, poll, u)| <= states[i].db.polls[poll].maxClaims
  {
    var db := states[i].db;
    UsersWithoutRacesHaveOneRow(states, i);
    if p :| RowOf(db, poll, u, p) {
      assert HeldByUser(db, poll, u) == VotesOf(db, p);
      BudgetNeverExceeded(states, i, p);
    } else {
      assert HeldByUser(db, poll, u) == {};
    }
  }

  /** The budget is one of participant rows, not of people: a signed-in user whose first two claims race
      gets two rows, and so two claims on a sheet that allows one. */
  lemma RacingUserGetsTwoRows(u: UserId) returns (states: seq<State>)
    ensures Behavior(states)
    ensures var db := states[|states| - 1].db;
      && db.polls == EmptySheet().polls
      && RowOf(db, "sheet", u, "one") && RowOf(db, "sheet", u, "two")
      && Key("one", "early") in db.votes && Key("two", "late") in db.votes
  {
    var s := State(EmptySheet(), map[], map[]);
    assert YesFor(s.db, "early") == {} && YesFor(s.db, "late") == {};
    assert VotesOf(s.db, "one") == {} && VotesOf(s.db, "two") == {};
    var first := ClaimStages(s, 0, "sheet", "early", SignedIn(u), Acting("one", true, Some(u)), Grant("one", true, Some(u), "sheet", "early"));
    var t := first[|first| - 1];
    var second := ClaimStages(t, 1, "sheet", "late", SignedIn(u), Acting("two", true, Some(u)), Grant("two", true, Some(u), "sheet", "late"));
    var third := BothCommit(u, second[|second| - 1].drawn);
    PathsJoin(first, second);
    PathsJoin(first + second[1..], third);
    states := first + second[1..] + third[1..];
  }
}
