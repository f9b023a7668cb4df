/**
  When a sign-up sheet is announced as full: the check after every changed claim
  (internal/polls/handlers.go:862-872) against the stored flag it replaces, as
  internal/polls/claims.go:455-473 describes it.
 */
module Announcements {
  import opened Common
  import opened Claims

  /** One call on the sheet, by what it did: a claim that was refused changes nothing. */
  datatype Event = ClaimCall(effect: Option<Effect>) | UnclaimCall(participant: ParticipantId, option: OptionId) | RemoveCall(row: ParticipantId)

  predicate Changed(e: Event) {
    e.ClaimCall? && e.effect.Some? && e.effect.value.Grant?
  }

  ghost predicate Happens(db: Db, poll: PollId, e: Event, db': Db) {
    match e
    case ClaimCall(None) => db' == db
    case ClaimCall(Some(x)) =>
      && (x.NoChange? || (x.Grant? && x.poll == poll && MayGrant(db, x)))
      && db' == Committed(db, x)
    case UnclaimCall(p, o) => db' == Committed(db, Release(p, o))
    case RemoveCall(p) => db' == Committed(db, RemoveRow(p))
  }

  /** dbs are the states between the calls of a sequential run on one sheet. */
  ghost predicate Run(poll: PollId, dbs: seq<Db>, events: seq<Event>) {
    && |dbs| == |events| + 1
    && WithinLimits(dbs[0])
    && forall i :: 0 <= i < |events| ==> Happens(dbs[i], poll, events[i], dbs[i + 1])
  }

  /** What the service's own claim does is such a call. */
  lemma ClaimHappens(db: Db, poll: PollId, o: OptionId, who: Claimant, authorised: bool, named: bool, mailed: bool,
                     newId: ParticipantId, c: Result<Acting, Error>, r: Result<Effect, Error>)
    requires ClaimOutcome(db, poll, o, who, authorised, named, mailed, newId, c, r) && newId !in db.participants
    ensures Happens(db, poll, ClaimCall(if r.Ok? then Some(r.value) else None), if r.Ok? then Committed(db, r.value) else db)
  {
    OutcomeMayGrant(db, poll, o, who, authorised, named, mailed, newId, c, r);
  }

  /** The service's rule: recompute at every changed claim. */
  ghost predicate Announced(poll: PollId, dbs: seq<Db>, events: seq<Event>, i: nat)
    requires |dbs| == |events| + 1 && i < |events|
  {
    Changed(events[i]) && Full(dbs[i + 1], poll)
  }

  /** The flag's rule: set when a changed claim leaves the sheet full, cleared by every unclaim. */
  ghost predicate Flag(poll: PollId, dbs: seq<Db>, events: seq<Event>, i: nat)
    requires |dbs| == |events| + 1 && i <= |events|
  {
    i > 0 &&
    !events[i - 1].UnclaimCall? &&
    ((Changed(events[i - 1]) && Full(dbs[i], poll)) || Flag(poll, dbs, events, i - 1))
  }

  ghost predicate AnnouncedByFlag(poll: PollId, dbs: seq<Db>, events: seq<Event>, i: nat)
    requires |dbs| == |events| + 1 && i < |events|
  {
    Changed(events[i]) && Full(dbs[i + 1], poll) && !Flag(poll, dbs, events, i)
  }

  lemma ChangedClaimFindsRoom(db: Db, poll: PollId, e: Event, db': Db)
    requires Happens(db, poll, e, db') && Changed(e)
    ensures !Full(db, poll)
  {
    assert OnSheet(db, poll, e.effect.value.option);
  }

  /** While the flag is up, no removal having come between, the sheet is full. */
  lemma {:induction false} FlagMeansFull(poll: PollId, dbs: seq<Db>, events: seq<Event>, i: nat)
    requires Run(poll, dbs, events) && i <= |events| && Flag(poll, dbs, events, i)
    requires forall j :: 0 <= j < i ==> !events[j].RemoveCall?
    ensures Full(dbs[i], poll)
  {
    var e := events[i - 1];
    assert Happens(dbs[i - 1], poll, e, dbs[i]);
    if !(Changed(e) && Full(dbs[i], poll)) {
      FlagMeansFull(poll, dbs, events, i - 1);
      if Changed(e) {
        ChangedClaimFindsRoom(dbs[i - 1], poll, e, dbs[i]);
      }
    }
  }

  /** Over claims and unclaims the recomputation announces at exactly the calls where the flag would. */
  lemma RecomputingEqualsFlag(poll: PollId, dbs: seq<Db>, events: seq<Event>, i: nat)
    requires Run(poll, dbs, events) && i < |events|
    requires forall j :: 0 <= j < |events| ==> !events[j].RemoveCall?
    ensures Announced(poll, dbs, events, i) <==> AnnouncedByFlag(poll, dbs, events, i)
  {
    if Announced(poll, dbs, events, i) && Flag(poll, dbs, events, i) {
      FlagMeansFull(poll, dbs, events, i);
      assert Happens(dbs[i], poll, events[i], dbs[i + 1]);
      ChangedClaimFindsRoom(dbs[i], poll, events[i], dbs[i + 1]);
    }
  }

  /** Call k announced, and no unclaim came between k and i. */
  ghost predicate StandsSince(poll: PollId, dbs: seq<Db>, events: seq<Event>, k: nat, i: nat)
    requires |dbs| == |events| + 1 && i <= |events|
  {
    k < i && Announced(poll, dbs, events, k) && forall m :: k < m < i ==> !events[m].UnclaimCall?
  }

  /** The flag is up exactly when some announcement has had no unclaim after it. */
  lemma {:induction false} FlagIffAnnouncementStands(poll: PollId, dbs: seq<Db>, events: seq<Event>, i: nat)
    requires |dbs| == |events| + 1 && i <= |events|
    ensures Flag(poll, dbs, events, i) <==> exists k: nat :: StandsSince(poll, dbs, events, k, i)
  {
    if i > 0 {
      FlagIffAnnouncementStands(poll, dbs, events, i - 1);
      if Flag(poll, dbs, events, i) {
        if Announced(poll, dbs, events, i - 1) {
          assert StandsSince(poll, dbs, events, i - 1, i);
        } else {
          var k: nat :| StandsSince(poll, dbs, events, k, i - 1);
          assert StandsSince(poll, dbs, events, k, i);
        }
      }
      forall k: nat | StandsSince(poll, dbs, events, k, i) ensures Flag(poll, dbs, events, i) {
        if k < i - 1 {
          assert !events[i - 1].UnclaimCall?;
          assert StandsSince(poll, dbs, events, k, i - 1);
        }
      }
    }
  }

  /** In every sequence of calls whatever, removals included, the two rules part at a call if and only if it
      announces and an earlier announcement has had no unclaim since. */
  lemma RulesPartIff(poll: PollId, dbs: seq<Db>, events: seq<Event>, i: nat)
    requires |dbs| == |events| + 1 && i < |events|
    ensures (Announced(poll, dbs, events, i) != AnnouncedByFlag(poll, dbs, events, i)) <==>
      Announced(poll, dbs, events, i) && exists k: nat :: StandsSince(poll, dbs, events, k, i)
  {
    FlagIffAnnouncementStands(poll, dbs, events, i);
  }

  /** In a run that takes a removal after the earlier announcement: without one the sheet would still be full. */
  lemma RulesPartOnlyAfterRemoval(poll: PollId, dbs: seq<Db>, events: seq<Event>, k: nat, i: nat) returns (m: nat)
    requires Run(poll, dbs, events) && i < |events|
    requires Announced(poll, dbs, events, i) && StandsSince(poll, dbs, events, k, i)
    ensures k < m < i && events[m].RemoveCall?
  {
    assert Happens(dbs[i], poll, events[i], dbs[i + 1]);
    ChangedClaimFindsRoom(dbs[i], poll, events[i], dbs[i + 1]);
    if forall m :: k < m < i ==> !events[m].RemoveCall? {
      StaysFull(poll, dbs, events, k + 1, i);
    }
    m :| k < m < i && events[m].RemoveCall?;
  }

  /** Claims alone leave a full sheet full. */
  lemma {:induction false} StaysFull(poll: PollId, dbs: seq<Db>, events: seq<Event>, from: nat, i: nat)
    requires Run(poll, dbs, events) && from <= i <= |events| && Full(dbs[from], poll)
    requires forall m :: from <= m < i ==> events[m].ClaimCall?
    ensures Full(dbs[i], poll)
  {
    if from < i {
      StaysFull(poll, dbs, events, from, i - 1);
      assert Happens(dbs[i - 1], poll, events[i - 1], dbs[i]);
      if Changed(events[i - 1]) {
        ChangedClaimFindsRoom(dbs[i - 1], poll, events[i - 1], dbs[i]);
      }
    }
  }

  lemma ShrinkingDoesNotFill(db: Db, poll: PollId, e: Effect)
    requires (e.Release? || e.RemoveRow? || e.NoChange?) && Full(Committed(db, e), poll)
    ensures Full(db, poll)
  {
    var db' := Committed(db, e);
    assert exists o :: OnSheet(db', poll, o) && OnSheet(db, poll, o);
    forall o | OnSheet(db, poll, o) ensures !HasRoom(db, o) {
      assert OnSheet(db', poll, o);
      ShrinkingShrinks(db, e, "", o);
    }
  }

  /** Removals included, the announcements are exactly the moments at which the sheet becomes full. */
  lemma OneAnnouncementPerFill(poll: PollId, dbs: seq<Db>, events: seq<Event>, i: nat)
    requires Run(poll, dbs, events) && i < |events|
    ensures Announced(poll, dbs, events, i) <==> !Full(dbs[i], poll) && Full(dbs[i + 1], poll)
  {
    var e := events[i];
    assert Happens(dbs[i], poll, e, dbs[i + 1]);
    if Changed(e) {
      ChangedClaimFindsRoom(dbs[i], poll, e, dbs[i + 1]);
    } else if Full(dbs[i + 1], poll) {
      var effect := match e
        case ClaimCall(x) => (if x.Some? then x.value else NoChange)
        case UnclaimCall(p, o) => Release(p, o)
        case RemoveCall(p) => RemoveRow(p);
      ShrinkingDoesNotFill(dbs[i], poll, effect);
    }
  }

  /** They do part: a removal frees a slot without clearing the flag. */
  lemma RemovalSplitsTheRules() returns (poll: PollId, dbs: seq<Db>, events: seq<Event>)
    ensures Run(poll, dbs, events) && |events| == 3
    ensures Announced(poll, dbs, events, 2) && !AnnouncedByFlag(poll, dbs, events, 2)
  {
    poll := "sheet";
    var db0 := Db(map[poll := Poll(true, true, 1, false)], map["slot" := Slot(poll, Some(1))], map[], map[]);
    var first, second := Grant("ann", true, None, poll, "slot"), Grant("bob", true, None, poll, "slot");
    events := [ClaimCall(Some(first)), RemoveCall("ann"), ClaimCall(Some(second))];
    var db1 := Committed(db0, first);
    var db2 := Committed(db1, RemoveRow("ann"));
    var db3 := Committed(db2, second);
    dbs := [db0, db1, db2, db3];
    assert YesFor(db0, "slot") == {} && VotesOf(db0, "ann") == {};
    assert YesFor(db1, "slot") == {Key("ann", "slot")};
    assert YesFor(db2, "slot") == {} && VotesOf(db2, "bob") == {};
    assert YesFor(db3, "slot") == {Key("bob", "slot")};
    assert OnSheet(db1, poll, "slot") && OnSheet(db3, poll, "slot");
    assert Flag(poll, dbs, events, 1);
    assert Flag(poll, dbs, events, 2);
  }
}
