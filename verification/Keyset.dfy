/**
  The newest-first walks of the support console: List in internal/admin/audit.go and SearchUsers in
  internal/admin/users.go, which page through a growing table by a (created_at, id) keyset.
 */
module Keyset {
  import opened Common

  datatype Key = Key(createdAt: int, id: int)
  {
    /** Newer, or as new with the greater id: earlier in the listing. */
    predicate Before(other: Key) {
      createdAt > other.createdAt || (createdAt == other.createdAt && id > other.id)
    }
  }

  datatype Data =
    | Audit(action: string, actorEmail: string, targetType: string, targetId: Option<string>)
    | User(email: string, name: string)

  datatype Row = Row(key: Key, data: Data)

  /** The page size: none or too small means the default, too large means the largest. */
  function Clamped(limit: int, standard: nat, largest: nat): (n: nat)
    requires 1 <= standard <= largest
    ensures 1 <= n <= largest && (limit <= 0 ==> n == standard) && (0 < limit ==> n <= limit)
    ensures 0 < limit <= largest ==> n == limit
    ensures limit > largest ==> n == largest
  {
    if limit <= 0 then standard else if limit > largest then largest else limit
  }

  // ----- one page -----

  /** Ids are primary keys: a key names at most one row. */
  ghost predicate KeysAreUnique(table: set<Row>) {
    forall r, s :: r in table && s in table && r.key == s.key ==> r == s
  }

  predicate After(cursor: Option<Key>, r: Row) {
    cursor.Some? ==> cursor.value.Before(r.key)
  }

  /** The rows that a page is taken from. */
  function Candidates(table: set<Row>, keep: Data -> bool, cursor: Option<Key>): set<Row> {
    set r | r in table && keep(r.data) && After(cursor, r)
  }

  ghost predicate Descending(rows: seq<Row>) {
    forall i, j :: 0 <= i < j < |rows| ==> rows[i].key.Before(rows[j].key)
  }

  ghost predicate AllBefore(rows: seq<Row>, r: Row) {
    forall e :: e in rows ==> e.key.Before(r.key)
  }

  /** rows are the first n of all, in listing order. */
  ghost predicate FirstOf(rows: seq<Row>, all: set<Row>, n: nat) {
    && Descending(rows)
    && |rows| <= n
    && (forall r :: r in rows ==> r in all)
    && forall r :: r in all && r !in rows ==> |rows| == n && AllBefore(rows, r)
  }

  /** A page of at most n rows, and a cursor at its end just when rows remain. */
  ghost predicate IsPage(all: set<Row>, n: nat, entries: seq<Row>, next: Option<Key>) {
    && FirstOf(entries, all, n)
    && (next.Some? <==> exists r :: r in all && r !in entries)
    && (next.Some? ==> entries != [] && next.value == entries[|entries| - 1].key)
  }

  /** The order of the listing, in terms of time and id: the newer row first, of two as new the one with the greater id. */
  lemma NewestFirst(a: Key, b: Key)
    ensures a.createdAt > b.createdAt ==> a.Before(b) && !b.Before(a)
    ensures a.createdAt == b.createdAt ==> (a.Before(b) <==> a.id > b.id)
    ensures a != b ==> a.Before(b) != b.Before(a)
  {
  }

  /** row lies beyond the cursor: older, or as old with the smaller id. */
  predicate Beyond(cursor: Option<Key>, row: Row) {
    cursor.Some? ==>
      row.key.createdAt < cursor.value.createdAt || (row.key.createdAt == cursor.value.createdAt && row.key.id < cursor.value.id)
  }

  /** A page in the reader's terms: the matching rows beyond the cursor, newest first, with nothing in between left out; a
      cursor is returned exactly if matching rows are left beyond the page, and it leads to those and no others. */
  lemma PageSpelledOut(table: set<Row>, keep: Data -> bool, cursor: Option<Key>, n: nat, entries: seq<Row>, next: Option<Key>, r: Row)
    requires 1 <= n && IsPage(Candidates(table, keep, cursor), n, entries, next)
    ensures |entries| <= n
    ensures forall i, j :: 0 <= i < j < |entries| ==>
      && entries[i].key.createdAt >= entries[j].key.createdAt
      && (entries[i].key.createdAt == entries[j].key.createdAt ==> entries[i].key.id > entries[j].key.id)
    ensures r in entries ==> r in table && keep(r.data) && Beyond(cursor, r)
    ensures r in table && keep(r.data) && Beyond(cursor, r) && r !in entries ==> next.Some? && |entries| == n && Beyond(next, r)
    ensures r in entries && next.Some? ==> !Beyond(next, r)
    ensures next.Some? ==> exists left :: left in table && keep(left.data) && Beyond(next, left) && Beyond(cursor, left)
  {
    assert Beyond(cursor, r) <==> After(cursor, r);
    forall i, j | 0 <= i < j < |entries|
      ensures entries[i].key.createdAt >= entries[j].key.createdAt
      ensures entries[i].key.createdAt == entries[j].key.createdAt ==> entries[i].key.id > entries[j].key.id
    {
      assert entries[i].key.Before(entries[j].key);
    }
    if next.Some? {
      var left :| left in Candidates(table, keep, cursor) && left !in entries;
      assert AllBefore(entries, left) && entries[|entries| - 1] in entries;
      assert Beyond(next, left) && Beyond(cursor, left);
    }
  }

  method Newest(all: set<Row>) returns (newest: Row)
    requires all != {} && KeysAreUnique(all)
    ensures newest in all && forall r :: r in all && r != newest ==> newest.key.Before(r.key)
  {
    newest :| newest in all;
    var todo := all - {newest};
    while todo != {}
      invariant newest in all && todo <= all
      invariant forall r :: r in all - todo && r != newest ==> newest.key.Before(r.key)
      decreases todo
    {
      var r :| r in todo;
      todo := todo - {r};
      if r.key.Before(newest.key) {
        newest := r;
      }
    }
  }

  /** ORDER BY created_at DESC, id DESC LIMIT n. */
  method Select(all: set<Row>, n: nat) returns (rows: seq<Row>)
    requires KeysAreUnique(all)
    ensures FirstOf(rows, all, n)
  {
    rows := [];
    var left := all;
    while |rows| < n && left != {}
      invariant |rows| <= n && left <= all && Descending(rows)
      invariant forall r :: r in all <==> r in left || r in rows
      invariant forall r :: r in left ==> r !in rows && AllBefore(rows, r)
      decreases left
    {
      var r := Newest(left);
      assert AllBefore(rows, r);
      rows, left := rows + [r], left - {r};
    }
  }

  /** One row more than the page is fetched; it only tells that rows remain. */
  method List(table: set<Row>, keep: Data -> bool, cursor: Option<Key>, limit: int, standard: nat, largest: nat)
    returns (entries: seq<Row>, next: Option<Key>)
    requires KeysAreUnique(table) && 1 <= standard <= largest
    ensures IsPage(Candidates(table, keep, cursor), Clamped(limit, standard, largest), entries, next)
  {
    var n := Clamped(limit, standard, largest);
    entries := Select(Candidates(table, keep, cursor), n + 1);
    next := None;
    if |entries| > n {
      ghost var fetched := entries;
      entries := entries[..n];
      next := Some(entries[n - 1].key);
      assert fetched[n] !in entries && fetched == entries + [fetched[n]];
    }
  }

  // ----- a walk over a table that grows between the calls -----

  /** tables[i], cursors[i], limits[i] and pages[i] are what the i-th call saw, was given and returned;
      the last cursor is what the last call returned. */
  datatype Walk = Walk(tables: seq<set<Row>>, cursors: seq<Option<Key>>, limits: seq<nat>, pages: seq<seq<Row>>)

  ghost predicate IsWalk(w: Walk, keep: Data -> bool) {
    && |w.pages| >= 1 && |w.tables| == |w.limits| == |w.pages| && |w.cursors| == |w.pages| + 1
    && w.cursors[0] == None
    && (forall i :: 0 < i < |w.pages| ==> w.cursors[i].Some?)
    && (forall i :: 0 <= i < |w.pages| ==> w.limits[i] >= 1 && IsCall(w, keep, i))
    && (forall i, j :: 0 <= i <= j < |w.tables| ==> w.tables[i] <= w.tables[j])
  }

  ghost predicate IsCall(w: Walk, keep: Data -> bool, i: nat)
    requires i < |w.tables| == |w.limits| == |w.pages| && |w.cursors| == |w.pages| + 1
  {
    IsPage(Candidates(w.tables[i], keep, w.cursors[i]), w.limits[i], w.pages[i], w.cursors[i + 1])
  }

  /** The walk ends when a call returns no cursor. */
  predicate Complete(w: Walk) {
    |w.cursors| >= 1 && w.cursors[|w.cursors| - 1].None?
  }

  lemma {:induction false} CursorsDescend(w: Walk, keep: Data -> bool, i: nat, j: nat)
    requires IsWalk(w, keep) && 0 < i < j <= |w.pages| && w.cursors[j].Some?
    ensures w.cursors[i].value.Before(w.cursors[j].value)
  {
    assert IsCall(w, keep, j - 1);
    var last := w.pages[j - 1][|w.pages[j - 1]| - 1];
    assert last in w.pages[j - 1] && After(w.cursors[j - 1], last);
    if i < j - 1 {
      CursorsDescend(w, keep, i, j - 1);
    }
  }

  lemma CursorEndsItsPage(w: Walk, keep: Data -> bool, i: nat, r: Row)
    requires IsWalk(w, keep) && i < |w.pages| && w.cursors[i + 1].Some? && r in w.pages[i]
    ensures r.key == w.cursors[i + 1].value || r.key.Before(w.cursors[i + 1].value)
  {
    assert IsCall(w, keep, i);
  }

  /** Rows of an earlier page come before rows of a later one: the pages, one after another, are strictly
      descending, so no row is repeated. */
  lemma NothingIsRepeated(w: Walk, keep: Data -> bool, i: nat, j: nat, r: Row, s: Row)
    requires IsWalk(w, keep) && i < j < |w.pages| && r in w.pages[i] && s in w.pages[j]
    ensures r.key.Before(s.key) && r != s
    ensures Descending(w.pages[i])
  {
    assert IsCall(w, keep, i) && IsCall(w, keep, j);
    CursorEndsItsPage(w, keep, i, r);
    assert After(w.cursors[j], s);
    if i + 1 < j {
      CursorsDescend(w, keep, i + 1, j);
    }
  }

  /** A row that was there from the start is found before call i or is still to come. */
  lemma {:induction false} FoundOrToCome(w: Walk, keep: Data -> bool, i: nat, r: Row)
    requires IsWalk(w, keep) && i <= |w.pages| && r in w.tables[0] && keep(r.data)
    ensures (exists k :: 0 <= k < i && r in w.pages[k]) || (After(w.cursors[i], r) && (i > 0 ==> w.cursors[i].Some?))
  {
    if i > 0 {
      FoundOrToCome(w, keep, i - 1, r);
      assert IsCall(w, keep, i - 1);
      assert w.tables[0] <= w.tables[i - 1];
      if !exists k :: 0 <= k < i - 1 && r in w.pages[k] {
        assert r in Candidates(w.tables[i - 1], keep, w.cursors[i - 1]);
        if r !in w.pages[i - 1] {
          assert AllBefore(w.pages[i - 1], r);
        }
      }
    }
  }

  /** A complete walk returns every matching row that was there throughout. */
  lemma EveryRowIsReturned(w: Walk, keep: Data -> bool, r: Row) returns (i: nat)
    requires IsWalk(w, keep) && Complete(w) && r in w.tables[0] && keep(r.data)
    ensures i < |w.pages| && r in w.pages[i]
  {
    FoundOrToCome(w, keep, |w.pages|, r);
    i :| 0 <= i < |w.pages| && r in w.pages[i];
  }

  /** No page but the first can be empty, and only the last can be short. */
  lemma NoEmptyTrailingPage(w: Walk, keep: Data -> bool, i: nat)
    requires IsWalk(w, keep) && i < |w.pages|
    ensures i > 0 ==> w.pages[i] != []
    ensures i < |w.pages| - 1 ==> |w.pages[i]| == w.limits[i]
  {
    assert IsCall(w, keep, i);
    if i > 0 {
      assert IsCall(w, keep, i - 1);
      var all := Candidates(w.tables[i - 1], keep, w.cursors[i - 1]);
      var r :| r in all && r !in w.pages[i - 1];
      assert w.tables[i - 1] <= w.tables[i];
      assert AllBefore(w.pages[i - 1], r);
      assert r in Candidates(w.tables[i], keep, w.cursors[i]);
    }
  }

  // ----- how long a walk is -----

  function Elements(rows: seq<Row>): set<Row> {
    set r | r in rows
  }

  /** The rows of the first k pages. */
  function Returned(w: Walk, k: nat): set<Row>
    requires k <= |w.pages|
  {
    if k == 0 then {} else Returned(w, k - 1) + Elements(w.pages[k - 1])
  }

  lemma {:induction false} ReturnedHolds(w: Walk, k: nat, r: Row)
    requires k <= |w.pages|
    ensures r in Returned(w, k) <==> exists i :: 0 <= i < k && r in w.pages[i]
  {
    if k > 0 {
      ReturnedHolds(w, k - 1, r);
    }
  }

  function Total(w: Walk, k: nat): nat
    requires k <= |w.pages|
  {
    if k == 0 then 0 else Total(w, k - 1) + |w.pages[k - 1]|
  }

  lemma {:induction false} DescendingIsDistinct(rows: seq<Row>)
    requires Descending(rows)
    ensures |Elements(rows)| == |rows|
  {
    if rows != [] {
      var n := |rows| - 1;
      DescendingIsDistinct(rows[..n]);
      assert Elements(rows) == Elements(rows[..n]) + {rows[n]};
      assert rows[n] !in rows[..n];
    }
  }

  lemma {:induction false} TotalCountsRows(w: Walk, keep: Data -> bool, k: nat)
    requires IsWalk(w, keep) && k <= |w.pages|
    ensures |Returned(w, k)| == Total(w, k)
  {
    if k > 0 {
      TotalCountsRows(w, keep, k - 1);
      var page := Elements(w.pages[k - 1]);
      assert IsCall(w, keep, k - 1);
      DescendingIsDistinct(w.pages[k - 1]);
      forall r | r in page ensures r !in Returned(w, k - 1) {
        ReturnedHolds(w, k - 1, r);
        if i :| 0 <= i < k - 1 && r in w.pages[i] {
          NothingIsRepeated(w, keep, i, k - 1, r, r);
        }
      }
      assert Returned(w, k - 1) !! page;
    }
  }

  lemma {:induction false} PagesAreFull(w: Walk, keep: Data -> bool, limit: nat, k: nat)
    requires IsWalk(w, keep) && k < |w.pages| && forall i :: 0 <= i < |w.limits| ==> w.limits[i] == limit
    ensures Total(w, k) == k * limit
  {
    if k > 0 {
      PagesAreFull(w, keep, limit, k - 1);
      NoEmptyTrailingPage(w, keep, k - 1);
    }
  }

  /** Every walk ends: with a page size of limit, all pages but the last are full of rows of the table as it
      is at the last call, and the last one has at least one more. */
  lemma WalkIsBounded(w: Walk, keep: Data -> bool, limit: nat)
    requires IsWalk(w, keep) && forall i :: 0 <= i < |w.limits| ==> w.limits[i] == limit
    ensures |w.pages| > 1 ==> (|w.pages| - 1) * limit < |Candidates(w.tables[|w.tables| - 1], keep, None)|
  {
    var n := |w.pages|;
    var all := Candidates(w.tables[n - 1], keep, None);
    if n > 1 {
      PagesAreFull(w, keep, limit, n - 1);
      TotalCountsRows(w, keep, n);
      NoEmptyTrailingPage(w, keep, n - 1);
      forall r | r in Returned(w, n) ensures r in all {
        ReturnedHolds(w, n, r);
        var i :| 0 <= i < n && r in w.pages[i];
        assert IsCall(w, keep, i) && w.tables[i] <= w.tables[n - 1];
      }
      SubsetIsSmaller(Returned(w, n), all);
    }
  }

  /** Rows that arrive during the walk are newer than all that has been returned so far. */
  ghost predicate ArrivalsAreNewer(w: Walk, keep: Data -> bool)
    requires IsWalk(w, keep)
  {
    forall i, r :: 0 < i < |w.tables| && r in w.tables[i] && r !in w.tables[0] ==> !After(w.cursors[i], r)
  }

  /** Then the walk returns exactly the matching rows that were there when it began. */
  lemma WalkIsASnapshot(w: Walk, keep: Data -> bool)
    requires IsWalk(w, keep) && Complete(w) && ArrivalsAreNewer(w, keep)
    ensures Returned(w, |w.pages|) == Candidates(w.tables[0], keep, None)
    ensures Total(w, |w.pages|) == |Candidates(w.tables[0], keep, None)|
  {
    var n := |w.pages|;
    var all := Candidates(w.tables[0], keep, None);
    forall r ensures r in Returned(w, n) <==> r in all {
      ReturnedHolds(w, n, r);
      if i :| 0 <= i < n && r in w.pages[i] {
        assert IsCall(w, keep, i);
      }
      if r in all {
        var i := EveryRowIsReturned(w, keep, r);
      }
    }
    TotalCountsRows(w, keep, n);
  }

  // ----- the cursor as text -----

  /** The time, a bar, the id; what base64 wraps. */
  function Encoded(stamp: string, id: string): string {
    stamp + "|" + id
  }

  /** Split at the first bar. */
  function Decoded(raw: string): Option<(string, string)> {
    if raw == "" then None
    else if raw[0] == '|' then Some(("", raw[1..]))
    else
      match Decoded(raw[1..])
      case None => None
      case Some((stamp, id)) => Some(([raw[0]] + stamp, id))
  }

  /** A cursor names its row again, whatever characters the id has; a printed time has no bar. */
  lemma {:induction false} CursorRoundTrip(stamp: string, id: string)
    ensures Decoded(Encoded(stamp, id)) == Some((stamp, id)) <==> '|' !in stamp
  {
    var raw := Encoded(stamp, id);
    if stamp == "" {
      assert raw[1..] == id;
    } else {
      assert raw[1..] == Encoded(stamp[1..], id);
      assert [stamp[0]] + stamp[1..] == stamp;
      CursorRoundTrip(stamp[1..], id);
      if stamp[0] != '|' {
        assert '|' in stamp <==> '|' in stamp[1..];
      }
    }
  }

  // ----- the two listings -----

  /** Empty fields of a filter ask for nothing. */
  datatype AuditFilter = AuditFilter(action: string, actorEmail: string, targetType: string, targetId: string)

  predicate AuditMatches(f: AuditFilter, e: Data) {
    && e.Audit?
    && (f.action != "" ==> e.action == f.action)
    && (f.actorEmail != "" ==> e.actorEmail == f.actorEmail)
    && (f.targetType != "" ==> e.targetType == f.targetType)
    && (f.targetId != "" ==> e.targetId == Some(f.targetId))
  }

  method ListAudit(table: set<Row>, f: AuditFilter, cursor: Option<Key>, limit: int)
    returns (entries: seq<Row>, next: Option<Key>)
    requires KeysAreUnique(table)
    ensures IsPage(Candidates(table, (e: Data) => AuditMatches(f, e), cursor), Clamped(limit, 100, 200), entries, next)
    ensures forall r :: r in entries ==>
      && r in table && r.data.Audit?
      && (f.action == "" || r.data.action == f.action) && (f.actorEmail == "" || r.data.actorEmail == f.actorEmail)
      && (f.targetType == "" || r.data.targetType == f.targetType) && (f.targetId == "" || r.data.targetId == Some(f.targetId))
    ensures cursor.None? && next.None? ==>
      forall r :: r in table && r !in entries && r.data.Audit? ==>
        || (f.action != "" && r.data.action != f.action) || (f.actorEmail != "" && r.data.actorEmail != f.actorEmail)
        || (f.targetType != "" && r.data.targetType != f.targetType) || (f.targetId != "" && r.data.targetId != Some(f.targetId))
  {
    entries, next := List(table, (e: Data) => AuditMatches(f, e), cursor, limit, 100, 200);
  }

  /** found: the query is part of the user's e-mail or name, or there is no query. */
  method SearchUsers(table: set<Row>, found: Data -> bool, cursor: Option<Key>, limit: int)
    returns (users: seq<Row>, next: Option<Key>)
    requires KeysAreUnique(table)
    ensures IsPage(Candidates(table, found, cursor), Clamped(limit, 50, 200), users, next)
  {
    users, next := List(table, found, cursor, limit, 50, 200);
  }
}
