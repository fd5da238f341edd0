/**
 * The audit-log feed (src/modules/admin/admin.service.ts, listAuditLogs) and walking it page by page.
 * Dates are milliseconds; the cursor is the pair its opaque text encodes (src/shared/pagination.ts).
 * Every read first writes a row of its own, and other rows are written between reads.
 */
module AuditWalk {
  import opened Wrappers

  datatype Row = Row(at: int, id: int, actorId: Option<string>, action: string, entityType: string, entityId: Option<string>)

  datatype Cursor = Cursor(at: int, id: int)

  /** An absent filter, like an empty one, does not constrain. */
  datatype Scope = Scope(actorId: string, action: string, entityType: string, entityId: string, from: Option<int>, until: Option<int>)

  datatype Page = Page(items: seq<Row>, next: Option<Cursor>)

  predicate InScope(r: Row, s: Scope) {
    && (s.actorId != "" ==> r.actorId == Some(s.actorId))
    && (s.action != "" ==> r.action == s.action)
    && (s.entityType != "" ==> r.entityType == s.entityType)
    && (s.entityId != "" ==> r.entityId == Some(s.entityId))
    && (s.from.Some? ==> s.from.value <= r.at)
    && (s.until.Some? ==> r.at <= s.until.value)
  }

  function KeyOf(r: Row): Cursor { Cursor(r.at, r.id) }

  predicate Older(a: Cursor, b: Cursor) {
    a.at < b.at || (a.at == b.at && a.id < b.id)
  }

  predicate Below(r: Row, cursor: Option<Cursor>) {
    cursor.Some? ==> Older(KeyOf(r), cursor.value)
  }

  function Select(rows: seq<Row>, s: Scope, cursor: Option<Cursor>): seq<Row> {
    if rows == [] then []
    else (if InScope(rows[0], s) && Below(rows[0], cursor) then [rows[0]] else []) + Select(rows[1..], s, cursor)
  }

  function Place(r: Row, rows: seq<Row>): seq<Row> {
    if rows == [] || Older(KeyOf(rows[0]), KeyOf(r)) then [r] + rows else [rows[0]] + Place(r, rows[1..])
  }

  /** The sort by created_at and _id, newest first. */
  function SortNewest(rows: seq<Row>): seq<Row> {
    if rows == [] then [] else Place(rows[0], SortNewest(rows[1..]))
  }

  function Take(rows: seq<Row>, n: nat): seq<Row> {
    if n < |rows| then rows[..n] else rows
  }

  function Found(rows: seq<Row>, s: Scope, cursor: Option<Cursor>): seq<Row> {
    SortNewest(Select(rows, s, cursor))
  }

  function PageOf(rows: seq<Row>, s: Scope, cursor: Option<Cursor>, limit: nat): Page {
    var docs := Take(Found(rows, s, cursor), limit + 1);
    var items := Take(docs, limit);
    Page(items, if |docs| > limit && items != [] then Some(KeyOf(items[|items| - 1])) else None)
  }

  /** The row the read writes about itself. */
  function OwnRow(actor: string, stamp: Cursor): Row {
    Row(stamp.at, stamp.id, Some(actor), "admin.audit_log_read", "audit_log", None)
  }

  class AuditLog {
    var rows: seq<Row>

    constructor ()
      ensures rows == []
    {
      rows := [];
    }

    /** `stamp` is the own row's time and id; None when writing it failed, which writeAudit swallows. */
    method ListAuditLogs(actor: string, s: Scope, cursor: Option<Cursor>, limit: nat, stamp: Option<Cursor>) returns (page: Page)
      modifies this
      ensures rows == old(rows) + if stamp.Some?
                                  then [Row(stamp.value.at, stamp.value.id, Some(actor), "admin.audit_log_read", "audit_log", None)]
                                  else []
      ensures page == PageOf(rows, s, cursor, limit)
    {
      if stamp.Some? {
        rows := rows + [OwnRow(actor, stamp.value)];
      }
      var docs := Take(Found(rows, s, cursor), limit + 1);
      var items := if |docs| > limit then docs[..limit] else docs;
      if |docs| > limit && items != [] {
        return Page(items, Some(KeyOf(items[|items| - 1])));
      }
      return Page(items, None);
    }
  }

  // ---------------------------------------------------------------- sorting

  ghost predicate NewestFirst(rows: seq<Row>) {
    forall i, j :: 0 <= i < j < |rows| ==> Older(KeyOf(rows[j]), KeyOf(rows[i]))
  }

  ghost predicate DistinctKeys(rows: seq<Row>) {
    forall i, j :: 0 <= i < j < |rows| ==> KeyOf(rows[i]) != KeyOf(rows[j])
  }

  lemma {:induction false} SelectMembers(rows: seq<Row>, s: Scope, cursor: Option<Cursor>)
    ensures forall r :: r in Select(rows, s, cursor) <==> r in rows && InScope(r, s) && Below(r, cursor)
    ensures DistinctKeys(rows) ==> DistinctKeys(Select(rows, s, cursor))
  {
    if rows != [] {
      var rest := Select(rows[1..], s, cursor);
      SelectMembers(rows[1..], s, cursor);
      assert rows == [rows[0]] + rows[1..];
      if DistinctKeys(rows) {
        assert DistinctKeys(rows[1..]);
        forall j | 0 <= j < |rest| ensures KeyOf(rest[j]) != KeyOf(rows[0]) {
          assert rest[j] in rows[1..];
        }
      }
    }
  }

  lemma {:induction false} PlaceSorts(r: Row, rows: seq<Row>)
    requires NewestFirst(rows) && forall x :: x in rows ==> KeyOf(x) != KeyOf(r)
    ensures NewestFirst(Place(r, rows)) && forall x :: x in Place(r, rows) <==> x == r || x in rows
  {
    if rows == [] {
    } else if Older(KeyOf(rows[0]), KeyOf(r)) {
      assert forall j :: 0 < j < |rows| ==> Older(KeyOf(rows[j]), KeyOf(rows[0]));
    } else {
      var rest := Place(r, rows[1..]);
      PlaceSorts(r, rows[1..]);
      assert rows == [rows[0]] + rows[1..];
      assert KeyOf(rows[0]) != KeyOf(r);
      forall j | 0 <= j < |rest| ensures Older(KeyOf(rest[j]), KeyOf(rows[0])) {
        assert rest[j] == r || rest[j] in rows[1..];
      }
    }
  }

  lemma {:induction false} SortSorts(rows: seq<Row>)
    requires DistinctKeys(rows)
    ensures NewestFirst(SortNewest(rows)) && forall x :: x in SortNewest(rows) <==> x in rows
  {
    if rows != [] {
      SortSorts(rows[1..]);
      assert rows == [rows[0]] + rows[1..];
      PlaceSorts(rows[0], SortNewest(rows[1..]));
    }
  }

  lemma FoundIs(rows: seq<Row>, s: Scope, cursor: Option<Cursor>)
    requires DistinctKeys(rows)
    ensures NewestFirst(Found(rows, s, cursor))
    ensures forall r :: r in Found(rows, s, cursor) <==> r in rows && InScope(r, s) && Below(r, cursor)
  {
    SelectMembers(rows, s, cursor);
    SortSorts(Select(rows, s, cursor));
  }

  lemma EmptyOrHead(b: seq<Row>)
    ensures b == [] || exists r :: r in b
  {
    assert b == [] || b[0] in b;
  }

  lemma HeadOnce(a: seq<Row>)
    requires NewestFirst(a) && a != []
    ensures forall r :: r in a[1..] <==> r in a && r != a[0]
  {
    assert a == [a[0]] + a[1..];
    forall r | r in a[1..] ensures r != a[0] {
      var k :| 0 <= k < |a[1..]| && a[1..][k] == r;
      assert a[k + 1] == r;
    }
  }

  /** Newest-first lists with the same rows are the same list. */
  lemma NewestFirstUnique(a: seq<Row>, b: seq<Row>)
    requires NewestFirst(a) && NewestFirst(b) && forall r :: r in a <==> r in b
    ensures a == b
  {
    if a == [] {
      EmptyOrHead(b);
    } else {
      assert a[0] in b && b != [] && b[0] in a;
      var i :| 0 <= i < |b| && b[i] == a[0];
      var j :| 0 <= j < |a| && a[j] == b[0];
      assert i == 0 || j == 0;
      HeadOnce(a);
      HeadOnce(b);
      forall r ensures r in a[1..] <==> r in b[1..] {
        assert r in a[1..] <==> r in a && r != a[0];
        assert r in b[1..] <==> r in b && r != b[0];
      }
      NewestFirstUnique(a[1..], b[1..]);
    }
  }

  // ---------------------------------------------------------------- walking

  /** One read of the walk: the collection it finds, its own row included, and what it answers. */
  datatype Read = Read(rows: seq<Row>, cursor: Option<Cursor>, page: Page)

  /** Each read is made with the cursor that the one before returned. */
  ghost predicate Linked(visits: seq<Read>) {
    forall i :: 0 <= i < |visits| - 1 ==> visits[i].page.next.Some? && visits[i + 1].cursor == visits[i].page.next
  }

  ghost predicate IsRead(v: Read, s: Scope, limit: nat) {
    DistinctKeys(v.rows) && v.page == PageOf(v.rows, s, v.cursor, limit)
  }

  /** Nothing is deleted or changed, ids are unique, and each read continues where the one before stopped. */
  ghost predicate IsWalk(visits: seq<Read>, s: Scope, limit: nat) {
    && 0 < limit && visits != [] && visits[0].cursor == None
    && (forall i :: 0 <= i < |visits| ==> IsRead(visits[i], s, limit))
    && Linked(visits)
    && (forall i, j :: 0 <= i < j < |visits| ==> visits[i].rows <= visits[j].rows)
  }

  /** Every filter that is given, field by field. */
  predicate PassesFilters(r: Row, s: Scope)
    ensures PassesFilters(r, s) <==>
              && (s.actorId == "" || r.actorId == Some(s.actorId)) && (s.action == "" || r.action == s.action)
              && (s.entityType == "" || r.entityType == s.entityType) && (s.entityId == "" || r.entityId == Some(s.entityId))
              && (s.from == None || r.at >= s.from.value) && (s.until == None || r.at <= s.until.value)
  {
    InScope(r, s)
  }

  /** Rows written after the first read are newer than everything it could see. */
  ghost predicate NewRowsAreNewer(visits: seq<Read>)
    requires visits != []
  {
    forall i, r, old_ :: 0 <= i < |visits| && r in visits[i].rows && r !in visits[0].rows && old_ in visits[0].rows
      ==> Older(KeyOf(old_), KeyOf(r))
  }

  function Collected(visits: seq<Read>): seq<Row> {
    if visits == [] then [] else Collected(visits[..|visits| - 1]) + visits[|visits| - 1].page.items
  }

  lemma WalkPrefix(visits: seq<Read>, s: Scope, limit: nat)
    requires IsWalk(visits, s, limit) && 1 < |visits|
    ensures IsWalk(visits[..|visits| - 1], s, limit)
    ensures NewRowsAreNewer(visits) ==> NewRowsAreNewer(visits[..|visits| - 1])
  {
  }

  /** Below the m-th of the rows first seen, a later read finds exactly the rest of them. */
  lemma RestIsUnchanged(first: seq<Row>, rows: seq<Row>, s: Scope, m: nat)
    requires DistinctKeys(first) && DistinctKeys(rows) && first <= rows
    requires forall r, old_ :: r in rows && r !in first && old_ in first ==> Older(KeyOf(old_), KeyOf(r))
    requires 0 < m <= |Found(first, s, None)|
    ensures Found(rows, s, Some(KeyOf(Found(first, s, None)[m - 1]))) == Found(first, s, None)[m..]
  {
    var all := Found(first, s, None);
    var c := KeyOf(all[m - 1]);
    FoundIs(first, s, None);
    FoundIs(rows, s, Some(c));
    assert all[m - 1] in all;
    forall r ensures r in Found(rows, s, Some(c)) <==> r in all[m..] {
      if r in all[m..] {
        assert r in all;
        assert r in first && r in rows;
      }
      if r in rows && InScope(r, s) && Older(KeyOf(r), c) {
        assert r in first;
        assert r in all;
        var k :| 0 <= k < |all| && all[k] == r;
        assert k >= m;
        assert all[m..][k - m] == r;
      }
    }
    NewestFirstUnique(Found(rows, s, Some(c)), all[m..]);
  }

  /** Rows that n full pages hold. */
  function Filled(n: nat, limit: nat): (m: nat)
    ensures 0 < n && 0 < limit ==> 0 < m
  {
    n * limit
  }

  lemma FilledNext(n: nat, limit: nat)
    ensures Filled(n + 1, limit) == Filled(n, limit) + limit
  {
  }

  /** What k reads have collected, and how the next page is reached. */
  ghost predicate CollectsPrefix(visits: seq<Read>, s: Scope, limit: nat)
    requires visits != [] && 0 < limit
  {
    var all := Found(visits[0].rows, s, None);
    var next := visits[|visits| - 1].page.next;
    if Filled(|visits|, limit) < |all|
    then Collected(visits) == all[..Filled(|visits|, limit)] && next == Some(KeyOf(all[Filled(|visits|, limit) - 1]))
    else Collected(visits) == all && next == None && Filled(|visits| - 1, limit) <= |all|
  }

  /** A page that starts at position m of a list ends at m + limit, and has a successor if the list goes on. */
  lemma PageFrom(rows: seq<Row>, s: Scope, cursor: Option<Cursor>, limit: nat, all: seq<Row>, m: nat)
    requires 0 < limit && m <= |all| && Found(rows, s, cursor) == all[m..]
    ensures var page := PageOf(rows, s, cursor, limit);
      if m + limit < |all| then all[..m] + page.items == all[..m + limit] && page.next == Some(KeyOf(all[m + limit - 1]))
      else all[..m] + page.items == all && page.next == None
  {
    var found := all[m..];
    var docs := Take(found, limit + 1);
    var items := Take(docs, limit);
    assert items == Take(found, limit);
    if m + limit < |all| {
      assert items[|items| - 1] == all[m + limit - 1];
    }
  }

  lemma WalkCollects(visits: seq<Read>, s: Scope, limit: nat)
    requires IsWalk(visits, s, limit) && NewRowsAreNewer(visits)
    ensures CollectsPrefix(visits, s, limit)
    decreases |visits|
  {
    var n := |visits|;
    if n == 1 {
      FirstPageCollects(visits, s, limit);
    } else {
      WalkPrefix(visits, s, limit);
      WalkCollects(visits[..n - 1], s, limit);
      NextPageCollects(visits, s, limit);
    }
  }

  lemma FirstPageCollects(visits: seq<Read>, s: Scope, limit: nat)
    requires IsWalk(visits, s, limit) && |visits| == 1
    ensures CollectsPrefix(visits, s, limit)
  {
    var first := visits[0].rows;
    var all := Found(first, s, None);
    assert visits[..0] == [];
    FilledNext(0, limit);
    assert all[0..] == all && all[..0] == [];
    PageFrom(first, s, None, limit, all, 0);
  }

  lemma NextPageCollects(visits: seq<Read>, s: Scope, limit: nat)
    requires IsWalk(visits, s, limit) && NewRowsAreNewer(visits) && 1 < |visits|
    requires CollectsPrefix(visits[..|visits| - 1], s, limit)
    ensures CollectsPrefix(visits, s, limit)
  {
    var n := |visits|;
    var first, prev, last := visits[0].rows, visits[n - 2], visits[n - 1];
    var all, m := Found(first, s, None), Filled(n - 1, limit);
    assert visits[..n - 1][n - 2] == prev && last.cursor == prev.page.next;
    assert 0 < m < |all| && last.cursor == Some(KeyOf(all[m - 1]));
    assert first <= last.rows;
    RestIsUnchanged(first, last.rows, s, m);
    PageFrom(last.rows, s, last.cursor, limit, all, m);
    FilledNext(n - 1, limit);
    assert Collected(visits) == all[..m] + last.page.items;
  }

  /**
   * Provided new rows are newer than what the first read could see: a walk to the null cursor returns
   * exactly the matching rows of the first read, its own row included, newest first.
   */
  lemma {:induction false} WalkReturnsFirstSight(visits: seq<Read>, s: Scope, limit: nat)
    requires IsWalk(visits, s, limit) && NewRowsAreNewer(visits)
    requires visits[|visits| - 1].page.next == None
    ensures var seen := Collected(visits);
      && (forall i, j :: 0 <= i < j < |seen| ==> seen[j].at < seen[i].at || (seen[j].at == seen[i].at && seen[j].id < seen[i].id))
      && (forall r :: r in seen <==> r in visits[0].rows && PassesFilters(r, s))
  {
    WalkCollects(visits, s, limit);
    FoundIs(visits[0].rows, s, None);
  }

  /** And it gets there: no walk has more pages than the rows of the first read fill, plus one. */
  lemma WalkTerminates(visits: seq<Read>, s: Scope, limit: nat)
    requires IsWalk(visits, s, limit) && NewRowsAreNewer(visits)
    ensures Filled(|visits| - 1, limit) <= |Found(visits[0].rows, s, None)|
    ensures Filled(|visits|, limit) >= |Found(visits[0].rows, s, None)| <==> visits[|visits| - 1].page.next == None
  {
    WalkCollects(visits, s, limit);
  }

  // ---------------------------------------------------------------- without the assumption

  /** Up to here, the walk is newest first and has left out nothing it was bound to see. */
  ghost predicate SeesAll(visits: seq<Read>, s: Scope)
    requires visits != []
  {
    var seen, next := Collected(visits), visits[|visits| - 1].page.next;
    && NewestFirst(seen)
    && (forall r :: r in seen ==> r in visits[|visits| - 1].rows && InScope(r, s))
    && (next.Some? ==> seen != [] && next == Some(KeyOf(seen[|seen| - 1])))
    && (forall r :: r in visits[0].rows && InScope(r, s) ==> r in seen || (next.Some? && Older(KeyOf(r), next.value)))
  }

  lemma PageOfIs(rows: seq<Row>, s: Scope, cursor: Option<Cursor>, limit: nat)
    requires DistinctKeys(rows) && 0 < limit
    ensures var page := PageOf(rows, s, cursor, limit);
      && NewestFirst(page.items)
      && (forall r :: r in page.items ==> r in rows && InScope(r, s) && Below(r, cursor))
      && (page.next.Some? ==> page.items != [] && page.next == Some(KeyOf(page.items[|page.items| - 1])))
      && (forall r :: r in rows && InScope(r, s) && Below(r, cursor) ==>
            r in page.items || (page.next.Some? && Older(KeyOf(r), page.next.value)))
  {
    var found, page := Found(rows, s, cursor), PageOf(rows, s, cursor, limit);
    FoundIs(rows, s, cursor);
    assert page.items == Take(found, limit);
    forall r | r in found ensures r in page.items || (page.next.Some? && Older(KeyOf(r), page.next.value)) {
      var k :| 0 <= k < |found| && found[k] == r;
      if k < |page.items| {
        assert page.items[k] == r;
      }
    }
  }

  lemma WalkSeesAll(visits: seq<Read>, s: Scope, limit: nat)
    requires IsWalk(visits, s, limit)
    ensures SeesAll(visits, s)
    decreases |visits|
  {
    if |visits| == 1 {
      FirstSeesAll(visits, s, limit);
    } else {
      WalkPrefix(visits, s, limit);
      WalkSeesAll(visits[..|visits| - 1], s, limit);
      NextSeesAll(visits, s, limit);
    }
  }

  lemma {:induction false} FirstSeesAll(visits: seq<Read>, s: Scope, limit: nat)
    requires IsWalk(visits, s, limit) && |visits| == 1
    ensures SeesAll(visits, s)
  {
    var first := visits[0];
    assert IsRead(first, s, limit);
    PageOfIs(first.rows, s, first.cursor, limit);
    assert visits[..0] == [];
    assert Collected(visits) == first.page.items;
  }

  lemma {:induction false} NextSeesAll(visits: seq<Read>, s: Scope, limit: nat)
    requires IsWalk(visits, s, limit) && 1 < |visits| && SeesAll(visits[..|visits| - 1], s)
    ensures SeesAll(visits, s)
  {
    var n, last := |visits|, visits[|visits| - 1];
    var before := visits[..n - 1];
    assert IsRead(last, s, limit) && before[n - 2] == visits[n - 2];
    assert visits[n - 2].page.next.Some? && visits[n - 2 + 1].cursor == visits[n - 2].page.next;
    PageOfIs(last.rows, s, last.cursor, limit);
    Joined(Collected(before), last.page.items, last.cursor.value);
    JoinSeesAll(before, visits, s, limit);
  }

  lemma Joined(a: seq<Row>, b: seq<Row>, c: Cursor)
    requires NewestFirst(a) && NewestFirst(b) && a != [] && c == KeyOf(a[|a| - 1])
    requires forall r :: r in b ==> Older(KeyOf(r), c)
    ensures NewestFirst(a + b)
  {
    forall i, j | 0 <= i < j < |a + b| ensures Older(KeyOf((a + b)[j]), KeyOf((a + b)[i])) {
      if i < |a| <= j {
        assert b[j - |a|] in b;
        assert i == |a| - 1 || Older(c, KeyOf(a[i]));
      }
    }
  }

  lemma {:induction false} JoinSeesAll(before: seq<Read>, visits: seq<Read>, s: Scope, limit: nat)
    requires IsWalk(visits, s, limit) && 1 < |visits| && before == visits[..|visits| - 1] && SeesAll(before, s)
    requires NewestFirst(Collected(visits)) && Collected(visits) == Collected(before) + visits[|visits| - 1].page.items
    ensures SeesAll(visits, s)
  {
    var last, prev := visits[|visits| - 1], visits[|visits| - 2];
    assert before[|before| - 1] == prev && before[0] == visits[0];
    assert prev.rows <= last.rows && visits[0].rows <= last.rows;
    PageOfIs(last.rows, s, last.cursor, limit);
    forall r | r in Collected(visits) ensures r in last.rows && InScope(r, s) {
      assert r in Collected(before) || r in last.page.items;
    }
    forall r | r in visits[0].rows && InScope(r, s)
      ensures r in Collected(visits) || (last.page.next.Some? && Older(KeyOf(r), last.page.next.value))
    {
      assert r in Collected(before) || Older(KeyOf(r), prev.page.next.value);
    }
  }

  /** Whenever other rows are written, and with whatever keys, a finished walk repeats and omits nothing. */
  lemma {:induction false} WalkOmitsNothing(visits: seq<Read>, s: Scope, limit: nat)
    requires IsWalk(visits, s, limit) && visits[|visits| - 1].page.next == None
    ensures var seen := Collected(visits);
      && NewestFirst(seen) && (forall i, j :: 0 <= i < j < |seen| ==> seen[i] != seen[j])
      && (forall r :: r in visits[0].rows && InScope(r, s) ==> r in seen)
      && (forall r :: r in seen ==> r in visits[|visits| - 1].rows && InScope(r, s))
  {
    WalkSeesAll(visits, s, limit);
    var seen := Collected(visits);
    forall i, j | 0 <= i < j < |seen| ensures seen[i] != seen[j] {
      assert Older(KeyOf(seen[j]), KeyOf(seen[i]));
    }
  }

  // ---------------------------------------------------------------- a client that walks

  /** What happens between two reads: rows written by others, and the stamp of the next read's own row. */
  datatype Meanwhile = Meanwhile(written: seq<Row>, stamp: Option<Cursor>)

  type Timeline = nat -> Meanwhile

  function OwnRows(actor: string, stamp: Option<Cursor>): seq<Row> {
    if stamp.Some? then [OwnRow(actor, stamp.value)] else []
  }

  /** The collection that the k-th read finds, counted from 1. */
  function RowsAt(before: seq<Row>, actor: string, timeline: Timeline, k: nat): seq<Row> {
    if k == 0 then before
    else RowsAt(before, actor, timeline, k - 1) + timeline(k - 1).written + OwnRows(actor, timeline(k - 1).stamp)
  }

  lemma {:induction false} RowsGrow(before: seq<Row>, actor: string, timeline: Timeline, j: nat, k: nat)
    requires j <= k
    ensures RowsAt(before, actor, timeline, j) <= RowsAt(before, actor, timeline, k)
  {
    if j < k {
      RowsGrow(before, actor, timeline, j, k - 1);
    }
  }

  /** Keys are never used twice, and what is written after the first read is newer than all it found. */
  ghost predicate Newer(before: seq<Row>, actor: string, timeline: Timeline) {
    var first := RowsAt(before, actor, timeline, 1);
    forall k: nat :: DistinctKeys(RowsAt(before, actor, timeline, k)) && NewerRows(RowsAt(before, actor, timeline, k), first)
  }

  ghost predicate NewerRows(rows: seq<Row>, first: seq<Row>) {
    forall r, old_ :: r in rows && r !in first && old_ in first ==> Older(KeyOf(old_), KeyOf(r))
  }

  /** The reads so far found what the timeline says. */
  ghost predicate Follows(visits: seq<Read>, before: seq<Row>, actor: string, timeline: Timeline) {
    forall i :: 0 <= i < |visits| ==> visits[i].rows == RowsAt(before, actor, timeline, i + 1)
  }

  lemma {:induction false} TimelineIsSound(visits: seq<Read>, before: seq<Row>, actor: string, timeline: Timeline)
    requires visits != [] && Follows(visits, before, actor, timeline) && Newer(before, actor, timeline)
    ensures forall i :: 0 <= i < |visits| ==> DistinctKeys(visits[i].rows)
    ensures forall i, j :: 0 <= i < j < |visits| ==> visits[i].rows <= visits[j].rows
    ensures NewRowsAreNewer(visits)
  {
    var first := RowsAt(before, actor, timeline, 1);
    assert visits[0].rows == first;
    forall i | 0 <= i < |visits| ensures DistinctKeys(visits[i].rows) && NewerRows(visits[i].rows, first) {
      var k := i + 1;
      assert visits[i].rows == RowsAt(before, actor, timeline, k);
    }
    forall i, j | 0 <= i < j < |visits| ensures visits[i].rows <= visits[j].rows {
      var m, n := i + 1, j + 1;
      RowsGrow(before, actor, timeline, m, n);
      assert visits[i].rows == RowsAt(before, actor, timeline, m) && visits[j].rows == RowsAt(before, actor, timeline, n);
    }
    forall i, r, old_ | 0 <= i < |visits| && r in visits[i].rows && r !in first && old_ in first
      ensures Older(KeyOf(old_), KeyOf(r))
    {
      assert NewerRows(visits[i].rows, first);
    }
  }

  /** One more page. */
  lemma {:induction false} NextVisit(visits: seq<Read>, s: Scope, limit: nat, v: Read)
    requires visits == [] || (IsWalk(visits, s, limit) && visits[|visits| - 1].page.next.Some?)
    requires 0 < limit && IsRead(v, s, limit)
    requires v.cursor == if visits == [] then None else visits[|visits| - 1].page.next
    requires forall i :: 0 <= i < |visits| ==> visits[i].rows <= v.rows
    ensures IsWalk(visits + [v], s, limit)
  {
    var n, all := |visits|, visits + [v];
    forall i | 0 <= i < |all| ensures IsRead(all[i], s, limit) {
      assert i == n || all[i] == visits[i];
    }
    LinkedNext(visits, v);
    forall i, j | 0 <= i < j < |all| ensures all[i].rows <= all[j].rows {
      assert all[i] == visits[i] && all[j] == if j == n then v else visits[j];
    }
  }

  lemma {:induction false} LinkedNext(visits: seq<Read>, v: Read)
    requires Linked(visits)
    requires visits != [] ==> visits[|visits| - 1].page.next.Some? && v.cursor == visits[|visits| - 1].page.next
    ensures Linked(visits + [v])
  {
    var all := visits + [v];
    forall i | 0 <= i < |all| - 1 ensures all[i].page.next.Some? && all[i + 1].cursor == all[i].page.next {
      if i + 1 < |visits| {
        assert all[i] == visits[i] && all[i + 1] == visits[i + 1];
      }
    }
  }

  lemma {:induction false} FollowsNext(visits: seq<Read>, before: seq<Row>, actor: string, timeline: Timeline, v: Read)
    requires Follows(visits, before, actor, timeline) && v.rows == RowsAt(before, actor, timeline, |visits| + 1)
    ensures Follows(visits + [v], before, actor, timeline)
  {
    var all := visits + [v];
    forall i | 0 <= i < |all| ensures all[i].rows == RowsAt(before, actor, timeline, i + 1) {
      assert i == |visits| || all[i] == visits[i];
    }
  }

  lemma {:induction false} CollectedNext(visits: seq<Read>, v: Read)
    ensures Collected(visits + [v]) == Collected(visits) + v.page.items
  {
    assert (visits + [v])[..|visits|] == visits;
  }

  ghost predicate WalksTimeline(visits: seq<Read>, before: seq<Row>, actor: string, timeline: Timeline, s: Scope, limit: nat) {
    Follows(visits, before, actor, timeline) && IsWalk(visits, s, limit) && NewRowsAreNewer(visits)
  }

  /** A page read at the cursor of the last one continues the walk, and how far it has got shows whether it ends. */
  lemma {:induction false} NextOnTimeline(visits: seq<Read>, before: seq<Row>, actor: string, timeline: Timeline, s: Scope, limit: nat, v: Read)
    requires Newer(before, actor, timeline) && 0 < limit
    requires visits == [] || (WalksTimeline(visits, before, actor, timeline, s, limit) && visits[|visits| - 1].page.next.Some?)
    requires v.rows == RowsAt(before, actor, timeline, |visits| + 1) && v.page == PageOf(v.rows, s, v.cursor, limit)
    requires v.cursor == if visits == [] then None else visits[|visits| - 1].page.next
    ensures WalksTimeline(visits + [v], before, actor, timeline, s, limit)
    ensures Collected(visits + [v]) == Collected(visits) + v.page.items
    ensures var all := Found(RowsAt(before, actor, timeline, 1), s, None); var n := |visits| + 1;
      v.page.next.Some? ==> Filled(n - 1, limit) < Filled(n, limit) < |all|
  {
    var all := visits + [v];
    FollowsNext(visits, before, actor, timeline, v);
    TimelineIsSound(all, before, actor, timeline);
    forall i | 0 <= i < |visits| ensures visits[i].rows <= v.rows {
      assert all[i].rows <= all[|visits|].rows;
    }
    NextVisit(visits, s, limit, v);
    CollectedNext(visits, v);
    GoesOn(all, s, limit, RowsAt(before, actor, timeline, 1));
  }

  lemma {:induction false} GoesOn(visits: seq<Read>, s: Scope, limit: nat, first: seq<Row>)
    requires IsWalk(visits, s, limit) && NewRowsAreNewer(visits) && visits[0].rows == first
    ensures var n := |visits|;
      visits[n - 1].page.next.Some? ==> Filled(n - 1, limit) < Filled(n, limit) < |Found(first, s, None)|
  {
    WalkTerminates(visits, s, limit);
    FilledNext(|visits| - 1, limit);
  }

  /** A walk to the null cursor has returned what its first read could see. */
  lemma {:induction false} EndOfTimeline(visits: seq<Read>, before: seq<Row>, actor: string, timeline: Timeline, s: Scope, limit: nat)
    requires visits != [] && WalksTimeline(visits, before, actor, timeline, s, limit)
    requires visits[|visits| - 1].page.next.None?
    ensures var seen := Collected(visits);
      NewestFirst(seen) && forall r :: r in seen <==> r in RowsAt(before, actor, timeline, 1) && PassesFilters(r, s)
  {
    WalkReturnsFirstSight(visits, s, limit);
    assert visits[0].rows == RowsAt(before, actor, timeline, 1);
  }

  /** Reading page after page to the null cursor terminates, with exactly the matching rows of the first read. */
  method WalkToEnd(log: AuditLog, actor: string, s: Scope, limit: nat, timeline: Timeline) returns (seen: seq<Row>)
    requires 0 < limit && Newer(log.rows, actor, timeline)
    modifies log
    ensures NewestFirst(seen)
    ensures forall r :: r in seen <==> r in RowsAt(old(log.rows), actor, timeline, 1) && PassesFilters(r, s)
  {
    ghost var before, visits: seq<Read> := log.rows, [];
    ghost var all := Found(RowsAt(before, actor, timeline, 1), s, None);
    var k, more := 0, true;
    var cursor: Option<Cursor> := None;
    seen := [];
    while more
      invariant log.rows == RowsAt(before, actor, timeline, k) && |visits| == k && Collected(visits) == seen
      invariant k == 0 ==> more && cursor == None
      invariant k > 0 ==> WalksTimeline(visits, before, actor, timeline, s, limit)
      invariant k > 0 ==> cursor == visits[k - 1].page.next && more == cursor.Some?
      invariant more && k > 0 ==> Filled(k, limit) < |all|
      decreases more, |all| - Filled(k, limit)
    {
      log.rows := log.rows + timeline(k).written;
      var page := log.ListAuditLogs(actor, s, cursor, limit, timeline(k).stamp);
      NextOnTimeline(visits, before, actor, timeline, s, limit, Read(log.rows, cursor, page));
      visits := visits + [Read(log.rows, cursor, page)];
      seen := seen + page.items;
      k := k + 1;
      cursor, more := page.next, page.next.Some?;
    }
    EndOfTimeline(visits, before, actor, timeline, s, limit);
  }
}
