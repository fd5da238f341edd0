/**
 * The follow backfill (scripts/backfill-brand-scopes.ts, backfillFollows): every follow of a branded
 * business is moved to its brand, and follows that would repeat a (follower, brand) pair are deleted
 * while the loop runs. Nothing else writes to the collection meanwhile.
 */
module Backfill {
  import opened Wrappers

  datatype Follow = Follow(user: string, business: string, brand: Option<string>)

  type Follows = map<nat, Follow>

  type Brands = map<string, string>

  /** The brand a legacy row belongs to; an empty brand id counts as none. */
  function BrandOf(brands: Brands, business: string): Option<string> {
    if business in brands && brands[business] != "" then Some(brands[business]) else None
  }

  ghost predicate FollowsBrand(rows: Follows, user: string, brand: string) {
    exists id :: id in rows && rows[id].user == user && rows[id].brand == Some(brand)
  }

  /** Follows the brand itself, or through a legacy row one of its businesses. */
  ghost predicate FollowsSomehow(rows: Follows, brands: Brands, user: string, brand: string) {
    exists id :: id in rows && rows[id].user == user && Reaches(rows[id], brands, brand)
  }

  predicate Reaches(f: Follow, brands: Brands, brand: string) {
    f.brand == Some(brand) || (f.brand == None && BrandOf(brands, f.business) == Some(brand))
  }

  /** One follow per (follower, brand) where a brand is set. */
  ghost predicate UniquePairs(rows: Follows) {
    forall a, b :: a in rows && b in rows && a != b && rows[a].brand.Some? && rows[a].brand == rows[b].brand
      ==> rows[a].user != rows[b].user
  }

  predicate Legacy(f: Follow, brands: Brands) {
    f.brand == None && BrandOf(brands, f.business).Some?
  }

  datatype Change = Skipped | Collapsed | Migrated

  ghost function ChangeOf(rows: Follows, brands: Brands, id: nat): Change
    requires id in rows
  {
    var brand := BrandOf(brands, rows[id].business);
    if brand.None? then Skipped
    else if FollowsBrand(rows, rows[id].user, brand.value) then Collapsed
    else Migrated
  }

  /** What the loop does about one row. */
  ghost function Move(rows: Follows, brands: Brands, id: nat): Follows {
    if id !in rows || rows[id].brand.Some? then rows
    else match ChangeOf(rows, brands, id)
      case Skipped => rows
      case Collapsed => rows - {id}
      case Migrated => rows[id := rows[id].(brand := BrandOf(brands, rows[id].business))]
  }

  ghost function MoveAll(rows: Follows, brands: Brands, ids: seq<nat>): Follows {
    if ids == [] then rows else Move(MoveAll(rows, brands, ids[..|ids| - 1]), brands, ids[|ids| - 1])
  }

  // ---------------------------------------------------------------- what every row moved keeps

  /** `after` has lost only rows whose pair is still followed, and changed only the brand of legacy rows. */
  ghost predicate Refines(before: Follows, after: Follows, brands: Brands) {
    && (forall id :: id in after ==>
          && id in before
          && (after[id] == before[id]
              || (Legacy(before[id], brands) && after[id] == before[id].(brand := BrandOf(brands, before[id].business)))))
    && (forall id :: id in before && !Legacy(before[id], brands) ==> id in after && after[id] == before[id])
    && (forall id :: id in before && id !in after ==>
          Legacy(before[id], brands) && FollowsBrand(after, before[id].user, BrandOf(brands, before[id].business).value))
  }

  lemma MoveRefines(rows: Follows, brands: Brands, id: nat)
    ensures Refines(rows, Move(rows, brands, id), brands)
    ensures UniquePairs(rows) ==> UniquePairs(Move(rows, brands, id))
    ensures forall user, brand :: FollowsBrand(rows, user, brand) ==> FollowsBrand(Move(rows, brands, id), user, brand)
  {
    var after := Move(rows, brands, id);
    if id in rows && rows[id].brand == None {
      var brand := BrandOf(brands, rows[id].business);
      if after != rows {
        forall user, b | FollowsBrand(rows, user, b) ensures FollowsBrand(after, user, b) {
          var k :| k in rows && rows[k].user == user && rows[k].brand == Some(b);
          assert k in after && after[k] == rows[k];
        }
      }
      if brand.Some? && UniquePairs(rows) {
        forall a, b | a in after && b in after && a != b && after[a].brand.Some? && after[a].brand == after[b].brand
          ensures after[a].user != after[b].user
        {
          assert a == id || after[a] == rows[a];
          assert b == id || after[b] == rows[b];
        }
      }
    }
  }

  lemma RefinesThrough(a: Follows, b: Follows, c: Follows, brands: Brands)
    requires Refines(a, b, brands) && Refines(b, c, brands)
    requires forall user, brand :: FollowsBrand(b, user, brand) ==> FollowsBrand(c, user, brand)
    ensures Refines(a, c, brands)
  {
    forall id | id in a && id !in c
      ensures Legacy(a[id], brands) && FollowsBrand(c, a[id].user, BrandOf(brands, a[id].business).value)
    {
      if id in b {
        assert Legacy(b[id], brands) && b[id] == a[id];
      } else {
        assert FollowsBrand(b, a[id].user, BrandOf(brands, a[id].business).value);
      }
    }
  }

  lemma {:induction false} MoveAllRefines(rows: Follows, brands: Brands, ids: seq<nat>)
    ensures Refines(rows, MoveAll(rows, brands, ids), brands)
    ensures UniquePairs(rows) ==> UniquePairs(MoveAll(rows, brands, ids))
  {
    if ids != [] {
      var n := |ids| - 1;
      var before := MoveAll(rows, brands, ids[..n]);
      MoveAllRefines(rows, brands, ids[..n]);
      MoveRefines(before, brands, ids[n]);
      RefinesThrough(rows, before, MoveAll(rows, brands, ids), brands);
    }
  }

  lemma RefinesKeepsFollowing(before: Follows, after: Follows, brands: Brands, user: string, brand: string)
    requires Refines(before, after, brands)
    ensures FollowsSomehow(after, brands, user, brand) <==> FollowsSomehow(before, brands, user, brand)
  {
    if FollowsSomehow(before, brands, user, brand) {
      var id :| id in before && before[id].user == user && Reaches(before[id], brands, brand);
      if id in after {
        assert Reaches(after[id], brands, brand);
      } else {
        var k :| k in after && after[k].user == user && after[k].brand == Some(brand);
        assert Reaches(after[k], brands, brand);
      }
    }
    if FollowsSomehow(after, brands, user, brand) {
      var id :| id in after && after[id].user == user && Reaches(after[id], brands, brand);
      assert Reaches(before[id], brands, brand);
    }
  }

  /**
   * Stopped after any number of rows, in any order: nobody has gained or lost a brand they followed
   * directly or through a business, pairs that were unique still are, and rows without a brand to
   * move to are as they were.
   */
  lemma {:induction false} InterruptedBackfillLosesNobody(rows: Follows, brands: Brands, ids: seq<nat>, user: string, brand: string)
    ensures var after := MoveAll(rows, brands, ids);
      && (FollowsSomehow(after, brands, user, brand) <==> FollowsSomehow(rows, brands, user, brand))
      && (UniquePairs(rows) ==> UniquePairs(after))
      && (forall id :: id in rows && !Legacy(rows[id], brands) ==> id in after && after[id] == rows[id])
  {
    MoveAllRefines(rows, brands, ids);
    RefinesKeepsFollowing(rows, MoveAll(rows, brands, ids), brands, user, brand);
  }

  // ---------------------------------------------------------------- the finished backfill

  lemma {:induction false} MovedIsNotLegacy(rows: Follows, brands: Brands, ids: seq<nat>, id: nat)
    requires id in ids
    ensures id in MoveAll(rows, brands, ids) ==> !Legacy(MoveAll(rows, brands, ids)[id], brands)
  {
    var n := |ids| - 1;
    var before := MoveAll(rows, brands, ids[..n]);
    MoveRefines(before, brands, ids[n]);
    if ids[n] != id {
      assert id in ids[..n];
      MovedIsNotLegacy(rows, brands, ids[..n], id);
    }
  }

  /** Once every row without a brand has been visited, no legacy row is left: a second run has nothing to do. */
  lemma {:induction false} NothingLeftToMove(rows: Follows, brands: Brands, ids: seq<nat>)
    requires forall id :: id in rows && rows[id].brand == None ==> id in ids
    ensures forall id :: id in MoveAll(rows, brands, ids) ==> !Legacy(MoveAll(rows, brands, ids)[id], brands)
  {
    MoveAllRefines(rows, brands, ids);
    var after := MoveAll(rows, brands, ids);
    forall id | id in after ensures !Legacy(after[id], brands) {
      if id in ids {
        MovedIsNotLegacy(rows, brands, ids, id);
      }
    }
  }

  /** A user follows a brand afterwards exactly when they followed it, or one of its businesses, before. */
  lemma {:induction false} BrandFollowersAfter(rows: Follows, brands: Brands, ids: seq<nat>, user: string, brand: string)
    requires forall id :: id in rows && rows[id].brand == None ==> id in ids
    ensures FollowsBrand(MoveAll(rows, brands, ids), user, brand) <==> FollowsSomehow(rows, brands, user, brand)
  {
    var after := MoveAll(rows, brands, ids);
    MoveAllRefines(rows, brands, ids);
    NothingLeftToMove(rows, brands, ids);
    RefinesKeepsFollowing(rows, after, brands, user, brand);
    if FollowsSomehow(after, brands, user, brand) {
      var id :| id in after && after[id].user == user && Reaches(after[id], brands, brand);
      assert after[id].brand == Some(brand);
    }
    if FollowsBrand(after, user, brand) {
      var id :| id in after && after[id].user == user && after[id].brand == Some(brand);
      assert Reaches(after[id], brands, brand);
    }
  }

  /** A finished backfill, spelled out: brand followers are those who followed it, or a business it is the brand of. */
  lemma {:induction false} FollowersSpelledOut(rows: Follows, brands: Brands, ids: seq<nat>, user: string, brand: string)
    requires forall id :: id in rows && rows[id].brand == None ==> id in ids
    ensures (exists id :: id in MoveAll(rows, brands, ids)
                          && MoveAll(rows, brands, ids)[id].user == user && MoveAll(rows, brands, ids)[id].brand == Some(brand))
       <==> (exists id :: id in rows && rows[id].user == user
                          && (rows[id].brand == Some(brand)
                              || (rows[id].brand == None && rows[id].business in brands
                                  && brands[rows[id].business] == brand && brand != "")))
  {
    BrandFollowersAfter(rows, brands, ids, user, brand);
    assert FollowsSomehow(rows, brands, user, brand) <==>
      (exists id :: id in rows && rows[id].user == user
                    && (rows[id].brand == Some(brand)
                        || (rows[id].brand == None && rows[id].business in brands
                            && brands[rows[id].business] == brand && brand != "")));
  }

  function UnbrandedIds(rows: Follows): (ids: set<nat>)
    ensures forall id :: id in ids <==> id in rows && rows[id].brand == None
  {
    set id | id in rows && rows[id].brand == None
  }

  ghost function LegacyIds(rows: Follows, brands: Brands): (ids: set<nat>)
    ensures forall id :: id in ids <==>
              id in rows && rows[id].brand == None && rows[id].business in brands && brands[rows[id].business] != ""
  {
    set id | id in rows && Legacy(rows[id], brands)
  }

  ghost predicate ListsUnbranded(ids: seq<nat>, rows: Follows) {
    forall id :: id in ids <==> id in rows && rows[id].brand == None
  }

  ghost function LegacyAmong(rows: Follows, brands: Brands, ids: seq<nat>): set<nat> {
    set id | id in ids && id in rows && Legacy(rows[id], brands)
  }

  lemma LegacyAmongNext(rows: Follows, brands: Brands, ids: seq<nat>, k: nat)
    requires k < |ids| && ids[k] in rows && forall i, j :: 0 <= i < j < |ids| ==> ids[i] != ids[j]
    ensures |LegacyAmong(rows, brands, ids[..k + 1])|
         == |LegacyAmong(rows, brands, ids[..k])| + if Legacy(rows[ids[k]], brands) then 1 else 0
  {
    var one := if Legacy(rows[ids[k]], brands) then {ids[k]} else {};
    assert ids[..k + 1] == ids[..k] + [ids[k]] && ids[k] !in ids[..k];
    assert LegacyAmong(rows, brands, ids[..k + 1]) == LegacyAmong(rows, brands, ids[..k]) + one;
  }

  lemma {:induction false} MoveAllNext(rows: Follows, brands: Brands, ids: seq<nat>, k: nat)
    requires k < |ids|
    ensures MoveAll(rows, brands, ids[..k + 1]) == Move(MoveAll(rows, brands, ids[..k]), brands, ids[k])
  {
    assert ids[..k + 1][..k] == ids[..k];
  }

  // ---------------------------------------------------------------- the script

  class FollowCollection {
    var rows: Follows

    constructor (rows: Follows)
      ensures this.rows == rows
    {
      this.rows := rows;
    }

    /** The rows without a brand, each once, in whatever order the collection yields them. */
    method FindUnbranded() returns (ids: seq<nat>)
      ensures forall i, j :: 0 <= i < j < |ids| ==> ids[i] != ids[j]
      ensures ListsUnbranded(ids, rows)
      ensures |ids| == |UnbrandedIds(rows)|
    {
      var left := UnbrandedIds(rows);
      ghost var all := left;
      ids := [];
      while left != {}
        invariant left <= all
        invariant forall id :: id in ids <==> id in all && id !in left
        invariant forall i, j :: 0 <= i < j < |ids| ==> ids[i] != ids[j]
        invariant |ids| + |left| == |all|
        decreases |left|
      {
        var id :| id in left;
        left := left - {id};
        ids := ids + [id];
      }
    }

    method FindOne(user: string, brand: string) returns (found: bool)
      ensures found <==> FollowsBrand(rows, user, brand)
    {
      var left := rows.Keys;
      while left != {}
        invariant left <= rows.Keys
        invariant forall id :: id in rows && id !in left ==> !(rows[id].user == user && rows[id].brand == Some(brand))
        decreases |left|
      {
        var id :| id in left;
        if rows[id].user == user && rows[id].brand == Some(brand) {
          return true;
        }
        left := left - {id};
      }
      return false;
    }

    /** The loop body: one row of the list read before the loop. */
    method MoveOne(brands: Brands, id: nat, f: Follow) returns (change: Change)
      requires id in rows && rows[id] == f && f.brand == None
      modifies this
      ensures change == ChangeOf(old(rows), brands, id)
      ensures rows == Move(old(rows), brands, id)
      ensures |rows| == |old(rows)| - if change.Collapsed? then 1 else 0
      ensures forall k :: k != id ==> (k in rows <==> k in old(rows)) && (k in rows ==> rows[k] == old(rows)[k])
    {
      var brand := BrandOf(brands, f.business);
      if brand.None? {
        return Skipped;
      }
      var already := FindOne(f.user, brand.value);
      if already {
        rows := rows - {id};
        return Collapsed;
      }
      rows := rows[id := f.(brand := brand)];
      return Migrated;
    }

    method BackfillFollows(brands: Brands, dry: bool) returns (migrated: nat, collapsed: nat, skipped: nat)
      modifies this
      ensures migrated + collapsed + skipped == |UnbrandedIds(old(rows))|
      ensures dry ==> rows == old(rows) && migrated == collapsed == 0
      ensures !dry ==> exists ids :: rows == MoveAll(old(rows), brands, ids) && ListsUnbranded(ids, old(rows))
      ensures !dry ==> migrated + collapsed == |LegacyIds(old(rows), brands)|
      ensures |rows| == |old(rows)| - collapsed
    {
      var follows := FindUnbranded();
      if dry {
        return 0, 0, |follows|;
      }
      migrated, collapsed, skipped := MoveEach(brands, follows);
      assert LegacyAmong(old(rows), brands, follows) == LegacyIds(old(rows), brands);
    }

    /** The loop over the rows read before it. */
    method MoveEach(brands: Brands, follows: seq<nat>) returns (migrated: nat, collapsed: nat, skipped: nat)
      requires forall i, j :: 0 <= i < j < |follows| ==> follows[i] != follows[j]
      requires ListsUnbranded(follows, rows)
      modifies this
      ensures rows == MoveAll(old(rows), brands, follows)
      ensures migrated + collapsed + skipped == |follows| && |rows| == |old(rows)| - collapsed
      ensures migrated + collapsed == |LegacyAmong(old(rows), brands, follows)|
    {
      migrated, collapsed, skipped := 0, 0, 0;
      var k := 0;
      while k < |follows|
        invariant 0 <= k <= |follows|
        invariant migrated + collapsed + skipped == k
        invariant rows == MoveAll(old(rows), brands, follows[..k])
        invariant |rows| == |old(rows)| - collapsed
        invariant forall i :: k <= i < |follows| ==> follows[i] in rows && rows[follows[i]] == old(rows)[follows[i]]
        invariant migrated + collapsed == |LegacyAmong(old(rows), brands, follows[..k])|
      {
        var id := follows[k];
        MoveAllNext(old(rows), brands, follows, k);
        LegacyAmongNext(old(rows), brands, follows, k);
        var change := MoveOne(brands, id, rows[id]);
        assert change.Skipped? <==> !Legacy(old(rows)[id], brands);
        match change {
          case Skipped => skipped := skipped + 1;
          case Collapsed => collapsed := collapsed + 1;
          case Migrated => migrated := migrated + 1;
        }
        k := k + 1;
      }
      assert follows[..k] == follows;
    }

    /** Running it again migrates and collapses nothing, and changes no row. */
    method BackfillTwice(brands: Brands) returns (migrated: nat, collapsed: nat)
      modifies this
      ensures migrated == collapsed == 0
      ensures forall user, brand :: FollowsBrand(rows, user, brand) <==> FollowsSomehow(old(rows), brands, user, brand)
    {
      var m, c, s := BackfillFollows(brands, false);
      ghost var ids :| rows == MoveAll(old(rows), brands, ids) && ListsUnbranded(ids, old(rows));
      ghost var once := rows;
      NothingLeftToMove(old(rows), brands, ids);
      assert LegacyIds(once, brands) == {};
      migrated, collapsed, s := BackfillFollows(brands, false);
      forall user, brand ensures FollowsBrand(rows, user, brand) <==> FollowsSomehow(old(rows), brands, user, brand) {
        BrandFollowersAfter(old(rows), brands, ids, user, brand);
        ghost var again :| rows == MoveAll(once, brands, again) && ListsUnbranded(again, once);
        BrandFollowersAfter(once, brands, again, user, brand);
        MoveAllRefines(old(rows), brands, ids);
        RefinesKeepsFollowing(old(rows), once, brands, user, brand);
      }
    }
  }
}
