/** The pool of ACTIVE lists of one shard: rotation by age, top-up to the target width, and the
    choice of a list for an allocation; each call run alone. */
module Pool {
  import opened Prelude
  import opened MetaStore
  import opened StatusList
  import BitmapStore
  import ListIds

  type Lists = map<ListId, ListMeta>

  /** The manager's settings. */
  datatype Settings = Settings(shard: Shard, width: nat, capacity: nat, bits: int, maxAge: int)

  /** Two distinct random candidates, the one with more room wins. With none there is no choice,
      with one no draw. */
  function ChooseByPowerOfTwo(c: seq<ListId>, lists: Lists, i: nat, j: nat): (r: Option<ListId>)
    requires forall id :: id in c ==> id in lists
    requires |c| >= 2 ==> i < |c| && j < |c| - 1
    ensures r.None? <==> c == []
    ensures r.Some? ==> r.value in c
    ensures |c| >= 2 ==> var k := if j >= i then j + 1 else j;
      k != i && r.value in {c[i], c[k]} && NoLessRoom(lists[r.value], lists[c[i]], lists[c[k]], r.value == c[i])
  {
    if c == [] then None
    else if |c| == 1 then Some(c[0])
    else
      var k := if j >= i then j + 1 else j;
      Some(if Remaining(lists[c[k]]) > Remaining(lists[c[i]]) then c[k] else c[i])
  }

  /** The winner has at least as many places left as either candidate, and the first candidate wins a
      tie. */
  predicate NoLessRoom(winner: ListMeta, first: ListMeta, second: ListMeta, firstWon: bool) {
    first.cursor <= first.size && second.cursor <= second.size ==>
      && winner.size - winner.cursor >= first.size - first.cursor
      && winner.size - winner.cursor >= second.size - second.cursor
      && (first.size - first.cursor == second.size - second.cursor ==> firstWon)
  }

  // ---- what a maintenance call does to the tables --------------------------------------------

  predicate Aged(lm: ListMeta, now: Time, maxAge: int) {
    maxAge > 0 && now - lm.createdAt >= maxAge
  }

  /** The lists of a sequence that are (or are not) past the maximum age, in order. */
  function Filter(ids: seq<ListId>, lists: Lists, now: Time, maxAge: int, aged: bool): (r: seq<ListId>)
    requires forall id :: id in ids ==> id in lists
    ensures |r| <= |ids|
    ensures forall id :: id in r <==> id in ids && Aged(lists[id], now, maxAge) == aged
  {
    if ids == [] then [] else
      var front, last := Filter(ids[..|ids| - 1], lists, now, maxAge, aged), ids[|ids| - 1];
      if Aged(lists[last], now, maxAge) == aged then front + [last] else front
  }

  predicate Distinct(ids: seq<ListId>) {
    forall i, j :: 0 <= i < j < |ids| ==> ids[i] != ids[j]
  }

  function FreezeEach(db: Db, ids: seq<ListId>): Db {
    if ids == [] then db else Freeze(FreezeEach(db, ids[..|ids| - 1]), ids[|ids| - 1])
  }

  function CreateEach(db: Db, ids: seq<ListId>, keys: seq<Key>, p: Settings, now: Time): Db
    requires |ids| <= |keys|
  {
    if ids == [] then db else
      var n := |ids| - 1;
      Create(CreateEach(db, ids[..n], keys, p, now), ids[n], p.bits, p.capacity, keys[n], p.shard, now)
  }

  /** A row after maintenance: frozen if it was an ACTIVE list of the shard past its age. */
  function Rotated(lm: ListMeta, p: Settings, now: Time): ListMeta {
    FrozenIf(lm, lm.shard == p.shard && Aged(lm, now, p.maxAge))
  }

  function FrozenIf(lm: ListMeta, chosen: bool): ListMeta {
    if chosen && lm.state == ACTIVE then lm.(state := FROZEN) else lm
  }

  /** The ACTIVE lists of a shard. */
  function Active(db: Db, shard: Shard): set<ListId> {
    set id | id in db.lists && db.lists[id].shard == shard && db.lists[id].state == ACTIVE
  }

  lemma {:induction false} FreezeEachActive(db: Db, ids: seq<ListId>, shard: Shard)
    ensures var db' := FreezeEach(db, ids);
      && Active(db', shard) == Active(db, shard) - (set id | id in ids)
      && db'.lists.Keys == db.lists.Keys && db'.allocations == db.allocations && db'.usage == db.usage
      && forall id :: id in db.lists ==> db'.lists[id] == FrozenIf(db.lists[id], id in ids)
  {
    if ids != [] {
      FreezeEachActive(db, ids[..|ids| - 1], shard);
    }
  }

  lemma CreateOneActive(db: Db, id: ListId, key: Key, p: Settings, now: Time)
    requires id !in db.lists
    ensures |Active(Create(db, id, p.bits, p.capacity, key, p.shard, now), p.shard)| == |Active(db, p.shard)| + 1
  {
    assert Active(Create(db, id, p.bits, p.capacity, key, p.shard, now), p.shard) == Active(db, p.shard) + {id};
  }

  /** Creation adds the named rows and changes no other. */
  lemma {:induction false} CreateEachRows(db: Db, ids: seq<ListId>, keys: seq<Key>, p: Settings, now: Time)
    requires |ids| <= |keys|
    ensures var db' := CreateEach(db, ids, keys, p, now);
      && db'.lists.Keys == db.lists.Keys + (set id | id in ids)
      && db'.allocations == db.allocations && db'.usage == db.usage
      && (forall id :: id in db.lists ==> db'.lists[id] == db.lists[id])
  {
    if ids != [] {
      CreateEachRows(db, ids[..|ids| - 1], keys, p, now);
    }
  }

  lemma {:induction false} CreateEachActive(db: Db, ids: seq<ListId>, keys: seq<Key>, p: Settings, now: Time)
    requires |ids| <= |keys|
    requires Distinct(ids)
    requires forall i :: 0 <= i < |ids| ==> ids[i] !in db.lists
    ensures |Active(CreateEach(db, ids, keys, p, now), p.shard)| == |Active(db, p.shard)| + |ids|
  {
    if ids != [] {
      var front, last := ids[..|ids| - 1], ids[|ids| - 1];
      CreateEachActive(db, front, keys, p, now);
      assert last !in CreateEach(db, front, keys, p, now).lists by {
        CreateEachRows(db, front, keys, p, now);
      }
      CreateOneActive(CreateEach(db, front, keys, p, now), last, keys[|ids| - 1], p, now);
    }
  }

  lemma {:induction false} FreezesKeepConsistent(db: Db, ids: seq<ListId>, ix: Indexer)
    requires Consistent(db, ix)
    ensures Consistent(FreezeEach(db, ids), ix)
  {
    if ids != [] {
      var before := FreezeEach(db, ids[..|ids| - 1]);
      FreezesKeepConsistent(db, ids[..|ids| - 1], ix);
      FreezeStamps(before, ids[|ids| - 1]);
      StampsKeepOk(before, FreezeEach(db, ids), ix);
    }
  }

  lemma {:induction false} CreatesKeepConsistent(db: Db, ids: seq<ListId>, keys: seq<Key>, p: Settings, now: Time,
                                                 ix: Indexer)
    requires Consistent(db, ix) && p.capacity >= 1 && |ids| <= |keys|
    ensures Consistent(CreateEach(db, ids, keys, p, now), ix)
  {
    if ids != [] {
      var n := |ids| - 1;
      CreatesKeepConsistent(db, ids[..n], keys, p, now, ix);
      CreateKeepsOk(CreateEach(db, ids[..n], keys, p, now), ids[n], p.bits, p.capacity, keys[n], p.shard, now, ix);
    }
  }

  /** How many lists a call creates beside its survivors. */
  function Missing(kept: nat, width: nat): nat {
    if kept >= width then 0 else width - kept
  }

  /** The result of a maintenance call whose query returned `active` and whose fresh lists were
      named by `ids`. */
  ghost predicate Maintained(db: Db, db': Db, active: seq<ListId>, ids: seq<ListId>, keys: seq<Key>, p: Settings,
                             now: Time)
    requires forall id :: id in active ==> id in db.lists
  {
    var kept := |Filter(active, db.lists, now, p.maxAge, false)|;
    var n := Missing(kept, p.width);
    && n <= |ids| && n <= |keys|
    && db' == CreateEach(FreezeEach(db, Filter(active, db.lists, now, p.maxAge, true)), ids[..n], keys, p, now)
  }

  ghost predicate IsActiveSeq(active: seq<ListId>, db: Db, shard: Shard) {
    && (forall id :: id in active <==> id in Active(db, shard))
    && Distinct(active)
  }

  lemma {:induction false} FilterDistinct(ids: seq<ListId>, lists: Lists, now: Time, maxAge: int, aged: bool)
    requires forall id :: id in ids ==> id in lists
    requires Distinct(ids)
    ensures Distinct(Filter(ids, lists, now, maxAge, aged))
  {
    if ids != [] {
      FilterDistinct(ids[..|ids| - 1], lists, now, maxAge, aged);
      assert ids[|ids| - 1] !in ids[..|ids| - 1];
      assert ids[|ids| - 1] !in Filter(ids[..|ids| - 1], lists, now, maxAge, aged);
    }
  }

  lemma SurvivorSet(db: Db, active: seq<ListId>, p: Settings, now: Time)
    requires IsActiveSeq(active, db, p.shard)
    ensures var frozen := Filter(active, db.lists, now, p.maxAge, true);
      |Active(db, p.shard) - (set id | id in frozen)| == |Filter(active, db.lists, now, p.maxAge, false)|
  {
    var frozen := Filter(active, db.lists, now, p.maxAge, true);
    var young := Filter(active, db.lists, now, p.maxAge, false);
    FilterDistinct(active, db.lists, now, p.maxAge, false);
    DistinctSize(young);
    assert Active(db, p.shard) - (set id | id in frozen) == set k | 0 <= k < |young| :: young[k] by {
      forall id ensures id in Active(db, p.shard) && id !in frozen <==> id in young { }
    }
  }

  /** Freezing the aged lists leaves exactly the survivors ACTIVE. */
  lemma Survivors(db: Db, active: seq<ListId>, p: Settings, now: Time)
    requires IsActiveSeq(active, db, p.shard)
    ensures var db' := FreezeEach(db, Filter(active, db.lists, now, p.maxAge, true));
      && |Active(db', p.shard)| == |Filter(active, db.lists, now, p.maxAge, false)|
      && db'.lists.Keys == db.lists.Keys && db'.allocations == db.allocations && db'.usage == db.usage
      && forall id :: id in db.lists ==> db'.lists[id] == Rotated(db.lists[id], p, now)
  {
    var frozen := Filter(active, db.lists, now, p.maxAge, true);
    var db' := FreezeEach(db, frozen);
    FreezeEachActive(db, frozen, p.shard);
    SurvivorSet(db, active, p, now);
    forall id | id in db.lists ensures db'.lists[id] == Rotated(db.lists[id], p, now) {
      assert id in active <==> id in Active(db, p.shard);
    }
  }

  lemma MaintainedRows(db: Db, db': Db, active: seq<ListId>, ids: seq<ListId>, keys: seq<Key>, p: Settings, now: Time)
    requires IsActiveSeq(active, db, p.shard) && Maintained(db, db', active, ids, keys, p, now)
    requires Distinct(ids)
    requires forall i :: 0 <= i < |ids| ==> ids[i] !in db.lists
    ensures var kept := |Filter(active, db.lists, now, p.maxAge, false)|;
      |Active(db', p.shard)| == (if kept >= p.width then kept else p.width)
    ensures forall id :: id in db.lists ==> id in db'.lists && db'.lists[id] == Rotated(db.lists[id], p, now)
    ensures db'.allocations == db.allocations && db'.usage == db.usage
  {
    var kept := |Filter(active, db.lists, now, p.maxAge, false)|;
    var n := Missing(kept, p.width);
    var mid := FreezeEach(db, Filter(active, db.lists, now, p.maxAge, true));
    Survivors(db, active, p, now);
    CreateEachActive(mid, ids[..n], keys, p, now);
    CreateEachRows(mid, ids[..n], keys, p, now);
  }

  /** After maintenance with fresh names: exactly the lists under the maximum age survive as ACTIVE,
      the aged ones are FROZEN, nothing else changes, and the shard has max(width, survivors)
      ACTIVE lists; the new ones are empty, each with its own key. */
  lemma MaintainedPool(db: Db, db': Db, active: seq<ListId>, ids: seq<ListId>, keys: seq<Key>, p: Settings, now: Time)
    requires IsActiveSeq(active, db, p.shard) && Maintained(db, db', active, ids, keys, p, now)
    requires Distinct(ids)
    requires forall i :: 0 <= i < |ids| ==> ids[i] !in db.lists
    ensures var kept := |Young(db, p, now)|; |Active(db', p.shard)| == (if kept >= p.width then kept else p.width)
    ensures forall id :: id in db.lists ==> id in db'.lists && AfterUpkeep(db.lists[id], db'.lists[id], p, now)
    ensures forall k :: 0 <= k < p.width - |Young(db, p, now)| ==>
      k < |ids| && k < |keys| && ids[k] in db'.lists && Fresh(db'.lists[ids[k]], keys[k], p, now)
    ensures db'.allocations == db.allocations && db'.usage == db.usage
  {
    YoungCount(db, active, p, now);
    MaintainedRows(db, db', active, ids, keys, p, now);
    MaintainedFresh(db, db', active, ids, keys, p, now);
  }

  lemma MaintainedFresh(db: Db, db': Db, active: seq<ListId>, ids: seq<ListId>, keys: seq<Key>, p: Settings, now: Time)
    requires IsActiveSeq(active, db, p.shard) && Maintained(db, db', active, ids, keys, p, now)
    requires Distinct(ids) && forall i :: 0 <= i < |ids| ==> ids[i] !in db.lists
    ensures forall k :: 0 <= k < p.width - |Filter(active, db.lists, now, p.maxAge, false)| ==>
      k < |ids| && k < |keys| && ids[k] in db'.lists && Fresh(db'.lists[ids[k]], keys[k], p, now)
  {
    var n := Missing(|Filter(active, db.lists, now, p.maxAge, false)|, p.width);
    var frozen := Filter(active, db.lists, now, p.maxAge, true);
    FreezeEachActive(db, frozen, p.shard);
    CreateEachKeyed(FreezeEach(db, frozen), ids[..n], keys, p, now);
    assert forall k :: 0 <= k < n ==> ids[..n][k] == ids[k];
  }

  /** The ACTIVE lists of the shard under the maximum age, if there is one. */
  function Young(db: Db, p: Settings, now: Time): set<ListId> {
    set id | id in db.lists && db.lists[id].shard == p.shard && db.lists[id].state == ACTIVE
             && (p.maxAge <= 0 || now - db.lists[id].createdAt < p.maxAge)
  }

  /** A row after maintenance: FROZEN instead of ACTIVE exactly if it is an ACTIVE list of the shard that
      has reached the maximum age. */
  predicate AfterUpkeep(lm: ListMeta, lm': ListMeta, p: Settings, now: Time) {
    if lm.shard == p.shard && lm.state == ACTIVE && 0 < p.maxAge <= now - lm.createdAt
    then lm' == lm.(state := FROZEN)
    else lm' == lm
  }

  predicate Fresh(lm: ListMeta, key: Key, p: Settings, now: Time) {
    && lm.key == key && lm.size == p.capacity && lm.bits == p.bits && lm.shard == p.shard && lm.createdAt == now
    && lm.state == ACTIVE && lm.cursor == 0 && lm.maxExp.None? && !lm.purged
  }

  lemma YoungCount(db: Db, active: seq<ListId>, p: Settings, now: Time)
    requires IsActiveSeq(active, db, p.shard)
    ensures |Young(db, p, now)| == |Filter(active, db.lists, now, p.maxAge, false)|
  {
    var young := Filter(active, db.lists, now, p.maxAge, false);
    FilterDistinct(active, db.lists, now, p.maxAge, false);
    DistinctSize(young);
    assert Young(db, p, now) == set k | 0 <= k < |young| :: young[k] by {
      forall id ensures id in Young(db, p, now) <==> id in young {
        assert id in active <==> id in Active(db, p.shard);
      }
    }
  }

  lemma {:induction false} CreateEachKeyed(db: Db, ids: seq<ListId>, keys: seq<Key>, p: Settings, now: Time)
    requires |ids| <= |keys| && Distinct(ids) && forall i :: 0 <= i < |ids| ==> ids[i] !in db.lists
    ensures var db' := CreateEach(db, ids, keys, p, now);
      forall k :: 0 <= k < |ids| ==> ids[k] in db'.lists && Fresh(db'.lists[ids[k]], keys[k], p, now)
  {
    if ids != [] {
      var front, n := ids[..|ids| - 1], |ids| - 1;
      CreateEachKeyed(db, front, keys, p, now);
      CreateEachRows(db, front, keys, p, now);
      assert ids[n] !in CreateEach(db, front, keys, p, now).lists;
    }
  }

  /** The lists a call may freeze: ACTIVE ones of its own shard, past their age. */
  ghost predicate MayFreeze(db: Db, frozen: seq<ListId>, p: Settings, now: Time) {
    forall id :: id in frozen ==> id in Active(db, p.shard) && Aged(db.lists[id], now, p.maxAge)
  }

  /** The tables after some of that freezing and then the creation of some first names, as any call of
      the manager leaves them, whether it ends well or stops at an error. */
  ghost predicate Upkeep(db: Db, db': Db, names: seq<ListId>, keys: seq<Key>, p: Settings, now: Time) {
    |names| <= |keys| && exists frozen, n ::
      MayFreeze(db, frozen, p, now) && 0 <= n <= |names| && db' == Kept(db, frozen, names, n, keys, p, now)
  }

  function Kept(db: Db, frozen: seq<ListId>, names: seq<ListId>, n: nat, keys: seq<Key>, p: Settings, now: Time): Db
    requires n <= |names| <= |keys|
  {
    CreateEach(FreezeEach(db, frozen), names[..n], keys, p, now)
  }

  lemma UpkeepConsistent(db: Db, db': Db, names: seq<ListId>, keys: seq<Key>, p: Settings, now: Time, ix: Indexer)
    requires Upkeep(db, db', names, keys, p, now) && Consistent(db, ix) && p.capacity >= 1
    ensures Consistent(db', ix)
  {
    var frozen, n :|
      MayFreeze(db, frozen, p, now) && 0 <= n <= |names| && db' == Kept(db, frozen, names, n, keys, p, now);
    assert Consistent(FreezeEach(db, frozen), ix) by {
      FreezesKeepConsistent(db, frozen, ix);
    }
    CreatesKeepConsistent(FreezeEach(db, frozen), names[..n], keys, p, now, ix);
  }

  /** A row after upkeep: as it was, or rotated, or that of a new list. */
  predicate Known(lists: Lists, id: ListId, lm: ListMeta, p: Settings, now: Time) {
    if id in lists then lm == lists[id] || lm == Rotated(lists[id], p, now)
    else lm == NewList(p.bits, p.capacity, lm.key, p.shard, now)
  }

  ghost predicate AllKnown(lists: Lists, lists': Lists, p: Settings, now: Time) {
    lists.Keys <= lists'.Keys && forall id :: id in lists' ==> Known(lists, id, lists'[id], p, now)
  }

  lemma KnownTransitive(a: Lists, b: Lists, c: Lists, p: Settings, now: Time)
    requires AllKnown(a, b, p, now) && AllKnown(b, c, p, now)
    ensures AllKnown(a, c, p, now)
  {
    forall id | id in c ensures Known(a, id, c[id], p, now) {
      assert Known(b, id, c[id], p, now);
      if id in b {
        assert Known(a, id, b[id], p, now);
      }
    }
  }

  /** Upkeep records no allocation, removes no list, changes no row except by rotation, and adds only
      lists with the drawn names and keys. */
  lemma UpkeepRows(db: Db, db': Db, names: seq<ListId>, keys: seq<Key>, p: Settings, now: Time)
    requires Upkeep(db, db', names, keys, p, now)
    ensures db'.allocations == db.allocations && db'.usage == db.usage
    ensures AllKnown(db.lists, db'.lists, p, now)
    ensures forall id :: id in db'.lists && id !in db.lists ==> id in names && db'.lists[id].key in keys
  {
    var frozen, n :|
      MayFreeze(db, frozen, p, now) && 0 <= n <= |names| && db' == Kept(db, frozen, names, n, keys, p, now);
    var mid := FreezeEach(db, frozen);
    assert mid.lists.Keys == db.lists.Keys && AllKnown(db.lists, mid.lists, p, now) && mid.allocations == db.allocations
      && mid.usage == db.usage by {
      FreezeEachActive(db, frozen, p.shard);
    }
    CreateEachRows(mid, names[..n], keys, p, now);
    CreateEachNew(mid, names[..n], keys, p, now);
    KnownTransitive(db.lists, mid.lists, db'.lists, p, now);
  }

  lemma {:induction false} CreateEachNew(db: Db, ids: seq<ListId>, keys: seq<Key>, p: Settings, now: Time)
    requires |ids| <= |keys|
    ensures var db' := CreateEach(db, ids, keys, p, now);
      forall id :: id in db'.lists && id !in db.lists ==>
        db'.lists[id].key in keys && db'.lists[id] == NewList(p.bits, p.capacity, db'.lists[id].key, p.shard, now)
  {
    if ids != [] {
      CreateEachNew(db, ids[..|ids| - 1], keys, p, now);
    }
  }

  // ---- the manager's methods ------------------------------------------------------------------

  datatype Failure = BadShard | TakenId

  /** The list IDs that random suffixes give on a shard. */
  function Names(shard: Shard, suffixes: seq<string>): (ids: seq<ListId>)
    ensures |ids| == |suffixes|
  {
    seq(|suffixes|, k requires 0 <= k < |suffixes| => ListIds.Named(shard, suffixes[k]))
  }

  /** Suffixes that have not been drawn before. */
  ghost predicate Unused(ids: seq<ListId>, db: Db) {
    Distinct(ids) && forall i :: 0 <= i < |ids| ==> ids[i] !in db.lists
  }

  /** The filter's two outputs on the first i lists. */
  ghost predicate SplitAt(ids: seq<ListId>, i: nat, rows: Lists, now: Time, maxAge: int,
                          young: seq<ListId>, aged: seq<ListId>)
    requires i <= |ids| && forall id :: id in ids ==> id in rows
  {
    young == Filter(ids[..i], rows, now, maxAge, false) && aged == Filter(ids[..i], rows, now, maxAge, true)
  }

  /** One more list seen by the filter. */
  lemma SplitStep(ids: seq<ListId>, i: nat, rows: Lists, now: Time, maxAge: int,
                  young: seq<ListId>, aged: seq<ListId>)
    requires i < |ids| && (forall id :: id in ids ==> id in rows) && SplitAt(ids, i, rows, now, maxAge, young, aged)
    ensures if Aged(rows[ids[i]], now, maxAge)
            then SplitAt(ids, i + 1, rows, now, maxAge, young, aged + [ids[i]])
            else SplitAt(ids, i + 1, rows, now, maxAge, young + [ids[i]], aged)
  {
    assert ids[..i + 1][..i] == ids[..i];
  }

  lemma FreezeStep(db: Db, ids: seq<ListId>, id: ListId)
    ensures FreezeEach(db, ids + [id]) == Freeze(FreezeEach(db, ids), id)
  {
    assert (ids + [id])[..|ids|] == ids;
  }

  /** The array is filtered in place: survivors move to its front, in order, while the aged lists are
      frozen. The first `kept` slots are then the slice the source goes on with. Ages come from
      `rows`, the rows that the query returned. */
  method Rotate(meta: Store, active: array<ListId>, rows: Lists, p: Settings, now: Time)
    returns (kept: nat)
    requires forall id :: id in active[..] ==> id in rows
    modifies meta, active
    ensures kept <= active.Length
    ensures active[..kept] == Filter(old(active[..]), rows, now, p.maxAge, false)
    ensures meta.Tables() == FreezeEach(old(meta.Tables()), Filter(old(active[..]), rows, now, p.maxAge, true))
  {
    ghost var found := active[..];
    ghost var young: seq<ListId>, aged: seq<ListId> := [], [];
    kept := 0;
    for i := 0 to active.Length
      invariant kept <= i
      invariant SplitAt(found, i, rows, now, p.maxAge, young, aged)
      invariant |young| == kept && forall k :: 0 <= k < kept ==> active[k] == young[k]
      invariant forall k :: i <= k < active.Length ==> active[k] == found[k]
      invariant meta.Tables() == FreezeEach(old(meta.Tables()), aged)
    {
      SplitStep(found, i, rows, now, p.maxAge, young, aged);
      var id := active[i];
      if Aged(rows[id], now, p.maxAge) {
        FreezeStep(old(meta.Tables()), aged, id);
        aged := aged + [id];
        meta.FreezeList(id);
      } else {
        young := young + [id];
        active[kept] := id;
        kept := kept + 1;
      }
    }
    assert found[..|found|] == found;
    assert active[..kept] == young;
  }

  /** One new list: named, recorded, its bitmap initialised. */
  method CreateList(meta: Store, bitmaps: BitmapStore.Store, p: Settings, suffix: string, key: Key, now: Time)
    returns (r: Result<ListId, Failure>)
    requires ValidBitWidth(p.bits)
    modifies meta, bitmaps
    ensures var id := ListIds.Named(p.shard, suffix);
      && (r.Err? <==> ListIds.SEPARATOR in p.shard || id in old(meta.lists))
      && (r.Err? ==> meta.Tables() == old(meta.Tables()) && bitmaps.bitmaps == old(bitmaps.bitmaps))
      && (r.Ok? ==> r.value == id)
      && (r.Ok? ==> meta.Tables() == Create(old(meta.Tables()), id, p.bits, p.capacity, key, p.shard, now))
      && (r.Ok? ==> bitmaps.StringOf(id) == Prepared(old(bitmaps.StringOf(id)), true, p))
    ensures bitmaps.versions == old(bitmaps.versions)
    ensures forall id :: id != ListIds.Named(p.shard, suffix) ==> bitmaps.StringOf(id) == old(bitmaps.StringOf(id))
  {
    var name := ListIds.New(p.shard, suffix);
    if name.Err? {
      return Err(BadShard);
    }
    var made := meta.CreateList(name.value, p.bits, p.capacity, key, p.shard, now);
    if made.Err? {
      return Err(TakenId);
    }
    bitmaps.Init(name.value, ByteLen(made.value.size, made.value.bits));
    return Ok(name.value);
  }

  /** A list's Redis string after the call: zero-filled if the list is new and had none. */
  function Prepared(s: BitmapStore.RedisString, created: bool, p: Settings): BitmapStore.RedisString
    requires ValidBitWidth(p.bits)
  {
    if created then BitmapStore.InitString(s, ByteLen(p.capacity, p.bits)) else s
  }

  method TopUp(meta: Store, bitmaps: BitmapStore.Store, p: Settings, kept: nat, suffixes: seq<string>, keys: seq<Key>,
               now: Time)
    returns (r: Result<(), Failure>, made: nat)
    requires ValidBitWidth(p.bits) && Missing(kept, p.width) <= |suffixes| && |keys| == |suffixes|
    modifies meta, bitmaps
    ensures made <= Missing(kept, p.width) && bitmaps.versions == old(bitmaps.versions)
    ensures forall id ::
      bitmaps.StringOf(id) == Prepared(old(bitmaps.StringOf(id)), id in Names(p.shard, suffixes)[..made], p)
    ensures forall id :: id in Names(p.shard, suffixes)[..made] <==> id in meta.lists && id !in old(meta.lists)
    ensures meta.Tables() == CreateEach(old(meta.Tables()), Names(p.shard, suffixes)[..made], keys, p, now)
    ensures r.Ok? ==> made == Missing(kept, p.width)
    ensures r.Err? ==>
      made < |suffixes| && (ListIds.SEPARATOR in p.shard || ListIds.Named(p.shard, suffixes[made]) in meta.lists)
  {
    made := 0;
    ghost var ids := Names(p.shard, suffixes);
    while kept + made < p.width
      invariant made <= Missing(kept, p.width) && bitmaps.versions == old(bitmaps.versions)
      invariant forall id :: bitmaps.StringOf(id) == Prepared(old(bitmaps.StringOf(id)), id in ids[..made], p)
      invariant forall id :: id in ids[..made] <==> id in meta.lists && id !in old(meta.lists)
      invariant old(meta.lists).Keys <= meta.lists.Keys
      invariant meta.Tables() == CreateEach(old(meta.Tables()), ids[..made], keys, p, now)
    {
      var one := CreateList(meta, bitmaps, p, suffixes[made], keys[made], now);
      if one.Err? {
        return Err(one.error), made;
      }
      assert ids[..made + 1] == ids[..made] + [ids[made]];
      assert ids[..made + 1][..made] == ids[..made];
      made := made + 1;
    }
    return Ok(()), made;
  }

  method EnsureHealthy(meta: Store, bitmaps: BitmapStore.Store, p: Settings, suffixes: seq<string>, keys: seq<Key>,
                       now: Time)
    returns (r: Result<(), Failure>, found: seq<ListId>)
    requires ValidBitWidth(p.bits) && p.width <= |suffixes| == |keys|
    modifies meta, bitmaps
    ensures IsActiveSeq(found, old(meta.Tables()), p.shard) && bitmaps.versions == old(bitmaps.versions)
    ensures NewPrepared(old(bitmaps.bitmaps), bitmaps.bitmaps, old(meta.lists), meta.lists, p)
    ensures Upkeep(old(meta.Tables()), meta.Tables(), Names(p.shard, suffixes), keys, p, now)
    ensures r.Ok? ==> Maintained(old(meta.Tables()), meta.Tables(), found, Names(p.shard, suffixes), keys, p, now)
    ensures ListIds.SEPARATOR !in p.shard && Unused(Names(p.shard, suffixes), old(meta.Tables())) ==> r.Ok?
  {
    found := meta.Select((lm: ListMeta) => lm.shard == p.shard && lm.state == ACTIVE);
    var active := new ListId[|found|](i requires 0 <= i < |found| => found[i]);
    assert active[..] == found;
    ghost var db, names := meta.Tables(), Names(p.shard, suffixes);
    ghost var frozen := Filter(found, db.lists, now, p.maxAge, true);
    var kept := Rotate(meta, active, meta.lists, p, now);
    assert meta.lists.Keys == db.lists.Keys by { FreezeEachActive(db, frozen, p.shard); }
    var made;
    r, made := TopUp(meta, bitmaps, p, kept, suffixes, keys, now);
    assert MayFreeze(db, frozen, p, now);
    assert meta.Tables() == Kept(db, frozen, names, made, keys, p, now);
    if r.Err? && ListIds.SEPARATOR !in p.shard && Unused(names, db) {
      UnusedStay(db, frozen, names, made, keys, p, now);
      assert false;
    }
  }

  type Strings = map<ListId, seq<bv8>>

  /** The strings of the lists created between two moments have been initialised, no other has changed. */
  ghost predicate NewPrepared(was: Strings, now: Strings, before: Lists, after: Lists,
                              p: Settings)
    requires ValidBitWidth(p.bits)
  {
    forall id ::
      BitmapStore.StringIn(now, id) == Prepared(BitmapStore.StringIn(was, id), id in after && id !in before, p)
  }

  /** A name not drawn before is still free when its turn comes. */
  lemma UnusedStay(db: Db, frozen: seq<ListId>, ids: seq<ListId>, made: nat, keys: seq<Key>, p: Settings, now: Time)
    requires Unused(ids, db) && made < |ids| <= |keys|
    ensures ids[made] !in CreateEach(FreezeEach(db, frozen), ids[..made], keys, p, now).lists
  {
    FreezeEachActive(db, frozen, p.shard);
    CreateEachRows(FreezeEach(db, frozen), ids[..made], keys, p, now);
  }

  /** The choice that two draws make among the shard's ACTIVE lists, queried in this order. */
  ghost predicate Drawn(active: seq<ListId>, db: Db, shard: Shard, i: nat, j: nat, r: Option<ListId>) {
    && IsActiveSeq(active, db, shard)
    && r == if |active| < 2 then ChooseByPowerOfTwo(active, db.lists, 0, 0)
            else ChooseByPowerOfTwo(active, db.lists, i % |active|, j % (|active| - 1))
  }

  /** Of the two distinct lists drawn, the one with more indices that no allocation row takes. */
  ghost predicate MostFree(active: seq<ListId>, db: Db, i: nat, j: nat, id: ListId) {
    |active| >= 2 ==>
      var a, b := i % |active|, j % (|active| - 1);
      var k := if b >= a then b + 1 else b;
      && a != k && {active[a], active[k], id} <= db.lists.Keys && id in {active[a], active[k]}
      && |FreeIndices(db, id)| >= |FreeIndices(db, active[a])|
      && |FreeIndices(db, id)| >= |FreeIndices(db, active[k])|
      && (|FreeIndices(db, active[a])| == |FreeIndices(db, active[k])| ==> id == active[a])
  }

  /** In a consistent store the choice is that one. */
  lemma DrawnIsMostFree(active: seq<ListId>, db: Db, shard: Shard, i: nat, j: nat, id: ListId, ix: Indexer)
    requires CollisionFree(ix) && Consistent(db, ix) && Drawn(active, db, shard, i, j, Some(id))
    ensures MostFree(active, db, i, j, id)
  {
    if |active| >= 2 {
      var a, b := i % |active|, j % (|active| - 1);
      var k := if b >= a then b + 1 else b;
      assert active[a] in Active(db, shard) && active[k] in Active(db, shard);
      MoreFree(db, id, active[a], active[k], ix);
    }
  }

  lemma MoreFree(db: Db, id: ListId, a: ListId, b: ListId, ix: Indexer)
    requires CollisionFree(ix) && Consistent(db, ix) && a in db.lists && b in db.lists && id in {a, b}
    requires NoLessRoom(db.lists[id], db.lists[a], db.lists[b], id == a)
    ensures |FreeIndices(db, id)| >= |FreeIndices(db, a)| && |FreeIndices(db, id)| >= |FreeIndices(db, b)|
    ensures |FreeIndices(db, a)| == |FreeIndices(db, b)| ==> id == a
  {
    FreeRoom(db, a, ix);
    FreeRoom(db, b, ix);
  }

  lemma FreeRoom(db: Db, id: ListId, ix: Indexer)
    requires CollisionFree(ix) && Consistent(db, ix) && id in db.lists
    ensures db.lists[id].cursor <= db.lists[id].size
    ensures |FreeIndices(db, id)| == db.lists[id].size - db.lists[id].cursor
  {
    RowsOfList(db, id, ix);
    RemainingIsFree(db, id, ix);
  }

  /** The choice among the lists a query found. */
  method Choose(meta: Store, active: seq<ListId>, shard: Shard, i: nat, j: nat) returns (r: Option<ListId>)
    requires IsActiveSeq(active, meta.Tables(), shard)
    ensures Drawn(active, meta.Tables(), shard, i, j, r)
    ensures r.None? <==> Active(meta.Tables(), shard) == {}
    ensures r.Some? ==> r.value in Active(meta.Tables(), shard)
  {
    if |active| < 2 {
      r := ChooseByPowerOfTwo(active, meta.lists, 0, 0);
    } else {
      r := ChooseByPowerOfTwo(active, meta.lists, i % |active|, j % (|active| - 1));
    }
    assert active != [] ==> active[0] in Active(meta.Tables(), shard);
  }

  /** An allocation's list: the choice among the shard's ACTIVE lists, after filling an empty pool. */
  method PickForAllocation(meta: Store, bitmaps: BitmapStore.Store, p: Settings, suffixes: seq<string>, keys: seq<Key>,
                           now: Time, i: nat, j: nat)
    returns (r: Result<Option<ListId>, Failure>, ghost candidates: seq<ListId>)
    requires ValidBitWidth(p.bits) && p.width <= |suffixes| == |keys|
    modifies meta, bitmaps
    ensures Upkeep(old(meta.Tables()), meta.Tables(), Names(p.shard, suffixes), keys, p, now)
    ensures NewPrepared(old(bitmaps.bitmaps), bitmaps.bitmaps, old(meta.lists), meta.lists, p)
    ensures bitmaps.versions == old(bitmaps.versions)
    ensures Active(old(meta.Tables()), p.shard) != {} ==> meta.Tables() == old(meta.Tables()) && r.Ok?
    ensures r.Ok? ==> Drawn(candidates, meta.Tables(), p.shard, i, j, r.value)
    ensures r.Ok? && r.value.Some? ==> forall ix :: CollisionFree(ix) && Consistent(meta.Tables(), ix) ==>
      MostFree(candidates, meta.Tables(), i, j, r.value.value)
    ensures r.Ok? ==> (r.value.None? <==> Active(meta.Tables(), p.shard) == {})
    ensures r.Ok? && r.value.Some? ==> r.value.value in Active(meta.Tables(), p.shard)
    ensures p.width >= 1 && ListIds.SEPARATOR !in p.shard && Unused(Names(p.shard, suffixes), old(meta.Tables()))
            ==> r.Ok? && r.value.Some?
  {
    ghost var db, names := meta.Tables(), Names(p.shard, suffixes);
    var active := meta.Select((lm: ListMeta) => lm.shard == p.shard && lm.state == ACTIVE);
    assert Upkeep(db, db, names, keys, p, now) by {
      assert MayFreeze(db, [], p, now) && db == Kept(db, [], names, 0, keys, p, now);
    }
    if active == [] {
      var healthy, found := EnsureHealthy(meta, bitmaps, p, suffixes, keys, now);
      if healthy.Err? {
        return Err(healthy.error), [];
      }
      if Unused(names, db) {
        MaintainedPool(db, meta.Tables(), found, names, keys, p, now);
      }
      active := meta.Select((lm: ListMeta) => lm.shard == p.shard && lm.state == ACTIVE);
    }
    assert forall id :: id in active <==> id in Active(meta.Tables(), p.shard);
    var chosen := Choose(meta, active, p.shard, i, j);
    forall ix | chosen.Some? && CollisionFree(ix) && Consistent(meta.Tables(), ix)
      ensures MostFree(active, meta.Tables(), i, j, chosen.value)
    {
      DrawnIsMostFree(active, meta.Tables(), p.shard, i, j, chosen.value, ix);
    }
    return Ok(chosen), active;
  }
}
