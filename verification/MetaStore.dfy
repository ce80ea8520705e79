/** The Postgres-backed store: lists, allocations and usage counters. Each operation is one
    statement or one transaction, hence one atomic step. */
module MetaStore {
  import opened Prelude
  import Allocator

  type ListId = string
  type Issuer = string
  type Shard = string
  type Time = int
  type Key = seq<bv8>

  /** How a list's key and size turn cursors into indices (the source's `deriveIndex`). */
  type Indexer = (Key, nat) -> (nat -> Result<nat, Allocator.Error>)

  /** All that the store relies on: indices are in range and different cursors get different ones. */
  ghost predicate CollisionFree(ix: Indexer) {
    forall key, size, c {:trigger ix(key, size)(c)} :: ix(key, size)(c).Ok? ==>
      && ix(key, size)(c).value < size
      && forall d {:trigger ix(key, size)(d)} :: d != c ==> ix(key, size)(d) != ix(key, size)(c)
  }

  /** The indexer of the service: the Feistel allocator under a keyed pseudorandom function. */
  function AllocatorIndexer(prf: Key -> Allocator.RoundFunction): Indexer {
    (key, size) => (c => if size == 0 then Err(Allocator.NoCapacity)
                         else Allocator.Index(Allocator.For(prf(key), size), c))
  }

  lemma AllocatorCollisionFree(prf: Key -> Allocator.RoundFunction)
    ensures CollisionFree(AllocatorIndexer(prf))
  {
    var ix := AllocatorIndexer(prf);
    forall key, size, c | ix(key, size)(c).Ok?
      ensures ix(key, size)(c).value < size
      ensures forall d :: d != c ==> ix(key, size)(d) != ix(key, size)(c)
    {
      var a := Allocator.For(prf(key), size);
      Allocator.IndexInRange(a, c);
      forall d | d != c ensures ix(key, size)(d) != ix(key, size)(c) {
        if Allocator.Index(a, d).Ok? {
          Allocator.IndexInjective(a, c, d);
        }
      }
    }
  }

  datatype ListState = ACTIVE | FROZEN | ARCHIVED

  datatype ListMeta = ListMeta(
    bits: int, size: nat, cursor: nat, key: Key, maxExp: Option<Time>, state: ListState,
    createdAt: Time, archivedAt: Option<Time>, shard: Shard, purged: bool, purgedAt: Option<Time>)

  datatype Allocation = Allocation(issuer: Issuer, exp: Time)

  /** The three tables; the keys of the maps are the primary keys. */
  datatype Db = Db(
    lists: map<ListId, ListMeta>,
    allocations: map<(ListId, nat), Allocation>,
    usage: map<(Issuer, Shard), nat>)

  const EMPTY: Db := Db(map[], map[], map[])

  datatype Error = ListFull | NoIndex | Conflict | NotOwner | Duplicate

  function Remaining(lm: ListMeta): nat {
    if lm.cursor >= lm.size then 0 else lm.size - lm.cursor
  }

  // ---- operations as functions of the tables ---------------------------------------------

  function NewList(bits: int, size: nat, key: Key, shard: Shard, now: Time): ListMeta {
    ListMeta(bits, size, 0, key, None, ACTIVE, now, None, shard, false, None)
  }

  function Create(db: Db, id: ListId, bits: int, size: nat, key: Key, shard: Shard, now: Time): Db {
    if id in db.lists then db else db.(lists := db.lists[id := NewList(bits, size, key, shard, now)])
  }

  function Greatest(e: Option<Time>, exp: Time): Time {
    if e.None? || e.value <= exp then exp else e.value
  }

  /** The list row after a successful reservation. */
  function Advanced(lm: ListMeta, exp: Time): ListMeta {
    lm.(cursor := lm.cursor + 1,
        state := if lm.cursor + 1 >= lm.size then FROZEN else lm.state,
        maxExp := Some(Greatest(lm.maxExp, exp)))
  }

  function UsageOf(db: Db, issuer: Issuer, shard: Shard): nat {
    if (issuer, shard) in db.usage then db.usage[(issuer, shard)] else 0
  }

  /** The reservation transaction. Every failure rolls back to the tables it started from. */
  function Reserve(db: Db, id: ListId, issuer: Issuer, shard: Shard, exp: Time,
                   derive: nat -> Result<nat, Allocator.Error>): (Db, Result<nat, Error>)
  {
    if id !in db.lists || db.lists[id].cursor >= db.lists[id].size || db.lists[id].state != ACTIVE then
      (db, Err(ListFull))
    else
      var lm := db.lists[id];
      match derive(lm.cursor)
      case Err(_) => (db, Err(NoIndex))
      case Ok(idx) =>
        if (id, idx) in db.allocations then (db, Err(Conflict)) else
          (Db(db.lists[id := Advanced(lm, exp)],
              db.allocations[(id, idx) := Allocation(issuer, exp)],
              db.usage[(issuer, shard) := UsageOf(db, issuer, shard) + 1]),
           Ok(idx))
  }

  function Freeze(db: Db, id: ListId): Db {
    if id in db.lists && db.lists[id].state == ACTIVE
    then db.(lists := db.lists[id := db.lists[id].(state := FROZEN)])
    else db
  }

  function Archive(db: Db, id: ListId, now: Time): Db {
    if id in db.lists && db.lists[id].state == FROZEN
    then db.(lists := db.lists[id := db.lists[id].(state := ARCHIVED, archivedAt := Some(now))])
    else db
  }

  function MarkPurged(db: Db, id: ListId, now: Time): Db {
    if id in db.lists
    then db.(lists := db.lists[id := db.lists[id].(purged := true, purgedAt := Some(now))])
    else db
  }

  function Delete(db: Db, id: ListId): Db {
    db.(lists := db.lists - {id},
        allocations := map k | k in db.allocations && k.0 != id :: db.allocations[k])
  }

  predicate PastGrace(lm: ListMeta, cutoff: Time) {
    lm.state == FROZEN && (lm.maxExp.None? || lm.maxExp.value <= cutoff)
  }

  predicate PastRetention(lm: ListMeta, cutoff: Time) {
    lm.state == ARCHIVED && !lm.purged && lm.archivedAt.Some? && lm.archivedAt.value <= cutoff
  }

  predicate PastDbRetention(lm: ListMeta, cutoff: Time) {
    lm.purged && lm.purgedAt.Some? && lm.purgedAt.value <= cutoff
  }

  predicate IsAllocated(db: Db, id: ListId, idx: nat) {
    (id, idx) in db.allocations
  }

  function CheckOwnership(db: Db, id: ListId, idx: nat, issuer: Issuer): Result<(), Error> {
    if (id, idx) in db.allocations && db.allocations[(id, idx)].issuer == issuer then Ok(()) else Err(NotOwner)
  }

  // ---- the invariant ---------------------------------------------------------------------

  /** The indices handed out by the cursors below k. */
  function Handed(derive: nat -> Result<nat, Allocator.Error>, k: nat): set<nat> {
    if k == 0 then {} else
      Handed(derive, k - 1) + (match derive(k - 1) case Ok(i) => {i} case Err(_) => {})
  }

  ghost predicate Converges(derive: nat -> Result<nat, Allocator.Error>, k: nat) {
    forall c :: 0 <= c < k ==> derive(c).Ok?
  }

  /** The derivation every process uses for a list row. */
  function Derive(ix: Indexer, lm: ListMeta): nat -> Result<nat, Allocator.Error> {
    ix(lm.key, lm.size)
  }

  /** The indices with a row in the allocations table. */
  function Rows(db: Db, id: ListId): set<nat> {
    set k | k in db.allocations && k.0 == id :: k.1
  }

  ghost predicate MaxExpIs(db: Db, id: ListId, m: Option<Time>) {
    && (m.None? <==> Rows(db, id) == {})
    && (m.Some? ==>
        && (exists i :: (id, i) in db.allocations && db.allocations[(id, i)].exp == m.value)
        && forall i :: (id, i) in db.allocations ==> db.allocations[(id, i)].exp <= m.value)
  }

  ghost predicate ListOk(db: Db, id: ListId, ix: Indexer)
    requires id in db.lists
  {
    var lm := db.lists[id];
    && lm.size >= 1 && lm.cursor <= lm.size
    && (lm.state == ACTIVE ==> lm.cursor < lm.size)
    && Converges(Derive(ix, lm), lm.cursor)
    && Rows(db, id) == Handed(Derive(ix, lm), lm.cursor)
    && MaxExpIs(db, id, lm.maxExp)
  }

  /** What every operation keeps. */
  ghost predicate Consistent(db: Db, ix: Indexer) {
    && (forall id :: id in db.lists ==> ListOk(db, id, ix))
    && (forall k :: k in db.allocations ==> k.0 in db.lists)
  }

  lemma {:induction false} HandedMembers(derive: nat -> Result<nat, Allocator.Error>, k: nat)
    ensures forall i :: i in Handed(derive, k) <==> exists c :: 0 <= c < k && derive(c) == Ok(i)
  {
    if k != 0 {
      HandedMembers(derive, k - 1);
    }
  }

  lemma {:induction false} HandedExact(ix: Indexer, lm: ListMeta, k: nat)
    requires CollisionFree(ix) && Converges(Derive(ix, lm), k)
    ensures |Handed(Derive(ix, lm), k)| == k
    ensures forall i :: i in Handed(Derive(ix, lm), k) ==> i < lm.size
  {
    if k != 0 {
      HandedExact(ix, lm, k - 1);
      HandedFresh(ix, lm, k - 1);
      assert Derive(ix, lm)(k - 1).Ok?;
    }
  }

  /** A cursor's index is not among those of smaller cursors. */
  lemma HandedFresh(ix: Indexer, lm: ListMeta, k: nat)
    requires CollisionFree(ix) && Derive(ix, lm)(k).Ok?
    ensures Derive(ix, lm)(k).value !in Handed(Derive(ix, lm), k)
  {
    HandedBelow(ix, lm, k, k);
  }

  lemma {:induction false} HandedBelow(ix: Indexer, lm: ListMeta, j: nat, k: nat)
    requires CollisionFree(ix) && Derive(ix, lm)(k).Ok? && j <= k
    ensures Derive(ix, lm)(k).value !in Handed(Derive(ix, lm), j)
  {
    if j != 0 {
      HandedBelow(ix, lm, j - 1, k);
      assert Derive(ix, lm)(j - 1) != Derive(ix, lm)(k);
    }
  }

  /** Row count equals the cursor, rows are the indices of the cursors used, and a full list has
      handed out every index exactly once. */
  lemma RowsOfList(db: Db, id: ListId, ix: Indexer)
    requires CollisionFree(ix) && Consistent(db, ix) && id in db.lists
    ensures |Rows(db, id)| == db.lists[id].cursor <= db.lists[id].size
    ensures forall i :: i in Rows(db, id) <==>
      exists c :: 0 <= c < db.lists[id].cursor && Derive(ix, db.lists[id])(c) == Ok(i)
    ensures db.lists[id].cursor == db.lists[id].size ==> Rows(db, id) == Range(0, db.lists[id].size)
  {
    var lm := db.lists[id];
    HandedExact(ix, lm, lm.cursor);
    HandedMembers(Derive(ix, lm), lm.cursor);
    SubsetSize(Rows(db, id), Range(0, lm.size));
  }

  /** The indices of a list that no allocation row takes. */
  function FreeIndices(db: Db, id: ListId): set<nat>
    requires id in db.lists
  {
    set i: nat | i < db.lists[id].size && (id, i) !in db.allocations
  }

  /** What `Remaining` reports is how many indices are free. */
  lemma RemainingIsFree(db: Db, id: ListId, ix: Indexer)
    requires CollisionFree(ix) && Consistent(db, ix) && id in db.lists
    ensures Remaining(db.lists[id]) == |FreeIndices(db, id)| == db.lists[id].size - |Rows(db, id)|
  {
    RowsOfList(db, id, ix);
    FreeIsRest(db, id);
    assert Rows(db, id) <= Range(0, db.lists[id].size) by { HandedExact(ix, db.lists[id], db.lists[id].cursor); }
    RestSize(Range(0, db.lists[id].size), Rows(db, id));
  }

  lemma FreeIsRest(db: Db, id: ListId)
    requires id in db.lists
    ensures FreeIndices(db, id) == Range(0, db.lists[id].size) - Rows(db, id)
  {
    forall i: nat ensures i in Rows(db, id) <==> (id, i) in db.allocations { }
  }

  lemma RestSize(all: set<nat>, some: set<nat>)
    requires some <= all
    ensures |all - some| == |all| - |some|
  {
  }

  /** The insert never meets a primary-key conflict. */
  lemma ReserveNoConflict(db: Db, id: ListId, issuer: Issuer, shard: Shard, exp: Time, ix: Indexer)
    requires CollisionFree(ix) && Consistent(db, ix) && id in db.lists
    ensures Reserve(db, id, issuer, shard, exp, Derive(ix, db.lists[id])).1 != Err(Conflict)
  {
    var lm := db.lists[id];
    if Derive(ix, lm)(lm.cursor).Ok? {
      HandedFresh(ix, lm, lm.cursor);
      var i := Derive(ix, lm)(lm.cursor).value;
      assert (id, i) in db.allocations ==> i in Rows(db, id);
    }
  }

  lemma ReserveKeepsOk(db: Db, id: ListId, issuer: Issuer, shard: Shard, exp: Time, ix: Indexer)
    requires Consistent(db, ix) && id in db.lists
    ensures Consistent(Reserve(db, id, issuer, shard, exp, Derive(ix, db.lists[id])).0, ix)
  {
    var lm := db.lists[id];
    var (db', r) := Reserve(db, id, issuer, shard, exp, Derive(ix, lm));
    if r.Ok? {
      InsertKeepsOk(db, db', id, r.value, Allocation(issuer, exp), ix);
    }
  }

  lemma InsertKeepsOk(db: Db, db': Db, id: ListId, i: nat, row: Allocation, ix: Indexer)
    requires Consistent(db, ix) && id in db.lists && db.lists[id].cursor < db.lists[id].size
    requires Derive(ix, db.lists[id])(db.lists[id].cursor) == Ok(i) && (id, i) !in db.allocations
    requires db'.lists == db.lists[id := Advanced(db.lists[id], row.exp)]
    requires db'.allocations == db.allocations[(id, i) := row]
    ensures Consistent(db', ix)
  {
    assert ListOk(db', id, ix) by {
      RowsAfterInsert(db, db', id, i, row);
      ReservedListOk(db, db', id, i, row, ix);
    }
    forall other | other in db'.lists && other != id ensures ListOk(db', other, ix) {
      OtherListOk(db, db', id, i, row, other, ix);
    }
  }

  lemma OtherListOk(db: Db, db': Db, id: ListId, i: nat, row: Allocation, other: ListId, ix: Indexer)
    requires other in db.lists && other != id && ListOk(db, other, ix)
    requires other in db'.lists && db'.lists[other] == db.lists[other]
    requires db'.allocations == db.allocations[(id, i) := row]
    ensures ListOk(db', other, ix)
  {
    SameListOk(db, db', other, ix);
  }

  /** A list whose row and allocations are unchanged stays as consistent as it was. */
  lemma SameListOk(db: Db, db': Db, id: ListId, ix: Indexer)
    requires id in db.lists && ListOk(db, id, ix) && id in db'.lists && db'.lists[id] == db.lists[id]
    requires forall i :: (id, i) in db.allocations <==> (id, i) in db'.allocations
    requires forall i :: (id, i) in db.allocations ==> db.allocations[(id, i)] == db'.allocations[(id, i)]
    ensures ListOk(db', id, ix)
  {
    OtherRows(db, db', id);
  }

  lemma RowsAfterInsert(db: Db, db': Db, id: ListId, i: nat, row: Allocation)
    requires db'.allocations == db.allocations[(id, i) := row]
    ensures Rows(db', id) == Rows(db, id) + {i}
  {
    assert (id, i) in db'.allocations;
    forall j | j in Rows(db, id) ensures j in Rows(db', id) {
      assert (id, j) in db'.allocations;
    }
  }

  lemma ReservedListOk(db: Db, db': Db, id: ListId, i: nat, row: Allocation, ix: Indexer)
    requires id in db.lists && ListOk(db, id, ix) && id in db'.lists
    requires db'.lists[id] == Advanced(db.lists[id], row.exp) && db.lists[id].cursor < db.lists[id].size
    requires Derive(ix, db.lists[id])(db.lists[id].cursor) == Ok(i) && (id, i) !in db.allocations
    requires db'.allocations == db.allocations[(id, i) := row]
    requires Rows(db', id) == Rows(db, id) + {i}
    ensures ListOk(db', id, ix)
  {
    MaxExpGrows(db, db', id, i, row);
    assert Derive(ix, db'.lists[id]) == Derive(ix, db.lists[id]);
  }

  lemma MaxExpGrows(db: Db, db': Db, id: ListId, i: nat, row: Allocation)
    requires id in db.lists && MaxExpIs(db, id, db.lists[id].maxExp)
    requires (id, i) !in db.allocations
    requires db'.allocations == db.allocations[(id, i) := row]
    ensures MaxExpIs(db', id, Some(Greatest(db.lists[id].maxExp, row.exp)))
  {
    var m, exp := db.lists[id].maxExp, row.exp;
    assert (id, i) in db'.allocations;
    assert i in Rows(db', id);
    forall j | (id, j) in db'.allocations
      ensures db'.allocations[(id, j)].exp <= Greatest(m, exp)
    {
      if j != i {
        assert (id, j) in db.allocations;
        assert j in Rows(db, id);
      }
    }
    if m.Some? && m.value > exp {
      var j :| (id, j) in db.allocations && db.allocations[(id, j)].exp == m.value;
      assert (id, j) in db'.allocations;
    }
  }

  /** The rows of a list and their maximum expiry depend on its own allocations alone. */
  lemma OtherRows(db: Db, db': Db, id: ListId)
    requires forall i :: (id, i) in db.allocations <==> (id, i) in db'.allocations
    requires forall i :: (id, i) in db.allocations ==> db.allocations[(id, i)] == db'.allocations[(id, i)]
    ensures Rows(db, id) == Rows(db', id)
    ensures forall m :: MaxExpIs(db, id, m) ==> MaxExpIs(db', id, m)
  {
    forall i ensures i in Rows(db, id) <==> i in Rows(db', id) {
      assert i in Rows(db, id) <==> (id, i) in db.allocations;
      assert i in Rows(db', id) <==> (id, i) in db'.allocations;
    }
  }

  lemma CreateKeepsOk(db: Db, id: ListId, bits: int, size: nat, key: Key, shard: Shard, now: Time, ix: Indexer)
    requires Consistent(db, ix) && size >= 1
    ensures Consistent(Create(db, id, bits, size, key, shard, now), ix)
  {
    var db' := Create(db, id, bits, size, key, shard, now);
    if id !in db.lists {
      NewListOk(db, id, bits, size, key, shard, now, ix);
      forall other | other in db'.lists && other != id ensures ListOk(db', other, ix) {
        SameListOk(db, db', other, ix);
      }
    }
  }

  lemma NewListOk(db: Db, id: ListId, bits: int, size: nat, key: Key, shard: Shard, now: Time, ix: Indexer)
    requires id !in db.lists && size >= 1 && forall k :: k in db.allocations ==> k.0 in db.lists
    ensures var db' := Create(db, id, bits, size, key, shard, now); id in db'.lists && ListOk(db', id, ix)
  {
    assert Rows(Create(db, id, bits, size, key, shard, now), id) == {};
  }

  /** Operations that touch neither allocations nor cursors, only a list's state and stamps. */
  ghost predicate OnlyStamps(db: Db, db': Db) {
    && db'.allocations == db.allocations && db'.usage == db.usage && db'.lists.Keys == db.lists.Keys
    && forall id :: id in db.lists ==>
         var lm, lm' := db.lists[id], db'.lists[id];
         && lm'.size == lm.size && lm'.cursor == lm.cursor && lm'.key == lm.key && lm'.maxExp == lm.maxExp
         && lm'.bits == lm.bits && lm'.shard == lm.shard && lm'.createdAt == lm.createdAt
         && (lm'.state == ACTIVE ==> lm.state == ACTIVE)
  }

  lemma StampsKeepOk(db: Db, db': Db, ix: Indexer)
    requires Consistent(db, ix) && OnlyStamps(db, db')
    ensures Consistent(db', ix)
  {
    forall id | id in db'.lists ensures ListOk(db', id, ix) {
      OtherRows(db, db', id);
    }
  }

  lemma FreezeStamps(db: Db, id: ListId)
    ensures OnlyStamps(db, Freeze(db, id))
  {
  }

  lemma ArchiveStamps(db: Db, id: ListId, now: Time)
    ensures OnlyStamps(db, Archive(db, id, now))
  {
  }

  lemma PurgeStamps(db: Db, id: ListId, now: Time)
    ensures OnlyStamps(db, MarkPurged(db, id, now))
  {
  }

  lemma DeleteKeepsOk(db: Db, id: ListId, ix: Indexer)
    requires Consistent(db, ix)
    ensures Consistent(Delete(db, id), ix)
  {
    var db' := Delete(db, id);
    forall other | other in db'.lists ensures ListOk(db', other, ix) {
      OtherRows(db, db', other);
    }
  }

  /** Deleting a list removes exactly its rows. */
  lemma DeleteCount(db: Db, id: ListId)
    ensures |Delete(db, id).allocations| + |Rows(db, id)| == |db.allocations|
  {
    var ks := db.allocations.Keys;
    SplitSize(ks, id);
    assert Delete(db, id).allocations.Keys == NotOf(ks, id);
    assert Rows(db, id) == set k | k in Of(ks, id) :: k.1;
    KeyedSize(Of(ks, id), Rows(db, id), id);
  }

  /** The keys of one list, and the others. */
  function Of(ks: set<(ListId, nat)>, id: ListId): set<(ListId, nat)> {
    set k | k in ks && k.0 == id
  }

  function NotOf(ks: set<(ListId, nat)>, id: ListId): set<(ListId, nat)> {
    set k | k in ks && k.0 != id
  }

  lemma SplitSize(ks: set<(ListId, nat)>, id: ListId)
    ensures |Of(ks, id)| + |NotOf(ks, id)| == |ks|
  {
    assert ks == Of(ks, id) + NotOf(ks, id);
  }

  lemma {:induction false} KeyedSize(ks: set<(ListId, nat)>, idxs: set<nat>, id: ListId)
    requires forall k :: k in ks ==> k.0 == id
    requires idxs == set k | k in ks :: k.1
    ensures |ks| == |idxs|
    decreases ks
  {
    if ks != {} {
      var k :| k in ks;
      assert idxs - {k.1} == set x | x in ks - {k} :: x.1;
      KeyedSize(ks - {k}, idxs - {k.1}, id);
    }
  }

  /** A list whose next cursor does not converge refuses every reservation, unchanged. */
  lemma StuckList(db: Db, id: ListId, issuer: Issuer, shard: Shard, exp: Time, ix: Indexer)
    requires id in db.lists && Derive(ix, db.lists[id])(db.lists[id].cursor).Err?
    ensures Reserve(db, id, issuer, shard, exp, Derive(ix, db.lists[id])).0 == db
    ensures Reserve(db, id, issuer, shard, exp, Derive(ix, db.lists[id])).1.Err?
  {
  }

  // ---- the store ---------------------------------------------------------------------------

  class Store {
    var lists: map<ListId, ListMeta>
    var allocations: map<(ListId, nat), Allocation>
    var usage: map<(Issuer, Shard), nat>

    constructor ()
      ensures Tables() == EMPTY
    {
      lists, allocations, usage := map[], map[], map[];
    }

    function Tables(): Db
      reads this
    {
      Db(lists, allocations, usage)
    }

    method CreateList(id: ListId, bits: int, size: nat, key: Key, shard: Shard, now: Time)
      returns (r: Result<ListMeta, Error>)
      modifies this
      ensures Tables() == Create(old(Tables()), id, bits, size, key, shard, now)
      ensures r == if id in old(lists) then Err(Duplicate) else Ok(lists[id])
      ensures r.Ok? ==> var lm := r.value;
        && lm.bits == bits && lm.size == size && lm.key == key && lm.shard == shard && lm.createdAt == now
        && lm.state == ACTIVE && lm.cursor == 0 && lm.maxExp.None? && lm.archivedAt.None?
        && !lm.purged && lm.purgedAt.None?
    {
      if id in lists {
        return Err(Duplicate);
      }
      lists := lists[id := NewList(bits, size, key, shard, now)];
      return Ok(lists[id]);
    }

    /** The rows a query selects, in some order, each once. */
    method Select(where: ListMeta -> bool) returns (found: seq<ListId>)
      ensures forall id :: id in found <==> id in lists && where(lists[id])
      ensures forall i, j :: 0 <= i < j < |found| ==> found[i] != found[j]
    {
      found := [];
      var todo := lists.Keys;
      while todo != {}
        invariant todo <= lists.Keys
        invariant forall id :: id in found <==> id in lists && id !in todo && where(lists[id])
        invariant forall i, j :: 0 <= i < j < |found| ==> found[i] != found[j]
        decreases todo
      {
        var id :| id in todo;
        if where(lists[id]) {
          found := found + [id];
        }
        todo := todo - {id};
      }
    }

    method FreezeList(id: ListId)
      modifies this
      ensures Tables() == Freeze(old(Tables()), id)
    {
      if id in lists && lists[id].state == ACTIVE {
        lists := lists[id := lists[id].(state := FROZEN)];
      }
    }

    method ArchiveList(id: ListId, now: Time)
      modifies this
      ensures Tables() == Archive(old(Tables()), id, now)
    {
      if id in lists && lists[id].state == FROZEN {
        lists := lists[id := lists[id].(state := ARCHIVED, archivedAt := Some(now))];
      }
    }

    method MarkListPurged(id: ListId, now: Time)
      modifies this
      ensures Tables() == MarkPurged(old(Tables()), id, now)
    {
      if id in lists {
        lists := lists[id := lists[id].(purged := true, purgedAt := Some(now))];
      }
    }

    method DeleteList(id: ListId)
      modifies this
      ensures Tables() == Delete(old(Tables()), id)
    {
      allocations := map k | k in allocations && k.0 != id :: allocations[k];
      lists := lists - {id};
    }

    /** The transaction, statement by statement on a private copy; committing publishes it. */
    method ReserveCursorAndRecord(id: ListId, issuer: Issuer, shard: Shard, exp: Time,
                                  derive: nat -> Result<nat, Allocator.Error>)
      returns (r: Result<nat, Error>)
      modifies this
      ensures (Tables(), r) == Reserve(old(Tables()), id, issuer, shard, exp, derive)
      ensures r.Err? ==> Tables() == old(Tables())
    {
      var tx := Tables();
      if id !in tx.lists || tx.lists[id].cursor >= tx.lists[id].size || tx.lists[id].state != ACTIVE {
        return Err(ListFull);
      }
      var lm := tx.lists[id];
      var cursor, size := lm.cursor, lm.size;
      lm := lm.(cursor := cursor + 1, state := if cursor + 1 >= size then FROZEN else lm.state);
      tx := tx.(lists := tx.lists[id := lm]);
      var idx;
      match derive(cursor)
      case Err(_) => return Err(NoIndex);
      case Ok(i) => idx := i;
      tx := tx.(lists := tx.lists[id := lm.(maxExp := Some(Greatest(lm.maxExp, exp)))]);
      assert tx.lists == old(lists)[id := Advanced(old(lists)[id], exp)];
      if (id, idx) in tx.allocations {
        return Err(Conflict);
      }
      tx := tx.(allocations := tx.allocations[(id, idx) := Allocation(issuer, exp)]);
      tx := tx.(usage := tx.usage[(issuer, shard) := UsageOf(tx, issuer, shard) + 1]);
      lists, allocations, usage := tx.lists, tx.allocations, tx.usage;
      return Ok(idx);
    }
  }
}
