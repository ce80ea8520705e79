/** The two write handlers of the ingestion service, each request run alone.
    (Lifecycle, Decoy and DirtyPublish interleave their steps with everything else.) */
module Ingestion {
  import opened Prelude
  import opened MetaStore
  import opened StatusList
  import BitmapStore
  import Allocator
  import Lifecycle
  import Pool
  import ListIds

  const MAX_ATTEMPTS: nat := 5

  /** The random choices one attempt may need. */
  datatype Draws = Draws(suffixes: seq<string>, keys: seq<Key>, i: nat, j: nat)

  predicate Enough(d: Draws, p: Pool.Settings) {
    p.width <= |d.suffixes| == |d.keys|
  }

  /** Every list's bytes can be addressed without wrap-around. */
  predicate Addressable(db: Db) {
    forall id :: id in db.lists ==> Fits(db.lists[id].size, db.lists[id].bits)
  }

  predicate KeysOk(db: Db) {
    forall id :: id in db.lists ==> |db.lists[id].key| == 32
  }

  // ---- allocation ------------------------------------------------------------------------------

  datatype AllocateResponse =
    | TooLate                                          // 400, expiry past the bound
    | NoList                                           // 503, nothing ACTIVE
    | Failed                                           // 500
    | Exhausted                                        // 503, every attempt met a full list
    | Created(list: ListId, idx: nat, exp: Time)   // 201

  /** What one attempt on a picked list does to the tables it saw, and what it answers. `None` means a
      full list, so that the caller tries again. */
  ghost predicate Attempted(mid: Db, id: ListId, db': Db, r: Option<AllocateResponse>,
                            issuer: Issuer, p: Pool.Settings, exp: Time, ix: Indexer)
    requires id in mid.lists
  {
    var lm := mid.lists[id];
    if |lm.key| != 32 || lm.size == 0 then db' == mid && r == Some(Failed)
    else
      var (after, res) := Reserve(mid, id, issuer, p.shard, exp, Derive(ix, lm));
      && db' == after
      && r == match res
         case Ok(idx) => Some(Created(id, idx, exp))
         case Err(e) => if e == ListFull then None else Some(Failed)
  }

  lemma MaskedValid(m: bv8)
    ensures VALID & m == VALID
  {
  }

  predicate HandsOut(r: Option<AllocateResponse>, id: ListId) {
    r.Some? && r.value.Created? && r.value.list == id
  }

  /** A string after an answer about its list: the index handed out reads VALID, whatever noise was
      there, and its neighbours are as they were. */
  ghost predicate ResetIn(s: BitmapStore.RedisString, s': BitmapStore.RedisString, idx: nat, lm: ListMeta) {
    && Fits(lm.size, lm.bits) && idx < lm.size
    && BitmapStore.View(s', lm.size, lm.bits) == BitmapStore.View(s, lm.size, lm.bits)[idx := VALID]
  }

  /** All strings after an attempt on a picked list. */
  ghost predicate Reset(was: Pool.Strings, now: Pool.Strings, r: Option<AllocateResponse>, lists: Pool.Lists) {
    forall id :: ResetOne(BitmapStore.StringIn(was, id), BitmapStore.StringIn(now, id), r, lists, id)
  }

  ghost predicate ResetOne(s: BitmapStore.RedisString, s': BitmapStore.RedisString, r: Option<AllocateResponse>,
                           lists: Pool.Lists, id: ListId) {
    if HandsOut(r, id) then id in lists && ResetIn(s, s', r.value.idx, lists[id]) else s' == s
  }

  /** The versions after an answer: one bump, of the list an index was handed out in. */
  ghost predicate Bumped(was: map<ListId, nat>, now: map<ListId, nat>, r: Option<AllocateResponse>) {
    forall id :: BitmapStore.VersionIn(now, id) == BitmapStore.VersionIn(was, id) + (if HandsOut(r, id) then 1 else 0)
  }

  /** Both stores at one moment. */
  datatype World = World(db: Db, strings: Pool.Strings, versions: map<ListId, nat>)

  function Now(meta: Store, bitmaps: BitmapStore.Store): World
    reads meta, bitmaps
  {
    World(meta.Tables(), bitmaps.bitmaps, bitmaps.versions)
  }

  /** One attempt on a picked list: allocator, reservation, reset. */
  method ReserveAndReset(meta: Store, bitmaps: BitmapStore.Store, p: Pool.Settings, issuer: Issuer, exp: Time,
                         prf: Key -> Allocator.RoundFunction, id: ListId)
    returns (r: Option<AllocateResponse>)
    requires id in meta.lists && Fits(meta.lists[id].size, meta.lists[id].bits)
    modifies meta, bitmaps
    ensures Attempted(old(meta.Tables()), id, meta.Tables(), r, issuer, p, exp, AllocatorIndexer(prf))
    ensures Reset(old(bitmaps.bitmaps), bitmaps.bitmaps, r, old(meta.lists))
    ensures Bumped(old(bitmaps.versions), bitmaps.versions, r)
  {
    var lm := meta.lists[id];
    var alloc := Allocator.New(|lm.key|, prf(lm.key), lm.size);
    if alloc.Err? {
      return Some(Failed);
    }
    var idx := meta.ReserveCursorAndRecord(id, issuer, p.shard, exp, Derive(AllocatorIndexer(prf), lm));
    if idx.Err? {
      return if idx.error == ListFull then None else Some(Failed);
    }
    Allocator.IndexInRange(alloc.value, lm.cursor);
    r := Some(Created(id, idx.value, exp));
    ResetIndex(bitmaps, id, idx.value, lm, r, old(meta.lists));
  }

  /** The reset itself. */
  method ResetIndex(bitmaps: BitmapStore.Store, id: ListId, idx: nat, lm: ListMeta,
                    ghost r: Option<AllocateResponse>, ghost lists: Pool.Lists)
    requires Fits(lm.size, lm.bits) && idx < lm.size && HandsOut(r, id) && r.value.idx == idx
    requires id in lists && lists[id] == lm
    modifies bitmaps
    ensures Reset(old(bitmaps.bitmaps), bitmaps.bitmaps, r, lists)
    ensures Bumped(old(bitmaps.versions), bitmaps.versions, r)
  {
    MaskedValid(Mask(lm.bits));
    var _ := BitmapStore.WriteStatus(bitmaps, id, idx, lm.size, lm.bits, VALID);
    forall other ensures ResetOne(BitmapStore.StringIn(old(bitmaps.bitmaps), other),
                                  BitmapStore.StringIn(bitmaps.bitmaps, other), r, lists, other)
    {
      assert other != id ==> bitmaps.StringOf(other) == old(bitmaps.StringOf(other));
    }
    forall other ensures BitmapStore.VersionIn(bitmaps.versions, other)
      == BitmapStore.VersionIn(old(bitmaps.versions), other) + (if HandsOut(r, other) then 1 else 0)
    {
      assert other != id ==> bitmaps.VersionOf(other) == old(bitmaps.VersionOf(other));
    }
  }

  /** In a consistent store an ACTIVE list is never full, so the attempt is decided by the index
      alone: it succeeds if and only if the walk from the list's cursor converges. */
  lemma FirstAttempt(mid: Db, id: ListId, db': Db, r: Option<AllocateResponse>,
                     issuer: Issuer, p: Pool.Settings, exp: Time, ix: Indexer)
    requires CollisionFree(ix) && Consistent(mid, ix) && id in Pool.Active(mid, p.shard) && |mid.lists[id].key| == 32
    requires Attempted(mid, id, db', r, issuer, p, exp, ix)
    ensures r.Some? && (r.value.Created? || r.value.Failed?)
    ensures r.value.Created? <==> Derive(ix, mid.lists[id])(mid.lists[id].cursor).Ok?
    ensures Consistent(db', ix)
  {
    assert ListOk(mid, id, ix);
    ReserveNoConflict(mid, id, issuer, p.shard, exp, ix);
    ReserveKeepsOk(mid, id, issuer, p.shard, exp, ix);
  }

  /** What the first-attempt claim needs of the world: the store's invariant, a pool that can be
      filled, and 32-byte keys. */
  ghost predicate Healthy(db: Db, p: Pool.Settings, d: Draws, ix: Indexer) {
    && Consistent(db, ix) && p.capacity >= 1 && p.width >= 1 && ListIds.SEPARATOR !in p.shard
    && Pool.Unused(Pool.Names(p.shard, d.suffixes), db)
    && KeysOk(db) && forall k :: 0 <= k < |d.keys| ==> |d.keys[k]| == 32
  }

  /** The tables an attempt saw after picking: those it started from if the pool was not empty. */
  ghost predicate Picked(db: Db, mid: Db, p: Pool.Settings, d: Draws, now: Time) {
    && Pool.Upkeep(db, mid, Pool.Names(p.shard, d.suffixes), d.keys, p, now)
    && (Pool.Active(db, p.shard) != {} ==> mid == db)
  }

  lemma PickKeepsHealth(db: Db, mid: Db, p: Pool.Settings, d: Draws, now: Time, ix: Indexer)
    requires Healthy(db, p, d, ix) && Picked(db, mid, p, d, now)
    ensures Consistent(mid, ix) && KeysOk(mid)
  {
    Pool.UpkeepConsistent(db, mid, Pool.Names(p.shard, d.suffixes), d.keys, p, now, ix);
    Pool.UpkeepRows(db, mid, Pool.Names(p.shard, d.suffixes), d.keys, p, now);
    forall id | id in mid.lists ensures |mid.lists[id].key| == 32 {
      assert Pool.Known(db.lists, id, mid.lists[id], p, now);
    }
  }

  lemma PickKeepsAddressable(db: Db, mid: Db, p: Pool.Settings, d: Draws, now: Time)
    requires Addressable(db) && Fits(p.capacity, p.bits) && Picked(db, mid, p, d, now)
    ensures Addressable(mid) && mid.allocations == db.allocations && mid.usage == db.usage
    ensures Pool.AllKnown(db.lists, mid.lists, p, now)
  {
    Pool.UpkeepRows(db, mid, Pool.Names(p.shard, d.suffixes), d.keys, p, now);
    forall id | id in mid.lists ensures Fits(mid.lists[id].size, mid.lists[id].bits) {
      assert Pool.Known(db.lists, id, mid.lists[id], p, now);
    }
  }

  /** Whichever list is picked converges: the next cursor of each ACTIVE list of the shard does, or, when
      there is none, cursor 0 under each key a new list may get. */
  ghost predicate Ready(db: Db, p: Pool.Settings, d: Draws, ix: Indexer) {
    if Pool.Active(db, p.shard) != {}
    then forall id :: id in Pool.Active(db, p.shard) ==> Derive(ix, db.lists[id])(db.lists[id].cursor).Ok?
    else forall k :: 0 <= k < |d.keys| ==> ix(d.keys[k], p.capacity)(0).Ok?
  }

  lemma ReadyConverges(db: Db, mid: Db, id: ListId, p: Pool.Settings, d: Draws, now: Time, ix: Indexer)
    requires Ready(db, p, d, ix) && Picked(db, mid, p, d, now) && id in Pool.Active(mid, p.shard)
    ensures Derive(ix, mid.lists[id])(mid.lists[id].cursor).Ok?
  {
    if Pool.Active(db, p.shard) == {} {
      Pool.UpkeepRows(db, mid, Pool.Names(p.shard, d.suffixes), d.keys, p, now);
      assert Pool.Known(db.lists, id, mid.lists[id], p, now);
      assert id !in Pool.Active(db, p.shard);
    }
  }

  /** The record of an answer: one row and one unit of usage on success, nothing otherwise. */
  ghost predicate Recorded(db: Db, db': Db, r: AllocateResponse, issuer: Issuer, shard: Shard) {
    if r.Created? then
      && (r.list, r.idx) !in db.allocations
      && db'.allocations == db.allocations[(r.list, r.idx) := Allocation(issuer, r.exp)]
      && db'.usage == db.usage[(issuer, shard) := UsageOf(db, issuer, shard) + 1]
    else
      db'.allocations == db.allocations && db'.usage == db.usage
  }

  /** The list rows after an answer, from those the answering attempt saw. */
  function RowsAfter(lists: Pool.Lists, r: Option<AllocateResponse>): Pool.Lists {
    if r.Some? && r.value.Created? && r.value.list in lists
    then lists[r.value.list := Advanced(lists[r.value.list], r.value.exp)]
    else lists
  }

  /** The attempt on `picked` was decided by its index alone, and kept the store consistent. */
  ghost predicate Decided(mid: Db, picked: ListId, db': Db, r: AllocateResponse, issuer: Issuer, p: Pool.Settings,
                          exp: Time, ix: Indexer) {
    && picked in Pool.Active(mid, p.shard) && Attempted(mid, picked, db', Some(r), issuer, p, exp, ix)
    && (r.Created? || r.Failed?)
    && (r.Created? <==> Derive(ix, mid.lists[picked])(mid.lists[picked].cursor).Ok?)
    && (r.Created? ==> r.list == picked)
    && Consistent(db', ix)
  }

  lemma AttemptRecords(mid: Db, id: ListId, db': Db, r: Option<AllocateResponse>,
                       issuer: Issuer, p: Pool.Settings, exp: Time, ix: Indexer)
    requires id in mid.lists && Attempted(mid, id, db', r, issuer, p, exp, ix)
    ensures r.None? ==> db' == mid
    ensures db'.lists == RowsAfter(mid.lists, r)
    ensures r.Some? ==> Recorded(mid, db', r.value, issuer, p.shard) && !r.value.TooLate?
    ensures r.Some? && r.value.Created? ==> r.value.list == id && r.value.exp == exp
  {
  }

  lemma HealthyAttempt(mid: Db, id: ListId, db': Db, r: Option<AllocateResponse>, issuer: Issuer, p: Pool.Settings,
                       exp: Time, prf: Key -> Allocator.RoundFunction)
    requires Consistent(mid, AllocatorIndexer(prf)) && KeysOk(mid) && id in Pool.Active(mid, p.shard)
    requires Attempted(mid, id, db', r, issuer, p, exp, AllocatorIndexer(prf))
    ensures r.Some? && Decided(mid, id, db', r.value, issuer, p, exp, AllocatorIndexer(prf))
  {
    AllocatorCollisionFree(prf);
    FirstAttempt(mid, id, db', r, issuer, p, exp, AllocatorIndexer(prf));
  }

  /** The answer hands out the allocator's index for the list's cursor, under the list's own key. */
  ghost predicate FromCursor(lists: Pool.Lists, r: AllocateResponse, prf: Key -> Allocator.RoundFunction) {
    r.Created? ==>
      && r.list in lists && lists[r.list].state == ACTIVE && lists[r.list].size >= 1
      && var lm := lists[r.list]; Allocator.Index(Allocator.For(prf(lm.key), lm.size), lm.cursor) == Ok(r.idx)
  }

  lemma AttemptedFromCursor(mid: Db, id: ListId, db': Db, r: Option<AllocateResponse>, issuer: Issuer, p: Pool.Settings,
                            exp: Time, prf: Key -> Allocator.RoundFunction)
    requires id in mid.lists && Attempted(mid, id, db', r, issuer, p, exp, AllocatorIndexer(prf))
    ensures r.Some? ==> !r.value.NoList? && FromCursor(mid.lists, r.value, prf)
  {
  }

  /** From picking to answering: what an attempt on a picked list does to both stores. */
  ghost predicate Tried(w: World, w': World, r: Option<AllocateResponse>, issuer: Issuer, p: Pool.Settings, exp: Time) {
    && w'.db.lists == RowsAfter(w.db.lists, r) && (r.None? ==> w'.db == w.db)
    && (r.Some? ==> Recorded(w.db, w'.db, r.value, issuer, p.shard) && !r.value.TooLate?)
    && (r.Some? && r.value.Created? ==> r.value.exp == exp)
    && Reset(w.strings, w'.strings, r, w.db.lists) && Bumped(w.versions, w'.versions, r)
  }

  method TryList(meta: Store, bitmaps: BitmapStore.Store, p: Pool.Settings, issuer: Issuer, exp: Time,
                 prf: Key -> Allocator.RoundFunction, id: ListId)
    returns (r: Option<AllocateResponse>)
    requires id in Pool.Active(meta.Tables(), p.shard) && Addressable(meta.Tables())
    modifies meta, bitmaps
    ensures Tried(old(Now(meta, bitmaps)), Now(meta, bitmaps), r, issuer, p, exp)
    ensures r.Some? && r.value.Created? ==> r.value.list == id
    ensures r.Some? ==> !r.value.NoList? && FromCursor(old(meta.lists), r.value, prf)
    ensures Consistent(old(meta.Tables()), AllocatorIndexer(prf)) && KeysOk(old(meta.Tables())) ==>
      r.Some? && Decided(old(meta.Tables()), id, meta.Tables(), r.value, issuer, p, exp, AllocatorIndexer(prf))
  {
    ghost var db := meta.Tables();
    r := ReserveAndReset(meta, bitmaps, p, issuer, exp, prf, id);
    AttemptRecords(db, id, meta.Tables(), r, issuer, p, exp, AllocatorIndexer(prf));
    AttemptedFromCursor(db, id, meta.Tables(), r, issuer, p, exp, prf);
    if Consistent(db, AllocatorIndexer(prf)) && KeysOk(db) {
      HealthyAttempt(db, id, meta.Tables(), r, issuer, p, exp, prf);
    }
  }

  /** What picking does to both stores. */
  ghost predicate Chosen(w: World, w': World, p: Pool.Settings, d: Draws, now: Time)
    requires ValidBitWidth(p.bits)
  {
    && Picked(w.db, w'.db, p, d, now) && Addressable(w'.db) && Pool.AllKnown(w.db.lists, w'.db.lists, p, now)
    && w'.db.allocations == w.db.allocations && w'.db.usage == w.db.usage
    && Pool.NewPrepared(w.strings, w'.strings, w.db.lists, w'.db.lists, p) && w'.versions == w.versions
  }

  /** The pool's pick, as the handler relies on it. */
  method Pick(meta: Store, bitmaps: BitmapStore.Store, p: Pool.Settings, prf: Key -> Allocator.RoundFunction,
              d: Draws, now: Time)
    returns (r: Result<Option<ListId>, Pool.Failure>, ghost candidates: seq<ListId>)
    requires Fits(p.capacity, p.bits) && Addressable(meta.Tables()) && Enough(d, p)
    modifies meta, bitmaps
    ensures Chosen(old(Now(meta, bitmaps)), Now(meta, bitmaps), p, d, now)
    ensures r.Ok? ==> Pool.Drawn(candidates, meta.Tables(), p.shard, d.i, d.j, r.value)
    ensures r.Ok? && r.value.Some? ==> r.value.value in Pool.Active(meta.Tables(), p.shard)
    ensures r.Ok? && r.value.None? ==> Pool.Active(meta.Tables(), p.shard) == {}
    ensures Healthy(old(meta.Tables()), p, d, AllocatorIndexer(prf)) ==>
      && r.Ok? && r.value.Some? && Pool.MostFree(candidates, meta.Tables(), d.i, d.j, r.value.value)
      && Consistent(meta.Tables(), AllocatorIndexer(prf)) && KeysOk(meta.Tables())
  {
    ghost var db, healthy := meta.Tables(), Healthy(meta.Tables(), p, d, AllocatorIndexer(prf));
    r, candidates := Pool.PickForAllocation(meta, bitmaps, p, d.suffixes, d.keys, now, d.i, d.j);
    PickKeepsAddressable(db, meta.Tables(), p, d, now);
    if healthy {
      PickKeepsHealth(db, meta.Tables(), p, d, now, AllocatorIndexer(prf));
      AllocatorCollisionFree(prf);
    }
  }

  /** All strings after an answer: those of lists created on the way initialised, the index handed out
      reset, nothing else changed. */
  ghost predicate Written(was: Pool.Strings, now: Pool.Strings, r: Option<AllocateResponse>,
                          before: Pool.Lists, lists: Pool.Lists, p: Pool.Settings)
    requires ValidBitWidth(p.bits)
  {
    forall id ::
      ResetOne(Pool.Prepared(BitmapStore.StringIn(was, id), id in lists && id !in before, p),
               BitmapStore.StringIn(now, id), r, lists, id)
  }

  lemma PreparedThenReset(b0: Pool.Strings, b1: Pool.Strings, b2: Pool.Strings, r: Option<AllocateResponse>,
                          before: Pool.Lists, lists: Pool.Lists, p: Pool.Settings)
    requires ValidBitWidth(p.bits) && Pool.NewPrepared(b0, b1, before, lists, p) && Reset(b1, b2, r, lists)
    ensures Written(b0, b2, r, before, lists, p)
  {
  }

  lemma OnlyPrepared(b0: Pool.Strings, b1: Pool.Strings, r: Option<AllocateResponse>, before: Pool.Lists,
                     lists: Pool.Lists, p: Pool.Settings)
    requires ValidBitWidth(p.bits) && Pool.NewPrepared(b0, b1, before, lists, p) && (r.Some? ==> !r.value.Created?)
    ensures Written(b0, b1, r, before, lists, p)
  {
  }

  /** Rounds without an answer, then one with. */
  lemma WrittenTwice(b0: Pool.Strings, b1: Pool.Strings, b2: Pool.Strings, r: Option<AllocateResponse>,
                     l0: Pool.Lists, l1: Pool.Lists, l2: Pool.Lists, p: Pool.Settings)
    requires ValidBitWidth(p.bits) && Written(b0, b1, None, l0, l1, p) && Written(b1, b2, r, l1, l2, p)
    requires l0.Keys <= l1.Keys <= l2.Keys
    ensures Written(b0, b2, r, l0, l2, p)
  {
    forall id ensures ResetOne(Pool.Prepared(BitmapStore.StringIn(b0, id), id in l2 && id !in l0, p),
                               BitmapStore.StringIn(b2, id), r, l2, id)
    {
      assert ResetOne(Pool.Prepared(BitmapStore.StringIn(b0, id), id in l1 && id !in l0, p),
                      BitmapStore.StringIn(b1, id), None, l1, id);
      assert ResetOne(Pool.Prepared(BitmapStore.StringIn(b1, id), id in l2 && id !in l1, p),
                      BitmapStore.StringIn(b2, id), r, l2, id);
    }
  }

  /** What a round of the handler's loop does to both stores; `mid` is the tables after picking. */
  ghost predicate Rounded(w: World, mid: Db, w': World, r: Option<AllocateResponse>, issuer: Issuer, p: Pool.Settings,
                          exp: Time, now: Time)
    requires ValidBitWidth(p.bits)
  {
    && Pool.AllKnown(w.db.lists, mid.lists, p, now) && w'.db.lists == RowsAfter(mid.lists, r)
    && (r.Some? ==> Recorded(w.db, w'.db, r.value, issuer, p.shard) && !r.value.TooLate?)
    && (r.Some? && r.value.Created? ==> r.value.exp == exp)
    && (r.None? ==> Addressable(w'.db) && w'.db.allocations == w.db.allocations && w'.db.usage == w.db.usage)
    && Written(w.strings, w'.strings, r, w.db.lists, mid.lists, p) && Bumped(w.versions, w'.versions, r)
  }

  lemma ChosenThenTried(w0: World, w1: World, w2: World, r: Option<AllocateResponse>, issuer: Issuer,
                        p: Pool.Settings, exp: Time, d: Draws, now: Time)
    requires ValidBitWidth(p.bits) && Chosen(w0, w1, p, d, now) && Tried(w1, w2, r, issuer, p, exp)
    ensures Rounded(w0, w1.db, w2, r, issuer, p, exp, now)
  {
    PreparedThenReset(w0.strings, w1.strings, w2.strings, r, w0.db.lists, w1.db.lists, p);
  }

  lemma ChosenNone(w0: World, w1: World, r: AllocateResponse, issuer: Issuer, p: Pool.Settings, exp: Time, d: Draws,
                   now: Time)
    requires ValidBitWidth(p.bits) && Chosen(w0, w1, p, d, now) && (r.Failed? || r.NoList?)
    ensures Rounded(w0, w1.db, w1, Some(r), issuer, p, exp, now)
  {
    OnlyPrepared(w0.strings, w1.strings, Some(r), w0.db.lists, w1.db.lists, p);
  }

  /** What an answer says about the tables its attempt saw after picking: a 201 names the choice of the two
      draws and hands out the index of its cursor, and a 503 for want of a list means there was none. */
  ghost predicate Answered(mid: Db, candidates: seq<ListId>, r: AllocateResponse, p: Pool.Settings, d: Draws,
                           prf: Key -> Allocator.RoundFunction) {
    && FromCursor(mid.lists, r, prf)
    && (r.Created? ==> Pool.Drawn(candidates, mid, p.shard, d.i, d.j, Some(r.list)))
    && (r.NoList? ==> Pool.Active(mid, p.shard) == {})
  }

  ghost predicate AnsweredIn(mid: Db, candidates: seq<ListId>, r: AllocateResponse, p: Pool.Settings,
                             draws: seq<Draws>, prf: Key -> Allocator.RoundFunction) {
    exists k :: 0 <= k < |draws| && Answered(mid, candidates, r, p, draws[k], prf)
  }

  /** The answer of a healthy store's first attempt: on the list with more free indices of the two drawn,
      decided by its next index alone, and a 201 if whichever list it may pick converges. */
  ghost predicate FirstAnswer(db: Db, mid: Db, db': Db, candidates: seq<ListId>, picked: ListId, r: AllocateResponse,
                              issuer: Issuer, p: Pool.Settings, exp: Time, d: Draws, now: Time, ix: Indexer) {
    && Picked(db, mid, p, d, now)
    && Pool.Drawn(candidates, mid, p.shard, d.i, d.j, Some(picked))
    && Pool.MostFree(candidates, mid, d.i, d.j, picked)
    && Decided(mid, picked, db', r, issuer, p, exp, ix)
    && (Ready(db, p, d, ix) ==> r.Created?)
  }

  /** One round of the handler's loop: pick, then try. `None` means a full list. */
  method Attempt(meta: Store, bitmaps: BitmapStore.Store, p: Pool.Settings, issuer: Issuer, exp: Time,
                 prf: Key -> Allocator.RoundFunction, d: Draws, now: Time)
    returns (r: Option<AllocateResponse>, ghost mid: Db, ghost candidates: seq<ListId>, ghost picked: ListId)
    requires Fits(p.capacity, p.bits) && Addressable(meta.Tables()) && Enough(d, p)
    modifies meta, bitmaps
    ensures Rounded(old(Now(meta, bitmaps)), mid, Now(meta, bitmaps), r, issuer, p, exp, now)
    ensures r.Some? ==> Answered(mid, candidates, r.value, p, d, prf)
    ensures Healthy(old(meta.Tables()), p, d, AllocatorIndexer(prf)) ==>
      && r.Some?
      && FirstAnswer(old(meta.Tables()), mid, meta.Tables(), candidates, picked, r.value, issuer, p, exp, d, now,
                     AllocatorIndexer(prf))
  {
    ghost var w0 := Now(meta, bitmaps);
    var pick;
    pick, candidates := Pick(meta, bitmaps, p, prf, d, now);
    ghost var w1 := Now(meta, bitmaps);
    mid, picked := w1.db, "";
    if pick.Err? {
      ChosenNone(w0, w1, Failed, issuer, p, exp, d, now);
      return Some(Failed), mid, candidates, picked;
    }
    if pick.value.None? {
      ChosenNone(w0, w1, NoList, issuer, p, exp, d, now);
      return Some(NoList), mid, candidates, picked;
    }
    picked := pick.value.value;
    r := TryList(meta, bitmaps, p, issuer, exp, prf, pick.value.value);
    ChosenThenTried(w0, w1, Now(meta, bitmaps), r, issuer, p, exp, d, now);
    if Ready(w0.db, p, d, AllocatorIndexer(prf)) {
      ReadyConverges(w0.db, mid, picked, p, d, now, AllocatorIndexer(prf));
    }
  }

  lemma RoundThenRound(w0: World, w1: World, mid: Db, w2: World, r: Option<AllocateResponse>, issuer: Issuer,
                       p: Pool.Settings, exp: Time, now: Time)
    requires ValidBitWidth(p.bits) && Rounded(w0, w1.db, w1, None, issuer, p, exp, now)
    requires Rounded(w1, mid, w2, r, issuer, p, exp, now)
    ensures Rounded(w0, mid, w2, r, issuer, p, exp, now)
  {
    assert Pool.AllKnown(w0.db.lists, mid.lists, p, now) by {
      Pool.KnownTransitive(w0.db.lists, w1.db.lists, mid.lists, p, now);
    }
    assert Written(w0.strings, w2.strings, r, w0.db.lists, mid.lists, p) by {
      WrittenTwice(w0.strings, w1.strings, w2.strings, r, w0.db.lists, w1.db.lists, mid.lists, p);
    }
    assert Bumped(w0.versions, w2.versions, r) by {
      BumpedTwice(w0.versions, w1.versions, w2.versions, r);
    }
  }

  lemma BumpedTwice(v0: map<ListId, nat>, v1: map<ListId, nat>, v2: map<ListId, nat>, r: Option<AllocateResponse>)
    requires Bumped(v0, v1, None) && Bumped(v1, v2, r)
    ensures Bumped(v0, v2, r)
  {
  }

  lemma NoRound(w: World, issuer: Issuer, p: Pool.Settings, exp: Time, now: Time)
    requires ValidBitWidth(p.bits) && Addressable(w.db)
    ensures Rounded(w, w.db, w, None, issuer, p, exp, now)
  {
  }

  lemma GiveUp(w: World, w': World, issuer: Issuer, p: Pool.Settings, exp: Time, now: Time)
    requires ValidBitWidth(p.bits) && Rounded(w, w'.db, w', None, issuer, p, exp, now)
    ensures Rounded(w, w'.db, w', Some(Exhausted), issuer, p, exp, now)
  {
    WrittenAnyRefusal(w.strings, w'.strings, w.db.lists, w'.db.lists, p);
  }

  lemma WrittenAnyRefusal(b0: Pool.Strings, b1: Pool.Strings, before: Pool.Lists, lists: Pool.Lists,
                          p: Pool.Settings)
    requires ValidBitWidth(p.bits) && Written(b0, b1, None, before, lists, p)
    ensures Written(b0, b1, Some(Exhausted), before, lists, p)
  {
    forall id ensures ResetOne(Pool.Prepared(BitmapStore.StringIn(b0, id), id in lists && id !in before, p),
                               BitmapStore.StringIn(b1, id), Some(Exhausted), lists, id)
    {
      assert ResetOne(Pool.Prepared(BitmapStore.StringIn(b0, id), id in lists && id !in before, p),
                      BitmapStore.StringIn(b1, id), None, lists, id);
    }
  }

  /** The whole handler. `mid` is the tables that the answering attempt saw after picking, `candidates` the
      ACTIVE lists it chose from and `picked` its choice. In a healthy store the first attempt always
      answers, and with 201 if whichever list it may pick converges. */
  method HandleAllocate(meta: Store, bitmaps: BitmapStore.Store, p: Pool.Settings, issuer: Issuer,
                        want: Option<Time>, maxExpiry: int, prf: Key -> Allocator.RoundFunction,
                        draws: seq<Draws>, now: Time)
    returns (r: AllocateResponse, marked: Option<ListId>, ghost mid: Db, ghost candidates: seq<ListId>,
             ghost picked: ListId)
    requires Fits(p.capacity, p.bits) && Addressable(meta.Tables())
    requires |draws| == MAX_ATTEMPTS && forall k :: 0 <= k < |draws| ==> Enough(draws[k], p)
    modifies meta, bitmaps
    ensures r.TooLate? <==> want.Some? && want.value > now + maxExpiry
    ensures r.TooLate? ==> Now(meta, bitmaps) == old(Now(meta, bitmaps))
    ensures r.Created? ==> r.exp == if want.Some? then want.value else now + maxExpiry
    ensures marked == if r.Created? then Some(r.list) else None
    ensures !r.TooLate? ==> var exp := if want.Some? then want.value else now + maxExpiry;
      && Rounded(old(Now(meta, bitmaps)), mid, Now(meta, bitmaps), Some(r), issuer, p, exp, now)
      && AnsweredIn(mid, candidates, r, p, draws, prf)
      && (Healthy(old(meta.Tables()), p, draws[0], AllocatorIndexer(prf)) ==>
            FirstAnswer(old(meta.Tables()), mid, meta.Tables(), candidates, picked, r, issuer, p, exp, draws[0], now,
                        AllocatorIndexer(prf)))
  {
    mid, candidates, picked := meta.Tables(), [], "";
    var bound := Lifecycle.Bounded(want, now, maxExpiry);
    if bound.None? {
      return TooLate, None, mid, candidates, picked;
    }
    var exp := bound.value;
    ghost var w0, ix := Now(meta, bitmaps), AllocatorIndexer(prf);
    ghost var healthy := Healthy(w0.db, p, draws[0], ix);
    NoRound(w0, issuer, p, exp, now);
    for k := 0 to MAX_ATTEMPTS
      invariant Addressable(meta.Tables())
      invariant Rounded(w0, meta.Tables(), Now(meta, bitmaps), None, issuer, p, exp, now)
      invariant k == 0 ==> Now(meta, bitmaps) == w0
      invariant k > 0 ==> !healthy
    {
      var answer;
      ghost var w1 := Now(meta, bitmaps);
      answer, mid, candidates, picked := Attempt(meta, bitmaps, p, issuer, exp, prf, draws[k], now);
      RoundThenRound(w0, w1, mid, Now(meta, bitmaps), answer, issuer, p, exp, now);
      if answer.Some? {
        return answer.value, if answer.value.Created? then Some(answer.value.list) else None, mid, candidates, picked;
      }
      SameRows(w0, mid, Now(meta, bitmaps), issuer, p, exp, now);
    }
    mid := meta.Tables();
    GiveUp(w0, Now(meta, bitmaps), issuer, p, exp, now);
    assert Answered(mid, candidates, Exhausted, p, draws[0], prf);
    return Exhausted, None, mid, candidates, picked;
  }

  lemma SameRows(w: World, mid: Db, w': World, issuer: Issuer, p: Pool.Settings, exp: Time, now: Time)
    requires ValidBitWidth(p.bits) && Rounded(w, mid, w', None, issuer, p, exp, now)
    ensures Rounded(w, w'.db, w', None, issuer, p, exp, now)
  {
  }

  // ---- status changes ----------------------------------------------------------------------------

  /** The three names the service accepts. */
  function StatusNamed(name: string): Option<bv8> {
    if name == "VALID" then Some(VALID)
    else if name == "INVALID" then Some(INVALID)
    else if name == "SUSPENDED" then Some(SUSPENDED)
    else None
  }

  datatype SetStatusResponse =
    | BadRequest   // 400
    | Forbidden    // 403
    | NotFound     // 404
    | Gone         // 410
    | NoContent    // 204

  /** What a named status reads as: one bit cannot hold SUSPENDED. */
  function ShownAs(name: string, bits: int): bv8 {
    if name == "INVALID" then 1 else if name == "SUSPENDED" && bits >= 2 then 2 else 0
  }

  /** Allocation rows lie inside their lists. */
  predicate RowsInside(db: Db) {
    forall k :: k in db.allocations && k.0 in db.lists ==> k.1 < db.lists[k.0].size
  }

  /** In a consistent store they always do. */
  lemma ConsistentInside(db: Db, ix: Indexer)
    requires CollisionFree(ix) && Consistent(db, ix)
    ensures RowsInside(db)
  {
    forall k | k in db.allocations && k.0 in db.lists ensures k.1 < db.lists[k.0].size {
      var lm := db.lists[k.0];
      assert ListOk(db, k.0, ix);
      assert k.1 in Rows(db, k.0);
      HandedExact(ix, lm, lm.cursor);
    }
  }

  /** `idx` is `None` for a path segment that is no number, `name` for a body without a status. A write
      happens exactly for an owner of an index in a list that is not archived; it changes that entry
      alone, and what is then read is the status asked for unless one bit cannot hold it. */
  method HandleSetStatus(meta: Store, bitmaps: BitmapStore.Store, id: ListId, idx: Option<nat>, name: Option<string>,
                         issuer: Issuer)
    returns (r: SetStatusResponse, marked: Option<ListId>)
    requires Addressable(meta.Tables()) && RowsInside(meta.Tables())
    modifies bitmaps
    ensures r.BadRequest? <==> idx.None? || name.None? || name.value !in {"VALID", "INVALID", "SUSPENDED"}
    ensures !r.BadRequest? ==> (r.Forbidden? <==>
      !((id, idx.value) in meta.allocations && meta.allocations[(id, idx.value)].issuer == issuer))
    ensures r.NotFound? ==> id !in meta.lists
    ensures r.Gone? ==> id in meta.lists && meta.lists[id].state == ARCHIVED
    ensures r.NoContent? <==>
      && idx.Some? && name.Some? && name.value in {"VALID", "INVALID", "SUSPENDED"}
      && (id, idx.value) in meta.allocations && meta.allocations[(id, idx.value)].issuer == issuer
      && id in meta.lists && meta.lists[id].state != ARCHIVED
    ensures r.NoContent? ==> var lm := meta.lists[id];
      && idx.value < lm.size
      && BitmapStore.View(bitmaps.StringOf(id), lm.size, lm.bits)
         == old(BitmapStore.View(bitmaps.StringOf(id), lm.size, lm.bits))[idx.value := ShownAs(name.value, lm.bits)]
      && bitmaps.VersionOf(id) == old(bitmaps.VersionOf(id)) + 1
      && forall other :: other != id ==>
           && bitmaps.StringOf(other) == old(bitmaps.StringOf(other))
           && bitmaps.VersionOf(other) == old(bitmaps.VersionOf(other))
    ensures !r.NoContent? ==> bitmaps.bitmaps == old(bitmaps.bitmaps) && bitmaps.versions == old(bitmaps.versions)
    ensures marked == if r.NoContent? then Some(id) else None
  {
    if idx.None? {
      return BadRequest, None;
    }
    if name.None? || StatusNamed(name.value).None? {
      return BadRequest, None;
    }
    var status := StatusNamed(name.value).value;
    var owner := CheckOwnership(meta.Tables(), id, idx.value, issuer);
    if owner.Err? {
      return Forbidden, None;
    }
    if id !in meta.lists {
      return NotFound, None;
    }
    var lm := meta.lists[id];
    if lm.state == ARCHIVED {
      return Gone, None;
    }
    var _ := BitmapStore.WriteStatus(bitmaps, id, idx.value, lm.size, lm.bits, status);
    NamedMasked(name.value, lm.bits);
    return NoContent, Some(id);
  }

  lemma NamedMasked(name: string, bits: int)
    requires ValidBitWidth(bits) && StatusNamed(name).Some?
    ensures StatusNamed(name).value & Mask(bits) == ShownAs(name, bits)
  {
  }
}
