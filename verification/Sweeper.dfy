/** One pass of the garbage collector, run alone. (Lifecycle interleaves any number of passes.) */
module Sweeper {
  import opened Prelude
  import opened MetaStore
  import opened Lifecycle
  import BitmapStore

  /** The database's clock at the statement that archives a list, and at the one that marks it purged. */
  datatype Stamps = Stamps(archive: ListId -> Time, purge: ListId -> Time)

  // ---- what a pass does to one row -----------------------------------------------------------

  function Archived(id: ListId, lm: ListMeta, now: Time, t: Stamps, c: SweepConfig): ListMeta {
    if PastGrace(lm, now - c.grace) then lm.(state := ARCHIVED, archivedAt := Some(t.archive(id))) else lm
  }

  function Purged(id: ListId, lm: ListMeta, now: Time, t: Stamps, c: SweepConfig): ListMeta {
    var a := Archived(id, lm, now, t, c);
    if PastRetention(a, now - c.retention) then a.(purged := true, purgedAt := Some(t.purge(id))) else a
  }

  predicate Deleted(id: ListId, lm: ListMeta, now: Time, t: Stamps, c: SweepConfig) {
    c.dbRetention > 0 && PastDbRetention(Purged(id, lm, now, t, c), now - c.dbRetention)
  }

  /** With positive periods a pass moves no list through two phases: what it archives it does not
      purge, what it purges it does not delete. */
  lemma OnePhasePerPass(id: ListId, lm: ListMeta, now: Time, t: Stamps, c: SweepConfig)
    requires now <= t.archive(id) && now <= t.purge(id) && c.retention > 0
    ensures Archived(id, lm, now, t, c) != lm ==> Purged(id, lm, now, t, c) == Archived(id, lm, now, t, c)
    ensures Purged(id, lm, now, t, c) != Archived(id, lm, now, t, c) ==> !Deleted(id, lm, now, t, c)
  {
  }

  // ---- the loops of the three phases ---------------------------------------------------------

  function ArchiveEach(db: Db, ids: seq<ListId>, t: Stamps): Db {
    if ids == [] then db else
      var id := ids[|ids| - 1];
      Archive(ArchiveEach(db, ids[..|ids| - 1], t), id, t.archive(id))
  }

  function PurgeEach(db: Db, ids: seq<ListId>, t: Stamps): Db {
    if ids == [] then db else
      var id := ids[|ids| - 1];
      MarkPurged(PurgeEach(db, ids[..|ids| - 1], t), id, t.purge(id))
  }

  function DeleteEach(db: Db, ids: seq<ListId>): Db {
    if ids == [] then db else Delete(DeleteEach(db, ids[..|ids| - 1]), ids[|ids| - 1])
  }

  /** The collector's three queries. */
  datatype Query =
    | FrozenPastGrace(cutoff: Time)
    | ArchivedPastRetention(cutoff: Time)
    | PurgedPastDbRetention(cutoff: Time)

  predicate Matches(q: Query, lm: ListMeta) {
    match q
    case FrozenPastGrace(cutoff) => PastGrace(lm, cutoff)
    case ArchivedPastRetention(cutoff) => PastRetention(lm, cutoff)
    case PurgedPastDbRetention(cutoff) => PastDbRetention(lm, cutoff)
  }

  ghost predicate Due(db: Db, ids: seq<ListId>, q: Query) {
    forall id :: id in ids <==> id in db.lists && Matches(q, db.lists[id])
  }

  lemma {:induction false} ArchiveEachRow(db: Db, ids: seq<ListId>, t: Stamps, id: ListId)
    requires id in db.lists
    ensures var db' := ArchiveEach(db, ids, t);
      && id in db'.lists && db'.allocations == db.allocations && db'.usage == db.usage
      && db'.lists[id] == (if id in ids && db.lists[id].state == FROZEN
                           then db.lists[id].(state := ARCHIVED, archivedAt := Some(t.archive(id))) else db.lists[id])
  {
    if ids != [] {
      ArchiveEachRow(db, ids[..|ids| - 1], t, id);
    }
  }

  lemma {:induction false} PurgeEachRow(db: Db, ids: seq<ListId>, t: Stamps, id: ListId)
    requires id in db.lists
    ensures var db' := PurgeEach(db, ids, t);
      && id in db'.lists && db'.allocations == db.allocations && db'.usage == db.usage
      && db'.lists[id] == (if id in ids then db.lists[id].(purged := true, purgedAt := Some(t.purge(id)))
                           else db.lists[id])
  {
    if ids != [] {
      PurgeEachRow(db, ids[..|ids| - 1], t, id);
    }
  }

  lemma {:induction false} DeleteEachRow(db: Db, ids: seq<ListId>, id: ListId)
    requires id in db.lists
    ensures var db' := DeleteEach(db, ids);
      && (id in db'.lists <==> id !in ids) && (id in db'.lists ==> db'.lists[id] == db.lists[id])
      && (forall i :: (id, i) in db'.allocations <==> (id, i) in db.allocations && id !in ids)
      && db'.usage == db.usage
  {
    if ids != [] {
      DeleteEachRow(db, ids[..|ids| - 1], id);
    }
  }

  /** The tables after a pass whose three queries returned these lists. */
  function Swept(db: Db, frozen: seq<ListId>, archived: seq<ListId>, purged: seq<ListId>, t: Stamps): Db {
    DeleteEach(PurgeEach(ArchiveEach(db, frozen, t), archived, t), purged)
  }

  /** The answers of the three queries, each asked after the phase before it. */
  ghost predicate Answers(db: Db, frozen: seq<ListId>, archived: seq<ListId>, purged: seq<ListId>,
                    now: Time, t: Stamps, c: SweepConfig) {
    var a := ArchiveEach(db, frozen, t);
    var p := PurgeEach(a, archived, t);
    && Due(db, frozen, FrozenPastGrace(now - c.grace))
    && Due(a, archived, ArchivedPastRetention(now - c.retention))
    && (if c.dbRetention <= 0 then purged == [] else Due(p, purged, PurgedPastDbRetention(now - c.dbRetention)))
  }

  /** Row by row: a list survives a pass exactly unless the deletion phase reaches it, it then shows
      the archiving and purging it was due, and only deleted lists lose their allocations. */
  lemma SweptRow(db: Db, frozen: seq<ListId>, archived: seq<ListId>, purged: seq<ListId>,
                 now: Time, t: Stamps, c: SweepConfig, id: ListId)
    requires id in db.lists && Answers(db, frozen, archived, purged, now, t, c)
    ensures var lm, db' := db.lists[id], Swept(db, frozen, archived, purged, t);
      && (id in db'.lists <==> !Deleted(id, lm, now, t, c))
      && (id in db'.lists ==> db'.lists[id] == Purged(id, lm, now, t, c))
      && (forall i :: (id, i) in db'.allocations <==> (id, i) in db.allocations && !Deleted(id, lm, now, t, c))
      && db'.usage == db.usage
      && (id in archived <==> PastRetention(Archived(id, lm, now, t, c), now - c.retention))
  {
    var a := ArchiveEach(db, frozen, t);
    var p := PurgeEach(a, archived, t);
    ArchiveEachRow(db, frozen, t, id);
    PurgeEachRow(a, archived, t, id);
    DeleteEachRow(p, purged, id);
  }

  /** Nothing that was due by the rows alone is left undone. */
  ghost predicate NothingDue(lists: map<ListId, ListMeta>, now: Time, c: SweepConfig) {
    forall id :: id in lists ==> Settled(lists[id], now, c)
  }

  predicate Settled(lm: ListMeta, now: Time, c: SweepConfig) {
    && (lm.state == FROZEN ==> lm.maxExp.Some? && lm.maxExp.value > now - c.grace)
    && (lm.state == ARCHIVED && !lm.purged && lm.archivedAt.Some? ==> lm.archivedAt.value > now - c.retention)
    && (lm.purged && lm.purgedAt.Some? && c.dbRetention > 0 ==> lm.purgedAt.value > now - c.dbRetention)
  }

  /** After a pass every list of the tables is settled, and no list has appeared. */
  lemma NothingLeftDue(db: Db, frozen: seq<ListId>, archived: seq<ListId>, purged: seq<ListId>,
                       now: Time, t: Stamps, c: SweepConfig)
    requires Answers(db, frozen, archived, purged, now, t, c)
    ensures NothingDue(Swept(db, frozen, archived, purged, t).lists, now, c)
    ensures Swept(db, frozen, archived, purged, t).lists.Keys <= db.lists.Keys
  {
    var db' := Swept(db, frozen, archived, purged, t);
    SweptKeys(db, frozen, archived, purged, t);
    forall id | id in db'.lists ensures Settled(db'.lists[id], now, c) {
      SweptRow(db, frozen, archived, purged, now, t, c, id);
      RowSettled(id, db.lists[id], now, t, c);
    }
  }

  lemma RowSettled(id: ListId, lm: ListMeta, now: Time, t: Stamps, c: SweepConfig)
    requires !Deleted(id, lm, now, t, c)
    ensures Settled(Purged(id, lm, now, t, c), now, c)
  {
  }

  lemma SweptKeys(db: Db, frozen: seq<ListId>, archived: seq<ListId>, purged: seq<ListId>, t: Stamps)
    ensures Swept(db, frozen, archived, purged, t).lists.Keys <= db.lists.Keys
  {
    ArchiveEachKeys(db, frozen, t);
    PurgeEachKeys(ArchiveEach(db, frozen, t), archived, t);
    DeleteEachKeys(PurgeEach(ArchiveEach(db, frozen, t), archived, t), purged);
  }

  lemma {:induction false} ArchiveEachKeys(db: Db, ids: seq<ListId>, t: Stamps)
    ensures ArchiveEach(db, ids, t).lists.Keys == db.lists.Keys
  {
    if ids != [] {
      ArchiveEachKeys(db, ids[..|ids| - 1], t);
    }
  }

  lemma {:induction false} PurgeEachKeys(db: Db, ids: seq<ListId>, t: Stamps)
    ensures PurgeEach(db, ids, t).lists.Keys == db.lists.Keys
  {
    if ids != [] {
      PurgeEachKeys(db, ids[..|ids| - 1], t);
    }
  }

  lemma {:induction false} DeleteEachKeys(db: Db, ids: seq<ListId>)
    ensures DeleteEach(db, ids).lists.Keys <= db.lists.Keys
  {
    if ids != [] {
      DeleteEachKeys(db, ids[..|ids| - 1]);
    }
  }

  /** The lists whose Redis keys a pass drops: those already archived long enough ago, and any archived
      in this very pass with a stamp that old. */
  lemma DroppedExact(db: Db, frozen: seq<ListId>, archived: seq<ListId>, purged: seq<ListId>,
                     now: Time, t: Stamps, c: SweepConfig, id: ListId)
    requires id in db.lists && Answers(db, frozen, archived, purged, now, t, c)
    ensures var lm := db.lists[id];
      id in archived <==>
        || (lm.state == ARCHIVED && !lm.purged && lm.archivedAt.Some? && lm.archivedAt.value <= now - c.retention)
        || (lm.state == FROZEN && (lm.maxExp.Some? ==> lm.maxExp.value <= now - c.grace) && !lm.purged
            && t.archive(id) <= now - c.retention)
  {
    SweptRow(db, frozen, archived, purged, now, t, c, id);
  }

  /** One pass as the source runs it. `now` is read once; the database stamps each statement with its
      own clock. The bitmap and version of exactly the lists purged in this pass are dropped. */
  method Sweep(meta: Store, bitmaps: BitmapStore.Store, c: SweepConfig, now: Time, t: Stamps)
    returns (frozen: seq<ListId>, archived: seq<ListId>, purged: seq<ListId>)
    modifies meta, bitmaps
    ensures Answers(old(meta.Tables()), frozen, archived, purged, now, t, c)
    ensures meta.Tables() == Swept(old(meta.Tables()), frozen, archived, purged, t)
    ensures bitmaps.bitmaps == old(bitmaps.bitmaps) - (set id | id in archived)
    ensures bitmaps.versions == old(bitmaps.versions) - (set id | id in archived)
    ensures NothingDue(meta.lists, now, c)
    ensures forall id :: id in old(meta.lists) && LongArchived(old(meta.lists)[id], now - c.retention) ==>
      bitmaps.StringOf(id).None? && bitmaps.VersionOf(id) == 0
  {
    ghost var db := meta.Tables();
    frozen := ArchivePhase(meta, now - c.grace, t);
    archived := PurgePhase(meta, bitmaps, now - c.retention, t);
    forall id | id in db.lists && LongArchived(db.lists[id], now - c.retention)
      ensures bitmaps.StringOf(id).None? && bitmaps.VersionOf(id) == 0
    {
      ArchiveEachRow(db, frozen, t, id);
    }
    purged := [];
    if c.dbRetention > 0 {
      purged := DeletePhase(meta, now - c.dbRetention);
    }
    NothingLeftDue(db, frozen, archived, purged, now, t, c);
  }

  /** Archived by the cutoff and not purged. */
  predicate LongArchived(lm: ListMeta, cutoff: Time) {
    lm.state == ARCHIVED && !lm.purged && lm.archivedAt.Some? && lm.archivedAt.value <= cutoff
  }

  method ArchivePhase(meta: Store, cutoff: Time, t: Stamps) returns (frozen: seq<ListId>)
    modifies meta
    ensures Due(old(meta.Tables()), frozen, FrozenPastGrace(cutoff))
    ensures forall id :: id in frozen <==>
      && id in old(meta.lists) && old(meta.lists)[id].state == FROZEN
      && (old(meta.lists)[id].maxExp.Some? ==> old(meta.lists)[id].maxExp.value <= cutoff)
    ensures meta.Tables() == ArchiveEach(old(meta.Tables()), frozen, t)
  {
    frozen := meta.Select(lm => Matches(FrozenPastGrace(cutoff), lm));
    for i := 0 to |frozen|
      invariant meta.Tables() == ArchiveEach(old(meta.Tables()), frozen[..i], t)
    {
      meta.ArchiveList(frozen[i], t.archive(frozen[i]));
      assert frozen[..i + 1][..i] == frozen[..i];
    }
    assert frozen[..|frozen|] == frozen;
  }

  method PurgePhase(meta: Store, bitmaps: BitmapStore.Store, cutoff: Time, t: Stamps) returns (archived: seq<ListId>)
    modifies meta, bitmaps
    ensures Due(old(meta.Tables()), archived, ArchivedPastRetention(cutoff))
    ensures forall id :: id in archived <==> id in old(meta.lists) && LongArchived(old(meta.lists)[id], cutoff)
    ensures meta.Tables() == PurgeEach(old(meta.Tables()), archived, t)
    ensures bitmaps.bitmaps == old(bitmaps.bitmaps) - (set id | id in archived)
    ensures bitmaps.versions == old(bitmaps.versions) - (set id | id in archived)
  {
    archived := meta.Select(lm => Matches(ArchivedPastRetention(cutoff), lm));
    ghost var done: set<ListId> := {};
    for i := 0 to |archived|
      invariant meta.Tables() == PurgeEach(old(meta.Tables()), archived[..i], t)
      invariant forall id :: id in done <==> id in archived[..i]
      invariant bitmaps.bitmaps == old(bitmaps.bitmaps) - done && bitmaps.versions == old(bitmaps.versions) - done
    {
      DropOneMore(old(bitmaps.bitmaps), done, archived[i]);
      DropOneMore(old(bitmaps.versions), done, archived[i]);
      bitmaps.Purge(archived[i]);
      meta.MarkListPurged(archived[i], t.purge(archived[i]));
      done := done + {archived[i]};
      assert archived[..i + 1][..i] == archived[..i];
    }
    assert archived[..|archived|] == archived;
    assert done == set id | id in archived;
  }

  lemma DropOneMore<K, V>(m: map<K, V>, done: set<K>, k: K)
    ensures (m - done) - {k} == m - (done + {k})
  {
  }

  method DeletePhase(meta: Store, cutoff: Time) returns (purged: seq<ListId>)
    modifies meta
    ensures Due(old(meta.Tables()), purged, PurgedPastDbRetention(cutoff))
    ensures forall id :: id in purged <==>
      && id in old(meta.lists) && old(meta.lists)[id].purged
      && old(meta.lists)[id].purgedAt.Some? && old(meta.lists)[id].purgedAt.value <= cutoff
    ensures meta.Tables() == DeleteEach(old(meta.Tables()), purged)
  {
    purged := meta.Select(lm => Matches(PurgedPastDbRetention(cutoff), lm));
    for i := 0 to |purged|
      invariant meta.Tables() == DeleteEach(old(meta.Tables()), purged[..i])
    {
      meta.DeleteList(purged[i]);
      assert purged[..i + 1][..i] == purged[..i];
    }
    assert purged[..|purged|] == purged;
  }
}
