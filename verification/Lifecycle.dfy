/** Whole runs of the list store: allocators, rotators and any number of garbage-collection
    sweepers over one database, interleaved statement by statement under one monotone clock.
    An event that is not enabled leaves the state as it is. */
module Lifecycle {
  import opened Prelude
  import opened MetaStore
  import Allocator

  type SweeperId = nat
  type RequestId = nat

  datatype SweepConfig = SweepConfig(grace: int, retention: int, dbRetention: int)

  datatype Config = Config(ix: Indexer, maxExpiry: int, sweepers: SweeperId -> SweepConfig)

  /** An allocation request whose expiry has been bounded. */
  datatype Request = Request(issuer: Issuer, shard: Shard, exp: Time)

  datatype Reservation = Reservation(list: ListId, idx: nat, issuer: Issuer, shard: Shard, exp: Time, at: Time)

  /** The tables and pending requests, then the history: list IDs ever used, reservations made,
      rows removed by deletion, when each list was last reserved in and when it left ACTIVE. */
  datatype Core = Core(
    db: Db, clock: Time, requests: map<RequestId, Request>,
    used: set<ListId>, log: seq<Reservation>, removed: nat,
    lastAt: map<ListId, Time>, left: map<ListId, Time>)

  /** One database statement or transaction, or the passing of time. */
  datatype Op =
    | Tick(d: nat)
    | CreateList(id: ListId, bits: int, size: nat, key: Key, shard: Shard)
    | Admit(req: RequestId, issuer: Issuer, shard: Shard, want: Option<Time>)
    | ReserveIn(req: RequestId, id: ListId)
    | FreezeList(id: ListId)
    | ArchiveList(id: ListId)
    | PurgeList(id: ListId)
    | DeleteList(id: ListId)

  /** The bound every allocation request goes through: no expiry means the maximum one. */
  function Bounded(want: Option<Time>, now: Time, maxExpiry: int): Option<Time> {
    match want
    case None => Some(now + maxExpiry)
    case Some(exp) => if exp > now + maxExpiry then None else Some(exp)
  }

  function ReserveStep(c: Core, req: Request, id: ListId, cfg: Config): Core
    requires id in c.db.lists
  {
    var lm := c.db.lists[id];
    var (db, r) := Reserve(c.db, id, req.issuer, req.shard, req.exp, Derive(cfg.ix, lm));
    match r
    case Err(_) => c
    case Ok(idx) =>
      c.(db := db,
         log := c.log + [Reservation(id, idx, req.issuer, req.shard, req.exp, c.clock)],
         lastAt := c.lastAt[id := c.clock],
         left := if lm.cursor + 1 >= lm.size then c.left[id := c.clock] else c.left)
  }

  function Apply(c: Core, op: Op, cfg: Config): Core {
    match op
    case Tick(d) => c.(clock := c.clock + d)
    case CreateList(id, bits, size, key, shard) =>
      if id in c.used || size == 0 then c
      else c.(db := Create(c.db, id, bits, size, key, shard, c.clock), used := c.used + {id})
    case Admit(req, issuer, shard, want) =>
      (match Bounded(want, c.clock, cfg.maxExpiry)
       case None => c
       case Some(exp) => c.(requests := c.requests[req := Request(issuer, shard, exp)]))
    case ReserveIn(req, id) =>
      if req !in c.requests || id !in c.db.lists then c else ReserveStep(c, c.requests[req], id, cfg)
    case FreezeList(id) =>
      if id in c.db.lists && c.db.lists[id].state == ACTIVE
      then c.(db := Freeze(c.db, id), left := c.left[id := c.clock])
      else c
    case ArchiveList(id) => c.(db := Archive(c.db, id, c.clock))
    case PurgeList(id) => c.(db := MarkPurged(c.db, id, c.clock))
    case DeleteList(id) => c.(db := Delete(c.db, id), removed := c.removed + |Rows(c.db, id)|)
  }

  // ---- invariants of the tables and their history ------------------------------------------

  predicate IdsOk(c: Core) {
    c.db.lists.Keys <= c.used
  }

  /** Tables are consistent and list IDs are never reused. */
  ghost predicate TablesOk(c: Core, cfg: Config) {
    Consistent(c.db, cfg.ix) && IdsOk(c)
  }

  lemma ApplyKeepsTables(c: Core, op: Op, cfg: Config)
    requires TablesOk(c, cfg)
    ensures TablesOk(Apply(c, op, cfg), cfg)
  {
    match op
    case CreateList(id, bits, size, key, shard) =>
      if size >= 1 {
        CreateKeepsOk(c.db, id, bits, size, key, shard, c.clock, cfg.ix);
      }
    case ReserveIn(req, id) =>
      if req in c.requests && id in c.db.lists {
        var r := c.requests[req];
        ReserveKeepsOk(c.db, id, r.issuer, r.shard, r.exp, cfg.ix);
      }
    case FreezeList(id) => FreezeStamps(c.db, id); StampsKeepOk(c.db, Freeze(c.db, id), cfg.ix);
    case ArchiveList(id) => ArchiveStamps(c.db, id, c.clock); StampsKeepOk(c.db, Archive(c.db, id, c.clock), cfg.ix);
    case PurgeList(id) => PurgeStamps(c.db, id, c.clock); StampsKeepOk(c.db, MarkPurged(c.db, id, c.clock), cfg.ix);
    case DeleteList(id) => DeleteKeepsOk(c.db, id, cfg.ix);
    case _ =>
  }

  lemma ListsOnlyCreated(c: Core, op: Op, cfg: Config, id: ListId)
    requires id in Apply(c, op, cfg).db.lists && id in c.used
    ensures id in c.db.lists
  {
  }

  /** A reservation respected the expiry bound, and its row is there as long as its list is. */
  predicate EntryOk(c: Core, v: Reservation, maxExpiry: int) {
    && v.list in c.used && v.at <= c.clock && v.exp <= v.at + maxExpiry
    && (v.list in c.db.lists ==>
        (v.list, v.idx) in c.db.allocations && c.db.allocations[(v.list, v.idx)] == Allocation(v.issuer, v.exp))
  }

  ghost predicate LogOk(c: Core, cfg: Config) {
    && (forall r :: r in c.requests ==> c.requests[r].exp <= c.clock + cfg.maxExpiry)
    && forall k :: 0 <= k < |c.log| ==> EntryOk(c, c.log[k], cfg.maxExpiry)
  }

  lemma ApplyKeepsLog(c: Core, op: Op, cfg: Config)
    requires LogOk(c, cfg) && IdsOk(c)
    ensures LogOk(Apply(c, op, cfg), cfg)
  {
    forall k | 0 <= k < |c.log| ensures EntryOk(Apply(c, op, cfg), c.log[k], cfg.maxExpiry) {
      EntryKept(c, op, cfg, c.log[k]);
    }
  }

  lemma EntryKept(c: Core, op: Op, cfg: Config, v: Reservation)
    requires EntryOk(c, v, cfg.maxExpiry) && IdsOk(c)
    ensures EntryOk(Apply(c, op, cfg), v, cfg.maxExpiry)
  {
    if v.list in Apply(c, op, cfg).db.lists {
      ListsOnlyCreated(c, op, cfg, v.list);
    }
  }

  /** The largest expiry of a list is bounded by its last reservation, which came no later than
      the moment the list left ACTIVE. */
  predicate TimeOk(c: Core, id: ListId, maxExpiry: int)
    requires id in c.db.lists
  {
    var lm := c.db.lists[id];
    && (lm.maxExp.Some? ==> id in c.lastAt && lm.maxExp.value <= c.lastAt[id] + maxExpiry)
    && (lm.state != ACTIVE <==> id in c.left)
    && (id in c.lastAt ==> c.lastAt[id] <= c.clock)
    && (id in c.left ==> c.left[id] <= c.clock && (id in c.lastAt ==> c.lastAt[id] <= c.left[id]))
  }

  ghost predicate TimesOk(c: Core, cfg: Config) {
    && c.left.Keys <= c.used && c.lastAt.Keys <= c.used
    && forall id :: id in c.db.lists ==> TimeOk(c, id, cfg.maxExpiry)
  }

  lemma ApplyKeepsTimes(c: Core, op: Op, cfg: Config)
    requires TimesOk(c, cfg) && LogOk(c, cfg) && IdsOk(c)
    ensures TimesOk(Apply(c, op, cfg), cfg)
  {
    forall id | id in Apply(c, op, cfg).db.lists ensures TimeOk(Apply(c, op, cfg), id, cfg.maxExpiry) {
      TimeKept(c, op, cfg, id);
    }
  }

  lemma TimeKept(c: Core, op: Op, cfg: Config, id: ListId)
    requires c.left.Keys <= c.used && c.lastAt.Keys <= c.used && IdsOk(c)
    requires op.ReserveIn? && op.req in c.requests ==> c.requests[op.req].exp <= c.clock + cfg.maxExpiry
    requires id in c.db.lists ==> TimeOk(c, id, cfg.maxExpiry)
    requires id in Apply(c, op, cfg).db.lists
    ensures TimeOk(Apply(c, op, cfg), id, cfg.maxExpiry)
  {
    if op.ReserveIn? && op.req in c.requests && op.id in c.db.lists {
      ReserveKeepsTime(c, c.requests[op.req], op.id, cfg, id);
    }
  }

  lemma ReserveKeepsTime(c: Core, req: Request, x: ListId, cfg: Config, id: ListId)
    requires x in c.db.lists && id in c.db.lists && TimeOk(c, id, cfg.maxExpiry)
    requires req.exp <= c.clock + cfg.maxExpiry
    ensures id in ReserveStep(c, req, x, cfg).db.lists && TimeOk(ReserveStep(c, req, x, cfg), id, cfg.maxExpiry)
  {
  }

  function Count(log: seq<Reservation>, issuer: Issuer, shard: Shard): nat {
    if log == [] then 0 else
      Count(log[..|log| - 1], issuer, shard)
      + (if log[|log| - 1].issuer == issuer && log[|log| - 1].shard == shard then 1 else 0)
  }

  lemma CountSnoc(log: seq<Reservation>, r: Reservation, issuer: Issuer, shard: Shard)
    ensures Count(log + [r], issuer, shard)
         == Count(log, issuer, shard) + (if r.issuer == issuer && r.shard == shard then 1 else 0)
  {
    assert (log + [r])[..|log|] == log;
  }

  /** Sum of all usage counters. */
  ghost function Total<K>(m: map<K, nat>): nat {
    if m == map[] then 0 else
      var k :| k in m;
      m[k] + Total(m - {k})
  }

  lemma {:induction false} TotalWithout<K>(m: map<K, nat>, k: K)
    requires k in m
    ensures Total(m) == m[k] + Total(m - {k})
    decreases m
  {
    var j :| j in m && Total(m) == m[j] + Total(m - {j});
    if j != k {
      TotalWithout(m - {j}, k);
      TotalWithout(m - {k}, j);
      assert m - {j} - {k} == m - {k} - {j};
    }
  }

  lemma TotalUpdate<K>(m: map<K, nat>, k: K, v: nat)
    ensures Total(m[k := v]) == Total(m) - (if k in m then m[k] else 0) + v
  {
    TotalWithout(m[k := v], k);
    if k in m {
      TotalWithout(m, k);
      assert m[k := v] - {k} == m - {k};
    } else {
      assert m[k := v] - {k} == m;
    }
  }

  ghost predicate CountsOk(c: Core) {
    && |c.log| == |c.db.allocations| + c.removed
    && Total(c.db.usage) == |c.log|
    && forall issuer, shard :: UsageOf(c.db, issuer, shard) == Count(c.log, issuer, shard)
  }

  lemma ApplyKeepsCounts(c: Core, op: Op, cfg: Config)
    requires CountsOk(c)
    ensures CountsOk(Apply(c, op, cfg))
  {
    match op
    case ReserveIn(req, id) =>
      if req in c.requests && id in c.db.lists {
        ReserveKeepsCounts(c, c.requests[req], id, cfg);
      }
    case DeleteList(id) => DeleteCount(c.db, id);
    case _ =>
  }

  /** A reservation that succeeds adds one row, one unit of usage and one entry to the history. */
  lemma ReserveAddsOne(c: Core, req: Request, id: ListId, cfg: Config)
    requires id in c.db.lists && ReserveStep(c, req, id, cfg) != c
    ensures var c', key := ReserveStep(c, req, id, cfg), (req.issuer, req.shard);
      && |c'.db.allocations| == |c.db.allocations| + 1 && c'.removed == c.removed
      && c'.db.usage == c.db.usage[key := UsageOf(c.db, req.issuer, req.shard) + 1]
      && exists r: Reservation :: r.issuer == req.issuer && r.shard == req.shard && c'.log == c.log + [r]
  {
  }

  lemma OneMoreCounts(c: Core, c': Core, r: Reservation)
    requires CountsOk(c) && c'.log == c.log + [r]
    requires |c'.db.allocations| == |c.db.allocations| + 1 && c'.removed == c.removed
    requires c'.db.usage == c.db.usage[(r.issuer, r.shard) := UsageOf(c.db, r.issuer, r.shard) + 1]
    ensures CountsOk(c')
  {
    forall issuer, shard ensures UsageOf(c'.db, issuer, shard) == Count(c'.log, issuer, shard) {
      CountSnoc(c.log, r, issuer, shard);
    }
    TotalUpdate(c.db.usage, (r.issuer, r.shard), UsageOf(c.db, r.issuer, r.shard) + 1);
  }

  lemma ReserveKeepsCounts(c: Core, req: Request, id: ListId, cfg: Config)
    requires CountsOk(c) && id in c.db.lists
    ensures CountsOk(ReserveStep(c, req, id, cfg))
  {
    var c' := ReserveStep(c, req, id, cfg);
    if c' != c {
      ReserveAddsOne(c, req, id, cfg);
      var r: Reservation :| r.issuer == req.issuer && r.shard == req.shard && c'.log == c.log + [r];
      OneMoreCounts(c, c', r);
    }
  }

  // ---- sweepers ----------------------------------------------------------------------------

  /** Where a sweeper stands in its pass; `now` is the time it read first. */
  datatype Sweep =
    | Started(now: Time)
    | Archiving(now: Time, todo: set<ListId>)
    | Purging(now: Time, todo: set<ListId>)
    | Deleting(now: Time, todo: set<ListId>)

  datatype State = State(core: Core, sweeps: map<SweeperId, Sweep>)

  /** `Do` is anything but garbage collection; the rest are the statements of sweeper w. */
  datatype Event =
    | Do(op: Op)
    | BeginSweep(w: SweeperId)
    | FindFrozen(w: SweeperId)
    | ArchiveOne(w: SweeperId, id: ListId)
    | FindArchived(w: SweeperId)
    | PurgeOne(w: SweeperId, id: ListId)
    | FindPurged(w: SweeperId)
    | DeleteOne(w: SweeperId, id: ListId)
    | EndSweep(w: SweeperId)

  predicate IsCollection(op: Op) {
    op.ArchiveList? || op.PurgeList? || op.DeleteList?
  }

  const START: State := State(Core(EMPTY, 0, map[], {}, [], 0, map[], map[]), map[])

  /** The database statement an event performs, if any. */
  function OpOf(s: State, e: Event): Op {
    match e
    case Do(op) => if IsCollection(op) then Tick(0) else op
    case ArchiveOne(w, id) =>
      if w in s.sweeps && s.sweeps[w].Archiving? && id in s.sweeps[w].todo then ArchiveList(id) else Tick(0)
    case PurgeOne(w, id) =>
      if w in s.sweeps && s.sweeps[w].Purging? && id in s.sweeps[w].todo then PurgeList(id) else Tick(0)
    case DeleteOne(w, id) =>
      if w in s.sweeps && s.sweeps[w].Deleting? && id in s.sweeps[w].todo then DeleteList(id) else Tick(0)
    case _ => Tick(0)
  }

  /** The sweepers after an event. */
  function SweepsAfter(s: State, e: Event, cfg: Config): map<SweeperId, Sweep> {
    match e
    case Do(_) => s.sweeps
    case BeginSweep(w) => if w in s.sweeps then s.sweeps else s.sweeps[w := Started(s.core.clock)]
    case FindFrozen(w) =>
      if !(w in s.sweeps && s.sweeps[w].Started?) then s.sweeps else
        var now, lists := s.sweeps[w].now, s.core.db.lists;
        s.sweeps[w := Archiving(now, set id | id in lists && PastGrace(lists[id], now - cfg.sweepers(w).grace))]
    case ArchiveOne(w, id) =>
      if !(w in s.sweeps && s.sweeps[w].Archiving?) then s.sweeps
      else s.sweeps[w := Archiving(s.sweeps[w].now, s.sweeps[w].todo - {id})]
    case FindArchived(w) =>
      if !(w in s.sweeps && s.sweeps[w].Archiving? && s.sweeps[w].todo == {}) then s.sweeps else
        var now, lists := s.sweeps[w].now, s.core.db.lists;
        s.sweeps[w := Purging(now, set id | id in lists && PastRetention(lists[id], now - cfg.sweepers(w).retention))]
    case PurgeOne(w, id) =>
      if !(w in s.sweeps && s.sweeps[w].Purging?) then s.sweeps
      else s.sweeps[w := Purging(s.sweeps[w].now, s.sweeps[w].todo - {id})]
    case FindPurged(w) =>
      if !(w in s.sweeps && s.sweeps[w].Purging? && s.sweeps[w].todo == {}) || cfg.sweepers(w).dbRetention <= 0
      then s.sweeps else
        var now, lists := s.sweeps[w].now, s.core.db.lists;
        var cutoff := now - cfg.sweepers(w).dbRetention;
        s.sweeps[w := Deleting(now, set id | id in lists && PastDbRetention(lists[id], cutoff))]
    case DeleteOne(w, id) =>
      if !(w in s.sweeps && s.sweeps[w].Deleting?) then s.sweeps
      else s.sweeps[w := Deleting(s.sweeps[w].now, s.sweeps[w].todo - {id})]
    case EndSweep(w) => s.sweeps - {w}
  }

  function Step(s: State, e: Event, cfg: Config): State {
    State(Apply(s.core, OpOf(s, e), cfg), SweepsAfter(s, e, cfg))
  }

  /** The state after a sequence of events. */
  function Run(es: seq<Event>, cfg: Config): State {
    if es == [] then START else Step(Run(es[..|es| - 1], cfg), es[|es| - 1], cfg)
  }

  /** Smallest periods among the sweepers; deletion counts only where it is enabled. */
  datatype Periods = Periods(grace: int, retention: int, dbRetention: int)

  predicate Covered(p: Periods, c: SweepConfig) {
    p.grace <= c.grace && p.retention <= c.retention && (c.dbRetention > 0 ==> p.dbRetention <= c.dbRetention)
  }

  ghost predicate Covers(p: Periods, cfg: Config) {
    forall w :: Covered(p, cfg.sweepers(w))
  }

  predicate ExpiredBy(lm: ListMeta, t: Time) {
    lm.maxExp.Some? ==> lm.maxExp.value <= t
  }

  /** What the stamps of a list row prove about its credentials. */
  predicate StampOk(lm: ListMeta, clock: Time, p: Periods) {
    && (lm.state == ARCHIVED ==>
        lm.archivedAt.Some? && lm.archivedAt.value <= clock && ExpiredBy(lm, lm.archivedAt.value - p.grace))
    && (lm.purged ==>
        && lm.state == ARCHIVED && lm.archivedAt.Some?
        && lm.purgedAt.Some? && lm.purgedAt.value <= clock
        && lm.archivedAt.value + p.retention <= lm.purgedAt.value)
  }

  ghost predicate StampsOk(c: Core, p: Periods) {
    forall id :: id in c.db.lists ==> StampOk(c.db.lists[id], c.clock, p)
  }

  /** What a sweeper knows about the lists still on its agenda. */
  predicate TodoOk(lm: ListMeta, sw: Sweep, p: Periods) {
    match sw
    case Started(_) => true
    case Archiving(now, _) => lm.state != ACTIVE && ExpiredBy(lm, now - p.grace)
    case Purging(now, _) => lm.state == ARCHIVED && lm.archivedAt.Some? && lm.archivedAt.value + p.retention <= now
    case Deleting(now, _) => lm.purged && ExpiredBy(lm, now - p.grace - p.retention - p.dbRetention)
  }

  function Todo(sw: Sweep): set<ListId> {
    if sw.Started? then {} else sw.todo
  }

  ghost predicate SweepOk(s: State, w: SweeperId, p: Periods, cfg: Config)
    requires w in s.sweeps
  {
    var sw := s.sweeps[w];
    && sw.now <= s.core.clock
    && Todo(sw) <= s.core.used
    && (sw.Deleting? ==> cfg.sweepers(w).dbRetention > 0)
    && forall id :: id in Todo(sw) && id in s.core.db.lists ==> TodoOk(s.core.db.lists[id], sw, p)
  }

  ghost predicate SweepsOk(s: State, p: Periods, cfg: Config) {
    forall w :: w in s.sweeps ==> SweepOk(s, w, p, cfg)
  }

  /** What a statement may do to a list that survives it: stages only move forward, keys and sizes
      never change, and past ACTIVE neither the cursor nor the largest expiry moves. */
  predicate Later(lm: ListMeta, lm': ListMeta) {
    && Stage(lm) <= Stage(lm')
    && lm'.size == lm.size && lm'.key == lm.key && lm'.bits == lm.bits && lm'.shard == lm.shard
    && lm.cursor <= lm'.cursor
    && (lm.state != ACTIVE ==> lm'.cursor == lm.cursor && lm'.maxExp == lm.maxExp)
    && (lm.state == ARCHIVED ==> lm'.archivedAt == lm.archivedAt)
  }

  function Stage(lm: ListMeta): nat {
    match lm.state
    case ACTIVE => 0
    case FROZEN => 1
    case ARCHIVED => if lm.purged then 3 else 2
  }

  lemma ReserveMovesForward(c: Core, req: Request, at: ListId, cfg: Config, id: ListId)
    requires at in c.db.lists && id in c.db.lists
    ensures id in ReserveStep(c, req, at, cfg).db.lists
    ensures Later(c.db.lists[id], ReserveStep(c, req, at, cfg).db.lists[id])
  {
  }

  lemma ApplyMovesForward(c: Core, op: Op, cfg: Config, id: ListId)
    requires IdsOk(c) && id in c.db.lists && id in Apply(c, op, cfg).db.lists
    ensures Later(c.db.lists[id], Apply(c, op, cfg).db.lists[id])
  {
    if op.ReserveIn? && op.req in c.requests && op.id in c.db.lists {
      ReserveMovesForward(c, c.requests[op.req], op.id, cfg, id);
    } else if op.FreezeList? || op.ArchiveList? || op.PurgeList? {
      StampMovesForward(c, op, cfg, id);
    }
  }

  lemma StampMovesForward(c: Core, op: Op, cfg: Config, id: ListId)
    requires id in c.db.lists && (op.FreezeList? || op.ArchiveList? || op.PurgeList?)
    ensures id in Apply(c, op, cfg).db.lists && Later(c.db.lists[id], Apply(c, op, cfg).db.lists[id])
  {
    if op.FreezeList? {
      FreezeMovesForward(c.db, op.id, id);
    } else if op.ArchiveList? {
      ArchiveMovesForward(c.db, op.id, c.clock, id);
    } else {
      PurgeMovesForward(c.db, op.id, c.clock, id);
    }
  }

  lemma FreezeMovesForward(db: Db, at: ListId, id: ListId)
    requires id in db.lists
    ensures id in Freeze(db, at).lists && Later(db.lists[id], Freeze(db, at).lists[id])
  {
  }

  lemma ArchiveMovesForward(db: Db, at: ListId, now: Time, id: ListId)
    requires id in db.lists
    ensures id in Archive(db, at, now).lists && Later(db.lists[id], Archive(db, at, now).lists[id])
  {
  }

  lemma PurgeMovesForward(db: Db, at: ListId, now: Time, id: ListId)
    requires id in db.lists
    ensures id in MarkPurged(db, at, now).lists && Later(db.lists[id], MarkPurged(db, at, now).lists[id])
  {
  }

  /** What a sweeper's statement relies on. */
  predicate Justified(lm: ListMeta, op: Op, clock: Time, p: Periods) {
    && (op.ArchiveList? ==> ExpiredBy(lm, clock - p.grace))
    && (op.PurgeList? ==> lm.state == ARCHIVED && lm.archivedAt.Some? && lm.archivedAt.value + p.retention <= clock)
    && (op.DeleteList? ==> ExpiredBy(lm, clock - p.grace - p.retention - p.dbRetention))
  }

  lemma StatementJustified(s: State, e: Event, cfg: Config, p: Periods)
    requires SweepsOk(s, p, cfg)
    ensures var op := OpOf(s, e);
      IsCollection(op) && op.id in s.core.db.lists ==> Justified(s.core.db.lists[op.id], op, s.core.clock, p)
  {
    match e
    case ArchiveOne(w, id) => if w in s.sweeps { assert SweepOk(s, w, p, cfg); }
    case PurgeOne(w, id) => if w in s.sweeps { assert SweepOk(s, w, p, cfg); }
    case DeleteOne(w, id) => if w in s.sweeps { assert SweepOk(s, w, p, cfg); }
    case _ =>
  }

  lemma StampKept(c: Core, op: Op, cfg: Config, p: Periods, id: ListId)
    requires id in c.db.lists ==> StampOk(c.db.lists[id], c.clock, p)
    requires IsCollection(op) && op.id in c.db.lists ==> Justified(c.db.lists[op.id], op, c.clock, p)
    requires id in Apply(c, op, cfg).db.lists
    ensures StampOk(Apply(c, op, cfg).db.lists[id], Apply(c, op, cfg).clock, p)
  {
  }

  lemma StepKeepsStamps(s: State, e: Event, cfg: Config, p: Periods)
    requires StampsOk(s.core, p) && SweepsOk(s, p, cfg)
    ensures StampsOk(Step(s, e, cfg).core, p)
  {
    StatementJustified(s, e, cfg, p);
    forall id | id in Step(s, e, cfg).core.db.lists
      ensures StampOk(Step(s, e, cfg).core.db.lists[id], Step(s, e, cfg).core.clock, p)
    {
      StampKept(s.core, OpOf(s, e), cfg, p, id);
    }
  }

  lemma TodoStays(lm: ListMeta, lm': ListMeta, sw: Sweep, p: Periods, clock: Time)
    requires TodoOk(lm, sw, p) && Later(lm, lm') && StampOk(lm, clock, p)
    ensures TodoOk(lm', sw, p)
  {
  }

  lemma FoundTodo(lm: ListMeta, now: Time, clock: Time, p: Periods, c: SweepConfig)
    requires StampOk(lm, clock, p) && Covered(p, c)
    ensures PastGrace(lm, now - c.grace) ==> TodoOk(lm, Archiving(now, {}), p)
    ensures PastRetention(lm, now - c.retention) ==> TodoOk(lm, Purging(now, {}), p)
    ensures c.dbRetention > 0 && PastDbRetention(lm, now - c.dbRetention) ==> TodoOk(lm, Deleting(now, {}), p)
  {
  }

  predicate SamePhase(a: Sweep, b: Sweep) {
    a.now == b.now && a.Archiving? == b.Archiving? && a.Purging? == b.Purging? && a.Deleting? == b.Deleting?
  }

  predicate JustFound(c: Core, sw: Sweep, k: SweepConfig, id: ListId) {
    && id in c.db.lists
    && match sw
       case Started(_) => false
       case Archiving(now, _) => PastGrace(c.db.lists[id], now - k.grace)
       case Purging(now, _) => PastRetention(c.db.lists[id], now - k.retention)
       case Deleting(now, _) => k.dbRetention > 0 && PastDbRetention(c.db.lists[id], now - k.dbRetention)
  }

  /** A list on a sweeper's agenda was there before the step, or has just been found by its query. */
  lemma TodoOrigin(s: State, e: Event, cfg: Config, w: SweeperId, id: ListId)
    requires var sweeps := SweepsAfter(s, e, cfg); w in sweeps && id in Todo(sweeps[w])
    ensures var sweeps := SweepsAfter(s, e, cfg);
      || (w in s.sweeps && id in Todo(s.sweeps[w]) && SamePhase(s.sweeps[w], sweeps[w]))
      || (OpOf(s, e) == Tick(0) && JustFound(s.core, sweeps[w], cfg.sweepers(w), id))
  {
  }

  lemma TodoKept(s: State, e: Event, cfg: Config, p: Periods, w: SweeperId, id: ListId)
    requires StampsOk(s.core, p) && SweepsOk(s, p, cfg) && IdsOk(s.core) && Covers(p, cfg)
    requires var s' := Step(s, e, cfg); w in s'.sweeps && id in Todo(s'.sweeps[w]) && id in s'.core.db.lists
    ensures var s' := Step(s, e, cfg); TodoOk(s'.core.db.lists[id], s'.sweeps[w], p)
  {
    var c, op := s.core, OpOf(s, e);
    var sw := SweepsAfter(s, e, cfg)[w];
    TodoOrigin(s, e, cfg, w, id);
    if op == Tick(0) && JustFound(c, sw, cfg.sweepers(w), id) {
      assert Covered(p, cfg.sweepers(w));
      FoundTodo(c.db.lists[id], sw.now, c.clock, p, cfg.sweepers(w));
    } else {
      assert SweepOk(s, w, p, cfg);
      ListsOnlyCreated(c, op, cfg, id);
      ApplyMovesForward(c, op, cfg, id);
      TodoStays(c.db.lists[id], Apply(c, op, cfg).db.lists[id], s.sweeps[w], p, c.clock);
    }
  }

  lemma SweepBasics(s: State, e: Event, cfg: Config, p: Periods, w: SweeperId)
    requires SweepsOk(s, p, cfg) && IdsOk(s.core) && w in SweepsAfter(s, e, cfg)
    ensures var sw := SweepsAfter(s, e, cfg)[w];
      sw.now <= s.core.clock && Todo(sw) <= s.core.used && (sw.Deleting? ==> cfg.sweepers(w).dbRetention > 0)
  {
    if w in s.sweeps {
      assert SweepOk(s, w, p, cfg);
    }
  }

  lemma ClockAndIdsGrow(c: Core, op: Op, cfg: Config)
    ensures c.clock <= Apply(c, op, cfg).clock && c.used <= Apply(c, op, cfg).used
  {
  }

  lemma StepKeepsSweeps(s: State, e: Event, cfg: Config, p: Periods)
    requires StampsOk(s.core, p) && SweepsOk(s, p, cfg) && IdsOk(s.core) && Covers(p, cfg)
    ensures SweepsOk(Step(s, e, cfg), p, cfg)
  {
    var s' := Step(s, e, cfg);
    ClockAndIdsGrow(s.core, OpOf(s, e), cfg);
    forall w | w in s'.sweeps ensures SweepOk(s', w, p, cfg) {
      SweepBasics(s, e, cfg, p, w);
      forall id | id in Todo(s'.sweeps[w]) && id in s'.core.db.lists
        ensures TodoOk(s'.core.db.lists[id], s'.sweeps[w], p)
      {
        TodoKept(s, e, cfg, p, w, id);
      }
    }
  }

  // ---- all runs --------------------------------------------------------------------------

  lemma {:induction false} RunCore(es: seq<Event>, cfg: Config)
    ensures var c := Run(es, cfg).core; TablesOk(c, cfg) && LogOk(c, cfg) && TimesOk(c, cfg) && CountsOk(c)
  {
    if es == [] {
      assert Total<(Issuer, Shard)>(map[]) == 0;
    } else {
      var s, e := Run(es[..|es| - 1], cfg), es[|es| - 1];
      RunCore(es[..|es| - 1], cfg);
      ApplyKeepsTables(s.core, OpOf(s, e), cfg);
      ApplyKeepsLog(s.core, OpOf(s, e), cfg);
      ApplyKeepsTimes(s.core, OpOf(s, e), cfg);
      ApplyKeepsCounts(s.core, OpOf(s, e), cfg);
    }
  }

  lemma {:induction false} RunKeepsStamps(es: seq<Event>, cfg: Config, p: Periods)
    requires Covers(p, cfg)
    ensures StampsOk(Run(es, cfg).core, p) && SweepsOk(Run(es, cfg), p, cfg)
  {
    if es != [] {
      var s, e := Run(es[..|es| - 1], cfg), es[|es| - 1];
      RunKeepsStamps(es[..|es| - 1], cfg, p);
      RunCore(es[..|es| - 1], cfg);
      StepKeepsStamps(s, e, cfg, p);
      StepKeepsSweeps(s, e, cfg, p);
    }
  }

  lemma RunStep(es: seq<Event>, cfg: Config, i: nat)
    requires i < |es|
    ensures Run(es[..i + 1], cfg) == Step(Run(es[..i], cfg), es[i], cfg)
  {
    assert es[..i + 1][..i] == es[..i];
  }

  lemma DeletionStep(s: State, e: Event, cfg: Config, p: Periods, id: ListId, v: Reservation)
    requires SweepsOk(s, p, cfg) && id in s.core.db.lists && id !in Step(s, e, cfg).core.db.lists
    requires v.list == id && EntryOk(s.core, v, cfg.maxExpiry) && ListOk(s.core.db, id, cfg.ix)
    ensures v.exp + p.grace + p.retention + p.dbRetention <= s.core.clock
  {
    StatementJustified(s, e, cfg, p);
    OnlyDeletionRemoves(s.core, OpOf(s, e), cfg, id);
    assert v.idx in Rows(s.core.db, id);
  }

  lemma OnlyDeletionRemoves(c: Core, op: Op, cfg: Config, id: ListId)
    requires id in c.db.lists && id !in Apply(c, op, cfg).db.lists
    ensures op == DeleteList(id)
  {
  }

  /** Every run, every step: a list row disappears only when every credential ever allocated in
      it expired at least grace + retention + database retention earlier. */
  lemma DeletedOnlyAfterRetention(es: seq<Event>, cfg: Config, p: Periods, i: nat, id: ListId, k: nat)
    requires Covers(p, cfg) && i < |es|
    requires id in Run(es[..i], cfg).core.db.lists && id !in Run(es[..i + 1], cfg).core.db.lists
    requires k < |Run(es[..i], cfg).core.log| && Run(es[..i], cfg).core.log[k].list == id
    ensures Run(es[..i], cfg).core.log[k].exp + p.grace + p.retention + p.dbRetention
         <= Run(es[..i], cfg).core.clock
  {
    var s := Run(es[..i], cfg);
    RunStep(es, cfg, i);
    RunCore(es[..i], cfg);
    RunKeepsStamps(es[..i], cfg, p);
    DeletionStep(s, es[i], cfg, p, id, s.core.log[k]);
  }

  ghost predicate NoDeletion(cfg: Config) {
    forall w :: cfg.sweepers(w).dbRetention <= 0
  }

  ghost predicate NoneDeletes(s: State) {
    forall w :: w in s.sweeps ==> !s.sweeps[w].Deleting?
  }

  lemma StepKeepsLists(s: State, e: Event, cfg: Config)
    requires NoDeletion(cfg) && NoneDeletes(s)
    ensures s.core.db.lists.Keys <= Step(s, e, cfg).core.db.lists.Keys
    ensures NoneDeletes(Step(s, e, cfg))
  {
    forall id | id in s.core.db.lists ensures id in Step(s, e, cfg).core.db.lists {
      if id !in Apply(s.core, OpOf(s, e), cfg).db.lists {
        OnlyDeletionRemoves(s.core, OpOf(s, e), cfg, id);
      }
    }
  }

  lemma {:induction false} RunNoneDeletes(es: seq<Event>, cfg: Config)
    requires NoDeletion(cfg)
    ensures NoneDeletes(Run(es, cfg))
  {
    if es != [] {
      RunNoneDeletes(es[..|es| - 1], cfg);
      StepKeepsLists(Run(es[..|es| - 1], cfg), es[|es| - 1], cfg);
    }
  }

  /** With the database retention disabled everywhere, no list is ever deleted. */
  lemma {:induction false} NothingDeleted(es: seq<Event>, cfg: Config, i: nat, j: nat)
    requires NoDeletion(cfg) && i <= j <= |es|
    ensures Run(es[..i], cfg).core.db.lists.Keys <= Run(es[..j], cfg).core.db.lists.Keys
  {
    if i < j {
      var s := Run(es[..j - 1], cfg);
      NothingDeleted(es, cfg, i, j - 1);
      RunNoneDeletes(es[..j - 1], cfg);
      StepKeepsLists(s, es[j - 1], cfg);
      RunStep(es, cfg, j - 1);
    }
  }

  lemma LaterTransitive(a: ListMeta, b: ListMeta, c: ListMeta)
    requires Later(a, b) && Later(b, c)
    ensures Later(a, c)
  {
  }

  /** What one moment of the store guarantees to a later one. */
  ghost predicate Grows(c: Core, c': Core) {
    && IdsOk(c) && c.used <= c'.used
    && forall id :: id in c.used && id in c'.db.lists ==> id in c.db.lists && Later(c.db.lists[id], c'.db.lists[id])
  }

  lemma ApplyGrows(c: Core, op: Op, cfg: Config)
    requires IdsOk(c)
    ensures Grows(c, Apply(c, op, cfg))
  {
    ClockAndIdsGrow(c, op, cfg);
    forall id | id in c.used && id in Apply(c, op, cfg).db.lists
      ensures id in c.db.lists && Later(c.db.lists[id], Apply(c, op, cfg).db.lists[id])
    {
      ListsOnlyCreated(c, op, cfg, id);
      ApplyMovesForward(c, op, cfg, id);
    }
  }

  lemma GrowsTransitive(a: Core, b: Core, c: Core)
    requires Grows(a, b) && Grows(b, c)
    ensures Grows(a, c)
  {
    forall id | id in a.used && id in c.db.lists
      ensures id in a.db.lists && Later(a.db.lists[id], c.db.lists[id])
    {
      LaterTransitive(a.db.lists[id], b.db.lists[id], c.db.lists[id]);
    }
  }

  lemma RunGrowsOnce(es: seq<Event>, cfg: Config, i: nat)
    requires i < |es|
    ensures Grows(Run(es[..i], cfg).core, Run(es[..i + 1], cfg).core)
  {
    var s := Run(es[..i], cfg);
    RunStep(es, cfg, i);
    assert IdsOk(s.core) by { RunCore(es[..i], cfg); }
    ApplyGrows(s.core, OpOf(s, es[i]), cfg);
  }

  lemma RunGrows(es: seq<Event>, cfg: Config, i: nat, j: nat)
    requires i < j <= |es|
    ensures Grows(Run(es[..i], cfg).core, Run(es[..j], cfg).core)
  {
    var cores := seq(|es| + 1, k requires 0 <= k <= |es| => Run(es[..k], cfg).core);
    forall k | 0 <= k < |es| ensures Grows(cores[k], cores[k + 1]) {
      RunGrowsOnce(es, cfg, k);
    }
    Chain(cores, i, j);
  }

  lemma {:induction false} Chain(cores: seq<Core>, i: nat, j: nat)
    requires i < j < |cores| && forall k :: 0 <= k < |cores| - 1 ==> Grows(cores[k], cores[k + 1])
    ensures Grows(cores[i], cores[j])
  {
    assert Grows(cores[j - 1], cores[j - 1 + 1]);
    if i < j - 1 {
      Chain(cores, i, j - 1);
      GrowsTransitive(cores[i], cores[j - 1], cores[j]);
    }
  }

  /** Between any two moments of any run at which a list exists, it existed throughout and only
      moved forward; once it has left ACTIVE its cursor and largest expiry never move again. */
  lemma ListsMoveForward(es: seq<Event>, cfg: Config, i: nat, j: nat, id: ListId)
    requires i < j <= |es|
    requires id in Run(es[..i], cfg).core.db.lists && id in Run(es[..j], cfg).core.db.lists
    ensures Later(Run(es[..i], cfg).core.db.lists[id], Run(es[..j], cfg).core.db.lists[id])
  {
    RunGrows(es, cfg, i, j);
  }

  /** How a row can change in one statement, and what it is then stamped with. */
  predicate Transition(op: Op, now: Time, id: ListId, lm: ListMeta, lm': ListMeta) {
    && (lm.state == ACTIVE && lm'.state != ACTIVE ==>
        lm'.state == FROZEN && (op == FreezeList(id) || (op.ReserveIn? && lm'.cursor == lm'.size)))
    && (lm.state != ARCHIVED && lm'.state == ARCHIVED ==>
        lm.state == FROZEN && op == ArchiveList(id) && lm'.archivedAt == Some(now))
    && (!lm.purged && lm'.purged ==> op == PurgeList(id) && lm'.purgedAt == Some(now))
    && (lm'.cursor != lm.cursor ==> op.ReserveIn? && op.id == id && lm'.cursor == lm.cursor + 1)
    && lm'.createdAt == lm.createdAt
  }

  lemma ApplyTransition(c: Core, op: Op, cfg: Config, id: ListId)
    requires id in c.db.lists && id in Apply(c, op, cfg).db.lists && IdsOk(c)
    requires c.db.lists[id].state == ACTIVE ==> c.db.lists[id].cursor < c.db.lists[id].size
    ensures Transition(op, c.clock, id, c.db.lists[id], Apply(c, op, cfg).db.lists[id])
  {
    if op.ReserveIn? && op.req in c.requests && op.id in c.db.lists {
      ReserveTransition(c, op.req, op.id, cfg, id);
    }
  }

  lemma ReserveTransition(c: Core, req: RequestId, at: ListId, cfg: Config, id: ListId)
    requires req in c.requests && at in c.db.lists && id in c.db.lists
    requires c.db.lists[id].state == ACTIVE ==> c.db.lists[id].cursor < c.db.lists[id].size
    ensures var c' := ReserveStep(c, c.requests[req], at, cfg);
      id in c'.db.lists && Transition(ReserveIn(req, at), c.clock, id, c.db.lists[id], c'.db.lists[id])
  {
  }

  lemma LeavesNow(c: Core, op: Op, cfg: Config, id: ListId)
    requires id in c.db.lists && id in Apply(c, op, cfg).db.lists && c.db.lists[id].state == ACTIVE
    requires c.db.lists[id].cursor < c.db.lists[id].size && Apply(c, op, cfg).db.lists[id].state != ACTIVE
    ensures id in Apply(c, op, cfg).left && Apply(c, op, cfg).left[id] == c.clock
  {
  }

  /** Every step of every run: a list leaves ACTIVE only by being frozen or by its last index being
      handed out, it is archived and purged with the time of that statement, its cursor moves by one
      reservation at a time; and a list appears ACTIVE and empty, with the time of its creation. */
  lemma TransitionsExact(es: seq<Event>, cfg: Config, i: nat, id: ListId)
    requires i < |es| && id in Run(es[..i + 1], cfg).core.db.lists
    ensures var s, c' := Run(es[..i], cfg), Run(es[..i + 1], cfg).core;
      if id in s.core.db.lists
      then
        && Transition(OpOf(s, es[i]), s.core.clock, id, s.core.db.lists[id], c'.db.lists[id])
        && (s.core.db.lists[id].state == ACTIVE && c'.db.lists[id].state != ACTIVE ==>
            id in c'.left && c'.left[id] == s.core.clock)
      else
        var lm := c'.db.lists[id];
        && es[i] == Do(CreateList(id, lm.bits, lm.size, lm.key, lm.shard)) && lm.size >= 1
        && lm.state == ACTIVE && lm.cursor == 0 && lm.createdAt == s.core.clock
        && lm.maxExp.None? && lm.archivedAt.None? && !lm.purged && lm.purgedAt.None?
  {
    var s := Run(es[..i], cfg);
    RunStep(es, cfg, i);
    RunCore(es[..i], cfg);
    if id in s.core.db.lists {
      assert ListOk(s.core.db, id, cfg.ix);
      ApplyTransition(s.core, OpOf(s, es[i]), cfg, id);
      if s.core.db.lists[id].state == ACTIVE && Run(es[..i + 1], cfg).core.db.lists[id].state != ACTIVE {
        LeavesNow(s.core, OpOf(s, es[i]), cfg, id);
      }
    } else {
      Appears(s, es[i], cfg, id);
    }
  }

  lemma Appears(s: State, e: Event, cfg: Config, id: ListId)
    requires id !in s.core.db.lists && id in Step(s, e, cfg).core.db.lists
    ensures var lm := Step(s, e, cfg).core.db.lists[id];
      && e == Do(CreateList(id, lm.bits, lm.size, lm.key, lm.shard)) && lm.size >= 1
      && lm.state == ACTIVE && lm.cursor == 0 && lm.createdAt == s.core.clock
      && lm.maxExp.None? && lm.archivedAt.None? && !lm.purged && lm.purgedAt.None?
  {
    OnlyCreationAdds(s.core, OpOf(s, e), cfg, id);
    Created(s.core, OpOf(s, e), cfg);
  }

  lemma OnlyCreationAdds(c: Core, op: Op, cfg: Config, id: ListId)
    requires id !in c.db.lists && id in Apply(c, op, cfg).db.lists
    ensures op.CreateList? && op.id == id
  {
  }

  lemma Created(c: Core, op: Op, cfg: Config)
    requires op.CreateList? && op.id !in c.db.lists && op.id in Apply(c, op, cfg).db.lists
    ensures var lm := Apply(c, op, cfg).db.lists[op.id];
      && op == CreateList(op.id, lm.bits, lm.size, lm.key, lm.shard) && lm.size >= 1
      && lm.state == ACTIVE && lm.cursor == 0 && lm.createdAt == c.clock
      && lm.maxExp.None? && lm.archivedAt.None? && !lm.purged && lm.purgedAt.None?
  {
  }

  // ---- expiries --------------------------------------------------------------------------------

  /** The expiry given to a request: what it asked for, or the maximum when it did not ask. */
  predicate ExpiryFor(want: Option<Time>, exp: Time, now: Time, maxExpiry: int) {
    (want.None? ==> exp == now + maxExpiry) && (want.Some? ==> exp == want.value <= now + maxExpiry)
  }

  /** A request is refused exactly for an expiry past the maximum, and then nothing changes. */
  lemma AdmitExact(s: State, cfg: Config, r: RequestId, issuer: Issuer, shard: Shard, want: Option<Time>)
    ensures var c, c' := s.core, Step(s, Do(Admit(r, issuer, shard, want)), cfg).core;
      if want.Some? && want.value > c.clock + cfg.maxExpiry then c' == c
      else
        && r in c'.requests && c'.requests[r].issuer == issuer && c'.requests[r].shard == shard
        && ExpiryFor(want, c'.requests[r].exp, c.clock, cfg.maxExpiry)
  {
  }

  /** Event j admitted this request. */
  ghost predicate AdmittedAt(es: seq<Event>, cfg: Config, j: nat, r: RequestId, rq: Request)
    requires j < |es|
  {
    && es[j].Do? && es[j].op.Admit? && es[j].op.req == r
    && es[j].op.issuer == rq.issuer && es[j].op.shard == rq.shard
    && ExpiryFor(es[j].op.want, rq.exp, Run(es[..j], cfg).core.clock, cfg.maxExpiry)
  }

  lemma RequestStep(s: State, e: Event, cfg: Config, r: RequestId)
    requires r in Step(s, e, cfg).core.requests
    ensures var rq := Step(s, e, cfg).core.requests[r];
      || (r in s.core.requests && rq == s.core.requests[r])
      || (e.Do? && e.op.Admit? && e.op.req == r && e.op.issuer == rq.issuer && e.op.shard == rq.shard
          && ExpiryFor(e.op.want, rq.exp, s.core.clock, cfg.maxExpiry))
  {
  }

  lemma {:induction false} RequestAdmitted(es: seq<Event>, cfg: Config, r: RequestId) returns (j: nat)
    requires r in Run(es, cfg).core.requests
    ensures j < |es| && AdmittedAt(es, cfg, j, r, Run(es, cfg).core.requests[r])
  {
    var front := es[..|es| - 1];
    RequestStep(Run(front, cfg), es[|es| - 1], cfg, r);
    if r in Run(front, cfg).core.requests && Run(es, cfg).core.requests[r] == Run(front, cfg).core.requests[r] {
      j := RequestAdmitted(front, cfg, r);
      assert front[..j] == es[..j];
    } else {
      j := |es| - 1;
    }
  }

  /** Event m made this reservation. */
  ghost predicate ReservedAt(es: seq<Event>, cfg: Config, m: nat, r: RequestId, v: Reservation)
    requires m < |es|
  {
    var c := Run(es[..m], cfg).core;
    && es[m] == Do(ReserveIn(r, v.list)) && c.clock == v.at && r in c.requests
    && c.requests[r].issuer == v.issuer && c.requests[r].shard == v.shard && c.requests[r].exp == v.exp
  }

  lemma LogStep(s: State, e: Event, cfg: Config, k: nat)
    requires k < |Step(s, e, cfg).core.log|
    ensures var v := Step(s, e, cfg).core.log[k];
      || (k < |s.core.log| && v == s.core.log[k])
      || (e.Do? && e.op.ReserveIn? && e.op.id == v.list && s.core.clock == v.at && e.op.req in s.core.requests
          && s.core.requests[e.op.req] == Request(v.issuer, v.shard, v.exp))
  {
  }

  /** In every run every reservation goes back to an admission of the same issuer and shard, and expires
      exactly when that asked for, or exactly the maximum after it if it did not ask. */
  lemma {:induction false} ReservedAsAsked(es: seq<Event>, cfg: Config, k: nat) returns (j: nat, m: nat, r: RequestId)
    requires k < |Run(es, cfg).core.log|
    ensures var v := Run(es, cfg).core.log[k];
      && j < m < |es| && ReservedAt(es, cfg, m, r, v) && AdmittedAt(es, cfg, j, r, Request(v.issuer, v.shard, v.exp))
  {
    var front, last := es[..|es| - 1], es[|es| - 1];
    var s, v := Run(front, cfg), Run(es, cfg).core.log[k];
    LogStep(s, last, cfg, k);
    if k < |s.core.log| && v == s.core.log[k] {
      j, m, r := ReservedAsAsked(front, cfg, k);
      assert front[..j] == es[..j] && front[..m] == es[..m];
    } else {
      m, r := |es| - 1, last.op.req;
      j := RequestAdmitted(front, cfg, r);
      assert front[..j] == es[..j];
    }
  }

  /** Conservation in every run: the usage counters add up to the live allocation rows plus the
      rows removed by deletion, and each counter is its issuer's reservations on that shard. */
  lemma UsageConserved(es: seq<Event>, cfg: Config, issuer: Issuer, shard: Shard)
    ensures var c := Run(es, cfg).core;
      && Total(c.db.usage) == |c.db.allocations| + c.removed == |c.log|
      && UsageOf(c.db, issuer, shard) == Count(c.log, issuer, shard)
  {
    RunCore(es, cfg);
  }

  /** In every run, under every key function, an existing list's rows are exactly the allocator's
      indices for the cursors used so far; an ACTIVE list has room; a full one is used up. */
  lemma RowsInEveryRun(es: seq<Event>, cfg: Config, prf: Key -> Allocator.RoundFunction, id: ListId)
    requires cfg.ix == AllocatorIndexer(prf) && id in Run(es, cfg).core.db.lists
    ensures var db := Run(es, cfg).core.db; var lm := db.lists[id];
      && |Rows(db, id)| == lm.cursor <= lm.size
      && (lm.state == ACTIVE ==> lm.cursor < lm.size)
      && (forall i :: i in Rows(db, id) <==> exists c :: 0 <= c < lm.cursor && Derive(cfg.ix, lm)(c) == Ok(i))
      && (lm.cursor == lm.size ==> Rows(db, id) == Range(0, lm.size))
  {
    RunCore(es, cfg);
    AllocatorCollisionFree(prf);
    RowsOfList(Run(es, cfg).core.db, id, cfg.ix);
    assert ListOk(Run(es, cfg).core.db, id, cfg.ix);
  }

  /** In every run no reservation ever meets a primary-key conflict. */
  lemma NoConflictInAnyRun(es: seq<Event>, cfg: Config, prf: Key -> Allocator.RoundFunction,
                           id: ListId, req: Request)
    requires cfg.ix == AllocatorIndexer(prf) && id in Run(es, cfg).core.db.lists
    ensures var db := Run(es, cfg).core.db;
      Reserve(db, id, req.issuer, req.shard, req.exp, Derive(cfg.ix, db.lists[id])).1 != Err(Conflict)
  {
    RunCore(es, cfg);
    AllocatorCollisionFree(prf);
    ReserveNoConflict(Run(es, cfg).core.db, id, req.issuer, req.shard, req.exp, cfg.ix);
  }

  /** In every run the stored largest expiry is the largest recorded one (null exactly when there
      is none) and lies within the maximum lifetime of the list's last reservation. */
  lemma MaxExpInEveryRun(es: seq<Event>, cfg: Config, id: ListId)
    requires id in Run(es, cfg).core.db.lists
    ensures var c := Run(es, cfg).core; var lm := c.db.lists[id];
      && MaxExpIs(c.db, id, lm.maxExp)
      && (lm.maxExp.Some? ==> id in c.lastAt && lm.maxExp.value <= c.lastAt[id] + cfg.maxExpiry)
  {
    RunCore(es, cfg);
    assert ListOk(Run(es, cfg).core.db, id, cfg.ix);
    assert TimeOk(Run(es, cfg).core, id, cfg.maxExpiry);
  }

  /** A list that left ACTIVE at time t and is still FROZEN at t + maxExpiry + grace is on the agenda of
      every sweeper with that grace whose pass began by then, whatever its issuers asked for. */
  lemma FrozenBecomesEligible(es: seq<Event>, cfg: Config, id: ListId, w: SweeperId)
    requires var s := Run(es, cfg);
      && id in s.core.db.lists && s.core.db.lists[id].state == FROZEN && id in s.core.left
      && w in s.sweeps && s.sweeps[w].Started?
      && s.sweeps[w].now >= s.core.left[id] + cfg.maxExpiry + cfg.sweepers(w).grace
    ensures var s' := Step(Run(es, cfg), FindFrozen(w), cfg);
      w in s'.sweeps && s'.sweeps[w].Archiving? && id in s'.sweeps[w].todo
  {
    RunCore(es, cfg);
    assert TimeOk(Run(es, cfg).core, id, cfg.maxExpiry);
    FrozenAgenda(Run(es, cfg), cfg, w);
  }

  /** A FROZEN list always has a recorded moment at which it left ACTIVE, not in the future. */
  lemma FrozenHasLeft(es: seq<Event>, cfg: Config, id: ListId)
    requires id in Run(es, cfg).core.db.lists && Run(es, cfg).core.db.lists[id].state != ACTIVE
    ensures id in Run(es, cfg).core.left && Run(es, cfg).core.left[id] <= Run(es, cfg).core.clock
  {
    RunCore(es, cfg);
    assert TimeOk(Run(es, cfg).core, id, cfg.maxExpiry);
  }

  // ---- what is due gets done -------------------------------------------------------------------

  lemma SweepStep(s: State, e: Event, cfg: Config, w: SweeperId)
    requires w in Step(s, e, cfg).sweeps
    ensures if w in s.sweeps then Step(s, e, cfg).sweeps[w].now == s.sweeps[w].now
            else e == BeginSweep(w) && Step(s, e, cfg).sweeps[w] == Started(s.core.clock)
  {
  }

  /** In every run the time a pass works with is the clock at its beginning. */
  lemma {:induction false} SweepBegan(es: seq<Event>, cfg: Config, w: SweeperId) returns (j: nat)
    requires w in Run(es, cfg).sweeps
    ensures j < |es| && es[j] == BeginSweep(w) && Run(es[..j], cfg).core.clock == Run(es, cfg).sweeps[w].now
  {
    var front := es[..|es| - 1];
    SweepStep(Run(front, cfg), es[|es| - 1], cfg, w);
    j := |es| - 1;
    if w in Run(front, cfg).sweeps {
      j := SweepBegan(front, cfg, w);
      assert front[..j] == es[..j];
    }
  }

  /** The agenda of each phase, in terms of the rows alone. */
  lemma FrozenAgenda(s: State, cfg: Config, w: SweeperId)
    requires w in s.sweeps && s.sweeps[w].Started?
    ensures var s', now := Step(s, FindFrozen(w), cfg), s.sweeps[w].now;
      && s'.core == s.core && w in s'.sweeps && s'.sweeps[w].Archiving? && s'.sweeps[w].now == now
      && forall id :: id in s'.sweeps[w].todo <==>
           && id in s.core.db.lists && s.core.db.lists[id].state == FROZEN
           && (s.core.db.lists[id].maxExp.Some? ==>
               s.core.db.lists[id].maxExp.value + cfg.sweepers(w).grace <= now)
  {
  }

  lemma ArchivedAgenda(s: State, cfg: Config, w: SweeperId)
    requires w in s.sweeps && s.sweeps[w].Archiving? && s.sweeps[w].todo == {}
    ensures var s', now := Step(s, FindArchived(w), cfg), s.sweeps[w].now;
      && s'.core == s.core && w in s'.sweeps && s'.sweeps[w].Purging? && s'.sweeps[w].now == now
      && forall id :: id in s'.sweeps[w].todo <==>
           && id in s.core.db.lists && s.core.db.lists[id].state == ARCHIVED && !s.core.db.lists[id].purged
           && s.core.db.lists[id].archivedAt.Some?
           && s.core.db.lists[id].archivedAt.value + cfg.sweepers(w).retention <= now
  {
  }

  lemma PurgedAgenda(s: State, cfg: Config, w: SweeperId)
    requires w in s.sweeps && s.sweeps[w].Purging? && s.sweeps[w].todo == {} && cfg.sweepers(w).dbRetention > 0
    ensures var s', now := Step(s, FindPurged(w), cfg), s.sweeps[w].now;
      && s'.core == s.core && w in s'.sweeps && s'.sweeps[w].Deleting? && s'.sweeps[w].now == now
      && forall id :: id in s'.sweeps[w].todo <==>
           && id in s.core.db.lists && s.core.db.lists[id].purged && s.core.db.lists[id].purgedAt.Some?
           && s.core.db.lists[id].purgedAt.value + cfg.sweepers(w).dbRetention <= now
  {
  }

  /** The phase has had its effect on a list. */
  predicate Collected(c: Core, sw: Sweep, id: ListId) {
    match sw
    case Started(_) => false
    case Archiving(_, _) => id in c.db.lists ==> c.db.lists[id].state == ARCHIVED
    case Purging(_, _) => id in c.db.lists ==> c.db.lists[id].purged
    case Deleting(_, _) => id !in c.db.lists
  }

  /** A list is still on a sweeper's agenda, or done with; one to archive has left ACTIVE. */
  predicate InHand(s: State, w: SweeperId, id: ListId) {
    && w in s.sweeps && !s.sweeps[w].Started? && id in s.core.used
    && (s.sweeps[w].Archiving? && id in s.core.db.lists ==> s.core.db.lists[id].state != ACTIVE)
    && (id in s.sweeps[w].todo || Collected(s.core, s.sweeps[w], id))
  }

  lemma StatementCollects(s: State, e: Event, cfg: Config, w: SweeperId, id: ListId)
    requires InHand(s, w, id) && id in s.sweeps[w].todo && w in SweepsAfter(s, e, cfg)
    requires SamePhase(s.sweeps[w], SweepsAfter(s, e, cfg)[w]) && id !in Todo(SweepsAfter(s, e, cfg)[w])
    ensures Collected(Step(s, e, cfg).core, SweepsAfter(s, e, cfg)[w], id)
  {
  }

  lemma CollectedStays(c: Core, op: Op, cfg: Config, sw: Sweep, id: ListId)
    requires IdsOk(c) && id in c.used && Collected(c, sw, id)
    ensures Collected(Apply(c, op, cfg), sw, id)
  {
    if id in Apply(c, op, cfg).db.lists {
      ListsOnlyCreated(c, op, cfg, id);
      ApplyMovesForward(c, op, cfg, id);
      if c.db.lists[id].purged {
        PurgedStays(c, op, cfg, id);
      }
    }
  }

  lemma PurgedStays(c: Core, op: Op, cfg: Config, id: ListId)
    requires id in c.db.lists && id in Apply(c, op, cfg).db.lists && c.db.lists[id].purged
    ensures Apply(c, op, cfg).db.lists[id].purged
  {
  }

  lemma StepKeepsInHand(s: State, e: Event, cfg: Config, w: SweeperId, id: ListId)
    requires IdsOk(s.core) && InHand(s, w, id)
    requires w in Step(s, e, cfg).sweeps && SamePhase(s.sweeps[w], Step(s, e, cfg).sweeps[w])
    ensures InHand(Step(s, e, cfg), w, id)
  {
    var c, op, sw := s.core, OpOf(s, e), SweepsAfter(s, e, cfg)[w];
    ClockAndIdsGrow(c, op, cfg);
    if id in Apply(c, op, cfg).db.lists {
      ListsOnlyCreated(c, op, cfg, id);
      ApplyMovesForward(c, op, cfg, id);
    }
    if Collected(c, s.sweeps[w], id) {
      CollectedStays(c, op, cfg, sw, id);
    } else if id !in sw.todo {
      StatementCollects(s, e, cfg, w, id);
    }
  }

  /** The sweeper stays in the phase that event i began, up to moment k. */
  ghost predicate PhaseLasts(es: seq<Event>, cfg: Config, i: nat, k: nat, w: SweeperId)
    requires i < k <= |es|
  {
    && w in Run(es[..i + 1], cfg).sweeps && !Run(es[..i + 1], cfg).sweeps[w].Started?
    && forall m :: i < m <= k ==>
         w in Run(es[..m], cfg).sweeps && SamePhase(Run(es[..i + 1], cfg).sweeps[w], Run(es[..m], cfg).sweeps[w])
  }

  lemma OneStep(es: seq<Event>, cfg: Config, m: nat)
    requires m < |es|
    ensures Run(es[..m + 1], cfg) == Step(Run(es[..m], cfg), es[m], cfg) && IdsOk(Run(es[..m], cfg).core)
  {
    RunStep(es, cfg, m);
    RunCore(es[..m], cfg);
  }

  /** The states of a run, one after the other. */
  ghost predicate IsTrace(t: seq<State>, es: seq<Event>, cfg: Config) {
    |t| == |es| + 1 && forall m :: 0 <= m < |es| ==> t[m + 1] == Step(t[m], es[m], cfg) && IdsOk(t[m].core)
  }

  lemma TraceOf(es: seq<Event>, cfg: Config) returns (t: seq<State>)
    ensures IsTrace(t, es, cfg) && forall m :: 0 <= m <= |es| ==> t[m] == Run(es[..m], cfg)
  {
    t := seq(|es| + 1, m requires 0 <= m <= |es| => Run(es[..m], cfg));
    forall m | 0 <= m < |es| ensures t[m + 1] == Step(t[m], es[m], cfg) && IdsOk(t[m].core) {
      OneStep(es, cfg, m);
    }
  }

  lemma StaysInHand(es: seq<Event>, cfg: Config, i: nat, k: nat, w: SweeperId, id: ListId)
    requires i < k <= |es| && PhaseLasts(es, cfg, i, k, w) && InHand(Run(es[..i + 1], cfg), w, id)
    ensures InHand(Run(es[..k], cfg), w, id)
  {
    var t := TraceOf(es, cfg);
    forall m | i < m <= k ensures w in t[m].sweeps && SamePhase(t[i + 1].sweeps[w], t[m].sweeps[w]) {
      assert t[m] == Run(es[..m], cfg) && t[i + 1] == Run(es[..i + 1], cfg);
    }
    HandChain(t, es, cfg, i + 1, k, w, id);
  }

  lemma {:induction false} HandChain(t: seq<State>, es: seq<Event>, cfg: Config, i: nat, k: nat, w: SweeperId,
                                     id: ListId)
    requires IsTrace(t, es, cfg) && i <= k <= |es| && InHand(t[i], w, id)
    requires forall m :: i <= m <= k ==> w in t[m].sweeps && SamePhase(t[i].sweeps[w], t[m].sweeps[w])
    ensures InHand(t[k], w, id)
  {
    if i < k {
      HandChain(t, es, cfg, i, k - 1, w, id);
      assert t[k - 1 + 1] == Step(t[k - 1], es[k - 1], cfg);
      StepKeepsInHand(t[k - 1], es[k - 1], cfg, w, id);
    }
  }

  /** Phase after phase, in every run with any number of sweepers: what is due when a phase asks for its
      agenda is done when the phase has worked it off, by this sweeper or by another. A FROZEN list is
      due once its last possible expiry and the grace have passed, */
  lemma FrozenGetsArchived(es: seq<Event>, cfg: Config, i: nat, k: nat, w: SweeperId, id: ListId)
    requires i < k <= |es| && es[i] == FindFrozen(w)
    requires var s := Run(es[..i], cfg);
      && w in s.sweeps && s.sweeps[w].Started?
      && id in s.core.db.lists && s.core.db.lists[id].state == FROZEN && id in s.core.left
      && s.sweeps[w].now >= s.core.left[id] + cfg.maxExpiry + cfg.sweepers(w).grace
    requires PhaseLasts(es, cfg, i, k, w) && Todo(Run(es[..k], cfg).sweeps[w]) == {}
    ensures id in Run(es[..k], cfg).core.db.lists ==> Run(es[..k], cfg).core.db.lists[id].state == ARCHIVED
  {
    RunStep(es, cfg, i);
    FrozenBecomesEligible(es[..i], cfg, id, w);
    assert IdsOk(Run(es[..i], cfg).core) by { RunCore(es[..i], cfg); }
    StaysInHand(es, cfg, i, k, w, id);
  }

  /** an ARCHIVED list that is not purged once the retention since its archiving has passed, */
  lemma ArchivedGetsPurged(es: seq<Event>, cfg: Config, i: nat, k: nat, w: SweeperId, id: ListId)
    requires i < k <= |es| && es[i] == FindArchived(w)
    requires var s := Run(es[..i], cfg);
      && w in s.sweeps && s.sweeps[w].Archiving? && s.sweeps[w].todo == {}
      && id in s.core.db.lists && s.core.db.lists[id].state == ARCHIVED && !s.core.db.lists[id].purged
      && s.core.db.lists[id].archivedAt.Some?
      && s.sweeps[w].now >= s.core.db.lists[id].archivedAt.value + cfg.sweepers(w).retention
    requires PhaseLasts(es, cfg, i, k, w) && Todo(Run(es[..k], cfg).sweeps[w]) == {}
    ensures id in Run(es[..k], cfg).core.db.lists ==> Run(es[..k], cfg).core.db.lists[id].purged
  {
    RunStep(es, cfg, i);
    ArchivedAgenda(Run(es[..i], cfg), cfg, w);
    assert IdsOk(Run(es[..i], cfg).core) by { RunCore(es[..i], cfg); }
    StaysInHand(es, cfg, i, k, w, id);
  }

  /** and a purged list, where deletion is enabled, once the database retention since its purge has. */
  lemma PurgedGetsDeleted(es: seq<Event>, cfg: Config, i: nat, k: nat, w: SweeperId, id: ListId)
    requires i < k <= |es| && es[i] == FindPurged(w) && cfg.sweepers(w).dbRetention > 0
    requires var s := Run(es[..i], cfg);
      && w in s.sweeps && s.sweeps[w].Purging? && s.sweeps[w].todo == {}
      && id in s.core.db.lists && s.core.db.lists[id].purged && s.core.db.lists[id].purgedAt.Some?
      && s.sweeps[w].now >= s.core.db.lists[id].purgedAt.value + cfg.sweepers(w).dbRetention
    requires PhaseLasts(es, cfg, i, k, w) && Todo(Run(es[..k], cfg).sweeps[w]) == {}
    ensures id !in Run(es[..k], cfg).core.db.lists
  {
    RunStep(es, cfg, i);
    PurgedAgenda(Run(es[..i], cfg), cfg, w);
    assert IdsOk(Run(es[..i], cfg).core) by { RunCore(es[..i], cfg); }
    StaysInHand(es, cfg, i, k, w, id);
  }

  // ---- stuck lists ---------------------------------------------------------------------------

  /** The list, while it exists, stands at a cursor that does not converge, and nothing was reserved in
      it since the history had n entries. */
  ghost predicate Stuck(c: Core, id: ListId, cursor: nat, n: nat, ix: Indexer) {
    && id in c.used
    && (id in c.db.lists ==> c.db.lists[id].cursor == cursor && Derive(ix, c.db.lists[id])(cursor).Err?)
    && n <= |c.log| && forall j :: n <= j < |c.log| ==> c.log[j].list != id
  }

  lemma ReserveKeepsStuck(c: Core, req: Request, at: ListId, cfg: Config, id: ListId, cursor: nat, n: nat)
    requires at in c.db.lists && Stuck(c, id, cursor, n, cfg.ix)
    ensures Stuck(ReserveStep(c, req, at, cfg), id, cursor, n, cfg.ix)
  {
    if at == id {
      StuckList(c.db, id, req.issuer, req.shard, req.exp, cfg.ix);
    }
  }

  lemma ApplyKeepsStuck(c: Core, op: Op, cfg: Config, id: ListId, cursor: nat, n: nat)
    requires Stuck(c, id, cursor, n, cfg.ix)
    ensures Stuck(Apply(c, op, cfg), id, cursor, n, cfg.ix)
  {
    if op.ReserveIn? && op.req in c.requests && op.id in c.db.lists {
      ReserveKeepsStuck(c, c.requests[op.req], op.id, cfg, id, cursor, n);
    }
  }

  /** In every run, from the moment a list stands at a cursor that does not converge, no reservation in
      it ever succeeds again and its cursor never moves. */
  lemma {:induction false} StuckForever(es: seq<Event>, cfg: Config, i: nat, k: nat, id: ListId)
    requires i <= k <= |es| && id in Run(es[..i], cfg).core.db.lists
    requires var lm := Run(es[..i], cfg).core.db.lists[id]; Derive(cfg.ix, lm)(lm.cursor).Err?
    ensures var c := Run(es[..i], cfg).core;
      Stuck(Run(es[..k], cfg).core, id, c.db.lists[id].cursor, |c.log|, cfg.ix)
  {
    if i == k {
      RunCore(es[..i], cfg);
    } else {
      StuckForever(es, cfg, i, k - 1, id);
      RunStep(es, cfg, k - 1);
      var s, c := Run(es[..k - 1], cfg), Run(es[..i], cfg).core;
      ApplyKeepsStuck(s.core, OpOf(s, es[k - 1]), cfg, id, c.db.lists[id].cursor, |c.log|);
    }
  }
}
