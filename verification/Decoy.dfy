/** Decoy noise beside real traffic on one list: its creator initialises the bitmap, allocators reserve
    then reset to VALID, owners write statuses, noisers sample, check and write; all interleaved
    statement by statement.
    An event that is not enabled leaves the state as it is. */
module Decoy {
  import opened Prelude
  import opened StatusList
  import opened BitmapStore
  import opened MetaStore

  /** The list: its identifier and the immutable columns of its row. */
  datatype Config = Config(id: MetaStore.ListId, size: nat, bits: int, key: Key, ix: Indexer)

  ghost predicate ConfigOk(cfg: Config) {
    Fits(cfg.size, cfg.bits) && cfg.size >= 1 && CollisionFree(cfg.ix)
  }

  /** One decoy flip: VALID moves to INVALID or SUSPENDED, SUSPENDED may revert, nothing else moves. */
  function NextDecoyStatus(cur: bv8, coin: bool): Option<bv8> {
    if cur == VALID then Some(if coin then INVALID else SUSPENDED)
    else if cur == SUSPENDED && coin then Some(VALID)
    else None
  }

  datatype Allocating = Reserved(idx: nat) | Acked(idx: nat)

  datatype Updating = Owned(idx: nat, value: bv8) | MayWrite(idx: nat, value: bv8)

  /** `landed` is history: a reset of this index has landed since it was checked. */
  datatype Phase =
    | Listed
    | Picking(snapshot: seq<bv8>)
    | Candidate(snapshot: seq<bv8>, pos: nat, idx: nat, next: bv8)
    | Cleared(snapshot: seq<bv8>, pos: nat, idx: nat, next: bv8, landed: bool)

  /** A noiser's pass: the cursor and state it read first, then where it stands. */
  datatype Noise = Noise(cursor: nat, state: ListState, phase: Phase)

  /** `reset` (indices whose reset has landed) and `last` (the last write by a reset or an owner)
      are history. */
  datatype State = State(
    db: Db, bitmap: RedisString,
    allocs: map<nat, Allocating>, owners: map<nat, Updating>, noisers: map<nat, Noise>,
    reset: set<nat>, last: map<nat, bv8>)

  datatype Event =
    | InitBitmap
    | ReserveNext(req: nat, issuer: Issuer, exp: Time)
    | ResetToValid(req: nat)
    | CheckOwner(q: nat, issuer: Issuer, idx: nat, value: bv8)
    | CheckState(q: nat)
    | OwnerWrite(q: nat)
    | FreezeIt
    | ArchiveIt(now: Time)
    | NoiseList(n: nat)
    | NoiseSnapshot(n: nat)
    | NoisePick(n: nat, pos: nat, coin: bool)
    | NoiseCheck(n: nat)
    | NoiseWrite(n: nat)

  function Start(cfg: Config): State {
    State(Create(EMPTY, cfg.id, cfg.bits, cfg.size, cfg.key, "", 0), None, map[], map[], map[], {}, map[])
  }

  function Row(s: State, cfg: Config): ListMeta
    requires cfg.id in s.db.lists
  {
    s.db.lists[cfg.id]
  }

  /** The statuses the bitmap shows. */
  function Cells(s: State, cfg: Config): (cells: seq<bv8>)
    requires Fits(cfg.size, cfg.bits)
    ensures |cells| == cfg.size
  {
    View(s.bitmap, cfg.size, cfg.bits)
  }

  /** A reset landing on an index marks the noisers about to write there. */
  function Land(noise: Noise, idx: nat): Noise {
    if noise.phase.Cleared? && noise.phase.idx == idx then noise.(phase := noise.phase.(landed := true)) else noise
  }

  function ReserveStep(s: State, req: nat, issuer: Issuer, exp: Time, cfg: Config): State
    requires cfg.id in s.db.lists
  {
    var (db, r) := Reserve(s.db, cfg.id, issuer, "", exp, Derive(cfg.ix, Row(s, cfg)));
    match r
    case Err(_) => s
    case Ok(idx) => s.(db := db, allocs := s.allocs[req := Reserved(idx)])
  }

  function ResetStep(s: State, req: nat, cfg: Config): State
    requires Fits(cfg.size, cfg.bits) && req in s.allocs && s.allocs[req].idx < cfg.size
  {
    var idx := s.allocs[req].idx;
    s.(bitmap := WriteEntry(s.bitmap, idx, cfg.size, cfg.bits, VALID),
       allocs := s.allocs[req := Acked(idx)],
       noisers := map n | n in s.noisers :: Land(s.noisers[n], idx),
       reset := s.reset + {idx}, last := s.last[idx := VALID])
  }

  function PickStep(s: State, n: nat, pos: nat, coin: bool, cfg: Config): State
    requires n in s.noisers && s.noisers[n].phase.Picking?
  {
    var noise := s.noisers[n];
    var snapshot := noise.phase.snapshot;
    if !(noise.cursor <= pos < cfg.size) then s else
      match cfg.ix(cfg.key, cfg.size)(pos)
      case Err(_) => s
      case Ok(idx) =>
        if idx >= |snapshot| then s else
          match NextDecoyStatus(snapshot[idx], coin)
          case None => s
          case Some(next) =>
            s.(noisers := s.noisers[n := noise.(phase := Candidate(snapshot, pos, idx, next))])
  }

  function OwnerWriteStep(s: State, q: nat, cfg: Config): State
    requires Fits(cfg.size, cfg.bits) && q in s.owners && s.owners[q].idx < cfg.size
  {
    var u := s.owners[q];
    s.(bitmap := WriteEntry(s.bitmap, u.idx, cfg.size, cfg.bits, u.value),
       owners := s.owners - {q}, last := s.last[u.idx := u.value])
  }

  function CheckStep(s: State, n: nat, cfg: Config): State
    requires n in s.noisers && s.noisers[n].phase.Candidate?
  {
    var c := s.noisers[n].phase;
    var phase := if IsAllocated(s.db, cfg.id, c.idx) then Picking(c.snapshot)
                 else Cleared(c.snapshot, c.pos, c.idx, c.next, false);
    s.(noisers := s.noisers[n := s.noisers[n].(phase := phase)])
  }

  function NoiseWriteStep(s: State, n: nat, cfg: Config): State
    requires Fits(cfg.size, cfg.bits)
    requires n in s.noisers && s.noisers[n].phase.Cleared? && s.noisers[n].phase.idx < cfg.size
  {
    var c := s.noisers[n].phase;
    s.(bitmap := WriteEntry(s.bitmap, c.idx, cfg.size, cfg.bits, c.next),
       noisers := s.noisers[n := s.noisers[n].(phase := Picking(c.snapshot))])
  }

  function Step(s: State, e: Event, cfg: Config): State
    requires Fits(cfg.size, cfg.bits) && cfg.id in s.db.lists
  {
    match e
    case InitBitmap => s.(bitmap := InitString(s.bitmap, ByteLen(cfg.size, cfg.bits)))
    case ReserveNext(req, issuer, exp) =>
      if req in s.allocs then s else ReserveStep(s, req, issuer, exp, cfg)
    case ResetToValid(req) =>
      if !(req in s.allocs && s.allocs[req].Reserved? && s.allocs[req].idx < cfg.size) then s
      else ResetStep(s, req, cfg)
    case CheckOwner(q, issuer, idx, value) =>
      if q in s.owners || CheckOwnership(s.db, cfg.id, idx, issuer).Err? || value > SUSPENDED then s
      else s.(owners := s.owners[q := Owned(idx, value)])
    case CheckState(q) =>
      if !(q in s.owners && s.owners[q].Owned?) then s
      else if Row(s, cfg).state == ARCHIVED then s.(owners := s.owners - {q})
      else s.(owners := s.owners[q := MayWrite(s.owners[q].idx, s.owners[q].value)])
    case OwnerWrite(q) =>
      if !(q in s.owners && s.owners[q].MayWrite? && s.owners[q].idx < cfg.size) then s
      else OwnerWriteStep(s, q, cfg)
    case FreezeIt => s.(db := Freeze(s.db, cfg.id))
    case ArchiveIt(now) => s.(db := Archive(s.db, cfg.id, now))
    case NoiseList(n) =>
      if n in s.noisers then s
      else s.(noisers := s.noisers[n := Noise(Row(s, cfg).cursor, Row(s, cfg).state, Listed)])
    case NoiseSnapshot(n) =>
      if !(n in s.noisers && s.noisers[n].phase.Listed?) then s
      else s.(noisers := s.noisers[n := s.noisers[n].(phase := Picking(Cells(s, cfg)))])
    case NoisePick(n, pos, coin) =>
      if !(n in s.noisers && s.noisers[n].phase.Picking?) then s else PickStep(s, n, pos, coin, cfg)
    case NoiseCheck(n) =>
      if !(n in s.noisers && s.noisers[n].phase.Candidate?) then s else CheckStep(s, n, cfg)
    case NoiseWrite(n) =>
      if !(n in s.noisers && s.noisers[n].phase.Cleared? && s.noisers[n].phase.idx < cfg.size) then s
      else NoiseWriteStep(s, n, cfg)
  }

  // ---- the invariant -------------------------------------------------------------------------

  ghost predicate TableOk(s: State, cfg: Config) {
    && cfg.id in s.db.lists && Consistent(s.db, cfg.ix)
    && Row(s, cfg).size == cfg.size && Row(s, cfg).key == cfg.key
  }

  /** Allocators hold indices that have a row; an acknowledged one has been reset. */
  ghost predicate AllocsOk(s: State, cfg: Config) {
    forall r :: r in s.allocs ==>
      && s.allocs[r].idx < cfg.size && IsAllocated(s.db, cfg.id, s.allocs[r].idx)
      && (s.allocs[r].Acked? ==> s.allocs[r].idx in s.reset)
  }

  /** A reset index has a row and a last real write. */
  ghost predicate ResetsOk(s: State, cfg: Config) {
    forall i :: i in s.reset ==> i < cfg.size && IsAllocated(s.db, cfg.id, i) && i in s.last
  }

  /** Real writes are named statuses. */
  ghost predicate ValuesOk(s: State) {
    && (forall q :: q in s.owners ==> s.owners[q].value <= SUSPENDED)
    && (forall i :: i in s.last ==> s.last[i] <= SUSPENDED)
  }

  /** What a noiser knows. A list read outside ACTIVE has the cursor it was read with. */
  ghost predicate NoiseOk(s: State, noise: Noise, cfg: Config)
    requires cfg.id in s.db.lists
  {
    && (noise.state != ACTIVE ==> Row(s, cfg).state != ACTIVE && Row(s, cfg).cursor == noise.cursor)
    && (noise.phase.Candidate? || noise.phase.Cleared? ==>
        && noise.cursor <= noise.phase.pos
        && cfg.ix(cfg.key, cfg.size)(noise.phase.pos) == Ok(noise.phase.idx)
        && noise.phase.idx < cfg.size)
    && (noise.phase.Cleared? ==> (noise.phase.landed <==> noise.phase.idx in s.reset))
  }

  ghost predicate Inv(s: State, cfg: Config) {
    && TableOk(s, cfg) && AllocsOk(s, cfg) && ResetsOk(s, cfg) && ValuesOk(s)
    && forall n :: n in s.noisers ==> NoiseOk(s, s.noisers[n], cfg)
  }

  /** The promise: an index whose reset has landed shows its last real write. */
  ghost predicate Safe(s: State, cfg: Config)
    requires Fits(cfg.size, cfg.bits)
  {
    Reflects(Cells(s, cfg), s.reset, Shown(s.last, Mask(cfg.bits)))
  }

  /** What writes show in fields of a given mask. */
  function Shown(last: map<nat, bv8>, mask: bv8): map<nat, bv8> {
    map i | i in last :: last[i] & mask
  }

  ghost predicate Reflects<T>(cells: seq<T>, reset: set<nat>, shown: map<nat, T>) {
    forall i :: i in reset && i < |cells| && i in shown ==> cells[i] == shown[i]
  }

  lemma StartOk(cfg: Config)
    requires ConfigOk(cfg)
    ensures Inv(Start(cfg), cfg) && Safe(Start(cfg), cfg)
  {
    CreateKeepsOk(EMPTY, cfg.id, cfg.bits, cfg.size, cfg.key, "", 0, cfg.ix);
  }

  predicate IsTableEvent(e: Event) {
    e.ReserveNext? || e.FreezeIt? || e.ArchiveIt?
  }

  lemma SameTable(s: State, e: Event, cfg: Config)
    requires Fits(cfg.size, cfg.bits) && cfg.id in s.db.lists && !IsTableEvent(e)
    ensures Step(s, e, cfg).db == s.db
  {
  }

  lemma ReserveStepDb(s: State, req: nat, issuer: Issuer, exp: Time, cfg: Config)
    requires cfg.id in s.db.lists
    ensures var db := Reserve(s.db, cfg.id, issuer, "", exp, Derive(cfg.ix, Row(s, cfg))).0;
      && ReserveStep(s, req, issuer, exp, cfg).db == db && cfg.id in db.lists
      && db.lists[cfg.id].size == Row(s, cfg).size && db.lists[cfg.id].key == Row(s, cfg).key
  {
  }

  lemma ReserveKeepsTable(s: State, req: nat, issuer: Issuer, exp: Time, cfg: Config)
    requires TableOk(s, cfg)
    ensures TableOk(ReserveStep(s, req, issuer, exp, cfg), cfg)
  {
    ReserveStepDb(s, req, issuer, exp, cfg);
    ReserveKeepsOk(s.db, cfg.id, issuer, "", exp, cfg.ix);
  }

  lemma StampsKeepTable(s: State, db: Db, cfg: Config)
    requires TableOk(s, cfg) && OnlyStamps(s.db, db)
    ensures TableOk(s.(db := db), cfg)
  {
    StampsKeepOk(s.db, db, cfg.ix);
  }

  lemma StepKeepsTable(s: State, e: Event, cfg: Config)
    requires ConfigOk(cfg) && TableOk(s, cfg)
    ensures TableOk(Step(s, e, cfg), cfg)
  {
    if e.ReserveNext? {
      ReserveKeepsTable(s, e.req, e.issuer, e.exp, cfg);
    } else if e.FreezeIt? {
      FreezeStamps(s.db, cfg.id);
      StampsKeepTable(s, Freeze(s.db, cfg.id), cfg);
    } else if e.ArchiveIt? {
      ArchiveStamps(s.db, cfg.id, e.now);
      StampsKeepTable(s, Archive(s.db, cfg.id, e.now), cfg);
    } else {
      SameTable(s, e, cfg);
    }
  }

  /** Rows are only added, and only while the list is ACTIVE. */
  lemma RowsGrow(s: State, e: Event, cfg: Config)
    requires ConfigOk(cfg) && cfg.id in s.db.lists
    ensures var s' := Step(s, e, cfg);
      && cfg.id in s'.db.lists
      && (forall i :: IsAllocated(s.db, cfg.id, i) ==> IsAllocated(s'.db, cfg.id, i))
      && (Row(s, cfg).state != ACTIVE ==> Row(s', cfg).state != ACTIVE && Row(s', cfg).cursor == Row(s, cfg).cursor)
  {
    if !IsTableEvent(e) {
      SameTable(s, e, cfg);
    }
  }

  lemma ReserveKeepsAllocs(s: State, req: nat, issuer: Issuer, exp: Time, cfg: Config)
    requires ConfigOk(cfg) && cfg.id in s.db.lists && AllocsOk(s, cfg)
    requires Row(s, cfg).size == cfg.size && Row(s, cfg).key == cfg.key
    ensures AllocsOk(ReserveStep(s, req, issuer, exp, cfg), cfg)
  {
    var c := Row(s, cfg).cursor;
    assert cfg.ix(cfg.key, cfg.size)(c).Ok? ==> cfg.ix(cfg.key, cfg.size)(c).value < cfg.size;
  }

  /** Other events touch neither allocators nor resets. */
  lemma SameAllocs(s: State, e: Event, cfg: Config)
    requires Fits(cfg.size, cfg.bits) && cfg.id in s.db.lists && !e.ReserveNext? && !e.ResetToValid?
    ensures var s' := Step(s, e, cfg); s'.allocs == s.allocs && s'.reset == s.reset && s.last.Keys <= s'.last.Keys
  {
  }

  lemma StepKeepsAllocs(s: State, e: Event, cfg: Config)
    requires ConfigOk(cfg) && cfg.id in s.db.lists && AllocsOk(s, cfg) && ResetsOk(s, cfg)
    requires Row(s, cfg).size == cfg.size && Row(s, cfg).key == cfg.key
    ensures AllocsOk(Step(s, e, cfg), cfg) && ResetsOk(Step(s, e, cfg), cfg)
  {
    if e.ReserveNext? {
      ReserveKeepsAllocs(s, e.req, e.issuer, e.exp, cfg);
    } else if !e.ResetToValid? {
      SameAllocs(s, e, cfg);
      RowsGrow(s, e, cfg);
    }
  }

  predicate IsWrite(e: Event) {
    e.ResetToValid? || e.OwnerWrite? || e.NoiseWrite?
  }

  lemma OnlyWritesWrite(s: State, e: Event, cfg: Config)
    requires Fits(cfg.size, cfg.bits) && cfg.id in s.db.lists && !IsWrite(e)
    ensures var s' := Step(s, e, cfg);
      (e.InitBitmap? || s'.bitmap == s.bitmap) && s'.reset == s.reset && s'.last == s.last
  {
  }

  /** The pool's set-if-absent initialisation shows nowhere. */
  lemma InitSameCells(s: State, cfg: Config)
    requires Fits(cfg.size, cfg.bits) && cfg.id in s.db.lists
    ensures Cells(Step(s, InitBitmap, cfg), cfg) == Cells(s, cfg)
  {
  }

  lemma StepKeepsValues(s: State, e: Event, cfg: Config)
    requires Fits(cfg.size, cfg.bits) && cfg.id in s.db.lists && ValuesOk(s)
    ensures ValuesOk(Step(s, e, cfg))
  {
    if !IsWrite(e) {
      OnlyWritesWrite(s, e, cfg);
    }
  }

  /** A noiser that the event does not move keeps what it knows, resets aside. */
  lemma NoiseKept(s: State, s': State, noise: Noise, cfg: Config)
    requires cfg.id in s.db.lists && cfg.id in s'.db.lists && NoiseOk(s, noise, cfg) && s'.reset == s.reset
    requires Row(s, cfg).state != ACTIVE ==> Row(s', cfg).state != ACTIVE && Row(s', cfg).cursor == Row(s, cfg).cursor
    ensures NoiseOk(s', noise, cfg)
  {
  }

  lemma ResetKeepsNoise(s: State, req: nat, cfg: Config, n: nat)
    requires ConfigOk(cfg) && cfg.id in s.db.lists && req in s.allocs && s.allocs[req].idx < cfg.size
    requires n in s.noisers && NoiseOk(s, s.noisers[n], cfg)
    ensures NoiseOk(ResetStep(s, req, cfg), ResetStep(s, req, cfg).noisers[n], cfg)
  {
  }

  lemma PickKeepsNoise(s: State, m: nat, pos: nat, coin: bool, cfg: Config, n: nat)
    requires ConfigOk(cfg) && cfg.id in s.db.lists && m in s.noisers && s.noisers[m].phase.Picking?
    requires n in s.noisers && NoiseOk(s, s.noisers[n], cfg)
    ensures n in PickStep(s, m, pos, coin, cfg).noisers
    ensures NoiseOk(PickStep(s, m, pos, coin, cfg), PickStep(s, m, pos, coin, cfg).noisers[n], cfg)
  {
    assert cfg.ix(cfg.key, cfg.size)(pos).Ok? ==> cfg.ix(cfg.key, cfg.size)(pos).value < cfg.size;
  }

  lemma CheckKeepsNoise(s: State, m: nat, cfg: Config, n: nat)
    requires cfg.id in s.db.lists && m in s.noisers && s.noisers[m].phase.Candidate? && ResetsOk(s, cfg)
    requires n in s.noisers && NoiseOk(s, s.noisers[n], cfg)
    ensures NoiseOk(CheckStep(s, m, cfg), CheckStep(s, m, cfg).noisers[n], cfg)
  {
  }

  predicate IsNoise(e: Event) {
    e.NoiseList? || e.NoiseSnapshot? || e.NoisePick? || e.NoiseCheck? || e.NoiseWrite?
  }

  lemma SameNoisers(s: State, e: Event, cfg: Config)
    requires Fits(cfg.size, cfg.bits) && cfg.id in s.db.lists && !IsNoise(e) && !e.ResetToValid?
    ensures Step(s, e, cfg).noisers == s.noisers && Step(s, e, cfg).reset == s.reset
  {
  }

  lemma MoveKeepsNoise(s: State, e: Event, cfg: Config, n: nat)
    requires ConfigOk(cfg) && cfg.id in s.db.lists && (e.NoiseList? || e.NoiseSnapshot? || e.NoiseWrite?)
    requires n in Step(s, e, cfg).noisers && (n in s.noisers ==> NoiseOk(s, s.noisers[n], cfg))
    ensures Step(s, e, cfg).db == s.db && NoiseOk(Step(s, e, cfg), Step(s, e, cfg).noisers[n], cfg)
  {
  }

  lemma StepKeepsNoise(s: State, e: Event, cfg: Config, n: nat)
    requires ConfigOk(cfg) && cfg.id in s.db.lists && ResetsOk(s, cfg) && n in Step(s, e, cfg).noisers
    requires n in s.noisers ==> NoiseOk(s, s.noisers[n], cfg)
    ensures cfg.id in Step(s, e, cfg).db.lists && NoiseOk(Step(s, e, cfg), Step(s, e, cfg).noisers[n], cfg)
  {
    if e.ResetToValid? {
      if e.req in s.allocs && s.allocs[e.req].idx < cfg.size { ResetKeepsNoise(s, e.req, cfg, n); }
    } else if e.NoisePick? {
      if e.n in s.noisers && s.noisers[e.n].phase.Picking? { PickKeepsNoise(s, e.n, e.pos, e.coin, cfg, n); }
    } else if e.NoiseCheck? {
      if e.n in s.noisers && s.noisers[e.n].phase.Candidate? { CheckKeepsNoise(s, e.n, cfg, n); }
    } else if IsNoise(e) {
      MoveKeepsNoise(s, e, cfg, n);
    } else {
      SameNoisers(s, e, cfg);
      RowsGrow(s, e, cfg);
      NoiseKept(s, Step(s, e, cfg), s.noisers[n], cfg);
    }
  }

  lemma StepKeepsInv(s: State, e: Event, cfg: Config)
    requires ConfigOk(cfg) && Inv(s, cfg)
    ensures Inv(Step(s, e, cfg), cfg)
  {
    StepKeepsTable(s, e, cfg);
    StepKeepsAllocs(s, e, cfg);
    StepKeepsValues(s, e, cfg);
    forall n | n in Step(s, e, cfg).noisers ensures NoiseOk(Step(s, e, cfg), Step(s, e, cfg).noisers[n], cfg) {
      StepKeepsNoise(s, e, cfg, n);
    }
  }

  /** The index a noiser is about to write. */
  ghost predicate About(s: State, n: nat, idx: nat, next: bv8, landed: bool) {
    && n in s.noisers && s.noisers[n].phase.Cleared?
    && s.noisers[n].phase.idx == idx && s.noisers[n].phase.next == next && s.noisers[n].phase.landed == landed
  }

  lemma WriteCells(s: State, idx: nat, value: bv8, cfg: Config)
    requires ConfigOk(cfg) && idx < cfg.size
    ensures View(WriteEntry(s.bitmap, idx, cfg.size, cfg.bits, value), cfg.size, cfg.bits)
         == Cells(s, cfg)[idx := value & Mask(cfg.bits)]
  {
    WriteEntryRefines(s.bitmap, idx, cfg.size, cfg.bits, value);
  }

  lemma RealWriteReflects<T>(cells: seq<T>, reset: set<nat>, shown: map<nat, T>, idx: nat, value: T, reset': set<nat>)
    requires Reflects(cells, reset, shown) && idx < |cells| && reset' <= reset + {idx}
    ensures Reflects(cells[idx := value], reset', shown[idx := value])
  {
  }

  lemma ShownUpdate(last: map<nat, bv8>, mask: bv8, idx: nat, value: bv8)
    ensures Shown(last[idx := value], mask) == Shown(last, mask)[idx := value & mask]
  {
  }

  /** A reset or an owner's write keeps the promise. */
  lemma RealWriteKeepsSafe(s: State, s': State, idx: nat, value: bv8, cfg: Config)
    requires ConfigOk(cfg) && Safe(s, cfg) && idx < cfg.size
    requires s'.bitmap == WriteEntry(s.bitmap, idx, cfg.size, cfg.bits, value)
    requires s'.reset <= s.reset + {idx} && s'.last == s.last[idx := value]
    ensures Safe(s', cfg)
  {
    WriteCells(s, idx, value, cfg);
    ShownUpdate(s.last, Mask(cfg.bits), idx, value);
    RealWriteReflects(Cells(s, cfg), s.reset, Shown(s.last, Mask(cfg.bits)), idx, value & Mask(cfg.bits), s'.reset);
  }

  /** No step but a decoy write can break the promise. */
  lemma OthersKeepSafe(s: State, e: Event, cfg: Config)
    requires ConfigOk(cfg) && cfg.id in s.db.lists && Safe(s, cfg) && !e.NoiseWrite?
    ensures Safe(Step(s, e, cfg), cfg)
  {
    if e.ResetToValid? {
      if e.req in s.allocs && s.allocs[e.req].Reserved? && s.allocs[e.req].idx < cfg.size {
        RealWriteKeepsSafe(s, ResetStep(s, e.req, cfg), s.allocs[e.req].idx, VALID, cfg);
      }
    } else if e.OwnerWrite? {
      if e.q in s.owners && s.owners[e.q].MayWrite? && s.owners[e.q].idx < cfg.size {
        RealWriteKeepsSafe(s, OwnerWriteStep(s, e.q, cfg), s.owners[e.q].idx, s.owners[e.q].value, cfg);
      }
    } else {
      OnlyWritesWrite(s, e, cfg);
      if e.InitBitmap? {
        InitSameCells(s, cfg);
      }
      SameCells(s, Step(s, e, cfg), cfg);
    }
  }

  lemma SameCells(s: State, s': State, cfg: Config)
    requires Fits(cfg.size, cfg.bits) && Safe(s, cfg)
    requires Cells(s', cfg) == Cells(s, cfg) && s'.reset == s.reset && s'.last == s.last
    ensures Safe(s', cfg)
  {
  }

  /** A decoy write keeps the promise exactly when no reset of its index landed since the check, or
      it happens to write what the owner's entry holds anyway. */
  lemma DecoyWriteExact(s: State, n: nat, idx: nat, next: bv8, landed: bool, cfg: Config)
    requires ConfigOk(cfg) && Inv(s, cfg) && Safe(s, cfg) && About(s, n, idx, next, landed)
    ensures landed ==> idx in s.last
    ensures Safe(Step(s, NoiseWrite(n), cfg), cfg)
       <==> (!landed || next & Mask(cfg.bits) == s.last[idx] & Mask(cfg.bits))
  {
    assert NoiseOk(s, s.noisers[n], cfg);
    DecoyWriteCells(s, n, idx, next, landed, cfg);
  }

  lemma DecoyWriteCells(s: State, n: nat, idx: nat, next: bv8, landed: bool, cfg: Config)
    requires ConfigOk(cfg) && Safe(s, cfg) && About(s, n, idx, next, landed) && idx < cfg.size
    requires (landed <==> idx in s.reset) && (idx in s.reset ==> idx in s.last)
    ensures Safe(NoiseWriteStep(s, n, cfg), cfg)
       <==> (!landed || next & Mask(cfg.bits) == s.last[idx] & Mask(cfg.bits))
  {
    var s' := NoiseWriteStep(s, n, cfg);
    WriteCells(s, idx, next, cfg);
    if landed {
      assert idx in s'.reset && Cells(s', cfg)[idx] == next & Mask(cfg.bits);
    }
  }

  // ---- all runs --------------------------------------------------------------------------------

  lemma ListStays(s: State, e: Event, cfg: Config)
    requires Fits(cfg.size, cfg.bits) && cfg.id in s.db.lists
    ensures cfg.id in Step(s, e, cfg).db.lists
  {
  }

  function Run(es: seq<Event>, cfg: Config): (s: State)
    requires Fits(cfg.size, cfg.bits)
    ensures cfg.id in s.db.lists
  {
    if es == [] then Start(cfg) else
      var s := Run(es[..|es| - 1], cfg);
      ListStays(s, es[|es| - 1], cfg);
      Step(s, es[|es| - 1], cfg)
  }

  lemma {:induction false} RunKeepsInv(es: seq<Event>, cfg: Config)
    requires ConfigOk(cfg)
    ensures Inv(Run(es, cfg), cfg)
  {
    if es == [] {
      StartOk(cfg);
    } else {
      RunKeepsInv(es[..|es| - 1], cfg);
      StepKeepsInv(Run(es[..|es| - 1], cfg), es[|es| - 1], cfg);
    }
  }

  /** The event is a decoy write whose index was reset between its check and now. */
  predicate Raced(s: State, e: Event) {
    e.NoiseWrite? && e.n in s.noisers && s.noisers[e.n].phase.Cleared? && s.noisers[e.n].phase.landed
  }

  ghost predicate NoRace(es: seq<Event>, cfg: Config)
    requires Fits(cfg.size, cfg.bits)
  {
    forall i :: 0 <= i < |es| ==> !Raced(Run(es[..i], cfg), es[i])
  }

  lemma UnracedKeepsSafe(s: State, e: Event, cfg: Config)
    requires ConfigOk(cfg) && Inv(s, cfg) && Safe(s, cfg) && !Raced(s, e)
    ensures Safe(Step(s, e, cfg), cfg)
  {
    if !e.NoiseWrite? {
      OthersKeepSafe(s, e, cfg);
    } else if e.n in s.noisers && s.noisers[e.n].phase.Cleared? {
      var c := s.noisers[e.n].phase;
      DecoyWriteExact(s, e.n, c.idx, c.next, c.landed, cfg);
    }
  }

  /** In every run in which no reset of an index lands between a decoy's check and its write there,
      every index whose reset has landed shows its last real write. */
  lemma {:induction false} SafeWithoutRace(es: seq<Event>, cfg: Config)
    requires ConfigOk(cfg) && NoRace(es, cfg)
    ensures Safe(Run(es, cfg), cfg)
  {
    if es == [] {
      StartOk(cfg);
    } else {
      var front := es[..|es| - 1];
      forall i | 0 <= i < |front| ensures !Raced(Run(front[..i], cfg), front[i]) {
        assert front[..i] == es[..i];
        assert !Raced(Run(es[..i], cfg), es[i]);
      }
      SafeWithoutRace(front, cfg);
      RunKeepsInv(front, cfg);
      UnracedKeepsSafe(Run(front, cfg), es[|es| - 1], cfg);
    }
  }

  /** For widths of two bits or more: in such a run every acknowledged index shows exactly its
      owner's last write, or VALID if there is none since the reset. */
  lemma AcknowledgedShowsLastWrite(es: seq<Event>, cfg: Config, r: nat)
    requires ConfigOk(cfg) && NoRace(es, cfg) && cfg.bits >= 2
    requires r in Run(es, cfg).allocs && Run(es, cfg).allocs[r].Acked?
    ensures var s := Run(es, cfg); var idx := s.allocs[r].idx;
      idx < cfg.size && idx in s.last && Cells(s, cfg)[idx] == s.last[idx]
  {
    RunKeepsInv(es, cfg);
    SafeWithoutRace(es, cfg);
    NamedFits(Run(es, cfg).last[Run(es, cfg).allocs[r].idx], cfg.bits);
  }

  // ---- where statuses come from ------------------------------------------------------------------

  /** The states of a run, one after the other. */
  ghost predicate IsTrace(t: seq<State>, es: seq<Event>, cfg: Config)
    requires Fits(cfg.size, cfg.bits)
  {
    && |t| == |es| + 1 && t[0] == Start(cfg)
    && forall k :: 0 <= k < |es| ==> cfg.id in t[k].db.lists && t[k + 1] == Step(t[k], es[k], cfg)
  }

  lemma {:induction false} TraceIsRun(t: seq<State>, es: seq<Event>, cfg: Config, k: nat)
    requires Fits(cfg.size, cfg.bits) && IsTrace(t, es, cfg) && k <= |es|
    ensures t[k] == Run(es[..k], cfg)
  {
    if k > 0 {
      TraceIsRun(t, es, cfg, k - 1);
      assert es[..k - 1] + [es[k - 1]] == es[..k];
      RunSnoc(es[..k - 1], es[k - 1], cfg);
      assert t[k - 1 + 1] == Step(t[k - 1], es[k - 1], cfg);
    }
  }

  /** The event puts this value at index i for real: a reset of an index reserved and not yet reset, or the
      write of an owner who was let through with it. */
  predicate PutsReal(s: State, e: Event, i: nat, v: bv8) {
    || (e.ResetToValid? && e.req in s.allocs && s.allocs[e.req] == Reserved(i) && v == VALID)
    || (e.OwnerWrite? && e.q in s.owners && s.owners[e.q] == MayWrite(i, v))
  }

  ghost predicate PutsNothing(s: State, e: Event, i: nat) {
    forall v :: !PutsReal(s, e, i, v)
  }

  lemma LastStep(s: State, e: Event, cfg: Config, i: nat)
    requires ConfigOk(cfg) && cfg.id in s.db.lists && i in Step(s, e, cfg).last && i < cfg.size
    ensures var v := Step(s, e, cfg).last[i];
      PutsReal(s, e, i, v) || (i in s.last && v == s.last[i] && PutsNothing(s, e, i))
  {
    if !IsWrite(e) || e.NoiseWrite? {
      assert Step(s, e, cfg).last == s.last;
    }
  }

  /** The recorded last write of an index is the last real one of the run. */
  lemma {:induction false} LastIsReal(t: seq<State>, es: seq<Event>, cfg: Config, k: nat, i: nat) returns (m: nat)
    requires ConfigOk(cfg) && IsTrace(t, es, cfg) && k <= |es| && i in t[k].last && i < cfg.size
    ensures m < k && PutsReal(t[m], es[m], i, t[k].last[i])
    ensures forall j :: m < j < k ==> PutsNothing(t[j], es[j], i)
  {
    assert t[k - 1 + 1] == Step(t[k - 1], es[k - 1], cfg);
    LastStep(t[k - 1], es[k - 1], cfg, i);
    m := k - 1;
    if !PutsReal(t[m], es[m], i, t[k].last[i]) {
      m := LastIsReal(t, es, cfg, k - 1, i);
    }
  }

  /** Event e let request q through: it asks for v at index i, whose row is that issuer's. */
  predicate Checks(s: State, e: Event, cfg: Config, q: nat, i: nat, v: bv8) {
    && e.CheckOwner? && e.q == q && e.idx == i && e.value == v
    && (cfg.id, i) in s.db.allocations && s.db.allocations[(cfg.id, i)].issuer == e.issuer
  }

  /** Event e found the list not archived for request q. */
  predicate Passes(s: State, e: Event, cfg: Config, q: nat) {
    e == CheckState(q) && cfg.id in s.db.lists && Row(s, cfg).state != ARCHIVED
  }

  lemma OwnerStep(s: State, e: Event, cfg: Config, q: nat)
    requires Fits(cfg.size, cfg.bits) && cfg.id in s.db.lists && q in Step(s, e, cfg).owners
    ensures var u := Step(s, e, cfg).owners[q];
      if q in s.owners
      then u.idx == s.owners[q].idx && u.value == s.owners[q].value
           && (u.MayWrite? ==> s.owners[q].MayWrite? || Passes(s, e, cfg, q))
      else u.Owned? && Checks(s, e, cfg, q, u.idx, u.value)
  {
  }

  lemma {:induction false} OwnerChecked(t: seq<State>, es: seq<Event>, cfg: Config, k: nat, q: nat)
    returns (j: nat, g: nat)
    requires Fits(cfg.size, cfg.bits) && IsTrace(t, es, cfg) && k <= |es| && q in t[k].owners
    ensures j < k && Checks(t[j], es[j], cfg, q, t[k].owners[q].idx, t[k].owners[q].value)
    ensures t[k].owners[q].MayWrite? ==> j < g < k && Passes(t[g], es[g], cfg, q)
  {
    var s, e := t[k - 1], es[k - 1];
    assert t[k - 1 + 1] == Step(s, e, cfg);
    OwnerStep(s, e, cfg, q);
    j, g := k - 1, k - 1;
    if q in s.owners {
      j, g := OwnerChecked(t, es, cfg, k - 1, q);
      g := if Passes(s, e, cfg, q) then k - 1 else g;
    }
  }

  /** So an index shows, in a run without the race, what its own history says: VALID if the last real write
      to it (event m) is its reset, otherwise the value that the issuer of its row asked for in a
      request (event j) that found the list not archived (event g). */
  lemma ShowsWhatOwnerAsked(t: seq<State>, es: seq<Event>, cfg: Config, r: nat) returns (m: nat, j: nat, g: nat)
    requires ConfigOk(cfg) && IsTrace(t, es, cfg) && NoRace(es, cfg) && cfg.bits >= 2
    requires r in t[|es|].allocs && t[|es|].allocs[r].Acked?
    ensures var i := t[|es|].allocs[r].idx; var shown := Cells(t[|es|], cfg);
      && m < |es| && (forall x :: m < x < |es| ==> PutsNothing(t[x], es[x], i))
      && i < cfg.size && PutsReal(t[m], es[m], i, shown[i])
      && if es[m].OwnerWrite?
         then j < g < m && Checks(t[j], es[j], cfg, es[m].q, i, shown[i]) && Passes(t[g], es[g], cfg, es[m].q)
         else shown[i] == VALID
  {
    assert es[..|es|] == es;
    TraceIsRun(t, es, cfg, |es|);
    AcknowledgedShowsLastWrite(es, cfg, r);
    m := LastIsReal(t, es, cfg, |es|, t[|es|].allocs[r].idx);
    j, g := 0, 0;
    if es[m].OwnerWrite? {
      j, g := OwnerChecked(t, es, cfg, m, es[m].q);
    }
  }

  lemma NamedFits(v: bv8, bits: int)
    requires ValidBitWidth(bits) && bits >= 2 && v <= SUSPENDED
    ensures v & Mask(bits) == v
  {
  }

  lemma UnallocatedTail(s: State, n: nat, cfg: Config)
    requires ConfigOk(cfg) && Inv(s, cfg) && n in s.noisers
    requires s.noisers[n].phase.Candidate? || s.noisers[n].phase.Cleared?
    requires s.noisers[n].state != ACTIVE
    ensures !IsAllocated(s.db, cfg.id, s.noisers[n].phase.idx)
  {
    var noise, lm := s.noisers[n], Row(s, cfg);
    assert NoiseOk(s, noise, cfg);
    HandedBelow(cfg.ix, lm, lm.cursor, noise.phase.pos);
    assert noise.phase.idx in Rows(s.db, cfg.id) <==> IsAllocated(s.db, cfg.id, noise.phase.idx);
  }

  /** For a list its pass read as FROZEN or ARCHIVED, no interleaving lets a noiser touch an
      allocated index: whatever it is about to write has no row. */
  lemma FrozenNeverTouched(es: seq<Event>, cfg: Config, n: nat)
    requires ConfigOk(cfg) && n in Run(es, cfg).noisers && Run(es, cfg).noisers[n].state != ACTIVE
    requires Run(es, cfg).noisers[n].phase.Cleared?
    ensures !IsAllocated(Run(es, cfg).db, cfg.id, Run(es, cfg).noisers[n].phase.idx)
    ensures !Raced(Run(es, cfg), NoiseWrite(n))
  {
    RunKeepsInv(es, cfg);
    UnallocatedTail(Run(es, cfg), n, cfg);
    assert NoiseOk(Run(es, cfg), Run(es, cfg).noisers[n], cfg);
  }

  /** A step of a noiser keeps what it has read, or is one of the two reads. */
  lemma NoiserReads(s: State, e: Event, cfg: Config, n: nat)
    requires Fits(cfg.size, cfg.bits) && cfg.id in s.db.lists && n in Step(s, e, cfg).noisers
    ensures var now := Step(s, e, cfg).noisers[n];
      if n !in s.noisers
      then e == NoiseList(n) && now == Noise(Row(s, cfg).cursor, Row(s, cfg).state, Listed)
      else
        && now.cursor == s.noisers[n].cursor && now.state == s.noisers[n].state
        && (if s.noisers[n].phase.Listed?
            then now == s.noisers[n] || (e == NoiseSnapshot(n) && now.phase == Picking(Cells(s, cfg)))
            else !now.phase.Listed? && now.phase.snapshot == s.noisers[n].phase.snapshot)
  {
  }

  /** In every run what a noiser works from is what the store showed at its two reads: the cursor and state
      of the list's row (event j), then the statuses of the bitmap (event g). */
  lemma {:induction false} NoiserHasRead(t: seq<State>, es: seq<Event>, cfg: Config, k: nat, n: nat)
    returns (j: nat, g: nat)
    requires Fits(cfg.size, cfg.bits) && IsTrace(t, es, cfg) && k <= |es| && n in t[k].noisers
    ensures j < k && es[j] == NoiseList(n) && t[k].noisers[n].cursor == Row(t[j], cfg).cursor
    ensures t[k].noisers[n].state == Row(t[j], cfg).state
    ensures !t[k].noisers[n].phase.Listed? ==>
      j < g < k && es[g] == NoiseSnapshot(n) && t[k].noisers[n].phase.snapshot == Cells(t[g], cfg)
  {
    var s := t[k - 1];
    assert t[k - 1 + 1] == Step(s, es[k - 1], cfg);
    NoiserReads(s, es[k - 1], cfg, n);
    j, g := k - 1, k - 1;
    if n in s.noisers {
      j, g := NoiserHasRead(t, es, cfg, k - 1, n);
      g := if s.noisers[n].phase.Listed? then k - 1 else g;
    }
  }

  /** Which positions a pass may choose: every one from the cursor it read up to the size, if its index
      converges and the flip of the status it saw there is one. */
  lemma PickExact(s: State, n: nat, pos: nat, coin: bool, cfg: Config)
    requires Fits(cfg.size, cfg.bits) && cfg.id in s.db.lists && n in s.noisers && s.noisers[n].phase.Picking?
    requires |s.noisers[n].phase.snapshot| == cfg.size
    ensures var s', idx := Step(s, NoisePick(n, pos, coin), cfg), cfg.ix(cfg.key, cfg.size)(pos);
      var snapshot := s.noisers[n].phase.snapshot;
      && n in s'.noisers
      && (s'.noisers[n].phase.Candidate? <==>
          && s.noisers[n].cursor <= pos < cfg.size && idx.Ok? && idx.value < cfg.size
          && (snapshot[idx.value] == 0 || (snapshot[idx.value] == 2 && coin)))
      && (s'.noisers[n].phase.Candidate? ==>
          s'.noisers[n].phase.idx == idx.value && s'.noisers[n].phase.pos == pos
          && s'.noisers[n].phase.next == if snapshot[idx.value] == 2 then 0 else if coin then 1 else 2)
  {
  }

  // ---- the residual race -----------------------------------------------------------------------

  /** On an ACTIVE list the race is real: on any list whose first cursor converges, seven steps without
      any owner's write leave an acknowledged index INVALID. */
  lemma RaceCorrupts(cfg: Config) returns (es: seq<Event>)
    requires ConfigOk(cfg) && cfg.ix(cfg.key, cfg.size)(0).Ok?
    ensures forall i :: 0 <= i < |es| ==> !es[i].OwnerWrite?
    ensures var s, idx := Run(es, cfg), cfg.ix(cfg.key, cfg.size)(0).value;
      && 0 in s.allocs && s.allocs[0] == Acked(idx) && idx < cfg.size && Cells(s, cfg)[idx] == INVALID
      && !Safe(s, cfg)
  {
    var idx := cfg.ix(cfg.key, cfg.size)(0).value;
    var front, s := RaceSetup(cfg);
    es := front + [NoiseWrite(0)];
    RunSnoc(front, NoiseWrite(0), cfg);
    RunKeepsInv(front, cfg);
    SafeWithoutRace(front, cfg);
    DecoyHarms(s, 0, idx, cfg);
  }

  lemma DecoyHarms(s: State, n: nat, idx: nat, cfg: Config)
    requires ConfigOk(cfg) && Inv(s, cfg) && Safe(s, cfg) && About(s, n, idx, INVALID, true)
    requires idx < cfg.size && idx in s.last && s.last[idx] == VALID
    ensures var s' := Step(s, NoiseWrite(n), cfg);
      s'.allocs == s.allocs && Cells(s', cfg)[idx] == INVALID && !Safe(s', cfg)
  {
    InvalidShows(cfg.bits);
    DecoyWriteExact(s, n, idx, INVALID, true, cfg);
    DecoyShows(s, n, idx, cfg);
  }

  lemma DecoyShows(s: State, n: nat, idx: nat, cfg: Config)
    requires ConfigOk(cfg) && cfg.id in s.db.lists && About(s, n, idx, INVALID, true) && idx < cfg.size
    ensures var s' := Step(s, NoiseWrite(n), cfg); s'.allocs == s.allocs && Cells(s', cfg)[idx] == INVALID
  {
    WriteCells(s, idx, INVALID, cfg);
    InvalidShows(cfg.bits);
  }

  lemma InvalidShows(bits: int)
    requires ValidBitWidth(bits)
    ensures INVALID & Mask(bits) == INVALID && VALID & Mask(bits) == VALID
  {
  }

  lemma RaceSetup(cfg: Config) returns (es: seq<Event>, s: State)
    requires ConfigOk(cfg) && cfg.ix(cfg.key, cfg.size)(0).Ok?
    ensures s == Run(es, cfg) && NoRace(es, cfg) && NoStatusWrites(es)
    ensures Landed(s, cfg.ix(cfg.key, cfg.size)(0).value, cfg)
  {
    var e1, s1 := NoiserReady(cfg);
    es := RunTwoMore(e1, s1, cfg);
    s := Run(es, cfg);
    NoDecoyNoRace(es, cfg);
  }

  ghost predicate NoStatusWrites(es: seq<Event>) {
    forall i :: 0 <= i < |es| ==> !es[i].NoiseWrite? && !es[i].OwnerWrite?
  }

  /** A noiser is about to write INVALID at an index whose reset has landed since its check. */
  ghost predicate Landed(s: State, idx: nat, cfg: Config) {
    && About(s, 0, idx, INVALID, true) && idx in s.last && s.last[idx] == VALID && idx < cfg.size
    && 0 in s.allocs && s.allocs[0] == Acked(idx)
  }

  lemma RunTwoMore(es: seq<Event>, s: State, cfg: Config) returns (es': seq<Event>)
    requires ConfigOk(cfg) && cfg.ix(cfg.key, cfg.size)(0).Ok? && s == Run(es, cfg) == Start(cfg).(noisers := s.noisers)
    requires About(s, 0, cfg.ix(cfg.key, cfg.size)(0).value, INVALID, false) && NoStatusWrites(es)
    ensures NoStatusWrites(es')
    ensures Landed(Run(es', cfg), cfg.ix(cfg.key, cfg.size)(0).value, cfg)
  {
    var e1 := es + [ReserveNext(0, "", 0)];
    es' := e1 + [ResetToValid(0)];
    RunSnoc(es, ReserveNext(0, "", 0), cfg);
    RunSnoc(e1, ResetToValid(0), cfg);
    ResetLands(s, Run(e1, cfg), cfg);
  }

  lemma NoDecoyNoRace(es: seq<Event>, cfg: Config)
    requires Fits(cfg.size, cfg.bits) && NoStatusWrites(es)
    ensures NoRace(es, cfg)
  {
  }

  /** The reservation of cursor 0 and its reset, after a noiser has cleared that index. */
  lemma ResetLands(s: State, s': State, cfg: Config)
    requires ConfigOk(cfg) && cfg.ix(cfg.key, cfg.size)(0).Ok? && s == Start(cfg).(noisers := s.noisers)
    requires About(s, 0, cfg.ix(cfg.key, cfg.size)(0).value, INVALID, false)
    requires s' == Step(s, ReserveNext(0, "", 0), cfg) && cfg.id in s'.db.lists
    ensures Landed(Step(s', ResetToValid(0), cfg), cfg.ix(cfg.key, cfg.size)(0).value, cfg)
  {
    var idx := cfg.ix(cfg.key, cfg.size)(0).value;
    assert idx < cfg.size;
    assert s'.allocs == map[0 := Reserved(idx)] && s'.noisers == s.noisers;
  }

  lemma RunSnoc(es: seq<Event>, e: Event, cfg: Config)
    requires Fits(cfg.size, cfg.bits)
    ensures Run(es + [e], cfg) == Step(Run(es, cfg), e, cfg)
  {
    assert (es + [e])[..|es|] == es;
  }

  /** A noiser of a fresh list that has cleared the index of cursor 0. */
  lemma NoiserReady(cfg: Config) returns (es: seq<Event>, s: State)
    requires ConfigOk(cfg) && cfg.ix(cfg.key, cfg.size)(0).Ok?
    ensures s == Run(es, cfg) && NoStatusWrites(es)
    ensures s == Start(cfg).(noisers := s.noisers)
    ensures About(s, 0, cfg.ix(cfg.key, cfg.size)(0).value, INVALID, false)
  {
    var e1, e2 := [NoiseList(0)], [NoiseList(0), NoiseSnapshot(0)];
    var e3 := e2 + [NoisePick(0, 0, true)];
    assert [] + [NoiseList(0)] == e1 && e1 + [NoiseSnapshot(0)] == e2;
    RunSnoc([], NoiseList(0), cfg);
    RunSnoc(e1, NoiseSnapshot(0), cfg);
    RunSnoc(e2, NoisePick(0, 0, true), cfg);
    RunSnoc(e3, NoiseCheck(0), cfg);
    var s1 := Start(cfg).(noisers := map[0 := Noise(0, ACTIVE, Listed)]);
    assert Run(e1, cfg) == s1;
    FirstPick(s1, cfg);
    es := e3 + [NoiseCheck(0)];
    s := Run(es, cfg);
  }

  lemma FirstPick(s: State, cfg: Config)
    requires ConfigOk(cfg) && cfg.ix(cfg.key, cfg.size)(0).Ok?
    requires s == Start(cfg).(noisers := map[0 := Noise(0, ACTIVE, Listed)])
    ensures var s2 := Step(s, NoiseSnapshot(0), cfg);
      var s3 := Step(s2, NoisePick(0, 0, true), cfg);
      var s4 := Step(s3, NoiseCheck(0), cfg);
      s4 == Start(cfg).(noisers := s4.noisers) && About(s4, 0, cfg.ix(cfg.key, cfg.size)(0).value, INVALID, false)
  {
    ZerosDecode(cfg.size, cfg.bits);
    var idx := cfg.ix(cfg.key, cfg.size)(0).value;
    assert idx < cfg.size;
    assert Cells(s, cfg)[idx] == VALID;
  }
}
