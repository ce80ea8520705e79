/** Any number of status writers and publisher processes on one list, interleaved step by step.
    A writer writes its byte, then increments the version, and only then is acknowledged; a
    publisher reads the version, then its cache, then the bytes, then stores into its cache.
    An event that is not enabled leaves the state as it is. */
module Publishing {
  import opened Prelude
  import opened StatusList
  import opened BitmapStore

  type CallId = nat
  type Process = nat

  datatype List = List(size: nat, bits: int)

  datatype Update = Update(idx: nat, value: bv8)

  /** A cached token: its version label, lifetime and bytes. The rest is history: how many byte
      writes had happened when the bytes were read, and how many purges when its call began. */
  datatype Published = Published(version: nat, ttl: int, bytes: seq<bv8>, seen: nat, epoch: nat)

  datatype Phase =
    | Begun
    | GotVersion(version: nat)
    | Missed(version: nat)
    | GotBytes(built: Published)
    | Returned(token: Published, hit: bool)

  /** A running publish call; `acked` and `epoch` are history: the writes acknowledged, and the number
      of purges, when it began. */
  datatype Call = Call(process: Process, ttl: int, acked: set<nat>, epoch: nat, phase: Phase)

  /** The Redis keys of the list; the byte writes so far, in order, and the version number each
      increment returned to its writer; the caches and the calls. A write without a number is in
      flight, or its writer crashed. `purges` counts the purges, `base` the writes before the last. */
  datatype State = State(
    bitmap: RedisString, version: nat,
    writes: seq<Update>, numbers: map<nat, nat>,
    caches: map<Process, Published>, calls: map<CallId, Call>,
    purges: nat, base: nat)

  datatype Event =
    | InitBitmap
    | WriteByte(idx: nat, value: bv8)
    | Increment(write: nat)
    | Begin(call: CallId, process: Process, ttl: int)
    | ReadVersion(call: CallId)
    | ReadCache(call: CallId)
    | ReadBytes(call: CallId)
    | Store(call: CallId)
    | PurgeKeys

  const START: State := State(None, 0, [], map[], map[], map[], 0, 0)

  function SetPhase(s: State, c: CallId, phase: Phase): map<CallId, Call>
    requires c in s.calls
  {
    s.calls[c := s.calls[c].(phase := phase)]
  }

  /** The cache test of `PublishIfStale`. */
  predicate Hit(s: State, call: Call, version: nat) {
    && call.process in s.caches
    && s.caches[call.process].version == version && s.caches[call.process].ttl == call.ttl
  }

  function Step(s: State, e: Event, l: List): State
    requires Fits(l.size, l.bits)
  {
    match e
    case InitBitmap => s.(bitmap := InitString(s.bitmap, ByteLen(l.size, l.bits)))
    case WriteByte(idx, value) =>
      if idx >= l.size then s
      else s.(bitmap := WriteEntry(s.bitmap, idx, l.size, l.bits, value), writes := s.writes + [Update(idx, value)])
    case Increment(w) =>
      if w >= |s.writes| || w in s.numbers then s
      else s.(version := s.version + 1, numbers := s.numbers[w := s.version + 1])
    case Begin(c, process, ttl) =>
      if c in s.calls then s else s.(calls := s.calls[c := Call(process, ttl, s.numbers.Keys, s.purges, Begun)])
    case ReadVersion(c) =>
      if !(c in s.calls && s.calls[c].phase.Begun?) then s
      else s.(calls := SetPhase(s, c, GotVersion(s.version)))
    case ReadCache(c) =>
      if !(c in s.calls && s.calls[c].phase.GotVersion?) then s else
        var call := s.calls[c];
        if Hit(s, call, call.phase.version)
        then s.(calls := SetPhase(s, c, Returned(s.caches[call.process], true)))
        else s.(calls := SetPhase(s, c, Missed(call.phase.version)))
    case ReadBytes(c) =>
      if !(c in s.calls && s.calls[c].phase.Missed?) then s else
        var call := s.calls[c];
        var bytes := Padded(s.bitmap, ByteLen(l.size, l.bits));
        s.(calls := SetPhase(s, c, GotBytes(Published(call.phase.version, call.ttl, bytes, |s.writes|, call.epoch))))
    case Store(c) =>
      if !(c in s.calls && s.calls[c].phase.GotBytes?) then s else
        var built := s.calls[c].phase.built;
        s.(caches := s.caches[s.calls[c].process := built], calls := SetPhase(s, c, Returned(built, false)))
    case PurgeKeys => s.(bitmap := None, version := 0, purges := s.purges + 1, base := |s.writes|)
  }

  function Run(es: seq<Event>, l: List): State
    requires Fits(l.size, l.bits)
  {
    if es == [] then START else Step(Run(es[..|es| - 1], l), es[|es| - 1], l)
  }

  ghost predicate NoPurge(es: seq<Event>) {
    forall i :: 0 <= i < |es| ==> es[i] != PurgeKeys
  }

  ghost predicate NoPurgeBetween(es: seq<Event>, i: nat, k: nat)
    requires k <= |es|
  {
    forall j :: i <= j < k ==> es[j] != PurgeKeys
  }

  // ---- the bytes a log of writes stands for ------------------------------------------------

  ghost predicate InList(writes: seq<Update>, l: List) {
    forall i :: 0 <= i < |writes| ==> writes[i].idx < l.size
  }

  /** A zero-filled list after these writes. */
  function Bytes(writes: seq<Update>, l: List): (bytes: seq<bv8>)
    requires Fits(l.size, l.bits) && forall i :: 0 <= i < |writes| ==> writes[i].idx < l.size
    ensures |bytes| == ByteLen(l.size, l.bits)
  {
    if writes == [] then Zeros(ByteLen(l.size, l.bits)) else
      var w := writes[|writes| - 1];
      SetEntry(Bytes(writes[..|writes| - 1], l), w.idx, l.size, l.bits, w.value & Mask(l.bits))
  }

  /** The position of the last of the first n writes to an entry. */
  function LastWrite(writes: seq<Update>, n: nat, idx: nat): (q: Option<nat>)
    requires n <= |writes|
    ensures q.Some? ==> q.value < n
  {
    if n == 0 then None else if writes[n - 1].idx == idx then Some(n - 1) else LastWrite(writes, n - 1, idx)
  }

  /** The status those writes leave at an entry. */
  function StatusAfter(writes: seq<Update>, n: nat, idx: nat, l: List): bv8
    requires ValidBitWidth(l.bits) && n <= |writes|
  {
    match LastWrite(writes, n, idx) case None => VALID case Some(q) => writes[q].value & Mask(l.bits)
  }

  lemma DecodeSet(bytes: seq<bv8>, idx: nat, value: bv8, l: List)
    requires Fits(l.size, l.bits) && |bytes| == ByteLen(l.size, l.bits) && idx < l.size
    ensures Decode(SetEntry(bytes, idx, l.size, l.bits, value & Mask(l.bits)), l.size, l.bits)
         == Decode(bytes, l.size, l.bits)[idx := value & Mask(l.bits)]
  {
    MaskedFits(value, Mask(l.bits));
    SetEntryRefines(bytes, idx, l.size, l.bits, value & Mask(l.bits));
  }

  lemma DecodeOneMore(writes: seq<Update>, n: nat, l: List)
    requires Fits(l.size, l.bits) && InList(writes, l) && n < |writes|
    ensures Decode(Bytes(writes[..n + 1], l), l.size, l.bits)
         == Decode(Bytes(writes[..n], l), l.size, l.bits)[writes[n].idx := writes[n].value & Mask(l.bits)]
  {
    BytesExtend(writes[..n], writes[n], 0, l);
    assert writes[..n] + [writes[n]] == writes[..n + 1];
    DecodeSet(Bytes(writes[..n], l), writes[n].idx, writes[n].value, l);
  }

  /** The status an entry decodes to is that of its last write, or VALID. */
  lemma {:induction false} DecodeIsLastWrite(writes: seq<Update>, n: nat, idx: nat, l: List)
    requires Fits(l.size, l.bits) && InList(writes, l) && n <= |writes| && idx < l.size
    ensures Decode(Bytes(writes[..n], l), l.size, l.bits)[idx] == StatusAfter(writes, n, idx, l)
  {
    if n == 0 {
      ZerosDecode(l.size, l.bits);
    } else {
      DecodeOneMore(writes, n - 1, l);
      DecodeIsLastWrite(writes, n - 1, idx, l);
    }
  }

  lemma {:induction false} LastWriteBounds(writes: seq<Update>, n: nat, w: nat)
    requires w < n <= |writes|
    ensures var q := LastWrite(writes, n, writes[w].idx);
      && q.Some? && w <= q.value < n && writes[q.value].idx == writes[w].idx
      && forall j :: q.value < j < n ==> writes[j].idx != writes[w].idx
  {
    if writes[n - 1].idx != writes[w].idx {
      LastWriteBounds(writes, n - 1, w);
    }
  }

  // ---- the invariant -------------------------------------------------------------------------

  /** A token labelled v was read after every write since the last purge whose increment is numbered v
      or lower. */
  ghost predicate GoodToken(s: State, t: Published, l: List)
    requires Fits(l.size, l.bits) && InList(s.writes, l)
  {
    && t.version <= s.version && s.base <= t.seen <= |s.writes|
    && t.bytes == Bytes(s.writes[s.base..t.seen], l)
    && forall w :: w in s.numbers && s.base <= w && s.numbers[w] <= t.version ==> w < t.seen
  }

  /** A token of the current epoch is good; of older ones nothing is known. */
  ghost predicate TokenOk(s: State, t: Published, l: List)
    requires Fits(l.size, l.bits) && InList(s.writes, l)
  {
    t.epoch <= s.purges && (t.epoch == s.purges ==> GoodToken(s, t, l))
  }

  /** Every write since the last purge acknowledged before the call began is numbered at most v. */
  ghost predicate Covers(s: State, call: Call, v: nat) {
    forall w :: w in call.acked && s.base <= w ==> w in s.numbers && s.numbers[w] <= v
  }

  /** What the phase of a call of the current epoch says. */
  ghost predicate PhaseOk(s: State, call: Call) {
    match call.phase
    case Begun => Covers(s, call, s.version)
    case GotVersion(v) => v <= s.version && Covers(s, call, v)
    case Missed(v) => v <= s.version && Covers(s, call, v)
    case GotBytes(t) => Covers(s, call, t.version)
    case Returned(t, _) => Covers(s, call, t.version)
  }

  ghost predicate CallOk(s: State, call: Call, l: List)
    requires Fits(l.size, l.bits) && InList(s.writes, l)
  {
    && call.epoch <= s.purges && (call.epoch == s.purges ==> PhaseOk(s, call))
    && (call.phase.GotBytes? ==> call.phase.built.epoch == call.epoch && TokenOk(s, call.phase.built, l))
    && (call.phase.Returned? ==> TokenOk(s, call.phase.token, l))
    && (call.phase.Returned? && !call.phase.hit ==> call.phase.token.epoch == call.epoch)
  }

  /** The keys hold the bytes of all writes since the last purge, and increments number writes that
      happened. */
  ghost predicate KeysOk(s: State, l: List)
    requires Fits(l.size, l.bits)
  {
    && InList(s.writes, l) && s.base <= |s.writes|
    && Padded(s.bitmap, ByteLen(l.size, l.bits)) == Bytes(s.writes[s.base..], l)
    && (forall w :: w in s.numbers ==> w < |s.writes|)
    && (forall w :: w in s.numbers && s.base <= w ==> s.numbers[w] <= s.version)
  }

  ghost predicate CachesOk(s: State, l: List)
    requires Fits(l.size, l.bits) && InList(s.writes, l)
  {
    forall p :: p in s.caches ==> TokenOk(s, s.caches[p], l)
  }

  ghost predicate CallsOk(s: State, l: List)
    requires Fits(l.size, l.bits) && InList(s.writes, l)
  {
    forall c :: c in s.calls ==> CallOk(s, s.calls[c], l)
  }

  /** What every step of every run keeps, purges included. */
  ghost predicate Inv(s: State, l: List)
    requires Fits(l.size, l.bits)
  {
    KeysOk(s, l) && CachesOk(s, l) && CallsOk(s, l)
  }

  lemma BytesExtend(writes: seq<Update>, u: Update, n: nat, l: List)
    requires Fits(l.size, l.bits) && InList(writes, l) && u.idx < l.size && n <= |writes|
    ensures (writes + [u])[..n] == writes[..n]
    ensures Bytes(writes + [u], l) == SetEntry(Bytes(writes, l), u.idx, l.size, l.bits, u.value & Mask(l.bits))
  {
    assert (writes + [u])[..|writes|] == writes;
  }

  /** Tokens stay good while writes, numbers and the version only grow. */
  ghost predicate Extends(s: State, s': State) {
    && |s.writes| <= |s'.writes| && s'.writes[..|s.writes|] == s.writes
    && s.version <= s'.version && s'.purges == s.purges && s'.base == s.base
    && (forall w :: w in s.numbers ==> w in s'.numbers && s'.numbers[w] == s.numbers[w])
    && (forall w :: w in s'.numbers && w !in s.numbers ==> s'.numbers[w] > s.version)
  }

  lemma SliceOfPrefix<T>(a: seq<T>, b: seq<T>, i: nat, j: nat)
    requires |a| <= |b| && b[..|a|] == a && i <= j <= |a|
    ensures b[i..j] == a[i..j]
  {
    assert forall k :: i <= k < j ==> b[k] == b[..|a|][k];
  }

  lemma TokenKept(s: State, s': State, t: Published, l: List)
    requires Fits(l.size, l.bits) && InList(s.writes, l) && InList(s'.writes, l)
    requires TokenOk(s, t, l) && Extends(s, s')
    ensures TokenOk(s', t, l)
  {
    if t.epoch == s.purges {
      SliceOfPrefix(s.writes, s'.writes, s.base, t.seen);
    }
  }

  lemma CallKept(s: State, s': State, call: Call, l: List)
    requires Fits(l.size, l.bits) && InList(s.writes, l) && InList(s'.writes, l)
    requires CallOk(s, call, l) && Extends(s, s')
    ensures CallOk(s', call, l)
  {
    if call.phase.GotBytes? {
      TokenKept(s, s', call.phase.built, l);
    } else if call.phase.Returned? {
      TokenKept(s, s', call.phase.token, l);
    }
  }

  lemma StepExtends(s: State, e: Event, l: List)
    requires Fits(l.size, l.bits) && InList(s.writes, l) && e != PurgeKeys
    ensures Extends(s, Step(s, e, l)) && InList(Step(s, e, l).writes, l)
  {
  }

  lemma WriteKeepsBytes(s: State, idx: nat, value: bv8, l: List)
    requires Fits(l.size, l.bits) && KeysOk(s, l) && idx < l.size
    ensures var s' := Step(s, WriteByte(idx, value), l);
      Padded(s'.bitmap, ByteLen(l.size, l.bits)) == Bytes(s'.writes[s'.base..], l)
  {
    WriteEntryPadded(s.bitmap, idx, l.size, l.bits, value);
    BytesExtend(s.writes[s.base..], Update(idx, value), 0, l);
    assert (s.writes + [Update(idx, value)])[s.base..] == s.writes[s.base..] + [Update(idx, value)];
  }

  lemma StepKeepsKeys(s: State, e: Event, l: List)
    requires Fits(l.size, l.bits) && KeysOk(s, l) && e != PurgeKeys
    ensures KeysOk(Step(s, e, l), l)
  {
    StepExtends(s, e, l);
    if e.WriteByte? && e.idx < l.size {
      WriteKeepsBytes(s, e.idx, e.value, l);
    }
  }

  /** The call an event moves ends up in a good phase. */
  lemma MovedCallOk(s: State, e: Event, l: List, c: CallId)
    requires Fits(l.size, l.bits) && KeysOk(s, l) && CachesOk(s, l) && e != PurgeKeys && InList(Step(s, e, l).writes, l)
    requires c in s.calls ==> CallOk(s, s.calls[c], l)
    requires var s' := Step(s, e, l); c in s'.calls && (c in s.calls ==> s'.calls[c] != s.calls[c])
    ensures var s' := Step(s, e, l); CallOk(s', s'.calls[c], l)
  {
    var s' := Step(s, e, l);
    assert s' == s.(calls := s'.calls, caches := s'.caches);
    assert s.writes[s.base..|s.writes|] == s.writes[s.base..];
  }

  lemma StepKeepsCalls(s: State, e: Event, l: List)
    requires Fits(l.size, l.bits) && Inv(s, l) && e != PurgeKeys && InList(Step(s, e, l).writes, l)
    ensures CallsOk(Step(s, e, l), l)
  {
    var s' := Step(s, e, l);
    StepExtends(s, e, l);
    forall c | c in s'.calls ensures CallOk(s', s'.calls[c], l) {
      if c in s.calls && s'.calls[c] == s.calls[c] {
        CallKept(s, s', s.calls[c], l);
      } else {
        MovedCallOk(s, e, l, c);
      }
    }
  }

  /** The event is a store by a call that has its bytes; then what it stores, and where. */
  predicate Storing(s: State, e: Event) {
    e.Store? && e.call in s.calls && s.calls[e.call].phase.GotBytes?
  }

  function Built(s: State, e: Event): Published
    requires Storing(s, e)
  {
    s.calls[e.call].phase.built
  }

  predicate StoresFor(s: State, e: Event, p: Process) {
    Storing(s, e) && s.calls[e.call].process == p
  }

  /** Only a store changes a cache, and it stores what its call had built. */
  lemma CacheChange(s: State, e: Event, l: List, p: Process)
    requires Fits(l.size, l.bits)
    ensures var s' := Step(s, e, l);
      if StoresFor(s, e, p) then p in s'.caches && s'.caches[p] == Built(s, e)
      else (p in s'.caches <==> p in s.caches) && (p in s.caches ==> s'.caches[p] == s.caches[p])
  {
  }

  lemma StepKeepsCaches(s: State, e: Event, l: List)
    requires Fits(l.size, l.bits) && Inv(s, l) && e != PurgeKeys && InList(Step(s, e, l).writes, l)
    ensures CachesOk(Step(s, e, l), l)
  {
    var s' := Step(s, e, l);
    StepExtends(s, e, l);
    forall p | p in s'.caches ensures TokenOk(s', s'.caches[p], l) {
      CacheChange(s, e, l, p);
      assert TokenOk(s, s'.caches[p], l) by {
        if StoresFor(s, e, p) {
          assert CallOk(s, s.calls[e.call], l);
        }
      }
      TokenKept(s, s', s'.caches[p], l);
    }
  }

  /** A purge starts an epoch about which no old token or call says anything. */
  lemma PurgeKeepsInv(s: State, l: List)
    requires Fits(l.size, l.bits) && Inv(s, l)
    ensures Inv(Step(s, PurgeKeys, l), l)
  {
    var s' := Step(s, PurgeKeys, l);
    assert s'.writes[s'.base..] == [];
    forall c | c in s'.calls ensures CallOk(s', s'.calls[c], l) {
      assert CallOk(s, s.calls[c], l);
    }
  }

  lemma StepKeepsInv(s: State, e: Event, l: List)
    requires Fits(l.size, l.bits) && Inv(s, l)
    ensures Inv(Step(s, e, l), l)
  {
    if e == PurgeKeys {
      PurgeKeepsInv(s, l);
    } else {
      StepKeepsKeys(s, e, l);
      StepKeepsCalls(s, e, l);
      StepKeepsCaches(s, e, l);
    }
  }

  lemma {:induction false} RunKeepsInv(es: seq<Event>, l: List)
    requires Fits(l.size, l.bits)
    ensures Inv(Run(es, l), l)
  {
    if es != [] {
      RunKeepsInv(es[..|es| - 1], l);
      StepKeepsInv(Run(es[..|es| - 1], l), es[|es| - 1], l);
    }
  }

  lemma {:induction false} NoPurgeOneEpoch(es: seq<Event>, l: List)
    requires Fits(l.size, l.bits) && NoPurge(es)
    ensures Run(es, l).purges == 0 && Run(es, l).base == 0
  {
    if es != [] {
      NoPurgeOneEpoch(es[..|es| - 1], l);
    }
  }

  // ---- freshness -----------------------------------------------------------------------------

  /** The token shows write w of the log, or a later write to the same entry. */
  ghost predicate Reflects(t: Published, writes: seq<Update>, w: nat, l: List)
    requires Fits(l.size, l.bits) && InList(writes, l) && w < |writes| && |t.bytes| == ByteLen(l.size, l.bits)
  {
    exists q :: w <= q < |writes| && writes[q].idx == writes[w].idx
      && Decode(t.bytes, l.size, l.bits)[writes[w].idx] == writes[q].value & Mask(l.bits)
  }

  lemma SeenIsReflected(s: State, t: Published, w: nat, l: List)
    requires Fits(l.size, l.bits) && InList(s.writes, l) && GoodToken(s, t, l) && s.base <= w < t.seen
    ensures Reflects(t, s.writes, w, l)
  {
    var since, n, x := s.writes[s.base..], t.seen - s.base, w - s.base;
    assert since[..n] == s.writes[s.base..t.seen] && since[x] == s.writes[w];
    var q := ShownWrite(since, n, x, l);
    assert since[q] == s.writes[q + s.base];
    assert w <= q + s.base < |s.writes| && s.writes[q + s.base].idx == s.writes[w].idx;
  }

  /** The write that decides what an entry shows, given one write to it. */
  lemma ShownWrite(writes: seq<Update>, n: nat, x: nat, l: List) returns (q: nat)
    requires Fits(l.size, l.bits) && InList(writes, l) && x < n <= |writes|
    ensures x <= q < n && writes[q].idx == writes[x].idx
    ensures Decode(Bytes(writes[..n], l), l.size, l.bits)[writes[x].idx] == writes[q].value & Mask(l.bits)
  {
    LastWriteBounds(writes, n, x);
    DecodeIsLastWrite(writes, n, writes[x].idx, l);
    q := LastWrite(writes, n, writes[x].idx).value;
  }

  /** What held at an earlier moment s0 still holds at s, and every call begun since is of its epoch and
      knows the writes acknowledged by then. */
  ghost predicate Since(s0: State, s: State) {
    && Extends(s0, s)
    && forall c :: c in s.calls && c !in s0.calls ==>
         s.calls[c].epoch == s0.purges && s0.numbers.Keys <= s.calls[c].acked
  }

  lemma StepKeepsSince(s0: State, s: State, e: Event, l: List)
    requires Fits(l.size, l.bits) && InList(s.writes, l) && e != PurgeKeys && Since(s0, s)
    ensures Since(s0, Step(s, e, l))
  {
    var s' := Step(s, e, l);
    StepExtends(s, e, l);
    assert s'.writes[..|s0.writes|] == s.writes[..|s0.writes|];
  }

  lemma RunStep(es: seq<Event>, l: List, k: nat)
    requires Fits(l.size, l.bits) && k < |es|
    ensures Run(es[..k + 1], l) == Step(Run(es[..k], l), es[k], l)
  {
    assert es[..k + 1][..k] == es[..k];
  }

  /** The states of a run, one after the other. */
  ghost predicate IsTrace(t: seq<State>, es: seq<Event>, l: List)
    requires Fits(l.size, l.bits)
  {
    |t| == |es| + 1 && t[0] == START && forall k :: 0 <= k < |es| ==> t[k + 1] == Step(t[k], es[k], l)
  }

  /** Every run has exactly one trace. */
  lemma TraceOf(es: seq<Event>, l: List) returns (t: seq<State>)
    requires Fits(l.size, l.bits)
    ensures IsTrace(t, es, l) && forall k :: 0 <= k <= |es| ==> t[k] == Run(es[..k], l)
  {
    t := seq(|es| + 1, k requires 0 <= k <= |es| => Run(es[..k], l));
    forall k | 0 <= k < |es| ensures t[k + 1] == Step(t[k], es[k], l) {
      RunStep(es, l, k);
    }
  }

  lemma {:induction false} TraceKeepsInv(t: seq<State>, es: seq<Event>, l: List, k: nat)
    requires Fits(l.size, l.bits) && IsTrace(t, es, l) && k <= |es|
    ensures Inv(t[k], l)
  {
    if k > 0 {
      TraceKeepsInv(t, es, l, k - 1);
      StepKeepsInv(t[k - 1], es[k - 1], l);
      assert t[k - 1 + 1] == Step(t[k - 1], es[k - 1], l);
    }
  }

  lemma {:induction false} TraceSince(t: seq<State>, es: seq<Event>, l: List, i: nat, k: nat)
    requires Fits(l.size, l.bits) && IsTrace(t, es, l) && i <= k <= |es| && NoPurgeBetween(es, i, k)
    ensures Since(t[i], t[k])
  {
    if i < k {
      TraceSince(t, es, l, i, k - 1);
      assert InList(t[k - 1].writes, l) by { TraceKeepsInv(t, es, l, k - 1); }
      StepKeepsSince(t[i], t[k - 1], es[k - 1], l);
      assert t[k - 1 + 1] == Step(t[k - 1], es[k - 1], l);
    }
  }

  lemma RunSince(es: seq<Event>, l: List, i: nat, k: nat)
    requires Fits(l.size, l.bits) && i <= k <= |es| && NoPurgeBetween(es, i, k)
    ensures Since(Run(es[..i], l), Run(es[..k], l))
  {
    var t := TraceOf(es, l);
    TraceSince(t, es, l, i, k);
  }

  /** In every interleaving, purges included: take a write made since the last purge and acknowledged,
      and a publish call that begins later and returns before the next purge. If it rebuilt its token,
      or found one whose building began since that last purge, the token shows the write or a later
      write to the same entry. */
  lemma FreshSincePurge(es: seq<Event>, l: List, i: nat, k: nat, w: nat, c: CallId)
    requires Fits(l.size, l.bits) && i <= k <= |es| && NoPurgeBetween(es, i, k)
    requires w in Run(es[..i], l).numbers && w >= Run(es[..i], l).base && c !in Run(es[..i], l).calls
    requires c in Run(es[..k], l).calls && Run(es[..k], l).calls[c].phase.Returned?
    requires var phase := Run(es[..k], l).calls[c].phase; !phase.hit || phase.token.epoch == Run(es[..k], l).purges
    ensures var s := Run(es[..k], l); var t := s.calls[c].phase.token;
      && InList(s.writes, l) && w < |s.writes| && |t.bytes| == ByteLen(l.size, l.bits)
      && Reflects(t, s.writes, w, l)
  {
    var s := Run(es[..k], l);
    RunKeepsInv(es[..k], l);
    RunSince(es, l, i, k);
    ReturnedReflects(s, l, c, w);
  }

  /** A process with nothing left from before: no cached token and no call still running. */
  predicate Idle(s: State, p: Process) {
    p !in s.caches && forall c :: c in s.calls && s.calls[c].process == p ==> s.calls[c].phase.Returned?
  }

  /** What a process that was idle at s0 holds at s is of the current epoch. */
  ghost predicate Renewed(s0: State, s: State, p: Process) {
    && (p in s.caches ==> s.caches[p].epoch == s.purges)
    && forall c :: c in s.calls && s.calls[c].process == p ==> CallRenewed(s0, s, c)
  }

  ghost predicate CallRenewed(s0: State, s: State, c: CallId)
    requires c in s.calls
  {
    if c in s0.calls then s.calls[c].phase.Returned?
    else s.calls[c].epoch == s.purges && (s.calls[c].phase.Returned? ==> s.calls[c].phase.token.epoch == s.purges)
  }

  lemma CallsGrow(s: State, e: Event, l: List)
    requires Fits(l.size, l.bits)
    ensures s.calls.Keys <= Step(s, e, l).calls.Keys
    ensures forall c :: c in s.calls ==> Step(s, e, l).calls[c].process == s.calls[c].process
  {
  }

  lemma CacheRenewed(s0: State, s: State, e: Event, l: List, p: Process)
    requires Fits(l.size, l.bits) && Inv(s, l) && e != PurgeKeys && Renewed(s0, s, p) && s0.calls.Keys <= s.calls.Keys
    ensures var s' := Step(s, e, l); p in s'.caches ==> s'.caches[p].epoch == s'.purges
  {
    CacheChange(s, e, l, p);
    if StoresFor(s, e, p) {
      assert CallOk(s, s.calls[e.call], l) && CallRenewed(s0, s, e.call);
    }
  }

  lemma StepKeepsRenewed(s0: State, s: State, e: Event, l: List, p: Process)
    requires Fits(l.size, l.bits) && Inv(s, l) && e != PurgeKeys && s0.calls.Keys <= s.calls.Keys && Renewed(s0, s, p)
    ensures s0.calls.Keys <= Step(s, e, l).calls.Keys && Renewed(s0, Step(s, e, l), p)
  {
    var s' := Step(s, e, l);
    CallsGrow(s, e, l);
    CacheRenewed(s0, s, e, l, p);
    forall c | c in s'.calls && s'.calls[c].process == p ensures CallRenewed(s0, s', c) {
      if c in s.calls && s'.calls[c] == s.calls[c] {
        assert CallRenewed(s0, s, c);
      } else {
        MovedCallRenewed(s0, s, e, l, c);
      }
    }
  }

  lemma MovedCallRenewed(s0: State, s: State, e: Event, l: List, c: CallId)
    requires Fits(l.size, l.bits) && e != PurgeKeys && s0.calls.Keys <= s.calls.Keys
    requires var s' := Step(s, e, l); c in s'.calls && (c in s.calls ==> s'.calls[c] != s.calls[c])
    requires c in s.calls ==> CallRenewed(s0, s, c) && InList(s.writes, l) && CallOk(s, s.calls[c], l)
    requires var p := Step(s, e, l).calls[c].process; p in s.caches ==> s.caches[p].epoch == s.purges
    ensures CallRenewed(s0, Step(s, e, l), c)
  {
    assert Step(s, e, l).purges == s.purges;
  }

  lemma {:induction false} TraceRenewed(t: seq<State>, es: seq<Event>, l: List, m: nat, k: nat, p: Process)
    requires Fits(l.size, l.bits) && IsTrace(t, es, l) && m <= k <= |es| && NoPurgeBetween(es, m, k) && Idle(t[m], p)
    ensures t[m].calls.Keys <= t[k].calls.Keys && Renewed(t[m], t[k], p)
  {
    if m < k {
      TraceRenewed(t, es, l, m, k - 1, p);
      TraceKeepsInv(t, es, l, k - 1);
      StepKeepsRenewed(t[m], t[k - 1], es[k - 1], l, p);
      assert t[k - 1 + 1] == Step(t[k - 1], es[k - 1], l);
    }
  }

  lemma RunRenewed(es: seq<Event>, l: List, m: nat, k: nat, p: Process)
    requires Fits(l.size, l.bits) && m <= k <= |es| && NoPurgeBetween(es, m, k) && Idle(Run(es[..m], l), p)
    ensures Run(es[..m], l).calls.Keys <= Run(es[..k], l).calls.Keys && Renewed(Run(es[..m], l), Run(es[..k], l), p)
  {
    var t := TraceOf(es, l);
    TraceRenewed(t, es, l, m, k, p);
  }

  /** The same on hits as on rebuilds, by a condition known before the call: a process that some moment m
      since the last purge found idle, such as one started after the purge. Every call it begins after
      write w was acknowledged shows w or a later write to the same entry. */
  lemma FreshOnceIdle(es: seq<Event>, l: List, m: nat, i: nat, k: nat, w: nat, c: CallId)
    requires Fits(l.size, l.bits) && m <= i <= k <= |es| && NoPurgeBetween(es, m, k)
    requires w in Run(es[..i], l).numbers && w >= Run(es[..i], l).base && c !in Run(es[..i], l).calls
    requires c in Run(es[..k], l).calls && Run(es[..k], l).calls[c].phase.Returned?
    requires Idle(Run(es[..m], l), Run(es[..k], l).calls[c].process)
    ensures var s := Run(es[..k], l); var t := s.calls[c].phase.token;
      && InList(s.writes, l) && w < |s.writes| && |t.bytes| == ByteLen(l.size, l.bits)
      && Reflects(t, s.writes, w, l)
  {
    RunRenewed(es, l, m, k, Run(es[..k], l).calls[c].process);
    RunRenewed(es, l, m, i, Run(es[..k], l).calls[c].process);
    assert CallRenewed(Run(es[..m], l), Run(es[..k], l), c);
    FreshSincePurge(es, l, i, k, w, c);
  }

  /** In every interleaving without a purge: a publish call that begins after write w was
      acknowledged returns, from the cache or from a rebuild, a token that shows w or a later
      write to the same entry. */
  lemma FreshAfterAck(es: seq<Event>, l: List, i: nat, k: nat, w: nat, c: CallId)
    requires Fits(l.size, l.bits) && NoPurge(es) && i <= k <= |es|
    requires w in Run(es[..i], l).numbers && c !in Run(es[..i], l).calls
    requires c in Run(es[..k], l).calls && Run(es[..k], l).calls[c].phase.Returned?
    ensures var s := Run(es[..k], l); var t := s.calls[c].phase.token;
      && InList(s.writes, l) && w < |s.writes| && |t.bytes| == ByteLen(l.size, l.bits)
      && Reflects(t, s.writes, w, l)
  {
    NoPurgeOneEpoch(es[..i], l);
    NoPurgeOneEpoch(es[..k], l);
    assert Run(es[..k], l).calls[c].phase.token.epoch == 0 by {
      RunKeepsInv(es[..k], l);
      assert CallOk(Run(es[..k], l), Run(es[..k], l).calls[c], l);
    }
    FreshSincePurge(es, l, i, k, w, c);
  }

  lemma ReturnedReflects(s: State, l: List, c: CallId, w: nat)
    requires Fits(l.size, l.bits) && Inv(s, l)
    requires c in s.calls && s.calls[c].phase.Returned? && s.calls[c].epoch == s.purges
    requires w in s.calls[c].acked && w >= s.base
    requires !s.calls[c].phase.hit || s.calls[c].phase.token.epoch == s.purges
    ensures w < |s.writes| && |s.calls[c].phase.token.bytes| == ByteLen(l.size, l.bits)
    ensures Reflects(s.calls[c].phase.token, s.writes, w, l)
  {
    assert CallOk(s, s.calls[c], l);
    SeenIsReflected(s, s.calls[c].phase.token, w, l);
  }

  /** On a hit whose version is still the live one, with no write in flight, the cached bytes are
      the live bytes, byte for byte. */
  lemma HitIsLive(es: seq<Event>, l: List, c: CallId)
    requires Fits(l.size, l.bits) && NoPurge(es)
    requires var s := Run(es, l);
      && c in s.calls && s.calls[c].phase == GotVersion(s.version) && Hit(s, s.calls[c], s.version)
      && forall w :: 0 <= w < |s.writes| ==> w in s.numbers
    ensures var s := Run(es, l);
      s.caches[s.calls[c].process].bytes == Padded(s.bitmap, ByteLen(l.size, l.bits))
  {
    var s := Run(es, l);
    RunKeepsInv(es, l);
    NoPurgeOneEpoch(es, l);
    assert TokenOk(s, s.caches[s.calls[c].process], l);
    AllSeen(s, s.caches[s.calls[c].process], l);
  }

  lemma AllSeen(s: State, t: Published, l: List)
    requires Fits(l.size, l.bits) && KeysOk(s, l) && GoodToken(s, t, l) && t.version == s.version
    requires forall w :: s.base <= w < |s.writes| ==> w in s.numbers
    ensures t.bytes == Padded(s.bitmap, ByteLen(l.size, l.bits))
  {
    if s.base < |s.writes| {
      assert |s.writes| - 1 in s.numbers;
    }
    assert s.writes[s.base..|s.writes|] == s.writes[s.base..];
  }

  /** A conditional request answered 304: the version of the client's copy is the returned one. */
  predicate NotModified(token: Published, clientVersion: nat) {
    clientVersion == token.version
  }

  /** A 304 is safe whichever publisher process gave the client its copy: that copy already shows
      every write acknowledged before the request began. */
  lemma NotModifiedIsFresh(es: seq<Event>, l: List, i: nat, k: nat, w: nat, c: CallId, d: CallId)
    requires Fits(l.size, l.bits) && NoPurge(es) && i <= k <= |es|
    requires w in Run(es[..i], l).numbers && c !in Run(es[..i], l).calls
    requires var s := Run(es[..k], l);
      && c in s.calls && s.calls[c].phase.Returned?
      && d in s.calls && s.calls[d].phase.Returned?
      && NotModified(s.calls[c].phase.token, s.calls[d].phase.token.version)
    ensures var s := Run(es[..k], l); var copy := s.calls[d].phase.token;
      && InList(s.writes, l) && w < |s.writes| && |copy.bytes| == ByteLen(l.size, l.bits)
      && Reflects(copy, s.writes, w, l)
  {
    var s := Run(es[..k], l);
    RunKeepsInv(es[..k], l);
    NoPurgeOneEpoch(es[..k], l);
    RunSince(es, l, i, k);
    CopyReflects(s, l, c, d, w);
  }

  lemma CopyReflects(s: State, l: List, c: CallId, d: CallId, w: nat)
    requires Fits(l.size, l.bits) && Inv(s, l) && s.purges == s.base == 0
    requires c in s.calls && s.calls[c].phase.Returned? && w in s.calls[c].acked
    requires d in s.calls && s.calls[d].phase.Returned?
    requires s.calls[c].phase.token.version == s.calls[d].phase.token.version
    ensures w < |s.writes| && |s.calls[d].phase.token.bytes| == ByteLen(l.size, l.bits)
    ensures Reflects(s.calls[d].phase.token, s.writes, w, l)
  {
    assert CallOk(s, s.calls[c], l);
    assert CallOk(s, s.calls[d], l);
    SeenIsReflected(s, s.calls[d].phase.token, w, l);
  }

  // ---- where a token comes from ------------------------------------------------------------------

  /** The steps a call has taken, as moments of the trace: at `begun` it was not there yet, at `read` its
      version is the live one, at `looked` its process's cache did not match, at `copied` its bytes are
      the live ones. */
  datatype History = History(begun: nat, read: nat, looked: nat, copied: nat)

  /** A token carries this label and lifetime. */
  predicate Labelled(t: Published, version: nat, ttl: int) {
    t.version == version && t.ttl == ttl
  }

  /** The process's cache holds a token of this label and lifetime at this moment. */
  predicate CacheMatches(s: State, p: Process, version: nat, ttl: int) {
    p in s.caches && Labelled(s.caches[p], version, ttl)
  }

  ghost predicate Explains(t: seq<State>, es: seq<Event>, h: History, k: nat, c: CallId, l: List)
    requires Fits(l.size, l.bits) && k <= |es| < |t| && c in t[k].calls
  {
    var call := t[k].calls[c];
    && h.begun < k && es[h.begun] == Begin(c, call.process, call.ttl)
    && c !in t[h.begun].calls && call.acked == t[h.begun].numbers.Keys
    && (!call.phase.Begun? ==> h.begun < h.read < k)
    && match call.phase
       case Begun => true
       case GotVersion(v) => v == t[h.read].version
       case Missed(v) => v == t[h.read].version && LookedBefore(t, h, k, call, v)
       case GotBytes(b) => Labelled(b, t[h.read].version, call.ttl) && Copied(t, h, k, call, b, l)
       case Returned(b, hit) =>
         && Labelled(b, t[h.read].version, call.ttl)
         && if hit then FoundCached(t, h, k, call, b) else Copied(t, h, k, call, b, l)
  }

  ghost predicate LookedBefore(t: seq<State>, h: History, k: nat, call: Call, v: nat)
    requires k < |t|
  {
    h.read < h.looked < k && !CacheMatches(t[h.looked], call.process, v, call.ttl)
  }

  ghost predicate FoundCached(t: seq<State>, h: History, k: nat, call: Call, b: Published)
    requires k < |t|
  {
    h.read < h.looked < k && call.process in t[h.looked].caches && t[h.looked].caches[call.process] == b
  }

  ghost predicate Copied(t: seq<State>, h: History, k: nat, call: Call, b: Published, l: List)
    requires Fits(l.size, l.bits) && k < |t|
  {
    && LookedBefore(t, h, k, call, b.version) && h.looked < h.copied < k
    && b.bytes == Padded(t[h.copied].bitmap, ByteLen(l.size, l.bits))
  }

  /** The step from moment k, as it moves the history of call c. */
  function NextHistory(s: State, e: Event, c: CallId, h: History, k: nat): History {
    match e
    case Begin(d, _, _) => if d == c && c !in s.calls then h.(begun := k) else h
    case ReadVersion(d) => if d == c && c in s.calls && s.calls[c].phase.Begun? then h.(read := k) else h
    case ReadCache(d) => if d == c && c in s.calls && s.calls[c].phase.GotVersion? then h.(looked := k) else h
    case ReadBytes(d) => if d == c && c in s.calls && s.calls[c].phase.Missed? then h.(copied := k) else h
    case _ => h
  }

  lemma ExplainsStep(t: seq<State>, es: seq<Event>, l: List, h: History, k: nat, c: CallId)
    requires Fits(l.size, l.bits) && IsTrace(t, es, l) && k < |es| && c in t[k + 1].calls
    requires c in t[k].calls ==> Explains(t, es, h, k, c, l)
    ensures Explains(t, es, NextHistory(t[k], es[k], c, h, k), k + 1, c, l)
  {
    assert t[k + 1] == Step(t[k], es[k], l);
    if c in t[k].calls && t[k + 1].calls[c] == t[k].calls[c] {
      SameHistory(t[k], es[k], l, c, h, k);
      ExplainsOn(t, es, h, k, c, l);
    } else {
      ExplainsMove(t, es, l, h, k, c);
    }
  }

  lemma ExplainsOn(t: seq<State>, es: seq<Event>, h: History, k: nat, c: CallId, l: List)
    requires Fits(l.size, l.bits) && k < |es| < |t| && c in t[k].calls && c in t[k + 1].calls
    requires t[k + 1].calls[c] == t[k].calls[c] && Explains(t, es, h, k, c, l)
    ensures Explains(t, es, h, k + 1, c, l)
  {
  }

  /** The step from moment k begins call c or moves it on, and its history so far is explained. */
  ghost predicate Moving(t: seq<State>, es: seq<Event>, l: List, h: History, k: nat, c: CallId)
    requires Fits(l.size, l.bits)
  {
    && k < |es| < |t| && t[k + 1] == Step(t[k], es[k], l) && c in t[k + 1].calls
    && (c in t[k].calls ==> t[k + 1].calls[c] != t[k].calls[c] && Explains(t, es, h, k, c, l))
  }

  lemma ExplainsMove(t: seq<State>, es: seq<Event>, l: List, h: History, k: nat, c: CallId)
    requires Fits(l.size, l.bits) && Moving(t, es, l, h, k, c)
    ensures Explains(t, es, NextHistory(t[k], es[k], c, h, k), k + 1, c, l)
  {
    match es[k]
    case Begin(_, _, _) => BeginExplained(t, es, l, h, k, c);
    case ReadVersion(_) => ReadExplained(t, es, l, h, k, c);
    case ReadCache(_) => LookExplained(t, es, l, h, k, c);
    case ReadBytes(_) => CopyExplained(t, es, l, h, k, c);
    case Store(_) => StoreExplained(t, es, l, h, k, c);
    case _ =>
  }

  lemma BeginExplained(t: seq<State>, es: seq<Event>, l: List, h: History, k: nat, c: CallId)
    requires Fits(l.size, l.bits) && Moving(t, es, l, h, k, c) && es[k].Begin?
    ensures Explains(t, es, NextHistory(t[k], es[k], c, h, k), k + 1, c, l)
  {
  }

  lemma ReadExplained(t: seq<State>, es: seq<Event>, l: List, h: History, k: nat, c: CallId)
    requires Fits(l.size, l.bits) && Moving(t, es, l, h, k, c) && es[k].ReadVersion?
    ensures Explains(t, es, NextHistory(t[k], es[k], c, h, k), k + 1, c, l)
  {
  }

  lemma LookExplained(t: seq<State>, es: seq<Event>, l: List, h: History, k: nat, c: CallId)
    requires Fits(l.size, l.bits) && Moving(t, es, l, h, k, c) && es[k].ReadCache?
    ensures Explains(t, es, NextHistory(t[k], es[k], c, h, k), k + 1, c, l)
  {
  }

  lemma CopyExplained(t: seq<State>, es: seq<Event>, l: List, h: History, k: nat, c: CallId)
    requires Fits(l.size, l.bits) && Moving(t, es, l, h, k, c) && es[k].ReadBytes?
    ensures Explains(t, es, NextHistory(t[k], es[k], c, h, k), k + 1, c, l)
  {
  }

  lemma StoreExplained(t: seq<State>, es: seq<Event>, l: List, h: History, k: nat, c: CallId)
    requires Fits(l.size, l.bits) && Moving(t, es, l, h, k, c) && es[k].Store?
    ensures Explains(t, es, NextHistory(t[k], es[k], c, h, k), k + 1, c, l)
  {
  }

  /** A call that a step does not move keeps its history. */
  lemma SameHistory(s: State, e: Event, l: List, c: CallId, h: History, k: nat)
    requires Fits(l.size, l.bits) && c in s.calls && Step(s, e, l).calls[c] == s.calls[c]
    ensures NextHistory(s, e, c, h, k) == h
  {
  }

  /** In every run, purges included, every call's state is explained by moments in the order of its
      steps. */
  lemma {:induction false} Explained(t: seq<State>, es: seq<Event>, l: List, k: nat, c: CallId) returns (h: History)
    requires Fits(l.size, l.bits) && IsTrace(t, es, l) && k <= |es| && c in t[k].calls
    ensures Explains(t, es, h, k, c, l)
  {
    h := History(0, 0, 0, 0);
    assert t[k - 1 + 1] == Step(t[k - 1], es[k - 1], l);
    if c in t[k - 1].calls {
      h := Explained(t, es, l, k - 1, c);
    }
    ExplainsStep(t, es, l, h, k - 1, c);
    h := NextHistory(t[k - 1], es[k - 1], c, h, k - 1);
  }

  /** In every run, purges included: a returned token has the lifetime that the call asked for and, as its
      label, the live version of one moment of the call; on a hit it was in the process's cache at a
      later moment of the call, otherwise its bytes were the live ones at a later moment. */
  lemma ReturnedAsAsked(es: seq<Event>, l: List, c: CallId) returns (i: nat, j: nat, k: nat)
    requires Fits(l.size, l.bits) && c in Run(es, l).calls && Run(es, l).calls[c].phase.Returned?
    ensures var call := Run(es, l).calls[c]; var token := call.phase.token;
      && i < j < k < |es| && es[i] == Begin(c, call.process, call.ttl) && c !in Run(es[..i], l).calls
      && token.ttl == call.ttl && token.version == Run(es[..j], l).version
      && if call.phase.hit
         then call.process in Run(es[..k], l).caches && token == Run(es[..k], l).caches[call.process]
         else token.bytes == Padded(Run(es[..k], l).bitmap, ByteLen(l.size, l.bits))
  {
    var t := TraceOf(es, l);
    assert es[..|es|] == es;
    var h := Explained(t, es, l, |es|, c);
    i, j, k := h.begun, h.read, if t[|es|].calls[c].phase.hit then h.looked else h.copied;
  }

  // ---- when cached labels fall -----------------------------------------------------------------

  /** The last store into a process's cache before moment k. */
  function LastStore(t: seq<State>, es: seq<Event>, k: nat, p: Process): (r: Option<nat>)
    requires k <= |es| < |t|
    ensures r.Some? ==> r.value < k && StoresFor(t[r.value], es[r.value], p)
    ensures forall j :: 0 <= j < k && StoresFor(t[j], es[j], p) ==> r.Some? && j <= r.value
  {
    if k == 0 then None
    else if StoresFor(t[k - 1], es[k - 1], p) then Some(k - 1)
    else LastStore(t, es, k - 1, p)
  }

  /** A cache holds what the last store into it had built. */
  lemma {:induction false} CacheIsLastStore(t: seq<State>, es: seq<Event>, l: List, k: nat, p: Process)
    requires Fits(l.size, l.bits) && IsTrace(t, es, l) && k <= |es|
    ensures var j := LastStore(t, es, k, p);
      && (j.None? <==> p !in t[k].caches)
      && (j.Some? ==> t[k].caches[p] == Built(t[j.value], es[j.value]))
  {
    if k > 0 {
      CacheIsLastStore(t, es, l, k - 1, p);
      CacheChange(t[k - 1], es[k - 1], l, p);
      assert t[k - 1 + 1] == Step(t[k - 1], es[k - 1], l);
    }
  }

  /** The event is the version read of call c. */
  predicate ReadsVersion(s: State, e: Event, c: CallId) {
    e == ReadVersion(c) && c in s.calls && s.calls[c].phase.Begun?
  }

  /** The version a call has read and not yet returned under. */
  function Carried(call: Call): Option<nat> {
    match call.phase
    case Begun => None
    case GotVersion(v) => Some(v)
    case Missed(v) => Some(v)
    case GotBytes(t) => Some(t.version)
    case Returned(_, _) => None
  }

  /** A call of p is between its version read and its return. */
  predicate Underway(s: State, c: CallId, p: Process) {
    c in s.calls && s.calls[c].process == p && Carried(s.calls[c]).Some?
  }

  lemma CarriedStep(s: State, e: Event, l: List, c: CallId)
    requires Fits(l.size, l.bits) && c in Step(s, e, l).calls && Carried(Step(s, e, l).calls[c]).Some?
    ensures var s' := Step(s, e, l);
      if ReadsVersion(s, e, c) then Carried(s'.calls[c]) == Some(s.version) && s'.calls[c].process == s.calls[c].process
      else Underway(s, c, s'.calls[c].process) && Carried(s'.calls[c]) == Carried(s.calls[c])
  {
  }

  /** A call that carries a version read it at one earlier moment, and was under way ever since. */
  lemma {:induction false} WasRead(t: seq<State>, es: seq<Event>, l: List, k: nat, c: CallId) returns (i: nat)
    requires Fits(l.size, l.bits) && IsTrace(t, es, l) && k <= |es| && c in t[k].calls && Carried(t[k].calls[c]).Some?
    ensures i < k && ReadsVersion(t[i], es[i], c) && Carried(t[k].calls[c]) == Some(t[i].version)
    ensures forall j :: i < j <= k ==> Underway(t[j], c, t[k].calls[c].process)
  {
    assert t[k - 1 + 1] == Step(t[k - 1], es[k - 1], l);
    CarriedStep(t[k - 1], es[k - 1], l, c);
    i := k - 1;
    if !ReadsVersion(t[k - 1], es[k - 1], c) {
      i := WasRead(t, es, l, k - 1, c);
    }
  }

  /** The store lowers the version label in its process's cache. */
  predicate Lowers(s: State, e: Event) {
    Storing(s, e) && var p := s.calls[e.call].process; p in s.caches && Built(s, e).version < s.caches[p].version
  }

  lemma {:induction false} TraceOneEpoch(t: seq<State>, es: seq<Event>, l: List, k: nat)
    requires Fits(l.size, l.bits) && IsTrace(t, es, l) && NoPurge(es) && k <= |es|
    ensures t[k].purges == 0
  {
    if k > 0 {
      TraceOneEpoch(t, es, l, k - 1);
      assert t[k - 1 + 1] == Step(t[k - 1], es[k - 1], l);
    }
  }

  /** A label stored before a moment is at most the version at that moment. */
  lemma StoredBelow(t: seq<State>, es: seq<Event>, l: List, j: nat, i: nat)
    requires Fits(l.size, l.bits) && IsTrace(t, es, l) && NoPurge(es)
    requires j <= i <= |es| && j < |es| && Storing(t[j], es[j])
    ensures Built(t[j], es[j]).version <= t[i].version
  {
    assert Built(t[j], es[j]).version <= t[j].version by {
      TraceKeepsInv(t, es, l, j);
      TraceOneEpoch(t, es, l, j);
      assert CallOk(t[j], t[j].calls[es[j].call], l);
    }
    TraceSince(t, es, l, j, i);
  }

  /** In every run without a purge, exactly when a store lowers its process's label: another store into
      that cache came after the call had read its version (at moment i), and the last such one carries
      a larger label. */
  lemma LowersExact(t: seq<State>, es: seq<Event>, l: List, k: nat) returns (i: nat)
    requires Fits(l.size, l.bits) && IsTrace(t, es, l) && NoPurge(es) && k < |es| && Storing(t[k], es[k])
    ensures i < k && ReadsVersion(t[i], es[i], es[k].call)
    ensures forall j :: i < j <= k ==> Underway(t[j], es[k].call, t[k].calls[es[k].call].process)
    ensures var j := LastStore(t, es, k, t[k].calls[es[k].call].process);
      Lowers(t[k], es[k]) <==>
        j.Some? && i < j.value && Built(t[j.value], es[j.value]).version > Built(t[k], es[k]).version
  {
    var p := t[k].calls[es[k].call].process;
    i := WasRead(t, es, l, k, es[k].call);
    CacheIsLastStore(t, es, l, k, p);
    var j := LastStore(t, es, k, p);
    if j.Some? && j.value <= i {
      StoredBelow(t, es, l, j.value, i);
    }
  }

  /** At no moment are two calls of one process between version read and return. */
  ghost predicate NoOverlap(t: seq<State>) {
    forall k, c, d, p :: 0 <= k < |t| && Underway(t[k], c, p) && Underway(t[k], d, p) ==> c == d
  }

  lemma StoreEnds(t: seq<State>, es: seq<Event>, l: List, j: nat, p: Process)
    requires Fits(l.size, l.bits) && IsTrace(t, es, l) && j < |es| && Storing(t[j], es[j])
    ensures !Underway(t[j + 1], es[j].call, p)
  {
    assert t[j + 1] == Step(t[j], es[j], l);
  }

  /** Hence without overlapping calls no store lowers a label. */
  lemma NoOverlapNoFall(t: seq<State>, es: seq<Event>, l: List, k: nat)
    requires Fits(l.size, l.bits) && IsTrace(t, es, l) && NoPurge(es) && NoOverlap(t) && k < |es|
    ensures !Lowers(t[k], es[k])
  {
    if Lowers(t[k], es[k]) {
      var p := t[k].calls[es[k].call].process;
      var i := LowersExact(t, es, l, k);
      var j := LastStore(t, es, k, p).value;
      assert Underway(t[j], es[k].call, p) && Underway(t[j], es[j].call, p);
      assert Underway(t[j + 1], es[k].call, p);
      StoreEnds(t, es, l, j, p);
      assert false;
    }
  }

  lemma LabelStep(s: State, e: Event, l: List, p: Process)
    requires Fits(l.size, l.bits) && p in s.caches && !Lowers(s, e)
    ensures p in Step(s, e, l).caches && s.caches[p].version <= Step(s, e, l).caches[p].version
  {
    CacheChange(s, e, l, p);
  }

  /** So in every run without purges and without overlapping calls of one process, the labels in a cache
      only grow. */
  lemma {:induction false} LabelsGrow(t: seq<State>, es: seq<Event>, l: List, i: nat, k: nat, p: Process)
    requires Fits(l.size, l.bits) && IsTrace(t, es, l) && NoPurge(es) && NoOverlap(t)
    requires i <= k <= |es| && p in t[i].caches
    ensures p in t[k].caches && t[i].caches[p].version <= t[k].caches[p].version
  {
    if i < k {
      LabelsGrow(t, es, l, i, k - 1, p);
      NoOverlapNoFall(t, es, l, k - 1);
      LabelStep(t[k - 1], es[k - 1], l, p);
      assert t[k - 1 + 1] == Step(t[k - 1], es[k - 1], l);
    }
  }

  // ---- what does not hold --------------------------------------------------------------------

  lemma RunSnoc(es: seq<Event>, e: Event, l: List)
    requires Fits(l.size, l.bits)
    ensures Run(es + [e], l) == Step(Run(es, l), e, l)
  {
    assert (es + [e])[..|es|] == es;
  }

  /** A call of process 0 that finds no current entry, up to the point where it has its bytes. */
  lemma CallUpToBytes(s: State, es: seq<Event>, c: CallId, l: List) returns (es': seq<Event>, s': State)
    requires Fits(l.size, l.bits) && s == Run(es, l) && c !in s.calls && 0 !in s.caches
    ensures es' == es + [Begin(c, 0, 60), ReadVersion(c), ReadCache(c), ReadBytes(c)] && s' == Run(es', l)
    ensures NoPurge(es) ==> NoPurge(es')
    ensures var t := Published(s.version, 60, Padded(s.bitmap, ByteLen(l.size, l.bits)), |s.writes|, s.purges);
      s' == s.(calls := s.calls[c := Call(0, 60, s.numbers.Keys, s.purges, GotBytes(t))])
  {
    var e2, s2 := CallUpToVersion(s, es, c, l);
    RunSnoc(e2, ReadCache(c), l);
    var e3 := e2 + [ReadCache(c)];
    var s3 := s.(calls := s.calls[c := Call(0, 60, s.numbers.Keys, s.purges, Missed(s.version))]);
    assert Step(s2, ReadCache(c), l) == s3;
    RunSnoc(e3, ReadBytes(c), l);
    es' := e3 + [ReadBytes(c)];
    s' := Run(es', l);
  }

  lemma CallUpToVersion(s: State, es: seq<Event>, c: CallId, l: List) returns (es': seq<Event>, s': State)
    requires Fits(l.size, l.bits) && s == Run(es, l) && c !in s.calls
    ensures es' == es + [Begin(c, 0, 60), ReadVersion(c)] && s' == Run(es', l)
    ensures s' == s.(calls := s.calls[c := Call(0, 60, s.numbers.Keys, s.purges, GotVersion(s.version))])
  {
    RunSnoc(es, Begin(c, 0, 60), l);
    var e1 := es + [Begin(c, 0, 60)];
    RunSnoc(e1, ReadVersion(c), l);
    es' := e1 + [ReadVersion(c)];
    s' := Run(es', l);
  }

  /** A write followed at once by its increment. */
  lemma AckedWrite(s: State, es: seq<Event>, value: bv8, l: List) returns (es': seq<Event>, s': State)
    requires Fits(l.size, l.bits) && s == Run(es, l) && l.size > 0 && |s.writes| !in s.numbers
    ensures es' == es + [WriteByte(0, value), Increment(|s.writes|)] && s' == Run(es', l)
    ensures NoPurge(es) ==> NoPurge(es')
    ensures s' == s.(bitmap := WriteEntry(s.bitmap, 0, l.size, l.bits, value), version := s.version + 1,
                     writes := s.writes + [Update(0, value)], numbers := s.numbers[|s.writes| := s.version + 1])
  {
    RunSnoc(es, WriteByte(0, value), l);
    var e1 := es + [WriteByte(0, value)];
    RunSnoc(e1, Increment(|s.writes|), l);
    es' := e1 + [Increment(|s.writes|)];
    s' := Run(es', l);
  }

  /** A call that has its bytes stores them and returns. */
  lemma StoreCall(s: State, es: seq<Event>, c: CallId, l: List) returns (es': seq<Event>, s': State)
    requires Fits(l.size, l.bits) && s == Run(es, l) && c in s.calls && s.calls[c].phase.GotBytes?
    ensures es' == es + [Store(c)] && s' == Run(es', l)
    ensures NoPurge(es) ==> NoPurge(es')
    ensures var t := s.calls[c].phase.built;
      s' == s.(caches := s.caches[s.calls[c].process := t], calls := SetPhase(s, c, Returned(t, false)))
  {
    RunSnoc(es, Store(c), l);
    es' := es + [Store(c)];
    s' := Run(es', l);
  }

  /** Cached version labels are not monotone: on every list a slower builder can overwrite a newer
      entry. */
  lemma CacheCanRegress(l: List) returns (es: seq<Event>, s: State, s': State)
    requires Fits(l.size, l.bits) && l.size > 0
    ensures NoPurge(es) && |es| > 0 && s == Run(es[..|es| - 1], l) && s' == Run(es, l)
    ensures 0 in s.caches && 0 in s'.caches && s'.caches[0].version < s.caches[0].version
  {
    var e4, s4 := SlowBuilder(l);
    es, s' := StoreCall(s4, e4, 0, l);
    s := s4;
    assert es[..|es| - 1] == e4;
  }

  /** One call is about to store version 0 while another has stored version 1. */
  lemma SlowBuilder(l: List) returns (es: seq<Event>, s: State)
    requires Fits(l.size, l.bits) && l.size > 0
    ensures NoPurge(es) && s == Run(es, l) && 0 in s.caches && s.caches[0].version == 1
    ensures 0 in s.calls && s.calls[0].process == 0 && s.calls[0].phase.GotBytes? && s.calls[0].phase.built.version == 0
  {
    var e1, s1 := CallUpToBytes(START, [], 0, l);
    var e2, s2 := AckedWrite(s1, e1, INVALID, l);
    var e3, s3 := CallUpToBytes(s2, e2, 1, l);
    es, s := StoreCall(s3, e3, 1, l);
  }

  /** A call of process 0 that finds its cached entry current. */
  lemma HitCall(s: State, es: seq<Event>, c: CallId, l: List) returns (es': seq<Event>, s': State)
    requires Fits(l.size, l.bits) && s == Run(es, l) && c !in s.calls
    requires 0 in s.caches && s.caches[0].version == s.version && s.caches[0].ttl == 60
    ensures es' == es + [Begin(c, 0, 60), ReadVersion(c), ReadCache(c)] && s' == Run(es', l)
    ensures s' == s.(calls := s.calls[c := Call(0, 60, s.numbers.Keys, s.purges, Returned(s.caches[0], true))])
  {
    var e2, s2 := CallUpToVersion(s, es, c, l);
    RunSnoc(e2, ReadCache(c), l);
    es' := e2 + [ReadCache(c)];
    s' := Run(es', l);
  }

  /** After a purge versions restart, and on every list freshness can fail: a call begun after
      write 1 was acknowledged returns a token that shows neither it nor a later write. */
  lemma PurgeBreaksFreshness(l: List) returns (es: seq<Event>, s: State, s': State)
    requires Fits(l.size, l.bits) && l.size > 0
    ensures |es| >= 3 && s == Run(es[..|es| - 3], l) && s' == Run(es, l)
    ensures 1 in s.numbers && 1 !in s.calls
    ensures 1 in s'.calls && s'.calls[1].phase.Returned? && InList(s'.writes, l) && 1 < |s'.writes|
    ensures |s'.calls[1].phase.token.bytes| == ByteLen(l.size, l.bits)
    ensures !Reflects(s'.calls[1].phase.token, s'.writes, 1, l)
  {
    var e1, s1 := AckedWrite(START, [], INVALID, l);
    var e2, s2 := CallUpToBytes(s1, e1, 0, l);
    var e3, s3 := StoreCall(s2, e2, 0, l);
    RunSnoc(e3, PurgeKeys, l);
    var e4, s4 := e3 + [PurgeKeys], s3.(bitmap := None, version := 0, purges := 1, base := 1);
    var e5, s5 := AckedWrite(s4, e4, VALID, l);
    es, s' := HitCall(s5, e5, 1, l);
    s := s5;
    assert es[..|es| - 3] == e5;
    OldTokenIsStale(s'.calls[1].phase.token, s'.writes, l);
  }

  lemma OldTokenIsStale(t: Published, writes: seq<Update>, l: List)
    requires Fits(l.size, l.bits) && l.size > 0
    requires writes == [Update(0, INVALID), Update(0, VALID)]
    requires t.bytes == Padded(WriteEntry(None, 0, l.size, l.bits, INVALID), ByteLen(l.size, l.bits))
    ensures InList(writes, l) && !Reflects(t, writes, 1, l)
  {
    WriteEntryRefines(None, 0, l.size, l.bits, INVALID);
    assert INVALID & Mask(l.bits) == INVALID && VALID & Mask(l.bits) == VALID;
  }
}
