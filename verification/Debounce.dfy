/** The leading debouncer: per key, at most one publish per floor, none lost.
    `Step` is one event of the running program; an event that is not enabled changes nothing. */
module Debounce {
  import opened Prelude

  type Key = string
  type Time = int

  /** A pending timer, with the floor of the trigger that set it. */
  datatype Timer = Timer(due: Time, floor: int)

  /** A recorded fire time, with the floor of the trigger it answers. */
  datatype Stamp = Stamp(at: Time, floor: int)

  /** The two maps of the object; the timers and goroutines the runtime holds for it (`spawned`
      counts fires not yet begun); and, as history, every stamp given to each key. */
  datatype State = State(
    clock: Time, lastFired: map<Key, Time>, pending: set<Key>,
    timers: multiset<(Key, Timer)>, spawned: multiset<Key>, stamps: map<Key, seq<Stamp>>)

  /** `Trigger` reads the clock twice, `gap` apart; a timer's callback runs at or after its due
      time; a spawned fire begins some time later. */
  datatype Event =
    | Tick(d: nat)
    | Trigger(key: Key, floor: int, gap: nat)
    | Expire(key: Key, timer: Timer)
    | BeginFire(key: Key)

  const START: State := State(0, map[], {}, multiset{}, multiset{}, map[])

  function StampsOf(s: State, key: Key): seq<Stamp> {
    if key in s.stamps then s.stamps[key] else []
  }

  /** Enough time has passed since the last fire; a key never fired is idle. */
  predicate Idle(s: State, key: Key, floor: int) {
    key !in s.lastFired || s.clock - s.lastFired[key] >= floor
  }

  function AddStamp(s: State, key: Key, stamp: Stamp): map<Key, seq<Stamp>> {
    s.stamps[key := StampsOf(s, key) + [stamp]]
  }

  function TriggerStep(s: State, key: Key, floor: int, gap: nat): State {
    if key in s.pending then s
    else if Idle(s, key, floor) then
      var now := s.clock + gap;
      s.(clock := now, lastFired := s.lastFired[key := now], spawned := s.spawned + multiset{key},
         stamps := AddStamp(s, key, Stamp(now, floor)))
    else
      var delay := floor - (s.clock - s.lastFired[key]);
      s.(pending := s.pending + {key}, timers := s.timers + multiset{(key, Timer(s.clock + delay, floor))})
  }

  function ExpireStep(s: State, key: Key, timer: Timer): State {
    if (key, timer) !in s.timers || s.clock < timer.due then s
    else s.(pending := s.pending - {key}, lastFired := s.lastFired[key := s.clock],
            timers := s.timers - multiset{(key, timer)}, spawned := s.spawned + multiset{key},
            stamps := AddStamp(s, key, Stamp(s.clock, timer.floor)))
  }

  function Step(s: State, e: Event): State {
    match e
    case Tick(d) => s.(clock := s.clock + d)
    case Trigger(key, floor, gap) => TriggerStep(s, key, floor, gap)
    case Expire(key, timer) => ExpireStep(s, key, timer)
    case BeginFire(key) => s.(spawned := s.spawned - multiset{key})
  }

  function Run(es: seq<Event>): State {
    if es == [] then START else Step(Run(es[..|es| - 1]), es[|es| - 1])
  }

  // ---- invariant -----------------------------------------------------------------------------

  /** Consecutive stamps are at least the later one's floor apart. */
  predicate Spaced(stamps: seq<Stamp>) {
    forall i :: 0 < i < |stamps| ==> stamps[i].at >= stamps[i - 1].at + stamps[i].floor
  }

  ghost predicate KeyOk(s: State, key: Key) {
    var stamps := StampsOf(s, key);
    && Spaced(stamps)
    && (key in s.lastFired <==> stamps != [])
    && (key in s.lastFired ==> s.lastFired[key] == stamps[|stamps| - 1].at <= s.clock)
    // pending is set exactly while one timer of the key is outstanding
    && (key !in s.pending ==> forall t :: (key, t) !in s.timers)
    && (key in s.pending ==> key in s.lastFired && exists t :: OnlyTimer(s, key, t))
  }

  ghost predicate OnlyTimer(s: State, key: Key, t: Timer) {
    && s.timers[(key, t)] == 1
    && (forall u :: (key, u) in s.timers ==> u == t)
    && (key in s.lastFired ==> t.due == s.lastFired[key] + t.floor)
  }

  ghost predicate Inv(s: State) {
    forall key :: KeyOk(s, key)
  }

  lemma SpacedSnoc(stamps: seq<Stamp>, x: Stamp)
    requires Spaced(stamps) && (stamps != [] ==> x.at >= stamps[|stamps| - 1].at + x.floor)
    ensures Spaced(stamps + [x])
  {
  }

  lemma TriggerKeepsKey(s: State, key: Key, floor: int, gap: nat, k: Key)
    requires KeyOk(s, k)
    ensures KeyOk(TriggerStep(s, key, floor, gap), k)
  {
    var s' := TriggerStep(s, key, floor, gap);
    if k != key {
      OtherKey(s, s', k);
    } else if key in s.pending {
    } else if Idle(s, key, floor) {
      SpacedSnoc(StampsOf(s, key), Stamp(s.clock + gap, floor));
    } else {
      var t := Timer(s.clock + (floor - (s.clock - s.lastFired[key])), floor);
      assert OnlyTimer(s', key, t);
    }
  }

  /** Keys do not affect each other: an event of one key leaves the others' part alone. */
  lemma OtherKey(s: State, s': State, k: Key)
    requires KeyOk(s, k) && s.clock <= s'.clock
    requires StampsOf(s', k) == StampsOf(s, k)
    requires k in s'.lastFired <==> k in s.lastFired
    requires k in s.lastFired ==> s'.lastFired[k] == s.lastFired[k]
    requires k in s'.pending <==> k in s.pending
    requires forall t :: s'.timers[(k, t)] == s.timers[(k, t)]
    ensures KeyOk(s', k)
  {
    if k in s.pending {
      var t :| OnlyTimer(s, k, t);
      assert OnlyTimer(s', k, t);
    }
  }

  lemma ExpireKeepsKey(s: State, key: Key, timer: Timer, k: Key)
    requires KeyOk(s, k)
    ensures KeyOk(ExpireStep(s, key, timer), k)
  {
    var s' := ExpireStep(s, key, timer);
    if k != key {
      OtherKey(s, s', k);
    } else if (key, timer) in s.timers && s.clock >= timer.due {
      assert key in s.pending;
      var t :| OnlyTimer(s, key, t);
      assert t == timer;
      SpacedSnoc(StampsOf(s, key), Stamp(s.clock, timer.floor));
    }
  }

  lemma StepKeepsInv(s: State, e: Event)
    requires Inv(s)
    ensures Inv(Step(s, e))
  {
    forall k ensures KeyOk(Step(s, e), k) {
      assert KeyOk(s, k);
      match e
      case Tick(_) => OtherKey(s, Step(s, e), k);
      case Trigger(key, floor, gap) => TriggerKeepsKey(s, key, floor, gap, k);
      case Expire(key, timer) => ExpireKeepsKey(s, key, timer, k);
      case BeginFire(_) => OtherKey(s, Step(s, e), k);
    }
  }

  /** In every run: pending exactly while one timer is outstanding, stamps spaced by the floor of
      the trigger each answers. */
  lemma {:induction false} RunKeepsInv(es: seq<Event>)
    ensures Inv(Run(es))
  {
    if es != [] {
      RunKeepsInv(es[..|es| - 1]);
      StepKeepsInv(Run(es[..|es| - 1]), es[|es| - 1]);
    }
  }

  function LastStamp(s: State, key: Key): Time
    requires StampsOf(s, key) != []
  {
    StampsOf(s, key)[|StampsOf(s, key)| - 1].at
  }

  /** In every run each outstanding timer of a key is due exactly its floor after the key's last stamp. */
  lemma TimersDueExactly(es: seq<Event>, key: Key, t: Timer)
    requires (key, t) in Run(es).timers
    ensures StampsOf(Run(es), key) != [] && t.due == LastStamp(Run(es), key) + t.floor
  {
    RunKeepsInv(es);
    assert KeyOk(Run(es), key);
  }

  /** What a trigger does, in terms of the stamps given so far: nothing while a timer is outstanding, a
      fire at once when the last one is at least the floor ago, otherwise a timer due exactly the floor
      after the last stamp. */
  ghost predicate Triggered(s: State, s': State, key: Key, floor: int, gap: nat) {
    var stamps := StampsOf(s, key);
    if exists t :: (key, t) in s.timers then s' == s
    else if stamps == [] || s.clock >= LastStamp(s, key) + floor then
      && s'.clock == s.clock + gap && s'.timers == s.timers && s'.spawned == s.spawned + multiset{key}
      && StampsOf(s', key) == stamps + [Stamp(s.clock + gap, floor)]
    else
      && s'.clock == s.clock && s'.spawned == s.spawned && s'.stamps == s.stamps
      && s'.timers == s.timers + multiset{(key, Timer(LastStamp(s, key) + floor, floor))}
  }

  lemma TriggerOnKey(s: State, key: Key, floor: int, gap: nat)
    requires KeyOk(s, key)
    ensures Triggered(s, TriggerStep(s, key, floor, gap), key, floor, gap)
  {
    if key in s.pending {
      var t :| OnlyTimer(s, key, t);
      assert (key, t) in s.timers;
    } else if !Idle(s, key, floor) {
      assert s.clock + (floor - (s.clock - s.lastFired[key])) == LastStamp(s, key) + floor;
    }
  }

  /** Every trigger of every run does that. */
  lemma TriggerExact(es: seq<Event>, key: Key, floor: int, gap: nat)
    ensures Triggered(Run(es), Step(Run(es), Trigger(key, floor, gap)), key, floor, gap)
  {
    RunKeepsInv(es);
    assert KeyOk(Run(es), key);
    TriggerOnKey(Run(es), key, floor, gap);
  }

  // ---- no trigger is lost --------------------------------------------------------------------

  /** A fire of the key is still to begin: spawned already, or behind a pending timer. */
  ghost predicate Outstanding(s: State, key: Key) {
    key in s.spawned || exists t :: (key, t) in s.timers
  }

  lemma TriggerIsOutstanding(s: State, key: Key, floor: int, gap: nat)
    requires KeyOk(s, key)
    ensures Outstanding(TriggerStep(s, key, floor, gap), key)
  {
    var s' := TriggerStep(s, key, floor, gap);
    if key in s.pending {
      var t :| OnlyTimer(s, key, t);
      assert (key, t) in s'.timers;
    } else if !Idle(s, key, floor) {
      assert (key, Timer(s.clock + (floor - (s.clock - s.lastFired[key])), floor)) in s'.timers;
    }
  }

  lemma StaysOutstanding(s: State, e: Event, key: Key)
    requires Outstanding(s, key) && !(e == BeginFire(key) && key in s.spawned)
    ensures Outstanding(Step(s, e), key)
  {
    if key in s.spawned {
      SpawnedStays(s, e, key);
    } else {
      var t :| (key, t) in s.timers;
      TimerStaysOrFires(s, e, key, t);
    }
  }

  lemma SpawnedStays(s: State, e: Event, key: Key)
    requires key in s.spawned && e != BeginFire(key)
    ensures key in Step(s, e).spawned
  {
  }

  lemma TimerStaysOrFires(s: State, e: Event, key: Key, t: Timer)
    requires (key, t) in s.timers
    ensures (key, t) in Step(s, e).timers || key in Step(s, e).spawned
  {
  }

  lemma RunStep(es: seq<Event>, i: nat)
    requires i < |es|
    ensures Run(es[..i + 1]) == Step(Run(es[..i]), es[i])
  {
    assert es[..i + 1][..i] == es[..i];
  }

  /** A fire of the key began between moments i and k. */
  ghost predicate FireBegan(es: seq<Event>, key: Key, i: nat, k: nat)
    requires k <= |es|
  {
    exists m :: i < m < k && es[m] == BeginFire(key) && key in Run(es[..m]).spawned
  }

  /** In every run, after a trigger its key has a fire that began after it, or one still to begin. */
  lemma {:induction false} NoTriggerLost(es: seq<Event>, key: Key, i: nat, k: nat)
    requires i < k <= |es| && es[i].Trigger? && es[i].key == key
    ensures Outstanding(Run(es[..k]), key) || FireBegan(es, key, i, k)
  {
    var s := Run(es[..k - 1]);
    RunStep(es, k - 1);
    if k == i + 1 {
      RunKeepsInv(es[..i]);
      TriggerIsOutstanding(s, key, es[i].floor, es[i].gap);
    } else {
      NoTriggerLost(es, key, i, k - 1);
      if FireBegan(es, key, i, k - 1) {
        FireBeganLater(es, key, i, k);
      } else if es[k - 1] == BeginFire(key) && key in s.spawned {
        assert FireBegan(es, key, i, k);
      } else {
        StaysOutstanding(s, es[k - 1], key);
      }
    }
  }

  lemma FireBeganLater(es: seq<Event>, key: Key, i: nat, k: nat)
    requires i < k <= |es| && FireBegan(es, key, i, k - 1)
    ensures FireBegan(es, key, i, k)
  {
    var m :| i < m < k - 1 && es[m] == BeginFire(key) && key in Run(es[..m]).spawned;
  }

  // ---- fires come in time ----------------------------------------------------------------------

  /** No timer of the key waits more than `late` past its due time. */
  ghost predicate Punctual(s: State, key: Key, late: nat) {
    forall t :: (key, t) in s.timers ==> s.clock <= t.due + late
  }

  /** The key's fire after its first n has been spawned by the deadline, or waits behind a timer due by
      then. */
  ghost predicate InTime(s: State, key: Key, n: nat, deadline: Time, late: nat) {
    if |StampsOf(s, key)| > n then StampsOf(s, key)[n].at <= deadline + late
    else |StampsOf(s, key)| == n && exists t :: (key, t) in s.timers && t.due <= deadline
  }

  lemma TriggerInTime(s: State, key: Key, floor: int, gap: nat, deadline: Time, late: nat)
    requires KeyOk(s, key)
    requires forall t :: (key, t) in s.timers ==> t.due <= deadline
    requires key !in s.pending ==> s.clock + floor <= deadline && s.clock + gap <= deadline
    ensures InTime(TriggerStep(s, key, floor, gap), key, |StampsOf(s, key)|, deadline, late)
  {
    var s' := TriggerStep(s, key, floor, gap);
    if key in s.pending {
      var t :| OnlyTimer(s, key, t);
      assert (key, t) in s'.timers;
    } else if !Idle(s, key, floor) {
      var t :| (key, t) in s'.timers && t.due == s.lastFired[key] + floor;
    }
  }

  lemma StepKeepsInTime(s: State, e: Event, key: Key, n: nat, deadline: Time, late: nat)
    requires KeyOk(s, key) && InTime(s, key, n, deadline, late) && Punctual(s, key, late)
    ensures InTime(Step(s, e), key, n, deadline, late)
  {
    var s' := Step(s, e);
    if |StampsOf(s, key)| > n {
      StampsGrow(s, e, key);
    } else {
      var t :| (key, t) in s.timers && t.due <= deadline;
      TimerKeepsInTime(s, e, key, t, deadline, late);
    }
  }

  lemma StampsGrow(s: State, e: Event, key: Key)
    ensures StampsOf(s, key) <= StampsOf(Step(s, e), key)
  {
  }

  lemma TimerKeepsInTime(s: State, e: Event, key: Key, t: Timer, deadline: Time, late: nat)
    requires KeyOk(s, key) && (key, t) in s.timers && t.due <= deadline && Punctual(s, key, late)
    ensures InTime(Step(s, e), key, |StampsOf(s, key)|, deadline, late)
  {
    assert key in s.pending;
    if e.Expire? && e.key == key && (key, e.timer) in s.timers && s.clock >= e.timer.due {
      ExpiryStamps(s, key, e.timer);
    } else {
      TimerWaits(s, e, key, t);
    }
  }

  lemma ExpiryStamps(s: State, key: Key, timer: Timer)
    requires (key, timer) in s.timers && s.clock >= timer.due
    ensures StampsOf(ExpireStep(s, key, timer), key) == StampsOf(s, key) + [Stamp(s.clock, timer.floor)]
  {
  }

  lemma TimerWaits(s: State, e: Event, key: Key, t: Timer)
    requires key in s.pending && (key, t) in s.timers
    requires !(e.Expire? && e.key == key && (key, e.timer) in s.timers && s.clock >= e.timer.due)
    ensures (key, t) in Step(s, e).timers && StampsOf(Step(s, e), key) == StampsOf(s, key)
  {
    if e.Expire? && e.key != key {
      assert (key, t) != (e.key, e.timer);
    }
  }

  lemma {:induction false} StaysInTime(es: seq<Event>, key: Key, i: nat, k: nat, n: nat, deadline: Time, late: nat)
    requires i <= k <= |es| && InTime(Run(es[..i]), key, n, deadline, late)
    requires forall m :: i <= m < k ==> Punctual(Run(es[..m]), key, late)
    ensures InTime(Run(es[..k]), key, n, deadline, late)
  {
    if i < k {
      StaysInTime(es, key, i, k - 1, n, deadline, late);
      RunKeepsInv(es[..k - 1]);
      assert KeyOk(Run(es[..k - 1]), key);
      RunStep(es, k - 1);
      StepKeepsInTime(Run(es[..k - 1]), es[k - 1], key, n, deadline, late);
    }
  }

  /** In every run in which timers are served at most `late` after they are due, a trigger at time T has
      its fire spawned no later than `late` after its deadline: the due time of the key's timer if one
      was outstanding, otherwise T plus the floor (or the second clock read, if that is later). So
      once the clock is past that, the fire has been spawned. */
  lemma FiresInTime(es: seq<Event>, key: Key, i: nat, k: nat, deadline: Time, late: nat)
    requires i < k <= |es| && es[i].Trigger? && es[i].key == key
    requires forall m :: i < m <= k ==> Punctual(Run(es[..m]), key, late)
    requires var s := Run(es[..i]);
      if exists t :: (key, t) in s.timers then forall t :: (key, t) in s.timers ==> t.due <= deadline
      else s.clock + es[i].floor <= deadline && s.clock + es[i].gap <= deadline
    requires Run(es[..k]).clock > deadline + late
    ensures var n := |StampsOf(Run(es[..i]), key)|;
      |StampsOf(Run(es[..k]), key)| > n && StampsOf(Run(es[..k]), key)[n].at <= deadline + late
  {
    var s, n := Run(es[..i]), |StampsOf(Run(es[..i]), key)|;
    RunKeepsInv(es[..i]);
    assert KeyOk(s, key);
    RunStep(es, i);
    TriggerInTime(s, key, es[i].floor, es[i].gap, deadline, late);
    StaysInTime(es, key, i + 1, k, n, deadline, late);
    assert Punctual(Run(es[..k]), key, late);
  }

  // ---- the rate ------------------------------------------------------------------------------

  lemma {:induction false} SpacedBy(stamps: seq<Stamp>, f: nat, i: nat, j: nat)
    requires Spaced(stamps) && i <= j < |stamps|
    requires AllFloor(stamps, f)
    ensures stamps[j].at >= stamps[i].at + (j - i) * f
  {
    if i < j {
      SpacedBy(stamps, f, i, j - 1);
      assert (j - i) * f == (j - 1 - i) * f + f;
    }
  }

  /** The stamps of a key that fall into a window of the given length. */
  function InWindow(stamps: seq<Stamp>, from: Time, length: nat): set<nat> {
    set i: nat | i < |stamps| && from <= stamps[i].at <= from + length
  }

  /** With a fixed floor f, a window of length W holds at most W / f + 1 stamps. */
  lemma WindowBound(stamps: seq<Stamp>, f: nat, from: Time, length: nat)
    requires Spaced(stamps) && f > 0
    requires AllFloor(stamps, f)
    ensures |InWindow(stamps, from, length)| <= length / f + 1
  {
    var w := InWindow(stamps, from, length);
    if w != {} {
      var lo := Least(w);
      forall j | j in w ensures j - lo <= length / f {
        CloseInWindow(stamps, f, from, length, lo, j);
      }
      FewBetween(w, lo, length / f);
    }
  }

  lemma CloseInWindow(stamps: seq<Stamp>, f: nat, from: Time, length: nat, i: nat, j: nat)
    requires Spaced(stamps) && f > 0 && AllFloor(stamps, f) && i <= j
    requires i in InWindow(stamps, from, length) && j in InWindow(stamps, from, length)
    ensures j - i <= length / f
  {
    SpacedBy(stamps, f, i, j);
    AtMostQuotient(j - i, f, length);
  }

  lemma FewBetween(w: set<nat>, lo: nat, q: nat)
    requires forall j :: j in w ==> lo <= j <= lo + q
    ensures |w| <= q + 1
  {
    SubsetSize(w, Range(lo, lo + q + 1));
  }

  lemma AtMostQuotient(q: nat, f: nat, length: nat)
    requires f > 0 && q * f <= length
    ensures q <= length / f
  {
    var r := length / f;
    assert length < (r + 1) * f;
    assert q >= r + 1 ==> q * f >= (r + 1) * f;
  }

  lemma {:induction false} Least(s: set<nat>) returns (m: nat)
    requires s != {}
    ensures m in s && forall x :: x in s ==> m <= x
    decreases s
  {
    var x :| x in s;
    m := x;
    if s != {x} {
      var r := Least(s - {x});
      assert forall y :: y in s ==> y == x || y in s - {x};
      m := if r < x then r else x;
    }
  }

  ghost predicate FixedFloor(es: seq<Event>, key: Key, f: int) {
    forall i :: 0 <= i < |es| ==> es[i].Trigger? && es[i].key == key ==> es[i].floor == f
  }

  ghost predicate FloorIs(s: State, key: Key, f: int) {
    && (forall t :: (key, t) in s.timers ==> t.floor == f)
    && AllFloor(StampsOf(s, key), f)
  }

  predicate AllFloor(stamps: seq<Stamp>, f: int) {
    forall x :: 0 <= x < |stamps| ==> stamps[x].floor == f
  }

  lemma TriggerKeepsFloor(s: State, k: Key, floor: int, gap: nat, key: Key, f: int)
    requires FloorIs(s, key, f) && (k == key ==> floor == f)
    ensures FloorIs(TriggerStep(s, k, floor, gap), key, f)
  {
  }

  lemma ExpireKeepsFloor(s: State, k: Key, timer: Timer, key: Key, f: int)
    requires FloorIs(s, key, f)
    ensures FloorIs(ExpireStep(s, k, timer), key, f)
  {
  }

  lemma {:induction false} StampsHaveFloor(es: seq<Event>, key: Key, f: int)
    requires FixedFloor(es, key, f)
    ensures FloorIs(Run(es), key, f)
  {
    if es != [] {
      var s, e := Run(es[..|es| - 1]), es[|es| - 1];
      StampsHaveFloor(es[..|es| - 1], key, f);
      match e
      case Trigger(k, floor, gap) => TriggerKeepsFloor(s, k, floor, gap, key, f);
      case Expire(k, timer) => ExpireKeepsFloor(s, k, timer, key, f);
      case _ =>
    }
  }

  /** In every run in which a key is always triggered with the same floor f > 0, any window of
      length W holds at most W / f + 1 stamps of that key: moments at which a fire was spawned, which may
      begin later. */
  lemma RateLimited(es: seq<Event>, key: Key, f: nat, from: Time, length: nat)
    requires FixedFloor(es, key, f) && f > 0
    ensures |InWindow(StampsOf(Run(es), key), from, length)| <= length / f + 1
  {
    RunKeepsInv(es);
    assert KeyOk(Run(es), key);
    StampsHaveFloor(es, key, f);
    WindowBound(StampsOf(Run(es), key), f, from, length);
  }

  // ---- keys are independent --------------------------------------------------------------------

  /** The part of the state that concerns one key. */
  ghost predicate SameFor(s: State, t: State, key: Key) {
    && s.clock == t.clock
    && (key in s.lastFired <==> key in t.lastFired)
    && (key in s.lastFired ==> s.lastFired[key] == t.lastFired[key])
    && (key in s.pending <==> key in t.pending)
    && (forall u :: s.timers[(key, u)] == t.timers[(key, u)])
    && s.spawned[key] == t.spawned[key]
    && StampsOf(s, key) == StampsOf(t, key)
  }

  /** The event as the key sees it: events of other keys only let time pass. */
  function Seen(s: State, e: Event, key: Key): Event {
    if e.Tick? || e.key == key then e
    else if Step(s, e).clock >= s.clock then Tick(Step(s, e).clock - s.clock) else Tick(0)
  }

  function SeenRun(es: seq<Event>, key: Key): seq<Event> {
    if es == [] then [] else SeenRun(es[..|es| - 1], key) + [Seen(Run(es[..|es| - 1]), es[|es| - 1], key)]
  }

  lemma OtherKeysStep(s: State, e: Event, key: Key)
    requires !e.Tick? && e.key != key
    ensures SameFor(s.(clock := Step(s, e).clock), Step(s, e), key) && s.clock <= Step(s, e).clock
  {
    match e
    case Trigger(k, floor, gap) => OtherKeyTriggers(s, k, floor, gap, key);
    case Expire(k, timer) => OtherKeyExpires(s, k, timer, key);
    case BeginFire(_) =>
  }

  lemma OtherKeyTriggers(s: State, k: Key, floor: int, gap: nat, key: Key)
    requires k != key
    ensures var s' := TriggerStep(s, k, floor, gap); SameFor(s.(clock := s'.clock), s', key) && s.clock <= s'.clock
  {
  }

  lemma OtherKeyExpires(s: State, k: Key, timer: Timer, key: Key)
    requires k != key
    ensures SameFor(s, ExpireStep(s, k, timer), key)
  {
  }

  lemma SameTrigger(s: State, t: State, key: Key, floor: int, gap: nat)
    requires SameFor(s, t, key)
    ensures SameFor(TriggerStep(s, key, floor, gap), TriggerStep(t, key, floor, gap), key)
  {
  }

  lemma SameExpire(s: State, t: State, key: Key, timer: Timer)
    requires SameFor(s, t, key)
    ensures SameFor(ExpireStep(s, key, timer), ExpireStep(t, key, timer), key)
  {
    assert (key, timer) in s.timers <==> (key, timer) in t.timers;
  }

  lemma SeenStep(s: State, t: State, e: Event, key: Key)
    requires SameFor(s, t, key)
    ensures SameFor(Step(s, e), Step(t, Seen(s, e, key)), key)
  {
    if !e.Tick? && e.key != key {
      OtherKeysStep(s, e, key);
    } else {
      match e
      case Trigger(_, floor, gap) => SameTrigger(s, t, key, floor, gap);
      case Expire(_, timer) => SameExpire(s, t, key, timer);
      case _ =>
    }
  }

  /** Keys do not affect each other: erasing the other keys' events from a run, but for the time
      they take, leaves everything about this key as it was. */
  lemma {:induction false} KeysIndependent(es: seq<Event>, key: Key)
    ensures SameFor(Run(es), Run(SeenRun(es, key)), key)
  {
    if es != [] {
      var front, last := es[..|es| - 1], es[|es| - 1];
      KeysIndependent(front, key);
      SeenStep(Run(front), Run(SeenRun(front, key)), last, key);
      var seen := SeenRun(front, key) + [Seen(Run(front), last, key)];
      assert seen[..|seen| - 1] == SeenRun(front, key);
    }
  }

  // ---- the object ------------------------------------------------------------------------------

  datatype Action = Nothing | Spawn | Schedule(delay: int)

  class LeadingDebouncer {
    var lastFired: map<Key, Time>
    var pending: set<Key>

    constructor ()
      ensures lastFired == map[] && pending == {}
    {
      lastFired, pending := map[], {};
    }

    /** The object holds its part of a machine state. */
    ghost predicate Holds(s: State)
      reads this
    {
      lastFired == s.lastFired && pending == s.pending
    }

    /** Takes the object where `TriggerStep` takes the machine, and asks the runtime for exactly
        what that step adds: nothing, a fire, or a timer. `now` and `later` are its clock reads. */
    method Trigger(key: Key, floor: int, now: Time, later: Time, ghost s: State) returns (action: Action)
      requires Holds(s) && s.clock == now <= later
      modifies this
      ensures var s' := TriggerStep(s, key, floor, later - now);
        && Holds(s')
        && s'.spawned == s.spawned + (if action.Spawn? then multiset{key} else multiset{})
        && s'.timers == s.timers
           + (if action.Schedule? then multiset{(key, Timer(now + action.delay, floor))} else multiset{})
      ensures action.Nothing? <==> key in old(pending)
      ensures action.Spawn? <==> key !in old(pending) && (key !in old(lastFired) || old(lastFired)[key] + floor <= now)
      ensures action.Spawn? ==> lastFired == old(lastFired)[key := later] && pending == old(pending)
      ensures action.Schedule? ==>
        && now + action.delay == old(lastFired)[key] + floor
        && lastFired == old(lastFired) && pending == old(pending) + {key}
    {
      if key in pending {
        return Nothing;
      }
      if key !in lastFired || now - lastFired[key] >= floor {
        lastFired := lastFired[key := later];
        return Spawn;
      }
      var elapsed := now - lastFired[key];
      pending := pending + {key};
      return Schedule(floor - elapsed);
    }

    /** The timer's callback, up to the fire it then runs itself. */
    method OnTimer(key: Key, timer: Timer, now: Time, ghost s: State)
      requires Holds(s) && s.clock == now >= timer.due && (key, timer) in s.timers
      modifies this
      ensures Holds(ExpireStep(s, key, timer))
      ensures pending == old(pending) - {key} && lastFired == old(lastFired)[key := now]
    {
      pending := pending - {key};
      lastFired := lastFired[key := now];
    }
  }
}
