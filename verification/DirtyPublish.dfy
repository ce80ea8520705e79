/** Writers, the debouncer and the publishers of one list together: `MarkDirty` after each write,
    and a publish call for each fire. */
module DirtyPublish {
  import opened StatusList
  import P = Publishing
  import D = Debounce

  datatype State = State(pub: P.State, deb: D.State)

  /** The events of both machines. `MarkDirty` belongs to a writer whose increment has returned;
      `Fire` is a spawned fire of this list's key, which begins a publish call. */
  datatype Event =
    | Publish(p: P.Event)
    | Time(d: D.Event)
    | MarkDirty(write: nat, floor: int, gap: nat)
    | Fire(call: P.CallId, process: P.Process, ttl: int)

  /** The list and the debouncer key it is published under. */
  datatype Config = Config(list: P.List, key: D.Key)

  const START: State := State(P.START, D.START)

  function Step(s: State, e: Event, cfg: Config): State
    requires Fits(cfg.list.size, cfg.list.bits)
  {
    match e
    case Publish(p) => if p.PurgeKeys? then s else s.(pub := P.Step(s.pub, p, cfg.list))
    case Time(d) => if d == D.BeginFire(cfg.key) then s else s.(deb := D.Step(s.deb, d))
    case MarkDirty(w, floor, gap) =>
      if w !in s.pub.numbers then s else s.(deb := D.Step(s.deb, D.Trigger(cfg.key, floor, gap)))
    case Fire(c, process, ttl) =>
      if cfg.key !in s.deb.spawned || c in s.pub.calls then s
      else State(P.Step(s.pub, P.Begin(c, process, ttl), cfg.list), D.Step(s.deb, D.BeginFire(cfg.key)))
  }

  function Run(es: seq<Event>, cfg: Config): State
    requires Fits(cfg.list.size, cfg.list.bits)
  {
    if es == [] then START else Step(Run(es[..|es| - 1], cfg), es[|es| - 1], cfg)
  }

  ghost predicate Inv(s: State, cfg: Config)
    requires Fits(cfg.list.size, cfg.list.bits)
  {
    P.Inv(s.pub, cfg.list) && D.Inv(s.deb)
  }

  lemma StepKeepsInv(s: State, e: Event, cfg: Config)
    requires Fits(cfg.list.size, cfg.list.bits) && Inv(s, cfg)
    ensures Inv(Step(s, e, cfg), cfg)
  {
    match e
    case Publish(p) => if !p.PurgeKeys? { P.StepKeepsInv(s.pub, p, cfg.list); }
    case Time(d) => D.StepKeepsInv(s.deb, d);
    case MarkDirty(w, floor, gap) => D.StepKeepsInv(s.deb, D.Trigger(cfg.key, floor, gap));
    case Fire(c, process, ttl) =>
      P.StepKeepsInv(s.pub, P.Begin(c, process, ttl), cfg.list);
      D.StepKeepsInv(s.deb, D.BeginFire(cfg.key));
  }

  lemma {:induction false} RunKeepsInv(es: seq<Event>, cfg: Config)
    requires Fits(cfg.list.size, cfg.list.bits)
    ensures Inv(Run(es, cfg), cfg)
  {
    if es != [] {
      RunKeepsInv(es[..|es| - 1], cfg);
      StepKeepsInv(Run(es[..|es| - 1], cfg), es[|es| - 1], cfg);
    }
  }

  // ---- the two machines in it ----------------------------------------------------------------------

  /** The event as the publishers see it, and as the debouncer sees it. */
  function PubEvent(s: State, e: Event, cfg: Config): seq<P.Event> {
    match e
    case Publish(p) => if p.PurgeKeys? then [] else [p]
    case Fire(c, process, ttl) => if Fires(s, e, cfg) then [P.Begin(c, process, ttl)] else []
    case _ => []
  }

  function DebEvent(s: State, e: Event, cfg: Config): seq<D.Event> {
    match e
    case Time(d) => if d == D.BeginFire(cfg.key) then [] else [d]
    case MarkDirty(w, floor, gap) => if w in s.pub.numbers then [D.Trigger(cfg.key, floor, gap)] else []
    case Fire(_, _, _) => if Fires(s, e, cfg) then [D.BeginFire(cfg.key)] else []
    case _ => []
  }

  function PubEvents(es: seq<Event>, cfg: Config): seq<P.Event>
    requires Fits(cfg.list.size, cfg.list.bits)
  {
    if es == [] then [] else
      PubEvents(es[..|es| - 1], cfg) + PubEvent(Run(es[..|es| - 1], cfg), es[|es| - 1], cfg)
  }

  function DebEvents(es: seq<Event>, cfg: Config): seq<D.Event>
    requires Fits(cfg.list.size, cfg.list.bits)
  {
    if es == [] then [] else
      DebEvents(es[..|es| - 1], cfg) + DebEvent(Run(es[..|es| - 1], cfg), es[|es| - 1], cfg)
  }

  lemma PubExtend(ps: seq<P.Event>, more: seq<P.Event>, l: P.List)
    requires Fits(l.size, l.bits) && |more| <= 1
    ensures P.Run(ps + more, l) == if more == [] then P.Run(ps, l) else P.Step(P.Run(ps, l), more[0], l)
  {
    if more == [] {
      assert ps + more == ps;
    } else {
      assert (ps + more)[..|ps|] == ps;
    }
  }

  lemma DebExtend(ds: seq<D.Event>, more: seq<D.Event>)
    requires |more| <= 1
    ensures D.Run(ds + more) == if more == [] then D.Run(ds) else D.Step(D.Run(ds), more[0])
  {
    if more == [] {
      assert ds + more == ds;
    } else {
      assert (ds + more)[..|ds|] == ds;
    }
  }

  lemma StepOfBoth(s: State, e: Event, cfg: Config)
    requires Fits(cfg.list.size, cfg.list.bits)
    ensures var ps, ds := PubEvent(s, e, cfg), DebEvent(s, e, cfg);
      && |ps| <= 1 && |ds| <= 1
      && Step(s, e, cfg).pub == (if ps == [] then s.pub else P.Step(s.pub, ps[0], cfg.list))
      && Step(s, e, cfg).deb == (if ds == [] then s.deb else D.Step(s.deb, ds[0]))
  {
  }

  /** Every run of the two together is a run of the publishers beside a run of the debouncer: a mark of an
      acknowledged write is a trigger with its own floor, a fire is the beginning of a publish call. So
      every theorem about runs of either holds here. */
  lemma {:induction false} RunsOfBoth(es: seq<Event>, cfg: Config)
    requires Fits(cfg.list.size, cfg.list.bits)
    ensures Run(es, cfg) == State(P.Run(PubEvents(es, cfg), cfg.list), D.Run(DebEvents(es, cfg)))
  {
    if es != [] {
      var front, e := es[..|es| - 1], es[|es| - 1];
      RunsOfBoth(front, cfg);
      StepOfBoth(Run(front, cfg), e, cfg);
      PubExtend(PubEvents(front, cfg), PubEvent(Run(front, cfg), e, cfg), cfg.list);
      DebExtend(DebEvents(front, cfg), DebEvent(Run(front, cfg), e, cfg));
    }
  }

  /** Marks with one floor f > 0, and no other triggers of the list's key, respect the rate. */
  lemma MarksRateLimited(es: seq<Event>, cfg: Config, f: nat, from: D.Time, length: nat)
    requires Fits(cfg.list.size, cfg.list.bits) && f > 0
    requires forall i :: 0 <= i < |es| && es[i].MarkDirty? ==> es[i].floor == f
    requires forall i :: 0 <= i < |es| && es[i].Time? && es[i].d.Trigger? ==> es[i].d.key != cfg.key
    ensures |D.InWindow(D.StampsOf(Run(es, cfg).deb, cfg.key), from, length)| <= length / f + 1
  {
    RunsOfBoth(es, cfg);
    OneFloor(es, cfg, f);
    D.RateLimited(DebEvents(es, cfg), cfg.key, f, from, length);
  }

  lemma {:induction false} OneFloor(es: seq<Event>, cfg: Config, f: nat)
    requires Fits(cfg.list.size, cfg.list.bits)
    requires forall i :: 0 <= i < |es| && es[i].MarkDirty? ==> es[i].floor == f
    requires forall i :: 0 <= i < |es| && es[i].Time? && es[i].d.Trigger? ==> es[i].d.key != cfg.key
    ensures D.FixedFloor(DebEvents(es, cfg), cfg.key, f)
  {
    if es != [] {
      OneFloor(es[..|es| - 1], cfg, f);
    }
  }

  // ---- no dirty mark is lost ---------------------------------------------------------------------

  /** The event is a spawned fire of this list's key that begins its publish call. */
  predicate Fires(s: State, e: Event, cfg: Config) {
    e.Fire? && cfg.key in s.deb.spawned && e.call !in s.pub.calls
  }

  /** A fire that began between moments i and k, with a publish call that knows write w. */
  ghost predicate FiredAt(es: seq<Event>, cfg: Config, m: nat, w: nat)
    requires Fits(cfg.list.size, cfg.list.bits) && m < |es|
  {
    && Fires(Run(es[..m], cfg), es[m], cfg)
    && Knows(Run(es[..m + 1], cfg), es[m].call, w)
  }

  ghost predicate FiredBetween(es: seq<Event>, cfg: Config, i: nat, k: nat, w: nat)
    requires Fits(cfg.list.size, cfg.list.bits) && k <= |es|
  {
    exists m :: i < m < k && FiredAt(es, cfg, m, w)
  }

  lemma RunStep(es: seq<Event>, cfg: Config, i: nat)
    requires Fits(cfg.list.size, cfg.list.bits) && i < |es|
    ensures Run(es[..i + 1], cfg) == Step(Run(es[..i], cfg), es[i], cfg)
  {
    assert es[..i + 1][..i] == es[..i];
  }

  lemma CallsPersist(s: P.State, e: P.Event, l: P.List, c: P.CallId)
    requires Fits(l.size, l.bits) && c in s.calls
    ensures c in P.Step(s, e, l).calls && P.Step(s, e, l).calls[c].acked == s.calls[c].acked
  {
  }

  lemma NumbersPersist(s: P.State, e: P.Event, l: P.List)
    requires Fits(l.size, l.bits)
    ensures s.numbers.Keys <= P.Step(s, e, l).numbers.Keys
  {
  }

  /** A step keeps what is known of writes and calls. */
  lemma StepKeepsKnown(s: State, e: Event, cfg: Config)
    requires Fits(cfg.list.size, cfg.list.bits)
    ensures s.pub.numbers.Keys <= Step(s, e, cfg).pub.numbers.Keys
    ensures forall c :: c in s.pub.calls ==>
      c in Step(s, e, cfg).pub.calls && Step(s, e, cfg).pub.calls[c].acked == s.pub.calls[c].acked
  {
    if e.Publish? {
      NumbersPersist(s.pub, e.p, cfg.list);
      forall c | c in s.pub.calls
        ensures c in Step(s, e, cfg).pub.calls && Step(s, e, cfg).pub.calls[c].acked == s.pub.calls[c].acked
      {
        CallsPersist(s.pub, e.p, cfg.list, c);
      }
    }
  }

  /** The states of a run, one after the other. */
  ghost predicate IsTrace(t: seq<State>, es: seq<Event>, cfg: Config)
    requires Fits(cfg.list.size, cfg.list.bits)
  {
    |t| == |es| + 1 && forall k :: 0 <= k < |es| ==> t[k + 1] == Step(t[k], es[k], cfg)
  }

  lemma TraceOf(es: seq<Event>, cfg: Config) returns (t: seq<State>)
    requires Fits(cfg.list.size, cfg.list.bits)
    ensures IsTrace(t, es, cfg) && forall k :: 0 <= k <= |es| ==> t[k] == Run(es[..k], cfg)
  {
    t := seq(|es| + 1, k requires 0 <= k <= |es| => Run(es[..k], cfg));
    forall k | 0 <= k < |es| ensures t[k + 1] == Step(t[k], es[k], cfg) {
      RunStep(es, cfg, k);
    }
  }

  /** The writes acknowledged at one moment stay acknowledged. */
  lemma {:induction false} StaysAcked(t: seq<State>, es: seq<Event>, cfg: Config, i: nat, k: nat, w: nat)
    requires Fits(cfg.list.size, cfg.list.bits) && IsTrace(t, es, cfg) && i <= k <= |es| && w in t[i].pub.numbers
    ensures w in t[k].pub.numbers
  {
    if i < k {
      StaysAcked(t, es, cfg, i, k - 1, w);
      StepKeepsKnown(t[k - 1], es[k - 1], cfg);
      assert t[k - 1 + 1] == Step(t[k - 1], es[k - 1], cfg);
    }
  }

  predicate Knows(s: State, c: P.CallId, w: nat) {
    c in s.pub.calls && w in s.pub.calls[c].acked
  }

  /** And calls keep what they know. */
  lemma {:induction false} StaysKnown(t: seq<State>, es: seq<Event>, cfg: Config, i: nat, k: nat, c: P.CallId, w: nat)
    requires Fits(cfg.list.size, cfg.list.bits) && IsTrace(t, es, cfg) && i <= k <= |es| && Knows(t[i], c, w)
    ensures Knows(t[k], c, w)
  {
    if i < k {
      StaysKnown(t, es, cfg, i, k - 1, c, w);
      StepKeepsKnown(t[k - 1], es[k - 1], cfg);
      assert t[k - 1 + 1] == Step(t[k - 1], es[k - 1], cfg);
    }
  }

  lemma FireKnows(s: State, e: Event, cfg: Config, w: nat)
    requires Fits(cfg.list.size, cfg.list.bits) && Fires(s, e, cfg) && w in s.pub.numbers
    ensures Knows(Step(s, e, cfg), e.call, w)
  {
  }

  /** Only a fire that begins takes an outstanding one away. */
  lemma OutstandingStep(s: State, e: Event, cfg: Config)
    requires Fits(cfg.list.size, cfg.list.bits) && D.Outstanding(s.deb, cfg.key) && !Fires(s, e, cfg)
    ensures D.Outstanding(Step(s, e, cfg).deb, cfg.key)
  {
    if e.Time? && e.d != D.BeginFire(cfg.key) {
      D.StaysOutstanding(s.deb, e.d, cfg.key);
    } else if e.MarkDirty? {
      D.StaysOutstanding(s.deb, D.Trigger(cfg.key, e.floor, e.gap), cfg.key);
    }
  }

  lemma MarkLeavesOutstanding(s: State, w: nat, floor: int, gap: nat, cfg: Config)
    requires Fits(cfg.list.size, cfg.list.bits) && D.Inv(s.deb) && w in s.pub.numbers
    ensures D.Outstanding(Step(s, MarkDirty(w, floor, gap), cfg).deb, cfg.key)
  {
    assert D.KeyOk(s.deb, cfg.key);
    D.TriggerIsOutstanding(s.deb, cfg.key, floor, gap);
  }

  lemma FiredLater(es: seq<Event>, cfg: Config, i: nat, k: nat, w: nat)
    requires Fits(cfg.list.size, cfg.list.bits) && k < |es| && FiredBetween(es, cfg, i, k, w)
    ensures FiredBetween(es, cfg, i, k + 1, w)
  {
    var m :| i < m < k && FiredAt(es, cfg, m, w);
  }

  lemma FiredNow(es: seq<Event>, cfg: Config, i: nat, k: nat, w: nat)
    requires Fits(cfg.list.size, cfg.list.bits) && i < k < |es| && w in Run(es[..k], cfg).pub.numbers
    requires Fires(Run(es[..k], cfg), es[k], cfg)
    ensures FiredBetween(es, cfg, i, k + 1, w)
  {
    RunStep(es, cfg, k);
    FireKnows(Run(es[..k], cfg), es[k], cfg, w);
    assert FiredAt(es, cfg, k, w);
  }

  /** A fire is still to begin, spawned or behind the pending timer, or one has begun since moment i
      with a publish call that knows the write. */
  ghost predicate NotLost(es: seq<Event>, cfg: Config, i: nat, k: nat, w: nat)
    requires Fits(cfg.list.size, cfg.list.bits) && k <= |es|
  {
    D.Outstanding(Run(es[..k], cfg).deb, cfg.key) || FiredBetween(es, cfg, i, k, w)
  }

  lemma NotLostStep(es: seq<Event>, cfg: Config, i: nat, k: nat, w: nat)
    requires Fits(cfg.list.size, cfg.list.bits) && i < k < |es| && w in Run(es[..k], cfg).pub.numbers
    requires NotLost(es, cfg, i, k, w)
    ensures NotLost(es, cfg, i, k + 1, w)
  {
    if FiredBetween(es, cfg, i, k, w) {
      FiredLater(es, cfg, i, k, w);
    } else if Fires(Run(es[..k], cfg), es[k], cfg) {
      FiredNow(es, cfg, i, k, w);
    } else {
      OutstandingStep(Run(es[..k], cfg), es[k], cfg);
      RunStep(es, cfg, k);
    }
  }

  lemma NotLostAtFirst(es: seq<Event>, cfg: Config, i: nat)
    requires Fits(cfg.list.size, cfg.list.bits)
    requires i < |es| && es[i].MarkDirty? && es[i].write in Run(es[..i], cfg).pub.numbers
    ensures NotLost(es, cfg, i, i + 1, es[i].write)
  {
    assert D.Inv(Run(es[..i], cfg).deb) by { RunKeepsInv(es[..i], cfg); }
    MarkLeavesOutstanding(Run(es[..i], cfg), es[i].write, es[i].floor, es[i].gap, cfg);
    RunStep(es, cfg, i);
  }

  lemma {:induction false} Carries(kept: seq<bool>, i: nat, k: nat)
    requires i <= k < |kept| && kept[i] && forall j :: i <= j < |kept| - 1 && kept[j] ==> kept[j + 1]
    ensures kept[k]
  {
    if i < k {
      Carries(kept, i, k - 1);
      assert kept[k - 1 + 1];
    }
  }

  /** In every run, no dirty mark is lost: at every moment after an acknowledged write has been marked
      dirty a fire is still to begin, or one has begun since the mark that knows the write. */
  lemma NoDirtyMarkLost(es: seq<Event>, cfg: Config, i: nat, k: nat)
    requires Fits(cfg.list.size, cfg.list.bits)
    requires i < k <= |es| && es[i].MarkDirty? && es[i].write in Run(es[..i], cfg).pub.numbers
    ensures NotLost(es, cfg, i, k, es[i].write)
  {
    var w := es[i].write;
    ghost var kept := seq(|es| + 1, j requires 0 <= j <= |es| => NotLost(es, cfg, i, j, w));
    var t := TraceOf(es, cfg);
    assert kept[i + 1] by { NotLostAtFirst(es, cfg, i); }
    forall j | i + 1 <= j < |es| && kept[j] ensures kept[j + 1] {
      StaysAcked(t, es, cfg, i, j, w);
      NotLostStep(es, cfg, i, j, w);
    }
    Carries(kept, i + 1, k);
  }

  lemma StepNeverPurges(s: State, e: Event, cfg: Config)
    requires Fits(cfg.list.size, cfg.list.bits)
    ensures Step(s, e, cfg).pub.purges == s.pub.purges && Step(s, e, cfg).pub.base == s.pub.base
  {
  }

  lemma {:induction false} NeverPurged(es: seq<Event>, cfg: Config)
    requires Fits(cfg.list.size, cfg.list.bits)
    ensures Run(es, cfg).pub.purges == 0 && Run(es, cfg).pub.base == 0
  {
    if es != [] {
      NeverPurged(es[..|es| - 1], cfg);
      StepNeverPurges(Run(es[..|es| - 1], cfg), es[|es| - 1], cfg);
    }
  }

  /** Nothing of this list is under way: no fire outstanding, no call unfinished. */
  ghost predicate Quiet(s: State, cfg: Config) {
    && !D.Outstanding(s.deb, cfg.key)
    && forall c :: c in s.pub.calls ==> s.pub.calls[c].phase.Returned?
  }

  /** The call's token shows write w or a later write to its entry. */
  ghost predicate Shows(s: P.State, c: P.CallId, w: nat, l: P.List)
    requires Fits(l.size, l.bits)
  {
    && c in s.calls && s.calls[c].phase.Returned? && P.InList(s.writes, l) && w < |s.writes|
    && |s.calls[c].phase.token.bytes| == ByteLen(l.size, l.bits)
    && P.Reflects(s.calls[c].phase.token, s.writes, w, l)
  }

  lemma KnownIsShown(s: P.State, c: P.CallId, w: nat, l: P.List)
    requires Fits(l.size, l.bits) && P.Inv(s, l) && s.purges == s.base == 0
    requires c in s.calls && s.calls[c].phase.Returned? && w in s.calls[c].acked
    ensures Shows(s, c, w, l)
  {
    assert P.CallOk(s, s.calls[c], l);
    P.ReturnedReflects(s, l, c, w);
  }

  /** Whenever things have gone quiet, every acknowledged write marked dirty so far was published by a
      fire of its own: one began after the mark, and its call returned a token that shows the write or
      a later write to its entry. */
  lemma QuietMeansPublished(es: seq<Event>, cfg: Config, i: nat) returns (m: nat)
    requires Fits(cfg.list.size, cfg.list.bits)
    requires i < |es| && es[i].MarkDirty? && es[i].write in Run(es[..i], cfg).pub.numbers
    requires Quiet(Run(es, cfg), cfg)
    ensures i < m < |es| && FiredAt(es, cfg, m, es[i].write)
    ensures Shows(Run(es, cfg).pub, es[m].call, es[i].write, cfg.list)
  {
    m := FireSince(es, cfg, i);
    NeverPurged(es, cfg);
    assert P.Inv(Run(es, cfg).pub, cfg.list) by { RunKeepsInv(es, cfg); }
    KnownIsShown(Run(es, cfg).pub, es[m].call, es[i].write, cfg.list);
  }

  /** With nothing outstanding, a fire has begun since the mark, and its call still knows the write. */
  lemma FireSince(es: seq<Event>, cfg: Config, i: nat) returns (m: nat)
    requires Fits(cfg.list.size, cfg.list.bits)
    requires i < |es| && es[i].MarkDirty? && es[i].write in Run(es[..i], cfg).pub.numbers
    requires !D.Outstanding(Run(es, cfg).deb, cfg.key)
    ensures i < m < |es| && FiredAt(es, cfg, m, es[i].write) && Knows(Run(es, cfg), es[m].call, es[i].write)
  {
    assert es[..|es|] == es;
    NoDirtyMarkLost(es, cfg, i, |es|);
    m :| i < m < |es| && FiredAt(es, cfg, m, es[i].write);
    var t := TraceOf(es, cfg);
    StaysKnown(t, es, cfg, m + 1, |es|, es[m].call, es[i].write);
  }
}
