/** Assigning issuers to shards: any number of concurrent lookups and reassignments over one table,
    statement by statement. An event that is not enabled leaves the state as it is. */
module Sharding {
  type Issuer = string
  type Shard = string
  type CallId = nat
  type Table = map<Issuer, Shard>

  /** A lookup call: which issuer, the shard list of the process that runs it, when it began, and how
      far it is. `at` counts the events before the read that answered. */
  datatype Phase = Selecting | Inserting | Rereading | Returned(shard: Shard, at: nat) | Failed
  datatype Call = Call(issuer: Issuer, shards: seq<Shard>, begun: nat, phase: Phase)

  datatype State = State(table: Table, calls: map<CallId, Call>, now: nat)

  datatype Event =
    | Begin(call: CallId, issuer: Issuer, shards: seq<Shard>)
    | Select(call: CallId)
    | Insert(call: CallId)
    | Reread(call: CallId)
    | Upsert(issuer: Issuer, shard: Shard)   // the write of a Reassign

  const INITIAL: State := State(map[], map[], 0)

  /** The candidate for a new issuer: a hash of its name, modulo the number of shards. */
  function Candidate(hash: Issuer -> nat, issuer: Issuer, shards: seq<Shard>): (r: Shard)
    requires |shards| >= 1
    ensures r in shards
  {
    shards[hash(issuer) % |shards|]
  }

  /** Insert, or do nothing on a conflict. */
  function InsertOrNothing(t: Table, issuer: Issuer, shard: Shard): Table {
    if issuer in t then t else t[issuer := shard]
  }

  function Move(s: State, call: CallId, phase: Phase): State
    requires call in s.calls
  {
    s.(calls := s.calls[call := s.calls[call].(phase := phase)])
  }

  predicate At(s: State, call: CallId, phase: Phase) {
    call in s.calls && s.calls[call].phase == phase
  }

  function Act(s: State, e: Event, hash: Issuer -> nat): State {
    match e
    case Begin(call, issuer, shards) =>
      if call in s.calls || shards == [] then s
      else s.(calls := s.calls[call := Call(issuer, shards, s.now, Selecting)])
    case Select(call) =>
      if !At(s, call, Selecting) then s
      else if s.calls[call].issuer in s.table then Move(s, call, Returned(s.table[s.calls[call].issuer], s.now))
      else Move(s, call, Inserting)
    case Insert(call) =>
      if !At(s, call, Inserting) || s.calls[call].shards == [] then s
      else
        var c := s.calls[call];
        Move(s.(table := InsertOrNothing(s.table, c.issuer, Candidate(hash, c.issuer, c.shards))), call, Rereading)
    case Reread(call) =>
      if !At(s, call, Rereading) then s
      else if s.calls[call].issuer in s.table then Move(s, call, Returned(s.table[s.calls[call].issuer], s.now))
      else Move(s, call, Failed)
    case Upsert(issuer, shard) => s.(table := s.table[issuer := shard])
  }

  function Step(s: State, e: Event, hash: Issuer -> nat): State {
    Act(s, e, hash).(now := s.now + 1)
  }

  function Run(es: seq<Event>, hash: Issuer -> nat): State {
    if es == [] then INITIAL else Step(Run(es[..|es| - 1], hash), es[|es| - 1], hash)
  }

  lemma RunSnoc(es: seq<Event>, hash: Issuer -> nat, k: nat)
    requires k < |es|
    ensures Run(es[..k + 1], hash) == Step(Run(es[..k], hash), es[k], hash)
  {
    assert es[..k + 1][..k] == es[..k];
  }

  // ---- invariants --------------------------------------------------------------------------------

  /** Rows never disappear, so the row a call inserted or found is there when it reads back. */
  ghost predicate CallOk(s: State, c: Call) {
    && c.shards != [] && c.begun <= s.now && c.phase != Failed
    && (c.phase.Rereading? || c.phase.Returned? ==> c.issuer in s.table)
    && (c.phase.Returned? ==> c.begun <= c.phase.at < s.now)
  }

  ghost predicate Inv(s: State) {
    forall call :: call in s.calls ==> CallOk(s, s.calls[call])
  }

  lemma StepKeepsInv(s: State, e: Event, hash: Issuer -> nat)
    requires Inv(s)
    ensures Inv(Step(s, e, hash)) && s.table.Keys <= Step(s, e, hash).table.Keys
  {
  }

  /** In every run: no read-back ever fails. */
  lemma {:induction false} RunKeepsInv(es: seq<Event>, hash: Issuer -> nat)
    ensures Inv(Run(es, hash)) && Run(es, hash).now == |es|
  {
    if es != [] {
      RunKeepsInv(es[..|es| - 1], hash);
      StepKeepsInv(Run(es[..|es| - 1], hash), es[|es| - 1], hash);
    }
  }

  predicate HasReturned(s: State, call: CallId) {
    call in s.calls && s.calls[call].phase.Returned?
  }

  /** A call that has returned stays as it is. */
  lemma ReturnedStays(s: State, e: Event, hash: Issuer -> nat, call: CallId)
    requires HasReturned(s, call)
    ensures HasReturned(Step(s, e, hash), call) && Step(s, e, hash).calls[call] == s.calls[call]
  {
  }

  /** A call that returns in a step answers the row as it was when the step began. */
  lemma ReturnsRow(s: State, e: Event, hash: Issuer -> nat, call: CallId)
    requires !HasReturned(s, call) && HasReturned(Step(s, e, hash), call)
    ensures var c := Step(s, e, hash).calls[call];
      c.phase.at == s.now && c.issuer in s.table && c.phase.shard == s.table[c.issuer]
  {
  }

  lemma CallStep(s: State, e: Event, hash: Issuer -> nat, call: CallId)
    requires call in Step(s, e, hash).calls
    ensures var c := Step(s, e, hash).calls[call];
      if call in s.calls
      then c.issuer == s.calls[call].issuer && c.shards == s.calls[call].shards && c.begun == s.calls[call].begun
      else e == Begin(call, c.issuer, c.shards) && c.begun == s.now
  {
  }

  /** A call began with the event its record names. */
  lemma {:induction false} CallBegan(es: seq<Event>, hash: Issuer -> nat, call: CallId)
    requires call in Run(es, hash).calls
    ensures var c := Run(es, hash).calls[call]; c.begun < |es| && es[c.begun] == Begin(call, c.issuer, c.shards)
  {
    var front := es[..|es| - 1];
    RunKeepsInv(front, hash);
    CallStep(Run(front, hash), es[|es| - 1], hash, call);
    if call in Run(front, hash).calls {
      CallBegan(front, hash, call);
    }
  }

  /** Linearizability: in every run, with any number of reassignments, a call returns the value its
      issuer's row had at one moment between the call's beginning and its return. */
  lemma {:induction false} ReturnsCurrentRow(es: seq<Event>, hash: Issuer -> nat, call: CallId)
    requires HasReturned(Run(es, hash), call)
    ensures var c := Run(es, hash).calls[call];
      && c.begun <= c.phase.at < |es| && es[c.begun] == Begin(call, c.issuer, c.shards)
      && c.issuer in Run(es[..c.phase.at], hash).table
      && c.phase.shard == Run(es[..c.phase.at], hash).table[c.issuer]
  {
    RunKeepsInv(es, hash);
    CallBegan(es, hash, call);
    var front := es[..|es| - 1];
    var s := Run(front, hash);
    RunKeepsInv(front, hash);
    if HasReturned(s, call) {
      ReturnedStays(s, es[|es| - 1], hash, call);
      ReturnsCurrentRow(front, hash, call);
      var at := s.calls[call].phase.at;
      assert front[..at] == es[..at];
    } else {
      ReturnsRow(s, es[|es| - 1], hash, call);
    }
  }

  // ---- the row itself ----------------------------------------------------------------------------

  predicate NotReassigned(es: seq<Event>, issuer: Issuer) {
    forall k :: 0 <= k < |es| ==> !(es[k].Upsert? && es[k].issuer == issuer)
  }

  lemma RowStep(s: State, e: Event, hash: Issuer -> nat, issuer: Issuer)
    requires issuer in s.table && !(e.Upsert? && e.issuer == issuer)
    ensures issuer in Step(s, e, hash).table && Step(s, e, hash).table[issuer] == s.table[issuer]
  {
  }

  /** Once there, a row changes only by a reassignment. */
  lemma {:induction false} RowStable(es: seq<Event>, hash: Issuer -> nat, k: nat, issuer: Issuer)
    requires k <= |es| && NotReassigned(es[k..], issuer) && issuer in Run(es[..k], hash).table
    ensures issuer in Run(es, hash).table && Run(es, hash).table[issuer] == Run(es[..k], hash).table[issuer]
    decreases |es|
  {
    if k == |es| {
      assert es[..k] == es;
    } else {
      var front, last := es[..|es| - 1], es[|es| - 1];
      assert front[..k] == es[..k];
      assert NotReassigned(front[k..], issuer) && !(last.Upsert? && last.issuer == issuer) by {
        assert front[k..] == es[k..][..|es| - 1 - k];
        assert last == es[k..][|es| - 1 - k];
      }
      RowStable(front, hash, k, issuer);
      RowStep(Run(front, hash), last, hash, issuer);
    }
  }

  /** Without reassignments every call for an issuer returns the same shard, whatever shard lists the
      processes have: the shard in the issuer's row. */
  lemma AllAgree(es: seq<Event>, hash: Issuer -> nat, a: CallId, b: CallId)
    requires HasReturned(Run(es, hash), a) && HasReturned(Run(es, hash), b)
    requires Run(es, hash).calls[a].issuer == Run(es, hash).calls[b].issuer
    requires NotReassigned(es, Run(es, hash).calls[a].issuer)
    ensures Run(es, hash).calls[a].phase.shard == Run(es, hash).calls[b].phase.shard
  {
    ReturnsCurrentRow(es, hash, a);
    ReturnsCurrentRow(es, hash, b);
    var ca, cb := Run(es, hash).calls[a], Run(es, hash).calls[b];
    RowStable(es, hash, ca.phase.at, ca.issuer);
    RowStable(es, hash, cb.phase.at, cb.issuer);
  }

  lemma UpsertSets(es: seq<Event>, hash: Issuer -> nat, k: nat)
    requires k < |es| && es[k].Upsert?
    ensures var t := Run(es[..k + 1], hash).table; es[k].issuer in t && t[es[k].issuer] == es[k].shard
  {
    RunSnoc(es, hash, k);
  }

  /** A call that begins after a reassignment returns the new shard, unless another reassignment of the
      same issuer follows. */
  lemma ReassignmentHolds(es: seq<Event>, hash: Issuer -> nat, k: nat, call: CallId)
    requires k < |es| && es[k].Upsert? && HasReturned(Run(es, hash), call)
    requires Run(es, hash).calls[call].issuer == es[k].issuer && Run(es, hash).calls[call].begun > k
    requires NotReassigned(es[k + 1..], es[k].issuer)
    ensures Run(es, hash).calls[call].phase.shard == es[k].shard
  {
    ReturnsCurrentRow(es, hash, call);
    var at := Run(es, hash).calls[call].phase.at;
    var upTo := es[..at];
    assert upTo[..k + 1] == es[..k + 1];
    UpsertSets(es, hash, k);
    assert NotReassigned(upTo[k + 1..], es[k].issuer) by {
      assert upTo[k + 1..] == es[k + 1..][..at - k - 1];
    }
    RowStable(upTo, hash, k + 1, es[k].issuer);
  }

  predicate SameShards(es: seq<Event>, issuer: Issuer, shards: seq<Shard>) {
    forall k :: 0 <= k < |es| && es[k].Begin? && es[k].issuer == issuer ==> es[k].shards == shards
  }

  /** The hash decides everything about an issuer. */
  ghost predicate Hashed(s: State, hash: Issuer -> nat, issuer: Issuer, shards: seq<Shard>)
    requires shards != []
  {
    && (issuer in s.table ==> s.table[issuer] == Candidate(hash, issuer, shards))
    && (forall call :: call in s.calls && s.calls[call].issuer == issuer ==>
          s.calls[call].shards == shards
          && (s.calls[call].phase.Returned? ==> s.calls[call].phase.shard == Candidate(hash, issuer, shards)))
  }

  lemma StepKeepsHashed(s: State, e: Event, hash: Issuer -> nat, issuer: Issuer, shards: seq<Shard>)
    requires shards != [] && Hashed(s, hash, issuer, shards)
    requires !(e.Upsert? && e.issuer == issuer) && (e.Begin? && e.issuer == issuer ==> e.shards == shards)
    ensures Hashed(Step(s, e, hash), hash, issuer, shards)
  {
  }

  /** When all processes agree on the shard list, the answer is the hash candidate, no matter which
      call wins the race to insert. */
  lemma {:induction false} HashDecides(es: seq<Event>, hash: Issuer -> nat, issuer: Issuer, shards: seq<Shard>)
    requires shards != [] && SameShards(es, issuer, shards) && NotReassigned(es, issuer)
    ensures Hashed(Run(es, hash), hash, issuer, shards)
    ensures forall call :: HasReturned(Run(es, hash), call) && Run(es, hash).calls[call].issuer == issuer ==>
      Run(es, hash).calls[call].phase.shard == shards[hash(issuer) % |shards|]
  {
    if es != [] {
      HashDecides(es[..|es| - 1], hash, issuer, shards);
      StepKeepsHashed(Run(es[..|es| - 1], hash), es[|es| - 1], hash, issuer, shards);
    }
  }

  // ---- the assigner, each call run alone -----------------------------------------------------------

  class ShardAssigner {
    var table: Table
    const shards: seq<Shard>

    ghost predicate Valid() { shards != [] }

    constructor (shards: seq<Shard>)
      requires shards != []
      ensures Valid() && this.shards == shards && table == map[]
    {
      this.shards := shards;
      table := map[];
    }

    /** A known issuer keeps its shard and the table; a new one gets the candidate, for good. */
    method AssignOrLookup(issuer: Issuer, hash: Issuer -> nat) returns (r: Shard)
      requires Valid()
      modifies this
      ensures issuer in table && r == table[issuer]
      ensures issuer in old(table) ==> table == old(table)
      ensures issuer !in old(table) ==> table == old(table)[issuer := shards[hash(issuer) % |shards|]]
    {
      if issuer in table {
        return table[issuer];
      }
      var candidate := shards[hash(issuer) % |shards|];
      table := InsertOrNothing(table, issuer, candidate);
      return table[issuer];
    }

    method Reassign(issuer: Issuer, shard: Shard) returns (was: Shard)
      modifies this
      ensures table == old(table)[issuer := shard]
      ensures was == if issuer in old(table) then old(table)[issuer] else ""
    {
      was := if issuer in table then table[issuer] else "";
      table := table[issuer := shard];
    }
  }
}
