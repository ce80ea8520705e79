/** One decoy pass over one list, run alone: samples with replacement against one snapshot.
    (Decoy interleaves passes with real traffic.) */
module Noiser {
  import opened Prelude
  import opened StatusList
  import BitmapStore
  import opened MetaStore
  import Allocator
  import opened Decoy
  import LongWalks
  import SixBits

  /** A sampled entry and the coin of its flip. */
  datatype Draw = Draw(idx: nat, coin: bool)

  /** The value a draw writes, if it writes at all: the flip is of the snapshot's status, and an
      entry with an allocation row is left alone. */
  function Flip(snap: seq<bv8>, rows: set<nat>, d: Draw): Option<bv8>
    requires d.idx < |snap|
  {
    if d.idx in rows then None else NextDecoyStatus(snap[d.idx], d.coin)
  }

  /** The statuses after one flip. */
  function Applied(cells: seq<bv8>, idx: nat, flip: Option<bv8>, bits: int): (r: seq<bv8>)
    requires ValidBitWidth(bits) && idx < |cells|
    ensures |r| == |cells|
  {
    if flip.Some? then cells[idx := flip.value & Mask(bits)] else cells
  }

  predicate InList(draws: seq<Draw>, size: nat) {
    forall k :: 0 <= k < |draws| ==> draws[k].idx < size
  }

  /** The statuses after a sequence of draws on a list that showed `snap`. */
  function Noised(snap: seq<bv8>, rows: set<nat>, draws: seq<Draw>, bits: int): (r: seq<bv8>)
    requires ValidBitWidth(bits) && InList(draws, |snap|)
    ensures |r| == |snap|
  {
    if draws == [] then snap else
      var before, d := Noised(snap, rows, draws[..|draws| - 1], bits), draws[|draws| - 1];
      Applied(before, d.idx, Flip(snap, rows, d), bits)
  }

  function Flips(snap: seq<bv8>, rows: set<nat>, draws: seq<Draw>): nat
    requires InList(draws, |snap|)
  {
    if draws == [] then 0 else
      Flips(snap, rows, draws[..|draws| - 1]) + (if Flip(snap, rows, draws[|draws| - 1]).Some? then 1 else 0)
  }

  /** An allocated entry keeps its status. */
  lemma {:induction false} AllocatedUntouched(snap: seq<bv8>, rows: set<nat>, draws: seq<Draw>, bits: int, i: nat)
    requires ValidBitWidth(bits) && InList(draws, |snap|) && i < |snap| && i in rows
    ensures Noised(snap, rows, draws, bits)[i] == snap[i]
  {
    if draws != [] {
      AllocatedUntouched(snap, rows, draws[..|draws| - 1], bits, i);
    }
  }

  predicate Distinct(draws: seq<Draw>) {
    forall j, k :: 0 <= j < k < |draws| ==> draws[j].idx != draws[k].idx
  }

  lemma {:induction false} NotDrawn(snap: seq<bv8>, rows: set<nat>, draws: seq<Draw>, bits: int, i: nat)
    requires ValidBitWidth(bits) && InList(draws, |snap|) && i < |snap|
    requires forall k :: 0 <= k < |draws| ==> draws[k].idx != i
    ensures Noised(snap, rows, draws, bits)[i] == snap[i]
  {
    if draws != [] {
      NotDrawn(snap, rows, draws[..|draws| - 1], bits, i);
    }
  }

  /** With distinct samples an entry moves at most once in a pass, so an INVALID decoy stays INVALID
      to the end of the pass, whenever it became so. */
  lemma {:induction false} InvalidIsFinal(snap: seq<bv8>, rows: set<nat>, draws: seq<Draw>, bits: int, i: nat, j: nat)
    requires ValidBitWidth(bits) && InList(draws, |snap|) && Distinct(draws) && i < |snap| && j <= |draws|
    requires Noised(snap, rows, draws[..j], bits)[i] == INVALID
    ensures Noised(snap, rows, draws, bits)[i] == INVALID
  {
    if j < |draws| {
      var front, d := draws[..|draws| - 1], draws[|draws| - 1];
      assert front[..j] == draws[..j];
      InvalidIsFinal(snap, rows, front, bits, i, j);
      if d.idx == i {
        NotDrawn(snap, rows, front, bits, i);
      }
    } else {
      assert draws[..j] == draws;
    }
  }

  /** Without distinctness it fails, and exactly so: the next draw unsettles an INVALID decoy iff it
      samples that entry again, the snapshot showed it VALID, and the coin says SUSPENDED. */
  lemma RedrawExact(snap: seq<bv8>, rows: set<nat>, draws: seq<Draw>, bits: int)
    requires ValidBitWidth(bits) && draws != [] && InList(draws, |snap|)
    requires var d := draws[|draws| - 1]; Noised(snap, rows, draws[..|draws| - 1], bits)[d.idx] == INVALID
    ensures var d := draws[|draws| - 1];
      Noised(snap, rows, draws, bits)[d.idx] != INVALID <==> d.idx !in rows && snap[d.idx] == VALID && !d.coin
  {
    var d := draws[|draws| - 1];
    if snap[d.idx] == SUSPENDED {
      SuspendedNeverInvalid(snap, rows, draws[..|draws| - 1], bits, d.idx);
    }
    assert INVALID & Mask(bits) == INVALID && SUSPENDED & Mask(bits) != INVALID;
  }

  lemma {:induction false} SuspendedNeverInvalid(snap: seq<bv8>, rows: set<nat>, draws: seq<Draw>, bits: int, i: nat)
    requires ValidBitWidth(bits) && InList(draws, |snap|) && i < |snap| && snap[i] == SUSPENDED
    ensures Noised(snap, rows, draws, bits)[i] == SUSPENDED || Noised(snap, rows, draws, bits)[i] == VALID
  {
    if draws != [] {
      SuspendedNeverInvalid(snap, rows, draws[..|draws| - 1], bits, i);
      assert VALID & Mask(bits) == VALID;
    }
  }

  /** One draw, entry by entry: an entry without a row moves from VALID to INVALID or SUSPENDED by the coin,
      and from SUSPENDED back to VALID by the coin; nothing else moves. (At one bit SUSPENDED reads as
      VALID.) */
  lemma OneDraw(snap: seq<bv8>, rows: set<nat>, d: Draw, bits: int, i: nat)
    requires ValidBitWidth(bits) && d.idx < |snap| && i < |snap|
    ensures Noised(snap, rows, [d], bits)[i] ==
      if i != d.idx || i in rows then snap[i]
      else if snap[i] == 0 then (if d.coin then 1 else if bits >= 2 then 2 else 0)
      else if snap[i] == 2 && d.coin then 0
      else snap[i]
  {
    assert [d][..0] == [];
    assert VALID & Mask(bits) == VALID && INVALID & Mask(bits) == INVALID;
    assert SUSPENDED & Mask(bits) == if bits >= 2 then SUSPENDED else VALID;
  }

  /** A concrete pass that turns a fresh decoy from INVALID to SUSPENDED. */
  lemma RepeatUnsettles()
    ensures var draws := [Draw(0, true), Draw(0, false)];
      && Noised([VALID], {}, draws[..1], 2)[0] == INVALID
      && Noised([VALID], {}, draws, 2)[0] == SUSPENDED
  {
    var draws := [Draw(0, true), Draw(0, false)];
    assert draws[..1] == [Draw(0, true)] && draws[..1][..0] == [];
    assert Noised([VALID], {}, draws[..1], 2) == [INVALID];
  }

  /** The draws come from the random offsets and coins, through the list's index derivation. */
  ghost predicate Sampled(draws: seq<Draw>, derive: nat -> Result<nat, Allocator.Error>, cursor: nat,
                          offsets: seq<nat>, coins: seq<bool>) {
    |draws| <= |offsets| && |draws| <= |coins|
    && forall k :: 0 <= k < |draws| ==> draws[k].coin == coins[k] && derive(cursor + offsets[k]) == Ok(draws[k].idx)
  }

  /** The pass as the source runs it. The list shows the noised statuses afterwards, and the version has
      moved once per flip. An index that does not converge (or is out of range) ends the pass early.
      The list is marked dirty exactly when the pass went through and wrote something: flips made
      before an early end stay written but unmarked. */
  method SweepList(meta: Store, bitmaps: BitmapStore.Store, id: MetaStore.ListId, lm: ListMeta,
                   offsets: seq<nat>, coins: seq<bool>, derive: nat -> Result<nat, Allocator.Error>)
    returns (r: Result<(), MetaStore.Error>, marked: bool, draws: seq<Draw>)
    requires Fits(lm.size, lm.bits) && |coins| == |offsets|
    modifies bitmaps
    ensures InList(draws, lm.size) && Sampled(draws, derive, lm.cursor, offsets, coins)
    ensures r.Ok? <==> |draws| == |offsets|
    ensures UpToStop(draws, derive, lm.cursor, offsets, lm.size)
    ensures var snap, rows := old(BitmapStore.View(bitmaps.StringOf(id), lm.size, lm.bits)), Rows(meta.Tables(), id);
      && ShowsPass(bitmaps, id, lm.size, lm.bits, snap, rows, draws, old(bitmaps.VersionOf(id)))
      && (marked <==> r.Ok? && Flips(snap, rows, draws) > 0)
    ensures forall other :: other != id ==>
      && bitmaps.StringOf(other) == old(bitmaps.StringOf(other))
      && bitmaps.VersionOf(other) == old(bitmaps.VersionOf(other))
  {
    var snap := ReadStatuses(bitmaps, id, lm.size, lm.bits);
    // Indices are derived from the row alone, so drawing them first changes nothing.
    draws := Sample(derive, lm.cursor, offsets, coins, lm.size);
    var dirty := FlipAll(meta, bitmaps, id, lm.size, lm.bits, snap, draws);
    if |draws| < |offsets| {
      return Err(MetaStore.NoIndex), false, draws;
    }
    return Ok(()), dirty, draws;
  }

  /** A pass that leaves a flip unmarked: on a fresh list with halves of six bits and at least 1000 values out
      of range, sampling positions 0 and 261 writes one decoy and then meets an index that does not converge.
      (`SweepList` makes no other draws on these offsets, and does not mark the list.) */
  lemma FlipStaysUnmarked(size: nat, bits: int, coins: seq<bool>, draws: seq<Draw>)
    requires size >= 1 && Allocator.HalfWidth(size) == 6
      && LongWalks.OutOfRangeCount(size) >= Allocator.MAX_CYCLE_WALKS
    requires Fits(size, bits) && InList(draws, size)
    requires Sampled(draws, TableIndex(size), 0, [0, 261], coins)
    requires UpToStop(draws, TableIndex(size), 0, [0, 261], size)
    ensures |draws| == 1 && Flips(seq(size, _ => VALID), {}, draws) == 1
    ensures draws[0].coin ==> Noised(seq(size, _ => VALID), {}, draws, bits)[0] == INVALID
  {
    var derive := TableIndex(size);
    SecondStops(size);
    assert !StopsAt(derive, 0, size) && StopsAt(derive, 261, size);
    assert [0, 261][0] == 0 && [0, 261][1] == 261;
    OneFlip(size, bits, draws[0]);
    assert draws == [draws[0]];
  }

  lemma SecondStops(size: nat)
    requires size >= 1 && Allocator.HalfWidth(size) == 6
      && LongWalks.OutOfRangeCount(size) >= Allocator.MAX_CYCLE_WALKS
    ensures TableIndex(size)(0) == Ok(0) && TableIndex(size)(261).Err?
  {
    SixBits.SixBitsFail(size);
    SixBits.TablesKeepZero(size);
  }

  lemma OneFlip(size: nat, bits: int, d: Draw)
    requires ValidBitWidth(bits) && size >= 1 && d.idx == 0
    ensures Flips(seq(size, _ => VALID), {}, [d]) == 1
    ensures d.coin ==> Noised(seq(size, _ => VALID), {}, [d], bits)[0] == INVALID
  {
    assert INVALID & Mask(bits) == INVALID;
    assert [d][..0] == [];
  }

  /** The index derivation of a list whose round function is that of the six-bit tables. */
  function TableIndex(size: nat): nat -> Result<nat, Allocator.Error>
    requires size >= 1
  {
    pos => Allocator.Index(Allocator.For(SixBits.Tabled(Allocator.HalfWidth(size)), size), pos)
  }

  /** The list shows the noised statuses, and its version has moved once per flip. */
  predicate ShowsPass(bitmaps: BitmapStore.Store, id: MetaStore.ListId, size: nat, bits: int, snap: seq<bv8>,
                      rows: set<nat>, draws: seq<Draw>, version: nat)
    requires Fits(size, bits) && InList(draws, |snap|)
    reads bitmaps
  {
    && BitmapStore.View(bitmaps.StringOf(id), size, bits) == Noised(snap, rows, draws, bits)
    && bitmaps.VersionOf(id) == version + Flips(snap, rows, draws)
  }

  /** The pass's one snapshot. */
  method ReadStatuses(bitmaps: BitmapStore.Store, id: MetaStore.ListId, size: nat, bits: int) returns (snap: seq<bv8>)
    requires Fits(size, bits)
    ensures snap == BitmapStore.View(bitmaps.StringOf(id), size, bits)
  {
    var raw := bitmaps.Snapshot(id, ByteLen(size, bits));
    snap := Decode(raw, size, bits);
  }

  /** The sampled entries, up to the first position without a usable index. */
  method Sample(derive: nat -> Result<nat, Allocator.Error>, cursor: nat, offsets: seq<nat>, coins: seq<bool>,
                size: nat)
    returns (draws: seq<Draw>)
    requires |coins| == |offsets|
    ensures InList(draws, size) && Sampled(draws, derive, cursor, offsets, coins)
    ensures UpToStop(draws, derive, cursor, offsets, size)
  {
    draws := [];
    while |draws| < |offsets| && !StopsAt(derive, cursor + offsets[|draws|], size)
      invariant InList(draws, size) && Sampled(draws, derive, cursor, offsets, coins)
    {
      draws := draws + [Draw(derive(cursor + offsets[|draws|]).value, coins[|draws|])];
    }
  }

  method FlipAll(meta: Store, bitmaps: BitmapStore.Store, id: MetaStore.ListId, size: nat, bits: int,
                 snap: seq<bv8>, draws: seq<Draw>)
    returns (dirty: bool)
    requires Fits(size, bits) && InList(draws, size)
    requires snap == BitmapStore.View(bitmaps.StringOf(id), size, bits)
    modifies bitmaps
    ensures ShowsPass(bitmaps, id, size, bits, snap, Rows(meta.Tables(), id), draws, old(bitmaps.VersionOf(id)))
    ensures dirty <==> Flips(snap, Rows(meta.Tables(), id), draws) > 0
    ensures forall other :: other != id ==>
      && bitmaps.StringOf(other) == old(bitmaps.StringOf(other))
      && bitmaps.VersionOf(other) == old(bitmaps.VersionOf(other))
  {
    dirty := false;
    ghost var rows := Rows(meta.Tables(), id);
    for k := 0 to |draws|
      invariant ShowsPass(bitmaps, id, size, bits, snap, rows, draws[..k], old(bitmaps.VersionOf(id)))
      invariant dirty <==> Flips(snap, rows, draws[..k]) > 0
      invariant forall other :: other != id ==>
        && bitmaps.StringOf(other) == old(bitmaps.StringOf(other))
        && bitmaps.VersionOf(other) == old(bitmaps.VersionOf(other))
    {
      OneMoreDraw(snap, rows, draws[..k], draws[k], bits);
      assert draws[..k] + [draws[k]] == draws[..k + 1];
      var flipped := FlipOnce(meta, bitmaps, id, size, bits, snap, draws[k], rows);
      dirty := dirty || flipped;
    }
    assert draws[..|draws|] == draws;
  }

  /** The draws go up to the first position without an index, or to the end. */
  ghost predicate UpToStop(draws: seq<Draw>, derive: nat -> Result<nat, Allocator.Error>, cursor: nat,
                           offsets: seq<nat>, size: nat) {
    |draws| < |offsets| ==> StopsAt(derive, cursor + offsets[|draws|], size)
  }

  /** The position has no index in the list. */
  predicate StopsAt(derive: nat -> Result<nat, Allocator.Error>, pos: nat, size: nat) {
    derive(pos).Err? || derive(pos).value >= size
  }

  /** One round of the loop: flip by the snapshot, check the row, write. */
  method FlipOnce(meta: Store, bitmaps: BitmapStore.Store, id: MetaStore.ListId, size: nat, bits: int,
                  snap: seq<bv8>, d: Draw, ghost rows: set<nat>)
    returns (flipped: bool)
    requires Fits(size, bits) && |snap| == size && d.idx < size && rows == Rows(meta.Tables(), id)
    modifies bitmaps
    ensures var flip := Flip(snap, rows, d);
      && flipped == flip.Some?
      && BitmapStore.View(bitmaps.StringOf(id), size, bits)
         == Applied(old(BitmapStore.View(bitmaps.StringOf(id), size, bits)), d.idx, flip, bits)
      && bitmaps.VersionOf(id) == old(bitmaps.VersionOf(id)) + (if flip.Some? then 1 else 0)
    ensures forall other :: other != id ==>
      && bitmaps.StringOf(other) == old(bitmaps.StringOf(other))
      && bitmaps.VersionOf(other) == old(bitmaps.VersionOf(other))
  {
    RowsMember(meta.Tables(), id, d.idx);
    var next := NextDecoyStatus(snap[d.idx], d.coin);
    if next.None? || (id, d.idx) in meta.allocations {
      return false;
    }
    var _ := BitmapStore.WriteStatus(bitmaps, id, d.idx, size, bits, next.value);
    return true;
  }

  lemma OneMoreDraw(snap: seq<bv8>, rows: set<nat>, draws: seq<Draw>, d: Draw, bits: int)
    requires ValidBitWidth(bits) && InList(draws, |snap|) && d.idx < |snap|
    ensures Noised(snap, rows, draws + [d], bits)
         == Applied(Noised(snap, rows, draws, bits), d.idx, Flip(snap, rows, d), bits)
    ensures Flips(snap, rows, draws + [d]) == Flips(snap, rows, draws) + (if Flip(snap, rows, d).Some? then 1 else 0)
  {
    assert (draws + [d])[..|draws|] == draws;
  }

  lemma RowsMember(db: Db, id: MetaStore.ListId, idx: nat)
    ensures idx in Rows(db, id) <==> (id, idx) in db.allocations
  {
  }
}
