/** The packed status list of section 4.1 of draft-ietf-oauth-status-list-21:
    entries of 1, 2, 4 or 8 bits, packed from the least significant bit of byte 0 up. */
module StatusList {
  import opened Prelude

  const VALID: bv8 := 0
  const INVALID: bv8 := 1
  const SUSPENDED: bv8 := 2

  const TWO_64: nat := 0x1_0000_0000_0000_0000

  predicate ValidBitWidth(bits: int) {
    bits == 1 || bits == 2 || bits == 4 || bits == 8
  }

  /** The sizes for which no 64-bit product or sum in the source wraps around. */
  predicate Fits(size: nat, bits: int) {
    ValidBitWidth(bits) && size * bits + 7 < TWO_64
  }

  /** Number of bytes the source allocates: `(size*bits + 7) / 8` in 64-bit arithmetic. */
  function ByteLen(size: nat, bits: int): nat
    requires ValidBitWidth(bits)
  {
    ((size * bits) % TWO_64 + 7) % TWO_64 / 8
  }

  /** Byte index and bit offset of an entry, in 64-bit arithmetic. */
  function ByteOffset(idx: nat, bits: int): (nat, nat)
    requires ValidBitWidth(bits)
  {
    var p := (idx * bits) % TWO_64;
    (p / 8, p % 8)
  }

  /** The largest value of a `bits`-wide field. */
  function Mask(bits: int): bv8
    requires ValidBitWidth(bits)
  {
    if bits == 1 then 1 else if bits == 2 then 3 else if bits == 4 then 15 else 255
  }

  /** `Mask` is the source's `1 << bits - 1` on bytes (for 8 bits the subtraction wraps to 255). */
  lemma MaskIsShift(bits: int)
    requires ValidBitWidth(bits)
    ensures Mask(bits) == ((1 as bv8) << bits) - 1
  {
  }

  predicate IsOffset(offset: int, bits: int) {
    && ValidBitWidth(bits)
    && 0 <= offset < 8
    && (bits == 2 ==> offset % 2 == 0)
    && (bits == 4 ==> offset % 4 == 0)
    && (bits == 8 ==> offset == 0)
  }

  /** A bit offset as a shift amount. */
  function Shift(offset: int): bv8
    requires 0 <= offset < 8
  {
    if offset == 0 then 0 else if offset == 1 then 1 else if offset == 2 then 2 else if offset == 3 then 3
    else if offset == 4 then 4 else if offset == 5 then 5 else if offset == 6 then 6 else 7
  }

  /** The field of width `bits` at `offset` of byte `b`. */
  function Field(b: bv8, offset: int, bits: int): bv8
    requires IsOffset(offset, bits)
  {
    Take(b, Shift(offset), Mask(bits))
  }

  /** Byte `b` with the field at `offset` replaced by `v`. */
  function PutField(b: bv8, offset: int, bits: int, v: bv8): bv8
    requires IsOffset(offset, bits)
  {
    Put(b, Shift(offset), Mask(bits), v)
  }

  // The same two operations, and the laws behind them, on bit-vectors alone.

  function Take(b: bv8, s: bv8, m: bv8): bv8
    requires s < 8
  {
    (b >> s) & m
  }

  function Put(b: bv8, s: bv8, m: bv8, v: bv8): bv8
    requires s < 8
  {
    (b & !(m << s)) | (v << s)
  }

  /** The masks and shifts that occur. */
  predicate Slot(s: bv8, m: bv8) {
    s < 8 && (m == 1 || (m == 3 && s & 1 == 0) || (m == 15 && s & 3 == 0) || (m == 255 && s == 0))
  }

  lemma PutTake(b: bv8, s: bv8, m: bv8, v: bv8)
    requires Slot(s, m) && v <= m
    ensures Take(Put(b, s, m, v), s, m) == v
  {
  }

  lemma PutTakeOther(b: bv8, s: bv8, t: bv8, m: bv8, v: bv8)
    requires Slot(s, m) && Slot(t, m) && s != t && v <= m
    ensures Take(Put(b, s, m, v), t, m) == Take(b, t, m)
  {
  }

  lemma IsSlot(offset: int, bits: int)
    requires IsOffset(offset, bits)
    ensures Slot(Shift(offset), Mask(bits))
  {
    assert bits == 2 ==> offset == 0 || offset == 2 || offset == 4 || offset == 6;
    assert bits == 4 ==> offset == 0 || offset == 4;
  }

  lemma ShiftsDiffer(o: int, p: int)
    requires 0 <= o < 8 && 0 <= p < 8 && o != p
    ensures Shift(o) != Shift(p)
  {
  }

  /** The written field reads back. */
  lemma PutFieldReads(b: bv8, bits: int, o: int, v: bv8)
    requires IsOffset(o, bits)
    requires v <= Mask(bits)
    ensures Field(PutField(b, o, bits, v), o, bits) == v
  {
    IsSlot(o, bits);
    PutTake(b, Shift(o), Mask(bits), v);
  }

  /** The neighbours that share the byte keep their values. */
  lemma PutFieldKeeps(b: bv8, bits: int, o: int, p: int, v: bv8)
    requires IsOffset(o, bits) && IsOffset(p, bits) && o != p
    requires v <= Mask(bits)
    ensures Field(PutField(b, o, bits, v), p, bits) == Field(b, p, bits)
  {
    IsSlot(o, bits);
    IsSlot(p, bits);
    ShiftsDiffer(o, p);
    PutTakeOther(b, Shift(o), Shift(p), Mask(bits), v);
  }

  // ---- the same bytes as numbers ---------------------------------------------------------------

  /** A byte is twice its upper seven bits plus the lowest. */
  lemma Halved(b: bv8)
    ensures (b >> 1) as int == b as int / 2 && (b & 1) as int == b as int % 2
  {
  }

  lemma DivideTwice(x: nat, p: nat)
    requires p >= 1
    ensures x / (2 * p) == x / 2 / p && x % (2 * p) == 2 * (x / 2 % p) + x % 2
  {
    var y := x / 2;
    var q, r := y / p, y % p;
    assert x == 2 * p * q + (2 * r + x % 2) && 0 <= 2 * r + x % 2 < 2 * p;
    Quotient(x, 2 * p, q, 2 * r + x % 2);
  }

  lemma Quotient(x: nat, d: nat, q: nat, r: nat)
    requires r < d && x == d * q + r
    ensures x / d == q && x % d == r
  {
    var k := x / d;
    assert x == d * k + x % d;
    assert k < q ==> d * (k + 1) <= d * q;
    assert k > q ==> d * (q + 1) <= d * k;
  }

  /** Shifting right by o is dividing by 2^o. */
  lemma {:induction false} ShiftDivides(b: bv8, s: bv8, o: nat)
    requires s <= 8 && o == s as int
    ensures (b >> s) as int == b as int / Pow2(o)
    decreases o
  {
    if o != 0 {
      ShiftDivides(b >> 1, s - 1, o - 1);
      ShiftOnce(b, s);
      Halved(b);
      DivideTwice(b as int, Pow2(o - 1));
    }
  }

  lemma ShiftOnce(b: bv8, s: bv8)
    requires 0 < s <= 8
    ensures b >> s == (b >> 1) >> (s - 1) && (s - 1) as int == s as int - 1
  {
  }

  /** Keeping the lowest k bits is the remainder by 2^k. */
  lemma {:induction false} MaskRemains(b: bv8, m: bv8, k: nat)
    requires k <= 8 && m as int == Pow2(k) - 1
    ensures (b & m) as int == b as int % Pow2(k)
  {
    if k == 0 {
      MaskNone(b, m);
    } else {
      MaskOnce(b, m, k);
      MaskRemains(b >> 1, m >> 1, k - 1);
      MaskHalves(b, b & m, (b >> 1) & (m >> 1), Pow2(k - 1));
    }
  }

  lemma MaskHalves(b: bv8, x: bv8, h: bv8, p: nat)
    requires p >= 1 && x >> 1 == h && x & 1 == b & 1 && h as int == (b >> 1) as int % p
    ensures x as int == b as int % (2 * p)
  {
    assert x as int / 2 == h as int && x as int % 2 == b as int % 2 by {
      Halved(x);
      Halved(b);
    }
    assert h as int == b as int / 2 % p by { Halved(b); }
    DivideTwice(b as int, p);
  }

  lemma MaskNone(b: bv8, m: bv8)
    requires m as int == 0
    ensures b & m == 0
  {
  }

  lemma MaskOnce(b: bv8, m: bv8, k: nat)
    requires 1 <= k <= 8 && m as int == Pow2(k) - 1
    ensures (b & m) >> 1 == (b >> 1) & (m >> 1) && (b & m) & 1 == b & 1 && (m >> 1) as int == Pow2(k - 1) - 1
  {
    Halved(m);
    OddMask(b, m);
  }

  lemma OddMask(b: bv8, m: bv8)
    requires m & 1 == 1
    ensures (b & m) >> 1 == (b >> 1) & (m >> 1) && (b & m) & 1 == b & 1
  {
  }

  lemma ShiftIs(o: int)
    requires 0 <= o < 8
    ensures Shift(o) as int == o
  {
  }

  lemma MaskIs(bits: int)
    requires ValidBitWidth(bits)
    ensures Mask(bits) as int == Pow2(bits) - 1
  {
    assert Pow2(4) == 16;
    assert bits == 8 ==> Pow2(bits) == 16 * Pow2(4);
  }

  /** The least significant bit comes first: the field at offset o is the byte divided by 2^o, modulo
      2^bits. */
  lemma FieldNumber(b: bv8, o: int, bits: int)
    requires IsOffset(o, bits)
    ensures Field(b, o, bits) as int == b as int / Pow2(o) % Pow2(bits)
  {
    ShiftIs(o);
    MaskIs(bits);
    TakeNumber(b, Shift(o), Mask(bits), o, bits);
  }

  lemma TakeNumber(b: bv8, s: bv8, m: bv8, o: nat, bits: nat)
    requires s < 8 && o == s as int && bits <= 8 && m as int == Pow2(bits) - 1
    ensures Take(b, s, m) as int == b as int / Pow2(o) % Pow2(bits)
  {
    ShiftDivides(b, s, o);
    MaskRemains(b >> s, m, bits);
  }

  /** Byte x holds v at offset o and agrees with byte b above and below the field. */
  ghost predicate OnlyField(x: nat, b: nat, o: nat, bits: nat, v: nat) {
    && x / Pow2(o) % Pow2(bits) == v
    && x / Pow2(o + bits) == b / Pow2(o + bits)
    && x % Pow2(o) == b % Pow2(o)
  }

  /** What a written byte is, as a number. */
  lemma PutFieldNumber(b: bv8, o: int, bits: int, v: bv8)
    requires IsOffset(o, bits) && v <= Mask(bits)
    ensures OnlyField(PutField(b, o, bits, v) as int, b as int, o, bits, v as int)
  {
    PutFieldReads(b, bits, o, v);
    FieldNumber(PutField(b, o, bits, v), o, bits);
    PutFieldAbove(b, o, bits, v);
    PutFieldBelow(b, o, bits, v);
  }

  lemma PutFieldAbove(b: bv8, o: int, bits: int, v: bv8)
    requires IsOffset(o, bits) && v <= Mask(bits)
    ensures PutField(b, o, bits, v) as int / Pow2(o + bits) == b as int / Pow2(o + bits)
  {
    IsSlot(o, bits);
    TopIs(o, bits);
    PutAbove(b, Shift(o), Mask(bits), Width(bits), v);
    SameAbove(PutField(b, o, bits, v), b, Shift(o) + Width(bits), o + bits);
  }

  lemma SameAbove(x: bv8, b: bv8, t: bv8, k: nat)
    requires t <= 8 && k == t as int && x >> t == b >> t
    ensures x as int / Pow2(k) == b as int / Pow2(k)
  {
    ShiftDivides(x, t, k);
    ShiftDivides(b, t, k);
  }

  function Width(bits: int): bv8
    requires ValidBitWidth(bits)
  {
    if bits == 1 then 1 else if bits == 2 then 2 else if bits == 4 then 4 else 8
  }

  lemma TopIs(o: int, bits: int)
    requires IsOffset(o, bits)
    ensures Shift(o) + Width(bits) <= 8 && (Shift(o) + Width(bits)) as int == o + bits
  {
    ShiftIs(o);
  }

  lemma PutAbove(b: bv8, s: bv8, m: bv8, w: bv8, v: bv8)
    requires Slot(s, m) && v <= m && w <= 8 && m == (1 << w) - 1
    ensures s + w <= 8 && Put(b, s, m, v) >> (s + w) == b >> (s + w)
  {
  }

  lemma PutFieldBelow(b: bv8, o: int, bits: int, v: bv8)
    requires IsOffset(o, bits) && v <= Mask(bits)
    ensures PutField(b, o, bits, v) as int % Pow2(o) == b as int % Pow2(o)
  {
    IsSlot(o, bits);
    LowIs(o);
    PutBelow(b, Shift(o), Mask(bits), v);
    SameBelow(PutField(b, o, bits, v), b, (1 << Shift(o)) - 1, o);
  }

  lemma SameBelow(x: bv8, b: bv8, m: bv8, k: nat)
    requires k <= 8 && m as int == Pow2(k) - 1 && x & m == b & m
    ensures x as int % Pow2(k) == b as int % Pow2(k)
  {
    MaskRemains(x, m, k);
    MaskRemains(b, m, k);
  }

  lemma LowIs(o: int)
    requires 0 <= o < 8
    ensures (((1 as bv8) << Shift(o)) - 1) as int == Pow2(o) - 1
  {
    assert Pow2(4) == 16;
    assert o == 5 ==> Pow2(o) == 2 * Pow2(4);
    assert o == 6 ==> Pow2(o) == 4 * Pow2(4);
    assert o == 7 ==> Pow2(o) == 8 * Pow2(4);
  }

  lemma PutBelow(b: bv8, s: bv8, m: bv8, v: bv8)
    requires Slot(s, m) && v <= m
    ensures Put(b, s, m, v) & ((1 << s) - 1) == b & ((1 << s) - 1)
  {
  }

  lemma SmallMod(p: nat)
    requires p < TWO_64
    ensures p % TWO_64 == p
  {
  }

  lemma Scaled(i: nat, j: nat, bits: int)
    requires ValidBitWidth(bits)
    ensures i < j ==> i * bits + bits <= j * bits
  {
    if bits == 1 {
    } else if bits == 2 {
    } else if bits == 4 {
    }
  }

  lemma Aligned(idx: nat, bits: int)
    requires ValidBitWidth(bits)
    ensures IsOffset(idx * bits % 8, bits)
  {
    if bits == 2 {
      assert 2 * idx % 8 == 2 * (idx % 4);
    } else if bits == 4 {
      assert 4 * idx % 8 == 4 * (idx % 2);
    } else if bits == 8 {
      assert 8 * idx % 8 == 0;
    }
  }

  /** Within the 64-bit range every entry lies inside the allocated bytes, aligned to its width. */
  lemma OffsetInRange(idx: nat, size: nat, bits: int)
    requires Fits(size, bits) && idx < size
    ensures ByteOffset(idx, bits) == (idx * bits / 8, idx * bits % 8)
    ensures ByteOffset(idx, bits).0 < ByteLen(size, bits)
    ensures IsOffset(ByteOffset(idx, bits).1, bits)
  {
    var p, q := idx * bits, size * bits;
    Scaled(idx, size, bits);
    Aligned(idx, bits);
    SmallMod(p);
    SmallMod(q);
    SmallMod(q + 7);
    assert p / 8 < (q + 7) / 8;
  }

  /** No two entries share a field. */
  lemma OffsetsDistinct(i: nat, j: nat, size: nat, bits: int)
    requires Fits(size, bits) && i < size && j < size && i != j
    ensures ByteOffset(i, bits) != ByteOffset(j, bits)
  {
    OffsetInRange(i, size, bits);
    OffsetInRange(j, size, bits);
    if bits == 1 {
    } else if bits == 2 {
    } else if bits == 4 {
    }
  }

  /** The byte count is the rounded-up one exactly when nothing wraps around. */
  lemma ByteLenExact(size: nat, bits: int)
    requires ValidBitWidth(bits)
    ensures ByteLen(size, bits) == (size * bits + 7) / 8 <==> Fits(size, bits)
  {
    var p := size * bits;
    if p + 7 >= TWO_64 {
      assert ((p % TWO_64) + 7) % TWO_64 / 8 < TWO_64 / 8;
    }
  }

  /** The abstract value of a packed list: one status per entry. */
  function Decode(data: seq<bv8>, size: nat, bits: int): (s: seq<bv8>)
    requires Fits(size, bits) && |data| == ByteLen(size, bits)
    ensures |s| == size
  {
    seq(size, i requires 0 <= i < size => Entry(data, i, size, bits))
  }

  function Entry(data: seq<bv8>, idx: nat, size: nat, bits: int): bv8
    requires Fits(size, bits) && |data| == ByteLen(size, bits) && idx < size
  {
    OffsetInRange(idx, size, bits);
    var (byteIndex, bitOffset) := ByteOffset(idx, bits);
    Field(data[byteIndex], bitOffset, bits)
  }

  /** The packed list with one entry rewritten. */
  function SetEntry(data: seq<bv8>, idx: nat, size: nat, bits: int, v: bv8): (r: seq<bv8>)
    requires Fits(size, bits) && |data| == ByteLen(size, bits) && idx < size
    ensures |r| == |data|
  {
    OffsetInRange(idx, size, bits);
    var (byteIndex, bitOffset) := ByteOffset(idx, bits);
    data[byteIndex := PutField(data[byteIndex], bitOffset, bits, v)]
  }

  /** Refinement: rewriting one packed entry is updating one element of the abstract list. */
  lemma SetEntryRefines(data: seq<bv8>, idx: nat, size: nat, bits: int, v: bv8)
    requires Fits(size, bits) && |data| == ByteLen(size, bits) && idx < size
    requires v <= Mask(bits)
    ensures Decode(SetEntry(data, idx, size, bits, v), size, bits) == Decode(data, size, bits)[idx := v]
  {
    var data' := SetEntry(data, idx, size, bits, v);
    OffsetInRange(idx, size, bits);
    var (bi, o) := ByteOffset(idx, bits);
    forall j | 0 <= j < size
      ensures Entry(data', j, size, bits) == if j == idx then v else Entry(data, j, size, bits)
    {
      OffsetInRange(j, size, bits);
      var (bj, p) := ByteOffset(j, bits);
      if j == idx {
        PutFieldReads(data[bi], bits, o, v);
      } else if bj == bi {
        OffsetsDistinct(idx, j, size, bits);
        PutFieldKeeps(data[bi], bits, o, p, v);
      }
    }
  }

  /** The packing, as numbers: entry i is the field of width `bits` that starts at bit i * bits, counted
      from the least significant bit of byte 0. */
  lemma DecodeNumber(data: seq<bv8>, size: nat, bits: int, i: nat)
    requires Fits(size, bits) && |data| == ByteLen(size, bits) && i < size
    ensures var p := i * bits;
      0 <= p / 8 < |data|
      && Decode(data, size, bits)[i] as int == data[p / 8] as int / Pow2(p % 8) % Pow2(bits)
  {
    OffsetInRange(i, size, bits);
    FieldNumber(data[i * bits / 8], i * bits % 8, bits);
  }

  /** The bytes after entry `idx` was given value v: one field of one byte has changed. */
  ghost predicate OnlyEntry(was: seq<bv8>, now: seq<bv8>, idx: nat, bits: nat, v: nat) {
    var p := idx * bits;
    && |now| == |was| && p / 8 < |was|
    && OnlyField(now[p / 8] as int, was[p / 8] as int, p % 8, bits, v)
    && forall j :: 0 <= j < |was| && j != p / 8 ==> now[j] == was[j]
  }

  lemma SetEntryNumber(data: seq<bv8>, idx: nat, size: nat, bits: int, v: bv8)
    requires Fits(size, bits) && |data| == ByteLen(size, bits) && idx < size && v <= Mask(bits)
    ensures OnlyEntry(data, SetEntry(data, idx, size, bits, v), idx, bits, v as int)
  {
    OffsetInRange(idx, size, bits);
    PutFieldNumber(data[idx * bits / 8], idx * bits % 8, bits, v);
  }

  function Zeros(n: nat): (s: seq<bv8>)
    ensures |s| == n && forall i :: 0 <= i < n ==> s[i] == 0
  {
    seq(n, _ => 0)
  }

  /** A zero-filled list decodes to VALID everywhere. */
  lemma ZerosDecode(size: nat, bits: int)
    requires Fits(size, bits)
    ensures Decode(Zeros(ByteLen(size, bits)), size, bits) == Zeros(size)
  {
    forall i | 0 <= i < size
      ensures Entry(Zeros(ByteLen(size, bits)), i, size, bits) == 0
    {
      OffsetInRange(i, size, bits);
      assert Field(0, ByteOffset(i, bits).1, bits) == 0;
    }
  }

  /** A reader that knows only the bytes and the width recovers a size the wrapper accepts,
      at least the true one, and decodes every true entry to the same status. */
  lemma ReaderDecodesSame(data: seq<bv8>, size: nat, bits: int)
    requires Fits(size, bits) && |data| == ByteLen(size, bits)
    ensures var n := |data| * 8 / bits;
      && Fits(n, bits) && ByteLen(n, bits) == |data| && size <= n
      && Decode(data, n, bits)[..size] == Decode(data, size, bits)
  {
    var n := |data| * 8 / bits;
    ByteLenExact(size, bits);
    WholeBytes(|data|, bits);
    ByteLenExact(n, bits);
    assert size <= n by { Scaled(n, size, bits); }
    assert forall i :: 0 <= i < size ==> Entry(data, i, n, bits) == Entry(data, i, size, bits);
  }

  lemma WholeBytes(len: nat, bits: int)
    requires ValidBitWidth(bits)
    ensures len * 8 / bits * bits == len * 8
  {
    if bits == 1 {
    } else if bits == 2 {
      assert len * 8 / 2 == len * 4;
    } else if bits == 4 {
      assert len * 8 / 4 == len * 2;
    } else {
      assert len * 8 / 8 == len;
    }
  }

  /** The three named statuses survive the mask exactly when the width is at least two. */
  lemma NamedStatusesFit(bits: int)
    requires ValidBitWidth(bits)
    ensures bits >= 2 <==> VALID & Mask(bits) == VALID && INVALID & Mask(bits) == INVALID
                           && SUSPENDED & Mask(bits) == SUSPENDED
    ensures SUSPENDED & Mask(1) == VALID
  {
  }

  datatype Error = BadWidth | BadSize | BadLength | OutOfRange | DoesNotFit

  /** The in-memory bitmap, updated in place. */
  class Bitmap {
    const bits: int
    const size: nat
    const data: array<bv8>

    ghost predicate Valid()
    {
      Fits(size, bits) && data.Length == ByteLen(size, bits)
    }

    /** The statuses the bytes stand for. */
    ghost function Contents(): seq<bv8>
      requires Valid()
      reads data
    {
      Decode(data[..], size, bits)
    }

    constructor (data: array<bv8>, size: nat, bits: int)
      ensures this.data == data && this.size == size && this.bits == bits
    {
      this.data, this.size, this.bits := data, size, bits;
    }

    method Set(idx: nat, status: bv8) returns (r: Result<(), Error>)
      requires Valid()
      modifies data
      ensures idx >= size ==> r == Err(OutOfRange)
      ensures idx < size && status > Mask(bits) ==> r == Err(DoesNotFit)
      ensures idx < size && status <= Mask(bits) ==> r.Ok? && Contents() == old(Contents())[idx := status]
      ensures r.Ok? ==> OnlyEntry(old(data[..]), data[..], idx, bits, status as int)
      ensures r.Err? ==> data[..] == old(data[..])
    {
      if idx >= size {
        return Err(OutOfRange);
      }
      if status > Mask(bits) {
        return Err(DoesNotFit);
      }
      OffsetInRange(idx, size, bits);
      var (byteIndex, bitOffset) := ByteOffset(idx, bits);
      ghost var before := data[..];
      SetEntryRefines(before, idx, size, bits, status);
      SetEntryNumber(before, idx, size, bits, status);
      data[byteIndex] := PutField(data[byteIndex], bitOffset, bits, status);
      assert data[..] == SetEntry(before, idx, size, bits, status);
      return Ok(());
    }

    method Get(idx: nat) returns (r: Result<bv8, Error>)
      requires Valid()
      ensures r == if idx < size then Ok(Contents()[idx]) else Err(OutOfRange)
      ensures idx < size ==> var p := idx * bits;
        0 <= p / 8 < data.Length && r.value as int == data[p / 8] as int / Pow2(p % 8) % Pow2(bits)
    {
      if idx >= size {
        return Err(OutOfRange);
      }
      OffsetInRange(idx, size, bits);
      DecodeNumber(data[..], size, bits, idx);
      var (byteIndex, bitOffset) := ByteOffset(idx, bits);
      return Ok(Field(data[byteIndex], bitOffset, bits));
    }
  }

  /** A fresh bitmap: refused for a bad width or a zero size, all VALID otherwise. */
  method NewBitmap(size: nat, bits: int) returns (r: Result<Bitmap, Error>)
    ensures r.Ok? <==> ValidBitWidth(bits) && size > 0
    ensures r.Ok? && Fits(size, bits) ==>
      fresh(r.value) && fresh(r.value.data) && r.value.Valid()
      && r.value.size == size && r.value.bits == bits && r.value.Contents() == Zeros(size)
  {
    if !ValidBitWidth(bits) {
      return Err(BadWidth);
    }
    if size == 0 {
      return Err(BadSize);
    }
    var data := new bv8[ByteLen(size, bits)](_ => 0);
    var b := new Bitmap(data, size, bits);
    if Fits(size, bits) {
      assert data[..] == Zeros(ByteLen(size, bits));
      ZerosDecode(size, bits);
    }
    return Ok(b);
  }

  /** Wrapping existing bytes: refused unless the length is exactly the expected one. */
  method WrapBitmap(data: array<bv8>, size: nat, bits: int) returns (r: Result<Bitmap, Error>)
    ensures r.Ok? <==> ValidBitWidth(bits) && data.Length == ByteLen(size, bits)
    ensures r.Ok? ==> fresh(r.value) && r.value.data == data && r.value.size == size && r.value.bits == bits
    ensures r.Ok? && Fits(size, bits) ==> r.value.Valid() && r.value.Contents() == Decode(data[..], size, bits)
  {
    if !ValidBitWidth(bits) {
      return Err(BadWidth);
    }
    if data.Length != ByteLen(size, bits) {
      return Err(BadLength);
    }
    var b := new Bitmap(data, size, bits);
    return Ok(b);
  }
}
