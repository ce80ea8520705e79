/** The Redis-backed store: one string of packed bytes and one version counter per list. */
module BitmapStore {
  import opened Prelude
  import opened StatusList

  type ListId = string

  /** A Redis string value; `None` is a missing key. */
  type RedisString = Option<seq<bv8>>

  // ---- the Lua script -------------------------------------------------------------------

  /** The script's byte computation, in the 32-bit words of the Lua bit library. */
  function ScriptByte(b: bv8, bitOffset: int, bits: int, value: bv8): bv32
    requires IsOffset(bitOffset, bits)
  {
    ScriptWord(b, Shift(bitOffset), Mask(bits), value)
  }

  function ScriptWord(b: bv8, s: bv8, m: bv8, value: bv8): bv32
    requires s < 8
  {
    var shift, mask := s as bv32, m as bv32;
    var cleared := (b as bv32) & !(mask << shift);
    cleared | (((value as bv32) & mask) << shift)
  }

  lemma WordLaw(b: bv8, s: bv8, m: bv8, v: bv8)
    requires Slot(s, m)
    ensures ScriptWord(b, s, m, v) == Put(b, s, m, v & m) as bv32
    ensures ScriptWord(b, s, m, v) <= 255
    ensures v <= m ==> ScriptWord(b, s, m, v) == Put(b, s, m, v) as bv32
  {
  }

  /** The script computes the in-memory bitmap's byte, for the value cut down to the field width, hence
      for the value itself when it fits; its result is a byte, so `string.char` accepts it. */
  lemma ScriptByteIsPutField(b: bv8, bitOffset: int, bits: int, value: bv8)
    requires IsOffset(bitOffset, bits)
    ensures ScriptByte(b, bitOffset, bits, value) == PutField(b, bitOffset, bits, value & Mask(bits)) as bv32
    ensures value <= Mask(bits) ==> ScriptByte(b, bitOffset, bits, value) == PutField(b, bitOffset, bits, value) as bv32
    ensures ScriptByte(b, bitOffset, bits, value) <= 255
  {
    IsSlot(bitOffset, bits);
    WordLaw(b, Shift(bitOffset), Mask(bits), value);
  }

  /** The script's byte as a number: the field holds the value modulo 2^bits, the rest is as it was. */
  lemma ScriptByteNumber(b: bv8, bitOffset: int, bits: int, value: bv8)
    requires IsOffset(bitOffset, bits)
    ensures OnlyField(Scripted(b, bitOffset, bits, value) as int, b as int, bitOffset, bits, value as int % Pow2(bits))
  {
    CutNumber(b, bitOffset, bits, value, Scripted(b, bitOffset, bits, value));
  }

  lemma CutNumber(b: bv8, bitOffset: int, bits: int, value: bv8, r: bv8)
    requires IsOffset(bitOffset, bits) && r == PutField(b, bitOffset, bits, value & Mask(bits))
    ensures OnlyField(r as int, b as int, bitOffset, bits, value as int % Pow2(bits))
  {
    ValueNumber(value, bits);
    PutFieldNumber(b, bitOffset, bits, value & Mask(bits));
  }

  lemma ValueNumber(value: bv8, bits: int)
    requires ValidBitWidth(bits)
    ensures (value & Mask(bits)) as int == value as int % Pow2(bits) && value & Mask(bits) <= Mask(bits)
  {
    MaskIs(bits);
    MaskRemains(value, Mask(bits), bits);
    MaskedFits(value, Mask(bits));
  }

  /** The byte the script writes, for the value cut down to the field width. */
  function Scripted(b: bv8, bitOffset: int, bits: int, value: bv8): (r: bv8)
    requires IsOffset(bitOffset, bits)
    ensures r == PutField(b, bitOffset, bits, value & Mask(bits))
  {
    ScriptByteIsPutField(b, bitOffset, bits, value);
    BackToByte(PutField(b, bitOffset, bits, value & Mask(bits)));
    ScriptByte(b, bitOffset, bits, value) as bv8
  }

  lemma BackToByte(b: bv8)
    ensures b as bv32 as bv8 == b
  {
  }

  /** SETRANGE of one byte: past the end the gap is filled with zero bytes. */
  function SetRange(s: seq<bv8>, i: nat, b: bv8): seq<bv8> {
    if i < |s| then s[i := b] else s + Zeros(i - |s|) + [b]
  }

  /** The whole script: GETRANGE, compute, SETRANGE. */
  function RunScript(s: RedisString, byteIdx: nat, bitOffset: int, bits: int, value: bv8): seq<bv8>
    requires IsOffset(bitOffset, bits)
  {
    var raw := if s.None? then [] else s.value;
    var b := if byteIdx < |raw| then raw[byteIdx] else 0;
    SetRange(raw, byteIdx, Scripted(b, bitOffset, bits, value))
  }

  /** A write of `value` at entry `idx` of a list, as every caller addresses it. */
  function WriteEntry(s: RedisString, idx: nat, size: nat, bits: int, value: bv8): RedisString
    requires Fits(size, bits) && idx < size
  {
    OffsetInRange(idx, size, bits);
    var (byteIndex, bitOffset) := ByteOffset(idx, bits);
    Some(RunScript(s, byteIndex, bitOffset, bits, value))
  }

  /** SETNX of a zero-filled string. */
  function InitString(s: RedisString, byteLen: nat): RedisString {
    if s.None? then Some(Zeros(byteLen)) else s
  }

  /** What `Snapshot` returns: missing keys read as zeros, other lengths are padded or cut. */
  function Padded(s: RedisString, byteLen: nat): (r: seq<bv8>)
    ensures |r| == byteLen
  {
    if s.None? then Zeros(byteLen)
    else if |s.value| == byteLen then s.value
    else if |s.value| < byteLen then s.value + Zeros(byteLen - |s.value|)
    else s.value[..byteLen]
  }

  /** The abstract list a Redis string stands for. */
  function View(s: RedisString, size: nat, bits: int): (v: seq<bv8>)
    requires Fits(size, bits)
    ensures |v| == size
  {
    Decode(Padded(s, ByteLen(size, bits)), size, bits)
  }

  /** On the bytes a snapshot returns, the script acts as the in-memory update does, even when
      the key is missing or its string is still short. */
  lemma WriteEntryPadded(s: RedisString, idx: nat, size: nat, bits: int, value: bv8)
    requires Fits(size, bits) && idx < size
    ensures var n := ByteLen(size, bits);
      Padded(WriteEntry(s, idx, size, bits, value), n) == SetEntry(Padded(s, n), idx, size, bits, value & Mask(bits))
  {
    OffsetInRange(idx, size, bits);
    var (byteIndex, bitOffset) := ByteOffset(idx, bits);
    var n := ByteLen(size, bits);
    var b := PutField(Padded(s, n)[byteIndex], bitOffset, bits, value & Mask(bits));
    RunScriptByte(s, n, byteIndex, bitOffset, bits, value);
    SetRangePadded(s, n, byteIndex, b);
  }

  lemma RunScriptByte(s: RedisString, n: nat, byteIdx: nat, bitOffset: int, bits: int, value: bv8)
    requires IsOffset(bitOffset, bits) && byteIdx < n
    ensures var b := PutField(Padded(s, n)[byteIdx], bitOffset, bits, value & Mask(bits));
      RunScript(s, byteIdx, bitOffset, bits, value) == SetRange(if s.None? then [] else s.value, byteIdx, b)
  {
    var b := Padded(s, n)[byteIdx];
    assert Scripted(b, bitOffset, bits, value) == PutField(b, bitOffset, bits, value & Mask(bits));
  }

  lemma SetRangePadded(s: RedisString, n: nat, i: nat, b: bv8)
    requires i < n
    ensures Padded(Some(SetRange(if s.None? then [] else s.value, i, b)), n) == Padded(s, n)[i := b]
  {
  }

  /** Refinement of the store: one write updates one status, cut down to the field width. */
  lemma WriteEntryRefines(s: RedisString, idx: nat, size: nat, bits: int, value: bv8)
    requires Fits(size, bits) && idx < size
    ensures View(WriteEntry(s, idx, size, bits, value), size, bits)
         == View(s, size, bits)[idx := value & Mask(bits)]
  {
    var n := ByteLen(size, bits);
    WriteEntryPadded(s, idx, size, bits, value);
    MaskedFits(value, Mask(bits));
    SetEntryRefines(Padded(s, n), idx, size, bits, value & Mask(bits));
  }

  /** One write as numbers, on the bytes that a snapshot returns. */
  lemma WriteEntryNumber(s: RedisString, idx: nat, size: nat, bits: int, value: bv8)
    requires Fits(size, bits) && idx < size
    ensures var n := ByteLen(size, bits);
      OnlyEntry(Padded(s, n), Padded(WriteEntry(s, idx, size, bits, value), n), idx, bits, value as int % Pow2(bits))
  {
    WriteEntryPadded(s, idx, size, bits, value);
    ValueNumber(value, bits);
    SetEntryNumber(Padded(s, ByteLen(size, bits)), idx, size, bits, value & Mask(bits));
  }

  lemma MaskedFits(v: bv8, m: bv8)
    ensures v & m <= m
  {
  }

  // ---- initialisation may come at any point ----------------------------------------------

  datatype Op = Init | Write(idx: nat, value: bv8)

  predicate InRange(ops: seq<Op>, size: nat) {
    forall i :: 0 <= i < |ops| ==> ops[i].Write? ==> ops[i].idx < size
  }

  /** The string left by a sequence of operations on a key that did not exist. */
  function RunOps(ops: seq<Op>, size: nat, bits: int): RedisString
    requires Fits(size, bits) && InRange(ops, size)
  {
    if ops == [] then None else
      var s := RunOps(ops[..|ops| - 1], size, bits);
      match ops[|ops| - 1]
      case Init => InitString(s, ByteLen(size, bits))
      case Write(idx, value) => WriteEntry(s, idx, size, bits, value)
  }

  /** The list the same writes give on a zero-filled list, ignoring initialisation. */
  function ApplyWrites(ops: seq<Op>, size: nat, bits: int): (s: seq<bv8>)
    requires Fits(size, bits) && InRange(ops, size)
    ensures |s| == size
  {
    if ops == [] then Zeros(size) else
      var s := ApplyWrites(ops[..|ops| - 1], size, bits);
      match ops[|ops| - 1]
      case Init => s
      case Write(idx, value) => s[idx := value & Mask(bits)]
  }

  /** Wherever the initialisations fall among the writes, a snapshot decodes to the same list. */
  lemma {:induction false} InitAnywhere(ops: seq<Op>, size: nat, bits: int)
    requires Fits(size, bits) && InRange(ops, size)
    ensures View(RunOps(ops, size, bits), size, bits) == ApplyWrites(ops, size, bits)
  {
    if ops == [] {
      ZerosDecode(size, bits);
    } else {
      var front, last := ops[..|ops| - 1], ops[|ops| - 1];
      InitAnywhere(front, size, bits);
      if last.Write? {
        WriteEntryRefines(RunOps(front, size, bits), last.idx, size, bits, last.value);
      }
    }
  }

  // ---- the store -------------------------------------------------------------------------

  /** What a key holds. */
  function StringIn(bitmaps: map<ListId, seq<bv8>>, id: ListId): RedisString {
    if id in bitmaps then Some(bitmaps[id]) else None
  }

  function VersionIn(versions: map<ListId, nat>, id: ListId): nat {
    if id in versions then versions[id] else 0
  }

  class Store {
    var bitmaps: map<ListId, seq<bv8>>
    var versions: map<ListId, nat>

    constructor ()
      ensures bitmaps == map[] && versions == map[]
    {
      bitmaps, versions := map[], map[];
    }

    function StringOf(id: ListId): RedisString
      reads this
    {
      StringIn(bitmaps, id)
    }

    function VersionOf(id: ListId): nat
      reads this
    {
      VersionIn(versions, id)
    }

    method Init(id: ListId, byteLen: nat)
      modifies this
      ensures StringOf(id) == InitString(old(StringOf(id)), byteLen)
      ensures StringOf(id) == if old(StringOf(id)).None? then Some(seq(byteLen, _ => 0)) else old(StringOf(id))
      ensures versions == old(versions)
      ensures forall other :: other != id ==> StringOf(other) == old(StringOf(other))
    {
      if id !in bitmaps {
        bitmaps := bitmaps[id := Zeros(byteLen)];
      }
    }

    /** The byte write, then the version bump; other lists are untouched. */
    method SetStatus(id: ListId, byteIndex: nat, bitOffset: int, bits: int, value: bv8) returns (version: nat)
      requires IsOffset(bitOffset, bits)
      modifies this
      ensures StringOf(id) == Some(RunScript(old(StringOf(id)), byteIndex, bitOffset, bits, value))
      ensures version == VersionOf(id) == old(VersionOf(id)) + 1
      ensures forall other :: other != id ==>
        StringOf(other) == old(StringOf(other)) && VersionOf(other) == old(VersionOf(other))
    {
      bitmaps := bitmaps[id := RunScript(StringOf(id), byteIndex, bitOffset, bits, value)];
      version := VersionOf(id) + 1;
      versions := versions[id := version];
    }

    method Snapshot(id: ListId, byteLen: nat) returns (raw: seq<bv8>)
      ensures raw == Padded(StringOf(id), byteLen)
    {
      if id !in bitmaps {
        return Zeros(byteLen);
      }
      raw := bitmaps[id];
      if |raw| != byteLen {
        var padded := new bv8[byteLen](_ => 0);
        var n := if |raw| < byteLen then |raw| else byteLen;
        for i := 0 to n
          invariant padded[..i] == raw[..i]
          invariant forall k :: i <= k < byteLen ==> padded[k] == 0
        {
          padded[i] := raw[i];
        }
        raw := padded[..];
      }
    }

    method Version(id: ListId) returns (version: nat)
      ensures version == VersionOf(id)
    {
      version := if id in versions then versions[id] else 0;
    }

    /** Drops both keys, so the version restarts from 0. */
    method Purge(id: ListId)
      modifies this
      ensures bitmaps == old(bitmaps) - {id} && versions == old(versions) - {id}
      ensures StringOf(id) == None && VersionOf(id) == 0
    {
      bitmaps, versions := bitmaps - {id}, versions - {id};
    }
  }

  /** A status write as every caller makes it: locate the entry, then `SetStatus`. One status of
      one list changes, and its version moves by one. */
  method WriteStatus(store: Store, id: ListId, idx: nat, size: nat, bits: int, value: bv8) returns (version: nat)
    requires Fits(size, bits) && idx < size
    modifies store
    ensures View(store.StringOf(id), size, bits) == old(View(store.StringOf(id), size, bits))[idx := value & Mask(bits)]
    ensures store.StringOf(id) == WriteEntry(old(store.StringOf(id)), idx, size, bits, value)
    ensures version == store.VersionOf(id) == old(store.VersionOf(id)) + 1
    ensures forall other :: other != id ==>
      store.StringOf(other) == old(store.StringOf(other)) && store.VersionOf(other) == old(store.VersionOf(other))
  {
    OffsetInRange(idx, size, bits);
    var (byteIndex, bitOffset) := ByteOffset(idx, bits);
    WriteEntryRefines(store.StringOf(id), idx, size, bits, value);
    version := store.SetStatus(id, byteIndex, bitOffset, bits, value);
  }
}
