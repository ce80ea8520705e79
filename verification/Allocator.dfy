/** The keyed index permutation: a 4-round balanced Feistel network over a padded domain,
    with cycle walking into `[0, n)`. The round function (HMAC in the source) is arbitrary. */
module Allocator {
  import opened Prelude

  const ROUNDS: nat := 4
  const MAX_CYCLE_WALKS: nat := 1000

  /** A keyed round function: round number and right half to a 64-bit word. */
  type RoundFunction = (nat, nat) -> nat

  datatype Allocator = Allocator(round: RoundFunction, n: nat, half: nat) {
    /** What `New` establishes. */
    ghost predicate Valid() {
      1 <= n <= Domain() && half >= 1
    }

    /** Size of the padded domain the network permutes. */
    ghost function Domain(): nat {
      Pow2(half) * Pow2(half)
    }
  }

  // ---- bits ------------------------------------------------------------------------------

  function Bit(x: nat): nat { x % 2 }

  /** Bitwise exclusive or. */
  function Xor(a: nat, b: nat): nat
    decreases a + b
  {
    if a == 0 then b else if b == 0 then a
    else 2 * Xor(a / 2, b / 2) + (if Bit(a) == Bit(b) then 0 else 1)
  }

  lemma XorHalves(a: nat, b: nat)
    ensures Xor(a, b) / 2 == Xor(a / 2, b / 2)
    ensures Bit(Xor(a, b)) == if Bit(a) == Bit(b) then 0 else 1
  {
  }

  lemma {:induction false} XorBound(a: nat, b: nat, k: nat)
    requires a < Pow2(k) && b < Pow2(k)
    ensures Xor(a, b) < Pow2(k)
  {
    if a != 0 && b != 0 {
      XorBound(a / 2, b / 2, k - 1);
    }
  }

  /** Exclusive or with the same word twice is the identity. */
  lemma {:induction false} XorCancels(a: nat, b: nat)
    ensures Xor(Xor(a, b), b) == a
    decreases a + b
  {
    if b != 0 {
      XorCancels(a / 2, b / 2);
      XorHalves(a, b);
      XorHalves(Xor(a, b), b);
    }
  }

  /** The number of bits needed to write x. */
  function Len64(x: nat): nat {
    if x == 0 then 0 else 1 + Len64(x / 2)
  }

  lemma {:induction false} Len64Bounds(x: nat)
    ensures x < Pow2(Len64(x))
    ensures x > 0 ==> Pow2(Len64(x) - 1) <= x
  {
    if x > 1 {
      Len64Bounds(x / 2);
    }
  }

  // ---- New -------------------------------------------------------------------------------

  /** Width of each half for a capacity: the length of n - 1, at least 1, padded to even, halved. */
  function HalfWidth(n: nat): nat
    requires n >= 1
  {
    (if Len64(n - 1) == 0 then 2 else Len64(n - 1) + Len64(n - 1) % 2) / 2
  }

  /** The padded domain holds n and is at most four times larger, with equality only for n = 1. */
  lemma HalfWidthBounds(n: nat)
    requires n >= 1
    ensures var h := HalfWidth(n);
      && h >= 1 && n <= Pow2(h) * Pow2(h) <= 4 * n
      && (n > 1 ==> Pow2(h) * Pow2(h) < 4 * n)
  {
    Squared(HalfWidth(n));
    PaddedBounds(n);
  }

  lemma PaddedBounds(n: nat)
    requires n >= 1
    ensures HalfWidth(n) >= 1 && n <= Pow2(HalfWidth(n) + HalfWidth(n)) <= 4 * n
    ensures n > 1 ==> Pow2(HalfWidth(n) + HalfWidth(n)) < 4 * n
  {
    if n > 1 {
      Padding(n);
      Len64Bounds(n - 1);
      LengthBounds(n, Len64(n - 1), HalfWidth(n) + HalfWidth(n));
    } else {
      PaddedOne();
    }
  }

  lemma PaddedOne()
    ensures HalfWidth(1) == 1 && Pow2(2) == 4
  {
    assert Pow2(2) == 2 * Pow2(1) == 4 * Pow2(0);
  }

  lemma LengthBounds(n: nat, len: nat, k: nat)
    requires 1 <= len <= k <= len + 1 && Pow2(len - 1) <= n - 1 < Pow2(len)
    ensures n <= Pow2(k) < 4 * n
  {
    assert Pow2(len + 1) == 2 * Pow2(len) == 4 * Pow2(len - 1);
  }

  lemma Squared(h: nat)
    ensures Pow2(h) * Pow2(h) == Pow2(h + h)
  {
    Pow2Add(h, h);
  }

  /** Both halves together are as long as n - 1, or one bit longer. */
  lemma Padding(n: nat)
    requires n > 1
    ensures HalfWidth(n) >= 1
    ensures HalfWidth(n) + HalfWidth(n) == Len64(n - 1) + Len64(n - 1) % 2
  {
  }

  /** The comment's "roughly half of the domain is out of range" holds exactly when the length of
      n - 1 is even or n is itself a power of two (n > 1); otherwise the domain exceeds 2n. */
  lemma DomainAtMostTwice(n: nat)
    requires n > 1
    ensures var h := HalfWidth(n);
      Pow2(h) * Pow2(h) <= 2 * n <==> Len64(n - 1) % 2 == 0 || n == Pow2(Len64(n - 1))
  {
    var h, len := HalfWidth(n), Len64(n - 1);
    Squared(h);
    Padding(n);
    Len64Bounds(n - 1);
    assert Pow2(len) == 2 * Pow2(len - 1);
    if len % 2 != 0 {
      assert Pow2(len + 1) == 2 * Pow2(len);
    }
  }

  /** A capacity that fits in 2w bits has a domain that fits in 2w bits (w = 32 in the source). */
  lemma DomainFits(n: nat, w: nat)
    requires 1 <= n <= Pow2(2 * w) && w >= 1
    ensures Pow2(HalfWidth(n)) * Pow2(HalfWidth(n)) <= Pow2(2 * w)
  {
    var h, len := HalfWidth(n), Len64(n - 1);
    Len64Bounds(n - 1);
    if len > 2 * w {
      Pow2Monotone(2 * w, len - 1);
    }
    Pow2Add(h, h);
    Pow2Monotone(h + h, 2 * w);
  }

  datatype Error = BadKey | NoCapacity | OutOfRange | DidNotConverge

  /** Builds an allocator from a key of `keyLen` bytes; `round` is the function that key selects. */
  method New(keyLen: nat, round: RoundFunction, n: nat) returns (r: Result<Allocator, Error>)
    ensures keyLen != 32 ==> r == Err(BadKey)
    ensures keyLen == 32 && n == 0 ==> r == Err(NoCapacity)
    ensures keyLen == 32 && n > 0 ==> r == Ok(For(round, n)) && r.value.Valid()
  {
    if keyLen != 32 {
      return Err(BadKey);
    }
    if n == 0 {
      return Err(NoCapacity);
    }
    var total := Len64(n - 1);
    if total == 0 {
      total := 1;
    }
    if total % 2 != 0 {
      total := total + 1;
    }
    var half := total / 2;
    if half == 0 {
      half := 1;
    }
    HalfWidthBounds(n);
    return Ok(Allocator(round, n, half));
  }

  /** The allocator of a capacity under a round function. */
  function For(round: RoundFunction, n: nat): (a: Allocator)
    requires n >= 1
    ensures a.Valid()
  {
    HalfWidthBounds(n);
    Allocator(round, n, HalfWidth(n))
  }

  // ---- the Feistel network ---------------------------------------------------------------

  /** The halves after `k` rounds. */
  function Rounds(a: Allocator, l: nat, r: nat, k: nat): (nat, nat)
  {
    if k == 0 then (l, r) else
      var (l', r') := Rounds(a, l, r, k - 1);
      (r', Xor(l', a.round(k - 1, r') % Pow2(a.half)))
  }

  /** The two halves of a value, and the value of two halves, for halves below m. */
  function High(x: nat, m: nat): nat
    requires m >= 1
  {
    x / m % m
  }

  function Joined(l: nat, r: nat, m: nat): nat {
    l * m + r
  }

  function Permute(a: Allocator, x: nat): nat {
    var m := Pow2(a.half);
    var (l, r) := Rounds(a, High(x, m), x % m, ROUNDS);
    Joined(l, r, m)
  }

  /** The rounds run backwards. */
  function UndoRounds(a: Allocator, l: nat, r: nat, k: nat): (nat, nat)
    decreases k
  {
    if k == 0 then (l, r) else
      UndoRounds(a, Xor(r, a.round(k - 1, l) % Pow2(a.half)), l, k - 1)
  }

  function Unpermute(a: Allocator, y: nat): nat {
    var m := Pow2(a.half);
    var (l, r) := UndoRounds(a, High(y, m), y % m, ROUNDS);
    Joined(l, r, m)
  }

  lemma {:induction false} RoundsBound(a: Allocator, l: nat, r: nat, k: nat)
    requires l < Pow2(a.half) && r < Pow2(a.half)
    ensures Rounds(a, l, r, k).0 < Pow2(a.half) && Rounds(a, l, r, k).1 < Pow2(a.half)
  {
    if k != 0 {
      RoundsBound(a, l, r, k - 1);
      var (l', r') := Rounds(a, l, r, k - 1);
      XorBound(l', a.round(k - 1, r') % Pow2(a.half), a.half);
    }
  }

  lemma {:induction false} UndoRoundsBound(a: Allocator, l: nat, r: nat, k: nat)
    requires l < Pow2(a.half) && r < Pow2(a.half)
    ensures UndoRounds(a, l, r, k).0 < Pow2(a.half) && UndoRounds(a, l, r, k).1 < Pow2(a.half)
    decreases k
  {
    if k != 0 {
      XorBound(r, a.round(k - 1, l) % Pow2(a.half), a.half);
      UndoRoundsBound(a, Xor(r, a.round(k - 1, l) % Pow2(a.half)), l, k - 1);
    }
  }

  lemma {:induction false} UndoAfterRounds(a: Allocator, l: nat, r: nat, k: nat)
    ensures var (x, y) := Rounds(a, l, r, k); UndoRounds(a, x, y, k) == (l, r)
  {
    if k != 0 {
      var (l', r') := Rounds(a, l, r, k - 1);
      XorCancels(l', a.round(k - 1, r') % Pow2(a.half));
      UndoAfterRounds(a, l, r, k - 1);
    }
  }

  lemma {:induction false} RoundsAfterUndo(a: Allocator, l: nat, r: nat, k: nat)
    ensures var (x, y) := UndoRounds(a, l, r, k); Rounds(a, x, y, k) == (l, r)
    decreases k
  {
    if k != 0 {
      var f := a.round(k - 1, l) % Pow2(a.half);
      XorCancels(r, f);
      RoundsAfterUndo(a, Xor(r, f), l, k - 1);
    }
  }

  /** Joining halves and splitting again. */
  lemma SplitJoin(l: nat, r: nat, m: nat)
    requires l < m && r < m
    ensures Joined(l, r, m) < m * m
    ensures High(Joined(l, r, m), m) == l && Joined(l, r, m) % m == r
  {
    MulMonotone(l + 1, m, m);
    assert (l + 1) * m == l * m + m;
    DivMod(l, r, m);
    Small(l, m);
  }

  lemma MulMonotone(x: nat, y: nat, m: nat)
    requires x <= y
    ensures x * m <= y * m
  {
  }

  lemma Small(x: nat, m: nat)
    requires x < m
    ensures x % m == x
  {
  }

  lemma DivMod(l: nat, r: nat, m: nat)
    requires r < m
    ensures (l * m + r) / m == l && (l * m + r) % m == r
  {
    var x := l * m + r;
    var q := x / m;
    assert x == q * m + x % m;
    if q < l {
      MulMonotone(q + 1, l, m);
    } else if q > l {
      MulMonotone(l + 1, q, m);
    }
  }

  lemma JoinSplit(x: nat, m: nat)
    requires 0 < m && x < m * m
    ensures High(x, m) < m && Joined(High(x, m), x % m, m) == x
  {
    var q := x / m;
    assert x == q * m + x % m;
    if q >= m {
      MulMonotone(m, q, m);
    }
    Small(q, m);
  }

  /** The network is a bijection of the padded domain, whatever the round function. */
  lemma PermuteBijective(a: Allocator, x: nat)
    requires x < a.Domain()
    ensures Permute(a, x) < a.Domain() && Unpermute(a, x) < a.Domain()
    ensures Unpermute(a, Permute(a, x)) == x
    ensures Permute(a, Unpermute(a, x)) == x
  {
    var m := Pow2(a.half);
    JoinSplit(x, m);
    var (l, r) := (High(x, m), x % m);
    RoundsBound(a, l, r, ROUNDS);
    UndoRoundsBound(a, l, r, ROUNDS);
    var (pl, pr) := Rounds(a, l, r, ROUNDS);
    var (ul, ur) := UndoRounds(a, l, r, ROUNDS);
    SplitJoin(pl, pr, m);
    SplitJoin(ul, ur, m);
    UndoAfterRounds(a, l, r, ROUNDS);
    RoundsAfterUndo(a, l, r, ROUNDS);
  }

  /** The loop of `permute`. */
  method ComputePermute(a: Allocator, x: nat) returns (y: nat)
    ensures y == Permute(a, x)
  {
    var m := Pow2(a.half);
    var l, r := High(x, m), x % m;
    for round := 0 to ROUNDS
      invariant (l, r) == Rounds(a, High(x, m), x % m, round)
    {
      var f := a.round(round, r) % m;
      l, r := r, Xor(l, f);
    }
    y := Joined(l, r, m);
  }

  // ---- cycle walking ---------------------------------------------------------------------

  function Iterate(a: Allocator, x: nat, k: nat): nat {
    if k == 0 then x else Permute(a, Iterate(a, x, k - 1))
  }

  /** After exactly k >= 1 steps the walk from x is back below n for the first time. */
  ghost predicate FirstReturn(a: Allocator, x: nat, k: nat) {
    && k >= 1
    && Iterate(a, x, k) < a.n
    && forall j :: 1 <= j < k ==> Iterate(a, x, j) >= a.n
  }

  lemma {:induction false} IterateBound(a: Allocator, x: nat, k: nat)
    requires x < a.Domain()
    ensures Iterate(a, x, k) < a.Domain()
  {
    if k != 0 {
      IterateBound(a, x, k - 1);
      PermuteBijective(a, Iterate(a, x, k - 1));
    }
  }

  /** Equal iterates can be walked back in step. */
  lemma {:induction false} IterateInjective(a: Allocator, x: nat, y: nat, i: nat, j: nat)
    requires x < a.Domain() && y < a.Domain() && i <= j
    requires Iterate(a, x, i) == Iterate(a, y, j)
    ensures x == Iterate(a, y, j - i)
  {
    if i != 0 {
      IterateBound(a, x, i - 1);
      IterateBound(a, y, j - 1);
      PermuteBijective(a, Iterate(a, x, i - 1));
      PermuteBijective(a, Iterate(a, y, j - 1));
      IterateInjective(a, x, y, i - 1, j - 1);
    }
  }

  /** First-return argument: different cursors never meet at their first return. */
  lemma FirstReturnInjective(a: Allocator, x: nat, y: nat, i: nat, j: nat)
    requires a.Valid() && x < a.n && y < a.n
    requires FirstReturn(a, x, i) && FirstReturn(a, y, j)
    requires Iterate(a, x, i) == Iterate(a, y, j)
    ensures x == y
  {
    if i <= j {
      IterateInjective(a, x, y, i, j);
    } else {
      IterateInjective(a, y, x, j, i);
    }
  }

  /** The walk returns within Domain - n + 1 steps. */
  lemma WalkReturns(a: Allocator, x: nat) returns (k: nat)
    requires a.Valid() && x < a.n
    ensures FirstReturn(a, x, k) && k <= a.Domain() - a.n + 1
  {
    var m := a.Domain() - a.n + 1;
    k := 1;
    while k <= m && Iterate(a, x, k) >= a.n
      invariant 1 <= k <= m + 1
      invariant forall j :: 1 <= j < k ==> Iterate(a, x, j) >= a.n
    {
      k := k + 1;
    }
    if k == m + 1 {
      NoLongAbsence(a, x, m);
    }
  }

  /** Staying out of range for Domain - n + 1 steps would repeat a value, hence revisit x. */
  lemma NoLongAbsence(a: Allocator, x: nat, m: nat)
    requires a.Valid() && x < a.n && m == a.Domain() - a.n + 1
    ensures exists j :: 1 <= j <= m && Iterate(a, x, j) < a.n
  {
    if forall j :: 1 <= j <= m ==> Iterate(a, x, j) >= a.n {
      var s := seq(m, i requires 0 <= i < m => Iterate(a, x, i + 1));
      forall i | 0 <= i < m ensures a.n <= s[i] < a.Domain() {
        IterateBound(a, x, i + 1);
        assert Iterate(a, x, i + 1) >= a.n;
      }
      Pigeonhole(s, a.n, a.Domain());
      var i, j :| 0 <= i < j < m && s[i] == s[j];
      IterateInjective(a, x, x, i + 1, j + 1);
      assert false;
    }
  }

  /** The walk of at most `fuel` steps from x. */
  function Walk(a: Allocator, x: nat, fuel: nat): Option<nat>
    decreases fuel
  {
    if fuel == 0 then None else
      var y := Permute(a, x);
      if y < a.n then Some(y) else Walk(a, y, fuel - 1)
  }

  lemma {:induction false} IterateShift(a: Allocator, x: nat, k: nat)
    ensures Iterate(a, Permute(a, x), k) == Iterate(a, x, k + 1)
  {
    if k != 0 {
      IterateShift(a, x, k - 1);
    }
  }

  lemma FirstReturnStep(a: Allocator, x: nat, k: nat)
    requires FirstReturn(a, x, k)
    ensures Permute(a, x) < a.n ==> k == 1 && Iterate(a, x, k) == Permute(a, x)
    ensures Permute(a, x) >= a.n ==> k >= 2 && FirstReturn(a, Permute(a, x), k - 1)
                                     && Iterate(a, Permute(a, x), k - 1) == Iterate(a, x, k)
  {
    var y := Permute(a, x);
    assert Iterate(a, x, 1) == Permute(a, Iterate(a, x, 0)) == y;
    if y >= a.n {
      IterateShift(a, x, k - 1);
      forall j | 1 <= j < k - 1 ensures Iterate(a, y, j) >= a.n {
        IterateShift(a, x, j);
      }
    }
  }

  /** The capped walk succeeds exactly when the first return comes within the cap. */
  lemma {:induction false} WalkIsFirstReturn(a: Allocator, x: nat, k: nat, fuel: nat)
    requires FirstReturn(a, x, k)
    ensures Walk(a, x, fuel) == if k <= fuel then Some(Iterate(a, x, k)) else None
    decreases fuel
  {
    if fuel != 0 {
      FirstReturnStep(a, x, k);
      if Permute(a, x) >= a.n {
        WalkIsFirstReturn(a, Permute(a, x), k - 1, fuel - 1);
      }
    }
  }

  /** The index of a cursor under a cap, and under the source's cap. */
  function IndexWithin(a: Allocator, cursor: nat, fuel: nat): Result<nat, Error> {
    if cursor >= a.n then Err(OutOfRange) else
      match Walk(a, cursor, fuel)
      case Some(y) => Ok(y)
      case None => Err(DidNotConverge)
  }

  function Index(a: Allocator, cursor: nat): Result<nat, Error> {
    IndexWithin(a, cursor, MAX_CYCLE_WALKS)
  }

  method ComputeIndex(a: Allocator, cursor: nat) returns (r: Result<nat, Error>)
    ensures r == Index(a, cursor)
  {
    if cursor >= a.n {
      return Err(OutOfRange);
    }
    var y := ComputeWalk(a, cursor, MAX_CYCLE_WALKS);
    return if y.Some? then Ok(y.value) else Err(DidNotConverge);
  }

  /** The loop of `Index`. */
  method ComputeWalk(a: Allocator, start: nat, cap: nat) returns (r: Option<nat>)
    ensures r == Walk(a, start, cap)
  {
    var x: nat := start;
    for walks := 0 to cap
      invariant Walk(a, start, cap) == Walk(a, x, cap - walks)
    {
      x := ComputePermute(a, x);
      if x < a.n {
        return Some(x);
      }
    }
    return None;
  }

  /** Collision freedom: for every round function and capacity, two different cursors for which
      the capped index succeeds get different indices, both in range. */
  lemma IndexInjective(a: Allocator, c: nat, d: nat)
    requires a.Valid() && c != d
    requires Index(a, c).Ok? && Index(a, d).Ok?
    ensures Index(a, c).value < a.n
    ensures Index(a, c) != Index(a, d)
  {
    var i := WalkReturns(a, c);
    var j := WalkReturns(a, d);
    WalkIsFirstReturn(a, c, i, MAX_CYCLE_WALKS);
    WalkIsFirstReturn(a, d, j, MAX_CYCLE_WALKS);
    if Index(a, c) == Index(a, d) {
      FirstReturnInjective(a, c, d, i, j);
    }
  }

  lemma IndexInRange(a: Allocator, c: nat)
    requires a.Valid() && Index(a, c).Ok?
    ensures Index(a, c).value < a.n
  {
    var i := WalkReturns(a, c);
    WalkIsFirstReturn(a, c, i, MAX_CYCLE_WALKS);
  }

  /** With fewer than 1000 out-of-range values the source's cap cannot fail. */
  lemma IndexConverges(a: Allocator, c: nat)
    requires a.Valid() && c < a.n
    requires a.Domain() - a.n < MAX_CYCLE_WALKS
    ensures Index(a, c).Ok?
  {
    var k := WalkReturns(a, c);
    WalkIsFirstReturn(a, c, k, MAX_CYCLE_WALKS);
  }

  lemma UncappedSucceeds(a: Allocator, c: nat)
    requires a.Valid() && c < a.n
    ensures var fuel := a.Domain() - a.n + 1; IndexWithin(a, c, fuel).Ok? && IndexWithin(a, c, fuel).value < a.n
  {
    var k := WalkReturns(a, c);
    WalkIsFirstReturn(a, c, k, a.Domain() - a.n + 1);
  }

  lemma UncappedInjective(a: Allocator, c: nat, d: nat)
    requires a.Valid() && c < a.n && d < a.n && c != d
    ensures var fuel := a.Domain() - a.n + 1; IndexWithin(a, c, fuel) != IndexWithin(a, d, fuel)
  {
    var fuel := a.Domain() - a.n + 1;
    var i := WalkReturns(a, c);
    var j := WalkReturns(a, d);
    WalkIsFirstReturn(a, c, i, fuel);
    WalkIsFirstReturn(a, d, j, fuel);
    if IndexWithin(a, c, fuel) == IndexWithin(a, d, fuel) {
      FirstReturnInjective(a, c, d, i, j);
    }
  }

  ghost predicate Reached(a: Allocator, y: nat, fuel: nat) {
    exists c :: 0 <= c < a.n && IndexWithin(a, c, fuel) == Ok(y)
  }

  /** With a cap of Domain - n + 1 the walk always succeeds, and is a permutation of [0, n). */
  lemma UncappedPermutes(a: Allocator)
    requires a.Valid()
    ensures var fuel := a.Domain() - a.n + 1;
      && (forall c :: 0 <= c < a.n ==> IndexWithin(a, c, fuel).Ok? && IndexWithin(a, c, fuel).value < a.n)
      && (forall c, d :: 0 <= c < d < a.n ==> IndexWithin(a, c, fuel) != IndexWithin(a, d, fuel))
      && (forall y :: 0 <= y < a.n ==> Reached(a, y, fuel))
  {
    var fuel := a.Domain() - a.n + 1;
    forall c | 0 <= c < a.n ensures IndexWithin(a, c, fuel).Ok? && IndexWithin(a, c, fuel).value < a.n {
      UncappedSucceeds(a, c);
    }
    forall c, d | 0 <= c < d < a.n ensures IndexWithin(a, c, fuel) != IndexWithin(a, d, fuel) {
      UncappedInjective(a, c, d);
    }
    var s := seq(a.n, c requires 0 <= c < a.n => IndexWithin(a, c, fuel).value);
    forall y | 0 <= y < a.n ensures Reached(a, y, fuel) {
      DistinctCovers(s, y);
      var c :| 0 <= c < |s| && s[c] == y;
      assert IndexWithin(a, c, fuel) == Ok(y);
    }
  }
}
