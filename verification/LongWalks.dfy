/** Exactly when the cap on cycle walking can fail: round functions under which the Feistel network
    walks along the last k rows of its domain, one place at a time and from row to row. */
module LongWalks {
  import opened Prelude
  import opened Allocator

  // ---- exclusive or --------------------------------------------------------------------------

  lemma {:induction false} XorCommutes(a: nat, b: nat)
    ensures Xor(a, b) == Xor(b, a)
    decreases a + b
  {
    if a != 0 && b != 0 {
      XorCommutes(a / 2, b / 2);
    }
  }

  lemma {:induction false} XorSelf(a: nat)
    ensures Xor(a, a) == 0
  {
    if a != 0 {
      XorSelf(a / 2);
    }
  }

  /** Complementing one operand complements the result. */
  lemma {:induction false} XorComplement(a: nat, b: nat, h: nat)
    requires a < Pow2(h) && b < Pow2(h)
    ensures Xor(a, b) < Pow2(h) && Xor(a, Pow2(h) - 1 - b) == Pow2(h) - 1 - Xor(a, b)
  {
    XorBound(a, b, h);
    if h != 0 {
      XorComplement(a / 2, b / 2, h - 1);
      ComplementStep(a, b, 2 * Pow2(h - 1) - 1 - b, Xor(a, b), Pow2(h - 1));
    }
  }

  lemma ComplementStep(a: nat, b: nat, c: nat, x: nat, k: nat)
    requires b < 2 * k && x < 2 * k && c == 2 * k - 1 - b && x == Xor(a, b)
    requires Xor(a / 2, b / 2) < k && Xor(a / 2, k - 1 - b / 2) == k - 1 - Xor(a / 2, b / 2)
    ensures Xor(a, c) == 2 * k - 1 - x
  {
    XorHalves(a, b);
    ComplementHalf(b, k);
    ComplementHalf(x, k);
    ComplementBit(a, b, c);
    SameHalves(a, c, a, c, 2 * k - 1 - x);
  }

  lemma ComplementBit(a: nat, b: nat, c: nat)
    requires Bit(c) == 1 - Bit(b)
    ensures Bit(Xor(a, c)) == 1 - Bit(Xor(a, b))
  {
    XorHalves(a, b);
    XorHalves(a, c);
  }

  lemma ComplementHalf(b: nat, k: nat)
    requires b < 2 * k
    ensures (2 * k - 1 - b) / 2 == k - 1 - b / 2 && Bit(2 * k - 1 - b) == 1 - Bit(b)
  {
  }

  /** Complementing both leaves it. */
  lemma XorComplements(a: nat, b: nat, h: nat)
    requires a < Pow2(h) && b < Pow2(h)
    ensures Xor(Pow2(h) - 1 - a, Pow2(h) - 1 - b) == Xor(a, b)
  {
    XorComplement(Pow2(h) - 1 - a, b, h);
    XorCommutes(Pow2(h) - 1 - a, b);
    XorComplement(b, a, h);
    XorCommutes(a, b);
  }

  /** Blocks of j bits do not interfere. */
  lemma {:induction false} XorBlocks(t: nat, u: nat, p: nat, q: nat, j: nat)
    requires p < Pow2(j) && q < Pow2(j)
    ensures Xor(Joined(t, p, Pow2(j)), Joined(u, q, Pow2(j))) == Joined(Xor(t, u), Xor(p, q), Pow2(j))
  {
    if j == 0 {
      assert Joined(t, 0, 1) == t && Joined(u, 0, 1) == u && Joined(Xor(t, u), 0, 1) == Xor(t, u);
    } else {
      var k := Pow2(j - 1);
      XorBlocks(t, u, p / 2, q / 2, j - 1);
      BlockHalf(t, p, k);
      BlockHalf(u, q, k);
      BlockHalf(Xor(t, u), Xor(p, q), k);
      SameHalves(Joined(t, p, 2 * k), Joined(u, q, 2 * k), p, q, Joined(Xor(t, u), Xor(p, q), 2 * k));
    }
  }

  lemma BlockHalf(t: nat, p: nat, k: nat)
    ensures Joined(t, p, 2 * k) / 2 == Joined(t, p / 2, k) && Bit(Joined(t, p, 2 * k)) == Bit(p)
  {
    assert t * (2 * k) == 2 * (t * k);
  }

  /** A number with the halves and the last bit of an exclusive or is that exclusive or. */
  lemma SameHalves(a: nat, b: nat, p: nat, q: nat, x: nat)
    requires Bit(a) == Bit(p) && Bit(b) == Bit(q) && x / 2 == Xor(a / 2, b / 2) && Bit(x) == Bit(Xor(p, q))
    ensures x == Xor(a, b)
  {
    XorHalves(a, b);
    XorHalves(p, q);
  }

  /** The number of ones at the end of x. */
  function Ones(x: nat): nat {
    if x % 2 == 0 then 0 else 1 + Ones(x / 2)
  }

  /** Flipping them and the zero before them adds one. */
  lemma {:induction false} XorOnes(x: nat)
    ensures Xor(x, Pow2(Ones(x) + 1) - 1) == x + 1
  {
    var n := Ones(x);
    if x % 2 == 0 {
      assert Pow2(1) == 2;
      XorHalves(x, 1);
      XorZero(x / 2);
      SameHalves(x, 1, x, 1, x + 1);
    } else {
      var y := Pow2(n + 1) - 1;
      XorOnes(x / 2);
      assert Ones(x / 2) == n - 1 && y / 2 == Pow2(n) - 1 && Bit(y) == 1;
      XorHalves(x, y);
      SameHalves(x, y, x, y, x + 1);
    }
  }

  lemma XorZero(x: nat)
    ensures Xor(x, 0) == x && Xor(0, x) == x
  {
  }

  lemma {:induction false} OnesBound(x: nat, h: nat)
    requires x + 1 < Pow2(h)
    ensures Ones(x) < h && Pow2(Ones(x) + 1) <= Pow2(h)
  {
    if x % 2 == 1 {
      OnesBound(x / 2, h - 1);
    }
  }

  // ---- walking k rows --------------------------------------------------------------------------

  /** Halves of h bits, the last k = 2^j rows. `exits` cuts the walk open at its end, and leads into it
      from row k - 1 of the domain. */
  datatype Plan = Plan(h: nat, j: nat, exits: bool) {
    ghost predicate Valid() {
      j <= 3 && j <= h && h >= 1 && (j >= 1 ==> h >= 6) && h + j <= Pow2(h - j) - 1
    }
  }

  /** A value consists of a lane, one of m / k, and a place of j bits in it. */
  function InLane(p: Plan, lane: nat, q: nat): nat {
    Joined(lane, q, Pow2(p.j))
  }

  /** The columns at which a walk may change rows: two for each of the j bits of a row's number. */
  predicate IsBreak(x: nat, j: nat) {
    32 <= x < 32 + 4 * j && x % 2 == 0
  }

  function Level(x: nat): nat
    requires x >= 32
  {
    (x - 32) / 4
  }

  predicate IsSecond(x: nat) {
    x % 4 == 2
  }

  /** The row changes that are made, so that the rows hang together in one round trip. */
  predicate Jump(i: nat, q: nat) {
    (i == 0 && (q == 0 || q == 3 || q == 6 || q == 5)) || (i == 1 && (q == 1 || q == 7)) || (i == 2 && q == 2)
  }

  function Lane(p: Plan, x: nat): nat
    requires p.Valid()
  {
    if x == Pow2(p.h) - 1 then Pow2(p.h - p.j) - 1 else if IsBreak(x, p.j) then p.h + Level(x) else Ones(x)
  }

  function Turn(p: Plan, x: nat): nat {
    if x != Pow2(p.h) - 1 && IsBreak(x, p.j) && IsSecond(x) then Pow2(Level(x)) else 0
  }

  function First(p: Plan, x: nat): nat
    requires p.Valid()
  {
    InLane(p, Lane(p, x), Turn(p, x))
  }

  function Second(p: Plan, y: nat): nat
    requires p.Valid()
  {
    var lane, q := y / Pow2(p.j), y % Pow2(p.j);
    if lane < p.h then Pow2(lane + 1) - 1
    else if lane < p.h + p.j then (if Jump(lane - p.h, q) then 3 else 1)
    else if lane == Pow2(p.h - p.j) - 1 && !(p.exits && q == 0) then Pow2(p.h) - 1
    else 0
  }

  function Third(p: Plan, x: nat): nat
    requires p.Valid()
  {
    First(p, Before(x, Pow2(p.h)))
  }

  /** The column before, around the end of the row. */
  function Before(x: nat, m: nat): nat
    requires m >= 1
  {
    if x == 0 then m - 1 else x - 1
  }

  function PlanRound(p: Plan, k: nat, x: nat): nat
    requires p.Valid()
  {
    if k == 0 then (if First(p, x) < Pow2(p.h) then Pow2(p.h) - 1 - First(p, x) else 0)
    else if k == 1 then Second(p, x)
    else if k == 2 then (if Third(p, x) < Pow2(p.h) then Pow2(p.h) - 1 - Third(p, x) else 0)
    else 0
  }

  /** The plan as a round function. */
  function Rounding(p: Plan): RoundFunction
    requires p.Valid()
  {
    (k, x) => PlanRound(p, k, x)
  }

  ghost predicate Follows(a: Allocator, p: Plan) {
    p.Valid() && a.half == p.h && a.round == Rounding(p)
  }

  /** The value at column x of row d, rows counted from the last one up. */
  function Place(d: nat, x: nat, m: nat): nat
    requires d < m
  {
    Joined(m - 1 - d, x, m)
  }

  lemma Sizes(p: Plan)
    requires p.Valid()
    ensures Pow2(p.h) == Pow2(p.h - p.j) * Pow2(p.j) && Pow2(p.j) <= 8 && (p.j >= 1 ==> Pow2(p.h) >= 64)
    ensures Pow2(p.h) == InLane(p, Pow2(p.h - p.j) - 1, 0) + Pow2(p.j)
  {
    Pow2Add(p.h - p.j, p.j);
    assert Pow2(p.j) <= 8 by {
      Pow2Monotone(p.j, 3);
      assert Pow2(3) == 8;
    }
    assert p.j >= 1 ==> Pow2(p.h) >= 64 by {
      if p.j >= 1 {
        Pow2Monotone(6, p.h);
        assert Pow2(6) == 64;
      }
    }
    LastLane(Pow2(p.h - p.j), Pow2(p.j));
  }

  lemma LastLane(u: nat, k: nat)
    requires u >= 1
    ensures u * k == Joined(u - 1, 0, k) + k
  {
  }

  lemma InLaneBound(p: Plan, lane: nat, q: nat)
    requires p.Valid() && lane < Pow2(p.h - p.j) && q < Pow2(p.j)
    ensures InLane(p, lane, q) < Pow2(p.h)
    ensures InLane(p, lane, q) / Pow2(p.j) == lane && InLane(p, lane, q) % Pow2(p.j) == q
  {
    Sizes(p);
    MulMonotone(lane + 1, Pow2(p.h - p.j), Pow2(p.j));
    assert (lane + 1) * Pow2(p.j) == lane * Pow2(p.j) + Pow2(p.j);
    DivMod(lane, q, Pow2(p.j));
  }

  lemma LaneBound(p: Plan, x: nat)
    requires p.Valid() && x < Pow2(p.h)
    ensures Lane(p, x) < Pow2(p.h - p.j) && Turn(p, x) < Pow2(p.j)
  {
    if x != Pow2(p.h) - 1 && IsBreak(x, p.j) {
      Pow2Monotone(Level(x) + 1, p.j);
    } else if x != Pow2(p.h) - 1 {
      OnesBound(x, p.h);
    }
  }

  lemma SecondBound(p: Plan, y: nat)
    requires p.Valid()
    ensures Second(p, y) < Pow2(p.h)
  {
    var lane := y / Pow2(p.j);
    Sizes(p);
    if lane < p.h {
      Pow2Monotone(lane + 1, p.h);
    }
  }

  lemma FirstBound(p: Plan, x: nat)
    requires p.Valid() && x < Pow2(p.h)
    ensures First(p, x) < Pow2(p.h)
  {
    LaneBound(p, x);
    InLaneBound(p, Lane(p, x), Turn(p, x));
  }

  // ---- the four rounds ---------------------------------------------------------------------------

  /** One round function's value cut down to a half and added in. */
  function Mixed(a: Allocator, k: nat, x: nat, l: nat): nat {
    Xor(l, a.round(k, x) % Pow2(a.half))
  }

  lemma FourRounds(a: Allocator, l: nat, r: nat, x1: nat, x2: nat, x3: nat, x4: nat)
    requires Chained(a, l, r, x1, x2, x3, x4)
    ensures Rounds(a, l, r, ROUNDS) == (x3, x4)
  {
    assert Rounds(a, l, r, 1) == (r, x1);
    assert Rounds(a, l, r, 2) == (x1, x2);
    assert Rounds(a, l, r, 3) == (x2, x3);
  }

  // The four rounds on column x of row d.

  lemma FirstMix(a: Allocator, p: Plan, d: nat, x: nat)
    requires Follows(a, p) && d < Pow2(a.half) && x < Pow2(a.half)
    ensures Mixed(a, 0, x, Pow2(a.half) - 1 - d) == Xor(d, First(p, x))
  {
    FirstBound(p, x);
    var f := Pow2(a.half) - 1 - First(p, x);
    assert a.round(0, x) == f;
    Small(f, Pow2(a.half));
    XorComplements(d, First(p, x), a.half);
  }

  lemma SecondMix(a: Allocator, p: Plan, x: nat, y: nat)
    requires Follows(a, p) && y < Pow2(a.half)
    ensures Mixed(a, 1, y, x) == Xor(x, Second(p, y))
  {
    SecondBound(p, y);
    assert a.round(1, y) == Second(p, y);
    Small(Second(p, y), Pow2(a.half));
  }

  lemma ThirdMix(a: Allocator, p: Plan, y: nat, x: nat)
    requires Follows(a, p) && y < Pow2(a.half) && x < Pow2(a.half)
    ensures Xor(y, Third(p, x)) < Pow2(a.half) && Mixed(a, 2, x, y) == Pow2(a.half) - 1 - Xor(y, Third(p, x))
  {
    FirstBound(p, Before(x, Pow2(p.h)));
    var f := Pow2(a.half) - 1 - Third(p, x);
    assert a.round(2, x) == f;
    Small(f, Pow2(a.half));
    XorComplement(y, Third(p, x), a.half);
  }

  lemma FourthMix(a: Allocator, p: Plan, x: nat, z: nat)
    requires Follows(a, p)
    ensures Mixed(a, 3, z, x) == x
  {
    assert a.round(3, z) == 0;
    Small(0, Pow2(a.half));
    XorZero(x);
  }

  lemma PermuteRounds(a: Allocator, l: nat, x: nat, l': nat, x': nat)
    requires l < Pow2(a.half) && x < Pow2(a.half) && Rounds(a, l, x, ROUNDS) == (l', x')
    ensures Permute(a, Joined(l, x, Pow2(a.half))) == Joined(l', x', Pow2(a.half))
  {
    SplitJoin(l, x, Pow2(a.half));
  }

  /** The halves in between, as four values chained by the rounds. */
  ghost predicate Chained(a: Allocator, l: nat, r: nat, x1: nat, x2: nat, x3: nat, x4: nat) {
    x1 == Mixed(a, 0, r, l) && x2 == Mixed(a, 1, x1, r) && x3 == Mixed(a, 2, x2, x1) && x4 == Mixed(a, 3, x3, x2)
  }

  lemma ChainedPermute(a: Allocator, l: nat, x: nat, x1: nat, x2: nat, x3: nat, x4: nat)
    requires l < Pow2(a.half) && x < Pow2(a.half) && Chained(a, l, x, x1, x2, x3, x4)
    ensures Permute(a, Joined(l, x, Pow2(a.half))) == Joined(x3, x4, Pow2(a.half))
  {
    FourRounds(a, l, x, x1, x2, x3, x4);
    PermuteRounds(a, l, x, x3, x4);
  }

  /** The rounds take column x of row d to column x' of row d', by way of y. */
  ghost predicate LinkedBy(a: Allocator, d: nat, x: nat, y: nat, d': nat, x': nat) {
    && d < Pow2(a.half) && x < Pow2(a.half) && d' < Pow2(a.half) && x' < Pow2(a.half)
    && Chained(a, Pow2(a.half) - 1 - d, x, y, x', Pow2(a.half) - 1 - d', x')
  }

  ghost predicate Linked(a: Allocator, d: nat, x: nat, d': nat, x': nat) {
    exists y :: LinkedBy(a, d, x, y, d', x')
  }

  lemma LinkedPermute(a: Allocator, d: nat, x: nat, d': nat, x': nat)
    requires Linked(a, d, x, d', x')
    ensures d < Pow2(a.half) && d' < Pow2(a.half)
    ensures Permute(a, Place(d, x, Pow2(a.half))) == Place(d', x', Pow2(a.half))
  {
    var y :| LinkedBy(a, d, x, y, d', x');
    ChainedPermute(a, Pow2(a.half) - 1 - d, x, y, x', Pow2(a.half) - 1 - d', x');
  }

  lemma PlanChained(a: Allocator, p: Plan, d: nat, x: nat, y: nat, x': nat, d': nat)
    requires Follows(a, p) && d < Pow2(a.half) && x < Pow2(a.half)
    requires y == Xor(d, First(p, x)) && x' == Xor(x, Second(p, y)) && d' == Xor(y, Third(p, x'))
    requires y < Pow2(a.half) && x' < Pow2(a.half) && d' < Pow2(a.half)
    ensures Chained(a, Pow2(a.half) - 1 - d, x, y, x', Pow2(a.half) - 1 - d', x')
  {
    FirstMix(a, p, d, x);
    SecondMix(a, p, x, y);
    ThirdMix(a, p, y, x');
    FourthMix(a, p, x', Pow2(a.half) - 1 - d');
  }

  // ---- steps ------------------------------------------------------------------------------------

  /** The middle value stays in the lane of the column. */
  lemma LaneValues(p: Plan, d: nat, x: nat, q: nat, d': nat, x': nat)
    requires p.Valid() && d < Pow2(p.j) && x < Pow2(p.h) && x' < Pow2(p.h)
    requires Lane(p, Before(x', Pow2(p.h))) == Lane(p, x)
    requires q == Xor(d, Turn(p, x)) && d' == Xor(q, Turn(p, Before(x', Pow2(p.h))))
    ensures q < Pow2(p.j) && d' < Pow2(p.j) && InLane(p, Lane(p, x), q) < Pow2(p.h)
    ensures Xor(d, First(p, x)) == InLane(p, Lane(p, x), q)
    ensures Xor(InLane(p, Lane(p, x), q), Third(p, x')) == d'
  {
    var lane, w := Lane(p, x), Before(x', Pow2(p.h));
    LaneBound(p, x);
    LaneBound(p, w);
    XorBound(d, Turn(p, x), p.j);
    XorBound(q, Turn(p, w), p.j);
    InLaneBound(p, lane, q);
    IntoLane(p, d, lane, Turn(p, x), q);
    OutOfLane(p, lane, q, Turn(p, w), d');
  }

  /** One step of the network, from the lane of its column. */
  lemma LaneStep(a: Allocator, p: Plan, d: nat, x: nat, q: nat, d': nat, x': nat)
    requires Follows(a, p) && d < Pow2(p.j) && x < Pow2(p.h) && x' < Pow2(p.h)
    requires Lane(p, Before(x', Pow2(p.h))) == Lane(p, x)
    requires q == Xor(d, Turn(p, x)) && d' == Xor(q, Turn(p, Before(x', Pow2(p.h))))
    requires x' == Xor(x, Second(p, InLane(p, Lane(p, x), q)))
    ensures Linked(a, d, x, d', x')
  {
    var y := InLane(p, Lane(p, x), q);
    LaneValues(p, d, x, q, d', x');
    Pow2Monotone(p.j, p.h);
    PlanChained(a, p, d, x, y, x', d');
    assert LinkedBy(a, d, x, y, d', x');
  }

  lemma IntoLane(p: Plan, d: nat, lane: nat, turn: nat, q: nat)
    requires d < Pow2(p.j) && turn < Pow2(p.j) && q == Xor(d, turn)
    ensures Xor(d, InLane(p, lane, turn)) == InLane(p, lane, q)
  {
    assert Joined(0, d, Pow2(p.j)) == d;
    XorBlocks(0, lane, d, turn, p.j);
    XorZero(lane);
  }

  lemma OutOfLane(p: Plan, lane: nat, q: nat, turn: nat, d': nat)
    requires q < Pow2(p.j) && turn < Pow2(p.j) && d' == Xor(q, turn)
    ensures Xor(InLane(p, lane, q), InLane(p, lane, turn)) == d'
  {
    XorBlocks(lane, lane, q, turn, p.j);
    XorSelf(lane);
    assert Joined(0, d', Pow2(p.j)) == d';
  }

  lemma SecondInLane(p: Plan, lane: nat, q: nat)
    requires p.Valid() && lane < Pow2(p.h - p.j) && q < Pow2(p.j)
    ensures lane < p.h ==> Second(p, InLane(p, lane, q)) == Pow2(lane + 1) - 1
    ensures p.h <= lane < p.h + p.j ==> Second(p, InLane(p, lane, q)) == if Jump(lane - p.h, q) then 3 else 1
    ensures lane == Pow2(p.h - p.j) - 1 ==>
      Second(p, InLane(p, lane, q)) == if p.exits && q == 0 then 0 else Pow2(p.h) - 1
  {
    InLaneBound(p, lane, q);
  }

  /** Along a row, away from breaks. */
  lemma PlainStep(a: Allocator, p: Plan, d: nat, x: nat)
    requires Follows(a, p) && d < Pow2(p.j) && x + 1 < Pow2(p.h) && !IsBreak(x, p.j)
    ensures Linked(a, d, x, d, x + 1)
  {
    OnesBound(x, p.h);
    LaneBound(p, x);
    SecondInLane(p, Ones(x), d);
    XorOnes(x);
    XorZero(d);
    LaneStep(a, p, d, x, d, d, x + 1);
  }

  /** From the end of a row to its start. */
  lemma WrapStep(a: Allocator, p: Plan, d: nat)
    requires Follows(a, p) && d < Pow2(p.j) && !(p.exits && d == 0)
    ensures Linked(a, d, Pow2(p.h) - 1, d, 0)
  {
    LaneBound(p, Pow2(p.h) - 1);
    SecondInLane(p, Pow2(p.h - p.j) - 1, d);
    XorSelf(Pow2(p.h) - 1);
    XorZero(d);
    LaneStep(a, p, d, Pow2(p.h) - 1, d, d, 0);
  }

  /** A row's number with bit i flipped. */
  function Flip(d: nat, i: nat): nat {
    if i == 0 then (if d % 2 == 0 then d + 1 else d - 1)
    else if i == 1 then (if d % 4 < 2 then d + 2 else d - 2)
    else (if d % 8 < 4 then d + 4 else d - 4)
  }

  lemma {:induction false} FlipIs(d: nat, i: nat)
    requires i <= 2
    ensures Xor(d, Pow2(i)) == Flip(d, i)
  {
    XorHalves(d, Pow2(i));
    if i == 0 {
      assert Pow2(0) == 1;
      XorZero(d / 2);
    } else {
      FlipIs(d / 2, i - 1);
      assert Pow2(i) / 2 == Pow2(i - 1) && Bit(Pow2(i)) == 0;
    }
    FlipHalf(d, i);
    SameHalves(d, Pow2(i), d, Pow2(i), Flip(d, i));
  }

  lemma FlipHalf(d: nat, i: nat)
    requires i <= 2
    ensures Flip(d, i) / 2 == if i == 0 then d / 2 else Flip(d / 2, i - 1)
    ensures Bit(Flip(d, i)) == if i == 0 then 1 - Bit(d) else Bit(d)
  {
    if i == 1 {
      assert d % 4 == 2 * (d / 2 % 2) + d % 2;
    } else if i == 2 {
      assert d % 8 == 2 * (d / 2 % 4) + d % 2;
    }
  }

  lemma XorLow(b: nat, p: nat, q: nat)
    requires b % 4 == 0 && p < 4 && q < 4
    ensures Xor(b + p, q) == b + Xor(p, q)
  {
    HalvesLow(b, p);
    assert Xor(b / 2 + p / 2, q / 2) == b / 2 + Xor(p / 2, q / 2) by { XorEven(b / 2, p / 2, q / 2); }
    LowHalves(b, p, q, Xor(p, q), Xor(p / 2, q / 2));
  }

  lemma HalvesLow(b: nat, p: nat)
    requires b % 4 == 0
    ensures (b + p) / 2 == b / 2 + p / 2 && Bit(b + p) == Bit(p) && (b / 2) % 2 == 0
  {
    var t := b / 4;
    assert b == 4 * t && b / 2 == 2 * t;
    assert (4 * t + p) / 2 == 2 * t + p / 2;
  }

  lemma XorEven(c: nat, p: nat, q: nat)
    requires c % 2 == 0 && p < 2 && q < 2
    ensures Xor(c + p, q) == c + Xor(p, q)
  {
    XorZero(c / 2);
  }

  lemma LowHalves(b: nat, p: nat, q: nat, x: nat, z: nat)
    requires b % 4 == 0 && x == Xor(p, q) && z == Xor(p / 2, q / 2) && Xor(b / 2 + p / 2, q / 2) == b / 2 + z
    ensures Xor(b + p, q) == b + x
  {
    HalvesLow(b, p);
    HalvesLow(b, x);
    XorHalves(p, q);
    SameHalves(b + p, q, p, q, b + x);
  }

  /** The two columns of a break share a lane. */
  lemma BreakLanes(p: Plan, x: nat)
    requires p.Valid() && IsBreak(x, p.j) && !IsSecond(x) && x + 4 <= Pow2(p.h)
    ensures Level(x) < p.j && Level(x + 2) == Level(x) && IsBreak(x + 2, p.j) && IsSecond(x + 2) && x % 4 == 0
    ensures Lane(p, x) == Lane(p, x + 2) == p.h + Level(x) < Pow2(p.h - p.j)
    ensures Turn(p, x) == 0 && Turn(p, x + 2) == Pow2(Level(x))
    ensures Before(x + 1, Pow2(p.h)) == x && Before(x + 3, Pow2(p.h)) == x + 2
  {
  }

  // At the first column x of a break: on along the row, or over to the row with bit i flipped. At the
  // second, x + 2: on along the row, or back to where the other row was left.

  lemma FirstStays(a: Allocator, p: Plan, d: nat, x: nat)
    requires Follows(a, p) && d < Pow2(p.j) && IsBreak(x, p.j) && !IsSecond(x) && x + 4 <= Pow2(p.h)
    requires !Jump(Level(x), d)
    ensures Linked(a, d, x, d, x + 1)
  {
    BreakLanes(p, x);
    SecondInLane(p, Lane(p, x), d);
    assert Xor(x, 1) == x + 1 by { XorLow(x, 0, 1); }
    XorZero(d);
    LaneStep(a, p, d, x, d, d, x + 1);
  }

  lemma FirstJumps(a: Allocator, p: Plan, d: nat, x: nat)
    requires Follows(a, p) && d < Pow2(p.j) && IsBreak(x, p.j) && !IsSecond(x) && x + 4 <= Pow2(p.h)
    requires Jump(Level(x), d)
    ensures Linked(a, d, x, Flip(d, Level(x)), x + 3)
  {
    BreakLanes(p, x);
    SecondInLane(p, Lane(p, x), d);
    assert Xor(x, 3) == x + 3 by { XorLow(x, 0, 3); }
    XorZero(d);
    FlipIs(d, Level(x));
    LaneStep(a, p, d, x, d, Flip(d, Level(x)), x + 3);
  }

  lemma SecondStays(a: Allocator, p: Plan, d: nat, x: nat)
    requires Follows(a, p) && d < Pow2(p.j) && IsBreak(x, p.j) && !IsSecond(x) && x + 4 <= Pow2(p.h)
    requires !Jump(Level(x), Flip(d, Level(x)))
    ensures Linked(a, d, x + 2, d, x + 3)
  {
    var q, turn := Flip(d, Level(x)), Turn(p, x + 2);
    BreakLanes(p, x);
    assert q < Pow2(p.j) && q == Xor(d, turn) && d == Xor(q, turn) by { FlipBack(d, Level(x), p.j); }
    assert Second(p, InLane(p, Lane(p, x + 2), q)) == 1 by { SecondInLane(p, Lane(p, x), q); }
    assert Xor(x + 2, 1) == x + 3 by { XorLow(x, 2, 1); }
    LaneStep(a, p, d, x + 2, q, d, x + 3);
  }

  lemma SecondJumps(a: Allocator, p: Plan, d: nat, x: nat)
    requires Follows(a, p) && d < Pow2(p.j) && IsBreak(x, p.j) && !IsSecond(x) && x + 4 <= Pow2(p.h)
    requires Jump(Level(x), Flip(d, Level(x)))
    ensures Linked(a, d, x + 2, Flip(d, Level(x)), x + 1)
  {
    var q, turn := Flip(d, Level(x)), Turn(p, x + 2);
    BreakLanes(p, x);
    assert q < Pow2(p.j) && q == Xor(d, turn) by { FlipBack(d, Level(x), p.j); }
    assert Second(p, InLane(p, Lane(p, x + 2), q)) == 3 by { SecondInLane(p, Lane(p, x), q); }
    assert Xor(x + 2, 3) == x + 1 by { XorLow(x, 2, 3); }
    assert q == Xor(q, Turn(p, x)) by { XorZero(q); }
    LaneStep(a, p, d, x + 2, q, q, x + 1);
  }

  lemma FlipBack(d: nat, i: nat, j: nat)
    requires i < j <= 3 && d < Pow2(j)
    ensures Flip(d, i) == Xor(d, Pow2(i)) < Pow2(j) && Xor(Flip(d, i), Pow2(i)) == d
  {
    FlipIs(d, i);
    Pow2Monotone(i + 1, j);
    XorBound(d, Pow2(i), j);
    XorCancels(d, Pow2(i));
  }

  /** The way into the walk, from the start of row k - 1 of the domain. */
  lemma EntryStep(a: Allocator, p: Plan)
    requires Follows(a, p) && p.exits
    ensures Pow2(p.j) <= Pow2(p.h) && Linked(a, Pow2(p.h) - Pow2(p.j), 0, 0, 0)
  {
    var y := InLane(p, Pow2(p.h - p.j) - 1, 0);
    EntryValues(p);
    EntryLinked(a, p, y);
  }

  lemma EntryLinked(a: Allocator, p: Plan, y: nat)
    requires Follows(a, p) && y < Pow2(p.h)
    requires Xor(y, First(p, 0)) == y && Xor(0, Second(p, y)) == 0 && Xor(y, Third(p, 0)) == 0
    ensures Linked(a, y, 0, 0, 0)
  {
    PlanChained(a, p, y, 0, y, 0, 0);
    assert LinkedBy(a, y, 0, y, 0, 0);
  }

  lemma EntryValues(p: Plan)
    requires p.Valid() && p.exits
    ensures var y := InLane(p, Pow2(p.h - p.j) - 1, 0);
      && y == Pow2(p.h) - Pow2(p.j) && y < Pow2(p.h)
      && Xor(y, First(p, 0)) == y && Xor(0, Second(p, y)) == 0 && Xor(y, Third(p, 0)) == 0
  {
    var y := InLane(p, Pow2(p.h - p.j) - 1, 0);
    Sizes(p);
    assert y < Pow2(p.h) by { InLaneBound(p, Pow2(p.h - p.j) - 1, 0); }
    assert Second(p, y) == 0 by { SecondInLane(p, Pow2(p.h - p.j) - 1, 0); }
    assert Third(p, 0) == y;
    assert First(p, 0) == 0 by { ZeroColumn(p); }
    assert Xor(y, 0) == y && Xor(0, 0) == 0 && Xor(y, y) == 0 by {
      XorZero(y);
      XorSelf(y);
    }
  }

  lemma ZeroColumn(p: Plan)
    requires p.Valid()
    ensures First(p, 0) == 0
  {
    Pow2Monotone(1, p.h);
    assert Pow2(1) == 2;
  }

  // ---- the round trip ------------------------------------------------------------------------------

  /** The place after column x of row d, for rows of length m. */
  function Next(d: nat, x: nat, j: nat, m: nat): (nat, nat) {
    if x + 1 >= m then (d, 0)
    else if !IsBreak(x, j) then (d, x + 1)
    else if !IsSecond(x) then (if Jump(Level(x), d) then (Flip(d, Level(x)), x + 3) else (d, x + 1))
    else if Jump(Level(x), Flip(d, Level(x))) then (Flip(d, Level(x)), x - 1)
    else (d, x + 1)
  }

  ghost predicate NextIs(a: Allocator, d: nat, x: nat, next: (nat, nat)) {
    Linked(a, d, x, next.0, next.1)
  }

  // The cases of `Next`, each from its link.

  lemma PlainNext(a: Allocator, d: nat, x: nat, j: nat, m: nat)
    requires x < m && (x == m - 1 || !IsBreak(x, j)) && Linked(a, d, x, d, if x == m - 1 then 0 else x + 1)
    ensures NextIs(a, d, x, Next(d, x, j, m))
  {
  }

  lemma FirstNext(a: Allocator, d: nat, x: nat, j: nat, m: nat)
    requires x + 1 < m && IsBreak(x, j) && !IsSecond(x)
    requires if Jump(Level(x), d) then Linked(a, d, x, Flip(d, Level(x)), x + 3) else Linked(a, d, x, d, x + 1)
    ensures NextIs(a, d, x, Next(d, x, j, m))
  {
  }

  lemma SecondNext(a: Allocator, d: nat, x: nat, j: nat, m: nat)
    requires x + 1 < m && IsBreak(x, j) && IsSecond(x)
    requires var q := Flip(d, Level(x));
      if Jump(Level(x), q) then Linked(a, d, x, q, x - 1) else Linked(a, d, x, d, x + 1)
    ensures NextIs(a, d, x, Next(d, x, j, m))
  {
  }

  lemma FirstLinked(a: Allocator, p: Plan, d: nat, x: nat)
    requires Follows(a, p) && d < Pow2(p.j) && IsBreak(x, p.j) && !IsSecond(x) && x + 4 <= Pow2(p.h)
    ensures NextIs(a, d, x, Next(d, x, p.j, Pow2(p.h)))
  {
    if Jump(Level(x), d) {
      FirstJumps(a, p, d, x);
      FirstNext(a, d, x, p.j, Pow2(p.h));
    } else {
      FirstStays(a, p, d, x);
      FirstNext(a, d, x, p.j, Pow2(p.h));
    }
  }

  lemma SecondLinked(a: Allocator, p: Plan, d: nat, x: nat)
    requires Follows(a, p) && d < Pow2(p.j) && IsBreak(x, p.j) && IsSecond(x) && x + 2 <= Pow2(p.h)
    ensures NextIs(a, d, x, Next(d, x, p.j, Pow2(p.h)))
  {
    assert Level(x - 2) == Level(x) && IsBreak(x - 2, p.j) && !IsSecond(x - 2);
    if Jump(Level(x), Flip(d, Level(x))) {
      SecondJumps(a, p, d, x - 2);
      SecondNext(a, d, x, p.j, Pow2(p.h));
    } else {
      SecondStays(a, p, d, x - 2);
      SecondNext(a, d, x, p.j, Pow2(p.h));
    }
  }

  lemma NextLinked(a: Allocator, p: Plan, d: nat, x: nat)
    requires Follows(a, p) && d < Pow2(p.j) && x < Pow2(p.h) && !(p.exits && d == 0 && x == Pow2(p.h) - 1)
    ensures NextIs(a, d, x, Next(d, x, p.j, Pow2(p.h)))
  {
    if x == Pow2(p.h) - 1 {
      WrapStep(a, p, d);
      PlainNext(a, d, x, p.j, Pow2(p.h));
    } else if !IsBreak(x, p.j) {
      PlainStep(a, p, d, x);
      PlainNext(a, d, x, p.j, Pow2(p.h));
    } else {
      assert Pow2(p.h) >= 64 by { Sizes(p); }
      if IsSecond(x) {
        SecondLinked(a, p, d, x);
      } else {
        FirstLinked(a, p, d, x);
      }
    }
  }

  function Rows(j: nat): nat {
    if j == 0 then 1 else if j == 1 then 2 else if j == 2 then 4 else 8
  }

  /** n * m, for n up to 8. */
  function Times(n: int, m: nat): nat {
    if n <= 0 then 0 else if n == 1 then m else if n == 2 then 2 * m else if n == 3 then 3 * m
    else if n == 4 then 4 * m else if n == 5 then 5 * m else if n == 6 then 6 * m else if n == 7 then 7 * m else 8 * m
  }

  /** When a round trip that starts at column 0 of row 0 comes to column x of row d. The rows are entered in
      the order 0, 1, 3, 2, 6, 7, 5, 4 and left in the opposite one. */
  function When(d: nat, x: nat, j: nat, m: nat): int {
    var k := Rows(j);
    if d == 0 then (if x <= 32 then x else x + Times(k - 1, m))
    else if d == 1 then (if x <= 34 then x + m - 2 + Times(k - 2, m) else if x <= 36 then x - 2
                         else x - 2 + Times(k - 2, m))
    else if d == 3 then (if x <= 32 then x + m - 4 else if x <= 38 then x + m - 4 + Times(k - 3, m) else x - 4)
    else if d == 2 then (if x <= 34 then x + 2 * m - 6 + Times(k - 4, m) else if x <= 40 then x + m - 6
                         else x + m - 6 + Times(k - 4, m))
    else if d == 6 then (if x <= 32 then x + 2 * m - 8 else if x <= 42 then x + 5 * m - 8 else x + m - 8)
    else if d == 7 then (if x <= 34 then x + 5 * m - 10 else if x <= 36 then x + 2 * m - 10 else x + 4 * m - 10)
    else if d == 5 then (if x <= 32 then x + 3 * m - 12 else if x <= 38 then x + 4 * m - 12 else x + 2 * m - 12)
    else (if x <= 34 then x + 4 * m - 14 else x + 3 * m - 14)
  }

  predicate OneLater(d: nat, x: nat, next: (nat, nat), j: nat, m: nat) {
    next.0 < Rows(j) && next.1 < m && When(next.0, next.1, j, m) == When(d, x, j, m) + 1
  }

  lemma PlainLater(d: nat, x: nat, j: nat, m: nat)
    requires j <= 3 && (j >= 1 ==> m >= 64) && d < Rows(j) && x < m && !(d == 0 && x == m - 1)
    requires x == m - 1 || !IsBreak(x, j)
    ensures OneLater(d, x, if x == m - 1 then (d, 0) else (d, x + 1), j, m)
  {
  }

  lemma BreakLater(d: nat, x: nat, j: nat, m: nat)
    requires j <= 3 && m >= 64 && d < Rows(j) && IsBreak(x, j)
    ensures OneLater(d, x, Next(d, x, j, m), j, m)
  {
    assert x == 32 || x == 34 || (j >= 2 && (x == 36 || x == 38)) || (j == 3 && (x == 40 || x == 42));
    if x == 32 {
      Break32(d, j, m);
    } else if x == 34 {
      Break34(d, j, m);
    } else if x == 36 {
      Break36(d, j, m);
    } else if x == 38 {
      Break38(d, j, m);
    } else if x == 40 {
      Break40(d, m);
    } else {
      Break42(d, m);
    }
  }

  lemma Break32(d: nat, j: nat, m: nat)
    requires 1 <= j <= 3 && m >= 64 && d < Rows(j)
    ensures OneLater(d, 32, Next(d, 32, j, m), j, m)
  {
  }

  lemma Break34(d: nat, j: nat, m: nat)
    requires 1 <= j <= 3 && m >= 64 && d < Rows(j)
    ensures OneLater(d, 34, Next(d, 34, j, m), j, m)
  {
  }

  lemma Break36(d: nat, j: nat, m: nat)
    requires 2 <= j <= 3 && m >= 64 && d < Rows(j)
    ensures OneLater(d, 36, Next(d, 36, j, m), j, m)
  {
  }

  lemma Break38(d: nat, j: nat, m: nat)
    requires 2 <= j <= 3 && m >= 64 && d < Rows(j)
    ensures OneLater(d, 38, Next(d, 38, j, m), j, m)
  {
  }

  lemma Break40(d: nat, m: nat)
    requires m >= 64 && d < 8
    ensures OneLater(d, 40, Next(d, 40, 3, m), 3, m)
  {
  }

  lemma Break42(d: nat, m: nat)
    requires m >= 64 && d < 8
    ensures OneLater(d, 42, Next(d, 42, 3, m), 3, m)
  {
  }

  lemma WhenNext(d: nat, x: nat, j: nat, m: nat)
    requires j <= 3 && (j >= 1 ==> m >= 64) && d < Rows(j) && x < m && !(d == 0 && x == m - 1)
    ensures OneLater(d, x, Next(d, x, j, m), j, m)
  {
    if x != m - 1 && IsBreak(x, j) {
      BreakLater(d, x, j, m);
    } else {
      PlainLater(d, x, j, m);
    }
  }

  lemma WhenBounds(d: nat, x: nat, j: nat, m: nat)
    requires j <= 3 && (j >= 1 ==> m >= 64) && d < Rows(j) && x < m
    ensures 0 <= When(d, x, j, m) < Times(Rows(j), m)
    ensures d == 0 && x == 0 ==> When(d, x, j, m) == 0
    ensures d == 0 && x == m - 1 ==> When(d, x, j, m) == Times(Rows(j), m) - 1
    ensures d == Rows(j) - 1 && (j == 0 || x <= 32) ==> When(d, x, j, m) == When(d, 0, j, m) + x
  {
  }

  // ---- the walk ------------------------------------------------------------------------------------

  /** How many steps after moment b of the round trip. */
  function Rank(d: nat, x: nat, j: nat, m: nat, b: nat): int {
    var w := When(d, x, j, m);
    if w >= b then w - b else w - b + Times(Rows(j), m)
  }

  lemma RankNext(d: nat, x: nat, j: nat, m: nat, b: nat)
    requires j <= 3 && m >= 1 && (j >= 1 ==> m >= 64) && d < Rows(j) && x < m && b < Times(Rows(j), m)
    requires Rank(d, x, j, m, b) < Times(Rows(j), m) - 1
    ensures var (d', x') := Next(d, x, j, m);
      d' < Rows(j) && x' < m && Rank(d', x', j, m, b) == Rank(d, x, j, m, b) + 1
  {
    WhenBounds(d, x, j, m);
    WhenBounds(0, 0, j, m);
    if !(d == 0 && x == m - 1) {
      var (d', x') := Next(d, x, j, m);
      WhenNext(d, x, j, m);
      WhenBounds(d', x', j, m);
    }
  }

  lemma RowsIs(j: nat)
    requires j <= 3
    ensures Rows(j) == Pow2(j)
  {
    assert Pow2(1) == 2 && Pow2(2) == 4 && Pow2(3) == 8;
  }

  /** From rank r on every place of the k rows is out of range. */
  ghost predicate OutFrom(n: nat, p: Plan, b: nat, r: int)
    requires p.Valid()
  {
    forall d: nat, x: nat {:trigger Place(d, x, Pow2(p.h))} ::
      d < Rows(p.j) && d < Pow2(p.h) && x < Pow2(p.h) && Rank(d, x, p.j, Pow2(p.h), b) >= r ==>
        Place(d, x, Pow2(p.h)) >= n
  }

  lemma OneStepOut(a: Allocator, p: Plan, b: nat, d: nat, x: nat)
    requires Follows(a, p) && d < Rows(p.j) && x < Pow2(p.h) && b < Times(Rows(p.j), Pow2(p.h))
    requires Rank(d, x, p.j, Pow2(p.h), b) < Times(Rows(p.j), Pow2(p.h)) - 1 && (p.exits ==> b == 0)
    ensures var (d', x') := Next(d, x, p.j, Pow2(p.h));
      && d < Pow2(p.h) && d' < Pow2(p.h) && d' < Rows(p.j) && x' < Pow2(p.h)
      && Rank(d', x', p.j, Pow2(p.h), b) == Rank(d, x, p.j, Pow2(p.h), b) + 1
      && Permute(a, Place(d, x, Pow2(p.h))) == Place(d', x', Pow2(p.h))
  {
    var (d', x') := Next(d, x, p.j, Pow2(p.h));
    assert p.j >= 1 ==> Pow2(p.h) >= 64 by { Sizes(p); }
    RowsIs(p.j);
    RankNext(d, x, p.j, Pow2(p.h), b);
    WhenBounds(d, x, p.j, Pow2(p.h));
    NextLinked(a, p, d, x);
    LinkedPermute(a, d, x, d', x');
  }

  lemma {:induction false} StaysOut(a: Allocator, p: Plan, b: nat, r: int, d: nat, x: nat, fuel: nat)
    requires Follows(a, p) && d < Rows(p.j) && d < Pow2(p.h) && x < Pow2(p.h) && b < Times(Rows(p.j), Pow2(p.h))
    requires r <= Rank(d, x, p.j, Pow2(p.h), b) + 1 && (p.exits ==> b == 0) && OutFrom(a.n, p, b, r)
    requires Rank(d, x, p.j, Pow2(p.h), b) + fuel < Times(Rows(p.j), Pow2(p.h))
    ensures Walk(a, Place(d, x, Pow2(p.h)), fuel) == None
    decreases fuel
  {
    if fuel != 0 {
      var (d', x') := Next(d, x, p.j, Pow2(p.h));
      OneStepOut(a, p, b, d, x);
      assert Place(d', x', Pow2(p.h)) >= a.n;
      StaysOut(a, p, b, r, d', x', fuel - 1);
    }
  }

  // ---- when the cap can fail -----------------------------------------------------------------------

  lemma TimesIs(j: nat, m: nat)
    requires j <= 3
    ensures Times(Rows(j), m) == Rows(j) * m
  {
  }

  /** The k rows are the last k * m values, row k - 1 first. */
  lemma PlaceBounds(d: nat, x: nat, j: nat, m: nat)
    requires j <= 3 && d < Rows(j) <= m && x < m
    ensures (m - Rows(j)) * m + Times(Rows(j), m) == m * m
    ensures d == Rows(j) - 1 ==> Place(d, x, m) == (m - Rows(j)) * m + x
    ensures d < Rows(j) - 1 ==> Place(d, x, m) >= (m - Rows(j)) * m + m
  {
    var k := Rows(j);
    TimesIs(j, m);
    assert (m - k) * m + k * m == m * m;
    if d < k - 1 {
      MulMonotone(m - k + 1, m - 1 - d, m);
      assert (m - k + 1) * m == (m - k) * m + m;
    }
  }

  /** The first row of the domain that leads into the walk is in range. */
  lemma EntryInRange(n: nat, j: nat, m: nat)
    requires j <= 3 && 1 <= n && Rows(j) <= m && m * m <= 4 * n && (j >= 1 ==> m >= 64)
    ensures Place(m - Rows(j), 0, m) < n
  {
    var k := Rows(j);
    assert Place(m - k, 0, m) == (k - 1) * m;
    if j >= 1 {
      MulMonotone(64, m, m);
      MulMonotone(k - 1, 7, m);
    }
  }

  /** The caps in question: up to the length of a row, or at most 32 short of 2^j rows. */
  predicate Capped(h: nat, cap: nat, j: nat) {
    1 <= cap <= Times(Rows(j), Pow2(h)) && (j == 0 || Times(Rows(j), Pow2(h)) - 32 <= cap)
  }

  /** The range ends within the k rows, not before them. */
  predicate EndsInside(n: nat, h: nat, j: nat) {
    (Pow2(h) - Rows(j)) * Pow2(h) < n
  }

  /** The values of the padded domain that are out of range. */
  function OutOfRangeCount(n: nat): int
    requires n >= 1
  {
    Pow2(HalfWidth(n)) * Pow2(HalfWidth(n)) - n
  }

  /** A plan for a capacity. */
  ghost predicate PlanOf(p: Plan, n: nat) {
    n >= 1 && p.Valid() && p.h == HalfWidth(n) && Rows(p.j) == Pow2(p.j) <= Pow2(p.h)
  }

  lemma WalkFrom(n: nat, p: Plan, b: nat, r: int, d: nat, x: nat, fuel: nat, c: nat)
    requires PlanOf(p, n) && (p.exits ==> b == 0) && OutFrom(n, p, b, r)
    requires d < Rows(p.j) && x < Pow2(p.h) && b < Times(Rows(p.j), Pow2(p.h))
    requires r <= Rank(d, x, p.j, Pow2(p.h), b) + 1
    requires Rank(d, x, p.j, Pow2(p.h), b) + fuel < Times(Rows(p.j), Pow2(p.h)) && c == Place(d, x, Pow2(p.h))
    ensures Walk(For(Rounding(p), n), c, fuel) == None
  {
    StaysOut(For(Rounding(p), n), p, b, r, d, x, fuel);
  }

  // All k rows are out of range: a walk enters them from the start of the domain.

  lemma OutsideOutFrom(n: nat, p: Plan)
    requires PlanOf(p, n) && !EndsInside(n, p.h, p.j)
    ensures OutFrom(n, p, 0, 0) && Place(0, 0, Pow2(p.h)) >= n
  {
    forall d: nat, x: nat | d < Rows(p.j) && x < Pow2(p.h) ensures Place(d, x, Pow2(p.h)) >= n {
      PlaceBounds(d, x, p.j, Pow2(p.h));
    }
  }

  lemma FromStart(n: nat, cap: nat, p: Plan)
    requires PlanOf(p, n) && p.exits && Capped(p.h, cap, p.j) && !EndsInside(n, p.h, p.j)
    ensures Walk(For(Rounding(p), n), Place(0, 0, Pow2(p.h)), cap - 1) == None
  {
    OutsideOutFrom(n, p);
    Sizes(p);
    WhenBounds(0, 0, p.j, Pow2(p.h));
    WalkFrom(n, p, 0, 0, 0, 0, cap - 1, Place(0, 0, Pow2(p.h)));
  }

  lemma WalkStep(a: Allocator, c: nat, y: nat, cap: nat)
    requires Permute(a, c) == y && y >= a.n && cap >= 1 && Walk(a, y, cap - 1) == None
    ensures Walk(a, c, cap) == None
  {
  }

  lemma EntryGoes(n: nat, p: Plan, c: nat)
    requires PlanOf(p, n) && p.exits && c == Place(Pow2(p.h) - Rows(p.j), 0, Pow2(p.h))
    ensures Permute(For(Rounding(p), n), c) == Place(0, 0, Pow2(p.h))
  {
    EntryStep(For(Rounding(p), n), p);
    LinkedPermute(For(Rounding(p), n), Pow2(p.h) - Pow2(p.j), 0, 0, 0);
  }

  lemma EntryBelow(n: nat, p: Plan)
    requires PlanOf(p, n)
    ensures Place(Pow2(p.h) - Rows(p.j), 0, Pow2(p.h)) < n
  {
    Sizes(p);
    HalfWidthBounds(n);
    EntryInRange(n, p.j, Pow2(p.h));
  }

  lemma FailsFromOutside(n: nat, cap: nat, p: Plan) returns (c: nat)
    requires PlanOf(p, n) && p.exits && Capped(p.h, cap, p.j) && !EndsInside(n, p.h, p.j)
    ensures c < n && Walk(For(Rounding(p), n), c, cap) == None
  {
    c := Place(Pow2(p.h) - Rows(p.j), 0, Pow2(p.h));
    assert c < n by { EntryBelow(n, p); }
    assert Place(0, 0, Pow2(p.h)) >= n by { OutsideOutFrom(n, p); }
    FromStart(n, cap, p);
    EntryGoes(n, p, c);
    WalkStep(For(Rounding(p), n), c, Place(0, 0, Pow2(p.h)), cap);
  }

  // The range ends within row k - 1: a walk from its last value goes round all the others.

  /** The last value in range is column r - 1 of row k - 1, and the round trip from the start of that row
      comes to it first. */
  lemma LastInRange(n: nat, cap: nat, p: Plan) returns (r: nat, b: nat)
    requires PlanOf(p, n) && Capped(p.h, cap, p.j) && EndsInside(n, p.h, p.j) && OutOfRangeCount(n) >= cap
    ensures 1 <= r <= Pow2(p.h) && r + cap <= Times(Rows(p.j), Pow2(p.h)) && b < Times(Rows(p.j), Pow2(p.h))
    ensures Place(Rows(p.j) - 1, r - 1, Pow2(p.h)) == n - 1 && Rank(Rows(p.j) - 1, r - 1, p.j, Pow2(p.h), b) == r - 1
    ensures OutFrom(n, p, b, r)
  {
    var m, k := Pow2(p.h), Rows(p.j);
    assert p.j >= 1 ==> m >= 64 by { Sizes(p); }
    PlaceBounds(k - 1, 0, p.j, m);
    r := n - (m - k) * m;
    WhenBounds(k - 1, 0, p.j, m);
    b := When(k - 1, 0, p.j, m);
    assert Place(k - 1, r - 1, m) == n - 1 by { PlaceBounds(k - 1, r - 1, p.j, m); }
    assert Rank(k - 1, r - 1, p.j, m, b) == r - 1 by { WhenBounds(k - 1, r - 1, p.j, m); }
    assert OutFrom(n, p, b, r) by { InsideOutFrom(n, p, b, r, (m - k) * m); }
  }

  lemma InsideOutFrom(n: nat, p: Plan, b: nat, r: nat, start: nat)
    requires PlanOf(p, n) && b == When(Rows(p.j) - 1, 0, p.j, Pow2(p.h))
    requires start == (Pow2(p.h) - Rows(p.j)) * Pow2(p.h) && n == start + r && r <= Pow2(p.h) && (p.j == 0 || r <= 32)
    ensures OutFrom(n, p, b, r)
  {
    forall d: nat, x: nat
      | d < Rows(p.j) && d < Pow2(p.h) && x < Pow2(p.h) && Rank(d, x, p.j, Pow2(p.h), b) >= r
      ensures Place(d, x, Pow2(p.h)) >= n
    {
      InsidePlace(n, p, b, r, start, d, x);
    }
  }

  lemma InsidePlace(n: nat, p: Plan, b: nat, r: nat, start: nat, d: nat, x: nat)
    requires PlanOf(p, n) && b == When(Rows(p.j) - 1, 0, p.j, Pow2(p.h))
    requires start == (Pow2(p.h) - Rows(p.j)) * Pow2(p.h) && n == start + r && r <= Pow2(p.h) && (p.j == 0 || r <= 32)
    requires d < Rows(p.j) && x < Pow2(p.h) && Rank(d, x, p.j, Pow2(p.h), b) >= r
    ensures Place(d, x, Pow2(p.h)) >= n
  {
    assert p.j >= 1 ==> Pow2(p.h) >= 64 by { Sizes(p); }
    PlaceBounds(d, x, p.j, Pow2(p.h));
    WhenBounds(d, x, p.j, Pow2(p.h));
  }

  lemma FailsFromInside(n: nat, cap: nat, p: Plan) returns (c: nat)
    requires PlanOf(p, n) && !p.exits && Capped(p.h, cap, p.j) && EndsInside(n, p.h, p.j) && OutOfRangeCount(n) >= cap
    ensures c < n && Walk(For(Rounding(p), n), c, cap) == None
  {
    var r, b := LastInRange(n, cap, p);
    c := n - 1;
    WalkFrom(n, p, b, r, Rows(p.j) - 1, r - 1, cap, c);
  }

  /** On every domain with at least as many values out of range as the cap, a plan and a cursor whose walk
      exceeds the cap: for a cap of at most a row, or of just under k = 2^j rows. */
  lemma CapCanFail(n: nat, cap: nat, j: nat) returns (p: Plan, c: nat)
    requires n >= 1 && Plan(HalfWidth(n), j, true).Valid() && Capped(HalfWidth(n), cap, j) && OutOfRangeCount(n) >= cap
    ensures p.Valid() && c < n && IndexWithin(For(Rounding(p), n), c, cap) == Err(DidNotConverge)
  {
    p := PlanFor(n, j, !EndsInside(n, HalfWidth(n), j));
    if p.exits {
      c := FailsFromOutside(n, cap, p);
    } else {
      c := FailsFromInside(n, cap, p);
    }
    NoIndex(For(Rounding(p), n), c, cap);
  }

  lemma PlanFor(n: nat, j: nat, exits: bool) returns (p: Plan)
    requires n >= 1 && Plan(HalfWidth(n), j, true).Valid()
    ensures p == Plan(HalfWidth(n), j, exits) && PlanOf(p, n)
  {
    p := Plan(HalfWidth(n), j, exits);
    RowsIs(j);
    Pow2Monotone(j, HalfWidth(n));
  }

  lemma NoIndex(a: Allocator, c: nat, cap: nat)
    requires c < a.n && Walk(a, c, cap) == None
    ensures IndexWithin(a, c, cap) == Err(DidNotConverge)
  {
  }

  /** No round function and no cursor exceed the cap. */
  ghost predicate AlwaysConverges(n: nat, cap: nat)
    requires n >= 1
  {
    forall round: RoundFunction, c: nat :: c < n ==> IndexWithin(For(round, n), c, cap).Ok?
  }

  /** A cap above the number of values out of range is always enough. */
  lemma FewOutside(n: nat, cap: nat)
    requires n >= 1 && OutOfRangeCount(n) < cap
    ensures AlwaysConverges(n, cap)
  {
    forall round: RoundFunction, c: nat | c < n ensures IndexWithin(For(round, n), c, cap).Ok? {
      var k := WalkReturns(For(round, n), c);
      WalkIsFirstReturn(For(round, n), c, k, cap);
    }
  }

  /** Exactly when a cap never fails, for every capacity: a cap of at most a row, or of just under 2^j
      rows. */
  lemma CapExact(n: nat, cap: nat, j: nat)
    requires n >= 1 && Plan(HalfWidth(n), j, true).Valid() && Capped(HalfWidth(n), cap, j)
    ensures AlwaysConverges(n, cap) <==> OutOfRangeCount(n) < cap
  {
    if OutOfRangeCount(n) < cap {
      FewOutside(n, cap);
    } else {
      var p, c := CapCanFail(n, cap, j);
    }
  }
}
