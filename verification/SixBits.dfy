/** Halves of six bits, too small for the planned walks: the tour of the tables is a walk of the network on
    numbers. */
module SixBits {
  import opened Prelude
  import opened Allocator
  import opened LongWalks
  import opened SixBitTour

  // ---- the rounds of a step ----------------------------------------------------------------------

  // The halves between the rounds, each unfolded like the step itself.

  function X1(p: bv12): bv12 {
    (p >> 6) ^ F0(p & 63)
  }

  function X2(p: bv12): bv12 {
    var r := p & 63;
    var x1 := (p >> 6) ^ F0(r);
    r ^ F1(x1)
  }

  function X3(p: bv12): bv12 {
    var r := p & 63;
    var x1 := (p >> 6) ^ F0(r);
    var x2 := r ^ F1(x1);
    x1 ^ F2(x2)
  }

  function X4(p: bv12): bv12 {
    var r := p & 63;
    var x1 := (p >> 6) ^ F0(r);
    var x2 := r ^ F1(x1);
    var x3 := x1 ^ F2(x2);
    x2 ^ F3(x3)
  }

  lemma X2Is(p: bv12)
    ensures X2(p) == (p & 63) ^ F1(X1(p))
  {
  }

  lemma X3Is(p: bv12)
    ensures X3(p) == X1(p) ^ F2(X2(p))
  {
  }

  lemma X4Is(p: bv12)
    ensures X4(p) == X2(p) ^ F3(X3(p))
  {
  }

  lemma LeapIs(p: bv12)
    ensures Leap(p) == (X3(p) << 6) | X4(p)
  {
  }

  // ---- bits as numbers ---------------------------------------------------------------------------

  /** The value of the last k bits. */
  function Val(b: bv12, k: nat): nat {
    if k == 0 then 0 else (if b & 1 == 1 then 1 else 0) + 2 * Val(b >> 1, k - 1)
  }

  function Bits(x: nat, k: nat): bv12 {
    if k == 0 then 0 else (if x % 2 == 1 then 1 else 0) | (Bits(x / 2, k - 1) << 1)
  }

  /** No more than k bits. */
  predicate Within(b: bv12, k: nat) {
    if k == 0 then b == 0 else Within(b >> 1, k - 1)
  }

  lemma {:induction false} ValBound(b: bv12, k: nat)
    ensures Val(b, k) < Pow2(k)
  {
    if k != 0 {
      ValBound(b >> 1, k - 1);
    }
  }

  lemma {:induction false} BitsOfVal(b: bv12, k: nat)
    requires Within(b, k)
    ensures Bits(Val(b, k), k) == b
  {
    if k != 0 {
      BitsOfVal(b >> 1, k - 1);
      BitsStep(b, k, Val(b, k));
    }
  }

  lemma BitsStep(b: bv12, k: nat, x: nat)
    requires k >= 1 && x == Val(b, k) && Bits(Val(b >> 1, k - 1), k - 1) == b >> 1
    ensures Bits(x, k) == b
  {
    ValHalf(b, k);
    LastBit(b);
    assert Bits(x / 2, k - 1) == b >> 1;
  }

  lemma LastBit(b: bv12)
    ensures (if b & 1 == 1 then 1 else 0) | ((b >> 1) << 1) == b
  {
  }

  lemma WithinSix(b: bv12)
    requires b <= 63
    ensures Within(b, 6)
  {
    var b1 := b >> 1;
    var b2 := b1 >> 1;
    var b3 := b2 >> 1;
    var b4 := b3 >> 1;
    var b5 := b4 >> 1;
    SixShifts(b);
    assert Within(b5 >> 1, 0);
    assert Within(b5, 1);
    assert Within(b4, 2);
    assert Within(b3, 3);
    assert Within(b2, 4);
    assert Within(b1, 5);
  }

  lemma SixShifts(b: bv12)
    requires b <= 63
    ensures (((((b >> 1) >> 1) >> 1) >> 1) >> 1) >> 1 == 0
  {
  }

  /** Exclusive or of numbers is that of their bits. */
  lemma {:induction false} XorVal(a: bv12, b: bv12, k: nat)
    ensures XorsTo(a, b, k)
  {
    if k == 0 {
      XorNone(a, b, k);
    } else {
      XorVal(a >> 1, b >> 1, k - 1);
      XorStep(a, b, k, Val(a, k), Val(b, k), Val(a ^ b, k));
    }
  }

  ghost predicate XorsTo(a: bv12, b: bv12, k: nat) {
    Xor(Val(a, k), Val(b, k)) == Val(a ^ b, k)
  }

  lemma XorNone(a: bv12, b: bv12, k: nat)
    requires k == 0
    ensures XorsTo(a, b, k)
  {
    XorZero(0);
  }

  lemma XorShift(a: bv12, b: bv12)
    ensures (a ^ b) >> 1 == (a >> 1) ^ (b >> 1)
    ensures (a ^ b) & 1 == 1 <==> !(a & 1 == 1 <==> b & 1 == 1)
  {
  }

  lemma ValHalf(b: bv12, k: nat)
    requires k >= 1
    ensures Val(b, k) / 2 == Val(b >> 1, k - 1) && Bit(Val(b, k)) == if b & 1 == 1 then 1 else 0
  {
  }

  lemma XorStep(a: bv12, b: bv12, k: nat, p: nat, q: nat, x: nat)
    requires k >= 1 && p == Val(a, k) && q == Val(b, k) && x == Val(a ^ b, k)
    requires XorsTo(a >> 1, b >> 1, k - 1)
    ensures XorsTo(a, b, k)
  {
    XorShift(a, b);
    ValHalf(a, k);
    ValHalf(b, k);
    ValHalf(a ^ b, k);
    XorHalves(p, q);
    SameHalves(p, q, p, q, x);
  }

  lemma {:induction false} ValOrder(a: bv12, b: bv12, k: nat)
    requires Within(a, k) && Within(b, k) && a < b
    ensures Val(a, k) < Val(b, k)
  {
    WithinHalf(a, b, k);
    if a >> 1 < b >> 1 {
      ValOrder(a >> 1, b >> 1, k - 1);
      OrderStep(a, b, k);
    } else {
      OrderStep(a, b, k);
    }
  }

  lemma WithinHalf(a: bv12, b: bv12, k: nat)
    requires Within(a, k) && Within(b, k) && a < b
    ensures k >= 1 && Within(a >> 1, k - 1) && Within(b >> 1, k - 1)
    ensures a >> 1 < b >> 1 || (a >> 1 == b >> 1 && a & 1 != 1 && b & 1 == 1)
  {
    ShiftOrder(a, b);
  }

  lemma OrderStep(a: bv12, b: bv12, k: nat)
    requires k >= 1
    requires Val(a >> 1, k - 1) < Val(b >> 1, k - 1) || (a >> 1 == b >> 1 && a & 1 != 1 && b & 1 == 1)
    ensures Val(a, k) < Val(b, k)
  {
    ValHalf(a, k);
    ValHalf(b, k);
  }

  lemma ShiftOrder(a: bv12, b: bv12)
    requires a < b
    ensures a >> 1 < b >> 1 || (a >> 1 == b >> 1 && a & 1 != 1 && b & 1 == 1)
  {
  }

  /** The number of a place, for h = 6. */
  function Number(p: bv12, h: nat): nat {
    Joined(Val(p >> 6, h), Val(p & 63, h), Pow2(h))
  }

  // ---- the walk on numbers ---------------------------------------------------------------------------

  function TableRound(k: nat, x: nat, h: nat): nat {
    var b := Bits(x, h);
    if k == 0 then Val(F0(b), h) else if k == 1 then Val(F1(b), h)
    else if k == 2 then Val(F2(b), h) else if k == 3 then Val(F3(b), h) else 0
  }

  /** The tables as a round function. */
  function Tabled(h: nat): RoundFunction {
    (k, x) => TableRound(k, x, h)
  }

  ghost predicate Six(a: Allocator) {
    a.half == 6 && a.round == Tabled(a.half)
  }

  lemma BitsBack(x: bv12, h: nat)
    requires x <= 63 && h == 6
    ensures Bits(Val(x, h), h) == x
  {
    WithinSix(x);
    BitsOfVal(x, h);
  }

  lemma RoundsAre(a: Allocator, x: bv12)
    requires Six(a) && x <= 63
    ensures a.round(0, Val(x, a.half)) == Val(F0(x), a.half) && a.round(1, Val(x, a.half)) == Val(F1(x), a.half)
    ensures a.round(2, Val(x, a.half)) == Val(F2(x), a.half) && a.round(3, Val(x, a.half)) == Val(F3(x), a.half)
  {
    BitsBack(x, a.half);
  }

  lemma TableBounds(x: bv12)
    ensures F0(x) <= 63 && F1(x) <= 63 && F2(x) <= 63 && F3(x) <= 63
  {
  }

  lemma XorSix(a: bv12, b: bv12)
    requires a <= 63 && b <= 63
    ensures a ^ b <= 63
  {
  }

  lemma PlaceHalves(p: bv12)
    ensures p >> 6 <= 63 && p & 63 <= 63
  {
  }

  lemma HalfBounds(p: bv12)
    ensures X1(p) <= 63 && X2(p) <= 63 && X3(p) <= 63 && X4(p) <= 63
  {
    PlaceHalves(p);
    TableBounds(p & 63);
    XorSix(p >> 6, F0(p & 63));
    TableBounds(X1(p));
    X2Is(p);
    XorSix(p & 63, F1(X1(p)));
    TableBounds(X2(p));
    X3Is(p);
    XorSix(X1(p), F2(X2(p)));
    TableBounds(X3(p));
    X4Is(p);
    XorSix(X2(p), F3(X3(p)));
  }

  /** The two halves of a place, put together and taken apart. */
  lemma Halves(l: bv12, r: bv12)
    requires l <= 63 && r <= 63
    ensures ((l << 6) | r) >> 6 == l && ((l << 6) | r) & 63 == r
  {
  }

  lemma LeapHalves(p: bv12)
    ensures Leap(p) >> 6 == X3(p) && Leap(p) & 63 == X4(p)
  {
    HalfBounds(p);
    LeapIs(p);
    Halves(X3(p), X4(p));
  }

  lemma MixedIs(a: Allocator, k: nat, x: bv12, l: bv12, f: bv12)
    requires a.round(k, Val(x, a.half)) == Val(f, a.half)
    ensures Mixed(a, k, Val(x, a.half), Val(l, a.half)) == Val(l ^ f, a.half)
  {
    ValBound(f, a.half);
    Small(Val(f, a.half), Pow2(a.half));
    XorVal(l, f, a.half);
  }

  // The four rounds, each with one of its two halves replaced.

  lemma FirstRound(a: Allocator, p: bv12)
    requires Six(a)
    ensures Mixed(a, 0, Val(p & 63, a.half), Val(p >> 6, a.half)) == Val(X1(p), a.half)
  {
    PlaceHalves(p);
    RoundsAre(a, p & 63);
    MixedIs(a, 0, p & 63, p >> 6, F0(p & 63));
  }

  lemma SecondRound(a: Allocator, p: bv12)
    requires Six(a)
    ensures Mixed(a, 1, Val(X1(p), a.half), Val(p & 63, a.half)) == Val(X2(p), a.half)
  {
    HalfBounds(p);
    RoundsAre(a, X1(p));
    X2Is(p);
    MixedIs(a, 1, X1(p), p & 63, F1(X1(p)));
  }

  lemma ThirdRound(a: Allocator, p: bv12)
    requires Six(a)
    ensures Mixed(a, 2, Val(X2(p), a.half), Val(X1(p), a.half)) == Val(X3(p), a.half)
  {
    HalfBounds(p);
    RoundsAre(a, X2(p));
    X3Is(p);
    MixedIs(a, 2, X2(p), X1(p), F2(X2(p)));
  }

  lemma FourthRound(a: Allocator, p: bv12)
    requires Six(a)
    ensures Mixed(a, 3, Val(X3(p), a.half), Val(X2(p), a.half)) == Val(X4(p), a.half)
  {
    HalfBounds(p);
    RoundsAre(a, X3(p));
    X4Is(p);
    MixedIs(a, 3, X3(p), X2(p), F3(X3(p)));
  }

  lemma LeapPermute(a: Allocator, p: bv12)
    requires Six(a)
    ensures Permute(a, Number(p, a.half)) == Number(Leap(p), a.half)
  {
    var h := a.half;
    assert Chained(a, Val(p >> 6, h), Val(p & 63, h), Val(X1(p), h), Val(X2(p), h), Val(X3(p), h), Val(X4(p), h)) by {
      FirstRound(a, p);
      SecondRound(a, p);
      ThirdRound(a, p);
      FourthRound(a, p);
    }
    assert Number(Leap(p), h) == Joined(Val(X3(p), h), Val(X4(p), h), Pow2(h)) by {
      LeapHalves(p);
    }
    ValBound(p >> 6, h);
    ValBound(p & 63, h);
    ChainedPermute(a, Val(p >> 6, h), Val(p & 63, h), Val(X1(p), h), Val(X2(p), h), Val(X3(p), h), Val(X4(p), h));
  }

  // ---- the walk that runs too long ---------------------------------------------------------------------

  /** Place 3096 is the number 3096, in row 48. */
  lemma Border(h: nat)
    requires h == 6
    ensures Val(48, h) == 48 && Val(24, h) == 24 && Pow2(h) == 64
  {
    assert Val(3, 2) == 3 && Val(12, 4) == 12;
    assert Val(24, 5) == 24;
  }

  lemma AtLeast(b: bv12, c: bv12, h: nat)
    requires b <= c <= 63 && h == 6
    ensures Val(b, h) <= Val(c, h)
  {
    if b != c {
      WithinSix(b);
      WithinSix(c);
      ValOrder(b, c, h);
    }
  }

  lemma Above(b: bv12, c: bv12, h: nat)
    requires b < c <= 63 && h == 6
    ensures Val(b, h) < Val(c, h)
  {
    WithinSix(b);
    WithinSix(c);
    ValOrder(b, c, h);
  }

  lemma LastHalves(q: bv12)
    requires q >= 3096
    ensures q >> 6 > 48 || (q >> 6 == 48 && q & 63 >= 24)
  {
  }

  /** The last 1000 places are the last 1000 numbers. */
  lemma LastNumbers(q: bv12, h: nat)
    requires q >= 3096 && h == 6
    ensures Number(q, h) >= 3096
  {
    PlaceHalves(q);
    LastHalves(q);
    Border(h);
    if q >> 6 > 48 {
      Above(48, q >> 6, h);
    } else {
      AtLeast(24, q & 63, h);
    }
  }

  lemma StartNumber(h: nat)
    requires h == 6
    ensures Number(261, h) == 261
  {
    assert (261 as bv12) >> 6 == 4 && (261 as bv12) & 63 == 5;
    assert Val(4, h) == 4 && Val(5, h) == 5 && Pow2(h) == 64;
  }

  /** A tour of places out of range is a walk that finds nothing. */
  lemma {:induction false} TourOut(a: Allocator, t: seq<bv12>, i: nat)
    requires Six(a) && a.n <= 3096 && i < |t| && Path(t)
    ensures Walk(a, Number(t[i], a.half), |t| - 1 - i) == None
    decreases |t| - i
  {
    if i < |t| - 1 {
      assert Hop(t[i], t[i + 1]);
      TourOut(a, t, i + 1);
      LeapPermute(a, t[i]);
      LastNumbers(t[i + 1], a.half);
      WalkStep(a, Number(t[i], a.half), Number(t[i + 1], a.half), |t| - 1 - i);
    }
  }

  /** On halves of six bits with at least 1000 values out of range, cursor 261 exceeds the cap. */
  lemma SixBitsFail(n: nat)
    requires n >= 1 && HalfWidth(n) == 6 && OutOfRangeCount(n) >= MAX_CYCLE_WALKS
    ensures 261 < n && Index(For(Tabled(HalfWidth(n)), n), 261) == Err(DidNotConverge)
  {
    HalfWidthBounds(n);
    Border(HalfWidth(n));
    var a := For(Tabled(HalfWidth(n)), n);
    var t := Leg00();
    StartNumber(a.half);
    TourOut(a, t, 0);
    NoIndex(a, 261, MAX_CYCLE_WALKS);
  }

  /** The tables leave 0 where it is. */
  lemma TablesKeepZero(n: nat)
    requires n >= 1 && HalfWidth(n) == 6
    ensures Index(For(Tabled(HalfWidth(n)), n), 0) == Ok(0)
  {
    var a := For(Tabled(HalfWidth(n)), n);
    ZeroStays(a.half);
    LeapPermute(a, 0);
    FoundAtOnce(a, 0, 0, MAX_CYCLE_WALKS);
  }

  lemma ZeroStays(h: nat)
    requires h == 6
    ensures Leap(0) == 0 && Number(0, h) == 0
  {
    LeapZero();
    assert Val(0, h) == 0;
  }

  lemma LeapZero()
    ensures Leap(0) == 0
  {
  }

  lemma FoundAtOnce(a: Allocator, c: nat, y: nat, cap: nat)
    requires c < a.n && Permute(a, c) == y < a.n && cap >= 1
    ensures IndexWithin(a, c, cap) == Ok(y)
  {
  }
}
