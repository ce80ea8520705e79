/** When the cap of the cycle walk is enough, for every capacity. */
module Convergence {
  import opened Prelude
  import opened Allocator
  import opened LongWalks
  import opened SixBits

  /** Exactly when `Index` always converges, for every capacity: fewer than 1000 values are out of range.
      Halves of five bits or fewer never have as many. */
  lemma IndexConvergesExactly(n: nat)
    requires n >= 1
    ensures AlwaysConverges(n, MAX_CYCLE_WALKS) <==> OutOfRangeCount(n) < 1000
    ensures HalfWidth(n) <= 5 ==> AlwaysConverges(n, MAX_CYCLE_WALKS)
  {
    if HalfWidth(n) <= 5 {
      SmallDomain(n);
      FewOutside(n, MAX_CYCLE_WALKS);
    } else if HalfWidth(n) == 6 {
      SixBitsExact(n);
    } else {
      var h := HalfWidth(n);
      var j := if h >= 10 then 0 else 10 - h;
      PlanFits(h, j);
      CapExact(n, MAX_CYCLE_WALKS, j);
    }
  }

  lemma SixBitsExact(n: nat)
    requires n >= 1 && HalfWidth(n) == 6
    ensures AlwaysConverges(n, MAX_CYCLE_WALKS) <==> OutOfRangeCount(n) < MAX_CYCLE_WALKS
  {
    if OutOfRangeCount(n) < MAX_CYCLE_WALKS {
      FewOutside(n, MAX_CYCLE_WALKS);
    } else {
      SixBitsFail(n);
    }
  }

  lemma PlanFits(h: nat, j: nat)
    requires h >= 7 && j == if h >= 10 then 0 else 10 - h
    ensures Plan(h, j, true).Valid()
    ensures Capped(h, 1000, j)
  {
    if h >= 10 {
      Pow2Monotone(10, h);
      assert Pow2(10) == 1024;
      MoreThanBits(h);
    } else {
      assert Pow2(4) == 16 && Pow2(6) == 64 && Pow2(7) == 128 && Pow2(8) == 256 && Pow2(9) == 512;
    }
  }

  lemma {:induction false} MoreThanBits(h: nat)
    ensures h < Pow2(h)
  {
    if h != 0 {
      MoreThanBits(h - 1);
    }
  }

  lemma SmallDomain(n: nat)
    requires n >= 1 && HalfWidth(n) <= 5
    ensures OutOfRangeCount(n) < MAX_CYCLE_WALKS
  {
    var h := HalfWidth(n);
    HalfWidthBounds(n);
    Squared(h);
    Pow2Monotone(h + h, 10);
    assert Pow2(10) == 1024;
  }
}
