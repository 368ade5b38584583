/** Machine words as numbers: bit `i` is found by halving `i` times. `__rt_ffs` of `src/kservice.c`. */
module Bits {
  predicate Bit(x: nat, i: nat) { if i == 0 then x % 2 == 1 else Bit(x / 2, i - 1) }

  /** `x | (1 << i)` */
  function SetBit(x: nat, i: nat): nat { if i == 0 then x - x % 2 + 1 else x % 2 + 2 * SetBit(x / 2, i - 1) }

  /** `x & ~(1 << i)` */
  function ClearBit(x: nat, i: nat): nat { if i == 0 then x - x % 2 else x % 2 + 2 * ClearBit(x / 2, i - 1) }

  /** `x` has no bits from bit `n` on. */
  predicate Fits(x: nat, n: nat) { if n == 0 then x == 0 else Fits(x / 2, n - 1) }

  lemma {:induction false} BitOfSet(x: nat, i: nat, j: nat)
    ensures Bit(SetBit(x, i), j) <==> Bit(x, j) || i == j
  {
    if i > 0 && j > 0 {
      BitOfSet(x / 2, i - 1, j - 1);
    }
  }

  lemma {:induction false} BitOfClear(x: nat, i: nat, j: nat)
    ensures Bit(ClearBit(x, i), j) <==> Bit(x, j) && i != j
  {
    if i > 0 && j > 0 {
      BitOfClear(x / 2, i - 1, j - 1);
    }
  }

  lemma {:induction false} SetFits(x: nat, i: nat, n: nat)
    requires Fits(x, n) && i < n
    ensures Fits(SetBit(x, i), n)
  {
    if i > 0 {
      SetFits(x / 2, i - 1, n - 1);
    }
  }

  lemma {:induction false} ClearZero(i: nat)
    ensures ClearBit(0, i) == 0
  {
    if i > 0 { ClearZero(i - 1); }
  }

  lemma {:induction false} ClearFits(x: nat, i: nat, n: nat)
    requires Fits(x, n)
    ensures Fits(ClearBit(x, i), n)
  {
    if n > 0 {
      if i > 0 { ClearFits(x / 2, i - 1, n - 1); }
    } else {
      ClearZero(i);
    }
  }

  lemma {:induction false} NoBits(i: nat)
    ensures !Bit(0, i)
  {
    if i > 0 { NoBits(i - 1); }
  }

  /** The index of the lowest bit that is set. */
  function Lowest(x: nat): (k: nat)
    requires x > 0
    ensures Bit(x, k)
  {
    if x % 2 == 1 then 0 else 1 + Lowest(x / 2)
  }

  lemma {:induction false} LowestIs(x: nat, n: nat, i: nat)
    requires x > 0 && Fits(x, n)
    ensures Lowest(x) < n
    ensures i < Lowest(x) ==> !Bit(x, i)
  {
    if x % 2 == 0 {
      LowestIs(x / 2, n - 1, if i > 0 then i - 1 else 0);
    }
  }

  /** A word is zero exactly when it has no bits. */
  lemma ZeroIff(x: nat, n: nat)
    requires Fits(x, n)
    ensures x == 0 ==> forall i: nat :: !Bit(x, i)
    ensures x > 0 ==> Lowest(x) < n && Bit(x, Lowest(x))
  {
    if x > 0 {
      LowestIs(x, n, 0);
    } else {
      forall i: nat ensures !Bit(x, i) { NoBits(i); }
    }
  }

  /** The first row of __lowest_bit_bitmap, and its first column. The other rows are like the first one but
      for the first entry. */
  const ROW: seq<nat> := [0, 0, 1, 0, 2, 0, 1, 0, 3, 0, 1, 0, 2, 0, 1, 0]
  const COLUMN: seq<nat> := [0, 4, 5, 4, 6, 4, 5, 4, 7, 4, 5, 4, 6, 4, 5, 4]

  function LowestBitMap(b: nat): nat
    requires b < 256
  {
    if b % 16 == 0 then COLUMN[b / 16] else ROW[b % 16]
  }

  /** __rt_ffs */
  function Ffs(value: nat): nat
    requires value < 0x1_0000_0000
  {
    if value == 0 then 0
    else if value % 256 != 0 then LowestBitMap(value % 256) + 1
    else if value / 256 % 256 != 0 then LowestBitMap(value / 256 % 256) + 9
    else if value / 65536 % 256 != 0 then LowestBitMap(value / 65536 % 256) + 17
    else LowestBitMap(value / 16777216 % 256) + 25
  }

  lemma LowestByHalves(x: nat)
    requires x > 0
    ensures x % 2 == 1 ==> Lowest(x) == 0
    ensures x % 2 == 0 ==> Lowest(x) == 1 + Lowest(x / 2)
  {
  }

  lemma Half4(x: nat)
    requires x > 0 && x % 16 == 0
    ensures Lowest(x) == 4 + Lowest(x / 16)
  {
    hide Lowest;
    LowestByHalves(x);
    LowestByHalves(x / 2);
    LowestByHalves(x / 4);
    LowestByHalves(x / 8);
  }

  lemma Half8(x: nat)
    requires x > 0 && x % 256 == 0
    ensures Lowest(x) == 8 + Lowest(x / 256)
  {
    hide Lowest;
    var q := x / 256;
    assert x == q * 256;
    assert x / 16 == q * 16 && x / 16 / 16 == q;
    Half4(x);
    Half4(x / 16);
  }

  function LowestOfNibble(r: nat): nat {
    if r % 2 == 1 then 0 else if r % 4 == 2 then 1 else if r % 8 == 4 then 2 else 3
  }

  lemma RowEntry(r: nat)
    requires 0 < r < 16
    ensures ROW[r] == LowestOfNibble(r)
  {
  }

  lemma Mod2(q: nat, r: nat)
    ensures (16 * q + r) % 2 == r % 2
  {
    var h, b := r / 2, r % 2;
    assert r == 2 * h + b;
    var k := 8 * q + h;
    assert (2 * k + b) % 2 == b;
    assert 16 * q + r == 2 * k + b;
  }

  lemma Mod4(q: nat, r: nat)
    ensures (16 * q + r) % 4 == r % 4
  {
    var h, b := r / 4, r % 4;
    assert r == 4 * h + b;
    var k := 4 * q + h;
    assert (4 * k + b) % 4 == b;
    assert 16 * q + r == 4 * k + b;
  }

  lemma Mod8(q: nat, r: nat)
    ensures (16 * q + r) % 8 == r % 8
  {
    var h, b := r / 8, r % 8;
    assert r == 8 * h + b;
    var k := 2 * q + h;
    assert (8 * k + b) % 8 == b;
    assert 16 * q + r == 8 * k + b;
  }

  lemma SameNibble(q: nat, r: nat)
    ensures LowestOfNibble(r) == LowestOfNibble(16 * q + r)
  {
    Mod2(q, r);
    Mod4(q, r);
    Mod8(q, r);
  }

  lemma Halves(x: nat)
    ensures x / 2 / 2 == x / 4 && x / 4 / 2 == x / 8
    ensures x % 2 == 0 ==> (x / 2 % 2 == 1 <==> x % 4 == 2) && (x / 2 % 2 == 0 <==> x % 4 == 0)
    ensures x % 4 == 0 ==> (x / 4 % 2 == 1 <==> x % 8 == 4) && (x / 4 % 2 == 0 <==> x % 8 == 0)
    ensures x % 8 == 0 ==> (x / 8 % 2 == 1 <==> x % 16 != 0)
  {
    var q, b := x / 16, x % 16;
    assert x == 16 * q + b;
    Mod2(q, b);
    Mod4(q, b);
    Mod8(q, b);
    assert x / 2 == 8 * q + b / 2 && x / 4 == 4 * q + b / 4 && x / 8 == 2 * q + b / 8;
  }

  lemma LowestInRow(x: nat)
    requires x % 16 != 0
    ensures Lowest(x) == LowestOfNibble(x)
  {
    hide Lowest;
    Halves(x);
    LowestByHalves(x);
    if x % 2 == 0 {
      LowestByHalves(x / 2);
      if x % 4 == 0 {
        LowestByHalves(x / 4);
        if x % 8 == 0 { LowestByHalves(x / 8); }
      }
    }
  }

  lemma RowIs(x: nat)
    requires x % 16 != 0
    ensures Lowest(x) == ROW[x % 16]
  {
    hide Lowest, ROW, LowestOfNibble;
    LowestInRow(x);
    assert x == 16 * (x / 16) + x % 16;
    SameNibble(x / 16, x % 16);
    RowEntry(x % 16);
  }

  lemma Nibbles(x: nat)
    ensures x % 256 % 16 == x % 16 && x % 256 / 16 == x / 16 % 16
    ensures x % 256 != 0 && x % 16 == 0 ==> x / 16 % 16 != 0
  {
    var q, b := x / 256, x % 256;
    assert x == q * 256 + b;
    assert b == b / 16 * 16 + b % 16;
    assert x / 16 == q * 16 + b / 16;
  }

  lemma ColumnEntry(r: nat)
    requires 0 < r < 16
    ensures COLUMN[r] == 4 + ROW[r]
  {
  }

  lemma MapIs(x: nat)
    requires x % 256 != 0
    ensures Lowest(x) == LowestBitMap(x % 256)
  {
    hide Lowest, ROW, COLUMN;
    var b := x % 256;
    Nibbles(x);
    if x % 16 != 0 {
      RowIs(x);
    } else {
      Half4(x);
      RowIs(x / 16);
      ColumnEntry(b / 16);
    }
  }

  /** The table look-up finds the lowest bit of every non-zero word. */
  lemma FfsIsLowest(value: nat)
    requires 0 < value < 0x1_0000_0000
    ensures Ffs(value) == Lowest(value) + 1
  {
    hide Lowest, LowestBitMap;
    if value % 256 != 0 {
      MapIs(value);
    } else {
      Half8(value);
      var a := value / 256;
      if a % 256 != 0 {
        MapIs(a);
      } else {
        Half8(a);
        var b := a / 256;
        assert b == value / 65536;
        if b % 256 != 0 {
          MapIs(b);
        } else {
          Half8(b);
          assert b / 256 == value / 16777216;
          MapIs(b / 256);
        }
      }
    }
  }

  lemma FitsBytes(x: nat, n: nat)
    ensures Fits(x, n + 8) <==> Fits(x / 256, n)
  {
    assert Fits(x, n + 8) <==> Fits(x / 2, n + 7);
    assert Fits(x / 2, n + 7) <==> Fits(x / 4, n + 6);
    assert Fits(x / 4, n + 6) <==> Fits(x / 8, n + 5);
    assert Fits(x / 8, n + 5) <==> Fits(x / 16, n + 4);
    assert Fits(x / 16, n + 4) <==> Fits(x / 32, n + 3);
    assert Fits(x / 32, n + 3) <==> Fits(x / 64, n + 2);
    assert Fits(x / 64, n + 2) <==> Fits(x / 128, n + 1);
    assert Fits(x / 128, n + 1) <==> Fits(x / 256, n);
  }

  lemma FitsWord(x: nat)
    ensures Fits(x, 8) <==> x < 256
    ensures Fits(x, 32) <==> x < 0x1_0000_0000
  {
    FitsBytes(x, 0);
    FitsBytes(x / 256, 0);
    FitsBytes(x, 24);
    FitsBytes(x / 256, 16);
    FitsBytes(x / 65536, 8);
    FitsBytes(x / 16777216, 0);
  }
}
