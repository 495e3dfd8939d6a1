/**
 Integers as two's-complement bit strings.  A C or Python integer is an `int`; bit `k` of it is
 found by halving, which rounds toward minus infinity, so negative values have the bits that
 two's complement gives them.  `|`, `&`, `~` and `<<` are defined on those bits.
 */
module Bits {

  function Pow2(n: nat): (r: nat)
    ensures r >= 1
  {
    if n == 0 then 1 else 2 * Pow2(n - 1)
  }

  /** Bit `k` of `x`. */
  predicate Bit(x: int, k: nat)
    decreases k, x
  {
    if k == 0 then x % 2 == 1 else Bit(x / 2, k - 1)
  }

  function ToInt(b: bool): nat {
    if b then 1 else 0
  }

  /** `x | y` on non-negative numbers. */
  function Or(x: nat, y: nat): nat {
    if x == 0 && y == 0 then 0 else ToInt(x % 2 == 1 || y % 2 == 1) + 2 * Or(x / 2, y / 2)
  }

  /** `x & y` on any integers. */
  function And(x: int, y: int): int
    decreases if x < 0 then -x else x
  {
    if x == 0 then 0
    else if x == -1 then y
    else ToInt(x % 2 == 1 && y % 2 == 1) + 2 * And(x / 2, y / 2)
  }

  /** `~x`. */
  function Not(x: int): int {
    -x - 1
  }

  /** The `n` bits of `w` from bit `lo` up, moved to bit `d`: `((w >> lo) & ((1 << n) - 1)) << d`. */
  function Move(w: int, lo: nat, n: nat, d: nat): (r: nat) {
    ((w / Pow2(lo)) % Pow2(n)) * Pow2(d)
  }

  lemma {:induction false} Pow2Add(m: nat, n: nat)
    ensures Pow2(m + n) == Pow2(m) * Pow2(n)
  {
    if m == 0 {
    } else {
      Pow2Add(m - 1, n);
    }
  }

  lemma {:induction false} Pow2Mono(m: nat, n: nat)
    requires m <= n
    ensures Pow2(m) <= Pow2(n)
  {
    if m == n {
    } else {
      Pow2Mono(m, n - 1);
    }
  }

  lemma {:induction false} ZeroBit(k: nat)
    ensures !Bit(0, k)
  {
    if k == 0 {
    } else {
      ZeroBit(k - 1);
    }
  }

  lemma {:induction false} OrBit(x: nat, y: nat, k: nat)
    ensures Bit(Or(x, y), k) == (Bit(x, k) || Bit(y, k))
  {
    if k == 0 {
      OrLowest(x, y);
    } else {
      OrHalf(x, y);
      OrBit(x / 2, y / 2, k - 1);
      BitStep(x, k);
      BitStep(y, k);
      BitStep(Or(x, y), k);
    }
  }

  lemma OrLowest(x: nat, y: nat)
    ensures Bit(Or(x, y), 0) == (Bit(x, 0) || Bit(y, 0))
  {
  }

  lemma OrHalf(x: nat, y: nat)
    ensures Or(x, y) / 2 == Or(x / 2, y / 2)
  {
  }

  lemma BitStep(x: int, k: nat)
    requires k > 0
    ensures Bit(x, k) == Bit(x / 2, k - 1)
  {
  }

  lemma {:induction false} AllOnesBit(k: nat)
    ensures Bit(-1, k)
  {
    if k == 0 {
    } else {
      AllOnesBit(k - 1);
    }
  }

  lemma {:induction false} AndBit(x: int, y: int, k: nat)
    ensures Bit(And(x, y), k) == (Bit(x, k) && Bit(y, k))
    decreases k
  {
    if x == 0 {
      ZeroBit(k);
    } else if x == -1 {
      AllOnesBit(k);
    } else if k == 0 {
    } else {
      assert And(x, y) / 2 == And(x / 2, y / 2);
      AndBit(x / 2, y / 2, k - 1);
    }
  }

  lemma {:induction false} NotBit(x: int, k: nat)
    ensures Bit(Not(x), k) == !Bit(x, k)
    decreases k
  {
    if k == 0 {
    } else {
      assert Not(x) / 2 == Not(x / 2);
      NotBit(x / 2, k - 1);
    }
  }

  /** `Pow2(n)` is `1 << n`: a single one, at bit `n`. */
  lemma {:induction false} Pow2Bit(n: nat, k: nat)
    ensures Bit(Pow2(n), k) == (k == n)
  {
    if n == 0 {
      if k > 0 {
        ZeroBit(k - 1);
      }
    } else if k == 0 {
    } else {
      assert Pow2(n) / 2 == Pow2(n - 1);
      Pow2Bit(n - 1, k - 1);
    }
  }

  /** `x & (1 << k)` */
  lemma {:induction false} AndPow2(x: int, k: nat)
    ensures And(x, Pow2(k)) == if Bit(x, k) then Pow2(k) else 0
    decreases k
  {
    if x == 0 {
      ZeroBit(k);
    } else if x == -1 {
      AllOnesBit(k);
    } else if k == 0 {
      AndZero(x / 2);
    } else {
      AndPow2(x / 2, k - 1);
    }
  }

  lemma {:induction false} AndZero(x: int)
    ensures And(x, 0) == 0
    decreases if x < 0 then -x else x
  {
    if x == 0 || x == -1 {
    } else {
      AndZero(x / 2);
    }
  }

  lemma {:induction false} SmallBit(x: nat, n: nat, k: nat)
    requires x < Pow2(n) && n <= k
    ensures !Bit(x, k)
  {
    if n == 0 {
      ZeroBit(k);
    } else {
      SmallBit(x / 2, n - 1, k - 1);
    }
  }

  lemma {:induction false} OrSmall(x: nat, y: nat, n: nat)
    requires x < Pow2(n) && y < Pow2(n)
    ensures Or(x, y) < Pow2(n)
  {
    if n == 0 || (x == 0 && y == 0) {
    } else {
      OrSmall(x / 2, y / 2, n - 1);
    }
  }

  /** `x & y` keeps within the width of `x`, and never exceeds a non-negative `x`. */
  lemma {:induction false} AndSmall(x: nat, y: int)
    ensures 0 <= And(x, y) <= x
    decreases x
  {
    if x == 0 {
    } else {
      AndSmall(x / 2, y / 2);
    }
  }

  /** Two numbers of `n` bits with the same bits are equal. */
  lemma {:induction false} SameBits(x: nat, y: nat, n: nat)
    requires x < Pow2(n) && y < Pow2(n)
    requires forall k: nat | k < n :: Bit(x, k) == Bit(y, k)
    ensures x == y
  {
    if n == 0 {
    } else {
      assert Bit(x, 0) == Bit(y, 0);
      forall k: nat | k < n - 1
        ensures Bit(x / 2, k) == Bit(y / 2, k)
      {
        assert Bit(x, k + 1) == Bit(y, k + 1);
      }
      SameBits(x / 2, y / 2, n - 1);
    }
  }

  lemma {:induction false} ShiftRightBit(w: int, lo: nat, k: nat)
    ensures Bit(w / Pow2(lo), k) == Bit(w, lo + k)
    decreases lo
  {
    if lo == 0 {
    } else {
      DivTwice(w, Pow2(lo - 1));
      ShiftRightBit(w / 2, lo - 1, k);
    }
  }

  lemma DivTwice(w: int, d: int)
    requires d > 0
    ensures w / (2 * d) == (w / 2) / d
  {
    var q := (w / 2) / d;
    var r := (w / 2) % d;
    assert w / 2 == q * d + r;
    assert w == (2 * d) * q + (2 * r + w % 2);
    DivUnique(w, 2 * d, q, 2 * r + w % 2);
  }

  lemma DivUnique(w: int, d: int, q: int, r: int)
    requires w == d * q + r && 0 <= r < d
    ensures w / d == q && w % d == r
  {
    var e := w / d;
    var m := w % d;
    assert d * (q - e) == m - r by {
      assert d * (q - e) == d * q - d * e;
    }
    assert (e - q) * d == -(d * (q - e));
    if q > e {
      MulMono(1, q - e, d);
    } else if q < e {
      MulMono(1, e - q, d);
    }
  }

  lemma SmallMod(x: nat, d: nat)
    requires x < d
    ensures x % d == x
  {
    DivUnique(x, d, 0, x);
  }

  lemma {:induction false} ModBit(w: int, n: nat, k: nat)
    ensures Bit(w % Pow2(n), k) == (k < n && Bit(w, k))
    decreases n
  {
    if n == 0 {
      ZeroBit(k);
    } else {
      ModHalf(w, Pow2(n - 1));
      if k > 0 {
        ModBit(w / 2, n - 1, k - 1);
      }
    }
  }

  lemma ModHalf(w: int, d: int)
    requires d > 0
    ensures (w % (2 * d)) / 2 == (w / 2) % d
    ensures (w % (2 * d)) % 2 == w % 2
  {
    var q := (w / 2) / d;
    var r := (w / 2) % d;
    assert w / 2 == q * d + r;
    assert w == (2 * d) * q + (2 * r + w % 2);
    DivUnique(w, 2 * d, q, 2 * r + w % 2);
  }

  lemma {:induction false} ShiftLeftBit(x: nat, d: nat, k: nat)
    ensures Bit(x * Pow2(d), k) == (k >= d && Bit(x, k - d))
    decreases d
  {
    if d == 0 {
    } else {
      assert x * Pow2(d) == 2 * (x * Pow2(d - 1));
      if k > 0 {
        ShiftLeftBit(x, d - 1, k - 1);
      }
    }
  }

  lemma ByteRange()
    ensures Pow2(8) == 256
  {
    assert Pow2(4) == 16;
    Pow2Add(4, 4);
  }

  lemma WordRange()
    ensures Pow2(64) == 0x1_0000_0000_0000_0000
  {
    HalfWordRange();
    Pow2Add(32, 32);
  }

  lemma HalfWordRange()
    ensures Pow2(32) == 0x1_0000_0000
  {
    ByteRange();
    Pow2Add(8, 8);
    Pow2Add(16, 16);
  }

  /** Which bits a moved field carries, and that it fits a byte when its top bit does. */
  lemma MoveBit(w: int, lo: nat, n: nat, d: nat, k: nat)
    ensures Bit(Move(w, lo, n, d), k) == (d <= k < d + n && Bit(w, lo + k - d))
  {
    ShiftLeftBit((w / Pow2(lo)) % Pow2(n), d, k);
    if k >= d {
      ModBit(w / Pow2(lo), n, k - d);
      ShiftRightBit(w, lo, k - d);
    }
  }

  lemma MoveSmall(w: int, lo: nat, n: nat, d: nat)
    requires d + n <= 8
    ensures Move(w, lo, n, d) < 256
  {
    var x := (w / Pow2(lo)) % Pow2(n);
    assert Move(w, lo, n, d) == x * Pow2(d);
    ShiftedBelow(x, n, d);
    Pow2Mono(n + d, 8);
    ByteRange();
  }

  lemma ShiftedBelow(x: nat, n: nat, d: nat)
    requires x < Pow2(n)
    ensures x * Pow2(d) < Pow2(n + d)
  {
    MulMono(x + 1, Pow2(n), Pow2(d));
    Pow2Add(n, d);
  }

  lemma MulMono(x: nat, y: nat, z: nat)
    requires x <= y
    ensures x * z <= y * z
  {
    assert (y - x) * z >= 0;
  }
}
