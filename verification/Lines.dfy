/**
 The four readout lines of a DIF.  ASICs are put on the lines in a serpentine, 1 2 3 4 4 3 2 1, and
 the four counts travel in one 32-bit word, a byte each.
 */
module Lines {
  import opened Bits

  /** The line of the `n`-th ASIC, the first being number 1. */
  function LineOf(n: nat): nat {
    if n % 8 == 0 then 1 else if n % 8 < 5 then n % 8 else 9 - n % 8
  }

  lemma LineRange(n: nat)
    ensures 1 <= LineOf(n) <= 4
  {
  }

  /** How many of the first `n` ASICs are on line `i`. */
  function OnLine(n: nat, i: nat): nat {
    if n == 0 then 0 else OnLine(n - 1, i) + (if LineOf(n) == i then 1 else 0)
  }

  /** Eight ASICs fill every line twice; the rest follow the serpentine. */
  lemma {:induction false} SerpentineCount(n: nat, i: nat)
    requires 1 <= i <= 4
    ensures OnLine(n, i) == 2 * (n / 8) + (if n % 8 >= i then 1 else 0) + (if n % 8 >= 9 - i then 1 else 0)
  {
    if n == 0 {
    } else {
      SerpentineCount(n - 1, i);
      if n % 8 == 0 {
        assert n / 8 == (n - 1) / 8 + 1 && (n - 1) % 8 == 7;
      } else {
        assert n / 8 == (n - 1) / 8 && (n - 1) % 8 == n % 8 - 1;
      }
    }
  }

  type UInt8 = x: int | 0 <= x < 256

  /** `x++` */
  function Inc(x: UInt8): UInt8 {
    if x == 255 then 0 else x + 1
  }

  /** A `uint8_t` loop variable after `n` turns. */
  function Turned(n: nat): UInt8 {
    if n == 0 then 0 else Inc(Turned(n - 1))
  }

  lemma {:induction false} TurnedWraps(n: nat)
    ensures Turned(n) == n % 256
  {
    if n > 0 {
      TurnedWraps(n - 1);
      assert n % 256 == if (n - 1) % 256 == 255 then 0 else (n - 1) % 256 + 1;
    }
  }

  /** Up to the end of the loop the variable is below the count. */
  lemma ByteLoopPlace(count: nat, turn: nat)
    requires count <= 255 ==> turn <= count
    ensures Turned(turn) >= count <==> count <= 255 && turn == count
  {
    TurnedWraps(turn);
  }

  /** The loop `for (uint8_t i = 0; i < count; i++)` comes to an end exactly when `count` fits a byte. */
  lemma ByteLoopEnds(count: nat)
    ensures (exists n :: Turned(n) >= count) <==> count <= 255
  {
    if count <= 255 {
      TurnedWraps(count);
      assert Turned(count) >= count;
    }
  }

  /** The four counters. */
  datatype Counts = Counts(l1: UInt8, l2: UInt8, l3: UInt8, l4: UInt8) {
    function Sum(): nat {
      l1 + l2 + l3 + l4
    }

    /** One more ASIC on line `i`. */
    function Plus(i: nat): Counts {
      if i == 1 then this.(l1 := Inc(l1))
      else if i == 2 then this.(l2 := Inc(l2))
      else if i == 3 then this.(l3 := Inc(l3))
      else if i == 4 then this.(l4 := Inc(l4))
      else this
    }
  }

  const NO_ASICS := Counts(0, 0, 0, 0)

  /** Every ASIC is on one line, and no line is ahead of another by more than one. */
  lemma SerpentineIsFair(n: nat)
    ensures OnLine(n, 1) + OnLine(n, 2) + OnLine(n, 3) + OnLine(n, 4) == n
    ensures forall i, j | 1 <= i <= 4 && 1 <= j <= 4 :: OnLine(n, i) <= OnLine(n, j) + 1
  {
    SerpentineCount(n, 1);
    SerpentineCount(n, 2);
    SerpentineCount(n, 3);
    SerpentineCount(n, 4);
    forall i, j | 1 <= i <= 4 && 1 <= j <= 4
      ensures OnLine(n, i) <= OnLine(n, j) + 1
    {
      SerpentineCount(n, i);
      SerpentineCount(n, j);
    }
  }

  lemma OnLineBound(n: nat)
    ensures forall i | 1 <= i <= 4 :: OnLine(n, i) <= n
  {
    forall i | 1 <= i <= 4
      ensures OnLine(n, i) <= n
    {
      SerpentineCount(n, i);
    }
  }

  /** The counters when `n` ASICs are put on the lines in turn. */
  function Serpentine(n: UInt8): Counts {
    OnLineBound(n);
    Counts(OnLine(n, 1), OnLine(n, 2), OnLine(n, 3), OnLine(n, 4))
  }

  /** The counter update that follows `n++`, for the `n`-th ASIC of a `uint8_t` count. */
  method CountOnLine(n: UInt8, c: Counts) returns (r: Counts)
    ensures r == c.Plus(LineOf(n))
  {
    var tamponl := 0;
    if n % 8 == 0 {
      tamponl := 1;
    } else if n % 8 < 5 {
      tamponl := n % 8;
    } else {
      tamponl := 9 - n % 8;
    }
    r := c;
    if tamponl == 1 {
      r := r.(l1 := Inc(r.l1));
    } else if tamponl == 2 {
      r := r.(l2 := Inc(r.l2));
    } else if tamponl == 3 {
      r := r.(l3 := Inc(r.l3));
    } else if tamponl == 4 {
      r := r.(l4 := Inc(r.l4));
    }
  }

  lemma PlusAddsOne(c: Counts, i: nat)
    requires c.Sum() < 255 && 1 <= i <= 4
    ensures c.Plus(i).Sum() == c.Sum() + 1
  {
    PlusNoWrap(c, i);
  }

  /** As long as the count fits a byte, the updates run along the serpentine without wrapping. */
  lemma SerpentineStep(n: UInt8)
    requires n < 255
    ensures Serpentine(n).Plus(LineOf(n + 1)) == Serpentine(n + 1)
  {
    SerpentineIsFair(n);
    PlusNoWrap(Serpentine(n), LineOf(n + 1));
  }

  lemma PlusNoWrap(c: Counts, i: nat)
    requires c.Sum() < 255
    ensures c.Plus(i) == Counts(c.l1 + (if i == 1 then 1 else 0), c.l2 + (if i == 2 then 1 else 0),
                                c.l3 + (if i == 3 then 1 else 0), c.l4 + (if i == 4 then 1 else 0))
  {
  }

  /** `l1 + (l2 << 8) + (l3 << 16) + (l4 << 24)` */
  function PackCounts(c: Counts): nat {
    c.l1 + 0x100 * (c.l2 + 0x100 * (c.l3 + 0x100 * c.l4))
  }

  /** `(packed >> (8 * (i - 1))) & 0xFF` */
  function Unpack(packed: nat, i: nat): nat
    requires 1 <= i <= 4
  {
    if i == 1 then packed % 0x100
    else if i == 2 then packed / 0x100 % 0x100
    else if i == 3 then packed / 0x100 / 0x100 % 0x100
    else packed / 0x100 / 0x100 / 0x100 % 0x100
  }

  /** The four counts of a packed word, added in a `uint8_t`. */
  function UnpackedSum(packed: nat): UInt8 {
    (Unpack(packed, 1) + Unpack(packed, 2) + Unpack(packed, 3) + Unpack(packed, 4)) % 256
  }

  lemma UnpackedSumOfPacked(c: Counts)
    requires c.Sum() < 256
    ensures UnpackedSum(PackCounts(c)) == c.Sum()
  {
    PackRoundTrip(c);
  }

  /** Counts that fit a byte each come back as they went in: nothing is carried over. */
  lemma PackRoundTrip(c: Counts)
    ensures PackCounts(c) < 0x1_0000_0000
    ensures Counts(Unpack(PackCounts(c), 1), Unpack(PackCounts(c), 2), Unpack(PackCounts(c), 3), Unpack(PackCounts(c), 4)) == c
  {
    var packed := PackCounts(c);
    assert packed / 0x100 == c.l2 + 0x100 * (c.l3 + 0x100 * c.l4);
    assert packed / 0x100 / 0x100 == c.l3 + 0x100 * c.l4;
  }

  // ---------- the same in numbers ----------

  /** The packed word, and its four bytes. */
  lemma PackedWord(c: Counts, packed: nat)
    ensures PackCounts(c) == c.l1 + 256 * c.l2 + 65536 * c.l3 + 16777216 * c.l4
    ensures Unpack(packed, 1) == packed % 256 && Unpack(packed, 2) == packed / 256 % 256
    ensures Unpack(packed, 3) == packed / 65536 % 256 && Unpack(packed, 4) == packed / 16777216 % 256
  {
    DivByBytes(packed, 256);
    DivByBytes(packed, 65536);
  }

  lemma DivByBytes(x: nat, d: nat)
    requires d > 0
    ensures x / d / 256 == x / (d * 256)
  {
    var q, r := x / d / 256, x / d % 256;
    assert x == d * (x / d) + x % d;
    assert d * (256 * q + r) == (d * 256) * q + d * r;
    MulMono(r + 1, 256, d);
    assert (r + 1) * d == d * r + d;
    DivUnique(x, d * 256, q, d * r + x % d);
  }

  /** The word a loader returns for `n` chips: with `n` = 8q + r, each line has 2q and its share of the rest. */
  lemma LoaderWord(n: nat, q: nat, r: nat)
    requires n == 8 * q + r && r < 8 && n < 256
    ensures PackCounts(Serpentine(n)) ==
            (2 * q + (if r >= 1 then 1 else 0)) +
            256 * (2 * q + (if r >= 2 then 1 else 0) + (if r >= 7 then 1 else 0)) +
            65536 * (2 * q + (if r >= 3 then 1 else 0) + (if r >= 6 then 1 else 0)) +
            16777216 * (2 * q + (if r >= 4 then 1 else 0) + (if r >= 5 then 1 else 0))
  {
    ShareOfLine(n, q, r, 1);
    ShareOfLine(n, q, r, 2);
    ShareOfLine(n, q, r, 3);
    ShareOfLine(n, q, r, 4);
    PackedWord(Serpentine(n), 0);
  }

  lemma ShareOfLine(n: nat, q: nat, r: nat, i: nat)
    requires n == 8 * q + r && r < 8 && 1 <= i <= 4
    ensures OnLine(n, i) == 2 * q + (if r >= i then 1 else 0) + (if r >= 9 - i then 1 else 0)
  {
    SerpentineCount(n, i);
    DivUnique(n, 8, q, r);
  }

  /** For 3, 5 and 48 chips. */
  lemma LoaderWords()
    ensures PackCounts(Serpentine(3)) == 0x010101
    ensures PackCounts(Serpentine(5)) == 0x2010101
    ensures PackCounts(Serpentine(48)) == 0xC0C0C0C
  {
    LoaderWord(3, 0, 3);
    LoaderWord(5, 0, 5);
    LoaderWord(48, 6, 0);
  }
}
