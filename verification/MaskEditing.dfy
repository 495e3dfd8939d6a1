/**
 Editing the channel masks of the configuration: `ChangeMask`, `SetMask` and `ChangeMaskFromFile` of
 the Python access library, and what they do to the frames built afterwards.
 */
module MaskEditing {
  import opened Bits
  import opened Frames
  import opened Asics
  import HR2 = HardRoc2

  /** The ASICs a command is for: a DIF or ASIC number of 0 stands for all. */
  predicate Selected(a: Asic, idif: int, iasic: int) {
    && !(idif != 0 && a.Int(DIF_ID) != idif)
    && !(iasic != 0 && a.Int(HEADER) != iasic)
  }

  function And64(x: Word64, y: int): Word64 {
    AndSmall(x, y);
    And(x, y)
  }

  /** The ASIC with its three masks ANDed. */
  function MaskedBy(a: Asic, m0: int, m1: int, m2: int): Asic {
    a.(mask0 := And64(a.mask0, m0), mask1 := And64(a.mask1, m1), mask2 := And64(a.mask2, m2))
  }

  function Changed(a: Asic, m0: int, m1: int, m2: int, idif: int, iasic: int): Asic {
    if Selected(a, idif, iasic) then MaskedBy(a, m0, m1, m2) else a
  }

  /** A line of a mask file: DIF, ASIC and the mask for all three thresholds. */
  datatype Line = Line(idif: int, iasic: int, mask: int)

  /** `ChangeMask` on the configuration, which is updated in place. */
  method ChangeMask(asics: array<Asic>, m0: int, m1: int, m2: int, idif: int, iasic: int)
    modifies asics
    ensures forall i | 0 <= i < asics.Length :: asics[i] == Changed(old(asics[i]), m0, m1, m2, idif, iasic)
    ensures forall i | 0 <= i < asics.Length && idif != 0 && old(asics[i]).Int(DIF_ID) != idif :: asics[i] == old(asics[i])
    ensures forall i | 0 <= i < asics.Length && iasic != 0 && old(asics[i]).Int(HEADER) != iasic :: asics[i] == old(asics[i])
  {
    var n := 0;
    while n < asics.Length
      invariant 0 <= n <= asics.Length
      invariant forall i | 0 <= i < n :: asics[i] == Changed(old(asics[i]), m0, m1, m2, idif, iasic)
      invariant forall i | n <= i < asics.Length :: asics[i] == old(asics[i])
    {
      var a := asics[n];
      n := n + 1;
      if idif != 0 && a.Int(DIF_ID) != idif { continue; }
      if iasic != 0 && a.Int(HEADER) != iasic { continue; }
      asics[n - 1] := a.(mask0 := And64(a.mask0, m0), mask1 := And64(a.mask1, m1), mask2 := And64(a.mask2, m2));
    }
  }

  /** Field by field: which ASICs keep everything, and what the others lose. */
  lemma ChangedByFields(a: Asic, m0: int, m1: int, m2: int, idif: int, iasic: int)
    ensures idif != 0 && a.Int(DIF_ID) != idif ==> Changed(a, m0, m1, m2, idif, iasic) == a
    ensures iasic != 0 && a.Int(HEADER) != iasic ==> Changed(a, m0, m1, m2, idif, iasic) == a
    ensures (idif == 0 || a.Int(DIF_ID) == idif) && (iasic == 0 || a.Int(HEADER) == iasic) ==>
              var b := Changed(a, m0, m1, m2, idif, iasic);
              && b == a.(mask0 := b.mask0, mask1 := b.mask1, mask2 := b.mask2)
              && forall k: nat :: (Bit(b.mask0, k) <==> Bit(a.mask0, k) && Bit(m0, k))
                               && (Bit(b.mask1, k) <==> Bit(a.mask1, k) && Bit(m1, k))
                               && (Bit(b.mask2, k) <==> Bit(a.mask2, k) && Bit(m2, k))
  {
    forall k: nat
      ensures Bit(And64(a.mask0, m0), k) == (Bit(a.mask0, k) && Bit(m0, k))
      ensures Bit(And64(a.mask1, m1), k) == (Bit(a.mask1, k) && Bit(m1, k))
      ensures Bit(And64(a.mask2, m2), k) == (Bit(a.mask2, k) && Bit(m2, k))
    {
      AndBit(a.mask0, m0, k);
      AndBit(a.mask1, m1, k);
      AndBit(a.mask2, m2, k);
    }
  }

  // ---------- SetMask ----------

  const ALL_CHANNELS: Word64 := 0xFFFF_FFFF_FFFF_FFFF

  /** All channels but those listed. */
  function ChannelMask(channels: seq<nat>): (m: Word64)
  {
    if channels == [] then ALL_CHANNELS
    else And64(ChannelMask(channels[..|channels| - 1]), Not(Pow2(channels[|channels| - 1])))
  }

  lemma AllChannelsBit(k: nat)
    ensures Bit(ALL_CHANNELS, k) == (k < 64)
  {
    WordRange();
    ModBit(-1, 64, k);
    AllOnesBit(k);
    DivUnique(-1, 0x1_0000_0000_0000_0000, -1, 0xFFFF_FFFF_FFFF_FFFF);
  }

  lemma {:induction false} ChannelMaskBit(channels: seq<nat>, k: nat)
    ensures Bit(ChannelMask(channels), k) == (k < 64 && k !in channels)
  {
    if channels == [] {
      AllChannelsBit(k);
    } else {
      var init, c := channels[..|channels| - 1], channels[|channels| - 1];
      ChannelMaskBit(init, k);
      AndBit(ChannelMask(init), Not(Pow2(c)), k);
      NotBit(Pow2(c), k);
      Pow2Bit(c, k);
      assert channels == init + [c];
    }
  }

  /** `SetMask`; a negative channel makes the shift fail before anything is changed. */
  method SetMask(asics: array<Asic>, list: seq<int>, idif: int, iasic: int) returns (ok: bool)
    modifies asics
    ensures ok <==> forall i | 0 <= i < |list| :: list[i] >= 0
    ensures ok ==> forall i | 0 <= i < asics.Length :: 
              asics[i] == Changed(old(asics[i]), ChannelMask(list), ChannelMask(list), ChannelMask(list), idif, iasic)
    ensures !ok ==> asics[..] == old(asics[..])
  {
    var m: Word64 := ALL_CHANNELS;
    var n := 0;
    while n < |list|
      invariant 0 <= n <= |list|
      invariant forall i | 0 <= i < n :: list[i] >= 0
      invariant m == ChannelMask(list[..n])
    {
      var i := list[n];
      if i < 0 {
        return false;
      }
      assert list[..n + 1][..n] == list[..n];
      m := And64(m, Not(Pow2(i)));
      n := n + 1;
    }
    assert list[..n] == list;
    ChangeMask(asics, m, m, m, idif, iasic);
    ok := true;
  }

  // ---------- what masking does to the frame ----------

  /** Stream bit `p` carries a mask bit of one of these channels. */
  predicate MaskBitOf(channels: seq<nat>, p: nat) {
    exists c :: c in channels && c < 64 && 62 + 3 * (63 - c) <= p <= 62 + 3 * (63 - c) + 2
  }

  lemma MaskedBit(a: Asic, m: int, j: nat, k: nat)
    requires j < 3
    ensures Bit(MaskedBy(a, m, m, m).Mask(j), k) == (Bit(a.Mask(j), k) && Bit(m, k))
  {
    AndBit(a.Mask(j), m, k);
  }

  /** Channels that are listed are cleared in all three masks, and no others. */
  lemma ListedChannelsCleared(a: Asic, channels: seq<nat>, idif: int, iasic: int, k: nat)
    requires (idif == 0 || a.Int(DIF_ID) == idif) && (iasic == 0 || a.Int(HEADER) == iasic)
    ensures var m := ChannelMask(channels);
            var b := Changed(a, m, m, m, idif, iasic);
            && (Bit(b.mask0, k) <==> Bit(a.mask0, k) && k !in channels)
            && (Bit(b.mask1, k) <==> Bit(a.mask1, k) && k !in channels)
            && (Bit(b.mask2, k) <==> Bit(a.mask2, k) && k !in channels)
  {
    var m := ChannelMask(channels);
    ChangedByFields(a, m, m, m, idif, iasic);
    ChannelMaskBit(channels, k);
    BitsOfWord(a.mask0, k);
    BitsOfWord(a.mask1, k);
    BitsOfWord(a.mask2, k);
  }

  lemma BitsOfWord(x: Word64, k: nat)
    ensures Bit(x, k) ==> k < 64
  {
    WordRange();
    if k >= 64 {
      SmallBit(x, 64, k);
    }
  }

  /**
   Masking channels and building the frame again gives the old frame with exactly the three mask bits of
   each listed channel cleared, if the ASIC is one the command is for, and the old frame if it is not.
   */
  lemma MaskingClearsExactly(a: Asic, channels: seq<nat>, idif: int, iasic: int, p: nat)
    requires p < HR2.FRAME_BITS
    ensures var m := ChannelMask(channels);
            StreamBit(HR2.Frame(Changed(a, m, m, m, idif, iasic)), p) ==
            (StreamBit(HR2.Frame(a), p) &&
             !((idif == 0 || a.Int(DIF_ID) == idif) && (iasic == 0 || a.Int(HEADER) == iasic) &&
               exists c :: c in channels && c < 64 && 62 + 3 * (63 - c) <= p <= 62 + 3 * (63 - c) + 2))
  {
    var m := ChannelMask(channels);
    var b := Changed(a, m, m, m, idif, iasic);
    HR2.FrameBit(a, p);
    HR2.FrameBit(b, p);
    if Selected(a, idif, iasic) {
      if 62 <= p < 254 {
        var j, k := HR2.MaskOf(p), HR2.ChannelOf(p);
        MaskedBit(a, m, j, k);
        ChannelMaskBit(channels, k);
        MaskBitOfChannel(channels, p);
      } else {
        SameOffMasks(a, b, p);
      }
    }
  }

  lemma MaskBitOfChannel(channels: seq<nat>, p: nat)
    requires 62 <= p < 254
    ensures MaskBitOf(channels, p) <==> HR2.ChannelOf(p) in channels
  {
    var k := HR2.ChannelOf(p);
    assert 62 + 3 * (63 - k) <= p <= 62 + 3 * (63 - k) + 2;
  }

  lemma SameOffMasks(a: Asic, b: Asic, p: nat)
    requires p < HR2.FRAME_BITS && !(62 <= p < 254)
    requires forall f :: a.Int(f) == b.Int(f)
    requires a.pagain == b.pagain
    ensures HR2.Carried(a, HR2.SlotAt(p)) == HR2.Carried(b, HR2.SlotAt(p))
  {
    HR2.SlotLiesThere(p);
  }

  // ---------- ChangeMaskFromFile ----------

  function Applied(a: Asic, lines: seq<Line>): Asic {
    if lines == [] then a
    else
      var l := lines[|lines| - 1];
      Changed(Applied(a, lines[..|lines| - 1]), l.mask, l.mask, l.mask, l.idif, l.iasic)
  }

  /** `ChangeMaskFromFile`, after the lines have been read: one `ChangeMask` per line. */
  method ChangeMaskFromFile(asics: array<Asic>, lines: seq<Line>)
    modifies asics
    ensures forall i | 0 <= i < asics.Length :: asics[i] == Applied(old(asics[i]), lines)
  {
    var n := 0;
    while n < |lines|
      invariant 0 <= n <= |lines|
      invariant forall i | 0 <= i < asics.Length :: asics[i] == Applied(old(asics[i]), lines[..n])
    {
      assert lines[..n + 1][..n] == lines[..n];
      var x := lines[n];
      ChangeMask(asics, x.mask, x.mask, x.mask, x.idif, x.iasic);
      n := n + 1;
    }
    assert lines[..n] == lines;
  }

  lemma {:induction false} AppliedKeeps(a: Asic, lines: seq<Line>)
    ensures Applied(a, lines) == a.(mask0 := Applied(a, lines).mask0, mask1 := Applied(a, lines).mask1,
                                  mask2 := Applied(a, lines).mask2)
    ensures forall idif, iasic :: Selected(Applied(a, lines), idif, iasic) == Selected(a, idif, iasic)
  {
    if lines == [] {
    } else {
      AppliedKeeps(a, lines[..|lines| - 1]);
    }
  }

  /** A channel stays enabled exactly when it was enabled and every line for the ASIC enables it. */
  lemma {:induction false} AppliedBit(a: Asic, lines: seq<Line>, j: nat, k: nat)
    requires j < 3
    ensures Bit(Applied(a, lines).Mask(j), k) <==>
            Bit(a.Mask(j), k) &&
            forall l :: l in lines && (l.idif == 0 || a.Int(DIF_ID) == l.idif) && (l.iasic == 0 || a.Int(HEADER) == l.iasic) ==>
              Bit(l.mask, k)
  {
    if lines == [] {
    } else {
      var init, l := lines[..|lines| - 1], lines[|lines| - 1];
      assert lines == init + [l];
      AppliedBit(a, init, j, k);
      AppliedKeeps(a, init);
      if Selected(a, l.idif, l.iasic) {
        MaskedBit(Applied(a, init), l.mask, j, k);
      }
    }
  }

  /** So the order of the lines, and their repetition, make no difference. */
  lemma FileOrderDoesNotMatter(a: Asic, lines: seq<Line>, others: seq<Line>)
    requires forall l :: l in lines <==> l in others
    ensures Applied(a, lines) == Applied(a, others)
  {
    AppliedKeeps(a, lines);
    AppliedKeeps(a, others);
    forall j: nat | j < 3
      ensures Applied(a, lines).Mask(j) == Applied(a, others).Mask(j)
    {
      forall k: nat | k < 64
        ensures Bit(Applied(a, lines).Mask(j), k) == Bit(Applied(a, others).Mask(j), k)
      {
        AppliedBit(a, lines, j, k);
        AppliedBit(a, others, j, k);
      }
      WordRange();
      SameBits(Applied(a, lines).Mask(j), Applied(a, others).Mask(j), 64);
    }
    SameMasks(Applied(a, lines), Applied(a, others));
  }

  lemma SameMasks(a: Asic, b: Asic)
    requires a == b.(mask0 := a.mask0, mask1 := a.mask1, mask2 := a.mask2)
    requires forall j: nat | j < 3 :: a.Mask(j) == b.Mask(j)
    ensures a == b
  {
    assert a.Mask(0) == b.Mask(0) && a.Mask(1) == b.Mask(1) && a.Mask(2) == b.Mask(2);
  }

  /** And no cleared channel ever comes back: later lines only take away. */
  lemma ClearedStaysCleared(a: Asic, lines: seq<Line>, more: seq<Line>, j: nat, k: nat)
    requires j < 3 && !Bit(Applied(a, lines).Mask(j), k)
    ensures !Bit(Applied(a, lines + more).Mask(j), k)
  {
    AppliedBit(a, lines, j, k);
    AppliedBit(a, lines + more, j, k);
  }
}
