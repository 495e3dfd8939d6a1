/**
 Changing thresholds and gains on frames already built, as a DIF server does between runs.  The
 server edits the bytes in place; the lemmas say that this is the same as editing the ASIC and
 building its frame again.
 */
module FramePatches {
  import opened Bits
  import opened Frames
  import opened Asics
  import HR2 = HardRoc2

  /** The stream of a frame with the three thresholds replaced. */
  function ThresholdStream(frame: seq<Byte>, b0: nat, b1: nat, b2: nat): (bits: seq<bool>)
    requires |frame| == HR2.FRAME_SIZE
    ensures |bits| == HR2.FRAME_BITS
  {
    seq(HR2.FRAME_BITS, p requires 0 <= p < HR2.FRAME_BITS =>
      if 24 <= p < 34 then Bit(b2, 33 - p)
      else if 34 <= p < 44 then Bit(b1, 43 - p)
      else if 44 <= p < 54 then Bit(b0, 53 - p)
      else StreamBit(frame, p))
  }

  function WithThresholds(frame: seq<Byte>, b0: nat, b1: nat, b2: nat): seq<Byte>
    requires |frame| == HR2.FRAME_SIZE
  {
    Pack(ThresholdStream(frame, b0, b1, b2))
  }

  /** The frame at `o` has its wanted bits from stream bit 24 to `n`, zeros to the end of that byte, and is old elsewhere. */
  ghost predicate PatchedTo(buf: array<Byte>, o: nat, before: seq<Byte>, bits: seq<bool>, n: nat, z: nat)
    requires o + HR2.FRAME_SIZE <= buf.Length == |before| && |bits| == HR2.FRAME_BITS
    reads buf
  {
    match before
    case was =>
      && Outside(buf, o, HR2.FRAME_SIZE, was)
      && (forall p: nat | p < HR2.FRAME_BITS ::
            BitAt(buf, o, p) == if 24 <= p < n then bits[p] else !(n <= p < z) && Bit(was[o + p / 8], 7 - p % 8))
  }

  /** `ConfigHR2[at] |= ...` while patching */
  method OrPatch(buf: array<Byte>, o: nat, ghost before: seq<Byte>, ghost bits: seq<bool>,
                 at: nat, w: int, lo: nat, n: nat, d: nat, ghost z: nat)
    requires o + HR2.FRAME_SIZE <= buf.Length == |before| && |bits| == HR2.FRAME_BITS && d + n <= 8
    requires 24 <= 8 * at + 8 - d - n && 8 * at + 8 - d <= z <= 8 * at + 8 && at < 7
    requires forall p: nat | 8 * at + 8 - d - n <= p < 8 * at + 8 - d :: bits[p] == Bit(w, lo + 8 * at + 7 - d - p)
    requires PatchedTo(buf, o, before, bits, 8 * at + 8 - d - n, z)
    modifies buf
    ensures PatchedTo(buf, o, before, bits, 8 * at + 8 - d, z)
  {
    OrInto(buf, o, at, w, lo, n, d);
  }

  /** `setThreshold` on one frame. */
  method SetThreshold(b0: nat, b1: nat, b2: nat, buf: array<Byte>, o: nat)
    requires o + HR2.FRAME_SIZE <= buf.Length
    modifies buf
    ensures buf[..] == old(buf[..o]) + WithThresholds(old(buf[o..o + HR2.FRAME_SIZE]), b0, b1, b2)
                     + old(buf[o + HR2.FRAME_SIZE..])
  {
    ghost var before := buf[..];
    ghost var bits := ThresholdStream(buf[o..o + HR2.FRAME_SIZE], b0, b1, b2);
    AssignByte3(buf, o, before, bits, b2);
    PatchBytes4To6(b0, b1, b2, buf, o, before, bits);
    AllPatched(buf, o, before, bits, b0, b1, b2);
  }

  /** The stream bits of the three thresholds, most significant first. */
  ghost predicate CarriesThresholds(bits: seq<bool>, b0: nat, b1: nat, b2: nat)
    requires |bits| == HR2.FRAME_BITS
  {
    && (forall p: nat | 24 <= p < 34 :: bits[p] == Bit(b2, 33 - p))
    && (forall p: nat | 34 <= p < 44 :: bits[p] == Bit(b1, 43 - p))
    && (forall p: nat | 44 <= p < 54 :: bits[p] == Bit(b0, 53 - p))
  }

  /** `ConfigHR2[3] = (B2 >> 2) & 0xFF` */
  method AssignByte3(buf: array<Byte>, o: nat, ghost before: seq<Byte>, ghost bits: seq<bool>, b2: nat)
    requires o + HR2.FRAME_SIZE <= buf.Length && |bits| == HR2.FRAME_BITS && buf[..] == before
    requires forall p: nat | 24 <= p < 34 :: bits[p] == Bit(b2, 33 - p)
    modifies buf
    ensures PatchedTo(buf, o, before, bits, 32, 32)
  {
    Assign(buf, o, 3, b2, 2, 8, 0);
  }

  /** The statements on bytes 4 to 6. */
  method PatchBytes4To6(b0: nat, b1: nat, b2: nat, buf: array<Byte>, o: nat, ghost before: seq<Byte>, ghost bits: seq<bool>)
    requires o + HR2.FRAME_SIZE <= buf.Length == |before| && |bits| == HR2.FRAME_BITS
    requires CarriesThresholds(bits, b0, b1, b2) && PatchedTo(buf, o, before, bits, 32, 32)
    modifies buf
    ensures PatchedTo(buf, o, before, bits, 54, 54)
  {
    ClearByte(buf, o, before, bits, 4);
    OrPatch(buf, o, before, bits, 4, b2, 0, 2, 6, 40);
    OrPatch(buf, o, before, bits, 4, b1, 4, 6, 0, 40);
    ClearByte(buf, o, before, bits, 5);
    OrPatch(buf, o, before, bits, 5, b1, 0, 4, 4, 48);
    OrPatch(buf, o, before, bits, 5, b0, 6, 4, 0, 48);
    MaskByte6(buf, o, before, bits);
    OrPatch(buf, o, before, bits, 6, b0, 0, 6, 2, 54);
  }

  /** `ConfigHR2[at] = 0` */
  method ClearByte(buf: array<Byte>, o: nat, ghost before: seq<Byte>, ghost bits: seq<bool>, at: nat)
    requires o + HR2.FRAME_SIZE <= buf.Length == |before| && |bits| == HR2.FRAME_BITS && 4 <= at <= 5
    requires PatchedTo(buf, o, before, bits, 8 * at, 8 * at)
    modifies buf
    ensures PatchedTo(buf, o, before, bits, 8 * at, 8 * at + 8)
  {
    Assign(buf, o, at, 0, 0, 8, 0);
    forall k: nat
      ensures !Bit(0, k)
    {
      ZeroBit(k);
    }
  }

  /** `ConfigHR2[6] &= 0x3` */
  method MaskByte6(buf: array<Byte>, o: nat, ghost before: seq<Byte>, ghost bits: seq<bool>)
    requires o + HR2.FRAME_SIZE <= buf.Length == |before| && |bits| == HR2.FRAME_BITS
    requires PatchedTo(buf, o, before, bits, 48, 48)
    modifies buf
    ensures PatchedTo(buf, o, before, bits, 48, 54)
  {
    ghost var x := buf[o + 6];
    AndSmall(buf[o + 6], 3);
    buf[o + 6] := And(buf[o + 6], 3);
    forall k: nat
      ensures Bit(And(x, 3), k) == (k < 2 && Bit(x, k))
    {
      AndBit(x, 3, k);
      ThreeBit(k);
    }
    forall p: nat | p < HR2.FRAME_BITS
      ensures BitAt(buf, o, p) == (old(BitAt(buf, o, p)) && !(48 <= p < 54))
    {
    }
  }

  lemma ThreeBit(k: nat)
    ensures Bit(3, k) == (k < 2)
  {
    assert Pow2(2) == 4;
    if k >= 2 {
      SmallBit(3, 2, k);
    }
  }

  lemma AllPatched(buf: array<Byte>, o: nat, before: seq<Byte>, bits: seq<bool>, b0: nat, b1: nat, b2: nat)
    requires o + HR2.FRAME_SIZE <= buf.Length == |before|
    requires bits == ThresholdStream(before[o..o + HR2.FRAME_SIZE], b0, b1, b2)
    requires PatchedTo(buf, o, before, bits, 54, 54)
    ensures buf[..] == before[..o] + Pack(bits) + before[o + HR2.FRAME_SIZE..]
  {
    forall p: nat | p < HR2.FRAME_BITS
      ensures BitAt(buf, o, p) == bits[p]
    {
      assert before[o..o + HR2.FRAME_SIZE][p / 8] == before[o + p / 8];
    }
    AllWritten(buf, o, before, bits);
  }

  /** Patching the frame of an ASIC gives the frame of the ASIC with those thresholds. */
  lemma ThresholdPatchIsReencoding(a: Asic, b0: nat, b1: nat, b2: nat)
    ensures WithThresholds(HR2.Frame(a), b0, b1, b2) ==
            HR2.Frame(a.WithInt(B0, b0).WithInt(B1, b1).WithInt(B2, b2))
  {
    var b := a.WithInt(B0, b0).WithInt(B1, b1).WithInt(B2, b2);
    var bits := ThresholdStream(HR2.Frame(a), b0, b1, b2);
    forall p: nat | p < HR2.FRAME_BITS
      ensures bits[p] == HR2.Stream(b)[p]
    {
      HR2.FrameBit(a, p);
      if 24 <= p < 54 {
        ThresholdBit(a, b0, b1, b2, p);
      } else {
        NoThreshold(p);
        SameElsewhere(a, b, HR2.SlotAt(p));
      }
    }
    assert bits == HR2.Stream(b);
  }

  lemma ThresholdBit(a: Asic, b0: nat, b1: nat, b2: nat, p: nat)
    requires 24 <= p < 54
    ensures ThresholdStream(HR2.Frame(a), b0, b1, b2)[p] ==
            HR2.Carried(a.WithInt(B0, b0).WithInt(B1, b1).WithInt(B2, b2), HR2.SlotAt(p))
  {
  }

  /** Outside stream bits 24 to 53 there is no threshold bit. */
  lemma NoThreshold(p: nat)
    requires p < HR2.FRAME_BITS && !(24 <= p < 54)
    ensures HR2.SlotAt(p).Of? ==> HR2.SlotAt(p).f != B0 && HR2.SlotAt(p).f != B1 && HR2.SlotAt(p).f != B2
  {
    HR2.SlotLiesThere(p);
    var s := HR2.SlotAt(p);
    if s.Of? && (s.f == B0 || s.f == B1 || s.f == B2) {
      assert HR2.PlaceOf(s.f).Position(s.k) == p;
    }
  }

  lemma SameElsewhere(a: Asic, b: Asic, s: HR2.Slot)
    requires s.Of? ==> s.f != B0 && s.f != B1 && s.f != B2
    requires forall f :: f != B0 && f != B1 && f != B2 ==> a.Int(f) == b.Int(f)
    requires a.pagain == b.pagain && a.mask0 == b.mask0 && a.mask1 == b.mask1 && a.mask2 == b.mask2
    ensures HR2.Carried(a, s) == HR2.Carried(b, s)
  {
  }

  // ---------- gains ----------

  function WithGain(frame: seq<Byte>, gain: nat): seq<Byte>
    requires |frame| == HR2.FRAME_SIZE
  {
    frame[..37] + seq(64, _ => gain % 256) + frame[101..]
  }

  /** `setGain` on one frame: every gain byte is assigned. */
  method SetGain(gain: nat, buf: array<Byte>, o: nat)
    requires o + HR2.FRAME_SIZE <= buf.Length
    modifies buf
    ensures buf[..] == old(buf[..o]) + WithGain(old(buf[o..o + HR2.FRAME_SIZE]), gain) + old(buf[o + HR2.FRAME_SIZE..])
  {
    var ip := 0;
    while ip < 64
      invariant 0 <= ip <= 64
      invariant forall i | 0 <= i < buf.Length ::
                  buf[i] == if o + 101 - ip <= i < o + 101 then gain % 256 else old(buf[i])
    {
      buf[o + 100 - ip] := gain % 256;
      ip := ip + 1;
    }
  }

  lemma GainPatchIsReencoding(a: Asic, gain: nat)
    ensures WithGain(HR2.Frame(a), gain) == HR2.Frame(a.(pagain := seq(64, _ => gain)))
  {
    var b := a.(pagain := seq(64, _ => gain));
    var f, g := WithGain(HR2.Frame(a), gain), HR2.Frame(b);
    forall p: nat | p < HR2.FRAME_BITS
      ensures StreamBit(f, p) == StreamBit(g, p)
    {
      HR2.FrameBit(b, p);
      if 296 <= p < 808 {
        ByteRange();
        ModBit(gain, 8, 7 - p % 8);
      } else {
        assert f[p / 8] == HR2.Frame(a)[p / 8];
        HR2.FrameBit(a, p);
        GainsElsewhere(a, b, p);
      }
    }
    SameStream(f, g);
  }

  lemma GainsElsewhere(a: Asic, b: Asic, p: nat)
    requires p < HR2.FRAME_BITS && !(296 <= p < 808)
    requires b == a.(pagain := b.pagain)
    ensures HR2.Carried(a, HR2.SlotAt(p)) == HR2.Carried(b, HR2.SlotAt(p))
  {
  }

  // ---------- all the frames of a DIF ----------

  /** `setThreshold` on a DIF: the first `nbasic` frames of the record, the others untouched. */
  method SetThresholds(b0: nat, b1: nat, b2: nat, slow: array<Byte>, nbasic: nat)
    requires HR2.FRAME_SIZE * nbasic <= slow.Length
    modifies slow
    ensures forall i: nat | i < nbasic :: HR2.FrameOf(slow[..], i) == WithThresholds(old(HR2.FrameOf(slow[..], i)), b0, b1, b2)
    ensures slow[HR2.FRAME_SIZE * nbasic..] == old(slow[HR2.FRAME_SIZE * nbasic..])
  {
    var i := 0;
    while i < nbasic
      invariant 0 <= i <= nbasic
      invariant forall k: nat | k < i :: HR2.FrameOf(slow[..], k) == WithThresholds(old(HR2.FrameOf(slow[..], k)), b0, b1, b2)
      invariant slow[HR2.FRAME_SIZE * i..] == old(slow[HR2.FRAME_SIZE * i..])
    {
      ghost var was := slow[..];
      SetThreshold(b0, b1, b2, slow, HR2.FRAME_SIZE * i);
      assert HR2.FrameOf(slow[..], i) == WithThresholds(HR2.FrameOf(was, i), b0, b1, b2);
      assert HR2.FrameOf(was, i) == old(HR2.FrameOf(slow[..], i)) by {
        assert was[HR2.FRAME_SIZE * i..][..HR2.FRAME_SIZE] == old(slow[HR2.FRAME_SIZE * i..])[..HR2.FRAME_SIZE];
      }
      forall k: nat | k < i
        ensures HR2.FrameOf(slow[..], k) == HR2.FrameOf(was, k)
      {
        assert slow[..HR2.FRAME_SIZE * i] == was[..HR2.FRAME_SIZE * i];
      }
      assert slow[HR2.FRAME_SIZE * (i + 1)..] == was[HR2.FRAME_SIZE * i..][HR2.FRAME_SIZE..];
      i := i + 1;
    }
  }
}
