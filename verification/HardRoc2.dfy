/**
 The 109-byte slow-control frame of a HARDROC2.

 `Slot` is the chip's layout read forward: what each of the 872 stream bits carries.  `PlaceOf`
 and its companions are the same layout read backward: where each field lies.  The two are
 written down separately and proved to be inverse to each other; the frame built by
 `storeHardRoc2Configuration` is proved against the first and read back through the second.
 */
module HardRoc2 {
  import opened Bits
  import opened Frames
  import opened Asics

  const FRAME_SIZE := 109
  const FRAME_BITS := 872

  /** What a stream bit carries: bit `k` of an integer field, of a mask, or of a channel's gain. */
  datatype Slot = Unused | Of(f: Field, k: nat) | OfMask(j: nat, k: nat) | OfGain(c: nat, k: nat)

  function HeadSlot(p: nat): Slot {
    if 24 <= p < 34 then Of(B2, 33 - p)
    else if 34 <= p < 44 then Of(B1, 43 - p)
    else if 44 <= p < 54 then Of(B0, 53 - p)
    else if 54 <= p < 62 then Of(HEADER, p - 54)
    else match p
      case 0 => Of(ENOCDOUT1B, 0) case 1 => Of(ENOCDOUT2B, 0) case 2 => Of(ENOCTRANSMITON1B, 0)
      case 3 => Of(ENOCTRANSMITON2B, 0) case 4 => Of(ENOCCHIPSATB, 0) case 5 => Of(SELSTARTREADOUT, 0)
      case 6 => Of(SELENDREADOUT, 0) case 11 => Of(CLKMUX, 0) case 12 => Of(SCON, 0)
      case 13 => Of(RAZCHNEXTVAL, 0) case 14 => Of(RAZCHNINTVAL, 0) case 15 => Of(TRIGEXTVAL, 0)
      case 16 => Of(DISCROROR, 0) case 17 => Of(ENTRIGOUT, 0) case 18 => Of(TRIG0B, 0) case 19 => Of(TRIG1B, 0)
      case 20 => Of(TRIG2B, 0) case 21 => Of(OTABGSW, 0) case 22 => Of(DACSW, 0) case 23 => Of(SMALLDAC, 0)
      case _ => Unused
  }

  function DiscriminatorSlot(p: nat): Slot {
    match p
      case 254 => Of(RS_OR_DISCRI, 0) case 255 => Of(DISCRI1, 0) case 256 => Of(DISCRI2, 0)
      case 257 => Of(DISCRI0, 0) case 258 => Of(OTAQ_PWRADC, 0) case 259 => Of(EN_OTAQ, 0)
      case 260 => Of(SW50F0, 0) case 261 => Of(SW100F0, 0) case 262 => Of(SW100K0, 0) case 263 => Of(SW50K0, 0)
      case _ => Unused
  }

  function PowerSlot(p: nat): Slot {
    match p
      case 264 => Of(PWRONFSB1, 0) case 265 => Of(PWRONFSB2, 0) case 266 => Of(PWRONFSB0, 0)
      case 267 => Of(SEL1, 0) case 268 => Of(SEL0, 0) case 269 => Of(SW50F1, 0) case 270 => Of(SW100F1, 0)
      case 271 => Of(SW100K1, 0)
      case _ => Unused
  }

  function Shaper1Slot(p: nat): Slot {
    match p
      case 272 => Of(SW50K1, 0) case 273 => Of(CMDB0FSB1, 0) case 274 => Of(CMDB1FSB1, 0)
      case 275 => Of(CMDB2FSB1, 0) case 276 => Of(CMDB3FSB1, 0) case 277 => Of(SW50F2, 0)
      case 278 => Of(SW100F2, 0) case 279 => Of(SW100K2, 0)
      case _ => Unused
  }

  function Shaper2Slot(p: nat): Slot {
    match p
      case 280 => Of(SW50K2, 0) case 281 => Of(CMDB0FSB2, 0) case 282 => Of(CMDB1FSB2, 0)
      case 283 => Of(CMDB2FSB2, 0) case 284 => Of(CMDB3FSB2, 0) case 285 => Of(PWRONW, 0)
      case 286 => Of(PWRONSS, 0) case 287 => Of(PWRONBUFF, 0)
      case _ => Unused
  }

  function SlowShaperSlot(p: nat): Slot {
    if 288 <= p < 291 then Of(SWSSC, 290 - p)
    else match p
      case 291 => Of(CMDB0SS, 0) case 292 => Of(CMDB1SS, 0) case 293 => Of(CMDB2SS, 0)
      case 294 => Of(CMDB3SS, 0) case 295 => Of(PWRONPA, 0)
      case _ => Unused
  }

  /** In the mask region, bits go by channel from 63 down, and in a channel by mask from 2 down. */
  function MaskOf(p: int): int {
    2 - (p - 62) % 3
  }

  function ChannelOf(p: int): int {
    63 - (p - 62) / 3
  }

  function SlotAt(p: nat): Slot {
    if p < 62 then HeadSlot(p)
    else if p < 254 then OfMask(MaskOf(p), ChannelOf(p))
    else if p < 264 then DiscriminatorSlot(p)
    else if p < 272 then PowerSlot(p)
    else if p < 280 then Shaper1Slot(p)
    else if p < 288 then Shaper2Slot(p)
    else if p < 296 then SlowShaperSlot(p)
    else if p < 808 then OfGain(100 - p / 8, 7 - p % 8)
    else Unused
  }

  /** Where an integer field lies; width 0 for the fields a HARDROC2 does not carry. */
  function PlaceOf(f: Field): Place {
    match f
    case B2 => Place(33, -1, 10) case B1 => Place(43, -1, 10) case B0 => Place(53, -1, 10)
    case HEADER => Place(54, 1, 8) case SWSSC => Place(290, -1, 3)
    case ENOCDOUT1B => Place(0, 1, 1) case ENOCDOUT2B => Place(1, 1, 1) case ENOCTRANSMITON1B => Place(2, 1, 1)
    case ENOCTRANSMITON2B => Place(3, 1, 1) case ENOCCHIPSATB => Place(4, 1, 1)
    case SELSTARTREADOUT => Place(5, 1, 1) case SELENDREADOUT => Place(6, 1, 1) case CLKMUX => Place(11, 1, 1)
    case SCON => Place(12, 1, 1) case RAZCHNEXTVAL => Place(13, 1, 1) case RAZCHNINTVAL => Place(14, 1, 1)
    case TRIGEXTVAL => Place(15, 1, 1) case DISCROROR => Place(16, 1, 1) case ENTRIGOUT => Place(17, 1, 1)
    case TRIG0B => Place(18, 1, 1) case TRIG1B => Place(19, 1, 1) case TRIG2B => Place(20, 1, 1)
    case OTABGSW => Place(21, 1, 1) case DACSW => Place(22, 1, 1) case SMALLDAC => Place(23, 1, 1)
    case RS_OR_DISCRI => Place(254, 1, 1) case DISCRI1 => Place(255, 1, 1) case DISCRI2 => Place(256, 1, 1)
    case DISCRI0 => Place(257, 1, 1) case OTAQ_PWRADC => Place(258, 1, 1) case EN_OTAQ => Place(259, 1, 1)
    case SW50F0 => Place(260, 1, 1) case SW100F0 => Place(261, 1, 1) case SW100K0 => Place(262, 1, 1)
    case SW50K0 => Place(263, 1, 1) case PWRONFSB1 => Place(264, 1, 1) case PWRONFSB2 => Place(265, 1, 1)
    case PWRONFSB0 => Place(266, 1, 1) case SEL1 => Place(267, 1, 1) case SEL0 => Place(268, 1, 1)
    case SW50F1 => Place(269, 1, 1) case SW100F1 => Place(270, 1, 1) case SW100K1 => Place(271, 1, 1)
    case SW50K1 => Place(272, 1, 1) case CMDB0FSB1 => Place(273, 1, 1) case CMDB1FSB1 => Place(274, 1, 1)
    case CMDB2FSB1 => Place(275, 1, 1) case CMDB3FSB1 => Place(276, 1, 1) case SW50F2 => Place(277, 1, 1)
    case SW100F2 => Place(278, 1, 1) case SW100K2 => Place(279, 1, 1) case SW50K2 => Place(280, 1, 1)
    case CMDB0FSB2 => Place(281, 1, 1) case CMDB1FSB2 => Place(282, 1, 1) case CMDB2FSB2 => Place(283, 1, 1)
    case CMDB3FSB2 => Place(284, 1, 1) case PWRONW => Place(285, 1, 1) case PWRONSS => Place(286, 1, 1)
    case PWRONBUFF => Place(287, 1, 1) case CMDB0SS => Place(291, 1, 1) case CMDB1SS => Place(292, 1, 1)
    case CMDB2SS => Place(293, 1, 1) case CMDB3SS => Place(294, 1, 1) case PWRONPA => Place(295, 1, 1)
    case _ => Place(0, 1, 0)
  }

  function PlaceOfMask(j: nat): Place {
    Place(253 - j, -3, 64)
  }

  function PlaceOfGain(c: nat): Place {
    Place(807 - 8 * c, -1, 8)
  }

  predicate Carried(a: Asic, s: Slot) {
    match s
    case Unused => false
    case Of(f, k) => Bit(a.Int(f), k)
    case OfMask(j, k) => j < 3 && Bit(a.Mask(j), k)
    case OfGain(c, k) => c < 64 && Bit(a.pagain[c], k)
  }

  /** The stream a HARDROC2 expects. */
  function Stream(a: Asic): (bits: seq<bool>)
    ensures |bits| == FRAME_BITS
  {
    seq(FRAME_BITS, p requires 0 <= p < FRAME_BITS => Carried(a, SlotAt(p)))
  }

  function Frame(a: Asic): (frame: seq<Byte>)
    ensures |frame| == FRAME_SIZE
  {
    Pack(Stream(a))
  }

  /** Frame `i` of a record whose frames lie one after the other. */
  function FrameOf(slow: seq<Byte>, i: nat): (frame: seq<Byte>)
    requires FRAME_SIZE * (i + 1) <= |slow|
  {
    slow[FRAME_SIZE * i..FRAME_SIZE * (i + 1)]
  }

  // ---------- storeHardRoc2Configuration ----------

  ghost predicate Room(buf: array<Byte>, o: nat, before: seq<Byte>) {
    o + FRAME_SIZE <= buf.Length == |before|
  }

  /** The frame of `a` at byte `o` of the buffer is written below stream bit `n`, and zero beyond. */
  ghost predicate StoredUpTo(buf: array<Byte>, o: nat, before: seq<Byte>, bits: seq<bool>, n: nat)
    requires Room(buf, o, before) && |bits| == FRAME_BITS
    reads buf
  {
    match before
    case was =>
      && Outside(buf, o, FRAME_SIZE, was)
      && (forall p: nat | p < FRAME_BITS :: BitAt(buf, o, p) == (p < n && bits[p]))
  }

  /** Mask 2, mask 1 and mask 0 go in one after the other, each from channel 63 down. */
  ghost predicate MaskReached(j: nat, k: nat, p: nat) {
    p < 62 || (p < 254 && (MaskOf(p) > j || (MaskOf(p) == j && ChannelOf(p) >= k)))
  }

  /** The frame is written up to bit `k` of mask `j`. */
  ghost predicate MasksStored(buf: array<Byte>, o: nat, before: seq<Byte>, bits: seq<bool>, j: nat, k: nat)
    requires Room(buf, o, before) && |bits| == FRAME_BITS
    reads buf
  {
    match before
    case was =>
      && Outside(buf, o, FRAME_SIZE, was)
      && (forall p: nat | p < FRAME_BITS :: BitAt(buf, o, p) == (MaskReached(j, k, p) && bits[p]))
  }

  method OrBits(buf: array<Byte>, o: nat, ghost before: seq<Byte>, ghost bits: seq<bool>,
                at: nat, w: int, lo: nat, n: nat, d: nat)
    requires Room(buf, o, before) && |bits| == FRAME_BITS && at < FRAME_SIZE && d + n <= 8
    requires forall p: nat | 8 * at + 8 - d - n <= p < 8 * at + 8 - d :: bits[p] == Bit(w, lo + 8 * at + 7 - d - p)
    requires StoredUpTo(buf, o, before, bits, 8 * at + 8 - d - n)
    modifies buf
    ensures StoredUpTo(buf, o, before, bits, 8 * at + 8 - d)
  {
    OrInto(buf, o, at, w, lo, n, d);
  }

  method OrOne(buf: array<Byte>, o: nat, ghost before: seq<Byte>, ghost bits: seq<bool>, at: nat, w: int, k: nat, d: nat)
    requires Room(buf, o, before) && |bits| == FRAME_BITS && at < FRAME_SIZE && d < 8
    requires bits[8 * at + 7 - d] == Bit(w, k)
    requires StoredUpTo(buf, o, before, bits, 8 * at + 7 - d)
    modifies buf
    ensures StoredUpTo(buf, o, before, bits, 8 * at + 8 - d)
  {
    OrBits(buf, o, before, bits, at, w, k, 1, d);
  }

  method AssignBits(buf: array<Byte>, o: nat, ghost before: seq<Byte>, ghost bits: seq<bool>, at: nat, w: int, lo: nat)
    requires Room(buf, o, before) && |bits| == FRAME_BITS && at < FRAME_SIZE
    requires forall p: nat | 8 * at <= p < 8 * at + 8 :: bits[p] == Bit(w, lo + 8 * at + 7 - p)
    requires StoredUpTo(buf, o, before, bits, 8 * at)
    modifies buf
    ensures StoredUpTo(buf, o, before, bits, 8 * at + 8)
  {
    Assign(buf, o, at, w, lo, 8, 0);
  }

  lemma Skip(buf: array<Byte>, o: nat, before: seq<Byte>, a: Asic)
    requires Room(buf, o, before) && StoredUpTo(buf, o, before, Stream(a), 7)
    ensures StoredUpTo(buf, o, before, Stream(a), 11)
  {
  }

  lemma StreamOfField(a: Asic, p: nat)
    requires p < FRAME_BITS && SlotAt(p).Of?
    ensures Stream(a)[p] == Bit(a.Int(SlotAt(p).f), SlotAt(p).k)
  {
  }

  /** `ConfigHR2[at] |= ((getInt(f) >> lo) & ((1 << n) - 1)) << d` */
  method OrField(buf: array<Byte>, o: nat, ghost before: seq<Byte>, a: Asic, at: nat, f: Field, lo: nat, n: nat, d: nat)
    requires Room(buf, o, before) && at < FRAME_SIZE && 1 <= n && d + n <= 8
    requires forall p: nat | 8 * at + 8 - d - n <= p < 8 * at + 8 - d :: SlotAt(p) == Of(f, lo + 8 * at + 7 - d - p)
    requires StoredUpTo(buf, o, before, Stream(a), 8 * at + 8 - d - n)
    modifies buf
    ensures StoredUpTo(buf, o, before, Stream(a), 8 * at + 8 - d)
  {
    forall p: nat | 8 * at + 8 - d - n <= p < 8 * at + 8 - d
      ensures Stream(a)[p] == Bit(a.Int(f), lo + 8 * at + 7 - d - p)
    {
      StreamOfField(a, p);
    }
    OrBits(buf, o, before, Stream(a), at, a.Int(f), lo, n, d);
  }

  /** The same for bit `k` of the field alone. */
  method OrBit(buf: array<Byte>, o: nat, ghost before: seq<Byte>, a: Asic, at: nat, f: Field, k: nat, d: nat)
    requires Room(buf, o, before) && at < FRAME_SIZE && d < 8
    requires SlotAt(8 * at + 7 - d) == Of(f, k)
    requires StoredUpTo(buf, o, before, Stream(a), 8 * at + 7 - d)
    modifies buf
    ensures StoredUpTo(buf, o, before, Stream(a), 8 * at + 8 - d)
  {
    StreamOfField(a, 8 * at + 7 - d);
    OrOne(buf, o, before, Stream(a), at, a.Int(f), k, d);
  }

  /** `ConfigHR2[at] = (getInt(f) >> lo) & 0xFF` */
  method AssignByte(buf: array<Byte>, o: nat, ghost before: seq<Byte>, a: Asic, at: nat, f: Field, lo: nat)
    requires Room(buf, o, before) && at < FRAME_SIZE
    requires forall p: nat | 8 * at <= p < 8 * at + 8 :: SlotAt(p) == Of(f, lo + 8 * at + 7 - p)
    requires StoredUpTo(buf, o, before, Stream(a), 8 * at)
    modifies buf
    ensures StoredUpTo(buf, o, before, Stream(a), 8 * at + 8)
  {
    forall p: nat | 8 * at <= p < 8 * at + 8
      ensures Stream(a)[p] == Bit(a.Int(f), lo + 8 * at + 7 - p)
    {
      StreamOfField(a, p);
    }
    AssignBits(buf, o, before, Stream(a), at, a.Int(f), lo);
  }

  /** The stream carries `tmask` as mask `j`. */
  ghost predicate CarriesMask(bits: seq<bool>, j: nat, tmask: Word64)
    requires |bits| == FRAME_BITS && j < 3
  {
    match tmask
    case m => forall k: nat | k < 64 :: bits[62 + 3 * (63 - k) + (2 - j)] == Bit(m, k)
  }

  /** `ConfigHR2[at] |= (tmask & (1 << k))`, shifted so that bit `k` falls on bit `d`. */
  method OrMask(buf: array<Byte>, o: nat, ghost before: seq<Byte>, ghost bits: seq<bool>,
                at: nat, tmask: Word64, ghost j: nat, k: nat, d: nat)
    requires Room(buf, o, before) && |bits| == FRAME_BITS
    requires k < 64 && j < 3 && d < 8 && CarriesMask(bits, j, tmask)
    requires 8 * at + 7 - d == 62 + 3 * (63 - k) + (2 - j)
    requires MasksStored(buf, o, before, bits, j, k + 1)
    modifies buf
    ensures MasksStored(buf, o, before, bits, j, k)
  {
    assert bits[8 * at + 7 - d] == Bit(tmask, k);
    OrInto(buf, o, at, tmask, k, 1, d);
    forall p: nat | p < FRAME_BITS
      ensures MaskReached(j, k, p) == (MaskReached(j, k + 1, p) || p == 8 * at + 7 - d)
    {
      OneBitFurther(j, k, p);
    }
  }

  lemma OneBitFurther(j: nat, k: nat, p: nat)
    requires j < 3 && k < 64
    ensures MaskReached(j, k, p) == (MaskReached(j, k + 1, p) || p == 62 + 3 * (63 - k) + (2 - j))
  {
  }

  method StoreReadoutByte0(buf: array<Byte>, o: nat, ghost before: seq<Byte>, a: Asic)
    requires Room(buf, o, before)
    requires StoredUpTo(buf, o, before, Stream(a), 0)
    modifies buf
    ensures StoredUpTo(buf, o, before, Stream(a), 11)
  {
    OrBit(buf, o, before, a, 0, ENOCDOUT1B, 0, 7);
    OrBit(buf, o, before, a, 0, ENOCDOUT2B, 0, 6);
    OrBit(buf, o, before, a, 0, ENOCTRANSMITON1B, 0, 5);
    OrBit(buf, o, before, a, 0, ENOCTRANSMITON2B, 0, 4);
    OrBit(buf, o, before, a, 0, ENOCCHIPSATB, 0, 3);
    OrBit(buf, o, before, a, 0, SELSTARTREADOUT, 0, 2);
    OrBit(buf, o, before, a, 0, SELENDREADOUT, 0, 1);
    Skip(buf, o, before, a);
  }

  method StoreReadoutByte1(buf: array<Byte>, o: nat, ghost before: seq<Byte>, a: Asic)
    requires Room(buf, o, before)
    requires StoredUpTo(buf, o, before, Stream(a), 11)
    modifies buf
    ensures StoredUpTo(buf, o, before, Stream(a), 16)
  {
    OrBit(buf, o, before, a, 1, CLKMUX, 0, 4);
    OrBit(buf, o, before, a, 1, SCON, 0, 3);
    OrBit(buf, o, before, a, 1, RAZCHNEXTVAL, 0, 2);
    OrBit(buf, o, before, a, 1, RAZCHNINTVAL, 0, 1);
    OrBit(buf, o, before, a, 1, TRIGEXTVAL, 0, 0);
  }

  method StoreReadoutSwitches(buf: array<Byte>, o: nat, ghost before: seq<Byte>, a: Asic)
    requires Room(buf, o, before)
    requires StoredUpTo(buf, o, before, Stream(a), 0)
    modifies buf
    ensures StoredUpTo(buf, o, before, Stream(a), 16)
  {
    StoreReadoutByte0(buf, o, before, a);
    StoreReadoutByte1(buf, o, before, a);
  }

  method StoreTriggerSwitches(buf: array<Byte>, o: nat, ghost before: seq<Byte>, a: Asic)
    requires Room(buf, o, before)
    requires StoredUpTo(buf, o, before, Stream(a), 16)
    modifies buf
    ensures StoredUpTo(buf, o, before, Stream(a), 24)
  {
    OrBit(buf, o, before, a, 2, DISCROROR, 0, 7);
    OrBit(buf, o, before, a, 2, ENTRIGOUT, 0, 6);
    OrBit(buf, o, before, a, 2, TRIG0B, 0, 5);
    OrBit(buf, o, before, a, 2, TRIG1B, 0, 4);
    OrBit(buf, o, before, a, 2, TRIG2B, 0, 3);
    OrBit(buf, o, before, a, 2, OTABGSW, 0, 2);
    OrBit(buf, o, before, a, 2, DACSW, 0, 1);
    OrBit(buf, o, before, a, 2, SMALLDAC, 0, 0);
  }

  method StoreThresholdBits(buf: array<Byte>, o: nat, ghost before: seq<Byte>, a: Asic)
    requires Room(buf, o, before)
    requires StoredUpTo(buf, o, before, Stream(a), 24)
    modifies buf
    ensures StoredUpTo(buf, o, before, Stream(a), 54)
  {
    AssignByte(buf, o, before, a, 3, B2, 2);
    OrField(buf, o, before, a, 4, B2, 0, 2, 6);
    OrField(buf, o, before, a, 4, B1, 4, 6, 0);
    OrField(buf, o, before, a, 5, B1, 0, 4, 4);
    OrField(buf, o, before, a, 5, B0, 6, 4, 0);
    OrField(buf, o, before, a, 6, B0, 0, 6, 2);
  }

  method StoreHeaderBits(buf: array<Byte>, o: nat, ghost before: seq<Byte>, a: Asic)
    requires Room(buf, o, before)
    requires StoredUpTo(buf, o, before, Stream(a), 54)
    modifies buf
    ensures StoredUpTo(buf, o, before, Stream(a), 62)
  {
    OrBit(buf, o, before, a, 6, HEADER, 0, 1);
    OrBit(buf, o, before, a, 6, HEADER, 1, 0);
    OrBit(buf, o, before, a, 7, HEADER, 2, 7);
    OrBit(buf, o, before, a, 7, HEADER, 3, 6);
    OrBit(buf, o, before, a, 7, HEADER, 4, 5);
    OrBit(buf, o, before, a, 7, HEADER, 5, 4);
    OrBit(buf, o, before, a, 7, HEADER, 6, 3);
    OrBit(buf, o, before, a, 7, HEADER, 7, 2);
  }

  method StoreThresholds(buf: array<Byte>, o: nat, ghost before: seq<Byte>, a: Asic)
    requires Room(buf, o, before)
    requires StoredUpTo(buf, o, before, Stream(a), 24)
    modifies buf
    ensures StoredUpTo(buf, o, before, Stream(a), 62)
  {
    StoreThresholdBits(buf, o, before, a);
    StoreHeaderBits(buf, o, before, a);
  }

  method StoreMask2HighUpper(buf: array<Byte>, o: nat, ghost before: seq<Byte>, ghost bits: seq<bool>, tmask2: Word64)
    requires Room(buf, o, before) && |bits| == FRAME_BITS && CarriesMask(bits, 2, tmask2)
    requires MasksStored(buf, o, before, bits, 2, 64)
    modifies buf
    ensures MasksStored(buf, o, before, bits, 2, 48)
  {
    OrMask(buf, o, before, bits, 7, tmask2, 2, 63, 1);
    OrMask(buf, o, before, bits, 8, tmask2, 2, 62, 6);
    OrMask(buf, o, before, bits, 8, tmask2, 2, 61, 3);
    OrMask(buf, o, before, bits, 8, tmask2, 2, 60, 0);
    OrMask(buf, o, before, bits, 9, tmask2, 2, 59, 5);
    OrMask(buf, o, before, bits, 9, tmask2, 2, 58, 2);
    OrMask(buf, o, before, bits, 10, tmask2, 2, 57, 7);
    OrMask(buf, o, before, bits, 10, tmask2, 2, 56, 4);
    OrMask(buf, o, before, bits, 10, tmask2, 2, 55, 1);
    OrMask(buf, o, before, bits, 11, tmask2, 2, 54, 6);
    OrMask(buf, o, before, bits, 11, tmask2, 2, 53, 3);
    OrMask(buf, o, before, bits, 11, tmask2, 2, 52, 0);
    OrMask(buf, o, before, bits, 12, tmask2, 2, 51, 5);
    OrMask(buf, o, before, bits, 12, tmask2, 2, 50, 2);
    OrMask(buf, o, before, bits, 13, tmask2, 2, 49, 7);
    OrMask(buf, o, before, bits, 13, tmask2, 2, 48, 4);
  }

  method StoreMask2HighLower(buf: array<Byte>, o: nat, ghost before: seq<Byte>, ghost bits: seq<bool>, tmask2: Word64)
    requires Room(buf, o, before) && |bits| == FRAME_BITS && CarriesMask(bits, 2, tmask2)
    requires MasksStored(buf, o, before, bits, 2, 48)
    modifies buf
    ensures MasksStored(buf, o, before, bits, 2, 32)
  {
    OrMask(buf, o, before, bits, 13, tmask2, 2, 47, 1);
    OrMask(buf, o, before, bits, 14, tmask2, 2, 46, 6);
    OrMask(buf, o, before, bits, 14, tmask2, 2, 45, 3);
    OrMask(buf, o, before, bits, 14, tmask2, 2, 44, 0);
    OrMask(buf, o, before, bits, 15, tmask2, 2, 43, 5);
    OrMask(buf, o, before, bits, 15, tmask2, 2, 42, 2);
    OrMask(buf, o, before, bits, 16, tmask2, 2, 41, 7);
    OrMask(buf, o, before, bits, 16, tmask2, 2, 40, 4);
    OrMask(buf, o, before, bits, 16, tmask2, 2, 39, 1);
    OrMask(buf, o, before, bits, 17, tmask2, 2, 38, 6);
    OrMask(buf, o, before, bits, 17, tmask2, 2, 37, 3);
    OrMask(buf, o, before, bits, 17, tmask2, 2, 36, 0);
    OrMask(buf, o, before, bits, 18, tmask2, 2, 35, 5);
    OrMask(buf, o, before, bits, 18, tmask2, 2, 34, 2);
    OrMask(buf, o, before, bits, 19, tmask2, 2, 33, 7);
    OrMask(buf, o, before, bits, 19, tmask2, 2, 32, 4);
  }

  method StoreMask2High(buf: array<Byte>, o: nat, ghost before: seq<Byte>, ghost bits: seq<bool>, tmask2: Word64)
    requires Room(buf, o, before) && |bits| == FRAME_BITS && CarriesMask(bits, 2, tmask2)
    requires MasksStored(buf, o, before, bits, 2, 64)
    modifies buf
    ensures MasksStored(buf, o, before, bits, 2, 32)
  {
    StoreMask2HighUpper(buf, o, before, bits, tmask2);
    StoreMask2HighLower(buf, o, before, bits, tmask2);
  }

  method StoreMask2LowUpper(buf: array<Byte>, o: nat, ghost before: seq<Byte>, ghost bits: seq<bool>, tmask2: Word64)
    requires Room(buf, o, before) && |bits| == FRAME_BITS && CarriesMask(bits, 2, tmask2)
    requires MasksStored(buf, o, before, bits, 2, 32)
    modifies buf
    ensures MasksStored(buf, o, before, bits, 2, 16)
  {
    OrMask(buf, o, before, bits, 19, tmask2, 2, 31, 1);
    OrMask(buf, o, before, bits, 20, tmask2, 2, 30, 6);
    OrMask(buf, o, before, bits, 20, tmask2, 2, 29, 3);
    OrMask(buf, o, before, bits, 20, tmask2, 2, 28, 0);
    OrMask(buf, o, before, bits, 21, tmask2, 2, 27, 5);
    OrMask(buf, o, before, bits, 21, tmask2, 2, 26, 2);
    OrMask(buf, o, before, bits, 22, tmask2, 2, 25, 7);
    OrMask(buf, o, before, bits, 22, tmask2, 2, 24, 4);
    OrMask(buf, o, before, bits, 22, tmask2, 2, 23, 1);
    OrMask(buf, o, before, bits, 23, tmask2, 2, 22, 6);
    OrMask(buf, o, before, bits, 23, tmask2, 2, 21, 3);
    OrMask(buf, o, before, bits, 23, tmask2, 2, 20, 0);
    OrMask(buf, o, before, bits, 24, tmask2, 2, 19, 5);
    OrMask(buf, o, before, bits, 24, tmask2, 2, 18, 2);
    OrMask(buf, o, before, bits, 25, tmask2, 2, 17, 7);
    OrMask(buf, o, before, bits, 25, tmask2, 2, 16, 4);
  }

  method StoreMask2LowLower(buf: array<Byte>, o: nat, ghost before: seq<Byte>, ghost bits: seq<bool>, tmask2: Word64)
    requires Room(buf, o, before) && |bits| == FRAME_BITS && CarriesMask(bits, 2, tmask2)
    requires MasksStored(buf, o, before, bits, 2, 16)
    modifies buf
    ensures MasksStored(buf, o, before, bits, 2, 0)
  {
    OrMask(buf, o, before, bits, 25, tmask2, 2, 15, 1);
    OrMask(buf, o, before, bits, 26, tmask2, 2, 14, 6);
    OrMask(buf, o, before, bits, 26, tmask2, 2, 13, 3);
    OrMask(buf, o, before, bits, 26, tmask2, 2, 12, 0);
    OrMask(buf, o, before, bits, 27, tmask2, 2, 11, 5);
    OrMask(buf, o, before, bits, 27, tmask2, 2, 10, 2);
    OrMask(buf, o, before, bits, 28, tmask2, 2, 9, 7);
    OrMask(buf, o, before, bits, 28, tmask2, 2, 8, 4);
    OrMask(buf, o, before, bits, 28, tmask2, 2, 7, 1);
    OrMask(buf, o, before, bits, 29, tmask2, 2, 6, 6);
    OrMask(buf, o, before, bits, 29, tmask2, 2, 5, 3);
    OrMask(buf, o, before, bits, 29, tmask2, 2, 4, 0);
    OrMask(buf, o, before, bits, 30, tmask2, 2, 3, 5);
    OrMask(buf, o, before, bits, 30, tmask2, 2, 2, 2);
    OrMask(buf, o, before, bits, 31, tmask2, 2, 1, 7);
    OrMask(buf, o, before, bits, 31, tmask2, 2, 0, 4);
  }

  method StoreMask2Low(buf: array<Byte>, o: nat, ghost before: seq<Byte>, ghost bits: seq<bool>, tmask2: Word64)
    requires Room(buf, o, before) && |bits| == FRAME_BITS && CarriesMask(bits, 2, tmask2)
    requires MasksStored(buf, o, before, bits, 2, 32)
    modifies buf
    ensures MasksStored(buf, o, before, bits, 2, 0)
  {
    StoreMask2LowUpper(buf, o, before, bits, tmask2);
    StoreMask2LowLower(buf, o, before, bits, tmask2);
  }

  method StoreMask1HighUpper(buf: array<Byte>, o: nat, ghost before: seq<Byte>, ghost bits: seq<bool>, tmask1: Word64)
    requires Room(buf, o, before) && |bits| == FRAME_BITS && CarriesMask(bits, 1, tmask1)
    requires MasksStored(buf, o, before, bits, 1, 64)
    modifies buf
    ensures MasksStored(buf, o, before, bits, 1, 48)
  {
    OrMask(buf, o, before, bits, 7, tmask1, 1, 63, 0);
    OrMask(buf, o, before, bits, 8, tmask1, 1, 62, 5);
    OrMask(buf, o, before, bits, 8, tmask1, 1, 61, 2);
    OrMask(buf, o, before, bits, 9, tmask1, 1, 60, 7);
    OrMask(buf, o, before, bits, 9, tmask1, 1, 59, 4);
    OrMask(buf, o, before, bits, 9, tmask1, 1, 58, 1);
    OrMask(buf, o, before, bits, 10, tmask1, 1, 57, 6);
    OrMask(buf, o, before, bits, 10, tmask1, 1, 56, 3);
    OrMask(buf, o, before, bits, 10, tmask1, 1, 55, 0);
    OrMask(buf, o, before, bits, 11, tmask1, 1, 54, 5);
    OrMask(buf, o, before, bits, 11, tmask1, 1, 53, 2);
    OrMask(buf, o, before, bits, 12, tmask1, 1, 52, 7);
    OrMask(buf, o, before, bits, 12, tmask1, 1, 51, 4);
    OrMask(buf, o, before, bits, 12, tmask1, 1, 50, 1);
    OrMask(buf, o, before, bits, 13, tmask1, 1, 49, 6);
    OrMask(buf, o, before, bits, 13, tmask1, 1, 48, 3);
  }

  method StoreMask1HighLower(buf: array<Byte>, o: nat, ghost before: seq<Byte>, ghost bits: seq<bool>, tmask1: Word64)
    requires Room(buf, o, before) && |bits| == FRAME_BITS && CarriesMask(bits, 1, tmask1)
    requires MasksStored(buf, o, before, bits, 1, 48)
    modifies buf
    ensures MasksStored(buf, o, before, bits, 1, 32)
  {
    OrMask(buf, o, before, bits, 13, tmask1, 1, 47, 0);
    OrMask(buf, o, before, bits, 14, tmask1, 1, 46, 5);
    OrMask(buf, o, before, bits, 14, tmask1, 1, 45, 2);
    OrMask(buf, o, before, bits, 15, tmask1, 1, 44, 7);
    OrMask(buf, o, before, bits, 15, tmask1, 1, 43, 4);
    OrMask(buf, o, before, bits, 15, tmask1, 1, 42, 1);
    OrMask(buf, o, before, bits, 16, tmask1, 1, 41, 6);
    OrMask(buf, o, before, bits, 16, tmask1, 1, 40, 3);
    OrMask(buf, o, before, bits, 16, tmask1, 1, 39, 0);
    OrMask(buf, o, before, bits, 17, tmask1, 1, 38, 5);
    OrMask(buf, o, before, bits, 17, tmask1, 1, 37, 2);
    OrMask(buf, o, before, bits, 18, tmask1, 1, 36, 7);
    OrMask(buf, o, before, bits, 18, tmask1, 1, 35, 4);
    OrMask(buf, o, before, bits, 18, tmask1, 1, 34, 1);
    OrMask(buf, o, before, bits, 19, tmask1, 1, 33, 6);
    OrMask(buf, o, before, bits, 19, tmask1, 1, 32, 3);
  }

  method StoreMask1High(buf: array<Byte>, o: nat, ghost before: seq<Byte>, ghost bits: seq<bool>, tmask1: Word64)
    requires Room(buf, o, before) && |bits| == FRAME_BITS && CarriesMask(bits, 1, tmask1)
    requires MasksStored(buf, o, before, bits, 1, 64)
    modifies buf
    ensures MasksStored(buf, o, before, bits, 1, 32)
  {
    StoreMask1HighUpper(buf, o, before, bits, tmask1);
    StoreMask1HighLower(buf, o, before, bits, tmask1);
  }

  method StoreMask1LowUpper(buf: array<Byte>, o: nat, ghost before: seq<Byte>, ghost bits: seq<bool>, tmask1: Word64)
    requires Room(buf, o, before) && |bits| == FRAME_BITS && CarriesMask(bits, 1, tmask1)
    requires MasksStored(buf, o, before, bits, 1, 32)
    modifies buf
    ensures MasksStored(buf, o, before, bits, 1, 16)
  {
    OrMask(buf, o, before, bits, 19, tmask1, 1, 31, 0);
    OrMask(buf, o, before, bits, 20, tmask1, 1, 30, 5);
    OrMask(buf, o, before, bits, 20, tmask1, 1, 29, 2);
    OrMask(buf, o, before, bits, 21, tmask1, 1, 28, 7);
    OrMask(buf, o, before, bits, 21, tmask1, 1, 27, 4);
    OrMask(buf, o, before, bits, 21, tmask1, 1, 26, 1);
    OrMask(buf, o, before, bits, 22, tmask1, 1, 25, 6);
    OrMask(buf, o, before, bits, 22, tmask1, 1, 24, 3);
    OrMask(buf, o, before, bits, 22, tmask1, 1, 23, 0);
    OrMask(buf, o, before, bits, 23, tmask1, 1, 22, 5);
    OrMask(buf, o, before, bits, 23, tmask1, 1, 21, 2);
    OrMask(buf, o, before, bits, 24, tmask1, 1, 20, 7);
    OrMask(buf, o, before, bits, 24, tmask1, 1, 19, 4);
    OrMask(buf, o, before, bits, 24, tmask1, 1, 18, 1);
    OrMask(buf, o, before, bits, 25, tmask1, 1, 17, 6);
    OrMask(buf, o, before, bits, 25, tmask1, 1, 16, 3);
  }

  method StoreMask1LowLower(buf: array<Byte>, o: nat, ghost before: seq<Byte>, ghost bits: seq<bool>, tmask1: Word64)
    requires Room(buf, o, before) && |bits| == FRAME_BITS && CarriesMask(bits, 1, tmask1)
    requires MasksStored(buf, o, before, bits, 1, 16)
    modifies buf
    ensures MasksStored(buf, o, before, bits, 1, 0)
  {
    OrMask(buf, o, before, bits, 25, tmask1, 1, 15, 0);
    OrMask(buf, o, before, bits, 26, tmask1, 1, 14, 5);
    OrMask(buf, o, before, bits, 26, tmask1, 1, 13, 2);
    OrMask(buf, o, before, bits, 27, tmask1, 1, 12, 7);
    OrMask(buf, o, before, bits, 27, tmask1, 1, 11, 4);
    OrMask(buf, o, before, bits, 27, tmask1, 1, 10, 1);
    OrMask(buf, o, before, bits, 28, tmask1, 1, 9, 6);
    OrMask(buf, o, before, bits, 28, tmask1, 1, 8, 3);
    OrMask(buf, o, before, bits, 28, tmask1, 1, 7, 0);
    OrMask(buf, o, before, bits, 29, tmask1, 1, 6, 5);
    OrMask(buf, o, before, bits, 29, tmask1, 1, 5, 2);
    OrMask(buf, o, before, bits, 30, tmask1, 1, 4, 7);
    OrMask(buf, o, before, bits, 30, tmask1, 1, 3, 4);
    OrMask(buf, o, before, bits, 30, tmask1, 1, 2, 1);
    OrMask(buf, o, before, bits, 31, tmask1, 1, 1, 6);
    OrMask(buf, o, before, bits, 31, tmask1, 1, 0, 3);
  }

  method StoreMask1Low(buf: array<Byte>, o: nat, ghost before: seq<Byte>, ghost bits: seq<bool>, tmask1: Word64)
    requires Room(buf, o, before) && |bits| == FRAME_BITS && CarriesMask(bits, 1, tmask1)
    requires MasksStored(buf, o, before, bits, 1, 32)
    modifies buf
    ensures MasksStored(buf, o, before, bits, 1, 0)
  {
    StoreMask1LowUpper(buf, o, before, bits, tmask1);
    StoreMask1LowLower(buf, o, before, bits, tmask1);
  }

  method StoreMask0HighUpper(buf: array<Byte>, o: nat, ghost before: seq<Byte>, ghost bits: seq<bool>, tmask0: Word64)
    requires Room(buf, o, before) && |bits| == FRAME_BITS && CarriesMask(bits, 0, tmask0)
    requires MasksStored(buf, o, before, bits, 0, 64)
    modifies buf
    ensures MasksStored(buf, o, before, bits, 0, 48)
  {
    OrMask(buf, o, before, bits, 8, tmask0, 0, 63, 7);
    OrMask(buf, o, before, bits, 8, tmask0, 0, 62, 4);
    OrMask(buf, o, before, bits, 8, tmask0, 0, 61, 1);
    OrMask(buf, o, before, bits, 9, tmask0, 0, 60, 6);
    OrMask(buf, o, before, bits, 9, tmask0, 0, 59, 3);
    OrMask(buf, o, before, bits, 9, tmask0, 0, 58, 0);
    OrMask(buf, o, before, bits, 10, tmask0, 0, 57, 5);
    OrMask(buf, o, before, bits, 10, tmask0, 0, 56, 2);
    OrMask(buf, o, before, bits, 11, tmask0, 0, 55, 7);
    OrMask(buf, o, before, bits, 11, tmask0, 0, 54, 4);
    OrMask(buf, o, before, bits, 11, tmask0, 0, 53, 1);
    OrMask(buf, o, before, bits, 12, tmask0, 0, 52, 6);
    OrMask(buf, o, before, bits, 12, tmask0, 0, 51, 3);
    OrMask(buf, o, before, bits, 12, tmask0, 0, 50, 0);
    OrMask(buf, o, before, bits, 13, tmask0, 0, 49, 5);
    OrMask(buf, o, before, bits, 13, tmask0, 0, 48, 2);
  }

  method StoreMask0HighLower(buf: array<Byte>, o: nat, ghost before: seq<Byte>, ghost bits: seq<bool>, tmask0: Word64)
    requires Room(buf, o, before) && |bits| == FRAME_BITS && CarriesMask(bits, 0, tmask0)
    requires MasksStored(buf, o, before, bits, 0, 48)
    modifies buf
    ensures MasksStored(buf, o, before, bits, 0, 32)
  {
    OrMask(buf, o, before, bits, 14, tmask0, 0, 47, 7);
    OrMask(buf, o, before, bits, 14, tmask0, 0, 46, 4);
    OrMask(buf, o, before, bits, 14, tmask0, 0, 45, 1);
    OrMask(buf, o, before, bits, 15, tmask0, 0, 44, 6);
    OrMask(buf, o, before, bits, 15, tmask0, 0, 43, 3);
    OrMask(buf, o, before, bits, 15, tmask0, 0, 42, 0);
    OrMask(buf, o, before, bits, 16, tmask0, 0, 41, 5);
    OrMask(buf, o, before, bits, 16, tmask0, 0, 40, 2);
    OrMask(buf, o, before, bits, 17, tmask0, 0, 39, 7);
    OrMask(buf, o, before, bits, 17, tmask0, 0, 38, 4);
    OrMask(buf, o, before, bits, 17, tmask0, 0, 37, 1);
    OrMask(buf, o, before, bits, 18, tmask0, 0, 36, 6);
    OrMask(buf, o, before, bits, 18, tmask0, 0, 35, 3);
    OrMask(buf, o, before, bits, 18, tmask0, 0, 34, 0);
    OrMask(buf, o, before, bits, 19, tmask0, 0, 33, 5);
    OrMask(buf, o, before, bits, 19, tmask0, 0, 32, 2);
  }

  method StoreMask0High(buf: array<Byte>, o: nat, ghost before: seq<Byte>, ghost bits: seq<bool>, tmask0: Word64)
    requires Room(buf, o, before) && |bits| == FRAME_BITS && CarriesMask(bits, 0, tmask0)
    requires MasksStored(buf, o, before, bits, 0, 64)
    modifies buf
    ensures MasksStored(buf, o, before, bits, 0, 32)
  {
    StoreMask0HighUpper(buf, o, before, bits, tmask0);
    StoreMask0HighLower(buf, o, before, bits, tmask0);
  }

  method StoreMask0LowUpper(buf: array<Byte>, o: nat, ghost before: seq<Byte>, ghost bits: seq<bool>, tmask0: Word64)
    requires Room(buf, o, before) && |bits| == FRAME_BITS && CarriesMask(bits, 0, tmask0)
    requires MasksStored(buf, o, before, bits, 0, 32)
    modifies buf
    ensures MasksStored(buf, o, before, bits, 0, 16)
  {
    OrMask(buf, o, before, bits, 20, tmask0, 0, 31, 7);
    OrMask(buf, o, before, bits, 20, tmask0, 0, 30, 4);
    OrMask(buf, o, before, bits, 20, tmask0, 0, 29, 1);
    OrMask(buf, o, before, bits, 21, tmask0, 0, 28, 6);
    OrMask(buf, o, before, bits, 21, tmask0, 0, 27, 3);
    OrMask(buf, o, before, bits, 21, tmask0, 0, 26, 0);
    OrMask(buf, o, before, bits, 22, tmask0, 0, 25, 5);
    OrMask(buf, o, before, bits, 22, tmask0, 0, 24, 2);
    OrMask(buf, o, before, bits, 23, tmask0, 0, 23, 7);
    OrMask(buf, o, before, bits, 23, tmask0, 0, 22, 4);
    OrMask(buf, o, before, bits, 23, tmask0, 0, 21, 1);
    OrMask(buf, o, before, bits, 24, tmask0, 0, 20, 6);
    OrMask(buf, o, before, bits, 24, tmask0, 0, 19, 3);
    OrMask(buf, o, before, bits, 24, tmask0, 0, 18, 0);
    OrMask(buf, o, before, bits, 25, tmask0, 0, 17, 5);
    OrMask(buf, o, before, bits, 25, tmask0, 0, 16, 2);
  }

  method StoreMask0LowLower(buf: array<Byte>, o: nat, ghost before: seq<Byte>, ghost bits: seq<bool>, tmask0: Word64)
    requires Room(buf, o, before) && |bits| == FRAME_BITS && CarriesMask(bits, 0, tmask0)
    requires MasksStored(buf, o, before, bits, 0, 16)
    modifies buf
    ensures MasksStored(buf, o, before, bits, 0, 0)
  {
    OrMask(buf, o, before, bits, 26, tmask0, 0, 15, 7);
    OrMask(buf, o, before, bits, 26, tmask0, 0, 14, 4);
    OrMask(buf, o, before, bits, 26, tmask0, 0, 13, 1);
    OrMask(buf, o, before, bits, 27, tmask0, 0, 12, 6);
    OrMask(buf, o, before, bits, 27, tmask0, 0, 11, 3);
    OrMask(buf, o, before, bits, 27, tmask0, 0, 10, 0);
    OrMask(buf, o, before, bits, 28, tmask0, 0, 9, 5);
    OrMask(buf, o, before, bits, 28, tmask0, 0, 8, 2);
    OrMask(buf, o, before, bits, 29, tmask0, 0, 7, 7);
    OrMask(buf, o, before, bits, 29, tmask0, 0, 6, 4);
    OrMask(buf, o, before, bits, 29, tmask0, 0, 5, 1);
    OrMask(buf, o, before, bits, 30, tmask0, 0, 4, 6);
    OrMask(buf, o, before, bits, 30, tmask0, 0, 3, 3);
    OrMask(buf, o, before, bits, 30, tmask0, 0, 2, 0);
    OrMask(buf, o, before, bits, 31, tmask0, 0, 1, 5);
    OrMask(buf, o, before, bits, 31, tmask0, 0, 0, 2);
  }

  method StoreMask0Low(buf: array<Byte>, o: nat, ghost before: seq<Byte>, ghost bits: seq<bool>, tmask0: Word64)
    requires Room(buf, o, before) && |bits| == FRAME_BITS && CarriesMask(bits, 0, tmask0)
    requires MasksStored(buf, o, before, bits, 0, 32)
    modifies buf
    ensures MasksStored(buf, o, before, bits, 0, 0)
  {
    StoreMask0LowUpper(buf, o, before, bits, tmask0);
    StoreMask0LowLower(buf, o, before, bits, tmask0);
  }

  method StoreDiscriminators(buf: array<Byte>, o: nat, ghost before: seq<Byte>, a: Asic)
    requires Room(buf, o, before)
    requires StoredUpTo(buf, o, before, Stream(a), 254)
    modifies buf
    ensures StoredUpTo(buf, o, before, Stream(a), 264)
  {
    OrBit(buf, o, before, a, 31, RS_OR_DISCRI, 0, 1);
    OrBit(buf, o, before, a, 31, DISCRI1, 0, 0);
    OrBit(buf, o, before, a, 32, DISCRI2, 0, 7);
    OrBit(buf, o, before, a, 32, DISCRI0, 0, 6);
    OrBit(buf, o, before, a, 32, OTAQ_PWRADC, 0, 5);
    OrBit(buf, o, before, a, 32, EN_OTAQ, 0, 4);
    OrBit(buf, o, before, a, 32, SW50F0, 0, 3);
    OrBit(buf, o, before, a, 32, SW100F0, 0, 2);
    OrBit(buf, o, before, a, 32, SW100K0, 0, 1);
    OrBit(buf, o, before, a, 32, SW50K0, 0, 0);
  }

  method StorePower(buf: array<Byte>, o: nat, ghost before: seq<Byte>, a: Asic)
    requires Room(buf, o, before)
    requires StoredUpTo(buf, o, before, Stream(a), 264)
    modifies buf
    ensures StoredUpTo(buf, o, before, Stream(a), 272)
  {
    OrBit(buf, o, before, a, 33, PWRONFSB1, 0, 7);
    OrBit(buf, o, before, a, 33, PWRONFSB2, 0, 6);
    OrBit(buf, o, before, a, 33, PWRONFSB0, 0, 5);
    OrBit(buf, o, before, a, 33, SEL1, 0, 4);
    OrBit(buf, o, before, a, 33, SEL0, 0, 3);
    OrBit(buf, o, before, a, 33, SW50F1, 0, 2);
    OrBit(buf, o, before, a, 33, SW100F1, 0, 1);
    OrBit(buf, o, before, a, 33, SW100K1, 0, 0);
  }

  method StoreShaper1(buf: array<Byte>, o: nat, ghost before: seq<Byte>, a: Asic)
    requires Room(buf, o, before)
    requires StoredUpTo(buf, o, before, Stream(a), 272)
    modifies buf
    ensures StoredUpTo(buf, o, before, Stream(a), 280)
  {
    OrBit(buf, o, before, a, 34, SW50K1, 0, 7);
    OrBit(buf, o, before, a, 34, CMDB0FSB1, 0, 6);
    OrBit(buf, o, before, a, 34, CMDB1FSB1, 0, 5);
    OrBit(buf, o, before, a, 34, CMDB2FSB1, 0, 4);
    OrBit(buf, o, before, a, 34, CMDB3FSB1, 0, 3);
    OrBit(buf, o, before, a, 34, SW50F2, 0, 2);
    OrBit(buf, o, before, a, 34, SW100F2, 0, 1);
    OrBit(buf, o, before, a, 34, SW100K2, 0, 0);
  }

  method StoreShaper2(buf: array<Byte>, o: nat, ghost before: seq<Byte>, a: Asic)
    requires Room(buf, o, before)
    requires StoredUpTo(buf, o, before, Stream(a), 280)
    modifies buf
    ensures StoredUpTo(buf, o, before, Stream(a), 288)
  {
    OrBit(buf, o, before, a, 35, SW50K2, 0, 7);
    OrBit(buf, o, before, a, 35, CMDB0FSB2, 0, 6);
    OrBit(buf, o, before, a, 35, CMDB1FSB2, 0, 5);
    OrBit(buf, o, before, a, 35, CMDB2FSB2, 0, 4);
    OrBit(buf, o, before, a, 35, CMDB3FSB2, 0, 3);
    OrBit(buf, o, before, a, 35, PWRONW, 0, 2);
    OrBit(buf, o, before, a, 35, PWRONSS, 0, 1);
    OrBit(buf, o, before, a, 35, PWRONBUFF, 0, 0);
  }

  method StoreShapers(buf: array<Byte>, o: nat, ghost before: seq<Byte>, a: Asic)
    requires Room(buf, o, before)
    requires StoredUpTo(buf, o, before, Stream(a), 272)
    modifies buf
    ensures StoredUpTo(buf, o, before, Stream(a), 288)
  {
    StoreShaper1(buf, o, before, a);
    StoreShaper2(buf, o, before, a);
  }

  method StoreSlowShaper(buf: array<Byte>, o: nat, ghost before: seq<Byte>, a: Asic)
    requires Room(buf, o, before)
    requires StoredUpTo(buf, o, before, Stream(a), 288)
    modifies buf
    ensures StoredUpTo(buf, o, before, Stream(a), 296)
  {
    OrField(buf, o, before, a, 36, SWSSC, 0, 3, 5);
    OrBit(buf, o, before, a, 36, CMDB0SS, 0, 4);
    OrBit(buf, o, before, a, 36, CMDB1SS, 0, 3);
    OrBit(buf, o, before, a, 36, CMDB2SS, 0, 2);
    OrBit(buf, o, before, a, 36, CMDB3SS, 0, 1);
    OrBit(buf, o, before, a, 36, PWRONPA, 0, 0);
  }

  /** The gains go in from channel 0 up, which is from the last gain byte down. */
  ghost predicate GainsStored(buf: array<Byte>, o: nat, before: seq<Byte>, bits: seq<bool>, c: nat)
    requires Room(buf, o, before) && |bits| == FRAME_BITS
    reads buf
  {
    match before
    case was =>
      && Outside(buf, o, FRAME_SIZE, was)
      && (forall p: nat | p < FRAME_BITS :: BitAt(buf, o, p) == ((p < 296 || 808 - 8 * c <= p) && bits[p]))
  }

  /** `ConfigHR2[100 - ip] |= gain[ip] & 0xFF` */
  method OrGain(buf: array<Byte>, o: nat, ghost before: seq<Byte>, a: Asic, ip: nat)
    requires Room(buf, o, before) && ip < 64
    requires GainsStored(buf, o, before, Stream(a), ip)
    modifies buf
    ensures GainsStored(buf, o, before, Stream(a), ip + 1)
  {
    forall p: nat | 800 - 8 * ip <= p < 808 - 8 * ip
      ensures Stream(a)[p] == Bit(a.pagain[ip], 8 * (100 - ip) + 7 - p)
    {
      assert p / 8 == 100 - ip;
    }
    OrInto(buf, o, 100 - ip, a.pagain[ip], 0, 8, 0);
  }

  /** `ConfigHR2[at] = (tctest >> lo) & 0xFF`, with the test word zero. */
  method AssignTest(buf: array<Byte>, o: nat, ghost before: seq<Byte>, ghost a: Asic, at: nat, tctest: Word64, lo: nat)
    requires Room(buf, o, before) && 101 <= at < FRAME_SIZE && tctest == 0
    requires StoredUpTo(buf, o, before, Stream(a), FRAME_BITS)
    modifies buf
    ensures StoredUpTo(buf, o, before, Stream(a), FRAME_BITS)
  {
    forall p: nat | 8 * at <= p < 8 * at + 8
      ensures !Stream(a)[p] && !Bit(tctest, lo + 8 * at + 7 - p)
    {
      ZeroBit(lo + 8 * at + 7 - p);
    }
    Assign(buf, o, at, tctest, lo, 8, 0);
  }

  lemma MaskCarried(a: Asic, j: nat)
    requires j < 3
    ensures CarriesMask(Stream(a), j, a.Mask(j))
  {
    forall k: nat | k < 64
      ensures Stream(a)[62 + 3 * (63 - k) + (2 - j)] == Bit(a.Mask(j), k)
    {
      MaskAtItsPlace(j, k);
      assert PlaceOfMask(j).Position(k) == 62 + 3 * (63 - k) + (2 - j);
    }
  }

  lemma MasksBegin(buf: array<Byte>, o: nat, before: seq<Byte>, bits: seq<bool>)
    requires Room(buf, o, before) && |bits| == FRAME_BITS
    requires StoredUpTo(buf, o, before, bits, 62)
    ensures MasksStored(buf, o, before, bits, 2, 64)
  {
    forall p: nat | p < FRAME_BITS
      ensures MaskReached(2, 64, p) == (p < 62)
    {
    }
  }

  lemma NextMask(buf: array<Byte>, o: nat, before: seq<Byte>, bits: seq<bool>, j: nat)
    requires Room(buf, o, before) && |bits| == FRAME_BITS && j < 2
    requires MasksStored(buf, o, before, bits, j + 1, 0)
    ensures MasksStored(buf, o, before, bits, j, 64)
  {
    forall p: nat | p < FRAME_BITS
      ensures MaskReached(j + 1, 0, p) == MaskReached(j, 64, p)
    {
    }
  }

  lemma MasksEnd(buf: array<Byte>, o: nat, before: seq<Byte>, bits: seq<bool>)
    requires Room(buf, o, before) && |bits| == FRAME_BITS
    requires MasksStored(buf, o, before, bits, 0, 0)
    ensures StoredUpTo(buf, o, before, bits, 254)
  {
    forall p: nat | p < FRAME_BITS
      ensures MaskReached(0, 0, p) == (p < 254)
    {
    }
  }

  method StoreMasks(buf: array<Byte>, o: nat, ghost before: seq<Byte>, ghost bits: seq<bool>,
                    tmask0: Word64, tmask1: Word64, tmask2: Word64)
    requires Room(buf, o, before) && |bits| == FRAME_BITS
    requires CarriesMask(bits, 0, tmask0) && CarriesMask(bits, 1, tmask1) && CarriesMask(bits, 2, tmask2)
    requires StoredUpTo(buf, o, before, bits, 62)
    modifies buf
    ensures StoredUpTo(buf, o, before, bits, 254)
  {
    MasksBegin(buf, o, before, bits);
    StoreMask2High(buf, o, before, bits, tmask2);
    StoreMask2Low(buf, o, before, bits, tmask2);
    NextMask(buf, o, before, bits, 1);
    StoreMask1High(buf, o, before, bits, tmask1);
    StoreMask1Low(buf, o, before, bits, tmask1);
    NextMask(buf, o, before, bits, 0);
    StoreMask0High(buf, o, before, bits, tmask0);
    StoreMask0Low(buf, o, before, bits, tmask0);
    MasksEnd(buf, o, before, bits);
  }

  method StoreGains(buf: array<Byte>, o: nat, ghost before: seq<Byte>, a: Asic)
    requires Room(buf, o, before)
    requires StoredUpTo(buf, o, before, Stream(a), 296)
    modifies buf
    ensures StoredUpTo(buf, o, before, Stream(a), FRAME_BITS)
  {
    UnusedTail(a);
    var ip := 0;
    while ip < 64
      invariant 0 <= ip <= 64
      invariant GainsStored(buf, o, before, Stream(a), ip)
    {
      OrGain(buf, o, before, a, ip);
      ip := ip + 1;
    }
  }

  lemma UnusedTail(a: Asic)
    ensures forall p: nat | 808 <= p < FRAME_BITS :: !Stream(a)[p]
  {
  }

  /** The test word is read from the configuration and then set to zero. */
  method StoreTest(buf: array<Byte>, o: nat, ghost before: seq<Byte>, a: Asic)
    requires Room(buf, o, before)
    requires StoredUpTo(buf, o, before, Stream(a), FRAME_BITS)
    modifies buf
    ensures StoredUpTo(buf, o, before, Stream(a), FRAME_BITS)
  {
    var tctest: Word64 := a.ctest;
    tctest := 0;
    AssignTest(buf, o, before, a, 101, tctest, 56);
    AssignTest(buf, o, before, a, 102, tctest, 48);
    AssignTest(buf, o, before, a, 103, tctest, 40);
    AssignTest(buf, o, before, a, 104, tctest, 32);
    AssignTest(buf, o, before, a, 105, tctest, 24);
    AssignTest(buf, o, before, a, 106, tctest, 16);
    AssignTest(buf, o, before, a, 107, tctest, 8);
    AssignTest(buf, o, before, a, 108, tctest, 0);
  }

  method ClearFrame(buf: array<Byte>, o: nat, ghost bits: seq<bool>)
    requires o + FRAME_SIZE <= buf.Length && |bits| == FRAME_BITS
    modifies buf
    ensures StoredUpTo(buf, o, old(buf[..]), bits, 0)
  {
    var ib := 0;
    while ib < FRAME_SIZE
      invariant 0 <= ib <= FRAME_SIZE
      invariant Outside(buf, o, FRAME_SIZE, old(buf[..]))
      invariant forall i | o <= i < o + ib :: buf[i] == 0
    {
      buf[o + ib] := 0;
      ib := ib + 1;
    }
    forall p: nat | p < FRAME_BITS
      ensures !BitAt(buf, o, p)
    {
      ZeroBit(7 - p % 8);
    }
  }

  /**
   `storeHardRoc2Configuration`: fills the 109 bytes from `o` on with the frame of `a`, whatever they
   held, and touches nothing else of the buffer.
   */
  method StoreHardRoc2Configuration(a: Asic, buf: array<Byte>, o: nat)
    requires o + FRAME_SIZE <= buf.Length
    modifies buf
    ensures buf[..] == old(buf[..o]) + Frame(a) + old(buf[o + FRAME_SIZE..])
  {
    ghost var before := buf[..];
    ClearFrame(buf, o, Stream(a));
    StoreReadoutSwitches(buf, o, before, a);
    StoreTriggerSwitches(buf, o, before, a);
    StoreThresholds(buf, o, before, a);
    MaskCarried(a, 0);
    MaskCarried(a, 1);
    MaskCarried(a, 2);
    StoreMasks(buf, o, before, Stream(a), a.mask0, a.mask1, a.mask2);
    StoreDiscriminators(buf, o, before, a);
    StorePower(buf, o, before, a);
    StoreShapers(buf, o, before, a);
    StoreSlowShaper(buf, o, before, a);
    StoreGains(buf, o, before, a);
    StoreTest(buf, o, before, a);
    AllWritten(buf, o, before, Stream(a));
  }

  // ---------- the layout is a bijection ----------

  /** Every bit of every field lies where its place says. */
  lemma FieldAtItsPlace(f: Field, k: nat)
    requires k < PlaceOf(f).width
    ensures 0 <= PlaceOf(f).Position(k) < FRAME_BITS && SlotAt(PlaceOf(f).Position(k)) == Of(f, k)
  {
    EveryField(f);
    if HeadSwitch(f) {
      HeadSwitchAtItsPlace(f);
    } else if MiddleSwitch(f) {
      MiddleSwitchAtItsPlace(f);
    } else if TailSwitch(f) {
      TailSwitchAtItsPlace(f);
    } else if Threshold(f) {
      ThresholdAtItsPlace(f, k);
    } else {
      NumberAtItsPlace(f, k);
    }
  }

  predicate Threshold(f: Field) {
    match f
    case B2 => true case B1 => true case B0 => true
    case _ => false
  }

  predicate Number(f: Field) {
    match f
    case HEADER => true case SWSSC => true
    case _ => false
  }

  lemma EveryField(f: Field)
    requires PlaceOf(f).width > 0
    ensures HeadSwitch(f) || MiddleSwitch(f) || TailSwitch(f) || Threshold(f) || Number(f)
  {
  }

  lemma NumberAtItsPlace(f: Field, k: nat)
    requires Number(f)
    requires k < PlaceOf(f).width
    ensures 0 <= PlaceOf(f).Position(k) < FRAME_BITS && SlotAt(PlaceOf(f).Position(k)) == Of(f, k)
  {
  }

  lemma ThresholdAtItsPlace(f: Field, k: nat)
    requires Threshold(f)
    requires k < PlaceOf(f).width
    ensures 0 <= PlaceOf(f).Position(k) < FRAME_BITS && SlotAt(PlaceOf(f).Position(k)) == Of(f, k)
  {
  }

  /** The switches before the masks. */
  predicate HeadSwitch(f: Field) {
    match f
    case ENOCDOUT1B => true case ENOCDOUT2B => true case ENOCTRANSMITON1B => true case ENOCTRANSMITON2B => true
    case ENOCCHIPSATB => true case SELSTARTREADOUT => true case SELENDREADOUT => true case CLKMUX => true
    case SCON => true case RAZCHNEXTVAL => true case RAZCHNINTVAL => true case TRIGEXTVAL => true
    case DISCROROR => true case ENTRIGOUT => true case TRIG0B => true case TRIG1B => true case TRIG2B => true
    case OTABGSW => true case DACSW => true case SMALLDAC => true
    case _ => false
  }

  /** The switches of the discriminators and the power. */
  predicate MiddleSwitch(f: Field) {
    match f
    case RS_OR_DISCRI => true case DISCRI1 => true case DISCRI2 => true case DISCRI0 => true
    case OTAQ_PWRADC => true case EN_OTAQ => true case SW50F0 => true case SW100F0 => true case SW100K0 => true
    case SW50K0 => true case PWRONFSB1 => true case PWRONFSB2 => true case PWRONFSB0 => true case SEL1 => true
    case SEL0 => true case SW50F1 => true case SW100F1 => true case SW100K1 => true
    case _ => false
  }

  /** The switches of the shapers. */
  predicate TailSwitch(f: Field) {
    match f
    case SW50K1 => true case CMDB0FSB1 => true case CMDB1FSB1 => true case CMDB2FSB1 => true
    case CMDB3FSB1 => true case SW50F2 => true case SW100F2 => true case SW100K2 => true case SW50K2 => true
    case CMDB0FSB2 => true case CMDB1FSB2 => true case CMDB2FSB2 => true case CMDB3FSB2 => true
    case PWRONW => true case PWRONSS => true case PWRONBUFF => true case CMDB0SS => true case CMDB1SS => true
    case CMDB2SS => true case CMDB3SS => true case PWRONPA => true
    case _ => false
  }

  lemma HeadSwitchAtItsPlace(f: Field)
    requires HeadSwitch(f)
    ensures PlaceOf(f).width == 1 && PlaceOf(f).step == 1 && 0 <= PlaceOf(f).low < 24 && HeadSlot(PlaceOf(f).low) == Of(f, 0)
  {
  }

  lemma MiddleSwitchAtItsPlace(f: Field)
    requires MiddleSwitch(f)
    ensures PlaceOf(f).width == 1 && PlaceOf(f).step == 1 && 254 <= PlaceOf(f).low < 272 && SlotAt(PlaceOf(f).low) == Of(f, 0)
  {
  }

  lemma TailSwitchAtItsPlace(f: Field)
    requires TailSwitch(f)
    ensures PlaceOf(f).width == 1 && PlaceOf(f).step == 1 && 272 <= PlaceOf(f).low < 296 && SlotAt(PlaceOf(f).low) == Of(f, 0)
  {
  }

  lemma MaskAtItsPlace(j: nat, k: nat)
    requires j < 3 && k < 64
    ensures 62 <= PlaceOfMask(j).Position(k) < 254 && SlotAt(PlaceOfMask(j).Position(k)) == OfMask(j, k)
  {
    var p := PlaceOfMask(j).Position(k);
    assert p - 62 == 3 * (63 - k) + (2 - j);
  }

  lemma GainAtItsPlace(c: nat, k: nat)
    requires c < 64 && k < 8
    ensures 296 <= PlaceOfGain(c).Position(k) < 808 && SlotAt(PlaceOfGain(c).Position(k)) == OfGain(c, k)
  {
  }

  /** Where the slot read forward lies when read backward. */
  function PositionOf(s: Slot): int {
    match s
    case Unused => -1
    case Of(f, k) => PlaceOf(f).Position(k)
    case OfMask(j, k) => PlaceOfMask(j).Position(k)
    case OfGain(c, k) => PlaceOfGain(c).Position(k)
  }

  /** Every used stream bit is the place of what it carries, so no two fields share a bit. */
  lemma SlotLiesThere(p: nat)
    requires p < FRAME_BITS
    ensures SlotAt(p) == Unused <==> 7 <= p < 11 || 808 <= p
    ensures SlotAt(p) != Unused ==> PositionOf(SlotAt(p)) == p
  {
    if p < 24 {
      HeadLiesThere(p);
    } else if 62 <= p < 254 {
      assert p - 62 == 3 * ((p - 62) / 3) + (p - 62) % 3;
    } else if 254 <= p < 259 {
      DiscriminatorLiesThere(p);
    } else if 259 <= p < 264 {
      DiscriminatorLiesThereEnd(p);
    } else if 264 <= p < 268 {
      PowerLiesThere(p);
    } else if 268 <= p < 272 {
      PowerLiesThereEnd(p);
    } else if 272 <= p < 276 {
      Shaper1LiesThere(p);
    } else if 276 <= p < 280 {
      Shaper1LiesThereEnd(p);
    } else if 280 <= p < 284 {
      Shaper2LiesThere(p);
    } else if 284 <= p < 288 {
      Shaper2LiesThereEnd(p);
    } else if 291 <= p < 293 {
      SlowShaperLiesThere(p);
    } else if 293 <= p < 296 {
      SlowShaperLiesThereEnd(p);
    }
  }

  lemma HeadLiesThere(p: nat)
    requires p < 24
    ensures HeadSlot(p) == Unused <==> 7 <= p < 11
    ensures HeadSlot(p) != Unused ==> HeadSlot(p).Of? && HeadSlot(p).k == 0 && PlaceOf(HeadSlot(p).f) == Place(p, 1, 1)
  {
  }

  lemma DiscriminatorLiesThere(p: nat)
    requires 254 <= p < 259
    ensures DiscriminatorSlot(p).Of? && DiscriminatorSlot(p).k == 0 && PlaceOf(DiscriminatorSlot(p).f) == Place(p, 1, 1)
  {
  }

  lemma DiscriminatorLiesThereEnd(p: nat)
    requires 259 <= p < 264
    ensures DiscriminatorSlot(p).Of? && DiscriminatorSlot(p).k == 0 && PlaceOf(DiscriminatorSlot(p).f) == Place(p, 1, 1)
  {
  }

  lemma PowerLiesThere(p: nat)
    requires 264 <= p < 268
    ensures PowerSlot(p).Of? && PowerSlot(p).k == 0 && PlaceOf(PowerSlot(p).f) == Place(p, 1, 1)
  {
  }

  lemma PowerLiesThereEnd(p: nat)
    requires 268 <= p < 272
    ensures PowerSlot(p).Of? && PowerSlot(p).k == 0 && PlaceOf(PowerSlot(p).f) == Place(p, 1, 1)
  {
  }

  lemma Shaper1LiesThere(p: nat)
    requires 272 <= p < 276
    ensures Shaper1Slot(p).Of? && Shaper1Slot(p).k == 0 && PlaceOf(Shaper1Slot(p).f) == Place(p, 1, 1)
  {
  }

  lemma Shaper1LiesThereEnd(p: nat)
    requires 276 <= p < 280
    ensures Shaper1Slot(p).Of? && Shaper1Slot(p).k == 0 && PlaceOf(Shaper1Slot(p).f) == Place(p, 1, 1)
  {
  }

  lemma Shaper2LiesThere(p: nat)
    requires 280 <= p < 284
    ensures Shaper2Slot(p).Of? && Shaper2Slot(p).k == 0 && PlaceOf(Shaper2Slot(p).f) == Place(p, 1, 1)
  {
  }

  lemma Shaper2LiesThereEnd(p: nat)
    requires 284 <= p < 288
    ensures Shaper2Slot(p).Of? && Shaper2Slot(p).k == 0 && PlaceOf(Shaper2Slot(p).f) == Place(p, 1, 1)
  {
  }

  lemma SlowShaperLiesThere(p: nat)
    requires 291 <= p < 293
    ensures SlowShaperSlot(p).Of? && SlowShaperSlot(p).k == 0 && PlaceOf(SlowShaperSlot(p).f) == Place(p, 1, 1)
  {
  }

  lemma SlowShaperLiesThereEnd(p: nat)
    requires 293 <= p < 296
    ensures SlowShaperSlot(p).Of? && SlowShaperSlot(p).k == 0 && PlaceOf(SlowShaperSlot(p).f) == Place(p, 1, 1)
  {
  }

  // ---------- round trip ----------

  /** The bits of a frame, by what they carry; unused bits are zero. */
  lemma FrameBit(a: Asic, p: nat)
    requires p < FRAME_BITS
    ensures StreamBit(Frame(a), p) == Carried(a, SlotAt(p))
  {
    PackBit(Stream(a), p);
  }

  /** What makes two descriptions the same chip configuration: fields modulo their ranges, masks, gains modulo 256. */
  predicate SameContent(a: Asic, b: Asic) {
    && (forall f :: a.Int(f) % Pow2(PlaceOf(f).width) == b.Int(f) % Pow2(PlaceOf(f).width))
    && (forall j: nat | j < 3 :: a.Mask(j) == b.Mask(j))
    && (forall c: nat | c < 64 :: a.pagain[c] % 256 == b.pagain[c] % 256)
  }

  /** Two descriptions have the same frame exactly when they have the same content. */
  lemma SameFrame(a: Asic, b: Asic)
    ensures Frame(a) == Frame(b) <==> SameContent(a, b)
  {
    if Frame(a) == Frame(b) {
      forall f ensures a.Int(f) % Pow2(PlaceOf(f).width) == b.Int(f) % Pow2(PlaceOf(f).width) {
        FieldRoundTrip(a, f);
        FieldRoundTrip(b, f);
      }
      forall j: nat | j < 3 ensures a.Mask(j) == b.Mask(j) {
        MaskRoundTrip(a, j);
        MaskRoundTrip(b, j);
      }
      forall c: nat | c < 64 ensures a.pagain[c] % 256 == b.pagain[c] % 256 {
        GainRoundTrip(a, c);
        GainRoundTrip(b, c);
      }
    }
    if SameContent(a, b) {
      forall p: nat | p < FRAME_BITS ensures StreamBit(Frame(a), p) == StreamBit(Frame(b), p) {
        FrameBit(a, p);
        FrameBit(b, p);
        SlotInRange(p);
        SameCarried(a, b, SlotAt(p));
      }
      SameStream(Frame(a), Frame(b));
    }
  }

  /** A slot of the field's width, or one of a mask or of a gain. */
  predicate InRange(s: Slot) {
    match s
    case Unused => true
    case Of(f, k) => k < PlaceOf(f).width
    case OfMask(j, k) => j < 3 && k < 64
    case OfGain(c, k) => c < 64 && k < 8
  }

  lemma SlotInRange(p: nat)
    requires p < FRAME_BITS
    ensures InRange(SlotAt(p))
  {
    if p < 62 {
      HeadInRange(p);
    } else if 254 <= p < 296 {
      TailInRange(p);
    }
  }

  lemma HeadInRange(p: nat)
    requires p < 62
    ensures InRange(HeadSlot(p))
  {
    if p < 24 {
      HeadLiesThere(p);
    }
  }

  lemma TailInRange(p: nat)
    requires 254 <= p < 296
    ensures InRange(SlotAt(p))
  {
    SlotLiesThere(p);
  }

  lemma SameCarried(a: Asic, b: Asic, s: Slot)
    requires SameContent(a, b) && InRange(s)
    ensures Carried(a, s) == Carried(b, s)
  {
    match s
    case Unused =>
    case Of(f, k) =>
      ModBit(a.Int(f), PlaceOf(f).width, k);
      ModBit(b.Int(f), PlaceOf(f).width, k);
    case OfMask(j, k) =>
      assert a.Mask(j) == b.Mask(j);
    case OfGain(c, k) =>
      ByteRange();
      ModBit(a.pagain[c], 8, k);
      ModBit(b.pagain[c], 8, k);
  }

  lemma FieldRoundTrip(a: Asic, f: Field)
    ensures PlaceOf(f).Within(FRAME_BITS)
    ensures Read(Frame(a), PlaceOf(f)) == a.Int(f) % Pow2(PlaceOf(f).width)
  {
    var place := PlaceOf(f);
    forall k: nat | k < place.width
      ensures 0 <= place.Position(k) < FRAME_BITS
      ensures StreamBit(Frame(a), place.Position(k)) == Bit(a.Int(f), k)
    {
      FieldAtItsPlace(f, k);
      FrameBit(a, place.Position(k));
    }
    GatherBits(Frame(a), place.low, place.step, place.width, a.Int(f));
  }

  lemma MaskRoundTrip(a: Asic, j: nat)
    requires j < 3
    ensures PlaceOfMask(j).Within(FRAME_BITS)
    ensures Read(Frame(a), PlaceOfMask(j)) == a.Mask(j)
  {
    var place := PlaceOfMask(j);
    forall k: nat | k < 64
      ensures 0 <= place.Position(k) < FRAME_BITS
      ensures StreamBit(Frame(a), place.Position(k)) == Bit(a.Mask(j), k)
    {
      MaskAtItsPlace(j, k);
      FrameBit(a, place.Position(k));
    }
    WordRange();
    GatherNumber(Frame(a), place, a.Mask(j));
  }

  lemma GainRoundTrip(a: Asic, c: nat)
    requires c < 64
    ensures PlaceOfGain(c).Within(FRAME_BITS)
    ensures Read(Frame(a), PlaceOfGain(c)) == a.pagain[c] % 256
  {
    var place := PlaceOfGain(c);
    forall k: nat | k < 8
      ensures 0 <= place.Position(k) < FRAME_BITS
      ensures StreamBit(Frame(a), place.Position(k)) == Bit(a.pagain[c], k)
    {
      GainAtItsPlace(c, k);
      FrameBit(a, place.Position(k));
    }
    GatherBits(Frame(a), place.low, place.step, 8, a.pagain[c]);
    ByteRange();
  }

  // ---------- the same in numbers ----------

  /** The switches of byte 0. */
  lemma SwitchByte0(a: Asic)
    ensures StreamBit(Frame(a), 0) == Bit(a.Int(ENOCDOUT1B), 0)
    ensures StreamBit(Frame(a), 1) == Bit(a.Int(ENOCDOUT2B), 0)
    ensures StreamBit(Frame(a), 2) == Bit(a.Int(ENOCTRANSMITON1B), 0)
    ensures StreamBit(Frame(a), 3) == Bit(a.Int(ENOCTRANSMITON2B), 0)
    ensures StreamBit(Frame(a), 4) == Bit(a.Int(ENOCCHIPSATB), 0)
    ensures StreamBit(Frame(a), 5) == Bit(a.Int(SELSTARTREADOUT), 0)
    ensures StreamBit(Frame(a), 6) == Bit(a.Int(SELENDREADOUT), 0)
  {
    FrameBit(a, 0);
    FrameBit(a, 1);
    FrameBit(a, 2);
    FrameBit(a, 3);
    FrameBit(a, 4);
    FrameBit(a, 5);
    FrameBit(a, 6);
  }

  /** The switches of byte 1. */
  lemma SwitchByte1(a: Asic)
    ensures StreamBit(Frame(a), 11) == Bit(a.Int(CLKMUX), 0)
    ensures StreamBit(Frame(a), 12) == Bit(a.Int(SCON), 0)
    ensures StreamBit(Frame(a), 13) == Bit(a.Int(RAZCHNEXTVAL), 0)
    ensures StreamBit(Frame(a), 14) == Bit(a.Int(RAZCHNINTVAL), 0)
    ensures StreamBit(Frame(a), 15) == Bit(a.Int(TRIGEXTVAL), 0)
  {
    FrameBit(a, 11);
    FrameBit(a, 12);
    FrameBit(a, 13);
    FrameBit(a, 14);
    FrameBit(a, 15);
  }

  /** The trigger switches of byte 2. */
  lemma TriggerSwitchBits(a: Asic)
    ensures StreamBit(Frame(a), 16) == Bit(a.Int(DISCROROR), 0)
    ensures StreamBit(Frame(a), 17) == Bit(a.Int(ENTRIGOUT), 0)
    ensures StreamBit(Frame(a), 18) == Bit(a.Int(TRIG0B), 0)
    ensures StreamBit(Frame(a), 19) == Bit(a.Int(TRIG1B), 0)
    ensures StreamBit(Frame(a), 20) == Bit(a.Int(TRIG2B), 0)
  {
    FrameBit(a, 16);
    FrameBit(a, 17);
    FrameBit(a, 18);
    FrameBit(a, 19);
    FrameBit(a, 20);
  }

  /** The other switches of byte 2. */
  lemma DacSwitchBits(a: Asic)
    ensures StreamBit(Frame(a), 21) == Bit(a.Int(OTABGSW), 0)
    ensures StreamBit(Frame(a), 22) == Bit(a.Int(DACSW), 0)
    ensures StreamBit(Frame(a), 23) == Bit(a.Int(SMALLDAC), 0)
  {
    FrameBit(a, 21);
    FrameBit(a, 22);
    FrameBit(a, 23);
  }

  /** The switches of byte 32. */
  lemma SwitchByte32High(a: Asic)
    ensures StreamBit(Frame(a), 256) == Bit(a.Int(DISCRI2), 0)
    ensures StreamBit(Frame(a), 257) == Bit(a.Int(DISCRI0), 0)
    ensures StreamBit(Frame(a), 258) == Bit(a.Int(OTAQ_PWRADC), 0)
    ensures StreamBit(Frame(a), 259) == Bit(a.Int(EN_OTAQ), 0)
  {
    FrameBit(a, 256);
    FrameBit(a, 257);
    FrameBit(a, 258);
    FrameBit(a, 259);
  }

  /** And its lower half. */
  lemma SwitchByte32Low(a: Asic)
    ensures StreamBit(Frame(a), 260) == Bit(a.Int(SW50F0), 0)
    ensures StreamBit(Frame(a), 261) == Bit(a.Int(SW100F0), 0)
    ensures StreamBit(Frame(a), 262) == Bit(a.Int(SW100K0), 0)
    ensures StreamBit(Frame(a), 263) == Bit(a.Int(SW50K0), 0)
  {
    FrameBit(a, 260);
    FrameBit(a, 261);
    FrameBit(a, 262);
    FrameBit(a, 263);
  }

  /** The switches of byte 33. */
  lemma SwitchByte33(a: Asic)
    ensures StreamBit(Frame(a), 264) == Bit(a.Int(PWRONFSB1), 0)
    ensures StreamBit(Frame(a), 265) == Bit(a.Int(PWRONFSB2), 0)
    ensures StreamBit(Frame(a), 266) == Bit(a.Int(PWRONFSB0), 0)
    ensures StreamBit(Frame(a), 267) == Bit(a.Int(SEL1), 0)
    ensures StreamBit(Frame(a), 268) == Bit(a.Int(SEL0), 0)
    ensures StreamBit(Frame(a), 269) == Bit(a.Int(SW50F1), 0)
    ensures StreamBit(Frame(a), 270) == Bit(a.Int(SW100F1), 0)
    ensures StreamBit(Frame(a), 271) == Bit(a.Int(SW100K1), 0)
  {
    FrameBit(a, 264);
    FrameBit(a, 265);
    FrameBit(a, 266);
    FrameBit(a, 267);
    FrameBit(a, 268);
    FrameBit(a, 269);
    FrameBit(a, 270);
    FrameBit(a, 271);
  }

  /** The switches of byte 34. */
  lemma SwitchByte34(a: Asic)
    ensures StreamBit(Frame(a), 272) == Bit(a.Int(SW50K1), 0)
    ensures StreamBit(Frame(a), 273) == Bit(a.Int(CMDB0FSB1), 0)
    ensures StreamBit(Frame(a), 274) == Bit(a.Int(CMDB1FSB1), 0)
    ensures StreamBit(Frame(a), 275) == Bit(a.Int(CMDB2FSB1), 0)
    ensures StreamBit(Frame(a), 276) == Bit(a.Int(CMDB3FSB1), 0)
    ensures StreamBit(Frame(a), 277) == Bit(a.Int(SW50F2), 0)
    ensures StreamBit(Frame(a), 278) == Bit(a.Int(SW100F2), 0)
    ensures StreamBit(Frame(a), 279) == Bit(a.Int(SW100K2), 0)
  {
    FrameBit(a, 272);
    FrameBit(a, 273);
    FrameBit(a, 274);
    FrameBit(a, 275);
    FrameBit(a, 276);
    FrameBit(a, 277);
    FrameBit(a, 278);
    FrameBit(a, 279);
  }

  /** The switches of byte 35. */
  lemma SwitchByte35(a: Asic)
    ensures StreamBit(Frame(a), 280) == Bit(a.Int(SW50K2), 0)
    ensures StreamBit(Frame(a), 281) == Bit(a.Int(CMDB0FSB2), 0)
    ensures StreamBit(Frame(a), 282) == Bit(a.Int(CMDB1FSB2), 0)
    ensures StreamBit(Frame(a), 283) == Bit(a.Int(CMDB2FSB2), 0)
    ensures StreamBit(Frame(a), 284) == Bit(a.Int(CMDB3FSB2), 0)
    ensures StreamBit(Frame(a), 285) == Bit(a.Int(PWRONW), 0)
    ensures StreamBit(Frame(a), 286) == Bit(a.Int(PWRONSS), 0)
    ensures StreamBit(Frame(a), 287) == Bit(a.Int(PWRONBUFF), 0)
  {
    FrameBit(a, 280);
    FrameBit(a, 281);
    FrameBit(a, 282);
    FrameBit(a, 283);
    FrameBit(a, 284);
    FrameBit(a, 285);
    FrameBit(a, 286);
    FrameBit(a, 287);
  }

  /** The thresholds over bytes 3 to 6, and the header, bit by bit. */
  lemma ThresholdBits(a: Asic, k: nat)
    ensures k < 10 ==> StreamBit(Frame(a), 33 - k) == Bit(a.Int(B2), k)
    ensures k < 10 ==> StreamBit(Frame(a), 43 - k) == Bit(a.Int(B1), k)
    ensures k < 10 ==> StreamBit(Frame(a), 53 - k) == Bit(a.Int(B0), k)
    ensures k < 8 ==> StreamBit(Frame(a), 54 + k) == Bit(a.Int(HEADER), k)
    ensures k < 3 ==> StreamBit(Frame(a), 290 - k) == Bit(a.Int(SWSSC), k)
  {
    if k < 10 {
      FrameBit(a, 33 - k);
      FrameBit(a, 43 - k);
      FrameBit(a, 53 - k);
    }
    if k < 8 {
      FrameBit(a, 54 + k);
    }
    if k < 3 {
      FrameBit(a, 290 - k);
    }
  }

  /** The switches that share a byte with masks or with SWSSC. */
  lemma OtherSwitchBits(a: Asic)
    ensures StreamBit(Frame(a), 254) == Bit(a.Int(RS_OR_DISCRI), 0) && StreamBit(Frame(a), 255) == Bit(a.Int(DISCRI1), 0)
    ensures StreamBit(Frame(a), 291) == Bit(a.Int(CMDB0SS), 0) && StreamBit(Frame(a), 292) == Bit(a.Int(CMDB1SS), 0)
    ensures StreamBit(Frame(a), 293) == Bit(a.Int(CMDB2SS), 0) && StreamBit(Frame(a), 294) == Bit(a.Int(CMDB3SS), 0)
    ensures StreamBit(Frame(a), 295) == Bit(a.Int(PWRONPA), 0)
  {
    FrameBit(a, 254);
    FrameBit(a, 255);
    FrameBit(a, 291);
    FrameBit(a, 292);
    FrameBit(a, 293);
    FrameBit(a, 294);
    FrameBit(a, 295);
  }

  /** The three mask bits of a channel. */
  lemma MaskBits(a: Asic, k: nat)
    requires k < 64
    ensures StreamBit(Frame(a), 62 + 3 * (63 - k)) == Bit(a.mask2, k)
    ensures StreamBit(Frame(a), 63 + 3 * (63 - k)) == Bit(a.mask1, k)
    ensures StreamBit(Frame(a), 64 + 3 * (63 - k)) == Bit(a.mask0, k)
  {
    MaskBit(a, 2, k);
    MaskBit(a, 1, k);
    MaskBit(a, 0, k);
  }

  lemma MaskBit(a: Asic, j: nat, k: nat)
    requires j < 3 && k < 64
    ensures 0 <= PlaceOfMask(j).Position(k) < FRAME_BITS
    ensures StreamBit(Frame(a), PlaceOfMask(j).Position(k)) == Bit(a.Mask(j), k)
  {
    MaskAtItsPlace(j, k);
    FrameBit(a, PlaceOfMask(j).Position(k));
  }

  /** Gain `c` is byte `100 - c`, and the last eight bytes are zero. */
  lemma GainBytes(a: Asic, c: nat)
    requires c < 64
    ensures Frame(a)[100 - c] == a.pagain[c] % 256
  {
    forall k: nat | k < 8
      ensures Bit(Frame(a)[100 - c], k) == Bit(a.pagain[c] % 256, k)
    {
      GainAtItsPlace(c, k);
      FrameBit(a, 807 - 8 * c - k);
      assert (807 - 8 * c - k) / 8 == 100 - c && 7 - (807 - 8 * c - k) % 8 == k;
      ByteRange();
      ModBit(a.pagain[c], 8, k);
    }
    ByteRange();
    SameBits(Frame(a)[100 - c], a.pagain[c] % 256, 8);
  }

  lemma TestBytes(a: Asic, i: nat)
    requires 101 <= i < 109
    ensures Frame(a)[i] == 0
  {
    forall k: nat | k < 8
      ensures Bit(Frame(a)[i], k) == Bit(0, k)
    {
      FrameBit(a, 8 * i + 7 - k);
      assert (8 * i + 7 - k) / 8 == i && 7 - (8 * i + 7 - k) % 8 == k;
      ZeroBit(k);
    }
    ByteRange();
    SameBits(Frame(a)[i], 0, 8);
  }
}
