/**
 The 74-byte slow-control frame of a MICROROC.

 As for the HARDROC2, `SlotAt` is the layout read forward and `PlaceOf` and its companions the
 layout read backward.  The thresholds are complemented and go lowest bit first; the 4-bit gains
 straddle the bytes.  Bit 7 of the header is not carried where the layout leaves room for it: the
 statement meant to shift it compares instead, and ORs the result into the bit of mask 2, channel
 63.  `Stream` is the stream the code produces, and the round-trip lemmas say exactly when that
 loses something.
 */
module MicroRoc {
  import opened Bits
  import opened Frames
  import opened Asics

  const FRAME_SIZE := 74
  const FRAME_BITS := 592

  /** What a stream bit carries. */
  datatype Slot =
    | Unused
    | Of(f: Field, k: nat)
    | Inverted(f: Field, k: nat)
    | OfMask(j: nat, k: nat)
    | OfGain(c: nat, k: nat)
    | OfTest(k: nat)

  function ReadoutSlot(p: nat): Slot {
    match p
      case 0 => Of(ENOCDOUT1B, 0) case 1 => Of(ENOCDOUT2B, 0) case 2 => Of(ENOCTRANSMITON1B, 0)
      case 3 => Of(ENOCTRANSMITON2B, 0) case 4 => Of(ENOCCHIPSATB, 0) case 5 => Of(SELSTARTREADOUT, 0)
      case 6 => Of(SELENDREADOUT, 0) case 9 => Of(SELRAZ0, 0) case 10 => Of(SELRAZ1, 0) case 11 => Of(CKMUX, 0)
      case 12 => Of(SCON, 0) case 13 => Of(RAZCHNEXTVAL, 0) case 14 => Of(RAZCHNINTVAL, 0)
      case 15 => Of(TRIGEXTVAL, 0) case 16 => Of(DISCOROR, 0) case 17 => Of(ENTRIGOUT, 0)
      case 18 => Of(TRIG0B, 0) case 19 => Of(TRIG1B, 0) case 20 => Of(TRIG2B, 0)
      case _ => Unused
  }

  function BiasSlot(p: nat): Slot {
    match p
      case 51 => Of(PWRONDAC, 0) case 52 => Of(ENPPDAC, 0) case 53 => Of(PWRONBG, 0)
      case 54 => Of(ENPPBANDGAP, 0)
      case _ => Unused
  }

  function DiscriminatorSlot(p: nat): Slot {
    match p
      case 255 => Of(RS_OR_DISCRI, 0) case 256 => Of(DISCRI1_PP, 0) case 257 => Of(DISCRI2_PP, 0)
      case 258 => Of(DISCRI0_PP, 0) case 259 => Of(ENPPOTAQ, 0) case 260 => Of(EN_OTAQ, 0)
      case 261 => Of(ENPPDAC4BIT, 0)
      case _ => Unused
  }

  function ShaperSlot(p: nat): Slot {
    if 518 <= p < 520 then Of(SWHG, p - 518)
    else if 522 <= p < 524 then Of(SWLG, p - 522)
    else match p
      case 520 => Of(VALIDSH, 0) case 521 => Of(PWRONWIDLAR, 0) case 524 => Of(PWRONSHLG, 0)
      case 525 => Of(PWRONSHHG, 0) case 526 => Of(ENGBST, 0) case 527 => Of(PWRONPA, 0)
      case _ => Unused
  }

  /** In the mask region, bits go by channel from 63 down, and in a channel by mask from 2 down. */
  function MaskOf(p: int): int {
    2 - (p - 63) % 3
  }

  function ChannelOf(p: int): int {
    63 - (p - 63) / 3
  }

  function SlotAt(p: nat): Slot {
    if p < 21 then ReadoutSlot(p)
    else if p < 31 then Inverted(BB2, p - 21)
    else if p < 41 then Inverted(BB1, p - 31)
    else if p < 51 then Inverted(BB0, p - 41)
    else if p < 55 then BiasSlot(p)
    else if p < 62 then Of(HEADER, p - 55)
    else if p == 62 then Unused
    else if p < 255 then OfMask(MaskOf(p), ChannelOf(p))
    else if p < 262 then DiscriminatorSlot(p)
    else if p < 518 then OfGain(63 - (p - 262) / 4, 3 - (p - 262) % 4)
    else if p < 528 then ShaperSlot(p)
    else if p < FRAME_BITS then OfTest(591 - p)
    else Unused
  }

  /** Where an integer field lies; width 0 for the fields a MICROROC does not carry. */
  function PlaceOf(f: Field): Place {
    match f
    case BB2 => Place(21, 1, 10) case BB1 => Place(31, 1, 10) case BB0 => Place(41, 1, 10)
    case HEADER => Place(55, 1, 8) case SWHG => Place(518, 1, 2) case SWLG => Place(522, 1, 2)
    case ENOCDOUT1B => Place(0, 1, 1) case ENOCDOUT2B => Place(1, 1, 1) case ENOCTRANSMITON1B => Place(2, 1, 1)
    case ENOCTRANSMITON2B => Place(3, 1, 1) case ENOCCHIPSATB => Place(4, 1, 1)
    case SELSTARTREADOUT => Place(5, 1, 1) case SELENDREADOUT => Place(6, 1, 1) case SELRAZ0 => Place(9, 1, 1)
    case SELRAZ1 => Place(10, 1, 1) case CKMUX => Place(11, 1, 1) case SCON => Place(12, 1, 1)
    case RAZCHNEXTVAL => Place(13, 1, 1) case RAZCHNINTVAL => Place(14, 1, 1)
    case TRIGEXTVAL => Place(15, 1, 1) case DISCOROR => Place(16, 1, 1) case ENTRIGOUT => Place(17, 1, 1)
    case TRIG0B => Place(18, 1, 1) case TRIG1B => Place(19, 1, 1) case TRIG2B => Place(20, 1, 1)
    case PWRONDAC => Place(51, 1, 1) case ENPPDAC => Place(52, 1, 1) case PWRONBG => Place(53, 1, 1)
    case ENPPBANDGAP => Place(54, 1, 1) case RS_OR_DISCRI => Place(255, 1, 1)
    case DISCRI1_PP => Place(256, 1, 1) case DISCRI2_PP => Place(257, 1, 1) case DISCRI0_PP => Place(258, 1, 1)
    case ENPPOTAQ => Place(259, 1, 1) case EN_OTAQ => Place(260, 1, 1) case ENPPDAC4BIT => Place(261, 1, 1)
    case VALIDSH => Place(520, 1, 1) case PWRONWIDLAR => Place(521, 1, 1) case PWRONSHLG => Place(524, 1, 1)
    case PWRONSHHG => Place(525, 1, 1) case ENGBST => Place(526, 1, 1) case PWRONPA => Place(527, 1, 1)
    case _ => Place(0, 1, 0)
  }

  /** The threshold fields are stored complemented. */
  predicate Complemented(f: Field) {
    match f
    case BB2 => true case BB1 => true case BB0 => true
    case _ => false
  }

  function PlaceOfMask(j: nat): Place {
    Place(254 - j, -3, 64)
  }

  function PlaceOfGain(c: nat): Place {
    Place(517 - 4 * c, -1, 4)
  }

  const PLACE_OF_TEST := Place(591, -1, 64)

  predicate Carried(a: Asic, s: Slot) {
    match s
    case Unused => false
    case Of(f, k) => Bit(a.Int(f), k)
    case Inverted(f, k) => Bit(Not(a.Int(f)), k)
    case OfMask(j, k) => j < 3 && Bit(a.Mask(j), k)
    case OfGain(c, k) => c < 64 && Bit(a.b0b3[c], k)
    case OfTest(k) => Bit(a.ctest, k)
  }

  /** The stream bit of mask 2, channel 63. */
  const SPILL := 63

  /** The stream that is produced: bit 7 of the header spills into the bit of mask 2, channel 63. */
  predicate Produced(a: Asic, p: nat) {
    Carried(a, SlotAt(p)) || (p == SPILL && Bit(a.Int(HEADER), 7))
  }

  function Stream(a: Asic): (bits: seq<bool>)
    ensures |bits| == FRAME_BITS
  {
    seq(FRAME_BITS, p requires 0 <= p < FRAME_BITS => Produced(a, p))
  }

  function Frame(a: Asic): (frame: seq<Byte>)
    ensures |frame| == FRAME_SIZE
  {
    Pack(Stream(a))
  }

  // ---------- storeMicroRocConfiguration ----------

  ghost predicate Room(buf: array<Byte>, o: nat, before: seq<Byte>) {
    o + FRAME_SIZE <= buf.Length == |before|
  }

  /**
   The stream is written below bit `n`, and zero from there to the end of the byte; nothing is said of
   the later bytes of the frame.  The statements go through the stream in order, the first on each byte
   being an assignment.
   */
  ghost predicate WrittenUpTo(buf: array<Byte>, o: nat, before: seq<Byte>, bits: seq<bool>, n: nat)
    requires Room(buf, o, before) && |bits| == FRAME_BITS
    reads buf
  {
    match before
    case was =>
      && Outside(buf, o, FRAME_SIZE, was)
      && (forall p: nat | p < FRAME_BITS && p < (n + 7) / 8 * 8 :: BitAt(buf, o, p) == (p < n && bits[p]))
  }

  /** `ConfigMR[at] |= ((w >> lo) & ((1 << n) - 1)) << d`, on a byte already assigned. */
  method OrBits(buf: array<Byte>, o: nat, ghost before: seq<Byte>, ghost bits: seq<bool>,
                at: nat, w: int, lo: nat, n: nat, d: nat)
    requires Room(buf, o, before) && |bits| == FRAME_BITS && at < FRAME_SIZE && 1 <= n && d + n < 8
    requires forall p: nat | 8 * at + 8 - d - n <= p < 8 * at + 8 - d :: bits[p] == Bit(w, lo + 8 * at + 7 - d - p)
    requires WrittenUpTo(buf, o, before, bits, 8 * at + 8 - d - n)
    modifies buf
    ensures WrittenUpTo(buf, o, before, bits, 8 * at + 8 - d)
  {
    assert (8 * at + 8 - d - n + 7) / 8 * 8 == 8 * at + 8 && (8 * at + 8 - d + 7) / 8 * 8 == 8 * at + 8;
    OrInto(buf, o, at, w, lo, n, d);
  }

  /** `ConfigMR[at] = ((w >> lo) & ((1 << n) - 1)) << d` */
  method AssignBits(buf: array<Byte>, o: nat, ghost before: seq<Byte>, ghost bits: seq<bool>,
                    at: nat, w: int, lo: nat, n: nat, d: nat)
    requires Room(buf, o, before) && |bits| == FRAME_BITS && at < FRAME_SIZE && 1 <= n && d + n <= 8
    requires forall p: nat | 8 * at <= p < 8 * at + 8 - d - n :: !bits[p]
    requires forall p: nat | 8 * at + 8 - d - n <= p < 8 * at + 8 - d :: bits[p] == Bit(w, lo + 8 * at + 7 - d - p)
    requires WrittenUpTo(buf, o, before, bits, 8 * at)
    modifies buf
    ensures WrittenUpTo(buf, o, before, bits, 8 * at + 8 - d)
  {
    Assign(buf, o, at, w, lo, n, d);
  }

  method OrOne(buf: array<Byte>, o: nat, ghost before: seq<Byte>, ghost bits: seq<bool>, at: nat, w: int, k: nat, d: nat)
    requires Room(buf, o, before) && |bits| == FRAME_BITS && at < FRAME_SIZE && d < 7
    requires bits[8 * at + 7 - d] == Bit(w, k)
    requires WrittenUpTo(buf, o, before, bits, 8 * at + 7 - d)
    modifies buf
    ensures WrittenUpTo(buf, o, before, bits, 8 * at + 8 - d)
  {
    OrBits(buf, o, before, bits, at, w, k, 1, d);
  }

  /** An assignment to bit 7, or to bit 6 below an unused bit 7. */
  method AssignOne(buf: array<Byte>, o: nat, ghost before: seq<Byte>, ghost bits: seq<bool>, at: nat, w: int, k: nat, d: nat)
    requires Room(buf, o, before) && |bits| == FRAME_BITS && at < FRAME_SIZE && 6 <= d <= 7
    requires bits[8 * at + 7 - d] == Bit(w, k) && (d == 6 ==> !bits[8 * at])
    requires WrittenUpTo(buf, o, before, bits, 8 * at)
    modifies buf
    ensures WrittenUpTo(buf, o, before, bits, 8 * at + 8 - d)
  {
    AssignBits(buf, o, before, bits, at, w, k, 1, d);
  }

  lemma StreamOfSlot(a: Asic, p: nat)
    requires p < FRAME_BITS
    ensures p != SPILL ==> Stream(a)[p] == Carried(a, SlotAt(p))
  {
  }

  method OrBit(buf: array<Byte>, o: nat, ghost before: seq<Byte>, a: Asic, at: nat, f: Field, k: nat, d: nat)
    requires Room(buf, o, before) && at < FRAME_SIZE && d < 7
    requires SlotAt(8 * at + 7 - d) == Of(f, k)
    requires WrittenUpTo(buf, o, before, Stream(a), 8 * at + 7 - d)
    modifies buf
    ensures WrittenUpTo(buf, o, before, Stream(a), 8 * at + 8 - d)
  {
    StreamOfSlot(a, 8 * at + 7 - d);
    OrOne(buf, o, before, Stream(a), at, a.Int(f), k, d);
  }

  method AssignBit(buf: array<Byte>, o: nat, ghost before: seq<Byte>, a: Asic, at: nat, f: Field, k: nat, d: nat)
    requires Room(buf, o, before) && at < FRAME_SIZE && 6 <= d <= 7
    requires SlotAt(8 * at + 7 - d) == Of(f, k) && (d == 6 ==> SlotAt(8 * at) == Unused)
    requires WrittenUpTo(buf, o, before, Stream(a), 8 * at)
    modifies buf
    ensures WrittenUpTo(buf, o, before, Stream(a), 8 * at + 8 - d)
  {
    StreamOfSlot(a, 8 * at + 7 - d);
    StreamOfSlot(a, 8 * at);
    AssignOne(buf, o, before, Stream(a), at, a.Int(f), k, d);
  }

  /** The same for the complement of a field, `tBB = ~tBB` in the source. */
  method OrInverted(buf: array<Byte>, o: nat, ghost before: seq<Byte>, a: Asic, at: nat, f: Field, k: nat, d: nat)
    requires Room(buf, o, before) && at < FRAME_SIZE && d < 7
    requires SlotAt(8 * at + 7 - d) == Inverted(f, k)
    requires WrittenUpTo(buf, o, before, Stream(a), 8 * at + 7 - d)
    modifies buf
    ensures WrittenUpTo(buf, o, before, Stream(a), 8 * at + 8 - d)
  {
    StreamOfSlot(a, 8 * at + 7 - d);
    OrOne(buf, o, before, Stream(a), at, Not(a.Int(f)), k, d);
  }

  method AssignInverted(buf: array<Byte>, o: nat, ghost before: seq<Byte>, a: Asic, at: nat, f: Field, k: nat, d: nat)
    requires Room(buf, o, before) && at < FRAME_SIZE && d == 7
    requires SlotAt(8 * at) == Inverted(f, k)
    requires WrittenUpTo(buf, o, before, Stream(a), 8 * at)
    modifies buf
    ensures WrittenUpTo(buf, o, before, Stream(a), 8 * at + 1)
  {
    StreamOfSlot(a, 8 * at);
    AssignOne(buf, o, before, Stream(a), at, Not(a.Int(f)), k, d);
  }

  lemma SkipEndOfByte0(buf: array<Byte>, o: nat, before: seq<Byte>, a: Asic)
    requires Room(buf, o, before) && WrittenUpTo(buf, o, before, Stream(a), 7)
    ensures WrittenUpTo(buf, o, before, Stream(a), 8)
  {
  }

  method StoreReadoutByte0(buf: array<Byte>, o: nat, ghost before: seq<Byte>, a: Asic)
    requires Room(buf, o, before)
    requires WrittenUpTo(buf, o, before, Stream(a), 0)
    modifies buf
    ensures WrittenUpTo(buf, o, before, Stream(a), 8)
  {
    AssignBit(buf, o, before, a, 0, ENOCDOUT1B, 0, 7);
    OrBit(buf, o, before, a, 0, ENOCDOUT2B, 0, 6);
    OrBit(buf, o, before, a, 0, ENOCTRANSMITON1B, 0, 5);
    OrBit(buf, o, before, a, 0, ENOCTRANSMITON2B, 0, 4);
    OrBit(buf, o, before, a, 0, ENOCCHIPSATB, 0, 3);
    OrBit(buf, o, before, a, 0, SELSTARTREADOUT, 0, 2);
    OrBit(buf, o, before, a, 0, SELENDREADOUT, 0, 1);
    SkipEndOfByte0(buf, o, before, a);
  }

  method StoreReadoutByte1(buf: array<Byte>, o: nat, ghost before: seq<Byte>, a: Asic)
    requires Room(buf, o, before)
    requires WrittenUpTo(buf, o, before, Stream(a), 8)
    modifies buf
    ensures WrittenUpTo(buf, o, before, Stream(a), 16)
  {
    AssignBit(buf, o, before, a, 1, SELRAZ0, 0, 6);
    OrBit(buf, o, before, a, 1, SELRAZ1, 0, 5);
    OrBit(buf, o, before, a, 1, CKMUX, 0, 4);
    OrBit(buf, o, before, a, 1, SCON, 0, 3);
    OrBit(buf, o, before, a, 1, RAZCHNEXTVAL, 0, 2);
    OrBit(buf, o, before, a, 1, RAZCHNINTVAL, 0, 1);
    OrBit(buf, o, before, a, 1, TRIGEXTVAL, 0, 0);
  }

  method StoreReadoutByte2(buf: array<Byte>, o: nat, ghost before: seq<Byte>, a: Asic)
    requires Room(buf, o, before)
    requires WrittenUpTo(buf, o, before, Stream(a), 16)
    modifies buf
    ensures WrittenUpTo(buf, o, before, Stream(a), 21)
  {
    AssignBit(buf, o, before, a, 2, DISCOROR, 0, 7);
    OrBit(buf, o, before, a, 2, ENTRIGOUT, 0, 6);
    OrBit(buf, o, before, a, 2, TRIG0B, 0, 5);
    OrBit(buf, o, before, a, 2, TRIG1B, 0, 4);
    OrBit(buf, o, before, a, 2, TRIG2B, 0, 3);
  }

  method StoreReadoutSwitches(buf: array<Byte>, o: nat, ghost before: seq<Byte>, a: Asic)
    requires Room(buf, o, before)
    requires WrittenUpTo(buf, o, before, Stream(a), 0)
    modifies buf
    ensures WrittenUpTo(buf, o, before, Stream(a), 21)
  {
    StoreReadoutByte0(buf, o, before, a);
    StoreReadoutByte1(buf, o, before, a);
    StoreReadoutByte2(buf, o, before, a);
  }

  method StoreThreshold2Low(buf: array<Byte>, o: nat, ghost before: seq<Byte>, a: Asic)
    requires Room(buf, o, before)
    requires WrittenUpTo(buf, o, before, Stream(a), 21)
    modifies buf
    ensures WrittenUpTo(buf, o, before, Stream(a), 26)
  {
    OrInverted(buf, o, before, a, 2, BB2, 0, 2);
    OrInverted(buf, o, before, a, 2, BB2, 1, 1);
    OrInverted(buf, o, before, a, 2, BB2, 2, 0);
    AssignInverted(buf, o, before, a, 3, BB2, 3, 7);
    OrInverted(buf, o, before, a, 3, BB2, 4, 6);
  }

  method StoreThreshold2High(buf: array<Byte>, o: nat, ghost before: seq<Byte>, a: Asic)
    requires Room(buf, o, before)
    requires WrittenUpTo(buf, o, before, Stream(a), 26)
    modifies buf
    ensures WrittenUpTo(buf, o, before, Stream(a), 31)
  {
    OrInverted(buf, o, before, a, 3, BB2, 5, 5);
    OrInverted(buf, o, before, a, 3, BB2, 6, 4);
    OrInverted(buf, o, before, a, 3, BB2, 7, 3);
    OrInverted(buf, o, before, a, 3, BB2, 8, 2);
    OrInverted(buf, o, before, a, 3, BB2, 9, 1);
  }

  method StoreThreshold2(buf: array<Byte>, o: nat, ghost before: seq<Byte>, a: Asic)
    requires Room(buf, o, before)
    requires WrittenUpTo(buf, o, before, Stream(a), 21)
    modifies buf
    ensures WrittenUpTo(buf, o, before, Stream(a), 31)
  {
    StoreThreshold2Low(buf, o, before, a);
    StoreThreshold2High(buf, o, before, a);
  }

  method StoreThreshold1Low(buf: array<Byte>, o: nat, ghost before: seq<Byte>, a: Asic)
    requires Room(buf, o, before)
    requires WrittenUpTo(buf, o, before, Stream(a), 31)
    modifies buf
    ensures WrittenUpTo(buf, o, before, Stream(a), 36)
  {
    OrInverted(buf, o, before, a, 3, BB1, 0, 0);
    AssignInverted(buf, o, before, a, 4, BB1, 1, 7);
    OrInverted(buf, o, before, a, 4, BB1, 2, 6);
    OrInverted(buf, o, before, a, 4, BB1, 3, 5);
    OrInverted(buf, o, before, a, 4, BB1, 4, 4);
  }

  method StoreThreshold1High(buf: array<Byte>, o: nat, ghost before: seq<Byte>, a: Asic)
    requires Room(buf, o, before)
    requires WrittenUpTo(buf, o, before, Stream(a), 36)
    modifies buf
    ensures WrittenUpTo(buf, o, before, Stream(a), 41)
  {
    OrInverted(buf, o, before, a, 4, BB1, 5, 3);
    OrInverted(buf, o, before, a, 4, BB1, 6, 2);
    OrInverted(buf, o, before, a, 4, BB1, 7, 1);
    OrInverted(buf, o, before, a, 4, BB1, 8, 0);
    AssignInverted(buf, o, before, a, 5, BB1, 9, 7);
  }

  method StoreThreshold1(buf: array<Byte>, o: nat, ghost before: seq<Byte>, a: Asic)
    requires Room(buf, o, before)
    requires WrittenUpTo(buf, o, before, Stream(a), 31)
    modifies buf
    ensures WrittenUpTo(buf, o, before, Stream(a), 41)
  {
    StoreThreshold1Low(buf, o, before, a);
    StoreThreshold1High(buf, o, before, a);
  }

  method StoreThreshold0Low(buf: array<Byte>, o: nat, ghost before: seq<Byte>, a: Asic)
    requires Room(buf, o, before)
    requires WrittenUpTo(buf, o, before, Stream(a), 41)
    modifies buf
    ensures WrittenUpTo(buf, o, before, Stream(a), 46)
  {
    OrInverted(buf, o, before, a, 5, BB0, 0, 6);
    OrInverted(buf, o, before, a, 5, BB0, 1, 5);
    OrInverted(buf, o, before, a, 5, BB0, 2, 4);
    OrInverted(buf, o, before, a, 5, BB0, 3, 3);
    OrInverted(buf, o, before, a, 5, BB0, 4, 2);
  }

  method StoreThreshold0High(buf: array<Byte>, o: nat, ghost before: seq<Byte>, a: Asic)
    requires Room(buf, o, before)
    requires WrittenUpTo(buf, o, before, Stream(a), 46)
    modifies buf
    ensures WrittenUpTo(buf, o, before, Stream(a), 51)
  {
    OrInverted(buf, o, before, a, 5, BB0, 5, 1);
    OrInverted(buf, o, before, a, 5, BB0, 6, 0);
    AssignInverted(buf, o, before, a, 6, BB0, 7, 7);
    OrInverted(buf, o, before, a, 6, BB0, 8, 6);
    OrInverted(buf, o, before, a, 6, BB0, 9, 5);
  }

  method StoreThreshold0(buf: array<Byte>, o: nat, ghost before: seq<Byte>, a: Asic)
    requires Room(buf, o, before)
    requires WrittenUpTo(buf, o, before, Stream(a), 41)
    modifies buf
    ensures WrittenUpTo(buf, o, before, Stream(a), 51)
  {
    StoreThreshold0Low(buf, o, before, a);
    StoreThreshold0High(buf, o, before, a);
  }

  method StoreBias(buf: array<Byte>, o: nat, ghost before: seq<Byte>, a: Asic)
    requires Room(buf, o, before)
    requires WrittenUpTo(buf, o, before, Stream(a), 51)
    modifies buf
    ensures WrittenUpTo(buf, o, before, Stream(a), 56)
  {
    OrBit(buf, o, before, a, 6, PWRONDAC, 0, 4);
    OrBit(buf, o, before, a, 6, ENPPDAC, 0, 3);
    OrBit(buf, o, before, a, 6, PWRONBG, 0, 2);
    OrBit(buf, o, before, a, 6, ENPPBANDGAP, 0, 1);
    OrBit(buf, o, before, a, 6, HEADER, 0, 0);
  }

  method StoreHeader(buf: array<Byte>, o: nat, ghost before: seq<Byte>, a: Asic)
    requires Room(buf, o, before)
    requires WrittenUpTo(buf, o, before, Stream(a), 56)
    modifies buf
    ensures WrittenUpTo(buf, o, before, Stream(a), 62)
  {
    AssignBit(buf, o, before, a, 7, HEADER, 1, 7);
    OrBit(buf, o, before, a, 7, HEADER, 2, 6);
    OrBit(buf, o, before, a, 7, HEADER, 3, 5);
    OrBit(buf, o, before, a, 7, HEADER, 4, 4);
    OrBit(buf, o, before, a, 7, HEADER, 5, 3);
    OrBit(buf, o, before, a, 7, HEADER, 6, 2);
  }

  method StoreBiasAndHeader(buf: array<Byte>, o: nat, ghost before: seq<Byte>, a: Asic)
    requires Room(buf, o, before)
    requires WrittenUpTo(buf, o, before, Stream(a), 51)
    modifies buf
    ensures WrittenUpTo(buf, o, before, Stream(a), 62)
  {
    StoreBias(buf, o, before, a);
    StoreHeader(buf, o, before, a);
  }

  /**
   The end of byte 7: `ConfigMR[7] |= ((HEADER & 0x80) > 6)`, a comparison, and then the bit of
   mask 2, channel 63, both into bit 0.
   */
  method StoreSpill(buf: array<Byte>, o: nat, ghost before: seq<Byte>, a: Asic)
    requires Room(buf, o, before)
    requires WrittenUpTo(buf, o, before, Stream(a), 62)
    modifies buf
    ensures WrittenUpTo(buf, o, before, Stream(a), 64)
  {
    AndPow2(a.Int(HEADER), 7);
    assert Pow2(7) == 0x80;
    var greater := if And(a.Int(HEADER), 0x80) > 6 then 1 else 0;
    assert Bit(greater, 0) == Bit(a.Int(HEADER), 7);
    OrInto(buf, o, 7, greater, 0, 1, 0);
    OrInto(buf, o, 7, a.mask2, 63, 1, 0);
    assert Stream(a)[62] == false && Stream(a)[63] == (Bit(a.mask2, 63) || Bit(a.Int(HEADER), 7));
  }

  /** The stream carries `mask` as mask `j`, but for the bit that `StoreSpill` writes. */
  ghost predicate CarriesMask(bits: seq<bool>, j: nat, mask: Word64)
    requires |bits| == FRAME_BITS && j < 3
  {
    match mask
    case m => forall k: nat | k < 64 && !(j == 2 && k == 63) :: bits[63 + 3 * (63 - k) + (2 - j)] == Bit(m, k)
  }

  /** `ConfigMR[at] |= (mask & (1 << k))`, shifted so that bit `k` falls on bit `d`. */
  method OrMask(buf: array<Byte>, o: nat, ghost before: seq<Byte>, ghost bits: seq<bool>,
                at: nat, mask: Word64, ghost j: nat, k: nat, d: nat)
    requires Room(buf, o, before) && |bits| == FRAME_BITS && k < 64 && j < 3 && d < 7 && at >= 8
    requires 8 * at + 7 - d == 63 + 3 * (63 - k) + (2 - j) && CarriesMask(bits, j, mask)
    requires WrittenUpTo(buf, o, before, bits, 8 * at + 7 - d)
    modifies buf
    ensures WrittenUpTo(buf, o, before, bits, 8 * at + 8 - d)
  {
    assert bits[63 + 3 * (63 - k) + (2 - j)] == Bit(mask, k);
    OrOne(buf, o, before, bits, at, mask, k, d);
  }

  /** `ConfigMR[at] = (mask & (1 << k))`, shifted so that bit `k` falls on bit 7. */
  method AssignMask(buf: array<Byte>, o: nat, ghost before: seq<Byte>, ghost bits: seq<bool>,
                    at: nat, mask: Word64, ghost j: nat, k: nat, d: nat)
    requires Room(buf, o, before) && |bits| == FRAME_BITS && k < 64 && j < 3 && d == 7 && at >= 8
    requires 8 * at == 63 + 3 * (63 - k) + (2 - j) && CarriesMask(bits, j, mask)
    requires WrittenUpTo(buf, o, before, bits, 8 * at)
    modifies buf
    ensures WrittenUpTo(buf, o, before, bits, 8 * at + 1)
  {
    assert bits[63 + 3 * (63 - k) + (2 - j)] == Bit(mask, k);
    AssignOne(buf, o, before, bits, at, mask, k, d);
  }

  method StoreMasks8To10(buf: array<Byte>, o: nat, ghost before: seq<Byte>, ghost bits: seq<bool>,
                         mask0: Word64, mask1: Word64, mask2: Word64)
    requires Room(buf, o, before) && |bits| == FRAME_BITS
    requires CarriesMask(bits, 0, mask0) && CarriesMask(bits, 1, mask1) && CarriesMask(bits, 2, mask2)
    requires WrittenUpTo(buf, o, before, bits, 64)
    modifies buf
    ensures WrittenUpTo(buf, o, before, bits, 88)
  {
    AssignMask(buf, o, before, bits, 8, mask1, 1, 63, 7);
    OrMask(buf, o, before, bits, 8, mask0, 0, 63, 6);
    OrMask(buf, o, before, bits, 8, mask2, 2, 62, 5);
    OrMask(buf, o, before, bits, 8, mask1, 1, 62, 4);
    OrMask(buf, o, before, bits, 8, mask0, 0, 62, 3);
    OrMask(buf, o, before, bits, 8, mask2, 2, 61, 2);
    OrMask(buf, o, before, bits, 8, mask1, 1, 61, 1);
    OrMask(buf, o, before, bits, 8, mask0, 0, 61, 0);
    AssignMask(buf, o, before, bits, 9, mask2, 2, 60, 7);
    OrMask(buf, o, before, bits, 9, mask1, 1, 60, 6);
    OrMask(buf, o, before, bits, 9, mask0, 0, 60, 5);
    OrMask(buf, o, before, bits, 9, mask2, 2, 59, 4);
    OrMask(buf, o, before, bits, 9, mask1, 1, 59, 3);
    OrMask(buf, o, before, bits, 9, mask0, 0, 59, 2);
    OrMask(buf, o, before, bits, 9, mask2, 2, 58, 1);
    OrMask(buf, o, before, bits, 9, mask1, 1, 58, 0);
    AssignMask(buf, o, before, bits, 10, mask0, 0, 58, 7);
    OrMask(buf, o, before, bits, 10, mask2, 2, 57, 6);
    OrMask(buf, o, before, bits, 10, mask1, 1, 57, 5);
    OrMask(buf, o, before, bits, 10, mask0, 0, 57, 4);
    OrMask(buf, o, before, bits, 10, mask2, 2, 56, 3);
    OrMask(buf, o, before, bits, 10, mask1, 1, 56, 2);
    OrMask(buf, o, before, bits, 10, mask0, 0, 56, 1);
    OrMask(buf, o, before, bits, 10, mask2, 2, 55, 0);
  }

  method StoreMasks11To13(buf: array<Byte>, o: nat, ghost before: seq<Byte>, ghost bits: seq<bool>,
                         mask0: Word64, mask1: Word64, mask2: Word64)
    requires Room(buf, o, before) && |bits| == FRAME_BITS
    requires CarriesMask(bits, 0, mask0) && CarriesMask(bits, 1, mask1) && CarriesMask(bits, 2, mask2)
    requires WrittenUpTo(buf, o, before, bits, 88)
    modifies buf
    ensures WrittenUpTo(buf, o, before, bits, 112)
  {
    AssignMask(buf, o, before, bits, 11, mask1, 1, 55, 7);
    OrMask(buf, o, before, bits, 11, mask0, 0, 55, 6);
    OrMask(buf, o, before, bits, 11, mask2, 2, 54, 5);
    OrMask(buf, o, before, bits, 11, mask1, 1, 54, 4);
    OrMask(buf, o, before, bits, 11, mask0, 0, 54, 3);
    OrMask(buf, o, before, bits, 11, mask2, 2, 53, 2);
    OrMask(buf, o, before, bits, 11, mask1, 1, 53, 1);
    OrMask(buf, o, before, bits, 11, mask0, 0, 53, 0);
    AssignMask(buf, o, before, bits, 12, mask2, 2, 52, 7);
    OrMask(buf, o, before, bits, 12, mask1, 1, 52, 6);
    OrMask(buf, o, before, bits, 12, mask0, 0, 52, 5);
    OrMask(buf, o, before, bits, 12, mask2, 2, 51, 4);
    OrMask(buf, o, before, bits, 12, mask1, 1, 51, 3);
    OrMask(buf, o, before, bits, 12, mask0, 0, 51, 2);
    OrMask(buf, o, before, bits, 12, mask2, 2, 50, 1);
    OrMask(buf, o, before, bits, 12, mask1, 1, 50, 0);
    AssignMask(buf, o, before, bits, 13, mask0, 0, 50, 7);
    OrMask(buf, o, before, bits, 13, mask2, 2, 49, 6);
    OrMask(buf, o, before, bits, 13, mask1, 1, 49, 5);
    OrMask(buf, o, before, bits, 13, mask0, 0, 49, 4);
    OrMask(buf, o, before, bits, 13, mask2, 2, 48, 3);
    OrMask(buf, o, before, bits, 13, mask1, 1, 48, 2);
    OrMask(buf, o, before, bits, 13, mask0, 0, 48, 1);
    OrMask(buf, o, before, bits, 13, mask2, 2, 47, 0);
  }

  method StoreMasks14To16(buf: array<Byte>, o: nat, ghost before: seq<Byte>, ghost bits: seq<bool>,
                         mask0: Word64, mask1: Word64, mask2: Word64)
    requires Room(buf, o, before) && |bits| == FRAME_BITS
    requires CarriesMask(bits, 0, mask0) && CarriesMask(bits, 1, mask1) && CarriesMask(bits, 2, mask2)
    requires WrittenUpTo(buf, o, before, bits, 112)
    modifies buf
    ensures WrittenUpTo(buf, o, before, bits, 136)
  {
    AssignMask(buf, o, before, bits, 14, mask1, 1, 47, 7);
    OrMask(buf, o, before, bits, 14, mask0, 0, 47, 6);
    OrMask(buf, o, before, bits, 14, mask2, 2, 46, 5);
    OrMask(buf, o, before, bits, 14, mask1, 1, 46, 4);
    OrMask(buf, o, before, bits, 14, mask0, 0, 46, 3);
    OrMask(buf, o, before, bits, 14, mask2, 2, 45, 2);
    OrMask(buf, o, before, bits, 14, mask1, 1, 45, 1);
    OrMask(buf, o, before, bits, 14, mask0, 0, 45, 0);
    AssignMask(buf, o, before, bits, 15, mask2, 2, 44, 7);
    OrMask(buf, o, before, bits, 15, mask1, 1, 44, 6);
    OrMask(buf, o, before, bits, 15, mask0, 0, 44, 5);
    OrMask(buf, o, before, bits, 15, mask2, 2, 43, 4);
    OrMask(buf, o, before, bits, 15, mask1, 1, 43, 3);
    OrMask(buf, o, before, bits, 15, mask0, 0, 43, 2);
    OrMask(buf, o, before, bits, 15, mask2, 2, 42, 1);
    OrMask(buf, o, before, bits, 15, mask1, 1, 42, 0);
    AssignMask(buf, o, before, bits, 16, mask0, 0, 42, 7);
    OrMask(buf, o, before, bits, 16, mask2, 2, 41, 6);
    OrMask(buf, o, before, bits, 16, mask1, 1, 41, 5);
    OrMask(buf, o, before, bits, 16, mask0, 0, 41, 4);
    OrMask(buf, o, before, bits, 16, mask2, 2, 40, 3);
    OrMask(buf, o, before, bits, 16, mask1, 1, 40, 2);
    OrMask(buf, o, before, bits, 16, mask0, 0, 40, 1);
    OrMask(buf, o, before, bits, 16, mask2, 2, 39, 0);
  }

  method StoreMasks17To19(buf: array<Byte>, o: nat, ghost before: seq<Byte>, ghost bits: seq<bool>,
                         mask0: Word64, mask1: Word64, mask2: Word64)
    requires Room(buf, o, before) && |bits| == FRAME_BITS
    requires CarriesMask(bits, 0, mask0) && CarriesMask(bits, 1, mask1) && CarriesMask(bits, 2, mask2)
    requires WrittenUpTo(buf, o, before, bits, 136)
    modifies buf
    ensures WrittenUpTo(buf, o, before, bits, 160)
  {
    AssignMask(buf, o, before, bits, 17, mask1, 1, 39, 7);
    OrMask(buf, o, before, bits, 17, mask0, 0, 39, 6);
    OrMask(buf, o, before, bits, 17, mask2, 2, 38, 5);
    OrMask(buf, o, before, bits, 17, mask1, 1, 38, 4);
    OrMask(buf, o, before, bits, 17, mask0, 0, 38, 3);
    OrMask(buf, o, before, bits, 17, mask2, 2, 37, 2);
    OrMask(buf, o, before, bits, 17, mask1, 1, 37, 1);
    OrMask(buf, o, before, bits, 17, mask0, 0, 37, 0);
    AssignMask(buf, o, before, bits, 18, mask2, 2, 36, 7);
    OrMask(buf, o, before, bits, 18, mask1, 1, 36, 6);
    OrMask(buf, o, before, bits, 18, mask0, 0, 36, 5);
    OrMask(buf, o, before, bits, 18, mask2, 2, 35, 4);
    OrMask(buf, o, before, bits, 18, mask1, 1, 35, 3);
    OrMask(buf, o, before, bits, 18, mask0, 0, 35, 2);
    OrMask(buf, o, before, bits, 18, mask2, 2, 34, 1);
    OrMask(buf, o, before, bits, 18, mask1, 1, 34, 0);
    AssignMask(buf, o, before, bits, 19, mask0, 0, 34, 7);
    OrMask(buf, o, before, bits, 19, mask2, 2, 33, 6);
    OrMask(buf, o, before, bits, 19, mask1, 1, 33, 5);
    OrMask(buf, o, before, bits, 19, mask0, 0, 33, 4);
    OrMask(buf, o, before, bits, 19, mask2, 2, 32, 3);
    OrMask(buf, o, before, bits, 19, mask1, 1, 32, 2);
    OrMask(buf, o, before, bits, 19, mask0, 0, 32, 1);
    OrMask(buf, o, before, bits, 19, mask2, 2, 31, 0);
  }

  method StoreMasks20To22(buf: array<Byte>, o: nat, ghost before: seq<Byte>, ghost bits: seq<bool>,
                         mask0: Word64, mask1: Word64, mask2: Word64)
    requires Room(buf, o, before) && |bits| == FRAME_BITS
    requires CarriesMask(bits, 0, mask0) && CarriesMask(bits, 1, mask1) && CarriesMask(bits, 2, mask2)
    requires WrittenUpTo(buf, o, before, bits, 160)
    modifies buf
    ensures WrittenUpTo(buf, o, before, bits, 184)
  {
    AssignMask(buf, o, before, bits, 20, mask1, 1, 31, 7);
    OrMask(buf, o, before, bits, 20, mask0, 0, 31, 6);
    OrMask(buf, o, before, bits, 20, mask2, 2, 30, 5);
    OrMask(buf, o, before, bits, 20, mask1, 1, 30, 4);
    OrMask(buf, o, before, bits, 20, mask0, 0, 30, 3);
    OrMask(buf, o, before, bits, 20, mask2, 2, 29, 2);
    OrMask(buf, o, before, bits, 20, mask1, 1, 29, 1);
    OrMask(buf, o, before, bits, 20, mask0, 0, 29, 0);
    AssignMask(buf, o, before, bits, 21, mask2, 2, 28, 7);
    OrMask(buf, o, before, bits, 21, mask1, 1, 28, 6);
    OrMask(buf, o, before, bits, 21, mask0, 0, 28, 5);
    OrMask(buf, o, before, bits, 21, mask2, 2, 27, 4);
    OrMask(buf, o, before, bits, 21, mask1, 1, 27, 3);
    OrMask(buf, o, before, bits, 21, mask0, 0, 27, 2);
    OrMask(buf, o, before, bits, 21, mask2, 2, 26, 1);
    OrMask(buf, o, before, bits, 21, mask1, 1, 26, 0);
    AssignMask(buf, o, before, bits, 22, mask0, 0, 26, 7);
    OrMask(buf, o, before, bits, 22, mask2, 2, 25, 6);
    OrMask(buf, o, before, bits, 22, mask1, 1, 25, 5);
    OrMask(buf, o, before, bits, 22, mask0, 0, 25, 4);
    OrMask(buf, o, before, bits, 22, mask2, 2, 24, 3);
    OrMask(buf, o, before, bits, 22, mask1, 1, 24, 2);
    OrMask(buf, o, before, bits, 22, mask0, 0, 24, 1);
    OrMask(buf, o, before, bits, 22, mask2, 2, 23, 0);
  }

  method StoreMasks23To25(buf: array<Byte>, o: nat, ghost before: seq<Byte>, ghost bits: seq<bool>,
                         mask0: Word64, mask1: Word64, mask2: Word64)
    requires Room(buf, o, before) && |bits| == FRAME_BITS
    requires CarriesMask(bits, 0, mask0) && CarriesMask(bits, 1, mask1) && CarriesMask(bits, 2, mask2)
    requires WrittenUpTo(buf, o, before, bits, 184)
    modifies buf
    ensures WrittenUpTo(buf, o, before, bits, 208)
  {
    AssignMask(buf, o, before, bits, 23, mask1, 1, 23, 7);
    OrMask(buf, o, before, bits, 23, mask0, 0, 23, 6);
    OrMask(buf, o, before, bits, 23, mask2, 2, 22, 5);
    OrMask(buf, o, before, bits, 23, mask1, 1, 22, 4);
    OrMask(buf, o, before, bits, 23, mask0, 0, 22, 3);
    OrMask(buf, o, before, bits, 23, mask2, 2, 21, 2);
    OrMask(buf, o, before, bits, 23, mask1, 1, 21, 1);
    OrMask(buf, o, before, bits, 23, mask0, 0, 21, 0);
    AssignMask(buf, o, before, bits, 24, mask2, 2, 20, 7);
    OrMask(buf, o, before, bits, 24, mask1, 1, 20, 6);
    OrMask(buf, o, before, bits, 24, mask0, 0, 20, 5);
    OrMask(buf, o, before, bits, 24, mask2, 2, 19, 4);
    OrMask(buf, o, before, bits, 24, mask1, 1, 19, 3);
    OrMask(buf, o, before, bits, 24, mask0, 0, 19, 2);
    OrMask(buf, o, before, bits, 24, mask2, 2, 18, 1);
    OrMask(buf, o, before, bits, 24, mask1, 1, 18, 0);
    AssignMask(buf, o, before, bits, 25, mask0, 0, 18, 7);
    OrMask(buf, o, before, bits, 25, mask2, 2, 17, 6);
    OrMask(buf, o, before, bits, 25, mask1, 1, 17, 5);
    OrMask(buf, o, before, bits, 25, mask0, 0, 17, 4);
    OrMask(buf, o, before, bits, 25, mask2, 2, 16, 3);
    OrMask(buf, o, before, bits, 25, mask1, 1, 16, 2);
    OrMask(buf, o, before, bits, 25, mask0, 0, 16, 1);
    OrMask(buf, o, before, bits, 25, mask2, 2, 15, 0);
  }

  method StoreMasks26To28(buf: array<Byte>, o: nat, ghost before: seq<Byte>, ghost bits: seq<bool>,
                         mask0: Word64, mask1: Word64, mask2: Word64)
    requires Room(buf, o, before) && |bits| == FRAME_BITS
    requires CarriesMask(bits, 0, mask0) && CarriesMask(bits, 1, mask1) && CarriesMask(bits, 2, mask2)
    requires WrittenUpTo(buf, o, before, bits, 208)
    modifies buf
    ensures WrittenUpTo(buf, o, before, bits, 232)
  {
    AssignMask(buf, o, before, bits, 26, mask1, 1, 15, 7);
    OrMask(buf, o, before, bits, 26, mask0, 0, 15, 6);
    OrMask(buf, o, before, bits, 26, mask2, 2, 14, 5);
    OrMask(buf, o, before, bits, 26, mask1, 1, 14, 4);
    OrMask(buf, o, before, bits, 26, mask0, 0, 14, 3);
    OrMask(buf, o, before, bits, 26, mask2, 2, 13, 2);
    OrMask(buf, o, before, bits, 26, mask1, 1, 13, 1);
    OrMask(buf, o, before, bits, 26, mask0, 0, 13, 0);
    AssignMask(buf, o, before, bits, 27, mask2, 2, 12, 7);
    OrMask(buf, o, before, bits, 27, mask1, 1, 12, 6);
    OrMask(buf, o, before, bits, 27, mask0, 0, 12, 5);
    OrMask(buf, o, before, bits, 27, mask2, 2, 11, 4);
    OrMask(buf, o, before, bits, 27, mask1, 1, 11, 3);
    OrMask(buf, o, before, bits, 27, mask0, 0, 11, 2);
    OrMask(buf, o, before, bits, 27, mask2, 2, 10, 1);
    OrMask(buf, o, before, bits, 27, mask1, 1, 10, 0);
    AssignMask(buf, o, before, bits, 28, mask0, 0, 10, 7);
    OrMask(buf, o, before, bits, 28, mask2, 2, 9, 6);
    OrMask(buf, o, before, bits, 28, mask1, 1, 9, 5);
    OrMask(buf, o, before, bits, 28, mask0, 0, 9, 4);
    OrMask(buf, o, before, bits, 28, mask2, 2, 8, 3);
    OrMask(buf, o, before, bits, 28, mask1, 1, 8, 2);
    OrMask(buf, o, before, bits, 28, mask0, 0, 8, 1);
    OrMask(buf, o, before, bits, 28, mask2, 2, 7, 0);
  }

  method StoreMasks29To31(buf: array<Byte>, o: nat, ghost before: seq<Byte>, ghost bits: seq<bool>,
                         mask0: Word64, mask1: Word64, mask2: Word64)
    requires Room(buf, o, before) && |bits| == FRAME_BITS
    requires CarriesMask(bits, 0, mask0) && CarriesMask(bits, 1, mask1) && CarriesMask(bits, 2, mask2)
    requires WrittenUpTo(buf, o, before, bits, 232)
    modifies buf
    ensures WrittenUpTo(buf, o, before, bits, 255)
  {
    AssignMask(buf, o, before, bits, 29, mask1, 1, 7, 7);
    OrMask(buf, o, before, bits, 29, mask0, 0, 7, 6);
    OrMask(buf, o, before, bits, 29, mask2, 2, 6, 5);
    OrMask(buf, o, before, bits, 29, mask1, 1, 6, 4);
    OrMask(buf, o, before, bits, 29, mask0, 0, 6, 3);
    OrMask(buf, o, before, bits, 29, mask2, 2, 5, 2);
    OrMask(buf, o, before, bits, 29, mask1, 1, 5, 1);
    OrMask(buf, o, before, bits, 29, mask0, 0, 5, 0);
    AssignMask(buf, o, before, bits, 30, mask2, 2, 4, 7);
    OrMask(buf, o, before, bits, 30, mask1, 1, 4, 6);
    OrMask(buf, o, before, bits, 30, mask0, 0, 4, 5);
    OrMask(buf, o, before, bits, 30, mask2, 2, 3, 4);
    OrMask(buf, o, before, bits, 30, mask1, 1, 3, 3);
    OrMask(buf, o, before, bits, 30, mask0, 0, 3, 2);
    OrMask(buf, o, before, bits, 30, mask2, 2, 2, 1);
    OrMask(buf, o, before, bits, 30, mask1, 1, 2, 0);
    AssignMask(buf, o, before, bits, 31, mask0, 0, 2, 7);
    OrMask(buf, o, before, bits, 31, mask2, 2, 1, 6);
    OrMask(buf, o, before, bits, 31, mask1, 1, 1, 5);
    OrMask(buf, o, before, bits, 31, mask0, 0, 1, 4);
    OrMask(buf, o, before, bits, 31, mask2, 2, 0, 3);
    OrMask(buf, o, before, bits, 31, mask1, 1, 0, 2);
    OrMask(buf, o, before, bits, 31, mask0, 0, 0, 1);
  }

  method StoreMasks(buf: array<Byte>, o: nat, ghost before: seq<Byte>, ghost bits: seq<bool>,
                    mask0: Word64, mask1: Word64, mask2: Word64)
    requires Room(buf, o, before) && |bits| == FRAME_BITS
    requires CarriesMask(bits, 0, mask0) && CarriesMask(bits, 1, mask1) && CarriesMask(bits, 2, mask2)
    requires WrittenUpTo(buf, o, before, bits, 64)
    modifies buf
    ensures WrittenUpTo(buf, o, before, bits, 255)
  {
    StoreMasks8To10(buf, o, before, bits, mask0, mask1, mask2);
    StoreMasks11To13(buf, o, before, bits, mask0, mask1, mask2);
    StoreMasks14To16(buf, o, before, bits, mask0, mask1, mask2);
    StoreMasks17To19(buf, o, before, bits, mask0, mask1, mask2);
    StoreMasks20To22(buf, o, before, bits, mask0, mask1, mask2);
    StoreMasks23To25(buf, o, before, bits, mask0, mask1, mask2);
    StoreMasks26To28(buf, o, before, bits, mask0, mask1, mask2);
    StoreMasks29To31(buf, o, before, bits, mask0, mask1, mask2);
  }

  method StoreDiscriminators(buf: array<Byte>, o: nat, ghost before: seq<Byte>, a: Asic)
    requires Room(buf, o, before)
    requires WrittenUpTo(buf, o, before, Stream(a), 255)
    modifies buf
    ensures WrittenUpTo(buf, o, before, Stream(a), 262)
  {
    OrBit(buf, o, before, a, 31, RS_OR_DISCRI, 0, 0);
    AssignBit(buf, o, before, a, 32, DISCRI1_PP, 0, 7);
    OrBit(buf, o, before, a, 32, DISCRI2_PP, 0, 6);
    OrBit(buf, o, before, a, 32, DISCRI0_PP, 0, 5);
    OrBit(buf, o, before, a, 32, ENPPOTAQ, 0, 4);
    OrBit(buf, o, before, a, 32, EN_OTAQ, 0, 3);
    OrBit(buf, o, before, a, 32, ENPPDAC4BIT, 0, 2);
  }

  /** The `n` bits of gain `c` from bit `lo` up lie at stream bits `p .. p + n`. */
  lemma StreamOfGain(a: Asic, c: nat, lo: nat, n: nat, p: nat)
    requires c < 64 && lo + n <= 4 && p == 262 + 4 * (63 - c) + 4 - lo - n
    ensures forall q: nat | p <= q < p + n :: Stream(a)[q] == Bit(a.b0b3[c], lo + p + n - 1 - q)
  {
    forall q: nat | p <= q < p + n
      ensures Stream(a)[q] == Bit(a.b0b3[c], lo + p + n - 1 - q)
    {
      assert 63 - (q - 262) / 4 == c && 3 - (q - 262) % 4 == lo + p + n - 1 - q;
      StreamOfSlot(a, q);
    }
  }

  /** `ConfigMR[at] |= ((B0B3Gain[c] >> lo) & ((1 << n) - 1)) << d` */
  method OrGain(buf: array<Byte>, o: nat, ghost before: seq<Byte>, a: Asic, at: nat, c: nat, lo: nat, n: nat, d: nat)
    requires Room(buf, o, before) && at < FRAME_SIZE && c < 64 && 1 <= n && lo + n <= 4 && d + n < 8
    requires 8 * at + 8 - d == 262 + 4 * (63 - c) + 4 - lo
    requires WrittenUpTo(buf, o, before, Stream(a), 8 * at + 8 - d - n)
    modifies buf
    ensures WrittenUpTo(buf, o, before, Stream(a), 8 * at + 8 - d)
  {
    StreamOfGain(a, c, lo, n, 8 * at + 8 - d - n);
    OrBits(buf, o, before, Stream(a), at, a.b0b3[c], lo, n, d);
  }

  /** `ConfigMR[at] = (B0B3Gain[c] & 0x03) << 6` */
  method AssignGain(buf: array<Byte>, o: nat, ghost before: seq<Byte>, a: Asic, at: nat, c: nat)
    requires Room(buf, o, before) && at < FRAME_SIZE && c < 64
    requires 8 * at == 262 + 4 * (63 - c) + 2
    requires WrittenUpTo(buf, o, before, Stream(a), 8 * at)
    modifies buf
    ensures WrittenUpTo(buf, o, before, Stream(a), 8 * at + 2)
  {
    StreamOfGain(a, c, 0, 2, 8 * at);
    AssignBits(buf, o, before, Stream(a), at, a.b0b3[c], 0, 2, 6);
  }

  /** The body of the loop over the gains: two bits of channel `c + 1`, four of `c` and two of `c - 1`. */
  method StoreGainByte(buf: array<Byte>, o: nat, ghost before: seq<Byte>, a: Asic, at: nat, c: nat)
    requires Room(buf, o, before) && 33 <= at < 64 && 1 <= c < 63 && 2 * at + c == 128
    requires WrittenUpTo(buf, o, before, Stream(a), 8 * at)
    modifies buf
    ensures WrittenUpTo(buf, o, before, Stream(a), 8 * at + 8)
  {
    AssignGain(buf, o, before, a, at, c + 1);
    assert WrittenUpTo(buf, o, before, Stream(a), 8 * at + 2);
    OrGain(buf, o, before, a, at, c, 0, 4, 2);
    assert WrittenUpTo(buf, o, before, Stream(a), 8 * at + 6);
    OrGain(buf, o, before, a, at, c - 1, 2, 2, 0);
  }

  /** The gains: channel 63 is split over bytes 32 and 33, and so on down to channel 1 over 63 and 64. */
  method StoreGains(buf: array<Byte>, o: nat, ghost before: seq<Byte>, a: Asic)
    requires Room(buf, o, before)
    requires WrittenUpTo(buf, o, before, Stream(a), 262)
    modifies buf
    ensures WrittenUpTo(buf, o, before, Stream(a), 518)
  {
    OrGain(buf, o, before, a, 32, 63, 2, 2, 0);
    var ti := 0;
    while ti < 31
      invariant 0 <= ti <= 31
      invariant WrittenUpTo(buf, o, before, Stream(a), 8 * (33 + ti))
    {
      StoreGainByte(buf, o, before, a, 33 + ti, (31 - ti) * 2);
      ti := ti + 1;
    }
    AssignGain(buf, o, before, a, 64, 1);
    OrGain(buf, o, before, a, 64, 0, 0, 4, 2);
  }

  method StoreHighGainSwitch(buf: array<Byte>, o: nat, ghost before: seq<Byte>, a: Asic)
    requires Room(buf, o, before)
    requires WrittenUpTo(buf, o, before, Stream(a), 518)
    modifies buf
    ensures WrittenUpTo(buf, o, before, Stream(a), 520)
  {
    OrBit(buf, o, before, a, 64, SWHG, 0, 1);
    OrBit(buf, o, before, a, 64, SWHG, 1, 0);
  }

  method StoreShaperByte(buf: array<Byte>, o: nat, ghost before: seq<Byte>, a: Asic)
    requires Room(buf, o, before)
    requires WrittenUpTo(buf, o, before, Stream(a), 520)
    modifies buf
    ensures WrittenUpTo(buf, o, before, Stream(a), 528)
  {
    AssignBit(buf, o, before, a, 65, VALIDSH, 0, 7);
    OrBit(buf, o, before, a, 65, PWRONWIDLAR, 0, 6);
    OrBit(buf, o, before, a, 65, SWLG, 0, 5);
    OrBit(buf, o, before, a, 65, SWLG, 1, 4);
    OrBit(buf, o, before, a, 65, PWRONSHLG, 0, 3);
    OrBit(buf, o, before, a, 65, PWRONSHHG, 0, 2);
    OrBit(buf, o, before, a, 65, ENGBST, 0, 1);
    OrBit(buf, o, before, a, 65, PWRONPA, 0, 0);
  }

  method StoreShapers(buf: array<Byte>, o: nat, ghost before: seq<Byte>, a: Asic)
    requires Room(buf, o, before)
    requires WrittenUpTo(buf, o, before, Stream(a), 518)
    modifies buf
    ensures WrittenUpTo(buf, o, before, Stream(a), 528)
  {
    StoreHighGainSwitch(buf, o, before, a);
    StoreShaperByte(buf, o, before, a);
  }

  /** `ConfigMR[at] = (cTest >> lo) & 0xFF` */
  method AssignTest(buf: array<Byte>, o: nat, ghost before: seq<Byte>, a: Asic, at: nat, lo: nat)
    requires Room(buf, o, before) && 66 <= at < FRAME_SIZE && lo == 8 * (73 - at)
    requires WrittenUpTo(buf, o, before, Stream(a), 8 * at)
    modifies buf
    ensures WrittenUpTo(buf, o, before, Stream(a), 8 * at + 8)
  {
    forall p: nat | 8 * at <= p < 8 * at + 8
      ensures Stream(a)[p] == Bit(a.ctest, lo + 8 * at + 7 - p)
    {
      StreamOfSlot(a, p);
    }
    AssignBits(buf, o, before, Stream(a), at, a.ctest, lo, 8, 0);
  }

  method StoreTest(buf: array<Byte>, o: nat, ghost before: seq<Byte>, a: Asic)
    requires Room(buf, o, before)
    requires WrittenUpTo(buf, o, before, Stream(a), 528)
    modifies buf
    ensures WrittenUpTo(buf, o, before, Stream(a), FRAME_BITS)
  {
    AssignTest(buf, o, before, a, 66, 56);
    AssignTest(buf, o, before, a, 67, 48);
    AssignTest(buf, o, before, a, 68, 40);
    AssignTest(buf, o, before, a, 69, 32);
    AssignTest(buf, o, before, a, 70, 24);
    AssignTest(buf, o, before, a, 71, 16);
    AssignTest(buf, o, before, a, 72, 8);
    AssignTest(buf, o, before, a, 73, 0);
  }

  /**
   `storeMicroRocConfiguration`: fills the 74 bytes from `o` on with the frame of `a`, whatever they
   held, and touches nothing else of the buffer.
   */
  method StoreMicroRocConfiguration(a: Asic, buf: array<Byte>, o: nat)
    requires o + FRAME_SIZE <= buf.Length
    modifies buf
    ensures buf[..] == old(buf[..o]) + Frame(a) + old(buf[o + FRAME_SIZE..])
  {
    ghost var before := buf[..];
    assert WrittenUpTo(buf, o, before, Stream(a), 0);
    StoreReadoutSwitches(buf, o, before, a);
    StoreThreshold2(buf, o, before, a);
    StoreThreshold1(buf, o, before, a);
    StoreThreshold0(buf, o, before, a);
    StoreBiasAndHeader(buf, o, before, a);
    StoreSpill(buf, o, before, a);
    MaskCarried(a, 0);
    MaskCarried(a, 1);
    MaskCarried(a, 2);
    StoreMasks(buf, o, before, Stream(a), a.mask0, a.mask1, a.mask2);
    StoreDiscriminators(buf, o, before, a);
    StoreGains(buf, o, before, a);
    StoreShapers(buf, o, before, a);
    StoreTest(buf, o, before, a);
    AllWritten(buf, o, before, Stream(a));
  }

  lemma MaskCarried(a: Asic, j: nat)
    requires j < 3
    ensures CarriesMask(Stream(a), j, a.Mask(j))
  {
    forall k: nat | k < 64 && !(j == 2 && k == 63)
      ensures Stream(a)[63 + 3 * (63 - k) + (2 - j)] == Bit(a.Mask(j), k)
    {
      MaskAtItsPlace(j, k);
      assert PlaceOfMask(j).Position(k) == 63 + 3 * (63 - k) + (2 - j);
      StreamOfSlot(a, 63 + 3 * (63 - k) + (2 - j));
    }
  }

  // ---------- the layout is a bijection ----------

  /** What bit `k` of an integer field is stored as. */
  function FieldSlot(f: Field, k: nat): Slot {
    if Complemented(f) then Inverted(f, k) else Of(f, k)
  }

  /** Every bit of every field lies where its place says, but for bit 7 of the header. */
  lemma FieldAtItsPlace(f: Field, k: nat)
    requires k < PlaceOf(f).width
    ensures 0 <= PlaceOf(f).Position(k) < FRAME_BITS && PlaceOf(f).Position(k) != SPILL
    ensures SlotAt(PlaceOf(f).Position(k)) == if f == HEADER && k == 7 then Unused else FieldSlot(f, k)
  {
    EveryField(f);
    if HeadSwitch(f) {
      HeadSwitchAtItsPlace(f);
    } else if TailSwitch(f) {
      TailSwitchAtItsPlace(f);
    } else if Complemented(f) {
      ThresholdAtItsPlace(f, k);
    } else {
      NumberAtItsPlace(f, k);
    }
  }

  predicate Number(f: Field) {
    match f
    case HEADER => true case SWHG => true case SWLG => true
    case _ => false
  }

  lemma EveryField(f: Field)
    requires PlaceOf(f).width > 0
    ensures HeadSwitch(f) || TailSwitch(f) || Complemented(f) || Number(f)
  {
  }

  lemma NumberAtItsPlace(f: Field, k: nat)
    requires Number(f)
    requires k < PlaceOf(f).width
    ensures 0 <= PlaceOf(f).Position(k) < FRAME_BITS && PlaceOf(f).Position(k) != SPILL
    ensures SlotAt(PlaceOf(f).Position(k)) == if f == HEADER && k == 7 then Unused else Of(f, k)
    ensures !Complemented(f)
  {
  }

  lemma ThresholdAtItsPlace(f: Field, k: nat)
    requires Complemented(f)
    requires k < PlaceOf(f).width
    ensures 0 <= PlaceOf(f).Position(k) < FRAME_BITS && PlaceOf(f).Position(k) != SPILL
    ensures SlotAt(PlaceOf(f).Position(k)) == Inverted(f, k)
  {
  }

  /** The switches before the masks. */
  predicate HeadSwitch(f: Field) {
    match f
    case ENOCDOUT1B => true case ENOCDOUT2B => true case ENOCTRANSMITON1B => true case ENOCTRANSMITON2B => true
    case ENOCCHIPSATB => true case SELSTARTREADOUT => true case SELENDREADOUT => true case SELRAZ0 => true
    case SELRAZ1 => true case CKMUX => true case SCON => true case RAZCHNEXTVAL => true
    case RAZCHNINTVAL => true case TRIGEXTVAL => true case DISCOROR => true case ENTRIGOUT => true
    case TRIG0B => true case TRIG1B => true case TRIG2B => true case PWRONDAC => true case ENPPDAC => true
    case PWRONBG => true case ENPPBANDGAP => true
    case _ => false
  }

  /** The switches after the masks. */
  predicate TailSwitch(f: Field) {
    match f
    case RS_OR_DISCRI => true case DISCRI1_PP => true case DISCRI2_PP => true case DISCRI0_PP => true
    case ENPPOTAQ => true case EN_OTAQ => true case ENPPDAC4BIT => true case VALIDSH => true
    case PWRONWIDLAR => true case PWRONSHLG => true case PWRONSHHG => true case ENGBST => true
    case PWRONPA => true
    case _ => false
  }

  lemma HeadSwitchAtItsPlace(f: Field)
    requires HeadSwitch(f)
    ensures !Complemented(f) && f != HEADER
    ensures PlaceOf(f).width == 1 && PlaceOf(f).step == 1 && 0 <= PlaceOf(f).low < 55 && SlotAt(PlaceOf(f).low) == Of(f, 0)
  {
  }

  lemma TailSwitchAtItsPlace(f: Field)
    requires TailSwitch(f)
    ensures !Complemented(f) && f != HEADER
    ensures PlaceOf(f).width == 1 && PlaceOf(f).step == 1 && 255 <= PlaceOf(f).low < FRAME_BITS && SlotAt(PlaceOf(f).low) == Of(f, 0)
  {
  }

  lemma MaskAtItsPlace(j: nat, k: nat)
    requires j < 3 && k < 64
    ensures 63 <= PlaceOfMask(j).Position(k) < 255 && SlotAt(PlaceOfMask(j).Position(k)) == OfMask(j, k)
    ensures PlaceOfMask(j).Position(k) == SPILL <==> j == 2 && k == 63
  {
    var p := PlaceOfMask(j).Position(k);
    assert p - 63 == 3 * (63 - k) + (2 - j);
  }

  lemma GainAtItsPlace(c: nat, k: nat)
    requires c < 64 && k < 4
    ensures 262 <= PlaceOfGain(c).Position(k) < 518 && SlotAt(PlaceOfGain(c).Position(k)) == OfGain(c, k)
  {
    var p := PlaceOfGain(c).Position(k);
    assert p - 262 == 4 * (63 - c) + (3 - k);
  }

  function PositionOf(s: Slot): int {
    match s
    case Unused => -1
    case Of(f, k) => PlaceOf(f).Position(k)
    case Inverted(f, k) => PlaceOf(f).Position(k)
    case OfMask(j, k) => PlaceOfMask(j).Position(k)
    case OfGain(c, k) => PlaceOfGain(c).Position(k)
    case OfTest(k) => PLACE_OF_TEST.Position(k)
  }

  /** Every used stream bit is the place of what it carries, so no two fields share a bit. */
  lemma SlotLiesThere(p: nat)
    requires p < FRAME_BITS
    ensures SlotAt(p) == Unused <==> p == 7 || p == 8 || p == 62
    ensures SlotAt(p) != Unused ==> PositionOf(SlotAt(p)) == p
  {
    if p < 255 {
      SlotBeforeLiesThere(p);
    } else {
      SlotAfterLiesThere(p);
    }
  }

  /** The part up to the masks. */
  lemma SlotBeforeLiesThere(p: nat)
    requires p < 255
    ensures SlotAt(p) == Unused <==> p == 7 || p == 8 || p == 62
    ensures SlotAt(p) != Unused ==> PositionOf(SlotAt(p)) == p
  {
    if p < 21 {
      ReadoutLiesThere(p);
    } else if 51 <= p < 55 {
      BiasLiesThere(p);
    } else if 63 <= p {
      assert p - 63 == 3 * ((p - 63) / 3) + (p - 63) % 3;
    }
  }

  /** The part after them. */
  lemma SlotAfterLiesThere(p: nat)
    requires 255 <= p < FRAME_BITS
    ensures SlotAt(p) != Unused && PositionOf(SlotAt(p)) == p
  {
    if p < 258 {
      DiscriminatorsLieThere(p);
    } else if p < 262 {
      DiscriminatorsLieThereEnd(p);
    } else if p < 518 {
      assert p - 262 == 4 * ((p - 262) / 4) + (p - 262) % 4;
    } else if 520 <= p < 522 || p == 524 {
      ShapersLieThere(p);
    } else if 525 <= p < 528 {
      ShapersLieThereEnd(p);
    }
  }

  lemma ReadoutLiesThere(p: nat)
    requires p < 21
    ensures ReadoutSlot(p) == Unused <==> p == 7 || p == 8
    ensures ReadoutSlot(p) != Unused ==> ReadoutSlot(p).Of? && ReadoutSlot(p).k == 0 &&
                                         PlaceOf(ReadoutSlot(p).f) == Place(p, 1, 1)
  {
  }

  lemma BiasLiesThere(p: nat)
    requires 51 <= p < 55
    ensures BiasSlot(p).Of? && BiasSlot(p).k == 0 && PlaceOf(BiasSlot(p).f) == Place(p, 1, 1)
  {
  }

  lemma DiscriminatorsLieThere(p: nat)
    requires 255 <= p < 258
    ensures DiscriminatorSlot(p).Of? && DiscriminatorSlot(p).k == 0 && PlaceOf(DiscriminatorSlot(p).f) == Place(p, 1, 1)
  {
  }

  lemma DiscriminatorsLieThereEnd(p: nat)
    requires 258 <= p < 262
    ensures DiscriminatorSlot(p).Of? && DiscriminatorSlot(p).k == 0 && PlaceOf(DiscriminatorSlot(p).f) == Place(p, 1, 1)
  {
  }

  lemma ShapersLieThere(p: nat)
    requires 520 <= p < 522 || p == 524
    ensures ShaperSlot(p).Of? && ShaperSlot(p).k == 0 && PlaceOf(ShaperSlot(p).f) == Place(p, 1, 1)
  {
  }

  lemma ShapersLieThereEnd(p: nat)
    requires 525 <= p < 528
    ensures ShaperSlot(p).Of? && ShaperSlot(p).k == 0 && PlaceOf(ShaperSlot(p).f) == Place(p, 1, 1)
  {
  }

  // ---------- round trip ----------

  lemma FrameBit(a: Asic, p: nat)
    requires p < FRAME_BITS
    ensures StreamBit(Frame(a), p) == Produced(a, p)
  {
    PackBit(Stream(a), p);
  }

  /** What the place of an integer field is to hold. */
  function Sent(a: Asic, f: Field): int {
    if Complemented(f) then Not(a.Int(f)) else a.Int(f)
  }

  /** A stream bit is what its slot says, but for the one that the header spills into. */
  lemma SlotBit(a: Asic, p: nat, s: Slot)
    requires p < FRAME_BITS && p != SPILL && SlotAt(p) == s
    ensures StreamBit(Frame(a), p) == Carried(a, s)
  {
    FrameBit(a, p);
  }

  lemma FieldBit(a: Asic, f: Field, k: nat)
    requires k < PlaceOf(f).width && f != HEADER
    ensures 0 <= PlaceOf(f).Position(k) < FRAME_BITS
    ensures StreamBit(Frame(a), PlaceOf(f).Position(k)) == Bit(Sent(a, f), k)
  {
    FieldAtItsPlace(f, k);
    SlotBit(a, PlaceOf(f).Position(k), FieldSlot(f, k));
  }

  lemma MaskBit(a: Asic, j: nat, k: nat)
    requires j < 3 && k < 64
    ensures 0 <= PlaceOfMask(j).Position(k) < FRAME_BITS
    ensures StreamBit(Frame(a), PlaceOfMask(j).Position(k)) ==
            (Bit(a.Mask(j), k) || (j == 2 && k == 63 && Bit(a.Int(HEADER), 7)))
  {
    MaskAtItsPlace(j, k);
    FrameBit(a, PlaceOfMask(j).Position(k));
  }

  /** Every field but the header is read back, complemented if it is a threshold. */
  lemma FieldRoundTrip(a: Asic, f: Field)
    requires f != HEADER
    ensures PlaceOf(f).Within(FRAME_BITS)
    ensures Read(Frame(a), PlaceOf(f)) == Sent(a, f) % Pow2(PlaceOf(f).width)
  {
    var place := PlaceOf(f);
    forall k: nat | k < place.width
      ensures 0 <= place.Position(k) < FRAME_BITS
      ensures StreamBit(Frame(a), place.Position(k)) == Bit(Sent(a, f), k)
    {
      FieldBit(a, f, k);
    }
    GatherBits(Frame(a), place.low, place.step, place.width, Sent(a, f));
  }

  /** A threshold is recovered by complementing what is read. */
  lemma ThresholdRoundTrip(a: Asic, f: Field)
    requires Complemented(f)
    ensures PlaceOf(f).Within(FRAME_BITS)
    ensures Read(Frame(a), PlaceOf(f)) == 1023 - a.Int(f) % 1024
  {
    FieldRoundTrip(a, f);
    ThresholdWidth(f);
    ComplementMod(a.Int(f), 10);
  }

  lemma ThresholdWidth(f: Field)
    requires Complemented(f)
    ensures PlaceOf(f).width == 10 && f != HEADER
  {
  }

  lemma ComplementMod(x: int, n: nat)
    requires n == 10
    ensures Not(x) % Pow2(n) == 1023 - x % 1024
  {
    ByteRange();
    Pow2Add(8, 2);
    DivUnique(Not(x), 1024, -(x / 1024) - 1, 1023 - x % 1024);
  }

  /** The header is always read back modulo 128; so it is recovered exactly when its bit 7 is clear. */
  lemma HeaderRoundTrip(a: Asic)
    ensures PlaceOf(HEADER).Within(FRAME_BITS)
    ensures Read(Frame(a), PlaceOf(HEADER)) == a.Int(HEADER) % 128
    ensures Read(Frame(a), PlaceOf(HEADER)) == a.Int(HEADER) % 256 <==> !Bit(a.Int(HEADER), 7)
  {
    HeaderIsRead(a);
    HeaderTopBit(a.Int(HEADER));
  }

  lemma HeaderIsRead(a: Asic)
    ensures PlaceOf(HEADER).Within(FRAME_BITS)
    ensures Read(Frame(a), PlaceOf(HEADER)) == a.Int(HEADER) % 128
  {
    var w, place := a.Int(HEADER) % 128, PlaceOf(HEADER);
    forall k: nat | k < place.width
      ensures 0 <= place.Position(k) < FRAME_BITS && StreamBit(Frame(a), place.Position(k)) == Bit(w, k)
    {
      HeaderBit(a, k);
    }
    assert Pow2(8) == 256;
    GatherNumber(Frame(a), place, w);
  }

  lemma HeaderBit(a: Asic, k: nat)
    requires k < PlaceOf(HEADER).width
    ensures 0 <= PlaceOf(HEADER).Position(k) < FRAME_BITS
    ensures StreamBit(Frame(a), PlaceOf(HEADER).Position(k)) == Bit(a.Int(HEADER) % 128, k)
  {
    NumberAtItsPlace(HEADER, k);
    SlotBit(a, PlaceOf(HEADER).Position(k), if k == 7 then Unused else Of(HEADER, k));
    assert Pow2(7) == 128;
    ModBit(a.Int(HEADER), 7, k);
  }

  lemma HeaderTopBit(h: int)
    ensures h % 128 == h % 256 <==> !Bit(h, 7)
  {
    assert Pow2(7) == 128;
    ShiftRightBit(h, 7, 0);
    assert h % 256 == 128 * ((h / 128) % 2) + h % 128 by {
      DivUnique(h, 256, h / 128 / 2, 128 * ((h / 128) % 2) + h % 128);
    }
  }

  /** Masks 0 and 1 are read back; mask 2 is too, exactly when the header does not spill into it. */
  lemma MaskRoundTrip(a: Asic, j: nat)
    requires j < 3
    ensures PlaceOfMask(j).Within(FRAME_BITS)
    ensures j < 2 ==> Read(Frame(a), PlaceOfMask(j)) == a.Mask(j)
    ensures j == 2 ==> (Read(Frame(a), PlaceOfMask(j)) == a.Mask(j) <==> !Bit(a.Int(HEADER), 7) || Bit(a.mask2, 63))
  {
    var place := PlaceOfMask(j);
    forall k: nat | k < 64
      ensures 0 <= place.Position(k) < FRAME_BITS
      ensures StreamBit(Frame(a), place.Position(k)) == (Bit(a.Mask(j), k) || (j == 2 && k == 63 && Bit(a.Int(HEADER), 7)))
    {
      MaskBit(a, j, k);
    }
    WordRange();
    if j < 2 || !Bit(a.Int(HEADER), 7) || Bit(a.mask2, 63) {
      GatherNumber(Frame(a), place, a.Mask(j));
    } else if Read(Frame(a), place) == a.mask2 {
      GatherBit(Frame(a), place, 63);
    }
  }

  lemma GainRoundTrip(a: Asic, c: nat)
    requires c < 64
    ensures PlaceOfGain(c).Within(FRAME_BITS)
    ensures Read(Frame(a), PlaceOfGain(c)) == a.b0b3[c] % 16
  {
    var place := PlaceOfGain(c);
    forall k: nat | k < 4
      ensures 0 <= place.Position(k) < FRAME_BITS
      ensures StreamBit(Frame(a), place.Position(k)) == Bit(a.b0b3[c], k)
    {
      GainAtItsPlace(c, k);
      FrameBit(a, place.Position(k));
    }
    GatherBits(Frame(a), place.low, place.step, 4, a.b0b3[c]);
    assert Pow2(4) == 16;
  }

  lemma TestRoundTrip(a: Asic)
    ensures PLACE_OF_TEST.Within(FRAME_BITS)
    ensures Read(Frame(a), PLACE_OF_TEST) == a.ctest
  {
    forall k: nat | k < 64
      ensures 0 <= PLACE_OF_TEST.Position(k) < FRAME_BITS
      ensures StreamBit(Frame(a), PLACE_OF_TEST.Position(k)) == Bit(a.ctest, k)
    {
      FrameBit(a, PLACE_OF_TEST.Position(k));
    }
    WordRange();
    GatherNumber(Frame(a), PLACE_OF_TEST, a.ctest);
  }

  // ---------- the same in numbers ----------

  /** The switches of byte 0. */
  lemma SwitchByte0(a: Asic)
    ensures StreamBit(Frame(a), 0) == Bit(a.Int(ENOCDOUT1B), 0)
    ensures StreamBit(Frame(a), 1) == Bit(a.Int(ENOCDOUT2B), 0)
    ensures StreamBit(Frame(a), 2) == Bit(a.Int(ENOCTRANSMITON1B), 0)
    ensures StreamBit(Frame(a), 3) == Bit(a.Int(ENOCTRANSMITON2B), 0)
    ensures StreamBit(Frame(a), 4) == Bit(a.Int(ENOCCHIPSATB), 0)
    ensures StreamBit(Frame(a), 5) == Bit(a.Int(SELSTARTREADOUT), 0)
    ensures StreamBit(Frame(a), 6) == Bit(a.Int(SELENDREADOUT), 0)
  {
    FrameBit(a, 0);
    FrameBit(a, 1);
    FrameBit(a, 2);
    FrameBit(a, 3);
    FrameBit(a, 4);
    FrameBit(a, 5);
    FrameBit(a, 6);
  }

  /** The switches of byte 1. */
  lemma SwitchByte1High(a: Asic)
    ensures StreamBit(Frame(a), 9) == Bit(a.Int(SELRAZ0), 0)
    ensures StreamBit(Frame(a), 10) == Bit(a.Int(SELRAZ1), 0)
    ensures StreamBit(Frame(a), 11) == Bit(a.Int(CKMUX), 0)
    ensures StreamBit(Frame(a), 12) == Bit(a.Int(SCON), 0)
  {
    FrameBit(a, 9);
    FrameBit(a, 10);
    FrameBit(a, 11);
    FrameBit(a, 12);
  }

  /** And its lower half. */
  lemma SwitchByte1Low(a: Asic)
    ensures StreamBit(Frame(a), 13) == Bit(a.Int(RAZCHNEXTVAL), 0)
    ensures StreamBit(Frame(a), 14) == Bit(a.Int(RAZCHNINTVAL), 0)
    ensures StreamBit(Frame(a), 15) == Bit(a.Int(TRIGEXTVAL), 0)
  {
    FrameBit(a, 13);
    FrameBit(a, 14);
    FrameBit(a, 15);
  }

  /** The thresholds in complement, the low header bits and the two numbers of the shapers, bit by bit. */
  lemma ThresholdBits(a: Asic, k: nat)
    ensures k < 10 ==> StreamBit(Frame(a), 21 + k) == !Bit(a.Int(BB2), k)
    ensures k < 10 ==> StreamBit(Frame(a), 31 + k) == !Bit(a.Int(BB1), k)
    ensures k < 10 ==> StreamBit(Frame(a), 41 + k) == !Bit(a.Int(BB0), k)
    ensures k < 7 ==> StreamBit(Frame(a), 55 + k) == Bit(a.Int(HEADER), k)
    ensures k < 2 ==> StreamBit(Frame(a), 518 + k) == Bit(a.Int(SWHG), k) && StreamBit(Frame(a), 522 + k) == Bit(a.Int(SWLG), k)
  {
    if k < 10 {
      FrameBit(a, 21 + k);
      FrameBit(a, 31 + k);
      FrameBit(a, 41 + k);
      NotBit(a.Int(BB2), k);
      NotBit(a.Int(BB1), k);
      NotBit(a.Int(BB0), k);
    }
    if k < 7 {
      FrameBit(a, 55 + k);
    }
    if k < 2 {
      FrameBit(a, 518 + k);
      FrameBit(a, 522 + k);
    }
  }

  /** The switches that share a byte with thresholds. */
  lemma TriggerSwitchBits(a: Asic)
    ensures StreamBit(Frame(a), 16) == Bit(a.Int(DISCOROR), 0)
    ensures StreamBit(Frame(a), 17) == Bit(a.Int(ENTRIGOUT), 0)
    ensures StreamBit(Frame(a), 18) == Bit(a.Int(TRIG0B), 0)
    ensures StreamBit(Frame(a), 19) == Bit(a.Int(TRIG1B), 0)
    ensures StreamBit(Frame(a), 20) == Bit(a.Int(TRIG2B), 0)
  {
    FrameBit(a, 16);
    FrameBit(a, 17);
    FrameBit(a, 18);
    FrameBit(a, 19);
    FrameBit(a, 20);
  }

  /** The switches before the header. */
  lemma BiasSwitchBits(a: Asic)
    ensures StreamBit(Frame(a), 51) == Bit(a.Int(PWRONDAC), 0)
    ensures StreamBit(Frame(a), 52) == Bit(a.Int(ENPPDAC), 0)
    ensures StreamBit(Frame(a), 53) == Bit(a.Int(PWRONBG), 0)
    ensures StreamBit(Frame(a), 54) == Bit(a.Int(ENPPBANDGAP), 0)
  {
    FrameBit(a, 51);
    FrameBit(a, 52);
    FrameBit(a, 53);
    FrameBit(a, 54);
  }

  /** The switches between the masks and the gains. */
  lemma DiscriminatorSwitchBits(a: Asic)
    ensures StreamBit(Frame(a), 255) == Bit(a.Int(RS_OR_DISCRI), 0)
    ensures StreamBit(Frame(a), 256) == Bit(a.Int(DISCRI1_PP), 0)
    ensures StreamBit(Frame(a), 257) == Bit(a.Int(DISCRI2_PP), 0)
    ensures StreamBit(Frame(a), 258) == Bit(a.Int(DISCRI0_PP), 0)
    ensures StreamBit(Frame(a), 259) == Bit(a.Int(ENPPOTAQ), 0)
    ensures StreamBit(Frame(a), 260) == Bit(a.Int(EN_OTAQ), 0)
    ensures StreamBit(Frame(a), 261) == Bit(a.Int(ENPPDAC4BIT), 0)
  {
    FrameBit(a, 255);
    FrameBit(a, 256);
    FrameBit(a, 257);
    FrameBit(a, 258);
    FrameBit(a, 259);
    FrameBit(a, 260);
    FrameBit(a, 261);
  }

  /** The switches after the gains. */
  lemma ShaperSwitchBits(a: Asic)
    ensures StreamBit(Frame(a), 520) == Bit(a.Int(VALIDSH), 0)
    ensures StreamBit(Frame(a), 521) == Bit(a.Int(PWRONWIDLAR), 0)
    ensures StreamBit(Frame(a), 524) == Bit(a.Int(PWRONSHLG), 0)
    ensures StreamBit(Frame(a), 525) == Bit(a.Int(PWRONSHHG), 0)
    ensures StreamBit(Frame(a), 526) == Bit(a.Int(ENGBST), 0)
    ensures StreamBit(Frame(a), 527) == Bit(a.Int(PWRONPA), 0)
  {
    FrameBit(a, 520);
    FrameBit(a, 521);
    FrameBit(a, 524);
    FrameBit(a, 525);
    FrameBit(a, 526);
    FrameBit(a, 527);
  }

  /** The three mask bits of a channel, but for the one that the header spills into. */
  lemma MaskBits(a: Asic, k: nat)
    requires k < 64
    ensures k < 63 ==> StreamBit(Frame(a), 63 + 3 * (63 - k)) == Bit(a.mask2, k)
    ensures k == 63 ==> StreamBit(Frame(a), 63) == (Bit(a.mask2, 63) || Bit(a.Int(HEADER), 7))
    ensures StreamBit(Frame(a), 64 + 3 * (63 - k)) == Bit(a.mask1, k)
    ensures StreamBit(Frame(a), 65 + 3 * (63 - k)) == Bit(a.mask0, k)
  {
    MaskBit(a, 2, k);
    MaskBit(a, 1, k);
    MaskBit(a, 0, k);
    assert PlaceOfMask(2).Position(k) == 63 + 3 * (63 - k);
    assert PlaceOfMask(1).Position(k) == 64 + 3 * (63 - k);
    assert PlaceOfMask(0).Position(k) == 65 + 3 * (63 - k);
  }

  /** The four bits of a gain and the bits of the test word, highest first. */
  lemma GainBits(a: Asic, c: nat, i: nat)
    requires c < 64 && i < 4
    ensures StreamBit(Frame(a), 262 + 4 * (63 - c) + i) == Bit(a.b0b3[c], 3 - i)
  {
    GainAtItsPlace(c, 3 - i);
    FrameBit(a, 262 + 4 * (63 - c) + i);
  }

  lemma TestBits(a: Asic, i: nat)
    requires i < 64
    ensures StreamBit(Frame(a), 528 + i) == Bit(a.ctest, 63 - i)
  {
    FrameBit(a, 528 + i);
  }
}
