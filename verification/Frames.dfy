/**
 Slow-control frames as bit streams.  Bit `p` of a frame is bit `7 - p % 8` of byte `p / 8`, the
 order in which the bits are shifted into a chip.  The statements `frame[at] = ...` and
 `frame[at] |= ...` of the frame builders are the methods `Assign` and `OrInto` below: each moves
 some bits of an integer into one byte of a buffer and says how far the stream is now written.
 */
module Frames {
  import opened Bits

  type Byte = x: int | 0 <= x < 256

  /** Bit `p` of the stream in `frame`. */
  predicate StreamBit(frame: seq<Byte>, p: nat)
    requires p < 8 * |frame|
  {
    Bit(frame[p / 8], 7 - p % 8)
  }

  /** The number with these bits, most significant first. */
  function FromBits(bits: seq<bool>): (x: nat)
    ensures x < Pow2(|bits|)
  {
    if bits == [] then 0
    else 2 * FromBits(bits[..|bits| - 1]) + ToInt(bits[|bits| - 1])
  }

  lemma {:induction false} FromBitsBit(bits: seq<bool>, k: nat)
    requires k < |bits|
    ensures Bit(FromBits(bits), k) == bits[|bits| - 1 - k]
    decreases k
  {
    var x := FromBits(bits);
    assert x / 2 == FromBits(bits[..|bits| - 1]);
    if k == 0 {
    } else {
      FromBitsBit(bits[..|bits| - 1], k - 1);
    }
  }

  function ByteOf(bits: seq<bool>): Byte
    requires |bits| == 8
  {
    ByteRange();
    FromBits(bits)
  }

  /** The bytes whose stream is `bits`. */
  function Pack(bits: seq<bool>): (frame: seq<Byte>)
    ensures |frame| == |bits| / 8
  {
    seq(|bits| / 8, i requires 0 <= i < |bits| / 8 => ByteOf(bits[8 * i..8 * i + 8]))
  }

  lemma PackBit(bits: seq<bool>, p: nat)
    requires |bits| % 8 == 0 && p < |bits|
    ensures StreamBit(Pack(bits), p) == bits[p]
  {
    FromBitsBit(bits[8 * (p / 8)..8 * (p / 8) + 8], 7 - p % 8);
  }

  /** A frame is determined by its stream. */
  lemma SameStream(f: seq<Byte>, g: seq<Byte>)
    requires |f| == |g|
    requires forall p: nat | p < 8 * |f| :: StreamBit(f, p) == StreamBit(g, p)
    ensures f == g
  {
    forall i | 0 <= i < |f|
      ensures f[i] == g[i]
    {
      forall k: nat | k < 8
        ensures Bit(f[i], k) == Bit(g[i], k)
      {
        assert StreamBit(f, 8 * i + 7 - k) == StreamBit(g, 8 * i + 7 - k);
      }
      ByteRange();
      SameBits(f[i], g[i], 8);
    }
  }

  // ---------- reading a field back ----------

  /** Fields run up or down the stream; the masks, interleaved by three, run down in steps of 3. */
  type Step = x: int | x == 1 || x == -1 || x == -3 witness 1

  /** Where a field lies: its lowest bit is stream bit `low`, the next ones follow `step` apart. */
  datatype Place = Place(low: int, step: Step, width: nat) {
    function Position(k: nat): int {
      if step == 1 then low + k else if step == -1 then low - k else low - 3 * k
    }

    predicate Within(n: nat) {
      forall k: nat | k < width :: 0 <= Position(k) < n
    }
  }

  /** The place of the bits above the lowest. */
  lemma RestOfPlace(here: Place, rest: Place, n: nat)
    requires here.width > 0 && here.Within(n) && rest == Place(here.low + here.step, here.step, here.width - 1)
    ensures 0 <= here.low < n && here.Position(0) == here.low && rest.Within(n)
    ensures forall k: nat | k < rest.width :: rest.Position(k) == here.Position(k + 1)
  {
    assert here.Position(0) == here.low;
    assert forall k: nat | k < rest.width :: rest.Position(k) == here.Position(k + 1);
  }

  /** The number whose bits lie at `low`, `low + step`, ... in the stream of `frame`. */
  function Gather(frame: seq<Byte>, low: int, step: Step, width: nat): nat
    requires Place(low, step, width).Within(8 * |frame|)
    decreases width, low
  {
    if width == 0 then 0
    else
      RestOfPlace(Place(low, step, width), Place(low + step, step, width - 1), 8 * |frame|);
      ToInt(StreamBit(frame, low)) + 2 * Gather(frame, low + step, step, width - 1)
  }

  function Read(frame: seq<Byte>, place: Place): nat
    requires place.Within(8 * |frame|)
  {
    Gather(frame, place.low, place.step, place.width)
  }

  /** Reading a place that holds the low bits of `w` gives `w` modulo the field's range. */
  lemma {:induction false} GatherBits(frame: seq<Byte>, low: int, step: Step, width: nat, w: int)
    requires Place(low, step, width).Within(8 * |frame|)
    requires forall k: nat | k < width :: StreamBit(frame, Place(low, step, width).Position(k)) == Bit(w, k)
    ensures Gather(frame, low, step, width) == w % Pow2(width)
    decreases width
  {
    if width == 0 {
    } else {
      RestOfPlace(Place(low, step, width), Place(low + step, step, width - 1), 8 * |frame|);
      forall k: nat | k < width - 1
        ensures StreamBit(frame, Place(low + step, step, width - 1).Position(k)) == Bit(w / 2, k)
      {
        assert Bit(w, k + 1) == Bit(w / 2, k);
      }
      GatherBits(frame, low + step, step, width - 1, w / 2);
      ModHalf(w, Pow2(width - 1));
    }
  }

  /** A number that fits its place is read back whole. */
  lemma GatherNumber(frame: seq<Byte>, place: Place, w: nat)
    requires place.Within(8 * |frame|) && w < Pow2(place.width)
    requires forall k: nat | k < place.width :: StreamBit(frame, place.Position(k)) == Bit(w, k)
    ensures Read(frame, place) == w
  {
    GatherBits(frame, place.low, place.step, place.width, w);
    SmallMod(w, Pow2(place.width));
  }

  /** Bit `k` of what is read is the stream bit it was read from. */
  lemma GatherBit(frame: seq<Byte>, place: Place, k: nat)
    requires place.Within(8 * |frame|) && k < place.width
    ensures Bit(Read(frame, place), k) == StreamBit(frame, place.Position(k))
  {
    GatherBitAt(frame, place.low, place.step, place.width, k);
  }

  lemma {:induction false} GatherBitAt(frame: seq<Byte>, low: int, step: Step, width: nat, k: nat)
    requires Place(low, step, width).Within(8 * |frame|) && k < width
    ensures Bit(Gather(frame, low, step, width), k) == StreamBit(frame, Place(low, step, width).Position(k))
    decreases k, low
  {
    RestOfPlace(Place(low, step, width), Place(low + step, step, width - 1), 8 * |frame|);
    var b, x := StreamBit(frame, low), Gather(frame, low + step, step, width - 1);
    assert Gather(frame, low, step, width) == ToInt(b) + 2 * x;
    LowBit(b, x, k);
    if k > 0 {
      GatherBitAt(frame, low + step, step, width - 1, k - 1);
    }
  }

  lemma LowBit(b: bool, x: nat, k: nat)
    ensures Bit(ToInt(b) + 2 * x, k) == if k == 0 then b else Bit(x, k - 1)
  {
    assert (ToInt(b) + 2 * x) / 2 == x;
  }

  // ---------- writing a frame in place ----------

  /** Bit `p` of the frame that starts at byte `o` of the buffer. */
  ghost predicate BitAt(buf: array<Byte>, o: nat, p: nat)
    requires o + p / 8 < buf.Length
    reads buf
  {
    Bit(buf[o + p / 8], 7 - p % 8)
  }

  /** The bytes of the buffer around a frame of `size` bytes at `o` are those of before. */
  ghost predicate Outside(buf: array<Byte>, o: nat, size: nat, before: seq<Byte>)
    requires o + size <= buf.Length == |before|
    reads buf
  {
    forall i | 0 <= i < buf.Length && !(o <= i < o + size) :: buf[i] == before[i]
  }

  /** The byte `x | (((w >> lo) & ((1 << n) - 1)) << d)`. */
  method OrByte(x: Byte, w: int, lo: nat, n: nat, d: nat) returns (y: Byte)
    requires d + n <= 8
    ensures forall k: nat | k < 8 :: Bit(y, k) == (Bit(x, k) || (d <= k < d + n && Bit(w, lo + k - d)))
  {
    MoveSmall(w, lo, n, d);
    ByteRange();
    var m := Move(w, lo, n, d);
    OrSmall(x, m, 8);
    y := Or(x, m);
    forall k: nat | k < 8
      ensures Bit(y, k) == (Bit(x, k) || (d <= k < d + n && Bit(w, lo + k - d)))
    {
      OrBit(x, m, k);
      MoveBit(w, lo, n, d, k);
    }
  }

  /** `frame[at] |= ((w >> lo) & ((1 << n) - 1)) << d`, for the frame at byte `o` of the buffer. */
  method OrInto(buf: array<Byte>, o: nat, at: nat, w: int, lo: nat, n: nat, d: nat)
    requires o + at < buf.Length && d + n <= 8
    modifies buf
    ensures forall i | 0 <= i < buf.Length && i != o + at :: buf[i] == old(buf[i])
    ensures forall p: nat | o + p / 8 < buf.Length ::
              BitAt(buf, o, p) == (old(BitAt(buf, o, p)) ||
                                  (8 * at + 8 - d - n <= p < 8 * at + 8 - d && Bit(w, lo + 8 * at + 7 - d - p)))
  {
    ghost var x := buf[o + at];
    var y := OrByte(buf[o + at], w, lo, n, d);
    buf[o + at] := y;
    forall p: nat | o + p / 8 < buf.Length
      ensures BitAt(buf, o, p) == (old(BitAt(buf, o, p)) ||
                                  (8 * at + 8 - d - n <= p < 8 * at + 8 - d && Bit(w, lo + 8 * at + 7 - d - p)))
    {
      if p / 8 == at {
        var k := 7 - p % 8;
        assert Bit(y, k) == (Bit(x, k) || (d <= k < d + n && Bit(w, lo + k - d)));
      }
    }
  }

  /** `frame[at] = ((w >> lo) & ((1 << n) - 1)) << d` */
  method Assign(buf: array<Byte>, o: nat, at: nat, w: int, lo: nat, n: nat, d: nat)
    requires o + at < buf.Length && d + n <= 8
    modifies buf
    ensures forall i | 0 <= i < buf.Length && i != o + at :: buf[i] == old(buf[i])
    ensures forall p: nat | o + p / 8 < buf.Length ::
              BitAt(buf, o, p) == if p / 8 == at
                                  then 8 * at + 8 - d - n <= p < 8 * at + 8 - d && Bit(w, lo + 8 * at + 7 - d - p)
                                  else old(BitAt(buf, o, p))
  {
    var y := OrByte(0, w, lo, n, d);
    buf[o + at] := y;
    forall p: nat | o + p / 8 < buf.Length && p / 8 == at
      ensures BitAt(buf, o, p) == (8 * at + 8 - d - n <= p < 8 * at + 8 - d && Bit(w, lo + 8 * at + 7 - d - p))
    {
      ZeroBit(7 - p % 8);
    }
  }

  /** A frame whose bits are all as wanted holds exactly the bytes of that stream. */
  lemma AllWritten(buf: array<Byte>, o: nat, before: seq<Byte>, bits: seq<bool>)
    requires |bits| % 8 == 0 && o + |bits| / 8 <= buf.Length == |before|
    requires Outside(buf, o, |bits| / 8, before)
    requires forall p: nat | p < |bits| :: BitAt(buf, o, p) == bits[p]
    ensures buf[..] == before[..o] + Pack(bits) + before[o + |bits| / 8..]
  {
    var f := buf[o..o + |bits| / 8];
    forall p: nat | p < |bits|
      ensures StreamBit(f, p) == StreamBit(Pack(bits), p)
    {
      PackBit(bits, p);
      assert BitAt(buf, o, p) == bits[p];
    }
    SameStream(f, Pack(bits));
    assert buf[..o] == before[..o];
    assert buf[o + |bits| / 8..] == before[o + |bits| / 8..];
  }
}
