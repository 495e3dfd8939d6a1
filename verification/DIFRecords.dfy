/**
 The record of a DIF as it is written to a file: the DIF id, the number of frames, and 48 slots of
 109 bytes.
 */
module DIFRecords {
  import opened Bits
  import opened Frames
  import opened AsicKeys

  const SLOTS := 48
  const SLOT_SIZE := 109

  datatype DIFDbInfo = DIFDbInfo(id: nat, nbasic: nat, slow: seq<seq<Byte>>)

  function Zeros(n: nat): (z: seq<Byte>)
    ensures |z| == n && forall i | 0 <= i < n :: z[i] == 0
  {
    seq(n, _ => 0)
  }

  function ZeroSlots(n: nat): (z: seq<seq<Byte>>)
    ensures |z| == n && forall i | 0 <= i < n :: z[i] == Zeros(SLOT_SIZE)
  {
    if n == 0 then [] else [Zeros(SLOT_SIZE)] + ZeroSlots(n - 1)
  }

  /** A record of zero bytes. */
  function Blank(): DIFDbInfo {
    DIFDbInfo(0, 0, ZeroSlots(SLOTS))
  }

  predicate SizedEntry(buffer: seq<Byte>) {
    0 < |buffer| <= SLOT_SIZE + 1 && |buffer| - 1 == buffer[0]
  }

  /** The stored buffers start with their size, which fits a slot. */
  ghost predicate Sized(index: map<nat, seq<Byte>>) {
    forall key :: key in index ==> SizedEntry(index[key])
  }

  /** A frame in a slot, filled up with zeros. */
  function Padded(buffer: seq<Byte>): (slot: seq<Byte>)
    requires 0 < |buffer| <= SLOT_SIZE + 1
    ensures |slot| == SLOT_SIZE
  {
    buffer[1..] + Zeros(SLOT_SIZE + 1 - |buffer|)
  }

  /** The frames of DIF `id` for headers 1 to `n`, in header order. */
  ghost function FramesUpTo(index: map<nat, seq<Byte>>, id: nat, n: nat): (frames: seq<seq<Byte>>)
    requires Sized(index)
    ensures |frames| <= n
  {
    if n == 0 then []
    else FramesUpTo(index, id, n - 1) +
         (if KeyOf(id, n) in index then [Padded(index[KeyOf(id, n)])] else [])
  }

  ghost predicate HasId(index: map<nat, seq<Byte>>, id: nat) {
    exists key :: key in index && IdOf(key) == id
  }

  /** The record `frames` make for DIF `id`. */
  function Filled(id: nat, frames: seq<seq<Byte>>): DIFDbInfo
    requires |frames| <= SLOTS
  {
    DIFDbInfo(id, |frames|, frames + ZeroSlots(SLOTS - |frames|))
  }

  ghost function Record(index: map<nat, seq<Byte>>, id: nat): DIFDbInfo
    requires Sized(index)
  {
    if id == 0 || !HasId(index, id) then Blank() else Filled(id, FramesUpTo(index, id, SLOTS))
  }

  // ---------- what a record holds ----------

  /** The headers 1 to `n` of DIF `id` that have a frame. */
  ghost function Headers(index: map<nat, seq<Byte>>, id: nat, n: nat): set<nat> {
    set h: nat | 1 <= h <= n && KeyOf(id, h) in index
  }

  lemma {:induction false} FramesArePrefix(index: map<nat, seq<Byte>>, id: nat, m: nat, n: nat)
    requires Sized(index) && m <= n
    ensures FramesUpTo(index, id, m) <= FramesUpTo(index, id, n)
    decreases n
  {
    if m == n {
    } else {
      FramesArePrefix(index, id, m, n - 1);
    }
  }

  lemma {:induction false} FramesCount(index: map<nat, seq<Byte>>, id: nat, n: nat)
    requires Sized(index)
    ensures |FramesUpTo(index, id, n)| == |Headers(index, id, n)|
  {
    if n == 0 {
      assert Headers(index, id, 0) == {};
    } else {
      FramesCount(index, id, n - 1);
      if KeyOf(id, n) in index {
        assert Headers(index, id, n) == Headers(index, id, n - 1) + {n};
      } else {
        assert Headers(index, id, n) == Headers(index, id, n - 1);
      }
    }
  }

  /**
   Nothing is lost and the order is that of the headers: the frame of header `h` is in the slot whose
   number is the count of smaller headers, and `nbasic` is the count of all.
   */
  lemma RecordHoldsEveryFrame(index: map<nat, seq<Byte>>, id: nat, h: nat)
    requires Sized(index) && 1 <= id < 255 && 1 <= h <= SLOTS && KeyOf(id, h) in index
    ensures Record(index, id).id == id
    ensures Record(index, id).nbasic == |Headers(index, id, SLOTS)|
    ensures |Headers(index, id, h - 1)| < Record(index, id).nbasic
    ensures Record(index, id).slow[|Headers(index, id, h - 1)|] == Padded(index[KeyOf(id, h)])
  {
    assert IdOf(KeyOf(id, h)) == id;
    FramesCount(index, id, h - 1);
    FramesCount(index, id, SLOTS);
    FramesArePrefix(index, id, h, SLOTS);
  }

  /** And nothing is made up: every counted slot is the frame of some header, every other slot is zero. */
  lemma RecordHoldsNothingElse(index: map<nat, seq<Byte>>, id: nat, i: nat) returns (h: nat)
    requires Sized(index) && 1 <= id < 255 && i < SLOTS
    ensures |Record(index, id).slow| == SLOTS
    ensures i < Record(index, id).nbasic ==>
              1 <= h <= SLOTS && KeyOf(id, h) in index && i == |Headers(index, id, h - 1)|
              && Record(index, id).slow[i] == Padded(index[KeyOf(id, h)])
    ensures i >= Record(index, id).nbasic ==> Record(index, id).slow[i] == Zeros(SLOT_SIZE)
  {
    h := 0;
    if HasId(index, id) && i < |FramesUpTo(index, id, SLOTS)| {
      h := HeaderOfSlot(index, id, SLOTS, i);
      RecordHoldsEveryFrame(index, id, h);
    }
  }

  lemma {:induction false} HeaderOfSlot(index: map<nat, seq<Byte>>, id: nat, n: nat, i: nat) returns (h: nat)
    requires Sized(index) && i < |FramesUpTo(index, id, n)|
    ensures 1 <= h <= n && KeyOf(id, h) in index && i == |Headers(index, id, h - 1)|
  {
    if i < |FramesUpTo(index, id, n - 1)| {
      h := HeaderOfSlot(index, id, n - 1, i);
    } else {
      FramesCount(index, id, n - 1);
      h := n;
    }
  }

  // ---------- the same, byte by byte ----------

  /**
   The frame of header `h` is in the slot numbered by the smaller headers that have one, after the size byte, and
   behind it there are zeros.
   */
  lemma FrameBytes(index: map<nat, seq<Byte>>, id: nat, h: nat, b: nat) returns (i: nat)
    requires Sized(index) && 1 <= id < 255 && 1 <= h <= 48 && KeyOf(id, h) in index && b < 109
    ensures i == |set g: nat | 1 <= g < h && KeyOf(id, g) in index|
    ensures i < Record(index, id).nbasic <= 48 == |Record(index, id).slow| && |Record(index, id).slow[i]| == 109
    ensures b < index[KeyOf(id, h)][0] ==> b + 1 < |index[KeyOf(id, h)]| && Record(index, id).slow[i][b] == index[KeyOf(id, h)][b + 1]
    ensures b >= index[KeyOf(id, h)][0] ==> Record(index, id).slow[i][b] == 0
    ensures Record(index, id).id == id && KeyOf(id, h) == 256 * id + h
  {
    RecordHoldsEveryFrame(index, id, h);
    i := |Headers(index, id, h - 1)|;
    assert Headers(index, id, h - 1) == set g: nat | 1 <= g < h && KeyOf(id, g) in index;
    var buffer := index[KeyOf(id, h)];
    assert SizedEntry(buffer);
    assert b < |buffer| - 1 ==> Padded(buffer)[b] == buffer[1..][b];
    assert b >= |buffer| - 1 ==> Padded(buffer)[b] == Zeros(SLOT_SIZE + 1 - |buffer|)[b - (|buffer| - 1)];
  }

  /** The number of frames of a DIF, and zeros in the slots behind them. */
  lemma BytesBehindFrames(index: map<nat, seq<Byte>>, id: nat, i: nat, b: nat)
    requires Sized(index) && 1 <= id < 255 && i < 48 && b < 109
    ensures Record(index, id).nbasic == |set g: nat | 1 <= g <= 48 && KeyOf(id, g) in index|
    ensures |Record(index, id).slow| == 48 && |Record(index, id).slow[i]| == 109
    ensures i >= Record(index, id).nbasic ==> Record(index, id).slow[i][b] == 0
  {
    var h := RecordHoldsNothingElse(index, id, i);
    NumberOfFrames(index, id);
    assert Headers(index, id, 48) == set g: nat | 1 <= g <= 48 && KeyOf(id, g) in index;
  }

  lemma NumberOfFrames(index: map<nat, seq<Byte>>, id: nat)
    requires Sized(index) && 1 <= id < 255
    ensures Record(index, id).nbasic == |Headers(index, id, 48)|
  {
    if h: nat :| h in Headers(index, id, 48) {
      RecordHoldsEveryFrame(index, id, h);
    } else {
      assert Headers(index, id, 48) == {};
      FramesCount(index, id, 48);
    }
  }

  /** The record of an id that no key carries, and record 0, are all zero. */
  lemma AbsentRecord(index: map<nat, seq<Byte>>, id: nat, i: nat, b: nat)
    requires Sized(index) && i < 48 && b < 109
    requires id == 0 || forall key | key in index :: key / 256 % 256 != id
    ensures Record(index, id).id == 0 && Record(index, id).nbasic == 0
    ensures |Record(index, id).slow| == 48 && |Record(index, id).slow[i]| == 109 && Record(index, id).slow[i][b] == 0
  {
    assert id == 0 || !HasId(index, id);
  }
}
