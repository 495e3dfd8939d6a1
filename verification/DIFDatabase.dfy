/**
 The configuration database of the DIFs: the frames of its ASICs, kept by key and written out DIF by
 DIF, and the older loaders that go through the configuration once per header.
 */
module DIFDatabase {
  import opened Bits
  import opened Frames
  import opened Asics
  import opened AsicCounts
  import opened AsicKeys
  import opened DIFRecords
  import opened Lines
  import HR2 = HardRoc2
  import MR = MicroRoc

  const MAX_NB_OF_ASICS := 48
  const HARDROCV2_SLC_FRAME_SIZE := 109

  // ---------- the older loaders: one pass over the configuration per header ----------

  /** The ASICs of DIF `d` that the loaders take for header `h`. */
  predicate TakenFor(a: Asic, d: nat, h: nat) {
    a.Int(DIF_ID) % 0x1_0000_0000 == d && Enabled(a) && a.Int(HEADER) == h
  }

  function TakenOf(asics: seq<Asic>, d: nat, h: nat): seq<Asic> {
    if asics == [] then []
    else
      var last := asics[|asics| - 1];
      TakenOf(asics[..|asics| - 1], d, h) + (if TakenFor(last, d, h) then [last] else [])
  }

  /** The ASICs of DIF `d` with headers 1 to `n`, in header order and, in a header, in vector order. */
  function Taken(asics: seq<Asic>, d: nat, n: nat): seq<Asic> {
    if n == 0 then [] else Taken(asics, d, n - 1) + TakenOf(asics, d, n)
  }

  /** `SingleHardrocV2ConfigurationFrame frames[MAX_NB_OF_ASICS]` has one slot of 109 bytes per ASIC. */
  ghost predicate Slots(frames: array<Byte>) {
    frames.Length == MAX_NB_OF_ASICS * HARDROCV2_SLC_FRAME_SIZE
  }

  /** What a slot that held `was` holds once `a` is stored in it: a MICROROC frame leaves the end of the slot alone. */
  function Stored(a: Asic, micro: bool, was: seq<Byte>): (slot: seq<Byte>)
    requires |was| == HARDROCV2_SLC_FRAME_SIZE
    ensures |slot| == HARDROCV2_SLC_FRAME_SIZE
  {
    if micro then MR.Frame(a) + was[MR.FRAME_SIZE..] else HR2.Frame(a)
  }

  /** The first slots hold the frames of these ASICs, and the others what they held. */
  ghost predicate Loaded(frames: array<Byte>, before: seq<Byte>, micro: bool, taken: seq<Asic>)
    requires Slots(frames) && |before| == frames.Length && |taken| <= MAX_NB_OF_ASICS
    reads frames
  {
    match before
    case was => SlotsLoaded(frames[..], was, micro, taken)
  }

  ghost predicate SlotsLoaded(now: seq<Byte>, was: seq<Byte>, micro: bool, taken: seq<Asic>)
    requires |now| == |was| == MAX_NB_OF_ASICS * HARDROCV2_SLC_FRAME_SIZE && |taken| <= MAX_NB_OF_ASICS
  {
    && (forall i: nat | i < |taken| :: HR2.FrameOf(now, i) == Stored(taken[i], micro, HR2.FrameOf(was, i)))
    && now[HARDROCV2_SLC_FRAME_SIZE * |taken|..] == was[HARDROCV2_SLC_FRAME_SIZE * |taken|..]
  }

  lemma NextSlotLoaded(now: seq<Byte>, next: seq<Byte>, was: seq<Byte>, micro: bool, taken: seq<Asic>, a: Asic)
    requires |now| == |next| == |was| == MAX_NB_OF_ASICS * HARDROCV2_SLC_FRAME_SIZE && |taken| < MAX_NB_OF_ASICS
    requires SlotsLoaded(now, was, micro, taken)
    requires var n := HARDROCV2_SLC_FRAME_SIZE * |taken|;
             next == now[..n] + Stored(a, micro, HR2.FrameOf(now, |taken|)) + now[n + HARDROCV2_SLC_FRAME_SIZE..]
    ensures SlotsLoaded(next, was, micro, taken + [a])
  {
    var n := HARDROCV2_SLC_FRAME_SIZE * |taken|;
    FirstSlot(now, was, |taken|);
    forall i: nat | i < |taken|
      ensures HR2.FrameOf(next, i) == HR2.FrameOf(now, i)
    {
      assert next[..n] == now[..n];
    }
  }

  /** Bytes that are equal from slot `k` on are equal in that slot and behind it. */
  lemma FirstSlot(now: seq<Byte>, was: seq<Byte>, k: nat)
    requires |now| == |was| && HARDROCV2_SLC_FRAME_SIZE * (k + 1) <= |now|
    requires now[HARDROCV2_SLC_FRAME_SIZE * k..] == was[HARDROCV2_SLC_FRAME_SIZE * k..]
    ensures HR2.FrameOf(now, k) == HR2.FrameOf(was, k)
    ensures now[HARDROCV2_SLC_FRAME_SIZE * (k + 1)..] == was[HARDROCV2_SLC_FRAME_SIZE * (k + 1)..]
  {
    var n := HARDROCV2_SLC_FRAME_SIZE * k;
    assert now[n..][..HARDROCV2_SLC_FRAME_SIZE] == was[n..][..HARDROCV2_SLC_FRAME_SIZE];
    assert now[n..][HARDROCV2_SLC_FRAME_SIZE..] == was[n..][HARDROCV2_SLC_FRAME_SIZE..];
  }

  function Unmasked(difs: seq<nat>, masked: set<nat>): set<nat> {
    set d | d in difs && d !in masked
  }

  /** How many DIFs of the list have been counted: with a byte as index, none beyond the 256th. */
  function Reached(count: nat, turns: nat): (n: nat)
    ensures n <= count
  {
    if turns < count && turns < 256 then turns else if count < 256 then count else 256
  }

  /** Where the loop is when it is left, at its end or after the turns watched. */
  lemma LoopLeft(count: nat, turn: nat, turns: nat)
    requires turn <= turns && (count <= 255 ==> turn <= count) && (Turned(turn) >= count || turn == turns)
    ensures Turned(turn) >= count <==> count <= 255 && count <= turns
    ensures Reached(count, turn) == Reached(count, turns)
  {
    ByteLoopPlace(count, turn);
  }

  /** The next turn counts the next DIF, or one that has been counted before. */
  lemma UnmaskedNext(difs: seq<nat>, masked: set<nat>, turn: nat)
    requires Turned(turn) < |difs| && (|difs| <= 255 ==> turn < |difs|)
    ensures var difid := difs[Turned(turn)];
            Unmasked(difs[..Reached(|difs|, turn + 1)], masked) ==
            Unmasked(difs[..Reached(|difs|, turn)], masked) + (if difid in masked then {} else {difid})
  {
    var n := Reached(|difs|, turn);
    TurnedWraps(turn);
    if turn < 256 {
      assert difs[..n + 1] == difs[..n] + [difs[n]];
    } else {
      assert difs[Turned(turn)] == difs[..n][Turned(turn)];
    }
  }

  /** Every DIF that is counted has the packed line counts of the walk over the map. */
  ghost predicate CountsStored(counts: map<nat, nat>, index: map<nat, seq<Byte>>)
    requires NonEmpty(index)
  {
    forall d :: d in counts ==> counts[d] == PackCounts(LinesOf(index, d))
  }

  /** The record of DIF `id` before its frames are copied. */
  ghost function Marked(index: map<nat, seq<Byte>>, id: nat): DIFDbInfo {
    if HasId(index, id) then Blank().(id := id) else Blank()
  }

  /** Copying a frame into the next slot, which is zero, adds it to the record. */
  lemma FilledOneMore(id: nat, frames: seq<seq<Byte>>, bframe: seq<Byte>)
    requires |frames| < SLOTS && SizedEntry(bframe)
    ensures var info := Filled(id, frames);
            info.slow[info.nbasic] == Zeros(SLOT_SIZE)
            && info.(slow := info.slow[info.nbasic := Padded(bframe)], nbasic := info.nbasic + 1) ==
               Filled(id, frames + [Padded(bframe)])
            && Padded(bframe) == bframe[1..] + Zeros(SLOT_SIZE)[bframe[0]..]
  {
  }

  lemma AgreeingMapIsSized(index: map<nat, seq<Byte>>, asics: seq<Asic>)
    requires AgreesWithSearch(index, asics)
    ensures Sized(index)
    ensures forall key :: key in index ==> index[key][0] == 109 || index[key][0] == 74
  {
    forall key | key in index
      ensures SizedEntry(index[key]) && (index[key][0] == 109 || index[key][0] == 74)
    {
      var i: nat :| i < |asics| && Listed(asics[i]) && Key(asics[i]) == key;
      var f := SomeFirst(asics, i);
      assert index[key] == Entry(asics[f]);
    }
  }

  class OracleDIFDBInterface {
    var asics: seq<Asic>
    var theDIFs: seq<nat>
    var maskedDIFs: set<nat>
    var theDifMap: set<nat>
    var theAsicKeyMap: map<nat, seq<Byte>>
    var theNumberOfAsicsMap: map<nat, nat>

    constructor (asics: seq<Asic>, difs: seq<nat>, masked: set<nat>)
      ensures this.asics == asics && theDIFs == difs && maskedDIFs == masked
      ensures theDifMap == {} && theAsicKeyMap == map[] && theNumberOfAsicsMap == map[]
    {
      this.asics, theDIFs, maskedDIFs := asics, difs, masked;
      theDifMap, theAsicKeyMap, theNumberOfAsicsMap := {}, map[], map[];
    }

    method ClearMaps()
      modifies this`theDifMap, this`theAsicKeyMap, this`theNumberOfAsicsMap
      ensures theDifMap == {} && theAsicKeyMap == map[] && theNumberOfAsicsMap == map[]
    {
      theDifMap := {};
      theAsicKeyMap := map[];
      theNumberOfAsicsMap := map[];
    }

    /** Fills the key map: it gains exactly the frames that linear search finds, and loses none. */
    method LoadAsicParameters()
      modifies this`theAsicKeyMap
      ensures Extends(old(theAsicKeyMap), theAsicKeyMap, asics)
      ensures forall key | key in theAsicKeyMap && key !in old(theAsicKeyMap) ::
                exists i :: 0 <= i < |asics| && Key(asics[i]) == key && asics[i].Int(ENABLED) != 0 &&
                            (asics[i].kind == "HR2" || asics[i].kind == "MR")
      ensures forall i | 0 <= i < |asics| && asics[i].Int(ENABLED) != 0 && (asics[i].kind == "HR2" || asics[i].kind == "MR") ::
                Key(asics[i]) in theAsicKeyMap
    {
      LoadEveryAsic();
      KeysOfEnabledChips(old(theAsicKeyMap), theAsicKeyMap, asics);
    }

    /** The loop of `LoadAsicParameters`. */
    method LoadEveryAsic()
      modifies this`theAsicKeyMap
      ensures Extends(old(theAsicKeyMap), theAsicKeyMap, asics)
    {
      var n := 0;
      while n < |asics|
        invariant 0 <= n <= |asics|
        invariant Extends(old(theAsicKeyMap), theAsicKeyMap, asics[..n])
      {
        assert asics[..n + 1] == asics[..n] + [asics[n]];
        ExtendsNext(old(theAsicKeyMap), theAsicKeyMap, asics[..n], asics[n]);
        LoadAsic(asics[n]);
        n := n + 1;
      }
      assert asics[..|asics|] == asics;
    }

    /** The body of that loop: a disabled ASIC, or one whose key is taken, is passed over. */
    method LoadAsic(a: Asic)
      modifies this`theAsicKeyMap
      ensures theAsicKeyMap == WithAsic(old(theAsicKeyMap), a)
    {
      if a.Int(ENABLED) == 0 {
        return;
      }
      var key := Key(a);
      if key in theAsicKeyMap {
        return;
      }
      if a.kind == "HR2" {
        var buf := NewHardRoc2Buffer(a);
        theAsicKeyMap := theAsicKeyMap[key := buf];
        return;
      }
      if a.kind == "MR" {
        var buf := NewMicroRocBuffer(a);
        theAsicKeyMap := theAsicKeyMap[key := buf];
        return;
      }
    }

    /**
     `download`: loads the key map anew and counts the ASICs of every listed, unmasked DIF.  The loop over the DIFs is
     watched for some number of turns; it ends if there are no more than 255 DIFs, and otherwise goes round for ever.
     */
    method Download(turns: nat) returns (ended: bool)
      modifies this`theDifMap, this`theAsicKeyMap, this`theNumberOfAsicsMap
      ensures AgreesWithSearch(theAsicKeyMap, asics) && NonEmpty(theAsicKeyMap)
      ensures ended <==> |theDIFs| <= 255 && |theDIFs| <= turns
      ensures Counted(Reached(|theDIFs|, turns)) && CountsStored(theNumberOfAsicsMap, theAsicKeyMap)
    {
      ClearMaps();
      LoadAsicParameters();
      AgreeingMapIsSized(theAsicKeyMap, asics);
      ended := CountListedDIFs(turns);
    }

    /** The maps have an entry for exactly the unmasked ones of the first `n` DIFs listed. */
    ghost predicate Counted(n: nat)
      requires n <= |theDIFs|
      reads this`theDIFs, this`maskedDIFs, this`theDifMap, this`theNumberOfAsicsMap
    {
      match n
      case m => theDifMap == theNumberOfAsicsMap.Keys == Unmasked(theDIFs[..m], maskedDIFs)
    }

    /** The loop of `download` over the listed DIFs, for at most so many turns. */
    method CountListedDIFs(turns: nat) returns (ended: bool)
      requires theDifMap == {} && theNumberOfAsicsMap == map[] && NonEmpty(theAsicKeyMap)
      modifies this`theDifMap, this`theNumberOfAsicsMap
      ensures ended <==> |theDIFs| <= 255 && |theDIFs| <= turns
      ensures Counted(Reached(|theDIFs|, turns)) && CountsStored(theNumberOfAsicsMap, theAsicKeyMap)
    {
      var idx: UInt8 := 0;
      var turn := 0;
      while idx < |theDIFs| && turn < turns
        invariant 0 <= turn <= turns && idx == Turned(turn) && (|theDIFs| <= 255 ==> turn <= |theDIFs|)
        invariant Counted(Reached(|theDIFs|, turn)) && CountsStored(theNumberOfAsicsMap, theAsicKeyMap)
        decreases turns - turn
      {
        ByteLoopPlace(|theDIFs|, turn);
        CountTurn(idx, turn);
        idx := Inc(idx);
        turn := turn + 1;
      }
      LoopLeft(|theDIFs|, turn, turns);
      ended := idx >= |theDIFs|;
    }

    /** One turn: the DIF at the index is counted, which may have been counted in an earlier round. */
    method CountTurn(idx: UInt8, ghost turn: nat)
      requires NonEmpty(theAsicKeyMap) && idx == Turned(turn) < |theDIFs| && (|theDIFs| <= 255 ==> turn < |theDIFs|)
      requires Counted(Reached(|theDIFs|, turn)) && CountsStored(theNumberOfAsicsMap, theAsicKeyMap)
      modifies this`theDifMap, this`theNumberOfAsicsMap
      ensures Counted(Reached(|theDIFs|, turn + 1)) && CountsStored(theNumberOfAsicsMap, theAsicKeyMap)
    {
      UnmaskedNext(theDIFs, maskedDIFs, turn);
      CountDIF(theDIFs[idx]);
    }

    /** The body of that loop. */
    method CountDIF(difid: nat)
      requires NonEmpty(theAsicKeyMap) && CountsStored(theNumberOfAsicsMap, theAsicKeyMap)
      modifies this`theDifMap, this`theNumberOfAsicsMap
      ensures theDifMap == if difid in maskedDIFs then old(theDifMap) else old(theDifMap) + {difid}
      ensures theNumberOfAsicsMap.Keys ==
              if difid in maskedDIFs then old(theNumberOfAsicsMap.Keys) else old(theNumberOfAsicsMap.Keys) + {difid}
      ensures CountsStored(theNumberOfAsicsMap, theAsicKeyMap)
    {
      if difid !in maskedDIFs {
        theDifMap := theDifMap + {difid};
        var t := CountAsics(theAsicKeyMap, difid);
        if difid !in theNumberOfAsicsMap {
          theNumberOfAsicsMap := theNumberOfAsicsMap[difid := PackCounts(t.lines)];
        }
      }
    }

    /** `getAsicsNumber`; asking for an unknown DIF makes an entry of zero for it. */
    method GetAsicsNumber(difid: nat) returns (n: nat)
      modifies this`theNumberOfAsicsMap
      ensures theNumberOfAsicsMap == if difid in old(theNumberOfAsicsMap) then old(theNumberOfAsicsMap)
                                     else old(theNumberOfAsicsMap)[difid := 0]
      ensures n == UnpackedSum(theNumberOfAsicsMap[difid])
    {
      if difid !in theNumberOfAsicsMap {
        theNumberOfAsicsMap := theNumberOfAsicsMap[difid := 0];
      }
      var packed := theNumberOfAsicsMap[difid];
      n := (Unpack(packed, 1) + Unpack(packed, 2) + Unpack(packed, 3) + Unpack(packed, 4)) % 256;
    }

    /** `getAsicsNumberl1` to `getAsicsNumberl4` */
    method GetAsicsNumberOnLine(difid: nat, line: nat) returns (n: nat)
      requires 1 <= line <= 4
      modifies this`theNumberOfAsicsMap
      ensures theNumberOfAsicsMap == if difid in old(theNumberOfAsicsMap) then old(theNumberOfAsicsMap)
                                     else old(theNumberOfAsicsMap)[difid := 0]
      ensures n == Unpack(theNumberOfAsicsMap[difid], line)
    {
      if difid !in theNumberOfAsicsMap {
        theNumberOfAsicsMap := theNumberOfAsicsMap[difid := 0];
      }
      n := Unpack(theNumberOfAsicsMap[difid], line);
    }

    /** `dumpToTree`: one record per DIF id; the ids of the map must be inside the 255 records. */
    method DumpToTree() returns (infos: array<DIFDbInfo>)
      requires Sized(theAsicKeyMap)
      requires forall key :: key in theAsicKeyMap ==> IdOf(key) < 255
      ensures fresh(infos) && infos.Length == 255
      ensures forall id: nat | id < 255 :: infos[id] == Record(theAsicKeyMap, id)
    {
      infos := new DIFDbInfo[255](_ => Blank());
      MarkIds(infos);
      var i := 0;
      while i < 255
        invariant 0 <= i <= 255
        invariant forall id: nat | id < i :: infos[id] == Record(theAsicKeyMap, id)
        invariant forall id: nat | i <= id < 255 :: infos[id] == Marked(theAsicKeyMap, id)
      {
        if infos[i].id != 0 {
          FillRecord(infos, i);
        }
        i := i + 1;
      }
    }

    /** The first loop: every id that occurs in a key is entered in its record. */
    method MarkIds(infos: array<DIFDbInfo>)
      requires infos.Length == 255 && forall id: nat | id < 255 :: infos[id] == Blank()
      requires forall key :: key in theAsicKeyMap ==> IdOf(key) < 255
      modifies infos
      ensures forall id: nat | id < 255 :: infos[id] == Marked(theAsicKeyMap, id)
    {
      var todo := theAsicKeyMap.Keys;
      while todo != {}
        invariant todo <= theAsicKeyMap.Keys
        invariant forall id: nat | id < 255 :: infos[id] == Blank() || (id != 0 && infos[id] == Blank().(id := id))
        invariant forall id: nat | id < 255 ::
                    infos[id] == Blank().(id := id) <==>
                      id == 0 || exists key :: key in theAsicKeyMap && key !in todo && IdOf(key) == id
        decreases |todo|
      {
        var idb :| idb in todo;
        var id := IdOf(idb);
        infos[id] := infos[id].(id := id);
        todo := todo - {idb};
      }
    }

    /** The second loop for one DIF: copies its frames, by increasing header. */
    method FillRecord(infos: array<DIFDbInfo>, id: nat)
      requires Sized(theAsicKeyMap) && infos.Length == 255 && id < 255
      requires infos[id] == Blank().(id := id)
      modifies infos
      ensures forall i | 0 <= i < 255 && i != id :: infos[i] == old(infos[i])
      ensures infos[id] == Filled(id, FramesUpTo(theAsicKeyMap, id, SLOTS))
    {
      infos[id] := infos[id].(nbasic := 0);
      var iasic := 1;
      while iasic <= 48
        invariant 1 <= iasic <= 49
        invariant forall i | 0 <= i < 255 && i != id :: infos[i] == old(infos[i])
        invariant infos[id] == Filled(id, FramesUpTo(theAsicKeyMap, id, iasic - 1))
      {
        var key := KeyOf(id, iasic);
        if key in theAsicKeyMap {
          var bframe := theAsicKeyMap[key];
          var info := infos[id];
          var slot := bframe[1..] + info.slow[info.nbasic][bframe[0]..];
          infos[id] := info.(slow := info.slow[info.nbasic := slot], nbasic := info.nbasic + 1);
          FilledOneMore(id, FramesUpTo(theAsicKeyMap, id, iasic - 1), bframe);
        }
        iasic := iasic + 1;
      }
    }

    /** One pass over the configuration, for header `iasic + 1`. */
    method LoadHeader(difid: nat, micro: bool, iasic: nat, frames: array<Byte>, thr0: UInt8, thrl0: Counts,
                      ghost before: seq<Byte>, ghost base: seq<Asic>)
      returns (thr: UInt8, thrl: Counts)
      requires Slots(frames) && |before| == frames.Length
      requires |base + TakenOf(asics, difid, iasic + 1)| <= MAX_NB_OF_ASICS
      requires thr0 == |base| && thrl0 == Serpentine(thr0)
      requires Loaded(frames, before, micro, base)
      modifies frames
      ensures thr == |base + TakenOf(asics, difid, iasic + 1)| && thrl == Serpentine(thr)
      ensures Loaded(frames, before, micro, base + TakenOf(asics, difid, iasic + 1))
    {
      thr, thrl := thr0, thrl0;
      ghost var taken := base;
      var it := 0;
      while it < |asics|
        invariant 0 <= it <= |asics|
        invariant taken == base + TakenOf(asics[..it], difid, iasic + 1)
        invariant thr == |taken| <= MAX_NB_OF_ASICS && thrl == Serpentine(thr)
        invariant Loaded(frames, before, micro, taken)
      {
        TakenOfNext(asics, difid, iasic + 1, it);
        thr, thrl := LoadOne(asics[it], difid, micro, iasic, frames, thr, thrl, before, taken);
        taken := taken + (if TakenFor(asics[it], difid, iasic + 1) then [asics[it]] else []);
        it := it + 1;
      }
      assert asics[..|asics|] == asics;
    }

    /** The body that both loaders share, but for the frame they store. */
    method LoadFrames(difid: nat, micro: bool, frames: array<Byte>) returns (packed: nat)
      requires Slots(frames) && |Taken(asics, difid, MAX_NB_OF_ASICS)| <= MAX_NB_OF_ASICS
      modifies frames
      ensures Loaded(frames, old(frames[..]), micro, Taken(asics, difid, MAX_NB_OF_ASICS))
      ensures packed == PackCounts(Serpentine(|Taken(asics, difid, MAX_NB_OF_ASICS)|))
    {
      var thr: UInt8 := 0;
      var thrl := NO_ASICS;
      ghost var before, taken: seq<Asic> := frames[..], [];
      var iasic := 0;
      while iasic < MAX_NB_OF_ASICS
        invariant 0 <= iasic <= MAX_NB_OF_ASICS
        invariant taken == Taken(asics, difid, iasic)
        invariant thr == |taken| <= MAX_NB_OF_ASICS && thrl == Serpentine(thr)
        invariant Loaded(frames, before, micro, taken)
      {
        TakenGrows(asics, difid, iasic + 1, MAX_NB_OF_ASICS);
        thr, thrl := LoadHeader(difid, micro, iasic, frames, thr, thrl, before, taken);
        taken := taken + TakenOf(asics, difid, iasic + 1);
        iasic := iasic + 1;
      }
      packed := PackCounts(thrl);
    }

    method LoadDIFHardrocV2Parameters(difid: nat, frames: array<Byte>) returns (packed: nat)
      requires Slots(frames) && |Taken(asics, difid, MAX_NB_OF_ASICS)| <= MAX_NB_OF_ASICS
      modifies frames
      ensures Loaded(frames, old(frames[..]), false, Taken(asics, difid, MAX_NB_OF_ASICS))
      ensures packed == PackCounts(Serpentine(|Taken(asics, difid, MAX_NB_OF_ASICS)|))
      ensures (forall j | 0 <= j < |asics| :: asics[j].Int(ENABLED) == 0) ==> frames[..] == old(frames[..]) && packed == 0
    {
      ghost var before := frames[..];
      packed := LoadFrames(difid, false, frames);
      NothingToLoad(frames[..], before, false, asics, difid);
    }

    method LoadDIFMicrorocParameters(difid: nat, frames: array<Byte>) returns (packed: nat)
      requires Slots(frames) && |Taken(asics, difid, MAX_NB_OF_ASICS)| <= MAX_NB_OF_ASICS
      modifies frames
      ensures Loaded(frames, old(frames[..]), true, Taken(asics, difid, MAX_NB_OF_ASICS))
      ensures packed == PackCounts(Serpentine(|Taken(asics, difid, MAX_NB_OF_ASICS)|))
      ensures (forall j | 0 <= j < |asics| :: asics[j].Int(ENABLED) == 0) ==> frames[..] == old(frames[..]) && packed == 0
    {
      ghost var before := frames[..];
      packed := LoadFrames(difid, true, frames);
      NothingToLoad(frames[..], before, true, asics, difid);
    }
  }

  method NewHardRoc2Buffer(a: Asic) returns (bytes: seq<Byte>)
    ensures bytes == [109] + HR2.Frame(a)
  {
    var buf := new Byte[110](_ => 0);
    buf[0] := 109;
    HR2.StoreHardRoc2Configuration(a, buf, 1);
    bytes := buf[..];
  }

  method NewMicroRocBuffer(a: Asic) returns (bytes: seq<Byte>)
    ensures bytes == [74] + MR.Frame(a)
  {
    var buf := new Byte[75](_ => 0);
    buf[0] := 74;
    MR.StoreMicroRocConfiguration(a, buf, 1);
    bytes := buf[..];
  }

  /** The first `n` keys have been walked over, and `todo` is left. */
  ghost predicate Walking(index: map<nat, seq<Byte>>, todo: set<nat>, n: nat, t: Tally, d: nat)
    requires NonEmpty(index)
  {
    AscendingElements(index.Keys);
    match d
    case difid =>
      var order := Ascending(index.Keys);
      todo <= index.Keys && n <= |order| && Ascending(todo) == order[n..] && t == Walk(index, order[..n], difid)
  }

  lemma WalkBegins(index: map<nat, seq<Byte>>, d: nat)
    requires NonEmpty(index)
    ensures Walking(index, index.Keys, 0, NOTHING, d)
  {
  }

  lemma WalkEnds(index: map<nat, seq<Byte>>, n: nat, t: Tally, d: nat)
    requires NonEmpty(index) && Walking(index, {}, n, t, d)
    ensures t.lines == LinesOf(index, d)
  {
    var order := Ascending(index.Keys);
    assert n == |order| && order[..n] == order;
  }

  /** The walk over the key map, in key order. */
  method CountAsics(index: map<nat, seq<Byte>>, difid: nat) returns (t: Tally)
    requires NonEmpty(index)
    ensures t.lines == LinesOf(index, difid)
  {
    WalkBegins(index, difid);
    ghost var n := 0;
    t := NOTHING;
    var todo := index.Keys;
    while todo != {}
      invariant Walking(index, todo, n, t, difid)
      decreases |todo|
    {
      LeastExists(todo);
      var ik :| IsLeast(ik, todo);
      t := CountNext(index, difid, t, ik, todo, n);
      n := n + 1;
      todo := todo - {ik};
    }
    WalkEnds(index, n, t, difid);
  }

  /** The body of that walk, for the next key. */
  method CountNext(index: map<nat, seq<Byte>>, difid: nat, t: Tally, ik: nat, ghost todo: set<nat>, ghost n: nat) returns (r: Tally)
    requires NonEmpty(index) && Walking(index, todo, n, t, difid) && IsLeast(ik, todo)
    ensures Walking(index, todo - {ik}, n + 1, r, difid)
  {
    AscendingElements(index.Keys);
    ghost var order := Ascending(index.Keys);
    AscendingNext(order, n, todo, ik);
    WalkNext(index, order[..n], ik, difid);
    r := t;
    if IdOf(ik) == difid {
      r := CountKey(t, index[ik][0]);
    }
  }

  /** The body of that pass, for one ASIC. */
  method LoadOne(a: Asic, difid: nat, micro: bool, iasic: nat, frames: array<Byte>, thr0: UInt8, thrl0: Counts,
                 ghost before: seq<Byte>, ghost taken: seq<Asic>)
    returns (thr: UInt8, thrl: Counts)
    requires Slots(frames) && |before| == frames.Length
    requires thr0 == |taken| <= MAX_NB_OF_ASICS && thrl0 == Serpentine(thr0)
    requires TakenFor(a, difid, iasic + 1) ==> thr0 < MAX_NB_OF_ASICS
    requires Loaded(frames, before, micro, taken)
    modifies frames
    ensures thr == |taken + (if TakenFor(a, difid, iasic + 1) then [a] else [])| && thrl == Serpentine(thr)
    ensures Loaded(frames, before, micro, taken + (if TakenFor(a, difid, iasic + 1) then [a] else []))
    ensures a.Int(DIF_ID) % 0x1_0000_0000 != difid || a.Int(ENABLED) == 0 || a.Int(HEADER) != iasic + 1 ==>
              thr == thr0 && thrl == thrl0 && frames[..] == old(frames[..])
    ensures a.Int(DIF_ID) % 0x1_0000_0000 == difid && a.Int(ENABLED) != 0 && a.Int(HEADER) == iasic + 1 ==> thr == thr0 + 1
  {
    assert taken + [] == taken;
    thr, thrl := thr0, thrl0;
    if a.Int(DIF_ID) % 0x1_0000_0000 != difid { return; }
    if a.Int(ENABLED) == 0 { return; }
    if iasic + 1 == a.Int(HEADER) {
      StoreSlot(a, micro, frames, thr, before, taken);
      SerpentineStep(thr);
      thr := Inc(thr);
      thrl := CountOnLine(thr, thrl);
    }
  }

  method StoreAt(a: Asic, micro: bool, frames: array<Byte>, o: nat)
    requires o + HARDROCV2_SLC_FRAME_SIZE <= frames.Length
    modifies frames
    ensures frames[..] == old(frames[..o]) + Stored(a, micro, old(frames[o..o + HARDROCV2_SLC_FRAME_SIZE]))
                        + old(frames[o + HARDROCV2_SLC_FRAME_SIZE..])
  {
    if micro {
      MR.StoreMicroRocConfiguration(a, frames, o);
    } else {
      HR2.StoreHardRoc2Configuration(a, frames, o);
    }
  }

  /** The next slot receives the frame of `a`. */
  method StoreSlot(a: Asic, micro: bool, frames: array<Byte>, thr: nat, ghost before: seq<Byte>, ghost taken: seq<Asic>)
    requires Slots(frames) && |before| == frames.Length && thr == |taken| < MAX_NB_OF_ASICS
    requires Loaded(frames, before, micro, taken)
    modifies frames
    ensures Loaded(frames, before, micro, taken + [a])
  {
    ghost var now := frames[..];
    StoreAt(a, micro, frames, HARDROCV2_SLC_FRAME_SIZE * thr);
    NextSlotLoaded(now, frames[..], before, micro, taken, a);
  }

  lemma {:induction false} TakenGrows(asics: seq<Asic>, d: nat, m: nat, n: nat)
    requires m <= n
    ensures |Taken(asics, d, m)| <= |Taken(asics, d, n)|
    decreases n
  {
    if m == n {
    } else {
      TakenGrows(asics, d, m, n - 1);
    }
  }

  lemma {:induction false} TakenOfMembers(asics: seq<Asic>, d: nat, h: nat, a: Asic)
    ensures a in TakenOf(asics, d, h) <==> a in asics && TakenFor(a, d, h)
  {
    if asics == [] {
    } else {
      TakenOfMembers(asics[..|asics| - 1], d, h, a);
      assert asics == asics[..|asics| - 1] + [asics[|asics| - 1]];
    }
  }

  lemma {:induction false} TakenUpTo(asics: seq<Asic>, d: nat, n: nat, a: Asic)
    ensures a in Taken(asics, d, n) <==> a in asics && 1 <= a.Int(HEADER) <= n && TakenFor(a, d, a.Int(HEADER))
  {
    if n > 0 {
      TakenUpTo(asics, d, n - 1, a);
      TakenOfMembers(asics, d, n, a);
    }
  }

  /** What is taken for headers 1 to `n`, field by field. */
  lemma TakenMembers(asics: seq<Asic>, d: nat, n: nat, a: Asic)
    ensures a in Taken(asics, d, n) <==>
            a in asics && a.Int(ENABLED) != 0 && a.Int(DIF_ID) % 0x1_0000_0000 == d && 1 <= a.Int(HEADER) <= n
  {
    TakenUpTo(asics, d, n, a);
  }

  /** It is taken by increasing header. */
  lemma {:induction false} TakenInOrder(asics: seq<Asic>, d: nat, n: nat, i: nat, j: nat)
    requires i < j < |Taken(asics, d, n)|
    ensures Taken(asics, d, n)[i].Int(HEADER) <= Taken(asics, d, n)[j].Int(HEADER) <= n
  {
    var init := Taken(asics, d, n - 1);
    if j < |init| {
      TakenInOrder(asics, d, n - 1, i, j);
    } else {
      TakenOfMembers(asics, d, n, Taken(asics, d, n)[j]);
      TakenUpTo(asics, d, n, Taken(asics, d, n)[i]);
    }
  }

  ghost function Times(s: seq<Asic>, a: Asic): nat {
    if s == [] then 0 else Times(s[..|s| - 1], a) + (if s[|s| - 1] == a then 1 else 0)
  }

  lemma {:induction false} TimesConcat(s: seq<Asic>, t: seq<Asic>, a: Asic)
    ensures Times(s + t, a) == Times(s, a) + Times(t, a)
  {
    if t == [] {
      assert s + t == s;
    } else {
      assert (s + t)[..|s + t| - 1] == s + t[..|t| - 1];
      TimesConcat(s, t[..|t| - 1], a);
    }
  }

  lemma {:induction false} TakenOfTimes(asics: seq<Asic>, d: nat, h: nat, a: Asic)
    requires a.Int(ENABLED) != 0 && a.Int(DIF_ID) % 0x1_0000_0000 == d
    ensures Times(TakenOf(asics, d, h), a) == if a.Int(HEADER) == h then Times(asics, a) else 0
  {
    if asics == [] {
    } else {
      var init, last := asics[..|asics| - 1], asics[|asics| - 1];
      TakenOfTimes(init, d, h, a);
      TimesConcat(TakenOf(init, d, h), if TakenFor(last, d, h) then [last] else [], a);
      assert Times([last], a) == Times([], a) + (if last == a then 1 else 0) by {
        assert [last][..0] == [];
      }
    }
  }

  /** And each as often as it is in the vector. */
  lemma {:induction false} TakenTimes(asics: seq<Asic>, d: nat, n: nat, a: Asic)
    requires a.Int(ENABLED) != 0 && a.Int(DIF_ID) % 0x1_0000_0000 == d
    ensures Times(Taken(asics, d, n), a) == if 1 <= a.Int(HEADER) <= n then Times(asics, a) else 0
  {
    if n > 0 {
      TakenTimes(asics, d, n - 1, a);
      TakenOfTimes(asics, d, n, a);
      TimesConcat(Taken(asics, d, n - 1), TakenOf(asics, d, n), a);
    }
  }

  /** With every ASIC disabled the slots stay as they are. */
  lemma NothingToLoad(now: seq<Byte>, was: seq<Byte>, micro: bool, asics: seq<Asic>, difid: nat)
    requires |now| == |was| == MAX_NB_OF_ASICS * HARDROCV2_SLC_FRAME_SIZE && |Taken(asics, difid, MAX_NB_OF_ASICS)| <= MAX_NB_OF_ASICS
    requires SlotsLoaded(now, was, micro, Taken(asics, difid, MAX_NB_OF_ASICS))
    ensures (forall j | 0 <= j < |asics| :: asics[j].Int(ENABLED) == 0) ==>
              now == was && PackCounts(Serpentine(|Taken(asics, difid, MAX_NB_OF_ASICS)|)) == 0
  {
    var taken := Taken(asics, difid, MAX_NB_OF_ASICS);
    if taken == [] {
      assert HARDROCV2_SLC_FRAME_SIZE * |taken| == 0;
      assert now[0..] == now && was[0..] == was;
    } else {
      TakenMembers(asics, difid, MAX_NB_OF_ASICS, taken[0]);
    }
  }

  /** Every filled slot comes from an enabled ASIC of the DIF with a header from 1 to 48 ... */
  lemma SlotComesFromChip(now: seq<Byte>, was: seq<Byte>, micro: bool, asics: seq<Asic>, difid: nat, i: nat) returns (j: nat)
    requires |now| == |was| == MAX_NB_OF_ASICS * HARDROCV2_SLC_FRAME_SIZE && |Taken(asics, difid, MAX_NB_OF_ASICS)| <= MAX_NB_OF_ASICS
    requires SlotsLoaded(now, was, micro, Taken(asics, difid, MAX_NB_OF_ASICS)) && i < |Taken(asics, difid, MAX_NB_OF_ASICS)|
    ensures j < |asics| && asics[j].Int(ENABLED) != 0 && asics[j].Int(DIF_ID) % 0x1_0000_0000 == difid
    ensures 1 <= asics[j].Int(HEADER) <= 48
    ensures now[109 * i..109 * (i + 1)] ==
            if micro then MR.Frame(asics[j]) + was[109 * i..109 * (i + 1)][74..] else HR2.Frame(asics[j])
  {
    var taken := Taken(asics, difid, MAX_NB_OF_ASICS);
    TakenMembers(asics, difid, MAX_NB_OF_ASICS, taken[i]);
    j :| 0 <= j < |asics| && asics[j] == taken[i];
    assert HR2.FrameOf(now, i) == Stored(taken[i], micro, HR2.FrameOf(was, i));
  }

  /** ... and every such ASIC fills one. */
  lemma ChipFillsSlot(now: seq<Byte>, was: seq<Byte>, micro: bool, asics: seq<Asic>, difid: nat, j: nat) returns (i: nat)
    requires |now| == |was| == MAX_NB_OF_ASICS * HARDROCV2_SLC_FRAME_SIZE && |Taken(asics, difid, MAX_NB_OF_ASICS)| <= MAX_NB_OF_ASICS
    requires SlotsLoaded(now, was, micro, Taken(asics, difid, MAX_NB_OF_ASICS))
    requires j < |asics| && asics[j].Int(ENABLED) != 0 && asics[j].Int(DIF_ID) % 0x1_0000_0000 == difid
    requires 1 <= asics[j].Int(HEADER) <= 48
    ensures i < |Taken(asics, difid, MAX_NB_OF_ASICS)|
    ensures now[109 * i..109 * (i + 1)] ==
            if micro then MR.Frame(asics[j]) + was[109 * i..109 * (i + 1)][74..] else HR2.Frame(asics[j])
  {
    var taken := Taken(asics, difid, MAX_NB_OF_ASICS);
    TakenMembers(asics, difid, MAX_NB_OF_ASICS, asics[j]);
    i :| 0 <= i < |taken| && taken[i] == asics[j];
    assert HR2.FrameOf(now, i) == Stored(taken[i], micro, HR2.FrameOf(was, i));
  }

  lemma TakenOfNext(asics: seq<Asic>, d: nat, h: nat, n: nat)
    requires n < |asics|
    ensures TakenOf(asics[..n + 1], d, h) == TakenOf(asics[..n], d, h) + (if TakenFor(asics[n], d, h) then [asics[n]] else [])
    ensures |TakenOf(asics[..n + 1], d, h)| <= |TakenOf(asics, d, h)|
  {
    assert asics[..n + 1][..n] == asics[..n];
    TakenOfPrefix(asics, d, h, n + 1);
  }

  lemma {:induction false} TakenOfPrefix(asics: seq<Asic>, d: nat, h: nat, n: nat)
    requires n <= |asics|
    ensures |TakenOf(asics[..n], d, h)| <= |TakenOf(asics, d, h)|
    decreases |asics|
  {
    if n == |asics| {
      assert asics[..n] == asics;
    } else {
      TakenOfPrefix(asics[..|asics| - 1], d, h, n);
      assert asics[..|asics| - 1][..n] == asics[..n];
    }
  }
}
