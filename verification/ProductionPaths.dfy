/**
 What the database delivers: the packed ASIC counts mean what they say, and the frames written out
 from the key map are the frames the older loaders build header by header.
 */
module ProductionPaths {
  import opened Bits
  import opened Frames
  import opened Asics
  import opened AsicCounts
  import opened AsicKeys
  import opened DIFDatabase
  import opened DIFRecords
  import opened Lines
  import HR2 = HardRoc2
  import MR = MicroRoc

  // ---------- packed counts ----------

  lemma WalkIsDefined(index: map<nat, seq<Byte>>, asics: seq<Asic>)
    requires AgreesWithSearch(index, asics)
    ensures NonEmpty(index) && Chips(index, Ascending(index.Keys))
  {
    AgreeingMapIsSized(index, asics);
    AscendingElements(index.Keys);
    forall key | key in Ascending(index.Keys)
      ensures key in index && |index[key]| > 0 && (index[key][0] == 109 || index[key][0] == 74)
    {
      assert SizedEntry(index[key]);
    }
  }

  /**
   What `download` stores for a DIF with fewer than 256 ASICs: the four counts come back unchanged, and
   their sum is the number of keys that carry the DIF's id.
   */
  lemma PackedCountsAreExact(index: map<nat, seq<Byte>>, asics: seq<Asic>, d: nat)
    requires AgreesWithSearch(index, asics)
    requires |KeysOfDif(index.Keys, d)| < 256
    ensures NonEmpty(index)
    ensures var packed := PackCounts(LinesOf(index, d));
            && Counts(Unpack(packed, 1), Unpack(packed, 2), Unpack(packed, 3), Unpack(packed, 4)) == LinesOf(index, d)
            && Unpack(packed, 1) + Unpack(packed, 2) + Unpack(packed, 3) + Unpack(packed, 4) == |KeysOfDif(index.Keys, d)|
  {
    LinesSum(index, asics, d);
    PackRoundTrip(LinesOf(index, d));
  }

  lemma LinesSum(index: map<nat, seq<Byte>>, asics: seq<Asic>, d: nat)
    requires AgreesWithSearch(index, asics)
    requires |KeysOfDif(index.Keys, d)| < 256
    ensures NonEmpty(index) && LinesOf(index, d).Sum() == |KeysOfDif(index.Keys, d)|
  {
    WalkIsDefined(index, asics);
    AscendingCount(index.Keys, d);
    WalkCounts(index, Ascending(index.Keys), d);
  }

  /** With one type of chip on the DIF, the lines are known: HARDROC2s on line 1, MICROROCs along the serpentine. */
  lemma LinesOfUniformDIF(index: map<nat, seq<Byte>>, asics: seq<Asic>, d: nat, size: Byte)
    requires AgreesWithSearch(index, asics)
    requires |KeysOfDif(index.Keys, d)| < 256
    requires forall key :: key in index && IdOf(key) == d ==> |index[key]| > 0 && index[key][0] == size
    ensures NonEmpty(index)
    ensures size == 74 ==> LinesOf(index, d) == Serpentine(|KeysOfDif(index.Keys, d)|)
    ensures size == 109 ==> LinesOf(index, d) == Counts(|KeysOfDif(index.Keys, d)|, 0, 0, 0)
  {
    WalkIsDefined(index, asics);
    AscendingCount(index.Keys, d);
    AscendingElements(index.Keys);
    if size == 74 {
      WalkMicroRocs(index, Ascending(index.Keys), d);
    } else if size == 109 {
      WalkHardRocs(index, Ascending(index.Keys), d);
    }
  }

  // ---------- the two ways of producing frames ----------

  /** ASIC `a` is an enabled chip of DIF `d`. */
  predicate OnDIF(a: Asic, d: nat) {
    Enabled(a) && a.Int(DIF_ID) % 0x1_0000_0000 == d
  }

  /** The enabled ASICs of DIF `d` are HARDROC2s with distinct headers from 1 to 48. */
  predicate PlainDIF(asics: seq<Asic>, d: nat) {
    && (forall i | 0 <= i < |asics| && OnDIF(asics[i], d) :: asics[i].kind == "HR2" && 1 <= asics[i].Int(HEADER) <= 48)
    && (forall i, j | 0 <= i < j < |asics| && OnDIF(asics[i], d) && OnDIF(asics[j], d) ::
          asics[i].Int(HEADER) != asics[j].Int(HEADER))
  }

  /** What the frame of an ASIC looks like in a slot of a record. */
  function Shown(a: Asic): (slot: seq<Byte>)
    requires Listed(a)
  {
    if a.kind == "HR2" then HR2.Frame(a) else MR.Frame(a) + Zeros(SLOT_SIZE - MR.FRAME_SIZE)
  }

  /** Some chip of DIF `d` has this key, and its frame looks the same; between HARDROC2s, it has the same content (`SameFrame`). */
  predicate SameAsOwn(asics: seq<Asic>, d: nat, a: Asic)
    requires Listed(a)
  {
    exists j: nat | j < |asics| :: OnDIF(asics[j], d) && Key(asics[j]) == Key(a) && HR2.Frame(asics[j]) == Shown(a)
  }

  /** Whichever chip comes first under `key`, DIF `d` has a chip there with the same frame. */
  predicate NoStrangerAt(asics: seq<Asic>, d: nat, key: nat) {
    forall i: nat | i < |asics| && First(asics, i) && Key(asics[i]) == key :: SameAsOwn(asics, d, asics[i])
  }

  predicate NoStranger(asics: seq<Asic>, d: nat) {
    forall h: nat | 1 <= h <= 48 :: NoStrangerAt(asics, d, KeyOf(d, h))
  }

  function FramesOf(taken: seq<Asic>): (frames: seq<seq<Byte>>)
    ensures |frames| == |taken|
  {
    if taken == [] then [] else FramesOf(taken[..|taken| - 1]) + [HR2.Frame(taken[|taken| - 1])]
  }

  lemma {:induction false} FramesOfAt(taken: seq<Asic>, i: nat)
    requires i < |taken|
    ensures FramesOf(taken)[i] == HR2.Frame(taken[i])
  {
    if i < |taken| - 1 {
      FramesOfAt(taken[..|taken| - 1], i);
    }
  }

  lemma KeyOnDIF(a: Asic, d: nat)
    requires d < 255 && OnDIF(a, d) && 0 <= a.Int(HEADER) < 256
    ensures Key(a) == KeyOf(d, a.Int(HEADER))
  {
    ShiftedId(a.Int(DIF_ID), d);
    OrSideBySide(d, a.Int(HEADER));
  }

  lemma ShiftedId(id: int, d: nat)
    requires d < 255 && id % 0x1_0000_0000 == d
    ensures id * 256 % 0x1_0000_0000 == 256 * d
  {
    var q := id / 0x1_0000_0000;
    assert id == 0x1_0000_0000 * q + d;
    DivUnique(id * 256, 0x1_0000_0000, 256 * q, 256 * d);
  }

  lemma {:induction false} TakenOfNone(asics: seq<Asic>, d: nat, h: nat)
    requires forall i | 0 <= i < |asics| :: !TakenFor(asics[i], d, h)
    ensures TakenOf(asics, d, h) == []
  {
    if asics == [] {
    } else {
      TakenOfNone(asics[..|asics| - 1], d, h);
    }
  }

  lemma {:induction false} TakenOfOne(asics: seq<Asic>, d: nat, h: nat, i: nat)
    requires i < |asics| && TakenFor(asics[i], d, h)
    requires forall j | 0 <= j < |asics| && j != i :: !TakenFor(asics[j], d, h)
    ensures TakenOf(asics, d, h) == [asics[i]]
  {
    if i == |asics| - 1 {
      TakenOfNone(asics[..|asics| - 1], d, h);
    } else {
      TakenOfOne(asics[..|asics| - 1], d, h, i);
    }
  }

  lemma FirstsAreUnique(asics: seq<Asic>, i: nat, j: nat)
    requires i < |asics| && j < |asics| && First(asics, i) && First(asics, j) && Key(asics[i]) == Key(asics[j])
    ensures i == j
  {
  }

  /** The slot shows the frame of the first ASIC under the key. */
  lemma MapShowsFirst(index: map<nat, seq<Byte>>, asics: seq<Asic>, f: nat)
    requires AgreesWithSearch(index, asics) && Sized(index)
    requires f < |asics| && First(asics, f)
    ensures Key(asics[f]) in index && Padded(index[Key(asics[f])]) == Shown(asics[f])
  {
    var a := asics[f];
    assert Listed(asics[f]);
    assert HasKey(asics, Key(a));
    assert index[Key(a)] == Entry(a);
    assert Entry(a)[1..] == if a.kind == "HR2" then HR2.Frame(a) else MR.Frame(a);
    assert a.kind == "HR2" ==> Padded(Entry(a)) == HR2.Frame(a) + [];
  }

  /** A chip of DIF `d` under the key of header `h` is the one that the loader takes for `h`. */
  lemma OwnKey(a: Asic, d: nat, h: nat)
    requires d < 255 && 1 <= h <= 48 && OnDIF(a, d) && 1 <= a.Int(HEADER) <= 48
    ensures Key(a) == KeyOf(d, h) <==> TakenFor(a, d, h)
  {
    KeyOnDIF(a, d);
  }

  ghost function InMap(index: map<nat, seq<Byte>>, key: nat): seq<seq<Byte>>
    requires Sized(index)
  {
    if key in index then [Padded(index[key])] else []
  }

  /** For one header: the map has at least the loader's frame, and no other exactly if no stranger comes first. */
  lemma OneHeaderAgrees(index: map<nat, seq<Byte>>, asics: seq<Asic>, d: nat, h: nat)
    requires AgreesWithSearch(index, asics) && Sized(index)
    requires 1 <= d < 255 && 1 <= h <= 48 && PlainDIF(asics, d)
    ensures |InMap(index, KeyOf(d, h))| >= |FramesOf(TakenOf(asics, d, h))|
    ensures InMap(index, KeyOf(d, h)) == FramesOf(TakenOf(asics, d, h)) <==> NoStrangerAt(asics, d, KeyOf(d, h))
  {
    if j: nat :| j < |asics| && TakenFor(asics[j], d, h) {
      HeaderWithChip(index, asics, d, h, j);
    } else {
      HeaderWithoutChip(index, asics, d, h);
    }
  }

  lemma HeaderWithChip(index: map<nat, seq<Byte>>, asics: seq<Asic>, d: nat, h: nat, j: nat)
    requires AgreesWithSearch(index, asics) && Sized(index)
    requires 1 <= d < 255 && 1 <= h <= 48 && PlainDIF(asics, d)
    requires j < |asics| && TakenFor(asics[j], d, h)
    ensures |InMap(index, KeyOf(d, h))| == |FramesOf(TakenOf(asics, d, h))| == 1
    ensures InMap(index, KeyOf(d, h)) == FramesOf(TakenOf(asics, d, h)) <==> NoStrangerAt(asics, d, KeyOf(d, h))
  {
    var own := asics[j];
    assert OnDIF(asics[j], d);
    OwnKey(own, d, h);
    TakenOfOne(asics, d, h, j);
    assert FramesOf([own]) == [HR2.Frame(own)];
    var f := SomeFirst(asics, j);
    MapShowsFirst(index, asics, f);
    assert SameAsOwn(asics, d, asics[f]) <==> HR2.Frame(own) == Shown(asics[f]) by {
      forall k: nat | k < |asics| && OnDIF(asics[k], d) && Key(asics[k]) == Key(asics[f])
        ensures k == j
      {
        OwnKey(asics[k], d, h);
      }
    }
    forall i: nat | i < |asics| && First(asics, i) && Key(asics[i]) == KeyOf(d, h)
      ensures i == f
    {
      FirstsAreUnique(asics, i, f);
    }
  }

  lemma HeaderWithoutChip(index: map<nat, seq<Byte>>, asics: seq<Asic>, d: nat, h: nat)
    requires AgreesWithSearch(index, asics) && Sized(index)
    requires 1 <= d < 255 && 1 <= h <= 48 && PlainDIF(asics, d)
    requires forall j: nat | j < |asics| :: !TakenFor(asics[j], d, h)
    ensures FramesOf(TakenOf(asics, d, h)) == []
    ensures InMap(index, KeyOf(d, h)) == [] <==> NoStrangerAt(asics, d, KeyOf(d, h))
  {
    TakenOfNone(asics, d, h);
    forall k: nat | k < |asics| && OnDIF(asics[k], d)
      ensures Key(asics[k]) != KeyOf(d, h)
    {
      OwnKey(asics[k], d, h);
    }
    if HasKey(asics, KeyOf(d, h)) {
      var i: nat :| i < |asics| && Listed(asics[i]) && Key(asics[i]) == KeyOf(d, h);
      var f := SomeFirst(asics, i);
      assert !SameAsOwn(asics, d, asics[f]);
    }
  }

  lemma {:induction false} FramesOfConcat(s: seq<Asic>, t: seq<Asic>)
    ensures FramesOf(s + t) == FramesOf(s) + FramesOf(t)
  {
    if t == [] {
      assert s + t == s;
    } else {
      assert (s + t)[..|s + t| - 1] == s + t[..|t| - 1];
      FramesOfConcat(s, t[..|t| - 1]);
    }
  }

  /** The two lists line up, since no header has more frames in the loader than in the map. */
  lemma {:induction false} HeadersAgree(index: map<nat, seq<Byte>>, asics: seq<Asic>, d: nat, n: nat)
    requires AgreesWithSearch(index, asics) && Sized(index)
    requires 1 <= d < 255 && n <= 48 && PlainDIF(asics, d)
    ensures |FramesUpTo(index, d, n)| >= |Taken(asics, d, n)|
    ensures FramesUpTo(index, d, n) == FramesOf(Taken(asics, d, n)) <==>
            forall h: nat | 1 <= h <= n :: NoStrangerAt(asics, d, KeyOf(d, h))
  {
    if n == 0 {
    } else {
      HeadersAgree(index, asics, d, n - 1);
      OneHeaderAgrees(index, asics, d, n);
      FramesOfConcat(Taken(asics, d, n - 1), TakenOf(asics, d, n));
      LinesUp(FramesUpTo(index, d, n - 1), InMap(index, KeyOf(d, n)),
              FramesOf(Taken(asics, d, n - 1)), FramesOf(TakenOf(asics, d, n)));
    }
  }

  lemma LinesUp(s: seq<seq<Byte>>, t: seq<seq<Byte>>, u: seq<seq<Byte>>, v: seq<seq<Byte>>)
    requires |s| >= |u| && |t| >= |v|
    ensures s + t == u + v <==> s == u && t == v
  {
    if s + t == u + v {
      assert |s + t| == |u + v|;
      assert s == (s + t)[..|s|] && u == (u + v)[..|u|];
      assert t == (s + t)[|s|..] && v == (u + v)[|u|..];
    }
  }

  /** In number, order and content, the record holds the frames that the nested-loop loader puts in its slots. */
  ghost predicate Agree(info: DIFDbInfo, taken: seq<Asic>) {
    info.nbasic == |taken| <= |info.slow| && forall i: nat | i < |taken| :: info.slow[i] == HR2.Frame(taken[i])
  }

  /**
   For a DIF of HARDROC2s with distinct headers, the two productions agree exactly when no chip of another
   DIF comes first under one of its keys with another frame.
   */
  lemma PathsAgree(index: map<nat, seq<Byte>>, asics: seq<Asic>, d: nat)
    requires AgreesWithSearch(index, asics) && Sized(index)
    requires 1 <= d < 255 && PlainDIF(asics, d)
    ensures Agree(Record(index, d), Taken(asics, d, MAX_NB_OF_ASICS)) <==> NoStranger(asics, d)
  {
    HeadersAgree(index, asics, d, 48);
    RecordShows(index, d);
    AgreeMeansEqual(Record(index, d), FramesUpTo(index, d, SLOTS), Taken(asics, d, MAX_NB_OF_ASICS));
  }

  lemma AgreeMeansEqual(info: DIFDbInfo, frames: seq<seq<Byte>>, taken: seq<Asic>)
    requires info.nbasic == |frames| && frames <= info.slow
    ensures Agree(info, taken) <==> frames == FramesOf(taken)
  {
    forall i: nat | i < |taken|
      ensures FramesOf(taken)[i] == HR2.Frame(taken[i])
    {
      FramesOfAt(taken, i);
    }
    assert Agree(info, taken) ==> forall i | 0 <= i < |taken| :: frames[i] == FramesOf(taken)[i];
  }

  lemma RecordShows(index: map<nat, seq<Byte>>, d: nat)
    requires Sized(index) && 1 <= d < 255
    ensures Record(index, d).nbasic == |FramesUpTo(index, d, SLOTS)|
    ensures FramesUpTo(index, d, SLOTS) <= Record(index, d).slow
  {
    if !HasId(index, d) {
      NoIdNoFrames(index, d);
    }
  }

  lemma NoIdNoFrames(index: map<nat, seq<Byte>>, d: nat)
    requires Sized(index) && !HasId(index, d) && d < 255
    ensures FramesUpTo(index, d, SLOTS) == []
  {
    forall h: nat | 1 <= h <= 48
      ensures KeyOf(d, h) !in index
    {
      KeyParts(d, h);
    }
    assert Headers(index, d, 48) == {};
    FramesCount(index, d, 48);
  }

  /** Byte-sized headers are enough: then the two productions agree. */
  lemma PlainHeadersAgree(index: map<nat, seq<Byte>>, asics: seq<Asic>, d: nat)
    requires AgreesWithSearch(index, asics) && Sized(index)
    requires 1 <= d < 255 && PlainDIF(asics, d)
    requires forall i | 0 <= i < |asics| && Listed(asics[i]) ::
               0 <= asics[i].Int(DIF_ID) < 0x100_0000 && 0 <= asics[i].Int(HEADER) < 256
    ensures Agree(Record(index, d), Taken(asics, d, MAX_NB_OF_ASICS))
  {
    forall h: nat | 1 <= h <= 48
      ensures NoStrangerAt(asics, d, KeyOf(d, h))
    {
      PlainChipsAreOwn(asics, d, h);
    }
    PathsAgree(index, asics, d);
  }

  lemma PlainChipsAreOwn(asics: seq<Asic>, d: nat, h: nat)
    requires 1 <= d < 255 && 1 <= h <= 48 && PlainDIF(asics, d)
    requires forall i | 0 <= i < |asics| && Listed(asics[i]) ::
               0 <= asics[i].Int(DIF_ID) < 0x100_0000 && 0 <= asics[i].Int(HEADER) < 256
    ensures NoStrangerAt(asics, d, KeyOf(d, h))
  {
    forall i: nat | i < |asics| && First(asics, i) && Key(asics[i]) == KeyOf(d, h)
      ensures SameAsOwn(asics, d, asics[i])
    {
      PlainChipIsOn(asics[i], d, h);
      assert HR2.Frame(asics[i]) == Shown(asics[i]);
    }
  }

  lemma PlainChipIsOn(a: Asic, d: nat, h: nat)
    requires Listed(a) && 0 <= a.Int(DIF_ID) < 0x100_0000 && 0 <= a.Int(HEADER) < 256
    requires d < 255 && h < 256 && Key(a) == KeyOf(d, h)
    ensures OnDIF(a, d)
  {
    var id := a.Int(DIF_ID);
    PlainKey(a);
    SideBySide(id, a.Int(HEADER), d, h);
    SmallMod(id, 0x1_0000_0000);
  }

  lemma SideBySide(id: nat, header: nat, d: nat, h: nat)
    requires header < 256 && h < 256 && KeyOf(id, header) == KeyOf(d, h)
    ensures id == d && header == h
  {
  }

  /**
   A wider header breaks it: a chip of DIF 0 with header 257 is written out as chip 1 of DIF 1, where the
   loader finds nothing.
   */
  lemma WideHeaderSplitsThePaths(index: map<nat, seq<Byte>>, a: Asic)
    requires a.Int(DIF_ID) == 0 && a.Int(HEADER) == 257 && Listed(a)
    requires AgreesWithSearch(index, [a]) && Sized(index)
    ensures PlainDIF([a], 1) && !NoStranger([a], 1)
    ensures Record(index, 1).nbasic >= 1 && Taken([a], 1, MAX_NB_OF_ASICS) == []
  {
    AliasedKey(a);
    assert [a][0] == a && Listed([a][0]);
    assert HasKey([a], KeyOf(1, 1));
    RecordHoldsEveryFrame(index, 1, 1);
    NothingOnDIF([a], 1, MAX_NB_OF_ASICS);
    PathsAgree(index, [a], 1);
  }

  lemma AliasedKey(a: Asic)
    requires a.Int(DIF_ID) == 0 && a.Int(HEADER) == 257
    ensures Key(a) == KeyOf(1, 1)
  {
    var b := a.WithInt(DIF_ID, 1).WithInt(HEADER, 1);
    WideHeaderAliases(a, b);
    PlainKey(b);
  }

  lemma {:induction false} NothingOnDIF(asics: seq<Asic>, d: nat, n: nat)
    requires forall i | 0 <= i < |asics| :: !OnDIF(asics[i], d)
    ensures Taken(asics, d, n) == []
  {
    if n == 0 {
    } else {
      NothingOnDIF(asics, d, n - 1);
      TakenOfNone(asics, d, n);
    }
  }

  // ---------- how many chips, and on which lines ----------

  /** The enabled ASICs of DIF `d` with headers 1 to 48 are chips with distinct headers. */
  predicate SingleHeaders(asics: seq<Asic>, d: nat) {
    && (forall i | 0 <= i < |asics| && InReach(asics[i], d) :: Listed(asics[i]))
    && (forall i, j | 0 <= i < j < |asics| && InReach(asics[i], d) && InReach(asics[j], d) ::
          asics[i].Int(HEADER) != asics[j].Int(HEADER))
  }

  predicate InReach(a: Asic, d: nat) {
    OnDIF(a, d) && 1 <= a.Int(HEADER) <= 48
  }

  /** Every chip that the key map counts for DIF `d` has the key of one that the loader takes. */
  predicate OwnKeysOnly(asics: seq<Asic>, d: nat) {
    forall i: nat | i < |asics| && Listed(asics[i]) && IdOf(Key(asics[i])) == d :: HasOwnKey(asics, d, Key(asics[i]))
  }

  predicate HasOwnKey(asics: seq<Asic>, d: nat, key: nat) {
    exists j: nat | j < |asics| :: InReach(asics[j], d) && Key(asics[j]) == key
  }

  /** The keys of the ASICs that the loader takes for headers 1 to `n`. */
  function OwnKeys(asics: seq<Asic>, d: nat, n: nat): set<nat> {
    if n == 0 then {}
    else OwnKeys(asics, d, n - 1) + (if TakenOf(asics, d, n) == [] then {} else {KeyOf(d, n)})
  }

  lemma TakenOfSingle(asics: seq<Asic>, d: nat, h: nat)
    requires SingleHeaders(asics, d) && 1 <= h <= 48
    ensures |TakenOf(asics, d, h)| <= 1
    ensures TakenOf(asics, d, h) != [] <==> exists j: nat :: j < |asics| && TakenFor(asics[j], d, h)
  {
    if j: nat :| j < |asics| && TakenFor(asics[j], d, h) {
      assert InReach(asics[j], d);
      forall i | 0 <= i < |asics| && i != j
        ensures !TakenFor(asics[i], d, h)
      {
        assert InReach(asics[i], d) ==> asics[i].Int(HEADER) != asics[j].Int(HEADER);
      }
      TakenOfOne(asics, d, h, j);
    } else {
      TakenOfNone(asics, d, h);
    }
  }

  lemma {:induction false} OwnKeysCount(asics: seq<Asic>, d: nat, n: nat)
    requires SingleHeaders(asics, d) && n <= 48
    ensures |OwnKeys(asics, d, n)| == |Taken(asics, d, n)|
    ensures forall key :: key in OwnKeys(asics, d, n) ==> key <= KeyOf(d, n)
  {
    if n > 0 {
      OwnKeysCount(asics, d, n - 1);
      TakenOfSingle(asics, d, n);
    }
  }

  lemma {:induction false} OwnKeysMembers(asics: seq<Asic>, d: nat, n: nat, key: nat)
    requires SingleHeaders(asics, d) && n <= 48 && d < 255
    ensures key in OwnKeys(asics, d, n) <==> exists j: nat :: j < |asics| && IsOwn(asics[j], d, n) && Key(asics[j]) == key
  {
    if n > 0 {
      OwnKeysMembers(asics, d, n - 1, key);
      TakenOfSingle(asics, d, n);
      forall j: nat | j < |asics| && IsOwn(asics[j], d, n)
        ensures IsOwn(asics[j], d, n - 1) || (TakenFor(asics[j], d, n) && Key(asics[j]) == KeyOf(d, n))
      {
        OwnKey(asics[j], d, asics[j].Int(HEADER));
      }
      forall j: nat | j < |asics| && TakenFor(asics[j], d, n)
        ensures IsOwn(asics[j], d, n) && Key(asics[j]) == KeyOf(d, n)
      {
        OwnKey(asics[j], d, n);
      }
    }
  }

  predicate IsOwn(a: Asic, d: nat, n: nat) {
    OnDIF(a, d) && 1 <= a.Int(HEADER) <= n
  }

  /**
   The loader counts no more chips than the key map has for the DIF, and as many exactly when no other chip, of
   another DIF or with a header beyond 48, has a key that is counted for this DIF.
   */
  lemma CountsAgree(index: map<nat, seq<Byte>>, asics: seq<Asic>, d: nat)
    requires AgreesWithSearch(index, asics) && d < 255 && SingleHeaders(asics, d)
    ensures |Taken(asics, d, MAX_NB_OF_ASICS)| <= |KeysOfDif(index.Keys, d)|
    ensures |Taken(asics, d, MAX_NB_OF_ASICS)| == |KeysOfDif(index.Keys, d)| <==> OwnKeysOnly(asics, d)
  {
    var own, all := OwnKeys(asics, d, 48), KeysOfDif(index.Keys, d);
    OwnKeysCount(asics, d, 48);
    OwnKeysAreCounted(index, asics, d);
    SubsetSize(own, all);
    if OwnKeysOnly(asics, d) {
      forall key | key in all
        ensures key in own
      {
        OwnKeysMembers(asics, d, 48, key);
        assert HasKey(asics, key);
      }
    } else {
      var i: nat :| i < |asics| && Listed(asics[i]) && IdOf(Key(asics[i])) == d && !HasOwnKey(asics, d, Key(asics[i]));
      OwnKeysMembers(asics, d, 48, Key(asics[i]));
      assert HasKey(asics, Key(asics[i]));
    }
  }

  lemma KeyParts(d: nat, h: nat)
    requires d < 256 && h < 256
    ensures IdOf(KeyOf(d, h)) == d
  {
    DivUnique(KeyOf(d, h), 256, d, h);
    SmallMod(d, 256);
  }

  lemma OwnKeysAreCounted(index: map<nat, seq<Byte>>, asics: seq<Asic>, d: nat)
    requires AgreesWithSearch(index, asics) && d < 255 && SingleHeaders(asics, d)
    ensures OwnKeys(asics, d, 48) <= KeysOfDif(index.Keys, d)
  {
    forall key | key in OwnKeys(asics, d, 48)
      ensures key in KeysOfDif(index.Keys, d)
    {
      OwnKeysMembers(asics, d, 48, key);
      var j: nat :| j < |asics| && IsOwn(asics[j], d, 48) && Key(asics[j]) == key;
      assert InReach(asics[j], d);
      OwnKey(asics[j], d, asics[j].Int(HEADER));
      KeyParts(d, asics[j].Int(HEADER));
      assert HasKey(asics, key);
    }
  }

  lemma {:induction false} SubsetSize(s: set<nat>, t: set<nat>)
    requires s <= t
    ensures |s| <= |t| && (|s| == |t| <==> s == t)
  {
    var rest := t - s;
    assert t == s + rest;
    assert s == t <==> rest == {};
  }

  /** So the sums of the line counts agree, as long as they fit a byte, under the same condition. */
  lemma SumsAgree(index: map<nat, seq<Byte>>, asics: seq<Asic>, d: nat)
    requires AgreesWithSearch(index, asics) && d < 255 && SingleHeaders(asics, d)
    requires |KeysOfDif(index.Keys, d)| < 256
    ensures NonEmpty(index) && |Taken(asics, d, MAX_NB_OF_ASICS)| <= 48
    ensures LinesOf(index, d).Sum() == Serpentine(|Taken(asics, d, MAX_NB_OF_ASICS)|).Sum() <==> OwnKeysOnly(asics, d)
  {
    AtMostOnePerHeader(asics, d, 48);
    CountsAgree(index, asics, d);
    LinesSum(index, asics, d);
    SerpentineIsFair(|Taken(asics, d, MAX_NB_OF_ASICS)|);
  }

  /** DIF and header of every chip fit a byte. */
  predicate ByteSized(asics: seq<Asic>) {
    forall i | 0 <= i < |asics| && Listed(asics[i]) :: 0 <= asics[i].Int(DIF_ID) < 256 && 0 <= asics[i].Int(HEADER) < 256
  }

  lemma ByteSizedChip(asics: seq<Asic>, d: nat, i: nat)
    requires ByteSized(asics) && PlainDIF(asics, d) && d < 255
    requires i < |asics| && Listed(asics[i]) && IdOf(Key(asics[i])) == d
    ensures InReach(asics[i], d) && asics[i].kind == "HR2"
  {
    var id := asics[i].Int(DIF_ID);
    PlainKey(asics[i]);
    DivUnique(KeyOf(id, asics[i].Int(HEADER)), 256, id, asics[i].Int(HEADER));
    SmallMod(id, 256);
    SmallMod(id, 0x1_0000_0000);
    assert OnDIF(asics[i], d);
  }

  lemma PlainDIFHasSingleHeaders(asics: seq<Asic>, d: nat)
    requires PlainDIF(asics, d)
    ensures SingleHeaders(asics, d)
  {
  }

  /** On a plain DIF, with bytes throughout, the counts agree ... */
  lemma ByteSizedCountsAgree(index: map<nat, seq<Byte>>, asics: seq<Asic>, d: nat)
    requires AgreesWithSearch(index, asics) && d < 255 && PlainDIF(asics, d) && ByteSized(asics)
    ensures |Taken(asics, d, MAX_NB_OF_ASICS)| == |KeysOfDif(index.Keys, d)|
  {
    PlainDIFHasSingleHeaders(asics, d);
    forall i: nat | i < |asics| && Listed(asics[i]) && IdOf(Key(asics[i])) == d
      ensures HasOwnKey(asics, d, Key(asics[i]))
    {
      ByteSizedChip(asics, d, i);
    }
    CountsAgree(index, asics, d);
  }

  lemma EveryKeyIsOfHardRoc2(index: map<nat, seq<Byte>>, asics: seq<Asic>, d: nat)
    requires AgreesWithSearch(index, asics) && d < 255 && PlainDIF(asics, d) && ByteSized(asics)
    ensures forall key :: key in index && IdOf(key) == d ==> |index[key]| > 0 && index[key][0] == 109
  {
    forall key | key in index && IdOf(key) == d
      ensures |index[key]| > 0 && index[key][0] == 109
    {
      var i: nat :| i < |asics| && Listed(asics[i]) && Key(asics[i]) == key;
      var f := SomeFirst(asics, i);
      ByteSizedChip(asics, d, f);
      assert index[key] == Entry(asics[f]);
    }
  }

  lemma SerpentineOnOneLine(n: nat)
    requires n < 256
    ensures Serpentine(n) == Counts(n, 0, 0, 0) <==> n <= 1
  {
    SerpentineCount(n, 1);
    SerpentineCount(n, 2);
    SerpentineCount(n, 3);
    SerpentineCount(n, 4);
  }

  lemma PackIsInjective(c: Counts, e: Counts)
    ensures PackCounts(c) == PackCounts(e) <==> c == e
  {
    PackRoundTrip(c);
    PackRoundTrip(e);
  }

  /** ... but the loader's packed lines are those of `download` only if there is at most one chip. */
  lemma LinesAgreeForAtMostOneChip(index: map<nat, seq<Byte>>, asics: seq<Asic>, d: nat)
    requires AgreesWithSearch(index, asics) && d < 255 && PlainDIF(asics, d) && ByteSized(asics)
    ensures NonEmpty(index) && |Taken(asics, d, MAX_NB_OF_ASICS)| <= 48
    ensures PackCounts(Serpentine(|Taken(asics, d, MAX_NB_OF_ASICS)|)) == PackCounts(LinesOf(index, d)) <==>
            |Taken(asics, d, MAX_NB_OF_ASICS)| <= 1
  {
    PlainDIFHasSingleHeaders(asics, d);
    AtMostOnePerHeader(asics, d, 48);
    ByteSizedCountsAgree(index, asics, d);
    EveryKeyIsOfHardRoc2(index, asics, d);
    var n := |Taken(asics, d, MAX_NB_OF_ASICS)|;
    LinesOfUniformDIF(index, asics, d, 109);
    SerpentineOnOneLine(n);
    PackIsInjective(Serpentine(n), LinesOf(index, d));
  }

  lemma {:induction false} AtMostOnePerHeader(asics: seq<Asic>, d: nat, n: nat)
    requires SingleHeaders(asics, d) && n <= 48
    ensures |Taken(asics, d, n)| <= n
  {
    if n > 0 {
      AtMostOnePerHeader(asics, d, n - 1);
      TakenOfSingle(asics, d, n);
    }
  }

  /** Two chips on one DIF: the loader puts the second on line 2, `download` on line 1. */
  lemma TwoChipsOnDifferentLines(index: map<nat, seq<Byte>>, a: Asic, b: Asic)
    requires a.kind == b.kind == "HR2" && Enabled(a) && Enabled(b)
    requires a.Int(DIF_ID) == b.Int(DIF_ID) == 1 && a.Int(HEADER) == 1 && b.Int(HEADER) == 2
    requires AgreesWithSearch(index, [a, b])
    ensures NonEmpty(index)
    ensures |Taken([a, b], 1, MAX_NB_OF_ASICS)| == 2
    ensures PackCounts(Serpentine(2)) == 0x101 && PackCounts(LinesOf(index, 1)) == 2
  {
    TwoPlainChips(a, b);
    TwoKeys(index, a, b);
    ByteSizedCountsAgree(index, [a, b], 1);
    EveryKeyIsOfHardRoc2(index, [a, b], 1);
    LinesOfUniformDIF(index, [a, b], 1, 109);
    SerpentineCount(2, 1);
    SerpentineCount(2, 2);
    SerpentineCount(2, 3);
    SerpentineCount(2, 4);
  }

  lemma TwoPlainChips(a: Asic, b: Asic)
    requires a.kind == b.kind == "HR2"
    requires a.Int(DIF_ID) == b.Int(DIF_ID) == 1 && a.Int(HEADER) == 1 && b.Int(HEADER) == 2
    ensures PlainDIF([a, b], 1) && ByteSized([a, b])
  {
  }

  lemma TwoKeys(index: map<nat, seq<Byte>>, a: Asic, b: Asic)
    requires AgreesWithSearch(index, [a, b]) && Listed(a) && Listed(b)
    requires a.Int(DIF_ID) == b.Int(DIF_ID) == 1 && a.Int(HEADER) == 1 && b.Int(HEADER) == 2
    ensures |KeysOfDif(index.Keys, 1)| == 2
  {
    var keys := {KeyOf(1, 1), KeyOf(1, 2)};
    KeysOfTwo(a, b, keys);
    KeyParts(1, 1);
    KeyParts(1, 2);
    CountedKeys(index, [a, b], 1, keys);
  }

  /** When linear search finds just these keys, all of one DIF, the map has just these for the DIF. */
  lemma CountedKeys(index: map<nat, seq<Byte>>, asics: seq<Asic>, d: nat, keys: set<nat>)
    requires AgreesWithSearch(index, asics) && forall key :: HasKey(asics, key) <==> key in keys
    requires forall key :: key in keys ==> IdOf(key) == d
    ensures KeysOfDif(index.Keys, d) == keys
  {
  }

  lemma KeysOfTwo(a: Asic, b: Asic, keys: set<nat>)
    requires Listed(a) && Listed(b) && keys == {KeyOf(1, 1), KeyOf(1, 2)}
    requires a.Int(DIF_ID) == b.Int(DIF_ID) == 1 && a.Int(HEADER) == 1 && b.Int(HEADER) == 2
    ensures forall key :: HasKey([a, b], key) <==> key in keys
  {
    PlainKey(a);
    PlainKey(b);
    OnlyKey(a);
    KeysOfAppend([a], b);
    assert [a] + [b] == [a, b];
  }

  lemma OnlyKey(a: Asic)
    ensures forall key :: HasKey([a], key) <==> Listed(a) && Key(a) == key
  {
    KeysOfAppend([], a);
    assert [] + [a] == [a];
  }

  /** A chip with header 49 is counted by `download`, and taken by no loader. */
  lemma HeaderBeyondReach(index: map<nat, seq<Byte>>, a: Asic)
    requires Listed(a) && a.Int(DIF_ID) == 1 && a.Int(HEADER) == 49
    requires AgreesWithSearch(index, [a])
    ensures SingleHeaders([a], 1) && !OwnKeysOnly([a], 1)
    ensures Taken([a], 1, MAX_NB_OF_ASICS) == [] && |KeysOfDif(index.Keys, 1)| == 1
  {
    OneKey(index, a);
    OutOfReach(a, 1, MAX_NB_OF_ASICS);
    CountsAgree(index, [a], 1);
  }

  lemma OneKey(index: map<nat, seq<Byte>>, a: Asic)
    requires AgreesWithSearch(index, [a])
    requires Listed(a) && a.Int(DIF_ID) == 1 && a.Int(HEADER) == 49
    ensures |KeysOfDif(index.Keys, 1)| == 1
  {
    var keys := {KeyOf(1, 49)};
    KeyOfOne(a, keys);
    KeyParts(1, 49);
    CountedKeys(index, [a], 1, keys);
  }

  lemma KeyOfOne(a: Asic, keys: set<nat>)
    requires Listed(a) && a.Int(DIF_ID) == 1 && a.Int(HEADER) == 49 && keys == {KeyOf(1, 49)}
    ensures forall key :: HasKey([a], key) <==> key in keys
  {
    PlainKey(a);
    OnlyKey(a);
  }

  lemma {:induction false} OutOfReach(a: Asic, d: nat, n: nat)
    requires a.Int(HEADER) > n
    ensures Taken([a], d, n) == []
  {
    if n > 0 {
      OutOfReach(a, d, n - 1);
      TakenOfNone([a], d, n);
    }
  }

  // ---------- the methods together ----------

  /** Downloading and asking gives the number of keys of a listed DIF. */
  method DownloadAndCount(db: OracleDIFDBInterface, d: nat) returns (n: nat)
    requires |db.theDIFs| <= 255 && d in db.theDIFs && d !in db.maskedDIFs
    modifies db`theDifMap, db`theAsicKeyMap, db`theNumberOfAsicsMap
    ensures AgreesWithSearch(db.theAsicKeyMap, db.asics)
    ensures |KeysOfDif(db.theAsicKeyMap.Keys, d)| < 256 ==> n == |KeysOfDif(db.theAsicKeyMap.Keys, d)|
  {
    var ended := db.Download(|db.theDIFs|);
    UnmaskedWhole(db.theDIFs, db.maskedDIFs, d);
    ghost var counts := db.theNumberOfAsicsMap;
    StoredCount(db.theAsicKeyMap, db.asics, counts, d);
    n := db.GetAsicsNumber(d);
  }

  lemma UnmaskedWhole(difs: seq<nat>, masked: set<nat>, d: nat)
    requires d in difs && d !in masked && |difs| <= 255
    ensures d in Unmasked(difs[..Reached(|difs|, |difs|)], masked)
  {
    assert difs[..|difs|] == difs;
  }

  lemma StoredCount(index: map<nat, seq<Byte>>, asics: seq<Asic>, counts: map<nat, nat>, d: nat)
    requires AgreesWithSearch(index, asics) && NonEmpty(index) && CountsStored(counts, index) && d in counts
    ensures |KeysOfDif(index.Keys, d)| < 256 ==> UnpackedSum(counts[d]) == |KeysOfDif(index.Keys, d)|
  {
    if |KeysOfDif(index.Keys, d)| < 256 {
      LinesSum(index, asics, d);
      UnpackedSumOfPacked(LinesOf(index, d));
    }
  }

  /** Both productions of the frames of a DIF: the slots of the loader are those of the record. */
  method ProduceTwice(db: OracleDIFDBInterface, d: nat) returns (frames: array<Byte>, infos: array<DIFDbInfo>)
    requires |db.theDIFs| <= 255 && 1 <= d < 255 && PlainDIF(db.asics, d) && NoStranger(db.asics, d)
    requires forall i | 0 <= i < |db.asics| && Listed(db.asics[i]) :: IdOf(Key(db.asics[i])) < 255
    modifies db`theDifMap, db`theAsicKeyMap, db`theNumberOfAsicsMap
    ensures Slots(frames) && infos.Length == 255
    ensures infos[d].nbasic == |Taken(db.asics, d, MAX_NB_OF_ASICS)| <= MAX_NB_OF_ASICS && |infos[d].slow| == SLOTS
    ensures forall i: nat | i < infos[d].nbasic :: infos[d].slow[i] == HR2.FrameOf(frames[..], i)
  {
    var ended := db.Download(|db.theDIFs|);
    ghost var index, taken := db.theAsicKeyMap, Taken(db.asics, d, MAX_NB_OF_ASICS);
    ReadyToCompare(index, db.asics, d);
    infos := db.DumpToTree();
    frames := new Byte[MAX_NB_OF_ASICS * HARDROCV2_SLC_FRAME_SIZE](_ => 0);
    ghost var before := frames[..];
    var packed := db.LoadDIFHardrocV2Parameters(d, frames);
    SlotsAgree(frames[..], before, infos[d], taken);
  }

  lemma ReadyToCompare(index: map<nat, seq<Byte>>, asics: seq<Asic>, d: nat)
    requires AgreesWithSearch(index, asics) && 1 <= d < 255 && PlainDIF(asics, d) && NoStranger(asics, d)
    requires forall i | 0 <= i < |asics| && Listed(asics[i]) :: IdOf(Key(asics[i])) < 255
    ensures Sized(index) && forall key :: key in index ==> IdOf(key) < 255
    ensures Agree(Record(index, d), Taken(asics, d, MAX_NB_OF_ASICS)) && |Record(index, d).slow| == SLOTS
    ensures |Taken(asics, d, MAX_NB_OF_ASICS)| <= MAX_NB_OF_ASICS
  {
    AgreeingMapIsSized(index, asics);
    PathsAgree(index, asics, d);
    PlainDIFHasSingleHeaders(asics, d);
    AtMostOnePerHeader(asics, d, 48);
  }

  lemma SlotsAgree(frames: seq<Byte>, before: seq<Byte>, info: DIFDbInfo, taken: seq<Asic>)
    requires |frames| == |before| == MAX_NB_OF_ASICS * HARDROCV2_SLC_FRAME_SIZE && |taken| <= MAX_NB_OF_ASICS
    requires SlotsLoaded(frames, before, false, taken) && Agree(info, taken)
    ensures forall i: nat | i < info.nbasic :: info.slow[i] == HR2.FrameOf(frames, i)
  {
  }
}
