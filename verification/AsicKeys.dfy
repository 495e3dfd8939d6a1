/**
 The keys under which frames are kept, and the two ways of finding the frame of an ASIC: the first
 match in the configuration vector, and the key map.
 */
module AsicKeys {
  import opened Bits
  import opened Frames
  import opened Asics
  import HR2 = HardRoc2
  import MR = MicroRoc

  /** `(uint32_t) (getInt("DIF_ID") << 8 | getInt("HEADER"))` */
  function Key(a: Asic): nat {
    Or((a.Int(DIF_ID) * 256) % 0x1_0000_0000, a.Int(HEADER) % 0x1_0000_0000)
  }

  /** `(id << 8) | header`, for a byte-sized header. */
  function KeyOf(id: nat, header: nat): nat {
    id * 256 + header
  }

  /** `(key >> 8) & 0xFF` */
  function IdOf(key: nat): nat {
    key / 256 % 256
  }

  lemma {:induction false} OrDisjoint(x: nat, y: nat, n: nat)
    requires y < Pow2(n)
    ensures Or(Pow2(n) * x, y) == Pow2(n) * x + y
    decreases n
  {
    if n == 0 {
      OrZero(x);
    } else {
      var h := Pow2(n - 1) * x;
      assert Pow2(n) * x == 2 * h;
      OrDisjoint(x, y / 2, n - 1);
    }
  }

  lemma {:induction false} OrZero(x: nat)
    ensures Or(x, 0) == x
  {
    if x == 0 {
    } else {
      OrZero(x / 2);
    }
  }

  /** With a byte-sized header the key is the DIF id and the header side by side. */
  lemma PlainKey(a: Asic)
    requires 0 <= a.Int(DIF_ID) < 0x100_0000 && 0 <= a.Int(HEADER) < 256
    ensures Key(a) == KeyOf(a.Int(DIF_ID), a.Int(HEADER))
  {
    var id, header := a.Int(DIF_ID), a.Int(HEADER);
    assert (id * 256) % 0x1_0000_0000 == 256 * id && header % 0x1_0000_0000 == header;
    OrSideBySide(id, header);
  }

  lemma OrSideBySide(x: nat, y: nat)
    requires y < 256
    ensures Or(256 * x, y) == 256 * x + y
  {
    ByteRange();
    OrDisjoint(x, y, 8);
  }

  /** Byte-sized headers cannot be confused: such ASICs have the same key only if they are the same chip. */
  lemma PlainKeysAreInjective(a: Asic, b: Asic)
    requires 0 <= a.Int(DIF_ID) < 0x100_0000 && 0 <= a.Int(HEADER) < 256
    requires 0 <= b.Int(DIF_ID) < 0x100_0000 && 0 <= b.Int(HEADER) < 256
    ensures Key(a) == Key(b) <==> a.Int(DIF_ID) == b.Int(DIF_ID) && a.Int(HEADER) == b.Int(HEADER)
  {
    PlainKey(a);
    PlainKey(b);
  }

  /** A wider header reaches into the DIF id: chip 257 of DIF 0 has the key of chip 1 of DIF 1. */
  lemma WideHeaderAliases(a: Asic, b: Asic)
    requires a.Int(DIF_ID) == 0 && a.Int(HEADER) == 257
    requires b.Int(DIF_ID) == 1 && b.Int(HEADER) == 1
    ensures Key(a) == Key(b)
  {
    PlainKey(b);
    KeyOfDIF0(a);
  }

  lemma KeyOfDIF0(a: Asic)
    requires a.Int(DIF_ID) == 0 && 0 <= a.Int(HEADER) < 0x1_0000_0000
    ensures Key(a) == a.Int(HEADER)
  {
    var header := a.Int(HEADER);
    assert header % 0x1_0000_0000 == header;
    OrFromZero(header);
  }

  lemma {:induction false} OrFromZero(y: nat)
    ensures Or(0, y) == y
  {
    if y == 0 {
    } else {
      OrFromZero(y / 2);
    }
  }

  // ---------- what is kept for an ASIC ----------

  predicate Enabled(a: Asic) {
    a.Int(ENABLED) != 0
  }

  /** The ASICs that get a frame. */
  predicate Listed(a: Asic) {
    Enabled(a) && (a.kind == "HR2" || a.kind == "MR")
  }

  /** The buffer kept for an ASIC: the size of its frame, and the frame. */
  function Entry(a: Asic): (e: seq<Byte>)
    requires Listed(a)
    ensures |e| > 0 && |e| - 1 == e[0]
  {
    if a.kind == "HR2" then [109] + HR2.Frame(a) else [74] + MR.Frame(a)
  }

  /** Linear search: `i` is the first ASIC of the vector that gets a frame under its key. */
  predicate First(asics: seq<Asic>, i: nat)
    requires i < |asics|
  {
    && Listed(asics[i])
    && (forall j | 0 <= j < i :: Listed(asics[j]) ==> Key(asics[j]) != Key(asics[i]))
  }

  /** Some ASIC gets a frame under `key`. */
  predicate HasKey(asics: seq<Asic>, key: nat) {
    exists i: nat | i < |asics| :: Listed(asics[i]) && Key(asics[i]) == key
  }

  /** `index` is `before` with every key that linear search finds and `before` lacks. */
  ghost predicate Extends(before: map<nat, seq<Byte>>, index: map<nat, seq<Byte>>, asics: seq<Asic>) {
    && (forall key :: key in index <==> key in before || HasKey(asics, key))
    && (forall key :: key in before ==> index[key] == before[key])
    && (forall i: nat | i < |asics| && First(asics, i) && Key(asics[i]) !in before :: index[Key(asics[i])] == Entry(asics[i]))
  }

  /** The map `index` holds exactly what linear search through `asics` finds. */
  ghost predicate AgreesWithSearch(index: map<nat, seq<Byte>>, asics: seq<Asic>) {
    Extends(map[], index, asics)
  }

  /** Every key that is found at all is found first somewhere. */
  lemma {:induction false} SomeFirst(asics: seq<Asic>, i: nat) returns (f: nat)
    requires i < |asics| && Listed(asics[i])
    ensures f <= i && First(asics, f) && Key(asics[f]) == Key(asics[i])
    decreases i
  {
    if j: nat :| j < i && Listed(asics[j]) && Key(asics[j]) == Key(asics[i]) {
      f := SomeFirst(asics, j);
    } else {
      f := i;
    }
  }

  /** So what the map holds is determined by the vector. */
  lemma SearchDeterminesIndex(m: map<nat, seq<Byte>>, n: map<nat, seq<Byte>>, asics: seq<Asic>)
    requires AgreesWithSearch(m, asics) && AgreesWithSearch(n, asics)
    ensures m == n
  {
    forall key | key in m
      ensures key in n && m[key] == n[key]
    {
      var i: nat :| i < |asics| && Listed(asics[i]) && Key(asics[i]) == key;
      var f := SomeFirst(asics, i);
    }
  }

  lemma KeysOfAppend(asics: seq<Asic>, a: Asic)
    ensures forall key :: HasKey(asics + [a], key) <==> HasKey(asics, key) || (Listed(a) && Key(a) == key)
    ensures forall i: nat | i < |asics| :: First(asics + [a], i) == First(asics, i)
    ensures First(asics + [a], |asics|) <==> Listed(a) && !HasKey(asics, Key(a))
  {
    var more := asics + [a];
    forall key
      ensures HasKey(more, key) <==> HasKey(asics, key) || (Listed(a) && Key(a) == key)
    {
      if HasKey(asics, key) {
        var i: nat :| i < |asics| && Listed(asics[i]) && Key(asics[i]) == key;
        assert more[i] == asics[i];
      }
      if Listed(a) && Key(a) == key {
        assert more[|asics|] == a;
      }
    }
    forall i: nat | i < |asics|
      ensures First(more, i) == First(asics, i)
    {
      assert forall j | 0 <= j <= i :: more[j] == asics[j];
    }
    assert First(more, |asics|) <==> Listed(a) && !HasKey(asics, Key(a)) by {
      assert forall j | 0 <= j < |asics| :: more[j] == asics[j];
    }
  }

  /** An ASIC that is not listed, or whose key is taken, changes nothing. */
  lemma ExtendsPast(before: map<nat, seq<Byte>>, index: map<nat, seq<Byte>>, asics: seq<Asic>, a: Asic)
    requires Extends(before, index, asics)
    requires !Listed(a) || Key(a) in index
    ensures Extends(before, index, asics + [a])
  {
    KeysOfAppend(asics, a);
  }

  /** A listed ASIC with a new key is added. */
  lemma ExtendsWith(before: map<nat, seq<Byte>>, index: map<nat, seq<Byte>>, asics: seq<Asic>, a: Asic)
    requires Extends(before, index, asics)
    requires Listed(a) && Key(a) !in index
    ensures Extends(before, index[Key(a) := Entry(a)], asics + [a])
  {
    KeysOfAppend(asics, a);
    var more := asics + [a];
    forall i: nat | i < |more| && First(more, i) && Key(more[i]) !in before
      ensures index[Key(a) := Entry(a)][Key(more[i])] == Entry(more[i])
    {
      if i < |asics| {
        assert First(asics, i) && HasKey(asics, Key(asics[i]));
      }
    }
  }

  /** One turn of the loading loop. */
  function WithAsic(index: map<nat, seq<Byte>>, a: Asic): map<nat, seq<Byte>> {
    if Listed(a) && Key(a) !in index then index[Key(a) := Entry(a)] else index
  }

  lemma ExtendsNext(before: map<nat, seq<Byte>>, index: map<nat, seq<Byte>>, asics: seq<Asic>, a: Asic)
    requires Extends(before, index, asics)
    ensures Extends(before, WithAsic(index, a), asics + [a])
  {
    if Listed(a) && Key(a) !in index {
      ExtendsWith(before, index, asics, a);
    } else {
      ExtendsPast(before, index, asics, a);
    }
  }

  // ---------- the same, field by field ----------

  /** The key in numbers, and the id that is read back from it. */
  lemma KeyInNumbers(a: Asic)
    requires 0 <= a.Int(DIF_ID) < 0x100_0000 && 0 <= a.Int(HEADER) < 256
    ensures Key(a) == 256 * a.Int(DIF_ID) + a.Int(HEADER) && IdOf(Key(a)) == a.Int(DIF_ID) % 256
  {
    PlainKey(a);
    DivUnique(Key(a), 256, a.Int(DIF_ID), a.Int(HEADER));
  }

  /**
   Every key that is added is that of an ASIC of type HR2 or MR whose field ENABLED is not zero, and every such
   ASIC has its key in the map.
   */
  lemma KeysOfEnabledChips(before: map<nat, seq<Byte>>, index: map<nat, seq<Byte>>, asics: seq<Asic>)
    requires Extends(before, index, asics)
    ensures forall key | key in index && key !in before ::
              exists i :: 0 <= i < |asics| && Key(asics[i]) == key && asics[i].Int(ENABLED) != 0 &&
                          (asics[i].kind == "HR2" || asics[i].kind == "MR")
    ensures forall i | 0 <= i < |asics| && asics[i].Int(ENABLED) != 0 && (asics[i].kind == "HR2" || asics[i].kind == "MR") ::
              Key(asics[i]) in index
  {
    forall key | key in index && key !in before
      ensures exists i :: 0 <= i < |asics| && Key(asics[i]) == key && asics[i].Int(ENABLED) != 0 &&
                          (asics[i].kind == "HR2" || asics[i].kind == "MR")
    {
      assert HasKey(asics, key);
      var i: nat :| i < |asics| && Listed(asics[i]) && Key(asics[i]) == key;
      assert asics[i].Int(ENABLED) != 0;
    }
    forall i | 0 <= i < |asics| && asics[i].Int(ENABLED) != 0 && (asics[i].kind == "HR2" || asics[i].kind == "MR")
      ensures Key(asics[i]) in index
    {
      assert Listed(asics[i]);
      assert HasKey(asics, Key(asics[i]));
    }
  }

  /** The bytes of a key are those of the first such ASIC. */
  lemma BytesOfFirstChip(index: map<nat, seq<Byte>>, asics: seq<Asic>, i: nat)
    requires AgreesWithSearch(index, asics) && i < |asics|
    requires asics[i].Int(ENABLED) != 0 && (asics[i].kind == "HR2" || asics[i].kind == "MR")
    requires forall j | 0 <= j < i && asics[j].Int(ENABLED) != 0 && (asics[j].kind == "HR2" || asics[j].kind == "MR") ::
               Key(asics[j]) != Key(asics[i])
    ensures Key(asics[i]) in index
    ensures index[Key(asics[i])] == if asics[i].kind == "HR2" then [109] + HR2.Frame(asics[i]) else [74] + MR.Frame(asics[i])
  {
    assert First(asics, i);
    assert HasKey(asics, Key(asics[i]));
    assert index[Key(asics[i])] == Entry(asics[i]);
  }

  /** With every ASIC disabled nothing is added. */
  lemma NothingEnabled(before: map<nat, seq<Byte>>, index: map<nat, seq<Byte>>, asics: seq<Asic>)
    requires Extends(before, index, asics) && forall i | 0 <= i < |asics| :: asics[i].Int(ENABLED) == 0
    ensures index == before
  {
    forall key
      ensures !HasKey(asics, key)
    {
    }
  }

  /** One turn of the loading loop, field by field. */
  lemma WithAsicByFields(index: map<nat, seq<Byte>>, a: Asic)
    ensures a.Int(ENABLED) == 0 || (a.kind != "HR2" && a.kind != "MR") || Key(a) in index ==> WithAsic(index, a) == index
    ensures a.Int(ENABLED) != 0 && a.kind == "HR2" && Key(a) !in index ==> WithAsic(index, a) == index[Key(a) := [109] + HR2.Frame(a)]
    ensures a.Int(ENABLED) != 0 && a.kind == "MR" && Key(a) !in index ==> WithAsic(index, a) == index[Key(a) := [74] + MR.Frame(a)]
  {
  }
}
