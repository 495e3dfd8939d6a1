/**
 Counting the ASICs of a DIF, and of each of its readout lines, in one walk over the key map.
 */
module AsicCounts {
  import opened Frames
  import opened AsicKeys
  import opened Lines

  // ---------- the order in which a key map is walked ----------

  predicate IsLeast(k: nat, keys: set<nat>) {
    k in keys && forall x :: x in keys ==> k <= x
  }

  lemma {:induction false} LeastExists(keys: set<nat>)
    requires keys != {}
    ensures exists k :: IsLeast(k, keys)
  {
    var k :| k in keys;
    if keys == {k} {
      assert IsLeast(k, keys);
    } else {
      LeastExists(keys - {k});
      var rest :| IsLeast(rest, keys - {k});
      var least := if rest < k then rest else k;
      forall x | x in keys
        ensures least <= x
      {
        if x != k {
          assert x in keys - {k};
        }
      }
      assert IsLeast(least, keys);
    }
  }

  ghost function Least(keys: set<nat>): (k: nat)
    requires keys != {}
    ensures IsLeast(k, keys)
  {
    LeastExists(keys);
    var k :| IsLeast(k, keys);
    k
  }

  ghost function Ascending(keys: set<nat>): seq<nat> {
    if keys == {} then [] else [Least(keys)] + Ascending(keys - {Least(keys)})
  }

  // ---------- the walk ----------

  /** `nasics` and the four line counters. */
  datatype Tally = Tally(nasics: UInt8, lines: Counts)

  const NOTHING := Tally(0, NO_ASICS)

  /** One more key of the DIF: a HARDROC2 goes to line 1, a MICROROC along the serpentine. */
  function Tick(t: Tally, size: Byte): Tally {
    var n := Inc(t.nasics);
    if size == 109 then Tally(n, t.lines.Plus(1))
    else if size == 74 then Tally(n, t.lines.Plus(LineOf(n)))
    else t
  }

  method CountKey(t: Tally, size: Byte) returns (r: Tally)
    ensures r == Tick(t, size)
  {
    var nasics, lines := t.nasics, t.lines;
    if size == 109 {
      nasics := Inc(nasics);
      lines := lines.(l1 := Inc(lines.l1));
    } else if size == 74 {
      nasics := Inc(nasics);
      lines := CountOnLine(nasics, lines);
    }
    r := Tally(nasics, lines);
  }

  /** The counters after walking over `keys`. */
  ghost function Walk(index: map<nat, seq<Byte>>, keys: seq<nat>, d: nat): Tally
    requires forall key :: key in keys ==> key in index && |index[key]| > 0
  {
    if keys == [] then NOTHING
    else
      var t := Walk(index, keys[..|keys| - 1], d);
      var last := keys[|keys| - 1];
      if IdOf(last) == d then Tick(t, index[last][0]) else t
  }

  lemma WalkNext(index: map<nat, seq<Byte>>, keys: seq<nat>, key: nat, d: nat)
    requires forall k :: k in keys ==> k in index && |index[k]| > 0
    requires key in index && |index[key]| > 0
    ensures Walk(index, keys + [key], d) ==
            if IdOf(key) == d then Tick(Walk(index, keys, d), index[key][0]) else Walk(index, keys, d)
  {
    assert (keys + [key])[..|keys|] == keys;
  }

  lemma AscendingNext(order: seq<nat>, n: nat, todo: set<nat>, key: nat)
    requires n <= |order| && Ascending(todo) == order[n..] && IsLeast(key, todo)
    ensures n < |order| && order[n + 1..] == Ascending(todo - {key})
    ensures order[..n + 1] == order[..n] + [key]
  {
    assert Ascending(todo) == [key] + Ascending(todo - {key});
    assert order[n..][1..] == order[n + 1..];
  }

  /** How many of `keys` belong to DIF `d`. */
  function CountOf(keys: seq<nat>, d: nat): nat {
    if keys == [] then 0
    else CountOf(keys[..|keys| - 1], d) + (if IdOf(keys[|keys| - 1]) == d then 1 else 0)
  }

  ghost predicate NonEmpty(index: map<nat, seq<Byte>>) {
    forall key :: key in index ==> |index[key]| > 0
  }

  /** The line counts of DIF `d`, from the walk over the whole map. */
  ghost function LinesOf(index: map<nat, seq<Byte>>, d: nat): Counts
    requires NonEmpty(index)
  {
    AscendingElements(index.Keys);
    Walk(index, Ascending(index.Keys), d).lines
  }

  predicate Chips(index: map<nat, seq<Byte>>, keys: seq<nat>) {
    forall key :: key in keys ==> key in index && |index[key]| > 0 && (index[key][0] == 109 || index[key][0] == 74)
  }

  /** With fewer than 256 ASICs no counter wraps: `nasics` is their number, and so is the sum of the lines. */
  lemma {:induction false} WalkCounts(index: map<nat, seq<Byte>>, keys: seq<nat>, d: nat)
    requires Chips(index, keys) && CountOf(keys, d) < 256
    ensures Walk(index, keys, d).nasics == CountOf(keys, d)
    ensures Walk(index, keys, d).lines.Sum() == CountOf(keys, d)
  {
    if keys == [] {
    } else {
      var t, last := Walk(index, keys[..|keys| - 1], d), keys[|keys| - 1];
      WalkCounts(index, keys[..|keys| - 1], d);
      if IdOf(last) == d {
        assert index[last][0] == 109 || index[last][0] == 74;
        assert t.nasics < 255;
        TickAddsOne(t, index[last][0]);
        assert Walk(index, keys, d) == Tick(t, index[last][0]);
      } else {
        assert Walk(index, keys, d) == t;
      }
    }
  }

  lemma TickAddsOne(t: Tally, size: Byte)
    requires size == 109 || size == 74
    requires t.nasics == t.lines.Sum() < 255
    ensures Tick(t, size).nasics == Tick(t, size).lines.Sum() == t.nasics + 1
  {
    var n := Inc(t.nasics);
    LineRange(n);
    var line := if size == 109 then 1 else LineOf(n);
    PlusAddsOne(t.lines, line);
    assert Tick(t, size) == Tally(n, t.lines.Plus(line));
  }

  /** A DIF with MICROROCs alone has its lines filled along the serpentine. */
  lemma {:induction false} WalkMicroRocs(index: map<nat, seq<Byte>>, keys: seq<nat>, d: nat)
    requires Chips(index, keys) && CountOf(keys, d) < 256
    requires forall key :: key in keys && IdOf(key) == d ==> index[key][0] == 74
    ensures Walk(index, keys, d) == Tally(CountOf(keys, d), Serpentine(CountOf(keys, d)))
  {
    if keys == [] {
    } else {
      WalkMicroRocs(index, keys[..|keys| - 1], d);
      if IdOf(keys[|keys| - 1]) == d {
        SerpentineStep(CountOf(keys[..|keys| - 1], d));
      }
    }
  }

  /** A DIF with HARDROC2s alone has them all on line 1. */
  lemma {:induction false} WalkHardRocs(index: map<nat, seq<Byte>>, keys: seq<nat>, d: nat)
    requires Chips(index, keys) && CountOf(keys, d) < 256
    requires forall key :: key in keys && IdOf(key) == d ==> index[key][0] == 109
    ensures Walk(index, keys, d) == Tally(CountOf(keys, d), Counts(CountOf(keys, d), 0, 0, 0))
  {
    if keys == [] {
    } else {
      WalkHardRocs(index, keys[..|keys| - 1], d);
    }
  }

  // ---------- the walk covers the map ----------

  function KeysOfDif(keys: set<nat>, d: nat): set<nat> {
    set key | key in keys && IdOf(key) == d
  }

  lemma {:induction false} AscendingElements(keys: set<nat>)
    ensures forall key :: key in Ascending(keys) <==> key in keys
  {
    if keys == {} {
    } else {
      AscendingElements(keys - {Least(keys)});
    }
  }

  lemma {:induction false} CountOfPrepend(k: nat, keys: seq<nat>, d: nat)
    ensures CountOf([k] + keys, d) == (if IdOf(k) == d then 1 else 0) + CountOf(keys, d)
  {
    var more := [k] + keys;
    if keys == [] {
      assert more[..|more| - 1] == [];
    } else {
      assert more[..|more| - 1] == [k] + keys[..|keys| - 1];
      CountOfPrepend(k, keys[..|keys| - 1], d);
    }
  }

  lemma {:induction false} AscendingCount(keys: set<nat>, d: nat)
    ensures CountOf(Ascending(keys), d) == |KeysOfDif(keys, d)|
  {
    if keys == {} {
      assert KeysOfDif(keys, d) == {};
    } else {
      var k := Least(keys);
      AscendingCount(keys - {k}, d);
      CountOfPrepend(k, Ascending(keys - {k}), d);
      if IdOf(k) == d {
        assert KeysOfDif(keys, d) == KeysOfDif(keys - {k}, d) + {k};
      } else {
        assert KeysOfDif(keys, d) == KeysOfDif(keys - {k}, d);
      }
    }
  }
}
