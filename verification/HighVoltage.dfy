/**
 The high-voltage check: the means of pressure and temperature scale each chamber's reference voltage,
 and a channel whose effective voltage is off by more than 10 but less than 200 is set again.
 Voltages are real numbers; float rounding is not modelled.
 */
module HighVoltage {

  datatype ChamberRef = ChamberRef(channel: nat, vref: real, p0: real, t0: real)

  /** A row of the BMP monitor: pressure and temperature. */
  datatype Measure = Measure(p: real, t: real)

  /** A `setVoltage` command. */
  datatype SetVoltage = SetVoltage(channel: nat, v: real)

  function Abs(x: real): real {
    if x < 0.0 then -x else x
  }

  // ---------- the means ----------

  function Sum(xs: seq<real>): real {
    if xs == [] then 0.0 else Sum(xs[..|xs| - 1]) + xs[|xs| - 1]
  }

  function Pressures(rows: seq<Measure>): (xs: seq<real>)
    ensures |xs| == |rows|
  {
    seq(|rows|, i requires 0 <= i < |rows| => rows[i].p)
  }

  function Temperatures(rows: seq<Measure>): (xs: seq<real>)
    ensures |xs| == |rows|
  {
    seq(|rows|, i requires 0 <= i < |rows| => rows[i].t)
  }

  const MIN_MEASURES := 5

  predicate Between(xs: seq<real>, lo: real, hi: real) {
    forall i | 0 <= i < |xs| :: lo <= xs[i] <= hi
  }

  /** The sum lies between the bounds of the samples, times their number. */
  lemma {:induction false} SumBetween(xs: seq<real>, lo: real, hi: real)
    requires Between(xs, lo, hi)
    ensures |xs| as real * lo <= Sum(xs) <= |xs| as real * hi
  {
    if xs == [] {
    } else {
      SumBetween(xs[..|xs| - 1], lo, hi);
      var n := (|xs| - 1) as real;
      assert (n + 1.0) * lo == n * lo + lo && (n + 1.0) * hi == n * hi + hi;
    }
  }

  lemma DivBetween(sum: real, n: real, lo: real, hi: real)
    requires n > 0.0 && n * lo <= sum <= n * hi
    ensures lo <= sum / n <= hi
  {
    var m := sum / n;
    assert m * n == sum;
    assert m < lo ==> (lo - m) * n > 0.0;
    assert m > hi ==> (m - hi) * n > 0.0;
  }

  lemma MeanBetween(xs: seq<real>, lo: real, hi: real)
    requires xs != [] && Between(xs, lo, hi)
    ensures lo <= Sum(xs) / |xs| as real <= hi
  {
    SumBetween(xs, lo, hi);
    DivBetween(Sum(xs), |xs| as real, lo, hi);
  }

  // ---------- the decision for one chamber ----------

  /** `vref * t0 / p0 * P / T` */
  function Expected(c: ChamberRef, pmean: real, tmean: real): real
    requires c.p0 != 0.0 && tmean != 0.0
  {
    c.vref * c.t0 / c.p0 * pmean / tmean
  }

  /** `vout * p0 / t0 * T / P` */
  function Effective(c: ChamberRef, vout: real, pmean: real, tmean: real): real
    requires c.t0 != 0.0 && pmean != 0.0
  {
    vout * c.p0 / c.t0 * tmean / pmean
  }

  predicate Positive(c: ChamberRef, pmean: real, tmean: real) {
    c.p0 > 0.0 && c.t0 > 0.0 && pmean > 0.0 && tmean > 0.0
  }

  function Deviation(c: ChamberRef, vout: real, pmean: real, tmean: real): real
    requires Positive(c, pmean, tmean)
  {
    Abs(Effective(c, vout, pmean, tmean) - c.vref)
  }

  /** The dead band ends at 10 and the lock-out begins at 200. */
  predicate Corrects(c: ChamberRef, vout: real, pmean: real, tmean: real)
    requires Positive(c, pmean, tmean)
  {
    10.0 < Deviation(c, vout, pmean, tmean) < 200.0
  }

  /** The voltage read after a check of the chamber: the voltage set, as an absolute value, or the old one. */
  function Settled(c: ChamberRef, vout: real, pmean: real, tmean: real): real
    requires Positive(c, pmean, tmean)
  {
    if Corrects(c, vout, pmean, tmean) then Abs(Expected(c, pmean, tmean)) else vout
  }

  /** The scaling factor between reference and real voltages. */
  function Factor(c: ChamberRef, pmean: real, tmean: real): (k: real)
    requires Positive(c, pmean, tmean)
    ensures k > 0.0
  {
    assert c.t0 / c.p0 > 0.0 && pmean / tmean > 0.0;
    c.t0 / c.p0 * (pmean / tmean)
  }

  /** The two formulas are the scaling and its inverse. */
  lemma Scaling(c: ChamberRef, vout: real, pmean: real, tmean: real)
    requires Positive(c, pmean, tmean)
    ensures Expected(c, pmean, tmean) == c.vref * Factor(c, pmean, tmean)
    ensures Effective(c, vout, pmean, tmean) * Factor(c, pmean, tmean) == vout
  {
    var a, b := c.t0 / c.p0, pmean / tmean;
    assert c.vref * c.t0 / c.p0 == c.vref * a;
    assert c.vref * a * pmean / tmean == c.vref * a * b;
    var x := vout * c.p0 / c.t0;
    assert x * a == vout by {
      assert x * c.t0 == vout * c.p0;
      assert a * c.p0 == c.t0;
      assert x * a * c.p0 == vout * c.p0;
    }
    var y := x * tmean / pmean;
    assert y * b == x by {
      assert y * pmean == x * tmean;
      assert b * tmean == pmean;
      assert y * b * tmean == x * tmean;
    }
    assert y * (a * b) == y * b * a;
  }

  lemma Cancel(x: real, y: real, k: real)
    requires k > 0.0 && x * k == y * k
    ensures x == y
  {
    assert (x - y) * k == 0.0;
  }

  /** A channel at the scaled voltage `x * Factor` has the effective voltage `x`. */
  lemma EffectiveOfScaled(c: ChamberRef, x: real, pmean: real, tmean: real)
    requires Positive(c, pmean, tmean)
    ensures Effective(c, x * Factor(c, pmean, tmean), pmean, tmean) == x
  {
    var k := Factor(c, pmean, tmean);
    Scaling(c, x * k, pmean, tmean);
    Cancel(Effective(c, x * k, pmean, tmean), x, k);
  }

  /**
   After a check the effective voltage is within the dead band, if the deviation was not locked out.  For a
   corrected channel this holds exactly when the reference is not below -5, since the voltage is read
   back as an absolute value.
   */
  lemma CheckSettles(c: ChamberRef, vout: real, pmean: real, tmean: real)
    requires Positive(c, pmean, tmean) && Deviation(c, vout, pmean, tmean) < 200.0
    ensures Corrects(c, vout, pmean, tmean) ==>
              Effective(c, Settled(c, vout, pmean, tmean), pmean, tmean) == Abs(c.vref)
    ensures Deviation(c, Settled(c, vout, pmean, tmean), pmean, tmean) <= 10.0 <==>
              !Corrects(c, vout, pmean, tmean) || c.vref >= -5.0
  {
    if Corrects(c, vout, pmean, tmean) {
      var k := Factor(c, pmean, tmean);
      Scaling(c, vout, pmean, tmean);
      assert Abs(c.vref * k) == Abs(c.vref) * k;
      EffectiveOfScaled(c, Abs(c.vref), pmean, tmean);
    }
  }

  /** At constant means a corrected channel is corrected again exactly when its reference is between -100 and -5. */
  lemma CorrectedAgain(c: ChamberRef, vout: real, pmean: real, tmean: real)
    requires Positive(c, pmean, tmean)
    ensures Corrects(c, Settled(c, vout, pmean, tmean), pmean, tmean) <==>
              Corrects(c, vout, pmean, tmean) && -100.0 < c.vref < -5.0
  {
    if Corrects(c, vout, pmean, tmean) {
      CheckSettles(c, vout, pmean, tmean);
    }
  }

  /** A correction moves the channel by more than 10 and less than 200 scaled volts. */
  lemma CorrectionIsBounded(c: ChamberRef, vout: real, pmean: real, tmean: real)
    requires Positive(c, pmean, tmean) && Corrects(c, vout, pmean, tmean)
    ensures var k := (c.t0 * pmean) / (c.p0 * tmean);
            10.0 * k < Abs(Expected(c, pmean, tmean) - vout) < 200.0 * k
  {
    FactorAsFraction(c, pmean, tmean);
    CorrectionInFactors(c, vout, pmean, tmean);
  }

  lemma CorrectionInFactors(c: ChamberRef, vout: real, pmean: real, tmean: real)
    requires Positive(c, pmean, tmean) && Corrects(c, vout, pmean, tmean)
    ensures var k := Factor(c, pmean, tmean);
            10.0 * k < Abs(Expected(c, pmean, tmean) - vout) < 200.0 * k
  {
    var k, dev, x := Factor(c, pmean, tmean), Deviation(c, vout, pmean, tmean), Expected(c, pmean, tmean);
    CorrectionIsScaled(c, vout, pmean, tmean);
    ScaledBand(Abs(x - vout), dev, k);
  }

  lemma CorrectionIsScaled(c: ChamberRef, vout: real, pmean: real, tmean: real)
    requires Positive(c, pmean, tmean)
    ensures Abs(Expected(c, pmean, tmean) - vout) == Deviation(c, vout, pmean, tmean) * Factor(c, pmean, tmean)
  {
    Scaling(c, vout, pmean, tmean);
    DifferenceScaled(c.vref, Effective(c, vout, pmean, tmean), Factor(c, pmean, tmean), Expected(c, pmean, tmean), vout);
  }

  lemma DifferenceScaled(r: real, e: real, k: real, x: real, vout: real)
    requires k > 0.0 && e * k == vout && x == r * k
    ensures Abs(x - vout) == Abs(e - r) * k
  {
    assert x - vout == (r - e) * k;
    assert r >= e ==> (r - e) * k >= 0.0;
    assert r < e ==> (e - r) * k > 0.0 && (r - e) * k == -((e - r) * k);
  }

  lemma ScaledBand(move: real, dev: real, k: real)
    requires k > 0.0 && 10.0 < dev < 200.0 && move == dev * k
    ensures 10.0 * k < move < 200.0 * k
  {
    assert (dev - 10.0) * k > 0.0 && (200.0 - dev) * k > 0.0;
  }

  lemma FactorAsFraction(c: ChamberRef, pmean: real, tmean: real)
    requires Positive(c, pmean, tmean)
    ensures Factor(c, pmean, tmean) == (c.t0 * pmean) / (c.p0 * tmean)
  {
    var a, b, d := c.t0 / c.p0, pmean / tmean, c.p0 * tmean;
    assert d > 0.0;
    assert a * c.p0 == c.t0 && b * tmean == pmean;
    assert a * b * d == (a * c.p0) * (b * tmean);
    Cancel(a * b, (c.t0 * pmean) / d, d);
  }

  /** The value lies between the two others, in either order. */
  predicate Inside(a: real, v: real, b: real) {
    a <= v <= b || b <= v <= a
  }

  /** From the raw samples: what is set lies between the values for their extremes, whatever the sign of the reference. */
  lemma ExpectedBetween(c: ChamberRef, pmean: real, tmean: real, pmin: real, pmax: real, tmin: real, tmax: real)
    requires c.p0 > 0.0 && c.t0 > 0.0
    requires 0.0 < pmin <= pmean <= pmax && 0.0 < tmin <= tmean <= tmax
    ensures Inside(Expected(c, pmin, tmax), Expected(c, pmean, tmean), Expected(c, pmax, tmin))
  {
    var u := c.vref * c.t0 / c.p0;
    assert Expected(c, pmin, tmax) == u * pmin / tmax;
    assert Expected(c, pmean, tmean) == u * pmean / tmean;
    assert Expected(c, pmax, tmin) == u * pmax / tmin;
    QuotientsInside(u, pmean, tmean, pmin, pmax, tmin, tmax);
  }

  lemma QuotientsInside(u: real, p: real, t: real, pmin: real, pmax: real, tmin: real, tmax: real)
    requires 0.0 < pmin <= p <= pmax && 0.0 < tmin <= t <= tmax
    ensures Inside(u * pmin / tmax, u * p / t, u * pmax / tmin)
  {
    if u >= 0.0 {
      QuotientMono(u, pmin, tmax, p, t);
      QuotientMono(u, p, t, pmax, tmin);
    } else {
      NegatedMono(u, pmin, tmax, p, t);
      NegatedMono(u, p, t, pmax, tmin);
    }
  }

  lemma NegatedMono(u: real, p: real, t: real, q: real, s: real)
    requires u <= 0.0 && 0.0 < p <= q && 0.0 < s <= t
    ensures u * q / s <= u * p / t
  {
    var w := -u;
    QuotientMono(w, p, t, q, s);
    NegatedQuotient(u, w, p, t);
    NegatedQuotient(u, w, q, s);
  }

  lemma NegatedQuotient(u: real, w: real, p: real, t: real)
    requires t > 0.0 && w == -u
    ensures w * p / t == -(u * p / t)
  {
    var x, y := w * p / t, u * p / t;
    assert x * t == w * p && y * t == u * p;
    Cancel(x, -y, t);
  }

  lemma QuotientMono(u: real, p: real, t: real, q: real, s: real)
    requires u >= 0.0 && 0.0 < p <= q && 0.0 < s <= t
    ensures u * p / t <= u * q / s
  {
    var x, y := u * p / t, u * q / s;
    assert x * t == u * p && y * s == u * q;
    assert u * p >= 0.0;
    assert x >= 0.0;
    assert x * s <= x * t;
    assert u * p <= u * q;
    assert x > y ==> (x - y) * s > 0.0;
  }

  // ---------- all chambers, cycle after cycle ----------

  /** The voltage of the last monitor row of a channel, without its sign; 0 if there is none. */
  function Vout(volts: map<nat, real>, channel: nat): real {
    if channel in volts then Abs(volts[channel]) else 0.0
  }

  predicate AllPositive(chambers: seq<ChamberRef>, pmean: real, tmean: real) {
    forall i | 0 <= i < |chambers| :: Positive(chambers[i], pmean, tmean)
  }

  predicate DistinctChannels(chambers: seq<ChamberRef>) {
    forall i, j | 0 <= i < j < |chambers| :: chambers[i].channel != chambers[j].channel
  }

  /** The commands of one check, in chamber order. */
  function Corrections(chambers: seq<ChamberRef>, volts: map<nat, real>, pmean: real, tmean: real): seq<SetVoltage>
    requires AllPositive(chambers, pmean, tmean)
  {
    if chambers == [] then []
    else
      var c := chambers[|chambers| - 1];
      Corrections(chambers[..|chambers| - 1], volts, pmean, tmean) +
      (if Corrects(c, Vout(volts, c.channel), pmean, tmean) then [SetVoltage(c.channel, Expected(c, pmean, tmean))] else [])
  }

  /** Every channel reaches the voltage it is set to. */
  function Reached(volts: map<nat, real>, commands: seq<SetVoltage>): map<nat, real> {
    if commands == [] then volts
    else
      var last := commands[|commands| - 1];
      Reached(volts, commands[..|commands| - 1])[last.channel := last.v]
  }

  lemma {:induction false} OthersKeepTheirVoltage(volts: map<nat, real>, commands: seq<SetVoltage>, channel: nat)
    requires forall i | 0 <= i < |commands| :: commands[i].channel != channel
    ensures Vout(Reached(volts, commands), channel) == Vout(volts, channel)
  {
    if commands == [] {
    } else {
      OthersKeepTheirVoltage(volts, commands[..|commands| - 1], channel);
    }
  }

  lemma {:induction false} CorrectionsAreOfChambers(chambers: seq<ChamberRef>, volts: map<nat, real>,
                                                    pmean: real, tmean: real)
    requires AllPositive(chambers, pmean, tmean)
    ensures forall k | 0 <= k < |Corrections(chambers, volts, pmean, tmean)| ::
              exists i :: 0 <= i < |chambers| && chambers[i].channel == Corrections(chambers, volts, pmean, tmean)[k].channel
  {
    if chambers == [] {
      assert Corrections(chambers, volts, pmean, tmean) == [];
    } else {
      CorrectionsAreOfChambers(chambers[..|chambers| - 1], volts, pmean, tmean);
      var init := Corrections(chambers[..|chambers| - 1], volts, pmean, tmean);
      forall k | 0 <= k < |Corrections(chambers, volts, pmean, tmean)|
        ensures exists i :: 0 <= i < |chambers| && chambers[i].channel == Corrections(chambers, volts, pmean, tmean)[k].channel
      {
        if k < |init| {
          var i :| 0 <= i < |chambers| - 1 && chambers[..|chambers| - 1][i].channel == init[k].channel;
          assert chambers[i].channel == init[k].channel;
        } else {
          assert chambers[|chambers| - 1].channel == Corrections(chambers, volts, pmean, tmean)[k].channel;
        }
      }
    }
  }

  /** After a check every chamber has settled. */
  lemma {:induction false} ChambersSettle(chambers: seq<ChamberRef>, volts: map<nat, real>, pmean: real, tmean: real, i: nat)
    requires AllPositive(chambers, pmean, tmean) && DistinctChannels(chambers) && i < |chambers|
    ensures Vout(Reached(volts, Corrections(chambers, volts, pmean, tmean)), chambers[i].channel) ==
            Settled(chambers[i], Vout(volts, chambers[i].channel), pmean, tmean)
    decreases |chambers|
  {
    var rest, c := chambers[..|chambers| - 1], chambers[|chambers| - 1];
    var init := Corrections(rest, volts, pmean, tmean);
    var command := SetVoltage(c.channel, Expected(c, pmean, tmean));
    assert Corrections(chambers, volts, pmean, tmean) ==
           if Corrects(c, Vout(volts, c.channel), pmean, tmean) then init + [command] else init;
    ReachedAppend(volts, init, command);
    if i < |rest| {
      ChambersSettle(rest, volts, pmean, tmean, i);
    } else {
      CorrectionsAreOfChambers(rest, volts, pmean, tmean);
      OthersKeepTheirVoltage(volts, init, c.channel);
    }
  }

  lemma ReachedAppend(volts: map<nat, real>, commands: seq<SetVoltage>, command: SetVoltage)
    ensures Reached(volts, commands + [command]) == Reached(volts, commands)[command.channel := command.v]
  {
    assert (commands + [command])[..|commands|] == commands;
  }

  /** A cycle of checks at constant means. */
  function AfterCycles(chambers: seq<ChamberRef>, volts: map<nat, real>, pmean: real, tmean: real, n: nat): map<nat, real>
    requires AllPositive(chambers, pmean, tmean)
  {
    if n == 0 then volts
    else
      var before := AfterCycles(chambers, volts, pmean, tmean, n - 1);
      Reached(before, Corrections(chambers, before, pmean, tmean))
  }

  /** The commands of `n` cycles. */
  function AllCorrections(chambers: seq<ChamberRef>, volts: map<nat, real>, pmean: real, tmean: real, n: nat): seq<SetVoltage>
    requires AllPositive(chambers, pmean, tmean)
  {
    if n == 0 then []
    else AllCorrections(chambers, volts, pmean, tmean, n - 1) +
         Corrections(chambers, AfterCycles(chambers, volts, pmean, tmean, n - 1), pmean, tmean)
  }

  lemma {:induction false} NoCorrections(chambers: seq<ChamberRef>, volts: map<nat, real>, pmean: real, tmean: real)
    requires AllPositive(chambers, pmean, tmean)
    requires forall i | 0 <= i < |chambers| :: !Corrects(chambers[i], Vout(volts, chambers[i].channel), pmean, tmean)
    ensures Corrections(chambers, volts, pmean, tmean) == []
  {
    if chambers == [] {
    } else {
      NoCorrections(chambers[..|chambers| - 1], volts, pmean, tmean);
    }
  }

  /**
   While the means stay constant, all commands of any number of cycles are those of the first: the loop
   settles in one step.
   */
  lemma {:induction false} OnlyTheFirstCycleCorrects(chambers: seq<ChamberRef>, volts: map<nat, real>,
                                                     pmean: real, tmean: real, n: nat)
    requires AllPositive(chambers, pmean, tmean) && DistinctChannels(chambers) && n >= 1
    requires forall i | 0 <= i < |chambers| :: chambers[i].vref >= -5.0
    ensures AllCorrections(chambers, volts, pmean, tmean, n) == Corrections(chambers, volts, pmean, tmean)
    ensures AfterCycles(chambers, volts, pmean, tmean, n) == AfterCycles(chambers, volts, pmean, tmean, 1)
  {
    if n == 1 {
      assert AfterCycles(chambers, volts, pmean, tmean, 0) == volts;
      assert AllCorrections(chambers, volts, pmean, tmean, 0) == [];
    } else {
      OnlyTheFirstCycleCorrects(chambers, volts, pmean, tmean, n - 1);
      assert AfterCycles(chambers, volts, pmean, tmean, 1) == Reached(volts, Corrections(chambers, volts, pmean, tmean)) by {
        assert AfterCycles(chambers, volts, pmean, tmean, 0) == volts;
      }
      var settled := AfterCycles(chambers, volts, pmean, tmean, 1);
      forall i | 0 <= i < |chambers|
        ensures !Corrects(chambers[i], Vout(settled, chambers[i].channel), pmean, tmean)
      {
        ChambersSettle(chambers, volts, pmean, tmean, i);
        CorrectedAgain(chambers[i], Vout(volts, chambers[i].channel), pmean, tmean);
      }
      NoCorrections(chambers, settled, pmean, tmean);
    }
  }

  function CommandsTo(commands: seq<SetVoltage>, channel: nat): nat {
    if commands == [] then 0
    else CommandsTo(commands[..|commands| - 1], channel) + (if commands[|commands| - 1].channel == channel then 1 else 0)
  }

  lemma {:induction false} NoCommandsTo(commands: seq<SetVoltage>, channel: nat)
    requires forall k | 0 <= k < |commands| :: commands[k].channel != channel
    ensures CommandsTo(commands, channel) == 0
  {
    if commands == [] {
    } else {
      NoCommandsTo(commands[..|commands| - 1], channel);
    }
  }

  lemma CommandsToAppend(commands: seq<SetVoltage>, command: SetVoltage, channel: nat)
    ensures CommandsTo(commands + [command], channel) == CommandsTo(commands, channel) + (if command.channel == channel then 1 else 0)
  {
    assert (commands + [command])[..|commands|] == commands;
  }

  lemma {:induction false} CommandsToConcat(s: seq<SetVoltage>, t: seq<SetVoltage>, channel: nat)
    ensures CommandsTo(s + t, channel) == CommandsTo(s, channel) + CommandsTo(t, channel)
  {
    if t == [] {
      assert s + t == s;
    } else {
      var init, last := t[..|t| - 1], t[|t| - 1];
      CommandsToConcat(s, init, channel);
      assert s + t == s + init + [last];
      CommandsToAppend(s + init, last, channel);
    }
  }

  /** A check sets a chamber's channel once if the decision is to correct it, and otherwise not. */
  lemma {:induction false} CommandsOfOneCheck(chambers: seq<ChamberRef>, volts: map<nat, real>,
                                              pmean: real, tmean: real, i: nat)
    requires AllPositive(chambers, pmean, tmean) && DistinctChannels(chambers) && i < |chambers|
    ensures CommandsTo(Corrections(chambers, volts, pmean, tmean), chambers[i].channel) ==
            if Corrects(chambers[i], Vout(volts, chambers[i].channel), pmean, tmean) then 1 else 0
    decreases |chambers|
  {
    var rest, c := chambers[..|chambers| - 1], chambers[|chambers| - 1];
    var init, channel := Corrections(rest, volts, pmean, tmean), chambers[i].channel;
    if i < |rest| {
      CommandsOfOneCheck(rest, volts, pmean, tmean, i);
    } else {
      CorrectionsAreOfChambers(rest, volts, pmean, tmean);
      NoCommandsTo(init, channel);
    }
    var command := SetVoltage(c.channel, Expected(c, pmean, tmean));
    CommandsToAppend(init, command, channel);
    assert Corrections(chambers, volts, pmean, tmean) ==
           if Corrects(c, Vout(volts, c.channel), pmean, tmean) then init + [command] else init;
  }

  /** The voltage after the first check is the voltage after every later one. */
  lemma {:induction false} SettledForGood(chambers: seq<ChamberRef>, volts: map<nat, real>,
                                          pmean: real, tmean: real, n: nat, i: nat)
    requires AllPositive(chambers, pmean, tmean) && DistinctChannels(chambers) && n >= 1 && i < |chambers|
    ensures Vout(AfterCycles(chambers, volts, pmean, tmean, n), chambers[i].channel) ==
            Settled(chambers[i], Vout(volts, chambers[i].channel), pmean, tmean)
  {
    var before := AfterCycles(chambers, volts, pmean, tmean, n - 1);
    ChambersSettle(chambers, before, pmean, tmean, i);
    if n > 1 {
      SettledForGood(chambers, volts, pmean, tmean, n - 1, i);
    }
  }

  /** How often a chamber that reads `vout` is set in `n` cycles at constant means: never, once, or every time. */
  function TimesSet(c: ChamberRef, vout: real, pmean: real, tmean: real, n: nat): nat
    requires Positive(c, pmean, tmean)
  {
    if !Corrects(c, vout, pmean, tmean) then 0 else if -100.0 < c.vref < -5.0 || n == 0 then n else 1
  }

  lemma OnceMore(c: ChamberRef, vout: real, pmean: real, tmean: real, n: nat)
    requires Positive(c, pmean, tmean) && n > 0
    ensures var now := if n == 1 then vout else Settled(c, vout, pmean, tmean);
            TimesSet(c, vout, pmean, tmean, n) ==
            TimesSet(c, vout, pmean, tmean, n - 1) + (if Corrects(c, now, pmean, tmean) then 1 else 0)
  {
    CorrectedAgain(c, vout, pmean, tmean);
  }

  lemma {:induction false} CorrectionsOfChamber(chambers: seq<ChamberRef>, volts: map<nat, real>,
                                                pmean: real, tmean: real, n: nat, i: nat)
    requires AllPositive(chambers, pmean, tmean) && DistinctChannels(chambers) && i < |chambers|
    ensures CommandsTo(AllCorrections(chambers, volts, pmean, tmean, n), chambers[i].channel) ==
            TimesSet(chambers[i], Vout(volts, chambers[i].channel), pmean, tmean, n)
  {
    if n > 0 {
      var before := AfterCycles(chambers, volts, pmean, tmean, n - 1);
      CorrectionsOfChamber(chambers, volts, pmean, tmean, n - 1, i);
      CommandsToConcat(AllCorrections(chambers, volts, pmean, tmean, n - 1),
                       Corrections(chambers, before, pmean, tmean), chambers[i].channel);
      CommandsOfOneCheck(chambers, before, pmean, tmean, i);
      if n > 1 {
        SettledForGood(chambers, volts, pmean, tmean, n - 1, i);
      }
      OnceMore(chambers[i], Vout(volts, chambers[i].channel), pmean, tmean, n);
    }
  }

  /**
   So a chamber is set at most once over any number of cycles exactly when the first check leaves it alone or its
   reference is not between -100 and -5.
   */
  lemma AtMostOneCorrectionPerChannel(chambers: seq<ChamberRef>, volts: map<nat, real>, pmean: real, tmean: real, i: nat)
    requires AllPositive(chambers, pmean, tmean) && DistinctChannels(chambers) && i < |chambers|
    ensures (forall n: nat :: CommandsTo(AllCorrections(chambers, volts, pmean, tmean, n), chambers[i].channel) <= 1) <==>
            !(Corrects(chambers[i], Vout(volts, chambers[i].channel), pmean, tmean) && -100.0 < chambers[i].vref < -5.0)
  {
    var c := chambers[i];
    forall n: nat
      ensures CommandsTo(AllCorrections(chambers, volts, pmean, tmean, n), c.channel) ==
              TimesSet(c, Vout(volts, c.channel), pmean, tmean, n)
    {
      CorrectionsOfChamber(chambers, volts, pmean, tmean, n, i);
    }
    assert CommandsTo(AllCorrections(chambers, volts, pmean, tmean, 2), c.channel) ==
           TimesSet(c, Vout(volts, c.channel), pmean, tmean, 2);
  }

  /** With all scales 1, a channel that reads 0 and should have -50 is set to -50 in every cycle. */
  lemma SetAgainAndAgain(channel: nat, n: nat)
    ensures var c := ChamberRef(channel, -50.0, 1.0, 1.0);
            Positive(c, 1.0, 1.0) && Corrects(c, 0.0, 1.0, 1.0) && TimesSet(c, 0.0, 1.0, 1.0, n) == n
            && Expected(c, 1.0, 1.0) == -50.0 && Deviation(c, Settled(c, 0.0, 1.0, 1.0), 1.0, 1.0) == 100.0
  {
  }

  // ---------- from the raw samples to the commands ----------

  predicate PositiveMeasures(rows: seq<Measure>) {
    forall i | 0 <= i < |rows| :: rows[i].p > 0.0 && rows[i].t > 0.0
  }

  predicate PositiveReferences(chambers: seq<ChamberRef>) {
    forall i | 0 <= i < |chambers| :: chambers[i].p0 > 0.0 && chambers[i].t0 > 0.0
  }

  function PMean(rows: seq<Measure>): real
    requires rows != []
  {
    Sum(Pressures(rows)) / |rows| as real
  }

  function TMean(rows: seq<Measure>): real
    requires rows != []
  {
    Sum(Temperatures(rows)) / |rows| as real
  }

  function LeastOf(xs: seq<real>): (m: real)
    requires xs != []
    ensures m in xs && forall i | 0 <= i < |xs| :: m <= xs[i]
  {
    if |xs| == 1 then xs[0]
    else
      var m := LeastOf(xs[1..]);
      assert forall i | 1 <= i < |xs| :: xs[i] == xs[1..][i - 1];
      if xs[0] < m then xs[0] else m
  }

  /** The samples lie between the bounds. */
  predicate SamplesBetween(rows: seq<Measure>, pmin: real, pmax: real, tmin: real, tmax: real) {
    forall i | 0 <= i < |rows| :: pmin <= rows[i].p <= pmax && tmin <= rows[i].t <= tmax
  }

  /** The mean pressure lies between the pressures, and the mean temperature between the temperatures. */
  lemma MeansBetweenSamples(rows: seq<Measure>, pmin: real, pmax: real, tmin: real, tmax: real)
    requires rows != [] && forall i | 0 <= i < |rows| :: pmin <= rows[i].p <= pmax && tmin <= rows[i].t <= tmax
    ensures pmin <= PMean(rows) <= pmax && tmin <= TMean(rows) <= tmax
  {
    assert Between(Pressures(rows), pmin, pmax) && Between(Temperatures(rows), tmin, tmax);
    MeanBetween(Pressures(rows), pmin, pmax);
    MeanBetween(Temperatures(rows), tmin, tmax);
  }

  /** One row is its own mean, and the means of two series weigh as many as their rows: so they are the means. */
  lemma MeanOfOne(m: Measure)
    ensures PMean([m]) == m.p && TMean([m]) == m.t
  {
    assert Pressures([m])[..0] == [] && Temperatures([m])[..0] == [];
    assert Sum(Pressures([m])) == m.p && Sum(Temperatures([m])) == m.t;
  }

  lemma MeanOfParts(r: seq<Measure>, s: seq<Measure>)
    requires r != [] && s != []
    ensures PMean(r + s) * |r + s| as real == PMean(r) * |r| as real + PMean(s) * |s| as real
    ensures TMean(r + s) * |r + s| as real == TMean(r) * |r| as real + TMean(s) * |s| as real
  {
    PressureOfParts(r, s);
    TemperatureOfParts(r, s);
  }

  lemma PressureOfParts(r: seq<Measure>, s: seq<Measure>)
    requires r != [] && s != []
    ensures PMean(r + s) * |r + s| as real == PMean(r) * |r| as real + PMean(s) * |s| as real
  {
    assert Pressures(r + s) == Pressures(r) + Pressures(s);
    MeansWeigh(Pressures(r), Pressures(s));
  }

  lemma TemperatureOfParts(r: seq<Measure>, s: seq<Measure>)
    requires r != [] && s != []
    ensures TMean(r + s) * |r + s| as real == TMean(r) * |r| as real + TMean(s) * |s| as real
  {
    assert Temperatures(r + s) == Temperatures(r) + Temperatures(s);
    MeansWeigh(Temperatures(r), Temperatures(s));
  }

  lemma MeansWeigh(xs: seq<real>, ys: seq<real>)
    requires xs != [] && ys != []
    ensures Sum(xs + ys) / |xs + ys| as real * |xs + ys| as real ==
            Sum(xs) / |xs| as real * |xs| as real + Sum(ys) / |ys| as real * |ys| as real
  {
    SumConcat(xs, ys);
  }

  lemma {:induction false} SumConcat(xs: seq<real>, ys: seq<real>)
    ensures Sum(xs + ys) == Sum(xs) + Sum(ys)
  {
    if ys == [] {
      assert xs + ys == xs;
    } else {
      assert (xs + ys)[..|xs + ys| - 1] == xs + ys[..|ys| - 1];
      SumConcat(xs, ys[..|ys| - 1]);
    }
  }

  lemma MeansArePositive(rows: seq<Measure>)
    requires rows != [] && PositiveMeasures(rows)
    ensures PMean(rows) > 0.0 && TMean(rows) > 0.0
  {
    MeanAboveLeast(Pressures(rows));
    MeanAboveLeast(Temperatures(rows));
  }

  lemma MeanAboveLeast(xs: seq<real>)
    requires xs != [] && forall i | 0 <= i < |xs| :: xs[i] > 0.0
    ensures Sum(xs) / |xs| as real > 0.0
  {
    var lo := LeastOf(xs);
    SumAbove(xs, lo);
    var n := |xs| as real;
    assert n * lo > 0.0;
  }

  lemma {:induction false} SumAbove(xs: seq<real>, lo: real)
    requires forall i | 0 <= i < |xs| :: xs[i] >= lo
    ensures Sum(xs) >= |xs| as real * lo
  {
    if xs == [] {
    } else {
      SumAbove(xs[..|xs| - 1], lo);
      var n := (|xs| - 1) as real;
      assert (n + 1.0) * lo == n * lo + lo;
    }
  }

  /** Where a command of one check comes from: a chamber that the decision selects. */
  lemma {:induction false} CommandHasChamber(chambers: seq<ChamberRef>, volts: map<nat, real>,
                                             pmean: real, tmean: real, k: nat) returns (i: nat)
    requires AllPositive(chambers, pmean, tmean) && k < |Corrections(chambers, volts, pmean, tmean)|
    ensures i < |chambers| && Corrects(chambers[i], Vout(volts, chambers[i].channel), pmean, tmean)
    ensures Corrections(chambers, volts, pmean, tmean)[k] ==
            SetVoltage(chambers[i].channel, Expected(chambers[i], pmean, tmean))
  {
    var rest := chambers[..|chambers| - 1];
    if k < |Corrections(rest, volts, pmean, tmean)| {
      i := CommandHasChamber(rest, volts, pmean, tmean, k);
    } else {
      i := |chambers| - 1;
    }
  }

  /** What a command may do, given the extremes of the samples of its cycle. */
  ghost predicate BoundedCommand(command: SetVoltage, c: ChamberRef, vout: real, pmean: real, tmean: real,
                                 pmin: real, pmax: real, tmin: real, tmax: real)
    requires Positive(c, pmean, tmean) && pmin > 0.0 && tmin > 0.0 && tmax > 0.0
  {
    && command.channel == c.channel
    && Inside(Expected(c, pmin, tmax), command.v, Expected(c, pmax, tmin))
    && Abs(command.v - vout) < 200.0 * ((c.t0 * pmean) / (c.p0 * tmean))
  }

  /**
   Every voltage that a check sets after a successful measurement lies between the values for the extreme
   samples, and less than 200 scaled volts from the voltage read.
   */
  lemma CommandsAreBounded(chambers: seq<ChamberRef>, volts: map<nat, real>, rows: seq<Measure>,
                           pmin: real, pmax: real, tmin: real, tmax: real, k: nat) returns (i: nat)
    requires PositiveReferences(chambers) && rows != [] && pmin > 0.0 && tmin > 0.0
    requires forall j | 0 <= j < |rows| :: pmin <= rows[j].p <= pmax && tmin <= rows[j].t <= tmax
    requires PMean(rows) > 0.0 && TMean(rows) > 0.0 && AllPositive(chambers, PMean(rows), TMean(rows))
    requires k < |Corrections(chambers, volts, PMean(rows), TMean(rows))|
    ensures i < |chambers| && tmax > 0.0 && Positive(chambers[i], PMean(rows), TMean(rows))
    ensures BoundedCommand(Corrections(chambers, volts, PMean(rows), TMean(rows))[k], chambers[i],
                           Vout(volts, chambers[i].channel), PMean(rows), TMean(rows), pmin, pmax, tmin, tmax)
  {
    var p, t := PMean(rows), TMean(rows);
    MeansBetweenSamples(rows, pmin, pmax, tmin, tmax);
    i := CommandHasChamber(chambers, volts, p, t, k);
    CommandIsBounded(chambers[i], Vout(volts, chambers[i].channel), p, t, pmin, pmax, tmin, tmax);
  }

  /** The two voltages in numbers. */
  lemma ExpectedInNumbers(c: ChamberRef, pmean: real, tmean: real, v: real)
    requires c.p0 != 0.0 && tmean != 0.0 && v == c.vref * c.t0 / c.p0 * pmean / tmean
    ensures Expected(c, pmean, tmean) == v
  {
  }

  lemma EffectiveInNumbers(c: ChamberRef, vout: real, pmean: real, tmean: real, v: real)
    requires c.t0 != 0.0 && pmean != 0.0 && v == vout * c.p0 / c.t0 * tmean / pmean
    ensures Effective(c, vout, pmean, tmean) == v
  {
  }

  /** The decision in numbers. */
  lemma DecisionInNumbers(c: ChamberRef, vout: real, pmean: real, tmean: real, d: real)
    requires Positive(c, pmean, tmean) && d == Effective(c, vout, pmean, tmean) - c.vref
    ensures Corrects(c, vout, pmean, tmean) <==> 10.0 < d < 200.0 || -200.0 < d < -10.0
    ensures Deviation(c, vout, pmean, tmean) == if d < 0.0 then -d else d
  {
  }

  /** What is read for a channel: the absolute value of its last monitor row, or 0. */
  lemma VoutInNumbers(volts: map<nat, real>, channel: nat)
    ensures channel !in volts ==> Vout(volts, channel) == 0.0
    ensures channel in volts ==> Vout(volts, channel) == if volts[channel] < 0.0 then -volts[channel] else volts[channel]
  {
  }

  /** A channel is set in a check exactly when its chamber is to be corrected, and to the scaled reference. */
  lemma {:induction false} CommandsOfChamber(chambers: seq<ChamberRef>, volts: map<nat, real>, pmean: real, tmean: real,
                                             i: nat, command: SetVoltage)
    requires AllPositive(chambers, pmean, tmean) && DistinctChannels(chambers) && i < |chambers|
    requires command.channel == chambers[i].channel
    ensures command in Corrections(chambers, volts, pmean, tmean) <==>
            Corrects(chambers[i], Vout(volts, chambers[i].channel), pmean, tmean) &&
            command.v == Expected(chambers[i], pmean, tmean)
    decreases |chambers|
  {
    var rest, c := chambers[..|chambers| - 1], chambers[|chambers| - 1];
    var init := Corrections(rest, volts, pmean, tmean);
    assert Corrections(chambers, volts, pmean, tmean) ==
           if Corrects(c, Vout(volts, c.channel), pmean, tmean) then init + [SetVoltage(c.channel, Expected(c, pmean, tmean))] else init;
    if i < |rest| {
      CommandsOfChamber(rest, volts, pmean, tmean, i, command);
    } else {
      CorrectionsAreOfChambers(rest, volts, pmean, tmean);
    }
  }

  lemma CommandIsBounded(c: ChamberRef, vout: real, pmean: real, tmean: real, pmin: real, pmax: real, tmin: real, tmax: real)
    requires Positive(c, pmean, tmean) && Corrects(c, vout, pmean, tmean)
    requires 0.0 < pmin <= pmean <= pmax && 0.0 < tmin <= tmean <= tmax
    ensures BoundedCommand(SetVoltage(c.channel, Expected(c, pmean, tmean)), c, vout, pmean, tmean, pmin, pmax, tmin, tmax)
  {
    CorrectionIsBounded(c, vout, pmean, tmean);
    ExpectedBetween(c, pmean, tmean, pmin, pmax, tmin, tmax);
  }

  function MeasuredCorrections(chambers: seq<ChamberRef>, volts: map<nat, real>, rows: seq<Measure>): seq<SetVoltage>
    requires PositiveReferences(chambers) && PositiveMeasures(rows) && rows != []
  {
    MeansArePositive(rows);
    Corrections(chambers, volts, PMean(rows), TMean(rows))
  }

  /** The deviation at the means of the rows is below the limit. */
  predicate Within(c: ChamberRef, vout: real, rows: seq<Measure>, limit: real) {
    rows != [] && Positive(c, PMean(rows), TMean(rows)) && Deviation(c, vout, PMean(rows), TMean(rows)) < limit
  }

  predicate WithinOrOn(c: ChamberRef, vout: real, rows: seq<Measure>, limit: real) {
    rows != [] && Positive(c, PMean(rows), TMean(rows)) && Deviation(c, vout, PMean(rows), TMean(rows)) <= limit
  }

  // ---------- the controller ----------

  class DimSlowControl {
    var connected: bool
    var chambers: seq<ChamberRef>
    var pMean: real
    var tMean: real

    constructor (connected: bool, chambers: seq<ChamberRef>)
      ensures this.connected == connected && this.chambers == chambers
    {
      this.connected, this.chambers, pMean, tMean := connected, chambers, 0.0, 0.0;
    }

    /**
     `getPTMean` over the rows of the last ten minutes.  It fails without a database, and with fewer than five rows,
     when it leaves the sums in the fields.
     */
    method GetPTMean(rows: seq<Measure>) returns (ok: bool)
      modifies this`pMean, this`tMean
      ensures ok <==> connected && |rows| >= 5
      ensures ok ==> pMean == PMean(rows) && tMean == TMean(rows)
      ensures !connected ==> pMean == old(pMean) && tMean == old(tMean)
      ensures connected && !ok ==> pMean == Sum(Pressures(rows)) && tMean == Sum(Temperatures(rows))
      ensures forall pmin, pmax, tmin, tmax ::
                ok && SamplesBetween(rows, pmin, pmax, tmin, tmax) ==>
                pmin <= pMean <= pmax && tmin <= tMean <= tmax
    {
      if !connected {
        return false;
      }
      pMean, tMean := 0.0, 0.0;
      var nmeas := 0;
      while nmeas < |rows|
        invariant 0 <= nmeas <= |rows|
        invariant pMean == Sum(Pressures(rows)[..nmeas]) && tMean == Sum(Temperatures(rows)[..nmeas])
      {
        assert Pressures(rows)[..nmeas + 1][..nmeas] == Pressures(rows)[..nmeas];
        assert Temperatures(rows)[..nmeas + 1][..nmeas] == Temperatures(rows)[..nmeas];
        pMean := pMean + rows[nmeas].p;
        tMean := tMean + rows[nmeas].t;
        nmeas := nmeas + 1;
      }
      assert Pressures(rows)[..nmeas] == Pressures(rows) && Temperatures(rows)[..nmeas] == Temperatures(rows);
      if nmeas < MIN_MEASURES {
        return false;
      }
      pMean := pMean / nmeas as real;
      tMean := tMean / nmeas as real;
      forall pmin, pmax, tmin, tmax | SamplesBetween(rows, pmin, pmax, tmin, tmax)
        ensures pmin <= pMean <= pmax && tmin <= tMean <= tmax
      {
        MeansBetweenSamples(rows, pmin, pmax, tmin, tmax);
      }
      ok := true;
    }

    /** The body of that loop: whether to set the channel, and to what. */
    method CheckChamber(c: ChamberRef, vout: real) returns (sets: bool, vexpected: real)
      requires Positive(c, pMean, tMean)
      ensures sets == Corrects(c, vout, pMean, tMean) && vexpected == Expected(c, pMean, tMean)
    {
      vexpected := c.vref * c.t0 / c.p0 * pMean / tMean;
      var veffective := vout * c.p0 / c.t0 * tMean / pMean;
      assert veffective == Effective(c, vout, pMean, tMean);
      var deltav := Abs(veffective - c.vref);
      sets := deltav > 10.0 && deltav < 200.0;
    }

    /** The loop of `doCheck` over the chambers, for the last monitor rows `volts`. */
    method CheckChambers(volts: map<nat, real>) returns (commands: seq<SetVoltage>)
      requires AllPositive(chambers, pMean, tMean)
      ensures commands == Corrections(chambers, volts, pMean, tMean)
    {
      commands := [];
      var it := 0;
      while it < |chambers|
        invariant 0 <= it <= |chambers|
        invariant AllPositive(chambers[..it], pMean, tMean) && commands == Corrections(chambers[..it], volts, pMean, tMean)
      {
        var c := chambers[it];
        assert chambers[..it + 1][..it] == chambers[..it];
        var vout := 0.0;
        if c.channel in volts {
          vout := Abs(volts[c.channel]);
        }
        var sets, v := CheckChamber(c, vout);
        if sets {
          commands := commands + [SetVoltage(c.channel, v)];
        }
        it := it + 1;
      }
      assert chambers[..it] == chambers;
    }

    /**
     One turn of the loop of `doCheck`: nothing is set when the measurement fails; otherwise the chambers are
     checked with the new means, and then every one whose deviation was not locked out is within 10 of its reference.
     */
    method CheckCycle(rows: seq<Measure>, volts: map<nat, real>) returns (commands: seq<SetVoltage>)
      requires PositiveReferences(chambers) && PositiveMeasures(rows)
      modifies this`pMean, this`tMean
      ensures commands == if connected && |rows| >= MIN_MEASURES then MeasuredCorrections(chambers, volts, rows) else []
      ensures DistinctChannels(chambers) && connected && |rows| >= MIN_MEASURES ==>
                forall i | 0 <= i < |chambers| && chambers[i].vref >= -5.0 ::
                  Within(chambers[i], Vout(volts, chambers[i].channel), rows, 200.0) ==>
                    WithinOrOn(chambers[i], Vout(Reached(volts, commands), chambers[i].channel), rows, 10.0)
    {
      var ok := GetPTMean(rows);
      if !ok {
        return [];
      }
      MeansArePositive(rows);
      commands := CheckChambers(volts);
      if DistinctChannels(chambers) {
        forall i | 0 <= i < |chambers| && chambers[i].vref >= -5.0 &&
                   Within(chambers[i], Vout(volts, chambers[i].channel), rows, 200.0)
          ensures WithinOrOn(chambers[i], Vout(Reached(volts, commands), chambers[i].channel), rows, 10.0)
        {
          ChambersSettle(chambers, volts, pMean, tMean, i);
          CheckSettles(chambers[i], Vout(volts, chambers[i].channel), pMean, tMean);
        }
      }
    }
  }
}
