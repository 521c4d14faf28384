/**
 * The catalog of fan modes and the threshold tests that the automation engine
 * applies to a pair of readings (script.js, fanModePresets and checkAutomation).
 */
module FanPresets {
  import opened Wrappers

  /** The comparison direction a preset names for one variable ('above' or 'below'). */
  datatype Direction = Above | Below

  /** The thresholds of one fan mode. The description text is display-only and not kept. */
  datatype Preset = Preset(
    tempOn: real, tempOff: real, tempCondition: Direction,
    humOn: real, humOff: real, humCondition: Direction)

  /** The mode id that drives the fan on without looking at the readings. */
  const AlwaysOnMode: string := "always_on"

  const Catalog: map<string, Preset> := map[
    "very_hot" := Preset(32.0, 30.0, Above, 80.0, 75.0, Above),
    "hot" := Preset(28.0, 26.0, Above, 70.0, 65.0, Above),
    "always_on" := Preset(-999.0, -999.0, Above, -999.0, -999.0, Above)
  ]

  /** Looks a mode id up in the catalog; an unknown id yields None. */
  function Lookup(mode: string): (r: Option<Preset>)
    ensures r.Some? <==> mode == "very_hot" || mode == "hot" || mode == "always_on"
    ensures mode == "hot" ==> r == Some(Preset(28.0, 26.0, Above, 70.0, 65.0, Above))
    ensures mode == "very_hot" ==> r == Some(Preset(32.0, 30.0, Above, 80.0, 75.0, Above))
  {
    if mode in Catalog then Some(Catalog[mode]) else None
  }

  /** `a` lies strictly further than `b` in the direction `dir`. */
  predicate Beyond(dir: Direction, a: real, b: real)
  {
    if dir == Below then a < b else a > b
  }

  /**
   * The on-test for one variable: strictly beyond the on-threshold in the
   * preset's direction. A reading exactly at the threshold never passes.
   */
  function OnMet(dir: Direction, x: real, threshold: real): (r: bool)
    ensures r ==> x != threshold
    ensures r <==> x != threshold && !Beyond(dir, threshold, x)
  {
    Beyond(dir, x, threshold)
  }

  /**
   * The off-test for one variable: the same direction with the comparison
   * reversed, so it passes exactly when the reading is off the threshold and
   * fails the on-test against that same threshold.
   */
  function OffMet(dir: Direction, x: real, threshold: real): (r: bool)
    ensures r ==> x != threshold
    ensures r <==> x != threshold && !OnMet(dir, x, threshold)
  {
    Beyond(dir, threshold, x)
  }

  /**
   * shouldTurnOn: either variable passes its on-test. Under hysteretic
   * thresholds a set flag rules out both variables passing their off-tests.
   */
  function ShouldTurnOn(p: Preset, temp: real, hum: real): (r: bool)
    ensures WellFormed(p) && r ==>
      !(OffMet(p.tempCondition, temp, p.tempOff) && OffMet(p.humCondition, hum, p.humOff))
  {
    OnMet(p.tempCondition, temp, p.tempOn) || OnMet(p.humCondition, hum, p.humOn)
  }

  /**
   * shouldTurnOff: either variable passes its off-test. Under hysteretic
   * thresholds a set flag rules out both variables passing their on-tests.
   */
  function ShouldTurnOff(p: Preset, temp: real, hum: real): (r: bool)
    ensures WellFormed(p) && r ==>
      !(OnMet(p.tempCondition, temp, p.tempOn) && OnMet(p.humCondition, hum, p.humOn))
  {
    OffMet(p.tempCondition, temp, p.tempOff) || OffMet(p.humCondition, hum, p.humOff)
  }

  /** The off-threshold does not lie beyond the on-threshold, seen from the preset's direction. */
  predicate Hysteretic(dir: Direction, on: real, off: real)
  {
    if dir == Below then on <= off else off <= on
  }

  predicate WellFormed(p: Preset)
  {
    Hysteretic(p.tempCondition, p.tempOn, p.tempOff) && Hysteretic(p.humCondition, p.humOn, p.humOff)
  }

  /** With hysteretic thresholds a reading never passes the on-test and the off-test together. */
  lemma NeverOnAndOffMet(dir: Direction, on: real, off: real, x: real)
    requires Hysteretic(dir, on, off)
    ensures !(OnMet(dir, x, on) && OffMet(dir, x, off))
  {
  }

  /** Conversely, without hysteresis some reading passes both tests at once. */
  lemma OnAndOffMetWithoutHysteresis(dir: Direction, on: real, off: real)
    requires !Hysteretic(dir, on, off)
    ensures exists x :: OnMet(dir, x, on) && OffMet(dir, x, off)
  {
    var mid := (on + off) / 2.0;
    assert OnMet(dir, mid, on) && OffMet(dir, mid, off);
  }

  /**
   * The dead band: the readings that pass neither test are exactly those
   * between the two thresholds, both ends included (the tests are strict).
   */
  lemma DeadBand(dir: Direction, on: real, off: real, x: real)
    requires Hysteretic(dir, on, off)
    ensures (!OnMet(dir, x, on) && !OffMet(dir, x, off)) <==>
            (if dir == Below then on <= x <= off else off <= x <= on)
  {
  }

  /**
   * Every catalog preset compares 'above' and is hysteretic; the two
   * sensor-driven presets keep a gap of positive width on both variables.
   */
  lemma CatalogIsHysteretic(mode: string)
    requires Lookup(mode).Some?
    ensures var p := Lookup(mode).value;
      && p.tempCondition == Above && p.humCondition == Above
      && WellFormed(p)
      && (mode != AlwaysOnMode ==> p.tempOff < p.tempOn && p.humOff < p.humOn)
  {
  }

  /** For any preset, the two flags can hold together through different variables. */
  lemma BothFlagsPossible(p: Preset)
    ensures exists t, h :: ShouldTurnOn(p, t, h) && ShouldTurnOff(p, t, h)
  {
    var t := if p.tempCondition == Below then p.tempOn - 1.0 else p.tempOn + 1.0;
    var h := if p.humCondition == Below then p.humOff + 1.0 else p.humOff - 1.0;
    assert OnMet(p.tempCondition, t, p.tempOn) && OffMet(p.humCondition, h, p.humOff);
    assert ShouldTurnOn(p, t, h) && ShouldTurnOff(p, t, h);
  }

  /** For a well-formed preset, when both flags hold, they come from different variables. */
  lemma BothFlagsNeedBothVariables(p: Preset, t: real, h: real)
    requires WellFormed(p)
    requires ShouldTurnOn(p, t, h) && ShouldTurnOff(p, t, h)
    ensures || (OnMet(p.tempCondition, t, p.tempOn) && OffMet(p.humCondition, h, p.humOff))
            || (OnMet(p.humCondition, h, p.humOn) && OffMet(p.tempCondition, t, p.tempOff))
  {
    NeverOnAndOffMet(p.tempCondition, p.tempOn, p.tempOff, t);
    NeverOnAndOffMet(p.humCondition, p.humOn, p.humOff, h);
  }
}
