/**
 * Properties of single transitions of the fan-automation engine: the
 * debounced ON, the immediate OFF, the cancellation of a lapsed candidate,
 * the always_on path and the resets done by the operator's handlers.
 */
module AutomationProperties {
  import opened Wrappers
  import opened FanPresets
  import opened Automation

  /** A sensor mode is checked with both readings present and finds the on-test passing while the fan is not auto-on. */
  predicate OnCandidate(s: AutoState, p: Preset)
  {
    && s.active && s.mode != AlwaysOnMode && Lookup(s.mode) == Some(p)
    && s.temp.Some? && s.hum.Some?
    && ShouldTurnOn(p, s.temp.value, s.hum.value) && !s.fanAutoState
  }

  /**
   * Debounce start: the first passing check records the candidate and
   * schedules one timer capturing the preset; while a candidate is pending,
   * further checks change nothing.
   */
  lemma CheckStartsDebounce(s: AutoState, p: Preset)
    requires OnCandidate(s, p)
    ensures !s.conditionMet ==>
      Check(s) == Transition(s.(conditionMet := true, timer := Some(ThresholdTimer(p))), [])
    ensures s.conditionMet ==> Check(s) == Transition(s, [])
  {
  }

  /**
   * Immediate OFF: when the fan is auto-on and the off-test passes, OFF is
   * sent at once, the fan is no longer auto-on and no candidate or timer is
   * left.
   */
  lemma CheckTurnsOffImmediately(s: AutoState, p: Preset)
    requires Inv(s)
    requires s.active && s.mode != AlwaysOnMode && Lookup(s.mode) == Some(p)
    requires s.temp.Some? && s.hum.Some? && s.fanAutoState
    requires ShouldTurnOff(p, s.temp.value, s.hum.value)
    ensures Check(s).sent == [Sent(Off, true)]
    ensures Check(s).next == s.(fanAutoState := false, conditionMet := false, timer := None)
  {
  }

  /**
   * Lapse: when the on-test fails while a candidate is recorded and the OFF
   * branch does not apply, the candidate and its timer are dropped and
   * nothing is sent.
   */
  lemma CheckCancelsLapsedCandidate(s: AutoState, p: Preset)
    requires s.active && s.mode != AlwaysOnMode && Lookup(s.mode) == Some(p)
    requires s.temp.Some? && s.hum.Some? && s.conditionMet
    requires !ShouldTurnOn(p, s.temp.value, s.hum.value)
    requires !(ShouldTurnOff(p, s.temp.value, s.hum.value) && s.fanAutoState)
    ensures Check(s) == Transition(s.(conditionMet := false, timer := None), [])
  {
  }

  /**
   * Otherwise: with both readings known, when none of the three branches
   * applies (ON candidate, immediate OFF, lapse) the check leaves the whole
   * state as it was and sends nothing, e.g. the fan auto-on with the on-test
   * passing, or the engine idle in the dead band.
   */
  lemma CheckOtherwiseKeepsState(s: AutoState, p: Preset)
    requires s.active && s.mode != AlwaysOnMode && Lookup(s.mode) == Some(p)
    requires s.temp.Some? && s.hum.Some?
    requires var on := ShouldTurnOn(p, s.temp.value, s.hum.value);
      var off := ShouldTurnOff(p, s.temp.value, s.hum.value);
      !(on && !s.fanAutoState) && !(off && s.fanAutoState) && !(!on && s.conditionMet)
    ensures Check(s) == Transition(s, [])
  {
  }

  /**
   * The threshold timer fires: ON is sent exactly when the latest readings
   * pass the captured on-test and fail the captured off-test, the fan is not
   * auto-on and automation is active. On that path the candidate marker
   * stays set; otherwise it is cleared and nothing is sent.
   */
  lemma FireSendsOnOnlyIfStillMet(s: AutoState, p: Preset)
    requires Inv(s) && s.timer == Some(ThresholdTimer(p))
    ensures var met := ShouldTurnOn(p, s.temp.value, s.hum.value)
                    && !ShouldTurnOff(p, s.temp.value, s.hum.value)
                    && !s.fanAutoState && s.active;
      && (Fire(s).sent == [Sent(On, true)] <==> met)
      && (met ==> Fire(s).next == s.(fanAutoState := true, timer := None))
      && (!met ==> Fire(s) == Transition(s.(conditionMet := false, timer := None), []))
  {
  }

  /**
   * The callback's own checks of fanAutoState and automationActive always
   * pass: the engine keeps the timer only while both hold. So the always_on
   * timer always sends ON.
   */
  lemma FireAlwaysOnSendsOn(s: AutoState)
    requires Inv(s) && s.timer == Some(AlwaysOnTimer)
    ensures Fire(s) == Transition(s.(fanAutoState := true, timer := None), [Sent(On, true)])
  {
  }

  /**
   * always_on: with the fan not auto-on and no candidate, a check schedules
   * the always_on timer, with or without readings; otherwise it changes
   * nothing.
   */
  lemma AlwaysOnSchedulesOnce(s: AutoState)
    requires s.active && s.mode == AlwaysOnMode
    ensures !s.fanAutoState && !s.conditionMet ==>
      Check(s) == Transition(s.(conditionMet := true, timer := Some(AlwaysOnTimer)), [])
    ensures s.fanAutoState || s.conditionMet ==> Check(s) == Transition(s, [])
  {
  }

  /** A check in always_on mode does not look at the readings. */
  lemma AlwaysOnNeedsNoReadings(s: AutoState, temp: Option<real>, hum: Option<real>)
    requires s.mode == AlwaysOnMode
    ensures Check(s.(temp := temp, hum := hum)) ==
      Transition(Check(s).next.(temp := temp, hum := hum), Check(s).sent)
  {
  }

  /**
   * A candidate whose on-test lapses before its timer fires is dropped by the
   * next check, and no ON is ever sent for it: when the callback would have
   * run there is nothing left to fire.
   */
  lemma LapsedCandidateNeverFires(s: AutoState, p: Preset)
    requires Inv(s) && s.timer == Some(ThresholdTimer(p))
    requires !ShouldTurnOn(p, s.temp.value, s.hum.value)
    ensures Check(s).sent == [] && Check(s).next.timer.None?
    ensures Fire(Check(s).next) == Transition(Check(s).next, [])
  {
  }

  /**
   * Repeating a check sends nothing more than the first one did, so a
   * reading delivered twice yields at most one command.
   */
  lemma CheckTwiceSendsNothingMore(s: AutoState)
    ensures Check(Check(s).next).sent == []
  {
  }

  lemma RepeatedReadingSendsNothingMore(s: AutoState, e: Event)
    requires Inv(s) && (e.TemperatureReading? || e.HumidityReading?)
    ensures Apply(Apply(s, e).next, e).sent == []
  {
    var first := Apply(s, e);
    if e.TemperatureReading? {
      assert first.next.(temp := Some(e.temperature)) == first.next;
      CheckTwiceSendsNothingMore(s.(temp := Some(e.temperature)));
    } else {
      assert first.next.(hum := Some(e.humidity)) == first.next;
      CheckTwiceSendsNothingMore(s.(hum := Some(e.humidity)));
    }
  }

  /**
   * Disabling cancels the timer and the candidate and leaves fanAutoState as
   * it was; re-enabling starts from no candidate and checks at once.
   */
  lemma DisableThenEnable(s: AutoState)
    requires Inv(s) && s.active
    ensures var off := Toggle(s).next;
      && off == s.(active := false, conditionMet := false, timer := None)
      && Toggle(off) == Check(s.(conditionMet := false, timer := None))
  {
  }

  /**
   * After a mode change the timer, if any, belongs to the new mode: a timer
   * of the old mode can never fire.
   */
  lemma ModeChangeDropsStaleTimer(s: AutoState, mode: string)
    requires Inv(s)
    ensures var n := ChangeMode(s, mode).next;
      n.timer.Some? ==>
        || (n.timer == Some(AlwaysOnTimer) && mode == AlwaysOnMode)
        || (n.timer.value.ThresholdTimer? && Lookup(mode) == Some(n.timer.value.preset))
  {
  }

  /** A manual command is sent but never changes the engine's state. */
  lemma ManualCommandKeepsState(s: AutoState, c: Command)
    requires Inv(s)
    ensures Apply(s, ManualCommand(c)) == Transition(s, [Sent(c, false)])
  {
  }
}
