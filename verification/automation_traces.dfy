/**
 * Properties of whole event sequences processed by the fan-automation engine:
 * the invariant holds throughout, automatic commands strictly alternate, and
 * readings that stay inside the dead band never toggle the fan.
 */
module AutomationTraces {
  import opened Wrappers
  import opened FanPresets
  import opened Automation

  /** The commands issued by automation, in order, leaving out manual ones. */
  function AutoCommands(log: seq<Sent>): (cmds: seq<Command>)
    ensures |cmds| <= |log|
    ensures forall c :: c in cmds ==> Sent(c, true) in log
  {
    if log == [] then []
    else (if log[0].auto then [log[0].command] else []) + AutoCommands(log[1..])
  }

  /** Starting from fan state `on`, every command flips the fan: OFF from on, ON from off. */
  predicate AlternatesFrom(cmds: seq<Command>, on: bool)
  {
    cmds == [] || (cmds[0] == (if on then Off else On) && AlternatesFrom(cmds[1..], !on))
  }

  /** The fan state after the commands, starting from `on`. */
  function FanAfter(cmds: seq<Command>, on: bool): (r: bool)
  {
    if cmds == [] then on else cmds[|cmds| - 1] == On
  }

  lemma {:induction false} AutoCommandsAppend(a: seq<Sent>, b: seq<Sent>)
    ensures AutoCommands(a + b) == AutoCommands(a) + AutoCommands(b)
  {
    if a == [] {
      assert a + b == b;
    } else {
      assert (a + b)[0] == a[0];
      assert (a + b)[1..] == a[1..] + b;
      AutoCommandsAppend(a[1..], b);
    }
  }

  /** One event sends no automatic command and keeps the fan state, or sends the one command that flips it. */
  lemma StepFlipsOrKeeps(s: AutoState, e: Event)
    requires Inv(s)
    ensures var t := Apply(s, e);
      || (AutoCommands(t.sent) == [] && t.next.fanAutoState == s.fanAutoState)
      || (AutoCommands(t.sent) == [if s.fanAutoState then Off else On] && t.next.fanAutoState == !s.fanAutoState)
  {
    var t := Apply(s, e);
    assert t.sent == [] || |t.sent| == 1;
    if t.sent != [] {
      assert t.sent[1..] == [];
    }
  }

  /**
   * Over any sequence of events, the automatic commands alternate, starting
   * with the one that flips the initial fan state, and the final fan state
   * is the one the last of them asserted.
   */
  lemma {:induction false} AutoCommandsAlternate(s: AutoState, events: seq<Event>)
    requires Inv(s)
    ensures var t := Run(s, events);
      && AlternatesFrom(AutoCommands(t.sent), s.fanAutoState)
      && t.next.fanAutoState == FanAfter(AutoCommands(t.sent), s.fanAutoState)
    decreases |events|
  {
    if events != [] {
      var first := Apply(s, events[0]);
      var rest := Run(first.next, events[1..]);
      AutoCommandsAlternate(first.next, events[1..]);
      StepFlipsOrKeeps(s, events[0]);
      AutoCommandsAppend(first.sent, rest.sent);
      var a := AutoCommands(first.sent);
      var b := AutoCommands(rest.sent);
      if a != [] {
        assert (a + b)[1..] == b;
        if b != [] {
          assert (a + b)[|a + b| - 1] == b[|b| - 1];
        }
      } else {
        assert a + b == b;
      }
    }
  }

  /** Alternating commands never repeat one another. */
  lemma {:induction false} AlternationNeverRepeats(cmds: seq<Command>, on: bool)
    requires AlternatesFrom(cmds, on)
    ensures forall i :: 0 <= i < |cmds| - 1 ==> cmds[i] != cmds[i + 1]
  {
    if cmds != [] {
      AlternationNeverRepeats(cmds[1..], !on);
      assert forall i :: 1 <= i < |cmds| ==> cmds[i] == cmds[1..][i - 1];
    }
  }

  /** Automation never sends the same command twice in a row, and starting from the page-load state its first command is ON. */
  lemma NoRepeatedAutoCommand(mode: string, enabled: bool, events: seq<Event>)
    ensures var cmds := AutoCommands(Run(Initial(mode, enabled), events).sent);
      && (cmds != [] ==> cmds[0] == On)
      && (forall i :: 0 <= i < |cmds| - 1 ==> cmds[i] != cmds[i + 1])
  {
    var s := Initial(mode, enabled);
    AutoCommandsAlternate(s, events);
    AlternationNeverRepeats(AutoCommands(Run(s, events).sent), s.fanAutoState);
  }

  /** The reading in the event, taken alone, fails the preset's off-test (other events leave readings alone). */
  predicate KeepsOffTestFailing(p: Preset, e: Event)
  {
    match e
    case TemperatureReading(v) => !OffMet(p.tempCondition, v, p.tempOff)
    case HumidityReading(v) => !OffMet(p.humCondition, v, p.humOff)
    case TimerFired => true
    case ManualCommand(_) => true
    case _ => false
  }

  /** The reading in the event, taken alone, fails the preset's on-test. */
  predicate KeepsOnTestFailing(p: Preset, e: Event)
  {
    match e
    case TemperatureReading(v) => !OnMet(p.tempCondition, v, p.tempOn)
    case HumidityReading(v) => !OnMet(p.humCondition, v, p.humOn)
    case TimerFired => true
    case ManualCommand(_) => true
    case _ => false
  }

  /** The engine runs a sensor mode with both readings present. */
  predicate SensorMode(s: AutoState, p: Preset)
  {
    s.active && s.mode != AlwaysOnMode && Lookup(s.mode) == Some(p) && s.temp.Some? && s.hum.Some?
  }

  /**
   * Oscillation resistance: while the fan is auto-on, readings that never
   * pass the off-test (however they move around the on-threshold) send no
   * automatic command, keep the fan auto-on and never start an activation
   * timer.
   */
  lemma {:induction false} NoChatterWhileOn(s: AutoState, p: Preset, events: seq<Event>)
    requires Inv(s) && SensorMode(s, p) && s.fanAutoState
    requires !ShouldTurnOff(p, s.temp.value, s.hum.value)
    requires forall i :: 0 <= i < |events| ==> KeepsOffTestFailing(p, events[i])
    ensures var t := Run(s, events);
      AutoCommands(t.sent) == [] && t.next.fanAutoState && t.next.timer.None?
    decreases |events|
  {
    if events != [] {
      var first := Apply(s, events[0]);
      assert KeepsOffTestFailing(p, events[0]);
      assert SensorMode(first.next, p) && first.next.fanAutoState;
      assert AutoCommands(first.sent) == [];
      NoChatterWhileOn(first.next, p, events[1..]);
      AutoCommandsAppend(first.sent, Run(first.next, events[1..]).sent);
    }
  }

  /**
   * The converse: with the fan not auto-on and no candidate pending,
   * readings that never pass the on-test send no automatic command and never
   * start an activation timer.
   */
  lemma {:induction false} NoActivationBelowOnThreshold(s: AutoState, p: Preset, events: seq<Event>)
    requires Inv(s) && SensorMode(s, p) && !s.fanAutoState && s.timer.None?
    requires !ShouldTurnOn(p, s.temp.value, s.hum.value)
    requires forall i :: 0 <= i < |events| ==> KeepsOnTestFailing(p, events[i])
    ensures var t := Run(s, events);
      AutoCommands(t.sent) == [] && !t.next.fanAutoState && t.next.timer.None?
    decreases |events|
  {
    if events != [] {
      var first := Apply(s, events[0]);
      assert KeepsOnTestFailing(p, events[0]);
      assert SensorMode(first.next, p) && !first.next.fanAutoState && first.next.timer.None?;
      assert AutoCommands(first.sent) == [];
      NoActivationBelowOnThreshold(first.next, p, events[1..]);
      AutoCommandsAppend(first.sent, Run(first.next, events[1..]).sent);
    }
  }

  /**
   * Oscillation resistance from either fan state: with no timer outstanding,
   * readings that never pass the on-test never start an activation timer and
   * never make automation send ON, even when they cross the off-threshold and
   * OFF is sent on the way.
   */
  lemma {:induction false} NoOnWhileOnTestFails(s: AutoState, p: Preset, events: seq<Event>)
    requires Inv(s) && SensorMode(s, p) && s.timer.None?
    requires !ShouldTurnOn(p, s.temp.value, s.hum.value)
    requires forall i :: 0 <= i < |events| ==> KeepsOnTestFailing(p, events[i])
    ensures var t := Run(s, events);
      On !in AutoCommands(t.sent) && t.next.timer.None?
    decreases |events|
  {
    if events != [] {
      var first := Apply(s, events[0]);
      assert KeepsOnTestFailing(p, events[0]);
      assert SensorMode(first.next, p) && first.next.timer.None?;
      assert On !in AutoCommands(first.sent);
      NoOnWhileOnTestFails(first.next, p, events[1..]);
      AutoCommandsAppend(first.sent, Run(first.next, events[1..]).sent);
    }
  }

  /**
   * Mode "hot" with humidity at 66 (inside its dead band): three rising
   * temperatures above 28 record one candidate; when its timer fires the fan
   * is turned ON once, and a further warm reading sends nothing.
   */
  lemma ScenarioHotDebounce()
    ensures Run(Initial("hot", true), [HumidityReading(66.0), TemperatureReading(29.0)]).next.timer ==
      Some(ThresholdTimer(Preset(28.0, 26.0, Above, 70.0, 65.0, Above)))
    ensures var t := Run(Initial("hot", true),
      [HumidityReading(66.0), TemperatureReading(29.0), TemperatureReading(29.5),
       TemperatureReading(30.5), TimerFired, TemperatureReading(31.0)]);
      t.sent == [Sent(On, true)] && t.next.fanAutoState && t.next.timer.None?
  {
    var p := Preset(28.0, 26.0, Above, 70.0, 65.0, Above);
    var s0 := Initial("hot", true);
    var s1 := s0.(hum := Some(66.0));
    var s2 := s1.(temp := Some(29.0), conditionMet := true, timer := Some(ThresholdTimer(p)));
    var s3 := s2.(temp := Some(29.5));
    var s4 := s3.(temp := Some(30.5));
    var s5 := s4.(fanAutoState := true, timer := None);
    var s6 := s5.(temp := Some(31.0));
    var evs := [HumidityReading(66.0), TemperatureReading(29.0), TemperatureReading(29.5),
                TemperatureReading(30.5), TimerFired, TemperatureReading(31.0)];
    assert Apply(s0, evs[0]) == Transition(s1, []);
    assert Apply(s1, evs[1]) == Transition(s2, []);
    assert Apply(s2, evs[2]) == Transition(s3, []);
    assert Apply(s3, evs[3]) == Transition(s4, []);
    assert Apply(s4, evs[4]) == Transition(s5, [Sent(On, true)]);
    assert Apply(s5, evs[5]) == Transition(s6, []);
    assert Run(s6, []) == Transition(s6, []);
    assert Run(s5, evs[5..]) == Transition(s6, []);
    assert Run(s4, evs[4..]) == Transition(s6, [Sent(On, true)]);
    assert Run(s3, evs[3..]) == Transition(s6, [Sent(On, true)]);
    assert Run(s2, evs[2..]) == Transition(s6, [Sent(On, true)]);
    assert Run(s1, evs[1..]) == Transition(s6, [Sent(On, true)]);
    assert Run(s2, []) == Transition(s2, []);
    assert Run(s1, evs[1..2]) == Transition(s2, []);
    assert evs[..2] == [HumidityReading(66.0), TemperatureReading(29.0)];
  }

  /**
   * Mode "always_on", no reading ever arrives: enabling automation schedules
   * the timer, firing it sends ON, and a later reading, which checks again,
   * sends nothing.
   */
  lemma ScenarioAlwaysOnWithoutReadings()
    ensures var t := Run(Initial("always_on", false),
      [AutomationToggled, TimerFired, TemperatureReading(25.0), TimerFired]);
      t.sent == [Sent(On, true)] && t.next.fanAutoState && t.next.timer.None?
  {
  }

  /** The event keeps humidity passing the preset's off-test (temperature readings are unrestricted). */
  predicate KeepsHumidityLow(p: Preset, e: Event)
  {
    match e
    case TemperatureReading(_) => true
    case HumidityReading(v) => OffMet(p.humCondition, v, p.humOff)
    case TimerFired => true
    case ManualCommand(_) => true
    case _ => false
  }

  /**
   * While humidity passes its off-test, automation never switches the fan
   * on, however far temperature passes its on-test: the timer's callback
   * finds the off-test passing and cancels every candidate. In mode "hot"
   * this means no ON below 65% humidity, even far above 28 degrees.
   */
  lemma {:induction false} DryHeatNeverSwitchesOn(s: AutoState, p: Preset, events: seq<Event>)
    requires Inv(s) && SensorMode(s, p) && !s.fanAutoState
    requires OffMet(p.humCondition, s.hum.value, p.humOff)
    requires forall i :: 0 <= i < |events| ==> KeepsHumidityLow(p, events[i])
    ensures var t := Run(s, events);
      AutoCommands(t.sent) == [] && !t.next.fanAutoState
    decreases |events|
  {
    if events != [] {
      var first := Apply(s, events[0]);
      assert KeepsHumidityLow(p, events[0]);
      assert SensorMode(first.next, p) && !first.next.fanAutoState;
      assert AutoCommands(first.sent) == [];
      DryHeatNeverSwitchesOn(first.next, p, events[1..]);
      AutoCommandsAppend(first.sent, Run(first.next, events[1..]).sent);
    }
  }
}
