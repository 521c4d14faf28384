/**
 * The automation variables of script.js as one object whose methods update
 * them in place, as checkAutomation, the timer callback, sendFanCommand and
 * the event handlers do. Each method is proved to perform exactly the
 * corresponding transition of module Automation: SendFanCommand is
 * SendCommand, CheckAutomation is Check, FireActivationTimer is Fire,
 * ToggleAutomation is Toggle, ChangeFanMode is ChangeMode, and
 * UpdateTemperature and UpdateHumidity are their namesakes.
 */
module Engine {
  import opened Wrappers
  import opened FanPresets
  import opened Automation
  import opened ChartWindow

  class FanAutomation {
    var automationActive: bool
    var mode: string
    var currentTemp: Option<real>
    var currentHum: Option<real>
    var fanAutoState: bool
    var conditionMet: bool
    var activationTimer: Option<Timer>
    /** The commands handed to the transport, oldest first. */
    var log: seq<Sent>

    function State(): (s: AutoState)
      reads this
    {
      AutoState(automationActive, mode, currentTemp, currentHum, fanAutoState, conditionMet, activationTimer)
    }

    ghost predicate Valid()
      reads this
    {
      Inv(State())
    }

    /** Page load: the selected mode and the switch's checked state; no readings yet. */
    constructor (selectedMode: string, enabled: bool)
      ensures Valid()
      ensures State() == Initial(selectedMode, enabled) && log == []
    {
      automationActive := enabled;
      mode := selectedMode;
      currentTemp, currentHum := None, None;
      fanAutoState, conditionMet := false, false;
      activationTimer := None;
      log := [];
    }

    method SendFanCommand(command: Command, isAuto: bool)
      modifies this
      ensures State() == SendCommand(old(State()), command, isAuto).next
      ensures log == old(log) + [Sent(command, isAuto)]
    {
      var fanState := command == On;
      if isAuto {
        fanAutoState := fanState;
      }
      log := log + [Sent(command, isAuto)];
    }

    method CheckAutomation()
      requires Valid()
      modifies this
      ensures Valid()
      ensures State() == Check(old(State())).next
      ensures log == old(log) + Check(old(State())).sent
    {
      if !automationActive {
        return;
      }
      var preset := Lookup(mode);
      if preset.None? {
        return;
      }
      if mode == AlwaysOnMode {
        if !fanAutoState && !conditionMet {
          conditionMet := true;
          activationTimer := Some(AlwaysOnTimer);
        }
        return;
      }
      if currentTemp.None? || currentHum.None? {
        return;
      }
      var p := preset.value;
      var shouldTurnOn := ShouldTurnOn(p, currentTemp.value, currentHum.value);
      var shouldTurnOff := ShouldTurnOff(p, currentTemp.value, currentHum.value);
      if shouldTurnOn && !fanAutoState {
        if !conditionMet {
          conditionMet := true;
          activationTimer := Some(ThresholdTimer(p));
        }
      } else if shouldTurnOff && fanAutoState {
        if conditionMet {
          conditionMet := false;
          activationTimer := None;
        }
        SendFanCommand(Off, true);
      } else if !shouldTurnOn && conditionMet {
        conditionMet := false;
        activationTimer := None;
      }
    }

    /** The outstanding activation timer's callback runs; with none outstanding nothing happens. */
    method FireActivationTimer()
      requires Valid()
      modifies this
      ensures Valid()
      ensures State() == Fire(old(State())).next
      ensures log == old(log) + Fire(old(State())).sent
    {
      match activationTimer
      case None =>
      case Some(AlwaysOnTimer) =>
        activationTimer := None;
        if !fanAutoState && automationActive {
          SendFanCommand(On, true);
        }
      case Some(ThresholdTimer(p)) =>
        activationTimer := None;
        var stillOn := ShouldTurnOn(p, currentTemp.value, currentHum.value);
        var notOff := !ShouldTurnOff(p, currentTemp.value, currentHum.value);
        if stillOn && notOff && !fanAutoState && automationActive {
          SendFanCommand(On, true);
        } else {
          conditionMet := false;
        }
    }

    /** The automation switch's change event: the switch flips. */
    method ToggleAutomation()
      requires Valid()
      modifies this
      ensures Valid()
      ensures State() == Toggle(old(State())).next
      ensures log == old(log) + Toggle(old(State())).sent
    {
      automationActive := !automationActive;
      if !automationActive {
        activationTimer := None;
        conditionMet := false;
      } else {
        conditionMet := false;
        CheckAutomation();
      }
    }

    /** The mode selector's change event. */
    method ChangeFanMode(newMode: string)
      requires Valid()
      modifies this
      ensures Valid()
      ensures State() == ChangeMode(old(State()), newMode).next
      ensures log == old(log) + ChangeMode(old(State()), newMode).sent
    {
      mode := newMode;
      if automationActive {
        activationTimer := None;
        conditionMet := false;
        CheckAutomation();
      }
    }

    /**
     * A temperature reading arrives: it is charted when the display element
     * exists, then recorded and checked.
     */
    method UpdateTemperature(value: real, chart: ChartHistory, displayPresent: bool, timeLabel: string)
      requires Valid() && chart.Valid()
      modifies this, chart
      ensures Valid() && chart.Valid()
      ensures State() == Automation.UpdateTemperature(old(State()), value).next
      ensures log == old(log) + Automation.UpdateTemperature(old(State()), value).sent
      ensures chart.Model() ==
        if displayPresent then AddPoint(old(chart.Model()), Temperature, value, timeLabel) else old(chart.Model())
    {
      if displayPresent {
        chart.AddDataPoint(Temperature, value, timeLabel);
      }
      currentTemp := Some(value);
      CheckAutomation();
    }

    /** A humidity reading arrives, as for temperature. */
    method UpdateHumidity(value: real, chart: ChartHistory, displayPresent: bool, timeLabel: string)
      requires Valid() && chart.Valid()
      modifies this, chart
      ensures Valid() && chart.Valid()
      ensures State() == Automation.UpdateHumidity(old(State()), value).next
      ensures log == old(log) + Automation.UpdateHumidity(old(State()), value).sent
      ensures chart.Model() ==
        if displayPresent then AddPoint(old(chart.Model()), Humidity, value, timeLabel) else old(chart.Model())
    {
      if displayPresent {
        chart.AddDataPoint(Humidity, value, timeLabel);
      }
      currentHum := Some(value);
      CheckAutomation();
    }
  }
}
