/**
 * The fan-automation engine of script.js as pure transitions on one state
 * value: checkAutomation, the activation timer's callback, sendFanCommand and
 * the operator's handlers. Each transition returns the next state and the fan
 * commands it handed to the transport, in order.
 */
module Automation {
  import opened Wrappers
  import opened FanPresets

  /** A payload of the fan control channel. */
  datatype Command = On | Off

  /** One command handed to the transport, and whether automation issued it. */
  datatype Sent = Sent(command: Command, auto: bool)

  /**
   * The callback of the activation timer. The threshold callback keeps the
   * preset that was in force when it was scheduled; it reads the readings
   * current when it runs.
   */
  datatype Timer = AlwaysOnTimer | ThresholdTimer(preset: Preset)

  /**
   * The automation variables. `conditionMet` stands for conditionMetSince
   * being set (its timestamp is only logged); `timer` is the activation timer
   * still outstanding, so a single slot holds at most one.
   */
  datatype AutoState = AutoState(
    active: bool,
    mode: string,
    temp: Option<real>,
    hum: Option<real>,
    fanAutoState: bool,
    conditionMet: bool,
    timer: Option<Timer>)

  datatype Transition = Transition(next: AutoState, sent: seq<Sent>)

  /** The state at page load: no readings, fan off, no candidate, the switch and mode as the page shows them. */
  function Initial(mode: string, enabled: bool): (s: AutoState)
    ensures Inv(s)
  {
    AutoState(enabled, mode, None, None, false, false, None)
  }

  /**
   * What the engine keeps true between events:
   * - an outstanding timer belongs to an active engine, a fan that is not
   *   auto-on, and a recorded candidate;
   * - a recorded candidate while the fan is not auto-on has its timer
   *   outstanding (after ON fires the marker stays set, with no timer);
   * - a disabled engine records no candidate;
   * - the timer belongs to the selected mode, and a threshold timer was
   *   scheduled with both readings present.
   */
  ghost predicate Inv(s: AutoState)
  {
    && (s.timer.Some? ==> s.active && !s.fanAutoState && s.conditionMet)
    && (s.conditionMet && !s.fanAutoState ==> s.timer.Some?)
    && (!s.active ==> !s.conditionMet)
    && (s.timer == Some(AlwaysOnTimer) ==> s.mode == AlwaysOnMode)
    && (s.timer.Some? && s.timer.value.ThresholdTimer? ==>
          && s.mode != AlwaysOnMode
          && Lookup(s.mode) == Some(s.timer.value.preset)
          && s.temp.Some? && s.hum.Some?)
  }

  function Quiet(s: AutoState): (t: Transition)
  {
    Transition(s, [])
  }

  /**
   * sendFanCommand: the command goes to the transport; only an automatic
   * command updates fanAutoState.
   */
  function SendCommand(s: AutoState, command: Command, isAuto: bool): (t: Transition)
    ensures t.sent == [Sent(command, isAuto)]
    ensures t.next.fanAutoState == if isAuto then command == On else s.fanAutoState
    ensures t.next.(fanAutoState := s.fanAutoState) == s
  {
    var fanState := command == On;
    Transition(if isAuto then s.(fanAutoState := fanState) else s, [Sent(command, isAuto)])
  }

  /** checkAutomation. */
  function Check(s: AutoState): (t: Transition)
    // the guards: disabled, unknown mode, or a sensor mode without both readings
    ensures || !s.active || Lookup(s.mode).None?
            || (s.mode != AlwaysOnMode && (s.temp.None? || s.hum.None?))
            ==> t == Quiet(s)
    // a check never sends ON; it sends OFF only when the fan is auto-on, and then turns it off
    ensures t.sent == [] || (t.sent == [Sent(Off, true)] && s.fanAutoState && !t.next.fanAutoState)
    ensures t.sent == [] ==> t.next.fanAutoState == s.fanAutoState
    // the switch, the mode and the readings are not the check's to change
    ensures t.next.active == s.active && t.next.mode == s.mode
    ensures t.next.temp == s.temp && t.next.hum == s.hum
  {
    if !s.active then Quiet(s)
    else
      match Lookup(s.mode)
      case None => Quiet(s)
      case Some(p) =>
        if s.mode == AlwaysOnMode then
          if !s.fanAutoState && !s.conditionMet then
            Quiet(s.(conditionMet := true, timer := Some(AlwaysOnTimer)))
          else Quiet(s)
        else if s.temp.None? || s.hum.None? then Quiet(s)
        else
          var on := ShouldTurnOn(p, s.temp.value, s.hum.value);
          var off := ShouldTurnOff(p, s.temp.value, s.hum.value);
          if on && !s.fanAutoState then
            if !s.conditionMet then
              // any earlier timer is cleared: the new one takes the single slot
              Quiet(s.(conditionMet := true, timer := Some(ThresholdTimer(p))))
            else Quiet(s)
          else if off && s.fanAutoState then
            var cleared := if s.conditionMet then s.(conditionMet := false, timer := None) else s;
            SendCommand(cleared, Off, true)
          else if !on && s.conditionMet then
            Quiet(s.(conditionMet := false, timer := None))
          else Quiet(s)
  }

  /**
   * The activation timer's callback runs. The threshold callback re-tests the
   * latest readings against the preset it captured.
   */
  function Fire(s: AutoState): (t: Transition)
    requires Inv(s)
    ensures t.next.timer.None?
    ensures t.sent == [] || (t.sent == [Sent(On, true)] && !s.fanAutoState && t.next.fanAutoState)
    ensures t.sent == [] ==> t.next.fanAutoState == s.fanAutoState
    ensures t.next.active == s.active && t.next.mode == s.mode
    ensures t.next.temp == s.temp && t.next.hum == s.hum
  {
    match s.timer
    case None => Quiet(s)
    case Some(AlwaysOnTimer) =>
      var fired := s.(timer := None);
      if !s.fanAutoState && s.active then SendCommand(fired, On, true) else Quiet(fired)
    case Some(ThresholdTimer(p)) =>
      var fired := s.(timer := None);
      var stillOn := ShouldTurnOn(p, s.temp.value, s.hum.value);
      var notOff := !ShouldTurnOff(p, s.temp.value, s.hum.value);
      if stillOn && notOff && !s.fanAutoState && s.active then SendCommand(fired, On, true)
      else Quiet(fired.(conditionMet := false))
  }

  /** The automation switch changes (it always flips): disabling clears the candidate, enabling re-checks. */
  function Toggle(s: AutoState): (t: Transition)
    ensures t.next.active == !s.active && t.next.mode == s.mode
    ensures s.active ==> t.next.timer.None? && !t.next.conditionMet && t.sent == []
    ensures s.active ==> t.next.fanAutoState == s.fanAutoState
    ensures !s.active ==> t == Check(s.(active := true, conditionMet := false))
  {
    if s.active then Quiet(s.(active := false, timer := None, conditionMet := false))
    else Check(s.(active := true, conditionMet := false))
  }

  /** The mode selector changes: while active, the candidate is dropped and the new mode is checked. */
  function ChangeMode(s: AutoState, mode: string): (t: Transition)
    ensures t.next.mode == mode && t.next.active == s.active
    ensures s.active ==> t == Check(s.(mode := mode, timer := None, conditionMet := false))
    ensures !s.active ==> t == Quiet(s.(mode := mode))
  {
    if s.active then Check(s.(mode := mode, timer := None, conditionMet := false))
    else Quiet(s.(mode := mode))
  }

  function UpdateTemperature(s: AutoState, value: real): (t: Transition)
    ensures t.next.temp == Some(value) && t.next.hum == s.hum
  {
    Check(s.(temp := Some(value)))
  }

  function UpdateHumidity(s: AutoState, value: real): (t: Transition)
    ensures t.next.hum == Some(value) && t.next.temp == s.temp
  {
    Check(s.(hum := Some(value)))
  }

  /** Everything that can happen to the engine. */
  datatype Event =
    | TemperatureReading(temperature: real)
    | HumidityReading(humidity: real)
    | AutomationToggled
    | ModeChanged(newMode: string)
    | TimerFired
    | ManualCommand(command: Command)

  function Apply(s: AutoState, e: Event): (t: Transition)
    requires Inv(s)
    ensures Inv(t.next)
  {
    match e
    case TemperatureReading(v) => UpdateTemperature(s, v)
    case HumidityReading(v) => UpdateHumidity(s, v)
    case AutomationToggled => Toggle(s)
    case ModeChanged(m) => ChangeMode(s, m)
    case TimerFired => Fire(s)
    case ManualCommand(c) => SendCommand(s, c, false)
  }

  /** Events processed in arrival order; the commands of all steps, in order. */
  function Run(s: AutoState, events: seq<Event>): (t: Transition)
    requires Inv(s)
    ensures Inv(t.next)
    decreases |events|
  {
    if events == [] then Quiet(s)
    else
      var first := Apply(s, events[0]);
      var rest := Run(first.next, events[1..]);
      Transition(rest.next, first.sent + rest.sent)
  }
}
