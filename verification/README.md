# Fan automation engine of the weather-monitoring dashboard, in Dafny

The dashboard (`script.js`) receives temperature and humidity readings and drives one fan. It drives it either by manual commands or by an automation engine. This project models that engine and the bounded chart history the readings feed.

**The preset catalog.** `fanModePresets` has three modes: `very_hot`, `hot` and `always_on`. Each mode has an on-threshold and an off-threshold per variable, plus a comparison direction.

**The on/off tests.** Both flags use strict comparisons:
- `shouldTurnOn` holds when either variable is strictly beyond its on-threshold.
- `shouldTurnOff` holds when either variable is strictly short of its off-threshold.

**The hysteresis state machine in `checkAutomation`.**
- *Guards.* A check does nothing while automation is disabled or for an unknown mode. Outside `always_on` it also does nothing until both readings are known.
- *Debounced ON.* The first check whose on-test passes, while the fan is not auto-on, records a candidate (`conditionMetSince`) and schedules the single activation timer. When the timer fires, its callback re-tests the latest readings against the thresholds it captured. It sends ON only if the on-test still passes, the off-test fails, the fan is not auto-on and automation is active. Otherwise it drops the candidate.
- *Immediate OFF.* When the fan is auto-on and the off-test passes, any pending timer is cancelled and OFF is sent at once.
- *Lapse.* A candidate whose on-test lapses is dropped, and its timer is cancelled.
- *`always_on`.* This mode needs no readings. It schedules one timer, whose callback sends ON.

**Operator handlers and `sendFanCommand`.**
- Disabling automation cancels the timer and the candidate but keeps `fanAutoState`.
- Enabling automation clears the candidate and checks at once.
- A mode change while automation is active cancels everything and checks under the new mode.
- `sendFanCommand` updates `fanAutoState` only for automatic commands.

**Two layers.**
- Module `Automation` gives every operation as a pure transition on an `AutoState` value. Each transition returns the next state and the commands sent, and `Run` processes a sequence of events in arrival order.
- Class `Engine.FanAutomation` holds the same variables as fields, and its methods update them in place as the JavaScript does. Each method is proved to perform exactly the corresponding transition: `SendFanCommand` is `SendCommand`, `CheckAutomation` is `Check`, `FireActivationTimer` is `Fire`, `ToggleAutomation` is `Toggle`, `ChangeFanMode` is `ChangeMode`, and `UpdateTemperature` and `UpdateHumidity` are their namesakes. All of them except `SendFanCommand` keep the engine invariant `Automation.Inv`. `SendFanCommand` is a helper: an automatic ON sent on its own while a timer is pending would break the invariant, and the engine calls it only where the invariant is restored.
- Module `ChartWindow` does the same for `addDataPoint`: a pure `AddPoint` and the class `ChartHistory`, whose push/shift method is proved against it.

**The activation timer.** It is a single slot holding the pending callback, so at most one timer is outstanding by construction. Scheduling a new callback replaces the old one, as the source's `clearTimeout` before `setTimeout` does. Firing is an explicit event.

**Notable behaviours proved about the code as written:**
- Automatic commands strictly alternate. Starting from page load the first one is ON, and no automatic command is ever sent twice in a row (`AutomationTraces.NoRepeatedAutoCommand`).
- The callback's own checks of `fanAutoState` and `automationActive` always pass. The engine keeps a timer only while both hold (`AutomationProperties.FireAlwaysOnSendsOn`, `Automation.Inv`).
- After ON is sent, `conditionMetSince` stays set with no timer outstanding. The only effect is that the next check through the OFF or lapse branch clears it; the invariant `Inv` states exactly when the marker may be set.
- Because `shouldTurnOff` is an OR over the two variables, the timer callback cancels every candidate while humidity passes its off-test. So in mode `hot`, while humidity is below 65%, no temperature however high switches the fan on (`AutomationTraces.DryHeatNeverSwitchesOn`). The preset descriptions in the source say the fan turns on when temperature is high *or* humidity is high; the model keeps the code's rule.

**Behaviours of `script.js` worth knowing:**
- A manual (non-automatic) command does not update the commanded state `fanAutoState`; only automatic commands do. No caller in `script.js` issues a manual command. The model covers `sendFanCommand(..., false)` as the `ManualCommand` event.
- The candidate marker is not cleared when ON is sent. So "marker set" and "timer outstanding" differ after an activation.
- Automatic commands are never duplicated, as proved above.

**How the inputs are modelled.**
- Readings are `real` and only compared, so no arithmetic is involved.
- A reading that has not arrived yet is `None`.
- The comparison direction is the two-valued `Direction`: the code treats anything other than `'below'` as `'above'`, and every preset says `'above'`.

## Model

| member | source | states |
|---|---|---|
| `FanPresets.Lookup` | script.js:39-67 | exactly the three mode ids are known; the `hot` and `very_hot` thresholds are those of the catalog; any other id yields None |
| `FanPresets.OnMet` | script.js:752-753 | the on-test of one variable passes only off the threshold, and exactly when the reading is off the threshold and not beyond it in the other direction |
| `FanPresets.OffMet` | script.js:757-758 | the off-test of one variable passes exactly when the reading is off the threshold and fails the on-test against that same threshold |
| `FanPresets.ShouldTurnOn` | script.js:752-754 | for a hysteretic preset, whenever the on-flag is set the two variables do not both pass their off-tests |
| `FanPresets.ShouldTurnOff` | script.js:757-759 | for a hysteretic preset, whenever the off-flag is set the two variables do not both pass their on-tests |
| `FanPresets.NeverOnAndOffMet` | script.js:752-759 | with the off-threshold not beyond the on-threshold, no reading passes the on-test and the off-test of one variable together |
| `FanPresets.OnAndOffMetWithoutHysteresis` | script.js:752-759 | conversely, if the thresholds are ordered the other way, some reading passes both tests |
| `FanPresets.DeadBand` | script.js:752-759 | the readings passing neither test are exactly those between the two thresholds, ends included, because the tests are strict |
| `FanPresets.CatalogIsHysteretic` | script.js:39-67 | every preset compares 'above' and is hysteretic; very_hot and hot have tempOff < tempOn and humOff < humOn |
| `FanPresets.BothFlagsPossible` | script.js:752-759 | for every preset some pair of readings makes shouldTurnOn and shouldTurnOff both true |
| `FanPresets.BothFlagsNeedBothVariables` | script.js:752-759 | for a hysteretic preset, when both flags hold, one variable is on-met and the other off-met |
| `Automation.Initial` | script.js:70-75 | the page-load state (no readings, fan not auto-on, no candidate, no timer) satisfies the engine invariant |
| `Automation.SendCommand` | script.js:641-648 | the command is sent; fanAutoState becomes (command == ON) for an automatic command and is unchanged for a manual one; nothing else changes |
| `Automation.Check` | script.js:700-822 | disabled, unknown mode, or a sensor mode without both readings: nothing changes and nothing is sent; a check never sends ON, sends at most OFF and only from auto-on; it never changes the switch, the mode or the readings |
| `Automation.Fire` | script.js:779-797 | after the callback no timer is outstanding; it sends at most ON, only when the fan was not auto-on, and then the fan is auto-on; switch, mode and readings unchanged |
| `Automation.Toggle` | script.js:839-855 | the switch flips; disabling cancels timer and candidate, sends nothing and keeps fanAutoState; enabling clears the candidate and is exactly a check |
| `Automation.ChangeMode` | script.js:860-872 | the mode becomes the new id; while active, timer and candidate are cleared and then the new mode is checked; while disabled, only the mode changes |
| `Automation.UpdateTemperature` | script.js:532-533 | after the reading, the temperature is known with the new value and humidity is untouched (the check that follows cannot change readings) |
| `Automation.UpdateHumidity` | script.js:542-543 | after the reading, the humidity is known with the new value and temperature is untouched |
| `Automation.Apply` | script.js:700-872 | every event (reading, toggle, mode change, timer firing, manual command) preserves the engine invariant |
| `Automation.Run` | script.js:700-872 | any sequence of events processed in arrival order preserves the engine invariant |
| `AutomationProperties.CheckStartsDebounce` | script.js:765-800 | on-test passing and fan not auto-on: with no candidate, the candidate is recorded and one timer capturing the preset takes the slot; with a candidate pending, nothing changes |
| `AutomationProperties.CheckTurnsOffImmediately` | script.js:801-813 | fan auto-on and off-test passing: OFF is sent at once, and no candidate or timer is left |
| `AutomationProperties.CheckCancelsLapsedCandidate` | script.js:814-821 | on-test failing with a candidate recorded, OFF branch not applicable: candidate and timer dropped, nothing sent |
| `AutomationProperties.CheckOtherwiseKeepsState` | script.js:765-821 | with both readings known and none of the ON-candidate, immediate-OFF and lapse branches applicable, the check changes nothing and sends nothing |
| `AutomationProperties.FireSendsOnOnlyIfStillMet` | script.js:779-797 | ON is sent iff the latest readings pass the captured on-test and fail the captured off-test and the fan is not auto-on and automation is active; on that path the candidate marker stays; otherwise it is cleared and nothing is sent |
| `AutomationProperties.FireAlwaysOnSendsOn` | script.js:724-729 | from any reachable state, the always_on callback always sends ON: its guards always hold |
| `AutomationProperties.AlwaysOnSchedulesOnce` | script.js:716-733 | always_on with fan not auto-on and no candidate schedules the timer; with a candidate pending or the fan on, nothing changes |
| `AutomationProperties.AlwaysOnNeedsNoReadings` | script.js:716-733 | in always_on mode the check's outcome does not depend on the readings |
| `AutomationProperties.LapsedCandidateNeverFires` | script.js:814-821 | a pending candidate whose on-test has lapsed is dropped by the next check, and no ON is ever sent for it |
| `AutomationProperties.CheckTwiceSendsNothingMore` | script.js:765-821 | a second check right after a first sends nothing |
| `AutomationProperties.RepeatedReadingSendsNothingMore` | script.js:527-544 | the same reading delivered twice sends nothing the second time |
| `AutomationProperties.DisableThenEnable` | script.js:840-853 | disabling leaves exactly the state with timer and candidate cleared and fanAutoState kept; re-enabling is a check from that state |
| `AutomationProperties.ModeChangeDropsStaleTimer` | script.js:863-871 | after a mode change the outstanding timer, if any, belongs to the new mode, so no timer of the old mode can fire |
| `AutomationProperties.ManualCommandKeepsState` | script.js:646-648 | a manual command is sent and changes no engine state, fanAutoState included |
| `AutomationTraces.StepFlipsOrKeeps` | script.js:641-648 | each event sends no automatic command and keeps the fan state, or sends exactly the one command that flips it |
| `AutomationTraces.AutoCommandsAlternate` | script.js:700-872 | over any event sequence the automatic commands alternate starting with the flip of the initial fan state, and the final fanAutoState is what the last of them asserted |
| `AutomationTraces.AlternationNeverRepeats` | script.js:641-648 | alternating commands never repeat one another |
| `AutomationTraces.NoRepeatedAutoCommand` | script.js:700-872 | from page load the first automatic command is ON and no automatic command is sent twice in a row |
| `AutomationTraces.NoChatterWhileOn` | script.js:801-821 | fan auto-on and readings never passing the off-test: no automatic command, fan stays auto-on, no timer is ever started |
| `AutomationTraces.NoActivationBelowOnThreshold` | script.js:765-800 | fan not auto-on, no candidate, readings never passing the on-test: no automatic command and no timer |
| `AutomationTraces.NoOnWhileOnTestFails` | script.js:765-821 | from either fan state with no timer outstanding, readings that never pass the on-test never start a timer and never make automation send ON, even when OFF is sent on the way |
| `AutomationTraces.DryHeatNeverSwitchesOn` | script.js:785-797 | while humidity passes its off-test, no event sequence ever makes automation switch the fan on |
| `AutomationTraces.ScenarioHotDebounce` | script.js:49-57 | mode hot, humidity 66, temperatures 29, 29.5, 30.5, then the timer: the first reading above 28 leaves one pending timer capturing the hot preset; exactly one ON is sent; a further warm reading sends nothing |
| `AutomationTraces.ScenarioAlwaysOnWithoutReadings` | script.js:716-733 | always_on with no readings: enabling then firing sends ON once; a later reading, which checks again, and a later firing send nothing more |
| `ChartWindow.Push` | script.js:583-591 | the new value is last; the window stays within 20; the oldest element is dropped exactly when the window was already full |
| `ChartWindow.PushKeepsNewest` | script.js:583-591 | one push leaves the newest 20 of the window plus the value |
| `ChartWindow.PushAllKeepsNewest` | script.js:583-591 | any run of pushes leaves exactly the newest 20 values ever pushed, oldest first |
| `ChartWindow.AddPoint` | script.js:579-612 | the other series is untouched; all three arrays stay within 20; a time label is pushed exactly when the two series then have equal length |
| `ChartWindow.AddPointSlidesItsSeries` | script.js:582-592 | the series ends with the new value, holds the newest readings of that series, and grew by one exactly when it was not yet full |
| `ChartWindow.ChartHistory.constructor` | script.js:8-10 | the three arrays start empty |
| `ChartWindow.ChartHistory.AddDataPoint` | script.js:579-612 | push/shift in place yields exactly `AddPoint` of the old arrays, and the 20-element bound is kept |
| `Engine.FanAutomation.constructor` | script.js:952-962 | page load: the switch's state and the selected mode, no readings, fan not auto-on, no timer, empty log, invariant established |
| `Engine.FanAutomation.SendFanCommand` | script.js:641-648 | appends the command to the log and updates the fields exactly as `SendCommand` |
| `Engine.FanAutomation.CheckAutomation` | script.js:700-822 | updates the fields and the log exactly as `Check`, keeping the invariant |
| `Engine.FanAutomation.FireActivationTimer` | script.js:779-797 | updates the fields and the log exactly as `Fire`, keeping the invariant |
| `Engine.FanAutomation.ToggleAutomation` | script.js:839-855 | updates the fields and the log exactly as `Toggle`, keeping the invariant |
| `Engine.FanAutomation.ChangeFanMode` | script.js:860-872 | updates the fields and the log exactly as `ChangeMode`, keeping the invariant |
| `Engine.FanAutomation.UpdateTemperature` | script.js:527-534 | charts the value when the display exists, then records and checks it exactly as `UpdateTemperature` |
| `Engine.FanAutomation.UpdateHumidity` | script.js:537-544 | as for temperature, with the humidity series |

## Left out

- The MQTT transport (connect, subscribe, publish with its error callbacks and alerts). A sent command is an entry appended to the log, whether or not a client is connected.
- Parsing in `handleMQTTMessage` (`parseFloat`, `JSON.parse`). Readings arrive as already-parsed numbers. The model does not cover the JSON status path handing a non-number to `updateTemperature`.
- Wall-clock time:
  - `conditionMetSince` is a boolean "candidate recorded", because its timestamp is only logged.
  - The one-second delay is not modelled. The timer fires when the `TimerFired` event arrives.
  - The time-label text (`toLocaleTimeString`, with or without seconds) is a parameter.
- The fallback to mode `hot` when the mode selector element is missing. The mode is a field, set at page load and by the change handler.
- Property names inherited by JavaScript objects (`fanModePresets['constructor']`). The catalog is a map with exactly the three ids.
- The DOM and its fixed elements:
  - `updateFanStatus`, the status display that `sendFanCommand` also updates;
  - `applyFanMode` text and the preset descriptions;
  - connection status, timestamps, view switching, sidebar and `localStorage`.
- Chart.js configuration and rendering.
- `firebase-init.js` is not part of this model: it holds only module imports and initialisation.
- The weather classifier and classified policies are not part of this model; no shown file contains them.
- The page-load automation check (script.js:955-961) runs only when both readings are already known. At page load they never are, so the constructor performs no check.
