# EPS power-safety controller — Dafny model

This project models the per-tick power-safety decision of the EPS (electrical
power system) script of a battery-backed Raspberry Pi. The script is meant to
work as follows. Each polling tick takes the two cell voltages `v1` and `v2`
of a two-cell pack. If the pack voltage `v1 + v2` is at or below the critical
voltage 6.7 V, the tick asks the operating system to halt. It then drives
three LEDs on GPIO pins 1 (red), 2 (yellow) and 3 (green): green above
8.4 V, yellow above 6.9 V up to and including 8.4 V, red at or below 6.9 V.
A push button on pin 4 also asks the OS to halt. A restart routine exists
but nothing calls it.

As written, the script does not get that far: the status line of every tick
raises before the LEDs are driven, and the button callback raises before it
halts. Both defects are modelled and shown under "## Findings". The rest of
the model states the intended behaviour.

Every operation of the script is a sequence of side effects: a write of a
level to a GPIO pin, or a privileged OS command (`Halt`, `Reboot`). The model
states each operation as the ordered list of `Effect`s it issues
(`EpsSpec.LightLedEffects`, `TickEffects`, `ShutDownEffects`, ...), and
`EpsSpec.Perform` gives the board those effects leave: the pin levels and the
append-only log of OS commands.

- `eps_spec.dfy` (module `EpsSpec`): constants, effects, the board, the
  specification of every operation, and the lemmas about them.
- `eps_controller.dfy` (module `EpsController`): class `Controller`, whose
  fields are the pin levels and the command log. Its methods write them step
  by step, as the script does. A ghost trace records every effect, and each
  method is proved to issue exactly its operation's effects, in order.
- `eps_findings.dfy` (module `EpsFindings`): the two defects of the script
  as written. It models `str.format`'s replacement fields and Python's
  argument-count check on a call, and derives both errors from them (see
  "## Findings").

Voltages are Dafny `real`s. The script only adds and compares them, so exact
reals stand in for the Python floats.

The script has no at-most-once guard on shutdown. In the intended script
every critical tick and every button press issues another `Halt`, and the
model does the same (`EpsSpec.ReplayLog`, `CriticalTicksEachHalt`,
`PressesEachHalt`).

## Model

| member | source | states |
|---|---|---|
| `EpsSpec.Perform` | EPS/EPS_script_ver1.0.py:84-96 | Effects are carried out in order. The log grows by exactly the commands issued, and a pin that is not written keeps its level. |
| `EpsSpec.SelectIndicator` | EPS/EPS_script_ver1.0.py:85-96 | Green if and only if v > 8.4; yellow if and only if 6.9 < v <= 8.4; red if and only if v <= 6.9. |
| `EpsSpec.BandBoundaries` | EPS/EPS_script_ver1.0.py:85-96 | 8.4 V lights yellow and 6.9 V lights red; 6.7 V is critical and 6.71 V is not. |
| `EpsSpec.LightLedEffects` | EPS/EPS_script_ver1.0.py:84-96 | light_led writes exactly the three LED pins and issues no OS command. |
| `EpsSpec.LightLedPins` | EPS/EPS_script_ver1.0.py:84-96 | The pins after light_led(v) are the prior pins with green, yellow and red set to the levels of v's band. They depend on the prior board only through its pins. |
| `EpsSpec.LightLedOutcome` | EPS/EPS_script_ver1.0.py:84-96 | After light_led(v) exactly one LED is HIGH, the one of v's band. Every other pin, including button pin 4, and the command log are unchanged. |
| `EpsSpec.LightLedIgnoresPriorState` | EPS/EPS_script_ver1.0.py:84-96 | The LED levels after light_led(v) depend only on v, not on the levels before. |
| `EpsSpec.LightLedIdempotent` | EPS/EPS_script_ver1.0.py:84-96 | Calling light_led twice with the same v leaves the same board as calling it once. |
| `EpsSpec.ShutDownEffects` | EPS/EPS_script_ver1.0.py:71-76 | shut_down issues one Halt and writes no pin. |
| `EpsSpec.RestartEffects` | EPS/EPS_script_ver1.0.py:62-67 | restart issues one Reboot and writes no pin. |
| `EpsSpec.TurnOffRpiEffects` | EPS/EPS_script_ver1.0.py:51-59 | The button callback issues one Halt (through shut_down) and writes no pin. |
| `EpsSpec.IsCritical` | EPS/EPS_script_ver1.0.py:111 | The cutoff test v_t <= 6.7 (CRITIC_VOLT, line 48). A critical voltage always falls in the red LED band. |
| `EpsSpec.TickEffects` | EPS/EPS_script_ver1.0.py:107-115 | A tick issues Halt if and only if v1 + v2 <= 6.7, and otherwise no command. Any command comes before every pin write. |
| `EpsSpec.TickEndsWithLightLed` | EPS/EPS_script_ver1.0.py:110-115 | A tick ends with light_led's three writes for the same v1 + v2 that the check used. |
| `EpsSpec.TickOutcome` | EPS/EPS_script_ver1.0.py:107-115 | After a tick the log is the old log plus one Halt when v1 + v2 <= 6.7 (boundary included), and is unchanged otherwise. The pins are as light_led(v1 + v2) leaves them. |
| `EpsSpec.CutoffShowsRed` | EPS/EPS_script_ver1.0.py:110-115 | A tick that requests shutdown leaves red HIGH and yellow and green LOW. |
| `EpsSpec.EventOutcome` | EPS/EPS_script_ver1.0.py:99-115 | A tick or a button press appends one Halt when it requests a halt, and nothing otherwise. |
| `EpsSpec.ReplayLog` | EPS/EPS_script_ver1.0.py:119-122 | Over any sequence of ticks and presses, handled one after the other, the log grows by one Halt per requesting event. Nothing is deduplicated and no Reboot is ever issued. |
| `EpsSpec.CriticalTicksEachHalt` | EPS/EPS_script_ver1.0.py:110-112 | n consecutive critical ticks append n Halt commands. |
| `EpsSpec.PressesEachHalt` | EPS/EPS_script_ver1.0.py:51-59 | n button presses append n Halt commands. |
| `EpsController.Controller.Output` | EPS/EPS_script_ver1.0.py:86-88 | GPIO.output sets one pin to a level and changes nothing else. |
| `EpsController.Controller.Issue` | EPS/EPS_script_ver1.0.py:73-75 | Running a privileged OS command (shutdown here; restart's at lines 64-66 works the same way) appends that command to the log and changes no pin. |
| `EpsController.Controller.ShutDown` | EPS/EPS_script_ver1.0.py:71-76 | Issues exactly `ShutDownEffects`. The new state is that of performing them on the old one. |
| `EpsController.Controller.Restart` | EPS/EPS_script_ver1.0.py:62-67 | Issues exactly `RestartEffects`. The new state is that of performing them on the old one. |
| `EpsController.Controller.TurnOffRpi` | EPS/EPS_script_ver1.0.py:51-59 | Issues exactly `TurnOffRpiEffects`. The new state is that of performing them on the old one. |
| `EpsController.Controller.LightLed` | EPS/EPS_script_ver1.0.py:84-96 | The three branches' writes are exactly `LightLedEffects(v)`, in order. The new state is that of performing them. |
| `EpsController.Controller.Tick` | EPS/EPS_script_ver1.0.py:107-116 | The check-then-LED tick issues exactly `TickEffects(v1, v2)`, in order. The new state is that of performing them. |
| `EpsFindings.FormatError` | EPS/EPS_script_ver1.0.py:113 | str.format fails exactly when some replacement field cannot be filled from the arguments given, and the error is that of such a field: KeyError for a name, IndexError for a position. |
| `EpsFindings.Loop` | EPS/EPS_script_ver1.0.py:107-115 | The tick runs the critical check and then formats the status line. If formatting fails, the tick raises that error with the pins unchanged and the check's log. Otherwise it ends exactly as the intended tick. |
| `EpsFindings.LoopAsWrittenRaises` | EPS/EPS_script_ver1.0.py:113 | With the template of line 113, a single field named f and one positional argument, every tick raises KeyError('f'). No pin is written, and the log is what the check issued. |
| `EpsFindings.LoopAsWrittenNeverLightsLed` | EPS/EPS_script_ver1.0.py:113-115 | Take v1 = v2 = 4.5 with all LEDs off. The tick as written leaves green off, while the intended tick lights it. |
| `EpsFindings.LoopWithPositionalFieldIsTick` | EPS/EPS_script_ver1.0.py:107-115 | With the voltage formatted positionally, every tick completes as the intended tick. |
| `EpsFindings.Call` | EPS/EPS_script_ver1.0.py:51-59 | Definition: a Python call of a function. With the wrong number of arguments it raises TypeError and has no effect; otherwise the body runs. Its properties are stated by `EpsFindings.FallingEdge`. |
| `EpsFindings.FallingEdge` | EPS/EPS_script_ver1.0.py:104 | The falling-edge dispatch calls the callback with one argument, the channel. It returns exactly when the callback takes one parameter, and then the board is what the callback's body produces. Otherwise it raises TypeError(parameters, 1 given) and nothing changes. |
| `EpsFindings.ButtonAsWrittenNeverHalts` | EPS/EPS_script_ver1.0.py:51-59 | turn_off_rpi as written takes no parameter, so a press on pin 4 raises TypeError(0 parameters, 1 given) and issues no Halt. |
| `EpsFindings.ButtonWithChannelHalts` | EPS/EPS_script_ver1.0.py:51-59 | With a channel parameter and the same body, a press returns and appends exactly one Halt. |

## Findings

| source | as written | input that shows it | evidently intended | confidence | as-written member | corrected member |
|---|---|---|---|---|---|---|
| EPS/EPS_script_ver1.0.py:113 | The status line formats the pack voltage with a named placeholder `f` but passes the voltage positionally. The call raises KeyError('f') before line 114 and light_led run, and the uncaught exception ends the script after its first tick. | Any tick, e.g. v1 = v2 = 4.5 with all LEDs off: green stays off. | Format the voltage positionally, so that every tick reaches light_led. | high (Python's str.format semantics); not executed | `EpsFindings.LoopAsWrittenRaises`, `EpsFindings.LoopAsWrittenNeverLightsLed` | `EpsFindings.LoopWithPositionalFieldIsTick`, with `EpsSpec.TickOutcome`. `EpsController.Controller.Tick` implements `EpsSpec.TickEffects`, the tick without the status line. |
| EPS/EPS_script_ver1.0.py:51 | turn_off_rpi takes no parameter. RPi.GPIO calls an event callback with the channel number, so the call raises TypeError and shut_down is never reached. | Any falling edge on the off button, pin 4. | The callback accepts the channel argument and halts the host. | medium (rests on RPi.GPIO's calling convention; that library is not part of this model); not executed | `EpsFindings.ButtonAsWrittenNeverHalts` | `EpsFindings.ButtonWithChannelHalts`, with `EpsSpec.PressesEachHalt`. `EpsController.Controller.TurnOffRpi` implements `EpsSpec.TurnOffRpiEffects`, the callback's body. |

## Left out

- find_power_percent (EPS/EPS_script_ver1.0.py:79-81): it averages the output of the charge-curve interpolator `BatCurvInterp`, and BatCurvInterp is not part of this model. The polynomial curve and `np.mean` on floats are therefore not modelled, and the charge percentage never influences a decision.
- The I2C bus, the ADS1115 converter and its channels and gain (lines 14-23, 35-36, 108-109) are hardware I/O. `v1` and `v2` are inputs of each tick.
- GPIO configuration in `setup` (lines 99-103) and the registration of the falling-edge interrupt (line 104) are not modelled. The dispatch that the registration sets up, a call of the callback with the channel number, is `EpsFindings.FallingEdge`. The 100 ms debounce is not modelled either: a button press is one sequential event.
- The `subprocess.Popen` shell commands in shut_down and restart are not modelled, nor the output they print. Each is one `Halt` or `Reboot` appended to the command log. Whether the OS accepts the command, and the termination that follows a halt, are not modelled: the log records requests, and events after a `Halt` are still processed.
- `time.sleep` (line 116) and the reading frequency (lines 29-30) are not modelled: time is not modelled.
- The `while True` driver (lines 119-122) is modelled only as `EpsSpec.Replay` over a finite sequence of events. Replay follows the intended tick, not the as-written one that ends the script after its first tick.
- Concurrency between the button interrupt and the polling loop is not modelled. The script has no synchronisation, and a press is treated as one event between ticks.
- The status prints (lines 113-114) are not modelled, beyond whether line 113's formatting succeeds (`EpsFindings.Loop`). The intended tick is modelled without them. Line 114's charge estimate is left out together with find_power_percent.
- `EpsFindings.FormatError` covers plain `{0}` and `{name}` fields only: no auto-numbered `{}`, attribute or index lookups, or format specifications.
- Floating-point rounding of `v1 + v2` is not modelled: voltages are exact reals.
- src/ground_station.py is not part of this model: it holds only signal handling and a sleep loop.
