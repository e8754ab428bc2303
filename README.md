# uPurifier command core, in Dafny

A model of the command-handling core of uPurifier, a MicroPython firmware
that lets an ESP8266 board drive the fan of an IKEA air purifier from Home
Assistant over MQTT and from the purifier's own buttons. The model covers the
`SmartAirPurifier` class in `upurifier.py`:

- the **modes table**: codes 0 to 3, the words `ON`/`OFF` and the preset names
  `off`/`low`/`medium`/`high`, each mapped to a power state, a speed, a PWM
  frequency, a duty and a preset name (module `Modes`);
- **`mqtt_callback`**: which payloads take effect on which topic, the
  percentage-to-preset bucketing, the frequency formula, and the three status
  publications in their two different orders (`Reconciler` states this as a
  value, `Purifier.SmartAirPurifier.MqttCallback` carries it out on the
  device object);
- **`btn_callback`** and the body of one iteration of **`main`**: the reconnect
  budget, the three-button priority layout ("fornuftig") with its change
  test against `btn_prev`, and the one-button cyclic layout ("uppatvind")
  (`Buttons`, `Purifier`);
- **`parse_request`**: the query string of the captive portal's GET line
  stored into the configuration dictionary (`Request`, `Text`);
- the topic strings of `connect_mqtt` and the friendly name and model string
  of `connect_ha` (`Topics`).

The device object is a class whose fields are the PWM frequency and duty, the
log of every publication, the loop variables `btn_state`, `btn_prev` and
`attempts`, and the configuration map. Its invariant `Valid()` includes
status consistency: the output is off (1 Hz, duty 0) and
the last report is `OFF`, `0`, `off`, or it is on (duty 512, 82 to 300 Hz) and
the last report is `ON`, a non-zero speed and a running preset. Every
callback, tick and run keeps it.

One iteration of the loop of `main` is also a pure function, `TickStep`, on
a `Machine` value (output, log, button variables, budget), and `RunFrom`
runs ticks in order until one ends `main`. `Tick` and `Run` are proved to
compute exactly these, and the consistency and budget facts are lemmas about
`RunFrom`.

A payload reaches the model already passed through `msg.decode()` and
`int(msg)`: `Int(i)` when both succeeded, `Str(s)` when only the decoding did,
`Undecodable` when the bytes are no valid UTF-8. `check_msg` becomes an input of each tick
(`Broken`, `Quiet`, or `Incoming(topic, msg)`), and so do whether a
`connect(False)` would succeed and the sampled button pins. `unique_id()` and
`os.uname()` become the string parameters `clientId` and `clientType`.

In these places the code does something a reader might not expect, and the model follows the code:

- The budget of five reconnects is never reset after a successful reconnect
  (upurifier.py:321-323).
- A word that is no table key raises at upurifier.py:264, and undecodable
  bytes raise at upurifier.py:259; both lie outside the callback's try, so
  the exception escapes to `check_msg` and costs a reconnect attempt.
- A reconnect that itself raises is not caught and ends `main`
  (`Tick` returns `halted`).
- The percentage path publishes state, preset, percentage; the mode path and
  the buttons publish state, percentage, preset (upurifier.py:280-294).
- The frequency has an upper clamp only (`min(..., max_freq)`); for 1 to 100 %
  it never binds, so the value is always the rounded formula, 82 to 300 Hz.
- The one-button layout advances on every 500 ms tick the button reads held,
  not once per press (upurifier.py:342-345).

The frequency `round(float(p)*2.2+80)` is computed as `(22*p + 805) / 10`. The
fractional part of 2.2·p is a multiple of 0.2, so there is never a tie and
the float product has no error that could change the rounding;
`Modes.RoundedFreq` states that its result is the nearest integer.

The string operations of the source are Python built-ins and slices, and
`Text` defines them: `Split` is `str.split` on one character, `Join` is
`str.join`, `Upper` and `Replace` are `str.upper` and `str.replace` on
characters, `Capitalize` is the expression `s[0].upper() + s[1:]` of
upurifier.py:150 and upurifier.py:169 (not `str.capitalize`, which would also
lower-case the rest), and `DropPrefix` is the slice `s[2:]`.
`Topics.DeviceModel` is the model string expression of `connect_ha`
(upurifier.py:169). These are definitions; what is proved about them is in
the lemmas listed below (`JoinSplit`, `SplitJoin`, `SplitCount`,
`FriendlyName`, `DeviceModelExamples`).

Two more members are plain definitions. `Reconciler.Perform` carries out an
effect on the output: it sets the frequency and duty and appends the
publications, or leaves everything as it was. What is proved about it is in
the rows for `RepeatCommand`, `RespondConsistent`, `MqttCallback` and
`BtnCallback`. `Buttons.LayoutOf` is the device-type dispatch of
upurifier.py:327 and upurifier.py:341: "fornuftig" selects the three-button
layout, "uppatvind" the one-button layout, and any other device type neither.

## Model

| member | source | states |
|---|---|---|
| Modes.OffRows | upurifier.py:39-50 | every row whose state is OFF is speed 0, 1 Hz, duty 0, preset off |
| Modes.OnRows | upurifier.py:39-50 | every row is ON or OFF; ON rows have duty 512 and speed 33, 66 or 100; ON exactly when the speed is non-zero; every frequency lies in [1, 300] |
| Modes.Aliases | upurifier.py:40-49 | code k and its preset name select the same row, the name maps back to k; ON is 3 is high, OFF is 0 is off |
| Modes.Rows | upurifier.py:39-50 | the ten keys select only the four rows off, low, medium and high |
| Modes.Keys | upurifier.py:39-50 | the table's keys are exactly the codes 0..3 and the six words |
| Modes.BucketIsLeastCover | upurifier.py:268-275 | a percentage in 0..100 falls into the lowest preset whose table speed reaches it |
| Modes.BucketMonotone | upurifier.py:268-275 | a larger percentage never selects a lower preset |
| Modes.Bucket | upurifier.py:268-275 | the if/elif chain always picks a code in 0..3 |
| Modes.RoundedFreq | upurifier.py:278 | the integer formula is the nearest integer to p·2.2+80, never a tie |
| Modes.SpeedFreq | upurifier.py:278 | the frequency is the smaller of the rounded formula and max_freq |
| Modes.SpeedFreqRange | upurifier.py:278 | for 1..100 % the clamp never binds and the frequency lies in [82, 300] |
| Modes.SpeedFreqMonotone | upurifier.py:278 | the frequency never falls as the percentage grows |
| Modes.FormulaAgainstTable | upurifier.py:41-43 | 33 % gives 153 Hz against the low row's 152 Hz; 66 % and 100 % agree with the table |
| Decimal.NatToString | upurifier.py:288 | `str(n)` is a non-empty digit string with no leading zero, "0" for zero |
| Decimal.ValueOfNatToString | upurifier.py:288 | a published speed reads back as the number published |
| Decimal.NatToStringInjective | upurifier.py:293 | different speeds are never published as the same text |
| Text.Split | upurifier.py:187-190 | `split(sep)` gives at least one piece and no piece holds the separator |
| Text.SplitCount | upurifier.py:188 | a split gives one piece more than the string holds separators |
| Text.JoinSplit | upurifier.py:187-190 | joining the pieces of a split restores the string |
| Text.SplitJoin | upurifier.py:187-190 | splitting a join of separator-free pieces gives the pieces back |
| Topics.MakeTopics | upurifier.py:116-132 | every one of the seven topics starts and ends with '/' |
| Topics.MakeTopicsDistinct | upurifier.py:116-132 | the seven topics are pairwise different and all lie under `/{device_type}/{client_id}/` |
| Topics.DiscoveryTopicSeparate | upurifier.py:177 | the discovery topic is none of the device topics |
| Topics.FriendlyName | upurifier.py:149-150 | defined exactly for a non-empty entity id; same length, no underscore; the first character is upper-cased (a leading underscore gives a space), later underscores become spaces and every other character is kept |
| Topics.FriendlyNameIdempotent | upurifier.py:149-150 | a friendly name is its own friendly name |
| Topics.DeviceModelExamples | upurifier.py:169 | "Fornuftig with …" and "Uppatvind with …" for the two devices |
| Reconciler.Respond | upurifier.py:259-296 | the callback raises exactly for undecodable bytes or a word that is no key; a command that takes effect publishes three messages, the power state first |
| Reconciler.PercentageEffect | upurifier.py:268-288 | three publications to state, preset, speed in that order; duty 512 exactly above zero; the speed published reads back as p and starts with '0' only for 0 |
| Reconciler.ModeEffect | upurifier.py:290-294 | the row's frequency and duty; publishes its state, then its speed as text that reads back as the speed and starts with '0' only for 0, then its preset |
| Reconciler.Press | upurifier.py:300-308 | duty 0 for code 0 and 512 otherwise; the preset reported is off, low, medium or high for codes 0 to 3 |
| Reconciler.SpeedTopicTakesPercentage | upurifier.py:264-267 | every integer 0..100 on the speed topic passes the test and takes the percentage branch |
| Reconciler.PercentageOutput | upurifier.py:277-288 | above zero: the formula's frequency in [82, 300], duty 512, ON; zero: 1 Hz, duty 0, OFF; published to state, preset, speed in that order |
| Reconciler.PercentagePreset | upurifier.py:268-281 | the preset published for p is the lowest row whose speed reaches p |
| Reconciler.PercentageEcho | upurifier.py:288 | the speed published last reads back as p and starts with '0' only for 0 |
| Reconciler.PercentageBoundaries | upurifier.py:268-287 | 100 and 67 give high, 66 and 34 medium, 33 and 1 low, 0 off |
| Reconciler.PercentageFifty | upurifier.py:277-288 | 50 % gives 190 Hz, duty 512 and ON, medium, 50 |
| Reconciler.ModeCommand | upurifier.py:290-294 | a table key on any non-speed topic applies its row verbatim and publishes state, speed, preset in that order |
| Reconciler.PressIsModeCommand | upurifier.py:300-308 | a button press has the same effect as the same code on the power topic |
| Reconciler.PercentageAgainstPreset | upurifier.py:278 | 33 % on the speed topic gives 153 Hz; 1 or "low" on the power topic gives 152 Hz |
| Reconciler.Accepted | upurifier.py:264-294 | a command takes effect exactly when it is 0..100 on the speed topic or a table key on another topic |
| Reconciler.Rejected | upurifier.py:259-296 | dropped exactly for an integer outside 0..100, an integer 4..100 on a mode topic, or a word key on the speed topic; raises exactly for undecodable bytes or a word that is no key |
| Reconciler.RepeatCommand | upurifier.py:253-297 | a command applied twice leaves the same PWM and publishes the same messages again |
| Reconciler.PercentageConsistent | upurifier.py:268-288 | every percentage 0..100 leaves output and last reports consistent |
| Reconciler.ModeConsistent | upurifier.py:290-294 | every row of the table leaves output and last reports consistent |
| Reconciler.RespondConsistent | upurifier.py:253-297 | every accepted command leaves output and last reports consistent; dropped ones keep consistency |
| Reconciler.PressConsistent | upurifier.py:300-308 | every button press leaves output and last reports consistent |
| Buttons.Select | upurifier.py:328-335 | 0 when no button is held, else the lowest-numbered held button |
| Buttons.StepButtons | upurifier.py:327-345 | the state stays in 0..3; without a callback `btn_prev` is unchanged and the state equals `btn_prev` for three buttons and is unchanged for one button |
| Buttons.ThreeButtonStep | upurifier.py:327-339 | the state is the selected code; the callback runs exactly when it differs from btn_prev, which then equals it |
| Buttons.HeldReadingIsQuiet | upurifier.py:336-339 | an unchanged reading on the next tick runs nothing and publishes nothing |
| Buttons.OneButtonStep | upurifier.py:341-345 | a held button advances the state modulo 4 and runs the callback on every tick; btn_prev is untouched |
| Buttons.Advance | upurifier.py:343 | the next state is in 0..3 |
| Buttons.CycleIsModular | upurifier.py:342-345 | n held ticks from state s give (s + n) mod 4 |
| Buttons.Cycle | upurifier.py:342-345 | after at least one held tick the state is in 0..3 |
| Buttons.CycleShift | upurifier.py:342-345 | one tick followed by n more is n + 1 ticks |
| Buttons.CyclePeriod | upurifier.py:342-345 | four more held ticks lead back to the same state |
| Buttons.CycleFromOff | upurifier.py:342-345 | from off, four presses visit 1, 2, 3, 0 and the cycle then repeats |
| Buttons.CycleFromZero | upurifier.py:342-345 | from off, n held ticks reach state n mod 4 |
| Purifier.HeldRun | upurifier.py:317-346 | on the one-button device, ticks with nothing to poll and the button held all run without ending `main`, move the state `Cycle` steps round, and leave the preset of the state reached as the last one reported |
| Purifier.HeldFromOff | upurifier.py:317-346 | from off, n such ticks leave state n mod 4 with off, low, medium or high last reported accordingly |
| Request.Params | upurifier.py:187-188 | the query pieces exist exactly when the line has a space; there is at least one piece |
| Request.KeyValueExact | upurifier.py:190 | a piece is accepted exactly when it is key, one '=', value, neither holding '=' |
| Request.KeyValue | upurifier.py:190 | an accepted piece's key and value hold no '='; a piece without '=' raises |
| Request.WellFormedPrefix | upurifier.py:189-190 | the loop gets through exactly the pieces before the first malformed one |
| Request.Assign | upurifier.py:189-191 | storing pieces only ever adds keys |
| Request.Stored | upurifier.py:183-192 | parsing only ever adds keys; a line without a space leaves the configuration as it was |
| Request.Parses | upurifier.py:187-192 | the call returns normally only for a line with a space |
| Request.AssignUntouched | upurifier.py:189-191 | a key no piece names keeps its old value or stays absent |
| Request.AssignLastWins | upurifier.py:189-191 | the last piece naming a key decides its value |
| Request.RequestLine | upurifier.py:187-188 | a line `verb /?query version` of space-free tokens yields the pieces of the query |
| Purifier.TickStep | upurifier.py:317-346 | a tick ends `main` exactly when the poll fails, attempts remain and the reconnect raises; it costs at most one attempt; the state stays in 0..3; the log only grows |
| Purifier.RunFrom | upurifier.py:317-346 | ticks run in order until one ends `main`: at least one tick ran if it halted, and every tick ran if it did not; the state stays in 0..3; the log only grows |
| Purifier.RunHaltsAtLast | upurifier.py:317-346 | a run that halted ran every tick before its last one without halting, and its last tick is the one whose reconnect raised |
| Purifier.TickConsistent | upurifier.py:317-346 | a tick keeps output and last reports consistent |
| Purifier.RunConsistent | upurifier.py:317-346 | so does every run of ticks |
| Purifier.RunBudget | upurifier.py:318-323 | over a run the budget only shrinks, by at most one per tick, never below zero |
| Purifier.SmartAirPurifier.constructor | upurifier.py:137-139 | the device starts off at 1 Hz, duty 0, having reported OFF, 0, off, with budget 5 and both button variables 0 |
| Purifier.SmartAirPurifier.Publish | upurifier.py:306-308 | a publish appends exactly one publication to the log |
| Purifier.SmartAirPurifier.ApplyMode | upurifier.py:290-294 | sets a row's frequency and duty and publishes state, speed, preset |
| Purifier.SmartAirPurifier.MqttCallback | upurifier.py:253-297 | the new output and log are those of the command's effect; only PWM and log change; raises exactly for undecodable bytes or a non-key word; status stays consistent |
| Purifier.SmartAirPurifier.SetPercentage | upurifier.py:268-288 | the PWM and log afterwards are those of the percentage effect |
| Purifier.SmartAirPurifier.BtnCallback | upurifier.py:300-308 | applies the code's row and publishes it; status becomes consistent |
| Purifier.SmartAirPurifier.CheckMessages | upurifier.py:318-325 | a failing poll costs exactly one attempt while any are left and nothing after; a reconnect that raises ends the loop |
| Purifier.SmartAirPurifier.HandleButtons | upurifier.py:327-345 | the button variables and publications follow the layout's step |
| Purifier.SmartAirPurifier.PollThreeButtons | upurifier.py:327-339 | btn_state becomes the lowest held button or 0; the callback runs and btn_prev follows only when that differs from btn_prev, exactly as the three-button step says |
| Purifier.SmartAirPurifier.PollOneButton | upurifier.py:341-345 | a held button advances btn_state modulo 4 and runs the callback, exactly as the one-button step says; btn_prev is not touched |
| Purifier.SmartAirPurifier.Tick | upurifier.py:317-346 | one loop iteration changes output, log, button variables and budget exactly as `TickStep` says, and whether it ended `main`; the configuration is untouched |
| Purifier.SmartAirPurifier.Run | upurifier.py:311-346 | the ticks run, whether `main` ended and the new output, log, button variables and budget are exactly those of `RunFrom`; the log only grows, the budget only shrinks, reconnects never exceed five, and the invariant holds |
| Purifier.SmartAirPurifier.ParseRequest | upurifier.py:183-192 | the configuration after the call is the pieces stored in turn up to the first malformed one; succeeds exactly when every piece is well formed |
| Purifier.PressAfterBudget | upurifier.py:318-345 | with the budget spent a failing poll costs nothing and a held button on that tick presses low |
| Purifier.ReconnectBudget | upurifier.py:318-345 | after five failing polls no reconnect is attempted on the sixth and a press on that tick still moves the fan to low |

## Left out

- Wi-Fi association and the captive portal (`connect_wifi`, `open_captive_portal`): network and socket I/O and `reset()`; only the `parse_request` step it calls is modelled.
- `load_config`, `save_config`, `css`, `html`: file I/O and template replacement.
- The MQTT client library: `connect`, `subscribe`, `set_last_will`; `check_msg` is an input of each tick and `publish` appends to a log.
- A `publish` that raises is not modelled: inside `mqtt_callback` it would be swallowed part-way through, inside `btn_callback` it would end `main`.
- The discovery document of `connect_ha` (`json.dumps`) and its two publications (discovery and `online`) are not in the log; only the topic, friendly name and model strings are modelled.
- Payload decoding by `msg.decode()` and `int(msg)`: UTF-8 and Python's integer grammar are not modelled; the payload arrives as `Int`, `Str` or `Undecodable`.
- Floating point at upurifier.py:278: replaced by the exact integer formula.
- Pins, `PWM`, `time.sleep`, `gc.collect` and the `print` of the button state: the PWM is two fields, the pins a sampled `Reading`, and `max_freq` the constant 300.
- Purifier.SmartAirPurifier.constructor: only the two supported device types are accepted, since for any other `configure` creates no pins and `connect_ha` fails on the missing `url` before `main` runs; `main`'s parameters are fixed at their defaults 0, 0, 5.
- Purifier.SmartAirPurifier.Run: runs a finite sequence of ticks in place of `while True`.
- Text.Upper: ASCII letters only; Unicode case mapping is not modelled.
