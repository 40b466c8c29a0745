# reLedSys system-status LED, modelled in Dafny

`reLedSys` shows the health of an ESP32 device on one LED. Other subsystems
raise and lower condition flags in a FreeRTOS event group. Examples are
"error", "Wi-Fi connected", "clock set" and "OTA update running". After each
change of the word, the module picks one blink pattern and sends it to the LED
task as an `lmBlinkOn` command. The pattern is a (quantity, duration, interval)
triple. It comes from a fixed ten-tier priority ladder. An OTA pattern is sent
before the ladder's pattern while the OTA flag is set.

The model has four modules:

- `Flags` (`flags.dfy`) holds the ten `SYSLED_*` flags, BIT0..BIT9, and the
  24-bit application part of an event word.
- `Resolver` (`resolver.dfy`) is `ledSysBlinkBits` as pure functions. It holds
  the default pattern table (`PatternOf`, `OtaPattern`), the else-chain
  (`Ladder`) and the full list of patterns sent for a word (`Resolve`). The
  ladder also has a second, declarative definition: a rank order on tiers
  plus a predicate `Demands` saying when each tier asks to be shown on its own.
  `LadderIsFirstMatch` proves that the ladder picks exactly the first demanding
  tier in rank order. `LadderIsTableLookup` proves that it equals
  top-to-bottom evaluation of the ordered priority table `Priority`.
- `StateWord` (`stateword.dfy`) holds the read-modify-write steps on the word
  (`SetBits`, `ClearBits`) and the change-detection rule `Dispatches`
  (`forced || old != new`). Its lemmas are about redundant, forced and toggled
  updates.
- `LedSys` (`ledsys.dfy`) is the module state as the class `SystemLed`. Its
  fields are `hasGroup` and `hasQueue` (the two handles are non-NULL), `bits`
  (the event-group word) and a ghost `log` holding every command sent to the
  LED task. Init, free, the direct senders and the three state mutators are
  methods on it. Each mutator's `ensures` gives the new word, as a function of
  the old word, and the commands appended to the log.

`WIFI_CONNECTED`, `INET_AVAILABLED` and `CLOCK_SET` are positive-sense flags:
their absence selects a pattern. So the all-zero word left by `ledSysInit`
shows the Wi-Fi-init pattern 1/250/250, not the nominal one
(`ZeroWordIsWifiInit`, `NominalSentIff`). `ledSysStateValue` takes a mask and
sets or clears every bit of it together.

`ledSysFree` deletes the LED task and the event group but never resets the
handles to NULL. The model records the deletion in ghost fields and leaves
`hasGroup`/`hasQueue` set, as the code does.

## Model

| member | source | states |
|---|---|---|
| `Flags.FlagsAreDistinctBits` | include/reLedSys.h:19-28 | the ten flags are the single bits BIT0..BIT9, lie inside the 24-bit mask 0x00FFFFFF, and are pairwise disjoint |
| `Flags.ClearedWordHasNoFlag` | src/reLedSys.cpp:139-142 | a word whose low 24 bits are cleared, as `ledSysInit` leaves it, has every flag clear |
| `Resolver.PatternOf` | src/reLedSys.cpp:28-126 | the default `CONFIG_LEDSYS_*` (quantity, duration, interval) triple of each ladder tier, as sent at lines 232-259; the constant `OtaPattern` beside it holds the OTA triple 1/100/100 sent at line 229 |
| `Resolver.Ladder` | src/reLedSys.cpp:231-260 | the chosen tier's own condition holds for the word (an error flag set, or a positive-sense flag clear, or Normal) |
| `Resolver.LadderSkipsHigher` | src/reLedSys.cpp:231-260 | no tier ranked above the chosen one has its condition hold |
| `Resolver.LadderIsFirstMatch` | src/reLedSys.cpp:231-260 | `Ladder(w) == t` if and only if t's condition holds and no higher tier's does, in the order ERROR, WARNING, not WIFI_CONNECTED, SENSOR_ERROR, not INET_AVAILABLED, not CLOCK_SET, MQTT_ERROR, PUBLISH_ERROR, TELEGRAM_ERROR, Normal |
| `Resolver.RankInjective` | src/reLedSys.cpp:231-260 | the else-chain positions of distinct tiers differ, so the first match is unique |
| `Resolver.PriorityIsRankOrder` | src/reLedSys.cpp:231-260 | the priority table lists each tier at the index of its position in the else-chain |
| `Resolver.FirstDemanding` | src/reLedSys.cpp:231-260 | top-to-bottom evaluation of a table returns the first index whose tier asks to be shown, with no earlier tier asking |
| `Resolver.LadderIsTableLookup` | src/reLedSys.cpp:231-260 | the else-chain equals top-to-bottom evaluation of the ten-entry priority table, which always stops at some entry (the ladder is total) |
| `Resolver.WorseNeverLowersSeverity` | src/reLedSys.cpp:231-260 | if every tier asking for one word also asks for a second word, the second word's tier is at least as high in priority |
| `Resolver.FaultNeverLowersSeverity` | src/reLedSys.cpp:231-260 | raising ERROR, WARNING, SENSOR_ERROR, MQTT_ERROR, PUBLISH_ERROR or TELEGRAM_ERROR never selects a lower-priority tier |
| `Resolver.HealthLossNeverLowersSeverity` | src/reLedSys.cpp:231-260 | clearing WIFI_CONNECTED, INET_AVAILABLED or CLOCK_SET never selects a lower-priority tier |
| `Resolver.Resolve` | src/reLedSys.cpp:225-262 | two patterns are sent when the OTA bit is set and one otherwise; the OTA pattern comes first; the last pattern is always the ladder's |
| `Resolver.LadderIgnoresOta` | src/reLedSys.cpp:228-260 | setting or clearing the OTA bit never changes the ladder's choice |
| `Resolver.OtaIsAdditive` | src/reLedSys.cpp:228-232 | with OTA set, the OTA pattern 1/100/100 is sent and then the pattern of the same word without OTA, even when ERROR is set |
| `Resolver.NormalPatternIsUnique` | src/reLedSys.cpp:28-126 | in the default table, 1/75/5000 belongs to the nominal tier alone and differs from the OTA pattern |
| `Resolver.NominalSentIff` | src/reLedSys.cpp:231-260 | 1/75/5000 is sent if and only if WIFI_CONNECTED, INET_AVAILABLED and CLOCK_SET are set and ERROR, WARNING, SENSOR_ERROR, MQTT_ERROR, PUBLISH_ERROR and TELEGRAM_ERROR are clear |
| `Resolver.ZeroWordIsWifiInit` | src/reLedSys.cpp:237-239 | the all-zero word resolves to the Wi-Fi-init pattern 1/250/250 alone |
| `Resolver.ErrorOutranksWarning` | src/reLedSys.cpp:231-236 | with ERROR and WARNING both set, the error tier and 1/1000/1000 are chosen |
| `StateWord.Dispatches` | src/reLedSys.cpp:275 | the change test `forced || old != new` that each mutator applies before dispatching (also lines 287 and 303) |
| `StateWord.SetBits` | src/reLedSys.cpp:273 | every mask bit is on afterwards and every bit outside the mask is unchanged |
| `StateWord.ClearBits` | src/reLedSys.cpp:285 | every mask bit is off afterwards and every bit outside the mask is unchanged |
| `StateWord.SetKeepsIffPresent` | src/reLedSys.cpp:272-275 | setting leaves the word equal to the old one if and only if all mask bits were already set |
| `StateWord.ClearKeepsIffAbsent` | src/reLedSys.cpp:284-287 | clearing leaves the word equal to the old one if and only if all mask bits were already clear |
| `StateWord.SetFits24` | src/reLedSys.cpp:273 | setting a 24-bit mask keeps the word inside the 24 application bits |
| `StateWord.ClearFits24` | src/reLedSys.cpp:285 | clearing keeps the word inside the 24 application bits |
| `StateWord.SetDispatchesIffNew` | src/reLedSys.cpp:272-277 | an unforced set dispatches if and only if some mask bit was clear |
| `StateWord.ClearDispatchesIffPresent` | src/reLedSys.cpp:284-289 | an unforced clear dispatches if and only if some mask bit was set |
| `StateWord.ForcedEmptyMaskResends` | src/reLedSys.cpp:275-277 | a mask of 0 keeps the word; a forced call re-sends and an unforced one does not |
| `StateWord.ClearUndoesSet` | src/reLedSys.cpp:296-302 | clearing a mask that was just set on a word where it was clear restores the word |
| `StateWord.ToggleDispatchesTwice` | src/reLedSys.cpp:293-306 | raising a clear, non-empty mask and then lowering it dispatches on both calls and ends at the original word |
| `LedSys.BlinkCommands` | src/reLedSys.cpp:214 | one `lmBlinkOn` command per pattern, in order, carrying that pattern's quantity, duration and interval |
| `LedSys.Dispatch` | src/reLedSys.cpp:225-262 | a dispatch appends only `lmBlinkOn` commands: two with OTA set (the first 1/100/100) and one without; the last carries the ladder's pattern |
| `LedSys.SystemLed.constructor` | src/reLedSys.cpp:132-133 | at program start both handles are NULL and nothing has been sent |
| `LedSys.SystemLed.Send` | src/reLedSys.cpp:214 | `ledTaskSend` on an existing queue appends exactly the given command to the log |
| `LedSys.SystemLed.Init` | src/reLedSys.cpp:137-151 | the group is created only if absent, and then its word is zero; a repeated init keeps the word; the queue is created only if absent; with auto-blink, the current word's dispatch is appended when the queue exists |
| `LedSys.SystemLed.Free` | src/reLedSys.cpp:153-162 | the existing task and group are deleted, while both handles stay set |
| `LedSys.SystemLed.LedOn` | src/reLedSys.cpp:164-169 | appends `lmOn` with the `fixed` value when the queue exists, and nothing otherwise |
| `LedSys.SystemLed.LedOff` | src/reLedSys.cpp:171-176 | appends `lmOff` with the `fixed` value when the queue exists, and nothing otherwise |
| `LedSys.SystemLed.LedSet` | src/reLedSys.cpp:178-188 | appends `lmOn` or `lmOff` with argument 0 when the queue exists, and nothing otherwise |
| `LedSys.SystemLed.SetEnabled` | src/reLedSys.cpp:190-195 | appends `lmEnable` with the flag value when the queue exists, and nothing otherwise |
| `LedSys.SystemLed.FlashOn` | src/reLedSys.cpp:197-202 | appends `lmFlash` with the given triple when the queue exists, and nothing otherwise |
| `LedSys.SystemLed.Activity` | src/reLedSys.cpp:204-209 | appends `lmFlash` with the configured flash triple when the queue exists, and nothing otherwise |
| `LedSys.SystemLed.BlinkOn` | src/reLedSys.cpp:211-216 | appends `lmBlinkOn` with the given triple when the queue exists, and nothing otherwise |
| `LedSys.SystemLed.BlinkOff` | src/reLedSys.cpp:218-223 | appends `lmBlinkOff` when the queue exists, and nothing otherwise |
| `LedSys.SystemLed.BlinkBits` | src/reLedSys.cpp:225-262 | appends `Dispatch(w)` when both the group and the queue exist, and nothing otherwise |
| `LedSys.SystemLed.BlinkAuto` | src/reLedSys.cpp:264-267 | appends the dispatch of the current word when the queue exists |
| `LedSys.SystemLed.Notify` | src/reLedSys.cpp:274-277 | appends the new word's dispatch exactly when the call is forced or the word changed |
| `LedSys.SystemLed.StateSet` | src/reLedSys.cpp:269-279 | a complete no-op unless both handles exist; otherwise the new word is `SetBits(old, mask)`, and the dispatch is appended if and only if the call is forced or the word changed |
| `LedSys.SystemLed.StateClear` | src/reLedSys.cpp:281-291 | a complete no-op unless both handles exist; otherwise the new word is `ClearBits(old, mask)`, and the dispatch is appended if and only if the call is forced or the word changed |
| `LedSys.SystemLed.StateValue` | src/reLedSys.cpp:293-307 | a complete no-op unless both handles exist; otherwise the whole mask is set when `value` holds and cleared otherwise, and the dispatch is appended if and only if the call is forced or the word changed |

## Left out

- FreeRTOS primitives. The event group is the field `bits` plus `hasGroup`.
  The get/modify/get sequence is modelled as single-threaded, so interleaving
  between concurrent callers is not modelled.
- The upper 8 bits of `EventBits_t` are reserved by FreeRTOS. The mutators
  require masks that fit in the low 24 bits (`Fits24`), and the class keeps
  the word inside them.
- The LED task in `reLed.h` is not part of this model. This covers
  `ledTaskCreate`, `ledTaskDelete`, `ledTaskSend`, GPIO driving, pin,
  polarity and the custom control hook. A send is an append to the ghost
  `log`. Queue capacity, the send timeout and dropped messages are not
  modelled.
- `LedSys.SystemLed.Init`: whether `ledTaskCreate` succeeds is the parameter
  `queueCreated`. `xEventGroupCreate` always succeeds in the model. If it returned
  NULL, the following `xEventGroupClearBits` would act on a NULL handle, and
  that case is not modelled. The GPIO, polarity and control-hook arguments are
  dropped.
- `LedSys.SystemLed.Free`: memory reclamation is not modelled. After a free,
  the model goes on treating the dangling handles as live, as the code does.
- `LedSys.SystemLed.Activity`: `CONFIG_LEDSYS_FLASH_*` is defined outside
  the shown files. The flash triple is a parameter.
- `LedSys.SystemLed.BlinkAuto` reads the event group without checking its
  handle. The model requires the group to exist, as it does at its one call
  site in `ledSysInit`.
- Compile-time overrides from `project_config.h` are not modelled. The
  pattern table uses the default values.
- The header keeps `ledSysBlinkBits` and `ledSysBlinkAuto` off the public
  API. The model does not enforce that visibility: every method of
  `SystemLed` can be called.
