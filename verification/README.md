# DrunkDeer keyboard to virtual Xbox controller, in Dafny

The repository turns a DrunkDeer analog keyboard into a virtual Xbox 360
controller. The keyboard answers HID requests with 0x04-prefixed reports.
A 0xa0 report identifies the model. A 0xb7 key-scan report carries raw key
travel for one of three slices of key codes (type 0: 0..58, type 1:
59..117, type 2: 118..125). Each program keeps `key_height_array`. It
normalises raw travel through a deadzone window into depths 0..40. It runs
the action bound to each key with the fraction `depth / 40`, and after the
type-2 report of every cycle it sends one frame to the pad and zeroes its
accumulators. Stick actions add, trigger actions take the maximum, and
buttons follow the last reading. A JSON configuration binds layout names
(or, in `debuggers/leftarrow.py`, raw indices) to controller actions through
a substring dispatch. A keyboard suppressor blocks the bound keys from
reaching other programs and flips on a toggle key. Four diagnostic scripts
decode the same reports and print key presses.

The model, module by module:

- `Decode` (`decode.dfy`): report classification, slices, the deadzone
  normaliser, output scaling, the key layout and `.index` lookup, and model
  identification.
- `Gamepad` (`gamepad.dfy`): actions, the frame accumulators, the pad
  record and the end-of-cycle flush.
- `Controller` (`controller.dfy`): `G75Controller` as a class.
  - Its fields are updated in place by `process_packet`, whose loop is proved
    against `ScanPrefix` and `Receive`, the pure functions it is specified by.
  - The class is shared by `archive/v3.py`, `archive/main.py` and
    `debuggers/leftarrow.py`, which differ only in the models they identify
    and the actions they bind.
- `Config` (`config.dfy`): substring dispatch, name-keyed mapping loops and
  suppression-key collection.
- `V3` (`archive/v3.py`'s configuration file and `on_press` suppressor).
- `LeftArrow` (index bindings, the fourteen-button chain, and the block-list
  suppressor).
- `Racing` (`archive/main.py`'s built-in bindings and half-weight axes).
- `EdgeDetect` (`debuggers/allkeys.py` and `debuggers/arrows.py`).
- `KeyDiscovery` (`debuggers/keyfinder.py` and `debuggers/esc.py`).

Travel fractions and stick values are `real`s: exact rationals, not
floating point. An uncaught Python exception is modelled as the outcome
`Crashed`, not as a precondition. The current time is a parameter.

Where the code and its documentation disagree, the model follows the code:
- the layout table has 128 entries, with unnamed slots at 1, 2 and 119;
- `apply_deadzone` truncates, so only travel at or above `deadzone_max`
  reaches full depth;
- `debuggers/leftarrow.py` binds fourteen button actions;
- `debuggers/leftarrow.py` suppresses ARR_L as "down" and both ARR_R and
  ARR_DW as "right".

## Model

| member | source | states |
|---|---|---|
| Decode.Classify | archive/v3.py:400-424 | a report is a key-scan sub-report iff it has at least five bytes, id 0x04, command 0xb7 and type 0, 1 or 2, and then its slice is the type's; it is an identity answer iff it reads 0x04 0xa0 0x02 0x00 |
| Decode.ForeignReportsIgnored | archive/v3.py:401-424 | short, foreign-id, unknown-command and unknown-type reports are dropped |
| Decode.SlicesPartitionKeyCodes | archive/v3.py:413-428 | every key code 0..125 is covered by exactly one sub-report type and no slice reaches past 125, so the `keynum >= len` guard never skips |
| Decode.BaseKeyReadsTypeByte | archive/v3.py:426-430 | the first key of each slice reads byte 4, the type byte itself |
| Decode.BaseKeyIsInertWithDefaultWindow | archive/v3.py:426-432 | with the default window 2..36, key codes 0, 59 and 118 always decode to depth 0 |
| Decode.Deadzone | archive/v3.py:290-296 | 0 below the window, 40 above it, and within 0..40 inside it; a zero-width window holding v is excluded because Python raises ZeroDivisionError there |
| Decode.DeadzoneQuotient | archive/v3.py:296 | inside a proper window the depth is the truncation of (v - min) * 40 / (max - min): d * (max - min) <= (v - min) * 40 < (d + 1) * (max - min) |
| Decode.DeadzoneRange | archive/v3.py:290-296 | for min < max the depth is in 0..40, min maps to 0 and max to 40 |
| Decode.DeadzoneMonotone | archive/v3.py:290-296 | more raw travel never gives less depth |
| Decode.PercentMonotone | archive/v3.py:426-433 | the fraction depth / 40 is monotone in raw travel and lies in 0.0..1.0 |
| Decode.Percent | archive/v3.py:431 | depth / 40.0 is in 0.0..1.0, 0 gives 0.0 and 40 gives 1.0 |
| Decode.Trunc | archive/v3.py:299 | Python's `int()` truncates toward zero |
| Decode.ScaleToByte | archive/v3.py:298-299 | the trigger byte is in 0..255, is the truncation of p * 255 for p in 0..1, saturates at 255 from 1.0 and at 0 from 0.0 down |
| Decode.ClampUnit | archive/v3.py:436-445 | the clamp lands in -1..1 and leaves in-range values unchanged |
| Decode.IndexOf | archive/v3.py:303 | `.index` yields the first position holding the name, or nothing when no position does |
| Decode.LayoutIndexW | archive/v3.py:123-137 | "W" sits at key code 45 |
| Decode.LayoutIndexA | archive/v3.py:123-137 | "A" sits at key code 65 |
| Decode.LayoutIndexS | archive/v3.py:123-137 | "S" sits at key code 66 |
| Decode.LayoutIndexD | archive/v3.py:123-137 | "D" sits at key code 67 |
| Decode.LayoutIndexArrowUp | archive/v3.py:123-137 | "ARR_UP" sits at key code 99 |
| Decode.LayoutIndexArrowLeft | archive/v3.py:123-137 | "ARR_L" sits at key code 120 |
| Decode.LayoutIndexArrowDown | archive/v3.py:123-137 | "ARR_DW" sits at key code 121 |
| Decode.LayoutIndexArrowRight | archive/v3.py:123-137 | "ARR_R" sits at key code 122 |
| Decode.LayoutSampleEmptyName | archive/v3.py:123-137 | slots 2 and 119 are unnamed like slot 1, and `.index("")` finds 1 |
| Decode.FirstPosition | archive/v3.py:303 | a name found at k and at no earlier slot is looked up as k |
| Decode.IdentifyThreeModels | archive/v3.py:276-288 | the id is never 0 and is 754, 75 or 750 exactly for the bytes (11,4,5), (11,1,1) and (11,4,3), otherwise 1 |
| Decode.IdentifyG75Only | debuggers/leftarrow.py:247-253 | this program knows only the G75: 754 for (11,4,5), 1 for anything else |
| Gamepad.Flush | archive/v3.py:436-455 | every field of the frame sent is fixed by its accumulator: each stick value is kept when within -1..1 and clamped to the nearer end otherwise; each trigger byte is the whole part of fraction × 255 within 0..1, 255 at or past full travel and 0 at or below rest; the held buttons are kept; all six accumulators return to zero |
| Gamepad.StickContributionsSum | archive/v3.py:310-332 | presses on one stick axis add up to weight times the sum of the fractions and touch nothing else |
| Gamepad.TriggerContributionsMax | archive/v3.py:334-338 | presses on one trigger combine by maximum and touch nothing else |
| Gamepad.MaxOfBounds | archive/v3.py:334-338 | the maximum bounds its start value and every reading, and equals one of them |
| Gamepad.TriggerIsNotSum | archive/v3.py:334-338 | two positive presses on one trigger give their maximum, which is less than their sum |
| Gamepad.OppositeStickPressesCancel | archive/v3.py:310-332 | equal presses of opposite directions on one axis cancel |
| Gamepad.ButtonFollowsLastReading | archive/v3.py:341-393 | a button is held iff its last reading is above half travel; other buttons and the analog state are untouched and repeating a reading changes nothing |
| Gamepad.BindingFlagsIgnored | archive/v3.py:395-398 | only the bound action matters (not the inverse flag or the description) and an unbound key changes nothing |
| Gamepad.FlushTwiceIsNeutral | archive/v3.py:436-455 | a cycle with no readings after a flush sends a neutral analog frame with the same buttons |
| Controller.BindByNameEffect | archive/v3.py:301-307 | an unknown name leaves the map alone; a known one binds exactly its first layout slot to the action |
| Controller.UnnamedSlotsUnreachableByName | archive/v3.py:301-307 | slots 2 and 119 can never be bound by name |
| Controller.RebindingKeepsLast | archive/v3.py:301-307 | registering a name twice keeps only the later action |
| Controller.ScanPrefix | archive/v3.py:426-434 | after the first n keys of a slice each covered stored key holds its deadzoned raw byte, every other key is unchanged, and the keyboard id is kept |
| Controller.ReceiveCrashesOnlyOn | archive/v3.py:400-434 | a report stops the program iff it is an identity answer shorter than eight bytes, or a scan under a zero-width window carrying that window's value for a stored key |
| Controller.ReceiveIdentity | archive/v3.py:406-411 | a full identity answer sets a nonzero keyboard id and changes nothing else |
| Controller.ReceiveScanUpdatesSlice | archive/v3.py:413-434 | a scan rewrites exactly the covered key codes with their deadzoned bytes and keeps the id |
| Controller.ScanKeepsSentValues | archive/v3.py:426-434 | before the flush a scan changes no analog value of the pad, only held buttons |
| Controller.ReceiveSendsOnCycleEnd | archive/v3.py:436-455 | a frame is sent iff the report is a type-2 scan; it is in range and the accumulators restart at zero; otherwise the pad's analog values stay those sent last |
| Controller.ScanWithOneBinding | archive/v3.py:426-434 | when one key of the slice is bound, the scan's frame is that key's action applied to its travel |
| Controller.ScanWithTwoBindings | archive/v3.py:426-434 | when two keys of the slice are bound, the scan's frame is the lower key's action applied to its travel and then the higher key's applied to its own |
| Controller.ReceiveTwoBindings | archive/v3.py:400-434 | a type-0 or type-1 report with exactly two bound keys sends nothing and leaves the frame with both actions applied in key order |
| Controller.OppositeSteeringCancels | archive/v3.py:310-332 | A (65) on the left stick at -1 and D (67) at +1, pressed equally far in one type-1 report, leave the frame unchanged, so from rest the stick stays at 0 |
| Controller.TwoPullsTakeMax | archive/v3.py:334-338 | two keys of one report on the same trigger leave it at the larger of its old level and their two fractions, with the sticks and pad unchanged |
| Controller.ReceiveUnboundSlice | archive/v3.py:426-455 | a scan of unbound keys changes no accumulator; a type-2 one sends the frame accumulated so far |
| Controller.ThrottleFirstSlice | archive/main.py:220-225 | with W on the right trigger, a type-0 report with W at full travel raises the right trigger to 1.0 |
| Controller.ThrottleEndToEnd | archive/main.py:163-218 | with W on the right trigger, W fully pressed in a cycle yields a frame with right trigger 255 and left trigger 0 |
| Controller.G75Controller.constructor | archive/v3.py:102-121 | a fresh 128-slot zero height array, empty bindings, id 0, zero accumulators and a neutral pad |
| Controller.G75Controller.IdentifyKeyboard | archive/v3.py:276-288 | the id becomes the identified model, never 0 |
| Controller.G75Controller.RegisterKeyAction | archive/v3.py:301-307 | the map becomes the name-keyed binding |
| Controller.G75Controller.RegisterKeyActionByIndex | debuggers/leftarrow.py:266-269 | any key code is bound, even one outside the array |
| Controller.G75Controller.RunAction | archive/v3.py:310-393 | the frame becomes the action applied to the fraction |
| Controller.G75Controller.ProcessKeyHeight | archive/v3.py:395-398 | the frame becomes the bound action applied, or is unchanged for an unbound key |
| Controller.G75Controller.ProcessPacket | archive/v3.py:400-455 | crashes exactly when `Receive` does, and otherwise leaves the state and sends the frame `Receive` gives; the bindings are unchanged |
| Controller.G75Controller.DecodeSlice | archive/v3.py:426-434 | the loop leaves the state `ScanPrefix` gives, or crashes exactly on a zero-width-window fault |
| Controller.G75Controller.DecodeKey | archive/v3.py:429-434 | crashes exactly when the key's byte meets a zero-width window; otherwise only that key's depth changes, to its deadzoned byte, and the frame becomes its binding applied to the fraction |
| Controller.G75Controller.SendFrame | archive/v3.py:436-455 | the frame becomes its flush and the pad sent is returned |
| Config.Contains | archive/v3.py:183-202 | `pat in s` holds iff the pattern occurs at some position |
| Config.Lower | archive/v3.py:180 | ASCII lower-casing: keeps the length and folds each capital A-Z to its small letter, every other character unchanged |
| Config.FirstMatch | archive/v3.py:183-202 | the chain takes the first pattern the controller string contains, or none when it contains none |
| Config.DispatchPicks | archive/v3.py:183-202 | the first contained pattern's action is dispatched |
| Config.TooLongToOccur | archive/v3.py:183 | a pattern longer than the string is not in it |
| Config.StickPatternsAreLong | archive/v3.py:183-198 | every stick pattern has at least 21 characters |
| Config.RightTriggerResolves | archive/v3.py:199-200 | "RIGHT_TRIGGER" dispatches to the right trigger |
| Config.LeftTriggerResolves | archive/v3.py:201-202 | "LEFT_TRIGGER" and "XBOX_LEFT_TRIGGER" dispatch to the left trigger |
| Config.EmptyControllerBindsNothing | archive/v3.py:183-202 | an empty controller string matches nothing |
| Config.BindMappingsOnlyNamedSlots | archive/v3.py:174-202 | the loop keeps existing bindings' keys and changes only slots some mapping names |
| Config.LastMappingWins | archive/v3.py:174-202 | a later mapping for the same key overrides an earlier one |
| Config.SuppressKeysExact | archive/v3.py:179-181 | a key name is collected iff some mapping names it, through the standard-name table or lower-cased |
| Config.SuppressKeysSnoc | archive/v3.py:179-181 | one more mapping adds exactly its standard name |
| Config.LoadMapping | archive/v3.py:175-202 | the map becomes `BindMapping` of the old map: the first contained pattern's action under the key's first layout slot, or no change |
| Config.LoadMappings | archive/v3.py:174-233 | the loop binds as `BindMappings` and collects exactly `SuppressKeys` |
| V3.ArrowStandardNames | archive/v3.py:140-148 | the arrows are suppressed as left, right, up and down, and the two shift keys apart |
| V3.UnlistedNamesLowerCased | archive/v3.py:140-148 | an unlisted name is suppressed under its lower-case spelling |
| V3.LoadConfig | archive/v3.py:150-247 | no file binds nothing; a file binds the analog then the button mappings; a suppressor exists iff suppression is enabled and a key was collected, and starts active with the collected keys and the lower-cased toggle |
| V3.KeyboardSuppressor.constructor | archive/v3.py:33-36 | starts active with the lower-cased toggle key |
| V3.KeyboardSuppressor.OnPress | archive/v3.py:68-83 | the verdict and new flag are `PressOutcome`'s |
| V3.PressOutcomeCases | archive/v3.py:68-83 | the toggle key always passes and flips the flag; any other key keeps it and is blocked iff suppression is on and the key is listed |
| V3.SuppressionParity | archive/v3.py:68-76 | after any presses suppression is on iff (it started on) equals (the toggle was pressed an even number of times): on when it started on with an even count or started off with an odd one |
| LeftArrow.Keycode | debuggers/leftarrow.py:132-141 | an index wins over a name; a name resolves to its first layout slot or skips the entry |
| LeftArrow.AnalogEntryResolution | debuggers/leftarrow.py:131-171 | an indexed entry binds its index; an unresolved name binds and suppresses nothing |
| LeftArrow.EntrySuppression | debuggers/leftarrow.py:146-150 | an entry adds a suppression name iff it resolves, its flag is not false and its name is listed; an index-only entry adds none |
| LeftArrow.ArrowStandardNames | debuggers/leftarrow.py:101-110 | ARR_L is suppressed as "down", ARR_R and ARR_DW both as "right", and nothing as "left" |
| LeftArrow.EntryKeysSnoc | debuggers/leftarrow.py:146-150 | one more entry adds exactly its suppression name |
| LeftArrow.LoadEntry | debuggers/leftarrow.py:132-171 | the map becomes `BindEntry` of the old map and the name returned is `EntrySuppressKey`'s |
| LeftArrow.LoadAnalog | debuggers/leftarrow.py:131-171 | the loop binds as `BindEntries` and collects exactly `EntryKeys` |
| LeftArrow.LoadConfig | debuggers/leftarrow.py:112-220 | analog then button bindings; a suppressor is created and started iff suppression is enabled and a key was collected, blocking every collected key |
| LeftArrow.KeyboardSuppressor.constructor | debuggers/leftarrow.py:26-30 | starts active, unhooked, with nothing blocked and the lower-cased toggle |
| LeftArrow.KeyboardSuppressor.Start | debuggers/leftarrow.py:32-43 | blocks every suppressed key and hooks the toggle |
| LeftArrow.KeyboardSuppressor.ToggleSuppression | debuggers/leftarrow.py:45-54 | the flag and block list become `Toggled`'s |
| LeftArrow.ToggleProperties | debuggers/leftarrow.py:45-54 | a toggle flips the flag, leaves the block list agreeing with it and other keys alone; two toggles restore the flag and the suppressed keys' state |
| Racing.RacingBindings | archive/main.py:220-225 | W (45) on the right trigger, S (66) on the left, A (65) and D (67) steering the left stick fully; other keys keep their bindings |
| Racing.CustomBindings | archive/main.py:228-234 | the arrows 99, 121, 120 and 122 drive the right stick at half weight; other keys keep their bindings |
| Racing.SetupForMode | archive/main.py:261-265 | "racing" binds the racing keys, "custom" the arrows then the racing keys, any other mode nothing |
| Racing.SetupRacingConfig | archive/main.py:220-225 | the map becomes `RacingBindings` |
| Racing.SetupCustomConfig | archive/main.py:228-234 | the map becomes `CustomBindings` |
| Racing.CustomModeKeepsBoth | archive/main.py:261-265 | custom mode keeps both key sets, which use disjoint codes |
| Racing.ArrowMagnitudes | archive/main.py:140-150 | one full arrow moves the right stick by 0.5; left and right together cancel |
| Racing.FullSteerAndThrottle | archive/main.py:128-156 | full A and full W send -1.0 on the left stick and 255 on the right trigger |
| EdgeDetect.DebugDeadzoneRange | debuggers/allkeys.py:30-39 | with the window 2..36 depth is in 0..40, 0 exactly up to 2 and full from 36 |
| EdgeDetect.ArrowRegion | debuggers/allkeys.py:98 | the tag applies iff 95 <= key <= 125 |
| EdgeDetect.Refresh | debuggers/allkeys.py:86-103 | covered stored keys hold their deadzoned bytes, others are unchanged |
| EdgeDetect.EdgesExactly | debuggers/allkeys.py:86-103 | a key is reported iff it is covered, stored and watched, its new depth is positive and its stored depth 0; reports are in key order, each key once |
| EdgeDetect.ProcessPacket | debuggers/allkeys.py:61-103 | the array and the reports are `Receive`'s |
| EdgeDetect.ReceiveUpdatesSlice | debuggers/arrows.py:61-99 | only the covered slice changes, to deadzoned values; other reports change nothing |
| EdgeDetect.HeldKeyStaysSilent | debuggers/allkeys.py:95-103 | a key with a positive stored height that stays pressed in every later report covering it is reported by none of them, over any number of cycles, and its height stays positive |
| EdgeDetect.HeldKeyReportedOnce | debuggers/allkeys.py:95-103 | a key reported once and then held through any run of later reports is not reported again by any of them |
| EdgeDetect.ArrowSources | debuggers/arrows.py:77-95 | arrows.py reports only arrow codes, never from type 0, ARR_UP from type 1 and the others from type 2 |
| KeyDiscovery.Store | debuggers/keyfinder.py:59-66 | covered stored keys hold their raw bytes, no deadzone; others are unchanged |
| KeyDiscovery.Stamps | debuggers/keyfinder.py:69-72 | a key's detection time becomes now iff it fired, and is otherwise unchanged |
| KeyDiscovery.Found | debuggers/keyfinder.py:59-72 | a key is reported iff it was below 5, is now above 10, and is new or last reported more than 0.5 s ago; in key order |
| KeyDiscovery.ScanSlice | debuggers/keyfinder.py:59-72 | the loop leaves `Store`, `Stamps` and `Found` |
| KeyDiscovery.KeyFinder.constructor | debuggers/keyfinder.py:14-17 | 128 zero heights and no detection times |
| KeyDiscovery.KeyFinder.ProcessPacket | debuggers/keyfinder.py:38-72 | heights, times and reports are `Discover`'s |
| KeyDiscovery.EscFilterMatchesClassify | debuggers/esc.py:48-58 | esc.py decodes exactly the reports keyfinder.py decodes |
| KeyDiscovery.EscSession.constructor | debuggers/esc.py:40-41 | 128 zero heights and no detection times |
| KeyDiscovery.EscSession.OnReport | debuggers/esc.py:48-78 | heights, times and reports are `Discover`'s, and new keys are requested iff the report was a decoded type-2 one |
| KeyDiscovery.DiscoverEffect | debuggers/keyfinder.py:59-72 | raw bytes stored in the slice only; a detection time moves only for a reported key, to now |
| KeyDiscovery.Hysteresis | debuggers/keyfinder.py:69 | a key stored at 5 or more, or now at 10 or less, is not reported |
| KeyDiscovery.DebounceBlocks | debuggers/keyfinder.py:70-72 | a key last reported at most 0.5 s ago is not reported, whatever its stored and new raw travel, and its detection time is kept |
| KeyDiscovery.DebounceAcrossReports | debuggers/keyfinder.py:70-72 | no report in a run arriving within 0.5 s of a key's last detection reports it, and its detection time stays put |
| KeyDiscovery.DebounceAfterDetection | debuggers/keyfinder.py:70-72 | a key reported at t and then released and pressed again any number of times by reports up to t + 0.5 s is reported by none of them |
| KeyDiscovery.GuardNeverSkips | debuggers/esc.py:60-63 | every decoded key code is at most 125, so the `idx >= 128` guard never skips |
| KeyDiscovery.BaseKeyNeverReported | debuggers/keyfinder.py:64-70 | key codes 0, 59 and 118 read the type byte and are never reported |

## Left out

- HID transport: device enumeration and opening, `send_request_keys`/`send_request_identity`, the `run`/`main` loops and their sleeps. `debuggers/find_g75.py` only enumerates devices and is not part of this model.
- The vgamepad driver: `Pad` is an abstract record of what is sent. `update()` and the driver calls are not modelled.
- pynput and `keyboard` hooks. Listener start and stop, `normalize_key` and `parse_special_key` depend on library key objects; `on_press` takes the normalised name (or none).
- `V3.KeyboardSuppressor.OnPress`: states the value the callback returns, not its effect. In pynput a callback returning false stops the whole listener rather than swallowing one key; the listener is not modelled.
- `Config.Lower`: folds only the ASCII capitals A-Z and keeps the length. Python's `str.lower` also folds other Unicode letters and can lengthen a string; the suppressor constructors, `Config.SuppressKeysExact` and `V3.UnlistedNamesLowerCased` inherit this ASCII-only reading.
- `V3.LoadConfig`: does not start the pynput listener, because that is I/O.
- `LeftArrow.KeyboardSuppressor`: `block_key` and `add_hotkey` are modelled as the `blocked` set and the `hooked` flag, not as library calls.
- `LeftArrow.KeyboardSuppressor.Start`: does not model the `except` path where the keyboard library fails and `hooked` stays false, because that failure comes from outside the program.
- JSON parsing: a configuration is a parsed value. A missing file is `None`.
- `V3.LoadConfig`: does not model the `except Exception` path, a mapping without `drunkdeer_key` or a malformed file, because the parsed types always carry the required fields.
- Floating point: travel fractions, stick sums and the `40 / (max - min)` factor are exact rationals. `Decode.Deadzone` takes the exact floor, where Python's float product may round differently at exact multiples.
- `Controller.G75Controller.ProcessPacket`: after a crash the state is not described, because the program stops.
- `Controller.G75Controller.RegisterKeyActionByIndex`: does not model the `IndexError` from printing the layout name of an index below -128.
- Printing: names, descriptions and status messages are not modelled. `EdgeDetect.Detection` keeps the key code and value only. The one printed tag kept is allkeys.py's "ARROW REGION" test, as `EdgeDetect.ArrowRegion`; no other member uses it.
- `archive/main.py`'s `run`: it exits when `keyboard_id` stays 0 after the identity read. That check is orchestration and is not modelled.
- `KeyDiscovery.KeyFinder.ProcessPacket` and `KeyDiscovery.EscSession.OnReport`: the tools read the clock once per detected key (keyfinder.py twice), but the model uses one `now` per report.
