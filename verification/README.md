# Stage lighting controller, modelled in Dafny

The installation has two firmwares. A coordinator takes JSON commands from
an MQTT broker and sends a command record over ESP-NOW. The record is its own
`LEDCommand`, which no header defines, and the panel reads it as its 26-byte
`LightCommand` frame. Four
panels each drive 4 to 6 PWM regions. Each panel runs one of six effects:
static, breathing, wave, pulse, fade-in and fade-out. Each animated effect
keeps hidden counters and advances on its own cadence, which is derived from
the command's `speed`.

This project models three parts:

- **The panel's effect engine and receive path** (modules `Effects`, `Panel`).
  - The function-local `static` variables of each effect become a `Counters`
    record.
  - The PWM duty cycles become an `outputs` sequence with one entry per
    region.
  - `setup`, the receive callback and one pass of `loop` become pure
    functions of the panel state and a clock reading `now`.
- **The wire format and the coordinator's dispatch** (modules `Common`, `Master`).
  - The packed 26-byte frame, with its encoder and its length-checked
    decoder.
  - Panel-id routing to a MAC address.
  - Building a command from a parsed JSON document, which is an abstract
    record of optional fields.
- **The static region tables** (modules `Config`, `PanelConfig`, `RegionGroups`).
  - The global 20-entry table with its group bit tags.
  - The per-panel tables, and the bounds-checked getters with their sentinels.
  - The coordinator's group lookup `getByGroup` / `getCount`.
  - The hand-written group index arrays and offset tables.

The C types are modelled exactly in module `Machine`:

- `uint8_t`, `uint16_t` and `unsigned long` are subset types of `int`.
- Every wrap-around is written out: `% 256` on counters, `% 65536` when an
  interval is stored in a `uint16_t`, and `% 2^32` on clock differences.
- Arduino `map` uses C's truncating division.

Every `millis()` call inside one entry point is taken to return the same
`now`.

## Model

| member | source | states |
|---|---|---|
| Machine.IntervalInRange | src/panel/main.cpp:59-62 | for speed 0..100 the `map`ped update interval lies between the fast and the slow bound |
| Machine.IntervalNonIncreasing | src/panel/main.cpp:59-62 | a higher speed never yields a longer update interval |
| Machine.Scale | src/panel/main.cpp:75 | `map(level, 0, 255, 0, brightness)` equals `level*brightness/255` and never exceeds the brightness |
| Common.Encode | include/common.h:21-29 | the frame is 26 bytes in field order: sequence, effect, brightness, speed, debugMode, panelId, then the 20 region flags, with each bool as a 0/1 byte |
| Common.Decode | src/panel/main.cpp:299-301 | a frame is decoded exactly when its length is `sizeof(LightCommand)`; otherwise the error records the expected and the actual size |
| Common.DecodeEncode | include/common.h:21-29 | every command survives encode-then-decode unchanged |
| Common.EncodeDecode | include/common.h:21-29 | every 26-byte frame whose bool bytes are 0 or 1 survives decode-then-encode unchanged |
| Common.EffectCodesDistinct | include/common.h:12-19 | the six effect codes are pairwise distinct |
| Common.PanelMac | include/common.h:31-34 | panel n's address is `AA:AA:AA:AA:AA:n` |
| Common.PanelMacsDistinct | include/common.h:31-36 | the four panel addresses are pairwise distinct and differ from the broadcast address |
| Effects.SetRegionBrightness | src/panel/main.cpp:32-36 | only an in-range region is written; every other duty cycle is kept, and an out-of-range region changes nothing |
| Effects.ResetEffectStates | src/panel/main.cpp:38-42 | every region of the panel is written 0 |
| Effects.StaticOutputs | src/panel/main.cpp:44-52 | enabled regions get the command brightness and disabled regions get 0 |
| Effects.BreathingAdvance | src/panel/main.cpp:65-73 | the ramp keeps a multiple of 5 in 0..255, moves by 5 in its direction, turns down at 255 and up at 0, and keeps its direction in between |
| Effects.BreathingTick | src/panel/main.cpp:54-85 | when not due, nothing changes; when due, the clock is stamped, the ramp advances, enabled regions get the scaled level (never above the brightness) and disabled regions get 0 |
| Effects.BreathingRises | src/panel/main.cpp:65-69 | from 0 going up, after k ≤ 51 updates the level is 5k, and the ramp has turned at 255 exactly when k = 51 |
| Effects.BreathingFalls | src/panel/main.cpp:65-73 | from 255 going down, after k ≤ 51 updates the level is 255 − 5k, and the ramp has turned at 0 exactly when k = 51 |
| Effects.BreathingPeriod | src/panel/main.cpp:65-73 | the ramp is periodic: 102 updates bring it back to level 0 going up |
| Effects.NextEnabled | src/panel/main.cpp:105-107 | the skip loop terminates in the first enabled region after the current one, or in 0 when it wraps first |
| Effects.WaveTick | src/panel/main.cpp:87-109 | when not due, nothing changes; when due, only the previously active region is lit (if it is enabled), and the active region moves to the next enabled one and stays below `NUM_REGIONS` |
| Effects.WaveLightsAtMostOne | src/panel/main.cpp:97-103 | after a wave update, any lit region is the previously active region and is enabled |
| Effects.PulseAdvance | src/panel/main.cpp:122-135 | from a rising, even level the pulse adds 10 modulo 256, stays even and never reaches 255; the falling branch, which a reachable pulse never takes, drops by 10 and turns around below 10 at level 0 |
| Effects.PulseTick | src/panel/main.cpp:111-147 | when not due, nothing changes; when due, the clock is stamped, the pulse advances, enabled regions get the scaled level and disabled regions get 0 |
| Effects.PulseOnlyRises | src/panel/main.cpp:122-127 | from power-up, after k updates the level is 10k mod 256 and `increasing` is still true, so the falling branch is never reached |
| Effects.FadeInLevel | src/panel/main.cpp:159-164 | below the target the level rises by 5 and is clamped to the target, except that past 250 the `uint8_t` addition wraps to `level + 5 - 256`; at or above the target it stays |
| Effects.FadeInTick | src/panel/main.cpp:149-174 | when not due, nothing changes; when due, the counter takes one fade-in step toward the brightness, enabled regions get it and disabled regions get 0 |
| Effects.FadeInFromZero | src/panel/main.cpp:159-164 | from 0 with a fixed target, after k updates the level is min(5k, target) |
| Effects.FadeInMonotoneAndArrives | src/panel/main.cpp:159-164 | from 0 the fade-in never decreases, never exceeds the target, and reaches it after ⌈target/5⌉ updates |
| Effects.FadeInWrapsWhenTargetRaised | src/panel/main.cpp:159-164 | the counter is never reset: after fading to 253, raising the target to 255 wraps the counter to 2 |
| Effects.FadeOutLevel | src/panel/main.cpp:186-192 | the level drops by 5, floors at 0, and stays a multiple of 5 |
| Effects.FadeOutTick | src/panel/main.cpp:176-202 | when not due, nothing changes; when due, the counter takes one fade-out step, enabled regions get it and disabled regions get 0 |
| Effects.FadeOutFromFull | src/panel/main.cpp:176-192 | from its initial 255, after k updates the level is max(255 − 5k, 0), so it reaches 0 and stays there |
| Effects.FadeOutIgnoresBrightness | src/panel/main.cpp:194-200 | the fade-out's result does not depend on the command's brightness |
| Effects.ExecuteEffect | src/panel/main.cpp:204-229 | codes 1..5 each run their own effect's tick, and the counters and outputs are that tick's; only the selected effect's counters may change; the counter invariants are kept; a static or unknown code touches no counter and renders the static pattern |
| Effects.StaticIgnoresClock | src/panel/main.cpp:44-52 | the static rendering is the same at any two times |
| Effects.UnknownCodeRendersAsStatic | src/panel/main.cpp:226-227 | a code above 5 renders exactly as `EFFECT_STATIC` |
| Effects.IntervalsInRange | src/panel/main.cpp:59-62 | for speed 0..100 the intervals lie in [5,50] for breathing and the fades, [100,1000] for the wave and [5,30] for the pulse |
| Effects.IntervalsNonIncreasing | src/panel/main.cpp:91-94 | each effect's interval is non-increasing in speed over 0..100 |
| Effects.IntervalsAtSpeed255 | src/panel/main.cpp:116-119 | nothing bounds the speed: at 255, `map` goes negative and wraps in `uint16_t` to intervals of about a minute |
| Panel.BootCommand | src/panel/main.cpp:391-398 | the boot command is static, brightness 128, speed 50, with exactly the panel's own regions enabled |
| Panel.Boot | src/panel/main.cpp:384-398 | after `setup` every region is dark, the last effect is static and the invariants hold |
| Panel.SelfMac | src/panel/main.cpp:342-343 | the panel gives itself `AA:AA:AA:AA:AA:<PANEL_ID>` |
| Panel.Receive | src/panel/main.cpp:291-328 | a frame is accepted iff it is 26 bytes and addressed to 0 or this panel; a rejected or ignored frame changes nothing; an accepted one replaces the command and stamps the time without touching any counter; a new effect code blanks every output first |
| Panel.CheckCommandTimeout | src/panel/main.cpp:231-240 | only the receive timestamp may change; it restarts at `now` once the silence exceeds five minutes, and never while no command has arrived; while the silence is within the timeout the state is kept |
| Panel.Loop | src/panel/main.cpp:404-418 | one pass renders the current command, and its counters and outputs are exactly what `executeEffect` gives for it; keeps `lastEffect == current.effect`, changes only the current effect's counters, and leaves the receive timestamp where `checkCommandTimeout` puts it, so the silence stays within the timeout |
| Panel.Run | src/panel/main.cpp:291-418 | from boot, through any events, the state stays reachable, the pulse never turns around, and the wave's active region stays inside the panel |
| Panel.BootLightsEveryRegion | src/panel/main.cpp:391-398 | the first loop pass after boot lights every region at brightness 128 |
| Panel.StaticCommandTakesEffect | src/panel/main.cpp:303-316 | a static command for this panel (or for all) is accepted and shows on the outputs after the next loop pass |
| Panel.ForeignCommandIgnored | src/panel/main.cpp:317-321 | a command for another panel leaves the state unchanged |
| Panel.ReceiveIdempotent | src/panel/main.cpp:309-316 | receiving the same frame twice at the same time equals receiving it once |
| Panel.SwitchAwayAndBackKeepsCounters | src/panel/main.cpp:309-315 | switching to another effect and straight back leaves every counter as it was, so effects resume instead of restarting |
| Master.Route | src/master/main.cpp:147-186 | id 0 goes to all peers, ids 1..4 go to `AA:AA:AA:AA:AA:n`, and any other id sends nothing |
| Master.RouteReachesThePanel | src/master/main.cpp:159-171 | the coordinator sends to panel n at exactly the address panel n gives itself |
| Master.RegionMask | src/master/main.cpp:218-228 | bit i is set iff i+1 occurs in the list; other values are ignored |
| Master.RegionMaskIgnoresOrder | src/master/main.cpp:224-228 | lists with the same elements give the same mask, whatever their order or repeats |
| Master.BuildCommand | src/master/main.cpp:201-243 | absent keys default to panel 0, speed 50, not audio-reactive and intensity 0; pattern and brightness are set only when present; the region list gives the mask, or all regions when absent |
| Master.AbsentListMeansAll | src/master/main.cpp:229-234 | an absent region list means the same as listing 1..N |
| Master.OnMessage | src/master/main.cpp:188-247 | a parse failure sends nothing; otherwise the built command is sent iff its panel id routes, and to the routed destination |
| Config.GetRegionName | include/config.h:191-195 | an index past the panel's regions yields "INVALID"; otherwise the name of that region in the global table |
| Config.GetRegionPin | include/config.h:197-201 | past the end yields 0; otherwise the global table's pin |
| Config.GetRegionVerticalPos | include/config.h:203-207 | past the end yields 0xFF; otherwise the index itself |
| Config.GetRegionGlobalIndex | include/config.h:209-213 | past the end yields 0xFF; otherwise the panel's offset plus the index |
| Config.GetRegionGroups | include/config.h:215-219 | past the end yields `GROUP_NONE`; otherwise the global table's tags |
| Config.GlobalIndexIsPosition | include/config.h:110-138 | entry i of the global table has `globalIndex` i |
| Config.RegionConfigIsSlice | include/config.h:146-185 | each panel's table is its slice of the global table between consecutive offsets, with length `PANEL_REGION_COUNTS[p-1]` |
| Config.RegionConfigPositions | include/config.h:146-185 | within a panel, entry i has vertical position i |
| Config.GroupTagsAreDistinctBits | include/config.h:42-51 | the nine tags are non-zero single bits below bit 9, pairwise disjoint |
| Config.Selected | include/config.h:231-239 | the scan yields strictly ascending indices in range, and index i is listed iff its entry carries a tag of the mask |
| Config.GetByGroup | include/config.h:231-239 | the buffer is ascending and within range, lists i iff `groups & mask != 0`, and has as many entries as there are such regions |
| Config.GetCount | include/config.h:241-250 | the count is the number of regions carrying a tag of the mask, which is the length `getByGroup` returns |
| Config.SelectedCountsMembers | include/config.h:231-250 | the scan lists every tagged index exactly once |
| Config.AscendingUnique | include/config.h:231-239 | two ascending listings of the same indices are equal, so the lookup is determined by its members |
| Config.SelectedUnion | include/config.h:235 | asking for several tags lists the regions of either |
| Config.ByGroupNone | include/config.h:42 | `GROUP_NONE` selects nothing |
| Config.ByGroupSymbol | include/config.h:110-138 | the symbol lookup is [0, 3, 6, 8, 13, 16] |
| Config.ByGroupRaavanaHead | include/config.h:110-138 | the Raavana-head lookup is [12, 16, 17] |
| Config.ByGroupRaavana | include/config.h:110-138 | the Raavana lookup is [12, 16, 17, 18, 19] |
| Config.ByGroupContinent | include/config.h:110-138 | the continent lookup is [5, 11, 15] |
| PanelConfig.TableShape | include/panel_config.h:33-67 | panels 1..4 have 5, 6, 5 and 4 regions, and entry i has vertical position i |
| PanelConfig.PinsDistinct | include/panel_config.h:35-67 | no two regions of a panel share a pin |
| PanelConfig.SentinelsAreNotGroups | include/panel_config.h:7-23 | 0xFF is neither a local nor a cross-panel group id |
| PanelConfig.GetRegionName | include/panel_config.h:73-77 | past the end yields "INVALID"; otherwise the name the coordinator's table has for that region |
| PanelConfig.GetRegionPin | include/panel_config.h:79-83 | past the end yields 0; otherwise the coordinator's pin for that region |
| PanelConfig.GetRegionVerticalPos | include/panel_config.h:85-89 | past the end yields 0xFF; otherwise the index itself |
| PanelConfig.GetRegionLocalGroup | include/panel_config.h:91-95 | past the end yields `LGROUP_NONE`; in range, the result is a real group exactly when the coordinator's table gives that region a local tag (bull, Bharathi, veena, dancer, Valluvar, Raavana), and then it is the group whose tag is exactly the region's local tags |
| PanelConfig.GetRegionCrossPanelGroup | include/panel_config.h:97-101 | past the end yields `XGROUP_NONE`; in range, the result is a real group exactly when the coordinator's table gives that region a cross-panel tag (symbol, Raavana, Raavana head, continent), and then the region carries that group's tag |
| PanelConfig.AgreesWithGlobalTable | include/panel_config.h:33-67 | each panel's own table has the same pins, names and positions, in order, as its slice of the coordinator's table |
| PanelConfig.GroupsAgreeWithGlobalTable | include/panel_config.h:33-67 | on every panel the table's local group is set exactly when the coordinator's table gives the region a local tag, and is the group of those tags; its cross-panel group is set exactly when the region has a cross-panel tag, and is one of those tags |
| RegionGroups.ArraysWellFormed | include/region_groups.h:6-16 | each index array is strictly ascending, below 20, and as long as its count |
| RegionGroups.OffsetsArePrefixSums | include/region_groups.h:18-19 | the offsets start at 0, add up the counts, end at 20, and equal the copies in the global configuration |
| RegionGroups.CountsMatchPanelBuilds | include/region_groups.h:18 | each count is that panel's number of regions |
| RegionGroups.HeadWithinRaavana | include/region_groups.h:9-13 | the Raavana-head regions are all Raavana regions |
| RegionGroups.ArraysMatchLookup | include/region_groups.h:9-16 | the Raavana-head, Raavana and continent arrays equal the lookup for their tag |
| RegionGroups.SymbolArrayMissesRegion16 | include/region_groups.h:6-7 | the symbol array differs from the symbol lookup: region 16 is tagged as a symbol but is missing from the array |
| RegionGroups.SymbolLookupIsArrayPlus16 | include/region_groups.h:6-7 | the symbol lookup is exactly the array with 16 appended |
| RegionGroups.CorrectedSymbolArrayMatchesLookup | include/region_groups.h:6-7 | the symbol array with region 16 added is ascending, as long as its count (6), and equal to the symbol lookup |

## Findings

| source | as written | input that shows it | evidently intended | confidence | as-written member | corrected member |
|---|---|---|---|---|---|---|
| include/region_groups.h:6-7 | `SYMBOL_REGIONS = {0, 3, 6, 8, 13}`, `SYMBOL_COUNT = 5` | tag `GROUP_SYMBOL`: include/config.h:133-134 tags region 16 (RAAVANA_HEAD_SYMBOL) as a symbol, so the lookup yields [0, 3, 6, 8, 13, 16] | the array equals the lookup for its tag, as the other three arrays do: `{0, 3, 6, 8, 13, 16}`, count 6. Against this, include/panel_config.h:64 also leaves region 16 out of the symbol group (it is `XGROUP_RAAVANA_HEAD` there), so the omission may be deliberate and the global tag the slip | low, not executed | RegionGroups.SymbolArrayMissesRegion16 | RegionGroups.CorrectedSymbolArrayMatchesLookup |

## Left out

- Radio, Wi-Fi and MQTT plumbing is not modelled. This covers `setup_wifi`, `setup_espnow`, peer registration, `esp_wifi_set_mac`, the channel check, `esp_now_send` and its status, and the reconnect loop. Only their success paths are modelled, where they enter the model at all.
- PanelConfig.GetRegionCrossPanelGroup: when the coordinator's table gives a region several cross-panel tags (Raavana with Raavana head, plus symbol on region 16), the contract says only that the result is one of them. The panel table picks Raavana head in each such case, and no rule in the source explains that choice.
- Panel.SelfMac: only the success path of `esp_wifi_set_mac` is modelled. On failure the panel keeps its factory address (src/panel/main.cpp:345-350), so `Master.RouteReachesThePanel` holds only when the address was set.
- The panel's `setup` returns early when ESP-NOW fails to start. `Panel.Boot` models only the successful path, because the radio's outcome is not visible to the model.
- JSON parsing is not modelled. `Master.OnMessage` takes the parse result as a `Result` of an abstract record of optional fields.
- Hardware PWM is not modelled: `ledcSetup`, `ledcAttachPin` and `ledcWrite`. The duty cycles are the `outputs` sequence.
- Serial logging is not modelled: `printHeartbeat`, `printRegionConfig`, and the log lines of the receive callback and the timeout check. The loop counter and the heartbeat timestamp only feed the logs.
- The receive callback runs concurrently with `loop`. Here each entry point is one atomic step.
- The coordinator's `LEDCommand` type is defined in no header. Its field widths and the size it puts on the wire are therefore unknown.
  - `Master.MasterCommand` keeps its fields as unbounded integers.
  - Whether the coordinator's frame matches the panel's 26-byte `LightCommand` is not modelled.
  - `NUM_REGIONS` is not defined for the coordinator build, so the mask builder takes N as a parameter.
- `Master.BuildCommand`: the pattern and brightness of a document without those keys are left `None`, since the firmware never assigns them.
- `ESPNOW_WIFI_CHANNEL` differs between include/common.h (6) and include/config.h (1). The channel plays no part in the modelled behaviour.
- `Common.EncodeDecode` requires the bool bytes to be 0 or 1. Copying any other byte into a C++ `bool` is undefined behaviour; `Decode` reads it as true.
- Some behaviour a design might expect is not in the code, so it is not modelled:
  - counters are not reset on an effect change (only the outputs are zeroed);
  - nothing reads the audio fields;
  - there is no backoff, low-power mode or sequence orchestration.
- Each call of an entry point reads the clock once. The firmware calls `millis()` several times within one entry point, so readings taken a few microseconds apart are identified.
