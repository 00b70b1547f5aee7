# SkyView traffic table and voice alerts, with the STM32 platform rules

This project models the traffic engine of the SkyView display unit
(`SkyView/TrafficHelper.cpp`) and proves properties of that model.

The engine keeps a fixed-size table `Container[]` of tracked aircraft, paired
with the staging report `fo`. It has five operations:

- `Traffic_Add` admits a report. The report is rejected outside the alarm zone
  or by the altitude filter. Otherwise, in order of precedence, it updates the
  slot with the same ID, reclaims the first expired slot, evicts the slot of
  least alarm level, or evicts the farthest slot. If none of these applies, the
  report is dropped.
- `Traffic_ClearExpired` empties live slots that are too old.
- `Traffic_Count` counts the live slots.
- `Traffic_loop` runs the GDL90 refresh sweep on one cadence and the voice
  announcement on another.
- `Traffic_Voice` ranks the recent live targets by distance. It speaks about
  the nearest one not yet announced: its clock position, then its distance and
  its altitude as coarse phrases. It then marks that target as announced.

A much smaller part comes from the STM32 platform layer
(`SoftRF/src/platform/STM32.cpp`):

- the radio ID derived from the chip's unique ID, including the remap out of
  the congested FLARM address block;
- the classification of the latched reset flags at start-up;
- the names of the reset reasons;
- the EEPROM size check.

How the model is built:

- **Mutable state is a class.** `TrafficEngine.Table` holds the `Container[]`
  array, the `traffic[]` ranking buffer and the two cadence time markers. Its
  methods update them in place with loops, as the firmware does.
- **Each method is proved against a function on the slot sequence:**
  - `Add` against `TrafficPolicy.Admit`;
  - `ClearExpiredSlots` against `TrafficPolicy.ClearExpired`;
  - `RefreshSweep` against `TrafficPolicy.Sweep`;
  - `Voice` against the relation `VoicePolicy.VoiceStep`.
- **The properties are proved as lemmas** about those functions.
- **Table invariant.** The class keeps `Valid()`: the table has its configured
  size, and no two live slots share an ID.
- **STM32 rules are pure functions,** except for the reset bookkeeping.
  `reset_info` is updated in place by `STM32_setup`, so it is the class
  `Stm32.ResetInfo`.

One behaviour of the admission rule deserves attention:

- An empty slot is `EmptyFO`: ID 0, alarm level 0, distance 0, timestamp 0.
- Admission has no separate test for empty slots. An empty slot is taken in one of three ways:
  - it is expired (the test looks at the timestamp, not the ID);
  - it is the least-level or farthest eviction victim while nothing is expired;
  - the report itself has ID 0, and the first empty slot matches it by ID.
- So a freshly cleared table takes a report into slot 0 once the clock is past the
  expiration time (`AdmitIntoEmptyTable`).
- Before that time, such a table takes a report of positive alarm level into slot 0 by
  the level eviction (`EmptyTableEvictsByLevel`).
- It drops a report of alarm level 0 or lower at a non-negative distance
  (`EmptyTableDropsWhileClockEarly`).

The voice bit also persists across operations. `TrafficHistory` models any interleaving
of admissions, sweeps and voice calls. It proves that an aircraft announced once is not
announced again while its slot keeps its ID (`NoRepeatWhileIdKept`).

## Model

| member | source | states |
|---|---|---|
| TrafficTypes.LiveCount | software/firmware/source/SkyView/TrafficHelper.cpp:403-414 | the live-slot count lies in 0..table size; it is 0 exactly when no slot is live, and the full size exactly when every slot is live |
| TrafficPolicy.Admissible | software/firmware/source/SkyView/TrafficHelper.cpp:132-139 | the gate of Traffic_Add: within the alarm zone, and the filter is off or the 500 m filter holds the vertical separation strictly inside (-500, 500); its consequences are stated by AdmitRejects and Decide |
| TrafficPolicy.Expired | software/firmware/source/SkyView/TrafficHelper.cpp:165 | the age test shared by admission (line 165) and the expiry sweep (line 397): the slot is older than the expiration time; its effect is stated by AdmitReclaimsExpired and ClearExpiredExactly |
| TrafficPolicy.IndexOfId | software/firmware/source/SkyView/TrafficHelper.cpp:143-156 | the slot found has the ID and no earlier slot has it; nothing is found exactly when no slot has the ID |
| TrafficPolicy.FirstExpired | software/firmware/source/SkyView/TrafficHelper.cpp:164-168 | the slot found is expired and no earlier slot is; nothing is found exactly when no slot is expired (live or empty alike) |
| TrafficPolicy.MaxDistanceSlot | software/firmware/source/SkyView/TrafficHelper.cpp:160-175 | the index has the greatest distance and is the first such index (strict `>` update) |
| TrafficPolicy.MinLevelSlot | software/firmware/source/SkyView/TrafficHelper.cpp:161-178 | the index has the least alarm level and is the first such index (strict `<` update) |
| TrafficPolicy.Merged | software/firmware/source/SkyView/TrafficHelper.cpp:144-153 | an update by ID stores the report but keeps the old alert bits; with track -360 it also keeps the old track and ground speed; every other field is the report's |
| TrafficPolicy.Decide | software/firmware/source/SkyView/TrafficHelper.cpp:130-192 | a report is rejected exactly when it fails the zone or altitude gate; any slot chosen is inside the table |
| TrafficPolicy.Admit | software/firmware/source/SkyView/TrafficHelper.cpp:130-192 | admission keeps the table size; its rules are stated by the Admit* lemmas below |
| TrafficPolicy.AdmitRejects | software/firmware/source/SkyView/TrafficHelper.cpp:132-139 | beyond the alarm zone, with the 500 m filter and a vertical separation outside (-500, 500), or with any other filter value, the table is unchanged |
| TrafficPolicy.AdmitUpdatesById | software/firmware/source/SkyView/TrafficHelper.cpp:143-155 | when some slot has the report's ID, only the first such slot changes, and it becomes the merged record |
| TrafficPolicy.AdmitReclaimsExpired | software/firmware/source/SkyView/TrafficHelper.cpp:164-168 | with no ID match, the first expired slot becomes the report, whatever the alarm levels and distances |
| TrafficPolicy.AdmitEvictsByLevel | software/firmware/source/SkyView/TrafficHelper.cpp:181-184 | with no ID match and nothing expired, a report whose level is above the least level replaces the first least-level slot |
| TrafficPolicy.AdmitEvictsByDistance | software/firmware/source/SkyView/TrafficHelper.cpp:186-191 | otherwise the report replaces the first farthest slot exactly when it is strictly closer and its level is at least that slot's; else the table is unchanged |
| TrafficPolicy.UniformLevelEviction | software/firmware/source/SkyView/TrafficHelper.cpp:160-191 | in a full table of one alarm level with nothing expired, a closer report replaces the first farthest slot and a report no closer than it is dropped |
| TrafficPolicy.AdmitChangesAtMostOneSlot | software/firmware/source/SkyView/TrafficHelper.cpp:130-192 | of any two slots, at least one is unchanged by admission |
| TrafficPolicy.AdmitKeepsIdsUnique | software/firmware/source/SkyView/TrafficHelper.cpp:143-191 | admission keeps the live IDs of the table pairwise distinct |
| TrafficPolicy.AdmitIntoEmptyTable | software/firmware/source/SkyView/TrafficHelper.cpp:164-168 | in an all-empty table, once the clock is past the expiration time, a live report goes into slot 0 and one target is live |
| TrafficPolicy.EmptyTableEvictsByLevel | software/firmware/source/SkyView/TrafficHelper.cpp:176-183 | in an all-empty table before the expiration time, a live report of positive alarm level goes into slot 0 as the least-level victim |
| TrafficPolicy.EmptyTableDropsWhileClockEarly | software/firmware/source/SkyView/TrafficHelper.cpp:164-191 | in an all-empty table, before that time, a live report of level <= 0 at distance >= 0 is dropped |
| TrafficPolicy.Cleared | software/firmware/source/SkyView/TrafficHelper.cpp:397-398 | one slot of the expiry sweep: a live slot older than the expiration time becomes `EmptyFO`, any other slot stays; stated by ClearExpiredExactly |
| TrafficPolicy.ClearExpired | software/firmware/source/SkyView/TrafficHelper.cpp:394-401 | the sweep keeps the table size and maps each slot on its own |
| TrafficPolicy.ClearExpiredExactly | software/firmware/source/SkyView/TrafficHelper.cpp:396-399 | the sweep empties exactly the live expired slots and keeps every other slot; no expired live slot remains |
| TrafficPolicy.ClearExpiredIdempotent | software/firmware/source/SkyView/TrafficHelper.cpp:394-401 | sweeping twice gives the same table as sweeping once |
| TrafficPolicy.EmptyingSlotsShrinks | software/firmware/source/SkyView/TrafficHelper.cpp:398 | emptying slots never raises the live count and keeps live IDs distinct |
| TrafficPolicy.ClearExpiredShrinks | software/firmware/source/SkyView/TrafficHelper.cpp:394-401 | the expiry sweep does not raise the live count and keeps live IDs distinct |
| TrafficPolicy.Resolve | software/firmware/source/SkyView/TrafficHelper.cpp:194-209 | the refresh sets the vertical separation to altitude minus own altitude and changes only the five relative fields |
| TrafficPolicy.ResolveIdempotent | software/firmware/source/SkyView/TrafficHelper.cpp:194-209 | refreshing a target a second time against the same own ship changes nothing |
| TrafficPolicy.Swept | software/firmware/source/SkyView/TrafficHelper.cpp:372-378 | one slot of the refresh sweep: kept when live and not older than the expiration time, resolved when also at least the update interval old, else `EmptyFO`; stated by SweepSlot |
| TrafficPolicy.Sweep | software/firmware/source/SkyView/TrafficHelper.cpp:370-379 | the refresh sweep keeps the table size and maps each slot on its own |
| TrafficPolicy.SweepSlot | software/firmware/source/SkyView/TrafficHelper.cpp:372-378 | a slot is kept exactly when live and not older than the expiration time; it is re-resolved exactly when also at least the update interval old; otherwise it is emptied; a kept slot keeps its ID, timestamp and alerts |
| TrafficPolicy.SweepKeepsIdsUnique | software/firmware/source/SkyView/TrafficHelper.cpp:370-379 | the refresh sweep keeps live IDs distinct and does not raise the live count |
| VoicePhrase.Sector | software/firmware/source/SkyView/TrafficHelper.cpp:256 | the bucketing of a bearing into twelve 30-degree clock sectors; SectorWindow states that it lies in 0..11 and which window holds the bearing |
| VoicePhrase.SectorWindow | software/firmware/source/SkyView/TrafficHelper.cpp:256 | the clock sector is in 0..11, and it is the sector whose 30-degree window centred on k*30 degrees holds the bearing; 0 is ahead |
| VoicePhrase.ClockSector | software/firmware/source/SkyView/TrafficHelper.cpp:245-256 | the add-360 loop and bucketing give the sector of bearing minus track, in 0..11 |
| VoicePhrase.WhereName | software/firmware/source/SkyView/TrafficHelper.cpp:258-296 | the spoken sector name is "ahead" exactly for sector 0 and has 5 to 8 characters; the twelve names are distinct by WhereNamesDistinct |
| VoicePhrase.WhereNamesDistinct | software/firmware/source/SkyView/TrafficHelper.cpp:258-296 | the twelve sectors are spoken with twelve different names |
| VoicePhrase.DistanceUnitOf | software/firmware/source/SkyView/TrafficHelper.cpp:298-322 | the distance unit of the units switch: nautical miles for imperial, kms otherwise; stated by UnitWords |
| VoicePhrase.AltitudeUnitOf | software/firmware/source/SkyView/TrafficHelper.cpp:298-322 | the altitude unit of the units switch: metres for metric, feet otherwise; stated by UnitWords |
| VoicePhrase.DistanceUnitName | software/firmware/source/SkyView/TrafficHelper.cpp:301-317 | the `u_dist` word of each distance unit; stated by UnitWords |
| VoicePhrase.AltitudeUnitName | software/firmware/source/SkyView/TrafficHelper.cpp:302-318 | the `u_alt` word of each altitude unit; stated by UnitWords |
| VoicePhrase.UnitWords | software/firmware/source/SkyView/TrafficHelper.cpp:298-322 | imperial speaks "nautical miles" and "feet", mixed "kms" and "feet", metric "kms" and "metres" |
| VoicePhrase.VoiceDistance | software/firmware/source/SkyView/TrafficHelper.cpp:298-322 | the whole voicing distance is the floor of metres * 0.00062137112 / 1.15077945 in nautical miles (imperial), and of metres / 1000 in kms otherwise |
| VoicePhrase.VoiceAltitude | software/firmware/source/SkyView/TrafficHelper.cpp:298-322 | the voicing altitude is the absolute vertical separation in metres (metric), or its floor in feet at 3.2808399 feet per metre otherwise |
| VoicePhrase.DistancePhraseOf | software/firmware/source/SkyView/TrafficHelper.cpp:324-331 | "near" exactly below one unit; otherwise the whole count, 1..9, equal to the distance when at most 9 and capped at 9 above it |
| VoicePhrase.AltitudePhraseOf | software/firmware/source/SkyView/TrafficHelper.cpp:333-343 | "near" exactly below 100; otherwise 1..5 hundreds, the floor of the hundreds below 500 and 5 from 500 on; "above" exactly when the target is higher |
| VoicePhrase.Announcement | software/firmware/source/SkyView/TrafficHelper.cpp:245-343 | the announcement of a target carries a clock sector in 0..11 |
| VoicePhrase.HowFarText | software/firmware/source/SkyView/TrafficHelper.cpp:324-331 | the distance text is "near" exactly for the near phrase, otherwise it begins with the digit of the count; at most 16 characters |
| VoicePhrase.ElevText | software/firmware/source/SkyView/TrafficHelper.cpp:333-343 | the altitude text is "near" exactly for the near phrase, otherwise it begins with the digit of the hundreds and ends in "above" exactly when the target is higher; at most 22 characters |
| VoicePhrase.MessageText | software/firmware/source/SkyView/TrafficHelper.cpp:345-347 | the message begins "traffic " and has at most 74 characters |
| VoicePhrase.AnnouncementFitsBuffers | software/firmware/source/SkyView/TrafficHelper.cpp:330-347 | each phrase fits its 32-byte buffer and the message its 80-byte buffer, so no `snprintf` truncates |
| VoicePolicy.Eligible | software/firmware/source/SkyView/TrafficHelper.cpp:219 | the view filter: a live slot seen within the voice expiration time; BuildView is proved to collect exactly these slots |
| VoicePolicy.Marked | software/firmware/source/SkyView/TrafficHelper.cpp:349-350 | the announced slot has its voice bit set and timestamp `now`; its other alert bits and every other field are unchanged |
| VoicePolicy.Speaks | software/firmware/source/SkyView/TrafficHelper.cpp:242-350 | an announcement of slot k: k is a pending slot of least distance, only k changes, to its marked form, and the message is its Announcement |
| VoicePolicy.VoiceStep | software/firmware/source/SkyView/TrafficHelper.cpp:211-358 | the effect of one Traffic_Voice call: silent and unchanged exactly when no slot is pending, otherwise Speaks for some slot; Table.Voice is proved to meet it |
| VoicePolicy.VoiceStepFrame | software/firmware/source/SkyView/TrafficHelper.cpp:242-356 | one voice call changes at most one slot, and only its alert bits and timestamp; the live count and the distinct live IDs are kept |
| VoicePolicy.NoRepeatAnnouncement | software/firmware/source/SkyView/TrafficHelper.cpp:242-243 | a target just announced is not announced by the next voice call; NoRepeatWhileIdKept extends this to any run |
| VoicePolicy.TwoCyclesAnnounceNearestFirst | software/firmware/source/SkyView/TrafficHelper.cpp:218-356 | with two pending targets, the nearer is spoken first and the farther on the next call; nothing else changes |
| TrafficHistory.AdmitKeepsAnnounced | software/firmware/source/SkyView/TrafficHelper.cpp:143-191 | admission keeps the voice bit of an announced live slot that keeps its ID |
| TrafficHistory.ClearExpiredKeepsAnnounced | software/firmware/source/SkyView/TrafficHelper.cpp:394-401 | the expiry sweep keeps the voice bit of an announced live slot it does not empty |
| TrafficHistory.SweepKeepsAnnounced | software/firmware/source/SkyView/TrafficHelper.cpp:370-379 | the refresh sweep keeps the voice bit of an announced live slot it does not empty |
| TrafficHistory.VoiceStepKeepsAnnounced | software/firmware/source/SkyView/TrafficHelper.cpp:349 | a voice call keeps every voice bit that is set, and the table size |
| TrafficHistory.StepKeepsAnnounced | software/firmware/source/SkyView/TrafficHelper.cpp:130-414 | each of the four operations keeps the table size and the voice bits of announced live slots that keep their IDs |
| TrafficHistory.RunKeepsAnnounced | software/firmware/source/SkyView/TrafficHelper.cpp:366-414 | along any run of the operations, every step keeps those voice bits |
| TrafficHistory.AnnouncedWhileIdKept | software/firmware/source/SkyView/TrafficHelper.cpp:238-243 | an announced live slot stays announced for as long as it keeps its ID |
| TrafficHistory.NoRepeatWhileIdKept | software/firmware/source/SkyView/TrafficHelper.cpp:238-243 | once a voice call announces slot k, no later voice call of the run announces k while k keeps that ID, whatever admissions and sweeps run between |
| Ranking.CompareByDistance | software/firmware/source/SkyView/TrafficHelper.cpp:416-424 | the comparator is -1, 0 or 1: negative exactly when a is nearer, zero exactly when they are equally far, positive exactly when b is nearer |
| Ranking.SortByDistance | software/firmware/source/SkyView/TrafficHelper.cpp:236 | traffic[..n] ends ordered nearest first and is a permutation of what it held; entries past n are untouched |
| TrafficEngine.Table.constructor | software/firmware/source/SkyView/TrafficHelper.cpp:29-33 | the table starts with every slot `EmptyFO` and both markers 0 |
| TrafficEngine.Table.Setup | software/firmware/source/SkyView/TrafficHelper.cpp:360-364 | both cadence markers are set to the current `millis()` |
| TrafficEngine.Table.FindById | software/firmware/source/SkyView/TrafficHelper.cpp:143-156 | the ID loop returns the index that IndexOfId names |
| TrafficEngine.Table.ScanForSlot | software/firmware/source/SkyView/TrafficHelper.cpp:160-179 | the scan stops at the slot FirstExpired names; without one, it yields the first farthest and the first least-level slots |
| TrafficEngine.Table.Add | software/firmware/source/SkyView/TrafficHelper.cpp:130-192 | the table after Traffic_Add is Admit of the table before, and the unique-ID invariant holds |
| TrafficEngine.Table.ClearExpiredSlots | software/firmware/source/SkyView/TrafficHelper.cpp:394-401 | the table after the loop is ClearExpired of the table before, and the invariant holds |
| TrafficEngine.Table.Count | software/firmware/source/SkyView/TrafficHelper.cpp:403-414 | the counting loop returns LiveCount of the table, at most MAX_TRACKING_OBJECTS |
| TrafficEngine.Table.RefreshSlot | software/firmware/source/SkyView/TrafficHelper.cpp:372-378 | slot i becomes its swept value and no other slot changes |
| TrafficEngine.Table.RefreshSweep | software/firmware/source/SkyView/TrafficHelper.cpp:370-379 | the table after the loop is Sweep of the table before, and the invariant holds |
| TrafficEngine.Table.BuildView | software/firmware/source/SkyView/TrafficHelper.cpp:218-225 | every view entry names an eligible slot with that slot's distance, and every eligible slot is in the view |
| TrafficEngine.Table.FirstUnannounced | software/firmware/source/SkyView/TrafficHelper.cpp:242-243 | the position found has its voice bit clear and all earlier ones have it set; nothing is found exactly when every entry has it set |
| TrafficEngine.Table.AnnounceAt | software/firmware/source/SkyView/TrafficHelper.cpp:245-350 | the message is the slot's Announcement, and only that slot changes, to its marked form |
| TrafficEngine.Table.Voice | software/firmware/source/SkyView/TrafficHelper.cpp:211-358 | the call is silent and changes nothing exactly when no target is pending; otherwise it speaks of a nearest pending target and marks only it; the invariant holds |
| TrafficEngine.Table.Loop | software/firmware/source/SkyView/TrafficHelper.cpp:366-392 | the refresh sweep runs only under GDL90 when due; the voice step runs only when due and voice is on; each marker moves exactly when its cadence ran |
| TrafficEngine.NearestFromRanking | software/firmware/source/SkyView/TrafficHelper.cpp:236-243 | in the sorted view of all eligible slots, the first unannounced entry is a nearest pending target |
| TrafficEngine.NothingPendingFromRanking | software/firmware/source/SkyView/TrafficHelper.cpp:218-243 | if every entry of the view is announced, no slot is pending |
| Stm32.InFlarmRange | software/firmware/source/SoftRF/src/platform/STM32.cpp:377 | the test of the remap: the low 24 bits lie in 0xDD0000..0xDFFFFF; RemapMovesOnlyFlarmIds states what it decides |
| Stm32.Remap | software/firmware/source/SoftRF/src/platform/STM32.cpp:376-379 | after the remap the low 24 bits are outside 0xDD0000..0xDFFFFF and the top byte is unchanged |
| Stm32.RemapMovesOnlyFlarmIds | software/firmware/source/SoftRF/src/platform/STM32.cpp:376-379 | the remap changes an ID exactly when it is in the FLARM block, then adds 0x100000 without wrapping, landing in 0xED0000..0xEFFFFF |
| Stm32.Low32 | software/firmware/source/SoftRF/src/platform/STM32.cpp:383 | the 32-bit result equals the override masked by 0xFFFFFFFF |
| Stm32.ChipId | software/firmware/source/SoftRF/src/platform/STM32.cpp:370-385 | without an override the ID is outside the FLARM block; with one it is the low 32 bits of the override |
| Stm32.ChipIdFromUid | software/firmware/source/SoftRF/src/platform/STM32.cpp:372-381 | without an override the ID is w0 ^ w1 ^ w2, plus 0x100000 exactly when its low 24 bits are in the block, with its top byte kept |
| Stm32.OverrideIsNotRemapped | software/firmware/source/SoftRF/src/platform/STM32.cpp:382-384 | for every override value the unique ID does not matter, and an override whose low 32 bits are in the FLARM block is returned inside the block although the remap would move it |
| Stm32.ClassifyReset | software/firmware/source/SoftRF/src/platform/STM32.cpp:112-136 | the if-chain of the reset flags; a reason it changes is one of DEFAULT, WDT, SOFT_WDT, SOFT_RESTART, EXT_SYS (never EXCEPTION or DEEP_SLEEP_AWAKE); the priority is stated by ClassifyHonoursFirstFlag |
| Stm32.ClassifyHonoursFirstFlag | software/firmware/source/SoftRF/src/platform/STM32.cpp:112-136 | the first set flag in the order LPWR, WWDG, IWDG, SFT, POR, PIN decides the reason (WDT, WDT, SOFT_WDT, SOFT_RESTART, DEFAULT, EXT_SYS) |
| Stm32.ClassifyWithoutFlags | software/firmware/source/SoftRF/src/platform/STM32.cpp:112-136 | with no flag set, the reason keeps its previous value |
| Stm32.ReasonName | software/firmware/source/SoftRF/src/platform/STM32.cpp:400-413 | the switch of STM32_getResetReason from code to name; stated by ReasonNamesDistinct |
| Stm32.ReasonNamesDistinct | software/firmware/source/SoftRF/src/platform/STM32.cpp:400-413 | the seven known codes have seven different names, none "NO_MEAN"; every other code is "NO_MEAN" |
| Stm32.ResetInfo.constructor | software/firmware/source/SoftRF/src/platform/STM32.cpp:89-91 | `reset_info.reason` starts as DEFAULT |
| Stm32.ResetInfo.Setup | software/firmware/source/SoftRF/src/platform/STM32.cpp:112-139 | the reason becomes the classification of the latched flags, and all flags are cleared |
| Stm32.ResetInfo.GetResetReason | software/firmware/source/SoftRF/src/platform/STM32.cpp:400-413 | the name of the stored reason; it is not "NO_MEAN" exactly when the code is 0..6 |
| Stm32.EepromBegin | software/firmware/source/SoftRF/src/platform/STM32.cpp:457-466 | the result is false exactly when the requested size exceeds E2END |

## Left out

- The fast float approximations (`fast_magnitude`, `fast_atan2`, `fast_sine`, `fast_cosine`, `EPD_2D_Rotate`, TrafficHelper.cpp:36-128) are not modelled. They are floating-point numerics whose contract is an error bound.
- The geodesy inside `Traffic_Update` is not modelled. `nmea.distanceBetween`, `nmea.courseTo` and the sine and cosine components are foreign float code. They are a function parameter `geo` from the two positions to distance, bearing, north and east. Only the vertical separation is computed exactly.
- Floating-point quantities are integers: latitude, longitude, altitude, distance, bearing, the north and east components and the vertical separation. The truncation `(int) RelativeBearing` is taken as already done.
- Resolve: `RelativeNorth` and `RelativeEast` are taken from `geo`. The model does not restate that they are distance times the cosine and sine of the bearing.
- The unit conversion constants are exact decimals: 0.00062137112 miles per metre, 1.15077945 mph per knot, 3.2808399 feet per metre. Float rounding near a whole unit is not modelled.
- The values of the header constants are not part of this model. TrafficHelper.h and SoCHelper.h are not among the files modelled. Instead:
  - `MAX_TRACKING_OBJECTS`, `ENTRY_EXPIRATION_TIME`, `VOICE_EXPIRATION_TIME`, `TRAFFIC_VECTOR_UPDATE_INTERVAL` and `ALARM_ZONE_NONE` are fields of `Limits`, given to the table on construction;
  - `TRAFFIC_ALERT_VOICE` is taken as the bit value 2;
  - the `REASON_*` codes are taken as 0..6 in the order `STM32_getResetReason` lists them.
- The filter setting is three cases: off, 500 m, and any other value. Any other value rejects every report, as the condition is written.
- Units: a units value outside the three named ones behaves as metric, through the switch's `default`. It is folded into `Metric`.
- The `qsort` order among equal distances is not modelled. `qsort` is not stable, and the model sorts with an insertion sort. The Voice contract does not depend on the order among ties: it speaks of some pending target of least distance.
- The comparator has no result when a distance is NaN. Distances are integers here.
- The time sources are inputs, not modelled clocks. `now()` and `millis()` are parameters, and `isTimeToUpdateTraffic()` and `isTimeToVoice()` are boolean parameters of `Loop`. Each operation takes one `now` and `Setup` one `millis`, while the firmware reads the clock more often: `now()` in every iteration of the admission scan (TrafficHelper.cpp:165), of the view loop (line 219) and of the expiry sweep (line 397), and again when marking the announced slot (line 350); `millis()` twice in `Traffic_setup` (lines 362-363). Time differences are exact integer subtraction; unsigned wrap-around of `millis()` and `time_t` is not modelled.
- Loop: both markers are set from one `millis` value. The source calls `millis()` once after the sweep (TrafficHelper.cpp:381) and again after the speech call (line 390), so the two readings can differ.
- Speech output: `SoC->TTS(message)` is the `Message` returned by `Voice`. `VoicePhrase.MessageText` gives its text.
- The rest of `STM32.cpp` is not modelled. It is hardware bring-up: pins, low power, sleep, backup registers, watchdog, SPI, serial and USB, GNSS reset, battery, heap, buzzer and buttons.
- The call to `EEPROM.begin()` is not modelled; it is a driver call.
- `STM32_getResetInfo` is not modelled; it returns one constant text whatever the reason.
- The display driver `M5S_LCD.cpp`/`.h` and the pin header `Platform_RPi.h` are not modelled. They are rendering code and pin definitions.
- Stm32.ChipId: `SOFTRF_ADDRESS` is a build-time constant, modelled as a 64-bit value; wider literals are not modelled.
