# TWANG32 core, modelled in Dafny

This project models four self-contained pieces of the TWANG32 one-dimensional
LED dungeon game and proves what they promise:

- **Sample window** (`samples.dfy`, module `SampleWindow`). A five-slot ring
  buffer of `int` readings that smooths the motion sensor. It is the class
  `Samples` over two `array<int>` of length 5 and a cursor. `Add` overwrites
  the oldest slot. `Median` copies the readings into the scratch array, sorts
  that array in place and returns its middle element. `Highest` is a linear
  maximum scan. A pure `Window` value with `AddTo`/`AddAll` specifies the
  buffer over many adds. `SortSeq` specifies the sorted copy.
- **Particle** (`particle.dfy`, module `Particles`). One spark of the death
  or boss-kill explosion, living on the track [0, 1000]. The class `Particle`
  has `Spawn`, `Tick`, `Alive` and `Kill`. It is proved against the pure
  `Spawned`/`Step` functions. Lemmas about `Step` give the lifetime bound and
  show that the track is never left.
- **Spawner** (`spawner.dfy`, module `Spawners`). An enemy spawner record
  with `Spawn`, `Kill` and `Alive`. The time `millis()` is the parameter
  `now`.
- **Serial settings console** (`settings.dfy`, module `Settings`).
  - The class `UserSettings` holds the fields of `settings_t` and
    `lastInputTime`. It has `Set`, `FromString`, `ResetSettings` and `Load`,
    the version check of the stored record.
  - The class `SerialReader` holds the function-static 10-character line
    buffer and cursor of `settings_processSerial`.
  - Each method is proved against a pure specification: `SetSpec`,
    `LineSpec`, `ParseLine` and `ReadStep`.
  - Effects that leave the module are returned as an ordered `seq<Action>`:
    EEPROM writes, `FastLED.setBrightness`, `ESP.restart`, serial messages
    and the failed `assert` of an empty line.

Integers are unbounded. C's truncating `/` is written out as
`Particles.TruncDiv`. The `int` → `uint16_t` conversion of a parsed value is
written `% 0x1_0000`. The `unsigned long` → `long` conversion of `millis()`
and the 32-bit wrap of `cmp_int` are one two's-complement reduction,
`Platform.Wrap32`, in the module `Platform` that the others import.

Three facts of the code that are easy to misread:
- A particle spawned at rest starts with life 220 and dies on its first tick
  (`RestingSpawnDiesAtOnce`).
- The drawn velocity lies in [-200, 200), because Arduino's `random` excludes
  its upper bound.
- `_pos += _sp / 7.0` is a floating-point step truncated back to `int`. That is
  `trunc((7 * pos + sp) / 7)`, which differs from `pos + sp / 7` in integers
  (`AdvanceIsNotIntegerStep`).

## Model

| member | source | states |
|---|---|---|
| SampleWindow.AddTo | src/samples.h:26-35 | the slot at the old cursor receives the value, every other slot keeps its value, the cursor advances by one and wraps 5 → 0, staying in [0, 5) |
| SampleWindow.Samples.Add | src/samples.h:26-35 | the buffer after the call is `AddTo` of the buffer before it; the scratch array is not touched |
| SampleWindow.AddAllIndex | src/samples.h:26-35 | after any run of adds the cursor has moved on by the number of adds, modulo five |
| SampleWindow.HoldsOwnRing | src/samples.h:26-35 | every buffer holds its own five values read round the ring starting at the cursor, the oldest first |
| SampleWindow.HoldsStep | src/samples.h:26-35 | an add overwrites the oldest of the five values held and leaves the cursor on the next oldest |
| SampleWindow.AddAllHolds | src/samples.h:26-35 | after any run of adds the buffer holds the last five of its starting ring followed by everything added, the oldest at the cursor |
| SampleWindow.LastFiveRotated | src/samples.h:26-35 | after at least five adds the cursor has moved on by the number of adds and the buffer holds exactly the last five values added, the oldest at the cursor |
| SampleWindow.LastFiveRemain | src/samples.h:26-35 | after at least five adds, the buffer holds exactly the last five values as a multiset; earlier values are gone |
| SampleWindow.FiveAddsSorted | src/samples.h:26-35 | after exactly five adds, the sorted buffer equals the sorted five values, whatever the starting state |
| SampleWindow.MaxAfterSevenAdds | src/samples.h:26-35 | after seven adds, the buffer's maximum is the maximum of the last five values only |
| SampleWindow.CmpInt | src/samples.h:37-42 | `va - vb` wrapped to 32 bits; it equals the true difference when that fits in an `int` |
| SampleWindow.CmpIntOverflows | src/samples.h:37-42 | `cmp_int(INT_MAX, -1)` is negative although INT_MAX > -1 |
| SampleWindow.CmpIntAgreesInHalfRange | src/samples.h:37-42 | for values in [-2^30, 2^30) the sign of `cmp_int` is the sign of the true comparison |
| SampleWindow.CmpOrder | src/samples.h:37-42 | a comparator whose sign is negative, zero or positive exactly when `va < vb`, `va == vb` or `va > vb` |
| SampleWindow.Insert | src/samples.h:47 | inserting into a sorted sequence gives a sorted sequence one longer, with the inserted value added to the multiset |
| SampleWindow.SortSeq | src/samples.h:47 | the sorted copy has the same length, is ascending, and is a permutation of its input |
| SampleWindow.SortedUnique | src/samples.h:47 | two ascending sequences with the same multiset are equal, so the sorted copy is determined by the values |
| SampleWindow.SortSeqIsArrangement | src/samples.h:47 | any ascending permutation of the input is its sorted copy |
| SampleWindow.SortSeqOrderIndependent | src/samples.h:44-51 | the sorted copy depends only on the multiset of values, not on the insertion order |
| SampleWindow.SortInPlace | src/samples.h:47 | the array ends up ascending and a permutation of its old contents |
| SampleWindow.Count | src/samples.h:44-51 | the number of elements at most (or at least) a given value never exceeds the length |
| SampleWindow.CountAppend | src/samples.h:44-51 | the count over a concatenation is the sum of the counts |
| SampleWindow.CountPermutation | src/samples.h:44-51 | permuting a sequence does not change its counts |
| SampleWindow.CountAll | src/samples.h:44-51 | when every element is on the chosen side of a value, the count is the whole length |
| SampleWindow.SortedRankBelow | src/samples.h:50 | in an ascending sequence at least k+1 elements are ≤ the k-th element |
| SampleWindow.SortedRankAbove | src/samples.h:50 | in an ascending sequence at least n-k elements are ≥ the k-th element |
| SampleWindow.MiddleIsMedian | src/samples.h:44-51 | for an odd number of values, the middle of the sorted copy is one of the values, and more than half of the values are ≤ it and more than half are ≥ it |
| SampleWindow.Samples.Median | src/samples.h:44-51 | the readings are unchanged; the scratch array becomes an ascending permutation of them; the result is its middle element, is one of the readings, and has at least 3 readings ≤ it and at least 3 ≥ it |
| SampleWindow.MaxOf | src/samples.h:53-62 | the maximum is an element of the sequence and is ≥ every element |
| SampleWindow.MaxOfPermutation | src/samples.h:53-62 | the maximum depends only on the multiset of values |
| SampleWindow.Samples.Highest | src/samples.h:53-62 | the result is one of the readings, is ≥ every reading, and nothing is modified |
| Particles.TruncDiv | src/Particle.h:38-62 | C's `/` by a positive divisor: the magnitude is that of the dividend divided, and the sign follows the dividend |
| Particles.Spawned | src/Particle.h:22-29 | a spawned particle is alive at `pos` with power 255, speed `v` and life `220 - abs(v)`, so its life lies in [20, 220] |
| Particles.Particle.Spawn | src/Particle.h:22-29 | the state after `Spawn(pos)` with drawn velocity `v` in [-200, 200) is `Spawned(pos, v)` |
| Particles.Friction | src/Particle.h:36-43 | a positive speed loses `life/10`; a zero or negative speed gains `life/10`; the change is exactly `life/10` in magnitude |
| Particles.Advance | src/Particle.h:53-63 | the new position is `trunc((7*pos+sp)/7)` when that lies on [0, 1000], with the speed unchanged; otherwise the position is clamped to the nearer end and the speed becomes `-(sp/2)` truncated, of magnitude `abs(sp)/2`; the result is always on the track |
| Particles.BounceTurnsInward | src/Particle.h:54-63 | from inside the track, a bounce at 1000 leaves a speed ≤ 0 and a bounce at 0 leaves a speed ≥ 0 |
| Particles.AdvanceIsNotIntegerStep | src/Particle.h:53 | from 5 at speed -3 the particle moves to 4, whereas `5 + (-3)/7` would stay at 5 |
| Particles.BounceExample | src/Particle.h:53-58 | from 990 at speed 140 the particle stops at 1000 with speed -70 |
| Particles.StepFacts | src/Particle.h:31-66 | a dead particle is unchanged; a live one ages by exactly 1 and gets power `100 - life`; it dies iff that power is ≤ 0, and then keeps its position; a survivor moves by `Advance` of the friction-adjusted speed; a live result is on the track |
| Particles.Particle.Tick | src/Particle.h:31-66 | the state after `Tick` is `Step` of the state before it |
| Particles.DeadStaysDead | src/Particle.h:33 | any number of ticks leaves a dead particle unchanged |
| Particles.PowerDecreases | src/Particle.h:35-49 | power strictly drops on every live tick, and power ≥ 100 - life is kept |
| Particles.DeadWithin | src/Particle.h:35-49 | a particle whose life plus k reaches 100 is dead after k ticks |
| Particles.AliveFor | src/Particle.h:35-49 | a live particle survives k ticks while its life plus k stays below 100, and its life grows by k |
| Particles.SpawnedDiesWithin80 | src/Particle.h:28-49 | every spawned particle is dead after 80 ticks |
| Particles.FastestSpawnLives79 | src/Particle.h:25-49 | a particle spawned at speed -200 is still alive after 79 ticks, so 80 is tight |
| Particles.RestingSpawnDiesAtOnce | src/Particle.h:28-50 | a particle spawned at rest dies on its first tick without moving |
| Particles.StaysOnTrack | src/Particle.h:53-63 | a particle on [0, 1000] stays on it for any number of ticks |
| Particles.OnTrackAfterFirstTick | src/Particle.h:31-66 | a particle that is alive after at least one tick is on the track, wherever it was spawned |
| Particles.Particle.Alive | src/Particle.h:68-71 | returns the alive flag and changes nothing |
| Particles.Particle.Kill | src/Particle.h:73-76 | clears the alive flag and changes no other field, so a second call changes nothing |
| Spawners.Spawner.Spawn | src/Spawner.h:25-34 | copies position, rate, speed, direction and start offset into the fields, records `now` as the last spawn time, and marks the spawner alive |
| Spawners.Spawner.Kill | src/Spawner.h:36-39 | clears the alive flag and changes no other field, so a second call changes nothing |
| Spawners.Spawner.Alive | src/Spawner.h:41-44 | returns the alive flag and changes nothing |
| Platform.Wrap32 | src/settings.h:44 | storing `millis()` in the 32-bit `long` `lastInputTime` (and the overflowing subtraction of `cmp_int`) gives a value in the signed 32-bit range, congruent to the original mod 2^32, and equal to it when it already fits |
| Settings.Put | src/settings.h:60-80 | setting one field of the record changes that field and nothing else, neither the statistics nor the version |
| Settings.DefaultsInRange | src/settings.h:11-42 | the factory settings have version 2, every configurable field within its [MIN, MAX] range, and zero statistics |
| Settings.Constrain | src/settings.h:169-195 | the result lies in [lo, hi], equals the input when the input is in range, and is the nearer bound otherwise |
| Settings.SetSpec | src/settings.h:160-232 | a value command for C, B, S, D, A or L stores in the named field the value clamped into its range (`Constrain`: the value itself when in range, otherwise the nearer bound), changes no other field, and writes the EEPROM; any other letter with a value changes nothing and reports an error; `R` restores the defaults; `P` zeroes the four statistics and keeps the configuration; every other bare command leaves the record unchanged |
| Settings.UserSettings.Set | src/settings.h:160-232 | the record and the actions after `settings_set` are those of `SetSpec`, and the screensaver time becomes `now` converted to `long` |
| Settings.UserSettings.SetValue | src/settings.h:164-203 | a value for C, B, S, D, A or L is clamped into that field's range and stored, with the brightness applied first for B, then written and reported; any other letter only reports an error; the record and actions are those of `SetSpec` with a value |
| Settings.UserSettings.RunCommand | src/settings.h:204-230 | `?` shows stats and menu, `R` resets to the defaults, writes and shows the menu, `P` zeroes the four statistics and writes, `!` restarts, anything else reports an error; the record and actions are those of `SetSpec` without a value |
| Settings.UserSettings.ResetSettings | src/settings.h:234-256 | every field takes its default value (version 2), the statistics are zero, and the record is written to the EEPROM once |
| Settings.UserSettings.Load | src/settings.h:315-345 | a stored record of version 2 is taken as it is; any other version loads the defaults and reports an error |
| Settings.DigitsValue | src/settings.h:156 | the value of n digits is below 10^n |
| Settings.Decimal | src/settings.h:156 | a rendered number is a non-empty run of digits |
| Settings.DecimalRoundTrip | src/settings.h:156 | reading back a rendered number gives the number |
| Settings.DecimalLength | src/settings.h:156 | a number below 10^k renders in at most k digits |
| Settings.ParseLine | src/settings.h:121-158 | the length assertions fail exactly for an empty line or one of 10 or more characters; a line is dispatched exactly when it has one character, or has at least 3 with `=` second and only digits after it; a dispatched line carries its first character, has a value iff it is longer than one, and the value is the digits' value mod 65536 |
| Settings.ValueLineWraps | src/settings.h:121-160 | `X=` followed by any number of up to seven digits is dispatched as letter X with that number reduced mod 65536, the 16-bit `uint16_t` the setter takes |
| Settings.ValueLineRoundTrip | src/settings.h:121-158 | `X=` followed by any value below 65536 in decimal is dispatched as letter X with exactly that value |
| Settings.ValueWrapsExample | src/settings.h:156-160 | `A=65536` reaches the setter as 0 |
| Settings.LineSpec | src/settings.h:121-158 | a line that is not dispatched changes no setting |
| Settings.MalformedLinesChangeNothing | src/settings.h:133-154 | a line of length 2, or without `=` second, or with a non-digit after `=`, only reports an error |
| Settings.UserSettings.FromString | src/settings.h:121-158 | the record and the actions after `settings_fromString` are those of `LineSpec`; the screensaver time is refreshed only when the line is dispatched |
| Settings.ReadStep | src/settings.h:95-119 | the cursor stays below 10; a line is handed over exactly on `\n`, and it is the pending characters, after which the buffer is empty; `\r` changes nothing |
| Settings.ReadAll | src/settings.h:95-119 | over any input the cursor stays below 10 and every line handed over is shorter than 10 characters |
| Settings.FeedText | src/settings.h:113-117 | characters that fit in the buffer are appended to the pending ones and no line is handed over |
| Settings.FeedLine | src/settings.h:107-117 | a line of up to nine characters followed by `\n` reaches the parser exactly as typed, and leaves the buffer empty |
| Settings.OverlongTextDropped | src/settings.h:113-117 | the tenth character without a newline empties the buffer and is itself dropped |
| Settings.ReadAllAppend | src/settings.h:95-119 | feeding two inputs one after the other is feeding their concatenation |
| Settings.EmptyLineFailsAssertion | src/settings.h:107-124 | a bare `\n` hands an empty line to the parser, whose `len > 0` assertion then fails |
| Settings.SerialReader.ProcessSerial | src/settings.h:95-119 | the pending characters follow `ReadStep`; a character other than `\n` returns no action and leaves the settings alone; `\n` applies `LineSpec` to the pending line and refreshes the screensaver time exactly when the line is dispatched |

## Left out

- `src/twang_mpu.h` (the I2C motion-sensor driver) is not part of this model. It is hardware transactions with a timeout and no stateable logic.
- The EEPROM byte layout, `memcpy` of the padded struct and `sound_pause` are left out. `Load` models only the version check and takes the stored record as a value.
- Serial text is left out: `show_settings_menu`, `show_game_stats` and every message. Messages appear only as the `Report`/`ReportError` actions. A malformed line prints one or two lines; both are one `ReportError`.
- `FastLED.setBrightness`, `ESP.restart` and EEPROM writes are returned as actions. Their effects on the hardware are not modelled. After `Restart` the record is left as it was.
- `millis()` and `random()` are parameters (`now`, `v`).
- `MAX_LEDS` is not defined in `settings.h`. It is the constructor parameter `maxLeds` of `UserSettings`, with `maxLeds >= MIN_LEDS`.
- Gravity (`USE_GRAVITY`) is compiled out in `Particle.h` and is not modelled.
- Particles.Step: the fields are unbounded integers, not 32-bit `int`. From a spawned state no field comes near the `int` range.
- Particles.Advance: `_pos += _sp / 7.0` is modelled as exact truncation of `(7*pos + sp)/7`. Rounding of the `double` is not modelled. For the small values involved it is exact.
- SampleWindow.SortInPlace: it is an insertion sort standing in for `qsort`. Only the result (ascending, a permutation) is claimed. That result is unique, so it equals `qsort`'s with a correct comparator. It uses the corrected comparator `CmpOrder`, not the overflowing `cmp_int`.
- Settings fields are unbounded integers. The `uint8_t`/`uint16_t` widths of `settings_t` only matter for stored values, and clamping keeps every set value within its field's width, given `MAX_LEDS` below 65536.
- Spawner due-time decisions, enemy movement, particle and spawner pools, and attack-edge detection belong to the game loop, which is not part of this model.
- The unused file-scope `readBuffer`/`readIndex` (`src/settings.h:84-86`) are not modelled. They are shadowed by the function-static ones in `settings_processSerial`.
- The `'\0'` that `settings_processSerial` writes after the line is written into the array but is not part of the pending characters. The parser is given the line and its length, as in the source.

## Findings

| source | as written | input that shows it | evidently intended | confidence | as-written member | corrected member |
|---|---|---|---|---|---|---|
| src/samples.h:37-42 | `cmp_int` returns `va - vb`, which overflows `int` when the readings are far apart | readings `INT_MAX` and `-1`: the difference wraps to `INT_MIN`, so `qsort` orders `INT_MAX` before `-1` | a three-way comparison that is negative, zero or positive exactly when `va < vb`, `va == vb` or `va > vb` | low: sensor magnitudes are normally small; not executed | SampleWindow.CmpIntOverflows | SampleWindow.CmpOrder |
