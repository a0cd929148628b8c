# DynmapSponge core, modelled in Dafny

DynmapSponge is the Sponge server plugin that connects Minecraft servers to the
Dynmap map renderer. Almost all of its Kotlin class is host-framework glue and
unimplemented interface stubs. This project models the three parts that hold
sequential logic of their own:

- **Tick-rate estimator** (`tick_rate.dfy`, module `TickRate`). Every server
  tick, `processTick` measures the time since the previous tick. It folds that
  time into an integer exponential moving average of the tick length in
  nanoseconds, reloads the per-tick chunk budget and advances the tick
  counter. The class `TickClock` holds the plugin's fields. Its `ProcessTick`
  is proved against the pure step `Tick`. `Run` applies `Tick` once per
  scheduler callback, and the lemmas about `Run` cover sequences of ticks.
  The clock reading and the chunk budget are parameters.
- **World lookup** (`world_cache.dfy`, module `WorldCache`). A name → wrapper
  map with a one-entry "last world" cache. `Valid()` is the invariant that
  every entry is filed under its own name and that the cache agrees with the
  map. The proved consequence is that the cache never changes an answer.
- **Biome reconciliation** (`biomes.dfy`, module `Biomes`). The server's biome
  list is walked by index against Dynmap's registry. Default slots get a new
  mapping and are counted. Other slots get their temperature and rainfall
  overwritten. `NewMappings` and `Reconciled` are the specification functions.
  The loop in `LoadExtraBiomes` is proved to compute them.

`wrappers.dfy` holds the `Option` type that stands for Kotlin's nullable types.

Three properties of the average follow from the code's integer arithmetic:

- The update could have been written `(avg * 99 + elapsed) / 100`. The code
  instead divides each term separately: `(avg * 99) / 100 + elapsed / 100`.
  `SeparateVersusCombined` shows that the two forms differ by at most one.
  `SeparateDiffersFromCombined` shows an input where they differ.
- The code does not keep the average positive. An average of 1 with an
  elapsed time of 0 gives 0 (`AverageExamples`). The model proves only that
  the average is non-negative and bounded.
- A steady tick length keeps an equal average only when it is a multiple of
  100 ns (`SteadyTick`, `RunSteady`). Steady ticks do not in general pull the
  average to d; everything depends on `SettlePoint(d) = 100 * (d / 100)`:
  - Starting from an average of d (or anywhere between `SettlePoint(d)` and
    d), the average drops by 1 ns per tick until it reaches `SettlePoint(d)`,
    and then stays there (`SameHundredsTick`, `RunSettles`). Steady 150 ns
    ticks take an average of 150 down to 100.
  - Starting from below `SettlePoint(d)`, the average never falls and never
    passes `SettlePoint(d)`. Any average within 100 ns under
    `SettlePoint(d)` is already a fixed point (`SteadyApproach`,
    `RunApproach`). At 20 TPS an average of 49,999,950 ns stays where it is
    (`SeedWindowExample`).
  - Starting from above `SettlePoint(d)`, as after a stall, the average
    falls at every tick while it is above `SettlePoint(d)` and never drops
    below it (`RunDecays`). While the average is at or above d, each tick
    closes at least a hundredth of the gap to d (`TickPull`).

## Model

| member | source | states |
|---|---|---|
| TickRate.NextAverage | src/main/kotlin/com/demonwav/dynmapsponge/DynmapSponge.kt:211 | the moving-average step, with each division truncated separately. It has no contract of its own: its properties are the lemmas `NextAverageBounds`, `SeparateVersusCombined`, `SteadyTick`, `SameHundredsTick` and `TickFloor` |
| TickRate.Tick | src/main/kotlin/com/demonwav/dynmapsponge/DynmapSponge.kt:207-215 | the pure state change of one processTick. It has no contract of its own: `TickClock.ProcessTick` is proved to perform it, and `RunCounts`, `RunAverageWithin`, `RunSteady`, `RunSettles` and `RunDecays` state its effect over sequences of ticks |
| TickRate.TruncDiv | src/main/kotlin/com/demonwav/dynmapsponge/DynmapSponge.kt:211 | Kotlin `Long` division truncates toward zero: the quotient times the divisor lies within one divisor of the dividend, on the dividend's side of zero |
| TickRate.AverageExamples | src/main/kotlin/com/demonwav/dynmapsponge/DynmapSponge.kt:207-211 | the 50,000,000 ns seed (20 TPS, a multiple of 100) is kept by a 50 ms tick; one 100 ms tick moves it to 50,500,000; an average of 1 with a 0 ns tick falls to 0; a steady 150 ns average drifts to 149 |
| TickRate.NextAverageBounds | src/main/kotlin/com/demonwav/dynmapsponge/DynmapSponge.kt:211 | for a non-negative average and elapsed time, the new average is non-negative, at most the larger of the two, and at least the smaller one minus one |
| TickRate.SeparateVersusCombined | src/main/kotlin/com/demonwav/dynmapsponge/DynmapSponge.kt:211 | the code's two separate truncations give at most one less than the single-division form `(avg*99+elapsed)/100`, and never more |
| TickRate.SeparateDiffersFromCombined | src/main/kotlin/com/demonwav/dynmapsponge/DynmapSponge.kt:211 | the two forms are not the same function (they differ at 150, 150) |
| TickRate.SteadyTick | src/main/kotlin/com/demonwav/dynmapsponge/DynmapSponge.kt:211 | when the average equals the elapsed time d >= 0, the average stays d exactly when d is a multiple of 100, and otherwise becomes d - 1 |
| TickRate.PerTickLimitNanos | src/main/kotlin/com/demonwav/dynmapsponge/DynmapSponge.kt:154 | the configured milliseconds (a 32-bit `Int`) converted to nanoseconds: an exact multiple of 1,000,000 that divides back to the input and fits a 64-bit `Long` |
| TickRate.RunCounts | src/main/kotlin/com/demonwav/dynmapsponge/DynmapSponge.kt:207-218 | after N ticks the tick counter has grown by exactly N; `lastTick` and the chunk budget are those of the last tick; `perTickLimit`, `prevTick` and `currentTickStartTime` are unchanged |
| TickRate.RunAverageWithin | src/main/kotlin/com/demonwav/dynmapsponge/DynmapSponge.kt:207-211 | when every tick interval lies in [lo, hi] with lo >= 0, an average starting at any non-negative value stays non-negative and stays between the smaller of its start and `100 * (lo / 100)` and the larger of its start and hi. In the first ticks it drops at most 1 ns per tick below lo |
| TickRate.TickPull | src/main/kotlin/com/demonwav/dynmapsponge/DynmapSponge.kt:211 | one tick of interval d at or below the average a leaves a gap to d of at most 99/100 of the old gap |
| TickRate.RunDecays | src/main/kotlin/com/demonwav/dynmapsponge/DynmapSponge.kt:207-211 | under steady ticks of length d, an average at or above `100 * (d / 100)` (as after a stall) never rises and never drops below that value, and if it starts above it, any non-empty run of ticks lowers it strictly |
| TickRate.TickFloor | src/main/kotlin/com/demonwav/dynmapsponge/DynmapSponge.kt:211 | one tick with an interval of at least lo >= 0 never takes a non-negative average below the smaller of its old value and `100 * (lo / 100)` |
| TickRate.SameHundredsTick | src/main/kotlin/com/demonwav/dynmapsponge/DynmapSponge.kt:211 | when a non-negative average and interval have the same hundreds, one tick keeps an average that is a multiple of 100, and lowers any other average by exactly 1 |
| TickRate.RunSettles | src/main/kotlin/com/demonwav/dynmapsponge/DynmapSponge.kt:207-211 | with a steady interval d >= 0 and an average between `100 * (d / 100)` and d, after N ticks the average is the larger of start - N and `100 * (d / 100)`. It settles there and does not come back up to d |
| TickRate.SteadyApproach | src/main/kotlin/com/demonwav/dynmapsponge/DynmapSponge.kt:211 | one tick of interval d from a non-negative average a. If a <= `100 * (d / 100)`, the result lies between a and `100 * (d / 100)`, and equals a exactly when a is within 100 ns under `100 * (d / 100)`. If a is above it, the result falls but not below it |
| TickRate.RunApproach | src/main/kotlin/com/demonwav/dynmapsponge/DynmapSponge.kt:207-211 | under steady ticks of length d, an average at or below `100 * (d / 100)` never falls and never passes that value; one within 100 ns under it never moves |
| TickRate.SeedWindowExample | src/main/kotlin/com/demonwav/dynmapsponge/DynmapSponge.kt:211 | steady 50 ms ticks leave an average of 49,999,950 ns unchanged: they do not pull it up to the seed |
| TickRate.RunSteady | src/main/kotlin/com/demonwav/dynmapsponge/DynmapSponge.kt:207-211 | ticks of a steady length d, where d is a multiple of 100, keep an average of d unchanged for any number of ticks |
| TickRate.TickClock.constructor | src/main/kotlin/com/demonwav/dynmapsponge/DynmapSponge.kt:80-89 | the estimator fields start at 0, except the average, which starts at the 50,000,000 ns seed |
| TickRate.TickClock.Start | src/main/kotlin/com/demonwav/dynmapsponge/DynmapSponge.kt:153-154 | at server start `lastTick` becomes the clock reading and `perTickLimit` the converted budget; nothing else changes |
| TickRate.TickClock.ProcessTick | src/main/kotlin/com/demonwav/dynmapsponge/DynmapSponge.kt:207-218 | one tick increments `currentTick` by 1, sets `lastTick` to now, folds now - old `lastTick` into the average with separate truncating divisions, and sets the chunk budget to the supplied value; `perTickLimit`, `prevTick` and `currentTickStartTime` stay unchanged; the new state is `Tick` of the old |
| WorldCache.SpongeWorld.constructor | src/main/kotlin/com/demonwav/dynmapsponge/DynmapSponge.kt:106 | a new wrapper carries the world's name and is loaded |
| WorldCache.SpongeWorld.SetWorldLoaded | src/main/kotlin/com/demonwav/dynmapsponge/DynmapSponge.kt:109 | the wrapper is loaded afterwards |
| WorldCache.WorldRegistry.constructor | src/main/kotlin/com/demonwav/dynmapsponge/DynmapSponge.kt:75-78 | the map starts empty and both cache fields start null, which satisfies the invariant |
| WorldCache.WorldRegistry.GetWorldByName | src/main/kotlin/com/demonwav/dynmapsponge/DynmapSponge.kt:92-97 | reads no more than the object's fields and changes nothing; it answers from the cache only when the cached world has the asked name; when the invariant holds, the answer is always the map's entry for the name, or null |
| WorldCache.WorldRegistry.GetWorld | src/main/kotlin/com/demonwav/dynmapsponge/DynmapSponge.kt:99-116 | keeps the invariant; afterwards the map entry under the world's name, `lastSpongeWorld` and the result are the same object, and `lastWorld` is the world. A hit on the identity cache returns the cached object and changes nothing. Otherwise a present entry is reused and left in the map (loaded afterwards), and a missing one is created fresh, loaded, and is the only insertion. No other wrapper is modified |
| Biomes.NatToString | src/main/kotlin/com/demonwav/dynmapsponge/DynmapSponge.kt:186 | the decimal rendering of an index is a non-empty string of digits without a leading zero |
| Biomes.ParseNatToString | src/main/kotlin/com/demonwav/dynmapsponge/DynmapSponge.kt:186 | reading the decimal rendering back gives the index again |
| Biomes.FallbackName | src/main/kotlin/com/demonwav/dynmapsponge/DynmapSponge.kt:185-187 | the name used when a biome has no id string starts with `BIOME_` followed by at least one decimal digit, only digits, with no leading zero, and those digits read back as the index |
| Biomes.MappingName | src/main/kotlin/com/demonwav/dynmapsponge/DynmapSponge.kt:183-187 | the biome's id string when it has one, else the fallback name. It has no contract of its own: `NewMappingsSound` states that every created mapping carries it, and `FallbackNamesDistinct` that the fallbacks never collide |
| Biomes.FallbackNamesDistinct | src/main/kotlin/com/demonwav/dynmapsponge/DynmapSponge.kt:185-187 | two different indices never get the same `"BIOME_" + i` name |
| Biomes.NewMappingsCount | src/main/kotlin/com/demonwav/dynmapsponge/DynmapSponge.kt:175-196 | the number of mappings created equals the number of walked indices whose registry slot is default |
| Biomes.NewMappingsSound | src/main/kotlin/com/demonwav/dynmapsponge/DynmapSponge.kt:177-191 | every created mapping is for a walked index with a default slot. It is named by the biome's id string, or `"BIOME_" + i` when there is none, and carries that biome's temperature and humidity. Mappings come in strictly increasing index order |
| Biomes.NewMappingsComplete | src/main/kotlin/com/demonwav/dynmapsponge/DynmapSponge.kt:177-191 | every walked index with a default slot gets its mapping |
| Biomes.BiomeRegistry.LoadExtraBiomes | src/main/kotlin/com/demonwav/dynmapsponge/DynmapSponge.kt:171-201 | the walk overwrites temperature and rainfall on exactly the non-default walked slots. All other slots are unchanged. It returns the created mappings in index order, and a count equal to their number and to the number of default walked slots |

## Left out

- Sponge lifecycle listeners, injection, plugin lookup, scheduler submission, listener creation and logging (DynmapSponge.kt:118-169, :203-205): host-framework plumbing with no logic of the plugin's own.
- Calls into the Dynmap core and map manager (`enableCore`, `disableCore`, `serverTick`, `maxChunkLoadsPerTick`, `maxTickUseMS`): foreign code. Their values come in as parameters of `ProcessTick` and `Start`.
- `System.nanoTime()`: a clock read, taken as the parameter `now`.
- The `tps` field and its update `1E9 / avgTickLength` (DynmapSponge.kt:212): floating point. It divides by zero once the average reaches 0, which the code allows.
- TickRate.TickClock.ProcessTick: does not model 64-bit `Long` wrap-around of `avgTickLength * 99`, `now - lastTick` or `currentTick + 1`, or 32-bit `Int` bounds on the chunk budget, because the model uses unbounded integers.
- WorldCache.SpongeWorld.constructor: the wrapper class is not part of this model. The model assumes a freshly wrapped world is loaded and records only its name.
- WorldCache.SpongeWorld.SetWorldLoaded: models only the effect "loaded := true", not whatever else the wrapper stores about the world.
- Unloading of worlds happens outside the modelled code. `GetWorld` is therefore proved for any valid state, including wrappers that are not loaded.
- `BiomeMap` internals (`loadWellKnownByVersion`, `byBiomeID`, the registry side effect of its constructor) and the `util` getters: an external library. The new mappings are returned as a list rather than registered in the registry.
- Biomes.BiomeRegistry.LoadExtraBiomes: requires the registry to have a slot for every index the server reports, because `byBiomeID` outside the registry is library behaviour that is not part of this model.
- The "Added N custom biome mappings" log line (DynmapSponge.kt:198-200): logging; the count it prints is the method's `count`.
- Every `TODO("not implemented")` override (DynmapSponge.kt:220-299): there is no behaviour to model.
