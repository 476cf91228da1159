# Omny, verified model

Omny is a failover gateway: it takes a chat request, rewrites the model name in its body, and tries
provider keys until one answers. This project models its core in Dafny and proves what the core is
for. `dafny verify dfyconfig.toml` checks everything.

## What is modelled

- **Bodies** (`Octets`, `JsonStrings`, `Json`, `Numbers`, `Grammar`, `Decoder`, `Locating`, `Encoding`,
  `Body`, `Splice`). The JSON grammar of RFC 8259 as syntax trees that keep every byte, with a parser proved
  sound and complete; the decoder's token stream as a class with an offset, a state and a stack; the
  byte splice, and the map rewrite it stands for.
- **The key pool** (`Clock`, `Ledger`, `Pool`, `Retry`, `Reload`, `State`, `Speed`, `Report`,
  `Config`, `Route`). `Pool` and `Key` are classes with the fields of the original; each locked
  method is proved equal to a function on pool states in `Ledger`.
- **Many requests at once** (`World`, `History`, `Runs`, `Disabling`, `Restarts`, `Protocol`, `Budget`,
  `Service`). Each locked call, clock
  tick, reload, atomic load and compare-and-swap is one step of a transition system; the theorems
  are about every run, and in `Restarts` about runs joined by saving and restoring. A log of events for
  each key is the ghost history.
- **One request** (`Proxy`, over `Protocol`). The loops of dispatch, walk and attempt, where upstream,
  client and pool answer arbitrarily, proved to follow an automaton; the automaton is then proved to
  answer once, to give back every key, and to make only pool calls that `World` allows.
- **Responses** (`Stream`, `Gate`, `Lines`, `Usage`, `Sniff`, `Relay`, and `Wire`, where names and texts
  are spelled out byte for byte). A source that hands out bytes in pieces
  of any size, the buffered reader, the gate, the fixed window and the pump.

## What was found

Each of these is proved with its exact condition and with a concrete input.

- **The splice is not always the map rewrite.** They mean the same for all names and meter settings
  exactly when the search for `model` finds none, or when exactly one top-level member is named so and a
  member that matches `stream_options` is spelled exactly (`Splice.SpliceAgreesWithSwap`).
  `{"model":"a","model":"b"}` is a body where they differ (`Splice.TwoModelsDiffer`): the splice edits the
  first `model`, decoders take the last. `Splice.OtherCaseDiffers` is one for the letter case. With a number
  outside the 64-bit floats before its models, a body takes the slow path (`Splice.HugeFirstAgrees`).
- **The retry hint can be too short.** The key it comes from is free then exactly when its reservations
  leave room under its minute cap (`Retry.HintRecovers`, `Retry.HintTooShort`).
- **The day of the year does not always tell days apart**: 365 calendar days apart, which can be less
  than 365 times 24 hours, it can be the same (`Clock.YearDayMisses`). An access or a restart keeps stale
  daily counters exactly when it does not notice the change of day and there were counters to drop
  (`Runs.AccessUpToDateIff`, `Runs.StaleCounters`, `State.RestartUpToDateIff`).
- **A reload can break a cap** exactly when a new cap does not admit what a key it keeps already used
  (`Reload.ReloadCappedIff`, `Reload.CapBroken`).
- **Slot ids can collide** although `check` accepts the configuration: exactly when a secret spells
  `keyless/` and the name of a keyless provider (`Config.AcceptedSlotsUnique`, `Config.CollidingSlots`).
- **Disabling is not always until the next restart**, as the documentation says of 401 and 403. The key
  object stays disabled for ever, and no other has its id, exactly until a reload drops the secret and the
  last reload has it again (`Disabling.DisabledIff`); then the secret serves (`Disabling.DisabledServesAgain`).

## Modelling choices

- Time is integer nanoseconds since 1970 and does not go backwards. A locked method reads the clock once.
- Integers are unbounded; token counts are read as 64-bit integers, as the decoder reads them.
- `Fingerprint` is any function from strings to strings; where ids must differ it is assumed not to
  collide on the secrets and keyless marks in use (`Config.NoCollision`), though it keeps only 32 bits of
  a hash.
- Providers are never null; requests are routed with a configuration that `check` accepted.
- The order in which a map is visited is arbitrary wherever the original leaves it so.
- A request body is bytes; model names are compared as the characters with those byte values.
- What upstream answers, when the client leaves, what the shared pool answers to one request, and the
  reset hint in a response's headers are arbitrary.

## Model

| member | source | states |
|---|---|---|
| Json.ParseSound | internal/omny/body.go:34-40 | whatever parses as JSON is spelled, byte for byte, by its syntax tree, and the tree follows the grammar of RFC 8259 |
| Json.ParseText | internal/omny/body.go:34-40 | every tree the grammar allows is what the parser finds in its spelling, so the grammar is unambiguous |
| Grammar.NumberLegal | internal/omny/body.go:34-40 | whatever is put together from a sign, a whole part without needless zeros, a fraction and an exponent is a number of the grammar |
| Grammar.NumberParts | internal/omny/body.go:34-40 | and every number of the grammar is put together so |
| JsonStrings.UnescapeEscape | internal/omny/body.go:136-139 | a name encoded as a JSON string, with or without HTML escaping, is a legal string body that decodes to the name |
| Grammar.ShortEscapes | internal/omny/body.go:136-139 | what the one-letter escapes stand for |
| Grammar.PairEscapes | internal/omny/body.go:136-139 | a surrogate pair stands for one character of four bytes, a lone surrogate for the replacement character |
| Encoding.EncodeMeans | internal/omny/body.go:174-180 | a map of raw messages encodes to valid JSON that means that map, whatever white space the raw values carry |
| Numbers.HugeDoesNotFit | internal/omny/body.go:71-79 | the number 1e999 is legal JSON and lies outside the 64-bit floats the token reader converts numbers to |
| Grammar.NumeralFits | internal/omny/body.go:71-79 | a whole number is in range exactly below 2^1024 - 2^970 |
| Decoder.JsonDecoder.Token | internal/omny/body.go:71-79 | the mutable token cursor computes the token stream of the grammar from its offset, state and stack; a number outside the 64-bit floats is an error |
| Decoder.SkipValue | internal/omny/body.go:101-122 | `step` at any point where a value may start terminates and consumes exactly one value of any nesting depth, and it fails exactly when a number in that value is out of range |
| Locating.Step | internal/omny/body.go:101-122 | the depth-counting loop moves the cursor exactly as the skip of one value does, and reports the same errors |
| Locating.LastByte | internal/omny/body.go:64-67 | the last byte that is not white space is found by scanning from the end |
| Locating.Locate | internal/omny/body.go:63-99 | the whole loop, early returns included, returns the located span of the body or nothing |
| Locating.LocateSpan | internal/omny/body.go:63-99 | for every object: the span is exactly the bytes of the first top-level `model` value (never a nested one), `end` is the outermost closing brace, and lo < hi <= end; nothing is returned exactly when no top-level member has that name or a number before the first one is out of range |
| Locating.LocateNothing | internal/omny/body.go:68-74 | the empty object and bare scalars have no span |
| Body.ReadBody | internal/omny/body.go:53-61 | an accepted body's span lies inside the body and ends no later than its closing brace, so the slices of `send` are in range |
| Body.ReadMeans | internal/omny/body.go:28-61 | for every body: exactly which are accepted, and that the model is the last string so named, that the request streams exactly if the last boolean so named is true, and that the caller's `stream_options` are the text of the last member so named, letter case aside |
| Wire.StreamRead | internal/omny/body.go:28-61 | the body `{"model":"a","stream":true}` is read as a request for a stream |
| Grammar.FoldMatches | internal/omny/body.go:28-32 | a member's name matches a field exactly when it spells it letter by letter, in either case, the long s and the Kelvin sign included |
| Body.Swap | internal/omny/body.go:155-181 | the slow path's assignments to the decoded map compute the specified rewrite, or fail, or return the body untouched, in the same cases |
| Body.LengthIsTold | internal/omny/body.go:141-152 | on every path the announced length is the number of bytes the readers produce |
| Splice.SwapMeans | internal/omny/body.go:155-181 | the slow path yields valid JSON that means the original fields with `model` replaced, and `stream_options` added exactly when metering and no member has that name |
| Splice.SpliceBytes | internal/omny/body.go:124-153 | the fast path's bytes are the body with the model value replaced and the injection before the closing brace; every other byte is unchanged |
| Splice.SpliceMeans | internal/omny/body.go:124-153 | for every object whose model is located, new name and meter setting the spliced bytes are valid JSON meaning the edited members |
| Splice.SpliceAgreesWithSwap | internal/omny/body.go:124-181 | for every accepted object the fast and slow paths mean the same, for all names and meter settings, if and only if the search for `model` finds none, or exactly one top-level member is named so and a caller's `stream_options` is spelled exactly |
| Splice.DifferTwoModels | internal/omny/body.go:80-97 | with two members named `model` the two paths differ for some name: the splice edits the first, but the last one counts |
| Splice.DifferOptions | internal/omny/body.go:124-134 | with a `stream_options` in other letter case the two paths differ when metering |
| Splice.TwoModelsDiffer | internal/omny/body.go:80-97 | a concrete body on which the two paths differ |
| Splice.OtherCaseDiffers | internal/omny/body.go:124-134 | a concrete body with its `stream_options` in other letter case on which the two paths differ |
| Splice.HugeFirstAgrees | internal/omny/body.go:80-99 | a concrete body with two models on which the paths agree, because a number before them is out of range |
| Splice.AgreeableExists | internal/omny/body.go:124-181 | a concrete accepted body on which the two paths agree |
| Splice.SendMeans | internal/omny/body.go:124-153 | for every body on which the paths agree, whichever is taken: an unchanged model with nothing to add sends the body as it is; otherwise upstream gets valid JSON meaning the original with the model replaced, and `stream_options` added exactly when metering and no member has that name |
| Wire.SentMeans | internal/omny/body.go:124-153 | the same with the names spelled out: upstream gets valid JSON meaning the caller's object with `model` replaced and, exactly when metering and no member is named `stream_options`, that member set to an object whose `include_usage` is true |
| Splice.VerbatimMeans | internal/omny/body.go:126-128 | when the names are spelled exactly, the body sent as it is already means that |
| Clock.YearDayTellsDays | internal/omny/pool.go:297-298 | for two moments fewer than 365 calendar days apart the day of the year changes exactly when the day does |
| Clock.YearDayMisses | internal/omny/pool.go:297-298 | two moments less than 365 times 24 hours apart, on different days, that share the day of the year |
| Clock.YearDayMeans | internal/omny/pool.go:297-298 | on the n-th day of a calendar year, counted from 0 with its leap years from 1970 on, the day of the year is n + 1 |
| Pool.Key.IsFree | internal/omny/pool.go:156-158 | a key is free exactly when it is not dead, not spent, not capped and not before its cooldown's end |
| World.FreeMeans | internal/omny/pool.go:36-43 | a key is free exactly when it is alive, its cooldown is over, and one more reservation stays within both caps |
| Pool.Key.Succeed | internal/omny/pool.go:245-252 | a success clears the cooldown and the ladder, turns the reservation into one counted request and one of this minute, and updates the average |
| Pool.Key.Bench | internal/omny/pool.go:195-212 | benching sets death, cooldown and ladder step as its four cases say, in their order |
| Pool.Key.Lose | internal/omny/pool.go:172-174 | a failed attempt gives up its reservation, counts an error and benches |
| Pool.Key.Spoil | internal/omny/pool.go:183-185 | a broken relay counts an error and benches by the ladder, releasing nothing |
| Pool.Pool.Roll | internal/omny/pool.go:295-313 | both loops over every list leave exactly the rolled pool: counters of another day or minute dropped for listed keys, and nothing else |
| Pool.Pool.Seek | internal/omny/pool.go:144-153 | the loop finds the first free key in cyclic order from the cursor, leaves the cursor after it, or where it was when there is none |
| Pool.Pool.Pick | internal/omny/pool.go:139-154 | `pick` rolls, then reserves the first free key round from the cursor, or changes nothing but the roll |
| Pool.Pool.Fail | internal/omny/pool.go:167-175 | `fail` rolls, then changes that key only; its cooldown and death are the ones returned |
| Pool.Pool.Sour | internal/omny/pool.go:178-186 | `sour` rolls, then changes that key only, releasing nothing |
| Pool.Pool.Done | internal/omny/pool.go:189-193 | `done` releases one reservation and does not roll |
| Pool.Pool.Charge | internal/omny/pool.go:215-225 | `charge` rolls, then adds the usage to today's and the lifetime total, or counts an unaccounted reply |
| Pool.Pool.Ok | internal/omny/pool.go:240-253 | `ok` rolls, then records the success on that key only and tells whether it was benched |
| Ledger.PickedSane | internal/omny/pool.go:139-154 | picking keeps every cursor in range of its list |
| World.StepKeeps | internal/omny/pool.go:139-253 | every locked call, clock tick and reload, in any order, keeps each key's `live` equal to the number of requests holding it, and keeps every key within its caps unless a reload leaves no room for what was used |
| World.RunConserves | internal/omny/pool.go:139-253 | over every interleaving of requests, clock steps and reloads, `live` is at all times the number of reservations held |
| World.RunCapped | internal/omny/pool.go:36-43 | over every run that starts within the caps and whose reloads lower no cap of a key they keep: reqs + live <= RPD and mins + live <= RPM always, for nonzero caps, across day and minute changes |
| World.NotLoweredFits | internal/omny/pool.go:102-103 | caps that are not lowered admit what was used |
| Reload.ReloadCappedIff | internal/omny/pool.go:102-103 | a reload keeps all keys within their caps if and only if, for each slot whose id some key has, the new provider's caps admit that key's successes and reservations before the reload |
| Reload.RunCappedIff | internal/omny/pool.go:36-43 | a run that starts within the caps stays within them if and only if every reload in it has that room |
| Reload.CapBroken | internal/omny/pool.go:102-103 | a concrete reload that takes a key above its new daily cap |
| World.NothingLeftHeld | internal/omny/pool.go:189-193 | when no request holds a key, every `live` is 0 |
| History.StepRemembers | internal/omny/pool.go:160-253 | every step keeps cooldown, ladder step, death, last use, lifetime total and average equal to what the key's event log says |
| History.TallyMeans | internal/omny/pool.go:160-253 | while there is no restart a day's counts are its successes, its failures and broken relays, its replies that told no cost, and the sums of the token counts the others told |
| History.LifetimeMeans | internal/omny/pool.go:215-225 | while there is no restart the lifetime total is the sum of all token counts told |
| History.StepUpToDate | internal/omny/pool.go:295-313 | every step keeps the counters of listed keys equal to the fold of the events of the day and minute of the last rolling access, if accesses are prompt |
| History.PromptWithinAYear | internal/omny/pool.go:297-298 | accesses fewer than 365 calendar days apart are prompt |
| Runs.RunRemembers | internal/omny/pool.go:160-253 | over every run: `step` is the number of unguided benchings since the last success, at most 3; `until` is what the last benching set; `last` is the time of the last success; life is the fold of all charges; `ttft` is the fold of all samples |
| Runs.BenchLasts | internal/omny/pool.go:195-212 | the n-th unguided benching since the last success lasts the n-th rung (the last rung from the fourth on); a guided one lasts what the provider said and does not advance the ladder; a blameless one changes neither |
| Runs.FailMeans | internal/omny/pool.go:160-212 | by status: 401 and 403 kill the key; 402, 429 and whatever is no client error bench it, for as long as the provider said, or else for 60, 300, 1800 and then 86400 seconds by the number of own benchings since the last success; any other client error leaves it alone; until the benching ends the key is not free |
| Runs.BenchTells | internal/omny/pool.go:167-175 | `fail` tells a death exactly for 401 and 403, no cooldown exactly for a status that benches nothing, and else the time until the benching ends |
| Runs.DeadStays | internal/omny/pool.go:195-199 | no step, reloads included, revives a key object |
| Runs.RunDead | internal/omny/pool.go:139-199 | over every run a key that died stays dead and is never picked again |
| Runs.PicksAreFree | internal/omny/pool.go:148-151 | a pick returns a key that is free at that moment |
| Runs.RunUpToDate | internal/omny/pool.go:294-313 | lazy rolling refines an eager timer: in every run with prompt accesses, after each of them every listed key's reqs, errs, tokens, unaccounted and minute counts are exactly today's and this minute's |
| Runs.AccessUpToDateIff | internal/omny/pool.go:167-225 | any rolling access (a pick, success, failure, charge, broken relay or look) leaves the counters today's if and only if it was prompt or no listed key had a daily count to drop |
| Runs.StaleCounters | internal/omny/pool.go:297-303 | a concrete world whose counters stay those of a day a year before |
| Runs.NoneFree | internal/omny/pool.go:144-153 | `pick` returns nothing exactly when no key of the provider is free, and then leaves the cursor |
| Runs.FirstFree | internal/omny/pool.go:144-153 | the key found lies no further round from the cursor than any free key |
| Runs.PickApproaches | internal/omny/pool.go:144-153 | a pick while a key is free returns it or brings the cursor strictly nearer to it |
| Runs.RunFair | internal/omny/pool.go:139-154 | round-robin fairness: between reloads, a key at distance d from the cursor that is free at each of the next d + 1 picks on its provider is returned by one of them, whatever else runs between |
| Runs.StartedGood | internal/omny/pool.go:72-77 | a new pool satisfies all the invariants above, and every key in it is free |
| Retry.Soonest | internal/omny/pool.go:270-292 | the nested loops over targets and keys compute the least positive wait of a living listed key |
| Retry.HintZero | internal/omny/pool.go:276-291 | the hint is 0 exactly when every listed key that is neither dead nor spent is free already |
| Retry.HintAttained | internal/omny/pool.go:286-288 | a positive hint is the wait of some listed living key |
| Retry.HintRecovers | internal/omny/pool.go:270-313 | if nothing else happens, the key the hint comes from is free when it has passed, if and only if its reservations leave room under its minute cap |
| Retry.HintTooShort | internal/omny/pool.go:282-285 | a concrete pool where the hint is 60 seconds and nothing is free then: the minute cap is filled by requests still in flight |
| Retry.HintNotLate | internal/omny/pool.go:281-288 | until a second before the hint no blocked listed key becomes free, leaving dead and spent ones aside if the day changes |
| Config.CheckKeys | internal/omny/config.go:145-155 | the loop with its map of owners reports nothing exactly when no secret is blank, repeated, or seen before |
| Config.CheckProviders | internal/omny/config.go:133-168 | the loop over providers in sorted order reports nothing exactly when every provider is well set and all secrets are pairwise distinct across all of them, and counts the providers with a key |
| Config.Check | internal/omny/config.go:106-200 | the whole check reports nothing exactly for the accepted configurations |
| Config.AcceptedSlotsUnique | internal/omny/pool.go:47-57 | in an accepted configuration every id has exactly one slot, if and only if no secret spells `keyless/` and the name of a keyless provider |
| Config.CollidingSlots | internal/omny/pool.go:47-57 | a concrete accepted configuration in which two slots share an id, whatever the fingerprint |
| Route.CutJoins | internal/omny/route.go:14-24 | a name is cut at its first slash and nowhere else |
| Route.TargetsConfigured | internal/omny/route.go:11-28 | in an accepted configuration every name but the empty one has a target, every target a configured provider with its settings, and an unknown name goes whole to the default |
| Route.AliasTargets | internal/omny/route.go:15-22 | an alias stands for its entries, one target each and in their order, each cut at its first slash into a configured provider and a model |
| Route.PlainTargets | internal/omny/route.go:23-27 | any other name goes to the model of the configured provider before its first slash, or else whole to the default provider |
| Reload.Adopt | internal/omny/pool.go:80-125 | rebuilding the lists in place through the index of ids gives exactly a reload: keys whose ids stay are reused with only their provider replaced, others are new, cursors start over |
| Reload.Start | internal/omny/pool.go:72-77 | a pool started from a configuration has only fresh keys, and this day and minute |
| Reload.StartedKeys | internal/omny/pool.go:47-57 | a pool started from a configuration has one fresh key for each secret of each provider, in order and named by its fingerprint, and one without a secret for each keyless provider |
| Reload.ReloadKeeps | internal/omny/pool.go:79-118 | with unique slot ids, after a reload each id again has one slot and one key object; it is the very object that had the id anywhere before, with its whole state but the provider, also when reordered or moved; every cursor is in range |
| Reload.RunUnique | internal/omny/pool.go:79-118 | over every run each id has exactly one slot and one key object |
| Reload.RunOwns | internal/omny/pool.go:79-118 | over every run that keeps an id, one key object owns it throughout and each reload leaves its whole state but the provider |
| Reload.DropForgets | internal/omny/pool.go:84-101 | an id dropped by one reload and brought back by the next gets a new key with nothing kept |
| Disabling.RunOwnsIff | internal/omny/pool.go:84-101 | over every run, the key object an id had at the start has it at the end if and only if every reload kept the id |
| Disabling.RunReplaced | internal/omny/pool.go:84-101 | over every run, an id has another key object at the end if and only if some reload dropped it and the last reload, later, has it |
| Disabling.DisabledIff | internal/omny/pool.go:195-199 | over every run, a disabled key object is never picked again; and every key of its id is that one, still disabled, if and only if it is not so that some reload dropped the id and the last one brought it back |
| Disabling.DisabledServesAgain | internal/omny/pool.go:195-199 | a concrete run: a 401 disables a secret, one reload drops it, the next brings it back, and it is picked |
| State.Save | internal/omny/state.go:56-72 | the loops save exactly the ids in the pool, each with its counters, and stamp the day they belong to, without rolling |
| State.Restore | internal/omny/state.go:27-54 | restoring overwrites average and lifetime total of every listed key, and the daily counters exactly when the saved day is the pool's; a missing file is no error and a bad one changes nothing |
| State.SaveRestores | internal/omny/state.go:27-72 | saving and restoring into any new pool with the same ids, in any order, gives back average and lifetime total always and the daily counters exactly when the days agree; ids that were not saved start afresh |
| State.RestartUpToDateIff | internal/omny/state.go:39-51 | after a restart the restored counters are today's if and only if it is the day of the last access, or a day with another day of the year, or there was nothing to restore |
| Restarts.LifeTotals | internal/omny/state.go:27-72 | over any number of runs and restarts, every key's lifetime total and average are the folds of everything that happened to its id since the first start, while no reload or restart drops it |
| Restarts.LifeCounts | internal/omny/state.go:27-72 | over any number of runs and restarts that notice every change of day, every listed key's daily counts are those of the day of the last access, over everything that happened to its id, before restarts and after |
| Restarts.FirstStart | internal/omny/pool.go:72-77 | a pool just started satisfies the premises of both |
| Pool.Key.Measure | internal/omny/speed.go:9-18 | the three cases of the moving average |
| Speed.PaceBetween | internal/omny/speed.go:9-18 | over every history the average lies between the least and the greatest of the positive samples and of the averages kept over restarts, and is 0 exactly while there is none |
| Speed.MeasuredNearer | internal/omny/speed.go:17-17 | one more sample d brings the average strictly nearer d until it is d, or at most 3 ns short of it; it never crosses d |
| Speed.SteadySettles | internal/omny/speed.go:9-18 | under a constant sample the average reaches it exactly from above and settles 3 ns short of it from below, within as many samples as it was nanoseconds away, and stays |
| Speed.Tighten | internal/omny/speed.go:77-84 | the budget is tightened only for a key with an average, to three times it but not below the floor |
| Speed.TightensWithin | internal/omny/speed.go:74-84 | for every history the tightened budget lies in [min(want, floor), want], is shorter than wanted exactly when the floor and three averages both are, and then is the greater of the two |
| Speed.SpeedNow | internal/omny/speed.go:20-32 | the loop computes the mean over the provider's measured keys that are free, or 0 |
| Speed.SpeedBetween | internal/omny/speed.go:20-32 | a provider's speed lies between the averages of its measured free keys, and is 0 exactly when it has none |
| Speed.SpeedIsMean | internal/omny/speed.go:20-32 | a provider's speed is the mean of the averages of its measured free keys, rounded down |
| Speed.TierIs | internal/omny/speed.go:37-42 | tier n > 0 holds the times from 2^(n-1) grains up to 2^n, without one grain itself; tier 0 those up to a grain |
| Speed.TierMonotone | internal/omny/speed.go:34-42 | `tier` is monotone, and a time at least twice another and over a grain is in a higher tier |
| Speed.SortStable | internal/omny/speed.go:68-68 | the stable sort by tier keeps the elements, orders them by tier and keeps ties as they were |
| Speed.Order | internal/omny/speed.go:44-72 | in place, the targets are arranged: unmeasured ones keep their positions, the others stand in order of tier, ties in configuration order; fewer than two targets change nothing |
| Speed.ArrangedOnce | internal/omny/speed.go:44-72 | that description determines the arrangement |
| Speed.ArrangedPermutes | internal/omny/speed.go:44-72 | an arrangement is a permutation of the targets |
| Speed.SlowNotAhead | internal/omny/speed.go:34-42 | a measured target at least twice as slow as another and slower than 250 ms never stays ahead of it |
| Report.Usage | internal/omny/report.go:66-79 | the bill has one row for each key slot and one for each provider with keys, both in the sorted order of providers; its books balance and its grand total adds up every counter over all keys; each provider row carries that provider's speed |
| Report.WithKeyBalanced | internal/omny/report.go:68-77 | visiting one more key keeps the books, as long as each provider's keys come together: the grand total is the sum of the key rows and of the provider rows in every summed field, each provider with a key has exactly one row, and it is the sum of its own keys |
| Report.AddKey | internal/omny/report.go:67-77 | one visit opens a provider row only when the last is another's, and adds the key to its row, its provider's and the total |
| Report.RowsAddUp | internal/omny/report.go:55-77 | each column of the grand total is the sum of one counter over all keys: requests, errors, today's and lifetime tokens in, out and in all, and replies that told no cost |
| Report.ListRowsAt | internal/omny/report.go:66-77 | a key's row has its id, its provider and its own average |
| Report.MillisMeans | internal/omny/report.go:81-86 | averages are told in whole milliseconds, and not at all when there is no sample |
| Budget.Room | internal/omny/serve.go:45-57 | the room asked for is the declared length if that is between 0 and 32 MiB, and 32 MiB otherwise |
| Budget.StepSound | internal/omny/serve.go:45-57 | each load, compare-and-swap and release keeps what is held equal to the rooms of the admitted, unreleased requests and within the budget |
| Budget.RunSound | internal/omny/serve.go:45-57 | in every interleaving by any number of requests, held is that sum, between 0 and the budget, and 0 when every request has ended |
| Budget.RefusedOnlyWhenEight | internal/omny/serve.go:45-50 | nobody is refused while fewer than eight requests are admitted |
| Budget.RetryMeansProgress | internal/omny/serve.go:46-54 | a swap fails only if, since the load, some other request was admitted or released |
| Budget.StepFollows | internal/omny/serve.go:45-57 | each step takes a request on by one stage of its life or leaves it, and what it loads is what is held |
| Budget.Admit | internal/omny/serve.go:45-55 | whatever the counter holds each time it is loaded, the loop admits the request exactly when its room fits every time, through the stages the steps allow |
| Budget.PathOnce | internal/omny/proxy.go:57-68 | a request's room is taken at most once, and given back right after, at the end of its life |
| Protocol.OneAnswer | internal/omny/proxy.go:157-207 | a request that follows the protocol to the end gives exactly one answer (one relayed response, one refusal, or nothing because the client left), and nothing is picked, sent upstream or answered after it |
| Protocol.NothingOwed | internal/omny/proxy.go:157-207 | at every point a request owes exactly the one reservation its stage holds, so each pick is given back exactly once through ok, fail or done |
| Protocol.FewCalls | internal/omny/proxy.go:222-233 | each attempt makes one or two upstream calls |
| Protocol.SecondCall | internal/omny/proxy.go:222-233 | a second call follows only a metered one that got a 400, with the same key, provider and model, and is not metered |
| Protocol.MeterAsked | internal/omny/proxy.go:222-225 | a call is metered only if the provider was asked about just before and accepts requests for usage |
| Protocol.MeteredAgain | internal/omny/proxy.go:222-233 | a metered call that got a 400 is made once more without metering, and if that succeeds the provider is remembered as one that refuses requests for usage |
| Protocol.HushedOnly | internal/omny/proxy.go:226-232 | nothing else makes a provider be remembered so |
| Protocol.LostAnswers | internal/omny/proxy.go:170-178 | the pool is told a failure as upstream answered it: the status and the wait of the call just before, for the same key |
| Protocol.LostBenches | internal/omny/proxy.go:170-178 | whatever else runs, a failure told to the pool kills the key, benches it until a moment before which it is not free, or leaves it alone, as its status says |
| Protocol.RejectedLast | internal/omny/proxy.go:179-183 | an attempt answered with 400 or 422 is the request's last: the refusal with that code is all that follows; after any other failure the request goes on |
| Protocol.ServedInOrder | internal/omny/proxy.go:185-204 | a response is sent right after the success is recorded, charged what it cost right after, and then its key is benched exactly if the relay broke while the client was there |
| Protocol.HushedStays | internal/omny/pool.go:227-238 | in every run, once a request has found that a provider refuses requests for usage, every request that asks later is told so |
| Protocol.NapWakes | internal/omny/proxy.go:109-118 | a nap lasts as long as the pool's hint: if nothing else happens, the key the hint came from is free when the request wakes, if and only if its reservations leave room under its minute cap |
| Protocol.ProtocolDrives | internal/omny/proxy.go:157-207 | every event of a request that follows the protocol is a pool call the pool allows in that state, and leaves the request in the phase the protocol says |
| Protocol.SystemConserves | internal/omny/proxy.go:157-207 | however the events of any number of such requests interleave with each other, the clock and reloads, each `live` is the number of requests holding the key, and once all are over no reservation is left |
| Proxy.Attempt | internal/omny/proxy.go:222-233 | an attempt makes the calls the protocol allows for one reservation: a stream asks whether the provider accepts requests for usage and is metered exactly when it does, anything else is neither |
| Proxy.Settle | internal/omny/proxy.go:171-183 | a failed attempt is released without benching if the client left, and otherwise told to the pool with its status and wait; 400 and 422, and no other status, end the walk |
| Proxy.Serve | internal/omny/proxy.go:185-204 | a success is recorded, relayed and charged, in that order; the request is served if all was sent, gone if the client went away or was gone when upstream broke off, and else truncated, with the key benched |
| Proxy.Walk | internal/omny/proxy.go:157-207 | the walk picks for the targets in order, for each one whose provider gave no key yet and for no other, so each provider is attempted at most once; a stream asks about usage and nothing else does; after a failure other than 400 or 422 the next target is looked at, after one of these nothing; it ends with an answer, with such a failure to report, or with every target tried |
| Proxy.Try | internal/omny/proxy.go:129-137 | a rejected request is refused with the upstream's own code |
| Proxy.Failover | internal/omny/proxy.go:93-126 | the names are walked in order, the requested one first, and again exactly when the hint for its targets is positive and no longer than the pause, after a nap that long; exhausted means every name was walked and every target tried |
| Proxy.NameTwice | internal/omny/proxy.go:97-119 | no name is walked three times and no fallback twice: a second walk is the requested name's, right after its first and a nap |
| Proxy.Dispatch | internal/omny/proxy.go:57-127 | for every behaviour of upstream, pool, client and budget: it ends; it is refused as busy exactly when its room did not fit; else its log follows the protocol to the end and the outcome tells which answer was given; its room goes through the stages the budget allows, to the release if it was admitted |
| Service.RunBalanced | internal/omny/proxy.go:57-127 | however requests take and release their room, follow the protocol, and interleave with each other, the clock and reloads: held is always the rooms of the requests admitted and not released, within the budget, and `live` the reservations; once every request has ended both are 0 |
| Stream.Buffered.ReadSlice | internal/omny/gate.go:41-54 | a line read, a full buffer or the end: whatever the source's pieces, what is returned and what is left are the stream |
| Stream.Buffered.Read | internal/omny/relay.go:124-125 | a read returns the next bytes, buffered ones first, and the end only when nothing is left |
| Gate.Open | internal/omny/gate.go:41-69 | the loop decides what the upstream bytes alone decide, however reads and full buffers cut them; on commit the bytes held back are at most a frame, and with what is still to come they are exactly the stream |
| Gate.GateMeans | internal/omny/gate.go:41-69 | it commits if and only if the first line that shows content ends within the frame and carries no error, refuses for an error if and only if that line carries one, and otherwise refuses as too long exactly when more than a frame came |
| Lines.ContentMeans | internal/omny/gate.go:57-60 | a line of `data:`, white space, text with none at its ends, white space and line ends has that text as content, unless it is empty or `[DONE]` |
| Lines.ContentNeedsData | internal/omny/gate.go:57-60 | a line that does not begin with `data:` has none |
| Lines.Trimmed | internal/omny/gate.go:60-60 | every text splits into white space, text with none at its ends, and white space, so these two tell the content of every line |
| Lines.SpaceCodes | internal/omny/gate.go:60-60 | white space is the UTF-8 of the characters Unicode calls so |
| Wire.PingRefused | internal/omny/gate.go:41-69 | a concrete stream, a comment and then an error, that is refused |
| Gate.ShowsOnce | internal/omny/gate.go:57-68 | the line it commits on is unique |
| Gate.OpenWhole | internal/omny/gate.go:23-39 | a reply that is not streamed is ruled on by its bytes alone: too large, broken off, not JSON, an error, or committed whole with its usage |
| Gate.RuleMeans | internal/omny/gate.go:23-39 | a whole reply is committed exactly when it has at most 64 MiB, came to its end, is JSON and carries no error, and each refusal has its own cause |
| Usage.VerdictMeans | internal/omny/gate.go:82-97 | data carries an error if and only if it is an object whose last error member is not null and whose every usage is null or an object of 64-bit integers |
| Wire.ErrorTold | internal/omny/gate.go:82-97 | a reply `{"error":v}` is refused for every v but null |
| Wire.UsageTold | internal/omny/gate.go:72-104 | a reply `{"usage":{"prompt_tokens":i,"completion_tokens":o,"total_tokens":t}}` is charged i, o and t, or i + o when t is 0 |
| Usage.UsageReads | internal/omny/gate.go:72-97 | round trip: any three counts below 2^63, spelled as a usage object, are read back |
| Wire.UsageTextReads | internal/omny/gate.go:72-76 | the text `{"prompt_tokens":i,"completion_tokens":o,"total_tokens":t}` is read back as i, o and t, for all counts below 2^63 |
| Wire.SpendMeans | internal/omny/gate.go:72-97 | for every usage object: each count is the last integer told under its name, letter case and null aside, or 0, and it is read exactly when each of its counts is an integer or null |
| Wire.IntegersRead | internal/omny/gate.go:72-76 | which numerals are integers of 64 bits, and which they are |
| Wire.CostTold | internal/omny/gate.go:82-97 | a reply that is fine tells its cost exactly if it is an object, every usage in it null or an object of integers, the last one not null |
| Usage.TotalCharged | internal/omny/gate.go:99-104 | a reply that tells no total is charged the sum of the two parts it tells, and one that tells a total is charged that |
| Sniff.Window.Feed | internal/omny/relay.go:29-38 | after any pieces of any sizes the 512-byte array holds exactly the last min(512, total) bytes fed |
| Sniff.Window.Count | internal/omny/relay.go:41-68 | what is counted depends only on those bytes, not on the pieces |
| Sniff.Scan | internal/omny/relay.go:53-67 | the depth-counting loop stops at the end of the shortest balanced prefix |
| Sniff.CountMeans | internal/omny/relay.go:40-68 | the count is the shortest balanced object after the last mark, parsed and filled in, and nothing when there is none or it does not parse |
| Sniff.LastUsageCounted | internal/omny/relay.go:40-68 | whatever came before and after it, the last usage object a provider sent is what is counted, as long as it is whole in the window, with or without blanks before it |
| Wire.UsageTextCounted | internal/omny/relay.go:40-68 | the same for the literal text: the last `"usage":` and the object after it in 512 bytes are charged count by count |
| Relay.Reply.Cost | internal/omny/relay.go:81-86 | the cost is the usage known at commit, or else the window's, and asking again gives the same |
| Relay.Pump | internal/omny/relay.go:122-139 | the client gets a prefix of what was left of the stream, all of it unless it went away, and the window sees the same bytes |
| Relay.Deliver | internal/omny/relay.go:88-119 | the gated bytes go first, then the rest: the client gets a prefix of the whole reply, and all of it unless it went away |
| Relay.Respond | internal/omny/relay.go:88-139 | through the gate and the relay: nothing reaches the client unless the gate commits; then its bytes are a prefix of the upstream bytes and all of them unless it left; the decision depends only on the upstream bytes, and the usage only on those seen passing after the gated ones: all unless the client left, and never fewer than it got |
| Relay.RespondWhole | internal/omny/relay.go:88-107 | a reply that is not streamed reaches the client whole or not at all, unless it left, and is charged what it tells; nothing that is not JSON, carries an error or is too large ever reaches it |

## Left out

- HTTP, TLS, headers, timers, contexts, signals, files and renames, the pidfile and logging: only their
  outcomes appear, as arbitrary answers.
- The command line and its YAML edits (`internal/edit`), probing, the endpoint handlers, bearer-token
  comparison and the scrubbing of secrets from logs.
- `after`, which reads a retry hint from headers: the hint is an arbitrary integer, and a benching is
  guided when it is positive.
- The status cards, `ready`, and the choice of first-token and idle budgets before tightening: short case
  splits.
- The JSON decoder's nesting limit of 10000, its replacement of invalid UTF-8, and what it keeps in a
  value it reports an error for.
- `swap` on the body `null` would write to a nil map; dispatch refuses such a body earlier because it
  names no model, and the model fails there instead.
- Overflow of sums of token counts and durations past 64 bits.
- A source that returns no bytes and no error: `Stream.Source.Read` always makes progress, so the
  buffered reader's limit on empty reads is not modelled.
- Budget.Admit: takes the values the counter shows, as many as its loop needs, as a parameter, because
  other requests change the counter meanwhile; that they are the counter's is `Budget.StepFollows`.
- A process that stops without saving: in `Restarts` the state saved is that of the moment it stopped.
- Rows of the bill and targets are values in local sequences and arrays; the original's pointers to
  optional fields are options.
- The request's trace is not modelled but for its outcome; its other fields only feed the log line.
- Proxy.Walk: does not say which bytes each upstream call sends; that is `Splice.SendMeans`.
- Proxy.Failover: says that targets are walked in some permutation of the routed ones; that it is the
  order by speed is `Speed.Order` and `Speed.ArrangedPermutes`.
- Retry.HintNotLate: leaves out keys that are dead or spent when the day changes before the hint, because
  a spent key is free again on the next day.
