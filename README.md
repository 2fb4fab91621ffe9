# F1 fantasy optimizer: a verified model of the recommendation pipeline

The application advises players of the official Formula 1 fantasy game which
driver (or constructor) to swap for which. Two upstream feeds are combined:

- the OpenF1 timing API (meetings, practice sessions, laps and drivers);
- the fantasy game's player feed (prices, ownership and points).

This project models that pipeline in Dafny and proves what each stage promises.

- **OpenF1** (`openf1.dfy`) chooses the meeting and the practice sessions. From a
  session's laps it derives each driver's best lap, best sectors, top speed and lap
  count. The laps are grouped per driver in a loop over a table, as the code does.
- **Fantasy** (`fantasy.dfy`) reads the race calendar to find the current round. It
  parses the player feed into drivers and constructors, keeping only active entries
  split by skill. It files them in price maps keyed by the upper-cased name.
- **IndexMaps** (`index_maps.dfy`) is the insertion-ordered JavaScript `Map` that
  these price maps are built in.
- **Analyzer** (`analyzer.dfy`) matches a driver's performance to a price. It computes
  the value score and builds one analysis row per driver. It sorts the rows by lap
  time with untimed rows last, then generates swap recommendations.
- **Swaps** (`swaps.dfy`) is the recommendation engine shared by the live generator
  and the two demonstration generators:
  - a filter to the entries with a lap time and a price;
  - nested loops over all ordered pairs, keeping a pair when the incoming entry is
    strictly faster and its extra cost fits the budget (the outer loop is
    `GenerateSwaps`, the inner one `PushRow`);
  - the price tier of each kept pair;
  - a stable sort driven by the source's comparator. That comparator treats time
    gains within 0.01 s as ties and then prefers the larger value-score gain.
- **MockData** (`mock_data.dfy`) holds the demonstration fixtures: twenty drivers and
  ten constructors of one practice session. It also holds the price list derived from
  them, the constructor swap generator and the demonstration endpoint. Facts about
  the fixtures are proved: both lists are wholly eligible, identities are distinct,
  each constructor's best lap is the faster of its two drivers' laps, and concrete
  swaps are offered or withheld at given budgets.
- **Cache** (`cache.dfy`) is the time-to-live cache in front of every upstream call.
  It is a class whose `store` map is updated in place, with the clock passed in.
- **Prelude** and **Types** hold the shared vocabulary: options, results, filtering,
  minimum and maximum, upper-casing, and the records of the application.

Two conventions hold throughout:

- Times (meeting starts, race dates, the cache clock) are integers passed in as
  parameters.
- Lap times, prices and deltas are `real`. Lap durations are positive.

The fallback loop of the driver match is commented as a match "by acronym". The code
compares upper-cased last names, and the model follows the code. Because every price
map is keyed by the upper-cased last name of the value it holds, that fallback can
never find a driver the direct lookup missed (`Analyzer.FallbackFindsNothingNew`).

## Model

| member | source | states |
|---|---|---|
| Swaps.PriceTier | src/lib/analyzer.ts:113-120 | the tier is "cheaper" exactly when the extra cost is at most 0, "similar price" exactly when it is in (0, 0.5], and "costs more" exactly when it exceeds 0.5 |
| Swaps.GenerateSwaps | src/lib/analyzer.ts:90-137 | the filter, the outer loop over the entries with data and the sort return exactly the specified recommendations: the ranking of every pair the loops accept, pushed row by row in list order |
| Swaps.PushRow | src/lib/analyzer.ts:97-130 | one pass of the inner loop, with its three skips, appends to the list exactly the swaps of the outgoing entry with every qualifying incoming entry, in pool order |
| Swaps.EligibleMembership | src/lib/analyzer.ts:90-92 | an entry is kept by the filter exactly when it is listed and has both a lap time and a price |
| Swaps.RecommendedWasAccepted | src/lib/analyzer.ts:96-137 | every recommendation is the swap built from two listed entries that qualify |
| Swaps.RecommendSound | src/lib/analyzer.ts:96-111 | every recommendation has two entries with a lap time and a price and different identities. The incoming entry is strictly faster. The time gain is out minus in, and is positive. The price delta is in minus out, and is within the budget. A missing value score counts as 0. The reason is the tier of the price delta |
| Swaps.RecommendComplete | src/lib/analyzer.ts:96-131 | every ordered pair of listed entries that has data, differs in identity, has the incoming entry strictly faster and fits the budget is recommended |
| Swaps.RecommendedExactlyOnce | src/lib/analyzer.ts:96-131 | when identities are distinct, every qualifying ordered pair occurs exactly once in the output |
| Swaps.NeverBothDirections | src/lib/analyzer.ts:103 | no two recommendations swap the same two entries in opposite directions |
| Swaps.BudgetMonotone | src/lib/analyzer.ts:108 | raising the budget never removes a recommendation |
| Swaps.RecommendOrder | src/lib/analyzer.ts:134-137 | the output is a permutation of the accepted pairs. When their time gains are pairwise more than 0.01 apart, it is strictly descending by time gain |
| Swaps.RankPermutation | src/lib/analyzer.ts:134-137 | sorting with the tolerance comparator neither loses nor duplicates a swap |
| Swaps.RankDescending | src/lib/analyzer.ts:134-137 | on well-separated time gains the sort yields strictly descending time gains |
| Swaps.AcceptedSound | src/lib/analyzer.ts:96-130 | every pair the loops push is built from two pool entries that qualify |
| Swaps.AcceptedCount | src/lib/analyzer.ts:96-130 | the loops push a qualifying pair as many times as the two entries occur in the pool, multiplied, and push a non-qualifying pair never |
| Analyzer.MatchFantasyDriver | src/lib/analyzer.ts:5-21 | the lookup followed by the early-return scan of the map in insertion order returns exactly the specified match |
| Analyzer.MatchedDriverSpec | src/lib/analyzer.ts:10-20 | the match is the entry under the upper-cased last name when there is one. Otherwise it is the first entry, in insertion order, whose upper-cased last name is the target. It is null exactly when no key is the target and no entry's upper-cased last name is the target |
| Analyzer.ScanFinds | src/lib/analyzer.ts:14-18 | the scan returns the entry of the first key, in the map's insertion order, whose upper-cased last name equals the target, and returns null exactly when there is none |
| Analyzer.FallbackFindsNothingNew | src/lib/analyzer.ts:10-18 | on a price map built from a feed, the match equals the direct lookup by upper-cased last name |
| Analyzer.CalculateValueScore | src/lib/analyzer.ts:23-29 | the score is null exactly when the lap time or the price is null or the price is 0. Otherwise score times lap time times price is 1000 |
| Analyzer.FasterScoresHigher | src/lib/analyzer.ts:28 | at a fixed positive price, a strictly faster lap gives a strictly higher score |
| Analyzer.CheaperScoresHigher | src/lib/analyzer.ts:28 | at a fixed lap time, a strictly cheaper positive price gives a strictly higher score |
| Analyzer.BuildDriverAnalysis | src/lib/analyzer.ts:31-56 | the row carries the driver's number, names, acronym, team, colour and headshot, and the performance's best sectors, top speed, lap count and session name. It has a lap time exactly when the best lap has a duration, and then it is that duration. It has a price exactly when a fantasy record matched, and then carries its price, change, ownership and points. Without a match they are all null. The value score is consistent with the lap time and price |
| Analyzer.SortByLapTimePermutation | src/lib/analyzer.ts:79-83 | the lap-time sort is a permutation of its input |
| Analyzer.SortByLapTimeOrdered | src/lib/analyzer.ts:79-83 | after the sort every timed row precedes every untimed row and timed rows ascend by lap time |
| Analyzer.ResolveSessionKey | src/lib/analyzer.ts:59-70 | a given non-zero session key is used as is. Otherwise the last practice session of the latest meeting is used, and there is no target when there is no meeting or no practice session |
| Analyzer.ResolveUsesLastPractice | src/lib/analyzer.ts:62-69 | without a usable key and with a meeting, the session analysed is a practice session of the meeting's list after which the list holds no other practice session |
| Analyzer.BuildAll | src/lib/analyzer.ts:77-78 | one row per performance, in order, each built from the performance and its match |
| Analyzer.AnalyzeDriversSpec | src/lib/analyzer.ts:58-84 | with no target session the result is empty. Otherwise it is a permutation of the built rows, one per performance, timed rows ascending before untimed rows, every score consistent |
| Analyzer.GenerateRecommendations | src/lib/analyzer.ts:86-138 | the driver recommendations are the engine's output on driver numbers. Each has priced, timed drivers with different numbers, a strictly faster incoming driver, out-minus-in time gain, in-minus-out price delta within budget, null scores read as 0, and the tier of its delta. Every qualifying pair is present |
| OpenF1.LatestMeeting | src/lib/openf1.ts:28-33 | the result is null exactly when there are no meetings, and otherwise is one of the meetings |
| OpenF1.LatestStarted | src/lib/openf1.ts:31-33 | when a given meeting has started, the latest meeting is a started meeting at some position and no meeting listed after it has started |
| OpenF1.LatestMeetingSpec | src/lib/openf1.ts:28-33 | when some meeting has started, the result is the last started meeting in list order. When none has, it is the first meeting |
| OpenF1.PracticeSessions | src/lib/openf1.ts:43-45 | the kept sessions are exactly the listed sessions named "Practice 1", "Practice 2" or "Practice 3" |
| OpenF1.PracticeSessionsInOrder | src/lib/openf1.ts:43-45 | the filter keeps the practice sessions in list order: a session is kept, between those kept before it and those kept after it, exactly when it is a practice session |
| OpenF1.LastPracticeSession | src/lib/openf1.ts:43-45 | the last kept session is a practice session, and no session after it in the list is a practice session |
| OpenF1.Fastest | src/lib/openf1.ts:71-73 | the reduction returns one of the laps it reduces |
| OpenF1.BestLapStep | src/lib/openf1.ts:71-73 | appending a lap replaces the best lap exactly when the new lap is timed, not a pit-out lap, and strictly faster |
| OpenF1.FindBestLapSpec | src/lib/openf1.ts:67-74 | the best lap is null exactly when no lap has a duration outside the pit exit. Otherwise it is such a lap, no slower than any other such lap and strictly faster than every earlier such lap, so ties go to the earliest |
| OpenF1.SectorColumn | src/lib/openf1.ts:79-87 | one sector time per lap, in lap order |
| OpenF1.BestSectorSpec | src/lib/openf1.ts:76-93 | each best sector is null exactly when no non-pit-out lap has that sector time. Otherwise it is such a time and no larger than any other |
| OpenF1.SpeedColumnMembers | src/lib/openf1.ts:97-99 | a speed is in the flattened speed list exactly when some lap recorded it at the first or second intermediate or the speed trap |
| OpenF1.TopSpeedSpec | src/lib/openf1.ts:96-102 | the top speed is null exactly when no lap, pit-out laps included, recorded a speed. Otherwise it is a recorded speed and no smaller than any other |
| OpenF1.GroupLapsByDriver | src/lib/openf1.ts:117-122 | the table has a key for exactly the driver numbers that occur. Each driver's list is exactly that driver's laps in their original order |
| OpenF1.SessionNameOf | src/lib/openf1.ts:115 | the first session's name, or "Unknown" when the lookup returned no session |
| OpenF1.GetDriverPerformances | src/lib/openf1.ts:104-135 | one performance per driver, in the order of the driver list, each computed from exactly that driver's laps and the session name |
| OpenF1.PerformanceOwnLaps | src/lib/openf1.ts:124-134 | a driver's best lap is one of that driver's laps. The lap count is at most the number of those laps, and equals it when none is a pit-out lap, untimed laps included |
| OpenF1.NoLapsNoPerformance | src/lib/openf1.ts:125-131 | a driver without laps has no best lap, no sector times, no top speed and a lap count of 0 |
| Fantasy.GetCurrentRound | src/lib/fantasy.ts:46-70 | round 1 when the calendar cannot be fetched. Otherwise the round of the first race dated now or later. When every race is past it is the last race's round, and round 1 for an empty calendar |
| Fantasy.ParseDriver | src/lib/fantasy.ts:72-84 | the driver keeps its id, first and last names, team, ownership and overall and gameday points. Its price is the feed value, and price minus price change is the previous value |
| Fantasy.ParseConstructor | src/lib/fantasy.ts:86-96 | the constructor keeps its id, ownership and overall and gameday points, and is named by its full name. Its price is the feed value, and price minus price change is the previous value |
| Fantasy.ParseDrivers | src/lib/fantasy.ts:112 | one parsed driver per entry, in order |
| Fantasy.ParseConstructors | src/lib/fantasy.ts:113 | one parsed constructor per entry, in order |
| Fantasy.FantasyFeed | src/lib/fantasy.ts:98-119 | the feed fails exactly when the response is not ok, and otherwise is tagged with the requested round |
| Fantasy.KeptDriverEntry | src/lib/fantasy.ts:110-112 | an entry survives both filters of the drivers' list exactly when it is active and has skill 1 |
| Fantasy.KeptConstructorEntry | src/lib/fantasy.ts:110-113 | an entry survives both filters of the constructors' list exactly when it is active and has skill 2 |
| Fantasy.FeedDriverSource | src/lib/fantasy.ts:110-112 | every listed driver is the parse of an active skill-1 entry of the response |
| Fantasy.FeedDriverKept | src/lib/fantasy.ts:110-112 | the parse of every active skill-1 entry of the response is listed |
| Fantasy.FeedConstructorSource | src/lib/fantasy.ts:110-113 | every listed constructor is the parse of an active skill-2 entry of the response |
| Fantasy.FeedConstructorKept | src/lib/fantasy.ts:110-113 | the parse of every active skill-2 entry of the response is listed |
| Fantasy.FeedDrivers | src/lib/fantasy.ts:110-112 | a driver is in the feed exactly when it is the parse of an active skill-1 entry |
| Fantasy.FeedConstructors | src/lib/fantasy.ts:110-113 | a constructor is in the feed exactly when it is the parse of an active skill-2 entry |
| Fantasy.FeedDriversInOrder | src/lib/fantasy.ts:110-112 | the drivers keep the order of the response: an entry contributes its driver, between the drivers of the entries before it and those after it, exactly when it is active with skill 1 |
| Fantasy.FeedConstructorsInOrder | src/lib/fantasy.ts:110-113 | the constructors keep the order of the response: an entry contributes its constructor, between those of the entries before it and those after it, exactly when it is active with skill 2 |
| Fantasy.DriverPriceFromLastEntry | src/lib/fantasy.ts:110-128 | when several active skill-1 entries share an upper-cased last name, the driver price map holds the driver parsed from the last of them in the response |
| Fantasy.GetDriverPrices | src/lib/fantasy.ts:121-131 | the price map is the result of the set loop and is well formed. Its keys are exactly the drivers' upper-cased last names, and every driver is filed under its own upper-cased last name |
| Fantasy.GetConstructorPrices | src/lib/fantasy.ts:133-143 | the price map is the result of the set loop and is well formed. Its keys are exactly the constructors' upper-cased names, and every constructor is filed under its own upper-cased name |
| IndexMaps.IndexMap.Set | src/lib/fantasy.ts:127 | after a set the key reads back the new value, every other key reads as before, and the map stays well formed |
| IndexMaps.BuildIndex | src/lib/fantasy.ts:123-128 | the loop of sets leaves the map specified for the list, and that map is well formed |
| IndexMaps.IndexKeys | src/lib/fantasy.ts:125-128 | the keys of the map are exactly the keys of the listed values |
| IndexMaps.LastWriteWins | src/lib/fantasy.ts:125-128 | when several values share a key, the last one listed is the one stored |
| IndexMaps.LastWriteWinsSplit | src/lib/fantasy.ts:125-128 | a value followed in the list only by values of other keys is the one stored under its key |
| IndexMaps.IndexSelfKeyed | src/lib/fantasy.ts:127 | every stored value sits under its own key |
| IndexMaps.IndexSize | src/lib/fantasy.ts:123-128 | the map is well formed and has no more keys than the list has values |
| Cache.TtlCache.constructor | src/lib/cache.ts:8 | the cache starts empty |
| Cache.TtlCache.GetCached | src/lib/cache.ts:10-20 | a missing key reads as null and changes nothing. An entry expired strictly before now reads as null and is deleted. A live entry, the expiry instant included, reads as its data and changes nothing |
| Cache.TtlCache.SetCache | src/lib/cache.ts:22-27 | the key now holds the data with expiry now plus the time to live, overwriting any earlier entry, and no other key changes |
| Cache.TtlCache.GetOrFetch | src/lib/cache.ts:29-40 | a live non-null entry is returned without calling the fetcher. Otherwise the fetcher is called and its value is stored and returned. A failure is propagated, and nothing is stored for the key |
| Cache.TtlCache.ClearCache | src/lib/cache.ts:42-44 | the store is empty afterwards |
| Cache.ReadBackWithinTtl | src/lib/cache.ts:14-27 | a stored value reads back at every instant up to and including its expiry, and not after |
| Cache.ReadChangesNothingVisible | src/lib/cache.ts:14-17 | deleting an expired entry on read changes what no key reads as, at that instant or later |
| Cache.FetchedValueIsReused | src/lib/cache.ts:34-39 | after a miss fetches and stores a value, every call within its time to live returns that value without calling the fetcher again |
| Cache.NullIsFetchedAgain | src/lib/cache.ts:34-38 | a fetched null is stored but reads as a miss, so the next call fetches again |
| Cache.FailureIsNotCached | src/lib/cache.ts:34-38 | a failed fetch propagates and leaves nothing readable under the key at any instant, so the next call, whenever it comes, calls the fetcher again and returns what it returns |
| MockData.MockDriver.Analysis | src/lib/mock-data.ts:14-155 | every fixture driver has a lap time, a price, a price change, ownership, points and a value score |
| MockData.MockConstructor.Analysis | src/lib/mock-data.ts:190-201 | every fixture constructor has a best and an average lap time, a price, a price change, ownership, points and a value score |
| MockData.DriverAnalyses | src/lib/mock-data.ts:14-155 | one analysis per fixture row, in order |
| MockData.ConstructorAnalyses | src/lib/mock-data.ts:190-201 | one analysis per fixture row, in order |
| MockData.GenerateConstructorSwaps | src/lib/mock-data.ts:203-234 | every constructor swap has priced, timed constructors with different names and a strictly faster incoming constructor. The time gain is out minus in; the price delta is in minus out and within budget. Null scores read as 0, and the reason is the tier of the delta. Every qualifying pair is present |
| MockData.GetMockRecommendations | src/lib/mock-data.ts:256-262 | the budget is echoed unchanged with the driver and constructor generators' output on the fixtures |
| MockData.DriverPriceEntries | src/lib/mock-data.ts:266-276 | one price entry per driver, entry i with id i + 1, the driver's first and last names, team, price, change, ownership and points, and no gameday points |
| MockData.ConstructorPriceEntries | src/lib/mock-data.ts:277-285 | one price entry per constructor, entry i with id 100 + i, the constructor's name, price, change, ownership and points, and no gameday points |
| MockData.MockPrices | src/lib/mock-data.ts:264-286 | the price list is of round 1, with one driver entry per fixture driver with ids i + 1 and one constructor entry per fixture constructor with ids 100 + i, prices carried over |
| MockData.DriverFixturesEligible | src/lib/mock-data.ts:158 | every fixture driver has a lap time and a price, so the eligible set is the whole list |
| MockData.ConstructorFixturesEligible | src/lib/mock-data.ts:204 | every fixture constructor has a lap time and a price, so the eligible set is the whole list |
| MockData.DriverFixturesDistinct | src/lib/mock-data.ts:14-155 | no two fixture driver rows share a car number |
| MockData.ConstructorFixturesDistinct | src/lib/mock-data.ts:190-201 | no two fixture constructor rows share a name |
| MockData.DriverAnalysesDistinct | src/lib/mock-data.ts:158-187 | driver rows with distinct car numbers give analyses whose identities, as the generator compares them, are distinct |
| MockData.ConstructorAnalysesDistinct | src/lib/mock-data.ts:204-233 | constructor rows with distinct names give analyses whose identities, as the generator compares them, are distinct |
| MockData.ConstructorsAgreeWithDrivers | src/lib/mock-data.ts:190-201 | each fixture constructor row lists its team's two fixture drivers and is named after their team. Its best lap is the faster of their two lap times, and its average is their mean lap time to the millisecond |
| MockData.HamiltonToNorrisAtNoExtraCost | src/lib/mock-data.ts:157-188 | with a budget of 0, swapping Hamilton for the faster and 1.0 cheaper Norris is recommended exactly once, as a cheaper swap |
| MockData.HamiltonAndNorris | src/lib/mock-data.ts:22-42 | Norris is faster than Hamilton and 1.0 cheaper, so the swap qualifies at a budget of 0 |
| MockData.GaslyAndLawson | src/lib/mock-data.ts:64-77 | Lawson is faster than Gasly and 0.5 dearer, so the swap qualifies at a budget of 0.5 |
| MockData.GaslyToLawsonAtTheBudgetEdge | src/lib/mock-data.ts:157-188 | swapping Gasly for the faster Lawson costs exactly 0.5. It is recommended at a similar price with a budget of 0.5, and is not recommended with a budget of 0.4 |

## Left out

- Network and HTTP plumbing is not modelled. The OpenF1 and fantasy endpoints, `fetchJson`, URL construction, `Promise.all` and the route handlers are out. Upstream responses are parameters: a sequence, or `None` for a response that is not ok.
- The wiring of `getOrFetch` around each upstream call (the cache keys and time to live per call) is not modelled. The cache itself is modelled once, in `Cache`.
- The eight-hour default time to live of `setCache` and `getOrFetch` is not modelled as a default argument: every call in the model passes its time to live.
- Cache.TtlCache.GetOrFetch: the asynchronous fetcher is represented by the value it resolves to. The instant at which that value arrives is the parameter `later`.
- The clock and date parsing (`Date.now()`, `new Date(...)`) become integer parameters. `parseInt`/`parseFloat` of feed fields are taken as already done.
- IEEE floating point is not modelled: lap times, prices and deltas are `real`. Lap durations are assumed positive, which keeps the value score's division defined.
- Prelude.Upper: only ASCII letters are upper-cased. Full Unicode `toUpperCase` is not modelled.
- The reason strings and their `toFixed` formatting are modelled as the three-way price tier only.
- Swaps.RecommendOrder: the exact output order of the swap sort is not claimed in general. The source's comparator is not transitive, so the order a JavaScript engine produces depends on its sort. The model claims a permutation, plus a strictly descending order when the time gains are well separated.
- Analyzer.AnalyzeDriversSpec: the relative order of rows with equal lap times, and of untimed rows, is not claimed. The comparator returns 1 for any untimed first argument and is inconsistent for two untimed rows.
- Fantasy.FantasyFeed: the error message does not carry the HTTP status and status text.
- `getMockDrivers`, `MOCK_MEETING` and `MOCK_SESSIONS` are not modelled: they return or hold constants that nothing in the model uses.
- The user interface (`src/app/page.tsx`, `src/components/*`) and `next.config.ts` are not part of this model.
- Constructor analysis from lap data and matching of constructors to team names do not exist in the source. Only the constructor fixtures and their swap generator are modelled.
