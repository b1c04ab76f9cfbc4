# cTrader cache plugin for Zorro: a Dafny model

The project models the core of the Zorro broker plugin `cTraderPlugin.cpp`. The plugin reads cTrader's backtesting tick cache and serves it to Zorro as ticks or as bars, walking backwards in time.

The model covers three parts:

- **Day decoding.** `ReadCTraderDayV2` turns one inflated day file into three parallel vectors: times, bids and asks. Each 24-byte record holds a little-endian time in milliseconds and two 8-byte price fields. Only the low 32 bits of each price field are kept. A zero price is filled from the previous record, or in record 0 from the other side's price. This is module `DayDecoder`, built on `LittleEndian`.
- **Login.** `BrokerLogin` builds the cache path and resets the day cursor. This is `Broker.Session.Login`.
- **History.** `BrokerHistory2` walks the cursor down the loaded day and, when the day is used up, searches earlier days. It fills Zorro's `T6` buffer newest first.
  - With `TickMinutes == 0` it emits one raw tick per record.
  - Otherwise it builds bars of `TickMinutes` minutes backwards.

The loop of `BrokerHistory2` is modelled in two forms:

- a pure step machine (`Resampler.Step`, `Resampler.Run`);
- an imperative method on the plugin's globals (`Broker.Session.History`). Its `ensures` ties it, iteration by iteration, to `Run`.

`HistoryProperties` proves what a whole call leaves in the buffer and in the globals. `HistoryExamples` works concrete calls through.

Conventions:

- Times are integers in milliseconds since the Unix epoch. Days are numbered from the epoch.
- Prices are integer tick counts, that is, the source's values before the `1e-5` tick-size scaling.
- Days come from a loader `int -> Option<TickSeries>`. `DayDecoder.DayLoader` defines that loader from the per-day file outcomes and `DecodeDay`, and `DayDecoder.SerialArrays.LoadDay` shows that one pass of the day search over the vectors agrees with it.
- Three inputs are parameters of the model:
  - what the file system and zlib yield for a day file (`FileOutcome`);
  - the value of `APPDATA`;
  - the `is_directory` test.

Three behaviours of the code differ from what a reader would expect of it:

- **Zero prices are not all removed.** The zero-price fill at lines 140-141 looks meant to leave no zero price. But a day whose first record has both prices zero keeps those zeros, because there is nothing to copy (`DayDecoder.ZeroFirstRecordStaysZero`). The model follows the code. `DayDecoder.NoZeroPrices` proves that no zero remains under the condition the code actually needs.
- **`End` does not bound the first tick.** The comment at lines 186-188 says the buffer is filled backwards from `End`. In the code, `End` only chooses the first day searched. The walk starts at that day's last record, so ticks later than `End` on that day are emitted (`HistoryExamples.TicksAfterEnd`). The model follows the code.
- **Later searches do not skip the used-up day.** The choice between `End` and `End - 1` at line 209 suggests that later searches should continue below a day already used. The code instead restarts every later search in a call at `End - 1` day, so a call that has used that day up loads it again. Here the main model follows the evident intent: `Resampler.Run` and `Broker.Session.History` continue each search below the day loaded last. The code as written is `Resampler.RunAsWritten`. See the second finding below.

## Model

| member | source | states |
|---|---|---|
| DayDecoder.SerialArrays.ReadDay | cTraderPlugin.cpp:88-145 | a missing file, an open failure and an inflate failure each return their own non-empty message and leave the vectors as they were; an inflated file returns "" and the three vectors become the decoded day |
| DayDecoder.SerialArrays.Fill | cTraderPlugin.cpp:125-142 | the record loop over vectors sized to the record count leaves them holding exactly the times and corrected prices of every whole record |
| DayDecoder.SerialArrays.LoadDay | cTraderPlugin.cpp:211-217 | one pass of the day search: decoding succeeds exactly when the day loader has the day, the vectors then hold that day and the cursor is on its last record; on an error the cursor and the vectors are unchanged |
| DayDecoder.DecodeLayout | cTraderPlugin.cpp:125-138 | the day has length/24 records; record i's time is the 8 bytes at 24i, its bid and ask the low four bytes of the fields at 24i+8 and 24i+16 |
| LittleEndian.LowHalf | cTraderPlugin.cpp:135-137 | narrowing an 8-byte field to `uint32_t` keeps exactly its four low bytes |
| LittleEndian.LERoundTrip | cTraderPlugin.cpp:133-137 | writing a value that fits into n little-endian bytes and reading them back gives the value |
| DayDecoder.ZeroFillRule | cTraderPlugin.cpp:140-141 | a non-zero raw price is stored unchanged; a zero one takes the previous record's stored price, or in record 0 the other side's raw price |
| DayDecoder.ZeroFillIsForwardFill | cTraderPlugin.cpp:140-141 | the stored bid and ask vectors equal a left-to-right forward fill of the raw prices, an independent definition of the correction |
| DayDecoder.NoZeroPrices | cTraderPlugin.cpp:140-141 | when record 0 carries a non-zero bid or ask, no stored bid or ask of the day is zero |
| DayDecoder.ZeroFirstRecordStaysZero | cTraderPlugin.cpp:140-141 | a first record with both prices zero is stored with both prices zero |
| DayDecoder.DecodeEncode | cTraderPlugin.cpp:129-138 | decoding the bytes of n encoded records gives n records with their times and their prices modulo 2^32 |
| DayDecoder.DecodeEncodedDay | cTraderPlugin.cpp:125-141 | decoding an encoded day gives back every record time in order, and the stored bid and ask vectors are the forward fill of the 32-bit prices, seeded at record 0 with the other side's 32-bit price |
| DayDecoder.SourceRecordLoop | cTraderPlugin.cpp:125-138 | the record loop as written stores length/24 records when the length is a multiple of 24; otherwise its last pass stores index length/24, one past the vectors resized at lines 125-127, and reads past the end of the buffer |
| Resampler.Int32 | cTraderPlugin.cpp:255 | the quotient is narrowed to `int`: the result is in the 32-bit range, congruent to the input modulo 2^32, and the input itself when it fits |
| Resampler.Divisor | cTraderPlugin.cpp:255 | `TickMinutes * 60000` converted to `uint64_t` is a valid non-zero divisor exactly when `TickMinutes != 0`, and is the product itself for non-negative minutes |
| Resampler.Search | cTraderPlugin.cpp:209-219 | a found day is a search time one whole number of days below the start, not below `Start - 10` days, whose day loads, and no higher search time loads; when nothing is found, no search time in the window loads |
| Resampler.Reload | cTraderPlugin.cpp:207-219 | a reload happens only when the cursor is negative; when the search finds a day, that day becomes the current one, the cursor is on its last record, the current day's run starts there, and the corrected search start moves below it; when it finds none the state is unchanged; the buffer and the counters are kept |
| Resampler.RawStep | cTraderPlugin.cpp:236-250 | a raw step writes the record under the cursor into slot `count` as an ask-priced tick and counts it; it either continues with the cursor one lower or returns the new count, between 1 and `max(NTicks, 1)`, with the cursor left on that record |
| Resampler.BarStep | cTraderPlugin.cpp:251-283 | a bar step either continues with the cursor one lower, keeping the slot in use inside the buffer, or returns a count of at most `max(NTicks, 0)` with the cursor on a record |
| Resampler.Step | cTraderPlugin.cpp:204-284 | an iteration returns a count within the limit, or continues in a well-formed state; the corrected iteration lowers the search start or the cursor |
| Resampler.Run | cTraderPlugin.cpp:189-287 | the corrected call always returns, with a count between 0 and its limit and the buffer length unchanged |
| Resampler.RunAsWritten | cTraderPlugin.cpp:204-284 | up to `fuel` iterations of the loop as written, which continue in a well-formed state or return within the limit |
| HistoryProperties.StepKeeps | cTraderPlugin.cpp:204-284 | one corrected iteration keeps the invariant: the buffer's slots summarise the ticks visited, and the visited ticks are the day's records from the cursor up; an iteration that returns satisfies the call's postcondition |
| HistoryProperties.RunKeeps | cTraderPlugin.cpp:189-287 | from any state satisfying the invariant, the call ends in a state satisfying its postcondition `Done` |
| HistoryProperties.CallDone | cTraderPlugin.cpp:189-287 | every call entered with the cursor on a record or at -1 ends satisfying `Done` |
| HistoryProperties.RunSameDay | cTraderPlugin.cpp:204-219 | a call that loads no day ends on the day it began with, and the ticks it visited still start at the same record |
| HistoryProperties.VisitedRecords | cTraderPlugin.cpp:204-216 | without a reload the ticks a call visits are the entry day's records from the entry cursor down; after a reload, those visited since it are the loaded day's records from its last record down |
| HistoryProperties.RawTicks | cTraderPlugin.cpp:204-250 | in raw mode slot k holds the k-th tick visited; without a reload these are the entry day's records from the entry cursor down, after a reload the slots since it are the loaded day's records from its last record down; 0 is returned exactly when the data ran out; otherwise the count is the number of ticks visited, all before the last are after `Start`, and the last reached `NTicks` or is at or before `Start` |
| HistoryProperties.RawCursorOnLastRecord | cTraderPlugin.cpp:204-249 | after a raw-mode `break`, the ticks visited since the last reload are the day's records from the cursor up, newest first, and the cursor stays on the record emitted last |
| HistoryProperties.RawNewestFirst | cTraderPlugin.cpp:186-188 | in raw mode, after a `break` on a day whose records are in ascending time order, the slots written since that day was loaded have non-increasing times, the most recent tick first |
| HistoryProperties.Bars | cTraderPlugin.cpp:204-283 | in bar mode every counted bar is the summary of its group of ticks (time and close of the newest, open of the oldest, high, low, spread of the oldest, volume) and opened on a tick after `Start`; the visited ticks are the entry day's records from the entry cursor down, or after a reload the loaded day's records from its last record down; the next slot was opened on the record right below them, and that bar is not counted because the count reached `NTicks` or the record is at or before `Start` |
| HistoryProperties.BarsCoverVisitedTicks | cTraderPlugin.cpp:255-282 | in bar mode, when no visited tick lies in bucket `INT_MAX`, the counted bars' groups concatenate to the visited ticks; in visit order (newest first) the bucket never drops inside a group and strictly drops between groups, and the cursor's record starts a lower bucket |
| HistoryProperties.NoDataReturnsZero | cTraderPlugin.cpp:207-225 | a call that ends with the cursor at -1 returns 0; either the day found was empty or no search time from the search start down to `Start - 10` days loads |
| HistoryProperties.RunWritesWithin | cTraderPlugin.cpp:240-280 | a call writes no slot at or above `max(NTicks, 1)` in raw mode, or at or above `max(NTicks, 0) + 1` in bar mode |
| HistoryProperties.FirstSearchAsWritten | cTraderPlugin.cpp:209 | the first day search of a call starts where the source starts it, at `End` right after login and at `End - 1` day otherwise |
| HistoryExamples.OneMinuteBar | cTraderPlugin.cpp:251-283 | three ticks of one minute make one bar with their open, high, low, close, the last spread and volume 3; the older minute's tick opens the uncounted next bar and keeps the cursor |
| HistoryExamples.TicksAfterEnd | cTraderPlugin.cpp:209-216 | a raw call with `End` at 50 s on a day whose last tick is at 60.1 s emits that later tick first: `End` chooses the day, not the first record |
| HistoryExamples.AsWrittenBarCallNeverReturns | cTraderPlugin.cpp:209 | as written, this bar-mode call, whose only day holds one tick, reloads that day on every pass and, for any number of iterations, has not returned |
| HistoryExamples.PairEnds | cTraderPlugin.cpp:207-271 | as written, on a day whose ticks lie in minutes 1440 and 1442: from the minute-1442 tick with slot `c` open, the minute-1440 tick opens a new bar because its bucket is lower, the next pass reloads the same day at `End - 1` day, and the call returns 3 after `5 - 2c` passes |
| HistoryExamples.AsWrittenPairCallReturns | cTraderPlugin.cpp:207-271 | as written, the same call on a day with ticks in two buckets returns 3 bars within six passes, built from ticks visited again after each reload |
| HistoryExamples.CorrectedBarCallReturns | cTraderPlugin.cpp:207-225 | with the corrected search, the same call searches below the day it used up and returns 0 |
| HistoryExamples.AsWrittenRawCallRepeatsDay | cTraderPlugin.cpp:209-247 | as written, a raw-mode call on one day holding one tick emits that tick three times |
| Broker.CachePath | cTraderPlugin.cpp:170-174 | the cache path starts with `APPDATA`, ends with the password, and is 37 characters (the two fixed path pieces) longer than the three parts together |
| Broker.Session.constructor | cTraderPlugin.cpp:71-80 | the plugin's globals start zeroed, with no day loaded |
| Broker.Session.Login | cTraderPlugin.cpp:157-183 | no user returns 1 and changes nothing; otherwise the cache path is built, the cursor is -1, `mPrevMinutes` is 0, the next search starts at `End`, and the result is 1 exactly when the path is a directory |
| Broker.Session.LoadEarlierDay | cTraderPlugin.cpp:207-219 | the search loop leaves the cursor, the day and the corrected search start as `Reload` does |
| Broker.Session.RawIteration | cTraderPlugin.cpp:236-250 | one raw-mode pass leaves the globals, the count and the buffer as `RawStep` does |
| Broker.Session.OpenSlot | cTraderPlugin.cpp:258-269 | opening a bar writes the slot in use and zeroes the tick volume as `Open` does |
| Broker.Session.GrowSlot | cTraderPlugin.cpp:275-282 | growing a bar updates the slot, the tick volume, `mPrevMinutes` and the cursor as `Grow` does |
| Broker.Session.BarIteration | cTraderPlugin.cpp:251-283 | one bar-mode pass leaves the globals, the count and the buffer as `BarStep` does |
| Broker.Session.Iteration | cTraderPlugin.cpp:205-284 | one pass through the loop body leaves the state as `Step` with the corrected search does, and says whether the call returns and with what count |
| Broker.Session.History | cTraderPlugin.cpp:189-287 | the call returns the count of `Call` on the entry state, leaves the buffer and the globals as it does, writes no slot at or above `Room`, and keeps the cursor on a record or at -1 |

## Left out

- File system and zlib: whether a day file exists, opens and inflates is the `FileOutcome` parameter of `ReadDay`, `LoadDay` and `DayLoader`. The 16-times output estimate and the gzip format are not modelled.
- `getenv("APPDATA")` and `std::filesystem::is_directory` are parameters of `Login`.
- `DATE` and `strdate`: times are integer milliseconds, and a search time names the day `endRun / 86400000`. The floating-point conversion of tick times to `DATE`, and its rounding in the `<= Start` tests, are not modelled.
- Prices are integer tick counts. The `1e-5` tick-size scaling, and the `float` rounding of bar prices, are left out.
- A bar's spread `ask - bid` is the signed difference of the tick counts, not a `float`.
- Broker.Session.History: the search uses the injected loader in place of `ReadCTraderDayV2` on the path built from `mCachePath`, the symbol and the date string. The session keeps the loaded day as a value. The decoder's in-place update of the vectors is the separate `DayDecoder.SerialArrays`, tied to the loader `DayDecoder.DayLoader` by `DayDecoder.SerialArrays.LoadDay`.
- Broker.Session.History requires the cursor to be -1 or on a record of the loaded day. The zero-initialised globals before any login break this: there the source would read record 0 of an empty vector.
- The `(int)` cast of a day's record count is not modelled. Days of more than `INT_MAX` records are outside the model.
- HistoryProperties.RawNewestFirst is stated for the slots written from the day loaded last, and assumes that day is in ascending time order. Ordering across two days would also need the loader to keep each day's times inside that day, which the model does not assume.
- HistoryProperties.RawTicks describes record by record only the ticks visited from the day loaded last, or from the entry day when no day was loaded. Ticks visited from a day used up earlier in the same call are described only as slots of the visited ticks, not tied to that day's records.
- HistoryProperties.Bars describes its groups' ticks record by record only on the day loaded last, or on the entry day when no day was loaded, for the same reason.
- Broker.Session.History and the Resampler members require `ValidRequest`: `TickMinutes * 60000` must fit in `int`. For larger `TickMinutes` the multiplication at line 255 overflows a signed `int`, which C++ leaves undefined, so the model gives no result for it.
- Broker.Session.History requires room for `Room(req)` slots: `NTicks + 1` in bar mode. At line 262 the source advances `Ticks` past slot `NTicks - 1` and writes the freshly opened bar into slot `NTicks` before the break at line 271. So the caller's buffer must hold one slot more than the count the call can return.
- HistoryProperties.BarsCoverVisitedTicks is stated only when no visited tick lies in bucket `INT_MAX`. That bucket value is also the sentinel for "no bar started", so such a tick does not open a bar; `Bars` holds without this condition.
- Resampler.RunAsWritten is bounded by `fuel`: the loop as written is described for any finite number of iterations, because some calls of it never return.
- The `_DEBUG` date strings, and the unused globals `mHighPrice` and `mLowPrice`, are dropped.
- The other entry points (`BrokerOpen`, `BrokerRequest`, `BrokerAsset`, `BrokerAccount`, `BrokerBuy2`, `BrokerTrade`, `BrokerCommand`) are outside the modelled core.

## Findings

| source | as written | input that shows it | evidently intended | confidence | as-written member | corrected member |
|---|---|---|---|---|---|---|
| cTraderPlugin.cpp:125-131 | the record loop runs while `sourceNdx < size`, but the vectors are resized to `size / 24` | an inflated day of 25 bytes: the loop stores index 1 into vectors of length 1 and reads bytes 24 to 47 of a 25-byte buffer | the loop stops after the last whole record, ignoring a trailing partial record | high; not executed | DayDecoder.SourceRecordLoop | DayDecoder.SerialArrays.Fill |
| cTraderPlugin.cpp:209 | every day search after the first of a call starts again at `End - 1` day, whichever day was just used up | a bar call (`TickMinutes` 1, `NTicks` 3) with `End` 5 ms into day 2, entered with the cursor at -1 after an earlier call, where only day 1 has data, one tick: the call reloads day 1 for ever; in raw mode the same call emits that tick three times (on a day with ticks in two buckets the call as written does return, with bars built from re-walked ticks: `HistoryExamples.AsWrittenPairCallReturns`) | a later search continues below the day just used up | high; not executed | Resampler.RunAsWritten, HistoryExamples.AsWrittenBarCallNeverReturns, HistoryExamples.AsWrittenRawCallRepeatsDay | Resampler.Run, HistoryProperties.RunKeeps, HistoryExamples.CorrectedBarCallReturns, Broker.Session.History |
