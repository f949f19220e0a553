# NYSE TAQ trade-feed decoding and aggregation, in Dafny

This project models the core of `feed_parser`: the path that reads a NYSE TAQ
Pillar (Products Client Specification v2.3i) trade feed one comma-separated line
at a time and keeps running statistics about it. It covers:

- **The message classifier and counters** (`BaseFuncs`, from `src/nyse/base_funcs.rs`):
  - `get_msg_type` is a total map from the type token to `T003` (Symbol Index Mapping), `T034` (Security Status), `T220` (Trade) or `Error`.
  - `MsgStats` is a per-kind message counter.
  - `TradeStats` holds the per-symbol trade count and traded volume.
- **The closed code tables of the three message types:**
  - the `match` decoders of types 3 and 34 (`Mt3`, `Mt34`), which are total and fall back to `Error`;
  - the `TC_1_Map`..`TC_4_Map` trade-condition tables of type 220 (`Mt220`);
  - the `HashMap` tables of module `dt` (`DataTypes`), each checked against the decoder of the same field.
- **Time text** (`TimeFuncs`, with `Text` and `Float` as its helpers):
  - the `Hhmmss` trait's two pretty-printers, `s2hhmmss` and `sms2hhmmsnn`, over the `(s, ns)` pair a duration reports;
  - `time_to_dec`, which reads `HH:MM:SS[.fraction]` back as seconds. Each field goes through `str::parse::<f64>`, which is modelled on decimal text and read exactly.
- **The event aggregator** (`EventStructs`, from `src/event_structs.rs`):
  - an ordered map from one-second bucket (counted from the 9:30 open) to an `Event`;
  - each `Event` keeps its trades in arrival order with running totals;
  - the read-outs sum over the buckets or flatten them into a time series.
- **The line dispatcher `process_line`** (`Parsing`, from `src/general/parsing.rs`):
  - it counts every line's kind;
  - it registers symbols on type-3 lines;
  - it drops official open/close prints and market-center opening/closing trades;
  - it routes the remaining trades into the trade, event and symbol statistics;
  - it refuses unknown kinds.

Code that updates state in place is modelled as classes whose methods state the
whole new state:
- the counters;
- `Event` and `EventList` (a sorted key sequence plus a map to `Event` objects);
- the dispatcher's `Stats`.

Each method's contract connects the new state to a specification function: `Credit` for the counters, `Contents`/`Series` for the event list, `Dispatch` for `process_line`. Lemmas then prove the promised properties of those functions:
- the running-total invariants;
- that nothing but the touched bucket or key changes;
- that the time series is ordered by bucket and then by arrival;
- the decoders' round trips.

The table constructors insert their keys one at a time, as the source does.

Clocks, files and the decoders that are not part of this model are parameters:
- the trade decoder `T220::new` is a function parameter of `process_line`;
- the outcome of the event update is a parameter;
- the calls made on the event and symbol statistics are recorded as call logs.

## Model

| member | source | states |
|---|---|---|
| BaseFuncs.GetMsgType | src/nyse/base_funcs.rs:46-54 | "3", "34" and "220" give T003, T034 and T220, each recognised kind is given only by its own token, and every other string gives Error |
| BaseFuncs.MsgTypeRoundTrip | src/nyse/base_funcs.rs:46-54 | every recognised kind is read back from the token it is written with |
| BaseFuncs.MsgTypeExamples | src/nyse/base_funcs.rs:121-128 | "3", "34", "220" are recognised and "0" is Error; "202" is Error as the code says (the test expects T220) |
| BaseFuncs.Credit | src/nyse/base_funcs.rs:70-73 | `entry().or_insert(0) += amount`: the key is present afterwards, its count grows by exactly the amount (from 0 when new), every other key's count and presence is unchanged |
| BaseFuncs.CreditsSum | src/nyse/base_funcs.rs:70-73 | running-total invariant: after any sequence of credits a key's count is the sum of the amounts credited to it, and the key is present exactly when it was credited at least once |
| BaseFuncs.MsgStats.constructor | src/nyse/base_funcs.rs:64-68 | the message counter starts empty |
| BaseFuncs.MsgStats.Add | src/nyse/base_funcs.rs:70-73 | the kind's count rises by one (created at 1), every other kind's count is unchanged |
| BaseFuncs.TradeStats.constructor | src/nyse/base_funcs.rs:85-91 | trade count and volume maps start empty |
| BaseFuncs.TradeStats.Add | src/nyse/base_funcs.rs:92-99 | the symbol's trade count rises by one and its volume by the trade's volume; other symbols' entries are untouched |
| BaseFuncs.Stats.constructor | src/nyse/base_funcs.rs:110-115 | a fresh, empty message counter and trade counter |
| BaseFuncs.MsgStatsScenario | src/nyse/base_funcs.rs:131-151 | after T003 twice, T034 three times and T220 seven times the counts are 2, 3 and 7 |
| Mt3.GetMarketId | src/nyse/mt3.rs:71-83 | total: exactly the eight codes "1","3","4","5","8","9","10","11" are recognised, each as the variant whose code it is; everything else is Error |
| Mt3.MarketIdRoundTrip | src/nyse/mt3.rs:71-83 | every market is decoded from its own code, so codes and markets correspond one to one |
| Mt3.GetSecurityType | src/nyse/mt3.rs:108-129 | exactly the 17 letters A..Y listed are recognised, each as its own variant; everything else is Error |
| Mt3.SecurityTypeRoundTrip | src/nyse/mt3.rs:108-129 | every security type is decoded from its own letter |
| Mt3.GetPriceResolution | src/nyse/mt3.rs:140-147 | "0", "1", "5" are recognised, each as its own resolution; everything else is Error |
| Mt3.PriceResolutionRoundTrip | src/nyse/mt3.rs:140-147 | every resolution is decoded from its own code |
| Mt3.Mt3Examples | src/nyse/mt3.rs:153-196 | the decoders' test vectors: "1" NYSE, "10" NYSE National, "12" Error, "A" ADR, "Y" warrant, "Z" Error, "0" AllPenny, "5" NickelDime, "6" Error |
| Mt34.GetSSRTexID | src/nyse/mt34.rs:86-109 | exactly the 19 listed letters are recognised, each as the exchange whose code it is, 'C' as NYSE National; everything else is Error |
| Mt34.SSRTexIDRoundTrip | src/nyse/mt34.rs:86-109 | every exchange is decoded from its own letter |
| Mt34.GetSecurityStatus | src/nyse/mt34.rs:146-163 | exactly "4","5",A,C,D,P,B,E,O,L,X,I,G are recognised, each as its own status; everything else is Error |
| Mt34.SecurityStatusRoundTrip | src/nyse/mt34.rs:146-163 | every status is decoded from its own code |
| Mt34.GetHaltCondition | src/nyse/mt34.rs:209-230 | exactly the 17 listed codes, "~" and "1".."3" included, are recognised, each as its own condition; everything else is Error |
| Mt34.HaltConditionRoundTrip | src/nyse/mt34.rs:209-230 | every halt condition is decoded from its own code |
| Mt34.GetSSRState | src/nyse/mt34.rs:245-251 | "~" is NoSSR and "E" is SSR; everything else, a blank included, is Error |
| Mt34.SSRStateRoundTrip | src/nyse/mt34.rs:245-251 | both states are decoded from their own codes |
| Mt34.GetMarketState | src/nyse/mt34.rs:273-282 | exactly P, E, O, L, X are recognised, each as its own state; everything else is Error |
| Mt34.MarketStateRoundTrip | src/nyse/mt34.rs:273-282 | every market state is decoded from its own code |
| Mt34.SSRTexIDExamples | src/nyse/mt34.rs:293-313 | 'C' is NYSE National and 'F' is Error |
| Mt34.SecurityStatusExamples | src/nyse/mt34.rs:317-332 | 'G' is the pre-opening indication and 'H' is Error |
| Mt34.HaltConditionExamples | src/nyse/mt34.rs:336-354 | "~" is not delayed, "3" is halt level 3, "$" is Error |
| Mt34.StateExamples | src/nyse/mt34.rs:358-371 | "~" NoSSR, "E" SSR, " " Error; "X" closed, "A" Error |
| Mt220.Tc1TableCodes | src/nyse/mt220.rs:69-77 | the condition-1 table holds exactly '@','C','N',' ','R', each filed under the variant whose code it is |
| Mt220.Tc1Map.constructor | src/nyse/mt220.rs:70-77 | the five inserts use distinct keys, so nothing is overwritten and the table holds exactly 5 entries |
| Mt220.Tc1Map.Get | src/nyse/mt220.rs:79-81 | Some exactly for '@','C','N',' ','R', with the variant whose code is the key; the lookup reads the table only |
| Mt220.Tc2TableCodes | src/nyse/mt220.rs:108-119 | the condition-2 table holds exactly ' ','F','O','4','5','6','7','9', each filed under its own variant |
| Mt220.Tc2Map.constructor | src/nyse/mt220.rs:109-119 | eight distinct inserts, 8 entries, nothing overwritten |
| Mt220.Tc2Map.Get | src/nyse/mt220.rs:121-123 | Some exactly for the eight keys, with the variant whose code is the key |
| Mt220.Tc3TableCodes | src/nyse/mt220.rs:141-148 | the condition-3 table holds exactly ' ','T','U','Z', each filed under its own variant |
| Mt220.Tc3Map.constructor | src/nyse/mt220.rs:142-148 | four distinct inserts, 4 entries |
| Mt220.Tc3Map.Get | src/nyse/mt220.rs:150-152 | Some exactly for the four keys, with the variant whose code is the key |
| Mt220.Tc4TableCodes | src/nyse/mt220.rs:177-187 | the condition-4 table holds exactly ' ','I','M','Q','V','P','W', each filed under its own variant |
| Mt220.Tc4Map.constructor | src/nyse/mt220.rs:178-187 | seven distinct inserts, 7 entries |
| Mt220.Tc4Map.Get | src/nyse/mt220.rs:189-191 | Some exactly for the seven keys, with the variant whose code is the key |
| Mt220.CodesInjective | src/nyse/mt220.rs:108-124 | distinct condition-2 (and condition-4) variants have distinct characters, so a lookup's variant is fixed by its key |
| Mt220.FilterCodesScenario | src/nyse/mt220.rs:209-242 | 'O' is MCO, '6' MCCT, 'M' OClosePrice, 'Q' OOpenPrice, 'X' nothing |
| DataTypes.T3MarketTableAgrees | src/nyse/data_types.rs:60-71 | apart from key 3 the table as written files every number under the market the type-3 decoder reads from its decimal text |
| DataTypes.T3MarketTableDisagrees | src/nyse/data_types.rs:62-64 | the second insert under key 3 wins: 3 gives NYSE Arca Options where the decoder reads NYSE Arca Equities, 4 is missing, and NYSE Arca Equities is not in the table at all |
| DataTypes.T3MarketIDMap.constructor | src/nyse/data_types.rs:60-71 | the table as written, with 7 entries since key 3 is overwritten |
| DataTypes.T3MarketIDMap.Get | src/nyse/data_types.rs:73-75 | Some exactly for 1, 3, 5, 8, 9, 10, 11; 3 gives NYSE Arca Options; every other hit is what the type-3 decoder reads from the number |
| DataTypes.T3MarketIDMapScenario | src/nyse/data_types.rs:62-75 | `get(3)` is NYSE Arca Options and `get(4)` is None |
| DataTypes.MarketTableAgrees | src/nyse/data_types.rs:60-71 | the corrected table files every number under the market the type-3 decoder reads from it, never Error |
| DataTypes.MarketTableComplete | src/nyse/mt3.rs:71-83 | every market the type-3 decoder knows is a value of the corrected table |
| DataTypes.CorrectedT3MarketIDMap.constructor | src/nyse/data_types.rs:60-71 | the corrected table, 8 distinct entries |
| DataTypes.CorrectedT3MarketIDMap.Get | src/nyse/data_types.rs:73-75 | Some exactly for the eight market numbers, each agreeing with the type-3 decoder |
| DataTypes.SecurityTypeTableAgrees | src/nyse/data_types.rs:103-123 | a letter is a key exactly when the type-3 decoder recognises it, and is filed under the decoded type |
| DataTypes.SecurityTypeMap.constructor | src/nyse/data_types.rs:103-123 | the table built insert by insert is the documented one |
| DataTypes.SecurityTypeMap.Get | src/nyse/data_types.rs:125-127 | None exactly for letters the type-3 decoder calls Error, otherwise the decoded type |
| DataTypes.SSRTexIDTableCodes | src/nyse/data_types.rs:159-181 | each letter of the triggering-exchange table is the code of the exchange filed under it |
| DataTypes.SSRTexIDTableCovers | src/nyse/data_types.rs:159-181 | every exchange the type-34 decoder knows has a one-letter code that is a key of the table |
| DataTypes.SSRTexIDTableAgrees | src/nyse/data_types.rs:159-181 | a letter is a key exactly when `SSRTexID::get` recognises it, and is filed under the decoded exchange ('C' NYSE National) |
| DataTypes.SSRTExIDMap.constructor | src/nyse/data_types.rs:159-181 | the table built insert by insert is the documented one |
| DataTypes.SSRTExIDMap.Get | src/nyse/data_types.rs:183-185 | None exactly for letters `SSRTexID::get` calls Error, otherwise the decoded exchange |
| Text.NatToDigits | src/time_funcs.rs:88 | Rust's `{}` of a natural number: at least one character, all decimal digits |
| Text.DigitsRoundTrip | src/time_funcs.rs:88 | the digits printed for n read back as n |
| Text.DigitsLength | src/time_funcs.rs:88 | a number below 10^k is printed in at most k digits |
| Text.PaddedValue | src/time_funcs.rs:88 | `{:0w}` of a non-negative number is all digits, at least w wide, and reads back as the number |
| Text.PaddedLength | src/time_funcs.rs:88 | `{:0w}` of a non-negative number is exactly as wide as the wider of w and its digits |
| Text.PaddedWidth | src/time_funcs.rs:102 | a number below 10^w is printed in exactly w digits |
| Text.Split | src/time_funcs.rs:112 | `str::split` gives at least one piece and no piece contains the separator |
| Text.SplitJoin | src/time_funcs.rs:112 | splitting loses nothing: joining the pieces with the separator gives the input back |
| Text.JoinSplit | src/time_funcs.rs:112 | pieces free of the separator, joined and split again, come back unchanged |
| Text.SplitPrefix | src/time_funcs.rs:112 | a separator-free prefix joins the first piece of the rest |
| Text.SplitTwo | src/time_funcs.rs:112-116 | two separator-free fields joined by the separator split into exactly those two |
| Text.SplitThree | src/time_funcs.rs:112-116 | three separator-free fields joined by the separator split into exactly those three |
| Float.ParseF64Errors | src/time_funcs.rs:118-120 | the number parser fails only with Rust's two messages, and with the empty-string message exactly on empty text |
| Float.ParseDigits | src/time_funcs.rs:118-120 | a run of digits reads as its value |
| Float.ParseDecimal | src/time_funcs.rs:118-120 | digits, a point and digits read as the whole part plus the fraction |
| Float.ParseNegated | src/time_funcs.rs:118-120 | a leading minus negates what the rest reads as |
| TimeFuncs.SignedSns | src/time_funcs.rs:52-61 | the `sns` of a chrono or time duration: seconds times a billion plus nanoseconds is the duration, the nanoseconds lie strictly within one second and share the duration's sign |
| TimeFuncs.SignedSnsNegated | src/time_funcs.rs:52-77 | negating a duration negates both parts of its `sns` |
| TimeFuncs.SecondsOf | src/time_funcs.rs:52-77 | whole seconds plus nanoseconds over a billion is the duration in seconds |
| TimeFuncs.ToClock | src/time_funcs.rs:86-87 | minutes and seconds are below 60 and h*3600 + m*60 + sec is the input |
| TimeFuncs.ClockTextFields | src/time_funcs.rs:79-89 | `s2hhmmss` of s >= 0 is hh:mm:ss with minutes and seconds exactly two digits, hours at least two, all reading back as the clock fields |
| TimeFuncs.S2HhmmssNegative | src/time_funcs.rs:80-88 | a negative number of seconds prints as "-" followed by the text of its magnitude |
| TimeFuncs.Sms2HhmmsnnNegative | src/time_funcs.rs:94-98 | negative seconds negate both the seconds and the nanoseconds and put "-" in front |
| TimeFuncs.HhmmssNnExtends | src/time_funcs.rs:41-49 | for s >= 0 and 0 <= ns < 10^9 the long form is the short form, ".", and the nanoseconds as exactly nine digits; the short form ignores ns |
| TimeFuncs.S2HhmmssRoundTrip | src/time_funcs.rs:79-123 | `time_to_dec` reads `s2hhmmss(s)` back as exactly s for s >= 0 |
| TimeFuncs.Sms2HhmmsnnRoundTrip | src/time_funcs.rs:91-123 | `time_to_dec` reads `sms2hhmmsnn(s, ns)` back as exactly s + ns/10^9 for s >= 0, 0 <= ns < 10^9 |
| TimeFuncs.StdDurationRoundTrip | src/time_funcs.rs:63-69 | the two texts of a `std::time::Duration` read back as its whole seconds and as its exact value |
| TimeFuncs.TimeToDecFields | src/time_funcs.rs:111-123 | the format error occurs exactly when the text does not split on ':' into three fields; otherwise success exactly when all three parse, giving h*3600 + m*60 + s |
| TimeFuncs.TimeFromFields | src/time_funcs.rs:111-123 | three fields that parse give that many hours, minutes and seconds |
| TimeFuncs.ReadClock | src/time_funcs.rs:111-123 | x:y:z with numeric fields reads as x*3600 + y*60 + z |
| TimeFuncs.ReadClockError | src/time_funcs.rs:118-120 | of three fields, the first that does not parse gives the error |
| TimeFuncs.ReadTwoFields | src/time_funcs.rs:114-116 | two colon-separated fields are refused with the format message |
| TimeFuncs.TimeTooFewFields | src/time_funcs.rs:114-116 | "09:30" is refused with the format message |
| TimeFuncs.TimeBadField | src/time_funcs.rs:118-120 | "09:3x:01" is refused as an invalid number |
| TimeFuncs.TimeEmptyField | src/time_funcs.rs:118-120 | "09::01" is refused as an empty number |
| TimeFuncs.TimeToDecExample | src/time_funcs.rs:144-148 | "09:30:01.00005090000" reads as 34201.0000509 |
| TimeFuncs.ClockExamples | src/time_funcs.rs:79-89 | 0 seconds is 00:00:00 and 3661 seconds is 01:01:01 |
| TimeFuncs.HhmmssExample | src/time_funcs.rs:130-140 | a duration of 3661 s and 534100100 ns prints "01:01:01" and "01:01:01.534100100", and a chrono or time duration of the same length has the same `sns` |
| TimeFuncs.NegativeClockNotInverted | src/time_funcs.rs:79-123 | `time_to_dec` does not invert `s2hhmmss` on negative input: "-01:01:01" reads as -3539, not -3661 |
| TimeFuncs.HhmmssNnHalfSecondBefore | src/time_funcs.rs:91-109 | as written, a chrono or time duration of -0.5 s prints "00:00:00.-500000000", which `time_to_dec` refuses |
| TimeFuncs.Sms2HhmmsnnAgrees | src/time_funcs.rs:91-109 | the corrected printer differs from the one as written only when s = 0 and ns < 0 |
| TimeFuncs.SignedHhmmssnnNegated | src/time_funcs.rs:94-98 | with the sign taken from the whole duration, negating a positive duration only adds "-" in front |
| TimeFuncs.SignedHhmmssnnNegative | src/time_funcs.rs:94-98 | corrected: every negative chrono or time duration prints as "-" followed by the text of its magnitude |
| TimeFuncs.SignedHhmmssnnReadBack | src/time_funcs.rs:91-123 | corrected: the text of every non-negative duration reads back as its exact value |
| EventStructs.RoundHalfAway | src/event_structs.rs:69 | `f64::round`: the nearest whole second, within half a second, halves away from zero |
| EventStructs.SlotOf | src/event_structs.rs:69-70 | the bucket index and the offset rebuild the time exactly, and the offset is within half a second |
| EventStructs.Event.constructor | src/event_structs.rs:114-123 | one trade, tick count 1, totals equal to its price and volume; the running-total invariant holds |
| EventStructs.Event.Update | src/event_structs.rs:125-130 | the trade is appended at the end, its price and volume are added to the totals, the tick count grows by one, and the invariant tick_count = number of trades, totals = sums is kept |
| EventStructs.Event.GetVolume | src/event_structs.rs:134-136 | the running volume is the sum of the trades' volumes |
| EventStructs.InsertSorted | src/event_structs.rs:76 | inserting a new key into the ordered key set keeps exactly the old keys and the new one, in ascending order |
| EventStructs.Points | src/event_structs.rs:105-109 | a bucket yields one point per trade |
| EventStructs.PointsVolume | src/event_structs.rs:80-86 | the points of a bucket carry its trades' total volume |
| EventStructs.SeriesIgnores | src/event_structs.rs:73-77 | changing a bucket outside the walked keys does not change their series |
| EventStructs.SeriesExtend | src/event_structs.rs:73-74 | a trade added to an existing bucket adds one point and its volume to the series |
| EventStructs.SeriesInsert | src/event_structs.rs:75-76 | a trade opening a new bucket adds one point and its volume to the series |
| EventStructs.SeriesBuckets | src/event_structs.rs:103-111 | every point of the series lies in one of the buckets |
| EventStructs.SeriesOrdered | src/event_structs.rs:103-111 | the series is ordered by ascending bucket |
| EventStructs.SeriesArrival | src/event_structs.rs:103-111 | within the series the points of each bucket are exactly its trades, in arrival order |
| EventStructs.PointTime | src/event_structs.rs:69-70 | a trade's point carries the very time it was recorded at, and the trade lies in its bucket |
| EventStructs.EventList.constructor | src/event_structs.rs:63-67 | a new list has no buckets |
| EventStructs.EventList.Update | src/event_structs.rs:68-78 | the trade is appended to the bucket its time rounds to, which is created if missing; every other bucket keeps its trades; the series grows by one point and its volume by the trade's |
| EventStructs.EventList.AddToBucket | src/event_structs.rs:73-74 | only bucket k changes: the trade is appended to it |
| EventStructs.EventList.OpenBucket | src/event_structs.rs:75-76 | a new bucket with the one trade is inserted in key order; the others are untouched |
| EventStructs.EventList.GetVolume | src/event_structs.rs:80-86 | the sum of the buckets' totals equals the volume of all recorded trades |
| EventStructs.EventList.GetEventCount | src/event_structs.rs:96-102 | the sum of the tick counts equals the number of points in the time series, i.e. of trades recorded |
| EventStructs.EventList.GetTimeSeries | src/event_structs.rs:103-111 | the series in ascending bucket order, and within each bucket exactly its trades in arrival order |
| EventStructs.TwoTradesInFirstSecond | src/event_structs.rs:155-161 | two trades in the first second leave exactly one bucket |
| EventStructs.TradeTwentySecondsLater | src/event_structs.rs:164-171 | a trade of 5 twenty seconds later opens a second bucket and the volume goes from 2 to 7 |
| EventStructs.EventListScenario | src/event_structs.rs:144-171 | one bucket after two trades in one second, volume 2, then 7 |
| EventStructs.TwoPricedTrades | src/event_structs.rs:172-178 | two trades priced 6.0 and 12.0 land in one bucket in arrival order |
| EventStructs.ThreeTradesInFirstSecond | src/event_structs.rs:181-188 | three trades in one second land in one bucket in arrival order |
| EventStructs.TimeSeriesScenario | src/event_structs.rs:181-188 | the three trades come out of the series at their own times, prices and volumes, in arrival order |
| Parsing.DispatchErrors | src/general/parsing.rs:80-119 | a line is an error exactly when its kind is unknown (with "unknown message type"), its trade does not decode (the decoder's error) or the event update fails |
| Parsing.DispatchAccepts | src/general/parsing.rs:97-108 | the trade statistics take a trade exactly when the line is a trade that decodes and is neither an official open/close print nor an MCO/MCCT trade; then the event statistics get it, and the symbol statistics too unless the event update failed |
| Parsing.DispatchQuiet | src/general/parsing.rs:89-117 | status lines, undecodable trades, excluded trades and unknown lines change nothing but the message count; only symbol mappings register symbols |
| Parsing.Stats.constructor | src/nyse/base_funcs.rs:110-115 | empty counters and no calls on the event or symbol statistics |
| Parsing.Stats.ProcessLine | src/general/parsing.rs:80-119 | every line's kind is counted first; the result, the event and symbol calls and the trade counters are those of the dispatch, and trade counters change only for an accepted trade |
| Parsing.SymbolLine | src/general/parsing.rs:89-93 | a type-3 line registers its third token with the event and symbol statistics |
| Parsing.OrdinaryTradeLine | src/general/parsing.rs:106-108 | an ordinary trade reaches the trade, event and symbol statistics |
| Parsing.OpeningPrintLine | src/general/parsing.rs:100-102 | an official opening print is dropped after being counted |
| Parsing.UnknownLine | src/general/parsing.rs:115-117 | a line of kind 0 is refused with "unknown message type" |
| Parsing.ProcessLineScenario | src/general/parsing.rs:80-119 | a symbol mapping, an ordinary trade, an opening print and an unknown line: all counted, one trade of 100 shares taken, the unknown line an error |

## Left out

- Floating point. Trade times are exact integer nanoseconds since midnight and prices are the already scaled integers. The f64 seconds of `EventList::update` and `get_time_series` are not modelled, nor is the `f32` × 10000 price scaling and its truncating cast back (src/event_structs.rs:69-72, 107). The bucket rounding `f64::round` is modelled exactly, as round half away from zero.
- `get_average_price`, `Event::get_avg_price` and the running `avg_price` of `TradeStats`: float averages, not modelled. `TradeStats.Add` takes only the symbol and the volume.
- Float.ParseF64: models `str::parse::<f64>` on plain decimal text only. Exponents, `inf`/`nan` and the f64 rounding of the result are not modelled, and the value is an exact real. So `time_to_dec` is exact here where the source rounds.
- Integer widths: the i32 totals of `Event` and the i64 seconds of the time functions are unbounded integers. Overflow, which the source does not check, is not modelled.
- The `Hhmmss` impls for `chrono::Duration`, `time::Duration` and `std::time::Duration` are wrappers around other crates. They are reduced to the `(s, ns)` pair each reports: `SignedSns` for the first two, `StdSns` for the third.
- The file driver `read_lines`/`proc_file` (progress bar, `exit(1)` on the first error) is I/O and is not part of this model.
- `T220::new`, `NYSEMsg::get`, `event_stats` and `symbol_stats` are not part of this model:
  - the trade decoder is a parameter of `process_line`;
  - `NYSEMsg::get` is read as `get_msg_type`;
  - the event and symbol statistics are call logs, with the event update's outcome as a parameter.
- Parsing.Stats.ProcessLine requires a type-3 line to have a third token. `process_line` panics on `tokens[2]` otherwise, and the panic is not modelled.
- Tests not followed: the test expecting "202" to be read as T220 (src/nyse/base_funcs.rs:127) contradicts the code, and the code is followed. The literal `34_250.22K` in the second time-series test (src/event_structs.rs:198) is not valid Rust, so that test is not modelled.
- DataTypes.SecurityTypeMap.constructor: does not state that the table has 17 entries, nor DataTypes.SSRTExIDMap.constructor that it has 19. The keys are characterised exactly through `Get` and the decoder instead.
- The bucket of a trade is its time since the open rounded to the nearest second, as the code computes it (`round`), not truncated: a bucket spans from half a second before its second to half a second after.

## Findings

| source | as written | input that shows it | evidently intended | confidence | as-written member | corrected member |
|---|---|---|---|---|---|---|
| src/nyse/data_types.rs:63-64 | key 3 is inserted twice (NYSE Arca Equities, then NYSE Arca Options), so the second insert wins and key 4 is never filled | `get(3)` gives NYSE Arca Options and `get(4)` gives None, while the type-3 decoder reads "3" as NYSE Arca Equities and "4" as NYSE Arca Options | NYSE Arca Options under key 4, as `get_market_id` reads the codes | not executed | DataTypes.T3MarketTableDisagrees | DataTypes.MarketTableAgrees |
| src/time_funcs.rs:91-98 | `sms2hhmmsnn` decides the sign from the whole seconds alone | a chrono or time duration of -0.5 s has s = 0 and ns = -500000000 and prints "00:00:00.-500000000", which `time_to_dec` refuses as an invalid number | the sign is taken from the whole duration: "-00:00:00.500000000" | not executed | TimeFuncs.HhmmssNnHalfSecondBefore | TimeFuncs.SignedHhmmssnnReadBack |
