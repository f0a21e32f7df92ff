# ibtop metrics and history engine, in Dafny

ibtop is a terminal monitor for InfiniBand adapters. Each poll it reads the
cumulative counters of every port from sysfs and turns successive snapshots into
per-second rates. It keeps a bounded history of those rates for every port and
draws a table with sparklines and utilisation bars. This project models the
engine behind that screen and proves its properties:

- **Text** (`text.dfy`) covers the pieces of Rust's standard string handling the
  core relies on:
  - `str::trim` over Unicode White_Space;
  - `str::find` for one character;
  - `str::parse` of an unsigned integer;
  - the decimal `Display` of an unsigned integer.
- **Types** (`types.dfy`) covers:
  - `PortState` with its `Display` and its never-failing `FromStr`;
  - the default `PortCounters`;
  - the `"adapter:port"` key, shown to be injective.
- **History** (`history.dfy`) covers:
  - `RingBuffer<T>`, a class over an array with a write cursor and a length,
    proved against a ghost `Contents` sequence. Its specification is the
    window of the newest `capacity` values, oldest first.
  - `PortHistory`, five buffers that are always advanced together;
  - `normalize_for_sparkline`, which quantises a series into eight levels;
  - the combined, peak and average throughput queries;
  - `HistoryCollector`, a map from port keys to histories.
- **Metrics** (`metrics.dfy`) covers `MetricsCollector`:
  - `update` is the nested loop over adapters and ports. It is proved equal
    to a fold (`UpdateSpec`) over the flattened list of readings, followed by
    a purge.
  - `calculate_rates` covers the zero-interval guard, the saturating deltas
    and the error rate over summed counters.
  - Lemmas state what one poll does to a port seen for the first time and to
    a port seen again.
- **Discovery** (`discovery.dfy`) covers the text logic of the sysfs reader:
  - state text after the first colon;
  - rate text before the first '(';
  - counters that parse or read as zero, with the ×4 multiplier on the two
    data counters;
  - the counter-file-to-field map;
  - the u16 filter on port directory names;
  - adapters sorted by name.

  The directory tree is given as a value (`AdapterDir`, maps from file names
  to their text).
- **Ui** (`ui.dfy`) covers:
  - the `AppState` selection state machine, which skips adapter header rows
    and cycles the tab index modulo 3;
  - `format_bytes`;
  - the inline sparkline, the utilisation bar and rate truncation.

How the Rust program's quantities are represented:

- Rates are `real`.
- `f64::round` is rounded half away from zero.
- `as u64` and `as usize` casts of a float saturate.
- An `Instant` is a count of nanoseconds.
- `duration_since` saturates at zero.

In `format_bytes`, the digit after the point comes from the ten bits just below
the chosen unit (src/ui.rs:735-737). From MB upwards it can therefore be one
less than the value truncated to tenths. `Ui.FormatBytesDropsLowBits` shows
1,153,624 bytes printed as "1.0MB" while the value is 1.1002 MB.
`Ui.FormatBytesExact` is a reference formatter with the exact digit. The two
agree in the KB range (`Ui.KilobytesAgree`). The model of `format_bytes` itself
follows the code as written.

## Model

| member | source | states |
|---|---|---|
| Text.Trim | src/types.rs:24 | the trim is an infix of the input with only whitespace around it and none at either of its ends |
| Text.TrimOfUnique | src/types.rs:24 | two trims of the same text are equal, so the trim is determined by the text |
| Text.TrimIdempotent | src/discovery/mod.rs:70-75 | trimming trimmed text changes nothing |
| Text.TrimIgnoresPadding | src/types.rs:24 | whitespace added at either end never changes the trim |
| Text.Find | src/discovery/mod.rs:74 | None exactly when the character is absent; otherwise the index of its first occurrence |
| Text.NatToString | src/metrics.rs:58 | the decimal form is a non-empty digit string without a leading zero |
| Text.DigitsOfNatToString | src/metrics.rs:58 | reading the decimal form back gives the number |
| Text.ParseUnsigned | src/discovery/mod.rs:37 | a parsed value never exceeds the integer type's maximum |
| Text.ParseDisplayRoundTrip | src/discovery/mod.rs:118 | parsing the decimal form of a number that fits gives the number back |
| Text.ParseRejects | src/discovery/mod.rs:118 | empty text, a '-' sign, a lone '+' or a non-digit never parses |
| Types.DefaultPortState | src/types.rs:4-10 | the default state is Unknown |
| Types.StateToString | src/types.rs:11-19 | every displayed state is trimmed text of at least four characters |
| Types.ParseState | src/types.rs:21-30 | parsing never fails; it gives Active exactly when the trim is "ACTIVE", Down exactly when it is "DOWN", and Unknown for anything else |
| Types.DisplayParseRoundTrip | src/types.rs:11-30 | parsing the displayed form gives back each of the three states |
| Types.ParseStateIgnoresPadding | src/types.rs:24 | leading and trailing whitespace never changes the parse |
| Types.DefaultCounters | src/types.rs:46-55 | all seven counters of the default are zero |
| Types.PortKeyInjective | src/metrics.rs:58 | two ports with the same "adapter:port" key have the same adapter and port |
| Types.TrailingDigitsOfKey | src/metrics.rs:58 | the key ends in exactly the digits of the port number after its last ':' |
| History.PushesKeepNewest | src/history.rs:37-41 | after any sequence of pushes the buffer holds min(#pushes, capacity) values, the newest ones, oldest first |
| History.WindowOfNewest | src/history.rs:37-41 | pushing onto the newest window of a series gives the newest window of the extended series |
| History.OverflowEvictsOldest | src/history.rs:304-316 | capacity 3 pushed with 1, 2, 3, 4 holds [2, 3, 4] |
| History.LastNAfterWrapAround | src/history.rs:333-345 | capacity 5 pushed with 1..10 gives last_n(3) = [8, 9, 10] and last_n(10) = [6..10] |
| History.RingBuffer.constructor | src/history.rs:27-34 | a fresh buffer of the given capacity over fresh storage holds nothing |
| History.RingBuffer.Push | src/history.rs:37-41 | the buffer keeps its invariant (cursor below capacity, length at most capacity) and its contents become the newest window of the old contents plus the value |
| History.RingBuffer.Len | src/history.rs:44-46 | the number of values held |
| History.RingBuffer.IsEmpty | src/history.rs:49-51 | true exactly when nothing is held |
| History.RingBuffer.Last | src/history.rs:54-64 | None exactly when empty, otherwise the newest value |
| History.RingBuffer.SlotsByModulo | src/history.rs:74-76 | the i-th oldest value sits at slot (start + i) mod capacity |
| History.RingBuffer.Iter | src/history.rs:67-78 | yields exactly the values held, oldest to newest |
| History.RingBuffer.LastN | src/history.rs:81-85 | the final min(n, len) values held, in order |
| History.RingBuffer.ToVec | src/history.rs:88-90 | the values held, oldest first |
| History.RingBuffer.Clear | src/history.rs:93-96 | cursor and length become 0, nothing is held, capacity and storage are unchanged |
| History.RingBuffer.Capacity | src/history.rs:99-101 | the fixed capacity, never below the number held |
| History.PeakOf | src/history.rs:198 | the fold of f64::max from 0 is at least 0, at least every element, and is 0 or one of the elements |
| History.LevelBounds | src/history.rs:205 | a sample at most the maximum gets a level of at most 7; the maximum gets 7 and 0 gets 0 |
| History.LevelMonotone | src/history.rs:205 | a larger sample never gets a lower level |
| History.NormalizeForSparkline | src/history.rs:192-207 | output as long as the input, every level at most 7, all zeros when the maximum is at most 0, otherwise each sample's rounded share of the maximum times 7 |
| History.SparklineLevels | src/history.rs:192-207 | the maximum maps to 7, a 0 maps to 0, and levels keep the order of the samples |
| History.SparklineExample | src/history.rs:359-366 | [0, 50, 100, 25, 75] normalises to [0, 4, 7, 2, 5] |
| History.ZipSum | src/history.rs:155 | zipping sums the two series pairwise and stops at the shorter one |
| History.RecordSampleInStep | src/history.rs:132-138 | recording keeps the five channels of equal length within capacity, grows them by one up to capacity, and makes the recorded values their newest |
| History.SumAtMostPeak | src/history.rs:175-182 | a series sums to at most its length times its peak |
| History.CombinedSparklineShape | src/history.rs:151-157 | the combined sparkline is as long as the shorter of the two last_n series and levels each rx+tx sum against the peak of the summed series |
| History.PeakThroughputOf | src/history.rs:160-172 | the peak is at least 0 and at least every rx value plus every tx value |
| History.AvgAtMostPeak | src/history.rs:175-182 | with channels in step the average throughput never exceeds the peak throughput |
| History.PortHistory.WithCapacity | src/history.rs:121-129 | five empty buffers of the given capacity over fresh storage |
| History.PortHistory.Record | src/history.rs:132-138 | each channel gets exactly one push of its own value and the five stay in step |
| History.PortHistory.CombinedSparklineData | src/history.rs:151-157 | the combined sparkline of the channels; its length is min(samples, len) |
| History.PortHistory.RxSparklineData | src/history.rs:141-143 | the normalised last samples of the rx channel |
| History.PortHistory.TxSparklineData | src/history.rs:146-148 | the normalised last samples of the tx channel |
| History.PortHistory.PeakThroughput | src/history.rs:160-172 | the sum of the rx and tx folds of f64::max |
| History.PortHistory.AvgThroughput | src/history.rs:175-182 | the average throughput of the channels, never above the peak throughput |
| History.RecordIntoKeys | src/history.rs:246-258 | recording adds only the recorded key, so the count grows by at most one, and no other history changes |
| History.RecordIntoInStep | src/history.rs:246-258 | recording keeps every history in step and makes the sample's rx, tx, rx-packet, tx-packet and error rates the newest value of the port's five channels |
| History.RetainKeysSpec | src/history.rs:261-268 | the kept keys are the old keys intersected with the active keys, the kept histories are untouched, and retaining again changes nothing |
| History.RetainKeysInStep | src/history.rs:261-268 | retaining keeps the remaining histories in step |
| History.HistoryCollector.New | src/history.rs:218-220 | no histories and the default capacity of 120 |
| History.HistoryCollector.WithCapacity | src/history.rs:223-228 | no histories and the given capacity |
| History.HistoryCollector.GetOrCreate | src/history.rs:231-236 | the key's history is created empty only when missing, every other entry stays as it was, and the key's history is returned |
| History.HistoryCollector.Get | src/history.rs:239-242 | Some exactly when the key is tracked, with its history; the map is only read |
| History.HistoryCollector.Record | src/history.rs:246-258 | the port's history, created when missing, gets one sample |
| History.HistoryCollector.RetainPorts | src/history.rs:261-268 | only histories whose key is the key of an active port remain |
| History.HistoryCollector.PortCount | src/history.rs:276-278 | the number of tracked keys |
| History.RecordedThree | src/history.rs:396-405 | recording ports mlx5_0:1, mlx5_0:2 and mlx5_1:1 tracks exactly those three keys |
| History.ScenarioKeys | src/history.rs:406-412 | the three test keys are distinct and the active list names the first and last |
| History.RingBufferBasicScenario | src/history.rs:285-300 | a new buffer of capacity 3 is empty with length 0; after pushing 1, 2, 3 it is not empty, has length 3 and iterates as [1, 2, 3] |
| History.RingBufferOverflowScenario | src/history.rs:303-315 | pushing 1, 2, 3, 4 into capacity 3 leaves length 3 and the values [2, 3, 4]; clearing then leaves no values and capacity 3 |
| History.RingBufferLastScenario | src/history.rs:318-330 | with capacity 5, last is None at first, 10 after pushing 10, and 30 after pushing 20 and 30 |
| History.PortHistoryRecordScenario | src/history.rs:347-356 | two samples recorded into a history of capacity 10 leave two values in the rx and tx byte channels |
| History.HistoryCollectorBasic | src/history.rs:382-393 | after recording ports mlx5_0:1 and mlx5_0:2 the collector tracks 2 ports, has both, and has no mlx5_1:1 |
| History.HistoryCollectorRetain | src/history.rs:395-412 | three recorded ports give a count of 3; retaining the active mlx5_0:1 and mlx5_1:1 leaves 2, keeping those two and dropping mlx5_0:2 |
| Metrics.DefaultMetrics | src/metrics.rs:16-25 | all five rates of the default are zero |
| Metrics.SaturatingSub | src/metrics.rs:107-110 | zero when the counter went down, otherwise the exact difference |
| Metrics.Seconds | src/metrics.rs:101 | the interval in seconds is non-negative, zero exactly for a zero interval, and is the nanoseconds over 10^9 |
| Metrics.ElapsedNanos | src/metrics.rs:47-50 | one second on the first poll, otherwise the time since the last poll, saturating at zero |
| Metrics.PerSecond | src/metrics.rs:116-122 | a non-negative rate that times the interval gives the delta; a zero delta gives a zero rate |
| Metrics.CalculateRates | src/metrics.rs:96-123 | all zero for a zero interval; otherwise every rate times the interval is its saturating delta, the error rate being taken over the summed rx and tx errors; no rate is negative |
| Metrics.RegressionClampsOnlyThatField | src/metrics.rs:107-110 | a counter that went down yields a zero rate for that field and leaves every other rate unchanged |
| Metrics.ErrorRateUsesSums | src/metrics.rs:112-114 | errors (5, 5) then (12, 0) over one second give an error rate of 2, not 7 |
| Metrics.Readings | src/metrics.rs:56-57 | when every port's error sum fits u64, so does that of every flattened (adapter, port) reading |
| Metrics.PollPort | src/metrics.rs:58-81 | one port's step keeps every stored baseline's error sum within u64 |
| Metrics.PollAll | src/metrics.rs:56-83 | the loop over all readings keeps every stored baseline's error sum within u64 |
| Metrics.PollSnoc | src/metrics.rs:56-83 | polling one more reading is one more port step, and adds its key and its active pair |
| Metrics.ActiveKeysOfPairs | src/metrics.rs:58-60 | the keys of the active pairs are the keys collected in the loop |
| Metrics.PollPortKeys | src/metrics.rs:62-81 | a port step adds exactly the port's key to the baselines, and the keys of rates and histories stay among the baseline keys |
| Metrics.PollAllKeys | src/metrics.rs:56-83 | after the loop the baseline keys are the old keys plus this poll's keys |
| Metrics.UpdateKeys | src/metrics.rs:56-90 | after an update the baseline keys are exactly this poll's keys, and the keys of the rates and of the histories are among them |
| Metrics.PollAllOtherKeys | src/metrics.rs:56-83 | a port absent from the poll keeps its baseline, rates and history through the loop |
| Metrics.PollAllAppend | src/metrics.rs:56-83 | polling two lists of readings one after the other is polling their concatenation |
| Metrics.SplitAt | src/metrics.rs:56-83 | a port read once is handled by exactly one step between the readings before and after it |
| Metrics.FirstSightSetsBaseline | src/metrics.rs:62-81 | a port without a baseline gets its counters as baseline, and no rate and no history sample |
| Metrics.SecondSightRecordsRates | src/metrics.rs:62-81 | a port with a baseline gets the calculated rates; the same rates become its newest history sample, and its counters become the baseline |
| Metrics.MetricsCollector.constructor | src/metrics.rs:37-44 | empty maps, no last collection, and an empty history of the default capacity |
| Metrics.MetricsCollector.UpdatePort | src/metrics.rs:58-81 | the collector's maps become one port step of the specification |
| Metrics.MetricsCollector.Update | src/metrics.rs:46-93 | the maps become the fold of port steps over this poll's readings, purged to this poll's keys, with the elapsed time of ElapsedNanos; the last collection becomes now |
| Metrics.MetricsCollector.Purge | src/metrics.rs:85-90 | baselines, rates and histories keep only this poll's keys |
| Metrics.MetricsCollector.GetMetrics | src/metrics.rs:125-128 | Some exactly when the port has rates, with those rates |
| Metrics.MetricsCollector.GetHistory | src/metrics.rs:131-137 | the history collector's answer for the port |
| Metrics.TwoSecondRates | src/metrics.rs:116-122 | 2000 rx bytes, 1000 tx bytes and 10 rx packets over two seconds give rates of 1000, 500 and 5 |
| Metrics.SinglePortFirstPoll | src/metrics.rs:62-81 | a single new port ends with only its baseline |
| Metrics.SinglePortSecondPoll | src/metrics.rs:62-81 | a single known port ends with its new baseline, its rates and one history sample of those rates |
| Metrics.TwoPollExample | src/metrics.rs:46-93 | two polls one and two seconds apart give the baseline first, then the rates and one history sample |
| Metrics.EmptyPollPurges | src/metrics.rs:85-90 | a poll with no adapters leaves every map empty |
| Discovery.StateText | src/discovery/mod.rs:66-78 | the state text is trimmed |
| Discovery.ReadPortState | src/discovery/mod.rs:66-81 | a `state` file that cannot be read gives Unknown |
| Discovery.StateTextOf | src/discovery/mod.rs:74-75 | "n: NAME\n" gives NAME |
| Discovery.StateFileRoundTrip | src/discovery/mod.rs:66-81 | a state file "n: STATE\n" reads as that state |
| Discovery.StateWithoutColon | src/discovery/mod.rs:76-77 | text without a colon is parsed whole |
| Discovery.ReadPortRate | src/discovery/mod.rs:83-97 | the rate text is trimmed and holds no '(' |
| Discovery.RateDropsDetail | src/discovery/mod.rs:92-93 | "RATE (DETAIL)\n" reads as RATE |
| Discovery.RateWithoutDetail | src/discovery/mod.rs:94-95 | text without '(' reads as its trim |
| Discovery.RateExample | src/discovery/mod.rs:83-97 | "100 Gb/sec (4X EDR)\n" reads as "100 Gb/sec" |
| Discovery.CounterText | src/discovery/mod.rs:117-119 | the value read always fits u64 |
| Discovery.CounterRoundTrip | src/discovery/mod.rs:116-126 | a number padded with whitespace reads back as itself, times 4 just for port_rcv_data and port_xmit_data |
| Discovery.CounterGarbageIsZero | src/discovery/mod.rs:117-119 | a missing file or one whose trim does not parse as u64 reads as 0 |
| Discovery.ReadPortCounters | src/discovery/mod.rs:99-114 | the counters filled field by field equal the counters of the directory |
| Discovery.SysfsCountersFiles | src/discovery/mod.rs:104-110 | each of the seven counter files holds its number, and only the two data files are data counters |
| Discovery.CounterFileRoundTrip | src/discovery/mod.rs:116-126 | a counter file holding a number and newline reads back as the number, times 4 for the data counters |
| Discovery.CountersRoundTrip | src/discovery/mod.rs:99-114 | the seven files map to the seven fields, with port_xmit_discards to tx_errors and port_rcv_constraint_errors to rx_dropped |
| Discovery.NoCountersDirectory | src/discovery/mod.rs:101-103 | no counters directory gives all-zero counters |
| Discovery.PortDirOf | src/discovery/mod.rs:53 | a port's directory never holds data counters too large to multiply |
| Discovery.CreatePortInfo | src/discovery/mod.rs:52-64 | the port's number with its state, rate and counters as read from its directory |
| Discovery.PortOfEntry | src/discovery/mod.rs:37 | an entry is a port exactly when it parses as u16, with that value |
| Discovery.PortNumbers | src/discovery/mod.rs:35-42 | no more port numbers than directory entries |
| Discovery.PortNumbersSnoc | src/discovery/mod.rs:35-42 | one more entry adds its number exactly when it parses |
| Discovery.PortNumbersComplete | src/discovery/mod.rs:35-42 | a number is listed exactly when some entry parses to it |
| Discovery.EntryExamples | src/discovery/mod.rs:37 | "1", "2" and "+3" are ports; "lo" and "65536" are not |
| Discovery.PortNumbersExample | src/discovery/mod.rs:35-42 | entries 1, 2, lo, 65536, +3 give ports [1, 2, 3] |
| Discovery.PortsForSnoc | src/discovery/mod.rs:35-42 | one more port number adds its port information |
| Discovery.LeadingZeroReadsOtherDirectory | src/discovery/mod.rs:37-38 | entry "01" becomes port 1, and its information is read from directory "1", so an adapter whose only entry is "01" gets one port with Unknown state, empty rate and zero counters |
| Discovery.CreateAdapterInfo | src/discovery/mod.rs:29-50 | the adapter's name with a port for each entry that parses as u16, in entry order |
| Discovery.NameLeTotal | src/discovery/mod.rs:24 | any two names are ordered one way or the other |
| Discovery.InsertByName | src/discovery/mod.rs:24 | insertion adds exactly the one adapter |
| Discovery.InsertSorted | src/discovery/mod.rs:24 | inserting into a name-sorted list keeps it sorted |
| Discovery.SortByName | src/discovery/mod.rs:24 | the sorted list is a permutation of the input, ordered by name |
| Discovery.DiscoverAdapters | src/discovery/mod.rs:7-27 | no adapters when the root cannot be read; otherwise one adapter per entry, sorted by name and a permutation of the entries |
| Ui.SkipUp | src/ui.rs:58-60 | the loop stops at row 0 or on a port row, having passed only header rows |
| Ui.PrevRow | src/ui.rs:54-62 | from row 0 nothing moves; otherwise the row decreases and lands on row 0 or a port row, passing only header rows |
| Ui.SkipDown | src/ui.rs:69-73 | the loop stops on the last row or on a port row, having passed only header rows |
| Ui.NextRow | src/ui.rs:65-75 | on the last row nothing moves; otherwise the row increases, never past the last row, and lands on the last row or a port row, passing only header rows |
| Ui.PortRows | src/ui.rs:116-119 | one row Some((adapter, port)) per port, in order |
| Ui.RowsSnoc | src/ui.rs:114-120 | each adapter adds a header row followed by its port rows |
| Ui.RowsShape | src/ui.rs:113-120 | one row per adapter plus one per port, a header first, and a port row exactly for every listed port |
| Ui.UpdatedRow | src/ui.rs:121-134 | below the row count when there are rows (0 otherwise), on the last row or a port row, and never before the old row when that row was in range |
| Ui.NextTabOf | src/ui.rs:99-101 | the next tab is below 3, one up, wrapping from 2 to 0 |
| Ui.PrevTabOf | src/ui.rs:104-110 | the previous tab is below 3 and one down for tabs 1 and up |
| Ui.TabCycle | src/ui.rs:860-875 | three next_tab calls return to the start, and prev_tab and next_tab undo each other |
| Ui.AppState.constructor | src/ui.rs:48-51 | row 0, detail closed, tab 0 and no rows |
| Ui.AppState.IsHeaderRow | src/ui.rs:78-83 | true exactly for rows past the end and for header rows |
| Ui.AppState.SelectPrev | src/ui.rs:54-62 | the selected row becomes PrevRow of the old row, and nothing else changes |
| Ui.AppState.SelectNext | src/ui.rs:65-75 | the selected row becomes NextRow of the old row, and nothing else changes |
| Ui.AppState.ToggleDetail | src/ui.rs:86-88 | the detail flag flips, and nothing else changes |
| Ui.AppState.SelectedPort | src/ui.rs:91-96 | Some exactly when the row is in range and not a header, with that row's port |
| Ui.AppState.NextTab | src/ui.rs:99-101 | the tab becomes the next tab, and nothing else changes |
| Ui.AppState.PrevTab | src/ui.rs:104-110 | the tab becomes the previous tab, and nothing else changes |
| Ui.AppState.UpdateSelectableItems | src/ui.rs:112-135 | the rows become the header and port rows of the adapters, and the selection moves to UpdatedRow |
| Ui.NavigationExample | src/ui.rs:825-845 | from row 1, select_next gives 2, then skips the header at 3 to reach 4, then select_prev gives 2 |
| Ui.AppStateNavigation | src/ui.rs:824-845 | on the test's rows, an AppState at row 1 selects row 2, then skips the header to row 4, then goes back to row 2 |
| Ui.AppStateToggleDetail | src/ui.rs:847-857 | a new AppState starts with the detail view closed; one toggle opens it and a second closes it |
| Ui.AppStateTabCycling | src/ui.rs:859-875 | from tab 0, next_tab gives 1, 2 and wraps to 0, and prev_tab from 0 wraps to 2 |
| Ui.PrevFromFirstPortSelectsHeader | src/ui.rs:54-62 | from the first port row select_prev lands on the header row 0, which the loop does not skip |
| Ui.UnitOf | src/ui.rs:726-729 | the unit index is below 6, the count reaches the unit, and is below the next unit unless the unit is PB |
| Ui.UnitOfUnique | src/ui.rs:726-729 | there is only one such unit |
| Ui.FormatBytes | src/ui.rs:722-739 | the loop's text equals FormatBytesOf |
| Ui.FormatBytesBounds | src/ui.rs:726-729 | at most five divisions; the shown integer is below 1024 unless the unit is PB, and at least 1 for units past B |
| Ui.TenthAsWritten | src/ui.rs:735-736 | the digit after the point is between 0 and 9 |
| Ui.BelowOneKilobyte | src/ui.rs:731-732 | below 1024 the count is printed with the unit B and no point |
| Ui.FormatBytesBytes | src/ui.rs:763-765 | 0 gives "0B" and 1023 gives "1023B" |
| Ui.FormatBytesKilobytes | src/ui.rs:766-767 | 1024 and 1025 give "1.0KB" |
| Ui.FormatBytesOfPower | src/ui.rs:722-739 | every power 1024^k from KB to PB prints as "1.0" and its unit |
| Ui.FormatBytesLargerUnits | src/ui.rs:768-771 | 1024^2 through 1024^5 give "1.0MB", "1.0GB", "1.0TB" and "1.0PB" |
| Ui.ExactShowsTenths | src/ui.rs:733-737 | by the reference digit, value.digit is the count in the unit truncated to tenths |
| Ui.KilobytesAgree | src/ui.rs:733-737 | in KB the formatter's digit is the exact truncated tenth |
| Ui.FormatBytesDropsLowBits | src/ui.rs:735-737 | from MB upwards the digit can be one short of the exact tenth: 1,153,624 bytes print as "1.0MB" |
| Ui.RenderInlineSparkline | src/ui.rs:674-684 | one glyph per level, levels above 7 clamped to the full block |
| Ui.SparklineOrder | src/ui.rs:674-684 | for levels 0..7, glyphs keep the order of the levels |
| Ui.SparklineExample | src/ui.rs:789-800 | levels 0..7 give the eight glyphs in order, and no levels give "" |
| Ui.RendersNormalizedLevels | src/history.rs:192-207 | every normalised level renders as its own glyph, one per sample |
| Ui.FilledCells | src/ui.rs:688-689 | the filled count never exceeds the width |
| Ui.ScaledMonotone | src/ui.rs:688 | a larger percentage never scales lower |
| Ui.RenderUtilizationBar | src/ui.rs:687-694 | exactly width cells: full blocks for the filled cells, light shading for the rest |
| Ui.BarMonotone | src/ui.rs:687-694 | a larger percentage never fills fewer cells |
| Ui.BarEnds | src/ui.rs:687-694 | 0 % or less fills nothing and 100 % or more fills the whole width |
| Ui.BarExample | src/ui.rs:816-822 | 50 % of 10 cells fills 5 and shows both glyphs |
| Ui.TruncateRate | src/ui.rs:711-719 | the truncated rate is trimmed and holds no '(' |
| Ui.TruncateRateAgrees | src/ui.rs:711-719 | the text before the first '(', trimmed; the same as the sysfs rate reader gives |
| Ui.TruncateRateExamples | src/ui.rs:810-813 | "100 Gb/sec (4X EDR)" gives "100 Gb/sec" and "200 Gb/sec" stays |

## Left out

- I/O: the file reads, `read_dir`, `exists` and the `INFINIBAND_PATH` variable (src/discovery/mod.rs:10-15). The sysfs tree is a value: an optional list of entries and maps from file names to their text. An unreadable file is `None`.
- Directory entries whose names are not UTF-8 are skipped by the source (src/discovery/mod.rs:18, 36). Names here are strings, so these entries do not arise.
- `Instant::now()` becomes the parameter `now`, in nanoseconds. The elapsed time is passed in nanoseconds.
- IEEE f64 is not modelled: no NaN, infinities or rounding error. Rates are `real`. `f64::round` rounds half away from zero. The `as u64` and `as usize` casts saturate.
- Latent u64 overflow is a precondition, not wrapping:
  - the error sums at src/metrics.rs:112-113 must fit (`ErrorsFit`) whenever the interval is non-zero, the only case in which `CalculateRates` forms them;
  - the ×4 multiply at src/discovery/mod.rs:122 must fit (`CounterFits`, `DataFits`).
- History.RingBuffer.Push: requires capacity ≥ 1, because ibtop's `% self.capacity` panics on an empty buffer (src/history.rs:38-39).
- History.HistoryCollector: the collector holds each port's history as its channel contents (`Channels`), not as a `PortHistory` object with five buffers. The update in place of one port's buffers through the map is therefore not modelled. `PortHistory` and `RingBuffer` model those buffers on their own.
- `HistoryCollector::keys` (src/history.rs:271-273) is covered by the `histories` map's key set. `PortHistory::new` and its `Default` (src/history.rs:116-118, 185-189) are `WithCapacity(DEFAULT_HISTORY_SIZE)`.
- AppState's `scroll_offset` and `frame_count` (src/ui.rs:39-43) are not used by any modelled operation.
- The `parts.is_empty()` branch of `truncate_rate` (src/ui.rs:714-715) cannot be taken, because `split` always yields at least one part.
- Discovery.SortByName: does not state that the sort is stable. Adapters with equal names can come out in either order, whereas `sort_by` keeps their input order.
- Not part of this model:
  - all terminal rendering (`draw` and its helpers);
  - the float formatters `format_bytes_per_sec`, `auto_scale_throughput`, `parse_max_rate` and `calculate_totals`;
  - src/simulation.rs and src/discovery/fake.rs (random noise and global atomics);
  - src/main.rs (terminal setup, the event loop, JSON output).
