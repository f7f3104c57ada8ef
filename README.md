# ducktrace core, modelled in Dafny

ducktrace reads an application log line by line. It extracts a timestamp, a
level and a message from each line with a configured pattern and keeps the
records in an in-memory table. Then, for each configured event, it reads the
records back in timestamp order. It collects the instants whose message
matches the event's start pattern and those matching its end pattern. It pairs
them by position, prints each duration and prints the average.

This project models that pipeline:

- `records.dfy` (module `Records`) holds the log record and the instants.
  It also holds the library calls the core makes: regexp submatch search,
  regexp match and `time.Parse`. These are function-valued parameters
  bundled in `Libraries`.
  The table's `ORDER BY timestamp` read-back is `OrderByTimestamp`, a sort
  that is proved to be ordered and a permutation.
- `line_parser.dfy` (module `LineParser`) holds the classification of one
  line and the scan loop that loads the records.
  A line has four outcomes: no match, too few submatches, a record, or an
  unparseable timestamp. The first two are skips. The last is fatal.
- `event_matcher.dfy` (module `EventMatcher`) holds the single pass that
  fills `starts` and `ends`, and the facts about what those lists hold.
- `aggregator.dfy` (module `Aggregator`) holds positional pairing, the
  duration total, and Go's truncating integer division.
- `driver.dfy` (module `Driver`) holds the per-event analysis, the loop over
  events and the whole run.
- `colors.dfy` (module `Colors`) holds the ANSI colour constants and `colorize`.

Instants and durations are unbounded integers, read as nanoseconds.
Events are a sequence of name and pattern pairs. The source keeps them in a
map, whose iteration order is unspecified. Every event is analysed
independently against the same records.

Two points about the code that shape the model:

- The query at `ducktrace.go:156-160` orders by timestamp only, so no order
  among equal timestamps is claimed.
  `Driver.EventOutcomeIndependentOfTieOrder` proves that ties cannot change
  any event's outcome.
- Event patterns are compiled only when each event is analysed
  (`ducktrace.go:164-165`). Compilation is not modelled (see below).

## Model

| member | source | states |
|---|---|---|
| `Records.OrderByTimestamp` | ducktrace.go:156-160 | the rows come back in non-decreasing timestamp order and are exactly the inserted rows (same multiset); no order among equal timestamps is promised |
| `LineParser.ClassifyLine` | ducktrace.go:95-108 | no submatch list means a skip; a list of fewer than 5 entries is a skip that carries its length; with 5 or more entries, group 1 + " " + group 2 is parsed under the fixed layout, and a failure is fatal and carries that text; otherwise the record has the parsed instant as timestamp, level = group 3 and message = group 4; extra groups are ignored |
| `LineParser.TimestampFailureIsFatal` | ducktrace.go:131-137 | `parseTimestamp` is inlined in `ClassifyLine`: group 1 and group 2 joined by one space are parsed under "2006-01-02 15:04:05", and a matched line whose joined text fails to parse is fatal (carrying that text) and is never a skip |
| `LineParser.Ingest` | ducktrace.go:89-113 | the scan stops at the first line with an unparseable timestamp and reports its index, with no earlier line fatal; otherwise no line is fatal and the loaded records are the parsed lines' records, in line order |
| `LineParser.ParsedRecordsAppend` | ducktrace.go:89-113 | the records of two consecutive runs of lines are the records of the first run followed by those of the second |
| `LineParser.SkippedLineLeavesNoTrace` | ducktrace.go:96-105 | removing a non-matching or malformed line anywhere in the log leaves the loaded records unchanged |
| `LineParser.ParsedLineContributesItsRecord` | ducktrace.go:106-112 | a line that parses adds exactly its record, placed between the records of the lines before it and those after it |
| `LineParser.RecordsComeFromParsedLines` | ducktrace.go:106-112 | every loaded record is the record of some line of the log |
| `EventMatcher.MatchEvent` | ducktrace.go:167-189 | the loop's `starts` are the matched timestamps for the start pattern and its `ends` those for the end pattern, each computed independently of the other |
| `EventMatcher.MatchedTimesAreMatchingRecords` | ducktrace.go:170-189 | the matched list has one entry per matching record, in record order: the k-th entry is the timestamp of the k-th matching record, positions strictly increase, and a record is listed if and only if its message matches |
| `EventMatcher.MatchedTimesInOrder` | ducktrace.go:156-189 | over records in timestamp order, the matched timestamps are non-decreasing |
| `EventMatcher.MatchingRecordListedOnce` | ducktrace.go:175-188 | a matching record appears exactly once in the list, at its timestamp; so a record both patterns match adds one start and one end |
| `EventMatcher.MatchedTimesAppend` | ducktrace.go:170-189 | matching two consecutive runs of records gives the first run's matches followed by the second's |
| `EventMatcher.MatchedTimesOfPermutation` | ducktrace.go:170-189 | which instants are matched (as a multiset) depends only on which records there are, not on their order |
| `EventMatcher.TieOrderIrrelevant` | ducktrace.go:156-160 | any two timestamp-ordered arrangements of the same records give the same matched list |
| `Aggregator.TruncDiv` | ducktrace.go:212 | Go's division: the remainder is smaller in magnitude than the divisor and has the dividend's sign (zero for an exact quotient), so the quotient is truncated toward zero |
| `Aggregator.Summarize` | ducktrace.go:191-212 | no matches if and only if either list is empty; otherwise exactly min(#starts, #ends) durations, the i-th being ends[i] - starts[i] whatever its sign, and the average is their sum divided by that count, truncated toward zero |
| `Aggregator.Aggregate` | ducktrace.go:191-212 | the early return, the shorter length, the accumulation loop and the final division produce exactly `Summarize` of the two lists |
| `Aggregator.SumBounds` | ducktrace.go:202-210 | when every duration lies in [lo, hi], the total lies in [n*lo, n*hi] |
| `Aggregator.TruncDivBetween` | ducktrace.go:212 | a quotient truncated toward zero stays within any integer bounds of the exact quotient |
| `Aggregator.AverageWithinBounds` | ducktrace.go:202-212 | the average lies between the least and the greatest duration (bounds lo, hi on every duration bound the average) |
| `Aggregator.UnpairedDropped` | ducktrace.go:197-206 | starts or ends past the shorter list's length do not affect the outcome |
| `Aggregator.NegativeAverageTruncatesTowardZero` | ducktrace.go:202-212 | with starts [10, 10, 10] and ends [9, 8], the durations are -1 and -2 (kept, not rejected), the third start is unused, and the average is -1 (truncated toward zero, where rounding down would give -2) |
| `Driver.AnalyzeEvent` | ducktrace.go:151-217 | one event's analysis is the aggregation of the start and end instants matched over the ordered records |
| `Driver.AnalyzeEvents` | ducktrace.go:117-120 | one report per configured event, in order, each carrying the event's name and its outcome over the same records, independent of the other events |
| `Driver.Run` | ducktrace.go:71-120 | configuration error if and only if the line pattern is empty; a timestamp error names the first fatal line; otherwise no line is fatal and each event's report is its analysis over the time-ordered parsed records |
| `Driver.EventOutcomeIndependentOfTieOrder` | ducktrace.go:156-160 | an event's outcome is the same for every timestamp-ordered arrangement of the records, so the unspecified tie order of the query cannot change results |
| `Colors.Colorize` | ducktrace.go:219-221 | the result is the colour code, then the text, then the reset code, with nothing else |
| `Colors.ColorizeIsInjective` | ducktrace.go:219-221 | text coloured with the same colour can be recovered: equal coloured strings come from equal texts |

## Left out

- Command-line flags and the help text (`ducktrace.go:44-57`): process I/O.
- TOML configuration loading (`ducktrace.go:123-129`): foreign library. The configuration arrives as the line pattern and a sequence of events. The empty-pattern exit is modelled as `ConfigError`.
- Regex compilation (`regexp.MustCompile`) and its panic on an invalid pattern: foreign library. The compiled patterns are the `findSubmatch` and `matchString` parameters.
- The internals of `time.Parse` (accepted lexemes, calendar checks): foreign library, the `timeParse` parameter.
- Opening the log file, `bufio.Scanner` line splitting and its final error check (`ducktrace.go:84-91, 114`): I/O. The lines arrive as a sequence.
- DuckDB (`ducktrace.go:63-68, 112, 140-149, 156-173`): table creation, inserts, the query and row scanning, and their errors. The table is modelled by the parsed records and `OrderByTimestamp`.
- The precision of the `logs.timestamp` column (`ducktrace.go:68`): it keeps microseconds, while `time.Parse` also accepts a fractional second finer than that. The instants in the model are the stored, microsecond-truncated values; the `timeParse` parameter stands for parsing followed by that truncation. Records less than a microsecond apart therefore become ties, which the tie-order result covers.
- Logger output, the `debugEnabled` flag and printing with `fmt.Printf`, including `Duration.String()` and `Time.Format`: presentation only. `colorize` itself is modelled.
- Duplicate event names: rejected by the TOML loader, whose error panics in `loadConfig` (`ducktrace.go:126-127`). Configuration loading is not modelled, so events arrive as a sequence.
- Aggregator.Aggregate: durations and their total are unbounded integers. The int64 wrap-around of `totalDuration` and the saturation of `time.Time.Sub` are not modelled.
- Aggregator.TruncDiv: the int64 overflow of the most negative value divided by -1 is not modelled; the program only divides by a positive count.
