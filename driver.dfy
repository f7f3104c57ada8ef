/** The whole run: configuration check, ingestion, the ordered read-back,
    and one independent analysis per configured event. */
module Driver {
  import opened Records
  import opened LineParser
  import opened EventMatcher
  import opened Aggregator

  /** One configured event: its name and its start and end patterns. */
  datatype EventSpec = EventSpec(name: string, startRegex: string, endRegex: string)

  datatype EventReport = EventReport(name: string, outcome: EventOutcome)

  /** How a run ends: the line pattern is empty, a line's timestamp does not
      parse (its index), or one report per event. */
  datatype RunOutcome = ConfigError | TimestampError(line: nat) | Reports(reports: seq<EventReport>)

  /** The outcome of one event over the ordered records. */
  function EventOutcomeOf(rs: seq<LogRecord>, matchString: (string, string) -> bool, e: EventSpec): EventOutcome
  {
    Summarize(MatchedTimes(rs, matchString, e.startRegex), MatchedTimes(rs, matchString, e.endRegex))
  }

  /** Matching then aggregation, for one event. */
  method AnalyzeEvent(rs: seq<LogRecord>, matchString: (string, string) -> bool, e: EventSpec) returns (o: EventOutcome)
    ensures o == EventOutcomeOf(rs, matchString, e)
  {
    var starts, ends := MatchEvent(rs, matchString, e.startRegex, e.endRegex);
    o := Aggregate(starts, ends);
  }

  /** Every event is analysed against the same records, and no event's
      report depends on any other event. */
  method AnalyzeEvents(rs: seq<LogRecord>, matchString: (string, string) -> bool, events: seq<EventSpec>)
    returns (reports: seq<EventReport>)
    ensures |reports| == |events|
    ensures forall i :: 0 <= i < |events| ==>
      reports[i] == EventReport(events[i].name, EventOutcomeOf(rs, matchString, events[i]))
  {
    reports := [];
    var i := 0;
    while i < |events|
      invariant 0 <= i <= |events|
      invariant |reports| == i
      invariant forall k :: 0 <= k < i ==>
        reports[k] == EventReport(events[k].name, EventOutcomeOf(rs, matchString, events[k]))
    {
      var outcome := AnalyzeEvent(rs, matchString, events[i]);
      reports := reports + [EventReport(events[i].name, outcome)];
      i := i + 1;
    }
  }

  /** The program's main flow, from configuration to reports. */
  method Run(lib: Libraries, pattern: string, lines: seq<string>, events: seq<EventSpec>) returns (o: RunOutcome)
    ensures o.ConfigError? <==> pattern == ""
    ensures o.TimestampError? ==>
      o.line < |lines| && IsFatalLine(lib, pattern, lines[o.line]) &&
      forall j :: 0 <= j < o.line ==> !IsFatalLine(lib, pattern, lines[j])
    ensures o.Reports? ==>
      (forall j :: 0 <= j < |lines| ==> !IsFatalLine(lib, pattern, lines[j])) &&
      |o.reports| == |events| &&
      forall i :: 0 <= i < |events| ==>
        o.reports[i] == EventReport(events[i].name,
          EventOutcomeOf(OrderByTimestamp(ParsedRecords(lib, pattern, lines)), lib.matchString, events[i]))
  {
    if pattern == "" {
      return ConfigError;
    }
    var ingested := Ingest(lib, pattern, lines);
    match ingested {
      case Aborted(k) =>
        o := TimestampError(k);
      case Loaded(records) =>
        var ordered := OrderByTimestamp(records);
        var reports := AnalyzeEvents(ordered, lib.matchString, events);
        o := Reports(reports);
    }
  }

  /** The store does not fix the order of records with equal timestamps; any
      timestamp order of the same records gives each event the same outcome. */
  lemma EventOutcomeIndependentOfTieOrder(a: seq<LogRecord>, b: seq<LogRecord>, matchString: (string, string) -> bool, e: EventSpec)
    requires SortedByTime(a) && SortedByTime(b) && multiset(a) == multiset(b)
    ensures EventOutcomeOf(a, matchString, e) == EventOutcomeOf(b, matchString, e)
  {
    TieOrderIrrelevant(a, b, matchString, e.startRegex);
    TieOrderIrrelevant(a, b, matchString, e.endRegex);
  }
}
