/** Turning raw log lines into records: the classification of one line and
    the scan over all lines that loads the record store. */
module LineParser {
  import opened Records

  /** The fixed layout of "YYYY-MM-DD HH:MM:SS", in the time library's notation. */
  const TimestampLayout: string := "2006-01-02 15:04:05"

  /** The submatch list needs the whole match plus four groups. */
  const MinSubmatches: nat := 5

  /** What happens to one line: skipped (no match, or too few submatches),
      turned into a record, or fatal (the timestamp text does not parse). */
  datatype LineOutcome =
    | NoMatch
    | Malformed(submatches: nat)
    | Parsed(record: LogRecord)
    | BadTimestamp(text: string)
  {
    predicate IsSkip() { NoMatch? || Malformed? }
  }

  function ClassifyLine(lib: Libraries, pattern: string, line: string): (o: LineOutcome)
    ensures o.NoMatch? <==> lib.findSubmatch(pattern, line).None?
    ensures o.Malformed? <==>
      lib.findSubmatch(pattern, line).Some? && |lib.findSubmatch(pattern, line).value| < MinSubmatches
    ensures o.Malformed? ==> o.submatches == |lib.findSubmatch(pattern, line).value|
    ensures o.BadTimestamp? <==>
      var m := lib.findSubmatch(pattern, line);
      m.Some? && |m.value| >= MinSubmatches &&
      lib.timeParse(TimestampLayout, m.value[1] + " " + m.value[2]).None?
    ensures o.BadTimestamp? ==>
      var m := lib.findSubmatch(pattern, line).value;
      o.text == m[1] + " " + m[2]
    ensures o.Parsed? ==>
      var m := lib.findSubmatch(pattern, line).value;
      |m| >= MinSubmatches &&
      lib.timeParse(TimestampLayout, m[1] + " " + m[2]) == Some(o.record.timestamp) &&
      o.record.level == m[3] && o.record.message == m[4]
  {
    match lib.findSubmatch(pattern, line)
    case None => NoMatch
    case Some(m) =>
      if |m| < MinSubmatches then Malformed(|m|)
      else
        // the date part and the time part, joined by one space, parsed
        // under the fixed layout
        var text := m[1] + " " + m[2];
        match lib.timeParse(TimestampLayout, text)
        case None => BadTimestamp(text)
        case Some(ts) => Parsed(LogRecord(ts, m[3], m[4]))
  }

  /** The records the lines yield, in line order, skipped lines leaving no trace. */
  function ParsedRecords(lib: Libraries, pattern: string, lines: seq<string>): seq<LogRecord>
    decreases |lines|
  {
    if lines == [] then []
    else
      var init := ParsedRecords(lib, pattern, lines[..|lines| - 1]);
      match ClassifyLine(lib, pattern, lines[|lines| - 1])
      case Parsed(r) => init + [r]
      case _ => init
  }

  predicate IsFatalLine(lib: Libraries, pattern: string, line: string)
  {
    ClassifyLine(lib, pattern, line).BadTimestamp?
  }

  /** The result of reading the whole log: aborted at the first line whose
      timestamp does not parse, or the records of all parsed lines. */
  datatype IngestOutcome = Aborted(line: nat) | Loaded(records: seq<LogRecord>)

  /** The scan loop: classify each line in turn, keep its record, skip it,
      or stop the run. */
  method Ingest(lib: Libraries, pattern: string, lines: seq<string>) returns (o: IngestOutcome)
    ensures o.Aborted? ==>
      o.line < |lines| && IsFatalLine(lib, pattern, lines[o.line]) &&
      forall j :: 0 <= j < o.line ==> !IsFatalLine(lib, pattern, lines[j])
    ensures o.Loaded? ==>
      (forall j :: 0 <= j < |lines| ==> !IsFatalLine(lib, pattern, lines[j])) &&
      o.records == ParsedRecords(lib, pattern, lines)
  {
    var records: seq<LogRecord> := [];
    var i := 0;
    while i < |lines|
      invariant 0 <= i <= |lines|
      invariant forall j :: 0 <= j < i ==> !IsFatalLine(lib, pattern, lines[j])
      invariant records == ParsedRecords(lib, pattern, lines[..i])
    {
      assert lines[..i + 1][..i] == lines[..i];
      var outcome := ClassifyLine(lib, pattern, lines[i]);
      match outcome {
        case NoMatch =>
        case Malformed(_) =>
        case BadTimestamp(_) =>
          return Aborted(i);
        case Parsed(r) =>
          records := records + [r];
      }
      i := i + 1;
    }
    assert lines[..i] == lines;
    o := Loaded(records);
  }

  /** Parsing a concatenation of logs parses each part. */
  lemma {:induction false} ParsedRecordsAppend(lib: Libraries, pattern: string, a: seq<string>, b: seq<string>)
    ensures ParsedRecords(lib, pattern, a + b) ==
            ParsedRecords(lib, pattern, a) + ParsedRecords(lib, pattern, b)
    decreases |b|
  {
    if b == [] {
      assert a + b == a;
    } else {
      var b' := b[..|b| - 1];
      assert (a + b)[..|a + b| - 1] == a + b';
      assert (a + b)[|a + b| - 1] == b[|b| - 1];
      ParsedRecordsAppend(lib, pattern, a, b');
    }
  }

  /** A line that does not match, or matches with too few submatches, leaves
      no trace among the records: removing it changes nothing. */
  lemma SkippedLineLeavesNoTrace(lib: Libraries, pattern: string, a: seq<string>, line: string, b: seq<string>)
    requires ClassifyLine(lib, pattern, line).IsSkip()
    ensures ParsedRecords(lib, pattern, a + [line] + b) == ParsedRecords(lib, pattern, a + b)
  {
    ParsedRecordsAppend(lib, pattern, a + [line], b);
    ParsedRecordsAppend(lib, pattern, a, [line]);
    ParsedRecordsAppend(lib, pattern, a, b);
    assert [line][..0] == [];
  }

  /** A line that parses contributes its record, at its place among the
      records of the lines around it. */
  lemma ParsedLineContributesItsRecord(lib: Libraries, pattern: string, a: seq<string>, line: string, b: seq<string>)
    requires ClassifyLine(lib, pattern, line).Parsed?
    ensures ParsedRecords(lib, pattern, a + [line] + b) ==
            ParsedRecords(lib, pattern, a) + [ClassifyLine(lib, pattern, line).record] + ParsedRecords(lib, pattern, b)
  {
    ParsedRecordsAppend(lib, pattern, a + [line], b);
    ParsedRecordsAppend(lib, pattern, a, [line]);
    assert [line][..0] == [];
  }

  /** Every record is the record of some line of the log that parsed. */
  lemma {:induction false} RecordsComeFromParsedLines(lib: Libraries, pattern: string, lines: seq<string>, k: nat)
    requires k < |ParsedRecords(lib, pattern, lines)|
    ensures exists j :: (0 <= j < |lines| &&
      ClassifyLine(lib, pattern, lines[j]) == Parsed(ParsedRecords(lib, pattern, lines)[k]))
    decreases |lines|
  {
    assert lines != [];
    var init := lines[..|lines| - 1];
    var last := |lines| - 1;
    if k < |ParsedRecords(lib, pattern, init)| {
      RecordsComeFromParsedLines(lib, pattern, init, k);
      var j :| 0 <= j < |init| && ClassifyLine(lib, pattern, init[j]) == Parsed(ParsedRecords(lib, pattern, init)[k]);
      assert lines[j] == init[j];
    } else {
      assert ClassifyLine(lib, pattern, lines[last]) == Parsed(ParsedRecords(lib, pattern, lines)[k]);
    }
  }

  /** A matched line whose date and time parts do not parse is fatal, never a skip. */
  lemma TimestampFailureIsFatal(lib: Libraries, pattern: string, line: string, m: seq<string>)
    requires lib.findSubmatch(pattern, line) == Some(m) && |m| >= MinSubmatches
    requires lib.timeParse(TimestampLayout, m[1] + " " + m[2]).None?
    ensures IsFatalLine(lib, pattern, line) && !ClassifyLine(lib, pattern, line).IsSkip()
    ensures ClassifyLine(lib, pattern, line) == BadTimestamp(m[1] + " " + m[2])
  {
  }
}
