/** Log records, the foreign collaborators the pipeline calls, and the
    ordered record store (the in-memory table that is only ever read back
    sorted by timestamp). */
module Records {

  /** An absolute point in time, in nanoseconds. */
  type Instant = int

  /** The difference of two instants, in nanoseconds; may be negative. */
  type Duration = int

  datatype Option<+T> = None | Some(value: T)

  /** One parsed log line: the row the program inserts into its `logs` table. */
  datatype LogRecord = LogRecord(timestamp: Instant, level: string, message: string)

  /** The library calls the core makes but does not implement:
      - findSubmatch(pattern, line): the compiled line pattern's submatch list
        (whole match first, then the groups), or None when it does not match;
      - matchString(pattern, text): whether an event pattern matches a message;
      - timeParse(layout, text): the instant `text` denotes under `layout`, or
        None when it does not parse. The instant is the one the `logs` table
        stores and returns, so this stands for parsing followed by the
        table's truncation to whole microseconds. */
  datatype Libraries = Libraries(
    findSubmatch: (string, string) -> Option<seq<string>>,
    matchString: (string, string) -> bool,
    timeParse: (string, string) -> Option<Instant>)

  predicate SortedByTime(rs: seq<LogRecord>)
  {
    forall i, j :: 0 <= i < j < |rs| ==> rs[i].timestamp <= rs[j].timestamp
  }

  predicate NonDecreasing(xs: seq<int>)
  {
    forall i, j :: 0 <= i < j < |xs| ==> xs[i] <= xs[j]
  }

  /** Places `r` into the sorted `rs`, before the first record that is not earlier. */
  function InsertByTime(r: LogRecord, rs: seq<LogRecord>): (out: seq<LogRecord>)
    requires SortedByTime(rs)
    ensures SortedByTime(out)
    ensures multiset(out) == multiset(rs) + multiset{r}
  {
    if |rs| == 0 || r.timestamp <= rs[0].timestamp then
      [r] + rs
    else
      var tail := InsertByTime(r, rs[1..]);
      assert rs == [rs[0]] + rs[1..];
      forall k | 0 <= k < |tail| ensures rs[0].timestamp <= tail[k].timestamp {
        assert tail[k] in multiset(tail);
      }
      [rs[0]] + tail
  }

  /** The store's read-back, `SELECT ... ORDER BY timestamp`: the stored
      records in non-decreasing timestamp order. The order among records
      with equal timestamps is whatever the sort yields; nothing relies on it. */
  function OrderByTimestamp(rs: seq<LogRecord>): (out: seq<LogRecord>)
    ensures SortedByTime(out)
    ensures multiset(out) == multiset(rs)
  {
    if rs == [] then []
    else
      assert rs == [rs[0]] + rs[1..];
      InsertByTime(rs[0], OrderByTimestamp(rs[1..]))
  }

  /** The first element of a non-decreasing sequence is its least element. */
  lemma HeadIsLeast(s: seq<int>, x: int)
    requires NonDecreasing(s) && x in multiset(s)
    ensures s != [] && s[0] <= x
  {
    var k :| 0 <= k < |s| && s[k] == x;
    assert s[0] <= s[k];
  }

  /** Two non-decreasing sequences holding the same elements are the same sequence. */
  lemma {:induction false} SortedWithSameElementsAreEqual(s: seq<int>, t: seq<int>)
    requires NonDecreasing(s) && NonDecreasing(t)
    requires multiset(s) == multiset(t)
    ensures s == t
  {
    if s == [] {
      assert |t| == |multiset(t)| == 0;
    } else {
      assert s[0] in multiset(s);
      HeadIsLeast(t, s[0]);
      assert t[0] in multiset(t);
      HeadIsLeast(s, t[0]);
      assert s == [s[0]] + s[1..] && t == [t[0]] + t[1..];
      assert s[0] == t[0];
      assert multiset(s) == multiset{s[0]} + multiset(s[1..]);
      assert multiset(t) == multiset{t[0]} + multiset(t[1..]);
      assert multiset(s[1..]) == multiset(s) - multiset{s[0]};
      assert multiset(t[1..]) == multiset(t) - multiset{t[0]};
      SortedWithSameElementsAreEqual(s[1..], t[1..]);
    }
  }
}
