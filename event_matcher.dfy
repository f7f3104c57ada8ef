/** Splitting the ordered records of one event into start and end instants:
    one pass, two independent tests of each record's message. */
module EventMatcher {
  import opened Records

  /** The timestamps of the records whose message `pattern` matches, in
      traversal order; defined the way the pass appends them. */
  function MatchedTimes(rs: seq<LogRecord>, matchString: (string, string) -> bool, pattern: string): seq<Instant>
    decreases |rs|
  {
    if rs == [] then []
    else
      var init := MatchedTimes(rs[..|rs| - 1], matchString, pattern);
      var last := rs[|rs| - 1];
      if matchString(pattern, last.message) then init + [last.timestamp] else init
  }

  /** The positions of the records whose message `pattern` matches. */
  function MatchedPositions(rs: seq<LogRecord>, matchString: (string, string) -> bool, pattern: string): seq<nat>
    decreases |rs|
  {
    if rs == [] then []
    else
      var init := MatchedPositions(rs[..|rs| - 1], matchString, pattern);
      if matchString(pattern, rs[|rs| - 1].message) then init + [|rs| - 1] else init
  }

  predicate StrictlyIncreasing(xs: seq<nat>)
  {
    forall i, j :: 0 <= i < j < |xs| ==> xs[i] < xs[j]
  }

  /** The loop over the ordered rows: a message the start pattern matches
      adds its timestamp to `starts`; independently, a message the end
      pattern matches adds it to `ends`. */
  method MatchEvent(rs: seq<LogRecord>, matchString: (string, string) -> bool, startRegex: string, endRegex: string)
    returns (starts: seq<Instant>, ends: seq<Instant>)
    ensures starts == MatchedTimes(rs, matchString, startRegex)
    ensures ends == MatchedTimes(rs, matchString, endRegex)
  {
    starts, ends := [], [];
    var i := 0;
    while i < |rs|
      invariant 0 <= i <= |rs|
      invariant starts == MatchedTimes(rs[..i], matchString, startRegex)
      invariant ends == MatchedTimes(rs[..i], matchString, endRegex)
    {
      assert rs[..i + 1][..i] == rs[..i];
      var ts, msg := rs[i].timestamp, rs[i].message;
      if matchString(startRegex, msg) {
        starts := starts + [ts];
      }
      if matchString(endRegex, msg) {
        ends := ends + [ts];
      }
      i := i + 1;
    }
    assert rs[..i] == rs;
  }

  /** The matched timestamps are exactly those of the matching records, in
      record order: the k-th one belongs to the record at the k-th matching
      position, positions increase, and a position is listed if and only if
      its record's message matches. */
  lemma {:induction false} MatchedTimesAreMatchingRecords(rs: seq<LogRecord>, matchString: (string, string) -> bool, pattern: string)
    ensures var pos := MatchedPositions(rs, matchString, pattern);
      var ts := MatchedTimes(rs, matchString, pattern);
      |ts| == |pos| && StrictlyIncreasing(pos) &&
      (forall k :: 0 <= k < |pos| ==> pos[k] < |rs| && ts[k] == rs[pos[k]].timestamp) &&
      (forall i :: 0 <= i < |rs| ==> (i in pos <==> matchString(pattern, rs[i].message)))
    decreases |rs|
  {
    if rs != [] {
      var n := |rs| - 1;
      var init := rs[..n];
      MatchedTimesAreMatchingRecords(init, matchString, pattern);
      var pos' := MatchedPositions(init, matchString, pattern);
      var pos := MatchedPositions(rs, matchString, pattern);
      assert forall k :: 0 <= k < |pos'| ==> pos'[k] < n;
      assert forall i :: 0 <= i < n ==> init[i] == rs[i];
      assert n !in pos';
    }
  }

  /** If the records are in timestamp order, so are the matched timestamps. */
  lemma MatchedTimesInOrder(rs: seq<LogRecord>, matchString: (string, string) -> bool, pattern: string)
    requires SortedByTime(rs)
    ensures NonDecreasing(MatchedTimes(rs, matchString, pattern))
  {
    MatchedTimesAreMatchingRecords(rs, matchString, pattern);
    var pos := MatchedPositions(rs, matchString, pattern);
    var ts := MatchedTimes(rs, matchString, pattern);
    forall k, l | 0 <= k < l < |ts| ensures ts[k] <= ts[l] {
      assert pos[k] < pos[l];
    }
  }

  /** A matching record is listed exactly once. Applied to the start and to the
      end pattern, a record both match contributes one start and one end. */
  lemma MatchingRecordListedOnce(rs: seq<LogRecord>, matchString: (string, string) -> bool, pattern: string, i: nat)
    requires i < |rs| && matchString(pattern, rs[i].message)
    ensures var pos := MatchedPositions(rs, matchString, pattern);
      var ts := MatchedTimes(rs, matchString, pattern);
      exists k :: 0 <= k < |pos| && k < |ts| && pos[k] == i && ts[k] == rs[i].timestamp &&
        forall l :: 0 <= l < |pos| && pos[l] == i ==> l == k
  {
    MatchedTimesAreMatchingRecords(rs, matchString, pattern);
    var pos := MatchedPositions(rs, matchString, pattern);
    var k :| 0 <= k < |pos| && pos[k] == i;
    assert forall l :: 0 <= l < |pos| && pos[l] == i ==> l == k;
  }

  /** Matching a concatenation of record runs matches each run. */
  lemma {:induction false} MatchedTimesAppend(a: seq<LogRecord>, b: seq<LogRecord>, matchString: (string, string) -> bool, pattern: string)
    ensures MatchedTimes(a + b, matchString, pattern) ==
            MatchedTimes(a, matchString, pattern) + MatchedTimes(b, matchString, pattern)
    decreases |b|
  {
    if b == [] {
      assert a + b == a;
    } else {
      var b' := b[..|b| - 1];
      assert (a + b)[..|a + b| - 1] == a + b';
      assert (a + b)[|a + b| - 1] == b[|b| - 1];
      MatchedTimesAppend(a, b', matchString, pattern);
    }
  }

  /** Which instants are matched depends only on which records there are,
      not on their order. */
  lemma {:induction false} MatchedTimesOfPermutation(a: seq<LogRecord>, b: seq<LogRecord>, matchString: (string, string) -> bool, pattern: string)
    requires multiset(a) == multiset(b)
    ensures multiset(MatchedTimes(a, matchString, pattern)) == multiset(MatchedTimes(b, matchString, pattern))
    decreases |a|
  {
    if a == [] {
      assert |b| == |multiset(b)| == 0;
    } else {
      var x := a[|a| - 1];
      var a' := a[..|a| - 1];
      assert a == a' + [x];
      assert x in multiset(b);
      var j :| 0 <= j < |b| && b[j] == x;
      var b1, b2 := b[..j], b[j + 1..];
      assert b == b1 + [x] + b2;
      var b' := b1 + b2;
      assert multiset(a') == multiset(b') by {
        assert multiset(a) == multiset(a') + multiset{x};
        assert multiset(b) == multiset(b1) + multiset([x]) + multiset(b2);
        assert multiset(b') == multiset(b1) + multiset(b2);
        assert multiset(a') == multiset(a) - multiset{x};
      }
      MatchedTimesOfPermutation(a', b', matchString, pattern);
      MatchedTimesAppend(a', [x], matchString, pattern);
      MatchedTimesAppend(b1 + [x], b2, matchString, pattern);
      MatchedTimesAppend(b1, [x], matchString, pattern);
      MatchedTimesAppend(b1, b2, matchString, pattern);
    }
  }

  /** The store may order records with equal timestamps either way: any two
      timestamp-ordered arrangements of the same records give the same
      matched instants. */
  lemma TieOrderIrrelevant(a: seq<LogRecord>, b: seq<LogRecord>, matchString: (string, string) -> bool, pattern: string)
    requires SortedByTime(a) && SortedByTime(b) && multiset(a) == multiset(b)
    ensures MatchedTimes(a, matchString, pattern) == MatchedTimes(b, matchString, pattern)
  {
    MatchedTimesInOrder(a, matchString, pattern);
    MatchedTimesInOrder(b, matchString, pattern);
    MatchedTimesOfPermutation(a, b, matchString, pattern);
    SortedWithSameElementsAreEqual(MatchedTimes(a, matchString, pattern), MatchedTimes(b, matchString, pattern));
  }
}
