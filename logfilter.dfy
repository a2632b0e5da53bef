/** The in-memory filter of `/logs`: which attendance records a query keeps. */
module LogFilter {
  import opened Js
  import opened Device

  /** The filter's criteria once the request is validated: an optional lower and
      upper time bound and an optional user id (absent or empty means "any user"). */
  datatype Criteria = Criteria(from: Option<int>, to: Option<int>, userId: Option<string>)

  /** `(!fromDate || logDate >= fromDate) && (!toDate || logDate <= toDate)`.
      Every comparison with an Invalid Date is false. */
  predicate WithinDateRange(t: Timestamp, c: Criteria)
  {
    && (c.from.None? || (t.Some? && t.value >= c.from.value))
    && (c.to.None? || (t.Some? && t.value <= c.to.value))
  }

  /** `!userId || String(log.deviceUserId) === String(userId)`. */
  predicate MatchesUser(r: LogRecord, c: Criteria)
  {
    !Truthy(c.userId) || ScalarToString(r.deviceUserId) == c.userId.value
  }

  /** The filter callback. */
  predicate Keep(r: LogRecord, c: Criteria)
  {
    WithinDateRange(r.recordTime, c) && MatchesUser(r, c)
  }

  /** `logs.filter(...)`. */
  function Filter(logs: seq<LogRecord>, c: Criteria): (r: seq<LogRecord>)
    ensures |r| <= |logs|
    ensures forall i :: 0 <= i < |r| ==> Keep(r[i], c)
    decreases |logs|
  {
    if logs == [] then []
    else if Keep(logs[0], c) then [logs[0]] + Filter(logs[1..], c)
    else Filter(logs[1..], c)
  }

  /** `r` is `s` with some elements left out, the rest in their order. */
  predicate IsSubsequence<T(==)>(r: seq<T>, s: seq<T>)
    decreases |s|
  {
    if r == [] then true
    else if s == [] then false
    else if r[0] == s[0] then IsSubsequence(r[1..], s[1..])
    else IsSubsequence(r, s[1..])
  }

  /** The filter adds nothing, changes nothing and keeps the device's order. */
  lemma {:induction false} FilterIsSubsequence(logs: seq<LogRecord>, c: Criteria)
    ensures IsSubsequence(Filter(logs, c), logs)
    decreases |logs|
  {
    if logs != [] {
      FilterIsSubsequence(logs[1..], c);
    }
  }

  /** A record is in the result exactly when it is in the device's data and the
      callback keeps it. */
  lemma {:induction false} FilterMembership(logs: seq<LogRecord>, c: Criteria, x: LogRecord)
    ensures x in Filter(logs, c) <==> x in logs && Keep(x, c)
    decreases |logs|
  {
    if logs != [] {
      FilterMembership(logs[1..], c, x);
      assert logs == [logs[0]] + logs[1..];
    }
  }

  /** Every kept record stays, so its multiplicity is the same as in the data. */
  lemma {:induction false} FilterCountsKept(logs: seq<LogRecord>, c: Criteria, x: LogRecord)
    ensures multiset(Filter(logs, c))[x] == if Keep(x, c) then multiset(logs)[x] else 0
    decreases |logs|
  {
    if logs != [] {
      FilterCountsKept(logs[1..], c, x);
      assert logs == [logs[0]] + logs[1..];
    }
  }

  /** With no bound and no user id, the filter returns the data unchanged. */
  lemma {:induction false} FilterUnconstrained(logs: seq<LogRecord>, c: Criteria)
    requires c.from.None? && c.to.None? && !Truthy(c.userId)
    ensures Filter(logs, c) == logs
    decreases |logs|
  {
    if logs != [] {
      FilterUnconstrained(logs[1..], c);
      assert logs == [logs[0]] + logs[1..];
    }
  }

  /** Filtering twice with the same criteria is filtering once. */
  lemma {:induction false} FilterIdempotent(logs: seq<LogRecord>, c: Criteria)
    ensures Filter(Filter(logs, c), c) == Filter(logs, c)
    decreases |logs|
  {
    if logs != [] {
      FilterIdempotent(logs[1..], c);
      if Keep(logs[0], c) {
        assert ([logs[0]] + Filter(logs[1..], c))[1..] == Filter(logs[1..], c);
      }
    }
  }

  /** A record whose time is an Invalid Date is dropped as soon as either bound is
      given. */
  lemma UndatedRecordDropped(logs: seq<LogRecord>, c: Criteria, x: LogRecord)
    requires c.from.Some? || c.to.Some?
    requires x.recordTime.None?
    ensures x !in Filter(logs, c)
  {
    FilterMembership(logs, c, x);
  }

  /** Bounds are inclusive: records on 1 Jan, 15 Jan and 1 Feb, filtered from
      10 Jan to 31 Jan, leave only the 15 Jan one (times in days). */
  lemma DateRangeExample(u: Scalar, e: map<string, string>)
    ensures var jan1, jan15, feb1 := LogRecord(u, Some(1), e), LogRecord(u, Some(15), e), LogRecord(u, Some(32), e);
      Filter([jan1, jan15, feb1], Criteria(Some(10), Some(31), None)) == [jan15]
  {
    var jan1, jan15, feb1 := LogRecord(u, Some(1), e), LogRecord(u, Some(15), e), LogRecord(u, Some(32), e);
    var c := Criteria(Some(10), Some(31), None);
    assert [jan1, jan15, feb1][1..] == [jan15, feb1];
    assert [jan15, feb1][1..] == [feb1];
    assert Filter([feb1], c) == [];
    assert Filter([jan15, feb1], c) == [jan15];
  }

  /** User ids are compared as strings: the query "7" matches the device's number 7
      and its text "7", and nothing else that a number prints as. */
  lemma UserIdComparedAsString(t: Timestamp, e: map<string, string>, n: int)
    ensures Keep(LogRecord(Number(7), t, e), Criteria(None, None, Some("7")))
    ensures Keep(LogRecord(Text("7"), t, e), Criteria(None, None, Some("7")))
    ensures Keep(LogRecord(Number(n), t, e), Criteria(None, None, Some("7"))) ==> n == 7
  {
    assert NumberToString(7) == "7";
    if Keep(LogRecord(Number(n), t, e), Criteria(None, None, Some("7"))) {
      NumberToStringInjective(n, 7);
    }
  }
}
