/** The two HTTP endpoints, `GET /users` and `GET /logs`. Each is specified by a
    function from the device's behaviour (and, for `/logs`, the query) to the calls
    made on the device and the response; the handler methods run those calls on the
    shared connection object. */
module Handlers {
  import opened Js
  import opened Device
  import opened LogFilter

  /** The `/logs` query string: each parameter is absent or a string. */
  datatype Query = Query(from: Option<string>, to: Option<string>, userId: Option<string>)

  /** A JSON body: the two success shapes and `{success: false, message}`. */
  datatype Body = UsersOk(users: seq<User>) | LogsOk(logs: seq<LogRecord>) | Failure(message: string)

  datatype Response = Response(status: nat, body: Body)
  {
    /** The body's `success` field. */
    predicate Success()
    {
      !body.Failure?
    }
  }

  /** What one request does on the device, and what it answers. */
  datatype Exchange = Exchange(calls: seq<Call>, response: Response)

  const InvalidDateMessage: string := "Invalid date format. Use MM/DD/YYYY"
  const InvalidLogDataMessage: string := "Device returned invalid or no log data."
  const UnknownErrorMessage: string := "Unknown error"

  /** The catch block's response: status 500 with `err.message || "Unknown error"`. */
  function ErrorResponse(message: string): (r: Response)
    ensures r.status == 500 && r.body.Failure? && r.body.message != ""
    ensures message != "" ==> r.body.message == message
    ensures message == "" ==> r.body.message == UnknownErrorMessage
  {
    Response(500, Failure(if message == "" then UnknownErrorMessage else message))
  }

  /** The catch block: a best-effort disconnect whose own failure is ignored, then
      the error response. */
  function Recover(calls: seq<Call>, message: string): Exchange
  {
    Exchange(calls + [Disconnect], ErrorResponse(message))
  }

  /** `GET /users`: connect, fetch the users, disconnect, answer with the users. */
  function UsersExchange(o: Oracle, at: nat): Exchange
  {
    var c := Connect(o, at);
    var k := at + |c.calls|;
    if c.result.Rejected? then Recover(c.calls, c.result.message)
    else match o.getUsers(k)
      case Rejected(m) => Recover(c.calls + [GetUsers], m)
      case Resolved(users) =>
        match o.disconnect(k + 1)
        case Rejected(m) => Recover(c.calls + [GetUsers, Disconnect], m)
        case Resolved(_) => Exchange(c.calls + [GetUsers, Disconnect], Response(200, UsersOk(users)))
  }

  method HandleUsers(zk: Zk) returns (resp: Response)
    modifies zk
    ensures var ex := UsersExchange(zk.oracle, |old(zk.trace)|);
      resp == ex.response && zk.trace == old(zk.trace) + ex.calls
  {
    var error: string;  // the message of the error the try block throws
    var connected := ConnectToDevice(zk);
    if connected.Rejected? {
      error := connected.message;
    } else {
      var users := zk.GetUsers();
      if users.Rejected? {
        error := users.message;
      } else {
        var closed := zk.Disconnect();
        if closed.Rejected? {
          error := closed.message;
        } else {
          return Response(200, UsersOk(users.value));
        }
      }
    }
    var ignored := zk.Disconnect();
    resp := ErrorResponse(error);
  }

  /** `from ? new Date(from) : null`: `None` for a falsy parameter. */
  function RequestDate(p: Option<string>, parseDate: string -> Timestamp): Option<Timestamp>
  {
    if Truthy(p) then Some(parseDate(p.value)) else None
  }

  /** `p && isNaN(new Date(p))`. */
  predicate InvalidDate(p: Option<string>, parseDate: string -> Timestamp)
  {
    Truthy(p) && parseDate(p.value).None?
  }

  /** A date parameter as a filter bound; only used once validation has passed. */
  function DateBound(p: Option<string>, parseDate: string -> Timestamp): Option<int>
  {
    if Truthy(p) then parseDate(p.value) else None
  }

  /** The criteria the filter callback uses: the dates as bounds and `userId` as given. */
  function CriteriaOf(q: Query, parseDate: string -> Timestamp): Criteria
  {
    Criteria(DateBound(q.from, parseDate), DateBound(q.to, parseDate), q.userId)
  }

  /** `GET /logs`: validate the dates, connect, fetch the attendance data,
      disconnect, check the data's shape and filter it. */
  function LogsExchange(o: Oracle, q: Query, parseDate: string -> Timestamp, at: nat): Exchange
  {
    if InvalidDate(q.from, parseDate) || InvalidDate(q.to, parseDate) then
      Exchange([], Response(400, Failure(InvalidDateMessage)))
    else
      var c := Connect(o, at);
      var k := at + |c.calls|;
      if c.result.Rejected? then Recover(c.calls, c.result.message)
      else match o.getAttendances(k)
        case Rejected(m) => Recover(c.calls + [GetAttendances], m)
        case Resolved(raw) =>
          match o.disconnect(k + 1)
          case Rejected(m) => Recover(c.calls + [GetAttendances, Disconnect], m)
          case Resolved(_) =>
            if !raw.Records? then Recover(c.calls + [GetAttendances, Disconnect], InvalidLogDataMessage)
            else Exchange(c.calls + [GetAttendances, Disconnect],
                          Response(200, LogsOk(Filter(raw.data, CriteriaOf(q, parseDate)))))
  }

  method HandleLogs(zk: Zk, q: Query, parseDate: string -> Timestamp) returns (resp: Response)
    modifies zk
    ensures var ex := LogsExchange(zk.oracle, q, parseDate, |old(zk.trace)|);
      resp == ex.response && zk.trace == old(zk.trace) + ex.calls
  {
    var fromDate := RequestDate(q.from, parseDate);
    var toDate := RequestDate(q.to, parseDate);
    if (fromDate.Some? && fromDate.value.None?) || (toDate.Some? && toDate.value.None?) {
      return Response(400, Failure(InvalidDateMessage));
    }
    var error: string;  // the message of the error the try block throws
    var connected := ConnectToDevice(zk);
    if connected.Rejected? {
      error := connected.message;
    } else {
      var rawLogs := zk.GetAttendances();
      if rawLogs.Rejected? {
        error := rawLogs.message;
      } else {
        var closed := zk.Disconnect();
        if closed.Rejected? {
          error := closed.message;
        } else if !rawLogs.value.Records? {
          error := InvalidLogDataMessage;
        } else {
          var filtered := Filter(rawLogs.value.data, CriteriaOf(q, parseDate));
          return Response(200, LogsOk(filtered));
        }
      }
    }
    var ignored := zk.Disconnect();
    resp := ErrorResponse(error);
  }

  /** `/users` answers 200 with the device's users exactly when connecting, fetching
      and disconnecting all succeed; otherwise 500 with the failing step's message. */
  lemma UsersOutcome(o: Oracle, at: nat)
    ensures var ex, c := UsersExchange(o, at), Connect(o, at);
      var k := at + |c.calls|;
      && (ex.response.status == 200 <==>
            c.result.Resolved? && o.getUsers(k).Resolved? && o.disconnect(k + 1).Resolved?)
      && (ex.response.status == 200 ==> ex.response.body == UsersOk(o.getUsers(k).value))
      && (ex.response.status != 200 ==> ex.response == ErrorResponse(
            if c.result.Rejected? then c.result.message
            else if o.getUsers(k).Rejected? then o.getUsers(k).message
            else o.disconnect(k + 1).message))
      && (ex.response.Success() <==> ex.response.status == 200)
  {
  }

  /** `/users` connects with at most two attempts, makes no attempt after them, and
      always ends with a disconnect, also after a failure. */
  lemma UsersReleasesDevice(o: Oracle, at: nat)
    ensures var ex, c := UsersExchange(o, at), Connect(o, at);
      && |ex.calls| >= 2 && ex.calls[|ex.calls| - 1] == Disconnect
      && ex.calls[..|c.calls|] == c.calls
      && CreateSocket !in ex.calls[|c.calls|..]
      && multiset(ex.calls)[CreateSocket] <= 2
  {
    var ex, c := UsersExchange(o, at), Connect(o, at);
    var k := at + |c.calls|;
    ConnectAttempts(o, at);
    var tail: seq<Call>;
    if c.result.Rejected? {
      tail := [Disconnect];
      assert ex.calls == c.calls + tail;
    } else if o.getUsers(k).Rejected? {
      tail := [GetUsers, Disconnect];
      assert ex.calls == c.calls + tail;
    } else if o.disconnect(k + 1).Rejected? {
      tail := [GetUsers, Disconnect, Disconnect];
      assert ex.calls == c.calls + tail;
    } else {
      tail := [GetUsers, Disconnect];
      assert ex.calls == c.calls + tail;
    }
    ReleasedAfterConnect(c.calls, tail);
  }

  /** A request succeeds whenever the device answers its own calls, whatever earlier
      requests saw: the handler keeps no state of its own between requests. What the
      device library itself retains after a failure is part of the oracle. */
  lemma UsersSucceedsWhenDeviceAnswers(o: Oracle, at: nat)
    requires o.createSocket(at).Resolved? && o.getUsers(at + 1).Resolved? && o.disconnect(at + 2).Resolved?
    ensures UsersExchange(o, at) ==
      Exchange([CreateSocket, GetUsers, Disconnect], Response(200, UsersOk(o.getUsers(at + 1).value)))
  {
  }

  /** `/logs` answers 400, without any device call, exactly when `from` or `to` is
      given and is not a date. */
  lemma LogsRejectsInvalidDate(o: Oracle, q: Query, parseDate: string -> Timestamp, at: nat)
    ensures var ex := LogsExchange(o, q, parseDate, at);
      && (ex.response.status == 400 <==> InvalidDate(q.from, parseDate) || InvalidDate(q.to, parseDate))
      && (ex.response.status == 400 ==> ex.calls == [] && ex.response.body == Failure(InvalidDateMessage))
      && (ex.response.status != 400 ==> |ex.calls| >= 2 && ex.calls[0] == CreateSocket)
  {
  }

  /** `/logs` answers 200 exactly when the dates are valid, connecting, fetching and
      disconnecting succeed and the data is an array; the body is then the filtered
      data. Any other failure answers 500 with a non-empty message. */
  lemma LogsOutcome(o: Oracle, q: Query, parseDate: string -> Timestamp, at: nat)
    ensures var ex, c := LogsExchange(o, q, parseDate, at), Connect(o, at);
      var k := at + |c.calls|;
      var valid := !InvalidDate(q.from, parseDate) && !InvalidDate(q.to, parseDate);
      && (ex.response.status == 200 <==>
            valid && c.result.Resolved? && o.getAttendances(k).Resolved? && o.disconnect(k + 1).Resolved?
            && o.getAttendances(k).value.Records?)
      && (ex.response.status == 200 ==>
            ex.response.body == LogsOk(Filter(o.getAttendances(k).value.data, CriteriaOf(q, parseDate))))
      && (valid && ex.response.status != 200 ==> ex.response == ErrorResponse(
            if c.result.Rejected? then c.result.message
            else if o.getAttendances(k).Rejected? then o.getAttendances(k).message
            else if o.disconnect(k + 1).Rejected? then o.disconnect(k + 1).message
            else InvalidLogDataMessage))
      && (ex.response.Success() <==> ex.response.status == 200)
  {
  }

  /** The logs `/logs` returns are the device's records, in the device's order, with
      exactly those the filter callback rejects left out. */
  lemma LogsAreFilteredDeviceData(o: Oracle, q: Query, parseDate: string -> Timestamp, at: nat)
    requires LogsExchange(o, q, parseDate, at).response.status == 200
    ensures var ex, c := LogsExchange(o, q, parseDate, at), Connect(o, at);
      var data := o.getAttendances(at + |c.calls|).value.data;
      && ex.response.body.LogsOk?
      && IsSubsequence(ex.response.body.logs, data)
      && forall x :: x in ex.response.body.logs <==> x in data && Keep(x, CriteriaOf(q, parseDate))
  {
    var c := Connect(o, at);
    var data := o.getAttendances(at + |c.calls|).value.data;
    var crit := CriteriaOf(q, parseDate);
    FilterIsSubsequence(data, crit);
    forall x ensures x in Filter(data, crit) <==> x in data && Keep(x, crit) {
      FilterMembership(data, crit, x);
    }
  }

  /** Without `from`, `to` or `userId` (absent or empty), a successful `/logs` returns
      the device's data unchanged. */
  lemma LogsUnfilteredWithoutParameters(o: Oracle, q: Query, parseDate: string -> Timestamp, at: nat)
    requires !Truthy(q.from) && !Truthy(q.to) && !Truthy(q.userId)
    requires LogsExchange(o, q, parseDate, at).response.status == 200
    ensures var c := Connect(o, at);
      LogsExchange(o, q, parseDate, at).response.body == LogsOk(o.getAttendances(at + |c.calls|).value.data)
  {
    var c := Connect(o, at);
    FilterUnconstrained(o.getAttendances(at + |c.calls|).value.data, CriteriaOf(q, parseDate));
  }

  /** Once the dates are valid, `/logs` connects with at most two attempts and always
      ends with a disconnect, also after a failure. */
  lemma LogsReleasesDevice(o: Oracle, q: Query, parseDate: string -> Timestamp, at: nat)
    requires !InvalidDate(q.from, parseDate) && !InvalidDate(q.to, parseDate)
    ensures var ex, c := LogsExchange(o, q, parseDate, at), Connect(o, at);
      && |ex.calls| >= 2 && ex.calls[|ex.calls| - 1] == Disconnect
      && ex.calls[..|c.calls|] == c.calls
      && CreateSocket !in ex.calls[|c.calls|..]
      && multiset(ex.calls)[CreateSocket] <= 2
  {
    var ex, c := LogsExchange(o, q, parseDate, at), Connect(o, at);
    var k := at + |c.calls|;
    ConnectAttempts(o, at);
    var tail: seq<Call>;
    if c.result.Rejected? {
      tail := [Disconnect];
      assert ex.calls == c.calls + tail;
    } else if o.getAttendances(k).Rejected? {
      tail := [GetAttendances, Disconnect];
      assert ex.calls == c.calls + tail;
    } else if o.disconnect(k + 1).Rejected? || !o.getAttendances(k).value.Records? {
      tail := [GetAttendances, Disconnect, Disconnect];
      assert ex.calls == c.calls + tail;
    } else {
      tail := [GetAttendances, Disconnect];
      assert ex.calls == c.calls + tail;
    }
    ReleasedAfterConnect(c.calls, tail);
  }

  /** Connection attempts followed by calls that end with a disconnect. */
  lemma ReleasedAfterConnect(attempts: seq<Call>, tail: seq<Call>)
    requires attempts in {[CreateSocket], [CreateSocket, CreateSocket]}
    requires tail in {[Disconnect], [GetAttendances, Disconnect], [GetAttendances, Disconnect, Disconnect],
                      [GetUsers, Disconnect], [GetUsers, Disconnect, Disconnect]}
    ensures var calls := attempts + tail;
      && |calls| >= 2 && calls[|calls| - 1] == Disconnect
      && calls[..|attempts|] == attempts
      && CreateSocket !in calls[|attempts|..]
      && multiset(calls)[CreateSocket] <= 2
  {
    var calls := attempts + tail;
    assert calls[|attempts|..] == tail;
  }

  /** Data that is not an array is reported only after the device was disconnected,
      so the catch block disconnects a second time. */
  lemma LogsInvalidDataDisconnectsTwice(o: Oracle, q: Query, parseDate: string -> Timestamp, at: nat)
    requires !InvalidDate(q.from, parseDate) && !InvalidDate(q.to, parseDate)
    requires Connect(o, at).result.Resolved?
    requires var k := at + |Connect(o, at).calls|;
      o.getAttendances(k).Resolved? && !o.getAttendances(k).value.Records? && o.disconnect(k + 1).Resolved?
    ensures var ex, c := LogsExchange(o, q, parseDate, at), Connect(o, at);
      && ex.calls == c.calls + [GetAttendances, Disconnect, Disconnect]
      && ex.response == Response(500, Failure(InvalidLogDataMessage))
  {
  }
}
