/** The device side of the gateway: the records the attendance terminal reports,
    the device library seen as an oracle, the shared connection object that records
    every call made on it, and the connect-with-one-retry helper. */
module Device {
  import opened Js

  /** A user as the device reports it; the gateway passes it on unchanged. */
  datatype User = User(uid: nat, userId: string, name: string)

  /** The value of `new Date(...)` in milliseconds; `None` is an Invalid Date. */
  type Timestamp = Option<int>

  /** One attendance punch. `recordTime` is the record's time read as a date;
      `extra` holds the device's other fields, carried unchanged. */
  datatype LogRecord = LogRecord(deviceUserId: Scalar, recordTime: Timestamp, extra: map<string, string>)

  /** The value `getAttendances` resolves with: a falsy value, a value whose `data`
      is not an array, or a value whose `data` is an array of records. */
  datatype AttendanceData = NoData | DataNotArray | Records(data: seq<LogRecord>)

  /** How one device call settles: resolved with a value, or rejected with an error
      carrying `message`. */
  datatype Reply<+T> = Resolved(value: T) | Rejected(message: string)

  /** The calls the gateway makes on the device library. */
  datatype Call = CreateSocket | GetUsers | GetAttendances | Disconnect

  /** The device library's behaviour: how each kind of call settles when it is the
      `k`-th call made on the connection object (counting from 0). */
  datatype Oracle = Oracle(
    createSocket: nat -> Reply<()>,
    getUsers: nat -> Reply<seq<User>>,
    getAttendances: nat -> Reply<AttendanceData>,
    disconnect: nat -> Reply<()>)

  /** The module-level connection object: every call is appended to `trace` and
      settles as the oracle says for its position. */
  class Zk {
    const oracle: Oracle
    var trace: seq<Call>

    constructor (oracle: Oracle)
      ensures this.oracle == oracle && trace == []
    {
      this.oracle := oracle;
      trace := [];
    }

    method CreateSocket() returns (r: Reply<()>)
      modifies this
      ensures trace == old(trace) + [Call.CreateSocket]
      ensures r == oracle.createSocket(|old(trace)|)
    {
      r := oracle.createSocket(|trace|);
      trace := trace + [Call.CreateSocket];
    }

    method GetUsers() returns (r: Reply<seq<User>>)
      modifies this
      ensures trace == old(trace) + [Call.GetUsers]
      ensures r == oracle.getUsers(|old(trace)|)
    {
      r := oracle.getUsers(|trace|);
      trace := trace + [Call.GetUsers];
    }

    method GetAttendances() returns (r: Reply<AttendanceData>)
      modifies this
      ensures trace == old(trace) + [Call.GetAttendances]
      ensures r == oracle.getAttendances(|old(trace)|)
    {
      r := oracle.getAttendances(|trace|);
      trace := trace + [Call.GetAttendances];
    }

    method Disconnect() returns (r: Reply<()>)
      modifies this
      ensures trace == old(trace) + [Call.Disconnect]
      ensures r == oracle.disconnect(|old(trace)|)
    {
      r := oracle.disconnect(|trace|);
      trace := trace + [Call.Disconnect];
    }
  }

  const RetryFailurePrefix: string := "Failed to connect to device after retry: "

  /** The calls a piece of the gateway makes and how it settles. */
  datatype Run<+T> = Run(calls: seq<Call>, result: Reply<T>)

  /** Connecting with one retry, starting at call position `at`. */
  function Connect(o: Oracle, at: nat): Run<()>
  {
    if o.createSocket(at).Resolved? then Run([CreateSocket], Resolved(()))
    else match o.createSocket(at + 1)
      case Resolved(_) => Run([CreateSocket, CreateSocket], Resolved(()))
      case Rejected(m) => Run([CreateSocket, CreateSocket], Rejected(RetryFailurePrefix + m))
  }

  /** `connectToDevice`: one attempt, and on its failure one more; when that fails too
      the error names the second failure. */
  method ConnectToDevice(zk: Zk) returns (r: Reply<()>)
    modifies zk
    ensures zk.trace == old(zk.trace) + Connect(zk.oracle, |old(zk.trace)|).calls
    ensures r == Connect(zk.oracle, |old(zk.trace)|).result
  {
    var first := zk.CreateSocket();
    if first.Resolved? {
      return Resolved(());
    }
    // the one-second pause before the retry is not modelled
    var second := zk.CreateSocket();
    match second
    case Resolved(_) =>
      r := Resolved(());
    case Rejected(m) =>
      r := Rejected(RetryFailurePrefix + m);
  }

  /** `createSocket` is called once when it succeeds at once, and twice otherwise. */
  lemma ConnectAttempts(o: Oracle, at: nat)
    ensures var run := Connect(o, at);
      && (o.createSocket(at).Resolved? ==> run.calls == [CreateSocket])
      && (o.createSocket(at).Rejected? ==> run.calls == [CreateSocket, CreateSocket])
      && multiset(run.calls)[CreateSocket] <= 2
      && forall c :: c in run.calls ==> c == CreateSocket
  {
  }

  /** Connecting fails exactly when both attempts fail, with the prefixed message of
      the second failure; otherwise it succeeds. */
  lemma ConnectOutcome(o: Oracle, at: nat)
    ensures var run := Connect(o, at);
      && (run.result.Rejected? <==> o.createSocket(at).Rejected? && o.createSocket(at + 1).Rejected?)
      && (run.result.Rejected? ==> run.result.message == RetryFailurePrefix + o.createSocket(at + 1).message)
      && (run.result.Resolved? ==> run.result == Resolved(()))
  {
  }
}
