# Attendance gateway: a Dafny model of `server.js`

The gateway is a small HTTP service in front of a ZKTeco biometric attendance
terminal. It offers two endpoints, `GET /users` and `GET /logs`. Each request
connects to the device, retrying once if the first attempt fails. It then makes
one device call, disconnects, and answers with JSON. `/logs` also checks its
`from`/`to` dates before it contacts the device, and afterwards filters the
records in memory by date range and user id. At startup the process scans its
arguments for the HTTP bind port and host.

The model has five modules:

- `Js` (`js.dfy`): the JavaScript built-ins that the logic relies on. These are
  an optional value (absent parameter, `NaN`, Invalid Date), the truthiness of a
  query parameter, `split` on a one-character separator, and `String(n)` for an
  integer.
- `CommandLine` (`cli.dfy`): the argument loop, as an imperative method proved
  against `Scan`, a fold over the arguments. The lemmas cover the defaults,
  last-wins, which variable each form updates, and flags without a value.
- `Device` (`device.dfy`): the records the device reports and the device
  library, seen as an `Oracle`. The oracle says how the k-th call on the
  connection object settles. The shared connection object is the class `Zk`. It
  appends every call to `trace`. The module also holds `connectToDevice`
  (`ConnectToDevice`, specified by `Connect`).
- `LogFilter` (`logfilter.dfy`): the `/logs` filter callback and `filter`, as
  pure functions with lemmas: subsequence, membership, multiplicity, identity
  without criteria, and idempotence.
- `Handlers` (`handlers.dfy`): both endpoints. Each has a function
  (`UsersExchange`, `LogsExchange`) that gives the calls made on the device and
  the response. A method (`HandleUsers`, `HandleLogs`) makes those calls on `Zk`
  with the same try/catch structure as the source. The lemmas cover the status
  codes, error messages, device release, and what a successful `/logs` returns.

`parseInt` and `new Date(...)` are engine-defined, so they are parameters of
type `string -> Option<int>`, where `None` is `NaN` or an Invalid Date. A log
record's `recordTime` is kept as the value of `new Date(log.recordTime)`, an
`Option<int>` of milliseconds.

Three behaviours of the code are modelled as written, though a cleaner design
would avoid them:

- A device session is not closed exactly once per successful open. The catch
  block calls `disconnect` even when no connection was made. The code
  disconnects a second time when the first `disconnect` fails, or when `/logs`
  finds the data is not an array (this check runs after the disconnect). See
  `UsersReleasesDevice`, `LogsReleasesDevice` and
  `LogsInvalidDataDisconnectsTwice`.
- "No user filter" and "no date bound" are truthiness tests, so an empty string
  counts as absent.
- `--port X` and `--host X` do not skip `X`. The next iteration scans the value
  again as an argument of its own (`FlagValueRescanned`).

## Model

| member | source | states |
|---|---|---|
| `Js.Split` | server.js:18 | `s.split(c)` yields at least one piece, no piece contains the separator, and there are at least two pieces when the separator occurs |
| `Js.JoinSplit` | server.js:18 | splitting loses nothing: joining the pieces with the separator gives back the original string |
| `Js.SecondPiece` | server.js:18 | in `p + "=" + t` with no `=` in `p`, the first piece is `p` and the second is the first piece of `t` |
| `Js.SplitWithoutSeparator` | server.js:20 | a string without the separator splits into itself alone |
| `Js.NumberToString` | server.js:115 | `String(n)` is non-empty and starts with `-` exactly when `n` is negative |
| `Js.DigitsRoundTrip` | server.js:115 | reading back the decimal digits of `n` gives `n` |
| `Js.NumberToStringInjective` | server.js:115 | two integers that print alike are equal, so a numeric user id matches only its own decimal text |
| `CommandLine.ScanArgs` | server.js:8-22 | the argument loop leaves port and host equal to `Scan(args)`, starting from the defaults and applying each position's branch in order |
| `CommandLine.ScanWithoutFlags` | server.js:9-12 | when no argument sets anything, for example an empty argument list, the result is port 3000 and host "0.0.0.0" |
| `CommandLine.PortFromLastPortFlag` | server.js:12-22 | the port is `parseInt` of the value given by the last position that sets the port; host-setting positions after it do not change it |
| `CommandLine.PortDefaultWithoutPortFlag` | server.js:9-22 | without a port-setting position the port stays 3000, whatever the host arguments are |
| `CommandLine.HostFromLastHostFlag` | server.js:12-22 | the host is the value given by the last position that sets the host; port-setting positions after it do not change it |
| `CommandLine.HostDefaultWithoutHostFlag` | server.js:10-22 | without a host-setting position the host stays "0.0.0.0", whatever the port arguments are |
| `CommandLine.TrailingFlagIgnored` | server.js:13-21 | a `--port` or `--host` in the last position changes nothing |
| `CommandLine.EmptyValueIgnored` | server.js:13-16 | a `--port` or `--host` followed by an empty argument changes nothing, because the empty string is falsy |
| `CommandLine.EqualsFormValue` | server.js:17-20 | `--port=v` and `--host=v` take `v` up to its first `=`, and all of `v` when it has no `=` |
| `CommandLine.FlagValueRescanned` | server.js:12-22 | `--port --host=h` sets the port from the text "--host=h" and then the host to "h" |
| `Device.Zk.constructor` | server.js:31 | the connection object starts with no calls recorded |
| `Device.Zk.CreateSocket` | server.js:37 | appends one `createSocket` call to the trace and settles as the device answers for that position |
| `Device.Zk.GetUsers` | server.js:61 | appends one `getUsers` call and settles as the device answers |
| `Device.Zk.GetAttendances` | server.js:98 | appends one `getAttendances` call and settles as the device answers |
| `Device.Zk.Disconnect` | server.js:63 | appends one `disconnect` call and settles as the device answers |
| `Device.ConnectToDevice` | server.js:34-53 | the calls made and the outcome are those of `Connect`: one attempt, one retry on failure, and the prefixed error when both fail |
| `Device.ConnectAttempts` | server.js:34-53 | `createSocket` is called once when the first attempt succeeds and twice otherwise, never more than twice, and nothing else is called |
| `Device.ConnectOutcome` | server.js:44-51 | connecting fails exactly when both attempts fail; the message is then "Failed to connect to device after retry: " followed by the second failure's message |
| `LogFilter.Filter` | server.js:108-118 | the filtered logs are no longer than the data and every one of them passes the callback |
| `LogFilter.FilterIsSubsequence` | server.js:105-120 | the result is an order-preserving subsequence of `rawLogs.data`: nothing is added, reordered or modified |
| `LogFilter.FilterMembership` | server.js:108-118 | a record is in the result exactly when it is in the data and the callback keeps it (date bounds, then the user id compared as strings) |
| `LogFilter.FilterCountsKept` | server.js:108-118 | a kept record occurs as often as in the data; a rejected one does not occur |
| `LogFilter.FilterUnconstrained` | server.js:111-117 | with no date bound and no truthy user id, the filter returns the data unchanged |
| `LogFilter.FilterIdempotent` | server.js:108-118 | filtering the result again with the same query changes nothing |
| `LogFilter.UndatedRecordDropped` | server.js:109-112 | a record whose time is an Invalid Date is dropped whenever either bound is present |
| `LogFilter.DateRangeExample` | server.js:111-112 | bounds are inclusive: of records on days 1, 15 and 32, the range 10 to 31 keeps only day 15 |
| `LogFilter.UserIdComparedAsString` | server.js:114-115 | user id "7" matches both the number 7 and the text "7", and no other number |
| `Handlers.ErrorResponse` | server.js:72-76 | the catch response has status 500, `success: false`, and `err.message`, or "Unknown error" when that is empty |
| `Handlers.HandleUsers` | server.js:56-78 | the handler's device calls and response are those of `UsersExchange`, including the best-effort disconnect in the catch block |
| `Handlers.UsersOutcome` | server.js:57-77 | `/users` answers 200 with the device's users exactly when connect, `getUsers` and `disconnect` all succeed; otherwise it answers 500 with the failing step's message |
| `Handlers.UsersReleasesDevice` | server.js:58-71 | `/users` makes at most two connection attempts, makes none after them, and always ends with a disconnect, also on failure |
| `Handlers.UsersSucceedsWhenDeviceAnswers` | server.js:57-66 | when the device answers this request's three calls, the request succeeds whatever earlier requests saw |
| `Handlers.HandleLogs` | server.js:81-132 | the handler's device calls and response are those of `LogsExchange` |
| `Handlers.LogsRejectsInvalidDate` | server.js:85-93 | `/logs` answers 400 "Invalid date format. Use MM/DD/YYYY" with no device call exactly when a truthy `from` or `to` does not parse as a date |
| `Handlers.LogsOutcome` | server.js:95-131 | `/logs` answers 200 with the filtered data exactly when the dates are valid, the three device calls succeed and `data` is an array; otherwise, with valid dates, it answers the 500 error response carrying the failing step's message: the connect error, the `getAttendances` or `disconnect` rejection, or "Device returned invalid or no log data." |
| `Handlers.LogsAreFilteredDeviceData` | server.js:101-120 | a successful `/logs` returns an order-preserving subsequence of the device's records, holding exactly those the callback keeps |
| `Handlers.LogsUnfilteredWithoutParameters` | server.js:108-120 | without `from`, `to` or `userId`, a successful `/logs` returns the device's data unchanged |
| `Handlers.LogsReleasesDevice` | server.js:95-125 | once the dates are valid, `/logs` makes at most two connection attempts and always ends with a disconnect, also on failure |
| `Handlers.LogsInvalidDataDisconnectsTwice` | server.js:98-125 | data that is not an array yields 500 "Device returned invalid or no log data.", after the device was disconnected twice |

## Left out

- The Express app, CORS, routing and `app.listen` (server.js:1-5, 28, 135-138) are HTTP plumbing. The model starts at the handler bodies and ends at the response value.
- The `zklib-js` device protocol is a foreign library. It is an oracle that says how the k-th call on the connection object settles. The device address, port and timeouts passed to it (server.js:25-26, 31) are therefore not modelled.
- The one-second pause before the retry (server.js:42) is timing only. The model keeps the fact that a second attempt follows.
- `parseInt` and `new Date(...)` string parsing are engine-defined. They are parameters, with `None` for `NaN` and for an Invalid Date.
- Console logging, and the raw `error: err` object in 500 bodies, are not modelled. A 500 body holds only `success: false` and `message`.
- Concurrent requests interleaving on the shared module-level connection object (server.js:31) are event-loop concurrency. Each handler is modelled as one sequential run over the object's call trace.
- A device call that rejects with something other than an `Error` (no `message` property) is not modelled. Every rejection carries a message string.
- Query parameters given more than once (which Express turns into arrays) are not modelled. Each parameter is absent or one string.
- A numeric `deviceUserId` is an integer. Non-integer numbers and their `String` forms are not modelled.
- `getUsers` resolves with a value that is passed through unchanged. It is modelled as a sequence of users, not as the library's exact object shape.
- Js.NumberToString: gives the decimal form only, which is JavaScript's `String(n)` for integers with |n| < 10^21. Numeric user ids are assumed to lie in that range. Above it, JavaScript prints exponent form ("1e+21"), and integers above 2^53 are not exact JavaScript numbers at all.
- Every element of `rawLogs.data` is modelled as an object record. If an element is `null` or `undefined`, reading `log.recordTime` (server.js:109) throws a TypeError. The catch block would then disconnect a second time and answer 500 with that error's message. This path is not modelled.
