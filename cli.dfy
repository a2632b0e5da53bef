/** The scan of the process arguments that chooses the HTTP bind port and host.
    Every argument is looked at in turn, including one that a preceding
    `--port` or `--host` has already used as its value. */
module CommandLine {
  import opened Js

  const DefaultPort: int := 3000
  const DefaultHost: string := "0.0.0.0"

  /** The bind settings; `port == None` is the `NaN` that `parseInt` gives for
      text that does not start with a number. */
  datatype Settings = Settings(port: Option<int>, host: string)

  const Defaults: Settings := Settings(Some(DefaultPort), DefaultHost)

  /** What one argument position does: set the port from some text, set the
      host, or nothing. */
  datatype Effect = SetPort(portText: string) | SetHost(host: string) | NoEffect

  /** The value of an `--port=...` or `--host=...` argument: the second piece of
      `arg.split("=")`. */
  function EqualsValue(arg: string): string
    requires '=' in arg
  {
    Split(arg, '=')[1]
  }

  /** The branch the loop body takes at position `i`. The separate-value forms need
      a next argument that is truthy, i.e. present and not empty. */
  function ArgEffect(args: seq<string>, i: nat): Effect
    requires i < |args|
  {
    var arg := args[i];
    var hasValue := i + 1 < |args| && args[i + 1] != "";
    if arg == "--port" && hasValue then SetPort(args[i + 1])
    else if arg == "--host" && hasValue then SetHost(args[i + 1])
    else if "--port=" <= arg then assert arg[6] == '='; SetPort(EqualsValue(arg))
    else if "--host=" <= arg then assert arg[6] == '='; SetHost(EqualsValue(arg))
    else NoEffect
  }

  /** The settings after one position's effect. */
  function Apply(s: Settings, e: Effect, parseInt: string -> Option<int>): Settings
  {
    match e
    case SetPort(text) => s.(port := parseInt(text))
    case SetHost(h) => s.(host := h)
    case NoEffect => s
  }

  /** The settings once the first `n` positions have been scanned. */
  function ScanPrefix(args: seq<string>, parseInt: string -> Option<int>, n: nat): Settings
    requires n <= |args|
    decreases n
  {
    if n == 0 then Defaults
    else Apply(ScanPrefix(args, parseInt, n - 1), ArgEffect(args, n - 1), parseInt)
  }

  /** The settings the whole argument list leads to. */
  function Scan(args: seq<string>, parseInt: string -> Option<int>): Settings
  {
    ScanPrefix(args, parseInt, |args|)
  }

  /** The argument loop: starts from the defaults and lets each argument update the
      port or the host. */
  method ScanArgs(args: seq<string>, parseInt: string -> Option<int>) returns (port: Option<int>, host: string)
    ensures Settings(port, host) == Scan(args, parseInt)
  {
    port, host := Some(DefaultPort), DefaultHost;
    for i := 0 to |args|
      invariant Settings(port, host) == ScanPrefix(args, parseInt, i)
    {
      if args[i] == "--port" && i + 1 < |args| && args[i + 1] != "" {
        port := parseInt(args[i + 1]);
      } else if args[i] == "--host" && i + 1 < |args| && args[i + 1] != "" {
        host := args[i + 1];
      } else if "--port=" <= args[i] {
        assert args[i][6] == '=';
        port := parseInt(EqualsValue(args[i]));
      } else if "--host=" <= args[i] {
        assert args[i][6] == '=';
        host := EqualsValue(args[i]);
      }
    }
  }

  /** With no argument that sets anything (in particular with no arguments at all),
      the settings are the defaults, port 3000 and host "0.0.0.0". */
  lemma {:induction false} ScanWithoutFlags(args: seq<string>, parseInt: string -> Option<int>, n: nat)
    requires n <= |args|
    requires forall k :: 0 <= k < n ==> ArgEffect(args, k) == NoEffect
    ensures ScanPrefix(args, parseInt, n) == Settings(Some(3000), "0.0.0.0")
    decreases n
  {
    if n > 0 {
      ScanWithoutFlags(args, parseInt, n - 1);
    }
  }

  /** The last position that sets the port decides it; host settings in between
      do not touch it. */
  lemma {:induction false} PortFromLastPortFlag(args: seq<string>, parseInt: string -> Option<int>, n: nat, j: nat)
    requires j < n <= |args|
    requires ArgEffect(args, j).SetPort?
    requires forall k :: j < k < n ==> !ArgEffect(args, k).SetPort?
    ensures ScanPrefix(args, parseInt, n).port == parseInt(ArgEffect(args, j).portText)
    decreases n
  {
    if n - 1 > j {
      PortFromLastPortFlag(args, parseInt, n - 1, j);
    }
  }

  /** Without a position that sets the port, the port stays 3000 whatever the host
      arguments do. */
  lemma {:induction false} PortDefaultWithoutPortFlag(args: seq<string>, parseInt: string -> Option<int>, n: nat)
    requires n <= |args|
    requires forall k :: 0 <= k < n ==> !ArgEffect(args, k).SetPort?
    ensures ScanPrefix(args, parseInt, n).port == Some(3000)
    decreases n
  {
    if n > 0 {
      PortDefaultWithoutPortFlag(args, parseInt, n - 1);
    }
  }

  /** The last position that sets the host decides it; port settings in between
      do not touch it. */
  lemma {:induction false} HostFromLastHostFlag(args: seq<string>, parseInt: string -> Option<int>, n: nat, j: nat)
    requires j < n <= |args|
    requires ArgEffect(args, j).SetHost?
    requires forall k :: j < k < n ==> !ArgEffect(args, k).SetHost?
    ensures ScanPrefix(args, parseInt, n).host == ArgEffect(args, j).host
    decreases n
  {
    if n - 1 > j {
      HostFromLastHostFlag(args, parseInt, n - 1, j);
    }
  }

  /** Without a position that sets the host, the host stays "0.0.0.0" whatever the
      port arguments do. */
  lemma {:induction false} HostDefaultWithoutHostFlag(args: seq<string>, parseInt: string -> Option<int>, n: nat)
    requires n <= |args|
    requires forall k :: 0 <= k < n ==> !ArgEffect(args, k).SetHost?
    ensures ScanPrefix(args, parseInt, n).host == "0.0.0.0"
    decreases n
  {
    if n > 0 {
      HostDefaultWithoutHostFlag(args, parseInt, n - 1);
    }
  }

  /** A `--port` or `--host` in last position, having no value to take, changes
      nothing. */
  lemma TrailingFlagIgnored(args: seq<string>, parseInt: string -> Option<int>)
    requires |args| >= 1 && args[|args| - 1] in {"--port", "--host"}
    ensures Scan(args, parseInt) == ScanPrefix(args, parseInt, |args| - 1)
  {
    assert !("--port=" <= args[|args| - 1]) && !("--host=" <= args[|args| - 1]);
  }

  /** A `--port` or `--host` followed by an empty argument changes nothing. */
  lemma EmptyValueIgnored(args: seq<string>, i: nat)
    requires i + 1 < |args| && args[i] in {"--port", "--host"} && args[i + 1] == ""
    ensures ArgEffect(args, i) == NoEffect
  {
    assert !("--port=" <= args[i]) && !("--host=" <= args[i]);
  }

  /** `--port=v` and `--host=v` take `v` up to its first `=`, and all of it when it
      holds none. */
  lemma EqualsFormValue(args: seq<string>, i: nat, flag: string, v: string)
    requires i < |args| && flag in {"--port", "--host"} && args[i] == flag + "=" + v
    ensures ArgEffect(args, i) == (if flag == "--port" then SetPort(Split(v, '=')[0]) else SetHost(Split(v, '=')[0]))
    ensures '=' !in v ==> ArgEffect(args, i) == (if flag == "--port" then SetPort(v) else SetHost(v))
  {
    assert args[i] == flag + ['='] + v;
    SecondPiece(flag, v, '=');
    assert args[i] != "--port" && args[i] != "--host";
    assert args[i][..7] == flag + "=";
    if flag == "--port" {
      assert "--port=" <= args[i];
    } else {
      assert args[i][2] == 'h';
      assert !("--port=" <= args[i]);
    }
    if '=' !in v {
      SplitWithoutSeparator(v, '=');
    }
  }

  /** The value after `--port` is scanned again as an argument of its own:
      `--port --host=h` sets the port from the text "--host=h" and the host to "h". */
  lemma FlagValueRescanned(parseInt: string -> Option<int>, h: string)
    requires '=' !in h
    ensures Scan(["--port", "--host=" + h], parseInt) == Settings(parseInt("--host=" + h), h)
  {
    var args := ["--port", "--host=" + h];
    EqualsFormValue(args, 1, "--host", h);
    assert ArgEffect(args, 0) == SetPort("--host=" + h);
  }
}
