/** What the entry point does with the parsed options before it starts the
    server: help is handled before version, both end the process with
    status 0, and otherwise the effective log level, port and host are
    chosen from the command line, then the environment, then a default,
    using JavaScript's `||` (so an empty string and a port of 0 count as
    absent). A parse error ends the process with status 1 before any of
    this. The environment is a parameter. */
module CliMain {
  import opened Wrappers
  import opened JsParseInt
  import opened CliArgs
  import opened CliArgsSpec
  import opened CliArgsProperties

  /** The process environment: variable name to value. */
  type Env = map<string, string>

  /** A resolved port: JavaScript's `undefined`, a number, or NaN (an
      `MCP_PORT` that `parseInt` cannot read is not checked). */
  datatype ResolvedPort = NoPort | PortNumber(n: int) | PortNaN

  /** The effective settings the entry point computes and reports. */
  datatype Settings = Settings(
    logLevel: string,
    port: ResolvedPort,
    host: string,
    stdio: bool,
    noAuth: bool,
    config: Option<string>)

  /** How the entry point ends: with an error (status 1), after printing
      help or the version (status 0), or by starting the server. */
  datatype Outcome =
    | Failed(error: ParseError)
    | ShowHelp
    | ShowVersion
    | Start(settings: Settings)

  /** The status the process exits with before the server starts, if it
      does so. */
  function ExitCode(out: Outcome): (code: Option<int>)
    ensures code == Some(1) <==> out.Failed?
    ensures code == Some(0) <==> out.ShowHelp? || out.ShowVersion?
    ensures code.None? <==> out.Start?
  {
    match out
    case Failed(_) => Some(1)
    case ShowHelp => Some(0)
    case ShowVersion => Some(0)
    case Start(_) => None
  }

  function Lookup(env: Env, name: string): Option<string> {
    if name in env then Some(env[name]) else None
  }

  /** JavaScript truthiness of an optional string: defined and non-empty. */
  predicate Truthy(v: Option<string>) {
    v.Some? && v.value != ""
  }

  /** JavaScript truthiness of an optional boolean. */
  predicate IsTrue(v: Option<bool>) {
    v == Some(true)
  }

  /** `v || fallback` for an optional string. */
  function Or(v: Option<string>, fallback: string): string {
    if Truthy(v) then v.value else fallback
  }

  /** `options.port || (MCP_PORT ? parseInt(MCP_PORT, 10) : undefined)`. */
  function ResolvePort(cli: Option<int>, env: Env): (r: ResolvedPort)
    ensures cli.Some? && cli.value != 0 ==> r == PortNumber(cli.value)
    ensures (cli.None? || cli.value == 0) && !Truthy(Lookup(env, "MCP_PORT")) ==> r == NoPort
    ensures (cli.None? || cli.value == 0) && Truthy(Lookup(env, "MCP_PORT")) ==>
      r == match ParseInt(env["MCP_PORT"]) case Some(n) => PortNumber(n) case None => PortNaN
  {
    if cli.Some? && cli.value != 0 then PortNumber(cli.value)
    else if Truthy(Lookup(env, "MCP_PORT")) then
      match ParseInt(env["MCP_PORT"])
      case Some(n) => PortNumber(n)
      case None => PortNaN
    else NoPort
  }

  /** Help before version before starting; each setting from the command
      line if set and non-empty, else the environment if set and non-empty,
      else the default. */
  function Resolve(o: CliOptions, env: Env): (r: Outcome)
    ensures r.Failed? == false
    ensures IsTrue(o.help) ==> r == ShowHelp
    ensures !IsTrue(o.help) && IsTrue(o.version) ==> r == ShowVersion
    ensures !IsTrue(o.help) && !IsTrue(o.version) ==> r.Start?
    ensures r.Start? ==> r.settings.logLevel != "" && r.settings.host != ""
    ensures r.Start? && Truthy(o.logLevel) ==> r.settings.logLevel == o.logLevel.value
    ensures r.Start? && !Truthy(o.logLevel) && Truthy(Lookup(env, "MCP_LOG_LEVEL")) ==>
      r.settings.logLevel == env["MCP_LOG_LEVEL"]
    ensures r.Start? && !Truthy(o.logLevel) && !Truthy(Lookup(env, "MCP_LOG_LEVEL")) ==>
      r.settings.logLevel == "info"
    ensures r.Start? && Truthy(o.host) ==> r.settings.host == o.host.value
    ensures r.Start? && !Truthy(o.host) && Truthy(Lookup(env, "MCP_HOST")) ==>
      r.settings.host == env["MCP_HOST"]
    ensures r.Start? && !Truthy(o.host) && !Truthy(Lookup(env, "MCP_HOST")) ==>
      r.settings.host == "localhost"
    ensures r.Start? ==> r.settings.stdio == IsTrue(o.stdio) && r.settings.noAuth == IsTrue(o.noAuth)
  {
    if IsTrue(o.help) then ShowHelp
    else if IsTrue(o.version) then ShowVersion
    else
      var logLevel := Or(o.logLevel, Or(Lookup(env, "MCP_LOG_LEVEL"), "info"));
      var port := ResolvePort(o.port, env);
      var host := Or(o.host, Or(Lookup(env, "MCP_HOST"), "localhost"));
      Start(Settings(logLevel, port, host, IsTrue(o.stdio), IsTrue(o.noAuth), o.config))
  }

  /** The entry point up to starting the server: scan, then resolve. */
  function Run(args: seq<string>, env: Env): (r: Outcome)
    ensures ParseArgs(args).Err? <==> r.Failed?
    ensures r.Failed? ==> r.error == ParseArgs(args).error
  {
    match ParseArgs(args)
    case Err(e) => Failed(e)
    case Ok(o) => Resolve(o, env)
  }

  /** Help is shown exactly when the arguments are accepted and some option
      position holds `-h` or `--help`; a bad argument anywhere wins. */
  lemma RunHelp(args: seq<string>, env: Env)
    ensures Run(args, env) == ShowHelp <==>
      ParseArgs(args).Ok? && exists j :: j in Starts(args, 0) && IsOneOf(args, j, {Help})
  {
    if ParseArgs(args).Ok? {
      ParseArgsFlag(args, Help);
    }
  }

  /** The version is shown exactly when the arguments are accepted, some
      option position holds `-v` or `--version`, and none holds help. */
  lemma RunVersion(args: seq<string>, env: Env)
    ensures Run(args, env) == ShowVersion <==>
      && ParseArgs(args).Ok?
      && (forall j :: j in Starts(args, 0) ==> !IsOneOf(args, j, {Help}))
      && exists j :: j in Starts(args, 0) && IsOneOf(args, j, {Version})
  {
    if ParseArgs(args).Ok? {
      ParseArgsFlag(args, Help);
      ParseArgsFlag(args, Version);
    }
  }

  /** The process stops with status 1 exactly when some option position
      holds a bad argument, with status 0 exactly when the arguments are
      accepted and some option position asks for help or the version, and
      otherwise goes on to start the server. */
  lemma RunExitCode(args: seq<string>, env: Env)
    ensures ExitCode(Run(args, env)) == Some(1) <==>
      exists j :: j in Starts(args, 0) && !Accepted(args, j)
    ensures ExitCode(Run(args, env)) == Some(0) <==>
      ParseArgs(args).Ok? && exists j :: j in Starts(args, 0) && IsOneOf(args, j, {Help, Version})
    ensures ExitCode(Run(args, env)).None? <==>
      ParseArgs(args).Ok? && forall j :: j in Starts(args, 0) ==> !IsOneOf(args, j, {Help, Version})
  {
    ParseArgsAccepts(args);
    if ParseArgs(args).Ok? {
      RunHelp(args, env);
      RunVersion(args, env);
      forall j | j in Starts(args, 0)
        ensures IsOneOf(args, j, {Help, Version}) <==> IsOneOf(args, j, {Help}) || IsOneOf(args, j, {Version})
      {
      }
    }
  }

  /** Once a level is given on the command line the environment does not
      matter, and the level is one of the four. */
  lemma CliLogLevelOverridesEnv(args: seq<string>, env1: Env, env2: Env)
    requires Run(args, env1).Start? && ParseArgs(args).value.logLevel.Some?
    ensures Run(args, env2).Start?
    ensures Run(args, env1).settings.logLevel == Run(args, env2).settings.logLevel
    ensures Run(args, env1).settings.logLevel in LogLevels
  {
  }

  /** A log level from the environment is used as it is, unchecked, while
      the same value on the command line is an error. */
  lemma EnvLogLevelUnchecked()
    ensures Run([], map["MCP_LOG_LEVEL" := "verbose"]).Start?
    ensures Run([], map["MCP_LOG_LEVEL" := "verbose"]).settings.logLevel == "verbose"
    ensures Run(["--log-level", "verbose"], map[]) == Failed(InvalidLogLevel)
  {
    assert "verbose" !in LogLevels;
    LogLevelChecked([], "verbose", []);
    assert [] + ["--log-level", "verbose"] + [] == ["--log-level", "verbose"];
  }

  /** `--port 0` is accepted and switches stdio off, but port 0 is falsy, so
      the port comes from `MCP_PORT`, or is left undefined without it. */
  lemma CliPortZeroFallsThrough(env: Env)
    ensures Run(["--port", "0"], env).Start?
    ensures !Run(["--port", "0"], env).settings.stdio
    ensures Truthy(Lookup(env, "MCP_PORT")) ==>
      (Run(["--port", "0"], env).settings.port
       == match ParseInt(env["MCP_PORT"]) case Some(n) => PortNumber(n) case None => PortNaN)
    ensures !Truthy(Lookup(env, "MCP_PORT")) ==> Run(["--port", "0"], env).settings.port == NoPort
  {
    var o := Initial.(port := Some(0), stdio := Some(false));
    assert ParseArgs(["--port", "0"]) == Ok(o) by {
      ParseIntZero();
      PortPairSets(["--port", "0"], Initial);
    }
  }

  /** A non-zero command-line port wins over `MCP_PORT`. */
  lemma CliPortOverridesEnv(args: seq<string>, env: Env)
    requires Run(args, env).Start?
    requires ParseArgs(args).value.port.Some? && ParseArgs(args).value.port.value != 0
    ensures Run(args, env).settings.port == PortNumber(ParseArgs(args).value.port.value)
  {
  }

  /** An `MCP_PORT` that is set and non-empty but not a number is not
      rejected: whenever the command line gives no port, or port 0, the port
      is NaN; and with no command-line port the transport stays stdio. */
  lemma EnvPortUnchecked(args: seq<string>, env: Env)
    requires Run(args, env).Start?
    requires ParseArgs(args).value.port.None? || ParseArgs(args).value.port == Some(0)
    requires "MCP_PORT" in env && env["MCP_PORT"] != "" && ParseInt(env["MCP_PORT"]).None?
    ensures Run(args, env).settings.port == PortNaN
    ensures ParseArgs(args).value.port.None? ==> Run(args, env).settings.stdio
  {
    var o := ParseArgs(args).value;
    assert Reachable(o);
    if o.port.None? {
      assert o.stdio.value by {
        assert o.stdio == Some(o.stdio.value);
      }
    }
  }

  /** `MCP_PORT=abc` gives a NaN port, while `--port abc` is an error. */
  lemma EnvPortWord()
    ensures Run([], map["MCP_PORT" := "abc"]).settings.port == PortNaN
    ensures Run(["--port", "abc"], map[]) == Failed(PortNotANumber)
  {
    assert Run([], map["MCP_PORT" := "abc"]).settings.port == PortNaN by {
      ParseIntWords();
      EnvPortUnchecked([], map["MCP_PORT" := "abc"]);
    }
    assert ParseArgs(["--port", "abc"]) == Err(PortNotANumber) by {
      ParseIntWords();
      PortNotNumberRejected([], "abc", []);
      assert [] + ["--port", "abc"] + [] == ["--port", "abc"];
    }
  }

  /** `--host ""` is accepted, but the empty host is falsy, so the host
      comes from `MCP_HOST` or the default. */
  lemma EmptyCliHostFallsThrough(env: Env)
    ensures Run(["--host", ""], env).Start?
    ensures Run(["--host", ""], env).settings.host == Or(Lookup(env, "MCP_HOST"), "localhost")
  {
    ValueNotInterpreted([], "", []);
    assert [] + ["--host", ""] + [] == ["--host", ""];
  }

  /** A parse error comes before help: `--help --bogus` fails. */
  lemma ParseErrorBeforeHelp(env: Env)
    ensures Run(["--help", "--bogus"], env) == Failed(UnknownOption("--bogus"))
  {
    FlagSets([], ["--bogus"]);
    assert [] + ["--help"] + ["--bogus"] == ["--help", "--bogus"];
  }

  /** Help wins over version whatever their order. */
  lemma HelpBeforeVersion(env: Env)
    ensures Run(["--version", "--help"], env) == ShowHelp
    ensures Run(["-v", "-h"], env) == ShowHelp
    ensures Run(["--help", "--version"], env) == ShowHelp
    ensures Run(["-h", "-v"], env) == ShowHelp
  {
  }
}
