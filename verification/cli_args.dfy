/** The command-line option scan of the debugger server's entry point: a
    left-to-right pass over the arguments after the program name that sets
    fields of an options record, where the value-taking options consume the
    token after them and anything unrecognised stops the process with an
    error. Stopping the process is an `Err` here. */
module CliArgs {
  import opened Wrappers
  import opened JsParseInt

  /** The parsed options; an unset field is `None` (JavaScript `undefined`). */
  datatype CliOptions = CliOptions(
    help: Option<bool>,
    version: Option<bool>,
    stdio: Option<bool>,
    port: Option<int>,
    host: Option<string>,
    logLevel: Option<string>,
    noAuth: Option<bool>,
    config: Option<string>)

  /** Why the scan stopped; each is an error message and exit status 1. */
  datatype ParseError =
    | MissingValue(option: string)  // a value-taking option was the last token
    | PortNotANumber                // `parseInt` of the `--port` value was NaN
    | InvalidLogLevel               // the `--log-level` value is not a known level
    | UnknownOption(arg: string)    // a token that is not an option name

  /** The options before any argument is read: stdio transport, nothing else set. */
  const Initial := CliOptions(None, None, Some(true), None, None, None, None, None)

  const LogLevels: set<string> := {"debug", "info", "warn", "error"}

  /** The options that take the next token as their value. */
  const ValueOptions: set<string> := {"--port", "--host", "--log-level", "--config"}

  /** The options that take no value. */
  const FlagOptions: set<string> := {"-h", "--help", "-v", "--version", "--stdio", "--no-auth"}

  const KnownOptions: set<string> := ValueOptions + FlagOptions

  /** The option kinds the scan recognises, each named after the field it
      sets (`--port` also clears `stdio`). */
  datatype OptionKind = Help | Version | Stdio | Port | Host | LogLevel | NoAuth | Config
  {
    /** The kinds that read the following token as their value. */
    predicate TakesValue() {
      this in {Port, Host, LogLevel, Config}
    }
  }

  /** The cases of the `switch`: which option a token names, if any. Only
      exact matches count, so `--port=3000` names nothing. */
  function Classify(arg: string): Option<OptionKind> {
    if arg == "-h" || arg == "--help" then Some(Help)
    else if arg == "-v" || arg == "--version" then Some(Version)
    else if arg == "--stdio" then Some(Stdio)
    else if arg == "--port" then Some(Port)
    else if arg == "--host" then Some(Host)
    else if arg == "--log-level" then Some(LogLevel)
    else if arg == "--no-auth" then Some(NoAuth)
    else if arg == "--config" then Some(Config)
    else None
  }

  /** The recognised tokens are exactly the option names, and the
      value-taking kinds are exactly those of the value-taking names. */
  lemma ClassifyNames(arg: string)
    ensures Classify(arg).Some? <==> arg in KnownOptions
    ensures Classify(arg).Some? ==> (Classify(arg).value.TakesValue() <==> arg in ValueOptions)
  {
  }

  /** The scan from position `i` on, with `acc` the options read so far. A
      value-taking option at `i` reads `args[i + 1]` and resumes at `i + 2`. */
  function ParseFrom(args: seq<string>, i: nat, acc: CliOptions): Result<CliOptions, ParseError>
    decreases |args| - i
  {
    if i >= |args| then Ok(acc)
    else
      match Classify(args[i])
      case None => Err(UnknownOption(args[i]))
      case Some(kind) =>
        if !kind.TakesValue() then ParseFrom(args, i + 1, SetFlag(acc, kind))
        else if i + 1 >= |args| then Err(MissingValue(args[i]))
        else match SetValue(acc, kind, args[i + 1])
          case Err(e) => Err(e)
          case Ok(acc') => ParseFrom(args, i + 2, acc')
  }

  /** The effect of a flag option. */
  function SetFlag(acc: CliOptions, kind: OptionKind): CliOptions
    requires !kind.TakesValue()
  {
    match kind
    case Help => acc.(help := Some(true))
    case Version => acc.(version := Some(true))
    case Stdio => acc.(stdio := Some(true))
    case NoAuth => acc.(noAuth := Some(true))
  }

  /** The effect of a value-taking option with its value: a port must read
      as a number and switches stdio off, a log level must be one of the
      four, a host or config file is any token at all. */
  function SetValue(acc: CliOptions, kind: OptionKind, value: string): Result<CliOptions, ParseError>
    requires kind.TakesValue()
  {
    match kind
    case Port =>
      (match ParseInt(value)
       case None => Err(PortNotANumber)
       case Some(n) => Ok(acc.(port := Some(n), stdio := Some(false))))
    case Host => Ok(acc.(host := Some(value)))
    case LogLevel => if value in LogLevels then Ok(acc.(logLevel := Some(value))) else Err(InvalidLogLevel)
    case Config => Ok(acc.(config := Some(value)))
  }

  /** The options a parse can produce: the flags are only ever set to true,
      stdio is always set and is false only after a `--port`, and a log level
      is one of the four levels. */
  predicate Reachable(o: CliOptions) {
    && o.help in {None, Some(true)}
    && o.version in {None, Some(true)}
    && o.noAuth in {None, Some(true)}
    && o.stdio.Some?
    && (o.stdio == Some(false) ==> o.port.Some?)
    && (o.logLevel.Some? ==> o.logLevel.value in LogLevels)
  }

  /** A flag keeps the options reachable. */
  lemma SetFlagReachable(acc: CliOptions, kind: OptionKind)
    requires Reachable(acc) && !kind.TakesValue()
    ensures Reachable(SetFlag(acc, kind))
  {
  }

  /** An accepted value keeps the options reachable. */
  lemma SetValueReachable(acc: CliOptions, kind: OptionKind, value: string)
    requires Reachable(acc) && kind.TakesValue()
    ensures SetValue(acc, kind, value).Ok? ==> Reachable(SetValue(acc, kind, value).value)
  {
  }

  /** Every step keeps the options reachable. */
  lemma {:induction false} ParseFromReachable(args: seq<string>, i: nat, acc: CliOptions)
    requires Reachable(acc)
    ensures ParseFrom(args, i, acc).Ok? ==> Reachable(ParseFrom(args, i, acc).value)
    decreases |args| - i
  {
    if i < |args| && Classify(args[i]).Some? {
      var kind := Classify(args[i]).value;
      if !kind.TakesValue() {
        SetFlagReachable(acc, kind);
        ParseFromReachable(args, i + 1, SetFlag(acc, kind));
      } else if i + 1 < |args| {
        var step := SetValue(acc, kind, args[i + 1]);
        SetValueReachable(acc, kind, args[i + 1]);
        if step.Ok? {
          ParseFromReachable(args, i + 2, step.value);
        }
      }
    }
  }

  /** `parseArgs`: the whole argument list from the initial options. An
      empty list gives the initial options. */
  function ParseArgs(args: seq<string>): (r: Result<CliOptions, ParseError>)
    ensures args == [] ==> r == Ok(Initial)
    ensures r.Ok? ==> Reachable(r.value)
  {
    ParseFromReachable(args, 0, Initial);
    ParseFrom(args, 0, Initial)
  }

  /** The source's own shape: a `for` loop over an index that a value-taking
      option advances past its value, leaving at the first error. The
      `switch` on the argument is `Classify`. */
  method ParseArgsLoop(args: seq<string>) returns (r: Result<CliOptions, ParseError>)
    ensures r == ParseArgs(args)
  {
    var options := Initial;
    var i := 0;
    while i < |args|
      invariant 0 <= i <= |args|
      invariant ParseFrom(args, i, options) == ParseFrom(args, 0, Initial)
      decreases |args| - i
    {
      var arg := args[i];
      match Classify(arg) {
        case None =>
          return Err(UnknownOption(arg));
        case Some(kind) =>
          if !kind.TakesValue() {
            options := SetFlag(options, kind);
          } else {
            if i + 1 >= |args| {
              return Err(MissingValue(arg));
            }
            i := i + 1;
            match SetValue(options, kind, args[i]) {
              case Err(e) =>
                return Err(e);
              case Ok(next) =>
                options := next;
            }
          }
      }
      i := i + 1;
    }
    return Ok(options);
  }
}
