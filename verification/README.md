# mcp-debugger-server command line, in Dafny

This project models the command-line entry point of the MCP ACS Debugger
Server (`src/cli.ts`). It covers two pieces:

- `parseArgs`: a left-to-right scan of the arguments after the program name.
  It fills an options record; `--port`, `--host`, `--log-level` and
  `--config` consume the next token as their value. Any unrecognised token,
  missing value, port that `parseInt` reads as NaN, or log level outside
  `debug`/`info`/`warn`/`error` ends the process with status 1.
- The part of `main` that decides what happens next. Help is handled before
  version (both exit 0). Otherwise the effective log level, port and host
  come from the command line, then the `MCP_*` environment variables, then
  the defaults. They are combined with JavaScript's `||`, so an empty string
  or a port of 0 counts as absent.

Modules:

- `Wrappers`: `Option` and `Result`.
- `JsParseInt`: JavaScript's `parseInt(s, 10)`. It skips ECMAScript white
  space and line terminators, reads an optional sign, then the longest run of
  ASCII digits; no digits is NaN (`None`). It has an inverse-style partner:
  the decimal spelling of any integer, after white space and before a
  non-digit, reads back as that integer.
- `CliArgs`: the options record, the errors, the scan as a recursive
  function, and the scan as the source's `for` loop (proved equal). It also
  defines `Reachable`, the invariant every result satisfies.
- `CliArgsSpec`: a description of the scan that does not carry options
  along:
  - which positions are read as option names;
  - when the list is accepted, and which error the first rejected option
    gives;
  - for each field, which occurrence decides its final value (the last
    writer).
  Lemmas connect it to the scan.
- `CliArgsProperties`: user-level properties over whole argument lists.
  Most are stated for options appended to any accepted prefix.
- `CliArgsRender`: the inverse of the scan. It spells options as arguments,
  proves the round trip for every reachable options value, and so shows that
  the reachable values are exactly the scan's image.
- `CliMain`: help/version/start outcomes, exit codes and settings
  resolution. The environment is a parameter.

Behaviour of the source that the model makes explicit:

- `--port 0` is accepted and turns stdio off, but 0 is falsy, so the port
  comes from `MCP_PORT`.
- `MCP_PORT` and `MCP_LOG_LEVEL` are not validated: `MCP_PORT=abc` gives a
  NaN port, and `MCP_LOG_LEVEL=verbose` is used as is.
- `--port 3000abc` is port 3000, and `--port 0x10` is port 0.
- `--host ""` falls through to `MCP_HOST`.

## Model

| member | source | states |
|---|---|---|
| JsParseInt.ParseIntOfDecimal | src/cli.ts:104 | the decimal spelling of any integer, after any white space and before any text that does not start with a digit, is read back by `parseInt` as that integer |
| JsParseInt.ParseIntOfDigits | src/cli.ts:104 | any digit run after white space and at most one sign, and before text that does not start with a digit, reads as the run's decimal value, negated after `-`, leading zeros included |
| JsParseInt.ParseIntOfIntToDecimal | src/cli.ts:104 | the decimal spelling of any integer alone reads back as that integer |
| JsParseInt.ParseIntPlusSign | src/cli.ts:104 | a leading `+` is accepted and does not change the value |
| JsParseInt.ParseIntSkipsWhitespace | src/cli.ts:104 | leading white space never changes what `parseInt` returns |
| JsParseInt.ParseIntNaN | src/cli.ts:104-108 | the result is NaN when, after the white space and at most one sign, no digit follows, e.g. a lone sign or `--help` |
| JsParseInt.ParseIntNeedsDigit | src/cli.ts:104 | text without any digit is NaN, and a negative result needs a `-` in the text |
| JsParseInt.ParseTrimmedNeedsDigit | src/cli.ts:104 | after trimming, no digit means NaN, and a negative result starts with `-` |
| JsParseInt.DigitPrefixIsLongest | src/cli.ts:104 | the digits read are a prefix of the text, and no digit follows them |
| JsParseInt.DigitPrefixOfDigits | src/cli.ts:104 | a digit run followed by a non-digit is exactly the digits read |
| JsParseInt.DigitsValueOfDecimal | src/cli.ts:104 | the value of a number's decimal digits is that number |
| JsParseInt.ParseIntTrailingText | src/cli.ts:104 | `"3000abc"` reads as 3000 |
| JsParseInt.ParseIntHexPrefix | src/cli.ts:104 | radix 10 ignores a `0x` prefix: `"0x10"` reads as 0 |
| JsParseInt.ParseIntZero | src/cli.ts:104 | `"0"` reads as 0 |
| JsParseInt.DigitsValueLeadingZero | src/cli.ts:104 | a leading `0` does not change the value of a digit run |
| JsParseInt.ParseIntLeadingZero | src/cli.ts:104 | a zero put in front of the digit run, after any white space and sign, does not change what `parseInt` reads, so `"0080"` reads as `"80"` |
| JsParseInt.ParseIntWords | src/cli.ts:104-105 | `"abc"` and the empty string are NaN |
| JsParseInt.ParseIntOptionName | src/cli.ts:104-105 | `"--help"` is NaN |
| CliArgs.ClassifyNames | src/cli.ts:84-150 | exactly the ten option names are recognised, and exactly `--port`, `--host`, `--log-level` and `--config` take a value |
| CliArgs.ParseArgs | src/cli.ts:76-154 | an empty list gives stdio on and every other field unset; every successful result is reachable: flags only ever true, stdio always set and false only together with a port, log level one of the four |
| CliArgs.ParseFromReachable | src/cli.ts:81-151 | every step of the scan keeps the options reachable |
| CliArgs.SetFlagReachable | src/cli.ts:85-97 | a flag option keeps the options reachable |
| CliArgs.SetValueReachable | src/cli.ts:99-144 | an accepted value option keeps the options reachable |
| CliArgs.ParseArgsLoop | src/cli.ts:76-154 | the `for` loop with its in-loop index advance and early exits computes the same result as the recursive scan |
| CliArgsSpec.ParseFromRejects | src/cli.ts:99-150 | a rejected option at the current position stops the scan with its error: missing value, port NaN, bad log level or unknown option |
| CliArgsSpec.ParseFromAccepts | src/cli.ts:81-150 | the scan succeeds if and only if every position read as an option name holds an accepted option |
| CliArgsSpec.ParseFromFirstRejection | src/cli.ts:81-150 | on failure the error is that of the first rejected option position, and every earlier one is accepted |
| CliArgsSpec.LastStartIsLast | src/cli.ts:81-151 | the last writer of a field is an option position of a writing kind with none after it, and there is none exactly when no option position writes the field |
| CliArgsSpec.StepWrites | src/cli.ts:84-144 | one option changes exactly the fields it writes (`--port` writes port and stdio) and leaves the others alone |
| CliArgsSpec.ParseFromStep | src/cli.ts:81-151 | an accepted option is one step of the scan, past its value when it takes one |
| CliArgsSpec.ParseFromFinalValue | src/cli.ts:81-153 | after a successful scan each field holds the value its last writing option gave it, or its starting value |
| CliArgsSpec.ParseFromShift | src/cli.ts:81-151 | the scan of a suffix does not depend on the tokens before it |
| CliArgsSpec.ParseFromPrefix | src/cli.ts:81-151 | scanning an accepted prefix and then more tokens passes through the prefix's result |
| CliArgsSpec.ParseFromAppend | src/cli.ts:81-151 | scanning `p + s` is scanning `p`, then `s` from the options `p` gave; no value option reads across the boundary |
| CliArgsProperties.ParseArgsAppend | src/cli.ts:81-151 | appending to an accepted list resumes from the options the list gave |
| CliArgsProperties.ParseArgsThen | src/cli.ts:81-151 | a prefix, a group of tokens and the rest are scanned one after the other |
| CliArgsProperties.ParseArgsAccepts | src/cli.ts:81-150 | a list is accepted if and only if every option position is accepted; otherwise the error is that of the first rejected one |
| CliArgsProperties.ParseArgsLastWriteWins | src/cli.ts:81-153 | every field of the result is decided by the last option that writes it |
| CliArgsProperties.ParseArgsFlag | src/cli.ts:85-136 | help, version and noAuth are true if and only if some option position holds them, and unset otherwise (never false) |
| CliArgsProperties.FlagIdempotent | src/cli.ts:85-136 | a flag given twice in a row has the effect of giving it once, wherever it appears |
| CliArgsProperties.FlagSets | src/cli.ts:85-93 | `-h`/`--help`, `-v`/`--version` and `--no-auth` each set their own field to true and nothing else, and the short and long forms agree |
| CliArgsProperties.PortPairSets | src/cli.ts:99-110 | a two-token `--port N` group, with N a number, sets the port and turns stdio off |
| CliArgsProperties.PortThenStdioSets | src/cli.ts:95-110 | `--port N --stdio` sets the port and leaves stdio on |
| CliArgsProperties.PortThenStdio | src/cli.ts:95-110 | after any accepted prefix, `--port N` sets the port and turns stdio off, and a following `--stdio` turns it back on without touching the port |
| CliArgsProperties.ValueOptionLast | src/cli.ts:99-142 | a value-taking option as the last token is a missing-value error naming that option |
| CliArgsProperties.PortNotNumberRejected | src/cli.ts:104-108 | a `--port` value that `parseInt` reads as NaN is an error, whatever follows |
| CliArgsProperties.LogLevelChecked | src/cli.ts:120-131 | `--log-level` accepts exactly `debug`, `info`, `warn` and `error`, and any other value is an error |
| CliArgsProperties.UnknownRejected | src/cli.ts:146-150 | any token that is not exactly an option name is an unknown-option error naming it, whatever follows |
| CliArgsProperties.ValueNotInterpreted | src/cli.ts:112-144 | the token after `--host` or `--config` is taken as the value whatever it looks like, and is never read as an option |
| CliArgsProperties.RepeatedValueKeepsLast | src/cli.ts:112-144 | a repeated `--host` or `--config` has the effect of its last occurrence alone |
| CliArgsProperties.HostTakesOptionLikeValue | src/cli.ts:112-118 | `--host --help` sets the host to `--help` and leaves help unset |
| CliArgsProperties.EqualsFormRejected | src/cli.ts:146-150 | `--port=3000` is an unknown option |
| CliArgsProperties.PortTrailingText | src/cli.ts:99-110 | `--port 3000abc` is port 3000 with stdio off |
| CliArgsRender.FlagArgsParse | src/cli.ts:85-136 | the spelling of a flag field reads back as that field |
| CliArgsRender.ValueArgsParse | src/cli.ts:112-144 | the spelling of a host, log-level or config field reads back as that field |
| CliArgsRender.PortArgsParse | src/cli.ts:95-110 | the spelling of the port and transport reads back as them |
| CliArgsRender.FlagsPartParse | src/cli.ts:85-136 | the spelled flags read back as the flag fields |
| CliArgsRender.ValuesPartParse | src/cli.ts:112-144 | the spelled host, log level and config read back as those fields |
| CliArgsRender.RenderRoundTrip | src/cli.ts:76-154 | every reachable options value is produced by the scan from its spelling |
| CliArgsRender.ReachableIsImage | src/cli.ts:76-154 | an options value is reachable if and only if some argument list parses to it |
| CliArgsRender.Canonical | src/cli.ts:76-154 | every accepted argument list has a canonical equivalent |
| CliMain.RunExitCode | src/cli.ts:98-169 | the process exits with status 1 if and only if some option position holds a bad argument, with status 0 if and only if the list is accepted and some option position holds help or version, and goes on to start the server otherwise |
| CliMain.ResolvePort | src/cli.ts:173-177 | a non-zero command-line port wins; otherwise a non-empty `MCP_PORT` is read by `parseInt` (NaN included); otherwise the port is undefined |
| CliMain.Resolve | src/cli.ts:160-178 | help wins over version, which wins over starting; log level and host are each the first non-empty of command line, environment and default, so never empty; the transport and auth switches are the command-line ones |
| CliMain.Run | src/cli.ts:157-178 | the entry point fails exactly when the scan fails, with the scan's error |
| CliMain.RunHelp | src/cli.ts:158-164 | help is shown if and only if the list is accepted and some option position holds `-h` or `--help` |
| CliMain.RunVersion | src/cli.ts:158-169 | the version is shown if and only if the list is accepted, some option position holds `-v` or `--version` and none holds help |
| CliMain.CliLogLevelOverridesEnv | src/cli.ts:172 | a command-line log level makes the environment irrelevant to it, and it is one of the four levels |
| CliMain.EnvLogLevelUnchecked | src/cli.ts:172 | `MCP_LOG_LEVEL=verbose` is used as is, while `--log-level verbose` is an error |
| CliMain.CliPortZeroFallsThrough | src/cli.ts:173-177 | `--port 0` turns stdio off but the port comes from `MCP_PORT`, or is undefined without it |
| CliMain.CliPortOverridesEnv | src/cli.ts:173-177 | a non-zero command-line port wins over `MCP_PORT` |
| CliMain.EnvPortUnchecked | src/cli.ts:173-177 | for any accepted arguments that give no port or port 0, a non-empty `MCP_PORT` that `parseInt` reads as NaN gives a NaN port; with no command-line port stdio also stays on |
| CliMain.EnvPortWord | src/cli.ts:173-177 | `MCP_PORT=abc` gives a NaN port, while `--port abc` is an error |
| CliMain.EmptyCliHostFallsThrough | src/cli.ts:178 | `--host ""` is accepted, but the host comes from `MCP_HOST` or the default |
| CliMain.ParseErrorBeforeHelp | src/cli.ts:157-164 | `--help --bogus` fails with an unknown-option error rather than showing help |
| CliMain.HelpBeforeVersion | src/cli.ts:160-169 | with both help and version given, in either order and in long or short form, help is shown |

## Left out

- `printHelp`, `printVersion` and every `console` message, including the startup banner and the log-level condition that shows it (src/cli.ts:14-63, 180-193). They are text output only; the banner reads the settings but changes nothing.
- `process.exit` is not termination here. It is an `Err` from the scan and an `Outcome` with `ExitCode` from the entry point.
- `startMcpDebuggerServer` and its error handling (src/cli.ts:195-208). It is a call into a module that is not part of this model. It takes no arguments, so the resolved settings only reach the banner.
- The `unhandledRejection`/`uncaughtException` handlers in src/index.ts: runtime plumbing.
- The end-to-end specs and the slow-completion fixture. They exercise the debugging engine over stdio, and that engine is not part of this model.
- `--config` is recorded, not loaded: the entry point never reads the file. `MCP_AUTH_TOKEN` appears only in the help text.
- JsParseInt.ParseInt: reads into unbounded integers. JavaScript numbers are doubles, so digit runs beyond 2^53 round and very long ones become Infinity. `"-0"` gives -0 in JavaScript and 0 here. Both are falsy for `||` and both are accepted by the scan.
- JsParseInt.NatToDecimal: is JavaScript's `String(n)` only for safe integers. It is used only to build spellings for the round trip.
