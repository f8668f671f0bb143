/** Properties of `parseArgs` over whole argument lists, stated the way a
    user of the command line sees them. Most are about appending options to
    a list that already parses (`p` below), so they hold wherever the
    options appear, not just at the start. */
module CliArgsProperties {
  import opened Wrappers
  import opened JsParseInt
  import opened CliArgs
  import opened CliArgsSpec

  /** Appending to an accepted list: the appended tokens are read from the
      options the list gave, so no value-taking option reads across. */
  lemma ParseArgsAppend(p: seq<string>, s: seq<string>)
    requires ParseArgs(p).Ok?
    ensures ParseArgs(p + s) == ParseFrom(s, 0, ParseArgs(p).value)
  {
    ParseFromAppend(p, s, Initial);
  }

  /** Parsing `p`, then a group `q` of tokens, then the rest. */
  lemma ParseArgsThen(p: seq<string>, q: seq<string>, s: seq<string>, o: CliOptions)
    requires ParseArgs(p).Ok? && ParseFrom(q, 0, ParseArgs(p).value) == Ok(o)
    ensures ParseArgs(p + q + s) == ParseFrom(s, 0, o)
  {
    assert p + q + s == p + (q + s);
    ParseArgsAppend(p, q + s);
    ParseFromAppend(q, s, ParseArgs(p).value);
  }

  /** A list is accepted exactly when every option position holds an
      accepted option; otherwise the error is the first rejected one's. */
  lemma ParseArgsAccepts(args: seq<string>)
    ensures ParseArgs(args).Ok? <==> forall j :: j in Starts(args, 0) ==> Accepted(args, j)
    ensures ParseArgs(args).Err? ==>
      exists j :: && j in Starts(args, 0) && !Accepted(args, j)
                  && ParseArgs(args).error == Rejection(args, j)
                  && forall k :: k in Starts(args, 0) && k < j ==> Accepted(args, k)
  {
    ParseFromAccepts(args, 0, Initial);
    if ParseArgs(args).Err? {
      ParseFromFirstRejection(args, 0, Initial);
    }
  }

  /** Every field of the result is decided by the last option that writes
      it: a repeated value option keeps its last value, a later `--stdio`
      or `--port` decides the transport. Unwritten fields keep their
      initial values (stdio on, the rest unset). */
  lemma ParseArgsLastWriteWins(args: seq<string>, f: OptionKind)
    requires ParseArgs(args).Ok?
    ensures Get(ParseArgs(args).value, f) == FinalValue(args, 0, Initial, f)
  {
    ParseFromFinalValue(args, 0, Initial, f);
  }

  /** A flag is set exactly when some option position holds it; it is never
      set to false. */
  lemma ParseArgsFlag(args: seq<string>, f: OptionKind)
    requires ParseArgs(args).Ok?
    requires f in {Help, Version, NoAuth}
    ensures Get(ParseArgs(args).value, f) == Flag(true) <==>
      exists j :: j in Starts(args, 0) && IsOneOf(args, j, {f})
    ensures Get(ParseArgs(args).value, f) != Flag(true) ==> Get(ParseArgs(args).value, f) == Unset
  {
    ParseArgsLastWriteWins(args, f);
    LastStartIsLast(args, 0, Writers(f));
    if LastStart(args, 0, Writers(f)).None? {
      forall j | j in Starts(args, 0) ensures !IsOneOf(args, j, {f}) {
      }
    }
  }

  /** A flag repeated is the flag once. */
  lemma FlagIdempotent(p: seq<string>, flag: string, s: seq<string>)
    requires ParseArgs(p).Ok? && flag in FlagOptions
    ensures ParseArgs(p + [flag, flag] + s) == ParseArgs(p + [flag] + s)
  {
    ClassifyNames(flag);
    var o := ParseArgs(p).value;
    var kind := Classify(flag).value;
    var once := SetFlag(o, kind);
    assert SetFlag(once, kind) == once;
    assert ParseFrom([flag], 0, o) == Ok(once);
    assert ParseFrom([flag, flag], 1, once) == Ok(once);
    ParseArgsThen(p, [flag], s, once);
    ParseArgsThen(p, [flag, flag], s, once);
  }

  /** `-h`/`--help`, `-v`/`--version` and `--no-auth` set their field, and
      nothing else. */
  lemma FlagSets(p: seq<string>, s: seq<string>)
    requires ParseArgs(p).Ok?
    ensures ParseArgs(p + ["-h"] + s) == ParseArgs(p + ["--help"] + s)
      == ParseFrom(s, 0, ParseArgs(p).value.(help := Some(true)))
    ensures ParseArgs(p + ["-v"] + s) == ParseArgs(p + ["--version"] + s)
      == ParseFrom(s, 0, ParseArgs(p).value.(version := Some(true)))
    ensures ParseArgs(p + ["--no-auth"] + s)
      == ParseFrom(s, 0, ParseArgs(p).value.(noAuth := Some(true)))
  {
    var o := ParseArgs(p).value;
    ParseArgsThen(p, ["-h"], s, o.(help := Some(true)));
    ParseArgsThen(p, ["--help"], s, o.(help := Some(true)));
    ParseArgsThen(p, ["-v"], s, o.(version := Some(true)));
    ParseArgsThen(p, ["--version"], s, o.(version := Some(true)));
    ParseArgsThen(p, ["--no-auth"], s, o.(noAuth := Some(true)));
  }

  /** `--port N` with a numeric `N` sets the port and switches stdio off. */
  lemma PortPairSets(q: seq<string>, o: CliOptions)
    requires |q| == 2 && q[0] == "--port" && ParseInt(q[1]).Some?
    ensures ParseFrom(q, 0, o) == Ok(o.(port := ParseInt(q[1]), stdio := Some(false)))
  {
    var o' := o.(port := ParseInt(q[1]), stdio := Some(false));
    assert Accepted(q, 0) && StepOptions(q, 0, o) == o' by {
      assert Classify(q[0]) == Some(Port);
    }
    ParseFromStep(q, 0, o);
    assert ParseFrom(q, 2, o') == Ok(o');
  }

  /** A later `--stdio` switches stdio back on and leaves the port alone. */
  lemma PortThenStdioSets(o: CliOptions, n: string)
    requires ParseInt(n).Some?
    ensures ParseFrom(["--port", n, "--stdio"], 0, o) == Ok(o.(port := ParseInt(n), stdio := Some(true)))
  {
    var o' := o.(port := ParseInt(n), stdio := Some(false));
    var p, q := ["--port", n], ["--stdio"];
    assert ParseFrom(p, 0, o) == Ok(o') by {
      PortPairSets(p, o);
    }
    assert ParseFrom(q, 0, o') == Ok(o'.(stdio := Some(true)));
    assert ParseFrom(p + q, 0, o) == ParseFrom(q, 0, o') by {
      ParseFromAppend(p, q, o);
    }
    assert p + q == ["--port", n, "--stdio"];
  }

  /** `--port N` with a numeric `N` sets the port and switches stdio off; a
      later `--stdio` switches stdio back on and leaves the port alone. */
  lemma PortThenStdio(p: seq<string>, n: string, s: seq<string>)
    requires ParseArgs(p).Ok? && ParseInt(n).Some?
    ensures ParseArgs(p + ["--port", n] + s)
      == ParseFrom(s, 0, ParseArgs(p).value.(port := ParseInt(n), stdio := Some(false)))
    ensures ParseArgs(p + ["--port", n, "--stdio"] + s)
      == ParseFrom(s, 0, ParseArgs(p).value.(port := ParseInt(n), stdio := Some(true)))
  {
    var o := ParseArgs(p).value;
    PortPairSets(["--port", n], o);
    ParseArgsThen(p, ["--port", n], s, o.(port := ParseInt(n), stdio := Some(false)));
    PortThenStdioSets(o, n);
    ParseArgsThen(p, ["--port", n, "--stdio"], s, o.(port := ParseInt(n), stdio := Some(true)));
  }

  /** A value-taking option as the last token is an error naming it. */
  lemma ValueOptionLast(p: seq<string>, option: string)
    requires ParseArgs(p).Ok? && option in ValueOptions
    ensures ParseArgs(p + [option]) == Err(MissingValue(option))
  {
    ClassifyNames(option);
    ParseArgsAppend(p, [option]);
  }

  /** A port value that `parseInt` reads as NaN is an error, whatever follows. */
  lemma PortNotNumberRejected(p: seq<string>, n: string, s: seq<string>)
    requires ParseArgs(p).Ok? && ParseInt(n).None?
    ensures ParseArgs(p + ["--port", n] + s) == Err(PortNotANumber)
  {
    assert p + ["--port", n] + s == p + (["--port", n] + s);
    ParseArgsAppend(p, ["--port", n] + s);
  }

  /** `--log-level` accepts exactly `debug`, `info`, `warn` and `error`. */
  lemma LogLevelChecked(p: seq<string>, level: string, s: seq<string>)
    requires ParseArgs(p).Ok?
    ensures level !in LogLevels ==> ParseArgs(p + ["--log-level", level] + s) == Err(InvalidLogLevel)
    ensures level in LogLevels ==>
      (ParseArgs(p + ["--log-level", level] + s)
       == ParseFrom(s, 0, ParseArgs(p).value.(logLevel := Some(level))))
  {
    var o := ParseArgs(p).value;
    if level in LogLevels {
      assert ParseFrom(["--log-level", level], 2, o.(logLevel := Some(level))) == Ok(o.(logLevel := Some(level)));
      ParseArgsThen(p, ["--log-level", level], s, o.(logLevel := Some(level)));
    } else {
      assert p + ["--log-level", level] + s == p + (["--log-level", level] + s);
      ParseArgsAppend(p, ["--log-level", level] + s);
    }
  }

  /** Any token that is not exactly an option name is an error naming it,
      whatever follows; `--port=3000` is such a token. */
  lemma UnknownRejected(p: seq<string>, token: string, s: seq<string>)
    requires ParseArgs(p).Ok? && token !in KnownOptions
    ensures ParseArgs(p + [token] + s) == Err(UnknownOption(token))
  {
    ClassifyNames(token);
    assert p + [token] + s == p + ([token] + s);
    ParseArgsAppend(p, [token] + s);
  }

  /** The value of `--host` or `--config` is taken as it is, even when it
      looks like an option, and is never read as one. */
  lemma ValueNotInterpreted(p: seq<string>, value: string, s: seq<string>)
    requires ParseArgs(p).Ok?
    ensures ParseArgs(p + ["--host", value] + s)
      == ParseFrom(s, 0, ParseArgs(p).value.(host := Some(value)))
    ensures ParseArgs(p + ["--config", value] + s)
      == ParseFrom(s, 0, ParseArgs(p).value.(config := Some(value)))
  {
    var o := ParseArgs(p).value;
    assert ParseFrom(["--host", value], 2, o.(host := Some(value))) == Ok(o.(host := Some(value)));
    ParseArgsThen(p, ["--host", value], s, o.(host := Some(value)));
    assert ParseFrom(["--config", value], 2, o.(config := Some(value))) == Ok(o.(config := Some(value)));
    ParseArgsThen(p, ["--config", value], s, o.(config := Some(value)));
  }

  /** A repeated `--host` or `--config` keeps the last value. */
  lemma RepeatedValueKeepsLast(p: seq<string>, first: string, last: string, s: seq<string>)
    requires ParseArgs(p).Ok?
    ensures ParseArgs(p + ["--host", first, "--host", last] + s) == ParseArgs(p + ["--host", last] + s)
    ensures ParseArgs(p + ["--config", first, "--config", last] + s) == ParseArgs(p + ["--config", last] + s)
  {
    var o := ParseArgs(p).value;
    var h := o.(host := Some(last));
    assert ParseFrom(["--host", first, "--host", last], 0, o) == Ok(h) by {
      assert ParseFrom(["--host", first, "--host", last], 4, h) == Ok(h);
    }
    assert ParseFrom(["--host", last], 0, o) == Ok(h) by {
      assert ParseFrom(["--host", last], 2, h) == Ok(h);
    }
    ParseArgsThen(p, ["--host", first, "--host", last], s, h);
    ParseArgsThen(p, ["--host", last], s, h);
    var c := o.(config := Some(last));
    assert ParseFrom(["--config", first, "--config", last], 0, o) == Ok(c) by {
      assert ParseFrom(["--config", first, "--config", last], 4, c) == Ok(c);
    }
    assert ParseFrom(["--config", last], 0, o) == Ok(c) by {
      assert ParseFrom(["--config", last], 2, c) == Ok(c);
    }
    ParseArgsThen(p, ["--config", first, "--config", last], s, c);
    ParseArgsThen(p, ["--config", last], s, c);
  }

  /** `--host --help` sets the host to `--help` and leaves help unset. */
  lemma HostTakesOptionLikeValue()
    ensures ParseArgs(["--host", "--help"]) == Ok(Initial.(host := Some("--help")))
  {
    ValueNotInterpreted([], "--help", []);
    assert [] + ["--host", "--help"] + [] == ["--host", "--help"];
  }

  /** `--port=3000` is not an option name. */
  lemma EqualsFormRejected()
    ensures ParseArgs(["--port=3000"]) == Err(UnknownOption("--port=3000"))
  {
    UnknownRejected([], "--port=3000", []);
    assert [] + ["--port=3000"] + [] == ["--port=3000"];
  }

  /** `--port 3000abc` is port 3000: only the leading digits are read. */
  lemma PortTrailingText()
    ensures ParseArgs(["--port", "3000abc"]) == Ok(Initial.(port := Some(3000), stdio := Some(false)))
  {
    ParseIntTrailingText();
    PortPairSets(["--port", "3000abc"], Initial);
  }
}
