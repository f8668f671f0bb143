/** The inverse of the option scan: an argument list that spells out a
    given set of options. Every options value the scan can produce is
    spelled back to itself, so the reachable options are exactly the image
    of `parseArgs`. */
module CliArgsRender {
  import opened Wrappers
  import opened JsParseInt
  import opened CliArgs
  import opened CliArgsSpec
  import opened CliArgsProperties

  function FlagArgs(v: Option<bool>, name: string): seq<string> {
    if v == Some(true) then [name] else []
  }

  function ValueArgs(v: Option<string>, name: string): seq<string> {
    match v
    case Some(x) => [name, x]
    case None => []
  }

  /** `--port` with the decimal spelling of the port, then `--stdio` when
      stdio was switched back on after it. */
  function PortArgs(o: CliOptions): seq<string> {
    match o.port
    case Some(n) => ["--port", IntToDecimal(n)] + (if o.stdio == Some(true) then ["--stdio"] else [])
    case None => []
  }

  function FlagsPart(o: CliOptions): seq<string> {
    FlagArgs(o.help, "--help") + FlagArgs(o.version, "--version") + FlagArgs(o.noAuth, "--no-auth")
  }

  function ValuesPart(o: CliOptions): seq<string> {
    ValueArgs(o.host, "--host") + ValueArgs(o.logLevel, "--log-level") + ValueArgs(o.config, "--config")
  }

  /** A canonical argument list for the options: the flags, then the
      valued options, then the transport. */
  function Render(o: CliOptions): seq<string> {
    FlagsPart(o) + ValuesPart(o) + PortArgs(o)
  }

  lemma FlagArgsParse(x: CliOptions, v: Option<bool>, name: string, kind: OptionKind)
    requires Classify(name) == Some(kind) && !kind.TakesValue()
    ensures ParseFrom(FlagArgs(v, name), 0, x) == Ok(if v == Some(true) then SetFlag(x, kind) else x)
  {
    if v == Some(true) {
      var q := FlagArgs(v, name);
      assert q[0] == name;
      assert Accepted(q, 0);
      ParseFromStep(q, 0, x);
    }
  }

  lemma ValueArgsParse(x: CliOptions, v: Option<string>, name: string, kind: OptionKind)
    requires Classify(name) == Some(kind) && kind in {Host, LogLevel, Config}
    requires kind == LogLevel && v.Some? ==> v.value in LogLevels
    ensures v.Some? ==> ParseFrom(ValueArgs(v, name), 0, x) == SetValue(x, kind, v.value)
    ensures v.Some? ==> SetValue(x, kind, v.value).Ok?
    ensures v.None? ==> ParseFrom(ValueArgs(v, name), 0, x) == Ok(x)
  {
    if v.Some? {
      var q := ValueArgs(v, name);
      assert q[0] == name && q[1] == v.value;
      assert Accepted(q, 0);
      ParseFromStep(q, 0, x);
    }
  }

  lemma PortArgsParse(x: CliOptions, o: CliOptions)
    requires o.stdio.Some?
    ensures o.port.Some? ==>
      ParseFrom(PortArgs(o), 0, x) == Ok(x.(port := o.port, stdio := o.stdio))
    ensures o.port.None? ==> ParseFrom(PortArgs(o), 0, x) == Ok(x)
  {
    if o.port.Some? {
      var d := IntToDecimal(o.port.value);
      var o' := x.(port := o.port, stdio := o.stdio);
      if o.stdio == Some(true) {
        assert ParseFrom(["--port", d, "--stdio"], 0, x) == Ok(o') by {
          ParseIntOfIntToDecimal(o.port.value);
          PortThenStdioSets(x, d);
        }
        assert PortArgs(o) == ["--port", d, "--stdio"];
      } else {
        assert o.stdio == Some(false) && ParseFrom(["--port", d], 0, x) == Ok(o') by {
          assert o.stdio == Some(o.stdio.value) && !o.stdio.value;
          ParseIntOfIntToDecimal(o.port.value);
          PortPairSets(["--port", d], x);
        }
        assert PortArgs(o) == ["--port", d];
      }
    } else {
      assert PortArgs(o) == [];
    }
  }

  lemma FlagsPartParse(o: CliOptions)
    requires Reachable(o)
    ensures ParseFrom(FlagsPart(o), 0, Initial)
      == Ok(Initial.(help := o.help, version := o.version, noAuth := o.noAuth))
  {
    var x1 := Initial.(help := o.help);
    var x2 := x1.(version := o.version);
    FlagArgsParse(Initial, o.help, "--help", Help);
    FlagArgsParse(x1, o.version, "--version", Version);
    FlagArgsParse(x2, o.noAuth, "--no-auth", NoAuth);
    ParseFromAppend(FlagArgs(o.help, "--help"), FlagArgs(o.version, "--version"), Initial);
    ParseFromAppend(FlagArgs(o.help, "--help") + FlagArgs(o.version, "--version"), FlagArgs(o.noAuth, "--no-auth"),
                    Initial);
  }

  lemma ValuesPartParse(x: CliOptions, o: CliOptions)
    requires Reachable(o)
    requires x.host.None? && x.logLevel.None? && x.config.None?
    ensures ParseFrom(ValuesPart(o), 0, x)
      == Ok(x.(host := o.host, logLevel := o.logLevel, config := o.config))
  {
    var x1 := x.(host := o.host);
    var x2 := x1.(logLevel := o.logLevel);
    ValueArgsParse(x, o.host, "--host", Host);
    ValueArgsParse(x1, o.logLevel, "--log-level", LogLevel);
    ValueArgsParse(x2, o.config, "--config", Config);
    ParseFromAppend(ValueArgs(o.host, "--host"), ValueArgs(o.logLevel, "--log-level"), x);
    ParseFromAppend(ValueArgs(o.host, "--host") + ValueArgs(o.logLevel, "--log-level"), ValueArgs(o.config, "--config"),
                    x);
  }

  /** Round trip: the scan reads the rendering of any reachable options back
      as those very options. */
  lemma RenderRoundTrip(o: CliOptions)
    requires Reachable(o)
    ensures ParseArgs(Render(o)) == Ok(o)
  {
    var x3 := Initial.(help := o.help, version := o.version, noAuth := o.noAuth);
    var x6 := x3.(host := o.host, logLevel := o.logLevel, config := o.config);
    FlagsPartParse(o);
    ValuesPartParse(x3, o);
    PortArgsParse(x6, o);
    assert x6.(port := o.port, stdio := o.stdio) == o;
    if o.port.None? {
      assert o.stdio == Some(o.stdio.value) && o.stdio.value;
      assert x6 == o;
    }
    ParseFromAppend(FlagsPart(o), ValuesPart(o), Initial);
    ParseFromAppend(FlagsPart(o) + ValuesPart(o), PortArgs(o), Initial);
  }

  /** The reachable options are exactly the ones some argument list
      produces. */
  lemma ReachableIsImage(o: CliOptions)
    ensures Reachable(o) <==> exists args :: ParseArgs(args) == Ok(o)
  {
    if Reachable(o) {
      RenderRoundTrip(o);
    }
  }

  /** Every accepted argument list has a canonical equivalent. */
  lemma Canonical(args: seq<string>)
    requires ParseArgs(args).Ok?
    ensures ParseArgs(Render(ParseArgs(args).value)) == ParseArgs(args)
  {
    RenderRoundTrip(ParseArgs(args).value);
  }
}
