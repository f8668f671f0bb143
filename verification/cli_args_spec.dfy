/** A description of the option scan that does not carry options along:
    which positions of the argument list are read as option names, when the
    scan accepts the list, and, for each field of the options, which option
    occurrence decides its final value (the last one that writes it). The
    lemmas connect this description to `CliArgs.ParseFrom`. */
module CliArgsSpec {
  import opened Wrappers
  import opened JsParseInt
  import opened CliArgs

  /** How many tokens an option occupies: its name, plus a value for the
      value-taking options. */
  function Width(tok: string): nat {
    match Classify(tok)
    case Some(kind) => if kind.TakesValue() then 2 else 1
    case None => 1
  }

  /** The positions from `i` on that the scan reads as option names: every
      token that is not the value of a value-taking option before it. */
  function Starts(args: seq<string>, i: nat): (s: set<nat>)
    ensures forall j :: j in s ==> i <= j < |args|
    decreases |args| - i
  {
    if i >= |args| then {} else {i} + Starts(args, i + Width(args[i]))
  }

  /** The option at position `j` is one the scan accepts: a known name, a
      value present when one is needed, a port value `parseInt` can read and
      a log level from the closed set. */
  predicate Accepted(args: seq<string>, j: nat)
    requires j < |args|
  {
    match Classify(args[j])
    case None => false
    case Some(kind) =>
      kind.TakesValue() ==>
        && j + 1 < |args|
        && (kind == Port ==> ParseInt(args[j + 1]).Some?)
        && (kind == LogLevel ==> args[j + 1] in LogLevels)
  }

  /** The error a rejected option stops the scan with. */
  function Rejection(args: seq<string>, j: nat): ParseError
    requires j < |args| && !Accepted(args, j)
  {
    match Classify(args[j])
    case None => UnknownOption(args[j])
    case Some(kind) =>
      if j + 1 >= |args| then MissingValue(args[j])
      else if kind == Port then PortNotANumber
      else InvalidLogLevel
  }

  /** A rejected option stops the scan with its error. */
  lemma ParseFromRejects(args: seq<string>, i: nat, acc: CliOptions)
    requires i < |args| && !Accepted(args, i)
    ensures ParseFrom(args, i, acc) == Err(Rejection(args, i))
  {
  }

  /** The scan succeeds exactly when every option position holds an
      accepted option, whatever options it starts from. */
  lemma {:induction false} ParseFromAccepts(args: seq<string>, i: nat, acc: CliOptions)
    ensures ParseFrom(args, i, acc).Ok? <==> forall j :: j in Starts(args, i) ==> Accepted(args, j)
    decreases |args| - i
  {
    if i < |args| {
      var next := i + Width(args[i]);
      assert Starts(args, i) == {i} + Starts(args, next);
      if !Accepted(args, i) {
        assert i in Starts(args, i);
      } else {
        ParseFromStep(args, i, acc);
        ParseFromAccepts(args, next, StepOptions(args, i, acc));
      }
    }
  }

  /** On failure, the error is that of the first option position that
      is not accepted. */
  lemma {:induction false} ParseFromFirstRejection(args: seq<string>, i: nat, acc: CliOptions)
    requires ParseFrom(args, i, acc).Err?
    ensures exists j :: && j in Starts(args, i) && !Accepted(args, j)
                        && ParseFrom(args, i, acc).error == Rejection(args, j)
                        && forall k :: k in Starts(args, i) && k < j ==> Accepted(args, k)
    decreases |args| - i
  {
    var next := i + Width(args[i]);
    assert Starts(args, i) == {i} + Starts(args, next);
    if !Accepted(args, i) {
      ParseFromRejects(args, i, acc);
      assert i in Starts(args, i);
    } else {
      ParseFromStep(args, i, acc);
      ParseFromFirstRejection(args, next, StepOptions(args, i, acc));
      var j :| && j in Starts(args, next) && !Accepted(args, j)
                && ParseFrom(args, next, StepOptions(args, i, acc)).error == Rejection(args, j)
                && forall k :: k in Starts(args, next) && k < j ==> Accepted(args, k);
      assert j in Starts(args, i);
    }
  }

  /** A field's value, whatever its type. */
  datatype FieldValue = Unset | Flag(b: bool) | Number(n: int) | Text(s: string)

  function FromBool(v: Option<bool>): FieldValue {
    match v
    case None => Unset
    case Some(b) => Flag(b)
  }

  function FromInt(v: Option<int>): FieldValue {
    match v
    case None => Unset
    case Some(n) => Number(n)
  }

  function FromText(v: Option<string>): FieldValue {
    match v
    case None => Unset
    case Some(s) => Text(s)
  }

  /** The field of the options that option kind `f` is named after. */
  function Get(o: CliOptions, f: OptionKind): FieldValue {
    match f
    case Help => FromBool(o.help)
    case Version => FromBool(o.version)
    case Stdio => FromBool(o.stdio)
    case Port => FromInt(o.port)
    case Host => FromText(o.host)
    case LogLevel => FromText(o.logLevel)
    case NoAuth => FromBool(o.noAuth)
    case Config => FromText(o.config)
  }

  /** The option kinds that write a field: each its own, and `--port`
      writes `stdio` as well. */
  function Writers(f: OptionKind): set<OptionKind> {
    if f == Stdio then {Stdio, Port} else {f}
  }

  /** The option at position `j` is of one of the given kinds. */
  predicate IsOneOf(args: seq<string>, j: nat, kinds: set<OptionKind>)
    requires j < |args|
  {
    Classify(args[j]).Some? && Classify(args[j]).value in kinds
  }

  /** The value that the option at position `j` gives field `f`. */
  function Written(args: seq<string>, j: nat, f: OptionKind): FieldValue
    requires j < |args|
  {
    match f
    case Help => Flag(true)
    case Version => Flag(true)
    case NoAuth => Flag(true)
    case Stdio => Flag(Classify(args[j]) == Some(Stdio))
    case Port => if j + 1 < |args| then FromInt(ParseInt(args[j + 1])) else Unset
    case Host => if j + 1 < |args| then Text(args[j + 1]) else Unset
    case LogLevel => if j + 1 < |args| then Text(args[j + 1]) else Unset
    case Config => if j + 1 < |args| then Text(args[j + 1]) else Unset
  }

  /** The last option position from `i` on holding one of `kinds`. */
  function LastStart(args: seq<string>, i: nat, kinds: set<OptionKind>): (r: Option<nat>)
    ensures r.Some? ==> r.value < |args|
    decreases |args| - i
  {
    if i >= |args| then None
    else match LastStart(args, i + Width(args[i]), kinds)
      case Some(j) => Some(j)
      case None => if IsOneOf(args, i, kinds) then Some(i) else None
  }

  /** `LastStart` is what its name says: an option position holding one of
      the kinds with none after it, or nothing when no option position
      holds one. */
  lemma {:induction false} LastStartIsLast(args: seq<string>, i: nat, kinds: set<OptionKind>)
    ensures LastStart(args, i, kinds).None? <==>
      forall k :: k in Starts(args, i) ==> !IsOneOf(args, k, kinds)
    ensures LastStart(args, i, kinds).Some? ==>
      var j := LastStart(args, i, kinds).value;
      && j in Starts(args, i) && IsOneOf(args, j, kinds)
      && forall k :: k in Starts(args, i) && j < k ==> !IsOneOf(args, k, kinds)
    decreases |args| - i
  {
    if i < |args| {
      var next := i + Width(args[i]);
      assert Starts(args, i) == {i} + Starts(args, next);
      LastStartIsLast(args, next, kinds);
    }
  }

  /** The value a field ends with: the one written by its last writer from
      `i` on, or the starting value when nothing writes it. */
  function FinalValue(args: seq<string>, i: nat, acc: CliOptions, f: OptionKind): FieldValue {
    match LastStart(args, i, Writers(f))
    case Some(j) => Written(args, j, f)
    case None => Get(acc, f)
  }

  /** The options after the accepted option at `i`. */
  function StepOptions(args: seq<string>, i: nat, acc: CliOptions): CliOptions
    requires i < |args| && Accepted(args, i)
  {
    var kind := Classify(args[i]).value;
    if kind.TakesValue() then SetValue(acc, kind, args[i + 1]).value else SetFlag(acc, kind)
  }

  /** An accepted option is one step of the scan. */
  lemma ParseFromStep(args: seq<string>, i: nat, acc: CliOptions)
    requires i < |args| && Accepted(args, i)
    ensures ParseFrom(args, i, acc) == ParseFrom(args, i + Width(args[i]), StepOptions(args, i, acc))
  {
  }

  /** One step changes exactly the fields its option writes, to the values
      `Written` names. */
  lemma StepWrites(args: seq<string>, i: nat, acc: CliOptions, f: OptionKind)
    requires i < |args| && Accepted(args, i)
    ensures Get(StepOptions(args, i, acc), f) ==
      if IsOneOf(args, i, Writers(f)) then Written(args, i, f) else Get(acc, f)
  {
  }

  /** Last write wins: after a successful scan, every field holds the value
      its last writing option gave it, or its starting value. */
  lemma {:induction false} ParseFromFinalValue(args: seq<string>, i: nat, acc: CliOptions, f: OptionKind)
    requires ParseFrom(args, i, acc).Ok?
    ensures Get(ParseFrom(args, i, acc).value, f) == FinalValue(args, i, acc, f)
    decreases |args| - i
  {
    if i < |args| {
      ParseFromAccepts(args, i, acc);
      assert i in Starts(args, i);
      ParseFromStep(args, i, acc);
      StepWrites(args, i, acc, f);
      ParseFromFinalValue(args, i + Width(args[i]), StepOptions(args, i, acc), f);
    }
  }

  /** Parsing a list that ends in an accepted state and then more tokens is
      parsing the more tokens from there: a value-taking option never reads
      across the boundary. */
  lemma {:induction false} ParseFromShift(p: seq<string>, s: seq<string>, j: nat, acc: CliOptions)
    ensures ParseFrom(p + s, |p| + j, acc) == ParseFrom(s, j, acc)
    decreases |s| - j
  {
    var a := p + s;
    var k := |p| + j;
    if j < |s| {
      assert a[k] == s[j];
      var kind := Classify(s[j]);
      if kind.Some? && !kind.value.TakesValue() {
        ParseFromShift(p, s, j + 1, SetFlag(acc, kind.value));
      } else if kind.Some? && j + 1 < |s| {
        assert a[k + 1] == s[j + 1];
        var step := SetValue(acc, kind.value, s[j + 1]);
        if step.Ok? {
          ParseFromShift(p, s, j + 2, step.value);
        }
      }
    }
  }

  lemma {:induction false} ParseFromPrefix(p: seq<string>, s: seq<string>, i: nat, acc: CliOptions)
    requires i <= |p| && ParseFrom(p, i, acc).Ok?
    ensures ParseFrom(p + s, i, acc) == ParseFrom(p + s, |p|, ParseFrom(p, i, acc).value)
    decreases |p| - i
  {
    if i < |p| {
      ParseFromAccepts(p, i, acc);
      assert i in Starts(p, i);
      var a := p + s;
      assert a[i] == p[i];
      if i + 1 < |p| {
        assert a[i + 1] == p[i + 1];
      }
      assert Accepted(a, i);
      ParseFromStep(p, i, acc);
      ParseFromStep(a, i, acc);
      ParseFromPrefix(p, s, i + Width(p[i]), StepOptions(p, i, acc));
    }
  }

  /** Parsing `p + s` is parsing `p`, then `s` from the options `p` gave. */
  lemma ParseFromAppend(p: seq<string>, s: seq<string>, acc: CliOptions)
    requires ParseFrom(p, 0, acc).Ok?
    ensures ParseFrom(p + s, 0, acc) == ParseFrom(s, 0, ParseFrom(p, 0, acc).value)
  {
    ParseFromPrefix(p, s, 0, acc);
    ParseFromShift(p, s, 0, ParseFrom(p, 0, acc).value);
  }
}
