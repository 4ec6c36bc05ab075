/**
  The command line of the tool: `[opts] [-] input_prefix input_extension`.
  Arguments are consumed front to back; options take the next argument as
  their value; a lone `-` makes every remaining argument positional.

  `std::stoi` is a parameter `parseInt` that yields `None` where stoi would
  throw. A thrown exception and reading a value past the end of the
  arguments both end the program abnormally; they are the `Abort` outcomes.
 */
module CommandLine {
  import opened Compositor

  datatype Option<T> = None | Some(value: T)

  /** Why the program ends without an exit code. */
  datatype Failure = InvalidNumber | MissingValue

  /** Everything the conversion needs, as decided by the command line. */
  datatype Config = Config(
    numSamples: int,
    pattern: seq<real>,
    outputSize: int,
    outputName: string,
    prefix: string,
    extension: string)

  datatype Outcome = Convert(config: Config) | Exit(code: int) | Abort(cause: Failure)

  /** The variables the argument loop updates. */
  datatype Settings = Settings(
    numSamples: int,
    pattern: seq<real>,
    outputSize: int,
    outputName: string,
    positionals: seq<string>)

  const Defaults := Settings(1, AaPatternNone, 1024, "", [])

  const OutputSuffix := "_spheremap.bmp"

  /** The argument loop either runs out of arguments or ends the program. */
  datatype ScanResult = Done(settings: Settings) | Stopped(outcome: Outcome)

  /** An argument that is read as a positional: empty, or not starting with a dash. */
  predicate IsPlain(arg: string) {
    arg == [] || arg[0] != '-'
  }

  /**
    The argument loop over the remaining arguments, in command-line order.
    The sample-count option only ever leaves a valid anti-aliasing
    configuration behind.
   */
  function Scan(args: seq<string>, st: Settings, parseInt: string -> Option<int>): (r: ScanResult)
    ensures r.Done? && ValidAaConfig(st.numSamples, st.pattern) ==>
      ValidAaConfig(r.settings.numSamples, r.settings.pattern)
    ensures r.Stopped? ==> !r.outcome.Convert?
    decreases |args|
  {
    if args == [] then Done(st)
    else
      var opt, rest := args[0], args[1..];
      if IsPlain(opt) then
        Scan(rest, st.(positionals := st.positionals + [opt]), parseInt)
      else if opt == "-" then
        Done(st.(positionals := st.positionals + rest))
      else if opt == "-aa" then
        if rest == [] then Stopped(Abort(MissingValue))
        else match parseInt(rest[0])
          case None => Stopped(Abort(InvalidNumber))
          case Some(n) =>
            if n == 1 then Scan(rest[1..], st.(numSamples := 1, pattern := AaPatternNone), parseInt)
            else if n == 5 then Scan(rest[1..], st.(numSamples := 5, pattern := AaPattern5x), parseInt)
            else Stopped(Exit(1))
      else if opt == "-size" then
        if rest == [] then Stopped(Abort(MissingValue))
        else match parseInt(rest[0])
          case None => Stopped(Abort(InvalidNumber))
          case Some(n) => Scan(rest[1..], st.(outputSize := n), parseInt)
      else if opt == "-o" then
        if rest == [] then Stopped(Abort(MissingValue))
        else Scan(rest[1..], st.(outputName := rest[0]), parseInt)
      else if opt == "-h" || opt == "-help" then
        Stopped(Exit(0))
      else
        Stopped(Exit(1))
  }

  /** What the whole command line `argv` (program name first) makes the program do. */
  function Parse(argv: seq<string>, parseInt: string -> Option<int>): (o: Outcome)
    ensures o.Convert? ==>
      ValidAaConfig(o.config.numSamples, o.config.pattern) && o.config.outputName != []
  {
    if |argv| < 1 then Exit(1)
    else
      match Scan(argv[1..], Defaults, parseInt)
      case Stopped(o) => o
      case Done(st) =>
        if |st.positionals| != 2 then Exit(1)
        else
          var prefix := st.positionals[0];
          var name := if st.outputName == [] then prefix + OutputSuffix else st.outputName;
          Convert(Config(st.numSamples, st.pattern, st.outputSize, name, prefix, st.positionals[1]))
  }

  /** `s` back to front. */
  function Reversed<T>(s: seq<T>): (r: seq<T>)
    ensures |r| == |s|
  {
    if s == [] then [] else [s[|s| - 1]] + Reversed(s[..|s| - 1])
  }

  lemma {:induction false} ReversedPrepend<T>(x: T, s: seq<T>)
    ensures Reversed([x] + s) == Reversed(s) + [x]
    decreases |s|
  {
    if s != [] {
      var s' := s[..|s| - 1];
      assert ([x] + s)[..|s|] == [x] + s';
      ReversedPrepend(x, s');
    }
  }

  /** Reversing twice gives the sequence back. */
  lemma {:induction false} ReversedTwice<T>(s: seq<T>)
    ensures Reversed(Reversed(s)) == s
    decreases |s|
  {
    if s != [] {
      var s' := s[..|s| - 1];
      ReversedPrepend(s[|s| - 1], Reversed(s'));
      ReversedTwice(s');
    }
  }

  /**
    The argument loop as written: the arguments are kept as a stack with the
    first one on top, popped one at a time.
   */
  method ParseArgs(argv: seq<string>, parseInt: string -> Option<int>) returns (o: Outcome)
    ensures o == Parse(argv, parseInt)
  {
    if |argv| < 1 {
      return Exit(1);
    }
    var numSamples, pattern, outputSize, outputName := 1, AaPatternNone, 1024, "";
    var positionals: seq<string> := [];
    var input := Reversed(argv[1..]);
    ReversedTwice(argv[1..]);
    ghost var outcome := Scan(argv[1..], Defaults, parseInt);
    while input != []
      invariant outcome ==
        Scan(Reversed(input), Settings(numSamples, pattern, outputSize, outputName, positionals), parseInt)
      decreases |input|
    {
      var opt := input[|input| - 1];
      input := input[..|input| - 1];
      if !IsPlain(opt) {
        if opt == "-" {
          positionals := positionals + Reversed(input);
          break;
        } else if opt == "-aa" {
          if input == [] {
            return Abort(MissingValue);
          }
          var value := input[|input| - 1];
          input := input[..|input| - 1];
          var n := parseInt(value);
          if n.None? {
            return Abort(InvalidNumber);
          }
          numSamples := n.value;
          if numSamples == 1 {
            pattern := AaPatternNone;
          } else if numSamples == 5 {
            pattern := AaPattern5x;
          } else {
            return Exit(1);
          }
        } else if opt == "-size" {
          if input == [] {
            return Abort(MissingValue);
          }
          var value := input[|input| - 1];
          input := input[..|input| - 1];
          var n := parseInt(value);
          if n.None? {
            return Abort(InvalidNumber);
          }
          outputSize := n.value;
        } else if opt == "-o" {
          if input == [] {
            return Abort(MissingValue);
          }
          outputName := input[|input| - 1];
          input := input[..|input| - 1];
        } else if opt == "-h" || opt == "-help" {
          return Exit(0);
        } else {
          return Exit(1);
        }
      } else {
        positionals := positionals + [opt];
      }
    }
    if |positionals| != 2 {
      return Exit(1);
    }
    if outputName == [] {
      outputName := positionals[0] + OutputSuffix;
    }
    o := Convert(Config(numSamples, pattern, outputSize, outputName, positionals[0], positionals[1]));
  }

  /** Plain arguments become positionals in the order given, whatever follows them. */
  lemma {:induction false} PlainPrefix(pre: seq<string>, post: seq<string>, st: Settings, parseInt: string -> Option<int>)
    requires forall i :: 0 <= i < |pre| ==> IsPlain(pre[i])
    ensures Scan(pre + post, st, parseInt) == Scan(post, st.(positionals := st.positionals + pre), parseInt)
    decreases |pre|
  {
    if pre == [] {
      assert pre + post == post;
      assert st.positionals + pre == st.positionals;
    } else {
      assert (pre + post)[1..] == pre[1..] + post;
      PlainPrefix(pre[1..], post, st.(positionals := st.positionals + [pre[0]]), parseInt);
      assert st.positionals + [pre[0]] + pre[1..] == st.positionals + pre;
    }
  }

  /**
    A command line of plain arguments only converts exactly when there are
    two of them: the prefix and the extension, with every option at its
    default and the output named after the prefix.
   */
  lemma PlainArguments(prog: string, args: seq<string>, parseInt: string -> Option<int>)
    requires forall i :: 0 <= i < |args| ==> IsPlain(args[i])
    ensures |args| != 2 ==> Parse([prog] + args, parseInt) == Exit(1)
    ensures |args| == 2 ==>
      Parse([prog] + args, parseInt) ==
        Convert(Config(1, AaPatternNone, 1024, args[0] + OutputSuffix, args[0], args[1]))
  {
    assert ([prog] + args)[1..] == args;
    PlainPrefix(args, [], Defaults, parseInt);
    assert args + [] == args;
  }

  /**
    After a lone `-` every remaining argument is positional, dashes
    included, in the order given, whatever options came before it.
   */
  lemma DashEndsOptions(rest: seq<string>, st: Settings, parseInt: string -> Option<int>)
    ensures Scan(["-"] + rest, st, parseInt) == Done(st.(positionals := st.positionals + rest))
  {
    assert (["-"] + rest)[0] == "-" && (["-"] + rest)[1..] == rest;
  }

  /** With only plain arguments before it, a lone `-` leaves the defaults and all other arguments in order. */
  lemma DashAfterPlain(pre: seq<string>, rest: seq<string>, parseInt: string -> Option<int>)
    requires forall i :: 0 <= i < |pre| ==> IsPlain(pre[i])
    ensures Scan(pre + (["-"] + rest), Defaults, parseInt) == Done(Defaults.(positionals := pre + rest))
  {
    PlainPrefix(pre, ["-"] + rest, Defaults, parseInt);
    assert Defaults.positionals + pre == pre;
    DashEndsOptions(rest, Defaults.(positionals := pre), parseInt);
  }

  /** So with two arguments around the `-` the tool converts with every option at its default. */
  lemma DashThenTwo(prog: string, pre: seq<string>, rest: seq<string>, parseInt: string -> Option<int>)
    requires forall i :: 0 <= i < |pre| ==> IsPlain(pre[i])
    requires |pre + rest| == 2
    ensures var ps := pre + rest;
      Parse([prog] + (pre + (["-"] + rest)), parseInt) ==
        Convert(Config(1, AaPatternNone, 1024, ps[0] + OutputSuffix, ps[0], ps[1]))
  {
    DashAfterPlain(pre, rest, parseInt);
    assert ([prog] + (pre + (["-"] + rest)))[1..] == pre + (["-"] + rest);
  }

  /**
    The option at the head of the remaining arguments ends the program:
    with exit code 0 for help, 1 for an unknown option or a sample count
    other than 1 and 5, and abnormally when its value is missing or not a
    number.
   */
  lemma StoppingOptions(opt: string, rest: seq<string>, st: Settings, parseInt: string -> Option<int>)
    requires !IsPlain(opt)
    ensures opt == "-h" || opt == "-help" ==> Scan([opt] + rest, st, parseInt) == Stopped(Exit(0))
    ensures opt !in {"-", "-aa", "-size", "-o", "-h", "-help"} ==> Scan([opt] + rest, st, parseInt) == Stopped(Exit(1))
    ensures opt in {"-aa", "-size", "-o"} && rest == [] ==> Scan([opt] + rest, st, parseInt) == Stopped(Abort(MissingValue))
    ensures opt in {"-aa", "-size"} && rest != [] && parseInt(rest[0]).None? ==>
      Scan([opt] + rest, st, parseInt) == Stopped(Abort(InvalidNumber))
    ensures opt == "-aa" && rest != [] && parseInt(rest[0]).Some? && parseInt(rest[0]).value !in {1, 5} ==>
      Scan([opt] + rest, st, parseInt) == Stopped(Exit(1))
  {
    assert ([opt] + rest)[0] == opt && ([opt] + rest)[1..] == rest;
  }

  /** An option that stops the loop decides the outcome, wherever plain arguments put it. */
  lemma StopAfterPlain(prog: string, pre: seq<string>, post: seq<string>, parseInt: string -> Option<int>)
    requires forall i :: 0 <= i < |pre| ==> IsPlain(pre[i])
    requires Scan(post, Defaults.(positionals := pre), parseInt).Stopped?
    ensures Parse([prog] + pre + post, parseInt) == Scan(post, Defaults.(positionals := pre), parseInt).outcome
  {
    assert ([prog] + pre + post)[1..] == pre + post;
    PlainPrefix(pre, post, Defaults, parseInt);
    assert Defaults.positionals + pre == pre;
  }

  /**
    The options that take a value and let the loop go on: `-aa 1` and
    `-aa 5` select the matching sample table, `-size n` sets the output
    size and `-o name` the output name, and nothing else changes.
   */
  lemma SettingOptions(opt: string, value: string, rest: seq<string>, st: Settings, parseInt: string -> Option<int>)
    ensures opt == "-aa" && parseInt(value) == Some(1) ==>
      Scan([opt, value] + rest, st, parseInt) == Scan(rest, st.(numSamples := 1, pattern := AaPatternNone), parseInt)
    ensures opt == "-aa" && parseInt(value) == Some(5) ==>
      Scan([opt, value] + rest, st, parseInt) == Scan(rest, st.(numSamples := 5, pattern := AaPattern5x), parseInt)
    ensures opt == "-size" && parseInt(value).Some? ==>
      Scan([opt, value] + rest, st, parseInt) == Scan(rest, st.(outputSize := parseInt(value).value), parseInt)
    ensures opt == "-o" ==>
      Scan([opt, value] + rest, st, parseInt) == Scan(rest, st.(outputName := value), parseInt)
  {
    var args := [opt, value] + rest;
    assert args[0] == opt && args[1..][0] == value && args[1..][1..] == rest;
  }

  /** The last `-o` decides the output name, whatever was set before it. */
  lemma LastOutputNameWins(name: string, post: seq<string>, st: Settings, parseInt: string -> Option<int>)
    requires "-o" !in post
    ensures Scan(["-o", name] + post, st, parseInt).Done? ==>
      Scan(["-o", name] + post, st, parseInt).settings.outputName == name
  {
    SettingOptions("-o", name, post, st, parseInt);
    NameKept(post, st.(outputName := name), parseInt);
  }

  /** So a command line that names its output converts to that file. */
  lemma NamedOutput(prog: string, name: string, post: seq<string>, parseInt: string -> Option<int>)
    requires "-o" !in post && name != []
    ensures Parse([prog, "-o", name] + post, parseInt).Convert? ==>
      Parse([prog, "-o", name] + post, parseInt).config.outputName == name
  {
    assert ([prog, "-o", name] + post)[1..] == ["-o", name] + post;
    LastOutputNameWins(name, post, Defaults, parseInt);
  }

  /** Without a `-o` argument the output file is named after the prefix. */
  lemma DefaultOutputName(argv: seq<string>, parseInt: string -> Option<int>)
    requires "-o" !in argv
    requires Parse(argv, parseInt).Convert?
    ensures Parse(argv, parseInt).config.outputName == Parse(argv, parseInt).config.prefix + OutputSuffix
  {
    assert forall i :: 0 <= i < |argv[1..]| ==> argv[1..][i] in argv;
    NameKept(argv[1..], Defaults, parseInt);
  }

  /** Only `-o` sets the output name: without one the loop keeps the name it started with. */
  lemma {:induction false} NameKept(args: seq<string>, st: Settings, parseInt: string -> Option<int>)
    requires "-o" !in args
    ensures Scan(args, st, parseInt).Done? ==> Scan(args, st, parseInt).settings.outputName == st.outputName
    decreases |args|
  {
    if args != [] {
      var opt, rest := args[0], args[1..];
      assert forall i :: 0 <= i < |rest| ==> rest[i] == args[i + 1];
      if IsPlain(opt) {
        NameKept(rest, st.(positionals := st.positionals + [opt]), parseInt);
      } else if opt == "-aa" && rest != [] && parseInt(rest[0]).Some? {
        var n := parseInt(rest[0]).value;
        assert forall i :: 0 <= i < |rest[1..]| ==> rest[1..][i] == args[i + 2];
        if n == 1 {
          NameKept(rest[1..], st.(numSamples := 1, pattern := AaPatternNone), parseInt);
        } else if n == 5 {
          NameKept(rest[1..], st.(numSamples := 5, pattern := AaPattern5x), parseInt);
        }
      } else if opt == "-size" && rest != [] && parseInt(rest[0]).Some? {
        assert forall i :: 0 <= i < |rest[1..]| ==> rest[1..][i] == args[i + 2];
        NameKept(rest[1..], st.(outputSize := parseInt(rest[0]).value), parseInt);
      }
    }
  }
}
