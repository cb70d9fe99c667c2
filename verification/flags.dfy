/** The command line of the benchmark: how `main` reads each argument into
    the run's configuration. */
module Flags {
  import opened Wrappers
  import opened Decimal

  /** FLAGS_graph_num, FLAGS_arg and FLAGS_use_monkey. */
  datatype Config = Config(graphNum: int, arg: int, useMonkey: bool)

  /** The values the flags hold before any argument is read. */
  const Defaults: Config := Config(1, 1, false)

  /** What one argument sets, or that it is refused. */
  datatype Flag = GraphFlag(n: int) | ArgFlag(n: int) | MonkeyFlag | InvalidFlag

  /** arg begins with prefix (strncmp(arg, prefix, |prefix|) == 0). */
  predicate HasPrefix(arg: string, prefix: string) {
    |prefix| <= |arg| && arg[..|prefix|] == prefix
  }

  /** scanf's "%d%c" converting the number and then finding nothing more
      (a return value of 1): an optional sign, at least one digit, and the
      end of the text. The sign decides the sign of the number. */
  function ScanInt(s: string): (r: Option<int>)
    ensures r.Some? <==> (0 < |s| && AllDigits(s)) || (1 < |s| && (s[0] == '-' || s[0] == '+') && AllDigits(s[1..]))
    ensures r.Some? && 0 < |s| && s[0] != '-' ==> r.value >= 0
    ensures r.Some? && 0 < |s| && s[0] == '-' ==> r.value <= 0
  {
    if 1 < |s| && s[0] == '-' && AllDigits(s[1..]) then Some(0 - Value(s[1..]))
    else if 1 < |s| && s[0] == '+' && AllDigits(s[1..]) then Some(Value(s[1..]))
    else if 0 < |s| && AllDigits(s) then Some(Value(s))
    else None
  }

  /** sscanf(arg, "<prefix>%d%c") == 1: the number after `prefix` when arg is
      `prefix` followed by exactly one integer. */
  function ScanFlag(arg: string, prefix: string): (r: Option<int>)
    ensures r.Some? ==> |prefix| < |arg| && HasPrefix(arg, prefix)
    ensures r.Some? ==> ScanInt(arg[|prefix|..]) == r
  {
    if HasPrefix(arg, prefix) then ScanInt(arg[|prefix|..]) else None
  }

  /** Whatever follows a flag's prefix is what scanf reads as its number. */
  lemma ScanFlagAfterPrefix(prefix: string, rest: string)
    ensures ScanFlag(prefix + rest, prefix) == ScanInt(rest)
  {
    assert (prefix + rest)[..|prefix|] == prefix;
    assert (prefix + rest)[|prefix|..] == rest;
  }

  /** How main reads one argument: "-g=<int>", then "-a=<int>", then anything
      starting with "-m"; everything else is refused. An earlier shape in the
      chain wins over a later one. */
  function Classify(arg: string): (f: Flag)
    ensures f.GraphFlag? <==> ScanFlag(arg, "-g=").Some?
    ensures f.GraphFlag? ==> ScanFlag(arg, "-g=") == Some(f.n)
    ensures f.ArgFlag? <==> ScanFlag(arg, "-g=").None? && ScanFlag(arg, "-a=").Some?
    ensures f.ArgFlag? ==> ScanFlag(arg, "-a=") == Some(f.n)
    ensures f == MonkeyFlag <==> ScanFlag(arg, "-g=").None? && ScanFlag(arg, "-a=").None? && HasPrefix(arg, "-m")
    ensures f == InvalidFlag <==> ScanFlag(arg, "-g=").None? && ScanFlag(arg, "-a=").None? && !HasPrefix(arg, "-m")
  {
    match ScanFlag(arg, "-g=")
    case Some(n) => GraphFlag(n)
    case None =>
      match ScanFlag(arg, "-a=")
      case Some(n) => ArgFlag(n)
      case None => if HasPrefix(arg, "-m") then MonkeyFlag else InvalidFlag
  }

  /** printf's "%d". */
  function ShowInt(n: int): string {
    if n < 0 then "-" + Show(-n) else Show(n)
  }

  /** Every integer printed with "%d" is scanned back as itself. */
  lemma ScanShowInt(n: int)
    ensures ScanInt(ShowInt(n)) == Some(n)
  {
    var s := ShowInt(n);
    if n < 0 {
      var digits := Show(-n);
      assert s[0] == '-' && s[1..] == digits;
      ValueOfShow(-n);
      assert ScanInt(s) == Some(0 - Value(digits));
    } else {
      assert IsDigit(s[0]);
      ValueOfShow(n);
      assert ScanInt(s) == Some(Value(s));
    }
  }

  /** "-g=<n>" and "-a=<n>" set the graph and the argument to n, for every integer n. */
  lemma ClassifyNumberFlags(n: int)
    ensures Classify("-g=" + ShowInt(n)) == GraphFlag(n)
    ensures Classify("-a=" + ShowInt(n)) == ArgFlag(n)
  {
    ScanShowInt(n);
    assert ("-g=" + ShowInt(n))[3..] == ShowInt(n);
    assert ("-a=" + ShowInt(n))[3..] == ShowInt(n);
    assert ("-a=" + ShowInt(n))[..3] != "-g=";
  }

  /** Anything starting with "-m" switches the Monkey filters on. */
  lemma ClassifyMonkey(rest: string)
    ensures Classify("-m" + rest) == MonkeyFlag
  {
    var arg := "-m" + rest;
    assert arg[..2] == "-m";
    assert arg[1] == 'm';
    assert ScanFlag(arg, "-g=") == None by {
      if 3 <= |arg| { assert arg[..3][1] != "-g="[1]; }
    }
    assert ScanFlag(arg, "-a=") == None by {
      if 3 <= |arg| { assert arg[..3][1] != "-a="[1]; }
    }
  }

  /** A number followed by anything (scanf then returns 2), a bare prefix, and
      an unknown flag are refused. */
  lemma ClassifyRefuses()
    ensures Classify("-g=5x") == InvalidFlag
    ensures Classify("-a=") == InvalidFlag
    ensures Classify("-x") == InvalidFlag
  {
    assert !AllDigits("5x") by {
      assert !IsDigit("5x"[1]);
    }
    assert "-g=5x"[..3][1] != "-a="[1];
  }

  /** The value of the last "-g=" argument among the first n, if any. */
  function LastGraph(args: seq<string>, n: nat): Option<int>
    requires n <= |args|
  {
    if n == 0 then None
    else if Classify(args[n - 1]).GraphFlag? then Some(Classify(args[n - 1]).n)
    else LastGraph(args, n - 1)
  }

  /** The value of the last "-a=" argument among the first n, if any. */
  function LastArg(args: seq<string>, n: nat): Option<int>
    requires n <= |args|
  {
    if n == 0 then None
    else if Classify(args[n - 1]).ArgFlag? then Some(Classify(args[n - 1]).n)
    else LastArg(args, n - 1)
  }

  /** A later "-g=" overrides every earlier one. */
  lemma LaterGraphWins(args: seq<string>, n: int)
    ensures LastGraph(args + ["-g=" + ShowInt(n)], |args| + 1) == Some(n)
  {
    ClassifyNumberFlags(n);
  }

  /** main's loop over the arguments after the program name: each argument
      sets its flag, a later one overriding an earlier one; the first refused
      argument stops the program with an error naming it. */
  method ParseArgs(args: seq<string>) returns (r: Result<Config, string>)
    ensures r.Success? <==> forall i :: 0 <= i < |args| ==> Classify(args[i]) != InvalidFlag
    ensures r.Failure? ==>
      exists i :: (0 <= i < |args| && args[i] == r.error && Classify(args[i]) == InvalidFlag
                   && forall j :: 0 <= j < i ==> Classify(args[j]) != InvalidFlag)
    ensures r.Success? ==> r.value.graphNum == ValueOr(LastGraph(args, |args|), Defaults.graphNum)
    ensures r.Success? ==> r.value.arg == ValueOr(LastArg(args, |args|), Defaults.arg)
    ensures r.Success? ==> (r.value.useMonkey <==> exists i :: 0 <= i < |args| && Classify(args[i]) == MonkeyFlag)
  {
    var cfg := Defaults;
    var i := 0;
    while i < |args|
      invariant 0 <= i <= |args|
      invariant forall j :: 0 <= j < i ==> Classify(args[j]) != InvalidFlag
      invariant cfg.graphNum == ValueOr(LastGraph(args, i), Defaults.graphNum)
      invariant cfg.arg == ValueOr(LastArg(args, i), Defaults.arg)
      invariant cfg.useMonkey <==> exists j :: 0 <= j < i && Classify(args[j]) == MonkeyFlag
    {
      match Classify(args[i]) {
        case GraphFlag(n) =>
          cfg := cfg.(graphNum := n);
        case ArgFlag(n) =>
          cfg := cfg.(arg := n);
        case MonkeyFlag =>
          cfg := cfg.(useMonkey := true);
        case InvalidFlag =>
          return Failure(args[i]);
      }
      i := i + 1;
    }
    r := Success(cfg);
  }
}
