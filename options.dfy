/** Command-line options of the C draft (clang/main.c): the defaults `main`
    puts in the `args_t` record and the per-key callback `parse_opt` that
    argp calls while it reads the command line. The conversion of option
    text by `atoi` and `strtod` is not modelled: a key carries the number
    that conversion produced. */
module Options {

  import opened Wrappers

  /** `args_t`. The flags are C ints, set to 1 when given. */
  datatype Args = Args(
    width: int,
    iterations: int,
    threads: int,
    supersampling: int,
    progress: int,
    verbose: int,
    xMin: real,
    xMax: real,
    yMin: real,
    yMax: real,
    filename: Option<string>)

  /** One call of `parse_opt`: an option key with its converted argument, a
      positional argument (ARGP_KEY_ARG), the end of the arguments
      (ARGP_KEY_END), or any other key argp passes. */
  datatype Key =
    | Width(n: int)
    | Iterations(n: int)
    | Threads(n: int)
    | Supersampling
    | Progress
    | Verbose
    | XMin(x: real)
    | XMax(x: real)
    | YMin(y: real)
    | YMax(y: real)
    | Positional(name: string)
    | End
    | Other(code: int)

  /** What `parse_opt` does: return 0, call `argp_usage` (which prints the
      usage text and ends the process), or return ARGP_ERR_UNKNOWN. */
  datatype Status = Ok | Usage | Unknown

  /** The values `main` assigns before parsing. */
  const Defaults := Args(300, 100, 1, 0, 0, 0, -2.5, 1.0, -1.0, 1.0, None)

  /** The thresholds `parse_opt` enforces on the numeric options. */
  predicate Valid(a: Args) {
    a.width >= 16 && a.iterations >= 1 && a.threads >= 1
  }

  /** `parse_opt` on a record value: the record afterwards and the outcome.
      `argNum` is argp's count of positional arguments seen so far. A
      rejected width, iteration count or thread count is stored before the
      usage exit, as in the source. ARGP_ERR_UNKNOWN is reported exactly for
      an unrecognised key, which changes nothing; only a positional argument
      touches the file name; and an accepted key never breaks the
      thresholds. */
  function Apply(a: Args, key: Key, argNum: nat): (r: (Args, Status))
    ensures r.1 == Unknown <==> key.Other?
    ensures key.Other? || key.End? ==> r.0 == a
    ensures !key.Positional? ==> r.0.filename == a.filename
    ensures Valid(a) && r.1 != Usage ==> Valid(r.0)
  {
    match key
    case Width(n) => (a.(width := n), if n < 16 then Usage else Ok)
    case Iterations(n) => (a.(iterations := n), if n < 1 then Usage else Ok)
    case Threads(n) => (a.(threads := n), if n < 1 then Usage else Ok)
    case Supersampling => (a.(supersampling := 1), Ok)
    case Progress => (a.(progress := 1), Ok)
    case Verbose => (a.(verbose := 1), Ok)
    case XMin(x) => (a.(xMin := x), Ok)
    case XMax(x) => (a.(xMax := x), Ok)
    case YMin(y) => (a.(yMin := y), Ok)
    case YMax(y) => (a.(yMax := y), Ok)
    case Positional(name) => if argNum >= 1 then (a, Usage) else (a.(filename := Some(name)), Ok)
    case End => (a, if argNum != 1 then Usage else Ok)
    case Other(_) => (a, Unknown)
  }

  /** The usage exit is taken exactly for a width below 16, an iteration or
      thread count below 1, a second positional argument, or an end of
      arguments that did not see exactly one positional argument. */
  lemma UsageExactly(a: Args, key: Key, argNum: nat)
    ensures Apply(a, key, argNum).1 == Usage <==>
      || (key.Width? && key.n < 16)
      || ((key.Iterations? || key.Threads?) && key.n < 1)
      || (key.Positional? && argNum >= 1)
      || (key.End? && argNum != 1)
  {
  }

  /** The calls argp makes for one command line, in order, as long as none
      ends the process; argp counts each positional argument it hands over. */
  function Run(a: Args, keys: seq<Key>, argNum: nat): (r: (Args, Status))
    ensures keys == [] ==> r == (a, Ok)
    ensures Valid(a) && r.1 != Usage ==> Valid(r.0)
    decreases |keys|
  {
    if keys == [] then (a, Ok)
    else
      var (a', status) := Apply(a, keys[0], argNum);
      if status == Usage then (a', Usage)
      else Run(a', keys[1..], if keys[0].Positional? then argNum + 1 else argNum)
  }

  /** A command line that `main` gets past (no usage exit) leaves a record
      that meets the thresholds, and once the end of the arguments has been
      accepted, an output file name is set. */
  lemma {:induction false} RunValid(a: Args, keys: seq<Key>, argNum: nat)
    requires Valid(a)
    requires argNum >= 1 ==> a.filename.Some?
    ensures Run(a, keys, argNum).1 != Usage ==> Valid(Run(a, keys, argNum).0)
    ensures Run(a, keys, argNum).1 != Usage && End in keys ==> Run(a, keys, argNum).0.filename.Some?
    ensures Run(a, keys, argNum).1 != Usage && a.filename.Some? ==> Run(a, keys, argNum).0.filename.Some?
    decreases |keys|
  {
    if keys != [] {
      var (a', status) := Apply(a, keys[0], argNum);
      if status != Usage {
        var argNum' := if keys[0].Positional? then argNum + 1 else argNum;
        RunValid(a', keys[1..], argNum');
        if End in keys && keys[0] != End {
          assert End in keys[1..];
        }
      }
    }
  }

  /** The command line of `main`, starting from its defaults. */
  lemma CommandLineValid(keys: seq<Key>)
    ensures Run(Defaults, keys, 0).1 != Usage ==> Valid(Run(Defaults, keys, 0).0)
    ensures Run(Defaults, keys, 0).1 != Usage && End in keys ==> Run(Defaults, keys, 0).0.filename.Some?
  {
    RunValid(Defaults, keys, 0);
  }

  /** The `args_t` record that `main` fills and `parse_opt` updates in place. */
  class Arguments {
    var width: int
    var iterations: int
    var threads: int
    var supersampling: int
    var progress: int
    var verbose: int
    var xMin: real
    var xMax: real
    var yMin: real
    var yMax: real
    var filename: Option<string>

    function Value(): Args
      reads this
    {
      Args(width, iterations, threads, supersampling, progress, verbose, xMin, xMax, yMin, yMax, filename)
    }

    /** The defaults assigned field by field in `main`. */
    constructor ()
      ensures Value() == Defaults
    {
      width := 300;
      iterations := 100;
      threads := 1;
      supersampling := 0;
      progress := 0;
      verbose := 0;
      xMin := -2.5;
      xMax := 1.0;
      yMin := -1.0;
      yMax := 1.0;
      filename := None;
    }

    /** `parse_opt`: updates the one field the key names. */
    method ParseOpt(key: Key, argNum: nat) returns (status: Status)
      modifies this
      ensures (Value(), status) == Apply(old(Value()), key, argNum)
    {
      status := Ok;
      match key {
        case Width(n) =>
          width := n;
          if width < 16 {
            status := Usage;
          }
        case Iterations(n) =>
          iterations := n;
          if iterations < 1 {
            status := Usage;
          }
        case Threads(n) =>
          threads := n;
          if threads < 1 {
            status := Usage;
          }
        case Supersampling =>
          supersampling := 1;
        case Progress =>
          progress := 1;
        case Verbose =>
          verbose := 1;
        case XMin(x) =>
          xMin := x;
        case XMax(x) =>
          xMax := x;
        case YMin(y) =>
          yMin := y;
        case YMax(y) =>
          yMax := y;
        case Positional(name) =>
          if argNum >= 1 {
            status := Usage;
          } else {
            filename := Some(name);
          }
        case End =>
          if argNum != 1 {
            status := Usage;
          }
        case Other(_) =>
          status := Unknown;
      }
    }
  }
}
