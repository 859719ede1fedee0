/** The pop arguments: an option scan, then a filter that writes the arguments
    it keeps into the very slice it is still reading. */
module PopArgs {
  import opened Types
  import opened LongOptions

  datatype ArgError = MissingSocket | MissingTimeout | BadTimeout | NegativeTimeout

  datatype Options = Options(socket: string, positionals: seq<string>)
  datatype PopOptions = PopOptions(socket: string, channels: seq<string>, timeout: int)

  /** `time.ParseDuration`, left abstract. */
  type DurationParser = string -> Option<int>

  // ---------- parseArgs ----------

  function ScanSocket(args: seq<string>, o: Options): Result<Options, ArgError> {
    if args == [] then Success(o)
    else if args[0] == "--socket" then
      if |args| < 2 then Failure(MissingSocket) else ScanSocket(args[2..], o.(socket := args[1]))
    else
      match TrimOption(args[0], "--socket")
      case Some(value) => ScanSocket(args[1..], o.(socket := value))
      case None => ScanSocket(args[1..], o.(positionals := o.positionals + [args[0]]))
  }

  /** Scanning goes on where an earlier scan stopped. */
  lemma {:induction false} ScanSocketConcat(a: seq<string>, b: seq<string>, o: Options)
    requires ScanSocket(a, o).Success?
    ensures ScanSocket(a + b, o) == ScanSocket(b, ScanSocket(a, o).value)
    decreases |a|
  {
    if a == [] {
      assert a + b == b;
    } else {
      assert (a + b)[1..] == a[1..] + b;
      var value := TrimOption(a[0], "--socket");
      if a[0] == "--socket" {
        assert (a + b)[2..] == a[2..] + b;
        ScanSocketConcat(a[2..], b, o.(socket := a[1]));
      } else if value.Some? {
        ScanSocketConcat(a[1..], b, o.(socket := value.value));
      } else {
        ScanSocketConcat(a[1..], b, o.(positionals := o.positionals + [a[0]]));
      }
    }
  }

  /** The scan fails exactly when a last `--socket` is left without a value. */
  lemma {:induction false} ScanFailsIff(args: seq<string>, o: Options)
    ensures ScanSocket(args, o).Failure? <==>
            && args != [] && args[|args| - 1] == "--socket"
            && ScanSocket(args[..|args| - 1], o).Success?
    decreases |args|
  {
    if args != [] {
      var init, value := args[..|args| - 1], TrimOption(args[0], "--socket");
      if args[0] == "--socket" {
        if |args| > 2 {
          assert init[2..] == args[2..][..|args[2..]| - 1];
          ScanFailsIff(args[2..], o.(socket := args[1]));
        }
      } else {
        assert |args| > 1 ==> init[1..] == args[1..][..|args[1..]| - 1];
        ScanFailsIff(args[1..], if value.Some? then o.(socket := value.value)
                                else o.(positionals := o.positionals + [args[0]]));
      }
    }
  }

  /** The scan appends arguments that were given, and none that stands for a
      socket option. */
  lemma {:induction false} ScannedHasNoSocket(args: seq<string>, o: Options, k: nat)
    requires ScanSocket(args, o).Success?
    ensures o.positionals <= ScanSocket(args, o).value.positionals
    ensures |o.positionals| <= k < |ScanSocket(args, o).value.positionals| ==>
              var arg := ScanSocket(args, o).value.positionals[k];
              arg in args && arg != "--socket" && !HasLongOption(arg, "--socket")
    decreases |args|
  {
    if args != [] {
      var value := TrimOption(args[0], "--socket");
      if args[0] == "--socket" {
        ScannedHasNoSocket(args[2..], o.(socket := args[1]), k);
      } else if value.Some? {
        ScannedHasNoSocket(args[1..], o.(socket := value.value), k);
      } else {
        ScannedHasNoSocket(args[1..], o.(positionals := o.positionals + [args[0]]), k);
      }
    }
  }

  /** Arguments that are no socket options are all kept, in order. */
  lemma {:induction false} ScanOfPlain(args: seq<string>, o: Options)
    requires forall k | 0 <= k < |args| :: args[k] != "--socket" && !HasLongOption(args[k], "--socket")
    ensures ScanSocket(args, o) == Success(o.(positionals := o.positionals + args))
    decreases |args|
  {
    if args == [] {
      assert o.positionals + [] == o.positionals;
    } else {
      ScanOfPlain(args[1..], o.(positionals := o.positionals + [args[0]]));
      assert (o.positionals + [args[0]]) + args[1..] == o.positionals + args;
    }
  }

  method ParseArgs(args: seq<string>, defaultSocket: string) returns (r: Result<Options, ArgError>)
    ensures r == ScanSocket(args, Options(defaultSocket, []))
  {
    var socket, positionals: seq<string> := defaultSocket, [];
    var i := 0;
    while i < |args|
      invariant 0 <= i <= |args|
      invariant ScanSocket(args[i..], Options(socket, positionals)) == ScanSocket(args, Options(defaultSocket, []))
    {
      assert args[i..][1..] == args[i + 1..];
      assert i + 1 < |args| ==> args[i..][2..] == args[i + 2..];
      if args[i] == "--socket" {
        if i + 1 >= |args| {
          return Failure(MissingSocket);
        }
        socket := args[i + 1];
        i := i + 2;
        continue;
      }
      var value := TrimOption(args[i], "--socket");
      if value.Some? {
        socket := value.value;
      } else {
        positionals := positionals + [args[i]];
      }
      i := i + 1;
    }
    return Success(Options(socket, positionals));
  }

  // ---------- The two passes ----------

  /** First pass: the last timeout given, or the first error. */
  function LastTimeout(parse: DurationParser, args: seq<string>, timeout: int): Result<int, ArgError> {
    if args == [] then Success(timeout)
    else if args[0] == "--timeout" then
      if |args| < 2 then Failure(MissingTimeout)
      else
        match parse(args[1])
        case None => Failure(BadTimeout)
        case Some(d) => LastTimeout(parse, args[2..], d)
    else
      match TrimOption(args[0], "--timeout")
      case Some(value) =>
        (match parse(value)
         case None => Failure(BadTimeout)
         case Some(d) => LastTimeout(parse, args[1..], d))
      case None => LastTimeout(parse, args[1..], timeout)
  }

  /** Second pass: the arguments that belong to no timeout option. */
  function Kept(args: seq<string>): seq<string> {
    if args == [] then []
    else if args[0] == "--timeout" then (if |args| < 2 then [] else Kept(args[2..]))
    else if TrimOption(args[0], "--timeout").Some? then Kept(args[1..])
    else [args[0]] + Kept(args[1..])
  }

  function TwoPasses(parse: DurationParser, o: Options): Result<PopOptions, ArgError> {
    match LastTimeout(parse, o.positionals, 0)
    case Failure(e) => Failure(e)
    case Success(t) => if t < 0 then Failure(NegativeTimeout) else Success(PopOptions(o.socket, Kept(o.positionals), t))
  }

  /** No argument is kept that stands for a timeout option. */
  lemma {:induction false} KeptHasNoOptions(args: seq<string>, k: nat)
    requires k < |Kept(args)|
    ensures Kept(args)[k] in args
    ensures Kept(args)[k] != "--timeout" && TrimOption(Kept(args)[k], "--timeout").None?
    decreases |args|
  {
    if args[0] == "--timeout" {
      KeptHasNoOptions(args[2..], k);
    } else if TrimOption(args[0], "--timeout").Some? {
      KeptHasNoOptions(args[1..], k);
    } else if k > 0 {
      KeptHasNoOptions(args[1..], k - 1);
    }
  }

  /** Arguments without timeout options are all kept, in order. */
  lemma {:induction false} KeptOfPlain(args: seq<string>)
    requires forall k | 0 <= k < |args| :: args[k] != "--timeout" && TrimOption(args[k], "--timeout").None?
    ensures Kept(args) == args
    decreases |args|
  {
    if args != [] {
      KeptOfPlain(args[1..]);
    }
  }

  /** Both passes go on where they stopped: the arguments can be cut anywhere
      but between an option and its value. */
  lemma {:induction false} PassesConcat(parse: DurationParser, a: seq<string>, b: seq<string>, t: int)
    requires LastTimeout(parse, a, t).Success?
    ensures LastTimeout(parse, a + b, t) == LastTimeout(parse, b, LastTimeout(parse, a, t).value)
    ensures Kept(a + b) == Kept(a) + Kept(b)
    decreases |a|
  {
    if a == [] {
      assert a + b == b;
    } else if a[0] == "--timeout" {
      var rest := a[2..];
      assert (a + b)[2..] == rest + b;
      PassesConcat(parse, rest, b, parse(a[1]).value);
    } else {
      var rest, value := a[1..], TrimOption(a[0], "--timeout");
      assert (a + b)[1..] == rest + b;
      PassesConcat(parse, rest, b, if value.Some? then parse(value.value).value else t);
      if value.None? {
        assert [a[0]] + (Kept(rest) + Kept(b)) == ([a[0]] + Kept(rest)) + Kept(b);
      }
    }
  }

  /** An argument that is kept moves from what is to come to what is written. */
  lemma KeepOne(done: seq<string>, all: seq<string>, i: nat)
    requires i < |all| && all[i] != "--timeout" && TrimOption(all[i], "--timeout").None?
    ensures done + Kept(all[i..]) == (done + [all[i]]) + Kept(all[i + 1..])
  {
  }

  /** The one loop of `parsePopArgs`, in place: what is written never reaches
      what is still to be read, and the result is that of the two passes. */
  method FilterInPlace(a: array<string>, parse: DurationParser) returns (timeout: Result<int, ArgError>, kept: nat)
    modifies a
    ensures timeout == LastTimeout(parse, old(a[..]), 0)
    ensures timeout.Success? ==> kept <= a.Length && a[..kept] == Kept(old(a[..]))
  {
    ghost var all := a[..];
    var t, i := 0, 0;
    kept := 0;
    while i < a.Length
      invariant 0 <= kept <= i <= a.Length
      invariant a[i..] == all[i..]
      invariant a[..kept] + Kept(all[i..]) == Kept(all)
      invariant LastTimeout(parse, all[i..], t) == LastTimeout(parse, all, 0)
    {
      var arg := a[i];
      assert all[i..][0] == a[i..][0] == arg;
      assert all[i..][1..] == all[i + 1..];
      assert i + 1 < a.Length ==> all[i..][2..] == all[i + 2..] && all[i..][1] == a[i..][1] == a[i + 1];
      if arg == "--timeout" {
        if i + 1 >= a.Length {
          return Failure(MissingTimeout), kept;
        }
        match parse(a[i + 1]) {
          case None => return Failure(BadTimeout), kept;
          case Some(d) => t := d;
        }
        i := i + 2;
        continue;
      }
      match TrimOption(arg, "--timeout") {
        case Some(value) =>
          match parse(value) {
            case None => return Failure(BadTimeout), kept;
            case Some(d) => t := d;
          }
        case None =>
          KeepOne(a[..kept], all, i);
          ghost var done := a[..kept];
          a[kept] := arg;
          kept := kept + 1;
          assert a[..kept] == done + [arg];
      }
      i := i + 1;
    }
    assert a[..kept] + [] == a[..kept];
    return Success(t), kept;
  }

  /** The whole parse: the socket scan, then both passes. */
  function Parsed(parse: DurationParser, args: seq<string>, defaultSocket: string): Result<PopOptions, ArgError> {
    match ScanSocket(args, Options(defaultSocket, []))
    case Failure(e) => Failure(e)
    case Success(o) => TwoPasses(parse, o)
  }

  method ParsePopArgs(args: seq<string>, parse: DurationParser, defaultSocket: string)
    returns (r: Result<PopOptions, ArgError>)
    ensures r == Parsed(parse, args, defaultSocket)
  {
    var scanned := ParseArgs(args, defaultSocket);
    match scanned
    case Failure(e) => return Failure(e);
    case Success(o) =>
      var a := new string[|o.positionals|](i requires 0 <= i < |o.positionals| => o.positionals[i]);
      assert a[..] == o.positionals;
      var timeout, kept := FilterInPlace(a, parse);
      match timeout
      case Failure(e) => return Failure(e);
      case Success(t) =>
        if t < 0 {
          return Failure(NegativeTimeout);
        }
        return Success(PopOptions(o.socket, a[..kept], t));
  }
  // ---------- What a command line means ----------

  function LastOr(values: seq<string>, default: string): string {
    if values == [] then default else values[|values| - 1]
  }

  lemma LastOrCons(value: string, values: seq<string>, default: string)
    ensures LastOr([value] + values, default) == LastOr(values, value)
  {
  }

  /** The options in force after one item of a command line. */
  function After(item: Item, o: Options): Options {
    if item.Plain? then o.(positionals := o.positionals + [item.arg]) else o.(socket := item.value)
  }

  lemma ScanItem(item: Item, rest: seq<string>, o: Options)
    requires item.Plain? ==> IsPlain(item.arg, "--socket")
    ensures ScanSocket(ArgsOf("--socket", item) + rest, o)
            == ScanSocket(rest, After(item, o))
  {
    var args := ArgsOf("--socket", item) + rest;
    assert args[|ArgsOf("--socket", item)|..] == rest;
    match item
    case Plain(arg) => PlainIff(arg, "--socket");
    case Spaced(_) =>
    case Equals(value) => LongFormIsNotName("--socket", value);
  }

  lemma OptionsCons(items: seq<Item>, o: Options)
    requires items != []
    ensures LastOr(Values(items[1..]), After(items[0], o).socket) == LastOr(Values(items), o.socket)
    ensures After(items[0], o).positionals + Plains(items[1..]) == o.positionals + Plains(items)
  {
    PartsCons(items);
    if items[0].Plain? {
      Assoc(o.positionals, [items[0].arg], Plains(items[1..]));
    } else {
      LastOrCons(items[0].value, Values(items[1..]), o.socket);
    }
  }

  /** The socket is the last one given or the default, the other arguments stay
      in order, and only a last `--socket` without a value is an error. */
  lemma {:induction false} ScanOfLine(items: seq<Item>, dangling: bool, o: Options)
    requires WellFormed("--socket", items)
    ensures ScanSocket(Line("--socket", items) + Dangling("--socket", dangling), o)
            == if dangling then Failure(MissingSocket)
               else Success(Options(LastOr(Values(items), o.socket), o.positionals + Plains(items)))
    decreases |items|
  {
    var end := Dangling("--socket", dangling);
    if items == [] {
      assert Line("--socket", items) + end == end && o.positionals + [] == o.positionals;
    } else {
      LineCons("--socket", items, end);
      ScanItem(items[0], Line("--socket", items[1..]) + end, o);
      ScanOfLine(items[1..], dangling, After(items[0], o));
      OptionsCons(items, o);
    }
  }

  lemma TimeoutItem(parse: DurationParser, item: Item, rest: seq<string>, t: int)
    requires item.Plain? ==> IsPlain(item.arg, "--timeout")
    ensures LastTimeout(parse, ArgsOf("--timeout", item) + rest, t)
            == if item.Plain? then LastTimeout(parse, rest, t)
               else if parse(item.value).None? then Failure(BadTimeout)
               else LastTimeout(parse, rest, parse(item.value).value)
    ensures Kept(ArgsOf("--timeout", item) + rest) == (if item.Plain? then [item.arg] else []) + Kept(rest)
  {
    var args := ArgsOf("--timeout", item) + rest;
    assert args[|ArgsOf("--timeout", item)|..] == rest;
    assert [] + Kept(rest) == Kept(rest);
    match item
    case Plain(arg) => PlainIff(arg, "--timeout");
    case Spaced(_) =>
    case Equals(value) => LongFormIsNotName("--timeout", value);
  }

  ghost predicate AllParse(parse: DurationParser, values: seq<string>) {
    forall k | 0 <= k < |values| :: parse(values[k]).Some?
  }

  lemma AllParseCons(parse: DurationParser, value: string, values: seq<string>)
    ensures AllParse(parse, [value] + values) <==> parse(value).Some? && AllParse(parse, values)
  {
    var all := [value] + values;
    assert forall k | 0 <= k < |values| :: values[k] == all[k + 1];
    assert all[0] == value;
  }

  /** A timeout that does not parse is the error; then a last `--timeout`
      without a value is; otherwise the last timeout given counts. */
  lemma {:induction false} TimeoutOfLine(parse: DurationParser, items: seq<Item>, dangling: bool, t: int)
    requires WellFormed("--timeout", items)
    ensures LastTimeout(parse, Line("--timeout", items) + Dangling("--timeout", dangling), t)
            == if !AllParse(parse, Values(items)) then Failure(BadTimeout)
               else if dangling then Failure(MissingTimeout)
               else if Values(items) == [] then Success(t)
               else Success(parse(LastOr(Values(items), "")).value)
    decreases |items|
  {
    var end := Dangling("--timeout", dangling);
    if items == [] {
      assert Line("--timeout", items) + end == end;
    } else {
      var item, more := items[0], items[1..];
      LineCons("--timeout", items, end);
      PartsCons(items);
      TimeoutItem(parse, item, Line("--timeout", more) + end, t);
      if item.Plain? {
        TimeoutOfLine(parse, more, dangling, t);
      } else {
        AllParseCons(parse, item.value, Values(more));
        LastOrCons(item.value, Values(more), "");
        if parse(item.value).Some? {
          TimeoutOfLine(parse, more, dangling, parse(item.value).value);
        }
      }
    }
  }

  /** What is kept are the plain arguments, in order. */
  lemma {:induction false} KeptOfLine(items: seq<Item>, dangling: bool)
    requires WellFormed("--timeout", items)
    ensures Kept(Line("--timeout", items) + Dangling("--timeout", dangling)) == Plains(items)
    decreases |items|
  {
    var end := Dangling("--timeout", dangling);
    if items == [] {
      assert Line("--timeout", items) + end == end;
    } else {
      LineCons("--timeout", items, end);
      PartsCons(items);
      TimeoutItem(_ => None, items[0], Line("--timeout", items[1..]) + end, 0);
      KeptOfLine(items[1..], dangling);
    }
  }

  /** What every command line means: read once for the socket, and what that
      leaves once more for the timeout. */
  lemma EveryPopLine(parse: DurationParser, args: seq<string>, defaultSocket: string)
    returns (sockets: seq<Item>, noSocket: bool, timeouts: seq<Item>, noTimeout: bool)
    ensures WellFormed("--socket", sockets) && WellFormed("--timeout", timeouts)
    ensures args == Line("--socket", sockets) + Dangling("--socket", noSocket)
    ensures Plains(sockets) == Line("--timeout", timeouts) + Dangling("--timeout", noTimeout)
    ensures var values := Values(timeouts);
            Parsed(parse, args, defaultSocket) ==
              if noSocket then Failure(MissingSocket)
              else if exists k :: 0 <= k < |values| && parse(values[k]).None? then Failure(BadTimeout)
              else if noTimeout then Failure(MissingTimeout)
              else
                var t := if values == [] then 0 else parse(values[|values| - 1]).value;
                if t < 0 then Failure(NegativeTimeout)
                else Success(PopOptions(LastOr(Values(sockets), defaultSocket), Plains(timeouts), t))
  {
    sockets, noSocket := EveryLine("--socket", args);
    timeouts, noTimeout := EveryLine("--timeout", Plains(sockets));
    ScanOfLine(sockets, noSocket, Options(defaultSocket, []));
    assert [] + Plains(sockets) == Plains(sockets);
    TimeoutOfLine(parse, timeouts, noTimeout, 0);
    KeptOfLine(timeouts, noTimeout);
  }

  /** Without a timeout option the timeout stays what it was. */
  lemma {:induction false} NoTimeoutOption(parse: DurationParser, args: seq<string>, t: int)
    requires forall k | 0 <= k < |args| :: IsPlain(args[k], "--timeout")
    ensures LastTimeout(parse, args, t) == Success(t) && Kept(args) == args
    decreases |args|
  {
    if args != [] {
      PlainIff(args[0], "--timeout");
      NoTimeoutOption(parse, args[1..], t);
    }
  }

  lemma TwoOptionsDiffer(value: string)
    ensures IsPlain("--timeout", "--socket") && IsPlain("--timeout=" + value, "--socket")
  {
    PlainIff("--timeout", "--socket");
    PlainIff("--timeout=" + value, "--socket");
    assert "--timeout"[2] != "--socket="[2] && ("--timeout=" + value)[2] != "--socket="[2];
  }

  lemma NoSocketOption(args: seq<string>, defaultSocket: string)
    requires forall k | 0 <= k < |args| :: IsPlain(args[k], "--socket")
    ensures ScanSocket(args, Options(defaultSocket, [])) == Success(Options(defaultSocket, args))
  {
    forall k | 0 <= k < |args| ensures args[k] != "--socket" && !HasLongOption(args[k], "--socket") {
      PlainIff(args[k], "--socket");
    }
    ScanOfPlain(args, Options(defaultSocket, []));
    assert [] + args == args;
  }

  /** One timeout among plain arguments, in either form, is the timeout. */
  lemma OneTimeoutOption(parse: DurationParser, a: seq<string>, item: Item, b: seq<string>, defaultSocket: string)
    requires forall k | 0 <= k < |a| :: IsPlain(a[k], "--socket") && IsPlain(a[k], "--timeout")
    requires forall k | 0 <= k < |b| :: IsPlain(b[k], "--socket") && IsPlain(b[k], "--timeout")
    requires !item.Plain? && IsPlain(item.value, "--socket") && parse(item.value).Some? && parse(item.value).value >= 0
    ensures var option := if item.Spaced? then ["--timeout", item.value] else ["--timeout=" + item.value];
            Parsed(parse, a + (option + b), defaultSocket)
            == Success(PopOptions(defaultSocket, a + b, parse(item.value).value))
  {
    var option := ArgsOf("--timeout", item);
    TwoOptionsDiffer(item.value);
    assert "--timeout" + "=" + item.value == "--timeout=" + item.value;
    NoSocketOption(a + (option + b), defaultSocket);
    NoTimeoutOption(parse, a, 0);
    NoTimeoutOption(parse, b, parse(item.value).value);
    PassesConcat(parse, a, option + b, 0);
    TimeoutItem(parse, item, b, 0);
    assert [] + Kept(b) == b;
  }
}
