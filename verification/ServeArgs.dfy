/** The serve arguments: an option loop, and the cap computed by a shift that
    wraps in 64 bits. */
module ServeArgs {
  import opened Types
  import opened LongOptions
  import AtomicQueue
  import BrokerRuns
  import BrokerInvariants

  const TWO_33: int := 0x2_0000_0000
  const TWO_34: int := 0x4_0000_0000
  const DEFAULT_GBYTES: Int64 := 4

  /** An integer reduced to 64 bits, two's complement. */
  function Wrap(x: int): Int64 {
    var u := x % TWO_64;
    if u < TWO_63 then u else u - TWO_64
  }

  /** `gbytes << 30`. */
  function CapOf(gbytes: Int64): Int64 {
    Wrap(gbytes * TWO_30)
  }

  /** The test that decides whether a cap is accepted. */
  predicate AcceptedCap(gbytes: Int64) {
    CapOf(gbytes) >= DEFAULT_MAX_BYTES
  }

  lemma CapModulo(gbytes: Int64)
    requires gbytes > 0
    ensures gbytes * TWO_30 % TWO_64 == gbytes % TWO_34 * TWO_30
  {
  }

  /** Exactly which numbers are accepted, and what cap they give: a multiple
      of 2^30 between 2^30 and 2^63 - 2^30, taken from the low 34 bits. */
  lemma AcceptedCaps(gbytes: Int64)
    requires gbytes > 0
    ensures AcceptedCap(gbytes) <==> 1 <= gbytes % TWO_34 < TWO_33
    ensures AcceptedCap(gbytes) ==>
              && CapOf(gbytes) == gbytes % TWO_34 * TWO_30
              && CapOf(gbytes) % TWO_30 == 0
              && TWO_30 <= CapOf(gbytes) <= TWO_63 - TWO_30
  {
    CapModulo(gbytes);
  }

  /** The accepted cap is the number of GiB asked for exactly below 2^33. */
  lemma CapIsExactIff(gbytes: Int64)
    requires gbytes > 0 && AcceptedCap(gbytes)
    ensures CapOf(gbytes) == gbytes * TWO_30 <==> gbytes < TWO_33
  {
  }

  /** 2^34 + 1 GiB is accepted, and gives a cap of one GiB. */
  lemma WrappedCapIsAccepted()
    ensures AcceptedCap(TWO_34 + 1) && CapOf(TWO_34 + 1) == TWO_30
  {
  }

  // ---------- The option loop ----------

  datatype ServeError =
    MissingSocket | MissingGbytes | BadNumber | NotPositive | UnknownOption | CapTooSmall

  datatype Settings = Settings(socket: string, gbytes: Int64)
  datatype ServeConfig = ServeConfig(socket: string, maxQueuedBytes: Int64)

  /** `strconv.ParseInt(s, 10, 64)`, left abstract. */
  type IntParser = string -> Option<Int64>

  function ParsePositive(parse: IntParser, value: string): Result<Int64, ServeError> {
    match parse(value)
    case None => Failure(BadNumber)
    case Some(n) => if n <= 0 then Failure(NotPositive) else Success(n)
  }

  /** The options from left to right: the last one of a kind wins, the first
      error ends the scan. */
  function Scan(parse: IntParser, args: seq<string>, s: Settings): Result<Settings, ServeError> {
    if args == [] then Success(s)
    else if args[0] == "--socket" then
      if |args| < 2 then Failure(MissingSocket) else Scan(parse, args[2..], s.(socket := args[1]))
    else if HasLongOption(args[0], "--socket") then
      Scan(parse, args[1..], s.(socket := TrimOption(args[0], "--socket").value))
    else if args[0] == "--max-queued-gbytes" then
      if |args| < 2 then Failure(MissingGbytes)
      else
        match ParsePositive(parse, args[1])
        case Failure(e) => Failure(e)
        case Success(n) => Scan(parse, args[2..], s.(gbytes := n))
    else if HasLongOption(args[0], "--max-queued-gbytes") then
      match ParsePositive(parse, TrimOption(args[0], "--max-queued-gbytes").value)
      case Failure(e) => Failure(e)
      case Success(n) => Scan(parse, args[1..], s.(gbytes := n))
    else Failure(UnknownOption)
  }

  /** Scanning goes on where an earlier scan stopped: the order of the options
      decides, and nothing else is remembered. */
  lemma {:induction false} ScanConcat(parse: IntParser, a: seq<string>, b: seq<string>, s: Settings)
    requires Scan(parse, a, s).Success?
    ensures Scan(parse, a + b, s) == Scan(parse, b, Scan(parse, a, s).value)
    decreases |a|
  {
    if a == [] {
      assert a + b == b;
    } else {
      assert (a + b)[1..] == a[1..] + b;
      if a[0] == "--socket" {
        assert (a + b)[2..] == a[2..] + b;
        ScanConcat(parse, a[2..], b, s.(socket := a[1]));
      } else if HasLongOption(a[0], "--socket") {
        ScanConcat(parse, a[1..], b, s.(socket := TrimOption(a[0], "--socket").value));
      } else if a[0] == "--max-queued-gbytes" {
        assert (a + b)[2..] == a[2..] + b;
        ScanConcat(parse, a[2..], b, s.(gbytes := ParsePositive(parse, a[1]).value));
      } else {
        ScanConcat(parse, a[1..], b, s.(gbytes := ParsePositive(parse, TrimOption(a[0], "--max-queued-gbytes").value).value));
      }
    }
  }

  lemma FormsDiffer(value: string)
    ensures TrimOption("--max-queued-gbytes", "--socket").None?
    ensures TrimOption("--max-queued-gbytes=" + value, "--socket").None?
    ensures "--max-queued-gbytes=" + value != "--socket"
    ensures "--socket=" + value != "--socket" && TrimOption("--socket=" + value, "--socket") == Some(value)
    ensures "--max-queued-gbytes=" + value != "--max-queued-gbytes"
    ensures TrimOption("--max-queued-gbytes=" + value, "--max-queued-gbytes") == Some(value)
  {
    assert "--max-queued-gbytes"[2] != "--socket="[2] && ("--max-queued-gbytes=" + value)[2] != "--socket="[2];
    LongFormIsNotName("--socket", value);
    LongFormIsNotName("--max-queued-gbytes", value);
    assert "--socket" + "=" + value == "--socket=" + value;
    assert "--max-queued-gbytes" + "=" + value == "--max-queued-gbytes=" + value;
  }

  /** What one size option does, in both forms: it sets the size, or fails on a
      value that is no number or not positive. */
  lemma SizeForms(parse: IntParser, value: string, s: Settings)
    ensures var r := if parse(value).None? then Failure(BadNumber)
                     else if parse(value).value <= 0 then Failure(NotPositive)
                     else Success(Settings(s.socket, parse(value).value));
            && Scan(parse, ["--max-queued-gbytes", value], s) == r
            && Scan(parse, ["--max-queued-gbytes=" + value], s) == r
  {
    FormsDiffer(value);
    assert ["--max-queued-gbytes", value][2..] == [] && ["--max-queued-gbytes=" + value][1..] == [];
  }

  lemma SocketForms(parse: IntParser, value: string, s: Settings)
    ensures Scan(parse, ["--socket", value], s) == Success(Settings(value, s.gbytes))
    ensures Scan(parse, ["--socket=" + value], s) == Success(Settings(value, s.gbytes))
  {
    FormsDiffer(value);
    assert ["--socket", value][2..] == [] && ["--socket=" + value][1..] == [];
  }

  /** The last option of a kind wins over everything before it, in either form,
      and leaves the other setting alone. */
  lemma LastOptionWins(parse: IntParser, args: seq<string>, value: string, s: Settings)
    requires Scan(parse, args, s).Success?
    ensures var now := Scan(parse, args, s).value;
            && Scan(parse, args + ["--socket", value], s) == Success(Settings(value, now.gbytes))
            && Scan(parse, args + ["--socket=" + value], s) == Success(Settings(value, now.gbytes))
            && (parse(value).Some? && parse(value).value > 0 ==>
                  var sized := Success(Settings(now.socket, parse(value).value));
                  && Scan(parse, args + ["--max-queued-gbytes", value], s) == sized
                  && Scan(parse, args + ["--max-queued-gbytes=" + value], s) == sized)
  {
    var now := Scan(parse, args, s).value;
    ScanConcat(parse, args, ["--socket", value], s);
    ScanConcat(parse, args, ["--socket=" + value], s);
    ScanConcat(parse, args, ["--max-queued-gbytes", value], s);
    ScanConcat(parse, args, ["--max-queued-gbytes=" + value], s);
    SocketForms(parse, value, now);
    SizeForms(parse, value, now);
  }

  /** Options without their value, and anything that is no option, fail. */
  lemma OtherArguments(parse: IntParser, arg: string, rest: seq<string>, s: Settings)
    ensures Scan(parse, ["--socket"], s) == Failure(MissingSocket)
    ensures Scan(parse, ["--max-queued-gbytes"], s) == Failure(MissingGbytes)
    ensures IsPlain(arg, "--socket") && IsPlain(arg, "--max-queued-gbytes") ==>
              Scan(parse, [arg] + rest, s) == Failure(UnknownOption)
  {
    FormsDiffer("");
    PlainIff(arg, "--socket");
    PlainIff(arg, "--max-queued-gbytes");
  }

  /** An error other than a missing value stops the scan for good. */
  lemma {:induction false} FailureStops(parse: IntParser, a: seq<string>, b: seq<string>, s: Settings)
    requires Scan(parse, a, s).Failure? && Scan(parse, a, s).error !in {MissingSocket, MissingGbytes}
    ensures Scan(parse, a + b, s) == Scan(parse, a, s)
    decreases |a|
  {
    assert (a + b)[1..] == a[1..] + b;
    if |a| > 1 {
      assert (a + b)[2..] == a[2..] + b;
    }
    if a[0] == "--socket" {
      FailureStops(parse, a[2..], b, s.(socket := a[1]));
    } else if HasLongOption(a[0], "--socket") {
      FailureStops(parse, a[1..], b, s.(socket := TrimOption(a[0], "--socket").value));
    } else if a[0] == "--max-queued-gbytes" {
      if ParsePositive(parse, a[1]).Success? {
        FailureStops(parse, a[2..], b, s.(gbytes := ParsePositive(parse, a[1]).value));
      }
    } else if HasLongOption(a[0], "--max-queued-gbytes") {
      var n := ParsePositive(parse, TrimOption(a[0], "--max-queued-gbytes").value);
      if n.Success? {
        FailureStops(parse, a[1..], b, s.(gbytes := n.value));
      }
    }
  }

  /** The setting in force before the options: the environment or 4 GiB. */
  function Initial(parse: IntParser, socket: string, env: string): Result<Settings, ServeError> {
    if env == "" then Success(Settings(socket, DEFAULT_GBYTES))
    else
      match ParsePositive(parse, env)
      case Failure(e) => Failure(e)
      case Success(n) => Success(Settings(socket, n))
  }

  /** What the arguments and the environment ask for, before the cap. */
  function Requested(parse: IntParser, args: seq<string>, socket: string, env: string): Result<Settings, ServeError> {
    match Initial(parse, socket, env)
    case Failure(e) => Failure(e)
    case Success(s) => Scan(parse, args, s)
  }

  /** Before any option: the default of 4 GiB, or what the environment says. */
  lemma BeforeTheOptions(parse: IntParser, socket: string, env: string)
    ensures Requested(parse, [], socket, "") == Success(Settings(socket, 4)) && CapOf(4) == 4 * 1024 * 1024 * 1024
    ensures env != "" ==>
              Requested(parse, [], socket, env) ==
                if parse(env).None? then Failure(BadNumber)
                else if parse(env).value <= 0 then Failure(NotPositive)
                else Success(Settings(socket, parse(env).value))
  {
  }

  /** The options follow the environment, whose error comes first. */
  lemma OptionsFollow(parse: IntParser, args: seq<string>, socket: string, env: string)
    ensures Requested(parse, args, socket, env) ==
              if Requested(parse, [], socket, env).Failure? then Requested(parse, [], socket, env)
              else Scan(parse, args, Requested(parse, [], socket, env).value)
  {
  }

  method ParseServeArgs(args: seq<string>, parse: IntParser, defaultSocket: string, env: string)
    returns (r: Result<ServeConfig, ServeError>)
    ensures var asked := Requested(parse, args, defaultSocket, env);
            && (r.Success? <==> asked.Success? && AcceptedCap(asked.value.gbytes))
            && (r.Success? ==> r.value == ServeConfig(asked.value.socket, CapOf(asked.value.gbytes)))
            && (r.Failure? ==> r.error == if asked.Failure? then asked.error else CapTooSmall)
    ensures r.Success? ==>
              r.value.maxQueuedBytes % TWO_30 == 0 && TWO_30 <= r.value.maxQueuedBytes <= TWO_63 - TWO_30
  {
    var socket, gbytes := defaultSocket, DEFAULT_GBYTES;
    if env != "" {
      match ParsePositive(parse, env) {
        case Failure(e) => return Failure(e);
        case Success(n) => gbytes := n;
      }
    }
    ghost var start := Settings(socket, gbytes);
    var i := 0;
    while i < |args|
      invariant 0 <= i <= |args| && gbytes > 0
      invariant Scan(parse, args[i..], Settings(socket, gbytes)) == Scan(parse, args, start)
    {
      var arg := args[i];
      assert args[i..][1..] == args[i + 1..];
      assert i + 1 < |args| ==> args[i..][2..] == args[i + 2..];
      if arg == "--socket" {
        if i + 1 >= |args| {
          return Failure(MissingSocket);
        }
        socket := args[i + 1];
        i := i + 1;
      } else if HasLongOption(arg, "--socket") {
        socket := TrimOption(arg, "--socket").value;
      } else if arg == "--max-queued-gbytes" {
        if i + 1 >= |args| {
          return Failure(MissingGbytes);
        }
        match ParsePositive(parse, args[i + 1]) {
          case Failure(e) => return Failure(e);
          case Success(n) => gbytes := n;
        }
        i := i + 1;
      } else if HasLongOption(arg, "--max-queued-gbytes") {
        match ParsePositive(parse, TrimOption(arg, "--max-queued-gbytes").value) {
          case Failure(e) => return Failure(e);
          case Success(n) => gbytes := n;
        }
      } else {
        return Failure(UnknownOption);
      }
      i := i + 1;
    }
    AcceptedCaps(gbytes);
    if CapOf(gbytes) < DEFAULT_MAX_BYTES {
      return Failure(CapTooSmall);
    }
    return Success(ServeConfig(socket, CapOf(gbytes)));
  }

  /** With a cap that the arguments can produce, the sum compared at line 85 of
      broker.go never overflows, in any reachable state, and a valid payload always fits
      when nothing is queued. */
  lemma AccountingNeverOverflows(gbytes: Int64, s: BrokerRuns.State, payload: Payload)
    requires gbytes > 0 && AcceptedCap(gbytes) && ValidPayload(payload, DEFAULT_MAX_BYTES)
    requires BrokerRuns.Reached(AtomicQueue.Config(DEFAULT_MAX_BYTES, CapOf(gbytes)), s)
    ensures 0 <= s.b.queuedBytes <= s.b.queuedBytes + |payload| < TWO_63
    ensures s.b.queues == map[] ==> s.b.queuedBytes + |payload| <= CapOf(gbytes)
  {
    AcceptedCaps(gbytes);
    BrokerInvariants.ReachedInv(AtomicQueue.Config(DEFAULT_MAX_BYTES, CapOf(gbytes)), s);
  }
}
