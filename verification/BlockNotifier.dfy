/** The rate limiter of the block notices: any number of callers read the
    clock, load the last timestamp, test it and try to swap it, as separate
    steps in any order. */
module BlockNotifier {
  import opened Types

  const MIN_INTERVAL: int := 10_000_000_000

  datatype Pc =
    | Called
    | HasNow(now: Int64)
    | Loaded(now: Int64, prev: Int64)
    | Passed(now: Int64, prev: Int64)
    | Quiet
    | Won(now: Int64)

  /** `winners` is history: the timestamps that won the swap, in order. */
  datatype State = State(last: Int64, callers: seq<Pc>, winners: seq<Int64>)

  datatype Action = Arrive | ReadClock(i: nat, now: Int64) | Load(i: nat) | Test(i: nat) | Swap(i: nat)

  const START := State(0, [], [])

  /** The readings the clock may show, in any order and any number of times. */
  type Clock = Int64 -> bool

  /** Subtraction in 64 bits. */
  function Minus(a: Int64, b: Int64): Int64 {
    var u := (a - b) % TWO_64;
    if u < TWO_63 then u else u - TWO_64
  }

  predicate Enabled(shows: Clock, s: State, a: Action) {
    && (a.Arrive? || a.i < |s.callers|)
    && match a
       case Arrive => true
       case ReadClock(i, now) => s.callers[i].Called? && shows(now)
       case Load(i) => s.callers[i].HasNow?
       case Test(i) => s.callers[i].Loaded?
       case Swap(i) => s.callers[i].Passed?
  }

  function Do(shows: Clock, s: State, a: Action): State
    requires Enabled(shows, s, a)
  {
    match a
    case Arrive => s.(callers := s.callers + [Called])
    case ReadClock(i, now) => s.(callers := s.callers[i := HasNow(now)])
    case Load(i) => s.(callers := s.callers[i := Loaded(s.callers[i].now, s.last)])
    case Test(i) =>
      var now, prev := s.callers[i].now, s.callers[i].prev;
      if prev != 0 && Minus(now, prev) < MIN_INTERVAL then s.(callers := s.callers[i := Quiet])
      else s.(callers := s.callers[i := Passed(now, prev)])
    case Swap(i) =>
      var now, prev := s.callers[i].now, s.callers[i].prev;
      if s.last == prev then State(now, s.callers[i := Won(now)], s.winners + [now])
      else s.(callers := s.callers[i := Quiet])
  }

  predicate Runs(shows: Clock, acts: seq<Action>)
    decreases |acts|, 0
  {
    acts == []
    || (Runs(shows, acts[..|acts| - 1]) && Enabled(shows, Exec(shows, acts[..|acts| - 1]), acts[|acts| - 1]))
  }

  function Exec(shows: Clock, acts: seq<Action>): State
    requires Runs(shows, acts)
    decreases |acts|, 1
  {
    if acts == [] then START else Do(shows, Exec(shows, acts[..|acts| - 1]), acts[|acts| - 1])
  }

  /** Pairwise at least ten seconds apart. */
  predicate Spaced(w: seq<Int64>) {
    forall i, j | 0 <= i < j < |w| :: (w[j] as int) - (w[i] as int) >= 10 * 1_000_000_000
  }

  ghost predicate AlwaysSpaced(shows: Clock) {
    forall acts | Runs(shows, acts) :: Spaced(Exec(shows, acts).winners)
  }

  /** The clock never shows zero, and never goes back so far that the 64-bit
      difference wraps around to ten seconds or more. */
  ghost predicate Sane(shows: Clock) {
    && !shows(0)
    && forall a, b | shows(a) && shows(b) && b < a :: Minus(b, a) < 10 * 1_000_000_000
  }

  // ---------- A sane clock ----------

  predicate CallerOk(shows: Clock, pc: Pc) {
    match pc
    case HasNow(now) => shows(now)
    case Loaded(now, prev) => shows(now) && (prev == 0 || shows(prev))
    case Passed(now, prev) => shows(now) && (prev == 0 || now - prev >= MIN_INTERVAL)
    case _ => true
  }

  predicate Inv(shows: Clock, s: State) {
    && (s.last == 0 || shows(s.last))
    && (forall i | 0 <= i < |s.callers| :: CallerOk(shows, s.callers[i]))
    && (s.winners == [] <==> s.last == 0)
    && (s.winners != [] ==> s.last == s.winners[|s.winners| - 1])
    && Spaced(s.winners)
  }

  /** For readings of a sane clock the 64-bit test says what it means. */
  lemma TestIsExact(shows: Clock, now: Int64, prev: Int64)
    requires Sane(shows) && shows(now) && shows(prev)
    ensures Minus(now, prev) >= MIN_INTERVAL ==> now - prev >= MIN_INTERVAL
  {
  }

  lemma Step(shows: Clock, s: State, a: Action)
    requires Sane(shows) && Inv(shows, s) && Enabled(shows, s, a)
    ensures Inv(shows, Do(shows, s, a))
  {
    if a.Test? && s.callers[a.i].prev != 0 {
      TestIsExact(shows, s.callers[a.i].now, s.callers[a.i].prev);
    }
  }

  lemma {:induction false} RunsAreSpaced(shows: Clock, acts: seq<Action>)
    requires Sane(shows) && Runs(shows, acts)
    ensures Inv(shows, Exec(shows, acts))
    decreases |acts|
  {
    if acts != [] {
      RunsAreSpaced(shows, acts[..|acts| - 1]);
      Step(shows, Exec(shows, acts[..|acts| - 1]), acts[|acts| - 1]);
    }
  }

  // ---------- Any other clock ----------

  lemma Then(shows: Clock, acts: seq<Action>, s: State, a: Action) returns (acts': seq<Action>, s': State)
    requires Runs(shows, acts) && Exec(shows, acts) == s && Enabled(shows, s, a)
    ensures Runs(shows, acts') && Exec(shows, acts') == s' == Do(shows, s, a)
  {
    acts', s' := acts + [a], Do(shows, s, a);
    assert acts'[..|acts'| - 1] == acts;
  }

  /** A caller that runs alone wins, unless the last notice is too recent. */
  lemma RunAlone(shows: Clock, acts: seq<Action>, s: State, now: Int64) returns (acts': seq<Action>, s': State)
    requires Runs(shows, acts) && Exec(shows, acts) == s && shows(now)
    requires s.last == 0 || Minus(now, s.last) >= MIN_INTERVAL
    ensures Runs(shows, acts') && Exec(shows, acts') == s'
    ensures s'.last == now && s'.winners == s.winners + [now]
  {
    var i := |s.callers|;
    acts', s' := Then(shows, acts, s, Arrive);
    acts', s' := Then(shows, acts', s', ReadClock(i, now));
    acts', s' := Then(shows, acts', s', Load(i));
    acts', s' := Then(shows, acts', s', Test(i));
    acts', s' := Then(shows, acts', s', Swap(i));
  }

  /** Zero is also the mark for "no notice yet": after a reading of zero the
      next reading wins, whatever it is, five nanoseconds for one. */
  lemma ZeroClockDefeatsIt(shows: Clock, next: Int64) returns (acts: seq<Action>)
    requires shows(0) && shows(next)
    ensures Runs(shows, acts) && Exec(shows, acts).winners == [0, next]
  {
    var s;
    acts, s := RunAlone(shows, [], START, 0);
    acts, s := RunAlone(shows, acts, s, next);
  }

  /** A clock that goes back so far that the difference wraps wins twice. */
  lemma WrapDefeatsIt(shows: Clock, first: Int64, next: Int64) returns (acts: seq<Action>)
    requires shows(first) && shows(next) && next < first && Minus(next, first) >= MIN_INTERVAL
    ensures Runs(shows, acts) && Exec(shows, acts).winners == [first, next]
  {
    var s;
    acts, s := RunAlone(shows, [], START, first);
    acts, s := RunAlone(shows, acts, s, next);
  }

  /** In every interleaving of any number of callers the winning timestamps
      are pairwise ten seconds apart, if and only if the clock is sane. */
  lemma SpacedIffClockIsSane(shows: Clock)
    ensures AlwaysSpaced(shows) <==> Sane(shows)
  {
    if Sane(shows) {
      forall acts | Runs(shows, acts) ensures Spaced(Exec(shows, acts).winners) {
        RunsAreSpaced(shows, acts);
      }
    } else if shows(0) {
      var acts := ZeroClockDefeatsIt(shows, 0);
      assert Exec(shows, acts).winners[1] - Exec(shows, acts).winners[0] < MIN_INTERVAL;
    } else {
      var a, b :| shows(a) && shows(b) && b < a && Minus(b, a) >= MIN_INTERVAL;
      var acts := WrapDefeatsIt(shows, a, b);
      assert Exec(shows, acts).winners[1] - Exec(shows, acts).winners[0] < MIN_INTERVAL;
    }
  }

  /** A positive clock is sane, even one that goes backwards. */
  lemma PositiveClockIsSpaced(shows: Clock)
    requires forall t | shows(t) :: t > 0
    ensures AlwaysSpaced(shows)
  {
    SpacedIffClockIsSane(shows);
  }

  /** A clock that never shows zero can still fail: from 2^62 back to
      -2^62 - 1 the 64-bit difference is positive. */
  lemma NonZeroIsNotEnough() returns (shows: Clock)
    ensures !shows(0) && !AlwaysSpaced(shows)
  {
    var a: Int64, b: Int64 := 0x4000_0000_0000_0000, -0x4000_0000_0000_0001;
    shows := (t: Int64) => t == a || t == b;
    assert shows(a) && shows(b) && b < a && Minus(b, a) >= MIN_INTERVAL;
    SpacedIffClockIsSane(shows);
  }
}
