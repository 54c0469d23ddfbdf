/** The circuit breaker in front of the outbox flusher. */
module Breakers {
  import opened Durations

  datatype CircuitState = Closed | Open | HalfOpen

  datatype Config = Config(tripThreshold: int, baseBackoff: int, maxBackoff: int)

  datatype Transition = Transition(from: CircuitState, to: CircuitState, at: int)

  predicate ValidConfig(cfg: Config) {
    cfg.tripThreshold > 0 && 0 < cfg.baseBackoff <= cfg.maxBackoff && IsDuration(cfg.maxBackoff)
  }

  function Defaulted(cfg: Config): (r: Config)
    requires IsDuration(cfg.baseBackoff) && IsDuration(cfg.maxBackoff)
    ensures ValidConfig(r)
    ensures ValidConfig(cfg) ==> r == cfg
  {
    var base := if cfg.baseBackoff <= 0 then 30 * SECOND else cfg.baseBackoff;
    var max := if cfg.maxBackoff <= 0 then 300 * SECOND else cfg.maxBackoff;
    Config(
      if cfg.tripThreshold <= 0 then 3 else cfg.tripThreshold,
      base,
      if max < base then base else max)
  }

  /** The breaker as a value; `ticks` counts the clock readings taken so far. */
  datatype Breaker = Breaker(
    cfg: Config,
    state: CircuitState,
    consecFails: int,
    tripIndex: nat,
    openedAt: int,
    currentBackoff: int,
    tripWindows: nat,
    recoveries: nat,
    probeIssued: bool,
    transitions: seq<Transition>,
    ticks: nat)

  function NewBreaker(cfg: Config): Breaker {
    Breaker(cfg, Closed, 0, 0, 0, 0, 0, 0, false, [], 0)
  }

  function Pow2(k: nat): (p: nat)
    ensures p > 0
  {
    if k == 0 then 1 else 2 * Pow2(k - 1)
  }

  /** The k-th doubling of the base hold, capped. */
  function Backoff(cfg: Config, k: nat): int {
    var full := cfg.baseBackoff * Pow2(k);
    if full > cfg.maxBackoff then cfg.maxBackoff else full
  }

  lemma Twofold(base: int, before: int, after: int)
    requires base > 0 && before > 0 && after == 2 * before
    ensures base * after == 2 * (base * before) && base * before > 0
  {
  }

  lemma {:induction false} PowGrows(base: int, i: nat, k: nat)
    requires base > 0 && i <= k
    ensures base * Pow2(i) <= base * Pow2(k)
  {
    if i < k {
      PowGrows(base, i, k - 1);
      var before, after := Pow2(k - 1), Pow2(k);
      Twofold(base, before, after);
    }
  }

  /** The doubling loop, which stops when doubling passes the cap or overflows. */
  method ComputeBackoff(cfg: Config, tripIndex: nat) returns (backoff: int)
    requires ValidConfig(cfg)
    ensures backoff == Backoff(cfg, tripIndex)
    ensures cfg.baseBackoff <= backoff <= cfg.maxBackoff
  {
    backoff := cfg.baseBackoff;
    for i := 0 to tripIndex
      invariant backoff == cfg.baseBackoff * Pow2(i)
      invariant cfg.baseBackoff <= backoff <= cfg.maxBackoff
    {
      var next := Wrap64(backoff * 2);
      assert cfg.baseBackoff * Pow2(i + 1) == backoff * 2;
      if next > cfg.maxBackoff || next <= 0 {
        PowGrows(cfg.baseBackoff, i + 1, tripIndex);
        return cfg.maxBackoff;
      }
      backoff := next;
    }
    if backoff > cfg.maxBackoff { backoff := cfg.maxBackoff; }
  }

  // ---------------------------------------------------------------- transitions as functions

  function Moved(b: Breaker, to: CircuitState, now: nat -> int): Breaker {
    b.(state := to, transitions := b.transitions + [Transition(b.state, to, now(b.ticks))], ticks := b.ticks + 1)
  }

  function Opened(b: Breaker, now: nat -> int): Breaker {
    var t := Moved(b, Open, now);
    t.(openedAt := now(t.ticks), ticks := t.ticks + 1, probeIssued := false,
       currentBackoff := Backoff(b.cfg, b.tripIndex), tripWindows := b.tripWindows + 1, consecFails := 0)
  }

  function Recovered(b: Breaker, now: nat -> int): Breaker {
    Moved(b, Closed, now).(
      consecFails := 0, tripIndex := 0, currentBackoff := 0, probeIssued := false, recoveries := b.recoveries + 1)
  }

  function Allowed(b: Breaker, now: nat -> int): (bool, Breaker) {
    match b.state
    case Closed => (true, b)
    case Open =>
      var read := b.(ticks := b.ticks + 1);
      if now(b.ticks) - b.openedAt < b.currentBackoff then (false, read)
      else (true, Moved(read, HalfOpen, now).(probeIssued := true))
    case HalfOpen => if b.probeIssued then (false, b) else (true, b.(probeIssued := true))
  }

  function Succeeded(b: Breaker, now: nat -> int): Breaker {
    if b.state == Closed then b.(consecFails := 0) else Recovered(b, now)
  }

  function Failed(b: Breaker, now: nat -> int): Breaker {
    match b.state
    case Closed =>
      var t := b.(consecFails := b.consecFails + 1);
      if t.consecFails >= b.cfg.tripThreshold then Opened(t, now) else t
    case HalfOpen => Opened(b.(tripIndex := b.tripIndex + 1), now)
    case Open => b
  }

  // ---------------------------------------------------------------- the object

  class CircuitBreaker {
    const cfg: Config
    const now: nat -> int
    var state: CircuitState
    var consecFails: int
    var tripIndex: nat
    var openedAt: int
    var currentBackoff: int
    var tripWindows: nat
    var recoveries: nat
    var probeIssued: bool
    var transitions: seq<Transition>
    var ticks: nat

    constructor (cfg: Config, now: nat -> int)
      requires IsDuration(cfg.baseBackoff) && IsDuration(cfg.maxBackoff)
      ensures Value() == NewBreaker(Defaulted(cfg)) && ValidConfig(this.cfg) && this.now == now
    {
      this.cfg, this.now := Defaulted(cfg), now;
      state, consecFails, tripIndex, openedAt, currentBackoff := Closed, 0, 0, 0, 0;
      tripWindows, recoveries, probeIssued, transitions, ticks := 0, 0, false, [], 0;
    }

    ghost function Value(): Breaker
      reads this
    {
      Breaker(cfg, state, consecFails, tripIndex, openedAt, currentBackoff, tripWindows, recoveries,
              probeIssued, transitions, ticks)
    }

    method ReadClock() returns (t: int)
      modifies this`ticks
      ensures t == now(old(ticks)) && ticks == old(ticks) + 1
    {
      t := now(ticks);
      ticks := ticks + 1;
    }

    method Transit(to: CircuitState)
      modifies this
      ensures Value() == Moved(old(Value()), to, now)
    {
      var from := state;
      state := to;
      var at := ReadClock();
      transitions := transitions + [Transition(from, to, at)];
    }

    method OpenUp()
      requires ValidConfig(cfg)
      modifies this
      ensures Value() == Opened(old(Value()), now)
    {
      Transit(Open);
      openedAt := ReadClock();
      probeIssued := false;
      currentBackoff := ComputeBackoff(cfg, tripIndex);
      tripWindows := tripWindows + 1;
      consecFails := 0;
    }

    method Allow() returns (ok: bool)
      modifies this
      ensures (ok, Value()) == Allowed(old(Value()), now)
    {
      match state
      case Closed => ok := true;
      case Open =>
        var t := ReadClock();
        if t - openedAt < currentBackoff { return false; }
        Transit(HalfOpen);
        probeIssued := true;
        ok := true;
      case HalfOpen =>
        if probeIssued { return false; }
        probeIssued := true;
        ok := true;
    }

    method RecordSuccess()
      modifies this
      ensures Value() == Succeeded(old(Value()), now)
    {
      if state == Closed {
        consecFails := 0;
      } else {
        Transit(Closed);
        consecFails, tripIndex, currentBackoff, probeIssued := 0, 0, 0, false;
        recoveries := recoveries + 1;
      }
    }

    method RecordFailure()
      requires ValidConfig(cfg)
      modifies this
      ensures Value() == Failed(old(Value()), now)
    {
      match state
      case Closed =>
        consecFails := consecFails + 1;
        if consecFails >= cfg.tripThreshold { OpenUp(); }
      case HalfOpen =>
        tripIndex := tripIndex + 1;
        OpenUp();
      case Open =>
    }
  }

  // ---------------------------------------------------------------- what every history keeps

  function Entered(ts: seq<Transition>, to: CircuitState): nat {
    if ts == [] then 0 else Entered(ts[..|ts| - 1], to) + if ts[|ts| - 1].to == to then 1 else 0
  }

  /** Consecutive trips: openings since the breaker last closed. */
  function Streak(ts: seq<Transition>): nat {
    if ts == [] then 0
    else
      match ts[|ts| - 1].to
      case Closed => 0
      case Open => Streak(ts[..|ts| - 1]) + 1
      case HalfOpen => Streak(ts[..|ts| - 1])
  }

  predicate Edge(t: Transition) {
    || (t.from == Closed && t.to == Open)
    || (t.from == Open && t.to == HalfOpen)
    || (t.from == HalfOpen && t.to == Closed)
    || (t.from == HalfOpen && t.to == Open)
    || (t.from == Open && t.to == Closed)
  }

  /** The recorded transitions form one path of legal edges from Closed to the current state. */
  predicate Path(ts: seq<Transition>, state: CircuitState) {
    && (ts == [] ==> state == Closed)
    && (ts != [] ==> ts[0].from == Closed && ts[|ts| - 1].to == state)
    && (forall i :: 0 <= i < |ts| ==> Edge(ts[i]))
    && (forall i :: 0 <= i < |ts| - 1 ==> ts[i].to == ts[i + 1].from)
  }

  /**
   The invariant. The statistics agree with the recorded history; the hold of an open breaker is
   the base doubled once per earlier consecutive trip, capped; and a half-open breaker always has
   its single probe out.
   */
  predicate Consistent(b: Breaker) {
    && ValidConfig(b.cfg)
    && Path(b.transitions, b.state)
    && b.tripWindows == Entered(b.transitions, Open)
    && b.recoveries == Entered(b.transitions, Closed)
    && 0 <= b.consecFails < b.cfg.tripThreshold
    && (b.consecFails > 0 ==> b.state == Closed)
    && (if b.state == Closed then b.tripIndex == 0 && Streak(b.transitions) == 0
        else Streak(b.transitions) == b.tripIndex + 1)
    && (b.state != Closed ==> b.currentBackoff == Backoff(b.cfg, b.tripIndex))
    && (b.probeIssued <==> b.state == HalfOpen)
  }

  lemma MovedHistory(b: Breaker, to: CircuitState, now: nat -> int)
    requires Path(b.transitions, b.state) && Edge(Transition(b.state, to, 0))
    ensures var t := Moved(b, to, now);
            && Path(t.transitions, to)
            && Entered(t.transitions, Open) == Entered(b.transitions, Open) + (if to == Open then 1 else 0)
            && Entered(t.transitions, Closed) == Entered(b.transitions, Closed) + (if to == Closed then 1 else 0)
            && Streak(t.transitions) == match to case Closed => 0 case Open => Streak(b.transitions) + 1 case HalfOpen => Streak(b.transitions)
  {
    assert Moved(b, to, now).transitions[..|b.transitions|] == b.transitions;
  }

  datatype Event = AllowEvent | SuccessEvent | FailureEvent

  function After(b: Breaker, e: Event, now: nat -> int): Breaker {
    match e
    case AllowEvent => Allowed(b, now).1
    case SuccessEvent => Succeeded(b, now)
    case FailureEvent => Failed(b, now)
  }

  lemma OpeningConsistent(b: Breaker, now: nat -> int)
    requires ValidConfig(b.cfg) && Path(b.transitions, b.state) && b.state != Open
    requires b.tripWindows == Entered(b.transitions, Open) && b.recoveries == Entered(b.transitions, Closed)
    requires Streak(b.transitions) == b.tripIndex
    ensures Consistent(Opened(b, now))
  {
    MovedHistory(b, Open, now);
  }

  lemma RecoveryConsistent(b: Breaker, now: nat -> int)
    requires Consistent(b) && b.state != Closed
    ensures Consistent(Recovered(b, now))
  {
    MovedHistory(b, Closed, now);
  }

  lemma ProbeConsistent(b: Breaker, now: nat -> int)
    requires Consistent(b) && b.state == Open
    ensures Consistent(Moved(b, HalfOpen, now).(probeIssued := true))
  {
    MovedHistory(b, HalfOpen, now);
  }

  lemma AllowConsistent(b: Breaker, now: nat -> int)
    requires Consistent(b)
    ensures Consistent(Allowed(b, now).1)
  {
    if b.state == Open { ProbeConsistent(b.(ticks := b.ticks + 1), now); }
  }

  lemma FailureConsistent(b: Breaker, now: nat -> int)
    requires Consistent(b)
    ensures Consistent(Failed(b, now))
  {
    if b.state == Closed {
      OpeningConsistent(b.(consecFails := b.consecFails + 1), now);
    } else if b.state == HalfOpen {
      OpeningConsistent(b.(tripIndex := b.tripIndex + 1), now);
    }
  }

  /** Every call of every public method, in any order and at any time, keeps the invariant. */
  lemma EveryCallConsistent(b: Breaker, e: Event, now: nat -> int)
    requires Consistent(b)
    ensures Consistent(After(b, e, now))
  {
    match e
    case AllowEvent => AllowConsistent(b, now);
    case SuccessEvent => if b.state != Closed { RecoveryConsistent(b, now); }
    case FailureEvent => FailureConsistent(b, now);
  }

  function Runs(b: Breaker, es: seq<Event>, now: nat -> int): Breaker
    decreases es
  {
    if es == [] then b else Runs(After(b, es[0], now), es[1..], now)
  }

  lemma {:induction false} RunsConsistent(b: Breaker, es: seq<Event>, now: nat -> int)
    requires Consistent(b)
    ensures Consistent(Runs(b, es, now))
    decreases es
  {
    hide Consistent, After;
    if es != [] {
      EveryCallConsistent(b, es[0], now);
      RunsConsistent(After(b, es[0], now), es[1..], now);
    }
  }

  /** A breaker as constructed, from any configuration. */
  function Constructed(cfg: Config): Breaker
    requires IsDuration(cfg.baseBackoff) && IsDuration(cfg.maxBackoff)
  {
    NewBreaker(Defaulted(cfg))
  }

  /** Hence every breaker that can be reached from a constructed one is consistent. */
  lemma ReachableConsistent(cfg: Config, es: seq<Event>, now: nat -> int)
    requires IsDuration(cfg.baseBackoff) && IsDuration(cfg.maxBackoff)
    ensures Consistent(Runs(Constructed(cfg), es, now))
  {
    RunsConsistent(Constructed(cfg), es, now);
  }

  // ---------------------------------------------------------------- what the recovery count counts

  /** How often the breaker was closed out of the given state. */
  function Closings(ts: seq<Transition>, from: CircuitState): nat {
    if ts == [] then 0
    else
      var t := ts[|ts| - 1];
      Closings(ts[..|ts| - 1], from) + if t.to == Closed && t.from == from then 1 else 0
  }

  lemma {:induction false} ClosingsSplit(ts: seq<Transition>)
    requires forall i :: 0 <= i < |ts| ==> Edge(ts[i])
    ensures Entered(ts, Closed) == Closings(ts, HalfOpen) + Closings(ts, Open)
  {
    if ts != [] {
      assert Edge(ts[|ts| - 1]);
      ClosingsSplit(ts[..|ts| - 1]);
    }
  }

  lemma MovedClosings(b: Breaker, to: CircuitState, now: nat -> int, from: CircuitState)
    ensures Closings(Moved(b, to, now).transitions, from) ==
            Closings(b.transitions, from) + if to == Closed && b.state == from then 1 else 0
  {
    assert Moved(b, to, now).transitions[..|b.transitions|] == b.transitions;
  }

  /** The successes among the calls that arrive while the breaker is open. */
  function Strays(b: Breaker, es: seq<Event>, now: nat -> int): nat
    decreases es
  {
    if es == [] then 0
    else (if es[0] == SuccessEvent && b.state == Open then 1 else 0) + Strays(After(b, es[0], now), es[1..], now)
  }

  lemma CallClosings(b: Breaker, e: Event, now: nat -> int)
    ensures Closings(After(b, e, now).transitions, Open) ==
            Closings(b.transitions, Open) + if e == SuccessEvent && b.state == Open then 1 else 0
  {
    hide Closings, Backoff;
    match e
    case AllowEvent => MovedClosings(b.(ticks := b.ticks + 1), HalfOpen, now, Open);
    case SuccessEvent => MovedClosings(b, Closed, now, Open);
    case FailureEvent =>
      MovedClosings(b.(consecFails := b.consecFails + 1), Open, now, Open);
      MovedClosings(b.(tripIndex := b.tripIndex + 1), Open, now, Open);
  }

  lemma {:induction false} RunsClosings(b: Breaker, es: seq<Event>, now: nat -> int)
    ensures Closings(Runs(b, es, now).transitions, Open) == Closings(b.transitions, Open) + Strays(b, es, now)
    decreases es
  {
    hide Closings, After;
    if es != [] {
      CallClosings(b, es[0], now);
      RunsClosings(After(b, es[0], now), es[1..], now);
    }
  }

  /** The k-th call is a success that finds the breaker open. */
  predicate StrayAt(b: Breaker, es: seq<Event>, now: nat -> int, k: nat) {
    k < |es| && es[k] == SuccessEvent && Runs(b, es[..k], now).state == Open
  }

  lemma StrayLater(b: Breaker, es: seq<Event>, now: nat -> int, k: nat)
    requires es != []
    ensures StrayAt(b, es, now, k + 1) <==> StrayAt(After(b, es[0], now), es[1..], now, k)
  {
    hide After;
    if k + 1 < |es| { assert es[..k + 1][1..] == es[1..][..k]; }
  }

  lemma {:induction false} StraysMean(b: Breaker, es: seq<Event>, now: nat -> int)
    ensures Strays(b, es, now) > 0 <==> exists k: nat :: StrayAt(b, es, now, k)
    decreases es
  {
    hide After, StrayAt;
    if es == [] {
      NoCallNoStray(b, now);
    } else {
      var next := After(b, es[0], now);
      StraysMean(next, es[1..], now);
      FirstStray(b, es, now);
      forall k: nat ensures StrayAt(b, es, now, k + 1) <==> StrayAt(next, es[1..], now, k) { StrayLater(b, es, now, k); }
      if k: nat :| StrayAt(b, es, now, k) && k > 0 { assert StrayAt(next, es[1..], now, k - 1); }
      if k: nat :| StrayAt(next, es[1..], now, k) { assert StrayAt(b, es, now, k + 1); }
    }
  }

  lemma NoCallNoStray(b: Breaker, now: nat -> int)
    ensures forall k: nat :: !StrayAt(b, [], now, k)
  {
  }

  lemma FirstStray(b: Breaker, es: seq<Event>, now: nat -> int)
    requires es != []
    ensures StrayAt(b, es, now, 0) <==> es[0] == SuccessEvent && b.state == Open
  {
    assert es[..0] == [];
  }

  /**
   The recovery count is the number of closings out of half-open plus the number of successes that
   arrived while the breaker was open. So it is the number of closings out of half-open exactly when
   no success ever arrives while the breaker is open.
   */
  lemma RecoveriesCounted(cfg: Config, es: seq<Event>, now: nat -> int)
    requires IsDuration(cfg.baseBackoff) && IsDuration(cfg.maxBackoff)
    ensures var b := Runs(Constructed(cfg), es, now);
            && b.recoveries == Closings(b.transitions, HalfOpen) + Strays(Constructed(cfg), es, now)
            && (b.recoveries == Closings(b.transitions, HalfOpen) <==> forall k: nat :: !StrayAt(Constructed(cfg), es, now, k))
  {
    hide StrayAt, Runs, Closings, Entered;
    var b := Runs(Constructed(cfg), es, now);
    ReachableConsistent(cfg, es, now);
    ClosingsSplit(b.transitions);
    RunsClosings(Constructed(cfg), es, now);
    NeverClosed(Open);
    StraysMean(Constructed(cfg), es, now);
  }

  lemma NeverClosed(from: CircuitState)
    ensures Closings([], from) == 0
  {
  }

  /** `n` failures in a row, then a success. */
  function TripThenSuccess(n: nat): seq<Event> {
    if n == 0 then [SuccessEvent] else [FailureEvent] + TripThenSuccess(n - 1)
  }

  lemma FailureClosed(b: Breaker, now: nat -> int)
    requires b.state == Closed && b.consecFails < b.cfg.tripThreshold
    ensures var t := Failed(b, now);
            && t.cfg == b.cfg && t.recoveries == b.recoveries
            && if b.consecFails + 1 == b.cfg.tripThreshold then t.state == Open
               else t.state == Closed && t.consecFails == b.consecFails + 1
  {
    hide Backoff;
  }

  lemma SuccessOpen(b: Breaker, now: nat -> int)
    requires b.state == Open
    ensures Runs(b, [SuccessEvent], now).recoveries == b.recoveries + 1 && Strays(b, [SuccessEvent], now) == 1
  {
    assert [SuccessEvent][1..] == [];
    assert Runs(b, [SuccessEvent], now) == Runs(Succeeded(b, now), [], now) == Succeeded(b, now);
  }

  lemma {:induction false} TripThenSuccessStrays(b: Breaker, n: nat, now: nat -> int)
    requires n > 0 && b.state == Closed && b.consecFails + n == b.cfg.tripThreshold
    ensures var es := TripThenSuccess(n);
            Runs(b, es, now).recoveries == b.recoveries + 1 && Strays(b, es, now) == 1
    decreases n
  {
    hide Failed, Succeeded;
    var es, t := TripThenSuccess(n), Failed(b, now);
    FailureClosed(b, now);
    assert es[0] == FailureEvent && es[1..] == TripThenSuccess(n - 1);
    if n == 1 { SuccessOpen(t, now); } else { TripThenSuccessStrays(t, n - 1, now); }
  }

  /** Enough failures to trip it, then a success: a recovery without any probe, whatever the configuration. */
  lemma RecoveryWithoutProbe(cfg: Config, now: nat -> int)
    requires IsDuration(cfg.baseBackoff) && IsDuration(cfg.maxBackoff)
    ensures var start := Constructed(cfg);
            var b := Runs(start, TripThenSuccess(start.cfg.tripThreshold), now);
            b.recoveries == 1 && Closings(b.transitions, HalfOpen) == 0
  {
    hide Runs, Strays, Closings, TripThenSuccess, StrayAt;
    var start := Constructed(cfg);
    var es := TripThenSuccess(start.cfg.tripThreshold);
    TripThenSuccessStrays(start, start.cfg.tripThreshold, now);
    RecoveriesCounted(cfg, es, now);
  }

  /** An open breaker refuses until its hold has run out and never refuses past the maximum hold. */
  lemma HoldIsExact(b: Breaker, now: nat -> int)
    requires Consistent(b) && b.state == Open
    ensures Allowed(b, now).0 <==> now(b.ticks) >= b.openedAt + Backoff(b.cfg, Streak(b.transitions) - 1)
    ensures now(b.ticks) >= b.openedAt + b.cfg.maxBackoff ==> Allowed(b, now).0
  {
  }

  /** While the probe is out every further request is refused, at whatever time it comes. */
  lemma {:induction false} OneProbe(b: Breaker, es: seq<Event>, now: nat -> int)
    requires Consistent(b) && b.state == HalfOpen
    requires forall i :: 0 <= i < |es| ==> es[i] == AllowEvent
    ensures Runs(b, es, now) == b && !Allowed(b, now).0
    decreases es
  {
    if es != [] { OneProbe(b, es[1..], now); }
  }
}
