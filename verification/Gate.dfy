/**
 The concurrency limiter and the circuit guard of internal/transport/http/middleware.go
 as a machine over their two atomic counters. Every atomic access is a step of its own,
 and any number of requests interleave. A guarded response is logged at the step that
 updates (or deliberately leaves) the guard's counter.
 */
module Gate {
  import opened Common

  /** `maxConcurrentRequests` */
  const MAX_CONCURRENT: nat := 2500

  /** `limit` is the limiter's constant; a threshold of zero or less switches the guard off. */
  datatype Config = Config(limit: nat, threshold: int)

  /**
   Where a request is: over the limit and about to take its increment back; let in by the
   limiter; caught by the guard and about to reset it; in the handler; or about to run the
   limiter's deferred decrement.
   */
  datatype Phase = Rejecting(guarded: bool) | Admitted(guarded: bool) | Tripped | Running | Leaving

  /** How a handler ends: 2xx/3xx, 429, any other error status, or a panic. */
  datatype Outcome = Good | TooMany | Failed | Panicked

  /** A response of the guarded endpoint. */
  datatype Response = Valid | Throttled | Invalid

  datatype State = State(inFlight: int, consecutiveInvalid: int, phases: map<nat, Phase>, log: seq<Response>)

  datatype Step =
    | Enter(r: nat, guarded: bool)
    | Reject(r: nat)
    | Load(r: nat)
    | Reset(r: nat)
    | Finish(r: nat, outcome: Outcome)
    | Bypass(r: nat)
    | Leave(r: nat)

  const START := State(0, 0, map[], [])

  function Without(phases: map<nat, Phase>, r: nat): map<nat, Phase> {
    map x | x in phases && x != r :: phases[x]
  }

  /** One atomic step; a step that is not enabled changes nothing. */
  function Next(cfg: Config, s: State, step: Step): State {
    match step
    case Enter(r, guarded) =>
      if r in s.phases then s
      else
        s.(inFlight := s.inFlight + 1,
           phases := s.phases[r := if s.inFlight + 1 > cfg.limit then Rejecting(guarded) else Admitted(guarded)])
    case Reject(r) =>
      if r in s.phases && s.phases[r].Rejecting?
      then s.(inFlight := s.inFlight - 1, phases := Without(s.phases, r),
              log := if s.phases[r].guarded then s.log + [Throttled] else s.log)
      else s
    case Load(r) =>
      if r in s.phases && s.phases[r] == Admitted(true)
      then s.(phases := s.phases[r :=
                if cfg.threshold > 0 && s.consecutiveInvalid >= cfg.threshold then Tripped else Running])
      else s
    case Reset(r) =>
      if r in s.phases && s.phases[r].Tripped?
      then s.(consecutiveInvalid := 0, phases := s.phases[r := Leaving], log := s.log + [Throttled])
      else s
    case Finish(r, outcome) =>
      if r in s.phases && s.phases[r].Running?
      then
        var t := s.(phases := s.phases[r := Leaving]);
        match outcome
        case Good => t.(consecutiveInvalid := 0, log := s.log + [Valid])
        case TooMany => t.(log := s.log + [Throttled])
        case _ => t.(consecutiveInvalid := s.consecutiveInvalid + 1, log := s.log + [Invalid])
      else s
    case Bypass(r) =>
      if r in s.phases && s.phases[r] == Admitted(false) then s.(phases := s.phases[r := Leaving]) else s
    case Leave(r) =>
      if r in s.phases && s.phases[r].Leaving?
      then s.(inFlight := s.inFlight - 1, phases := Without(s.phases, r))
      else s
  }

  function Run(cfg: Config, s: State, steps: seq<Step>): State
    decreases |steps|
  {
    if steps == [] then s else Run(cfg, Next(cfg, s, steps[0]), steps[1..])
  }

  // ----- streaks -----

  /** Invalid responses at the end of the log. */
  function Trailing(log: seq<Response>): nat {
    if log == [] || log[|log| - 1] != Invalid then 0 else 1 + Trailing(log[..|log| - 1])
  }

  /** The longest run of consecutive invalid responses anywhere in the log. */
  function LongestStreak(log: seq<Response>): nat {
    if log == [] then 0
    else
      var before := LongestStreak(log[..|log| - 1]);
      if Trailing(log) > before then Trailing(log) else before
  }

  /** `LongestStreak` is what it says: no stretch of invalid responses is longer. */
  lemma {:induction false} StretchWithin(log: seq<Response>, i: nat, j: nat)
    requires i <= j <= |log| && forall k :: i <= k < j ==> log[k] == Invalid
    ensures j - i <= LongestStreak(log)
  {
    if j < |log| {
      StretchWithin(log[..|log| - 1], i, j);
    } else {
      TrailingStretch(log, i);
      if log != [] {
        assert LongestStreak(log) >= Trailing(log);
      }
    }
  }

  lemma {:induction false} TrailingStretch(log: seq<Response>, i: nat)
    requires i <= |log| && forall k :: i <= k < |log| ==> log[k] == Invalid
    ensures Trailing(log) >= |log| - i
  {
    if i < |log| {
      TrailingStretch(log[..|log| - 1], i);
    }
  }

  // ----- counting requests -----

  /** The requests in a phase that satisfies `f`. */
  function Members(phases: map<nat, Phase>, f: Phase -> bool): set<nat> {
    set r | r in phases && f(phases[r])
  }

  function Count(phases: map<nat, Phase>, f: Phase -> bool): nat {
    |Members(phases, f)|
  }

  const LET_IN: Phase -> bool := (p: Phase) => !p.Rejecting?
  const IN_HANDLER: Phase -> bool := (p: Phase) => p.Running?

  /** The requests the limiter has let in and that have not left yet. */
  function Inside(phases: map<nat, Phase>): nat {
    Count(phases, LET_IN)
  }

  /** The requests past the guard's load and before its update. */
  function InHandler(phases: map<nat, Phase>): nat {
    Count(phases, IN_HANDLER)
  }

  lemma AddCount(phases: map<nat, Phase>, f: Phase -> bool, r: nat, phase: Phase)
    requires r !in phases
    ensures Count(phases[r := phase], f) == Count(phases, f) + (if f(phase) then 1 else 0)
  {
    if f(phase) {
      assert Members(phases[r := phase], f) == Members(phases, f) + {r};
    } else {
      assert Members(phases[r := phase], f) == Members(phases, f);
    }
  }

  lemma DropCount(phases: map<nat, Phase>, f: Phase -> bool, r: nat)
    requires r in phases
    ensures Count(Without(phases, r), f) == Count(phases, f) - (if f(phases[r]) then 1 else 0)
    ensures |Without(phases, r)| == |phases| - 1
  {
    var rest := Without(phases, r);
    AddCount(rest, f, r, phases[r]);
    assert rest[r := phases[r]] == phases;
    assert rest.Keys == phases.Keys - {r};
  }

  lemma MoveCount(phases: map<nat, Phase>, f: Phase -> bool, r: nat, phase: Phase)
    requires r in phases
    ensures Count(phases[r := phase], f) ==
      Count(phases, f) - (if f(phases[r]) then 1 else 0) + (if f(phase) then 1 else 0)
    ensures |phases[r := phase]| == |phases|
  {
    var rest := Without(phases, r);
    DropCount(phases, f, r);
    AddCount(rest, f, r, phase);
    assert rest[r := phase] == phases[r := phase];
    assert phases[r := phase].Keys == phases.Keys;
  }

  lemma CountAtMost(phases: map<nat, Phase>, f: Phase -> bool, g: Phase -> bool)
    requires forall p :: f(p) ==> g(p)
    ensures Count(phases, f) <= Count(phases, g) <= |phases|
  {
    SubsetSize(Members(phases, f), Members(phases, g));
    SubsetSize(Members(phases, g), phases.Keys);
  }

  /** How the three counts change when a new request enters. */
  lemma EnterCounts(phases: map<nat, Phase>, r: nat, phase: Phase)
    requires r !in phases && !phase.Running?
    ensures |phases[r := phase]| == |phases| + 1
    ensures Inside(phases[r := phase]) == Inside(phases) + (if phase.Rejecting? then 0 else 1)
    ensures InHandler(phases[r := phase]) == InHandler(phases)
    ensures InHandler(phases) <= Inside(phases) <= |phases|
  {
    AddCount(phases, LET_IN, r, phase);
    AddCount(phases, IN_HANDLER, r, phase);
    CountAtMost(phases, IN_HANDLER, LET_IN);
  }

  /** How they change when a request inside moves to another phase inside. */
  lemma MoveCounts(phases: map<nat, Phase>, r: nat, phase: Phase)
    requires r in phases && !phases[r].Rejecting? && !phase.Rejecting?
    ensures |phases[r := phase]| == |phases| && Inside(phases[r := phase]) == Inside(phases)
    ensures InHandler(phases[r := phase]) ==
      InHandler(phases) - (if phases[r].Running? then 1 else 0) + (if phase.Running? then 1 else 0)
    ensures InHandler(phases[r := phase]) <= Inside(phases)
  {
    MoveCount(phases, LET_IN, r, phase);
    MoveCount(phases, IN_HANDLER, r, phase);
    CountAtMost(phases[r := phase], IN_HANDLER, LET_IN);
  }

  /** How they change when a request goes. */
  lemma LeaveCounts(phases: map<nat, Phase>, r: nat)
    requires r in phases && !phases[r].Running?
    ensures |Without(phases, r)| == |phases| - 1
    ensures Inside(Without(phases, r)) <= Inside(phases)
    ensures InHandler(Without(phases, r)) == InHandler(phases)
  {
    DropCount(phases, LET_IN, r);
    DropCount(phases, IN_HANDLER, r);
  }

  // ----- the invariant -----

  ghost predicate LimiterInv(cfg: Config, s: State) {
    s.inFlight == |s.phases| && Inside(s.phases) <= cfg.limit
  }

  ghost predicate GuardInv(cfg: Config, s: State) {
    && s.consecutiveInvalid >= Trailing(s.log)
    && s.consecutiveInvalid + InHandler(s.phases) <= cfg.threshold - 1 + cfg.limit
    && LongestStreak(s.log) <= cfg.threshold - 1 + cfg.limit
  }

  /** Whatever the step, the in-flight counter counts the requests and the limit holds. */
  lemma LimiterStep(cfg: Config, s: State, step: Step)
    requires LimiterInv(cfg, s)
    ensures LimiterInv(cfg, Next(cfg, s, step))
  {
    hide Inside, InHandler, Without;
    var r := step.r;
    match step
    case Enter(_, guarded) =>
      if r !in s.phases {
        EnterCounts(s.phases, r, Rejecting(guarded));
        EnterCounts(s.phases, r, Admitted(guarded));
      }
    case Reject(_) =>
      if r in s.phases && s.phases[r].Rejecting? {
        LeaveCounts(s.phases, r);
      }
    case Leave(_) =>
      if r in s.phases && s.phases[r].Leaving? {
        LeaveCounts(s.phases, r);
      }
    case _ =>
      if r in s.phases && !s.phases[r].Rejecting? {
        MoveCounts(s.phases, r, Tripped);
        MoveCounts(s.phases, r, Running);
        MoveCounts(s.phases, r, Leaving);
      }
  }

  lemma LogGrows(log: seq<Response>, e: Response)
    ensures Trailing(log + [e]) == if e == Invalid then Trailing(log) + 1 else 0
    ensures LongestStreak(log + [e]) ==
      if Trailing(log + [e]) > LongestStreak(log) then Trailing(log + [e]) else LongestStreak(log)
  {
    assert (log + [e])[..|log|] == log;
  }

  lemma GuardStep(cfg: Config, s: State, step: Step)
    requires cfg.threshold >= 1 && LimiterInv(cfg, s) && GuardInv(cfg, s)
    ensures GuardInv(cfg, Next(cfg, s, step))
  {
    hide Inside, InHandler, Without, Trailing, LongestStreak;
    var r := step.r;
    match step
    case Enter(_, guarded) =>
      if r !in s.phases {
        EnterCounts(s.phases, r, Rejecting(guarded));
        EnterCounts(s.phases, r, Admitted(guarded));
      }
    case Reject(_) =>
      if r in s.phases && s.phases[r].Rejecting? {
        LeaveCounts(s.phases, r);
        LogGrows(s.log, Throttled);
      }
    case Load(_) =>
      if r in s.phases && s.phases[r].Admitted? {
        MoveCounts(s.phases, r, Tripped);
        MoveCounts(s.phases, r, Running);
      }
    case Reset(_) =>
      if r in s.phases && s.phases[r].Tripped? {
        MoveCounts(s.phases, r, Leaving);
        LogGrows(s.log, Throttled);
      }
    case Finish(_, _) =>
      if r in s.phases && s.phases[r].Running? {
        FinishKeepsGuard(cfg, s, step);
      }
    case Bypass(_) =>
      if r in s.phases && s.phases[r].Admitted? {
        MoveCounts(s.phases, r, Leaving);
      }
    case Leave(_) =>
      if r in s.phases && s.phases[r].Leaving? {
        LeaveCounts(s.phases, r);
      }
  }

  lemma FinishKeepsGuard(cfg: Config, s: State, step: Step)
    requires cfg.threshold >= 1 && LimiterInv(cfg, s) && GuardInv(cfg, s)
    requires step.Finish? && step.r in s.phases && s.phases[step.r].Running?
    ensures GuardInv(cfg, Next(cfg, s, step))
  {
    hide Inside, InHandler, Trailing, LongestStreak;
    MoveCounts(s.phases, step.r, Leaving);
    LogGrows(s.log, Valid);
    LogGrows(s.log, Throttled);
    LogGrows(s.log, Invalid);
  }

  lemma {:induction false} LimiterRun(cfg: Config, s: State, steps: seq<Step>)
    requires LimiterInv(cfg, s)
    ensures LimiterInv(cfg, Run(cfg, s, steps))
    decreases |steps|
  {
    hide LimiterInv, Next;
    if steps != [] {
      LimiterStep(cfg, s, steps[0]);
      LimiterRun(cfg, Next(cfg, s, steps[0]), steps[1..]);
    }
  }

  lemma {:induction false} GuardRun(cfg: Config, s: State, steps: seq<Step>)
    requires cfg.threshold >= 1 && LimiterInv(cfg, s) && GuardInv(cfg, s)
    ensures GuardInv(cfg, Run(cfg, s, steps))
    decreases |steps|
  {
    hide LimiterInv, GuardInv, Next;
    if steps != [] {
      LimiterStep(cfg, s, steps[0]);
      GuardStep(cfg, s, steps[0]);
      GuardRun(cfg, Next(cfg, s, steps[0]), steps[1..]);
    }
  }

  lemma StartInside()
    ensures Inside(map[]) == 0 && InHandler(map[]) == 0
  {
    CountAtMost(map[], IN_HANDLER, LET_IN);
  }

  /**
   Limiter, over every interleaving: the counter is the number of requests that are inside
   or being rejected, never more than `limit` are inside, and it is zero when all are gone.
   */
  lemma InFlightExact(cfg: Config, steps: seq<Step>)
    ensures var s := Run(cfg, START, steps);
      && s.inFlight == |s.phases|
      && Inside(s.phases) <= cfg.limit
      && (s.phases == map[] ==> s.inFlight == 0)
  {
    StartInside();
    LimiterRun(cfg, START, steps);
  }

  /**
   Guard, over every interleaving: with threshold `t >= 1` behind a limiter of `K` the log
   never shows more than `t - 1 + K` consecutive invalid responses.
   */
  lemma StreakBounded(cfg: Config, steps: seq<Step>)
    requires cfg.threshold >= 1 && cfg.limit >= 1
    ensures LongestStreak(Run(cfg, START, steps).log) <= cfg.threshold - 1 + cfg.limit
  {
    StartInside();
    GuardRun(cfg, START, steps);
  }

  /** With the limiter's own constant: at most `t + 2499`. */
  lemma StreakBoundedInService(threshold: int, steps: seq<Step>, i: nat, j: nat)
    requires threshold >= 1
    requires var log := Run(Config(MAX_CONCURRENT, threshold), START, steps).log;
      i <= j <= |log| && forall k :: i <= k < j ==> log[k] == Invalid
    ensures j - i <= threshold + 2499
  {
    var cfg := Config(MAX_CONCURRENT, threshold);
    StreakBounded(cfg, steps);
    StretchWithin(Run(cfg, START, steps).log, i, j);
  }

  // ----- when the guard throttles -----

  /** Invalid responses after the last valid one. */
  function SinceValid(log: seq<Response>): nat {
    if log == [] || log[|log| - 1] == Valid then 0
    else SinceValid(log[..|log| - 1]) + (if log[|log| - 1] == Invalid then 1 else 0)
  }

  /** Where the log shows invalid responses from `from` on. */
  function InvalidFrom(log: seq<Response>, from: nat): set<nat> {
    set k: nat | from <= k < |log| && log[k] == Invalid
  }

  /** `SinceValid` is what it says: behind the last valid response each invalid one counts. */
  lemma {:induction false} SinceValidCounts(log: seq<Response>) returns (from: nat)
    ensures from <= |log| && (from == 0 || log[from - 1] == Valid)
    ensures forall k :: from <= k < |log| ==> log[k] != Valid
    ensures SinceValid(log) == |InvalidFrom(log, from)|
  {
    var n := |log|;
    if n == 0 || log[n - 1] == Valid {
      from := n;
      assert InvalidFrom(log, n) == {};
    } else {
      from := SinceValidCounts(log[..n - 1]);
      InvalidFromStep(log, from);
    }
  }

  lemma InvalidFromStep(log: seq<Response>, from: nat)
    requires from < |log|
    ensures |InvalidFrom(log, from)| ==
      |InvalidFrom(log[..|log| - 1], from)| + (if log[|log| - 1] == Invalid then 1 else 0)
  {
    var n := |log| - 1;
    assert InvalidFrom(log, from) == InvalidFrom(log[..n], from) + (if log[n] == Invalid then {n} else {});
  }

  lemma LogGrowsSince(log: seq<Response>, e: Response)
    ensures SinceValid(log + [e]) ==
      if e == Valid then 0 else SinceValid(log) + (if e == Invalid then 1 else 0)
  {
    assert (log + [e])[..|log|] == log;
  }

  /** The counter never exceeds the number of invalid responses after the last valid one. */
  ghost predicate CounterJustified(s: State) {
    0 <= s.consecutiveInvalid <= SinceValid(s.log)
  }

  lemma CounterStep(cfg: Config, s: State, step: Step)
    requires CounterJustified(s)
    ensures CounterJustified(Next(cfg, s, step))
  {
    hide SinceValid, Without;
    LogGrowsSince(s.log, Valid);
    LogGrowsSince(s.log, Throttled);
    LogGrowsSince(s.log, Invalid);
  }

  lemma {:induction false} CounterRun(cfg: Config, s: State, steps: seq<Step>)
    requires CounterJustified(s)
    ensures CounterJustified(Run(cfg, s, steps))
    decreases |steps|
  {
    hide CounterJustified, Next;
    if steps != [] {
      CounterStep(cfg, s, steps[0]);
      CounterRun(cfg, Next(cfg, s, steps[0]), steps[1..]);
    }
  }

  /**
   Over every interleaving the guard throttles only with a reason: the counter is at most
   the number of invalid responses after the last valid one, so a request is caught at its
   load only if that number has reached the threshold, and none when the guard is off.
   */
  lemma ThrottledForReason(cfg: Config, steps: seq<Step>, r: nat)
    ensures var s := Run(cfg, START, steps);
      && 0 <= s.consecutiveInvalid <= SinceValid(s.log)
      && (r in s.phases && s.phases[r] == Admitted(true) && Next(cfg, s, Load(r)).phases[r].Tripped? ==>
            1 <= cfg.threshold <= SinceValid(s.log))
  {
    hide SinceValid;
    EmptyLog();
    CounterRun(cfg, START, steps);
  }

  lemma EmptyLog()
    ensures SinceValid([]) == 0
  {
  }

  /** The limiter rejects only at the limit: a new request is let in if and only if fewer are in flight. */
  lemma RejectedAtLimit(cfg: Config, steps: seq<Step>, r: nat, guarded: bool)
    requires r !in Run(cfg, START, steps).phases
    ensures var s := Run(cfg, START, steps);
      var entered := Next(cfg, s, Enter(r, guarded));
      entered.phases[r] == if |s.phases| < cfg.limit then Admitted(guarded) else Rejecting(guarded)
  {
    InFlightExact(cfg, steps);
  }

  /** In the service: a new request is let in if and only if fewer than 2500 are in flight. */
  lemma RejectedInService(threshold: int, steps: seq<Step>, r: nat, guarded: bool)
    requires r !in Run(Config(MAX_CONCURRENT, threshold), START, steps).phases
    ensures var cfg := Config(MAX_CONCURRENT, threshold);
      var s := Run(cfg, START, steps);
      Next(cfg, s, Enter(r, guarded)).phases[r].Admitted? <==> |s.phases| < 2500
  {
    RejectedAtLimit(Config(MAX_CONCURRENT, threshold), steps, r, guarded);
  }
}
